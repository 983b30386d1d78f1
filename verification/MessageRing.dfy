/** One direction of a two-sided connection: the send half of one messenger, the receive half of its peer, and the
    reliable in-order transport between them. */
module MessageRing {
  newtype Byte = x: int | 0 <= x < 256

  type Bytes = seq<Byte>

  /** Half of `kCapacity` for each direction, `kRecvMaxBytes`, and the receives that fit. */
  const HALF: nat := 2048
  const SLOT: nat := 256
  const SLOTS: nat := 8
  const UINT32: nat := 0x1_0000_0000

  datatype Status = Ok | ResourceExhausted

  datatype Delivery = Retry | Delivered(message: Bytes)

  datatype Posted = Nothing | Posted(offset: nat, length: nat)

  /** The slot in which arrival number `k` is placed. */
  function SlotOf(k: nat): (offset: nat)
    ensures offset + SLOT <= HALF
  {
    k % SLOTS * SLOT
  }

  /** The first arrival number after the batch of receives that is posted while delivery number `k` is awaited. */
  function BatchEnd(k: nat): nat { (k / SLOTS + 1) * SLOTS }

  /** Arrivals of one batch have slots of their own. */
  lemma SlotsApart(j: nat, k: nat, d: nat)
    requires d <= j < k < BatchEnd(d)
    ensures SlotOf(j) + SLOT <= SlotOf(k) || SlotOf(k) + SLOT <= SlotOf(j)
  {
    var q := d / SLOTS;
    assert j / SLOTS == q == k / SLOTS;
  }

  /** After each delivery the next slot follows, or the batch is used up and the next one starts at the base. */
  lemma NextSlot(n: nat)
    ensures if SlotOf(n) + SLOT > HALF - SLOT
      then BatchEnd(n) == n + 1 && (n + 1) % SLOTS == 0 && SlotOf(n + 1) == 0 && BatchEnd(n + 1) == n + 1 + SLOTS
      else SlotOf(n + 1) == SlotOf(n) + SLOT && BatchEnd(n + 1) == BatchEnd(n)
    ensures n < BatchEnd(n)
  {
    NextInBatch(n);
  }

  lemma NextInBatch(n: nat)
    ensures (n + 1) / SLOTS == n / SLOTS + if n % SLOTS == SLOTS - 1 then 1 else 0
    ensures (n + 1) % SLOTS == if n % SLOTS == SLOTS - 1 then 0 else n % SLOTS + 1
    ensures n == n / SLOTS * SLOTS + n % SLOTS
  {}

  lemma FirstSlots(n: nat, i: nat)
    requires n % SLOTS == 0 && i < SLOTS
    ensures SlotOf(n + i) == i * SLOT
  {}

  /** The 32-bit counter wraps, and still counts modulo the number of slots. */
  lemma CounterWraps(total: nat, n: nat)
    requires total < UINT32 && total % SLOTS == n % SLOTS
    ensures (total + 1) % UINT32 < UINT32 && (total + 1) % UINT32 % SLOTS == (n + 1) % SLOTS
  {
    assert UINT32 % SLOTS == 0;
    if total + 1 == UINT32 { assert (total + 1) % SLOTS == 0; }
  }

  /** Message number `k` lies in its slot. */
  ghost predicate Intact(buffer: Bytes, k: nat, message: Bytes) {
    SlotOf(k) + |message| <= |buffer| && buffer[SlotOf(k)..SlotOf(k) + |message|] == message
  }

  lemma Placed(buffer: Bytes, k: nat, message: Bytes)
    requires SlotOf(k) + |message| <= |buffer| && buffer[SlotOf(k)..SlotOf(k) + |message|] == message
    ensures Intact(buffer, k, message)
  {}

  /** Writing into one slot of a batch leaves the messages in the others. */
  lemma OtherSlots(was: Bytes, now: Bytes, j: nat, k: nat, d: nat, message: Bytes)
    requires d <= j < k < BatchEnd(d) && |was| == |now| == HALF && |message| < SLOT && Intact(was, j, message)
    requires forall i | 0 <= i < HALF && !(SlotOf(k) <= i < SlotOf(k) + SLOT) :: now[i] == was[i]
    ensures Intact(now, j, message)
  {
    SlotsApart(j, k, d);
    hide SlotOf; hide BatchEnd;
    assert now[SlotOf(j)..SlotOf(j) + |message|] == was[SlotOf(j)..SlotOf(j) + |message|];
  }

  /** After `arrived` arrivals and `n` deliveries the rest of the batch is posted, slot by slot, and the lengths of
      the messages in between are queued. */
  ghost predicate QueuesOK(receives: seq<nat>, completions: seq<nat>, sent: seq<Bytes>, arrived: nat, n: nat) {
    && n <= arrived <= |sent| && arrived <= BatchEnd(n)
    && |receives| == BatchEnd(n) - arrived
    && (forall i {:trigger receives[i]} | 0 <= i < |receives| :: receives[i] == SlotOf(arrived + i))
    && |completions| == arrived - n
    && (forall i {:trigger completions[i]} | 0 <= i < |completions| :: completions[i] == |sent[n + i]|)
  }

  /** Every message that has arrived and is not yet delivered lies in its slot. */
  ghost predicate AllIntact(buffer: Bytes, sent: seq<Bytes>, arrived: nat, n: nat)
    requires arrived <= |sent|
  {
    forall k {:trigger sent[k]} | n <= k < arrived :: Intact(buffer, k, sent[k])
  }

  lemma NothingYet(buffer: Bytes)
    ensures AllIntact(buffer, [], 0, 0)
  {}

  /** What is copied out is the oldest message; the others stay. */
  lemma OldestIntact(buffer: Bytes, sent: seq<Bytes>, arrived: nat, n: nat)
    requires n < arrived <= |sent| && AllIntact(buffer, sent, arrived, n)
    ensures SlotOf(n) + |sent[n]| <= |buffer| && buffer[SlotOf(n)..SlotOf(n) + |sent[n]|] == sent[n]
    ensures AllIntact(buffer, sent, arrived, n + 1)
  {
    assert Intact(buffer, n, sent[n]);
  }

  lemma OneMoreSent(receives: seq<nat>, completions: seq<nat>, sent: seq<Bytes>, arrived: nat, n: nat, buffer: Bytes, m: Bytes)
    requires QueuesOK(receives, completions, sent, arrived, n) && AllIntact(buffer, sent, arrived, n)
    ensures QueuesOK(receives, completions, sent + [m], arrived, n) && AllIntact(buffer, sent + [m], arrived, n)
  {
    hide SlotOf; hide BatchEnd; hide Intact;
    forall k | n <= k < arrived ensures Intact(buffer, k, (sent + [m])[k]) { assert (sent + [m])[k] == sent[k]; }
  }

  lemma OneMoreArrived(receives: seq<nat>, completions: seq<nat>, sent: seq<Bytes>, arrived: nat, n: nat)
    requires QueuesOK(receives, completions, sent, arrived, n) && arrived < |sent| && receives != []
    ensures receives[0] == SlotOf(arrived)
    ensures QueuesOK(receives[1..], completions + [|sent[arrived]|], sent, arrived + 1, n)
  {
    hide SlotOf; hide BatchEnd;
    assert receives[0] == SlotOf(arrived + 0);
  }

  /** A message written into the next slot is intact, and so are the others. */
  lemma PlacedApart(was: Bytes, now: Bytes, sent: seq<Bytes>, arrived: nat, n: nat)
    requires n <= arrived < |sent| && arrived < BatchEnd(n) && |was| == |now| == HALF
    requires forall k | 0 <= k < |sent| :: |sent[k]| < SLOT
    requires AllIntact(was, sent, arrived, n)
    requires now[SlotOf(arrived)..SlotOf(arrived) + |sent[arrived]|] == sent[arrived]
    requires forall i | 0 <= i < HALF && !(SlotOf(arrived) <= i < SlotOf(arrived) + SLOT) :: now[i] == was[i]
    ensures AllIntact(now, sent, arrived + 1, n)
  {
    hide SlotOf; hide BatchEnd; hide Intact;
    Placed(now, arrived, sent[arrived]);
    forall k | n <= k < arrived ensures Intact(now, k, sent[k]) {
      OtherSlots(was, now, k, arrived, n, sent[k]);
    }
  }

  /** A delivery inside a batch. */
  lemma OneMoreDelivered(receives: seq<nat>, completions: seq<nat>, sent: seq<Bytes>, arrived: nat, n: nat)
    requires QueuesOK(receives, completions, sent, arrived, n) && completions != []
    ensures completions[0] == |sent[n]|
    ensures BatchEnd(n + 1) == BatchEnd(n) ==> QueuesOK(receives, completions[1..], sent, arrived, n + 1)
    ensures BatchEnd(n) == n + 1 ==> receives == [] && arrived == n + 1
  {
    hide SlotOf; hide BatchEnd;
    assert completions[0] == |sent[n + 0]|;
  }

  /** A new batch of receives. */
  lemma NewBatch(receives: seq<nat>, sent: seq<Bytes>, n: nat)
    requires n % SLOTS == 0 && n <= |sent| && |receives| == SLOTS && forall i | 0 <= i < SLOTS :: receives[i] == i * SLOT
    ensures QueuesOK(receives, [], sent, n, n)
  {
    forall i | 0 <= i < SLOTS ensures receives[i] == SlotOf(n + i) { FirstSlots(n, i); }
  }

  class Link {
    // The send half.
    const sendBuffer: array<Byte>
    var sendNext: nat
    var sendTotal: nat
    var posted: Posted

    // The receive half.
    const recvBuffer: array<Byte>
    var recvNext: nat
    var recvTotal: nat

    // The network card: receives posted and not yet used, and lengths of completed receives.
    var receives: seq<nat>
    var completions: seq<nat>

    // All messages ever accepted for sending, how many of them have arrived, and all messages delivered.
    ghost var sent: seq<Bytes>
    ghost var arrived: nat
    ghost var delivered: seq<Bytes>

    ghost predicate SendValid()
      reads this, sendBuffer
    {
      && sendBuffer.Length == HALF && sendNext <= HALF && sendTotal < UINT32
      && (forall k | 0 <= k < |sent| :: |sent[k]| < SLOT)
      && (posted.Posted? ==>
            && posted.offset == sendNext && posted.offset + posted.length <= HALF
            && arrived + 1 == |sent|
            && sendBuffer[posted.offset..posted.offset + posted.length] == sent[|sent| - 1])
    }

    ghost predicate ReceiveValid()
      reads this, recvBuffer
    {
      && recvBuffer.Length == HALF && recvTotal < UINT32
      && recvNext == SlotOf(|delivered|) && recvTotal % SLOTS == |delivered| % SLOTS
      && QueuesOK(receives, completions, sent, arrived, |delivered|)
      && AllIntact(recvBuffer[..], sent, arrived, |delivered|)
    }

    /** The k-th message delivered is the k-th message sent, and everything still undelivered is intact. */
    ghost predicate Valid()
      reads this, sendBuffer, recvBuffer
    {
      && sendBuffer != recvBuffer
      && SendValid() && ReceiveValid()
      && (posted.Nothing? ==> arrived == |sent|)
      && delivered == sent[..|delivered|]
    }

    constructor ()
      ensures Valid() && sent == [] && delivered == []
      ensures sendBuffer.Length == recvBuffer.Length == 2048 && receives == [0, 256, 512, 768, 1024, 1280, 1536, 1792]
      ensures fresh(sendBuffer) && fresh(recvBuffer)
    {
      sendBuffer := new Byte[HALF](_ => 0);
      recvBuffer := new Byte[HALF](_ => 0);
      sendNext, sendTotal, posted := 0, 0, Nothing;
      recvNext, recvTotal, receives, completions := 0, 0, [], [];
      sent, arrived, delivered := [], 0, [];
      new;
      PrepareRecvBuffer();
      hide QueuesOK; hide SlotOf; hide BatchEnd; hide AllIntact;
      NothingYet(recvBuffer[..]);
      NewBatch(receives, [], 0);
      assert SendValid() && ReceiveValid();
    }

    /** Post a receive for every slot. The source asserts that all earlier receives have completed. */
    method PrepareRecvBuffer()
      requires recvTotal % SLOTS == 0
      modifies this`receives, this`recvNext
      ensures recvNext == 0 == SlotOf(0)
      ensures |receives| == |old(receives)| + 8 && receives[..|old(receives)|] == old(receives)
      ensures forall i | 0 <= i < 8 :: receives[|old(receives)| + i] == i * 256
    {
      var curr := 0;
      while curr <= HALF - SLOT
        invariant 0 <= curr <= HALF && curr % SLOT == 0
        invariant |receives| == |old(receives)| + curr / SLOT && receives[..|old(receives)|] == old(receives)
        invariant forall i | 0 <= i < curr / SLOT :: receives[|old(receives)| + i] == i * SLOT
        decreases HALF - curr
      {
        receives := receives + [curr];
        curr := curr + SLOT;
      }
      recvNext := 0;
    }

    /** The first part of `SendMessage`: reject what is too long, wrap around when the rest of the buffer is too
        short, copy and post. */
    method Post(message: Bytes) returns (status: Status)
      requires Valid() && posted.Nothing?
      modifies this`sendNext, this`sendTotal, this`posted, this`sent, sendBuffer
      ensures Valid()
      ensures status.ResourceExhausted? <==> |message| >= 256
      ensures status.Ok? ==> sent == old(sent) + [message] && posted == Posted(sendNext, |message|)
      ensures status.Ok? ==> sendNext == if old(sendNext) + |message| > HALF then 0 else old(sendNext)
      ensures status.ResourceExhausted? ==> sent == old(sent) && posted.Nothing? && sendNext == old(sendNext)
    {
      assert |delivered| <= |sent|;
      assert (sent + [message])[..|delivered|] == sent[..|delivered|];
      hide SlotOf; hide QueuesOK; hide AllIntact;
      OneMoreSent(receives, completions, sent, arrived, |delivered|, recvBuffer[..], message);
      if |message| >= SLOT { return ResourceExhausted; }
      if sendNext + |message| > HALF { sendNext := 0; }
      forall i | 0 <= i < |message| { sendBuffer[sendNext + i] := message[i]; }
      assert sendBuffer[sendNext..sendNext + |message|] == message;
      posted := Posted(sendNext, |message|);
      sendTotal := (sendTotal + 1) % UINT32;
      sent := sent + [message];
      assert recvBuffer[..] == old(recvBuffer[..]);
      assert ReceiveValid();
      assert SendValid();
      return Ok;
    }

    /** The transport moves the posted bytes into the oldest posted receive of the peer. */
    method Transfer()
      requires Valid() && posted.Posted? && receives != []
      modifies this`posted, this`receives, this`completions, this`arrived, this`sendNext, recvBuffer
      ensures Valid() && posted.Nothing? && sendNext == old(sendNext + posted.length) && arrived == old(arrived) + 1
      ensures sent == old(sent) && delivered == old(delivered)
    {
      hide SlotOf; hide BatchEnd; hide AllIntact;
      var slot, offset, length := receives[0], posted.offset, posted.length;
      ghost var k, was := arrived, recvBuffer[..];
      OneMoreArrived(receives, completions, sent, arrived, |delivered|);
      hide QueuesOK;
      forall i | 0 <= i < length { recvBuffer[slot + i] := sendBuffer[offset + i]; }
      assert recvBuffer[slot..slot + length] == sendBuffer[offset..offset + length] == sent[k];
      PlacedApart(was, recvBuffer[..], sent, k, |delivered|);
      receives := receives[1..];
      completions := completions + [length];
      arrived := arrived + 1;
      posted := Nothing;
      sendNext := sendNext + length;
    }

    /** `TryDeliverMessage`: a copy of the oldest completed receive. After the last slot all receives are posted again. */
    method TryDeliver() returns (d: Delivery)
      requires Valid()
      modifies this`recvNext, this`recvTotal, this`receives, this`completions, this`delivered
      ensures Valid() && sent == old(sent) && arrived == old(arrived)
      ensures d.Retry? <==> old(|delivered|) == arrived
      ensures d.Retry? ==> delivered == old(delivered)
      ensures d.Delivered? ==> d.message == sent[old(|delivered|)] && delivered == old(delivered) + [d.message]
    {
      hide SlotOf; hide BatchEnd; hide AllIntact;
      if completions == [] { return Retry; }
      ghost var n := |delivered|;
      NextSlot(n);
      CounterWraps(recvTotal, n);
      OneMoreDelivered(receives, completions, sent, arrived, n);
      OldestIntact(recvBuffer[..], sent, arrived, n);
      hide QueuesOK;
      var length := completions[0];
      var message := recvBuffer[recvNext..recvNext + length];
      completions := completions[1..];
      recvTotal := (recvTotal + 1) % UINT32;
      recvNext := recvNext + SLOT;
      delivered := delivered + [message];
      if recvNext > HALF - SLOT {
        PrepareRecvBuffer();
        NewBatch(receives, sent, n + 1);
      }
      return Delivered(message);
    }

    /** When every posted receive is used up, a message is there to be delivered: a waiting sender is never stuck. */
    lemma ReceiverCanGoOn()
      requires Valid() && receives == []
      ensures completions != [] && |delivered| < arrived
    {
      NextSlot(|delivered|);
    }
  }
}
