/** The Protocol Buffers wire format, as the public encoding guide gives it ("Base 128 Varints", "Packed Repeated
    Fields", "Last One Wins"): records of a tag and a varint or a length-delimited payload. */
module Wire {
  type Byte = x: int | 0 <= x < 256
  type Bytes = seq<Byte>

  datatype Option<+T> = None | Some(value: T)

  const UINT32: nat := 0x1_0000_0000
  const UINT64: nat := 0x1_0000_0000_0000_0000

  /** The longest encoding of a tag and of a 64-bit value. */
  const TAG_BYTES: nat := 5
  const VALUE_BYTES: nat := 10

  // ---------- Varints ----------

  function Varint(n: nat): Bytes {
    if n < 128 then [n] else [128 + n % 128] + Varint(n / 128)
  }

  function VarintSize(n: nat): (size: nat)
    ensures size >= 1
  {
    if n < 128 then 1 else 1 + VarintSize(n / 128)
  }

  lemma {:induction false} VarintSizeIsLength(n: nat)
    ensures |Varint(n)| == VarintSize(n)
  {
    if n >= 128 { VarintSizeIsLength(n / 128); }
  }

  /** The value of the varint at the front, of at most `limit` bytes, and what follows it. */
  function ReadVarint(b: Bytes, limit: nat): (r: Option<(nat, Bytes)>)
    ensures r.Some? ==> |r.value.1| < |b|
  {
    if b == [] || limit == 0 then None
    else if b[0] < 128 then Some((b[0], b[1..]))
    else
      var r := ReadVarint(b[1..], limit - 1);
      if r.None? then None else Some((b[0] - 128 + 128 * r.value.0, r.value.1))
  }

  lemma {:induction false} VarintRoundTrip(n: nat, rest: Bytes, limit: nat)
    requires VarintSize(n) <= limit
    ensures ReadVarint(Varint(n) + rest, limit) == Some((n, rest))
  {
    var b := Varint(n) + rest;
    if n < 128 {
      assert b[1..] == rest;
    } else {
      VarintRoundTrip(n / 128, rest, limit - 1);
      assert b[1..] == Varint(n / 128) + rest;
      assert b[0] - 128 + 128 * (n / 128) == n;
    }
  }

  lemma {:induction false} VarintFits(n: nat, size: nat)
    requires size >= 1 && n < Power128(size)
    ensures VarintSize(n) <= size
  {
    if n >= 128 { VarintFits(n / 128, size - 1); }
  }

  function Power128(k: nat): nat { if k == 0 then 1 else 128 * Power128(k - 1) }

  lemma WordFits(n: nat)
    ensures n < UINT64 ==> VarintSize(n) <= VALUE_BYTES
    ensures n < UINT32 ==> VarintSize(n) <= TAG_BYTES
  {
    assert Power128(2) == 0x4000 && Power128(4) == 0x1000_0000;
    assert Power128(5) == 0x8_0000_0000 && Power128(6) == 0x400_0000_0000;
    assert Power128(8) == 0x100_0000_0000_0000 && Power128(10) == 0x40_0000_0000_0000_0000;
    if n < UINT64 { VarintFits(n, 10); }
    if n < UINT32 { VarintFits(n, 5); }
  }

  // ---------- Records ----------

  datatype Record = Number(tag: nat, n: nat) | Block(tag: nat, payload: Bytes)

  /** A record that a writer can produce: the wire type in the tag, sizes that the format can carry. */
  predicate Writable(r: Record) {
    r.tag < UINT32 && if r.Number? then r.tag % 8 == 0 && r.n < UINT64 else r.tag % 8 == 2 && |r.payload| < UINT64
  }

  function Encode(r: Record): Bytes {
    match r
    case Number(tag, n) => Varint(tag) + Varint(n)
    case Block(tag, payload) => Varint(tag) + Varint(|payload|) + payload
  }

  /** The record at the front, and what follows it. Wire types other than varint and length-delimited are unusual. */
  function ReadRecord(b: Bytes): (r: Option<(Record, Bytes)>)
    ensures r.Some? ==> |r.value.1| < |b|
  {
    var t := ReadVarint(b, TAG_BYTES);
    if t.None? then None
    else
      var tag := t.value.0 % UINT32;
      var v := ReadVarint(t.value.1, VALUE_BYTES);
      if v.None? then None
      else if tag % 8 == 0 then Some((Number(tag, v.value.0 % UINT64), v.value.1))
      else if tag % 8 == 2 && v.value.0 <= |v.value.1| then
        Some((Block(tag, v.value.1[..v.value.0]), v.value.1[v.value.0..]))
      else None
  }

  lemma RecordRoundTrip(r: Record, rest: Bytes)
    requires Writable(r)
    ensures ReadRecord(Encode(r) + rest) == Some((r, rest))
  {
    hide Varint; hide ReadVarint; hide VarintSize;
    WordFits(r.tag);
    match r
    case Number(tag, n) =>
      WordFits(n);
      assert Encode(r) + rest == Varint(tag) + (Varint(n) + rest);
      VarintRoundTrip(tag, Varint(n) + rest, TAG_BYTES);
      VarintRoundTrip(n, rest, VALUE_BYTES);
    case Block(tag, payload) =>
      WordFits(|payload|);
      assert Encode(r) + rest == Varint(tag) + (Varint(|payload|) + (payload + rest));
      VarintRoundTrip(tag, Varint(|payload|) + (payload + rest), TAG_BYTES);
      VarintRoundTrip(|payload|, payload + rest, VALUE_BYTES);
  }

  // ---------- Messages as lists of records ----------

  function EncodeAll(rs: seq<Record>): Bytes {
    if rs == [] then [] else Encode(rs[0]) + EncodeAll(rs[1..])
  }

  /** What a message becomes when it takes in records one after the other. `None`: malformed or unusual. */
  function TakeAll<V>(take: (V, Record) -> Option<V>, v: V, rs: seq<Record>): Option<V> {
    if rs == [] then Some(v)
    else
      var next := take(v, rs[0]);
      if next.None? then None else TakeAll(take, next.value, rs[1..])
  }

  /** The parse loop, as a function: `take` is the switch on the tag. */
  function Parse<V>(take: (V, Record) -> Option<V>, v: V, b: Bytes): Option<V>
    decreases |b|
  {
    if b == [] then Some(v)
    else
      var r := ReadRecord(b);
      if r.None? then None
      else
        var next := take(v, r.value.0);
        if next.None? then None else Parse(take, next.value, r.value.1)
  }

  /** Parsing the encoding of records is taking them in one after the other, and going on with the rest. */
  lemma {:induction false} ParseEncoded<V>(take: (V, Record) -> Option<V>, v: V, rs: seq<Record>, rest: Bytes)
    requires forall r | r in rs :: Writable(r)
    ensures Parse(take, v, EncodeAll(rs) + rest) ==
      var t := TakeAll(take, v, rs); if t.None? then None else Parse(take, t.value, rest)
  {
    if rs == [] {
      assert EncodeAll(rs) + rest == rest;
    } else {
      var b := EncodeAll(rs) + rest;
      assert b == Encode(rs[0]) + (EncodeAll(rs[1..]) + rest);
      RecordRoundTrip(rs[0], EncodeAll(rs[1..]) + rest);
      EncodeNotEmpty(rs[0]);
      var next := take(v, rs[0]);
      if next.Some? { ParseEncoded(take, next.value, rs[1..], rest); }
    }
  }

  lemma EncodeNotEmpty(r: Record)
    ensures |Encode(r)| >= 2
  {
    VarintSizeIsLength(r.tag);
    VarintSizeIsLength(if r.Number? then r.n else |r.payload|);
  }

  lemma {:induction false} TakeConcat<V>(take: (V, Record) -> Option<V>, v: V, a: seq<Record>, b: seq<Record>)
    ensures TakeAll(take, v, a + b) == var t := TakeAll(take, v, a); if t.None? then None else TakeAll(take, t.value, b)
  {
    if a == [] {
      assert a + b == b;
    } else {
      assert (a + b)[1..] == a[1..] + b;
      var next := take(v, a[0]);
      if next.Some? { TakeConcat(take, next.value, a[1..], b); }
    }
  }

  lemma {:induction false} EncodeConcat(a: seq<Record>, b: seq<Record>)
    ensures EncodeAll(a + b) == EncodeAll(a) + EncodeAll(b)
  {
    if a == [] {
      assert a + b == b;
    } else {
      assert (a + b)[1..] == a[1..] + b;
      EncodeConcat(a[1..], b);
    }
  }

  // ---------- Packed numbers ----------

  function Pack(xs: seq<nat>): Bytes {
    if xs == [] then [] else Varint(xs[0]) + Pack(xs[1..])
  }

  /** All varints of a packed payload, cut to 32 bits. */
  function Unpack(b: Bytes): Option<seq<nat>>
    decreases |b|
  {
    if b == [] then Some([])
    else
      var v := ReadVarint(b, VALUE_BYTES);
      if v.None? then None
      else
        var more := Unpack(v.value.1);
        if more.None? then None else Some([v.value.0 % UINT32] + more.value)
  }

  predicate Words(xs: seq<nat>) { forall x | x in xs :: x < UINT32 }

  lemma {:induction false} PackRoundTrip(xs: seq<nat>)
    requires Words(xs)
    ensures Unpack(Pack(xs)) == Some(xs)
  {
    hide Varint; hide ReadVarint; hide VarintSize;
    if xs != [] {
      assert xs[0] in xs && forall x | x in xs[1..] :: x in xs;
      WordFits(xs[0]);
      VarintRoundTrip(xs[0], Pack(xs[1..]), VALUE_BYTES);
      PackRoundTrip(xs[1..]);
      VarintSizeIsLength(xs[0]);
      assert xs == [xs[0]] + xs[1..];
    }
  }

  /** `UInt32Size` of a repeated field. */
  function PackSize(xs: seq<nat>): nat {
    if xs == [] then 0 else PackSize(xs[..|xs| - 1]) + VarintSize(xs[|xs| - 1])
  }

  lemma {:induction false} PackLast(xs: seq<nat>, x: nat)
    ensures Pack(xs + [x]) == Pack(xs) + Varint(x)
  {
    hide Varint;
    if xs == [] {
      assert [x][1..] == [];
      assert Varint(x) + [] == Varint(x);
    } else {
      PackLast(xs[1..], x);
      assert (xs + [x])[1..] == xs[1..] + [x];
    }
  }

  lemma {:induction false} PackSizeIsLength(xs: seq<nat>)
    ensures |Pack(xs)| == PackSize(xs)
    ensures PackSize(xs) == 0 <==> xs == []
  {
    if xs != [] {
      PackSizeIsLength(xs[..|xs| - 1]);
      PackLast(xs[..|xs| - 1], xs[|xs| - 1]);
      VarintSizeIsLength(xs[|xs| - 1]);
      assert xs == xs[..|xs| - 1] + [xs[|xs| - 1]];
    }
  }
}
