/** One-sided requests of many threads over shared connections. A thread arms its counter, posts, and polls the
    completion queue of the connection until its counter is zero. Whoever polls a completion decrements the counter
    of the thread that posted the request, whichever thread that is. `Inv` counts, for each thread, where its requests
    are, and `StepInv` says that every step keeps the counts.
 */
module CompletionCounters {
  type Word = int

  datatype Option<+T> = None | Some(value: T)

  /** `Push` is the write that asks for no acknowledgement. `Swap` is a compare-and-swap repeated until it succeeds. */
  datatype Call =
    | Read(conn: nat, addr: nat)
    | Write(conn: nat, addr: nat, word: Word)
    | Push(conn: nat, addr: nat, word: Word)
    | Cas(conn: nat, addr: nat, expected: Word, word: Word)
    | Swap(conn: nat, addr: nat, hint: Word, word: Word)

  datatype Verb = Get(addr: nat) | Put(addr: nat, word: Word) | CompareSwap(addr: nat, expected: Word, word: Word)

  datatype Request = Request(thread: nat, signaled: bool, verb: Verb)

  /** What a request did: the word it met, and when. */
  datatype Ran = Ran(conn: nat, verb: Verb, met: Word, at: nat)

  datatype Pc =
    | Idle
    | Arming(call: Call, verb: Verb)
    | Posting(call: Call, verb: Verb)
    | Checking(call: Call, verb: Verb)
    | Probing(call: Call, verb: Verb)
    | Settling(call: Call, verb: Verb, id: nat)

  /** `counter` is the thread's reordering counter and `landing` its buffer. `ran` records, for the proof, what the
      current request has done, and `began` when the current call started. */
  datatype Thread = Thread(pc: Pc, counter: int, landing: Word, ran: Option<Ran>, began: nat)

  /** Requests on their way, in order, and completions waiting to be polled, named by thread. */
  datatype Conn = Conn(flight: seq<Request>, completed: seq<nat>)

  datatype State = State(threads: seq<Thread>, conns: seq<Conn>, mem: map<(nat, nat), Word>, clock: nat)

  /** `Execute`: the remote side carries out the oldest request of a connection. `Outside`: some other node writes. */
  datatype Action =
    | Begin(t: nat, call: Call)
    | Next(t: nat)
    | Execute(c: nat)
    | Outside(c: nat, addr: nat, word: Word)

  function FirstVerb(call: Call): Verb {
    match call
    case Read(_, a) => Get(a)
    case Write(_, a, w) => Put(a, w)
    case Push(_, a, w) => Put(a, w)
    case Cas(_, a, e, w) => CompareSwap(a, e, w)
    case Swap(_, a, h, w) => CompareSwap(a, h, w)
  }

  function WordAt(mem: map<(nat, nat), Word>, c: nat, a: nat): Word {
    if (c, a) in mem then mem[(c, a)] else 0
  }

  /** The effect of one request on the remote memory. */
  function After(mem: map<(nat, nat), Word>, c: nat, verb: Verb): map<(nat, nat), Word> {
    match verb
    case Get(_) => mem
    case Put(a, w) => mem[(c, a) := w]
    case CompareSwap(a, e, w) => if WordAt(mem, c, a) == e then mem[(c, a) := w] else mem
  }

  function SetThread(s: State, t: nat, th: Thread): State
    requires t < |s.threads|
  {
    s.(threads := s.threads[t := th], clock := s.clock + 1)
  }

  function SetConn(s: State, c: nat, conn: Conn): State
    requires c < |s.conns|
  {
    s.(conns := s.conns[c := conn])
  }

  // ---------- Steps ----------

  predicate Enabled(s: State, a: Action) {
    match a
    case Begin(t, call) => t < |s.threads| && s.threads[t].pc.Idle? && call.conn < |s.conns|
    case Next(t) => t < |s.threads| && !s.threads[t].pc.Idle? && s.threads[t].pc.call.conn < |s.conns|
      && (s.threads[t].pc.Settling? ==> s.threads[t].pc.id < |s.threads|)
    case Execute(c) => c < |s.conns| && s.conns[c].flight != [] && s.conns[c].flight[0].thread < |s.threads|
    case Outside(_, _, _) => true
  }

  /** The call is over, or a swap tries again with the word it met. */
  function Finish(s: State, t: nat): State
    requires t < |s.threads| && s.threads[t].pc.Checking?
  {
    var th := s.threads[t];
    var call := th.pc.call;
    if call.Swap? && th.pc.verb.CompareSwap? && th.landing != th.pc.verb.expected then
      SetThread(s, t, th.(pc := Arming(call, CompareSwap(call.addr, th.landing, call.word))))
    else
      SetThread(s, t, th.(pc := Idle))
  }

  function DoPost(s: State, t: nat): State
    requires t < |s.threads| && s.threads[t].pc.Posting? && s.threads[t].pc.call.conn < |s.conns|
  {
    var pc := s.threads[t].pc;
    var conn := s.conns[pc.call.conn];
    SetConn(SetThread(s, t, s.threads[t].(pc := Checking(pc.call, pc.verb))), pc.call.conn,
            conn.(flight := conn.flight + [Request(t, !pc.call.Push?, pc.verb)]))
  }

  function DoProbe(s: State, t: nat): State
    requires t < |s.threads| && s.threads[t].pc.Probing? && s.threads[t].pc.call.conn < |s.conns|
  {
    var pc := s.threads[t].pc;
    var conn := s.conns[pc.call.conn];
    if conn.completed == [] then SetThread(s, t, s.threads[t].(pc := Checking(pc.call, pc.verb)))
    else SetConn(SetThread(s, t, s.threads[t].(pc := Settling(pc.call, pc.verb, conn.completed[0]))), pc.call.conn,
                 conn.(completed := conn.completed[1..]))
  }

  /** The decrement. The source asserts that the counter was at least 1. */
  function DoSettle(s: State, t: nat): State
    requires t < |s.threads| && s.threads[t].pc.Settling? && s.threads[t].pc.id < |s.threads|
  {
    var pc := s.threads[t].pc;
    var s1 := SetThread(s, t, s.threads[t].(pc := Checking(pc.call, pc.verb)));
    s1.(threads := s1.threads[pc.id := s1.threads[pc.id].(counter := s1.threads[pc.id].counter - 1)])
  }

  function DoNext(s: State, t: nat): State
    requires Enabled(s, Next(t))
  {
    var th := s.threads[t];
    match th.pc
    case Idle => s
    case Arming(call, verb) =>
      SetThread(s, t, th.(pc := Posting(call, verb), counter := if call.Push? then th.counter else 1, ran := None))
    case Posting(_, _) => DoPost(s, t)
    case Checking(call, verb) =>
      if th.counter == 0 then Finish(s, t) else SetThread(s, t, th.(pc := Probing(call, verb)))
    case Probing(_, _) => DoProbe(s, t)
    case Settling(_, _, _) => DoSettle(s, t)
  }

  function DoExecute(s: State, c: nat): State
    requires Enabled(s, Execute(c))
  {
    var conn := s.conns[c];
    var r := conn.flight[0];
    var met := WordAt(s.mem, c, r.verb.addr);
    var s1 := s.(mem := After(s.mem, c, r.verb), clock := s.clock + 1);
    if r.signaled then
      var th := s.threads[r.thread];
      SetConn(s1, c, Conn(conn.flight[1..], conn.completed + [r.thread]))
        .(threads := s.threads[r.thread := th.(landing := if r.verb.Put? then th.landing else met,
                                               ran := Some(Ran(c, r.verb, met, s.clock)))])
    else SetConn(s1, c, conn.(flight := conn.flight[1..]))
  }

  function Step(s: State, a: Action): State
    requires Enabled(s, a)
  {
    match a
    case Begin(t, call) => SetThread(s, t, s.threads[t].(pc := Arming(call, FirstVerb(call)), began := s.clock))
    case Next(t) => DoNext(s, t)
    case Execute(c) => DoExecute(s, c)
    case Outside(c, a, w) => s.(mem := s.mem[(c, a) := w], clock := s.clock + 1)
  }

  ghost predicate Init(s: State) {
    && (forall t | 0 <= t < |s.threads| :: s.threads[t].pc.Idle? && s.threads[t].counter == 0 && s.threads[t].ran.None?)
    && (forall c | 0 <= c < |s.conns| :: s.conns[c] == Conn([], []))
    && s.clock == 0
  }

  ghost predicate IsRun(r: seq<State>, acts: seq<Action>) {
    && |r| == |acts| + 1
    && Init(r[0])
    && forall i | 0 <= i < |acts| :: Enabled(r[i], acts[i]) && r[i + 1] == Step(r[i], acts[i])
  }

  // ---------- Counting requests ----------

  /** Signaled requests of thread `t` in a queue. */
  function Sent(flight: seq<Request>, t: nat): nat {
    if flight == [] then 0 else (if flight[0].signaled && flight[0].thread == t then 1 else 0) + Sent(flight[1..], t)
  }

  lemma {:induction false} SentLast(flight: seq<Request>, r: Request, t: nat)
    ensures Sent(flight + [r], t) == Sent(flight, t) + if r.signaled && r.thread == t then 1 else 0
  {
    if flight == [] {
      assert [r][1..] == [];
    } else {
      SentLast(flight[1..], r, t);
      assert (flight + [r])[1..] == flight[1..] + [r];
    }
  }

  function Done(completed: seq<nat>, t: nat): nat { multiset(completed)[t] }

  ghost function FlightAll(conns: seq<Conn>, t: nat): nat {
    if conns == [] then 0 else FlightAll(conns[..|conns| - 1], t) + Sent(conns[|conns| - 1].flight, t)
  }

  ghost function DoneAll(conns: seq<Conn>, t: nat): nat {
    if conns == [] then 0 else DoneAll(conns[..|conns| - 1], t) + Done(conns[|conns| - 1].completed, t)
  }

  /** Threads that have polled a completion of `t` and not yet decremented its counter. */
  ghost function SettlingAll(threads: seq<Thread>, t: nat): nat {
    if threads == [] then 0
    else SettlingAll(threads[..|threads| - 1], t) + Settles(threads[|threads| - 1].pc, t)
  }

  function Settles(pc: Pc, t: nat): nat { if pc.Settling? && pc.id == t then 1 else 0 }

  /** The thread has armed its counter and is about to post. */
  function AboutToPost(pc: Pc): nat { if pc.Posting? && !pc.call.Push? then 1 else 0 }

  lemma {:induction false} FlightUpdate(conns: seq<Conn>, c: nat, conn: Conn, t: nat)
    requires c < |conns|
    ensures FlightAll(conns[c := conn], t) + Sent(conns[c].flight, t) == FlightAll(conns, t) + Sent(conn.flight, t)
  {
    var l := |conns| - 1;
    if c < l {
      FlightUpdate(conns[..l], c, conn, t);
      assert conns[c := conn][..l] == conns[..l][c := conn];
    } else {
      assert conns[c := conn][..l] == conns[..l];
    }
  }

  lemma {:induction false} DoneUpdate(conns: seq<Conn>, c: nat, conn: Conn, t: nat)
    requires c < |conns|
    ensures DoneAll(conns[c := conn], t) + Done(conns[c].completed, t) == DoneAll(conns, t) + Done(conn.completed, t)
  {
    var l := |conns| - 1;
    if c < l {
      DoneUpdate(conns[..l], c, conn, t);
      assert conns[c := conn][..l] == conns[..l][c := conn];
    } else {
      assert conns[c := conn][..l] == conns[..l];
    }
  }

  lemma {:induction false} SettlingUpdate(threads: seq<Thread>, u: nat, th: Thread, t: nat)
    requires u < |threads|
    ensures SettlingAll(threads[u := th], t) + Settles(threads[u].pc, t) == SettlingAll(threads, t) + Settles(th.pc, t)
  {
    var l := |threads| - 1;
    if u < l {
      SettlingUpdate(threads[..l], u, th, t);
      assert threads[u := th][..l] == threads[..l][u := th];
    } else {
      assert threads[u := th][..l] == threads[..l];
    }
  }

  /** Requests of `t` that the remote side has yet to carry out. */
  ghost function Ahead(s: State, t: nat): nat
    requires t < |s.threads|
  {
    AboutToPost(s.threads[t].pc) + FlightAll(s.conns, t)
  }

  /** Signaled requests of `t` about to be posted, in flight, completed but not polled, and polled but not settled. */
  ghost function Outstanding(s: State, t: nat): nat
    requires t < |s.threads|
  {
    Ahead(s, t) + DoneAll(s.conns, t) + SettlingAll(s.threads, t)
  }

  // ---------- Invariant ----------

  predicate Waits(pc: Pc) { pc.Checking? || pc.Probing? || pc.Settling? }

  predicate Fits(call: Call, verb: Verb) {
    if call.Swap? then verb.CompareSwap? && verb.addr == call.addr && verb.word == call.word else verb == FirstVerb(call)
  }

  ghost predicate ThreadOK(s: State, t: nat)
    requires t < |s.threads|
  {
    var th := s.threads[t];
    && th.counter == Outstanding(s, t) <= 1
    && (th.pc.Idle? || th.pc.Arming? || th.pc.call.Push? ==> th.counter == 0)
    && (th.pc.Posting? && !th.pc.call.Push? ==> th.counter == 1 && th.ran.None?)
    && (!th.pc.Idle? ==> Fits(th.pc.call, th.pc.verb) && th.pc.call.conn < |s.conns| && th.began < s.clock)
    && (Waits(th.pc) && !th.pc.call.Push? ==> (th.ran.None? <==> Ahead(s, t) == 1))
    && (Waits(th.pc) && !th.pc.call.Push? && th.ran.Some? ==> Answered(th))
    && (th.pc.Settling? ==> th.pc.id < |s.threads|)
  }

  /** The current request has been carried out, and its result has landed. */
  ghost predicate Answered(th: Thread)
    requires !th.pc.Idle? && th.ran.Some?
  {
    && th.ran.value.conn == th.pc.call.conn && th.ran.value.verb == th.pc.verb
    && th.began < th.ran.value.at
    && (!th.pc.verb.Put? ==> th.landing == th.ran.value.met)
  }

  ghost predicate ConnOK(s: State, c: nat)
    requires c < |s.conns|
  {
    && (forall i | 0 <= i < |s.conns[c].completed| :: s.conns[c].completed[i] < |s.threads|)
    && (forall i | 0 <= i < |s.conns[c].flight| :: SentBy(s, c, s.conns[c].flight[i]))
  }

  ghost predicate SentBy(s: State, c: nat, r: Request) {
    && r.thread < |s.threads|
    && (r.signaled ==>
          var pc := s.threads[r.thread].pc;
          Waits(pc) && !pc.call.Push? && pc.verb == r.verb && pc.call.conn == c)
  }

  ghost predicate Inv(s: State) {
    && (forall t | 0 <= t < |s.threads| :: ThreadOK(s, t))
    && (forall c | 0 <= c < |s.conns| :: ConnOK(s, c))
  }

  lemma {:induction false} SentPositive(flight: seq<Request>, i: nat)
    requires i < |flight| && flight[i].signaled
    ensures Sent(flight, flight[i].thread) >= 1
  {
    if i > 0 { SentPositive(flight[1..], i - 1); }
  }

  lemma {:induction false} FlightAtLeast(conns: seq<Conn>, c: nat, t: nat)
    requires c < |conns|
    ensures FlightAll(conns, t) >= Sent(conns[c].flight, t)
  {
    if c < |conns| - 1 { FlightAtLeast(conns[..|conns| - 1], c, t); }
  }

  /** A thread with nothing outstanding has no signaled request in flight. */
  lemma NothingSent(s: State, t: nat, c: nat, i: nat)
    requires t < |s.threads| && Outstanding(s, t) == 0 && c < |s.conns| && i < |s.conns[c].flight|
    ensures !(s.conns[c].flight[i].signaled && s.conns[c].flight[i].thread == t)
  {
    var r := s.conns[c].flight[i];
    if r.signaled && r.thread == t {
      SentPositive(s.conns[c].flight, i);
      FlightAtLeast(s.conns, c, t);
    }
  }

  // ---------- How each step changes the counts ----------

  /** One thread record changes and the queues stay. */
  lemma ThreadCounts(s: State, s': State, t: nat, u: nat)
    requires t < |s.threads| && u < |s.threads| && s'.conns == s.conns && |s'.threads| == |s.threads|
    requires s'.threads == s.threads[t := s'.threads[t]]
    ensures Ahead(s', u) == Ahead(s, u) - AboutToPost(s.threads[u].pc) + AboutToPost(s'.threads[u].pc)
    ensures Outstanding(s', u) - Ahead(s', u) == Outstanding(s, u) - Ahead(s, u) - Settles(s.threads[t].pc, u) + Settles(s'.threads[t].pc, u)
  {
    SettlingUpdate(s.threads, t, s'.threads[t], u);
  }

  /** One connection changes and the program counters stay, up to the counts. */
  lemma ConnCounts(s: State, s': State, c: nat, u: nat)
    requires c < |s.conns| && u < |s.threads| && |s'.conns| == |s.conns| && s'.threads == s.threads
    requires s'.conns == s.conns[c := s'.conns[c]]
    ensures Ahead(s', u) == Ahead(s, u) - Sent(s.conns[c].flight, u) + Sent(s'.conns[c].flight, u)
    ensures Outstanding(s', u) - Ahead(s', u) ==
      Outstanding(s, u) - Ahead(s, u) - Done(s.conns[c].completed, u) + Done(s'.conns[c].completed, u)
  {
    FlightUpdate(s.conns, c, s'.conns[c], u);
    DoneUpdate(s.conns, c, s'.conns[c], u);
  }

  /** The same queues and program counters give the same counts. */
  ghost predicate SameCounts(s: State, s': State, u: nat)
    requires u < |s.threads| && u < |s'.threads|
  {
    Ahead(s', u) == Ahead(s, u) && Outstanding(s', u) == Outstanding(s, u)
  }

  lemma OthersOK(s: State, s': State, t: nat, u: nat)
    requires t < |s.threads| == |s'.threads| && u < |s.threads| && u != t && ThreadOK(s, u)
    requires s'.threads[u] == s.threads[u] && |s'.conns| == |s.conns| && s'.clock >= s.clock && SameCounts(s, s', u)
    ensures ThreadOK(s', u)
  {
    hide Ahead; hide Outstanding;
  }

  lemma ConnsOK(s: State, s': State, t: nat)
    requires t < |s.threads| == |s'.threads| && s'.conns == s.conns
    requires forall u | 0 <= u < |s.threads| && u != t :: s'.threads[u].pc == s.threads[u].pc
    requires forall c | 0 <= c < |s.conns| :: ConnOK(s, c)
    requires Outstanding(s, t) == 0 || (Waits(s.threads[t].pc) && Waits(s'.threads[t].pc)
      && s'.threads[t].pc.call == s.threads[t].pc.call && s'.threads[t].pc.verb == s.threads[t].pc.verb)
    ensures forall c | 0 <= c < |s.conns| :: ConnOK(s', c)
  {
    hide Outstanding;
    forall c | 0 <= c < |s.conns| ensures ConnOK(s', c) {
      assert ConnOK(s, c);
      forall i | 0 <= i < |s.conns[c].flight| ensures SentBy(s', c, s.conns[c].flight[i]) {
        assert SentBy(s, c, s.conns[c].flight[i]);
        if Outstanding(s, t) == 0 { NothingSent(s, t, c, i); }
      }
    }
  }

  /** A step that changes one thread and no queue. */
  lemma OwnStep(s: State, s': State, t: nat)
    requires Inv(s) && t < |s.threads| == |s'.threads| && s'.conns == s.conns && s'.clock >= s.clock
    requires s'.threads == s.threads[t := s'.threads[t]]
    requires forall u | 0 <= u < |s.threads| :: Settles(s'.threads[t].pc, u) == Settles(s.threads[t].pc, u)
    requires s.threads[t].counter == 0 || (Waits(s.threads[t].pc) && Waits(s'.threads[t].pc)
      && s'.threads[t].pc.call == s.threads[t].pc.call && s'.threads[t].pc.verb == s.threads[t].pc.verb)
    requires ThreadOK(s', t)
    ensures Inv(s')
  {
    hide Outstanding; hide Ahead; hide Settles;
    forall u | 0 <= u < |s.threads| ensures ThreadOK(s', u) {
      if u != t {
        assert ThreadOK(s, u);
        ThreadCounts(s, s', t, u);
        OthersOK(s, s', t, u);
      }
    }
    assert ThreadOK(s, t);
    ConnsOK(s, s', t);
  }

  // ---------- Steps keep the invariant ----------

  lemma BeginInv(s: State, t: nat, call: Call)
    requires Inv(s) && Enabled(s, Begin(t, call))
    ensures Inv(Step(s, Begin(t, call)))
  {
    var s' := Step(s, Begin(t, call));
    assert ThreadOK(s, t);
    ThreadCounts(s, s', t, t);
    OwnStep(s, s', t);
  }

  lemma ArmInv(s: State, t: nat)
    requires Inv(s) && Enabled(s, Next(t)) && s.threads[t].pc.Arming?
    ensures Inv(Step(s, Next(t)))
  {
    var s' := Step(s, Next(t));
    assert ThreadOK(s, t);
    ThreadCounts(s, s', t, t);
    OwnStep(s, s', t);
  }

  lemma CheckInv(s: State, t: nat)
    requires Inv(s) && Enabled(s, Next(t)) && s.threads[t].pc.Checking?
    ensures Inv(Step(s, Next(t)))
  {
    var s' := Step(s, Next(t));
    assert ThreadOK(s, t);
    ThreadCounts(s, s', t, t);
    OwnStep(s, s', t);
  }

  /** Posting moves a request from about to be posted to in flight. */
  lemma PostCounts(s: State, t: nat, u: nat)
    requires Enabled(s, Next(t)) && s.threads[t].pc.Posting? && u < |s.threads|
    ensures SameCounts(s, Step(s, Next(t)), u)
  {
    var s' := Step(s, Next(t));
    var c := s.threads[t].pc.call.conn;
    var mid := SetThread(s, t, s'.threads[t]);
    ThreadCounts(s, mid, t, u);
    ConnCounts(mid, s', c, u);
    SentLast(s.conns[c].flight, Request(t, !s.threads[t].pc.call.Push?, s.threads[t].pc.verb), u);
    hide Ahead; hide Sent; hide Done;
  }

  /** Polling moves a completion from queued to polled. */
  lemma ProbeCounts(s: State, t: nat, u: nat)
    requires Enabled(s, Next(t)) && s.threads[t].pc.Probing? && u < |s.threads|
    requires s.conns[s.threads[t].pc.call.conn].completed != []
    ensures SameCounts(s, Step(s, Next(t)), u)
  {
    var s' := Step(s, Next(t));
    var c := s.threads[t].pc.call.conn;
    var completed := s.conns[c].completed;
    var mid := SetThread(s, t, s'.threads[t]);
    assert completed == [completed[0]] + completed[1..];
    ThreadCounts(s, mid, t, u);
    ConnCounts(mid, s', c, u);
    hide Ahead; hide Sent;
  }

  lemma PostInv(s: State, t: nat)
    requires Inv(s) && Enabled(s, Next(t)) && s.threads[t].pc.Posting?
    ensures Inv(Step(s, Next(t)))
  {
    var s' := Step(s, Next(t));
    var c := s.threads[t].pc.call.conn;
    var r := Request(t, !s.threads[t].pc.call.Push?, s.threads[t].pc.verb);
    assert ThreadOK(s, t);
    hide Sent;
    forall u | 0 <= u < |s.threads| ensures ThreadOK(s', u) {
      assert ThreadOK(s, u);
      PostCounts(s, t, u);
      if u != t { OthersOK(s, s', t, u); }
    }
    hide FlightAll; hide Ahead; hide Outstanding;
    forall d | 0 <= d < |s.conns| ensures ConnOK(s', d) {
      assert ConnOK(s, d);
      forall i | 0 <= i < |s'.conns[d].flight| ensures SentBy(s', d, s'.conns[d].flight[i]) {
        if i < |s.conns[d].flight| {
          assert SentBy(s, d, s.conns[d].flight[i]);
        }
      }
    }
  }

  lemma ProbeInv(s: State, t: nat)
    requires Inv(s) && Enabled(s, Next(t)) && s.threads[t].pc.Probing?
    ensures Inv(Step(s, Next(t)))
  {
    var s' := Step(s, Next(t));
    var c := s.threads[t].pc.call.conn;
    var completed := s.conns[c].completed;
    assert ThreadOK(s, t) && ConnOK(s, c);
    if completed == [] {
      ThreadCounts(s, s', t, t);
      OwnStep(s, s', t);
    } else {
      var mid := SetThread(s, t, s'.threads[t]);
      forall u | 0 <= u < |s.threads| ensures ThreadOK(s', u) {
        assert ThreadOK(s, u);
        ProbeCounts(s, t, u);
        if u != t { OthersOK(s, s', t, u); }
      }
      ConnsOK(s, mid, t);
      forall d | 0 <= d < |s.conns| ensures ConnOK(s', d) {
        assert ConnOK(mid, d);
      }
    }
  }

  /** The decrement takes one polled completion of the counter's thread away. */
  lemma SettleCounts(s: State, t: nat, u: nat)
    requires Enabled(s, Next(t)) && s.threads[t].pc.Settling? && u < |s.threads|
    ensures var s' := Step(s, Next(t));
      Ahead(s', u) == Ahead(s, u) && Outstanding(s', u) == Outstanding(s, u) - if u == s.threads[t].pc.id then 1 else 0
  {
    var s' := Step(s, Next(t));
    var id := s.threads[t].pc.id;
    var mid := SetThread(s, t, s.threads[t].(pc := Checking(s.threads[t].pc.call, s.threads[t].pc.verb)));
    ThreadCounts(s, mid, t, u);
    ThreadCounts(mid, s', id, u);
    hide Ahead; hide Outstanding;
  }

  lemma SettleInv(s: State, t: nat)
    requires Inv(s) && Enabled(s, Next(t)) && s.threads[t].pc.Settling?
    ensures Inv(Step(s, Next(t)))
    ensures s.threads[s.threads[t].pc.id].counter >= 1
  {
    var s' := Step(s, Next(t));
    var id := s.threads[t].pc.id;
    var mid := SetThread(s, t, s.threads[t].(pc := Checking(s.threads[t].pc.call, s.threads[t].pc.verb)));
    assert ThreadOK(s, t) && ThreadOK(s, id);
    SettlingSeen(s.threads, t);
    forall u | 0 <= u < |s.threads| ensures ThreadOK(s', u) {
      assert ThreadOK(s, u);
      SettleCounts(s, t, u);
    }
    hide Ahead; hide Outstanding;
    ConnsOK(s, mid, t);
    forall d | 0 <= d < |s.conns| ensures ConnOK(s', d) {
      assert ConnOK(mid, d);
      forall i | 0 <= i < |s.conns[d].flight| ensures SentBy(s', d, s.conns[d].flight[i]) {
        assert SentBy(mid, d, mid.conns[d].flight[i]);
      }
    }
  }

  lemma {:induction false} SettlingSeen(threads: seq<Thread>, t: nat)
    requires t < |threads| && threads[t].pc.Settling?
    ensures SettlingAll(threads, threads[t].pc.id) >= 1
  {
    if t < |threads| - 1 { SettlingSeen(threads[..|threads| - 1], t); }
  }

  lemma ExecuteConns(s: State, c: nat)
    requires Inv(s) && Enabled(s, Execute(c))
    ensures forall d | 0 <= d < |s.conns| :: ConnOK(Step(s, Execute(c)), d)
  {
    hide ThreadOK; hide WordAt;
    var s' := Step(s, Execute(c));
    assert ConnOK(s, c) && SentBy(s, c, s.conns[c].flight[0]);
    forall d | 0 <= d < |s.conns| ensures ConnOK(s', d) {
      assert ConnOK(s, d);
      forall i | 0 <= i < |s'.conns[d].flight| ensures SentBy(s', d, s'.conns[d].flight[i]) {
        assert SentBy(s, d, s.conns[d].flight[if d == c then i + 1 else i]);
      }
    }
  }

  lemma ExecuteThread(s: State, c: nat, u: nat)
    requires Inv(s) && Enabled(s, Execute(c)) && u < |s.threads|
    ensures ThreadOK(Step(s, Execute(c)), u)
  {
    var s' := Step(s, Execute(c));
    var mid := s.(conns := s'.conns);
    assert ConnOK(s, c) && SentBy(s, c, s.conns[c].flight[0]) && ThreadOK(s, u);
    hide ConnOK; hide WordAt; hide Inv;
    ConnCounts(s, mid, c, u);
    SamePcs(mid, s', u);
  }

  lemma ExecuteInv(s: State, c: nat)
    requires Inv(s) && Enabled(s, Execute(c))
    ensures Inv(Step(s, Execute(c)))
  {
    ExecuteConns(s, c);
    forall u | 0 <= u < |s.threads| ensures ThreadOK(Step(s, Execute(c)), u) {
      ExecuteThread(s, c, u);
    }
    hide ConnOK; hide ThreadOK; hide WordAt;
  }

  lemma {:induction false} SameSettling(a: seq<Thread>, b: seq<Thread>, u: nat)
    requires |a| == |b| && forall i | 0 <= i < |a| :: a[i].pc == b[i].pc
    ensures SettlingAll(a, u) == SettlingAll(b, u)
  {
    if a != [] { SameSettling(a[..|a| - 1], b[..|b| - 1], u); }
  }

  lemma SamePcs(s: State, s': State, u: nat)
    requires s'.conns == s.conns && |s'.threads| == |s.threads| && u < |s.threads|
    requires forall i | 0 <= i < |s.threads| :: s.threads[i].pc == s'.threads[i].pc
    ensures SameCounts(s, s', u)
  {
    SameSettling(s.threads, s'.threads, u);
  }

  lemma StepInv(s: State, a: Action)
    requires Inv(s) && Enabled(s, a)
    ensures Inv(Step(s, a))
  {
    match a
    case Begin(t, call) => BeginInv(s, t, call);
    case Execute(c) => ExecuteInv(s, c);
    case Outside(c, addr, w) =>
      var s' := Step(s, a);
      forall u | 0 <= u < |s.threads| ensures ThreadOK(s', u) { assert ThreadOK(s, u); SamePcs(s, s', u); }
      forall d | 0 <= d < |s.conns| ensures ConnOK(s', d) {
        assert ConnOK(s, d);
        forall i | 0 <= i < |s.conns[d].flight| ensures SentBy(s', d, s.conns[d].flight[i]) {
          assert SentBy(s, d, s.conns[d].flight[i]);
        }
      }
    case Next(t) =>
      hide Inv; hide DoNext;
      match s.threads[t].pc {
        case Arming(_, _) => ArmInv(s, t);
        case Posting(_, _) => PostInv(s, t);
        case Checking(_, _) => CheckInv(s, t);
        case Probing(_, _) => ProbeInv(s, t);
        case Settling(_, _, _) => SettleInv(s, t);
      }
  }
}
