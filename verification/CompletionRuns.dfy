/** What holds in every run of the completion counters: what they count, and whose result a call returns. */
module CompletionRuns {
  import opened CompletionCounters

  /** A request in flight has not been carried out. */
  lemma NotYetRan(s: State, c: nat, t: nat, verb: Verb)
    requires Inv(s) && c < |s.conns| && s.conns[c].flight != [] && s.conns[c].flight[0] == Request(t, true, verb)
    ensures t < |s.threads| && Waits(s.threads[t].pc) && s.threads[t].ran.None?
  {
    assert ConnOK(s, c) && SentBy(s, c, s.conns[c].flight[0]);
    SentPositive(s.conns[c].flight, 0);
    FlightAtLeast(s.conns, c, t);
    assert ThreadOK(s, t);
  }

  /** A swap that tries again met a word it did not expect, so its request changed nothing. */
  lemma FailedTry(r: seq<State>, acts: seq<Action>, i: nat, t: nat)
    requires IsRun(r, acts) && i < |acts| && t < |r[i].threads| && acts[i] == Next(t)
    requires r[i].threads[t].pc.Checking? && r[i + 1].threads[t].pc.Arming?
    ensures r[i].threads[t].ran.Some? && r[i].threads[t].ran.value.at < i
    ensures r[r[i].threads[t].ran.value.at + 1].mem == r[r[i].threads[t].ran.value.at].mem
  {
    RunInv(r, acts, i);
    RunRan(r, acts, i, t);
    assert ThreadOK(r[i], t);
  }

  /** The action carries out a signaled request of the thread. */
  predicate Runs(s: State, a: Action, t: nat)
    requires Enabled(s, a)
  {
    a.Execute? && s.conns[a.c].flight[0].thread == t && s.conns[a.c].flight[0].signaled
  }

  /** How a thread's place in its call may change in one step. */
  lemma PlaceStep(s: State, a: Action, t: nat)
    requires Inv(s) && Enabled(s, a) && t < |s.threads|
    ensures var was, now := s.threads[t], Step(s, a).threads[t];
      || (a.Begin? && a.t == t && now.began == s.clock && now.pc.Arming?)
      || now.pc.Idle?
      || (!was.pc.Idle? && now.began == was.began && now.pc.call == was.pc.call
          && (|| (Waits(now.pc) && Waits(was.pc) && (now.ran == was.ran || Runs(s, a, t)))
              || (Waits(now.pc) && was.pc.Posting? && now.ran == was.ran)
              || (!Waits(now.pc) && !Waits(was.pc))
              || (a == Next(t) && was.pc.Checking? && now.pc.Arming?)))
  {
    assert ThreadOK(s, t);
    if a.Execute? { assert ConnOK(s, a.c) && SentBy(s, a.c, s.conns[a.c].flight[0]); }
  }

  lemma {:induction false} RunVoid(r: seq<State>, acts: seq<Action>, i: nat, t: nat)
    requires IsRun(r, acts) && i < |r| && t < |r[i].threads|
    ensures OthersVoid(r, acts, i, t)
  {
    if i > 0 {
      Clock(r, acts, i);
      Clock(r, acts, i - 1);
      RunVoid(r, acts, i - 1, t);
      VoidStep(r, acts, i, t);
    }
  }

  /** The execution of a thread's request is what its record shows afterwards. */
  lemma JustCarried(s: State, a: Action, t: nat, verb: Verb)
    requires Inv(s) && Enabled(s, a) && a.Execute? && s.conns[a.c].flight[0] == Request(t, true, verb)
    ensures t < |s.threads| && Waits(s.threads[t].pc) && s.threads[t].ran.None?
    ensures var th := Step(s, a).threads[t]; Waits(th.pc) && th.ran.Some? && th.ran.value.at == s.clock
  {
    NotYetRan(s, a.c, t, verb);
    CarriedNow(s, a, t, verb);
  }

  lemma VoidStep(r: seq<State>, acts: seq<Action>, i: nat, t: nat)
    requires IsRun(r, acts) && 0 < i < |r| && t < |r[i].threads| == |r[i - 1].threads| && r[i - 1].clock == i - 1
    requires OthersVoid(r, acts, i - 1, t)
    ensures OthersVoid(r, acts, i, t)
  {
    hide Inv; hide Step; hide RanTrue;
    var s, a, th := r[i - 1], acts[i - 1], r[i].threads[t];
    assert Enabled(s, a) && r[i] == Step(s, a);
    RunInv(r, acts, i - 1);
    PlaceStep(s, a, t);
    RanStep(s, a, t);
    if a == Next(t) && s.threads[t].pc.Checking? && th.pc.Arming? { FailedTry(r, acts, i - 1, t); }
    if Runs(s, a, t) {
      JustCarried(s, a, t, s.conns[a.c].flight[0].verb);
    }
    hide IsRun; hide Enabled;
  }

  lemma CarriedNow(s: State, a: Action, t: nat, verb: Verb)
    requires Enabled(s, a) && a.Execute? && s.conns[a.c].flight[0] == Request(t, true, verb)
    ensures Step(s, a).threads[t].ran.Some? && Step(s, a).threads[t].ran.value.at == s.clock
    ensures Step(s, a).threads[t].pc == s.threads[t].pc
  {}

  /** A call that asks for an acknowledgement returns only after the remote side carried out a request of its own,
      between its start and its return. A read returns the word it met and changes nothing; a write leaves its word;
      a compare-and-swap returns the word it found, and stores its new word if and only if that was the expected one. A
      swap returns the word it replaced, and none of its other tries changed the memory. */
  lemma ReturnsOwnResult(r: seq<State>, acts: seq<Action>, i: nat, t: nat) returns (at: nat)
    requires IsRun(r, acts) && i < |acts| && acts[i] == Next(t) && t < |r[i].threads|
    requires r[i].threads[t].pc.Checking? && r[i + 1].threads[t].pc.Idle? && !r[i].threads[t].pc.call.Push?
    ensures var th := r[i].threads[t];
      && th.began < at < i && acts[at] == Execute(th.pc.call.conn) && Carries(r, acts, at, t)
      && var key := (th.pc.call.conn, th.pc.call.addr);
      && var found := if key in r[at].mem then r[at].mem[key] else 0;
      match th.pc.call
      case Read(_, _) => th.landing == found && r[at + 1].mem == r[at].mem
      case Write(_, _, word) => r[at + 1].mem == r[at].mem[key := word]
      case Cas(_, _, expected, word) =>
        && th.landing == found
        && r[at + 1].mem == if found == expected then r[at].mem[key := word] else r[at].mem
      case Swap(_, _, _, word) => th.landing == found && r[at + 1].mem == r[at].mem[key := word]
    ensures r[i].threads[t].pc.call.Swap? ==>
      forall j {:trigger Carries(r, acts, j, t)} | r[i].threads[t].began <= j < i && j != at && Carries(r, acts, j, t) ::
        r[j + 1].mem == r[j].mem
  {
    RunInv(r, acts, i);
    RunRan(r, acts, i, t);
    RunVoid(r, acts, i, t);
    assert ThreadOK(r[i], t);
    at := r[i].threads[t].ran.value.at;
  }

  lemma InitInv(s: State)
    requires Init(s)
    ensures Inv(s)
  {
    forall t | 0 <= t < |s.threads| ensures ThreadOK(s, t) {
      NoFlight(s.conns, t);
      NoSettling(s.threads, t);
    }
  }

  lemma {:induction false} NoFlight(conns: seq<Conn>, t: nat)
    requires forall c | 0 <= c < |conns| :: conns[c] == Conn([], [])
    ensures FlightAll(conns, t) == 0 && DoneAll(conns, t) == 0
  {
    if conns != [] { NoFlight(conns[..|conns| - 1], t); }
  }

  lemma {:induction false} NoSettling(threads: seq<Thread>, t: nat)
    requires forall u | 0 <= u < |threads| :: threads[u].pc.Idle?
    ensures SettlingAll(threads, t) == 0
  {
    if threads != [] { NoSettling(threads[..|threads| - 1], t); }
  }

  lemma {:induction false} RunInv(r: seq<State>, acts: seq<Action>, i: nat)
    requires IsRun(r, acts) && i < |r|
    ensures Inv(r[i])
  {
    if i == 0 {
      InitInv(r[0]);
    } else {
      RunInv(r, acts, i - 1);
      StepInv(r[i - 1], acts[i - 1]);
    }
  }

  // ---------- Main results ----------

  /** In every run, each thread's counter is the number of its signaled requests about to be posted, in flight,
      completed but not polled, or polled but not yet decremented; and there is at most one. */
  lemma CounterIsOutstanding(r: seq<State>, acts: seq<Action>, i: nat, t: nat)
    requires IsRun(r, acts) && i < |r| && t < |r[i].threads|
    ensures r[i].threads[t].counter == Outstanding(r[i], t)
    ensures 0 <= r[i].threads[t].counter <= 1
  {
    RunInv(r, acts, i);
    assert ThreadOK(r[i], t);
  }

  /** "Broken synchronization" never fires: whoever decrements a counter finds it at least 1. */
  lemma SynchronizationHolds(r: seq<State>, acts: seq<Action>, i: nat, t: nat)
    requires IsRun(r, acts) && i < |r| && t < |r[i].threads| && r[i].threads[t].pc.Settling?
    ensures r[i].threads[t].pc.id < |r[i].threads| && r[i].threads[r[i].threads[t].pc.id].counter >= 1
  {
    RunInv(r, acts, i);
    var id := r[i].threads[t].pc.id;
    assert ThreadOK(r[i], t) && ThreadOK(r[i], id);
    SettlingSeen(r[i].threads, t);
  }

  /** No thread is ever stuck in the middle of a call: its next step is possible. */
  lemma CallsGoOn(r: seq<State>, acts: seq<Action>, i: nat, t: nat)
    requires IsRun(r, acts) && i < |r| && t < |r[i].threads| && !r[i].threads[t].pc.Idle?
    ensures Enabled(r[i], Next(t))
  {
    RunInv(r, acts, i);
    assert ThreadOK(r[i], t);
  }

  // ---------- Calls end ----------

  function PcWork(pc: Pc): nat {
    match pc
    case Idle => 0
    case Arming(_, _) => 6
    case Posting(_, _) => 5
    case Checking(_, _) => 1
    case Probing(_, _) => 1
    case Settling(_, _, _) => 2
  }

  function ConnWork(conn: Conn): nat { 3 * |conn.flight| + 2 * |conn.completed| }

  ghost function ThreadsWork(threads: seq<Thread>): nat {
    if threads == [] then 0 else ThreadsWork(threads[..|threads| - 1]) + PcWork(threads[|threads| - 1].pc)
  }

  ghost function ConnsWork(conns: seq<Conn>): nat {
    if conns == [] then 0 else ConnsWork(conns[..|conns| - 1]) + ConnWork(conns[|conns| - 1])
  }

  /** What the calls under way still have to do: the threads' own steps, requests in flight, and completions to settle. */
  ghost function Work(s: State): nat { ThreadsWork(s.threads) + ConnsWork(s.conns) }

  lemma {:induction false} ThreadsWorkUpdate(threads: seq<Thread>, t: nat, th: Thread)
    requires t < |threads|
    ensures ThreadsWork(threads[t := th]) + PcWork(threads[t].pc) == ThreadsWork(threads) + PcWork(th.pc)
  {
    var l := |threads| - 1;
    if t < l {
      ThreadsWorkUpdate(threads[..l], t, th);
      assert threads[t := th][..l] == threads[..l][t := th];
    } else {
      assert threads[t := th][..l] == threads[..l];
    }
  }

  lemma {:induction false} ConnsWorkUpdate(conns: seq<Conn>, c: nat, conn: Conn)
    requires c < |conns|
    ensures ConnsWork(conns[c := conn]) + ConnWork(conns[c]) == ConnsWork(conns) + ConnWork(conn)
  {
    var l := |conns| - 1;
    if c < l {
      ConnsWorkUpdate(conns[..l], c, conn);
      assert conns[c := conn][..l] == conns[..l][c := conn];
    } else {
      assert conns[c := conn][..l] == conns[..l];
    }
  }

  /** A look at a counter that is not zero, or at an empty completion queue. */
  predicate Polls(s: State, a: Action)
    requires Enabled(s, a)
  {
    a.Next? &&
    var th := s.threads[a.t];
    (th.pc.Checking? && th.counter != 0) || (th.pc.Probing? && s.conns[th.pc.call.conn].completed == [])
  }

  /** A swap that met another word than it expected tries again. */
  predicate Retries(s: State, a: Action)
    requires Enabled(s, a)
  {
    a.Next? && s.threads[a.t].pc.Checking? && !Polls(s, a) && Step(s, a).threads[a.t].pc.Arming?
  }

  predicate Useful(s: State, a: Action)
    requires Enabled(s, a)
  {
    !a.Begin? && !a.Outside? && !Polls(s, a) && !Retries(s, a)
  }

  lemma NextWork(s: State, t: nat)
    requires Enabled(s, Next(t))
    ensures var a, s' := Next(t), Step(s, Next(t));
      if Polls(s, a) then Work(s') == Work(s) else if Retries(s, a) then Work(s') == Work(s) + 5 else Work(s') < Work(s)
  {
    var s', pc := Step(s, Next(t)), s.threads[t].pc;
    var mid := s.threads[t := s'.threads[t]];
    ThreadsWorkUpdate(s.threads, t, s'.threads[t]);
    ConnsWorkUpdate(s.conns, pc.call.conn, s'.conns[pc.call.conn]);
    hide ThreadsWork; hide ConnsWork;
    if pc.Settling? {
      SettleWork(s, t);
    } else {
      assert s'.threads == mid && s'.conns == s.conns[pc.call.conn := s'.conns[pc.call.conn]];
    }
  }

  /** The decrement of another thread's counter does not count. */
  lemma SettleWork(s: State, t: nat)
    requires Enabled(s, Next(t)) && s.threads[t].pc.Settling?
    ensures Work(Step(s, Next(t))) + 1 == Work(s)
  {
    var pc := s.threads[t].pc;
    var s1 := s.threads[t := s.threads[t].(pc := Checking(pc.call, pc.verb))];
    ThreadsWorkUpdate(s.threads, t, s1[t]);
    ThreadsWorkUpdate(s1, pc.id, s1[pc.id].(counter := s1[pc.id].counter - 1));
    hide ThreadsWork; hide ConnsWork;
  }

  lemma ExecuteWork(s: State, c: nat)
    requires Enabled(s, Execute(c))
    ensures Work(Step(s, Execute(c))) < Work(s)
  {
    var s' := Step(s, Execute(c));
    var r := s.conns[c].flight[0];
    ThreadsWorkUpdate(s.threads, r.thread, s'.threads[r.thread]);
    ConnsWorkUpdate(s.conns, c, s'.conns[c]);
    assert s.threads[r.thread := s'.threads[r.thread]] == s'.threads;
    hide ThreadsWork; hide ConnsWork; hide WordAt; hide After;
  }

  /** Every useful step uses up work, polling leaves it as it is, and only a new call or another try of a swap adds
      some, always the same. */
  lemma StepsUseWork(s: State, a: Action)
    requires Enabled(s, a)
    ensures var s' := Step(s, a);
      if Useful(s, a) then Work(s') < Work(s)
      else if a.Begin? then Work(s') == Work(s) + 6
      else if Retries(s, a) then Work(s') == Work(s) + 5
      else Work(s') == Work(s)
  {
    match a
    case Begin(t, _) => ThreadsWorkUpdate(s.threads, t, Step(s, a).threads[t]);
    case Next(t) => NextWork(s, t);
    case Execute(c) => ExecuteWork(s, c);
    case Outside(_, _, _) =>
  }

  ghost function UsefulSteps(r: seq<State>, acts: seq<Action>, i: nat): nat
    requires IsRun(r, acts) && i < |r|
  {
    if i == 0 then 0 else UsefulSteps(r, acts, i - 1) + if Useful(r[i - 1], acts[i - 1]) then 1 else 0
  }

  ghost function Begun(r: seq<State>, acts: seq<Action>, i: nat): nat
    requires IsRun(r, acts) && i < |r|
  {
    if i == 0 then 0 else Begun(r, acts, i - 1) + if acts[i - 1].Begin? then 1 else 0
  }

  ghost function Retried(r: seq<State>, acts: seq<Action>, i: nat): nat
    requires IsRun(r, acts) && i < |r|
  {
    if i == 0 then 0 else Retried(r, acts, i - 1) + if Retries(r[i - 1], acts[i - 1]) then 1 else 0
  }

  lemma {:induction false} NoThreadsWork(threads: seq<Thread>)
    requires forall t | 0 <= t < |threads| :: threads[t].pc.Idle?
    ensures ThreadsWork(threads) == 0
  {
    if threads != [] { NoThreadsWork(threads[..|threads| - 1]); }
  }

  lemma {:induction false} NoConnsWork(conns: seq<Conn>)
    requires forall c | 0 <= c < |conns| :: conns[c] == Conn([], [])
    ensures ConnsWork(conns) == 0
  {
    if conns != [] { NoConnsWork(conns[..|conns| - 1]); }
  }

  /** In every run the useful steps and the work left are paid for by the calls begun and the tries repeated: apart
      from polling, no call goes on for ever. */
  lemma {:induction false} CallsAreFinite(r: seq<State>, acts: seq<Action>, i: nat)
    requires IsRun(r, acts) && i < |r|
    ensures UsefulSteps(r, acts, i) + Work(r[i]) <= 6 * Begun(r, acts, i) + 5 * Retried(r, acts, i)
  {
    if i == 0 {
      NoThreadsWork(r[0].threads);
      NoConnsWork(r[0].conns);
    } else {
      CallsAreFinite(r, acts, i - 1);
      StepsUseWork(r[i - 1], acts[i - 1]);
      hide Work; hide Step; hide Enabled; hide Polls;
    }
  }

  // ---------- Polling is never in vain ----------

  /** A completion waits in the queue of the connection that its thread polls. */
  ghost predicate InOwnQueue(s: State, c: nat)
    requires c < |s.conns|
  {
    forall i | 0 <= i < |s.conns[c].completed| ::
      s.conns[c].completed[i] < |s.threads| && WaitsFor(s.threads[s.conns[c].completed[i]].pc, c)
  }

  predicate WaitsFor(pc: Pc, c: nat) { Waits(pc) && pc.call.conn == c }

  ghost predicate InOwnQueues(s: State) { forall c | 0 <= c < |s.conns| :: InOwnQueue(s, c) }

  lemma {:induction false} DoneAtLeast(conns: seq<Conn>, c: nat, t: nat)
    requires c < |conns| && t in conns[c].completed
    ensures DoneAll(conns, t) >= 1
  {
    if c < |conns| - 1 { DoneAtLeast(conns[..|conns| - 1], c, t); }
  }

  /** A thread that stops waiting has no completion left in any queue. */
  lemma StillWaits(s: State, a: Action, c: nat, t: nat)
    requires Inv(s) && Enabled(s, a) && c < |s.conns| && t in s.conns[c].completed
    requires t < |s.threads| && WaitsFor(s.threads[t].pc, c)
    ensures t < |Step(s, a).threads| && WaitsFor(Step(s, a).threads[t].pc, c)
  {
    DoneAtLeast(s.conns, c, t);
    assert ThreadOK(s, t);
    hide Inv; hide ConnOK;
  }

  lemma QueuesStep(s: State, a: Action)
    requires Inv(s) && InOwnQueues(s) && Enabled(s, a)
    ensures InOwnQueues(Step(s, a))
  {
    var s' := Step(s, a);
    forall c | 0 <= c < |s.conns| ensures InOwnQueue(s', c) {
      assert InOwnQueue(s, c);
      forall i | 0 <= i < |s'.conns[c].completed|
        ensures s'.conns[c].completed[i] < |s'.threads| && WaitsFor(s'.threads[s'.conns[c].completed[i]].pc, c)
      {
        var t := s'.conns[c].completed[i];
        if t in s.conns[c].completed {
          StillWaits(s, a, c, t);
        } else {
          assert a == Execute(c) && SentBy(s, c, s.conns[c].flight[0]) by { assert ConnOK(s, c); }
        }
      }
    }
  }

  lemma {:induction false} RunQueues(r: seq<State>, acts: seq<Action>, i: nat)
    requires IsRun(r, acts) && i < |r|
    ensures InOwnQueues(r[i])
  {
    if i > 0 {
      RunQueues(r, acts, i - 1);
      RunInv(r, acts, i - 1);
      hide Inv; hide Step; hide Enabled; hide InOwnQueues;
      QueuesStep(r[i - 1], acts[i - 1]);
    }
  }

  lemma {:induction false} FlightNone(conns: seq<Conn>, t: nat)
    requires forall c | 0 <= c < |conns| :: conns[c].flight == []
    ensures FlightAll(conns, t) == 0
  {
    if conns != [] { FlightNone(conns[..|conns| - 1], t); }
  }

  lemma {:induction false} SettlingNone(threads: seq<Thread>, t: nat)
    requires forall u | 0 <= u < |threads| :: !threads[u].pc.Settling?
    ensures SettlingAll(threads, t) == 0
  {
    if threads != [] { SettlingNone(threads[..|threads| - 1], t); }
  }

  lemma {:induction false} DoneSomewhere(conns: seq<Conn>, t: nat) returns (c: nat)
    requires DoneAll(conns, t) >= 1
    ensures c < |conns| && t in conns[c].completed
  {
    var l := |conns| - 1;
    if t in conns[l].completed { c := l; } else { c := DoneSomewhere(conns[..l], t); }
  }

  /** A thread whose counter is not zero, with nothing in flight and nobody settling, has its completion where it polls. */
  lemma CompletionWaits(s: State, t: nat)
    requires Inv(s) && InOwnQueues(s) && t < |s.threads| && Waits(s.threads[t].pc) && s.threads[t].counter != 0
    requires forall c | 0 <= c < |s.conns| :: s.conns[c].flight == []
    requires forall u | 0 <= u < |s.threads| :: !s.threads[u].pc.Settling?
    ensures s.threads[t].pc.call.conn < |s.conns| && s.conns[s.threads[t].pc.call.conn].completed != []
  {
    assert ThreadOK(s, t);
    FlightNone(s.conns, t);
    SettlingNone(s.threads, t);
    var c := DoneSomewhere(s.conns, t);
    assert InOwnQueue(s, c);
    var i :| 0 <= i < |s.conns[c].completed| && s.conns[c].completed[i] == t;
    assert WaitsFor(s.threads[s.conns[c].completed[i]].pc, c);
  }

  /** A useful step, or another try of a swap. */
  predicate GoesOn(s: State, a: Action) { Enabled(s, a) && (Useful(s, a) || Retries(s, a)) }

  /** While a thread is inside a call, some useful step is possible, at once or after one look. */
  lemma Progress(s: State, t: nat) returns (a: Action, b: Action)
    requires Inv(s) && InOwnQueues(s) && t < |s.threads| && !s.threads[t].pc.Idle?
    ensures GoesOn(s, a) || (Enabled(s, a) && Polls(s, a) && GoesOn(Step(s, a), b))
  {
    a, b := Next(t), Next(t);
    assert ThreadOK(s, t);
    if c :| 0 <= c < |s.conns| && s.conns[c].flight != [] {
      a := Execute(c);
      assert ConnOK(s, c) && SentBy(s, c, s.conns[c].flight[0]);
    } else if u :| 0 <= u < |s.threads| && s.threads[u].pc.Settling? {
      a := Next(u);
      assert ThreadOK(s, u);
    } else if Waits(s.threads[t].pc) && s.threads[t].counter != 0 {
      CompletionWaits(s, t);
    }
  }

  /** In every run, as long as a thread is inside a call somebody can do something useful, at once or after one look
      at a counter or a queue: completions never stop arriving while they are waited for. */
  lemma NobodyPollsInVain(r: seq<State>, acts: seq<Action>, i: nat, t: nat) returns (a: Action, b: Action)
    requires IsRun(r, acts) && i < |r| && t < |r[i].threads| && !r[i].threads[t].pc.Idle?
    ensures GoesOn(r[i], a) || (Enabled(r[i], a) && Polls(r[i], a) && GoesOn(Step(r[i], a), b))
  {
    RunInv(r, acts, i);
    RunQueues(r, acts, i);
    a, b := Progress(r[i], t);
  }

  // ---------- A call returns with its own result ----------

  /** Step `j` of the run carries out a signaled request of `t`. */
  ghost predicate Carries(r: seq<State>, acts: seq<Action>, j: nat, t: nat)
    requires |r| == |acts| + 1 && j < |acts|
  {
    && acts[j].Execute? && acts[j].c < |r[j].conns| && r[j].conns[acts[j].c].flight != []
    && r[j].conns[acts[j].c].flight[0].thread == t && r[j].conns[acts[j].c].flight[0].signaled
  }

  /** What `ran` records is true of the run. */
  ghost predicate RanTrue(r: seq<State>, acts: seq<Action>, i: nat, t: nat)
    requires |r| == |acts| + 1 && i < |r| && t < |r[i].threads|
  {
    var th := r[i].threads[t];
    th.ran.Some? ==>
      var ran := th.ran.value;
      && ran.at < i && acts[ran.at] == Execute(ran.conn)
      && Carries(r, acts, ran.at, t) && r[ran.at].conns[ran.conn].flight[0].verb == ran.verb
      && ran.met == WordAt(r[ran.at].mem, ran.conn, ran.verb.addr)
  }

  /** Since the call began, no request of `t` but the last one carried out has changed the memory. */
  ghost predicate OthersVoid(r: seq<State>, acts: seq<Action>, i: nat, t: nat)
    requires |r| == |acts| + 1 && i < |r| && t < |r[i].threads|
  {
    var th := r[i].threads[t];
    (!th.pc.Idle? && th.pc.call.Swap? ==>
      forall j {:trigger Carries(r, acts, j, t)} | th.began <= j < i && Carries(r, acts, j, t) ::
        (Waits(th.pc) && th.ran.Some? && th.ran.value.at == j) || r[j + 1].mem == r[j].mem)
  }

  lemma {:induction false} Clock(r: seq<State>, acts: seq<Action>, i: nat)
    requires IsRun(r, acts) && i < |r|
    ensures r[i].clock == i && |r[i].threads| == |r[0].threads|
  {
    if i > 0 { Clock(r, acts, i - 1); }
  }

  /** A step leaves a thread's record alone, clears it, or is the execution of its request. */
  lemma RanStep(s: State, a: Action, t: nat)
    requires Enabled(s, a) && t < |s.threads|
    ensures var was, now := s.threads[t].ran, Step(s, a).threads[t].ran;
      now == was || now.None?
      || (Runs(s, a, t)
          && now == Some(Ran(a.c, s.conns[a.c].flight[0].verb, WordAt(s.mem, a.c, s.conns[a.c].flight[0].verb.addr), s.clock)))
  {}

  lemma {:induction false} RunRan(r: seq<State>, acts: seq<Action>, i: nat, t: nat)
    requires IsRun(r, acts) && i < |r| && t < |r[i].threads|
    ensures RanTrue(r, acts, i, t)
  {
    if i == 0 {
      assert r[0].threads[t].ran.None?;
    } else {
      Clock(r, acts, i);
      Clock(r, acts, i - 1);
      RunRan(r, acts, i - 1, t);
      RanStep(r[i - 1], acts[i - 1], t);
      hide Step; hide WordAt;
    }
  }
}
