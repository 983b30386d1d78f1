/** What happens to every request of a run: the requests of a connection are carried out in the order in which they
    were posted, each once, with the operands of the call that posted it. Writes that ask for no acknowledgement are
    covered only here, since their calls return before the write.
 */
module CompletionOrder {
  import opened CompletionCounters
  import opened CompletionRuns

  predicate PostsOn(s: State, a: Action, c: nat) {
    a.Next? && a.t < |s.threads| && s.threads[a.t].pc.Posting? && s.threads[a.t].pc.call.conn == c
  }

  /** The steps before `i` that posted a request on connection `c`, in order. */
  ghost function Posts(r: seq<State>, acts: seq<Action>, i: nat, c: nat): seq<nat>
    requires |r| == |acts| + 1 && i < |r|
  {
    if i == 0 then [] else Posts(r, acts, i - 1, c) + if PostsOn(r[i - 1], acts[i - 1], c) then [i - 1] else []
  }

  /** How many requests of connection `c` were carried out before step `i`. */
  ghost function CarriedOn(acts: seq<Action>, i: nat, c: nat): nat
    requires i <= |acts|
  {
    if i == 0 then 0 else CarriedOn(acts, i - 1, c) + if acts[i - 1] == Execute(c) then 1 else 0
  }

  /** Step `j` posted the request. */
  ghost predicate Posted(r: seq<State>, acts: seq<Action>, j: nat, q: Request) {
    && j < |acts| < |r| && acts[j].Next? && acts[j].t < |r[j].threads| && r[j].threads[acts[j].t].pc.Posting?
    && var pc := r[j].threads[acts[j].t].pc;
    q == Request(acts[j].t, !pc.call.Push?, pc.verb)
  }

  /** The queue of a connection holds what was posted and not carried out yet, in order. */
  ghost predicate QueueOK(r: seq<State>, acts: seq<Action>, i: nat, c: nat)
    requires |r| == |acts| + 1 && i < |r| && c < |r[i].conns|
  {
    Waiting(r, acts, i, c, Posts(r, acts, i, c), CarriedOn(acts, i, c), r[i].conns[c].flight)
  }

  ghost predicate Waiting(r: seq<State>, acts: seq<Action>, i: nat, c: nat, posts: seq<nat>, done: nat, flight: seq<Request>) {
    && |posts| == done + |flight|
    && (forall k | 0 <= k < |posts| :: posts[k] < i && PostedOn(r, acts, posts[k], c))
    && forall k | 0 <= k < |flight| :: Posted(r, acts, posts[done + k], flight[k])
  }

  ghost predicate PostedOn(r: seq<State>, acts: seq<Action>, j: nat, c: nat) {
    j < |acts| < |r| && PostsOn(r[j], acts[j], c)
  }

  lemma {:induction false} SameConns(r: seq<State>, acts: seq<Action>, i: nat)
    requires IsRun(r, acts) && i < |r|
    ensures |r[i].conns| == |r[0].conns|
  {
    if i > 0 { SameConns(r, acts, i - 1); }
  }

  /** What a step does to the queue of a connection. */
  lemma FlightStep(s: State, a: Action, c: nat)
    requires Enabled(s, a) && c < |s.conns|
    ensures var was, now := s.conns[c].flight, Step(s, a).conns[c].flight;
      if PostsOn(s, a, c) then
        var pc := s.threads[a.t].pc;
        now == was + [Request(a.t, !pc.call.Push?, pc.verb)]
      else if a == Execute(c) then was != [] && now == was[1..]
      else now == was
  {}

  lemma QueueStep(r: seq<State>, acts: seq<Action>, i: nat, c: nat)
    requires IsRun(r, acts) && 0 < i < |r| && c < |r[i].conns| == |r[i - 1].conns|
    requires QueueOK(r, acts, i - 1, c)
    ensures QueueOK(r, acts, i, c)
  {
    var s, a := r[i - 1], acts[i - 1];
    var posts, done, flight := Posts(r, acts, i - 1, c), CarriedOn(acts, i - 1, c), s.conns[c].flight;
    assert Enabled(s, a) && r[i] == Step(s, a);
    FlightStep(s, a, c);
    hide IsRun; hide Step; hide Enabled; hide Waiting;
    assert Posts(r, acts, i, c) == posts + if PostsOn(s, a, c) then [i - 1] else [];
    assert CarriedOn(acts, i, c) == if a == Execute(c) then done + 1 else done;
    hide Posts; hide CarriedOn;
    if PostsOn(s, a, c) {
      OnePosted(r, acts, i, c, posts, done, flight, r[i].conns[c].flight[|flight|]);
    } else {
      OneCarried(r, acts, i, c, posts, done, flight);
    }
  }

  lemma OnePosted(r: seq<State>, acts: seq<Action>, i: nat, c: nat, posts: seq<nat>, done: nat, flight: seq<Request>, q: Request)
    requires 0 < i && Waiting(r, acts, i - 1, c, posts, done, flight) && PostedOn(r, acts, i - 1, c) && Posted(r, acts, i - 1, q)
    ensures Waiting(r, acts, i, c, posts + [i - 1], done, flight + [q])
  {
    hide PostedOn; hide Posted;
  }

  lemma OneCarried(r: seq<State>, acts: seq<Action>, i: nat, c: nat, posts: seq<nat>, done: nat, flight: seq<Request>)
    requires 0 < i && Waiting(r, acts, i - 1, c, posts, done, flight)
    ensures Waiting(r, acts, i, c, posts, done, flight)
    ensures flight != [] ==> Waiting(r, acts, i, c, posts, done + 1, flight[1..])
  {
    hide PostedOn; hide Posted;
  }

  lemma {:induction false} RunQueue(r: seq<State>, acts: seq<Action>, i: nat, c: nat)
    requires IsRun(r, acts) && i < |r| && c < |r[i].conns|
    ensures QueueOK(r, acts, i, c)
  {
    if i > 0 {
      SameConns(r, acts, i);
      SameConns(r, acts, i - 1);
      RunQueue(r, acts, i - 1, c);
      QueueStep(r, acts, i, c);
    }
  }

  /** The request that is carried out next on a connection is the one posted next on it, and its effect is that of the
      call that posted it: a read changes nothing, a write leaves its word, and a compare-and-swap stores its word if
      and only if it finds the word it expects. What a read or a compare-and-swap finds lands with its thread. */
  lemma CarriedInOrder(r: seq<State>, acts: seq<Action>, i: nat, c: nat) returns (j: nat)
    requires IsRun(r, acts) && i < |acts| && acts[i] == Execute(c)
    ensures CarriedOn(acts, i, c) < |Posts(r, acts, i, c)| && j == Posts(r, acts, i, c)[CarriedOn(acts, i, c)]
    ensures j < i && PostsOn(r[j], acts[j], c)
    ensures
      var pc := r[j].threads[acts[j].t].pc;
      var key := (c, pc.call.addr);
      var found := if key in r[i].mem then r[i].mem[key] else 0;
      match pc.call
      case Read(_, _) => r[i + 1].mem == r[i].mem
      case Write(_, _, word) => r[i + 1].mem == r[i].mem[key := word]
      case Push(_, _, word) => r[i + 1].mem == r[i].mem[key := word]
      case Cas(_, _, expected, word) => r[i + 1].mem == if found == expected then r[i].mem[key := word] else r[i].mem
      case Swap(_, _, _, word) =>
        pc.verb.CompareSwap? && r[i + 1].mem == if found == pc.verb.expected then r[i].mem[key := word] else r[i].mem
    ensures
      var pc := r[j].threads[acts[j].t].pc;
      var key := (c, pc.call.addr);
      var found := if key in r[i].mem then r[i].mem[key] else 0;
      && |r[i + 1].threads| == |r[i].threads|
      && forall u | 0 <= u < |r[i].threads| :: r[i + 1].threads[u].landing ==
           if u == acts[j].t && !pc.call.Write? && !pc.call.Push? then found else r[i].threads[u].landing
  {
    SameConns(r, acts, i);
    RunQueue(r, acts, i, c);
    j := Posts(r, acts, i, c)[CarriedOn(acts, i, c)];
    assert Posted(r, acts, j, r[i].conns[c].flight[0]);
    SameThreads(r, acts, j);
    RunInv(r, acts, j);
    assert ThreadOK(r[j], acts[j].t);
  }

  lemma SameThreads(r: seq<State>, acts: seq<Action>, j: nat)
    requires IsRun(r, acts) && j < |acts|
    ensures |r[j].threads| == |r[j + 1].threads|
  {
    Clock(r, acts, j);
    Clock(r, acts, j + 1);
  }

  // ---------- How often a call posts ----------

  ghost predicate PostsAt(r: seq<State>, acts: seq<Action>, j: nat, t: nat) {
    j < |acts| < |r| && acts[j] == Next(t) && t < |r[j].threads| && r[j].threads[t].pc.Posting?
  }

  /** Since its call began the thread has posted nothing, or once, with the operands of the call. */
  ghost predicate PostedOnce(r: seq<State>, acts: seq<Action>, i: nat, t: nat)
    requires |r| == |acts| + 1 && i < |r| && t < |r[i].threads|
  {
    var th := r[i].threads[t];
    !th.pc.Idle? && !th.pc.call.Swap? ==>
      if Waits(th.pc) then exists j :: OnlyPost(r, acts, i, t, j)
      else forall j | th.began <= j < i :: !PostsAt(r, acts, j, t)
  }

  ghost predicate OnlyPost(r: seq<State>, acts: seq<Action>, i: nat, t: nat, j: nat)
    requires |r| == |acts| + 1 && i < |r| && t < |r[i].threads| && !r[i].threads[t].pc.Idle?
  {
    && r[i].threads[t].began < j < i && PostsAt(r, acts, j, t)
    && r[j].threads[t].pc.call == r[i].threads[t].pc.call
    && forall k | r[i].threads[t].began <= k < i && k != j :: !PostsAt(r, acts, k, t)
  }

  lemma PostedStep(r: seq<State>, acts: seq<Action>, i: nat, t: nat)
    requires |r| == |acts| + 1 && 0 < i < |r| && Enabled(r[i - 1], acts[i - 1]) && r[i] == Step(r[i - 1], acts[i - 1])
    requires Inv(r[i - 1]) && t < |r[i].threads| == |r[i - 1].threads| && r[i - 1].clock == i - 1
    requires PostedOnce(r, acts, i - 1, t)
    ensures PostedOnce(r, acts, i, t)
  {
    hide Inv; hide Step; hide Enabled; hide PostedOnce;
    PlaceStep(r[i - 1], acts[i - 1], t);
    SwapsRetry(r[i - 1], acts[i - 1], t);
    Began(r[i - 1], t);
    PostedNext(r, acts, i, t, r[i - 1].threads[t], r[i].threads[t]);
  }

  lemma Began(s: State, t: nat)
    requires Inv(s) && t < |s.threads|
    ensures !s.threads[t].pc.Idle? ==> s.threads[t].began < s.clock
  {
    assert ThreadOK(s, t);
  }

  lemma PostedNext(r: seq<State>, acts: seq<Action>, i: nat, t: nat, was: Thread, now: Thread)
    requires |r| == |acts| + 1 && 0 < i < |r| && t < |r[i].threads| == |r[i - 1].threads| && PostedOnce(r, acts, i - 1, t)
    requires was == r[i - 1].threads[t] && now == r[i].threads[t] && (!was.pc.Idle? ==> was.began < i - 1)
    requires
      || (acts[i - 1].Begin? && acts[i - 1].t == t && now.began == i - 1 && now.pc.Arming?)
      || now.pc.Idle?
      || (!was.pc.Idle? && now.began == was.began && now.pc.call == was.pc.call
          && ((Waits(now.pc) <==> Waits(was.pc)) || (was.pc.Posting? && Waits(now.pc))))
      || (now.pc.Arming? && now.pc.call.Swap?)
    requires was.pc.Posting? && Waits(now.pc) ==> acts[i - 1] == Next(t)
    requires acts[i - 1] == Next(t) && was.pc.Posting? ==> Waits(now.pc)
    ensures PostedOnce(r, acts, i, t)
  {
    if !now.pc.Idle? && !now.pc.call.Swap? && Waits(now.pc) {
      if was.pc.Posting? {
        assert OnlyPost(r, acts, i, t, i - 1);
      } else {
        var j :| OnlyPost(r, acts, i - 1, t, j);
        assert OnlyPost(r, acts, i, t, j);
      }
    }
  }

  lemma SwapsRetry(s: State, a: Action, t: nat)
    requires Inv(s) && Enabled(s, a) && t < |s.threads|
    ensures var was, now := s.threads[t].pc, Step(s, a).threads[t].pc;
      && (was.Checking? && now.Arming? && !a.Begin? ==> was.call.Swap?)
      && (was.Posting? && Waits(now) ==> a == Next(t))
      && (now.Posting? && a == Next(t) ==> was.Arming?)
      && (a == Next(t) && was.Posting? ==> Waits(now))
  {
    assert ThreadOK(s, t);
    if a.Execute? { assert ConnOK(s, a.c) && SentBy(s, a.c, s.conns[a.c].flight[0]); }
  }

  lemma {:induction false} RunPosted(r: seq<State>, acts: seq<Action>, i: nat, t: nat)
    requires IsRun(r, acts) && i < |r| && t < |r[i].threads|
    ensures PostedOnce(r, acts, i, t)
  {
    hide PostedOnce; hide Step; hide Enabled; hide Inv;
    if i == 0 {
      AtRest(r, acts, t);
    } else {
      hide Init;
      Clock(r, acts, i);
      Clock(r, acts, i - 1);
      RunPosted(r, acts, i - 1, t);
      RunInv(r, acts, i - 1);
      PostedStep(r, acts, i, t);
    }
  }

  /** A call that is no swap posts exactly one request between its start and its return, whether or not it asks for an
      acknowledgement. */
  lemma PostsOnce(r: seq<State>, acts: seq<Action>, i: nat, t: nat) returns (j: nat)
    requires IsRun(r, acts) && i < |acts| && acts[i] == Next(t) && t < |r[i].threads|
    requires r[i].threads[t].pc.Checking? && r[i + 1].threads[t].pc.Idle? && !r[i].threads[t].pc.call.Swap?
    ensures r[i].threads[t].began < j < i && PostsAt(r, acts, j, t) && r[j].threads[t].pc.call == r[i].threads[t].pc.call
    ensures forall k | r[i].threads[t].began <= k < i && k != j :: !PostsAt(r, acts, k, t)
  {
    RunPosted(r, acts, i, t);
    j :| OnlyPost(r, acts, i, t, j);
  }

  // ---------- What a swap expects ----------

  function Found(s: State, call: Call): Word { WordAt(s.mem, call.conn, call.addr) }

  ghost predicate NoneCarried(r: seq<State>, acts: seq<Action>, from: nat, i: nat, t: nat)
    requires |r| == |acts| + 1 && i < |r|
  {
    forall j {:trigger Carries(r, acts, j, t)} | from <= j < i :: !Carries(r, acts, j, t)
  }

  /** Step `j` carried out the last request of `t` before step `i`, in its call that began at `from`. */
  ghost predicate LastCarried(r: seq<State>, acts: seq<Action>, from: nat, i: nat, t: nat, j: nat)
    requires |r| == |acts| + 1 && i < |r|
  {
    from <= j < i && Carries(r, acts, j, t) && NoneCarried(r, acts, j + 1, i, t)
  }

  /** The hint before the first request of the swap has been carried out, and the word last found after that. */
  ghost predicate Expects(r: seq<State>, acts: seq<Action>, from: nat, i: nat, t: nat, call: Call, word: Word)
    requires |r| == |acts| + 1 && i < |r| && call.Swap?
  {
    && (NoneCarried(r, acts, from, i, t) ==> word == call.hint)
    && forall j: nat | LastCarried(r, acts, from, i, t, j) :: word == Found(r[j], call)
  }

  ghost predicate TriesOK(r: seq<State>, acts: seq<Action>, i: nat, t: nat)
    requires |r| == |acts| + 1 && i < |r| && t < |r[i].threads|
  {
    var th := r[i].threads[t];
    !th.pc.Idle? && th.pc.call.Swap? ==>
      if Waits(th.pc) && th.ran.Some? then
        LastCarried(r, acts, th.began, i, t, th.ran.value.at) && th.landing == Found(r[th.ran.value.at], th.pc.call)
      else
        th.pc.verb.CompareSwap? && Expects(r, acts, th.began, i, t, th.pc.call, th.pc.verb.expected)
  }

  /** A swap begins with its hint, has its request carried out, goes on, or tries again with the word it found. */
  ghost predicate SwapMoves(s: State, a: Action, was: Thread, now: Thread, t: nat)
    requires Enabled(s, a) && !now.pc.Idle? && now.pc.call.Swap?
  {
    || (a.Begin? && now.began == s.clock && now.pc == Arming(now.pc.call, CompareSwap(now.pc.call.addr, now.pc.call.hint, now.pc.call.word)))
    || (&& !was.pc.Idle? && now.began == was.began && now.pc.call == was.pc.call
        && if Runs(s, a, t) then
             Waits(now.pc) && now.ran.Some? && now.ran.value.at == s.clock
             && a.c == now.pc.call.conn && now.landing == Found(s, now.pc.call)
           else
             || (Waits(now.pc) && Waits(was.pc) && now.pc.verb == was.pc.verb && now.ran == was.ran && now.landing == was.landing)
             || (Waits(now.pc) && !Waits(was.pc) && now.pc.verb == was.pc.verb && now.ran.None?)
             || (!Waits(now.pc) && !Waits(was.pc) && now.pc.verb == was.pc.verb)
             || (Waits(was.pc) && was.ran.Some? && now.pc == Arming(now.pc.call, CompareSwap(now.pc.call.addr, was.landing, now.pc.call.word))))
  }

  lemma SwapExecuted(s: State, a: Action, t: nat)
    requires Inv(s) && Enabled(s, a) && a.Execute? && t < |s.threads|
    requires var pc := Step(s, a).threads[t].pc; !pc.Idle? && pc.call.Swap?
    ensures SwapMoves(s, a, s.threads[t], Step(s, a).threads[t], t)
  {
    if s.conns[a.c].flight[0].signaled { ExecutedOwn(s, a.c); }
    hide Inv; hide After;
  }

  lemma SwapStep(s: State, a: Action, t: nat)
    requires Inv(s) && Enabled(s, a) && t < |s.threads|
    requires var pc := Step(s, a).threads[t].pc; !pc.Idle? && pc.call.Swap?
    ensures SwapMoves(s, a, s.threads[t], Step(s, a).threads[t], t)
  {
    if a.Execute? {
      hide Step; hide SwapMoves; hide Inv; hide Enabled;
      SwapExecuted(s, a, t);
    } else {
      hide Found; hide WordAt; hide After;
      SwapOwn(s, a, t);
    }
  }

  /** A step of another thread leaves this one alone, up to its counter. */
  lemma OthersStay(s: State, u: nat, t: nat)
    requires Enabled(s, Next(u)) && t < |s.threads| && t != u
    ensures Step(s, Next(u)).threads[t] == s.threads[t].(counter := Step(s, Next(u)).threads[t].counter)
  {}

  lemma SwapOwn(s: State, a: Action, t: nat)
    requires Inv(s) && Enabled(s, a) && !a.Execute? && t < |s.threads|
    requires var pc := Step(s, a).threads[t].pc; !pc.Idle? && pc.call.Swap?
    ensures SwapMoves(s, a, s.threads[t], Step(s, a).threads[t], t)
  {
    assert ThreadOK(s, t);
    hide Inv; hide Outstanding; hide Ahead; hide Found; hide WordAt; hide After; hide AboutToPost;
    match a
    case Begin(_, _) =>
    case Next(u) => if u != t { OthersStay(s, u, t); }
    case Outside(_, _, _) =>
  }

  lemma SwapCompares(s: State, t: nat)
    requires Inv(s) && t < |s.threads| && !s.threads[t].pc.Idle? && s.threads[t].pc.call.Swap?
    ensures s.threads[t].pc.verb.CompareSwap? && s.threads[t].began < s.clock
  {
    assert ThreadOK(s, t);
  }

  /** The request at the head of a queue is the current one of the thread that waits for it. */
  lemma ExecutedOwn(s: State, c: nat)
    requires Inv(s) && Enabled(s, Execute(c)) && s.conns[c].flight[0].signaled
    ensures var q := s.conns[c].flight[0]; var pc := s.threads[q.thread].pc;
      Waits(pc) && !pc.call.Push? && pc.verb == q.verb && pc.call.conn == c && Fits(pc.call, pc.verb)
  {
    assert ConnOK(s, c) && SentBy(s, c, s.conns[c].flight[0]);
    assert ThreadOK(s, s.conns[c].flight[0].thread);
  }

  lemma NotCarriedNow(r: seq<State>, acts: seq<Action>, from: nat, i: nat, t: nat)
    requires |r| == |acts| + 1 && 0 < i < |r| && from < i && !Carries(r, acts, i - 1, t)
    ensures NoneCarried(r, acts, from, i, t) <==> NoneCarried(r, acts, from, i - 1, t)
    ensures forall j: nat :: LastCarried(r, acts, from, i, t, j) <==> LastCarried(r, acts, from, i - 1, t, j)
    ensures from == i - 1 ==> forall j: nat :: !LastCarried(r, acts, from, i, t, j)
  {
    hide Carries;
    forall j: nat ensures LastCarried(r, acts, from, i, t, j) <==> LastCarried(r, acts, from, i - 1, t, j) {
      if from <= j < i - 1 && Carries(r, acts, j, t) {
        assert NoneCarried(r, acts, j + 1, i, t) <==> NoneCarried(r, acts, j + 1, i - 1, t);
      }
    }
  }

  lemma OneLast(r: seq<State>, acts: seq<Action>, from: nat, i: nat, t: nat, j: nat)
    requires |r| == |acts| + 1 && i < |r| && LastCarried(r, acts, from, i, t, j)
    ensures !NoneCarried(r, acts, from, i, t) && forall k: nat | LastCarried(r, acts, from, i, t, k) :: k == j
  {
    hide Carries;
  }

  /** The step does not carry out the swap's request. */
  lemma QuietStep(r: seq<State>, acts: seq<Action>, i: nat, t: nat)
    requires |r| == |acts| + 1 && 0 < i < |r| && t < |r[i].threads| == |r[i - 1].threads| && Enabled(r[i - 1], acts[i - 1])
    requires TriesOK(r, acts, i - 1, t) && !Carries(r, acts, i - 1, t) && !Runs(r[i - 1], acts[i - 1], t)
    requires !r[i].threads[t].pc.Idle? && r[i].threads[t].pc.call.Swap? && r[i].threads[t].began < i && r[i - 1].clock == i - 1
    requires SwapMoves(r[i - 1], acts[i - 1], r[i - 1].threads[t], r[i].threads[t], t) && r[i].threads[t].pc.verb.CompareSwap?
    ensures TriesOK(r, acts, i, t)
  {
    var was, now := r[i - 1].threads[t], r[i].threads[t];
    NotCarriedNow(r, acts, now.began, i, t);
    hide Runs; hide Found; hide Carries; hide Enabled;
    if !acts[i - 1].Begin? && Waits(was.pc) && was.ran.Some? {
      OneLast(r, acts, was.began, i - 1, t, was.ran.value.at);
    }
    hide LastCarried; hide NoneCarried;
  }

  lemma CarriesIffRuns(r: seq<State>, acts: seq<Action>, j: nat, t: nat)
    requires |r| == |acts| + 1 && j < |acts| && Enabled(r[j], acts[j])
    ensures Carries(r, acts, j, t) <==> Runs(r[j], acts[j], t)
  {}

  lemma TriesStep(r: seq<State>, acts: seq<Action>, i: nat, t: nat)
    requires |r| == |acts| + 1 && 0 < i < |r| && Enabled(r[i - 1], acts[i - 1]) && r[i] == Step(r[i - 1], acts[i - 1])
    requires Inv(r[i - 1]) && Inv(r[i]) && t < |r[i].threads| == |r[i - 1].threads|
    requires r[i - 1].clock == i - 1 && r[i].clock == i && TriesOK(r, acts, i - 1, t)
    ensures TriesOK(r, acts, i, t)
  {
    hide Step; hide Inv; hide Enabled; hide TriesOK; hide SwapMoves;
    var pc := r[i].threads[t].pc;
    if pc.Idle? || !pc.call.Swap? {
      NoSwap(r, acts, i, t);
    } else {
      SwapCompares(r[i], t);
      SwapStep(r[i - 1], acts[i - 1], t);
      CarriesIffRuns(r, acts, i - 1, t);
      if Runs(r[i - 1], acts[i - 1], t) {
        JustRan(r, acts, i, t);
      } else {
        QuietStep(r, acts, i, t);
      }
    }
  }

  lemma NoSwap(r: seq<State>, acts: seq<Action>, i: nat, t: nat)
    requires |r| == |acts| + 1 && i < |r| && t < |r[i].threads|
    requires r[i].threads[t].pc.Idle? || !r[i].threads[t].pc.call.Swap?
    ensures TriesOK(r, acts, i, t)
  {}

  lemma JustRan(r: seq<State>, acts: seq<Action>, i: nat, t: nat)
    requires |r| == |acts| + 1 && 0 < i < |r| && t < |r[i].threads| == |r[i - 1].threads| && Enabled(r[i - 1], acts[i - 1])
    requires Carries(r, acts, i - 1, t) && Runs(r[i - 1], acts[i - 1], t) && r[i - 1].clock == i - 1
    requires !r[i].threads[t].pc.Idle? && r[i].threads[t].pc.call.Swap? && r[i].threads[t].began < i
    requires SwapMoves(r[i - 1], acts[i - 1], r[i - 1].threads[t], r[i].threads[t], t)
    ensures TriesOK(r, acts, i, t)
  {
    hide Found; hide Carries; hide Enabled;
    assert LastCarried(r, acts, r[i].threads[t].began, i, t, i - 1);
  }

  lemma AtRest(r: seq<State>, acts: seq<Action>, t: nat)
    requires |r| == |acts| + 1 && Init(r[0]) && t < |r[0].threads|
    ensures TriesOK(r, acts, 0, t) && PostedOnce(r, acts, 0, t)
  {}

  lemma {:induction false} RunTries(r: seq<State>, acts: seq<Action>, i: nat, t: nat)
    requires IsRun(r, acts) && i < |r| && t < |r[i].threads|
    ensures TriesOK(r, acts, i, t)
  {
    hide TriesOK; hide Step; hide Enabled; hide Inv;
    if i == 0 {
      AtRest(r, acts, t);
    } else {
      hide Init;
      Clock(r, acts, i);
      Clock(r, acts, i - 1);
      RunTries(r, acts, i - 1, t);
      RunInv(r, acts, i - 1);
      RunInv(r, acts, i);
      TriesStep(r, acts, i, t);
    }
  }

  /** Each try of a swap replaces the word exactly when it finds the word it expects: the hint at first, and then what
      its last try found. */
  lemma SwapTries(r: seq<State>, acts: seq<Action>, i: nat, t: nat)
    requires IsRun(r, acts) && i < |acts| && Carries(r, acts, i, t) && t < |r[i].threads|
    requires !r[i].threads[t].pc.Idle? && r[i].threads[t].pc.call.Swap?
    ensures var call, from := r[i].threads[t].pc.call, r[i].threads[t].began;
      acts[i] == Execute(call.conn) &&
      var key := (call.conn, call.addr);
      var found := if key in r[i].mem then r[i].mem[key] else 0;
      && (NoneCarried(r, acts, from, i, t) ==>
            r[i + 1].mem == if found == call.hint then r[i].mem[key := call.word] else r[i].mem)
      && forall j: nat | LastCarried(r, acts, from, i, t, j) ::
           r[i + 1].mem == if found == Found(r[j], call) then r[i].mem[key := call.word] else r[i].mem
  {
    RunInv(r, acts, i);
    RunTries(r, acts, i, t);
    ExecutedOwn(r[i], acts[i].c);
    NotYetRan(r[i], acts[i].c, t, r[i].conns[acts[i].c].flight[0].verb);
  }
}
