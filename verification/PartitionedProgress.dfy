/** Every request is answered: whatever has happened so far, the threads that are there can finish all operations. */
module PartitionedProgress {
  import opened Linearizability
  import opened KeyPartition
  import opened PartitionedMap
  import opened PartitionedRuns

  // ---------- What is left to do ----------

  function ClientWork(space: Space, s: State, c: Client): nat
    requires space.count > 0 && space.len > 0
  {
    match c.pc
    case Idle => 0
    case Start(_, _) => 15
    case Sending(_, _) => 14
    case Waiting(_, op) =>
      var b := Target(space, op);
      if b >= 0 && Queue(s.requests, c.node, b) != [] then 12 else 3
    case Unlocking(_, _, _) => 2
    case Leaving(_, _, _) => 1
  }

  function ServerWork(pc: ServerPc): nat {
    match pc case Polling => 0 case Locked(_) => 1 case Got(_, _) => 4 case Done(_, _) => 3 case Sent(_) => 1
  }

  function Sum(xs: seq<nat>): nat { if xs == [] then 0 else Sum(xs[..|xs| - 1]) + xs[|xs| - 1] }

  lemma {:induction false} SumUpdate(xs: seq<nat>, i: nat, x: nat)
    requires i < |xs|
    ensures Sum(xs[i := x]) + xs[i] == Sum(xs) + x
  {
    var l := |xs| - 1;
    if i < l {
      SumUpdate(xs[..l], i, x);
      assert xs[i := x][..l] == xs[..l][i := x];
    } else {
      assert xs[i := x][..l] == xs[..l];
    }
  }

  lemma {:induction false} SumZero(xs: seq<nat>)
    requires Sum(xs) == 0
    ensures forall i | 0 <= i < |xs| :: xs[i] == 0
  {
    if xs != [] { SumZero(xs[..|xs| - 1]); }
  }

  function ClientWorks(space: Space, s: State): seq<nat>
    requires space.count > 0 && space.len > 0
  {
    seq(|s.clients|, t requires 0 <= t < |s.clients| => ClientWork(space, s, s.clients[t]))
  }

  function ServerWorks(s: State): seq<nat> {
    seq(|s.servers|, v requires 0 <= v < |s.servers| => ServerWork(s.servers[v].pc))
  }

  /** What clients and servers still have to do. */
  function Work(space: Space, s: State): nat
    requires space.count > 0 && space.len > 0
  {
    Sum(ClientWorks(space, s)) + Sum(ServerWorks(s))
  }

  predicate WorksFor(s: State, v: nat, b: int) { v < |s.servers| && s.servers[v].node == b }

  ghost predicate HasServer(s: State, b: int) { exists v: nat :: WorksFor(s, v, b) }

  predicate Remote(space: Space, c: Client)
    requires space.count > 0 && space.len > 0
  {
    HoldsClientLock(c.pc) ==> Target(space, c.pc.op) != c.node
  }

  /** Every node has a server thread, and clients that hold a lock are after another node. */
  ghost predicate Staffed(space: Space, s: State)
    requires space.count > 0 && space.len > 0
  {
    && (forall b | 0 <= b < space.count :: HasServer(s, b))
    && forall t | 0 <= t < |s.clients| :: Remote(space, s.clients[t])
  }

  lemma StaffedStep(space: Space, s: State, a: Action)
    requires space.Valid() && Enabled(space, s, a) && Staffed(space, s)
    ensures Staffed(space, Step(space, s, a))
  {
    var s' := Step(space, s, a);
    hide Target; hide Remote;
    forall t | 0 <= t < |s'.clients| ensures Remote(space, s'.clients[t]) {
      RemoteStep(space, s, a, t);
    }
    hide Step;
    forall b | 0 <= b < space.count ensures HasServer(s', b) {
      assert HasServer(s, b);
      var v: nat :| WorksFor(s, v, b);
      SameNode(space, s, a, v);
      assert WorksFor(s', v, b);
    }
  }

  lemma RemoteStep(space: Space, s: State, a: Action, t: nat)
    requires space.Valid() && Enabled(space, s, a) && Staffed(space, s) && t < |Step(space, s, a).clients|
    ensures t < |s.clients| && Remote(space, Step(space, s, a).clients[t])
  {
    hide Target; hide DoNext; hide DoServe; hide HasServer;
    assert t < |s.clients| ==> Remote(space, s.clients[t]);
    match a
    case Next(u) =>
      NextFrame(space, s, u);
      if u == t { RemoteNext(space, s, t); }
    case ServeNext(w, junk) => ServeFrame(s, w, junk);
    case _ =>
  }

  lemma RemoteNext(space: Space, s: State, t: nat)
    requires space.Valid() && Enabled(space, s, Next(t)) && Remote(space, s.clients[t])
    ensures Remote(space, DoNext(space, s, t).clients[t])
  {
    hide Target; hide RequestOf; hide ResultOf; hide Effect; hide ResultFrom; hide Queue;
    match s.clients[t].pc
    case Start(_, op) => if Target(space, op) == s.clients[t].node { } else { }
    case Sending(_, _) =>
    case Waiting(_, _) =>
    case Unlocking(_, _, _) =>
    case Leaving(_, _, _) =>
  }

  /** What a step of a client leaves alone. */
  lemma NextFrame(space: Space, s: State, t: nat)
    requires space.Valid() && Enabled(space, s, Next(t))
    ensures var s' := DoNext(space, s, t); s'.servers == s.servers && |s'.clients| == |s.clients| && s.history <= s'.history
    ensures forall u | 0 <= u < |s.clients| && u != t :: DoNext(space, s, t).clients[u] == s.clients[u]
    ensures var pc, now := s.clients[t].pc, DoNext(space, s, t).clients[t].pc;
      if pc.Leaving? then Res(pc.id, pc.result) in DoNext(space, s, t).history else !now.Idle? && now.id == pc.id
  {
    hide Target; hide RequestOf; hide ResultOf; hide Effect; hide ResultFrom; hide Queue;
    match s.clients[t].pc
    case Start(_, op) => if Target(space, op) == s.clients[t].node { } else { }
    case _ =>
  }

  /** What a step of a server leaves alone. */
  lemma ServeFrame(s: State, v: nat, junk: Value)
    requires v < |s.servers| && s.servers[v].node < |s.maps|
    ensures var s' := DoServe(s, v, junk);
      && |s'.servers| == |s.servers| && s'.servers == s.servers[v := s'.servers[v]] && s'.servers[v].node == s.servers[v].node
      && s'.clients == s.clients && s.history <= s'.history
  {
    hide ResponseTo; hide Applied; hide Queue;
    match s.servers[v].pc
    case Polling =>
    case Locked(a) => if Queue(s.requests, a, s.servers[v].node) == [] { } else { }
    case Got(_, _) =>
    case Done(_, _) =>
    case Sent(_) =>
  }

  lemma SameNode(space: Space, s: State, a: Action, v: nat)
    requires space.Valid() && Enabled(space, s, a) && v < |s.servers|
    ensures |Step(space, s, a).servers| == |s.servers| && Step(space, s, a).servers[v].node == s.servers[v].node
  {
    hide Target; hide DoNext; hide DoServe;
    match a
    case Next(t) => NextFrame(space, s, t);
    case ServeNext(w, junk) => ServeFrame(s, w, junk);
    case _ =>
  }

  // ---------- Steps that get on ----------

  /** Only a client that sends changes a request channel, and only the one to its target. */
  lemma NextRequests(space: Space, s: State, t: nat, a: nat, b: nat)
    requires space.Valid() && Enabled(space, s, Next(t))
    requires !(s.clients[t].pc.Sending? && s.clients[t].node == a && Target(space, s.clients[t].pc.op) == b)
    ensures Queue(DoNext(space, s, t).requests, a, b) == Queue(s.requests, a, b)
  {
    hide Target; hide RequestOf; hide ResultOf; hide Effect; hide ResultFrom;
  }

  lemma OtherClient(space: Space, s: State, s': State, lin: seq<LinPoint>, t: nat, u: nat)
    requires space.Valid() && LinInv(space, s, lin) && Enabled(space, s, Next(t)) && u < |s.clients| && u != t
    requires s' == DoNext(space, s, t)
    ensures ClientWork(space, s', s.clients[u]) == ClientWork(space, s, s.clients[u])
  {
    assert ClientOK(space, s, lin, t) && ClientOK(space, s, lin, u);
    hide LinInv; hide Target; hide DoNext; hide Queue; hide Fulfils; hide Answered;
    var c := s.clients[u];
    if c.pc.Waiting? && Target(space, c.pc.op) >= 0 {
      NextRequests(space, s, t, c.node, Target(space, c.pc.op));
    }
  }

  lemma OwnWork(space: Space, s: State, s': State, t: nat)
    requires space.Valid() && Enabled(space, s, Next(t)) && s' == DoNext(space, s, t) && t < |s'.clients|
    ensures ClientWork(space, s', s'.clients[t]) < ClientWork(space, s, s.clients[t])
  {
    hide Target; hide RequestOf; hide ResultOf; hide Effect; hide ResultFrom;
    match s.clients[t].pc
    case Start(_, op) => if Target(space, op) == s.clients[t].node { } else { }
    case Sending(_, _) =>
    case Waiting(_, _) =>
    case Unlocking(_, _, _) =>
    case Leaving(_, _, _) =>
  }

  /** A client's own step uses up work. */
  lemma NextGetsOn(space: Space, s: State, lin: seq<LinPoint>, t: nat)
    requires space.Valid() && LinInv(space, s, lin) && Enabled(space, s, Next(t))
    ensures Work(space, Step(space, s, Next(t))) < Work(space, s)
  {
    var s' := Step(space, s, Next(t));
    NextFrame(space, s, t);
    OwnWork(space, s, s', t);
    forall u | 0 <= u < |s.clients| && u != t
      ensures s'.clients[u] == s.clients[u] && ClientWork(space, s', s.clients[u]) == ClientWork(space, s, s.clients[u])
    {
      OtherClient(space, s, s', lin, t, u);
    }
    hide LinInv; hide ClientWork; hide Step;
    assert ClientWorks(space, s') == ClientWorks(space, s)[t := ClientWork(space, s', s'.clients[t])];
    SumUpdate(ClientWorks(space, s), t, ClientWork(space, s', s'.clients[t]));
    assert ServerWorks(s') == ServerWorks(s);
  }

  /** The server at work changes, and clients other than `t` have as much to do as before. */
  lemma ServerGetsOn(space: Space, s: State, s': State, v: nat, t: nat)
    requires space.count > 0 && space.len > 0 && v < |s.servers| && s'.clients == s.clients && t < |s.clients|
    requires |s'.servers| == |s.servers| && s'.servers == s.servers[v := s'.servers[v]]
    requires forall u | 0 <= u < |s.clients| && u != t :: ClientWork(space, s', s.clients[u]) == ClientWork(space, s, s.clients[u])
    ensures Work(space, s') - Work(space, s) == ServerWork(s'.servers[v].pc) - ServerWork(s.servers[v].pc)
      + ClientWork(space, s', s.clients[t]) - ClientWork(space, s, s.clients[t])
  {
    hide ClientWork; hide ServerWork;
    assert ClientWorks(space, s') == ClientWorks(space, s)[t := ClientWork(space, s', s.clients[t])];
    SumUpdate(ClientWorks(space, s), t, ClientWork(space, s', s.clients[t]));
    assert ServerWorks(s') == ServerWorks(s)[v := ServerWork(s'.servers[v].pc)];
    SumUpdate(ServerWorks(s), v, ServerWork(s'.servers[v].pc));
  }

  /** The client whose request a server takes has less left than the server has more; other clients have as much. */
  ghost predicate GetsOnFor(space: Space, s: State, s': State, v: nat, t: nat)
    requires space.count > 0 && space.len > 0 && v < |s.servers| && v < |s'.servers|
  {
    && t < |s.clients|
    && (forall u | 0 <= u < |s.clients| && u != t :: ClientWork(space, s', s.clients[u]) == ClientWork(space, s, s.clients[u]))
    && ServerWork(s'.servers[v].pc) + ClientWork(space, s', s.clients[t])
       < ServerWork(s.servers[v].pc) + ClientWork(space, s, s.clients[t])
  }

  lemma TakenFrom(space: Space, s: State, s': State, lin: seq<LinPoint>, v: nat, junk: Value) returns (t: nat)
    requires space.Valid() && LinInv(space, s, lin) && Enabled(space, s, ServeNext(v, junk))
    requires s' == DoServe(s, v, junk) && v < |s'.servers|
    requires s.servers[v].pc.Locked? && Queue(s.requests, s.servers[v].pc.from, s.servers[v].node) != []
    ensures GetsOnFor(space, s, s', v, t)
  {
    var pc, b := s.servers[v].pc, s.servers[v].node;
    hide Target; hide RequestOf; hide UnderWay; hide Fulfils;
    assert PairOK(space, s, lin, pc.from, b);
    t := s.clientLocks[(pc.from, b)];
    forall u | 0 <= u < |s.clients| && u != t ensures ClientWork(space, s', s.clients[u]) == ClientWork(space, s, s.clients[u]) {
      assert ClientOK(space, s, lin, u);
    }
  }

  /** The waiting client whose request server `v` takes, or any other if it takes none. */
  lemma WhoseRequest(space: Space, s: State, s': State, lin: seq<LinPoint>, v: nat, junk: Value, t0: nat) returns (t: nat)
    requires space.Valid() && LinInv(space, s, lin) && Enabled(space, s, ServeNext(v, junk)) && t0 < |s.clients|
    requires s' == DoServe(s, v, junk) && v < |s'.servers|
    ensures GetsOnFor(space, s, s', v, t)
  {
    hide Target; hide RequestOf; hide ResponseTo; hide Applied; hide LinInv;
    t := t0;
    var pc := s.servers[v].pc;
    if pc.Locked? && Queue(s.requests, pc.from, s.servers[v].node) != [] {
      t := TakenFrom(space, s, s', lin, v, junk);
    }
  }

  lemma ServeGetsOn(space: Space, s: State, lin: seq<LinPoint>, v: nat, junk: Value, t0: nat)
    requires space.Valid() && LinInv(space, s, lin) && Enabled(space, s, ServeNext(v, junk)) && t0 < |s.clients|
    ensures Work(space, Step(space, s, ServeNext(v, junk))) < Work(space, s)
  {
    var s' := Step(space, s, ServeNext(v, junk));
    ServeFrame(s, v, junk);
    var t := WhoseRequest(space, s, s', lin, v, junk, t0);
    hide LinInv; hide DoServe; hide ClientWork; hide Work;
    ServerGetsOn(space, s, s', v, t);
  }

  // ---------- Some step that gets on is possible ----------

  /** Two steps, of which the second may be missing. */
  ghost predicate GetsOn(space: Space, s: State, acts: seq<Action>)
    requires space.count > 0 && space.len > 0
  {
    && 1 <= |acts| <= 2 && Enabled(space, s, acts[0]) && !acts[0].Invoke?
    && var s1 := Step(space, s, acts[0]);
    if |acts| == 1 then Work(space, s1) < Work(space, s)
    else Enabled(space, s1, acts[1]) && !acts[1].Invoke? && Work(space, Step(space, s1, acts[1])) < Work(space, s)
  }

  lemma TargetIn(space: Space, s: State, lin: seq<LinPoint>, t: nat)
    requires space.Valid() && LinInv(space, s, lin) && t < |s.clients| && !s.clients[t].pc.Idle?
    ensures 0 <= Target(space, s.clients[t].pc.op) < |s.maps| == space.count && s.clients[t].node < space.count
  {
    assert ClientOK(space, s, lin, t);
    ToIdInRange(space, s.clients[t].pc.op.key);
  }

  /** A server of node `b` goes to look for requests of node `a`, one of which is there, and takes it. */
  lemma ServerLooks(space: Space, s: State, lin: seq<LinPoint>, v: nat, t: nat) returns (acts: seq<Action>)
    requires space.Valid() && LinInv(space, s, lin) && t < |s.clients| && s.clients[t].pc.Waiting?
    requires var c := s.clients[t]; var b := Target(space, c.pc.op);
      && b >= 0 && b != c.node && Queue(s.requests, c.node, b) != []
      && v < |s.servers| && s.servers[v].node == b && s.servers[v].pc.Polling? && (b as nat, c.node) !in s.serverLocks
    ensures GetsOn(space, s, acts)
  {
    var c := s.clients[t];
    TargetIn(space, s, lin, t);
    var a0, a1 := Serve(v, c.node), ServeNext(v, 0);
    var s1 := Step(space, s, a0);
    var lin1 := StepLin(space, s, a0, lin);
    hide LinInv; hide Target;
    TakesIt(space, s1, lin1, v, t);
    acts := [a0, a1];
    ServerGetsOn(space, s, s1, v, t);
  }

  /** The server that looks finds the request and takes it. */
  lemma TakesIt(space: Space, s: State, lin: seq<LinPoint>, v: nat, t: nat)
    requires space.Valid() && LinInv(space, s, lin) && t < |s.clients| && s.clients[t].pc.Waiting?
    requires var c := s.clients[t]; var b := Target(space, c.pc.op);
      && b >= 0 && Queue(s.requests, c.node, b) != []
      && v < |s.servers| && s.servers[v].node == b && s.servers[v].pc == Locked(c.node) && b < |s.maps|
    ensures Enabled(space, s, ServeNext(v, 0)) && Work(space, Step(space, s, ServeNext(v, 0))) + 1 < Work(space, s)
  {
    var c := s.clients[t];
    var b := Target(space, c.pc.op);
    var s' := Step(space, s, ServeNext(v, 0));
    assert PairOK(space, s, lin, c.node, b) && ClientOK(space, s, lin, t);
    hide Target; hide RequestOf;
    forall u | 0 <= u < |s.clients| && u != t ensures ClientWork(space, s', s.clients[u]) == ClientWork(space, s, s.clients[u]) {
      assert ClientOK(space, s, lin, u);
    }
    ServerGetsOn(space, s, s', v, t);
  }

  /** While a client waits, it or a server can get on. */
  lemma WaitingGetsOn(space: Space, s: State, lin: seq<LinPoint>, t: nat) returns (acts: seq<Action>)
    requires space.Valid() && LinInv(space, s, lin) && Staffed(space, s) && t < |s.clients| && s.clients[t].pc.Waiting?
    ensures GetsOn(space, s, acts)
  {
    var c := s.clients[t];
    TargetIn(space, s, lin, t);
    var b := Target(space, c.pc.op);
    assert Remote(space, c) && ClientOK(space, s, lin, t) && PairOK(space, s, lin, c.node, b);
    if Queue(s.responses, c.node, b) != [] {
      acts := [Next(t)];
      NextGetsOn(space, s, lin, t);
    } else if (b as nat, c.node) in s.serverLocks {
      var v := s.serverLocks[(b as nat, c.node)];
      acts := [ServeNext(v, 0)];
      ServeGetsOn(space, s, lin, v, 0, t);
    } else {
      assert HasServer(s, b);
      var v: nat :| WorksFor(s, v, b);
      if s.servers[v].pc.Polling? {
        acts := ServerLooks(space, s, lin, v, t);
      } else {
        acts := [ServeNext(v, 0)];
        ServeGetsOn(space, s, lin, v, 0, t);
      }
    }
  }

  /** While a client is inside an operation, some step that gets on is possible. */
  lemma SomebodyGetsOn(space: Space, s: State, lin: seq<LinPoint>, t: nat) returns (acts: seq<Action>)
    requires space.Valid() && LinInv(space, s, lin) && Staffed(space, s) && t < |s.clients| && !s.clients[t].pc.Idle?
    ensures GetsOn(space, s, acts)
  {
    TargetIn(space, s, lin, t);
    var c := s.clients[t];
    var b := Target(space, c.pc.op);
    hide Target;
    if c.pc.Waiting? {
      acts := WaitingGetsOn(space, s, lin, t);
    } else if c.pc.Start? && b != c.node && (c.node, b as nat) in s.clientLocks {
      assert PairOK(space, s, lin, c.node, b);
      var u := s.clientLocks[(c.node, b as nat)];
      if s.clients[u].pc.Waiting? {
        acts := WaitingGetsOn(space, s, lin, u);
      } else {
        acts := [Next(u)];
        NextGetsOn(space, s, lin, u);
      }
    } else {
      acts := [Next(t)];
      NextGetsOn(space, s, lin, t);
    }
  }

  // ---------- All operations can be finished ----------

  /** Steps that follow each other and begin no operation. */
  ghost predicate GoesOn(space: Space, r: seq<State>, acts: seq<Action>)
    requires space.count > 0 && space.len > 0
  {
    && |r| == |acts| + 1
    && forall i | 0 <= i < |acts| :: Enabled(space, r[i], acts[i]) && !acts[i].Invoke? && r[i + 1] == Step(space, r[i], acts[i])
  }

  predicate AllIdle(s: State) { forall t | 0 <= t < |s.clients| :: s.clients[t].pc.Idle? }

  lemma OneMoreStep(space: Space, s: State, a: Action, r: seq<State>, acts: seq<Action>)
    requires space.count > 0 && space.len > 0 && GoesOn(space, r, acts)
    requires Enabled(space, s, a) && !a.Invoke? && r[0] == Step(space, s, a)
    ensures GoesOn(space, [s] + r, [a] + acts)
  {
    hide Enabled; hide Step;
  }

  lemma {:induction false} FinishAll(space: Space, s: State, lin: seq<LinPoint>) returns (r: seq<State>, acts: seq<Action>)
    requires space.Valid() && LinInv(space, s, lin) && Staffed(space, s)
    ensures GoesOn(space, r, acts) && r[0] == s && AllIdle(r[|acts|])
    decreases Work(space, s)
  {
    hide LinInv; hide Staffed; hide Work; hide Enabled; hide Step;
    if t: nat :| t < |s.clients| && !s.clients[t].pc.Idle? {
      var now := SomebodyGetsOn(space, s, lin, t);
      var s1 := Step(space, s, now[0]);
      var lin1 := StepLin(space, s, now[0], lin);
      StaffedStep(space, s, now[0]);
      if |now| == 1 {
        r, acts := FinishAll(space, s1, lin1);
      } else {
        var s2 := Step(space, s1, now[1]);
        var lin2 := StepLin(space, s1, now[1], lin1);
        StaffedStep(space, s1, now[1]);
        r, acts := FinishAll(space, s2, lin2);
        OneMoreStep(space, s1, now[1], r, acts);
        r, acts := [s1] + r, [now[1]] + acts;
      }
      OneMoreStep(space, s, now[0], r, acts);
      r, acts := [s] + r, [now[0]] + acts;
    } else {
      r, acts := [s], [];
    }
  }

  ghost predicate HasResponse(s: State, id: nat) { exists x :: Res(id, x) in s.history }

  /** The operation is still under way, or has returned. */
  ghost predicate InsideOrAnswered(s: State, t: nat, id: nat)
    requires t < |s.clients|
  {
    (!s.clients[t].pc.Idle? && s.clients[t].pc.id == id) || HasResponse(s, id)
  }

  lemma InsideStep(space: Space, s: State, a: Action, t: nat, id: nat)
    requires space.Valid() && Enabled(space, s, a) && !a.Invoke? && t < |s.clients|
    requires InsideOrAnswered(s, t, id)
    ensures |Step(space, s, a).clients| == |s.clients| && InsideOrAnswered(Step(space, s, a), t, id)
  {
    hide Target; hide DoNext; hide DoServe;
    match a {
      case Next(u) => NextFrame(space, s, u);
      case ServeNext(w, junk) => ServeFrame(s, w, junk);
      case Serve(_, _) =>
    }
    var s' := Step(space, s, a);
    assert s.history <= s'.history;
    if HasResponse(s, id) {
      var x :| Res(id, x) in s.history;
      assert Res(id, x) in s'.history;
    } else if a == Next(t) && s.clients[t].pc.Leaving? {
      assert Res(id, s.clients[t].pc.result) in s'.history;
    }
  }

  lemma {:induction false} InsideToTheEnd(space: Space, r: seq<State>, acts: seq<Action>, i: nat, t: nat, id: nat)
    requires space.Valid() && GoesOn(space, r, acts) && i < |r| && t < |r[0].clients|
    requires InsideOrAnswered(r[0], t, id)
    ensures |r[i].clients| == |r[0].clients| && InsideOrAnswered(r[i], t, id)
  {
    hide Enabled; hide Step; hide InsideOrAnswered;
    if i > 0 {
      InsideToTheEnd(space, r, acts, i - 1, t, id);
      InsideStep(space, r[i - 1], acts[i - 1], t, id);
    }
  }

  /** Whatever has happened in a run, there is a way to go on, without new operations, in which every operation that is
      under way returns, provided that every node has a server thread. */
  lemma EveryRequestAnswered(space: Space, r: seq<State>, acts: seq<Action>) returns (r': seq<State>, acts': seq<Action>)
    requires space.Valid() && IsRun(space, r, acts) && forall b | 0 <= b < space.count :: HasServer(r[0], b)
    ensures IsRun(space, r', acts') && r <= r' && acts <= acts' && forall i | |acts| <= i < |acts'| :: !acts'[i].Invoke?
    ensures AllIdle(r'[|acts'|])
    ensures forall t | 0 <= t < |r[|acts|].clients| && !r[|acts|].clients[t].pc.Idle? ::
      HasResponse(r'[|acts'|], r[|acts|].clients[t].pc.id)
  {
    var s := r[|acts|];
    var lin := RunLin(space, r, acts, |acts|);
    RunStaffed(space, r, acts, |acts|);
    var r1, acts1 := FinishAll(space, s, lin);
    forall t | 0 <= t < |s.clients| && !s.clients[t].pc.Idle? ensures HasResponse(r1[|acts1|], s.clients[t].pc.id) {
      InsideToTheEnd(space, r1, acts1, |acts1|, t, s.clients[t].pc.id);
    }
    hide Enabled; hide Step; hide LinInv; hide Staffed; hide HasResponse; hide Init; hide HasServer;
    r', acts' := r + r1[1..], acts + acts1;
    assert r'[0] == r[0] && r'[|acts'|] == r1[|acts1|];
    forall i | 0 <= i < |acts'|
      ensures Enabled(space, r'[i], acts'[i]) && r'[i + 1] == Step(space, r'[i], acts'[i])
      ensures i >= |acts| ==> !acts'[i].Invoke?
    {
      if i >= |acts| { assert acts'[i] == acts1[i - |acts|] && r'[i] == r1[i - |acts|] && r'[i + 1] == r1[i - |acts| + 1]; }
    }
  }

  lemma {:induction false} RunStaffed(space: Space, r: seq<State>, acts: seq<Action>, i: nat)
    requires space.Valid() && IsRun(space, r, acts) && i < |r| && forall b | 0 <= b < space.count :: HasServer(r[0], b)
    ensures Staffed(space, r[i])
  {
    hide Enabled; hide Step;
    if i > 0 {
      hide Staffed; hide Init; hide HasServer;
      RunStaffed(space, r, acts, i - 1);
      StaffedStep(space, r[i - 1], acts[i - 1]);
    }
  }
}
