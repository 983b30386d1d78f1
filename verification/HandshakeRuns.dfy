/** What holds in every run of the handshake: matching connections, answers to every request, and a full mesh. */
module HandshakeRuns {
  import opened Handshake

  lemma {:induction false} RunInv(peers: Peers, t: seq<State>, acts: seq<Action>, i: nat)
    requires AllToAll(peers) && IsRun(peers, t, acts) && Inv(peers, t[0]) && i < |t|
    ensures Inv(peers, t[i])
  {
    if i > 0 {
      RunInv(peers, t, acts, i - 1);
      StepInv(peers, t[i - 1], acts[i - 1]);
    }
  }

  // ---------- Safety ----------

  /** In every reachable state two nodes share at most one connection: both entries name the same one, or only the
      acceptor has it and the initiator still awaits its ESTABLISHED event. */
  lemma OneConnectionPerPair(peers: Peers, t: seq<State>, acts: seq<Action>, i: nat, a: nat, b: nat)
    requires AllToAll(peers) && IsRun(peers, t, acts) && Init(peers, t[0]) && i < |t|
    requires a < |peers| && b < |peers| && a in t[i].nodes[b].established
    ensures a != b
    ensures if b in t[i].nodes[a].established then t[i].nodes[a].established[b] == t[i].nodes[b].established[a]
      else Awaits(peers, t[i], a, b, t[i].nodes[b].established[a])
  {
    InitInv(peers, t[0]);
    RunInv(peers, t, acts, i);
    assert EntryOK(peers, t[i], b, a);
  }

  /** Neither `emplace` ever finds an entry: a handler that holds the lock meets a new peer, and so does a loop whose
      connection is established. The branches for an existing entry are dead. */
  lemma EmplaceSucceeds(peers: Peers, t: seq<State>, acts: seq<Action>, i: nat, n: nat)
    requires AllToAll(peers) && IsRun(peers, t, acts) && Init(peers, t[0]) && i < |t| && n < |peers|
    ensures t[i].nodes[n].handler.Deciding? ==> t[i].nodes[n].handler.peer !in t[i].nodes[n].established
    ensures t[i].nodes[n].loop.Waiting? ==>
      t[i].nodes[n].loop.i < |peers[n]| && peers[n][t[i].nodes[n].loop.i] !in t[i].nodes[n].established
  {
    InitInv(peers, t[0]);
    RunInv(peers, t, acts, i);
    if t[i].nodes[n].handler.Deciding? { NewPeer(peers, t[i], n); }
    assert LoopOK(peers[n], t[i].nodes[n]);
  }

  ghost predicate Finished(peers: Peers, s: State) {
    |s.nodes| == |peers| && forall n | 0 <= n < |peers| :: s.nodes[n].loop == Ready(|peers[n]|)
  }

  /** When every loop has finished, the tables form a full symmetric mesh. */
  lemma FinishedMesh(peers: Peers, s: State, a: nat, b: nat)
    requires Inv(peers, s) && Finished(peers, s) && a < |peers| && b < |peers| && a != b
    ensures a in s.nodes[b].established && b in s.nodes[a].established
    ensures s.nodes[a].established[b] == s.nodes[b].established[a]
  {
    assert a in peers[b] && LoopOK(peers[b], s.nodes[b]);
    assert EntryOK(peers, s, b, a);
  }

  /** From then on no step changes a table: `GetConnection` keeps finding the same connections. */
  lemma MeshStays(peers: Peers, s: State, a: Action, n: nat)
    requires Inv(peers, s) && Finished(peers, s) && Enabled(peers, s, a) && n < |peers|
    ensures Finished(peers, Step(peers, s, a))
    ensures Step(peers, s, a).nodes[n].established == s.nodes[n].established
  {
    hide Inv;
    LoopsAtRest(peers, s, a);
    hide Finished; hide Step;
    if a.Decide? { NobodyDecides(peers, s, a.n); }
    hide Enabled;
    TablesStay(peers, s, a);
  }

  lemma LoopsAtRest(peers: Peers, s: State, a: Action)
    requires Finished(peers, s) && Enabled(peers, s, a)
    ensures !a.Begin? && !a.Check? && !a.Answer?
  {}

  /** Whoever asks in a finished mesh is known already, so nobody asks. */
  lemma NobodyDecides(peers: Peers, s: State, n: nat)
    requires Inv(peers, s) && Finished(peers, s) && n < |peers|
    ensures !s.nodes[n].handler.Deciding?
  {
    NobodyAwaits(peers, s);
    if s.nodes[n].handler.Deciding? { NewPeer(peers, s, n); }
  }

  lemma TablesStay(peers: Peers, s: State, a: Action)
    requires Finished(peers, s) && Enabled(peers, s, a) && !a.Begin? && !a.Check? && !a.Answer?
    requires a.Decide? ==> !s.nodes[a.n].handler.Deciding?
    ensures Finished(peers, Step(peers, s, a))
    ensures forall n | 0 <= n < |peers| :: Step(peers, s, a).nodes[n].established == s.nodes[n].established
  {}

  lemma NobodyAwaits(peers: Peers, s: State)
    requires Finished(peers, s)
    ensures forall m: nat, b: nat, c {:trigger Awaits(peers, s, m, b, c)} :: !Awaits(peers, s, m, b, c)
  {}

  /** The waiting time after a rejection only grows, up to its limit. */
  lemma {:induction false} BackoffGrows(peers: Peers, t: seq<State>, acts: seq<Action>, i: nat, j: nat, n: nat)
    requires IsRun(peers, t, acts) && Init(peers, t[0]) && i <= j < |t| && n < |peers|
    ensures t[i].nodes[n].backoff <= t[j].nodes[n].backoff <= MAX_BACKOFF
    ensures t[j].nodes[n].backoff == 0 || MIN_BACKOFF <= t[j].nodes[n].backoff
    decreases j
  {
    if j > 0 {
      BackoffGrows(peers, t, acts, if i < j then i else j - 1, j - 1, n);
      BackoffStep(peers, t[j - 1], acts[j - 1], n);
    }
  }

  lemma BackoffStep(peers: Peers, s: State, a: Action, n: nat)
    requires Enabled(peers, s, a) && n < |peers| && s.nodes[n].backoff <= MAX_BACKOFF
    requires s.nodes[n].backoff == 0 || MIN_BACKOFF <= s.nodes[n].backoff
    ensures var was, now := s.nodes[n].backoff, Step(peers, s, a).nodes[n].backoff;
      was <= now <= MAX_BACKOFF && (now == was || now >= MIN_BACKOFF)
  {}

  /** How often the requests of node `n` have been rejected before step `i`. */
  ghost function Rejections(t: seq<State>, acts: seq<Action>, i: nat, n: nat): nat
    requires i <= |acts|
  {
    if i == 0 then 0
    else
      var more := if Rejected(acts[i - 1], n) then 1 else 0;
      Rejections(t, acts, i - 1, n) + more
  }

  predicate Rejected(a: Action, n: nat) { a.Answer? && a.reply.to == n && !a.reply.accepted }

  function Doubled(k: nat, x: nat): nat { if k == 0 then x else 2 * Doubled(k - 1, x) }

  lemma {:induction false} DoubledGrows(k: nat, x: nat)
    ensures Doubled(k, x) >= x
  {
    if k > 0 { DoubledGrows(k - 1, x); }
  }

  /** After `k` rejections a node waits 100 microseconds, doubled each time after 100 for each unit of its identifier
      were added, up to five seconds: in closed form, `2^(k-1) (100 + 200 n) - 200 n`. */
  lemma {:induction false} BackoffIs(peers: Peers, t: seq<State>, acts: seq<Action>, i: nat, n: nat)
    requires IsRun(peers, t, acts) && Init(peers, t[0]) && i < |t| && n < |peers|
    ensures var k := Rejections(t, acts, i, n);
      t[i].nodes[n].backoff ==
        if k == 0 then 0
        else if Doubled(k - 1, 100 + 200 * n) - 200 * n < 5000000 then Doubled(k - 1, 100 + 200 * n) - 200 * n
        else 5000000
  {
    hide Step; hide Enabled;
    if i > 0 {
      BackoffIs(peers, t, acts, i - 1, n);
      BackoffMoves(peers, t[i - 1], acts[i - 1], n);
      var k := Rejections(t, acts, i - 1, n);
      if k > 0 { DoubledGrows(k - 1, 100 + 200 * n); }
    }
  }

  lemma BackoffMoves(peers: Peers, s: State, a: Action, n: nat)
    requires Enabled(peers, s, a) && n < |peers|
    ensures var was, now := s.nodes[n].backoff, Step(peers, s, a).nodes[n].backoff;
      if Rejected(a, n) then
        now == if was == 0 then 100 else if (was + 100 * n) * 2 < 5000000 then (was + 100 * n) * 2 else 5000000
      else now == was
  {}

  // ---------- Every request is answered ----------

  function LoopWeight(l: Loop): nat { if l.Checking? then 9 else if l.Waiting? then 1 else 0 }

  function HandlerWeight(h: Handler): nat {
    match h
    case Quiet => 0
    case Acquiring(_, _) => 6
    case Deciding(_, _) => 5
    case Accepting(_, _) => 4
    case Releasing => 1
  }

  function Weight(n: Node): nat { LoopWeight(n.loop) + HandlerWeight(n.handler) + if n.looking then 1 else 0 }

  ghost function Weights(nodes: seq<Node>): nat {
    if nodes == [] then 0 else Weights(nodes[..|nodes| - 1]) + Weight(nodes[|nodes| - 1])
  }

  lemma {:induction false} WeightsUpdate(nodes: seq<Node>, n: nat, node: Node)
    requires n < |nodes|
    ensures Weights(nodes[n := node]) + Weight(nodes[n]) == Weights(nodes) + Weight(node)
  {
    var l := |nodes| - 1;
    if n < l {
      WeightsUpdate(nodes[..l], n, node);
      assert nodes[n := node][..l] == nodes[..l][n := node];
    } else {
      assert nodes[n := node][..l] == nodes[..l];
    }
  }

  /** The work left in the attempts that are under way. */
  ghost function Work(s: State): nat { Weights(s.nodes) + 7 * |s.requests| + |s.replies| }

  /** The node that a step changes. */
  function Actor(a: Action): nat {
    match a
    case Begin(n) => n
    case Check(n) => n
    case Receive(r) => r.to
    case TryLock(n) => n
    case Decide(n) => n
    case Accept(n) => n
    case Release(n) => n
    case Answer(r) => r.to
    case Look(n) => n
    case Looked(n) => n
  }

  /** A connect loop turns to its next peer, or a thread asks for a connection. */
  predicate Starts(a: Action) { a.Begin? || a.Look? }

  /** A step changes one node, and takes more from it and from the channels than it adds. */
  ghost predicate Takes(s: State, s': State, n: nat) {
    && n < |s.nodes| && |s'.nodes| == |s.nodes| && s'.nodes == s.nodes[n := s'.nodes[n]]
    && Weight(s'.nodes[n]) + 7 * |s'.requests| + |s'.replies| < Weight(s.nodes[n]) + 7 * |s.requests| + |s.replies|
  }

  lemma LoopTakes(peers: Peers, s: State, a: Action)
    requires Inv(peers, s) && Enabled(peers, s, a) && (a.Check? || a.Answer? || a.Looked?)
    ensures Takes(s, Step(peers, s, a), Actor(a))
  {
    hide Inv;
  }

  lemma LockTakes(peers: Peers, s: State, a: Action)
    requires Enabled(peers, s, a) && (a.Receive? || a.TryLock?)
    ensures Takes(s, Step(peers, s, a), Actor(a))
  {}

  lemma DecideTakes(peers: Peers, s: State, n: nat)
    requires Enabled(peers, s, Decide(n))
    ensures Takes(s, Step(peers, s, Decide(n)), n)
  {
    OneReplyMore(s.replies, Reply(n, s.nodes[n].handler.peer, s.nodes[n].handler.conn, false));
  }

  lemma AcceptTakes(peers: Peers, s: State, n: nat)
    requires Enabled(peers, s, Accept(n))
    ensures Takes(s, Step(peers, s, Accept(n)), n)
  {
    OneReplyMore(s.replies, Reply(n, s.nodes[n].handler.peer, s.nodes[n].handler.conn, true));
  }

  lemma OneReplyMore(replies: set<Reply>, r: Reply)
    ensures |replies + {r}| <= |replies| + 1
  {
    if r in replies { assert replies + {r} == replies; }
  }

  lemma ReleaseTakes(peers: Peers, s: State, n: nat)
    requires Enabled(peers, s, Release(n))
    ensures Takes(s, Step(peers, s, Release(n)), n)
  {}

  lemma StepTakes(peers: Peers, s: State, a: Action)
    requires Inv(peers, s) && Enabled(peers, s, a) && !Starts(a)
    ensures Takes(s, Step(peers, s, a), Actor(a))
  {
    hide Inv; hide Takes; hide Step; hide Enabled;
    if a.Check? || a.Answer? || a.Looked? { LoopTakes(peers, s, a); }
    else if a.Receive? || a.TryLock? { LockTakes(peers, s, a); }
    else if a.Decide? { DecideTakes(peers, s, a.n); }
    else if a.Accept? { AcceptTakes(peers, s, a.n); }
    else { ReleaseTakes(peers, s, a.n); }
  }

  /** Every step except the start of a new attempt or lookup uses up work: none goes on forever. */
  lemma StepsUseWork(peers: Peers, s: State, a: Action)
    requires Inv(peers, s) && Enabled(peers, s, a) && !Starts(a)
    ensures Work(Step(peers, s, a)) < Work(s)
  {
    StepTakes(peers, s, a);
    hide Inv; hide Weights; hide Weight; hide Step; hide Enabled; hide Actor;
    WeightsUpdate(s.nodes, Actor(a), Step(peers, s, a).nodes[Actor(a)]);
  }

  /** Nothing is under way: no message, no handler at work, no lock held. */
  ghost predicate Still(peers: Peers, s: State) {
    && |s.nodes| == |peers| && s.requests == {} && s.replies == {}
    && forall n | 0 <= n < |peers| ::
         s.nodes[n].handler.Quiet? && s.nodes[n].mu.Free? && s.nodes[n].loop.Ready? && !s.nodes[n].looking
  }

  /** A handler never waits for its own node's `Connect`, so as long as anything is under way some step is possible. */
  lemma Progress(peers: Peers, s: State) returns (a: Action)
    requires Inv(peers, s) && !Still(peers, s)
    ensures Enabled(peers, s, a) && !Starts(a)
  {
    if n :| 0 <= n < |peers| && !s.nodes[n].handler.Quiet? {
      assert LockOK(s.nodes[n]);
      match s.nodes[n].handler
      case Acquiring(_, _) => a := TryLock(n);
      case Deciding(_, _) => a := Decide(n);
      case Accepting(_, _) => a := Accept(n);
      case Releasing => a := Release(n);
    } else if r :| r in s.requests {
      assert Awaits(peers, s, r.from, r.to, r.conn);
      a := Receive(r);
    } else if r :| r in s.replies {
      a := Answer(r);
    } else if n :| 0 <= n < |peers| && s.nodes[n].looking {
      a := Looked(n);
    } else {
      a := LoopProgress(peers, s);
    }
  }

  lemma LoopProgress(peers: Peers, s: State) returns (a: Action)
    requires Inv(peers, s) && !Still(peers, s) && s.requests == {} && s.replies == {}
    requires forall n | 0 <= n < |peers| :: s.nodes[n].handler.Quiet? && !s.nodes[n].looking
    ensures Enabled(peers, s, a) && !Starts(a)
  {
    assert forall n | 0 <= n < |peers| :: LockOK(s.nodes[n]);
    var n :| 0 <= n < |peers| && !s.nodes[n].loop.Ready?;
    NobodyWaits(peers, s, n);
    assert LoopOK(peers[n], s.nodes[n]);
    a := Check(n);
  }

  lemma NobodyWaits(peers: Peers, s: State, n: nat)
    requires Inv(peers, s) && n < |peers| && s.requests == {} && s.replies == {}
    requires forall n | 0 <= n < |peers| :: s.nodes[n].handler.Quiet?
    ensures !s.nodes[n].loop.Waiting?
  {
    assert LoopOK(peers[n], s.nodes[n]);
    forall a, b: nat, c ensures !Awaits(peers, s, a, b, c) {}
    hide Inv;
    assert s.nodes[n].loop.Waiting? ==> Awaits(peers, s, n, peers[n][s.nodes[n].loop.i], s.nodes[n].loop.conn);
  }

  /** No deadlock: in every reachable state every loop has finished and nothing is under way, or some step is possible. */
  lemma NeverDeadlocked(peers: Peers, t: seq<State>, acts: seq<Action>, i: nat)
    requires AllToAll(peers) && IsRun(peers, t, acts) && Init(peers, t[0]) && i < |t|
    ensures (Finished(peers, t[i]) && Still(peers, t[i])) || exists a :: Enabled(peers, t[i], a)
  {
    InitInv(peers, t[0]);
    RunInv(peers, t, acts, i);
    if !Still(peers, t[i]) {
      var a := Progress(peers, t[i]);
    } else if n :| 0 <= n < |peers| && t[i].nodes[n].loop != Ready(|peers[n]|) {
      assert LoopOK(peers[n], t[i].nodes[n]);
      assert Enabled(peers, t[i], Begin(n));
    }
  }

  // ---------- The mesh can always be completed ----------

  /** What the loops still have to pass. */
  ghost function Left(peers: Peers, s: State): set<(nat, nat)>
    requires |s.nodes| == |peers|
  {
    set n: nat, j: nat | n < |peers| && j < |peers[n]| && s.nodes[n].loop.i <= j :: (n, j)
  }

  lemma LeftShrinks(peers: Peers, s: State, a: Action)
    requires Inv(peers, s) && Enabled(peers, s, a)
    ensures Left(peers, Step(peers, s, a)) <= Left(peers, s)
  {}

  lemma RunExtend(peers: Peers, t: seq<State>, acts: seq<Action>, a: Action)
    requires IsRun(peers, t, acts) && Enabled(peers, t[|acts|], a)
    ensures IsRun(peers, t + [Step(peers, t[|acts|], a)], acts + [a])
  {}

  lemma Extend(peers: Peers, t: seq<State>, acts: seq<Action>, a: Action) returns (t': seq<State>, acts': seq<Action>)
    requires IsRun(peers, t, acts) && Inv(peers, t[|acts|]) && Enabled(peers, t[|acts|], a)
    ensures acts' == acts + [a] && t' == t + [Step(peers, t[|acts|], a)]
    ensures IsRun(peers, t', acts') && t'[0] == t[0] && t'[|acts'|] == Step(peers, t[|acts|], a)
    ensures Inv(peers, t'[|acts'|]) && Left(peers, t'[|acts'|]) <= Left(peers, t[|acts|])
  {
    StepInv(peers, t[|acts|], a);
    LeftShrinks(peers, t[|acts|], a);
    acts', t' := acts + [a], t + [Step(peers, t[|acts|], a)];
    RunExtend(peers, t, acts, a);
  }

  /** From any state, the attempts under way come to rest. */
  lemma {:induction false} Settle(peers: Peers, t: seq<State>, acts: seq<Action>) returns (t': seq<State>, acts': seq<Action>)
    requires IsRun(peers, t, acts) && Inv(peers, t[|acts|])
    ensures IsRun(peers, t', acts') && t'[0] == t[0] && Inv(peers, t'[|acts'|]) && Still(peers, t'[|acts'|])
    ensures Left(peers, t'[|acts'|]) <= Left(peers, t[|acts|])
    decreases Work(t[|acts|])
  {
    hide Inv; hide Still; hide Left; hide Work; hide Step; hide Enabled;
    if Still(peers, t[|acts|]) {
      t', acts' := t, acts;
    } else {
      var a := Progress(peers, t[|acts|]);
      StepsUseWork(peers, t[|acts|], a);
      t', acts' := Extend(peers, t, acts, a);
      t', acts' := Settle(peers, t', acts');
    }
  }

  /** The handler takes a request and gets its lock. */
  lemma Admit(peers: Peers, t: seq<State>, acts: seq<Action>, n: nat, b: nat, c: nat) returns (t': seq<State>, acts': seq<Action>)
    requires IsRun(peers, t, acts) && Inv(peers, t[|acts|]) && Awaits(peers, t[|acts|], n, b, c) && b != n
    requires b < |peers| && Request(n, b, c) in t[|acts|].requests
    requires t[|acts|].nodes[b].handler.Quiet? && t[|acts|].nodes[b].mu.Free?
    ensures IsRun(peers, t', acts') && t'[0] == t[0] && Inv(peers, t'[|acts'|])
    ensures Left(peers, t'[|acts'|]) <= Left(peers, t[|acts|])
    ensures |t'[|acts'|].nodes| == |peers|
    ensures t'[|acts'|].nodes[b].handler == Deciding(n, c) && t'[|acts'|].nodes[n] == t[|acts|].nodes[n]
  {
    assert |t[|acts|].nodes| == |peers|;
    hide Inv; hide IsRun; hide Left;
    t', acts' := Extend(peers, t, acts, Receive(Request(n, b, c)));
    t', acts' := Extend(peers, t', acts', TryLock(b));
  }

  /** The undisturbed end of an attempt: request, lock, entry, acceptance, unlock, event. */
  lemma Connect(peers: Peers, t: seq<State>, acts: seq<Action>, n: nat, b: nat, c: nat) returns (t': seq<State>, acts': seq<Action>)
    requires IsRun(peers, t, acts) && Inv(peers, t[|acts|]) && Awaits(peers, t[|acts|], n, b, c)
    requires b < |peers| && Request(n, b, c) in t[|acts|].requests
    requires t[|acts|].nodes[b].handler.Quiet? && t[|acts|].nodes[b].mu.Free?
    ensures IsRun(peers, t', acts') && t'[0] == t[0] && Inv(peers, t'[|acts'|])
    ensures Left(peers, t'[|acts'|]) <= Left(peers, t[|acts|])
    ensures t'[|acts'|].nodes[n].loop == Ready(t[|acts|].nodes[n].loop.i + 1)
  {
    assert b != n by { assert OnePlace(t[|acts|], n, b, c); }
    hide Inv; hide IsRun; hide Left;
    t', acts' := Admit(peers, t, acts, n, b, c);
    NewPeer(peers, t'[|acts'|], b);
    t', acts' := Extend(peers, t', acts', Decide(b));
    t', acts' := Extend(peers, t', acts', Accept(b));
    t', acts' := Extend(peers, t', acts', Answer(Reply(b, n, c, true)));
    t', acts' := Extend(peers, t', acts', Release(b));
  }

  /** From rest, one more peer is passed: found in the table, or connected. */
  lemma Pass(peers: Peers, t: seq<State>, acts: seq<Action>, n: nat) returns (t': seq<State>, acts': seq<Action>)
    requires IsRun(peers, t, acts) && Inv(peers, t[|acts|]) && Still(peers, t[|acts|])
    requires n < |peers| && t[|acts|].nodes[n].loop != Ready(|peers[n]|)
    ensures IsRun(peers, t', acts') && t'[0] == t[0] && Inv(peers, t'[|acts'|])
    ensures Left(peers, t'[|acts'|]) < Left(peers, t[|acts|])
  {
    var s := t[|acts|];
    assert LoopOK(peers[n], s.nodes[n]);
    var i := s.nodes[n].loop.i;
    hide Inv; hide IsRun; hide Left;
    t', acts' := Extend(peers, t, acts, Begin(n));
    t', acts' := Extend(peers, t', acts', Check(n));
    if peers[n][i] !in s.nodes[n].established {
      t', acts' := Connect(peers, t', acts', n, peers[n][i], s.next);
    }
    Passed(peers, s, t'[|acts'|], n, i);
  }

  lemma Passed(peers: Peers, s: State, s': State, n: nat, i: nat)
    requires |s.nodes| == |peers| == |s'.nodes| && Left(peers, s') <= Left(peers, s)
    requires n < |peers| && i < |peers[n]| && s.nodes[n].loop.i == i && s'.nodes[n].loop.i == i + 1
    ensures Left(peers, s') < Left(peers, s)
  {
    assert (n, i) in Left(peers, s) && (n, i) !in Left(peers, s');
  }

  /** From every reachable state some run completes the mesh. */
  lemma {:induction false} MeshReachable(peers: Peers, t: seq<State>, acts: seq<Action>) returns (t': seq<State>, acts': seq<Action>)
    requires IsRun(peers, t, acts) && Inv(peers, t[|acts|])
    ensures IsRun(peers, t', acts') && t'[0] == t[0] && Inv(peers, t'[|acts'|]) && Finished(peers, t'[|acts'|])
    decreases Left(peers, t[|acts|])
  {
    hide Inv; hide Left;
    t', acts' := Settle(peers, t, acts);
    if n :| 0 <= n < |peers| && t'[|acts'|].nodes[n].loop != Ready(|peers[n]|) {
      t', acts' := Pass(peers, t', acts', n);
      t', acts' := MeshReachable(peers, t', acts');
    }
  }

  /** Whatever has happened so far, the handshake can still end in a full symmetric mesh. */
  lemma MeshAlwaysPossible(peers: Peers, t: seq<State>, acts: seq<Action>)
    requires AllToAll(peers) && IsRun(peers, t, acts) && Init(peers, t[0])
    ensures exists t', acts' :: IsRun(peers, t', acts') && t'[0] == t[|acts|] && Finished(peers, t'[|acts'|])
  {
    InitInv(peers, t[0]);
    RunInv(peers, t, acts, |acts|);
    var t', acts' := MeshReachable(peers, [t[|acts|]], []);
  }
}
