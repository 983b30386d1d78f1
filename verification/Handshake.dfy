/** The all-to-all connection handshake. Every node runs one loop that connects to its peers in turn, holding its
    own lock from before it looks at its table until the answer is in, and one handler for incoming requests that
    gives up as soon as it sees that the loop of its own node holds the lock. `Inv` says what holds between two steps,
    and `StepInv` that every step keeps it.
 */
module Handshake {
  /** `mu_`: free, held by the node's own outgoing `Connect` or `GetConnection`, or by the handler of a peer's request. */
  datatype Holder = Free | Own | Peer(id: nat)

  /** The connect loop: at peer `i`; holding the lock and about to look; or waiting for an event of connection `conn`. */
  datatype Loop = Ready(i: nat) | Checking(i: nat) | Waiting(i: nat, conn: nat)

  datatype Handler =
    | Quiet
    | Acquiring(peer: nat, conn: nat)
    | Deciding(peer: nat, conn: nat)
    | Accepting(peer: nat, conn: nat)
    | Releasing

  /** `established` maps a peer to the connection shared with it; `looking` while `GetConnection` reads it. */
  datatype Node = Node(mu: Holder, established: map<nat, nat>, loop: Loop, handler: Handler, backoff: nat, looking: bool)

  datatype Request = Request(from: nat, to: nat, conn: nat)
  datatype Reply = Reply(from: nat, to: nat, conn: nat, accepted: bool)

  datatype State = State(nodes: seq<Node>, requests: set<Request>, replies: set<Reply>, next: nat)

  /** The peers that each node connects to, in order. */
  type Peers = seq<seq<nat>>

  ghost predicate AllToAll(peers: Peers) {
    && (forall n, i | 0 <= n < |peers| && 0 <= i < |peers[n]| :: peers[n][i] < |peers| && peers[n][i] != n)
    && (forall n, p: nat {:trigger p in peers[n]} | 0 <= n < |peers| && p < |peers| && p != n :: p in peers[n])
  }

  const MIN_BACKOFF: nat := 100
  const MAX_BACKOFF: nat := 5000000

  function NextBackoff(backoff: nat, id: nat): nat {
    if backoff == 0 then MIN_BACKOFF
    else if (backoff + 100 * id) * 2 < MAX_BACKOFF then (backoff + 100 * id) * 2 else MAX_BACKOFF
  }

  datatype Action =
    | Begin(n: nat)
    | Check(n: nat)
    | Receive(request: Request)
    | TryLock(n: nat)
    | Decide(n: nat)
    | Accept(n: nat)
    | Release(n: nat)
    | Answer(reply: Reply)
    | Look(n: nat)
    | Looked(n: nat)

  /** Node `a` waits for an answer of `b` about connection `c`. */
  predicate Awaits(peers: Peers, s: State, a: nat, b: nat, c: nat)
    requires |s.nodes| == |peers|
  {
    && a < |peers| && s.nodes[a].loop.Waiting? && s.nodes[a].loop.i < |peers[a]|
    && peers[a][s.nodes[a].loop.i] == b && s.nodes[a].loop.conn == c
  }

  predicate Enabled(peers: Peers, s: State, a: Action) {
    |s.nodes| == |peers| &&
    match a
    case Begin(n) => n < |peers| && s.nodes[n].loop.Ready? && s.nodes[n].loop.i < |peers[n]| && s.nodes[n].mu == Free
    case Check(n) => n < |peers| && s.nodes[n].loop.Checking? && s.nodes[n].loop.i < |peers[n]|
    case Receive(r) => r in s.requests && r.to < |peers| && s.nodes[r.to].handler.Quiet?
    case TryLock(n) => n < |peers| && s.nodes[n].handler.Acquiring? && !s.nodes[n].mu.Peer?
    case Decide(n) => n < |peers| && s.nodes[n].handler.Deciding?
    case Accept(n) => n < |peers| && s.nodes[n].handler.Accepting?
    case Release(n) => n < |peers| && s.nodes[n].handler.Releasing?
    case Answer(r) => r in s.replies && Awaits(peers, s, r.to, r.from, r.conn)
    case Look(n) => n < |peers| && s.nodes[n].mu == Free
    case Looked(n) => n < |peers| && s.nodes[n].looking
  }

  function SetNode(s: State, n: nat, node: Node): State
    requires n < |s.nodes|
  {
    s.(nodes := s.nodes[n := node])
  }

  function DoCheck(peers: Peers, s: State, n: nat): State
    requires Enabled(peers, s, Check(n))
  {
    var node := s.nodes[n];
    var i := node.loop.i;
    if peers[n][i] in node.established then SetNode(s, n, node.(mu := Free, loop := Ready(i + 1)))
    else SetNode(s, n, node.(loop := Waiting(i, s.next)))
           .(requests := s.requests + {Request(n, peers[n][i], s.next)}, next := s.next + 1)
  }

  function DoTryLock(peers: Peers, s: State, n: nat): State
    requires Enabled(peers, s, TryLock(n))
  {
    var node := s.nodes[n];
    var h := node.handler;
    if node.mu.Own? then SetNode(s, n, node.(handler := Quiet)).(replies := s.replies + {Reply(n, h.peer, h.conn, false)})
    else SetNode(s, n, node.(mu := Peer(h.peer), handler := Deciding(h.peer, h.conn)))
  }

  function DoDecide(peers: Peers, s: State, n: nat): State
    requires Enabled(peers, s, Decide(n))
  {
    var node := s.nodes[n];
    var h := node.handler;
    if h.peer in node.established then
      SetNode(s, n, node.(handler := Releasing)).(replies := s.replies + {Reply(n, h.peer, h.conn, false)})
    else
      SetNode(s, n, node.(established := node.established[h.peer := h.conn], handler := Accepting(h.peer, h.conn)))
  }

  /** The event for the waiting `Connect`: ESTABLISHED or REJECTED. */
  function DoAnswer(peers: Peers, s: State, r: Reply): State
    requires Enabled(peers, s, Answer(r))
  {
    var node := s.nodes[r.to];
    var i := node.loop.i;
    var s1 := s.(replies := s.replies - {r});
    if r.accepted then
      SetNode(s1, r.to, node.(mu := Free, established := node.established[peers[r.to][i] := r.conn], loop := Ready(i + 1)))
    else
      SetNode(s1, r.to, node.(mu := Free, loop := Ready(i), backoff := NextBackoff(node.backoff, r.to)))
  }

  function Step(peers: Peers, s: State, a: Action): State
    requires Enabled(peers, s, a)
  {
    match a
    case Begin(n) => SetNode(s, n, s.nodes[n].(mu := Own, loop := Checking(s.nodes[n].loop.i)))
    case Check(n) => DoCheck(peers, s, n)
    case Receive(r) => SetNode(s, r.to, s.nodes[r.to].(handler := Acquiring(r.from, r.conn))).(requests := s.requests - {r})
    case TryLock(n) => DoTryLock(peers, s, n)
    case Decide(n) => DoDecide(peers, s, n)
    case Accept(n) =>
      var h := s.nodes[n].handler;
      SetNode(s, n, s.nodes[n].(handler := Releasing)).(replies := s.replies + {Reply(n, h.peer, h.conn, true)})
    case Release(n) => SetNode(s, n, s.nodes[n].(mu := Free, handler := Quiet))
    case Answer(r) => DoAnswer(peers, s, r)
    case Look(n) => SetNode(s, n, s.nodes[n].(mu := Own, looking := true))
    case Looked(n) => SetNode(s, n, s.nodes[n].(mu := Free, looking := false))
  }

  ghost predicate Init(peers: Peers, s: State) {
    && |s.nodes| == |peers|
    && (forall n | 0 <= n < |peers| :: s.nodes[n] == Node(Free, map[], Ready(0), Quiet, 0, false))
    && s.requests == {} && s.replies == {}
  }

  ghost predicate IsRun(peers: Peers, t: seq<State>, acts: seq<Action>) {
    && |t| == |acts| + 1
    && (forall i | 0 <= i < |t| :: |t[i].nodes| == |peers|)
    && forall i | 0 <= i < |acts| :: Enabled(peers, t[i], acts[i]) && t[i + 1] == Step(peers, t[i], acts[i])
  }

  // ---------- Invariant ----------

  /** The lock word says who is inside. */
  ghost predicate LockOK(n: Node) {
    && (n.mu.Own? <==> n.loop.Checking? || n.loop.Waiting? || n.looking)
    && (n.looking ==> n.loop.Ready?)
    && (n.mu.Peer? <==> n.handler.Deciding? || n.handler.Accepting? || n.handler.Releasing?)
    && (n.handler.Deciding? || n.handler.Accepting? ==> n.mu.id == n.handler.peer)
  }

  /** The loop has passed only peers it is connected to, and waits only for a peer it is not connected to. */
  ghost predicate LoopOK(mine: seq<nat>, n: Node) {
    && n.loop.i <= |mine|
    && (!n.loop.Ready? ==> n.loop.i < |mine|)
    && (forall j | 0 <= j < n.loop.i :: mine[j] in n.established)
    && (n.loop.Waiting? ==> mine[n.loop.i] !in n.established)
  }

  predicate Serves(n: Node, a: nat, c: nat) {
    (n.handler.Acquiring? || n.handler.Deciding? || n.handler.Accepting?) && n.handler.peer == a && n.handler.conn == c
  }

  /** The request of a waiting node is at exactly one place: on its way, with the handler, or answered. */
  ghost predicate OnePlace(s: State, a: nat, b: nat, c: nat)
    requires b < |s.nodes|
  {
    var asked := Request(a, b, c) in s.requests;
    var served := Serves(s.nodes[b], a, c);
    var yes, no := Reply(b, a, c, true) in s.replies, Reply(b, a, c, false) in s.replies;
    && (asked || served || yes || no)
    && !(asked && served) && !(asked && (yes || no)) && !(served && (yes || no)) && !(yes && no)
  }

  ghost predicate Messages(peers: Peers, s: State)
    requires |s.nodes| == |peers|
  {
    && (forall r | r in s.requests :: Awaits(peers, s, r.from, r.to, r.conn))
    && (forall r | r in s.replies :: Awaits(peers, s, r.to, r.from, r.conn))
    && (forall b: nat, a, c {:trigger Serves(s.nodes[b], a, c)} | b < |peers| && Serves(s.nodes[b], a, c) :: Awaits(peers, s, a, b, c))
    && (forall a, b: nat, c {:trigger Awaits(peers, s, a, b, c)} | Awaits(peers, s, a, b, c) ::
          b < |peers| && a != b && OnePlace(s, a, b, c))
  }

  /** The acceptor has entered the connection and the initiator has yet to hear of it. */
  ghost predicate Accepted(s: State, a: nat, b: nat, c: nat)
    requires b < |s.nodes|
  {
    s.nodes[b].handler == Accepting(a, c) || Reply(b, a, c, true) in s.replies
  }

  /** An entry is matched by the peer's entry for the same connection, or the peer is the initiator of that
      connection and still awaits its ESTABLISHED event. */
  ghost predicate EntryOK(peers: Peers, s: State, b: nat, a: nat)
    requires |s.nodes| == |peers| && b < |peers| && a in s.nodes[b].established
  {
    var c := s.nodes[b].established[a];
    && a < |peers| && a != b
    && if b in s.nodes[a].established then s.nodes[a].established[b] == c
       else Awaits(peers, s, a, b, c) && Accepted(s, a, b, c)
  }

  ghost predicate Entries(peers: Peers, s: State)
    requires |s.nodes| == |peers|
  {
    && (forall b: nat, a {:trigger EntryOK(peers, s, b, a)} {:trigger a in s.nodes[b].established} |
          b < |peers| && a in s.nodes[b].established :: EntryOK(peers, s, b, a))
    && (forall a, b: nat, c {:trigger Accepted(s, a, b, c)} | b < |peers| && Accepted(s, a, b, c) ::
          a in s.nodes[b].established && s.nodes[b].established[a] == c)
  }

  ghost predicate Inv(peers: Peers, s: State) {
    && AllToAll(peers) && |s.nodes| == |peers|
    && (forall n | 0 <= n < |peers| :: LockOK(s.nodes[n]) && LoopOK(peers[n], s.nodes[n]))
    && Messages(peers, s)
    && Entries(peers, s)
  }

  lemma InitInv(peers: Peers, s: State)
    requires AllToAll(peers) && Init(peers, s)
    ensures Inv(peers, s)
  {}

  lemma StepLocals(peers: Peers, s: State, a: Action)
    requires Inv(peers, s) && Enabled(peers, s, a)
    ensures forall n | 0 <= n < |peers| :: LockOK(Step(peers, s, a).nodes[n]) && LoopOK(peers[n], Step(peers, s, a).nodes[n])
  {
    hide Messages; hide Entries;
  }

  // Each step is described by what it changes about who awaits, who serves, and which messages are on their way;
  // everything else follows.

  ghost predicate SameWaiters(peers: Peers, s: State, s': State)
    requires |s.nodes| == |peers| == |s'.nodes|
  {
    forall a, b: nat, c {:trigger Awaits(peers, s', a, b, c)} {:trigger Awaits(peers, s, a, b, c)} ::
      Awaits(peers, s', a, b, c) <==> Awaits(peers, s, a, b, c)
  }

  ghost predicate SameServers(s: State, s': State, but: nat)
    requires |s.nodes| == |s'.nodes|
  {
    forall b: nat, a, c {:trigger Serves(s'.nodes[b], a, c)} {:trigger Serves(s.nodes[b], a, c)} | b < |s.nodes| && b != but ::
      Serves(s'.nodes[b], a, c) <==> Serves(s.nodes[b], a, c)
  }

  ghost predicate SameTables(s: State, s': State)
    requires |s.nodes| == |s'.nodes|
  {
    forall b: nat | b < |s.nodes| :: s'.nodes[b].established == s.nodes[b].established
  }

  ghost predicate SameAccepted(s: State, s': State)
    requires |s.nodes| == |s'.nodes|
  {
    forall a, b: nat, c {:trigger Accepted(s', a, b, c)} {:trigger Accepted(s, a, b, c)} | b < |s.nodes| ::
      Accepted(s', a, b, c) <==> Accepted(s, a, b, c)
  }

  /** Steps that touch neither tables nor acceptances. */
  lemma EntriesKept(peers: Peers, s: State, s': State)
    requires |s.nodes| == |peers| == |s'.nodes| && Entries(peers, s)
    requires SameTables(s, s') && SameAccepted(s, s')
    requires forall a, b: nat, c {:trigger Awaits(peers, s', a, b, c)} | Awaits(peers, s, a, b, c) :: Awaits(peers, s', a, b, c)
    ensures Entries(peers, s')
  {
    hide Awaits; hide Accepted;
    forall b: nat, a | b < |peers| && a in s'.nodes[b].established ensures EntryOK(peers, s', b, a) {
      assert EntryOK(peers, s, b, a);
    }
  }

  /** A handler that got the lock never finds the peer already established. */
  lemma NewPeer(peers: Peers, s: State, n: nat)
    requires Inv(peers, s) && n < |peers| && s.nodes[n].handler.Deciding?
    ensures var h := s.nodes[n].handler;
      h.peer !in s.nodes[n].established && Awaits(peers, s, h.peer, n, h.conn) && n !in s.nodes[h.peer].established
  {
    var h := s.nodes[n].handler;
    assert Serves(s.nodes[n], h.peer, h.conn);
    assert Awaits(peers, s, h.peer, n, h.conn) && LoopOK(peers[h.peer], s.nodes[h.peer]);
    assert OnePlace(s, h.peer, n, h.conn);
    assert h.peer in s.nodes[n].established ==> EntryOK(peers, s, n, h.peer);
  }

  lemma BeginMessages(peers: Peers, s: State, n: nat)
    requires Inv(peers, s) && Enabled(peers, s, Begin(n))
    ensures Messages(peers, Step(peers, s, Begin(n)))
  {
    hide Entries; hide LockOK; hide LoopOK;
    var s' := Step(peers, s, Begin(n));
    assert SameWaiters(peers, s, s') && SameServers(s, s', |s.nodes|);
  }

  lemma BeginEntries(peers: Peers, s: State, n: nat)
    requires Inv(peers, s) && Enabled(peers, s, Begin(n))
    ensures Entries(peers, Step(peers, s, Begin(n)))
  {
    hide LockOK; hide LoopOK; hide Messages;
    var s' := Step(peers, s, Begin(n));
    assert SameTables(s, s') && SameAccepted(s, s');
    EntriesKept(peers, s, s');
  }

  /** `GetConnection` takes and gives back the lock, and touches nothing else. */
  lemma LookMessages(peers: Peers, s: State, a: Action)
    requires Inv(peers, s) && Enabled(peers, s, a) && (a.Look? || a.Looked?)
    ensures Messages(peers, Step(peers, s, a))
  {
    hide Entries; hide LockOK; hide LoopOK;
    var s' := Step(peers, s, a);
    assert SameWaiters(peers, s, s') && SameServers(s, s', |s.nodes|);
  }

  lemma LookEntries(peers: Peers, s: State, a: Action)
    requires Inv(peers, s) && Enabled(peers, s, a) && (a.Look? || a.Looked?)
    ensures Entries(peers, Step(peers, s, a))
  {
    hide LockOK; hide LoopOK; hide Messages;
    var s' := Step(peers, s, a);
    assert SameTables(s, s') && SameAccepted(s, s');
    EntriesKept(peers, s, s');
  }

  lemma CheckMessages(peers: Peers, s: State, n: nat)
    requires Inv(peers, s) && Enabled(peers, s, Check(n))
    ensures Messages(peers, Step(peers, s, Check(n)))
  {
    hide Entries; hide LockOK; hide LoopOK;
    var s' := Step(peers, s, Check(n));
    assert SameServers(s, s', |s.nodes|);
    if s'.nodes[n].loop.Ready? {
      assert SameWaiters(peers, s, s');
    } else {
      var to := peers[n][s.nodes[n].loop.i];
      forall a, b: nat, c ensures Awaits(peers, s', a, b, c) <==> Awaits(peers, s, a, b, c) || (a == n && b == to && c == s.next) {}
    }
  }

  lemma CheckEntries(peers: Peers, s: State, n: nat)
    requires Inv(peers, s) && Enabled(peers, s, Check(n))
    ensures Entries(peers, Step(peers, s, Check(n)))
  {
    hide LockOK; hide LoopOK; hide Messages;
    var s' := Step(peers, s, Check(n));
    assert SameTables(s, s') && SameAccepted(s, s');
    EntriesKept(peers, s, s');
  }

  lemma ReceiveMessages(peers: Peers, s: State, r: Request)
    requires Inv(peers, s) && Enabled(peers, s, Receive(r))
    ensures Messages(peers, Step(peers, s, Receive(r)))
  {
    hide Entries; hide LockOK; hide LoopOK;
    var s' := Step(peers, s, Receive(r));
    assert SameWaiters(peers, s, s') && SameServers(s, s', r.to);
    forall a, c ensures Serves(s'.nodes[r.to], a, c) <==> a == r.from && c == r.conn {}
    assert Awaits(peers, s, r.from, r.to, r.conn);
  }

  lemma ReceiveEntries(peers: Peers, s: State, r: Request)
    requires Inv(peers, s) && Enabled(peers, s, Receive(r))
    ensures Entries(peers, Step(peers, s, Receive(r)))
  {
    hide LockOK; hide LoopOK; hide Messages;
    var s' := Step(peers, s, Receive(r));
    assert SameTables(s, s') && SameAccepted(s, s');
    EntriesKept(peers, s, s');
  }

  lemma TryLockMessages(peers: Peers, s: State, n: nat)
    requires Inv(peers, s) && Enabled(peers, s, TryLock(n))
    ensures Messages(peers, Step(peers, s, TryLock(n)))
  {
    hide Entries; hide LockOK; hide LoopOK;
    var s' := Step(peers, s, TryLock(n));
    var h := s.nodes[n].handler;
    assert SameWaiters(peers, s, s') && SameServers(s, s', n);
    assert Serves(s.nodes[n], h.peer, h.conn);
    forall a, c ensures Serves(s.nodes[n], a, c) <==> a == h.peer && c == h.conn {}
    forall a, c ensures Serves(s'.nodes[n], a, c) <==> !s.nodes[n].mu.Own? && a == h.peer && c == h.conn {}
  }

  lemma TryLockEntries(peers: Peers, s: State, n: nat)
    requires Inv(peers, s) && Enabled(peers, s, TryLock(n))
    ensures Entries(peers, Step(peers, s, TryLock(n)))
  {
    hide LockOK; hide LoopOK; hide Messages;
    var s' := Step(peers, s, TryLock(n));
    assert SameTables(s, s') && SameAccepted(s, s');
    EntriesKept(peers, s, s');
  }

  lemma DecideMessages(peers: Peers, s: State, n: nat)
    requires Inv(peers, s) && Enabled(peers, s, Decide(n))
    ensures Messages(peers, Step(peers, s, Decide(n)))
  {
    hide Entries; hide LockOK; hide LoopOK;
    var s' := Step(peers, s, Decide(n));
    var h := s.nodes[n].handler;
    assert SameWaiters(peers, s, s') && SameServers(s, s', n);
    assert Serves(s.nodes[n], h.peer, h.conn);
    forall a, c ensures Serves(s.nodes[n], a, c) <==> a == h.peer && c == h.conn {}
    forall a, c ensures Serves(s'.nodes[n], a, c) <==> h.peer !in s.nodes[n].established && a == h.peer && c == h.conn {}
  }

  lemma DecideEntries(peers: Peers, s: State, n: nat)
    requires Inv(peers, s) && Enabled(peers, s, Decide(n))
    ensures Entries(peers, Step(peers, s, Decide(n)))
  {
    var s' := Step(peers, s, Decide(n));
    var h := s.nodes[n].handler;
    NewPeer(peers, s, n);
    assert SameWaiters(peers, s, s') && Awaits(peers, s, h.peer, n, h.conn);
    forall a, b: nat, c | b < |peers|
      ensures Accepted(s', a, b, c) <==> Accepted(s, a, b, c) || (a == h.peer && b == n && c == h.conn) {}
    forall b: nat, a | b < |peers| && a in s'.nodes[b].established ensures EntryOK(peers, s', b, a) {
      if b != n || a != h.peer { assert EntryOK(peers, s, b, a); }
    }
  }

  lemma AcceptMessages(peers: Peers, s: State, n: nat)
    requires Inv(peers, s) && Enabled(peers, s, Accept(n))
    ensures Messages(peers, Step(peers, s, Accept(n)))
  {
    hide Entries; hide LockOK; hide LoopOK;
    var s' := Step(peers, s, Accept(n));
    var h := s.nodes[n].handler;
    assert SameWaiters(peers, s, s') && SameServers(s, s', n);
    assert Serves(s.nodes[n], h.peer, h.conn);
    forall a, c ensures Serves(s.nodes[n], a, c) <==> a == h.peer && c == h.conn {}
    forall a, c ensures !Serves(s'.nodes[n], a, c) {}
  }

  lemma AcceptEntries(peers: Peers, s: State, n: nat)
    requires Inv(peers, s) && Enabled(peers, s, Accept(n))
    ensures Entries(peers, Step(peers, s, Accept(n)))
  {
    hide LockOK; hide LoopOK; hide Messages;
    var s' := Step(peers, s, Accept(n));
    assert SameTables(s, s') && SameAccepted(s, s');
    EntriesKept(peers, s, s');
  }

  lemma ReleaseMessages(peers: Peers, s: State, n: nat)
    requires Inv(peers, s) && Enabled(peers, s, Release(n))
    ensures Messages(peers, Step(peers, s, Release(n)))
  {
    hide Entries; hide LockOK; hide LoopOK;
    var s' := Step(peers, s, Release(n));
    assert SameWaiters(peers, s, s') && SameServers(s, s', |s.nodes|);
  }

  lemma ReleaseEntries(peers: Peers, s: State, n: nat)
    requires Inv(peers, s) && Enabled(peers, s, Release(n))
    ensures Entries(peers, Step(peers, s, Release(n)))
  {
    hide LockOK; hide LoopOK; hide Messages;
    var s' := Step(peers, s, Release(n));
    assert SameTables(s, s') && SameAccepted(s, s');
    EntriesKept(peers, s, s');
  }

  lemma AnswerMessages(peers: Peers, s: State, r: Reply)
    requires Inv(peers, s) && Enabled(peers, s, Answer(r))
    ensures Messages(peers, Step(peers, s, Answer(r)))
  {
    hide Entries; hide LockOK; hide LoopOK;
    var s' := Step(peers, s, Answer(r));
    assert SameServers(s, s', |s.nodes|);
    assert Awaits(peers, s, r.to, r.from, r.conn);
    forall a, b: nat, c ensures Awaits(peers, s', a, b, c) <==> a != r.to && Awaits(peers, s, a, b, c) {}
    forall b: nat, c | Awaits(peers, s, r.to, b, c) ensures b == r.from && c == r.conn {}
  }

  lemma AnswerEntries(peers: Peers, s: State, r: Reply)
    requires Inv(peers, s) && Enabled(peers, s, Answer(r))
    ensures Entries(peers, Step(peers, s, Answer(r)))
  {
    var s' := Step(peers, s, Answer(r));
    assert Awaits(peers, s, r.to, r.from, r.conn) && OnePlace(s, r.to, r.from, r.conn);
    forall a, b: nat, c ensures Awaits(peers, s', a, b, c) <==> a != r.to && Awaits(peers, s, a, b, c) {}
    forall a, b: nat, c | b < |peers|
      ensures Accepted(s', a, b, c) <==> Accepted(s, a, b, c) && (a != r.to || b != r.from || c != r.conn) {}
    assert r.accepted ==> Accepted(s, r.to, r.from, r.conn);
    forall b: nat, a | b < |peers| && a in s'.nodes[b].established ensures EntryOK(peers, s', b, a) {
      if b != r.to || a != r.from { assert EntryOK(peers, s, b, a); }
    }
  }

  lemma StepInv(peers: Peers, s: State, a: Action)
    requires Inv(peers, s) && Enabled(peers, s, a)
    ensures Inv(peers, Step(peers, s, a))
  {
    StepLocals(peers, s, a);
    hide LockOK; hide LoopOK; hide Messages; hide Entries;
    match a
    case Begin(n) => BeginMessages(peers, s, n); BeginEntries(peers, s, n);
    case Check(n) => CheckMessages(peers, s, n); CheckEntries(peers, s, n);
    case Receive(r) => ReceiveMessages(peers, s, r); ReceiveEntries(peers, s, r);
    case TryLock(n) => TryLockMessages(peers, s, n); TryLockEntries(peers, s, n);
    case Decide(n) => DecideMessages(peers, s, n); DecideEntries(peers, s, n);
    case Accept(n) => AcceptMessages(peers, s, n); AcceptEntries(peers, s, n);
    case Release(n) => ReleaseMessages(peers, s, n); ReleaseEntries(peers, s, n);
    case Answer(r) => AnswerMessages(peers, s, r); AnswerEntries(peers, s, r);
    case Look(_) => LookMessages(peers, s, a); LookEntries(peers, s, a);
    case Looked(_) => LookMessages(peers, s, a); LookEntries(peers, s, a);
  }
}
