/** The two-sided map: each node keeps the keys of its share, and client threads send requests to the owner of a key
    over a pair of FIFO channels, one request at a time for each pair of nodes. Each node's own map is atomic. `LinInv`
    ties a linear order of the operations to the node maps and to every message and lock, and each step extends the
    order or leaves it alone.
 */
module PartitionedMap {
  import opened Linearizability
  import opened KeyPartition

  datatype Kind = GetReq | InsReq | RmvReq | GetRes | InsRes | RmvRes | Err

  datatype Message = Message(kind: Kind, key: Key, val: Value)

  /** A client thread: at rest, started, holding the client lock of the target, waiting for the response, holding it,
      or about to return. */
  datatype Pc =
    | Idle
    | Start(id: nat, op: Op)
    | Sending(id: nat, op: Op)
    | Waiting(id: nat, op: Op)
    | Unlocking(id: nat, op: Op, response: Message)
    | Leaving(id: nat, op: Op, result: Option<Value>)

  /** A server thread at work for requests of one node. */
  datatype ServerPc =
    | Polling
    | Locked(from: nat)
    | Got(from: nat, request: Message)
    | Done(from: nat, response: Message)
    | Sent(from: nat)

  datatype Client = Client(node: nat, pc: Pc)
  datatype Server = Server(node: nat, pc: ServerPc)

  /** `requests` and `responses` are the channels from the first node to the second. The lock tables name the thread
      that holds the lock, for the client side by its node and the target, for the server side by its node and the
      sender. */
  datatype State = State(
    maps: seq<map<Key, Value>>,
    clients: seq<Client>, servers: seq<Server>,
    clientLocks: map<(nat, nat), nat>, serverLocks: map<(nat, nat), nat>,
    requests: map<(nat, nat), seq<Message>>, responses: map<(nat, nat), seq<Message>>,
    history: seq<Event>)

  datatype Action =
    | Invoke(t: nat, op: Op)
    | Next(t: nat)
    | Serve(v: nat, from: nat)
    | ServeNext(v: nat, junk: Value)

  function Queue(chan: map<(nat, nat), seq<Message>>, a: nat, b: nat): seq<Message> {
    if (a, b) in chan then chan[(a, b)] else []
  }

  function RequestOf(op: Op): Message {
    match op
    case Contains(k) => Message(GetReq, k, 0)
    case Insert(k, v) => Message(InsReq, k, v)
    case Remove(k) => Message(RmvReq, k, 0)
  }

  /** What the server does to its map. */
  function Applied(m: map<Key, Value>, request: Message): map<Key, Value> {
    match request.kind
    case InsReq => if request.key in m then m else m[request.key := request.val]
    case RmvReq => m - {request.key}
    case _ => m
  }

  /** What the server answers; a missing key leaves an unset variable in the value field. */
  function ResponseTo(m: map<Key, Value>, request: Message, junk: Value): Message {
    var found := Look(m, request.key);
    match request.kind
    case GetReq =>
      if found.Some? then Message(GetRes, request.key, found.value) else Message(Err, request.key, junk)
    case InsReq =>
      if found.Some? then Message(Err, request.key, found.value) else Message(InsRes, request.key, request.val)
    case RmvReq =>
      if found.Some? then Message(RmvRes, request.key, found.value) else Message(Err, request.key, junk)
    case _ => request
  }

  /** The opcode that the client asserts, unless the response is an error. */
  function ExpectedKind(op: Op): Kind {
    match op case Contains(_) => GetRes case Insert(_, _) => InsRes case Remove(_) => RmvRes
  }

  /** What the client returns. */
  function ResultFrom(op: Op, response: Message): Option<Value> {
    match op
    case Insert(_, _) => if response.kind.Err? then Some(response.val) else None
    case Contains(_) => if response.kind.Err? then None else Some(response.val)
    case Remove(_) => if response.kind.Err? then None else Some(response.val)
  }

  // ---------- Steps ----------

  function SetPc(s: State, t: nat, pc: Pc, e: Event): State
    requires t < |s.clients|
  {
    s.(clients := s.clients[t := s.clients[t].(pc := pc)], history := s.history + [e])
  }

  function SetServer(s: State, v: nat, pc: ServerPc): State
    requires v < |s.servers|
  {
    s.(servers := s.servers[v := s.servers[v].(pc := pc)], history := s.history + [Tau])
  }

  function Target(space: Space, op: Op): int
    requires space.count > 0 && space.len > 0
  {
    if space.Holds(op.key) then space.ToId(op.key) else 0
  }

  predicate Enabled(space: Space, s: State, a: Action)
    requires space.count > 0 && space.len > 0
  {
    match a
    case Invoke(t, op) => t < |s.clients| && s.clients[t].pc.Idle? && space.Holds(op.key)
    case Next(t) => t < |s.clients| && ClientCanMove(space, s, s.clients[t])
    case Serve(v, from) => v < |s.servers| && s.servers[v].pc.Polling? && from != s.servers[v].node && from < |s.maps|
      && (s.servers[v].node, from) !in s.serverLocks
    case ServeNext(v, _) => v < |s.servers| && !s.servers[v].pc.Polling? && s.servers[v].node < |s.maps|
  }

  predicate ClientCanMove(space: Space, s: State, c: Client)
    requires space.count > 0 && space.len > 0
  {
    !c.pc.Idle? &&
    var b := Target(space, c.pc.op);
    && 0 <= b < |s.maps|
    && (c.pc.Start? && b != c.node ==> (c.node, b) !in s.clientLocks)
    && (c.pc.Waiting? ==> Queue(s.responses, c.node, b) != [])
  }

  function DoNext(space: Space, s: State, t: nat): State
    requires space.count > 0 && space.len > 0 && Enabled(space, s, Next(t))
  {
    var c := s.clients[t];
    var b := Target(space, c.pc.op);
    match c.pc
    case Idle => s
    case Start(id, op) =>
      if b == c.node then
        SetPc(s, t, Leaving(id, op, ResultOf(s.maps[b], op)), Tau).(maps := s.maps[b := Effect(s.maps[b], op)])
      else
        SetPc(s, t, Sending(id, op), Tau).(clientLocks := s.clientLocks[(c.node, b) := t])
    case Sending(id, op) =>
      SetPc(s, t, Waiting(id, op), Tau)
        .(requests := s.requests[(c.node, b) := Queue(s.requests, c.node, b) + [RequestOf(op)]])
    case Waiting(id, op) =>
      SetPc(s, t, Unlocking(id, op, Queue(s.responses, c.node, b)[0]), Tau)
        .(responses := s.responses[(c.node, b) := Queue(s.responses, c.node, b)[1..]])
    case Unlocking(id, op, response) =>
      SetPc(s, t, Leaving(id, op, ResultFrom(op, response)), Tau).(clientLocks := s.clientLocks - {(c.node, b)})
    case Leaving(id, _, result) => SetPc(s, t, Idle, Res(id, result))
  }

  function DoServe(s: State, v: nat, junk: Value): State
    requires v < |s.servers| && s.servers[v].node < |s.maps|
  {
    var b := s.servers[v].node;
    match s.servers[v].pc
    case Polling => s
    case Locked(a) =>
      var q := Queue(s.requests, a, b);
      if q == [] then SetServer(s, v, Polling).(serverLocks := s.serverLocks - {(b, a)})
      else SetServer(s, v, Got(a, q[0])).(requests := s.requests[(a, b) := q[1..]])
    case Got(a, request) =>
      SetServer(s, v, Done(a, ResponseTo(s.maps[b], request, junk))).(maps := s.maps[b := Applied(s.maps[b], request)])
    case Done(a, response) =>
      SetServer(s, v, Sent(a)).(responses := s.responses[(a, b) := Queue(s.responses, a, b) + [response]])
    case Sent(a) => SetServer(s, v, Polling).(serverLocks := s.serverLocks - {(b, a)})
  }

  function Step(space: Space, s: State, a: Action): State
    requires space.count > 0 && space.len > 0 && Enabled(space, s, a)
  {
    match a
    case Invoke(t, op) => SetPc(s, t, Start(|s.history|, op), Inv(op))
    case Next(t) => DoNext(space, s, t)
    case Serve(v, from) => SetServer(s, v, Locked(from)).(serverLocks := s.serverLocks[(s.servers[v].node, from) := v])
    case ServeNext(v, junk) => DoServe(s, v, junk)
  }

  ghost predicate Init(space: Space, s: State) {
    && |s.maps| == space.count && (forall b | 0 <= b < |s.maps| :: s.maps[b] == map[])
    && (forall t | 0 <= t < |s.clients| :: s.clients[t].pc.Idle? && s.clients[t].node < space.count)
    && (forall v | 0 <= v < |s.servers| :: s.servers[v].pc.Polling? && s.servers[v].node < space.count)
    && s.clientLocks == map[] && s.serverLocks == map[] && s.requests == map[] && s.responses == map[]
    && s.history == []
  }

  ghost predicate IsRun(space: Space, r: seq<State>, acts: seq<Action>)
    requires space.Valid()
  {
    && |r| == |acts| + 1
    && Init(space, r[0])
    && forall i | 0 <= i < |acts| :: Enabled(space, r[i], acts[i]) && r[i + 1] == Step(space, r[i], acts[i])
  }

  // ---------- One global map ----------

  ghost predicate OwnKeys(space: Space, maps: seq<map<Key, Value>>)
    requires space.count > 0 && space.len > 0
  {
    forall b, k {:trigger k in maps[b]} | 0 <= b < |maps| && k in maps[b] :: space.Holds(k) && space.ToId(k) == b
  }

  /** The node maps, glued together, are the map `m`. */
  ghost predicate Glued(space: Space, maps: seq<map<Key, Value>>, m: map<Key, Value>)
    requires space.Valid() && |maps| == space.count
  {
    forall k: Key {:trigger k in m} :: Look(m, k) == if space.Holds(k) then LookAt(space, maps, k) else None
  }

  function LookAt(space: Space, maps: seq<map<Key, Value>>, k: Key): Option<Value>
    requires space.Valid() && |maps| == space.count && space.Holds(k)
  {
    ToIdInRange(space, k);
    Look(maps[space.ToId(k)], k)
  }

  /** An operation on the owner's map is the operation on the global map. */
  lemma GluedStep(space: Space, maps: seq<map<Key, Value>>, m: map<Key, Value>, op: Op)
    requires space.Valid() && |maps| == space.count && OwnKeys(space, maps) && Glued(space, maps, m) && space.Holds(op.key)
    ensures 0 <= space.ToId(op.key) < |maps|
    ensures var b := space.ToId(op.key); var maps' := maps[b := Effect(maps[b], op)];
      && ResultOf(maps[b], op) == ResultOf(m, op)
      && OwnKeys(space, maps') && Glued(space, maps', Effect(m, op))
  {
    ToIdInRange(space, op.key);
    var b := space.ToId(op.key);
    var maps' := maps[b := Effect(maps[b], op)];
    var m' := Effect(m, op);
    assert Look(m, op.key) == LookAt(space, maps, op.key) by { assert op.key in m || op.key !in m; }
    forall k: Key ensures Look(m', k) == if space.Holds(k) then LookAt(space, maps', k) else None {
      assert k in m || k !in m;
      if space.Holds(k) { ToIdInRange(space, k); }
    }
  }

  /** The server carries out what the client asked for, and the client reads off the result of its operation. */
  lemma ServedRight(m: map<Key, Value>, op: Op, junk: Value)
    ensures Applied(m, RequestOf(op)) == Effect(m, op)
    ensures ResultFrom(op, ResponseTo(m, RequestOf(op), junk)) == ResultOf(m, op)
    ensures var k := ResponseTo(m, RequestOf(op), junk).kind; k.Err? || k == ExpectedKind(op)
  {}

  // ---------- Invariant ----------

  function ServerPcFor(s: State, b: nat, a: nat): ServerPc {
    if (b, a) in s.serverLocks && s.serverLocks[(b, a)] < |s.servers| then s.servers[s.serverLocks[(b, a)]].pc else Polling
  }

  /** Nothing of a request or a response is between two nodes. */
  ghost predicate Clear(s: State, a: nat, b: nat) {
    && Queue(s.requests, a, b) == [] && Queue(s.responses, a, b) == []
    && !ServerPcFor(s, b, a).Got? && !ServerPcFor(s, b, a).Done?
  }

  predicate RightKind(op: Op, response: Message) { response.kind.Err? || response.kind == ExpectedKind(op) }

  ghost predicate Fulfils(lin: seq<LinPoint>, id: nat, op: Op, response: Message) {
    RightKind(op, response) && Answered(lin, id, ResultFrom(op, response))
  }

  /** The request of a waiting client is in the channel, with a server thread, or answered. */
  ghost predicate UnderWay(s: State, lin: seq<LinPoint>, a: nat, b: nat, id: nat, op: Op) {
    var req, resp, pc := Queue(s.requests, a, b), Queue(s.responses, a, b), ServerPcFor(s, b, a);
    || (req == [RequestOf(op)] && resp == [] && !pc.Got? && !pc.Done? && !Listed(lin, id))
    || (req == [] && resp == [] && pc == Got(a, RequestOf(op)) && !Listed(lin, id))
    || (req == [] && resp == [] && pc.Done? && Fulfils(lin, id, op, pc.response))
    || (req == [] && |resp| == 1 && !pc.Got? && !pc.Done? && Fulfils(lin, id, op, resp[0]))
  }

  predicate HoldsClientLock(pc: Pc) { pc.Sending? || pc.Waiting? || pc.Unlocking? }

  ghost predicate ClientOK(space: Space, s: State, lin: seq<LinPoint>, t: nat)
    requires space.Valid() && t < |s.clients|
  {
    var c := s.clients[t];
    c.node < space.count &&
    (!c.pc.Idle? ==>
      && space.Holds(c.pc.op.key) && Pending(s.history, c.pc.id, c.pc.op)
      && (c.pc.Start? || c.pc.Sending? ==> !Listed(lin, c.pc.id))
      && (c.pc.Unlocking? ==> Fulfils(lin, c.pc.id, c.pc.op, c.pc.response))
      && (c.pc.Leaving? ==> Answered(lin, c.pc.id, c.pc.result))
      && (HoldsClientLock(c.pc) ==>
            var b := Target(space, c.pc.op);
            b >= 0 && (c.node, b) in s.clientLocks && s.clientLocks[(c.node, b)] == t))
  }

  /** Between any two nodes there is one request under way, for the waiting holder of the client lock, or none. */
  ghost predicate PairOK(space: Space, s: State, lin: seq<LinPoint>, a: nat, b: nat)
    requires space.Valid()
  {
    && ((a, b) in s.clientLocks ==>
          var t := s.clientLocks[(a, b)];
          t < |s.clients| && s.clients[t].node == a && HoldsClientLock(s.clients[t].pc)
          && Target(space, s.clients[t].pc.op) == b)
    && (if (a, b) in s.clientLocks && s.clients[s.clientLocks[(a, b)]].pc.Waiting?
        then var pc := s.clients[s.clientLocks[(a, b)]].pc; UnderWay(s, lin, a, b, pc.id, pc.op)
        else Clear(s, a, b))
    && ((b, a) in s.serverLocks ==>
          var v := s.serverLocks[(b, a)];
          v < |s.servers| && s.servers[v].node == b && !s.servers[v].pc.Polling? && s.servers[v].pc.from == a)
  }

  ghost predicate ServerOK(space: Space, s: State, v: nat)
    requires v < |s.servers|
  {
    var w := s.servers[v];
    w.node < space.count &&
    (!w.pc.Polling? ==> (w.node, w.pc.from) in s.serverLocks && s.serverLocks[(w.node, w.pc.from)] == v)
  }

  ghost predicate DistinctIds(s: State) {
    forall t, u {:trigger s.clients[t], s.clients[u]} | 0 <= t < |s.clients| && 0 <= u < |s.clients| && t != u
      && !s.clients[t].pc.Idle? && !s.clients[u].pc.Idle? :: s.clients[t].pc.id != s.clients[u].pc.id
  }

  ghost predicate LinInv(space: Space, s: State, lin: seq<LinPoint>) {
    && space.Valid() && |s.maps| == space.count
    && OwnKeys(space, s.maps) && Glued(space, s.maps, Replay(lin))
    && Timed(s.history, lin)
    && (forall t {:trigger s.clients[t]} | 0 <= t < |s.clients| :: ClientOK(space, s, lin, t))
    && (forall v {:trigger s.servers[v]} | 0 <= v < |s.servers| :: ServerOK(space, s, v))
    && (forall a: nat, b: nat {:trigger PairOK(space, s, lin, a, b)} :: PairOK(space, s, lin, a, b))
    && DistinctIds(s)
  }

  // ---------- What a step leaves alone ----------

  lemma SameLin(lin: seq<LinPoint>, now: nat, id: nat)
    ensures LinExtends(lin, lin, now, id)
  {}

  /** A client that a step does not touch keeps what it knows. */
  lemma ClientKept(space: Space, s: State, s': State, lin: seq<LinPoint>, lin': seq<LinPoint>, u: nat, id: nat, e: Event)
    requires space.Valid() && u < |s.clients| == |s'.clients| && ClientOK(space, s, lin, u)
    requires LinExtends(lin, lin', |s.history|, id) && s'.history == s.history + [e]
    requires s'.clients[u] == s.clients[u]
    requires !s.clients[u].pc.Idle? ==> s.clients[u].pc.id != id || (s.clients[u].pc.Waiting? && !e.Res?)
    requires e.Res? ==> e.id == id
    requires forall k | k in s.clientLocks && s.clientLocks[k] == u :: k in s'.clientLocks && s'.clientLocks[k] == u
    ensures ClientOK(space, s', lin', u)
  {
    hide Pending; hide Answered; hide Listed;
    if !s.clients[u].pc.Idle? { PendingExtend(s.history, s.clients[u].pc.id, s.clients[u].pc.op, e); }
  }

  /** A pair of nodes that a step does not touch. */
  lemma PairKept(space: Space, s: State, s': State, lin: seq<LinPoint>, lin': seq<LinPoint>, id: nat, a: nat, b: nat)
    requires space.Valid() && PairOK(space, s, lin, a, b) && LinExtends(lin, lin', |s.history|, id)
    requires Queue(s'.requests, a, b) == Queue(s.requests, a, b) && Queue(s'.responses, a, b) == Queue(s.responses, a, b)
    requires |s'.clients| == |s.clients| && |s'.servers| == |s.servers|
    requires (a, b) in s'.clientLocks <==> (a, b) in s.clientLocks
    requires (a, b) in s.clientLocks ==> (
      && s'.clientLocks[(a, b)] == s.clientLocks[(a, b)]
      && s'.clients[s.clientLocks[(a, b)]] == s.clients[s.clientLocks[(a, b)]]
      && s.clients[s.clientLocks[(a, b)]].pc.id != id)
    requires (b, a) in s'.serverLocks <==> (b, a) in s.serverLocks
    requires (b, a) in s.serverLocks ==> (
      && s'.serverLocks[(b, a)] == s.serverLocks[(b, a)]
      && s'.servers[s.serverLocks[(b, a)]] == s.servers[s.serverLocks[(b, a)]])
    ensures PairOK(space, s', lin', a, b)
  {
    hide Answered; hide Listed;
  }

  /** A step of client `t` that concerns the pair `(a, b)` at most. */
  lemma ClientStep(space: Space, s: State, s': State, lin: seq<LinPoint>, lin': seq<LinPoint>, t: nat, e: Event, a: nat, b: nat)
    requires LinInv(space, s, lin) && t < |s.clients| && !s.clients[t].pc.Idle?
    requires LinExtends(lin, lin', |s.history|, s.clients[t].pc.id)
    requires |s'.clients| == |s.clients| && s'.clients == s.clients[t := s'.clients[t]] && s'.servers == s.servers
    requires s'.history == s.history + [e] && s'.serverLocks == s.serverLocks
    requires e.Inv? || e.Tau? || (e.Res? && e.id == s.clients[t].pc.id)
    requires !s'.clients[t].pc.Idle? ==> s'.clients[t].pc.id == s.clients[t].pc.id
    requires forall k {:trigger k in s'.clientLocks} {:trigger k in s.clientLocks} | k != (a, b) ::
      (k in s'.clientLocks <==> k in s.clientLocks) && (k in s.clientLocks ==> s'.clientLocks[k] == s.clientLocks[k])
    requires (a, b) in s.clientLocks && s.clientLocks[(a, b)] != t ==>
      (a, b) in s'.clientLocks && s'.clientLocks[(a, b)] == s.clientLocks[(a, b)]
    requires forall k {:trigger k in s.clientLocks} | k in s.clientLocks && s.clientLocks[k] == t :: k == (a, b)
    requires forall c: nat, d: nat {:trigger Queue(s'.requests, c, d)} {:trigger Queue(s'.responses, c, d)} | (c, d) != (a, b) ::
      Queue(s'.requests, c, d) == Queue(s.requests, c, d) && Queue(s'.responses, c, d) == Queue(s.responses, c, d)
    requires |s'.maps| == space.count && OwnKeys(space, s'.maps) && Glued(space, s'.maps, Replay(lin')) && Timed(s'.history, lin')
    requires ClientOK(space, s', lin', t) && PairOK(space, s', lin', a, b)
    ensures LinInv(space, s', lin')
  {
    hide Glued; hide OwnKeys; hide Timed; hide LinExtends; hide Queue;
    DistinctFrom(s, t);
    forall u | 0 <= u < |s.clients| && u != t ensures ClientOK(space, s', lin', u) {
      ClientKept(space, s, s', lin, lin', u, s.clients[t].pc.id, e);
    }
    forall c: nat, d: nat ensures PairOK(space, s', lin', c, d) {
      if (c, d) != (a, b) {
        assert PairOK(space, s, lin, c, d);
        PairKept(space, s, s', lin, lin', s.clients[t].pc.id, c, d);
      }
    }
    forall v | 0 <= v < |s'.servers| ensures ServerOK(space, s', v) { assert ServerOK(space, s, v); }
  }

  lemma DistinctFrom(s: State, t: nat)
    requires DistinctIds(s) && t < |s.clients| && !s.clients[t].pc.Idle?
    ensures forall u | 0 <= u < |s.clients| && u != t && !s.clients[u].pc.Idle? :: s.clients[u].pc.id != s.clients[t].pc.id
  {}

  /** A step of server thread `v` for the pair `(a, b)`. `id` is the operation that takes effect, if any. */
  lemma ServerStep(space: Space, s: State, s': State, lin: seq<LinPoint>, lin': seq<LinPoint>, v: nat, id: nat, a: nat, b: nat)
    requires LinInv(space, s, lin) && v < |s.servers| && LinExtends(lin, lin', |s.history|, id)
    requires s'.clients == s.clients && s'.clientLocks == s.clientLocks && s'.history == s.history + [Tau]
    requires |s'.servers| == |s.servers| && s'.servers == s.servers[v := s'.servers[v]]
    requires forall u | 0 <= u < |s.clients| && !s.clients[u].pc.Idle? ::
      s.clients[u].pc.id != id || (s.clients[u].pc.Waiting? && (a, b) in s.clientLocks && s.clientLocks[(a, b)] == u)
    requires forall k {:trigger k in s'.serverLocks} {:trigger k in s.serverLocks} | k != (b, a) ::
      (k in s'.serverLocks <==> k in s.serverLocks) && (k in s.serverLocks ==> s'.serverLocks[k] == s.serverLocks[k])
    requires (b, a) in s.serverLocks ==> s.serverLocks[(b, a)] == v
    requires forall k {:trigger k in s.serverLocks} | k in s.serverLocks && s.serverLocks[k] == v :: k == (b, a)
    requires forall c: nat, d: nat {:trigger Queue(s'.requests, c, d)} {:trigger Queue(s'.responses, c, d)} | (c, d) != (a, b) ::
      Queue(s'.requests, c, d) == Queue(s.requests, c, d) && Queue(s'.responses, c, d) == Queue(s.responses, c, d)
    requires |s'.maps| == space.count && OwnKeys(space, s'.maps) && Glued(space, s'.maps, Replay(lin')) && Timed(s'.history, lin')
    requires ServerOK(space, s', v) && PairOK(space, s', lin', a, b)
    ensures LinInv(space, s', lin')
  {
    hide Glued; hide OwnKeys; hide Timed; hide LinExtends; hide Queue;
    forall u | 0 <= u < |s.clients| ensures ClientOK(space, s', lin', u) {
      ClientKept(space, s, s', lin, lin', u, id, Tau);
    }
    forall c: nat, d: nat ensures PairOK(space, s', lin', c, d) {
      if (c, d) != (a, b) {
        assert PairOK(space, s, lin, c, d);
        HolderId(space, s, lin, c, d, a, b, id);
        PairKept(space, s, s', lin, lin', id, c, d);
      }
    }
    forall w | 0 <= w < |s'.servers| ensures ServerOK(space, s', w) {
      if w != v { assert ServerOK(space, s, w); }
    }
    SameClientsDistinct(s, s');
  }

  lemma SameClientsDistinct(s: State, s': State)
    requires DistinctIds(s) && s'.clients == s.clients
    ensures DistinctIds(s')
  {}

  lemma HolderId(space: Space, s: State, lin: seq<LinPoint>, c: nat, d: nat, a: nat, b: nat, id: nat)
    requires space.Valid() && PairOK(space, s, lin, c, d) && (c, d) != (a, b)
    requires forall u | 0 <= u < |s.clients| && !s.clients[u].pc.Idle? ::
      s.clients[u].pc.id != id || (s.clients[u].pc.Waiting? && (a, b) in s.clientLocks && s.clientLocks[(a, b)] == u)
    requires (a, b) in s.clientLocks ==> PairOK(space, s, lin, a, b)
    ensures (c, d) in s.clientLocks ==> s.clientLocks[(c, d)] < |s.clients| && s.clients[s.clientLocks[(c, d)]].pc.id != id
  {}

  // ---------- Steps of clients ----------

  lemma InvokeLin(space: Space, s: State, lin: seq<LinPoint>, t: nat, op: Op)
    requires LinInv(space, s, lin) && Enabled(space, s, Invoke(t, op))
    ensures LinInv(space, Step(space, s, Invoke(t, op)), lin)
  {
    var s' := Step(space, s, Invoke(t, op));
    var id := |s.history|;
    SameLin(lin, id, id);
    TimedExtend(s.history, lin, Inv(op));
    NewId(s.history, lin, op);
    hide Glued; hide OwnKeys; hide Timed; hide LinExtends; hide Queue;
    forall u | 0 <= u < |s.clients| ensures ClientOK(space, s', lin, u) {
      assert ClientOK(space, s, lin, u);
      if u != t { ClientKept(space, s, s', lin, lin, u, id, Inv(op)); }
    }
    forall a: nat, b: nat ensures PairOK(space, s', lin, a, b) {
      assert PairOK(space, s, lin, a, b);
      if (a, b) in s.clientLocks { assert ClientOK(space, s, lin, s.clientLocks[(a, b)]); }
      PairKept(space, s, s', lin, lin, id, a, b);
    }
    forall v | 0 <= v < |s'.servers| ensures ServerOK(space, s', v) { assert ServerOK(space, s, v); }
    forall u | 0 <= u < |s.clients| && !s.clients[u].pc.Idle? ensures s.clients[u].pc.id < id {
      assert ClientOK(space, s, lin, u);
    }
    DistinctAfter(s, s', t, id);
  }

  lemma DistinctAfter(s: State, s': State, t: nat, id: nat)
    requires DistinctIds(s) && t < |s.clients| == |s'.clients| && s'.clients == s.clients[t := s'.clients[t]]
    requires forall u | 0 <= u < |s.clients| && !s.clients[u].pc.Idle? :: s.clients[u].pc.id < id
    requires s'.clients[t].pc.Start? && s'.clients[t].pc.id == id
    ensures DistinctIds(s')
  {}

  lemma NewId(h: seq<Event>, lin: seq<LinPoint>, op: Op)
    requires Timed(h, lin)
    ensures Pending(h + [Inv(op)], |h|, op) && !Listed(lin, |h|)
  {
    var h' := h + [Inv(op)];
    forall r | 0 <= r < |h'| && h'[r].Res? ensures h'[r].id != |h| {
      assert r < |h| && h'[r] == h[r];
      assert Answered(lin, h[r].id, h[r].result);
    }
  }

  /** No lock entry names a client that holds no lock. */
  lemma NoLock(space: Space, s: State, lin: seq<LinPoint>, t: nat)
    requires LinInv(space, s, lin) && t < |s.clients| && !HoldsClientLock(s.clients[t].pc)
    ensures forall k {:trigger k in s.clientLocks} | k in s.clientLocks :: s.clientLocks[k] != t
  {
    forall k | k in s.clientLocks ensures s.clientLocks[k] != t {
      assert PairOK(space, s, lin, k.0, k.1);
    }
  }

  /** A holder holds one lock. */
  lemma OneLock(space: Space, s: State, lin: seq<LinPoint>, t: nat)
    requires LinInv(space, s, lin) && t < |s.clients| && HoldsClientLock(s.clients[t].pc)
    ensures var b := Target(space, s.clients[t].pc.op);
      && b >= 0
      && (s.clients[t].node, b) in s.clientLocks && s.clientLocks[(s.clients[t].node, b)] == t
      && forall k {:trigger k in s.clientLocks} | k in s.clientLocks && s.clientLocks[k] == t :: k == (s.clients[t].node, b)
  {
    assert ClientOK(space, s, lin, t);
    forall k | k in s.clientLocks && s.clientLocks[k] == t ensures k == (s.clients[t].node, Target(space, s.clients[t].pc.op)) {
      assert PairOK(space, s, lin, k.0, k.1);
    }
  }

  lemma LocalLin(space: Space, s: State, lin: seq<LinPoint>, t: nat) returns (lin': seq<LinPoint>)
    requires LinInv(space, s, lin) && Enabled(space, s, Next(t)) && s.clients[t].pc.Start?
    requires Target(space, s.clients[t].pc.op) == s.clients[t].node
    ensures LinInv(space, Step(space, s, Next(t)), lin')
  {
    var s', c := Step(space, s, Next(t)), s.clients[t];
    assert ClientOK(space, s, lin, t);
    NoLock(space, s, lin, t);
    lin' := TakeEffectNow(s.history, lin, c.pc.id, c.pc.op);
    PendingExtend(s.history, c.pc.id, c.pc.op, Tau);
    GluedStep(space, s.maps, Replay(lin), c.pc.op);
    assert PairOK(space, s, lin, c.node, c.node);
    hide Timed; hide Glued; hide OwnKeys; hide LinExtends; hide Replay; hide Effect; hide ResultOf; hide Pending; hide Answered;
    PairSeen(space, s, s', lin, lin', t, c.node, c.node);
    ClientStep(space, s, s', lin, lin', t, Tau, c.node, c.node);
  }

  /** A pair for which client `t` holds no lock, across a step of `t` that touches no channel and no lock of the pair. */
  lemma PairSeen(space: Space, s: State, s': State, lin: seq<LinPoint>, lin': seq<LinPoint>, t: nat, a: nat, b: nat)
    requires LinInv(space, s, lin) && t < |s.clients| && !s.clients[t].pc.Idle?
    requires LinExtends(lin, lin', |s.history|, s.clients[t].pc.id)
    requires s'.requests == s.requests && s'.responses == s.responses && s'.servers == s.servers
    requires s'.clientLocks == s.clientLocks && s'.serverLocks == s.serverLocks
    requires |s'.clients| == |s.clients| && s'.clients == s.clients[t := s'.clients[t]]
    requires (a, b) in s.clientLocks ==> s.clientLocks[(a, b)] != t
    ensures PairOK(space, s', lin', a, b)
  {
    hide Timed; hide Glued; hide OwnKeys; hide LinExtends; hide Queue;
    assert PairOK(space, s, lin, a, b);
    DistinctFrom(s, t);
    PairKept(space, s, s', lin, lin', s.clients[t].pc.id, a, b);
  }

  lemma LockLin(space: Space, s: State, lin: seq<LinPoint>, t: nat)
    requires LinInv(space, s, lin) && Enabled(space, s, Next(t)) && s.clients[t].pc.Start?
    requires Target(space, s.clients[t].pc.op) != s.clients[t].node
    ensures LinInv(space, Step(space, s, Next(t)), lin)
  {
    var s', c := Step(space, s, Next(t)), s.clients[t];
    var b := Target(space, c.pc.op);
    assert ClientOK(space, s, lin, t) && PairOK(space, s, lin, c.node, b);
    NoLock(space, s, lin, t);
    SameLin(lin, |s.history|, c.pc.id);
    TimedExtend(s.history, lin, Tau);
    PendingExtend(s.history, c.pc.id, c.pc.op, Tau);
    hide Timed; hide Glued; hide OwnKeys; hide LinExtends; hide Replay; hide Queue; hide Pending; hide Target;
    ClientStep(space, s, s', lin, lin, t, Tau, c.node, b);
  }

  lemma SendLin(space: Space, s: State, lin: seq<LinPoint>, t: nat)
    requires LinInv(space, s, lin) && Enabled(space, s, Next(t)) && s.clients[t].pc.Sending?
    ensures LinInv(space, Step(space, s, Next(t)), lin)
  {
    var s', c := Step(space, s, Next(t)), s.clients[t];
    var b := Target(space, c.pc.op);
    OneLock(space, s, lin, t);
    assert ClientOK(space, s, lin, t) && PairOK(space, s, lin, c.node, b);
    SameLin(lin, |s.history|, c.pc.id);
    TimedExtend(s.history, lin, Tau);
    PendingExtend(s.history, c.pc.id, c.pc.op, Tau);
    hide Timed; hide Glued; hide OwnKeys; hide LinExtends; hide Replay; hide Pending; hide Target;
    ClientStep(space, s, s', lin, lin, t, Tau, c.node, b);
  }

  lemma ReceiveLin(space: Space, s: State, lin: seq<LinPoint>, t: nat)
    requires LinInv(space, s, lin) && Enabled(space, s, Next(t)) && s.clients[t].pc.Waiting?
    ensures LinInv(space, Step(space, s, Next(t)), lin)
    ensures RightKind(s.clients[t].pc.op, Step(space, s, Next(t)).clients[t].pc.response)
  {
    var s', c := Step(space, s, Next(t)), s.clients[t];
    var b := Target(space, c.pc.op);
    OneLock(space, s, lin, t);
    assert ClientOK(space, s, lin, t) && PairOK(space, s, lin, c.node, b);
    SameLin(lin, |s.history|, c.pc.id);
    TimedExtend(s.history, lin, Tau);
    PendingExtend(s.history, c.pc.id, c.pc.op, Tau);
    hide Timed; hide Glued; hide OwnKeys; hide LinExtends; hide Replay; hide Pending; hide Target; hide Answered;
    ClientStep(space, s, s', lin, lin, t, Tau, c.node, b);
  }

  lemma UnlockLin(space: Space, s: State, lin: seq<LinPoint>, t: nat)
    requires LinInv(space, s, lin) && Enabled(space, s, Next(t)) && s.clients[t].pc.Unlocking?
    ensures LinInv(space, Step(space, s, Next(t)), lin)
  {
    var s', c := Step(space, s, Next(t)), s.clients[t];
    var b := Target(space, c.pc.op);
    OneLock(space, s, lin, t);
    assert ClientOK(space, s, lin, t) && PairOK(space, s, lin, c.node, b);
    SameLin(lin, |s.history|, c.pc.id);
    TimedExtend(s.history, lin, Tau);
    PendingExtend(s.history, c.pc.id, c.pc.op, Tau);
    hide Timed; hide Glued; hide OwnKeys; hide LinExtends; hide Replay; hide Pending; hide Target; hide Answered; hide Queue;
    ClientStep(space, s, s', lin, lin, t, Tau, c.node, b);
  }

  lemma LeaveLin(space: Space, s: State, lin: seq<LinPoint>, t: nat)
    requires LinInv(space, s, lin) && Enabled(space, s, Next(t)) && s.clients[t].pc.Leaving?
    ensures LinInv(space, Step(space, s, Next(t)), lin)
  {
    var s', c := Step(space, s, Next(t)), s.clients[t];
    var e := Res(c.pc.id, c.pc.result);
    assert ClientOK(space, s, lin, t);
    NoLock(space, s, lin, t);
    SameLin(lin, |s.history|, c.pc.id);
    TimedExtend(s.history, lin, e);
    hide Timed; hide Glued; hide OwnKeys; hide LinExtends; hide Replay; hide Pending; hide Target; hide Answered; hide Queue;
    PairSeen(space, s, s', lin, lin, t, c.node, c.node);
    ClientStep(space, s, s', lin, lin, t, e, c.node, c.node);
  }

  // ---------- Steps of servers ----------

  /** A fresh name: no client is doing it. */
  lemma NobodysId(space: Space, s: State, lin: seq<LinPoint>)
    requires LinInv(space, s, lin)
    ensures forall u | 0 <= u < |s.clients| && !s.clients[u].pc.Idle? :: s.clients[u].pc.id != |s.history|
  {
    forall u | 0 <= u < |s.clients| && !s.clients[u].pc.Idle? ensures s.clients[u].pc.id != |s.history| {
      assert ClientOK(space, s, lin, u);
    }
  }

  lemma NoServerLock(space: Space, s: State, lin: seq<LinPoint>, v: nat)
    requires LinInv(space, s, lin) && v < |s.servers|
    ensures s.servers[v].pc.Polling? ==> forall k {:trigger k in s.serverLocks} | k in s.serverLocks :: s.serverLocks[k] != v
    ensures !s.servers[v].pc.Polling? ==>
      && (s.servers[v].node, s.servers[v].pc.from) in s.serverLocks
      && s.serverLocks[(s.servers[v].node, s.servers[v].pc.from)] == v
      && forall k {:trigger k in s.serverLocks} | k in s.serverLocks && s.serverLocks[k] == v ::
           k == (s.servers[v].node, s.servers[v].pc.from)
  {
    assert ServerOK(space, s, v);
    forall k | k in s.serverLocks && s.serverLocks[k] == v
      ensures !s.servers[v].pc.Polling? && k == (s.servers[v].node, s.servers[v].pc.from)
    {
      assert PairOK(space, s, lin, k.1, k.0);
    }
  }

  lemma ServeLin(space: Space, s: State, lin: seq<LinPoint>, v: nat, from: nat)
    requires LinInv(space, s, lin) && Enabled(space, s, Serve(v, from))
    ensures LinInv(space, Step(space, s, Serve(v, from)), lin)
  {
    var s', b := Step(space, s, Serve(v, from)), s.servers[v].node;
    NobodysId(space, s, lin);
    NoServerLock(space, s, lin, v);
    assert ServerOK(space, s, v) && PairOK(space, s, lin, from, b);
    SameLin(lin, |s.history|, |s.history|);
    TimedExtend(s.history, lin, Tau);
    hide Timed; hide Glued; hide OwnKeys; hide LinExtends; hide Replay; hide Target; hide Queue; hide Answered; hide Listed;
    ServerStep(space, s, s', lin, lin, v, |s.history|, from, b);
  }

  /** A request is taken off its channel, or there is none. */
  lemma TakeLin(space: Space, s: State, lin: seq<LinPoint>, v: nat, junk: Value)
    requires LinInv(space, s, lin) && Enabled(space, s, ServeNext(v, junk)) && s.servers[v].pc.Locked?
    ensures LinInv(space, Step(space, s, ServeNext(v, junk)), lin)
  {
    var s', b, a := Step(space, s, ServeNext(v, junk)), s.servers[v].node, s.servers[v].pc.from;
    NobodysId(space, s, lin);
    NoServerLock(space, s, lin, v);
    assert ServerOK(space, s, v) && PairOK(space, s, lin, a, b);
    SameLin(lin, |s.history|, |s.history|);
    TimedExtend(s.history, lin, Tau);
    hide Timed; hide Glued; hide OwnKeys; hide LinExtends; hide Replay; hide Target; hide Answered; hide Listed;
    ServerStep(space, s, s', lin, lin, v, |s.history|, a, b);
  }

  /** A response is sent. */
  lemma RespondLin(space: Space, s: State, lin: seq<LinPoint>, v: nat, junk: Value)
    requires LinInv(space, s, lin) && Enabled(space, s, ServeNext(v, junk)) && s.servers[v].pc.Done?
    ensures LinInv(space, Step(space, s, ServeNext(v, junk)), lin)
  {
    var s', b, a := Step(space, s, ServeNext(v, junk)), s.servers[v].node, s.servers[v].pc.from;
    NobodysId(space, s, lin);
    NoServerLock(space, s, lin, v);
    assert ServerOK(space, s, v) && PairOK(space, s, lin, a, b);
    SameLin(lin, |s.history|, |s.history|);
    TimedExtend(s.history, lin, Tau);
    hide Timed; hide Glued; hide OwnKeys; hide LinExtends; hide Replay; hide Target; hide Answered; hide Listed;
    ServerStep(space, s, s', lin, lin, v, |s.history|, a, b);
  }

  /** The server lock is released. */
  lemma ReleaseLin(space: Space, s: State, lin: seq<LinPoint>, v: nat, junk: Value)
    requires LinInv(space, s, lin) && Enabled(space, s, ServeNext(v, junk)) && s.servers[v].pc.Sent?
    ensures LinInv(space, Step(space, s, ServeNext(v, junk)), lin)
  {
    var s', b, a := Step(space, s, ServeNext(v, junk)), s.servers[v].node, s.servers[v].pc.from;
    NobodysId(space, s, lin);
    NoServerLock(space, s, lin, v);
    assert ServerOK(space, s, v) && PairOK(space, s, lin, a, b);
    SameLin(lin, |s.history|, |s.history|);
    TimedExtend(s.history, lin, Tau);
    hide Timed; hide Glued; hide OwnKeys; hide LinExtends; hide Replay; hide Target; hide Answered; hide Listed; hide Queue;
    ServerStep(space, s, s', lin, lin, v, |s.history|, a, b);
  }

  /** The request takes effect. */
  lemma ApplyLin(space: Space, s: State, lin: seq<LinPoint>, v: nat, junk: Value) returns (lin': seq<LinPoint>)
    requires LinInv(space, s, lin) && Enabled(space, s, ServeNext(v, junk)) && s.servers[v].pc.Got?
    ensures LinInv(space, Step(space, s, ServeNext(v, junk)), lin')
  {
    var s', b, a := Step(space, s, ServeNext(v, junk)), s.servers[v].node, s.servers[v].pc.from;
    NoServerLock(space, s, lin, v);
    assert ServerOK(space, s, v) && PairOK(space, s, lin, a, b);
    var t := s.clientLocks[(a, b)];
    var id, op := s.clients[t].pc.id, s.clients[t].pc.op;
    assert ClientOK(space, s, lin, t);
    DistinctFrom(s, t);
    lin' := TakeEffectNow(s.history, lin, id, op);
    GluedStep(space, s.maps, Replay(lin), op);
    ServedRight(s.maps[b], op, junk);
    hide Timed; hide Glued; hide OwnKeys; hide LinExtends; hide Replay; hide Answered; hide Listed; hide Effect; hide Applied;
    hide ResponseTo; hide ResultOf; hide ResultFrom; hide Pending;
    ServerStep(space, s, s', lin, lin', v, id, a, b);
  }

  // ---------- Runs ----------

  lemma StepLin(space: Space, s: State, a: Action, lin: seq<LinPoint>) returns (lin': seq<LinPoint>)
    requires LinInv(space, s, lin) && Enabled(space, s, a)
    ensures LinInv(space, Step(space, s, a), lin')
  {
    lin' := lin;
    match a
    case Invoke(t, op) => InvokeLin(space, s, lin, t, op);
    case Serve(v, from) => ServeLin(space, s, lin, v, from);
    case Next(t) =>
      hide LinInv; hide DoNext;
      match s.clients[t].pc {
        case Start(_, op) =>
          if Target(space, op) == s.clients[t].node { lin' := LocalLin(space, s, lin, t); } else { LockLin(space, s, lin, t); }
        case Sending(_, _) => SendLin(space, s, lin, t);
        case Waiting(_, _) => ReceiveLin(space, s, lin, t);
        case Unlocking(_, _, _) => UnlockLin(space, s, lin, t);
        case Leaving(_, _, _) => LeaveLin(space, s, lin, t);
      }
    case ServeNext(v, junk) =>
      hide LinInv; hide DoServe;
      match s.servers[v].pc {
        case Locked(_) => TakeLin(space, s, lin, v, junk);
        case Got(_, _) => lin' := ApplyLin(space, s, lin, v, junk);
        case Done(_, _) => RespondLin(space, s, lin, v, junk);
        case Sent(_) => ReleaseLin(space, s, lin, v, junk);
      }
  }

  lemma InitLin(space: Space, s: State)
    requires space.Valid() && Init(space, s)
    ensures LinInv(space, s, [])
  {
    InitMaps(space, s.maps);
    hide Space.ToId; hide Target; hide Glued; hide OwnKeys;
    forall a: nat, b: nat ensures PairOK(space, s, [], a, b) {}
    forall t | 0 <= t < |s.clients| ensures ClientOK(space, s, [], t) {}
    forall v | 0 <= v < |s.servers| ensures ServerOK(space, s, v) {}
  }

  lemma InitMaps(space: Space, maps: seq<map<Key, Value>>)
    requires space.Valid() && |maps| == space.count && forall b | 0 <= b < |maps| :: maps[b] == map[]
    ensures OwnKeys(space, maps) && Glued(space, maps, Replay([]))
  {
    hide Space.ToId;
    assert Replay([]) == map[];
    forall k: Key ensures Look(map[], k) == if space.Holds(k) then LookAt(space, maps, k) else None {
      if space.Holds(k) { ToIdInRange(space, k); }
    }
  }
}
