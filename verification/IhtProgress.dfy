/** Operations of the concurrent table come to an end. What a client still has to do is bounded level by level: each of
    its moves uses some of it up, except looking at a bucket that somebody else has locked. And a locked bucket always
    has a client at work on it or an unlocking write on its way, so somebody can get on.
 */
module IhtProgress {
  import opened Linearizability
  import opened IhtHeap
  import opened IhtUpdates
  import opened IhtCache
  import opened IhtConcurrent
  import opened IhtSafety
  import opened IhtRuns

  // ---------- Facts about locks ----------

  /** A PList is read a second time only after its bucket has been seen calcified, and is then read so. After a rehash
      the client's own copy says that the bucket is calcified. */
  ghost predicate Prepared(cfg: Config, h: Heap, pc: Pc) {
    && (pc.Reading? && !pc.keep ==>
          var b := BucketOf(cfg, pc.pos);
          && pc.pos.p in h.plists && b < |h.plists[pc.pos.p]| && h.plists[pc.pos.p][b].lock.PUnlocked?
          && (b < |pc.got| ==> pc.got[b].bk.lock.PUnlocked?))
    && (pc.Unlocking? && pc.answer.None? ==> SeenCalcified(cfg, pc.pos, pc.curr))
  }

  predicate SeenCalcified(cfg: Config, pos: Pos, curr: seq<Snap>) {
    BucketOf(cfg, pos) < |curr| && Current(cfg, pos, curr).lock.PUnlocked?
  }

  /** Somebody is at work on the bucket, or an unlocking write is on its way to it. */
  ghost predicate Taken(cfg: Config, s: State, p: nat, b: nat) {
    (p, b) in s.unlocks || exists c :: c in s.clients && HasLock(cfg, s.clients[c].pc, p, b)
  }

  ghost predicate Attended(cfg: Config, s: State) {
    && (forall c | c in s.clients :: Prepared(cfg, s.heap, s.clients[c].pc))
    && (forall p: nat, b: nat {:trigger Taken(cfg, s, p, b)} | InTree(s.heap, p, b) && s.heap.plists[p][b].lock.ELocked? :: Taken(cfg, s, p, b))
  }

  // ---------- What is left to do ----------

  /** From the fetch of a PList of depth `d` to the end, as long as the descent does not go below `limit`. */
  function Below(cfg: Config, d: nat, limit: nat): nat
    decreases limit + 1 - d
  {
    if d > limit then 0 else 2 * cfg.Size(d) + 12 + Below(cfg, d + 1, limit)
  }

  function Unread(cfg: Config, pos: Pos, got: seq<Snap>): nat {
    if |got| <= cfg.Size(pos.depth) then cfg.Size(pos.depth) - |got| else 0
  }

  /** What a client has left to do. */
  function Left(cfg: Config, pc: Pc, limit: nat): nat {
    match pc
    case Idle => 0
    case Leaving(_, _, _) => 1
    case Start(_, _) => 1 + Below(cfg, 1, limit)
    case Reading(pos, got, keep) =>
      Unread(cfg, pos, got) + (if keep then cfg.Size(pos.depth) + 11 else 2) + Below(cfg, pos.depth + 1, limit)
    case Descending(pos, curr) =>
      (if SeenCalcified(cfg, pos, curr) then 1 else cfg.Size(pos.depth) + 10) + Below(cfg, pos.depth + 1, limit)
    case Holding(pos, _) => 9 + Below(cfg, pos.depth + 1, limit)
    case Loaded(pos, _, _, _) => 8 + Below(cfg, pos.depth + 1, limit)
    case Unlocking(pos, _, answer) => if answer.Some? then 3 else 4 + Below(cfg, pos.depth + 1, limit)
  }

  function DepthOf(pc: Pc): nat {
    if pc.Idle? || pc.Start? || pc.Leaving? then 0 else pc.pos.depth
  }

  /** The client looks at a locked bucket. */
  predicate Spins(cfg: Config, s: State, c: nat, move: Move)
    requires Enabled(cfg, s, By(c, move))
  {
    var pc := s.clients[c].pc;
    move.TryLock? && s.heap.plists[pc.pos.p][BucketOf(cfg, pc.pos)].lock.ELocked?
  }

  lemma FetchLeft(cfg: Config, cl: Client, pos: Pos, limit: nat)
    requires pos.depth <= limit
    ensures Left(cfg, Fetch(cfg, cl, pos), limit) < Below(cfg, pos.depth, limit)
  {
    hide CacheSlot; hide PathTo;
  }

  /** The client is in the middle of an operation, and its next move keeps it within `limit` levels. */
  ghost predicate Within(cfg: Config, s: State, c: nat, move: Move, limit: nat) {
    && cfg.Valid() && Safe(cfg, s) && Attended(cfg, s) && Enabled(cfg, s, By(c, move)) && !move.Invoke? && 1 <= limit
    && DepthOf(s.clients[c].pc) <= limit && (move.Down? ==> DepthOf(s.clients[c].pc) < limit)
  }

  /** What the client has left after the move. */
  function Then(cfg: Config, s: State, c: nat, move: Move, limit: nat): nat
    requires Enabled(cfg, s, By(c, move))
  {
    Left(cfg, DoMove(cfg, s, c, move).clients[c].pc, limit)
  }

  lemma DescentWork(cfg: Config, s: State, c: nat, move: Move, limit: nat)
    requires Within(cfg, s, c, move, limit) && (move.Begin? || move.Down?)
    ensures Then(cfg, s, c, move, limit) < Left(cfg, s.clients[c].pc, limit)
  {
    var pc := s.clients[c].pc;
    hide Safe; hide Attended; hide Fetch;
    if move.Begin? {
      FetchLeft(cfg, s.clients[c], Pos(pc.id, pc.op, s.heap.root, 1), limit);
    } else {
      FetchLeft(cfg, s.clients[c], pc.pos.(p := Current(cfg, pc.pos, pc.curr).base.p, depth := pc.pos.depth + 1), limit);
    }
    hide Below;
  }

  lemma ReadWork(cfg: Config, s: State, c: nat, move: Move, limit: nat)
    requires Within(cfg, s, c, move, limit) && (move.ReadBucket? || move.FinishRead?)
    ensures Then(cfg, s, c, move, limit) < Left(cfg, s.clients[c].pc, limit)
  {
    var pc := s.clients[c].pc;
    assert ClientOK(cfg, s.heap, s.clients[c]) && Prepared(cfg, s.heap, pc);
    SlotInRange(cfg, pc.pos.op.key, pc.pos.depth);
    hide Safe; hide Attended; hide Below; hide TryCache;
  }

  lemma TryWork(cfg: Config, s: State, c: nat, limit: nat)
    requires Within(cfg, s, c, TryLock, limit)
    ensures if Spins(cfg, s, c, TryLock) then Then(cfg, s, c, TryLock, limit) == Left(cfg, s.clients[c].pc, limit)
      else Then(cfg, s, c, TryLock, limit) < Left(cfg, s.clients[c].pc, limit)
  {
    hide Safe; hide Attended; hide Below;
  }

  lemma HolderWork(cfg: Config, s: State, c: nat, move: Move, limit: nat)
    requires Within(cfg, s, c, move, limit) && (move.Load? || move.Apply? || move.Respond?)
    ensures Then(cfg, s, c, move, limit) < Left(cfg, s.clients[c].pc, limit)
  {
    hide Safe; hide Attended; hide Below; hide Calcify; hide Written; hide MustRehash; hide LoadNull;
  }

  lemma UnlockWork(cfg: Config, s: State, c: nat, limit: nat)
    requires Within(cfg, s, c, Unlock, limit)
    ensures Then(cfg, s, c, Unlock, limit) + 1 < Left(cfg, s.clients[c].pc, limit)
  {
    assert Prepared(cfg, s.heap, s.clients[c].pc);
    hide Safe; hide Attended; hide Below;
  }

  /** Each move of a client, other than beginning an operation or looking at a locked bucket, leaves it less to do. */
  lemma MoveUsesWork(cfg: Config, s: State, c: nat, move: Move, limit: nat)
    requires Within(cfg, s, c, move, limit)
    ensures if Spins(cfg, s, c, move) then Then(cfg, s, c, move, limit) == Left(cfg, s.clients[c].pc, limit)
      else Then(cfg, s, c, move, limit) + (if move.Unlock? then 1 else 0) < Left(cfg, s.clients[c].pc, limit)
  {
    hide Then; hide Left; hide Safe; hide Attended;
    match move
    case Begin => DescentWork(cfg, s, c, move, limit);
    case Down => DescentWork(cfg, s, c, move, limit);
    case ReadBucket => ReadWork(cfg, s, c, move, limit);
    case FinishRead => ReadWork(cfg, s, c, move, limit);
    case TryLock => TryWork(cfg, s, c, limit);
    case Load => HolderWork(cfg, s, c, move, limit);
    case Apply => HolderWork(cfg, s, c, move, limit);
    case Respond => HolderWork(cfg, s, c, move, limit);
    case Unlock => UnlockWork(cfg, s, c, limit);
  }

  // ---------- Locked buckets are attended ----------

  /** A lock word becomes locked only when a client takes it. */
  lemma LockedBy(cfg: Config, s: State, s': State, c: nat, move: Move, p: nat, b: nat)
    requires Safe(cfg, s) && Enabled(cfg, s, By(c, move)) && s' == DoMove(cfg, s, c, move)
    requires InTree(s'.heap, p, b) && s'.heap.plists[p][b].lock.ELocked?
    ensures c in s'.clients
    ensures (InTree(s.heap, p, b) && s.heap.plists[p][b].lock.ELocked?) || HasLock(cfg, s'.clients[c].pc, p, b)
  {
    hide TryCache; hide Fetch; hide DoApply; hide DoLoad; hide DoTryLock;
    match move
    case Apply => ApplyOpens(cfg, s, c, p, b);
    case Load => LoadOpens(cfg, s, c, p, b);
    case TryLock => TryLocks(cfg, s, c, p, b);
    case _ =>
  }

  /** A new EList leaves the locks alone. */
  lemma LoadOpens(cfg: Config, s: State, c: nat, p: nat, b: nat)
    requires Safe(cfg, s) && Enabled(cfg, s, By(c, Load))
    ensures var s' := DoLoad(cfg, s, c, s.clients[c].pc.pos, s.clients[c].pc.curr);
      && c in s'.clients
      && (InTree(s'.heap, p, b) && s'.heap.plists[p][b].lock.ELocked? ==> InTree(s.heap, p, b) && s.heap.plists[p][b].lock.ELocked?)
  {
    hide Safe;
  }

  lemma TryLocks(cfg: Config, s: State, c: nat, p: nat, b: nat)
    requires Safe(cfg, s) && Enabled(cfg, s, By(c, TryLock))
    ensures var s' := DoTryLock(cfg, s, c, s.clients[c].pc.pos, s.clients[c].pc.curr);
      && c in s'.clients
      && (InTree(s'.heap, p, b) && s'.heap.plists[p][b].lock.ELocked? ==>
        (InTree(s.heap, p, b) && s.heap.plists[p][b].lock.ELocked?) || HasLock(cfg, s'.clients[c].pc, p, b))
  {
    hide Safe;
  }

  /** A new PList has no locked bucket. */
  lemma ApplyOpens(cfg: Config, s: State, c: nat, p: nat, b: nat)
    requires Safe(cfg, s) && Enabled(cfg, s, By(c, Apply))
    ensures var pc := s.clients[c].pc; var s' := DoApply(cfg, s, c, pc.pos, pc.curr, pc.e, pc.pairs);
      && c in s'.clients
      && (InTree(s'.heap, p, b) && s'.heap.plists[p][b].lock.ELocked? ==> InTree(s.heap, p, b) && s.heap.plists[p][b].lock.ELocked?)
  {
    hide Links; hide Part; hide ClientOK; hide UnlockOK; hide Written; hide MustRehash; hide Exclusive;
    hide LastIdle; hide Buckets;
  }

  /** A client that gives a bucket up sends an unlocking write. */
  lemma StillTaken(cfg: Config, s: State, a: Action, p: nat, b: nat)
    requires Safe(cfg, s) && Enabled(cfg, s, a) && Taken(cfg, s, p, b) && a != Land(p, b)
    ensures Taken(cfg, Step(cfg, s, a), p, b)
  {
    hide Safe; hide Calcify; hide Written; hide TryCache; hide MustRehash; hide LoadNull;
    if (p, b) !in s.unlocks {
      var c :| c in s.clients && HasLock(cfg, s.clients[c].pc, p, b);
      if a.By? && a.c == c {
        assert (p, b) in Step(cfg, s, a).unlocks || HasLock(cfg, Step(cfg, s, a).clients[c].pc, p, b);
      } else {
        assert HasLock(cfg, Step(cfg, s, a).clients[c].pc, p, b);
      }
    }
  }

  lemma TakenStep(cfg: Config, s: State, a: Action, p: nat, b: nat)
    requires Safe(cfg, s) && Attended(cfg, s) && Enabled(cfg, s, a)
    requires InTree(Step(cfg, s, a).heap, p, b) && Step(cfg, s, a).heap.plists[p][b].lock.ELocked?
    ensures Taken(cfg, Step(cfg, s, a), p, b)
  {
    hide Safe; hide DoMove; hide DoLand; hide Attended; hide Taken;
    match a
    case Land(q, d) =>
      LandedOpen(cfg, s, q, d, p, b);
      LockedTaken(cfg, s, p, b);
      StillTaken(cfg, s, a, p, b);
    case By(c, move) =>
      LockedBy(cfg, s, DoMove(cfg, s, c, move), c, move, p, b);
      if InTree(s.heap, p, b) && s.heap.plists[p][b].lock.ELocked? {
        LockedTaken(cfg, s, p, b);
        StillTaken(cfg, s, a, p, b);
      } else {
        HolderTakes(cfg, DoMove(cfg, s, c, move), c, p, b);
      }
  }

  lemma LockedTaken(cfg: Config, s: State, p: nat, b: nat)
    requires Attended(cfg, s) && InTree(s.heap, p, b) && s.heap.plists[p][b].lock.ELocked?
    ensures Taken(cfg, s, p, b)
  {}

  lemma HolderTakes(cfg: Config, s: State, c: nat, p: nat, b: nat)
    requires c in s.clients && HasLock(cfg, s.clients[c].pc, p, b)
    ensures Taken(cfg, s, p, b)
  {}

  /** The bucket that an unlocking write reaches is open afterwards, and others are as they were. */
  lemma LandedOpen(cfg: Config, s: State, q: nat, d: nat, p: nat, b: nat)
    requires Safe(cfg, s) && Enabled(cfg, s, Land(q, d))
    requires InTree(DoLand(s, q, d).heap, p, b) && DoLand(s, q, d).heap.plists[p][b].lock.ELocked?
    ensures (p, b) != (q, d) && InTree(s.heap, p, b) && s.heap.plists[p][b].lock.ELocked?
  {
    assert UnlockOK(cfg, s, q, d);
    hide Safe;
  }

  lemma PreparedStable(cfg: Config, h: Heap, h': Heap, pc: Pc)
    requires Prepared(cfg, h, pc) && Grows(h, h')
    ensures Prepared(cfg, h', pc)
  {
    if pc.Reading? && !pc.keep {
      assert BucketGrows(h.plists[pc.pos.p][BucketOf(cfg, pc.pos)], h'.plists[pc.pos.p][BucketOf(cfg, pc.pos)]);
    }
  }

  lemma PreparedRead(cfg: Config, s: State, c: nat)
    requires Safe(cfg, s) && Attended(cfg, s) && Enabled(cfg, s, By(c, ReadBucket))
    ensures Prepared(cfg, s.heap, DoMove(cfg, s, c, ReadBucket).clients[c].pc)
  {
    assert Prepared(cfg, s.heap, s.clients[c].pc);
    hide Safe; hide Attended;
  }

  lemma PreparedTry(cfg: Config, s: State, c: nat)
    requires Safe(cfg, s) && Enabled(cfg, s, By(c, TryLock))
    ensures Prepared(cfg, s.heap, DoMove(cfg, s, c, TryLock).clients[c].pc)
  {
    hide Safe; hide Attended;
  }

  lemma PreparedApply(cfg: Config, s: State, c: nat)
    requires Enabled(cfg, s, By(c, Apply))
    ensures Prepared(cfg, s.heap, DoMove(cfg, s, c, Apply).clients[c].pc)
  {
    hide Calcify; hide Written; hide MustRehash;
  }

  /** The client that moves is prepared for the bucket it looks at, in the memory before the move. */
  lemma PreparedOwn(cfg: Config, s: State, c: nat, move: Move)
    requires Safe(cfg, s) && Attended(cfg, s) && Enabled(cfg, s, By(c, move)) && c in DoMove(cfg, s, c, move).clients
    ensures Prepared(cfg, s.heap, DoMove(cfg, s, c, move).clients[c].pc)
  {
    hide Safe; hide Attended; hide DoApply; hide DoTryLock; hide TryCache; hide LoadNull; hide SlotFor;
    match move
    case Apply => PreparedApply(cfg, s, c);
    case TryLock => PreparedTry(cfg, s, c);
    case ReadBucket => PreparedRead(cfg, s, c);
    case _ =>
  }

  lemma AttendedStep(cfg: Config, s: State, a: Action)
    requires cfg.Valid() && Safe(cfg, s) && Attended(cfg, s) && Enabled(cfg, s, a)
    ensures Attended(cfg, Step(cfg, s, a))
  {
    var s' := Step(cfg, s, a);
    SafeStep(cfg, s, a);
    hide Safe; hide Prepared; hide Taken;
    forall c | c in s'.clients ensures Prepared(cfg, s'.heap, s'.clients[c].pc) {
      PreparedAfter(cfg, s, a, c);
    }
    hide Step;
    forall p: nat, b: nat | InTree(s'.heap, p, b) && s'.heap.plists[p][b].lock.ELocked? ensures Taken(cfg, s', p, b) {
      TakenStep(cfg, s, a, p, b);
    }
  }

  lemma PreparedAfter(cfg: Config, s: State, a: Action, c: nat)
    requires cfg.Valid() && Safe(cfg, s) && Attended(cfg, s) && Enabled(cfg, s, a) && c in Step(cfg, s, a).clients
    ensures Prepared(cfg, Step(cfg, s, a).heap, Step(cfg, s, a).clients[c].pc)
  {
    var s' := Step(cfg, s, a);
    SafeStep(cfg, s, a);
    hide Safe; hide Prepared; hide DoMove; hide DoLand;
    if a.By? && a.c == c {
      PreparedOwn(cfg, s, c, a.move);
      PreparedStable(cfg, s.heap, s'.heap, s'.clients[c].pc);
    } else {
      OthersPc(cfg, s, a, c);
      PreparedStable(cfg, s.heap, s'.heap, s.clients[c].pc);
    }
  }

  lemma OthersPc(cfg: Config, s: State, a: Action, c: nat)
    requires Enabled(cfg, s, a) && c in Step(cfg, s, a).clients && !(a.By? && a.c == c)
    ensures c in s.clients && Step(cfg, s, a).clients[c] == s.clients[c]
  {
    hide Calcify; hide Written; hide TryCache; hide LoadNull; hide MustRehash; hide Fetch;
  }

  lemma InitAttended(cfg: Config, s: State)
    requires cfg.Valid() && Init(cfg, s)
    ensures Attended(cfg, s)
  {}

  lemma {:induction false} RunAttended(cfg: Config, t: seq<State>, acts: seq<Action>, i: nat)
    requires cfg.Valid() && IsRun(cfg, t, acts) && i < |t|
    ensures Attended(cfg, t[i])
  {
    hide Attended; hide Step; hide Enabled;
    if i == 0 {
      InitAttended(cfg, t[0]);
    } else {
      hide Init;
      RunAttended(cfg, t, acts, i - 1);
      RunSafe(cfg, t, acts, i - 1);
      hide Safe;
      AttendedStep(cfg, t[i - 1], acts[i - 1]);
    }
  }

  /** In every run, a client that finds a bucket locked finds another client at work on it, or an unlocking write on its
      way to it. */
  lemma LockedIsTaken(cfg: Config, t: seq<State>, acts: seq<Action>, i: nat, c: nat)
    requires cfg.Valid() && IsRun(cfg, t, acts) && i < |t| && Enabled(cfg, t[i], By(c, TryLock)) && Spins(cfg, t[i], c, TryLock)
    ensures var pos := t[i].clients[c].pc.pos;
      || (pos.p, BucketOf(cfg, pos)) in t[i].unlocks
      || exists d :: d != c && d in t[i].clients && HasLock(cfg, t[i].clients[d].pc, pos.p, BucketOf(cfg, pos))
  {
    RunAttended(cfg, t, acts, i);
    var pos := t[i].clients[c].pc.pos;
    LockedTaken(cfg, t[i], pos.p, BucketOf(cfg, pos));
    hide IsRun; hide Attended;
  }

  // ---------- How many moves an operation takes ----------

  /** How many moves a client has made in its operations before step `i`, other than looking at a locked bucket. */
  ghost function Moves(cfg: Config, t: seq<State>, acts: seq<Action>, i: nat, c: nat): nat
    requires IsRun(cfg, t, acts) && i < |t|
  {
    if i == 0 then 0 else Moves(cfg, t, acts, i - 1, c) + if Counts(cfg, t[i - 1], acts[i - 1], c) then 1 else 0
  }

  predicate Counts(cfg: Config, s: State, a: Action, c: nat)
    requires Enabled(cfg, s, a)
  {
    a.By? && a.c == c && !a.move.Invoke? && !Spins(cfg, s, c, a.move)
  }

  function Begun(acts: seq<Action>, i: nat, c: nat): nat
    requires i <= |acts|
  {
    if i == 0 then 0 else Begun(acts, i - 1, c) + if acts[i - 1].By? && acts[i - 1].c == c && acts[i - 1].move.Invoke? then 1 else 0
  }

  ghost predicate Shallow(t: seq<State>, i: nat, c: nat, limit: nat)
    requires i < |t|
  {
    forall j | 0 <= j <= i :: c in t[j].clients && DepthOf(t[j].clients[c].pc) <= limit
  }

  lemma LeftStep(cfg: Config, s: State, a: Action, c: nat, limit: nat)
    requires cfg.Valid() && Safe(cfg, s) && Attended(cfg, s) && Enabled(cfg, s, a) && c in s.clients && 1 <= limit
    requires DepthOf(s.clients[c].pc) <= limit && c in Step(cfg, s, a).clients && DepthOf(Step(cfg, s, a).clients[c].pc) <= limit
    ensures var left, now := Left(cfg, s.clients[c].pc, limit), Left(cfg, Step(cfg, s, a).clients[c].pc, limit);
      if a.By? && a.c == c && a.move.Invoke? then left == 0 && now == 1 + Below(cfg, 1, limit) && !Counts(cfg, s, a, c)
      else if Counts(cfg, s, a, c) then now < left
      else now == left
  {
    if a.By? && a.c == c {
      if !a.move.Invoke? {
        DownDepth(cfg, s, c, a.move);
        hide Safe; hide Attended; hide Left; hide DoMove;
        MoveUsesWork(cfg, s, c, a.move, limit);
      }
    } else {
      hide Safe; hide Attended; hide Left;
      OthersPc(cfg, s, a, c);
    }
  }

  lemma OneBudgetMore(b: nat, n: nat)
    ensures b * (n + 1) == b * n + b
  {}

  lemma DownDepth(cfg: Config, s: State, c: nat, move: Move)
    requires Enabled(cfg, s, By(c, move))
    ensures move.Down? ==> DepthOf(DoMove(cfg, s, c, move).clients[c].pc) == DepthOf(s.clients[c].pc) + 1
  {
    hide SlotFor;
  }

  /** Whatever the other clients do, an operation that stays within `limit` levels takes a bounded number of moves, not
      counting those that find a bucket locked. */
  lemma {:induction false} MovesAreBounded(cfg: Config, t: seq<State>, acts: seq<Action>, i: nat, c: nat, limit: nat)
    requires cfg.Valid() && IsRun(cfg, t, acts) && i < |t| && 1 <= limit && Shallow(t, i, c, limit)
    ensures Moves(cfg, t, acts, i, c) + Left(cfg, t[i].clients[c].pc, limit) <= (1 + Below(cfg, 1, limit)) * Begun(acts, i, c)
  {
    hide Step; hide Enabled; hide Attended; hide Safe; hide Below; hide Counts;
    if i == 0 {
      assert t[0].clients[c].pc.Idle?;
    } else {
      hide Init; hide Left;
      assert Shallow(t, i - 1, c, limit);
      assert Enabled(cfg, t[i - 1], acts[i - 1]) && t[i] == Step(cfg, t[i - 1], acts[i - 1]);
      MovesAreBounded(cfg, t, acts, i - 1, c, limit);
      RunSafe(cfg, t, acts, i - 1);
      RunAttended(cfg, t, acts, i - 1);
      LeftStep(cfg, t[i - 1], acts[i - 1], c, limit);
      OneBudgetMore(1 + Below(cfg, 1, limit), Begun(acts, i - 1, c));
    }
  }

  // ---------- All operations can be finished ----------

  /** What all clients have left to do. */
  ghost function AllLeft(cfg: Config, clients: map<nat, Client>, limit: nat): nat
    decreases |clients|
  {
    if clients == map[] then 0
    else
      var c :| c in clients;
      Left(cfg, clients[c].pc, limit) + AllLeft(cfg, clients - {c}, limit)
  }

  lemma {:induction false} AllLeftWithout(cfg: Config, clients: map<nat, Client>, c: nat, limit: nat)
    requires c in clients
    ensures AllLeft(cfg, clients, limit) == Left(cfg, clients[c].pc, limit) + AllLeft(cfg, clients - {c}, limit)
    decreases |clients|
  {
    hide Left;
    var d :| d in clients && AllLeft(cfg, clients, limit) == Left(cfg, clients[d].pc, limit) + AllLeft(cfg, clients - {d}, limit);
    if d != c {
      AllLeftWithout(cfg, clients - {d}, c, limit);
      AllLeftWithout(cfg, clients - {c}, d, limit);
      assert clients - {d} - {c} == clients - {c} - {d};
    }
  }

  lemma AllLeftUpdate(cfg: Config, clients: map<nat, Client>, c: nat, cl: Client, limit: nat)
    requires c in clients
    ensures AllLeft(cfg, clients[c := cl], limit) + Left(cfg, clients[c].pc, limit) == AllLeft(cfg, clients, limit) + Left(cfg, cl.pc, limit)
  {
    hide Left;
    AllLeftWithout(cfg, clients, c, limit);
    AllLeftWithout(cfg, clients[c := cl], c, limit);
    assert clients[c := cl] - {c} == clients - {c};
  }

  /** What clients have left, and the unlocking writes on their way. */
  ghost function Work(cfg: Config, s: State, limit: nat): nat { AllLeft(cfg, s.clients, limit) + |s.unlocks| }

  ghost predicate AllShallow(s: State, limit: nat) { forall c | c in s.clients :: DepthOf(s.clients[c].pc) <= limit }

  /** What a move changes besides the heap. */
  lemma MoveFrame(cfg: Config, s: State, c: nat, move: Move)
    requires Enabled(cfg, s, By(c, move))
    ensures var s' := DoMove(cfg, s, c, move);
      && c in s'.clients && s'.clients == s.clients[c := s'.clients[c]]
      && |s'.unlocks| <= |s.unlocks| + (if move.Unlock? then 1 else 0)
      && s.history <= s'.history
  {
    hide Calcify; hide Written; hide TryCache; hide LoadNull; hide MustRehash; hide Fetch;
    if move.Unlock? {
      var pc := s.clients[c].pc;
      var pb := (pc.pos.p, BucketOf(cfg, pc.pos));
      assert s.unlocks[pb := EUnlocked].Keys == s.unlocks.Keys + {pb} == s.unlocks[pb := PUnlocked].Keys;
      assert |s.unlocks[pb := EUnlocked]| == |s.unlocks.Keys + {pb}| == |s.unlocks[pb := PUnlocked]|;
    }
  }

  lemma LandWork(cfg: Config, s: State, p: nat, b: nat, limit: nat)
    requires Enabled(cfg, s, Land(p, b))
    ensures Work(cfg, Step(cfg, s, Land(p, b)), limit) < Work(cfg, s, limit)
  {
    assert (s.unlocks - {(p, b)}).Keys == s.unlocks.Keys - {(p, b)};
    assert |s.unlocks - {(p, b)}| == |s.unlocks.Keys - {(p, b)}|;
  }

  lemma MoveWork(cfg: Config, s: State, c: nat, move: Move, limit: nat)
    requires Within(cfg, s, c, move, limit) && !Spins(cfg, s, c, move)
    ensures Work(cfg, Step(cfg, s, By(c, move)), limit) < Work(cfg, s, limit)
  {
    MoveUsesWork(cfg, s, c, move, limit);
    MoveFrame(cfg, s, c, move);
    hide Safe; hide Attended; hide Left; hide DoMove; hide AllLeft;
    AllLeftUpdate(cfg, s.clients, c, DoMove(cfg, s, c, move).clients[c], limit);
  }

  /** The next move of a client inside an operation. */
  function NextMove(cfg: Config, pc: Pc): Move {
    match pc
    case Start(_, _) => Begin
    case Reading(pos, got, _) => if |got| < cfg.Size(pos.depth) then ReadBucket else FinishRead
    case Descending(pos, curr) => if SeenCalcified(cfg, pos, curr) then Down else TryLock
    case Holding(_, _) => Load
    case Loaded(_, _, _, _) => Apply
    case Unlocking(_, _, _) => Unlock
    case _ => Respond
  }

  lemma CanNext(cfg: Config, s: State, c: nat)
    requires cfg.Valid() && Safe(cfg, s) && c in s.clients && !s.clients[c].pc.Idle?
    ensures Enabled(cfg, s, By(c, NextMove(cfg, s.clients[c].pc)))
  {
    var pc := s.clients[c].pc;
    assert ClientOK(cfg, s.heap, s.clients[c]);
    if pc.Descending? || pc.Holding? || pc.Loaded? {
      SlotInRange(cfg, pc.pos.op.key, pc.pos.depth);
      assert SnapOK(s.heap, pc.pos.p, BucketOf(cfg, pc.pos), pc.curr[BucketOf(cfg, pc.pos)].bk);
    }
    hide Safe;
  }

  /** While a client is inside an operation, somebody can get on: it, the client at work on the bucket that it wants, or
      an unlocking write. */
  lemma SomebodyGetsOn(cfg: Config, s: State, c: nat) returns (a: Action)
    requires cfg.Valid() && Safe(cfg, s) && Attended(cfg, s) && c in s.clients && !s.clients[c].pc.Idle?
    ensures Enabled(cfg, s, a)
    ensures a.By? ==>
      a.c in s.clients && a.move == NextMove(cfg, s.clients[a.c].pc) && !a.move.Invoke? && !Spins(cfg, s, a.c, a.move)
  {
    CanNext(cfg, s, c);
    var move := NextMove(cfg, s.clients[c].pc);
    a := By(c, move);
    if Spins(cfg, s, c, move) {
      var pos := s.clients[c].pc.pos;
      var p, b := pos.p, BucketOf(cfg, pos);
      LockedTaken(cfg, s, p, b);
      hide Attended;
      if (p, b) in s.unlocks {
        assert UnlockOK(cfg, s, p, b);
        hide Safe;
        a := Land(p, b);
      } else {
        var d :| d in s.clients && HasLock(cfg, s.clients[d].pc, p, b);
        CanNext(cfg, s, d);
        hide Safe;
        a := By(d, NextMove(cfg, s.clients[d].pc));
      }
    }
  }

  /** Steps that follow each other and begin no operation. */
  ghost predicate GoesOn(cfg: Config, t: seq<State>, acts: seq<Action>) {
    && |t| == |acts| + 1
    && forall i | 0 <= i < |acts| ::
         Enabled(cfg, t[i], acts[i]) && !(acts[i].By? && acts[i].move.Invoke?) && t[i + 1] == Step(cfg, t[i], acts[i])
  }

  predicate AllIdle(s: State) { forall c | c in s.clients :: s.clients[c].pc.Idle? }

  /** A client is about to go below the level `limit`. */
  ghost predicate TooDeep(cfg: Config, s: State, limit: nat) {
    exists c :: c in s.clients && DepthOf(s.clients[c].pc) == limit && Enabled(cfg, s, By(c, Down))
  }

  lemma OneMoreStep(cfg: Config, s: State, a: Action, t: seq<State>, acts: seq<Action>)
    requires GoesOn(cfg, t, acts) && Enabled(cfg, s, a) && !(a.By? && a.move.Invoke?) && t[0] == Step(cfg, s, a)
    ensures GoesOn(cfg, [s] + t, [a] + acts)
  {
    hide Enabled; hide Step;
  }

  lemma ShallowStep(cfg: Config, s: State, a: Action, limit: nat)
    requires Enabled(cfg, s, a) && AllShallow(s, limit) && 1 <= limit
    requires a.By? && a.move.Down? ==> DepthOf(s.clients[a.c].pc) < limit
    ensures AllShallow(Step(cfg, s, a), limit)
  {
    hide Calcify; hide Written; hide TryCache; hide LoadNull; hide MustRehash; hide SlotFor; hide InCurr; hide Current;
    var s' := Step(cfg, s, a);
    forall c | c in s'.clients ensures DepthOf(s'.clients[c].pc) <= limit {
      if !(a.By? && a.c == c) { OthersPc(cfg, s, a, c); }
    }
  }

  lemma {:induction false} FinishAll(cfg: Config, s: State, limit: nat) returns (t: seq<State>, acts: seq<Action>)
    requires cfg.Valid() && Safe(cfg, s) && Attended(cfg, s) && AllShallow(s, limit) && 1 <= limit
    ensures GoesOn(cfg, t, acts) && t[0] == s && (AllIdle(t[|acts|]) || TooDeep(cfg, t[|acts|], limit))
    decreases Work(cfg, s, limit)
  {
    hide Safe; hide Attended; hide Work; hide Enabled; hide Step; hide Spins; hide NextMove;
    t, acts := [s], [];
    if c :| c in s.clients && !s.clients[c].pc.Idle? {
      var a := SomebodyGetsOn(cfg, s, c);
      if a.By? && a.move.Down? && DepthOf(s.clients[a.c].pc) == limit {
        assert TooDeep(cfg, s, limit);
      } else {
        if a.By? { MoveWork(cfg, s, a.c, a.move, limit); } else { LandWork(cfg, s, a.p, a.b, limit); }
        SafeStep(cfg, s, a);
        AttendedStep(cfg, s, a);
        ShallowStep(cfg, s, a, limit);
        t, acts := FinishAll(cfg, Step(cfg, s, a), limit);
        OneMoreStep(cfg, s, a, t, acts);
        t, acts := [s] + t, [a] + acts;
      }
    }
  }

  ghost predicate HasResponse(s: State, id: nat) { exists x :: Res(id, x) in s.history }

  /** The operation is still under way, or has returned. */
  ghost predicate InsideOrAnswered(s: State, c: nat, id: nat)
    requires c in s.clients
  {
    (!s.clients[c].pc.Idle? && IdOf(s.clients[c].pc) == id) || HasResponse(s, id)
  }

  function IdOf(pc: Pc): nat
    requires !pc.Idle?
  {
    if pc.Start? || pc.Leaving? then pc.id else pc.pos.id
  }

  lemma InsideStep(cfg: Config, s: State, a: Action, c: nat, id: nat)
    requires Enabled(cfg, s, a) && !(a.By? && a.move.Invoke?) && c in s.clients && InsideOrAnswered(s, c, id)
    ensures c in Step(cfg, s, a).clients && InsideOrAnswered(Step(cfg, s, a), c, id)
  {
    hide Calcify; hide Written; hide TryCache; hide LoadNull; hide MustRehash; hide SlotFor;
    var s' := Step(cfg, s, a);
    if a.By? { MoveFrame(cfg, s, a.c, a.move); }
    assert s.history <= s'.history;
    if HasResponse(s, id) {
      var x :| Res(id, x) in s.history;
      assert Res(id, x) in s'.history;
    } else if a == By(c, Respond) {
      assert Res(id, s.clients[c].pc.result) in s'.history;
    }
  }

  lemma {:induction false} InsideToTheEnd(cfg: Config, t: seq<State>, acts: seq<Action>, i: nat, c: nat, id: nat)
    requires GoesOn(cfg, t, acts) && i < |t| && c in t[0].clients && InsideOrAnswered(t[0], c, id)
    ensures c in t[i].clients && InsideOrAnswered(t[i], c, id)
  {
    hide Enabled; hide Step; hide InsideOrAnswered;
    if i > 0 {
      InsideToTheEnd(cfg, t, acts, i - 1, c, id);
      InsideStep(cfg, t[i - 1], acts[i - 1], c, id);
    }
  }

  lemma AnsweredInTheEnd(cfg: Config, t: seq<State>, acts: seq<Action>, c: nat)
    requires GoesOn(cfg, t, acts) && AllIdle(t[|acts|]) && c in t[0].clients && !t[0].clients[c].pc.Idle?
    ensures HasResponse(t[|acts|], IdOf(t[0].clients[c].pc))
  {
    hide Enabled; hide Step;
    assert InsideOrAnswered(t[0], c, IdOf(t[0].clients[c].pc));
    InsideToTheEnd(cfg, t, acts, |acts|, c, IdOf(t[0].clients[c].pc));
  }

  /** Whatever has happened in a run within `limit` levels, there is a way to go on, without new operations, at whose
      end every operation that is under way has returned, or some client is about to go below `limit`: with a limit of
      8, to overrun its array of buckets. */
  lemma EveryOperationReturns(cfg: Config, t: seq<State>, acts: seq<Action>, limit: nat)
    returns (t': seq<State>, acts': seq<Action>)
    requires cfg.Valid() && IsRun(cfg, t, acts) && 1 <= limit && AllShallow(t[|acts|], limit)
    ensures IsRun(cfg, t', acts') && t <= t' && acts <= acts'
    ensures forall i | |acts| <= i < |acts'| :: !(acts'[i].By? && acts'[i].move.Invoke?)
    ensures TooDeep(cfg, t'[|acts'|], limit) ||
      forall c | c in t[|acts|].clients && !t[|acts|].clients[c].pc.Idle? :: HasResponse(t'[|acts'|], IdOf(t[|acts|].clients[c].pc))
  {
    hide Enabled; hide Step; hide Safe; hide Attended; hide Init; hide TooDeep; hide InsideOrAnswered;
    var s := t[|acts|];
    RunSafe(cfg, t, acts, |acts|);
    RunAttended(cfg, t, acts, |acts|);
    var t1, acts1 := FinishAll(cfg, s, limit);
    if AllIdle(t1[|acts1|]) {
      forall c | c in s.clients && !s.clients[c].pc.Idle? ensures HasResponse(t1[|acts1|], IdOf(s.clients[c].pc)) {
        AnsweredInTheEnd(cfg, t1, acts1, c);
      }
    }
    hide HasResponse; hide AllIdle; hide IdOf;
    t', acts' := t + t1[1..], acts + acts1;
    assert t'[0] == t[0] && t'[|acts'|] == t1[|acts1|];
    forall i | 0 <= i < |acts'|
      ensures Enabled(cfg, t'[i], acts'[i]) && t'[i + 1] == Step(cfg, t'[i], acts'[i])
      ensures i >= |acts| ==> !(acts'[i].By? && acts'[i].move.Invoke?)
    {
      if i >= |acts| { assert acts'[i] == acts1[i - |acts|] && t'[i] == t1[i - |acts|] && t'[i + 1] == t1[i - |acts| + 1]; }
    }
  }
}
