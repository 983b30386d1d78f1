/** Every interleaving of the concurrent table, with any number of inserters, is linearizable to a finite map as long
    as no insert overwrites a list; with one inserter at a time none ever does. */
module IhtLinearizable {
  import opened Linearizability
  import opened IhtHeap
  import opened IhtUpdates
  import opened IhtCache
  import opened IhtConcurrent
  import opened IhtSafety
  import opened IhtRuns
  import opened IhtOrder

  /** Up to step `i`, every insert that sets the pointer of its bucket finds it still null. */
  ghost predicate FreshRun(cfg: Config, t: seq<State>, acts: seq<Action>, i: nat)
    requires |t| == |acts| + 1 && i < |t|
  {
    forall j | 0 <= j < i :: FreshNull(cfg, t[j], acts[j])
  }

  lemma {:induction false} RunLin(cfg: Config, t: seq<State>, acts: seq<Action>, i: nat) returns (lin: seq<LinPoint>)
    requires cfg.Valid() && IsRun(cfg, t, acts) && i < |t| && FreshRun(cfg, t, acts, i)
    ensures LinInv(cfg, t[i], lin)
  {
    if i == 0 {
      InitLin(cfg, t[0]);
      lin := [];
    } else {
      var lin0 := RunLin(cfg, t, acts, i - 1);
      assert FreshNull(cfg, t[i - 1], acts[i - 1]);
      lin := LinStep(cfg, t[i - 1], acts[i - 1], lin0);
    }
  }

  // ---------- Main results ----------

  /** With any number of clients that insert, look up and remove: if every insert that read a null pointer finds the
      pointer still null when it sets it, the history is linearizable, and the linear order replays to exactly the
      pairs that the memory stores. */
  lemma IhtIsLinearizable(cfg: Config, t: seq<State>, acts: seq<Action>, i: nat)
    requires cfg.Valid() && IsRun(cfg, t, acts) && i < |t| && FreshRun(cfg, t, acts, i)
    ensures Linearizable(t[i].history)
    ensures exists lin :: IsLinearization(t[i].history, lin) && Abstracts(t[i].heap, Replay(lin))
  {
    var lin := RunLin(cfg, t, acts, i);
    TimedIsLinearization(t[i].history, lin);
  }

  /** Then each key sits in at most one place of one EList, with one value. */
  lemma OnePlaceAlways(cfg: Config, t: seq<State>, acts: seq<Action>, i: nat, k: Key,
                       p: nat, b: nat, v: Value, p': nat, b': nat, v': Value)
    requires cfg.Valid() && IsRun(cfg, t, acts) && i < |t| && FreshRun(cfg, t, acts, i)
    requires Holds(t[i].heap, p, b, k, v) && Holds(t[i].heap, p', b', k, v')
    ensures p == p' && b == b' && v == v'
  {
    var lin := RunLin(cfg, t, acts, i);
    OnePlacePerKey(cfg, t[i].heap, p, b, v, p', b', v', k);
  }

  // ---------- What the condition means for the memory ----------

  /** Once attached to a bucket an EList stays there, or makes way for a PList. */
  ghost predicate Attached(h: Heap, h': Heap, p: nat, b: nat) {
    InTree(h, p, b) && h.plists[p][b].base.ERef? ==>
      InTree(h', p, b) && (h'.plists[p][b].base == h.plists[p][b].base || h'.plists[p][b].base.PRef?)
  }

  ghost predicate ListsStay(h: Heap, h': Heap) {
    forall p: nat, b: nat :: Attached(h, h', p, b)
  }

  ghost predicate ListsStayAt(t: seq<State>, j: nat)
    requires j + 1 < |t|
  {
    ListsStay(t[j].heap, t[j + 1].heap)
  }

  ghost predicate SameBase(h: Heap, h': Heap, p: nat, b: nat) {
    InTree(h, p, b) ==> InTree(h', p, b) && h'.plists[p][b].base == h.plists[p][b].base
  }

  predicate Rehashes(cfg: Config, s: State, a: Action) {
    && a.By? && a.move.Apply? && Enabled(cfg, s, a)
    && MustRehash(cfg, s.clients[a.c].pc.pos.op, s.clients[a.c].pc.pairs)
  }

  /** Only an insert on a null pointer and a rehash change a pointer. */
  lemma PointersStay(cfg: Config, s: State, a: Action, p: nat, b: nat)
    requires Enabled(cfg, s, a) && !SetsPointer(cfg, s, a) && !Rehashes(cfg, s, a)
    ensures SameBase(s.heap, Step(cfg, s, a).heap, p, b)
  {
    hide Calcify; hide Find; hide Written; hide MustRehash; hide Fetch; hide TryCache; hide BucketOf;
    if a.By? && a.move.Load? { LoadKeepsPointers(cfg, s, a.c, p, b); }
  }

  lemma LoadKeepsPointers(cfg: Config, s: State, c: nat, p: nat, b: nat)
    requires Enabled(cfg, s, By(c, Load)) && !SetsPointer(cfg, s, By(c, Load))
    ensures SameBase(s.heap, Step(cfg, s, By(c, Load)).heap, p, b)
  {
    hide NewElist; hide BucketOf;
  }

  lemma RehashAttached(cfg: Config, s: State, a: Action, p: nat, b: nat)
    requires Safe(cfg, s) && Rehashes(cfg, s, a)
    ensures Attached(s.heap, Step(cfg, s, a).heap, p, b)
  {
    hide Buckets; hide Links; hide Exclusive; hide LastIdle; hide Part; hide PcOK;
  }

  lemma StepAttached(cfg: Config, s: State, a: Action, p: nat, b: nat)
    requires Safe(cfg, s) && Enabled(cfg, s, a) && FreshNull(cfg, s, a)
    ensures Attached(s.heap, Step(cfg, s, a).heap, p, b)
  {
    if Rehashes(cfg, s, a) {
      RehashAttached(cfg, s, a, p, b);
    } else if !SetsPointer(cfg, s, a) {
      hide Step; hide Safe; hide Enabled;
      PointersStay(cfg, s, a, p, b);
    }
  }

  lemma StaleDetaches(cfg: Config, s: State, a: Action)
    requires Safe(cfg, s) && Enabled(cfg, s, a) && !FreshNull(cfg, s, a)
    ensures var pos := s.clients[a.c].pc.pos;
      !Attached(s.heap, Step(cfg, s, a).heap, pos.p, BucketOf(cfg, pos))
  {
    var pos := s.clients[a.c].pc.pos;
    assert ClientOK(cfg, s.heap, s.clients[a.c]);
    assert BucketOK(s.heap, pos.p, BucketOf(cfg, pos));
  }

  /** The condition is exactly that no EList is ever replaced by another one. */
  lemma FreshIffListsStay(cfg: Config, t: seq<State>, acts: seq<Action>, i: nat)
    requires cfg.Valid() && IsRun(cfg, t, acts) && i < |t|
    ensures FreshRun(cfg, t, acts, i) <==> forall j | 0 <= j < i :: ListsStayAt(t, j)
  {
    if FreshRun(cfg, t, acts, i) {
      forall j | 0 <= j < i ensures ListsStayAt(t, j) { FreshIffStays(cfg, t, acts, j); }
    } else {
      var j :| 0 <= j < i && !FreshNull(cfg, t[j], acts[j]);
      FreshIffStays(cfg, t, acts, j);
    }
  }

  lemma FreshIffStays(cfg: Config, t: seq<State>, acts: seq<Action>, j: nat)
    requires cfg.Valid() && IsRun(cfg, t, acts) && j < |acts|
    ensures FreshNull(cfg, t[j], acts[j]) <==> ListsStayAt(t, j)
  {
    RunSafe(cfg, t, acts, j);
    hide Safe; hide Attached; hide Step; hide FreshNull;
    if FreshNull(cfg, t[j], acts[j]) {
      var h, h' := t[j].heap, t[j + 1].heap;
      forall p: nat, b: nat ensures Attached(h, h', p, b) {
        StepAttached(cfg, t[j], acts[j], p, b);
      }
    } else {
      StaleDetaches(cfg, t[j], acts[j]);
    }
  }

  // ---------- One inserter at a time ----------

  predicate Inserting(pc: Pc) { !pc.Idle? && OpOf(pc).Insert? }

  ghost predicate OneInserter(s: State) {
    forall c, c' | c in s.clients && c' in s.clients && Inserting(s.clients[c].pc) && Inserting(s.clients[c'].pc) ::
      c == c'
  }

  /** What a client has read of the PList where it stands. */
  function Snaps(pc: Pc): seq<Snap> {
    match pc
    case Reading(_, got, _) => got
    case Descending(_, curr) => curr
    case Holding(_, curr) => curr
    case Unlocking(_, curr, None) => curr
    case _ => []
  }

  /** A null pointer that an inserting client read for its bucket is null still. */
  ghost predicate NullKnown(cfg: Config, h: Heap, pc: Pc) {
    Snaps(pc) != [] && Inserting(pc) ==>
      var b := BucketOf(cfg, pc.pos);
      b < |Snaps(pc)| && InTree(h, pc.pos.p, b) && Snaps(pc)[b].bk.base.Null? ==> h.plists[pc.pos.p][b].base.Null?
  }

  ghost predicate NullsKnown(cfg: Config, s: State) {
    forall c | c in s.clients :: NullKnown(cfg, s.heap, s.clients[c].pc)
  }

  /** A PList taken from the cache shows no null pointer where the key hashes. */
  lemma FetcherKnows(cfg: Config, s: State, c: nat, move: Move)
    requires cfg.Valid() && Safe(cfg, s) && Enabled(cfg, s, By(c, move)) && (move.Begin? || move.Down?)
    ensures var s' := Step(cfg, s, By(c, move)); NullKnown(cfg, s'.heap, s'.clients[c].pc)
  {
    hide Exclusive; hide Tree; hide LastIdle; hide PcOK; hide Fetch;
    var pc := s.clients[c].pc;
    assert ClientOK(cfg, s.heap, s.clients[c]);
    if move.Begin? {
      RootAt(cfg, s.heap, pc.id, pc.op);
      FetchLin(cfg, s.heap, 0, [], s.clients[c], Pos(pc.id, pc.op, s.heap.root, 1));
    } else {
      DownAt(cfg, s, c);
      FetchLin(cfg, s.heap, 0, [], s.clients[c], pc.pos.(p := Current(cfg, pc.pos, pc.curr).base.p, depth := pc.pos.depth + 1));
    }
  }

  lemma ReaderKnows(cfg: Config, s: State, c: nat)
    requires Safe(cfg, s) && Enabled(cfg, s, By(c, ReadBucket)) && NullKnown(cfg, s.heap, s.clients[c].pc)
    ensures var s' := Step(cfg, s, By(c, ReadBucket)); NullKnown(cfg, s'.heap, s'.clients[c].pc)
  {
    hide Exclusive; hide Tree; hide LastIdle; hide PcOK;
  }

  /** Outside of a read the client keeps what it has read, or its operation is done with the bucket. */
  lemma KeeperKnows(cfg: Config, s: State, c: nat, move: Move)
    requires Enabled(cfg, s, By(c, move)) && !move.Begin? && !move.Down? && !move.ReadBucket?
    requires !SetsPointer(cfg, s, By(c, move)) && !Rehashes(cfg, s, By(c, move))
    ensures var s' := Step(cfg, s, By(c, move));
      var pc, pc' := s.clients[c].pc, s'.clients[c].pc;
      Snaps(pc') != [] ==> Snaps(pc') == Snaps(pc) && pc'.pos == pc.pos && Inserting(pc') == Inserting(pc)
  {
    hide Calcify; hide Find; hide Written; hide MustRehash; hide Fetch; hide TryCache; hide SetElist; hide NewElist; hide SetLock;
  }

  /** An insert that sets the pointer is done with the bucket, and a rehash leaves the client a pointer to a PList. */
  lemma WriterKnows(cfg: Config, s: State, c: nat, move: Move)
    requires Enabled(cfg, s, By(c, move)) && (SetsPointer(cfg, s, By(c, move)) || Rehashes(cfg, s, By(c, move)))
    ensures var s' := Step(cfg, s, By(c, move)); NullKnown(cfg, s'.heap, s'.clients[c].pc)
  {
    hide Calcify; hide NewElist; hide Find;
  }

  lemma StayerKnows(cfg: Config, s: State, c: nat, move: Move)
    requires Safe(cfg, s) && Enabled(cfg, s, By(c, move)) && NullKnown(cfg, s.heap, s.clients[c].pc)
    requires !move.Begin? && !move.Down? && !move.ReadBucket?
    requires !SetsPointer(cfg, s, By(c, move)) && !Rehashes(cfg, s, By(c, move))
    ensures var s' := Step(cfg, s, By(c, move)); NullKnown(cfg, s'.heap, s'.clients[c].pc)
  {
    var pc := s.clients[c].pc;
    KeeperKnows(cfg, s, c, move);
    if Snaps(pc) != [] { PointersStay(cfg, s, By(c, move), pc.pos.p, BucketOf(cfg, pc.pos)); }
    assert ClientOK(cfg, s.heap, s.clients[c]);
    hide Step; hide Enabled; hide Tree; hide Exclusive; hide LastIdle; hide SetsPointer; hide Rehashes;
  }

  /** What the client that moves knows afterwards: it has just read the pointer, or knew before. */
  lemma MoverKnows(cfg: Config, s: State, c: nat, move: Move)
    requires cfg.Valid() && Safe(cfg, s) && Enabled(cfg, s, By(c, move)) && NullsKnown(cfg, s)
    ensures var s' := Step(cfg, s, By(c, move)); NullKnown(cfg, s'.heap, s'.clients[c].pc)
  {
    assert NullKnown(cfg, s.heap, s.clients[c].pc);
    hide Safe; hide NullKnown; hide Step; hide Enabled; hide SetsPointer; hide Rehashes;
    if move.Begin? || move.Down? {
      FetcherKnows(cfg, s, c, move);
    } else if move.ReadBucket? {
      ReaderKnows(cfg, s, c);
    } else if SetsPointer(cfg, s, By(c, move)) || Rehashes(cfg, s, By(c, move)) {
      WriterKnows(cfg, s, c, move);
    } else {
      StayerKnows(cfg, s, c, move);
    }
  }

  /** Nobody else sets a pointer while a client inserts. */
  lemma BystanderKnows(cfg: Config, s: State, a: Action, c: nat)
    requires Safe(cfg, s) && Enabled(cfg, s, a) && NullsKnown(cfg, s) && OneInserter(s)
    requires c in s.clients && (a.By? ==> c != a.c)
    ensures var s' := Step(cfg, s, a); c in s'.clients && NullKnown(cfg, s'.heap, s'.clients[c].pc)
  {
    var s' := Step(cfg, s, a);
    var pc := s.clients[c].pc;
    SameClient(cfg, s, a, c);
    hide Safe; hide SameBase; hide Step; hide Enabled; hide NullKnown; hide PcOK;
    assert NullKnown(cfg, s.heap, pc);
    if Snaps(pc) != [] && Inserting(pc) {
      assert PcOK(cfg, s.heap, pc);
      PointersStay(cfg, s, a, pc.pos.p, BucketOf(cfg, pc.pos));
      PointerStays(cfg, s.heap, s'.heap, pc);
    }
  }

  lemma SameClient(cfg: Config, s: State, a: Action, c: nat)
    requires Enabled(cfg, s, a) && c in s.clients && (a.By? ==> c != a.c)
    ensures var s' := Step(cfg, s, a); c in s'.clients && s'.clients[c] == s.clients[c]
    ensures Safe(cfg, s) ==> PcOK(cfg, s.heap, s.clients[c].pc)
  {
    hide PcOK; hide Calcify; hide Fetch; hide TryCache; hide Tree; hide Exclusive; hide LastIdle;
    assert Safe(cfg, s) ==> ClientOK(cfg, s.heap, s.clients[c]);
  }

  lemma PointerStays(cfg: Config, h: Heap, h': Heap, pc: Pc)
    requires NullKnown(cfg, h, pc) && PcOK(cfg, h, pc) && Snaps(pc) != [] && Inserting(pc)
    requires SameBase(h, h', pc.pos.p, BucketOf(cfg, pc.pos))
    ensures NullKnown(cfg, h', pc)
  {}

  lemma NullsStayKnown(cfg: Config, s: State, a: Action)
    requires cfg.Valid() && Safe(cfg, s) && Enabled(cfg, s, a) && NullsKnown(cfg, s) && OneInserter(s)
    ensures NullsKnown(cfg, Step(cfg, s, a))
  {
    hide Safe; hide NullKnown; hide OneInserter; hide ClientOK;
    var s' := Step(cfg, s, a);
    forall c | c in s'.clients ensures NullKnown(cfg, s'.heap, s'.clients[c].pc) {
      if a.By? && c == a.c { MoverKnows(cfg, s, c, a.move); } else { BystanderKnows(cfg, s, a, c); }
    }
  }

  lemma KnownIsFresh(cfg: Config, s: State, a: Action)
    requires Safe(cfg, s) && Enabled(cfg, s, a) && NullsKnown(cfg, s)
    ensures FreshNull(cfg, s, a)
  {
    if SetsPointer(cfg, s, a) { assert NullKnown(cfg, s.heap, s.clients[a.c].pc); }
  }

  lemma {:induction false} NullsAlwaysKnown(cfg: Config, t: seq<State>, acts: seq<Action>, i: nat)
    requires cfg.Valid() && IsRun(cfg, t, acts) && i < |t|
    requires forall j | 0 <= j < i :: OneInserter(t[j])
    ensures NullsKnown(cfg, t[i])
  {
    if i > 0 {
      NullsAlwaysKnown(cfg, t, acts, i - 1);
      RunSafe(cfg, t, acts, i - 1);
      hide Safe; hide NullsKnown; hide OneInserter; hide Step; hide Enabled; hide Init;
      NullsStayKnown(cfg, t[i - 1], acts[i - 1]);
    }
  }

  /** With inserts from one client at a time, and any number of clients that look up and remove, no insert ever
      overwrites a list: every such run is linearizable. */
  lemma OneInserterIsFresh(cfg: Config, t: seq<State>, acts: seq<Action>, i: nat)
    requires cfg.Valid() && IsRun(cfg, t, acts) && i < |t|
    requires forall j | 0 <= j < i :: OneInserter(t[j])
    ensures FreshRun(cfg, t, acts, i) && Linearizable(t[i].history)
  {
    forall j | 0 <= j < i ensures FreshNull(cfg, t[j], acts[j]) {
      NullsAlwaysKnown(cfg, t, acts, j);
      RunSafe(cfg, t, acts, j);
      KnownIsFresh(cfg, t[j], acts[j]);
    }
    IhtIsLinearizable(cfg, t, acts, i);
  }

  // ---------- When an insert does overwrite a list ----------

  /** One such write on its own has the right effect and answer exactly when the list it overwrites is empty. */
  lemma StaleNullInsertRightIff(cfg: Config, h: Heap, m: map<Key, Value>, p: nat, b: nat, k: Key, v: Value)
    requires cfg.Valid() && Tree(cfg, h) && Data(cfg, h) && Abstracts(h, m) && InTree(h, p, b)
    requires !h.plists[p][b].base.PRef? && OnPath(cfg, k, h.paths[p] + [b])
    ensures Abstracts(NewElist(h, p, b, [Pair(k, v)]), Effect(m, Insert(k, v))) && ResultOf(m, Insert(k, v)) == None <==>
      h.plists[p][b].base.Null? || (h.plists[p][b].base.e in h.elists && h.elists[h.plists[p][b].base.e] == [])
  {
    var h' := NewElist(h, p, b, [Pair(k, v)]);
    var base := h.plists[p][b].base;
    LeafLookup(cfg, h, m, p, b, k);
    NewElistElsewhere(cfg, h, p, b, [Pair(k, v)]);
    if base.Null? || h.elists[base.e] == [] {
      forall k', v' ensures Stores(h', k', v') <==> k' in m[k := v] && m[k := v][k'] == v' {
        StoresHereOrElsewhere(h, p, b, k', v');
        StoresHereOrElsewhere(h', p, b, k', v');
        ElsewhereUnchanged(h, h', p, b, k', v');
        assert Stores(h, k', v') <==> k' in m && m[k'] == v';
      }
    } else if k !in m {
      var x := h.elists[base.e][0];
      LostPair(cfg, h, p, b, k, v, x);
      assert x.key in m[k := v] && m[k := v][x.key] == x.val;
    }
  }

  /** The pairs of an overwritten list are stored nowhere afterwards. */
  lemma LostPair(cfg: Config, h: Heap, p: nat, b: nat, k: Key, v: Value, x: Pair)
    requires cfg.Valid() && Tree(cfg, h) && Data(cfg, h) && InTree(h, p, b) && h.plists[p][b].base.ERef?
    requires h.plists[p][b].base.e in h.elists && x in h.elists[h.plists[p][b].base.e] && x != Pair(k, v)
    ensures Stores(h, x.key, x.val) && !Stores(NewElist(h, p, b, [Pair(k, v)]), x.key, x.val)
  {
    var h' := NewElist(h, p, b, [Pair(k, v)]);
    assert DataOK(cfg, h, p, b);
    assert Holds(h, p, b, x.key, x.val);
    NotElsewhere(cfg, h, p, b, x.key, x.val);
    NewElistElsewhere(cfg, h, p, b, [Pair(k, v)]);
    ElsewhereUnchanged(h, h', p, b, x.key, x.val);
    StoresHereOrElsewhere(h', p, b, x.key, x.val);
  }

  /** The first insert of a run that overwrites a list with pairs loses every one of them, but for its own. */
  lemma OverwritingLosesPairs(cfg: Config, t: seq<State>, acts: seq<Action>, i: nat, x: Pair)
    requires cfg.Valid() && IsRun(cfg, t, acts) && i < |acts| && FreshRun(cfg, t, acts, i)
    requires SetsPointer(cfg, t[i], acts[i])
    requires var pos := t[i].clients[acts[i].c].pc.pos;
      Holds(t[i].heap, pos.p, BucketOf(cfg, pos), x.key, x.val) && x != Pair(pos.op.key, pos.op.val)
    ensures !FreshNull(cfg, t[i], acts[i])
    ensures Stores(t[i].heap, x.key, x.val) && !Stores(t[i + 1].heap, x.key, x.val)
  {
    var lin := RunLin(cfg, t, acts, i);
    var pos := t[i].clients[acts[i].c].pc.pos;
    LostPair(cfg, t[i].heap, pos.p, BucketOf(cfg, pos), pos.op.key, pos.op.val, x);
  }
}
