/** The interlocked hash table as one client runs it: descents, cache arrays and in-place updates, refining a
    finite map. */
module IhtSequential {
  import opened Linearizability
  import opened IhtHeap
  import opened IhtUpdates
  import opened IhtCache
  import opened IhtConcurrent
  import opened IhtSafety
  import opened IhtOrder
  import LevelHash

  /** The length of `bucket_path`. */
  const MAX_DEPTH: nat := 8

  // ---------- Keys that share their first eight buckets ----------

  ghost predicate SamePath(cfg: Config, k: Key, k': Key, n: nat) {
    forall i {:trigger cfg.Slot(k', i)} | 1 <= i <= n :: cfg.Slot(k', i) == cfg.Slot(k, i)
  }

  /** The stored keys that share the buckets of `k` at all eight levels. */
  ghost function Crowd(cfg: Config, m: map<Key, Value>, k: Key): set<Key> {
    set k' | k' in m && SamePath(cfg, k, k', MAX_DEPTH)
  }

  ghost function KeySet(es: EList): set<Key> { set i | 0 <= i < |es| :: es[i].key }

  lemma {:induction false} KeySetSize(es: EList)
    ensures |KeySet(es)| <= |es|
    ensures Distinct(es) ==> |KeySet(es)| == |es|
  {
    if es == [] {
      assert KeySet(es) == {};
    } else {
      var n := |es| - 1;
      KeySetSize(es[..n]);
      assert forall i | 0 <= i < n :: es[..n][i] == es[i];
      KeySetNext(es);
      if Distinct(es) {
        assert es[n].key !in KeySet(es[..n]);
      }
    }
  }

  lemma KeySetNext(es: EList)
    requires es != []
    ensures KeySet(es) == KeySet(es[..|es| - 1]) + {es[|es| - 1].key}
  {
    var n := |es| - 1;
    forall k ensures k in KeySet(es) <==> k in KeySet(es[..n]) + {es[n].key} {
      if k in KeySet(es) {
        var i :| 0 <= i < |es| && es[i].key == k;
        assert i < n ==> es[..n][i].key == k;
      }
      if k in KeySet(es[..n]) {
        var i :| 0 <= i < n && es[..n][i].key == k;
        assert es[i].key == k;
      }
    }
  }

  lemma SubsetSize(a: set<Key>, b: set<Key>)
    requires a <= b
    ensures |a| <= |b|
  {
    assert b == a + (b - a);
  }

  lemma OnPathShared(cfg: Config, k: Key, k': Key, path: seq<nat>)
    requires OnPath(cfg, k, path) && SamePath(cfg, k, k', |path|)
    ensures OnPath(cfg, k', path)
  {}

  /** A leaf within the first eight levels holds the whole crowd of a key. */
  lemma CrowdInLeaf(cfg: Config, h: Heap, m: map<Key, Value>, p: nat, b: nat, k: Key)
    requires Tree(cfg, h) && Data(cfg, h) && Abstracts(h, m) && InTree(h, p, b)
    requires !h.plists[p][b].base.PRef? && OnPath(cfg, k, h.paths[p] + [b]) && |h.paths[p]| < MAX_DEPTH
    ensures h.plists[p][b].base.Null? ==> |Crowd(cfg, m, k)| == 0
    ensures h.plists[p][b].base.ERef? ==>
      h.plists[p][b].base.e in h.elists && |Crowd(cfg, m, k)| <= |h.elists[h.plists[p][b].base.e]|
  {
    var base := h.plists[p][b].base;
    LeafLookup(cfg, h, m, p, b, k);
    forall k' | k' in Crowd(cfg, m, k)
      ensures base.ERef? && k' in KeySet(h.elists[base.e])
    {
      assert SamePath(cfg, k, k', |h.paths[p] + [b]|);
      OnPathShared(cfg, k, k', h.paths[p] + [b]);
      LeafLookup(cfg, h, m, p, b, k');
      FindIffMember(h.elists[base.e], k');
      assert Pair(k', m[k']) in h.elists[base.e];
    }
    if base.ERef? {
      KeySetSize(h.elists[base.e]);
      SubsetSize(Crowd(cfg, m, k), KeySet(h.elists[base.e]));
    } else {
      assert Crowd(cfg, m, k) == {};
    }
  }

  lemma SharedPath(cfg: Config, k: Key, k': Key, path: seq<nat>)
    requires OnPath(cfg, k, path) && OnPath(cfg, k', path)
    ensures SamePath(cfg, k, k', |path|)
  {
    forall j {:trigger cfg.Slot(k', j)} | 1 <= j <= |path| ensures cfg.Slot(k', j) == cfg.Slot(k, j) {
      assert path[j - 1] == cfg.Slot(k', j - 1 + 1) && path[j - 1] == cfg.Slot(k, j - 1 + 1);
    }
  }

  /** A full leaf at the last level makes a crowd. */
  lemma FullLeafCrowds(cfg: Config, h: Heap, m: map<Key, Value>, p: nat, b: nat, k: Key)
    requires Tree(cfg, h) && Data(cfg, h) && Abstracts(h, m) && InTree(h, p, b)
    requires h.plists[p][b].base.ERef? && OnPath(cfg, k, h.paths[p] + [b]) && |h.paths[p]| + 1 == MAX_DEPTH
    ensures h.plists[p][b].base.e in h.elists
    ensures |h.elists[h.plists[p][b].base.e]| <= |Crowd(cfg, m, k)|
  {
    assert DataOK(cfg, h, p, b);
    var es := h.elists[h.plists[p][b].base.e];
    var path := h.paths[p] + [b];
    forall k' | k' in KeySet(es) ensures k' in Crowd(cfg, m, k) {
      var i :| 0 <= i < |es| && es[i].key == k';
      assert Holds(h, p, b, k', es[i].val) && Stores(h, k', es[i].val);
      assert es[i] in es && OnPath(cfg, es[i].key, path);
      SharedPath(cfg, k, k', path);
    }
    KeySetSize(es);
    SubsetSize(KeySet(es), Crowd(cfg, m, k));
  }

  // ---------- One visit to a bucket, as a function of the memory ----------

  ghost predicate NoneLocked(h: Heap) {
    forall p, b | p in h.plists && 0 <= b < |h.plists[p]| :: !h.plists[p][b].lock.ELocked?
  }

  /** What holds between operations. */
  ghost predicate Core(cfg: Config, h: Heap, m: map<Key, Value>) {
    && cfg.Valid() && Tree(cfg, h) && Data(cfg, h) && Abstracts(h, m) && LastIdle(h) && NoneLocked(h)
  }

  /** No PList lies deeper than `bucket_path` can name. */
  ghost predicate Shallow(h: Heap) {
    forall p | p in h.paths :: |h.paths[p]| < MAX_DEPTH
  }

  ghost predicate Visitable(cfg: Config, h: Heap, k: Key, p: nat, b: nat) {
    && InTree(h, p, b) && b < |h.plists[p]| - 1
    && !h.plists[p][b].base.PRef?
    && (h.plists[p][b].base.ERef? ==> h.plists[p][b].base.e in h.elists)
    && OnPath(cfg, k, h.paths[p] + [b])
  }

  function Rehashed(cfg: Config, h: Heap, p: nat, b: nat, src: EList): Heap
    requires InTree(h, p, b) && p != h.next
  {
    SetLock(Calcify(cfg, SetLock(h, p, b, ELocked), p, b, src), p, b, PUnlocked)
  }

  predicate Rehashes(cfg: Config, h: Heap, op: Op, p: nat, b: nat)
    requires InTree(h, p, b)
  {
    var base := h.plists[p][b].base;
    base.ERef? && base.e in h.elists && MustRehash(cfg, op, h.elists[base.e])
  }

  /** The memory after locking a bucket, applying the operation and unlocking. */
  function Visited(cfg: Config, h: Heap, op: Op, p: nat, b: nat): Heap
    requires InTree(h, p, b) && p != h.next
  {
    match h.plists[p][b].base
    case PRef(_) => h
    case Null => if op.Insert? then NewElist(h, p, b, [Pair(op.key, op.val)]) else h
    case ERef(e) =>
      if e !in h.elists then h
      else if MustRehash(cfg, op, h.elists[e]) then Rehashed(cfg, h, p, b, h.elists[e])
      else SetElist(h, e, Written(op, h.elists[e]))
  }

  function Answer(h: Heap, op: Op, p: nat, b: nat): Option<Value>
    requires InTree(h, p, b)
  {
    var base := h.plists[p][b].base;
    if base.ERef? && base.e in h.elists then Find(h.elists[base.e], op.key) else None
  }

  lemma RehashedCore(cfg: Config, h: Heap, m: map<Key, Value>, p: nat, b: nat, e: nat)
    requires Core(cfg, h, m) && InTree(h, p, b) && h.plists[p][b].base == ERef(e) && e in h.elists
    requires b < |h.plists[p]| - 1
    ensures var h' := Rehashed(cfg, h, p, b, h.elists[e]); Core(cfg, h', m) && Grows(h, h')
  {
    assert |h.plists[p]| > b;
    hide Tree; hide Data; hide LastIdle; hide Grows; hide Abstracts; hide Calcify; hide NoneLocked;
    var h1 := SetLock(h, p, b, ELocked);
    SetLockKeepsTree(cfg, h, p, b, ELocked);
    SetLockKeepsData(cfg, h, p, b, ELocked);
    SetLockKeepsMap(h, m, p, b, ELocked);
    NotCalcified(cfg, h, p, b);
    LockGrows(h, p, b, ELocked);
    CalcifyKeepsTree(cfg, h1, p, b, h1.elists[e]);
    CalcifyKeepsData(cfg, h1, p, b, e);
    CalcifyStores(cfg, h1, p, b, e);
    CalcifyGrows(cfg, h1, p, b, h1.elists[e]);
    CalcifyLastIdle(cfg, h1, p, b, h1.elists[e]);
    var h2 := Calcify(cfg, h1, p, b, h1.elists[e]);
    SameMap(h1, h2, m);
    CalcifiedBucket(cfg, h1, p, b, h1.elists[e]);
    SetLockKeepsTree(cfg, h2, p, b, PUnlocked);
    SetLockKeepsData(cfg, h2, p, b, PUnlocked);
    SetLockKeepsMap(h2, m, p, b, PUnlocked);
    LockGrows(h2, p, b, PUnlocked);
    GrowsTransitive(h, h1, h2);
    GrowsTransitive(h, h2, SetLock(h2, p, b, PUnlocked));
    RehashedUnlocked(cfg, h, p, b, h.elists[e]);
  }

  lemma NotCalcified(cfg: Config, h: Heap, p: nat, b: nat)
    requires Tree(cfg, h) && InTree(h, p, b) && !h.plists[p][b].base.PRef?
    ensures !h.plists[p][b].lock.PUnlocked?
  {
    assert BucketOK(h, p, b);
  }

  lemma SameMap(h: Heap, h': Heap, m: map<Key, Value>)
    requires Abstracts(h, m) && forall k, v :: Stores(h', k, v) <==> Stores(h, k, v)
    ensures Abstracts(h', m)
  {}

  lemma SetLockKeepsMap(h: Heap, m: map<Key, Value>, p: nat, b: nat, l: Lock)
    requires Abstracts(h, m) && InTree(h, p, b)
    requires forall k, v :: Stores(SetLock(h, p, b, l), k, v) <==> Stores(h, k, v)
    ensures Abstracts(SetLock(h, p, b, l), m)
  {}

  lemma CalcifiedBucket(cfg: Config, h: Heap, p: nat, b: nat, src: EList)
    requires Tree(cfg, h) && InTree(h, p, b)
    ensures var h' := Calcify(cfg, h, p, b, src);
      && InTree(h', p, b) && |h'.plists[p]| == |h.plists[p]|
      && h'.plists[p][b] == h.plists[p][b].(base := PRef(h.next))
  {}

  lemma RehashedUnlocked(cfg: Config, h: Heap, p: nat, b: nat, src: EList)
    requires Tree(cfg, h) && InTree(h, p, b) && NoneLocked(h)
    ensures NoneLocked(Rehashed(cfg, h, p, b, src))
    ensures InTree(Rehashed(cfg, h, p, b, src), p, b)
    ensures Rehashed(cfg, h, p, b, src).plists[p] == h.plists[p][b := Bucket(PRef(h.next), PUnlocked)]
    ensures Rehashed(cfg, h, p, b, src).paths == h.paths[h.next := h.paths[p] + [b]]
  {
    hide Links; hide Buckets; hide Part;
  }

  lemma SetElistCore(cfg: Config, h: Heap, m: map<Key, Value>, op: Op, p: nat, b: nat, e: nat)
    requires Core(cfg, h, m) && Visitable(cfg, h, op.key, p, b) && h.plists[p][b].base == ERef(e)
    requires !MustRehash(cfg, op, h.elists[e])
    ensures var h' := SetElist(h, e, Written(op, h.elists[e]));
      Core(cfg, h', Effect(m, op)) && Grows(h, h') && h'.plists == h.plists && h'.paths == h.paths
  {
    hide Tree; hide Data; hide LastIdle; hide Grows; hide Abstracts; hide Effect;
    WrittenStores(cfg, h, m, p, b, e, op);
    SetElistKeepsTree(cfg, h, e, Written(op, h.elists[e]));
    SetElistGrows(h, e, Written(op, h.elists[e]));
  }

  lemma NewElistCore(cfg: Config, h: Heap, m: map<Key, Value>, p: nat, b: nat, k: Key, v: Value)
    requires Core(cfg, h, m) && Visitable(cfg, h, k, p, b) && h.plists[p][b].base.Null?
    ensures var h' := NewElist(h, p, b, [Pair(k, v)]);
      Core(cfg, h', Effect(m, Insert(k, v))) && Grows(h, h') && h'.paths == h.paths
  {
    hide Tree; hide Data; hide LastIdle; hide Grows; hide Abstracts;
    NewElistStores(cfg, h, p, b, k, v, m);
    NewElistKeepsTree(cfg, h, p, b, [Pair(k, v)]);
    NewElistGrows(cfg, h, p, b, [Pair(k, v)]);
  }

  lemma NothingThere(cfg: Config, h: Heap, m: map<Key, Value>, op: Op, p: nat, b: nat)
    requires Core(cfg, h, m) && Visitable(cfg, h, op.key, p, b)
    ensures Answer(h, op, p, b) == ResultOf(m, op)
    ensures h.plists[p][b].base.Null? && !op.Insert? ==> Effect(m, op) == m
    ensures Rehashes(cfg, h, op, p, b) ==> op.key !in m
  {
    LeafLookup(cfg, h, m, p, b, op.key);
  }

  /** A visit answers as the map does and changes the stored map as the operation does, unless it rehashes:
      then the map stays and the bucket leads on. */
  lemma VisitCore(cfg: Config, h: Heap, m: map<Key, Value>, op: Op, p: nat, b: nat)
    requires Core(cfg, h, m) && Visitable(cfg, h, op.key, p, b) && p != h.next
    ensures var h' := Visited(cfg, h, op, p, b);
      && Grows(h, h') && h'.root == h.root
      && (if Rehashes(cfg, h, op, p, b)
          then Core(cfg, h', m) && h'.plists[p] == h.plists[p][b := Bucket(PRef(h.next), PUnlocked)]
            && h'.paths == h.paths[h.next := h.paths[p] + [b]] && op.key !in m
          else Core(cfg, h', Effect(m, op)) && Answer(h, op, p, b) == ResultOf(m, op) && h'.paths == h.paths)
  {
    hide Tree; hide Data; hide LastIdle; hide Grows; hide Abstracts; hide NoneLocked; hide Effect; hide ResultOf;
    NothingThere(cfg, h, m, op, p, b);
    match h.plists[p][b].base
    case Null =>
      if op.Insert? { NewElistCore(cfg, h, m, p, b, op.key, op.val); } else { GrowsReflexive(h); }
    case ERef(e) =>
      if MustRehash(cfg, op, h.elists[e]) {
        RehashedCore(cfg, h, m, p, b, e);
        CoreUnlocked(cfg, h, m, p, b, h.elists[e]);
      } else {
        SetElistCore(cfg, h, m, op, p, b, e);
      }
  }

  lemma CoreUnlocked(cfg: Config, h: Heap, m: map<Key, Value>, p: nat, b: nat, src: EList)
    requires Core(cfg, h, m) && InTree(h, p, b) && p != h.next
    ensures InTree(Rehashed(cfg, h, p, b, src), p, b)
    ensures Rehashed(cfg, h, p, b, src).plists[p] == h.plists[p][b := Bucket(PRef(h.next), PUnlocked)]
    ensures Rehashed(cfg, h, p, b, src).paths == h.paths[h.next := h.paths[p] + [b]]
  {
    hide Data; hide LastIdle; hide Abstracts;
    RehashedUnlocked(cfg, h, p, b, src);
  }

  // ---------- The caches ----------

  predicate AllCalcified(x: PList) {
    forall i | 0 <= i < |x| - 1 :: x[i].lock.PUnlocked?
  }

  ghost predicate CopyOK(h: Heap, p: nat, x: PList) {
    p in h.plists && x == h.plists[p] && AllCalcified(x)
  }

  /** Every cached PList equals the PList it stands for: the root, or the one under bucket `i` of the root. */
  ghost predicate CachesOK(h: Heap, l1: seq<Option<PList>>, l2: seq<Option<PList>>) {
    && h.root in h.plists
    && (forall i | 0 <= i < |l1| && l1[i].Some? :: CopyOK(h, h.root, l1[i].value))
    && (forall i | 0 <= i < |l2| && l2[i].Some? ::
          && i < |h.plists[h.root]| && h.plists[h.root][i].base.PRef?
          && CopyOK(h, h.plists[h.root][i].base.p, l2[i].value))
  }

  lemma CopyStable(h: Heap, h': Heap, p: nat, x: PList)
    requires CopyOK(h, p, x) && Grows(h, h') && LastIdle(h) && LastIdle(h')
    ensures CopyOK(h', p, x)
  {
    forall i | 0 <= i < |x| ensures x[i] == h'.plists[p][i] {
      assert BucketGrows(h.plists[p][i], h'.plists[p][i]);
    }
  }

  lemma CachesStable(h: Heap, h': Heap, l1: seq<Option<PList>>, l2: seq<Option<PList>>)
    requires CachesOK(h, l1, l2) && Grows(h, h') && LastIdle(h) && LastIdle(h') && h'.root == h.root
    ensures CachesOK(h', l1, l2)
  {
    hide LastIdle; hide CopyOK;
    forall i | 0 <= i < |l1| && l1[i].Some? ensures CopyOK(h', h'.root, l1[i].value) {
      CopyStable(h, h', h.root, l1[i].value);
    }
    forall i | 0 <= i < |l2| && l2[i].Some?
      ensures i < |h'.plists[h.root]| && h'.plists[h.root][i].base == h.plists[h.root][i].base
      ensures CopyOK(h', h.plists[h.root][i].base.p, l2[i].value)
    {
      assert BucketGrows(h.plists[h.root][i], h'.plists[h.root][i]);
      CopyStable(h, h', h.plists[h.root][i].base.p, l2[i].value);
    }
  }

  /** The bucket path `path`, padded with -1. */
  ghost predicate IsPath(a: seq<int>, path: seq<nat>) {
    && |a| == MAX_DEPTH && |path| <= MAX_DEPTH
    && (forall i | 0 <= i < |path| :: a[i] == path[i])
    && (forall i | |path| <= i < MAX_DEPTH :: a[i] == -1)
  }

  /** The PList that a cache slot stands for is the one at the end of the path that names the slot. */
  lemma PathToSlot(cfg: Config, h: Heap, p: nat)
    requires Tree(cfg, h) && p in h.plists
    ensures |h.paths[p]| == 0 ==> p == h.root
    ensures |h.paths[p]| == 1 ==>
      h.paths[p][0] < |h.plists[h.root]| && h.plists[h.root][h.paths[p][0]].base == PRef(p)
  {
    if |h.paths[p]| == 0 {
      PathUnique(cfg, h, p, h.root);
    } else if |h.paths[p]| == 1 {
      assert Linked(h, p);
      PathUnique(cfg, h, h.up[p], h.root);
    }
  }

  lemma IndexOfOne(pSize: nat, path: seq<nat>)
    requires |path| == 1
    ensures CacheIndex(pSize, path) == path[0]
  {
    assert path[..0] == [];
    assert CacheIndex(pSize, path[..0]) == 0;
  }

  lemma AtIndex(es: EList, i: nat, k: Key)
    requires Distinct(es) && i < |es| && es[i].key == k
    ensures i == IndexOf(es, k) && Find(es, k) == Some(es[i].val)
  {
    IndexMissing(es, k);
    FindIffMember(es, k);
    assert Pair(k, es[i].val) == es[i];
  }

  // ---------- The rehash loop ----------

  /** `next` is `now` with one more pair: only the part of its bucket grows. */
  ghost predicate OneMore(cfg: Config, d: nat, now: EList, next: EList, x: Pair) {
    forall j: nat {:trigger Part(cfg, next, d, j)} ::
      Part(cfg, next, d, j) == if j == cfg.Slot(x.key, d) then Part(cfg, now, d, j) + [x] else Part(cfg, now, d, j)
  }

  lemma PartNext(cfg: Config, src: EList, d: nat, i: nat)
    requires i < |src|
    ensures OneMore(cfg, d, src[..i], src[..i + 1], src[i])
  {
    assert src[..i + 1][..i] == src[..i];
  }

  lemma ChildPListNext(cfg: Config, h: Heap, p: nat, now: EList, next: EList, x: Pair, b: nat)
    requires p in h.paths && OneMore(cfg, |h.paths[p]| + 2, now, next, x)
    requires b == cfg.Slot(x.key, |h.paths[p]| + 2) && b < ChildSize(cfg, h, p)
    ensures ChildPList(cfg, h, p, next) == ChildPList(cfg, h, p, now)[b := Bucket(ERef(h.next + 1 + b), EUnlocked)]
  {
    hide Part;
    var l, r := ChildPList(cfg, h, p, next), ChildPList(cfg, h, p, now)[b := Bucket(ERef(h.next + 1 + b), EUnlocked)];
    assert |l| == |r|;
    forall j | 0 <= j < |l| ensures l[j] == r[j] {}
  }

  lemma ChildElistsNext(cfg: Config, h: Heap, p: nat, now: EList, next: EList, x: Pair, b: nat)
    requires p in h.paths && OneMore(cfg, |h.paths[p]| + 2, now, next, x)
    requires b == cfg.Slot(x.key, |h.paths[p]| + 2) && b < ChildSize(cfg, h, p)
    ensures ChildElists(cfg, h, p, next) ==
      ChildElists(cfg, h, p, now)[h.next + 1 + b := Part(cfg, now, |h.paths[p]| + 2, b) + [x]]
  {
    hide Part;
    var l := ChildElists(cfg, h, p, next);
    var r := ChildElists(cfg, h, p, now)[h.next + 1 + b := Part(cfg, now, |h.paths[p]| + 2, b) + [x]];
    forall e: nat ensures (e in l <==> e in r) && (e in l ==> l[e] == r[e]) {
      assert IsChild(cfg, h, p, e) ==> (e - h.next - 1 == b <==> e == h.next + 1 + b);
    }
  }

  lemma EmptyChildren(cfg: Config, h: Heap, p: nat)
    requires p in h.paths
    ensures ChildPList(cfg, h, p, []) == seq(ChildSize(cfg, h, p), _ => Bucket(Null, EUnlocked))
    ensures ChildElists(cfg, h, p, []) == map[]
  {}

  lemma ChildListAt(cfg: Config, h: Heap, p: nat, src: EList, i: nat)
    requires p in h.paths && i < ChildSize(cfg, h, p)
    ensures ChildPList(cfg, h, p, src)[i].lock.EUnlocked?
    ensures ChildPList(cfg, h, p, src)[i].base.Null? <==> h.next + 1 + i !in ChildElists(cfg, h, p, src)
    ensures ChildPList(cfg, h, p, src)[i].base.Null? ==> Part(cfg, src, |h.paths[p]| + 2, i) == []
    ensures !ChildPList(cfg, h, p, src)[i].base.Null? ==>
      && ChildPList(cfg, h, p, src)[i].base == ERef(h.next + 1 + i)
      && ChildElists(cfg, h, p, src)[h.next + 1 + i] == Part(cfg, src, |h.paths[p]| + 2, i)
  {
    hide Part;
    assert IsChild(cfg, h, p, h.next + 1 + i);
  }

  /** One turn of the loop: the list of bucket `k` is made if it is missing, and gets the next pair. */
  lemma ChildrenNext(cfg: Config, h: Heap, p: nat, src: EList, i: nat, k: nat)
    requires p in h.paths && i < |src|
    requires k == cfg.Slot(src[i].key, |h.paths[p]| + 2) && k < ChildSize(cfg, h, p)
    ensures k < |ChildPList(cfg, h, p, src[..i])|
    ensures var here := ChildPList(cfg, h, p, src[..i])[k]; var lists := ChildElists(cfg, h, p, src[..i]);
      && (!here.base.Null? ==> h.next + 1 + k in lists && here == Bucket(ERef(h.next + 1 + k), EUnlocked))
      && ChildPList(cfg, h, p, src[..i + 1]) == ChildPList(cfg, h, p, src[..i])[k := Bucket(ERef(h.next + 1 + k), EUnlocked)]
      && ChildElists(cfg, h, p, src[..i + 1]) ==
           lists[h.next + 1 + k := (if here.base.Null? then [] else lists[h.next + 1 + k]) + [src[i]]]
  {
    PartNext(cfg, src, |h.paths[p]| + 2, i);
    ChildPListNext(cfg, h, p, src[..i], src[..i + 1], src[i], k);
    ChildElistsNext(cfg, h, p, src[..i], src[..i + 1], src[i], k);
    ChildListAt(cfg, h, p, src[..i], k);
    hide ChildElists; hide OneMore; hide Part;
  }

  /** The new PList and its lists go to fresh addresses. */
  function Install(cfg: Config, h: Heap, p: nat, b: nat, newP: PList, lists: map<nat, EList>): Heap
    requires InTree(h, p, b)
  {
    var q, n := h.next, |newP|;
    Heap(h.root, h.plists[p := h.plists[p][b := h.plists[p][b].(base := PRef(q))]][q := newP], h.elists + lists, q + 1 + n,
         h.paths[q := h.paths[p] + [b]], h.up[q := p],
         h.home + (map e: nat | 0 <= e < q + 1 + n && IsChild(cfg, h, p, e) :: (q, e - q - 1)))
  }

  lemma InstallCalcified(cfg: Config, h: Heap, p: nat, b: nat, src: EList)
    requires InTree(h, p, b)
    ensures Install(cfg, h, p, b, ChildPList(cfg, h, p, src), ChildElists(cfg, h, p, src)) == Calcify(cfg, h, p, b, src)
  {
    hide Part;
  }

  // ---------- Locking, applying, unlocking ----------

  lemma CalcifyInTree(cfg: Config, h: Heap, p: nat, b: nat, src: EList)
    requires InTree(h, p, b) && p != h.next
    ensures InTree(Calcify(cfg, h, p, b, src), p, b)
  {}

  // ---------- One turn of the descent ----------

  /** Where a descent for `k` stands. */
  ghost predicate Standing(cfg: Config, h: Heap, k: Key, p: nat, depth: nat) {
    && depth >= 1
    && p in h.plists && p in h.paths
    && |h.paths[p]| == depth - 1 && |h.plists[p]| == cfg.Size(depth)
    && OnPath(cfg, k, h.paths[p])
  }

  lemma RootStanding(cfg: Config, h: Heap, m: map<Key, Value>, k: Key)
    requires Core(cfg, h, m)
    ensures Standing(cfg, h, k, h.root, 1)
  {}

  /** A calcified bucket leads to the next PList of the path; any other can be visited. */
  lemma Turn(cfg: Config, h: Heap, m: map<Key, Value>, k: Key, p: nat, depth: nat)
    requires Core(cfg, h, m) && Standing(cfg, h, k, p, depth)
    ensures cfg.Valid() && cfg.Slot(k, depth) < |h.plists[p]| - 1
    ensures var b := cfg.Slot(k, depth);
      if h.plists[p][b].lock.PUnlocked?
      then h.plists[p][b].base.PRef? && Standing(cfg, h, k, h.plists[p][b].base.p, depth + 1)
        && h.paths[h.plists[p][b].base.p] == h.paths[p] + [b]
      else h.plists[p][b].lock.EUnlocked? && Visitable(cfg, h, k, p, b) && p != h.next
    ensures var base := h.plists[p][cfg.Slot(k, depth)].base;
      base.ERef? ==> base.e in h.elists && |h.elists[base.e]| <= cfg.eSize && Distinct(h.elists[base.e])
  {
    hide Abstracts; hide LastIdle; hide Links;
    SlotInRange(cfg, k, depth);
    var b := cfg.Slot(k, depth);
    assert BucketOK(h, p, b) && DataOK(cfg, h, p, b);
    var path := h.paths[p] + [b];
    forall i | 0 <= i < |path| ensures path[i] == cfg.Slot(k, i + 1) {
      assert i < |path| - 1 ==> path[i] == h.paths[p][i];
    }
  }

  lemma VisitCaches(cfg: Config, h: Heap, m: map<Key, Value>, op: Op, p: nat, b: nat,
                    l1: seq<Option<PList>>, l2: seq<Option<PList>>)
    requires Core(cfg, h, m) && Visitable(cfg, h, op.key, p, b) && p != h.next && CachesOK(h, l1, l2)
    ensures CachesOK(Visited(cfg, h, op, p, b), l1, l2)
  {
    hide Tree; hide Data; hide Abstracts; hide LastIdle; hide CachesOK; hide Effect; hide Grows; hide Written; hide Calcify;
    VisitCore(cfg, h, m, op, p, b);
    CachesStable(h, Visited(cfg, h, op, p, b), l1, l2);
  }

  lemma NotShallow(cfg: Config, h: Heap, k: Key, p: nat)
    requires Standing(cfg, h, k, p, MAX_DEPTH + 1)
    ensures !Shallow(h)
  {}

  lemma StandingStays(cfg: Config, h: Heap, h': Heap, k: Key, p: nat, depth: nat)
    requires Standing(cfg, h, k, p, depth) && Grows(h, h')
    ensures Standing(cfg, h', k, p, depth) && h'.paths[p] == h.paths[p]
  {}

  /** Keys other than `k` that crowd it out: it is absent, and too many stored keys share its first eight buckets. */
  ghost predicate Crowded(cfg: Config, m: map<Key, Value>, op: Op) {
    op.Insert? && op.key !in m && |Crowd(cfg, m, op.key)| >= cfg.eSize
  }

  /** A visit that finishes shows that the key was not crowded out; one that rehashes at the last level shows
      that it was, and one above it leaves room below. */
  lemma VisitCrowd(cfg: Config, h: Heap, m: map<Key, Value>, op: Op, p: nat, b: nat)
    requires Core(cfg, h, m) && Visitable(cfg, h, op.key, p, b) && p != h.next
    requires |h.paths[p]| < MAX_DEPTH && Shallow(h)
    ensures !Rehashes(cfg, h, op, p, b) ==> !Crowded(cfg, m, op) && Shallow(Visited(cfg, h, op, p, b))
    ensures Rehashes(cfg, h, op, p, b) ==>
      if |h.paths[p]| + 1 == MAX_DEPTH then Crowded(cfg, m, op) else Shallow(Visited(cfg, h, op, p, b))
  {
    hide Tree; hide Data; hide Abstracts; hide LastIdle; hide Crowd; hide Effect; hide Grows;
    VisitCore(cfg, h, m, op, p, b);
    NothingThere(cfg, h, m, op, p, b);
    CrowdInLeaf(cfg, h, m, p, b, op.key);
    if Rehashes(cfg, h, op, p, b) && |h.paths[p]| + 1 == MAX_DEPTH { FullLeafCrowds(cfg, h, m, p, b, op.key); }
  }

  // ---------- The table object ----------

  class RdmaIHT {
    const cfg: Config
    const cacheDepth: nat
    const layer1: array<Option<PList>>
    const layer2: array<Option<PList>>
    const tempElist: array<Pair>
    var heap: Heap
    ghost var contents: map<Key, Value>

    ghost predicate Layout() {
      && layer1 != layer2 && layer1.Length == 1 && layer2.Length == cfg.pSize && cacheDepth <= 2
      && tempElist.Length == cfg.eSize
    }

    ghost predicate CachesValid()
      reads this, layer1, layer2
    {
      Layout() && CachesOK(heap, layer1[..], layer2[..])
    }

    ghost predicate Valid()
      reads this, layer1, layer2
    {
      Core(cfg, heap, contents) && Shallow(heap) && CachesValid()
    }

    /** The source refuses a PList that does not fill whole cache lines of four buckets. */
    constructor (cfg: Config, cacheDepth: nat)
      requires cfg.Valid() && cfg.pSize % 4 == 0 && cacheDepth <= 2
      ensures Valid() && contents == map[] && fresh(layer1) && fresh(layer2) && fresh(tempElist)
      ensures this.cfg == cfg && this.cacheDepth == cacheDepth
    {
      this.cfg, this.cacheDepth := cfg, cacheDepth;
      layer1 := new Option<PList>[1](_ => None);
      layer2 := new Option<PList>[cfg.pSize](_ => None);
      tempElist := new Pair[cfg.eSize](_ => Pair(0, 0));
      heap := InitHeap(cfg);
      contents := map[];
      new;
      InitTree(cfg);
    }

    /** The cached PList that a slot holds. */
    ghost function CacheAt(slot: Option<(nat, nat)>): (x: Option<PList>)
      reads layer1, layer2
    {
      match slot
      case None => None
      case Some((layer, i)) =>
        if layer == 0 && i < layer1.Length then layer1[i]
        else if layer == 1 && i < layer2.Length then layer2[i]
        else None
    }

    /** The layer and index of the bucket path, or no layer when that depth is not cached. */
    method FindSlot(bucketPath: array<int>, ghost path: seq<nat>) returns (cached: bool, layer: nat, index: nat, count: nat)
      requires Layout() && IsPath(bucketPath[..], path)
      ensures cached <==> |path| < cacheDepth
      ensures cached ==> CacheSlot(cfg.pSize, cacheDepth, path) == Some((layer, index)) && layer == |path|
      ensures cached ==> count == cfg.Size(|path| + 1)
    {
      var i := 0;
      index, count := 0, cfg.pSize;
      while i < MAX_DEPTH
        invariant 0 <= i <= |path| && i <= cacheDepth
        invariant index == CacheIndex(cfg.pSize, path[..i])
        invariant count == cfg.Size(i + 1)
      {
        if i == cacheDepth { return false, i, 0, count; }
        if bucketPath[i] == -1 { break; }
        assert bucketPath[..][i] == bucketPath[i];
        assert path[..i + 1][..i] == path[..i];
        index := index * LayerFactor(cfg.pSize, i) + bucketPath[i];
        count := count * 2;
        i := i + 1;
      }
      assert i < MAX_DEPTH ==> bucketPath[..][i] == bucketPath[i];
      assert path[..i] == path;
      return true, i, index, count;
    }

    ghost predicate Findable(path: seq<nat>) { |path| == 1 ==> path[0] < cfg.pSize }

    /** `fetch_cache`. */
    method FetchCache(bucketPath: array<int>, ghost path: seq<nat>) returns (found: Option<PList>)
      requires Layout() && IsPath(bucketPath[..], path) && Findable(path)
      ensures found == CacheAt(CacheSlot(cfg.pSize, cacheDepth, path))
    {
      var cached, layer, index, _ := FindSlot(bucketPath, path);
      if !cached { return None; }
      if |path| == 1 { IndexOfOne(cfg.pSize, path); }
      if layer == 0 { return layer1[index]; } else { return layer2[index]; }
    }

    /** `try_cache`: a PList whose buckets, all but the last, are calcified is copied into its empty slot. */
    method TryCache(plist: PList, bucketPath: array<int>, ghost path: seq<nat>) returns (kept: bool)
      requires Layout() && IsPath(bucketPath[..], path) && Findable(path) && |plist| == cfg.Size(|path| + 1)
      modifies layer1, layer2
      ensures kept <==> |path| < cacheDepth && AllCalcified(plist) && old(CacheAt(CacheSlot(cfg.pSize, cacheDepth, path))).None?
      ensures layer1[..] == if kept && |path| == 0 then [Some(plist)] else old(layer1[..])
      ensures layer2[..] == if kept && |path| == 1 then old(layer2[..])[path[0] := Some(plist)] else old(layer2[..])
    {
      var cached, layer, index, count := FindSlot(bucketPath, path);
      if !cached { return false; }
      if |path| == 1 { IndexOfOne(cfg.pSize, path); }
      if (if layer == 0 then layer1[index] else layer2[index]).Some? { return false; }
      var i := 0;
      while i < count - 1
        invariant 0 <= i && forall j | 0 <= j < i && j < |plist| :: plist[j].lock.PUnlocked?
      {
        if plist[i].lock != PUnlocked { return false; }
        i := i + 1;
      }
      if layer == 0 { layer1[index] := Some(plist); } else { layer2[index] := Some(plist); }
      return true;
    }

    /** The PList at an address, from the cache or by a read that may fill the cache. */
    method Fetch(p: nat, bucketPath: array<int>, ghost path: seq<nat>) returns (curr: PList)
      requires Layout() && CachesValid() && Core(cfg, heap, contents) && p in heap.plists && heap.paths[p] == path
      requires IsPath(bucketPath[..], path)
      modifies layer1, layer2
      ensures curr == heap.plists[p] && CachesValid()
    {
      hide Data; hide Abstracts; hide LastIdle; hide NoneLocked; hide Buckets; hide Links; hide CacheIndex;
      PathToSlot(cfg, heap, p);
      if |path| == 1 { IndexOfOne(cfg.pSize, path); }
      var found := FetchCache(bucketPath, path);
      if found == None {
        curr := heap.plists[p];
        var _ := TryCache(curr, bucketPath, path);
      } else {
        curr := found.value;
      }
    }

    /** The compare-and-swap on the lock of a bucket. */
    method CompareAndSwap(p: nat, b: nat, expected: Lock, desired: Lock) returns (v: Lock)
      requires InTree(heap, p, b)
      modifies this`heap
      ensures v == old(heap).plists[p][b].lock
      ensures heap == if v == expected then SetLock(old(heap), p, b, desired) else old(heap)
    {
      v := heap.plists[p][b].lock;
      if v == expected { heap := SetLock(heap, p, b, desired); }
    }

    /** `acquire`: true with the lock, false when the bucket is calcified. */
    method Acquire(p: nat, b: nat) returns (locked: bool)
      requires InTree(heap, p, b) && !heap.plists[p][b].lock.ELocked?
      modifies this`heap
      ensures locked <==> old(heap).plists[p][b].lock.EUnlocked?
      ensures heap == if locked then SetLock(old(heap), p, b, ELocked) else old(heap)
    {
      var v := ELocked;
      while v.ELocked?
        invariant v.ELocked? ==> heap == old(heap)
        invariant !v.ELocked? ==> v == old(heap).plists[p][b].lock
        invariant !v.ELocked? ==> heap == if v.EUnlocked? then SetLock(old(heap), p, b, ELocked) else old(heap)
        decreases v.ELocked?
      {
        v := CompareAndSwap(p, b, EUnlocked, ELocked);
      }
      return v.EUnlocked?;
    }

    /** The read of an EList into the landing buffer. */
    method ReadElist(e: nat) returns (count: nat)
      requires Layout() && e in heap.elists && |heap.elists[e]| <= cfg.eSize
      modifies tempElist
      ensures count == |heap.elists[e]| && tempElist[..count] == heap.elists[e]
    {
      var es := heap.elists[e];
      count := |es|;
      forall i | 0 <= i < count { tempElist[i] := es[i]; }
    }

    /** The linear search of `contains` and `insert`. */
    method Search(count: nat, k: Key) returns (result: Option<Value>)
      requires count <= tempElist.Length
      ensures result == Find(tempElist[..count], k)
    {
      ghost var es := tempElist[..count];
      var i := 0;
      while i < count
        invariant 0 <= i <= count && Find(es, k) == Find(es[i..], k)
      {
        assert es[i..][0] == tempElist[i] && es[i..][1..] == es[i + 1..];
        if tempElist[i].key == k { return Some(tempElist[i].val); }
        i := i + 1;
      }
      return None;
    }

    /** The search of `remove`: the last pair replaces the one found, and the loop goes on. */
    method SearchAndRemove(count: nat, k: Key) returns (result: Option<Value>, count': nat)
      requires count <= tempElist.Length && Distinct(tempElist[..count])
      modifies tempElist
      ensures count' <= count && tempElist[..count'] == Without(old(tempElist[..count]), k)
      ensures result == Find(old(tempElist[..count]), k)
    {
      ghost var es := tempElist[..count];
      WithoutRemoves(es, k);
      IndexMissing(es, k);
      FindIffMember(es, k);
      var i := 0;
      result, count' := None, count;
      while i < count'
        invariant 0 <= i <= count' + 1 && count' <= count
        invariant result.None? ==> i <= count' == count && tempElist[..count] == es && forall j | 0 <= j < i :: es[j].key != k
        invariant result.Some? ==> result == Find(es, k) && tempElist[..count'] == Without(es, k)
        invariant result.Some? ==> forall j | 0 <= j < count' :: tempElist[j].key != k
      {
        var kv := tempElist[i];
        if kv.key == k {
          AtIndex(es, i, k);
          result := Some(kv.val);
          if count' > 1 { tempElist[i] := tempElist[count' - 1]; }
          count' := count' - 1;
          assert tempElist[..count'] == Without(es, k);
          assert forall j | 0 <= j < count' :: tempElist[j] in tempElist[..count'];
        }
        i := i + 1;
      }
    }

    /** `rehash`, and the pointer of the bucket set to the new PList. */
    method Rehash(p: nat, b: nat, pcount: nat, pdepth: nat, src: EList)
      requires cfg.Valid() && InTree(heap, p, b) && pdepth == |heap.paths[p]| + 1 && pcount == cfg.Size(pdepth)
      modifies this`heap
      ensures heap == Calcify(cfg, old(heap), p, b, src)
    {
      hide Part; hide ChildPList; hide ChildElists; hide Calcify;
      var count := pcount * 2;
      var h := heap;
      var newP := new Bucket[count](_ => Bucket(Null, EUnlocked));
      var lists: map<nat, EList> := map[];
      var i := 0;
      EmptyChildren(cfg, h, p);
      assert newP[..] == ChildPList(cfg, h, p, src[..0]);
      while i < |src|
        invariant 0 <= i <= |src| && heap == h
        invariant newP.Length == count && fresh(newP)
        invariant newP[..] == ChildPList(cfg, h, p, src[..i])
        invariant lists == ChildElists(cfg, h, p, src[..i])
      {
        var k := cfg.hash(src[i].key, pdepth + 1, count);
        SlotInRange(cfg, src[i].key, pdepth + 1);
        ChildrenNext(cfg, h, p, src, i, k);
        var dest := h.next + 1 + k;
        if newP[k].base.Null? {
          newP[k] := Bucket(ERef(dest), EUnlocked);
          lists := lists[dest := []];
        }
        lists := lists[dest := lists[dest] + [src[i]]];
        i := i + 1;
      }
      assert src[..i] == src;
      InstallCalcified(cfg, h, p, b, src);
      heap := Install(cfg, h, p, b, newP[..], lists);
    }

    /** Work on the EList that a locked bucket points to: `apply` for each operation. */
    method ApplyToList(op: Op, p: nat, b: nat, e: nat, count: nat, depth: nat) returns (done: bool, result: Option<Value>)
      requires cfg.Valid() && Layout() && InTree(heap, p, b) && heap.plists[p][b].base == ERef(e) && e in heap.elists
      requires |heap.elists[e]| <= cfg.eSize && Distinct(heap.elists[e])
      requires depth == |heap.paths[p]| + 1 && count == cfg.Size(depth)
      modifies this`heap, tempElist
      ensures var es := old(heap).elists[e];
        if MustRehash(cfg, op, es) then !done && heap == Calcify(cfg, old(heap), p, b, es)
        else done && heap == SetElist(old(heap), e, Written(op, es)) && result == Find(es, op.key)
    {
      hide Calcify; hide Without;
      ghost var es := heap.elists[e];
      var n := ReadElist(e);
      assert SetElist(heap, e, es) == heap by { assert heap.elists[e := es] == heap.elists; }
      if op.Remove? {
        var n';
        result, n' := SearchAndRemove(n, op.key);
        if result.Some? { heap := SetElist(heap, e, tempElist[..n']); }
        return true, result;
      }
      result := Search(n, op.key);
      if op.Contains? || result.Some? { return true, result; }
      if n < cfg.eSize {
        tempElist[n] := Pair(op.key, op.val);
        assert tempElist[..n + 1] == es + [Pair(op.key, op.val)];
        heap := SetElist(heap, e, tempElist[..n + 1]);
        return true, None;
      }
      Rehash(p, b, count, depth, tempElist[..n]);
      return false, None;
    }

    /** Lock a bucket, apply the operation, unlock. `false`: the bucket is calcified now. The pointer is the one read
        before locking, as in the source; with one client it is still the current one. */
    method Visit(op: Op, p: nat, b: nat, curr: PList, count: nat, depth: nat) returns (done: bool, result: Option<Value>)
      requires p in heap.plists && curr == heap.plists[p]
      requires cfg.Valid() && Layout() && Visitable(cfg, heap, op.key, p, b) && p != heap.next
      requires heap.plists[p][b].lock.EUnlocked?
      requires heap.plists[p][b].base.ERef? ==>
        |heap.elists[heap.plists[p][b].base.e]| <= cfg.eSize && Distinct(heap.elists[heap.plists[p][b].base.e])
      requires depth == |heap.paths[p]| + 1 && count == cfg.Size(depth)
      modifies this`heap, tempElist
      ensures heap == Visited(cfg, old(heap), op, p, b)
      ensures done <==> !Rehashes(cfg, old(heap), op, p, b)
      ensures done ==> result == Answer(old(heap), op, p, b)
    {
      hide Calcify; hide Written; hide OnPath;
      ghost var h := heap;
      var locked := Acquire(p, b);
      assert locked;  // nobody else can have calcified the bucket since it was read, so there is nothing to read again
      match curr[b].base {
        case ERef(e) =>
          done, result := ApplyToList(op, p, b, e, count, depth);
          CalcifyInTree(cfg, SetLock(h, p, b, ELocked), p, b, h.elists[e]);
          LockSetElistUnlock(h, p, b, e, Written(op, h.elists[e]));
        case Null =>
          if op.Insert? {
            heap := NewElist(heap, p, b, [Pair(op.key, op.val)]);
            LockNewElistUnlock(h, p, b, [Pair(op.key, op.val)]);
          } else {
            LockUnlock(h, p, b);
          }
          done, result := true, None;
      }
      heap := SetLock(heap, p, b, if done then EUnlocked else PUnlocked);
    }

    /** `do_with`: descend to the bucket that decides about the key and apply the operation there. A ninth level
        would write past the end of `bucket_path`; the run stops there with `overflow`. */
    method DoWith(op: Op) returns (result: Option<Value>, overflow: bool)
      requires Valid()
      modifies this, layer1, layer2, tempElist
      ensures overflow <==> Crowded(cfg, old(contents), op)
      ensures !overflow ==> Valid() && result == ResultOf(old(contents), op) && contents == Effect(old(contents), op)
      ensures overflow ==> Core(cfg, heap, contents) && contents == old(contents)
    {
      hide Core; hide Visited; hide CachesOK; hide Crowded; hide Rehashes; hide Effect; hide ResultOf; hide Answer;
      hide Visitable; hide Grows; hide OnPath; hide Shallow;
      ghost var m := contents;
      ghost var crowded := false;
      var depth, count, parent := 1, cfg.pSize, heap.root;
      var bucketPath := new int[MAX_DEPTH](_ => -1);
      RootStanding(cfg, heap, m, op.key);
      Turn(cfg, heap, m, op.key, parent, depth);
      var curr := Fetch(parent, bucketPath, []);
      while depth <= MAX_DEPTH
        invariant 1 <= depth <= MAX_DEPTH + 1 && count == cfg.Size(depth) && contents == m
        invariant Core(cfg, heap, m) && CachesValid() && Standing(cfg, heap, op.key, parent, depth)
        invariant curr == heap.plists[parent] && cfg.Slot(op.key, depth) < |curr|
        invariant forall i | 0 <= i < depth - 1 :: bucketPath[i] == heap.paths[parent][i]
        invariant forall i | depth <= i < MAX_DEPTH :: bucketPath[i] == -1
        invariant crowded ==> Crowded(cfg, m, op) && depth >= MAX_DEPTH
        invariant crowded && depth == MAX_DEPTH ==> curr[cfg.Slot(op.key, depth)].lock.PUnlocked?
        invariant !crowded ==> Shallow(heap)
        decreases MAX_DEPTH + 1 - depth, !curr[cfg.Slot(op.key, depth)].lock.PUnlocked?
      {
        Turn(cfg, heap, m, op.key, parent, depth);
        var bucket := cfg.hash(op.key, depth, count);
        bucketPath[depth - 1] := bucket;
        if curr[bucket].lock.PUnlocked? {
          ghost var path := heap.paths[parent] + [bucket];
          parent := curr[bucket].base.p;
          curr := Fetch(parent, bucketPath, path);
          depth, count := depth + 1, count * 2;
          Turn(cfg, heap, m, op.key, parent, depth);
          continue;
        }
        ghost var h := heap;
        VisitCore(cfg, h, m, op, parent, bucket);
        VisitCrowd(cfg, h, m, op, parent, bucket);
        VisitCaches(cfg, h, m, op, parent, bucket, layer1[..], layer2[..]);
        StandingStays(cfg, h, Visited(cfg, h, op, parent, bucket), op.key, parent, depth);
        var newP, done := heap.next, false;
        done, result := Visit(op, parent, bucket, curr, count, depth);
        if done {
          contents := Effect(m, op);
          return result, false;
        }
        curr := curr[bucket := Bucket(PRef(newP), PUnlocked)];
        crowded := depth == MAX_DEPTH;
      }
      NotShallow(cfg, heap, op.key, parent);
      return None, true;
    }

    /** `contains` answers as the map does and never overflows. */
    method Contains(k: Key) returns (result: Option<Value>)
      requires Valid()
      modifies this, layer1, layer2, tempElist
      ensures Valid() && contents == old(contents)
      ensures result == if k in old(contents) then Some(old(contents)[k]) else None
    {
      var overflow;
      result, overflow := DoWith(Op.Contains(k));
    }

    /** `insert` adds a missing key, never overwrites, and returns the value that stopped it. It descends past the
        last level exactly when the key is missing and eSize stored keys share its first eight buckets. */
    method Insert(k: Key, v: Value) returns (result: Option<Value>, overflow: bool)
      requires Valid()
      modifies this, layer1, layer2, tempElist
      ensures overflow <==> k !in old(contents) && |Crowd(cfg, old(contents), k)| >= cfg.eSize
      ensures !overflow ==> Valid()
      ensures !overflow && k in old(contents) ==> result == Some(old(contents)[k]) && contents == old(contents)
      ensures !overflow && k !in old(contents) ==> result == None && contents == old(contents)[k := v]
      ensures overflow ==> contents == old(contents) && Core(cfg, heap, contents)
    {
      result, overflow := DoWith(Op.Insert(k, v));
    }

    /** `remove` takes the key out and returns the value it had. */
    method Remove(k: Key) returns (result: Option<Value>)
      requires Valid()
      modifies this, layer1, layer2, tempElist
      ensures Valid() && contents == old(contents) - {k}
      ensures result == if k in old(contents) then Some(old(contents)[k]) else None
    {
      var overflow;
      result, overflow := DoWith(Op.Remove(k));
    }
  }

  lemma InitTree(cfg: Config)
    requires cfg.Valid()
    ensures Core(cfg, InitHeap(cfg), map[]) && Shallow(InitHeap(cfg))
  {
    var s := State(InitHeap(cfg), map[], map[], []);
    InitLin(cfg, s);
  }

  // ---------- The hash of the source ----------

  /** A table whose keys are hashed by `level_hash`, over any numbering of the keys. */
  function TableConfig(eSize: nat, pSize: nat, num: Key -> bv64): Config {
    Config(eSize, pSize,
           (k, level, count) => if count < 2 then 0 else LevelHash.LevelHash(num(k), LevelHash.Word(level), count))
  }

  /** ELIST_SIZE and PLIST_SIZE of the benchmark. */
  function SourceConfig(num: Key -> bv64): Config { TableConfig(7, 8, num) }

  lemma TableConfigValid(eSize: nat, pSize: nat, num: Key -> bv64)
    requires eSize >= 1 && pSize >= 2
    ensures TableConfig(eSize, pSize, num).Valid()
  {
    hide LevelHash.Word; hide LevelHash.LevelHash;
    var cfg := TableConfig(eSize, pSize, num);
    forall k, level: nat, count: nat {:trigger cfg.hash(k, level, count)} | count >= 2
      ensures cfg.hash(k, level, count) < count - 1
    {
      assert cfg.hash(k, level, count) == LevelHash.LevelHash(num(k), LevelHash.Word(level), count);
    }
  }

  lemma SourceConfigValid(num: Key -> bv64)
    ensures SourceConfig(num).Valid()
  {
    TableConfigValid(7, 8, num);
  }
}
