/** The writes that clients make to the remote memory, and what each does to the tree and to the stored map. A
    write attaches a first EList to a null bucket, rewrites the EList of a bucket, or replaces a full EList by a PList
    twice as large. Each keeps the tree a tree and every pair on its hash path; only the first two change the
    stored map, by the one key they are about.
 */
module IhtUpdates {
  import opened Linearizability
  import opened IhtHeap

  ghost predicate InTree(h: Heap, p: nat, b: nat) {
    p in h.plists && p in h.paths && b < |h.plists[p]|
  }

  function SetBucket(h: Heap, p: nat, b: nat, bk: Bucket): Heap
    requires p in h.plists && b < |h.plists[p]|
  {
    h.(plists := h.plists[p := h.plists[p][b := bk]])
  }

  function SetLock(h: Heap, p: nat, b: nat, l: Lock): Heap
    requires p in h.plists && b < |h.plists[p]|
  {
    SetBucket(h, p, b, h.plists[p][b].(lock := l))
  }

  /** A new EList, and the pointer of the bucket set to it. */
  function NewElist(h: Heap, p: nat, b: nat, es: EList): Heap
    requires p in h.plists && b < |h.plists[p]|
  {
    SetBucket(h, p, b, h.plists[p][b].(base := ERef(h.next)))
      .(elists := h.elists[h.next := es], home := h.home[h.next := (p, b)], next := h.next + 1)
  }

  function SetElist(h: Heap, e: nat, es: EList): Heap {
    h.(elists := h.elists[e := es])
  }

  // ---------- Locks ----------

  lemma SetLockBuckets(cfg: Config, h: Heap, p: nat, b: nat, l: Lock)
    requires Tree(cfg, h) && InTree(h, p, b)
    requires l.PUnlocked? ==> h.plists[p][b].base.PRef?
    requires l.EUnlocked? ==> !h.plists[p][b].base.PRef?
    ensures Buckets(SetLock(h, p, b, l))
  {
    hide Links;
    var h' := SetLock(h, p, b, l);
    forall p', b' | p' in h'.plists && 0 <= b' < |h'.plists[p']| ensures BucketOK(h', p', b') {
      assert BucketOK(h, p', b');
    }
  }

  lemma SetLockLinks(cfg: Config, h: Heap, p: nat, b: nat, l: Lock)
    requires Tree(cfg, h) && InTree(h, p, b)
    ensures Links(SetLock(h, p, b, l))
  {
    hide Buckets;
    var h' := SetLock(h, p, b, l);
    forall q | q in h'.plists && q != h'.root ensures Linked(h', q) {
      assert Linked(h, q);
    }
  }

  lemma SetLockKeepsTree(cfg: Config, h: Heap, p: nat, b: nat, l: Lock)
    requires Tree(cfg, h) && InTree(h, p, b)
    requires l.PUnlocked? ==> h.plists[p][b].base.PRef?
    requires l.EUnlocked? ==> !h.plists[p][b].base.PRef?
    ensures Tree(cfg, SetLock(h, p, b, l))
  {
    hide Buckets; hide Links;
    SetLockBuckets(cfg, h, p, b, l);
    SetLockLinks(cfg, h, p, b, l);
    assert Shape(cfg, SetLock(h, p, b, l));
  }

  lemma SetLockKeepsData(cfg: Config, h: Heap, p: nat, b: nat, l: Lock)
    requires InTree(h, p, b)
    ensures Data(cfg, h) ==> Data(cfg, SetLock(h, p, b, l))
    ensures forall k, v :: Stores(SetLock(h, p, b, l), k, v) <==> Stores(h, k, v)
  {
    var h' := SetLock(h, p, b, l);
    if Data(cfg, h) {
      forall p', b' | p' in h'.plists && 0 <= b' < |h'.plists[p']| ensures DataOK(cfg, h', p', b') {
        assert DataOK(cfg, h, p', b');
      }
    }
    forall k, v ensures Stores(h', k, v) <==> Stores(h, k, v) {
      if Stores(h', k, v) {
        var p': nat, b': nat :| Holds(h', p', b', k, v);
        assert Holds(h, p', b', k, v);
      }
      if Stores(h, k, v) {
        var p': nat, b': nat :| Holds(h, p', b', k, v);
        assert Holds(h', p', b', k, v);
      }
    }
  }

  // Locking a bucket, writing and unlocking it again leaves just what was written.

  lemma LockUnlock(h: Heap, p: nat, b: nat)
    requires InTree(h, p, b) && h.plists[p][b].lock.EUnlocked?
    ensures SetLock(SetLock(h, p, b, ELocked), p, b, EUnlocked) == h
  {
    var s := h.plists[p];
    assert s[b].(lock := EUnlocked) == s[b];
    assert s[b := s[b].(lock := ELocked)][b := s[b]] == s;
    assert SetLock(SetLock(h, p, b, ELocked), p, b, EUnlocked).plists == h.plists;
  }

  lemma LockNewElistUnlock(h: Heap, p: nat, b: nat, es: EList)
    requires InTree(h, p, b) && h.plists[p][b].lock.EUnlocked?
    ensures SetLock(NewElist(SetLock(h, p, b, ELocked), p, b, es), p, b, EUnlocked) == NewElist(h, p, b, es)
  {
    var s := h.plists[p];
    var x := Bucket(ERef(h.next), EUnlocked);
    assert s[b := s[b].(lock := ELocked)][b := x.(lock := ELocked)][b := x] == s[b := x];
    assert SetLock(NewElist(SetLock(h, p, b, ELocked), p, b, es), p, b, EUnlocked).plists == NewElist(h, p, b, es).plists;
  }

  lemma LockSetElistUnlock(h: Heap, p: nat, b: nat, e: nat, es: EList)
    requires InTree(h, p, b) && h.plists[p][b].lock.EUnlocked?
    ensures SetLock(SetElist(SetLock(h, p, b, ELocked), e, es), p, b, EUnlocked) == SetElist(h, e, es)
  {
    LockUnlock(h, p, b);
  }

  // ---------- What the other buckets hold ----------

  ghost predicate Elsewhere(h: Heap, p: nat, b: nat, k: Key, v: Value) {
    exists p': nat, b': nat :: (p' != p || b' != b) && Holds(h, p', b', k, v)
  }

  ghost predicate SameElsewhere(h: Heap, h': Heap, p: nat, b: nat) {
    forall p': nat, b': nat, k, v {:trigger Holds(h, p', b', k, v)} {:trigger Holds(h', p', b', k, v)} |
      p' != p || b' != b :: Holds(h', p', b', k, v) <==> Holds(h, p', b', k, v)
  }

  lemma StoresHereOrElsewhere(h: Heap, p: nat, b: nat, k: Key, v: Value)
    ensures Stores(h, k, v) <==> Holds(h, p, b, k, v) || Elsewhere(h, p, b, k, v)
  {
    if Stores(h, k, v) {
      var p': nat, b': nat :| Holds(h, p', b', k, v);
    }
    if Elsewhere(h, p, b, k, v) {
      var p': nat, b': nat :| (p' != p || b' != b) && Holds(h, p', b', k, v);
    }
  }

  lemma ElsewhereUnchanged(h: Heap, h': Heap, p: nat, b: nat, k: Key, v: Value)
    requires SameElsewhere(h, h', p, b)
    ensures Elsewhere(h', p, b, k, v) <==> Elsewhere(h, p, b, k, v)
  {
    if Elsewhere(h, p, b, k, v) {
      var p': nat, b': nat :| (p' != p || b' != b) && Holds(h, p', b', k, v);
      assert Holds(h', p', b', k, v);
    }
    if Elsewhere(h', p, b, k, v) {
      var p': nat, b': nat :| (p' != p || b' != b) && Holds(h', p', b', k, v);
      assert Holds(h, p', b', k, v);
    }
  }

  /** A key whose hash path ends in a bucket is nowhere else. */
  lemma NotElsewhere(cfg: Config, h: Heap, p: nat, b: nat, k: Key, v: Value)
    requires Tree(cfg, h) && Data(cfg, h) && InTree(h, p, b)
    requires !h.plists[p][b].base.PRef? && OnPath(cfg, k, h.paths[p] + [b])
    ensures !Elsewhere(h, p, b, k, v)
  {
    if Elsewhere(h, p, b, k, v) {
      var p': nat, b': nat :| (p' != p || b' != b) && Holds(h, p', b', k, v);
      assert DataOK(cfg, h, p', b');
      assert Pair(k, v) in h.elists[h.plists[p'][b'].base.e];
      assert OnPath(cfg, Pair(k, v).key, h.paths[p'] + [b']);
      SameLeaf(cfg, h, p, b, p', b', k);
      assert false;
    }
  }

  // ---------- A new element list ----------

  lemma NewElistBuckets(cfg: Config, h: Heap, p: nat, b: nat, es: EList)
    requires Tree(cfg, h) && InTree(h, p, b) && !h.plists[p][b].base.PRef?
    ensures Buckets(NewElist(h, p, b, es))
  {
    hide Links;
    var h' := NewElist(h, p, b, es);
    forall p', b' | p' in h'.plists && 0 <= b' < |h'.plists[p']| ensures BucketOK(h', p', b') {
      assert BucketOK(h, p', b');
    }
  }

  lemma NewElistLinks(cfg: Config, h: Heap, p: nat, b: nat, es: EList)
    requires Tree(cfg, h) && InTree(h, p, b) && !h.plists[p][b].base.PRef?
    ensures Links(NewElist(h, p, b, es))
  {
    hide Buckets;
    var h' := NewElist(h, p, b, es);
    forall q | q in h'.plists && q != h'.root ensures Linked(h', q) {
      assert Linked(h, q);
    }
  }

  lemma NewElistKeepsTree(cfg: Config, h: Heap, p: nat, b: nat, es: EList)
    requires Tree(cfg, h) && InTree(h, p, b) && !h.plists[p][b].base.PRef?
    ensures Tree(cfg, NewElist(h, p, b, es))
  {
    hide Buckets; hide Links;
    NewElistBuckets(cfg, h, p, b, es);
    NewElistLinks(cfg, h, p, b, es);
    assert Shape(cfg, NewElist(h, p, b, es));
  }

  lemma NewElistElsewhere(cfg: Config, h: Heap, p: nat, b: nat, es: EList)
    requires Tree(cfg, h) && InTree(h, p, b)
    ensures SameElsewhere(h, NewElist(h, p, b, es), p, b)
  {
    var h' := NewElist(h, p, b, es);
    forall p': nat, b': nat, k, v | p' != p || b' != b ensures Holds(h', p', b', k, v) <==> Holds(h, p', b', k, v) {
      if InTree(h, p', b') { assert BucketOK(h, p', b'); }
    }
  }

  lemma NewElistKeepsData(cfg: Config, h: Heap, p: nat, b: nat, k: Key, v: Value)
    requires cfg.eSize >= 1 && Tree(cfg, h) && Data(cfg, h) && InTree(h, p, b)
    requires OnPath(cfg, k, h.paths[p] + [b])
    ensures Data(cfg, NewElist(h, p, b, [Pair(k, v)]))
  {
    var h' := NewElist(h, p, b, [Pair(k, v)]);
    forall p', b' | p' in h'.plists && 0 <= b' < |h'.plists[p']| ensures DataOK(cfg, h', p', b') {
      assert BucketOK(h, p', b') && DataOK(cfg, h, p', b');
    }
  }

  lemma NewElistStores(cfg: Config, h: Heap, p: nat, b: nat, k: Key, v: Value, m: map<Key, Value>)
    requires cfg.eSize >= 1 && Tree(cfg, h) && Data(cfg, h) && Abstracts(h, m) && InTree(h, p, b)
    requires h.plists[p][b].base.Null? && OnPath(cfg, k, h.paths[p] + [b])
    ensures k !in m
    ensures Data(cfg, NewElist(h, p, b, [Pair(k, v)]))
    ensures Abstracts(NewElist(h, p, b, [Pair(k, v)]), m[k := v])
  {
    var h' := NewElist(h, p, b, [Pair(k, v)]);
    LeafLookup(cfg, h, m, p, b, k);
    NewElistKeepsData(cfg, h, p, b, k, v);
    NewElistElsewhere(cfg, h, p, b, [Pair(k, v)]);
    forall k', v' ensures Stores(h', k', v') <==> k' in m[k := v] && m[k := v][k'] == v' {
      StoresHereOrElsewhere(h, p, b, k', v');
      StoresHereOrElsewhere(h', p, b, k', v');
      ElsewhereUnchanged(h, h', p, b, k', v');
      assert Stores(h, k', v') <==> k' in m && m[k'] == v';
    }
  }

  // ---------- Writing an element list ----------

  lemma SetElistKeepsTree(cfg: Config, h: Heap, e: nat, es: EList)
    requires Tree(cfg, h) && e in h.elists
    ensures Tree(cfg, SetElist(h, e, es))
  {
    var h' := SetElist(h, e, es);
    forall p', b' | p' in h'.plists && 0 <= b' < |h'.plists[p']| ensures BucketOK(h', p', b') {
      assert BucketOK(h, p', b');
    }
    forall q | q in h'.plists && q != h'.root ensures Linked(h', q) {
      assert Linked(h, q);
    }
  }

  lemma SetElistKeepsData(cfg: Config, h: Heap, p: nat, b: nat, e: nat, es: EList)
    requires Tree(cfg, h) && Data(cfg, h) && InTree(h, p, b) && h.plists[p][b].base == ERef(e)
    requires |es| <= cfg.eSize && Distinct(es)
    requires forall x: Pair | x in es :: OnPath(cfg, x.key, h.paths[p] + [b])
    ensures Data(cfg, SetElist(h, e, es))
    ensures SameElsewhere(h, SetElist(h, e, es), p, b)
  {
    var h' := SetElist(h, e, es);
    assert DataOK(cfg, h, p, b);
    forall p', b' | p' in h'.plists && 0 <= b' < |h'.plists[p']| ensures DataOK(cfg, h', p', b') {
      assert DataOK(cfg, h, p', b');
    }
    forall p': nat, b': nat, k, v | p' != p || b' != b ensures Holds(h', p', b', k, v) <==> Holds(h, p', b', k, v) {
      if InTree(h, p', b') { assert DataOK(cfg, h, p', b'); }
    }
  }

  lemma AddPairStores(cfg: Config, h: Heap, p: nat, b: nat, e: nat, k: Key, v: Value, m: map<Key, Value>)
    requires Tree(cfg, h) && Data(cfg, h) && Abstracts(h, m) && InTree(h, p, b)
    requires h.plists[p][b].base == ERef(e) && e in h.elists
    requires OnPath(cfg, k, h.paths[p] + [b])
    requires Find(h.elists[e], k).None? && |h.elists[e]| < cfg.eSize
    ensures k !in m
    ensures Data(cfg, SetElist(h, e, h.elists[e] + [Pair(k, v)]))
    ensures Abstracts(SetElist(h, e, h.elists[e] + [Pair(k, v)]), m[k := v])
  {
    var es := h.elists[e] + [Pair(k, v)];
    var h' := SetElist(h, e, es);
    LeafLookup(cfg, h, m, p, b, k);
    FindIffMember(h.elists[e], k);
    assert DataOK(cfg, h, p, b);
    SetElistKeepsData(cfg, h, p, b, e, es);
    forall k', v' ensures Stores(h', k', v') <==> k' in m[k := v] && m[k := v][k'] == v' {
      StoresHereOrElsewhere(h, p, b, k', v');
      StoresHereOrElsewhere(h', p, b, k', v');
      ElsewhereUnchanged(h, h', p, b, k', v');
      assert Stores(h, k', v') <==> k' in m && m[k'] == v';
      assert Pair(k', v') in es <==> Pair(k', v') in h.elists[e] || (k' == k && v' == v);
    }
  }

  lemma RemoveKeyStores(cfg: Config, h: Heap, p: nat, b: nat, e: nat, k: Key, m: map<Key, Value>)
    requires Tree(cfg, h) && Data(cfg, h) && Abstracts(h, m) && InTree(h, p, b)
    requires h.plists[p][b].base == ERef(e) && e in h.elists
    requires OnPath(cfg, k, h.paths[p] + [b])
    ensures Data(cfg, SetElist(h, e, Without(h.elists[e], k)))
    ensures Abstracts(SetElist(h, e, Without(h.elists[e], k)), m - {k})
  {
    var es := Without(h.elists[e], k);
    var h' := SetElist(h, e, es);
    assert DataOK(cfg, h, p, b);
    WithoutRemoves(h.elists[e], k);
    SetElistKeepsData(cfg, h, p, b, e, es);
    forall k', v' ensures Stores(h', k', v') <==> k' in m - {k} && (m - {k})[k'] == v' {
      StoresHereOrElsewhere(h, p, b, k', v');
      StoresHereOrElsewhere(h', p, b, k', v');
      ElsewhereUnchanged(h, h', p, b, k', v');
      NotElsewhere(cfg, h, p, b, k, v');
      assert Stores(h, k', v') <==> k' in m && m[k'] == v';
      assert Pair(k', v') in es <==> Pair(k', v') in h.elists[e] && k' != k;
    }
  }

  // ---------- Rehashing into a new PList ----------

  function ChildSize(cfg: Config, h: Heap, p: nat): nat
    requires p in h.paths
  {
    cfg.Size(|h.paths[p]| + 2)
  }

  /** Part `i` of the rehashed list lives at address `next + 1 + i`, if it is not empty. */
  function ChildPList(cfg: Config, h: Heap, p: nat, src: EList): PList
    requires p in h.paths
  {
    seq(ChildSize(cfg, h, p), i =>
      Bucket(if 0 <= i && Part(cfg, src, |h.paths[p]| + 2, i) != [] then ERef(h.next + 1 + i) else Null, EUnlocked))
  }

  predicate IsChild(cfg: Config, h: Heap, p: nat, e: nat)
    requires p in h.paths
  {
    h.next + 1 <= e < h.next + 1 + ChildSize(cfg, h, p)
  }

  function ChildElists(cfg: Config, h: Heap, p: nat, src: EList): map<nat, EList>
    requires p in h.paths
  {
    map e: nat | 0 <= e < h.next + 1 + ChildSize(cfg, h, p) && IsChild(cfg, h, p, e)
                 && Part(cfg, src, |h.paths[p]| + 2, e - h.next - 1) != [] :: Part(cfg, src, |h.paths[p]| + 2, e - h.next - 1)
  }

  /** `rehash`: a new PList of twice the size, filled from `src`, and the pointer of the bucket set to it. */
  function Calcify(cfg: Config, h: Heap, p: nat, b: nat, src: EList): Heap
    requires p in h.plists && p in h.paths && b < |h.plists[p]|
  {
    var n := ChildSize(cfg, h, p);
    var q := h.next;
    var h1 := SetBucket(h, p, b, h.plists[p][b].(base := PRef(q)));
    h1.(plists := h1.plists[q := ChildPList(cfg, h, p, src)],
        elists := h.elists + ChildElists(cfg, h, p, src),
        home := h.home + (map e: nat | 0 <= e < q + 1 + n && IsChild(cfg, h, p, e) :: (q, e - q - 1)),
        paths := h.paths[q := h.paths[p] + [b]],
        up := h.up[q := p],
        next := q + 1 + n)
  }

  lemma CalcifyBuckets(cfg: Config, h: Heap, p: nat, b: nat, src: EList)
    requires Tree(cfg, h) && InTree(h, p, b) && !h.plists[p][b].lock.EUnlocked?
    ensures Buckets(Calcify(cfg, h, p, b, src))
  {
    hide Part;
    hide Links;
    var h' := Calcify(cfg, h, p, b, src);
    forall p', b' | p' in h'.plists && 0 <= b' < |h'.plists[p']| ensures BucketOK(h', p', b') {
      if p' == h.next {
        assert IsChild(cfg, h, p, h.next + 1 + b');
      } else {
        assert BucketOK(h, p', b');
      }
    }
  }

  lemma CalcifyLinks(cfg: Config, h: Heap, p: nat, b: nat, src: EList)
    requires Tree(cfg, h) && InTree(h, p, b) && !h.plists[p][b].base.PRef?
    ensures Links(Calcify(cfg, h, p, b, src))
  {
    hide Part;
    hide Buckets;
    var h' := Calcify(cfg, h, p, b, src);
    forall q | q in h'.plists && q != h'.root ensures Linked(h', q) {
      if q != h.next { assert Linked(h, q); }
    }
  }

  lemma CalcifyKeepsTree(cfg: Config, h: Heap, p: nat, b: nat, src: EList)
    requires Tree(cfg, h) && InTree(h, p, b) && !h.plists[p][b].base.PRef? && !h.plists[p][b].lock.EUnlocked?
    ensures Tree(cfg, Calcify(cfg, h, p, b, src))
  {
    hide Part; hide Links; hide Buckets;
    CalcifyBuckets(cfg, h, p, b, src);
    CalcifyLinks(cfg, h, p, b, src);
    assert Shape(cfg, Calcify(cfg, h, p, b, src));
  }

  lemma CalcifyElsewhere(cfg: Config, h: Heap, p: nat, b: nat, src: EList, p': nat, b': nat, k: Key, v: Value)
    requires Tree(cfg, h) && InTree(h, p, b)
    requires (p' != p || b' != b) && p' != h.next
    ensures Holds(Calcify(cfg, h, p, b, src), p', b', k, v) <==> Holds(h, p', b', k, v)
  {
    if InTree(h, p', b') { assert BucketOK(h, p', b'); }
  }

  lemma CalcifyOldData(cfg: Config, h: Heap, p: nat, b: nat, src: EList, p': nat, b': nat)
    requires Tree(cfg, h) && Data(cfg, h) && InTree(h, p, b) && InTree(h, p', b')
    ensures DataOK(cfg, Calcify(cfg, h, p, b, src), p', b')
  {
    assert BucketOK(h, p', b') && DataOK(cfg, h, p', b');
  }

  lemma CalcifyNewData(cfg: Config, h: Heap, p: nat, b: nat, e: nat, b': nat)
    requires Tree(cfg, h) && Data(cfg, h) && InTree(h, p, b) && h.plists[p][b].base == ERef(e) && e in h.elists
    requires b' < ChildSize(cfg, h, p)
    ensures DataOK(cfg, Calcify(cfg, h, p, b, h.elists[e]), h.next, b')
  {
    hide Links; hide Buckets; hide Part;
    var h' := Calcify(cfg, h, p, b, h.elists[e]);
    var d := |h.paths[p]| + 2;
    var part := Part(cfg, h.elists[e], d, b');
    var path := h.paths[p] + [b];
    assert DataOK(cfg, h, p, b);
    PartMembers(cfg, h.elists[e], d, b');
    assert IsChild(cfg, h, p, h.next + 1 + b');
    assert part != [] ==> h'.elists[h.next + 1 + b'] == part && h'.home[h.next + 1 + b'] == (h.next, b');
    assert h'.paths[h.next] == path;
    forall x: Pair | x in part ensures OnPath(cfg, x.key, path + [b']) {
      assert OnPath(cfg, x.key, path);
      assert forall i | 0 <= i < |path| :: (path + [b'])[i] == path[i];
    }
  }

  lemma CalcifyKeepsData(cfg: Config, h: Heap, p: nat, b: nat, e: nat)
    requires Tree(cfg, h) && Data(cfg, h) && InTree(h, p, b) && h.plists[p][b].base == ERef(e) && e in h.elists
    ensures Data(cfg, Calcify(cfg, h, p, b, h.elists[e]))
  {
    hide DataOK;
    var h' := Calcify(cfg, h, p, b, h.elists[e]);
    forall p', b' | p' in h'.plists && 0 <= b' < |h'.plists[p']| ensures DataOK(cfg, h', p', b') {
      if p' == h.next { CalcifyNewData(cfg, h, p, b, e, b'); } else { CalcifyOldData(cfg, h, p, b, h.elists[e], p', b'); }
    }
  }

  lemma ChildHolds(cfg: Config, h: Heap, p: nat, b: nat, src: EList, i: nat, k: Key, v: Value)
    requires Tree(cfg, h) && InTree(h, p, b)
    ensures Holds(Calcify(cfg, h, p, b, src), h.next, i, k, v) <==>
      i < ChildSize(cfg, h, p) && Pair(k, v) in src && cfg.Slot(k, |h.paths[p]| + 2) == i
  {
    PartMembers(cfg, src, |h.paths[p]| + 2, i);
  }

  /** Rehashing a full list moves its pairs one level down and leaves the stored map as it was. */
  lemma CalcifyStores(cfg: Config, h: Heap, p: nat, b: nat, e: nat)
    requires cfg.Valid() && Tree(cfg, h) && InTree(h, p, b) && h.plists[p][b].base == ERef(e) && e in h.elists
    ensures forall k, v :: Stores(Calcify(cfg, h, p, b, h.elists[e]), k, v) <==> Stores(h, k, v)
  {
    forall x: Pair | x in h.elists[e] ensures cfg.Slot(x.key, |h.paths[p]| + 2) < ChildSize(cfg, h, p) {
      SlotInRange(cfg, x.key, |h.paths[p]| + 2);
    }
    CalcifyStoresInRange(cfg, h, p, b, e);
  }

  lemma CalcifyStoresInRange(cfg: Config, h: Heap, p: nat, b: nat, e: nat)
    requires Tree(cfg, h) && InTree(h, p, b) && h.plists[p][b].base == ERef(e) && e in h.elists
    requires forall x: Pair | x in h.elists[e] :: cfg.Slot(x.key, |h.paths[p]| + 2) < ChildSize(cfg, h, p)
    ensures forall k, v :: Stores(Calcify(cfg, h, p, b, h.elists[e]), k, v) <==> Stores(h, k, v)
  {
    var src := h.elists[e];
    var h' := Calcify(cfg, h, p, b, src);
    var d := |h.paths[p]| + 2;
    forall k, v ensures Stores(h', k, v) <==> Stores(h, k, v) {
      if Stores(h', k, v) {
        var p': nat, b': nat :| Holds(h', p', b', k, v);
        if p' == h.next {
          ChildHolds(cfg, h, p, b, src, b', k, v);
          assert Holds(h, p, b, k, v);
        } else {
          CalcifyElsewhere(cfg, h, p, b, src, p', b', k, v);
        }
      }
      if Stores(h, k, v) {
        var p': nat, b': nat :| Holds(h, p', b', k, v);
        if p' == p && b' == b {
          assert Pair(k, v) in src && cfg.Slot(Pair(k, v).key, d) < ChildSize(cfg, h, p);
          ChildHolds(cfg, h, p, b, src, cfg.Slot(k, d), k, v);
        } else {
          CalcifyElsewhere(cfg, h, p, b, src, p', b', k, v);
        }
      }
    }
  }
}
