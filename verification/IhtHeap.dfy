/** The remote memory of the interlocked hash table: PLists (arrays of pointer-lock pairs) form a tree
    whose leaves are ELists (arrays of at most `eSize` pairs). Remote pointers are addresses, so the
    memory is a pair of finite maps, and several clients may hold the same address.
 */
module IhtHeap {
  import opened Linearizability

  /** The template parameters and the hash. `Size(d)` is the bucket count of a PList at depth `d`. */
  datatype Config = Config(eSize: nat, pSize: nat, hash: (Key, nat, nat) -> nat) {
    ghost predicate Valid() {
      && eSize >= 1
      && pSize >= 2
      && forall k, level: nat, count: nat {:trigger hash(k, level, count)} | count >= 2 ::
           hash(k, level, count) < count - 1
    }

    function Size(depth: nat): nat {
      if depth <= 1 then pSize else 2 * Size(depth - 1)
    }

    /** The bucket of `k` in a PList at depth `depth`. */
    function Slot(k: Key, depth: nat): nat { hash(k, depth, Size(depth)) }
  }

  lemma {:induction false} SizeGrows(cfg: Config, depth: nat)
    ensures cfg.pSize <= cfg.Size(depth)
  {
    if depth > 1 { SizeGrows(cfg, depth - 1); }
  }

  /** `level_hash` never picks the last bucket. */
  lemma SlotInRange(cfg: Config, k: Key, depth: nat)
    requires cfg.Valid()
    ensures cfg.Slot(k, depth) < cfg.Size(depth) - 1
  {
    SizeGrows(cfg, depth);
  }

  datatype Pair = Pair(key: Key, val: Value)
  type EList = seq<Pair>

  datatype Base = Null | ERef(e: nat) | PRef(p: nat)
  datatype Lock = ELocked | EUnlocked | PUnlocked
  datatype Bucket = Bucket(base: Base, lock: Lock)
  type PList = seq<Bucket>

  /** `next` is the allocator. `paths`, `up` and `home` are bookkeeping for the proofs: the buckets that lead
      to a PList, the PList above it, and the bucket an EList was made for. */
  datatype Heap = Heap(root: nat, plists: map<nat, PList>, elists: map<nat, EList>, next: nat,
                       paths: map<nat, seq<nat>>, up: map<nat, nat>, home: map<nat, (nat, nat)>)

  // ---------- Element lists ----------

  function Find(es: EList, k: Key): Option<Value> {
    if es == [] then None
    else if es[0].key == k then Some(es[0].val)
    else Find(es[1..], k)
  }

  predicate Distinct(es: EList) {
    forall i, j | 0 <= i < j < |es| :: es[i].key != es[j].key
  }

  lemma {:induction false} FindIffMember(es: EList, k: Key)
    ensures Find(es, k).Some? ==> Pair(k, Find(es, k).value) in es
    ensures Find(es, k).None? ==> forall i | 0 <= i < |es| :: es[i].key != k
    ensures Distinct(es) ==> forall v :: Pair(k, v) in es <==> Find(es, k) == Some(v)
  {
    if es != [] {
      FindIffMember(es[1..], k);
      assert es == [es[0]] + es[1..];
      assert Distinct(es) ==> forall i | 0 <= i < |es[1..]| :: es[1..][i] == es[i + 1] && es[0].key != es[i + 1].key;
    }
  }

  function IndexOf(es: EList, k: Key): (i: nat)
    ensures i <= |es|
    ensures i < |es| ==> es[i].key == k
  {
    if es == [] || es[0].key == k then 0 else 1 + IndexOf(es[1..], k)
  }

  /** `remove`: the last pair takes the place of the removed one. */
  function Without(es: EList, k: Key): EList {
    var i := IndexOf(es, k);
    if i == |es| then es else es[i := es[|es| - 1]][..|es| - 1]
  }

  lemma WithoutRemoves(es: EList, k: Key)
    requires Distinct(es)
    ensures Distinct(Without(es, k)) && |Without(es, k)| <= |es|
    ensures forall x: Pair :: x in Without(es, k) <==> x in es && x.key != k
  {
    var i := IndexOf(es, k);
    var r := Without(es, k);
    if i < |es| {
      var n := |es| - 1;
      forall j | 0 <= j < n ensures r[j] == if j == i then es[n] else es[j] {}
      forall x: Pair | x in es && x.key != k ensures x in r {
        var j :| 0 <= j < |es| && es[j] == x;
        if j == n { assert r[i] == x; } else { assert r[j] == x; }
      }
    } else {
      IndexMissing(es, k);
    }
  }

  lemma {:induction false} IndexMissing(es: EList, k: Key)
    ensures IndexOf(es, k) == |es| ==> forall i | 0 <= i < |es| :: es[i].key != k
  {
    if es != [] && es[0].key != k {
      IndexMissing(es[1..], k);
      assert forall i | 1 <= i < |es| :: es[i] == es[1..][i - 1];
    }
  }

  // ---------- Rehashing an element list ----------

  /** The pairs of `es` that hash to bucket `b` at depth `d`, in order. */
  function Part(cfg: Config, es: EList, d: nat, b: nat): EList {
    if es == [] then []
    else
      var rest := Part(cfg, es[..|es| - 1], d, b);
      if cfg.Slot(es[|es| - 1].key, d) == b then rest + [es[|es| - 1]] else rest
  }

  lemma {:induction false} PartMembers(cfg: Config, es: EList, d: nat, b: nat)
    ensures |Part(cfg, es, d, b)| <= |es|
    ensures forall x: Pair :: x in Part(cfg, es, d, b) <==> x in es && cfg.Slot(x.key, d) == b
    ensures Distinct(es) ==> Distinct(Part(cfg, es, d, b))
  {
    if es != [] {
      var n := |es| - 1;
      PartMembers(cfg, es[..n], d, b);
      assert es == es[..n] + [es[n]];
      if Distinct(es) {
        assert forall x: Pair | x in es[..n] :: x.key != es[n].key;
        var rest := Part(cfg, es[..n], d, b);
        assert forall i | 0 <= i < |rest| :: rest[i] in es[..n];
      }
    }
  }

  /** All parts of the first `n` buckets together. */
  ghost function AllParts(cfg: Config, es: EList, d: nat, n: nat): multiset<Pair> {
    if n == 0 then multiset{} else AllParts(cfg, es, d, n - 1) + multiset(Part(cfg, es, d, n - 1))
  }

  lemma {:induction false} AllPartsStep(cfg: Config, es: EList, d: nat, n: nat)
    requires es != []
    ensures AllParts(cfg, es, d, n) ==
      AllParts(cfg, es[..|es| - 1], d, n)
      + (if cfg.Slot(es[|es| - 1].key, d) < n then multiset{es[|es| - 1]} else multiset{})
  {
    if n > 0 { AllPartsStep(cfg, es, d, n - 1); }
  }

  lemma {:induction false} AllPartsOfNothing(cfg: Config, d: nat, n: nat)
    ensures AllParts(cfg, [], d, n) == multiset{}
  {
    if n > 0 { AllPartsOfNothing(cfg, d, n - 1); }
  }

  /** The parts of all buckets together are the list, when every key has a bucket. */
  lemma {:induction false} PartsConserve(cfg: Config, es: EList, d: nat, n: nat)
    requires forall x: Pair | x in es :: cfg.Slot(x.key, d) < n
    ensures AllParts(cfg, es, d, n) == multiset(es)
  {
    if es == [] {
      AllPartsOfNothing(cfg, d, n);
    } else {
      PartsConserve(cfg, es[..|es| - 1], d, n);
      AllPartsStep(cfg, es, d, n);
      assert es == es[..|es| - 1] + [es[|es| - 1]];
    }
  }

  /** Rehashing loses no pair and duplicates none: the new buckets hold exactly the old pairs. */
  lemma RehashConserves(cfg: Config, es: EList, d: nat)
    requires cfg.Valid()
    ensures AllParts(cfg, es, d, cfg.Size(d)) == multiset(es)
  {
    forall x: Pair | x in es ensures cfg.Slot(x.key, d) < cfg.Size(d) {
      SlotInRange(cfg, x.key, d);
    }
    PartsConserve(cfg, es, d, cfg.Size(d));
  }

  // ---------- The tree of PLists ----------

  ghost predicate OnPath(cfg: Config, k: Key, path: seq<nat>) {
    forall i | 0 <= i < |path| :: path[i] == cfg.Slot(k, i + 1)
  }

  ghost predicate BucketOK(h: Heap, p: nat, b: nat)
    requires p in h.plists && p in h.paths && b < |h.plists[p]|
  {
    var bk := h.plists[p][b];
    && (bk.base.PRef? ==> bk.base.p in h.plists && bk.base.p in h.paths && h.paths[bk.base.p] == h.paths[p] + [b])
    && (bk.base.ERef? ==> bk.base.e in h.elists)
    && (bk.lock.PUnlocked? ==> bk.base.PRef?)
    && (bk.lock.EUnlocked? ==> !bk.base.PRef?)
  }

  ghost predicate Linked(h: Heap, q: nat)
    requires q in h.plists && q in h.paths && q in h.up
  {
    var n := |h.paths[q]|;
    && n >= 1
    && h.up[q] in h.plists && h.up[q] in h.paths
    && h.paths[h.up[q]] == h.paths[q][..n - 1]
    && h.paths[q][n - 1] < |h.plists[h.up[q]]|
    && h.plists[h.up[q]][h.paths[q][n - 1]].base == PRef(q)
  }

  ghost predicate Shape(cfg: Config, h: Heap) {
    && h.root in h.plists
    && h.paths.Keys == h.plists.Keys == h.up.Keys
    && h.paths[h.root] == []
    && (forall p | p in h.plists :: p < h.next && |h.plists[p]| == cfg.Size(|h.paths[p]| + 1))
    && (forall e | e in h.elists :: e < h.next)
  }

  ghost predicate Buckets(h: Heap)
    requires h.plists.Keys <= h.paths.Keys
  {
    forall p, b {:trigger BucketOK(h, p, b)} | p in h.plists && 0 <= b < |h.plists[p]| :: BucketOK(h, p, b)
  }

  ghost predicate Links(h: Heap)
    requires h.plists.Keys <= h.paths.Keys && h.plists.Keys <= h.up.Keys
  {
    forall q {:trigger Linked(h, q)} | q in h.plists && q != h.root :: Linked(h, q)
  }

  /** The PLists form a tree, each twice as large as the one above it, and the lock of a bucket tells
      what its pointer refers to. */
  ghost predicate Tree(cfg: Config, h: Heap) {
    Shape(cfg, h) && Buckets(h) && Links(h)
  }

  lemma {:induction false} PathUnique(cfg: Config, h: Heap, p: nat, q: nat)
    requires Tree(cfg, h) && p in h.plists && q in h.plists && h.paths[p] == h.paths[q]
    ensures p == q
    decreases |h.paths[p]|
  {
    assert p == h.root || Linked(h, p);
    assert q == h.root || Linked(h, q);
    if p != h.root && q != h.root {
      PathUnique(cfg, h, h.up[p], h.up[q]);
    }
  }

  /** The PList `n` levels below the root on the way to `q`. */
  lemma {:induction false} Ancestor(cfg: Config, h: Heap, q: nat, n: nat) returns (p: nat)
    requires Tree(cfg, h) && q in h.plists && n < |h.paths[q]|
    ensures p in h.plists && h.paths[p] == h.paths[q][..n]
    ensures h.paths[q][n] < |h.plists[p]| && h.plists[p][h.paths[q][n]].base.PRef?
    decreases |h.paths[q]|
  {
    assert Linked(h, q);
    var u := h.up[q];
    if n == |h.paths[q]| - 1 {
      p := u;
    } else {
      p := Ancestor(cfg, h, u, n);
      assert h.paths[u][..n] == h.paths[q][..n];
    }
  }

  // ---------- What the table stores ----------

  /** Each EList hangs from one bucket, holds at most `eSize` pairs with distinct keys, and every key
      hashes to that bucket at every level. */
  ghost predicate DataOK(cfg: Config, h: Heap, p: nat, b: nat)
    requires p in h.plists && p in h.paths && b < |h.plists[p]|
  {
    var base := h.plists[p][b].base;
    base.ERef? ==>
      && base.e in h.elists
      && base.e in h.home && h.home[base.e] == (p, b)
      && |h.elists[base.e]| <= cfg.eSize
      && Distinct(h.elists[base.e])
      && (forall x: Pair | x in h.elists[base.e] :: OnPath(cfg, x.key, h.paths[p] + [b]))
  }

  ghost predicate Data(cfg: Config, h: Heap) {
    && h.plists.Keys <= h.paths.Keys
    && forall p, b {:trigger DataOK(cfg, h, p, b)} | p in h.plists && 0 <= b < |h.plists[p]| :: DataOK(cfg, h, p, b)
  }

  ghost predicate Holds(h: Heap, p: nat, b: nat, k: Key, v: Value) {
    && p in h.plists && b < |h.plists[p]|
    && h.plists[p][b].base.ERef?
    && h.plists[p][b].base.e in h.elists
    && Pair(k, v) in h.elists[h.plists[p][b].base.e]
  }

  ghost predicate Stores(h: Heap, k: Key, v: Value) {
    exists p: nat, b: nat :: Holds(h, p, b, k, v)
  }

  /** The finite map that the memory represents. */
  ghost predicate Abstracts(h: Heap, m: map<Key, Value>) {
    forall k, v :: Stores(h, k, v) <==> k in m && m[k] == v
  }

  lemma StoredIfPresent(h: Heap, m: map<Key, Value>, k: Key)
    requires Abstracts(h, m)
    ensures k in m ==> Stores(h, k, m[k])
  {}

  /** A bucket on the hash path of `k` that does not lead further down decides everything about `k`. */
  lemma LeafDecides(cfg: Config, h: Heap, p: nat, b: nat, k: Key)
    requires Tree(cfg, h) && Data(cfg, h)
    requires p in h.plists && b < |h.plists[p]| && OnPath(cfg, k, h.paths[p] + [b])
    requires !h.plists[p][b].base.PRef?
    ensures forall v :: Stores(h, k, v) <==> Holds(h, p, b, k, v)
  {
    forall v | Stores(h, k, v) ensures Holds(h, p, b, k, v) {
      var p': nat, b': nat :| Holds(h, p', b', k, v);
      assert DataOK(cfg, h, p', b');
      assert Pair(k, v) in h.elists[h.plists[p'][b'].base.e];
      assert OnPath(cfg, Pair(k, v).key, h.paths[p'] + [b']);
      SameLeaf(cfg, h, p, b, p', b', k);
    }
  }

  lemma SameLeaf(cfg: Config, h: Heap, p: nat, b: nat, p': nat, b': nat, k: Key)
    requires Tree(cfg, h)
    requires p in h.plists && b < |h.plists[p]| && OnPath(cfg, k, h.paths[p] + [b])
    requires p' in h.plists && b' < |h.plists[p']| && OnPath(cfg, k, h.paths[p'] + [b'])
    requires !h.plists[p][b].base.PRef? && !h.plists[p'][b'].base.PRef?
    ensures p == p' && b == b'
  {
    var s, s' := h.paths[p] + [b], h.paths[p'] + [b'];
    if |s| < |s'| {
      NotAbove(cfg, h, p, b, p', b', k);
    } else if |s'| < |s| {
      NotAbove(cfg, h, p', b', p, b, k);
    } else {
      assert forall i | 0 <= i < |s| :: s[i] == s'[i];
      assert h.paths[p] == s[..|s| - 1] == s'[..|s| - 1] == h.paths[p'];
      PathUnique(cfg, h, p, p');
      assert s[|s| - 1] == s'[|s| - 1];
    }
  }

  /** A bucket that leads nowhere is not on the way to a PList on the same hash path. */
  lemma NotAbove(cfg: Config, h: Heap, p: nat, b: nat, q: nat, b': nat, k: Key)
    requires Tree(cfg, h)
    requires p in h.plists && b < |h.plists[p]| && OnPath(cfg, k, h.paths[p] + [b])
    requires q in h.plists && b' < |h.plists[q]| && OnPath(cfg, k, h.paths[q] + [b'])
    requires |h.paths[p]| < |h.paths[q]|
    ensures h.plists[p][b].base.PRef?
  {
    var n := |h.paths[p]|;
    var a := Ancestor(cfg, h, q, n);
    var s, s' := h.paths[p] + [b], h.paths[q] + [b'];
    assert forall i | 0 <= i <= n :: s[i] == s'[i] == h.paths[q][i];
    assert h.paths[a] == h.paths[p];
    PathUnique(cfg, h, p, a);
  }

  /** What one bucket says about `k`, read off as a lookup. */
  lemma LeafLookup(cfg: Config, h: Heap, m: map<Key, Value>, p: nat, b: nat, k: Key)
    requires Tree(cfg, h) && Data(cfg, h) && Abstracts(h, m)
    requires p in h.plists && b < |h.plists[p]| && OnPath(cfg, k, h.paths[p] + [b])
    requires !h.plists[p][b].base.PRef?
    ensures h.plists[p][b].base.Null? ==> k !in m
    ensures h.plists[p][b].base.ERef? ==>
      h.plists[p][b].base.e in h.elists && Look(m, k) == Find(h.elists[h.plists[p][b].base.e], k)
  {
    LeafDecides(cfg, h, p, b, k);
    var base := h.plists[p][b].base;
    assert DataOK(cfg, h, p, b);
    if base.Null? {
      StoredIfPresent(h, m, k);
    } else {
      var es := h.elists[base.e];
      FindIffMember(es, k);
      StoredIfPresent(h, m, k);
      if Find(es, k).Some? {
        assert Holds(h, p, b, k, Find(es, k).value);
      }
    }
  }

  /** Each key sits in exactly one EList, in exactly one place of it. */
  lemma OnePlacePerKey(cfg: Config, h: Heap, p: nat, b: nat, v: Value, p': nat, b': nat, v': Value, k: Key)
    requires Tree(cfg, h) && Data(cfg, h)
    requires Holds(h, p, b, k, v) && Holds(h, p', b', k, v')
    ensures p == p' && b == b' && v == v'
  {
    assert DataOK(cfg, h, p, b) && DataOK(cfg, h, p', b');
    SameLeaf(cfg, h, p, b, p', b', k);
    var es := h.elists[h.plists[p][b].base.e];
    FindIffMember(es, k);
  }
}
