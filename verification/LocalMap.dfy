/** The local table as a concurrent map: linearizable as long as every rehash is aligned, and not a map beyond. */
module LocalMap {
  import opened Linearizability
  import opened IhtHeap
  import opened LocalOrder
  import L = IhtLocal
  import LocalRuns

  /** What a lookup finds that starts at the root and is not disturbed. */
  ghost function Finds(cfg: Config, m: L.Mem, k: Key): Option<Value> { LocalRuns.Lookup(cfg, m, k, m.root, 1) }

  /** In every run whose rehashes are aligned, the history is linearizable to a finite map, and lookups find exactly
      what the linear order replays to. */
  lemma LocalIsLinearizable(cfg: Config, r: seq<L.State>, acts: seq<L.Action>, i: nat)
    requires L.ValidLocal(cfg) && L.IsRun(cfg, r, acts) && i < |r| && AlignedRun(cfg, r, acts, i)
    ensures Linearizable(Recorded(cfg, r, acts, i).0)
    ensures exists lin :: IsLinearization(Recorded(cfg, r, acts, i).0, lin) && forall k :: Finds(cfg, r[i].mem, k) == Look(Replay(lin), k)
  {
    var h, lin := RunLin(cfg, r, acts, i);
    TimedIsLinearization(Recorded(cfg, r, acts, i).0, lin);
    forall k ensures Finds(cfg, r[i].mem, k) == Look(Replay(lin), k) {
      RootLookup(cfg, r[i].mem, h, Replay(lin), k);
    }
  }

  lemma RootLookup(cfg: Config, m: L.Mem, h: Heap, map': map<Key, Value>, k: Key)
    requires L.ValidLocal(cfg) && L.MemOK(cfg, m) && Represents(cfg, m, h, map')
    ensures Finds(cfg, m, k) == Look(map', k)
  {
    LookupIs(cfg, m, h, map', k, m.root, 1);
  }

  // ---------- When a rehash is not aligned ----------

  /** A rehash, when it becomes visible, changes no lookup. */
  ghost predicate LookupsStayAt(cfg: Config, r: seq<L.State>, acts: seq<L.Action>, j: nat)
    requires L.IsRun(cfg, r, acts) && j < |acts|
  {
    Switches(r[j], acts[j]) ==> forall k :: Finds(cfg, r[j + 1].mem, k) == Finds(cfg, r[j].mem, k)
  }

  predicate Switches(s: L.State, a: L.Action) { a.Next? && a.t in s.threads && s.threads[a.t].Switching? }

  lemma AlignedStays(cfg: Config, r: seq<L.State>, acts: seq<L.Action>, j: nat)
    requires L.ValidLocal(cfg) && L.IsRun(cfg, r, acts) && j < |acts| && AlignedRun(cfg, r, acts, j)
    requires Aligned(cfg, r[j], acts[j])
    ensures LookupsStayAt(cfg, r, acts, j)
  {
    if Switches(r[j], acts[j]) {
      var x := Recorded(cfg, r, acts, j);
      var h, lin := RunLin(cfg, r, acts, j);
      var h' := SwitchLin(cfg, r[j], acts[j].t, x.0, x.1, h, lin);
      forall k ensures Finds(cfg, r[j + 1].mem, k) == Finds(cfg, r[j].mem, k) {
        RootLookup(cfg, r[j].mem, h, Replay(lin), k);
        RootLookup(cfg, r[j + 1].mem, h', Replay(lin), k);
      }
    }
  }

  /** The pointers to PLists that lead down to `p` are still there. */
  ghost predicate PointersKept(m: L.Mem, m': L.Mem) {
    && m'.root == m.root && m'.next >= m.next
    && forall p: nat, b: nat | L.Has(m, p, b) && m.plists[p][b].base.PRef? :: L.Has(m', p, b) && m'.plists[p][b].base == m.plists[p][b].base
  }

  /** A lookup from the root comes through every PList on the path of its key. */
  lemma {:induction false} LookupDown(cfg: Config, m: L.Mem, h: Heap, m': L.Mem, k: Key, p: nat, d: nat)
    requires L.MemOK(cfg, m) && Sim(m, h) && Tree(cfg, h) && PointersKept(m, m')
    requires p in h.plists && d >= 1 && |h.paths[p]| == d - 1 && OnPath(cfg, k, h.paths[p])
    ensures LocalRuns.Lookup(cfg, m', k, m.root, 1) == LocalRuns.Lookup(cfg, m', k, p, d)
    decreases d
  {
    if d == 1 {
      PathUnique(cfg, h, p, h.root);
    } else {
      assert Linked(h, p);
      var u, b := h.up[p], h.paths[p][d - 2];
      assert b == cfg.Slot(k, d - 1) && L.Has(m, u, b) && L.BucketOK(cfg, m, u, b) && L.Has(m', u, b);
      LookupDown(cfg, m, h, m', k, u, d - 1);
    }
  }

  lemma InstallKeepsPointers(m: L.Mem, p: nat, b: nat, e: nat, parts: seq<EList>)
    requires L.Has(m, p, b) && !m.plists[p][b].base.PRef? && m.next !in m.plists
    ensures PointersKept(m, L.Install(m, p, b, e, parts))
  {}

  /** The first rehash that is not aligned changes a lookup. */
  lemma MisalignedLosesKey(cfg: Config, r: seq<L.State>, acts: seq<L.Action>, j: nat) returns (k: Key)
    requires L.ValidLocal(cfg) && L.IsRun(cfg, r, acts) && j < |acts| && AlignedRun(cfg, r, acts, j)
    requires !Aligned(cfg, r[j], acts[j])
    ensures Switches(r[j], acts[j])
    ensures Finds(cfg, r[j].mem, k).Some? && Finds(cfg, r[j + 1].mem, k) != Finds(cfg, r[j].mem, k)
  {
    var x := Recorded(cfg, r, acts, j);
    var h, lin := RunLin(cfg, r, acts, j);
    var s, t := r[j], acts[j].t;
    var pc, m := s.threads[t], s.mem;
    Here(cfg, s, x.0, x.1, h, lin, t);
    var y: Pair :| y in m.elists[pc.e] && cfg.Slot(y.key, pc.pos.depth + 1) != cfg.Slot(y.key, pc.pos.depth);
    k := y.key;
    RehashLoses(cfg, s, h, Replay(lin), t, y);
  }

  lemma RehashLoses(cfg: Config, s: L.State, h: Heap, map': map<Key, Value>, t: nat, y: Pair)
    requires L.Inv(cfg, s) && Represents(cfg, s.mem, h, map') && t in s.threads && s.threads[t].Switching?
    requires L.Enabled(cfg, s, L.Next(t)) && Stands(cfg, h, s.threads[t].pos) && L.PcOK(cfg, s.mem, s.threads[t])
    requires var pc := s.threads[t];
      && pc.e in s.mem.elists && y in s.mem.elists[pc.e]
      && cfg.Slot(y.key, pc.pos.depth + 1) != cfg.Slot(y.key, pc.pos.depth)
    ensures var m, m' := s.mem, L.Step(cfg, s, L.Next(t)).mem;
      Finds(cfg, m, y.key).Some? && Finds(cfg, m', y.key) != Finds(cfg, m, y.key)
  {
    var pc := s.threads[t];
    var b := L.BucketOf(cfg, pc.pos);
    assert L.Step(cfg, s, L.Next(t)).mem == L.Install(s.mem, pc.pos.p, b, pc.e, pc.parts);
    hide Represents; hide L.Install; hide L.PartsOK; hide L.Exclusive; hide L.MemOK; hide L.Step; hide OnPath;
    InstallLoses(cfg, s.mem, h, map', pc.pos.p, b, pc.e, pc.parts, pc.pos.depth, y);
  }

  lemma InstallLoses(cfg: Config, m: L.Mem, h: Heap, map': map<Key, Value>, p: nat, b: nat, e: nat, parts: seq<EList>, d: nat, y: Pair)
    requires L.ValidLocal(cfg) && L.MemOK(cfg, m) && Represents(cfg, m, h, map') && L.Has(m, p, b)
    requires p in h.paths && d >= 1 && |h.paths[p]| == d - 1 && |m.plists[p]| == cfg.Size(d)
    requires m.plists[p][b] == Bucket(ERef(e), ELocked) && e in m.elists && L.PartsOK(cfg, m.elists[e], d, parts)
    requires y in m.elists[e] && cfg.Slot(y.key, d + 1) != cfg.Slot(y.key, d)
    ensures Finds(cfg, m, y.key).Some? && Finds(cfg, L.Install(m, p, b, e, parts), y.key) != Finds(cfg, m, y.key)
  {
    assert Tree(cfg, h) && Sim(m, h) && m.next !in m.plists;
    InBucket(cfg, m, h, map', p, b, e, y, d);
    PartsFit(cfg, m, p, b, e, d, parts);
    InstallKeepsPointers(m, p, b, e, parts);
    assert PointersKept(m, m) && p in h.plists && L.Install(m, p, b, e, parts).root == m.root;
    hide Represents; hide Tree; hide L.Install; hide L.PartsOK; hide L.Fitting; hide PointersKept; hide OnPath; hide L.MemOK;
    hide L.ValidLocal; hide Find; hide Sim;
    LookupDown(cfg, m, h, m, y.key, p, d);
    LookupDown(cfg, m, h, L.Install(m, p, b, e, parts), y.key, p, d);
    LocalRuns.FoundAfterRehashIff(cfg, m, p, e, parts, d, y.key);
  }

  /** A pair of the bucket is on its key's path, and found. */
  lemma InBucket(cfg: Config, m: L.Mem, h: Heap, map': map<Key, Value>, p: nat, b: nat, e: nat, y: Pair, d: nat)
    requires Represents(cfg, m, h, map') && L.Has(m, p, b) && p in h.paths && |h.paths[p]| == d - 1 && d >= 1
    requires m.plists[p][b].base == ERef(e) && e in m.elists && y in m.elists[e]
    ensures OnPath(cfg, y.key, h.paths[p]) && cfg.Slot(y.key, d) == b && Find(m.elists[e], y.key).Some?
  {
    assert DataOK(cfg, h, p, b);
    var path := h.paths[p] + [b];
    assert OnPath(cfg, y.key, path);
    assert path[d - 1] == cfg.Slot(y.key, d);
    forall i | 0 <= i < |h.paths[p]| ensures h.paths[p][i] == cfg.Slot(y.key, i + 1) { assert path[i] == h.paths[p][i]; }
    FindIffMember(m.elists[e], y.key);
    assert Pair(y.key, y.val) == y;
  }

  lemma PartsFit(cfg: Config, m: L.Mem, p: nat, b: nat, e: nat, d: nat, parts: seq<EList>)
    requires L.MemOK(cfg, m) && L.Has(m, p, b) && m.plists[p][b] == Bucket(ERef(e), ELocked) && e in m.elists
    requires |m.plists[p]| == cfg.Size(d) && L.PartsOK(cfg, m.elists[e], d, parts)
    ensures L.Fitting(cfg, m, p, b, e, parts)
  {
    assert L.BucketOK(cfg, m, p, b);
    forall j | 0 <= j < |parts| ensures |parts[j]| <= cfg.eSize && Distinct(parts[j]) {
      PartMembers(cfg, m.elists[e], d, j);
    }
  }

  /** A run loses no key to a rehash exactly when every rehash is aligned. */
  lemma AlignedIffLookupsStay(cfg: Config, r: seq<L.State>, acts: seq<L.Action>, i: nat)
    requires L.ValidLocal(cfg) && L.IsRun(cfg, r, acts) && i < |r|
    ensures AlignedRun(cfg, r, acts, i) <==> forall j | 0 <= j < i :: LookupsStayAt(cfg, r, acts, j)
  {
    if AlignedRun(cfg, r, acts, i) {
      forall j | 0 <= j < i ensures LookupsStayAt(cfg, r, acts, j) { AlignedStays(cfg, r, acts, j); }
    } else {
      var j := FirstMisaligned(cfg, r, acts, i);
      var k := MisalignedLosesKey(cfg, r, acts, j);
      assert !LookupsStayAt(cfg, r, acts, j);
    }
  }

  lemma {:induction false} FirstMisaligned(cfg: Config, r: seq<L.State>, acts: seq<L.Action>, i: nat) returns (j: nat)
    requires L.IsRun(cfg, r, acts) && i < |r| && !AlignedRun(cfg, r, acts, i)
    ensures j < i && AlignedRun(cfg, r, acts, j) && !Aligned(cfg, r[j], acts[j])
  {
    if AlignedRun(cfg, r, acts, i - 1) {
      j := i - 1;
      assert forall n | 0 <= n < i - 1 :: Aligned(cfg, r[n], acts[n]);
    } else {
      j := FirstMisaligned(cfg, r, acts, i - 1);
    }
  }
}
