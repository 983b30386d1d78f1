/** The local table as a map. Where a rehash puts every pair into the bucket in which later lookups search, the memory
    represents a finite map, each operation takes effect in one step under its bucket lock, and the history is
    linearizable. The memory is compared with a heap of the RDMA table, which has the same lists and, for the proof,
    the bucket path of every PList. */
module LocalOrder {
  import opened Linearizability
  import opened IhtHeap
  import opened IhtUpdates
  import L = IhtLocal
  import LocalRuns

  ghost predicate Sim(m: L.Mem, h: Heap) {
    h.root == m.root && h.plists == m.plists && h.elists == m.elists && h.next == m.next
  }

  /** The memory stores exactly the pairs of `map`, each on the path of its key. */
  ghost predicate Represents(cfg: Config, m: L.Mem, h: Heap, map': map<Key, Value>) {
    Sim(m, h) && Tree(cfg, h) && Data(cfg, h) && Abstracts(h, map')
  }

  /** Rehashing at depth `d` puts the pairs of the list where lookups at the next depth search. */
  ghost predicate AlignedList(cfg: Config, es: EList, d: nat) {
    forall x: Pair | x in es :: cfg.Slot(x.key, d + 1) == cfg.Slot(x.key, d)
  }

  // ---------- Each write, on the memory and on the heap ----------

  lemma {:induction false} SameParts(cfg: Config, es: EList, d: nat, j: nat)
    requires AlignedList(cfg, es, d)
    ensures Part(cfg, es, d + 1, j) == Part(cfg, es, d, j)
  {
    if es != [] {
      var n := |es| - 1;
      assert es[n] in es && forall x: Pair | x in es[..n] :: x in es;
      SameParts(cfg, es[..n], d, j);
    }
  }

  lemma SimLock(m: L.Mem, h: Heap, p: nat, b: nat, l: Lock)
    requires Sim(m, h) && L.Has(m, p, b)
    ensures Sim(L.SetLock(m, p, b, l), SetLock(h, p, b, l))
  {}

  lemma SimAttach(m: L.Mem, h: Heap, p: nat, b: nat, es: EList)
    requires Sim(m, h) && L.Has(m, p, b)
    ensures Sim(L.Attach(m, p, b, es), NewElist(h, p, b, es))
  {}

  lemma SimList(m: L.Mem, h: Heap, e: nat, es: EList)
    requires Sim(m, h)
    ensures Sim(m.(elists := m.elists[e := es]), SetElist(h, e, es))
  {}

  lemma SimInstall(cfg: Config, m: L.Mem, h: Heap, p: nat, b: nat, e: nat, parts: seq<EList>, d: nat)
    requires Sim(m, h) && InTree(h, p, b) && e in m.elists && d == |h.paths[p]| + 1 && p != m.next
    requires L.PartsOK(cfg, m.elists[e], d, parts) && AlignedList(cfg, m.elists[e], d)
    ensures Sim(L.Install(m, p, b, e, parts), Calcify(cfg, h, p, b, m.elists[e]))
  {
    var es := m.elists[e];
    forall i | 0 <= i < |parts| ensures parts[i] == Part(cfg, es, d + 1, i) { SameParts(cfg, es, d, i); }
    assert ChildSize(cfg, h, p) == |parts|;
    hide Part; hide L.PartsOK; hide AlignedList;
    InstalledChildren(cfg, m, h, p, es, parts);
    InstalledLists(cfg, m, h, p, es, parts);
    hide ChildPList; hide ChildElists; hide L.Fresh;
  }

  ghost function Children(m: L.Mem, parts: seq<EList>): PList {
    seq(|parts|, i requires 0 <= i < |parts| => Bucket(if parts[i] == [] then Null else ERef(m.next + 1 + i), EUnlocked))
  }

  ghost function NewLists(m: L.Mem, parts: seq<EList>): map<nat, EList> {
    map f: nat | 0 <= f < m.next + 1 + |parts| && L.Fresh(m, parts, f) :: parts[f - m.next - 1]
  }

  lemma InstalledChildren(cfg: Config, m: L.Mem, h: Heap, p: nat, es: EList, parts: seq<EList>)
    requires Sim(m, h) && p in h.paths && ChildSize(cfg, h, p) == |parts|
    requires forall i | 0 <= i < |parts| :: parts[i] == Part(cfg, es, |h.paths[p]| + 2, i)
    ensures ChildPList(cfg, h, p, es) == Children(m, parts)
  {
    hide Part;
  }

  lemma InstalledLists(cfg: Config, m: L.Mem, h: Heap, p: nat, es: EList, parts: seq<EList>)
    requires Sim(m, h) && p in h.paths && ChildSize(cfg, h, p) == |parts|
    requires forall i | 0 <= i < |parts| :: parts[i] == Part(cfg, es, |h.paths[p]| + 2, i)
    ensures ChildElists(cfg, h, p, es) == NewLists(m, parts)
  {
    hide Part;
  }

  lemma LockKeeps(cfg: Config, m: L.Mem, h: Heap, map': map<Key, Value>, p: nat, b: nat, l: Lock)
    requires Represents(cfg, m, h, map') && InTree(h, p, b)
    requires (l.PUnlocked? ==> h.plists[p][b].base.PRef?) && (l.EUnlocked? ==> !h.plists[p][b].base.PRef?)
    ensures Represents(cfg, L.SetLock(m, p, b, l), SetLock(h, p, b, l), map')
  {
    SetLockKeepsTree(cfg, h, p, b, l);
    SetLockKeepsData(cfg, h, p, b, l);
    SimLock(m, h, p, b, l);
    hide Tree; hide Data; hide Stores; hide SetLock;
  }

  lemma AttachKeeps(cfg: Config, m: L.Mem, h: Heap, map': map<Key, Value>, p: nat, b: nat, k: Key, v: Value)
    requires Represents(cfg, m, h, map') && InTree(h, p, b) && cfg.eSize >= 1
    requires h.plists[p][b].base.Null? && OnPath(cfg, k, h.paths[p] + [b])
    ensures k !in map' && Represents(cfg, L.Attach(m, p, b, [Pair(k, v)]), NewElist(h, p, b, [Pair(k, v)]), map'[k := v])
  {
    NewElistStores(cfg, h, p, b, k, v, map');
    NewElistKeepsTree(cfg, h, p, b, [Pair(k, v)]);
    SimAttach(m, h, p, b, [Pair(k, v)]);
    hide Tree; hide Data; hide Abstracts;
  }

  lemma AppendKeeps(cfg: Config, m: L.Mem, h: Heap, map': map<Key, Value>, p: nat, b: nat, e: nat, k: Key, v: Value)
    requires Represents(cfg, m, h, map') && InTree(h, p, b) && h.plists[p][b].base == ERef(e) && e in h.elists
    requires OnPath(cfg, k, h.paths[p] + [b]) && Find(h.elists[e], k).None? && |h.elists[e]| < cfg.eSize
    ensures var es := h.elists[e] + [Pair(k, v)];
      k !in map' && Represents(cfg, m.(elists := m.elists[e := es]), SetElist(h, e, es), map'[k := v])
  {
    var es := h.elists[e] + [Pair(k, v)];
    AddPairStores(cfg, h, p, b, e, k, v, map');
    SetElistKeepsTree(cfg, h, e, es);
    SimList(m, h, e, es);
    hide Tree; hide Data; hide Abstracts; hide Find;
  }

  lemma TakenOut(es: EList, i: nat, k: Key)
    requires Distinct(es) && i < |es| && es[i].key == k
    ensures L.WithoutAt(es, i) == Without(es, k) && Find(es, k) == Some(es[i].val)
  {
    IndexMissing(es, k);
    FindIffMember(es, k);
    assert Pair(k, es[i].val) == es[i];
  }

  lemma RemoveKeeps(cfg: Config, m: L.Mem, h: Heap, map': map<Key, Value>, p: nat, b: nat, e: nat, i: nat, k: Key)
    requires Represents(cfg, m, h, map') && InTree(h, p, b) && h.plists[p][b].base == ERef(e) && e in h.elists
    requires OnPath(cfg, k, h.paths[p] + [b]) && Distinct(h.elists[e]) && i < |h.elists[e]| && h.elists[e][i].key == k
    ensures var es := L.WithoutAt(h.elists[e], i);
      Represents(cfg, m.(elists := m.elists[e := es]), SetElist(h, e, es), map' - {k})
  {
    TakenOut(h.elists[e], i, k);
    var es := Without(h.elists[e], k);
    RemoveKeyStores(cfg, h, p, b, e, k, map');
    SetElistKeepsTree(cfg, h, e, es);
    SimList(m, h, e, es);
    hide Tree; hide Data; hide Abstracts; hide Find; hide Without;
  }

  lemma InstallKeeps(cfg: Config, m: L.Mem, h: Heap, map': map<Key, Value>, p: nat, b: nat, e: nat, parts: seq<EList>, d: nat)
    requires L.ValidLocal(cfg) && Represents(cfg, m, h, map') && InTree(h, p, b) && e in m.elists && d == |h.paths[p]| + 1
    requires h.plists[p][b] == Bucket(ERef(e), ELocked)
    requires L.PartsOK(cfg, m.elists[e], d, parts) && AlignedList(cfg, m.elists[e], d)
    ensures Represents(cfg, L.Install(m, p, b, e, parts), Calcify(cfg, h, p, b, m.elists[e]), map')
  {
    SimInstall(cfg, m, h, p, b, e, parts, d);
    CalcifyKeepsTree(cfg, h, p, b, m.elists[e]);
    CalcifyKeepsData(cfg, h, p, b, e);
    assert forall x: Pair | x in h.elists[e] :: cfg.Slot(x.key, d + 1) < cfg.Size(d + 1);
    CalcifyStoresInRange(cfg, h, p, b, e);
    hide Tree; hide Data; hide Stores; hide Calcify; hide L.Install;
  }

  // ---------- What a lookup finds ----------

  /** What the bucket of a key says when a thread looks there. */
  lemma BucketSays(cfg: Config, m: L.Mem, h: Heap, map': map<Key, Value>, p: nat, b: nat, k: Key)
    requires Represents(cfg, m, h, map') && InTree(h, p, b) && OnPath(cfg, k, h.paths[p] + [b])
    ensures h.plists[p][b].base.Null? ==> k !in map'
    ensures h.plists[p][b].base.ERef? ==>
      h.plists[p][b].base.e in h.elists && Look(map', k) == Find(h.elists[h.plists[p][b].base.e], k)
  {
    if !h.plists[p][b].base.PRef? { LeafLookup(cfg, h, map', p, b, k); }
  }

  // ---------- History ----------

  /** The operations under way: for each thread the step at which its operation began. */
  type Ids = map<nat, nat>

  /** A rehash may go ahead when it is aligned. */
  ghost predicate Aligned(cfg: Config, s: L.State, a: L.Action)
    requires L.Enabled(cfg, s, a)
  {
    a.Next? && s.threads[a.t].Switching? ==>
      var pc := s.threads[a.t];
      pc.e in s.mem.elists && AlignedList(cfg, s.mem.elists[pc.e], pc.pos.depth)
  }

  predicate Returns(pc: L.Pc) { pc.Unlocking? && pc.lock.EUnlocked? }

  function EventOf(s: L.State, a: L.Action, ids: Ids): Event
    requires a.t in s.threads
  {
    match a
    case Begin(_, op) => Inv(op)
    case Next(t) => if Returns(s.threads[t]) && t in ids then Res(ids[t], s.threads[t].result) else Tau
  }

  function NextIds(a: L.Action, ids: Ids, now: nat): Ids { if a.Begin? then ids[a.t := now] else ids }

  // ---------- The invariant ----------

  /** The thread stands on the path of its key. */
  ghost predicate Stands(cfg: Config, h: Heap, pos: L.Pos) {
    && pos.depth >= 1 && pos.p in h.plists && pos.p in h.paths
    && |h.paths[pos.p]| == pos.depth - 1 && OnPath(cfg, pos.op.key, h.paths[pos.p])
  }

  ghost predicate ThreadLin(cfg: Config, h: Heap, hist: seq<Event>, lin: seq<LinPoint>, pc: L.Pc, id: nat) {
    !pc.Idle? ==>
      && Stands(cfg, h, pc.pos) && Pending(hist, id, pc.pos.op)
      && (if Returns(pc) then Answered(lin, id, pc.result) else !Listed(lin, id))
  }

  ghost predicate ThreadsLin(cfg: Config, s: L.State, hist: seq<Event>, ids: Ids, h: Heap, lin: seq<LinPoint>) {
    forall t | t in s.threads && !s.threads[t].Idle? :: t in ids && ThreadLin(cfg, h, hist, lin, s.threads[t], ids[t])
  }

  ghost predicate DistinctIds(s: L.State, ids: Ids) {
    forall t, u | t in s.threads && u in s.threads && t != u && !s.threads[t].Idle? && !s.threads[u].Idle? && t in ids && u in ids ::
      ids[t] != ids[u]
  }

  ghost predicate LinInv(cfg: Config, s: L.State, hist: seq<Event>, ids: Ids, h: Heap, lin: seq<LinPoint>) {
    && L.Inv(cfg, s) && cfg.eSize >= 1
    && Represents(cfg, s.mem, h, Replay(lin))
    && Timed(hist, lin)
    && ThreadsLin(cfg, s, hist, ids, h, lin)
    && DistinctIds(s, ids)
  }

  // ---------- One thread moves ----------

  ghost predicate PathsKept(h: Heap, h': Heap) {
    forall p | p in h.plists && p in h.paths :: p in h'.plists && p in h'.paths && h'.paths[p] == h.paths[p]
  }

  lemma ThreadKept(cfg: Config, h: Heap, h': Heap, hist: seq<Event>, ev: Event, lin: seq<LinPoint>, lin': seq<LinPoint>,
                   pc: L.Pc, id: nat, mover: nat)
    requires ThreadLin(cfg, h, hist, lin, pc, id) && PathsKept(h, h') && LinExtends(lin, lin', |hist|, mover)
    requires !pc.Idle? ==> id != mover && (ev.Res? ==> ev.id != id)
    ensures ThreadLin(cfg, h', hist + [ev], lin', pc, id)
  {
    if !pc.Idle? { PendingExtend(hist, id, pc.pos.op, ev); }
  }

  lemma OthersLin(cfg: Config, s: L.State, a: L.Action, hist: seq<Event>, ids: Ids, h: Heap, lin: seq<LinPoint>,
                  h': Heap, lin': seq<LinPoint>)
    requires LinInv(cfg, s, hist, ids, h, lin) && L.Enabled(cfg, s, a) && a.t in NextIds(a, ids, |hist|)
    requires PathsKept(h, h') && LinExtends(lin, lin', |hist|, NextIds(a, ids, |hist|)[a.t])
    ensures var ids' := NextIds(a, ids, |hist|); forall t | t in s.threads && t != a.t && !s.threads[t].Idle? ::
      t in ids' && ThreadLin(cfg, h', hist + [EventOf(s, a, ids)], lin', s.threads[t], ids'[t])
  {
    hide LinInv; hide LinExtends; hide ThreadLin; hide PathsKept;
    var ev, ids' := EventOf(s, a, ids), NextIds(a, ids, |hist|);
    forall t | t in s.threads && t != a.t && !s.threads[t].Idle?
      ensures t in ids' && ThreadLin(cfg, h', hist + [ev], lin', s.threads[t], ids'[t])
    {
      OtherId(cfg, s, a, hist, ids, h, lin, t);
      ThreadKept(cfg, h, h', hist, ev, lin, lin', s.threads[t], ids[t], ids'[a.t]);
    }
  }

  lemma StillDistinct(cfg: Config, s: L.State, a: L.Action, hist: seq<Event>, ids: Ids, h: Heap, lin: seq<LinPoint>)
    requires LinInv(cfg, s, hist, ids, h, lin) && L.Enabled(cfg, s, a) && a.t in NextIds(a, ids, |hist|)
    ensures DistinctIds(L.Step(cfg, s, a), NextIds(a, ids, |hist|))
  {
    SameOthers(cfg, s, a);
    assert DistinctIds(s, ids);
    hide LinInv; hide L.Step; hide L.Enabled;
    var s', ids' := L.Step(cfg, s, a), NextIds(a, ids, |hist|);
    forall t, u | t in s'.threads && u in s'.threads && t != u && !s'.threads[t].Idle? && !s'.threads[u].Idle? && t in ids' && u in ids'
      ensures ids'[t] != ids'[u]
    {
      if t != a.t { OtherId(cfg, s, a, hist, ids, h, lin, t); }
      if u != a.t { OtherId(cfg, s, a, hist, ids, h, lin, u); }
    }
  }

  /** What a move has to show: the memory still represents the map, and the moving thread is in order. */
  lemma Moves(cfg: Config, s: L.State, a: L.Action, hist: seq<Event>, ids: Ids, h: Heap, lin: seq<LinPoint>,
              h': Heap, lin': seq<LinPoint>)
    requires LinInv(cfg, s, hist, ids, h, lin) && L.Enabled(cfg, s, a) && a.t in NextIds(a, ids, |hist|)
    requires Represents(cfg, L.Step(cfg, s, a).mem, h', Replay(lin')) && PathsKept(h, h')
    requires var ev, id := EventOf(s, a, ids), NextIds(a, ids, |hist|)[a.t];
      && Timed(hist + [ev], lin') && LinExtends(lin, lin', |hist|, id)
      && ThreadLin(cfg, h', hist + [ev], lin', L.Step(cfg, s, a).threads[a.t], id)
    ensures LinInv(cfg, L.Step(cfg, s, a), hist + [EventOf(s, a, ids)], NextIds(a, ids, |hist|), h', lin')
  {
    L.StepInv(cfg, s, a);
    SameOthers(cfg, s, a);
    OthersLin(cfg, s, a, hist, ids, h, lin, h', lin');
    StillDistinct(cfg, s, a, hist, ids, h, lin);
    hide L.Inv; hide L.Step; hide L.Enabled; hide Represents; hide Timed; hide LinExtends; hide ThreadLin; hide PathsKept; hide DistinctIds;
  }

  lemma SameOthers(cfg: Config, s: L.State, a: L.Action)
    requires L.Enabled(cfg, s, a)
    ensures L.Step(cfg, s, a).threads.Keys == s.threads.Keys
    ensures forall t | t in s.threads && t != a.t :: L.Step(cfg, s, a).threads[t] == s.threads[t]
  {}

  /** No other thread has the operation of the one that moves. */
  lemma OtherId(cfg: Config, s: L.State, a: L.Action, hist: seq<Event>, ids: Ids, h: Heap, lin: seq<LinPoint>, t: nat)
    requires LinInv(cfg, s, hist, ids, h, lin) && L.Enabled(cfg, s, a) && a.t in NextIds(a, ids, |hist|)
    requires t in s.threads && t != a.t && !s.threads[t].Idle?
    ensures t in ids && NextIds(a, ids, |hist|)[t] == ids[t] != NextIds(a, ids, |hist|)[a.t]
    ensures EventOf(s, a, ids).Res? ==> EventOf(s, a, ids).id != ids[t]
    ensures ThreadLin(cfg, h, hist, lin, s.threads[t], ids[t])
  {
    hide L.Inv; hide Represents; hide Timed;
    assert ThreadLin(cfg, h, hist, lin, s.threads[t], ids[t]);
  }

  /** Where a thread stands: its bucket is in the tree and on the path of its key. */
  lemma Here(cfg: Config, s: L.State, hist: seq<Event>, ids: Ids, h: Heap, lin: seq<LinPoint>, t: nat)
    requires LinInv(cfg, s, hist, ids, h, lin) && t in s.threads && !s.threads[t].Idle?
    ensures var pc := s.threads[t]; var b := L.BucketOf(cfg, pc.pos);
      && t in ids && ThreadLin(cfg, h, hist, lin, pc, ids[t]) && L.PcOK(cfg, s.mem, pc)
      && InTree(h, pc.pos.p, b) && L.Has(s.mem, pc.pos.p, b) && OnPath(cfg, pc.pos.op.key, h.paths[pc.pos.p] + [b])
    ensures Represents(cfg, s.mem, h, Replay(lin)) && Timed(hist, lin) && L.ValidLocal(cfg) && cfg.eSize >= 1
  {
    var pc := s.threads[t];
    assert ThreadLin(cfg, h, hist, lin, pc, ids[t]) && L.PcOK(cfg, s.mem, pc);
    hide Tree; hide Data; hide Abstracts; hide Timed; hide L.MemOK; hide L.Exclusive;
  }

  lemma SameLin(lin: seq<LinPoint>, n: nat, id: nat)
    ensures LinExtends(lin, lin, n, id)
  {}

  /** A step that changes neither the map nor what the thread has to answer. */
  lemma Quiet(cfg: Config, s: L.State, t: nat, hist: seq<Event>, ids: Ids, h: Heap, lin: seq<LinPoint>, h': Heap)
    requires LinInv(cfg, s, hist, ids, h, lin) && L.Enabled(cfg, s, L.Next(t)) && !Returns(s.threads[t])
    requires Represents(cfg, L.Step(cfg, s, L.Next(t)).mem, h', Replay(lin)) && PathsKept(h, h')
    requires var pc, pc' := s.threads[t], L.Step(cfg, s, L.Next(t)).threads[t];
      !pc'.Idle? && !Returns(pc') && pc'.pos.op == pc.pos.op && Stands(cfg, h', pc'.pos)
    ensures LinInv(cfg, L.Step(cfg, s, L.Next(t)), hist + [Tau], ids, h', lin)
  {
    Here(cfg, s, hist, ids, h, lin, t);
    hide LinInv; hide Represents; hide Timed; hide PathsKept; hide Stands; hide L.PcOK; hide L.Step;
    TimedExtend(hist, lin, Tau);
    PendingExtend(hist, ids[t], s.threads[t].pos.op, Tau);
    SameLin(lin, |hist|, ids[t]);
    hide LinExtends;
    Moves(cfg, s, L.Next(t), hist, ids, h, lin, h', lin);
  }

  /** The step at which an operation takes effect. */
  lemma TakesEffect(cfg: Config, s: L.State, t: nat, hist: seq<Event>, ids: Ids, h: Heap, lin: seq<LinPoint>, h': Heap)
    returns (lin': seq<LinPoint>)
    requires LinInv(cfg, s, hist, ids, h, lin) && L.Enabled(cfg, s, L.Next(t)) && !Returns(s.threads[t])
    requires Represents(cfg, L.Step(cfg, s, L.Next(t)).mem, h', Effect(Replay(lin), s.threads[t].pos.op)) && PathsKept(h, h')
    requires L.Step(cfg, s, L.Next(t)).threads[t] ==
      L.Unlocking(s.threads[t].pos, EUnlocked, ResultOf(Replay(lin), s.threads[t].pos.op))
    ensures LinInv(cfg, L.Step(cfg, s, L.Next(t)), hist + [Tau], ids, h', lin')
  {
    Here(cfg, s, hist, ids, h, lin, t);
    var pos := s.threads[t].pos;
    lin' := TakeEffectNow(hist, lin, ids[t], pos.op);
    PendingExtend(hist, ids[t], pos.op, Tau);
    hide LinInv; hide Represents; hide Timed; hide L.PcOK; hide L.Step; hide LinExtends; hide Replay; hide Effect; hide ResultOf;
    assert Stands(cfg, h', pos);
    Moves(cfg, s, L.Next(t), hist, ids, h, lin, h', lin');
  }

  // ---------- The steps ----------

  lemma NewId(hist: seq<Event>, lin: seq<LinPoint>, op: Op)
    requires Timed(hist, lin)
    ensures !Listed(lin, |hist|) && Pending(hist + [Inv(op)], |hist|, op)
  {
    var now := hist + [Inv(op)];
    forall r | 0 <= r < |now| && now[r].Res? ensures now[r].id != |hist| {
      assert r < |hist| && now[r] == hist[r] && Answered(lin, hist[r].id, hist[r].result);
    }
  }

  lemma BeginLin(cfg: Config, s: L.State, t: nat, op: Op, hist: seq<Event>, ids: Ids, h: Heap, lin: seq<LinPoint>)
    requires LinInv(cfg, s, hist, ids, h, lin) && L.Enabled(cfg, s, L.Begin(t, op))
    ensures LinInv(cfg, L.Step(cfg, s, L.Begin(t, op)), hist + [Inv(op)], ids[t := |hist|], h, lin)
  {
    NewId(hist, lin, op);
    TimedExtend(hist, lin, Inv(op));
    SameLin(lin, |hist|, |hist|);
    hide Timed; hide LinExtends; hide Tree; hide Data; hide Abstracts;
    assert Stands(cfg, h, L.Pos(op, s.mem.root, 1)) by { assert Tree(cfg, h); }
    Moves(cfg, s, L.Begin(t, op), hist, ids, h, lin, h, lin);
  }

  lemma SeekLin(cfg: Config, s: L.State, t: nat, hist: seq<Event>, ids: Ids, h: Heap, lin: seq<LinPoint>) returns (h': Heap)
    requires LinInv(cfg, s, hist, ids, h, lin) && L.Enabled(cfg, s, L.Next(t)) && s.threads[t].Seeking?
    ensures LinInv(cfg, L.Step(cfg, s, L.Next(t)), hist + [Tau], ids, h', lin)
  {
    Here(cfg, s, hist, ids, h, lin, t);
    hide LinInv; hide Tree; hide Data; hide Abstracts; hide Timed;
    var pos := s.threads[t].pos;
    var b := L.BucketOf(cfg, pos);
    h' := h;
    if s.mem.plists[pos.p][b].lock.EUnlocked? {
      h' := SetLock(h, pos.p, b, ELocked);
      LockKeeps(cfg, s.mem, h, Replay(lin), pos.p, b, ELocked);
    }
    Quiet(cfg, s, t, hist, ids, h, lin, h');
  }

  lemma ChildPath(cfg: Config, h: Heap, pos: L.Pos)
    requires Tree(cfg, h) && Stands(cfg, h, pos) && InTree(h, pos.p, L.BucketOf(cfg, pos))
    requires OnPath(cfg, pos.op.key, h.paths[pos.p] + [L.BucketOf(cfg, pos)])
    requires h.plists[pos.p][L.BucketOf(cfg, pos)].base.PRef?
    ensures Stands(cfg, h, pos.(p := h.plists[pos.p][L.BucketOf(cfg, pos)].base.p, depth := pos.depth + 1))
  {
    assert BucketOK(h, pos.p, L.BucketOf(cfg, pos));
  }

  lemma DescendLin(cfg: Config, s: L.State, t: nat, hist: seq<Event>, ids: Ids, h: Heap, lin: seq<LinPoint>)
    requires LinInv(cfg, s, hist, ids, h, lin) && L.Enabled(cfg, s, L.Next(t)) && s.threads[t].Descending?
    ensures LinInv(cfg, L.Step(cfg, s, L.Next(t)), hist + [Tau], ids, h, lin)
  {
    Here(cfg, s, hist, ids, h, lin, t);
    hide LinInv; hide Tree; hide Data; hide Abstracts; hide Timed; hide OnPath;
    ChildPath(cfg, h, s.threads[t].pos);
    Quiet(cfg, s, t, hist, ids, h, lin, h);
  }

  /** A null pointer: an insert attaches a new list, and the other operations find nothing. */
  lemma LookLin(cfg: Config, s: L.State, t: nat, hist: seq<Event>, ids: Ids, h: Heap, lin: seq<LinPoint>)
    returns (h': Heap, lin': seq<LinPoint>)
    requires LinInv(cfg, s, hist, ids, h, lin) && L.Enabled(cfg, s, L.Next(t)) && s.threads[t].Locked?
    ensures LinInv(cfg, L.Step(cfg, s, L.Next(t)), hist + [Tau], ids, h', lin')
  {
    Here(cfg, s, hist, ids, h, lin, t);
    hide LinInv; hide Tree; hide Data; hide Abstracts; hide Timed; hide OnPath; hide Replay;
    var pos := s.threads[t].pos;
    var b, map' := L.BucketOf(cfg, pos), Replay(lin);
    BucketSays(cfg, s.mem, h, map', pos.p, b, pos.op.key);
    if s.mem.plists[pos.p][b].base.ERef? {
      h', lin' := h, lin;
      Quiet(cfg, s, t, hist, ids, h, lin, h);
    } else {
      h' := h;
      if pos.op.Insert? {
        AttachKeeps(cfg, s.mem, h, map', pos.p, b, pos.op.key, pos.op.val);
        h' := NewElist(h, pos.p, b, [Pair(pos.op.key, pos.op.val)]);
      } else {
        assert Effect(map', pos.op) == map';
      }
      lin' := TakesEffect(cfg, s, t, hist, ids, h, lin, h');
    }
  }

  lemma MoveLin(cfg: Config, s: L.State, t: nat, hist: seq<Event>, ids: Ids, h: Heap, lin: seq<LinPoint>)
    requires LinInv(cfg, s, hist, ids, h, lin) && L.Enabled(cfg, s, L.Next(t)) && s.threads[t].Rehashing?
    ensures LinInv(cfg, L.Step(cfg, s, L.Next(t)), hist + [Tau], ids, h, lin)
  {
    Here(cfg, s, hist, ids, h, lin, t);
    hide LinInv; hide Tree; hide Data; hide Abstracts; hide Timed; hide OnPath;
    Quiet(cfg, s, t, hist, ids, h, lin, h);
  }

  lemma SwitchLin(cfg: Config, s: L.State, t: nat, hist: seq<Event>, ids: Ids, h: Heap, lin: seq<LinPoint>) returns (h': Heap)
    requires LinInv(cfg, s, hist, ids, h, lin) && L.Enabled(cfg, s, L.Next(t)) && s.threads[t].Switching?
    requires Aligned(cfg, s, L.Next(t))
    ensures LinInv(cfg, L.Step(cfg, s, L.Next(t)), hist + [Tau], ids, h', lin)
  {
    Here(cfg, s, hist, ids, h, lin, t);
    var pc := s.threads[t];
    var b := L.BucketOf(cfg, pc.pos);
    h' := Calcify(cfg, h, pc.pos.p, b, s.mem.elists[pc.e]);
    assert PathsKept(h, h') by { assert Shape(cfg, h); }
    hide LinInv; hide Tree; hide Data; hide Abstracts; hide Timed; hide OnPath; hide L.Install; hide Calcify; hide AlignedList;
    hide L.PartsOK;
    InstallKeeps(cfg, s.mem, h, Replay(lin), pc.pos.p, b, pc.e, pc.parts, pc.pos.depth);
    assert Stands(cfg, h', pc.pos);
    Quiet(cfg, s, t, hist, ids, h, lin, h');
  }

  lemma UnlockLin(cfg: Config, s: L.State, t: nat, hist: seq<Event>, ids: Ids, h: Heap, lin: seq<LinPoint>) returns (h': Heap)
    requires LinInv(cfg, s, hist, ids, h, lin) && L.Enabled(cfg, s, L.Next(t)) && s.threads[t].Unlocking?
    ensures LinInv(cfg, L.Step(cfg, s, L.Next(t)), hist + [EventOf(s, L.Next(t), ids)], ids, h', lin)
  {
    Here(cfg, s, hist, ids, h, lin, t);
    hide LinInv; hide Tree; hide Data; hide Abstracts; hide Timed; hide OnPath;
    var pc := s.threads[t];
    var b := L.BucketOf(cfg, pc.pos);
    h' := SetLock(h, pc.pos.p, b, pc.lock);
    LockKeeps(cfg, s.mem, h, Replay(lin), pc.pos.p, b, pc.lock);
    if Returns(pc) {
      TimedExtend(hist, lin, Res(ids[t], pc.result));
      SameLin(lin, |hist|, ids[t]);
      hide LinExtends;
      Moves(cfg, s, L.Next(t), hist, ids, h, lin, h', lin);
    } else {
      Quiet(cfg, s, t, hist, ids, h, lin, h');
    }
  }

  /** What the scan knows about the list. */
  lemma Scanning(cfg: Config, s: L.State, hist: seq<Event>, ids: Ids, h: Heap, lin: seq<LinPoint>, t: nat)
    requires LinInv(cfg, s, hist, ids, h, lin) && L.Enabled(cfg, s, L.Next(t)) && s.threads[t].Searching?
    ensures var pc := s.threads[t]; var b := L.BucketOf(cfg, pc.pos);
      && pc.e in h.elists && h.elists == s.mem.elists && h.plists == s.mem.plists && InTree(h, pc.pos.p, b)
      && h.plists[pc.pos.p][b].base == ERef(pc.e)
      && Distinct(h.elists[pc.e]) && pc.i <= |h.elists[pc.e]|
      && (forall j | 0 <= j < pc.i :: h.elists[pc.e][j].key != pc.pos.op.key)
  {
    Here(cfg, s, hist, ids, h, lin, t);
    hide LinInv; hide Tree; hide Abstracts; hide Timed;
    assert DataOK(cfg, h, s.threads[t].pos.p, L.BucketOf(cfg, s.threads[t].pos));
  }

  lemma NotFound(es: EList, k: Key)
    requires forall j | 0 <= j < |es| :: es[j].key != k
    ensures Find(es, k) == None
  {
    FindIffMember(es, k);
    assert forall x: Pair | x in es :: x.key != k;
  }

  /** The scan goes on, or finds the key, or reaches the end. */
  lemma ScanLin(cfg: Config, s: L.State, t: nat, hist: seq<Event>, ids: Ids, h: Heap, lin: seq<LinPoint>)
    returns (h': Heap, lin': seq<LinPoint>)
    requires LinInv(cfg, s, hist, ids, h, lin) && L.Enabled(cfg, s, L.Next(t)) && s.threads[t].Searching?
    ensures LinInv(cfg, L.Step(cfg, s, L.Next(t)), hist + [Tau], ids, h', lin')
  {
    Here(cfg, s, hist, ids, h, lin, t);
    Scanning(cfg, s, hist, ids, h, lin, t);
    hide LinInv; hide Tree; hide Data; hide Abstracts; hide Timed; hide OnPath; hide Replay; hide Find;
    var pc := s.threads[t];
    var k, es, map' := pc.pos.op.key, s.mem.elists[pc.e], Replay(lin);
    BucketSays(cfg, s.mem, h, map', pc.pos.p, L.BucketOf(cfg, pc.pos), k);
    h', lin' := h, lin;
    if pc.i < |es| && es[pc.i].key == k {
      h', lin' := FoundLin(cfg, s, t, hist, ids, h, lin);
    } else if pc.i == |es| && !(pc.pos.op.Insert? && |es| >= cfg.eSize) {
      h', lin' := EndLin(cfg, s, t, hist, ids, h, lin);
    } else {
      Quiet(cfg, s, t, hist, ids, h, lin, h);
    }
  }

  lemma FoundLin(cfg: Config, s: L.State, t: nat, hist: seq<Event>, ids: Ids, h: Heap, lin: seq<LinPoint>)
    returns (h': Heap, lin': seq<LinPoint>)
    requires LinInv(cfg, s, hist, ids, h, lin) && L.Enabled(cfg, s, L.Next(t)) && s.threads[t].Searching?
    requires var pc := s.threads[t]; pc.i < |s.mem.elists[pc.e]| && s.mem.elists[pc.e][pc.i].key == pc.pos.op.key
    ensures LinInv(cfg, L.Step(cfg, s, L.Next(t)), hist + [Tau], ids, h', lin')
  {
    Here(cfg, s, hist, ids, h, lin, t);
    Scanning(cfg, s, hist, ids, h, lin, t);
    hide LinInv; hide Tree; hide Data; hide Abstracts; hide Timed; hide OnPath; hide Replay; hide Find; hide Without;
    var pc := s.threads[t];
    var b, k, es, map' := L.BucketOf(cfg, pc.pos), pc.pos.op.key, s.mem.elists[pc.e], Replay(lin);
    BucketSays(cfg, s.mem, h, map', pc.pos.p, b, k);
    TakenOut(es, pc.i, k);
    h' := h;
    if pc.pos.op.Remove? {
      RemoveKeeps(cfg, s.mem, h, map', pc.pos.p, b, pc.e, pc.i, k);
      h' := SetElist(h, pc.e, L.WithoutAt(es, pc.i));
    }
    lin' := TakesEffect(cfg, s, t, hist, ids, h, lin, h');
  }

  lemma EndLin(cfg: Config, s: L.State, t: nat, hist: seq<Event>, ids: Ids, h: Heap, lin: seq<LinPoint>)
    returns (h': Heap, lin': seq<LinPoint>)
    requires LinInv(cfg, s, hist, ids, h, lin) && L.Enabled(cfg, s, L.Next(t)) && s.threads[t].Searching?
    requires var pc := s.threads[t];
      pc.i == |s.mem.elists[pc.e]| && (pc.pos.op.Insert? ==> |s.mem.elists[pc.e]| < cfg.eSize)
    ensures LinInv(cfg, L.Step(cfg, s, L.Next(t)), hist + [Tau], ids, h', lin')
  {
    Here(cfg, s, hist, ids, h, lin, t);
    Scanning(cfg, s, hist, ids, h, lin, t);
    hide LinInv; hide Tree; hide Data; hide Abstracts; hide Timed; hide OnPath; hide Replay; hide Find;
    var pc := s.threads[t];
    var b, k, es, map' := L.BucketOf(cfg, pc.pos), pc.pos.op.key, s.mem.elists[pc.e], Replay(lin);
    BucketSays(cfg, s.mem, h, map', pc.pos.p, b, k);
    NotFound(es, k);
    h' := h;
    if pc.pos.op.Insert? {
      AppendKeeps(cfg, s.mem, h, map', pc.pos.p, b, pc.e, k, pc.pos.op.val);
      h' := SetElist(h, pc.e, es + [Pair(k, pc.pos.op.val)]);
    } else {
      assert Effect(map', pc.pos.op) == map';
    }
    lin' := TakesEffect(cfg, s, t, hist, ids, h, lin, h');
  }

  lemma StepLin(cfg: Config, s: L.State, a: L.Action, hist: seq<Event>, ids: Ids, h: Heap, lin: seq<LinPoint>)
    returns (h': Heap, lin': seq<LinPoint>)
    requires LinInv(cfg, s, hist, ids, h, lin) && L.Enabled(cfg, s, a) && Aligned(cfg, s, a)
    ensures LinInv(cfg, L.Step(cfg, s, a), hist + [EventOf(s, a, ids)], NextIds(a, ids, |hist|), h', lin')
  {
    hide LinInv; hide L.DoNext;
    h', lin' := h, lin;
    match a
    case Begin(t, op) => BeginLin(cfg, s, t, op, hist, ids, h, lin);
    case Next(t) =>
      match s.threads[t] {
        case Seeking(_) => h' := SeekLin(cfg, s, t, hist, ids, h, lin);
        case Descending(_) => DescendLin(cfg, s, t, hist, ids, h, lin);
        case Locked(_) => h', lin' := LookLin(cfg, s, t, hist, ids, h, lin);
        case Searching(_, _, _) => h', lin' := ScanLin(cfg, s, t, hist, ids, h, lin);
        case Rehashing(_, _, _, _) => MoveLin(cfg, s, t, hist, ids, h, lin);
        case Switching(_, _, _) => h' := SwitchLin(cfg, s, t, hist, ids, h, lin);
        case Unlocking(_, _, _) => h' := UnlockLin(cfg, s, t, hist, ids, h, lin);
      }
  }

  // ---------- Runs ----------

  /** The history of a run, one event for each step, and the operations under way after it. */
  ghost function Recorded(cfg: Config, r: seq<L.State>, acts: seq<L.Action>, i: nat): (seq<Event>, Ids)
    requires L.IsRun(cfg, r, acts) && i < |r|
  {
    if i == 0 then ([], map[])
    else
      var before := Recorded(cfg, r, acts, i - 1);
      (before.0 + [EventOf(r[i - 1], acts[i - 1], before.1)], NextIds(acts[i - 1], before.1, |before.0|))
  }

  ghost predicate AlignedRun(cfg: Config, r: seq<L.State>, acts: seq<L.Action>, i: nat)
    requires L.IsRun(cfg, r, acts) && i < |r|
  {
    forall j | 0 <= j < i :: Aligned(cfg, r[j], acts[j])
  }

  lemma InitLin(cfg: Config, s: L.State) returns (h: Heap)
    requires L.ValidLocal(cfg) && L.Init(cfg, s)
    ensures LinInv(cfg, s, [], map[], h, [])
  {
    h := Heap(0, s.mem.plists, map[], 1, map[0 := []], map[0 := 0], map[]);
    assert forall p, b | p in h.plists && 0 <= b < |h.plists[p]| :: BucketOK(h, p, b) && DataOK(cfg, h, p, b);
    assert forall k, v, p: nat, b: nat :: !Holds(h, p, b, k, v);
  }

  lemma {:induction false} RunLin(cfg: Config, r: seq<L.State>, acts: seq<L.Action>, i: nat) returns (h: Heap, lin: seq<LinPoint>)
    requires L.ValidLocal(cfg) && L.IsRun(cfg, r, acts) && i < |r| && AlignedRun(cfg, r, acts, i)
    ensures var x := Recorded(cfg, r, acts, i); LinInv(cfg, r[i], x.0, x.1, h, lin)
  {
    if i == 0 {
      h := InitLin(cfg, r[0]);
      lin := [];
    } else {
      var x := Recorded(cfg, r, acts, i - 1);
      h, lin := RunLin(cfg, r, acts, i - 1);
      assert Aligned(cfg, r[i - 1], acts[i - 1]);
      hide LinInv; hide Aligned; hide L.Step; hide L.Enabled;
      h, lin := StepLin(cfg, r[i - 1], acts[i - 1], x.0, x.1, h, lin);
    }
  }

  /** A lookup that nobody disturbs finds what the map says. */
  lemma {:induction false} LookupIs(cfg: Config, m: L.Mem, h: Heap, map': map<Key, Value>, k: Key, p: nat, d: nat)
    requires L.ValidLocal(cfg) && L.MemOK(cfg, m) && Represents(cfg, m, h, map')
    requires p in h.plists && p in h.paths && d >= 1 && |h.paths[p]| == d - 1 && OnPath(cfg, k, h.paths[p])
    ensures LocalRuns.Lookup(cfg, m, k, p, d) == Look(map', k)
    decreases m.next - p
  {
    var b := cfg.Slot(k, d);
    assert |h.plists[p]| == cfg.Size(d) && p < m.next && L.Has(m, p, b);
    assert L.BucketOK(cfg, m, p, b) && BucketOK(h, p, b);
    assert OnPath(cfg, k, h.paths[p] + [b]);
    BucketSays(cfg, m, h, map', p, b, k);
    if m.plists[p][b].base.PRef? {
      LookupIs(cfg, m, h, map', k, m.plists[p][b].base.p, d + 1);
    }
  }
}
