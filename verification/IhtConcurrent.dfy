/** The interlocked hash table as interleaved steps of any number of clients.

    A step is one access to remote memory: reading one pointer-lock pair of a PList, one compare-and-swap on
    a lock, reading an EList, writing an EList or a pointer. The write that unlocks is posted without waiting
    for it, so it lands in a later step of its own.
 */
module IhtConcurrent {
  import opened Linearizability
  import opened IhtHeap
  import opened IhtUpdates
  import opened IhtCache

  /** A pointer-lock pair as read, and the step at which it was read. */
  datatype Snap = Snap(bk: Bucket, at: nat)

  /** A cached PList and the PList it was copied from. */
  datatype Cached = Cached(src: nat, buckets: PList)

  /** Where a descent stands: operation, current PList and its depth. */
  datatype Pos = Pos(id: nat, op: Op, p: nat, depth: nat)

  datatype Pc =
    | Idle
    | Start(id: nat, op: Op)
    | Reading(pos: Pos, got: seq<Snap>, keep: bool)
    | Descending(pos: Pos, curr: seq<Snap>)
    | Holding(pos: Pos, curr: seq<Snap>)
    | Loaded(pos: Pos, curr: seq<Snap>, e: nat, pairs: EList)
    | Unlocking(pos: Pos, curr: seq<Snap>, answer: Option<Option<Value>>)
    | Leaving(id: nat, op: Op, result: Option<Value>)

  datatype Client = Client(pc: Pc, cacheDepth: nat, cache: map<(nat, nat), Cached>)

  /** `unlocks` are the unlocking writes still on their way. */
  datatype State = State(heap: Heap, clients: map<nat, Client>, unlocks: map<(nat, nat), Lock>, history: seq<Event>)

  datatype Move =
    | Invoke(op: Op)
    | Begin
    | ReadBucket
    | FinishRead
    | Down
    | TryLock
    | Load
    | Apply
    | Unlock
    | Respond

  /** A client makes its next move, or an unlocking write lands. */
  datatype Action = By(c: nat, move: Move) | Land(p: nat, b: nat)

  function BucketOf(cfg: Config, pos: Pos): nat { cfg.Slot(pos.op.key, pos.depth) }

  function PathTo(cfg: Config, k: Key, n: nat): seq<nat> { seq(n, i requires 0 <= i => cfg.Slot(k, i + 1)) }

  function SlotFor(cfg: Config, cl: Client, pos: Pos): Option<(nat, nat)> {
    CacheSlot(cfg.pSize, cl.cacheDepth, PathTo(cfg, pos.op.key, if pos.depth == 0 then 0 else pos.depth - 1))
  }

  /** `fetch_cache`, or the start of a read of the PList. */
  function Fetch(cfg: Config, cl: Client, pos: Pos): Pc {
    var slot := SlotFor(cfg, cl, pos);
    if slot.Some? && slot.value in cl.cache then
      var buckets := cl.cache[slot.value].buckets;
      Descending(pos, seq(|buckets|, i requires 0 <= i < |buckets| => Snap(buckets[i], 0)))
    else
      Reading(pos, [], true)
  }

  predicate Calcified(got: seq<Snap>) {
    forall i | 0 <= i < |got| - 1 :: got[i].bk.lock.PUnlocked?
  }

  /** `try_cache`: keep a copy of a PList whose buckets, except the last, are all calcified. */
  function TryCache(cfg: Config, cl: Client, pos: Pos, got: seq<Snap>): map<(nat, nat), Cached> {
    var slot := SlotFor(cfg, cl, pos);
    if slot.Some? && slot.value !in cl.cache && Calcified(got) then
      cl.cache[slot.value := Cached(pos.p, seq(|got|, i requires 0 <= i < |got| => got[i].bk))]
    else
      cl.cache
  }

  function SetPc(s: State, c: nat, pc: Pc, e: Event): State
    requires c in s.clients
  {
    s.(clients := s.clients[c := s.clients[c].(pc := pc)], history := s.history + [e])
  }

  predicate InCurr(cfg: Config, s: State, pos: Pos, curr: seq<Snap>) {
    && BucketOf(cfg, pos) < |curr|
    && pos.p in s.heap.plists && pos.p in s.heap.paths
    && BucketOf(cfg, pos) < |s.heap.plists[pos.p]|
  }

  function Current(cfg: Config, pos: Pos, curr: seq<Snap>): Bucket
    requires BucketOf(cfg, pos) < |curr|
  {
    curr[BucketOf(cfg, pos)].bk
  }

  predicate CanMove(cfg: Config, s: State, pc: Pc, move: Move) {
    match move
    case Invoke(_) => pc.Idle?
    case Begin => pc.Start?
    case ReadBucket => pc.Reading? && pc.pos.p in s.heap.plists && |pc.got| < |s.heap.plists[pc.pos.p]|
    case FinishRead => pc.Reading? && |pc.got| == cfg.Size(pc.pos.depth)
    case Down => pc.Descending? && InCurr(cfg, s, pc.pos, pc.curr)
      && Current(cfg, pc.pos, pc.curr).lock.PUnlocked? && Current(cfg, pc.pos, pc.curr).base.PRef?
    case TryLock => pc.Descending? && InCurr(cfg, s, pc.pos, pc.curr)
      && !Current(cfg, pc.pos, pc.curr).lock.PUnlocked?
    case Load => pc.Holding? && InCurr(cfg, s, pc.pos, pc.curr)
      && !Current(cfg, pc.pos, pc.curr).base.PRef?
      && (Current(cfg, pc.pos, pc.curr).base.ERef? ==> Current(cfg, pc.pos, pc.curr).base.e in s.heap.elists)
    case Apply => pc.Loaded? && InCurr(cfg, s, pc.pos, pc.curr)
    case Unlock => pc.Unlocking?
    case Respond => pc.Leaving?
  }

  predicate Enabled(cfg: Config, s: State, a: Action) {
    match a
    case By(c, move) => c in s.clients && CanMove(cfg, s, s.clients[c].pc, move)
    case Land(p, b) => (p, b) in s.unlocks && p in s.heap.plists && b < |s.heap.plists[p]|
  }

  /** One call of `apply` on a null pointer. */
  function LoadNull(cfg: Config, h: Heap, pos: Pos): Heap
    requires pos.p in h.plists && BucketOf(cfg, pos) < |h.plists[pos.p]|
  {
    match pos.op
    case Insert(k, v) => NewElist(h, pos.p, BucketOf(cfg, pos), [Pair(k, v)])
    case Contains(_) => h
    case Remove(_) => h
  }

  function DoLoad(cfg: Config, s: State, c: nat, pos: Pos, curr: seq<Snap>): State
    requires c in s.clients && CanMove(cfg, s, s.clients[c].pc, Load)
    requires s.clients[c].pc == Holding(pos, curr)
  {
    match Current(cfg, pos, curr).base
    case ERef(e) => SetPc(s, c, Loaded(pos, curr, e, s.heap.elists[e]), Tau)
    case Null => SetPc(s, c, Unlocking(pos, curr, Some(None)), Tau).(heap := LoadNull(cfg, s.heap, pos))
  }

  /** The list is full and the key is not in it. */
  predicate MustRehash(cfg: Config, op: Op, pairs: EList) {
    op.Insert? && Find(pairs, op.key).None? && |pairs| >= cfg.eSize
  }

  /** What one call of `apply` writes to an EList, when it does not rehash. */
  function Written(op: Op, pairs: EList): EList {
    match op
    case Contains(_) => pairs
    case Insert(k, v) => if Find(pairs, k).Some? then pairs else pairs + [Pair(k, v)]
    case Remove(k) => if Find(pairs, k).Some? then Without(pairs, k) else pairs
  }

  function DoApply(cfg: Config, s: State, c: nat, pos: Pos, curr: seq<Snap>, e: nat, pairs: EList): State
    requires c in s.clients && InCurr(cfg, s, pos, curr)
  {
    if MustRehash(cfg, pos.op, pairs) then
      var curr' := curr[BucketOf(cfg, pos) := Snap(Bucket(PRef(s.heap.next), PUnlocked), |s.history|)];
      SetPc(s, c, Unlocking(pos, curr', None), Tau)
        .(heap := Calcify(cfg, s.heap, pos.p, BucketOf(cfg, pos), pairs))
    else
      var written := Written(pos.op, pairs);
      SetPc(s, c, Unlocking(pos, curr, Some(Find(pairs, pos.op.key))), Tau)
        .(heap := if written == pairs then s.heap else SetElist(s.heap, e, written))
  }

  function DoTryLock(cfg: Config, s: State, c: nat, pos: Pos, curr: seq<Snap>): State
    requires c in s.clients && InCurr(cfg, s, pos, curr)
  {
    var b := BucketOf(cfg, pos);
    match s.heap.plists[pos.p][b].lock
    case PUnlocked => SetPc(s, c, Reading(pos, [], false), Tau)
    case EUnlocked => SetPc(s, c, Holding(pos, curr), Tau).(heap := SetLock(s.heap, pos.p, b, ELocked))
    case ELocked => SetPc(s, c, Descending(pos, curr), Tau)
  }

  function DoUnlock(cfg: Config, s: State, c: nat, pos: Pos, curr: seq<Snap>, answer: Option<Option<Value>>): State
    requires c in s.clients
  {
    var pb := (pos.p, BucketOf(cfg, pos));
    match answer
    case Some(r) => SetPc(s, c, Leaving(pos.id, pos.op, r), Tau).(unlocks := s.unlocks[pb := EUnlocked])
    case None => SetPc(s, c, Descending(pos, curr), Tau).(unlocks := s.unlocks[pb := PUnlocked])
  }

  function DoFinishRead(cfg: Config, s: State, c: nat, pos: Pos, got: seq<Snap>, keep: bool): State
    requires c in s.clients
  {
    var cl := s.clients[c];
    var cache := if keep then TryCache(cfg, cl, pos, got) else cl.cache;
    s.(clients := s.clients[c := cl.(pc := Descending(pos, got), cache := cache)], history := s.history + [Tau])
  }

  function DoMove(cfg: Config, s: State, c: nat, move: Move): State
    requires c in s.clients && CanMove(cfg, s, s.clients[c].pc, move)
  {
    var cl := s.clients[c];
    var now := |s.history|;
    match move
    case Invoke(op) => SetPc(s, c, Start(now, op), Inv(op))
    case Begin => SetPc(s, c, Fetch(cfg, cl, Pos(cl.pc.id, cl.pc.op, s.heap.root, 1)), Tau)
    case ReadBucket =>
      SetPc(s, c, cl.pc.(got := cl.pc.got + [Snap(s.heap.plists[cl.pc.pos.p][|cl.pc.got|], now)]), Tau)
    case FinishRead => DoFinishRead(cfg, s, c, cl.pc.pos, cl.pc.got, cl.pc.keep)
    case Down =>
      var q := Current(cfg, cl.pc.pos, cl.pc.curr).base.p;
      SetPc(s, c, Fetch(cfg, cl, cl.pc.pos.(p := q, depth := cl.pc.pos.depth + 1)), Tau)
    case TryLock => DoTryLock(cfg, s, c, cl.pc.pos, cl.pc.curr)
    case Load => DoLoad(cfg, s, c, cl.pc.pos, cl.pc.curr)
    case Apply => DoApply(cfg, s, c, cl.pc.pos, cl.pc.curr, cl.pc.e, cl.pc.pairs)
    case Unlock => DoUnlock(cfg, s, c, cl.pc.pos, cl.pc.curr, cl.pc.answer)
    case Respond => SetPc(s, c, Idle, Res(cl.pc.id, cl.pc.result))
  }

  function DoLand(s: State, p: nat, b: nat): State
    requires (p, b) in s.unlocks && p in s.heap.plists && b < |s.heap.plists[p]|
  {
    s.(heap := SetLock(s.heap, p, b, s.unlocks[(p, b)]), unlocks := s.unlocks - {(p, b)}, history := s.history + [Tau])
  }

  function Step(cfg: Config, s: State, a: Action): State
    requires Enabled(cfg, s, a)
  {
    match a
    case By(c, move) => DoMove(cfg, s, c, move)
    case Land(p, b) => DoLand(s, p, b)
  }

  function InitHeap(cfg: Config): Heap {
    Heap(0, map[0 := seq(cfg.pSize, _ => Bucket(Null, EUnlocked))], map[], 1, map[0 := []], map[0 := 0], map[])
  }

  ghost predicate Init(cfg: Config, s: State) {
    && s.heap == InitHeap(cfg)
    && (forall c | c in s.clients :: s.clients[c].pc.Idle? && s.clients[c].cacheDepth <= 2 && s.clients[c].cache == map[])
    && s.unlocks == map[]
    && s.history == []
  }

  /** A run: the states before and after each action. */
  ghost predicate IsRun(cfg: Config, t: seq<State>, acts: seq<Action>) {
    && |t| == |acts| + 1
    && Init(cfg, t[0])
    && forall i | 0 <= i < |acts| :: Enabled(cfg, t[i], acts[i]) && t[i + 1] == Step(cfg, t[i], acts[i])
  }

  // ---------- What every reachable state satisfies, whoever inserts ----------

  predicate HasLock(cfg: Config, pc: Pc, p: nat, b: nat) {
    (pc.Holding? || pc.Loaded? || pc.Unlocking?) && pc.pos.p == p && BucketOf(cfg, pc.pos) == b
  }

  ghost predicate At(cfg: Config, h: Heap, pos: Pos) {
    && pos.depth >= 1
    && pos.p in h.plists && pos.p in h.paths
    && |h.paths[pos.p]| == pos.depth - 1
    && |h.plists[pos.p]| == cfg.Size(pos.depth)
    && OnPath(cfg, pos.op.key, h.paths[pos.p])
  }

  /** A pointer to a PList, once read, stays right; a calcified lock always comes with such a pointer. */
  ghost predicate SnapOK(h: Heap, p: nat, i: nat, bk: Bucket)
    requires p in h.plists && i < |h.plists[p]|
  {
    && (bk.base.PRef? ==> h.plists[p][i].base == bk.base)
    && (bk.base.ERef? ==> bk.base.e in h.elists)
    && (bk.lock.PUnlocked? ==> bk.base.PRef?)
  }

  ghost predicate SnapsOK(cfg: Config, h: Heap, pos: Pos, snaps: seq<Snap>)
    requires At(cfg, h, pos) && |snaps| <= cfg.Size(pos.depth)
  {
    forall i | 0 <= i < |snaps| :: SnapOK(h, pos.p, i, snaps[i].bk)
  }

  ghost predicate Locked(cfg: Config, h: Heap, pos: Pos)
    requires At(cfg, h, pos)
  {
    && BucketOf(cfg, pos) < |h.plists[pos.p]|
    && h.plists[pos.p][BucketOf(cfg, pos)].lock.ELocked?
  }

  ghost predicate PcOK(cfg: Config, h: Heap, pc: Pc) {
    match pc
    case Reading(pos, got, _) =>
      && At(cfg, h, pos) && |got| <= cfg.Size(pos.depth)
      && SnapsOK(cfg, h, pos, got)
      && (forall i | 0 <= i < |got| && got[i].bk.lock.PUnlocked? :: got[i].bk == h.plists[pos.p][i])
      && (|got| == cfg.Size(pos.depth) ==> |got| > 0 && got[|got| - 1].bk == h.plists[pos.p][|got| - 1])
    case Descending(pos, curr) =>
      At(cfg, h, pos) && |curr| == cfg.Size(pos.depth) && SnapsOK(cfg, h, pos, curr)
    case Holding(pos, curr) =>
      && At(cfg, h, pos) && |curr| == cfg.Size(pos.depth) && SnapsOK(cfg, h, pos, curr)
      && Locked(cfg, h, pos) && !h.plists[pos.p][BucketOf(cfg, pos)].base.PRef?
      && !curr[BucketOf(cfg, pos)].bk.lock.PUnlocked?
    case Loaded(pos, curr, e, _) =>
      && At(cfg, h, pos) && |curr| == cfg.Size(pos.depth) && SnapsOK(cfg, h, pos, curr)
      && Locked(cfg, h, pos) && !h.plists[pos.p][BucketOf(cfg, pos)].base.PRef?
      && curr[BucketOf(cfg, pos)].bk.base == ERef(e)
    case Unlocking(pos, curr, answer) =>
      && At(cfg, h, pos) && |curr| == cfg.Size(pos.depth) && SnapsOK(cfg, h, pos, curr)
      && Locked(cfg, h, pos)
      && (answer.Some? <==> !h.plists[pos.p][BucketOf(cfg, pos)].base.PRef?)
    case _ => true
  }

  /** A cached PList equals the remote one, and all but its last bucket are calcified. */
  ghost predicate CachedOK(cfg: Config, h: Heap, cl: Client, slot: (nat, nat))
    requires slot in cl.cache
  {
    var x := cl.cache[slot];
    && x.src in h.plists && x.src in h.paths
    && CacheSlot(cfg.pSize, cl.cacheDepth, h.paths[x.src]) == Some(slot)
    && x.buckets == h.plists[x.src]
    && (forall i | 0 <= i < |x.buckets| - 1 :: x.buckets[i].lock.PUnlocked?)
  }

  ghost predicate ClientOK(cfg: Config, h: Heap, cl: Client) {
    && cl.cacheDepth <= 2
    && PcOK(cfg, h, cl.pc)
    && (forall slot | slot in cl.cache :: CachedOK(cfg, h, cl, slot))
  }

  ghost predicate UnlockOK(cfg: Config, s: State, p: nat, b: nat)
    requires (p, b) in s.unlocks
  {
    && InTree(s.heap, p, b)
    && b < |s.heap.plists[p]| - 1
    && s.heap.plists[p][b].lock.ELocked?
    && (s.unlocks[(p, b)].EUnlocked? || s.unlocks[(p, b)].PUnlocked?)
    && (s.unlocks[(p, b)].PUnlocked? <==> s.heap.plists[p][b].base.PRef?)
    && (forall c | c in s.clients :: !HasLock(cfg, s.clients[c].pc, p, b))
  }

  /** The bucket that `level_hash` never picks is never used. */
  ghost predicate LastIdle(h: Heap) {
    forall p | p in h.plists :: |h.plists[p]| > 0 && h.plists[p][|h.plists[p]| - 1] == Bucket(Null, EUnlocked)
  }

  ghost predicate Exclusive(cfg: Config, s: State) {
    forall c, c', p, b {:trigger HasLock(cfg, s.clients[c].pc, p, b), HasLock(cfg, s.clients[c'].pc, p, b)} |
      c in s.clients && c' in s.clients && HasLock(cfg, s.clients[c].pc, p, b) && HasLock(cfg, s.clients[c'].pc, p, b) ::
      c == c'
  }

  ghost predicate Safe(cfg: Config, s: State) {
    && Tree(cfg, s.heap)
    && LastIdle(s.heap)
    && (forall c | c in s.clients :: ClientOK(cfg, s.heap, s.clients[c]))
    && (forall p, b | (p, b) in s.unlocks :: UnlockOK(cfg, s, p, b))
    && Exclusive(cfg, s)
  }

  // ---------- How the memory may change under a client ----------

  ghost predicate BucketGrows(bk: Bucket, bk': Bucket) {
    && (bk.base.PRef? ==> bk'.base == bk.base)
    && (bk.lock.PUnlocked? ==> bk' == bk)
  }

  ghost predicate Grows(h: Heap, h': Heap) {
    && h.plists.Keys <= h'.plists.Keys
    && h.paths.Keys <= h'.paths.Keys
    && h.elists.Keys <= h'.elists.Keys
    && (forall p | p in h.paths :: h'.paths[p] == h.paths[p])
    && (forall p | p in h.plists :: |h'.plists[p]| == |h.plists[p]|)
    && (forall p, b | p in h.plists && 0 <= b < |h.plists[p]| :: BucketGrows(h.plists[p][b], h'.plists[p][b]))
  }

  ghost predicate SameBucket(h: Heap, h': Heap, p: nat, b: nat) {
    p in h.plists && b < |h.plists[p]| ==>
      p in h'.plists && b < |h'.plists[p]| && h'.plists[p][b] == h.plists[p][b]
  }

  lemma SnapsStable(cfg: Config, h: Heap, h': Heap, pos: Pos, snaps: seq<Snap>)
    requires Grows(h, h') && At(cfg, h, pos) && |snaps| <= cfg.Size(pos.depth) && SnapsOK(cfg, h, pos, snaps)
    ensures At(cfg, h', pos) && SnapsOK(cfg, h', pos, snaps)
  {
    forall i | 0 <= i < |snaps| ensures SnapOK(h', pos.p, i, snaps[i].bk) {
      assert SnapOK(h, pos.p, i, snaps[i].bk);
      assert BucketGrows(h.plists[pos.p][i], h'.plists[pos.p][i]);
    }
  }

  lemma ReadStable(cfg: Config, h: Heap, h': Heap, pc: Pc)
    requires pc.Reading? && PcOK(cfg, h, pc) && Grows(h, h') && LastIdle(h) && LastIdle(h')
    ensures PcOK(cfg, h', pc)
  {
    SnapsStable(cfg, h, h', pc.pos, pc.got);
    forall i | 0 <= i < |pc.got| && pc.got[i].bk.lock.PUnlocked? ensures pc.got[i].bk == h'.plists[pc.pos.p][i] {
      assert BucketGrows(h.plists[pc.pos.p][i], h'.plists[pc.pos.p][i]);
    }
  }

  lemma PcStable(cfg: Config, h: Heap, h': Heap, pc: Pc)
    requires PcOK(cfg, h, pc) && Grows(h, h') && LastIdle(h) && LastIdle(h')
    requires forall p, b | HasLock(cfg, pc, p, b) :: SameBucket(h, h', p, b)
    ensures PcOK(cfg, h', pc)
  {
    if pc.Reading? {
      ReadStable(cfg, h, h', pc);
    } else if pc.Descending? {
      SnapsStable(cfg, h, h', pc.pos, pc.curr);
    } else if pc.Holding? || pc.Loaded? || pc.Unlocking? {
      assert HasLock(cfg, pc, pc.pos.p, BucketOf(cfg, pc.pos));
      SnapsStable(cfg, h, h', pc.pos, pc.curr);
    }
  }

  lemma CacheStable(cfg: Config, h: Heap, h': Heap, cl: Client, slot: (nat, nat))
    requires slot in cl.cache && CachedOK(cfg, h, cl, slot) && Grows(h, h') && LastIdle(h) && LastIdle(h')
    ensures CachedOK(cfg, h', cl, slot)
  {
    var x := cl.cache[slot];
    forall i | 0 <= i < |x.buckets| ensures x.buckets[i] == h'.plists[x.src][i] {
      assert BucketGrows(h.plists[x.src][i], h'.plists[x.src][i]);
    }
  }

  lemma ClientStable(cfg: Config, h: Heap, h': Heap, cl: Client)
    requires ClientOK(cfg, h, cl) && Grows(h, h') && LastIdle(h) && LastIdle(h')
    requires forall p, b | HasLock(cfg, cl.pc, p, b) :: SameBucket(h, h', p, b)
    ensures ClientOK(cfg, h', cl)
  {
    PcStable(cfg, h, h', cl.pc);
    forall slot | slot in cl.cache ensures CachedOK(cfg, h', cl, slot) {
      CacheStable(cfg, h, h', cl, slot);
    }
  }

  /** What `apply` writes to the EList is what the operation does to the map. */
  lemma WrittenStores(cfg: Config, h: Heap, m: map<Key, Value>, p: nat, b: nat, e: nat, op: Op)
    requires Tree(cfg, h) && Data(cfg, h) && Abstracts(h, m) && InTree(h, p, b)
    requires h.plists[p][b].base == ERef(e) && e in h.elists && OnPath(cfg, op.key, h.paths[p] + [b])
    requires !MustRehash(cfg, op, h.elists[e])
    ensures var h' := SetElist(h, e, Written(op, h.elists[e])); Data(cfg, h') && Abstracts(h', Effect(m, op))
    ensures Written(op, h.elists[e]) == h.elists[e] ==> Effect(m, op) == m
  {
    LeafLookup(cfg, h, m, p, b, op.key);
    var es := h.elists[e];
    if op.Insert? && Find(es, op.key).None? {
      AddPairStores(cfg, h, p, b, e, op.key, op.val, m);
      assert |Written(op, es)| == |es| + 1;
    } else if op.Remove? && Find(es, op.key).Some? {
      RemoveKeyStores(cfg, h, p, b, e, op.key, m);
      FindIffMember(es, op.key);
      IndexMissing(es, op.key);
      assert |Written(op, es)| == |es| - 1;
    } else {
      assert SetElist(h, e, es) == h by { assert h.elists[e := es] == h.elists; }
    }
  }
}
