/** The bookkeeping behind `IhtRuns`. `Safe` says what holds of the heap and of every client between two steps; each
    lemma below takes one kind of step, shows that `Safe` survives it, and that the heap only grows: calcified
    buckets and finished ELists stay as they are. A step that writes is split in three: what it does to the heap,
    what that means for the client that wrote, and why the other clients and the unlocking writes in flight do not
    notice (`ClientStable`). `SafeStep` puts the steps together. */
module IhtSafety {
  import opened Linearizability
  import opened IhtHeap
  import opened IhtUpdates
  import opened IhtCache
  import opened IhtConcurrent

  lemma GrowsReflexive(h: Heap)
    ensures Grows(h, h)
  {}

  // ---------- Each write lets the memory grow ----------

  lemma LockGrows(h: Heap, p: nat, b: nat, l: Lock)
    requires InTree(h, p, b) && h.plists[p][b].lock != PUnlocked && b < |h.plists[p]| - 1
    ensures Grows(h, SetLock(h, p, b, l))
    ensures LastIdle(h) ==> LastIdle(SetLock(h, p, b, l))
  {}

  lemma NewElistGrows(cfg: Config, h: Heap, p: nat, b: nat, es: EList)
    requires Tree(cfg, h) && InTree(h, p, b) && !h.plists[p][b].base.PRef? && b < |h.plists[p]| - 1
    ensures Grows(h, NewElist(h, p, b, es))
    ensures LastIdle(h) ==> LastIdle(NewElist(h, p, b, es))
  {
    assert BucketOK(h, p, b);
    hide Tree;
    var h' := NewElist(h, p, b, es);
    forall p', b' | p' in h.plists && 0 <= b' < |h.plists[p']|
      ensures BucketGrows(h.plists[p'][b'], h'.plists[p'][b']) {}
  }

  lemma SetElistGrows(h: Heap, e: nat, es: EList)
    ensures Grows(h, SetElist(h, e, es))
    ensures LastIdle(h) ==> LastIdle(SetElist(h, e, es))
  {}

  lemma {:induction false} LastPartEmpty(cfg: Config, es: EList, d: nat)
    requires cfg.Valid() && cfg.Size(d) >= 1
    ensures Part(cfg, es, d, cfg.Size(d) - 1) == []
  {
    if es != [] {
      LastPartEmpty(cfg, es[..|es| - 1], d);
      SlotInRange(cfg, es[|es| - 1].key, d);
    }
  }

  lemma CalcifyGrows(cfg: Config, h: Heap, p: nat, b: nat, src: EList)
    requires Tree(cfg, h) && InTree(h, p, b) && !h.plists[p][b].base.PRef?
    ensures Grows(h, Calcify(cfg, h, p, b, src))
  {
    hide Part;
    hide Linked;
    assert BucketOK(h, p, b);
    var h' := Calcify(cfg, h, p, b, src);
    forall p', b' | p' in h.plists && 0 <= b' < |h.plists[p']|
      ensures BucketGrows(h.plists[p'][b'], h'.plists[p'][b']) {}
  }

  lemma CalcifyLastIdle(cfg: Config, h: Heap, p: nat, b: nat, src: EList)
    requires cfg.Valid() && Tree(cfg, h) && InTree(h, p, b) && b < |h.plists[p]| - 1 && LastIdle(h)
    ensures LastIdle(Calcify(cfg, h, p, b, src))
  {
    hide Linked;
    hide BucketOK;
    var d := |h.paths[p]| + 2;
    SizeGrows(cfg, d);
    LastPartEmpty(cfg, src, d);
    var h' := Calcify(cfg, h, p, b, src);
    assert h'.plists[h.next] == ChildPList(cfg, h, p, src);
  }

  // ---------- Steps that write nothing ----------

  lemma QuietStep(cfg: Config, s: State, s': State, c: nat)
    requires Safe(cfg, s) && c in s.clients
    requires s'.heap == s.heap && s'.unlocks == s.unlocks && c in s'.clients
    requires s'.clients == s.clients[c := s'.clients[c]]
    requires ClientOK(cfg, s.heap, s'.clients[c])
    requires forall p, b | HasLock(cfg, s'.clients[c].pc, p, b) :: HasLock(cfg, s.clients[c].pc, p, b)
    ensures Safe(cfg, s')
  {
    forall p, b | (p, b) in s'.unlocks ensures UnlockOK(cfg, s', p, b) {
      assert UnlockOK(cfg, s, p, b);
      assert !HasLock(cfg, s.clients[c].pc, p, b);
    }
  }

  lemma FetchOK(cfg: Config, h: Heap, cl: Client, pos: Pos)
    requires cfg.Valid() && Tree(cfg, h) && ClientOK(cfg, h, cl) && At(cfg, h, pos)
    ensures PcOK(cfg, h, Fetch(cfg, cl, pos))
    ensures !Fetch(cfg, cl, pos).Holding? && !Fetch(cfg, cl, pos).Loaded? && !Fetch(cfg, cl, pos).Unlocking?
  {
    assert PathTo(cfg, pos.op.key, pos.depth - 1) == h.paths[pos.p];
    var slot := SlotFor(cfg, cl, pos);
    SizeGrows(cfg, pos.depth);
    if slot.Some? && slot.value in cl.cache {
      var x := cl.cache[slot.value];
      assert CachedOK(cfg, h, cl, slot.value);
      ShallowSlotsInjective(cfg.pSize, cl.cacheDepth, h.paths[x.src], h.paths[pos.p]);
      PathUnique(cfg, h, x.src, pos.p);
      forall i | 0 <= i < |x.buckets| ensures SnapOK(h, pos.p, i, Fetch(cfg, cl, pos).curr[i].bk) {
        assert BucketOK(h, pos.p, i);
      }
    }
  }

  lemma RootAt(cfg: Config, h: Heap, id: nat, op: Op)
    requires Tree(cfg, h)
    ensures At(cfg, h, Pos(id, op, h.root, 1))
  {}

  lemma ChildAt(cfg: Config, h: Heap, pos: Pos, q: nat)
    requires cfg.Valid() && Tree(cfg, h) && At(cfg, h, pos)
    requires BucketOf(cfg, pos) < |h.plists[pos.p]| && h.plists[pos.p][BucketOf(cfg, pos)].base == PRef(q)
    ensures At(cfg, h, pos.(p := q, depth := pos.depth + 1))
  {
    assert BucketOK(h, pos.p, BucketOf(cfg, pos));
  }

  lemma ReadBucketOK(cfg: Config, h: Heap, pos: Pos, got: seq<Snap>, keep: bool, now: nat)
    requires cfg.Valid() && Tree(cfg, h) && PcOK(cfg, h, Reading(pos, got, keep)) && |got| < |h.plists[pos.p]|
    ensures PcOK(cfg, h, Reading(pos, got + [Snap(h.plists[pos.p][|got|], now)], keep))
  {
    var got' := got + [Snap(h.plists[pos.p][|got|], now)];
    assert BucketOK(h, pos.p, |got|);
    forall i | 0 <= i < |got'| ensures SnapOK(h, pos.p, i, got'[i].bk) {
      assert i < |got| ==> SnapOK(h, pos.p, i, got[i].bk);
    }
  }

  lemma FinishReadOK(cfg: Config, h: Heap, cl: Client)
    requires cfg.Valid() && Tree(cfg, h) && ClientOK(cfg, h, cl)
    requires cl.pc.Reading? && |cl.pc.got| == cfg.Size(cl.pc.pos.depth)
    ensures ClientOK(cfg, h, cl.(pc := Descending(cl.pc.pos, cl.pc.got)))
    ensures ClientOK(cfg, h, cl.(pc := Descending(cl.pc.pos, cl.pc.got), cache := TryCache(cfg, cl, cl.pc.pos, cl.pc.got)))
  {
    var pos, got := cl.pc.pos, cl.pc.got;
    var cl1 := cl.(pc := Descending(pos, got));
    var cl2 := cl1.(cache := TryCache(cfg, cl, pos, got));
    assert PathTo(cfg, pos.op.key, pos.depth - 1) == h.paths[pos.p];
    forall slot | slot in cl1.cache ensures CachedOK(cfg, h, cl1, slot) {
      assert CachedOK(cfg, h, cl, slot);
    }
    forall slot | slot in cl2.cache ensures CachedOK(cfg, h, cl2, slot) {
      if slot in cl.cache {
        assert CachedOK(cfg, h, cl, slot);
      } else {
        assert cl2.cache[slot].buckets == h.plists[pos.p];
      }
    }
  }

  lemma CacheKept(cfg: Config, h: Heap, cl: Client, pc: Pc)
    requires ClientOK(cfg, h, cl) && PcOK(cfg, h, pc)
    ensures ClientOK(cfg, h, cl.(pc := pc))
  {
    forall slot | slot in cl.cache ensures CachedOK(cfg, h, cl.(pc := pc), slot) {
      assert CachedOK(cfg, h, cl, slot);
    }
  }

  /** A step that only moves the program counter of a client to a place without a lock. */
  lemma SetPcSafe(cfg: Config, s: State, c: nat, pc: Pc, e: Event)
    requires Safe(cfg, s) && c in s.clients && PcOK(cfg, s.heap, pc)
    requires forall p, b | HasLock(cfg, pc, p, b) :: HasLock(cfg, s.clients[c].pc, p, b)
    ensures Safe(cfg, SetPc(s, c, pc, e))
  {
    CacheKept(cfg, s.heap, s.clients[c], pc);
    QuietStep(cfg, s, SetPc(s, c, pc, e), c);
  }

  lemma SafeReads(cfg: Config, s: State, c: nat, move: Move)
    requires cfg.Valid() && Safe(cfg, s) && c in s.clients && CanMove(cfg, s, s.clients[c].pc, move)
    requires move.Invoke? || move.Begin? || move.ReadBucket? || move.Respond?
    ensures Safe(cfg, DoMove(cfg, s, c, move))
  {
    var cl := s.clients[c];
    var h := s.heap;
    assert ClientOK(cfg, h, cl);
    match move
    case Invoke(op) =>
      SetPcSafe(cfg, s, c, Start(|s.history|, op), Inv(op));
    case Begin =>
      var pos := Pos(cl.pc.id, cl.pc.op, h.root, 1);
      RootAt(cfg, h, cl.pc.id, cl.pc.op);
      FetchOK(cfg, h, cl, pos);
      SetPcSafe(cfg, s, c, Fetch(cfg, cl, pos), Tau);
    case ReadBucket =>
      var pc := cl.pc.(got := cl.pc.got + [Snap(h.plists[cl.pc.pos.p][|cl.pc.got|], |s.history|)]);
      ReadBucketOK(cfg, h, cl.pc.pos, cl.pc.got, cl.pc.keep, |s.history|);
      SetPcSafe(cfg, s, c, pc, Tau);
    case Respond =>
      SetPcSafe(cfg, s, c, Idle, Res(cl.pc.id, cl.pc.result));
  }

  lemma SafeFinishRead(cfg: Config, s: State, c: nat)
    requires cfg.Valid() && Safe(cfg, s) && c in s.clients && CanMove(cfg, s, s.clients[c].pc, FinishRead)
    ensures Safe(cfg, DoMove(cfg, s, c, FinishRead))
  {
    var cl := s.clients[c];
    assert ClientOK(cfg, s.heap, cl);
    FinishReadOK(cfg, s.heap, cl);
    QuietStep(cfg, s, DoFinishRead(cfg, s, c, cl.pc.pos, cl.pc.got, cl.pc.keep), c);
  }

  lemma SafeDown(cfg: Config, s: State, c: nat)
    requires cfg.Valid() && Safe(cfg, s) && c in s.clients && CanMove(cfg, s, s.clients[c].pc, Down)
    ensures Safe(cfg, DoMove(cfg, s, c, Down))
  {
    var cl := s.clients[c];
    var pos := cl.pc.pos;
    var q := Current(cfg, pos, cl.pc.curr).base.p;
    assert ClientOK(cfg, s.heap, cl);
    assert SnapOK(s.heap, pos.p, BucketOf(cfg, pos), cl.pc.curr[BucketOf(cfg, pos)].bk);
    ChildAt(cfg, s.heap, pos, q);
    FetchOK(cfg, s.heap, cl, pos.(p := q, depth := pos.depth + 1));
    SetPcSafe(cfg, s, c, Fetch(cfg, cl, pos.(p := q, depth := pos.depth + 1)), Tau);
  }

  // ---------- Steps of a lock holder ----------

  /** The holder of a bucket lock writes: nobody else's bucket changes. */
  lemma HolderWrites(cfg: Config, s: State, c: nat, pc: Pc, h': Heap)
    requires Safe(cfg, s) && c in s.clients
    requires Tree(cfg, h') && LastIdle(h') && Grows(s.heap, h') && PcOK(cfg, h', pc)
    requires forall p, b | HasLock(cfg, pc, p, b) :: HasLock(cfg, s.clients[c].pc, p, b)
    requires forall p: nat, b: nat | !HasLock(cfg, s.clients[c].pc, p, b) :: SameBucket(s.heap, h', p, b)
    ensures Safe(cfg, SetPc(s, c, pc, Tau).(heap := h'))
  {
    var s' := SetPc(s, c, pc, Tau).(heap := h');
    forall c' | c' in s'.clients ensures ClientOK(cfg, h', s'.clients[c']) {
      if c' == c {
        forall slot | slot in s.clients[c].cache ensures CachedOK(cfg, h', s'.clients[c], slot) {
          assert CachedOK(cfg, s.heap, s.clients[c], slot);
          CacheStable(cfg, s.heap, h', s.clients[c], slot);
        }
      } else {
        forall p, b | HasLock(cfg, s.clients[c'].pc, p, b) ensures SameBucket(s.heap, h', p, b) {
          assert !HasLock(cfg, s.clients[c].pc, p, b);
        }
        ClientStable(cfg, s.heap, h', s.clients[c']);
      }
    }
    forall p, b | (p, b) in s'.unlocks ensures UnlockOK(cfg, s', p, b) {
      assert UnlockOK(cfg, s, p, b);
      assert !HasLock(cfg, s.clients[c].pc, p, b);
      assert SameBucket(s.heap, h', p, b);
    }
  }

  lemma SafeTryLock(cfg: Config, s: State, c: nat)
    requires cfg.Valid() && Safe(cfg, s) && c in s.clients && CanMove(cfg, s, s.clients[c].pc, TryLock)
    ensures Safe(cfg, DoMove(cfg, s, c, TryLock))
    ensures Grows(s.heap, DoMove(cfg, s, c, TryLock).heap)
  {
    var pc := s.clients[c].pc;
    var pos, curr, b := pc.pos, pc.curr, BucketOf(cfg, pc.pos);
    assert ClientOK(cfg, s.heap, s.clients[c]);
    GrowsReflexive(s.heap);
    match s.heap.plists[pos.p][b].lock
    case PUnlocked => SetPcSafe(cfg, s, c, Reading(pos, [], false), Tau);
    case ELocked => SetPcSafe(cfg, s, c, Descending(pos, curr), Tau);
    case EUnlocked =>
      SlotInRange(cfg, pos.op.key, pos.depth);
      SafeAcquire(cfg, s, c, pos, curr);
  }

  lemma NobodyHolds(cfg: Config, s: State, p: nat, b: nat)
    requires Safe(cfg, s) && InTree(s.heap, p, b) && !s.heap.plists[p][b].lock.ELocked?
    ensures forall c | c in s.clients :: !HasLock(cfg, s.clients[c].pc, p, b)
    ensures (p, b) !in s.unlocks
  {
    forall c | c in s.clients ensures !HasLock(cfg, s.clients[c].pc, p, b) {
      assert ClientOK(cfg, s.heap, s.clients[c]);
    }
  }

  lemma AcquireHeap(cfg: Config, s: State, p: nat, b: nat)
    requires Safe(cfg, s) && InTree(s.heap, p, b) && b < |s.heap.plists[p]| - 1 && s.heap.plists[p][b].lock.EUnlocked?
    ensures Tree(cfg, SetLock(s.heap, p, b, ELocked))
    ensures Grows(s.heap, SetLock(s.heap, p, b, ELocked))
    ensures LastIdle(SetLock(s.heap, p, b, ELocked))
    ensures !s.heap.plists[p][b].base.PRef?
  {
    assert BucketOK(s.heap, p, b);
    SetLockKeepsTree(cfg, s.heap, p, b, ELocked);
    LockGrows(s.heap, p, b, ELocked);
  }

  lemma AcquireClients(cfg: Config, s: State, c: nat, pos: Pos, curr: seq<Snap>, h': Heap)
    requires Safe(cfg, s) && c in s.clients && s.clients[c].pc == Descending(pos, curr)
    requires InCurr(cfg, s, pos, curr) && !Current(cfg, pos, curr).lock.PUnlocked?
    requires s.heap.plists[pos.p][BucketOf(cfg, pos)].lock.EUnlocked?
    requires h' == SetLock(s.heap, pos.p, BucketOf(cfg, pos), ELocked)
    requires Grows(s.heap, h') && LastIdle(h') && !s.heap.plists[pos.p][BucketOf(cfg, pos)].base.PRef?
    ensures forall c' | c' in s.clients ::
      ClientOK(cfg, h', if c' == c then s.clients[c].(pc := Holding(pos, curr)) else s.clients[c'])
  {
    NobodyHolds(cfg, s, pos.p, BucketOf(cfg, pos));
    hide Tree;
    forall c' | c' in s.clients
      ensures ClientOK(cfg, h', if c' == c then s.clients[c].(pc := Holding(pos, curr)) else s.clients[c'])
    {
      ClientStable(cfg, s.heap, h', s.clients[c']);
      if c' == c { CacheKept(cfg, h', s.clients[c], Holding(pos, curr)); }
    }
  }

  lemma AcquireUnlocks(cfg: Config, s: State, c: nat, pc: Pc, p: nat, b: nat)
    requires Safe(cfg, s) && c in s.clients && InTree(s.heap, p, b) && s.heap.plists[p][b].lock.EUnlocked?
    requires forall p', b' | HasLock(cfg, pc, p', b') :: p' == p && b' == b
    ensures var s' := SetPc(s, c, pc, Tau).(heap := SetLock(s.heap, p, b, ELocked));
      && (forall p', b' | (p', b') in s'.unlocks :: UnlockOK(cfg, s', p', b'))
      && Exclusive(cfg, s')
  {
    NobodyHolds(cfg, s, p, b);
    hide Tree; hide LastIdle; hide ClientOK;
    var s' := SetPc(s, c, pc, Tau).(heap := SetLock(s.heap, p, b, ELocked));
    forall p', b' | (p', b') in s'.unlocks ensures UnlockOK(cfg, s', p', b') {
      assert UnlockOK(cfg, s, p', b');
    }
  }

  lemma SafeAcquire(cfg: Config, s: State, c: nat, pos: Pos, curr: seq<Snap>)
    requires cfg.Valid() && Safe(cfg, s) && c in s.clients && s.clients[c].pc == Descending(pos, curr)
    requires InCurr(cfg, s, pos, curr) && !Current(cfg, pos, curr).lock.PUnlocked?
    requires s.heap.plists[pos.p][BucketOf(cfg, pos)].lock.EUnlocked?
    ensures Safe(cfg, SetPc(s, c, Holding(pos, curr), Tau).(heap := SetLock(s.heap, pos.p, BucketOf(cfg, pos), ELocked)))
    ensures Grows(s.heap, SetLock(s.heap, pos.p, BucketOf(cfg, pos), ELocked))
  {
    hide Tree; hide LastIdle; hide Grows;
    var b := BucketOf(cfg, pos);
    assert ClientOK(cfg, s.heap, s.clients[c]);
    SlotInRange(cfg, pos.op.key, pos.depth);
    AcquireHeap(cfg, s, pos.p, b);
    hide PcOK;
    AcquireClients(cfg, s, c, pos, curr, SetLock(s.heap, pos.p, b, ELocked));
    AcquireUnlocks(cfg, s, c, Holding(pos, curr), pos.p, b);
  }

  lemma SnapsAfterCalcify(cfg: Config, h: Heap, h': Heap, pos: Pos, curr: seq<Snap>, q: nat, now: nat)
    requires At(cfg, h', pos) && |curr| == cfg.Size(pos.depth) && SnapsOK(cfg, h', pos, curr)
    requires BucketOf(cfg, pos) < |curr| && h'.plists[pos.p][BucketOf(cfg, pos)].base == PRef(q)
    ensures SnapsOK(cfg, h', pos, curr[BucketOf(cfg, pos) := Snap(Bucket(PRef(q), PUnlocked), now)])
  {}

  lemma SafeInsertIntoNull(cfg: Config, s: State, c: nat, pos: Pos, curr: seq<Snap>, es: EList)
    requires cfg.Valid() && Safe(cfg, s) && c in s.clients && s.clients[c].pc == Holding(pos, curr)
    ensures InTree(s.heap, pos.p, BucketOf(cfg, pos))
    ensures Safe(cfg, SetPc(s, c, Unlocking(pos, curr, Some(None)), Tau)
                        .(heap := NewElist(s.heap, pos.p, BucketOf(cfg, pos), es)))
    ensures Grows(s.heap, NewElist(s.heap, pos.p, BucketOf(cfg, pos), es))
  {
    var b := BucketOf(cfg, pos);
    var pc := Unlocking(pos, curr, Some(None));
    assert ClientOK(cfg, s.heap, s.clients[c]);
    SlotInRange(cfg, pos.op.key, pos.depth);
    var h' := NewElist(s.heap, pos.p, b, es);
    NewElistKeepsTree(cfg, s.heap, pos.p, b, es);
    NewElistGrows(cfg, s.heap, pos.p, b, es);
    SnapsStable(cfg, s.heap, h', pos, curr);
    HolderWrites(cfg, s, c, pc, h');
  }

  lemma SafeLoad(cfg: Config, s: State, c: nat)
    requires cfg.Valid() && Safe(cfg, s) && c in s.clients && CanMove(cfg, s, s.clients[c].pc, Load)
    ensures Safe(cfg, DoMove(cfg, s, c, Load))
    ensures Grows(s.heap, DoMove(cfg, s, c, Load).heap)
  {
    var pos, curr := s.clients[c].pc.pos, s.clients[c].pc.curr;
    assert ClientOK(cfg, s.heap, s.clients[c]);
    GrowsReflexive(s.heap);
    match Current(cfg, pos, curr).base
    case ERef(e) => SetPcSafe(cfg, s, c, Loaded(pos, curr, e, s.heap.elists[e]), Tau);
    case Null =>
      if pos.op.Insert? {
        SafeInsertIntoNull(cfg, s, c, pos, curr, [Pair(pos.op.key, pos.op.val)]);
      } else {
        SetPcSafe(cfg, s, c, Unlocking(pos, curr, Some(None)), Tau);
      }
  }

  lemma SafeWrite(cfg: Config, s: State, c: nat, pos: Pos, curr: seq<Snap>, e: nat, pairs: EList, es: EList, r: Option<Value>)
    requires cfg.Valid() && Safe(cfg, s) && c in s.clients && s.clients[c].pc == Loaded(pos, curr, e, pairs)
    ensures Safe(cfg, SetPc(s, c, Unlocking(pos, curr, Some(r)), Tau).(heap := SetElist(s.heap, e, es)))
    ensures Grows(s.heap, SetElist(s.heap, e, es))
  {
    var b := BucketOf(cfg, pos);
    assert ClientOK(cfg, s.heap, s.clients[c]);
    assert SnapOK(s.heap, pos.p, b, curr[b].bk);
    SetElistKeepsTree(cfg, s.heap, e, es);
    SetElistGrows(s.heap, e, es);
    SnapsStable(cfg, s.heap, SetElist(s.heap, e, es), pos, curr);
    HolderWrites(cfg, s, c, Unlocking(pos, curr, Some(r)), SetElist(s.heap, e, es));
  }

  lemma RehashHeap(cfg: Config, h: Heap, p: nat, b: nat, pairs: EList)
    requires cfg.Valid() && Tree(cfg, h) && LastIdle(h) && InTree(h, p, b)
    requires h.plists[p][b].lock.ELocked? && !h.plists[p][b].base.PRef? && b < |h.plists[p]| - 1
    ensures var h' := Calcify(cfg, h, p, b, pairs);
      && Tree(cfg, h') && LastIdle(h') && Grows(h, h')
      && (forall p': nat, b': nat | p' != p || b' != b :: SameBucket(h, h', p', b'))
  {
    hide Part; hide Buckets; hide Links; hide Grows;
    CalcifyKeepsTree(cfg, h, p, b, pairs);
    CalcifyGrows(cfg, h, p, b, pairs);
    CalcifyLastIdle(cfg, h, p, b, pairs);
  }

  lemma RehashPc(cfg: Config, h: Heap, pos: Pos, curr: seq<Snap>, e: nat, pairs: EList, now: nat)
    requires cfg.Valid() && PcOK(cfg, h, Loaded(pos, curr, e, pairs))
    requires InTree(h, pos.p, BucketOf(cfg, pos)) && Grows(h, Calcify(cfg, h, pos.p, BucketOf(cfg, pos), pairs))
    requires h.next !in h.plists
    ensures BucketOf(cfg, pos) < |curr|
    ensures PcOK(cfg, Calcify(cfg, h, pos.p, BucketOf(cfg, pos), pairs),
                 Unlocking(pos, curr[BucketOf(cfg, pos) := Snap(Bucket(PRef(h.next), PUnlocked), now)], None))
  {
    hide Part;
    var h' := Calcify(cfg, h, pos.p, BucketOf(cfg, pos), pairs);
    SnapsStable(cfg, h, h', pos, curr);
    SnapsAfterCalcify(cfg, h, h', pos, curr, h.next, now);
  }

  lemma SafeRehash(cfg: Config, s: State, c: nat, pos: Pos, curr: seq<Snap>, e: nat, pairs: EList)
    requires cfg.Valid() && Safe(cfg, s) && c in s.clients && s.clients[c].pc == Loaded(pos, curr, e, pairs)
    requires InCurr(cfg, s, pos, curr) && MustRehash(cfg, pos.op, pairs)
    ensures Safe(cfg, DoApply(cfg, s, c, pos, curr, e, pairs))
    ensures Grows(s.heap, DoApply(cfg, s, c, pos, curr, e, pairs).heap)
  {
    hide Part; hide Buckets; hide Links; hide LastIdle; hide SnapsOK;
    var b := BucketOf(cfg, pos);
    assert ClientOK(cfg, s.heap, s.clients[c]);
    SlotInRange(cfg, pos.op.key, pos.depth);
    RehashHeap(cfg, s.heap, pos.p, b, pairs);
    RehashPc(cfg, s.heap, pos, curr, e, pairs, |s.history|);
    hide PcOK; hide Grows;
    var h' := Calcify(cfg, s.heap, pos.p, b, pairs);
    var curr' := curr[b := Snap(Bucket(PRef(s.heap.next), PUnlocked), |s.history|)];
    HolderWrites(cfg, s, c, Unlocking(pos, curr', None), h');
  }

  lemma SafeApply(cfg: Config, s: State, c: nat)
    requires cfg.Valid() && Safe(cfg, s) && c in s.clients && CanMove(cfg, s, s.clients[c].pc, Apply)
    ensures Safe(cfg, DoMove(cfg, s, c, Apply))
    ensures Grows(s.heap, DoMove(cfg, s, c, Apply).heap)
  {
    var pc := s.clients[c].pc;
    assert ClientOK(cfg, s.heap, s.clients[c]);
    hide Tree; hide LastIdle; hide Exclusive; hide SetElist; hide Calcify; hide Written; hide Grows;
    if MustRehash(cfg, pc.pos.op, pc.pairs) {
      SafeRehash(cfg, s, c, pc.pos, pc.curr, pc.e, pc.pairs);
    } else {
      GrowsReflexive(s.heap);
      var r := Find(pc.pairs, pc.pos.op.key);
      SetPcSafe(cfg, s, c, Unlocking(pc.pos, pc.curr, Some(r)), Tau);
      SafeWrite(cfg, s, c, pc.pos, pc.curr, pc.e, pc.pairs, Written(pc.pos.op, pc.pairs), r);
    }
  }

  // ---------- Unlocking ----------

  lemma PostUnlock(cfg: Config, s: State, c: nat, pos: Pos, pc': Pc, status: Lock)
    requires Safe(cfg, s) && c in s.clients && HasLock(cfg, s.clients[c].pc, pos.p, BucketOf(cfg, pos))
    requires PcOK(cfg, s.heap, pc') && (pc'.Leaving? || pc'.Descending?)
    requires InTree(s.heap, pos.p, BucketOf(cfg, pos)) && BucketOf(cfg, pos) < |s.heap.plists[pos.p]| - 1
    requires s.heap.plists[pos.p][BucketOf(cfg, pos)].lock.ELocked?
    requires status == if s.heap.plists[pos.p][BucketOf(cfg, pos)].base.PRef? then PUnlocked else EUnlocked
    ensures Safe(cfg, SetPc(s, c, pc', Tau).(unlocks := s.unlocks[(pos.p, BucketOf(cfg, pos)) := status]))
  {
    var s' := SetPc(s, c, pc', Tau).(unlocks := s.unlocks[(pos.p, BucketOf(cfg, pos)) := status]);
    CacheKept(cfg, s.heap, s.clients[c], pc');
    hide Tree; hide LastIdle; hide ClientOK; hide PcOK;
    forall p, b | (p, b) in s'.unlocks ensures UnlockOK(cfg, s', p, b) {
      assert (p, b) in s.unlocks ==> UnlockOK(cfg, s, p, b);
    }
  }

  lemma SafeUnlock(cfg: Config, s: State, c: nat)
    requires cfg.Valid() && Safe(cfg, s) && c in s.clients && CanMove(cfg, s, s.clients[c].pc, Unlock)
    ensures Safe(cfg, DoMove(cfg, s, c, Unlock))
  {
    var pc := s.clients[c].pc;
    assert ClientOK(cfg, s.heap, s.clients[c]);
    SlotInRange(cfg, pc.pos.op.key, pc.pos.depth);
    match pc.answer
    case Some(r) => PostUnlock(cfg, s, c, pc.pos, Leaving(pc.pos.id, pc.pos.op, r), EUnlocked);
    case None => PostUnlock(cfg, s, c, pc.pos, Descending(pc.pos, pc.curr), PUnlocked);
  }

  lemma LandHeap(cfg: Config, s: State, p: nat, b: nat)
    requires Safe(cfg, s) && (p, b) in s.unlocks
    ensures InTree(s.heap, p, b)
    ensures Tree(cfg, SetLock(s.heap, p, b, s.unlocks[(p, b)]))
    ensures Grows(s.heap, SetLock(s.heap, p, b, s.unlocks[(p, b)]))
    ensures LastIdle(SetLock(s.heap, p, b, s.unlocks[(p, b)]))
  {
    assert UnlockOK(cfg, s, p, b);
    SetLockKeepsTree(cfg, s.heap, p, b, s.unlocks[(p, b)]);
    LockGrows(s.heap, p, b, s.unlocks[(p, b)]);
  }

  lemma SafeLand(cfg: Config, s: State, p: nat, b: nat)
    requires Safe(cfg, s) && (p, b) in s.unlocks
    ensures InTree(s.heap, p, b)
    ensures Safe(cfg, DoLand(s, p, b))
    ensures Grows(s.heap, DoLand(s, p, b).heap)
  {
    LandHeap(cfg, s, p, b);
    assert UnlockOK(cfg, s, p, b);
    var s' := DoLand(s, p, b);
    hide Tree; hide LastIdle;
    forall c | c in s'.clients ensures ClientOK(cfg, s'.heap, s'.clients[c]) {
      ClientStable(cfg, s.heap, s'.heap, s.clients[c]);
    }
    forall p', b' | (p', b') in s'.unlocks ensures UnlockOK(cfg, s', p', b') {
      assert UnlockOK(cfg, s, p', b');
    }
  }

  // ---------- One step ----------

  lemma SafeStep(cfg: Config, s: State, a: Action)
    requires cfg.Valid() && Safe(cfg, s) && Enabled(cfg, s, a)
    ensures Safe(cfg, Step(cfg, s, a))
    ensures Grows(s.heap, Step(cfg, s, a).heap)
  {
    GrowsReflexive(s.heap);
    match a
    case Land(p, b) => SafeLand(cfg, s, p, b);
    case By(c, move) =>
      match move {
        case FinishRead => SafeFinishRead(cfg, s, c);
        case Down => SafeDown(cfg, s, c);
        case TryLock => SafeTryLock(cfg, s, c);
        case Load => SafeLoad(cfg, s, c);
        case Apply => SafeApply(cfg, s, c);
        case Unlock => SafeUnlock(cfg, s, c);
        case _ => SafeReads(cfg, s, c, move);
      }
  }

  lemma InitSafe(cfg: Config, s: State)
    requires cfg.Valid() && Init(cfg, s)
    ensures Safe(cfg, s)
  {
    var h := s.heap;
    assert forall p, b | p in h.plists && 0 <= b < |h.plists[p]| :: BucketOK(h, p, b);
  }

  lemma GrowsTransitive(h: Heap, h1: Heap, h2: Heap)
    requires Grows(h, h1) && Grows(h1, h2)
    ensures Grows(h, h2)
  {
    forall p, b | p in h.plists && 0 <= b < |h.plists[p]| ensures BucketGrows(h.plists[p][b], h2.plists[p][b]) {
      assert BucketGrows(h.plists[p][b], h1.plists[p][b]) && BucketGrows(h1.plists[p][b], h2.plists[p][b]);
    }
  }
}
