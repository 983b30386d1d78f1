/** The bookkeeping behind `IhtLinearizable`: `LinInv` ties a linear order of the operations to the memory and to what
    each client has read so far, and each step extends the order or leaves it alone, as long as no insert overwrites a list (`FreshNull`).

    A client reads a PList before it locks a bucket, and uses the pointer it read. A null pointer may be stale by
    the time the lock is held, so such an operation takes effect at the moment of the read: it is put back
    into the linear order at that step. Every other operation takes effect when it loads or writes the EList.
 */
module IhtOrder {
  import opened Linearizability
  import opened IhtHeap
  import opened IhtUpdates
  import opened IhtCache
  import opened IhtConcurrent
  import opened IhtSafety

  function IdOf(pc: Pc): nat
    requires !pc.Idle?
  {
    if pc.Start? || pc.Leaving? then pc.id else pc.pos.id
  }

  function OpOf(pc: Pc): Op
    requires !pc.Idle?
  {
    if pc.Start? || pc.Leaving? then pc.op else pc.pos.op
  }

  /** An insert that read a null pointer is about to set the pointer of its bucket. */
  predicate SetsPointer(cfg: Config, s: State, a: Action) {
    && a.By? && a.move.Load? && Enabled(cfg, s, a)
    && s.clients[a.c].pc.pos.op.Insert? && Current(cfg, s.clients[a.c].pc.pos, s.clients[a.c].pc.curr).base.Null?
  }

  /** An insert that sets the pointer of its bucket finds it still null. */
  predicate FreshNull(cfg: Config, s: State, a: Action) {
    SetsPointer(cfg, s, a) ==>
      s.heap.plists[s.clients[a.c].pc.pos.p][BucketOf(cfg, s.clients[a.c].pc.pos)].base.Null?
  }

  // ---------- The invariant ----------

  /** What a client may rely on about the bucket of its key, as it read it. */
  ghost predicate SnapLin(cfg: Config, h: Heap, n: nat, lin: seq<LinPoint>, pos: Pos, snaps: seq<Snap>) {
    var b := BucketOf(cfg, pos);
    b < |snaps| && InTree(h, pos.p, b) ==>
      var live := h.plists[pos.p][b].base;
      && (snaps[b].bk.base.Null? ==>
            && pos.id < snaps[b].at < n
            && pos.op.key !in MapAt(lin, snaps[b].at))
      && (snaps[b].bk.base.ERef? ==> live == snaps[b].bk.base || live.PRef?)
  }

  ghost predicate PcLin(cfg: Config, h: Heap, hist: seq<Event>, lin: seq<LinPoint>, pc: Pc) {
    !pc.Idle? ==>
      && Pending(hist, IdOf(pc), OpOf(pc))
      && match pc
         case Start(id, _) => !Listed(lin, id)
         case Reading(pos, got, _) => !Listed(lin, pos.id) && SnapLin(cfg, h, |hist|, lin, pos, got)
         case Descending(pos, curr) => !Listed(lin, pos.id) && SnapLin(cfg, h, |hist|, lin, pos, curr)
         case Holding(pos, curr) => !Listed(lin, pos.id) && SnapLin(cfg, h, |hist|, lin, pos, curr)
         case Loaded(pos, curr, e, pairs) =>
           && !Listed(lin, pos.id)
           && InTree(h, pos.p, BucketOf(cfg, pos)) && h.plists[pos.p][BucketOf(cfg, pos)].base == ERef(e)
           && e in h.elists && h.elists[e] == pairs
         case Unlocking(pos, curr, answer) =>
           (match answer
            case None => !Listed(lin, pos.id) && SnapLin(cfg, h, |hist|, lin, pos, curr)
            case Some(r) => Answered(lin, pos.id, r))
         case Leaving(id, _, r) => Answered(lin, id, r)
  }

  ghost predicate DistinctIds(s: State) {
    forall c, c' | c in s.clients && c' in s.clients && c != c' && !s.clients[c].pc.Idle? && !s.clients[c'].pc.Idle? ::
      IdOf(s.clients[c].pc) != IdOf(s.clients[c'].pc)
  }

  ghost predicate ClientsLin(cfg: Config, s: State, lin: seq<LinPoint>) {
    forall c | c in s.clients :: PcLin(cfg, s.heap, s.history, lin, s.clients[c].pc)
  }

  /** `lin` linearizes the history so far and replays to the map that the memory represents. */
  ghost predicate LinInv(cfg: Config, s: State, lin: seq<LinPoint>) {
    && Safe(cfg, s)
    && Data(cfg, s.heap)
    && Abstracts(s.heap, Replay(lin))
    && Timed(s.history, lin)
    && ClientsLin(cfg, s, lin)
    && DistinctIds(s)
  }

  lemma Parts(cfg: Config, s: State, lin: seq<LinPoint>)
    requires LinInv(cfg, s, lin)
    ensures Safe(cfg, s) && Tree(cfg, s.heap) && Data(cfg, s.heap) && Abstracts(s.heap, Replay(lin)) && Timed(s.history, lin)
  {}

  // ---------- Other clients are not disturbed ----------

  ghost predicate SameAt(h: Heap, h': Heap, p: nat, b: nat) {
    InTree(h, p, b) ==>
      && InTree(h', p, b)
      && h'.plists[p][b].base == h.plists[p][b].base
      && (h.plists[p][b].base.ERef? && h.plists[p][b].base.e in h.elists ==>
            && h.plists[p][b].base.e in h'.elists
            && h'.elists[h.plists[p][b].base.e] == h.elists[h.plists[p][b].base.e])
  }

  /** Only lock words differ. */
  ghost predicate SameData(h: Heap, h': Heap) {
    forall p: nat, b: nat :: SameAt(h, h', p, b)
  }

  /** A write to bucket `(p, b)`: other buckets keep their lists, and an EList stays or becomes a PList. */
  ghost predicate Focused(h: Heap, h': Heap, p: nat, b: nat) {
    && (forall p': nat, b': nat | p' != p || b' != b :: SameAt(h, h', p', b'))
    && InTree(h, p, b) && InTree(h', p, b)
    && (h.plists[p][b].base.ERef? ==> h'.plists[p][b].base == h.plists[p][b].base || h'.plists[p][b].base.PRef?)
    && (h.plists[p][b].base.PRef? ==> h'.plists[p][b].base == h.plists[p][b].base)
  }

  lemma SnapLinStable(cfg: Config, h: Heap, h': Heap, n: nat, lin: seq<LinPoint>, lin': seq<LinPoint>, id: nat,
                      pos: Pos, snaps: seq<Snap>)
    requires At(cfg, h, pos) && |snaps| <= |h.plists[pos.p]|
    requires SnapLin(cfg, h, n, lin, pos, snaps) && LinExtends(lin, lin', n, id)
    requires SameAt(h, h', pos.p, BucketOf(cfg, pos)) || Focused(h, h', pos.p, BucketOf(cfg, pos))
    ensures SnapLin(cfg, h', n + 1, lin', pos, snaps)
  {}

  lemma PcLinStable(cfg: Config, h: Heap, h': Heap, hist: seq<Event>, ev: Event,
                    lin: seq<LinPoint>, lin': seq<LinPoint>, pc: Pc, id: nat)
    requires PcOK(cfg, h, pc) && PcLin(cfg, h, hist, lin, pc) && LinExtends(lin, lin', |hist|, id)
    requires !pc.Idle? ==> IdOf(pc) != id && (ev.Res? ==> ev.id != IdOf(pc))
    requires pc.Reading? || pc.Descending? || pc.Holding? || pc.Loaded? || pc.Unlocking? ==>
      var b := BucketOf(cfg, pc.pos);
      SameAt(h, h', pc.pos.p, b) || (Focused(h, h', pc.pos.p, b) && !HasLock(cfg, pc, pc.pos.p, b))
    ensures PcLin(cfg, h', hist + [ev], lin', pc)
  {
    if !pc.Idle? {
      PendingExtend(hist, IdOf(pc), OpOf(pc), ev);
      if pc.Reading? { SnapLinStable(cfg, h, h', |hist|, lin, lin', id, pc.pos, pc.got); }
      if pc.Descending? || pc.Holding? || (pc.Unlocking? && pc.answer.None?) {
        SnapLinStable(cfg, h, h', |hist|, lin, lin', id, pc.pos, pc.curr);
      }
    }
  }

  /** The client that moves, and its operation; a new operation is named by the current step. */
  ghost predicate Actor(s: State, c: nat, id: nat, ev: Event) {
    && c in s.clients
    && id == (if s.clients[c].pc.Idle? then |s.history| else IdOf(s.clients[c].pc))
    && (ev.Res? ==> ev.id == id)
  }

  lemma ActorAlone(cfg: Config, s: State, lin: seq<LinPoint>, c: nat, id: nat, ev: Event, c': nat)
    requires LinInv(cfg, s, lin) && Actor(s, c, id, ev) && c' in s.clients && c' != c && !s.clients[c'].pc.Idle?
    ensures IdOf(s.clients[c'].pc) != id
  {
    assert PcLin(cfg, s.heap, s.history, lin, s.clients[c'].pc);
  }

  lemma OthersQuiet(cfg: Config, s: State, h': Heap, c: nat, id: nat, ev: Event, lin: seq<LinPoint>, lin': seq<LinPoint>)
    requires LinInv(cfg, s, lin) && Actor(s, c, id, ev)
    requires SameData(s.heap, h') && LinExtends(lin, lin', |s.history|, id)
    ensures forall c' | c' in s.clients && c' != c :: PcLin(cfg, h', s.history + [ev], lin', s.clients[c'].pc)
  {
    forall c' | c' in s.clients && c' != c ensures PcLin(cfg, h', s.history + [ev], lin', s.clients[c'].pc) {
      var pc := s.clients[c'].pc;
      assert ClientOK(cfg, s.heap, s.clients[c']);
      if !pc.Idle? { ActorAlone(cfg, s, lin, c, id, ev, c'); }
      PcLinStable(cfg, s.heap, h', s.history, ev, lin, lin', pc, id);
    }
  }

  lemma OthersWritten(cfg: Config, s: State, h': Heap, c: nat, id: nat, p: nat, b: nat,
                      lin: seq<LinPoint>, lin': seq<LinPoint>)
    requires LinInv(cfg, s, lin) && Actor(s, c, id, Tau)
    requires HasLock(cfg, s.clients[c].pc, p, b)
    requires Focused(s.heap, h', p, b) && LinExtends(lin, lin', |s.history|, id)
    ensures forall c' | c' in s.clients && c' != c :: PcLin(cfg, h', s.history + [Tau], lin', s.clients[c'].pc)
  {
    forall c' | c' in s.clients && c' != c ensures PcLin(cfg, h', s.history + [Tau], lin', s.clients[c'].pc) {
      var pc := s.clients[c'].pc;
      assert ClientOK(cfg, s.heap, s.clients[c']);
      assert !HasLock(cfg, pc, p, b);
      if !pc.Idle? { ActorAlone(cfg, s, lin, c, id, Tau, c'); }
      PcLinStable(cfg, s.heap, h', s.history, Tau, lin, lin', pc, id);
    }
  }

  // ---------- Steps that write no list ----------

  lemma SameLin(lin: seq<LinPoint>, n: nat, id: nat)
    ensures LinExtends(lin, lin, n, id)
  {}

  lemma SameDataKeeps(cfg: Config, h: Heap, p: nat, b: nat, l: Lock, m: map<Key, Value>)
    requires InTree(h, p, b) && Data(cfg, h) && Abstracts(h, m)
    ensures SameData(h, SetLock(h, p, b, l))
    ensures Data(cfg, SetLock(h, p, b, l)) && Abstracts(SetLock(h, p, b, l), m)
  {
    SetLockKeepsData(cfg, h, p, b, l);
  }

  /** A client moves and no list changes. */
  lemma QuietLin(cfg: Config, s: State, s': State, c: nat, id: nat, ev: Event, lin: seq<LinPoint>, lin': seq<LinPoint>)
    requires LinInv(cfg, s, lin) && Actor(s, c, id, ev) && Safe(cfg, s')
    requires s'.clients.Keys == s.clients.Keys && s'.history == s.history + [ev]
    requires forall c' | c' in s.clients && c' != c :: s'.clients[c'] == s.clients[c']
    requires SameData(s.heap, s'.heap) && Data(cfg, s'.heap) && Abstracts(s'.heap, Replay(lin'))
    requires LinExtends(lin, lin', |s.history|, id) && Timed(s'.history, lin')
    requires PcLin(cfg, s'.heap, s'.history, lin', s'.clients[c].pc)
    requires !s'.clients[c].pc.Idle? ==> IdOf(s'.clients[c].pc) == id
    ensures LinInv(cfg, s', lin')
  {
    OthersQuiet(cfg, s, s'.heap, c, id, ev, lin, lin');
    StillDistinct(cfg, s, s', c, id, ev, lin);
  }

  lemma StillDistinct(cfg: Config, s: State, s': State, c: nat, id: nat, ev: Event, lin: seq<LinPoint>)
    requires LinInv(cfg, s, lin) && Actor(s, c, id, ev)
    requires s'.clients.Keys == s.clients.Keys
    requires forall c' | c' in s.clients && c' != c :: s'.clients[c'] == s.clients[c']
    requires !s'.clients[c].pc.Idle? ==> IdOf(s'.clients[c].pc) == id
    ensures DistinctIds(s')
  {
    forall c' | c' in s.clients && c' != c && !s.clients[c'].pc.Idle? ensures IdOf(s.clients[c'].pc) != id {
      ActorAlone(cfg, s, lin, c, id, ev, c');
    }
  }

  /** What the moving client knew, one step later. */
  lemma StillKnown(cfg: Config, s: State, c: nat, h': Heap, lin: seq<LinPoint>)
    requires LinInv(cfg, s, lin) && c in s.clients && SameData(s.heap, h')
    ensures PcLin(cfg, h', s.history + [Tau], lin, s.clients[c].pc)
  {
    var pc := s.clients[c].pc;
    assert ClientOK(cfg, s.heap, s.clients[c]);
    PcLinStable(cfg, s.heap, h', s.history, Tau, lin, lin, pc, if pc.Idle? then 0 else IdOf(pc) + 1);
  }

  lemma IdsAreOld(h: seq<Event>, lin: seq<LinPoint>)
    requires Timed(h, lin)
    ensures !Listed(lin, |h|)
    ensures forall r | 0 <= r < |h| && h[r].Res? :: h[r].id < |h|
  {}

  lemma LinInvoke(cfg: Config, s: State, c: nat, op: Op, lin: seq<LinPoint>)
    requires cfg.Valid() && LinInv(cfg, s, lin) && c in s.clients && s.clients[c].pc.Idle?
    ensures LinInv(cfg, DoMove(cfg, s, c, Invoke(op)), lin)
  {
    var n := |s.history|;
    IdsAreOld(s.history, lin);
    SafeReads(cfg, s, c, Invoke(op));
    TimedExtend(s.history, lin, Inv(op));
    assert Pending(s.history + [Inv(op)], n, op);
    SameLin(lin, n, n);
    QuietLin(cfg, s, DoMove(cfg, s, c, Invoke(op)), c, n, Inv(op), lin, lin);
  }

  /** A move of the program counter that writes nothing. */
  lemma LinSetPc(cfg: Config, s: State, c: nat, pc: Pc, lin: seq<LinPoint>)
    requires LinInv(cfg, s, lin) && c in s.clients && !s.clients[c].pc.Idle?
    requires Safe(cfg, SetPc(s, c, pc, Tau))
    requires PcLin(cfg, s.heap, s.history + [Tau], lin, pc)
    requires !pc.Idle? && IdOf(pc) == IdOf(s.clients[c].pc)
    ensures LinInv(cfg, SetPc(s, c, pc, Tau), lin)
  {
    TimedExtend(s.history, lin, Tau);
    SameLin(lin, |s.history|, IdOf(pc));
    QuietLin(cfg, s, SetPc(s, c, pc, Tau), c, IdOf(pc), Tau, lin, lin);
  }

  /** A PList fetched from the cache never shows a null pointer or an EList where the key hashes. */
  lemma FetchLin(cfg: Config, h: Heap, n: nat, lin: seq<LinPoint>, cl: Client, pos: Pos)
    requires cfg.Valid() && Tree(cfg, h) && ClientOK(cfg, h, cl) && At(cfg, h, pos)
    ensures var pc := Fetch(cfg, cl, pos);
      && (pc.Reading? || pc.Descending?) && pc.pos == pos
      && SnapLin(cfg, h, n, lin, pos, if pc.Reading? then pc.got else pc.curr)
  {
    FetchOK(cfg, h, cl, pos);
    SlotInRange(cfg, pos.op.key, pos.depth);
    var pc := Fetch(cfg, cl, pos);
    if pc.Descending? {
      assert CachedOK(cfg, h, cl, SlotFor(cfg, cl, pos).value);
      var b := BucketOf(cfg, pos);
      assert SnapOK(h, pos.p, b, pc.curr[b].bk);
    }
  }

  lemma LinBegin(cfg: Config, s: State, c: nat, lin: seq<LinPoint>)
    requires cfg.Valid() && LinInv(cfg, s, lin) && c in s.clients && s.clients[c].pc.Start?
    ensures LinInv(cfg, DoMove(cfg, s, c, Begin), lin)
  {
    var cl := s.clients[c];
    var pos := Pos(cl.pc.id, cl.pc.op, s.heap.root, 1);
    assert ClientOK(cfg, s.heap, cl);
    StillKnown(cfg, s, c, s.heap, lin);
    SafeReads(cfg, s, c, Begin);
    RootAt(cfg, s.heap, cl.pc.id, cl.pc.op);
    FetchLin(cfg, s.heap, |s.history| + 1, lin, cl, pos);
    LinSetPc(cfg, s, c, Fetch(cfg, cl, pos), lin);
  }

  lemma DownAt(cfg: Config, s: State, c: nat)
    requires cfg.Valid() && Safe(cfg, s) && c in s.clients && CanMove(cfg, s, s.clients[c].pc, Down)
    ensures var pos := s.clients[c].pc.pos;
      At(cfg, s.heap, pos.(p := Current(cfg, pos, s.clients[c].pc.curr).base.p, depth := pos.depth + 1))
  {
    var pc := s.clients[c].pc;
    assert ClientOK(cfg, s.heap, s.clients[c]);
    assert SnapOK(s.heap, pc.pos.p, BucketOf(cfg, pc.pos), pc.curr[BucketOf(cfg, pc.pos)].bk);
    ChildAt(cfg, s.heap, pc.pos, Current(cfg, pc.pos, pc.curr).base.p);
  }

  lemma LinDown(cfg: Config, s: State, c: nat, lin: seq<LinPoint>)
    requires cfg.Valid() && LinInv(cfg, s, lin) && c in s.clients && CanMove(cfg, s, s.clients[c].pc, Down)
    ensures LinInv(cfg, DoMove(cfg, s, c, Down), lin)
  {
    hide PcOK; hide Tree; hide Data; hide Abstracts; hide SnapLin; hide At;
    var pos := s.clients[c].pc.pos;
    var pos' := pos.(p := Current(cfg, pos, s.clients[c].pc.curr).base.p, depth := pos.depth + 1);
    StillKnown(cfg, s, c, s.heap, lin);
    SafeDown(cfg, s, c);
    DownAt(cfg, s, c);
    FetchLin(cfg, s.heap, |s.history| + 1, lin, s.clients[c], pos');
    LinSetPc(cfg, s, c, Fetch(cfg, s.clients[c], pos'), lin);
  }

  lemma PathExtends(cfg: Config, h: Heap, pos: Pos)
    requires At(cfg, h, pos)
    ensures OnPath(cfg, pos.op.key, h.paths[pos.p] + [BucketOf(cfg, pos)])
  {}

  lemma MapAtNow(h: seq<Event>, lin: seq<LinPoint>)
    requires Timed(h, lin)
    ensures MapAt(lin, |h|) == Replay(lin)
  {
    CutIs(lin, |h|, |lin|);
    assert lin[..|lin|] == lin;
  }

  /** Reading the bucket of the key: a null pointer means that the key is absent right now. */
  lemma ReadLin(cfg: Config, s: State, c: nat, lin: seq<LinPoint>)
    requires cfg.Valid() && LinInv(cfg, s, lin) && c in s.clients && CanMove(cfg, s, s.clients[c].pc, ReadBucket)
    ensures var pc := s.clients[c].pc;
      SnapLin(cfg, s.heap, |s.history| + 1, lin, pc.pos,
              pc.got + [Snap(s.heap.plists[pc.pos.p][|pc.got|], |s.history|)])
  {
    var pc := s.clients[c].pc;
    assert ClientOK(cfg, s.heap, s.clients[c]);
    assert PcLin(cfg, s.heap, s.history, lin, pc);
    var b := BucketOf(cfg, pc.pos);
    if b == |pc.got| && s.heap.plists[pc.pos.p][b].base.Null? {
      PathExtends(cfg, s.heap, pc.pos);
      LeafLookup(cfg, s.heap, Replay(lin), pc.pos.p, b, pc.pos.op.key);
      MapAtNow(s.history, lin);
    }
  }

  lemma LinReadBucket(cfg: Config, s: State, c: nat, lin: seq<LinPoint>)
    requires cfg.Valid() && LinInv(cfg, s, lin) && c in s.clients && CanMove(cfg, s, s.clients[c].pc, ReadBucket)
    ensures LinInv(cfg, DoMove(cfg, s, c, ReadBucket), lin)
  {
    var pc := s.clients[c].pc;
    StillKnown(cfg, s, c, s.heap, lin);
    SafeReads(cfg, s, c, ReadBucket);
    ReadLin(cfg, s, c, lin);
    LinSetPc(cfg, s, c, pc.(got := pc.got + [Snap(s.heap.plists[pc.pos.p][|pc.got|], |s.history|)]), lin);
  }

  lemma LinFinishRead(cfg: Config, s: State, c: nat, lin: seq<LinPoint>)
    requires cfg.Valid() && LinInv(cfg, s, lin) && c in s.clients && CanMove(cfg, s, s.clients[c].pc, FinishRead)
    ensures LinInv(cfg, DoMove(cfg, s, c, FinishRead), lin)
  {
    var pc := s.clients[c].pc;
    var s' := DoMove(cfg, s, c, FinishRead);
    StillKnown(cfg, s, c, s.heap, lin);
    SafeFinishRead(cfg, s, c);
    hide Safe; hide Data; hide Abstracts; hide SnapLin; hide DistinctIds; hide ClientsLin; hide LinInv;
    TimedExtend(s.history, lin, Tau);
    SameLin(lin, |s.history|, IdOf(pc));
    QuietLin(cfg, s, s', c, IdOf(pc), Tau, lin, lin);
  }

  lemma LinAcquire(cfg: Config, s: State, c: nat, lin: seq<LinPoint>)
    requires cfg.Valid() && LinInv(cfg, s, lin) && c in s.clients && CanMove(cfg, s, s.clients[c].pc, TryLock)
    requires s.heap.plists[s.clients[c].pc.pos.p][BucketOf(cfg, s.clients[c].pc.pos)].lock.EUnlocked?
    ensures LinInv(cfg, DoMove(cfg, s, c, TryLock), lin)
  {
    hide PcOK; hide Tree; hide Data; hide Abstracts; hide SnapLin;
    var pc := s.clients[c].pc;
    var pos, b := pc.pos, BucketOf(cfg, pc.pos);
    SafeTryLock(cfg, s, c);
    var h' := SetLock(s.heap, pos.p, b, ELocked);
    SameDataKeeps(cfg, s.heap, pos.p, b, ELocked, Replay(lin));
    StillKnown(cfg, s, c, h', lin);
    hide Safe; hide Data; hide Abstracts; hide SnapLin; hide DistinctIds; hide ClientsLin; hide LinInv;
    TimedExtend(s.history, lin, Tau);
    SameLin(lin, |s.history|, IdOf(pc));
    QuietLin(cfg, s, DoMove(cfg, s, c, TryLock), c, IdOf(pc), Tau, lin, lin);
  }

  lemma LinTryLock(cfg: Config, s: State, c: nat, lin: seq<LinPoint>)
    requires cfg.Valid() && LinInv(cfg, s, lin) && c in s.clients && CanMove(cfg, s, s.clients[c].pc, TryLock)
    ensures LinInv(cfg, DoMove(cfg, s, c, TryLock), lin)
  {
    hide PcOK; hide Tree; hide Data; hide Abstracts; hide SnapLin;
    var pc := s.clients[c].pc;
    SafeTryLock(cfg, s, c);
    StillKnown(cfg, s, c, s.heap, lin);
    match s.heap.plists[pc.pos.p][BucketOf(cfg, pc.pos)].lock
    case PUnlocked => LinSetPc(cfg, s, c, Reading(pc.pos, [], false), lin);
    case ELocked => LinSetPc(cfg, s, c, Descending(pc.pos, pc.curr), lin);
    case EUnlocked => LinAcquire(cfg, s, c, lin);
  }

  lemma LinUnlock(cfg: Config, s: State, c: nat, lin: seq<LinPoint>)
    requires cfg.Valid() && LinInv(cfg, s, lin) && c in s.clients && CanMove(cfg, s, s.clients[c].pc, Unlock)
    ensures LinInv(cfg, DoMove(cfg, s, c, Unlock), lin)
  {
    hide LinInv; hide Safe; hide Tree; hide Data; hide Abstracts; hide SnapLin; hide Timed; hide LinExtends; hide Replay;
    Parts(cfg, s, lin);
    var pc := s.clients[c].pc;
    SafeUnlock(cfg, s, c);
    StillKnown(cfg, s, c, s.heap, lin);
    TimedExtend(s.history, lin, Tau);
    SameLin(lin, |s.history|, IdOf(pc));
    QuietLin(cfg, s, DoMove(cfg, s, c, Unlock), c, IdOf(pc), Tau, lin, lin);
  }

  lemma LinRespond(cfg: Config, s: State, c: nat, lin: seq<LinPoint>)
    requires cfg.Valid() && LinInv(cfg, s, lin) && c in s.clients && CanMove(cfg, s, s.clients[c].pc, Respond)
    ensures LinInv(cfg, DoMove(cfg, s, c, Respond), lin)
  {
    var pc := s.clients[c].pc;
    assert PcLin(cfg, s.heap, s.history, lin, pc);
    SafeReads(cfg, s, c, Respond);
    TimedExtend(s.history, lin, Res(pc.id, pc.result));
    SameLin(lin, |s.history|, pc.id);
    QuietLin(cfg, s, DoMove(cfg, s, c, Respond), c, pc.id, Res(pc.id, pc.result), lin, lin);
  }

  lemma LinLand(cfg: Config, s: State, p: nat, b: nat, lin: seq<LinPoint>)
    requires cfg.Valid() && LinInv(cfg, s, lin) && Enabled(cfg, s, Land(p, b))
    ensures LinInv(cfg, DoLand(s, p, b), lin)
  {
    SafeLand(cfg, s, p, b);
    var h' := SetLock(s.heap, p, b, s.unlocks[(p, b)]);
    SameDataKeeps(cfg, s.heap, p, b, s.unlocks[(p, b)], Replay(lin));
    TimedExtend(s.history, lin, Tau);
    forall c | c in s.clients ensures PcLin(cfg, h', s.history + [Tau], lin, s.clients[c].pc) {
      StillKnown(cfg, s, c, h', lin);
    }
  }

  // ---------- Steps at which operations take effect ----------

  /** The holder of a bucket lock writes and its operation takes effect, or is put back where it took effect. */
  lemma WriteLin(cfg: Config, s: State, c: nat, pc': Pc, h': Heap, p: nat, b: nat, lin: seq<LinPoint>, lin': seq<LinPoint>)
    requires LinInv(cfg, s, lin) && c in s.clients && HasLock(cfg, s.clients[c].pc, p, b)
    requires Safe(cfg, SetPc(s, c, pc', Tau).(heap := h'))
    requires Focused(s.heap, h', p, b) && LinExtends(lin, lin', |s.history|, IdOf(s.clients[c].pc))
    requires Data(cfg, h') && Abstracts(h', Replay(lin')) && Timed(s.history + [Tau], lin')
    requires PcLin(cfg, h', s.history + [Tau], lin', pc')
    requires !pc'.Idle? && IdOf(pc') == IdOf(s.clients[c].pc)
    ensures LinInv(cfg, SetPc(s, c, pc', Tau).(heap := h'), lin')
  {
    hide Safe; hide Data; hide Abstracts; hide Timed; hide PcLin; hide Focused; hide LinExtends; hide DistinctIds;
    var id := IdOf(s.clients[c].pc);
    OthersWritten(cfg, s, h', c, id, p, b, lin, lin');
    StillDistinct(cfg, s, SetPc(s, c, pc', Tau).(heap := h'), c, id, Tau, lin);
  }

  /** A client that has read a null pointer knows that its key was absent then. */
  lemma NullReadBefore(cfg: Config, s: State, c: nat, lin: seq<LinPoint>)
    requires LinInv(cfg, s, lin) && c in s.clients && CanMove(cfg, s, s.clients[c].pc, Load)
    requires Current(cfg, s.clients[c].pc.pos, s.clients[c].pc.curr).base.Null?
    ensures var pos := s.clients[c].pc.pos; var at := s.clients[c].pc.curr[BucketOf(cfg, pos)].at;
      && Pending(s.history, pos.id, pos.op) && !Listed(lin, pos.id)
      && pos.id < at < |s.history| && pos.op.key !in MapAt(lin, at)
    ensures Safe(cfg, s) && Data(cfg, s.heap) && Abstracts(s.heap, Replay(lin)) && Timed(s.history, lin)
  {
    hide Tree; hide Data; hide Abstracts; hide Timed;
    assert ClientOK(cfg, s.heap, s.clients[c]) && PcLin(cfg, s.heap, s.history, lin, s.clients[c].pc);
  }

  /** An operation that found a null pointer: `contains` and `remove` took effect when they read it. */
  lemma LinLoadNull(cfg: Config, s: State, c: nat, lin: seq<LinPoint>) returns (lin': seq<LinPoint>)
    requires cfg.Valid() && LinInv(cfg, s, lin) && c in s.clients && CanMove(cfg, s, s.clients[c].pc, Load)
    requires Current(cfg, s.clients[c].pc.pos, s.clients[c].pc.curr).base.Null? && !s.clients[c].pc.pos.op.Insert?
    ensures LinInv(cfg, DoMove(cfg, s, c, Load), lin')
  {
    hide Tree; hide Data; hide Abstracts; hide SnapLin; hide DistinctIds; hide ClientsLin; hide LinInv; hide PcOK; hide Timed;
    var pc := s.clients[c].pc;
    var pos, at := pc.pos, pc.curr[BucketOf(cfg, pc.pos)].at;
    NullReadBefore(cfg, s, c, lin);
    SafeLoad(cfg, s, c);
    hide Safe; hide LinExtends;
    lin' := TakeEffectThen(s.history, lin, pos.id, pos.op, at);
    PendingExtend(s.history, pos.id, pos.op, Tau);
    QuietLin(cfg, s, DoMove(cfg, s, c, Load), c, pos.id, Tau, lin, lin');
  }

  lemma NewElistFocused(cfg: Config, h: Heap, p: nat, b: nat, es: EList)
    requires Tree(cfg, h) && InTree(h, p, b) && h.plists[p][b].base.Null?
    ensures Focused(h, NewElist(h, p, b, es), p, b)
  {
    var h' := NewElist(h, p, b, es);
    forall p': nat, b': nat | p' != p || b' != b ensures SameAt(h, h', p', b') {
      if InTree(h, p', b') { assert BucketOK(h, p', b'); }
    }
  }

  lemma InsertNullKnown(cfg: Config, s: State, c: nat, lin: seq<LinPoint>)
    requires cfg.Valid() && LinInv(cfg, s, lin) && c in s.clients && CanMove(cfg, s, s.clients[c].pc, Load)
    requires SetsPointer(cfg, s, By(c, Load)) && FreshNull(cfg, s, By(c, Load))
    ensures var pos := s.clients[c].pc.pos;
      && InTree(s.heap, pos.p, BucketOf(cfg, pos)) && s.heap.plists[pos.p][BucketOf(cfg, pos)].base.Null?
      && OnPath(cfg, pos.op.key, s.heap.paths[pos.p] + [BucketOf(cfg, pos)])
      && Pending(s.history, pos.id, pos.op) && !Listed(lin, pos.id)
  {
    assert ClientOK(cfg, s.heap, s.clients[c]) && PcLin(cfg, s.heap, s.history, lin, s.clients[c].pc);
    PathExtends(cfg, s.heap, s.clients[c].pc.pos);
  }

  /** An insert that found a null pointer: the pointer is still null, and the write takes effect. */
  lemma LinInsertNull(cfg: Config, s: State, c: nat, lin: seq<LinPoint>) returns (lin': seq<LinPoint>)
    requires cfg.Valid() && LinInv(cfg, s, lin) && SetsPointer(cfg, s, By(c, Load)) && FreshNull(cfg, s, By(c, Load))
    ensures LinInv(cfg, DoMove(cfg, s, c, Load), lin')
  {
    hide LinInv; hide Safe; hide Tree; hide Data; hide Abstracts; hide SnapLin; hide Timed; hide OnPath; hide Replay;
    hide LinExtends;
    Parts(cfg, s, lin);
    var pos, b := s.clients[c].pc.pos, BucketOf(cfg, s.clients[c].pc.pos);
    var es := [Pair(pos.op.key, pos.op.val)];
    SafeLoad(cfg, s, c);
    InsertNullKnown(cfg, s, c, lin);
    lin' := TakeEffectNow(s.history, lin, pos.id, pos.op);
    PendingExtend(s.history, pos.id, pos.op, Tau);
    NewElistStores(cfg, s.heap, pos.p, b, pos.op.key, pos.op.val, Replay(lin));
    NewElistFocused(cfg, s.heap, pos.p, b, es);
    hide Focused; hide NewElist; hide Effect;
    WriteLin(cfg, s, c, Unlocking(pos, s.clients[c].pc.curr, Some(None)), NewElist(s.heap, pos.p, b, es), pos.p, b, lin, lin');
  }

  lemma LinLoadList(cfg: Config, s: State, c: nat, lin: seq<LinPoint>)
    requires cfg.Valid() && LinInv(cfg, s, lin) && c in s.clients && CanMove(cfg, s, s.clients[c].pc, Load)
    requires Current(cfg, s.clients[c].pc.pos, s.clients[c].pc.curr).base.ERef?
    ensures LinInv(cfg, DoMove(cfg, s, c, Load), lin)
  {
    hide Tree; hide Data; hide Abstracts; hide Timed;
    var pc := s.clients[c].pc;
    var e := Current(cfg, pc.pos, pc.curr).base.e;
    assert ClientOK(cfg, s.heap, s.clients[c]) && PcLin(cfg, s.heap, s.history, lin, pc);
    SafeLoad(cfg, s, c);
    StillKnown(cfg, s, c, s.heap, lin);
    LinSetPc(cfg, s, c, Loaded(pc.pos, pc.curr, e, s.heap.elists[e]), lin);
  }

  lemma LinLoad(cfg: Config, s: State, c: nat, lin: seq<LinPoint>) returns (lin': seq<LinPoint>)
    requires cfg.Valid() && LinInv(cfg, s, lin) && FreshNull(cfg, s, By(c, Load))
    requires c in s.clients && CanMove(cfg, s, s.clients[c].pc, Load)
    ensures LinInv(cfg, DoMove(cfg, s, c, Load), lin')
  {
    hide LinInv; hide DoMove;
    if Current(cfg, s.clients[c].pc.pos, s.clients[c].pc.curr).base.ERef? {
      LinLoadList(cfg, s, c, lin);
      lin' := lin;
    } else if s.clients[c].pc.pos.op.Insert? {
      lin' := LinInsertNull(cfg, s, c, lin);
    } else {
      lin' := LinLoadNull(cfg, s, c, lin);
    }
  }

  /** What a client that has loaded an EList knows. */
  ghost predicate LoadedKnown(cfg: Config, s: State, c: nat, lin: seq<LinPoint>) {
    && c in s.clients && s.clients[c].pc.Loaded?
    && var pc := s.clients[c].pc;
    && InTree(s.heap, pc.pos.p, BucketOf(cfg, pc.pos))
    && BucketOf(cfg, pc.pos) < |pc.curr|
    && s.heap.plists[pc.pos.p][BucketOf(cfg, pc.pos)].base == ERef(pc.e)
    && pc.e in s.heap.elists && s.heap.elists[pc.e] == pc.pairs
    && OnPath(cfg, pc.pos.op.key, s.heap.paths[pc.pos.p] + [BucketOf(cfg, pc.pos)])
    && Pending(s.history, pc.pos.id, pc.pos.op) && !Listed(lin, pc.pos.id)
    && s.heap.plists[pc.pos.p][BucketOf(cfg, pc.pos)].lock.ELocked?
  }

  lemma LoadedIsKnown(cfg: Config, s: State, c: nat, lin: seq<LinPoint>)
    requires LinInv(cfg, s, lin) && c in s.clients && s.clients[c].pc.Loaded?
    requires InCurr(cfg, s, s.clients[c].pc.pos, s.clients[c].pc.curr)
    ensures LoadedKnown(cfg, s, c, lin)
    ensures Look(Replay(lin), s.clients[c].pc.pos.op.key) == Find(s.clients[c].pc.pairs, s.clients[c].pc.pos.op.key)
  {
    var pos := s.clients[c].pc.pos;
    assert ClientOK(cfg, s.heap, s.clients[c]) && PcLin(cfg, s.heap, s.history, lin, s.clients[c].pc);
    PathExtends(cfg, s.heap, pos);
    LeafLookup(cfg, s.heap, Replay(lin), pos.p, BucketOf(cfg, pos), pos.op.key);
  }

  lemma SetElistFocused(cfg: Config, h: Heap, p: nat, b: nat, e: nat, es: EList)
    requires Data(cfg, h) && InTree(h, p, b) && h.plists[p][b].base == ERef(e)
    ensures Focused(h, SetElist(h, e, es), p, b)
  {
    assert DataOK(cfg, h, p, b);
    forall p': nat, b': nat | p' != p || b' != b ensures SameAt(h, SetElist(h, e, es), p', b') {
      if InTree(h, p', b') { assert DataOK(cfg, h, p', b'); }
    }
  }

  lemma LinWrite(cfg: Config, s: State, c: nat, lin: seq<LinPoint>) returns (lin': seq<LinPoint>)
    requires cfg.Valid() && LinInv(cfg, s, lin)
    requires c in s.clients && CanMove(cfg, s, s.clients[c].pc, Apply)
    requires !MustRehash(cfg, s.clients[c].pc.pos.op, s.clients[c].pc.pairs)
    ensures LinInv(cfg, DoMove(cfg, s, c, Apply), lin')
  {
    hide LinInv; hide Safe; hide Tree; hide Data; hide Abstracts; hide SnapLin; hide Timed; hide OnPath; hide Replay;
    hide LinExtends;
    Parts(cfg, s, lin);
    var pc := s.clients[c].pc;
    var pos, b := pc.pos, BucketOf(cfg, pc.pos);
    LoadedIsKnown(cfg, s, c, lin);
    SafeApply(cfg, s, c);
    lin' := TakeEffectNow(s.history, lin, pos.id, pos.op);
    PendingExtend(s.history, pos.id, pos.op, Tau);
    var es := Written(pos.op, pc.pairs);
    WrittenStores(cfg, s.heap, Replay(lin), pos.p, b, pc.e, pos.op);
    SetElistFocused(cfg, s.heap, pos.p, b, pc.e, es);
    var h' := if es == pc.pairs then s.heap else SetElist(s.heap, pc.e, es);
    assert Focused(s.heap, s.heap, pos.p, b);
    hide Focused; hide Effect;
    WriteLin(cfg, s, c, Unlocking(pos, pc.curr, Some(Find(pc.pairs, pos.op.key))), h', pos.p, b, lin, lin');
  }

  lemma CalcifyFocused(cfg: Config, h: Heap, p: nat, b: nat, e: nat)
    requires Tree(cfg, h) && InTree(h, p, b) && h.plists[p][b].base == ERef(e) && e in h.elists
    ensures Focused(h, Calcify(cfg, h, p, b, h.elists[e]), p, b)
  {
    var h' := Calcify(cfg, h, p, b, h.elists[e]);
    forall p': nat, b': nat | p' != p || b' != b ensures SameAt(h, h', p', b') {
      if InTree(h, p', b') { assert BucketOK(h, p', b'); }
    }
  }

  lemma CalcifyKeeps(cfg: Config, h: Heap, m: map<Key, Value>, p: nat, b: nat, e: nat)
    requires cfg.Valid() && Tree(cfg, h) && Data(cfg, h) && Abstracts(h, m) && InTree(h, p, b)
    requires h.plists[p][b].base == ERef(e) && e in h.elists
    ensures var h' := Calcify(cfg, h, p, b, h.elists[e]); Data(cfg, h') && Abstracts(h', m) && Focused(h, h', p, b)
  {
    CalcifyStores(cfg, h, p, b, e);
    CalcifyKeepsData(cfg, h, p, b, e);
    CalcifyFocused(cfg, h, p, b, e);
    hide Tree; hide Data; hide Calcify; hide Focused; hide Stores;
  }

  lemma LinRehash(cfg: Config, s: State, c: nat, lin: seq<LinPoint>)
    requires cfg.Valid() && LinInv(cfg, s, lin)
    requires c in s.clients && CanMove(cfg, s, s.clients[c].pc, Apply)
    requires MustRehash(cfg, s.clients[c].pc.pos.op, s.clients[c].pc.pairs)
    ensures LinInv(cfg, DoMove(cfg, s, c, Apply), lin)
  {
    hide LinInv; hide Safe; hide Tree; hide Data; hide Timed; hide OnPath; hide Replay; hide Abstracts; hide LinExtends;
    hide Focused; hide Calcify;
    Parts(cfg, s, lin);
    var pc := s.clients[c].pc;
    var pos, b := pc.pos, BucketOf(cfg, pc.pos);
    LoadedIsKnown(cfg, s, c, lin);
    SafeApply(cfg, s, c);
    PendingExtend(s.history, pos.id, pos.op, Tau);
    TimedExtend(s.history, lin, Tau);
    SameLin(lin, |s.history|, pos.id);
    var h' := Calcify(cfg, s.heap, pos.p, b, pc.pairs);
    CalcifyKeeps(cfg, s.heap, Replay(lin), pos.p, b, pc.e);
    WriteLin(cfg, s, c, DoApply(cfg, s, c, pos, pc.curr, pc.e, pc.pairs).clients[c].pc, h', pos.p, b, lin, lin);
  }

  // ---------- One step ----------

  lemma LinStep(cfg: Config, s: State, a: Action, lin: seq<LinPoint>) returns (lin': seq<LinPoint>)
    requires cfg.Valid() && LinInv(cfg, s, lin) && Enabled(cfg, s, a) && FreshNull(cfg, s, a)
    ensures LinInv(cfg, Step(cfg, s, a), lin')
  {
    hide LinInv; hide FreshNull; hide DoMove;
    lin' := lin;
    match a
    case Land(p, b) => LinLand(cfg, s, p, b, lin);
    case By(c, move) =>
      match move {
        case Invoke(op) => LinInvoke(cfg, s, c, op, lin);
        case Begin => LinBegin(cfg, s, c, lin);
        case ReadBucket => LinReadBucket(cfg, s, c, lin);
        case FinishRead => LinFinishRead(cfg, s, c, lin);
        case Down => LinDown(cfg, s, c, lin);
        case TryLock => LinTryLock(cfg, s, c, lin);
        case Load => lin' := LinLoad(cfg, s, c, lin);
        case Apply =>
          if MustRehash(cfg, s.clients[c].pc.pos.op, s.clients[c].pc.pairs) {
            LinRehash(cfg, s, c, lin);
          } else {
            lin' := LinWrite(cfg, s, c, lin);
          }
        case Unlock => LinUnlock(cfg, s, c, lin);
        case Respond => LinRespond(cfg, s, c, lin);
      }
  }

  lemma InitLin(cfg: Config, s: State)
    requires cfg.Valid() && Init(cfg, s)
    ensures LinInv(cfg, s, [])
  {
    InitSafe(cfg, s);
  }
}
