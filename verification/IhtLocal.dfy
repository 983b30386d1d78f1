/** The shared-memory table `iht_carumap`: bucket locks taken by compare-and-swap, and ELists reclaimed as soon
    as they are rehashed. Every access to an EList, and every access to a lock or a pointer, is a step; a rehash
    moves one pair at a time. `Inv` says what holds between two steps, `StepInv` that every step keeps it, and
    `StepConserves` that a step adds and removes exactly the pairs it should. `LocalRuns` draws the conclusions for
    whole runs.
 */
module IhtLocal {
  import opened Linearizability
  import opened IhtHeap

  /** The lookups of this table hash with the depth plus one, so `Slot(k, d)` is the bucket in which a lookup
      searches at depth `d`. */
  function LocalConfig(eSize: nat, pSize: nat, levelHash: (Key, nat, nat) -> nat): Config {
    Config(eSize, pSize, (k, depth, count) => levelHash(k, depth + 1, count))
  }

  /** Here the modulus is the whole bucket count. */
  ghost predicate ValidLocal(cfg: Config) {
    && cfg.eSize >= 1 && cfg.pSize >= 1
    && forall k, depth: nat {:trigger cfg.Slot(k, depth)} :: cfg.Slot(k, depth) < cfg.Size(depth)
  }

  /** `reclaimed` are the freed ELists, whose contents nobody may read any more. `home` is bookkeeping: the bucket
      that each EList of the table hangs from. */
  datatype Mem = Mem(root: nat, plists: map<nat, PList>, elists: map<nat, EList>, reclaimed: set<nat>,
                     home: map<nat, (nat, nat)>, next: nat)

  datatype Pos = Pos(op: Op, p: nat, depth: nat)

  datatype Pc =
    | Idle
    | Seeking(pos: Pos)
    | Descending(pos: Pos)
    | Locked(pos: Pos)
    | Searching(pos: Pos, e: nat, i: nat)
    | Rehashing(pos: Pos, e: nat, i: nat, parts: seq<EList>)
    | Switching(pos: Pos, e: nat, parts: seq<EList>)
    | Unlocking(pos: Pos, lock: Lock, result: Option<Value>)

  datatype State = State(mem: Mem, threads: map<nat, Pc>)

  datatype Action = Begin(t: nat, op: Op) | Next(t: nat)

  function BucketOf(cfg: Config, pos: Pos): nat { cfg.Slot(pos.op.key, pos.depth) }

  predicate Has(m: Mem, p: nat, b: nat) { p in m.plists && b < |m.plists[p]| }

  function SetBucket(m: Mem, p: nat, b: nat, bk: Bucket): Mem
    requires Has(m, p, b)
  {
    m.(plists := m.plists[p := m.plists[p][b := bk]])
  }

  function SetLock(m: Mem, p: nat, b: nat, l: Lock): Mem
    requires Has(m, p, b)
  {
    SetBucket(m, p, b, m.plists[p][b].(lock := l))
  }

  /** A new EList for a bucket. */
  function Attach(m: Mem, p: nat, b: nat, es: EList): Mem
    requires Has(m, p, b)
  {
    SetBucket(m, p, b, m.plists[p][b].(base := ERef(m.next)))
      .(elists := m.elists[m.next := es], home := m.home[m.next := (p, b)], next := m.next + 1)
  }

  function WithoutAt(es: EList, i: nat): EList
    requires i < |es|
  {
    es[i := es[|es| - 1]][..|es| - 1]
  }

  // ---------- Steps ----------

  /** The next PList and its ELists become visible, and the bucket points to the PList. */
  function Install(m: Mem, p: nat, b: nat, e: nat, parts: seq<EList>): Mem
    requires Has(m, p, b)
  {
    var q := m.next;
    var children := seq(|parts|, i requires 0 <= i < |parts| =>
      Bucket(if parts[i] == [] then Null else ERef(q + 1 + i), EUnlocked));
    var m1 := SetBucket(m, p, b, m.plists[p][b].(base := PRef(q)));
    m1.(plists := m1.plists[q := children],
        elists := m.elists + (map f: nat | 0 <= f < q + 1 + |parts| && Fresh(m, parts, f) :: parts[f - q - 1]),
        home := (m.home - {e}) + (map f: nat | 0 <= f < q + 1 + |parts| && Fresh(m, parts, f) :: (q, f - q - 1)),
        next := q + 1 + |parts|)
  }

  predicate Fresh(m: Mem, parts: seq<EList>, f: nat) {
    m.next + 1 <= f < m.next + 1 + |parts| && parts[f - m.next - 1] != []
  }

  function Look(m: Mem, pos: Pos, b: nat): (Mem, Pc)
    requires Has(m, pos.p, b)
  {
    match m.plists[pos.p][b].base
    case ERef(e) => (m, Searching(pos, e, 0))
    case _ =>
      (if pos.op.Insert? then Attach(m, pos.p, b, [Pair(pos.op.key, pos.op.val)]) else m, Unlocking(pos, EUnlocked, None))
  }

  function Scan(cfg: Config, m: Mem, pos: Pos, e: nat, i: nat): (Mem, Pc)
    requires e in m.elists && i <= |m.elists[e]|
  {
    var es := m.elists[e];
    if i < |es| then
      if es[i].key != pos.op.key then (m, Searching(pos, e, i + 1))
      else (if pos.op.Remove? then m.(elists := m.elists[e := WithoutAt(es, i)]) else m,
            Unlocking(pos, EUnlocked, Some(es[i].val)))
    else if !pos.op.Insert? then (m, Unlocking(pos, EUnlocked, None))
    else if |es| < cfg.eSize then
      (m.(elists := m.elists[e := es + [Pair(pos.op.key, pos.op.val)]]), Unlocking(pos, EUnlocked, None))
    else (m, Rehashing(pos, e, 0, seq(2 * cfg.Size(pos.depth), _ => [])))
  }

  /** One pair of the source goes to a bucket of the new PList, still private; after the last the source is freed. */
  function MovePair(cfg: Config, m: Mem, pos: Pos, e: nat, i: nat, parts: seq<EList>): (Mem, Pc)
    requires e in m.elists && i <= |m.elists[e]|
    requires i < |m.elists[e]| ==> cfg.Slot(m.elists[e][i].key, pos.depth) < |parts|
  {
    var es := m.elists[e];
    if i < |es| then
      var b := cfg.Slot(es[i].key, pos.depth);
      (m, Rehashing(pos, e, i + 1, parts[b := parts[b] + [es[i]]]))
    else (m.(reclaimed := m.reclaimed + {e}), Switching(pos, e, parts))
  }

  predicate CanMovePair(cfg: Config, m: Mem, pc: Pc)
    requires pc.Rehashing?
  {
    && pc.e in m.elists && pc.i <= |m.elists[pc.e]|
    && (pc.i < |m.elists[pc.e]| ==> cfg.Slot(m.elists[pc.e][pc.i].key, pc.pos.depth) < |pc.parts|)
  }

  predicate Enabled(cfg: Config, s: State, a: Action) {
    a.t in s.threads &&
    var pc := s.threads[a.t];
    if a.Begin? then pc.Idle?
    else
      && !pc.Idle?
      && Has(s.mem, pc.pos.p, BucketOf(cfg, pc.pos))
      && (pc.Descending? ==> s.mem.plists[pc.pos.p][BucketOf(cfg, pc.pos)].base.PRef?)
      && (pc.Searching? ==> pc.e in s.mem.elists && pc.i <= |s.mem.elists[pc.e]|)
      && (pc.Rehashing? ==> CanMovePair(cfg, s.mem, pc))
  }

  function DoAcquire(m: Mem, pos: Pos, b: nat): (Mem, Pc)
    requires Has(m, pos.p, b)
  {
    match m.plists[pos.p][b].lock
    case EUnlocked => (SetLock(m, pos.p, b, ELocked), Locked(pos))
    case PUnlocked => (m, Descending(pos))
    case ELocked => (m, Seeking(pos))
  }

  function DoNext(cfg: Config, s: State, t: nat): (Mem, Pc)
    requires Enabled(cfg, s, Next(t))
  {
    var m, pc := s.mem, s.threads[t];
    var b := BucketOf(cfg, pc.pos);
    match pc
    case Seeking(pos) => DoAcquire(m, pos, b)
    case Descending(pos) => (m, Seeking(pos.(p := m.plists[pos.p][b].base.p, depth := pos.depth + 1)))
    case Locked(pos) => Look(m, pos, b)
    case Searching(pos, e, i) => Scan(cfg, m, pos, e, i)
    case Rehashing(pos, e, i, parts) => MovePair(cfg, m, pos, e, i, parts)
    case Switching(pos, e, parts) => (Install(m, pos.p, b, e, parts), Unlocking(pos, PUnlocked, None))
    case Unlocking(pos, lock, result) =>
      (SetLock(m, pos.p, b, lock), if lock.PUnlocked? then Seeking(pos) else Idle)
  }

  function Step(cfg: Config, s: State, a: Action): State
    requires Enabled(cfg, s, a)
  {
    match a
    case Begin(t, op) => s.(threads := s.threads[t := Seeking(Pos(op, s.mem.root, 1))])
    case Next(t) => var r := DoNext(cfg, s, t); State(r.0, s.threads[t := r.1])
  }

  ghost predicate Init(cfg: Config, s: State) {
    && s.mem == Mem(0, map[0 := seq(cfg.pSize, _ => Bucket(Null, EUnlocked))], map[], {}, map[], 1)
    && forall t | t in s.threads :: s.threads[t].Idle?
  }

  ghost predicate IsRun(cfg: Config, r: seq<State>, acts: seq<Action>) {
    && |r| == |acts| + 1
    && Init(cfg, r[0])
    && forall i | 0 <= i < |acts| :: Enabled(cfg, r[i], acts[i]) && r[i + 1] == Step(cfg, r[i], acts[i])
  }

  /** The EList that a thread reads, writes or frees in its next step. */
  function Touched(pc: Pc): Option<nat> {
    match pc
    case Searching(_, e, _) => Some(e)
    case Rehashing(_, e, _, _) => Some(e)
    case _ => None
  }

  // ---------- Invariant ----------

  ghost predicate BucketOK(cfg: Config, m: Mem, p: nat, b: nat)
    requires Has(m, p, b)
  {
    var bk := m.plists[p][b];
    && (bk.base.ERef? ==>
          && bk.base.e in m.elists && bk.base.e in m.home && m.home[bk.base.e] == (p, b)
          && |m.elists[bk.base.e]| <= cfg.eSize && Distinct(m.elists[bk.base.e])
          && (!bk.lock.ELocked? ==> bk.base.e !in m.reclaimed))
    && (bk.base.PRef? ==> p < bk.base.p && bk.base.p in m.plists && |m.plists[bk.base.p]| == 2 * |m.plists[p]|)
    && (bk.lock.PUnlocked? ==> bk.base.PRef?)
    && (bk.lock.EUnlocked? ==> !bk.base.PRef?)
  }

  ghost predicate Sizes(cfg: Config, m: Mem) {
    && m.root in m.plists && |m.plists[m.root]| == cfg.pSize
    && (forall p | p in m.plists :: p < m.next && |m.plists[p]| >= 1)
    && (forall e | e in m.elists :: e < m.next)
    && (forall e | e in m.reclaimed :: e in m.elists)
  }

  ghost predicate Homes(m: Mem) {
    forall e {:trigger m.home[e]} | e in m.home :: e in m.elists
      && Has(m, m.home[e].0, m.home[e].1) && m.plists[m.home[e].0][m.home[e].1].base == ERef(e)
  }

  ghost predicate Buckets(cfg: Config, m: Mem) {
    forall p, b {:trigger BucketOK(cfg, m, p, b)} | Has(m, p, b) :: BucketOK(cfg, m, p, b)
  }

  ghost predicate MemOK(cfg: Config, m: Mem) {
    Sizes(cfg, m) && Homes(m) && Buckets(cfg, m)
  }

  predicate Holds(cfg: Config, pc: Pc, p: nat, b: nat) {
    (pc.Locked? || pc.Searching? || pc.Rehashing? || pc.Switching? || pc.Unlocking?)
    && pc.pos.p == p && BucketOf(cfg, pc.pos) == b
  }

  ghost predicate At(cfg: Config, m: Mem, pos: Pos) {
    pos.depth >= 1 && pos.p in m.plists && |m.plists[pos.p]| == cfg.Size(pos.depth) && BucketOf(cfg, pos) < cfg.Size(pos.depth)
  }

  ghost predicate PartsOK(cfg: Config, es: EList, d: nat, parts: seq<EList>) {
    |parts| == 2 * cfg.Size(d) && forall j | 0 <= j < |parts| :: parts[j] == Part(cfg, es, d, j)
  }

  ghost predicate PcOK(cfg: Config, m: Mem, pc: Pc) {
    !pc.Idle? ==>
      && At(cfg, m, pc.pos)
      && var bk := m.plists[pc.pos.p][BucketOf(cfg, pc.pos)];
      match pc
      case Descending(_) => bk.lock.PUnlocked?
      case Locked(_) => bk.lock.ELocked? && !bk.base.PRef? && (bk.base.ERef? ==> bk.base.e !in m.reclaimed)
      case Searching(pos, e, i) =>
        && bk == Bucket(ERef(e), ELocked) && e !in m.reclaimed && e in m.elists && i <= |m.elists[e]|
        && forall j | 0 <= j < i :: m.elists[e][j].key != pos.op.key
      case Rehashing(pos, e, i, parts) =>
        && bk == Bucket(ERef(e), ELocked) && e !in m.reclaimed && e in m.elists && i <= |m.elists[e]|
        && pos.op.Insert? && PartsOK(cfg, m.elists[e][..i], pos.depth, parts)
      case Switching(pos, e, parts) =>
        && bk == Bucket(ERef(e), ELocked) && e in m.elists && PartsOK(cfg, m.elists[e], pos.depth, parts)
      case Unlocking(_, lock, _) =>
        && bk.lock.ELocked? && !lock.ELocked? && (lock.PUnlocked? <==> bk.base.PRef?)
        && (bk.base.ERef? ==> bk.base.e !in m.reclaimed)
      case _ => true
  }

  ghost predicate Exclusive(cfg: Config, s: State) {
    forall t, t', p, b {:trigger Holds(cfg, s.threads[t], p, b), Holds(cfg, s.threads[t'], p, b)} |
      t in s.threads && t' in s.threads && Holds(cfg, s.threads[t], p, b) && Holds(cfg, s.threads[t'], p, b) :: t == t'
  }

  ghost predicate Inv(cfg: Config, s: State) {
    && ValidLocal(cfg)
    && MemOK(cfg, s.mem)
    && (forall t {:trigger s.threads[t]} | t in s.threads :: PcOK(cfg, s.mem, s.threads[t]))
    && Exclusive(cfg, s)
  }

  // ---------- A step leaves everyone else alone ----------

  /** Only bucket `b` of `p` and its EList change; a calcified bucket never does. */
  ghost predicate OnlyAt(m: Mem, m': Mem, p: nat, b: nat) {
    && m'.root == m.root
    && (forall p' | p' in m.plists :: p' in m'.plists && |m'.plists[p']| == |m.plists[p']|)
    && (forall p', b' {:trigger m'.plists[p'][b']} {:trigger m.plists[p'][b']} | p' in m.plists && 0 <= b' < |m.plists[p']| ::
          p' in m'.plists && b' < |m'.plists[p']|
          && (p' != p || b' != b || m.plists[p'][b'].lock.PUnlocked? ==> m'.plists[p'][b'] == m.plists[p'][b']))
    && (forall e {:trigger m'.elists[e]} {:trigger e in m'.reclaimed} | e in m.home && m.home[e] != (p, b) && e in m.elists ::
          e in m'.elists && m'.elists[e] == m.elists[e] && (e in m'.reclaimed <==> e in m.reclaimed))
  }

  lemma PcStable(cfg: Config, m: Mem, m': Mem, p: nat, b: nat, pc: Pc)
    requires MemOK(cfg, m) && PcOK(cfg, m, pc) && OnlyAt(m, m', p, b) && !Holds(cfg, pc, p, b)
    ensures PcOK(cfg, m', pc)
  {
    if !pc.Idle? {
      assert BucketOK(cfg, m, pc.pos.p, BucketOf(cfg, pc.pos));
    }
  }

  lemma Combine(cfg: Config, s: State, t: nat, m': Mem, pc': Pc, p: nat, b: nat)
    requires Inv(cfg, s) && t in s.threads
    requires MemOK(cfg, m') && OnlyAt(s.mem, m', p, b) && PcOK(cfg, m', pc')
    requires forall t' | t' in s.threads && t' != t :: !Holds(cfg, s.threads[t'], p, b)
    requires forall p', b' | Holds(cfg, pc', p', b') :: p' == p && b' == b
    ensures Inv(cfg, State(m', s.threads[t := pc']))
  {
    hide MemOK; hide PcOK; hide OnlyAt; hide Holds;
    var s' := State(m', s.threads[t := pc']);
    forall t' | t' in s'.threads ensures PcOK(cfg, m', s'.threads[t']) {
      if t' != t {
        assert PcOK(cfg, s.mem, s.threads[t']);
        PcStable(cfg, s.mem, m', p, b, s.threads[t']);
      }
    }
  }

  /** A holder excludes the others; so does an open lock. */
  lemma Alone(cfg: Config, s: State, t: nat, p: nat, b: nat)
    requires Inv(cfg, s) && t in s.threads && Has(s.mem, p, b)
    requires Holds(cfg, s.threads[t], p, b) || !s.mem.plists[p][b].lock.ELocked?
    ensures forall t' | t' in s.threads && t' != t :: !Holds(cfg, s.threads[t'], p, b)
  {
    forall t' | t' in s.threads && t' != t ensures !Holds(cfg, s.threads[t'], p, b) {
      assert PcOK(cfg, s.mem, s.threads[t']);
    }
  }

  // ---------- Each write keeps the memory in order ----------

  lemma SetLockOK(cfg: Config, m: Mem, p: nat, b: nat, l: Lock)
    requires MemOK(cfg, m) && Has(m, p, b) && !m.plists[p][b].lock.PUnlocked?
    requires l.PUnlocked? ==> m.plists[p][b].base.PRef?
    requires l.EUnlocked? ==> !m.plists[p][b].base.PRef?
    requires !l.ELocked? && m.plists[p][b].base.ERef? ==> m.plists[p][b].base.e !in m.reclaimed
    ensures MemOK(cfg, SetLock(m, p, b, l)) && OnlyAt(m, SetLock(m, p, b, l), p, b)
  {
    var m' := SetLock(m, p, b, l);
    forall p', b' | Has(m', p', b') ensures BucketOK(cfg, m', p', b') {
      assert BucketOK(cfg, m, p', b');
    }
  }

  lemma AttachBuckets(cfg: Config, m: Mem, p: nat, b: nat, x: Pair)
    requires ValidLocal(cfg) && MemOK(cfg, m) && Has(m, p, b) && m.plists[p][b] == Bucket(Null, ELocked)
    ensures Buckets(cfg, Attach(m, p, b, [x]))
  {
    hide Homes;
    var m' := Attach(m, p, b, [x]);
    forall p', b' | Has(m', p', b') ensures BucketOK(cfg, m', p', b') {
      assert BucketOK(cfg, m, p', b');
    }
  }

  lemma AttachOK(cfg: Config, m: Mem, p: nat, b: nat, x: Pair)
    requires ValidLocal(cfg) && MemOK(cfg, m) && Has(m, p, b) && m.plists[p][b] == Bucket(Null, ELocked)
    ensures MemOK(cfg, Attach(m, p, b, [x])) && OnlyAt(m, Attach(m, p, b, [x]), p, b)
  {
    hide Buckets;
    AttachBuckets(cfg, m, p, b, x);
  }

  lemma WriteListOK(cfg: Config, m: Mem, p: nat, b: nat, e: nat, es: EList)
    requires MemOK(cfg, m) && Has(m, p, b) && m.plists[p][b] == Bucket(ERef(e), ELocked)
    requires |es| <= cfg.eSize && Distinct(es)
    ensures MemOK(cfg, m.(elists := m.elists[e := es])) && OnlyAt(m, m.(elists := m.elists[e := es]), p, b)
  {
    var m' := m.(elists := m.elists[e := es]);
    assert BucketOK(cfg, m, p, b);
    forall p', b' | Has(m', p', b') ensures BucketOK(cfg, m', p', b') {
      assert BucketOK(cfg, m, p', b');
    }
  }

  lemma ReclaimOK(cfg: Config, m: Mem, p: nat, b: nat, e: nat)
    requires MemOK(cfg, m) && Has(m, p, b) && m.plists[p][b] == Bucket(ERef(e), ELocked)
    ensures MemOK(cfg, m.(reclaimed := m.reclaimed + {e})) && OnlyAt(m, m.(reclaimed := m.reclaimed + {e}), p, b)
  {
    var m' := m.(reclaimed := m.reclaimed + {e});
    assert BucketOK(cfg, m, p, b);
    forall p', b' | Has(m', p', b') ensures BucketOK(cfg, m', p', b') {
      assert BucketOK(cfg, m, p', b');
    }
  }

  ghost predicate Fitting(cfg: Config, m: Mem, p: nat, b: nat, e: nat, parts: seq<EList>) {
    && MemOK(cfg, m) && Has(m, p, b) && m.plists[p][b] == Bucket(ERef(e), ELocked)
    && |parts| == 2 * |m.plists[p]| && forall j | 0 <= j < |parts| :: |parts[j]| <= cfg.eSize && Distinct(parts[j])
  }

  lemma InstallNewBucket(cfg: Config, m: Mem, p: nat, b: nat, e: nat, parts: seq<EList>, i: nat)
    requires Fitting(cfg, m, p, b, e, parts) && i < |parts|
    ensures BucketOK(cfg, Install(m, p, b, e, parts), m.next, i)
  {
    hide Distinct; hide Homes; hide Buckets;
    assert parts[i] != [] ==> Fresh(m, parts, m.next + 1 + i);
  }

  lemma InstallOldBucket(cfg: Config, m: Mem, p: nat, b: nat, e: nat, parts: seq<EList>, p': nat, b': nat)
    requires Fitting(cfg, m, p, b, e, parts) && Has(m, p', b')
    ensures BucketOK(cfg, Install(m, p, b, e, parts), p', b')
  {
    hide Distinct; hide Homes;
    assert BucketOK(cfg, m, p', b') && BucketOK(cfg, m, p, b);
  }

  lemma InstallHomes(cfg: Config, m: Mem, p: nat, b: nat, e: nat, parts: seq<EList>)
    requires Fitting(cfg, m, p, b, e, parts)
    ensures Homes(Install(m, p, b, e, parts))
  {
    hide Distinct; hide Buckets;
    var m' := Install(m, p, b, e, parts);
    forall f | f in m'.home ensures f in m'.elists
      && Has(m', m'.home[f].0, m'.home[f].1) && m'.plists[m'.home[f].0][m'.home[f].1].base == ERef(f)
    {
      if Fresh(m, parts, f) {} else { assert f in m.home; }
    }
  }

  lemma InstallOnlyAt(cfg: Config, m: Mem, p: nat, b: nat, e: nat, parts: seq<EList>)
    requires Fitting(cfg, m, p, b, e, parts)
    ensures Sizes(cfg, Install(m, p, b, e, parts)) && OnlyAt(m, Install(m, p, b, e, parts), p, b)
  {
    assert Sizes(cfg, m) && Homes(m) && BucketOK(cfg, m, p, b);
    hide Distinct; hide Buckets; hide MemOK; hide BucketOK; hide OnlyAt; hide Sizes; hide Install; hide Homes;
    InstallSizes(cfg, m, p, b, e, parts);
    InstallTouches(cfg, m, p, b, e, parts);
  }

  lemma InstallSizes(cfg: Config, m: Mem, p: nat, b: nat, e: nat, parts: seq<EList>)
    requires Sizes(cfg, m) && Has(m, p, b) && |parts| >= 1
    ensures Sizes(cfg, Install(m, p, b, e, parts))
  {}

  lemma InstallTouches(cfg: Config, m: Mem, p: nat, b: nat, e: nat, parts: seq<EList>)
    requires Sizes(cfg, m) && Homes(m) && Has(m, p, b) && m.plists[p][b] == Bucket(ERef(e), ELocked)
    requires |parts| >= 1 && e in m.elists && e in m.home && m.home[e] == (p, b)
    ensures OnlyAt(m, Install(m, p, b, e, parts), p, b)
  {
    assert m.next !in m.plists;
  }

  lemma InstallOK(cfg: Config, m: Mem, p: nat, b: nat, e: nat, parts: seq<EList>)
    requires Fitting(cfg, m, p, b, e, parts)
    ensures MemOK(cfg, Install(m, p, b, e, parts)) && OnlyAt(m, Install(m, p, b, e, parts), p, b)
  {
    InstallHomes(cfg, m, p, b, e, parts);
    InstallOnlyAt(cfg, m, p, b, e, parts);
    hide Homes; hide Sizes; hide OnlyAt; hide BucketOK; hide Distinct;
    var m' := Install(m, p, b, e, parts);
    forall p', b' | Has(m', p', b') ensures BucketOK(cfg, m', p', b') {
      if p' == m.next { InstallNewBucket(cfg, m, p, b, e, parts, b'); } else { InstallOldBucket(cfg, m, p, b, e, parts, p', b'); }
    }
  }

  // ---------- Steps keep the invariant ----------

  lemma AcquireInv(cfg: Config, s: State, t: nat)
    requires Inv(cfg, s) && Enabled(cfg, s, Next(t)) && s.threads[t].Seeking?
    ensures Inv(cfg, Step(cfg, s, Next(t)))
  {
    var m, pos := s.mem, s.threads[t].pos;
    var b := BucketOf(cfg, pos);
    var r := DoAcquire(m, pos, b);
    assert PcOK(cfg, m, s.threads[t]) && BucketOK(cfg, m, pos.p, b);
    if m.plists[pos.p][b].lock.EUnlocked? {
      SetLockOK(cfg, m, pos.p, b, ELocked);
      Alone(cfg, s, t, pos.p, b);
      Combine(cfg, s, t, r.0, r.1, pos.p, b);
    } else {
      Private(cfg, s, t, r.1);
    }
  }

  /** A step that writes nothing and takes no lock. */
  lemma Private(cfg: Config, s: State, t: nat, pc': Pc)
    requires Inv(cfg, s) && t in s.threads && PcOK(cfg, s.mem, pc')
    requires forall p, b | Holds(cfg, pc', p, b) :: Holds(cfg, s.threads[t], p, b)
    ensures Inv(cfg, State(s.mem, s.threads[t := pc']))
  {
    hide MemOK; hide PcOK; hide Holds;
    var s' := State(s.mem, s.threads[t := pc']);
    forall t' | t' in s'.threads ensures PcOK(cfg, s.mem, s'.threads[t']) {
      if t' != t { assert PcOK(cfg, s.mem, s.threads[t']); }
    }
  }

  lemma DescendInv(cfg: Config, s: State, t: nat)
    requires Inv(cfg, s) && Enabled(cfg, s, Next(t)) && s.threads[t].Descending?
    ensures Inv(cfg, Step(cfg, s, Next(t)))
  {
    var m, pos := s.mem, s.threads[t].pos;
    assert PcOK(cfg, m, s.threads[t]) && BucketOK(cfg, m, pos.p, BucketOf(cfg, pos));
    Private(cfg, s, t, Seeking(pos.(p := m.plists[pos.p][BucketOf(cfg, pos)].base.p, depth := pos.depth + 1)));
  }

  lemma LookInv(cfg: Config, s: State, t: nat)
    requires Inv(cfg, s) && Enabled(cfg, s, Next(t)) && s.threads[t].Locked?
    ensures Inv(cfg, Step(cfg, s, Next(t)))
  {
    var m, pos := s.mem, s.threads[t].pos;
    var b := BucketOf(cfg, pos);
    assert PcOK(cfg, m, s.threads[t]) && BucketOK(cfg, m, pos.p, b);
    var r := Look(m, pos, b);
    if m.plists[pos.p][b].base.Null? && pos.op.Insert? {
      AttachOK(cfg, m, pos.p, b, Pair(pos.op.key, pos.op.val));
      Alone(cfg, s, t, pos.p, b);
      AttachPcOK(cfg, m, pos, b);
      Combine(cfg, s, t, r.0, r.1, pos.p, b);
    } else {
      Private(cfg, s, t, r.1);
    }
  }

  lemma AttachPcOK(cfg: Config, m: Mem, pos: Pos, b: nat)
    requires MemOK(cfg, m) && At(cfg, m, pos) && b == BucketOf(cfg, pos) && m.plists[pos.p][b] == Bucket(Null, ELocked)
    requires pos.op.Insert?
    ensures PcOK(cfg, Attach(m, pos.p, b, [Pair(pos.op.key, pos.op.val)]), Unlocking(pos, EUnlocked, None))
  {}

  lemma ScanInv(cfg: Config, s: State, t: nat)
    requires Inv(cfg, s) && Enabled(cfg, s, Next(t)) && s.threads[t].Searching?
    ensures Inv(cfg, Step(cfg, s, Next(t)))
  {
    var m, pos, e, i := s.mem, s.threads[t].pos, s.threads[t].e, s.threads[t].i;
    var b := BucketOf(cfg, pos);
    assert PcOK(cfg, m, s.threads[t]) && BucketOK(cfg, m, pos.p, b);
    var r := Scan(cfg, m, pos, e, i);
    Alone(cfg, s, t, pos.p, b);
    if r.0 != m {
      assert |r.0.elists[e]| <= cfg.eSize && Distinct(r.0.elists[e]);
      WriteListOK(cfg, m, pos.p, b, e, r.0.elists[e]);
      assert r.0 == m.(elists := m.elists[e := r.0.elists[e]]);
      Combine(cfg, s, t, r.0, r.1, pos.p, b);
    } else {
      EmptyParts(cfg, pos.depth);
      assert m.elists[e][..0] == [];
      Private(cfg, s, t, r.1);
    }
  }

  lemma EmptyParts(cfg: Config, d: nat)
    ensures PartsOK(cfg, [], d, seq(2 * cfg.Size(d), _ => []))
  {}

  lemma MovePairInv(cfg: Config, s: State, t: nat)
    requires Inv(cfg, s) && Enabled(cfg, s, Next(t)) && s.threads[t].Rehashing?
    ensures Inv(cfg, Step(cfg, s, Next(t)))
  {
    var m, pc := s.mem, s.threads[t];
    var pos, e, i := pc.pos, pc.e, pc.i;
    var b, es := BucketOf(cfg, pos), m.elists[pc.e];
    assert PcOK(cfg, m, pc) && BucketOK(cfg, m, pos.p, b);
    var r := MovePair(cfg, m, pos, e, i, pc.parts);
    if i < |es| {
      PartsNext(cfg, es, pos.depth, i, pc.parts);
      Private(cfg, s, t, r.1);
    } else {
      assert es[..i] == es;
      ReclaimOK(cfg, m, pos.p, b, e);
      Alone(cfg, s, t, pos.p, b);
      Combine(cfg, s, t, r.0, r.1, pos.p, b);
    }
  }

  lemma PartsNext(cfg: Config, es: EList, d: nat, i: nat, parts: seq<EList>)
    requires i < |es| && PartsOK(cfg, es[..i], d, parts) && cfg.Slot(es[i].key, d) < |parts|
    ensures var b := cfg.Slot(es[i].key, d); PartsOK(cfg, es[..i + 1], d, parts[b := parts[b] + [es[i]]])
  {
    assert es[..i + 1][..i] == es[..i];
  }

  lemma SwitchInv(cfg: Config, s: State, t: nat)
    requires Inv(cfg, s) && Enabled(cfg, s, Next(t)) && s.threads[t].Switching?
    ensures Inv(cfg, Step(cfg, s, Next(t)))
  {
    var m, pc := s.mem, s.threads[t];
    var b := BucketOf(cfg, pc.pos);
    assert PcOK(cfg, m, pc) && BucketOK(cfg, m, pc.pos.p, b);
    forall j | 0 <= j < |pc.parts| ensures |pc.parts[j]| <= cfg.eSize && Distinct(pc.parts[j]) {
      PartMembers(cfg, m.elists[pc.e], pc.pos.depth, j);
    }
    InstallOK(cfg, m, pc.pos.p, b, pc.e, pc.parts);
    Alone(cfg, s, t, pc.pos.p, b);
    var m' := Install(m, pc.pos.p, b, pc.e, pc.parts);
    InstallPcOK(cfg, m, pc.pos, b, pc.e, pc.parts);
    Combine(cfg, s, t, m', Unlocking(pc.pos, PUnlocked, None), pc.pos.p, b);
  }

  lemma InstallPcOK(cfg: Config, m: Mem, pos: Pos, b: nat, e: nat, parts: seq<EList>)
    requires MemOK(cfg, m) && At(cfg, m, pos) && b == BucketOf(cfg, pos) && m.plists[pos.p][b] == Bucket(ERef(e), ELocked)
    ensures PcOK(cfg, Install(m, pos.p, b, e, parts), Unlocking(pos, PUnlocked, None))
  {}

  lemma UnlockInv(cfg: Config, s: State, t: nat)
    requires Inv(cfg, s) && Enabled(cfg, s, Next(t)) && s.threads[t].Unlocking?
    ensures Inv(cfg, Step(cfg, s, Next(t)))
  {
    var m, pc := s.mem, s.threads[t];
    var b := BucketOf(cfg, pc.pos);
    assert PcOK(cfg, m, pc) && BucketOK(cfg, m, pc.pos.p, b);
    SetLockOK(cfg, m, pc.pos.p, b, pc.lock);
    Alone(cfg, s, t, pc.pos.p, b);
    Combine(cfg, s, t, SetLock(m, pc.pos.p, b, pc.lock), if pc.lock.PUnlocked? then Seeking(pc.pos) else Idle, pc.pos.p, b);
  }

  lemma StepInv(cfg: Config, s: State, a: Action)
    requires Inv(cfg, s) && Enabled(cfg, s, a)
    ensures Inv(cfg, Step(cfg, s, a))
  {
    match a
    case Begin(t, op) =>
      assert At(cfg, s.mem, Pos(op, s.mem.root, 1));
      Private(cfg, s, t, Seeking(Pos(op, s.mem.root, 1)));
    case Next(t) =>
      hide Inv; hide DoNext;
      match s.threads[t] {
        case Seeking(_) => AcquireInv(cfg, s, t);
        case Descending(_) => DescendInv(cfg, s, t);
        case Locked(_) => LookInv(cfg, s, t);
        case Searching(_, _, _) => ScanInv(cfg, s, t);
        case Rehashing(_, _, _, _) => MovePairInv(cfg, s, t);
        case Switching(_, _, _) => SwitchInv(cfg, s, t);
        case Unlocking(_, _, _) => UnlockInv(cfg, s, t);
      }
  }

  // ---------- Pairs are neither lost nor duplicated ----------

  predicate InTable(m: Mem, e: nat) { e in m.home && e in m.elists }

  /** All pairs of the table, counted. */
  ghost function Total(m: Mem, n: nat): multiset<Pair> {
    if n == 0 then multiset{}
    else Total(m, n - 1) + if InTable(m, n - 1) then multiset(m.elists[n - 1]) else multiset{}
  }

  ghost function Contents(m: Mem): multiset<Pair> { Total(m, m.next) }

  lemma {:induction false} TotalSame(m: Mem, m': Mem, n: nat)
    requires forall f | 0 <= f < n :: SameList(m, m', f)
    ensures Total(m', n) == Total(m, n)
  {
    if n > 0 {
      TotalSame(m, m', n - 1);
      assert SameList(m, m', n - 1);
    }
  }

  lemma Exchange(a: multiset<Pair>, b: multiset<Pair>, was: multiset<Pair>, now: multiset<Pair>, less: multiset<Pair>, more: multiset<Pair>)
    requires a + was == b + now && now + less == was + more
    ensures a + less == b + more
  {
    forall x ensures (a + less)[x] == (b + more)[x] {
      assert (a + was)[x] == (b + now)[x] && (now + less)[x] == (was + more)[x];
    }
  }

  lemma Settle(now: multiset<Pair>, was: multiset<Pair>, removed: multiset<Pair>, added: multiset<Pair>, less: multiset<Pair>, more: multiset<Pair>)
    requires was + removed == added && now + less == was + more
    ensures now + (removed + less) == added + more
  {
    assert now + (removed + less) == (now + less) + removed;
  }

  /** One list changes. */
  lemma {:induction false} TotalChange(m: Mem, m': Mem, e: nat, n: nat)
    requires e < n && InTable(m, e)
    requires forall f | 0 <= f < n && f != e :: SameList(m, m', f)
    ensures Total(m', n) + multiset(m.elists[e]) ==
      Total(m, n) + if InTable(m', e) then multiset(m'.elists[e]) else multiset{}
  {
    if e == n - 1 {
      TotalSame(m, m', n - 1);
    } else {
      TotalChange(m, m', e, n - 1);
      assert SameList(m, m', n - 1);
      var last := if InTable(m, n - 1) then multiset(m.elists[n - 1]) else multiset{};
      OneMoreList(Total(m', n - 1), Total(m, n - 1), multiset(m.elists[e]),
                  if InTable(m', e) then multiset(m'.elists[e]) else multiset{}, last);
    }
  }

  lemma OneMoreList(a': multiset<Pair>, a: multiset<Pair>, was: multiset<Pair>, now: multiset<Pair>, last: multiset<Pair>)
    requires a' + was == a + now
    ensures (a' + last) + was == (a + last) + now
  {
    assert (a' + last) + was == (a' + was) + last;
  }

  /** The lists of a new PList sit side by side. */
  lemma {:induction false} TotalParts(cfg: Config, m: Mem, es: EList, d: nat, q: nat, n: nat)
    requires forall i | 0 <= i < n :: PartAt(cfg, m, es, d, q, i)
    ensures Total(m, q + n) == Total(m, q) + AllParts(cfg, es, d, n)
  {
    hide Part; hide PartAt; hide Total; hide AllParts; hide InTable;
    if n == 0 {
      NoParts(cfg, es, d, Total(m, q));
    } else {
      TotalParts(cfg, m, es, d, q, n - 1);
      PartCounts(cfg, m, es, d, q, n - 1);
      AllPartsLast(cfg, es, d, n - 1);
      AddLast(Total(m, q), AllParts(cfg, es, d, n - 1), multiset(Part(cfg, es, d, n - 1)));
    }
  }

  lemma NoParts(cfg: Config, es: EList, d: nat, a: multiset<Pair>)
    ensures a + AllParts(cfg, es, d, 0) == a
  {}

  lemma AllPartsLast(cfg: Config, es: EList, d: nat, i: nat)
    ensures AllParts(cfg, es, d, i + 1) == AllParts(cfg, es, d, i) + multiset(Part(cfg, es, d, i))
  {}

  lemma AddLast(a: multiset<Pair>, b: multiset<Pair>, c: multiset<Pair>)
    ensures a + (b + c) == (a + b) + c
  {}

  lemma PartCounts(cfg: Config, m: Mem, es: EList, d: nat, q: nat, i: nat)
    requires PartAt(cfg, m, es, d, q, i)
    ensures Total(m, q + i + 1) == Total(m, q + i) + multiset(Part(cfg, es, d, i))
  {}

  /** The pair a thread adds in its next step, and the pair it takes out. */
  ghost function Added(cfg: Config, s: State, a: Action): multiset<Pair>
    requires Enabled(cfg, s, a)
  {
    if a.Begin? then multiset{} else
    var pc := s.threads[a.t];
    var adds := pc.pos.op.Insert? &&
      if pc.Locked? then !s.mem.plists[pc.pos.p][BucketOf(cfg, pc.pos)].base.ERef?
      else pc.Searching? && pc.i == |s.mem.elists[pc.e]| < cfg.eSize;
    if adds then multiset{Pair(pc.pos.op.key, pc.pos.op.val)} else multiset{}
  }

  ghost function Removed(cfg: Config, s: State, a: Action): multiset<Pair>
    requires Enabled(cfg, s, a)
  {
    if a.Begin? then multiset{} else
    var pc := s.threads[a.t];
    if pc.Searching? && pc.pos.op.Remove? && pc.i < |s.mem.elists[pc.e]| && s.mem.elists[pc.e][pc.i].key == pc.pos.op.key
    then multiset{s.mem.elists[pc.e][pc.i]} else multiset{}
  }

  lemma InstallConserves(cfg: Config, m: Mem, pos: Pos, b: nat, e: nat, parts: seq<EList>)
    requires ValidLocal(cfg) && MemOK(cfg, m) && At(cfg, m, pos) && Has(m, pos.p, b)
    requires b == BucketOf(cfg, pos) && m.plists[pos.p][b] == Bucket(ERef(e), ELocked) && e in m.elists
    requires PartsOK(cfg, m.elists[e], pos.depth, parts)
    requires forall x: Pair | x in m.elists[e] :: cfg.Slot(x.key, pos.depth) < |parts|
    ensures Contents(Install(m, pos.p, b, e, parts)) == Contents(m)
  {
    hide Part; hide AllParts;
    var m' := Install(m, pos.p, b, e, parts);
    var es, d, q := m.elists[e], pos.depth, m.next + 1;
    assert BucketOK(cfg, m, pos.p, b);
    InstallLists(cfg, m, pos, b, e, parts);
    InstalledTotal(cfg, m, m', e, d, q, |parts|);
  }

  lemma InstalledTotal(cfg: Config, m: Mem, m': Mem, e: nat, d: nat, q: nat, n: nat)
    requires q == m.next + 1 && InTable(m, e) && !InTable(m', e) && e < m.next && !InTable(m', m.next) && m'.next == m.next + 1 + n
    requires forall f | 0 <= f < m.next && f != e :: SameList(m, m', f)
    requires forall i | 0 <= i < n :: PartAt(cfg, m', m.elists[e], d, q, i)
    requires forall x: Pair | x in m.elists[e] :: cfg.Slot(x.key, d) < n
    ensures Contents(m') == Contents(m)
  {
    hide SameList; hide PartAt; hide AllParts;
    var es := multiset(m.elists[e]);
    TotalChange(m, m', e, m.next);
    TotalParts(cfg, m', m.elists[e], d, q, n);
    PartsConserve(cfg, m.elists[e], d, n);
    assert Total(m', q) == Total(m', m.next);
    assert Contents(m') == Total(m', q + n) == Total(m', m.next) + es;
  }

  ghost predicate PartAt(cfg: Config, m: Mem, es: EList, d: nat, q: nat, i: nat) {
    && (InTable(m, q + i) <==> Part(cfg, es, d, i) != [])
    && (InTable(m, q + i) ==> m.elists[q + i] == Part(cfg, es, d, i))
  }

  ghost predicate SameList(m: Mem, m': Mem, f: nat) {
    (InTable(m, f) <==> InTable(m', f)) && (InTable(m, f) ==> m'.elists[f] == m.elists[f])
  }

  /** The ELists of the table after `Install`: all old ones but `e`, and the parts that are not empty. */
  lemma ListFacts(cfg: Config, m: Mem, p: nat, b: nat, e: nat)
    requires MemOK(cfg, m) && Has(m, p, b) && m.plists[p][b].base == ERef(e)
    ensures Sizes(cfg, m) && e in m.home && e in m.elists && forall f | f in m.home :: f in m.elists
  {
    assert BucketOK(cfg, m, p, b);
  }

  lemma InstallLists(cfg: Config, m: Mem, pos: Pos, b: nat, e: nat, parts: seq<EList>)
    requires MemOK(cfg, m) && At(cfg, m, pos) && Has(m, pos.p, b)
    requires m.plists[pos.p][b] == Bucket(ERef(e), ELocked) && e in m.elists && PartsOK(cfg, m.elists[e], pos.depth, parts)
    ensures var m' := Install(m, pos.p, b, e, parts);
      && !InTable(m', e) && !InTable(m', m.next) && InTable(m, e) && e < m.next && m'.next == m.next + 1 + |parts|
      && (forall f | 0 <= f < m.next && f != e :: SameList(m, m', f))
      && (var q := m.next + 1; forall i | 0 <= i < |parts| :: PartAt(cfg, m', m.elists[e], pos.depth, q, i))
  {
    ListFacts(cfg, m, pos.p, b, e);
    hide MemOK; hide At; hide PartsOK; hide PartAt; hide SameList; hide InTable; hide Install;
    var m', q, d := Install(m, pos.p, b, e, parts), m.next + 1, pos.depth;
    InstallOlds(m, pos.p, b, e, parts);
    forall i | 0 <= i < |parts| ensures PartAt(cfg, m', m.elists[e], d, q, i) {
      InstallPart(cfg, m, pos, b, e, parts, q, i);
    }
  }

  lemma InstallOlds(m: Mem, p: nat, b: nat, e: nat, parts: seq<EList>)
    requires Has(m, p, b) && e in m.home && e in m.elists && forall f | f in m.elists :: f < m.next
    requires forall f | f in m.home :: f in m.elists
    ensures var m' := Install(m, p, b, e, parts);
      && !InTable(m', e) && !InTable(m', m.next) && InTable(m, e) && m'.next == m.next + 1 + |parts|
      && (forall f | 0 <= f < m.next && f != e :: SameList(m, m', f))
  {}

  lemma InstallPart(cfg: Config, m: Mem, pos: Pos, b: nat, e: nat, parts: seq<EList>, q: nat, i: nat)
    requires Sizes(cfg, m) && (forall f | f in m.home :: f in m.elists) && Has(m, pos.p, b) && e in m.elists
    requires PartsOK(cfg, m.elists[e], pos.depth, parts) && q == m.next + 1 && i < |parts|
    ensures PartAt(cfg, Install(m, pos.p, b, e, parts), m.elists[e], pos.depth, q, i)
  {
    hide Part;
    assert Fresh(m, parts, q + i) <==> parts[i] != [];
    assert q + i !in m.elists;
  }

  lemma WithoutAtCounts(es: EList, i: nat)
    requires i < |es|
    ensures multiset(WithoutAt(es, i)) + multiset{es[i]} == multiset(es)
  {
    var n := |es| - 1;
    assert es == es[..n] + [es[n]];
    if i < n {
      assert WithoutAt(es, i) == es[..i] + [es[n]] + es[i + 1..n];
      assert es == es[..i] + [es[i]] + es[i + 1..n] + [es[n]];
    } else {
      assert WithoutAt(es, i) == es[..n];
    }
  }

  lemma AttachCounts(m: Mem, p: nat, b: nat, x: Pair)
    requires Has(m, p, b)
    ensures Contents(Attach(m, p, b, [x])) == Contents(m) + multiset{x}
  {
    TotalSame(m, Attach(m, p, b, [x]), m.next);
  }

  lemma WriteCounts(m: Mem, e: nat, es: EList)
    requires e < m.next && InTable(m, e)
    ensures Contents(m.(elists := m.elists[e := es])) + multiset(m.elists[e]) == Contents(m) + multiset(es)
  {
    TotalChange(m, m.(elists := m.elists[e := es]), e, m.next);
  }

  lemma ScanConserves(cfg: Config, s: State, t: nat)
    requires Inv(cfg, s) && Enabled(cfg, s, Next(t)) && s.threads[t].Searching?
    ensures Contents(Step(cfg, s, Next(t)).mem) + Removed(cfg, s, Next(t)) == Contents(s.mem) + Added(cfg, s, Next(t))
  {
    var m, pc := s.mem, s.threads[t];
    var e, es, i := pc.e, m.elists[pc.e], pc.i;
    assert PcOK(cfg, m, pc) && BucketOK(cfg, m, pc.pos.p, BucketOf(cfg, pc.pos));
    hide Inv; hide PcOK; hide BucketOK; hide Contents;
    if i < |es| && es[i].key == pc.pos.op.key && pc.pos.op.Remove? {
      WriteCounts(m, e, WithoutAt(es, i));
      WithoutAtCounts(es, i);
      var m' := m.(elists := m.elists[e := WithoutAt(es, i)]);
      Exchange(Contents(m'), Contents(m), multiset(es), multiset(WithoutAt(es, i)), multiset{es[i]}, multiset{});
    } else if i == |es| < cfg.eSize && pc.pos.op.Insert? {
      var x := Pair(pc.pos.op.key, pc.pos.op.val);
      WriteCounts(m, e, es + [x]);
      var m' := m.(elists := m.elists[e := es + [x]]);
      Exchange(Contents(m'), Contents(m), multiset(es), multiset(es + [x]), multiset{}, multiset{x});
    }
  }

  /** Each step keeps every pair of the table, except that an insert adds its pair and a remove takes one out:
      no rehash loses or duplicates a pair. */
  lemma StepConserves(cfg: Config, s: State, a: Action)
    requires Inv(cfg, s) && Enabled(cfg, s, a)
    ensures Contents(Step(cfg, s, a).mem) + Removed(cfg, s, a) == Contents(s.mem) + Added(cfg, s, a)
  {
    if a.Next? {
      var m, pc := s.mem, s.threads[a.t];
      assert PcOK(cfg, m, pc);
      var m' := Step(cfg, s, a).mem;
      var b := BucketOf(cfg, pc.pos);
      assert BucketOK(cfg, m, pc.pos.p, b);
      if pc.Switching? {
        forall x: Pair | x in m.elists[pc.e] ensures cfg.Slot(x.key, pc.pos.depth) < |pc.parts| {}
        InstallConserves(cfg, m, pc.pos, b, pc.e, pc.parts);
      } else if pc.Searching? {
        ScanConserves(cfg, s, a.t);
      } else if pc.Locked? && pc.pos.op.Insert? && !m.plists[pc.pos.p][b].base.ERef? {
        AttachCounts(m, pc.pos.p, b, Pair(pc.pos.op.key, pc.pos.op.val));
      } else {
        TotalSame(m, m', m.next);
      }
    }
  }
}
