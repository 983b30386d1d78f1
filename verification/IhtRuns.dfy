/** What holds in every run of the concurrent table, however many clients insert at once: bucket locks exclude
    each other, a calcified bucket never changes again, and a cached PList stays equal to the remote one. */
module IhtRuns {
  import opened Linearizability
  import opened IhtHeap
  import opened IhtUpdates
  import opened IhtCache
  import opened IhtConcurrent
  import opened IhtSafety

  lemma {:induction false} RunSafe(cfg: Config, t: seq<State>, acts: seq<Action>, i: nat)
    requires cfg.Valid() && IsRun(cfg, t, acts) && i < |t|
    ensures Safe(cfg, t[i])
  {
    if i == 0 {
      InitSafe(cfg, t[0]);
    } else {
      RunSafe(cfg, t, acts, i - 1);
      SafeStep(cfg, t[i - 1], acts[i - 1]);
    }
  }

  lemma {:induction false} RunGrows(cfg: Config, t: seq<State>, acts: seq<Action>, i: nat, j: nat)
    requires cfg.Valid() && IsRun(cfg, t, acts) && i <= j < |t|
    ensures Grows(t[i].heap, t[j].heap)
  {
    if i == j {
      GrowsReflexive(t[i].heap);
    } else {
      RunGrows(cfg, t, acts, i, j - 1);
      RunSafe(cfg, t, acts, j - 1);
      SafeStep(cfg, t[j - 1], acts[j - 1]);
      GrowsTransitive(t[i].heap, t[j - 1].heap, t[j].heap);
    }
  }

  // ---------- Main results ----------

  /** Bucket locks exclude each other: while a client works on a bucket its lock word says so, no other client
      works on that bucket, and no unlocking write for it is on its way. */
  lemma MutualExclusion(cfg: Config, t: seq<State>, acts: seq<Action>, i: nat, c: nat, p: nat, b: nat)
    requires cfg.Valid() && IsRun(cfg, t, acts) && i < |t| && c in t[i].clients
    requires HasLock(cfg, t[i].clients[c].pc, p, b)
    ensures forall c' | c' in t[i].clients && HasLock(cfg, t[i].clients[c'].pc, p, b) :: c' == c
    ensures InTree(t[i].heap, p, b) && t[i].heap.plists[p][b].lock.ELocked? && (p, b) !in t[i].unlocks
  {
    RunSafe(cfg, t, acts, i);
    assert ClientOK(cfg, t[i].heap, t[i].clients[c]);
  }

  /** P_UNLOCKED is absorbing, and the pointer of such a bucket is to a PList and never changes again. */
  lemma CalcifiedForever(cfg: Config, t: seq<State>, acts: seq<Action>, i: nat, j: nat, p: nat, b: nat)
    requires cfg.Valid() && IsRun(cfg, t, acts) && i <= j < |t|
    requires InTree(t[i].heap, p, b) && t[i].heap.plists[p][b].lock.PUnlocked?
    ensures InTree(t[j].heap, p, b) && t[j].heap.plists[p][b] == t[i].heap.plists[p][b]
    ensures t[i].heap.plists[p][b].base.PRef? && t[i].heap.plists[p][b].base.p in t[i].heap.plists
  {
    RunGrows(cfg, t, acts, i, j);
    assert BucketGrows(t[i].heap.plists[p][b], t[j].heap.plists[p][b]);
    RunSafe(cfg, t, acts, i);
    assert BucketOK(t[i].heap, p, b);
  }

  /** A cached PList equals the remote one, now and at every later step of the run, and is kept under the slot of
      the path that leads to it. */
  lemma CacheAgreesForever(cfg: Config, t: seq<State>, acts: seq<Action>, i: nat, j: nat, c: nat, slot: (nat, nat))
    requires cfg.Valid() && IsRun(cfg, t, acts) && i <= j < |t|
    requires c in t[i].clients && slot in t[i].clients[c].cache
    ensures var x := t[i].clients[c].cache[slot];
      && x.src in t[j].heap.plists && x.src in t[j].heap.paths && t[j].heap.plists[x.src] == x.buckets
      && CacheSlot(cfg.pSize, t[i].clients[c].cacheDepth, t[j].heap.paths[x.src]) == Some(slot)
  {
    RunSafe(cfg, t, acts, i);
    RunSafe(cfg, t, acts, j);
    RunGrows(cfg, t, acts, i, j);
    assert ClientOK(cfg, t[i].heap, t[i].clients[c]);
    CacheStable(cfg, t[i].heap, t[j].heap, t[i].clients[c], slot);
  }

  /** Caching may skip the last bucket: it stays null and unlocked for ever, so asking for it to be calcified
      too would keep every PList out of the cache. */
  lemma LastBucketNeverUsed(cfg: Config, t: seq<State>, acts: seq<Action>, i: nat, p: nat)
    requires cfg.Valid() && IsRun(cfg, t, acts) && i < |t| && p in t[i].heap.plists
    ensures |t[i].heap.plists[p]| > 0
    ensures t[i].heap.plists[p][|t[i].heap.plists[p]| - 1] == Bucket(Null, EUnlocked)
  {
    RunSafe(cfg, t, acts, i);
  }

  /** No pointer is ever taken for the wrong kind of list: a client in the middle of an operation always has
      a next step, and that step finds the list it expects. */
  lemma NoClientStuck(cfg: Config, t: seq<State>, acts: seq<Action>, i: nat, c: nat)
    requires cfg.Valid() && IsRun(cfg, t, acts) && i < |t| && c in t[i].clients && !t[i].clients[c].pc.Idle?
    ensures exists move: Move :: !move.Invoke? && Enabled(cfg, t[i], By(c, move))
  {
    RunSafe(cfg, t, acts, i);
    var s := t[i];
    var pc := s.clients[c].pc;
    assert ClientOK(cfg, s.heap, s.clients[c]);
    var move: Move :| move ==
      match pc
      case Start(_, _) => Begin
      case Reading(pos, got, _) => if |got| < cfg.Size(pos.depth) then ReadBucket else FinishRead
      case Descending(pos, curr) =>
        if BucketOf(cfg, pos) < |curr| && Current(cfg, pos, curr).lock.PUnlocked? then Down else TryLock
      case Holding(_, _) => Load
      case Loaded(_, _, _, _) => Apply
      case Unlocking(_, _, _) => Unlock
      case _ => Respond;
    if pc.Descending? || pc.Holding? || pc.Loaded? {
      SlotInRange(cfg, pc.pos.op.key, pc.pos.depth);
      assert SnapOK(s.heap, pc.pos.p, BucketOf(cfg, pc.pos), pc.curr[BucketOf(cfg, pc.pos)].bk);
    }
    assert Enabled(cfg, s, By(c, move));
  }

  // ---------- When lists are rehashed and kept ----------

  /** No other step makes a bucket lead to a PList. */
  lemma OnlyApplyRehashes(cfg: Config, s: State, a: Action, p: nat, b: nat)
    requires Enabled(cfg, s, a) && InTree(s.heap, p, b) && !s.heap.plists[p][b].base.PRef? && !(a.By? && a.move.Apply?)
    ensures InTree(Step(cfg, s, a).heap, p, b) ==> !Step(cfg, s, a).heap.plists[p][b].base.PRef?
  {
    hide TryCache; hide Fetch; hide SlotFor;
    match a
    case Land(_, _) =>
    case By(c, move) =>
      hide DoLand;
      match move {
        case Load => hide DoTryLock;
        case TryLock => hide DoLoad;
        case _ => hide DoLoad; hide DoTryLock;
      }
  }

  /** A step that makes a bucket lead to a PList. */
  lemma RehashStep(cfg: Config, s: State, c: nat, p: nat, b: nat)
    requires Enabled(cfg, s, By(c, Apply)) && InTree(s.heap, p, b) && InTree(Step(cfg, s, By(c, Apply)).heap, p, b)
    requires !s.heap.plists[p][b].base.PRef? && Step(cfg, s, By(c, Apply)).heap.plists[p][b].base.PRef?
    requires p < s.heap.next
    ensures HasLock(cfg, s.clients[c].pc, p, b)
    ensures var pc := s.clients[c].pc;
      pc.pos.op.Insert? && |pc.pairs| >= cfg.eSize && forall j | 0 <= j < |pc.pairs| :: pc.pairs[j].key != pc.pos.op.key
  {
    FindIffMember(s.clients[c].pc.pairs, s.clients[c].pc.pos.op.key);
    hide Written; hide Find; hide ChildPList; hide Distinct;
  }

  /** Only a full EList is ever rehashed, and only to insert a key that is not in it. */
  lemma OnlyFullListsRehashed(cfg: Config, t: seq<State>, acts: seq<Action>, i: nat, p: nat, b: nat)
    requires cfg.Valid() && IsRun(cfg, t, acts) && i < |acts| && InTree(t[i].heap, p, b)
    requires !t[i].heap.plists[p][b].base.PRef?
    ensures InTree(t[i + 1].heap, p, b)
    ensures t[i + 1].heap.plists[p][b].base.PRef? ==>
      && acts[i].By? && acts[i].move.Apply? && acts[i].c in t[i].clients && HasLock(cfg, t[i].clients[acts[i].c].pc, p, b)
      && var pc := t[i].clients[acts[i].c].pc;
      && pc.Loaded? && pc.pos.op.Insert? && |pc.pairs| >= cfg.eSize
      && forall j | 0 <= j < |pc.pairs| :: pc.pairs[j].key != pc.pos.op.key
  {
    RunSafe(cfg, t, acts, i);
    RunGrows(cfg, t, acts, i, i + 1);
    assert Enabled(cfg, t[i], acts[i]) && t[i + 1] == Step(cfg, t[i], acts[i]);
    hide IsRun; hide Step;
    if acts[i].By? && acts[i].move.Apply? {
      if t[i + 1].heap.plists[p][b].base.PRef? { RehashStep(cfg, t[i], acts[i].c, p, b); }
    } else {
      OnlyApplyRehashes(cfg, t[i], acts[i], p, b);
    }
  }

  /** And each full one is, when a key that is not in it is inserted. */
  lemma FullListsAreRehashed(cfg: Config, t: seq<State>, acts: seq<Action>, i: nat, c: nat)
    requires cfg.Valid() && IsRun(cfg, t, acts) && i < |acts| && acts[i] == By(c, Apply)
    requires c in t[i].clients && t[i].clients[c].pc.Loaded? && t[i].clients[c].pc.pos.op.Insert?
    requires |t[i].clients[c].pc.pairs| >= cfg.eSize
    requires forall j | 0 <= j < |t[i].clients[c].pc.pairs| :: t[i].clients[c].pc.pairs[j].key != t[i].clients[c].pc.pos.op.key
    ensures var pos := t[i].clients[c].pc.pos;
      && InTree(t[i + 1].heap, pos.p, BucketOf(cfg, pos)) && t[i + 1].heap.plists[pos.p][BucketOf(cfg, pos)].base.PRef?
      && t[i + 1].heap.plists[pos.p][BucketOf(cfg, pos)].base.p !in t[i].heap.plists
  {
    RunSafe(cfg, t, acts, i);
    var pc := t[i].clients[c].pc;
    assert ClientOK(cfg, t[i].heap, t[i].clients[c]);
    FindIffMember(pc.pairs, pc.pos.op.key);
    assert MustRehash(cfg, pc.pos.op, pc.pairs);
    assert Enabled(cfg, t[i], acts[i]) && t[i + 1] == Step(cfg, t[i], acts[i]);
    hide IsRun; hide Find; hide Distinct; hide ChildPList; hide Buckets; hide Links;
  }

  /** A PList that was read for keeping is kept exactly when the layers of the cache reach it, its slot is empty, and all
      of its buckets but the last were calcified; and what is kept is what was read. */
  lemma KeptWhenCalcified(cfg: Config, t: seq<State>, acts: seq<Action>, i: nat, c: nat, slot: (nat, nat))
    requires cfg.Valid() && IsRun(cfg, t, acts) && i < |acts| && acts[i] == By(c, FinishRead)
    requires c in t[i].clients && t[i].clients[c].pc.Reading? && c in t[i + 1].clients && slot !in t[i].clients[c].cache
    ensures var cl, cache := t[i].clients[c], t[i + 1].clients[c].cache;
      && (slot in cache <==>
            (&& cl.pc.keep && SlotFor(cfg, cl, cl.pc.pos) == Some(slot)
             && forall j | 0 <= j < |cl.pc.got| - 1 :: cl.pc.got[j].bk.lock.PUnlocked?))
      && (slot in cache ==> SeesAll(cl.pc.got, cache[slot].buckets))
  {
    assert Enabled(cfg, t[i], acts[i]) && t[i + 1] == Step(cfg, t[i], acts[i]);
    hide IsRun; hide SlotFor;
  }

  /** The next PList of the descent is fetched for its place. */
  lemma FetchStep(cfg: Config, s: State, c: nat, move: Move)
    requires Enabled(cfg, s, By(c, move)) && (move.Begin? || move.Down?)
    ensures var s' := Step(cfg, s, By(c, move));
      && c in s.clients && c in s'.clients && s'.heap == s.heap && (s'.clients[c].pc.Descending? || s'.clients[c].pc.Reading?)
      && s'.clients[c].pc == Fetch(cfg, s.clients[c], s'.clients[c].pc.pos)
  {
    hide SlotFor;
  }

  /** A PList that is in the cache is never read again: the client goes on at once, with what the PList holds. */
  lemma CachedIsNotRead(cfg: Config, t: seq<State>, acts: seq<Action>, i: nat, c: nat)
    requires cfg.Valid() && IsRun(cfg, t, acts) && i < |acts| && (acts[i] == By(c, Begin) || acts[i] == By(c, Down))
    ensures c in t[i].clients && c in t[i + 1].clients && (t[i + 1].clients[c].pc.Descending? || t[i + 1].clients[c].pc.Reading?)
    ensures var pc := t[i + 1].clients[c].pc;
      var slot := SlotFor(cfg, t[i].clients[c], pc.pos);
      && (pc.Reading? <==> slot.None? || slot.value !in t[i].clients[c].cache)
      && (pc.Reading? ==> pc.got == [] && pc.keep)
      && (pc.Descending? ==> pc.pos.p in t[i].heap.plists && SeesAll(pc.curr, t[i].heap.plists[pc.pos.p]))
  {
    hide SlotFor; hide Step; hide Enabled; hide Safe;
    assert Enabled(cfg, t[i], acts[i]) && t[i + 1] == Step(cfg, t[i], acts[i]);
    RunSafe(cfg, t, acts, i);
    RunSafe(cfg, t, acts, i + 1);
    hide IsRun;
    FetchStep(cfg, t[i], c, acts[i].move);
    if t[i + 1].clients[c].pc.Descending? {
      PlaceIn(cfg, t[i], c);
      PlaceIn(cfg, t[i + 1], c);
      FetchesRemote(cfg, t[i].heap, t[i].clients[c], t[i + 1].clients[c].pc.pos);
    }
  }

  lemma PlaceIn(cfg: Config, s: State, c: nat)
    requires Safe(cfg, s) && c in s.clients
    ensures Tree(cfg, s.heap) && ClientOK(cfg, s.heap, s.clients[c])
    ensures s.clients[c].pc.Descending? ==> At(cfg, s.heap, s.clients[c].pc.pos)
  {}

  /** The snapshots are the buckets of the PList. */
  ghost predicate SeesAll(curr: seq<Snap>, plist: PList) {
    |curr| == |plist| && forall j | 0 <= j < |curr| :: curr[j].bk == plist[j]
  }

  /** What the cache holds for a place of the descent is the PList there. */
  lemma FetchesRemote(cfg: Config, h: Heap, cl: Client, pos: Pos)
    requires cfg.Valid() && Tree(cfg, h) && ClientOK(cfg, h, cl) && At(cfg, h, pos)
    requires SlotFor(cfg, cl, pos).Some? && SlotFor(cfg, cl, pos).value in cl.cache
    ensures cl.cache[SlotFor(cfg, cl, pos).value].buckets == h.plists[pos.p]
  {
    assert PathTo(cfg, pos.op.key, pos.depth - 1) == h.paths[pos.p];
    var slot := SlotFor(cfg, cl, pos).value;
    assert CachedOK(cfg, h, cl, slot);
    ShallowSlotsInjective(cfg.pSize, cl.cacheDepth, h.paths[cl.cache[slot].src], h.paths[pos.p]);
    PathUnique(cfg, h, cl.cache[slot].src, pos.p);
  }
}
