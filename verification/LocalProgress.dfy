/** Operations of the local table come to an end. What a thread still has to do is bounded level by level: each of its
    steps uses some of it up, except looking at a locked bucket, and every locked bucket has a thread at work on it.
 */
module LocalProgress {
  import opened Linearizability
  import opened IhtHeap
  import opened IhtLocal
  import opened LocalRuns

  // ---------- Locked buckets are attended ----------

  ghost predicate Taken(cfg: Config, s: State, p: nat, b: nat) {
    exists t :: t in s.threads && IhtLocal.Holds(cfg, s.threads[t], p, b)
  }

  ghost predicate Attended(cfg: Config, s: State) {
    forall p: nat, b: nat {:trigger Taken(cfg, s, p, b)} | Has(s.mem, p, b) && s.mem.plists[p][b].lock.ELocked? :: Taken(cfg, s, p, b)
  }

  /** A lock word becomes locked only when a thread takes it, and the thread that opens it held it. */
  lemma LockMoves(cfg: Config, s: State, t: nat, p: nat, b: nat)
    requires IhtLocal.Inv(cfg, s) && Enabled(cfg, s, Next(t))
    requires Has(DoNext(cfg, s, t).0, p, b) && DoNext(cfg, s, t).0.plists[p][b].lock.ELocked?
    ensures IhtLocal.Holds(cfg, DoNext(cfg, s, t).1, p, b)
      || (Has(s.mem, p, b) && s.mem.plists[p][b].lock.ELocked? && !IhtLocal.Holds(cfg, s.threads[t], p, b))
  {
    var pc := s.threads[t];
    assert PcOK(cfg, s.mem, pc);
    hide IhtLocal.Inv; hide WithoutAt;
    if pc.Switching? { hide Homes; }
  }

  lemma AttendedStep(cfg: Config, s: State, a: Action)
    requires IhtLocal.Inv(cfg, s) && Attended(cfg, s) && Enabled(cfg, s, a)
    ensures Attended(cfg, Step(cfg, s, a))
  {
    var s' := Step(cfg, s, a);
    hide IhtLocal.Inv; hide DoNext;
    forall p: nat, b: nat | Has(s'.mem, p, b) && s'.mem.plists[p][b].lock.ELocked? ensures Taken(cfg, s', p, b) {
      if a.Next? { LockMoves(cfg, s, a.t, p, b); }
      if a.Next? && IhtLocal.Holds(cfg, s'.threads[a.t], p, b) {
      } else {
        assert Taken(cfg, s, p, b);
        var u :| u in s.threads && IhtLocal.Holds(cfg, s.threads[u], p, b);
        assert u != a.t && IhtLocal.Holds(cfg, s'.threads[u], p, b);
      }
    }
  }

  lemma {:induction false} RunAttended(cfg: Config, r: seq<State>, acts: seq<Action>, i: nat)
    requires ValidLocal(cfg) && IsRun(cfg, r, acts) && i < |r|
    ensures Attended(cfg, r[i])
  {
    hide Attended; hide Step; hide Enabled;
    if i == 0 {
      NothingLocked(cfg, r[0]);
    } else {
      hide Init;
      RunAttended(cfg, r, acts, i - 1);
      RunInv(cfg, r, acts, i - 1);
      hide IhtLocal.Inv;
      AttendedStep(cfg, r[i - 1], acts[i - 1]);
    }
  }

  lemma NothingLocked(cfg: Config, s: State)
    requires Init(cfg, s)
    ensures Attended(cfg, s)
  {}

  /** In every run, a thread that finds a bucket locked finds another thread at work on it. */
  lemma LockedIsTaken(cfg: Config, r: seq<State>, acts: seq<Action>, i: nat, t: nat)
    requires ValidLocal(cfg) && IsRun(cfg, r, acts) && i < |r| && Enabled(cfg, r[i], Next(t)) && Spins(cfg, r[i], t)
    ensures var pos := r[i].threads[t].pos;
      exists u :: u != t && u in r[i].threads && IhtLocal.Holds(cfg, r[i].threads[u], pos.p, BucketOf(cfg, pos))
  {
    RunAttended(cfg, r, acts, i);
    var pos := r[i].threads[t].pos;
    hide IsRun;
    assert Taken(cfg, r[i], pos.p, BucketOf(cfg, pos));
  }

  // ---------- What is left to do ----------

  /** From looking for the bucket of depth `d` to the end, as long as the descent does not go below `limit`. */
  function Below(cfg: Config, d: nat, limit: nat): nat
    decreases limit + 1 - d
  {
    if d > limit then 0 else 2 * cfg.eSize + 9 + Below(cfg, d + 1, limit)
  }

  function Rest(cfg: Config, i: nat): nat { if i <= cfg.eSize then cfg.eSize - i else 0 }

  predicate Calcified(cfg: Config, m: Mem, pos: Pos) {
    Has(m, pos.p, BucketOf(cfg, pos)) && m.plists[pos.p][BucketOf(cfg, pos)].lock.PUnlocked?
  }

  /** What a thread has left to do. */
  function Left(cfg: Config, m: Mem, pc: Pc, limit: nat): nat {
    if pc.Idle? then 0
    else
      var more := Below(cfg, pc.pos.depth + 1, limit);
      match pc
      case Seeking(pos) => (if Calcified(cfg, m, pos) then 2 else 2 * cfg.eSize + 9) + more
      case Descending(_) => 1 + more
      case Locked(_) => 2 * cfg.eSize + 8 + more
      case Searching(_, _, i) => Rest(cfg, i) + cfg.eSize + 7 + more
      case Rehashing(_, _, i, _) => Rest(cfg, i) + 5 + more
      case Switching(_, _, _) => 4 + more
      case Unlocking(_, lock, _) => if lock.PUnlocked? then 3 + more else 1
  }

  function DepthOf(pc: Pc): nat { if pc.Idle? then 0 else pc.pos.depth }

  /** The thread looks at a locked bucket. */
  predicate Spins(cfg: Config, s: State, t: nat)
    requires Enabled(cfg, s, Next(t))
  {
    var pc := s.threads[t];
    pc.Seeking? && s.mem.plists[pc.pos.p][BucketOf(cfg, pc.pos)].lock.ELocked?
  }

  /** The thread stays within `limit` levels in its next step. */
  ghost predicate Within(cfg: Config, s: State, t: nat, limit: nat) {
    && IhtLocal.Inv(cfg, s) && Enabled(cfg, s, Next(t)) && DepthOf(s.threads[t]) <= limit
    && (s.threads[t].Descending? ==> DepthOf(s.threads[t]) < limit)
  }

  ghost predicate UsesWork(cfg: Config, s: State, t: nat, limit: nat)
    requires Enabled(cfg, s, Next(t))
  {
    var r := DoNext(cfg, s, t);
    if Spins(cfg, s, t) then Left(cfg, r.0, r.1, limit) == Left(cfg, s.mem, s.threads[t], limit)
    else Left(cfg, r.0, r.1, limit) < Left(cfg, s.mem, s.threads[t], limit)
  }

  lemma SeekUsesWork(cfg: Config, s: State, t: nat, limit: nat)
    requires Within(cfg, s, t, limit) && (s.threads[t].Seeking? || s.threads[t].Descending?)
    ensures UsesWork(cfg, s, t, limit)
  {
    hide IhtLocal.Inv;
  }

  lemma ScanUsesWork(cfg: Config, s: State, t: nat, limit: nat)
    requires Within(cfg, s, t, limit) && (s.threads[t].Searching? || s.threads[t].Rehashing?)
    ensures UsesWork(cfg, s, t, limit)
  {
    var pc := s.threads[t];
    assert PcOK(cfg, s.mem, pc);
    assert IhtLocal.BucketOK(cfg, s.mem, pc.pos.p, BucketOf(cfg, pc.pos));
    assert pc.i <= |s.mem.elists[pc.e]| <= cfg.eSize;
    hide IhtLocal.Inv; hide WithoutAt; hide Distinct; hide PartsOK; hide Below; hide IhtLocal.BucketOK; hide PcOK;
  }

  lemma HolderUsesWork(cfg: Config, s: State, t: nat, limit: nat)
    requires Within(cfg, s, t, limit) && (s.threads[t].Locked? || s.threads[t].Switching? || s.threads[t].Unlocking?)
    ensures UsesWork(cfg, s, t, limit)
  {
    assert PcOK(cfg, s.mem, s.threads[t]);
    hide IhtLocal.Inv; hide Install; hide Attach; hide PartsOK; hide Below;
  }

  /** Each step of a thread, other than looking at a locked bucket, leaves it less to do. */
  lemma StepUsesWork(cfg: Config, s: State, t: nat, limit: nat)
    requires Within(cfg, s, t, limit)
    ensures var r := DoNext(cfg, s, t);
      if Spins(cfg, s, t) then Left(cfg, r.0, r.1, limit) == Left(cfg, s.mem, s.threads[t], limit)
      else Left(cfg, r.0, r.1, limit) < Left(cfg, s.mem, s.threads[t], limit)
  {
    hide IhtLocal.Inv; hide DoNext; hide Left;
    if s.threads[t].Seeking? || s.threads[t].Descending? {
      SeekUsesWork(cfg, s, t, limit);
    } else if s.threads[t].Searching? || s.threads[t].Rehashing? {
      ScanUsesWork(cfg, s, t, limit);
    } else {
      HolderUsesWork(cfg, s, t, limit);
    }
  }

  lemma OthersCalcified(cfg: Config, s: State, t: nat, pos: Pos)
    requires IhtLocal.Inv(cfg, s) && Enabled(cfg, s, Next(t)) && Calcified(cfg, s.mem, pos)
    ensures Calcified(cfg, DoNext(cfg, s, t).0, pos)
  {
    var pc := s.threads[t];
    assert PcOK(cfg, s.mem, pc);
    hide IhtLocal.Inv; hide WithoutAt;
  }

  /** What a thread has left never grows by what others do. */
  lemma OthersLeft(cfg: Config, s: State, a: Action, u: nat, limit: nat)
    requires IhtLocal.Inv(cfg, s) && Enabled(cfg, s, a) && u in s.threads && u != a.t
    ensures u in Step(cfg, s, a).threads && Step(cfg, s, a).threads[u] == s.threads[u]
    ensures Left(cfg, Step(cfg, s, a).mem, s.threads[u], limit) <= Left(cfg, s.mem, s.threads[u], limit)
  {
    if a.Next? && s.threads[u].Seeking? && Calcified(cfg, s.mem, s.threads[u].pos) { OthersCalcified(cfg, s, a.t, s.threads[u].pos); }
    hide IhtLocal.Inv; hide Calcified; hide DoNext;
  }

  // ---------- How many steps an operation takes ----------

  predicate Counts(cfg: Config, s: State, a: Action, t: nat)
    requires Enabled(cfg, s, a)
  {
    a == Next(t) && !Spins(cfg, s, t)
  }

  /** How many steps a thread has made in its operations before step `i`, other than looking at a locked bucket. */
  ghost function Steps(cfg: Config, r: seq<State>, acts: seq<Action>, i: nat, t: nat): nat
    requires IsRun(cfg, r, acts) && i < |r|
  {
    if i == 0 then 0 else Steps(cfg, r, acts, i - 1, t) + if Counts(cfg, r[i - 1], acts[i - 1], t) then 1 else 0
  }

  function Begun(acts: seq<Action>, i: nat, t: nat): nat
    requires i <= |acts|
  {
    if i == 0 then 0 else Begun(acts, i - 1, t) + if acts[i - 1].Begin? && acts[i - 1].t == t then 1 else 0
  }

  ghost predicate Shallow(r: seq<State>, i: nat, t: nat, limit: nat)
    requires i < |r|
  {
    forall j | 0 <= j <= i :: t in r[j].threads && DepthOf(r[j].threads[t]) <= limit
  }

  lemma LeftStep(cfg: Config, s: State, a: Action, t: nat, limit: nat)
    requires IhtLocal.Inv(cfg, s) && Enabled(cfg, s, a) && t in s.threads && t in Step(cfg, s, a).threads && 1 <= limit
    requires DepthOf(s.threads[t]) <= limit && DepthOf(Step(cfg, s, a).threads[t]) <= limit
    ensures var left, now := Left(cfg, s.mem, s.threads[t], limit), Left(cfg, Step(cfg, s, a).mem, Step(cfg, s, a).threads[t], limit);
      if a.Begin? && a.t == t then left == 0 && now <= Below(cfg, 1, limit) && !Counts(cfg, s, a, t)
      else if Counts(cfg, s, a, t) then now < left
      else now <= left
  {
    if a == Next(t) {
      DescendingDepth(cfg, s, t);
      hide IhtLocal.Inv; hide Left; hide DoNext;
      StepUsesWork(cfg, s, t, limit);
    } else if a.t != t {
      hide IhtLocal.Inv; hide Left; hide DoNext;
      OthersLeft(cfg, s, a, t, limit);
    }
  }

  lemma DescendingDepth(cfg: Config, s: State, t: nat)
    requires Enabled(cfg, s, Next(t))
    ensures s.threads[t].Descending? ==> DepthOf(DoNext(cfg, s, t).1) == DepthOf(s.threads[t]) + 1
  {}

  /** Whatever the other threads do, an operation that stays within `limit` levels takes a bounded number of steps, not
      counting those that find a bucket locked. */
  lemma {:induction false} StepsAreBounded(cfg: Config, r: seq<State>, acts: seq<Action>, i: nat, t: nat, limit: nat)
    requires ValidLocal(cfg) && IsRun(cfg, r, acts) && i < |r| && 1 <= limit && Shallow(r, i, t, limit)
    ensures Steps(cfg, r, acts, i, t) + Left(cfg, r[i].mem, r[i].threads[t], limit) <= Below(cfg, 1, limit) * Begun(acts, i, t)
  {
    hide Step; hide Enabled; hide IhtLocal.Inv; hide Below; hide Counts;
    if i == 0 {
      assert r[0].threads[t].Idle?;
    } else {
      hide Init; hide Left;
      assert Shallow(r, i - 1, t, limit);
      assert Enabled(cfg, r[i - 1], acts[i - 1]) && r[i] == Step(cfg, r[i - 1], acts[i - 1]);
      StepsAreBounded(cfg, r, acts, i - 1, t, limit);
      RunInv(cfg, r, acts, i - 1);
      LeftStep(cfg, r[i - 1], acts[i - 1], t, limit);
      OneBudgetMore(Below(cfg, 1, limit), Begun(acts, i - 1, t));
    }
  }

  lemma OneBudgetMore(b: nat, n: nat)
    ensures b * (n + 1) == b * n + b
  {}

  // ---------- All operations can be finished ----------

  /** What all threads have left to do. */
  ghost function AllLeft(cfg: Config, m: Mem, threads: map<nat, Pc>, limit: nat): nat
    decreases |threads|
  {
    if threads == map[] then 0
    else
      var t :| t in threads;
      Left(cfg, m, threads[t], limit) + AllLeft(cfg, m, threads - {t}, limit)
  }

  lemma {:induction false} AllLeftWithout(cfg: Config, m: Mem, threads: map<nat, Pc>, t: nat, limit: nat)
    requires t in threads
    ensures AllLeft(cfg, m, threads, limit) == Left(cfg, m, threads[t], limit) + AllLeft(cfg, m, threads - {t}, limit)
    decreases |threads|
  {
    hide Left;
    var u :| u in threads && AllLeft(cfg, m, threads, limit) == Left(cfg, m, threads[u], limit) + AllLeft(cfg, m, threads - {u}, limit);
    if u != t {
      AllLeftWithout(cfg, m, threads - {u}, t, limit);
      AllLeftWithout(cfg, m, threads - {t}, u, limit);
      assert threads - {u} - {t} == threads - {t} - {u};
    }
  }

  lemma {:induction false} AllLeftLess(cfg: Config, m: Mem, m': Mem, threads: map<nat, Pc>, limit: nat)
    requires forall t | t in threads :: Left(cfg, m', threads[t], limit) <= Left(cfg, m, threads[t], limit)
    ensures AllLeft(cfg, m', threads, limit) <= AllLeft(cfg, m, threads, limit)
    decreases |threads|
  {
    hide Left;
    if threads != map[] {
      var t :| t in threads;
      AllLeftWithout(cfg, m, threads, t, limit);
      AllLeftWithout(cfg, m', threads, t, limit);
      AllLeftLess(cfg, m, m', threads - {t}, limit);
    }
  }

  lemma StepGetsOn(cfg: Config, s: State, t: nat, limit: nat)
    requires Within(cfg, s, t, limit) && !Spins(cfg, s, t)
    ensures var s' := Step(cfg, s, Next(t)); AllLeft(cfg, s'.mem, s'.threads, limit) < AllLeft(cfg, s.mem, s.threads, limit)
  {
    var r := DoNext(cfg, s, t);
    var s' := Step(cfg, s, Next(t));
    StepUsesWork(cfg, s, t, limit);
    forall u | u in s.threads - {t} ensures Left(cfg, r.0, s.threads[u], limit) <= Left(cfg, s.mem, s.threads[u], limit) {
      OthersLeft(cfg, s, Next(t), u, limit);
    }
    hide Left; hide DoNext; hide IhtLocal.Inv;
    AllLeftWithout(cfg, s.mem, s.threads, t, limit);
    AllLeftWithout(cfg, s'.mem, s'.threads, t, limit);
    AllLeftLess(cfg, s.mem, r.0, s.threads - {t}, limit);
    assert s'.threads - {t} == s.threads - {t};
  }

  lemma CanNext(cfg: Config, s: State, t: nat)
    requires IhtLocal.Inv(cfg, s) && t in s.threads && !s.threads[t].Idle?
    ensures Enabled(cfg, s, Next(t))
  {
    var pc := s.threads[t];
    assert PcOK(cfg, s.mem, pc) && IhtLocal.BucketOK(cfg, s.mem, pc.pos.p, BucketOf(cfg, pc.pos));
    SizeGrows(cfg, pc.pos.depth);
  }

  /** While a thread is inside an operation, it or the thread at work on the bucket that it wants can get on. */
  lemma SomebodyGetsOn(cfg: Config, s: State, t: nat) returns (u: nat)
    requires IhtLocal.Inv(cfg, s) && Attended(cfg, s) && t in s.threads && !s.threads[t].Idle?
    ensures Enabled(cfg, s, Next(u)) && !Spins(cfg, s, u)
  {
    CanNext(cfg, s, t);
    u := t;
    if Spins(cfg, s, t) {
      var pos := s.threads[t].pos;
      assert Taken(cfg, s, pos.p, BucketOf(cfg, pos));
      u :| u in s.threads && IhtLocal.Holds(cfg, s.threads[u], pos.p, BucketOf(cfg, pos));
      CanNext(cfg, s, u);
      hide IhtLocal.Inv;
    }
  }

  /** Steps that follow each other and begin no operation. */
  ghost predicate GoesOn(cfg: Config, r: seq<State>, acts: seq<Action>) {
    && |r| == |acts| + 1
    && forall i | 0 <= i < |acts| :: Enabled(cfg, r[i], acts[i]) && acts[i].Next? && r[i + 1] == Step(cfg, r[i], acts[i])
  }

  predicate AllIdle(s: State) { forall t | t in s.threads :: s.threads[t].Idle? }

  ghost predicate AllShallow(s: State, limit: nat) { forall t | t in s.threads :: DepthOf(s.threads[t]) <= limit }

  /** A thread is about to go below the level `limit`. */
  ghost predicate TooDeep(s: State, limit: nat) {
    exists t :: t in s.threads && s.threads[t].Descending? && DepthOf(s.threads[t]) == limit
  }

  lemma OneMoreStep(cfg: Config, s: State, a: Action, r: seq<State>, acts: seq<Action>)
    requires GoesOn(cfg, r, acts) && Enabled(cfg, s, a) && a.Next? && r[0] == Step(cfg, s, a)
    ensures GoesOn(cfg, [s] + r, [a] + acts)
  {
    hide Enabled; hide Step;
  }

  lemma ShallowStep(cfg: Config, s: State, t: nat, limit: nat)
    requires Enabled(cfg, s, Next(t)) && AllShallow(s, limit) && (s.threads[t].Descending? ==> DepthOf(s.threads[t]) < limit)
    ensures AllShallow(Step(cfg, s, Next(t)), limit)
  {
    hide Install; hide Attach; hide WithoutAt;
  }

  lemma {:induction false} FinishAll(cfg: Config, s: State, limit: nat) returns (r: seq<State>, acts: seq<Action>)
    requires IhtLocal.Inv(cfg, s) && Attended(cfg, s) && AllShallow(s, limit) && 1 <= limit
    ensures GoesOn(cfg, r, acts) && r[0] == s && (AllIdle(r[|acts|]) || TooDeep(r[|acts|], limit))
    decreases AllLeft(cfg, s.mem, s.threads, limit)
  {
    hide IhtLocal.Inv; hide Attended; hide AllLeft; hide Step; hide Spins;
    r, acts := [s], [];
    if t :| t in s.threads && !s.threads[t].Idle? {
      var u := SomebodyGetsOn(cfg, s, t);
      if s.threads[u].Descending? && DepthOf(s.threads[u]) == limit {
        assert TooDeep(s, limit);
      } else {
        StepGetsOn(cfg, s, u, limit);
        IhtLocal.StepInv(cfg, s, Next(u));
        AttendedStep(cfg, s, Next(u));
        ShallowStep(cfg, s, u, limit);
        r, acts := FinishAll(cfg, Step(cfg, s, Next(u)), limit);
        OneMoreStep(cfg, s, Next(u), r, acts);
        r, acts := [s] + r, [Next(u)] + acts;
      }
    }
  }

  /** Whatever has happened in a run within `limit` levels, there is a way to go on, without new operations, at whose
      end every operation that is under way has returned, or some thread is about to go below `limit`. */
  lemma EveryOperationReturns(cfg: Config, r: seq<State>, acts: seq<Action>, limit: nat)
    returns (r': seq<State>, acts': seq<Action>)
    requires ValidLocal(cfg) && IsRun(cfg, r, acts) && 1 <= limit && AllShallow(r[|acts|], limit)
    ensures IsRun(cfg, r', acts') && r <= r' && acts <= acts' && forall i | |acts| <= i < |acts'| :: acts'[i].Next?
    ensures AllIdle(r'[|acts'|]) || TooDeep(r'[|acts'|], limit)
  {
    RunInv(cfg, r, acts, |acts|);
    RunAttended(cfg, r, acts, |acts|);
    var r1, acts1 := FinishAll(cfg, r[|acts|], limit);
    hide Enabled; hide Step; hide IhtLocal.Inv; hide Attended; hide Init; hide TooDeep; hide AllIdle;
    r', acts' := r + r1[1..], acts + acts1;
    assert r'[0] == r[0] && r'[|acts'|] == r1[|acts1|];
    forall i | 0 <= i < |acts'|
      ensures Enabled(cfg, r'[i], acts'[i]) && r'[i + 1] == Step(cfg, r'[i], acts'[i])
      ensures i >= |acts| ==> acts'[i].Next?
    {
      if i >= |acts| { assert acts'[i] == acts1[i - |acts|] && r'[i] == r1[i - |acts|] && r'[i + 1] == r1[i - |acts| + 1]; }
    }
  }

  // ---------- When lists are rehashed ----------

  /** A thread begins to rehash an EList exactly when it inserts a key that is not in the list and the list is full. */
  lemma RehashedIffFull(cfg: Config, r: seq<State>, acts: seq<Action>, i: nat, t: nat)
    requires ValidLocal(cfg) && IsRun(cfg, r, acts) && i < |acts| && acts[i] == Next(t)
    requires r[i].threads[t].Searching? && !r[i + 1].threads[t].Searching?
    ensures var pc := r[i].threads[t];
      pc.e in r[i].mem.elists && var es := r[i].mem.elists[pc.e];
      r[i + 1].threads[t].Rehashing? <==>
        pc.pos.op.Insert? && |es| == cfg.eSize && forall j | 0 <= j < |es| :: es[j].key != pc.pos.op.key
  {
    RunInv(cfg, r, acts, i);
    var pc := r[i].threads[t];
    assert PcOK(cfg, r[i].mem, pc) && IhtLocal.BucketOK(cfg, r[i].mem, pc.pos.p, BucketOf(cfg, pc.pos));
    assert Enabled(cfg, r[i], acts[i]) && r[i + 1] == Step(cfg, r[i], acts[i]);
    hide IsRun; hide IhtLocal.Inv;
  }

  /** And nothing else makes a bucket lead to a PList. */
  lemma OnlyRehashesInstall(cfg: Config, s: State, a: Action, p: nat, b: nat)
    requires IhtLocal.Inv(cfg, s) && Enabled(cfg, s, a) && Has(s.mem, p, b) && Has(Step(cfg, s, a).mem, p, b)
    requires !s.mem.plists[p][b].base.PRef? && Step(cfg, s, a).mem.plists[p][b].base.PRef?
    ensures a.Next? && s.threads[a.t].Switching? && s.threads[a.t].pos.p == p && BucketOf(cfg, s.threads[a.t].pos) == b
  {
    hide Homes; hide WithoutAt; hide IhtLocal.Buckets; hide Exclusive; hide PcOK;
  }
}
