/** What holds in every run of the local table: nothing touches a reclaimed EList, no pair is lost or duplicated,
    and what a rehash does to later lookups. */
module LocalRuns {
  import opened Linearizability
  import opened IhtHeap
  import opened IhtLocal

  lemma {:induction false} RunInv(cfg: Config, r: seq<State>, acts: seq<Action>, i: nat)
    requires ValidLocal(cfg) && IsRun(cfg, r, acts) && i < |r|
    ensures IhtLocal.Inv(cfg, r[i])
  {
    if i > 0 {
      RunInv(cfg, r, acts, i - 1);
      StepInv(cfg, r[i - 1], acts[i - 1]);
    }
  }

  // ---------- Main results ----------

  /** The thread that works on an EList holds the lock of the one bucket that points to it, the EList is live, and
      no other thread works on it: nothing touches an EList after it is reclaimed, and none is freed twice. */
  lemma TouchedIsLive(cfg: Config, r: seq<State>, acts: seq<Action>, i: nat, t: nat)
    requires ValidLocal(cfg) && IsRun(cfg, r, acts) && i < |r| && t in r[i].threads
    requires Touched(r[i].threads[t]).Some?
    ensures var e := Touched(r[i].threads[t]).value; var pos := r[i].threads[t].pos;
      && e in r[i].mem.elists && e !in r[i].mem.reclaimed
      && Has(r[i].mem, pos.p, BucketOf(cfg, pos))
      && r[i].mem.plists[pos.p][BucketOf(cfg, pos)] == Bucket(ERef(e), ELocked)
      && (forall t' | t' in r[i].threads && Touched(r[i].threads[t']) == Some(e) :: t' == t)
  {
    RunInv(cfg, r, acts, i);
    var s := r[i];
    var e := Touched(s.threads[t]).value;
    assert PcOK(cfg, s.mem, s.threads[t]);
    var pos := s.threads[t].pos;
    assert IhtLocal.BucketOK(cfg, s.mem, pos.p, BucketOf(cfg, pos)) && IhtLocal.Holds(cfg, s.threads[t], pos.p, BucketOf(cfg, pos));
    forall t' | t' in s.threads && Touched(s.threads[t']) == Some(e) ensures t' == t {
      assert PcOK(cfg, s.mem, s.threads[t']);
      var pos' := s.threads[t'].pos;
      assert IhtLocal.BucketOK(cfg, s.mem, pos'.p, BucketOf(cfg, pos')) && IhtLocal.Holds(cfg, s.threads[t'], pos'.p, BucketOf(cfg, pos'));
    }
  }

  /** Every EList of the table holds distinct keys, at most `eSize` pairs, and is live whenever its bucket is open. */
  lemma ListsStaySound(cfg: Config, r: seq<State>, acts: seq<Action>, i: nat, p: nat, b: nat)
    requires ValidLocal(cfg) && IsRun(cfg, r, acts) && i < |r| && Has(r[i].mem, p, b)
    requires r[i].mem.plists[p][b].base.ERef?
    ensures var e := r[i].mem.plists[p][b].base.e;
      && e in r[i].mem.elists && Distinct(r[i].mem.elists[e]) && |r[i].mem.elists[e]| <= cfg.eSize
      && (r[i].mem.plists[p][b].lock.EUnlocked? ==> e !in r[i].mem.reclaimed)
  {
    RunInv(cfg, r, acts, i);
    assert IhtLocal.BucketOK(cfg, r[i].mem, p, b);
  }

  /** No thread ever follows a dangling pointer or steps outside a list: its next step is always possible. */
  lemma AlwaysEnabled(cfg: Config, r: seq<State>, acts: seq<Action>, i: nat, t: nat)
    requires ValidLocal(cfg) && IsRun(cfg, r, acts) && i < |r| && t in r[i].threads && !r[i].threads[t].Idle?
    ensures Enabled(cfg, r[i], Next(t))
  {
    RunInv(cfg, r, acts, i);
    var pc := r[i].threads[t];
    assert PcOK(cfg, r[i].mem, pc) && IhtLocal.BucketOK(cfg, r[i].mem, pc.pos.p, BucketOf(cfg, pc.pos));
    SizeGrows(cfg, pc.pos.depth);
  }

  /** The answer of a search is what the EList says about the key. */
  lemma SearchAnswers(cfg: Config, s: State, t: nat)
    requires IhtLocal.Inv(cfg, s) && t in s.threads && s.threads[t].Searching? && Enabled(cfg, s, Next(t))
    requires Step(cfg, s, Next(t)).threads[t].Unlocking?
    ensures Step(cfg, s, Next(t)).threads[t].result == Find(s.mem.elists[s.threads[t].e], s.threads[t].pos.op.key)
  {
    var pc := s.threads[t];
    assert PcOK(cfg, s.mem, pc);
    assert IhtLocal.BucketOK(cfg, s.mem, pc.pos.p, BucketOf(cfg, pc.pos));
    var es := s.mem.elists[pc.e];
    FindIffMember(es, pc.pos.op.key);
    if pc.i < |es| { assert Pair(es[pc.i].key, es[pc.i].val) in es; }
  }

  // ---------- Pairs are neither lost nor duplicated ----------

  ghost function AllAdded(cfg: Config, r: seq<State>, acts: seq<Action>, i: nat): multiset<Pair>
    requires IsRun(cfg, r, acts) && i < |r|
  {
    if i == 0 then multiset{} else AllAdded(cfg, r, acts, i - 1) + IhtLocal.Added(cfg, r[i - 1], acts[i - 1])
  }

  ghost function AllRemoved(cfg: Config, r: seq<State>, acts: seq<Action>, i: nat): multiset<Pair>
    requires IsRun(cfg, r, acts) && i < |r|
  {
    if i == 0 then multiset{} else AllRemoved(cfg, r, acts, i - 1) + Removed(cfg, r[i - 1], acts[i - 1])
  }

  lemma InitEmpty(cfg: Config, s: State)
    requires Init(cfg, s)
    ensures Contents(s.mem) == multiset{}
  {
    assert Total(s.mem, 0) == multiset{} && !InTable(s.mem, 0);
  }

  /** At any moment of any run the table holds exactly the pairs added less the pairs taken out, counted. */
  lemma {:induction false} RunConserves(cfg: Config, r: seq<State>, acts: seq<Action>, i: nat)
    requires ValidLocal(cfg) && IsRun(cfg, r, acts) && i < |r|
    ensures Contents(r[i].mem) + AllRemoved(cfg, r, acts, i) == AllAdded(cfg, r, acts, i)
  {
    hide IhtLocal.Inv; hide Contents; hide IhtLocal.Added; hide Removed; hide Step; hide Enabled;
    if i == 0 {
      InitEmpty(cfg, r[0]);
    } else {
      RunConserves(cfg, r, acts, i - 1);
      RunInv(cfg, r, acts, i - 1);
      StepConserves(cfg, r[i - 1], acts[i - 1]);
      var rem, add := Removed(cfg, r[i - 1], acts[i - 1]), IhtLocal.Added(cfg, r[i - 1], acts[i - 1]);
      assert AllRemoved(cfg, r, acts, i) == AllRemoved(cfg, r, acts, i - 1) + rem;
      assert AllAdded(cfg, r, acts, i) == AllAdded(cfg, r, acts, i - 1) + add;
      Settle(Contents(r[i].mem), Contents(r[i - 1].mem), AllRemoved(cfg, r, acts, i - 1), AllAdded(cfg, r, acts, i - 1), rem, add);
    }
  }

  // ---------- What a rehash does to lookups ----------

  /** What a lookup finds when it stands at `p` at depth `d` and nobody else moves. */
  ghost function Lookup(cfg: Config, m: Mem, k: Key, p: nat, d: nat): Option<Value>
    decreases m.next - p
  {
    var b := cfg.Slot(k, d);
    if !Has(m, p, b) then None
    else match m.plists[p][b].base
      case Null => None
      case ERef(e) => if e in m.elists then Find(m.elists[e], k) else None
      case PRef(q) => if p < q < m.next then Lookup(cfg, m, k, q, d + 1) else None
  }

  lemma FindInPart(cfg: Config, es: EList, d: nat, j: nat, k: Key)
    requires Distinct(es)
    ensures Find(Part(cfg, es, d, j), k) == if cfg.Slot(k, d) == j then Find(es, k) else None
  {
    PartMembers(cfg, es, d, j);
    FindIffMember(es, k);
    FindIffMember(Part(cfg, es, d, j), k);
    var f := Find(Part(cfg, es, d, j), k);
    if f.Some? { assert Pair(k, f.value).key == k; }
    if Find(es, k).Some? && cfg.Slot(k, d) == j { assert Pair(k, Find(es, k).value) in Part(cfg, es, d, j); }
  }

  lemma LookupInstalled(cfg: Config, m: Mem, p: nat, e: nat, parts: seq<EList>, d: nat, k: Key)
    requires Has(m, p, cfg.Slot(k, d)) && p < m.next && cfg.Slot(k, d + 1) < |parts|
    ensures Lookup(cfg, Install(m, p, cfg.Slot(k, d), e, parts), k, p, d) == Find(parts[cfg.Slot(k, d + 1)], k)
  {
    var i := cfg.Slot(k, d + 1);
    InstalledAt(m, p, cfg.Slot(k, d), e, parts, i);
    var m' := Install(m, p, cfg.Slot(k, d), e, parts);
    hide Install;
    assert Lookup(cfg, m', k, p, d) == Lookup(cfg, m', k, m.next, d + 1);
  }

  /** A rehash puts its pairs where the lookup one level up would search. So a key of the bucket is still found
      afterwards exactly when it was absent, or its buckets at the two levels have the same index. */
  lemma FoundAfterRehashIff(cfg: Config, m: Mem, p: nat, e: nat, parts: seq<EList>, d: nat, k: Key)
    requires ValidLocal(cfg) && Fitting(cfg, m, p, cfg.Slot(k, d), e, parts) && e in m.elists && PartsOK(cfg, m.elists[e], d, parts)
    ensures Lookup(cfg, m, k, p, d) == Find(m.elists[e], k)
    ensures Lookup(cfg, Install(m, p, cfg.Slot(k, d), e, parts), k, p, d) == Lookup(cfg, m, k, p, d) <==>
      Find(m.elists[e], k).None? || cfg.Slot(k, d + 1) == cfg.Slot(k, d)
  {
    assert IhtLocal.BucketOK(cfg, m, p, cfg.Slot(k, d));
    assert p < m.next;
    hide IhtLocal.Buckets; hide Homes; hide Distinct; hide Part; hide Install;
    assert cfg.Size(d + 1) <= 2 * cfg.Size(d);
    FindInPart(cfg, m.elists[e], d, cfg.Slot(k, d + 1), k);
    LookupInstalled(cfg, m, p, e, parts, d, k);
  }

  lemma InstalledAt(m: Mem, p: nat, b: nat, e: nat, parts: seq<EList>, i: nat)
    requires Has(m, p, b) && p != m.next && i < |parts|
    ensures var m' := Install(m, p, b, e, parts);
      && Has(m', p, b) && m'.plists[p][b].base == PRef(m.next) && m'.next > m.next
      && Has(m', m.next, i)
      && m'.plists[m.next][i].base == (if parts[i] == [] then Null else ERef(m.next + 1 + i))
      && (parts[i] != [] ==> m.next + 1 + i in m'.elists && m'.elists[m.next + 1 + i] == parts[i])
  {
    assert parts[i] != [] ==> Fresh(m, parts, m.next + 1 + i);
  }
}
