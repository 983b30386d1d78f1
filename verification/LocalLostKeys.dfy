/** A run of the local table in which a key is lost: a rehash puts it where no lookup searches. */
module LocalLostKeys {
  import opened Linearizability
  import opened IhtHeap
  import L = IhtLocal
  import LevelHash

  // ---------- Runs in pieces ----------

  /** The actions lead from `s` to `s'`, and none begins a remove. */
  ghost predicate Leads(cfg: Config, s: L.State, acts: seq<L.Action>, s': L.State)
    decreases |acts|
  {
    if acts == [] then s' == s
    else L.Enabled(cfg, s, acts[0]) && !Removes(acts[0]) && Leads(cfg, L.Step(cfg, s, acts[0]), acts[1..], s')
  }

  predicate Removes(a: L.Action) { a.Begin? && a.op.Remove? }

  lemma {:induction false} LeadsOn(cfg: Config, s: L.State, acts: seq<L.Action>, s': L.State, acts': seq<L.Action>, s'': L.State)
    requires Leads(cfg, s, acts, s') && Leads(cfg, s', acts', s'')
    ensures Leads(cfg, s, acts + acts', s'')
    decreases |acts|
  {
    if acts == [] {
      assert acts + acts' == acts';
    } else {
      LeadsOn(cfg, L.Step(cfg, s, acts[0]), acts[1..], s', acts', s'');
      assert (acts + acts')[1..] == acts[1..] + acts';
    }
  }

  lemma One(cfg: Config, s: L.State, a: L.Action)
    requires L.Enabled(cfg, s, a) && !Removes(a)
    ensures Leads(cfg, s, [a], L.Step(cfg, s, a))
  {
    assert [a][1..] == [];
  }

  lemma More(cfg: Config, s: L.State, acts: seq<L.Action>, s': L.State, a: L.Action)
    requires Leads(cfg, s, acts, s') && L.Enabled(cfg, s', a) && !Removes(a)
    ensures Leads(cfg, s, acts + [a], L.Step(cfg, s', a))
  {
    One(cfg, s', a);
    LeadsOn(cfg, s, acts, s', [a], L.Step(cfg, s', a));
  }

  lemma {:induction false} Trace(cfg: Config, s: L.State, acts: seq<L.Action>, s': L.State) returns (r: seq<L.State>)
    requires Leads(cfg, s, acts, s')
    ensures |r| == |acts| + 1 && r[0] == s && r[|acts|] == s'
    ensures forall i | 0 <= i < |acts| :: L.Enabled(cfg, r[i], acts[i]) && r[i + 1] == L.Step(cfg, r[i], acts[i])
    ensures forall i | 0 <= i < |acts| :: !Removes(acts[i])
    decreases |acts|
  {
    r := [s];
    if acts != [] {
      var rest := Trace(cfg, L.Step(cfg, s, acts[0]), acts[1..], s');
      r := [s] + rest;
      forall i | 0 <= i < |acts|
        ensures L.Enabled(cfg, r[i], acts[i]) && r[i + 1] == L.Step(cfg, r[i], acts[i]) && !Removes(acts[i])
      {
        if i > 0 { assert r[i] == rest[i - 1] && acts[i] == acts[1..][i - 1] && r[i + 1] == rest[i]; }
      }
    }
  }

  // ---------- Thread 0 inserts ----------

  /** The bucket `b` of the root, and the program counters of the two threads. */
  ghost predicate Scene(cfg: Config, s: L.State, b: nat, bk: Bucket, pc: L.Pc) {
    && s.threads == map[0 := pc, 1 := L.Idle]
    && s.mem.root == 0 && L.Has(s.mem, 0, b) && |s.mem.plists[0]| == cfg.pSize && s.mem.plists[0][b] == bk
    && 0 < s.mem.next
  }

  ghost predicate Lists(s: L.State, e: nat, es: EList) {
    e in s.mem.elists && s.mem.elists[e] == es && e < s.mem.next
  }

  function InsertAt(k: Key, v: Value): L.Pos { L.Pos(Insert(k, v), 0, 1) }

  /** Thread 0 begins an insert and takes the lock. */
  lemma Lock(cfg: Config, s: L.State, b: nat, base: Base, k: Key, v: Value) returns (acts: seq<L.Action>, s': L.State)
    requires Scene(cfg, s, b, Bucket(base, EUnlocked), L.Idle) && cfg.Slot(k, 1) == b
    ensures Leads(cfg, s, acts, s') && Scene(cfg, s', b, Bucket(base, ELocked), L.Locked(InsertAt(k, v)))
    ensures s'.mem.elists == s.mem.elists && s'.mem.next == s.mem.next
  {
    var a := L.Begin(0, Insert(k, v));
    var s1 := L.Step(cfg, s, a);
    One(cfg, s, a);
    More(cfg, s, [a], s1, L.Next(0));
    acts, s' := [a] + [L.Next(0)], L.Step(cfg, s1, L.Next(0));
  }

  lemma Unlock(cfg: Config, s: L.State, b: nat, base: Base, lock: Lock, k: Key, v: Value, r: Option<Value>)
    returns (acts: seq<L.Action>, s': L.State)
    requires Scene(cfg, s, b, Bucket(base, ELocked), L.Unlocking(InsertAt(k, v), lock, r)) && cfg.Slot(k, 1) == b
    ensures Leads(cfg, s, acts, s')
    ensures Scene(cfg, s', b, Bucket(base, lock), if lock.PUnlocked? then L.Seeking(InsertAt(k, v)) else L.Idle)
    ensures s'.mem.elists == s.mem.elists && s'.mem.next == s.mem.next && s'.mem.home == s.mem.home
    ensures forall p | p in s.mem.plists && p != 0 :: p in s'.mem.plists && s'.mem.plists[p] == s.mem.plists[p]
  {
    One(cfg, s, L.Next(0));
    acts, s' := [L.Next(0)], L.Step(cfg, s, L.Next(0));
  }

  /** The first key of the bucket. */
  lemma InsertFirst(cfg: Config, s: L.State, b: nat, k: Key, v: Value) returns (acts: seq<L.Action>, s': L.State, e: nat)
    requires Scene(cfg, s, b, Bucket(Null, EUnlocked), L.Idle) && cfg.Slot(k, 1) == b
    ensures Leads(cfg, s, acts, s') && Scene(cfg, s', b, Bucket(ERef(e), EUnlocked), L.Idle) && Lists(s', e, [Pair(k, v)])
  {
    var a1, s1 := Lock(cfg, s, b, Null, k, v);
    e := s1.mem.next;
    var s2 := L.Step(cfg, s1, L.Next(0));
    More(cfg, s, a1, s1, L.Next(0));
    var a3;
    a3, s' := Unlock(cfg, s2, b, ERef(e), EUnlocked, k, v, None);
    LeadsOn(cfg, s, a1 + [L.Next(0)], s2, a3, s');
    acts := a1 + [L.Next(0)] + a3;
  }

  /** The scan of a list that does not hold the key. */
  lemma {:induction false} ScanOn(cfg: Config, s: L.State, b: nat, e: nat, es: EList, k: Key, v: Value, i: nat)
    returns (acts: seq<L.Action>, s': L.State)
    requires Scene(cfg, s, b, Bucket(ERef(e), ELocked), L.Searching(InsertAt(k, v), e, i)) && cfg.Slot(k, 1) == b
    requires Lists(s, e, es) && i <= |es| && forall j | 0 <= j < |es| :: es[j].key != k
    ensures Leads(cfg, s, acts, s') && Scene(cfg, s', b, Bucket(ERef(e), ELocked), L.Searching(InsertAt(k, v), e, |es|))
    ensures s'.mem == s.mem
    decreases |es| - i
  {
    if i == |es| {
      acts, s' := [], s;
    } else {
      One(cfg, s, L.Next(0));
      var s1 := L.Step(cfg, s, L.Next(0));
      var rest;
      rest, s' := ScanOn(cfg, s1, b, e, es, k, v, i + 1);
      LeadsOn(cfg, s, [L.Next(0)], s1, rest, s');
      acts := [L.Next(0)] + rest;
    }
  }

  /** Thread 0 has locked the bucket and scanned its list for a key that is not there. */
  lemma Scanned(cfg: Config, s: L.State, b: nat, e: nat, es: EList, k: Key, v: Value) returns (acts: seq<L.Action>, s': L.State)
    requires Scene(cfg, s, b, Bucket(ERef(e), EUnlocked), L.Idle) && cfg.Slot(k, 1) == b
    requires Lists(s, e, es) && forall j | 0 <= j < |es| :: es[j].key != k
    ensures Leads(cfg, s, acts, s') && Scene(cfg, s', b, Bucket(ERef(e), ELocked), L.Searching(InsertAt(k, v), e, |es|))
    ensures Lists(s', e, es)
  {
    var a1, s1 := Lock(cfg, s, b, ERef(e), k, v);
    var s2 := L.Step(cfg, s1, L.Next(0));
    More(cfg, s, a1, s1, L.Next(0));
    var a3;
    a3, s' := ScanOn(cfg, s2, b, e, es, k, v, 0);
    LeadsOn(cfg, s, a1 + [L.Next(0)], s2, a3, s');
    acts := a1 + [L.Next(0)] + a3;
  }

  /** One more key, while there is room. */
  lemma InsertNext(cfg: Config, s: L.State, b: nat, e: nat, es: EList, k: Key, v: Value) returns (acts: seq<L.Action>, s': L.State)
    requires Scene(cfg, s, b, Bucket(ERef(e), EUnlocked), L.Idle) && cfg.Slot(k, 1) == b && |es| < cfg.eSize
    requires Lists(s, e, es) && forall j | 0 <= j < |es| :: es[j].key != k
    ensures Leads(cfg, s, acts, s') && Scene(cfg, s', b, Bucket(ERef(e), EUnlocked), L.Idle)
    ensures Lists(s', e, es + [Pair(k, v)])
  {
    var a1, s1 := Scanned(cfg, s, b, e, es, k, v);
    var s2 := L.Step(cfg, s1, L.Next(0));
    More(cfg, s, a1, s1, L.Next(0));
    var a3;
    a3, s' := Unlock(cfg, s2, b, ERef(e), EUnlocked, k, v, None);
    LeadsOn(cfg, s, a1 + [L.Next(0)], s2, a3, s');
    acts := a1 + [L.Next(0)] + a3;
  }

  function Pairs(keys: seq<Key>, v: Value): EList { seq(|keys|, i requires 0 <= i < |keys| => Pair(keys[i], v)) }

  ghost predicate Together(cfg: Config, keys: seq<Key>, b: nat) {
    && (forall i, j | 0 <= i < j < |keys| :: keys[i] != keys[j])
    && (forall i | 0 <= i < |keys| :: cfg.Slot(keys[i], 1) == b)
  }

  /** The first keys of a sequence fill the list of their bucket. */
  lemma {:induction false} Fill(cfg: Config, s: L.State, b: nat, keys: seq<Key>, v: Value, n: nat)
    returns (acts: seq<L.Action>, s': L.State, e: nat)
    requires Scene(cfg, s, b, Bucket(Null, EUnlocked), L.Idle) && Together(cfg, keys, b) && 1 <= n <= |keys| && n <= cfg.eSize
    ensures Leads(cfg, s, acts, s') && Scene(cfg, s', b, Bucket(ERef(e), EUnlocked), L.Idle)
    ensures Lists(s', e, Pairs(keys[..n], v))
  {
    if n == 1 {
      acts, s', e := InsertFirst(cfg, s, b, keys[0], v);
      assert Pairs(keys[..1], v) == [Pair(keys[0], v)];
    } else {
      var a1, s1, a2;
      a1, s1, e := Fill(cfg, s, b, keys, v, n - 1);
      a2, s' := InsertNext(cfg, s1, b, e, Pairs(keys[..n - 1], v), keys[n - 1], v);
      LeadsOn(cfg, s, a1, s1, a2, s');
      acts := a1 + a2;
      assert Pairs(keys[..n], v) == Pairs(keys[..n - 1], v) + [Pair(keys[n - 1], v)];
    }
  }

  // ---------- One key too many ----------

  /** The pairs move to the buckets of the new PList. */
  lemma {:induction false} MoveOn(cfg: Config, s: L.State, b: nat, e: nat, es: EList, k: Key, v: Value, i: nat, parts: seq<EList>)
    returns (acts: seq<L.Action>, s': L.State, all: seq<EList>)
    requires L.ValidLocal(cfg) && cfg.Slot(k, 1) == b && Lists(s, e, es) && i <= |es| && L.PartsOK(cfg, es[..i], 1, parts)
    requires Scene(cfg, s, b, Bucket(ERef(e), ELocked), L.Rehashing(InsertAt(k, v), e, i, parts))
    ensures Leads(cfg, s, acts, s') && s'.mem == s.mem && L.PartsOK(cfg, es, 1, all)
    ensures Scene(cfg, s', b, Bucket(ERef(e), ELocked), L.Rehashing(InsertAt(k, v), e, |es|, all))
    decreases |es| - i
  {
    if i == |es| {
      acts, s', all := [], s, parts;
      assert es[..i] == es;
    } else {
      var j := cfg.Slot(es[i].key, 1);
      L.PartsNext(cfg, es, 1, i, parts);
      hide L.PartsOK;
      One(cfg, s, L.Next(0));
      var s1 := L.Step(cfg, s, L.Next(0));
      var rest;
      rest, s', all := MoveOn(cfg, s1, b, e, es, k, v, i + 1, parts[j := parts[j] + [es[i]]]);
      LeadsOn(cfg, s, [L.Next(0)], s1, rest, s');
      acts := [L.Next(0)] + rest;
    }
  }

  /** A full list is rehashed: all moved, the old list freed, the new PList about to be installed. */
  lemma Rehash(cfg: Config, s: L.State, b: nat, e: nat, es: EList, k: Key, v: Value)
    returns (acts: seq<L.Action>, s': L.State, parts: seq<EList>)
    requires L.ValidLocal(cfg) && cfg.Slot(k, 1) == b && Lists(s, e, es) && |es| == cfg.eSize
    requires Scene(cfg, s, b, Bucket(ERef(e), ELocked), L.Searching(InsertAt(k, v), e, |es|))
    ensures Leads(cfg, s, acts, s') && L.PartsOK(cfg, es, 1, parts)
    ensures Scene(cfg, s', b, Bucket(ERef(e), ELocked), L.Switching(InsertAt(k, v), e, parts))
  {
    var empty := seq(2 * cfg.Size(1), _ => []);
    L.EmptyParts(cfg, 1);
    assert es[..0] == [];
    One(cfg, s, L.Next(0));
    var s1 := L.Step(cfg, s, L.Next(0));
    var a2, s2;
    a2, s2, parts := MoveOn(cfg, s1, b, e, es, k, v, 0, empty);
    hide L.PartsOK;
    LeadsOn(cfg, s, [L.Next(0)], s1, a2, s2);
    More(cfg, s, [L.Next(0)] + a2, s2, L.Next(0));
    acts, s' := [L.Next(0)] + a2 + [L.Next(0)], L.Step(cfg, s2, L.Next(0));
  }

  /** Bucket `j` of the new PList is null, and bucket `b` holds the list of all pairs. */
  ghost predicate Rehashed(cfg: Config, s: L.State, q: nat, b: nat, j: nat, es: EList) {
    && L.Has(s.mem, q, j) && L.Has(s.mem, q, b)
    && s.mem.plists[q][j] == Bucket(Null, EUnlocked)
    && s.mem.plists[q][b].base.ERef?
    && var e := s.mem.plists[q][b].base.e;
    && L.InTable(s.mem, e) && e < s.mem.next && (forall x | x in es :: x in s.mem.elists[e])
  }

  lemma {:induction false} NoPart(cfg: Config, es: EList, b: nat, j: nat)
    requires j != b && forall i | 0 <= i < |es| :: cfg.Slot(es[i].key, 1) == b
    ensures Part(cfg, es, 1, j) == []
  {
    if es != [] { NoPart(cfg, es[..|es| - 1], b, j); }
  }

  lemma PartsOfOneBucket(cfg: Config, es: EList, parts: seq<EList>, b: nat, j: nat)
    requires L.PartsOK(cfg, es, 1, parts) && j < |parts| && b < |parts| && j != b && es != []
    requires forall i | 0 <= i < |es| :: cfg.Slot(es[i].key, 1) == b
    ensures parts[j] == [] && parts[b] != [] && forall x | x in es :: x in parts[b]
  {
    NoPart(cfg, es, b, j);
    PartMembers(cfg, es, 1, b);
    assert es[0] in es && es[0] in parts[b];
  }

  lemma Switches(cfg: Config, s: L.State, b: nat, e: nat, parts: seq<EList>, k: Key, v: Value) returns (s': L.State)
    requires Scene(cfg, s, b, Bucket(ERef(e), ELocked), L.Switching(InsertAt(k, v), e, parts)) && cfg.Slot(k, 1) == b
    ensures L.Enabled(cfg, s, L.Next(0)) && s' == L.Step(cfg, s, L.Next(0))
    ensures s'.mem == L.Install(s.mem, 0, b, e, parts)
    ensures s'.threads == map[0 := L.Unlocking(InsertAt(k, v), PUnlocked, None), 1 := L.Idle]
  {
    hide L.Install;
    s' := L.Step(cfg, s, L.Next(0));
  }

  lemma InstalledRoot(m: L.Mem, b: nat, e: nat, parts: seq<EList>)
    requires L.Has(m, 0, b) && 0 < m.next
    ensures var m' := L.Install(m, 0, b, e, parts);
      && m'.root == m.root && L.Has(m', 0, b) && |m'.plists[0]| == |m.plists[0]| && 0 < m'.next
      && m'.plists[0][b] == Bucket(PRef(m.next), m.plists[0][b].lock)
  {}

  lemma InstalledLists(m: L.Mem, b: nat, j: nat, e: nat, parts: seq<EList>)
    requires L.Has(m, 0, b) && 0 < m.next && j < |parts| && b < |parts| && parts[j] == [] && parts[b] != []
    ensures var m', q := L.Install(m, 0, b, e, parts), m.next;
      && L.Has(m', q, j) && L.Has(m', q, b) && m'.plists[q][j] == Bucket(Null, EUnlocked)
      && m'.plists[q][b].base == ERef(q + 1 + b) && L.InTable(m', q + 1 + b) && q + 1 + b < m'.next
      && m'.elists[q + 1 + b] == parts[b]
  {
    assert L.Fresh(m, parts, m.next + 1 + b);
  }

  lemma Install(cfg: Config, s: L.State, b: nat, j: nat, e: nat, es: EList, parts: seq<EList>, k: Key, v: Value)
    returns (s': L.State, q: nat)
    requires Scene(cfg, s, b, Bucket(ERef(e), ELocked), L.Switching(InsertAt(k, v), e, parts)) && cfg.Slot(k, 1) == b
    requires j < |parts| && b < |parts| && parts[j] == [] && parts[b] != [] && forall x | x in es :: x in parts[b]
    ensures L.Enabled(cfg, s, L.Next(0)) && s' == L.Step(cfg, s, L.Next(0)) && q > 0
    ensures Scene(cfg, s', b, Bucket(PRef(q), ELocked), L.Unlocking(InsertAt(k, v), PUnlocked, None))
    ensures Rehashed(cfg, s', q, b, j, es)
  {
    hide L.Install; hide L.Step; hide L.Enabled;
    q := s.mem.next;
    s' := Switches(cfg, s, b, e, parts, k, v);
    InstalledRoot(s.mem, b, e, parts);
    InstalledLists(s.mem, b, j, e, parts);
  }

  lemma InstallAndUnlock(cfg: Config, s: L.State, b: nat, j: nat, e: nat, es: EList, parts: seq<EList>, k: Key, v: Value)
    returns (acts: seq<L.Action>, s': L.State, q: nat)
    requires Scene(cfg, s, b, Bucket(ERef(e), ELocked), L.Switching(InsertAt(k, v), e, parts)) && cfg.Slot(k, 1) == b
    requires j < |parts| && b < |parts| && parts[j] == [] && parts[b] != [] && forall x | x in es :: x in parts[b]
    ensures Leads(cfg, s, acts, s') && q > 0 && Rehashed(cfg, s', q, b, j, es)
    ensures Scene(cfg, s', b, Bucket(PRef(q), PUnlocked), L.Seeking(InsertAt(k, v)))
  {
    var s1;
    s1, q := Install(cfg, s, b, j, e, es, parts, k, v);
    hide L.Step; hide L.Enabled; hide Scene;
    One(cfg, s, L.Next(0));
    var a2;
    a2, s' := Unlock(cfg, s1, b, PRef(q), PUnlocked, k, v, None);
    LeadsOn(cfg, s, [L.Next(0)], s1, a2, s');
    acts := [L.Next(0)] + a2;
  }

  /** The insert that finds its list full rehashes it. */
  lemma Split(cfg: Config, s: L.State, b: nat, j: nat, e: nat, es: EList, k: Key, v: Value)
    returns (acts: seq<L.Action>, s': L.State, q: nat)
    requires L.ValidLocal(cfg) && Scene(cfg, s, b, Bucket(ERef(e), EUnlocked), L.Idle) && cfg.Slot(k, 1) == b
    requires Lists(s, e, es) && |es| == cfg.eSize && j < cfg.Size(2) && j != b
    requires forall i | 0 <= i < |es| :: es[i].key != k && cfg.Slot(es[i].key, 1) == b
    ensures Leads(cfg, s, acts, s') && q > 0 && Rehashed(cfg, s', q, b, j, es)
    ensures Scene(cfg, s', b, Bucket(PRef(q), PUnlocked), L.Seeking(InsertAt(k, v)))
  {
    hide Scene; hide Lists; hide Rehashed; hide Leads;
    assert cfg.Slot(k, 1) < cfg.Size(1) && cfg.Size(2) == 2 * cfg.Size(1);
    var a1, s1 := Scanned(cfg, s, b, e, es, k, v);
    var a2, s2, parts := Rehash(cfg, s1, b, e, es, k, v);
    PartsOfOneBucket(cfg, es, parts, b, j);
    hide L.PartsOK;
    var a3;
    a3, s', q := InstallAndUnlock(cfg, s2, b, j, e, es, parts, k, v);
    LeadsOn(cfg, s, a1, s1, a2, s2);
    LeadsOn(cfg, s, a1 + a2, s2, a3, s');
    acts := a1 + a2 + a3;
  }

  // ---------- Thread 1 looks the key up ----------

  /** Thread 1 descends to the new PList, finds a null pointer in its bucket there, and answers that the key is absent. */
  lemma Misses(cfg: Config, s: L.State, q: nat, b: nat, j: nat, es: EList, k: Key, v: Value, pc: L.Pc)
    returns (acts: seq<L.Action>, s': L.State)
    requires cfg.Slot(k, 1) == b && cfg.Slot(k, 2) == j && j != b && q > 0 && Pair(k, v) in es
    requires Scene(cfg, s, b, Bucket(PRef(q), PUnlocked), pc) && Rehashed(cfg, s, q, b, j, es)
    ensures Leads(cfg, s, acts, s') && 1 in s'.threads
    ensures s'.threads[1] == L.Unlocking(L.Pos(Contains(k), q, 2), EUnlocked, None)
    ensures exists e: nat :: L.InTable(s'.mem, e) && e < s'.mem.next && Pair(k, v) in s'.mem.elists[e]
  {
    var a := L.Begin(1, Contains(k));
    var s1 := L.Step(cfg, s, a);
    One(cfg, s, a);
    var s2 := L.Step(cfg, s1, L.Next(1));
    More(cfg, s, [a], s1, L.Next(1));
    var s3 := L.Step(cfg, s2, L.Next(1));
    More(cfg, s, [a] + [L.Next(1)], s2, L.Next(1));
    assert s3.threads[1] == L.Seeking(L.Pos(Contains(k), q, 2)) && s3.mem == s.mem;
    var s4 := L.Step(cfg, s3, L.Next(1));
    More(cfg, s, [a] + [L.Next(1)] + [L.Next(1)], s3, L.Next(1));
    s' := L.Step(cfg, s4, L.Next(1));
    More(cfg, s, [a] + [L.Next(1)] + [L.Next(1)] + [L.Next(1)], s4, L.Next(1));
    acts := [a] + [L.Next(1)] + [L.Next(1)] + [L.Next(1)] + [L.Next(1)];
    var e := s.mem.plists[q][b].base.e;
    assert L.InTable(s'.mem, e) && Pair(k, v) in s'.mem.elists[e];
  }

  // ---------- Main results ----------

  lemma {:induction false} TotalHolds(m: L.Mem, e: nat, x: Pair, n: nat)
    requires L.InTable(m, e) && e < n && x in m.elists[e]
    ensures x in L.Total(m, n)
  {
    if e < n - 1 { TotalHolds(m, e, x, n - 1); }
  }

  /** The table at the start, with two threads. */
  function Start(cfg: Config): L.State {
    L.State(L.Mem(0, map[0 := seq(cfg.pSize, _ => Bucket(Null, EUnlocked))], map[], {}, map[], 1), map[0 := L.Idle, 1 := L.Idle])
  }

  /** One key too many for a bucket makes the table forget a key: after the rehash a lookup of the first key, which
      nobody has removed and which is in the table still, answers that it is absent, if the first key has a
      different bucket on the next level. */
  lemma RehashLosesAKey(cfg: Config, keys: seq<Key>, v: Value) returns (r: seq<L.State>, acts: seq<L.Action>)
    requires L.ValidLocal(cfg) && |keys| == cfg.eSize + 1 && Together(cfg, keys, cfg.Slot(keys[0], 1))
    requires cfg.Slot(keys[0], 2) != cfg.Slot(keys[0], 1)
    ensures L.IsRun(cfg, r, acts) && forall i | 0 <= i < |acts| :: !Removes(acts[i])
    ensures var s := r[|acts|];
      && Pair(keys[0], v) in L.Contents(s.mem) && 1 in s.threads && s.threads[1].Unlocking?
      && s.threads[1].pos.op == Contains(keys[0]) && s.threads[1].result == None
  {
    var s0, n, b := Start(cfg), cfg.eSize, cfg.Slot(keys[0], 1);
    assert b < cfg.Size(1) && cfg.Slot(keys[0], 2) < cfg.Size(2);
    var a1, s1, e := Fill(cfg, s0, b, keys, v, n);
    var es := Pairs(keys[..n], v);
    var a2, s2, q := Split(cfg, s1, b, cfg.Slot(keys[0], 2), e, es, keys[n], v);
    assert es[0] == Pair(keys[0], v);
    hide Scene; hide Rehashed; hide Leads; hide Lists; hide L.ValidLocal;
    var a3, s3 := Misses(cfg, s2, q, b, cfg.Slot(keys[0], 2), es, keys[0], v, L.Seeking(InsertAt(keys[n], v)));
    LeadsOn(cfg, s0, a1, s1, a2, s2);
    LeadsOn(cfg, s0, a1 + a2, s2, a3, s3);
    acts := a1 + a2 + a3;
    r := Trace(cfg, s0, acts, s3);
    var f: nat :| L.InTable(s3.mem, f) && f < s3.mem.next && Pair(keys[0], v) in s3.mem.elists[f];
    TotalHolds(s3.mem, f, Pair(keys[0], v), s3.mem.next);
  }

  // ---------- The hash of the source ----------

  /** `level_hash` of this table, over any numbering of the keys: here the modulus is the whole count. */
  function SourceHash(num: Key -> bv64): (Key, nat, nat) -> nat {
    (k, level, count) => if count == 0 then 0 else LevelHash.Mixed(num(k), LevelHash.Word(level)) as nat % count
  }

  /** The sizes that the two-sided map gives the table. */
  function SourceConfig(num: Key -> bv64): Config { L.LocalConfig(8, 64, SourceHash(num)) }

  lemma SourceConfigValid(num: Key -> bv64)
    ensures L.ValidLocal(SourceConfig(num))
  {
    hide LevelHash.Mixed; hide LevelHash.Word;
    var cfg := SourceConfig(num);
    forall k, depth: nat {:trigger cfg.Slot(k, depth)} ensures cfg.Slot(k, depth) < cfg.Size(depth) {
      SizeGrows(cfg, depth);
    }
  }

  const Number := (k: Key) => LevelHash.Number(k)

  /** Nine keys of bucket 0 of the root. */
  const NINE: seq<Key> := [2, 168, 209, 279, 301, 362, 420, 466, 484]
  const NUMBERS: seq<bv64> := [2, 168, 209, 279, 301, 362, 420, 466, 484]

  lemma NineNumbers()
    ensures LevelHash.Number(2) == 2 && LevelHash.Number(168) == 168 && LevelHash.Number(209) == 209
    ensures LevelHash.Number(279) == 279 && LevelHash.Number(301) == 301 && LevelHash.Number(362) == 362
    ensures LevelHash.Number(420) == 420 && LevelHash.Number(466) == 466 && LevelHash.Number(484) == 484
  {}

  function RootBucket(num: bv64): nat { LevelHash.Mixed(num, 2) as nat % 64 }

  lemma NineBuckets()
    ensures RootBucket(2) == 0 && RootBucket(168) == 0 && RootBucket(209) == 0 && RootBucket(279) == 0 && RootBucket(301) == 0
    ensures RootBucket(362) == 0 && RootBucket(420) == 0 && RootBucket(466) == 0 && RootBucket(484) == 0
  {}

  lemma NextBucket()
    ensures LevelHash.Mixed(2, 3) as nat % 128 == 44
  {}

  /** All nine keys are looked up in bucket 0 first, and key 2 in bucket 44 of the next level. */
  lemma NineSlots(i: nat)
    requires i < 9
    ensures SourceConfig(Number).Slot(NINE[i], 1) == 0 && SourceConfig(Number).Slot(2, 2) == 44
  {
    NineNumbers();
    NineBuckets();
    NextBucket();
    LevelHash.Levels();
    hide LevelHash.Mixed; hide LevelHash.Word; hide LevelHash.Number;
    assert LevelHash.Number(NINE[i]) == NUMBERS[i];
    assert SourceConfig(Number).Size(1) == 64 && SourceConfig(Number).Size(2) == 128;
  }

  /** With the source's sizes and hash, inserting these nine keys makes the table forget key 2. */
  lemma SourceForgetsKey2(v: Value) returns (r: seq<L.State>, acts: seq<L.Action>)
    ensures L.IsRun(SourceConfig(Number), r, acts) && forall i | 0 <= i < |acts| :: !Removes(acts[i])
    ensures var s := r[|acts|];
      && Pair(2, v) in L.Contents(s.mem) && 1 in s.threads && s.threads[1].Unlocking?
      && s.threads[1].pos.op == Contains(2) && s.threads[1].result == None
  {
    var cfg := SourceConfig(Number);
    SourceConfigValid(Number);
    hide LevelHash.Mixed; hide LevelHash.Word; hide LevelHash.Number; hide L.Contents; hide L.IsRun; hide SourceConfig;
    hide Config.Slot; hide L.ValidLocal; hide Removes;
    forall i | 0 <= i < 9 ensures cfg.Slot(NINE[i], 1) == 0 && cfg.Slot(2, 2) == 44 { NineSlots(i); }
    SourceSize();
    r, acts := RehashLosesAKey(cfg, NINE, v);
  }

  lemma SourceSize()
    ensures SourceConfig(Number).eSize == 8
  {}
}
