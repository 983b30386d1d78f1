/** Two runs of the concurrent table in which a key is lost although its insert succeeded and nobody removed it. */
module IhtLostKeys {
  import opened Linearizability
  import opened IhtHeap
  import opened IhtUpdates
  import opened IhtCache
  import opened IhtConcurrent
  import opened IhtOrder
  import opened IhtLinearizable

  // ---------- Runs in pieces ----------

  /** If an insert overwrites a list, the list is empty. */
  predicate Mild(cfg: Config, s: State, a: Action) {
    SetsPointer(cfg, s, a) ==>
      var base := s.heap.plists[s.clients[a.c].pc.pos.p][BucketOf(cfg, s.clients[a.c].pc.pos)].base;
      base.Null? || (base.ERef? && base.e in s.heap.elists && s.heap.elists[base.e] == [])
  }

  /** The actions lead from `s` to `s'`, by mild steps if asked for. */
  ghost predicate Leads(cfg: Config, mild: bool, s: State, acts: seq<Action>, s': State)
    decreases |acts|
  {
    if acts == [] then s' == s
    else Enabled(cfg, s, acts[0]) && (mild ==> Mild(cfg, s, acts[0])) && Leads(cfg, mild, Step(cfg, s, acts[0]), acts[1..], s')
  }

  lemma {:induction false} LeadsOn(cfg: Config, mild: bool, s: State, acts: seq<Action>, s': State, acts': seq<Action>, s'': State)
    requires Leads(cfg, mild, s, acts, s') && Leads(cfg, mild, s', acts', s'')
    ensures Leads(cfg, mild, s, acts + acts', s'')
    decreases |acts|
  {
    if acts == [] {
      assert acts + acts' == acts';
    } else {
      LeadsOn(cfg, mild, Step(cfg, s, acts[0]), acts[1..], s', acts', s'');
      assert (acts + acts')[1..] == acts[1..] + acts';
    }
  }

  /** All states on the way. */
  lemma {:induction false} Trace(cfg: Config, mild: bool, s: State, acts: seq<Action>, s': State) returns (t: seq<State>)
    requires Leads(cfg, mild, s, acts, s')
    ensures |t| == |acts| + 1 && t[0] == s && t[|acts|] == s'
    ensures forall i | 0 <= i < |acts| :: Enabled(cfg, t[i], acts[i]) && t[i + 1] == Step(cfg, t[i], acts[i])
    ensures mild ==> forall i | 0 <= i < |acts| :: Mild(cfg, t[i], acts[i])
    decreases |acts|
  {
    t := [s];
    if acts != [] {
      var rest := Trace(cfg, mild, Step(cfg, s, acts[0]), acts[1..], s');
      t := [s] + rest;
      forall i | 0 <= i < |acts|
        ensures Enabled(cfg, t[i], acts[i]) && t[i + 1] == Step(cfg, t[i], acts[i]) && (mild ==> Mild(cfg, t[i], acts[i]))
      {
        if i > 0 { assert t[i] == rest[i - 1] && acts[i] == acts[1..][i - 1] && t[i + 1] == rest[i]; }
      }
    }
  }

  // ---------- What a piece adds to the history ----------

  ghost predicate Later(h: seq<Event>, h': seq<Event>) {
    |h| <= |h'| && forall j | 0 <= j < |h| :: h'[j] == h[j]
  }

  ghost predicate Silent(h: seq<Event>, h': seq<Event>) {
    Later(h, h') && forall j | |h| <= j < |h'| :: h'[j].Tau?
  }

  /** An invocation, then silence. */
  ghost predicate Invoked(h: seq<Event>, h': seq<Event>, op: Op) {
    Silent(h + [Inv(op)], h')
  }

  /** Silence, then a response. */
  ghost predicate Answers(h: seq<Event>, h': seq<Event>, id: nat, r: Option<Value>) {
    |h'| > 0 && Silent(h, h'[..|h'| - 1]) && h'[|h'| - 1] == Res(id, r)
  }

  ghost predicate NeverRemoved(h: seq<Event>, k: Key) {
    forall j | 0 <= j < |h| :: h[j] != Inv(Remove(k))
  }

  /** In a linear order without removes of `k`, a key that is there stays there. */
  lemma {:induction false} StaysThere(lin: seq<LinPoint>, k: Key, i: nat, j: nat)
    requires i <= j <= |lin| && k in Replay(lin[..i])
    requires forall n | 0 <= n < |lin| :: lin[n].op != Remove(k)
    ensures k in Replay(lin[..j])
  {
    if i < j {
      StaysThere(lin, k, i, j - 1);
      assert lin[..j][..j - 1] == lin[..j - 1] && lin[..j][j - 1] == lin[j - 1];
    }
  }

  /** A lookup that comes later in such an order finds the key. */
  lemma FoundLater(lin: seq<LinPoint>, k: Key, v: Value, i: nat, j: nat)
    requires i < j < |lin| && lin[i].op == Insert(k, v) && lin[j].op == Contains(k) && Legal(lin)
    requires forall n | 0 <= n < |lin| :: lin[n].op != Remove(k)
    ensures lin[j].result != None
  {
    assert lin[..i + 1][..i] == lin[..i];
    StaysThere(lin, k, i + 1, j);
    assert LegalAt(lin, j);
  }

  /** A history is not linearizable if a completed insert of a key that is never removed is followed by a lookup
      that misses the key. */
  lemma MissedKey(h: seq<Event>, k: Key, v: Value, a: nat, ra: nat, c: nat, rc: nat, r: Option<Value>)
    requires a < |h| && h[a] == Inv(Insert(k, v)) && ra < c < |h| && h[ra] == Res(a, r)
    requires h[c] == Inv(Contains(k)) && rc < |h| && h[rc] == Res(c, None) && NeverRemoved(h, k)
    ensures !Linearizable(h)
  {
    hide Legal; hide Replay;
    if lin: seq<LinPoint> :| IsLinearization(h, lin) {
      assert Answered(lin, h[ra].id, h[ra].result) && Answered(lin, h[rc].id, h[rc].result);
      var i :| 0 <= i < |lin| && lin[i].id == a && lin[i].result == r;
      var j :| 0 <= j < |lin| && lin[j].id == c && lin[j].result == None;
      assert i < j;
      FoundLater(lin, k, v, i, j);
    }
  }

  // ---------- Pieces of a run: one client, without a cache ----------

  ghost predicate Rooted(cfg: Config, s: State) {
    && s.heap.root in s.heap.plists && s.heap.root in s.heap.paths
    && |s.heap.plists[s.heap.root]| == cfg.Size(1)
  }

  ghost predicate Waits(s: State, c: nat) {
    c in s.clients && s.clients[c] == Client(Idle, 0, map[])
  }

  function At(cfg: Config, s: State, c: nat, pc: Pc): map<nat, Client> {
    s.clients[c := Client(pc, 0, map[])]
  }

  /** `curr` is the PList `p` as it is now. */
  ghost predicate Shows(h: Heap, p: nat, curr: seq<Snap>) {
    p in h.plists && |curr| == |h.plists[p]| && forall i | 0 <= i < |curr| :: curr[i].bk == h.plists[p][i]
  }

  lemma {:induction false} ReadOn(cfg: Config, mild: bool, s: State, c: nat)
    returns (acts: seq<Action>, s': State, curr: seq<Snap>)
    requires c in s.clients && s.clients[c].pc.Reading? && s.clients[c].cacheDepth == 0 && s.clients[c].cache == map[]
    requires var pc := s.clients[c].pc;
      && pc.pos.p in s.heap.plists && |s.heap.plists[pc.pos.p]| == cfg.Size(pc.pos.depth) && |pc.got| <= cfg.Size(pc.pos.depth)
      && forall i | 0 <= i < |pc.got| :: pc.got[i].bk == s.heap.plists[pc.pos.p][i]
    ensures Leads(cfg, mild, s, acts, s') && Shows(s.heap, s.clients[c].pc.pos.p, curr)
    ensures s'.heap == s.heap && s'.unlocks == s.unlocks && Silent(s.history, s'.history)
    ensures s'.clients == At(cfg, s, c, Descending(s.clients[c].pc.pos, curr))
    decreases cfg.Size(s.clients[c].pc.pos.depth) - |s.clients[c].pc.got|
  {
    var pc := s.clients[c].pc;
    if |pc.got| == cfg.Size(pc.pos.depth) {
      curr := pc.got;
      acts, s' := [By(c, FinishRead)], Step(cfg, s, By(c, FinishRead));
      assert Leads(cfg, mild, s', acts[1..], s');
    } else {
      var s1 := Step(cfg, s, By(c, ReadBucket));
      var rest;
      rest, s', curr := ReadOn(cfg, mild, s1, c);
      acts := [By(c, ReadBucket)] + rest;
      assert acts[1..] == rest;
    }
  }

  lemma Prepend(cfg: Config, mild: bool, s: State, a: Action, acts: seq<Action>, s': State)
    requires Enabled(cfg, s, a) && (mild ==> Mild(cfg, s, a)) && Leads(cfg, mild, Step(cfg, s, a), acts, s')
    ensures Leads(cfg, mild, s, [a] + acts, s')
  {
    assert ([a] + acts)[1..] == acts;
  }

  /** A client begins an operation and reads the root. */
  lemma ReadRoot(cfg: Config, mild: bool, s: State, c: nat, op: Op) returns (acts: seq<Action>, s': State, curr: seq<Snap>)
    requires Rooted(cfg, s) && Waits(s, c)
    ensures Leads(cfg, mild, s, acts, s') && Shows(s.heap, s.heap.root, curr)
    ensures s'.heap == s.heap && s'.unlocks == s.unlocks && Invoked(s.history, s'.history, op)
    ensures s'.clients == At(cfg, s, c, Descending(Pos(|s.history|, op, s.heap.root, 1), curr))
  {
    var s1 := Step(cfg, s, By(c, Invoke(op)));
    var s2 := Step(cfg, s1, By(c, Begin));
    var rest;
    rest, s', curr := ReadOn(cfg, mild, s2, c);
    Prepend(cfg, mild, s1, By(c, Begin), rest, s');
    Prepend(cfg, mild, s, By(c, Invoke(op)), [By(c, Begin)] + rest, s');
    acts := [By(c, Invoke(op))] + ([By(c, Begin)] + rest);
  }

  /** Where a client stands that has read an open bucket of its key. */
  ghost predicate Stands(cfg: Config, s: State, c: nat, pos: Pos, curr: seq<Snap>) {
    && c in s.clients && s.clients[c] == Client(Descending(pos, curr), 0, map[])
    && InTree(s.heap, pos.p, BucketOf(cfg, pos)) && BucketOf(cfg, pos) < |curr|
    && !Current(cfg, pos, curr).lock.PUnlocked?
    && s.heap.plists[pos.p][BucketOf(cfg, pos)].lock.EUnlocked?
    && (pos.p, BucketOf(cfg, pos)) !in s.unlocks
  }

  ghost predicate Done(cfg: Config, s: State, s': State, c: nat, pos: Pos, r: Option<Value>) {
    s'.unlocks == s.unlocks && s'.clients == At(cfg, s, c, Idle) && Answers(s.history, s'.history, pos.id, r)
  }

  /** The client unlocks, the write lands, and the answer is returned. */
  lemma Leave(cfg: Config, mild: bool, s: State, c: nat, pos: Pos, curr: seq<Snap>, r: Option<Value>)
    returns (acts: seq<Action>, s': State)
    requires c in s.clients && s.clients[c] == Client(Unlocking(pos, curr, Some(r)), 0, map[])
    requires InTree(s.heap, pos.p, BucketOf(cfg, pos)) && (pos.p, BucketOf(cfg, pos)) !in s.unlocks
    ensures Leads(cfg, mild, s, acts, s') && Done(cfg, s, s', c, pos, r)
    ensures s'.heap == SetLock(s.heap, pos.p, BucketOf(cfg, pos), EUnlocked)
  {
    var b := BucketOf(cfg, pos);
    var s1 := Step(cfg, s, By(c, Unlock));
    var s2 := Step(cfg, s1, Land(pos.p, b));
    s' := Step(cfg, s2, By(c, Respond));
    assert s1.unlocks - {(pos.p, b)} == s.unlocks;
    assert s'.history == s.history + [Tau, Tau, Res(pos.id, r)];
    Prepend(cfg, mild, s2, By(c, Respond), [], s');
    Prepend(cfg, mild, s1, Land(pos.p, b), [By(c, Respond)] + [], s');
    Prepend(cfg, mild, s, By(c, Unlock), [Land(pos.p, b)] + ([By(c, Respond)] + []), s');
    acts := [By(c, Unlock)] + ([Land(pos.p, b)] + ([By(c, Respond)] + []));
  }

  /** An insert that read a null pointer sets it, whatever it is by now. */
  lemma SetPointer(cfg: Config, mild: bool, s: State, c: nat, pos: Pos, curr: seq<Snap>) returns (acts: seq<Action>, s': State)
    requires Stands(cfg, s, c, pos, curr) && Current(cfg, pos, curr).base.Null? && pos.op.Insert?
    requires var base := s.heap.plists[pos.p][BucketOf(cfg, pos)].base;
      mild ==> base.Null? || (base.ERef? && base.e in s.heap.elists && s.heap.elists[base.e] == [])
    ensures Leads(cfg, mild, s, acts, s') && Done(cfg, s, s', c, pos, None)
    ensures s'.heap == NewElist(s.heap, pos.p, BucketOf(cfg, pos), [Pair(pos.op.key, pos.op.val)])
  {
    var b := BucketOf(cfg, pos);
    var s1 := Step(cfg, s, By(c, TryLock));
    var s2 := Step(cfg, s1, By(c, Load));
    LockNewElistUnlock(s.heap, pos.p, b, [Pair(pos.op.key, pos.op.val)]);
    var rest;
    rest, s' := Leave(cfg, mild, s2, c, pos, curr, None);
    Prepend(cfg, mild, s1, By(c, Load), rest, s');
    Prepend(cfg, mild, s, By(c, TryLock), [By(c, Load)] + rest, s');
    acts := [By(c, TryLock)] + ([By(c, Load)] + rest);
    assert s2.history == s.history + [Tau, Tau];
  }

  /** A client locks its bucket and loads the EList that it read a pointer to, wherever the pointer is now. */
  lemma LockAndLoad(cfg: Config, mild: bool, s: State, c: nat, pos: Pos, curr: seq<Snap>, e: nat) returns (s': State)
    requires Stands(cfg, s, c, pos, curr) && Current(cfg, pos, curr).base == ERef(e) && e in s.heap.elists
    ensures forall acts, t :: Leads(cfg, mild, s', acts, t) ==> Leads(cfg, mild, s, [By(c, TryLock)] + ([By(c, Load)] + acts), t)
    ensures s'.unlocks == s.unlocks && s'.clients == At(cfg, s, c, Loaded(pos, curr, e, s.heap.elists[e]))
    ensures s'.heap == SetLock(s.heap, pos.p, BucketOf(cfg, pos), ELocked) && s'.history == s.history + [Tau, Tau]
  {
    var s1 := Step(cfg, s, By(c, TryLock));
    s' := Step(cfg, s1, By(c, Load));
    forall acts, t | Leads(cfg, mild, s', acts, t)
      ensures Leads(cfg, mild, s, [By(c, TryLock)] + ([By(c, Load)] + acts), t)
    {
      Prepend(cfg, mild, s1, By(c, Load), acts, t);
      Prepend(cfg, mild, s, By(c, TryLock), [By(c, Load)] + acts, t);
    }
  }

  lemma ApplyAndLeave(cfg: Config, mild: bool, s: State, c: nat, pos: Pos, curr: seq<Snap>, e: nat, es: EList)
    returns (acts: seq<Action>, s': State)
    requires c in s.clients && s.clients[c] == Client(Loaded(pos, curr, e, es), 0, map[])
    requires InTree(s.heap, pos.p, BucketOf(cfg, pos)) && BucketOf(cfg, pos) < |curr|
    requires (pos.p, BucketOf(cfg, pos)) !in s.unlocks && e in s.heap.elists && s.heap.elists[e] == es
    requires !MustRehash(cfg, pos.op, es)
    ensures Leads(cfg, mild, s, acts, s') && Done(cfg, s, s', c, pos, Find(es, pos.op.key))
    ensures s'.heap == SetLock(SetElist(s.heap, e, Written(pos.op, es)), pos.p, BucketOf(cfg, pos), EUnlocked)
  {
    hide Leads; hide Written; hide Find; hide MustRehash;
    var s1 := ApplyOnce(cfg, mild, s, c, pos, curr, e, es);
    var rest;
    rest, s' := Leave(cfg, mild, s1, c, pos, curr, Find(es, pos.op.key));
    Prepend(cfg, mild, s, By(c, Apply), rest, s');
    acts := [By(c, Apply)] + rest;
  }

  lemma ApplyOnce(cfg: Config, mild: bool, s: State, c: nat, pos: Pos, curr: seq<Snap>, e: nat, es: EList) returns (s': State)
    requires c in s.clients && s.clients[c] == Client(Loaded(pos, curr, e, es), 0, map[])
    requires InTree(s.heap, pos.p, BucketOf(cfg, pos)) && BucketOf(cfg, pos) < |curr|
    requires e in s.heap.elists && s.heap.elists[e] == es && !MustRehash(cfg, pos.op, es)
    ensures Enabled(cfg, s, By(c, Apply)) && s' == Step(cfg, s, By(c, Apply)) && (mild ==> Mild(cfg, s, By(c, Apply)))
    ensures s'.clients == At(cfg, s, c, Unlocking(pos, curr, Some(Find(es, pos.op.key)))) && s'.unlocks == s.unlocks
    ensures s'.heap == SetElist(s.heap, e, Written(pos.op, es)) && s'.history == s.history + [Tau]
  {
    hide Find; hide MustRehash; hide Written;
    s' := Step(cfg, s, By(c, Apply));
    assert SetElist(s.heap, e, es) == s.heap by { assert s.heap.elists[e := es] == s.heap.elists; }
  }

  /** An operation that read a pointer to an EList with room works on that EList. */
  lemma UseList(cfg: Config, mild: bool, s: State, c: nat, pos: Pos, curr: seq<Snap>, e: nat)
    returns (acts: seq<Action>, s': State)
    requires Stands(cfg, s, c, pos, curr) && Current(cfg, pos, curr).base == ERef(e) && e in s.heap.elists
    requires !MustRehash(cfg, pos.op, s.heap.elists[e])
    ensures Leads(cfg, mild, s, acts, s') && Done(cfg, s, s', c, pos, Find(s.heap.elists[e], pos.op.key))
    ensures s'.heap == SetElist(s.heap, e, Written(pos.op, s.heap.elists[e]))
  {
    hide Leads; hide MustRehash; hide Written;
    var es := s.heap.elists[e];
    var s1 := LockAndLoad(cfg, mild, s, c, pos, curr, e);
    var rest;
    rest, s' := ApplyAndLeave(cfg, mild, s1, c, pos, curr, e, es);
    acts := [By(c, TryLock)] + ([By(c, Load)] + rest);
    LockSetElistUnlock(s.heap, pos.p, BucketOf(cfg, pos), e, Written(pos.op, es));
  }

  // ---------- Whole operations, seen from the root ----------

  /** The clients with their program counters, no unlocking write on its way, and one bucket of the root. */
  ghost predicate Scene(cfg: Config, s: State, pcs: map<nat, Pc>, b: nat, base: Base) {
    && s.clients == (map c | c in pcs :: Client(pcs[c], 0, map[])) && s.unlocks == map[]
    && s.heap.root == 0 && InTree(s.heap, 0, b) && |s.heap.plists[0]| == cfg.Size(1)
    && s.heap.plists[0][b] == Bucket(base, EUnlocked)
  }

  /** A client has read `base` in that bucket for its operation. */
  ghost predicate Saw(cfg: Config, pc: Pc, id: nat, op: Op, b: nat, base: Base) {
    && pc.Descending? && pc.pos == Pos(id, op, 0, 1) && cfg.Slot(op.key, 1) == b < |pc.curr|
    && pc.curr[b].bk == Bucket(base, EUnlocked)
  }

  lemma Reads(cfg: Config, mild: bool, s: State, pcs: map<nat, Pc>, b: nat, base: Base, c: nat, op: Op)
    returns (acts: seq<Action>, s': State, pc: Pc)
    requires Scene(cfg, s, pcs, b, base) && c in pcs && pcs[c].Idle? && cfg.Slot(op.key, 1) == b
    ensures Leads(cfg, mild, s, acts, s') && Scene(cfg, s', pcs[c := pc], b, base) && Saw(cfg, pc, |s.history|, op, b, base)
    ensures s'.heap == s.heap && Invoked(s.history, s'.history, op)
  {
    hide Leads; hide Invoked;
    var curr;
    acts, s', curr := ReadRoot(cfg, mild, s, c, op);
    pc := Descending(Pos(|s.history|, op, 0, 1), curr);
  }

  lemma Sets(cfg: Config, mild: bool, s: State, pcs: map<nat, Pc>, b: nat, base: Base, c: nat, id: nat, op: Op)
    returns (acts: seq<Action>, s': State)
    requires Scene(cfg, s, pcs, b, base) && c in pcs && Saw(cfg, pcs[c], id, op, b, Null) && op.Insert?
    requires mild ==> base.Null? || (base.ERef? && base.e in s.heap.elists && s.heap.elists[base.e] == [])
    ensures Leads(cfg, mild, s, acts, s') && Scene(cfg, s', pcs[c := Idle], b, ERef(s.heap.next))
    ensures s'.heap.elists == s.heap.elists[s.heap.next := [Pair(op.key, op.val)]] && s'.heap.next == s.heap.next + 1
    ensures Answers(s.history, s'.history, id, None)
  {
    hide Leads; hide Answers;
    acts, s' := SetPointer(cfg, mild, s, c, pcs[c].pos, pcs[c].curr);
  }

  lemma Uses(cfg: Config, mild: bool, s: State, pcs: map<nat, Pc>, b: nat, base: Base, c: nat, id: nat, op: Op, e: nat)
    returns (acts: seq<Action>, s': State)
    requires Scene(cfg, s, pcs, b, base) && c in pcs && Saw(cfg, pcs[c], id, op, b, ERef(e)) && e in s.heap.elists
    requires !MustRehash(cfg, op, s.heap.elists[e])
    ensures Leads(cfg, mild, s, acts, s') && Scene(cfg, s', pcs[c := Idle], b, base)
    ensures s'.heap.elists == s.heap.elists[e := Written(op, s.heap.elists[e])] && s'.heap.next == s.heap.next
    ensures Answers(s.history, s'.history, id, Find(s.heap.elists[e], op.key))
  {
    hide Leads; hide Answers; hide MustRehash; hide Written;
    acts, s' := UseList(cfg, mild, s, c, pcs[c].pos, pcs[c].curr, e);
  }

  // ---------- Main results ----------

  /** An operation from invocation to response. */
  ghost predicate Ran(h: seq<Event>, h': seq<Event>, op: Op, r: Option<Value>) {
    exists h1 :: Invoked(h, h1, op) && Answers(h1, h', |h|, r)
  }

  lemma InvokedAt(h: seq<Event>, h': seq<Event>, op: Op)
    requires Invoked(h, h', op)
    ensures Later(h, h') && |h| < |h'| && h'[|h|] == Inv(op)
    ensures forall k | NeverRemoved(h, k) && op != Remove(k) :: NeverRemoved(h', k)
  {
    assert forall j | 0 <= j < |h| + 1 :: h'[j] == (h + [Inv(op)])[j];
  }

  lemma AnsweredAt(h: seq<Event>, h': seq<Event>, id: nat, r: Option<Value>)
    requires Answers(h, h', id, r)
    ensures Later(h, h') && |h| < |h'| && h'[|h'| - 1] == Res(id, r)
    ensures forall k | NeverRemoved(h, k) :: NeverRemoved(h', k)
  {
    assert forall j | 0 <= j < |h'| - 1 :: h'[j] == h'[..|h'| - 1][j];
  }

  lemma RanAt(h: seq<Event>, h': seq<Event>, op: Op, r: Option<Value>)
    requires Ran(h, h', op, r)
    ensures Later(h, h') && |h| < |h'| && h'[|h|] == Inv(op) && h'[|h'| - 1] == Res(|h|, r)
    ensures forall k | NeverRemoved(h, k) && op != Remove(k) :: NeverRemoved(h', k)
  {
    var h1 :| Invoked(h, h1, op) && Answers(h1, h', |h|, r);
    InvokedAt(h, h1, op);
    AnsweredAt(h1, h', |h|, r);
  }

  /** The table at the start, with two clients. */
  function Start(cfg: Config, c0: nat, c1: nat): State {
    State(InitHeap(cfg), map[c0 := Client(Idle, 0, map[]), c1 := Client(Idle, 0, map[])], map[], [])
  }

  lemma StartScene(cfg: Config, c0: nat, c1: nat, b: nat)
    requires cfg.Valid() && b < cfg.pSize
    ensures Init(cfg, Start(cfg, c0, c1)) && Scene(cfg, Start(cfg, c0, c1), map[c0 := Idle, c1 := Idle], b, Null)
  {
    var pcs: map<nat, Pc> := map[c0 := Idle, c1 := Idle];
    assert Start(cfg, c0, c1).clients == (map c | c in pcs :: Client(pcs[c], 0, map[]));
  }

  /** A client inserts a key while another one stays where it is. */
  lemma Inserts(cfg: Config, mild: bool, s: State, pcs: map<nat, Pc>, b: nat, c: nat, op: Op)
    returns (acts: seq<Action>, s': State)
    requires Scene(cfg, s, pcs, b, Null) && c in pcs && pcs[c].Idle? && op.Insert? && cfg.Slot(op.key, 1) == b
    ensures Leads(cfg, mild, s, acts, s') && Scene(cfg, s', pcs, b, ERef(s.heap.next))
    ensures s'.heap.elists == s.heap.elists[s.heap.next := [Pair(op.key, op.val)]] && s'.heap.next == s.heap.next + 1
    ensures Ran(s.history, s'.history, op, None)
  {
    hide Leads; hide Answers; hide Invoked; hide Scene; hide Saw;
    var a1, s1, pc := Reads(cfg, mild, s, pcs, b, Null, c, op);
    var a2;
    a2, s' := Sets(cfg, mild, s1, pcs[c := pc], b, Null, c, |s.history|, op);
    LeadsOn(cfg, mild, s, a1, s1, a2, s');
    acts := a1 + a2;
    assert pcs[c := pc][c := Idle] == pcs;
  }

  /** A client looks up or removes a key, reading and using the list that the pointer of the bucket refers to. */
  lemma Works(cfg: Config, mild: bool, s: State, pcs: map<nat, Pc>, b: nat, c: nat, op: Op, e: nat)
    returns (acts: seq<Action>, s': State)
    requires Scene(cfg, s, pcs, b, ERef(e)) && c in pcs && pcs[c].Idle? && !op.Insert? && cfg.Slot(op.key, 1) == b
    requires e in s.heap.elists
    ensures Leads(cfg, mild, s, acts, s') && Scene(cfg, s', pcs, b, ERef(e))
    ensures s'.heap.elists == s.heap.elists[e := Written(op, s.heap.elists[e])] && s'.heap.next == s.heap.next
    ensures Ran(s.history, s'.history, op, Find(s.heap.elists[e], op.key))
  {
    hide Leads; hide Answers; hide Invoked; hide Scene; hide Saw; hide Written;
    var a1, s1, pc := Reads(cfg, mild, s, pcs, b, ERef(e), c, op);
    var a2;
    a2, s' := Uses(cfg, mild, s1, pcs[c := pc], b, ERef(e), c, |s.history|, op, e);
    LeadsOn(cfg, mild, s, a1, s1, a2, s');
    acts := a1 + a2;
    assert pcs[c := pc][c := Idle] == pcs;
  }

  lemma OverwrittenHistory(h0: seq<Event>, h1: seq<Event>, h2: seq<Event>, h3: seq<Event>, h4: seq<Event>, k: Key, v: Value, op: Op)
    requires h0 == [] && Invoked(h0, h1, op) && op.Insert? && Ran(h1, h2, Insert(k, v), None) && Answers(h2, h3, |h0|, None)
    requires Ran(h3, h4, Contains(k), None)
    ensures NeverRemoved(h4, k) && !Linearizable(h4)
  {
    InvokedAt(h0, h1, op); RanAt(h1, h2, Insert(k, v), None); AnsweredAt(h2, h3, |h0|, None); RanAt(h3, h4, Contains(k), None);
    hide NeverRemoved; hide Ran; hide Invoked; hide Answers;
    MissedKey(h4, k, v, |h1|, |h2| - 1, |h3|, |h4| - 1, None);
  }

  /** Two clients read the same null pointer and insert different keys, one after the other: the first key is gone
      although its insert succeeded, and the next lookup of it shows that the history is not linearizable. */
  lemma TwoInsertersLoseAKey(cfg: Config, c0: nat, c1: nat, k: Key, v: Value, k': Key, v': Value)
    returns (t: seq<State>, acts: seq<Action>)
    requires cfg.Valid() && c0 != c1 && k != k' && cfg.Slot(k, 1) == cfg.Slot(k', 1)
    ensures IsRun(cfg, t, acts) && t[0].clients.Keys == {c0, c1}
    ensures NeverRemoved(t[|acts|].history, k) && !Linearizable(t[|acts|].history)
  {
    var s0, b := Start(cfg, c0, c1), cfg.Slot(k, 1);
    SlotInRange(cfg, k, 1);
    StartScene(cfg, c0, c1, b);
    assert s0.history == [] && s0.clients.Keys == {c0, c1};
    hide Leads; hide Invoked; hide Answers; hide NeverRemoved; hide Scene; hide Saw; hide Init; hide Start; hide Later;
    hide Ran; hide Linearizable; hide IsRun;
    var idle: map<nat, Pc> := map[c0 := Idle, c1 := Idle];
    var a1, s1, pc := Reads(cfg, false, s0, idle, b, Null, c0, Insert(k', v'));
    var a2, s2 := Inserts(cfg, false, s1, idle[c0 := pc], b, c1, Insert(k, v));
    var a3, s3 := Sets(cfg, false, s2, idle[c0 := pc], b, ERef(s1.heap.next), c0, |s0.history|, Insert(k', v'));
    var a4, s4 := Works(cfg, false, s3, idle[c0 := pc][c0 := Idle], b, c1, Contains(k), s2.heap.next);
    LeadsOn(cfg, false, s0, a1, s1, a2, s2);
    LeadsOn(cfg, false, s0, a1 + a2, s2, a3, s3);
    LeadsOn(cfg, false, s0, a1 + a2 + a3, s3, a4, s4);
    acts := a1 + a2 + a3 + a4;
    t := Trace(cfg, false, s0, acts, s4);
    assert IsRun(cfg, t, acts) by { TraceIsRun(cfg, t, acts); }
    OverwrittenHistory(s0.history, s1.history, s2.history, s3.history, s4.history, k, v, Insert(k', v'));
  }

  lemma TraceIsRun(cfg: Config, t: seq<State>, acts: seq<Action>)
    requires |t| == |acts| + 1 && Init(cfg, t[0])
    requires forall i | 0 <= i < |acts| :: Enabled(cfg, t[i], acts[i]) && t[i + 1] == Step(cfg, t[i], acts[i])
    ensures IsRun(cfg, t, acts)
  {}

  lemma OrphanHistory(h: seq<seq<Event>>, k: Key, v: Value, op: Op)
    requires |h| == 8 && h[0] == [] && Invoked(h[0], h[1], op) && op.Insert? && Ran(h[1], h[2], op, None)
    requires Ran(h[2], h[3], Remove(op.key), Some(op.val)) && op.key != k && Invoked(h[3], h[4], Insert(k, v))
    requires Answers(h[4], h[5], |h[0]|, None) && Answers(h[5], h[6], |h[3]|, None) && Ran(h[6], h[7], Contains(k), None)
    ensures NeverRemoved(h[7], k) && !Linearizable(h[7])
  {
    InvokedAt(h[0], h[1], op); RanAt(h[1], h[2], op, None); RanAt(h[2], h[3], Remove(op.key), Some(op.val));
    InvokedAt(h[3], h[4], Insert(k, v)); AnsweredAt(h[4], h[5], |h[0]|, None); AnsweredAt(h[5], h[6], |h[3]|, None);
    RanAt(h[6], h[7], Contains(k), None);
    hide NeverRemoved; hide Ran; hide Invoked; hide Answers;
    MissedKey(h[7], k, v, |h[3]|, |h[6]| - 1, |h[6]|, |h[7]| - 1, None);
  }

  /** Client `c0` has read the null pointer; client `c1` has put a pair into the bucket and taken it out again. */
  lemma EmptiesList(cfg: Config, c0: nat, c1: nat, op: Op)
    returns (acts: seq<Action>, h: seq<seq<Event>>, s': State, pc: Pc, e: nat)
    requires cfg.Valid() && c0 != c1 && op.Insert?
    ensures cfg.Slot(op.key, 1) < cfg.pSize && Leads(cfg, true, Start(cfg, c0, c1), acts, s')
    ensures Scene(cfg, s', map[c0 := pc, c1 := Idle], cfg.Slot(op.key, 1), ERef(e)) && e in s'.heap.elists && s'.heap.elists[e] == []
    ensures |h| == 4 && h[0] == [] && h[3] == s'.history && e < s'.heap.next && Saw(cfg, pc, |h[0]|, op, cfg.Slot(op.key, 1), Null)
    ensures Invoked(h[0], h[1], op) && Ran(h[1], h[2], op, None) && Ran(h[2], h[3], Remove(op.key), Some(op.val))
  {
    var s0, b := Start(cfg, c0, c1), cfg.Slot(op.key, 1);
    SlotInRange(cfg, op.key, 1);
    StartScene(cfg, c0, c1, b);
    assert s0.history == [];
    hide Leads; hide Invoked; hide Answers; hide Scene; hide Saw; hide Init; hide Start; hide Later; hide Ran;
    var idle: map<nat, Pc> := map[c0 := Idle, c1 := Idle];
    var a1, s1, a2, s2, a3;
    a1, s1, pc := Reads(cfg, true, s0, idle, b, Null, c0, op);
    var pcs := idle[c0 := pc];
    assert pcs == map[c0 := pc, c1 := Idle];
    e := s1.heap.next;
    a2, s2 := Inserts(cfg, true, s1, pcs, b, c1, op);
    a3, s' := Works(cfg, true, s2, pcs, b, c1, Remove(op.key), e);
    assert Find([Pair(op.key, op.val)], op.key) == Some(op.val);
    LeadsOn(cfg, true, s0, a1, s1, a2, s2);
    LeadsOn(cfg, true, s0, a1 + a2, s2, a3, s');
    acts, h := a1 + a2 + a3, [s0.history, s1.history, s2.history, s'.history];
  }

  /** Then client `c1` reads the pointer to the list that it has emptied. */
  lemma ReadsEmptyList(cfg: Config, c0: nat, c1: nat, k: Key, v: Value, op: Op)
    returns (acts: seq<Action>, h: seq<seq<Event>>, s': State, pc: Pc, pc1: Pc, e: nat)
    requires cfg.Valid() && c0 != c1 && op.Insert? && op.key != k && cfg.Slot(k, 1) == cfg.Slot(op.key, 1)
    ensures cfg.Slot(k, 1) < cfg.pSize && Leads(cfg, true, Start(cfg, c0, c1), acts, s')
    ensures Scene(cfg, s', map[c0 := pc, c1 := pc1], cfg.Slot(k, 1), ERef(e)) && e in s'.heap.elists && s'.heap.elists[e] == []
    ensures |h| == 5 && h[0] == [] && h[4] == s'.history && e < s'.heap.next
    ensures Saw(cfg, pc, |h[0]|, op, cfg.Slot(k, 1), Null) && Saw(cfg, pc1, |h[3]|, Insert(k, v), cfg.Slot(k, 1), ERef(e))
    ensures Invoked(h[0], h[1], op) && Ran(h[1], h[2], op, None) && Ran(h[2], h[3], Remove(op.key), Some(op.val))
    ensures Invoked(h[3], h[4], Insert(k, v))
  {
    hide Leads; hide Invoked; hide Answers; hide Scene; hide Saw; hide Init; hide Start; hide Later; hide Ran;
    var a, h', s;
    a, h', s, pc, e := EmptiesList(cfg, c0, c1, op);
    var a';
    a', s', pc1 := Reads(cfg, true, s, map[c0 := pc, c1 := Idle], cfg.Slot(k, 1), ERef(e), c1, Insert(k, v));
    LeadsOn(cfg, true, Start(cfg, c0, c1), a, s, a', s');
    assert map[c0 := pc, c1 := Idle][c1 := pc1] == map[c0 := pc, c1 := pc1];
    acts, h := a + a', h' + [s'.history];
  }

  /** Client `c0` sets the pointer, client `c1` fills the orphan, and looks for its key. */
  lemma OrphanFills(cfg: Config, c0: nat, c1: nat, s: State, pc: Pc, pc1: Pc, e: nat, id: nat, op: Op, id1: nat, k: Key, v: Value)
    returns (acts: seq<Action>, h: seq<seq<Event>>, s': State)
    requires cfg.Valid() && c0 != c1 && op.Insert? && op.key != k && cfg.Slot(k, 1) == cfg.Slot(op.key, 1)
    requires Scene(cfg, s, map[c0 := pc, c1 := pc1], cfg.Slot(k, 1), ERef(e)) && e in s.heap.elists && s.heap.elists[e] == []
    requires Saw(cfg, pc, id, op, cfg.Slot(k, 1), Null) && Saw(cfg, pc1, id1, Insert(k, v), cfg.Slot(k, 1), ERef(e))
    requires e < s.heap.next
    ensures Leads(cfg, true, s, acts, s') && |h| == 2
    ensures Answers(s.history, h[0], id, None) && Answers(h[0], h[1], id1, None) && Ran(h[1], s'.history, Contains(k), None)
  {
    hide Leads; hide Invoked; hide Answers; hide Scene; hide Saw; hide Later; hide Ran;
    var b, e2 := cfg.Slot(k, 1), s.heap.next;
    var pcs: map<nat, Pc> := map[c0 := pc, c1 := pc1];
    var a1, s1 := Sets(cfg, true, s, pcs, b, ERef(e), c0, id, op);
    var a2, s2 := Uses(cfg, true, s1, pcs[c0 := Idle], b, ERef(e2), c1, id1, Insert(k, v), e);
    var a3;
    a3, s' := Works(cfg, true, s2, pcs[c0 := Idle][c1 := Idle], b, c1, Contains(k), e2);
    LeadsOn(cfg, true, s, a1, s1, a2, s2);
    LeadsOn(cfg, true, s, a1 + a2, s2, a3, s');
    acts, h := a1 + a2 + a3, [s1.history, s2.history];
  }

  /** Even if inserts overwrite empty lists only, a key can be lost: client `c1` reads a pointer to a list that is empty,
      client `c0`, which had read the null pointer before, sets the pointer to a list of its own, and client `c1` puts its
      key into the list that is now an orphan. */
  lemma OrphanLosesAKey(cfg: Config, c0: nat, c1: nat, k: Key, v: Value, k': Key, v': Value)
    returns (t: seq<State>, acts: seq<Action>)
    requires cfg.Valid() && c0 != c1 && k != k' && cfg.Slot(k, 1) == cfg.Slot(k', 1)
    ensures IsRun(cfg, t, acts) && t[0].clients.Keys == {c0, c1} && forall i | 0 <= i < |acts| :: Mild(cfg, t[i], acts[i])
    ensures NeverRemoved(t[|acts|].history, k) && !Linearizable(t[|acts|].history)
  {
    var op := Insert(k', v');
    var a, h, s, pc, pc1, e := ReadsEmptyList(cfg, c0, c1, k, v, op);
    var a', h', s' := OrphanFills(cfg, c0, c1, s, pc, pc1, e, |h[0]|, op, |h[3]|, k, v);
    StartScene(cfg, c0, c1, cfg.Slot(k, 1));
    hide Leads; hide Invoked; hide Answers; hide NeverRemoved; hide Scene; hide Saw; hide Init; hide Ran;
    LeadsOn(cfg, true, Start(cfg, c0, c1), a, s, a', s');
    acts := a + a';
    t := Trace(cfg, true, Start(cfg, c0, c1), acts, s');
    OrphanHistory(h + h' + [s'.history], k, v, op);
  }

  // ---------- How many clients may insert ----------

  /** Only these clients insert. */
  ghost predicate InsertersIn(t: seq<State>, ids: set<nat>) {
    forall i, c | 0 <= i < |t| && c in t[i].clients && Inserting(t[i].clients[c].pc) :: c in ids
  }

  lemma {:induction false} SameClients(cfg: Config, t: seq<State>, acts: seq<Action>, i: nat)
    requires IsRun(cfg, t, acts) && i < |t|
    ensures t[i].clients.Keys == t[0].clients.Keys
  {
    if i > 0 {
      SameClients(cfg, t, acts, i - 1);
      StepSameClients(cfg, t[i - 1], acts[i - 1]);
    }
  }

  lemma StepSameClients(cfg: Config, s: State, a: Action)
    requires Enabled(cfg, s, a)
    ensures Step(cfg, s, a).clients.Keys == s.clients.Keys
  {}

  /** Among as many keys as the root has buckets two share one, because the last bucket is never used. */
  lemma TwoKeysOfOneBucket(cfg: Config) returns (k: Key, k': Key)
    requires cfg.Valid()
    ensures k != k' && cfg.Slot(k, 1) == cfg.Slot(k', 1)
  {
    var buckets := seq(cfg.pSize, i => cfg.Slot(i, 1));
    forall i | 0 <= i < cfg.pSize ensures buckets[i] < cfg.pSize - 1 { SlotInRange(cfg, i, 1); }
    var i, j := Pigeons(buckets, cfg.pSize - 1);
    k, k' := i, j;
  }

  lemma {:induction false} Pigeons(f: seq<nat>, n: nat) returns (i: nat, j: nat)
    requires |f| > n && forall x | 0 <= x < |f| :: f[x] < n
    ensures i < j < |f| && f[i] == f[j]
    decreases n
  {
    // The values before the last, with the value n - 1 moved to where the last one is, if they avoid the last one's value.
    var last := f[|f| - 1];
    if i' :| 0 <= i' < |f| - 1 && f[i'] == last {
      i, j := i', |f| - 1;
    } else {
      var g := seq(|f| - 1, x requires 0 <= x < |f| - 1 => if f[x] == n - 1 then last else f[x]);
      i, j := Pigeons(g, n - 1);
    }
  }

  /** The table is linearizable in every run exactly when at most one client is allowed to insert. */
  lemma LinearizableIffOneInserter(cfg: Config, ids: set<nat>)
    requires cfg.Valid()
    ensures (forall t: seq<State>, acts: seq<Action> | IsRun(cfg, t, acts) && InsertersIn(t, ids) :: Linearizable(t[|acts|].history)) <==> |ids| <= 1
  {
    if |ids| <= 1 {
      forall t: seq<State>, acts: seq<Action> | IsRun(cfg, t, acts) && InsertersIn(t, ids) ensures Linearizable(t[|acts|].history) {
        AloneIsLinearizable(cfg, t, acts, ids);
      }
    } else {
      var t, acts := TooManyInserters(cfg, ids);
    }
  }

  lemma AtMostOne(ids: set<nat>, c: nat, c': nat)
    requires c in ids && c' in ids && |ids| <= 1
    ensures c == c'
  {
    assert |ids - {c}| == 0;
    assert c' !in ids - {c};
  }

  lemma AloneIsLinearizable(cfg: Config, t: seq<State>, acts: seq<Action>, ids: set<nat>)
    requires cfg.Valid() && IsRun(cfg, t, acts) && InsertersIn(t, ids) && |ids| <= 1
    ensures Linearizable(t[|acts|].history)
  {
    forall i | 0 <= i < |t| ensures OneInserter(t[i]) {
      forall c, c' | c in t[i].clients && c' in t[i].clients && Inserting(t[i].clients[c].pc) && Inserting(t[i].clients[c'].pc)
        ensures c == c'
      {
        AtMostOne(ids, c, c');
      }
    }
    OneInserterIsFresh(cfg, t, acts, |acts|);
  }

  lemma TooManyInserters(cfg: Config, ids: set<nat>) returns (t: seq<State>, acts: seq<Action>)
    requires cfg.Valid() && |ids| >= 2
    ensures IsRun(cfg, t, acts) && InsertersIn(t, ids) && !Linearizable(t[|acts|].history)
  {
    var c0 :| c0 in ids;
    assert |ids - {c0}| >= 1;
    var c1 :| c1 in ids - {c0};
    var k, k' := TwoKeysOfOneBucket(cfg);
    t, acts := TwoInsertersLoseAKey(cfg, c0, c1, k, 0, k', 0);
    forall i, c | 0 <= i < |t| && c in t[i].clients ensures c in ids { SameClients(cfg, t, acts, i); }
  }
}
