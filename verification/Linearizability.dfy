/** Histories of a concurrent map and what it means for one to be linearizable.

    A history has one event per step of the system. An operation is named by the index of
    its invocation event, so "before" and "after" are comparisons of indices.
 */
module Linearizability {
  type Key = int
  type Value = int

  datatype Option<+T> = None | Some(value: T)

  datatype Op = Contains(key: Key) | Insert(key: Key, val: Value) | Remove(key: Key)

  datatype Event = Inv(op: Op) | Res(id: nat, result: Option<Value>) | Tau

  /** A place in the linear order: which operation, what it returns, and the step at which it takes effect. */
  datatype LinPoint = LinPoint(id: nat, op: Op, result: Option<Value>, time: nat)

  // ---------- The sequential map ----------

  function Look(m: map<Key, Value>, k: Key): Option<Value> {
    if k in m then Some(m[k]) else None
  }

  /** `contains` returns the value, `insert` the value that stopped it, `remove` the value it removed. */
  function ResultOf(m: map<Key, Value>, op: Op): Option<Value> {
    match op
    case Contains(k) => Look(m, k)
    case Insert(k, _) => Look(m, k)
    case Remove(k) => Look(m, k)
  }

  /** `insert` never overwrites. */
  function Effect(m: map<Key, Value>, op: Op): map<Key, Value> {
    match op
    case Contains(_) => m
    case Insert(k, v) => if k in m then m else m[k := v]
    case Remove(k) => m - {k}
  }

  function Replay(lin: seq<LinPoint>): map<Key, Value> {
    if lin == [] then map[]
    else Effect(Replay(lin[..|lin| - 1]), lin[|lin| - 1].op)
  }

  predicate LegalAt(lin: seq<LinPoint>, i: nat)
    requires i < |lin|
  {
    lin[i].result == ResultOf(Replay(lin[..i]), lin[i].op)
  }

  ghost predicate Legal(lin: seq<LinPoint>) {
    forall i | 0 <= i < |lin| :: LegalAt(lin, i)
  }

  // ---------- Linearizability ----------

  ghost predicate Answered(lin: seq<LinPoint>, id: nat, result: Option<Value>) {
    exists i :: 0 <= i < |lin| && lin[i].id == id && lin[i].result == result
  }

  /** `lin` orders operations of `h`, each once and with its own arguments; replayed on the sequential map it
      gives every returned result; and an operation that returned before another was invoked comes first. */
  ghost predicate IsLinearization(h: seq<Event>, lin: seq<LinPoint>) {
    && (forall i | 0 <= i < |lin| :: lin[i].id < |h| && h[lin[i].id] == Inv(lin[i].op))
    && (forall i, j | 0 <= i < j < |lin| :: lin[i].id != lin[j].id)
    && Legal(lin)
    && (forall r | 0 <= r < |h| && h[r].Res? :: Answered(lin, h[r].id, h[r].result))
    && (forall i, j, r | 0 <= i < j < |lin| && 0 <= r < |h| && h[r].Res? && h[r].id == lin[j].id :: lin[i].id < r)
  }

  ghost predicate Linearizable(h: seq<Event>) {
    exists lin :: IsLinearization(h, lin)
  }

  // ---------- Linear orders kept sorted by time ----------

  ghost predicate Sorted(lin: seq<LinPoint>) {
    forall i, j | 0 <= i < j < |lin| :: lin[i].time <= lin[j].time
  }

  ghost predicate Listed(lin: seq<LinPoint>, id: nat) {
    exists i :: 0 <= i < |lin| && lin[i].id == id
  }

  /** Every point lies strictly between the invocation and the response of its operation. */
  ghost predicate Timed(h: seq<Event>, lin: seq<LinPoint>) {
    && (forall i | 0 <= i < |lin| :: lin[i].id < lin[i].time < |h| && h[lin[i].id] == Inv(lin[i].op))
    && (forall i, j | 0 <= i < j < |lin| :: lin[i].id != lin[j].id)
    && Sorted(lin)
    && Legal(lin)
    && (forall r | 0 <= r < |h| && h[r].Res? :: Answered(lin, h[r].id, h[r].result))
    && (forall i, r | 0 <= i < |lin| && 0 <= r < |h| && h[r].Res? && h[r].id == lin[i].id :: lin[i].time < r)
  }

  /** Points sorted by time, each inside its operation's interval, respect the real-time order. */
  lemma TimedIsLinearization(h: seq<Event>, lin: seq<LinPoint>)
    requires Timed(h, lin)
    ensures IsLinearization(h, lin)
  {
    forall i, j, r | 0 <= i < j < |lin| && 0 <= r < |h| && h[r].Res? && h[r].id == lin[j].id
      ensures lin[i].id < r
    {
      assert lin[i].id < lin[i].time <= lin[j].time < r;
    }
  }

  /** How many leading points happen no later than `t`. */
  function Cut(lin: seq<LinPoint>, t: nat): (c: nat)
    ensures c <= |lin|
  {
    if lin == [] || lin[0].time > t then 0 else 1 + Cut(lin[1..], t)
  }

  lemma {:induction false} CutSplits(lin: seq<LinPoint>, t: nat)
    requires Sorted(lin)
    ensures forall i | 0 <= i < |lin| :: i < Cut(lin, t) <==> lin[i].time <= t
  {
    if lin != [] {
      CutSplits(lin[1..], t);
      forall i | 0 <= i < |lin| ensures i < Cut(lin, t) <==> lin[i].time <= t {
        assert i > 0 ==> lin[i] == lin[1..][i - 1] && lin[0].time <= lin[i].time;
      }
    }
  }

  /** A cut is determined by splitting the points at `t`. */
  lemma CutIs(lin: seq<LinPoint>, t: nat, c: nat)
    requires Sorted(lin) && c <= |lin|
    requires forall i | 0 <= i < c :: lin[i].time <= t
    requires forall i | c <= i < |lin| :: lin[i].time > t
    ensures Cut(lin, t) == c
  {
    CutSplits(lin, t);
    var d := Cut(lin, t);
    assert d < |lin| ==> lin[d].time > t;
    assert c < |lin| ==> lin[c].time > t;
  }

  /** The abstract map just after step `t`. */
  function MapAt(lin: seq<LinPoint>, t: nat): map<Key, Value> {
    Replay(lin[..Cut(lin, t)])
  }

  lemma AppendLegal(lin: seq<LinPoint>, e: LinPoint)
    requires Legal(lin) && e.result == ResultOf(Replay(lin), e.op)
    ensures Legal(lin + [e])
    ensures Replay(lin + [e]) == Effect(Replay(lin), e.op)
  {
    hide Effect; hide ResultOf;
    var l := lin + [e];
    assert l[..|l| - 1] == lin == lin[..|lin|];
    forall i | 0 <= i < |l| ensures LegalAt(l, i) {
      assert l[..i] == lin[..i];
      assert i < |lin| ==> LegalAt(lin, i);
    }
  }

  /** Adding a point at the end, no earlier than everything so far. */
  lemma AppendPoint(lin: seq<LinPoint>, e: LinPoint)
    requires Sorted(lin) && Legal(lin)
    requires forall i | 0 <= i < |lin| :: lin[i].time <= e.time
    requires e.result == ResultOf(Replay(lin), e.op)
    ensures Sorted(lin + [e]) && Legal(lin + [e])
    ensures Replay(lin + [e]) == Effect(Replay(lin), e.op)
    ensures forall t: nat | t < e.time :: MapAt(lin + [e], t) == MapAt(lin, t)
  {
    AppendLegal(lin, e);
    hide Legal; hide Replay; hide MapAt;
    forall t: nat | t < e.time ensures MapAt(lin + [e], t) == MapAt(lin, t) {
      AppendCut(lin, e, t);
    }
  }

  lemma AppendCut(lin: seq<LinPoint>, e: LinPoint, t: nat)
    requires Sorted(lin) && t < e.time
    requires forall i | 0 <= i < |lin| :: lin[i].time <= e.time
    ensures Cut(lin + [e], t) == Cut(lin, t)
    ensures MapAt(lin + [e], t) == MapAt(lin, t)
  {
    CutSplits(lin, t);
    CutIs(lin + [e], t, Cut(lin, t));
    assert (lin + [e])[..Cut(lin, t)] == lin[..Cut(lin, t)];
  }

  function InsertAt(lin: seq<LinPoint>, e: LinPoint): seq<LinPoint> {
    var c := Cut(lin, e.time);
    lin[..c] + [e] + lin[c..]
  }

  lemma InsertSorted(lin: seq<LinPoint>, e: LinPoint)
    requires Sorted(lin)
    ensures Sorted(InsertAt(lin, e))
  {
    CutSplits(lin, e.time);
  }

  /** Putting back a point that does not change the map shifts the replay by one place. */
  lemma {:induction false} InsertReplay(lin: seq<LinPoint>, e: LinPoint, i: nat)
    requires Cut(lin, e.time) <= i <= |lin|
    requires Effect(MapAt(lin, e.time), e.op) == MapAt(lin, e.time)
    ensures Replay(InsertAt(lin, e)[..i + 1]) == Replay(lin[..i])
  {
    var c := Cut(lin, e.time);
    var l := InsertAt(lin, e);
    if i == c {
      assert l[..c + 1][..c] == lin[..c];
      assert l[..c + 1][c] == e;
    } else {
      InsertReplay(lin, e, i - 1);
      assert l[..i + 1][..i] == l[..i];
      assert lin[..i][..i - 1] == lin[..i - 1];
      assert l[i] == lin[i - 1];
    }
  }

  lemma InsertLegal(lin: seq<LinPoint>, e: LinPoint)
    requires Legal(lin)
    requires e.result == ResultOf(MapAt(lin, e.time), e.op)
    requires Effect(MapAt(lin, e.time), e.op) == MapAt(lin, e.time)
    ensures Legal(InsertAt(lin, e))
  {
    var c := Cut(lin, e.time);
    var l := InsertAt(lin, e);
    forall i | 0 <= i < |l| ensures LegalAt(l, i) {
      if i <= c {
        assert l[..i] == lin[..i];
        assert i < c ==> LegalAt(lin, i);
      } else {
        InsertReplay(lin, e, i - 1);
        assert l[i] == lin[i - 1] && LegalAt(lin, i - 1);
      }
    }
  }

  lemma InsertMapAt(lin: seq<LinPoint>, e: LinPoint, t: nat)
    requires Sorted(lin)
    requires Effect(MapAt(lin, e.time), e.op) == MapAt(lin, e.time)
    ensures MapAt(InsertAt(lin, e), t) == MapAt(lin, t)
  {
    InsertCut(lin, e, t);
    var d := Cut(lin, t);
    if t < e.time {
      assert InsertAt(lin, e)[..d] == lin[..d];
    } else {
      InsertReplay(lin, e, d);
    }
  }

  lemma InsertCut(lin: seq<LinPoint>, e: LinPoint, t: nat)
    requires Sorted(lin)
    ensures Cut(InsertAt(lin, e), t) == Cut(lin, t) + if t < e.time then 0 else 1
    ensures if t < e.time then Cut(lin, t) <= Cut(lin, e.time) else Cut(lin, t) >= Cut(lin, e.time)
  {
    hide Cut;
    var c, d := Cut(lin, e.time), Cut(lin, t);
    InsertSorted(lin, e);
    CutSplits(lin, e.time);
    CutSplits(lin, t);
    assert c < |lin| ==> lin[c].time > e.time;
    assert d < |lin| ==> lin[d].time > t;
    CutIs(InsertAt(lin, e), t, if t < e.time then d else d + 1);
  }

  /** A point that does not change the map, put back at an earlier moment at which its result was right,
      leaves every other result and every map of the order as it was. */
  lemma InsertPoint(lin: seq<LinPoint>, e: LinPoint)
    requires Sorted(lin) && Legal(lin)
    requires e.result == ResultOf(MapAt(lin, e.time), e.op)
    requires Effect(MapAt(lin, e.time), e.op) == MapAt(lin, e.time)
    ensures Sorted(InsertAt(lin, e)) && Legal(InsertAt(lin, e))
    ensures Replay(InsertAt(lin, e)) == Replay(lin)
    ensures forall t: nat :: MapAt(InsertAt(lin, e), t) == MapAt(lin, t)
  {
    InsertSorted(lin, e);
    InsertLegal(lin, e);
    InsertReplay(lin, e, |lin|);
    assert InsertAt(lin, e)[..|lin| + 1] == InsertAt(lin, e) && lin[..|lin|] == lin;
    forall t: nat ensures MapAt(InsertAt(lin, e), t) == MapAt(lin, t) {
      InsertMapAt(lin, e, t);
    }
  }

  // ---------- Histories grow ----------

  /** Invoked with `op` and not yet answered. */
  ghost predicate Pending(h: seq<Event>, id: nat, op: Op) {
    && id < |h| && h[id] == Inv(op)
    && forall r | 0 <= r < |h| && h[r].Res? :: h[r].id != id
  }

  lemma TimedExtend(h: seq<Event>, lin: seq<LinPoint>, e: Event)
    requires Timed(h, lin)
    requires e.Res? ==> Answered(lin, e.id, e.result)
    ensures Timed(h + [e], lin)
  {
    var h' := h + [e];
    forall r | 0 <= r < |h'| && h'[r].Res? ensures Answered(lin, h'[r].id, h'[r].result) {
      assert r < |h| ==> h'[r] == h[r];
    }
  }

  lemma PendingExtend(h: seq<Event>, id: nat, op: Op, e: Event)
    requires Pending(h, id, op) && (e.Res? ==> e.id != id)
    ensures Pending(h + [e], id, op)
  {
    forall r | 0 <= r < |h + [e]| && (h + [e])[r].Res? ensures (h + [e])[r].id != id {
      assert r < |h| ==> (h + [e])[r] == h[r];
    }
  }

  /** `lin'` lists at most one operation more, and changes neither earlier maps nor earlier answers. */
  ghost predicate LinExtends(lin: seq<LinPoint>, lin': seq<LinPoint>, now: nat, id: nat) {
    && (forall t: nat {:trigger MapAt(lin', t)} | t < now :: MapAt(lin', t) == MapAt(lin, t))
    && (forall i, r {:trigger Answered(lin', i, r)} {:trigger Answered(lin, i, r)} |
          Answered(lin, i, r) :: Answered(lin', i, r))
    && (forall i {:trigger Listed(lin', i)} {:trigger Listed(lin, i)} | i != id && Listed(lin', i) :: Listed(lin, i))
  }

  /** `lin'` is `lin` with `e` put in at place `c`. */
  ghost predicate AddedAt(lin: seq<LinPoint>, lin': seq<LinPoint>, c: nat, e: LinPoint) {
    && c <= |lin| && |lin'| == |lin| + 1
    && forall j {:trigger lin'[j]} | 0 <= j < |lin'| :: lin'[j] == if j < c then lin[j] else if j == c then e else lin[j - 1]
  }

  lemma InsertAdds(lin: seq<LinPoint>, e: LinPoint)
    ensures AddedAt(lin, InsertAt(lin, e), Cut(lin, e.time), e)
  {}

  /** A pending operation takes effect at the current step. */
  lemma TakeEffectNow(h: seq<Event>, lin: seq<LinPoint>, id: nat, op: Op) returns (lin': seq<LinPoint>)
    requires Timed(h, lin) && Pending(h, id, op) && !Listed(lin, id)
    ensures Timed(h + [Tau], lin')
    ensures Answered(lin', id, ResultOf(Replay(lin), op))
    ensures Replay(lin') == Effect(Replay(lin), op)
    ensures LinExtends(lin, lin', |h|, id)
  {
    var e := LinPoint(id, op, ResultOf(Replay(lin), op), |h|);
    lin' := lin + [e];
    AppendPoint(lin, e);
    assert AddedAt(lin, lin', |lin|, e);
    Added(h, lin, lin', |lin|, e);
  }

  /** A pending operation that changes nothing takes effect at an earlier step of its interval. */
  lemma TakeEffectThen(h: seq<Event>, lin: seq<LinPoint>, id: nat, op: Op, t: nat) returns (lin': seq<LinPoint>)
    requires Timed(h, lin) && Pending(h, id, op) && !Listed(lin, id)
    requires id < t < |h| && Effect(MapAt(lin, t), op) == MapAt(lin, t)
    ensures Timed(h + [Tau], lin')
    ensures Answered(lin', id, ResultOf(MapAt(lin, t), op))
    ensures Replay(lin') == Replay(lin)
    ensures LinExtends(lin, lin', |h|, id)
  {
    var e := LinPoint(id, op, ResultOf(MapAt(lin, t), op), t);
    lin' := InsertAt(lin, e);
    InsertPoint(lin, e);
    InsertAdds(lin, e);
    hide InsertAt; hide Replay; hide MapAt; hide Cut; hide AddedAt; hide Sorted; hide Legal;
    Added(h, lin, lin', Cut(lin, t), e);
  }

  lemma Added(h: seq<Event>, lin: seq<LinPoint>, lin': seq<LinPoint>, c: nat, e: LinPoint)
    requires Timed(h, lin) && Pending(h, e.id, e.op) && !Listed(lin, e.id) && e.id < e.time <= |h|
    requires AddedAt(lin, lin', c, e) && Sorted(lin') && Legal(lin')
    requires forall t: nat {:trigger MapAt(lin', t)} | t < |h| :: MapAt(lin', t) == MapAt(lin, t)
    ensures Timed(h + [Tau], lin')
    ensures Answered(lin', e.id, e.result)
    ensures LinExtends(lin, lin', |h|, e.id)
  {
    hide Sorted; hide Legal; hide MapAt;
    AddedPoint(lin, lin', c, e);
    hide Listed; hide Answered;
    assert LinExtends(lin, lin', |h|, e.id);
    TimedAdd(h, lin, lin', c, e);
  }

  lemma AddedPoint(lin: seq<LinPoint>, lin': seq<LinPoint>, c: nat, e: LinPoint)
    requires AddedAt(lin, lin', c, e)
    ensures forall i, r | Answered(lin, i, r) :: Answered(lin', i, r)
    ensures forall i | i != e.id && Listed(lin', i) :: Listed(lin, i)
    ensures Answered(lin', e.id, e.result)
  {
    assert lin'[c] == e;
    forall i, r | Answered(lin, i, r) ensures Answered(lin', i, r) {
      var j :| 0 <= j < |lin| && lin[j].id == i && lin[j].result == r;
      assert lin'[if j < c then j else j + 1] == lin[j];
    }
    forall i | i != e.id && Listed(lin', i) ensures Listed(lin, i) {
      var j :| 0 <= j < |lin'| && lin'[j].id == i;
      assert lin'[j] == if j < c then lin[j] else lin[j - 1];
    }
  }

  lemma TimedAdd(h: seq<Event>, lin: seq<LinPoint>, lin': seq<LinPoint>, c: nat, e: LinPoint)
    requires Timed(h, lin) && Pending(h, e.id, e.op) && !Listed(lin, e.id) && e.id < e.time <= |h|
    requires AddedAt(lin, lin', c, e) && Sorted(lin') && Legal(lin')
    requires forall i, r | Answered(lin, i, r) :: Answered(lin', i, r)
    ensures Timed(h + [Tau], lin')
  {
    hide Sorted; hide Legal; hide Answered;
    var h' := h + [Tau];
    assert forall j | 0 <= j < |lin| :: lin[j].id != e.id;
    forall i, r | 0 <= i < |lin'| && 0 <= r < |h'| && h'[r].Res? && h'[r].id == lin'[i].id ensures lin'[i].time < r {
      assert h'[r] == h[r];
    }
    forall r | 0 <= r < |h'| && h'[r].Res? ensures Answered(lin', h'[r].id, h'[r].result) {
      assert h'[r] == h[r];
    }
  }
}
