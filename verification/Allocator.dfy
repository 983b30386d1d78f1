/** The slab allocator of RDMA memory: a shared head that many threads lower by compare-and-swap, and per-thread free
    lists, one for each power of two. All requests use alignment 64.
 */
module Allocator {
  // ---------- The size class ----------

  function Pow2(n: nat): (p: nat)
    ensures p >= 1
  {
    if n == 0 then 1 else 2 * Pow2(n - 1)
  }

  /** `kLogTable`: sixteen entries, then fifteen rows of sixteen equal ones. Entry `i` is the highest bit of `i`. */
  function LogTable(i: nat): int
    requires i < 256
  {
    if i < 16 then [-1, 0, 1, 1, 2, 2, 2, 2, 3, 3, 3, 3, 3, 3, 3, 3][i]
    else [4, 5, 5, 6, 6, 6, 6, 7, 7, 7, 7, 7, 7, 7, 7][i / 16 - 1]
  }

  lemma TableRight(i: nat)
    requires 1 <= i < 256
    ensures 0 <= LogTable(i) <= 7 && Pow2(LogTable(i)) <= i < 2 * Pow2(LogTable(i))
  {
    assert Pow2(1) == 2 && Pow2(2) == 4;
    assert Pow2(3) == 8 && Pow2(4) == 16;
    assert Pow2(5) == 32 && Pow2(6) == 64 && Pow2(7) == 128;
  }

  /** The highest bit of `x`, by table, and one more unless `x` is a power of two. */
  function UpperLog2(x: nat): int
    requires x < 0x1_0000_0000
  {
    var r := HighBit(x);
    if r >= 0 && Pow2(r) < x then r + 1 else r
  }

  lemma {:induction false} Pow2Sum(a: nat, b: nat)
    ensures Pow2(a + b) == Pow2(a) * Pow2(b)
  {
    if a > 0 {
      Pow2Sum(a - 1, b);
      assert Pow2(a + b) == 2 * Pow2(a - 1 + b);
    }
  }

  lemma Quotient(x: nat, d: nat)
    requires d > 0
    ensures d * (x / d) <= x < d * (x / d) + d
  {}

  lemma Scaled(d: nat, a: nat, b: nat)
    requires a <= b
    ensures d * a <= d * b
  {}

  lemma Scaled2(d: nat, i: nat, m: nat)
    ensures d * (i + 1) == d * i + d && d * (2 * m) == 2 * (d * m)
  {}

  lemma ScaleBounds(x: nat, d: nat, i: nat, m: nat)
    requires d > 0 && i == x / d && m <= i < 2 * m
    ensures d * m <= x < 2 * (d * m)
  {
    Quotient(x, d);
    Scaled(d, m, i);
    Scaled(d, i + 1, 2 * m);
    Scaled2(d, i, m);
  }

  /** A table entry for the top byte gives the highest bit of the whole word. */
  lemma Shifted(x: nat, k: nat, i: nat)
    requires i == x / Pow2(k) && 1 <= i < 256
    ensures 0 <= LogTable(i) <= 7 && Pow2(k + LogTable(i)) <= x < 2 * Pow2(k + LogTable(i))
  {
    hide LogTable;
    TableRight(i);
    Pow2Sum(k, LogTable(i));
    ScaleBounds(x, Pow2(k), i, Pow2(LogTable(i)));
  }

  function HighBit(x: nat): int
    requires x < 0x1_0000_0000
  {
    var q := x / 0x1_0000;
    if q != 0 then
      var p := q / 0x100;
      if p != 0 then 24 + LogTable(p) else 16 + LogTable(q)
    else
      var p := x / 0x100;
      if p != 0 then 8 + LogTable(p) else LogTable(x)
  }

  lemma HighBitRight(x: nat)
    requires 1 <= x < 0x1_0000_0000
    ensures 0 <= HighBit(x) <= 31 && Pow2(HighBit(x)) <= x < 2 * Pow2(HighBit(x))
  {
    hide LogTable; hide Pow2;
    Pow2Values();
    assert x / 0x1_0000 / 0x100 == x / 0x100_0000;
    if x / 0x100_0000 != 0 { Shifted(x, 24, x / 0x100_0000); }
    else if x / 0x1_0000 != 0 { Shifted(x, 16, x / 0x1_0000); }
    else if x / 0x100 != 0 { Shifted(x, 8, x / 0x100); }
    else { Shifted(x, 0, x); }
  }

  /** `UpperLog2` is the ceiling of the logarithm: the least `k` with `x <= 2^k`. */
  lemma UpperLog2IsCeiling(x: nat)
    requires 1 <= x < 0x1_0000_0000
    ensures 0 <= UpperLog2(x) <= 32
    ensures x <= Pow2(UpperLog2(x))
    ensures UpperLog2(x) > 0 ==> Pow2(UpperLog2(x) - 1) < x
  {
    hide HighBit;
    HighBitRight(x);
  }

  lemma Pow2Values()
    ensures Pow2(0) == 1 && Pow2(3) == 8 && Pow2(6) == 64 && Pow2(8) == 0x100 && Pow2(16) == 0x1_0000
    ensures Pow2(20) == 0x10_0000 && Pow2(24) == 0x100_0000
  {
    assert Pow2(1) == 2 && Pow2(2) == 4;
    assert Pow2(3) == 8;
    Pow2Sum(3, 3); Pow2Sum(2, 6); Pow2Sum(8, 8); Pow2Sum(8, 16); Pow2Sum(2, 2); Pow2Sum(4, 16);
  }

  // ---------- The allocator ----------

  const ALIGNMENT: nat := 64
  const MIN_CLASS: nat := 3
  const MAX_CLASS: nat := 20
  const CLASSES: nat := MAX_CLASS - MIN_CLASS + 1
  const ADDRESSES: nat := 0x1_0000_0000_0000_0000

  function SlabClass(bytes: nat): nat
    requires 1 <= bytes < 0x1_0000_0000
  {
    if UpperLog2(bytes) < MIN_CLASS then MIN_CLASS else UpperLog2(bytes)
  }

  /** What a request of `bytes` takes. */
  function Rounded(bytes: nat): nat { if bytes < ALIGNMENT then ALIGNMENT else bytes }

  ghost predicate PowerOfTwo(size: nat) { exists k: nat :: size == Pow2(k) }

  /** A power of two between the alignment and the largest class. */
  ghost predicate Fit(size: nat) {
    ALIGNMENT <= size <= 0x10_0000 && PowerOfTwo(size)
  }

  lemma {:induction false} Pow2Ordered(a: nat, b: nat)
    requires a <= b
    ensures Pow2(a) <= Pow2(b)
  {
    if a < b { Pow2Ordered(a, b - 1); }
  }

  lemma Pow2Less(a: nat, b: nat)
    requires Pow2(a) < Pow2(b)
    ensures a < b
  {
    if b <= a { Pow2Ordered(b, a); }
  }

  /** A power of two is its own class. */
  lemma ClassOfPower(size: nat)
    requires ALIGNMENT <= size <= 0x10_0000
    ensures PowerOfTwo(size) <==> Pow2(SlabClass(size)) == size
  {
    hide Pow2;
    Pow2Values();
    UpperLog2IsCeiling(size);
    var c := UpperLog2(size);
    if c < MIN_CLASS { Pow2Ordered(c, MIN_CLASS); }
    if PowerOfTwo(size) {
      var k: nat :| size == Pow2(k);
      Pow2Less(c - 1, k);
      Pow2Ordered(c, k);
    }
  }

  lemma Pow2Multiple(k: nat)
    requires k >= 6
    ensures Pow2(k) % 64 == 0
  {
    Pow2Values();
    Pow2Sum(6, k - 6);
    Multiple(Pow2(k - 6));
  }

  lemma Multiple(n: nat)
    ensures (64 * n) % 64 == 0
  {}

  /** A freed size never has a larger class than the block it is part of. */
  lemma FreedClass(bytes: nat, size: nat)
    requires Fit(size) && 1 <= bytes <= size
    ensures MIN_CLASS <= SlabClass(bytes) <= MAX_CLASS && Pow2(SlabClass(bytes)) <= size
  {
    hide Pow2;
    Pow2Values();
    UpperLog2IsCeiling(bytes);
    UpperLog2IsCeiling(size);
    var k := UpperLog2(bytes);
    FitClass(size);
    if k > MIN_CLASS {
      Pow2Less(k - 1, SlabClass(size));
      Pow2Ordered(k, SlabClass(size));
    } else {
      Pow2Ordered(MIN_CLASS, SlabClass(size));
    }
  }

  lemma Pow2Next(n: nat)
    ensures Pow2(n + 1) == 2 * Pow2(n)
  {}

  lemma FitClass(size: nat)
    requires Fit(size)
    ensures 6 <= SlabClass(size) <= MAX_CLASS && size % 64 == 0 && 64 <= size <= 0x10_0000 && Pow2(SlabClass(size)) == size
  {
    ClassOfPower(size);
    hide Pow2;
    Pow2Values();
    Pow2Next(5); Pow2Next(20);
    var k := SlabClass(size);
    if Pow2(5) < Pow2(k) { Pow2Less(5, k); }
    if Pow2(k) < Pow2(21) { Pow2Less(k, 21); }
    assert 6 <= k <= MAX_CLASS;
    Pow2Multiple(k);
  }

  datatype Spot = Live(size: nat) | Freed(thread: nat, cls: nat)

  datatype Pc = Quiet | Trying(size: nat, seen: nat)

  /** The thread's free lists and its record of which classes have a free block, by class index. */
  datatype Thread = Thread(pc: Pc, lists: seq<seq<nat>>, bits: seq<bool>)

  /** `carved` and `spots` are bookkeeping: the size of every block ever taken from the head, and where it is now. */
  datatype State = State(base: nat, end: nat, head: nat, threads: seq<Thread>, carved: map<nat, nat>, spots: map<nat, Spot>)

  datatype Action =
    | Allocate(t: nat, bytes: nat)
    | Swap(t: nat)
    | Deallocate(t: nat, p: nat, bytes: nat)

  /** The class has a list, and its bit is not set without a block. */
  predicate HasClass(th: Thread, c: nat) {
    && MIN_CLASS <= c && c - MIN_CLASS < |th.lists| == |th.bits|
    && (th.bits[c - MIN_CLASS] ==> th.lists[c - MIN_CLASS] != [])
  }

  predicate CanFree(s: State, p: nat, bytes: nat) {
    p in s.spots && s.spots[p].Live? && 1 <= bytes <= s.spots[p].size < 0x1_0000_0000
  }

  predicate Enabled(s: State, a: Action) {
    a.t < |s.threads| &&
    match a
    case Allocate(t, bytes) =>
      s.threads[t].pc.Quiet? && Rounded(bytes) < 0x1_0000_0000 && HasClass(s.threads[t], SlabClass(Rounded(bytes)))
    case Swap(t) => s.threads[t].pc.Trying?
    case Deallocate(t, p, bytes) => CanFree(s, p, bytes) && HasClass(s.threads[t], SlabClass(bytes))
  }

  function SetThread(s: State, t: nat, th: Thread): State
    requires t < |s.threads|
  {
    s.(threads := s.threads[t := th])
  }

  /** `size` bytes of class `c`: from the free list when it has a block, and zeroed; else from the head. */
  function DoAllocate(s: State, t: nat, size: nat, c: nat): State
    requires t < |s.threads| && HasClass(s.threads[t], c)
  {
    var th := s.threads[t];
    var i := c - MIN_CLASS;
    if th.bits[i] then
      var rest := th.lists[i][1..];
      SetThread(s, t, th.(lists := th.lists[i := rest], bits := th.bits[i := rest != []]))
        .(spots := s.spots[th.lists[i][0] := Live(Pow2(c))])
    else
      SetThread(s, t, th.(pc := Trying(size, s.head)))
  }

  /** The block at the front of a free list, and the bytes that taking it zeroes. */
  function Wiped(th: Thread, c: nat): (nat, nat)
    requires HasClass(th, c) && th.bits[c - MIN_CLASS]
  {
    (th.lists[c - MIN_CLASS][0], Pow2(c))
  }

  /** Below the aligned head that was seen, as 64-bit arithmetic computes it. */
  function Below(seen: nat, size: nat): nat { (seen - seen % ALIGNMENT - size) % ADDRESSES }

  function DoSwap(s: State, t: nat): State
    requires Enabled(s, Swap(t))
  {
    var th := s.threads[t];
    var d := Below(th.pc.seen, th.pc.size);
    if d < s.base then SetThread(s, t, th.(pc := Quiet))
    else if s.head == th.pc.seen then
      SetThread(s, t, th.(pc := Quiet))
        .(head := d, carved := s.carved[d := th.pc.size], spots := s.spots[d := Live(th.pc.size)])
    else SetThread(s, t, th.(pc := Trying(th.pc.size, s.head)))
  }

  function DoDeallocate(s: State, t: nat, p: nat, c: nat): State
    requires t < |s.threads| && HasClass(s.threads[t], c)
  {
    var th := s.threads[t];
    var i := c - MIN_CLASS;
    SetThread(s, t, th.(lists := th.lists[i := th.lists[i] + [p]], bits := th.bits[i := true]))
      .(spots := s.spots[p := Freed(t, c)])
  }

  function Step(s: State, a: Action): State
    requires Enabled(s, a)
  {
    match a
    case Allocate(t, bytes) => DoAllocate(s, t, Rounded(bytes), SlabClass(Rounded(bytes)))
    case Swap(t) => DoSwap(s, t)
    case Deallocate(t, p, bytes) => DoDeallocate(s, t, p, SlabClass(bytes))
  }

  ghost predicate Init(s: State) {
    && 0x10_0000 <= s.base <= s.end == s.head < ADDRESSES
    && s.carved == map[] && s.spots == map[]
    && forall t | 0 <= t < |s.threads| ::
         s.threads[t] == Thread(Quiet, seq(CLASSES, _ => []), seq(CLASSES, _ => false))
  }

  ghost predicate IsRun(r: seq<State>, acts: seq<Action>) {
    && |r| == |acts| + 1
    && Init(r[0])
    && forall i | 0 <= i < |acts| :: Enabled(r[i], acts[i]) && r[i + 1] == Step(r[i], acts[i])
  }

  /** Every request of the run asks for one of these sizes. */
  ghost predicate Requests(acts: seq<Action>, sizes: set<nat>) {
    forall i | 0 <= i < |acts| && acts[i].Allocate? :: Rounded(acts[i].bytes) in sizes
  }

  /** Every request is a power of two that has a class. */
  ghost predicate FitRequests(acts: seq<Action>) {
    forall i | 0 <= i < |acts| && acts[i].Allocate? :: Fit(Rounded(acts[i].bytes))
  }

  // ---------- Invariant ----------

  ghost predicate CarvedOK(s: State) {
    && 0x10_0000 <= s.base <= s.head <= s.end < ADDRESSES
    && (forall a | a in s.carved :: Fit(s.carved[a]) && a % ALIGNMENT == 0 && s.head <= a && a + s.carved[a] <= s.end)
    && (forall a, b | a in s.carved && b in s.carved && a < b :: a + s.carved[a] <= b)
  }

  ghost predicate SpotOK(s: State, a: nat)
    requires a in s.spots && a in s.carved
  {
    match s.spots[a]
    case Live(size) => Fit(size) && size <= s.carved[a]
    case Freed(t, c) =>
      && t < |s.threads| && MIN_CLASS <= c <= MAX_CLASS && Pow2(c) <= s.carved[a]
      && c - MIN_CLASS < |s.threads[t].lists| && a in s.threads[t].lists[c - MIN_CLASS]
  }

  ghost predicate ThreadOK(s: State, t: nat)
    requires t < |s.threads|
  {
    var th := s.threads[t];
    && |th.lists| == |th.bits| == CLASSES
    && (forall i | 0 <= i < CLASSES :: th.bits[i] <==> th.lists[i] != [])
    && (forall i, j | 0 <= i < CLASSES && 0 <= j < |th.lists[i]| ::
          th.lists[i][j] in s.spots && s.spots[th.lists[i][j]] == Freed(t, i + MIN_CLASS))
    && (forall i, j, k | 0 <= i < CLASSES && 0 <= j < k < |th.lists[i]| :: th.lists[i][j] != th.lists[i][k])
    && (th.pc.Trying? ==> Fit(th.pc.size) && s.head <= th.pc.seen <= s.end)
  }

  ghost predicate Inv(s: State) {
    && CarvedOK(s)
    && s.spots.Keys == s.carved.Keys
    && (forall a | a in s.spots :: SpotOK(s, a))
    && (forall t | 0 <= t < |s.threads| :: ThreadOK(s, t))
  }

  // ---------- Steps keep the invariant ----------

  lemma FrontFreed(s: State, t: nat, c: nat)
    requires Inv(s) && t < |s.threads| && HasClass(s.threads[t], c) && s.threads[t].bits[c - MIN_CLASS]
    ensures c <= MAX_CLASS && s.threads[t].lists[c - MIN_CLASS] != []
    ensures |s.threads[t].lists| == |s.threads[t].bits| == CLASSES
  {
    assert ThreadOK(s, t);
  }

  /** A block taken from the front of a free list leaves the other entries as they were. */
  lemma ReuseThreads(s: State, t: nat, size: nat, c: nat)
    requires Inv(s) && t < |s.threads| && HasClass(s.threads[t], c) && s.threads[t].bits[c - MIN_CLASS]
    ensures forall u | 0 <= u < |s.threads| :: ThreadOK(DoAllocate(s, t, size, c), u)
  {
    hide Fit; hide Pow2; hide SpotOK; hide CarvedOK;
    assert ThreadOK(s, t);
    var s' := DoAllocate(s, t, size, c);
    forall u | 0 <= u < |s.threads| ensures ThreadOK(s', u) {
      assert ThreadOK(s, u);
    }
  }

  lemma ReuseInv(s: State, t: nat, size: nat, c: nat)
    requires Inv(s) && t < |s.threads| && HasClass(s.threads[t], c) && s.threads[t].bits[c - MIN_CLASS]
    requires Fit(size) && Pow2(c) == size
    ensures Inv(DoAllocate(s, t, size, c))
  {
    hide Pow2; hide Fit; hide CarvedOK;
    FrontFreed(s, t, c);
    ReuseThreads(s, t, size, c);
    hide ThreadOK; hide SpotOK;
    ReusedSpots(s, DoAllocate(s, t, size, c), t, c, size);
    SameCarved(s, DoAllocate(s, t, size, c));
  }

  lemma ReusedSpots(s: State, s': State, t: nat, c: nat, size: nat)
    requires Inv(s) && t < |s.threads| && MIN_CLASS <= c <= MAX_CLASS && Fit(size) && Pow2(c) == size
    requires |s.threads[t].lists| == |s.threads[t].bits| == CLASSES && s.threads[t].lists[c - MIN_CLASS] != []
    requires var th := s.threads[t]; var list := th.lists[c - MIN_CLASS];
      && s'.carved == s.carved && s'.spots == s.spots[list[0] := Live(size)] && |s'.threads| == |s.threads|
      && (forall u | 0 <= u < |s.threads| && u != t :: s'.threads[u] == s.threads[u])
      && s'.threads[t].lists == th.lists[c - MIN_CLASS := list[1..]]
    ensures s'.spots.Keys == s'.carved.Keys && forall a | a in s'.spots :: SpotOK(s', a)
  {
    hide Pow2; hide CarvedOK; hide Fit;
    assert ThreadOK(s, t);
    var list := s.threads[t].lists[c - MIN_CLASS];
    assert list == [list[0]] + list[1..] && list[0] in s.spots;
    assert SpotOK(s, list[0]);
    forall a | a in s'.spots ensures SpotOK(s', a) {
      assert SpotOK(s, a);
    }
  }

  lemma AllocateInv(s: State, t: nat, size: nat, c: nat)
    requires Inv(s) && t < |s.threads| && HasClass(s.threads[t], c) && Fit(size) && Pow2(c) == size
    ensures Inv(DoAllocate(s, t, size, c))
  {
    hide Pow2; hide Fit;
    if s.threads[t].bits[c - MIN_CLASS] {
      ReuseInv(s, t, size, c);
    } else {
      KeptLists(s, DoAllocate(s, t, size, c), t);
    }
  }

  /** Only the program counter of `t` and the head change; new blocks are live. */
  lemma KeptLists(s: State, s': State, t: nat)
    requires Inv(s) && t < |s.threads| == |s'.threads| && s'.threads == s.threads[t := s'.threads[t]]
    requires s'.threads[t].lists == s.threads[t].lists && s'.threads[t].bits == s.threads[t].bits
    requires s'.threads[t].pc.Trying? ==> Fit(s'.threads[t].pc.size) && s'.head <= s'.threads[t].pc.seen <= s'.end
    requires s'.head <= s.head && s'.end == s.end && CarvedOK(s')
    requires forall a | a in s.spots :: a in s'.spots && a in s'.carved && s'.spots[a] == s.spots[a] && s'.carved[a] == s.carved[a]
    requires forall a | a in s'.spots && a !in s.spots :: a in s'.carved && SpotOK(s', a) && s'.spots[a].Live?
    requires s'.spots.Keys == s'.carved.Keys
    ensures Inv(s')
  {
    hide Fit; hide Pow2; hide CarvedOK;
    forall a | a in s'.spots ensures SpotOK(s', a) {
      if a in s.spots { assert SpotOK(s, a); }
    }
    forall u | 0 <= u < |s.threads| ensures ThreadOK(s', u) {
      assert ThreadOK(s, u);
    }
  }

  /** The new block ends at or below the old head, is aligned, and its address does not wrap. */
  lemma BelowIs(seen: nat, size: nat)
    requires Fit(size) && 0x10_0000 <= seen < ADDRESSES
    ensures Below(seen, size) % ALIGNMENT == 0 && Below(seen, size) + size <= seen
  {
    FitClass(size);
    hide Fit; hide Pow2; hide SlabClass; hide Below;
    BelowAligned(seen, size);
  }

  lemma BelowAligned(seen: nat, size: nat)
    requires 64 <= size <= 0x10_0000 <= seen < ADDRESSES
    ensures Below(seen, size) == seen - seen % 64 - size && Below(seen, size) + size <= seen
    ensures Below(seen, size) % 64 == 0 <==> size % 64 == 0
  {
    var top := seen - seen % 64;
    AlignedDown(seen);
    assert seen / 64 >= 0x4000 && top >= size;
    NoWrap(top - size);
    Difference(top, size);
  }

  lemma AlignedDown(x: nat)
    ensures (x - x % 64) % 64 == 0 && x - 64 < x - x % 64 <= x
  {
    assert x == 64 * (x / 64) + x % 64;
  }

  lemma NoWrap(x: int)
    requires 0 <= x < ADDRESSES
    ensures x % ADDRESSES == x
  {}

  lemma Difference(x: int, y: int)
    requires x % 64 == 0
    ensures (x - y) % 64 == 0 <==> y % 64 == 0
  {}

  lemma SwapInv(s: State, t: nat)
    requires Inv(s) && Enabled(s, Swap(t))
    ensures Inv(Step(s, Swap(t)))
  {
    hide Pow2; hide SlabClass; hide Fit; hide Below;
    assert ThreadOK(s, t);
    var th := s.threads[t];
    BelowIs(th.pc.seen, th.pc.size);
    var s' := Step(s, Swap(t));
    assert CarvedOK(s') by { FitPositive(th.pc.size); }
    var d := Below(th.pc.seen, th.pc.size);
    assert d in s.spots ==> d in s.carved && s.head <= d;
    assert s'.spots.Keys == s'.carved.Keys;
    FitPositive(th.pc.size);
    KeptLists(s, s', t);
  }

  lemma FitPositive(size: nat)
    requires Fit(size)
    ensures size > 0
  {}

  lemma DeallocateInv(s: State, t: nat, p: nat, bytes: nat)
    requires Inv(s) && Enabled(s, Deallocate(t, p, bytes))
    ensures Inv(Step(s, Deallocate(t, p, bytes)))
  {
    hide UpperLog2; hide CarvedOK; hide Pow2; hide Fit;
    assert SpotOK(s, p) && ThreadOK(s, t);
    FreedClass(bytes, s.spots[p].size);
    hide SlabClass; hide ThreadOK; hide SpotOK;
    var s' := Step(s, Deallocate(t, p, bytes));
    FreedThreads(s, s', t, p, SlabClass(bytes));
    FreedSpots(s, s', t, p, SlabClass(bytes));
    SameCarved(s, s');
  }

  lemma FreedSpots(s: State, s': State, t: nat, p: nat, c: nat)
    requires Inv(s) && t < |s.threads| && p in s.spots && s.spots[p].Live? && MIN_CLASS <= c <= MAX_CLASS
    requires |s.threads[t].lists| == |s.threads[t].bits| == CLASSES && Pow2(c) <= s.spots[p].size
    requires s'.carved == s.carved && s'.spots == s.spots[p := Freed(t, c)]
    requires var th := s.threads[t]; var i := c - MIN_CLASS;
      s'.threads == s.threads[t := th.(lists := th.lists[i := th.lists[i] + [p]], bits := th.bits[i := true])]
    ensures s'.spots.Keys == s'.carved.Keys && forall a | a in s'.spots :: SpotOK(s', a)
  {
    hide Fit; hide Pow2; hide CarvedOK; hide ThreadOK;
    assert SpotOK(s, p);
    forall a | a in s'.spots ensures SpotOK(s', a) {
      assert SpotOK(s, a);
    }
  }

  lemma SameCarved(s: State, s': State)
    requires CarvedOK(s) && s'.carved == s.carved && s'.head == s.head && s'.base == s.base && s'.end == s.end
    ensures CarvedOK(s')
  {}

  lemma FreedThreads(s: State, s': State, t: nat, p: nat, c: nat)
    requires Inv(s) && t < |s.threads| && p in s.spots && s.spots[p].Live? && MIN_CLASS <= c <= MAX_CLASS
    requires |s.threads[t].lists| == |s.threads[t].bits| == CLASSES
    requires s'.head == s.head && s'.end == s.end && s'.spots == s.spots[p := Freed(t, c)]
    requires var th := s.threads[t]; var i := c - MIN_CLASS;
      s'.threads == s.threads[t := th.(lists := th.lists[i := th.lists[i] + [p]], bits := th.bits[i := true])]
    ensures forall u | 0 <= u < |s.threads| :: ThreadOK(s', u)
  {
    hide Fit; hide Pow2; hide CarvedOK; hide SpotOK;
    forall u | 0 <= u < |s.threads| ensures ThreadOK(s', u) {
      assert ThreadOK(s, u);
    }
  }

  lemma StepInv(s: State, a: Action)
    requires Inv(s) && Enabled(s, a) && (a.Allocate? ==> Fit(Rounded(a.bytes)))
    ensures Inv(Step(s, a))
  {
    hide Inv; hide DoAllocate; hide DoSwap; hide DoDeallocate;
    match a
    case Allocate(t, bytes) =>
      FitClass(Rounded(bytes));
      hide SlabClass; hide Fit; hide Pow2;
      AllocateInv(s, t, Rounded(bytes), SlabClass(Rounded(bytes)));
    case Swap(t) => SwapInv(s, t);
    case Deallocate(t, p, bytes) => DeallocateInv(s, t, p, bytes);
  }

  lemma {:induction false} RunInv(r: seq<State>, acts: seq<Action>, i: nat)
    requires IsRun(r, acts) && FitRequests(acts) && i < |r|
    ensures Inv(r[i])
  {
    if i > 0 {
      RunInv(r, acts, i - 1);
      StepInv(r[i - 1], acts[i - 1]);
    }
  }

  // ---------- Main results ----------

  /** The bytes of a live or free block. */
  function Extent(s: State, a: nat): nat
    requires a in s.spots
  {
    match s.spots[a] case Live(size) => size case Freed(_, c) => Pow2(c)
  }

  /** All live and free blocks are aligned, inside the region, and apart from each other. */
  ghost predicate Sound(s: State) {
    && (forall a | a in s.spots :: a % ALIGNMENT == 0 && s.base <= a && a + Extent(s, a) <= s.end)
    && (forall a, b | a in s.spots && b in s.spots && a != b :: a + Extent(s, a) <= b || b + Extent(s, b) <= a)
  }

  /** In every run that asks for powers of two only, all blocks stay sound. */
  lemma BlocksApart(r: seq<State>, acts: seq<Action>, i: nat)
    requires IsRun(r, acts) && FitRequests(acts) && i < |r|
    ensures Sound(r[i])
  {
    RunInv(r, acts, i);
    forall a | a in r[i].spots ensures SpotOK(r[i], a) {}
  }

  /** The front block of a class's free list, and the bytes that taking it zeroes. */
  ghost predicate WipesInside(s: State, p: nat, n: nat) {
    && p in s.spots && s.spots[p].Freed? && n == Extent(s, p) && p in s.carved && n <= s.carved[p]
    && forall b | b in s.spots && b != p :: p + n <= b || b + Extent(s, b) <= p
  }

  /** Reused memory is zeroed only inside its own block, which was free and becomes live with exactly that size. */
  lemma WipeStaysInside(r: seq<State>, acts: seq<Action>, i: nat, t: nat, bytes: nat, c: nat)
    requires IsRun(r, acts) && FitRequests(acts) && i < |r| && Enabled(r[i], Allocate(t, bytes)) && Fit(Rounded(bytes))
    requires c == SlabClass(Rounded(bytes)) && r[i].threads[t].bits[c - MIN_CLASS]
    ensures Wiped(r[i].threads[t], c).1 == Rounded(bytes)
    ensures WipesInside(r[i], Wiped(r[i].threads[t], c).0, Wiped(r[i].threads[t], c).1)
    ensures Step(r[i], Allocate(t, bytes)).spots == r[i].spots[Wiped(r[i].threads[t], c).0 := Live(Rounded(bytes))]
  {
    FitClass(Rounded(bytes));
    Reuse(r[i], t, bytes, c);
    hide IsRun; hide WipesInside; hide Pow2; hide SlabClass; hide Fit; hide FitRequests; hide Step;
    FrontInside(r, acts, i, t, c);
  }

  lemma Reuse(s: State, t: nat, bytes: nat, c: nat)
    requires t < |s.threads| && HasClass(s.threads[t], c) && s.threads[t].bits[c - MIN_CLASS]
    requires Enabled(s, Allocate(t, bytes)) && c == SlabClass(Rounded(bytes))
    ensures Wiped(s.threads[t], c) == (s.threads[t].lists[c - MIN_CLASS][0], Pow2(c))
    ensures Step(s, Allocate(t, bytes)).spots == s.spots[Wiped(s.threads[t], c).0 := Live(Pow2(c))]
  {
    hide SlabClass; hide Pow2;
  }

  lemma FrontInside(r: seq<State>, acts: seq<Action>, i: nat, t: nat, c: nat)
    requires IsRun(r, acts) && FitRequests(acts) && i < |r| && t < |r[i].threads| && HasClass(r[i].threads[t], c) && r[i].threads[t].bits[c - MIN_CLASS]
    ensures WipesInside(r[i], r[i].threads[t].lists[c - MIN_CLASS][0], Pow2(c))
  {
    RunInv(r, acts, i);
    hide Pow2; hide IsRun; hide CarvedOK;
    assert ThreadOK(r[i], t);
    var p := r[i].threads[t].lists[c - MIN_CLASS][0];
    assert p in r[i].spots && SpotOK(r[i], p);
    BlocksApart(r, acts, i);
  }

  ghost predicate ListsOK(th: Thread) {
    |th.lists| == |th.bits| == CLASSES && forall i | 0 <= i < CLASSES :: th.bits[i] <==> th.lists[i] != []
  }

  ghost predicate AllListsOK(s: State) {
    forall t | 0 <= t < |s.threads| :: ListsOK(s.threads[t])
  }

  lemma {:induction false} ListsStayOK(r: seq<State>, acts: seq<Action>, i: nat)
    requires IsRun(r, acts) && i < |r|
    ensures AllListsOK(r[i])
  {
    if i > 0 {
      ListsStayOK(r, acts, i - 1);
      hide Enabled; hide Step; hide AllListsOK;
      ListsStep(r[i - 1], acts[i - 1]);
    }
  }

  lemma ListsStep(s: State, a: Action)
    requires Enabled(s, a) && AllListsOK(s)
    ensures AllListsOK(Step(s, a))
  {
    hide SlabClass; hide Pow2; hide Below;
  }

  /** The alignment bit of a class is set exactly when its free list has a block, whatever sizes are asked for, and
      every request and every free finds its class. */
  lemma BitIffBlock(r: seq<State>, acts: seq<Action>, i: nat, t: nat, c: nat)
    requires IsRun(r, acts) && i < |r| && t < |r[i].threads| && MIN_CLASS <= c <= MAX_CLASS
    ensures |r[i].threads[t].lists| == |r[i].threads[t].bits| == CLASSES && HasClass(r[i].threads[t], c)
    ensures r[i].threads[t].bits[c - MIN_CLASS] <==> r[i].threads[t].lists[c - MIN_CLASS] != []
  {
    ListsStayOK(r, acts, i);
  }

  // ---------- Other sizes ----------

  /** A block of `size` bytes, freed with its own size, is zeroed up to the next power of two, which fits exactly for
      the powers of two. */
  lemma WipeFitsIffPowerOfTwo(size: nat)
    requires ALIGNMENT <= size <= 0x10_0000
    ensures Pow2(SlabClass(size)) <= size <==> PowerOfTwo(size)
  {
    ClassOfPower(size);
    UpperLog2IsCeiling(size);
  }

  /** One thread and four megabytes. */
  function Start(): State {
    State(0x10_0000, 0x50_0000, 0x50_0000, [Thread(Quiet, seq(CLASSES, _ => []), seq(CLASSES, _ => false))], map[], map[])
  }

  /** A thread that has no free block of the class takes a new block from the head. */
  lemma Carve(s: State, size: nat) returns (s1: State, s': State)
    requires ALIGNMENT <= size <= 0x10_0000 && 0x10_0000 <= s.base && s.base + 0x20_0000 <= s.head < ADDRESSES
    requires |s.threads| == 1 && s.threads[0] == Thread(Quiet, seq(CLASSES, _ => []), seq(CLASSES, _ => false))
    ensures Enabled(s, Allocate(0, size)) && s1 == Step(s, Allocate(0, size))
    ensures Enabled(s1, Swap(0)) && s' == Step(s1, Swap(0))
    ensures var d := s'.head;
      && s' == s.(head := d, carved := s.carved[d := size], spots := s.spots[d := Live(size)])
      && s.head - 64 - size < d <= s.head - size
      && (s.head % 64 == 0 ==> d == s.head - size && (d % 64 == 0 <==> size % 64 == 0))
  {
    ClassInRange(size);
    BelowAligned(s.head, size);
    AlignedDown(s.head);
    hide SlabClass; hide Below;
    s1 := Step(s, Allocate(0, size));
    s' := Step(s1, Swap(0));
    assert s'.threads == s.threads;
  }

  lemma ClassInRange(size: nat)
    requires ALIGNMENT <= size <= 0x10_0000
    ensures 6 <= SlabClass(size) <= MAX_CLASS && size <= Pow2(SlabClass(size))
  {
    hide Pow2;
    Pow2Values();
    Pow2Next(5);
    UpperLog2IsCeiling(size);
    var c := UpperLog2(size);
    Pow2Less(5, c);
    if c > 20 { Pow2Ordered(20, c - 1); }
  }

  ghost predicate AllStep(r: seq<State>, acts: seq<Action>) {
    |r| == |acts| + 1 && forall i | 0 <= i < |acts| :: Enabled(r[i], acts[i]) && r[i + 1] == Step(r[i], acts[i])
  }

  /** Two blocks of one size: `a`, and `p` below it. */
  lemma CarveTwo(size: nat) returns (r: seq<State>, acts: seq<Action>, a: nat, p: nat)
    requires ALIGNMENT <= size <= 0x10_0000
    ensures IsRun(r, acts) && |r| == 5 && |acts| == 4 && Requests(acts, {size})
    ensures a in r[2].spots && (a % 64 == 0 <==> size % 64 == 0)
    ensures r[4].threads == Start().threads && r[4].spots == map[a := Live(size), p := Live(size)]
    ensures a >= size && (size % 64 == 0 ==> p == a - size)
  {
    var s1, s2 := Carve(Start(), size);
    var s3, s4 := Carve(s2, size);
    a, p := s2.head, s4.head;
    hide SlabClass; hide Step; hide Enabled;
    r, acts := [Start(), s1, s2, s3, s4], [Allocate(0, size), Swap(0), Allocate(0, size), Swap(0)];
    assert AllStep(r, acts);
  }

  /** A size that is not a multiple of 64 makes a block that is not aligned. */
  lemma Misaligned(size: nat) returns (r: seq<State>, acts: seq<Action>)
    requires ALIGNMENT <= size <= 0x10_0000 && size % 64 != 0
    ensures IsRun(r, acts) && Requests(acts, {size}) && |r| == 5 && !Sound(r[2])
  {
    var a, p;
    r, acts, a, p := CarveTwo(size);
    hide Pow2; hide IsRun; hide Requests;
  }

  /** For a multiple of 64 that is no power of two: two blocks are carved next to each other, the lower one is freed,
      and reusing it zeroes bytes of the other, which is in use. */
  lemma ReuseWipesNeighbour(size: nat) returns (r: seq<State>, acts: seq<Action>)
    requires ALIGNMENT <= size <= 0x10_0000 && size % 64 == 0 && !PowerOfTwo(size)
    ensures IsRun(r, acts) && Requests(acts, {size}) && |r| == 6
    ensures WipesLive(r[5], size) && !Sound(r[5])
  {
    hide Sound; hide WipesLive; hide Enabled; hide Step; hide PowerOfTwo; hide IsRun; hide Requests; hide Start;
    var a, p;
    r, acts, a, p := CarveTwo(size);
    var s' := FreeLower(r[4], a, size);
    r, acts := OneMore(r, acts, s', Deallocate(0, p, size), size);
  }

  lemma OneMore(r: seq<State>, acts: seq<Action>, s: State, a: Action, size: nat) returns (r': seq<State>, acts': seq<Action>)
    requires IsRun(r, acts) && Requests(acts, {size}) && !a.Allocate?
    requires Enabled(r[|acts|], a) && s == Step(r[|acts|], a)
    ensures IsRun(r', acts') && Requests(acts', {size}) && |r'| == |r| + 1 && r'[|r|] == s
  {
    hide Enabled; hide Step;
    r', acts' := r + [s], acts + [a];
    assert AllStep(r', acts') by { assert AllStep(r, acts); }
    assert r'[0] == r[0];
  }

  /** The next request of that size takes a block whose zeroing reaches into a block in use. */
  ghost predicate WipesLive(s: State, size: nat) {
    && Enabled(s, Allocate(0, size)) && ALIGNMENT <= size && s.threads[0].bits[SlabClass(size) - MIN_CLASS]
    && var (p, n) := Wiped(s.threads[0], SlabClass(size));
    exists a :: a in s.spots && s.spots[a].Live? && p < a < p + n
  }

  lemma FreeLower(s: State, a: nat, size: nat) returns (s': State)
    requires ALIGNMENT <= size <= 0x10_0000 && !PowerOfTwo(size) && size <= a
    requires s.threads == Start().threads && s.spots == map[a := Live(size), a - size := Live(size)]
    ensures Enabled(s, Deallocate(0, a - size, size)) && s' == Step(s, Deallocate(0, a - size, size))
    ensures WipesLive(s', size) && !Sound(s')
  {
    ClassInRange(size);
    ClassOfPower(size);
    var p, c := a - size, SlabClass(size);
    hide SlabClass; hide Pow2; hide PowerOfTwo;
    s' := Step(s, Deallocate(0, p, size));
    assert s'.spots[a] == Live(size) && s'.spots[p] == Freed(0, c);
    assert s'.threads[0].lists[c - MIN_CLASS] == [p];
    assert Wiped(s'.threads[0], c) == (p, Pow2(c));
  }

  /** Sizes are safe exactly when they are powers of two: if a program asks for nothing else, all blocks stay sound in
      every run, and if it asks for any other size some run breaks them. */
  lemma SoundIffPowersOfTwo(sizes: set<nat>)
    requires forall n | n in sizes :: ALIGNMENT <= n <= 0x10_0000
    ensures (forall r, acts, i | IsRun(r, acts) && Requests(acts, sizes) && 0 <= i < |r| :: Sound(r[i])) <==>
      forall n | n in sizes :: PowerOfTwo(n)
  {
    hide Sound; hide IsRun; hide PowerOfTwo;
    if forall n | n in sizes :: PowerOfTwo(n) {
      forall r, acts, i | IsRun(r, acts) && Requests(acts, sizes) && 0 <= i < |r| ensures Sound(r[i]) {
        BlocksApart(r, acts, i);
      }
    } else {
      var n :| n in sizes && !PowerOfTwo(n);
      if n % 64 != 0 {
        var r, acts := Misaligned(n);
        assert Requests(acts, sizes);
      } else {
        var r, acts := ReuseWipesNeighbour(n);
        assert Requests(acts, sizes);
      }
    }
  }
}
