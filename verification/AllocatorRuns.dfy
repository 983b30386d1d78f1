/** What the calls of the allocator end with: when a request gets a new block, an old one or none, how much a region
    holds, and in which order freed blocks come back.
 */
module AllocatorRuns {
  import opened Allocator

  // ---------- Bounds that hold in every run ----------

  ghost predicate ListsKnown(s: State) {
    forall t, i, j {:trigger s.threads[t].lists[i][j]} |
      0 <= t < |s.threads| && 0 <= i < |s.threads[t].lists| && 0 <= j < |s.threads[t].lists[i]| ::
        s.threads[t].lists[i][j] in s.spots
  }

  ghost predicate TryBounded(s: State, pc: Pc) {
    pc.Trying? ==> ALIGNMENT <= pc.size <= 0x10_0000 && s.head <= pc.seen <= s.end
  }

  /** Whatever sizes are asked for. */
  ghost predicate Bounded(s: State) {
    && 0x10_0000 <= s.base <= s.head <= s.end < ADDRESSES
    && (forall a | a in s.spots :: s.head <= a)
    && (forall t | 0 <= t < |s.threads| :: TryBounded(s, s.threads[t].pc))
    && ListsKnown(s) && AllListsOK(s)
  }

  /** A size that has a class is at most that of the largest class. */
  lemma SizeInClass(size: nat)
    requires ALIGNMENT <= size < 0x1_0000_0000 && SlabClass(size) - MIN_CLASS < CLASSES
    ensures size <= 0x10_0000
  {
    hide Pow2;
    Pow2Values();
    UpperLog2IsCeiling(size);
    Pow2Ordered(SlabClass(size), MAX_CLASS);
  }

  lemma BoundedStep(s: State, a: Action)
    requires Bounded(s) && Enabled(s, a)
    ensures Bounded(Step(s, a)) && Step(s, a).base == s.base && Step(s, a).end == s.end
  {
    ListsStep(s, a);
    hide AllListsOK;
    if a.Swap? { SwapBounded(s, a.t); } else { ListBounded(s, a); }
  }

  lemma SwapBounded(s: State, t: nat)
    requires Bounded(s) && Enabled(s, Swap(t)) && AllListsOK(Step(s, Swap(t)))
    ensures Bounded(Step(s, Swap(t))) && Step(s, Swap(t)).base == s.base && Step(s, Swap(t)).end == s.end
  {
    assert TryBounded(s, s.threads[t].pc);
    BelowAligned(s.threads[t].pc.seen, s.threads[t].pc.size);
    hide Below; hide AllListsOK; hide SlabClass;
  }

  lemma ListBounded(s: State, a: Action)
    requires Bounded(s) && Enabled(s, a) && !a.Swap? && AllListsOK(Step(s, a))
    ensures Bounded(Step(s, a)) && Step(s, a).base == s.base && Step(s, a).end == s.end
  {
    if a.Allocate? {
      assert AllListsOK(s) ==> ListsOK(s.threads[a.t]);
      SizeInClass(Rounded(a.bytes));
    }
    hide SlabClass; hide Pow2; hide AllListsOK;
  }

  lemma InitBounded(s: State)
    requires Init(s)
    ensures Bounded(s)
  {}

  lemma {:induction false} RunBounded(r: seq<State>, acts: seq<Action>, i: nat)
    requires IsRun(r, acts) && i < |r|
    ensures Bounded(r[i]) && r[i].base == r[0].base && r[i].end == r[0].end
  {
    hide Bounded; hide Step; hide Enabled;
    if i == 0 {
      InitBounded(r[0]);
    } else {
      hide Init;
      RunBounded(r, acts, i - 1);
      BoundedStep(r[i - 1], acts[i - 1]);
    }
  }

  // ---------- How a request for new memory ends ----------

  /** How one try to move the head ends. With `top` the aligned head that the thread saw less its size, the call ends
      without a block if and only if `top` is below the region. Otherwise it ends with the new block at `top`, which
      becomes the head, if the head is the one it saw; and tries again with the current head if it has moved. */
  ghost predicate TryEnds(s: State, s': State, t: nat)
    requires t < |s.threads| && s.threads[t].pc.Trying?
  {
    var th := s.threads[t];
    var size, top := th.pc.size, th.pc.seen - th.pc.seen % 64 - th.pc.size;
    if top < s.base then
      s' == s.(threads := s.threads[t := th.(pc := Quiet)])
    else if th.pc.seen == s.head then
      && top < s.head && top !in s.spots
      && s' == s.(threads := s.threads[t := th.(pc := Quiet)], head := top,
                  carved := s.carved[top := size], spots := s.spots[top := Live(size)])
    else
      s' == s.(threads := s.threads[t := th.(pc := Trying(size, s.head))])
  }

  lemma SwapOutcome(r: seq<State>, acts: seq<Action>, i: nat, t: nat)
    requires IsRun(r, acts) && i < |r| && Enabled(r[i], Swap(t))
    ensures TryEnds(r[i], Step(r[i], Swap(t)), t)
  {
    hide Step; hide TryEnds; hide Bounded;
    RunBounded(r, acts, i);
    hide IsRun;
    SwapResult(r[i], t);
  }

  lemma SwapResult(s: State, t: nat)
    requires Bounded(s) && Enabled(s, Swap(t))
    ensures TryEnds(s, Step(s, Swap(t)), t)
  {
    assert TryBounded(s, s.threads[t].pc);
    BelowAligned(s.threads[t].pc.seen, s.threads[t].pc.size);
    hide Below; hide AllListsOK; hide ListsKnown;
  }

  // ---------- How much a region holds ----------

  predicate Carves(s: State, a: Action)
    requires Enabled(s, a)
  {
    Step(s, a).head != s.head
  }

  /** The bytes taken from the head before step `i`. */
  ghost function Taken(r: seq<State>, acts: seq<Action>, i: nat): nat
    requires IsRun(r, acts) && i < |r|
  {
    if i == 0 then 0
    else Taken(r, acts, i - 1) + if Carves(r[i - 1], acts[i - 1]) then r[i - 1].threads[acts[i - 1].t].pc.size else 0
  }

  /** How many blocks were taken from the head before step `i`. */
  ghost function Carved(r: seq<State>, acts: seq<Action>, i: nat): nat
    requires IsRun(r, acts) && i < |r|
  {
    if i == 0 then 0 else Carved(r, acts, i - 1) + if Carves(r[i - 1], acts[i - 1]) then 1 else 0
  }

  /** Only a try moves the head. */
  lemma OnlySwapsCarve(s: State, a: Action)
    requires Enabled(s, a) && Carves(s, a)
    ensures a.Swap? && s.threads[a.t].pc.seen == s.head
  {
    hide SlabClass; hide Pow2; hide Below;
  }

  function Aligned(x: nat): nat { x - x % 64 }

  predicate Whole(x: nat) { x % 64 == 0 }

  lemma {:induction false} HeadIsRest(r: seq<State>, acts: seq<Action>, i: nat)
    requires IsRun(r, acts) && FitRequests(acts) && i < |r|
    ensures Whole(Taken(r, acts, i)) && Aligned(r[i].head) == Aligned(r[0].end) - Taken(r, acts, i)
  {
    hide Step; hide Enabled; hide Inv; hide Bounded; hide Carves; hide Aligned;
    if i == 0 {
      assert Init(r[0]);
    } else {
      hide Init;
      HeadIsRest(r, acts, i - 1);
      RunInv(r, acts, i - 1);
      RunBounded(r, acts, i - 1);
      HeadStep(r, acts, i);
    }
  }

  lemma HeadStep(r: seq<State>, acts: seq<Action>, i: nat)
    requires IsRun(r, acts) && 0 < i < |r| && Inv(r[i - 1]) && Bounded(r[i - 1])
    requires Whole(Taken(r, acts, i - 1))
    ensures Whole(Taken(r, acts, i))
    ensures Taken(r, acts, i) - Taken(r, acts, i - 1) == Aligned(r[i - 1].head) - Aligned(r[i].head)
  {
    hide Step; hide Enabled; hide Inv; hide Bounded; hide Carves; hide Taken; hide Aligned; hide Whole;
    OneMoreTaken(r, acts, i);
    hide IsRun;
    CarveLowers(r[i - 1], acts[i - 1], Taken(r, acts, i - 1));
  }

  lemma OneMoreTaken(r: seq<State>, acts: seq<Action>, i: nat)
    requires IsRun(r, acts) && 0 < i < |r|
    ensures r[i] == Step(r[i - 1], acts[i - 1]) && Enabled(r[i - 1], acts[i - 1])
    ensures if Carves(r[i - 1], acts[i - 1]) then acts[i - 1].t < |r[i - 1].threads|
      && r[i - 1].threads[acts[i - 1].t].pc.Trying? && r[i - 1].threads[acts[i - 1].t].pc.seen == r[i - 1].head
      && Taken(r, acts, i) == Taken(r, acts, i - 1) + r[i - 1].threads[acts[i - 1].t].pc.size
      && Carved(r, acts, i) == Carved(r, acts, i - 1) + 1
      else Taken(r, acts, i) == Taken(r, acts, i - 1) && Carved(r, acts, i) == Carved(r, acts, i - 1)
  {
    assert Enabled(r[i - 1], acts[i - 1]);
    if Carves(r[i - 1], acts[i - 1]) { OnlySwapsCarve(r[i - 1], acts[i - 1]); }
    hide Step;
  }

  lemma CarveLowers(s: State, a: Action, taken: nat)
    requires Inv(s) && Bounded(s) && Enabled(s, a) && Whole(taken)
    ensures var head := Step(s, a).head; if Carves(s, a) then
      Whole(taken + s.threads[a.t].pc.size) && Aligned(head) == Aligned(s.head) - s.threads[a.t].pc.size
      else head == s.head
  {
    if Carves(s, a) {
      OnlySwapsCarve(s, a);
      SwapResult(s, a.t);
      assert Allocator.ThreadOK(s, a.t);
      FitClass(s.threads[a.t].pc.size);
      hide Step; hide Enabled; hide SlabClass; hide Inv; hide Fit; hide Bounded; hide Pow2; hide Allocator.ThreadOK;
      AlignedLess(s.head, s.threads[a.t].pc.size, taken);
    }
  }

  lemma AlignedLess(head: nat, size: nat, taken: nat)
    requires size % 64 == 0 && taken % 64 == 0 && head - head % 64 >= size
    ensures var top := head - head % 64 - size; top - top % 64 == top && (taken + size) % 64 == 0
  {
    AlignedDown(head);
  }

  /** In runs that ask for powers of two, a request is refused only when the region cannot hold it beside everything
      taken before, and whatever is given fits: the bytes taken never exceed the aligned region. */
  lemma RefusedIffFull(r: seq<State>, acts: seq<Action>, i: nat, t: nat)
    requires IsRun(r, acts) && FitRequests(acts) && i < |acts| && acts[i] == Swap(t)
    ensures var room, size := r[0].end - r[0].end % 64 - r[0].base - Taken(r, acts, i), r[i].threads[t].pc.size;
      && (Carves(r[i], acts[i]) ==> size <= room && Taken(r, acts, i + 1) == Taken(r, acts, i) + size)
      && (r[i + 1].threads[t].pc.Quiet? && !Carves(r[i], acts[i]) ==> size > room)
      && (r[i].threads[t].pc.seen == r[i].head ==> (Carves(r[i], acts[i]) <==> size <= room))
  {
    var seen, size := r[i].threads[t].pc.seen, r[i].threads[t].pc.size;
    RunBounded(r, acts, i);
    assert TryBounded(r[i], r[i].threads[t].pc);
    HeadIsRest(r, acts, i);
    SwapOutcome(r, acts, i, t);
    AlignedMonotone(r[i].head, seen);
    assert Taken(r, acts, i + 1) == Taken(r, acts, i) + if Carves(r[i], acts[i]) then size else 0;
    hide Step; hide SlabClass; hide Bounded;
  }

  lemma AlignedMonotone(a: nat, b: nat)
    requires a <= b
    ensures a - a % 64 <= b - b % 64
  {
    AlignedDown(a);
    AlignedDown(b);
  }

  ghost predicate AllOfSize(acts: seq<Action>, n: nat) {
    forall i | 0 <= i < |acts| && acts[i].Allocate? :: Rounded(acts[i].bytes) == n
  }

  ghost predicate AllTry(s: State, n: nat) {
    forall t | 0 <= t < |s.threads| :: s.threads[t].pc.Trying? ==> s.threads[t].pc.size == n
  }

  predicate Product(x: nat, n: nat, k: nat) { x == n * k }

  lemma OneMore(x: nat, n: nat, k: nat)
    requires Product(x, n, k)
    ensures Product(x + n, n, k + 1)
  {
    Distribute(n, k, 1);
  }

  lemma {:induction false} SameSizes(r: seq<State>, acts: seq<Action>, i: nat, n: nat)
    requires IsRun(r, acts) && AllOfSize(acts, n) && i < |r|
    ensures AllTry(r[i], n)
    ensures Product(Taken(r, acts, i), n, Carved(r, acts, i))
  {
    hide Step; hide Enabled; hide Carves;
    if i == 0 {
      assert Init(r[0]);
    } else {
      hide Init;
      SameSizes(r, acts, i - 1, n);
      SizesNext(r, acts, i, n);
    }
  }

  lemma SizesNext(r: seq<State>, acts: seq<Action>, i: nat, n: nat)
    requires IsRun(r, acts) && AllOfSize(acts, n) && 0 < i < |r|
    requires AllTry(r[i - 1], n) && Product(Taken(r, acts, i - 1), n, Carved(r, acts, i - 1))
    ensures AllTry(r[i], n)
    ensures Product(Taken(r, acts, i), n, Carved(r, acts, i))
  {
    hide Taken; hide Carved; hide AllOfSize; hide Step; hide Enabled; hide Carves; hide Product;
    OneMoreTaken(r, acts, i);
    SizeAsked(acts, i - 1, n);
    hide IsRun;
    SizesStep(r[i - 1], acts[i - 1], n);
    OneMore(Taken(r, acts, i - 1), n, Carved(r, acts, i - 1));
  }

  lemma SizeAsked(acts: seq<Action>, i: nat, n: nat)
    requires AllOfSize(acts, n) && i < |acts|
    ensures acts[i].Allocate? ==> Rounded(acts[i].bytes) == n
  {}

  lemma SizesStep(s: State, a: Action, n: nat)
    requires Enabled(s, a) && (a.Allocate? ==> Rounded(a.bytes) == n)
    requires AllTry(s, n)
    ensures AllTry(Step(s, a), n)
  {
    hide SlabClass; hide Below; hide Pow2;
  }

  lemma Distribute(n: int, a: int, b: int)
    ensures n * (a + b) == n * a + n * b
  {}

  /** When every request is for `n` bytes, a power of two, the region gives exactly as many blocks as fit between its
      base and its aligned end: a request that finds the head unmoved fails if and only if they are all taken. */
  lemma Capacity(r: seq<State>, acts: seq<Action>, i: nat, t: nat, n: nat)
    requires IsRun(r, acts) && AllOfSize(acts, n) && Fit(n) && i < |acts| && acts[i] == Swap(t)
    requires r[i].threads[t].pc.seen == r[i].head && r[0].base <= r[0].end - r[0].end % 64
    ensures Carved(r, acts, i) <= (r[0].end - r[0].end % 64 - r[0].base) / n
    ensures r[i + 1].threads[t].pc.Quiet?
    ensures !Carves(r[i], acts[i]) <==> Carved(r, acts, i) == (r[0].end - r[0].end % 64 - r[0].base) / n
  {
    hide Fit; hide Taken; hide Carved; hide Carves; hide SlabClass;
    assert Enabled(r[i], acts[i]) && r[i + 1] == Step(r[i], acts[i]);
    assert FitRequests(acts);
    var region, k := r[0].end - r[0].end % 64 - r[0].base, Carved(r, acts, i);
    SameSizes(r, acts, i, n);
    RefusedIffFull(r, acts, i, t);
    SwapOutcome(r, acts, i, t);
    TakenFits(r, acts, i);
    FitPositive(n);
    hide Step; hide Enabled; hide IsRun;
    FullIff(region, n, k);
  }

  lemma FullIff(region: nat, n: nat, k: nat)
    requires n > 0 && n * k <= region
    ensures k <= region / n && (n <= region - n * k <==> k < region / n)
  {
    Times(region / n, k, n);
    Times(region / n, k + 1, n);
    assert region == n * (region / n) + region % n;
    assert n * (k + 1) == n * k + n;
  }

  lemma Times(q: int, k: int, n: int)
    requires n > 0
    ensures q >= k ==> n * q >= n * k
    ensures q < k ==> n * q + n <= n * k
  {
    Distribute(n, q, k - q);
    Distribute(n, k, q - k);
    if q < k { AtLeastOnce(n, k - q); } else { AtLeastOnce(n, q - k + 1); Distribute(n, q - k, 1); }
  }

  lemma {:induction false} AtLeastOnce(n: nat, d: nat)
    requires d >= 1
    ensures n * d >= n
  {
    if d > 1 { AtLeastOnce(n, d - 1); Distribute(n, d - 1, 1); }
  }

  /** Everything taken lies in the region. */
  lemma {:induction false} TakenFits(r: seq<State>, acts: seq<Action>, i: nat)
    requires IsRun(r, acts) && FitRequests(acts) && i < |r| && r[0].base <= r[0].end - r[0].end % 64
    ensures Taken(r, acts, i) <= r[0].end - r[0].end % 64 - r[0].base
  {
    hide Step; hide Enabled; hide Carves; hide Init;
    if i > 0 {
      TakenFits(r, acts, i - 1);
      OneMoreTaken(r, acts, i);
      if Carves(r[i - 1], acts[i - 1]) {
        assert acts[i - 1].Swap? by { OnlySwapsCarve(r[i - 1], acts[i - 1]); }
        RefusedIffFull(r, acts, i - 1, acts[i - 1].t);
      }
      hide Taken; hide IsRun;
    }
  }

  // ---------- Free lists ----------

  /** A request that a block of the thread's free list answers. */
  ghost predicate Reuses(s: State, a: Action, t: nat, c: nat) {
    && Enabled(s, a) && a.Allocate? && a.t == t && c == SlabClass(Rounded(a.bytes))
    && c - MIN_CLASS < |s.threads[t].lists| && s.threads[t].lists[c - MIN_CLASS] != []
  }

  ghost predicate Frees(s: State, a: Action, t: nat, c: nat) {
    Enabled(s, a) && a.Deallocate? && a.t == t && c == SlabClass(a.bytes)
  }

  /** The blocks of class `c` that thread `t` freed before step `i`, in order. */
  ghost function FreedOf(r: seq<State>, acts: seq<Action>, i: nat, t: nat, c: nat): seq<nat>
    requires IsRun(r, acts) && i < |r|
  {
    if i == 0 then []
    else FreedOf(r, acts, i - 1, t, c) + if Frees(r[i - 1], acts[i - 1], t, c) then [acts[i - 1].p] else []
  }

  /** How many requests of thread `t` were answered with a freed block of class `c`. */
  ghost function ReusedOf(r: seq<State>, acts: seq<Action>, i: nat, t: nat, c: nat): nat
    requires IsRun(r, acts) && i < |r|
  {
    if i == 0 then 0 else ReusedOf(r, acts, i - 1, t, c) + if Reuses(r[i - 1], acts[i - 1], t, c) then 1 else 0
  }

  /** What a step does to a free list. */
  lemma ListStep(s: State, a: Action, t: nat, c: nat)
    requires Enabled(s, a) && AllListsOK(s) && t < |s.threads| && MIN_CLASS <= c <= MAX_CLASS
    ensures |s.threads[t].lists| == CLASSES == |Step(s, a).threads[t].lists|
    ensures var was, now := s.threads[t].lists[c - MIN_CLASS], Step(s, a).threads[t].lists[c - MIN_CLASS];
      if Frees(s, a, t, c) then now == was + [a.p]
      else if Reuses(s, a, t, c) then was != [] && now == was[1..]
      else now == was
  {
    hide SlabClass; hide Pow2; hide Below;
    assert ListsOK(s.threads[t]) && ListsOK(s.threads[a.t]);
  }

  lemma {:induction false} RunLists(r: seq<State>, acts: seq<Action>, i: nat, t: nat, c: nat)
    requires IsRun(r, acts) && i < |r| && t < |r[i].threads| && MIN_CLASS <= c <= MAX_CLASS
    ensures |r[i].threads[t].lists| == CLASSES && ReusedOf(r, acts, i, t, c) <= |FreedOf(r, acts, i, t, c)|
    ensures r[i].threads[t].lists[c - MIN_CLASS] == FreedOf(r, acts, i, t, c)[ReusedOf(r, acts, i, t, c)..]
  {
    if i > 0 {
      ListsStayOK(r, acts, i - 1);
      SameThreads(r[i - 1], acts[i - 1]);
      RunLists(r, acts, i - 1, t, c);
      ListStep(r[i - 1], acts[i - 1], t, c);
      hide Step; hide Enabled; hide Frees; hide Reuses; hide AllListsOK;
    }
  }

  lemma SameThreads(s: State, a: Action)
    requires Enabled(s, a)
    ensures |Step(s, a).threads| == |s.threads|
  {}

  /** Every request of a thread takes the oldest block of its class that the thread has freed and not taken again,
      zeroed up to the size of the class; and goes to the head, leaving all else alone, if and only if there is none. */
  lemma OldestFirst(r: seq<State>, acts: seq<Action>, i: nat, t: nat, bytes: nat, c: nat)
    requires IsRun(r, acts) && i < |acts| && acts[i] == Allocate(t, bytes) && c == SlabClass(Rounded(bytes))
    ensures MIN_CLASS <= c <= MAX_CLASS
    ensures
      var s, s', freed, k := r[i], r[i + 1], FreedOf(r, acts, i, t, c), ReusedOf(r, acts, i, t, c);
      if k < |freed| then
        s'.spots == s.spots[freed[k] := Live(Pow2(c))] && s'.threads[t].pc.Quiet? && s'.head == s.head
      else
        k == |freed| &&
        s' == s.(threads := s.threads[t := s.threads[t].(pc := Trying(if bytes < 64 then 64 else bytes, s.head))])
  {
    ListsStayOK(r, acts, i);
    AllocateResult(r[i], t, bytes, c);
    RunLists(r, acts, i, t, c);
    hide SlabClass; hide Pow2; hide Step; hide Enabled;
  }

  lemma AllocateResult(s: State, t: nat, bytes: nat, c: nat)
    requires AllListsOK(s) && Enabled(s, Allocate(t, bytes)) && c == SlabClass(Rounded(bytes))
    ensures MIN_CLASS <= c <= MAX_CLASS && |s.threads[t].lists| == CLASSES
    ensures
      var s', list := Step(s, Allocate(t, bytes)), s.threads[t].lists[c - MIN_CLASS];
      if list != [] then
        s'.spots == s.spots[list[0] := Live(Pow2(c))] && s'.threads[t].pc.Quiet? && s'.head == s.head
      else
        s' == s.(threads := s.threads[t := s.threads[t].(pc := Trying(if bytes < 64 then 64 else bytes, s.head))])
  {
    hide SlabClass; hide Pow2;
    assert ListsOK(s.threads[t]);
  }

  // ---------- No block is lost ----------

  /** Block `a` is in this place of a free list. */
  predicate ListedAt(s: State, a: nat, t: nat, i: nat, j: nat) {
    t < |s.threads| && i < |s.threads[t].lists| && j < |s.threads[t].lists[i]| && s.threads[t].lists[i][j] == a
  }

  /** In runs that ask for powers of two, every block ever taken from the head is either in use or in exactly one place
      of one free list, the list of a class no larger than the block. */
  lemma NoBlockLost(r: seq<State>, acts: seq<Action>, k: nat, a: nat)
    requires IsRun(r, acts) && FitRequests(acts) && k < |r|
    ensures a in r[k].carved <==> a in r[k].spots
    ensures a in r[k].spots && r[k].spots[a].Live? ==> forall t: nat, i: nat, j: nat :: !ListedAt(r[k], a, t, i, j)
    ensures a in r[k].spots && r[k].spots[a].Freed? ==> exists t: nat, i: nat, j: nat ::
      && ListedAt(r[k], a, t, i, j) && Pow2(i + MIN_CLASS) <= r[k].carved[a]
      && forall t': nat, i': nat, j': nat | ListedAt(r[k], a, t', i', j') :: t' == t && i' == i && j' == j
  {
    var s := r[k];
    hide IsRun; hide FitRequests; hide Inv; hide Pow2;
    RunInv(r, acts, k);
    forall t: nat, i: nat, j: nat | ListedAt(s, a, t, i, j) ensures a in s.spots && s.spots[a] == Freed(t, i + MIN_CLASS) {
      ListedIsFreed(s, a, t, i, j);
    }
    forall t: nat, i: nat, j: nat, j': nat | ListedAt(s, a, t, i, j) && ListedAt(s, a, t, i, j') ensures j == j' {
      ListedOnce(s, a, t, i, j, j');
    }
    KeysOf(s);
    if a in s.spots && s.spots[a].Freed? {
      var t, i, j := FreedIsListed(s, a);
      assert ListedAt(s, a, t, i, j);
    }
  }

  lemma KeysOf(s: State)
    requires Inv(s)
    ensures s.spots.Keys == s.carved.Keys
  {}

  lemma ListedIsFreed(s: State, a: nat, t: nat, i: nat, j: nat)
    requires Inv(s) && ListedAt(s, a, t, i, j)
    ensures a in s.spots && s.spots[a] == Freed(t, i + MIN_CLASS)
  {
    assert Allocator.ThreadOK(s, t);
  }

  lemma ListedOnce(s: State, a: nat, t: nat, i: nat, j: nat, k: nat)
    requires Inv(s) && ListedAt(s, a, t, i, j) && ListedAt(s, a, t, i, k)
    ensures j == k
  {
    assert Allocator.ThreadOK(s, t);
  }

  lemma FreedIsListed(s: State, a: nat) returns (t: nat, i: nat, j: nat)
    requires Inv(s) && a in s.spots && s.spots[a].Freed?
    ensures ListedAt(s, a, t, i, j) && a in s.carved && Pow2(i + MIN_CLASS) <= s.carved[a]
  {
    assert SpotOK(s, a);
    t, i := s.spots[a].thread, s.spots[a].cls - MIN_CLASS;
    j :| 0 <= j < |s.threads[t].lists[i]| && s.threads[t].lists[i][j] == a;
  }

  /** Every thread that is not inside a request may ask for any size up to the largest class, and free any part of any
      block in use. */
  lemma AnyoneMayCall(r: seq<State>, acts: seq<Action>, i: nat, t: nat)
    requires IsRun(r, acts) && i < |r| && t < |r[i].threads|
    ensures forall bytes: nat | r[i].threads[t].pc.Quiet? && bytes <= 0x10_0000 :: Enabled(r[i], Allocate(t, bytes))
    ensures forall p: nat, bytes: nat | p in r[i].spots && r[i].spots[p].Live? && 1 <= bytes <= r[i].spots[p].size <= 0x10_0000 ::
      Enabled(r[i], Deallocate(t, p, bytes))
  {
    ListsStayOK(r, acts, i);
    assert ListsOK(r[i].threads[t]);
    forall bytes: nat | 1 <= bytes <= 0x10_0000 ensures HasClass(r[i].threads[t], SlabClass(bytes)) {
      ClassUpTo(bytes);
    }
    hide SlabClass; hide HasClass; hide IsRun; hide AllListsOK;
  }

  lemma ClassUpTo(bytes: nat)
    requires 1 <= bytes <= 0x10_0000
    ensures MIN_CLASS <= SlabClass(bytes) <= MAX_CLASS
  {
    hide Pow2;
    Pow2Values();
    UpperLog2IsCeiling(bytes);
    var c := UpperLog2(bytes);
    if c > 0 { Pow2Less(c - 1, 20); }
  }
}
