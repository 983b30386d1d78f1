/** How the two-sided map divides its keys among the nodes. */
module KeyPartition {
  /** `len` is upper bound minus lower bound; both bounds are keys. */
  datatype Space = Space(count: nat, lb: int, len: nat) {
    ghost predicate Valid() { count > 0 && len > 0 }

    predicate Holds(key: int) { lb <= key <= lb + len }

    /** The division truncates, and the one key past the last share goes to the last node. */
    function ToId(key: int): (id: int)
      requires count > 0 && len > 0 && Holds(key)
    {
      var id := count * (key - lb) / len;
      if id == count then id - 1 else id
    }

    /** The offset of the first key of node `i`. */
    function First(i: nat): nat
      requires count > 0
    {
      (i * len + count - 1) / count
    }
  }

  lemma DivBounds(a: int, d: int)
    requires d > 0
    ensures d * (a / d) <= a < d * (a / d) + d
  {}

  lemma DivUnique(a: int, d: int, q: int)
    requires d > 0 && d * q <= a < d * q + d
    ensures a / d == q
  {
    DivBounds(a, d);
    if a / d < q { MulMono(d, a / d + 1, q); }
    if a / d > q { MulMono(d, q + 1, a / d); }
  }

  lemma MulMono(d: int, a: int, b: int)
    requires d >= 0 && a <= b
    ensures d * a <= d * b
  {}

  /** Every key of the space has a node. */
  lemma ToIdInRange(s: Space, key: int)
    requires s.Valid() && s.Holds(key)
    ensures 0 <= s.ToId(key) < s.count
    ensures key == s.lb + s.len ==> s.ToId(key) == s.count - 1
  {
    var x := key - s.lb;
    DivBounds(s.count * x, s.len);
    MulMono(s.count, x, s.len);
    MulMono(s.count, 0, x);
    var q := s.count * x / s.len;
    if q < 0 { MulMono(s.len, q, -1); }
    if q > s.count { MulMono(s.len, s.count + 1, q); }
    if x == s.len { DivUnique(s.count * s.len, s.len, s.count); }
    if x < s.len && q == s.count { MulMono(s.count, x, s.len - 1); }
  }

  /** Larger keys never have smaller nodes. */
  lemma ToIdMonotone(s: Space, key: int, key': int)
    requires s.Valid() && s.Holds(key) && s.Holds(key') && key <= key'
    ensures s.ToId(key) <= s.ToId(key')
  {
    ToIdInRange(s, key);
    ToIdInRange(s, key');
    MulMono(s.count, key - s.lb, key' - s.lb);
    DivMono(s.count * (key - s.lb), s.count * (key' - s.lb), s.len);
  }

  lemma DivMono(a: int, b: int, d: int)
    requires d > 0 && a <= b
    ensures a / d <= b / d
  {
    DivBounds(a, d);
    DivBounds(b, d);
    if a / d > b / d { MulMono(d, b / d + 1, a / d); }
  }

  /** Below the upper bound the keys of node `i` are exactly those from `First(i)` up to `First(i + 1)`. */
  lemma NodeOwnsRange(s: Space, key: int, i: nat)
    requires s.Valid() && s.Holds(key) && key < s.lb + s.len && i < s.count
    ensures s.ToId(key) == i <==> s.First(i) <= key - s.lb < s.First(i + 1)
  {
    var x := key - s.lb;
    NotPastLast(s, x);
    FloorIs(s.count * x, s.len, i);
    FirstAtMost(s, i, x);
    FirstAtMost(s, i + 1, x);
    hide Space.First;
  }

  lemma NotPastLast(s: Space, x: int)
    requires s.Valid() && 0 <= x < s.len
    ensures s.count * x / s.len < s.count
  {
    DivBounds(s.count * x, s.len);
    MulMono(s.count, x, s.len - 1);
    if s.count * x / s.len >= s.count { MulMono(s.len, s.count, s.count * x / s.len); }
  }

  lemma FloorIs(a: int, d: int, i: int)
    requires d > 0
    ensures a / d == i <==> i * d <= a < (i + 1) * d
  {
    DivBounds(a, d);
    if i * d <= a < (i + 1) * d { DivUnique(a, d, i); }
  }

  lemma FirstAtMost(s: Space, i: nat, x: int)
    requires s.Valid()
    ensures s.First(i) <= x <==> i * s.len <= s.count * x
  {
    var f := s.First(i);
    DivBounds(i * s.len + s.count - 1, s.count);
    if f <= x { MulMono(s.count, f, x); } else { MulMono(s.count, x + 1, f); }
  }

  /** The shares of the nodes tile the keys below the upper bound, and no two differ by more than one. */
  lemma SharesEven(s: Space, i: nat)
    requires s.Valid() && i < s.count
    ensures s.First(0) == 0 && s.First(s.count) == s.len && s.Holds(s.lb + s.First(i)) && s.Holds(s.lb + s.len)
    ensures s.len / s.count <= s.First(i + 1) - s.First(i) <= s.len / s.count + 1
  {
    FirstAtMost(s, 0, 0);
    FirstAtMost(s, 0, -1);
    DivUnique(s.count * s.len + s.count - 1, s.count, s.len);
    var a := i * s.len + s.count - 1;
    DivBounds(a, s.count);
    DivBounds(s.len, s.count);
    DivBounds(a + s.len, s.count);
    assert (i + 1) * s.len + s.count - 1 == a + s.len;
    var c, f, g, q := s.count, a / s.count, (a + s.len) / s.count, s.len / s.count;
    if g - f < q { MulMono(c, g + 1, f + q); Spread(c, f, q); Spread(c, g, 1); }
    if g - f > q + 1 { MulMono(c, f + q + 2, g); Spread(c, f, q); Spread(c, f + q, 2); }
    MulMono(s.len, i, s.count);
    FirstAtMost(s, i, s.len);
  }

  lemma Spread(c: int, a: int, b: int)
    ensures c * (a + b) == c * a + c * b
  {}

  // ---------- 32-bit arithmetic ----------

  const INT32: int := 0x1_0000_0000

  /** What is left of an integer in a signed 32-bit word. */
  function Wrapped(x: int): int { if x % INT32 < 0x8000_0000 then x % INT32 else x % INT32 - INT32 }

  /** Division that truncates towards zero. */
  function Quotient(a: int, d: int): int
    requires d > 0
  {
    if a >= 0 then a / d else -(-a / d)
  }

  /** `to_id` as computed in 32-bit words. */
  function ToId32(s: Space, key: int): int
    requires s.count > 0 && s.len > 0
  {
    var id := Quotient(Wrapped(s.count * Wrapped(key - s.lb)), s.len);
    if id == s.count then id - 1 else id
  }

  lemma WrappedIs(x: int)
    ensures 0 <= x < 0x8000_0000 ==> Wrapped(x) == x
    ensures x >= 0x8000_0000 ==> Wrapped(x) <= x - INT32
  {
    DivBounds(x, INT32);
    if x >= INT32 { MulMono(INT32, 1, x / INT32); }
  }

  /** The 32-bit computation finds the right node for all keys of a space if and only if the number of nodes times the
      length of the space stays below 2^31; otherwise the upper bound is sent elsewhere. */
  lemma ToId32RightIff(s: Space)
    requires s.Valid() && s.len < 0x8000_0000
    ensures (forall key | s.Holds(key) :: ToId32(s, key) == s.ToId(key)) <==> s.count * s.len < 0x8000_0000
  {
    if s.count * s.len < 0x8000_0000 {
      forall key | s.Holds(key) ensures ToId32(s, key) == s.ToId(key) {
        var x := key - s.lb;
        MulMono(s.count, x, s.len);
        MulMono(s.count, 0, x);
        WrappedIs(x);
        WrappedIs(s.count * x);
      }
    } else {
      UpperBoundLost(s);
      assert s.Holds(s.lb + s.len);
    }
  }

  lemma UpperBoundLost(s: Space)
    requires s.Valid() && s.len < 0x8000_0000 <= s.count * s.len
    ensures ToId32(s, s.lb + s.len) != s.ToId(s.lb + s.len)
  {
    ToIdInRange(s, s.lb + s.len);
    WrappedIs(s.len);
    WrappedIs(s.count * s.len);
    var w := Wrapped(s.count * s.len);
    assert s.count >= 2;
    if w >= 0 {
      DivBounds(w, s.len);
      Spread(s.len, s.count - 1, 1);
      if w / s.len >= s.count - 1 { MulMono(s.len, s.count - 1, w / s.len); }
    } else {
      DivBounds(-w, s.len);
      if -w / s.len < 0 { MulMono(s.len, -w / s.len, -1); }
    }
  }
}
