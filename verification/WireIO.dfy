/** Writing records at a pointer into a buffer, and reading them at a pointer into one. */
module WireIO {
  import opened Wire
  import opened Messages

  // ---------- Sizes ----------

  lemma NumberSize(tag: nat, n: nat)
    requires tag < 128
    ensures |EncodeAll(Field(tag, n))| == if n == 0 then 0 else 1 + VarintSize(n)
    ensures n != 0 ==> EncodeAll(Field(tag, n)) == [tag] + Varint(n)
  {
    if n != 0 {
      VarintSizeIsLength(n);
      assert Field(tag, n)[1..] == [];
      assert EncodeAll(Field(tag, n)) == Encode(Number(tag, n)) + EncodeAll([]);
    }
  }

  lemma BlockSize(tag: nat, s: Bytes)
    requires tag < 128
    ensures |EncodeAll([Block(tag, s)])| == 1 + VarintSize(|s|) + |s|
    ensures EncodeAll([Block(tag, s)]) == [tag] + Varint(|s|) + s
  {
    VarintSizeIsLength(|s|);
    assert [Block(tag, s)][1..] == [];
    assert EncodeAll([Block(tag, s)]) == Encode(Block(tag, s)) + EncodeAll([]);
  }

  lemma PackedSize(tag: nat, xs: seq<nat>)
    requires tag < 128
    ensures |EncodeAll(Packed(tag, xs))| == if xs == [] then 0 else 1 + VarintSize(PackSize(xs)) + PackSize(xs)
  {
    PackSizeIsLength(xs);
    if xs != [] { BlockSize(tag, Pack(xs)); }
  }

  lemma {:induction false} BlocksLast(tag: nat, ss: seq<Bytes>, s: Bytes)
    ensures Blocks(tag, ss + [s]) == Blocks(tag, ss) + [Block(tag, s)]
  {
    if ss == [] {
      assert [s][1..] == [];
    } else {
      BlocksLast(tag, ss[1..], s);
      assert (ss + [s])[1..] == ss[1..] + [s];
    }
  }

  /** The encoding of the first `i + 1` strings. */
  lemma BlocksNext(tag: nat, ss: seq<Bytes>, i: nat)
    requires i < |ss| && tag < 128
    ensures EncodeAll(Blocks(tag, ss[..i + 1])) == EncodeAll(Blocks(tag, ss[..i])) + EncodeAll([Block(tag, ss[i])])
    ensures |EncodeAll([Block(tag, ss[i])])| == 1 + VarintSize(|ss[i]|) + |ss[i]|
  {
    assert ss[..i + 1] == ss[..i] + [ss[i]];
    BlocksLast(tag, ss[..i], ss[i]);
    EncodeConcat(Blocks(tag, ss[..i]), [Block(tag, ss[i])]);
    BlockSize(tag, ss[i]);
  }

  /** The size of a repeated string: one byte of tag for each, and each with its own size. */
  method StringsSize(tag: nat, ss: seq<Bytes>) returns (total: nat)
    requires tag < 128
    ensures total == |EncodeAll(Blocks(tag, ss))|
  {
    total := 1 * |ss|;
    var i := 0;
    while i < |ss|
      invariant 0 <= i <= |ss|
      invariant total == |EncodeAll(Blocks(tag, ss[..i]))| + (|ss| - i)
    {
      BlocksNext(tag, ss, i);
      total := total + VarintSize(|ss[i]|) + |ss[i]|;
      i := i + 1;
    }
    assert ss[..i] == ss;
  }

  // ---------- Writing ----------

  method PutVarint(buf: array<Byte>, target: nat, n: nat) returns (next: nat)
    requires target + VarintSize(n) <= buf.Length
    modifies buf
    ensures next == target + VarintSize(n)
    ensures buf[..next] == old(buf[..target]) + Varint(n)
  {
    var x := n;
    next := target;
    while x >= 128
      invariant target <= next && next + VarintSize(x) == target + VarintSize(n)
      invariant buf[..target] == old(buf[..target])
      invariant Varint(n) == buf[target..next] + Varint(x)
      decreases x
    {
      buf[next] := 128 + x % 128;
      assert buf[target..next + 1] == buf[target..next] + [128 + x % 128];
      next := next + 1;
      x := x / 128;
    }
    buf[next] := x;
    next := next + 1;
    assert buf[..next] == buf[..target] + buf[target..next - 1] + [x];
  }

  method PutBytes(buf: array<Byte>, target: nat, s: Bytes) returns (next: nat)
    requires target + |s| <= buf.Length
    modifies buf
    ensures next == target + |s|
    ensures buf[..next] == old(buf[..target]) + s
  {
    forall i | 0 <= i < |s| { buf[target + i] := s[i]; }
    next := target + |s|;
  }

  /** A number, unless it is zero. */
  method PutField(buf: array<Byte>, target: nat, tag: nat, n: nat) returns (next: nat)
    requires tag < 128 && target + |EncodeAll(Field(tag, n))| <= buf.Length
    modifies buf
    ensures next == target + |EncodeAll(Field(tag, n))|
    ensures buf[..next] == old(buf[..target]) + EncodeAll(Field(tag, n))
  {
    NumberSize(tag, n);
    next := target;
    if n != 0 {
      VarintSizeIsLength(tag);
      next := PutVarint(buf, next, tag);
      next := PutVarint(buf, next, n);
    }
  }

  method PutBlock(buf: array<Byte>, target: nat, tag: nat, s: Bytes) returns (next: nat)
    requires tag < 128 && target + |EncodeAll([Block(tag, s)])| <= buf.Length
    modifies buf
    ensures next == target + |EncodeAll([Block(tag, s)])|
    ensures buf[..next] == old(buf[..target]) + EncodeAll([Block(tag, s)])
  {
    BlockSize(tag, s);
    OneByteTag(tag);
    hide EncodeAll; hide Varint; hide VarintSize;
    ghost var before := buf[..target];
    next := PutVarint(buf, target, tag);
    next := PutVarint(buf, next, |s|);
    next := PutBytes(buf, next, s);
    Regroup3(before, [tag], Varint(|s|), s);
  }

  lemma OneByteTag(tag: nat)
    requires tag < 128
    ensures Varint(tag) == [tag] && VarintSize(tag) == 1
  {}

  lemma Regroup3(a: Bytes, x: Bytes, y: Bytes, z: Bytes)
    ensures a + x + y + z == a + (x + y + z)
  {}

  method PutBlocks(buf: array<Byte>, target: nat, tag: nat, ss: seq<Bytes>) returns (next: nat)
    requires tag < 128 && target + |EncodeAll(Blocks(tag, ss))| <= buf.Length
    modifies buf
    ensures next == target + |EncodeAll(Blocks(tag, ss))|
    ensures buf[..next] == old(buf[..target]) + EncodeAll(Blocks(tag, ss))
  {
    next := target;
    var i := 0;
    ghost var before := buf[..target];
    assert EncodeAll(Blocks(tag, ss[..0])) == [];
    hide Blocks; hide EncodeAll; hide VarintSize;
    while i < |ss|
      invariant 0 <= i <= |ss| && next == target + |EncodeAll(Blocks(tag, ss[..i]))| <= buf.Length
      invariant buf[..next] == before + EncodeAll(Blocks(tag, ss[..i]))
    {
      BlocksNext(tag, ss, i);
      BlocksPrefix(tag, ss, i + 1);
      next := PutBlock(buf, next, tag, ss[i]);
      Regroup2(before, EncodeAll(Blocks(tag, ss[..i])), EncodeAll([Block(tag, ss[i])]));
      i := i + 1;
    }
    assert ss[..i] == ss;
  }

  lemma Regroup2(a: Bytes, x: Bytes, y: Bytes)
    ensures a + x + y == a + (x + y)
  {}

  lemma {:induction false} BlocksPrefix(tag: nat, ss: seq<Bytes>, i: nat)
    requires i <= |ss| && tag < 128
    ensures |EncodeAll(Blocks(tag, ss[..i]))| <= |EncodeAll(Blocks(tag, ss))|
    decreases |ss| - i
  {
    if i < |ss| {
      BlocksNext(tag, ss, i);
      BlocksPrefix(tag, ss, i + 1);
    } else {
      assert ss[..i] == ss;
    }
  }

  /** Packed numbers after their size, which was computed before. */
  method PutPacked(buf: array<Byte>, target: nat, tag: nat, xs: seq<nat>, size: nat) returns (next: nat)
    requires tag < 128 && size == PackSize(xs) && target + |EncodeAll(Packed(tag, xs))| <= buf.Length
    modifies buf
    ensures next == target + |EncodeAll(Packed(tag, xs))|
    ensures buf[..next] == old(buf[..target]) + EncodeAll(Packed(tag, xs))
  {
    PackedSize(tag, xs);
    PackSizeIsLength(xs);
    next := target;
    if size > 0 {
      BlockSize(tag, Pack(xs));
      next := PutVarint(buf, next, tag);
      next := PutVarint(buf, next, size);
      next := PutNumbers(buf, next, xs);
    }
  }

  method PutNumbers(buf: array<Byte>, target: nat, xs: seq<nat>) returns (next: nat)
    requires target + PackSize(xs) <= buf.Length
    modifies buf
    ensures next == target + PackSize(xs)
    ensures buf[..next] == old(buf[..target]) + Pack(xs)
  {
    next := target;
    var i := 0;
    assert xs[..0] == [];
    while i < |xs|
      invariant 0 <= i <= |xs| && next == target + PackSize(xs[..i]) <= buf.Length
      invariant buf[..next] == old(buf[..target]) + Pack(xs[..i])
    {
      assert xs[..i + 1] == xs[..i] + [xs[i]] && xs[..i + 1][..i] == xs[..i];
      PackLast(xs[..i], xs[i]);
      PackPrefix(xs, i + 1);
      next := PutVarint(buf, next, xs[i]);
      i := i + 1;
    }
    assert xs[..i] == xs;
  }

  lemma {:induction false} PackPrefix(xs: seq<nat>, i: nat)
    requires i <= |xs|
    ensures PackSize(xs[..i]) <= PackSize(xs)
    decreases |xs| - i
  {
    if i < |xs| {
      PackPrefix(xs, i + 1);
      assert xs[..i + 1][..i] == xs[..i];
    } else {
      assert xs[..i] == xs;
    }
  }

  // ---------- Reading ----------

  /** What the bytes from here on contribute to a varint whose first part is `acc`. */
  ghost predicate Continues(r: Option<(nat, Bytes)>, acc: nat, scale: nat, rest: Option<(nat, Bytes)>) {
    if rest.None? then r.None? else r == Some((Plus(acc, scale, rest.value.0), rest.value.1))
  }

  function Plus(acc: nat, scale: nat, digit: nat): nat { acc + scale * digit }

  lemma Nothing(r: Option<(nat, Bytes)>)
    ensures Continues(r, 0, 1, r)
  {}

  lemma CutShort(r: Option<(nat, Bytes)>, acc: nat, scale: nat, b: Bytes, limit: nat)
    requires Continues(r, acc, scale, ReadVarint(b, limit)) && (b == [] || limit == 0)
    ensures r.None?
  {}

  lemma OneByte(r: Option<(nat, Bytes)>, acc: nat, scale: nat, b: Bytes, limit: nat)
    requires Continues(r, acc, scale, ReadVarint(b, limit)) && b != [] && limit > 0
    ensures b[0] < 128 ==> r == Some((Plus(acc, scale, b[0]), b[1..]))
    ensures b[0] >= 128 ==> Continues(r, Plus(acc, scale, b[0] - 128), scale * 128, ReadVarint(b[1..], limit - 1))
  {
    var more := ReadVarint(b[1..], limit - 1);
    if b[0] >= 128 && more.Some? { Regroup(scale, b[0] - 128, more.value.0); }
  }

  lemma Regroup(a: int, x: int, y: int)
    ensures a * (x + 128 * y) == a * x + a * 128 * y
  {}

  method GetVarint(b: Bytes, ptr: nat, limit: nat) returns (r: Option<(nat, nat)>)
    requires ptr <= |b|
    ensures var want := ReadVarint(b[ptr..], limit);
      if want.None? then r.None? else r.Some? && r.value.0 == want.value.0 && ptr < r.value.1 <= |b| && b[r.value.1..] == want.value.1
  {
    var n, scale, next, k := 0, 1, ptr, 0;
    ghost var want := ReadVarint(b[ptr..], limit);
    Nothing(want);
    hide Continues; hide ReadVarint;
    while k < limit && next < |b|
      invariant ptr <= next <= |b| && 0 <= k <= limit && scale >= 0
      invariant Continues(want, n, scale, ReadVarint(b[next..], limit - k))
      decreases |b| - next
    {
      OneByte(want, n, scale, b[next..], limit - k);
      assert b[next..][1..] == b[next + 1..];
      var byte: int := b[next];
      next, k := next + 1, k + 1;
      if byte < 128 { return Some((Plus(n, scale, byte), next)); }
      n, scale := Plus(n, scale, byte - 128), scale * 128;
    }
    CutShort(want, n, scale, b[next..], limit - k);
    return None;
  }

  /** The tag at the pointer, and what follows it: a varint, or a size and as many bytes. */
  method GetRecord(b: Bytes, ptr: nat) returns (r: Option<(Record, nat)>)
    requires ptr <= |b|
    ensures var want := ReadRecord(b[ptr..]);
      if want.None? then r.None? else r.Some? && r.value.0 == want.value.0 && ptr < r.value.1 <= |b| && b[r.value.1..] == want.value.1
  {
    hide ReadVarint;
    var t := GetVarint(b, ptr, TAG_BYTES);
    if t.None? { return None; }
    var tag := t.value.0 % UINT32;
    var v := GetVarint(b, t.value.1, VALUE_BYTES);
    if v.None? { return None; }
    var n, next := v.value.0, v.value.1;
    if tag % 8 == 0 { return Some((Number(tag, n % UINT64), next)); }
    if tag % 8 == 2 && n <= |b| - next {
      assert b[next..][..n] == b[next..next + n] && b[next..][n..] == b[next + n..];
      return Some((Block(tag, b[next..next + n]), next + n));
    }
    return None;
  }

  function Before(out: seq<nat>, more: Option<seq<nat>>): Option<seq<nat>> {
    if more.None? then None else Some(out + more.value)
  }

  lemma BeforeNothing(r: Option<seq<nat>>)
    ensures Before([], r) == r
  {
    if r.Some? { assert [] + r.value == r.value; }
  }

  lemma BeforeNext(out: seq<nat>, x: nat, more: Option<seq<nat>>)
    ensures Before(out, Before([x], more)) == Before(out + [x], more)
  {
    if more.Some? { assert out + ([x] + more.value) == out + [x] + more.value; }
  }

  /** The packed parser: varints up to the end of the payload. */
  method GetPacked(s: Bytes) returns (xs: Option<seq<nat>>)
    ensures xs == Unpack(s)
  {
    var ptr, out: seq<nat> := 0, [];
    assert s[0..] == s;
    BeforeNothing(Unpack(s));
    while ptr < |s|
      invariant 0 <= ptr <= |s|
      invariant Unpack(s) == Before(out, Unpack(s[ptr..]))
      decreases |s| - ptr
    {
      var v := GetVarint(s, ptr, VALUE_BYTES);
      if v.None? { return None; }
      BeforeNext(out, v.value.0 % UINT32, Unpack(s[v.value.1..]));
      out := out + [v.value.0 % UINT32];
      ptr := v.value.1;
    }
    assert out + [] == out;
    return Some(out);
  }
}
