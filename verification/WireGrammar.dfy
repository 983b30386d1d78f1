/** Which byte strings the parse loop accepts, stated as a grammar: a varint is a run of bytes of which only the last is
    below 128, a record is a tag and a varint or a payload of a stated length, and an input is a list of records.
 */
module WireGrammar {
  import opened Wire

  /** At most `limit` bytes, of which exactly the last is below 128. */
  predicate IsVarint(s: Bytes, limit: nat) {
    1 <= |s| <= limit && s[|s| - 1] < 128 && forall i | 0 <= i < |s| - 1 :: s[i] >= 128
  }

  /** The lower seven bits of each byte are a digit, lowest first. */
  function Digits(s: Bytes): nat {
    if s == [] then 0 else s[0] % 128 + 128 * Digits(s[1..])
  }

  /** Where the varint at the front ends. */
  lemma {:induction false} VarintRead(b: Bytes, limit: nat) returns (s: Bytes)
    requires ReadVarint(b, limit).Some?
    ensures IsVarint(s, limit) && b == s + ReadVarint(b, limit).value.1 && ReadVarint(b, limit).value.0 == Digits(s)
  {
    if b[0] < 128 {
      s := [b[0]];
      assert s[1..] == [];
    } else {
      var t := VarintRead(b[1..], limit - 1);
      s := [b[0]] + t;
      assert s[1..] == t;
    }
  }

  lemma {:induction false} VarintAccepted(s: Bytes, rest: Bytes, limit: nat)
    requires IsVarint(s, limit)
    ensures ReadVarint(s + rest, limit) == Some((Digits(s), rest))
  {
    var b := s + rest;
    if |s| == 1 {
      assert s[1..] == [] && b[1..] == rest;
    } else {
      assert s[0] >= 128;
      assert b[1..] == s[1..] + rest;
      VarintAccepted(s[1..], rest, limit - 1);
    }
  }

  /** Reading accepts exactly the varints of at most `limit` bytes, with the value of their digits. */
  lemma ReadVarintIff(b: Bytes, limit: nat, n: nat, rest: Bytes)
    ensures ReadVarint(b, limit) == Some((n, rest)) <==> exists s :: IsVarint(s, limit) && b == s + rest && n == Digits(s)
  {
    if ReadVarint(b, limit) == Some((n, rest)) {
      var s := VarintRead(b, limit);
    }
    if s :| IsVarint(s, limit) && b == s + rest && n == Digits(s) {
      VarintAccepted(s, rest, limit);
    }
  }

  /** What is written for a number is a varint with its digits. */
  lemma {:induction false} VarintWritten(n: nat)
    ensures IsVarint(Varint(n), |Varint(n)|) && Digits(Varint(n)) == n
  {
    if n < 128 {
      assert Varint(n)[1..] == [];
    } else {
      VarintWritten(n / 128);
      assert Varint(n) == [128 + n % 128] + Varint(n / 128);
      OneDigitMore(128 + n % 128, Varint(n / 128), n / 128);
      Requotient(n % 128, n / 128, n);
      hide Varint; hide IsVarint; hide Digits;
    }
  }

  /** No varint of a number is shorter than what is written for it. */
  lemma {:induction false} VarintShortest(n: nat, s: Bytes, limit: nat)
    requires IsVarint(s, limit) && Digits(s) == n
    ensures |Varint(n)| <= |s|
  {
    if n >= 128 {
      ManyDigits(s, limit);
      Requotient(s[0] % 128, Digits(s[1..]), n);
      assert |Varint(n)| == 1 + |Varint(n / 128)|;
      hide IsVarint; hide Digits; hide Varint;
      VarintShortest(n / 128, s[1..], limit - 1);
    }
  }

  lemma ManyDigits(s: Bytes, limit: nat)
    requires IsVarint(s, limit) && Digits(s) >= 128
    ensures limit > 1 && |s| > 1 && IsVarint(s[1..], limit - 1) && Digits(s) == s[0] % 128 + 128 * Digits(s[1..])
  {
    assert s == [s[0]] + s[1..] && Digits([]) == 0;
    if s[1..] == [] { SingleDigit(s); }
  }

  lemma SingleDigit(s: Bytes)
    requires |s| == 1
    ensures Digits(s) < 128
  {
    assert s[1..] == [];
  }

  lemma OneDigitMore(d: Byte, w: Bytes, n: nat)
    requires d >= 128 && IsVarint(w, |w|) && Digits(w) == n
    ensures IsVarint([d] + w, |w| + 1) && Digits([d] + w) == d - 128 + 128 * n
  {
    assert ([d] + w)[1..] == w;
  }

  lemma Requotient(d: nat, q: nat, n: nat)
    requires d < 128
    ensures n == d + 128 * q <==> d == n % 128 && q == n / 128
  {}

  /** `t` is the record's tag, and `v` its number or the length of its payload. */
  ghost predicate Spelled(b: Bytes, r: Record, rest: Bytes, t: Bytes, v: Bytes) {
    && IsVarint(t, 5) && IsVarint(v, 10) && r.tag == Digits(t) % 0x1_0000_0000
    && match r
       case Number(tag, n) => tag % 8 == 0 && n == Digits(v) % 0x1_0000_0000_0000_0000 && b == t + v + rest
       case Block(tag, payload) => tag % 8 == 2 && |payload| == Digits(v) && b == t + v + payload + rest
  }

  ghost predicate IsRecord(b: Bytes, r: Record, rest: Bytes) { exists t, v :: Spelled(b, r, rest, t, v) }

  lemma RecordRead(b: Bytes, r: Record, rest: Bytes)
    requires ReadRecord(b) == Some((r, rest))
    ensures IsRecord(b, r, rest)
  {
    hide ReadVarint; hide Digits; hide IsVarint;
    var t := VarintRead(b, TAG_BYTES);
    var after := ReadVarint(b, TAG_BYTES).value.1;
    var v := VarintRead(after, VALUE_BYTES);
    assert b == t + v + ReadVarint(after, VALUE_BYTES).value.1;
    assert Spelled(b, r, rest, t, v);
  }

  lemma RecordAccepted(b: Bytes, r: Record, rest: Bytes, t: Bytes, v: Bytes)
    requires Spelled(b, r, rest, t, v)
    ensures ReadRecord(b) == Some((r, rest))
  {
    hide ReadVarint; hide Digits; hide IsVarint;
    var more := if r.Number? then rest else r.payload + rest;
    assert b == t + (v + more);
    VarintAccepted(t, v + more, TAG_BYTES);
    VarintAccepted(v, more, VALUE_BYTES);
    if r.Block? { assert more[..|r.payload|] == r.payload && more[|r.payload|..] == rest; }
  }

  /** The bytes are these records one after the other, and nothing else. */
  ghost predicate Spells(b: Bytes, rs: seq<Record>)
    decreases |rs|
  {
    if rs == [] then b == [] else exists rest :: IsRecord(b, rs[0], rest) && Spells(rest, rs[1..])
  }

  /** The records of an input, if it is a list of records. */
  function Split(b: Bytes): Option<seq<Record>>
    decreases |b|
  {
    if b == [] then Some([])
    else
      var r := ReadRecord(b);
      if r.None? then None
      else
        var more := Split(r.value.1);
        if more.None? then None else Some([r.value.0] + more.value)
  }

  lemma {:induction false} SplitSpells(b: Bytes)
    requires Split(b).Some?
    ensures Spells(b, Split(b).value)
    decreases |b|
  {
    hide ReadRecord; hide IsRecord;
    if b != [] {
      var r, rest := ReadRecord(b).value.0, ReadRecord(b).value.1;
      var rs := Split(b).value;
      RecordRead(b, r, rest);
      assert rs[1..] == Split(rest).value;
      SplitSpells(rest);
    }
  }

  lemma {:induction false} SpellsSplit(b: Bytes, rs: seq<Record>)
    requires Spells(b, rs)
    ensures Split(b) == Some(rs)
    decreases |rs|
  {
    hide ReadRecord; hide IsRecord;
    if rs != [] {
      var rest :| IsRecord(b, rs[0], rest) && Spells(rest, rs[1..]);
      IsRecordAccepted(b, rs[0], rest);
      SpellsSplit(rest, rs[1..]);
      assert rs == [rs[0]] + rs[1..];
    }
  }

  lemma IsRecordAccepted(b: Bytes, r: Record, rest: Bytes)
    requires IsRecord(b, r, rest)
    ensures b != [] && ReadRecord(b) == Some((r, rest))
  {
    var t, v :| Spelled(b, r, rest, t, v);
    RecordAccepted(b, r, rest, t, v);
  }

  /** An input spells at most one list of records, and parsing it is taking them in one after the other. An input that
      spells none is refused. */
  lemma ParseMeaning<V>(take: (V, Record) -> Option<V>, v: V, b: Bytes, rs: seq<Record>)
    ensures Spells(b, rs) ==> Parse(take, v, b) == TakeAll(take, v, rs)
    ensures Parse(take, v, b).Some? ==> exists l :: Spells(b, l)
    ensures Spells(b, rs) ==> forall l | Spells(b, l) :: l == rs
  {
    ParseSplit(take, v, b);
    if Split(b).Some? { SplitSpells(b); }
    forall l | Spells(b, l) ensures Split(b) == Some(l) { SpellsSplit(b, l); }
  }

  lemma {:induction false} ParseSplit<V>(take: (V, Record) -> Option<V>, v: V, b: Bytes)
    ensures Split(b).None? ==> Parse(take, v, b).None?
    ensures Split(b).Some? ==> Parse(take, v, b) == TakeAll(take, v, Split(b).value)
    decreases |b|
  {
    hide ReadRecord;
    if b != [] && ReadRecord(b).Some? {
      var r, rest := ReadRecord(b).value.0, ReadRecord(b).value.1;
      var next := take(v, r);
      if next.Some? { ParseSplit(take, next.value, rest); }
      if Split(rest).Some? { assert ([r] + Split(rest).value)[1..] == Split(rest).value; }
    }
  }

  // ---------- Packed numbers ----------

  /** The bytes are varints one after the other, with these numbers cut to 32 bits. */
  ghost predicate SpellsNumbers(b: Bytes, xs: seq<nat>)
    decreases |xs|
  {
    if xs == [] then b == []
    else exists s, rest :: IsVarint(s, 10) && b == s + rest && xs[0] == Digits(s) % 0x1_0000_0000 && SpellsNumbers(rest, xs[1..])
  }

  lemma {:induction false} UnpackSpells(b: Bytes)
    requires Unpack(b).Some?
    ensures SpellsNumbers(b, Unpack(b).value)
    decreases |b|
  {
    hide ReadVarint; hide Digits; hide IsVarint;
    if b != [] {
      var s := VarintRead(b, VALUE_BYTES);
      var rest := ReadVarint(b, VALUE_BYTES).value.1;
      UnpackSpells(rest);
      assert Unpack(b).value[1..] == Unpack(rest).value;
      assert IsVarint(s, 10) && b == s + rest;
    }
  }

  /** A packed payload is accepted exactly when it is a list of varints. */
  lemma {:induction false} UnpackIff(b: Bytes, xs: seq<nat>)
    ensures Unpack(b) == Some(xs) <==> SpellsNumbers(b, xs)
    decreases |xs|
  {
    hide ReadVarint; hide Digits; hide IsVarint;
    if Unpack(b) == Some(xs) { UnpackSpells(b); }
    if SpellsNumbers(b, xs) && xs != [] {
      var s, rest :| IsVarint(s, 10) && b == s + rest && xs[0] == Digits(s) % 0x1_0000_0000 && SpellsNumbers(rest, xs[1..]);
      VarintAccepted(s, rest, VALUE_BYTES);
      assert b != [] by { assert |s| >= 1 by { NotEmpty(s); } }
      UnpackIff(rest, xs[1..]);
      assert xs == [xs[0]] + xs[1..];
    }
  }

  lemma NotEmpty(s: Bytes)
    requires IsVarint(s, 10)
    ensures |s| >= 1
  {}
}
