/** The per-level hash of the interlocked hash table: a 64-bit mixer and a final modulus. */
module LevelHash {
  /** `x ^= x >> 33` */
  function FoldHigh(x: bv64): bv64 { x ^ (x >> 33) }

  function Multiply1(x: bv64): bv64 { x * 0xff51afd7ed558ccd }

  function Multiply2(x: bv64): bv64 { x * 0xc4ceb9fe1a85ec53 }

  /** The finalizer that `level_hash` applies to `to_num(key) ^ level`. */
  function Mix(x: bv64): bv64 {
    FoldHigh(Multiply2(FoldHigh(Multiply1(FoldHigh(x)))))
  }

  // Both multipliers are odd, so each has an inverse modulo 2^64.
  function Divide1(x: bv64): bv64 { x * 0x4f74430c22a54005 }

  function Divide2(x: bv64): bv64 { x * 0x9cb4b2f8129337db }

  function Unmix(y: bv64): bv64 {
    FoldHigh(Divide1(FoldHigh(Divide2(FoldHigh(y)))))
  }

  // Each body is unfolded once, away from the composition, so that the solver only ever
  // simplifies closed bit-vector expressions.
  lemma FoldHighOnce(x: bv64)
    ensures FoldHigh(x) == x ^ (x >> 33)
    ensures FoldHigh(x ^ (x >> 33)) == x
  {}

  lemma FoldHighTwice(x: bv64)
    ensures FoldHigh(FoldHigh(x)) == x
  {
    hide FoldHigh;
    FoldHighOnce(x);
  }

  lemma Times1(x: bv64)
    ensures Multiply1(x) == x * 0xff51afd7ed558ccd && Divide1(x * 0xff51afd7ed558ccd) == x
  {}

  lemma Times2(x: bv64)
    ensures Multiply2(x) == x * 0xc4ceb9fe1a85ec53 && Divide2(x * 0xc4ceb9fe1a85ec53) == x
  {}

  lemma Over1(x: bv64)
    ensures Divide1(x) == x * 0x4f74430c22a54005 && Multiply1(x * 0x4f74430c22a54005) == x
  {}

  lemma Over2(x: bv64)
    ensures Divide2(x) == x * 0x9cb4b2f8129337db && Multiply2(x * 0x9cb4b2f8129337db) == x
  {}

  lemma MultipliersCancel(x: bv64)
    ensures Divide1(Multiply1(x)) == x && Multiply1(Divide1(x)) == x
    ensures Divide2(Multiply2(x)) == x && Multiply2(Divide2(x)) == x
  {
    hide Multiply1; hide Multiply2; hide Divide1; hide Divide2;
    Times1(x); Times2(x); Over1(x); Over2(x);
  }

  /** The mixer is a bijection on 64-bit words: `Unmix` undoes it on both sides. */
  lemma MixBijective(x: bv64)
    ensures Unmix(Mix(x)) == x && Mix(Unmix(x)) == x
  {
    hide FoldHigh; hide Multiply1; hide Multiply2; hide Divide1; hide Divide2;
    var a := Multiply1(FoldHigh(x));
    var b := Multiply2(FoldHigh(a));
    FoldHighTwice(x); FoldHighTwice(a); FoldHighTwice(b);
    MultipliersCancel(FoldHigh(x)); MultipliersCancel(FoldHigh(a));
    var c := Divide2(FoldHigh(x));
    var d := Divide1(FoldHigh(c));
    FoldHighTwice(c); FoldHighTwice(d);
    MultipliersCancel(FoldHigh(c));
  }

  function WithLevel(num: bv64, level: bv64): bv64 { num ^ level }

  lemma WithLevelCancels(num: bv64, level: bv64)
    ensures WithLevel(num, level) == num ^ level && WithLevel(num ^ level, level) == num
  {}

  /** The word that `level_hash` reduces to a bucket. */
  function Mixed(num: bv64, level: bv64): bv64 { Mix(WithLevel(num, level)) }

  function Reduce(word: nat, count: nat): (b: nat)
    requires count >= 2
    ensures b < count - 1
  {
    word % (count - 1)
  }

  function Word(n: nat): bv64 {
    if n < 0x1_0000_0000_0000_0000 then n as bv64 else (n % 0x1_0000_0000_0000_0000) as bv64
  }

  /** An integer key is its own number, modulo the word. */
  function Number(k: int): bv64 {
    if 0 <= k < 0x1_0000_0000_0000_0000 then k as bv64 else Word(k % 0x1_0000_0000_0000_0000)
  }

  /** A key is hashed as its 64-bit two's complement word: a negative one as that much below 2^64. */
  lemma NumberIs(k: int)
    ensures 0 <= k < 0x1_0000_0000_0000_0000 ==> Number(k) == k as bv64
    ensures -0x8000_0000_0000_0000 <= k < 0 ==> Number(k) == (0x1_0000_0000_0000_0000 + k) as bv64
  {
    if -0x8000_0000_0000_0000 <= k < 0 { Wraps(k); }
  }

  lemma Wraps(k: int)
    requires -0x8000_0000_0000_0000 <= k < 0
    ensures k % 0x1_0000_0000_0000_0000 == 0x1_0000_0000_0000_0000 + k
  {}

  lemma MinusOne()
    ensures Number(-1) == 0xffff_ffff_ffff_ffff
  {
    Wraps(-1);
    assert Word(0xffff_ffff_ffff_ffff) == 0xffff_ffff_ffff_ffff;
  }

  lemma Levels()
    ensures Word(1) == 1 && Word(2) == 2 && Word(3) == 3 && Word(4) == 4
    ensures Word(5) == 5 && Word(6) == 6 && Word(7) == 7 && Word(8) == 8
  {}

  /** `level_hash`: the last of `count` buckets is never used. */
  function LevelHash(num: bv64, level: bv64, count: nat): (b: nat)
    requires count >= 2
    ensures b < count - 1
  {
    Reduce(Mixed(num, level) as nat, count)
  }

  /** At one level the mixed word determines the number. */
  lemma MixedInjective(m: bv64, n: bv64, level: bv64)
    ensures Mixed(m, level) == Mixed(n, level) <==> m == n
  {
    hide Mix; hide Unmix; hide WithLevel;
    MixBijective(WithLevel(m, level));
    MixBijective(WithLevel(n, level));
    WithLevelCancels(m, level);
    WithLevelCancels(n, level);
  }

  /** Two different numbers share a bucket of one level exactly when their mixed words differ but
      agree modulo `count - 1`: collisions come only from the final modulus, and the last bucket stays unused. */
  lemma CollisionsComeFromModulus(m: bv64, n: bv64, level: bv64, count: nat)
    requires count >= 2
    ensures LevelHash(m, level, count) < count - 1
    ensures m != n ==>
      (LevelHash(m, level, count) == LevelHash(n, level, count) <==>
       Mixed(m, level) != Mixed(n, level) && Mixed(m, level) as nat % (count - 1) == Mixed(n, level) as nat % (count - 1))
  {
    hide Mixed;
    MixedInjective(m, n, level);
  }
}
