/** Go's uint64 and int64 as integers with explicit wrap-around. */
module Words {
  import opened Arithmetic

  const WORDS := 0x1_0000_0000_0000_0000
  const HALF := 0x8000_0000_0000_0000

  type Word = w: int | 0 <= w < WORDS
  type Int64 = i: int | -HALF <= i < HALF

  function Wrap(x: int): Word {
    x % WORDS
  }

  /** w + k on a uint64. */
  function Plus(w: Word, k: nat): Word {
    Wrap(w as int + k)
  }

  lemma PlusWraps(p: nat, k: nat)
    ensures Plus(Wrap(p), k) == Wrap(p + k)
  {
  }

  /** The conversion int64(w). */
  function Signed(w: Word): Int64 {
    if w < HALF then w else w - WORDS
  }

  /** Signed arithmetic wraps too: any int result is reduced to 64 bits. */
  function ToInt64(x: int): Int64 {
    Signed(Wrap(x))
  }

  /** int64(a) - int64(b). */
  function Diff(a: Word, b: Word): Int64 {
    ToInt64(Signed(a) - Signed(b))
  }

  /** Whole turns of the 64-bit wheel do not show. */
  lemma ToInt64Shift(x: int, turns: int)
    requires -HALF <= x < HALF
    ensures ToInt64(x + turns * WORDS) == x
  {
    if x >= 0 {
      DivModUnique(x + turns * WORDS, turns, x, WORDS);
    } else {
      DivModUnique(x + turns * WORDS, turns - 1, x + WORDS, WORDS);
    }
  }

  /** Wrapped counters still tell their true distance, as long as it fits in an int64. */
  lemma DiffIsDistance(p: int, q: int)
    requires -HALF <= p - q < HALF
    ensures Diff(Wrap(p), Wrap(q)) == p - q
  {
    var a := p / WORDS + if Wrap(p) < HALF then 0 else 1;
    var b := q / WORDS + if Wrap(q) < HALF then 0 else 1;
    assert Signed(Wrap(p)) == p - a * WORDS && Signed(Wrap(q)) == q - b * WORDS;
    ToInt64Shift(p - q, b - a);
  }

  lemma ToInt64Exact(x: int)
    requires -HALF <= x < HALF
    ensures ToInt64(x) == x
  {
  }

  /** Wrapping after every step is wrapping once at the end. */
  lemma ToInt64Adds(a: int, d: int)
    ensures ToInt64(ToInt64(a) as int + d) == ToInt64(a + d)
  {
    var w := Wrap(a) as int;
    assert a == WORDS * (a / WORDS) + w;
    assert Wrap(w + d) == Wrap(a + d) && Wrap(w - WORDS + d) == Wrap(a + d);
  }

  function Pow2(k: nat): (p: nat)
    ensures p >= 1
  {
    if k == 0 then 1 else 2 * Pow2(k - 1)
  }

  lemma {:induction false} Pow2Adds(j: nat, k: nat)
    ensures Pow2(j + k) == Pow2(j) * Pow2(k)
  {
    if j > 0 {
      Pow2Adds(j - 1, k);
      MulAssoc(2, Pow2(j - 1), Pow2(k));
    }
  }

  lemma {:induction false} Pow2Grows(j: nat, k: nat)
    requires j < k
    ensures 2 * Pow2(j) <= Pow2(k)
  {
    if j + 1 < k { Pow2Grows(j, k - 1); }
  }

  lemma Pow2Word()
    ensures Pow2(63) == HALF && Pow2(64) == WORDS
  {
    assert Pow2(8) == 0x100;
    Pow2Adds(8, 8);
    Pow2Adds(16, 16);
    assert Pow2(32) == 0x1_0000_0000;
    Pow2Adds(32, 32);
    assert Pow2(64) == 2 * Pow2(63);
  }

  /** Bitwise and, bit by bit. */
  function And(x: nat, y: nat): (r: nat)
    ensures r <= y
    decreases y
  {
    if y == 0 then 0 else 2 * And(x / 2, y / 2) + if x % 2 == 1 && y % 2 == 1 then 1 else 0
  }

  lemma AndOddMask(x: nat, h: nat)
    requires h >= 1
    ensures And(x, 2 * h - 1) == 2 * And(x / 2, h - 1) + x % 2
  {
    assert (2 * h - 1) / 2 == h - 1 && (2 * h - 1) % 2 == 1;
  }

  /** Masking with 2^k - 1 keeps the remainder. */
  lemma {:induction false} AndMask(x: nat, k: nat)
    ensures And(x, Pow2(k) - 1) == Rem(x, Pow2(k))
  {
    hide Rem;
    if k == 0 {
      RemOne(x);
    } else {
      AndMask(x / 2, k - 1);
      AndOddMask(x, Pow2(k - 1));
      DoubleRem(x, Pow2(k - 1), Pow2(k));
    }
  }

  /** A power of two no larger than 2^64 sees through the wrap. */
  lemma WrapMod(x: nat, k: nat)
    requires k <= 64
    ensures Wrap(x) % Pow2(k) == x % Pow2(k)
  {
    Pow2Word();
    Pow2Adds(64 - k, k);
    ModOfMod(x, Pow2(64 - k), Pow2(k), WORDS);
  }
}
