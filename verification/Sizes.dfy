/**
 * src/fs/header-internal.h and include/cfe/utils.h: rounding by masks and shifts, with the widths
 * of the C types written out.
 */
module Sizes {
  import opened Options
  import opened Atomic

  // ---------- bits ----------

  function Pow2(k: nat): (p: nat)
    ensures p > 0
  {
    if k == 0 then 1 else 2 * Pow2(k - 1)
  }

  /** Bitwise `x & y`. */
  function And(x: nat, y: nat): nat {
    if x == 0 || y == 0 then 0 else (x % 2) * (y % 2) + 2 * And(x / 2, y / 2)
  }

  predicate Bit(x: nat, i: nat) {
    if i == 0 then x % 2 == 1 else Bit(x / 2, i - 1)
  }

  lemma {:induction false} ZeroHasNoBits(i: nat)
    ensures !Bit(0, i)
  {
    if i > 0 {
      ZeroHasNoBits(i - 1);
    }
  }

  /** And works bit by bit. */
  lemma {:induction false} AndBits(x: nat, y: nat, i: nat)
    ensures Bit(And(x, y), i) <==> Bit(x, i) && Bit(y, i)
    decreases i
  {
    if x == 0 || y == 0 {
      ZeroHasNoBits(i);
    } else if i > 0 {
      AndBits(x / 2, y / 2, i - 1);
      assert And(x, y) / 2 == And(x / 2, y / 2);
    } else {
      assert And(x, y) % 2 == (x % 2) * (y % 2) % 2;
    }
  }

  lemma {:induction false} MulGap(a: nat, b: nat, d: nat)
    requires a < b
    ensures a * d + d <= b * d
  {
    if a + 1 < b {
      MulGap(a, b - 1, d);
      assert b * d == (b - 1) * d + d;
    } else {
      assert b * d == a * d + d;
    }
  }

  lemma DivMod(x: nat, d: nat)
    requires d > 0
    ensures x == (x / d) * d + x % d && x % d < d
  {
  }

  lemma Euclid(x: nat, q: nat, d: nat, r: nat)
    requires x == q * d + r && r < d
    ensures x % d == r && x / d == q
  {
    DivMod(x, d);
    if x / d < q {
      MulGap(x / d, q, d);
    } else if x / d > q {
      MulGap(q, x / d, d);
    }
  }

  lemma HalfMod(x: nat, m: nat)
    requires m > 0
    ensures x % (2 * m) == 2 * ((x / 2) % m) + x % 2
  {
    var q, r := (x / 2) / m, (x / 2) % m;
    assert x / 2 == q * m + r;
    assert x == q * (2 * m) + (2 * r + x % 2);
    Euclid(x, q, 2 * m, 2 * r + x % 2);
  }

  lemma {:induction false} Pow2Monotone(j: nat, k: nat)
    requires j <= k
    ensures Pow2(j) <= Pow2(k)
  {
    if j < k {
      Pow2Monotone(j, k - 1);
    }
  }

  lemma {:induction false} AndOnes(w: nat, x: nat)
    requires x < Pow2(w)
    ensures And(x, Pow2(w) - 1) == x
  {
    if x > 0 {
      AndOnes(w - 1, x / 2);
      assert (Pow2(w) - 1) / 2 == Pow2(w - 1) - 1 && (Pow2(w) - 1) % 2 == 1;
    }
  }

  lemma AndEven(x: nat, y: nat)
    ensures And(x, 2 * y) == 2 * And(x / 2, y)
  {
    assert 2 * y / 2 == y && 2 * y % 2 == 0;
  }

  /** Masking off the low k of w bits rounds down to a multiple of 2^k. */
  lemma {:induction false} MaskRoundsDown(w: nat, k: nat, x: nat)
    requires k <= w && x < Pow2(w)
    ensures Pow2(k) <= Pow2(w)
    ensures And(x, Pow2(w) - Pow2(k)) == x - x % Pow2(k)
  {
    Pow2Monotone(k, w);
    if k == 0 {
      AndOnes(w, x);
    } else {
      MaskRoundsDown(w - 1, k - 1, x / 2);
      HalfMod(x, Pow2(k - 1));
      AndEven(x, Pow2(w - 1) - Pow2(k - 1));
    }
  }

  // ---------- page rounding ----------

  /** `~x` on unsigned long. */
  function Not64(x: nat): nat
    requires x < TWO_64
  {
    TWO_64 - 1 - x
  }

  /** normalize_headersize for a page size below 2^32. */
  function NormalizeHeaderSize(size: uint32, page: nat): uint32
    requires 0 < page < TWO_32
  {
    if size != 0 then And((size + (page - 1)) % TWO_64, Not64(page - 1)) % TWO_32 else page % TWO_32
  }

  /** The `size_t` that cfe_header_create is given passes through a uint32_t. */
  function HeaderSize(size: nat, page: nat): uint32
    requires size < TWO_64 && 0 < page < TWO_32
  {
    NormalizeHeaderSize(size % TWO_32, page)
  }

  lemma Powers()
    ensures Pow2(16) == TWO_16 && Pow2(31) == TWO_31 && Pow2(32) == TWO_32 && Pow2(63) == TWO_63 && Pow2(64) == TWO_64
  {
    assert Pow2(8) == 0x100;
    assert Pow2(16) == 0x1_0000;
    assert Pow2(24) == 0x100_0000;
    assert Pow2(31) == TWO_31;
    assert Pow2(40) == 0x100_0000_0000;
    assert Pow2(48) == 0x1_0000_0000_0000;
    assert Pow2(56) == 0x100_0000_0000_0000;
  }

  /** x rounded down to a multiple of d. */
  function Floor(x: nat, d: nat): nat
    requires d > 0
  {
    x - x % d
  }

  lemma FloorFacts(x: nat, d: nat)
    requires d > 0
    ensures Floor(x, d) % d == 0 && Floor(x, d) <= x < Floor(x, d) + d
  {
    DivMod(x, d);
    Euclid(Floor(x, d), x / d, d, 0);
  }

  /** Two multiples of p less than p apart are equal. */
  lemma OnlyMultiple(x: nat, y: nat, p: nat)
    requires p > 0 && x % p == 0 && y % p == 0 && x <= y < x + p
    ensures x == y
  {
    DivMod(x, p);
    DivMod(y, p);
    if x / p < y / p {
      MulGap(x / p, y / p, p);
    } else if x / p > y / p {
      MulGap(y / p, x / p, p);
    }
  }

  lemma LeastAbove(size: nat, p: nat, m: nat)
    requires p > 0 && size > 0 && m % p == 0 && m >= size
    ensures Floor(size + p - 1, p) <= m
  {
    var f := Floor(size + p - 1, p);
    FloorFacts(size + p - 1, p);
    if m < f {
      OnlyMultiple(m, f, p);
    }
  }

  lemma PageBelow(k: nat)
    requires k < 32
    ensures 0 < Pow2(k) < TWO_32
  {
    Powers();
    Pow2Monotone(k, 31);
  }

  lemma MaskIsFloor(w: nat, k: nat, x: nat)
    requires Pow2(w) == TWO_64 && k <= w && x < TWO_64
    ensures Pow2(k) <= TWO_64
    ensures And(x, Not64(Pow2(k) - 1)) == Floor(x, Pow2(k))
  {
    MaskRoundsDown(w, k, x);
  }

  /** 2^32 is a multiple of every page size. */
  lemma {:induction false} PageDivides(k: nat, w: nat)
    requires k <= w
    ensures Pow2(w) % Pow2(k) == 0
  {
    if k > 0 {
      PageDivides(k - 1, w - 1);
      HalfMod(Pow2(w), Pow2(k - 1));
    }
  }

  /**
   * For every page size 2^k, a nonzero size up to 2^32 - 2^k is rounded to the least multiple of
   * the page size that is not below it; every larger size becomes 0; size 0 becomes one page.
   */
  lemma RoundsToPages(size: uint32, k: nat)
    requires k < 32
    ensures 0 < Pow2(k) < TWO_32
    ensures var r := NormalizeHeaderSize(size, Pow2(k));
            if size == 0 then r == Pow2(k)
            else if size <= TWO_32 - Pow2(k) then
              && r % Pow2(k) == 0 && r >= size
              && forall m: nat :: m % Pow2(k) == 0 && m >= size ==> r <= m
            else r == 0
  {
    PageBelow(k);
    Powers();
    if size != 0 {
      PageRounds(size, k, 32, 64);
    }
  }

  lemma PageRounds(size: uint32, k: nat, narrow: nat, wide: nat)
    requires Pow2(narrow) == TWO_32 && Pow2(wide) == TWO_64 && k < narrow < wide
    requires size != 0 && Pow2(k) < TWO_32
    ensures var r := NormalizeHeaderSize(size, Pow2(k));
            if size <= TWO_32 - Pow2(k) then
              && r % Pow2(k) == 0 && r >= size
              && forall m: nat :: m % Pow2(k) == 0 && m >= size ==> r <= m
            else r == 0
  {
    MaskIsFloor(wide, k, size + (Pow2(k) - 1));
    PageDivides(k, narrow);
    Rounds(size, Pow2(k));
  }

  lemma Rounds(size: uint32, p: nat)
    requires 0 < p < TWO_32 && size != 0 && TWO_32 % p == 0
    requires And(size + (p - 1), Not64(p - 1)) == Floor(size + (p - 1), p)
    ensures var r := NormalizeHeaderSize(size, p);
            if size <= TWO_32 - p then
              r % p == 0 && r >= size && forall m: nat :: m % p == 0 && m >= size ==> r <= m
            else r == 0
  {
    var f := Floor(size + (p - 1), p);
    assert f == Floor(size + p - 1, p);
    RoundUp(size, p);
    Wraps(size, p);
    Truncated(size, p, f);
  }

  lemma Truncated(size: uint32, p: nat, f: nat)
    requires 0 < p < TWO_32 && size != 0 && f <= TWO_32
    requires And(size + (p - 1), Not64(p - 1)) == f
    ensures NormalizeHeaderSize(size, p) == if f < TWO_32 then f else 0
  {
    var x := size + (p - 1);
    assert x % TWO_64 == x;
  }

  /** Adding p - 1 and rounding down rounds up. */
  lemma RoundUp(size: nat, p: nat)
    requires p > 0 && size > 0
    ensures var r := Floor(size + p - 1, p);
            r % p == 0 && size <= r < size + p && forall m: nat :: m % p == 0 && m >= size ==> r <= m
  {
    FloorFacts(size + p - 1, p);
    forall m: nat | m % p == 0 && m >= size
      ensures Floor(size + p - 1, p) <= m
    {
      LeastAbove(size, p, m);
    }
  }

  /** The rounded size fits 32 bits exactly up to 2^32 - p; past that it is 2^32. */
  lemma Wraps(size: uint32, p: nat)
    requires 0 < p < TWO_32 && size > 0 && TWO_32 % p == 0
    ensures var r := Floor(size + p - 1, p);
            if size <= TWO_32 - p then r < TWO_32 else r == TWO_32
  {
    var r := Floor(size + p - 1, p);
    FloorFacts(size + p - 1, p);
    if size > TWO_32 - p {
      LeastAbove(size, p, TWO_32);
      OnlyMultiple(r, TWO_32, p);
    }
  }

  /** The rounded size covers the requested one exactly up to 2^32 minus one page. */
  lemma HeaderCovers(size: nat, k: nat)
    requires size < TWO_64 && k < 32
    ensures 0 < Pow2(k) < TWO_32
    ensures HeaderSize(size, Pow2(k)) >= size <==> size <= TWO_32 - Pow2(k)
  {
    var low := size % TWO_32;
    RoundsToPages(low, k);
    assert HeaderSize(size, Pow2(k)) == NormalizeHeaderSize(low, Pow2(k));
    Covers(size, low, Pow2(k), HeaderSize(size, Pow2(k)));
  }

  lemma Covers(size: nat, low: uint32, p: nat, r: uint32)
    requires low == size % TWO_32 && 0 < p < TWO_32
    requires low == 0 ==> r == p
    requires low != 0 ==> if low <= TWO_32 - p then r >= low else r == 0
    ensures r >= size <==> size <= TWO_32 - p
  {
  }

  /** On the sizes that are covered, rounding is monotone and idempotent. */
  lemma RoundingIsClosure(a: uint32, b: uint32, k: nat)
    requires k < 32
    ensures 0 < Pow2(k) < TWO_32
    ensures a <= b <= TWO_32 - Pow2(k) ==> NormalizeHeaderSize(a, Pow2(k)) <= NormalizeHeaderSize(b, Pow2(k))
    ensures a <= TWO_32 - Pow2(k) ==>
              NormalizeHeaderSize(NormalizeHeaderSize(a, Pow2(k)), Pow2(k)) == NormalizeHeaderSize(a, Pow2(k))
  {
    RoundsToPages(a, k);
    RoundsToPages(b, k);
    var p := Pow2(k);
    Euclid(p, 1, p, 0);
    if a <= TWO_32 - p {
      var r := NormalizeHeaderSize(a, p);
      Powers();
      PageDivides(k, 32);
      RoundsToPages(r, k);
      if r > TWO_32 - p {
        Euclid(0, 0, p, 0);
        AlmostMultiple(r, p);
      }
      if a == 0 && 0 < b <= TWO_32 - p {
        AtLeastOnePage(NormalizeHeaderSize(b, p), p);
      }
    }
  }

  lemma AtLeastOnePage(r: nat, p: nat)
    requires p > 0 && r % p == 0 && r > 0
    ensures r >= p
  {
  }

  lemma AlmostMultiple(r: nat, p: nat)
    requires p > 0 && r % p == 0 && TWO_32 % p == 0 && r <= TWO_32
    ensures r > TWO_32 - p ==> r == TWO_32
  {
    if r > TWO_32 - p {
      OnlyMultiple(r, TWO_32, p);
    }
  }

  // ---------- next power of two ----------

  function BitLength(x: nat): nat {
    if x == 0 then 0 else 1 + BitLength(x / 2)
  }

  /** __builtin_clz on w-bit unsigned integers, for nonzero arguments. */
  function LeadingZeros(w: nat, x: nat): int {
    w - BitLength(x)
  }

  /** `1 << s` on w-bit integers: undefined for a negative or too large shift. */
  function ShiftOne(w: nat, s: int): Option<nat> {
    if 0 <= s < w then Some(Pow2(s)) else None
  }

  /** next_pow2_32 for w == 32, next_pow2_64 for w == 64. */
  function NextPow2(w: nat, n: nat): Option<nat> {
    if n <= 2 then Some(n) else ShiftOne(w, w - LeadingZeros(w, n - 1))
  }

  /** next_pow2_16 counts leading zeros in 32 bits. */
  function NextPow2Short(n: uint16): Option<nat> {
    if n <= 2 then Some(n) else ShiftOne(32, 16 - LeadingZeros(32, n - 1))
  }

  lemma {:induction false} BitLengthBounds(x: nat)
    requires x > 0
    ensures BitLength(x) > 0 && Pow2(BitLength(x) - 1) <= x < Pow2(BitLength(x))
  {
    if x > 1 {
      BitLengthBounds(x / 2);
    } else {
      assert BitLength(1) == 1 + BitLength(0);
    }
  }

  lemma {:induction false} Pow2Strict(j: nat, k: nat)
    ensures Pow2(j) < Pow2(k) <==> j < k
  {
    if j < k {
      Pow2Monotone(j, k - 1);
    } else {
      Pow2Monotone(k, j);
    }
  }

  ghost predicate LeastPow2(p: nat, n: nat) {
    (exists e :: p == Pow2(e)) && p >= n && forall e :: Pow2(e) >= n ==> p <= Pow2(e)
  }

  /**
   * For every width w > 1 and 1 <= n <= 2^(w-1) the result is the least power of two not below n;
   * for larger n the shift is by w, which is undefined.
   */
  lemma NextPow2Correct(w: nat, n: nat)
    requires w > 1 && 1 <= n < Pow2(w)
    ensures n <= Pow2(w - 1) ==> NextPow2(w, n).Some? && LeastPow2(NextPow2(w, n).value, n)
    ensures n > Pow2(w - 1) ==> NextPow2(w, n) == None
  {
    if n <= 2 {
      assert Pow2(0) == 1 && Pow2(1) == 2;
      Pow2Monotone(1, w - 1);
      forall e | Pow2(e) >= n
        ensures n <= Pow2(e)
      {
      }
    } else {
      var b := BitLength(n - 1);
      BitLengthBounds(n - 1);
      Pow2Strict(b - 1, w - 1);
      Pow2Strict(w - 1, b);
      Pow2Strict(b - 1, w);
      forall e | Pow2(e) >= n
        ensures Pow2(b) <= Pow2(e)
      {
        Pow2Strict(b - 1, e);
        Pow2Monotone(b, e);
      }
    }
  }

  /** It is monotone, and leaves powers of two alone. */
  lemma NextPow2IsClosure(w: nat, m: nat, n: nat)
    requires w > 1 && 1 <= m <= n <= Pow2(w - 1)
    ensures NextPow2(w, m).Some? && NextPow2(w, n).Some?
    ensures NextPow2(w, m).value <= NextPow2(w, n).value
    ensures NextPow2(w, NextPow2(w, n).value) == NextPow2(w, n)
  {
    NextPow2Correct(w, m);
    NextPow2Correct(w, n);
    var p := NextPow2(w, n).value;
    var e :| p == Pow2(e);
    assert Pow2(w - 1) >= p;
    NextPow2Correct(w, p);
    assert LeastPow2(NextPow2(w, p).value, p) && Pow2(e) >= p;
  }

  lemma NextPow2Widths(n: nat)
    requires 1 <= n
    ensures n <= TWO_31 ==> NextPow2(32, n).Some? && LeastPow2(NextPow2(32, n).value, n)
    ensures n <= TWO_63 ==> NextPow2(64, n).Some? && LeastPow2(NextPow2(64, n).value, n)
  {
    Powers();
    if n <= TWO_31 {
      NextPow2Correct(32, n);
    }
    if n <= TWO_63 {
      NextPow2Correct(64, n);
    }
  }

  /** The 16-bit variant mixes widths: it is right exactly for 1 and 2. */
  lemma NextPow2ShortOnlyTiny(n: uint16)
    requires n >= 1
    ensures NextPow2Short(n).Some? && LeastPow2(NextPow2Short(n).value, n) <==> n <= 2
  {
    Powers();
    NextPow2ShortAt(n, 16);
  }

  lemma NextPow2ShortAt(n: uint16, w: nat)
    requires n >= 1 && w == 16 && Pow2(w) == TWO_16
    ensures NextPow2Short(n).Some? && LeastPow2(NextPow2Short(n).value, n) <==> n <= 2
  {
    if n <= 2 {
      NextPow2Correct(2, n);
    } else {
      BitLengthBounds(n - 1);
      Pow2Strict(BitLength(n - 1) - 1, w);
    }
  }
}
