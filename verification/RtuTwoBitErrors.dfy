/**
 Two flipped bits. The generator of the RTU check is x + 1 times a polynomial for which the powers of x only repeat
 after 32767 steps, so any two flips less than that many bits apart are noticed: every double error of a legal frame.
 */
module RtuTwoBitErrors {
  import opened Basics
  import opened RtuCodec
  import opened RtuErrorDetection

  // ---------- polynomials modulo the generator ----------

  /** The sixteen coefficients of a remainder, highest power first. */
  datatype Word = Word(c15: bool, c14: bool, c13: bool, c12: bool, c11: bool, c10: bool, c9: bool, c8: bool, c7: bool,
                       c6: bool, c5: bool, c4: bool, c3: bool, c2: bool, c1: bool, c0: bool)

  function WordOf(r: Register): Word {
    Word(r[0], r[1], r[2], r[3], r[4], r[5], r[6], r[7], r[8], r[9], r[10], r[11], r[12], r[13], r[14], r[15])
  }

  lemma WordsEqual(r: Register, s: Register)
    requires WordOf(r) == WordOf(s)
    ensures r == s
  {
    forall i | 0 <= i < 16
      ensures r[i] == s[i]
    {
      assert i == 0 || i == 1 || i == 2 || i == 3 || i == 4 || i == 5 || i == 6 || i == 7
          || i == 8 || i == 9 || i == 10 || i == 11 || i == 12 || i == 13 || i == 14 || i == 15;
    }
  }

  const T := true
  const F := false

  const UNIT := Word(F, F, F, F, F, F, F, F, F, F, F, F, F, F, F, T)

  /** Multiplication by x. */
  function TimesX(w: Word): Word {
    Word(w.c14 != w.c15, w.c13, w.c12, w.c11, w.c10, w.c9, w.c8, w.c7, w.c6, w.c5, w.c4, w.c3, w.c2,
         w.c1 != w.c15, w.c0, w.c15)
  }

  function Times(w: Word, n: nat): Word {
    if n == 0 then w else TimesX(Times(w, n - 1))
  }

  /** x to the n. */
  function Power(n: nat): Word {
    Times(UNIT, n)
  }

  lemma ShiftIsTimesX(r: Register)
    ensures WordOf(Shift(r)) == TimesX(WordOf(r))
  {
  }

  lemma {:induction false} ShiftsAreTimes(r: Register, n: nat)
    ensures WordOf(Shifts(r, n)) == Times(WordOf(r), n)
    decreases n
  {
    if n > 0 {
      ShiftIsTimesX(r);
      ShiftsAreTimes(Shift(r), n - 1);
      TimesFirst(WordOf(r), n - 1);
    }
  }

  lemma {:induction false} TimesFirst(w: Word, n: nat)
    ensures Times(TimesX(w), n) == TimesX(Times(w, n))
  {
    if n > 0 {
      TimesFirst(w, n - 1);
    }
  }

  lemma {:induction false} TimesAdd(w: Word, m: nat, n: nat)
    ensures Times(w, m + n) == Times(Times(w, m), n)
    decreases n
  {
    if n > 0 {
      TimesAdd(w, m, n - 1);
    }
  }

  // ---------- squaring ----------

  function Middle(w: Word): bool {
    (((w.c13 != w.c12) != w.c11) != w.c10) != w.c9
  }

  function SquareWith(w: Word, middle: bool): Word {
    var high := w.c14 != middle;
    Word((w.c15 != high) != w.c8, w.c14 != w.c7, w.c14, w.c13 != w.c6, w.c13, w.c12 != w.c5, w.c12, w.c11 != w.c4,
         w.c11, w.c10 != w.c3, w.c10, w.c9 != w.c2, w.c9, (w.c15 != w.c8) != w.c1, w.c15 != high, (high != w.c8) != w.c0)
  }

  /** The square of a polynomial: over two elements only the squares of its terms remain. */
  function Square(w: Word): Word {
    SquareWith(w, Middle(w))
  }

  lemma MiddleTimesX(w: Word)
    ensures (w.c13 != Middle(TimesX(w))) == (Middle(w) != w.c8)
  {
  }

  lemma SquareWithTimesX(w: Word, now: bool, next: bool)
    requires (w.c13 != next) == (now != w.c8)
    ensures SquareWith(TimesX(w), next) == TimesX(TimesX(SquareWith(w, now)))
  {
    var s, t := SquareWith(TimesX(w), next), TimesX(TimesX(SquareWith(w, now)));
    HighTerms(w, now, next);
    LowTerms(w, now, next);
    MiddleTerms(w, now, next);
    SameWord(s, t);
  }

  predicate SameMiddle(s: Word, t: Word) {
    && s.c13 == t.c13 && s.c12 == t.c12 && s.c11 == t.c11 && s.c10 == t.c10 && s.c9 == t.c9 && s.c8 == t.c8
    && s.c7 == t.c7 && s.c6 == t.c6 && s.c5 == t.c5 && s.c4 == t.c4 && s.c3 == t.c3
  }

  lemma SameWord(s: Word, t: Word)
    requires s.c15 == t.c15 && s.c14 == t.c14 && SameMiddle(s, t) && s.c2 == t.c2 && s.c1 == t.c1 && s.c0 == t.c0
    ensures s == t
  {
  }

  lemma MiddleTerms(w: Word, now: bool, next: bool)
    ensures SameMiddle(SquareWith(TimesX(w), next), TimesX(TimesX(SquareWith(w, now))))
  {
  }

  lemma HighTerms(w: Word, now: bool, next: bool)
    requires (w.c13 != next) == (now != w.c8)
    ensures SquareWith(TimesX(w), next).c15 == TimesX(TimesX(SquareWith(w, now))).c15
    ensures SquareWith(TimesX(w), next).c14 == TimesX(TimesX(SquareWith(w, now))).c14
  {
  }

  lemma LowTerms(w: Word, now: bool, next: bool)
    requires (w.c13 != next) == (now != w.c8)
    ensures SquareWith(TimesX(w), next).c2 == TimesX(TimesX(SquareWith(w, now))).c2
    ensures SquareWith(TimesX(w), next).c1 == TimesX(TimesX(SquareWith(w, now))).c1
    ensures SquareWith(TimesX(w), next).c0 == TimesX(TimesX(SquareWith(w, now))).c0
  {
  }

  /** (x w)^2 = x^2 w^2. */
  lemma SquareTimesX(w: Word)
    ensures Square(TimesX(w)) == TimesX(TimesX(Square(w)))
  {
    MiddleTimesX(w);
    SquareWithTimesX(w, Middle(w), Middle(TimesX(w)));
  }

  lemma {:induction false} SquarePower(n: nat)
    ensures Square(Power(n)) == Power(2 * n)
  {
    if n == 0 {
      assert Square(UNIT) == UNIT;
    } else {
      SquarePower(n - 1);
      SquareTimesX(Power(n - 1));
      var m := 2 * (n - 1);
      assert Times(UNIT, m + 2) == TimesX(Times(UNIT, m + 1)) && Times(UNIT, m + 1) == TimesX(Times(UNIT, m));
    }
  }

  /** The binary digits of an exponent, highest first. */
  datatype Digits = None | More(front: Digits, odd: bool)

  function Exponent(e: Digits): nat {
    match e
    case None => 0
    case More(front, odd) => 2 * Exponent(front) + if odd then 1 else 0
  }

  function Next(w: Word, odd: bool): Word {
    if odd then TimesX(Square(w)) else Square(w)
  }

  /** Square and multiply. */
  function Raise(e: Digits): Word {
    match e
    case None => UNIT
    case More(front, odd) => Next(Raise(front), odd)
  }

  lemma {:induction false} RaiseIsPower(e: Digits)
    ensures Raise(e) == Power(Exponent(e))
  {
    match e
    case None =>
    case More(front, odd) =>
      RaiseIsPower(front);
      SquarePower(Exponent(front));
  }

  /** One more digit. */
  lemma Digit(front: Digits, n: nat, w: Word, odd: bool, next: Word) returns (e: Digits, m: nat)
    requires Exponent(front) == n && Raise(front) == w && Next(w, odd) == next
    ensures m == 2 * n + (if odd then 1 else 0) && Exponent(e) == m && Raise(e) == next
  {
    e, m := More(front, odd), 2 * n + if odd then 1 else 0;
  }

  // Remainders named by their coefficients in hexadecimal.
  const X0002 := Word(F, F, F, F, F, F, F, F, F, F, F, F, F, F, T, F)
  const X0004 := Word(F, F, F, F, F, F, F, F, F, F, F, F, F, T, F, F)
  const X0008 := Word(F, F, F, F, F, F, F, F, F, F, F, F, T, F, F, F)
  const X000B := Word(F, F, F, F, F, F, F, F, F, F, F, F, T, F, T, T)
  const X0010 := Word(F, F, F, F, F, F, F, F, F, F, F, T, F, F, F, F)
  const X0040 := Word(F, F, F, F, F, F, F, F, F, T, F, F, F, F, F, F)
  const X0080 := Word(F, F, F, F, F, F, F, F, T, F, F, F, F, F, F, F)
  const X0083 := Word(F, F, F, F, F, F, F, F, T, F, F, F, F, F, T, T)
  const X0089 := Word(F, F, F, F, F, F, F, F, T, F, F, F, T, F, F, T)
  const X008A := Word(F, F, F, F, F, F, F, F, T, F, F, F, T, F, T, F)
  const X0100 := Word(F, F, F, F, F, F, F, T, F, F, F, F, F, F, F, F)
  const X0200 := Word(F, F, F, F, F, F, T, F, F, F, F, F, F, F, F, F)
  const X1060 := Word(F, F, F, T, F, F, F, F, F, T, T, F, F, F, F, F)
  const X2000 := Word(F, F, T, F, F, F, F, F, F, F, F, F, F, F, F, F)
  const X200C := Word(F, F, T, F, F, F, F, F, F, F, F, F, T, T, F, F)
  const X3271 := Word(F, F, T, T, F, F, T, F, F, T, T, T, F, F, F, T)
  const X8000 := Word(T, F, F, F, F, F, F, F, F, F, F, F, F, F, F, F)
  const X8005 := Word(T, F, F, F, F, F, F, F, F, F, F, F, F, T, F, T)
  const X8009 := Word(T, F, F, F, F, F, F, F, F, F, F, F, T, F, F, T)
  const X800A := Word(T, F, F, F, F, F, F, F, F, F, F, F, T, F, T, F)
  const X801B := Word(T, F, F, F, F, F, F, F, F, F, F, T, T, F, T, T)
  const X802B := Word(T, F, F, F, F, F, F, F, F, F, T, F, T, F, T, T)
  const X8081 := Word(T, F, F, F, F, F, F, F, T, F, F, F, F, F, F, T)
  const X8082 := Word(T, F, F, F, F, F, F, F, T, F, F, F, F, F, T, F)
  const X8088 := Word(T, F, F, F, F, F, F, F, T, F, F, F, T, F, F, F)
  const X808B := Word(T, F, F, F, F, F, F, F, T, F, F, F, T, F, T, T)
  const X8143 := Word(T, F, F, F, F, F, F, T, F, T, F, F, F, F, T, T)
  const X8273 := Word(T, F, F, F, F, F, T, F, F, T, T, T, F, F, T, T)
  const X8443 := Word(T, F, F, F, F, T, F, F, F, T, F, F, F, F, T, T)
  const X861B := Word(T, F, F, F, F, T, T, F, F, F, F, T, T, F, T, T)
  const X87FB := Word(T, F, F, F, F, T, T, T, T, T, T, T, T, F, T, T)
  const X8CF0 := Word(T, F, F, F, T, T, F, F, T, T, T, T, F, F, F, F)
  const X9203 := Word(T, F, F, T, F, F, T, F, F, F, F, F, F, F, T, T)
  const X9631 := Word(T, F, F, T, F, T, T, F, F, F, T, T, F, F, F, T)
  const X9683 := Word(T, F, F, T, F, T, T, F, T, F, F, F, F, F, T, T)
  const X9853 := Word(T, F, F, T, T, F, F, F, F, T, F, T, F, F, T, T)
  const X9E03 := Word(T, F, F, T, T, T, T, F, F, F, F, F, F, F, T, T)
  const XAA7C := Word(T, F, T, F, T, F, T, F, F, T, T, T, T, T, F, F)
  const XB003 := Word(T, F, T, T, F, F, F, F, F, F, F, F, F, F, T, T)
  const XD4E6 := Word(T, T, F, T, F, T, F, F, T, T, T, F, F, T, T, F)
  lemma Raise217Part1() returns (e: Digits, n: nat)
    ensures n == 54 && Exponent(e) == n && Raise(e) == X9E03
  {
    e, n := Digits.None, 0;
    e, n := Digit(e, n, UNIT, true, X0002);
    e, n := Digit(e, n, X0002, true, X0008);
    e, n := Digit(e, n, X0008, false, X0040);
    e, n := Digit(e, n, X0040, true, X2000);
    e, n := Digit(e, n, X2000, true, XB003);
    e, n := Digit(e, n, XB003, false, X9E03);
  }

  lemma Raise217() returns (e: Digits, n: nat)
    ensures n == 217 && Exponent(e) == n && Raise(e) == XAA7C
  {
    e, n := Raise217Part1();
    e, n := Digit(e, n, X9E03, false, X87FB);
    e, n := Digit(e, n, X87FB, true, XAA7C);
  }

  lemma Power217(k: nat)
    requires k == 217
    ensures Power(k) == XAA7C
  {
    var e, n := Raise217();
    RaiseIsPower(e);
  }

  lemma Raise1057Part1() returns (e: Digits, n: nat)
    ensures n == 33 && Exponent(e) == n && Raise(e) == X802B
  {
    e, n := Digits.None, 0;
    e, n := Digit(e, n, UNIT, true, X0002);
    e, n := Digit(e, n, X0002, false, X0004);
    e, n := Digit(e, n, X0004, false, X0010);
    e, n := Digit(e, n, X0010, false, X0100);
    e, n := Digit(e, n, X0100, false, X8005);
    e, n := Digit(e, n, X8005, true, X802B);
  }

  lemma Raise1057() returns (e: Digits, n: nat)
    ensures n == 1057 && Exponent(e) == n && Raise(e) == X8273
  {
    e, n := Raise1057Part1();
    e, n := Digit(e, n, X802B, false, X8443);
    e, n := Digit(e, n, X8443, false, X1060);
    e, n := Digit(e, n, X1060, false, X9203);
    e, n := Digit(e, n, X9203, false, X861B);
    e, n := Digit(e, n, X861B, true, X8273);
  }

  lemma Power1057(k: nat)
    requires k == 1057
    ensures Power(k) == X8273
  {
    var e, n := Raise1057();
    RaiseIsPower(e);
  }

  lemma Raise4681Part1() returns (e: Digits, n: nat)
    ensures n == 36 && Exponent(e) == n && Raise(e) == X8143
  {
    e, n := Digits.None, 0;
    e, n := Digit(e, n, UNIT, true, X0002);
    e, n := Digit(e, n, X0002, false, X0004);
    e, n := Digit(e, n, X0004, false, X0010);
    e, n := Digit(e, n, X0010, true, X0200);
    e, n := Digit(e, n, X0200, false, X801B);
    e, n := Digit(e, n, X801B, false, X8143);
  }

  lemma Raise4681Part2() returns (e: Digits, n: nat)
    ensures n == 2340 && Exponent(e) == n && Raise(e) == X3271
  {
    e, n := Raise4681Part1();
    e, n := Digit(e, n, X8143, true, X200C);
    e, n := Digit(e, n, X200C, false, X9853);
    e, n := Digit(e, n, X9853, false, X9683);
    e, n := Digit(e, n, X9683, true, X8CF0);
    e, n := Digit(e, n, X8CF0, false, XD4E6);
    e, n := Digit(e, n, XD4E6, false, X3271);
  }

  lemma Raise4681() returns (e: Digits, n: nat)
    ensures n == 4681 && Exponent(e) == n && Raise(e) == X9631
  {
    e, n := Raise4681Part2();
    e, n := Digit(e, n, X3271, true, X9631);
  }

  lemma Power4681(k: nat)
    requires k == 4681
    ensures Power(k) == X9631
  {
    var e, n := Raise4681();
    RaiseIsPower(e);
  }

  lemma Raise32767Part1() returns (e: Digits, n: nat)
    ensures n == 63 && Exponent(e) == n && Raise(e) == X808B
  {
    e, n := Digits.None, 0;
    e, n := Digit(e, n, UNIT, true, X0002);
    e, n := Digit(e, n, X0002, true, X0008);
    e, n := Digit(e, n, X0008, true, X0080);
    e, n := Digit(e, n, X0080, true, X8000);
    e, n := Digit(e, n, X8000, true, X8009);
    e, n := Digit(e, n, X8009, true, X808B);
  }

  lemma Raise32767Part2() returns (e: Digits, n: nat)
    ensures n == 4095 && Exponent(e) == n && Raise(e) == X8088
  {
    e, n := Raise32767Part1();
    e, n := Digit(e, n, X808B, true, X0083);
    e, n := Digit(e, n, X0083, true, X800A);
    e, n := Digit(e, n, X800A, true, X8081);
    e, n := Digit(e, n, X8081, true, X000B);
    e, n := Digit(e, n, X000B, true, X008A);
    e, n := Digit(e, n, X008A, true, X8088);
  }

  lemma Raise32767() returns (e: Digits, n: nat)
    ensures n == 32767 && Exponent(e) == n && Raise(e) == UNIT
  {
    e, n := Raise32767Part2();
    e, n := Digit(e, n, X8088, true, X0089);
    e, n := Digit(e, n, X0089, true, X8082);
    e, n := Digit(e, n, X8082, true, UNIT);
  }

  lemma Power32767(k: nat)
    requires k == 32767
    ensures Power(k) == UNIT
  {
    var e, n := Raise32767();
    RaiseIsPower(e);
  }
  // ---------- the powers of x repeat after 32767 steps and not before ----------

  lemma {:induction false} Repeats(d: nat, k: nat, r: nat)
    requires Power(d) == UNIT
    ensures Power(k * d + r) == Power(r)
  {
    if k > 0 {
      Repeats(d, k - 1, r);
      assert k * d + r == d + ((k - 1) * d + r);
      TimesAdd(UNIT, d, (k - 1) * d + r);
    }
  }

  lemma Leaves(d: nat, n: nat)
    requires d > 0 && Power(d) == UNIT && Power(n) == UNIT
    ensures Power(n % d) == UNIT
  {
    Repeats(d, n / d, n % d);
    assert n == n / d * d + n % d;
  }

  /** The least period divides every period. */
  lemma {:induction false} LeastPeriod(d: nat, k: nat) returns (p: nat)
    requires d > 0 && k > 0 && Power(d) == UNIT && Power(k) == UNIT
    ensures 0 < p <= d && Power(p) == UNIT && k % p == 0
    decreases d
  {
    p := d;
    if k % d != 0 {
      Leaves(d, k);
      p := LeastPeriod(k % d, k);
    }
  }

  predicate Known(t: nat) {
    t == 1 || t == 7 || t == 31 || t == 151
  }

  lemma SmallDivisors(k: nat, t: nat)
    requires k == 32767 && 1 <= t <= 181 && k % t == 0
    ensures Known(t)
  {
  }

  /** A number that divides 217, 1057 or 4681 is no period. */
  lemma NotAPeriod(p: nat, k: nat)
    requires p > 0 && k % p == 0 && (k == 217 || k == 1057 || k == 4681)
    ensures Power(p) != UNIT
  {
    if Power(p) == UNIT {
      Repeats(p, k / p, 0);
      assert k / p * p + 0 == k;
      if k == 217 {
        Power217(k);
      } else if k == 1057 {
        Power1057(k);
      } else {
        Power4681(k);
      }
      assert false;
    }
  }

  lemma DivisorCases(p: nat, k: nat)
    requires k == 32767 && 0 < p < k && k % p == 0
    ensures 217 % p == 0 || 1057 % p == 0 || 4681 % p == 0
  {
    var h := k / p;
    assert h * p == k;
    if p <= 181 {
      SmallDivisors(k, p);
    } else {
      Cofactor(k, p, h);
      SmallDivisors(k, h);
      assert h == 7 || h == 31 || h == 151;
    }
  }

  lemma Cofactor(k: nat, p: nat, h: nat)
    requires k == 32767 && 181 < p < k && h * p == k
    ensures 1 < h <= 181 && k % h == 0
  {
    assert h <= 181 by {
      if h > 181 {
        Grows(h, 182, p, 182);
      }
    }
    Divided(k, h, p);
  }

  lemma Grows(a: nat, b: nat, c: nat, d: nat)
    requires a >= b && c >= d
    ensures a * c >= b * d
  {
  }

  lemma Divided(k: nat, h: nat, p: nat)
    requires h > 0 && k == p * h
    ensures k % h == 0
  {
    var q := k / h;
    assert k == q * h + k % h;
    if p > q {
      Grows(p, q + 1, h, h);
    }
    if p < q {
      Grows(q, p + 1, h, h);
    }
  }

  /** x to the d is 1 exactly when d is a multiple of 32767. */
  lemma PeriodIff(d: nat, k: nat)
    requires k == 32767
    ensures Power(d) == UNIT <==> d % k == 0
  {
    Power32767(k);
    if d % k == 0 {
      Repeats(k, d / k, 0);
      assert d / k * k + 0 == d;
    } else if Power(d) == UNIT {
      Leaves(k, d);
      var p := LeastPeriod(d % k, k);
      DivisorCases(p, k);
      if 217 % p == 0 {
        NotAPeriod(p, 217);
      } else if 1057 % p == 0 {
        NotAPeriod(p, 1057);
      } else {
        NotAPeriod(p, 4681);
      }
    }
  }

  // ---------- two flips ----------

  lemma TimesXInjective(v: Word, w: Word)
    ensures TimesX(v) == TimesX(w) ==> v == w
  {
  }

  lemma {:induction false} TimesInjective(v: Word, w: Word, n: nat)
    ensures Times(v, n) == Times(w, n) ==> v == w
  {
    if n > 0 {
      TimesXInjective(Times(v, n - 1), Times(w, n - 1));
      TimesInjective(v, w, n - 1);
    }
  }

  /** The register holding nothing but a flip at its leading end: the fifteenth power of x. */
  const FLIP: Register := ZERO[0 := true]

  lemma Raise15() returns (e: Digits, n: nat)
    ensures n == 15 && Exponent(e) == n && Raise(e) == X8000
  {
    e, n := Digits.None, 0;
    e, n := Digit(e, n, UNIT, true, X0002);
    e, n := Digit(e, n, X0002, true, X0008);
    e, n := Digit(e, n, X0008, true, X0080);
    e, n := Digit(e, n, X0080, true, X8000);
  }

  lemma FlipIsPower(k: nat)
    requires k == 15
    ensures Power(k) == X8000
  {
    var e, n := Raise15();
    RaiseIsPower(e);
  }

  lemma FlipWord()
    ensures WordOf(FLIP) == X8000
  {
  }

  /** A flip returns to where it was after `d` shifts exactly when `d` is a multiple of 32767. */
  lemma FlipReturnsIff(d: nat, k: nat)
    requires k == 32767
    ensures Shifts(FLIP, d) == FLIP <==> d % k == 0
  {
    var p := 15;
    FlipIsPower(p);
    FlipWord();
    ShiftsAreTimes(FLIP, d);
    TimesAdd(UNIT, p, d);
    TimesAdd(UNIT, d, p);
    TimesInjective(Power(d), UNIT, p);
    PeriodIff(d, k);
    if WordOf(Shifts(FLIP, d)) == WordOf(FLIP) {
      WordsEqual(Shifts(FLIP, d), FLIP);
    }
  }

  lemma FeedFlip(r: Register)
    ensures Feed(r, [true]) == Shift(r[0 := !r[0]])
  {
    assert [true][1..] == [];
  }

  lemma SecondFlip(r: Register)
    ensures Feed(r, [true]) == ZERO <==> r == FLIP
  {
    FeedFlip(r);
    ShiftKernel(r[0 := !r[0]]);
    if r[0 := !r[0]] == ZERO {
      assert r == r[0 := !r[0]][0 := r[0]];
      assert !r[0 := !r[0]][0];
    }
    assert FLIP[0 := false] == ZERO;
  }

  /** The register after the first flip and `d - 1` further bits. */
  lemma FirstFlip(i: nat, d: nat)
    requires d > 0
    ensures Feed(ZERO, Zeros(i) + [true] + Zeros(d - 1)) == Shifts(FLIP, d)
  {
    FeedAppend(ZERO, Zeros(i) + [true], Zeros(d - 1));
    FeedAppend(ZERO, Zeros(i), [true]);
    FeedZeros(ZERO, i);
    ShiftsKernel(ZERO, i);
    FeedFlip(ZERO);
    FeedZeros(Shift(FLIP), d - 1);
  }

  lemma TwoFlipsSyndrome(i: nat, d: nat, tail: nat)
    requires d > 0
    ensures Feed(ZERO, Zeros(i) + [true] + Zeros(d - 1) + [true] + Zeros(tail)) == ZERO <==> Shifts(FLIP, d) == FLIP
  {
    var head := Zeros(i) + [true] + Zeros(d - 1);
    FeedAppend(ZERO, head + [true], Zeros(tail));
    FeedAppend(ZERO, head, [true]);
    FirstFlip(i, d);
    SecondFlip(Shifts(FLIP, d));
    FeedZeros(Feed(ZERO, head + [true]), tail);
    ShiftsKernel(Feed(ZERO, head + [true]), tail);
  }

  /** The two strings differ in the bits `i` and `j` and in no other. */
  predicate DifferAt(f: seq<Byte>, g: seq<Byte>, i: nat, j: nat) {
    && |f| == |g| && i < j < 8 * |f|
    && forall k | 0 <= k < 8 * |f| :: Bits(f)[k] != Bits(g)[k] <==> k == i || k == j
  }

  lemma DifferenceOfTwo(f: seq<Byte>, g: seq<Byte>, i: nat, j: nat)
    requires DifferAt(f, g, i, j)
    ensures Difference(f, g) == Zeros(i) + [true] + Zeros(j - i - 1) + [true] + Zeros(8 * |f| - j - 1)
  {
  }

  /** An accepted frame with two bits flipped is rejected if and only if their distance is no multiple of 32767. */
  lemma TwoFlipsRejectedIff(f: seq<Byte>, g: seq<Byte>, i: nat, j: nat)
    requires DecodeRtuFrame(f).Frame? && DifferAt(f, g, i, j)
    ensures DecodeRtuFrame(g) == CrcMismatch <==> (j - i) % 32767 != 0
  {
    AcceptedIff(f);
    AcceptedIff(g);
    DifferenceSyndrome(f, g);
    DifferenceOfTwo(f, g, i, j);
    TwoFlipsSyndrome(i, j - i, 8 * |f| - j - 1);
    FlipReturnsIff(j - i, 32767);
  }

  /** In particular any two flips less than 32767 bits apart; a legal frame has at most 2048 bits. */
  lemma TwoFlipsRejected(f: seq<Byte>, g: seq<Byte>, i: nat, j: nat)
    requires DecodeRtuFrame(f).Frame? && DifferAt(f, g, i, j) && j - i < 32767
    ensures DecodeRtuFrame(g) == CrcMismatch
  {
    TwoFlipsRejectedIff(f, g, i, j);
  }
}
