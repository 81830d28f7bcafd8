/**
 * `generateBarcode(prefix)`: `<prefix>-<last 6 digits of the clock>-<4-digit random>`.
 * The clock reading (milliseconds) and the `Math.random()` draw are inputs.
 */
module Barcode {

  predicate IsDigit(c: char) {
    '0' <= c <= '9'
  }

  predicate AllDigits(s: string) {
    forall i :: 0 <= i < |s| ==> IsDigit(s[i])
  }

  function DigitChar(d: nat): (c: char)
    requires d < 10
    ensures IsDigit(c) && (c as int) - ('0' as int) == d
  {
    (('0' as int) + d) as char
  }

  /** `n.toString()` for a non-negative integer: its decimal digits, no leading zeros. */
  function Decimal(n: nat): (s: string)
    ensures 1 <= |s| && AllDigits(s)
  {
    if n < 10 then [DigitChar(n)] else Decimal(n / 10) + [DigitChar(n % 10)]
  }

  /** The value of a string read as decimal digits, leading zeros allowed. */
  function ValueOf(s: string): int {
    if s == [] then 0 else ValueOf(s[..|s| - 1]) * 10 + ((s[|s| - 1] as int) - ('0' as int))
  }

  /** `s.slice(-k)` for k > 0: the last k characters, or all of s when it is shorter. */
  function Last(s: string, k: nat): (r: string)
    requires k > 0
    ensures |r| == if |s| <= k then |s| else k
    ensures r == s[|s| - |r|..]
  {
    if |s| <= k then s else s[|s| - k..]
  }

  /** `s.padStart(width, fill)` */
  function PadStart(s: string, width: nat, fill: char): (r: string)
    ensures |r| == if |s| < width then width else |s|
    ensures r[|r| - |s|..] == s
    ensures forall i :: 0 <= i < |r| - |s| ==> r[i] == fill
  {
    if |s| < width then seq(width - |s|, _ => fill) + s else s
  }

  function Pow10(k: nat): (p: nat)
    ensures p >= 1
  {
    if k == 0 then 1 else 10 * Pow10(k - 1)
  }

  /** `Math.floor(Math.random() * 9999)` */
  function RandomNumber(draw: real): (k: nat)
    requires 0.0 <= draw < 1.0
    ensures k <= 9998
  {
    (draw * 9999.0).Floor
  }

  function TimePart(nowMs: nat): string {
    Last(Decimal(nowMs), 6)
  }

  function RandomPart(draw: real): string
    requires 0.0 <= draw < 1.0
  {
    PadStart(Decimal(RandomNumber(draw)), 4, '0')
  }

  function GenerateBarcode(prefix: string, nowMs: nat, draw: real): string
    requires 0.0 <= draw < 1.0
  {
    prefix + "-" + TimePart(nowMs) + "-" + RandomPart(draw)
  }

  /** Reading back the digits gives the number: `ValueOf` inverts `Decimal`. */
  lemma {:induction false} ValueOfDecimal(n: nat)
    ensures ValueOf(Decimal(n)) == n
  {
    if n >= 10 {
      ValueOfDecimal(n / 10);
      var s := Decimal(n);
      assert s[..|s| - 1] == Decimal(n / 10);
    }
  }

  /** The decimal string has no leading zero: only 0 itself starts with '0'. */
  lemma {:induction false} DecimalNoLeadingZero(n: nat)
    ensures Decimal(n)[0] == '0' <==> n == 0
  {
    if n >= 10 {
      DecimalNoLeadingZero(n / 10);
      assert Decimal(n)[0] == Decimal(n / 10)[0];
    }
  }

  /** A number of at least 10^k has more than k digits. */
  lemma {:induction false} DecimalLengthAtLeast(n: nat, k: nat)
    requires n >= Pow10(k)
    ensures |Decimal(n)| > k
  {
    if k > 0 {
      assert n / 10 >= Pow10(k - 1);
      DecimalLengthAtLeast(n / 10, k - 1);
      assert Decimal(n) == Decimal(n / 10) + [DigitChar(n % 10)];
    }
  }

  /** A number below 10^k has at most k digits. */
  lemma {:induction false} DecimalLength(n: nat, k: nat)
    requires 1 <= k && n < Pow10(k)
    ensures |Decimal(n)| <= k
  {
    if n >= 10 {
      assert k >= 2;
      DecimalLength(n / 10, k - 1);
    }
  }

  /** Leading zeros do not change the value. */
  lemma {:induction false} LeadingZeros(z: nat, s: string)
    requires AllDigits(s)
    ensures AllDigits(seq(z, _ => '0') + s)
    ensures ValueOf(seq(z, _ => '0') + s) == ValueOf(s)
  {
    var p := seq(z, _ => '0') + s;
    assert forall i :: 0 <= i < |p| ==> IsDigit(p[i]);
    if s == [] {
      assert p == seq(z, _ => '0');
      AllZeros(z);
    } else {
      var init := s[..|s| - 1];
      assert p[..|p| - 1] == seq(z, _ => '0') + init;
      LeadingZeros(z, init);
    }
  }

  lemma {:induction false} AllZeros(z: nat)
    ensures AllDigits(seq(z, _ => '0'))
    ensures ValueOf(seq(z, _ => '0')) == 0
  {
    if z > 0 {
      assert seq(z, _ => '0')[..z - 1] == seq(z - 1, _ => '0');
      AllZeros(z - 1);
    }
  }

  /** The number formed by the k lowest decimal digits of n. */
  function LowDigits(n: nat, k: nat): nat {
    if k == 0 then 0 else LowDigits(n / 10, k - 1) * 10 + n % 10
  }

  lemma {:induction false} LowDigitsOfZero(k: nat)
    ensures LowDigits(0, k) == 0
  {
    if k > 0 {
      LowDigitsOfZero(k - 1);
    }
  }

  lemma {:induction false} MulAtLeast(m: int, d: int)
    requires m > 0 && d >= 1
    ensures m * d >= m
  {
    if d > 1 {
      MulAtLeast(m, d - 1);
      assert m * d == m * (d - 1) + m;
    }
  }

  /** The remainder is the only one below the divisor. */
  lemma DivModUnique(n: int, m: int, a: int, c: int)
    requires m > 0 && n == m * a + c && 0 <= c < m
    ensures n % m == c
  {
    var q := n / m;
    var r := n % m;
    var d := a - q;
    assert m * d == r - c by {
      assert m * d == m * a - m * q;
    }
    if d >= 1 {
      MulAtLeast(m, d);
    } else if d <= -1 {
      MulAtLeast(m, -d);
    }
  }

  /** The remainder modulo 10p, built from the remainder of n / 10 modulo p and the last digit. */
  lemma ModTenTimes(n: nat, p: nat)
    requires p >= 1
    ensures n % (10 * p) == (n / 10) % p * 10 + n % 10
  {
    var q := n / 10;
    var a := q / p;
    var b := q % p;
    assert q == p * a + b;
    assert n == (10 * p) * a + (b * 10 + n % 10) by {
      assert (10 * p) * a == 10 * (p * a);
    }
    DivModUnique(n, 10 * p, a, b * 10 + n % 10);
  }

  /** The k low digits of n are n modulo 10^k. */
  lemma {:induction false} LowDigitsMod(n: nat, k: nat)
    ensures LowDigits(n, k) == n % Pow10(k)
  {
    if k > 0 {
      LowDigitsMod(n / 10, k - 1);
      ModTenTimes(n, Pow10(k - 1));
    }
  }

  /** Six low digits are the remainder modulo one million. */
  lemma LowSixDigits(n: nat)
    ensures LowDigits(n, 6) == n % 1000000
  {
    LowDigitsMod(n, 6);
    assert Pow10(6) == 1000000;
  }
  lemma LastOfSnoc(a: string, c: char, k: nat)
    requires k >= 2
    ensures Last(a + [c], k) == Last(a, k - 1) + [c]
  {
  }

  lemma ValueOfSnoc(r: string, c: char)
    requires AllDigits(r) && IsDigit(c)
    ensures AllDigits(r + [c])
    ensures ValueOf(r + [c]) == ValueOf(r) * 10 + ((c as int) - ('0' as int))
  {
    assert (r + [c])[..|r|] == r;
  }

  lemma LastAllDigits(s: string, k: nat)
    requires k > 0 && AllDigits(s)
    ensures AllDigits(Last(s, k))
  {
  }

  /** The last k digits of n read back as its k lowest digits. */
  lemma {:induction false} LastDigitsValue(n: nat, k: nat)
    requires k >= 1
    ensures AllDigits(Last(Decimal(n), k))
    ensures ValueOf(Last(Decimal(n), k)) == LowDigits(n, k)
  {
    LastAllDigits(Decimal(n), k);
    if n < 10 {
      SingleDigit(n, k);
    } else if k == 1 {
      LastDigitOnly(n);
    } else {
      LastDigitsValue(n / 10, k - 1);
      LastDigitsStep(n, k);
    }
  }

  /** One more digit: the step of the induction above. */
  lemma LastDigitsStep(n: nat, k: nat)
    requires n >= 10 && k >= 2
    requires ValueOf(Last(Decimal(n / 10), k - 1)) == LowDigits(n / 10, k - 1)
    ensures ValueOf(Last(Decimal(n), k)) == LowDigits(n, k)
  {
    var c := DigitChar(n % 10);
    var init := Decimal(n / 10);
    var l := Last(init, k - 1);
    assert Decimal(n) == init + [c];
    assert Last(Decimal(n), k) == l + [c] by { LastOfSnoc(init, c, k); }
    assert ValueOf(l + [c]) == ValueOf(l) * 10 + n % 10 by {
      LastAllDigits(init, k - 1);
      ValueOfSnoc(l, c);
    }
    assert LowDigits(n, k) == LowDigits(n / 10, k - 1) * 10 + n % 10;
  }

  lemma SingleDigit(n: nat, k: nat)
    requires n < 10 && k >= 1
    ensures ValueOf(Last(Decimal(n), k)) == LowDigits(n, k)
  {
    var c := DigitChar(n);
    var d := Decimal(n);
    assert d == [c];
    var l := Last(d, k);
    assert l == [c] by { LastOfSingleton(c, k); }
    assert ValueOf(l) == n by { ValueOfSingleton(c); }
    assert LowDigits(n, k) == n by { SmallLowDigits(n, k); }
  }

  lemma SmallLowDigits(n: nat, k: nat)
    requires n < 10 && k >= 1
    ensures LowDigits(n, k) == n
  {
    LowDigitsOfZero(k - 1);
  }

  lemma LastOfSingleton(c: char, k: nat)
    requires k >= 1
    ensures Last([c], k) == [c]
  {
  }

  lemma ValueOfSingleton(c: char)
    requires IsDigit(c)
    ensures ValueOf([c]) == (c as int) - ('0' as int)
  {
    assert [c][..0] == [];
  }

  lemma LastDigitOnly(n: nat)
    requires n >= 10
    ensures ValueOf(Last(Decimal(n), 1)) == LowDigits(n, 1)
  {
    var c := DigitChar(n % 10);
    assert Decimal(n) == Decimal(n / 10) + [c];
    assert Last(Decimal(n), 1) == [c];
    ValueOfSingleton(c);
    assert LowDigits(n, 1) == LowDigits(n / 10, 0) * 10 + n % 10;
  }

  /**
   * The layout of a barcode: the prefix unchanged, a dash, the clock's last (at most)
   * six digits reading as the clock modulo 10^6, exactly six for any clock from 100000
   * on, a dash, and exactly four digits reading as the random number, which lies in
   * 0..9998.
   */
  lemma BarcodeLayout(prefix: string, nowMs: nat, draw: real)
    requires 0.0 <= draw < 1.0
    ensures var code := GenerateBarcode(prefix, nowMs, draw);
            var t := |TimePart(nowMs)|;
            && 1 <= t <= 6
            && (nowMs >= 100000 ==> t == 6)
            && |code| == |prefix| + 1 + t + 1 + 4
            && code[..|prefix|] == prefix
            && code[|prefix|] == '-'
            && AllDigits(code[|prefix| + 1..|prefix| + 1 + t])
            && ValueOf(code[|prefix| + 1..|prefix| + 1 + t]) == nowMs % 1000000
            && code[|code| - 5] == '-'
            && AllDigits(code[|code| - 4..])
            && ValueOf(code[|code| - 4..]) == RandomNumber(draw)
  {
    var tp := TimePart(nowMs);
    var rp := RandomPart(draw);
    TimePartDigits(nowMs);
    TimePartWidth(nowMs);
    RandomPartDigits(draw);
    Layout(prefix, tp, rp);
    var code := GenerateBarcode(prefix, nowMs, draw);
    assert code == prefix + "-" + tp + "-" + rp;
    assert code[|prefix| + 1..|prefix| + 1 + |tp|] == tp;
    assert code[|code| - 4..] == rp;
  }

  /** Where the pieces of `${prefix}-${time}-${random}` sit, for a four-character random part. */
  lemma Layout(prefix: string, tp: string, rp: string)
    requires |rp| == 4
    ensures var code := prefix + "-" + tp + "-" + rp;
            && |code| == |prefix| + 1 + |tp| + 1 + 4
            && code[..|prefix|] == prefix
            && code[|prefix|] == '-'
            && code[|prefix| + 1..|prefix| + 1 + |tp|] == tp
            && code[|code| - 5] == '-'
            && code[|code| - 4..] == rp
  {
    var code := prefix + "-" + tp + "-" + rp;
    assert code[|prefix| + 1..|prefix| + 1 + |tp|] == tp;
    assert code[|code| - 4..] == rp;
  }

  /** The time part: one to six digits, reading as the clock modulo 10^6. */
  lemma TimePartDigits(nowMs: nat)
    ensures 1 <= |TimePart(nowMs)| <= 6
    ensures AllDigits(TimePart(nowMs))
    ensures ValueOf(TimePart(nowMs)) == nowMs % 1000000
  {
    LastDigitsValue(nowMs, 6);
    LowSixDigits(nowMs);
  }

  /**
   * The width of the time part: any clock reading from 100000 on gives exactly six
   * characters, leading zeros kept; below 1000000 it is the whole decimal string.
   */
  lemma TimePartWidth(nowMs: nat)
    ensures nowMs >= 100000 ==> |TimePart(nowMs)| == 6
    ensures nowMs < 1000000 ==> TimePart(nowMs) == Decimal(nowMs)
  {
    if nowMs >= 100000 {
      assert Pow10(5) == 100000;
      DecimalLengthAtLeast(nowMs, 5);
    }
    if nowMs < 1000000 {
      assert Pow10(6) == 1000000;
      DecimalLength(nowMs, 6);
    }
  }

  /** The random part: exactly four digits, reading as the random number. */
  lemma RandomPartDigits(draw: real)
    requires 0.0 <= draw < 1.0
    ensures |RandomPart(draw)| == 4
    ensures AllDigits(RandomPart(draw))
    ensures ValueOf(RandomPart(draw)) == RandomNumber(draw)
  {
    var k := RandomNumber(draw);
    var d := Decimal(k);
    assert Pow10(4) == 10000;
    DecimalLength(k, 4);
    assert RandomPart(draw) == seq(4 - |d|, _ => '0') + d;
    LeadingZeros(4 - |d|, d);
    ValueOfDecimal(k);
  }
}
