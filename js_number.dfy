/** The JavaScript built-ins the core relies on, over exact reals and
    unbounded integers: Math.round, Number.prototype.toFixed(2) read back
    with parseFloat, Math.floor, Math.min/Math.max, the truncating `%`
    operator, String.prototype.trim's notion of white space and the
    decimal rendering of a non-negative integer. */
module JsNumber {

  /** Math.round: the nearest integer, a half rounded towards +infinity. */
  function Round(x: real): (r: int)
    ensures x - 0.5 < r as real <= x + 0.5
  {
    (x + 0.5).Floor
  }

  lemma RoundMonotone(x: real, y: real)
    requires x <= y
    ensures Round(x) <= Round(y)
  {
  }

  lemma RoundOfInteger(k: int)
    ensures Round(k as real) == k
  {
  }

  /** Math.floor on a real. */
  function Floor(x: real): (r: int)
    ensures r as real <= x < r as real + 1.0
  {
    x.Floor
  }

  /** parseFloat(x.toFixed(2)): x to two decimals, a half rounded away from zero. */
  function ToFixed2(x: real): real
  {
    if x < 0.0 then -HalfUpCents(-x) else HalfUpCents(x)
  }

  function HalfUpCents(x: real): (r: real)
    ensures x - 0.005 < r <= x + 0.005
  {
    (x * 100.0 + 0.5).Floor as real / 100.0
  }

  lemma ToFixed2Monotone(x: real, y: real)
    requires 0.0 <= x <= y
    ensures ToFixed2(x) <= ToFixed2(y)
  {
    assert (x * 100.0 + 0.5).Floor <= (y * 100.0 + 0.5).Floor;
  }

  /** A value that already has at most two decimals is kept by toFixed(2). */
  lemma ToFixed2OfCents(k: nat)
    ensures ToFixed2(k as real / 100.0) == k as real / 100.0
  {
    var x := k as real / 100.0;
    assert x * 100.0 == k as real;
    assert (x * 100.0 + 0.5).Floor == k;
  }

  function MinReal(a: real, b: real): (r: real)
    ensures r <= a && r <= b && (r == a || r == b)
  {
    if a <= b then a else b
  }

  function MaxReal(a: real, b: real): (r: real)
    ensures r >= a && r >= b && (r == a || r == b)
  {
    if a >= b then a else b
  }

  /** Math.max on integers: MaxReal on their exact values. */
  function MaxInt(a: int, b: int): (r: int)
    ensures r >= a && r >= b && (r == a || r == b)
  {
    MaxReal(a as real, b as real).Floor
  }

  /** Math.min on integers: MinReal on their exact values. */
  function MinInt(a: int, b: int): (r: int)
    ensures r <= a && r <= b && (r == a || r == b)
  {
    MinReal(a as real, b as real).Floor
  }

  function Abs(x: real): (r: real)
    ensures r >= 0.0 && (r == x || r == -x)
  {
    if x < 0.0 then -x else x
  }

  /** The `%` operator of JavaScript on integers: the remainder of truncating
      division, which takes the sign of the dividend. It is stated here as
      taking b away from, or adding b to, a until what is left is smaller
      than b in magnitude; JsRemTruncates ties it to Dafny's `%`. */
  function JsRem(a: int, b: int): (r: int)
    requires b > 0
    ensures a >= 0 ==> 0 <= r < b
    ensures a < 0 ==> -b < r <= 0
    decreases if a < 0 then -a else a
  {
    if a >= b then JsRem(a - b, b)
    else if a <= -b then JsRem(a + b, b)
    else a
  }

  /** Dafny's `%` is Euclidean: its remainder is the one with 0 <= r < b. */
  lemma EuclideanUnique(a: int, b: int, q: int, r: int)
    requires b > 0 && a == b * q + r && 0 <= r < b
    ensures a % b == r
  {
    var q' := a / b;
    var r' := a % b;
    assert b * (q - q') == r' - r;
    MultipleBelow(b, q - q');
  }

  /** The only multiple of b strictly between -b and b is 0. */
  lemma MultipleBelow(b: int, k: int)
    requires b > 0 && -b < b * k < b
    ensures k == 0
  {
    if k > 0 {
      MultipleAtLeast(b, k);
    } else if k < 0 {
      MultipleAtLeast(b, -k);
    }
  }

  lemma {:induction false} MultipleAtLeast(b: int, k: int)
    requires b > 0 && k >= 1
    ensures b * k >= b
    decreases k
  {
    if k > 1 {
      MultipleAtLeast(b, k - 1);
      assert b * k == b * (k - 1) + b;
    }
  }

  /** Adding b keeps the remainder. */
  lemma RemAddDivisor(a: int, b: int)
    requires a >= 0 && b > 0
    ensures (a + b) % b == a % b
  {
    var q := a / b;
    assert a == b * q + a % b;
    assert a + b == b * (q + 1) + a % b;
    EuclideanUnique(a + b, b, q + 1, a % b);
  }

  /** JsRem is the remainder of truncating division: Dafny's `%` for a
      non-negative dividend, and minus the remainder of -a otherwise. */
  lemma {:induction false} JsRemTruncates(a: int, b: int)
    requires b > 0
    ensures a >= 0 ==> JsRem(a, b) == a % b
    ensures a < 0 ==> JsRem(a, b) == -((-a) % b)
    decreases if a < 0 then -a else a
  {
    if a >= b {
      JsRemTruncates(a - b, b);
      RemAddDivisor(a - b, b);
    } else if a <= -b {
      JsRemTruncates(a + b, b);
      RemAddDivisor(-a - b, b);
    } else if a >= 0 {
      EuclideanUnique(a, b, 0, a);
    } else {
      EuclideanUnique(-a, b, 0, -a);
    }
  }

  /** a % 360 in JavaScript differs from a by whole turns. */
  lemma {:induction false} JsRemWholeTurns(a: int)
    ensures (a - JsRem(a, 360)) % 360 == 0
    decreases if a < 0 then -a else a
  {
    if a >= 360 {
      JsRemWholeTurns(a - 360);
    } else if a <= -360 {
      JsRemWholeTurns(a + 360);
    }
  }

  /** Whole turns add up to whole turns. */
  lemma WholeTurnsSum(a: int, b: int)
    requires a % 360 == 0 && b % 360 == 0
    ensures (a + b) % 360 == 0
  {
  }

  /** The characters String.prototype.trim removes: WhiteSpace and
      LineTerminator of the ECMAScript grammar. */
  predicate IsJsWhitespace(c: char)
  {
    c == '\t' || c == '\n' || c == '\U{000B}' || c == '\U{000C}' || c == '\r' || c == ' '
    || c == '\U{00A0}' || c == '\U{1680}' || ('\U{2000}' <= c <= '\U{200A}')
    || c == '\U{2028}' || c == '\U{2029}' || c == '\U{202F}' || c == '\U{205F}'
    || c == '\U{3000}' || c == '\U{FEFF}'
  }

  /** s.trim() is the empty string, that is, falsy. */
  predicate IsBlank(s: string)
  {
    forall i :: 0 <= i < |s| ==> IsJsWhitespace(s[i])
  }

  /** `${n}` for a non-negative integer. */
  function NatToString(n: nat): (s: string)
    ensures |s| >= 1
    ensures forall i :: 0 <= i < |s| ==> '0' <= s[i] <= '9'
  {
    if n < 10 then [DigitChar(n)] else NatToString(n / 10) + [DigitChar(n % 10)]
  }

  function DigitChar(d: nat): (c: char)
    requires d < 10
    ensures '0' <= c <= '9'
    ensures c as int - '0' as int == d
  {
    ['0', '1', '2', '3', '4', '5', '6', '7', '8', '9'][d]
  }

  /** The number a string of decimal digits reads as, most significant
      digit first. */
  function DigitsValue(s: string): nat
    requires forall i :: 0 <= i < |s| ==> '0' <= s[i] <= '9'
  {
    if s == [] then 0
    else DigitsValue(s[..|s| - 1]) * 10 + (s[|s| - 1] as int - '0' as int)
  }

  /** The text of a page number reads back as that number, and only 0 is
      written with a leading zero: distinct numbers get distinct labels. */
  lemma {:induction false} NatToStringValue(n: nat)
    ensures DigitsValue(NatToString(n)) == n
    ensures NatToString(n)[0] == '0' <==> n == 0
  {
    var s := NatToString(n);
    if n >= 10 {
      NatToStringValue(n / 10);
      assert s[..|s| - 1] == NatToString(n / 10);
      assert s[0] == NatToString(n / 10)[0];
    }
  }
}
