/** The few Python text primitives the controller relies on: `str.strip()` on
    replies, `str(int)` and `int(str)` for counts and baud rates, and the
    fixed-point format `:.4f` for every real-valued command argument. */
module Text {

  datatype Option<T> = None | Some(value: T)

  // ---------------------------------------------------------------------------
  // str.strip()
  // ---------------------------------------------------------------------------

  /** The characters for which Python's `str.isspace()` holds, which is what
      `str.strip()` without arguments removes. */
  predicate IsSpace(c: char) {
    c == ' ' || ('\t' <= c <= '\r') || ('\U{1C}' <= c <= '\U{1F}')
    || c == '\U{85}' || c == '\U{A0}' || c == '\U{1680}'
    || ('\U{2000}' <= c <= '\U{200A}') || c == '\U{2028}' || c == '\U{2029}'
    || c == '\U{202F}' || c == '\U{205F}' || c == '\U{3000}'
  }

  predicate AllSpace(s: string) {
    forall i :: 0 <= i < |s| ==> IsSpace(s[i])
  }

  /** The first index from `i` on that does not hold whitespace, or `|s|`. */
  function SkipSpace(s: string, i: nat): (k: nat)
    requires i <= |s|
    ensures i <= k <= |s|
    ensures forall j :: i <= j < k ==> IsSpace(s[j])
    ensures k < |s| ==> !IsSpace(s[k])
    decreases |s| - i
  {
    if i == |s| || !IsSpace(s[i]) then i else SkipSpace(s, i + 1)
  }

  /** The end of `s[lo..hi]` once its trailing whitespace is cut off. */
  function SkipSpaceBack(s: string, lo: nat, hi: nat): (k: nat)
    requires lo <= hi <= |s|
    ensures lo <= k <= hi
    ensures forall j :: k <= j < hi ==> IsSpace(s[j])
    ensures k > lo ==> !IsSpace(s[k - 1])
    decreases hi - lo
  {
    if hi == lo || !IsSpace(s[hi - 1]) then hi else SkipSpaceBack(s, lo, hi - 1)
  }

  /** `str.strip()`: `s` without its leading and its trailing whitespace. */
  function Strip(s: string): (r: string)
    ensures |r| <= |s|
  {
    var lo := SkipSpace(s, 0);
    s[lo..SkipSpaceBack(s, lo, |s|)]
  }

  /** `Strip(s)` is a slice of `s` with only whitespace before and after it,
      and it neither starts nor ends with whitespace. */
  lemma StripTrims(s: string)
    ensures var r := Strip(s);
            var lo := SkipSpace(s, 0);
            && lo + |r| <= |s| && r == s[lo..lo + |r|]
            && (forall j :: 0 <= j < lo ==> IsSpace(s[j]))
            && (forall j :: lo + |r| <= j < |s| ==> IsSpace(s[j]))
            && (r != [] ==> !IsSpace(r[0]) && !IsSpace(r[|r| - 1]))
  {
    var lo := SkipSpace(s, 0);
    var hi := SkipSpaceBack(s, lo, |s|);
    assert Strip(s) == s[lo..hi];
    if lo < hi {
      assert !IsSpace(s[lo]) && !IsSpace(s[hi - 1]);
    }
  }

  lemma {:induction false} SkipSpaceOver(s: string, i: nat, k: nat)
    requires i <= k <= |s|
    requires forall j :: i <= j < k ==> IsSpace(s[j])
    requires k < |s| ==> !IsSpace(s[k])
    ensures SkipSpace(s, i) == k
    decreases k - i
  {
    if i < k {
      SkipSpaceOver(s, i + 1, k);
    }
  }

  lemma {:induction false} SkipSpaceBackOver(s: string, lo: nat, k: nat, hi: nat)
    requires lo <= k <= hi <= |s|
    requires forall j :: k <= j < hi ==> IsSpace(s[j])
    requires k > lo ==> !IsSpace(s[k - 1])
    ensures SkipSpaceBack(s, lo, hi) == k
    decreases hi - k
  {
    if k < hi {
      SkipSpaceBackOver(s, lo, k, hi - 1);
    }
  }

  /** `Strip` is exact: whatever is wrapped in whitespace on both sides, and
      has no whitespace at its own ends, is what `Strip` gives back. */
  lemma StripSurrounded(pre: string, mid: string, post: string)
    requires AllSpace(pre) && AllSpace(post)
    requires mid != [] && !IsSpace(mid[0]) && !IsSpace(mid[|mid| - 1])
    ensures Strip(pre + mid + post) == mid
  {
    var s := pre + mid + post;
    var lo, hi := |pre|, |pre| + |mid|;
    assert s[lo] == mid[0] && s[hi - 1] == mid[|mid| - 1];
    forall j | 0 <= j < lo ensures IsSpace(s[j]) {
      assert s[j] == pre[j];
    }
    forall j | hi <= j < |s| ensures IsSpace(s[j]) {
      assert s[j] == post[j - hi];
    }
    SkipSpaceOver(s, 0, lo);
    SkipSpaceBackOver(s, lo, hi, |s|);
    assert s[lo..hi] == mid;
  }

  // ---------------------------------------------------------------------------
  // str(int) and int(str)
  // ---------------------------------------------------------------------------

  predicate IsDigit(c: char) {
    '0' <= c <= '9'
  }

  predicate AllDigits(s: string) {
    forall i :: 0 <= i < |s| ==> IsDigit(s[i])
  }

  function DigitChar(d: nat): (c: char)
    requires d < 10
    ensures IsDigit(c) && c as int - '0' as int == d
  {
    (d + '0' as int) as char
  }

  /** The number a string of decimal digits denotes. */
  function DigitsValue(s: string): nat
    requires AllDigits(s)
  {
    if s == [] then 0
    else DigitsValue(s[..|s| - 1]) * 10 + (s[|s| - 1] as int - '0' as int)
  }

  /** The shortest decimal spelling of `n`: no leading zero except for 0 itself. */
  function NatDigits(n: nat): (s: string)
    ensures |s| >= 1 && AllDigits(s)
    ensures s[0] == '0' ==> n == 0
  {
    if n < 10 then [DigitChar(n)] else NatDigits(n / 10) + [DigitChar(n % 10)]
  }

  lemma {:induction false} NatDigitsValue(n: nat)
    ensures DigitsValue(NatDigits(n)) == n
  {
    if n >= 10 {
      var s := NatDigits(n);
      assert s[..|s| - 1] == NatDigits(n / 10);
      NatDigitsValue(n / 10);
    }
  }

  /** Python's `str(i)` for an integer. */
  function IntToString(i: int): (s: string)
    ensures |s| >= 1
    ensures forall k :: 0 <= k < |s| ==> IsDigit(s[k]) || (k == 0 && s[k] == '-')
  {
    if i < 0 then "-" + NatDigits(-i) else NatDigits(i)
  }

  /** Python's `int(s)` on an optionally signed run of decimal digits; `None`
      stands for the `ValueError` raised on anything else. */
  function ParseInt(s: string): (r: Option<int>)
    ensures r.Some? && s != [] && s[0] == '-' ==> r.value <= 0
    ensures r.Some? && s != [] && IsDigit(s[0]) ==> r.value >= 0
  {
    if |s| >= 2 && (s[0] == '-' || s[0] == '+') && AllDigits(s[1..]) then
      Some(if s[0] == '-' then -(DigitsValue(s[1..]) as int) else DigitsValue(s[1..]))
    else if |s| >= 1 && AllDigits(s) then Some(DigitsValue(s))
    else None
  }

  /** `int(str(i)) == i`. */
  lemma IntToStringRoundTrip(i: int)
    ensures ParseInt(IntToString(i)) == Some(i)
  {
    if i < 0 {
      var s := IntToString(i);
      assert s[1..] == NatDigits(-i);
      NatDigitsValue(-i);
    } else {
      NatDigitsValue(i);
    }
  }

  // ---------------------------------------------------------------------------
  // format(r, ".4f")
  // ---------------------------------------------------------------------------

  function Abs(r: real): real {
    if r < 0.0 then -r else r
  }

  /** The integer nearest a non-negative real, ties going to the even one. */
  function RoundHalfEven(x: real): (n: nat)
    requires x >= 0.0
    ensures (n as real) - 0.5 <= x <= (n as real) + 0.5
    ensures x == (n as real) - 0.5 || x == (n as real) + 0.5 ==> n % 2 == 0
  {
    var f := x.Floor;
    var d := x - f as real;
    if d < 0.5 || (d == 0.5 && f % 2 == 0) then f else f + 1
  }

  /** The magnitude of `r` in units of 0.0001, rounded. */
  function Scaled4(r: real): nat {
    RoundHalfEven(Abs(r) * 10000.0)
  }

  /** Four digits with leading zeros, the fractional part of `:.4f`. */
  function Pad4(m: nat): (s: string)
    requires m < 10000
    ensures |s| == 4 && AllDigits(s)
  {
    [DigitChar(m / 1000), DigitChar(m / 100 % 10), DigitChar(m / 10 % 10), DigitChar(m % 10)]
  }

  lemma Pad4Value(m: nat)
    requires m < 10000
    ensures DigitsValue(Pad4(m)) == m
  {
    var s := Pad4(m);
    assert m / 100 == (m / 1000) * 10 + m / 100 % 10;
    assert m / 10 == (m / 100) * 10 + m / 10 % 10;
    assert m == (m / 10) * 10 + m % 10;
    assert s[..1][..0] == [];
    assert s[..2][..1] == s[..1];
    assert s[..3][..2] == s[..2];
    assert DigitsValue(s[..1]) == m / 1000;
    assert DigitsValue(s[..2]) == m / 100;
    assert DigitsValue(s[..3]) == m / 10;
  }

  predicate IsNumeral(c: char) {
    IsDigit(c) || c == '-' || c == '.'
  }

  /** `format(r, ".4f")` on the real `r`: a minus sign whenever `r` is negative
      (Python prints `-0.0000` for tiny negatives), the integer part, a point
      and four rounded decimals. */
  function Fmt4(r: real): (s: string)
    ensures |s| >= 6 && s[|s| - 5] == '.' && AllDigits(s[|s| - 4..])
    ensures forall i :: 0 <= i < |s| ==> IsNumeral(s[i])
  {
    var n := Scaled4(r);
    (if r < 0.0 then "-" else "") + NatDigits(n / 10000) + "." + Pad4(n % 10000)
  }

  /** The value `Fmt4(r)` prints: `r` rounded to four decimals. */
  function Rounded4(r: real): real {
    var v := Scaled4(r) as real / 10000.0;
    if r < 0.0 then -v else v
  }

  /** The value a fixed-point text with exactly four decimals denotes, if it
      is one: an optional minus, at least one digit, a point, four digits. */
  function Fixed4Value(s: string): Option<real> {
    if |s| > 0 && s[0] == '-' then
      match UnsignedFixed4(s[1..])
      case Some(v) => Some(-v)
      case None => None
    else UnsignedFixed4(s)
  }

  function UnsignedFixed4(s: string): Option<real> {
    if |s| >= 6 && s[|s| - 5] == '.' && AllDigits(s[..|s| - 5]) && AllDigits(s[|s| - 4..])
    then Some(DigitsValue(s[..|s| - 5]) as real + DigitsValue(s[|s| - 4..]) as real / 10000.0)
    else None
  }

  /** The unsigned part of `Fmt4`'s text reads back as the value it spells. */
  lemma UnsignedFixed4Of(q: nat, m: nat)
    requires m < 10000
    ensures UnsignedFixed4(NatDigits(q) + "." + Pad4(m)) == Some(q as real + m as real / 10000.0)
  {
    var u := NatDigits(q) + "." + Pad4(m);
    assert u[..|u| - 5] == NatDigits(q);
    assert u[|u| - 4..] == Pad4(m);
    NatDigitsValue(q);
    Pad4Value(m);
  }

  lemma DivModScaled(n: nat)
    ensures ((n / 10000) as real) + ((n % 10000) as real) / 10000.0 == (n as real) / 10000.0
  {
    assert n == (n / 10000) * 10000 + n % 10000;
  }

  /** The text `Fmt4` builds from a sign and a count of units 0.0001 reads
      back as that signed count of units. */
  lemma SignedFixed4Of(negative: bool, n: nat)
    ensures var v := (n as real) / 10000.0;
            Fixed4Value((if negative then "-" else "") + NatDigits(n / 10000) + "." + Pad4(n % 10000))
              == Some(if negative then -v else v)
  {
    var u := NatDigits(n / 10000) + "." + Pad4(n % 10000);
    UnsignedFixed4Of(n / 10000, n % 10000);
    DivModScaled(n);
    if negative {
      assert "-" + NatDigits(n / 10000) + "." + Pad4(n % 10000) == "-" + u;
      NegatedFixed4(u);
    } else {
      assert "" + NatDigits(n / 10000) + "." + Pad4(n % 10000) == u;
      assert u[0] == NatDigits(n / 10000)[0];
    }
  }

  lemma NegatedFixed4(u: string)
    requires UnsignedFixed4(u).Some?
    ensures Fixed4Value("-" + u) == Some(-UnsignedFixed4(u).value)
  {
    assert ("-" + u)[1..] == u;
  }

  /** Reading back what `Fmt4` printed gives `r` rounded to four decimals. */
  lemma Fmt4RoundTrip(r: real)
    ensures Fixed4Value(Fmt4(r)) == Some(Rounded4(r))
  {
    SignedFixed4Of(r < 0.0, Scaled4(r));
  }

  /** A value with at most four decimals prints exactly: its integer part,
      a point and its four decimals, after a minus sign when it is negative. */
  lemma Fmt4Exact(r: real, q: nat, m: nat)
    requires m < 10000 && Abs(r) == q as real + m as real / 10000.0
    ensures Fmt4(r) == (if r < 0.0 then "-" else "") + NatDigits(q) + "." + Pad4(m)
  {
    var n := q * 10000 + m;
    assert Abs(r) * 10000.0 == n as real;
    assert Scaled4(r) == n;
    assert n / 10000 == q && n % 10000 == m;
  }

  /** A negative value with four decimals is spelt with its minus sign. */
  lemma Fmt4NegativeExample()
    ensures Fmt4(-0.15) == "-0.1500"
  {
    Fmt4Exact(-0.15, 0, 1500);
    assert Pad4(1500) == "1500";
  }

  /** The printed value is within half a unit of the fourth decimal of `r`. */
  lemma Rounded4Error(r: real)
    ensures Abs(Rounded4(r) - r) <= 0.00005
  {
    var n := Scaled4(r);
    assert (n as real) - 0.5 <= Abs(r) * 10000.0 <= (n as real) + 0.5;
  }
}
