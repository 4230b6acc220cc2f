/** String helpers with JavaScript semantics: number-to-decimal conversion
    (`String(n)` / template literals on integers) and `String.prototype.trim`. */
module Text {
  import opened Wrappers

  /** The decimal digit for `d`. */
  function DigitChar(d: nat): (c: char)
    requires d < 10
    ensures '0' <= c <= '9'
  {
    "0123456789"[d]
  }

  function DigitValue(c: char): nat
    requires '0' <= c <= '9'
  {
    (c as int - '0' as int) as nat
  }

  predicate IsDigits(s: string)
  {
    forall i :: 0 <= i < |s| ==> '0' <= s[i] <= '9'
  }

  /** Decimal rendering of a natural number, without leading zeros. */
  function NatToString(n: nat): (s: string)
    ensures |s| >= 1 && IsDigits(s)
    ensures s[0] == '0' <==> n == 0
    decreases n
  {
    if n < 10 then [DigitChar(n)]
    else NatToString(n / 10) + [DigitChar(n % 10)]
  }

  /** Value of a non-empty string of decimal digits. */
  function ParseDigits(s: string): nat
    requires IsDigits(s)
    decreases |s|
  {
    if s == [] then 0
    else 10 * ParseDigits(s[..|s| - 1]) + DigitValue(s[|s| - 1])
  }

  /** Rendering then reading back a number gives the number: the rendering
      loses nothing, so two distinct numbers never share a rendering. */
  lemma {:induction false} NatToStringRoundTrip(n: nat)
    ensures ParseDigits(NatToString(n)) == n
    decreases n
  {
    var s := NatToString(n);
    if n < 10 {
      assert s[..|s| - 1] == [];
    } else {
      NatToStringRoundTrip(n / 10);
      assert s[..|s| - 1] == NatToString(n / 10);
    }
  }

  lemma {:induction false} NatToStringInjective(m: nat, n: nat)
    requires NatToString(m) == NatToString(n)
    ensures m == n
  {
    NatToStringRoundTrip(m);
    NatToStringRoundTrip(n);
  }

  /** `String(i)` for an integer-valued JavaScript number. */
  function IntToString(i: int): (s: string)
    ensures |s| >= 1
    ensures i >= 0 ==> s == NatToString(i)
    ensures i < 0 ==> s[0] == '-' && s[1..] == NatToString(-i)
  {
    if i < 0 then "-" + NatToString(-i) else NatToString(i)
  }

  /** The characters `String.prototype.trim` removes: ECMAScript
      WhiteSpace and LineTerminator code points. */
  predicate IsJsWhitespace(c: char)
  {
    || ('\U{0009}' <= c <= '\U{000D}')
    || c == '\U{0020}' || c == '\U{00A0}' || c == '\U{1680}'
    || ('\U{2000}' <= c <= '\U{200A}')
    || c == '\U{2028}' || c == '\U{2029}' || c == '\U{202F}'
    || c == '\U{205F}' || c == '\U{3000}' || c == '\U{FEFF}'
  }

  /** End of the run of `ws` characters that starts at `from`. */
  function LeadingRun(s: string, ws: char -> bool, from: nat): (k: nat)
    requires from <= |s|
    ensures from <= k <= |s|
    ensures forall i :: from <= i < k ==> ws(s[i])
    ensures k == |s| || !ws(s[k])
    decreases |s| - from
  {
    if from < |s| && ws(s[from]) then LeadingRun(s, ws, from + 1) else from
  }

  /** Start of the run of `ws` characters that ends at `hi`, stopping at
      `lo`. */
  function TrailingRun(s: string, ws: char -> bool, lo: nat, hi: nat): (k: nat)
    requires lo <= hi <= |s|
    ensures lo <= k <= hi
    ensures forall i :: k <= i < hi ==> ws(s[i])
    ensures k == lo || !ws(s[k - 1])
    decreases hi
  {
    if lo < hi && ws(s[hi - 1]) then TrailingRun(s, ws, lo, hi - 1) else hi
  }

  /** The longest infix of `s` that neither starts nor ends with a `ws`
      character, obtained by removing only such characters from both
      ends. */
  function TrimBy(s: string, ws: char -> bool): (r: string)
    ensures var k := LeadingRun(s, ws, 0);
      && k + |r| <= |s| && r == s[k..k + |r|]
      && (forall i :: 0 <= i < k ==> ws(s[i]))
      && (forall i :: k + |r| <= i < |s| ==> ws(s[i]))
    ensures r == [] || (!ws(r[0]) && !ws(r[|r| - 1]))
  {
    var a := LeadingRun(s, ws, 0);
    var b := TrailingRun(s, ws, a, |s|);
    s[a..b]
  }

  /** `s.trim()`. */
  function Trim(s: string): string
  {
    TrimBy(s, IsJsWhitespace)
  }

  /** A string without surrounding `ws` characters is its own trim. */
  lemma {:induction false} TrimIdempotentOnTrimmed(s: string, ws: char -> bool)
    requires s == [] || (!ws(s[0]) && !ws(s[|s| - 1]))
    ensures TrimBy(s, ws) == s
  {
  }

  function IndexOf(s: string, c: char): (r: Option<nat>)
    ensures r.Some? ==> r.value < |s| && s[r.value] == c && forall i :: 0 <= i < r.value ==> s[i] != c
    ensures r.None? ==> forall i :: 0 <= i < |s| ==> s[i] != c
    decreases |s|
  {
    if s == [] then None
    else if s[0] == c then Some(0)
    else match IndexOf(s[1..], c)
      case None => None
      case Some(k) => Some(k + 1)
  }
}
