/** The JavaScript string built-ins the core relies on: `trim`,
    `toLowerCase` and rendering a number inside a template literal. */
module Text {

  /** The code points ECMAScript counts as WhiteSpace or LineTerminator,
      which is what `String.prototype.trim` strips from both ends. */
  predicate IsSpace(c: char) {
    || c == '\t' || c == '\n' || c == '\U{000B}' || c == '\U{000C}' || c == '\r' || c == ' '
    || c == '\U{00A0}' || c == '\U{1680}' || ('\U{2000}' <= c <= '\U{200A}')
    || c == '\U{2028}' || c == '\U{2029}' || c == '\U{202F}' || c == '\U{205F}'
    || c == '\U{3000}' || c == '\U{FEFF}'
  }

  /** Where `trim` starts cutting no more: the first position at or after
      `i` that holds no white space, or the end. */
  function SpanStart(s: string, i: nat): (k: nat)
    requires i <= |s|
    ensures i <= k <= |s|
    ensures forall m :: i <= m < k ==> IsSpace(s[m])
    ensures k < |s| ==> !IsSpace(s[k])
    decreases |s| - i
  {
    if i < |s| && IsSpace(s[i]) then SpanStart(s, i + 1) else i
  }

  /** Where `trim` stops keeping: going back from `j`, no lower than `lo`,
      the position just after the last character that is not white space. */
  function SpanEnd(s: string, lo: nat, j: nat): (k: nat)
    requires lo <= j <= |s|
    ensures lo <= k <= j
    ensures forall m :: k <= m < j ==> IsSpace(s[m])
    ensures lo < k ==> !IsSpace(s[k - 1])
  {
    if lo < j && IsSpace(s[j - 1]) then SpanEnd(s, lo, j - 1) else j
  }

  /** `s.trim()`: white space removed from both ends. */
  function Trim(s: string): string {
    var i := SpanStart(s, 0);
    s[i..SpanEnd(s, i, |s|)]
  }

  /** What `trim` keeps is a slice of the input, with only white space cut
      off either side, and it neither starts nor ends with white space. */
  lemma TrimIsCore(s: string)
    ensures exists i, j ::
              && 0 <= i <= j <= |s| && Trim(s) == s[i..j]
              && (forall k :: 0 <= k < i ==> IsSpace(s[k]))
              && (forall k :: j <= k < |s| ==> IsSpace(s[k]))
    ensures Trim(s) != [] ==> !IsSpace(Trim(s)[0]) && !IsSpace(Trim(s)[|Trim(s)| - 1])
  {
    var i := SpanStart(s, 0);
    var j := SpanEnd(s, i, |s|);
    assert Trim(s) == s[i..j];
  }

  /** A string trims to nothing exactly when it is all white space. */
  lemma TrimEmptyIff(s: string)
    ensures Trim(s) == [] <==> forall k :: 0 <= k < |s| ==> IsSpace(s[k])
  {
    var i := SpanStart(s, 0);
    var j := SpanEnd(s, i, |s|);
    assert |Trim(s)| == j - i;
  }

  /** A string that neither starts nor ends with white space trims to itself. */
  lemma TrimUnchanged(s: string)
    requires s != [] ==> !IsSpace(s[0]) && !IsSpace(s[|s| - 1])
    ensures Trim(s) == s
  {
    assert SpanStart(s, 0) == 0;
    assert SpanEnd(s, 0, |s|) == |s|;
  }

  /** Padding a string that neither starts nor ends with white space with
      white space on either side, and trimming, gives the string back. */
  lemma TrimPadded(pre: string, e: string, post: string)
    requires forall k :: 0 <= k < |pre| ==> IsSpace(pre[k])
    requires forall k :: 0 <= k < |post| ==> IsSpace(post[k])
    requires e != [] ==> !IsSpace(e[0]) && !IsSpace(e[|e| - 1])
    ensures Trim(pre + e + post) == e
  {
    var s := pre + e + post;
    if e == [] {
      assert s == pre + post;
      TrimEmptyIff(s);
    } else {
      var i := SpanStart(s, 0);
      assert s[|pre|] == e[0];
      assert i == |pre|;
      var j := SpanEnd(s, i, |s|);
      assert s[|pre| + |e| - 1] == e[|e| - 1];
      assert j == |pre| + |e|;
      assert s[i..j] == e;
    }
  }

  /** Lower-casing of one character; only the ASCII letters are mapped. */
  function LowerChar(c: char): char {
    if 'A' <= c <= 'Z' then (c as int + 32) as char else c
  }

  /** `s.toLowerCase()`, character by character. */
  function ToLower(s: string): (r: string)
    ensures |r| == |s|
    ensures forall i :: 0 <= i < |s| ==> r[i] == LowerChar(s[i])
  {
    seq(|s|, i requires 0 <= i < |s| => LowerChar(s[i]))
  }

  /** A string with no upper-case ASCII letter is its own lower-case form. */
  lemma ToLowerUnchanged(s: string)
    requires forall i :: 0 <= i < |s| ==> !('A' <= s[i] <= 'Z')
    ensures ToLower(s) == s
  {
  }

  predicate IsDigit(c: char) {
    '0' <= c <= '9'
  }

  function DigitChar(d: nat): (c: char)
    requires d < 10
    ensures IsDigit(c)
  {
    ('0' as int + d) as char
  }

  function DigitValue(c: char): (d: nat)
    requires IsDigit(c)
    ensures d < 10
  {
    c as int - '0' as int
  }

  /** The length of the run of digits `s` starts with. */
  function LeadingDigits(s: string): nat {
    if s != [] && IsDigit(s[0]) then 1 + LeadingDigits(s[1..]) else 0
  }

  /** Digits followed by a non-digit: the run is exactly the digits. */
  lemma {:induction false} LeadingDigitsOf(x: string, t: string)
    requires forall i :: 0 <= i < |x| ==> IsDigit(x[i])
    requires t != [] && !IsDigit(t[0])
    ensures LeadingDigits(x + t) == |x|
  {
    if x != [] {
      assert (x + t)[1..] == x[1..] + t;
      LeadingDigitsOf(x[1..], t);
    } else {
      assert x + t == t;
    }
  }

  /** The decimal digits of `n`, as `${n}` renders a non-negative integer. */
  function NatToString(n: nat): (r: string)
    ensures |r| >= 1
    ensures forall i :: 0 <= i < |r| ==> IsDigit(r[i])
  {
    if n < 10 then [DigitChar(n)] else NatToString(n / 10) + [DigitChar(n % 10)]
  }

  /** The number a string of decimal digits denotes. */
  function DecimalValue(s: string): nat
    requires forall i :: 0 <= i < |s| ==> IsDigit(s[i])
  {
    if s == [] then 0 else DecimalValue(s[..|s| - 1]) * 10 + DigitValue(s[|s| - 1])
  }

  /** Reading back the rendered digits gives the number. */
  lemma {:induction false} DecimalRoundTrip(n: nat)
    ensures DecimalValue(NatToString(n)) == n
  {
    var r := NatToString(n);
    if n >= 10 {
      DecimalRoundTrip(n / 10);
      assert r[..|r| - 1] == NatToString(n / 10);
    }
  }
}
