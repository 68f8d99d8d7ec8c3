/** The pieces of Python's built-in text behaviour that the digest builder relies on:
    `str.isspace`, `str.strip()` with no argument, `str.join`, and `str(i)` on a
    non-negative integer. */
module PyText {

  /** The characters for which Python's `str.isspace()` is true: the ASCII
      whitespace and separator controls plus the Unicode space separators. */
  predicate IsSpace(c: char) {
    c == ' ' || c == '\t' || c == '\n' || c == '\r' || c == '\U{B}' || c == '\U{C}'
    || c == '\U{1C}' || c == '\U{1D}' || c == '\U{1E}' || c == '\U{1F}'
    || c == '\U{85}' || c == '\U{A0}' || c == '\U{1680}'
    || ('\U{2000}' <= c <= '\U{200A}')
    || c == '\U{2028}' || c == '\U{2029}' || c == '\U{202F}' || c == '\U{205F}' || c == '\U{3000}'
  }

  /** No digit, ASCII letter or colon is whitespace, and among ASCII characters
      whitespace is exactly the space, the controls tab to carriage return and
      the four separator controls. */
  lemma {:induction false} SpaceClass(c: char)
    ensures IsSpace(c) ==> !('0' <= c <= '9') && !('A' <= c <= 'Z') && !('a' <= c <= 'z') && c != ':'
    ensures c < '\U{80}' ==> (IsSpace(c) <==> c == ' ' || '\t' <= c <= '\r' || '\U{1C}' <= c <= '\U{1F}')
  {
  }

  predicate AllSpace(s: string) {
    forall i :: 0 <= i < |s| ==> IsSpace(s[i])
  }

  /** The first position at or after `i` that does not hold whitespace (or `|s|`). */
  function SpaceRunEnd(s: string, i: nat): (k: nat)
    requires i <= |s|
    ensures i <= k <= |s|
    ensures forall j :: i <= j < k ==> IsSpace(s[j])
    ensures k < |s| ==> !IsSpace(s[k])
    decreases |s| - i
  {
    if i < |s| && IsSpace(s[i]) then SpaceRunEnd(s, i + 1) else i
  }

  /** The start of the run of whitespace that ends just before position `j`. */
  function SpaceRunStart(s: string, j: nat): (k: nat)
    requires j <= |s|
    ensures k <= j
    ensures forall m :: k <= m < j ==> IsSpace(s[m])
    ensures k > 0 ==> !IsSpace(s[k - 1])
  {
    if j > 0 && IsSpace(s[j - 1]) then SpaceRunStart(s, j - 1) else j
  }

  /** `s.lstrip()`: drops the whitespace at the front, and only that. */
  function StripLeading(s: string): (r: string)
    ensures |r| <= |s| && r == s[|s| - |r|..]
    ensures forall j :: 0 <= j < |s| - |r| ==> IsSpace(s[j])
    ensures r == [] || !IsSpace(r[0])
  {
    s[SpaceRunEnd(s, 0)..]
  }

  /** `s.rstrip()`: drops the whitespace at the back, and only that. */
  function StripTrailing(s: string): (r: string)
    ensures |r| <= |s| && r == s[..|r|]
    ensures forall j :: |r| <= j < |s| ==> IsSpace(s[j])
    ensures r == [] || !IsSpace(r[|r| - 1])
  {
    s[..SpaceRunStart(s, |s|)]
  }

  /** `s.strip()`: the text left once the whitespace at both ends is removed. It
      neither starts nor ends with whitespace, and it is empty exactly when `s`
      is all whitespace. */
  function Strip(s: string): (r: string)
    ensures r == [] || (!IsSpace(r[0]) && !IsSpace(r[|r| - 1]))
    ensures r == [] <==> AllSpace(s)
  {
    var t := StripLeading(s);
    var r := StripTrailing(t);
    assert r == [] ==> t == [];
    r
  }

  /** Strip is fully determined: whatever text without whitespace at its ends
      is padded with whitespace, stripping gives it back. */
  lemma {:induction false} StripPadded(front: string, t: string, back: string)
    requires AllSpace(front) && AllSpace(back)
    requires t == [] || (!IsSpace(t[0]) && !IsSpace(t[|t| - 1]))
    ensures Strip(front + t + back) == t
  {
    var s := front + t + back;
    if t == [] {
      assert forall j :: 0 <= j < |s| ==> s[j] == if j < |front| then front[j] else back[j - |front|];
    } else {
      var l := StripLeading(s);
      var lo := |s| - |l|;
      assert s[|front|] == t[0];
      assert lo == |front|;
      assert l == t + back;
      var r := StripTrailing(l);
      assert |r| == |t| by {
        assert l[|t| - 1] == t[|t| - 1];
      }
      assert r == l[..|t|] == t;
    }
  }

  /** A single whitespace character in front of a non-whitespace one is all
      that Strip removes at the front. */
  lemma {:induction false} StripOneLeading(s: string)
    requires |s| >= 2 && IsSpace(s[0]) && !IsSpace(s[1])
    ensures Strip(s) == StripTrailing(s[1..])
  {
    assert SpaceRunEnd(s, 0) == 1;
  }

  /** Text that ends in a non-whitespace character has nothing to strip at the back. */
  lemma {:induction false} StripTrailingKeepsAll(s: string)
    requires s != [] && !IsSpace(s[|s| - 1])
    ensures StripTrailing(s) == s
  {
  }

  /** Stripping the back keeps every prefix that ends in a non-whitespace character. */
  lemma {:induction false} KeepsPrefix(s: string, p: string)
    requires p <= s && p != [] && !IsSpace(p[|p| - 1])
    ensures p <= StripTrailing(s)
  {
    var r := StripTrailing(s);
    assert s[|p| - 1] == p[|p| - 1];
  }

  /** The total length of the parts. */
  function TotalLength(parts: seq<string>): nat
  {
    if parts == [] then 0 else TotalLength(parts[..|parts| - 1]) + |parts[|parts| - 1]|
  }

  /** `sep.join(parts)`: the parts in order with `sep` between neighbours, so
      one separator fewer than there are parts. */
  function Join(parts: seq<string>, sep: string): (r: string)
    ensures parts != [] ==> |r| == TotalLength(parts) + (|parts| - 1) * |sep|
    ensures parts == [] ==> r == []
  {
    if |parts| == 0 then ""
    else if |parts| == 1 then parts[0]
    else Join(parts[..|parts| - 1], sep) + sep + parts[|parts| - 1]
  }

  /** Joining two non-empty lists one after the other puts one separator between them. */
  lemma {:induction false} JoinAppend(xs: seq<string>, ys: seq<string>, sep: string)
    requires xs != [] && ys != []
    ensures Join(xs + ys, sep) == Join(xs, sep) + sep + Join(ys, sep)
    decreases |ys|
  {
    var zs := xs + ys;
    var last := ys[|ys| - 1];
    assert zs[|zs| - 1] == last;
    if |ys| == 1 {
      assert zs[..|zs| - 1] == xs;
      assert Join(ys, sep) == last;
    } else {
      var ys' := ys[..|ys| - 1];
      JoinAppend(xs, ys', sep);
      assert zs[..|zs| - 1] == xs + ys';
      assert Join(zs, sep) == Join(xs + ys', sep) + sep + last;
      assert Join(ys, sep) == Join(ys', sep) + sep + last;
    }
  }

  function DigitChar(d: nat): char
    requires d < 10
  {
    '0' + d as char
  }

  /** `str(n)` for a non-negative integer: decimal digits, no leading zero. */
  function NatToString(n: nat): (r: string)
    ensures r != []
    ensures forall i :: 0 <= i < |r| ==> '0' <= r[i] <= '9'
    ensures r[0] == '0' ==> n == 0
  {
    if n < 10 then [DigitChar(n)] else NatToString(n / 10) + [DigitChar(n % 10)]
  }

  /** The value a string of decimal digits denotes. */
  function DecimalValue(s: string): nat
    requires forall i :: 0 <= i < |s| ==> '0' <= s[i] <= '9'
  {
    if s == [] then 0 else DecimalValue(s[..|s| - 1]) * 10 + (s[|s| - 1] - '0') as nat
  }

  /** Reading back the decimal text gives the number: the rendering is faithful
      and two different numbers never render alike. */
  lemma {:induction false} NatToStringRoundTrip(n: nat)
    ensures DecimalValue(NatToString(n)) == n
  {
    if n >= 10 {
      NatToStringRoundTrip(n / 10);
      var s := NatToString(n);
      assert s[..|s| - 1] == NatToString(n / 10);
    }
  }
}
