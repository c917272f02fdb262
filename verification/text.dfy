// String helpers standing in for the Python `str` methods the scanner uses
// (`startswith`, `find`, `rfind`, `split`, `strip`, `''.join`).
module Text {

  // `s[i:].startswith(p)` for a non-empty `p`.
  predicate StartsAt(s: string, i: nat, p: string)
  {
    i + |p| <= |s| && s[i..i + |p|] == p
  }

  // A match at `i` is a match at the start of the text from `i` on.
  lemma StartsAtSuffix(s: string, i: nat, p: string)
    requires StartsAt(s, i, p)
    ensures StartsAt(s[i..], 0, p)
  {
    assert s[i..][0..|p|] == s[i..i + |p|];
  }

  // Python slicing `s[n:]`, which is empty when `n` runs past the end.
  function Drop(s: string, n: nat): (r: string)
    ensures n <= |s| ==> r == s[n..]
    ensures n >= |s| ==> r == []
  {
    if n <= |s| then s[n..] else []
  }

  // First index at or after `from` holding `c`, or `|s|` when there is none.
  function FindChar(s: string, c: char, from: nat): (r: nat)
    requires from <= |s|
    ensures from <= r <= |s|
    ensures r < |s| ==> s[r] == c
    ensures forall j :: from <= j < r ==> s[j] != c
    decreases |s| - from
  {
    if from == |s| then |s|
    else if s[from] == c then from
    else FindChar(s, c, from + 1)
  }

  // First index at or after `from` where `p` starts, or `|s|` when there is none.
  function FindFrom(s: string, p: string, from: nat): (r: nat)
    requires from <= |s|
    ensures from <= r <= |s|
    ensures r < |s| ==> StartsAt(s, r, p)
    ensures forall j :: from <= j < r ==> !StartsAt(s, j, p)
    decreases |s| - from
  {
    if from == |s| then |s|
    else if StartsAt(s, from, p) then from
    else FindFrom(s, p, from + 1)
  }

  // `s.rfind(c)`: the last index holding `c`, or -1.
  function LastIndexOf(s: string, c: char): (r: int)
    ensures -1 <= r < |s|
    ensures r >= 0 ==> s[r] == c
    ensures forall j :: r < j < |s| ==> s[j] != c
  {
    if |s| == 0 then -1
    else if s[|s| - 1] == c then |s| - 1
    else LastIndexOf(s[..|s| - 1], c)
  }

  // `s.split(c)[-1]`: the text after the last `c`.
  function AfterLast(s: string, c: char): (r: string)
    ensures c !in r
    ensures |r| <= |s| && r == s[|s| - |r|..]
  {
    s[LastIndexOf(s, c) + 1..]
  }

  // Everything up to and including the last `c`: what is left once the
  // text after it is cut off.
  function UpToLast(s: string, c: char): (r: string)
    ensures |r| <= |s| && r == s[..|r|]
    ensures r + AfterLast(s, c) == s
  {
    s[..LastIndexOf(s, c) + 1]
  }

  // `s.split(c, 1)[0]`: the text before the first `c`.
  function BeforeFirst(s: string, c: char): (r: string)
    ensures c !in r
    ensures |r| <= |s| && r == s[..|r|]
  {
    s[..FindChar(s, c, 0)]
  }

  // `s.split(p)[0]`: the text before the first occurrence of `p`.
  function BeforeSub(s: string, p: string): (r: string)
    ensures |r| <= |s| && r == s[..|r|]
  {
    s[..FindFrom(s, p, 0)]
  }

  // `s.split(c)`: the pieces between occurrences of `c`.
  function SplitChar(s: string, c: char): (r: seq<string>)
    ensures |r| >= 1
    ensures forall k :: 0 <= k < |r| ==> c !in r[k]
    decreases |s|
  {
    var j := FindChar(s, c, 0);
    if j == |s| then [s] else [s[..j]] + SplitChar(s[j + 1..], c)
  }

  predicate AllSpaces(s: string)
  {
    forall k :: 0 <= k < |s| ==> s[k] == ' '
  }

  // `s.rstrip(' ')`.
  function RStripSpaces(s: string): (r: string)
    ensures |r| <= |s| && r == s[..|r|]
    ensures AllSpaces(s[|r|..])
    ensures r == [] || r[|r| - 1] != ' '
  {
    if |s| == 0 || s[|s| - 1] != ' ' then s else RStripSpaces(s[..|s| - 1])
  }

  // `s.lstrip(' ')`.
  function LStripSpaces(s: string): (r: string)
    ensures |r| <= |s| && r == s[|s| - |r|..]
    ensures AllSpaces(s[..|s| - |r|])
    ensures r == [] || r[0] != ' '
  {
    if |s| == 0 || s[0] != ' ' then s else LStripSpaces(s[1..])
  }

  // `s.strip(' ')`.
  function StripSpaces(s: string): string
  {
    RStripSpaces(LStripSpaces(s))
  }

  // The characters Python's argument-less `str.strip()` removes.
  predicate IsPyWhitespace(c: char)
  {
    c == ' ' || c == '\t' || c == '\n' || c == '\r' || c == '\U{000B}' || c == '\U{000C}'
    || ('\U{001C}' <= c <= '\U{001F}') || c == '\U{0085}' || c == '\U{00A0}' || c == '\U{1680}'
    || ('\U{2000}' <= c <= '\U{200A}') || c == '\U{2028}' || c == '\U{2029}' || c == '\U{202F}'
    || c == '\U{205F}' || c == '\U{3000}'
  }

  // `s.strip() == ''`.
  predicate AllPyWhitespace(s: string)
  {
    forall k :: 0 <= k < |s| ==> IsPyWhitespace(s[k])
  }

  // `s.strip()`.
  function PyStrip(s: string): (r: string)
    ensures r == [] || (!IsPyWhitespace(r[0]) && !IsPyWhitespace(r[|r| - 1]))
    decreases |s|
  {
    if |s| == 0 then s
    else if IsPyWhitespace(s[0]) then PyStrip(s[1..])
    else if IsPyWhitespace(s[|s| - 1]) then PyStrip(s[..|s| - 1])
    else s
  }

  // `''.join(q)`.
  function Concat(q: seq<string>): string
  {
    if |q| == 0 then [] else Concat(q[..|q| - 1]) + q[|q| - 1]
  }

  // `sep.join(q)`.
  function Join(q: seq<string>, sep: string): string
  {
    if |q| == 0 then []
    else if |q| == 1 then q[0]
    else Join(q[..|q| - 1], sep) + sep + q[|q| - 1]
  }

  predicate IsDigit(c: char)
  {
    '0' <= c <= '9'
  }

  // Decimal text of a natural number, as `str(n)`.
  function Digits(n: nat): (r: string)
    ensures |r| >= 1
    ensures forall k :: 0 <= k < |r| ==> IsDigit(r[k])
  {
    if n < 10 then [('0' as int + n) as char]
    else Digits(n / 10) + [('0' as int + n % 10) as char]
  }

  // The natural number a digit string denotes.
  function DigitsValue(s: string): nat
    requires forall k :: 0 <= k < |s| ==> IsDigit(s[k])
  {
    if |s| == 0 then 0
    else
      assert IsDigit(s[|s| - 1]);
      10 * DigitsValue(s[..|s| - 1]) + (s[|s| - 1] as int - '0' as int)
  }

  lemma DigitsRoundTrip(n: nat)
    ensures DigitsValue(Digits(n)) == n
  {
    if n >= 10 {
      var d := Digits(n / 10);
      var r := Digits(n);
      assert r[..|r| - 1] == d;
      DigitsRoundTrip(n / 10);
    }
  }

  // Decimal text of an integer, as `str(i)`.
  function IntText(i: int): (r: string)
    ensures |r| >= 1
  {
    if i < 0 then "-" + Digits(-i) else Digits(i)
  }
}
