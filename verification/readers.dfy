// The scanner's leaf readers and bookkeeping: end-of-parse tokens
// (`_startswith_eop`), the next-target search (`_next_chars`), the quote,
// bracket and line-comment readers, and the whitespace helpers
// (`_update_blank_line`, `_delete_last_space`, `_nxtq_in_forif`,
// `_end_in_forif`).
module Readers {
  import opened Text

  // The configured newline (`NEWLINE_CHAR`), one character. A '-' is
  // excluded: the line-comment reader would then consume nothing and the
  // scanner would step back onto the same `--` for ever.
  type Newline = c: char | c != '-' witness '\n'

  // `_END`, the token closing an if or for body.
  const End: string := "/*end*/"

  // The end-of-parse token set of a scan: none at top level, `_EOP_END`
  // inside if and for bodies, `_EOP_SIMPLE_PARAM` for the dummy literal
  // after a parameter or direct comment.
  datatype Eop = NoEop | EndMark | SimpleParam

  // The characters of `_EOP_SIMPLE_PARAM`.
  predicate IsSimpleStop(c: char)
  {
    c == '!' || c == '#' || c == '$' || c == '%' || c == '&' || c == ')' || c == '-' || c == '='
    || c == '^' || c == '~' || c == '|' || c == '@' || c == '`' || c == ';' || c == '+' || c == ':'
    || c == '*' || c == ']' || c == '}' || c == ',' || c == '/' || c == '<' || c == '>' || c == '?'
    || c == ' ' || c == '\t' || c == '\n' || c == '\r'
  }

  predicate IsQuote(c: char)
  {
    c == '\'' || c == '"'
  }

  predicate IsOpenBracket(c: char)
  {
    c == '(' || c == '[' || c == '{'
  }

  // `_BRACKET_PARE`.
  function Closing(open: char): char
    requires IsOpenBracket(open)
  {
    if open == '(' then ')' else if open == '[' then ']' else '}'
  }

  // `_startswith_eop`.
  predicate StartsWithEop(s: string, i: nat, eop: Eop)
  {
    match eop
    case NoEop => false
    case EndMark => StartsAt(s, i, End)
    case SimpleParam => i < |s| && IsSimpleStop(s[i])
  }

  // Some string of `_FIND_TARGETS + eop` starts at `j`.
  predicate TargetAt(s: string, j: nat, eop: Eop)
    requires j < |s|
  {
    || IsQuote(s[j]) || IsOpenBracket(s[j])
    || StartsAt(s, j, "--") || StartsAt(s, j, "/*")
    || StartsWithEop(s, j, eop)
  }

  // The least position at or after `j` where a target starts, or `|s|`:
  // the minimum of the targets' `find` positions.
  function FirstTarget(s: string, j: nat, eop: Eop): (r: nat)
    requires j <= |s|
    ensures j <= r <= |s|
    ensures r < |s| ==> TargetAt(s, r, eop)
    ensures forall k :: j <= k < r ==> !TargetAt(s, k, eop)
    decreases |s| - j
  {
    if j == |s| then |s|
    else if TargetAt(s, j, eop) then j
    else FirstTarget(s, j + 1, eop)
  }

  // `_next_chars`: the text up to the next target (or the target's first
  // character), the two characters at the cursor, and the new cursor.
  datatype Next = Next(chunk: string, pair: string, i1: nat)

  function NextChars(s: string, i: nat, eop: Eop): (r: Next)
    requires i < |s|
    ensures i < r.i1 <= |s|
    ensures r.chunk == s[i..r.i1]
    ensures r.pair == "--" ==> StartsAt(s, r.i1 - 1, "--")
    ensures r.pair == "/*" ==> StartsAt(s, r.i1 - 1, "/*")
    ensures r.i1 > i + 1 ==> !TargetAt(s, i, eop)
    ensures forall k :: i < k < r.i1 ==> !TargetAt(s, k, eop)
    ensures i + 1 < r.i1 < |s| ==> TargetAt(s, r.i1, eop)
  {
    var j := FirstTarget(s, i, eop);
    if j == i then
      Next([s[i]], if i + 1 < |s| then s[i..i + 2] else [], i + 1)
    else
      assert !TargetAt(s, i, eop);
      Next(s[i..j], s[i..j], j)
  }

  // The loop of `_nextquote`, from index `a` of the text after the opening
  // quote. A quote ends the literal unless the character TWO places after it
  // is a quote too; then the quote and the character after it are both taken.
  function QuoteEnd(quote: char, s: string, a: nat): (r: nat)
    requires a <= |s|
    ensures a <= r <= |s|
    ensures a < |s| ==> a < r
    ensures r == |s| || s[r - 1] == quote
    ensures r < |s| ==> s[r - 1] == quote && (r + 1 >= |s| || s[r + 1] != quote)
    decreases |s| - a
  {
    if a == |s| then a
    else if s[a] == quote then
      if |s| - 1 <= a + 1 || s[a + 2] != quote then a + 1
      else QuoteEnd(quote, s, a + 2)
    else QuoteEnd(quote, s, a + 1)
  }

  // `_nextquote`: the literal (opening quote included) and how many
  // characters after the opening quote it took.
  function QuoteSpan(quote: char, s: string): (r: (string, nat))
    ensures r.1 <= |s|
    ensures r.0 == [quote] + s[..r.1]
    ensures r.1 == |s| || (0 < r.1 && s[r.1 - 1] == quote)
    ensures r.1 < |s| ==> 0 < r.1 && s[r.1 - 1] == quote && (r.1 + 1 >= |s| || s[r.1 + 1] != quote)
    ensures |s| > 0 ==> r.1 > 0
  {
    var n := QuoteEnd(quote, s, 0);
    ([quote] + s[..n], n)
  }

  // `_nextquote` as written, with its character list and `break`.
  method NextQuote(quote: char, s: string) returns (text: string, consumed: nat)
    ensures consumed <= |s|
    ensures text == [quote] + s[..consumed]
    ensures consumed == |s| || (0 < consumed && s[consumed - 1] == quote)
    ensures (text, consumed) == QuoteSpan(quote, s)
  {
    var chars := [quote];
    var maxIdx := |s| - 1;
    var addi := 0;
    while addi <= maxIdx
      invariant 0 <= addi <= |s|
      invariant chars == [quote] + s[..addi]
      invariant QuoteEnd(quote, s, addi) == QuoteEnd(quote, s, 0)
      decreases |s| - addi
    {
      var c := s[addi];
      addi := addi + 1;
      if c == quote {
        if maxIdx <= addi || s[addi + 1] != quote {
          chars := chars + [c];
          break;
        }
        chars := chars + [c];
        c := s[addi];
        addi := addi + 1;
      }
      chars := chars + [c];
    }
    text, consumed := chars, addi;
  }

  // With a quote two places after it, a quote is taken together with the
  // character after it and the literal goes on. So `('x','') and b = /*:p*/1`
  // reads `'x','` as one literal, and the next quote opens a literal that
  // swallows the parameter comment up to the end of the text.
  lemma QuoteTwoPastSwallows()
    ensures QuoteSpan('\'', "x','') and b = /*:p*/1").1 == 4
    ensures QuoteSpan('\'', ") and b = /*:p*/1").1 == 17
  {
    var q := '\'';
    var s1 := "x','') and b = /*:p*/1";
    assert s1[0] == 'x' && s1[1] == q && s1[3] == q && s1[5] == ')';
    assert QuoteEnd(q, s1, 0) == QuoteEnd(q, s1, 1) == QuoteEnd(q, s1, 3) == 4;
    var s2 := ") and b = /*:p*/1";
    assert |s2| == 17;
    QuoteEndNoQuote(q, s2, 0);
  }

  // Without a quote from `a` on, the literal runs to the end of the text.
  lemma {:induction false} QuoteEndNoQuote(quote: char, s: string, a: nat)
    requires a <= |s|
    requires forall k :: a <= k < |s| ==> s[k] != quote
    ensures QuoteEnd(quote, s, a) == |s|
    decreases |s| - a
  {
    if a < |s| {
      QuoteEndNoQuote(quote, s, a + 1);
    }
  }

  // A doubled quote is not recognised either: `'it''s'` is read as `'it'`,
  // where the intended reader takes all of it (`EscapedLiteralRoundTrip`).
  lemma DoubledQuoteCutShort()
    ensures QuoteSpan('\'', Escape('\'', "it's") + "'").1 == 3
  {
    var q := '\'';
    assert "s"[1..] == [] && Escape(q, "s") == "s";
    assert "'s"[1..] == "s" && Escape(q, "'s") == "''s";
    assert "t's"[1..] == "'s" && Escape(q, "t's") == "t''s";
    assert "it's"[1..] == "t's" && Escape(q, "it's") == "it''s";
    assert "it''s" + "'" == "it''s'";
    assert QuoteSpan(q, "it''s'").1 == 3;
  }

  // `_nextquote` as its comment intends, on the text after the opening quote:
  // a quote ends the literal unless the NEXT character is a quote too; a
  // doubled quote stands for one quote, and both are taken.
  function QuoteLenIntended(quote: char, s: string): (r: nat)
    ensures r <= |s|
    ensures |s| > 0 ==> r > 0
    ensures r < |s| ==> s[r - 1] == quote && s[r] != quote
  {
    if s == [] then 0
    else if s[0] == quote then
      if |s| > 1 && s[1] == quote then 2 + QuoteLenIntended(quote, s[2..]) else 1
    else 1 + QuoteLenIntended(quote, s[1..])
  }

  function QuoteSpanIntended(quote: char, s: string): (r: (string, nat))
    ensures r.1 <= |s|
    ensures r.0 == [quote] + s[..r.1]
    ensures r.1 < |s| ==> 0 < r.1 && s[r.1 - 1] == quote && s[r.1] != quote
  {
    var n := QuoteLenIntended(quote, s);
    ([quote] + s[..n], n)
  }

  // One character of a literal's body as SQL writes it: a quote doubled.
  function Doubled(quote: char, c: char): (r: string)
    ensures 1 <= |r| <= 2 && r[0] == c && (|r| == 2 <==> c == quote)
    ensures |r| == 2 ==> r[1] == quote
  {
    if c == quote then [quote, quote] else [c]
  }

  // The body of a literal as SQL writes it: every quote doubled.
  function Escape(quote: char, x: string): (r: string)
    ensures |x| <= |r|
  {
    if x == [] then [] else Doubled(quote, x[0]) + Escape(quote, x[1..])
  }

  // The intended reader steps over one escaped character.
  lemma ReadsOverDoubled(quote: char, c: char, v: string)
    ensures QuoteLenIntended(quote, Doubled(quote, c) + v) == |Doubled(quote, c)| + QuoteLenIntended(quote, v)
  {
    var s := Doubled(quote, c) + v;
    assert s[|Doubled(quote, c)|..] == v;
  }

  lemma EscapeCons(quote: char, x: string, u: string)
    requires x != []
    ensures Escape(quote, x) + u == Doubled(quote, x[0]) + (Escape(quote, x[1..]) + u)
  {
  }

  // An escaped `x` followed by a quote that is not doubled is read up to
  // and including that quote.
  lemma {:induction false} EscapedRead(quote: char, x: string, u: string)
    requires u != [] && u[0] == quote && (|u| > 1 ==> u[1] != quote)
    ensures QuoteLenIntended(quote, Escape(quote, x) + u) == |Escape(quote, x)| + 1
    decreases |x|
  {
    if x == [] {
      assert Escape(quote, x) + u == u;
    } else {
      EscapeCons(quote, x, u);
      ReadsOverDoubled(quote, x[0], Escape(quote, x[1..]) + u);
      EscapedRead(quote, x[1..], u);
    }
  }

  // The intended reader reads back exactly the literal that quoting a text
  // produces, whatever follows it (short of another quote).
  lemma EscapedLiteralRoundTrip(quote: char, x: string, rest: string)
    requires rest == [] || rest[0] != quote
    ensures QuoteSpanIntended(quote, Escape(quote, x) + [quote] + rest)
              == ([quote] + Escape(quote, x) + [quote], |Escape(quote, x)| + 1)
  {
    var t := Escape(quote, x) + [quote] + rest;
    assert t == Escape(quote, x) + ([quote] + rest);
    EscapedRead(quote, x, [quote] + rest);
    assert t[..|Escape(quote, x)| + 1] == Escape(quote, x) + [quote];
    assert [quote] + (Escape(quote, x) + [quote]) == [quote] + Escape(quote, x) + [quote];
  }

  // The loop of `_nextbracket`: up to and including the first closing
  // bracket, with no nesting.
  function BracketEnd(close: char, s: string, a: nat): (r: nat)
    requires a <= |s|
    ensures a <= r <= |s|
    ensures forall k :: a <= k < r - 1 ==> s[k] != close
    ensures r == |s| || (a < r && s[r - 1] == close)
    decreases |s| - a
  {
    if a == |s| then a
    else if s[a] == close then a + 1
    else BracketEnd(close, s, a + 1)
  }

  // `_nextbracket`.
  function BracketSpan(open: char, s: string): (r: (string, nat))
    requires IsOpenBracket(open)
    ensures r.1 <= |s|
    ensures r.0 == [open] + s[..r.1]
    ensures forall k :: 0 <= k < r.1 - 1 ==> s[k] != Closing(open)
    ensures r.1 == |s| || (0 < r.1 && s[r.1 - 1] == Closing(open))
  {
    var n := BracketEnd(Closing(open), s, 0);
    ([open] + s[..n], n)
  }

  // `_single_line_comment`: from `--` up to, not including, the newline.
  // The comment covers at least the `--` itself unless the newline is '-'.
  function SingleLine(nl: char, t: string): (r: (string, nat))
    ensures r.1 <= |t| && r.0 == t[..r.1]
    ensures nl !in r.0
    ensures r.1 == |t| || t[r.1] == nl
    ensures StartsAt(t, 0, "--") && nl != '-' ==> r.1 >= 2
  {
    var n := FindChar(t, nl, 0);
    assert StartsAt(t, 0, "--") && nl != '-' ==> t[0] != nl && t[1] != nl;
    (t[..n], n)
  }

  // With '-' as the newline the line comment is empty and zero characters
  // long, so `i += addi - 1` in `_parse_switch_by_char` puts the cursor back
  // on the first '-' of the same `--`, and the scan never advances.
  lemma DashNewlineStalls(t: string)
    requires StartsAt(t, 0, "--")
    ensures SingleLine('-', t) == ("", 0)
  {
    assert t[0] == '-';
  }

  // `_update_blank_line` as written. Its guard
  // `ldng_sp_cnt < 0 and ridx < 0 == 1` chains into
  // `ridx < 0 and 0 == 1` and never holds, so a chunk of spaces with no
  // newline always yields its own length, even when the line it continues
  // already holds text. The scanner runs this count, so expansions follow
  // the source.
  function UpdateBlankLineAsWritten(nl: Newline, lead: int, c: string): (r: int)
    ensures c == [] ==> r == lead
    ensures c != [] ==> r == -1 || (r == |AfterLast(c, nl)| && AllSpaces(AfterLast(c, nl)))
    ensures c != [] ==> (r >= 0 <==> AllSpaces(AfterLast(c, nl)))
  {
    if c == [] then lead
    else
      var afterNl := AfterLast(c, nl);
      // `after_nl.lstrip(' ') == ''`
      if AllSpaces(afterNl) then |afterNl| else -1
  }

  lemma AfterLastAbsent(s: string, c: char)
    requires c !in s
    ensures AfterLast(s, c) == s
  {
    assert LastIndexOf(s, c) == -1;
  }

  // Once the current line holds text (`lead` is -1, say after `x`), a chunk
  // of spaces without a newline (say the two spaces before a directive) is
  // still counted as a blank run of its own length, although the line it
  // continues is not blank: the invariant `BlankRunKept` states is broken.
  lemma BlankCountAfterText(nl: Newline, o: string, c: string)
    requires c != [] && AllSpaces(c) && nl !in c
    requires !AllSpaces(AfterLast(o, nl))
    ensures UpdateBlankLineAsWritten(nl, -1, c) == |c|
    ensures !AllSpaces(AfterLast(o + c, nl))
  {
    AfterLastAbsent(c, nl);
    AfterLastAppend(o, c, nl);
    var line := AfterLast(o, nl);
    assert forall k :: 0 <= k < |line| ==> (line + c)[k] == line[k];
  }

  // `_update_blank_line` as its guard intends: how many spaces end the
  // output on its current line, or -1 once that line holds anything else.
  // A chunk without a newline cannot make a line that holds text blank.
  // It is stated beside the count as written, which the scanner runs.
  function UpdateBlankLine(nl: Newline, lead: int, c: string): (r: int)
    ensures c == [] ==> r == lead
    ensures c != [] && lead < 0 && nl !in c ==> r == -1
    ensures c != [] ==> r == -1 || (r == |AfterLast(c, nl)| && AllSpaces(AfterLast(c, nl)))
    ensures c != [] && !(lead < 0 && nl !in c) ==> (r >= 0 <==> AllSpaces(AfterLast(c, nl)))
  {
    if c == [] then lead
    else if lead < 0 && nl !in c then -1
    else
      var afterNl := AfterLast(c, nl);
      if AllSpaces(afterNl) then |afterNl| else -1
  }

  // The count as written and the corrected count part exactly on a chunk of
  // spaces without a newline that follows text on its line.
  lemma BlankCountsDiffer(nl: Newline, lead: int, c: string)
    ensures UpdateBlankLineAsWritten(nl, lead, c) != UpdateBlankLine(nl, lead, c) <==>
              c != [] && lead < 0 && nl !in c && AllSpaces(c)
  {
  }

  // The text after the last newline of `o + c`.
  lemma AfterLastAppend(o: string, c: string, ch: char)
    ensures ch in c ==> AfterLast(o + c, ch) == AfterLast(c, ch)
    ensures ch !in c ==> AfterLast(o + c, ch) == AfterLast(o, ch) + c
  {
    var s := o + c;
    var r := LastIndexOf(s, ch);
    if ch in c {
      var jc := LastIndexOf(c, ch);
      assert s[|o| + jc] == ch;
      assert r == |o| + jc;
      assert s[r + 1..] == c[jc + 1..];
    } else {
      forall j | |o| <= j < |s| ensures s[j] != ch {
        assert s[j] == c[j - |o|];
      }
      var jo := LastIndexOf(o, ch);
      if jo >= 0 {
        assert s[jo] == ch;
      }
      if r >= 0 {
        assert o[r] == s[r];
      }
      assert r == jo;
      assert s[r + 1..] == o[r + 1..] + c;
    }
  }

  // The blank-run invariant: whenever the count is not negative, the
  // output's current line holds nothing but spaces. Each chunk keeps it.
  lemma BlankRunKept(nl: Newline, o: string, lead: int, c: string)
    requires lead >= 0 ==> AllSpaces(AfterLast(o, nl))
    ensures UpdateBlankLine(nl, lead, c) >= 0 ==> AllSpaces(AfterLast(o + c, nl))
  {
    AfterLastAppend(o, c, nl);
    if c == [] {
      assert o + c == o;
    }
  }

  lemma RStripAppendKeeps(a: string, b: string)
    requires RStripSpaces(b) != []
    ensures RStripSpaces(a + b) == a + RStripSpaces(b)
    decreases |b|
  {
    if b[|b| - 1] == ' ' {
      assert (a + b)[..|a + b| - 1] == a + b[..|b| - 1];
      RStripAppendKeeps(a, b[..|b| - 1]);
    }
  }

  lemma RStripAppendSpaces(a: string, b: string)
    requires RStripSpaces(b) == []
    ensures RStripSpaces(a + b) == RStripSpaces(a)
    decreases |b|
  {
    if |b| > 0 {
      assert b[|b| - 1] == ' ';
      assert (a + b)[..|a + b| - 1] == a + b[..|b| - 1];
      RStripAppendSpaces(a, b[..|b| - 1]);
    } else {
      assert a + b == a;
    }
  }

  // `_delete_last_space`: drop trailing spaces from the emitted chunks,
  // removing chunks that were nothing but spaces.
  function DeleteLastSpace(q: seq<string>): (r: seq<string>)
    ensures Concat(r) == RStripSpaces(Concat(q))
    ensures |r| <= |q|
  {
    if |q| == 0 then q
    else
      var init := q[..|q| - 1];
      var last := q[|q| - 1];
      var t := RStripSpaces(last);
      if t != [] then
        RStripAppendKeeps(Concat(init), last);
        assert (init + [t])[..|init|] == init;
        init + [t]
      else
        RStripAppendSpaces(Concat(init), last);
        DeleteLastSpace(init)
  }

  // `_nxtq_in_forif`: when the scan is at a line start (`lead >= 0`) and
  // the rest of the directive's line is blank (or there is no newline at
  // all), skip that line and ask for the preceding spaces to be trimmed.
  function NxtqInForIf(nl: Newline, s: string, lead: int): (r: (string, nat, bool))
    ensures r.1 <= |s| && r.0 == s[r.1..]
    ensures r.2 <==> lead >= 0 && AllPyWhitespace(s[..r.1]) &&
                      (r.1 == 0 ==> nl !in s) &&
                      (r.1 > 0 ==> s[r.1 - 1] == nl && nl !in s[..r.1 - 1])
    ensures !r.2 ==> r.1 == 0
  {
    if 0 <= lead then
      var f := FindChar(s, nl, 0);
      var nlidx := if f < |s| then f + 1 else 0;
      if AllPyWhitespace(s[..nlidx]) then
        assert nlidx > 0 ==> s[..nlidx - 1] == s[..f];
        (s[nlidx..], nlidx, true)
      else (s, 0, false)
    else (s, 0, false)
  }

  // The `/*end*/` at the head of `rest` is alone on its line once the
  // surrounding spaces are stripped: the output's last line joined to the
  // rest's first line strips down to the bare token.
  predicate EndAlone(nl: Newline, out: string, rest: string)
  {
    StripSpaces(AfterLast(out, nl) + BeforeFirst(rest, nl)) == End
  }

  // `_end_in_forif`: when `/*end*/` sits on a line of its own, drop the
  // spaces before it from the output and consume the rest of its line and
  // the newline (one character past the input when that line is the last);
  // otherwise consume just the token.
  function EndInForIf(nl: Newline, out: string, rest: string): (r: (string, nat))
    ensures |r.0| <= |out| && r.0 == out[..|r.0|]
    ensures rest == [] ==> r == (out, 0)
    ensures rest != [] && EndAlone(nl, out, rest) ==>
              r.0 + AfterLast(out, nl) == out && r.1 == |BeforeFirst(rest, nl)| + 1
    ensures rest != [] && !EndAlone(nl, out, rest) ==> r == (out, |End|)
  {
    if rest == [] then (out, 0)
    else if EndAlone(nl, out, rest) then (UpToLast(out, nl), |BeforeFirst(rest, nl)| + 1)
    else (out, |End|)
  }

  lemma {:induction false} LStripAppend(a: string, f: string)
    ensures AllSpaces(a) ==> LStripSpaces(a + f) == LStripSpaces(f)
    ensures !AllSpaces(a) ==> LStripSpaces(a + f) == LStripSpaces(a) + f
    decreases |a|
  {
    if |a| == 0 {
      assert a + f == f;
    } else if a[0] == ' ' {
      var tail := a[1..];
      assert (a + f)[0] == ' ' && (a + f)[1..] == tail + f;
      assert AllSpaces(a) <==> AllSpaces(tail) by {
        assert forall k :: 0 <= k < |tail| ==> tail[k] == a[k + 1];
      }
      LStripAppend(tail, f);
    } else {
      assert (a + f)[0] == a[0];
    }
  }

  // `/*end*/` followed by `g` strips down to the bare token exactly when
  // `g` is all spaces.
  lemma RStripEnd(g: string)
    ensures RStripSpaces(End + g) == End <==> AllSpaces(g)
  {
    assert RStripSpaces(End) == End;
    if AllSpaces(g) {
      RStripAppendSpaces(End, g);
    } else {
      RStripAppendKeeps(End, g);
    }
  }

  // When the rest of the body starts with `/*end*/`, the token counts as
  // being on a line of its own exactly when the output's last line and
  // the text after the token on its line are all spaces.
  lemma EndOnOwnLine(nl: Newline, out: string, rest: string)
    requires StartsAt(rest, 0, End) && nl !in End
    ensures EndAlone(nl, out, rest) <==> AllSpaces(AfterLast(out, nl)) && AllSpaces(BeforeFirst(rest, nl)[|End|..])
  {
    var a := AfterLast(out, nl);
    var f := BeforeFirst(rest, nl);
    assert forall k :: 0 <= k < |End| ==> rest[k] == End[k];
    assert |f| >= |End|;
    assert f == End + f[|End|..];
    LStripAppend(a, f);
    assert LStripSpaces(f) == f;
    RStripEnd(f[|End|..]);
    if !AllSpaces(a) {
      var la := LStripSpaces(a);
      assert la != [];
      RStripAppendKeeps(la, f);
      if AllSpaces(f[|End|..]) {
        assert RStripSpaces(f) == End;
      } else {
        RStripAppendKeeps(End, f[|End|..]);
      }
    }
  }
}
