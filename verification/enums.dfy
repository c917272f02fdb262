// The placeholder styles and the comment classifier: `ParamStyle`, the five
// anchored `CommentType` patterns in declaration order, and
// `_check_comment_type`, which returns the first pattern that matches.
module Enums {
  import opened Wrappers
  import opened Text

  // `ParamStyle`: NAMED is `':{0}'`, PYFORMAT is `'%({0})s'`.
  datatype Style = Named | PyFormat

  // `prmfmt.format(name)`.
  function Format(style: Style, name: string): (r: string)
  {
    match style
    case Named => ":" + name
    case PyFormat => "%(" + name + ")s"
  }

  // A placeholder determines the style and the name it was formatted from,
  // so distinct names (the generated temp names in particular) never share
  // a placeholder.
  lemma FormatInjective(style: Style, a: string, b: string)
    requires Format(style, a) == Format(style, b)
    ensures a == b
  {
    match style
    case Named =>
      assert a == Format(style, a)[1..];
      assert b == Format(style, b)[1..];
    case PyFormat =>
      var fa := Format(style, a);
      assert a == fa[2..|fa| - 2];
      assert b == Format(style, b)[2..|fa| - 2];
  }

  // The style a placeholder was rendered with can be read off its first character.
  lemma FormatDistinguishesStyles(a: string, b: string)
    ensures Format(Named, a) != Format(PyFormat, b)
  {
    assert Format(Named, a)[0] == ':';
    assert Format(PyFormat, b)[0] == '%';
  }

  // `CommentType`, in its declaration (and therefore matching) order.
  datatype Kind = Param | Direct | If | For | Normal

  // The character class `[a-zA-Z0-9_]`.
  predicate IsWordChar(c: char)
  {
    ('a' <= c <= 'z') || ('A' <= c <= 'Z') || ('0' <= c <= '9') || c == '_'
  }

  // End of the maximal run of word characters starting at `j`.
  function WordRun(t: string, j: nat): (r: nat)
    requires j <= |t|
    ensures j <= r <= |t|
    ensures forall k :: j <= k < r ==> IsWordChar(t[k])
    ensures r < |t| ==> !IsWordChar(t[r])
    decreases |t| - j
  {
    if j == |t| || !IsWordChar(t[j]) then j else WordRun(t, j + 1)
  }

  // `^/\*<sigil>[a-zA-Z0-9_]*\*/`: the length of the match, if any.
  function SimpleMatch(t: string, sigil: char): Option<nat>
  {
    if StartsAt(t, 0, ['/', '*', sigil]) then
      var k := WordRun(t, 3);
      if StartsAt(t, k, "*/") then Some(k + 2) else None
    else None
  }

  // The lazy tail `.+?\*/` of the if and for patterns, starting at `from`:
  // the end of the shortest run of at least one non-newline character that
  // is followed by `*/`. `e` is the candidate end of the run.
  function LazyClose(t: string, from: nat, e: nat): (r: Option<nat>)
    requires from < e
    ensures r.Some? ==> e + 2 <= r.value <= |t| && StartsAt(t, r.value - 2, "*/")
    decreases |t| + 1 - e
  {
    if e > |t| || t[e - 1] == '\n' then None
    else if StartsAt(t, e, "*/") then Some(e + 2)
    else LazyClose(t, from, e + 1)
  }

  // `^/\*%if .+?\*/`.
  function IfMatch(t: string): Option<nat>
  {
    if StartsAt(t, 0, "/*%if ") then LazyClose(t, 6, 7) else None
  }

  // `^/\*%for .+? in .+?\*/`: the first lazy run (ending at `e`) is widened
  // only when no second run completes the match, which is how the regex
  // engine backtracks.
  function ForFrom(t: string, e: nat): (r: Option<nat>)
    requires e >= 8
    ensures r.Some? ==> e + 7 <= r.value <= |t| && StartsAt(t, r.value - 2, "*/")
    decreases |t| + 1 - e
  {
    if e > |t| || t[e - 1] == '\n' then None
    else if StartsAt(t, e, " in ") && LazyClose(t, e + 4, e + 5).Some? then LazyClose(t, e + 4, e + 5)
    else ForFrom(t, e + 1)
  }

  function ForMatch(t: string): Option<nat>
  {
    if StartsAt(t, 0, "/*%for ") then ForFrom(t, 8) else None
  }

  // `^/\*.*?\*/` with DOTALL: up to the first `*/` that starts at index 2 or later.
  function NormalMatch(t: string): Option<nat>
  {
    if StartsAt(t, 0, "/*") then
      var j := FindFrom(t, "*/", 2);
      if j < |t| then Some(j + 2) else None
    else None
  }

  // `_check_comment_type`: the first pattern, in declaration order, that
  // matches at the start of `t`, with the length of the matched text.
  function Classify(t: string): (r: Option<(Kind, nat)>)
    requires StartsAt(t, 0, "/*")
    ensures r.Some? ==> 4 <= r.value.1 <= |t| && StartsAt(t, r.value.1 - 2, "*/")
    ensures r.None? <==> NormalMatch(t).None?
    ensures r.Some? && r.value.0 == Param ==> t[2] == ':' && r.value.1 >= 5
    ensures r.Some? && r.value.0 == Direct ==> t[2] == '$' && r.value.1 >= 5
    ensures r.Some? && r.value.0 == If ==> StartsAt(t, 0, "/*%if ") && r.value.1 >= 9
    ensures r.Some? && r.value.0 == For ==> StartsAt(t, 0, "/*%for ") && r.value.1 >= 15
  {
    if SimpleMatch(t, ':').Some? then Some((Param, SimpleMatch(t, ':').value))
    else if SimpleMatch(t, '$').Some? then Some((Direct, SimpleMatch(t, '$').value))
    else if IfMatch(t).Some? then Some((If, IfMatch(t).value))
    else if ForMatch(t).Some? then Some((For, ForMatch(t).value))
    else if NormalMatch(t).Some? then Some((Normal, NormalMatch(t).value))
    else None
  }

  // ---------------------------------------------------------------------
  // The patterns, stated declaratively, and the matchers proved against them.

  // `t[..len]` is `/*`, the sigil, a run of word characters and `*/`.
  predicate SimpleShape(t: string, sigil: char, len: nat)
  {
    && 5 <= len <= |t|
    && StartsAt(t, 0, ['/', '*', sigil])
    && (forall k :: 3 <= k < len - 2 ==> IsWordChar(t[k]))
    && StartsAt(t, len - 2, "*/")
  }

  // The parameter and direct patterns match exactly the texts of their shape,
  // with exactly that length: there is never more than one.
  lemma SimpleMatchSpec(t: string, sigil: char, len: nat)
    ensures SimpleMatch(t, sigil) == Some(len) <==> SimpleShape(t, sigil, len)
  {
    if SimpleShape(t, sigil, len) {
      assert t[len - 2] == '*';
      assert WordRun(t, 3) == len - 2;
    }
  }

  // `t[from..e]` is a non-empty, newline-free run followed by `*/`.
  predicate LazyShape(t: string, from: nat, e: nat)
  {
    && from < e
    && StartsAt(t, e, "*/")
    && (forall k :: from <= k < e ==> t[k] != '\n')
  }

  lemma {:induction false} LazyCloseSpec(t: string, from: nat, e: nat)
    requires from < e
    requires forall k :: from <= k < e - 1 && k < |t| ==> t[k] != '\n'
    requires forall e' :: from < e' < e ==> !LazyShape(t, from, e')
    ensures LazyClose(t, from, e).Some? ==>
              && LazyShape(t, from, LazyClose(t, from, e).value - 2)
              && forall e' :: from < e' < LazyClose(t, from, e).value - 2 ==> !LazyShape(t, from, e')
    ensures LazyClose(t, from, e).None? ==> forall e' :: !LazyShape(t, from, e')
    decreases |t| + 1 - e
  {
    if e > |t| {
      forall e': nat ensures !LazyShape(t, from, e') {
      }
    } else if t[e - 1] == '\n' {
      forall e': nat | e' >= e ensures !LazyShape(t, from, e') {
        assert from <= e - 1 < e';
      }
    } else if StartsAt(t, e, "*/") {
      assert LazyShape(t, from, e);
    } else {
      assert !LazyShape(t, from, e);
      LazyCloseSpec(t, from, e + 1);
    }
  }

  // The if pattern matches the SHORTEST `/*%if ` + run + `*/` prefix, and
  // fails only when no such prefix exists.
  lemma IfMatchIsShortest(t: string)
    requires StartsAt(t, 0, "/*%if ")
    ensures IfMatch(t).Some? ==>
              && LazyShape(t, 6, IfMatch(t).value - 2)
              && forall e :: 6 < e < IfMatch(t).value - 2 ==> !LazyShape(t, 6, e)
    ensures IfMatch(t).None? ==> forall e :: !LazyShape(t, 6, e)
  {
    LazyCloseSpec(t, 6, 7);
  }

  // `t[..len]` is `/*%for `, a run ending at `e`, ` in `, a second run and `*/`.
  predicate ForShape(t: string, e: nat, len: nat)
  {
    && 7 < e
    && StartsAt(t, e, " in ")
    && (forall k :: 7 <= k < e ==> t[k] != '\n')
    && len >= 2
    && LazyShape(t, e + 4, len - 2)
  }

  lemma {:induction false} ForFromSpec(t: string, e: nat)
    requires e >= 8
    requires forall k :: 7 <= k < e - 1 ==> k < |t| && t[k] != '\n'
    requires forall e': nat, len: nat :: 7 < e' < e ==> !ForShape(t, e', len)
    ensures ForFrom(t, e).Some? ==>
              exists e': nat :: e <= e' && ForShape(t, e', ForFrom(t, e).value)
    ensures ForFrom(t, e).None? ==> forall e': nat, len: nat :: !ForShape(t, e', len)
    decreases |t| + 1 - e
  {
    if e > |t| || t[e - 1] == '\n' {
      forall e': nat, len: nat | e' >= e ensures !ForShape(t, e', len) {
        ForShapeFirstRun(t, e', len, e - 1);
      }
    } else if StartsAt(t, e, " in ") && LazyClose(t, e + 4, e + 5).Some? {
      LazyCloseSpec(t, e + 4, e + 5);
      assert ForShape(t, e, ForFrom(t, e).value);
    } else {
      LazyCloseSpec(t, e + 4, e + 5);
      forall len: nat ensures !ForShape(t, e, len) {
        ForShapeSecondRun(t, e, len);
      }
      ForFromSpec(t, e + 1);
    }
  }

  // Every character of the first run of a for shape lies on the first line.
  lemma ForShapeFirstRun(t: string, e: nat, len: nat, k: nat)
    requires 7 <= k < e
    ensures ForShape(t, e, len) ==> k < |t| && t[k] != '\n'
  {
  }

  lemma ForShapeSecondRun(t: string, e: nat, len: nat)
    ensures ForShape(t, e, len) ==> StartsAt(t, e, " in ") && LazyShape(t, e + 4, len - 2)
  {
  }

  // From any end `e` of the first run up to a shape's own, the rest of the
  // first line up to the shape's `*/` is a lazy tail.
  lemma ForShapeTail(t: string, e: nat, e': nat, len: nat)
    requires 8 <= e <= e'
    requires ForShape(t, e', len)
    ensures LazyShape(t, e + 4, len - 2)
  {
    forall k | e + 4 <= k < len - 2 ensures t[k] != '\n' {
      if k < e' {
        ForShapeFirstRun(t, e', len, k);
      } else if k < e' + 4 {
        assert t[k] == " in "[k - e'];
      }
    }
  }

  // The lazy tail from `from` closes no later than any tail shape does.
  lemma LazyCloseShortest(t: string, from: nat, end: nat)
    requires LazyShape(t, from, end)
    ensures LazyClose(t, from, from + 1).Some? && LazyClose(t, from, from + 1).value <= end + 2
  {
    LazyCloseSpec(t, from, from + 1);
    var lc := LazyClose(t, from, from + 1);
    assert lc.Some? ==> !(from < end < lc.value - 2);
  }

  // The search stops at a first-run end followed by ` in ` and a lazy tail.
  lemma ForFromStops(t: string, e: nat, end: nat)
    requires 8 <= e <= |t| && t[e - 1] != '\n' && StartsAt(t, e, " in ")
    requires LazyShape(t, e + 4, end)
    ensures ForFrom(t, e).Some? && ForFrom(t, e).value <= end + 2
  {
    LazyCloseShortest(t, e + 4, end);
  }

  // The search passes over a first-run end not followed by ` in `.
  lemma ForFromPasses(t: string, e: nat)
    requires 8 <= e <= |t| && t[e - 1] != '\n' && !StartsAt(t, e, " in ")
    ensures ForFrom(t, e) == ForFrom(t, e + 1)
  {
  }

  // A for shape whose first run ends at `e'` from `e` on bounds what the
  // search from `e` finds: both lazy runs are as short as they can be.
  lemma {:induction false} ForFromShortest(t: string, e: nat, e': nat, len: nat)
    requires 8 <= e <= e'
    requires ForShape(t, e', len)
    ensures ForFrom(t, e).Some? && ForFrom(t, e).value <= len
    decreases e' - e
  {
    if StartsAt(t, e, " in ") {
      assert ForFrom(t, e).Some? && ForFrom(t, e).value <= len by {
        ForShapeFirstRun(t, e', len, e - 1);
        ForShapeTail(t, e, e', len);
        ForFromStops(t, e, len - 2);
      }
    } else {
      assert e < e' && ForFrom(t, e) == ForFrom(t, e + 1) by {
        ForShapeFirstRun(t, e', len, e - 1);
        ForFromPasses(t, e);
      }
      ForFromShortest(t, e + 1, e', len);
    }
  }

  // The for pattern matches exactly when `/*%for <run> in <run>*/` can be
  // found on the first line; what it matches has that shape, and no shape
  // is shorter: the lazy runs of `.+? in .+?` take as little as they can.
  lemma ForMatchSpec(t: string)
    requires StartsAt(t, 0, "/*%for ")
    ensures ForMatch(t).Some? ==> exists e: nat :: ForShape(t, e, ForMatch(t).value)
    ensures ForMatch(t).None? ==> forall e: nat, len: nat :: !ForShape(t, e, len)
    ensures forall e: nat, len: nat :: ForShape(t, e, len) ==> ForMatch(t).Some? && ForMatch(t).value <= len
  {
    ForFromSpec(t, 8);
    forall e: nat, len: nat | ForShape(t, e, len) ensures ForMatch(t).Some? && ForMatch(t).value <= len {
      ForFromShortest(t, 8, e, len);
    }
  }

  // The generic pattern matches up to the first `*/` at index 2 or later,
  // and fails exactly when there is none: an unterminated comment.
  lemma NormalMatchSpec(t: string)
    requires StartsAt(t, 0, "/*")
    ensures NormalMatch(t).Some? ==>
              && StartsAt(t, NormalMatch(t).value - 2, "*/")
              && 4 <= NormalMatch(t).value
              && forall j :: 2 <= j < NormalMatch(t).value - 2 ==> !StartsAt(t, j, "*/")
    ensures NormalMatch(t).None? <==> forall j :: 2 <= j ==> !StartsAt(t, j, "*/")
  {
  }

  // The first four kinds are told apart by the character after `/*`: any
  // comment whose third character is not `:`, `$` or `%` is generic.
  lemma PrefixDecidesKind(t: string)
    requires StartsAt(t, 0, "/*")
    requires |t| > 2 ==> t[2] !in {':', '$', '%'}
    ensures Classify(t).Some? ==> Classify(t).value.0 == Normal
  {
  }

  // A `/*:` comment whose name is not a run of word characters (its first
  // other character does not start the closing `*/`) is generic when it is
  // closed: `/*:a*b*/` and `/*:a-b*/` alike.
  lemma BadNameIsNormal(t: string, k: nat)
    requires StartsAt(t, 0, "/*:")
    requires 3 <= k < |t| && !IsWordChar(t[k]) && !StartsAt(t, k, "*/")
    requires forall j :: 3 <= j < k ==> IsWordChar(t[j])
    requires NormalMatch(t).Some?
    ensures Classify(t) == Some((Normal, NormalMatch(t).value))
  {
    assert WordRun(t, 3) == k;
    assert t[2] == ':';
    assert !StartsAt(t, 0, "/*%if ");
    assert !StartsAt(t, 0, "/*%for ");
  }

  lemma StarInNameIsNormal()
    ensures Classify("/*:a*b*/") == Some((Normal, 8))
  {
    var t := "/*:a*b*/";
    assert t[5] == 'b';
    assert !StartsAt(t, 4, "*/");
    assert StartsAt(t, 6, "*/");
    assert FindFrom(t, "*/", 2) == 6 by {
      assert t[2..4] != "*/" && t[3..5] != "*/" && t[4..6] != "*/" && t[5..7] != "*/";
    }
    BadNameIsNormal(t, 4);
  }

  // ---------------------------------------------------------------------
  // Declaration order: a comment of a directive's shape gets that kind, and
  // only a comment of none of those shapes is generic.

  // A comment of the parameter shape is a PARAM comment of exactly that length.
  lemma ParamShapeIsParam(t: string, len: nat)
    requires SimpleShape(t, ':', len)
    ensures StartsAt(t, 0, "/*") && Classify(t) == Some((Param, len))
  {
    assert t[..2] == t[..3][..2];
    SimpleMatchSpec(t, ':', len);
  }

  // PARAM is tried first, but cannot match `/*$`.
  lemma DirectShapeIsDirect(t: string, len: nat)
    requires SimpleShape(t, '$', len)
    ensures StartsAt(t, 0, "/*") && Classify(t) == Some((Direct, len))
  {
    assert t[..2] == t[..3][..2];
    assert t[2] == '$';
    SimpleMatchSpec(t, '$', len);
  }

  // A comment of the if shape is an IF comment, ending at the shortest such shape.
  lemma IfShapeIsIf(t: string, e: nat)
    requires StartsAt(t, 0, "/*%if ") && LazyShape(t, 6, e)
    ensures StartsAt(t, 0, "/*") && IfMatch(t).Some? && IfMatch(t).value <= e + 2
    ensures Classify(t) == Some((If, IfMatch(t).value))
  {
    assert t[..2] == t[..6][..2];
    assert t[2] == '%';
    IfMatchIsShortest(t);
  }

  // A comment of the for shape is a FOR comment, ending no later than that shape.
  lemma ForShapeIsFor(t: string, e: nat, len: nat)
    requires StartsAt(t, 0, "/*%for ") && ForShape(t, e, len)
    ensures StartsAt(t, 0, "/*") && ForMatch(t).Some? && ForMatch(t).value <= len
    ensures Classify(t) == Some((For, ForMatch(t).value))
  {
    assert t[..2] == t[..7][..2];
    assert t[2] == '%' && t[3] == 'f';
    assert !StartsAt(t, 0, "/*%if ");
    ForMatchSpec(t);
  }

  // A comment of none of the four directive shapes is generic, or no
  // comment at all when it is not closed.
  lemma NoDirectiveShapeIsNormal(t: string)
    requires StartsAt(t, 0, "/*")
    requires forall len: nat :: !SimpleShape(t, ':', len) && !SimpleShape(t, '$', len)
    requires StartsAt(t, 0, "/*%if ") ==> forall e: nat :: !LazyShape(t, 6, e)
    requires StartsAt(t, 0, "/*%for ") ==> forall e: nat, len: nat :: !ForShape(t, e, len)
    ensures NormalMatch(t).Some? ==> Classify(t) == Some((Normal, NormalMatch(t).value))
    ensures NormalMatch(t).None? ==> Classify(t) == None
  {
    var lp := if SimpleMatch(t, ':').Some? then SimpleMatch(t, ':').value else 0;
    SimpleMatchSpec(t, ':', lp);
    var ld := if SimpleMatch(t, '$').Some? then SimpleMatch(t, '$').value else 0;
    SimpleMatchSpec(t, '$', ld);
    if StartsAt(t, 0, "/*%if ") {
      IfMatchIsShortest(t);
    }
    if StartsAt(t, 0, "/*%for ") {
      ForMatchSpec(t);
    }
  }
}
