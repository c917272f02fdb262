// Templates without directives pass through unchanged: with comments kept,
// a text in which every `/*` opens a closed, ordinary comment is returned
// as it is, and the parameter mapping comes back untouched.
module Identity {
  import opened Wrappers
  import opened Text
  import opened Enums
  import opened Values
  import opened TempParams
  import opened Readers
  import opened Engine
  import opened DummyScan

  // No `/*:`, `/*$` or `/*%` anywhere, and every `/*` has a later `*/`.
  predicate Plain(s: string)
  {
    forall j: nat | j < |s| && StartsAt(s, j, "/*") ::
      && j + 2 < |s|
      && s[j + 2] != ':' && s[j + 2] != '$' && s[j + 2] != '%'
      && FindFrom(s, "*/", j + 2) < |s|
  }

  // The facts about one round of the scan that the identity needs.
  predicate CopiesVerbatim(s: string, i: nat, r: Result<Step, Error>, st: State)
    requires i < |s|
  {
    && r.Ok? && r.value.st == st && !r.value.trim
    && i < r.value.next <= |s|
    && s[..r.value.next] == s[..i] + r.value.chunk
  }

  // The text before `i` followed by `n` characters from `i` on.
  lemma PrefixJoins(s: string, i: nat, n: nat)
    requires i + n <= |s|
    ensures s[..i + n] == s[..i] + s[i..][..n]
  {
    assert s[i..][..n] == s[i..i + n];
  }

  lemma QuoteCopied(ctx: Ctx, s: string, tmp: TempScope, i: nat, lead: int, st: State)
    requires i < |s| && IsQuote(s[i])
    ensures CopiesVerbatim(s, i, Switch(ctx, s, NextChars(s, i, NoEop), tmp, false, lead, st), st)
  {
    var (text, n) := QuoteSpan(s[i], s[i + 1..]);
    QuoteAt(ctx, s, i, NoEop, tmp, false, lead, st);
    SpanJoins(s, i, n, text);
  }

  lemma BracketCopied(ctx: Ctx, s: string, tmp: TempScope, i: nat, lead: int, st: State)
    requires i < |s| && IsOpenBracket(s[i])
    ensures CopiesVerbatim(s, i, Switch(ctx, s, NextChars(s, i, NoEop), tmp, false, lead, st), st)
  {
    var nx := NextChars(s, i, NoEop);
    assert nx.i1 == i + 1 && nx.chunk == [s[i]];
    assert Switch(ctx, s, nx, tmp, false, lead, st) == Ok(Step([s[i]], i + 1, false, st));
    assert s[..i + 1] == s[..i] + [s[i]];
  }

  // The dispatch hands a `--` at `i` to the line-comment reader.
  lemma LineAt(ctx: Ctx, s: string, tmp: TempScope, i: nat, lead: int, st: State)
    requires StartsAt(s, i, "--")
    ensures var line := SingleLine(ctx.nl, s[i..]);
            Switch(ctx, s, NextChars(s, i, NoEop), tmp, false, lead, st)
            == Ok(Step(if ctx.deleteComment then "" else line.0, i + line.1, false, st))
  {
    var nx := NextChars(s, i, NoEop);
    assert TargetAt(s, i, NoEop);
    assert nx.i1 == i + 1 && nx.chunk == [s[i]] && nx.pair == "--";
    assert !IsQuote(s[i]) && !IsOpenBracket(s[i]);
    assert s[nx.i1 - 1..] == s[i..];
  }

  lemma LineCommentCopied(ctx: Ctx, s: string, tmp: TempScope, i: nat, lead: int, st: State)
    requires !ctx.deleteComment
    requires StartsAt(s, i, "--")
    ensures CopiesVerbatim(s, i, Switch(ctx, s, NextChars(s, i, NoEop), tmp, false, lead, st), st)
  {
    LineAt(ctx, s, tmp, i, lead, st);
    var t := s[i..];
    assert StartsAt(t, 0, "--");
    PrefixJoins(s, i, SingleLine(ctx.nl, t).1);
  }

  // In a plain text, every comment the scan meets is an ordinary one.
  lemma PlainCommentIsNormal(s: string, i: nat)
    requires Plain(s) && StartsAt(s, i, "/*")
    ensures Classify(s[i..]).Some? && Classify(s[i..]).value.0 == Normal
  {
    var t := s[i..];
    var k := FindFrom(s, "*/", i + 2);
    assert StartsAt(t, k - i, "*/");
    NormalMatchSpec(t);
    PrefixDecidesKind(t);
  }

  // An ordinary comment is returned whole, flagged as a comment.
  lemma NormalPiece(ctx: Ctx, t: string, tmp: TempScope, lead: int, st: State)
    requires StartsAt(t, 0, "/*") && Classify(t).Some? && Classify(t).value.0 == Normal
    ensures MultiLine(ctx, t, tmp, lead, st) == Ok(Piece(t[..Classify(t).value.1], Classify(t).value.1, true, false, st))
  {
  }

  // At a `/*` the scan's cursor moves by one character.
  lemma CommentNext(s: string, i: nat)
    requires StartsAt(s, i, "/*")
    ensures NextChars(s, i, NoEop) == Next(['/'], "/*", i + 1)
  {
    assert TargetAt(s, i, NoEop);
    assert s[i..i + 2] == "/*";
  }

  // At a `/*` the dispatch hands the rest of the text to the comment reader.
  lemma BlockAt(ctx: Ctx, s: string, tmp: TempScope, i: nat, lead: int, st: State)
    requires StartsAt(s, i, "/*")
    ensures Switch(ctx, s, NextChars(s, i, NoEop), tmp, false, lead, st) == BlockStep(ctx, s[i..], i, tmp, lead, st)
  {
    CommentNext(s, i);
    assert "/*"[0] == '/' && "--"[0] == '-';
  }

  // With comments kept, the dispatch copies an ordinary comment whole.
  lemma BlockCommentStep(ctx: Ctx, s: string, tmp: TempScope, i: nat, lead: int, st: State, len: nat)
    requires !ctx.deleteComment && StartsAt(s, i, "/*") && i + len <= |s|
    requires MultiLine(ctx, s[i..], tmp, lead, st) == Ok(Piece(s[i..][..len], len, true, false, st))
    ensures Switch(ctx, s, NextChars(s, i, NoEop), tmp, false, lead, st) == Ok(Step(s[i..][..len], i + len, false, st))
  {
    BlockAt(ctx, s, tmp, i, lead, st);
    KeptCommentStep(ctx, s[i..], i, tmp, lead, st, s[i..][..len], len);
  }

  // An ordinary comment the reader returns whole becomes the step's chunk
  // when comments are kept.
  lemma KeptCommentStep(ctx: Ctx, t: string, base: nat, tmp: TempScope, lead: int, st: State, text: string, len: nat)
    requires !ctx.deleteComment && StartsAt(t, 0, "/*")
    requires MultiLine(ctx, t, tmp, lead, st) == Ok(Piece(text, len, true, false, st))
    ensures BlockStep(ctx, t, base, tmp, lead, st) == Ok(Step(text, base + len, false, st))
  {
  }

  // An ordinary comment is classified as such and copied whole.
  lemma BlockCommentCopied(ctx: Ctx, s: string, tmp: TempScope, i: nat, lead: int, st: State)
    requires !ctx.deleteComment && Plain(s)
    requires StartsAt(s, i, "/*")
    ensures CopiesVerbatim(s, i, Switch(ctx, s, NextChars(s, i, NoEop), tmp, false, lead, st), st)
  {
    PlainCommentIsNormal(s, i);
    var len := Classify(s[i..]).value.1;
    NormalPiece(ctx, s[i..], tmp, lead, st);
    BlockCommentStep(ctx, s, tmp, i, lead, st, len);
    PrefixJoins(s, i, len);
  }

  lemma TextCopied(ctx: Ctx, s: string, tmp: TempScope, i: nat, lead: int, st: State)
    requires i < |s| && !TargetAt(s, i, NoEop)
    ensures CopiesVerbatim(s, i, Switch(ctx, s, NextChars(s, i, NoEop), tmp, false, lead, st), st)
  {
    var nx := NextChars(s, i, NoEop);
    assert nx.chunk[0] == s[i];
    assert nx.pair != "--" && nx.pair != "/*";
    assert Switch(ctx, s, nx, tmp, false, lead, st) == Ok(Step(nx.chunk, nx.i1, false, st));
    assert s[..nx.i1] == s[..i] + nx.chunk;
  }

  lemma StepCopied(ctx: Ctx, s: string, tmp: TempScope, i: nat, lead: int, st: State)
    requires !ctx.deleteComment && Plain(s) && i < |s|
    ensures CopiesVerbatim(s, i, Switch(ctx, s, NextChars(s, i, NoEop), tmp, false, lead, st), st)
  {
    if IsQuote(s[i]) {
      QuoteCopied(ctx, s, tmp, i, lead, st);
    } else if IsOpenBracket(s[i]) {
      BracketCopied(ctx, s, tmp, i, lead, st);
    } else if StartsAt(s, i, "--") {
      LineCommentCopied(ctx, s, tmp, i, lead, st);
    } else if StartsAt(s, i, "/*") {
      BlockCommentCopied(ctx, s, tmp, i, lead, st);
    } else {
      TextCopied(ctx, s, tmp, i, lead, st);
    }
  }

  // A round that neither fails nor trims appends its chunk and carries on
  // from where it stopped.
  lemma LoopAdvances(ctx: Ctx, s: string, tmp: TempScope, q: seq<string>, i: nat, lead: int, st: State, step: Step)
    requires i < |s|
    requires Switch(ctx, s, NextChars(s, i, NoEop), tmp, false, lead, st) == Ok(step) && !step.trim
    ensures ParseLoop(ctx, s, NoEop, tmp, false, q, i, lead, st)
            == ParseLoop(ctx, s, NoEop, tmp, false, q + [step.chunk], step.next,
                         UpdateBlankLineAsWritten(ctx.nl, lead, step.chunk), step.st)
  {
    assert !StartsWithEop(s, i, NoEop);
  }

  lemma {:induction false} PlainLoop(ctx: Ctx, s: string, tmp: TempScope, q: seq<string>, i: nat, lead: int, st: State)
    requires !ctx.deleteComment && Plain(s)
    requires i <= |s| && Concat(q) == s[..i]
    ensures ParseLoop(ctx, s, NoEop, tmp, false, q, i, lead, st).Ok?
    ensures var r := ParseLoop(ctx, s, NoEop, tmp, false, q, i, lead, st).value;
            r.text == s && r.consumed == |s| && r.st == st
    decreases |s| - i
  {
    if i < |s| {
      var nx := NextChars(s, i, NoEop);
      StepCopied(ctx, s, tmp, i, lead, st);
      var step := Switch(ctx, s, nx, tmp, false, lead, st).value;
      var lead' := UpdateBlankLineAsWritten(ctx.nl, lead, step.chunk);
      LoopAdvances(ctx, s, tmp, q, i, lead, st, step);
      ConcatSnoc(q, step.chunk);
      PlainLoop(ctx, s, tmp, q + [step.chunk], step.next, lead', st);
    } else {
      assert s[..i] == s;
    }
  }

  // With comments kept, a template without directives comes back unchanged,
  // and so does the parameter mapping.
  lemma PlainTemplateUnchanged(sql: string, params: map<string, Value>, nl: Newline, style: StyleArg,
                               oracle: Oracle, seed: nat)
    requires Plain(sql) && style != Foreign(true)
    ensures ParseSql(sql, params, false, nl, style, oracle, seed) == Ok((sql, params))
  {
    var pstyle := ValidateStyle(style).value;
    PlainLoop(Ctx(false, pstyle, nl, oracle), sql, Binds(map[]), [], 0, 0, State(params, seed));
  }
}
