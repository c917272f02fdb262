// The dummy literal after a parameter or direct comment
// (`_parse_simple_comment`'s sub-scan with `_EOP_SIMPLE_PARAM`), described
// independently of the scanner: a verbatim prefix of the following text that
// ends before the first stop character lying outside a quote or bracket.
module DummyScan {
  import opened Wrappers
  import opened Text
  import opened TempParams
  import opened Readers
  import opened Engine

  // Where the dummy literal starting at `i` ends: quoted and bracketed runs
  // are skipped whole, any other character is taken unless it stops the scan.
  function DummyEnd(s: string, i: nat): (r: nat)
    requires i <= |s|
    ensures i <= r <= |s|
    ensures r == |s| || IsSimpleStop(s[r])
    decreases |s| - i
  {
    if i == |s| || IsSimpleStop(s[i]) then i
    else if IsQuote(s[i]) then DummyEnd(s, i + 1 + QuoteSpan(s[i], s[i + 1..]).1)
    else if IsOpenBracket(s[i]) then DummyEnd(s, i + 1 + BracketSpan(s[i], s[i + 1..]).1)
    else DummyEnd(s, i + 1)
  }

  // The dummy literal of `s`.
  function DummyLiteral(s: string): (r: string)
    ensures |r| <= |s| && r == s[..|r|]
    ensures |r| == |s| || IsSimpleStop(s[|r|])
  {
    s[..DummyEnd(s, 0)]
  }

  // A span read from just after `i` continues the prefix before `i`.
  lemma SpanJoins(s: string, i: nat, n: nat, text: string)
    requires i < |s| && n <= |s| - i - 1
    requires text == [s[i]] + s[i + 1..][..n]
    ensures s[..i + 1 + n] == s[..i] + text
  {
    assert s[i + 1..][..n] == s[i + 1..i + 1 + n];
  }

  lemma ConcatSnoc(q: seq<string>, c: string)
    ensures Concat(q + [c]) == Concat(q) + c
  {
    assert (q + [c])[..|q|] == q;
  }

  // A run of characters none of which is a scan target is taken one by one.
  lemma {:induction false} DummyEndSkipsPlain(s: string, i: nat, j: nat)
    requires i <= j <= |s|
    requires forall k :: i <= k < j ==> !TargetAt(s, k, SimpleParam)
    ensures DummyEnd(s, i) == DummyEnd(s, j)
    decreases j - i
  {
    if i < j {
      assert !TargetAt(s, i, SimpleParam);
      DummyEndSkipsPlain(s, i + 1, j);
    }
  }

  // One round of the sub-scan's loop: a quoted or bracketed run, or a run
  // of plain characters, taken verbatim without touching the state.
  lemma DummyStep(ctx: Ctx, s: string, tmp: TempScope, i: nat, lead: int, st: State)
    requires i < |s| && !IsSimpleStop(s[i])
    ensures var nx := NextChars(s, i, SimpleParam);
            var r := Switch(ctx, s, nx, tmp, true, lead, st);
            && r.Ok? && r.value.st == st && !r.value.trim
            && i < r.value.next <= |s|
            && s[..r.value.next] == s[..i] + r.value.chunk
            && DummyEnd(s, i) == DummyEnd(s, r.value.next)
  {
    if IsQuote(s[i]) {
      QuoteStep(ctx, s, tmp, i, lead, st);
    } else if IsOpenBracket(s[i]) {
      BracketStep(ctx, s, tmp, i, lead, st);
    } else {
      PlainStep(ctx, s, tmp, i, lead, st);
    }
  }

  lemma PlainStep(ctx: Ctx, s: string, tmp: TempScope, i: nat, lead: int, st: State)
    requires i < |s| && !IsSimpleStop(s[i]) && !IsQuote(s[i]) && !IsOpenBracket(s[i])
    ensures var nx := NextChars(s, i, SimpleParam);
            Switch(ctx, s, nx, tmp, true, lead, st) == Ok(Step(nx.chunk, nx.i1, false, st))
            && s[..nx.i1] == s[..i] + nx.chunk
            && DummyEnd(s, i) == DummyEnd(s, nx.i1)
  {
    var nx := NextChars(s, i, SimpleParam);
    var c := nx.chunk;
    var i1 := nx.i1;
    assert !StartsAt(s, i, "--") && !StartsAt(s, i, "/*");
    assert !TargetAt(s, i, SimpleParam);
    assert c[0] == s[i];
    assert nx.pair != "--" && nx.pair != "/*";
    assert s[..i1] == s[..i] + c;
    DummyEndSkipsPlain(s, i, i1);
  }

  // At a quote the cursor moves by one character and the dispatch reads
  // the literal whole.
  lemma QuoteAt(ctx: Ctx, s: string, i: nat, eop: Eop, tmp: TempScope, afterParam: bool, lead: int, st: State)
    requires i < |s| && IsQuote(s[i])
    ensures Switch(ctx, s, NextChars(s, i, eop), tmp, afterParam, lead, st)
         == Ok(Step(QuoteSpan(s[i], s[i + 1..]).0, i + 1 + QuoteSpan(s[i], s[i + 1..]).1, false, st))
  {
    var nx := NextChars(s, i, eop);
    assert nx.i1 == i + 1 && nx.chunk == [s[i]];
  }

  // After a parameter, at an opening bracket the cursor moves by one
  // character and the dispatch reads up to the first closing bracket.
  lemma BracketAt(ctx: Ctx, s: string, i: nat, eop: Eop, tmp: TempScope, lead: int, st: State)
    requires i < |s| && IsOpenBracket(s[i])
    ensures Switch(ctx, s, NextChars(s, i, eop), tmp, true, lead, st)
         == Ok(Step(BracketSpan(s[i], s[i + 1..]).0, i + 1 + BracketSpan(s[i], s[i + 1..]).1, false, st))
  {
    var nx := NextChars(s, i, eop);
    assert nx.i1 == i + 1 && nx.chunk == [s[i]];
  }

  lemma QuoteStep(ctx: Ctx, s: string, tmp: TempScope, i: nat, lead: int, st: State)
    requires i < |s| && IsQuote(s[i])
    ensures var nx := NextChars(s, i, SimpleParam);
            var r := Switch(ctx, s, nx, tmp, true, lead, st);
            && r.Ok? && r.value.st == st && !r.value.trim
            && i < r.value.next <= |s|
            && s[..r.value.next] == s[..i] + r.value.chunk
            && DummyEnd(s, i) == DummyEnd(s, r.value.next)
  {
    var (text, n) := QuoteSpan(s[i], s[i + 1..]);
    QuoteAt(ctx, s, i, SimpleParam, tmp, true, lead, st);
    SpanJoins(s, i, n, text);
    DummyEndSkipsQuote(s, i, Switch(ctx, s, NextChars(s, i, SimpleParam), tmp, true, lead, st).value.next);
  }

  lemma DummyEndSkipsQuote(s: string, i: nat, j: nat)
    requires i < |s| && IsQuote(s[i])
    requires j == i + 1 + QuoteSpan(s[i], s[i + 1..]).1
    ensures DummyEnd(s, i) == DummyEnd(s, j)
  {
    assert !IsSimpleStop(s[i]);
  }

  lemma BracketStep(ctx: Ctx, s: string, tmp: TempScope, i: nat, lead: int, st: State)
    requires i < |s| && IsOpenBracket(s[i])
    ensures var nx := NextChars(s, i, SimpleParam);
            var r := Switch(ctx, s, nx, tmp, true, lead, st);
            && r.Ok? && r.value.st == st && !r.value.trim
            && i < r.value.next <= |s|
            && s[..r.value.next] == s[..i] + r.value.chunk
            && DummyEnd(s, i) == DummyEnd(s, r.value.next)
  {
    var (text, n) := BracketSpan(s[i], s[i + 1..]);
    BracketAt(ctx, s, i, SimpleParam, tmp, lead, st);
    SpanJoins(s, i, n, text);
    DummyEndSkipsBracket(s, i, Switch(ctx, s, NextChars(s, i, SimpleParam), tmp, true, lead, st).value.next);
  }

  lemma DummyEndSkipsBracket(s: string, i: nat, j: nat)
    requires i < |s| && IsOpenBracket(s[i])
    requires j == i + 1 + BracketSpan(s[i], s[i + 1..]).1
    ensures DummyEnd(s, i) == DummyEnd(s, j)
  {
    assert !IsSimpleStop(s[i]);
  }

  // A round of the dummy scan appends its chunk and carries on from where
  // it stopped.
  lemma DummyLoopAdvances(ctx: Ctx, s: string, tmp: TempScope, q: seq<string>, i: nat, lead: int, st: State, step: Step)
    requires i < |s| && !IsSimpleStop(s[i])
    requires Switch(ctx, s, NextChars(s, i, SimpleParam), tmp, true, lead, st) == Ok(step) && !step.trim
    ensures ParseLoop(ctx, s, SimpleParam, tmp, true, q, i, lead, st)
            == ParseLoop(ctx, s, SimpleParam, tmp, true, q + [step.chunk], step.next,
                         UpdateBlankLineAsWritten(ctx.nl, lead, step.chunk), step.st)
  {
    assert !StartsWithEop(s, i, SimpleParam);
  }

  lemma {:induction false} DummyLoop(ctx: Ctx, s: string, tmp: TempScope, q: seq<string>, i: nat, lead: int, st: State)
    requires i <= |s| && Concat(q) == s[..i]
    ensures ParseLoop(ctx, s, SimpleParam, tmp, true, q, i, lead, st).Ok?
    ensures var r := ParseLoop(ctx, s, SimpleParam, tmp, true, q, i, lead, st).value;
            r.text == s[..DummyEnd(s, i)] && r.consumed == DummyEnd(s, i) && r.st == st
    decreases |s| - i
  {
    if i < |s| && !StartsWithEop(s, i, SimpleParam) {
      DummyStep(ctx, s, tmp, i, lead, st);
      var step := Switch(ctx, s, NextChars(s, i, SimpleParam), tmp, true, lead, st).value;
      var lead' := UpdateBlankLineAsWritten(ctx.nl, lead, step.chunk);
      DummyLoopAdvances(ctx, s, tmp, q, i, lead, st, step);
      ConcatSnoc(q, step.chunk);
      DummyLoop(ctx, s, tmp, q + [step.chunk], step.next, lead', st);
    } else {
      assert DummyEnd(s, i) == i;
    }
  }

  // The sub-scan behind a parameter or direct comment returns exactly the
  // dummy literal, consumes exactly it, and leaves the state alone.
  lemma DummyValueIsLiteral(ctx: Ctx, after: string, counter: nat)
    ensures DummyValue(ctx, after, counter).Ok?
    ensures DummyValue(ctx, after, counter).value.text == DummyLiteral(after)
    ensures DummyValue(ctx, after, counter).value.consumed == |DummyLiteral(after)|
    ensures DummyValue(ctx, after, counter).value.st == State(map[], counter)
  {
    DummyLoop(ctx.(deleteComment := false), after, Binds(map[]), [], 0, 0, State(map[], counter));
  }
}
