// The two-way-SQL expansion engine: `parse_sql` and the mutually recursive
// scanner behind it (`_parse`, `_parse_switch_by_char`,
// `_multi_line_comment` and the parameter, direct, if and for evaluators).
//
// The mutable `qparams` dict and the global `uuid4` source are threaded
// through every call as a `State`; the configuration the source keeps in
// arguments and in the global `NEWLINE_CHAR` is a `Ctx`.
module Engine {
  import opened Wrappers
  import opened Text
  import opened Enums
  import opened Values
  import opened TempParams
  import opened Readers

  // The ways an expansion fails.
  datatype Error =
    | UnsupportedStyle      // `_validate_paramstyle` (E0009)
    | UnterminatedComment   // `_check_comment_type` found no pattern: unpacking its `None` fails
    | IfUndefinedName       // the if statement raised `NameError` (E0005)
    | IfEvalFailed          // the if statement raised anything else (not caught), or gave a non-bool (E0006)
    | ForEvalFailed         // the for statement raised (E0008)

  // `delete_comment`, the placeholder format, `NEWLINE_CHAR`, and `eval`.
  datatype Ctx = Ctx(deleteComment: bool, style: Style, nl: Newline, oracle: Oracle)

  // The parameter mapping the scan enriches, and the next prefix number.
  datatype State = State(params: map<string, Value>, counter: nat)

  // What `_parse` returns: the text, the trailing-space count, the index
  // it stopped at (which may pass the end by one newline).
  datatype Scan = Scan(text: string, lead: int, consumed: nat, st: State)

  // One round of `_parse`'s loop: the chunk to append, the new index, and
  // whether the spaces already emitted must be trimmed first.
  datatype Step = Step(chunk: string, next: nat, trim: bool, st: State)

  // What `_multi_line_comment` returns.
  datatype Piece = Piece(text: string, consumed: nat, isComment: bool, trim: bool, st: State)

  // What `_get_str_in_forif` and the for evaluator return.
  datatype Block = Block(text: string, consumed: nat, trim: bool, st: State)

  // What `_update_qparams_if_exist_tmp` returns, with the mapping it updates.
  datatype Bound = Bound(bindName: string, valueText: string, params: map<string, Value>)

  // `_update_qparams_if_exist_tmp`: resolve a parameter name. A loop
  // variable is bound under its generated name, which is added to the
  // mapping; in a dummy pass the name is kept and nothing is recorded.
  function UpdateIfTemp(name: string, params: map<string, Value>, tmp: TempScope, style: Style): (r: Bound)
    ensures tmp.Dummy? ==> r.params == params && r.bindName == Format(style, name) && r.valueText == ""
    ensures tmp.Binds? && name in tmp.vars ==>
              && r.params.Keys == params.Keys + {tmp.vars[name].tmpName}
              && r.params[tmp.vars[name].tmpName] == tmp.vars[name].value
              && (forall k :: k in params && k != tmp.vars[name].tmpName ==> r.params[k] == params[k])
              && r.bindName == Format(style, tmp.vars[name].tmpName)
    ensures tmp.Binds? && name !in tmp.vars ==>
              && r.params == params
              && r.bindName == Format(style, name)
              && r.valueText == (if name in params then Show(params[name]) else "None")
  {
    match tmp
    case Dummy => Bound(Format(style, name), "", params)
    case Binds(vars) =>
      if name in vars then
        var b := vars[name];
        Bound(Format(style, b.tmpName), Show(b.value), params[b.tmpName := b.value])
      else
        Bound(Format(style, name), if name in params then Show(params[name]) else "None", params)
  }

  // `_parse`: scan `s` from the start until its end or an end-of-parse token.
  function Parse(ctx: Ctx, s: string, eop: Eop, tmp: TempScope, afterParam: bool, lead: int, st: State)
    : Result<Scan, Error>
    decreases |s|, 3, 0
  {
    ParseLoop(ctx, s, eop, tmp, afterParam, [], 0, lead, st)
  }

  // The loop of `_parse`, with the chunks `q` emitted so far and index `i`.
  function ParseLoop(ctx: Ctx, s: string, eop: Eop, tmp: TempScope, afterParam: bool,
                     q: seq<string>, i: nat, lead: int, st: State): Result<Scan, Error>
    decreases |s|, 2, |s| - i
  {
    if i < |s| && !StartsWithEop(s, i, eop) then
      var nx := NextChars(s, i, eop);
      var step :- Switch(ctx, s, nx, tmp, afterParam, lead, st);
      var q' := if step.trim then DeleteLastSpace(q) else q;
      ParseLoop(ctx, s, eop, tmp, afterParam, q' + [step.chunk], step.next,
                UpdateBlankLineAsWritten(ctx.nl, lead, step.chunk), step.st)
    else
      Ok(Scan(Concat(q), lead, i, st))
  }

  // The facts about `_next_chars`' result that the dispatch relies on.
  predicate NextFits(s: string, nx: Next)
  {
    && 1 <= nx.i1 <= |s|
    && (nx.pair == "--" ==> StartsAt(s, nx.i1 - 1, "--"))
    && (nx.pair == "/*" ==> StartsAt(s, nx.i1 - 1, "/*"))
  }

  // `_parse_switch_by_char` (with `_nextstring` and the comment wrappers
  // that blank a comment when comments are deleted).
  function Switch(ctx: Ctx, s: string, nx: Next, tmp: TempScope, afterParam: bool, lead: int, st: State)
    : (r: Result<Step, Error>)
    requires NextFits(s, nx)
    ensures r.Ok? ==> r.value.next >= nx.i1
    decreases |s|, 1, 2
  {
    var c := nx.chunk;
    var i := nx.i1;
    // `c in ("'", '"', '(', '[', '{')`, split by `_nextstring`
    if |c| == 1 && IsQuote(c[0]) then
      var (text, n) := QuoteSpan(c[0], s[i..]);
      Ok(Step(text, i + n, false, st))
    else if |c| == 1 && IsOpenBracket(c[0]) then
      if afterParam then
        var (text, n) := BracketSpan(c[0], s[i..]);
        Ok(Step(text, i + n, false, st))
      else
        Ok(Step(c, i, false, st))
    else if nx.pair == "--" then
      var (text, n) := SingleLine(ctx.nl, s[i - 1..]);
      Ok(Step(if ctx.deleteComment then "" else text, i + n - 1, false, st))
    else if nx.pair == "/*" then
      BlockStep(ctx, s[i - 1..], i - 1, tmp, lead, st)
    else
      Ok(Step(c, i, false, st))
  }

  // `_get_multi_line_comment`'s wrapper: evaluate the block comment at the
  // start of `t`, which sits at `base` of the text being scanned, and blank
  // an ordinary comment when comments are deleted.
  function BlockStep(ctx: Ctx, t: string, base: nat, tmp: TempScope, lead: int, st: State)
    : (r: Result<Step, Error>)
    requires StartsAt(t, 0, "/*")
    ensures r.Ok? ==> r.value.next >= base + 4
    decreases |t|, 1, 1
  {
    var p :- MultiLine(ctx, t, tmp, lead, st);
    Ok(Step(if p.isComment && ctx.deleteComment then "" else p.text, base + p.consumed, p.trim, p.st))
  }

  // `_multi_line_comment`: classify the comment at the start of `t` and
  // evaluate it.
  function MultiLine(ctx: Ctx, t: string, tmp: TempScope, lead: int, st: State): (r: Result<Piece, Error>)
    requires StartsAt(t, 0, "/*")
    ensures r.Ok? ==> r.value.consumed >= 4
    decreases |t|, 1, 0
  {
    match Classify(t)
    case None => Err(UnterminatedComment)
    case Some((kind, len)) => Evaluate(ctx, t, kind, len, tmp, lead, st)
  }

  // The evaluator `_multi_line_comment` picks for a comment of kind `kind`
  // spanning the first `len` characters of `t`.
  function Evaluate(ctx: Ctx, t: string, kind: Kind, len: nat, tmp: TempScope, lead: int, st: State)
    : (r: Result<Piece, Error>)
    requires 4 <= len <= |t|
    requires kind == Param || kind == Direct ==> len >= 5
    requires kind == If ==> len >= 9
    requires kind == For ==> len >= 15
    ensures r.Ok? ==> r.value.consumed >= len
    decreases |t|, 0, 0
  {
    var comment := t[..len];
    var after := t[len..];
    match kind
    case Param => ParamComment(ctx, comment[3..len - 2], len, after, tmp, st)
    case Direct => DirectComment(ctx, comment[3..len - 2], len, after, tmp, st)
    case If => IfComment(ctx, comment[3..len - 2], len, after, tmp, lead, st)
    case For =>
      var block :- ForComment(ctx, comment, after, tmp, lead, st);
      Ok(Piece(block.text, len + block.consumed, false, block.trim, block.st))
    case Normal =>
      Ok(Piece(comment, len, true, false, st))
  }

  // `_parse_param_comment`: the comment of length `len` naming `name` is
  // replaced by a placeholder, and the dummy literal after it is consumed.
  function ParamComment(ctx: Ctx, name: string, len: nat, after: string, tmp: TempScope, st: State)
    : (r: Result<Piece, Error>)
    ensures r.Ok? ==> r.value.consumed >= len
    decreases |after|, 3, 2
  {
    var b := UpdateIfTemp(name, st.params, tmp, ctx.style);
    var dummy :- DummyValue(ctx, after, st.counter);
    Ok(Piece(b.bindName, len + |dummy.text|, false, false, State(b.params, dummy.st.counter)))
  }

  // `_parse_direct_comment`: the value of `name`, resolved in the merged
  // scope and never recorded, replaces the comment and its dummy literal.
  function DirectComment(ctx: Ctx, name: string, len: nat, after: string, tmp: TempScope, st: State)
    : (r: Result<Piece, Error>)
    ensures r.Ok? ==> r.value.consumed >= len
    decreases |after|, 3, 2
  {
    var b := UpdateIfTemp(name, Merge(st.params, tmp), Binds(map[]), ctx.style);
    var dummy :- DummyValue(ctx, after, st.counter);
    Ok(Piece(b.valueText, len + |dummy.text|, false, false, State(st.params, dummy.st.counter)))
  }

  // `_parse_if_comment`: the body is scanned before the condition is
  // evaluated, and kept only when the condition holds.
  function IfComment(ctx: Ctx, statement: string, len: nat, after: string, tmp: TempScope, lead: int, st: State)
    : (r: Result<Piece, Error>)
    ensures r.Ok? ==> r.value.consumed >= len
    decreases |after|, 4, 1
  {
    var body :- ForIfBody(ctx, after, tmp, lead, st);
    IfKeep(ctx, statement, len, tmp, body)
  }

  // The rest of `_parse_if_comment` once its body is scanned: the condition
  // is evaluated against the mapping as the body left it; the body is kept
  // when the condition holds and dropped when it does not, a dummy pass
  // always keeps it, what the body recorded stays recorded either way, and a
  // condition that cannot be evaluated fails the comment, an undefined name
  // apart from any other failure.
  function IfKeep(ctx: Ctx, statement: string, len: nat, tmp: TempScope, body: Block): (r: Result<Piece, Error>)
    ensures r.Ok? ==> r.value.consumed == len + body.consumed && r.value.st == body.st
    ensures tmp.Dummy? ==> r == Ok(Piece(body.text, len + body.consumed, false, body.trim, body.st))
    ensures tmp.Binds? ==>
              var truth := ctx.oracle.truth(statement, Merge(body.st.params, tmp));
              && (truth == Ok(true) ==> r == Ok(Piece(body.text, len + body.consumed, false, body.trim, body.st)))
              && (truth == Ok(false) ==> r == Ok(Piece("", len + body.consumed, false, body.trim, body.st)))
              && (truth == Err(NameError) ==> r == Err(IfUndefinedName))
              && (truth == Err(OtherError) ==> r == Err(IfEvalFailed))
  {
    var isTrue :- IfTruth(ctx, statement, body.st.params, tmp);
    Ok(Piece(if isTrue then body.text else "", len + body.consumed, false, body.trim, body.st))
  }

  // The dummy-literal scan of `_parse_simple_comment`: a fresh, empty
  // mapping, comments kept, stopping at the first `_EOP_SIMPLE_PARAM`
  // character, brackets captured.
  function DummyValue(ctx: Ctx, after: string, counter: nat): Result<Scan, Error>
    decreases |after|, 3, 1
  {
    Parse(ctx.(deleteComment := false), after, SimpleParam, Binds(map[]), true, 0, State(map[], counter))
  }

  // `_execute_if_statement`: always true in a dummy pass.
  function IfTruth(ctx: Ctx, statement: string, params: map<string, Value>, tmp: TempScope)
    : (r: Result<bool, Error>)
    ensures tmp.Dummy? ==> r == Ok(true)
  {
    if tmp.Dummy? then Ok(true)
    else
      match ctx.oracle.truth(statement, Merge(params, tmp))
      case Ok(b) => Ok(b)
      case Err(NameError) => Err(IfUndefinedName)
      case Err(OtherError) => Err(IfEvalFailed)
  }

  // `_get_str_in_forif`: the text of an if or for body up to its `/*end*/`.
  function ForIfBody(ctx: Ctx, after: string, tmp: TempScope, lead: int, st: State): Result<Block, Error>
    decreases |after|, 4, 0
  {
    var (nextq, skipped, trim) := NxtqInForIf(ctx.nl, after, lead);
    var lead2 := if after == nextq then -1 else 0;
    var body :- Parse(ctx, nextq, EndMark, tmp, false, lead2, st);
    var (out, addi) := EndInForIf(ctx.nl, body.text, Drop(nextq, body.consumed));
    Ok(Block(out, skipped + body.consumed + addi, trim, body.st))
  }

  // The loop variables of `/*%for <vars> in <expr>*/`:
  // `[v.strip() for v in comment[7:-2].split(' in ')[0].split(',')]`.
  function ForVarNames(comment: string): (r: seq<string>)
    requires |comment| >= 9
    ensures |r| >= 1
  {
    var pieces := SplitChar(BeforeSub(comment[7..|comment| - 2], " in "), ',');
    seq(|pieces|, k requires 0 <= k < |pieces| => PyStrip(pieces[k]))
  }

  predicate RowsFit(rows: seq<seq<Value>>, width: nat)
  {
    forall k :: 0 <= k < |rows| ==> |rows[k]| == width
  }

  // The evaluation at the head of `_get_for_variable_names`: the loop
  // variables and one row of values per iteration. In a dummy pass the
  // statement becomes `for <vars> in []`, so it is still checked but yields
  // no rows.
  function ForRows(ctx: Ctx, comment: string, tmp: TempScope, params: map<string, Value>)
    : (r: Result<(seq<string>, seq<seq<Value>>), Error>)
    requires |comment| >= 15
    ensures r.Ok? ==> r.value.0 == ForVarNames(comment) && RowsFit(r.value.1, |r.value.0|)
    ensures r.Err? ==> r.error == ForEvalFailed
    ensures tmp.Binds? ==>
              var ev := ctx.oracle.rows(ForVarNames(comment), comment[3..|comment| - 2], Merge(params, tmp));
              && (r.Ok? <==> ev.Ok? && RowsFit(ev.value, |ForVarNames(comment)|))
              && (r.Ok? ==> r.value.1 == ev.value)
    ensures tmp.Dummy? ==>
              var vnames := ForVarNames(comment);
              && (r.Ok? <==> ctx.oracle.rows(vnames, "for " + Join(vnames, ",") + " in []", params).Ok?)
              && (r.Ok? ==> r.value.1 == [])
  {
    var vnames := ForVarNames(comment);
    var statement :=
      if tmp.Dummy? then "for " + Join(vnames, ",") + " in []" else comment[3..|comment| - 2];
    match ctx.oracle.rows(vnames, statement, Merge(params, tmp))
    case Err(_) => Err(ForEvalFailed)
    case Ok(evaluated) =>
      var rows := if tmp.Dummy? then [] else evaluated;
      if RowsFit(rows, |vnames|) then Ok((vnames, rows)) else Err(ForEvalFailed)
  }

  // `_parse_for_comment`: one body scan per row, each under fresh temp
  // names, then the dummy pass whose only use is the consumed length and
  // the trim flag. Every evaluation draws one prefix, even when it yields
  // no rows.
  function ForComment(ctx: Ctx, comment: string, after: string, tmp: TempScope, lead: int, st: State)
    : Result<Block, Error>
    requires |comment| >= 15
    decreases |after|, 6, 1
  {
    var (vnames, rows) :- ForRows(ctx, comment, tmp, st.params);
    ForRun(ctx, after, tmp, vnames, rows, lead, st)
  }

  // The body of `_parse_for_comment` once the rows are known: one pass per
  // row under a fresh temp-name prefix, then a dummy pass whose consumed
  // length and trim flag are the block's.
  function ForRun(ctx: Ctx, after: string, tmp: TempScope, vnames: seq<string>, rows: seq<seq<Value>>,
                  lead: int, st: State): Result<Block, Error>
    requires RowsFit(rows, |vnames|)
    decreases |after|, 6, 0
  {
    var outer := if tmp.Binds? then tmp.vars else map[];
    var iterations :- ForIterations(ctx, after, outer, vnames, rows, Prefix(st.counter), 0, lead,
                                    State(st.params, st.counter + 1), "");
    var last :- ForIfBody(ctx, after, Dummy, lead, iterations.1);
    Ok(Block(iterations.0, last.consumed, last.trim, last.st))
  }

  // The iterations of `_parse_for_comment`, from row `k` on, appending each
  // body's text to `acc`.
  function ForIterations(ctx: Ctx, after: string, outer: map<string, Binding>, vnames: seq<string>,
                         rows: seq<seq<Value>>, prefix: string, k: nat, lead: int, st: State, acc: string)
    : Result<(string, State), Error>
    requires RowsFit(rows, |vnames|)
    requires k <= |rows|
    decreases |after|, 5, |rows| - k
  {
    if k == |rows| then Ok((acc, st))
    else
      var scope := Binds(outer + IterBindings(vnames, rows[k], k, prefix));
      var body :- ForIfBody(ctx, after, scope, lead, st);
      ForIterations(ctx, after, outer, vnames, rows, prefix, k + 1, lead, body.st, acc + body.text)
  }

  // The `paramstyle` argument: omitted, a `ParamStyle` member, or some other
  // object (which `paramstyle or ParamStyle.NAMED` replaces when it is falsy).
  datatype StyleArg = Default | Given(style: Style) | Foreign(truthy: bool)

  // `paramstyle or ParamStyle.NAMED`, then `_validate_paramstyle`.
  function ValidateStyle(arg: StyleArg): (r: Result<Style, Error>)
    ensures r.Err? <==> arg == Foreign(true)
    ensures r.Err? ==> r.error == UnsupportedStyle
    ensures r.Ok? && arg.Given? ==> r.value == arg.style
    ensures r.Ok? && !arg.Given? ==> r.value == Named
  {
    match arg
    case Default => Ok(Named)
    case Given(style) => Ok(style)
    case Foreign(truthy) => if truthy then Err(UnsupportedStyle) else Ok(Named)
  }

  // `parse_sql`: expand `sql` with `params` (an absent mapping is the empty
  // one), drawing for-loop prefixes from `seed` on. Returns the SQL and the
  // enriched mapping.
  function ParseSql(sql: string, params: map<string, Value>, deleteComment: bool, nl: Newline,
                    style: StyleArg, oracle: Oracle, seed: nat): Result<(string, map<string, Value>), Error>
  {
    var pstyle :- ValidateStyle(style);
    var scan :- Parse(Ctx(deleteComment, pstyle, nl, oracle), sql, NoEop, Binds(map[]), false, 0, State(params, seed));
    Ok((scan.text, scan.st.params))
  }

  // `paramstyle or ParamStyle.NAMED`: leaving the style out, or passing a
  // falsy object, expands exactly as NAMED does, and a truthy foreign object
  // is rejected before anything is scanned.
  lemma StyleArgument(sql: string, params: map<string, Value>, deleteComment: bool, nl: Newline,
                      oracle: Oracle, seed: nat)
    ensures ParseSql(sql, params, deleteComment, nl, Default, oracle, seed)
            == ParseSql(sql, params, deleteComment, nl, Given(Named), oracle, seed)
    ensures ParseSql(sql, params, deleteComment, nl, Foreign(false), oracle, seed)
            == ParseSql(sql, params, deleteComment, nl, Given(Named), oracle, seed)
    ensures ParseSql(sql, params, deleteComment, nl, Foreign(true), oracle, seed) == Err(UnsupportedStyle)
  {
  }
}
