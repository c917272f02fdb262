// What each directive comment expands to: the placeholder of a parameter
// comment, the value of a direct comment, and the in-order bodies of a for
// loop (the nothing an empty one emits); and that a dummy pass records
// nothing.
module Directives {
  import opened Wrappers
  import opened Enums
  import opened Values
  import opened TempParams
  import opened Engine
  import opened DummyScan
  import opened ParamsInvariant

  // `name` is a loop variable of the scope.
  predicate IsLoopVar(tmp: TempScope, name: string)
  {
    tmp.Binds? && name in tmp.vars
  }

  // A parameter comment and its dummy literal become one placeholder: the
  // generated name of a loop variable, recorded with the variable's value,
  // or the name itself, recording nothing.
  lemma ParamCommentSpec(ctx: Ctx, name: string, len: nat, after: string, tmp: TempScope, st: State)
    ensures var r := ParamComment(ctx, name, len, after, tmp, st);
            && r.Ok?
            && r.value.consumed == len + |DummyLiteral(after)|
            && !r.value.isComment && !r.value.trim
            && r.value.st.counter == st.counter
            && (IsLoopVar(tmp, name) ==>
                  && r.value.text == Format(ctx.style, tmp.vars[name].tmpName)
                  && r.value.st.params == st.params[tmp.vars[name].tmpName := tmp.vars[name].value])
            && (!IsLoopVar(tmp, name) ==>
                  r.value.text == Format(ctx.style, name) && r.value.st.params == st.params)
  {
    DummyValueIsLiteral(ctx, after, st.counter);
  }

  // A direct comment and its dummy literal become the text of the name's
  // value in the merged scope, or `None` when it has none; nothing is
  // recorded.
  lemma DirectCommentSpec(ctx: Ctx, name: string, len: nat, after: string, tmp: TempScope, st: State)
    ensures var r := DirectComment(ctx, name, len, after, tmp, st);
            && r.Ok?
            && r.value.consumed == len + |DummyLiteral(after)|
            && !r.value.isComment && !r.value.trim
            && r.value.st == st
            && r.value.text == (if name in Merge(st.params, tmp) then Show(Merge(st.params, tmp)[name]) else "None")
  {
    DummyValueIsLiteral(ctx, after, st.counter);
  }

  // A dummy pass records nothing in the parameter mapping.
  lemma DummyPassRecordsNothing(ctx: Ctx, after: string, lead: int, st: State)
    ensures var r := ForIfBody(ctx, after, Dummy, lead, st);
            r.Ok? ==> r.value.st.params == st.params
  {
    ForIfBodyEffect(ctx, after, Dummy, lead, st, st.counter);
  }

  // One row of a for loop: the body is scanned under the row's bindings and
  // the remaining rows follow, starting from the state the body left.
  lemma ForIterationsStep(ctx: Ctx, after: string, outer: map<string, Binding>, vnames: seq<string>,
                          rows: seq<seq<Value>>, prefix: string, k: nat, lead: int, st: State, acc: string)
    requires RowsFit(rows, |vnames|) && k < |rows|
    ensures var body := ForIfBody(ctx, after, Binds(outer + IterBindings(vnames, rows[k], k, prefix)), lead, st);
            ForIterations(ctx, after, outer, vnames, rows, prefix, k, lead, st, acc)
            == if body.Err? then Err(body.error)
               else ForIterations(ctx, after, outer, vnames, rows, prefix, k + 1, lead, body.value.st,
                                  acc + body.value.text)
  {
  }

  // Whether the iterations from row `k` on succeed does not depend on the
  // text emitted before them, and neither does the state they end in.
  lemma {:induction false} ForIterationsOk(ctx: Ctx, after: string, outer: map<string, Binding>,
                                           vnames: seq<string>, rows: seq<seq<Value>>, prefix: string,
                                           k: nat, lead: int, st: State, acc: string, acc': string)
    requires RowsFit(rows, |vnames|) && k <= |rows|
    ensures var a := ForIterations(ctx, after, outer, vnames, rows, prefix, k, lead, st, acc);
            var b := ForIterations(ctx, after, outer, vnames, rows, prefix, k, lead, st, acc');
            (a.Ok? <==> b.Ok?) && (a.Ok? ==> a.value.1 == b.value.1)
    decreases |rows| - k
  {
    if k < |rows| {
      ForIterationsStep(ctx, after, outer, vnames, rows, prefix, k, lead, st, acc);
      ForIterationsStep(ctx, after, outer, vnames, rows, prefix, k, lead, st, acc');
      var body := ForIfBody(ctx, after, Binds(outer + IterBindings(vnames, rows[k], k, prefix)), lead, st);
      if body.Ok? {
        ForIterationsOk(ctx, after, outer, vnames, rows, prefix, k + 1, lead, body.value.st,
                        acc + body.value.text, acc' + body.value.text);
      }
    }
  }

  // The text already emitted before row `k` is carried through unchanged:
  // the iterations from `k` on append their texts to it and to nothing else.
  lemma {:induction false} ForIterationsAppend(ctx: Ctx, after: string, outer: map<string, Binding>,
                                               vnames: seq<string>, rows: seq<seq<Value>>, prefix: string,
                                               k: nat, lead: int, st: State, acc: string)
    requires RowsFit(rows, |vnames|) && k <= |rows|
    ensures var a := ForIterations(ctx, after, outer, vnames, rows, prefix, k, lead, st, acc);
            var b := ForIterations(ctx, after, outer, vnames, rows, prefix, k, lead, st, "");
            a.Ok? ==> b.Ok? && a.value.0 == acc + b.value.0
    decreases |rows| - k
  {
    ForIterationsOk(ctx, after, outer, vnames, rows, prefix, k, lead, st, acc, "");
    if k < |rows| {
      ForIterationsStep(ctx, after, outer, vnames, rows, prefix, k, lead, st, acc);
      ForIterationsStep(ctx, after, outer, vnames, rows, prefix, k, lead, st, "");
      var body := ForIfBody(ctx, after, Binds(outer + IterBindings(vnames, rows[k], k, prefix)), lead, st);
      if body.Ok? {
        var b := body.value;
        assert "" + b.text == b.text;
        ForIterationsAppend(ctx, after, outer, vnames, rows, prefix, k + 1, lead, b.st, acc + b.text);
        ForIterationsAppend(ctx, after, outer, vnames, rows, prefix, k + 1, lead, b.st, b.text);
        var rest := ForIterations(ctx, after, outer, vnames, rows, prefix, k + 1, lead, b.st, "");
        if rest.Ok? {
          assert (acc + b.text) + rest.value.0 == acc + (b.text + rest.value.0);
        }
      }
    } else {
      assert acc + "" == acc;
    }
  }

  // A run of scans from `k` up to `n`: scan `j` starts from the state scan
  // `j - 1` left, and the first error ends the run.
  function Chain(f: (nat, State) -> Result<Block, Error>, k: nat, n: nat, st: State)
    : (r: Result<(seq<Block>, State), Error>)
    requires k <= n
    ensures r.Ok? ==> |r.value.0| == n - k
    decreases n - k
  {
    if k == n then Ok(([], st))
    else
      var body :- f(k, st);
      var rest :- Chain(f, k + 1, n, body.st);
      Ok(([body] + rest.0, rest.1))
  }

  // Each scan of a successful run is `f` applied to its index and to the
  // state the scan before it left.
  lemma {:induction false} ChainScans(f: (nat, State) -> Result<Block, Error>, k: nat, n: nat, st: State)
    requires k <= n
    ensures var r := Chain(f, k, n, st);
            r.Ok? ==>
              forall j :: 0 <= j < |r.value.0| ==>
                f(k + j, if j == 0 then st else r.value.0[j - 1].st) == Ok(r.value.0[j])
    decreases n - k
  {
    var r := Chain(f, k, n, st);
    if k < n && r.Ok? {
      var body := f(k, st).value;
      var rest := Chain(f, k + 1, n, body.st).value;
      assert r.value == ([body] + rest.0, rest.1);
      ChainScans(f, k + 1, n, body.st);
      var bs := r.value.0;
      forall j | 0 <= j < |bs|
        ensures f(k + j, if j == 0 then st else bs[j - 1].st) == Ok(bs[j])
      {
        if j > 0 {
          assert bs[j] == rest.0[j - 1];
          assert j - 1 == 0 ==> bs[j - 1] == body;
          assert j - 1 > 0 ==> bs[j - 1] == rest.0[j - 2];
          assert k + 1 + (j - 1) == k + j;
        }
      }
    }
  }

  // A successful run ends in the state its last scan left.
  lemma {:induction false} ChainLast(f: (nat, State) -> Result<Block, Error>, k: nat, n: nat, st: State)
    requires k <= n
    ensures var r := Chain(f, k, n, st);
            r.Ok? ==> r.value.1 == if |r.value.0| == 0 then st else r.value.0[|r.value.0| - 1].st
    decreases n - k
  {
    var r := Chain(f, k, n, st);
    if k < n && r.Ok? {
      var body := f(k, st).value;
      var rest := Chain(f, k + 1, n, body.st).value;
      assert r.value == ([body] + rest.0, rest.1);
      ChainLast(f, k + 1, n, body.st);
      if |rest.0| > 0 {
        assert r.value.0[|r.value.0| - 1] == rest.0[|rest.0| - 1];
      }
    }
  }

  // The body scan of each row of a for loop, under that row's bindings.
  function RowScans(ctx: Ctx, after: string, outer: map<string, Binding>, vnames: seq<string>,
                    rows: seq<seq<Value>>, prefix: string, lead: int): (nat, State) -> Result<Block, Error>
    requires RowsFit(rows, |vnames|)
  {
    (k: nat, st: State) =>
      if k < |rows| then ForIfBody(ctx, after, Binds(outer + IterBindings(vnames, rows[k], k, prefix)), lead, st)
      else Err(ForEvalFailed)
  }

  // The bodies' texts, in order.
  function Texts(bodies: seq<Block>): string
  {
    if |bodies| == 0 then "" else bodies[0].text + Texts(bodies[1..])
  }

  // The loop over the rows emits the in-order concatenation of its bodies'
  // texts and ends in the state the last body left.
  lemma {:induction false} ForIterationsIsConcat(ctx: Ctx, after: string, outer: map<string, Binding>,
                                                 vnames: seq<string>, rows: seq<seq<Value>>, prefix: string,
                                                 k: nat, lead: int, st: State)
    requires RowsFit(rows, |vnames|) && k <= |rows|
    ensures var r := ForIterations(ctx, after, outer, vnames, rows, prefix, k, lead, st, "");
            var b := Chain(RowScans(ctx, after, outer, vnames, rows, prefix, lead), k, |rows|, st);
            && (r.Ok? <==> b.Ok?)
            && (r.Ok? ==> r.value == (Texts(b.value.0), b.value.1))
    decreases |rows| - k
  {
    if k < |rows| {
      ForIterationsStep(ctx, after, outer, vnames, rows, prefix, k, lead, st, "");
      var body := ForIfBody(ctx, after, Binds(outer + IterBindings(vnames, rows[k], k, prefix)), lead, st);
      if body.Ok? {
        var b := body.value;
        ForIterationsIsConcat(ctx, after, outer, vnames, rows, prefix, k + 1, lead, b.st);
        ForIterationsOk(ctx, after, outer, vnames, rows, prefix, k + 1, lead, b.st, "" + b.text, "");
        ForIterationsAppend(ctx, after, outer, vnames, rows, prefix, k + 1, lead, b.st, "" + b.text);
        var rest := Chain(RowScans(ctx, after, outer, vnames, rows, prefix, lead), k + 1, |rows|, b.st);
        if rest.Ok? {
          assert ([b] + rest.value.0)[1..] == rest.value.0;
          assert "" + b.text == b.text;
        }
      }
    }
  }

  // A for loop, once its rows are known: the bodies are scanned under fresh
  // temp names of one prefix, their texts are emitted in order, and the
  // closing dummy pass, which records nothing, decides how much text the
  // loop consumes.
  lemma ForRunSpec(ctx: Ctx, after: string, tmp: TempScope, vnames: seq<string>, rows: seq<seq<Value>>,
                   lead: int, st: State)
    requires RowsFit(rows, |vnames|)
    ensures var outer := if tmp.Binds? then tmp.vars else map[];
            var bodies := Chain(RowScans(ctx, after, outer, vnames, rows, Prefix(st.counter), lead), 0, |rows|,
                                State(st.params, st.counter + 1));
            var r := ForRun(ctx, after, tmp, vnames, rows, lead, st);
            && (r.Ok? <==> bodies.Ok? && ForIfBody(ctx, after, Dummy, lead, bodies.value.1).Ok?)
            && (r.Ok? ==>
                  var last := ForIfBody(ctx, after, Dummy, lead, bodies.value.1).value;
                  && r.value == Block(Texts(bodies.value.0), last.consumed, last.trim, last.st)
                  && last.st.params == bodies.value.1.params)
  {
    var outer := if tmp.Binds? then tmp.vars else map[];
    var st1 := State(st.params, st.counter + 1);
    ForIterationsIsConcat(ctx, after, outer, vnames, rows, Prefix(st.counter), 0, lead, st1);
    var bodies := Chain(RowScans(ctx, after, outer, vnames, rows, Prefix(st.counter), lead), 0, |rows|, st1);
    if bodies.Ok? {
      DummyPassRecordsNothing(ctx, after, lead, bodies.value.1);
    }
  }

  // A for comment outside a dummy pass: the statement `comment[3:-2]` is
  // evaluated in the merged scope; its rows, when there are any that fit the
  // loop variables, drive the loop, and a failed evaluation fails the comment.
  lemma ForCommentSpec(ctx: Ctx, comment: string, after: string, tmp: TempScope, lead: int, st: State)
    requires |comment| >= 15 && tmp.Binds?
    ensures var vnames := ForVarNames(comment);
            var ev := ctx.oracle.rows(vnames, comment[3..|comment| - 2], Merge(st.params, tmp));
            var r := ForComment(ctx, comment, after, tmp, lead, st);
            && (!(ev.Ok? && RowsFit(ev.value, |vnames|)) ==> r == Err(ForEvalFailed))
            && (ev.Ok? && RowsFit(ev.value, |vnames|) ==> r == ForRun(ctx, after, tmp, vnames, ev.value, lead, st))
  {
  }

  // A for loop over no rows emits nothing and records nothing, but still
  // draws a prefix and consumes its body through the dummy pass.
  lemma ForEmptyEmitsNothing(ctx: Ctx, after: string, tmp: TempScope, vnames: seq<string>, lead: int, st: State)
    ensures var r := ForRun(ctx, after, tmp, vnames, [], lead, st);
            var last := ForIfBody(ctx, after, Dummy, lead, State(st.params, st.counter + 1));
            && (r.Ok? <==> last.Ok?)
            && (r.Ok? ==>
                  && r.value.text == ""
                  && r.value.consumed == last.value.consumed
                  && r.value.st.params == st.params
                  && r.value.st.counter >= st.counter + 1)
  {
    var st1 := State(st.params, st.counter + 1);
    var outer := if tmp.Binds? then tmp.vars else map[];
    assert ForIterations(ctx, after, outer, vnames, [], Prefix(st.counter), 0, lead, st1, "") == Ok(("", st1));
    DummyPassRecordsNothing(ctx, after, lead, st1);
    ForIfBodyEffect(ctx, after, Dummy, lead, st1, st1.counter);
  }
}
