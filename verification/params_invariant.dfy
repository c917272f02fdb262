// What an expansion may do to the parameter mapping: keys are only ever
// added, never removed; a key that is not a generated temp name keeps its
// value; every added key is a temp name drawn during the expansion; and a
// dummy pass changes nothing at all.
module ParamsInvariant {
  import opened Wrappers
  import opened Text
  import opened Enums
  import opened Values
  import opened TempParams
  import opened Readers
  import opened Engine
  import opened DummyScan

  // `k` is a temp name whose prefix number lies in `[lo, hi)`.
  predicate InRange(k: string, lo: nat, hi: nat)
  {
    DecodeTmpName(k).Some? && lo <= DecodeTmpName(k).value.prefix < hi
  }

  // Every loop variable in scope is bound under a name drawn from `[lo, hi)`.
  predicate ScopeIn(tmp: TempScope, lo: nat, hi: nat)
  {
    tmp.Binds? ==> forall v :: v in tmp.vars ==> InRange(tmp.vars[v].tmpName, lo, hi)
  }

  // `b` is reachable from `a` by scanning with prefixes drawn from `lo` on.
  predicate Grows(a: State, b: State, lo: nat)
  {
    && a.counter <= b.counter
    && a.params.Keys <= b.params.Keys
    && (forall k :: k in b.params && k !in a.params ==> InRange(k, lo, b.counter))
    && (forall k :: k in b.params && DecodeTmpName(k).None? ==> k in a.params && b.params[k] == a.params[k])
    && (forall k :: k in a.params && !InRange(k, lo, b.counter) ==> b.params[k] == a.params[k])
  }

  // What a scan under `tmp` does to the state.
  predicate Effect(tmp: TempScope, a: State, b: State, lo: nat)
  {
    Grows(a, b, lo) && (tmp.Dummy? ==> b.params == a.params)
  }

  lemma GrowsTrans(a: State, b: State, c: State, lo: nat)
    requires Grows(a, b, lo) && Grows(b, c, lo)
    ensures Grows(a, c, lo)
  {
    forall k | k in c.params && k !in a.params ensures InRange(k, lo, c.counter) {
      if k in b.params {
        assert InRange(k, lo, b.counter);
      }
    }
    forall k | k in a.params && !InRange(k, lo, c.counter) ensures c.params[k] == a.params[k] {
      assert !InRange(k, lo, b.counter);
    }
  }

  lemma ScopeWiden(tmp: TempScope, lo: nat, hi: nat, hi': nat)
    requires ScopeIn(tmp, lo, hi) && hi <= hi'
    ensures ScopeIn(tmp, lo, hi')
  {
  }

  lemma EffectTrans(tmp: TempScope, a: State, b: State, c: State, lo: nat)
    requires Effect(tmp, a, b, lo) && Effect(tmp, b, c, lo)
    ensures Effect(tmp, a, c, lo)
  {
    GrowsTrans(a, b, c, lo);
  }

  lemma {:induction false} LoopEffect(ctx: Ctx, s: string, eop: Eop, tmp: TempScope, afterParam: bool,
                                      q: seq<string>, i: nat, lead: int, st: State, lo: nat)
    requires lo <= st.counter && ScopeIn(tmp, lo, st.counter)
    ensures var r := ParseLoop(ctx, s, eop, tmp, afterParam, q, i, lead, st);
            r.Ok? ==> Effect(tmp, st, r.value.st, lo)
    decreases |s|, 2, |s| - i, 1
  {
    if i < |s| && !StartsWithEop(s, i, eop) {
      var nx := NextChars(s, i, eop);
      var r := Switch(ctx, s, nx, tmp, afterParam, lead, st);
      SwitchEffect(ctx, s, nx, tmp, afterParam, lead, st, lo);
      if r.Ok? {
        LoopStepEffect(ctx, s, eop, tmp, afterParam, q, i, lead, st, lo, r.value);
      }
    }
  }

  // The rest of the loop after one successful round.
  lemma {:induction false} LoopStepEffect(ctx: Ctx, s: string, eop: Eop, tmp: TempScope, afterParam: bool,
                                          q: seq<string>, i: nat, lead: int, st: State, lo: nat, step: Step)
    requires i < |s| && !StartsWithEop(s, i, eop)
    requires Switch(ctx, s, NextChars(s, i, eop), tmp, afterParam, lead, st) == Ok(step)
    requires lo <= st.counter && ScopeIn(tmp, lo, st.counter) && Effect(tmp, st, step.st, lo)
    ensures var r := ParseLoop(ctx, s, eop, tmp, afterParam, q, i, lead, st);
            r.Ok? ==> Effect(tmp, st, r.value.st, lo)
    decreases |s|, 2, |s| - i, 0
  {
    var q' := if step.trim then DeleteLastSpace(q) else q;
    var lead' := UpdateBlankLineAsWritten(ctx.nl, lead, step.chunk);
    ScopeWiden(tmp, lo, st.counter, step.st.counter);
    LoopEffect(ctx, s, eop, tmp, afterParam, q' + [step.chunk], step.next, lead', step.st, lo);
    var rest := ParseLoop(ctx, s, eop, tmp, afterParam, q' + [step.chunk], step.next, lead', step.st);
    assert ParseLoop(ctx, s, eop, tmp, afterParam, q, i, lead, st) == rest;
    if rest.Ok? {
      EffectTrans(tmp, st, step.st, rest.value.st, lo);
    }
  }

  lemma {:induction false} SwitchEffect(ctx: Ctx, s: string, nx: Next, tmp: TempScope, afterParam: bool,
                                        lead: int, st: State, lo: nat)
    requires NextFits(s, nx)
    requires lo <= st.counter && ScopeIn(tmp, lo, st.counter)
    ensures var r := Switch(ctx, s, nx, tmp, afterParam, lead, st);
            r.Ok? ==> Effect(tmp, st, r.value.st, lo)
    decreases |s|, 1, 3
  {
    var c := nx.chunk;
    var i := nx.i1;
    if |c| == 1 && IsQuote(c[0]) {
    } else if |c| == 1 && IsOpenBracket(c[0]) {
    } else if nx.pair == "--" {
    } else if nx.pair == "/*" {
      StartsAtSuffix(s, i - 1, "/*");
      assert Switch(ctx, s, nx, tmp, afterParam, lead, st) == BlockStep(ctx, s[i - 1..], i - 1, tmp, lead, st);
      BlockStepEffect(ctx, s[i - 1..], i - 1, tmp, lead, st, lo);
    }
  }

  lemma {:induction false} BlockStepEffect(ctx: Ctx, t: string, base: nat, tmp: TempScope, lead: int,
                                           st: State, lo: nat)
    requires StartsAt(t, 0, "/*")
    requires lo <= st.counter && ScopeIn(tmp, lo, st.counter)
    ensures var r := BlockStep(ctx, t, base, tmp, lead, st);
            r.Ok? ==> Effect(tmp, st, r.value.st, lo)
    decreases |t|, 1, 2
  {
    MultiLineEffect(ctx, t, tmp, lead, st, lo);
  }

  lemma {:induction false} MultiLineEffect(ctx: Ctx, t: string, tmp: TempScope, lead: int, st: State, lo: nat)
    requires StartsAt(t, 0, "/*")
    requires lo <= st.counter && ScopeIn(tmp, lo, st.counter)
    ensures var r := MultiLine(ctx, t, tmp, lead, st);
            r.Ok? ==> Effect(tmp, st, r.value.st, lo)
    decreases |t|, 1, 1
  {
    if Classify(t).Some? {
      var (kind, len) := Classify(t).value;
      assert MultiLine(ctx, t, tmp, lead, st) == Evaluate(ctx, t, kind, len, tmp, lead, st);
      EvaluateEffect(ctx, t, kind, len, tmp, lead, st, lo);
    }
  }

  lemma {:induction false} EvaluateEffect(ctx: Ctx, t: string, kind: Kind, len: nat, tmp: TempScope, lead: int,
                                          st: State, lo: nat)
    requires 4 <= len <= |t|
    requires kind == Param || kind == Direct ==> len >= 5
    requires kind == If ==> len >= 9
    requires kind == For ==> len >= 15
    requires lo <= st.counter && ScopeIn(tmp, lo, st.counter)
    ensures var r := Evaluate(ctx, t, kind, len, tmp, lead, st);
            r.Ok? ==> Effect(tmp, st, r.value.st, lo)
    decreases |t|, 1, 0
  {
    match kind
    case Param => ParamEffect(ctx, t[..len][3..len - 2], len, t[len..], tmp, st, lo);
    case Direct => DirectEffect(ctx, t[..len][3..len - 2], len, t[len..], tmp, st, lo);
    case If => IfEffect(ctx, t[..len][3..len - 2], len, t[len..], tmp, lead, st, lo);
    case For => ForCommentEffect(ctx, t[..len], t[len..], tmp, lead, st, lo);
    case Normal =>
  }

  // A parameter comment records at most its loop variable's temp name.
  lemma ParamEffect(ctx: Ctx, name: string, len: nat, after: string, tmp: TempScope, st: State, lo: nat)
    requires lo <= st.counter && ScopeIn(tmp, lo, st.counter)
    ensures var r := ParamComment(ctx, name, len, after, tmp, st);
            r.Ok? ==> Effect(tmp, st, r.value.st, lo)
  {
    DummyValueIsLiteral(ctx, after, st.counter);
    if tmp.Binds? && name in tmp.vars {
      assert InRange(tmp.vars[name].tmpName, lo, st.counter);
    }
  }

  // A direct comment records nothing.
  lemma DirectEffect(ctx: Ctx, name: string, len: nat, after: string, tmp: TempScope, st: State, lo: nat)
    ensures var r := DirectComment(ctx, name, len, after, tmp, st);
            r.Ok? ==> r.value.st == st
  {
    DummyValueIsLiteral(ctx, after, st.counter);
  }

  lemma {:induction false} IfEffect(ctx: Ctx, statement: string, len: nat, after: string, tmp: TempScope,
                                    lead: int, st: State, lo: nat)
    requires lo <= st.counter && ScopeIn(tmp, lo, st.counter)
    ensures var r := IfComment(ctx, statement, len, after, tmp, lead, st);
            r.Ok? ==> Effect(tmp, st, r.value.st, lo)
    decreases |after|, 4, 1
  {
    ForIfBodyEffect(ctx, after, tmp, lead, st, lo);
  }

  lemma {:induction false} ForIfBodyEffect(ctx: Ctx, after: string, tmp: TempScope, lead: int, st: State, lo: nat)
    requires lo <= st.counter && ScopeIn(tmp, lo, st.counter)
    ensures var r := ForIfBody(ctx, after, tmp, lead, st);
            r.Ok? ==> Effect(tmp, st, r.value.st, lo)
    decreases |after|, 4, 0
  {
    var (nextq, skipped, trim) := NxtqInForIf(ctx.nl, after, lead);
    var lead2 := if after == nextq then -1 else 0;
    LoopEffect(ctx, nextq, EndMark, tmp, false, [], 0, lead2, st, lo);
  }

  lemma {:induction false} ForCommentEffect(ctx: Ctx, comment: string, after: string, tmp: TempScope,
                                            lead: int, st: State, lo: nat)
    requires |comment| >= 15
    requires lo <= st.counter && ScopeIn(tmp, lo, st.counter)
    ensures var r := ForComment(ctx, comment, after, tmp, lead, st);
            r.Ok? ==> Effect(tmp, st, r.value.st, lo)
    decreases |after|, 6, 1
  {
    var rowsOf := ForRows(ctx, comment, tmp, st.params);
    if rowsOf.Ok? {
      var (vnames, rows) := rowsOf.value;
      ForRunEffect(ctx, after, tmp, vnames, rows, lead, st, lo);
    }
  }

  // The iterations and the closing dummy pass of a for comment, once its
  // rows are known.
  lemma {:induction false} ForRunEffect(ctx: Ctx, after: string, tmp: TempScope, vnames: seq<string>,
                                        rows: seq<seq<Value>>, lead: int, st: State, lo: nat)
    requires RowsFit(rows, |vnames|) && (tmp.Dummy? ==> rows == [])
    requires lo <= st.counter && ScopeIn(tmp, lo, st.counter)
    ensures var r := ForRun(ctx, after, tmp, vnames, rows, lead, st);
            r.Ok? ==> Effect(tmp, st, r.value.st, lo)
    decreases |after|, 6, 0
  {
    var outer := if tmp.Binds? then tmp.vars else map[];
    var st1 := State(st.params, st.counter + 1);
    ScopeWiden(Binds(outer), lo, st.counter, st1.counter);
    ForIterationsEffect(ctx, after, outer, vnames, rows, st.counter, 0, lead, st1, "", lo);
    var iterations := ForIterations(ctx, after, outer, vnames, rows, Prefix(st.counter), 0, lead, st1, "");
    if iterations.Ok? {
      var st2 := iterations.value.1;
      ForIfBodyEffect(ctx, after, Dummy, lead, st2, lo);
      var last := ForIfBody(ctx, after, Dummy, lead, st2);
      if last.Ok? {
        assert ForRun(ctx, after, tmp, vnames, rows, lead, st)
            == Ok(Block(iterations.value.0, last.value.consumed, last.value.trim, last.value.st));
        ForRunChain(tmp, st, st2, last.value.st, lo);
      }
    }
  }

  // Drawing a prefix, running the iterations, then a dummy pass.
  lemma ForRunChain(tmp: TempScope, st: State, st2: State, st3: State, lo: nat)
    requires lo <= st.counter
    requires Grows(State(st.params, st.counter + 1), st2, lo)
    requires tmp.Dummy? ==> st2 == State(st.params, st.counter + 1)
    requires Effect(Dummy, st2, st3, lo)
    ensures Effect(tmp, st, st3, lo)
  {
    var st1 := State(st.params, st.counter + 1);
    assert Grows(st, st1, lo);
    GrowsTrans(st, st1, st2, lo);
    GrowsTrans(st, st2, st3, lo);
  }

  // The scope of one iteration binds its variables under names of prefix `p`.
  lemma IterationScope(outer: map<string, Binding>, vnames: seq<string>, row: seq<Value>, k: nat, p: nat,
                       lo: nat, hi: nat)
    requires |row| == |vnames|
    requires lo <= p < hi && ScopeIn(Binds(outer), lo, hi)
    ensures ScopeIn(Binds(outer + IterBindings(vnames, row, k, Prefix(p))), lo, hi)
  {
    var bindings := IterBindings(vnames, row, k, Prefix(p));
    forall v | v in bindings ensures InRange(bindings[v].tmpName, lo, hi) {
      IterBindingsNames(vnames, row, k, Prefix(p), v);
      TmpNameRoundTrip(p, k, v);
    }
  }

  lemma {:induction false} ForIterationsEffect(ctx: Ctx, after: string, outer: map<string, Binding>,
                                               vnames: seq<string>, rows: seq<seq<Value>>, p: nat, k: nat,
                                               lead: int, st: State, acc: string, lo: nat)
    requires RowsFit(rows, |vnames|) && k <= |rows|
    requires lo <= p < st.counter && ScopeIn(Binds(outer), lo, st.counter)
    ensures var r := ForIterations(ctx, after, outer, vnames, rows, Prefix(p), k, lead, st, acc);
            r.Ok? ==> Grows(st, r.value.1, lo) && (rows == [] ==> r.value.1 == st)
    decreases |after|, 5, |rows| - k
  {
    if k < |rows| {
      var bindings := IterBindings(vnames, rows[k], k, Prefix(p));
      var scope := Binds(outer + bindings);
      IterationScope(outer, vnames, rows[k], k, p, lo, st.counter);
      ForIfBodyEffect(ctx, after, scope, lead, st, lo);
      var body := ForIfBody(ctx, after, scope, lead, st);
      if body.Ok? {
        var st1 := body.value.st;
        ScopeWiden(Binds(outer), lo, st.counter, st1.counter);
        ForIterationsEffect(ctx, after, outer, vnames, rows, p, k + 1, lead, st1, acc + body.value.text, lo);
        var rest := ForIterations(ctx, after, outer, vnames, rows, Prefix(p), k + 1, lead, st1, acc + body.value.text);
        if rest.Ok? {
          assert ForIterations(ctx, after, outer, vnames, rows, Prefix(p), k, lead, st, acc) == rest;
          GrowsTrans(st, st1, rest.value.1, lo);
        }
      }
    }
  }

  // An expansion keeps every caller parameter; a key that is not a
  // generated temp name keeps its value; every key it adds is a temp name
  // drawn from `seed` on.
  lemma ExpansionOnlyAddsTempNames(sql: string, params: map<string, Value>, deleteComment: bool, nl: Newline,
                                   style: StyleArg, oracle: Oracle, seed: nat)
    ensures var r := ParseSql(sql, params, deleteComment, nl, style, oracle, seed);
            r.Ok? ==>
              && params.Keys <= r.value.1.Keys
              && (forall k :: k in r.value.1 && DecodeTmpName(k).None? ==> k in params && r.value.1[k] == params[k])
              && (forall k :: k in r.value.1 && k !in params ==>
                    DecodeTmpName(k).Some? && seed <= DecodeTmpName(k).value.prefix)
              && (forall k :: k in params && !(DecodeTmpName(k).Some? && seed <= DecodeTmpName(k).value.prefix) ==>
                    r.value.1[k] == params[k])
  {
    var v := ValidateStyle(style);
    if v.Ok? {
      var ctx := Ctx(deleteComment, v.value, nl, oracle);
      var st := State(params, seed);
      LoopEffect(ctx, sql, NoEop, Binds(map[]), false, [], 0, 0, st, seed);
      var scan := Parse(ctx, sql, NoEop, Binds(map[]), false, 0, st);
      if scan.Ok? {
        assert ParseSql(sql, params, deleteComment, nl, style, oracle, seed) == Ok((scan.value.text, scan.value.st.params));
        GrowsFromSeed(params, scan.value.st, seed);
      }
    }
  }

  // What growing from the caller's mapping with prefixes drawn from `seed`
  // on means for the caller's keys and the added ones.
  lemma GrowsFromSeed(params: map<string, Value>, b: State, seed: nat)
    requires Grows(State(params, seed), b, seed)
    ensures params.Keys <= b.params.Keys
    ensures forall k :: k in b.params && DecodeTmpName(k).None? ==> k in params && b.params[k] == params[k]
    ensures forall k :: k in b.params && k !in params ==>
              DecodeTmpName(k).Some? && seed <= DecodeTmpName(k).value.prefix
    ensures forall k :: k in params && !(DecodeTmpName(k).Some? && seed <= DecodeTmpName(k).value.prefix) ==>
              b.params[k] == params[k]
  {
  }
}
