// Temp parameters of for loops: the per-iteration bindings
// (`_enum_temp_variables`, `_gen_tmp_name`), the dummy sentinel of the last
// pass (`_tmpp_is_dummy`), and the merged scope expressions are evaluated in
// (`_merge_qparams`). The random `uuid4` prefix of each for evaluation is
// replaced by a counter: prefix number `p` is the text `tmp<p>`.
module TempParams {
  import opened Wrappers
  import opened Text
  import opened Values

  // `{'tmpnm': tmpName, 'value': value}`.
  datatype Binding = Binding(tmpName: string, value: Value)

  // The `tmp_params` of a scan: the `{'...dummy...': True}` sentinel of a
  // for's last pass, or the loop variables bound around it (empty outside
  // any loop).
  datatype TempScope = Dummy | Binds(vars: map<string, Binding>)

  // The prefix drawn for the `p`-th for evaluation.
  function Prefix(p: nat): string
  {
    "tmp" + Digits(p)
  }

  // `_gen_tmp_name`: `f'{prefix}_{loop_count}_{vname}'`.
  function TmpName(prefix: string, n: nat, v: string): string
  {
    prefix + "_" + Digits(n) + "_" + v
  }

  predicate AllDigits(s: string)
  {
    forall k :: 0 <= k < |s| ==> IsDigit(s[k])
  }

  // The parts a generated temp name is built from.
  datatype TmpId = TmpId(prefix: nat, iteration: nat, variable: string)

  // A non-empty run of digits closed by `_`: its value and the text after it.
  function SplitNumber(s: string): (r: Option<(nat, string)>)
    ensures r.Some? ==> |r.value.1| < |s|
  {
    var j := FindChar(s, '_', 0);
    if j == 0 || j == |s| || !AllDigits(s[..j]) then None
    else Some((DigitsValue(s[..j]), s[j + 1..]))
  }

  // Reads `tmp<p>_<n>_<v>` back into its parts; `None` for any other name.
  function DecodeTmpName(k: string): (r: Option<TmpId>)
    ensures r.Some? ==> StartsAt(k, 0, "tmp")
  {
    if !StartsAt(k, 0, "tmp") then None
    else
      match SplitNumber(k[3..])
      case None => None
      case Some((p, rest)) =>
        match SplitNumber(rest)
        case None => None
        case Some((n, v)) => Some(TmpId(p, n, v))
  }

  lemma SplitNumberOf(d: string, tail: string)
    requires |d| >= 1 && AllDigits(d)
    ensures SplitNumber(d + "_" + tail) == Some((DigitsValue(d), tail))
  {
    var s := d + "_" + tail;
    assert s[|d|] == '_';
    assert forall j :: 0 <= j < |d| ==> s[j] == d[j] && s[j] != '_';
    assert FindChar(s, '_', 0) == |d|;
    assert s[..|d|] == d;
    assert s[|d| + 1..] == tail;
  }

  // Every generated temp name reads back as the prefix number, iteration
  // index and variable it was generated from.
  lemma TmpNameRoundTrip(p: nat, n: nat, v: string)
    ensures DecodeTmpName(TmpName(Prefix(p), n, v)) == Some(TmpId(p, n, v))
  {
    var k := TmpName(Prefix(p), n, v);
    var dp, dn := Digits(p), Digits(n);
    assert k == "tmp" + (dp + "_" + (dn + "_" + v));
    assert StartsAt(k, 0, "tmp");
    assert k[3..] == dp + "_" + (dn + "_" + v);
    SplitNumberOf(dp, dn + "_" + v);
    SplitNumberOf(dn, v);
    DigitsRoundTrip(p);
    DigitsRoundTrip(n);
  }

  // Names generated for different (for evaluation, iteration, variable)
  // triples are different, so nested loops never overwrite each other's
  // bindings in the parameter mapping.
  lemma TmpNameInjective(p: nat, n: nat, v: string, p': nat, n': nat, v': string)
    requires TmpName(Prefix(p), n, v) == TmpName(Prefix(p'), n', v')
    ensures p == p' && n == n' && v == v'
  {
    TmpNameRoundTrip(p, n, v);
    TmpNameRoundTrip(p', n', v');
  }

  // One iteration's bindings: each variable is bound under its generated
  // name (`_enum_temp_variables`).
  function IterBindings(vnames: seq<string>, row: seq<Value>, n: nat, prefix: string): (r: map<string, Binding>)
    requires |row| == |vnames|
    ensures forall v :: v in r <==> v in vnames
    decreases |vnames|
  {
    if |vnames| == 0 then map[]
    else
      var last := |vnames| - 1;
      var init := IterBindings(vnames[..last], row[..last], n, prefix);
      assert vnames == vnames[..last] + [vnames[last]];
      init[vnames[last] := Binding(TmpName(prefix, n, vnames[last]), row[last])]
  }

  // Each variable is bound under the temp name generated for it.
  lemma {:induction false} IterBindingsNames(vnames: seq<string>, row: seq<Value>, n: nat, prefix: string, v: string)
    requires |row| == |vnames| && v in vnames
    ensures IterBindings(vnames, row, n, prefix)[v].tmpName == TmpName(prefix, n, v)
    decreases |vnames|
  {
    var last := |vnames| - 1;
    var init := vnames[..last];
    var m := IterBindings(init, row[..last], n, prefix);
    assert IterBindings(vnames, row, n, prefix) == m[vnames[last] := Binding(TmpName(prefix, n, vnames[last]), row[last])];
    if v != vnames[last] {
      assert vnames == init + [vnames[last]];
      IterBindingsNames(init, row[..last], n, prefix, v);
    }
  }

  // Each variable is bound to the value at its last position in the row,
  // as the dict assignments of the loop leave it.
  lemma {:induction false} IterBindingsValue(vnames: seq<string>, row: seq<Value>, n: nat, prefix: string, j: nat)
    requires |row| == |vnames| && j < |vnames| && LastOccurrence(vnames, j)
    ensures IterBindings(vnames, row, n, prefix)[vnames[j]].value == row[j]
    decreases |vnames|
  {
    var last := |vnames| - 1;
    var init := vnames[..last];
    var m := IterBindings(init, row[..last], n, prefix);
    assert IterBindings(vnames, row, n, prefix) == m[vnames[last] := Binding(TmpName(prefix, n, vnames[last]), row[last])];
    if j < last {
      assert vnames[last] != vnames[j];
      assert init[j] == vnames[j] && row[..last][j] == row[j];
      forall k | j < k < |init| ensures init[k] != init[j] {
        assert init[k] == vnames[k];
      }
      IterBindingsValue(init, row[..last], n, prefix, j);
      assert m[vnames[j]].value == row[j];
    }
  }

  // With distinct variables, variable `j` is bound to `row[j]`.
  lemma DistinctBindings(vnames: seq<string>, row: seq<Value>, n: nat, prefix: string)
    requires |row| == |vnames| && Distinct(vnames)
    ensures forall j :: 0 <= j < |vnames| ==> IterBindings(vnames, row, n, prefix)[vnames[j]].value == row[j]
  {
    forall j | 0 <= j < |vnames|
      ensures IterBindings(vnames, row, n, prefix)[vnames[j]].value == row[j]
    {
      IterBindingsValue(vnames, row, n, prefix, j);
    }
  }

  // `vnames[j]` does not occur again after position `j`.
  predicate LastOccurrence(vnames: seq<string>, j: nat)
    requires j < |vnames|
  {
    forall k :: j < k < |vnames| ==> vnames[k] != vnames[j]
  }

  predicate Distinct(vnames: seq<string>)
  {
    forall j, k :: 0 <= j < k < |vnames| ==> vnames[j] != vnames[k]
  }

  // `_merge_qparams`: the parameters with the loop variables' values laid
  // over them; the dummy sentinel contributes nothing.
  function Merge(params: map<string, Value>, tmp: TempScope): (r: map<string, Value>)
    ensures tmp.Dummy? ==> r == params
    ensures tmp.Binds? ==> r.Keys == params.Keys + tmp.vars.Keys
    ensures tmp.Binds? ==> forall x :: x in tmp.vars ==> r[x] == tmp.vars[x].value
    ensures tmp.Binds? ==> forall x :: x in params && x !in tmp.vars ==> r[x] == params[x]
  {
    match tmp
    case Dummy => params
    case Binds(vars) => params + map x | x in vars :: vars[x].value
  }
}
