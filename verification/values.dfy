// The parameter values the engine passes around, and the two places where it
// hands them to Python: `str(value)` when a direct comment is expanded, and
// `eval` for if-conditions and for-iterables, which this model takes as
// oracles supplied by the caller.
module Values {
  import opened Wrappers
  import opened Text

  // A value in the parameter mapping. Lists, tuples, dicts and other objects
  // are carried with the text `str()` gives for them.
  datatype Value =
    | NoneValue
    | Bool(b: bool)
    | Int(i: int)
    | Str(s: string)
    | Other(text: string)

  // `f'{value}'`.
  function Show(v: Value): (r: string)
  {
    match v
    case NoneValue => "None"
    case Bool(b) => if b then "True" else "False"
    case Int(i) => IntText(i)
    case Str(s) => s
    case Other(text) => text
  }

  // What a failed `eval` raised: `NameError` is told apart because the if
  // evaluator catches only that.
  datatype EvalError = NameError | OtherError

  // The evaluation the source delegates to Python's `eval`.
  // - `truth(statement, scope)` is `eval('True ' + statement + ' else False')`
  //   for the statement `if <expr>`; a result that is not a bool (the
  //   statement `if x else 5 if y` can give `5`) is reported as
  //   `OtherError`, like any exception other than `NameError`;
  // - `rows(vnames, statement, scope)` is the list comprehension
  //   `[(v1, ..., vn) <statement>]` for the statement `for <vars> in <expr>`:
  //   one row per element, holding the value of each loop variable.
  datatype Oracle = Oracle(
    truth: (string, map<string, Value>) -> Result<bool, EvalError>,
    rows: (seq<string>, string, map<string, Value>) -> Result<seq<seq<Value>>, EvalError>)
}
