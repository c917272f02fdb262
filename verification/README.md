# twsqlparser expansion engine, modelled in Dafny

twsqlparser expands "two-way SQL" templates: SQL text that stays runnable as
it is, with directives written as block comments. `parse_sql` scans such a
template and returns the SQL with the directives expanded, together with the
parameter mapping enriched by the loop variables it generated.

- `/*:name*/` (PARAM) becomes a bind placeholder, `:name` or `%(name)s`.
- `/*$name*/` (DIRECT) is replaced by the text of the value.
- `/*%if cond*/ … /*end*/` keeps its body when the condition holds.
- `/*%for v in expr*/ … /*end*/` repeats its body once per element.

A PARAM or DIRECT comment swallows the dummy literal that follows it. Blank
lines left by directives are removed.

The model follows the source's module structure:

- `Enums` holds the placeholder styles and the comment classifier. The
  classifier is the `CommentType` regular expressions, tried in declaration
  order.
- `Text` and `Readers` hold the leaf readers of the scanner: quoted literals,
  bracketed literals, line comments, the `/*end*/` bookkeeping and the
  blank-line count.
- `TempParams` holds the generated loop-variable names and the merged scope.
- `Engine` holds `parse_sql` and the mutually recursive scanner
  (`_parse`, `_parse_switch_by_char`, `_multi_line_comment` and the four
  directive evaluators). Every scan returns a `Result`, so the source's
  exceptions are error values.
- Properties live in proof modules:
  - `Directives` states what each directive expands to.
  - `DummyScan` gives an independent description of the dummy literal.
  - `Identity` shows that a template without directives comes back unchanged.
  - `ParamsInvariant` shows that an expansion only ever adds generated temp
    names to the mapping.

The source's mutable `qparams` dict is modelled as a `State` threaded through
every call. The `State` also carries a counter that stands in for `uuid4`.
The two `eval` calls become an `Oracle` supplied by the caller.
The scanner runs the blank-line count (twsqlparser/twsp.py:546-558) and the
quote reader (twsqlparser/twsp.py:184-199) as written, so its expansions are
the source's. What each of them evidently intends is defined beside it and
compared with it (see Findings).

## Model

| member | source | states |
|---|---|---|
| Enums.FormatInjective | twsqlparser/const/enums.py:13-15 | two names formatted with one `ParamStyle` give the same placeholder only when the names are equal |
| Enums.FormatDistinguishesStyles | twsqlparser/const/enums.py:13-15 | a NAMED placeholder is never a PYFORMAT placeholder |
| Enums.Classify | twsqlparser/twsp.py:496-505 | the matched comment is at least `/**/` long and ends in `*/`; there is no match exactly when no generic `*/` closes it; each kind starts with its own sigil (`:`, `$`, `%if `, `%for `) and has that kind's minimum length; which kind a comment of a given shape gets is stated by the five lemmas that follow |
| Enums.ParamShapeIsParam | twsqlparser/const/enums.py:18-20 | a comment of the PARAM shape, `/*:` + word run + `*/`, is classified PARAM with exactly that length |
| Enums.DirectShapeIsDirect | twsqlparser/const/enums.py:18-22 | a comment of the DIRECT shape is classified DIRECT with exactly that length: PARAM, tried first, cannot match it |
| Enums.IfShapeIsIf | twsqlparser/const/enums.py:18-24 | a comment with some `/*%if <run>*/` shape is classified IF, ending no later than that shape |
| Enums.ForShapeIsFor | twsqlparser/const/enums.py:18-26 | a comment with some `/*%for <run> in <run>*/` shape is classified FOR, ending no later than that shape: IF, tried before it, cannot match `/*%for ` |
| Enums.NoDirectiveShapeIsNormal | twsqlparser/twsp.py:502-505 | a comment of none of the four directive shapes is classified NORMAL, with the generic pattern's length, or not at all when no `*/` closes it |
| Enums.SimpleMatchSpec | twsqlparser/const/enums.py:6-7 | the PARAM/DIRECT pattern matches with length `len` if and only if the text is `/*`, the sigil, a word-character run and `*/` spanning exactly `len` |
| Enums.IfMatchIsShortest | twsqlparser/const/enums.py:8 | the lazy IF pattern matches the shortest `/*%if <run>*/` prefix with no newline in the run, and fails only when no such prefix exists |
| Enums.ForMatchSpec | twsqlparser/const/enums.py:9 | the FOR pattern matches exactly when some `/*%for <run> in <run>*/` shape exists on the first line; what it matches has that shape, and no shape is shorter, as the lazy runs take as little as they can |
| Enums.NormalMatchSpec | twsqlparser/const/enums.py:28 | the generic pattern ends at the first `*/` from index 2 on, and fails exactly when there is none |
| Enums.PrefixDecidesKind | twsqlparser/const/enums.py:18-28 | a comment whose third character is not `:`, `$` or `%` can only be classified as a generic comment |
| Enums.BadNameIsNormal | twsqlparser/const/enums.py:6-28 | a `/*:` comment whose name is followed by a non-word character that does not start the closing `*/` is a generic comment, of the generic pattern's length |
| Enums.StarInNameIsNormal | twsqlparser/const/enums.py:6-28 | `/*:a*b*/` is classified as a generic comment eight characters long |
| Readers.NextChars | twsqlparser/twsp.py:160-170 | the cursor advances; the chunk is the text between the old and new cursor; a chunk longer than one character starts at no target; no target starts inside the chunk after its first character, and a chunk longer than one character stops right at the next target (or the text's end), the minimum of the `find` positions; a `--`/`/*` pair really sits at the new cursor minus one |
| Readers.QuoteSpan | twsqlparser/twsp.py:184-199 | the literal is the opening quote followed by exactly the consumed characters; it ends at the text's end or just after a quote, and a quote ends it only when the character two places after that quote is not a quote too (the lookahead as written, see Findings); a non-empty text always advances |
| Readers.NextQuote | twsqlparser/twsp.py:184-199 | the loop as written, with its `break`, returns the same literal and length as `QuoteSpan` |
| Readers.QuoteTwoPastSwallows | twsqlparser/twsp.py:190-194 | as written, in `('x','') and b = /*:p*/1` the first literal is read as `'x','` and the next one runs to the end of the text, over the parameter comment |
| Readers.DoubledQuoteCutShort | twsqlparser/twsp.py:190-194 | as written, the literal `'it''s'` is cut short after `'it'` |
| Readers.QuoteSpanIntended | twsqlparser/twsp.py:190-197 | the quote reader as the comment at line 191 intends: a quote ends the literal unless the next character is a quote too, which is then taken with it |
| Readers.EscapedLiteralRoundTrip | twsqlparser/twsp.py:190-197 | the intended reader reads back exactly a literal whose quotes are doubled, whatever non-quote character follows it |
| Readers.BracketSpan | twsqlparser/twsp.py:202-214 | the literal is the opening bracket followed by the consumed characters, which contain no closing bracket before the last; it ends at the text's end or just after the matching closing bracket |
| Readers.SingleLine | twsqlparser/twsp.py:224-230 | the comment is the prefix up to, not including, the first newline, and holds no newline; a `--` comment is at least two characters long when the newline is not `-` |
| Readers.DashNewlineStalls | twsqlparser/twsp.py:224-230 | with `-` as the newline, a `--` comment is read as empty and zero long, so `i += addi - 1` puts the cursor back on the same `--` |
| Readers.UpdateBlankLineAsWritten | twsqlparser/twsp.py:546-558 | the count as written, which the scanner runs: unchanged for an empty chunk; otherwise non-negative exactly when the chunk's text after its last newline is all spaces, and then that text's length |
| Readers.BlankCountAfterText | twsqlparser/twsp.py:546-558 | after a line that holds text (count -1), a chunk of spaces without a newline is counted as a blank run of its own length, though the line is not blank |
| Readers.UpdateBlankLine | twsqlparser/twsp.py:546-558 | the count as the guard at line 551 intends, stated beside the one the scanner runs: a chunk without a newline after text gives -1; any other non-empty chunk gives a non-negative count exactly when its text after its last newline is all spaces, and then that text's length |
| Readers.BlankRunKept | twsqlparser/twsp.py:546-558 | invariant of the intended count: whenever it is not negative, the output's current line holds nothing but spaces, and every chunk keeps that true |
| Readers.BlankCountsDiffer | twsqlparser/twsp.py:546-558 | the count as written and the intended count differ exactly on a non-empty chunk of spaces without a newline that follows text on its line |
| Readers.DeleteLastSpace | twsqlparser/twsp.py:561-570 | the joined chunks afterwards are the joined chunks before with the trailing spaces stripped; no chunk is added |
| Readers.NxtqInForIf | twsqlparser/twsp.py:445-450 | the rest is a suffix of the input; trimming is asked for if and only if the scan is at a line start and the skipped prefix is blank and ends at the first newline (or nothing is skipped and there is no newline); nothing is skipped otherwise |
| Readers.EndInForIf | twsqlparser/twsp.py:453-471 | the output is a prefix of the body text; at the input's end nothing changes; when `/*end*/` is alone on its line the body's last line is dropped and that whole line plus the newline is consumed; otherwise exactly the seven characters of `/*end*/` are consumed |
| Readers.EndOnOwnLine | twsqlparser/twsp.py:459-462 | `/*end*/` counts as alone on its line if and only if the body's last line and the text after the token on its line are all spaces |
| TempParams.TmpNameRoundTrip | twsqlparser/twsp.py:414-416 | every generated name `<prefix>_<n>_<v>` decodes back to its prefix number, iteration index and variable |
| TempParams.TmpNameInjective | twsqlparser/twsp.py:399-416 | generated names for different (evaluation, iteration, variable) triples differ |
| TempParams.IterBindingsValue | twsqlparser/twsp.py:405-411 | each loop variable is bound to the row value at its last position, as the dict assignments leave it |
| TempParams.DistinctBindings | twsqlparser/twsp.py:399-411 | with distinct loop variables, variable `j` is bound to `row[j]` |
| TempParams.Merge | twsqlparser/twsp.py:586-593 | a dummy scope gives the parameters unchanged; otherwise the keys are the union, loop variables take their bound values, and every other key keeps its value |
| Engine.UpdateIfTemp | twsqlparser/twsp.py:316-329 | a loop variable is bound under its generated name, which is added to the mapping with the variable's value, leaving every other key alone; any other name is kept and records nothing; in a dummy pass nothing is recorded |
| Engine.ValidateStyle | twsqlparser/twsp.py:596-600 | fails, with the unsupported-style error, exactly for a truthy non-`ParamStyle` argument; a given style is returned as is; an omitted or falsy argument yields NAMED |
| Engine.StyleArgument | twsqlparser/twsp.py:60-93 | omitting the style or passing a falsy object expands exactly as NAMED does; a truthy foreign style fails before any scanning |
| Engine.IfTruth | twsqlparser/twsp.py:480-484 | in a dummy pass the condition is always true |
| Engine.IfKeep | twsqlparser/twsp.py:332-339 | once the body is scanned, the condition is evaluated against the mapping as the body left it: a true condition keeps the body text, a false one emits nothing, a dummy pass always keeps it; the mapping stays as the body left it either way; `NameError` and any other evaluation failure give their own errors; the comment consumes its own length plus the body's |
| Engine.ForRows | twsqlparser/twsp.py:358-377 | the loop variables are the stripped names before ` in `; every row holds one value per variable; outside a dummy pass it succeeds exactly when the oracle's evaluation of the comment's statement in the merged scope succeeds with rows that fit, and the rows are that value; a dummy pass evaluates `for <vars> in []` and yields no rows; every failure is the for-evaluation error |
| Engine.Switch | twsqlparser/twsp.py:134-148 | each dispatch moves the cursor at least to the position `_next_chars` returned |
| DummyScan.DummyValueIsLiteral | twsqlparser/twsp.py:304-313 | the sub-scan after a PARAM or DIRECT comment never fails; it returns and consumes exactly the dummy literal, a verbatim prefix that ends before the first stop character outside quotes and brackets; it leaves the counter alone |
| Directives.ParamCommentSpec | twsqlparser/twsp.py:270-283 | a PARAM comment becomes the placeholder of the loop variable's generated name, recorded with its value, or of the name itself, recording nothing; it consumes the comment and its dummy literal |
| Directives.DirectCommentSpec | twsqlparser/twsp.py:286-301 | a DIRECT comment becomes the text of the name's value in the merged scope, or `None`; it records nothing and consumes the comment and its dummy literal |
| Directives.DummyPassRecordsNothing | twsqlparser/twsp.py:419-442 | a body scanned under the dummy scope leaves the parameter mapping unchanged |
| Directives.ForIterationsAppend | twsqlparser/twsp.py:347-350 | the text emitted before a row is carried through unchanged, and the rows from there on append to it and to nothing else |
| Directives.ChainScans | twsqlparser/twsp.py:347-350 | each body scan of a successful loop starts from the state the previous body left |
| Directives.ForIterationsIsConcat | twsqlparser/twsp.py:347-352 | the loop succeeds exactly when every body scan does; it emits the in-order concatenation of the bodies' texts and ends in the last body's state |
| Directives.ForCommentSpec | twsqlparser/twsp.py:358-377 | outside a dummy pass a for comment fails with the for-evaluation error exactly when the oracle's rows are missing or do not fit the variables, and otherwise runs the loop over exactly those rows |
| Directives.ForRunSpec | twsqlparser/twsp.py:342-355 | a for loop succeeds exactly when its row bodies and the closing dummy pass do; it emits the bodies' texts in order; its length and trim flag come from the dummy pass, which records nothing |
| Directives.ForEmptyEmitsNothing | twsqlparser/twsp.py:342-355 | a loop over no rows emits nothing and records nothing, but consumes its body through the dummy pass and still draws a prefix |
| Identity.PlainTemplateUnchanged | twsqlparser/twsp.py:60-131 | with comments kept, a template in which every `/*` opens a closed generic comment expands to itself, and the parameter mapping comes back unchanged |
| ParamsInvariant.ExpansionOnlyAddsTempNames | twsqlparser/twsp.py:60-93 | the expanded mapping keeps every caller key; keys that are not generated names keep their values; every added key is a generated name drawn from the seed on; a caller key that is not such a name keeps its value |

## Left out

- The newline is one character other than `-`, the `Newline` type. The source accepts any string (twsqlparser/twsp.py:60, 77), including multi-character ones such as `"\r\n"` and the empty string (used at 447, 459-467, 550). With `-`, or the empty string, the source does not terminate (see Findings).
- `uuid4()` (twsqlparser/twsp.py:379) is replaced by a counter carried in the state. Each for evaluation draws the prefix `tmp<n>` and increments the counter, including evaluations that yield no rows.
- ParamsInvariant.ExpansionOnlyAddsTempNames: does not promise that a caller key survives when it already reads as a generated name with a prefix number at or above the seed. Such a key can be overwritten by a loop binding. The source's random `uuid4` prefix makes such a clash practically impossible, but a counter cannot rule it out.
- The two `eval` calls (twsqlparser/twsp.py:375, 488) are the caller-supplied `Oracle` functions. The if oracle reports a result that is not a bool as `OtherError`, so the check at line 491 (E0006) lands, like any exception other than `NameError`, on `IfEvalFailed`; a statement such as `if x else 5 if y` reaches it. A row-arity mismatch, which raises inside the comprehension, becomes the for-evaluation error.
- Python values are `NoneValue | Bool | Int | Str | Other(text)`. Lists, dicts and other objects carry the text `str()` gives for them.
- All error channels are one `Err`. In the source, a `TwspException` is logged and `None` returned (twsqlparser/twsp.py:91-93). The style check raises outside the `try` (line 79). A non-`NameError` exception from the if condition propagates (line 489). An unterminated `/*` fails when the `None` of `_check_comment_type` is unpacked.
- `deepcopy` of the parameters and `_is_collect_type` (twsqlparser/twsp.py:85-87, 532-534) are dropped. The model's mapping is immutable, and its arguments are typed.
- `parse_file`, file reading, the LRU cache and logging are left out. They are I/O.

## Findings

| source | as written | input that shows it | evidently intended | confidence | as-written member | corrected member |
|---|---|---|---|---|---|---|
| twsqlparser/twsp.py:551 | `ldng_sp_cnt < 0 and ridx < 0 == 1` chains into `ridx < 0 and 0 == 1`, which is never true. So a chunk of spaces without a newline is counted as a blank run even when the line already holds text | `select 'a'  /*%if p1*/` + newline + `x` + newline + `/*end*/ from t`: the two spaces after `'a'` are counted as a blank line start, so the if comment trims them and swallows its newline, giving `select 'a'x` + newline + ` from t` | a chunk without a newline cannot make a line that holds text blank: keep -1 | not executed | Readers.UpdateBlankLineAsWritten, Readers.BlankCountAfterText | Readers.UpdateBlankLine, Readers.BlankRunKept, Readers.BlankCountsDiffer |
| twsqlparser/twsp.py:141-145,227-228 | the line-comment reader returns length 0 when the newline is `-` (or empty), and the caller moves the cursor by `addi - 1` | `parse_sql("--", newline='-')`: the cursor goes back to the first `-` on every round and the scan never ends | a `--` comment always covers at least its two dashes, so the cursor advances | not executed | Readers.DashNewlineStalls | Readers.SingleLine, with the `Newline` type excluding `-` |
| twsqlparser/twsp.py:192 | `sql_after_quote[addi + 1]` looks two characters past the quote, because `addi` already points past it; the `break` test therefore misses a doubled quote and sees one that is not doubled | `('x','') and b = /*:p*/1`: `'x','` is read as one literal, the quote after it opens a literal that runs to the end, and `/*:p*/` is copied instead of becoming `:p`; `'it''s'` is read as `'it'` | a quote ends the literal unless the character right after it (`sql_after_quote[addi]`) is a quote, as the comment at line 191 says | not executed | Readers.QuoteSpan, Readers.QuoteTwoPastSwallows, Readers.DoubledQuoteCutShort | Readers.QuoteSpanIntended, Readers.EscapedLiteralRoundTrip |
