# KontabApp spreadsheet core in Dafny

This project models the core of KontabApp, an accounting web application, and proves properties of that model. The core has five parts:

- **Client formula evaluator** (`FormulaService`, modules `FormulaService`, `CellAddress`, `References`, `Arithmetic`). A raw cell value is returned as it is unless it starts with `=`. Otherwise the expression is upper-cased, its cell references are bound to the numeric cells they name, and it is dispatched in this order: `SUM(...)`, `AVERAGE(...)`, arithmetic, and finally the unevaluated formula text. A thrown error becomes `#ERROR: Error: <message>`.
- **Accounting formula rewriter** (`FormulaParser`, module `FormulaParser`). Defined references are substituted as text. `VAT(a[, r])` becomes `(a * r)` and `NETTO(b[, r])` becomes `(b / (1 + r))`, with a default rate of `0.2`. What is left is sanitised and evaluated, and a failure becomes `#ERROR: Unable to evaluate expression`.
- **Server cell update** (`spreadsheetController.js`, module `SpreadsheetController`). `updateCell` parses the address, looks up the spreadsheet the user may access and the sheet by id, and writes the cell, creating the row if it is missing. It keeps the sheet's formula list at one entry per address, where an entry is present exactly when the value is a formula. `createSpreadsheet` builds a 100 × 26 sheet of empty strings.
- **Client store** (`useStore.ts`, HEAD side of its merge conflict, module `Store`). The spreadsheet list, the "recent" list capped at five, the current selection, lookup and sort-by-recency. Also add, update and delete on the client, document, task and calendar lists, and the initial dashboard counts.
- **Mock API** (`api.ts`, HEAD side, module `MockApi`). Module-level lists changed in place: create, update and delete of clients, upload and delete of documents, task creation and status changes, and accounting entries. Also the dashboard counts and the file-extension → document-type mapping.

Shared modules:

- `Wrappers`: `Option` and `Result`.
- `Text`: the JavaScript string operations in use (trim, split, global replace, case mapping, `parseInt` and `toString` on naturals).
- `Cells`: the cell value `Empty | Text | Num | Bool` and the client grid.
- `Records`: JavaScript objects as maps from keys to values, spread as map union, and the list operations built from `map`, `filter`, `find`, `findIndex`, `splice` and `sort`.

Numbers are mathematical reals. JavaScript code evaluation (`new Function`, `eval`) is replaced by the explicit evaluator in `Arithmetic`. It reads numerals, `+ - * / %`, unary signs, parentheses and the comma operator, and rejects every other input.

The model follows the code where its behaviour may surprise:

- `FormulaParser` strips disallowed characters, and so quoted non-numeric values, before evaluating; it does not reject them.
- Both evaluators accept `%` as JavaScript remainder. In the client evaluator, though, a formula whose only operator is `%` fails the operator test and comes back as its own text (`FormulaService.RemainderFormulaIsText`).
- Both evaluators read decimal and legacy-octal numerals as sloppy-mode JavaScript does: `010` is the octal 8 and `01.5` is a syntax error (`FormulaService.OctalFormula`, `FormulaParser.OctalValues`). The client evaluator does not trim its expression, so a formula opening with a line break after `=` whose rest evaluates yields `undefined` (`FormulaService.LineBreakFormula`).
- A reference `A1` in the context also rewrites the `A1` inside `A10`, so the value of `A10` is never used (`FormulaService.PrefixReferenceCollision`).

## Model

| member | source | states |
|---|---|---|
| CellAddress.ColumnNumber | KontabApp/src/services/formulaService.ts:73-79 | the base-26 value of upper-case letters is non-negative, and at least 1 for a non-empty run |
| CellAddress.ColumnLettersToIndex | KontabApp/src/services/formulaService.ts:73-79 | the loop computes the bijective base-26 value of the letters minus one; it is non-negative for a non-empty upper-case run |
| CellAddress.ColumnNameDecodes | KontabApp/src/services/formulaService.ts:73-79 | decoding the column name of any column n ≥ 0 gives back n |
| CellAddress.ColumnNumberEncodes | KontabApp/src/services/formulaService.ts:73-79 | every non-empty upper-case run is the column name of its decoded index, so the decoding is a bijection |
| CellAddress.ColumnExamples | KontabApp/src/services/formulaService.ts:73-79 | A → 0, Z → 25, AA → 26, AB → 27 |
| CellAddress.LetterRun | KontabApp/src/services/formulaService.ts:61 | the leading run of upper-case letters is maximal |
| CellAddress.SplitIsLetterRun | KontabApp/src/services/formulaService.ts:61 | a token splits into letters-then-digits in at most one place, the end of its letter run |
| CellAddress.ParseCellAddress | KontabApp/src/services/formulaService.ts:60-71 | succeeds exactly when the token is letters followed by digits; then row = digits − 1 and col = decoded letters; otherwise the error is "Invalid cell address: " followed by the token |
| CellAddress.ParseAddressText | KontabApp/src/services/formulaService.ts:60-79 | parsing the text of any address with row, col ≥ 0 gives back that address |
| CellAddress.HookAddressRoundTrip | KontabApp/src/hooks/useSpreadsheet.ts:51 | the client's one-letter address text round-trips through the parser exactly for columns below 26; wider columns fail to parse |
| References.WordLength | KontabApp/src/services/formulaService.ts:55 | the leading run of word characters is maximal |
| References.Words | KontabApp/src/services/formulaService.ts:55 | every word found is a non-empty run of word characters |
| References.WordLengthIs | KontabApp/src/services/formulaService.ts:55 | a run of word characters ended by the text's end or a non-word character is the leading run |
| References.WordsAppend | KontabApp/src/services/formulaService.ts:55 | the words of a text split at a non-word character are those of both parts, left part first |
| References.WordsComplete | KontabApp/src/services/formulaService.ts:55-57 | every whole word of the text, bounded by non-word characters, is found |
| References.WordsSound | KontabApp/src/services/formulaService.ts:55-57 | every word found occurs in the text as a whole word |
| References.AddressTokenIsWord | KontabApp/src/services/formulaService.ts:55 | an address token consists of word characters only, so the `\b` boundaries fall at its ends |
| References.Filter | KontabApp/src/services/formulaService.ts:56 | keeps exactly the entries meeting the predicate |
| References.FilterSnoc | KontabApp/src/services/formulaService.ts:56 | one more element at the end is kept exactly when it meets the predicate |
| References.FilterAppend | KontabApp/src/services/formulaService.ts:56 | filtering a concatenation filters each part, in order |
| References.Distinct | KontabApp/src/utils/formulaParser.ts:42 | `Array.from(new Set(...))` keeps exactly the same members, each once |
| References.DistinctOfDistinct | KontabApp/src/utils/formulaParser.ts:42 | a list without repetitions comes back unchanged, in its own order |
| References.DistinctPrefix | KontabApp/src/utils/formulaParser.ts:42 | the result for a prefix is a prefix of the result: first occurrences keep their order |
| References.ExtractAddresses | KontabApp/src/services/formulaService.ts:54-58 | every extracted reference parses as a cell address |
| References.ExtractAddressesExact | KontabApp/src/services/formulaService.ts:54-58 | a token is extracted exactly when it is an address token occurring as a whole word |
| References.ExtractBoundedRefs | KontabApp/src/utils/formulaParser.ts:39-43 | the extracted references are distinct and each is 1–3 letters followed by 1–5 digits |
| References.ExtractBoundedRefsExact | KontabApp/src/utils/formulaParser.ts:39-43 | a token is extracted exactly when it is a bounded reference occurring as a whole word |
| Arithmetic.TokenizeAllowed | KontabApp/src/utils/formulaParser.ts:59-63 | text that tokenizes holds only digits, `. + - * / % ( ) ,` and whitespace |
| Arithmetic.EvaluateArithmetic | KontabApp/src/services/formulaService.ts:134-141 | the evaluator accepts only text made of arithmetic characters; decimal and legacy-octal numerals are read as sloppy-mode JavaScript reads them (a legacy octal `0`-run is base 8, see the octal lemmas), and a line break right after `return` makes the result `undefined` when the rest evaluates (`LineBreakAfterReturn`) |
| Arithmetic.EvaluatesTo | KontabApp/src/services/formulaService.ts:138 | text whose tokens parse completely to x evaluates to x |
| Arithmetic.NaturalTextEvaluates | KontabApp/src/services/formulaService.ts:131-138 | the decimal text of any natural is one numeral token and evaluates to that natural |
| Arithmetic.IntegerText | KontabApp/src/services/formulaService.ts:131 | `toString` of an integer is its sign and its decimal digits |
| Arithmetic.NegatedTextEvaluates | KontabApp/src/services/formulaService.ts:131-138 | `-` followed by a natural's digits evaluates to the negated natural |
| Arithmetic.IntegerTextEvaluates | KontabApp/src/services/formulaService.ts:131-138 | evaluating the `toString` of any integer gives that integer back |
| Arithmetic.RemainderPositiveDivisor | KontabApp/src/utils/formulaParser.ts:68 | JavaScript `%` has the sign of the dividend and magnitude below the divisor |
| Arithmetic.RemainderNegatedDivisor | KontabApp/src/utils/formulaParser.ts:68 | the sign of the divisor does not change `%` |
| Arithmetic.RemainderTruncates | KontabApp/src/utils/formulaParser.ts:68 | `%` lies strictly within the divisor's magnitude, on the dividend's side of zero |
| Arithmetic.TokenizeNumeral | KontabApp/src/utils/formulaParser.ts:77 | a natural's digits followed by a non-numeral character tokenize to that number first |
| Arithmetic.TokenizeSymbol | KontabApp/src/utils/formulaParser.ts:77 | an operator or bracket not doubled into `++ -- ** // /*` is one token |
| Arithmetic.TokenizeSpace | KontabApp/src/utils/formulaParser.ts:61-63 | whitespace produces no token |
| Arithmetic.NumberUnary | KontabApp/src/services/formulaService.ts:138 | a number token is an operand by itself, leaving the rest |
| Arithmetic.ProductParses | KontabApp/src/services/formulaService.ts:138 | `x op y` for `* / %` is applied at the product level, or fails when the operator fails |
| Arithmetic.SumParses | KontabApp/src/services/formulaService.ts:138 | `x op y` for `+ -` is applied at the sum level |
| Arithmetic.BinaryParses | KontabApp/src/services/formulaService.ts:138 | `x op y` parses to the operator applied to x and y, or fails when the operator fails |
| Arithmetic.BinaryTokens | KontabApp/src/services/formulaService.ts:138 | `a op b` over naturals tokenizes to number, operator, number |
| Arithmetic.BinaryTextEvaluates | KontabApp/src/services/formulaService.ts:138 | `a op b` over naturals evaluates to the operator applied, or fails when it fails (division by zero) |
| Arithmetic.PrecedenceParses | KontabApp/src/services/formulaService.ts:138 | `x + y * z` parses as x + (y · z) |
| Arithmetic.EmptyExample | KontabApp/src/utils/formulaParser.ts:68 | `return ` with nothing after it yields `undefined` |
| Arithmetic.DoubleMinusExample | KontabApp/src/services/formulaService.ts:138-141 | `2--5` is rejected as a syntax error |
| Arithmetic.DivisionByZeroExample | KontabApp/src/services/formulaService.ts:138-141 | `1/0` is rejected |
| Arithmetic.LexNumber | KontabApp/src/services/formulaService.ts:138 | a numeral spans at least one character, each a digit or `.` |
| Arithmetic.TokenizeDigits | KontabApp/src/services/formulaService.ts:138 | `Tokenize` reads a digit run that is not a legacy octal literal, followed by a non-numeral character, as one decimal token |
| Arithmetic.TokenizeOctal | KontabApp/src/services/formulaService.ts:138 | `Tokenize` reads `0` followed by octal digits as one base-8 token, as sloppy-mode JavaScript does |
| Arithmetic.OctalPointFails | KontabApp/src/services/formulaService.ts:138-141 | a legacy octal literal followed by `.` is a syntax error |
| Arithmetic.LineBreakAfterReturn | KontabApp/src/services/formulaService.ts:138 | a line terminator right after `return ` ends the statement: text that evaluates yields `undefined`, and a failure stays that failure |
| Arithmetic.OctalSumExample | KontabApp/src/services/formulaService.ts:138 | `010+1` evaluates to 9 |
| Arithmetic.OctalPointExample | KontabApp/src/utils/formulaParser.ts:68-85 | `01.5` is a syntax error |
| Arithmetic.NonOctalExample | KontabApp/src/services/formulaService.ts:138 | `08` is the decimal 8, not an octal literal |
| Arithmetic.LineBreakExample | KontabApp/src/services/formulaService.ts:138 | `\n1+2` after `return ` yields `undefined` |
| FormulaService.Bind | KontabApp/src/services/formulaService.ts:21 | `context[ref] = value` sets that key, keeps every other binding and keeps keys distinct |
| FormulaService.LookupCons | KontabApp/src/services/formulaService.ts:21 | looking a key up finds the first entry's value for its key and searches the rest otherwise |
| FormulaService.DistinctCons | KontabApp/src/services/formulaService.ts:21 | an entry and a context have distinct keys exactly when the context does and lacks the entry's key |
| FormulaService.ContextOf | KontabApp/src/services/formulaService.ts:16-23 | the built context has distinct keys, all drawn from the references |
| FormulaService.ContextOfExact | KontabApp/src/services/formulaService.ts:16-23 | a reference is bound exactly when its cell holds a number, and then to that number |
| FormulaService.ContextStep | KontabApp/src/services/formulaService.ts:16-23 | one more reference whose cell holds a number is bound on top of the context of the others |
| FormulaService.BuildContext | KontabApp/src/services/formulaService.ts:16-23 | the `forEach` loop builds exactly the specified context |
| FormulaService.SubstitutedUnbound | KontabApp/src/services/formulaService.ts:129-132 | an expression containing no key of the context is left as it is |
| FormulaService.BoundReferenceSubstituted | KontabApp/src/services/formulaService.ts:129-132 | a bound reference at the front that does not occur again becomes its value's `toString()` |
| FormulaService.BoundReferenceArithmetic | KontabApp/src/services/formulaService.ts:127-142 | `key op b` with `key` bound to the natural `a` evaluates as `a op b`, or fails where that fails |
| FormulaService.SubstituteContext | KontabApp/src/services/formulaService.ts:129-132 | the replacement loop rewrites the text exactly as the specified substitution does |
| FormulaService.ArithmeticValue | KontabApp/src/services/formulaService.ts:127-142 | success yields a number or `undefined` and implies the substituted text was pure arithmetic; failure is reported as "Arithmetic evaluation failed: …"; the text is not trimmed, so a formula opening with a line break is `undefined` (`LineBreakFormula`) and legacy octal numerals are base 8 (`OctalFormula`) |
| FormulaService.EvaluateArithmeticExpression | KontabApp/src/services/formulaService.ts:127-142 | the method returns the specified arithmetic outcome (`ArithmeticValue`), legacy octal numerals and a leading line break included |
| FormulaService.SumRange | KontabApp/src/services/formulaService.ts:88-97 | the nested loops return the sum over the rectangle |
| FormulaService.RectSumNoColumns | KontabApp/src/services/formulaService.ts:89-90 | an empty column span sums to 0 |
| FormulaService.ReversedRangeSumsToZero | KontabApp/src/services/formulaService.ts:89-90 | a range whose end row or column precedes its start sums to 0 |
| FormulaService.RowSumFrame | KontabApp/src/services/formulaService.ts:90-95 | a row sum depends only on the cells in its span |
| FormulaService.RectSumFrame | KontabApp/src/services/formulaService.ts:89-96 | a range sum depends only on the cells in the rectangle |
| FormulaService.RowSumNoNumbers | KontabApp/src/services/formulaService.ts:91-94 | non-numeric cells add nothing to a row |
| FormulaService.RectSumNoNumbers | KontabApp/src/services/formulaService.ts:91-94 | a rectangle without numbers sums to 0 |
| FormulaService.RangeCorners | KontabApp/src/services/formulaService.ts:84-86 | failing to parse a corner is reported as an invalid cell address |
| FormulaService.ListSum | KontabApp/src/services/formulaService.ts:100-105 | the list sum succeeds exactly when every entry parses as an address, and then it is the left-to-right `reduce` adding each entry's number or 0 |
| FormulaService.ListEntries | KontabApp/src/services/formulaService.ts:100 | one entry per comma-separated part, each the trimmed part |
| FormulaService.ReducedOnto | KontabApp/src/services/formulaService.ts:101-105 | a `reduce` started from `acc` is `acc` plus the `reduce` started from 0 |
| FormulaService.ReducedStep | KontabApp/src/services/formulaService.ts:101-105 | one `reduce` step adds the first entry's number to the running sum |
| FormulaService.SumValue | KontabApp/src/services/formulaService.ts:81-107 | a rectangle succeeds exactly when both corners parse; a comma list succeeds exactly when every entry parses, and is then the `reduce` of its entries |
| FormulaService.AverageValue | KontabApp/src/services/formulaService.ts:109-125 | succeeds exactly when the sum and the count do, and is then the mean of the sum over the count |
| FormulaService.Mean | KontabApp/src/services/formulaService.ts:124 | `count > 0 ? sum / count : 0`: times a positive count it gives the sum back, and it is 0 otherwise |
| FormulaService.EvaluateSum | KontabApp/src/services/formulaService.ts:81-107 | the method returns the specified sum of a range or a list (`SumValue`; for comma lists of addresses, the sum over their cells by `SumListFormula`) |
| FormulaService.EvaluateAverage | KontabApp/src/services/formulaService.ts:109-125 | the method returns the specified average (`AverageValue`): the sum divided by the count, or 0 for a non-positive count |
| FormulaService.CallArgument | KontabApp/src/services/formulaService.ts:28-35 | a captured argument is non-empty, holds no `)` and occurs in the text between the name and a `)` |
| FormulaService.CallArgumentAtStart | KontabApp/src/services/formulaService.ts:28-35 | a call at the very start captures exactly its argument |
| FormulaService.Dispatch | KontabApp/src/services/formulaService.ts:26-47 | any text result of the dispatch is the original formula |
| FormulaService.ExtractedContextWellFormed | KontabApp/src/services/formulaService.ts:13-23 | every extracted reference parses, so building the context never throws |
| FormulaService.FormulaValue | KontabApp/src/services/formulaService.ts:5-52 | input not starting with `=` is returned unchanged; any text result is the formula itself or an `#ERROR: Error: ` message; never a boolean; the arithmetic case follows `new Function`, legacy octal and leading line break included (`OctalFormula`, `LineBreakFormula`) |
| FormulaService.EvaluateFormula | KontabApp/src/services/formulaService.ts:5-52 | the method returns the specified value of the formula (`FormulaValue`), including `=010+1` as 9 and a line break after `=` as `undefined` |
| FormulaService.UpperFormula | KontabApp/src/services/formulaService.ts:10-51 | for an expression with no lower-case letter, the value is the dispatch outcome, an error becoming `#ERROR: Error: …` |
| FormulaService.DispatchSum | KontabApp/src/services/formulaService.ts:27-32 | an expression starting with `SUM(` whose argument sums to s yields s |
| FormulaService.DispatchAverage | KontabApp/src/services/formulaService.ts:34-39 | an expression starting with `AVERAGE(` (and not `SUM(`) whose argument averages to a yields a |
| FormulaService.DispatchArithmetic | KontabApp/src/services/formulaService.ts:42-45 | an expression that is no call but has an operator is evaluated as arithmetic |
| FormulaService.UpperCaseFixed | KontabApp/src/services/formulaService.ts:10 | upper-casing text without lower-case letters changes nothing |
| FormulaService.AddressTextChars | KontabApp/src/services/formulaService.ts:60-61 | address text consists of upper-case letters and digits |
| FormulaService.RangeArgument | KontabApp/src/services/formulaService.ts:82-119 | `a:b` sums the rectangle from a to b and counts its area |
| FormulaService.RangeText | KontabApp/src/services/formulaService.ts:10-28 | a range argument of two canonical addresses holds no `)` and no lower-case letter |
| FormulaService.SumExpressionFormula | KontabApp/src/services/formulaService.ts:5-32 | an upper-case expression starting with `SUM(` evaluates to the sum of its captured argument |
| FormulaService.AverageExpressionFormula | KontabApp/src/services/formulaService.ts:5-39 | an upper-case expression starting with `AVERAGE(` (and not `SUM(`) evaluates to the average of its captured argument |
| FormulaService.SumCallFormula | KontabApp/src/services/formulaService.ts:5-32 | `=SUM(arg)`, for an argument without `)` or lower-case letters, evaluates to the sum of the argument |
| FormulaService.AverageCallFormula | KontabApp/src/services/formulaService.ts:5-39 | `=AVERAGE(arg)`, for such an argument, evaluates to the average of the argument |
| FormulaService.SumRangeFormula | KontabApp/src/services/formulaService.ts:5-97 | `=SUM(a:b)` evaluates to the sum of the numeric cells of the rectangle |
| FormulaService.AverageRangeFormula | KontabApp/src/services/formulaService.ts:5-125 | `=AVERAGE(a:b)` evaluates to that sum divided by the area, or 0 when the area is not positive |
| FormulaService.NotStartingWith | KontabApp/src/services/formulaService.ts:27-34 | text not starting with a capital does not start with a call name |
| FormulaService.NoLettersNoReferences | KontabApp/src/services/formulaService.ts:54-58 | text without capitals holds no references |
| FormulaService.LiteralArithmeticFormula | KontabApp/src/services/formulaService.ts:5-142 | a letter-free formula with an operator evaluates to the arithmetic result, or the arithmetic error message |
| FormulaService.ArithmeticErrorText | KontabApp/src/services/formulaService.ts:140 | an arithmetic failure reads `#ERROR: Error: Arithmetic evaluation failed: …` |
| FormulaService.BinaryTextChars | KontabApp/src/services/formulaService.ts:42-43 | `a op b` over naturals has no letters and only `op` as a non-digit |
| FormulaService.BinaryFormula | KontabApp/src/services/formulaService.ts:5-142 | `=a op b` for `+ - * /` evaluates to the operator applied; division by zero gives an arithmetic error |
| FormulaService.RemainderFormulaIsText | KontabApp/src/services/formulaService.ts:42-47 | `=a%b` has none of the tested operators (`HasOperator`) and is returned as its own text |
| FormulaService.OperatorTest | KontabApp/src/services/formulaService.ts:42-43 | `HasOperator` holds exactly when one of `+ - * /` occurs in the expression; `%` does not count |
| FormulaService.OctalFormula | KontabApp/src/services/formulaService.ts:10-138 | `=010+1` evaluates to 9: the expression is not trimmed or rewritten and `new Function` reads `010` as octal |
| FormulaService.LineBreakFormula | KontabApp/src/services/formulaService.ts:10-138 | `=` followed by a line break and `a op b` for `+ - * /` evaluates to `undefined`, because the line break ends the `return` statement |
| FormulaService.ParsesTo | KontabApp/src/services/formulaService.ts:101-102 | entries parse one by one to the given addresses |
| FormulaService.ReducedOfParsed | KontabApp/src/services/formulaService.ts:101-105 | the `reduce` over entries naming given addresses adds the numbers in their cells onto its start |
| FormulaService.ListSumOfParsed | KontabApp/src/services/formulaService.ts:98-106 | the list sum of entries naming given addresses is the sum of those cells, non-numbers counting 0 |
| FormulaService.TextsParse | KontabApp/src/services/formulaService.ts:60-79 | the A1 texts of addresses with row, col ≥ 0 parse back to them |
| FormulaService.ListSumOfTexts | KontabApp/src/services/formulaService.ts:98-106 | the list sum of the A1 texts of such addresses is the sum of their cells |
| FormulaService.SplitListText | KontabApp/src/services/formulaService.ts:100 | splitting a comma-joined list of A1 texts at `,` gives the texts back |
| FormulaService.ListEntriesOfText | KontabApp/src/services/formulaService.ts:100 | its trimmed entries are those texts |
| FormulaService.ListArgument | KontabApp/src/services/formulaService.ts:27-39 | the joined list is a valid `SUM(`/`AVERAGE(` argument: no `)`, no `:`, no lower case, sum over the listed cells, count the number of addresses |
| FormulaService.SumListFormula | KontabApp/src/services/formulaService.ts:5-106 | `=SUM(A1,B2,…)` over canonical addresses is the sum of the numbers in those cells, non-numbers counting 0 |
| FormulaService.AverageListFormula | KontabApp/src/services/formulaService.ts:5-125 | `=AVERAGE(A1,B2,…)` is that sum divided by the number of addresses |
| FormulaService.WordsOfA10 | KontabApp/src/services/formulaService.ts:55 | the only word of `A10` is `A10` |
| FormulaService.WordsOfPlusA10 | KontabApp/src/services/formulaService.ts:55 | the only word of `+A10` is `A10` |
| FormulaService.CollisionWords | KontabApp/src/services/formulaService.ts:55 | the words of `A1+A10` are `A1` and `A10` |
| FormulaService.CollisionTokens | KontabApp/src/services/formulaService.ts:60-71 | `A1` is row 0 and `A10` is row 9, both column 0 |
| FormulaService.CollisionReferences | KontabApp/src/services/formulaService.ts:54-58 | `A1+A10` references `A1` and `A10` |
| FormulaService.CollisionFilter | KontabApp/src/services/formulaService.ts:55 | both words are address tokens |
| FormulaService.CollisionFirst | KontabApp/src/services/formulaService.ts:16-23 | with A1 = 5 the context of `A1` alone is [A1 ↦ 5] |
| FormulaService.CollisionContext | KontabApp/src/services/formulaService.ts:16-23 | with A1 = 5 and A10 = 7 the context is [A1 ↦ 5, A10 ↦ 7] |
| FormulaService.ReplaceInsideA10 | KontabApp/src/services/formulaService.ts:131 | replacing `A1` by `5` turns `A10` into `50` |
| FormulaService.CollisionReplace | KontabApp/src/services/formulaService.ts:131 | replacing `A1` by `5` turns `A1+A10` into `5+50` |
| FormulaService.CollisionLeavesNoA10 | KontabApp/src/services/formulaService.ts:130-132 | after that no `A10` is left to replace |
| FormulaService.CollisionSubstitution | KontabApp/src/services/formulaService.ts:129-132 | the substitution turns `A1+A10` into `5+50` |
| FormulaService.CollisionArithmetic | KontabApp/src/services/formulaService.ts:138 | `5+50` evaluates to 55 |
| FormulaService.CollisionDispatch | KontabApp/src/services/formulaService.ts:26-45 | the dispatch of `A1+A10` in that context yields 55 |
| FormulaService.PrefixReferenceCollision | KontabApp/src/services/formulaService.ts:129-132 | with A1 = 5 and A10 = 7, `=A1+A10` evaluates to 55, not 12: the textual replacement of `A1` also rewrites `A10` |
| FormulaParser.SubstitutedUndefined | KontabApp/src/utils/formulaParser.ts:13-20 | references undefined in the context leave the expression unchanged |
| FormulaParser.SubstitutedFrame | KontabApp/src/utils/formulaParser.ts:13-20 | the substitution depends only on the context entries of the references |
| FormulaParser.SubstituteReferences | KontabApp/src/utils/formulaParser.ts:10-20 | the `forEach` loop rewrites the text exactly as the specified substitution does |
| FormulaParser.CallName | KontabApp/src/utils/formulaParser.ts:47-54 | the call names `VAT(` and `NETTO(` are capitals followed by `(` |
| FormulaParser.AmountLength | KontabApp/src/utils/formulaParser.ts:47-54 | the amount group `[^,]+` runs to the first comma |
| FormulaParser.RateMatch | KontabApp/src/utils/formulaParser.ts:47-54 | a matched rate is non-empty, holds no `)` and is closed by a `)` |
| FormulaParser.MatchCall | KontabApp/src/utils/formulaParser.ts:46-55 | a match starts with the name, ends at a `)`, has a non-empty amount without commas and a rate without `)` |
| FormulaParser.Render | KontabApp/src/utils/formulaParser.ts:48-55 | the replacement is parenthesised and opens with the matched amount |
| FormulaParser.Rewrite | KontabApp/src/utils/formulaParser.ts:45-57 | the global replace leaves text without the call name unchanged; the rewrite lemmas below give its result on matching text |
| FormulaParser.RewriteIfPresent | KontabApp/src/utils/formulaParser.ts:23-29 | checking for the call first gives the same text as rewriting unconditionally |
| FormulaParser.MatchWithoutRate | KontabApp/src/utils/formulaParser.ts:47-54 | `NAME(a)` followed by text without `,` or `)` matches with amount a and no rate |
| FormulaParser.RateAfterSpaces | KontabApp/src/utils/formulaParser.ts:47-54 | `\s*` before the rate is skipped and the rate runs to the `)` |
| FormulaParser.MatchRateCase | KontabApp/src/utils/formulaParser.ts:47-54 | an amount followed by a comma and a matching rate gives a match with that amount, rate and end |
| FormulaParser.MatchWithRate | KontabApp/src/utils/formulaParser.ts:47-54 | `NAME(a,` followed by a rate matches with amount a and that rate |
| FormulaParser.CallWithDefaultRate | KontabApp/src/utils/formulaParser.ts:45-57 | `VAT(a)` becomes `(a * 0.2)` and `NETTO(a)` becomes `(a / (1 + 0.2))` |
| FormulaParser.RewriteMatched | KontabApp/src/utils/formulaParser.ts:46-53 | a match at the start is rendered and the rewrite goes on after it |
| FormulaParser.CallWithRate | KontabApp/src/utils/formulaParser.ts:45-57 | `VAT(a, r)` becomes `(a * r)` and `NETTO(a, r)` becomes `(a / (1 + r))` |
| FormulaParser.CallSpansNextCall | KontabApp/src/utils/formulaParser.ts:47-54 | in `NAME(a)bNAME(,r)` the amount group runs past the first `)` up to the comma, so the two calls are rewritten as one |
| FormulaParser.KeepArith | KontabApp/src/utils/formulaParser.ts:62 | the filtered text holds only allowed characters, and allowed text is kept as it is |
| FormulaParser.Sanitize | KontabApp/src/utils/formulaParser.ts:61-63 | the sanitised text holds only allowed characters and has no blank at either end |
| FormulaParser.SanitizeIdempotent | KontabApp/src/utils/formulaParser.ts:61-63 | sanitising twice is sanitising once |
| FormulaParser.SanitizeKeeps | KontabApp/src/utils/formulaParser.ts:61-63 | trimmed text of allowed characters is its own sanitisation |
| FormulaParser.SafeValue | KontabApp/src/utils/formulaParser.ts:59-86 | the evaluation of sanitised text is a number, `undefined` or the error text |
| FormulaParser.EvaluateValue | KontabApp/src/utils/formulaParser.ts:3-37 | input not starting with `=` is returned unchanged; a formula yields a number, `undefined` or the error text; its trimmed arithmetic is evaluated as JavaScript reads it, so `=010+1` is 9 and `=01.5` is the error text (`OctalValues`) |
| FormulaParser.Evaluate | KontabApp/src/utils/formulaParser.ts:3-37 | the method, with its substitution and rewriting passes, returns the specified value (`EvaluateValue`), legacy octal numerals read as base 8 and `01.5` an error |
| FormulaParser.RewrittenExpression | KontabApp/src/utils/formulaParser.ts:10-28 | with no reference defined in the context and neither call present, substitution and both rewrites leave the expression as it is |
| FormulaParser.IsFormulaDecidesPassthrough | KontabApp/src/utils/formulaParser.ts:3-90 | `IsFormula` holds exactly for the values `evaluate` does not return unchanged |
| FormulaParser.ErrorIsNotFormula | KontabApp/src/utils/formulaParser.ts:88-90 | the error text does not start with `=`, so `isFormula` rejects it |
| FormulaParser.NoLettersNoBoundedRefs | KontabApp/src/utils/formulaParser.ts:39-43 | text without capitals holds no references |
| FormulaParser.NoLettersNoCall | KontabApp/src/utils/formulaParser.ts:23-27 | text without capitals contains no call name |
| FormulaParser.NoLettersRewritten | KontabApp/src/utils/formulaParser.ts:10-28 | text without capitals passes substitution and both rewrites unchanged |
| FormulaParser.TrimmedArithmetic | KontabApp/src/utils/formulaParser.ts:6 | the trimmed expression of an arithmetic-only formula is still arithmetic-only, with no capitals |
| FormulaParser.TrimmedSanitized | KontabApp/src/utils/formulaParser.ts:61-63 | that trimmed expression passes the sanitiser unchanged |
| FormulaParser.LiteralArithmeticValue | KontabApp/src/utils/formulaParser.ts:3-86 | a formula of arithmetic characters only evaluates to the evaluator's result on its trimmed text, or the error text |
| FormulaParser.BinaryValue | KontabApp/src/utils/formulaParser.ts:3-37 | `=a op b` for `+ - * / %` evaluates to the operator applied, or the error text for a zero divisor |
| FormulaParser.OctalValues | KontabApp/src/utils/formulaParser.ts:59-86 | `=010+1` evaluates to 9 and `=01.5` to the error text, because both evaluation attempts reject `01.5` |
| FormulaParser.FormulaDependencies | KontabApp/src/utils/formulaParser.ts:92-94 | the dependencies are distinct and are exactly the bounded references occurring as whole words |
| SpreadsheetController.WriteCell | KontabApp/server/src/controllers/spreadsheetController.js:94-100 | the written cell holds the value, every other cell is unchanged, and only the target row is added |
| SpreadsheetController.BlankRow | KontabApp/server/src/controllers/spreadsheetController.js:18 | a blank row has `''` exactly in columns 0 to n − 1 |
| SpreadsheetController.BlankGrid | KontabApp/server/src/controllers/spreadsheetController.js:18 | a blank grid has exactly the rows 0 to n − 1, each a blank row of 26 |
| SpreadsheetController.InitialGridCells | KontabApp/server/src/controllers/spreadsheetController.js:18 | `InitialGrid`, the first sheet, holds `''` exactly at rows 0–99 and columns 0–25 |
| SpreadsheetController.DisplayName | KontabApp/server/src/controllers/spreadsheetController.js:13 | a missing or empty name becomes "New Spreadsheet"; any other name is kept |
| SpreadsheetController.NewFormulaCell | KontabApp/server/src/controllers/spreadsheetController.js:104-148 | the entry stores the address and formula text, no calculated value, and distinct dependencies that are exactly the bounded references of the formula |
| SpreadsheetController.WithoutAddress | KontabApp/server/src/controllers/spreadsheetController.js:114-118 | the filter keeps exactly the entries for other addresses |
| SpreadsheetController.ForAddress | KontabApp/server/src/controllers/spreadsheetController.js:114-118 | selects exactly the entries for one address |
| SpreadsheetController.WithoutAddressAppend | KontabApp/server/src/controllers/spreadsheetController.js:114-115 | filtering distributes over concatenation |
| SpreadsheetController.ForAddressAppend | KontabApp/server/src/controllers/spreadsheetController.js:114-115 | selection distributes over concatenation |
| SpreadsheetController.WithoutAddressTwice | KontabApp/server/src/controllers/spreadsheetController.js:114-118 | filtering twice is filtering once |
| SpreadsheetController.ForRemovedAddress | KontabApp/server/src/controllers/spreadsheetController.js:114-118 | no entry for the address survives the filter |
| SpreadsheetController.FormulaListAfterWrite | KontabApp/server/src/controllers/spreadsheetController.js:103-119 | afterwards the address has exactly one entry (the new one, last) when the value is a formula and none otherwise; entries for every other address are unchanged and in order |
| SpreadsheetController.OtherAddressKept | KontabApp/server/src/controllers/spreadsheetController.js:114-118 | the filter keeps the entries of any other address, in order |
| SpreadsheetController.ForAbsentAddress | KontabApp/server/src/controllers/spreadsheetController.js:114-118 | an address without entries selects nothing |
| SpreadsheetController.UniqueForAddress | KontabApp/server/src/controllers/spreadsheetController.js:103-119 | in a list with unique addresses each address has at most one entry |
| SpreadsheetController.WithoutAddressUnique | KontabApp/server/src/controllers/spreadsheetController.js:114-118 | filtering keeps addresses unique |
| SpreadsheetController.FormulaListStaysUnique | KontabApp/server/src/controllers/spreadsheetController.js:103-119 | a write keeps the formula list at one entry per address |
| SpreadsheetController.Sheet.Initial | KontabApp/server/src/controllers/spreadsheetController.js:15-23 | the first sheet is "Sheet1" with the blank 100 × 26 grid and no formulas |
| SpreadsheetController.Sheet.WriteValue | KontabApp/server/src/controllers/spreadsheetController.js:94-100 | the sheet's grid becomes the written grid |
| SpreadsheetController.Sheet.RecordFormula | KontabApp/server/src/controllers/spreadsheetController.js:102-119 | the sheet's formula list becomes the maintained list |
| SpreadsheetController.WriteAndStamp | KontabApp/server/src/controllers/spreadsheetController.js:94-121 | the sheet's grid and formula list become the written ones and the document's `updatedAt` is now, touching only those three fields |
| SpreadsheetController.FindSheet | KontabApp/server/src/controllers/spreadsheetController.js:89 | finds the first sheet with the id, or none exactly when no sheet has it |
| SpreadsheetController.Spreadsheet.Create | KontabApp/server/src/controllers/spreadsheetController.js:6-29 | the new spreadsheet has its name or the default, its owner, no shares, is no template and has both dates now; its one fresh sheet is the blank "Sheet1" with no formulas and both dates now |
| SpreadsheetController.FindAccessible | KontabApp/server/src/controllers/spreadsheetController.js:80-83 | finds a spreadsheet with the id that the user owns or shares (`AccessibleTo`), or none exactly when there is no such spreadsheet |
| SpreadsheetController.UpdateCell | KontabApp/server/src/controllers/spreadsheetController.js:63-133 | a bad address gives 400, a missing spreadsheet or sheet gives 404, and a rejection changes nothing; on success the cell is written at (digits − 1, decoded letters), the formula list is maintained, `updatedAt` is now, and no other field or object changes |
| SpreadsheetController.StatusCode | KontabApp/server/src/controllers/spreadsheetController.js:72-128 | 200 exactly for an update, 400 exactly for a bad address, 404 exactly for a missing spreadsheet or sheet |
| SpreadsheetController.ErrorMessagesDiffer | KontabApp/server/src/controllers/spreadsheetController.js:72-91 | each rejection has its own error text, so the two 404 answers differ in their bodies |
| Records.Merge | KontabApp/src/store/useStore.ts:154 | `{ ...r, ...updates }` has both key sets, the updates winning |
| Records.MergeIdempotent | KontabApp/src/store/useStore.ts:154 | merging the same updates twice is merging once |
| Records.WithoutId | KontabApp/src/store/useStore.ts:157-159 | the filter keeps exactly the entries without the id |
| Records.WithoutIdKeepsOthers | KontabApp/src/store/useStore.ts:157-159 | the filter keeps the others in order and as often as before, and drops every entry with the id |
| Records.WithoutIdUnchanged | KontabApp/src/store/useStore.ts:157-159 | the filter changes nothing exactly when no entry has the id |
| Records.UpdateId | KontabApp/src/store/useStore.ts:152-156 | the map keeps the length, merges the updates into every entry with the id and leaves the others |
| Records.UpdateIdAbsent | KontabApp/src/store/useStore.ts:152-156 | without such an entry nothing changes |
| Records.UpdateIdIdempotent | KontabApp/src/store/useStore.ts:152-156 | updating twice with the same updates is updating once |
| Records.ReviseTwice | KontabApp/src/store/useStore.ts:154 | revising one record twice with the same updates and stamp is revising it once |
| Records.Revise | KontabApp/src/store/useStore.ts:154 | the revised record has the old keys, the updated keys and, when stamped, `updatedAt`; updates win over old values; stamped, its `UpdatedTime` is the stamp |
| Records.FirstIndex | KontabApp/src/services/api.ts:33 | `findIndex` gives the first entry with the id, or none exactly when there is none |
| Records.FindById | KontabApp/src/store/useStore.ts:136 | `find` gives the first entry with the id, or none exactly when there is none |
| Records.RemoveAt | KontabApp/src/services/api.ts:44 | `splice(i, 1)` removes that one entry |
| Records.Count | KontabApp/src/store/useStore.ts:191-193 | a filtered count is at most the length, 0 exactly when no entry meets the condition, and the length exactly when all do |
| Records.CountAppend | KontabApp/src/store/useStore.ts:191-193 | counting over a concatenation adds the counts |
| Records.StatusCountsPartition | KontabApp/src/store/useStore.ts:191-193 | entries with a status and entries without it add up to the length |
| Records.DueWithinMeets | KontabApp/src/services/api.ts:141-145 | `Meets` for a deadline: a task is due within the span exactly when its `dueDate` is a `Date` strictly inside it |
| Records.InsertByRecency | KontabApp/src/store/useStore.ts:140-141 | inserting keeps every entry |
| Records.NoneNewerPermuted | KontabApp/src/store/useStore.ts:140-141 | a time bound on entries does not depend on their order |
| Records.InsertKeepsOrder | KontabApp/src/store/useStore.ts:140-141 | inserting into a newest-first list keeps it newest-first |
| Records.SortByRecency | KontabApp/src/store/useStore.ts:140-141 | the sort is a permutation, newest first |
| Store.InitialStats | KontabApp/src/store/useStore.ts:189-196 | the initial counts: all clients; active clients, unprocessed documents and tasks not completed, each equal to the filtered count of its list; 3 deadlines and revenue 12500 |
| Store.RecentAfterAdd | KontabApp/src/store/useStore.ts:112 | the new spreadsheet comes first, followed by the first four previous recent entries, at most five in all |
| Store.CurrentAfterUpdate | KontabApp/src/store/useStore.ts:122-124 | the current selection is revised exactly when it has the id |
| Store.CurrentAfterDelete | KontabApp/src/store/useStore.ts:130-132 | the current selection is cleared exactly when it has the id |
| Store.NewestPrefix | KontabApp/src/store/useStore.ts:140-142 | a prefix of a newest-first list is no older than anything after it |
| Store.RecentByTime | KontabApp/src/store/useStore.ts:138-143 | `slice(0, limit)` many entries (five by default, or fewer stored; a negative limit counts from the end), newest first, drawn from the stored list, and no left-out entry is newer than one returned |
| Store.SortedPrefix | KontabApp/src/store/useStore.ts:140-142 | a prefix of the newest-first sort is newest first, drawn from the list, and no older than what it leaves out |
| Store.AppStore.constructor | KontabApp/src/store/useStore.ts:101-198 | initial state: no spreadsheets and no selection, the mock lists, and the initial stats |
| Store.AppStore.AddSpreadsheet | KontabApp/src/store/useStore.ts:109-113 | appends to the spreadsheets and puts it at the head of the recent list |
| Store.AppStore.UpdateSpreadsheet | KontabApp/src/store/useStore.ts:114-125 | merges the updates and the time stamp into the matching entries of both lists and into the selection |
| Store.AppStore.DeleteSpreadsheet | KontabApp/src/store/useStore.ts:126-133 | removes the id from both lists and clears a matching selection |
| Store.AppStore.GetSpreadsheetById | KontabApp/src/store/useStore.ts:135-137 | the first spreadsheet with the id, or none exactly when there is none |
| Store.AppStore.GetRecentSpreadsheets | KontabApp/src/store/useStore.ts:138-143 | the first `slice(0, limit)` entries of the newest-first sort of the current list: as many as `slice` keeps (five by default, negative limits counting from the end), newest first, and no left-out entry newer than one returned |
| Store.AppStore.AddClient | KontabApp/src/store/useStore.ts:151 | appends the client |
| Store.AppStore.UpdateClient | KontabApp/src/store/useStore.ts:152-156 | merges the updates into every client with the id |
| Store.AppStore.DeleteClient | KontabApp/src/store/useStore.ts:157-159 | removes every client with the id |
| Store.AppStore.AddDocument | KontabApp/src/store/useStore.ts:165 | appends the document |
| Store.AppStore.DeleteDocument | KontabApp/src/store/useStore.ts:166-168 | removes every document with the id |
| Store.AppStore.AddTask | KontabApp/src/store/useStore.ts:174 | appends the task |
| Store.AppStore.UpdateTask | KontabApp/src/store/useStore.ts:175-179 | merges the updates into every task with the id |
| Store.AppStore.DeleteTask | KontabApp/src/store/useStore.ts:180-182 | removes every task with the id |
| Store.AppStore.AddCalendarEvent | KontabApp/src/store/useStore.ts:200-202 | appends the event |
| Store.AppStore.UpdateCalendarEvent | KontabApp/src/store/useStore.ts:203-207 | merges the updates into every event with the id |
| Store.AppStore.DeleteCalendarEvent | KontabApp/src/store/useStore.ts:208-210 | removes every event with the id |
| Store.DeletedNotFound | KontabApp/src/store/useStore.ts:128-136 | after a delete, lookup by that id finds nothing |
| Store.AddedFound | KontabApp/src/store/useStore.ts:111-136 | after adding a spreadsheet with a new id, lookup finds it |
| MockApi.LastPartOfRest | KontabApp/src/services/api.ts:157 | splitting at the first separator leaves the same last part as splitting the rest |
| MockApi.LastSeparatorOfRest | KontabApp/src/services/api.ts:157 | the last separator of the text is the last one of the rest after its first separator |
| MockApi.LastPartAfterLast | KontabApp/src/services/api.ts:157 | `split(sep).pop()` is the text after the last separator |
| MockApi.ExtensionOf | KontabApp/src/services/api.ts:157 | `Extension` of `name.ext`, for an `ext` without a dot, is `ext` in lower case |
| MockApi.DotlessName | KontabApp/src/services/api.ts:157 | a name without a dot is its own extension |
| MockApi.FileTypeByExtension | KontabApp/src/services/api.ts:156-162 | `FileType` of `name.ext` is an invoice exactly for pdf, payroll exactly for xlsx/xls/csv, a receipt exactly for jpg/jpeg/png, and other otherwise, in any letter case |
| MockApi.FileTypeNamesDiffer | KontabApp/src/services/api.ts:156-162 | each document type is stored under its own name |
| MockApi.Created | KontabApp/src/services/api.ts:22-100 | a created record keeps the data and adds the id (prefix + clock) and the creation date |
| MockApi.CreatedIdsDiffer | KontabApp/src/services/api.ts:24-97 | ids made from two clock readings are equal exactly when the readings are |
| MockApi.WithClient | KontabApp/src/services/api.ts:56 | keeps exactly the documents of the client |
| MockApi.WithClientAppend | KontabApp/src/services/api.ts:56 | filtering a concatenation by client filters each part, in order |
| MockApi.Uploaded | KontabApp/src/services/api.ts:61-74 | the uploaded document has exactly the keys of the source's literal: its id, client, file names, the type from its extension, the file size, the upload date, month and year, not processed, and the given amount and VAT |
| MockApi.WithStatus | KontabApp/src/services/api.ts:110-113 | the status is set; `completedAt` is set to now only for "completed" and otherwise left as it was; no other key is added or changed |
| MockApi.WithStatusIdempotent | KontabApp/src/services/api.ts:110-113 | setting the same status twice is setting it once |
| MockApi.RemoveFirstAbsent | KontabApp/src/services/api.ts:40-85 | without the id, `RemoveFirst` changes nothing |
| MockApi.RemoveFirstPresent | KontabApp/src/services/api.ts:40-85 | with the id, `RemoveFirst` splices out the entry at the first index holding the id: one fewer entry and one fewer with the id, the rest kept in order |
| MockApi.DeleteKeepsDuplicates | KontabApp/src/services/api.ts:42-44 | unlike the store's filter, the API keeps later duplicates of a deleted id |
| MockApi.CountWithout | KontabApp/src/services/api.ts:44 | removing an entry lowers a count by whether it met the condition |
| MockApi.DropOneSubsequence | KontabApp/src/services/api.ts:44 | removing one entry keeps the others in order |
| MockApi.MockStore.constructor | KontabApp/src/services/api.ts:3 | the lists start as the mock data |
| MockApi.MockStore.GetClientById | KontabApp/src/services/api.ts:15-18 | the first client with the id, or none exactly when there is none |
| MockApi.MockStore.GetDocumentsByClient | KontabApp/src/services/api.ts:54-57 | exactly the documents of the client |
| MockApi.MockStore.CreateClient | KontabApp/src/services/api.ts:20-29 | pushes the created client at the end and returns it |
| MockApi.MockStore.UpdateClient | KontabApp/src/services/api.ts:31-38 | fails with "Client not found" and no change when the id is absent; otherwise replaces only the first matching client by the merged record and returns it |
| MockApi.MockStore.DeleteClient | KontabApp/src/services/api.ts:40-46 | removes the first client with the id, if any |
| MockApi.MockStore.UploadDocument | KontabApp/src/services/api.ts:59-77 | pushes the uploaded document at the end and returns it |
| MockApi.MockStore.DeleteDocument | KontabApp/src/services/api.ts:79-85 | removes the first document with the id, if any |
| MockApi.MockStore.CreateTask | KontabApp/src/services/api.ts:93-103 | pushes the created task, with no comments, at the end and returns it |
| MockApi.MockStore.UpdateTaskStatus | KontabApp/src/services/api.ts:105-115 | fails with "Task not found" and no change when the id is absent; otherwise updates the status of the first matching task and returns it |
| MockApi.MockStore.CreateAccountingEntry | KontabApp/src/services/api.ts:123-131 | pushes the entry with its new id at the end and returns it |
| MockApi.DashboardStats | KontabApp/src/services/api.ts:134-153 | all clients; active clients, unprocessed documents, tasks not completed and tasks due strictly within the next week, each equal to the filtered count of its list, active and not completed adding up with their complements to the length; revenue 12500 and 3 spreadsheets |
| MockApi.MockStore.GetDashboardStats | KontabApp/src/services/api.ts:134-153 | over the store's current lists at the given time: all clients, and the filtered counts of active clients, unprocessed documents, tasks not completed and tasks due within the next week; revenue 12500 and 3 spreadsheets |

## Left out

- JavaScript code evaluation is not modelled. `new Function` and `eval` run arbitrary code; the model evaluates the arithmetic subset instead (numerals, `+ - * / %`, unary signs, parentheses, comma) and rejects everything else.
- Arithmetic.EvaluateArithmetic: a line terminator after the first character is white space, whereas automatic semicolon insertion could also end a statement there; only the line break right after `return` is modelled. A regular-expression literal `/…/` in operand position is an evaluation error in the model.
- Arithmetic.EvaluateArithmetic: the client evaluator hands its upper-cased expression to `new Function` without sanitising it, so JavaScript also reads exponent (`1E3`), hexadecimal (`0X1F`), binary (`0B1`), `0O` octal and separator (`1_000`) numerals there. The model reads only decimal and legacy-octal numerals and reports these as an arithmetic failure. In `FormulaParser` the sanitiser strips their letters and underscores first, so the model agrees with the code there.
- Arithmetic.LineBreakAfterReturn: after a leading line break JavaScript only parses the rest and never runs it, so `\n1/0`, or `\nA1+1` with `A1` unbound, gives `undefined`. The model keeps the failure in both cases, because it treats division by zero as an error and rejects names everywhere; only a rest that evaluates is mapped to `undefined`.
- IEEE floating point is not modelled: numbers are exact reals. Rounding, `Infinity` and `NaN` do not exist. Division or remainder by zero is an evaluation error, where JavaScript yields `Infinity` or `NaN`.
- Arithmetic.NumberText: `toString` is modelled as sign, integer digits and up to 20 fraction digits. It does not use the shortest round-trip digits or the exponent form for very large or very small numbers.
- `parseInt` is the exact value of the digits; precision lost above 2^53 is not modelled.
- Case mapping is ASCII only; Unicode case rules are not modelled.
- Replacement texts are taken literally: a `$` pattern in a replacement string is not interpreted.
- `null` and `undefined` are both `Empty` in cells, and a missing key in records.
- FormulaParser.Defined: a context entry holding `null` counts as undefined and is not substituted. In the source `null !== undefined`, so `A1: null` is replaced by the quoted text `"null"`, which the sanitiser strips entirely; `=A1+1` then gives 1 there, while the model leaves `A1` in place, the sanitiser strips the `A`, and the result is 2 (FormulaParser.ValueText has no case for `null`).
- Cell values other than strings, numbers, booleans and empty are not modelled.
- Clocks (`Date.now()`, `new Date()`), `uuidv4()` and the month and year of an upload are parameters. The `delay` promises are dropped. `getDashboardStats` reads one clock value for both bounds of the deadline window, where the source reads the clock twice.
- Store.AppStore.UpdateSpreadsheet: one `now` stands for the three `new Date()` calls of the source, which may differ by milliseconds.
- SpreadsheetController.UpdateCell: one `now` stands for the two `new Date()` calls, the formula entry's `lastCalculated` and the document's `updatedAt`.
- SpreadsheetController.Spreadsheet.Create: one `now` stands for the four `new Date()` calls, the sheet's and the document's `createdAt` and `updatedAt`.
- Persistence, the database calls, HTTP routing and response bodies, JSON serialisation, and the 500 answers for thrown errors are not modelled. The 201 answer of `createSpreadsheet` is not modelled.
- Records.UpdatedTime: only an `updatedAt` holding a `Date` gives its time; every other value counts as 0. In JavaScript `new Date(null)` is also 0, but a number or a date string gives the time it denotes, and a missing `updatedAt` gives `NaN`, for which the comparator returns `NaN`, read as equal, so the order around such a record is left to the engine.
- Records.Meets: a due date is compared only when it is a `Date`; a due date stored as a string is never upcoming.
- Store.AppStore.GetRecentSpreadsheets: the stability of the sort (ties keep their order) is not stated. The result is stated as exactly the prefix of the newest-first sort that `slice(0, limit)` keeps, but the sort itself is specified only as a newest-first permutation, not as the engine's particular order of ties.
- The store setters (`setSpreadsheets`, `setClients`, `setSelectedClient`, `setIsLoading`, `setNotification`, `setDashboardStats` and the like) are plain field assignments and are not modelled.
- Authentication state (`user`, `setAuth`, `logout`) lives in browser storage and is not modelled.
- The store and the mock API share the same mock arrays in the source. The model gives each its own lists, so the aliasing between them is not captured.
- The API's list getters (`getClients`, `getDocuments`, `getTasks`, `getAccountingEntries`) return copies of a list and are not modelled.
- MockApi.MockStore.UpdateTaskStatus: the source writes the status into the found task object, which any other holder of that object also sees. The model replaces the entry in the list.
- The merge conflicts in `useStore.ts` and `api.ts` are resolved to the HEAD side.
- Formatting data, `xlsx` import and export, and `getSpreadsheet` are not part of this model; `getSpreadsheet` shares its access rule with `SpreadsheetController.FindAccessible`.
