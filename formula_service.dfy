/**
 * The client-side formula evaluator (`FormulaService.evaluateFormula`): a
 * cell's raw text is either returned as it is or, when it starts with `=`,
 * upper-cased and dispatched to SUM, AVERAGE, arithmetic over the numeric
 * cells it references, or the unevaluated formula text. A thrown error
 * becomes the text `#ERROR: Error: <message>`.
 */
module FormulaService {
  import opened Text
  import opened Wrappers
  import opened Cells
  import opened CellAddress
  import opened References
  import opened Arithmetic

  /**
   * The `Record<string, number>` filled with `context[ref] = value`: its
   * entries in insertion order, which is the order `Object.entries` lists
   * them in (every key starts with a letter, so none is an array index).
   */
  type Context = seq<(string, real)>

  /** `context[key]`. */
  function Lookup(ctx: Context, key: string): Option<real> {
    if ctx == [] then None else if ctx[0].0 == key then Some(ctx[0].1) else Lookup(ctx[1..], key)
  }

  function KeySet(ctx: Context): set<string> {
    set i | 0 <= i < |ctx| :: ctx[i].0
  }

  predicate DistinctKeys(ctx: Context) {
    forall i, j :: 0 <= i < j < |ctx| ==> ctx[i].0 != ctx[j].0
  }

  /** The keys of an entry followed by a context. */
  lemma KeySetCons(entry: (string, real), rest: Context)
    ensures KeySet([entry] + rest) == {entry.0} + KeySet(rest)
  {
    var ctx := [entry] + rest;
    forall k | k in KeySet(ctx) ensures k in {entry.0} + KeySet(rest) {
      var i :| 0 <= i < |ctx| && ctx[i].0 == k;
      if i > 0 {
        assert ctx[i] == rest[i - 1];
        assert k in KeySet(rest);
      }
    }
    forall k | k in {entry.0} + KeySet(rest) ensures k in KeySet(ctx) {
      if k == entry.0 {
        assert ctx[0].0 == k;
      } else {
        var i :| 0 <= i < |rest| && rest[i].0 == k;
        assert ctx[i + 1].0 == k;
      }
    }
  }

  /** `context[key] = value`: an existing key keeps its place, a new key goes last. */
  function Bind(ctx: Context, key: string, value: real): (r: Context)
    ensures Lookup(r, key) == Some(value)
    ensures forall k :: k != key ==> Lookup(r, k) == Lookup(ctx, k)
    ensures KeySet(r) == KeySet(ctx) + {key}
    ensures DistinctKeys(ctx) ==> DistinctKeys(r)
  {
    if ctx == [] then
      KeySetCons((key, value), []);
      [(key, value)]
    else
      var first, tail := ctx[0], ctx[1..];
      assert ctx == [first] + tail;
      KeySetCons(first, tail);
      DistinctCons(first, tail);
      if first.0 == key then
        KeySetCons((key, value), tail);
        DistinctCons((key, value), tail);
        LookupCons(first, tail);
        LookupCons((key, value), tail);
        [(key, value)] + tail
      else
        var rest := Bind(tail, key, value);
        KeySetCons(first, rest);
        DistinctCons(first, rest);
        LookupCons(first, tail);
        LookupCons(first, rest);
        [first] + rest
  }

  /** Looking a key up in an entry followed by a context. */
  lemma LookupCons(entry: (string, real), rest: Context)
    ensures forall k :: Lookup([entry] + rest, k) == if entry.0 == k then Some(entry.1) else Lookup(rest, k)
  {
    forall k ensures Lookup([entry] + rest, k) == if entry.0 == k then Some(entry.1) else Lookup(rest, k) {
      assert ([entry] + rest)[0] == entry && ([entry] + rest)[1..] == rest;
    }
  }

  /** An entry followed by a context has distinct keys when the context does and lacks the entry's key. */
  lemma DistinctCons(entry: (string, real), rest: Context)
    ensures DistinctKeys([entry] + rest) <==> entry.0 !in KeySet(rest) && DistinctKeys(rest)
  {
    var ctx := [entry] + rest;
    if DistinctKeys(ctx) {
      forall i, j | 0 <= i < j < |rest| ensures rest[i].0 != rest[j].0 {
        assert ctx[i + 1] == rest[i] && ctx[j + 1] == rest[j];
      }
      forall i | 0 <= i < |rest| ensures rest[i].0 != entry.0 {
        assert ctx[0] == entry && ctx[i + 1] == rest[i];
      }
    }
    if entry.0 !in KeySet(rest) && DistinctKeys(rest) {
      forall i, j | 0 <= i < j < |ctx| ensures ctx[i].0 != ctx[j].0 {
        assert ctx[j] == rest[j - 1];
        if i > 0 {
          assert ctx[i] == rest[i - 1];
        } else {
          assert rest[j - 1].0 in KeySet(rest);
        }
      }
    }
  }

  /** The value a reference token designates: `sheet.data[row]?.[col]`. */
  function RefValue(ref: string, data: Grid): CellValue
    requires ParseCellAddress(ref).Ok?
  {
    var a := ParseCellAddress(ref).value;
    CellAt(data, a.row, a.col)
  }

  /** One step of the `forEach`: bind `ref` when its cell holds a number. */
  function BindReference(ctx: Context, ref: string, data: Grid): Context
    requires ParseCellAddress(ref).Ok?
  {
    var v := RefValue(ref, data);
    if v.Num? then Bind(ctx, ref, v.n) else ctx
  }

  predicate AllParse(refs: seq<string>) {
    forall r :: r in refs ==> ParseCellAddress(r).Ok?
  }

  /** The context built from the references, in order. */
  function ContextOf(refs: seq<string>, data: Grid): (ctx: Context)
    requires AllParse(refs)
    ensures DistinctKeys(ctx)
    ensures KeySet(ctx) <= set r | r in refs
  {
    if refs == [] then []
    else
      var init := refs[..|refs| - 1];
      assert forall r :: r in init ==> r in refs;
      BindReference(ContextOf(init, data), refs[|refs| - 1], data)
  }

  /**
   * The context binds exactly the references of the expression whose cell
   * holds a number, each to that number.
   */
  lemma {:induction false} ContextOfExact(refs: seq<string>, data: Grid, key: string)
    requires AllParse(refs)
    ensures Lookup(ContextOf(refs, data), key).Some? <==> key in refs && RefValue(key, data).Num?
    ensures Lookup(ContextOf(refs, data), key).Some? ==>
      RefValue(key, data) == Num(Lookup(ContextOf(refs, data), key).value)
  {
    if refs != [] {
      var init := refs[..|refs| - 1];
      var last := refs[|refs| - 1];
      ContextOfLast(refs, data, key);
      ContextOfExact(init, data, key);
      BindReferenceLookup(ContextOf(init, data), last, data, key);
    }
  }

  /** The context of a non-empty list is the one of all but its last reference, with that one bound. */
  lemma ContextOfLast(refs: seq<string>, data: Grid, key: string)
    requires AllParse(refs) && refs != []
    ensures AllParse(refs[..|refs| - 1])
    ensures ContextOf(refs, data) == BindReference(ContextOf(refs[..|refs| - 1], data), refs[|refs| - 1], data)
    ensures key in refs <==> key in refs[..|refs| - 1] || key == refs[|refs| - 1]
  {
    var init := refs[..|refs| - 1];
    assert forall r :: r in init ==> r in refs;
    assert refs == init + [refs[|refs| - 1]];
  }

  /** One binding step changes the lookup of its own reference only, and only when the cell holds a number. */
  lemma BindReferenceLookup(ctx: Context, ref: string, data: Grid, key: string)
    requires ParseCellAddress(ref).Ok?
    ensures key != ref ==> Lookup(BindReference(ctx, ref, data), key) == Lookup(ctx, key)
    ensures key == ref && RefValue(ref, data).Num? ==>
      Lookup(BindReference(ctx, ref, data), key) == Some(RefValue(ref, data).n)
    ensures key == ref && !RefValue(ref, data).Num? ==>
      Lookup(BindReference(ctx, ref, data), key) == Lookup(ctx, key)
  {
  }

  /** The `forEach` that fills the context. */
  method BuildContext(refs: seq<string>, data: Grid) returns (ctx: Context)
    requires AllParse(refs)
    ensures ctx == ContextOf(refs, data)
  {
    ctx := [];
    var i := 0;
    while i < |refs|
      invariant 0 <= i <= |refs|
      invariant AllParse(refs[..i])
      invariant ctx == ContextOf(refs[..i], data)
    {
      assert refs[..i + 1][..i] == refs[..i];
      var a := ParseCellAddress(refs[i]).value;
      var value := CellAt(data, a.row, a.col);
      if value.Num? {
        ctx := Bind(ctx, refs[i], value.n);
      }
      i := i + 1;
    }
    assert refs[..|refs|] == refs;
  }

  predicate KeysNonEmpty(ctx: Context) {
    forall i :: 0 <= i < |ctx| ==> ctx[i].0 != []
  }

  /**
   * The text after the substitution loop of `evaluateArithmetic`: for each
   * entry in order, every occurrence of its key is replaced by the value's
   * `toString()`. The replacement is textual: a key also matches inside a
   * longer reference that starts with it.
   */
  function Substituted(expression: string, ctx: Context): string
    requires KeysNonEmpty(ctx)
  {
    if ctx == [] then expression
    else
      var last := ctx[|ctx| - 1];
      ReplaceAll(Substituted(expression, ctx[..|ctx| - 1]), last.0, NumberText(last.1))
  }

  /** When no key of the context occurs in the expression, substitution changes nothing. */
  lemma {:induction false} SubstitutedUnbound(expression: string, ctx: Context)
    requires KeysNonEmpty(ctx)
    requires forall i :: 0 <= i < |ctx| ==> !HasSubstring(expression, ctx[i].0)
    ensures Substituted(expression, ctx) == expression
  {
    if ctx != [] {
      SubstitutedUnbound(expression, ctx[..|ctx| - 1]);
      ReplaceAllAbsent(expression, ctx[|ctx| - 1].0, NumberText(ctx[|ctx| - 1].1));
    }
  }

  /** A bound reference at the front, not occurring again, becomes its value's text. */
  lemma BoundReferenceSubstituted(key: string, v: real, rest: string)
    requires key != [] && !HasSubstring(rest, key)
    ensures Substituted(key + rest, [(key, v)]) == NumberText(v) + rest
  {
    var ctx := [(key, v)];
    assert ctx[..0] == [];
    assert (key + rest)[..|key|] == key && (key + rest)[|key|..] == rest;
    ReplaceAllAbsent(rest, key, NumberText(v));
  }

  /**
   * `key op b` in the context `[key ↦ a]`, for a reference starting with a
   * capital, is evaluated as `a op b`.
   */
  lemma BoundReferenceArithmetic(key: string, a: nat, op: char, b: nat)
    requires key != [] && IsUpper(key[0])
    requires op == '+' || op == '-' || op == '*' || op == '/' || op == '%'
    ensures Apply(op, a as real, b as real).Ok? ==>
      ArithmeticValue(key + ([op] + DecimalText(b)), [(key, a as real)]) == Ok(Num(Apply(op, a as real, b as real).value))
    ensures Apply(op, a as real, b as real).Err? ==>
      ArithmeticValue(key + ([op] + DecimalText(b)), [(key, a as real)]).Err?
  {
    var rest := [op] + DecimalText(b);
    if HasSubstring(rest, key) {
      SubstringPrefix(rest, key, [key[0]]);
      CharSubstring(rest, key[0]);
      assert false;
    }
    BoundReferenceSubstituted(key, a as real, rest);
    IntegerText(a);
    BinaryTextEvaluates(a, op, b);
  }

  /** The substitution loop of `evaluateArithmetic`. */
  method SubstituteContext(expression: string, ctx: Context) returns (text: string)
    requires KeysNonEmpty(ctx)
    ensures text == Substituted(expression, ctx)
  {
    text := expression;
    var i := 0;
    while i < |ctx|
      invariant 0 <= i <= |ctx|
      invariant text == Substituted(expression, ctx[..i])
    {
      assert ctx[..i + 1][..i] == ctx[..i];
      text := ReplaceAll(text, ctx[i].0, NumberText(ctx[i].1));
      i := i + 1;
    }
    assert ctx[..|ctx|] == ctx;
  }

  /** The prefix of the message rethrown by `evaluateArithmetic`. */
  const ArithmeticFailure: string := "Arithmetic evaluation failed: "

  /** The tag in front of the message of an error caught by `evaluateFormula`. */
  const ErrorTag: string := "#ERROR: Error: "

  /**
   * `evaluateArithmetic`: substitute, then evaluate; a failure is rethrown
   * as `Arithmetic evaluation failed: <error>`.
   */
  function ArithmeticValue(expression: string, ctx: Context): (r: Result<CellValue>)
    requires KeysNonEmpty(ctx)
    ensures r.Ok? ==> r.value.Num? || r.value.Empty?
    ensures r.Err? ==> StartsWith(r.error, ArithmeticFailure)
    ensures r.Ok? ==> forall i :: 0 <= i < |Substituted(expression, ctx)| ==>
      IsArithChar(Substituted(expression, ctx)[i])
  {
    match EvaluateArithmetic(Substituted(expression, ctx))
    case Ok(Some(v)) => Ok(Num(v))
    case Ok(None) => Ok(Empty)
    case Err(e) => Err(ArithmeticFailure + e)
  }

  method EvaluateArithmeticExpression(expression: string, ctx: Context) returns (r: Result<CellValue>)
    requires KeysNonEmpty(ctx)
    ensures r == ArithmeticValue(expression, ctx)
  {
    var text := SubstituteContext(expression, ctx);
    var outcome := EvaluateArithmetic(text);
    if outcome.Err? {
      r := Err(ArithmeticFailure + outcome.error);
    } else if outcome.value.Some? {
      r := Ok(Num(outcome.value.value));
    } else {
      r := Ok(Empty);
    }
  }

  /** The numbers in row `row`, columns `c0..c1` inclusive; non-numbers count 0. */
  function RowSum(data: Grid, row: int, c0: int, c1: int): real
    decreases c1 - c0 + 1
  {
    if c1 < c0 then 0.0 else RowSum(data, row, c0, c1 - 1) + NumberOrZero(CellAt(data, row, c1))
  }

  /** The numbers in rows `r0..r1` and columns `c0..c1` inclusive; non-numbers count 0. */
  function RectSum(data: Grid, r0: int, r1: int, c0: int, c1: int): real
    decreases r1 - r0 + 1
  {
    if r1 < r0 then 0.0 else RectSum(data, r0, r1 - 1, c0, c1) + RowSum(data, r1, c0, c1)
  }

  /** The nested `for` loops of a range `evaluateSum`. */
  method SumRange(data: Grid, r0: int, r1: int, c0: int, c1: int) returns (sum: real)
    ensures sum == RectSum(data, r0, r1, c0, c1)
  {
    sum := 0.0;
    var row := r0;
    while row <= r1
      invariant r0 <= row && (row <= r1 + 1 || row == r0)
      invariant sum == RectSum(data, r0, row - 1, c0, c1)
      decreases r1 - row + 1
    {
      var col := c0;
      ghost var before := sum;
      while col <= c1
        invariant c0 <= col && (col <= c1 + 1 || col == c0)
        invariant sum == before + RowSum(data, row, c0, col - 1)
        decreases c1 - col + 1
      {
        var value := CellAt(data, row, col);
        if value.Num? {
          sum := sum + value.n;
        }
        col := col + 1;
      }
      assert RowSum(data, row, c0, col - 1) == RowSum(data, row, c0, c1);
      row := row + 1;
    }
  }

  /** A rectangle with no columns sums to 0. */
  lemma {:induction false} RectSumNoColumns(data: Grid, r0: int, r1: int, c0: int, c1: int)
    requires c1 < c0
    ensures RectSum(data, r0, r1, c0, c1) == 0.0
    decreases r1 - r0 + 1
  {
    if r1 >= r0 {
      RectSumNoColumns(data, r0, r1 - 1, c0, c1);
    }
  }

  /** A reversed range, in either direction, sums to 0. */
  lemma ReversedRangeSumsToZero(data: Grid, r0: int, r1: int, c0: int, c1: int)
    requires r1 < r0 || c1 < c0
    ensures RectSum(data, r0, r1, c0, c1) == 0.0
  {
    if c1 < c0 {
      RectSumNoColumns(data, r0, r1, c0, c1);
    }
  }

  /** A row sum reads only the cells of its row segment. */
  lemma {:induction false} RowSumFrame(d1: Grid, d2: Grid, row: int, c0: int, c1: int)
    requires forall c :: c0 <= c <= c1 ==> CellAt(d1, row, c) == CellAt(d2, row, c)
    ensures RowSum(d1, row, c0, c1) == RowSum(d2, row, c0, c1)
    decreases c1 - c0 + 1
  {
    if c1 >= c0 {
      RowSumFrame(d1, d2, row, c0, c1 - 1);
    }
  }

  /** A range sum reads only the cells inside its rectangle. */
  lemma {:induction false} RectSumFrame(d1: Grid, d2: Grid, r0: int, r1: int, c0: int, c1: int)
    requires forall r, c :: r0 <= r <= r1 && c0 <= c <= c1 ==> CellAt(d1, r, c) == CellAt(d2, r, c)
    ensures RectSum(d1, r0, r1, c0, c1) == RectSum(d2, r0, r1, c0, c1)
    decreases r1 - r0 + 1
  {
    if r1 >= r0 {
      RectSumFrame(d1, d2, r0, r1 - 1, c0, c1);
      RowSumFrame(d1, d2, r1, c0, c1);
    }
  }

  /** A row segment without numbers sums to 0. */
  lemma {:induction false} RowSumNoNumbers(data: Grid, row: int, c0: int, c1: int)
    requires forall c :: c0 <= c <= c1 ==> !CellAt(data, row, c).Num?
    ensures RowSum(data, row, c0, c1) == 0.0
    decreases c1 - c0 + 1
  {
    if c1 >= c0 {
      RowSumNoNumbers(data, row, c0, c1 - 1);
    }
  }

  /** A rectangle without numbers (text, booleans, holes) sums to 0. */
  lemma {:induction false} RectSumNoNumbers(data: Grid, r0: int, r1: int, c0: int, c1: int)
    requires forall r, c :: r0 <= r <= r1 && c0 <= c <= c1 ==> !CellAt(data, r, c).Num?
    ensures RectSum(data, r0, r1, c0, c1) == 0.0
    decreases r1 - r0 + 1
  {
    if r1 >= r0 {
      RectSumNoNumbers(data, r0, r1 - 1, c0, c1);
      RowSumNoNumbers(data, r1, c0, c1);
    }
  }

  /** `const [start, end] = range.split(':')`, both parsed, start first. */
  function RangeCorners(range: string): (r: Result<(Address, Address)>)
    requires ':' in range
    ensures r.Err? ==> StartsWith(r.error, "Invalid cell address: ")
  {
    var parts := Split(range, ':');
    var start :- ParseCellAddress(parts[0]);
    var end :- ParseCellAddress(parts[1]);
    Ok((start, end))
  }

  /** `range.split(',').map(cell => cell.trim())`. */
  function ListEntries(range: string): (entries: seq<string>)
    ensures |entries| == |Split(range, ',')|
    ensures forall i :: 0 <= i < |entries| ==> entries[i] == Trim(Split(range, ',')[i])
  {
    var parts := Split(range, ',');
    seq(|parts|, i requires 0 <= i < |parts| => Trim(parts[i]))
  }

  /**
   * The number in the cell an entry names, or 0. An entry that does not
   * parse also counts 0 here; `ListSum` fails before that can matter.
   */
  function EntryValue(entry: string, data: Grid): real {
    match ParseCellAddress(entry)
    case Ok(a) => NumberOrZero(CellAt(data, a.row, a.col))
    case Err(_) => 0.0
  }

  /** `entries.reduce((sum, cell) => sum + value(cell), acc)`: the entries added onto `acc` from left to right. */
  function Reduced(entries: seq<string>, data: Grid, acc: real): real
    decreases |entries|
  {
    if entries == [] then acc
    else Reduced(entries[1..], data, acc + EntryValue(entries[0], data))
  }

  /** The running sum a `reduce` starts from is added to the whole result. */
  lemma {:induction false} ReducedOnto(entries: seq<string>, data: Grid, acc: real)
    ensures Reduced(entries, data, acc) == acc + Reduced(entries, data, 0.0)
    decreases |entries|
  {
    if entries != [] {
      var v, tail := EntryValue(entries[0], data), entries[1..];
      ReducedOnto(tail, data, acc + v);
      ReducedOnto(tail, data, 0.0 + v);
    }
  }

  /**
   * The `reduce` of a list sum: it succeeds exactly when every entry parses,
   * and then it is the left-to-right sum of each entry's number or 0.
   */
  function ListSum(entries: seq<string>, data: Grid): (r: Result<real>)
    ensures r.Ok? <==> AllParse(entries)
    ensures r.Ok? ==> r.value == Reduced(entries, data, 0.0)
  {
    if entries == [] then Ok(0.0)
    else
      var a := ParseCellAddress(entries[0]);
      if a.Err? then Err(a.error)
      else
        var rest := ListSum(entries[1..], data);
        AllParseCons(entries);
        if rest.Err? then rest
        else
          ReducedOnto(entries[1..], data, 0.0 + EntryValue(entries[0], data));
          Ok(EntryValue(entries[0], data) + rest.value)
  }

  /** A list parses when its first entry and the rest do. */
  lemma AllParseCons(entries: seq<string>)
    requires entries != []
    ensures AllParse(entries) <==> ParseCellAddress(entries[0]).Ok? && AllParse(entries[1..])
  {
    assert forall r :: r in entries <==> r == entries[0] || r in entries[1..];
  }

  /**
   * `evaluateSum`: a rectangle when the argument has a `:`, a comma list
   * otherwise. A rectangle fails exactly when a corner does not parse; a
   * list fails exactly when an entry does not parse, and otherwise adds its
   * entries' numbers from left to right.
   */
  function SumValue(range: string, data: Grid): (r: Result<real>)
    ensures ':' in range ==> (r.Ok? <==> RangeCorners(range).Ok?)
    ensures ':' !in range ==> (r.Ok? <==> AllParse(ListEntries(range)))
    ensures ':' !in range && r.Ok? ==> r.value == Reduced(ListEntries(range), data, 0.0)
  {
    if ':' in range then
      var corners :- RangeCorners(range);
      Ok(RectSum(data, corners.0.row, corners.1.row, corners.0.col, corners.1.col))
    else
      ListSum(ListEntries(range), data)
  }

  method EvaluateSum(range: string, data: Grid) returns (r: Result<real>)
    ensures r == SumValue(range, data)
  {
    if ':' in range {
      var corners := RangeCorners(range);
      if corners.Err? {
        r := Err(corners.error);
      } else {
        var (start, end) := corners.value;
        var sum := SumRange(data, start.row, end.row, start.col, end.col);
        r := Ok(sum);
      }
    } else {
      r := ListSum(ListEntries(range), data);
    }
  }

  /** The divisor of `evaluateAverage`: the rectangle's area, or the number of list entries. */
  function CellCount(range: string): Result<int> {
    if ':' in range then
      var corners :- RangeCorners(range);
      Ok((corners.1.row - corners.0.row + 1) * (corners.1.col - corners.0.col + 1))
    else
      Ok(|Split(range, ',')|)
  }

  /** `evaluateAverage`: the sum divided by the count, or 0 when the count is not positive. */
  function AverageValue(range: string, data: Grid): (r: Result<real>)
    ensures r.Ok? <==> SumValue(range, data).Ok? && CellCount(range).Ok?
    ensures r.Ok? ==> r.value == Mean(SumValue(range, data).value, CellCount(range).value)
  {
    var sum :- SumValue(range, data);
    var count :- CellCount(range);
    Ok(Mean(sum, count))
  }

  /** `count > 0 ? sum / count : 0`: the number that, times a positive count, gives the sum back. */
  function Mean(sum: real, count: int): (m: real)
    ensures count > 0 ==> m * count as real == sum
    ensures count <= 0 ==> m == 0.0
  {
    if count > 0 then sum / count as real else 0.0
  }

  method EvaluateAverage(range: string, data: Grid) returns (r: Result<real>)
    ensures r == AverageValue(range, data)
  {
    var sum := EvaluateSum(range, data);
    if sum.Err? {
      r := Err(sum.error);
    } else {
      match CellCount(range)
      case Err(e) =>
        r := Err(e);
      case Ok(count) =>
        if count > 0 {
          r := Ok(sum.value / count as real);
        } else {
          r := Ok(0.0);
        }
    }
  }

  /**
   * The group of the first match of `NAME\(([^)]+)\)` in `s`, where `name`
   * is `NAME(`: the non-empty text between an occurrence of `name` and the
   * first `)` after it.
   */
  function CallArgument(s: string, name: string): (r: Option<string>)
    requires name != []
    ensures r.Some? ==> r.value != [] && ')' !in r.value && HasSubstring(s, name + r.value + ")")
    decreases |s|
  {
    if s == [] then None
    else if StartsWith(s, name) && ')' in s[|name|..] && IndexOfChar(s[|name|..], ')') > 0 then
      var tail := s[|name|..];
      var arg := tail[..IndexOfChar(tail, ')')];
      assert s[..|name + arg + ")"|] == name + arg + ")";
      Some(arg)
    else
      var r := CallArgument(s[1..], name);
      assert r.Some? ==> !StartsWith(s, name + r.value + ")") ==> HasSubstring(s, name + r.value + ")");
      r
  }

  /** At the start of the text, the argument runs from the name to the first `)`. */
  lemma CallArgumentAtStart(name: string, arg: string, rest: string)
    requires name != [] && arg != [] && ')' !in arg
    ensures CallArgument(name + arg + ")" + rest, name) == Some(arg)
  {
    var s := name + arg + ")" + rest;
    var tail := s[|name|..];
    assert tail == arg + ")" + rest;
    assert tail[|arg|] == ')';
    assert ')' !in tail[..|arg|] by { assert tail[..|arg|] == arg; }
    assert IndexOfChar(tail, ')') == |arg|;
    assert tail[..|arg|] == arg;
    assert s[..|name|] == name;
  }

  predicate HasOperator(expression: string) {
    HasSubstring(expression, "+") || HasSubstring(expression, "-")
    || HasSubstring(expression, "*") || HasSubstring(expression, "/")
  }

  /** The operator test holds exactly when one of `+ - * /` occurs in the expression; `%` does not count. */
  lemma OperatorTest(expression: string)
    ensures HasOperator(expression) <==>
      '+' in expression || '-' in expression || '*' in expression || '/' in expression
  {
    CharSubstring(expression, '+');
    CharSubstring(expression, '-');
    CharSubstring(expression, '*');
    CharSubstring(expression, '/');
    assert "+" == ['+'] && "-" == ['-'] && "*" == ['*'] && "/" == ['/'];
  }

  /** The `try` block of `evaluateFormula`, on the upper-cased expression and the context. */
  function Dispatch(formula: string, expression: string, ctx: Context, data: Grid): (r: Result<CellValue>)
    requires KeysNonEmpty(ctx)
    ensures r.Ok? && r.value.Text? ==> r.value.s == formula
  {
    if StartsWith(expression, "SUM(") && CallArgument(expression, "SUM(").Some? then
      var sum :- SumValue(CallArgument(expression, "SUM(").value, data);
      Ok(Num(sum))
    else if StartsWith(expression, "AVERAGE(") && CallArgument(expression, "AVERAGE(").Some? then
      var average :- AverageValue(CallArgument(expression, "AVERAGE(").value, data);
      Ok(Num(average))
    else if HasOperator(expression) then
      ArithmeticValue(expression, ctx)
    else
      Ok(Text(formula))
  }

  /** `${error}` of a thrown `Error`, behind the error tag. */
  function ErrorValue(message: string): CellValue {
    Text(ErrorTag + message)
  }

  /** Every reference the expression yields parses, so the context is well formed. */
  lemma ExtractedContextWellFormed(expression: string, data: Grid)
    ensures AllParse(ExtractAddresses(expression))
    ensures KeysNonEmpty(ContextOf(ExtractAddresses(expression), data))
  {
    var refs := ExtractAddresses(expression);
    var ctx := ContextOf(refs, data);
    forall i | 0 <= i < |ctx| ensures ctx[i].0 != [] {
      assert ctx[i].0 in KeySet(ctx);
      AddressTokenIsWord(ctx[i].0);
    }
  }

  /**
   * `evaluateFormula(formula, sheet)`. The result is the value computed, the
   * original text (not a formula, or not a form the evaluator knows), or an
   * error text; no error escapes.
   */
  function FormulaValue(formula: string, data: Grid): (v: CellValue)
    ensures !StartsWith(formula, "=") ==> v == Text(formula)
    ensures v.Text? ==> v.s == formula || StartsWith(v.s, ErrorTag)
    ensures v.Bool? ==> false
  {
    if !StartsWith(formula, "=") then Text(formula)
    else
      var expression := ToUpper(formula[1..]);
      var refs := ExtractAddresses(expression);
      ExtractedContextWellFormed(expression, data);
      var ctx := ContextOf(refs, data);
      var outcome := Dispatch(formula, expression, ctx, data);
      if outcome.Ok? then outcome.value else ErrorValue(outcome.error)
  }

  method EvaluateFormula(formula: string, data: Grid) returns (v: CellValue)
    ensures v == FormulaValue(formula, data)
  {
    if !StartsWith(formula, "=") {
      return Text(formula);
    }
    var expression := ToUpper(formula[1..]);
    var refs := ExtractAddresses(expression);
    ExtractedContextWellFormed(expression, data);
    var ctx := BuildContext(refs, data);
    var outcome: Result<CellValue>;
    var sumArg := CallArgument(expression, "SUM(");
    var averageArg := CallArgument(expression, "AVERAGE(");
    if StartsWith(expression, "SUM(") && sumArg.Some? {
      var sum := EvaluateSum(sumArg.value, data);
      outcome := if sum.Ok? then Ok(Num(sum.value)) else Err(sum.error);
    } else if StartsWith(expression, "AVERAGE(") && averageArg.Some? {
      var average := EvaluateAverage(averageArg.value, data);
      outcome := if average.Ok? then Ok(Num(average.value)) else Err(average.error);
    } else if HasOperator(expression) {
      outcome := EvaluateArithmeticExpression(expression, ctx);
    } else {
      outcome := Ok(Text(formula));
    }
    v := if outcome.Ok? then outcome.value else ErrorValue(outcome.error);
  }

  /** The steps of `evaluateFormula` on a formula whose expression is already upper case. */
  lemma UpperFormula(expression: string, data: Grid)
    requires forall i :: 0 <= i < |expression| ==> !IsLower(expression[i])
    ensures KeysNonEmpty(ContextOf(ExtractAddresses(expression), data))
    ensures var outcome := Dispatch("=" + expression, expression, ContextOf(ExtractAddresses(expression), data), data);
      FormulaValue("=" + expression, data) == if outcome.Ok? then outcome.value else ErrorValue(outcome.error)
  {
    var formula := "=" + expression;
    assert formula[1..] == expression;
    UpperCaseFixed(expression);
    ExtractedContextWellFormed(expression, data);
  }

  /** The text of a one-argument call formula. */
  lemma CallFormulaText(arg: string)
    ensures "=SUM(" + arg + ")" == "=" + ("SUM(" + arg + ")")
    ensures "=AVERAGE(" + arg + ")" == "=" + ("AVERAGE(" + arg + ")")
  {
  }

  lemma DispatchSum(formula: string, expression: string, ctx: Context, data: Grid, arg: string, sum: real)
    requires KeysNonEmpty(ctx)
    requires StartsWith(expression, "SUM(") && CallArgument(expression, "SUM(") == Some(arg)
    requires SumValue(arg, data) == Ok(sum)
    ensures Dispatch(formula, expression, ctx, data) == Ok(Num(sum))
  {
  }

  lemma DispatchAverage(formula: string, expression: string, ctx: Context, data: Grid, arg: string, average: real)
    requires KeysNonEmpty(ctx)
    requires !StartsWith(expression, "SUM(")
    requires StartsWith(expression, "AVERAGE(") && CallArgument(expression, "AVERAGE(") == Some(arg)
    requires AverageValue(arg, data) == Ok(average)
    ensures Dispatch(formula, expression, ctx, data) == Ok(Num(average))
  {
  }

  lemma DispatchArithmetic(formula: string, expression: string, ctx: Context, data: Grid)
    requires KeysNonEmpty(ctx)
    requires !StartsWith(expression, "SUM(") && !StartsWith(expression, "AVERAGE(")
    requires HasOperator(expression)
    ensures Dispatch(formula, expression, ctx, data) == ArithmeticValue(expression, ctx)
  {
  }

  /** Text without lower-case letters is its own upper case. */
  lemma UpperCaseFixed(s: string)
    requires forall i :: 0 <= i < |s| ==> !IsLower(s[i])
    ensures ToUpper(s) == s
  {
  }

  /** The canonical text of an address has only capitals and digits. */
  lemma AddressTextChars(a: Address)
    requires a.row >= 0 && a.col >= 0
    ensures forall i :: 0 <= i < |AddressText(a)| ==> IsUpper(AddressText(a)[i]) || IsDigit(AddressText(a)[i])
  {
    var letters, digits := ColumnName(a.col), DecimalText(a.row + 1);
    assert AddressText(a) == letters + digits;
  }

  /** The range `A:B` of two canonical addresses parses back into its two corners. */
  lemma RangeCornersOf(a: Address, b: Address)
    requires a.row >= 0 && a.col >= 0 && b.row >= 0 && b.col >= 0
    ensures var range := AddressText(a) + ":" + AddressText(b);
      ':' in range && RangeCorners(range) == Ok((a, b))
  {
    var ta, tb := AddressText(a), AddressText(b);
    var range := ta + ":" + tb;
    AddressTextChars(a);
    AddressTextChars(b);
    assert ':' !in ta && ':' !in tb;
    SplitPair(ta, tb, ':');
    assert range == ta + [':'] + tb;
    ParseAddressText(a);
    ParseAddressText(b);
  }

  /** The range argument `A:B` of two canonical addresses yields both corners and the area. */
  lemma RangeArgument(a: Address, b: Address, data: Grid)
    requires a.row >= 0 && a.col >= 0 && b.row >= 0 && b.col >= 0
    ensures SumValue(AddressText(a) + ":" + AddressText(b), data) == Ok(RectSum(data, a.row, b.row, a.col, b.col))
    ensures CellCount(AddressText(a) + ":" + AddressText(b)) == Ok((b.row - a.row + 1) * (b.col - a.col + 1))
  {
    var range := AddressText(a) + ":" + AddressText(b);
    RangeCornersOf(a, b);
    CornersSum(range, a, b, data);
    CornersCount(range, a, b);
  }

  lemma CornersSum(range: string, a: Address, b: Address, data: Grid)
    requires ':' in range && RangeCorners(range) == Ok((a, b))
    ensures SumValue(range, data) == Ok(RectSum(data, a.row, b.row, a.col, b.col))
  {
  }

  lemma CornersCount(range: string, a: Address, b: Address)
    requires ':' in range && RangeCorners(range) == Ok((a, b))
    ensures CellCount(range) == Ok((b.row - a.row + 1) * (b.col - a.col + 1))
  {
  }

  /** The range argument of two canonical addresses has no lower-case letter and no `)`. */
  lemma RangeText(a: Address, b: Address)
    requires a.row >= 0 && a.col >= 0 && b.row >= 0 && b.col >= 0
    ensures var arg := AddressText(a) + ":" + AddressText(b);
      arg != [] && ')' !in arg && forall i :: 0 <= i < |arg| ==> !IsLower(arg[i])
  {
    var ta, tb := AddressText(a), AddressText(b);
    var arg := ta + ":" + tb;
    AddressTextChars(a);
    AddressTextChars(b);
    forall i | 0 <= i < |arg| ensures arg[i] != ')' && !IsLower(arg[i]) {
      if i < |ta| {
        assert arg[i] == ta[i];
      } else if i > |ta| {
        assert arg[i] == tb[i - |ta| - 1];
      }
    }
  }

  /** A one-argument call around text without lower-case letters has none either. */
  lemma CallText(name: string, arg: string)
    requires forall i :: 0 <= i < |name| ==> !IsLower(name[i])
    requires forall i :: 0 <= i < |arg| ==> !IsLower(arg[i])
    ensures var e := name + arg + ")"; forall i :: 0 <= i < |e| ==> !IsLower(e[i])
  {
    var e := name + arg + ")";
    forall i | 0 <= i < |e| ensures !IsLower(e[i]) {
      if i < |name| {
        assert e[i] == name[i];
      } else if i < |name| + |arg| {
        assert e[i] == arg[i - |name|];
      }
    }
  }

  /** The facts about a one-argument call expression the dispatch looks at. */
  lemma CallExpression(name: string, arg: string)
    requires name != [] && forall i :: 0 <= i < |name| ==> !IsLower(name[i])
    requires arg != [] && ')' !in arg && forall i :: 0 <= i < |arg| ==> !IsLower(arg[i])
    ensures var e := name + arg + ")";
      StartsWith(e, name) && CallArgument(e, name) == Some(arg)
      && forall i :: 0 <= i < |e| ==> !IsLower(e[i])
  {
    var e := name + arg + ")";
    CallText(name, arg);
    CallArgumentAtStart(name, arg, []);
    assert name + arg + ")" + [] == e;
    assert e[..|name|] == name;
  }

  /** An upper-case `SUM(` call expression evaluates to the sum of its argument. */
  lemma SumExpressionFormula(expression: string, arg: string, data: Grid, sum: real)
    requires forall i :: 0 <= i < |expression| ==> !IsLower(expression[i])
    requires StartsWith(expression, "SUM(") && CallArgument(expression, "SUM(") == Some(arg)
    requires SumValue(arg, data) == Ok(sum)
    ensures FormulaValue("=" + expression, data) == Num(sum)
  {
    UpperFormula(expression, data);
    DispatchSum("=" + expression, expression, ContextOf(ExtractAddresses(expression), data), data, arg, sum);
  }

  /** An upper-case `AVERAGE(` call expression evaluates to the average of its argument. */
  lemma AverageExpressionFormula(expression: string, arg: string, data: Grid, average: real)
    requires forall i :: 0 <= i < |expression| ==> !IsLower(expression[i])
    requires !StartsWith(expression, "SUM(")
    requires StartsWith(expression, "AVERAGE(") && CallArgument(expression, "AVERAGE(") == Some(arg)
    requires AverageValue(arg, data) == Ok(average)
    ensures FormulaValue("=" + expression, data) == Num(average)
  {
    UpperFormula(expression, data);
    DispatchAverage("=" + expression, expression, ContextOf(ExtractAddresses(expression), data), data, arg, average);
  }

  /** The dispatch facts about `SUM(arg)`. */
  lemma SumCallExpression(arg: string)
    requires arg != [] && ')' !in arg && forall i :: 0 <= i < |arg| ==> !IsLower(arg[i])
    ensures StartsWith("SUM(" + arg + ")", "SUM(") && CallArgument("SUM(" + arg + ")", "SUM(") == Some(arg)
    ensures forall i :: 0 <= i < |"SUM(" + arg + ")"| ==> !IsLower(("SUM(" + arg + ")")[i])
  {
    CallExpression("SUM(", arg);
  }

  /** The dispatch facts about `AVERAGE(arg)`. */
  lemma AverageCallExpression(arg: string)
    requires arg != [] && ')' !in arg && forall i :: 0 <= i < |arg| ==> !IsLower(arg[i])
    ensures !StartsWith("AVERAGE(" + arg + ")", "SUM(")
    ensures StartsWith("AVERAGE(" + arg + ")", "AVERAGE(") && CallArgument("AVERAGE(" + arg + ")", "AVERAGE(") == Some(arg)
    ensures forall i :: 0 <= i < |"AVERAGE(" + arg + ")"| ==> !IsLower(("AVERAGE(" + arg + ")")[i])
  {
    var expression := "AVERAGE(" + arg + ")";
    CallExpression("AVERAGE(", arg);
    assert !StartsWith(expression, "SUM(") by { assert expression[1] == 'V'; }
  }

  /** `=SUM(arg)`, for an argument without `)` or lower-case letters, is the sum of the argument. */
  lemma SumCallFormula(arg: string, data: Grid, sum: real)
    requires arg != [] && ')' !in arg && forall i :: 0 <= i < |arg| ==> !IsLower(arg[i])
    requires SumValue(arg, data) == Ok(sum)
    ensures FormulaValue("=" + ("SUM(" + arg + ")"), data) == Num(sum)
  {
    SumCallExpression(arg);
    SumExpressionFormula("SUM(" + arg + ")", arg, data, sum);
  }

  /** `=AVERAGE(arg)`, for an argument without `)` or lower-case letters, is the average of the argument. */
  lemma AverageCallFormula(arg: string, data: Grid, average: real)
    requires arg != [] && ')' !in arg && forall i :: 0 <= i < |arg| ==> !IsLower(arg[i])
    requires AverageValue(arg, data) == Ok(average)
    ensures FormulaValue("=" + ("AVERAGE(" + arg + ")"), data) == Num(average)
  {
    AverageCallExpression(arg);
    AverageExpressionFormula("AVERAGE(" + arg + ")", arg, data, average);
  }

  /**
   * `=SUM(A:B)` over two canonical addresses is the sum of the numbers in
   * the rectangle from row A to row B and column A to column B; a reversed
   * range sums nothing.
   */
  lemma SumRangeFormula(a: Address, b: Address, data: Grid)
    requires a.row >= 0 && a.col >= 0 && b.row >= 0 && b.col >= 0
    ensures FormulaValue("=SUM(" + (AddressText(a) + ":" + AddressText(b)) + ")", data)
      == Num(RectSum(data, a.row, b.row, a.col, b.col))
  {
    var arg := AddressText(a) + ":" + AddressText(b);
    RangeText(a, b);
    RangeArgument(a, b, data);
    SumCallFormula(arg, data, RectSum(data, a.row, b.row, a.col, b.col));
    CallFormulaText(arg);
  }

  /**
   * `=AVERAGE(A:B)` over two canonical addresses is the rectangle's sum
   * divided by its area, and 0 when the area is not positive.
   */
  lemma AverageRangeFormula(a: Address, b: Address, data: Grid)
    requires a.row >= 0 && a.col >= 0 && b.row >= 0 && b.col >= 0
    ensures var area := (b.row - a.row + 1) * (b.col - a.col + 1);
      FormulaValue("=AVERAGE(" + (AddressText(a) + ":" + AddressText(b)) + ")", data)
      == Num(if area > 0 then RectSum(data, a.row, b.row, a.col, b.col) / area as real else 0.0)
  {
    var arg := AddressText(a) + ":" + AddressText(b);
    RangeText(a, b);
    RangeArgument(a, b, data);
    var area := (b.row - a.row + 1) * (b.col - a.col + 1);
    var sum := RectSum(data, a.row, b.row, a.col, b.col);
    assert AverageValue(arg, data) == Ok(if area > 0 then sum / area as real else 0.0);
    AverageCallFormula(arg, data, if area > 0 then sum / area as real else 0.0);
    CallFormulaText(arg);
  }

  predicate Canonical(addrs: seq<Address>) {
    forall k :: 0 <= k < |addrs| ==> addrs[k].row >= 0 && addrs[k].col >= 0
  }

  /** The list argument `A1,B2,…` of canonical addresses. */
  function ListText(addrs: seq<Address>): string
    requires |addrs| >= 1 && Canonical(addrs)
  {
    if |addrs| == 1 then AddressText(addrs[0])
    else AddressText(addrs[0]) + [','] + ListText(addrs[1..])
  }

  function AddressTexts(addrs: seq<Address>): (texts: seq<string>)
    requires Canonical(addrs)
    ensures |texts| == |addrs|
  {
    if addrs == [] then [] else [AddressText(addrs[0])] + AddressTexts(addrs[1..])
  }

  /** The number in the cell at an address, or 0. */
  function CellNumber(data: Grid, a: Address): real {
    NumberOrZero(CellAt(data, a.row, a.col))
  }

  /** The numbers in the cells of a list of addresses; non-numbers count 0. */
  function CellsSum(addrs: seq<Address>, data: Grid): real {
    if addrs == [] then 0.0 else CellNumber(data, addrs[0]) + CellsSum(addrs[1..], data)
  }

  lemma CellsSumCons(addrs: seq<Address>, data: Grid)
    requires addrs != []
    ensures CellsSum(addrs, data) == CellNumber(data, addrs[0]) + CellsSum(addrs[1..], data)
  {
  }

  /** The list text has only capitals, digits and commas. */
  lemma {:induction false} ListTextChars(addrs: seq<Address>)
    requires |addrs| >= 1 && Canonical(addrs)
    ensures forall i :: 0 <= i < |ListText(addrs)| ==>
      IsUpper(ListText(addrs)[i]) || IsDigit(ListText(addrs)[i]) || ListText(addrs)[i] == ','
    decreases |addrs|
  {
    AddressTextChars(addrs[0]);
    if |addrs| > 1 {
      ListTextChars(addrs[1..]);
      var t0, rest := AddressText(addrs[0]), ListText(addrs[1..]);
      var s := t0 + [','] + rest;
      assert ListText(addrs) == s;
      forall i | 0 <= i < |s| ensures IsUpper(s[i]) || IsDigit(s[i]) || s[i] == ',' {
        if i < |t0| {
          assert s[i] == t0[i];
        } else if i > |t0| {
          assert s[i] == rest[i - |t0| - 1];
        }
      }
    }
  }

  /** Splitting the list text at its commas gives back the address texts. */
  lemma {:induction false} SplitListText(addrs: seq<Address>)
    requires |addrs| >= 1 && Canonical(addrs)
    ensures Split(ListText(addrs), ',') == AddressTexts(addrs)
    decreases |addrs|
  {
    var t0 := AddressText(addrs[0]);
    AddressTextChars(addrs[0]);
    assert ',' !in t0;
    assert AddressTexts(addrs[1..]) == [] ==> AddressTexts(addrs) == [t0];
    if |addrs| > 1 {
      SplitListText(addrs[1..]);
      var rest := ListText(addrs[1..]);
      var s := t0 + [','] + rest;
      assert s[..|t0|] == t0 && s[|t0|] == ',';
      IndexOfCharAt(s, ',', |t0|);
      assert s[|t0| + 1..] == rest;
      assert Split(s, ',') == [t0] + Split(rest, ',');
    }
  }

  /** The trimmed entries of the list text are the address texts. */
  lemma ListEntriesOfText(addrs: seq<Address>)
    requires |addrs| >= 1 && Canonical(addrs)
    ensures ListEntries(ListText(addrs)) == AddressTexts(addrs)
  {
    var texts := AddressTexts(addrs);
    SplitListText(addrs);
    forall k | 0 <= k < |texts| ensures Trim(texts[k]) == texts[k] {
      AddressTextAt(addrs, k);
      AddressTextChars(addrs[k]);
      TrimmedIsFixed(texts[k]);
    }
  }

  lemma {:induction false} AddressTextAt(addrs: seq<Address>, k: nat)
    requires Canonical(addrs) && k < |addrs|
    ensures AddressTexts(addrs)[k] == AddressText(addrs[k])
    decreases k
  {
    if k > 0 {
      AddressTextAt(addrs[1..], k - 1);
    }
  }

  /** One step of the `reduce`: the first entry's number joins the running sum. */
  lemma ReducedStep(entries: seq<string>, data: Grid, acc: real)
    requires entries != [] && AllParse(entries)
    ensures ParseCellAddress(entries[0]).Ok? && AllParse(entries[1..])
    ensures Reduced(entries, data, acc) == Reduced(entries[1..], data, acc + EntryValue(entries[0], data))
  {
    AllParseCons(entries);
  }

  lemma TextsCons(addrs: seq<Address>)
    requires addrs != [] && Canonical(addrs)
    ensures AddressTexts(addrs) == [AddressText(addrs[0])] + AddressTexts(addrs[1..])
  {
  }

  /** Entries that parse, one by one, to the given addresses. */
  predicate ParsesTo(entries: seq<string>, addrs: seq<Address>) {
    |entries| == |addrs| && forall i :: 0 <= i < |entries| ==> ParseCellAddress(entries[i]) == Ok(addrs[i])
  }

  /** The `reduce` over entries naming the given addresses adds the numbers in their cells onto its start. */
  lemma {:induction false} ReducedOfParsed(entries: seq<string>, addrs: seq<Address>, data: Grid, acc: real)
    requires ParsesTo(entries, addrs)
    ensures AllParse(entries)
    ensures Reduced(entries, data, acc) == acc + CellsSum(addrs, data)
    decreases |addrs|
  {
    if addrs != [] {
      assert ParseCellAddress(entries[0]) == Ok(addrs[0]);
      var v := CellNumber(data, addrs[0]);
      assert EntryValue(entries[0], data) == v;
      assert ParsesTo(entries[1..], addrs[1..]) by {
        forall i | 0 <= i < |entries| - 1 ensures ParseCellAddress(entries[1..][i]) == Ok(addrs[1..][i]) {
          assert entries[1..][i] == entries[i + 1];
        }
      }
      ReducedOfParsed(entries[1..], addrs[1..], data, acc + v);
      AllParseCons(entries);
      ReducedStep(entries, data, acc);
      CellsSumCons(addrs, data);
    } else {
      assert entries == [];
    }
  }

  /** The texts of canonical addresses parse back to them. */
  lemma TextsParse(addrs: seq<Address>)
    requires Canonical(addrs)
    ensures ParsesTo(AddressTexts(addrs), addrs)
    decreases |addrs|
  {
    if addrs != [] {
      TextsCons(addrs);
      ParseAddressText(addrs[0]);
      TextsParse(addrs[1..]);
      var texts := AddressTexts(addrs);
      forall i | 0 <= i < |texts| ensures ParseCellAddress(texts[i]) == Ok(addrs[i]) {
        if i > 0 {
          assert texts[i] == AddressTexts(addrs[1..])[i - 1];
        }
      }
    }
  }

  /** The list sum of canonical address texts is the sum over their cells. */
  lemma ListSumOfTexts(addrs: seq<Address>, data: Grid)
    requires Canonical(addrs)
    ensures ListSum(AddressTexts(addrs), data) == Ok(CellsSum(addrs, data))
  {
    TextsParse(addrs);
    ListSumOfParsed(AddressTexts(addrs), addrs, data);
  }

  /** The list sum of entries naming the given addresses is the sum over their cells. */
  lemma ListSumOfParsed(entries: seq<string>, addrs: seq<Address>, data: Grid)
    requires ParsesTo(entries, addrs)
    ensures ListSum(entries, data) == Ok(CellsSum(addrs, data))
  {
    ReducedOfParsed(entries, addrs, data, 0.0);
  }

  /** The list argument of canonical addresses has no `:`, no `)`, no lower-case letter, and one entry per address. */
  lemma ListArgument(addrs: seq<Address>, data: Grid)
    requires |addrs| >= 1 && Canonical(addrs)
    ensures var arg := ListText(addrs);
      && arg != [] && ')' !in arg && ':' !in arg
      && (forall i :: 0 <= i < |arg| ==> !IsLower(arg[i]))
      && SumValue(arg, data) == Ok(CellsSum(addrs, data))
      && CellCount(arg) == Ok(|addrs|)
  {
    var arg := ListText(addrs);
    ListTextChars(addrs);
    AddressTextChars(addrs[0]);
    assert |arg| >= |AddressText(addrs[0])| > 0;
    ListEntriesOfText(addrs);
    ListSumOfTexts(addrs, data);
    SplitListText(addrs);
  }

  /** `=SUM(A,B,…)` over canonical addresses is the sum of the numbers in those cells. */
  lemma SumListFormula(addrs: seq<Address>, data: Grid)
    requires |addrs| >= 1 && Canonical(addrs)
    ensures FormulaValue("=SUM(" + ListText(addrs) + ")", data) == Num(CellsSum(addrs, data))
  {
    var arg := ListText(addrs);
    ListArgument(addrs, data);
    SumCallFormula(arg, data, CellsSum(addrs, data));
    CallFormulaText(arg);
  }

  /** `=AVERAGE(A,B,…)` over canonical addresses is that sum divided by the number of addresses. */
  lemma AverageListFormula(addrs: seq<Address>, data: Grid)
    requires |addrs| >= 1 && Canonical(addrs)
    ensures FormulaValue("=AVERAGE(" + ListText(addrs) + ")", data)
      == Num(CellsSum(addrs, data) / |addrs| as real)
  {
    var arg := ListText(addrs);
    ListArgument(addrs, data);
    assert AverageValue(arg, data) == Ok(CellsSum(addrs, data) / |addrs| as real);
    AverageCallFormula(arg, data, CellsSum(addrs, data) / |addrs| as real);
    CallFormulaText(arg);
  }

  /** Text that does not begin with a capital does not begin with a function name. */
  lemma NotStartingWith(t: string, name: string)
    requires name != [] && IsUpper(name[0])
    requires t == [] || !IsUpper(t[0])
    ensures !StartsWith(t, name)
  {
  }

  /** Text without capital letters holds no cell reference. */
  lemma NoLettersNoReferences(t: string)
    requires forall i :: 0 <= i < |t| ==> !IsUpper(t[i])
    ensures ExtractAddresses(t) == []
  {
    var refs := ExtractAddresses(t);
    if refs != [] {
      ExtractAddressesExact(t, refs[0]);
    }
  }

  /**
   * A formula whose expression has an operator and no letters is evaluated
   * as arithmetic on its own text; the result is its value, or the error
   * text when the evaluation throws.
   */
  lemma LiteralArithmeticFormula(t: string, data: Grid)
    requires forall i :: 0 <= i < |t| ==> !IsUpper(t[i]) && !IsLower(t[i])
    requires HasOperator(t)
    ensures var outcome := EvaluateArithmetic(t);
      && (outcome.Ok? && outcome.value.Some? ==> FormulaValue("=" + t, data) == Num(outcome.value.value))
      && (outcome.Ok? && outcome.value.None? ==> FormulaValue("=" + t, data) == Empty)
      && (outcome.Err? ==>
            FormulaValue("=" + t, data) == ErrorValue(ArithmeticFailure + outcome.error))
  {
    UpperFormula(t, data);
    NoLettersNoReferences(t);
    var ctx := ContextOf(ExtractAddresses(t), data);
    assert ctx == [];
    NotStartingWith(t, "SUM(");
    NotStartingWith(t, "AVERAGE(");
    assert Substituted(t, ctx) == t;
    DispatchArithmetic("=" + t, t, ctx, data);
  }

  /** The text shown for a failed arithmetic evaluation. */
  lemma ArithmeticErrorText(message: string)
    ensures StartsWith(ErrorValue(ArithmeticFailure + message).s, ErrorTag + ArithmeticFailure)
  {
    PrefixOfPrefixed(ErrorTag, ArithmeticFailure, message);
  }

  lemma PrefixOfPrefixed(p: string, q: string, m: string)
    ensures StartsWith(p + (q + m), p + q)
  {
    assert (p + (q + m))[..|p + q|] == p + q;
  }

  /** The text `a<op>b` of two numerals has no letters, and of the operator characters only `op`. */
  lemma BinaryTextChars(a: nat, op: char, b: nat)
    requires !IsUpper(op) && !IsLower(op) && !IsDigit(op)
    ensures var t := DecimalText(a) + ([op] + DecimalText(b));
      && (forall i :: 0 <= i < |t| ==> !IsUpper(t[i]) && !IsLower(t[i]))
      && (forall c :: c in t && !IsDigit(c) ==> c == op)
      && op in t
  {
    var da, db := DecimalText(a), DecimalText(b);
    var t := da + ([op] + db);
    forall i | 0 <= i < |t| ensures IsDigit(t[i]) || t[i] == op {
      if i < |da| {
        assert t[i] == da[i];
      } else if i > |da| {
        assert t[i] == db[i - |da| - 1];
      }
    }
    assert t[|da|] == op;
  }

  /** `=a<op>b` on two naturals, for `+ - * /`, gives the operator's value, or an arithmetic error for division by zero. */
  lemma BinaryFormula(a: nat, op: char, b: nat, data: Grid)
    requires op == '+' || op == '-' || op == '*' || op == '/'
    ensures Apply(op, a as real, b as real).Ok? ==>
      FormulaValue("=" + (DecimalText(a) + ([op] + DecimalText(b))), data) == Num(Apply(op, a as real, b as real).value)
    ensures Apply(op, a as real, b as real).Err? ==>
      var v := FormulaValue("=" + (DecimalText(a) + ([op] + DecimalText(b))), data);
      v.Text? && StartsWith(v.s, ErrorTag + ArithmeticFailure)
  {
    var t := DecimalText(a) + ([op] + DecimalText(b));
    BinaryTextChars(a, op, b);
    CharSubstring(t, op);
    assert HasOperator(t);
    LiteralArithmeticFormula(t, data);
    BinaryTextEvaluates(a, op, b);
    var outcome := EvaluateArithmetic(t);
    if outcome.Err? {
      ArithmeticErrorText(outcome.error);
    }
  }

  /** `=010+1` is nine: the leading zero makes `010` an octal literal. */
  lemma OctalFormula(data: Grid)
    ensures FormulaValue("=" + "010+1", data) == Num(9.0)
  {
    var t := "010+1";
    assert forall i :: 0 <= i < |t| ==> !IsUpper(t[i]) && !IsLower(t[i]);
    assert t[3] == '+';
    CharSubstring(t, '+');
    assert HasOperator(t);
    OctalSumExample();
    var outcome := EvaluateArithmetic(t);
    assert outcome == Ok(Some(9.0));
    LiteralArithmeticFormula(t, data);
  }

  /**
   * The expression is not trimmed, so a line break right after `=` ends the
   * `return` statement: `=` then a line break then `a<op>b` is `undefined`.
   */
  lemma LineBreakFormula(a: nat, op: char, b: nat, data: Grid)
    requires op == '+' || op == '-' || op == '*' || op == '/'
    ensures Apply(op, a as real, b as real).Ok? ==>
      FormulaValue("=" + (['\n'] + (DecimalText(a) + ([op] + DecimalText(b)))), data) == Empty
  {
    var t := DecimalText(a) + ([op] + DecimalText(b));
    var u := ['\n'] + t;
    LineBreakText(a, op, b);
    LiteralArithmeticFormula(u, data);
    BinaryTextEvaluates(a, op, b);
    LineBreakAfterReturn('\n', t);
  }

  /** A line break before `a op b` adds no letter and keeps the operator. */
  lemma LineBreakText(a: nat, op: char, b: nat)
    requires op == '+' || op == '-' || op == '*' || op == '/'
    ensures var u := ['\n'] + (DecimalText(a) + ([op] + DecimalText(b)));
      (forall i :: 0 <= i < |u| ==> !IsUpper(u[i]) && !IsLower(u[i])) && HasOperator(u)
  {
    var t := DecimalText(a) + ([op] + DecimalText(b));
    var u := ['\n'] + t;
    BinaryTextChars(a, op, b);
    forall i | 0 <= i < |u| ensures !IsUpper(u[i]) && !IsLower(u[i]) {
      if i > 0 {
        assert u[i] == t[i - 1];
      }
    }
    assert op in u;
    CharSubstring(u, op);
  }

  /**
   * `%` is not among the operators that send a formula to arithmetic, so
   * `=a%b` is shown as the formula text itself.
   */
  lemma RemainderFormulaIsText(a: nat, b: nat, data: Grid)
    ensures var formula := "=" + (DecimalText(a) + (['%'] + DecimalText(b)));
      FormulaValue(formula, data) == Text(formula)
  {
    var t := DecimalText(a) + (['%'] + DecimalText(b));
    BinaryTextChars(a, '%', b);
    CharSubstring(t, '+');
    CharSubstring(t, '-');
    CharSubstring(t, '*');
    CharSubstring(t, '/');
    assert !HasOperator(t);
    UpperFormula(t, data);
    NotStartingWith(t, "SUM(");
    NotStartingWith(t, "AVERAGE(");
  }

  /** The words of the collision example, one suffix at a time. */
  lemma WordsOfA10() ensures Words("A10") == ["A10"] {
    var t: string := "A10";
    assert WordLength(t[3..]) == 0;
    assert WordLength(t[2..]) == 1;
    assert WordLength(t[1..]) == 2;
    assert WordLength(t) == 3;
    assert t[..3] == t && t[3..] == [];
  }
  lemma WordsOfPlusA10() ensures Words("+A10") == ["A10"] {
    var t: string := "+A10";
    assert !IsWordChar(t[0]);
    assert t[1..] == "A10";
    WordsOfA10();
  }
  lemma CollisionWords() ensures Words("A1+A10") == ["A1", "A10"] {
    var t: string := "A1+A10";
    assert WordLength(t[2..]) == 0;
    assert WordLength(t[1..]) == 1;
    assert WordLength(t) == 2;
    assert t[..2] == "A1" && t[2..] == "+A10";
    WordsOfPlusA10();
  }
  /** Both references of the collision example parse: A1 is row 0, A10 is row 9, both column 0. */
  lemma CollisionTokens()
    ensures ParseCellAddress("A1") == Ok(Address(0, 0))
    ensures ParseCellAddress("A10") == Ok(Address(9, 0))
  {
    ParseAddressText(Address(0, 0));
    ParseAddressText(Address(9, 0));
    assert DecimalText(10) == "10";
    assert AddressText(Address(0, 0)) == "A1";
    assert AddressText(Address(9, 0)) == "A10";
  }
  /** The evaluator extracts `A1` and then `A10` from `A1+A10`. */
  lemma CollisionReferences()
    ensures ExtractAddresses("A1+A10") == ["A1", "A10"]
  {
    CollisionWords();
    CollisionFilter();
  }

  lemma CollisionFilter()
    ensures Filter(["A1", "A10"], IsAddressToken) == ["A1", "A10"]
  {
    CollisionTokens();
    var ws: seq<string> := ["A1", "A10"];
    var one: seq<string> := ["A1"];
    var none: seq<string> := [];
    assert ws[..1] == one;
    assert one[..0] == none;
    assert Filter(none, IsAddressToken) == none;
    assert Filter(one, IsAddressToken) == one;
  }

  /** Appending a reference whose cell holds a number binds it in the context of the others. */
  lemma ContextStep(refs: seq<string>, ref: string, data: Grid, v: real)
    requires AllParse(refs + [ref]) && RefValue(ref, data) == Num(v)
    ensures AllParse(refs)
    ensures ContextOf(refs + [ref], data) == Bind(ContextOf(refs, data), ref, v)
  {
    var all := refs + [ref];
    assert all[..|all| - 1] == refs && all[|all| - 1] == ref;
    assert forall r :: r in refs ==> r in all;
  }

  /** With A1 = 5 the context of `A1` alone binds it. */
  lemma CollisionFirst(data: Grid)
    requires CellAt(data, 0, 0) == Num(5.0)
    ensures AllParse(["A1"])
    ensures ContextOf(["A1"], data) == [("A1", 5.0)]
  {
    var none: seq<string> := [];
    assert none + ["A1"] == ["A1"];
    CollisionTokens();
    assert RefValue("A1", data) == Num(5.0);
    ContextStep(none, "A1", data, 5.0);
    assert ContextOf(none, data) == [];
  }

  /** With A1 = 5 and A10 = 7 the context binds `A1` first and `A10` second. */
  lemma CollisionContext(data: Grid)
    requires CellAt(data, 0, 0) == Num(5.0) && CellAt(data, 9, 0) == Num(7.0)
    ensures AllParse(["A1", "A10"])
    ensures ContextOf(["A1", "A10"], data) == [("A1", 5.0), ("A10", 7.0)]
  {
    var one: seq<string> := ["A1"];
    assert one + ["A10"] == ["A1", "A10"];
    CollisionFirst(data);
    CollisionTokens();
    assert RefValue("A10", data) == Num(7.0);
    ContextStep(one, "A10", data, 7.0);
    assert "A1" != "A10";
  }

  /** Replacing `A1` by `5` also rewrites the `A1` at the start of `A10`. */
  lemma ReplaceInsideA10() ensures ReplaceAll("A10", "A1", "5") == "50" {
    var t: string := "A10";
    assert StartsWith(t, "A1");
    assert t[2..] == "0";
    var z: string := "0";
    assert !StartsWith(z, "A1");
    assert z[1..] == [];
  }
  lemma CollisionReplace() ensures ReplaceAll("A1+A10", "A1", "5") == "5+50" {
    var t: string := "A1+A10";
    assert StartsWith(t, "A1");
    assert t[2..] == "+A10";
    var u: string := "+A10";
    assert u[0] != "A1"[0];
    assert u[1..] == "A10";
    ReplaceInsideA10();
  }
  /** After the first replacement no `A10` is left to replace. */
  lemma CollisionLeavesNoA10() ensures !HasSubstring("5+50", "A10") {
    var t: string := "5+50";
    CharSubstring(t, 'A');
    if HasSubstring(t, "A10") {
      SubstringPrefix(t, "A10", "A");
    }
  }
  /** The substitution turns `A1+A10` into `5+50`. */
  lemma CollisionSubstitution()
    ensures KeysNonEmpty([("A1", 5.0), ("A10", 7.0)])
    ensures Substituted("A1+A10", [("A1", 5.0), ("A10", 7.0)]) == "5+50"
  {
    var ctx: Context := [("A1", 5.0), ("A10", 7.0)];
    IntegerText(5);
    assert NumberText(5.0) == "5";
    assert ctx[..1] == [("A1", 5.0)];
    var none: Context := [];
    assert ctx[..1][..0] == none;
    CollisionReplace();
    CollisionLeavesNoA10();
    ReplaceAllAbsent("5+50", "A10", NumberText(7.0));
  }

  /** `5+50` evaluates to 55. */
  lemma CollisionArithmetic()
    ensures EvaluateArithmetic("5+50") == Ok(Some(55.0))
  {
    var t: string := "5+50";
    assert DecimalText(5) == "5";
    assert DecimalText(50) == "50";
    assert t == DecimalText(5) + (['+'] + DecimalText(50));
    BinaryTextEvaluates(5, '+', 50);
  }
  /** Arithmetic on an expression whose substituted text evaluates to a number yields that number. */
  lemma ArithmeticOfSubstituted(e: string, ctx: Context, t: string, v: real)
    requires KeysNonEmpty(ctx) && Substituted(e, ctx) == t && EvaluateArithmetic(t) == Ok(Some(v))
    ensures ArithmeticValue(e, ctx) == Ok(Num(v))
  {
  }

  /** Text that differs from a prefix at some position does not start with it. */
  lemma DiffersAt(s: string, p: string, i: nat)
    requires i < |s| && i < |p| && s[i] != p[i]
    ensures !StartsWith(s, p)
  {
  }

  /** `A1+A10` starts with neither call name and holds an operator. */
  lemma CollisionIsArithmetic()
    ensures !StartsWith("A1+A10", "SUM(") && !StartsWith("A1+A10", "AVERAGE(") && HasOperator("A1+A10")
  {
    var e: string := "A1+A10";
    DiffersAt(e, "SUM(", 1);
    DiffersAt(e, "AVERAGE(", 1);
    CharSubstring(e, '+');
    assert e[2] == '+';
  }

  /** The arithmetic step on `A1+A10` with A1 = 5 and A10 = 7 yields 55. */
  lemma CollisionArithmeticValue()
    ensures KeysNonEmpty([("A1", 5.0), ("A10", 7.0)])
    ensures ArithmeticValue("A1+A10", [("A1", 5.0), ("A10", 7.0)]) == Ok(Num(55.0))
  {
    CollisionSubstitution();
    CollisionArithmetic();
    ArithmeticOfSubstituted("A1+A10", [("A1", 5.0), ("A10", 7.0)], "5+50", 55.0);
  }

  /** The expression `A1+A10` is dispatched to arithmetic and yields 55. */
  lemma CollisionDispatch(data: Grid)
    ensures KeysNonEmpty([("A1", 5.0), ("A10", 7.0)])
    ensures Dispatch("=A1+A10", "A1+A10", [("A1", 5.0), ("A10", 7.0)], data) == Ok(Num(55.0))
  {
    CollisionIsArithmetic();
    CollisionArithmeticValue();
    DispatchArithmetic("=A1+A10", "A1+A10", [("A1", 5.0), ("A10", 7.0)], data);
  }

  /**
   * The references `A1` and `A10` collide: with A1 = 5 and A10 = 7,
   * `=A1+A10` evaluates to 55 (the text `5+50`) and not to 12, because the
   * key `A1` is replaced inside `A10` before `A10` is looked for.
   */
  lemma PrefixReferenceCollision(data: Grid)
    requires CellAt(data, 0, 0) == Num(5.0) && CellAt(data, 9, 0) == Num(7.0)
    ensures FormulaValue("=A1+A10", data) == Num(55.0)
  {
    var e: string := "A1+A10";
    var f: string := "=A1+A10";
    assert f == "=" + e;
    assert forall i :: 0 <= i < |e| ==> !IsLower(e[i]);
    UpperFormula(e, data);
    CollisionReferences();
    CollisionContext(data);
    CollisionDispatch(data);
  }
}
