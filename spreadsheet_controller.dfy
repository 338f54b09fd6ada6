/**
 * The server's spreadsheet documents and its cell update. A sheet's grid is
 * a sparse two-level index (`sheet.data[row][col]`, where a missing row is
 * created on first write and a row of -1, from address `A0`, is a plain
 * property), so it is a map of maps here. Identifiers and clock readings
 * (`uuidv4()`, `new Date()`) are parameters.
 */
module SpreadsheetController {
  import opened Text
  import opened Wrappers
  import opened Cells
  import opened CellAddress
  import opened References

  /** `sheet.data` as stored on the server. */
  type ServerGrid = map<int, map<int, CellValue>>

  /** `sheet.data[row]?.[col]`: `None` where nothing is stored. */
  function Cell(g: ServerGrid, row: int, col: int): Option<CellValue> {
    if row in g && col in g[row] then Some(g[row][col]) else None
  }

  /** `if (!data[row]) data[row] = []; data[row][col] = value`. */
  function WriteCell(g: ServerGrid, row: int, col: int, value: CellValue): (h: ServerGrid)
    ensures Cell(h, row, col) == Some(value)
    ensures forall r, c :: (r, c) != (row, col) ==> Cell(h, r, c) == Cell(g, r, c)
    ensures forall r :: r in h <==> r in g || r == row
  {
    var line := if row in g then g[row] else map[];
    g[row := line[col := value]]
  }

  /** `Array(n).fill('')`. */
  function BlankRow(n: nat): (line: map<int, CellValue>)
    ensures forall c :: c in line <==> 0 <= c < n
    ensures forall c :: c in line ==> line[c] == Text("")
  {
    if n == 0 then map[] else BlankRow(n - 1)[n - 1 := Text("")]
  }

  /** `Array(n).fill().map(() => Array(26).fill(''))`. */
  function BlankGrid(n: nat): (g: ServerGrid)
    ensures forall r :: r in g <==> 0 <= r < n
    ensures forall r :: r in g ==> g[r] == BlankRow(26)
  {
    if n == 0 then map[] else BlankGrid(n - 1)[n - 1 := BlankRow(26)]
  }

  /** The grid of a new sheet: 100 rows of 26 empty strings. */
  function InitialGrid(): ServerGrid {
    BlankGrid(100)
  }

  /** The first sheet holds `''` in rows 0 to 99 and columns 0 to 25, and nothing elsewhere. */
  lemma InitialGridCells(row: int, col: int)
    ensures Cell(InitialGrid(), row, col) ==
      if 0 <= row < 100 && 0 <= col < 26 then Some(Text("")) else None
  {
  }

  /** `name || 'New Spreadsheet'`: a missing or empty name gets the default. */
  function DisplayName(name: Option<string>): (n: string)
    ensures n != []
    ensures name.Some? && name.value != [] ==> n == name.value
    ensures name.None? || name.value == [] ==> n == "New Spreadsheet"
  {
    if name.Some? && name.value != [] then name.value else "New Spreadsheet"
  }

  /** An entry of `sheet.formulas`. */
  datatype FormulaCell = FormulaCell(
    id: string,
    cellAddress: string,
    formula: string,
    dependencies: seq<string>,
    calculatedValue: Option<CellValue>,
    lastCalculated: int)

  /**
   * The entry pushed for a formula: its text, the distinct references of
   * `extractCellReferences`, and no calculated value yet.
   */
  function NewFormulaCell(id: string, cellAddress: string, formula: string, now: int): (f: FormulaCell)
    ensures f.id == id && f.cellAddress == cellAddress && f.formula == formula
    ensures f.calculatedValue.None? && f.lastCalculated == now
    ensures forall i, j :: 0 <= i < j < |f.dependencies| ==> f.dependencies[i] != f.dependencies[j]
    ensures forall r :: r in f.dependencies <==> IsBoundedRef(r) && exists k :: IsWordAt(formula, k, r)
  {
    var deps := ExtractBoundedRefs(formula);
    forall r
      ensures r in deps <==> IsBoundedRef(r) && exists k :: IsWordAt(formula, k, r)
    {
      ExtractBoundedRefsExact(formula, r);
    }
    FormulaCell(id, cellAddress, formula, deps, None, now)
  }

  /** `formulas.filter(f => f.cellAddress !== cellAddress)`. */
  function WithoutAddress(fs: seq<FormulaCell>, cellAddress: string): (r: seq<FormulaCell>)
    ensures forall f :: f in r <==> f in fs && f.cellAddress != cellAddress
    ensures |r| <= |fs|
  {
    if fs == [] then []
    else
      var rest := WithoutAddress(fs[1..], cellAddress);
      assert fs == [fs[0]] + fs[1..];
      if fs[0].cellAddress != cellAddress then [fs[0]] + rest else rest
  }

  /** The entries for one address, in order. */
  function ForAddress(fs: seq<FormulaCell>, cellAddress: string): (r: seq<FormulaCell>)
    ensures forall f :: f in r <==> f in fs && f.cellAddress == cellAddress
  {
    if fs == [] then []
    else
      var rest := ForAddress(fs[1..], cellAddress);
      assert fs == [fs[0]] + fs[1..];
      if fs[0].cellAddress == cellAddress then [fs[0]] + rest else rest
  }

  lemma {:induction false} WithoutAddressAppend(xs: seq<FormulaCell>, ys: seq<FormulaCell>, a: string)
    ensures WithoutAddress(xs + ys, a) == WithoutAddress(xs, a) + WithoutAddress(ys, a)
    decreases |xs|
  {
    if xs == [] {
      assert xs + ys == ys;
    } else {
      assert (xs + ys)[0] == xs[0];
      assert (xs + ys)[1..] == xs[1..] + ys;
      WithoutAddressAppend(xs[1..], ys, a);
      var r1, r2 := WithoutAddress(xs[1..], a), WithoutAddress(ys, a);
      assert [xs[0]] + (r1 + r2) == ([xs[0]] + r1) + r2;
    }
  }

  lemma {:induction false} ForAddressAppend(xs: seq<FormulaCell>, ys: seq<FormulaCell>, a: string)
    ensures ForAddress(xs + ys, a) == ForAddress(xs, a) + ForAddress(ys, a)
    decreases |xs|
  {
    if xs == [] {
      assert xs + ys == ys;
    } else {
      assert (xs + ys)[0] == xs[0];
      assert (xs + ys)[1..] == xs[1..] + ys;
      ForAddressAppend(xs[1..], ys, a);
      var r1, r2 := ForAddress(xs[1..], a), ForAddress(ys, a);
      assert [xs[0]] + (r1 + r2) == ([xs[0]] + r1) + r2;
    }
  }

  /** Removing the entries of an address twice removes nothing more. */
  lemma {:induction false} WithoutAddressTwice(fs: seq<FormulaCell>, a: string)
    ensures WithoutAddress(WithoutAddress(fs, a), a) == WithoutAddress(fs, a)
    decreases |fs|
  {
    if fs != [] {
      WithoutAddressTwice(fs[1..], a);
      if fs[0].cellAddress != a {
        assert ([fs[0]] + WithoutAddress(fs[1..], a))[1..] == WithoutAddress(fs[1..], a);
      }
    }
  }

  /** After removing an address's entries, none are left for it. */
  lemma {:induction false} ForRemovedAddress(fs: seq<FormulaCell>, a: string)
    ensures ForAddress(WithoutAddress(fs, a), a) == []
  {
    var r := WithoutAddress(fs, a);
    if ForAddress(r, a) != [] {
      assert ForAddress(r, a)[0] in ForAddress(r, a);
    }
  }

  /**
   * The formula list after writing `value` at `cellAddress`: the entries for
   * that address are dropped, and a new one is pushed when the value is a
   * formula.
   */
  function FormulasAfterWrite(fs: seq<FormulaCell>, cellAddress: string, value: CellValue, id: string, now: int): seq<FormulaCell> {
    if IsFormulaValue(value) then WithoutAddress(fs, cellAddress) + [NewFormulaCell(id, cellAddress, value.s, now)]
    else WithoutAddress(fs, cellAddress)
  }

  /**
   * After a write there is exactly one entry for the address when the value
   * is a formula, the new one and last in the list, and none otherwise; the
   * entries for every other address stay as they were, in order.
   */
  lemma FormulaListAfterWrite(fs: seq<FormulaCell>, a: string, value: CellValue, id: string, now: int)
    ensures var after := FormulasAfterWrite(fs, a, value, id, now);
      && |ForAddress(after, a)| == (if IsFormulaValue(value) then 1 else 0)
      && (IsFormulaValue(value) ==>
            ForAddress(after, a) == [NewFormulaCell(id, a, value.s, now)]
            && after[|after| - 1] == NewFormulaCell(id, a, value.s, now))
      && WithoutAddress(after, a) == WithoutAddress(fs, a)
      && forall b :: b != a ==> ForAddress(after, b) == ForAddress(fs, b)
  {
    var kept := WithoutAddress(fs, a);
    ForRemovedAddress(fs, a);
    WithoutAddressTwice(fs, a);
    assert forall b :: b != a ==> ForAddress(kept, b) == ForAddress(fs, b) by {
      forall b | b != a ensures ForAddress(kept, b) == ForAddress(fs, b) {
        OtherAddressKept(fs, a, b);
      }
    }
    if IsFormulaValue(value) {
      var entry := NewFormulaCell(id, a, value.s, now);
      ForAddressAppend(kept, [entry], a);
      WithoutAddressAppend(kept, [entry], a);
      forall b | b != a ensures ForAddress(kept + [entry], b) == ForAddress(fs, b) {
        ForAddressAppend(kept, [entry], b);
      }
    }
  }

  /** Removing one address's entries leaves the entries of another as they were. */
  lemma {:induction false} OtherAddressKept(fs: seq<FormulaCell>, a: string, b: string)
    requires a != b
    ensures ForAddress(WithoutAddress(fs, a), b) == ForAddress(fs, b)
    decreases |fs|
  {
    if fs != [] {
      OtherAddressKept(fs[1..], a, b);
      if fs[0].cellAddress != a {
        assert ([fs[0]] + WithoutAddress(fs[1..], a))[1..] == WithoutAddress(fs[1..], a);
      }
    }
  }

  /** An address without entries has none to list. */
  lemma ForAbsentAddress(fs: seq<FormulaCell>, a: string)
    requires forall f :: f in fs ==> f.cellAddress != a
    ensures ForAddress(fs, a) == []
  {
    if ForAddress(fs, a) != [] {
      assert ForAddress(fs, a)[0] in ForAddress(fs, a);
    }
  }

  /** No two entries of the list are for the same address. */
  predicate UniqueAddresses(fs: seq<FormulaCell>) {
    forall i, j :: 0 <= i < j < |fs| ==> fs[i].cellAddress != fs[j].cellAddress
  }

  /** At most one entry per address, stated through `ForAddress`. */
  lemma {:induction false} UniqueForAddress(fs: seq<FormulaCell>, a: string)
    requires UniqueAddresses(fs)
    ensures |ForAddress(fs, a)| <= 1
    decreases |fs|
  {
    if fs != [] {
      assert UniqueAddresses(fs[1..]) by {
        forall i, j | 0 <= i < j < |fs[1..]| ensures fs[1..][i].cellAddress != fs[1..][j].cellAddress {
          assert fs[1..][i] == fs[i + 1] && fs[1..][j] == fs[j + 1];
        }
      }
      UniqueForAddress(fs[1..], a);
      if fs[0].cellAddress == a {
        forall f | f in fs[1..] ensures f.cellAddress != a {
          var j :| 0 <= j < |fs[1..]| && fs[1..][j] == f;
          assert fs[j + 1] == f;
        }
        ForAbsentAddress(fs[1..], a);
      }
    }
  }

  /** Dropping entries keeps a list with unique addresses unique. */
  lemma {:induction false} WithoutAddressUnique(fs: seq<FormulaCell>, a: string)
    requires UniqueAddresses(fs)
    ensures UniqueAddresses(WithoutAddress(fs, a))
    decreases |fs|
  {
    if fs != [] {
      assert UniqueAddresses(fs[1..]) by {
        forall i, j | 0 <= i < j < |fs[1..]| ensures fs[1..][i].cellAddress != fs[1..][j].cellAddress {
          assert fs[1..][i] == fs[i + 1] && fs[1..][j] == fs[j + 1];
        }
      }
      WithoutAddressUnique(fs[1..], a);
      var rest := WithoutAddress(fs[1..], a);
      if fs[0].cellAddress != a {
        forall j | 0 <= j < |rest| ensures fs[0].cellAddress != rest[j].cellAddress {
          assert rest[j] in fs[1..];
          var k :| 0 <= k < |fs[1..]| && fs[1..][k] == rest[j];
          assert fs[k + 1] == rest[j];
        }
      }
    }
  }

  /** A write keeps the formula list free of duplicate addresses. */
  lemma FormulaListStaysUnique(fs: seq<FormulaCell>, a: string, value: CellValue, id: string, now: int)
    requires UniqueAddresses(fs)
    ensures UniqueAddresses(FormulasAfterWrite(fs, a, value, id, now))
  {
    WithoutAddressUnique(fs, a);
    var kept := WithoutAddress(fs, a);
    if IsFormulaValue(value) {
      var entry := NewFormulaCell(id, a, value.s, now);
      forall i | 0 <= i < |kept| ensures kept[i].cellAddress != a {
        assert kept[i] in kept;
      }
      assert (kept + [entry])[|kept|] == entry;
    }
  }

  /** A sheet of a spreadsheet document. */
  class Sheet {
    var id: string
    var name: string
    var data: ServerGrid
    var formulas: seq<FormulaCell>
    var createdAt: int
    var updatedAt: int

    /** The first sheet of a new spreadsheet. */
    constructor Initial(id: string, now: int)
      ensures this.id == id && name == "Sheet1"
      ensures data == InitialGrid() && formulas == []
      ensures createdAt == now && updatedAt == now
    {
      this.id := id;
      name := "Sheet1";
      data := InitialGrid();
      formulas := [];
      createdAt := now;
      updatedAt := now;
    }

    /** `sheet.data[row][col] = value`, creating the row first when it is missing. */
    method WriteValue(row: int, col: int, value: CellValue)
      modifies this`data
      ensures data == WriteCell(old(data), row, col, value)
    {
      if row !in data {
        data := data[row := map[]];
      }
      data := data[row := data[row][col := value]];
    }

    /** The two branches of the formula bookkeeping. */
    method RecordFormula(cellAddress: string, value: CellValue, entryId: string, now: int)
      modifies this`formulas
      ensures formulas == FormulasAfterWrite(old(formulas), cellAddress, value, entryId, now)
    {
      if value.Text? && StartsWith(value.s, "=") {
        var formulaCell := NewFormulaCell(entryId, cellAddress, value.s, now);
        formulas := WithoutAddress(formulas, cellAddress);
        formulas := formulas + [formulaCell];
      } else {
        formulas := WithoutAddress(formulas, cellAddress);
      }
    }
  }

  /** `sheets.find(s => s.id === sheetId)`. */
  function FindSheet(sheets: seq<Sheet>, sheetId: string): (r: Option<Sheet>)
    reads sheets
    ensures r.Some? ==> r.value in sheets && r.value.id == sheetId
    ensures r.Some? ==> exists i :: 0 <= i < |sheets| && sheets[i] == r.value && forall j :: 0 <= j < i ==> sheets[j].id != sheetId
    ensures r.None? <==> forall s :: s in sheets ==> s.id != sheetId
  {
    if sheets == [] then None
    else if sheets[0].id == sheetId then Some(sheets[0])
    else
      var r := FindSheet(sheets[1..], sheetId);
      assert forall s :: s in sheets[1..] ==> s in sheets;
      assert sheets == [sheets[0]] + sheets[1..];
      if r.Some? then
        var i :| 0 <= i < |sheets[1..]| && sheets[1..][i] == r.value && forall j :: 0 <= j < i ==> sheets[1..][j].id != sheetId;
        assert sheets[i + 1] == r.value;
        assert forall j :: 0 <= j < i + 1 ==> sheets[j].id != sheetId by {
          forall j | 0 <= j < i + 1 ensures sheets[j].id != sheetId {
            if j > 0 { assert sheets[j] == sheets[1..][j - 1]; }
          }
        }
        r
      else r
  }

  /** A spreadsheet document. */
  class Spreadsheet {
    var id: string
    var name: string
    var ownerId: string
    var sheets: seq<Sheet>
    var sharedWith: seq<string>
    var isTemplate: bool
    var templateType: Option<string>
    var createdAt: int
    var updatedAt: int

    /** `createSpreadsheet`: one sheet "Sheet1" of 100 by 26 empty strings and no formulas. */
    constructor Create(id: string, sheetId: string, name: Option<string>, userId: string, templateType: Option<string>, now: int)
      ensures this.id == id && this.name == DisplayName(name) && ownerId == userId
      ensures |sheets| == 1 && fresh(sheets[0])
      ensures sheets[0].id == sheetId && sheets[0].name == "Sheet1"
      ensures sheets[0].data == InitialGrid() && sheets[0].formulas == []
      ensures sheets[0].createdAt == now && sheets[0].updatedAt == now
      ensures sharedWith == [] && !isTemplate && this.templateType == templateType
      ensures createdAt == now && updatedAt == now
    {
      var first := new Sheet.Initial(sheetId, now);
      this.id := id;
      this.name := DisplayName(name);
      ownerId := userId;
      sheets := [first];
      sharedWith := [];
      isTemplate := false;
      this.templateType := templateType;
      createdAt := now;
      updatedAt := now;
    }

    /** `{ ownerId: userId }` or `{ sharedWith: userId }`. */
    predicate AccessibleTo(userId: string)
      reads this
    {
      ownerId == userId || userId in sharedWith
    }
  }

  /** `findOne({ id, $or: [owner, shared] })`: the first document with the id that the user may open. */
  function FindAccessible(docs: seq<Spreadsheet>, id: string, userId: string): (r: Option<Spreadsheet>)
    reads docs
    ensures r.Some? ==> r.value in docs && r.value.id == id && r.value.AccessibleTo(userId)
    ensures r.None? <==> forall d :: d in docs ==> !(d.id == id && d.AccessibleTo(userId))
  {
    if docs == [] then None
    else if docs[0].id == id && docs[0].AccessibleTo(userId) then Some(docs[0])
    else
      assert docs == [docs[0]] + docs[1..];
      FindAccessible(docs[1..], id, userId)
  }

  /** Every sheet of the given documents. */
  ghost function SheetsOf(docs: seq<Spreadsheet>): set<Sheet>
    reads docs
  {
    set d, s | d in docs && s in d.sheets :: s
  }

  /** The responses of `updateCell` other than a server error. */
  datatype Outcome = Updated | InvalidAddress | SpreadsheetNotFound | SheetNotFound

  /** The HTTP status of an outcome. */
  function StatusCode(o: Outcome): (code: int)
    ensures code == 200 <==> o == Updated
    ensures code == 400 <==> o == InvalidAddress
    ensures code == 404 <==> o == SpreadsheetNotFound || o == SheetNotFound
  {
    match o
    case Updated => 200
    case InvalidAddress => 400
    case SpreadsheetNotFound => 404
    case SheetNotFound => 404
  }

  /** The `error` text of a rejected update. */
  function ErrorMessage(o: Outcome): string
    requires o != Updated
  {
    match o
    case InvalidAddress => "Invalid cell address"
    case SpreadsheetNotFound => "Spreadsheet not found"
    case SheetNotFound => "Sheet not found"
  }

  /** Each rejection has its own error text, so the two 404 answers are told apart by their bodies. */
  lemma ErrorMessagesDiffer(o1: Outcome, o2: Outcome)
    requires o1 != Updated && o2 != Updated
    ensures ErrorMessage(o1) == ErrorMessage(o2) <==> o1 == o2
  {
    if o1 != o2 {
      var m1, m2 := ErrorMessage(o1), ErrorMessage(o2);
      assert m1[0] != m2[0] || m1[1] != m2[1];
    }
  }

  /**
   * `updateCell`: parse the address, find the document and the sheet, write
   * the cell, maintain the formula list and stamp the document. A rejected
   * request changes nothing; an accepted one changes only the target sheet's
   * grid and formulas and the document's `updatedAt`.
   */
  method UpdateCell(docs: seq<Spreadsheet>, id: string, sheetId: string, userId: string,
                    cellAddress: string, value: CellValue, entryId: string, now: int)
      returns (outcome: Outcome)
    modifies docs, SheetsOf(docs)
    ensures ParseCellAddress(cellAddress).Err? ==> outcome == InvalidAddress
    ensures ParseCellAddress(cellAddress).Ok? && old(FindAccessible(docs, id, userId)).None? ==>
      outcome == SpreadsheetNotFound
    ensures ParseCellAddress(cellAddress).Ok? && old(FindAccessible(docs, id, userId)).Some? ==>
      var d := old(FindAccessible(docs, id, userId)).value;
      (old(FindSheet(d.sheets, sheetId)).None? <==> outcome == SheetNotFound)
      && (old(FindSheet(d.sheets, sheetId)).Some? <==> outcome == Updated)
    ensures outcome != Updated ==> unchanged(docs) && unchanged(old(SheetsOf(docs)))
    ensures outcome == Updated ==>
      var d := old(FindAccessible(docs, id, userId)).value;
      var s := old(FindSheet(d.sheets, sheetId)).value;
      var a := ParseCellAddress(cellAddress).value;
      && s.data == WriteCell(old(s.data), a.row, a.col, value)
      && s.formulas == FormulasAfterWrite(old(s.formulas), cellAddress, value, entryId, now)
      && d.updatedAt == now
      && unchanged(d`id, d`name, d`ownerId, d`sheets, d`sharedWith, d`isTemplate, d`templateType, d`createdAt)
      && unchanged(s`id, s`name, s`createdAt, s`updatedAt)
      && (forall e :: e in docs && e != d ==> unchanged(e))
      && (forall t :: t in old(SheetsOf(docs)) && t != s ==> unchanged(t))
  {
    var parsed := ParseCellAddress(cellAddress);
    if parsed.Err? {
      return InvalidAddress;
    }
    var k := LetterRun(cellAddress);
    var row := parsed.value.row;
    var col := ColumnLettersToIndex(cellAddress[..k]);
    assert col == parsed.value.col by {
      var j :| SplitsAt(cellAddress, j);
      SplitIsLetterRun(cellAddress, j);
    }
    var found := FindAccessible(docs, id, userId);
    if found.None? {
      return SpreadsheetNotFound;
    }
    var spreadsheet := found.value;
    var target := FindSheet(spreadsheet.sheets, sheetId);
    if target.None? {
      return SheetNotFound;
    }
    WriteAndStamp(spreadsheet, target.value, row, col, cellAddress, value, entryId, now);
    return Updated;
  }

  /** The accepted branch of `updateCell`: write the cell, keep the formula list, stamp the document. */
  method WriteAndStamp(spreadsheet: Spreadsheet, sheet: Sheet, row: int, col: int,
                       cellAddress: string, value: CellValue, entryId: string, now: int)
    modifies spreadsheet`updatedAt, sheet`data, sheet`formulas
    ensures sheet.data == WriteCell(old(sheet.data), row, col, value)
    ensures sheet.formulas == FormulasAfterWrite(old(sheet.formulas), cellAddress, value, entryId, now)
    ensures spreadsheet.updatedAt == now
  {
    sheet.WriteValue(row, col, value);
    sheet.RecordFormula(cellAddress, value, entryId, now);
    spreadsheet.updatedAt := now;
  }
}
