/**
 * Cell addresses in "A1" notation: column letters in bijective base 26
 * (A = 1, ..., Z = 26, AA = 27, no digit for zero) followed by the 1-based
 * row number.
 */
module CellAddress {
  import opened Text
  import opened Wrappers

  /** A decoded address: 0-based row and column. */
  datatype Address = Address(row: int, col: int)

  /** `letters.charCodeAt(i) - 'A'.charCodeAt(0) + 1`. */
  function LetterValue(c: char): int { c as int - 'A' as int + 1 }

  /** The bijective base-26 number of a run of column letters (0 for no letters). */
  function ColumnNumber(letters: string): (n: int)
    ensures AllUpper(letters) ==> n >= 0
    ensures AllUpper(letters) && letters != [] ==> n >= 1
  {
    if letters == [] then 0
    else ColumnNumber(letters[..|letters| - 1]) * 26 + LetterValue(letters[|letters| - 1])
  }

  /** `columnLettersToIndex`: the loop accumulates the base-26 number, then subtracts one. */
  method ColumnLettersToIndex(letters: string) returns (index: int)
    ensures index == ColumnNumber(letters) - 1
    ensures AllUpper(letters) && letters != [] ==> index >= 0
  {
    var result := 0;
    var i := 0;
    while i < |letters|
      invariant 0 <= i <= |letters|
      invariant result == ColumnNumber(letters[..i])
    {
      assert letters[..i + 1][..i] == letters[..i];
      result := result * 26 + (letters[i] as int - 'A' as int + 1);
      i := i + 1;
    }
    assert letters[..|letters|] == letters;
    index := result - 1;
  }

  /** The letter for digit k (0 for A) of the bijective numbering. */
  function LetterOf(k: nat): (c: char)
    requires k < 26
    ensures IsUpper(c) && LetterValue(c) == k + 1
  {
    (65 + k) as char
  }

  /** The column letters of 0-based column `col`: 0 is "A", 25 is "Z", 26 is "AA". */
  function ColumnName(col: nat): (s: string)
    ensures s != [] && AllUpper(s)
  {
    if col < 26 then [LetterOf(col)] else ColumnName(col / 26 - 1) + [LetterOf(col % 26)]
  }

  /** Decoding the letters of a column gives the column back. */
  lemma {:induction false} ColumnNameDecodes(col: nat)
    ensures ColumnNumber(ColumnName(col)) - 1 == col
  {
    if col >= 26 {
      var q := col / 26 - 1;
      ColumnNameDecodes(q);
      var s := ColumnName(col);
      assert s[..|s| - 1] == ColumnName(q);
      assert ColumnNumber(s) == (q + 1) * 26 + col % 26 + 1;
    }
  }

  /** Every non-empty run of capital letters is the name of exactly the column it decodes to. */
  lemma {:induction false} ColumnNumberEncodes(s: string)
    requires s != [] && AllUpper(s)
    ensures ColumnName(ColumnNumber(s) - 1) == s
  {
    var p := s[..|s| - 1];
    var c := s[|s| - 1];
    var v := LetterValue(c);
    assert 1 <= v <= 26;
    if p == [] {
      assert s == [c];
      assert LetterOf(v - 1) == c;
    } else {
      assert AllUpper(p);
      ColumnNumberEncodes(p);
      var np := ColumnNumber(p);
      var col := np * 26 + (v - 1);
      assert ColumnNumber(s) - 1 == col;
      assert col / 26 == np && col % 26 == v - 1;
      assert LetterOf(v - 1) == c;
      assert s == p + [c];
    }
  }

  lemma ColumnExamples()
    ensures ColumnNumber("A") - 1 == 0 && ColumnNumber("Z") - 1 == 25
    ensures ColumnNumber("AA") - 1 == 26 && ColumnNumber("AB") - 1 == 27
  {
  }

  /** The number of leading capital letters. */
  function LetterRun(s: string): (k: nat)
    ensures k <= |s| && forall i :: 0 <= i < k ==> IsUpper(s[i])
    ensures k < |s| ==> !IsUpper(s[k])
  {
    if s == [] || !IsUpper(s[0]) then 0 else 1 + LetterRun(s[1..])
  }

  /** `token` is a run of capital letters ending at `k` followed by a run of digits. */
  predicate SplitsAt(token: string, k: int) {
    && 0 < k < |token|
    && (forall i :: 0 <= i < k ==> IsUpper(token[i]))
    && (forall i :: k <= i < |token| ==> IsDigit(token[i]))
  }

  /** There is at most one place where an address token splits. */
  lemma SplitIsLetterRun(token: string, k: int)
    requires SplitsAt(token, k)
    ensures k == LetterRun(token)
  {
    var n := LetterRun(token);
    var atSplit := token[k];
  }

  /**
   * `parseCellAddress`: `^([A-Z]+)(\d+)$`, row = parseInt(digits) - 1,
   * col = columnLettersToIndex(letters); anything else throws.
   */
  function ParseCellAddress(token: string): (r: Result<Address>)
    ensures r.Ok? <==> exists k :: SplitsAt(token, k)
    ensures forall k :: SplitsAt(token, k) ==>
      r == Ok(Address(DigitsValue(token[k..]) - 1, ColumnNumber(token[..k]) - 1))
    ensures r.Err? ==> r.error == "Invalid cell address: " + token
    ensures r.Ok? ==> r.value.row >= -1 && r.value.col >= 0
  {
    var k := LetterRun(token);
    SplitsAtRun(token, k);
    assert forall j :: SplitsAt(token, j) ==> j == k by {
      forall j | SplitsAt(token, j) ensures j == k { SplitIsLetterRun(token, j); }
    }
    if SplitsAt(token, k) then
      Ok(Address(DigitsValue(token[k..]) - 1, ColumnNumber(token[..k]) - 1))
    else
      Err("Invalid cell address: " + token)
  }

  /** At the end of the letter run, the token splits exactly when a non-empty run of digits follows. */
  lemma SplitsAtRun(token: string, k: nat)
    requires k == LetterRun(token)
    ensures SplitsAt(token, k) <==> 0 < k < |token| && AllDigits(token[k..])
  {
    if 0 < k < |token| {
      var d := token[k..];
      if AllDigits(d) {
        forall i | k <= i < |token| ensures IsDigit(token[i]) { assert token[i] == d[i - k]; }
      }
      if SplitsAt(token, k) {
        forall i | 0 <= i < |d| ensures IsDigit(d[i]) { assert d[i] == token[k + i]; }
      }
    }
  }

  /** The canonical text of an address: A1 notation. */
  function AddressText(a: Address): string
    requires a.row >= 0 && a.col >= 0
  {
    ColumnName(a.col) + DecimalText(a.row + 1)
  }

  /** Parsing the canonical text of an address gives the address back. */
  lemma ParseAddressText(a: Address)
    requires a.row >= 0 && a.col >= 0
    ensures ParseCellAddress(AddressText(a)) == Ok(a)
  {
    var letters, digits := ColumnName(a.col), DecimalText(a.row + 1);
    var t := letters + digits;
    assert t[..|letters|] == letters && t[|letters|..] == digits;
    assert forall i :: 0 <= i < |letters| ==> t[i] == letters[i];
    assert forall i :: |letters| <= i < |t| ==> t[i] == digits[i - |letters|];
    assert SplitsAt(t, |letters|);
    ColumnNameDecodes(a.col);
    DecimalTextValue(a.row + 1);
  }

  /**
   * The address the client hook builds for a clicked cell:
   * `String.fromCharCode(65 + col)` followed by `row + 1`.
   */
  function HookAddressText(row: nat, col: nat): string
    requires col < 0xD800 - 65
  {
    [(65 + col) as char] + DecimalText(row + 1)
  }

  /** The hook's single-letter encoding agrees with the bijective one exactly on columns A to Z. */
  lemma HookAddressRoundTrip(row: nat, col: nat)
    requires col < 0xD800 - 65
    ensures col < 26 ==> ParseCellAddress(HookAddressText(row, col)) == Ok(Address(row, col))
    ensures col >= 26 ==> ParseCellAddress(HookAddressText(row, col)).Err?
  {
    var t := HookAddressText(row, col);
    if col < 26 {
      assert [(65 + col) as char] == ColumnName(col);
      ParseAddressText(Address(row, col));
    } else {
      assert LetterRun(t) == 0;
    }
  }
}
