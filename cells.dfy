/** Cell values and the client-side grid of a sheet. */
module Cells {
  import opened Text

  /**
   * A cell's value: `string | number | boolean | null | undefined`.
   * `Empty` stands for `null`, `undefined` and the holes of a sparse array;
   * numbers are modelled as reals.
   */
  datatype CellValue = Empty | Text(s: string) | Num(n: real) | Bool(b: bool)

  /** `sheet.data`: rows of cells, not necessarily all of the same length. */
  type Grid = seq<seq<CellValue>>

  /** `sheet.data[row]?.[col]`: anything outside the stored rows reads as `undefined`. */
  function CellAt(data: Grid, row: int, col: int): CellValue {
    if 0 <= row < |data| && 0 <= col < |data[row]| then data[row][col] else Empty
  }

  /** `typeof value === 'number' ? value : 0`. */
  function NumberOrZero(v: CellValue): real {
    if v.Num? then v.n else 0.0
  }

  /** `typeof value === 'string' && value.startsWith('=')`. */
  predicate IsFormulaValue(v: CellValue) {
    v.Text? && StartsWith(v.s, "=")
  }
}
