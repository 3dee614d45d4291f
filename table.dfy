/** The ragged-table serializer `save_file`: a table is a sequence of columns
    of text cells; every cell is written followed by a comma, a missing cell
    as the bare comma, and every row ends with a newline. The number of rows
    written is the length of column 0. */
module Table {
  import opened Text

  /** The text written for column `j` in row `r`: the cell, or nothing past the column's end. */
  function CellText(csv: seq<seq<string>>, j: nat, r: nat): string
    requires j < |csv|
  {
    if r < |csv[j]| then csv[j][r] else ""
  }

  /** The cells of row `r`, one per column. */
  function RowCells(csv: seq<seq<string>>, r: nat): seq<string> {
    seq(|csv|, j requires 0 <= j < |csv| => CellText(csv, j, r))
  }

  /** The text of row `r` without its newline: each cell followed by a comma. */
  function RowText(csv: seq<seq<string>>, r: nat): string {
    Terminated(RowCells(csv, r), ',')
  }

  /** The rows the serializer writes: as many as column 0 has cells. */
  function Rows(csv: seq<seq<string>>): seq<string>
    requires |csv| > 0
  {
    seq(|csv[0]|, r requires 0 <= r < |csv[0]| => RowText(csv, r))
  }

  /** The whole file: every row followed by a newline. */
  function Render(csv: seq<seq<string>>): string
    requires |csv| > 0
  {
    Terminated(Rows(csv), '\n')
  }

  /** The inner loop of `save_file`: the bytes of row `row`, a comma after
      each column's cell and a bare comma for a column that has none. */
  method RowBytes(csv: seq<seq<string>>, row: nat) returns (bytes: string)
    ensures bytes == RowText(csv, row)
  {
    bytes := [];
    ghost var cells := RowCells(csv, row);
    for column := 0 to |csv|
      invariant bytes == Terminated(cells[..column], ',')
    {
      TerminatedSnoc(cells, ',', column);
      if row >= |csv[column]| {
        bytes := bytes + [','];
        continue;
      }
      var cellBytes := csv[column][row];
      bytes := bytes + cellBytes;
      bytes := bytes + [','];
    }
    assert cells[..|csv|] == cells;
  }

  /** `save_file` without the final `fs::write`: the bytes it writes. */
  method SaveFile(csv: seq<seq<string>>) returns (bytes: string)
    requires |csv| > 0
    ensures bytes == Render(csv)
  {
    bytes := [];
    ghost var rows := Rows(csv);
    for row := 0 to |csv[0]|
      invariant bytes == Terminated(rows[..row], '\n')
    {
      var rowBytes := RowBytes(csv, row);
      TerminatedSnoc(rows, '\n', row);
      bytes := bytes + rowBytes;
      bytes := bytes + ['\n'];
    }
    assert rows[..|csv[0]|] == rows;
  }

  /** No cell holds `c`. */
  predicate CellsFree(csv: seq<seq<string>>, c: char) {
    forall j, r :: 0 <= j < |csv| && 0 <= r < |csv[j]| ==> c !in csv[j][r]
  }

  /** Splitting a row at its commas gives back its cells, one per column, and
      the empty field after the last comma: a row has exactly `|csv|` commas,
      and field `j` is the cell of column `j` or empty past that column's end. */
  lemma RowFields(csv: seq<seq<string>>, r: nat)
    requires CellsFree(csv, ',')
    ensures Split(RowText(csv, r), ',') == RowCells(csv, r) + [""]
  {
    SplitTerminated(RowCells(csv, r), ',');
  }

  lemma {:induction false} TerminatedFree(pieces: seq<string>, sep: char, c: char)
    requires c != sep
    requires forall k :: 0 <= k < |pieces| ==> c !in pieces[k]
    ensures c !in Terminated(pieces, sep)
    decreases |pieces|
  {
    if |pieces| > 0 {
      TerminatedFree(pieces[1..], sep, c);
    }
  }

  /** Splitting the file at its newlines gives back exactly `|csv[0]|` lines,
      the rows in order (each line ended by a newline), and the empty text
      after the last newline. */
  lemma RenderLines(csv: seq<seq<string>>)
    requires |csv| > 0
    requires CellsFree(csv, '\n')
    ensures Split(Render(csv), '\n') == Rows(csv) + [""]
  {
    var rows := Rows(csv);
    forall r | 0 <= r < |rows| ensures '\n' !in rows[r] {
      var cells := RowCells(csv, r);
      forall k | 0 <= k < |cells| ensures '\n' !in cells[k] {
      }
      TerminatedFree(cells, ',', '\n');
    }
    SplitTerminated(rows, '\n');
  }
}
