/** The offline resampler `aggregate`: it reloads a file written by the
    serializer, picks the device whose time column spans the shortest time
    as the reference clock, and for every reference timestamp averages each
    device's samples that fall in a window around it, carrying the previous
    average forward when a window is empty. Number parsing (`str::parse::<f64>`)
    is the parameter `parse` and number printing (`format!("{}")`) the
    parameter `fmt`; the numbers themselves are exact reals. */
module Aggregate {
  import opened Text
  import Table

  // ---------------------------------------------------------------------
  // Loading the table back

  /** The lines of the file, split at every newline. */
  function Lines(contents: string): (lines: seq<string>)
    ensures |lines| >= 1
  {
    Split(contents, '\n')
  }

  /** Every line of the file split at its commas. */
  function Rows(contents: string): seq<seq<string>> {
    var lines := Lines(contents);
    seq(|lines|, r requires 0 <= r < |lines| => Split(lines[r], ','))
  }

  /** The loading loop reads field `j` of every line that has more than one
      field, for every field `j` of the first line: such lines must be at least
      as wide as the first line (a shorter one makes the Rust program panic). */
  predicate Loadable(rows: seq<seq<string>>) {
    |rows| > 0 &&
    forall r :: 0 <= r < |rows| ==> |rows[r]| == 1 || |rows[r]| >= |rows[0]|
  }

  /** Column `j` as loaded from the first `n` lines: field `j` of each line, in
      order, skipping the lines with a single field and the empty fields. */
  function Column(rows: seq<seq<string>>, j: nat, n: nat): seq<string>
    requires Loadable(rows) && j < |rows[0]| && n <= |rows|
  {
    if n == 0 then []
    else
      var row := rows[n - 1];
      Column(rows, j, n - 1) + (if |row| == 1 || row[j] == "" then [] else [row[j]])
  }

  /** The table `aggregate` loads: one column per field of the first line. */
  function Load(contents: string): (csv: seq<seq<string>>)
    requires Loadable(Rows(contents))
  {
    var rows := Rows(contents);
    seq(|rows[0]|, j requires 0 <= j < |rows[0]| => Column(rows, j, |rows|))
  }

  /** The inner loading loop: field `columnIndex` of every line with more
      than one field, skipping empty fields. */
  method LoadColumn(contents: string, lines: seq<string>, columnIndex: nat) returns (cells: seq<string>)
    requires lines == Lines(contents) && Loadable(Rows(contents)) && columnIndex < |Rows(contents)[0]|
    ensures cells == Column(Rows(contents), columnIndex, |Rows(contents)|)
  {
    ghost var rows := Rows(contents);
    cells := [];
    for rowIndex := 0 to |lines|
      invariant cells == Column(rows, columnIndex, rowIndex)
    {
      var row := Split(lines[rowIndex], ',');
      assert row == rows[rowIndex];
      if |row| == 1 || row[columnIndex] == "" {
        continue;
      }
      cells := cells + [row[columnIndex]];
    }
  }

  /** The loading loop of `aggregate`: for each field of the first line, a
      column holding that field of every line, compacted. */
  method LoadTable(contents: string) returns (csv: seq<seq<string>>)
    requires Loadable(Rows(contents))
    ensures |csv| == |Rows(contents)[0]|
    ensures forall j :: 0 <= j < |csv| ==> csv[j] == Column(Rows(contents), j, |Rows(contents)|)
    ensures csv == Load(contents)
  {
    ghost var rows := Rows(contents);
    ghost var loaded := Load(contents);
    var lines := Split(contents, '\n');
    var row0 := Split(lines[0], ',');
    assert row0 == rows[0] && |loaded| == |row0|;
    csv := [];
    for columnIndex := 0 to |row0|
      invariant csv == loaded[..columnIndex]
    {
      var cells := LoadColumn(contents, lines, columnIndex);
      assert cells == loaded[columnIndex];
      csv := csv + [cells];
    }
    assert loaded[..|row0|] == loaded;
  }

  /** The non-empty texts of `cells`, in order. */
  function NonEmpty(cells: seq<string>): seq<string> {
    if |cells| == 0 then []
    else NonEmpty(cells[..|cells| - 1]) + (if cells[|cells| - 1] == "" then [] else [cells[|cells| - 1]])
  }

  /** The cells the serializer writes for column `j`, one per row it writes. */
  function WrittenColumn(csv: seq<seq<string>>, j: nat): seq<string>
    requires 0 < |csv| && j < |csv|
  {
    seq(|csv[0]|, r requires 0 <= r < |csv[0]| => Table.CellText(csv, j, r))
  }

  lemma {:induction false} ColumnOfRendered(csv: seq<seq<string>>, rows: seq<seq<string>>, j: nat, n: nat)
    requires 0 < |csv| && j < |csv| && Loadable(rows) && |rows[0]| == |csv| + 1
    requires n <= |csv[0]| && n <= |rows|
    requires forall r :: 0 <= r < n ==> rows[r] == Table.RowCells(csv, r) + [""]
    ensures Column(rows, j, n) == NonEmpty(WrittenColumn(csv, j)[..n])
    decreases n
  {
    if n > 0 {
      ColumnOfRendered(csv, rows, j, n - 1);
      var cells := WrittenColumn(csv, j);
      assert cells[..n][..n - 1] == cells[..n - 1];
    }
  }

  lemma {:induction false} SpacerOfRendered(csv: seq<seq<string>>, rows: seq<seq<string>>, n: nat)
    requires 0 < |csv| && Loadable(rows) && |rows[0]| == |csv| + 1
    requires n <= |rows|
    requires forall r :: 0 <= r < n ==> rows[r] == Table.RowCells(csv, r) + [""] || rows[r] == [""]
    ensures Column(rows, |csv|, n) == []
    decreases n
  {
    if n > 0 {
      SpacerOfRendered(csv, rows, n - 1);
    }
  }

  /** The lines of a file the serializer wrote, split at commas: each
      written row's cells and the empty field after its last comma, then the
      empty text after the final newline. */
  lemma RenderedRows(csv: seq<seq<string>>)
    requires 0 < |csv|
    requires Table.CellsFree(csv, ',') && Table.CellsFree(csv, '\n')
    ensures var rows := Rows(Table.Render(csv));
      |rows| == |csv[0]| + 1 && rows[|csv[0]|] == [""] &&
      forall r :: 0 <= r < |csv[0]| ==> rows[r] == Table.RowCells(csv, r) + [""]
  {
    var text := Table.Render(csv);
    Table.RenderLines(csv);
    var lines := Lines(text);
    assert lines == Table.Rows(csv) + [""];
    var rows := Rows(text);
    forall r | 0 <= r < |csv[0]| ensures rows[r] == Table.RowCells(csv, r) + [""] {
      assert lines[r] == Table.RowText(csv, r);
      Table.RowFields(csv, r);
    }
    assert lines[|csv[0]|] == "";
  }

  /** Loading a file the serializer wrote gives back, for each column, its
      non-empty cells among the rows that were written, plus one empty
      column for the field after each row's last comma; the final empty line
      is skipped. */
  lemma LoadRendered(csv: seq<seq<string>>)
    requires 0 < |csv| && 0 < |csv[0]|
    requires Table.CellsFree(csv, ',') && Table.CellsFree(csv, '\n')
    ensures Loadable(Rows(Table.Render(csv)))
    ensures |Load(Table.Render(csv))| == |csv| + 1
    ensures forall j :: 0 <= j < |csv| ==> Load(Table.Render(csv))[j] == NonEmpty(WrittenColumn(csv, j))
    ensures Load(Table.Render(csv))[|csv|] == []
  {
    var text := Table.Render(csv);
    var rows := Rows(text);
    RenderedRows(csv);
    assert |rows[0]| == |csv| + 1;
    assert Loadable(rows);
    forall j | 0 <= j < |csv| ensures Load(text)[j] == NonEmpty(WrittenColumn(csv, j)) {
      ColumnOfRendered(csv, rows, j, |csv[0]|);
      assert WrittenColumn(csv, j)[..|csv[0]|] == WrittenColumn(csv, j);
    }
    SpacerOfRendered(csv, rows, |rows|);
  }

  // ---------------------------------------------------------------------
  // Choosing the reference block

  /** Cell `r` of column `c`, read as a number. */
  function Val(csv: seq<seq<string>>, parse: string -> Option<real>, c: nat, r: nat): real
    requires c < |csv| && r < |csv[c]| && parse(csv[c][r]).Some?
  {
    parse(csv[c][r]).value
  }

  /** The span of block `b` can be computed: its time column has a first
      sample (row 1, after the header) and a last one, and both parse. */
  predicate SpanDefined(csv: seq<seq<string>>, parse: string -> Option<real>, b: nat) {
    5 * b < |csv| && |csv[5 * b]| >= 2 &&
    parse(csv[5 * b][1]).Some? && parse(csv[5 * b][|csv[5 * b]| - 1]).Some?
  }

  /** The time block `b` covers: its last timestamp minus its first. */
  function Span(csv: seq<seq<string>>, parse: string -> Option<real>, b: nat): real
    requires SpanDefined(csv, parse, b)
  {
    Val(csv, parse, 5 * b, |csv[5 * b]| - 1) - Val(csv, parse, 5 * b, 1)
  }

  /** The blocks the selection loop examines: block 0, then blocks
      `1 .. |csv| / 5 - 1`. */
  function Candidates(csv: seq<seq<string>>): nat {
    if |csv| / 5 > 1 then |csv| / 5 else 1
  }

  /** Every examined block has a span (otherwise the Rust program panics). */
  predicate Selectable(csv: seq<seq<string>>, parse: string -> Option<real>) {
    forall b :: 0 <= b < Candidates(csv) ==> SpanDefined(csv, parse, b)
  }

  /** Block `ref` has the smallest span, and every block before it a strictly larger one. */
  predicate IsFirstMinimum(csv: seq<seq<string>>, parse: string -> Option<real>, ref: nat)
    requires Selectable(csv, parse)
  {
    ref < Candidates(csv) &&
    (forall b :: 0 <= b < Candidates(csv) ==> Span(csv, parse, ref) <= Span(csv, parse, b)) &&
    (forall b :: 0 <= b < ref ==> Span(csv, parse, ref) < Span(csv, parse, b))
  }

  /** The block chosen among the first `n` examined: a later block replaces the
      current choice only when its span is strictly smaller. */
  function ReferenceAmong(csv: seq<seq<string>>, parse: string -> Option<real>, n: nat): (ref: nat)
    requires Selectable(csv, parse) && 1 <= n <= Candidates(csv)
    ensures ref < n
  {
    if n == 1 then 0
    else
      var ref := ReferenceAmong(csv, parse, n - 1);
      if Span(csv, parse, n - 1) < Span(csv, parse, ref) then n - 1 else ref
  }

  /** The reference block of `aggregate`. */
  function Reference(csv: seq<seq<string>>, parse: string -> Option<real>): nat
    requires Selectable(csv, parse)
  {
    ReferenceAmong(csv, parse, Candidates(csv))
  }

  lemma {:induction false} ReferenceAmongMinimal(csv: seq<seq<string>>, parse: string -> Option<real>, n: nat)
    requires Selectable(csv, parse) && 1 <= n <= Candidates(csv)
    ensures var ref := ReferenceAmong(csv, parse, n);
      (forall b :: 0 <= b < n ==> Span(csv, parse, ref) <= Span(csv, parse, b)) &&
      (forall b :: 0 <= b < ref ==> Span(csv, parse, ref) < Span(csv, parse, b))
  {
    if n > 1 {
      ReferenceAmongMinimal(csv, parse, n - 1);
    }
  }

  /** The reference block has the smallest span, and ties go to the lowest block. */
  lemma ReferenceIsFirstMinimum(csv: seq<seq<string>>, parse: string -> Option<real>)
    requires Selectable(csv, parse)
    ensures IsFirstMinimum(csv, parse, Reference(csv, parse))
  {
    ReferenceAmongMinimal(csv, parse, Candidates(csv));
  }

  /** There is only one first minimum, so the choice is determined by the spans. */
  lemma FirstMinimumUnique(csv: seq<seq<string>>, parse: string -> Option<real>, a: nat, b: nat)
    requires Selectable(csv, parse)
    requires IsFirstMinimum(csv, parse, a) && IsFirstMinimum(csv, parse, b)
    ensures a == b
  {
    assert Span(csv, parse, a) == Span(csv, parse, b);
  }

  /** The selection loop of `aggregate`: the block with the smallest span,
      the earliest one on ties. */
  method SelectReference(csv: seq<seq<string>>, parse: string -> Option<real>) returns (ref: nat)
    requires Selectable(csv, parse)
    ensures ref == Reference(csv, parse)
    ensures IsFirstMinimum(csv, parse, ref)
  {
    assert SpanDefined(csv, parse, 0);
    var smallest := parse(csv[0][|csv[0]| - 1]).value - parse(csv[0][1]).value;
    ref := 0;
    // the blocks from 1 on; none when there are fewer than two blocks
    var block := 1;
    while block < |csv| / 5
      invariant 1 <= block <= Candidates(csv)
      invariant ref == ReferenceAmong(csv, parse, block)
      invariant smallest == Span(csv, parse, ref)
    {
      assert SpanDefined(csv, parse, block);
      var column := block * 5;
      var range := parse(csv[column][|csv[column]| - 1]).value - parse(csv[column][1]).value;
      if range < smallest {
        ref := block;
        smallest := range;
      }
      block := block + 1;
    }
    ReferenceIsFirstMinimum(csv, parse);
  }

  // ---------------------------------------------------------------------
  // Windows around the reference timestamps

  /** The samples averaged for one reference timestamp: those equal to it,
      and those from `lower` (inclusive) to `upper` (exclusive). */
  datatype Window = Window(target: real, lower: real, upper: real)

  predicate Counted(s: real, w: Window) {
    s == w.target || (w.lower <= s && s < w.upper)
  }

  /** Every sample of the reference time column parses (the Rust program unwraps each). */
  predicate ReferenceParses(csv: seq<seq<string>>, parse: string -> Option<real>, ref: nat) {
    5 * ref < |csv| &&
    forall r :: 1 <= r < |csv[5 * ref]| ==> parse(csv[5 * ref][r]).Some?
  }

  /** The window of reference row `t`: from the midpoint with the previous
      reference timestamp to the midpoint with the next one, where the first
      row has no previous and the last row no next timestamp, and the
      timestamp itself stands in for the missing one. */
  function WindowAt(csv: seq<seq<string>>, parse: string -> Option<real>, ref: nat, t: nat): Window
    requires ReferenceParses(csv, parse, ref) && 1 <= t < |csv[5 * ref]|
  {
    var c := 5 * ref;
    var target := Val(csv, parse, c, t);
    var prev := if t > 1 then Val(csv, parse, c, t - 1) else target;
    var next := if t < |csv[c]| - 1 then Val(csv, parse, c, t + 1) else target;
    Window(target, (prev + target) / 2.0, (next + target) / 2.0)
  }

  /** Consecutive windows meet: each ends where the next one begins. */
  lemma WindowsAdjacent(csv: seq<seq<string>>, parse: string -> Option<real>, ref: nat, t: nat)
    requires ReferenceParses(csv, parse, ref) && 1 <= t && t + 1 < |csv[5 * ref]|
    ensures WindowAt(csv, parse, ref, t).upper == WindowAt(csv, parse, ref, t + 1).lower
  {
  }

  /** The first window begins at its own timestamp and the last one ends at
      its own timestamp, so samples before the first or after the last
      reference timestamp are never counted. */
  lemma WindowEnds(csv: seq<seq<string>>, parse: string -> Option<real>, ref: nat)
    requires ReferenceParses(csv, parse, ref) && 2 <= |csv[5 * ref]|
    ensures var first := WindowAt(csv, parse, ref, 1); first.lower == first.target
    ensures var last := WindowAt(csv, parse, ref, |csv[5 * ref]| - 1); last.upper == last.target
  {
  }

  /** The parsed samples of column `c` from row `from` on never decrease. */
  predicate NonDecreasingFrom(csv: seq<seq<string>>, parse: string -> Option<real>, c: nat, from: nat)
    requires c < |csv|
  {
    forall i, j :: from <= i <= j < |csv[c]| && parse(csv[c][i]).Some? && parse(csv[c][j]).Some? ==>
      parse(csv[c][i]).value <= parse(csv[c][j]).value
  }

  /** The parsed samples of column `c` from row `from` on strictly increase. */
  predicate IncreasingFrom(csv: seq<seq<string>>, parse: string -> Option<real>, c: nat, from: nat)
    requires c < |csv|
  {
    forall i, j :: from <= i < j < |csv[c]| && parse(csv[c][i]).Some? && parse(csv[c][j]).Some? ==>
      parse(csv[c][i]).value < parse(csv[c][j]).value
  }

  /** With a sorted reference column, a window holds its own timestamp. */
  lemma WindowHoldsTarget(csv: seq<seq<string>>, parse: string -> Option<real>, ref: nat, t: nat)
    requires ReferenceParses(csv, parse, ref) && 1 <= t < |csv[5 * ref]|
    requires NonDecreasingFrom(csv, parse, 5 * ref, 1)
    ensures var w := WindowAt(csv, parse, ref, t); w.lower <= w.target <= w.upper
  {
    if t > 1 {
      assert Val(csv, parse, 5 * ref, t - 1) <= Val(csv, parse, 5 * ref, t);
    }
    if t < |csv[5 * ref]| - 1 {
      assert Val(csv, parse, 5 * ref, t) <= Val(csv, parse, 5 * ref, t + 1);
    }
  }

  lemma {:induction false} CoveredFrom(csv: seq<seq<string>>, parse: string -> Option<real>, ref: nat, t: nat, s: real)
    requires ReferenceParses(csv, parse, ref) && 1 <= t < |csv[5 * ref]|
    requires WindowAt(csv, parse, ref, t).lower <= s <= Val(csv, parse, 5 * ref, |csv[5 * ref]| - 1)
    ensures exists u :: t <= u < |csv[5 * ref]| && Counted(s, WindowAt(csv, parse, ref, u))
    decreases |csv[5 * ref]| - t
  {
    var w := WindowAt(csv, parse, ref, t);
    if t == |csv[5 * ref]| - 1 {
      assert Counted(s, w);
    } else if s < w.upper {
      assert Counted(s, w);
    } else {
      WindowsAdjacent(csv, parse, ref, t);
      CoveredFrom(csv, parse, ref, t + 1, s);
    }
  }

  /** With strictly increasing reference timestamps, every sample from the
      first to the last reference timestamp is averaged into exactly one
      output row. */
  lemma CountedExactlyOnce(csv: seq<seq<string>>, parse: string -> Option<real>, ref: nat, s: real)
    requires ReferenceParses(csv, parse, ref) && 2 <= |csv[5 * ref]|
    requires IncreasingFrom(csv, parse, 5 * ref, 1)
    requires Val(csv, parse, 5 * ref, 1) <= s <= Val(csv, parse, 5 * ref, |csv[5 * ref]| - 1)
    ensures exists t :: 1 <= t < |csv[5 * ref]| && Counted(s, WindowAt(csv, parse, ref, t))
    ensures forall t1, t2 ::
      (1 <= t1 < |csv[5 * ref]| && 1 <= t2 < |csv[5 * ref]| &&
       Counted(s, WindowAt(csv, parse, ref, t1)) && Counted(s, WindowAt(csv, parse, ref, t2))) ==> t1 == t2
  {
    CoveredFrom(csv, parse, ref, 1, s);
    forall t1, t2 | 1 <= t1 < t2 < |csv[5 * ref]| && Counted(s, WindowAt(csv, parse, ref, t1))
      ensures !Counted(s, WindowAt(csv, parse, ref, t2))
    {
      LaterWindowMisses(csv, parse, ref, s, t1, t2);
    }
  }

  /** With strictly increasing reference timestamps, a sample counted in the
      window of row `t1` is not counted in the window of any later row `t2`. */
  lemma LaterWindowMisses(csv: seq<seq<string>>, parse: string -> Option<real>, ref: nat, s: real, t1: nat, t2: nat)
    requires ReferenceParses(csv, parse, ref) && 1 <= t1 < t2 < |csv[5 * ref]|
    requires IncreasingFrom(csv, parse, 5 * ref, 1)
    requires Counted(s, WindowAt(csv, parse, ref, t1))
    ensures !Counted(s, WindowAt(csv, parse, ref, t2))
  {
    var c := 5 * ref;
    var w1 := WindowAt(csv, parse, ref, t1);
    var w2 := WindowAt(csv, parse, ref, t2);
    assert Val(csv, parse, c, t1) < Val(csv, parse, c, t1 + 1);
    assert Val(csv, parse, c, t1) <= Val(csv, parse, c, t2 - 1);
    assert Val(csv, parse, c, t1 + 1) <= Val(csv, parse, c, t2);
    assert Val(csv, parse, c, t2 - 1) < Val(csv, parse, c, t2);
    assert s < w1.upper <= w2.lower < w2.target;
  }

  // ---------------------------------------------------------------------
  // Scanning a block

  /** The running sums of the three axes and the number of samples counted. */
  datatype Acc = Acc(x: real, y: real, z: real, count: nat)

  const Empty: Acc := Acc(0.0, 0.0, 0.0, 0)

  function Plus(a: Acc, b: Acc): Acc {
    Acc(a.x + b.x, a.y + b.y, a.z + b.z, a.count + b.count)
  }

  /** Row `row` of block `b` has X, Y and Z cells, and they parse. */
  predicate SampleParses(csv: seq<seq<string>>, parse: string -> Option<real>, b: nat, row: nat)
    requires 5 * b + 4 <= |csv|
  {
    var c := 5 * b;
    row < |csv[c + 1]| && row < |csv[c + 2]| && row < |csv[c + 3]| &&
    parse(csv[c + 1][row]).Some? && parse(csv[c + 2][row]).Some? && parse(csv[c + 3][row]).Some?
  }

  /** The sample of row `row`, counted once. */
  function Sample(csv: seq<seq<string>>, parse: string -> Option<real>, b: nat, row: nat): Acc
    requires 5 * b + 4 <= |csv| && SampleParses(csv, parse, b, row)
  {
    var c := 5 * b;
    Acc(Val(csv, parse, c + 1, row), Val(csv, parse, c + 2, row), Val(csv, parse, c + 3, row), 1)
  }

  /** Scanning block `b` from row `row` reads only cells that exist and parse:
      the timestamp of every row it reaches, and the axes of every row it
      counts. The scan stops after the first uncounted sample later than the
      window. */
  predicate ScanOK(csv: seq<seq<string>>, parse: string -> Option<real>, b: nat, w: Window, row: nat)
    requires 5 * b + 4 <= |csv|
    decreases |csv[5 * b]| - row
  {
    row >= |csv[5 * b]| ||
    (parse(csv[5 * b][row]).Some? &&
     var s := parse(csv[5 * b][row]).value;
     (Counted(s, w) ==> SampleParses(csv, parse, b, row)) &&
     (Counted(s, w) || s <= w.upper ==> ScanOK(csv, parse, b, w, row + 1)))
  }

  /** What the scan of block `b` from row `row` collects, with the early stop. */
  function Scan(csv: seq<seq<string>>, parse: string -> Option<real>, b: nat, w: Window, row: nat): Acc
    requires 5 * b + 4 <= |csv| && ScanOK(csv, parse, b, w, row)
    decreases |csv[5 * b]| - row
  {
    if row >= |csv[5 * b]| then Empty
    else
      var s := Val(csv, parse, 5 * b, row);
      if Counted(s, w) then Plus(Sample(csv, parse, b, row), Scan(csv, parse, b, w, row + 1))
      else if s > w.upper then Empty
      else Scan(csv, parse, b, w, row + 1)
  }

  /** One step of the scan at a row it reaches. */
  lemma ScanStep(csv: seq<seq<string>>, parse: string -> Option<real>, b: nat, w: Window, row: nat)
    requires 5 * b + 4 <= |csv| && ScanOK(csv, parse, b, w, row) && row < |csv[5 * b]|
    ensures parse(csv[5 * b][row]).Some?
    ensures var s := parse(csv[5 * b][row]).value;
      if Counted(s, w) then
        SampleParses(csv, parse, b, row) && ScanOK(csv, parse, b, w, row + 1) &&
        Scan(csv, parse, b, w, row) == Plus(Sample(csv, parse, b, row), Scan(csv, parse, b, w, row + 1))
      else if s > w.upper then Scan(csv, parse, b, w, row) == Empty
      else ScanOK(csv, parse, b, w, row + 1) && Scan(csv, parse, b, w, row) == Scan(csv, parse, b, w, row + 1)
  {
  }

  /** The inner loop of `aggregate` for one block and one window: the sums and
      the count of the samples in the window, up to the first later sample. */
  method AccumulateBlock(csv: seq<seq<string>>, parse: string -> Option<real>, b: nat, w: Window) returns (acc: Acc)
    requires 5 * b + 5 <= |csv| && ScanOK(csv, parse, b, w, 1)
    ensures acc == Scan(csv, parse, b, w, 1)
  {
    var column := 5 * b;
    var sumX, sumY, sumZ := 0.0, 0.0, 0.0;
    var counted: nat := 0;
    // the rows of the block's time column, from row 1 on
    ghost var total := Scan(csv, parse, b, w, 1);
    var rowIndex := 1;
    while rowIndex < |csv[column]|
      invariant 1 <= rowIndex && ScanOK(csv, parse, b, w, rowIndex)
      invariant counted + Scan(csv, parse, b, w, rowIndex).count == total.count
      invariant sumX + Scan(csv, parse, b, w, rowIndex).x == total.x
      invariant sumY + Scan(csv, parse, b, w, rowIndex).y == total.y
      invariant sumZ + Scan(csv, parse, b, w, rowIndex).z == total.z
      decreases |csv[column]| - rowIndex
    {
      ScanStep(csv, parse, b, w, rowIndex);
      var timestamp := parse(csv[column][rowIndex]).value;
      if timestamp == w.target || (timestamp >= w.lower && timestamp < w.upper) {
        sumX := sumX + parse(csv[column + 1][rowIndex]).value;
        sumY := sumY + parse(csv[column + 2][rowIndex]).value;
        sumZ := sumZ + parse(csv[column + 3][rowIndex]).value;
        counted := counted + 1;
      } else if timestamp > w.upper {
        break;
      }
      rowIndex := rowIndex + 1;
    }
    assert Scan(csv, parse, b, w, rowIndex) == Empty;
    acc := Acc(sumX, sumY, sumZ, counted);
  }

  /** Every row from `row` on has a timestamp that parses, and the axes of
      every row in the window parse. */
  predicate FullOK(csv: seq<seq<string>>, parse: string -> Option<real>, b: nat, w: Window, row: nat)
    requires 5 * b + 4 <= |csv|
    decreases |csv[5 * b]| - row
  {
    row >= |csv[5 * b]| ||
    (parse(csv[5 * b][row]).Some? &&
     (Counted(parse(csv[5 * b][row]).value, w) ==> SampleParses(csv, parse, b, row)) &&
     FullOK(csv, parse, b, w, row + 1))
  }

  /** The same collection without the early stop: every row in the window. */
  function FullScan(csv: seq<seq<string>>, parse: string -> Option<real>, b: nat, w: Window, row: nat): Acc
    requires 5 * b + 4 <= |csv| && FullOK(csv, parse, b, w, row)
    decreases |csv[5 * b]| - row
  {
    if row >= |csv[5 * b]| then Empty
    else
      var rest := FullScan(csv, parse, b, w, row + 1);
      if Counted(Val(csv, parse, 5 * b, row), w) then Plus(Sample(csv, parse, b, row), rest) else rest
  }

  lemma {:induction false} NothingLater(csv: seq<seq<string>>, parse: string -> Option<real>, b: nat, w: Window, row: nat, bound: real)
    requires 5 * b + 4 <= |csv| && FullOK(csv, parse, b, w, row)
    requires w.target <= w.upper < bound
    requires forall i :: row <= i < |csv[5 * b]| && parse(csv[5 * b][i]).Some? ==> bound <= parse(csv[5 * b][i]).value
    ensures FullScan(csv, parse, b, w, row) == Empty
    decreases |csv[5 * b]| - row
  {
    if row < |csv[5 * b]| {
      NothingLater(csv, parse, b, w, row + 1, bound);
    }
  }

  /** When the block's timestamps never decrease and the window holds its
      own timestamp, stopping at the first later sample loses nothing: the
      scan collects exactly the samples in the window. */
  lemma {:induction false} ScanUnbroken(csv: seq<seq<string>>, parse: string -> Option<real>, b: nat, w: Window, row: nat)
    requires 5 * b + 4 <= |csv| && FullOK(csv, parse, b, w, row)
    requires NonDecreasingFrom(csv, parse, 5 * b, row)
    requires w.target <= w.upper
    ensures ScanOK(csv, parse, b, w, row)
    ensures Scan(csv, parse, b, w, row) == FullScan(csv, parse, b, w, row)
    decreases |csv[5 * b]| - row
  {
    if row < |csv[5 * b]| {
      var s := Val(csv, parse, 5 * b, row);
      ScanUnbroken(csv, parse, b, w, row + 1);
      if !Counted(s, w) && s > w.upper {
        NothingLater(csv, parse, b, w, row + 1, s);
      }
    }
  }

  /** With sorted reference timestamps and a sorted block, the early `break`
      of the scan for any reference row loses nothing. */
  lemma SortedScan(csv: seq<seq<string>>, parse: string -> Option<real>, ref: nat, b: nat, t: nat)
    requires ReferenceParses(csv, parse, ref) && 1 <= t < |csv[5 * ref]|
    requires NonDecreasingFrom(csv, parse, 5 * ref, 1)
    requires 5 * b + 4 <= |csv| && NonDecreasingFrom(csv, parse, 5 * b, 1)
    requires FullOK(csv, parse, b, WindowAt(csv, parse, ref, t), 1)
    ensures ScanOK(csv, parse, b, WindowAt(csv, parse, ref, t), 1)
    ensures Scan(csv, parse, b, WindowAt(csv, parse, ref, t), 1) == FullScan(csv, parse, b, WindowAt(csv, parse, ref, t), 1)
  {
    WindowHoldsTarget(csv, parse, ref, t);
    ScanUnbroken(csv, parse, b, WindowAt(csv, parse, ref, t), 1);
  }

  // ---------------------------------------------------------------------
  // The output grid

  /** Every scan the resampler runs reads only cells that exist and parse. */
  predicate Resamplable(csv: seq<seq<string>>, parse: string -> Option<real>, ref: nat) {
    ReferenceParses(csv, parse, ref) &&
    forall b, t :: 0 <= b < |csv| / 5 && 1 <= t < |csv[5 * ref]| ==>
      ScanOK(csv, parse, b, WindowAt(csv, parse, ref, t), 1)
  }

  /** The samples of block `b` collected for reference row `t`. */
  function Collected(csv: seq<seq<string>>, parse: string -> Option<real>, ref: nat, b: nat, t: nat): Acc
    requires Resamplable(csv, parse, ref) && b < |csv| / 5 && 1 <= t < |csv[5 * ref]|
  {
    Scan(csv, parse, b, WindowAt(csv, parse, ref, t), 1)
  }

  /** The average of axis `axis` (0 X, 1 Y, 2 Z) over the collected samples. */
  function Mean(acc: Acc, axis: nat): real
    requires acc.count > 0 && axis < 3
  {
    (if axis == 0 then acc.x else if axis == 1 then acc.y else acc.z) / acc.count as real
  }

  /** The value written for block `b`, axis `axis`, at reference row `t`: the
      mean when the window collected samples; otherwise, from row 3 on, the
      value of the row before; otherwise the initial zero. */
  function OutCell(csv: seq<seq<string>>, parse: string -> Option<real>, ref: nat, b: nat, axis: nat, t: nat): real
    requires Resamplable(csv, parse, ref) && b < |csv| / 5 && axis < 3 && 1 <= t < |csv[5 * ref]|
    decreases t
  {
    var acc := Collected(csv, parse, ref, b, t);
    if acc.count > 0 then Mean(acc, axis)
    else if t > 2 then OutCell(csv, parse, ref, b, axis, t - 1)
    else 0.0
  }

  /** An empty window repeats the mean of the latest earlier row, from row 2
      on, whose window collected samples. */
  lemma {:induction false} CarryForward(csv: seq<seq<string>>, parse: string -> Option<real>, ref: nat, b: nat, axis: nat, u: nat, t: nat)
    requires Resamplable(csv, parse, ref) && b < |csv| / 5 && axis < 3
    requires 2 <= u <= t < |csv[5 * ref]|
    requires Collected(csv, parse, ref, b, u).count > 0
    requires forall v :: u < v <= t ==> Collected(csv, parse, ref, b, v).count == 0
    ensures OutCell(csv, parse, ref, b, axis, t) == Mean(Collected(csv, parse, ref, b, u), axis)
    decreases t
  {
    if u < t {
      CarryForward(csv, parse, ref, b, axis, u, t - 1);
    }
  }

  /** When no window from row 2 to row `t` collected samples, the output stays
      zero: the mean of row 1 is never carried forward. */
  lemma {:induction false} NothingToCarry(csv: seq<seq<string>>, parse: string -> Option<real>, ref: nat, b: nat, axis: nat, t: nat)
    requires Resamplable(csv, parse, ref) && b < |csv| / 5 && axis < 3
    requires 2 <= t < |csv[5 * ref]|
    requires forall v :: 2 <= v <= t ==> Collected(csv, parse, ref, b, v).count == 0
    ensures OutCell(csv, parse, ref, b, axis, t) == 0.0
    decreases t
  {
    if t > 2 {
      NothingToCarry(csv, parse, ref, b, axis, t - 1);
    }
  }

  /** The number of output columns: the timestamps and three per block. */
  function OutColumns(csv: seq<seq<string>>): nat {
    |csv| / 5 * 3 + 1
  }

  /** Output cell (column `i`, row `j`). Row `j` belongs to reference row
      `j + 1`; column 0 holds the reference timestamps and column `3b + 1 + a`
      axis `a` of block `b`. The grid has as many rows as the reference column
      has cells, header included, so its last row is never written. */
  function Expected(csv: seq<seq<string>>, parse: string -> Option<real>, ref: nat, i: nat, j: nat): real
    requires Resamplable(csv, parse, ref) && i < OutColumns(csv) && j < |csv[5 * ref]|
  {
    if j == |csv[5 * ref]| - 1 then 0.0
    else if i == 0 then Val(csv, parse, 5 * ref, j + 1)
    else OutCell(csv, parse, ref, (i - 1) / 3, (i - 1) % 3, j + 1)
  }

  lemma ExpectedData(csv: seq<seq<string>>, parse: string -> Option<real>, ref: nat, b: nat, axis: nat, j: nat)
    requires Resamplable(csv, parse, ref) && b < |csv| / 5 && axis < 3 && j + 1 < |csv[5 * ref]|
    ensures 3 * b + 1 + axis < OutColumns(csv)
    ensures Expected(csv, parse, ref, 3 * b + 1 + axis, j) == OutCell(csv, parse, ref, b, axis, j + 1)
  {
    assert (3 * b + axis) / 3 == b && (3 * b + axis) % 3 == axis;
  }

  /** The grid holds the expected values in every row before `row`, and in
      row `row` in the columns before `cols`; every other cell is still zero. */
  ghost predicate FilledUpTo(csv: seq<seq<string>>, parse: string -> Option<real>, ref: nat, target: array2<real>, row: nat, cols: nat)
    requires Resamplable(csv, parse, ref)
    requires target.Length0 == OutColumns(csv) && target.Length1 == |csv[5 * ref]|
    reads target
  {
    forall i, j :: 0 <= i < target.Length0 && 0 <= j < target.Length1 ==>
      target[i, j] == (if j < row || (j == row && i < cols) then Expected(csv, parse, ref, i, j) else 0.0)
  }

  /** A finished row is the same as the next row not yet begun. */
  lemma RowFinished(csv: seq<seq<string>>, parse: string -> Option<real>, ref: nat, target: array2<real>, row: nat)
    requires Resamplable(csv, parse, ref)
    requires target.Length0 == OutColumns(csv) && target.Length1 == |csv[5 * ref]|
    requires FilledUpTo(csv, parse, ref, target, row, OutColumns(csv))
    ensures FilledUpTo(csv, parse, ref, target, row + 1, 0)
  {
  }

  /** Writing value `v` into the next cell to fill, column `i` and row `j`, which gets its expected value. */
  method SetCell(csv: seq<seq<string>>, parse: string -> Option<real>, ref: nat, target: array2<real>, i: nat, j: nat, v: real)
    requires Resamplable(csv, parse, ref)
    requires target.Length0 == OutColumns(csv) && target.Length1 == |csv[5 * ref]|
    requires i < target.Length0 && j < target.Length1 && v == Expected(csv, parse, ref, i, j)
    requires FilledUpTo(csv, parse, ref, target, j, i)
    modifies target
    ensures FilledUpTo(csv, parse, ref, target, j, i + 1)
  {
    target[i, j] := v;
  }

  /** A cell whose expected value is zero is already filled. */
  lemma ZeroCell(csv: seq<seq<string>>, parse: string -> Option<real>, ref: nat, target: array2<real>, i: nat, j: nat)
    requires Resamplable(csv, parse, ref)
    requires target.Length0 == OutColumns(csv) && target.Length1 == |csv[5 * ref]|
    requires i < target.Length0 && j < target.Length1 && Expected(csv, parse, ref, i, j) == 0.0
    requires FilledUpTo(csv, parse, ref, target, j, i)
    ensures FilledUpTo(csv, parse, ref, target, j, i + 1)
  {
  }

  /** The rule for one data cell of output row `row`: the mean of the
      window of reference row `row + 1`, or, when that window is empty, the
      cell above from output row 2 on, or zero. */
  lemma CellRule(csv: seq<seq<string>>, parse: string -> Option<real>, ref: nat, b: nat, axis: nat, row: nat)
    requires Resamplable(csv, parse, ref) && b < |csv| / 5 && axis < 3 && row + 1 < |csv[5 * ref]|
    ensures 3 * b + 1 + axis < OutColumns(csv)
    ensures var acc := Collected(csv, parse, ref, b, row + 1);
      Expected(csv, parse, ref, 3 * b + 1 + axis, row) ==
        if acc.count > 0 then Mean(acc, axis)
        else if row >= 2 then Expected(csv, parse, ref, 3 * b + 1 + axis, row - 1)
        else 0.0
  {
    ExpectedData(csv, parse, ref, b, axis, row);
    if row >= 1 {
      ExpectedData(csv, parse, ref, b, axis, row - 1);
    }
  }

  /** When the window of reference row `row + 1` holds samples, the three
      data cells of block `b` in output row `row` are their means. */
  lemma MeanBlock(csv: seq<seq<string>>, parse: string -> Option<real>, ref: nat, b: nat, row: nat)
    requires Resamplable(csv, parse, ref) && b < |csv| / 5 && row + 1 < |csv[5 * ref]|
    requires Collected(csv, parse, ref, b, row + 1).count > 0
    ensures var acc := Collected(csv, parse, ref, b, row + 1);
      Expected(csv, parse, ref, 3 * b + 1, row) == acc.x / acc.count as real &&
      Expected(csv, parse, ref, 3 * b + 2, row) == acc.y / acc.count as real &&
      Expected(csv, parse, ref, 3 * b + 3, row) == acc.z / acc.count as real
  {
    CellRule(csv, parse, ref, b, 0, row);
    CellRule(csv, parse, ref, b, 1, row);
    CellRule(csv, parse, ref, b, 2, row);
  }

  /** When the window of reference row `row + 1` is empty, the three data
      cells of block `b` in output row `row` repeat the row above from output
      row 2 on, and are zero before. */
  lemma EmptyWindowCells(csv: seq<seq<string>>, parse: string -> Option<real>, ref: nat, b: nat, row: nat)
    requires Resamplable(csv, parse, ref) && b < |csv| / 5 && row + 1 < |csv[5 * ref]|
    requires Collected(csv, parse, ref, b, row + 1).count == 0
    ensures 3 * b + 3 < OutColumns(csv)
    ensures Expected(csv, parse, ref, 3 * b + 1, row) == if row >= 2 then Expected(csv, parse, ref, 3 * b + 1, row - 1) else 0.0
    ensures Expected(csv, parse, ref, 3 * b + 2, row) == if row >= 2 then Expected(csv, parse, ref, 3 * b + 2, row - 1) else 0.0
    ensures Expected(csv, parse, ref, 3 * b + 3, row) == if row >= 2 then Expected(csv, parse, ref, 3 * b + 3, row - 1) else 0.0
  {
    CellRule(csv, parse, ref, b, 0, row);
    CellRule(csv, parse, ref, b, 1, row);
    CellRule(csv, parse, ref, b, 2, row);
  }

  /** When the window of reference row `row + 1` is empty and `row >= 2`, the
      three data cells of block `b` in output row `row` are the finished
      cells above them. */
  lemma CarriedBlock(csv: seq<seq<string>>, parse: string -> Option<real>, ref: nat, target: array2<real>, b: nat, row: nat)
    requires Resamplable(csv, parse, ref)
    requires target.Length0 == OutColumns(csv) && target.Length1 == |csv[5 * ref]|
    requires b < |csv| / 5 && 2 <= row && row + 1 < |csv[5 * ref]|
    requires Collected(csv, parse, ref, b, row + 1).count == 0
    requires FilledUpTo(csv, parse, ref, target, row, 3 * b + 1)
    ensures 3 * b + 3 < target.Length0
    ensures target[3 * b + 1, row - 1] == Expected(csv, parse, ref, 3 * b + 1, row)
    ensures target[3 * b + 2, row - 1] == Expected(csv, parse, ref, 3 * b + 2, row)
    ensures target[3 * b + 3, row - 1] == Expected(csv, parse, ref, 3 * b + 3, row)
  {
    EmptyWindowCells(csv, parse, ref, b, row);
  }

  /** When the window of reference row `row + 1` is empty and `row < 2`, the
      three data cells of block `b` in output row `row` are zero, as
      allocated. */
  lemma ZeroBlock(csv: seq<seq<string>>, parse: string -> Option<real>, ref: nat, target: array2<real>, b: nat, row: nat)
    requires Resamplable(csv, parse, ref)
    requires target.Length0 == OutColumns(csv) && target.Length1 == |csv[5 * ref]|
    requires b < |csv| / 5 && row < 2 && row + 1 < |csv[5 * ref]|
    requires Collected(csv, parse, ref, b, row + 1).count == 0
    requires FilledUpTo(csv, parse, ref, target, row, 3 * b + 1)
    ensures FilledUpTo(csv, parse, ref, target, row, 3 * b + 4)
  {
    EmptyWindowCells(csv, parse, ref, b, row);
    ZeroCell(csv, parse, ref, target, 3 * b + 1, row);
    ZeroCell(csv, parse, ref, target, 3 * b + 2, row);
    ZeroCell(csv, parse, ref, target, 3 * b + 3, row);
  }

  /** The three writes of one block into output row `row`. */
  method SetBlock(csv: seq<seq<string>>, parse: string -> Option<real>, ref: nat, target: array2<real>,
                  block: nat, row: nat, x: real, y: real, z: real)
    requires Resamplable(csv, parse, ref)
    requires target.Length0 == OutColumns(csv) && target.Length1 == |csv[5 * ref]|
    requires block < |csv| / 5 && row < target.Length1
    requires x == Expected(csv, parse, ref, 3 * block + 1, row)
    requires y == Expected(csv, parse, ref, 3 * block + 2, row)
    requires z == Expected(csv, parse, ref, 3 * block + 3, row)
    requires FilledUpTo(csv, parse, ref, target, row, 3 * block + 1)
    modifies target
    ensures FilledUpTo(csv, parse, ref, target, row, 3 * block + 4)
  {
    SetCell(csv, parse, ref, target, 3 * block + 1, row, x);
    SetCell(csv, parse, ref, target, 3 * block + 2, row, y);
    SetCell(csv, parse, ref, target, 3 * block + 3, row, z);
  }

  /** The body of the block loop after the scan: the three cells of block
      `block` in output row `rowTarget - 1` get the window's means, or, when
      the window is empty and `rowTarget > 2`, the cells of the row above;
      otherwise they keep their zeros. */
  method WriteBlock(csv: seq<seq<string>>, parse: string -> Option<real>, ref: nat, target: array2<real>,
                    block: nat, rowTarget: nat, acc: Acc)
    requires Resamplable(csv, parse, ref)
    requires target.Length0 == OutColumns(csv) && target.Length1 == |csv[5 * ref]|
    requires block < |csv| / 5 && 1 <= rowTarget < |csv[5 * ref]|
    requires acc == Collected(csv, parse, ref, block, rowTarget)
    requires FilledUpTo(csv, parse, ref, target, rowTarget - 1, 3 * block + 1)
    modifies target
    ensures FilledUpTo(csv, parse, ref, target, rowTarget - 1, 3 * block + 4)
  {
    var row := rowTarget - 1;
    var column := block * 3 + 1;
    if acc.count == 0 {
      if rowTarget > 2 {
        CarriedBlock(csv, parse, ref, target, block, row);
        SetBlock(csv, parse, ref, target, block, row, target[column, row - 1], target[column + 1, row - 1], target[column + 2, row - 1]);
      } else {
        // the cells keep the zeros they were allocated with
        ZeroBlock(csv, parse, ref, target, block, row);
      }
      return;
    }
    MeanBlock(csv, parse, ref, block, row);
    SetBlock(csv, parse, ref, target, block, row, acc.x / acc.count as real, acc.y / acc.count as real, acc.z / acc.count as real);
  }

  /** The resampling loops of `aggregate`: a grid of zeros, filled row by row
      with the reference timestamp and, for every block, the window's mean or
      the carried-forward value. */
  method Resample(csv: seq<seq<string>>, parse: string -> Option<real>, ref: nat) returns (target: array2<real>)
    requires Resamplable(csv, parse, ref)
    ensures fresh(target)
    ensures target.Length0 == OutColumns(csv) && target.Length1 == |csv[5 * ref]|
    ensures forall i, j :: 0 <= i < target.Length0 && 0 <= j < target.Length1 ==>
      target[i, j] == Expected(csv, parse, ref, i, j)
  {
    var refColumn := 5 * ref;
    var length := |csv[refColumn]|;
    target := new real[|csv| / 5 * 3 + 1, length]((i, j) => 0.0);
    // every reference row from row 1 on
    var rowTarget := 1;
    while rowTarget < length
      invariant 1 <= rowTarget
      invariant FilledUpTo(csv, parse, ref, target, rowTarget - 1, 0)
      decreases length - rowTarget
    {
      var targetTimestamp := parse(csv[refColumn][rowTarget]).value;
      target[0, rowTarget - 1] := targetTimestamp;
      var prevTimestamp := if rowTarget > 1 then parse(csv[refColumn][rowTarget - 1]).value else targetTimestamp;
      var nextTimestamp := if rowTarget < length - 1 then parse(csv[refColumn][rowTarget + 1]).value else targetTimestamp;
      var w := Window(targetTimestamp, (prevTimestamp + targetTimestamp) / 2.0, (nextTimestamp + targetTimestamp) / 2.0);
      assert w == WindowAt(csv, parse, ref, rowTarget);
      for block := 0 to |csv| / 5
        invariant FilledUpTo(csv, parse, ref, target, rowTarget - 1, 3 * block + 1)
      {
        var acc := AccumulateBlock(csv, parse, block, w);
        WriteBlock(csv, parse, ref, target, block, rowTarget, acc);
      }
      RowFinished(csv, parse, ref, target, rowTarget - 1);
      rowTarget := rowTarget + 1;
    }
  }

  // ---------------------------------------------------------------------
  // Writing the aggregated file

  /** The text removed from the header line: a time header between two commas. */
  const HeaderPattern: string := ",Time (s),"

  /** The header of the aggregated file: the first input line with every
      occurrence of the pattern, left to right and not overlapping, removed. */
  function AggregatedHeader(line: string): string {
    ReplaceAll(line, HeaderPattern, "")
  }

  /** Every number of a grid printed by `fmt`. */
  function Formatted(grid: seq<seq<real>>, fmt: real -> string): seq<seq<string>> {
    seq(|grid|, i requires 0 <= i < |grid| => seq(|grid[i]|, j requires 0 <= j < |grid[i]| => fmt(grid[i][j])))
  }

  /** The grid held by an array, column by column. */
  ghost function Contents(target: array2<real>): seq<seq<real>>
    reads target
  {
    seq(target.Length0, i requires 0 <= i < target.Length0 reads target =>
      seq(target.Length1, j requires 0 <= j < target.Length1 reads target => target[i, j]))
  }

  lemma FormattedCell(target: array2<real>, fmt: real -> string, i: nat, j: nat)
    requires i < target.Length0 && j < target.Length1
    ensures Table.CellText(Formatted(Contents(target), fmt), i, j) == fmt(target[i, j])
  {
  }

  /** The inner writing loop of `aggregate`: one row of the grid, each
      number printed and followed by a comma. */
  method FormatRow(target: array2<real>, row: nat, fmt: real -> string) returns (text: string)
    requires row < target.Length1
    ensures text == Table.RowText(Formatted(Contents(target), fmt), row)
  {
    ghost var cells := Table.RowCells(Formatted(Contents(target), fmt), row);
    text := [];
    for column := 0 to target.Length0
      invariant text == Terminated(cells[..column], ',')
    {
      TerminatedSnoc(cells, ',', column);
      FormattedCell(target, fmt, column, row);
      var value := fmt(target[column, row]) + [','];
      text := text + value;
    }
    assert cells[..target.Length0] == cells;
  }

  /** The writing loop of `aggregate`: the rewritten header and a newline,
      then every row of the grid followed by a newline. */
  method WriteAggregated(header: string, target: array2<real>, fmt: real -> string) returns (bytes: string)
    requires target.Length0 > 0
    ensures bytes == AggregatedHeader(header) + "\n" + Table.Render(Formatted(Contents(target), fmt))
  {
    ghost var rows := Table.Rows(Formatted(Contents(target), fmt));
    ghost var start := AggregatedHeader(header) + "\n";
    bytes := ReplaceAll(header, HeaderPattern, "");
    bytes := bytes + ['\n'];
    for row := 0 to target.Length1
      invariant bytes == start + Terminated(rows[..row], '\n')
    {
      var text := FormatRow(target, row, fmt);
      TerminatedSnoc(rows, '\n', row);
      bytes := bytes + text + ['\n'];
    }
    assert rows[..target.Length1] == rows;
  }

  /** The grid `aggregate` computes, column by column. */
  function Grid(csv: seq<seq<string>>, parse: string -> Option<real>, ref: nat): (grid: seq<seq<real>>)
    requires Resamplable(csv, parse, ref)
  {
    seq(OutColumns(csv), i requires 0 <= i < OutColumns(csv) =>
      seq(|csv[5 * ref]|, j requires 0 <= j < |csv[5 * ref]| => Expected(csv, parse, ref, i, j)))
  }

  /** What `aggregate` needs of its input file to finish without a panic. */
  predicate Aggregatable(contents: string, parse: string -> Option<real>) {
    Loadable(Rows(contents)) &&
    Selectable(Load(contents), parse) &&
    Resamplable(Load(contents), parse, Reference(Load(contents), parse))
  }

  /** The text `aggregate` writes for an input file. */
  function Aggregated(contents: string, parse: string -> Option<real>, fmt: real -> string): string
    requires Aggregatable(contents, parse)
  {
    var csv := Load(contents);
    AggregatedHeader(Lines(contents)[0]) + "\n" + Table.Render(Formatted(Grid(csv, parse, Reference(csv, parse)), fmt))
  }

  /** `aggregate` without the file reading and writing: the text it writes. */
  method Aggregate(contents: string, parse: string -> Option<real>, fmt: real -> string) returns (out: string)
    requires Aggregatable(contents, parse)
    ensures out == Aggregated(contents, parse, fmt)
  {
    var csv := LoadTable(contents);
    var ref := SelectReference(csv, parse);
    var target := Resample(csv, parse, ref);
    forall i | 0 <= i < target.Length0 ensures Contents(target)[i] == Grid(csv, parse, ref)[i] {
    }
    assert Contents(target) == Grid(csv, parse, ref);
    var lines := Split(contents, '\n');
    out := WriteAggregated(lines[0], target, fmt);
  }

  /** The grid has a column for the timestamps and three per block, each as
      long as the reference column; its last row is all zeros, column 0 holds
      the reference timestamps, and column `3b+1+axis` the value of block `b`
      on that axis. */
  lemma GridShape(csv: seq<seq<string>>, parse: string -> Option<real>, ref: nat)
    requires Resamplable(csv, parse, ref)
    ensures var grid := Grid(csv, parse, ref); var n := |csv[5 * ref]|;
      |grid| == OutColumns(csv) &&
      (forall i :: 0 <= i < |grid| ==> |grid[i]| == n) &&
      (forall i :: 0 <= i < |grid| && n > 0 ==> grid[i][n - 1] == 0.0) &&
      (forall j :: 0 <= j < n - 1 ==> grid[0][j] == Val(csv, parse, 5 * ref, j + 1)) &&
      (forall i, j :: 1 <= i < |grid| && 0 <= j < n - 1 ==>
        grid[i][j] == OutCell(csv, parse, ref, (i - 1) / 3, (i - 1) % 3, j + 1))
  {
  }

  /** No line of the input has a newline in it. */
  lemma LinesFree(contents: string)
    ensures forall r :: 0 <= r < |Lines(contents)| ==> '\n' !in Lines(contents)[r]
  {
    SplitOnPiecesFree(contents, "\n");
    forall r, k | 0 <= r < |Lines(contents)| && 0 <= k < |Lines(contents)[r]|
      ensures Lines(contents)[r][k] != '\n'
    {
      assert !OccursAt(Lines(contents)[r], "\n", k);
      assert Lines(contents)[r][k..k + 1] == [Lines(contents)[r][k]];
    }
  }

  /** A header line without a newline, followed by a rendered table whose
      cells hold no comma and no newline, splits into the header, one line
      per row of the table, each with one field per column and an empty
      field after the last comma, and the empty text after the last newline. */
  lemma OutputLines(header: string, cells: seq<seq<string>>)
    requires '\n' !in header
    requires |cells| > 0 && Table.CellsFree(cells, ',') && Table.CellsFree(cells, '\n')
    ensures var lines := Split(header + "\n" + Table.Render(cells), '\n');
      |lines| == |cells[0]| + 2 && lines[0] == header && lines[|lines| - 1] == "" &&
      forall r :: 1 <= r < |lines| - 1 ==> Split(lines[r], ',') == Table.RowCells(cells, r - 1) + [""]
  {
    SplitCons(header, '\n', Table.Render(cells));
    Table.RenderLines(cells);
    var lines := Split(header + "\n" + Table.Render(cells), '\n');
    assert lines == [header] + Table.Rows(cells) + [""];
    forall r | 1 <= r < |lines| - 1 ensures Split(lines[r], ',') == Table.RowCells(cells, r - 1) + [""] {
      assert lines[r] == Table.RowText(cells, r - 1);
      Table.RowFields(cells, r - 1);
    }
  }

  /** A character no printed number holds is in no printed cell. */
  lemma FormattedFree(grid: seq<seq<real>>, fmt: real -> string, c: char)
    requires forall v :: c !in fmt(v)
    ensures Table.CellsFree(Formatted(grid, fmt), c)
  {
    var cells := Formatted(grid, fmt);
    forall j, r | 0 <= j < |cells| && 0 <= r < |cells[j]| ensures c !in cells[j][r] {
      var v := grid[j][r];
      assert cells[j][r] == fmt(v);
      assert c !in fmt(v);
    }
  }

  /** The rewritten header holds no newline. */
  lemma HeaderFree(contents: string)
    ensures '\n' !in AggregatedHeader(Lines(contents)[0])
  {
    LinesFree(contents);
    ReplaceAllFree(Lines(contents)[0], HeaderPattern, "", '\n');
  }

  /** When printed numbers hold no comma and no newline, the aggregated file
      is the header line, then one line per grid row (as many as the
      reference column has cells), each with one field per output column
      and an empty field after the last comma, and the empty text after the
      final newline. */
  lemma AggregatedLines(contents: string, parse: string -> Option<real>, fmt: real -> string)
    requires Aggregatable(contents, parse)
    requires forall v :: ',' !in fmt(v) && '\n' !in fmt(v)
    ensures var csv := Load(contents); var ref := Reference(csv, parse);
      var cells := Formatted(Grid(csv, parse, ref), fmt);
      var lines := Split(Aggregated(contents, parse, fmt), '\n');
      |lines| == |csv[5 * ref]| + 2 &&
      lines[0] == AggregatedHeader(Lines(contents)[0]) &&
      lines[|lines| - 1] == "" &&
      forall r :: 1 <= r < |lines| - 1 ==>
        Split(lines[r], ',') == Table.RowCells(cells, r - 1) + [""] && |Table.RowCells(cells, r - 1)| == OutColumns(csv)
  {
    var csv := Load(contents);
    var ref := Reference(csv, parse);
    var grid := Grid(csv, parse, ref);
    var cells := Formatted(grid, fmt);
    assert |cells| == OutColumns(csv) && |cells[0]| == |csv[5 * ref]|;
    FormattedFree(grid, fmt, ',');
    FormattedFree(grid, fmt, '\n');
    HeaderFree(contents);
    var header := AggregatedHeader(Lines(contents)[0]);
    assert Aggregated(contents, parse, fmt) == header + "\n" + Table.Render(cells);
    OutputLines(header, cells);
    forall r | 0 <= r < |cells[0]| ensures |Table.RowCells(cells, r)| == OutColumns(csv) {
    }
  }
}
