/** The device registry and the columnar buffer that `main` builds and fills:
    the operator's `id:name` declaration line, the header layout of five
    columns per device, and the per-batch append of one cell to each of a
    device's four data columns. */
module Registry {
  import opened Text
  import opened Parser
  import Table

  // ---------------------------------------------------------------------
  // The declaration line

  /** Why a declaration line is refused (the Rust program panics instead). */
  datatype DeclError =
    | NotAnInteger(field: string)   // the id field is not a number from 0 to 255
    | NameMissing(device: U8)       // a part has no colon, so no name follows the id

  datatype Declaration = Declaration(device: U8, name: string)

  /** One comma-separated part `id:name`: split at colons, the trimmed first
      piece parsed as a `u8`, the trimmed second piece is the name; anything
      after a second colon is ignored. */
  function ParseDeclaration(part: string): Result<Declaration, DeclError> {
    var subparts := Split(part, ':');
    var num := ParseU8(Trim(subparts[0]));
    if num.None? then Err(NotAnInteger(subparts[0]))
    else if |subparts| < 2 then Err(NameMissing(num.value))
    else Ok(Declaration(num.value, Trim(subparts[1])))
  }

  /** What each comma-separated part of the line declares. */
  function Declarations(line: string): seq<Result<Declaration, DeclError>> {
    var parts := Split(line, ',');
    seq(|parts|, k requires 0 <= k < |parts| => ParseDeclaration(parts[k]))
  }

  predicate AllOk(ds: seq<Result<Declaration, DeclError>>, n: nat)
    requires n <= |ds|
  {
    forall i :: 0 <= i < n ==> ds[i].Ok?
  }

  /** The ids declared by the first `n` declarations. */
  function DeclaredIds(ds: seq<Result<Declaration, DeclError>>, n: nat): (ids: set<U8>)
    requires n <= |ds| && AllOk(ds, n)
  {
    if n == 0 then {} else DeclaredIds(ds, n - 1) + {ds[n - 1].value.device}
  }

  /** An id is declared exactly when some declaration names it. */
  lemma {:induction false} DeclaredIdsSpec(ds: seq<Result<Declaration, DeclError>>, n: nat, id: U8)
    requires n <= |ds| && AllOk(ds, n)
    ensures id in DeclaredIds(ds, n) <==> exists k :: 0 <= k < n && ds[k].value.device == id
  {
    if n > 0 {
      DeclaredIdsSpec(ds, n - 1, id);
    }
  }

  /** Declaration `k` is the last one, among the first `n`, for its device. */
  predicate LastFor(ds: seq<Result<Declaration, DeclError>>, k: nat, n: nat)
    requires k < n <= |ds| && AllOk(ds, n)
  {
    forall i :: k < i < n ==> ds[i].value.device != ds[k].value.device
  }

  /** The map holds, for the first `n` declarations, exactly their ids, each
      with the name of its last declaration. */
  predicate Registered(ds: seq<Result<Declaration, DeclError>>, n: nat, devices: map<U8, string>)
    requires n <= |ds| && AllOk(ds, n)
  {
    devices.Keys == DeclaredIds(ds, n) &&
    forall k :: 0 <= k < n && LastFor(ds, k, n) ==>
      ds[k].value.device in devices && devices[ds[k].value.device] == ds[k].value.name
  }

  /** Inserting declaration `n` keeps the map registered for one more declaration. */
  lemma RegisterStep(ds: seq<Result<Declaration, DeclError>>, n: nat, devices: map<U8, string>)
    requires n < |ds| && AllOk(ds, n + 1) && Registered(ds, n, devices)
    ensures Registered(ds, n + 1, devices[ds[n].value.device := ds[n].value.name])
  {
    var next := devices[ds[n].value.device := ds[n].value.name];
    forall i | 0 <= i < n + 1 && LastFor(ds, i, n + 1)
      ensures ds[i].value.device in next && next[ds[i].value.device] == ds[i].value.name
    {
      if i < n {
        assert LastFor(ds, i, n);
      }
    }
  }

  /** The insertions of the declaration loop, over the parsed parts: the
      first part that did not parse is the error; otherwise the map holds
      exactly the declared ids, a repeated id with its last name. */
  method Register(ds: seq<Result<Declaration, DeclError>>) returns (r: Result<map<U8, string>, DeclError>)
    ensures r.Ok? <==> AllOk(ds, |ds|)
    ensures r.Err? ==> exists k :: 0 <= k < |ds| && ds[k] == Err(r.error) && AllOk(ds, k)
    ensures r.Ok? ==> AllOk(ds, |ds|) && Registered(ds, |ds|, r.value)
  {
    var devices: map<U8, string> := map[];
    for k := 0 to |ds|
      invariant AllOk(ds, k)
      invariant Registered(ds, k, devices)
    {
      if ds[k].Err? {
        return Err(ds[k].error);
      }
      RegisterStep(ds, k, devices);
      devices := devices[ds[k].value.device := ds[k].value.name];
    }
    return Ok(devices);
  }

  /** The declaration-line loop of `main`: every part must declare a device
      (the first bad part is the error); the map holds exactly the declared
      ids, and a repeated id keeps the name of its last declaration. */
  method ParseDevices(line: string) returns (r: Result<map<U8, string>, DeclError>)
    ensures var ds := Declarations(line);
      r.Ok? <==> AllOk(ds, |ds|)
    ensures var ds := Declarations(line);
      r.Err? ==> exists k :: 0 <= k < |ds| && ds[k] == Err(r.error) && AllOk(ds, k)
    ensures var ds := Declarations(line);
      r.Ok? ==> AllOk(ds, |ds|) && Registered(ds, |ds|, r.value)
  {
    var ds := Declarations(line);
    r := Register(ds);
  }

  /** A declaration written as `<id>:<name>` reads back as that id and name,
      for a name that has no colon and no whitespace at its ends. */
  lemma DeclarationRoundTrip(id: U8, name: string)
    requires ':' !in name && Trimmed(name)
    ensures ParseDeclaration(FormatNat(id) + [':'] + name) == Ok(Declaration(id, name))
  {
    var digits := FormatNat(id);
    DigitsPlain(id);
    SplitPair(digits, ':', name);
    TrimTrimmed(digits);
    TrimTrimmed(name);
    ParseFormatU8(id);
  }

  /** A printed id holds no colon and no whitespace at its ends. */
  lemma DigitsPlain(id: U8)
    ensures ':' !in FormatNat(id) && Trimmed(FormatNat(id))
  {
    var digits := FormatNat(id);
    FormatNatSpec(id);
    forall i | 0 <= i < |digits| ensures digits[i] != ':' {
      assert IsDigit(digits[i]);
    }
    assert IsDigit(digits[0]) && IsDigit(digits[|digits| - 1]);
  }

  /** A character absent from a part is absent from the name it declares. */
  lemma DeclarationNameFree(part: string, c: char)
    requires c !in part
    ensures ParseDeclaration(part).Ok? ==> c !in ParseDeclaration(part).value.name
  {
    var subparts := Split(part, ':');
    SplitFree(part, ':', c);
    if |subparts| >= 2 {
      TrimFree(subparts[1], c);
    }
  }

  /** A declaration repeated later has a last declaration for its device. */
  lemma {:induction false} LastExists(ds: seq<Result<Declaration, DeclError>>, n: nat, k: nat)
    requires k < n <= |ds| && AllOk(ds, n)
    ensures exists l :: k <= l < n && ds[l].value.device == ds[k].value.device && LastFor(ds, l, n)
    decreases n - k
  {
    if !LastFor(ds, k, n) {
      var i :| k < i < n && ds[i].value.device == ds[k].value.device;
      LastExists(ds, n, i);
    }
  }

  /** No registered name holds a comma, and none holds a character the
      declaration line does not. */
  lemma DeclaredNamesFree(line: string, devices: map<U8, string>, c: char)
    requires c == ',' || c !in line
    requires var ds := Declarations(line); AllOk(ds, |ds|) && Registered(ds, |ds|, devices)
    ensures forall id :: id in devices ==> c !in devices[id]
  {
    var ds := Declarations(line);
    var parts := Split(line, ',');
    if c == ',' {
      SplitSeparatorFree(line, ',');
    } else {
      SplitFree(line, ',', c);
    }
    forall id | id in devices ensures c !in devices[id] {
      DeclaredIdsSpec(ds, |ds|, id);
      var k :| 0 <= k < |ds| && ds[k].value.device == id;
      LastExists(ds, |ds|, k);
      var l :| k <= l < |ds| && ds[l].value.device == id && LastFor(ds, l, |ds|);
      assert ds[l] == ParseDeclaration(parts[l]);
      DeclarationNameFree(parts[l], c);
    }
  }

  // ---------------------------------------------------------------------
  // The column buffer

  const TimeHeader: string := "Time (s)"

  /** The header of a data column: the device name, a colon and a space, the axis letter, and the id in parentheses. */
  function Label(name: string, axis: char, id: U8): string {
    name + ": " + [axis] + " (" + FormatNat(id) + ")"
  }

  /** The five columns the layout loop pushes for one device. */
  function HeaderBlock(id: U8, name: string): seq<seq<string>> {
    [[TimeHeader], [Label(name, 'X', id)], [Label(name, 'Y', id)], [Label(name, 'Z', id)], [""]]
  }

  /** A device's registry entry: its display name and its first column. */
  datatype Device = Device(name: string, column: nat)

  predicate Distinct(order: seq<U8>) {
    forall i, j :: 0 <= i < j < |order| ==> order[i] != order[j]
  }

  /** Block `k` of the buffer belongs to device `id`: the headers of the layout,
      four data columns of equal length, and the spacer column left empty. */
  predicate BlockShaped(columns: seq<seq<string>>, k: nat, id: U8, name: string)
    requires 5 * k + 5 <= |columns|
  {
    var c := 5 * k;
    |columns[c]| >= 1 &&
    |columns[c + 1]| == |columns[c]| && |columns[c + 2]| == |columns[c]| && |columns[c + 3]| == |columns[c]| &&
    columns[c][0] == TimeHeader && columns[c + 1][0] == Label(name, 'X', id) &&
    columns[c + 2][0] == Label(name, 'Y', id) && columns[c + 3][0] == Label(name, 'Z', id) &&
    columns[c + 4] == [""]
  }

  /** The readings `Append` may write: every device declared, and its four
      data columns inside the table. */
  predicate Fits(columns: seq<seq<string>>, deviceMap: map<U8, Device>, readings: seq<SensorData>) {
    forall i :: 0 <= i < |readings| ==>
      readings[i].sensor in deviceMap && deviceMap[readings[i].sensor].column + 4 <= |columns|
  }

  /** Pushing a cell onto the end of column `c`. */
  function Push(columns: seq<seq<string>>, c: nat, cell: string): (r: seq<seq<string>>)
    requires c < |columns|
    ensures |r| == |columns|
  {
    columns[c := columns[c] + [cell]]
  }

  /** The four cells written for one reading: the batch time and the three axes. */
  function PushReading(columns: seq<seq<string>>, offset: nat, time: string, d: SensorData, fmt: real -> string): (r: seq<seq<string>>)
    requires offset + 4 <= |columns|
    ensures |r| == |columns|
  {
    Push(Push(Push(Push(columns, offset, time), offset + 1, fmt(d.x)), offset + 2, fmt(d.y)), offset + 3, fmt(d.z))
  }

  /** The table after the readings have been appended in order. */
  function Appended(columns: seq<seq<string>>, deviceMap: map<U8, Device>, readings: seq<SensorData>, time: string, fmt: real -> string): (r: seq<seq<string>>)
    requires Fits(columns, deviceMap, readings)
    ensures |r| == |columns|
    decreases |readings|
  {
    if |readings| == 0 then columns
    else
      var last := readings[|readings| - 1];
      var before := Appended(columns, deviceMap, readings[..|readings| - 1], time, fmt);
      PushReading(before, deviceMap[last.sensor].column, time, last, fmt)
  }

  /** The cell a reading contributes to data column `axis` (0 time, 1 X, 2 Y, 3 Z). */
  function AxisText(d: SensorData, axis: nat, time: string, fmt: real -> string): string
    requires axis < 4
  {
    if axis == 0 then time else if axis == 1 then fmt(d.x) else if axis == 2 then fmt(d.y) else fmt(d.z)
  }

  /** Column `c` after one reading is pushed at `offset`: one more cell on
      the four data columns, every other column unchanged. */
  lemma PushReadingColumn(columns: seq<seq<string>>, offset: nat, time: string, d: SensorData, fmt: real -> string, c: nat)
    requires offset + 4 <= |columns| && c < |columns|
    ensures PushReading(columns, offset, time, d, fmt)[c]
         == if offset <= c < offset + 4 then columns[c] + [AxisText(d, c - offset, time, fmt)] else columns[c]
  {
  }

  /** The cells, in order, that the readings of device `id` contribute to its column `axis`. */
  function DeviceCells(readings: seq<SensorData>, id: U8, axis: nat, time: string, fmt: real -> string): seq<string>
    requires axis < 4
    decreases |readings|
  {
    if |readings| == 0 then []
    else
      var last := readings[|readings| - 1];
      DeviceCells(readings[..|readings| - 1], id, axis, time, fmt) +
        (if last.sensor == id then [AxisText(last, axis, time, fmt)] else [])
  }

  /** The number of readings of device `id`. */
  function CountOf(readings: seq<SensorData>, id: U8): nat
    decreases |readings|
  {
    if |readings| == 0 then 0
    else CountOf(readings[..|readings| - 1], id) + (if readings[|readings| - 1].sensor == id then 1 else 0)
  }

  lemma {:induction false} DeviceCellsCount(readings: seq<SensorData>, id: U8, axis: nat, time: string, fmt: real -> string)
    requires axis < 4
    ensures |DeviceCells(readings, id, axis, time, fmt)| == CountOf(readings, id)
    decreases |readings|
  {
    if |readings| > 0 {
      DeviceCellsCount(readings[..|readings| - 1], id, axis, time, fmt);
    }
  }

  /** Distinct devices own disjoint four-column ranges. */
  predicate Separated(deviceMap: map<U8, Device>) {
    forall a, b :: a in deviceMap && b in deviceMap && a != b ==>
      deviceMap[a].column + 4 <= deviceMap[b].column || deviceMap[b].column + 4 <= deviceMap[a].column
  }

  /** The table after the readings is the table after all but the last one,
      with the last reading pushed onto its device's data columns. */
  lemma AppendedLast(columns: seq<seq<string>>, deviceMap: map<U8, Device>, readings: seq<SensorData>,
                     time: string, fmt: real -> string)
    requires |readings| > 0 && Fits(columns, deviceMap, readings)
    ensures var init := readings[..|readings| - 1]; var last := readings[|readings| - 1];
      Fits(columns, deviceMap, init) && last.sensor in deviceMap && deviceMap[last.sensor].column + 4 <= |columns| &&
      Appended(columns, deviceMap, readings, time, fmt)
      == PushReading(Appended(columns, deviceMap, init, time, fmt), deviceMap[last.sensor].column, time, last, fmt)
  {
    var init := readings[..|readings| - 1];
    assert Fits(columns, deviceMap, init) by {
      forall i | 0 <= i < |init| ensures init[i] == readings[i] { }
    }
  }

  /** The last reading adds one cell to a data column of device `id` when it
      is that device's, and leaves the column alone otherwise. */
  lemma AppendedLastColumn(columns: seq<seq<string>>, deviceMap: map<U8, Device>, readings: seq<SensorData>,
                           time: string, fmt: real -> string, id: U8, axis: nat)
    requires |readings| > 0 && Fits(columns, deviceMap, readings) && Separated(deviceMap)
    requires id in deviceMap && axis < 4 && deviceMap[id].column + 4 <= |columns|
    ensures Fits(columns, deviceMap, readings[..|readings| - 1])
    ensures var last := readings[|readings| - 1];
      Appended(columns, deviceMap, readings, time, fmt)[deviceMap[id].column + axis]
      == Appended(columns, deviceMap, readings[..|readings| - 1], time, fmt)[deviceMap[id].column + axis]
         + (if last.sensor == id then [AxisText(last, axis, time, fmt)] else [])
  {
    AppendedLast(columns, deviceMap, readings, time, fmt);
    var init := readings[..|readings| - 1];
    var last := readings[|readings| - 1];
    var c := deviceMap[id].column + axis;
    var before := Appended(columns, deviceMap, init, time, fmt);
    PushReadingColumn(before, deviceMap[last.sensor].column, time, last, fmt, c);
    if last.sensor != id {
      assert !(deviceMap[last.sensor].column <= c < deviceMap[last.sensor].column + 4);
    }
  }

  /** Appending readings adds to each data column of a device exactly that
      device's cells for that column, in reading order, after what it held. */
  lemma {:induction false} AppendedDeviceColumn(columns: seq<seq<string>>, deviceMap: map<U8, Device>, readings: seq<SensorData>,
                                               time: string, fmt: real -> string, id: U8, axis: nat)
    requires Fits(columns, deviceMap, readings) && Separated(deviceMap)
    requires id in deviceMap && axis < 4 && deviceMap[id].column + 4 <= |columns|
    ensures Appended(columns, deviceMap, readings, time, fmt)[deviceMap[id].column + axis]
         == columns[deviceMap[id].column + axis] + DeviceCells(readings, id, axis, time, fmt)
    decreases |readings|
  {
    if |readings| > 0 {
      AppendedLastColumn(columns, deviceMap, readings, time, fmt, id, axis);
      var init := readings[..|readings| - 1];
      AppendedDeviceColumn(columns, deviceMap, init, time, fmt, id, axis);
      var last := readings[|readings| - 1];
      assert DeviceCells(readings, id, axis, time, fmt)
          == DeviceCells(init, id, axis, time, fmt) + (if last.sensor == id then [AxisText(last, axis, time, fmt)] else []);
    }
  }

  /** A column outside every device's four data columns (a spacer) never changes. */
  lemma {:induction false} AppendedOtherColumn(columns: seq<seq<string>>, deviceMap: map<U8, Device>, readings: seq<SensorData>,
                                              time: string, fmt: real -> string, c: nat)
    requires Fits(columns, deviceMap, readings)
    requires c < |columns|
    requires forall id :: id in deviceMap ==> !(deviceMap[id].column <= c < deviceMap[id].column + 4)
    ensures Appended(columns, deviceMap, readings, time, fmt)[c] == columns[c]
    decreases |readings|
  {
    if |readings| > 0 {
      AppendedLast(columns, deviceMap, readings, time, fmt);
      var init := readings[..|readings| - 1];
      AppendedOtherColumn(columns, deviceMap, init, time, fmt, c);
      var last := readings[|readings| - 1];
      PushReadingColumn(Appended(columns, deviceMap, init, time, fmt), deviceMap[last.sensor].column, time, last, fmt, c);
    }
  }

  /** A comma or a newline is in no column header of a device whose name
      lacks it. */
  lemma LabelFree(name: string, axis: char, id: U8, c: char)
    requires (c == ',' || c == '\n') && c !in name && axis in "XYZ"
    ensures c !in Label(name, axis, id)
  {
    var digits := FormatNat(id);
    FormatNatSpec(id);
    forall i | 0 <= i < |digits| ensures digits[i] != c {
      assert IsDigit(digits[i]);
    }
  }

  /** When no device name holds a comma (or a newline), no header cell does. */
  lemma {:induction false} HeadersFree(declared: map<U8, string>, visit: seq<U8>, c: char)
    requires c == ',' || c == '\n'
    requires forall id :: id in visit ==> id in declared
    requires forall id :: id in declared ==> c !in declared[id]
    ensures Table.CellsFree(Headers(declared, visit), c)
    decreases |visit|
  {
    if |visit| > 0 {
      var init := visit[..|visit| - 1];
      var last := visit[|visit| - 1];
      assert forall id :: id in init ==> id in visit;
      HeadersFree(declared, init, c);
      LabelFree(declared[last], 'X', last, c);
      LabelFree(declared[last], 'Y', last, c);
      LabelFree(declared[last], 'Z', last, c);
      var before := Headers(declared, init);
      var cs := Headers(declared, visit);
      assert cs == before + HeaderBlock(last, declared[last]);
      forall j, r | 0 <= j < |cs| && 0 <= r < |cs[j]| ensures c !in cs[j][r] {
        if j < |before| {
          assert cs[j] == before[j];
        }
      }
    }
  }

  /** Pushing a cell without `c` keeps every cell of the table free of `c`. */
  lemma PushFree(columns: seq<seq<string>>, k: nat, cell: string, c: char)
    requires k < |columns| && Table.CellsFree(columns, c) && c !in cell
    ensures Table.CellsFree(Push(columns, k, cell), c)
  {
    var r := Push(columns, k, cell);
    forall j, i | 0 <= j < |r| && 0 <= i < |r[j]| ensures c !in r[j][i] {
      if j == k && i < |columns[k]| {
        assert r[j][i] == columns[k][i];
      }
    }
  }

  /** Appending readings whose time and printed numbers hold no `c` keeps
      every cell of the table free of `c`. */
  lemma {:induction false} AppendedFree(columns: seq<seq<string>>, deviceMap: map<U8, Device>, readings: seq<SensorData>,
                                        time: string, fmt: real -> string, c: char)
    requires Fits(columns, deviceMap, readings) && Table.CellsFree(columns, c)
    requires c !in time && forall v :: c !in fmt(v)
    ensures Table.CellsFree(Appended(columns, deviceMap, readings, time, fmt), c)
    decreases |readings|
  {
    if |readings| > 0 {
      AppendedLast(columns, deviceMap, readings, time, fmt);
      var init := readings[..|readings| - 1];
      var last := readings[|readings| - 1];
      AppendedFree(columns, deviceMap, init, time, fmt, c);
      var offset := deviceMap[last.sensor].column;
      var t0 := Appended(columns, deviceMap, init, time, fmt);
      PushFree(t0, offset, time, c);
      var t1 := Push(t0, offset, time);
      var x := fmt(last.x);
      var y := fmt(last.y);
      var z := fmt(last.z);
      PushFree(t1, offset + 1, x, c);
      var t2 := Push(t1, offset + 1, x);
      PushFree(t2, offset + 2, y, c);
      var t3 := Push(t2, offset + 2, y);
      PushFree(t3, offset + 3, z, c);
    }
  }

  /** The readings before the first one whose device was never declared. */
  function DeclaredPrefix(readings: seq<SensorData>, deviceMap: map<U8, Device>): (n: nat)
    ensures n <= |readings|
    ensures forall i :: 0 <= i < n ==> readings[i].sensor in deviceMap
    ensures n < |readings| ==> readings[n].sensor !in deviceMap
    decreases |readings|
  {
    if |readings| == 0 || readings[0].sensor !in deviceMap then 0
    else 1 + DeclaredPrefix(readings[1..], deviceMap)
  }

  /** Pushing one reading at `offset` leaves block `j` shaped for its device,
      whether the push lands on that block's data columns or outside it. */
  lemma BlockPush(columns: seq<seq<string>>, j: nat, id: U8, name: string,
                  offset: nat, time: string, d: SensorData, fmt: real -> string)
    requires 5 * j + 5 <= |columns| && offset + 4 <= |columns|
    requires offset == 5 * j || offset + 4 <= 5 * j || 5 * j + 5 <= offset
    requires BlockShaped(columns, j, id, name)
    ensures BlockShaped(PushReading(columns, offset, time, d, fmt), j, id, name)
  {
    var r := PushReading(columns, offset, time, d, fmt);
    var c := 5 * j;
    if offset != c {
      assert r[c] == columns[c] && r[c + 1] == columns[c + 1] && r[c + 2] == columns[c + 2];
      assert r[c + 3] == columns[c + 3] && r[c + 4] == columns[c + 4];
    }
  }

  /** The columns of the layout loop for the devices visited in `visit` order. */
  function Headers(declared: map<U8, string>, visit: seq<U8>): (cs: seq<seq<string>>)
    requires forall id :: id in visit ==> id in declared
    ensures |cs| == 5 * |visit|
    decreases |visit|
  {
    if |visit| == 0 then []
    else
      var last := visit[|visit| - 1];
      Headers(declared, visit[..|visit| - 1]) + HeaderBlock(last, declared[last])
  }

  /** Block `k` of the header columns is the header block of the `k`-th visited device. */
  lemma {:induction false} HeadersBlock(declared: map<U8, string>, visit: seq<U8>, k: nat)
    requires forall id :: id in visit ==> id in declared
    requires k < |visit|
    ensures var cs := Headers(declared, visit); var block := HeaderBlock(visit[k], declared[visit[k]]);
      cs[5 * k] == block[0] && cs[5 * k + 1] == block[1] && cs[5 * k + 2] == block[2] &&
      cs[5 * k + 3] == block[3] && cs[5 * k + 4] == block[4]
    decreases |visit|
  {
    var init := visit[..|visit| - 1];
    if k < |visit| - 1 {
      HeadersBlock(declared, init, k);
      assert init[k] == visit[k];
    }
  }

  /** The table and the registry agree with the layout: device `order[k]` owns
      block `k`, and its entry records that block's first column. */
  ghost predicate Layout(columns: seq<seq<string>>, deviceMap: map<U8, Device>, order: seq<U8>) {
    Distinct(order) &&
    (forall id :: id in deviceMap <==> id in order) &&
    |columns| == 5 * |order| &&
    forall k :: 0 <= k < |order| ==>
      deviceMap[order[k]].column == 5 * k && BlockShaped(columns, k, order[k], deviceMap[order[k]].name)
  }

  /** Offsets `5k` for distinct devices leave four free columns between any two. */
  lemma OffsetsSeparated(deviceMap: map<U8, Device>, order: seq<U8>)
    requires Distinct(order) && forall id :: id in deviceMap <==> id in order
    requires forall k :: 0 <= k < |order| ==> deviceMap[order[k]].column == 5 * k
    ensures Separated(deviceMap)
    ensures forall id :: id in deviceMap ==> deviceMap[id].column % 5 == 0 && deviceMap[id].column + 5 <= 5 * |order|
  {
    forall a, b | a in deviceMap && b in deviceMap && a != b
      ensures deviceMap[a].column + 4 <= deviceMap[b].column || deviceMap[b].column + 4 <= deviceMap[a].column
    {
      var i :| 0 <= i < |order| && order[i] == a;
      var j :| 0 <= j < |order| && order[j] == b;
      assert deviceMap[a].column == 5 * i && deviceMap[b].column == 5 * j && i != j;
    }
    forall id | id in deviceMap ensures deviceMap[id].column % 5 == 0 && deviceMap[id].column + 5 <= 5 * |order| {
      var i :| 0 <= i < |order| && order[i] == id;
      assert deviceMap[id].column == 5 * i;
    }
  }

  /** Offsets of a valid layout are multiples of five that fit in the table. */
  lemma LayoutOffsets(columns: seq<seq<string>>, deviceMap: map<U8, Device>, order: seq<U8>)
    requires Layout(columns, deviceMap, order)
    ensures Separated(deviceMap)
    ensures forall id :: id in deviceMap ==> deviceMap[id].column % 5 == 0 && deviceMap[id].column + 5 <= |columns|
  {
    OffsetsSeparated(deviceMap, order);
  }

  /** Appending one reading of a declared device keeps the layout. */
  lemma LayoutPush(columns: seq<seq<string>>, deviceMap: map<U8, Device>, order: seq<U8>,
                   time: string, d: SensorData, fmt: real -> string)
    requires Layout(columns, deviceMap, order) && d.sensor in deviceMap
    ensures deviceMap[d.sensor].column + 4 <= |columns|
    ensures Layout(PushReading(columns, deviceMap[d.sensor].column, time, d, fmt), deviceMap, order)
  {
    LayoutOffsets(columns, deviceMap, order);
    var offset := deviceMap[d.sensor].column;
    var r := PushReading(columns, offset, time, d, fmt);
    forall j | 0 <= j < |order|
      ensures BlockShaped(r, j, order[j], deviceMap[order[j]].name)
    {
      BlockPush(columns, j, order[j], deviceMap[order[j]].name, offset, time, d, fmt);
    }
  }

  /** One more reading appends its four cells to the table of the readings before it. */
  lemma AppendedSnoc(columns: seq<seq<string>>, deviceMap: map<U8, Device>, readings: seq<SensorData>, i: nat,
                     time: string, fmt: real -> string)
    requires i < |readings| && Fits(columns, deviceMap, readings[..i + 1])
    ensures Fits(columns, deviceMap, readings[..i])
    ensures Appended(columns, deviceMap, readings[..i + 1], time, fmt)
         == PushReading(Appended(columns, deviceMap, readings[..i], time, fmt), deviceMap[readings[i].sensor].column, time, readings[i], fmt)
  {
    assert readings[..i + 1][..i] == readings[..i];
    assert readings[..i + 1][i] == readings[i];
  }

  /** Appending declared readings keeps the layout. */
  lemma {:induction false} LayoutAppended(columns: seq<seq<string>>, deviceMap: map<U8, Device>, order: seq<U8>,
                                          readings: seq<SensorData>, time: string, fmt: real -> string)
    requires Layout(columns, deviceMap, order) && Fits(columns, deviceMap, readings)
    ensures Layout(Appended(columns, deviceMap, readings, time, fmt), deviceMap, order)
    decreases |readings|
  {
    if |readings| > 0 {
      AppendedLast(columns, deviceMap, readings, time, fmt);
      var init := readings[..|readings| - 1];
      LayoutAppended(columns, deviceMap, order, init, time, fmt);
      LayoutPush(Appended(columns, deviceMap, init, time, fmt), deviceMap, order, time, readings[|readings| - 1], fmt);
    }
  }

  /** The five pushes of the layout loop for one device: its time header,
      its three axis labels and an empty spacer column. */
  method PushHeaders(columns: seq<seq<string>>, id: U8, name: string) returns (r: seq<seq<string>>)
    ensures r == columns + HeaderBlock(id, name)
  {
    r := columns + [[TimeHeader]];
    r := r + [[Label(name, 'X', id)]];
    r := r + [[Label(name, 'Y', id)]];
    r := r + [[Label(name, 'Z', id)]];
    r := r + [[""]];
  }

  /** Giving the `k`-th visited device its offset `5k` places one more
      device and touches no other entry. */
  lemma PlaceDevice(declared: map<U8, string>, visit: seq<U8>, devices: map<U8, Device>, k: nat)
    requires Distinct(visit) && k < |visit|
    requires forall i :: 0 <= i < |visit| ==> visit[i] in declared && visit[i] in devices && devices[visit[i]] == Device(declared[visit[i]], if i < k then 5 * i else 0)
    ensures var placed := devices[visit[k] := Device(declared[visit[k]], 5 * k)];
      forall i :: 0 <= i < |visit| ==> placed[visit[i]] == Device(declared[visit[i]], if i < k + 1 then 5 * i else 0)
  {
    var placed := devices[visit[k] := Device(declared[visit[k]], 5 * k)];
    forall i | 0 <= i < |visit|
      ensures placed[visit[i]] == Device(declared[visit[i]], if i < k + 1 then 5 * i else 0)
    {
      if i != k {
        if i < k {
          assert visit[i] != visit[k];
        } else {
          assert visit[k] != visit[i];
        }
      }
    }
  }

  /** One pass of the layout loop: the `k`-th visited device gets its five
      header columns and its offset. */
  method LayOutDevice(declared: map<U8, string>, visit: seq<U8>, k: nat,
                      outputCsv: seq<seq<string>>, devices: map<U8, Device>, column: nat)
    returns (outputCsv': seq<seq<string>>, devices': map<U8, Device>)
    requires Distinct(visit) && forall id :: id in declared <==> id in visit
    requires k < |visit| && column == 5 * k
    requires outputCsv == Headers(declared, visit[..k])
    requires devices.Keys == declared.Keys
    requires forall i :: 0 <= i < |visit| ==> devices[visit[i]] == Device(declared[visit[i]], if i < k then 5 * i else 0)
    ensures outputCsv' == Headers(declared, visit[..k + 1])
    ensures devices'.Keys == declared.Keys
    ensures forall i :: 0 <= i < |visit| ==> devices'[visit[i]] == Device(declared[visit[i]], if i < k + 1 then 5 * i else 0)
  {
    var id := visit[k];
    var name := devices[id].name;
    outputCsv' := PushHeaders(outputCsv, id, name);
    assert Headers(declared, visit[..k + 1]) == outputCsv + HeaderBlock(id, declared[id]) by {
      assert visit[..k + 1][..k] == visit[..k];
    }
    PlaceDevice(declared, visit, devices, k);
    devices' := devices[id := Device(name, column)];
  }

  /** The layout loop of `main` on values: the devices, visited in `visit`
      order, get five columns each, headed by the time, X, Y and Z labels and
      an empty spacer, and their registry entry records the first column
      0, 5, 10, ... of their block. */
  method LayoutColumns(declared: map<U8, string>, visit: seq<U8>) returns (outputCsv: seq<seq<string>>, devices: map<U8, Device>)
    requires Distinct(visit) && forall id :: id in declared <==> id in visit
    ensures outputCsv == Headers(declared, visit)
    ensures devices.Keys == declared.Keys
    ensures forall k :: 0 <= k < |visit| ==> devices[visit[k]] == Device(declared[visit[k]], 5 * k)
  {
    outputCsv := [];
    devices := map id | id in declared :: Device(declared[id], 0);
    var column := 0;
    for k := 0 to |visit|
      invariant column == 5 * k
      invariant outputCsv == Headers(declared, visit[..k])
      invariant devices.Keys == declared.Keys
      invariant forall i :: 0 <= i < |visit| ==> devices[visit[i]] == Device(declared[visit[i]], if i < k then 5 * i else 0)
    {
      outputCsv, devices := LayOutDevice(declared, visit, k, outputCsv, devices, column);
      column := column + 5;
    }
    assert visit[..|visit|] == visit;
  }

  /** A declared reading extends a run of readings that fit. */
  lemma FitsSnoc(columns: seq<seq<string>>, deviceMap: map<U8, Device>, readings: seq<SensorData>, n: nat)
    requires n < |readings| && Fits(columns, deviceMap, readings[..n])
    requires readings[n].sensor in deviceMap && deviceMap[readings[n].sensor].column + 4 <= |columns|
    ensures Fits(columns, deviceMap, readings[..n + 1])
  {
    var prefix := readings[..n + 1];
    forall i | 0 <= i < |prefix|
      ensures prefix[i].sensor in deviceMap && deviceMap[prefix[i].sensor].column + 4 <= |columns|
    {
      if i < n {
        assert prefix[i] == readings[..n][i];
      }
    }
  }

  /** The per-batch loop of `main` on values: for each reading in order, one
      cell is pushed onto each of its device's four data columns (the batch
      time and the reading's X, Y, Z, printed by `fmt`). A reading from a
      device that was never declared stops the loop (the Rust program
      panics there); the readings before it have been appended. */
  method AppendReadings(columns: seq<seq<string>>, devices: map<U8, Device>, readings: seq<SensorData>,
                        time: string, fmt: real -> string) returns (outputCsv: seq<seq<string>>, n: nat)
    requires forall id :: id in devices ==> devices[id].column + 4 <= |columns|
    ensures n == DeclaredPrefix(readings, devices)
    ensures Fits(columns, devices, readings[..n])
    ensures outputCsv == Appended(columns, devices, readings[..n], time, fmt)
  {
    ghost var m := DeclaredPrefix(readings, devices);
    outputCsv := columns;
    n := 0;
    while n < |readings| && readings[n].sensor in devices
      invariant n <= m
      invariant Fits(columns, devices, readings[..n])
      invariant outputCsv == Appended(columns, devices, readings[..n], time, fmt)
    {
      var sensorData := readings[n];
      var column := devices[sensorData.sensor].column;
      assert n < m;
      FitsSnoc(columns, devices, readings, n);
      AppendedSnoc(columns, devices, readings, n, time, fmt);
      outputCsv := Push(outputCsv, column, time);
      outputCsv := Push(outputCsv, column + 1, fmt(sensorData.x));
      outputCsv := Push(outputCsv, column + 2, fmt(sensorData.y));
      outputCsv := Push(outputCsv, column + 3, fmt(sensorData.z));
      n := n + 1;
    }
  }

  /** The header columns and the offsets `5k` in visiting order form a valid layout. */
  lemma HeadersLayout(declared: map<U8, string>, visit: seq<U8>, devices: map<U8, Device>)
    requires Distinct(visit) && forall id :: id in declared <==> id in visit
    requires devices.Keys == declared.Keys
    requires forall k :: 0 <= k < |visit| ==> devices[visit[k]] == Device(declared[visit[k]], 5 * k)
    ensures Layout(Headers(declared, visit), devices, visit)
  {
    var columns := Headers(declared, visit);
    forall k | 0 <= k < |visit| ensures BlockShaped(columns, k, visit[k], devices[visit[k]].name) {
      HeadersBlock(declared, visit, k);
    }
  }

  /** The mutex-guarded `output_csv` of `main` together with `device_map`,
      single-threaded. */
  class Buffer {
    /** `output_csv`: a ragged table of text columns, five per device. */
    var columns: seq<seq<string>>
    /** `device_map`: each declared device's name and first column. */
    var deviceMap: map<U8, Device>
    /** The order in which the layout loop visited `device_map`
        (`HashMap` iteration order, which the program does not control). */
    ghost var order: seq<U8>

    ghost predicate Valid()
      reads this
    {
      Layout(columns, deviceMap, order)
    }

    /** The layout loop of `main` over the declared devices, visited in
        `visit` order (an enumeration of the declared ids). */
    constructor (declared: map<U8, string>, visit: seq<U8>)
      requires Distinct(visit) && forall id :: id in declared <==> id in visit
      ensures Valid() && order == visit
      ensures columns == Headers(declared, visit)
      ensures forall k :: 0 <= k < |visit| ==> deviceMap[visit[k]] == Device(declared[visit[k]], 5 * k)
    {
      var outputCsv, devices := LayoutColumns(declared, visit);
      columns := outputCsv;
      deviceMap := devices;
      order := visit;
      new;
      HeadersLayout(declared, visit, devices);
    }

    /** One datagram's readings appended under the lock; `ok` is false when
        a reading's device was never declared, where the Rust program panics. */
    method AppendBatch(batch: SensorBatch, fmt: real -> string) returns (ok: bool)
      requires Valid()
      modifies this
      ensures Valid() && order == old(order) && deviceMap == old(deviceMap)
      ensures ok <==> forall i :: 0 <= i < |batch.sensors| ==> batch.sensors[i].sensor in deviceMap
      ensures
        var n := DeclaredPrefix(batch.sensors, deviceMap);
        Fits(old(columns), deviceMap, batch.sensors[..n]) &&
        columns == Appended(old(columns), deviceMap, batch.sensors[..n], fmt(batch.timestamp), fmt)
    {
      LayoutOffsets(columns, deviceMap, order);
      var outputCsv, n := AppendReadings(columns, deviceMap, batch.sensors, fmt(batch.timestamp), fmt);
      LayoutAppended(columns, deviceMap, order, batch.sensors[..n], fmt(batch.timestamp), fmt);
      ok := n == |batch.sensors|;
      columns := outputCsv;
    }
  }
}
