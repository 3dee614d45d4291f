/** The datagram parser: `parse_sensordata` and `parse_sensor_batch`.
    A payload is `<timestamp>,<id>,<x>,<y>,<z>[,<id>,<x>,<y>,<z>]...`.
    Floating-point parsing (`str::parse::<f64>`) is the parameter `parseF64`;
    the numbers themselves are exact reals. */
module Parser {
  import opened Text

  /** One device's reading within a datagram. */
  datatype SensorData = SensorData(sensor: U8, x: real, y: real, z: real)

  /** One datagram: readings that share one timestamp. */
  datatype SensorBatch = SensorBatch(sensors: seq<SensorData>, timestamp: real)

  /** `parse_sensordata`: the four fields id, x, y, z, each trimmed before it is
      parsed; any field that does not parse makes the whole reading `None`. */
  function ParseSensorData(parts: seq<string>, parseF64: string -> Option<real>): Option<SensorData>
    requires |parts| >= 4
  {
    var sensor := ParseU8(Trim(parts[0]));
    var x := parseF64(Trim(parts[1]));
    var y := parseF64(Trim(parts[2]));
    var z := parseF64(Trim(parts[3]));
    if sensor.None? || x.None? || y.None? || z.None? then None
    else Some(SensorData(sensor.value, x.value, y.value, z.value))
  }

  /** The number of device groups after the timestamp (when the count is a multiple of four). */
  function GroupCount(parts: seq<string>): (n: nat)
    requires |parts| >= 1
    ensures 4 * n + 1 <= |parts| < 4 * n + 5
  {
    (|parts| - 1) / 4
  }

  /** Fields `4i+1 .. 4i+4`: the i-th reading's id, x, y and z. */
  function Group(parts: seq<string>, i: nat): (g: seq<string>)
    requires 4 * i + 5 <= |parts|
    ensures |g| == 4
  {
    parts[4 * i + 1 .. 4 * i + 5]
  }

  /** Every group of four fields after the timestamp parses as a reading. */
  predicate GroupsParse(parts: seq<string>, parseF64: string -> Option<real>)
    requires |parts| >= 1 && (|parts| - 1) % 4 == 0
  {
    forall i :: 0 <= i < GroupCount(parts) ==> ParseSensorData(Group(parts, i), parseF64).Some?
  }

  /** `parse_sensor_batch`. The first field, untrimmed, is the timestamp; the
      rest must come in groups of four, each of which must parse as a reading.
      The result is a batch exactly when every part parses, and the batch then
      holds the timestamp and the readings of the groups in order. */
  method ParseSensorBatch(total: string, parseF64: string -> Option<real>) returns (r: Option<SensorBatch>)
    ensures r.Some? <==>
      (var parts := Split(total, ',');
       parseF64(parts[0]).Some? && (|parts| - 1) % 4 == 0 && GroupsParse(parts, parseF64))
    ensures r.Some? ==>
      var parts := Split(total, ',');
      r.value.timestamp == parseF64(parts[0]).value &&
      |r.value.sensors| == GroupCount(parts) &&
      forall i :: 0 <= i < GroupCount(parts) ==> ParseSensorData(Group(parts, i), parseF64) == Some(r.value.sensors[i])
  {
    var parts := Split(total, ',');
    var time := parseF64(parts[0]);
    if time.None? {
      return None;
    }
    if (|parts| - 1) % 4 != 0 {
      // the Rust program prints an error message to standard output here
      return None;
    }
    var sensors: seq<SensorData> := [];
    var count := (|parts| - 1) / 4;
    assert count == GroupCount(parts) && 4 * count + 1 == |parts|;
    for sensorIndex := 0 to count
      invariant |sensors| == sensorIndex
      invariant forall i :: 0 <= i < sensorIndex ==> ParseSensorData(Group(parts, i), parseF64) == Some(sensors[i])
    {
      // the slice parts[sensorIndex * 4 + 1 .. (sensorIndex + 1) * 4 + 1]
      var data := ParseSensorData(Group(parts, sensorIndex), parseF64);
      if data.None? {
        assert !GroupsParse(parts, parseF64);
        return None;
      }
      sensors := sensors + [data.value];
    }
    return Some(SensorBatch(sensors, time.value));
  }

  predicate Padding(pad: seq<string>) {
    forall i :: 0 <= i < |pad| ==> AllWhitespace(pad[i])
  }

  /** Whitespace around any of a reading's four fields does not change the reading. */
  lemma ParseSensorDataPadded(parts: seq<string>, before: seq<string>, after: seq<string>, parseF64: string -> Option<real>)
    requires |parts| == 4 && |before| == 4 && |after| == 4
    requires Padding(before) && Padding(after)
    ensures ParseSensorData(seq(4, k requires 0 <= k < 4 => before[k] + parts[k] + after[k]), parseF64)
         == ParseSensorData(parts, parseF64)
  {
    var padded := seq(4, k requires 0 <= k < 4 => before[k] + parts[k] + after[k]);
    forall k | 0 <= k < 4 ensures Trim(padded[k]) == Trim(parts[k]) {
      TrimPadded(before[k], parts[k], after[k]);
    }
  }

  /** The timestamp field is not trimmed: once the number parser rejects
      leading whitespace, a padded timestamp makes the whole datagram fail. */
  lemma TimestampNotTrimmed(total: string, parseF64: string -> Option<real>)
    requires |total| > 0 && total[0] == ' '
    requires forall s :: |s| > 0 && s[0] == ' ' ==> parseF64(s).None?
    ensures parseF64(Split(total, ',')[0]).None?
  {
    var parts := Split(total, ',');
    JoinSplitOn(total, [',']);
    SplitOnPiecesFree(total, [',']);
    if |parts| == 1 {
      assert parts[0] == total;
    } else {
      JoinCons(parts[0], parts[1..], [',']);
      assert parts == [parts[0]] + parts[1..];
      assert total[0] == (if |parts[0]| > 0 then parts[0][0] else ',');
    }
  }
}
