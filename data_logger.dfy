/**
 * The data logger script: AQI banding, the colour of a graph bar, the
 * SDS011 wake and continuous-mode commands, checking and decoding a 10-byte
 * data frame, the bounded read of one reading, the port search, and one
 * logged reading (its CSV row and the two bounded graph histories).
 */
module DataLogger {
  import opened Base
  import opened SerialIo
  import opened Sds011

  /** Length of the graph histories. */
  const GraphWidth: nat := 50

  // ---------------------------------------------------------------------
  // AQI bands and bar colours

  datatype Aqi = Aqi(value: nat, category: string)

  /** Approximate AQI and its category for a PM2.5 concentration in micrograms per cubic metre. */
  function ComputeAqi(pm25: real): Aqi
  {
    if pm25 <= 12.0 then Aqi(50, "Good")
    else if pm25 <= 35.4 then Aqi(100, "Moderate")
    else if pm25 <= 55.4 then Aqi(150, "Unhealthy for Sensitive Groups")
    else if pm25 <= 150.4 then Aqi(200, "Unhealthy")
    else if pm25 <= 250.4 then Aqi(300, "Very Unhealthy")
    else Aqi(400, "Hazardous")
  }

  /** A sensor value in tenths, as the micrograms per cubic metre the script divides it into. */
  function Micrograms(tenths: nat): real
  {
    tenths as real / 10.0
  }

  /** A larger concentration never gives a smaller AQI value. */
  lemma AqiMonotone(a: real, b: real)
    requires a <= b
    ensures ComputeAqi(a).value <= ComputeAqi(b).value
  {
  }

  /** Each AQI value comes with exactly one category. */
  lemma AqiCategoryFollowsValue(a: real, b: real)
    requires ComputeAqi(a).value == ComputeAqi(b).value
    ensures ComputeAqi(a).category == ComputeAqi(b).category
  {
  }

  /** On the sensor's integer tenths the bands are exact: 120, 354, 554, 1504 and 2504 tenths. */
  lemma AqiOnSensorTenths(t: nat)
    ensures var v := ComputeAqi(Micrograms(t)).value;
      && (v == 50 <==> t <= 120)
      && (v == 100 <==> 120 < t <= 354)
      && (v == 150 <==> 354 < t <= 554)
      && (v == 200 <==> 554 < t <= 1504)
      && (v == 300 <==> 1504 < t <= 2504)
      && (v == 400 <==> 2504 < t)
  {
  }

  const Green := "\U{1B}[92m"
  const Yellow := "\U{1B}[93m"
  const Red := "\U{1B}[91m"

  /** The terminal colour of a graph bar for a value. */
  function ColorBar(value: real): string
  {
    if value <= 50.0 then Green
    else if value <= 100.0 then Yellow
    else Red
  }

  /** How alarming a bar colour is: green, then yellow, then red. */
  function Severity(color: string): nat
  {
    if color == Green then 0 else if color == Yellow then 1 else 2
  }

  /**
   * The three bands split the values: green up to 50, yellow above 50 up to
   * 100, red above 100, and a larger value never gets a milder colour.
   */
  lemma ColorBarBands(v: real, w: real)
    ensures ColorBar(v) == Green <==> v <= 50.0
    ensures ColorBar(v) == Yellow <==> 50.0 < v <= 100.0
    ensures ColorBar(v) == Red <==> 100.0 < v
    ensures v <= w ==> Severity(ColorBar(v)) <= Severity(ColorBar(w))
  {
    assert Green != Yellow && Green != Red && Yellow != Red by {
      assert Green[3] == '2' && Yellow[3] == '3' && Red[3] == '1';
    }
  }

  /**
   * Coloured by its AQI value, a concentration is green while good, yellow
   * while moderate, red beyond. This is the reading the function's own
   * documentation gives; the graph itself colours raw PM values (see
   * `ColorBarBands`), never an AQI.
   */
  lemma ColorOfAqi(pm25: real)
    ensures ColorBar(ComputeAqi(pm25).value as real) ==
              if pm25 <= 12.0 then Green else if pm25 <= 35.4 then Yellow else Red
  {
  }

  // ---------------------------------------------------------------------
  // Commands

  const WakeCmd: seq<byte> :=
    [0xAA, 0xB4, 0x06, 0x01, 0x01, 0x00, 0x00, 0x00, 0x00, 0x00, 0x00, 0x00, 0x00, 0x00, 0x00, 0xFF, 0xFF, 0x06, 0xAB]

  const ContinuousCmd: seq<byte> :=
    [0xAA, 0xB4, 0x02, 0x02, 0x00, 0x00, 0x00, 0x00, 0x00, 0x00, 0x00, 0x00, 0x00, 0x00, 0x00, 0xFF, 0xFF, 0x02, 0xAB]

  /** The wake command is a well-formed SDS011 command (set working mode: work). */
  lemma WakeCmdWellFormed()
    ensures IsCommand(WakeCmd)
  {
    var zeros: seq<byte> := seq(10, _ => 0);
    SumZeros(10);
    assert WakeCmd[2..17] == [0x06, 0x01, 0x01] + zeros + [0xFF, 0xFF];
    SumConcat([0x06, 0x01, 0x01] + zeros, [0xFF, 0xFF]);
    SumConcat([0x06, 0x01, 0x01], zeros);
    assert Sum([0xFF, 0xFF]) == 510;
    assert Sum([0x06, 0x01, 0x01]) == 8;
  }

  /** The continuous-mode command is a well-formed SDS011 command. */
  lemma ContinuousCmdWellFormed()
    ensures IsCommand(ContinuousCmd)
  {
    var zeros: seq<byte> := seq(10, _ => 0);
    SumZeros(10);
    assert ContinuousCmd[2..17] == [0x02, 0x02, 0x00] + zeros + [0xFF, 0xFF];
    SumConcat([0x02, 0x02, 0x00] + zeros, [0xFF, 0xFF]);
    SumConcat([0x02, 0x02, 0x00], zeros);
    assert Sum([0xFF, 0xFF]) == 510;
    assert Sum([0x02, 0x02, 0x00]) == 4;
  }

  method WakeSds011(ser: Serial)
    modifies ser
    ensures ser.written == old(ser.written) + WakeCmd
    ensures ser.input == old(ser.input)
  {
    ser.Write(WakeCmd);
  }

  method SetContinuousMode(ser: Serial)
    modifies ser
    ensures ser.written == old(ser.written) + ContinuousCmd
    ensures ser.input == old(ser.input)
  {
    ser.Write(ContinuousCmd);
  }

  // ---------------------------------------------------------------------
  // Data frames

  /** A read is taken as a data frame when it has 10 bytes starting AA C0; checksum and tail are not looked at. */
  predicate AcceptFrame(data: seq<byte>)
  {
    |data| == 10 && data[0] == 0xAA && data[1] == 0xC0
  }

  /** PM2.5 and PM10 in tenths, each little-endian in two bytes. */
  function DecodeFrame(data: seq<byte>): (r: Reading)
    requires AcceptFrame(data)
    ensures r.pm25 < 65536 && r.pm10 < 65536
  {
    Reading(data[2] + (data[3] as int) * 256, data[4] + (data[5] as int) * 256)
  }

  /** Decoding the sensor's data frame gives back the reading it carries. */
  lemma DecodeReplyFrame(r: Reading, id: nat)
    requires r.pm25 < 65536 && r.pm10 < 65536 && id < 65536
    ensures AcceptFrame(ReplyFrame(r, id)) && DecodeFrame(ReplyFrame(r, id)) == r
  {
  }

  /** A frame with a correct checksum and tail is the sensor's frame for the reading decoded from it. */
  lemma WellFormedFrameIsReply(f: seq<byte>)
    requires AcceptFrame(f) && f[9] == 0xAB && f[8] == Sum(f[2..8]) % 256
    ensures ReplyFrame(DecodeFrame(f), f[6] + (f[7] as int) * 256) == f
  {
    var r := DecodeFrame(f);
    var id := f[6] + (f[7] as int) * 256;
    LowHigh(f[2], f[3]);
    LowHigh(f[4], f[5]);
    LowHigh(f[6], f[7]);
    var body: seq<byte> := [r.pm25 % 256, r.pm25 / 256, r.pm10 % 256, r.pm10 / 256, id % 256, id / 256];
    assert body == f[2..8];
    assert ReplyFrame(r, id) == [0xAA, 0xC0] + body + [Sum(body) % 256, 0xAB];
  }

  lemma LowHigh(lo: byte, hi: byte)
    ensures (lo + (hi as int) * 256) % 256 == lo && (lo + (hi as int) * 256) / 256 == hi
  {
  }

  /** Only the first six bytes matter: bytes 6..9 (id, checksum, tail) never change acceptance or the decoded reading. */
  lemma DecodeIgnoresTrailer(f: seq<byte>, g: seq<byte>)
    requires AcceptFrame(f) && |g| == 10 && g[..6] == f[..6]
    ensures AcceptFrame(g) && DecodeFrame(g) == DecodeFrame(f)
  {
    assert g[0] == g[..6][0] && g[1] == g[..6][1];
    assert forall i :: 2 <= i < 6 ==> g[i] == g[..6][i] == f[..6][i] == f[i];
  }

  /** One `read(10)` and its check. */
  function LoggerAttempt(stream: seq<byte>): Attempt<Reading>
  {
    var data := stream[..Min(10, |stream|)];
    Attempt(if AcceptFrame(data) then Some(DecodeFrame(data)) else None, stream[Min(10, |stream|)..])
  }

  /** The bytes the `k`-th `read(10)` sees. */
  function Chunk(stream: seq<byte>, k: nat): seq<byte>
  {
    stream[Min(10 * k, |stream|)..Min(10 * k + 10, |stream|)]
  }

  lemma {:induction false} LoggerAfter(stream: seq<byte>, k: nat)
    ensures After(stream, k, LoggerAttempt) == stream[Min(10 * k, |stream|)..]
    decreases k
  {
    if k > 0 {
      var rest := LoggerAttempt(stream).rest;
      LoggerAfter(rest, k - 1);
      assert rest[Min(10 * (k - 1), |rest|)..] == stream[Min(10 * k, |stream|)..];
    }
  }

  lemma LoggerAttemptReadsChunk(stream: seq<byte>, k: nat)
    ensures LoggerAttempt(After(stream, k, LoggerAttempt)).value ==
              if AcceptFrame(Chunk(stream, k)) then Some(DecodeFrame(Chunk(stream, k))) else None
  {
    LoggerAfter(stream, k);
    var s := stream[Min(10 * k, |stream|)..];
    assert s[..Min(10, |s|)] == Chunk(stream, k);
  }

  /** None of the first `k` reads sees a data frame. */
  predicate NoFrameBefore(stream: seq<byte>, k: nat)
  {
    forall j :: 0 <= j < k ==> !AcceptFrame(Chunk(stream, j))
  }

  datatype Status = Success(reading: Reading) | Failure(message: string)

  /**
   * Three reads: a reading is found exactly when one of the first three
   * 10-byte chunks is a data frame, it is the first such chunk's reading, and
   * no more than 30 bytes are consumed.
   */
  lemma {:induction false} LoggerReadExaminesThreeFrames(stream: seq<byte>)
    ensures var a := Retry(stream, 3, LoggerAttempt);
      && (a.value.None? <==> NoFrameBefore(stream, 3))
      && (a.value.None? ==> a.rest == stream[Min(30, |stream|)..])
      && (a.value.Some? ==>
            exists k :: 0 <= k < 3 && AcceptFrame(Chunk(stream, k)) &&
              a.value == Some(DecodeFrame(Chunk(stream, k))) && NoFrameBefore(stream, k))
      && |stream| - |a.rest| <= 30
  {
    var a := Retry(stream, 3, LoggerAttempt);
    RetryFindsFirst(stream, 3, LoggerAttempt);
    LoggerNothingBefore(stream, 3);
    if a.value.Some? {
      var k :| 0 <= k < 3 && a == LoggerAttempt(After(stream, k, LoggerAttempt)) && NothingBefore(stream, k, LoggerAttempt);
      LoggerNothingBefore(stream, k);
      LoggerAttemptReadsChunk(stream, k);
      LoggerAfter(stream, k);
    } else {
      LoggerAfter(stream, 3);
    }
  }

  lemma LoggerNothingBefore(stream: seq<byte>, k: nat)
    ensures NothingBefore(stream, k, LoggerAttempt) <==> NoFrameBefore(stream, k)
  {
    forall j | 0 <= j < k
      ensures LoggerAttempt(After(stream, j, LoggerAttempt)).value.None? <==> !AcceptFrame(Chunk(stream, j))
    {
      LoggerAttemptReadsChunk(stream, j);
    }
  }

  /**
   * `read_sds011` on an open port: without a port it reports that; otherwise
   * it makes three `read(10)` attempts and returns the first data frame's
   * reading, or "Read failed".
   */
  method ReadSds011(port: Option<string>, ser: Serial) returns (status: Status)
    modifies ser
    ensures port.None? ==> status == Failure("No sensor port available") && ser.input == old(ser.input)
    ensures port.Some? ==>
              var a := Retry(old(ser.input), 3, LoggerAttempt);
              && ser.input == a.rest
              && status == if a.value.Some? then Success(a.value.value) else Failure("Read failed")
    ensures ser.written == old(ser.written)
  {
    if port.None? {
      return Failure("No sensor port available");
    }
    var attempt := 0;
    while attempt < 3
      invariant 0 <= attempt <= 3
      invariant Retry(old(ser.input), 3, LoggerAttempt) == Retry(ser.input, 3 - attempt, LoggerAttempt)
      invariant ser.written == old(ser.written)
    {
      var data := ser.Read(10);
      if AcceptFrame(data) {
        return Success(DecodeFrame(data));
      }
      attempt := attempt + 1;
    }
    return Failure("Read failed");
  }

  /**
   * `find_sds011_port`: each port that opens gets the wake and continuous
   * commands and three `read(10)` attempts; the first port whose read is a
   * data frame is the answer.
   */
  method FindSds011Port(ports: seq<Port>) returns (device: Option<string>)
    ensures device == Scan(ports, 3, LoggerAttempt)
  {
    if |ports| == 0 {
      return None;
    }
    var i := 0;
    while i < |ports|
      invariant 0 <= i <= |ports|
      invariant Scan(ports, 3, LoggerAttempt) == Scan(ports[i..], 3, LoggerAttempt)
    {
      var port := ports[i];
      assert ports[i..][0] == port && ports[i..][1..] == ports[i + 1..];
      if port.stream.Some? {
        var ser := new Serial(port.stream.value);
        WakeSds011(ser);
        SetContinuousMode(ser);
        var attempt := 0;
        while attempt < 3
          invariant 0 <= attempt <= 3
          invariant Retry(port.stream.value, 3, LoggerAttempt) == Retry(ser.input, 3 - attempt, LoggerAttempt)
        {
          var data := ser.Read(10);
          if AcceptFrame(data) {
            return Some(port.device);
          }
          attempt := attempt + 1;
        }
      }
      i := i + 1;
    }
    return None;
  }

  // ---------------------------------------------------------------------
  // Logging one reading

  const CsvHeader: seq<string> :=
    ["timestamp", "pm2_5", "pm10", "temperature", "humidity", "latitude", "longitude", "AQI_Level", "Category"]

  /** A CSV field as the writer receives it; a missing location is written as an empty field. */
  datatype Field = Text(text: string) | Number(number: real) | Whole(whole: int) | Blank

  function Coordinate(x: Option<real>): Field
  {
    if x.Some? then Number(x.value) else Blank
  }

  /** The row appended for one reading. */
  function LogRow(timestamp: string, r: Reading, lat: Option<real>, lon: Option<real>): seq<Field>
  {
    var aqi := ComputeAqi(Micrograms(r.pm25));
    [Text(timestamp), Number(Micrograms(r.pm25)), Number(Micrograms(r.pm10)), Blank, Blank,
     Coordinate(lat), Coordinate(lon), Whole(aqi.value), Text(aqi.category)]
  }

  /** Every row has one field per header column, and the PM2.5 and PM10 values sit under their headers. */
  lemma RowMatchesHeader(timestamp: string, r: Reading, lat: Option<real>, lon: Option<real>)
    ensures var row := LogRow(timestamp, r, lat, lon);
      && |row| == |CsvHeader| == 9
      && CsvHeader[1] == "pm2_5" && row[1] == Number(Micrograms(r.pm25))
      && CsvHeader[2] == "pm10" && row[2] == Number(Micrograms(r.pm10))
      && CsvHeader[7] == "AQI_Level" && row[7] == Whole(ComputeAqi(Micrograms(r.pm25)).value)
  {
  }

  /** The last `w` elements of `s` (all of `s` when shorter). */
  function KeepLast<T>(s: seq<T>, w: nat): (r: seq<T>)
    ensures |r| == Min(|s|, w) && r == s[|s| - |r|..]
  {
    if |s| <= w then s else s[|s| - w..]
  }

  /** Trimming before or after appending comes to the same. */
  lemma KeepLastAppend<T>(s: seq<T>, x: T, w: nat)
    requires w > 0
    ensures KeepLast(KeepLast(s, w) + [x], w) == KeepLast(s + [x], w)
  {
    var k := KeepLast(s, w);
    assert k + [x] == (s + [x])[|s| - |k|..];
  }

  /** The graph history after logging `values` one at a time, trimming after each append. */
  function History(values: seq<real>): seq<real>
  {
    if values == [] then []
    else KeepLast(History(values[..|values| - 1]) + [values[|values| - 1]], GraphWidth)
  }

  /** The history always holds the last GraphWidth values logged, newest last. */
  lemma {:induction false} HistoryIsLastValues(values: seq<real>)
    ensures History(values) == KeepLast(values, GraphWidth)
    ensures values != [] ==> History(values)[|History(values)| - 1] == values[|values| - 1]
  {
    if values != [] {
      var init := values[..|values| - 1];
      HistoryIsLastValues(init);
      KeepLastAppend(init, values[|values| - 1], GraphWidth);
      assert init + [values[|values| - 1]] == values;
    }
  }

  /** What the logging loop keeps between iterations: the rows written and the two graph histories. */
  class LogState {
    var rows: seq<seq<Field>>
    var pm25History: seq<real>
    var pm10History: seq<real>

    ghost predicate Valid()
      reads this
    {
      |pm25History| == |pm10History| <= GraphWidth
    }

    constructor ()
      ensures Valid() && rows == [] && pm25History == [] && pm10History == []
    {
      rows, pm25History, pm10History := [], [], [];
    }

    /**
     * One iteration of the logging loop after the read: on a reading, append
     * its row, append to both histories and drop the oldest entries once they
     * are longer than GraphWidth; on a failed read, change nothing.
     */
    method Log(status: Status, timestamp: string, lat: Option<real>, lon: Option<real>)
      requires Valid()
      modifies this
      ensures Valid()
      ensures status.Failure? ==>
                rows == old(rows) && pm25History == old(pm25History) && pm10History == old(pm10History)
      ensures status.Success? ==>
                && rows == old(rows) + [LogRow(timestamp, status.reading, lat, lon)]
                && pm25History == KeepLast(old(pm25History) + [Micrograms(status.reading.pm25)], GraphWidth)
                && pm10History == KeepLast(old(pm10History) + [Micrograms(status.reading.pm10)], GraphWidth)
    {
      if status.Success? {
        var r := status.reading;
        rows := rows + [LogRow(timestamp, r, lat, lon)];
        pm25History := pm25History + [Micrograms(r.pm25)];
        pm10History := pm10History + [Micrograms(r.pm10)];
        if |pm25History| > GraphWidth {
          pm25History := pm25History[1..];
          pm10History := pm10History[1..];
        }
      }
    }
  }
}
