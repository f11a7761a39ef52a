/**
 * The standalone sensor diagnostic: its own copies of the wake and
 * continuous-mode commands, a reader that looks for the start byte before
 * taking the rest of a frame, and the port search that tries that reader
 * five times per port.
 */
module Sds011Fix {
  import opened Base
  import opened SerialIo
  import opened Sds011
  import DataLogger

  const WakeCmd: seq<byte> :=
    [0xAA, 0xB4, 0x06, 0x01, 0x01, 0x00, 0x00, 0x00, 0x00, 0x00, 0x00, 0x00, 0x00, 0x00, 0x00, 0xFF, 0xFF, 0x06, 0xAB]

  const ContinuousCmd: seq<byte> :=
    [0xAA, 0xB4, 0x02, 0x02, 0x00, 0x00, 0x00, 0x00, 0x00, 0x00, 0x00, 0x00, 0x00, 0x00, 0x00, 0xFF, 0xFF, 0x02, 0xAB]

  /** The diagnostic sends byte for byte what the logger sends, and both are well-formed commands. */
  lemma CommandsMatchLogger()
    ensures WakeCmd == DataLogger.WakeCmd && ContinuousCmd == DataLogger.ContinuousCmd
    ensures IsCommand(WakeCmd) && IsCommand(ContinuousCmd)
  {
    DataLogger.WakeCmdWellFormed();
    DataLogger.ContinuousCmdWellFormed();
  }

  method WakeSds011(ser: Serial)
    modifies ser
    ensures ser.written == old(ser.written) + WakeCmd
    ensures ser.input == old(ser.input)
  {
    ser.Write(WakeCmd);
  }

  method SetContinuousMode(ser: Serial)
    modifies ser
    ensures ser.written == old(ser.written) + ContinuousCmd
    ensures ser.input == old(ser.input)
  {
    ser.Write(ContinuousCmd);
  }

  /** One `read(1)` for the start byte, then `read(9)` for the rest of the frame, and the checks between. */
  function FixAttempt(stream: seq<byte>): Attempt<Reading>
  {
    if |stream| == 0 then Attempt(None, stream)
    else if stream[0] != 0xAA then Attempt(None, stream[1..])
    else
      var rest := stream[1..];
      var data := rest[..Min(9, |rest|)];
      if |data| < 9 then Attempt(None, rest[|data|..])
      else if data[0] != 0xC0 then Attempt(None, rest[9..])
      else Attempt(Some(Reading(data[1] + (data[2] as int) * 256, data[3] + (data[4] as int) * 256)), rest[9..])
  }

  /** `read_sds011_data`: the reading of the frame at the head of the stream, if there is one. */
  method ReadSds011Data(ser: Serial) returns (reading: Option<Reading>)
    modifies ser
    ensures Attempt(reading, ser.input) == FixAttempt(old(ser.input))
    ensures ser.written == old(ser.written)
  {
    var startByte := ser.Read(1);
    if |startByte| == 0 || startByte[0] != 0xAA {
      return None;
    }
    var data := ser.Read(9);
    if |data| < 9 {
      return None;
    }
    if data[0] != 0xC0 {
      return None;
    }
    return Some(Reading(data[1] + (data[2] as int) * 256, data[3] + (data[4] as int) * 256));
  }

  /**
   * A reading comes back exactly when the stream starts AA C0 and holds ten
   * bytes; it is then the little-endian pair in bytes 2..5 and the ten bytes
   * are consumed. A wrong start byte costs exactly that byte.
   */
  lemma FixReaderContract(stream: seq<byte>)
    ensures var a := FixAttempt(stream);
      && (a.value.Some? <==> |stream| >= 10 && stream[0] == 0xAA && stream[1] == 0xC0)
      && (a.value.Some? ==>
            && a.value.value == Reading(stream[2] + (stream[3] as int) * 256, stream[4] + (stream[5] as int) * 256)
            && a.rest == stream[10..])
      && (|stream| > 0 && stream[0] != 0xAA ==> a.rest == stream[1..])
  {
    if |stream| >= 10 && stream[0] == 0xAA {
      assert stream[1..][..9] == stream[1..10];
    }
  }

  /** On any ten bytes the diagnostic's reader and the logger's frame check give the same answer. */
  lemma DecodersAgree(frame: seq<byte>)
    requires |frame| == 10
    ensures FixAttempt(frame).value == DataLogger.LoggerAttempt(frame).value
    ensures DataLogger.AcceptFrame(frame) ==> FixAttempt(frame).value == Some(DataLogger.DecodeFrame(frame))
  {
    FixReaderContract(frame);
    assert frame[..Min(10, |frame|)] == frame;
  }

  /** On a stream that starts with the start byte the two readers also consume the same ten bytes. */
  lemma SameAttemptWhenAligned(stream: seq<byte>)
    requires |stream| >= 10 && stream[0] == 0xAA
    ensures FixAttempt(stream) == DataLogger.LoggerAttempt(stream)
  {
    FixReaderContract(stream);
    assert stream[1..][..9] == stream[1..10];
    assert stream[..Min(10, |stream|)] == stream[..10];
    assert stream[1..][9..] == stream[10..];
  }

  /**
   * Unlike the logger, this reader resynchronises: stray bytes other than AA
   * in front of a data frame are skipped one attempt each, and the frame is
   * still found when there are fewer of them than attempts. The input flush
   * at the start of every attempt is taken to discard nothing, so each
   * attempt reads on from where the previous one stopped.
   */
  lemma {:induction false} FixReaderSkipsNoise(noise: seq<byte>, frame: seq<byte>, attempts: nat)
    requires DataLogger.AcceptFrame(frame)
    requires forall i :: 0 <= i < |noise| ==> noise[i] != 0xAA
    requires |noise| < attempts
    ensures Retry(noise + frame, attempts, FixAttempt).value == Some(DataLogger.DecodeFrame(frame))
  {
    var s := noise + frame;
    if noise == [] {
      assert s == frame;
      DecodersAgree(frame);
    } else {
      assert s[0] == noise[0];
      assert s[1..] == noise[1..] + frame;
      FixReaderSkipsNoise(noise[1..], frame, attempts - 1);
    }
  }

  /**
   * `test_sds011_with_proper_protocol`: each port that opens gets the wake
   * and continuous commands and five tries of the reader, each reading on
   * from where the last stopped (its flush taken to discard nothing); the
   * first port that yields a reading is the answer.
   */
  method TestSds011WithProperProtocol(ports: seq<Port>) returns (device: Option<string>)
    ensures device == Scan(ports, 5, FixAttempt)
  {
    if |ports| == 0 {
      return None;
    }
    var i := 0;
    while i < |ports|
      invariant 0 <= i <= |ports|
      invariant Scan(ports, 5, FixAttempt) == Scan(ports[i..], 5, FixAttempt)
    {
      var port := ports[i];
      assert ports[i..][0] == port && ports[i..][1..] == ports[i + 1..];
      if port.stream.Some? {
        var ser := new Serial(port.stream.value);
        WakeSds011(ser);
        SetContinuousMode(ser);
        var attempt := 0;
        while attempt < 5
          invariant 0 <= attempt <= 5
          invariant Retry(port.stream.value, 5, FixAttempt) == Retry(ser.input, 5 - attempt, FixAttempt)
        {
          var reading := ReadSds011Data(ser);
          if reading.Some? {
            return Some(port.device);
          }
          attempt := attempt + 1;
        }
      }
      i := i + 1;
    }
    return None;
  }
}
