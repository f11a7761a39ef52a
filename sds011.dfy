/**
 * The parts of the Nova Fitness SDS011 serial protocol both sensor scripts
 * rely on: the measurement a data frame carries, the shape of a
 * host-to-sensor command, and the data frame the sensor sends in active
 * reporting mode (the reference the two decoders are checked against).
 */
module Sds011 {
  import opened SerialIo

  /** PM2.5 and PM10 as the sensor reports them, in tenths of a microgram per cubic metre. */
  datatype Reading = Reading(pm25: nat, pm10: nat)

  function Sum(s: seq<byte>): nat
  {
    if s == [] then 0 else s[0] + Sum(s[1..])
  }

  lemma {:induction false} SumConcat(a: seq<byte>, b: seq<byte>)
    ensures Sum(a + b) == Sum(a) + Sum(b)
  {
    if a == [] {
      assert a + b == b;
    } else {
      SumConcat(a[1..], b);
      assert (a + b)[1..] == a[1..] + b;
    }
  }

  lemma {:induction false} SumZeros(n: nat)
    ensures Sum(seq(n, _ => 0)) == 0
  {
    if n > 0 {
      assert seq(n, _ => 0)[1..] == seq(n - 1, _ => 0);
      SumZeros(n - 1);
    }
  }

  /**
   * A host-to-sensor command: 19 bytes, head AA B4, tail AB, and byte 17 the
   * checksum, the sum of data bytes 2..16 modulo 256.
   */
  predicate IsCommand(cmd: seq<byte>)
  {
    && |cmd| == 19
    && cmd[0] == 0xAA && cmd[1] == 0xB4
    && cmd[18] == 0xAB
    && cmd[17] == Sum(cmd[2..17]) % 256
  }

  /**
   * The data frame of active reporting mode: AA C0, PM2.5 low and high byte,
   * PM10 low and high byte, the two sensor-id bytes, the checksum of bytes
   * 2..7, and AB.
   */
  function ReplyFrame(r: Reading, id: nat): (f: seq<byte>)
    requires r.pm25 < 65536 && r.pm10 < 65536 && id < 65536
    ensures |f| == 10 && f[0] == 0xAA && f[1] == 0xC0 && f[9] == 0xAB
    ensures f[8] == Sum(f[2..8]) % 256
  {
    var body: seq<byte> := [r.pm25 % 256, r.pm25 / 256, r.pm10 % 256, r.pm10 / 256, id % 256, id / 256];
    assert ([0xAA, 0xC0] + body + [Sum(body) % 256, 0xAB])[2..8] == body;
    [0xAA, 0xC0] + body + [Sum(body) % 256, 0xAB]
  }
}
