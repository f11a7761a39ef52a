/**
 * The serial port as the sensor code sees it, and the two search shapes the
 * code builds on top of it: a bounded number of read attempts on one port,
 * and a scan over the enumerated ports for the first one that answers.
 */
module SerialIo {
  import opened Base

  /** One byte on the wire. */
  type byte = b: int | 0 <= b < 256

  /**
   * An open port: the bytes the device is going to deliver, in arrival order,
   * and the bytes written to the device so far. A read with a timeout hands
   * back fewer bytes than asked for once the device has nothing more to send.
   */
  class Serial {
    var input: seq<byte>
    var written: seq<byte>

    constructor (input: seq<byte>)
      ensures this.input == input && written == []
    {
      this.input := input;
      written := [];
    }

    method Read(n: nat) returns (data: seq<byte>)
      modifies this
      ensures data == old(input)[..Min(n, |old(input)|)]
      ensures input == old(input)[Min(n, |old(input)|)..]
      ensures written == old(written)
    {
      var k := Min(n, |input|);
      data, input := input[..k], input[k..];
    }

    method Write(bytes: seq<byte>)
      modifies this
      ensures written == old(written) + bytes
      ensures input == old(input)
    {
      written := written + bytes;
    }
  }

  /** What one read attempt yields: a decoded value or nothing, and the bytes it left unread. */
  datatype Attempt<V> = Attempt(value: Option<V>, rest: seq<byte>)

  /** Up to `attempts` tries of `read`, each on what the previous one left; the first value wins. */
  function Retry<V>(stream: seq<byte>, attempts: nat, read: seq<byte> -> Attempt<V>): Attempt<V>
    decreases attempts
  {
    if attempts == 0 then Attempt(None, stream)
    else
      var a := read(stream);
      if a.value.Some? then a else Retry(a.rest, attempts - 1, read)
  }

  /** The bytes still unread after `k` attempts that found nothing. */
  function After<V>(stream: seq<byte>, k: nat, read: seq<byte> -> Attempt<V>): seq<byte>
    decreases k
  {
    if k == 0 then stream else After(read(stream).rest, k - 1, read)
  }

  /** None of the first `k` attempts finds a value. */
  predicate NothingBefore<V>(stream: seq<byte>, k: nat, read: seq<byte> -> Attempt<V>)
  {
    forall j :: 0 <= j < k ==> read(After(stream, j, read)).value.None?
  }

  /**
   * Retrying finds nothing exactly when each of the first `attempts` reads
   * finds nothing, and otherwise returns the value of the first read that
   * finds one.
   */
  lemma {:induction false} RetryFindsFirst<V>(stream: seq<byte>, attempts: nat, read: seq<byte> -> Attempt<V>)
    ensures Retry(stream, attempts, read).value.None? <==> NothingBefore(stream, attempts, read)
    ensures Retry(stream, attempts, read).value.None? ==> Retry(stream, attempts, read).rest == After(stream, attempts, read)
    ensures Retry(stream, attempts, read).value.Some? ==>
              exists k :: 0 <= k < attempts && Retry(stream, attempts, read) == read(After(stream, k, read)) &&
                NothingBefore(stream, k, read)
    decreases attempts
  {
    if attempts > 0 {
      var a := read(stream);
      assert After(stream, 0, read) == stream;
      if a.value.None? {
        var n: nat := attempts - 1;
        var r := Retry(a.rest, n, read);
        assert Retry(stream, attempts, read) == r;
        RetryFindsFirst(a.rest, n, read);
        forall k | 1 <= k < attempts
          ensures After(stream, k, read) == After(a.rest, k - 1, read)
        {
        }
        if r.value.Some? {
          var k :| 0 <= k < n && r == read(After(a.rest, k, read)) && NothingBefore(a.rest, k, read);
          assert After(stream, k + 1, read) == After(a.rest, k, read);
          forall j | 0 <= j < k + 1
            ensures read(After(stream, j, read)).value.None?
          {
            if j > 0 {
              assert After(stream, j, read) == After(a.rest, j - 1, read);
            }
          }
          assert !read(After(stream, k + 1, read)).value.None?;
        } else {
          forall k | 0 <= k < attempts
            ensures read(After(stream, k, read)).value.None?
          {
            if k > 0 {
              assert After(stream, k, read) == After(a.rest, k - 1, read);
              assert read(After(a.rest, k - 1, read)).value.None?;
            }
          }
        }
      }
    }
  }

  /** An enumerated port: its device name, and what it delivers once opened (None: opening fails). */
  datatype Port = Port(device: string, stream: Option<seq<byte>>)

  /** A port answers when it opens and one of its first `attempts` reads yields a value. */
  predicate Answers<V>(port: Port, attempts: nat, read: seq<byte> -> Attempt<V>)
  {
    port.stream.Some? && Retry(port.stream.value, attempts, read).value.Some?
  }

  /** The device of the first port, in enumeration order, that answers. */
  function Scan<V>(ports: seq<Port>, attempts: nat, read: seq<byte> -> Attempt<V>): Option<string>
  {
    if |ports| == 0 then None
    else if Answers(ports[0], attempts, read) then Some(ports[0].device)
    else Scan(ports[1..], attempts, read)
  }

  /**
   * A scan finds nothing exactly when no port answers; otherwise it names the
   * first port that answers, and every port before it does not.
   */
  lemma {:induction false} ScanFindsFirst<V>(ports: seq<Port>, attempts: nat, read: seq<byte> -> Attempt<V>)
    ensures Scan(ports, attempts, read).None? <==> forall i :: 0 <= i < |ports| ==> !Answers(ports[i], attempts, read)
    ensures Scan(ports, attempts, read).Some? ==>
              exists i :: 0 <= i < |ports| && Answers(ports[i], attempts, read) &&
                Scan(ports, attempts, read) == Some(ports[i].device) &&
                forall j :: 0 <= j < i ==> !Answers(ports[j], attempts, read)
  {
    if |ports| > 0 && !Answers(ports[0], attempts, read) {
      ScanFindsFirst(ports[1..], attempts, read);
      if Scan(ports, attempts, read).Some? {
        var i :| 0 <= i < |ports| - 1 && Answers(ports[1..][i], attempts, read) &&
          Scan(ports[1..], attempts, read) == Some(ports[1..][i].device) &&
          forall j :: 0 <= j < i ==> !Answers(ports[1..][j], attempts, read);
        assert ports[i + 1] == ports[1..][i];
        forall j | 0 <= j < i + 1
          ensures !Answers(ports[j], attempts, read)
        {
          if j > 0 {
            assert ports[j] == ports[1..][j - 1];
          }
        }
      } else {
        forall i | 0 <= i < |ports|
          ensures !Answers(ports[i], attempts, read)
        {
          if i > 0 {
            assert ports[i] == ports[1..][i - 1];
          }
        }
      }
    }
  }
}
