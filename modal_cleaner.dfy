/**
 * The last-resort cleaner of the CSV reader: the field count of a line under
 * a one-character separator, the most frequent field count of a sample
 * (`modal_count`), the choice between comma and semicolon, and the
 * streaming filter that keeps only the lines with the modal field count.
 */
module ModalCleaner {

  // ---------------------------------------------------------------------
  // Splitting a line

  /** Number of occurrences of `sep` in `s`. */
  function Count(s: string, sep: char): nat
  {
    if s == [] then 0
    else (if s[0] == sep then 1 else 0) + Count(s[1..], sep)
  }

  /** `str.split` with a one-character separator: never an empty list. */
  function Split(s: string, sep: char): (r: seq<string>)
    ensures |r| >= 1
  {
    if s == [] then [""]
    else if s[0] == sep then [""] + Split(s[1..], sep)
    else
      var rest := Split(s[1..], sep);
      [[s[0]] + rest[0]] + rest[1..]
  }

  /** `sep.join(pieces)`. */
  function JoinWith(pieces: seq<string>, sep: char): string
    requires |pieces| >= 1
  {
    if |pieces| == 1 then pieces[0]
    else pieces[0] + [sep] + JoinWith(pieces[1..], sep)
  }

  /**
   * Splitting loses nothing: joining the pieces back gives the line, there
   * is one more piece than separators, and no piece holds the separator.
   */
  lemma {:induction false} SplitJoin(s: string, sep: char)
    ensures JoinWith(Split(s, sep), sep) == s
    ensures |Split(s, sep)| == Count(s, sep) + 1
    ensures forall i :: 0 <= i < |Split(s, sep)| ==> sep !in Split(s, sep)[i]
    decreases |s|
  {
    if s == [] {
    } else {
      var rest := Split(s[1..], sep);
      SplitJoin(s[1..], sep);
      if s[0] == sep {
        assert Split(s, sep) == [""] + rest;
        assert Split(s, sep)[1..] == rest;
        assert JoinWith(Split(s, sep), sep) == "" + [sep] + JoinWith(rest, sep);
        assert s == [s[0]] + s[1..];
        forall i | 0 <= i < |Split(s, sep)| ensures sep !in Split(s, sep)[i] {
          if i > 0 { assert Split(s, sep)[i] == rest[i - 1]; }
        }
      } else {
        var r := Split(s, sep);
        assert r == [[s[0]] + rest[0]] + rest[1..];
        if |rest| == 1 {
          assert JoinWith(r, sep) == [s[0]] + rest[0];
        } else {
          assert r[1..] == rest[1..];
          assert JoinWith(rest, sep) == rest[0] + [sep] + JoinWith(rest[1..], sep);
          assert JoinWith(r, sep) == ([s[0]] + rest[0]) + [sep] + JoinWith(rest[1..], sep);
        }
        assert s == [s[0]] + s[1..];
        forall i | 0 <= i < |r| ensures sep !in r[i] {
          if i == 0 {
            assert sep !in rest[0];
            assert r[0] == [s[0]] + rest[0];
          } else {
            assert r[i] == rest[i];
          }
        }
      }
    }
  }

  /** `len(line.split(sep))`. */
  function FieldCount(line: string, sep: char): nat
  {
    |Split(line, sep)|
  }

  /** A line has one field more than it has separators. */
  lemma FieldCountIsSeparatorsPlusOne(line: string, sep: char)
    ensures FieldCount(line, sep) == Count(line, sep) + 1
  {
    SplitJoin(line, sep);
  }

  // ---------------------------------------------------------------------
  // Field-count frequencies (`modal_count`)

  /** How many of `lines` have `n` fields. */
  function Freq(lines: seq<string>, sep: char, n: nat): nat
  {
    if lines == [] then 0
    else Freq(lines[..|lines| - 1], sep, n) + (if FieldCount(lines[|lines| - 1], sep) == n then 1 else 0)
  }

  /** The field counts met in `lines`, in order of first appearance (the dict's key order). */
  function Seen(lines: seq<string>, sep: char): seq<nat>
  {
    if lines == [] then []
    else
      var before := Seen(lines[..|lines| - 1], sep);
      var n := FieldCount(lines[|lines| - 1], sep);
      if n in before then before else before + [n]
  }

  /** No key appears twice. */
  predicate Distinct(keys: seq<nat>)
  {
    forall i, j :: 0 <= i < j < |keys| ==> keys[i] != keys[j]
  }

  /** The keys are exactly the field counts that occur, each once. */
  lemma {:induction false} SeenIsOccurringCounts(lines: seq<string>, sep: char)
    ensures forall n :: n in Seen(lines, sep) <==> Freq(lines, sep, n) > 0
    ensures Distinct(Seen(lines, sep))
    decreases |lines|
  {
    if lines != [] {
      SeenIsOccurringCounts(lines[..|lines| - 1], sep);
    }
  }

  /** The frequencies of the keys add up to the number of lines. */
  function SumFreq(keys: seq<nat>, lines: seq<string>, sep: char): nat
  {
    if keys == [] then 0 else Freq(lines, sep, keys[0]) + SumFreq(keys[1..], lines, sep)
  }

  /** A key whose frequency grows by one among keys that do not hold it. */
  lemma {:induction false} SumFreqShift(keys: seq<nat>, lines: seq<string>, sep: char, line: string)
    ensures SumFreq(keys, lines + [line], sep) ==
              SumFreq(keys, lines, sep) + (if FieldCount(line, sep) in keys then 1 else 0)
    requires Distinct(keys)
    decreases |keys|
  {
    var l2 := lines + [line];
    assert l2[..|l2| - 1] == lines;
    if keys != [] {
      assert Distinct(keys[1..]);
      SumFreqShift(keys[1..], lines, sep, line);
      if FieldCount(line, sep) == keys[0] {
        assert FieldCount(line, sep) !in keys[1..];
      }
    }
  }

  /** Appending a new key adds its frequency. */
  lemma {:induction false} SumFreqAppend(keys: seq<nat>, n: nat, lines: seq<string>, sep: char)
    ensures SumFreq(keys + [n], lines, sep) == SumFreq(keys, lines, sep) + Freq(lines, sep, n)
    decreases |keys|
  {
    if keys == [] {
      assert [n][1..] == [];
    } else {
      assert (keys + [n])[1..] == keys[1..] + [n];
      SumFreqAppend(keys[1..], n, lines, sep);
    }
  }

  /** Every line is counted under exactly one key of `modal_count`'s dictionary. */
  lemma {:induction false} FrequenciesSumToLines(lines: seq<string>, sep: char)
    ensures SumFreq(Seen(lines, sep), lines, sep) == |lines|
    decreases |lines|
  {
    if lines != [] {
      var before := lines[..|lines| - 1];
      var line := lines[|lines| - 1];
      assert lines == before + [line];
      FrequenciesSumToLines(before, sep);
      SeenIsOccurringCounts(before, sep);
      SumFreqShift(Seen(before, sep), before, sep, line);
      var n := FieldCount(line, sep);
      if n !in Seen(before, sep) {
        SumFreqAppend(Seen(before, sep), n, lines, sep);
        assert Freq(before, sep, n) == 0;
      }
    }
  }

  /** Every key listed before position `k` is strictly less frequent than the key at `k`. */
  predicate LessFrequentBefore(keys: seq<nat>, lines: seq<string>, sep: char, k: nat)
    requires k < |keys|
  {
    forall j :: 0 <= j < k ==> Freq(lines, sep, keys[j]) < Freq(lines, sep, keys[k])
  }

  /** `n` is listed at some position with every earlier key strictly less frequent. */
  predicate FirstMostFrequent(keys: seq<nat>, lines: seq<string>, sep: char, n: nat)
  {
    exists k: nat :: k < |keys| && keys[k] == n && LessFrequentBefore(keys, lines, sep, k)
  }

  /**
   * The position `max` picks among the keys by frequency: a most frequent
   * key, the first of those.
   */
  function BestIndex(keys: seq<nat>, lines: seq<string>, sep: char): (k: nat)
    requires |keys| > 0
    ensures k < |keys|
    ensures forall i :: 0 <= i < |keys| ==> Freq(lines, sep, keys[i]) <= Freq(lines, sep, keys[k])
    ensures LessFrequentBefore(keys, lines, sep, k)
  {
    if |keys| == 1 then 0
    else
      var best := BestIndex(keys[..|keys| - 1], lines, sep);
      assert forall i :: 0 <= i < |keys| - 1 ==> keys[..|keys| - 1][i] == keys[i];
      if Freq(lines, sep, keys[|keys| - 1]) > Freq(lines, sep, keys[best]) then |keys| - 1 else best
  }

  /** `modal_count(lines, sep)`: the most frequent field count and how often it occurs. */
  function Mode(lines: seq<string>, sep: char): (nat, nat)
    requires |lines| > 0
  {
    var keys := Seen(lines, sep);
    SeenIsOccurringCounts(lines, sep);
    assert FieldCount(lines[0], sep) in keys by {
      assert Freq(lines, sep, FieldCount(lines[0], sep)) > 0 by {
        FreqPositive(lines, sep, 0);
      }
    }
    var k := BestIndex(keys, lines, sep);
    (keys[k], Freq(lines, sep, keys[k]))
  }

  /** A field count that occurs is counted. */
  lemma {:induction false} FreqPositive(lines: seq<string>, sep: char, i: nat)
    requires i < |lines|
    ensures Freq(lines, sep, FieldCount(lines[i], sep)) > 0
    decreases |lines|
  {
    if i < |lines| - 1 {
      assert lines[..|lines| - 1][i] == lines[i];
      FreqPositive(lines[..|lines| - 1], sep, i);
    }
  }

  /**
   * The mode is a field count of some line, its frequency is its number of
   * lines, no field count is more frequent, and among equally frequent counts
   * it is the one met first.
   */
  lemma ModeIsMostFrequent(lines: seq<string>, sep: char)
    requires |lines| > 0
    ensures Mode(lines, sep).1 == Freq(lines, sep, Mode(lines, sep).0) >= 1
    ensures forall n :: Freq(lines, sep, n) <= Mode(lines, sep).1
    ensures exists i :: 0 <= i < |lines| && FieldCount(lines[i], sep) == Mode(lines, sep).0
    ensures FirstMostFrequent(Seen(lines, sep), lines, sep, Mode(lines, sep).0)
  {
    var keys := Seen(lines, sep);
    SeenIsOccurringCounts(lines, sep);
    var k := BestIndex(keys, lines, sep);
    assert Mode(lines, sep) == (keys[k], Freq(lines, sep, keys[k]));
    forall n ensures Freq(lines, sep, n) <= Mode(lines, sep).1 {
      if Freq(lines, sep, n) > 0 {
        var i :| 0 <= i < |keys| && keys[i] == n;
      }
    }
    OccurringCountHasLine(lines, sep, keys[k]);
    assert LessFrequentBefore(keys, lines, sep, k);
  }

  /** A field count with a positive frequency is the field count of some line. */
  lemma {:induction false} OccurringCountHasLine(lines: seq<string>, sep: char, n: nat)
    requires Freq(lines, sep, n) > 0
    ensures exists i :: 0 <= i < |lines| && FieldCount(lines[i], sep) == n
    decreases |lines|
  {
    var before := lines[..|lines| - 1];
    if FieldCount(lines[|lines| - 1], sep) != n {
      OccurringCountHasLine(before, sep, n);
      var i :| 0 <= i < |before| && FieldCount(before[i], sep) == n;
      assert lines[i] == before[i];
    }
  }

  /**
   * The counting loop of `modal_count`: a dictionary from field count to
   * number of lines, whose keys are listed in first-appearance order.
   */
  method CountFieldCounts(lines: seq<string>, sep: char) returns (counts: map<nat, nat>, order: seq<nat>)
    ensures order == Seen(lines, sep)
    ensures forall n :: n in counts <==> n in order
    ensures forall n :: n in counts ==> counts[n] == Freq(lines, sep, n)
  {
    counts, order := map[], [];
    var i := 0;
    while i < |lines|
      invariant 0 <= i <= |lines|
      invariant order == Seen(lines[..i], sep)
      invariant forall n :: n in counts <==> n in order
      invariant forall n :: n in counts ==> counts[n] == Freq(lines[..i], sep, n)
    {
      var n := FieldCount(lines[i], sep);
      assert lines[..i + 1][..i] == lines[..i];
      SeenIsOccurringCounts(lines[..i], sep);
      if n !in counts {
        counts := counts[n := 0];
        order := order + [n];
      }
      counts := counts[n := counts[n] + 1];
      i := i + 1;
    }
    assert lines[..i] == lines;
  }

  /**
   * `max(counts, key=counts.get)`: walks the keys in order and moves only to
   * a strictly larger count.
   */
  method PickBest(order: seq<nat>, counts: map<nat, nat>, lines: seq<string>, sep: char) returns (best: nat)
    requires |order| > 0
    requires forall n :: n in order ==> n in counts && counts[n] == Freq(lines, sep, n)
    ensures best == BestIndex(order, lines, sep)
  {
    best := 0;
    var j := 1;
    assert order[..1] == [order[0]];
    while j < |order|
      invariant 1 <= j <= |order|
      invariant best == BestIndex(order[..j], lines, sep)
    {
      assert order[..j + 1][..j] == order[..j];
      assert order[..j][best] == order[best];
      assert order[j] in order && order[best] in order;
      if counts[order[j]] > counts[order[best]] {
        best := j;
      }
      j := j + 1;
    }
    assert order[..j] == order;
  }

  /** `modal_count` as the script computes it: count, then take the first most frequent key. */
  method ModalCount(lines: seq<string>, sep: char) returns (cols: nat, freq: nat)
    requires |lines| > 0
    ensures (cols, freq) == Mode(lines, sep)
  {
    var counts, order := CountFieldCounts(lines, sep);
    SeenIsOccurringCounts(lines, sep);
    FreqPositive(lines, sep, 0);
    assert FieldCount(lines[0], sep) in order;
    var best := PickBest(order, counts, lines, sep);
    cols, freq := order[best], counts[order[best]];
  }

  // ---------------------------------------------------------------------
  // Choosing the separator

  /** Comma unless semicolon gives a strictly more frequent mode. */
  function ChooseSeparator(sample: seq<string>): char
    requires |sample| > 0
  {
    if Mode(sample, ',').1 >= Mode(sample, ';').1 then ',' else ';'
  }

  /** The modal column count under the chosen separator. */
  function ModalColumns(sample: seq<string>): nat
    requires |sample| > 0
  {
    Mode(sample, ChooseSeparator(sample)).0
  }

  /**
   * The chosen separator and column count describe at least as many sample
   * lines as any field count under either candidate separator, and at least one.
   */
  lemma ChosenShapeIsMostCommon(sample: seq<string>, sep: char, n: nat)
    requires |sample| > 0
    requires sep == ',' || sep == ';'
    ensures Freq(sample, ChooseSeparator(sample), ModalColumns(sample)) >= Freq(sample, sep, n)
    ensures Freq(sample, ChooseSeparator(sample), ModalColumns(sample)) >= 1
    ensures ChooseSeparator(sample) == ',' <==> Mode(sample, ',').1 >= Mode(sample, ';').1
    ensures ChooseSeparator(sample) == ';' <==> Mode(sample, ';').1 > Mode(sample, ',').1
  {
    ModeIsMostFrequent(sample, ',');
    ModeIsMostFrequent(sample, ';');
  }

  // ---------------------------------------------------------------------
  // Keeping the well-formed lines

  /** The lines with exactly `cols` fields, in file order. */
  function WellFormed(lines: seq<string>, sep: char, cols: nat): seq<string>
  {
    if lines == [] then []
    else
      var line := lines[|lines| - 1];
      WellFormed(lines[..|lines| - 1], sep, cols) + (if FieldCount(line, sep) == cols then [line] else [])
  }

  /**
   * What the filter keeps: lines with `cols` fields only, every such line,
   * and as many as the field count's frequency.
   */
  lemma {:induction false} WellFormedKeepsExactlyMatching(lines: seq<string>, sep: char, cols: nat)
    ensures |WellFormed(lines, sep, cols)| == Freq(lines, sep, cols) <= |lines|
    ensures forall l :: l in WellFormed(lines, sep, cols) ==> l in lines && FieldCount(l, sep) == cols
    ensures forall l :: l in lines && FieldCount(l, sep) == cols ==> l in WellFormed(lines, sep, cols)
    decreases |lines|
  {
    if lines != [] {
      var before := lines[..|lines| - 1];
      WellFormedKeepsExactlyMatching(before, sep, cols);
      assert lines == before + [lines[|lines| - 1]];
    }
  }

  /** Filtering a file in two parts is filtering each part. */
  lemma {:induction false} WellFormedAppend(a: seq<string>, b: seq<string>, sep: char, cols: nat)
    ensures WellFormed(a + b, sep, cols) == WellFormed(a, sep, cols) + WellFormed(b, sep, cols)
    decreases |b|
  {
    if b == [] {
      assert a + b == a;
    } else {
      var b' := b[..|b| - 1];
      assert (a + b)[..|a + b| - 1] == a + b';
      WellFormedAppend(a, b', sep, cols);
    }
  }

  /**
   * When the sample is the head of the file, the modal field count of the
   * sample keeps at least one line of the file: the "0 well-formed rows"
   * error cannot arise.
   */
  lemma KeepsSomeLine(file: seq<string>, sample: seq<string>)
    requires |sample| > 0 && sample <= file
    ensures |WellFormed(file, ChooseSeparator(sample), ModalColumns(sample))| >= 1
  {
    var sep := ChooseSeparator(sample);
    var cols := ModalColumns(sample);
    ChosenShapeIsMostCommon(sample, sep, cols);
    assert file == sample + file[|sample|..];
    WellFormedAppend(sample, file[|sample|..], sep, cols);
    WellFormedKeepsExactlyMatching(sample, sep, cols);
  }

  /**
   * The streaming pass: count every line, keep those with `cols` fields.
   */
  method ModalClean(lines: seq<string>, sep: char, cols: nat) returns (cleaned: seq<string>, kept: nat, total: nat)
    ensures cleaned == WellFormed(lines, sep, cols)
    ensures kept == |cleaned| == Freq(lines, sep, cols)
    ensures total == |lines| && kept <= total
  {
    cleaned, kept, total := [], 0, 0;
    var i := 0;
    while i < |lines|
      invariant 0 <= i <= |lines|
      invariant cleaned == WellFormed(lines[..i], sep, cols)
      invariant kept == |cleaned| && total == i
    {
      assert lines[..i + 1][..i] == lines[..i];
      total := total + 1;
      if FieldCount(lines[i], sep) == cols {
        cleaned := cleaned + [lines[i]];
        kept := kept + 1;
      }
      i := i + 1;
    }
    assert lines[..i] == lines;
    WellFormedKeepsExactlyMatching(lines, sep, cols);
  }
}
