/**
 * The tolerant CSV reader of the training script (`_try_read`): four strict
 * pandas attempts, two lenient ones, and the modal-column-count cleaner as
 * the last resort; the first attempt that yields a table with columns wins,
 * otherwise the reader fails with the last exception it recorded.
 */
module CsvReader {
  import opened Base
  import opened ModalCleaner

  /** A parsed data frame: its column labels and its rows of cells. */
  datatype Table = Table(header: seq<string>, rows: seq<seq<string>>)

  /** What one call of `pd.read_csv` does: a table, or an exception with its message. */
  datatype PandasOutcome = Parsed(table: Table) | Raised(message: string)

  /** The six `pd.read_csv` calls on the path, one per keyword set, in the reader's order. */
  datatype PandasAttempts = PandasAttempts(
    utf8: PandasOutcome,        // encoding="utf-8"
    utf8Sig: PandasOutcome,     // encoding="utf-8-sig"
    latin1: PandasOutcome,      // encoding="latin1"
    sniffed: PandasOutcome,     // engine="python", sep=None
    sniffedSkip: PandasOutcome, // ... on_bad_lines="skip", encoding="utf-8"
    quoteNone: PandasOutcome)   // ... quoting=QUOTE_NONE, encoding="latin1", on_bad_lines="skip"

  /** The exceptions the reader keeps as its last error. */
  datatype Exc =
    | PandasError(message: string)   // raised by pd.read_csv
    | NoColumnsParsed(attempt: string) // EmptyDataError raised for a strict attempt with no columns
    | NoWellFormedRows               // RuntimeError of the cleaner when it keeps no line
    | CleanerNoColumns               // EmptyDataError of the cleaner's own read

  /** The labels of the four strict attempts. */
  const StrictLabels: seq<string> :=
    ["utf-8 (default engine)", "utf-8-sig (BOM)", "latin1", "python engine, auto-sep"]

  /** What one rung of the ladder contributes: the table, an exception to remember, or nothing. */
  datatype Stage = Success(table: Table) | Record(exc: Exc) | Pass

  /** The reader's result: a table, or failure carrying the last error (`RuntimeError`). */
  datatype ReadResult =
    | Read(table: Table)
    | Unparsable(last: Option<Exc>)
    | SampleUnbound // UnboundLocalError: the sample was never assigned

  /** A strict attempt: an empty table is turned into an exception naming the attempt. */
  function StrictStage(o: PandasOutcome, attempt: string): (s: Stage)
    ensures s.Success? <==> o.Parsed? && |o.table.header| > 0
    ensures s.Success? ==> s.table == o.table
    ensures s == Record(NoColumnsParsed(attempt)) <==> o.Parsed? && |o.table.header| == 0
    ensures o.Raised? ==> s == Record(PandasError(o.message))
  {
    match o
    case Parsed(t) => if |t.header| == 0 then Record(NoColumnsParsed(attempt)) else Success(t)
    case Raised(m) => Record(PandasError(m))
  }

  /** A lenient attempt: an empty table is passed over without touching the last error. */
  function LenientStage(o: PandasOutcome): (s: Stage)
    ensures s.Success? <==> o.Parsed? && |o.table.header| > 0
    ensures s.Success? ==> s.table == o.table
    ensures s.Pass? <==> o.Parsed? && |o.table.header| == 0
    ensures o.Raised? ==> s == Record(PandasError(o.message))
  {
    match o
    case Parsed(t) => if |t.header| == 0 then Pass else Success(t)
    case Raised(m) => Record(PandasError(m))
  }

  /** Number of lines the cleaner samples to choose its separator and column count. */
  const SampleSize: nat := 2000

  /**
   * The cleaner's stage. `sample` is the sampled head of the file (None when
   * the file could not be opened); `file` is every line of the file, and
   * `parse` is `pd.read_csv` on the kept lines with the chosen separator.
   */
  function ModalStage(sample: Option<seq<string>>, file: seq<string>,
                      parse: (seq<string>, char) -> PandasOutcome): (s: Stage)
    ensures s.Success? ==> |s.table.header| > 0
    ensures sample.None? || sample == Some([]) ==> s == Pass
  {
    if sample.None? || sample.value == [] then Pass
    else
      var sep := ChooseSeparator(sample.value);
      var cleaned := WellFormed(file, sep, ModalColumns(sample.value));
      if cleaned == [] then Record(NoWellFormedRows)
      else
        match parse(cleaned, sep)
        case Parsed(t) => if |t.header| == 0 then Record(CleanerNoColumns) else Success(t)
        case Raised(m) => Record(PandasError(m))
  }

  /**
   * What the ladder does with its rungs: the first success wins; otherwise
   * the result carries the last exception recorded.
   */
  function FirstSuccess(stages: seq<Stage>, last: Option<Exc>): ReadResult
  {
    if stages == [] then Unparsable(last)
    else
      match stages[0]
      case Success(t) => Read(t)
      case Record(e) => FirstSuccess(stages[1..], Some(e))
      case Pass => FirstSuccess(stages[1..], last)
  }

  /** No rung before position `k` succeeds. */
  predicate NoSuccessBefore(stages: seq<Stage>, k: nat)
    requires k <= |stages|
  {
    forall j :: 0 <= j < k ==> !stages[j].Success?
  }

  /** The exception of the last recording rung, or `init` when none records. */
  function LastRecord(stages: seq<Stage>, init: Option<Exc>): Option<Exc>
  {
    if stages == [] then init
    else if stages[|stages| - 1].Record? then Some(stages[|stages| - 1].exc)
    else LastRecord(stages[..|stages| - 1], init)
  }

  /** Skipping a first rung that does not succeed. */
  lemma {:induction false} LastRecordAfterFirst(stages: seq<Stage>, init: Option<Exc>)
    requires |stages| > 0 && !stages[0].Success?
    ensures LastRecord(stages[1..], if stages[0].Record? then Some(stages[0].exc) else init) ==
            LastRecord(stages, init)
    decreases |stages|
  {
    if |stages| > 1 {
      var prefix := stages[..|stages| - 1];
      assert stages[1..][..|stages[1..]| - 1] == prefix[1..];
      assert prefix[0] == stages[0];
      LastRecordAfterFirst(prefix, init);
    }
  }

  /**
   * The ladder returns the table of the first successful rung, and only
   * then a table; failing, it reports the exception of the last recording
   * rung (or the initial one).
   */
  lemma {:induction false} FirstSuccessWins(stages: seq<Stage>, last: Option<Exc>)
    ensures FirstSuccess(stages, last).Read? <==> exists k :: 0 <= k < |stages| && stages[k].Success?
    ensures forall k :: 0 <= k < |stages| && stages[k].Success? && NoSuccessBefore(stages, k) ==>
              FirstSuccess(stages, last) == Read(stages[k].table)
    ensures !FirstSuccess(stages, last).Read? ==> FirstSuccess(stages, last) == Unparsable(LastRecord(stages, last))
    decreases |stages|
  {
    if stages != [] {
      var rest := stages[1..];
      var next := if stages[0].Record? then Some(stages[0].exc) else last;
      FirstSuccessWins(rest, next);
      if !stages[0].Success? {
        assert FirstSuccess(stages, last) == FirstSuccess(rest, next);
        LastRecordAfterFirst(stages, last);
        forall k | 0 <= k < |stages| && stages[k].Success? && NoSuccessBefore(stages, k)
          ensures FirstSuccess(stages, last) == Read(stages[k].table)
        {
          assert rest[k - 1] == stages[k];
          assert NoSuccessBefore(rest, k - 1);
        }
        if exists k :: 0 <= k < |stages| && stages[k].Success? {
          var k :| 0 <= k < |stages| && stages[k].Success?;
          assert rest[k - 1].Success?;
        }
      }
    }
  }

  // ---------------------------------------------------------------------
  // Sampling the head of the file

  /** What the sampling step leaves in `sample_lines`. */
  datatype Sample = Sampled(lines: seq<string>) | SampleMissing | NeverAssigned

  /**
   * The sampling as written: a list comprehension of 2000 `next(f)` calls.
   * On a shorter file `next` raises StopIteration, which the handler
   * swallows, and the name is left unassigned; a file that cannot be opened
   * sets it to None.
   */
  function SampleAsWritten(file: Option<seq<string>>): (s: Sample)
    ensures s.Sampled? ==> |s.lines| == SampleSize
  {
    match file
    case None => SampleMissing
    case Some(lines) => if |lines| >= SampleSize then Sampled(lines[..SampleSize]) else NeverAssigned
  }

  /** The sampling intended by the comment beside it: up to 2000 lines, all of a shorter file. */
  function SampleIntended(file: Option<seq<string>>): (s: Option<seq<string>>)
    ensures file.None? <==> s.None?
    ensures s.Some? ==> s.value <= file.value && |s.value| == Min(SampleSize, |file.value|)
  {
    match file
    case None => None
    case Some(lines) => Some(lines[..Min(SampleSize, |lines|)])
  }

  /** The six pandas rungs: four strict attempts, then two lenient ones. */
  function PandasStages(o: PandasAttempts): seq<Stage>
  {
    [ StrictStage(o.utf8, StrictLabels[0]),
      StrictStage(o.utf8Sig, StrictLabels[1]),
      StrictStage(o.latin1, StrictLabels[2]),
      StrictStage(o.sniffed, StrictLabels[3]),
      LenientStage(o.sniffedSkip),
      LenientStage(o.quoteNone) ]
  }

  /** The seven rungs, given the cleaner's sample. */
  function Stages(o: PandasAttempts, sample: Option<seq<string>>, file: Option<seq<string>>,
                  parse: (seq<string>, char) -> PandasOutcome): seq<Stage>
  {
    PandasStages(o) + [ModalStage(sample, if file.Some? then file.value else [], parse)]
  }

  /**
   * `_try_read` as intended. `file` is the file's lines as the cleaner reads
   * them (None when it cannot be opened).
   */
  function ReadIntended(o: PandasAttempts, file: Option<seq<string>>,
                        parse: (seq<string>, char) -> PandasOutcome): ReadResult
  {
    FirstSuccess(Stages(o, SampleIntended(file), file, parse), None)
  }

  /** `_try_read` as written: the six pandas rungs, then the cleaner on the sample it got. */
  function ReadAsWritten(o: PandasAttempts, file: Option<seq<string>>,
                         parse: (seq<string>, char) -> PandasOutcome): ReadResult
  {
    match FirstSuccess(PandasStages(o), None)
    case Read(t) => Read(t)
    case _ =>
      match SampleAsWritten(file)
      case NeverAssigned => SampleUnbound
      case SampleMissing => FirstSuccess(Stages(o, None, file, parse), None)
      case Sampled(s) => FirstSuccess(Stages(o, Some(s), file, parse), None)
  }

  /** The reader either returns a table with columns or fails with a recorded exception. */
  lemma ReadIntendedOutcome(o: PandasAttempts, file: Option<seq<string>>,
                            parse: (seq<string>, char) -> PandasOutcome)
    ensures var r := ReadIntended(o, file, parse);
      && (r.Read? ==> |r.table.header| > 0)
      && (r.Unparsable? ==> r.last.Some?)
      && !r.SampleUnbound?
  {
    var stages := Stages(o, SampleIntended(file), file, parse);
    assert forall k :: 0 <= k < |stages| && stages[k].Success? ==> |stages[k].table.header| > 0;
    if stages[0].Record? {
      assert forall k :: 1 <= k < |stages| ==> stages[1..][k - 1] == stages[k];
      LadderOutcome(stages[1..], Some(stages[0].exc));
    }
  }

  /**
   * A ladder whose successful rungs all have columns returns a table with
   * columns, and fails with an exception once one has been recorded.
   */
  lemma {:induction false} LadderOutcome(stages: seq<Stage>, last: Option<Exc>)
    requires forall k :: 0 <= k < |stages| && stages[k].Success? ==> |stages[k].table.header| > 0
    ensures var r := FirstSuccess(stages, last);
      && (r.Read? ==> |r.table.header| > 0)
      && (r.Unparsable? && last.Some? ==> r.last.Some?)
      && !r.SampleUnbound?
    decreases |stages|
  {
    if stages != [] {
      assert forall k :: 1 <= k < |stages| ==> stages[1..][k - 1] == stages[k];
      LadderOutcome(stages[1..], if stages[0].Record? then Some(stages[0].exc) else last);
    }
  }

  /** A successful ladder returns the table of one of its successful rungs. */
  lemma {:induction false} FirstSuccessIndexed(stages: seq<Stage>, last: Option<Exc>)
    requires FirstSuccess(stages, last).Read?
    ensures exists k :: 0 <= k < |stages| && stages[k] == Success(FirstSuccess(stages, last).table)
    decreases |stages|
  {
    if !stages[0].Success? {
      var next := if stages[0].Record? then Some(stages[0].exc) else last;
      FirstSuccessIndexed(stages[1..], next);
      var k :| 0 <= k < |stages[1..]| && stages[1..][k] == Success(FirstSuccess(stages[1..], next).table);
      assert stages[k + 1] == stages[1..][k];
    } else {
      assert stages[0] == Success(FirstSuccess(stages, last).table);
    }
  }

  /** Once a rung records, the last recorded exception is never None. */
  lemma {:induction false} LastRecordSeesFirst(stages: seq<Stage>, init: Option<Exc>)
    requires |stages| > 0 && stages[0].Record?
    ensures LastRecord(stages, init).Some?
    decreases |stages|
  {
    if |stages| > 1 && !stages[|stages| - 1].Record? {
      LastRecordSeesFirst(stages[..|stages| - 1], init);
    }
  }

  /**
   * With the intended sampling the cleaner always keeps a line of a
   * non-empty file: its "0 well-formed rows" error cannot arise.
   */
  lemma CleanerNeverEmpty(file: seq<string>, parse: (seq<string>, char) -> PandasOutcome)
    requires |file| > 0
    ensures ModalStage(SampleIntended(Some(file)), file, parse) != Record(NoWellFormedRows)
  {
    var sample := SampleIntended(Some(file)).value;
    KeepsSomeLine(file, sample);
  }

  /** On files of 2000 lines or more the written and intended readers agree. */
  lemma LongFilesAgree(o: PandasAttempts, file: seq<string>, parse: (seq<string>, char) -> PandasOutcome)
    requires |file| >= SampleSize
    ensures ReadAsWritten(o, Some(file), parse) == ReadIntended(o, Some(file), parse)
  {
    var sample := file[..SampleSize];
    assert SampleIntended(Some(file)) == Some(sample);
    assert SampleAsWritten(Some(file)) == Sampled(sample);
    FirstSuccessExtend(PandasStages(o), [ModalStage(Some(sample), file, parse)], None);
  }

  /** Rungs added after a ladder that already succeeds change nothing. */
  lemma {:induction false} FirstSuccessExtend(stages: seq<Stage>, more: seq<Stage>, last: Option<Exc>)
    ensures FirstSuccess(stages, last).Read? ==> FirstSuccess(stages + more, last) == FirstSuccess(stages, last)
    decreases |stages|
  {
    if stages != [] && !stages[0].Success? {
      var next := if stages[0].Record? then Some(stages[0].exc) else last;
      assert (stages + more)[1..] == stages[1..] + more;
      FirstSuccessExtend(stages[1..], more, next);
    }
  }

  /**
   * The discrepancy: a non-empty file shorter than 2000 lines that none of the
   * six pandas calls can read. As written the reader stops on the unassigned
   * sample; as intended the cleaner reads it.
   */
  lemma ShortFileLeavesSampleUnbound(o: PandasAttempts, file: seq<string>,
                                     parse: (seq<string>, char) -> PandasOutcome)
    requires 0 < |file| < SampleSize
    requires o.utf8.Raised? && o.utf8Sig.Raised? && o.latin1.Raised? && o.sniffed.Raised?
    requires o.sniffedSkip.Raised? && o.quoteNone.Raised?
    requires forall lines, sep :: parse(lines, sep).Parsed? && |parse(lines, sep).table.header| > 0
    ensures ReadAsWritten(o, Some(file), parse) == SampleUnbound
    ensures ReadIntended(o, Some(file), parse).Read?
  {
    var pandasOnly := PandasStages(o);
    FirstSuccessWins(pandasOnly, None);
    assert forall k :: 0 <= k < |pandasOnly| ==> pandasOnly[k].Record?;
    CleanerNeverEmpty(file, parse);
    var stages := Stages(o, SampleIntended(Some(file)), Some(file), parse);
    assert stages[6].Success?;
    FirstSuccessWins(stages, None);
  }

  /**
   * One such file: a single line with an unbalanced quote. The six pandas
   * outcomes (all failing) and the cleaned read's table are given, not
   * derived from the line.
   */
  lemma ShortFileExample()
    ensures var o := PandasAttempts(Raised("e"), Raised("e"), Raised("e"), Raised("e"), Raised("e"), Raised("e"));
            var parse := (lines: seq<string>, sep: char) => Parsed(Table(["pm25"], []));
            && ReadAsWritten(o, Some(["pm25,\"ug/m3\n"]), parse) == SampleUnbound
            && ReadIntended(o, Some(["pm25,\"ug/m3\n"]), parse) == Read(Table(["pm25"], []))
  {
    var o := PandasAttempts(Raised("e"), Raised("e"), Raised("e"), Raised("e"), Raised("e"), Raised("e"));
    var parse := (lines: seq<string>, sep: char) => Parsed(Table(["pm25"], []));
    ShortFileLeavesSampleUnbound(o, ["pm25,\"ug/m3\n"], parse);
  }

  // ---------------------------------------------------------------------
  // The reader as the script runs it

  /**
   * The last resort of `_try_read`: sample the head of the file, choose the
   * separator and column count, keep the well-formed lines and parse them.
   */
  method CleanedRead(file: Option<seq<string>>, parse: (seq<string>, char) -> PandasOutcome) returns (s: Stage)
    ensures s == ModalStage(SampleIntended(file), if file.Some? then file.value else [], parse)
  {
    if file.None? {
      return Pass;
    }
    var lines := file.value;
    var sample := lines[..Min(SampleSize, |lines|)];
    if sample == [] {
      return Pass;
    }
    var commaCols, commaFreq := ModalCount(sample, ',');
    var semiCols, semiFreq := ModalCount(sample, ';');
    var sep := if commaFreq >= semiFreq then ',' else ';';
    var modalCols := if sep == ',' then commaCols else semiCols;
    var cleaned, kept, total := ModalClean(lines, sep, modalCols);
    if kept == 0 {
      return Record(NoWellFormedRows);
    }
    match parse(cleaned, sep) {
      case Parsed(t) =>
        if |t.header| == 0 {
          return Record(CleanerNoColumns);
        }
        return Success(t);
      case Raised(m) =>
        return Record(PandasError(m));
    }
  }

  /**
   * `_try_read` with the intended sampling: each attempt in turn, keeping
   * the last exception, then the cleaner.
   */
  method TryRead(o: PandasAttempts, file: Option<seq<string>>,
                 parse: (seq<string>, char) -> PandasOutcome) returns (r: ReadResult)
    ensures r == ReadIntended(o, file, parse)
  {
    var stages := Stages(o, SampleIntended(file), file, parse);
    var strict := [o.utf8, o.utf8Sig, o.latin1, o.sniffed];
    var last: Option<Exc> := None;
    var i := 0;
    while i < 4
      invariant 0 <= i <= 4
      invariant FirstSuccess(stages, None) == FirstSuccess(stages[i..], last)
    {
      assert stages[i] == StrictStage(strict[i], StrictLabels[i]);
      assert stages[i..][1..] == stages[i + 1..];
      var outcome := strict[i];
      match outcome {
        case Parsed(t) =>
          if |t.header| == 0 {
            last := Some(NoColumnsParsed(StrictLabels[i]));
          } else {
            return Read(t);
          }
        case Raised(m) =>
          last := Some(PandasError(m));
      }
      i := i + 1;
    }
    var lenient := [o.sniffedSkip, o.quoteNone];
    while i < 6
      invariant 4 <= i <= 6
      invariant FirstSuccess(stages, None) == FirstSuccess(stages[i..], last)
    {
      assert stages[i] == LenientStage(lenient[i - 4]);
      assert stages[i..][1..] == stages[i + 1..];
      var outcome := lenient[i - 4];
      match outcome {
        case Parsed(t) =>
          if |t.header| > 0 {
            return Read(t);
          }
        case Raised(m) =>
          last := Some(PandasError(m));
      }
      i := i + 1;
    }
    assert stages[6..] == [stages[6]];
    assert stages[6..][1..] == [];
    var cleanerStage := CleanedRead(file, parse);
    match cleanerStage {
      case Success(t) => return Read(t);
      case Record(e) => return Unparsable(Some(e));
      case Pass =>
    }
    return Unparsable(last);
  }
}
