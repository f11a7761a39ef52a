/**
 * Loading the training series (`load_data`) and cutting it into windows
 * (`prepare_data`). The file system, pandas and the numeric tests are given
 * as an environment; the logger's own CSV layout is shown to load cleanly.
 */
module TrainingData {
  import opened Base
  import opened CsvSource
  import opened CsvReader
  import opened Pm25Column
  import DataLogger

  /** What `load_data` sees of the world. */
  datatype Environment = Environment(
    scriptDir: string,                                 // BASE_DIR
    fs: FileSizes,                                     // existing paths and sizes
    csvs: seq<string>,                                 // glob of *.csv in BASE_DIR
    pandas: string -> PandasAttempts,                  // the six read_csv calls on a path
    lines: string -> Option<seq<string>>,              // the file's lines, None when it cannot be opened
    parseCleaned: (seq<string>, char) -> PandasOutcome, // read_csv of the cleaner's kept lines
    isNumeric: (Table, nat) -> bool,                   // is_numeric_dtype of a column
    parseNumber: string -> Option<real>)               // to_numeric(errors="coerce") of one cell

  /** The listing only names files that exist. */
  predicate Consistent(env: Environment)
  {
    forall p :: p in env.csvs ==> p in env.fs
  }

  /** The errors `load_data` raises. */
  datatype LoadError =
    | NoSource(source: SourceError)               // from find_best_csv
    | DataFileNotFound(path: string)              // FileNotFoundError
    | DataFileEmpty(path: string)                 // ValueError
    | Unreadable(path: string, last: Option<Exc>) // RuntimeError of the reader
    | NoColumn(column: ColumnError)               // KeyError
    | NoNumbers(coerce: CoerceError)              // ValueError after coercion

  /** The path `load_data` reads: the given one, or `find_best_csv()` with its defaults. */
  function SourcePath(env: Environment, path: Option<string>): (r: Result<string, SourceError>)
    requires Consistent(env)
    ensures path.Some? ==> r == Ok(path.value)
    ensures path.None? && r.Ok? ==> Usable(env.fs, r.value)
  {
    if path.Some? then Ok(path.value)
    else FindBestCsv(env.scriptDir, env.scriptDir, PreferredFileName, env.fs, env.csvs)
  }

  /** The column pipeline on a parsed table: trim the headers, find the column, coerce it. */
  function FromTable(env: Environment, t: Table): (r: Result<seq<real>, LoadError>)
    ensures r.Ok? ==> |r.value| > 0
    ensures r.Err? ==> r.error.NoColumn? || r.error.NoNumbers?
  {
    var trimmed := TrimHeaders(t);
    match SelectColumn(Candidates, trimmed.header, (i: nat) => env.isNumeric(trimmed, i))
    case Err(e) => Err(NoColumn(e))
    case Ok(name) =>
      match Coerce(trimmed, name, env.parseNumber)
      case Err(e) => Err(NoNumbers(e))
      case Ok(values) => Ok(values)
  }

  /** `load_data(path)`. */
  function Load(env: Environment, path: Option<string>): (r: Result<seq<real>, LoadError>)
    requires Consistent(env)
    ensures r.Ok? ==> |r.value| > 0
  {
    match SourcePath(env, path)
    case Err(e) => Err(NoSource(e))
    case Ok(p) =>
      if p !in env.fs then Err(DataFileNotFound(p))
      else if env.fs[p] == 0 then Err(DataFileEmpty(p))
      else
        ReadIntendedOutcome(env.pandas(p), env.lines(p), env.parseCleaned);
        match ReadIntended(env.pandas(p), env.lines(p), env.parseCleaned)
        case Read(t) => FromTable(env, t)
        case Unparsable(last) => Err(Unreadable(p, last))
        case SampleUnbound => assert false; Err(Unreadable(p, None))
  }

  /**
   * A missing or empty file is reported as such before any parsing, and a
   * path chosen by `find_best_csv` is never missing or empty.
   */
  lemma FileChecksComeFirst(env: Environment, path: Option<string>)
    requires Consistent(env)
    ensures var r := Load(env, path);
      && (path.Some? && path.value !in env.fs ==> r == Err(DataFileNotFound(path.value)))
      && (path.Some? && path.value in env.fs && env.fs[path.value] == 0 ==> r == Err(DataFileEmpty(path.value)))
      && (path.None? ==> !r.Err? || (!r.error.DataFileNotFound? && !r.error.DataFileEmpty?))
  {
    match SourcePath(env, path)
    case Err(_) =>
    case Ok(p) =>
      assert path.None? ==> Usable(env.fs, p);
      if p in env.fs && env.fs[p] > 0 {
        var r := Load(env, path);
        assert r.Err? ==> !r.error.DataFileNotFound? && !r.error.DataFileEmpty?;
      }
  }

  /** The reader's failure surfaces with the last exception it recorded, never without one. */
  lemma ReaderFailureCarriesException(env: Environment, path: Option<string>)
    requires Consistent(env)
    ensures var r := Load(env, path);
      r.Err? && r.error.Unreadable? ==> r.error.last.Some?
  {
    match SourcePath(env, path)
    case Err(_) =>
    case Ok(p) =>
      if p in env.fs && env.fs[p] > 0 {
        ReadIntendedOutcome(env.pandas(p), env.lines(p), env.parseCleaned);
      }
  }

  /** A column without a single number is an error, not an empty series. */
  lemma NonNumericColumnFails(env: Environment, t: Table)
    ensures var trimmed := TrimHeaders(t);
      var sel := SelectColumn(Candidates, trimmed.header, (i: nat) => env.isNumeric(trimmed, i));
      sel.Ok? && NoCellParses(Column(trimmed.rows, IndexOf(trimmed.header, sel.value)), env.parseNumber)
      ==> FromTable(env, t) == Err(NoNumbers(NoNumericValues(sel.value)))
  {
  }

  /** `load_data` as the script runs it, with the reader and the column search as methods. */
  method LoadData(env: Environment, path: Option<string>) returns (r: Result<seq<real>, LoadError>)
    requires Consistent(env)
    ensures r == Load(env, path)
  {
    var source := SourcePath(env, path);
    if source.Err? {
      return Err(NoSource(source.error));
    }
    var p := source.value;
    if p !in env.fs {
      return Err(DataFileNotFound(p));
    }
    if env.fs[p] == 0 {
      return Err(DataFileEmpty(p));
    }
    var read := TryRead(env.pandas(p), env.lines(p), env.parseCleaned);
    ReadIntendedOutcome(env.pandas(p), env.lines(p), env.parseCleaned);
    if !read.Read? {
      return Err(Unreadable(p, read.last));
    }
    var trimmed := TrimHeaders(read.table);
    var column := FindColumn(Candidates, trimmed.header, (i: nat) => env.isNumeric(trimmed, i));
    if column.Err? {
      return Err(NoColumn(column.error));
    }
    var values := Coerce(trimmed, column.value, env.parseNumber);
    if values.Err? {
      return Err(NoNumbers(values.error));
    }
    return Ok(values.value);
  }

  // ---------------------------------------------------------------------
  // Windows for the sequence model

  /** Number of (window, target) pairs `prepare_data` builds. */
  function PairCount(n: nat, timeStep: nat): nat
  {
    if n > timeStep + 1 then n - timeStep - 1 else 0
  }

  /**
   * `prepare_data(data, time_step)`: pair `i` is the window
   * `data[i .. i + timeStep)` and the value right after it.
   */
  method PrepareData(data: seq<real>, timeStep: nat) returns (xs: seq<seq<real>>, ys: seq<real>)
    ensures |xs| == |ys| == PairCount(|data|, timeStep)
    ensures forall i :: 0 <= i < |xs| ==> i + timeStep < |data| && xs[i] == data[i..i + timeStep]
    ensures forall i :: 0 <= i < |ys| ==> ys[i] == data[i + timeStep]
    ensures forall i :: 0 <= i < |xs| ==> xs[i] + [ys[i]] == data[i..i + timeStep + 1]
    ensures timeStep > 0 ==> forall i :: 0 <= i < |xs| - 1 ==> xs[i + 1] == xs[i][1..] + [ys[i]]
  {
    xs, ys := [], [];
    var count := PairCount(|data|, timeStep);
    var i := 0;
    while i < count
      invariant 0 <= i <= count
      invariant |xs| == |ys| == i
      invariant forall j :: 0 <= j < i ==> xs[j] == data[j..j + timeStep]
      invariant forall j :: 0 <= j < i ==> ys[j] == data[j + timeStep]
    {
      xs := xs + [data[i..i + timeStep]];
      ys := ys + [data[i + timeStep]];
      i := i + 1;
    }
  }

  // ---------------------------------------------------------------------
  // The logger's file as training input

  /**
   * No logger header is one of the two aliases listed before "pm2_5": only
   * "pm10" and "pm2_5" have their lengths, and each differs at its third character.
   */
  lemma LoggerHeaderNotEarlierAlias(n: nat)
    requires n < |DataLogger.CsvHeader|
    ensures Lower(DataLogger.CsvHeader[n]) != "pm25" && Lower(DataLogger.CsvHeader[n]) != "pm_25"
  {
    var g := DataLogger.CsvHeader[n];
    if |g| == 4 || |g| == 5 {
      assert g == "pm10" || g == "pm2_5";
      assert Lower(g)[2] == LowerChar(g[2]);
    }
  }

  /** "pm2_5" is the only logger header with that lower-case name, and it is the third alias. */
  lemma LoggerPm25IsLastOfItsName()
    ensures Lower(DataLogger.CsvHeader[1]) == Lower(Candidates[2]) && LastOfItsName(DataLogger.CsvHeader, 1)
  {
    LowerKeepsLowerCase(DataLogger.CsvHeader[1]);
    CandidatesAreLowerCase();
  }

  /** No logger header matches either alias listed before "pm2_5". */
  lemma LoggerEarlierAliasesAbsent(aliases: seq<string>)
    requires |aliases| > 2 && Lower(aliases[0]) == "pm25" && Lower(aliases[1]) == "pm_25"
    ensures forall j, n :: 0 <= j < 2 && 0 <= n < |DataLogger.CsvHeader| ==>
              Lower(DataLogger.CsvHeader[n]) != Lower(aliases[j])
  {
    forall j, n | 0 <= j < 2 && 0 <= n < |DataLogger.CsvHeader|
      ensures Lower(DataLogger.CsvHeader[n]) != Lower(aliases[j])
    {
      LoggerHeaderNotEarlierAlias(n);
    }
  }

  /** The logger's header row names the PM2.5 column "pm2_5", found by the alias list. */
  lemma LoggerHeaderSelectsPm25(isNumeric: nat -> bool)
    ensures SelectColumn(Candidates, DataLogger.CsvHeader, isNumeric) == Ok("pm2_5")
  {
    CandidatesAreLowerCase();
    LoggerEarlierAliasesAbsent(Candidates);
    LoggerPm25IsLastOfItsName();
    AliasMatchWins(Candidates, DataLogger.CsvHeader, isNumeric, 2, 1);
  }

  /** Every alias starts with 'p' and has from 4 to 12 characters. */
  lemma CandidatesShape()
    ensures forall j :: 0 <= j < |Candidates| ==> 4 <= |Candidates[j]| <= 12 && Candidates[j][0] == 'p'
  {
  }

  /** Neither header of the example file is an alias. */
  lemma NoAliasInUnitsFile(h: seq<string>)
    requires h == ["timestamp", "PM2.5 (ug/m3)"]
    ensures forall j, g :: 0 <= j < |Candidates| && g in h ==> Lower(g) != Lower(Candidates[j])
  {
    CandidatesAreLowerCase();
    CandidatesShape();
    LowerKeepsLowerCase("timestamp");
  }

  /** A name without the digit 2 fails the substring rule; "timestamp" is one. */
  lemma NoTwoInTimestamp(h: string)
    requires h == "timestamp"
    ensures !LooksLikePm25(h)
  {
    LowerKeepsLowerCase(h);
    WithoutTwoNotPm25(h);
  }

  /** "PM2.5 (ug/m3)" lower-cases to a name starting with "pm2". */
  lemma UnitsHeaderLooksLikePm25()
    ensures LooksLikePm25("PM2.5 (ug/m3)")
  {
    var h := "PM2.5 (ug/m3)";
    assert Lower(h)[0..][..3] == "pm2";
  }

  /** The substring rule passes over the first header and accepts the second. */
  lemma UnitsFileSubstringTests(h: seq<string>)
    requires h == ["timestamp", "PM2.5 (ug/m3)"]
    ensures 1 < |h| && LooksLikePm25(h[1]) && forall j :: 0 <= j < 1 ==> !LooksLikePm25(h[j])
  {
    NoTwoInTimestamp(h[0]);
    UnitsHeaderLooksLikePm25();
  }

  /** A header with units and capitals is found by the substring rule, past an earlier column. */
  lemma UnitsHeaderFoundBySubstring(isNumeric: nat -> bool)
    ensures SelectColumn(Candidates, ["timestamp", "PM2.5 (ug/m3)"], isNumeric) == Ok("PM2.5 (ug/m3)")
  {
    UnitsFileColumn(["timestamp", "PM2.5 (ug/m3)"], isNumeric);
  }

  lemma UnitsFileColumn(h: seq<string>, isNumeric: nat -> bool)
    requires h == ["timestamp", "PM2.5 (ug/m3)"]
    ensures SelectColumn(Candidates, h, isNumeric) == Ok(h[1])
  {
    NoAliasInUnitsFile(h);
    UnitsFileSubstringTests(h);
    SubstringPicksFirstHeader(Candidates, h, isNumeric, 1);
  }
}
