/** Choosing the CSV file the training script reads (`find_best_csv`). */
module CsvSource {
  import opened Base

  const PreferredFileName := "live_air_quality.csv"
  const DataFileName := "air_quality_data.csv"

  /** The file system as the selection sees it: the existing paths and their sizes in bytes. */
  type FileSizes = map<string, nat>

  /** `os.path.join` of a directory and a relative file name. */
  function Join(dir: string, name: string): string
  {
    dir + "/" + name
  }

  /** A path that exists and is not empty. */
  predicate Usable(fs: FileSizes, p: string)
  {
    p in fs && fs[p] > 0
  }

  datatype SourceError =
    | NoCsvFiles(dir: string)                      // FileNotFoundError
    | AllCsvEmpty(dir: string, files: seq<string>) // ValueError

  /** The non-empty files, in listing order. */
  function NonEmpty(files: seq<string>, fs: FileSizes): (r: seq<string>)
    requires forall p :: p in files ==> p in fs
    ensures forall p :: p in r <==> p in files && fs[p] > 0
  {
    if files == [] then []
    else (if fs[files[0]] > 0 then [files[0]] else []) + NonEmpty(files[1..], fs)
  }

  /** Every file listed before position `k` is smaller than the file at `k`. */
  predicate SmallerBefore(files: seq<string>, fs: FileSizes, k: nat)
    requires k < |files| && forall p :: p in files ==> p in fs
  {
    forall j :: 0 <= j < k ==> fs[files[j]] < fs[files[k]]
  }

  /** `v` sits at some position of `files` with every earlier file strictly smaller. */
  predicate FirstAmongLargest(files: seq<string>, fs: FileSizes, v: string)
    requires forall p :: p in files ==> p in fs
  {
    exists k: nat :: k < |files| && files[k] == v && SmallerBefore(files, fs, k)
  }

  /**
   * What a stable sort by size, largest first, puts at the head: the index of
   * a largest file, with every file before it strictly smaller.
   */
  function FirstLargest(files: seq<string>, fs: FileSizes): (k: nat)
    requires |files| > 0 && forall p :: p in files ==> p in fs
    ensures k < |files|
    ensures forall p :: p in files ==> fs[p] <= fs[files[k]]
    ensures SmallerBefore(files, fs, k)
  {
    if |files| == 1 then 0
    else
      var best := FirstLargest(files[1..], fs) + 1;
      assert forall j :: 1 <= j < |files| ==> files[1..][j - 1] == files[j];
      if fs[files[0]] >= fs[files[best]] then 0 else best
  }

  /**
   * The directory listing stage: no CSV file is an error, only empty ones is
   * another; otherwise a largest non-empty file, the first of those in
   * listing order.
   */
  function LargestCsv(baseDir: string, fs: FileSizes, csvs: seq<string>): (r: Result<string, SourceError>)
    requires forall p :: p in csvs ==> p in fs
    ensures r == Err(NoCsvFiles(baseDir)) <==> csvs == []
    ensures r == Err(AllCsvEmpty(baseDir, csvs)) <==> csvs != [] && forall p :: p in csvs ==> fs[p] == 0
    ensures r.Err? ==> r == Err(NoCsvFiles(baseDir)) || r == Err(AllCsvEmpty(baseDir, csvs))
    ensures (exists p :: p in csvs && fs[p] > 0) ==> r.Ok?
    ensures r.Ok? ==>
              && r.value in csvs && fs[r.value] > 0
              && (forall p :: p in csvs ==> fs[p] <= fs[r.value])
              && FirstAmongLargest(NonEmpty(csvs, fs), fs, r.value)
  {
    if csvs == [] then Err(NoCsvFiles(baseDir))
    else
      var nonEmpty := NonEmpty(csvs, fs);
      if nonEmpty == [] then
        assert forall p :: p in csvs ==> fs[p] == 0 by {
          forall p | p in csvs ensures fs[p] == 0 {
            assert p !in nonEmpty;
          }
        }
        Err(AllCsvEmpty(baseDir, csvs))
      else
        var k := FirstLargest(nonEmpty, fs);
        assert nonEmpty[k] in nonEmpty;
        assert forall p :: p in csvs ==> fs[p] <= fs[nonEmpty[k]] by {
          forall p | p in csvs ensures fs[p] <= fs[nonEmpty[k]] {
            if fs[p] > 0 { assert p in nonEmpty; }
          }
        }
        assert SmallerBefore(nonEmpty, fs, k);
        var r := Ok(nonEmpty[k]);
        assert FirstAmongLargest(nonEmpty, fs, r.value);
        r
  }

  /**
   * `find_best_csv`: the preferred file when it exists and is not empty,
   * else the fixed data file next to the script under the same condition,
   * else what the directory listing stage gives.
   */
  function FindBestCsv(scriptDir: string, baseDir: string, preferred: string, fs: FileSizes, csvs: seq<string>)
    : (r: Result<string, SourceError>)
    requires forall p :: p in csvs ==> p in fs
    ensures Usable(fs, Join(baseDir, preferred)) ==> r == Ok(Join(baseDir, preferred))
    ensures !Usable(fs, Join(baseDir, preferred)) && Usable(fs, Join(scriptDir, DataFileName)) ==>
              r == Ok(Join(scriptDir, DataFileName))
    ensures !Usable(fs, Join(baseDir, preferred)) && !Usable(fs, Join(scriptDir, DataFileName)) ==>
              r == LargestCsv(baseDir, fs, csvs)
    ensures r.Ok? ==> Usable(fs, r.value)
  {
    var prefPath := Join(baseDir, preferred);
    var dataFile := Join(scriptDir, DataFileName);
    if Usable(fs, prefPath) then Ok(prefPath)
    else if Usable(fs, dataFile) then Ok(dataFile)
    else LargestCsv(baseDir, fs, csvs)
  }
}
