# DeepAir: a verified model of the sensor logger and the training-data loader

DeepAir logs air quality from a Nova Fitness SDS011 particulate sensor and
trains a forecasting model on the log. This project models the parts of it that
are sequential logic, and proves properties of that model:

- **The data logger** (`data_logger.py`). It sends the SDS011 wake and
  continuous-reporting commands, searches the serial ports for the sensor, and
  reads a reading. A reading is found by three `read(10)` attempts that each
  check the `AA C0` frame head and decode PM2.5 and PM10 in tenths. The logger
  computes the AQI band, writes a 9-field CSV row, and keeps two graph
  histories of at most 50 values.
- **The sensor diagnostic** (`sds011_fix.py`). It has its own copies of the two
  commands. Its reader takes one start byte and then the nine bytes after it.
  Its port search tries that reader five times per port.
- **The training loader** (`model_training.py`). It chooses the CSV file and
  reads it through a ladder of six `pandas.read_csv` attempts. If all of those
  fail, a modal-column-count cleaner is the last resort. The loader then finds
  the PM2.5 column and coerces it to numbers. `prepare_data` cuts the series
  into (window, next value) pairs.

Modules, one per file:

| module | file | models |
|---|---|---|
| `Base` | `base.dfy` | `Option`, `Result`, `Min` |
| `SerialIo` | `serial_io.dfy` | the serial port as a class; bounded retries; the first-answer port scan |
| `Sds011` | `sds011.dfy` | the sensor's reading, command shape, and data frame |
| `DataLogger` | `data_logger.dfy` | `data_logger.py` |
| `Sds011Fix` | `sds011_fix.dfy` | `sds011_fix.py` |
| `CsvSource` | `csv_source.dfy` | `find_best_csv` |
| `ModalCleaner` | `modal_cleaner.dfy` | `modal_count`, separator choice, the line filter |
| `CsvReader` | `csv_reader.dfy` | `_try_read` |
| `Pm25Column` | `pm25_column.dfy` | the column search and coercion of `load_data` |
| `TrainingData` | `training_data.dfy` | `load_data`, `prepare_data`, the logger's CSV as training input |

Code that changes state step by step is written as methods with loops:
- the serial port, the logger's histories, and the three searches over ports and attempts;
- `modal_count`, the cleaner's filter, and the reader's ladder;
- the alias and header loops, and `prepare_data`.

Most methods are proved equal to a specification function, and the properties
are proved about those functions. The methods that only change the serial
port or the logger's state state the new state directly: `Serial.Read`,
`Serial.Write`, `LogState.Log`, and the four command senders
(`DataLogger.WakeSds011`, `DataLogger.SetContinuousMode`,
`Sds011Fix.WakeSds011`, `Sds011Fix.SetContinuousMode`).

## Model

| member | source | states |
|---|---|---|
| SerialIo.Serial.constructor | data_logger.py:200 | An opened port has the device's bytes still to deliver and nothing written yet |
| SerialIo.Serial.Read | data_logger.py:148 | A read of n bytes hands back the first min(n, available) bytes in arrival order and removes them from the input; nothing is written |
| SerialIo.Serial.Write | data_logger.py:85 | Writing appends the bytes to what the device has received and leaves the input alone |
| SerialIo.Retry | data_logger.py:147-155 | Definition: up to n tries of a read, each on what the previous left, the first value winning; its meaning is stated by `SerialIo.RetryFindsFirst` |
| SerialIo.RetryFindsFirst | data_logger.py:147-155 | Bounded retries find nothing exactly when every attempt finds nothing, in which case they have consumed what those attempts read; otherwise they return the value of the first attempt that finds one |
| SerialIo.Scan | sds011_fix.py:68-107 | Definition: the device of the first port that opens and answers within the bounded tries; its meaning is stated by `SerialIo.ScanFindsFirst` |
| SerialIo.ScanFindsFirst | sds011_fix.py:68-107 | The port scan finds nothing exactly when no port answers; otherwise it names a port that answers, and no earlier port does |
| Sds011.ReplyFrame | data_logger.py:118-120 | The sensor's data frame for a reading: 10 bytes, head AA C0, tail AB, byte 8 the checksum of bytes 2..7 |
| DataLogger.ComputeAqi | data_logger.py:55-68 | Definition: the six (value, category) bands by the 12 / 35.4 / 55.4 / 150.4 / 250.4 thresholds; stated by `AqiMonotone`, `AqiCategoryFollowsValue` and `AqiOnSensorTenths` |
| DataLogger.Micrograms | data_logger.py:150-151 | Definition: tenths divided by 10.0, as exact reals; the AQI bands on it are stated by `AqiOnSensorTenths` |
| DataLogger.AqiMonotone | data_logger.py:55-68 | A larger PM2.5 concentration never gives a smaller AQI value |
| DataLogger.AqiCategoryFollowsValue | data_logger.py:55-68 | Each AQI value comes with exactly one category |
| DataLogger.AqiOnSensorTenths | data_logger.py:55-68 | On the sensor's integer tenths, each value holds exactly on its band: 50 for at most 120, 100 up to 354, 150 up to 554, 200 up to 1504, 300 up to 2504, 400 above |
| DataLogger.ColorBar | data_logger.py:71-78 | Definition: the bar colour of a value; stated by `ColorBarBands` |
| DataLogger.ColorBarBands | data_logger.py:71-78 | Green exactly up to 50, yellow exactly above 50 up to 100, red exactly above 100; a larger value never gets a milder colour |
| DataLogger.ColorOfAqi | data_logger.py:71-78 | Applied to the AQI value of a concentration, the bar is green up to 12, yellow up to 35.4, and red beyond. This is the docstring's reading of `color_bar`; the program never feeds it an AQI, because `draw_graph` colours raw PM values (data_logger.py:173), as `ColorBarBands` states |
| DataLogger.WakeCmdWellFormed | data_logger.py:84 | The wake command is a well-formed SDS011 command: 19 bytes, head AA B4, tail AB, byte 17 the sum of bytes 2..16 mod 256 |
| DataLogger.ContinuousCmdWellFormed | data_logger.py:92 | The continuous-mode command is a well-formed SDS011 command |
| DataLogger.WakeSds011 | data_logger.py:81-86 | Exactly the wake command is written, and the input is untouched |
| DataLogger.SetContinuousMode | data_logger.py:89-94 | Exactly the continuous-mode command is written, and the input is untouched |
| DataLogger.AcceptFrame | data_logger.py:149 | Definition: a read is a frame when it has 10 bytes starting AA C0; its independence from bytes 6..9 is `DecodeIgnoresTrailer` |
| DataLogger.LoggerAttempt | data_logger.py:147-155 | Definition: one `read(10)` and its check; three of them are characterised by `LoggerReadExaminesThreeFrames` |
| DataLogger.DecodeFrame | data_logger.py:150-151 | Both decoded values lie in 0..65535 tenths |
| DataLogger.DecodeReplyFrame | data_logger.py:149-151 | Round trip: the logger accepts the sensor's frame for a reading and decodes that reading back |
| DataLogger.WellFormedFrameIsReply | data_logger.py:149-151 | Converse: an accepted frame with the right checksum and tail is the sensor's frame for the reading and sensor id decoded from it |
| DataLogger.DecodeIgnoresTrailer | data_logger.py:149-151 | Acceptance and decoding depend on bytes 0..5 only: the checksum and tail are never inspected |
| DataLogger.LoggerReadExaminesThreeFrames | data_logger.py:147-155 | Three reads find nothing exactly when none of the first three 10-byte chunks is a frame. Otherwise they give the reading of the first chunk that is one. At most 30 bytes are consumed |
| DataLogger.ReadSds011 | data_logger.py:129-162 | Without a port: "No sensor port available", and nothing is read. Otherwise: the reading of the first of three reads that sees a frame, or "Read failed", with the input left where those reads stop. Nothing is written |
| DataLogger.FindSds011Port | data_logger.py:97-126 | The result is the first port, in enumeration order, that opens and whose three reads see a frame; None when there is none |
| DataLogger.LogRow | data_logger.py:218 | Definition: the row written for one reading; its alignment with the header is `RowMatchesHeader` |
| DataLogger.Coordinate | data_logger.py:218 | Definition: a known latitude or longitude is written as a number, a missing one as an empty field; its place in the row is stated by `RowMatchesHeader` |
| DataLogger.RowMatchesHeader | data_logger.py:218 | Every logged row has 9 fields, one per header column of data_logger.py:32-35; PM2.5, PM10 and the AQI value sit under "pm2_5", "pm10" and "AQI_Level" |
| DataLogger.KeepLast | data_logger.py:226-228 | The last min(length, width) elements of a sequence |
| DataLogger.KeepLastAppend | data_logger.py:224-228 | Trimming before appending and trimming after appending give the same history |
| DataLogger.History | data_logger.py:224-228 | Definition: a history after logging values one at a time with the trim after each append; characterised by `HistoryIsLastValues` |
| DataLogger.HistoryIsLastValues | data_logger.py:224-228 | After any run of logged readings, a history is the last 50 values, newest last |
| DataLogger.LogState.constructor | data_logger.py:38-39 | Both histories start empty, with no rows written |
| DataLogger.LogState.Log | data_logger.py:214-228 | A reading appends its row and its values to both histories, which drop their oldest entry beyond 50; both keep equal length of at most 50. A failed read changes nothing |
| Sds011Fix.CommandsMatchLogger | sds011_fix.py:12-24 | The diagnostic's wake and continuous-mode commands are byte for byte the logger's, and both are well-formed |
| Sds011Fix.WakeSds011 | sds011_fix.py:12-17 | Exactly the wake command is written, and the input is untouched |
| Sds011Fix.SetContinuousMode | sds011_fix.py:19-24 | Exactly the continuous-mode command is written, and the input is untouched |
| Sds011Fix.FixAttempt | sds011_fix.py:33-50 | Definition: `read(1)` for the start byte, `read(9)` for the rest and the checks between; characterised by `FixReaderContract` and compared by `DecodersAgree` |
| Sds011Fix.ReadSds011Data | sds011_fix.py:26-50 | The result and the bytes left unread are those of the reader's specification on the stream |
| Sds011Fix.FixReaderContract | sds011_fix.py:33-48 | A reading comes back exactly when the stream holds 10 bytes starting AA C0; it is then the little-endian pairs in bytes 2..5, and 10 bytes are consumed. A wrong start byte costs exactly one byte |
| Sds011Fix.DecodersAgree | sds011_fix.py:33-50 | On any 10 bytes this reader and the logger's check and decode give the same result |
| Sds011Fix.SameAttemptWhenAligned | sds011_fix.py:33-50 | On a stream starting with AA, the two readers also leave the same bytes unread |
| Sds011Fix.FixReaderSkipsNoise | sds011_fix.py:88-97 | With the flush before each attempt taken to discard nothing (see Left out), fewer stray non-AA bytes than attempts in front of a frame are skipped one attempt each, and the frame's reading is found |
| Sds011Fix.TestSds011WithProperProtocol | sds011_fix.py:52-107 | The result is the first port, in enumeration order, that opens and whose five reader tries yield a reading, each try reading on where the last stopped (flushes discard nothing); None when there is none |
| CsvSource.Join | model_training.py:18 | Definition: `os.path.join` of a directory and a relative name, with one `/` between; the paths `FindBestCsv` tries |
| CsvSource.NonEmpty | model_training.py:26 | Exactly the listed files with positive size |
| CsvSource.FirstLargest | model_training.py:29-30 | The position of a largest file, with every file before it strictly smaller: the head of a stable descending sort |
| CsvSource.LargestCsv | model_training.py:23-30 | No CSV file is NoCsvFiles, and only then. All files empty is AllCsvEmpty, and only then. No other error arises, and a listing with a non-empty file always succeeds, with a listed non-empty file of maximal size, the first such in listing order |
| CsvSource.FindBestCsv | model_training.py:17-30 | The preferred file when it exists and is non-empty, before anything else is considered; else the fixed data file under the same condition; else the listing stage. A chosen file always exists and is non-empty |
| ModalCleaner.Split | model_training.py:92 | Splitting never gives an empty list |
| ModalCleaner.SplitJoin | model_training.py:92 | Joining the pieces gives back the line; there is one piece more than separators; no piece holds the separator |
| ModalCleaner.FieldCount | model_training.py:92-93 | Definition: `len(ln.split(sep))`; stated by `FieldCountIsSeparatorsPlusOne` |
| ModalCleaner.FieldCountIsSeparatorsPlusOne | model_training.py:92 | A line's field count is its number of separators plus one |
| ModalCleaner.SeenIsOccurringCounts | model_training.py:90-93 | The histogram's keys are exactly the field counts that occur, each once |
| ModalCleaner.FrequenciesSumToLines | model_training.py:90-93 | The histogram's frequencies add up to the number of sampled lines |
| ModalCleaner.FreqPositive | model_training.py:91-93 | The field count of every line has a positive frequency |
| ModalCleaner.OccurringCountHasLine | model_training.py:91-93 | A field count with positive frequency is the field count of some line |
| ModalCleaner.BestIndex | model_training.py:95 | `max` by frequency: a key at least as frequent as every key, with every earlier key strictly less frequent |
| ModalCleaner.Mode | model_training.py:89-96 | Definition: the first most frequent field count and its frequency; characterised by `ModeIsMostFrequent` |
| ModalCleaner.ModeIsMostFrequent | model_training.py:89-96 | The mode is a line's field count, and its frequency is its number of lines. No field count is more frequent, and among equally frequent counts it is the one met first |
| ModalCleaner.CountFieldCounts | model_training.py:90-93 | The dictionary's keys, in insertion order, are the field counts in order of first appearance, and each maps to its number of lines |
| ModalCleaner.PickBest | model_training.py:95 | Scanning the keys and moving only to a strictly larger count picks the first most frequent key |
| ModalCleaner.ModalCount | model_training.py:89-96 | `modal_count` returns the most frequent field count, the first among ties, and its frequency |
| ModalCleaner.ChooseSeparator | model_training.py:102 | Definition: comma unless semicolon's modal frequency is strictly larger; characterised by `ChosenShapeIsMostCommon` |
| ModalCleaner.ModalColumns | model_training.py:103 | Definition: the mode under the chosen separator; characterised by `ChosenShapeIsMostCommon` |
| ModalCleaner.WellFormed | model_training.py:106-115 | Definition: the lines with exactly the modal field count, in file order; characterised by `WellFormedKeepsExactlyMatching` |
| ModalCleaner.ChosenShapeIsMostCommon | model_training.py:98-103 | Comma exactly when its modal frequency is at least semicolon's (ties go to comma). The chosen column count describes at least as many lines as any field count under either separator, and at least one |
| ModalCleaner.WellFormedKeepsExactlyMatching | model_training.py:106-115 | The filter keeps only lines with the modal field count, and keeps every such line; how many it keeps is that count's frequency, at most the number of lines |
| ModalCleaner.WellFormedAppend | model_training.py:109-115 | Filtering a file in two parts gives the concatenation of the two filtered parts, in file order |
| ModalCleaner.KeepsSomeLine | model_training.py:98-117 | When the sample is the head of the file, the filter keeps at least one line |
| ModalCleaner.ModalClean | model_training.py:106-115 | The streaming pass keeps exactly the lines with the given field count, in order; kept is the number kept, total the number of lines, and kept is at most total |
| CsvReader.StrictStage | model_training.py:47-55 | A strict attempt succeeds exactly on a table with columns. A table without columns records "no columns parsed" naming the attempt, and only then. A pandas error is recorded as the last error |
| CsvReader.LenientStage | model_training.py:58-64 | A lenient attempt succeeds exactly on a table with columns. A table without columns passes without touching the last error, and only then. A pandas error is recorded |
| CsvReader.ModalStage | model_training.py:87-129 | A successful cleaned read has columns; without a sample the cleaner is skipped |
| CsvReader.PandasStages | model_training.py:38-73 | Definition: the six pandas rungs in order, the four of the attempts list strict (no columns is a failure) and the `on_bad_lines='skip'` and `QUOTE_NONE` calls lenient; run by `FirstSuccess` |
| CsvReader.Stages | model_training.py:38-131 | Definition: the six pandas rungs followed by the modal cleaner; its outcome is stated by `ReadIntendedOutcome` and `LongFilesAgree` |
| CsvReader.FirstSuccess | model_training.py:46-73 | Definition: the ladder over its rungs, keeping the last recorded exception; characterised by `FirstSuccessWins` |
| CsvReader.FirstSuccessWins | model_training.py:46-73 | The ladder returns a table exactly when some rung succeeds, and then the first successful rung's table. Failing, it carries the exception of the last rung that recorded one |
| CsvReader.FirstSuccessIndexed | model_training.py:46-73 | A returned table is the table of one of the rungs |
| CsvReader.FirstSuccessExtend | model_training.py:46-73 | Rungs after a ladder that already succeeds change nothing |
| CsvReader.LastRecordSeesFirst | model_training.py:46-55 | Once a rung has recorded an exception, the last error is never None |
| CsvReader.LadderOutcome | model_training.py:46-131 | A ladder whose successes all have columns returns a table with columns, and fails with an exception once one was recorded |
| CsvReader.SampleAsWritten | model_training.py:76-85 | As written, a sample is only ever assigned with exactly 2000 lines |
| CsvReader.SampleIntended | model_training.py:78-83 | The intended sample is the file's first min(2000, length) lines; it is None exactly when the file cannot be opened |
| CsvReader.ReadIntended | model_training.py:33-131 | Definition: `_try_read` with the intended sample; characterised by `ReadIntendedOutcome` and implemented by `TryRead` |
| CsvReader.ReadAsWritten | model_training.py:33-131 | Definition: `_try_read` as written, stopping on the unassigned sample; compared with `ReadIntended` by `LongFilesAgree` and `ShortFileLeavesSampleUnbound` |
| CsvReader.ReadIntendedOutcome | model_training.py:33-131 | With the intended sample (not the code as written: see Findings and `CsvReader.ReadAsWritten`), the reader returns a table with at least one column, or fails with a recorded last exception; it never stops on an unassigned sample |
| CsvReader.CleanerNeverEmpty | model_training.py:98-117 | With the intended sample, the cleaner never reports "0 well-formed rows" on a non-empty file |
| CsvReader.LongFilesAgree | model_training.py:76-87 | On files of 2000 lines or more, the reader as written and as intended give the same result |
| CsvReader.ShortFileLeavesSampleUnbound | model_training.py:79-87 | On a non-empty file under 2000 lines that pandas cannot read, the reader as written stops on the unassigned sample, while the intended reader returns the cleaned table |
| CsvReader.ShortFileExample | model_training.py:79-87 | A concrete such file: one header line, every pandas call failing |
| CsvReader.CleanedRead | model_training.py:76-129 | With the intended sample of up to 2000 lines (not the code as written: see Findings), the last-resort steps (sample, choose separator and column count, filter, parse) compute the cleaner's stage |
| CsvReader.TryRead | model_training.py:33-131 | `_try_read` with the intended sample, with its loops over the attempts, returns what the intended ladder `ReadIntended` specifies; the reader as written is `CsvReader.ReadAsWritten` |
| Pm25Column.Trim | model_training.py:146 | The result is the name with whitespace removed from both ends and nothing else; it neither starts nor ends with whitespace |
| Pm25Column.TrimUnique | model_training.py:146 | Stripping has one answer: any piece of a name cut out between whitespace, neither starting nor ending with whitespace, is the stripped name |
| Pm25Column.TrimIdempotent | model_training.py:146 | Stripping a stripped name changes nothing |
| Pm25Column.TrimHeaders | model_training.py:146 | Every header is replaced by a piece of itself cut out between whitespace that neither starts nor ends with whitespace, which by `TrimUnique` is its stripped form; the rows are unchanged |
| Pm25Column.Lower | model_training.py:153 | Definition: lower case of the letters A to Z; stated by `LowerIdempotent` |
| Pm25Column.LowerIdempotent | model_training.py:153 | Lower-casing twice is lower-casing once |
| Pm25Column.CandidatesAreLowerCase | model_training.py:148-156 | Every alias is its own lower case |
| Pm25Column.ColMap | model_training.py:153 | Definition: the lower-case map built left to right; characterised by `ColMapKeys`, `ColMapValues` and `ColMapLastWins` |
| Pm25Column.ColMapKeys | model_training.py:153 | Every header's lower-case name is a key of the map |
| Pm25Column.ColMapValues | model_training.py:153 | Every key maps to a header whose lower-case name is that key |
| Pm25Column.ColMapLastWins | model_training.py:153 | Among headers that share a lower-case name, the map keeps the last |
| Pm25Column.FirstAlias | model_training.py:155-158 | The position of the first alias whose lower case is a key, every earlier alias being absent |
| Pm25Column.FirstAliasIsFirst | model_training.py:155-158 | The alias search stops at the first alias present |
| Pm25Column.FirstAliasNone | model_training.py:155-158 | With no alias present the alias search runs off the end |
| Pm25Column.Remove | model_training.py:163 | `replace(c, "")`: no c remains, every other character that occurs in the name still occurs, and nothing is added (membership only; order is not stated) |
| Pm25Column.LooksLikePm25 | model_training.py:163 | Definition: the four substring tests on the lower-cased header; stated by `Pm25TestIsRedundant` and `WithoutTwoNotPm25` |
| Pm25Column.Pm25TestIsRedundant | model_training.py:163 | The "pm2.5" test adds nothing to the "pm2" test |
| Pm25Column.WithoutTwoNotPm25 | model_training.py:163 | A header whose lower case has no digit 2 is never taken by the substring rule |
| Pm25Column.FirstLookingLike | model_training.py:161-165 | The position of the first header the substring rule accepts, no earlier header being accepted |
| Pm25Column.FirstLookingLikeIsFirst | model_training.py:161-165 | The header search stops at the first header accepted |
| Pm25Column.FirstLookingLikeNone | model_training.py:161-165 | With no header accepted the header search runs off the end |
| Pm25Column.NumericColumns | model_training.py:168 | A header is listed exactly when some column of that name is one the dtype test calls numeric (membership only; order is not stated), and there are no more entries than columns |
| Pm25Column.SelectColumn | model_training.py:153-183 | A chosen column is one of the headers; the error lists all the headers |
| Pm25Column.ColumnNotFoundExactly | model_training.py:178-183 | KeyError exactly when no header is an alias, none passes the substring rule, none is "value" or "measurement", and there is not exactly one numeric column |
| Pm25Column.ValueThenMeasurement | model_training.py:172-176 | With no alias, no substring match and not exactly one numeric column: a header named "value" (any case) decides, as the last header of that lower-case name; failing that, one named "measurement" does |
| Pm25Column.AliasMatchWins | model_training.py:154-158 | A present alias with no earlier alias present decides the column, before the substring rule; it is the last header of that lower-case name |
| Pm25Column.NoAliasKey | model_training.py:154-158 | If no header matches any alias, the alias loop finds nothing |
| Pm25Column.SubstringPicksFirstHeader | model_training.py:160-165 | Without an alias match, the substring rule picks the first header it accepts, in column order |
| Pm25Column.SingleNumericColumn | model_training.py:167-171 | Without a named match, a lone numeric column is taken |
| Pm25Column.SearchAliases | model_training.py:154-158 | The alias loop finds the first alias present |
| Pm25Column.SearchHeaders | model_training.py:160-165 | The header loop finds the first header the substring rule accepts |
| Pm25Column.FindColumn | model_training.py:153-183 | The column-finding code, loops and fallbacks, returns what the resolution order specifies |
| Pm25Column.IndexOf | model_training.py:185 | The first column with the chosen name |
| Pm25Column.Column | model_training.py:185 | One cell per row, missing exactly where a row is too short |
| Pm25Column.NumericValues | model_training.py:186-187 | Coercion never yields more values than cells |
| Pm25Column.NumericValuesAppend | model_training.py:186-187 | Coercion works cell by cell: it distributes over concatenation |
| Pm25Column.NumericValuesDrops | model_training.py:186-187 | A value is kept exactly when it is the number of some cell that parses: unparsable cells are dropped, not replaced |
| Pm25Column.NumericValuesAll | model_training.py:186-187 | Nothing is dropped exactly when every cell parses |
| Pm25Column.NumericValuesNone | model_training.py:186-188 | Nothing remains exactly when no cell parses |
| Pm25Column.Coerce | model_training.py:185-189 | ValueError naming the column exactly when no cell parses, and no other error; otherwise the non-empty series of parsed values |
| TrainingData.SourcePath | model_training.py:135-136 | A given path is used as is; without one, `find_best_csv` with its defaults chooses, and a path it chooses exists and is non-empty |
| TrainingData.FromTable | model_training.py:146-189 | A loaded series is non-empty; a table's only errors are the missing column and the non-numeric column |
| TrainingData.Load | model_training.py:134-193 | `load_data` over the reader with the intended sample: a loaded series is never empty |
| TrainingData.FileChecksComeFirst | model_training.py:134-141 | A given path that is missing or empty is reported as such before any parsing; a path chosen by `find_best_csv` is never missing or empty |
| TrainingData.ReaderFailureCarriesException | model_training.py:131-144 | The reader's RuntimeError always carries a last exception |
| TrainingData.NonNumericColumnFails | model_training.py:185-189 | A found column without a single number is an error naming it, not an empty series |
| TrainingData.LoadData | model_training.py:134-193 | `load_data`, with the reader (intended sample) and column search as methods, returns what `TrainingData.Load` specifies |
| TrainingData.PrepareData | model_training.py:196-201 | max(0, n - time_step - 1) pairs; pair i is the window data[i .. i + time_step) and the value data[i + time_step]; each window followed by its target is the run data[i .. i + time_step]; each next window is the previous one shifted by one with its target appended |
| TrainingData.LoggerHeaderNotEarlierAlias | model_training.py:148-158 | No logger header lower-cases to either of the two aliases listed before "pm2_5" |
| TrainingData.LoggerPm25IsLastOfItsName | model_training.py:148-158 | The logger's "pm2_5" is the third alias, and no later logger header shares its lower-case name |
| TrainingData.LoggerEarlierAliasesAbsent | model_training.py:148-158 | Aliases "pm25" and "pm_25" match no logger header |
| TrainingData.LoggerHeaderSelectsPm25 | model_training.py:148-158 | On the logger's own header row, the loader picks the "pm2_5" column by the alias list |
| TrainingData.CandidatesShape | model_training.py:148-152 | Every alias starts with 'p' and has 4 to 12 characters |
| TrainingData.NoAliasInUnitsFile | model_training.py:154-158 | Neither "timestamp" nor "PM2.5 (ug/m3)" is an alias |
| TrainingData.NoTwoInTimestamp | model_training.py:163 | "timestamp" has no digit 2, so it fails the substring rule |
| TrainingData.UnitsHeaderLooksLikePm25 | model_training.py:163 | "PM2.5 (ug/m3)" passes the substring rule |
| TrainingData.UnitsFileSubstringTests | model_training.py:160-165 | Of the two headers, the substring rule passes over the first and accepts the second |
| TrainingData.UnitsFileColumn | model_training.py:153-165 | A header with capitals and units, after an unrelated column, is found by the substring rule |
| TrainingData.UnitsHeaderFoundBySubstring | model_training.py:153-165 | On headers "timestamp" and "PM2.5 (ug/m3)", the loader picks "PM2.5 (ug/m3)" |

## Left out

- `app.py` (a web route stub), `build_model`, scaling, training and saving: foreign numeric libraries with no logic of their own to model.
- The internals of `pandas.read_csv`: encodings, delimiter sniffing and the bad-line policies. Each of the six calls is an opaque outcome, a table or an exception, given per path. The cleaner's final parse of its kept lines is a function parameter.
- `pd.api.types.is_numeric_dtype` and `pd.to_numeric(errors="coerce")`: a per-column predicate and a per-cell `string -> Option<real>` parameter.
- The file system: a map from existing paths to sizes, and the glob result as a sequence in listing order. `os.path.join` is modelled for relative names only.
- The cleaner opens the file twice; the model gives both opens the same lines. `errors="ignore"` decoding is not modelled.
- Pm25Column.Lower: folds only the ASCII letters A to Z. `str.lower` on other scripts is not modelled.
- Pm25Column.IndexOf: when two headers are equal after stripping, pandas selects every column of that name; the model takes the first.
- The logger's CSV file is not read back: it is a sequence of rows in `LogState`. Opening it, creating it only when absent, and the header write become the constant `CsvHeader`.
- Sds011Fix.FixReaderSkipsNoise, Sds011Fix.TestSds011WithProperProtocol: the diagnostic flushes the input at the start of every one of its five attempts (sds011_fix.py:29), after a 0.5 s pause; the model takes each such flush to discard nothing, so an attempt reads on from where the previous one stopped. Bytes a real flush would throw away between attempts, and a frame lost that way, are not modelled.
- Serial I/O: the port is a class holding the bytes the device will deliver. Opening is the only failure modelled. Other serial exceptions, and the "Error: ..." result they produce, are left out. The logger's single `flushInput` before its three reads (data_logger.py:143) is a no-op, because the stream is what arrives after that flush; the diagnostic's flush before each attempt is the line above. `flushOutput` discards nothing the model tracks. Port enumeration is a given sequence.
- DataLogger.ReadSds011: only the already-open connection the main loop passes is modelled, not the branch that opens and closes its own port. Values stay in integer tenths; the division by 10.0 is `Micrograms`, on reals.
- `time.sleep`, `datetime.now`, the HTTP lookup in `get_location` (latitude and longitude are parameters), the terminal output, and `draw_graph` with its float scaling.
- The module-level infinite logging loop, `continuous_test`, and the interactive `input()` of the diagnostic. One loop iteration after a read is `LogState.Log`.
- `compute_aqi` works on Python floats; the model uses exact reals, and `AqiOnSensorTenths` states the bands on the sensor's integer tenths.
- A negative `time_step` is not modelled; `timeStep` is a natural number.
- CsvReader.TryRead, CsvReader.CleanedRead, CsvReader.ReadIntendedOutcome, TrainingData.Load and TrainingData.LoadData follow the intended sample of up to 2000 lines, not the sampling as written. On a non-empty file under 2000 lines that no pandas call reads, the source stops with UnboundLocalError (see Findings); `CsvReader.ReadAsWritten` models that.
- CsvReader.ShortFileExample: the six pandas outcomes and the cleaned read's table are given, not derived from the example line.

## Findings

| source | as written | input that shows it | evidently intended | confidence | as-written member | corrected member |
|---|---|---|---|---|---|---|
| model_training.py:78-87 | The sample is a list comprehension of 2000 `next(f)` calls. On a shorter file, `StopIteration` escapes the comprehension and the handler swallows it. `sample_lines` is then never assigned, and `if sample_lines` raises UnboundLocalError instead of running the cleaner | any non-empty file under 2000 lines that all six pandas calls fail on; `ShortFileExample` takes a one-line file with an unbalanced quote, with the pandas failures given rather than derived | use all lines read when the file is shorter, as the comment beside the handler says, so the cleaner runs and never finds 0 rows in a non-empty file | high; not executed | CsvReader.ShortFileLeavesSampleUnbound | CsvReader.SampleIntended |
