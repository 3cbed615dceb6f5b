# pyGNSSParser, modelled in Dafny

pyGNSSParser compares logs recorded side by side by several Android phones with
Google's GNSSLogger app. The model covers its two core steps.

* **Reading one log file** (`ParseGNSSLogs`, module `ParseLogFile`). Each line
  is classified, in this order:
  * a line containing `# Version:` is the device header; tokens 2, 4 and 6 and
    the slice `[8:-1]` of its space-split are kept as the device metadata;
  * a line containing `Fix` is a location record; it is split on commas, the
    tag is dropped, and so is a final `"\n"` field;
  * a line containing `NMEA` is a sentence line; only the talkers `GP` and `GN`
    at `line[6:8]` are fed to the GPS decoder, as the characters of
    `line[5:-1]`;
  * any other line is ignored.

  Whenever an NMEA line changes the decoder's timestamp, a snapshot of the GPS
  decoder is appended to `gnss_data`. Snapshots of the two idle decoders
  (GLONASS, BeiDou) are appended to `glo_data` and `bdo_data` at the same
  moment. The class is a Dafny `class` with the same fields. `ParseLogFile`
  is a loop proved equal to the specification function `Run`, a fold of
  `ProcessLine` over the lines. All the file-level properties are lemmas about
  `Run`.
* **Aligning several logs** (`GNSSParser`, module `GNSSParser`).
  `parse_few_logs_simultaneously` proceeds in these steps:
  * It parses every file and takes each log's first and last epoch timestamps.
  * The common window runs from the latest start (`max`) to the earliest stop
    (`min`), comparing `[h, m, s]` lists lexicographically.
  * It records every index stamped with the common start or the common end, in
    every log.
  * It counts the epochs of the window as `(eh-sh)*3600 + (em-sm)*60 + (es-ss)`.
  * It fills per-log rows over the aligned epochs:
    * HDOP;
    * satellites in use;
    * mean SNR over the satellites that report one;
    * fix type;
    * latitude and longitude error against a reference position.

  The method is proved to leave the object in the state described by
  `Aggregated`, which is stated in terms of specification functions (common
  window, offsets, rows). Those functions have their own lemmas.

The MicropyGPS decoder is not part of this model. A decoder is a `GpsState`
value holding the fields the aggregator reads. It is advanced by a
caller-supplied `step` function, one character at a time (`update(c)`). Every
result therefore holds for any decoder.

Behaviours of the code that the model keeps as written:

* The indices matching the common *end* are appended to `stop_times_list`,
  after the stop timestamps. `end_comp_cnts` stays empty. Entries of
  `stop_times_list` are the sum type `StopEntry`.
* `start_comp_cnts` gets every index stamped with the common start, in every
  log. A log that repeats that timestamp shifts the offsets used for the logs
  after it (`RepeatedStartShiftsOffsets`). When every log has the timestamp
  exactly once, offset i belongs to log i (`UniqueStartOffsets`).
* `add_line` is set inside the epoch loop and tested after it. A log's cn0
  row is therefore kept exactly when its last aligned epoch has an SNR mean.
  The window has the same length for every log, so the flag never carries
  over from one log to the next.
* A line holding both `Fix` and `NMEA` is a Fix record. A header line is only
  ever a header.
* Python exceptions are preconditions of the members where they would be
  raised:
  * a header with fewer than 7 tokens;
  * a Fix line without a comma;
  * an empty log;
  * no logs at all;
  * an aligned index past the end of a log.

## Model

| member | source | states |
|---|---|---|
| Text.Split | parseLogFile.py:49 | `str.split(sep)` yields one more piece than there are separators |
| Text.SplitJoin | parseLogFile.py:94 | joining the split pieces with the separator gives back the line |
| Text.SplitPiecesFree | parseLogFile.py:49 | no piece of a split contains the separator |
| Text.PySlice | parseLogFile.py:53 | a Python slice never fails and is never longer than the sequence |
| Text.SliceDropsHeadAndLast | parseLogFile.py:103 | `line[5:-1]` is the text from index 5 to before the last character; it is empty for lines of at most 6 characters |
| Text.TwoCharWindow | parseLogFile.py:102 | `line[6:8] == code` exactly when the line has those two characters at indices 6 and 7 |
| MicropyGps.FeedAppend | parseLogFile.py:103-104 | feeding the decoder two strings in turn equals feeding their concatenation |
| ParseLogFile.HeaderFieldsAreTokens | parseLogFile.py:48-53 | version, platform, manufacturer and every model element are whole space-free tokens of the header |
| ParseLogFile.FixRecordRebuildsLine | parseLogFile.py:93-99 | a Fix record loses only the tag and a final line-terminator field: re-joining them gives the line |
| ParseLogFile.NmeaSnapshotRule | parseLogFile.py:100-117 | an NMEA line appends a snapshot to all three epoch lists exactly when the GPS decoder's timestamp changed; otherwise the log is unchanged; a line with another talker changes nothing |
| ParseLogFile.OtherLineIgnored | parseLogFile.py:69-117 | a line with none of the three markers changes neither decoders nor log |
| ParseLogFile.RunKeepsEpochListsAligned | parseLogFile.py:114-117 | the three epoch lists stay equally long; GLONASS and BeiDou entries are the untouched initial decoders |
| ParseLogFile.RunOnlyAppends | parseLogFile.py:93-117 | epochs and Fix records already collected are never altered: the old lists are prefixes of the new |
| ParseLogFile.RunCollectsFixRecords | parseLogFile.py:93-99 | the Fix records are exactly those of the Fix lines, in file order |
| ParseLogFile.RunFeedsAcceptedSentences | parseLogFile.py:100-104 | the GPS decoder ends in the state reached by feeding it the concatenated sentences of the GP/GN NMEA lines, in order |
| ParseLogFile.RunEpochsBoundedByAcceptedLines | parseLogFile.py:100-115 | a file adds at most one epoch per accepted NMEA line |
| ParseLogFile.RunEpochsTrackTimestamp | parseLogFile.py:101-115 | the last epoch carries the decoder's current timestamp; the first differs from the initial one; adjacent epochs never share a timestamp |
| ParseLogFile.RunWithoutHeaderKeepsInfo | parseLogFile.py:69-70 | a file without a header line leaves the device metadata unchanged |
| ParseLogFile.RunLastHeaderWins | parseLogFile.py:69-70 | with several header lines, the metadata is that of the last one |
| ParseLogFile.ParseGNSSLogs.constructor | parseLogFile.py:35-44 | all lists empty, all device metadata None |
| ParseLogFile.ParseGNSSLogs.ParseInfoLine | parseLogFile.py:48-53 | sets version, platform and manufacturer to tokens 2, 4, 6 and the model to tokens `[8:-1]`; the epoch and Fix lists are unchanged |
| ParseLogFile.ParseGNSSLogs.ParseLogFile | parseLogFile.py:60-118 | the object's contents become the fold `Run` of the lines from fresh decoders over the previous contents; raw data untouched |
| ParseLogFile.ParsedFileInvariants | parseLogFile.py:114-117 | a freshly parsed file has equally long epoch lists and no two adjacent epochs with the same timestamp |
| GNSSParser.MaxTime | GNSSParser.py:76 | `max` of the start times is one of them and no start time exceeds it in list order |
| GNSSParser.MinTime | GNSSParser.py:77 | `min` of the stop times is one of them and no stop time precedes it |
| GNSSParser.OrderIsSeconds | GNSSParser.py:76-77 | on valid clock readings, list order and equality coincide with seconds since midnight |
| GNSSParser.CommonWindowBounds | GNSSParser.py:73-77 | every log starts no later than the common start and stops no earlier than the common end; some log starts at it, some log stops at it |
| GNSSParser.MatchesExact | GNSSParser.py:80-82 | the indices recorded for a log are exactly its epochs stamped with the timestamp, strictly ascending |
| GNSSParser.MatchesOfUnique | GNSSParser.py:80-82 | when one epoch carries the timestamp, its index is the only one recorded |
| GNSSParser.StampedOnceMatches | GNSSParser.py:80-82 | a log stamped once with the timestamp contributes exactly one index, pointing at that epoch |
| GNSSParser.UniqueStartOffsets | GNSSParser.py:79-82 | if every log has the common start exactly once, entry i of `start_comp_cnts` indexes log i's start epoch |
| GNSSParser.RepeatedStartShiftsOffsets | GNSSParser.py:79-82 | a log repeating the start timestamp makes `start_comp_cnts` `[0, 2, 0]`, so the next log is read at the wrong offset |
| GNSSParser.FindOffsets | GNSSParser.py:79-84 | the nested loop collects, log by log, all indices stamped with the common start and with the common end |
| GNSSParser.EpochCountSign | GNSSParser.py:86-88 | the epoch count is non-negative exactly when start is not after end, and zero exactly when they are equal |
| GNSSParser.TicksSeconds | GNSSParser.py:86-88 | n one-second ticks of a valid clock add n seconds and stay valid |
| GNSSParser.TicksReachEnd | GNSSParser.py:86-88 | ticking the epoch count of seconds from the common start lands on the common end |
| GNSSParser.AlignedEpochsPrecedeEnd | GNSSParser.py:90-93 | for a 1 Hz log, every aligned epoch is before the common end: the rows cover [start, end) |
| GNSSParser.WindowExample | GNSSParser.py:76-88 | three logs starting 14:58:10/15/12 and stopping 15:02:00, 15:01:50, 15:01:55 share 215 epochs |
| GNSSParser.BuildSeries | GNSSParser.py:90-100 | one row per log, `range(count)` long, element j taken from epoch `start_comp_cnts[i] + j` (HDOP, satellites in use, and fix type at lines 123-127) |
| GNSSParser.AverageSnr | GNSSParser.py:106-118 | the loop's result is the mean of the present SNR values, None when there is none |
| GNSSParser.MeanSnrAbsentIff | GNSSParser.py:108-118 | the mean is None exactly when no satellite reports an SNR |
| GNSSParser.SnrSumBounds | GNSSParser.py:108-112 | the SNR sum lies between count times the lowest and count times the highest SNR |
| GNSSParser.MeanSnrBetween | GNSSParser.py:113-115 | the mean lies between the lowest and highest reported SNR |
| GNSSParser.MeanSnrSkipsAbsent | GNSSParser.py:108-115 | SNRs None, 35.2, 41.0 average to 38.1: absent values are not counted |
| GNSSParser.KeptCn0RowsBound | GNSSParser.py:102-121 | at most one cn0 row per log, each spanning the aligned epochs |
| GNSSParser.BuildCn0Rows | GNSSParser.py:102-121 | `cn0ms` holds, in log order, the SNR-mean row of each log whose last aligned epoch has a mean; `hist_counter` is their number, at most the number of logs |
| GNSSParser.DecimalDegreesInDegree | GNSSParser.py:134-138 | with minutes in [0, 60), the decimal value stays within the named degree |
| GNSSParser.ErrorExample | GNSSParser.py:133-145 | 55 deg 59.016 min and 37 deg 12.57 min against (55.983528048, 37.209562621) give errors 0.000071952 and -0.000062621 |
| GNSSParser.BuildErrors | GNSSParser.py:129-148 | one latitude and one longitude error row per log: empty when the reference is [0, 0, 0], else decoded decimal degrees minus the reference at each aligned epoch |
| GNSSParser.AlignLogs | GNSSParser.py:76-148 | the window, offsets, count and every series form the alignment of the logs; also returns every index stamped with the common end |
| GNSSParser.GNSSParser.constructor | GNSSParser.py:32-60 | counters zero, every list empty |
| GNSSParser.GNSSParser.ReadLogs | GNSSParser.py:70-74 | `number_of_logs` is the file count, `parsed_files` the parse of each file, and the start/stop lists their first/last timestamps |
| GNSSParser.GNSSParser.Aggregate | GNSSParser.py:76-148 | the series fields hold the alignment of the parsed logs; `stop_times_list` gets the end-matching indices appended |
| GNSSParser.GNSSParser.ParseFewLogsSimultaneously | GNSSParser.py:69-148 | from a fresh object, leaves exactly the state `Aggregated`: parsed logs, start and stop lists (with end indices appended), empty `end_comp_cnts`, and the alignment |

## Left out

- The MicropyGPS decoder (sentence parsing, checksums, field conversion) is not part of this model. It is the `step` parameter, and the properties hold for every decoder.
- File I/O: a file is given as its sequence of lines, line terminators included. UTF-8 decoding is not modelled.
- `parse_few_logs_simultaneously` parses each file three times (GNSSParser.py:72-74). Parsing is deterministic, so the model parses each file once and reads all three results from that parse.
- `parsed_files` holds whole `ParseGNSSLogs` objects in the source. The model keeps only their `gnss_data`, the only part the aggregator reads.
- The `fix` namedtuple (`fix._make`) is not modelled, because `LogStructures` is not part of this model. A Fix record is its list of fields, and a field count other than the namedtuple's arity is not rejected.
- The raw-measurement branch and the GLONASS/BeiDou feeding are commented out in the source and are not modelled. `raw_data` is never written.
- Plotting and saving figures (the `plot_*` methods, matplotlib, numpy arrays) are out of scope. A numpy row is a sequence of `Option<real>`.
- Floating point: HDOP, SNR, angles and errors are reals, so rounding is not modelled.
- Timestamps have integer seconds. The decoder's fractional seconds and `int()` truncation in the epoch count are not modelled.
- A window that crosses midnight is not modelled: the epoch count is then negative, the rows are empty, and only the lemmas on valid clocks say anything.
- The hemisphere letter of an angle is not applied to the decimal degrees, as in the source.
- The decoded altitude is read in the source but never used; it is not read in the model.
- `hdops`, `sv_in_use` and `stats` elements are singleton lists `[x]` in the source. The model stores `x`.
- `GNSSParser.GNSSParser.ParseFewLogsSimultaneously` requires a freshly constructed object. A second call on the same object, which appends to the lists already filled, is not modelled.
- Python exceptions (IndexError on short headers, empty logs, offsets past a log's end, `max` of an empty list) are preconditions, not error results: the source does not handle them.
