/**
 * The log reader: reads the lines of one GNSSLogger file, keeps the device header,
 * the raw "Fix" records and a snapshot of the NMEA decoder each time its timestamp
 * changes.
 */
module ParseLogFile {
  import opened Wrappers
  import opened Text
  import opened MicropyGps

  const VersionMarker: string := "# Version:"
  const FixMarker: string := "Fix"
  const NmeaMarker: string := "NMEA"

  /** Lines are classified in this order: header, then Fix record, then NMEA sentence. */
  predicate IsHeader(line: string) { Contains(line, VersionMarker) }

  predicate IsFixLine(line: string) { !IsHeader(line) && Contains(line, FixMarker) }

  predicate IsNmeaLine(line: string)
  {
    !IsHeader(line) && !Contains(line, FixMarker) && Contains(line, NmeaMarker)
  }

  /** `line[6:8]` is the talker identifier of the sentence; only GPS ("GP") and multi-constellation ("GN") are decoded. */
  predicate AcceptedTalker(line: string)
  {
    PySlice(line, 6, 8) == "GP" || PySlice(line, 6, 8) == "GN"
  }

  /** `line[5:-1]`: the sentence text after the "NMEA," tag, without the line terminator. */
  function Sentence(line: string): string
  {
    PySlice(line, 5, -1)
  }

  /**
   * The lines the reader handles without raising: a header needs at least seven
   * space-separated tokens (token 6 is read), a Fix record at least one comma
   * (otherwise nothing is left after the tag is dropped and `fix_list[-1]` fails).
   */
  predicate WellFormed(line: string)
  {
    && (IsHeader(line) ==> |Split(line, ' ')| >= 7)
    && (IsFixLine(line) ==> |Split(line, ',')| >= 2)
  }

  datatype DeviceInfo = DeviceInfo(
    version: Option<string>,
    platform: Option<string>,
    manufacturer: Option<string>,
    model: Option<seq<string>>)

  const NoDeviceInfo := DeviceInfo(None, None, None, None)

  /** Device metadata at fixed positions of a header line split on single spaces. */
  function HeaderInfo(line: string): DeviceInfo
    requires |Split(line, ' ')| >= 7
  {
    var tokens := Split(line, ' ');
    DeviceInfo(Some(tokens[2]), Some(tokens[4]), Some(tokens[6]), Some(PySlice(tokens, 8, -1)))
  }

  /** Every piece of metadata taken from a header is a whole token: it holds no space. */
  lemma HeaderFieldsAreTokens(line: string)
    requires |Split(line, ' ')| >= 7
    ensures var info := HeaderInfo(line);
      && ' ' !in info.version.value && ' ' !in info.platform.value && ' ' !in info.manufacturer.value
      && forall k :: 0 <= k < |info.model.value| ==> ' ' !in info.model.value[k]
  {
    var tokens := Split(line, ' ');
    SplitPiecesFree(line, ' ');
    var model := PySlice(tokens, 8, -1);
    forall k | 0 <= k < |model|
      ensures ' ' !in model[k]
    {
      assert model[k] == tokens[8 + k];
    }
  }

  /** A Fix record: the comma-separated fields without the leading tag and without a final "\n" field. */
  function FixFields(line: string): seq<string>
    requires |Split(line, ',')| >= 2
  {
    var fields := Split(line, ',')[1..];
    if fields[|fields| - 1] == "\n" then fields[..|fields| - 1] else fields
  }

  /** The field dropped at the end of a Fix line, if any. */
  function FixTrailer(line: string): seq<string>
    requires |Split(line, ',')| >= 2
  {
    var fields := Split(line, ',');
    if fields[|fields| - 1] == "\n" then ["\n"] else []
  }

  /** A Fix record loses only the tag and the line-terminator field: putting them back rebuilds the line. */
  lemma FixRecordRebuildsLine(line: string)
    requires |Split(line, ',')| >= 2
    ensures Join([Split(line, ',')[0]] + FixFields(line) + FixTrailer(line), ',') == line
  {
    var fields := Split(line, ',');
    assert [fields[0]] + FixFields(line) + FixTrailer(line) == fields;
    SplitJoin(line, ',');
  }

  /** What a parse accumulates: the fields of a ParseGNSSLogs object (raw_data aside). */
  datatype Log = Log(
    fixData: seq<seq<string>>,
    gnssData: seq<GpsState>,
    gloData: seq<GpsState>,
    bdoData: seq<GpsState>,
    info: DeviceInfo)

  const EmptyLog := Log([], [], [], [], NoDeviceInfo)

  /** The reader mid-file: the three decoders (GPS, GLONASS, BeiDou) and the log so far. */
  datatype Reader = Reader(gnss: GpsState, glo: GpsState, bdo: GpsState, log: Log)

  /** The effect of one line on the reader. */
  function ProcessLine(step: Step, r: Reader, line: string): Reader
    requires WellFormed(line)
  {
    if IsHeader(line) then
      r.(log := r.log.(info := HeaderInfo(line)))
    else if Contains(line, FixMarker) then
      r.(log := r.log.(fixData := r.log.fixData + [FixFields(line)]))
    else if Contains(line, NmeaMarker) then
      var g := if AcceptedTalker(line) then Feed(step, r.gnss, Sentence(line)) else r.gnss;
      if g.timestamp != r.gnss.timestamp then
        r.(gnss := g, log := r.log.(gnssData := r.log.gnssData + [g],
                                    gloData := r.log.gloData + [r.glo],
                                    bdoData := r.log.bdoData + [r.bdo]))
      else
        r.(gnss := g)
    else
      r
  }

  predicate AllWellFormed(lines: seq<string>)
  {
    forall k :: 0 <= k < |lines| ==> WellFormed(lines[k])
  }

  /** The reader after the lines, in order. */
  function Run(step: Step, r: Reader, lines: seq<string>): Reader
    requires AllWellFormed(lines)
  {
    if |lines| == 0 then r
    else ProcessLine(step, Run(step, r, lines[..|lines| - 1]), lines[|lines| - 1])
  }

  // ---------------------------------------------------------------------------
  // Reference definitions over a whole file

  /** The records the Fix lines produce, in file order. */
  function FixRecords(lines: seq<string>): seq<seq<string>>
    requires AllWellFormed(lines)
  {
    if |lines| == 0 then []
    else
      var last := lines[|lines| - 1];
      FixRecords(lines[..|lines| - 1]) + (if IsFixLine(last) then [FixFields(last)] else [])
  }

  /** The characters the GPS decoder is given: the sentences of the accepted NMEA lines, concatenated. */
  function DecoderInput(lines: seq<string>): string
  {
    if |lines| == 0 then ""
    else
      var last := lines[|lines| - 1];
      DecoderInput(lines[..|lines| - 1]) + (if IsNmeaLine(last) && AcceptedTalker(last) then Sentence(last) else "")
  }

  /** Number of NMEA lines with an accepted talker. */
  function AcceptedNmeaLines(lines: seq<string>): nat
  {
    if |lines| == 0 then 0
    else
      var last := lines[|lines| - 1];
      AcceptedNmeaLines(lines[..|lines| - 1]) + (if IsNmeaLine(last) && AcceptedTalker(last) then 1 else 0)
  }

  // ---------------------------------------------------------------------------
  // Properties of one line

  /** An NMEA line adds an epoch exactly when it changes the decoder's timestamp, and the epoch is the decoder's new state. */
  lemma NmeaSnapshotRule(step: Step, r: Reader, line: string)
    requires WellFormed(line) && IsNmeaLine(line)
    ensures var r' := ProcessLine(step, r, line);
      && (r'.gnss.timestamp != r.gnss.timestamp ==>
            r'.log == r.log.(gnssData := r.log.gnssData + [r'.gnss],
                             gloData := r.log.gloData + [r.glo],
                             bdoData := r.log.bdoData + [r.bdo]))
      && (r'.gnss.timestamp == r.gnss.timestamp ==> r'.log == r.log)
      && (!AcceptedTalker(line) ==> r' == r)
  {
  }

  /** A line carrying none of the three markers changes nothing. */
  lemma OtherLineIgnored(step: Step, r: Reader, line: string)
    requires !Contains(line, VersionMarker) && !Contains(line, FixMarker) && !Contains(line, NmeaMarker)
    ensures ProcessLine(step, r, line) == r
  {
  }

  // ---------------------------------------------------------------------------
  // Properties of a whole file

  /** The three epoch lists are appended together, so they stay equally long; the idle decoders never change. */
  lemma {:induction false} RunKeepsEpochListsAligned(step: Step, r: Reader, lines: seq<string>)
    requires AllWellFormed(lines)
    requires |r.log.gnssData| == |r.log.gloData| == |r.log.bdoData|
    ensures var r' := Run(step, r, lines);
      && |r'.log.gnssData| == |r'.log.gloData| == |r'.log.bdoData|
      && r'.glo == r.glo && r'.bdo == r.bdo
      && forall k :: |r.log.gloData| <= k < |r'.log.gloData| ==> r'.log.gloData[k] == r.glo && r'.log.bdoData[k] == r.bdo
  {
    if |lines| > 0 {
      RunKeepsEpochListsAligned(step, r, lines[..|lines| - 1]);
    }
  }

  /** Epochs and Fix records are only ever appended: what a file has produced so far is never altered. */
  lemma {:induction false} RunOnlyAppends(step: Step, r: Reader, lines: seq<string>)
    requires AllWellFormed(lines)
    ensures var r' := Run(step, r, lines);
      && r.log.gnssData <= r'.log.gnssData
      && r.log.gloData <= r'.log.gloData
      && r.log.bdoData <= r'.log.bdoData
      && r.log.fixData <= r'.log.fixData
  {
    if |lines| > 0 {
      RunOnlyAppends(step, r, lines[..|lines| - 1]);
    }
  }

  /** Each Fix line appends exactly its record, in file order, and nothing else appends to the Fix records. */
  lemma {:induction false} RunCollectsFixRecords(step: Step, r: Reader, lines: seq<string>)
    requires AllWellFormed(lines)
    ensures Run(step, r, lines).log.fixData == r.log.fixData + FixRecords(lines)
  {
    if |lines| > 0 {
      RunCollectsFixRecords(step, r, lines[..|lines| - 1]);
    }
  }

  /** The GPS decoder is fed exactly the sentences of the accepted NMEA lines, in order. */
  lemma {:induction false} RunFeedsAcceptedSentences(step: Step, r: Reader, lines: seq<string>)
    requires AllWellFormed(lines)
    ensures Run(step, r, lines).gnss == Feed(step, r.gnss, DecoderInput(lines))
  {
    if |lines| > 0 {
      var init := lines[..|lines| - 1];
      var last := lines[|lines| - 1];
      RunFeedsAcceptedSentences(step, r, init);
      if IsNmeaLine(last) && AcceptedTalker(last) {
        FeedAppend(step, r.gnss, DecoderInput(init), Sentence(last));
      } else {
        assert DecoderInput(lines) == DecoderInput(init) + "" == DecoderInput(init);
        assert Run(step, r, lines).gnss == Run(step, r, init).gnss;
      }
    }
  }

  /** Only NMEA lines with an accepted talker can add an epoch. */
  lemma {:induction false} RunEpochsBoundedByAcceptedLines(step: Step, r: Reader, lines: seq<string>)
    requires AllWellFormed(lines)
    ensures |Run(step, r, lines).log.gnssData| <= |r.log.gnssData| + AcceptedNmeaLines(lines)
  {
    if |lines| > 0 {
      RunEpochsBoundedByAcceptedLines(step, r, lines[..|lines| - 1]);
    }
  }

  /**
   * The epochs track the decoder's timestamp: the last epoch carries the decoder's
   * current timestamp, the first differs from the timestamp the decoder started with,
   * and no two adjacent epochs share a timestamp.
   */
  ghost predicate EpochsTrackTimestamp(r: Reader, t0: Timestamp)
  {
    var e := r.log.gnssData;
    && (|e| == 0 ==> r.gnss.timestamp == t0)
    && (|e| > 0 ==> e[|e| - 1].timestamp == r.gnss.timestamp && e[0].timestamp != t0)
    && forall k :: 0 <= k < |e| - 1 ==> e[k].timestamp != e[k + 1].timestamp
  }

  lemma {:induction false} RunEpochsTrackTimestamp(step: Step, r: Reader, lines: seq<string>, t0: Timestamp)
    requires AllWellFormed(lines)
    requires EpochsTrackTimestamp(r, t0)
    ensures EpochsTrackTimestamp(Run(step, r, lines), t0)
  {
    if |lines| > 0 {
      RunEpochsTrackTimestamp(step, r, lines[..|lines| - 1], t0);
    }
  }

  /** A file without a header line leaves the device metadata as it was (None after construction). */
  lemma {:induction false} RunWithoutHeaderKeepsInfo(step: Step, r: Reader, lines: seq<string>)
    requires AllWellFormed(lines)
    requires forall k :: 0 <= k < |lines| ==> !IsHeader(lines[k])
    ensures Run(step, r, lines).log.info == r.log.info
  {
    if |lines| > 0 {
      RunWithoutHeaderKeepsInfo(step, r, lines[..|lines| - 1]);
    }
  }

  /** When several header lines occur, the last one determines the device metadata. */
  lemma {:induction false} RunLastHeaderWins(step: Step, r: Reader, lines: seq<string>, h: nat)
    requires AllWellFormed(lines)
    requires h < |lines| && IsHeader(lines[h])
    requires forall k :: h < k < |lines| ==> !IsHeader(lines[k])
    ensures Run(step, r, lines).log.info == HeaderInfo(lines[h])
  {
    if h < |lines| - 1 {
      RunLastHeaderWins(step, r, lines[..|lines| - 1], h);
    }
  }

  // ---------------------------------------------------------------------------
  // The reader object

  class ParseGNSSLogs {
    var rawData: seq<seq<string>>
    var fixData: seq<seq<string>>
    var gnssData: seq<GpsState>
    var gloData: seq<GpsState>
    var bdoData: seq<GpsState>
    var deviceVersion: Option<string>
    var devicePlatform: Option<string>
    var deviceManufacturer: Option<string>
    var deviceModel: Option<seq<string>>

    /** The parsed content of this object. */
    function Contents(): Log
      reads this
    {
      Log(fixData, gnssData, gloData, bdoData,
          DeviceInfo(deviceVersion, devicePlatform, deviceManufacturer, deviceModel))
    }

    constructor ()
      ensures Contents() == EmptyLog && rawData == []
    {
      rawData, fixData, gnssData, gloData, bdoData := [], [], [], [], [];
      deviceVersion, devicePlatform, deviceManufacturer, deviceModel := None, None, None, None;
    }

    /** Reads the device metadata from a header line split on single spaces. */
    method ParseInfoLine(line: string)
      requires |Split(line, ' ')| >= 7
      modifies this
      ensures var tokens := Split(line, ' ');
        && deviceVersion == Some(tokens[2])
        && devicePlatform == Some(tokens[4])
        && deviceManufacturer == Some(tokens[6])
        && deviceModel == Some(PySlice(tokens, 8, -1))
      ensures fixData == old(fixData) && gnssData == old(gnssData) && gloData == old(gloData)
      ensures bdoData == old(bdoData) && rawData == old(rawData)
    {
      var lineList := Split(line, ' ');
      deviceVersion := Some(lineList[2]);
      devicePlatform := Some(lineList[4]);
      deviceManufacturer := Some(lineList[6]);
      deviceModel := Some(PySlice(lineList, 8, -1));
    }

    /**
     * Parses the lines of one file with fresh decoders in state `init`; the GPS
     * decoder consumes characters with `step`.
     */
    method ParseLogFile(lines: seq<string>, init: GpsState, step: Step)
      requires AllWellFormed(lines)
      modifies this
      ensures Contents() == Run(step, Reader(init, init, init, old(Contents())), lines).log
      ensures rawData == old(rawData)
    {
      var gnssNmeaSentence, gloNmeaSentence, bdoNmeaSentence := init, init, init;
      ghost var start := Reader(init, init, init, Contents());
      for n := 0 to |lines|
        invariant Reader(gnssNmeaSentence, gloNmeaSentence, bdoNmeaSentence, Contents())
                  == Run(step, start, lines[..n])
        invariant rawData == old(rawData)
      {
        var line := lines[n];
        assert lines[..n + 1][..n] == lines[..n];
        if Contains(line, VersionMarker) {
          ParseInfoLine(line);
        } else if Contains(line, FixMarker) {
          var fixList := Split(line, ',');
          fixList := fixList[1..];
          if fixList[|fixList| - 1] == "\n" {
            fixList := fixList[..|fixList| - 1];
          }
          fixData := fixData + [fixList];
        } else if Contains(line, NmeaMarker) {
          var timestampLocal := gnssNmeaSentence.timestamp;
          if PySlice(line, 6, 8) == "GP" || PySlice(line, 6, 8) == "GN" {
            var sentence := PySlice(line, 5, -1);
            ghost var before := gnssNmeaSentence;
            for i := 0 to |sentence|
              invariant gnssNmeaSentence == Feed(step, before, sentence[..i])
            {
              assert sentence[..i + 1][..i] == sentence[..i];
              gnssNmeaSentence := step(gnssNmeaSentence, sentence[i]);
            }
            assert sentence[..|sentence|] == sentence;
          }
          if gnssNmeaSentence.timestamp != timestampLocal {
            gnssData := gnssData + [gnssNmeaSentence];
            gloData := gloData + [gloNmeaSentence];
            bdoData := bdoData + [bdoNmeaSentence];
          }
        }
      }
      assert lines[..|lines|] == lines;
    }
  }

  /** A freshly parsed file: its three epoch lists are equally long and adjacent epochs have distinct timestamps. */
  lemma ParsedFileInvariants(step: Step, init: GpsState, lines: seq<string>)
    requires AllWellFormed(lines)
    ensures var log := Run(step, Reader(init, init, init, EmptyLog), lines).log;
      && |log.gnssData| == |log.gloData| == |log.bdoData|
      && forall k :: 0 <= k < |log.gnssData| - 1 ==> log.gnssData[k].timestamp != log.gnssData[k + 1].timestamp
  {
    RunKeepsEpochListsAligned(step, Reader(init, init, init, EmptyLog), lines);
    RunEpochsTrackTimestamp(step, Reader(init, init, init, EmptyLog), lines, init.timestamp);
  }
}
