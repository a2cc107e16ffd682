/** The DataObj loader: where the recording lives, the object and its fields, and the
    `readEDF` state machine that fills them from the decoder's output. The EDF decoder
    itself is a parameter (`Decoder`): the model only fixes what it returns. */
module Loader {
  import opened Wrappers
  import opened Paths
  import opened Annotations
  import opened Channels
  import opened Selection
  import opened Text

  /** What one decoder call returns: the signals channel by channel (one row of
      samples per channel), the sample times, the sampling rate, the channel names and
      the annotation list. */
  datatype Raw = Raw(
    signals: seq<seq<real>>,
    times: seq<real>,
    sfreq: real,
    chNames: seq<string>,
    annotations: seq<Annotation>)

  /** One row of samples per channel name, each as long as the time vector. */
  predicate WellShaped(raw: Raw) {
    |raw.signals| == |raw.chNames| &&
    forall c :: 0 <= c < |raw.signals| ==> |raw.signals[c]| == |raw.times|
  }

  type Decoded = raw: Raw | WellShaped(raw) witness Raw([], [], 0.0, [], [])

  /** The EDF decoder: a file path and the channel names to exclude give either the
      decoded recording or the message of the exception it raised. */
  type Decoder = (string, seq<string>) -> Result<Decoded, string>

  /** The channel label the first decode excludes. */
  const NotApplicable := "N.A"

  const MicrovoltsPerVolt: real := 1000000.0

  /** A sample matrix: rows are samples, columns are channels. */
  datatype Matrix = Matrix(rows: nat, columns: nat, cells: seq<seq<real>>)

  predicate WellFormed(m: Matrix) {
    |m.cells| == m.rows && forall i :: 0 <= i < m.rows ==> |m.cells[i]| == m.columns
  }

  /** The stored data matrix: the decoded signals transposed to one row per sample and
      scaled from volts to microvolts. */
  function Microvolts(raw: Decoded): (m: Matrix)
    ensures WellFormed(m)
    ensures m.rows == |raw.times| && m.columns == |raw.chNames|
    ensures forall i, j :: 0 <= i < m.rows && 0 <= j < m.columns ==>
              m.cells[i][j] == raw.signals[j][i] * MicrovoltsPerVolt
  {
    Matrix(|raw.times|, |raw.chNames|,
      seq(|raw.times|, i requires 0 <= i < |raw.times| =>
        seq(|raw.chNames|, j requires 0 <= j < |raw.chNames| => raw.signals[j][i] * MicrovoltsPerVolt)))
  }

  /** The four fields of one stream (EXG or IMU): data, time vector, sampling rate and
      channel names. */
  datatype Stream = Stream(
    data: Option<Matrix>,
    times: Option<seq<real>>,
    sfreq: Option<real>,
    names: Option<seq<string>>)

  const NoStream := Stream(None, None, None, None)

  /** A populated stream has one time per data row and one name per data column. */
  predicate Consistent(s: Stream) {
    s.data.Some? ==>
      && s.times.Some? && s.sfreq.Some? && s.names.Some?
      && WellFormed(s.data.value)
      && s.data.value.rows == |s.times.value|
      && s.data.value.columns == |s.names.value|
  }

  /** The stream fields read off one decode. */
  function StreamOf(raw: Decoded): (s: Stream)
    ensures Consistent(s)
    ensures s.data.Some? && s.names == Some(raw.chNames) && s.times == Some(raw.times)
  {
    Stream(Some(Microvolts(raw)), Some(raw.times), Some(raw.sfreq), Some(raw.chNames))
  }

  /** Where the recording lives. */
  datatype Location = Location(filepath: string, filename: string)

  datatype LoadError =
    | InvalidLocation         // the path/name combination names no file
    | Raised(message: string) // an exception of a re-decode, propagated to the caller

  /** The location rules of the constructor. Without a name the path is the file and
      its basename the name; a name equal to the path's basename keeps the path; a name
      beside a directory path is joined onto it; anything else is refused. `isDir`
      stands for the file-system query on the path. */
  function ResolveLocation(filepath: string, filename: Option<string>, isDir: bool): (r: Result<Location, LoadError>)
    ensures r.Success? <==> filename.None? || filename.value == Basename(filepath) || isDir
    ensures r.Failure? ==> r.error == InvalidLocation
    ensures r.Success? ==> r.value.filename == if filename.None? then Basename(filepath) else filename.value
    ensures r.Success? ==>
              r.value.filepath ==
                if filename.None? || filename.value == Basename(filepath) then filepath
                else Join(filepath, filename.value)
  {
    match filename
    case None => Success(Location(filepath, Basename(filepath)))
    case Some(name) =>
      if name == Basename(filepath) then Success(Location(filepath, name))
      else if isDir then Success(Location(Join(filepath, name), name))
      else Failure(InvalidLocation)
  }

  /** A resolved location's name is the basename of its path whenever the given name
      (if any) holds no '/'. */
  lemma FilenameIsBasename(filepath: string, filename: Option<string>, isDir: bool)
    requires ResolveLocation(filepath, filename, isDir).Success?
    requires filename.Some? ==> '/' !in filename.value
    ensures var loc := ResolveLocation(filepath, filename, isDir).value;
            Basename(loc.filepath) == loc.filename
  {
    if filename.Some? && filename.value != Basename(filepath) {
      BasenameOfJoin(filepath, filename.value);
    }
  }

  /** A given name holding a '/' is stored whole beside the joined path, so the stored
      name is then not the basename of the stored path. */
  lemma NameWithSlashIsNotBasename()
    ensures ResolveLocation("data", Some("session/rec.edf"), true)
              == Success(Location("data/session/rec.edf", "session/rec.edf"))
    ensures Basename("data/session/rec.edf") != "session/rec.edf"
  {
    JoinedNameWithSlash();
    assert Basename("data") == "data" by {
      BasenameUnique("data", "data");
    }
    assert "session/rec.edf"[7] == '/';
  }

  /** A directory whose own basename equals the given name is taken for the file
      itself: nothing is joined. */
  lemma DirectoryNamedLikeFile()
    ensures ResolveLocation("/data/rec.edf", Some("rec.edf"), true) == Success(Location("/data/rec.edf", "rec.edf"))
  {
    BasenameUnique("/data/rec.edf", "rec.edf");
  }

  /** How one `readEDF` call ended: loaded in some format, stopped because the first
      decode raised (reported and swallowed), or stopped because a re-decode raised
      (propagated). */
  datatype ReadStatus =
    | Loaded(format: EdfFormat)
    | ParseFailed(message: string)
    | DecodeRaised(message: string)

  class DataObj {
    var filepath: string
    var filename: string
    var dataExg: Option<Matrix>
    var dataImu: Option<Matrix>
    var tsExg: Option<seq<real>>
    var tsImu: Option<seq<real>>
    var fsExg: Option<real>
    var fsImu: Option<real>
    var chNamesExg: Option<seq<string>>
    var chNamesImu: Option<seq<string>>
    var annotations: Option<seq<Annotation>>
    var montage: Option<string>
    var dau: Option<string>
    var appVer: Option<string>

    function Exg(): Stream
      reads this`dataExg, this`tsExg, this`fsExg, this`chNamesExg
    {
      Stream(dataExg, tsExg, fsExg, chNamesExg)
    }

    function Imu(): Stream
      reads this`dataImu, this`tsImu, this`fsImu, this`chNamesImu
    {
      Stream(dataImu, tsImu, fsImu, chNamesImu)
    }

    function Meta(): Metadata
      reads this`montage, this`dau, this`appVer
    {
      Metadata(montage, dau, appVer)
    }

    /** Each populated stream is consistent in its shape. */
    predicate Valid()
      reads this`dataExg, this`tsExg, this`fsExg, this`chNamesExg
      reads this`dataImu, this`tsImu, this`fsImu, this`chNamesImu
    {
      Consistent(Exg()) && Consistent(Imu())
    }

    /** The state before any successful decode: every data and metadata field unset. */
    predicate Unloaded()
      reads this
    {
      Exg() == NoStream && Imu() == NoStream && annotations.None? && Meta() == NoMetadata
    }

    /** The object at a resolved location, before reading the file. */
    constructor (loc: Location)
      ensures filepath == loc.filepath && filename == loc.filename
      ensures Unloaded() && Valid()
    {
      filepath, filename := loc.filepath, loc.filename;
      dataExg, dataImu := None, None;
      tsExg, tsImu := None, None;
      fsExg, fsImu := None, None;
      chNamesExg, chNamesImu := None, None;
      annotations := None;
      montage, dau, appVer := None, None, None;
    }

    /** `readEDF`. A failing first decode is reported and changes nothing. Otherwise the
        triggers are stored, the metadata lookups run in order over all descriptions,
        and the format they decide picks the streams: in the new format the file is
        decoded twice more, once without the IMU channels and once without the others
        (a failure there propagates, after the annotations and metadata were set); in
        the old format the IMU data, times and rate are unset, the IMU names are left
        as they were, and the first decode is the EXG stream. */
    method ReadEdf(decode: Decoder) returns (status: ReadStatus)
      requires Valid()
      modifies this
      ensures Valid()
      ensures filepath == old(filepath) && filename == old(filename)
      ensures decode(filepath, [NotApplicable]).Failure? ==>
                status == ParseFailed(decode(filepath, [NotApplicable]).error) && unchanged(this)
      ensures decode(filepath, [NotApplicable]).Success? ==>
                Ingested(decode(filepath, [NotApplicable]).value, decode, status, old(Exg()), old(Imu()), old(Meta()))
    {
      var first := decode(filepath, [NotApplicable]);
      if first.Failure? {
        return ParseFailed(first.error);
      }
      status := Ingest(first.value, decode);
    }

    /** The state `readEDF` leaves after a successful first decode `raw`, given the
        streams and metadata held before: the triggers are stored, the metadata is what
        detection over all descriptions sets, and the detected format picks the streams. */
    ghost predicate Ingested(raw: Decoded, decode: Decoder, status: ReadStatus,
                             prevExg: Stream, prevImu: Stream, prevMeta: Metadata)
      reads this
    {
      var det := Detect(Descriptions(raw.annotations), prevMeta);
      && annotations == Some(FilterAnnotations(raw.annotations))
      && Meta() == det.meta
      && StreamsLoaded(raw, decode, det.format, status, prevExg, prevImu)
    }

    /** The streams after loading in `format`. Old format: the first decode is the EXG
        stream, the IMU data, times and rate are unset and the IMU names stay. New
        format: the EXG re-decode (without the IMU channels) and then the IMU re-decode
        (without the others) give the two streams; the first of them to raise leaves
        both streams as they were. */
    ghost predicate StreamsLoaded(raw: Decoded, decode: Decoder, format: EdfFormat, status: ReadStatus,
                                  prevExg: Stream, prevImu: Stream)
      reads this
    {
      && (format == OldFormat ==>
            && status == Loaded(OldFormat)
            && Exg() == StreamOf(raw)
            && Imu() == Stream(None, None, None, prevImu.names))
      && (format == NewFormat ==>
            var p := PartitionChannels(raw.chNames);
            var exgDecode := decode(filepath, Select(raw.chNames, p.imu));
            var imuDecode := decode(filepath, Select(raw.chNames, p.exg));
            if exgDecode.Failure? then
              status == DecodeRaised(exgDecode.error) && Exg() == prevExg && Imu() == prevImu
            else if imuDecode.Failure? then
              status == DecodeRaised(imuDecode.error) && Exg() == prevExg && Imu() == prevImu
            else
              && status == Loaded(NewFormat)
              && Exg() == StreamOf(exgDecode.value)
              && Imu() == StreamOf(imuDecode.value))
    }

    /** Everything `readEDF` does after a successful first decode. */
    method Ingest(raw: Decoded, decode: Decoder) returns (status: ReadStatus)
      requires Valid()
      modifies this`annotations, this`montage, this`dau, this`appVer
      modifies this`dataExg, this`tsExg, this`fsExg, this`chNamesExg
      modifies this`dataImu, this`tsImu, this`fsImu, this`chNamesImu
      ensures Valid()
      ensures Ingested(raw, decode, status, old(Exg()), old(Imu()), old(Meta()))
    {
      ghost var prevExg, prevImu := Exg(), Imu();
      annotations := Some(FilterAnnotations(raw.annotations));
      var format := DetectFormat(Descriptions(raw.annotations));
      assert Exg() == prevExg && Imu() == prevImu && Valid();
      ghost var meta := Meta();
      status := LoadStreams(raw, decode, format);
      assert Meta() == meta;
    }

    /** The stream part of `readEDF`, once the format is known. */
    method LoadStreams(raw: Decoded, decode: Decoder, format: EdfFormat) returns (status: ReadStatus)
      requires Valid()
      modifies this`dataExg, this`tsExg, this`fsExg, this`chNamesExg
      modifies this`dataImu, this`tsImu, this`fsImu, this`chNamesImu
      ensures Valid()
      ensures StreamsLoaded(raw, decode, format, status, old(Exg()), old(Imu()))
    {
      if format == NewFormat {
        status := LoadSeparateStreams(raw, decode);
      } else {
        LoadSingleStream(raw);
        status := Loaded(OldFormat);
      }
    }

    /** New format: decode again without the IMU channels for the EXG stream, then
        again without the other channels for the IMU stream; a raising decode stops
        the sequence and leaves both streams as they were. */
    method LoadSeparateStreams(raw: Decoded, decode: Decoder) returns (status: ReadStatus)
      requires Valid()
      modifies this`dataExg, this`tsExg, this`fsExg, this`chNamesExg
      modifies this`dataImu, this`tsImu, this`fsImu, this`chNamesImu
      ensures Valid()
      ensures var p := PartitionChannels(raw.chNames);
              var exgDecode := decode(filepath, Select(raw.chNames, p.imu));
              var imuDecode := decode(filepath, Select(raw.chNames, p.exg));
              if exgDecode.Failure? then
                status == DecodeRaised(exgDecode.error) && Exg() == old(Exg()) && Imu() == old(Imu())
              else if imuDecode.Failure? then
                status == DecodeRaised(imuDecode.error) && Exg() == old(Exg()) && Imu() == old(Imu())
              else
                && status == Loaded(NewFormat)
                && Exg() == StreamOf(exgDecode.value)
                && Imu() == StreamOf(imuDecode.value)
    {
      var p := PartitionChannels(raw.chNames);
      var exgDecode := decode(filepath, Select(raw.chNames, p.imu));
      if exgDecode.Failure? {
        return DecodeRaised(exgDecode.error);
      }
      var imuDecode := decode(filepath, Select(raw.chNames, p.exg));
      if imuDecode.Failure? {
        return DecodeRaised(imuDecode.error);
      }
      StoreImu(imuDecode.value);
      StoreExg(exgDecode.value);
      status := Loaded(NewFormat);
    }

    /** Old format: no IMU stream (its names are left as they were), and the first
        decode is the EXG stream. */
    method LoadSingleStream(raw: Decoded)
      modifies this`dataExg, this`tsExg, this`fsExg, this`chNamesExg
      modifies this`dataImu, this`tsImu, this`fsImu
      ensures Valid()
      ensures Exg() == StreamOf(raw)
      ensures Imu() == Stream(None, None, None, old(chNamesImu))
    {
      dataImu := None;
      tsImu := None;
      fsImu := None;
      StoreExg(raw);
    }

    /** The three metadata lookups, in order: each field is assigned as soon as its
        lookup succeeds, and the first lookup that fails stops the sequence. */
    method DetectFormat(descs: seq<string>) returns (format: EdfFormat)
      modifies this`montage, this`dau, this`appVer
      ensures Meta() == Detect(descs, old(Meta())).meta
      ensures format == Detect(descs, old(Meta())).format
    {
      format := OldFormat;
      var foundMontage := Lookup(descs, MontagePrefix);
      if foundMontage.Some? {
        montage := foundMontage;
        var foundDau := Lookup(descs, DauPrefix);
        if foundDau.Some? {
          dau := foundDau;
          var foundAppVer := Lookup(descs, AppVersionPrefix);
          if foundAppVer.Some? {
            appVer := foundAppVer;
            format := NewFormat;
          }
        }
      }
    }

    /** The EXG fields read off one decode. */
    method StoreExg(exg: Decoded)
      modifies this`dataExg, this`tsExg, this`fsExg, this`chNamesExg
      ensures Exg() == StreamOf(exg)
    {
      dataExg := Some(Microvolts(exg));
      tsExg := Some(exg.times);
      fsExg := Some(exg.sfreq);
      chNamesExg := Some(exg.chNames);
    }

    /** The IMU fields read off one decode. */
    method StoreImu(imu: Decoded)
      modifies this`dataImu, this`tsImu, this`fsImu, this`chNamesImu
      ensures Imu() == StreamOf(imu)
    {
      dataImu := Some(Microvolts(imu));
      tsImu := Some(imu.times);
      fsImu := Some(imu.sfreq);
      chNamesImu := Some(imu.chNames);
    }

    /** `get_channels` over this object's electrode channel names. */
    function GetChannels(subset: string): (r: Result<seq<nat>, ChannelError>)
      reads this
      ensures r.Success? <==> chNamesExg.Some? && Upper(subset) in Supported
      ensures Upper(subset) !in Supported ==> r == Failure(UnsupportedModality(Upper(subset), ValidSubsets))
      ensures Upper(subset) in Supported && chNamesExg.None? ==> r == Failure(NotLoaded)
      ensures r.Success? ==>
                && Increasing(r.value)
                && forall i :: 0 <= i < |chNamesExg.value| ==>
                     (i in r.value <==> HasMarker(ParseModality(subset).value, chNamesExg.value[i]))
      ensures r.Success? ==> forall k :: 0 <= k < |r.value| ==> r.value[k] < |chNamesExg.value|
    {
      Classify(chNamesExg, subset)
    }

    /** Construction: resolve the location (refusing an invalid one), start with every
        field unset, then read the file. A failing first decode leaves an unloaded
        object; a failing re-decode makes construction fail. */
    static method Open(filepath: string, filename: Option<string>, isDir: bool, decode: Decoder)
      returns (r: Result<DataObj, LoadError>)
      ensures ResolveLocation(filepath, filename, isDir).Failure? ==> r == Failure(InvalidLocation)
      ensures r.Success? ==>
                && fresh(r.value) && r.value.Valid()
                && ResolveLocation(filepath, filename, isDir) == Success(Location(r.value.filepath, r.value.filename))
      ensures ResolveLocation(filepath, filename, isDir).Success? ==>
                var loc := ResolveLocation(filepath, filename, isDir).value;
                var first := decode(loc.filepath, [NotApplicable]);
                && (first.Failure? ==> r.Success? && r.value.Unloaded())
                && (first.Success? ==>
                      var raw := first.value;
                      var det := Detect(Descriptions(raw.annotations), NoMetadata);
                      && (det.format == OldFormat ==>
                            && r.Success?
                            && r.value.annotations == Some(FilterAnnotations(raw.annotations))
                            && r.value.Meta() == det.meta
                            && r.value.Exg() == StreamOf(raw)
                            && r.value.Imu() == NoStream)
                      && (det.format == NewFormat ==>
                            var p := PartitionChannels(raw.chNames);
                            var exgDecode := decode(loc.filepath, Select(raw.chNames, p.imu));
                            var imuDecode := decode(loc.filepath, Select(raw.chNames, p.exg));
                            && (r.Success? <==> exgDecode.Success? && imuDecode.Success?)
                            && (r.Failure? ==>
                                  r.error == Raised(if exgDecode.Failure? then exgDecode.error else imuDecode.error))
                            && (r.Success? ==>
                                  && r.value.annotations == Some(FilterAnnotations(raw.annotations))
                                  && r.value.Meta() == det.meta
                                  && r.value.Exg() == StreamOf(exgDecode.value)
                                  && r.value.Imu() == StreamOf(imuDecode.value))))
    {
      var resolved := ResolveLocation(filepath, filename, isDir);
      if resolved.Failure? {
        return Failure(InvalidLocation);
      }
      var obj := new DataObj(resolved.value);
      var status := obj.ReadEdf(decode);
      if status.DecodeRaised? {
        return Failure(Raised(status.message));
      }
      r := Success(obj);
    }
  }
}
