/** Channel bookkeeping of the loader: the split of the decoded channels into the
    electrode (EXG) and accelerometer (IMU) streams, and the modality classifier behind
    `get_channels`. */
module Channels {
  import opened Wrappers
  import opened Text
  import opened Selection

  const AccelerometerMarker := "Accelerometer"

  /** A channel of the inertial (accelerometer) stream. */
  predicate IsImu(name: string) {
    Contains(name, AccelerometerMarker)
  }

  /** A channel of the electrode stream: every channel that is not an IMU channel. */
  predicate IsExg(name: string) {
    !IsImu(name)
  }

  /** The two index lists `readEDF` builds over the decoded channel names. */
  datatype Partition = Partition(imu: seq<nat>, exg: seq<nat>)

  /** Split the channel positions: each list ascends, the IMU list holds exactly the
      positions whose name contains the accelerometer marker, the EXG list exactly the
      others, and together they cover every position once. */
  function PartitionChannels(names: seq<string>): (p: Partition)
    ensures Increasing(p.imu) && Increasing(p.exg)
    ensures forall k :: 0 <= k < |p.imu| ==> p.imu[k] < |names|
    ensures forall k :: 0 <= k < |p.exg| ==> p.exg[k] < |names|
    ensures forall i :: 0 <= i < |names| ==> (i in p.imu <==> IsImu(names[i]))
    ensures forall i :: 0 <= i < |names| ==> (i in p.exg <==> !IsImu(names[i]))
    ensures |p.imu| + |p.exg| == |names|
  {
    var imu := IndicesWhere(names, IsImu);
    var exg := IndicesWhere(names, IsExg);
    ComplementCount(names, IsImu, IsExg);
    forall i | 0 <= i < |names| && i in imu
      ensures IsImu(names[i])
    {
      var k :| 0 <= k < |imu| && imu[k] == i;
    }
    forall i | 0 <= i < |names| && i in exg
      ensures !IsImu(names[i])
    {
      var k :| 0 <= k < |exg| && exg[k] == i;
    }
    Partition(imu, exg)
  }

  /** The names the EXG re-decode leaves out are exactly the IMU names, and the names
      the IMU re-decode leaves out are exactly the others. */
  lemma ExcludedNames(names: seq<string>)
    ensures var p := PartitionChannels(names);
            && (forall n :: n in Select(names, p.imu) <==> n in names && IsImu(n))
            && (forall n :: n in Select(names, p.exg) <==> n in names && !IsImu(n))
  {
    var p := PartitionChannels(names);
    var imuNames := Select(names, p.imu);
    var exgNames := Select(names, p.exg);
    forall n | n in names
      ensures IsImu(n) ==> n in imuNames
      ensures !IsImu(n) ==> n in exgNames
    {
      var i :| 0 <= i < |names| && names[i] == n;
      if IsImu(n) {
        var k :| 0 <= k < |p.imu| && p.imu[k] == i;
        assert imuNames[k] == n;
      } else {
        var k :| 0 <= k < |p.exg| && p.exg[k] == i;
        assert exgNames[k] == n;
      }
    }
  }

  /** The modalities `get_channels` recognises; EKG and ECG share one. */
  datatype Modality = Emg | Eeg | Eog | Cardiac

  /** The subset names the error message advertises. */
  const ValidSubsets := ["IMU", "ACCELEROMETER", "EMG", "EEG", "EOG", "EKG", "ECG", "EXG"]

  /** The subset names `get_channels` actually accepts, after upper-casing. */
  const Supported := ["EMG", "EEG", "EOG", "EKG", "ECG"]

  function ParseModality(subset: string): (r: Option<Modality>)
    ensures r.Some? <==> Upper(subset) in Supported
    ensures r == Some(Cardiac) <==> Upper(subset) == "EKG" || Upper(subset) == "ECG"
    ensures r.Some? ==> HasMarker(r.value, Upper(subset))
  {
    var s := Upper(subset);
    if s == "EMG" then Some(Emg)
    else if s == "EEG" then Some(Eeg)
    else if s == "EOG" then Some(Eog)
    else if s == "EKG" || s == "ECG" then Some(Cardiac)
    else None
  }

  /** The channel name carries the marker of modality `m`. */
  predicate HasMarker(m: Modality, name: string) {
    match m
    case Emg => Contains(name, "EMG")
    case Eeg => Contains(name, "EEG")
    case Eog => Contains(name, "EOG")
    case Cardiac => Contains(name, "EKG") || Contains(name, "ECG")
  }

  datatype ChannelError =
    | UnsupportedModality(subset: string, valid: seq<string>)
    | NotLoaded  // the channel list is unset: Python fails enumerating None

  /** `get_channels(subset)` over the electrode channel names (`None` until a decode
      succeeded). A supported subset yields the ascending positions whose name carries
      its marker; any other subset fails naming its upper-cased form; a supported subset
      over an unset list fails too. */
  function Classify(names: Option<seq<string>>, subset: string): (r: Result<seq<nat>, ChannelError>)
    ensures r.Success? <==> names.Some? && Upper(subset) in Supported
    ensures Upper(subset) !in Supported ==> r == Failure(UnsupportedModality(Upper(subset), ValidSubsets))
    ensures Upper(subset) in Supported && names.None? ==> r == Failure(NotLoaded)
    ensures r.Success? ==>
              && Increasing(r.value)
              && (forall k :: 0 <= k < |r.value| ==> r.value[k] < |names.value|)
              && (forall i :: 0 <= i < |names.value| ==>
                    (i in r.value <==> HasMarker(ParseModality(subset).value, names.value[i])))
  {
    match ParseModality(subset)
    case None => Failure(UnsupportedModality(Upper(subset), ValidSubsets))
    case Some(m) =>
      match names
      case None => Failure(NotLoaded)
      case Some(ns) =>
        var marked := (name: string) => HasMarker(m, name);
        var r := IndicesWhere(ns, marked);
        forall i | 0 <= i < |ns| && i in r
          ensures HasMarker(m, ns[i])
        {
          var k :| 0 <= k < |r| && r[k] == i;
        }
        Success(r)
  }

  /** The subset argument is case-insensitive. */
  lemma {:induction false} ClassifyIgnoresCase(names: Option<seq<string>>, subset: string)
    ensures Classify(names, subset) == Classify(names, Upper(subset))
  {
    UpperIdempotent(subset);
  }

  /** "EKG" and "ECG", in any letter case, select the same channels. */
  lemma CardiacAliases(names: seq<string>)
    ensures Classify(Some(names), "ekg") == Classify(Some(names), "ECG")
    ensures Classify(Some(names), "ekg").Success?
  {
    assert Upper("ekg") == "EKG";
    assert Upper("ECG") == "ECG";
  }

  /** IMU, ACCELEROMETER and EXG appear in the advertised list, yet each is refused. */
  lemma AdvertisedButRefused(names: Option<seq<string>>, subset: string)
    requires subset in ValidSubsets && subset !in Supported
    ensures Classify(names, subset) == Failure(UnsupportedModality(subset, ValidSubsets))
  {
    assert subset == "IMU" || subset == "ACCELEROMETER" || subset == "EXG";
    assert Upper("IMU") == "IMU";
    assert Upper("ACCELEROMETER") == "ACCELEROMETER";
    assert Upper("EXG") == "EXG";
  }

  /** "EEG1" and "EEG2" carry the EEG marker and "EMG1" does not. */
  lemma EegMarkers()
    ensures HasMarker(Eeg, "EEG1") && !HasMarker(Eeg, "EMG1") && HasMarker(Eeg, "EEG2")
  {
    var first, second, third := "EEG1", "EMG1", "EEG2";
    assert IsPrefix("EEG", first) && IsPrefix("EEG", third);
    PrefixIsContained(first, "EEG");
    PrefixIsContained(third, "EEG");
    ContainsIffOccurs(second, "EEG");
    forall i | 0 <= i <= |second|
      ensures !IsPrefix("EEG", second[i..])
    {
      if 3 <= |second[i..]| {
        assert second[i..][1] != 'E';
      }
    }
  }

  /** Over ["EEG1", "EMG1", "EEG2"], "EEG" selects positions 0 and 2. */
  lemma ClassifyExample()
    ensures Classify(Some(["EEG1", "EMG1", "EEG2"]), "EEG") == Success([0, 2])
  {
    var ns := ["EEG1", "EMG1", "EEG2"];
    assert Upper("EEG") == "EEG";
    assert ParseModality("EEG") == Some(Eeg);
    EegMarkers();
    var c := Classify(Some(ns), "EEG");
    assert c.Success?;
    var r := c.value;
    assert forall x :: x in r <==> x in [0, 2];
    IncreasingUnique(r, [0, 2]);
  }

  /** A subset outside the recognised five fails. */
  lemma UnknownSubsetFails(names: Option<seq<string>>)
    ensures Classify(names, "XYZ") == Failure(UnsupportedModality("XYZ", ValidSubsets))
  {
    assert Upper("XYZ") == "XYZ";
  }
}
