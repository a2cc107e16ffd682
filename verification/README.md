# DataObj loader — a Dafny model

`DataObj` loads a European Data Format (EDF) biosignal recording into one object. It
resolves where the file lives and decodes it with an external EDF library. It keeps the
user-meaningful annotations and tells the older recording format from the newer one by
three metadata annotations (montage, DAU number, app version). In the new format it
decodes the electrode (EXG) and accelerometer (IMU) channels separately. `get_channels`
then maps a modality name (EMG, EEG, EOG, EKG/ECG) to the positions of the matching
electrode channels.

This project models that class in Dafny:

- `text.dfy` (module `Text`): Python's substring test `sub in s`, written as a scan
  (`Contains`) and proved equal to the "occurs at some position" definition. It also
  holds `str.upper()` on ASCII letters and Python's lenient slice `s[n:]`.
- `selection.dfy` (module `Selection`): the list comprehensions the loader uses.
  `IndicesWhere` is `[n for n, x in enumerate(xs) if keep(x)]`, `Filter` is
  `[x for x in xs if keep(x)]` and `Select` is `[xs[n] for n in idx]`. The module
  proves that filtering means selecting the kept positions in ascending order.
- `paths.dfy` (module `Paths`): POSIX `os.path.basename` and `os.path.join`.
- `annotations.dfy` (module `Annotations`): the annotation filter, the metadata
  lookup and format detection.
- `channels.dfy` (module `Channels`): the EXG/IMU split and the modality classifier.
- `loader.dfy` (module `Loader`): location resolution and the class `DataObj`. The
  class has one field per attribute of the Python object, except the two filter
  attributes that are never read. `ReadEdf` and its steps update those fields in
  place. The static method `Open` is the whole constructor: resolving the location,
  setting every field unset, then reading the file.

The EDF decoder is the parameter `decode: Decoder`. It takes a path and the list of
channel names to exclude. It returns either the decoded recording or the message of
the exception it raised. A decoded recording holds the signals, the sample times, the
sampling rate, the channel names and the (onset, description) annotations. Its shape
is trusted: one signal row per channel name, each as long as the time vector. The
file-system test `os.path.isdir` is the boolean parameter `isDir`.

Behaviour kept as the code has it:

- Format detection reads the descriptions of all decoded annotations, not the
  filtered ones.
- A metadata value is the first description that contains the prefix, with its first
  `len(prefix)` characters removed. The prefix does not have to be at the start.
- The montage and DAU fields are set as soon as their lookups succeed. A later
  missing prefix gives the old format with those fields still set.
- In the old format `ch_names_imu` is not reset.
- The two re-decodes of the new format exclude only the other stream's channels. They
  do not exclude the "N.A" label.
- A failing re-decode propagates out of construction after the annotations and
  metadata were set. A failing first decode changes nothing.
- `get_channels` on an object whose decode failed fails for a supported subset.
  Python enumerates `None` there. An unsupported subset fails regardless.

Consequences of the code that a reader might not expect:

- The name is not always the basename of the path. A name holding a '/' is joined
  whole onto the directory (`Loader.NameWithSlashIsNotBasename`). `Loader.FilenameIsBasename`
  proves the property for names without a '/'.
- A directory path is not joined with a name equal to the directory's own basename.
  That path is kept as it is (`Loader.DirectoryNamedLikeFile`).
- Metadata fields can be set in the old format (`Annotations.PartialHitSetsMontage`).
- The error message of `get_channels` lists IMU, ACCELEROMETER and EXG as valid
  subsets, yet all three are refused (`Channels.AdvertisedButRefused`).

## Model

| member | source | states |
|---|---|---|
| `Loader.ResolveLocation` | DataObj/DataObj.py:17-29 | Resolution succeeds exactly when no name is given, the name equals the path's basename, or the path is a directory. Without a name, the name is the path's basename and the path is kept. A name equal to the basename keeps the path. Otherwise the name is joined onto the directory path. Any other input fails with InvalidLocation. |
| `Loader.FilenameIsBasename` | DataObj/DataObj.py:17-27 | After a successful resolution the stored name is the basename of the stored path, whenever the given name holds no '/'. |
| `Loader.DirectoryNamedLikeFile` | DataObj/DataObj.py:24-25 | A directory path whose basename equals the given name is kept unjoined. |
| `Paths.Basename` | DataObj/DataObj.py:18 | The basename is the longest suffix of the path without a '/'. |
| `Paths.BasenameOfJoin` | DataObj/DataObj.py:27 | Joining a directory with a slash-free name gives back that name as basename. |
| `Paths.JoinedNameWithSlash` | DataObj/DataObj.py:27 | Joining "data" with "session/rec.edf" keeps the whole name after one separator, and the basename of the result is only the last segment "rec.edf". |
| `Loader.NameWithSlashIsNotBasename` | DataObj/DataObj.py:23-27 | A directory "data" with the name "session/rec.edf" resolves to the path "data/session/rec.edf" with the name stored whole. That name is not the basename of the stored path. |
| `Paths.Join` | DataObj/DataObj.py:27 | The joined path ends with the name. An absolute name, or an empty directory, gives the name itself. Otherwise the path starts with the directory and has exactly one '/' before the name, added only when the directory does not already end with one, so the length is that of the directory and the name plus one or zero. |
| `Loader.DataObj.constructor` | DataObj/DataObj.py:31-45 | A new object keeps the resolved path and name and has every data, annotation and metadata field unset. |
| `Loader.DataObj.Open` | DataObj/DataObj.py:7-48 | An invalid location fails with InvalidLocation. A failing first decode gives an object with every field unset. In the old format the object holds the triggers, the first decode as EXG stream, no IMU stream and the detected metadata. In the new format construction succeeds exactly when both re-decodes succeed, and then holds both re-decoded streams. Otherwise it fails with the error of the first re-decode that failed: the EXG one if it failed, else the IMU one. |
| `Loader.DataObj.ReadEdf` | DataObj/DataObj.py:114-163 | A failing first decode changes no field and reports its message. Otherwise the state is what `Ingested` describes: triggers stored, metadata as detected, streams as the format decides. The stream shapes stay consistent throughout. |
| `Loader.DataObj.Ingest` | DataObj/DataObj.py:121-163 | After a successful first decode: the triggers are stored, the metadata equals the detection result over all descriptions, and the streams are loaded for the detected format. |
| `Loader.DataObj.DetectFormat` | DataObj/DataObj.py:126-135 | The three lookups, run in order with early exit, leave the metadata fields and the format exactly as `Detect` gives them from the previous fields. |
| `Loader.DataObj.LoadStreams` | DataObj/DataObj.py:137-163 | Old format: the first decode becomes the EXG stream, and IMU data, times and rate are unset with IMU names untouched. New format: the two re-decodes give the streams, and the first one that fails leaves both streams unchanged. |
| `Loader.DataObj.LoadSeparateStreams` | DataObj/DataObj.py:140-149 | The EXG re-decode excludes the IMU names and the IMU re-decode excludes the others. On success each stream is read off its own re-decode; on the first failure neither stream changes. |
| `Loader.DataObj.LoadSingleStream` | DataObj/DataObj.py:151-163 | The EXG stream is the first decode; IMU data, times and rate are unset and the IMU names stay. |
| `Loader.DataObj.StoreExg` | DataObj/DataObj.py:159-163 | The EXG data, times, rate and names are read off one decode. |
| `Loader.DataObj.StoreImu` | DataObj/DataObj.py:145-149 | The IMU data, times, rate and names are read off one decode. |
| `Loader.Microvolts` | DataObj/DataObj.py:160 | The stored matrix has one row per sample and one column per channel. Cell (i, j) is sample i of channel j times 1,000,000. |
| `Loader.StreamOf` | DataObj/DataObj.py:159-163 | A stream read off a decode is consistent: one time per data row and one name per data column. |
| `Annotations.FilterAnnotationsKeepsTriggers` | DataObj/DataObj.py:122-124 | `Annotations.FilterAnnotations`, the stored annotations, are the decoded ones at exactly the positions whose description contains neither "File started" nor "Change mode" and whose onset is positive, in ascending order. The result is never longer than the input. |
| `Annotations.FilterExample` | DataObj/DataObj.py:122-124 | [(0,"File started"), (5,"Change mode"), (10,"EventA"), (-1,"EventB")] filters to [(10,"EventA")]. |
| `Annotations.LookupFindsFirst` | DataObj/DataObj.py:129-131 | `Annotations.Lookup` fails exactly when no description contains the prefix. Otherwise its value is the first such description with its first len(prefix) characters dropped. |
| `Annotations.LookupAfterPrefix` | DataObj/DataObj.py:129 | When the first matching description starts with the prefix, the value is exactly the text after it. |
| `Annotations.LookupCutsByLength` | DataObj/DataObj.py:129 | A prefix in the middle of a description leaves part of the prefix in the value: "id montageSku: X" yields "u: X". |
| `Annotations.DetectSpec` | DataObj/DataObj.py:126-135 | For `Annotations.Detect`, the format is new exactly when all three prefixes occur in some description. The montage is set when its prefix occurs, the DAU when the montage and DAU prefixes occur, the app version only in the new format. Each set field is its lookup's value, and every other field keeps its previous value. |
| `Annotations.NoMetadataStaysUnset` | DataObj/DataObj.py:126-135 | Without any metadata prefix, unset fields stay unset and the format is old. |
| `Annotations.PartialHitSetsMontage` | DataObj/DataObj.py:129-135 | A montage annotation alone gives the old format with the montage set. |
| `Channels.PartitionChannels` | DataObj/DataObj.py:140-141 | Both index lists ascend. The IMU list holds exactly the positions whose name contains "Accelerometer" and the EXG list exactly the others. Together they cover every position once. |
| `Channels.ExcludedNames` | DataObj/DataObj.py:142-143 | The EXG re-decode excludes exactly the accelerometer names and the IMU re-decode exactly the other names. |
| `Channels.Classify` | DataObj/DataObj.py:169-197 | Success exactly for a loaded name list and an upper-cased subset among EMG, EEG, EOG, EKG, ECG. The result ascends and holds exactly the positions whose name carries the subset's marker; EKG and ECG share the marker "EKG" or "ECG". Another subset fails naming its upper-cased form and the advertised list. A supported subset over an unloaded list fails with NotLoaded. |
| `Channels.ClassifyIgnoresCase` | DataObj/DataObj.py:180 | Classifying a subset gives the same result as classifying its upper-cased form. |
| `Channels.CardiacAliases` | DataObj/DataObj.py:187-188 | "ekg" and "ECG" select the same channels. |
| `Channels.AdvertisedButRefused` | DataObj/DataObj.py:178-195 | IMU, ACCELEROMETER and EXG are in the advertised list of valid subsets, yet each is refused. |
| `Channels.ClassifyExample` | DataObj/DataObj.py:183-184 | Over ["EEG1", "EMG1", "EEG2"], "EEG" selects [0, 2]. |
| `Channels.UnknownSubsetFails` | DataObj/DataObj.py:194-195 | "XYZ" fails with UnsupportedModality. |
| `Text.ContainsIffOccurs` | DataObj/DataObj.py:124 | The scan `Text.Contains`, Python's `in` on strings, holds exactly when the substring occurs at some position. |
| `Text.DropFront` | DataObj/DataObj.py:129-131 | Python's `s[n:]` has length `len(s) - n`, or 0 when `n` is past the end. It holds the characters from position `n` on, so `s` is its first `n` characters followed by the result. |
| `Text.Upper` | DataObj/DataObj.py:180 | Upper-casing keeps the length, leaves no lower-case ASCII letter, moves each lower-case letter to its capital and keeps every other character. |
| `Channels.ParseModality` | DataObj/DataObj.py:180-188 | A subset is recognised exactly when its upper-cased form is one of EMG, EEG, EOG, EKG, ECG. EKG and ECG, and only they, give the cardiac modality. The upper-cased subset name itself carries the marker of the modality it is parsed to. |
| `Loader.DataObj.GetChannels` | DataObj/DataObj.py:169-197 | On the object's EXG channel names: success exactly when the names are loaded and the upper-cased subset is supported. The result ascends, is within range and holds exactly the positions whose name carries the subset's marker. An unsupported subset fails naming its upper-cased form and the advertised list. A supported subset on an unloaded object fails with NotLoaded. |
| `Selection.IndicesWhere` | DataObj/DataObj.py:140-141 | An enumerate-comprehension yields ascending positions, each within range and kept, and includes every kept position. |
| `Selection.FilterIsSelection` | DataObj/DataObj.py:122-124 | A filtering comprehension equals selecting the kept positions in ascending order. |
| `Selection.FilterHead` | DataObj/DataObj.py:129-131 | The filter is empty exactly when nothing is kept. Otherwise its first element is the element at the least kept position. |
| `Selection.ComplementCount` | DataObj/DataObj.py:140-141 | The index lists for a condition and its negation are together as long as the input. |

## Left out

- EDF decoding (`mne.io.read_raw_edf`) is the `Decoder` parameter. The model does not
  describe its internals. Its output shape is assumed, not checked.
- Sample values, times and rates are exact reals. Floating-point rounding of the
  1,000,000 scaling is not modelled. NaN onsets are not representable.
- The message printed when the first decode fails is not printed. It is returned in
  `ParseFailed` instead, and `Open` drops it as the constructor does.
- `os.path.isdir` is the `isDir` parameter. Paths follow POSIX rules only.
- The text of the constructor's location exception is not kept. The error is the
  constant `InvalidLocation`.
- `filters_exg` and `filters_imu` are set to `None` and never used again, so they are
  not fields of the model.
- Text.Upper: upper-cases ASCII letters only. Python's `str.upper()` also maps other
  letters, none of which can turn a subset into one of the five recognised names.
- Aliasing of the channel-name lists between the object and the decoder's result is
  not modelled. The fields hold values.
- The commented-out pyEDFlib reading path in `readEDF` is not modelled, and neither are
  the commented-out decimation calls, the commented-out `decimate` routine and the
  commented-out EXG/IMU branches of `get_channels`.
- `setup.py` is packaging metadata and is not part of this model.
