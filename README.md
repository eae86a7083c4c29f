# PyEEGLab corpus catalog, converter signatures and TUH EEG dataset façade

This project models three pieces of the PyEEGLab library in Dafny and proves what they promise.

- **Catalog entries of the TUH EEG artifact corpus** (`ArtifactIndex`, with `Text` and `Regex` beneath it).
  - A recording's absolute path becomes a `File` row: the corpus root is cut off by length, the id is a name-based UUID of the relative path, and the extension comes from the last path segment.
  - The path-derived part of its `Metadata` row: the file id and the channel reference, which is the first path segment.
  - Its `.tse` annotation sidecar becomes `Event` rows. The sidecar text is scanned with `re.findall` of `^(\d+.\d+) (\d+.\d+) (\w+) (\d.\d+)$` under `re.MULTILINE`. Every match is converted with `float()`.
  - `Regex` holds a backtracking matcher for the fragment of `re` the pattern uses, proved sound and complete. It also holds `findall`, proved to read the text line by line.
- **Signatures of the converter steps** (`DataConverter`, with `Json` beneath it).
  - `ToDataframe.to_json` and `ToNumpy.to_json` are `json.dumps` of `{ClassName: {params}}`. They use the default `", "` and `": "` separators and `ensure_ascii`, with strings escaped as in section 7 of RFC 8259.
  - `Json` encodes such values and has a strict decoder for them.
  - The signatures are proved deterministic, ASCII, decodable back to the step's class name and parameters, and injective on strings without surrogate code points.
  - `ToNumpy.run` is proved to be an order-preserving map.
- **The TUH EEG dataset façade** (`TuhEegDataset`), a class whose fields the methods reassign as the Python object does.
  - `_initialize` keeps the loader's channels minus the excluded ones, sorted, and labels each recording.
  - Each `load*` builds the preprocessing configuration, calls one preprocessing operation and maps the labels to binary targets: 0 for `'normal'`, 1 otherwise.
  - `loadData` asks for the frequency `round(lowest / frames)`, rounded half to even.
  - `loadWeightedAdjsNoFrames` keeps only element 0 of what `getWeightedAdjs` returns for each recording.
  - `load` is `loadAdjs`.

Things the code cannot see become parameters:

- `uuid5(NAMESPACE_X500, ·)` is a function parameter.
- `uuid4()` is a function from the call's index to a value.
- Reading the sidecar is a function from a path to its text, `None` when it cannot be opened.
- The corpus loader is a `Loader` value.
- The `Preprocessor` operations are fields of a `Backend` value.

Two facts about the annotation parser shape the model:

- **Malformed annotation lines.** A line that matches the pattern but whose begin or end field `float()` rejects makes the whole call fail (`ArtifactIndex.MalformedLineRaises`). The unescaped `.` lets such a line match, for example `1 2 3.0 x 1.0`. Lines that do not match are skipped.
- **`begin <= end`.** The code never checks it, so the model does not claim it.

## Model

| member | source | states |
|---|---|---|
| ArtifactIndex.GetFile | pyeeglab/dataset/tuh_eeg_artifact/tuh_eeg_artifact_index.py:21-28 | The file's path is the input with its first `len(root)` characters dropped: `root + path` is the input when the root is a prefix of it, and the path is empty when the input is shorter than the root. The id is `uuid5` of that relative path. |
| ArtifactIndex.RootContentIgnored | pyeeglab/dataset/tuh_eeg_artifact/tuh_eeg_artifact_index.py:22-23 | Only the root's length matters: two roots of equal length give the same File row, since the dropped characters are never compared with the root. |
| ArtifactIndex.FileDependsOnRelativePath | pyeeglab/dataset/tuh_eeg_artifact/tuh_eeg_artifact_index.py:25 | Inputs leaving the same relative path give the same row, id included, whatever the root. |
| ArtifactIndex.ExtensionOfLastSegment | pyeeglab/dataset/tuh_eeg_artifact/tuh_eeg_artifact_index.py:23-26 | The extension is the longest dot-free suffix of the last segment: the text after its last `.`, or the whole segment when it has no `.`. That segment is the longest separator-free suffix of the relative path. |
| ArtifactIndex.PathJoin | pyeeglab/dataset/tuh_eeg_artifact/tuh_eeg_artifact_index.py:33 | `join(root, path)` ends with `path`. An absolute `path` replaces the root; otherwise the root is kept as a prefix. |
| ArtifactIndex.OpenRaw | pyeeglab/dataset/tuh_eeg_artifact/tuh_eeg_artifact_index.py:33 | The Raw handle keeps the file's id, and its path ends with the file's relative path. |
| ArtifactIndex.GetRecordMetadata | pyeeglab/dataset/tuh_eeg_artifact/tuh_eeg_artifact_index.py:32-38 | `file_id` is the file's id. The channel reference is a separator-free prefix of the path that ends at the first separator or at the end of the path, and it is empty exactly when the path is empty or starts with the separator. |
| ArtifactIndex.SidecarPath | pyeeglab/dataset/tuh_eeg_artifact/tuh_eeg_artifact_index.py:48 | The sidecar path ends with `.tse` and agrees with the recording path except for its last four characters. A path shorter than four characters gives just `.tse`. |
| ArtifactIndex.SidecarReplacesExtension | pyeeglab/dataset/tuh_eeg_artifact/tuh_eeg_artifact_index.py:47-48 | A recording `stem` plus a four-character extension has its sidecar at `stem.tse`. |
| ArtifactIndex.TsePatternLineLocal | pyeeglab/dataset/tuh_eeg_artifact/tuh_eeg_artifact_index.py:51-52 | No atom of the pattern accepts a newline, and the pattern starts by consuming a character. |
| ArtifactIndex.TseFindAll | pyeeglab/dataset/tuh_eeg_artifact/tuh_eeg_artifact_index.py:53 | `findall` never returns more matches than the text has lines. |
| ArtifactIndex.TseFindAllByLines | pyeeglab/dataset/tuh_eeg_artifact/tuh_eeg_artifact_index.py:53 | `findall` yields, in line order, the groups of each line of the text (split at `\n`) that matches the pattern. Each line gives one match or none, and non-matching lines are skipped. |
| ArtifactIndex.TseFindAllWellFormed | pyeeglab/dataset/tuh_eeg_artifact/tuh_eeg_artifact_index.py:52-53 | Every match's begin and end fields are digits, one other character, then digits. Its label is a non-empty string of word characters. |
| ArtifactIndex.TseLineGroups | pyeeglab/dataset/tuh_eeg_artifact/tuh_eeg_artifact_index.py:52 | A line made of a begin and an end field, each written as digits, one non-digit character other than a newline, then digits, followed by a word and a confidence field, all separated by single spaces, matches. Its four groups are exactly those fields. |
| ArtifactIndex.OneLineFindAll | pyeeglab/dataset/tuh_eeg_artifact/tuh_eeg_artifact_index.py:52-53 | A sidecar consisting of one such line (begin and end fields written as digits, one non-digit character, digits) yields exactly that line's four fields. |
| ArtifactIndex.SingleLineFindAll | pyeeglab/dataset/tuh_eeg_artifact/tuh_eeg_artifact_index.py:53 | A newline-free text that matches yields one match, its groups. |
| ArtifactIndex.CarriageReturnLineNeverMatches | pyeeglab/dataset/tuh_eeg_artifact/tuh_eeg_artifact_index.py:52 | A line ending in `\r` never matches, because `$` must follow a digit. |
| ArtifactIndex.FloatOfField | pyeeglab/dataset/tuh_eeg_artifact/tuh_eeg_artifact_index.py:58-60 | `float()` on a field the pattern lets through succeeds if and only if the field is all digits, or its middle character is `.`, `_`, `e` or `E`. A value it returns is never negative. |
| ArtifactIndex.FloatOfDigits | pyeeglab/dataset/tuh_eeg_artifact/tuh_eeg_artifact_index.py:58-59 | `float()` reads an all-digit field as the integer its digits spell. |
| ArtifactIndex.FloatOfPoint | pyeeglab/dataset/tuh_eeg_artifact/tuh_eeg_artifact_index.py:58-59 | `float()` reads `whole.frac` as the ratio of the integer spelled by its digits without the point to ten to the number of digits after the point. `Ratio`'s contract pins that value: multiplied back by that power of ten it gives the integer. |
| ArtifactIndex.FloatOfUnderscore | pyeeglab/dataset/tuh_eeg_artifact/tuh_eeg_artifact_index.py:58-59 | `float()` reads digits around an underscore as the integer spelled by the digits without it. |
| ArtifactIndex.FloatOfExponent | pyeeglab/dataset/tuh_eeg_artifact/tuh_eeg_artifact_index.py:58-59 | `float()` reads `mEe` or `mee` as `m` times ten to the power `e`. |
| ArtifactIndex.ParseFloat | pyeeglab/dataset/tuh_eeg_artifact/tuh_eeg_artifact_index.py:58-60 | The field parser accepts only a field the pattern can produce, and never returns a negative value. |
| ArtifactIndex.BadMarkRejected | pyeeglab/dataset/tuh_eeg_artifact/tuh_eeg_artifact_index.py:58 | Digits around a character other than `.`, `_`, `e` or `E` are let through by the pattern, but `float()` rejects them. |
| ArtifactIndex.FirstMatchRejected | pyeeglab/dataset/tuh_eeg_artifact/tuh_eeg_artifact_index.py:58-60 | When the only match has a begin field `float()` rejects, the call fails with that field. |
| ArtifactIndex.MalformedLineRaises | pyeeglab/dataset/tuh_eeg_artifact/tuh_eeg_artifact_index.py:52-60 | A sidecar whose line matches with a bad middle character in the begin field fails with `ValueError` on that field instead of skipping the line. |
| ArtifactIndex.EventsFrom | pyeeglab/dataset/tuh_eeg_artifact/tuh_eeg_artifact_index.py:54-64 | The comprehension gives one event per match, or a `ValueError` from `float()`. |
| ArtifactIndex.EventsFromOk | pyeeglab/dataset/tuh_eeg_artifact/tuh_eeg_artifact_index.py:54-64 | The comprehension succeeds if and only if every begin and end field parses as a float. |
| ArtifactIndex.EventsFromEvents | pyeeglab/dataset/tuh_eeg_artifact/tuh_eeg_artifact_index.py:55-63 | On success there is one event per match, and event j is built from match j. Its id is the (i+j)-th `uuid4()` and its file id is the recording's. Begin and end are fields 1 and 2 as floats, the duration is `end - begin` exactly, and the label is field 3. Field 4 is dropped. |
| ArtifactIndex.EventsFromFirstError | pyeeglab/dataset/tuh_eeg_artifact/tuh_eeg_artifact_index.py:58-60 | On failure, the error names the first rejected field in evaluation order: every earlier match parses, and a match's begin field is tried before its end field. |
| ArtifactIndex.EventsFromStart | pyeeglab/dataset/tuh_eeg_artifact/tuh_eeg_artifact_index.py:54-64 | From the first `uuid4()` call, the comprehension succeeds if and only if all fields parse, and then event j stands for match j with id `uuid4` number j. |
| ArtifactIndex.GetRecordEvents | pyeeglab/dataset/tuh_eeg_artifact/tuh_eeg_artifact_index.py:45-65 | The call fails with the sidecar's path if and only if the sidecar cannot be opened. When it opens and the call succeeds, there is one event per match of its text. |
| ArtifactIndex.RecordEventsUnreadable | pyeeglab/dataset/tuh_eeg_artifact/tuh_eeg_artifact_index.py:49-50 | When the sidecar cannot be opened, the call fails, naming the sidecar's path. |
| ArtifactIndex.RecordEvents | pyeeglab/dataset/tuh_eeg_artifact/tuh_eeg_artifact_index.py:45-65 | On a readable sidecar, the call succeeds if and only if every matched begin and end field is a float. Event j then stands for match j of the sidecar text, with the j-th `uuid4()` as its id and the recording's id as its file. |
| Regex.MatchSound | pyeeglab/dataset/tuh_eeg_artifact/tuh_eeg_artifact_index.py:52 | A match found by the backtracking matcher cuts the text into one piece per atom, each piece accepted by its atom. |
| Regex.MatchComplete | pyeeglab/dataset/tuh_eeg_artifact/tuh_eeg_artifact_index.py:52 | If any such cut exists, the matcher finds a match. |
| Regex.MatchIffFits | pyeeglab/dataset/tuh_eeg_artifact/tuh_eeg_artifact_index.py:52 | The matcher succeeds if and only if the pattern fits a prefix of the text. |
| Regex.GreedyLongest | pyeeglab/dataset/tuh_eeg_artifact/tuh_eeg_artifact_index.py:52 | Of the ways to cut a line, the engine reports the one whose `+` piece is longest: no longer run of the class leaves text the rest of the pattern fits, as `re`'s greedy backtracking chooses. |
| Regex.FitsWholeLine | pyeeglab/dataset/tuh_eeg_artifact/tuh_eeg_artifact_index.py:52 | On a newline-free line, a pattern ending in `$` covers the whole line. |
| Regex.FitsEndInClass | pyeeglab/dataset/tuh_eeg_artifact/tuh_eeg_artifact_index.py:52 | On such a line, a pattern ending in `k+$` matches only a line whose last character is in class `k`. |
| Regex.FindAllShaped | pyeeglab/dataset/tuh_eeg_artifact/tuh_eeg_artifact_index.py:53 | Every match `findall` returns is shaped by the pattern: one piece per atom, each accepted by its atom. |
| Regex.FindAllByLines | pyeeglab/dataset/tuh_eeg_artifact/tuh_eeg_artifact_index.py:53 | For a `^`-anchored pattern that cannot cross a newline, `findall` over the text equals the concatenation, in line order, of the match of each line. |
| Text.JoinSplit | pyeeglab/dataset/tuh_eeg_artifact/tuh_eeg_artifact_index.py:23 | Joining the pieces of `s.split(c)` with `c` gives back `s`. |
| Text.SplitJoin | pyeeglab/dataset/tuh_eeg_artifact/tuh_eeg_artifact_index.py:23 | Splitting the join of `c`-free pieces gives back the pieces. |
| Text.SplitPiecesFree | pyeeglab/dataset/tuh_eeg_artifact/tuh_eeg_artifact_index.py:23 | No piece of a split contains the separator. |
| Text.FirstPiece | pyeeglab/dataset/tuh_eeg_artifact/tuh_eeg_artifact_index.py:38 | The first piece is a separator-free prefix ending at the first separator or at the end. |
| Text.LastPiece | pyeeglab/dataset/tuh_eeg_artifact/tuh_eeg_artifact_index.py:26 | The last piece is the longest separator-free suffix. |
| Json.ParseQuoted | pyeeglab/preprocessing/data_converter.py:41 | The escaped body of any string, followed by its closing quote, reads back as that string. |
| Json.DecodeEncode | pyeeglab/preprocessing/data_converter.py:41 | Decoding `json.dumps(v)` gives back `v`. |
| Json.EncodeInjective | pyeeglab/preprocessing/data_converter.py:41 | Different values never share an encoding. |
| Json.EscapeAscii | pyeeglab/preprocessing/data_converter.py:41 | With `ensure_ascii`, each character's escape is plain ASCII. |
| Json.EncodeAscii | pyeeglab/preprocessing/data_converter.py:41 | `json.dumps` output is plain ASCII, whatever characters the value holds. |
| DataConverter.NewToNumpy | pyeeglab/preprocessing/data_converter.py:30-33 | `ToNumpy(dtype)` stores the element type unchanged, and `'float32'` is the default. |
| DataConverter.ToDataframeJson | pyeeglab/preprocessing/data_converter.py:18-21 | `ToDataframe.to_json()` is exactly `{"ToDataframe": {}}`. |
| DataConverter.ToNumpyJson | pyeeglab/preprocessing/data_converter.py:35-42 | `ToNumpy.to_json()` is `{"ToNumpy": {"dtype": `, then the JSON string literal of the element type, then `}}`. |
| DataConverter.ToJson | pyeeglab/preprocessing/data_converter.py:18-42 | A signature is plain ASCII, and decoding it gives the one-member object mapping the class name to the step's parameter object. |
| DataConverter.SignatureInjective | pyeeglab/preprocessing/data_converter.py:18-42 | Two steps have equal signatures if and only if they are equal. |
| DataConverter.DtypeDetermined | pyeeglab/preprocessing/data_converter.py:36-41 | Two `ToNumpy` signatures are equal if and only if their element types are. A `ToNumpy` signature never equals the `ToDataframe` one. |
| DataConverter.Run | pyeeglab/preprocessing/data_converter.py:44-46 | `run` fails if and only if converting some frame with the step's element type fails. Otherwise it returns one output per input, the i-th converted from the i-th. |
| TuhEegDataset.LessIrreflexive | pyeeglab/dataset/tuh_eeg/tuh_eeg_dataset.py:17 | Python's string order never puts a string before itself. |
| TuhEegDataset.LessTransitive | pyeeglab/dataset/tuh_eeg/tuh_eeg_dataset.py:17 | Python's string order is transitive. |
| TuhEegDataset.LessTotal | pyeeglab/dataset/tuh_eeg/tuh_eeg_dataset.py:17 | Of two different strings, one comes before the other. |
| TuhEegDataset.LessAsymmetric | pyeeglab/dataset/tuh_eeg/tuh_eeg_dataset.py:17 | No two strings each come before the other. |
| TuhEegDataset.SelectChannels | pyeeglab/dataset/tuh_eeg/tuh_eeg_dataset.py:16-17 | Every kept channel is one the loader lists and that is not excluded. |
| TuhEegDataset.SelectChannelsSpec | pyeeglab/dataset/tuh_eeg/tuh_eeg_dataset.py:16-17 | The kept channels are strictly sorted, so free of duplicates. A channel is kept if and only if the loader lists it and it is not excluded. |
| TuhEegDataset.SortedUnique | pyeeglab/dataset/tuh_eeg/tuh_eeg_dataset.py:17 | Two strictly sorted lists with the same elements are equal, so the selection is `sorted` of the set difference whatever the order of the input. |
| TuhEegDataset.LabelsOf | pyeeglab/dataset/tuh_eeg/tuh_eeg_dataset.py:15 | There is one label per recording. |
| TuhEegDataset.LabelsOfSpec | pyeeglab/dataset/tuh_eeg/tuh_eeg_dataset.py:15 | There is one label per recording, and label i is recording i's label. |
| TuhEegDataset.BinaryLabels | pyeeglab/dataset/tuh_eeg/tuh_eeg_dataset.py:29 | There is one target per label, and every target is 0 or 1. |
| TuhEegDataset.BinaryLabelsSpec | pyeeglab/dataset/tuh_eeg/tuh_eeg_dataset.py:29 | There is one target per label. Target i is 0 if and only if label i is `'normal'`, and 1 if and only if it is not. |
| TuhEegDataset.LabelColumnSpec | pyeeglab/dataset/tuh_eeg/tuh_eeg_dataset.py:30 | Reshaping to `(-1, 1)` gives one single-element row per target, holding that target. |
| TuhEegDataset.TargetColumnSpec | pyeeglab/dataset/tuh_eeg/tuh_eeg_dataset.py:29-30 | The target column has one row per label: `[0.0]` for `'normal'` and `[1.0]` for any other label. |
| TuhEegDataset.RoundHalfEven | pyeeglab/dataset/tuh_eeg/tuh_eeg_dataset.py:22 | `round` lands within one half of its argument. |
| TuhEegDataset.RoundHalfEvenSpec | pyeeglab/dataset/tuh_eeg/tuh_eeg_dataset.py:22 | `round` lands within one half of its argument, and on a tie the result is even. |
| TuhEegDataset.RoundHalfEvenNearest | pyeeglab/dataset/tuh_eeg/tuh_eeg_dataset.py:22 | No integer is closer to the argument than `round`'s result. |
| TuhEegDataset.FrameFrequency | pyeeglab/dataset/tuh_eeg/tuh_eeg_dataset.py:22 | The frequency fails if and only if `frames == 0`, and then with ZeroDivisionError. Otherwise it lies within one half of `lowest / frames`. |
| TuhEegDataset.FrameFrequencySpec | pyeeglab/dataset/tuh_eeg/tuh_eeg_dataset.py:22 | The frequency fails, with ZeroDivisionError, if and only if `frames == 0`. Otherwise no integer is closer to `lowest / frames`. |
| TuhEegDataset.FirstElements | pyeeglab/dataset/tuh_eeg/tuh_eeg_dataset.py:86 | `[d[0] for d in data]` gives one element per recording, or IndexError. |
| TuhEegDataset.FirstElementsSpec | pyeeglab/dataset/tuh_eeg/tuh_eeg_dataset.py:86 | `[d[0] for d in data]` succeeds if and only if no element is empty, and fails with IndexError otherwise. On success it keeps element 0 of each, in order. |
| TuhEegDataset.FirstFramesWithTargetsSpec | pyeeglab/dataset/tuh_eeg/tuh_eeg_dataset.py:84-86 | The no-frames output fails with IndexError exactly when some recording's data is empty. Otherwise it keeps element 0 of each recording's data and one flat integer target per label, 0 exactly for `'normal'`. |
| TuhEegDataset.InitializedSpec | pyeeglab/dataset/tuh_eeg/tuh_eeg_dataset.py:13-18 | After `_initialize`, the labels line up with the recordings. The channels are strictly sorted and are exactly the loader's channels that were not excluded. |
| TuhEegDataset.CorpusDataset.constructor | pyeeglab/dataset/tuh_eeg/tuh_eeg_dataset.py:10-11 | The dataset keeps the loader it was given (and the preprocessing operations). |
| TuhEegDataset.CorpusDataset.Initialize | pyeeglab/dataset/tuh_eeg/tuh_eeg_dataset.py:13-18 | Recordings, labels and channels are recomputed from the loader, the frequency becomes the loader's lowest, and the preprocessor is untouched. |
| TuhEegDataset.CorpusDataset.LoadData | pyeeglab/dataset/tuh_eeg/tuh_eeg_dataset.py:20-32 | Re-initialises the dataset. With zero frames it fails with ZeroDivisionError before the preprocessor is built. Otherwise the frequency becomes `round(lowest / frames)`, the preprocessor is built from it, and the result is the normalised data with the target column. |
| TuhEegDataset.CorpusDataset.LoadFrames | pyeeglab/dataset/tuh_eeg/tuh_eeg_dataset.py:34-45 | Re-initialises the dataset, keeps the lowest frequency, builds the preprocessor with the given frames, and returns the frames with the target column. |
| TuhEegDataset.CorpusDataset.LoadAdjs | pyeeglab/dataset/tuh_eeg/tuh_eeg_dataset.py:47-61 | The same, returning the adjacency matrices computed with `c`, `p1` and `p2` and the target column. |
| TuhEegDataset.CorpusDataset.LoadWeightedAdjs | pyeeglab/dataset/tuh_eeg/tuh_eeg_dataset.py:63-74 | The same, returning the weighted adjacency matrices with the target column. |
| TuhEegDataset.CorpusDataset.LoadWeightedAdjsNoFrames | pyeeglab/dataset/tuh_eeg/tuh_eeg_dataset.py:76-88 | Builds the preprocessor with zero frames. Returns element 0 of what `getWeightedAdjs` returns for each recording, with flat integer targets, or IndexError when that is empty for some recording. |
| TuhEegDataset.CorpusDataset.Load | pyeeglab/dataset/tuh_eeg/tuh_eeg_dataset.py:90-91 | Same new state and same result as `loadAdjs` with the same arguments. |

## Left out

- Opening the sidecar file is a parameter from a path to its text. Newline translation on reading (a `\r\n` file read in text mode) is not modelled: the text is taken as the parameter returns it.
- The SQLite store, the `Index` base class, the constructor's `self.index()` pass and logging are I/O in code that is not part of this model.
- `uuid5` and `uuid4` are parameters. The hashing of section 4.3 of RFC 4122 and the randomness of version 4 UUIDs are not modelled; `uuid4` is any function of the call's index.
- The `Metadata` columns read through `Raw.open()` (duration, channel count, channel set as `json.dumps(ch_names)`, sampling frequency, minimum and maximum) are MNE calls on the recording and floating point. Only `file_id` and `channels_reference` are modelled.
- `ToDataframe.run` calls pandas on the opened recording and is not modelled. `ToNumpy.run` takes the conversion `to_numpy(dtype=…)` as a parameter that may fail (numpy raising `TypeError` on an element type it does not understand); which element types numpy understands is not modelled, and the model reports the failure without numpy's exception or message.
- `os.path.sep` is `/`, and `join` follows `posixpath.join`; Windows paths are not modelled.
- `\d` and `\w` are read as their ASCII classes; the Unicode digits and letters Python's `re` also accepts in `str` patterns are not modelled.
- `float()` is computed exactly over the rationals on the field shapes the pattern lets through (digits around `.`, `_`, `e`/`E` or another digit). Binary floating-point rounding is not modelled, nor overflow to infinity (`float('1e400')` is `inf`; the model's value is exact).
- ArtifactIndex.FloatOfField: treats only ASCII `0`-`9` as digits. Python's `float()` also reads any other Unicode decimal digit (category Nd, such as U+0663 in `1٣5`, which gives 135.0), so the model rejects such a field where Python accepts it. The Unicode digit table is not modelled.
- ArtifactIndex.BadMarkRejected: stated only for an ASCII middle character, since a non-ASCII decimal digit there is accepted by Python's `float()`.
- ArtifactIndex.MalformedLineRaises: stated only for an ASCII middle character in the begin field, for the same reason.
- ArtifactIndex.TseLineGroups: stated only for begin and end fields written as digits, one non-digit character, digits. All-digit fields such as those of `100 200 seiz 1.0`, which the pattern also matches and the source parses, are not covered: the engine then has to split a field's own digits between the atoms, and where fields are separated by spaces the groups can be ambiguous (`123 456 789 w 1 2` has the groups `123 456` and `789`, not `123` and `456 789`).
- ArtifactIndex.OneLineFindAll: stated only for the same field shape as TseLineGroups, for the same reason; a sidecar line with all-digit begin or end fields is not covered.
- Json.DecodeEncode: the decoder reads only strings and objects (what signatures contain), not numbers, arrays, literals or lone surrogate escapes. Model strings are sequences of Unicode scalar values, so a Python string holding surrogate code points is outside the model: `json.loads(json.dumps('\ud83d\ude00'))` is `'\U0001F600'`, not the string dumped.
- Json.EncodeInjective: Model strings are sequences of Unicode scalar values; Python strings holding surrogate code points are outside the model. On them `json.dumps` is not injective: `'\ud83d\ude00'` and `'\U0001F600'` are both written `"\ud83d\ude00"`.
- DataConverter.ToJson: Model strings are sequences of Unicode scalar values; Python strings holding surrogate code points are outside the model. On such a dtype the signature decodes to a different dtype (the pair read as one character).
- DataConverter.SignatureInjective: Model strings are sequences of Unicode scalar values; Python strings holding surrogate code points are outside the model. On them two different steps share a signature: `ToNumpy('\ud83d\ude00')` and `ToNumpy('\U0001F600')` both give `{"ToNumpy": {"dtype": "\ud83d\ude00"}}`.
- DataConverter.DtypeDetermined: Model strings are sequences of Unicode scalar values; Python strings holding surrogate code points are outside the model. On them two different dtypes share a signature: `ToNumpy('\ud83d\ude00')` and `ToNumpy('\U0001F600')` both give `{"ToNumpy": {"dtype": "\ud83d\ude00"}}`.
- The preprocessing operations (`normalize`, `getFrames`, `getAdjs`, `getWeightedAdjs`), their caching by signature and the adjacency mathematics are parameters of the dataset (the `Backend` value). The numpy conversions `np.array`, `astype('float32')` and `astype('int32')` are left out: data stay as the operations return them, and targets are integers or reals.
- TuhEegDataset.CorpusDataset.constructor: the corpus loader's own reading of the corpus is not modelled; the constructor takes the `Loader` value it answers with. The fields Python leaves unset until `_initialize` start empty.
- `round(lowest / frames)` is computed over the reals with round-half-to-even; binary floating-point division is not modelled.
- The numeric arguments `tmax`, `c`, `p1` and `p2` are passed through as reals, and the data are one opaque element type shared by the preprocessing operations (`getWeightedAdjs` returns sequences of it).
