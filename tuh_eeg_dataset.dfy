/**
 * The dataset façade over the TUH EEG corpus: it asks the corpus loader for
 * the recordings, their labels, the channel set and the lowest sampling
 * frequency, keeps the channels not excluded by the caller in sorted order,
 * runs one preprocessing operation, and maps the textual labels to the
 * binary targets `'normal' -> 0`, anything else `-> 1`.
 *
 * The loader and the preprocessing operations are parameters: their results
 * are taken as given, and what is proved is what the façade itself does
 * with them.
 */
module TuhEegDataset {
  import opened Wrappers

  // ---------------------------------------------------------------- channel order

  /** Python's `<` on strings: lexicographic by code point, a proper prefix first. */
  predicate Less(a: string, b: string)
    decreases |a|
  {
    if a == [] then b != []
    else if b == [] then false
    else if a[0] != b[0] then a[0] < b[0]
    else Less(a[1..], b[1..])
  }

  lemma {:induction false} LessIrreflexive(a: string)
    ensures !Less(a, a)
    decreases |a|
  {
    if a != [] {
      LessIrreflexive(a[1..]);
    }
  }

  lemma {:induction false} LessTransitive(a: string, b: string, c: string)
    requires Less(a, b) && Less(b, c)
    ensures Less(a, c)
    decreases |a|
  {
    if a != [] && a[0] == b[0] && b[0] == c[0] {
      LessTransitive(a[1..], b[1..], c[1..]);
    }
  }

  /** Two different strings are ordered one way or the other. */
  lemma {:induction false} LessTotal(a: string, b: string)
    requires a != b
    ensures Less(a, b) || Less(b, a)
    decreases |a|
  {
    if a != [] && b != [] && a[0] == b[0] {
      assert a == [a[0]] + a[1..] && b == [b[0]] + b[1..];
      LessTotal(a[1..], b[1..]);
    }
  }

  lemma {:induction false} LessAsymmetric(a: string, b: string)
    requires Less(a, b)
    ensures !Less(b, a)
    decreases |a|
  {
    if a != [] && a[0] == b[0] {
      LessAsymmetric(a[1..], b[1..]);
    }
  }

  /** Strictly increasing, so also free of duplicates. */
  predicate StrictlySorted(s: seq<string>)
  {
    forall i, j :: 0 <= i < j < |s| ==> Less(s[i], s[j])
  }

  /** `x` added to a strictly sorted list in its place, unless it is there already. */
  function Insert(x: string, s: seq<string>): seq<string>
  {
    if s == [] then [x]
    else if x == s[0] then s
    else if Less(x, s[0]) then [x] + s
    else [s[0]] + Insert(x, s[1..])
  }

  lemma {:induction false} InsertElements(x: string, s: seq<string>)
    ensures forall y :: y in Insert(x, s) <==> y == x || y in s
    decreases |s|
  {
    if s != [] && x != s[0] && !Less(x, s[0]) {
      InsertElements(x, s[1..]);
      assert s == [s[0]] + s[1..];
    }
  }

  lemma {:induction false} InsertSorted(x: string, s: seq<string>)
    requires StrictlySorted(s)
    ensures StrictlySorted(Insert(x, s))
    decreases |s|
  {
    if s == [] || x == s[0] {
    } else if Less(x, s[0]) {
      forall j | 0 < j < |s| ensures Less(x, s[j]) {
        LessTransitive(x, s[0], s[j]);
      }
    } else {
      var rest := Insert(x, s[1..]);
      LessTotal(x, s[0]);
      InsertSorted(x, s[1..]);
      InsertElements(x, s[1..]);
      forall k | 0 <= k < |rest| ensures Less(s[0], rest[k]) {
        assert rest[k] in rest;
      }
      SortedCons(s[0], rest);
    }
  }

  lemma SortedCons(x: string, s: seq<string>)
    requires StrictlySorted(s)
    requires forall k :: 0 <= k < |s| ==> Less(x, s[k])
    ensures StrictlySorted([x] + s)
  {
    var t := [x] + s;
    forall i, j | 0 <= i < j < |t| ensures Less(t[i], t[j]) {
      if i > 0 {
        assert t[i] == s[i - 1] && t[j] == s[j - 1];
      }
    }
  }

  /**
   * `sorted(set(all) - set(excluded))`, built one channel at a time: no
   * excluded channel and nothing the loader does not list is kept.
   */
  function SelectChannels(all: seq<string>, excluded: seq<string>): (r: seq<string>)
    ensures forall x :: x in r ==> x in all && x !in excluded
  {
    if all == [] then []
    else if all[0] in excluded then SelectChannels(all[1..], excluded)
    else
      InsertElements(all[0], SelectChannels(all[1..], excluded));
      Insert(all[0], SelectChannels(all[1..], excluded))
  }

  /**
   * The selected channels are strictly sorted, so free of duplicates, and
   * they are exactly the loader's channels that were not excluded.
   */
  lemma {:induction false} SelectChannelsSpec(all: seq<string>, excluded: seq<string>)
    ensures StrictlySorted(SelectChannels(all, excluded))
    ensures forall x :: x in SelectChannels(all, excluded) <==> x in all && x !in excluded
    decreases |all|
  {
    if all != [] {
      var rest := SelectChannels(all[1..], excluded);
      SelectChannelsSpec(all[1..], excluded);
      if all[0] !in excluded {
        InsertSorted(all[0], rest);
        InsertElements(all[0], rest);
      }
      assert all == [all[0]] + all[1..];
    }
  }

  /** A strictly sorted list is the only one with its elements: selection is `sorted` of the set. */
  lemma {:induction false} SortedUnique(s: seq<string>, t: seq<string>)
    requires StrictlySorted(s) && StrictlySorted(t)
    requires forall x :: x in s <==> x in t
    ensures s == t
    decreases |s|
  {
    if s != [] && t != [] {
      if s[0] != t[0] {
        LessTotal(s[0], t[0]);
        if Less(s[0], t[0]) {
          FirstIsLeast(t, s[0]);
        } else {
          FirstIsLeast(s, t[0]);
        }
      }
      forall x ensures x in s[1..] <==> x in t[1..] {
        TailElements(s, x);
        TailElements(t, x);
      }
      SortedUnique(s[1..], t[1..]);
      assert s == [s[0]] + s[1..] && t == [t[0]] + t[1..];
    } else if s != [] {
      HeadIn(s);
      assert false;
    } else if t != [] {
      HeadIn(t);
      assert false;
    }
  }

  lemma HeadIn(s: seq<string>)
    requires s != []
    ensures s[0] in s
  {
  }

  /** Nothing in a strictly sorted list comes before its first element. */
  lemma FirstIsLeast(s: seq<string>, x: string)
    requires StrictlySorted(s) && s != []
    requires Less(x, s[0])
    ensures x !in s
  {
    if x in s {
      var k :| 0 <= k < |s| && s[k] == x;
      if k > 0 {
        LessAsymmetric(x, s[0]);
      } else {
        LessIrreflexive(x);
      }
    }
  }

  /** In a strictly sorted list, the tail holds everything but the first element. */
  lemma TailElements(s: seq<string>, x: string)
    requires StrictlySorted(s) && s != []
    ensures x in s[1..] <==> x in s && x != s[0]
  {
    if x in s[1..] {
      var k :| 0 <= k < |s[1..]| && s[1..][k] == x;
      assert Less(s[0], s[k + 1]);
      LessIrreflexive(s[0]);
    }
    if x in s && x != s[0] {
      var k :| 0 <= k < |s| && s[k] == x;
      assert s[1..][k - 1] == x;
    }
  }

  // ---------------------------------------------------------------- labels

  /** The fixed two-class rule. */
  function BinaryLabel(text: string): int
  {
    if text == "normal" then 0 else 1
  }

  /** `[0 if label == 'normal' else 1 for label in labels]`. */
  function BinaryLabels(labels: seq<string>): (targets: seq<int>)
    ensures |targets| == |labels|
    ensures forall i :: 0 <= i < |targets| ==> targets[i] == 0 || targets[i] == 1
  {
    if labels == [] then [] else [BinaryLabel(labels[0])] + BinaryLabels(labels[1..])
  }

  /** One target per label, 0 exactly for `'normal'` and 1 for everything else. */
  lemma {:induction false} BinaryLabelsSpec(labels: seq<string>)
    ensures |BinaryLabels(labels)| == |labels|
    ensures forall i :: 0 <= i < |labels| ==> (BinaryLabels(labels)[i] == 0 <==> labels[i] == "normal")
    ensures forall i :: 0 <= i < |labels| ==> (BinaryLabels(labels)[i] == 1 <==> labels[i] != "normal")
    decreases |labels|
  {
    if labels != [] {
      BinaryLabelsSpec(labels[1..]);
    }
  }

  /** `np.array(labels).astype('float32').reshape((-1, 1))`: one single-element row per target. */
  function LabelColumn(targets: seq<int>): seq<seq<real>>
  {
    if targets == [] then [] else [[targets[0] as real]] + LabelColumn(targets[1..])
  }

  lemma {:induction false} LabelColumnSpec(targets: seq<int>)
    ensures |LabelColumn(targets)| == |targets|
    ensures forall i :: 0 <= i < |targets| ==> LabelColumn(targets)[i] == [targets[i] as real]
    decreases |targets|
  {
    if targets != [] {
      LabelColumnSpec(targets[1..]);
    }
  }

  // ---------------------------------------------------------------- frequency

  /** Python's `round` on a number: to the nearest integer, a tie to the even one. */
  function RoundHalfEven(x: real): (n: int)
    ensures x - 0.5 <= n as real <= x + 0.5
  {
    var f := x.Floor;
    var d := x - f as real;
    if d < 0.5 then f
    else if d > 0.5 then f + 1
    else if f % 2 == 0 then f
    else f + 1
  }

  /** The result is an integer nearest to `x`, and on a tie it is even. */
  lemma RoundHalfEvenSpec(x: real)
    ensures -0.5 <= RoundHalfEven(x) as real - x <= 0.5
    ensures (RoundHalfEven(x) as real - x == 0.5 || x - RoundHalfEven(x) as real == 0.5) ==> RoundHalfEven(x) % 2 == 0
  {
  }

  /** No integer is closer to `x`. */
  lemma RoundHalfEvenNearest(x: real, n: int)
    ensures Abs(RoundHalfEven(x) as real - x) <= Abs(n as real - x)
  {
    RoundHalfEvenSpec(x);
    var f := x.Floor;
    assert n <= f || n >= f + 1;
  }

  function Abs(x: real): real
  {
    if x < 0.0 then -x else x
  }

  // ---------------------------------------------------------------- first frames

  datatype Error = ZeroDivisionError | IndexError

  /** `[d[0] for d in data]`, which raises `IndexError` at the first empty element. */
  function FirstElements<M>(data: seq<seq<M>>): (r: Result<seq<M>, Error>)
    ensures r.Ok? ==> |r.value| == |data|
    ensures r.Err? ==> r.error == IndexError
  {
    if data == [] then Ok([])
    else if data[0] == [] then Err(IndexError)
    else
      match FirstElements(data[1..])
      case Err(e) => Err(e)
      case Ok(rest) => Ok([data[0][0]] + rest)
  }

  /** It succeeds exactly when no element is empty, and then keeps element 0 of each, in order. */
  lemma {:induction false} FirstElementsSpec<M>(data: seq<seq<M>>)
    ensures FirstElements(data).Ok? <==> forall i :: 0 <= i < |data| ==> data[i] != []
    ensures FirstElements(data).Err? ==> FirstElements(data).error == IndexError
    ensures FirstElements(data).Ok? ==> |FirstElements(data).value| == |data|
    ensures FirstElements(data).Ok? ==> forall i :: 0 <= i < |data| ==> FirstElements(data).value[i] == data[i][0]
    decreases |data|
  {
    if data != [] {
      FirstElementsSpec(data[1..]);
      if data[0] != [] && FirstElements(data[1..]).Err? {
        var j :| 0 <= j < |data[1..]| && data[1..][j] == [];
        assert data[j + 1] == [];
      }
    }
  }

  // ---------------------------------------------------------------- the façade

  /** A recording as the loader lists it, with the textual class `label()` returns. */
  datatype Recording = Recording(path: string, category: string)

  /** What the corpus loader answers: its recordings, its channel set and its lowest sampling frequency. */
  datatype Loader = Loader(dataset: seq<Recording>, channelSet: seq<string>, lowestFrequency: real)

  /** The arguments of `Preprocessor(tmax, channels, frequency, frames)`. */
  datatype Config = Config(tmax: real, channels: seq<string>, frequency: real, frames: int)

  /** The `{'data': ..., 'labels': ...}` record a preprocessing operation returns. */
  datatype Prepared<D> = Prepared(data: seq<D>, labels: seq<string>)

  /** The preprocessing operations, given the configuration, the recordings, their labels and the export target. */
  datatype Backend<M> = Backend(
    normalize: (Config, seq<Recording>, seq<string>, Option<string>) -> Prepared<M>,
    getFrames: (Config, seq<Recording>, seq<string>, Option<string>) -> Prepared<M>,
    getAdjs: (Config, seq<Recording>, seq<string>, real, real, real, Option<string>) -> Prepared<M>,
    getWeightedAdjs: (Config, seq<Recording>, seq<string>, Option<string>) -> Prepared<seq<M>>)

  /** `[data.label() for data in dataset]`. */
  function LabelsOf(dataset: seq<Recording>): (labels: seq<string>)
    ensures |labels| == |dataset|
  {
    if dataset == [] then [] else [dataset[0].category] + LabelsOf(dataset[1..])
  }

  /** The labels line up with the recordings, position by position. */
  lemma {:induction false} LabelsOfSpec(dataset: seq<Recording>)
    ensures |LabelsOf(dataset)| == |dataset|
    ensures forall i :: 0 <= i < |dataset| ==> LabelsOf(dataset)[i] == dataset[i].category
    decreases |dataset|
  {
    if dataset != [] {
      LabelsOfSpec(dataset[1..]);
    }
  }

  /** The targets as a float column: `[0.0]` for `'normal'`, `[1.0]` for any other label. */
  function TargetColumn(labels: seq<string>): seq<seq<real>>
  {
    LabelColumn(BinaryLabels(labels))
  }

  lemma TargetColumnSpec(labels: seq<string>)
    ensures |TargetColumn(labels)| == |labels|
    ensures forall i :: 0 <= i < |labels| ==> TargetColumn(labels)[i] == [if labels[i] == "normal" then 0.0 else 1.0]
  {
    BinaryLabelsSpec(labels);
    LabelColumnSpec(BinaryLabels(labels));
  }

  /** The sampling frequency `loadData` asks for: `round(lowest / frames)`, or a division by zero. */
  function FrameFrequency(lowest: real, frames: int): (r: Result<int, Error>)
    ensures r.Err? <==> frames == 0
    ensures r.Err? ==> r.error == ZeroDivisionError
    ensures r.Ok? ==> lowest / frames as real - 0.5 <= r.value as real <= lowest / frames as real + 0.5
  {
    if frames == 0 then Err(ZeroDivisionError) else Ok(RoundHalfEven(lowest / frames as real))
  }

  /** The frequency is the integer nearest to `lowest / frames`; only zero frames fail. */
  lemma FrameFrequencySpec(lowest: real, frames: int, n: int)
    ensures FrameFrequency(lowest, frames).Err? <==> frames == 0
    ensures frames != 0 ==> Abs(FrameFrequency(lowest, frames).value as real - lowest / frames as real)
                            <= Abs(n as real - lowest / frames as real)
  {
    if frames != 0 {
      RoundHalfEvenNearest(lowest / frames as real, n);
    }
  }

  /** What `loadFrames`, `loadAdjs` and `loadWeightedAdjs` return: the data and the target column. */
  function WithTargets<D>(out: Prepared<D>): (seq<D>, seq<seq<real>>)
  {
    (out.data, TargetColumn(out.labels))
  }

  /** What `loadWeightedAdjsNoFrames` returns: element 0 of each recording's data and flat integer targets. */
  function FirstFramesWithTargets<M>(out: Prepared<seq<M>>): Result<(seq<M>, seq<int>), Error>
  {
    match FirstElements(out.data)
    case Err(e) => Err(e)
    case Ok(firsts) => Ok((firsts, BinaryLabels(out.labels)))
  }

  class CorpusDataset<M> {
    const loader: Loader
    const backend: Backend<M>
    var dataset: seq<Recording>
    var labels: seq<string>
    var chs: seq<string>
    var freq: real
    var preprocessor: Option<Config>

    /** The state `_initialize(channels)` leaves: every `load*` recomputes it from the loader. */
    predicate Initialized(channels: seq<string>)
      reads this
    {
      dataset == loader.dataset && labels == LabelsOf(loader.dataset)
      && chs == SelectChannels(loader.channelSet, channels)
    }

    constructor(loader: Loader, backend: Backend<M>)
      ensures this.loader == loader && this.backend == backend
      ensures dataset == [] && labels == [] && chs == [] && freq == 0.0 && preprocessor == None
    {
      this.loader := loader;
      this.backend := backend;
      dataset, labels, chs, freq, preprocessor := [], [], [], 0.0, None;
    }

    /** `_initialize(channels)`: the recordings, their labels, the kept channels and the lowest frequency. */
    method Initialize(channels: seq<string>)
      modifies this
      ensures Initialized(channels) && freq == loader.lowestFrequency
      ensures preprocessor == old(preprocessor)
    {
      dataset := loader.dataset;
      labels := LabelsOf(dataset);
      chs := SelectChannels(loader.channelSet, channels);
      freq := loader.lowestFrequency;
    }

    /**
     * `loadData`: normalised recordings with a target column, sampled at
     * `round(lowest / frames)`; with no frames the division fails before the
     * preprocessor is built.
     */
    method LoadData(tmax: real, channels: seq<string>, frames: int, exportTo: Option<string>)
      returns (r: Result<(seq<M>, seq<seq<real>>), Error>)
      modifies this
      ensures Initialized(channels)
      ensures frames == 0 ==> r == Err(ZeroDivisionError) && freq == loader.lowestFrequency && preprocessor == old(preprocessor)
      ensures frames != 0 ==>
        freq == FrameFrequency(loader.lowestFrequency, frames).value as real
        && preprocessor == Some(Config(tmax, chs, freq, frames))
        && r == Ok(WithTargets(backend.normalize(preprocessor.value, dataset, labels, exportTo)))
    {
      Initialize(channels);
      var f := FrameFrequency(loader.lowestFrequency, frames);
      if f.Err? {
        return Err(f.error);
      }
      freq := f.value as real;
      var config := Config(tmax, chs, freq, frames);
      preprocessor := Some(config);
      var out := backend.normalize(config, dataset, labels, exportTo);
      r := Ok(WithTargets(out));
    }

    /** `loadFrames`: framed recordings with a target column, at the lowest frequency. */
    method LoadFrames(tmax: real, channels: seq<string>, frames: int, exportTo: Option<string>)
      returns (data: seq<M>, targets: seq<seq<real>>)
      modifies this
      ensures Initialized(channels) && freq == loader.lowestFrequency
      ensures preprocessor == Some(Config(tmax, chs, freq, frames))
      ensures (data, targets) == WithTargets(backend.getFrames(preprocessor.value, dataset, labels, exportTo))
    {
      Initialize(channels);
      var config := Config(tmax, chs, freq, frames);
      preprocessor := Some(config);
      var out := backend.getFrames(config, dataset, labels, exportTo);
      data, targets := out.data, TargetColumn(out.labels);
    }

    /** `loadAdjs`: adjacency matrices with a target column, at the lowest frequency. */
    method LoadAdjs(tmax: real, channels: seq<string>, frames: int, c: real, p1: real, p2: real, exportTo: Option<string>)
      returns (data: seq<M>, targets: seq<seq<real>>)
      modifies this
      ensures Initialized(channels) && freq == loader.lowestFrequency
      ensures preprocessor == Some(Config(tmax, chs, freq, frames))
      ensures (data, targets) == WithTargets(backend.getAdjs(preprocessor.value, dataset, labels, c, p1, p2, exportTo))
    {
      Initialize(channels);
      var config := Config(tmax, chs, freq, frames);
      preprocessor := Some(config);
      var out := backend.getAdjs(config, dataset, labels, c, p1, p2, exportTo);
      data, targets := out.data, TargetColumn(out.labels);
    }

    /** `loadWeightedAdjs`: weighted adjacency matrices per frame with a target column. */
    method LoadWeightedAdjs(tmax: real, channels: seq<string>, frames: int, exportTo: Option<string>)
      returns (data: seq<seq<M>>, targets: seq<seq<real>>)
      modifies this
      ensures Initialized(channels) && freq == loader.lowestFrequency
      ensures preprocessor == Some(Config(tmax, chs, freq, frames))
      ensures (data, targets) == WithTargets(backend.getWeightedAdjs(preprocessor.value, dataset, labels, exportTo))
    {
      Initialize(channels);
      var config := Config(tmax, chs, freq, frames);
      preprocessor := Some(config);
      var out := backend.getWeightedAdjs(config, dataset, labels, exportTo);
      data, targets := out.data, TargetColumn(out.labels);
    }

    /**
     * `loadWeightedAdjsNoFrames`: the pipeline runs with zero frames, only
     * element 0 of each recording's data is kept, and the targets stay a flat
     * integer list; a recording whose data is empty raises `IndexError`.
     */
    method LoadWeightedAdjsNoFrames(tmax: real, channels: seq<string>, exportTo: Option<string>)
      returns (r: Result<(seq<M>, seq<int>), Error>)
      modifies this
      ensures Initialized(channels) && freq == loader.lowestFrequency
      ensures preprocessor == Some(Config(tmax, chs, freq, 0))
      ensures r == FirstFramesWithTargets(backend.getWeightedAdjs(preprocessor.value, dataset, labels, exportTo))
    {
      Initialize(channels);
      var config := Config(tmax, chs, freq, 0);
      preprocessor := Some(config);
      var out := backend.getWeightedAdjs(config, dataset, labels, exportTo);
      var firsts := FirstElements(out.data);
      if firsts.Err? {
        return Err(firsts.error);
      }
      r := Ok((firsts.value, BinaryLabels(out.labels)));
    }

    /** `load` is `loadAdjs` under another name. */
    method Load(tmax: real, channels: seq<string>, frames: int, c: real, p1: real, p2: real, exportTo: Option<string>)
      returns (data: seq<M>, targets: seq<seq<real>>)
      modifies this
      ensures Initialized(channels) && freq == loader.lowestFrequency
      ensures preprocessor == Some(Config(tmax, chs, freq, frames))
      ensures (data, targets) == WithTargets(backend.getAdjs(preprocessor.value, dataset, labels, c, p1, p2, exportTo))
    {
      data, targets := LoadAdjs(tmax, channels, frames, c, p1, p2, exportTo);
    }
  }

  /** What `_initialize` leaves: labels matching the recordings, and the kept channels sorted and exactly the non-excluded ones. */
  lemma InitializedSpec(loader: Loader, channels: seq<string>)
    ensures |LabelsOf(loader.dataset)| == |loader.dataset|
    ensures forall i :: 0 <= i < |loader.dataset| ==> LabelsOf(loader.dataset)[i] == loader.dataset[i].category
    ensures StrictlySorted(SelectChannels(loader.channelSet, channels))
    ensures forall x :: x in SelectChannels(loader.channelSet, channels) <==> x in loader.channelSet && x !in channels
  {
    LabelsOfSpec(loader.dataset);
    SelectChannelsSpec(loader.channelSet, channels);
  }

  /** The first-frame projection: it fails exactly on an empty recording, and otherwise keeps one matrix and one target per recording. */
  lemma FirstFramesWithTargetsSpec<M>(out: Prepared<seq<M>>)
    ensures FirstFramesWithTargets(out).Ok? <==> forall i :: 0 <= i < |out.data| ==> out.data[i] != []
    ensures FirstFramesWithTargets(out).Err? ==> FirstFramesWithTargets(out).error == IndexError
    ensures FirstFramesWithTargets(out).Ok? ==>
      var firsts, targets := FirstFramesWithTargets(out).value.0, FirstFramesWithTargets(out).value.1;
      |firsts| == |out.data| && (forall i :: 0 <= i < |out.data| ==> firsts[i] == out.data[i][0])
      && |targets| == |out.labels| && (forall i :: 0 <= i < |out.labels| ==> (targets[i] == 0 <==> out.labels[i] == "normal"))
  {
    FirstElementsSpec(out.data);
    BinaryLabelsSpec(out.labels);
  }
}
