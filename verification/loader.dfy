/** `load_kilosort_data`: loading the sorter's output arrays from a folder and
    reconstructing spike times, unwhitened templates and cluster quality.

    The folder is abstracted as a map from file name to the array stored
    there, plus the text of `cluster_group.tsv` when that file exists.
 */
module Loader {
  import opened Wrappers
  import opened SpikeTimes
  import opened Templates
  import opened ClusterTable

  /** A stored numeric array, by the kind of contents the loader expects. */
  datatype Npy =
    | Reals(reals: Samples<real>)
    | Ints(ints: Samples<int>)
    | Matrix(matrix: Array2)
    | Tensor(tensor: Array3)
  {
    predicate Valid() {
      match this
      case Reals(s) => s.Valid()
      case Ints(s) => s.Valid()
      case Matrix(m) => m.Valid()
      case Tensor(t) => t.Valid()
    }
  }

  /** A directory of sorter output. */
  datatype Folder = Folder(arrays: map<string, Npy>, clusterGroupTsv: Option<string>) {
    predicate Valid() {
      forall name :: name in arrays ==> arrays[name].Valid()
    }
  }

  /** The keyword arguments of `load_kilosort_data`. */
  datatype LoadOptions = LoadOptions(
    sampleRate: real,
    convertToSeconds: bool,
    useMasterClock: bool,
    includePcs: bool,
    templateZeroPadding: int)

  const SpikeTimesFile: string := "spike_times.npy"
  const MasterClockFile: string := "spike_times_master_clock.npy"
  const SpikeClustersFile: string := "spike_clusters.npy"
  const AmplitudesFile: string := "amplitudes.npy"
  const TemplatesFile: string := "templates.npy"
  const UnwhiteningFile: string := "whitening_mat_inv.npy"
  const ChannelMapFile: string := "channel_map.npy"
  const PcFeaturesFile: string := "pc_features.npy"
  const PcFeatureIndFile: string := "pc_feature_ind.npy"

  /** The spike-time array read: the master-clock one exactly when asked. */
  function TimesFile(useMasterClock: bool): string {
    if useMasterClock then MasterClockFile else SpikeTimesFile
  }

  /** The arrays the loader reads, in the order it reads them. */
  function RequiredFiles(opts: LoadOptions): (names: seq<string>)
    ensures |names| == if opts.includePcs then 8 else 6
    ensures names[0] == TimesFile(opts.useMasterClock) && names[1] == SpikeClustersFile
    ensures names[2] == AmplitudesFile && names[3] == TemplatesFile
    ensures names[4] == UnwhiteningFile && names[5] == ChannelMapFile
    ensures opts.includePcs ==> names[6] == PcFeaturesFile && names[7] == PcFeatureIndFile
  {
    [TimesFile(opts.useMasterClock), SpikeClustersFile, AmplitudesFile, TemplatesFile,
     UnwhiteningFile, ChannelMapFile]
      + (if opts.includePcs then [PcFeaturesFile, PcFeatureIndFile] else [])
  }

  /** `load(folder, name)`: the stored array, or FileNotFound. */
  function Load(folder: Folder, name: string): (r: Result<Npy>)
    ensures r.Ok? <==> name in folder.arrays
    ensures r.Ok? ==> r.value == folder.arrays[name]
    ensures r.Err? ==> r.error == FileNotFound(name)
  {
    if name in folder.arrays then Ok(folder.arrays[name]) else Err(FileNotFound(name))
  }

  datatype PcArrays = PcArrays(features: Npy, featureInd: Npy)

  /** The arrays as loaded, before any reshaping. */
  datatype RawArrays = RawArrays(
    times: Npy,
    clusters: Npy,
    amplitudes: Npy,
    templates: Npy,
    unwhitening: Npy,
    channelMap: Npy,
    pcs: Option<PcArrays>)

  /** The first file of `names` absent from the folder is at index `i`. */
  predicate FirstMissing(folder: Folder, names: seq<string>, i: nat) {
    && i < |names|
    && names[i] !in folder.arrays
    && forall j :: 0 <= j < i ==> names[j] in folder.arrays
  }

  /** The named arrays, read one after the other; the first absent one ends
      the loading with FileNotFound. */
  function LoadAll(folder: Folder, names: seq<string>): (r: Result<seq<Npy>>)
    ensures r.Ok? <==> forall j :: 0 <= j < |names| ==> names[j] in folder.arrays
    ensures r.Ok? ==> |r.value| == |names|
    ensures r.Ok? ==> forall j :: 0 <= j < |names| ==> r.value[j] == folder.arrays[names[j]]
    ensures r.Err? ==> exists i: nat :: FirstMissing(folder, names, i) && r.error == FileNotFound(names[i])
  {
    if names == [] then Ok([])
    else
      var first :- Load(folder, names[0]);
      var rest := LoadAll(folder, names[1..]);
      if rest.Err? then
        var i: nat :| FirstMissing(folder, names[1..], i) && rest.error == FileNotFound(names[1..][i]);
        assert FirstMissing(folder, names, i + 1);
        Err(rest.error)
      else
        Ok([first] + rest.value)
  }

  /** Every array the options require is in the folder. */
  predicate AllPresent(folder: Folder, opts: LoadOptions) {
    && TimesFile(opts.useMasterClock) in folder.arrays
    && SpikeClustersFile in folder.arrays
    && AmplitudesFile in folder.arrays
    && TemplatesFile in folder.arrays
    && UnwhiteningFile in folder.arrays
    && ChannelMapFile in folder.arrays
    && (opts.includePcs ==> PcFeaturesFile in folder.arrays && PcFeatureIndFile in folder.arrays)
  }

  /** The arrays the options select, as stored in the folder. */
  function StoredArrays(folder: Folder, opts: LoadOptions): RawArrays
    requires AllPresent(folder, opts)
  {
    RawArrays(
      folder.arrays[TimesFile(opts.useMasterClock)],
      folder.arrays[SpikeClustersFile],
      folder.arrays[AmplitudesFile],
      folder.arrays[TemplatesFile],
      folder.arrays[UnwhiteningFile],
      folder.arrays[ChannelMapFile],
      if opts.includePcs
      then Some(PcArrays(folder.arrays[PcFeaturesFile], folder.arrays[PcFeatureIndFile]))
      else None)
  }

  /** The loading phase: every required array in order, stopping at the
      first missing one with FileNotFound for it. There is no fallback from
      the master-clock array to the primary one. */
  function LoadArrays(folder: Folder, opts: LoadOptions): (r: Result<RawArrays>)
    ensures r.Ok? <==> AllPresent(folder, opts)
    ensures r.Err? ==> exists i: nat :: FirstMissing(folder, RequiredFiles(opts), i)
                                        && r.error == FileNotFound(RequiredFiles(opts)[i])
    ensures r.Ok? ==> r.value == StoredArrays(folder, opts)
  {
    var names := RequiredFiles(opts);
    var arrays :- LoadAll(folder, names);
    Ok(RawArrays(arrays[0], arrays[1], arrays[2], arrays[3], arrays[4], arrays[5],
                 if opts.includePcs then Some(PcArrays(arrays[6], arrays[7])) else None))
  }

  /** Spike times as reals: stored reals or integer sample counts, either
      flat or as a column. */
  function TimesOf(a: Npy): (r: Result<seq<real>>)
    requires a.Valid()
    ensures r.Ok? <==> a.Reals? || a.Ints?
    ensures a.Reals? ==> r == Ok(Squeeze(a.reals))
    ensures a.Ints? ==> r == Ok(AsReals(Squeeze(a.ints)))
  {
    match a
    case Reals(s) => Ok(Squeeze(s))
    case Ints(s) => Ok(AsReals(Squeeze(s)))
    case _ => Err(ValueError("spike times are not a one-dimensional array"))
  }

  function ClustersOf(a: Npy): (r: Result<seq<int>>)
    requires a.Valid()
    ensures r.Ok? <==> a.Ints?
    ensures a.Ints? ==> r == Ok(Squeeze(a.ints))
  {
    match a
    case Ints(s) => Ok(Squeeze(s))
    case _ => Err(ValueError("spike clusters are not a one-dimensional integer array"))
  }

  /** The template tensor; slicing three axes of anything else is an
      IndexError. */
  function TensorOf(a: Npy): (r: Result<Array3>)
    ensures r.Ok? <==> a.Tensor?
    ensures a.Tensor? ==> r == Ok(a.tensor)
  {
    if a.Tensor? then Ok(a.tensor) else Err(IndexError("templates are not a three-dimensional array"))
  }

  function MatrixOf(a: Npy): (r: Result<Array2>)
    ensures r.Ok? <==> a.Matrix?
    ensures a.Matrix? ==> r == Ok(a.matrix)
  {
    if a.Matrix? then Ok(a.matrix) else Err(ValueError("the unwhitening matrix is not two-dimensional"))
  }

  /** The padding-stripped templates times the unwhitening matrix; a stored
      matrix that is not two-dimensional, or does not fit, is a ValueError. */
  function UnwhitenStripped(templates: Array3, unwhitening: Npy, padding: int): (r: Result<Array3>)
    requires templates.Valid() && unwhitening.Valid()
    ensures r.Ok? <==> unwhitening.Matrix? && Unwhitenable(StripPadding(templates, padding), unwhitening.matrix)
    ensures r.Err? ==> r.error.ValueError?
    ensures r.Ok? ==> Unwhiten(StripPadding(templates, padding), unwhitening.matrix) == r
  {
    var w :- MatrixOf(unwhitening);
    Unwhiten(StripPadding(templates, padding), w)
  }

  /** The analysis-ready bundle `load_kilosort_data` returns. */
  datatype KilosortData = KilosortData(
    spikeTimes: seq<real>,
    spikeClusters: seq<int>,
    amplitudes: Npy,
    templates: Array3,
    channelMap: Npy,
    clusterIds: seq<int>,
    clusterQuality: seq<string>,
    pcs: Option<PcArrays>)

  /** How many values the call returns: the seven fields, plus the two PC
      arrays when they were requested. */
  function ResultCount(d: KilosortData): nat {
    if d.pcs.Some? then 9 else 7
  }

  /** When reconstruction succeeds: the spike times are a real or integer
      array, the clusters an integer array, the templates a tensor and the
      unwhitening matrix a matrix whose shape fits the stripped templates,
      and the quality table resolves. */
  predicate Reconstructible(raw: RawArrays, table: Option<string>, opts: LoadOptions)
    requires raw.clusters.Valid() && raw.templates.Valid() && raw.unwhitening.Valid()
  {
    && (raw.times.Reals? || raw.times.Ints?)
    && raw.clusters.Ints?
    && raw.templates.Tensor?
    && raw.unwhitening.Matrix?
    && Unwhitenable(StripPadding(raw.templates.tensor, opts.templateZeroPadding), raw.unwhitening.matrix)
    && ResolveQuality(table, Squeeze(raw.clusters.ints)).Ok?
  }

  /** The reconstruction phase, on arrays already loaded. */
  function Reconstruct(raw: RawArrays, table: Option<string>, opts: LoadOptions): (r: Result<KilosortData>)
    requires raw.times.Valid() && raw.clusters.Valid() && raw.templates.Valid() && raw.unwhitening.Valid()
    requires opts.convertToSeconds ==> opts.sampleRate != 0.0
    ensures r.Ok? ==> raw.templates.Tensor? && raw.unwhitening.Matrix?
    ensures r.Ok? ==> ClustersOf(raw.clusters) == Ok(r.value.spikeClusters)
    ensures r.Ok? ==> TimesOf(raw.times).Ok?
                      && r.value.spikeTimes == ToSeconds(TimesOf(raw.times).value, opts.sampleRate, opts.convertToSeconds)
    ensures r.Ok? ==>
      var stripped := StripPadding(raw.templates.tensor, opts.templateZeroPadding);
      Unwhiten(stripped, raw.unwhitening.matrix) == Ok(r.value.templates)
    ensures r.Ok? ==> ResolveQuality(table, r.value.spikeClusters)
                      == Ok(QualityTable(r.value.clusterIds, r.value.clusterQuality))
    ensures r.Ok? ==> r.value.amplitudes == raw.amplitudes && r.value.channelMap == raw.channelMap
    ensures r.Ok? ==> r.value.pcs == raw.pcs
  {
    var rawTemplates :- TensorOf(raw.templates);
    var spikeClusters :- ClustersOf(raw.clusters);
    var rawTimes :- TimesOf(raw.times);
    var spikeTimes := ToSeconds(rawTimes, opts.sampleRate, opts.convertToSeconds);
    var unwhitened :- UnwhitenStripped(rawTemplates, raw.unwhitening, opts.templateZeroPadding);
    var quality :- ResolveQuality(table, spikeClusters);
    Ok(KilosortData(spikeTimes, spikeClusters, raw.amplitudes, unwhitened, raw.channelMap,
                    quality.ids, quality.labels, raw.pcs))
  }

  /** Reconstruction succeeds exactly on usable arrays whose matrix fits and
      whose quality table resolves. */
  lemma ReconstructSucceeds(raw: RawArrays, table: Option<string>, opts: LoadOptions)
    requires raw.times.Valid() && raw.clusters.Valid() && raw.templates.Valid() && raw.unwhitening.Valid()
    requires opts.convertToSeconds ==> opts.sampleRate != 0.0
    ensures Reconstruct(raw, table, opts).Ok? <==> Reconstructible(raw, table, opts)
  {
  }

  /** Which error a failed reconstruction reports: templates that are not a
      tensor are an IndexError (the slice comes first); a matrix that does
      not fit the stripped templates is a ValueError; once the arrays are
      all usable, a failure is the quality table's own error, never replaced
      by the fallback. */
  lemma ReconstructErrors(raw: RawArrays, table: Option<string>, opts: LoadOptions)
    requires raw.times.Valid() && raw.clusters.Valid() && raw.templates.Valid() && raw.unwhitening.Valid()
    requires opts.convertToSeconds ==> opts.sampleRate != 0.0
    ensures var r := Reconstruct(raw, table, opts);
      && (!raw.templates.Tensor? ==> r.Err? && r.error.IndexError?)
      && (raw.templates.Tensor? && raw.unwhitening.Matrix? && raw.clusters.Ints? && (raw.times.Reals? || raw.times.Ints?)
          ==> var fits := Unwhitenable(StripPadding(raw.templates.tensor, opts.templateZeroPadding), raw.unwhitening.matrix);
              && (!fits ==> r.Err? && r.error.ValueError?)
              && (fits && r.Err? ==> ResolveQuality(table, Squeeze(raw.clusters.ints)) == Err(r.error)))
  {
  }

  /** `load_kilosort_data(folder, sample_rate, ...)`. */
  function LoadKilosortData(folder: Folder, opts: LoadOptions): (r: Result<KilosortData>)
    requires folder.Valid()
    requires opts.convertToSeconds ==> opts.sampleRate != 0.0
    ensures r.Ok? <==> AllPresent(folder, opts)
                       && Reconstructible(StoredArrays(folder, opts), folder.clusterGroupTsv, opts)
    ensures !AllPresent(folder, opts) ==>
      exists i: nat :: FirstMissing(folder, RequiredFiles(opts), i) && r == Err(FileNotFound(RequiredFiles(opts)[i]))
    ensures TimesFile(opts.useMasterClock) !in folder.arrays ==>
      r == Err(FileNotFound(TimesFile(opts.useMasterClock)))
    ensures r.Ok? ==> ResultCount(r.value) == if opts.includePcs then 9 else 7
  {
    var raw :- LoadArrays(folder, opts);
    ReconstructSucceeds(raw, folder.clusterGroupTsv, opts);
    Reconstruct(raw, folder.clusterGroupTsv, opts)
  }

  // --------------------------------------------------------------- lemmas

  /** Asking for master-clock times when only the primary times exist fails
      with FileNotFound for the master-clock file. */
  lemma MasterClockHasNoFallback(folder: Folder, opts: LoadOptions)
    requires folder.Valid()
    requires opts.convertToSeconds ==> opts.sampleRate != 0.0
    requires opts.useMasterClock
    requires MasterClockFile !in folder.arrays && SpikeTimesFile in folder.arrays
    ensures LoadKilosortData(folder, opts) == Err(FileNotFound(MasterClockFile))
  {
  }

  /** The spike times returned are the selected array's values squeezed and
      passed through the seconds conversion, and there are as many as stored. */
  lemma LoadedSpikeTimes(folder: Folder, opts: LoadOptions)
    requires folder.Valid()
    requires opts.convertToSeconds ==> opts.sampleRate != 0.0
    requires LoadKilosortData(folder, opts).Ok?
    ensures var stored := folder.arrays[TimesFile(opts.useMasterClock)];
      && (stored.Reals? || stored.Ints?)
      && LoadKilosortData(folder, opts).value.spikeTimes
         == ToSeconds(TimesOf(stored).value, opts.sampleRate, opts.convertToSeconds)
      && |LoadKilosortData(folder, opts).value.spikeTimes|
         == (if stored.Reals? then stored.reals.Length() else stored.ints.Length())
  {
    var raw := LoadArrays(folder, opts).value;
    var d := LoadKilosortData(folder, opts).value;
    assert Reconstruct(raw, folder.clusterGroupTsv, opts) == Ok(d);
    var stored := folder.arrays[TimesFile(opts.useMasterClock)];
    assert raw.times == stored;
    assert d.spikeTimes == ToSeconds(TimesOf(stored).value, opts.sampleRate, opts.convertToSeconds);
  }

  /** The returned templates keep the template and channel counts and lose
      the padding from the time axis; when there is at least one template and
      the matrix has as many columns as channels, the matrix is square and
      each template is the stripped template times it. */
  lemma LoadedTemplates(folder: Folder, opts: LoadOptions)
    requires folder.Valid()
    requires opts.convertToSeconds ==> opts.sampleRate != 0.0
    requires LoadKilosortData(folder, opts).Ok?
    ensures var d := LoadKilosortData(folder, opts).value;
      var stored := folder.arrays[TemplatesFile];
      var w := folder.arrays[UnwhiteningFile];
      && stored.Tensor? && w.Matrix?
      && d.templates.n0 == stored.tensor.n0
      && d.templates.n2 == stored.tensor.n2
      && (opts.templateZeroPadding >= 0 ==>
            d.templates.n1 == if opts.templateZeroPadding <= stored.tensor.n1
                              then stored.tensor.n1 - opts.templateZeroPadding else 0)
      && (opts.templateZeroPadding < 0 ==>
            d.templates.n1 == if -opts.templateZeroPadding <= stored.tensor.n1
                              then -opts.templateZeroPadding else stored.tensor.n1)
      && (d.templates.n0 > 0 && w.matrix.cols == d.templates.n2 ==>
            w.matrix.rows == w.matrix.cols == d.templates.n2
            && forall k :: 0 <= k < d.templates.n0 ==>
                 d.templates.data[k]
                 == MatMul(StripPadding(stored.tensor, opts.templateZeroPadding).data[k], w.matrix))
  {
    var raw := LoadArrays(folder, opts).value;
    assert LoadKilosortData(folder, opts) == Reconstruct(raw, folder.clusterGroupTsv, opts);
  }

  /** With `cluster_group.tsv` present its ids and labels are returned
      unchanged; a malformed table is an error, never replaced by the
      fallback. */
  lemma LoadedQualityFromTable(folder: Folder, opts: LoadOptions)
    requires folder.Valid()
    requires opts.convertToSeconds ==> opts.sampleRate != 0.0
    requires folder.clusterGroupTsv.Some?
    requires LoadKilosortData(folder, opts).Ok?
    ensures var d := LoadKilosortData(folder, opts).value;
      ReadClusterGroupTsv(folder.clusterGroupTsv.value) == Ok(QualityTable(d.clusterIds, d.clusterQuality))
  {
    var raw := LoadArrays(folder, opts).value;
    assert LoadKilosortData(folder, opts) == Reconstruct(raw, folder.clusterGroupTsv, opts);
  }

  /** With `cluster_group.tsv` absent the ids are the distinct cluster values
      of the spike data in strictly ascending order, each labelled unsorted. */
  lemma LoadedQualityFallback(folder: Folder, opts: LoadOptions)
    requires folder.Valid()
    requires opts.convertToSeconds ==> opts.sampleRate != 0.0
    requires folder.clusterGroupTsv.None?
    requires LoadKilosortData(folder, opts).Ok?
    ensures var d := LoadKilosortData(folder, opts).value;
      && Ascending(d.clusterIds)
      && (forall v :: v in d.clusterIds <==> v in d.spikeClusters)
      && |d.clusterQuality| == |d.clusterIds|
      && (forall j :: 0 <= j < |d.clusterQuality| ==> d.clusterQuality[j] == "unsorted")
  {
    var raw := LoadArrays(folder, opts).value;
    assert LoadKilosortData(folder, opts) == Reconstruct(raw, folder.clusterGroupTsv, opts);
  }
}
