# Kilosort output loading and cluster-quality tables, in Dafny

This project models the core of `ecephys_spike_sorting/common/utils.py`. That module
turns the output of the Kilosort spike sorter into analysis-ready data:

- **Range query** (`find_range`): the ascending indices of a one-dimensional array whose
  values lie inside the closed interval `[a, b]`, or outside it. Any other option string
  is a ValueError.
- **Cluster-quality table** (`write_cluster_group_tsv`, `read_cluster_group_tsv`): the
  tab-separated file `cluster_group.tsv`. It has the header `cluster_id<TAB>group` and one
  row per cluster. Quality code 0 is written as `unsorted`, 1 as `good`, and every other
  code as `noise`. The reader drops the header row. It then parses the first column as
  integers and returns the second column as text.
- **The loader** (`load_kilosort_data`):
  - It reads the sorter's arrays from a folder, taking the master-clock spike times
    exactly when `use_master_clock` is set.
  - It strips the zero-padded prefix (21 samples by default) from every template's time
    axis.
  - It collapses N x 1 columns to flat sequences, and divides spike times by the sample
    rate when asked to.
  - It right-multiplies every template's (time x channel) slice by the unwhitening matrix.
  - It takes cluster ids and labels from `cluster_group.tsv`. When that file is absent,
    every distinct cluster of the spike data is labelled `unsorted`, in ascending order.
  - It returns seven values, or nine when PC features are requested.
- **Probe metadata** (`write_probe_json`, `read_probe_json`): the writer stores eight
  fields and the reader returns five of them.

Modules, one per component: `Wrappers` (Option, Result, and the exception classes raised),
`RangeQuery`, `Text` (line and field splitting as `np.genfromtxt` does it, plus integer
printing and parsing), `ClusterTable`, `Templates`, `SpikeTimes`, `Loader` and `ProbeJson`.
Arrays carry their dimensions explicitly (`Array2`, `Array3`). Without that, an axis of
length zero would lose the extent numpy keeps, and the unwhitening shape check depends on
that extent.

Three behaviours of the code worth noting:

- The reader does not check the header row.
- Unwhitening does no shape check when there are no templates, and it accepts a
  one-column matrix by broadcasting.
- The source does not check that the per-spike arrays have equal length.

## Model

| member | source | states |
|---|---|---|
| RangeQuery.ParseMode | ecephys_spike_sorting/common/utils.py:35-40 | only the strings `within` and `outside` are accepted; any other option is a ValueError |
| RangeQuery.WhereSelects | ecephys_spike_sorting/common/utils.py:36-38 | the index list `np.where` returns is strictly ascending, every index is in range, and index i is in it iff x[i] is selected by the mode |
| RangeQuery.WhereAscending | ecephys_spike_sorting/common/utils.py:36-38 | the returned indices are strictly ascending and each is below the array length |
| RangeQuery.WhereMembers | ecephys_spike_sorting/common/utils.py:36-38 | index i is returned iff x[i] is selected by the mode |
| RangeQuery.FindRange | ecephys_spike_sorting/common/utils.py:35-40 | `within` returns exactly the ascending indices with a <= x[i] <= b; `outside` returns exactly those with x[i] < a or x[i] > b; any other option is the ValueError and returns no indices |
| RangeQuery.WithinOutsidePartition | ecephys_spike_sorting/common/utils.py:35-38 | every index is returned by exactly one of the two options, and the two result lengths add up to the array length |
| RangeQuery.WhereCounts | ecephys_spike_sorting/common/utils.py:36-38 | the `within` and `outside` selections of the same array have lengths summing to the array length |
| Text.LinesOfJoin | ecephys_spike_sorting/common/utils.py:166-171 | splitting newline-terminated lines (as written by `to_csv`) back into lines recovers them |
| Text.FieldsOfTabbedPair | ecephys_spike_sorting/common/utils.py:166-171 | a line of two non-blank cells joined by a tab splits (as `genfromtxt` does) into exactly those two cells |
| Text.ParseIntOfIntToString | ecephys_spike_sorting/common/utils.py:166-172 | an integer id printed in decimal parses back to the same integer |
| ClusterTable.LabelOfCode | ecephys_spike_sorting/common/utils.py:155-160 | a code maps to unsorted iff it is 0, to good iff it is 1, and to noise iff it is neither |
| ClusterTable.LabelCodeRoundTrip | ecephys_spike_sorting/common/utils.py:155-160 | each label is recovered from its code, and distinct labels have distinct names |
| ClusterTable.WriteClusterGroupTsv | ecephys_spike_sorting/common/utils.py:146-166 | gives one label per id in id order; fails with IndexError exactly when there are fewer quality codes than ids; reading the written text back with the corrected reader yields the same ids and each id's label name |
| ClusterTable.ParseIds | ecephys_spike_sorting/common/utils.py:172 | succeeds iff every first-column cell is an integer numeral, and then returns one parsed id per row in row order |
| ClusterTable.ReadRows | ecephys_spike_sorting/common/utils.py:171-173 | succeeds iff the matrix has a header row, is rectangular with at least two columns, and every row after the header opens with an integer numeral; ragged rows and a bad id are ValueError, fewer than two columns IndexError; the header row is dropped, id j is parsed from row j+1, and label j is row j+1's second cell |
| ClusterTable.ReadClusterGroupTsv | ecephys_spike_sorting/common/utils.py:169-175 | succeeds iff the file's non-blank rows form a well-formed table (header, rectangular, two or more columns, integer ids); its rows after the header become the ids (parsed from the first field) and the labels (the second field), in file order |
| ClusterTable.ReadClusterGroupTsvAsWritten | ecephys_spike_sorting/common/utils.py:171-172 | the code as written raises IndexError for a table holding only its header row, and otherwise agrees with the corrected reader |
| ClusterTable.ReadSerialize | ecephys_spike_sorting/common/utils.py:162-175 | round trip: reading the text written for ids and labels gives the same ids in the same order, together with the label names |
| ClusterTable.EmptyTableRoundTrip | ecephys_spike_sorting/common/utils.py:166-172 | writing no clusters and reading the file back fails in the code as written, but gives the empty table with the corrected reader |
| ClusterTable.NonEmptyTableRoundTripAsWritten | ecephys_spike_sorting/common/utils.py:162-175 | with at least one cluster, the code as written reads the written table back to the same ids and label names, so the discrepancy is confined to the empty table |
| ClusterTable.Insert | ecephys_spike_sorting/common/utils.py:213 | inserting into an ascending distinct sequence keeps it ascending and adds exactly the new value |
| ClusterTable.Unique | ecephys_spike_sorting/common/utils.py:213 | `np.unique`: the result is strictly ascending and holds exactly the values of the input |
| ClusterTable.AscendingDeterminedByElements | ecephys_spike_sorting/common/utils.py:213 | two strictly ascending sequences with the same elements are equal, so the sorted distinct values are unique |
| ClusterTable.Fallback | ecephys_spike_sorting/common/utils.py:212-214 | the synthesised ids are strictly ascending and are exactly the distinct cluster values; there is one label per id, and every label is `unsorted` |
| ClusterTable.FallbackIdsAreSortedDistinct | ecephys_spike_sorting/common/utils.py:213 | any strictly ascending sequence holding exactly the cluster values is the fallback's id list |
| ClusterTable.ResolveQuality | ecephys_spike_sorting/common/utils.py:210-214 | an absent table gives the fallback; a present table gives exactly what the corrected reader returns, including its errors |
| Templates.StripPadding | ecephys_spike_sorting/common/utils.py:198 | template and channel counts are unchanged; for p >= 0 the time length is T-p (0 when p > T) and entry [k][t][c] equals raw [k][t+p][c]; for p < 0 the last min(-p, T) samples are kept; in every case the result is the final stretch of the time axis |
| Templates.StripNothing | ecephys_spike_sorting/common/utils.py:198 | a padding of zero leaves the templates unchanged |
| Templates.StripTwice | ecephys_spike_sorting/common/utils.py:198 | stripping p and then q samples equals stripping p+q |
| Templates.MatMul | ecephys_spike_sorting/common/utils.py:208 | a (T x C) slice times a (C x D) matrix is a T x D matrix |
| Templates.Unwhiten | ecephys_spike_sorting/common/utils.py:204-208 | succeeds iff there are no templates, or the matrix has C rows and either C or 1 columns; any other shape is a ValueError; the output keeps the templates' shape, and slice k is the product of template k alone with the matrix |
| Templates.UnwhitenScale | ecephys_spike_sorting/common/utils.py:204-208 | scaling the unwhitening matrix by c scales every reconstructed entry by c |
| Templates.UnwhitenIdentity | ecephys_spike_sorting/common/utils.py:204-208 | unwhitening with the identity matrix returns the templates unchanged |
| SpikeTimes.Squeeze | ecephys_spike_sorting/common/utils.py:199-200 | a flat array is kept; an N x 1 column becomes the N values whose singleton rows it held, in order |
| SpikeTimes.SqueezeOfColumn | ecephys_spike_sorting/common/utils.py:199-200 | squeezing a sequence stored as an N x 1 column, or stored flat, gives the sequence back |
| SpikeTimes.AsReals | ecephys_spike_sorting/common/utils.py:202 | integer sample counts become the same values as reals, in order |
| SpikeTimes.ToSeconds | ecephys_spike_sorting/common/utils.py:201-202 | length is preserved; with conversion each output times the sample rate is the raw value, and without it the output is the raw values |
| SpikeTimes.ToSecondsRoundTrip | ecephys_spike_sorting/common/utils.py:201-202 | multiplying the converted times by the sample rate recovers the sample counts |
| SpikeTimes.ToSecondsPreservesOrder | ecephys_spike_sorting/common/utils.py:201-202 | with a positive sample rate, conversion keeps the order of any two spike times |
| Loader.RequiredFiles | ecephys_spike_sorting/common/utils.py:183-196 | six arrays are read, or eight with PC features, in the source's order; the first is the master-clock file exactly when requested |
| Loader.Load | ecephys_spike_sorting/common/utils.py:177-179 | returns the stored array iff the name is in the folder, otherwise FileNotFound for that name |
| Loader.LoadAll | ecephys_spike_sorting/common/utils.py:183-196 | succeeds iff every named array is present, returning them in order; otherwise fails with FileNotFound for the first absent name |
| Loader.LoadArrays | ecephys_spike_sorting/common/utils.py:183-196 | the loading phase succeeds iff every required file is present, and then returns the arrays stored under the selected names; otherwise it reports FileNotFound for the first missing one |
| Loader.TimesOf | ecephys_spike_sorting/common/utils.py:200 | spike times are accepted only as a real or integer array stored flat or as an N x 1 column, and are squeezed to a flat sequence |
| Loader.ClustersOf | ecephys_spike_sorting/common/utils.py:199 | spike clusters are accepted only as an integer array stored flat or as an N x 1 column, and are squeezed to a flat sequence |
| Loader.Reconstruct | ecephys_spike_sorting/common/utils.py:198-219 | on success, the times are the squeezed times converted per the flag, and the templates are the stripped templates unwhitened; the ids and labels are the resolved quality table; amplitudes, channel map and PC arrays pass through |
| Loader.ReconstructSucceeds | ecephys_spike_sorting/common/utils.py:198-214 | reconstruction succeeds iff the times are a real or integer array, the clusters an integer array, the templates a tensor, the matrix fits the stripped templates, and the quality table resolves |
| Loader.ReconstructErrors | ecephys_spike_sorting/common/utils.py:198-214 | templates that are not a tensor are IndexError; a matrix that does not fit the stripped templates is ValueError; with usable arrays, a failure is the quality table's own error, never replaced by the fallback |
| Loader.UnwhitenStripped | ecephys_spike_sorting/common/utils.py:198-208 | succeeds iff the stored matrix is two-dimensional and fits the padding-stripped templates, giving their unwhitened product; otherwise ValueError |
| Loader.LoadKilosortData | ecephys_spike_sorting/common/utils.py:181-219 | succeeds iff every required file is present and the stored arrays reconstruct; otherwise FileNotFound for the first missing file in load order (the selected spike-time file first); 9 results when PC features are requested, otherwise 7 |
| Loader.MasterClockHasNoFallback | ecephys_spike_sorting/common/utils.py:183-186 | with the master-clock flag set and only the primary spike times present, loading fails with FileNotFound for the master-clock file |
| Loader.LoadedSpikeTimes | ecephys_spike_sorting/common/utils.py:199-202 | the returned times come from the selected times file, are that array squeezed and (when asked) divided by the sample rate, and there are as many as the stored array has entries |
| Loader.LoadedTemplates | ecephys_spike_sorting/common/utils.py:198-208 | the returned templates keep the template and channel counts; the time length is T-p for 0 <= p <= T (0 when p > T; for a negative padding, the last min(-p, T) samples); when there is at least one template and the matrix has C columns, the matrix is C x C and slice k is the stripped template k times it |
| Loader.LoadedQualityFromTable | ecephys_spike_sorting/common/utils.py:210-211 | with the table present, the returned ids and labels are exactly the table's |
| Loader.LoadedQualityFallback | ecephys_spike_sorting/common/utils.py:210-214 | with the table absent, the ids are the strictly ascending distinct cluster values, with one `unsorted` label each |
| ProbeJson.WriteProbeJson | ecephys_spike_sorting/common/utils.py:92-107 | the document has exactly the eight keys channel, offset, scaling, mask, surface_channel, air_channel, vertical_pos and horizontal_pos |
| ProbeJson.Field | ecephys_spike_sorting/common/utils.py:137-141 | a key lookup gives the stored value iff the key is present, otherwise KeyError for that key |
| ProbeJson.ReadProbeJson | ecephys_spike_sorting/common/utils.py:134-143 | succeeds iff the five keys read are all present, and then returns mask, offset, scaling, surface_channel and air_channel in that order; otherwise KeyError for a missing one |
| ProbeJson.ProbeRoundTrip | ecephys_spike_sorting/common/utils.py:92-143 | reading a written record returns exactly its mask, offset, scaling, surface and air channel |
| ProbeJson.ProbeReadIgnoresGeometry | ecephys_spike_sorting/common/utils.py:137-143 | records that differ only in channel list or positions read back the same |

## Findings

| source | as written | input that shows it | evidently intended | confidence | as-written member | corrected member |
|---|---|---|---|---|---|---|
| ecephys_spike_sorting/common/utils.py:171-172 | `np.genfromtxt` squeezes a one-row table to a one-dimensional array, so `info[1:,0]` raises IndexError when the file holds only its header row | `write_cluster_group_tsv([], [], d)` followed by `read_cluster_group_tsv` on the written file (and so `load_kilosort_data` on that folder, since IndexError is not caught) | an empty id list and an empty label list | medium; not executed | ClusterTable.ReadClusterGroupTsvAsWritten | ClusterTable.ReadClusterGroupTsv |

`ClusterTable.EmptyTableRoundTrip` shows the discrepancy on that input.
`ClusterTable.ReadSerialize` proves the round trip for every id list, including the empty
one, and the loader uses the corrected reader.

## Left out

- SpikeTimes.ToSeconds: requires a nonzero sample rate when converting. Dividing by zero
  gives IEEE infinities in numpy, and those have no counterpart in `real`. Negative rates
  are allowed and divide as numpy does.
- Loader.LoadKilosortData: carries the same nonzero-rate requirement when converting,
  for the same reason.
- Floating point in general: values are `real`. NaN, infinities, rounding and the
  float32 cast are not modelled.
- `rms`: a floating-point power, mean and square root with nothing to state beyond float
  semantics.
- `get_repo_commit_date_and_hash`: git and clock calls plus date formatting.
- `printProgressBar`: terminal output only.
- The `print('Saving data...')` in the table writer: console output only.
- File I/O. A folder is a map from file name to stored array, plus the text of
  `cluster_group.tsv` when the file exists. The table writer returns the file's text
  instead of writing it, so its output-directory argument is dropped.
- Exception breadth: the source catches every `OSError` when reading the table. The model
  distinguishes only absent from present, not permission or other I/O failures.
- Array kinds: a stored array whose rank or element type is not the one the loader
  expects gives an error in the model. numpy's behaviour on such arrays is not modelled.
- Loader.TimesOf: `np.squeeze` is modelled only for flat arrays and N x 1 columns.
  A single spike is kept as a one-element sequence, whereas numpy returns a 0-d array.
- Loader.ClustersOf: the same limits on `np.squeeze` as for spike times.
- RangeQuery.FindRange: models one-dimensional arrays only. For higher-rank arrays,
  `np.where(...)[0]` returns only the first-axis indices.
- Text.ParseInt: Python's `int()` also accepts non-ASCII digits and `_` separators. The
  model accepts only an optional sign and ASCII digits.
- Text.ParseInt: `astype('int')` raises OverflowError for a numeral outside the 64-bit
  range; the model parses it to the unbounded integer instead.
- ClusterTable.ResolveQuality: a present `cluster_group.tsv` is read with the corrected
  reader, so a table holding only its header row gives the empty table. The code raises
  IndexError there (see Findings).
- Loader.LoadKilosortData: through `ClusterTable.ResolveQuality`, a folder whose
  `cluster_group.tsv` holds only its header row loads with no clusters; the code raises
  IndexError, which its `except OSError` does not catch.
- Table reading: `genfromtxt` comment stripping (`#`) and lone carriage-return line ends
  are not modelled. Lines are split at `\n`, and `\r` counts as field whitespace.
- Table writing: the line terminator is `\n`, which is `to_csv`'s default on POSIX.
- ProbeJson.WriteProbeJson: the JSON text itself (indentation, separators, number
  formatting) comes from the `json` library. A document is modelled as the key-to-value
  map it encodes.
