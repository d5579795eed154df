/** The per-cluster quality table `cluster_group.tsv`: writing it from integer
    quality codes, reading it back, and the table the loader synthesises when
    the file is absent.
 */
module ClusterTable {
  import opened Wrappers
  import opened Text

  /** The three quality labels a cluster can carry. */
  datatype Label = Unsorted | Good | Noise

  /** The ids and labels of a quality table, as parallel sequences in table
      order. Labels are kept as the text read from the file. */
  datatype QualityTable = QualityTable(ids: seq<int>, labels: seq<string>)

  function LabelName(l: Label): string {
    match l
    case Unsorted => "unsorted"
    case Good => "good"
    case Noise => "noise"
  }

  /** The quality code the writer maps to each label (any code other than 0
      and 1 maps to noise; 2 is used here). */
  function CodeOf(l: Label): int {
    match l
    case Unsorted => 0
    case Good => 1
    case Noise => 2
  }

  /** The label written for a quality code: 0 is unsorted, 1 is good and
      every other code is noise. */
  function LabelOfCode(q: int): (l: Label)
    ensures l == Unsorted <==> q == 0
    ensures l == Good <==> q == 1
    ensures l == Noise <==> q != 0 && q != 1
  {
    if q == 0 then Unsorted else if q == 1 then Good else Noise
  }

  /** Each label survives encoding as a code and decoding again, and distinct
      labels have distinct names. */
  lemma LabelCodeRoundTrip(l: Label, m: Label)
    ensures LabelOfCode(CodeOf(l)) == l
    ensures LabelName(l) == LabelName(m) ==> l == m
  {
  }

  function Names(labels: seq<Label>): (r: seq<string>)
    ensures |r| == |labels|
  {
    seq(|labels|, i requires 0 <= i < |labels| => LabelName(labels[i]))
  }

  // ------------------------------------------------------------- writing

  const IdColumn: string := "cluster_id"
  const GroupColumn: string := "group"
  const Header: string := IdColumn + "\t" + GroupColumn

  function Row(id: int, l: Label): string {
    IntToString(id) + "\t" + LabelName(l)
  }

  /** The text `DataFrame.to_csv(sep='\t', index=False)` produces for the two
      columns `cluster_id` and `group`: a header line, then one line per
      cluster, each line ended by a newline. */
  function Serialize(ids: seq<int>, labels: seq<Label>): string
    requires |ids| == |labels|
  {
    JoinLines(TableLines(ids, labels))
  }

  /** `write_cluster_group_tsv(IDs, quality, ...)`: the quality of the i-th id
      is `quality[i]`, so a quality list shorter than the id list raises an
      IndexError before anything is written. On success the result is the
      file's text. */
  method WriteClusterGroupTsv(ids: seq<int>, quality: seq<int>) returns (r: Result<string>)
    ensures r.Ok? <==> |ids| <= |quality|
    ensures r.Err? ==> r.error.IndexError?
    ensures r.Ok? ==> r.value == Serialize(ids, seq(|ids|, i requires 0 <= i < |ids| => LabelOfCode(quality[i])))
    ensures r.Ok? ==> ReadClusterGroupTsv(r.value)
                      == Ok(QualityTable(ids, seq(|ids|, i requires 0 <= i < |ids| => LabelName(LabelOfCode(quality[i])))))
  {
    var labels: seq<Label> := [];
    var idx := 0;
    while idx < |ids|
      invariant idx <= |ids| && idx <= |quality|
      invariant |labels| == idx
      invariant forall j :: 0 <= j < idx ==> labels[j] == LabelOfCode(quality[j])
    {
      if idx >= |quality| {
        return Err(IndexError("list index out of range"));
      }
      labels := labels + [LabelOfCode(quality[idx])];
      idx := idx + 1;
    }
    assert labels == seq(|ids|, i requires 0 <= i < |ids| => LabelOfCode(quality[i]));
    ReadSerialize(ids, labels);
    assert Names(labels) == seq(|ids|, i requires 0 <= i < |ids| => LabelName(LabelOfCode(quality[i])));
    return Ok(Serialize(ids, labels));
  }

  // ------------------------------------------------------------- reading

  /** The non-blank lines of a document, each split into its fields: the
      string matrix `np.genfromtxt(filename, dtype='str')` builds. */
  function Rows(text: string): (r: seq<seq<string>>)
    ensures forall j :: 0 <= j < |r| ==> r[j] != []
  {
    NonEmptyFields(Lines(text))
  }

  function NonEmptyFields(lines: seq<string>): (r: seq<seq<string>>)
    ensures forall j :: 0 <= j < |r| ==> r[j] != []
  {
    if lines == [] then []
    else
      var f := Fields(lines[0]);
      (if f == [] then [] else [f]) + NonEmptyFields(lines[1..])
  }

  /** Every row has as many fields as the first. */
  predicate Rectangular(rows: seq<seq<string>>) {
    forall j :: 0 <= j < |rows| ==> |rows[j]| == |rows[0]|
  }

  /** The integers in the first column of `rows`, or the ValueError of the
      first entry that is not a numeral. */
  function ParseIds(rows: seq<seq<string>>): (r: Result<seq<int>>)
    requires forall j :: 0 <= j < |rows| ==> rows[j] != []
    ensures r.Ok? <==> forall j :: 0 <= j < |rows| ==> ParseInt(rows[j][0]).Ok?
    ensures r.Ok? ==> |r.value| == |rows|
    ensures r.Ok? ==> forall j :: 0 <= j < |rows| ==> ParseInt(rows[j][0]) == Ok(r.value[j])
    ensures r.Err? ==> r.error.ValueError?
  {
    if rows == [] then Ok([])
    else
      var id :- ParseInt(rows[0][0]);
      var rest :- ParseIds(rows[1..]);
      Ok([id] + rest)
  }

  /** `read_cluster_group_tsv(filename)` given the file's text, with a table
      that holds only the header row read as an empty table (see
      `ReadClusterGroupTsvAsWritten` for the code's own behaviour there). */
  function ReadClusterGroupTsv(text: string): (r: Result<QualityTable>)
    ensures r.Ok? <==> WellFormedTable(Rows(text))
    ensures r.Ok? ==> |r.value.ids| == |r.value.labels| == |Rows(text)| - 1
    ensures r.Ok? ==> forall j :: 1 <= j < |Rows(text)| ==>
      |Rows(text)[j]| >= 2
      && ParseInt(Rows(text)[j][0]) == Ok(r.value.ids[j - 1])
      && r.value.labels[j - 1] == Rows(text)[j][1]
  {
    ReadRows(Rows(text))
  }

  /** A string matrix the reader accepts: a header row, every row as wide as
      it and at least two wide, and an integer numeral opening every row
      after the header. */
  predicate WellFormedTable(rows: seq<seq<string>>)
    requires forall j :: 0 <= j < |rows| ==> rows[j] != []
  {
    && |rows| >= 1
    && Rectangular(rows)
    && |rows[0]| >= 2
    && forall j :: 1 <= j < |rows| ==> ParseInt(rows[j][0]).Ok?
  }

  /** The table held by a string matrix. Rows of differing width are a
      ValueError (genfromtxt); a matrix with fewer than two columns is an
      IndexError (the squeezed array has no second axis); a first-column
      entry that is not an integer is a ValueError (`astype('int')`). The
      header row is dropped unread. */
  function ReadRows(rows: seq<seq<string>>): (r: Result<QualityTable>)
    requires forall j :: 0 <= j < |rows| ==> rows[j] != []
    ensures r.Ok? <==> WellFormedTable(rows)
    ensures !Rectangular(rows) ==> r.Err? && r.error.ValueError?
    ensures Rectangular(rows) && (rows == [] || |rows[0]| < 2) ==> r.Err? && r.error.IndexError?
    ensures Rectangular(rows) && rows != [] && |rows[0]| >= 2 && r.Err? ==> r.error.ValueError?
    ensures r.Ok? ==> |r.value.ids| == |r.value.labels| == |rows| - 1
    ensures r.Ok? ==> forall j :: 1 <= j < |rows| ==>
      |rows[j]| >= 2
      && ParseInt(rows[j][0]) == Ok(r.value.ids[j - 1])
      && r.value.labels[j - 1] == rows[j][1]
  {
    if !Rectangular(rows) then Err(ValueError("inconsistent number of columns"))
    else if rows == [] || |rows[0]| < 2 then Err(IndexError("too many indices for array"))
    else
      var body := rows[1..];
      var ids :- ParseIds(body);
      Ok(QualityTable(ids, seq(|body|, j requires 0 <= j < |body| => body[j][1])))
  }

  /** `read_cluster_group_tsv` exactly as written: genfromtxt squeezes a
      single-row table to a one-dimensional array, so indexing `info[1:,0]`
      raises an IndexError when the file holds only its header row. */
  function ReadClusterGroupTsvAsWritten(text: string): (r: Result<QualityTable>)
    ensures |Rows(text)| != 1 ==> r == ReadClusterGroupTsv(text)
    ensures |Rows(text)| == 1 ==> r.Err? && r.error.IndexError?
  {
    if |Rows(text)| == 1 then Err(IndexError("too many indices for array"))
    else ReadClusterGroupTsv(text)
  }

  /** The string matrix of the written table: the header's two fields, then
      each id's numeral and label name. */
  function SerializedRows(ids: seq<int>, labels: seq<Label>): seq<seq<string>>
    requires |ids| == |labels|
  {
    [[IdColumn, GroupColumn]]
      + seq(|ids|, i requires 0 <= i < |ids| => [IntToString(ids[i]), LabelName(labels[i])])
  }

  lemma {:induction false} NonEmptyFieldsOfPairs(lines: seq<string>, xs: seq<string>, ys: seq<string>)
    requires |lines| == |xs| == |ys|
    requires forall j :: 0 <= j < |lines| ==> TabbedPair(lines[j], xs[j], ys[j])
    ensures NonEmptyFields(lines) == seq(|lines|, j requires 0 <= j < |lines| => [xs[j], ys[j]])
    decreases |lines|
  {
    if lines != [] {
      FieldsOfTabbedPair(xs[0], ys[0]);
      NonEmptyFieldsOfPairs(lines[1..], xs[1..], ys[1..]);
    }
  }

  lemma LabelNameIsField(l: Label)
    ensures LabelName(l) != [] && NoSpace(LabelName(l))
  {
    match l
    case Unsorted => assert NoSpace("unsorted");
    case Good => assert NoSpace("good");
    case Noise => assert NoSpace("noise");
  }

  lemma HeaderCellsAreFields()
    ensures IdColumn != [] && NoSpace(IdColumn) && GroupColumn != [] && NoSpace(GroupColumn)
  {
    assert NoSpace("cluster_id") && NoSpace("group");
  }

  function TableLines(ids: seq<int>, labels: seq<Label>): (r: seq<string>)
    requires |ids| == |labels|
    ensures |r| == |ids| + 1
  {
    [Header] + seq(|ids|, i requires 0 <= i < |ids| => Row(ids[i], labels[i]))
  }

  function IdCells(ids: seq<int>): (r: seq<string>)
    ensures |r| == |ids| + 1
  {
    [IdColumn] + seq(|ids|, i requires 0 <= i < |ids| => IntToString(ids[i]))
  }

  function GroupCells(labels: seq<Label>): (r: seq<string>)
    ensures |r| == |labels| + 1
  {
    [GroupColumn] + seq(|labels|, i requires 0 <= i < |labels| => LabelName(labels[i]))
  }

  lemma TableLinesArePairs(ids: seq<int>, labels: seq<Label>)
    requires |ids| == |labels|
    ensures var lines, xs, ys := TableLines(ids, labels), IdCells(ids), GroupCells(labels);
      forall j :: 0 <= j < |lines| ==> TabbedPair(lines[j], xs[j], ys[j])
  {
    forall j | 0 <= j < |ids| + 1 {
      TableLineIsPair(ids, labels, j);
    }
  }

  /** A header or data line is two space-free cells joined by a tab. */
  predicate TabbedPair(line: string, x: string, y: string) {
    x != [] && NoSpace(x) && y != [] && NoSpace(y) && line == x + "\t" + y
  }

  lemma HeaderIsPair()
    ensures TabbedPair(Header, IdColumn, GroupColumn)
  {
    HeaderCellsAreFields();
  }

  lemma RowIsPair(id: int, l: Label)
    ensures TabbedPair(Row(id, l), IntToString(id), LabelName(l))
  {
    LabelNameIsField(l);
  }

  lemma TableLineIsPair(ids: seq<int>, labels: seq<Label>, j: nat)
    requires |ids| == |labels| && j < |ids| + 1
    ensures TabbedPair(TableLines(ids, labels)[j], IdCells(ids)[j], GroupCells(labels)[j])
  {
    if j == 0 {
      HeaderLineIsPair(ids, labels);
    } else {
      DataLineIsPair(ids, labels, j);
    }
  }

  lemma HeaderLineIsPair(ids: seq<int>, labels: seq<Label>)
    requires |ids| == |labels|
    ensures TabbedPair(TableLines(ids, labels)[0], IdCells(ids)[0], GroupCells(labels)[0])
  {
    HeaderIsPair();
  }

  lemma DataLineIsPair(ids: seq<int>, labels: seq<Label>, j: nat)
    requires |ids| == |labels| && 0 < j < |ids| + 1
    ensures TabbedPair(TableLines(ids, labels)[j], IdCells(ids)[j], GroupCells(labels)[j])
  {
    var i := j - 1;
    var line, x, y := TableLines(ids, labels)[j], IdCells(ids)[j], GroupCells(labels)[j];
    assert line == Row(ids[i], labels[i]);
    assert x == IntToString(ids[i]);
    assert y == LabelName(labels[i]);
    RowIsPair(ids[i], labels[i]);
  }

  /** Splitting the written text into lines and fields recovers the cells. */
  lemma RowsOfSerialize(ids: seq<int>, labels: seq<Label>)
    requires |ids| == |labels|
    ensures Rows(Serialize(ids, labels)) == SerializedRows(ids, labels)
  {
    var lines, xs, ys := TableLines(ids, labels), IdCells(ids), GroupCells(labels);
    TableLinesArePairs(ids, labels);
    LinesOfJoin(lines);
    NonEmptyFieldsOfPairs(lines, xs, ys);
    CellPairsAreSerializedRows(ids, labels);
  }

  lemma CellPairsAreSerializedRows(ids: seq<int>, labels: seq<Label>)
    requires |ids| == |labels|
    ensures var xs, ys := IdCells(ids), GroupCells(labels);
      seq(|ids| + 1, j requires 0 <= j < |ids| + 1 => [xs[j], ys[j]]) == SerializedRows(ids, labels)
  {
  }

  /** Reading the written string matrix gives the ids and label names. */
  lemma ReadSerializedRows(ids: seq<int>, labels: seq<Label>)
    requires |ids| == |labels|
    ensures ReadRows(SerializedRows(ids, labels)) == Ok(QualityTable(ids, Names(labels)))
  {
    var rows := SerializedRows(ids, labels);
    assert Rectangular(rows);
    var body := rows[1..];
    forall j | 0 <= j < |ids|
      ensures ParseInt(body[j][0]) == Ok(ids[j])
    {
      assert body[j] == [IntToString(ids[j]), LabelName(labels[j])];
      ParseIntOfIntToString(ids[j]);
    }
    var parsed := ParseIds(body);
    assert parsed.Ok?;
    assert parsed.value == ids;
    var names := seq(|body|, j requires 0 <= j < |body| => body[j][1]);
    assert names == Names(labels);
    assert ReadRows(rows) == Ok(QualityTable(ids, names));
  }

  /** Round trip: reading the text written for `ids` and `labels` gives back
      the ids in the same order and the labels' names. */
  lemma ReadSerialize(ids: seq<int>, labels: seq<Label>)
    requires |ids| == |labels|
    ensures ReadClusterGroupTsv(Serialize(ids, labels)) == Ok(QualityTable(ids, Names(labels)))
  {
    RowsOfSerialize(ids, labels);
    ReadSerializedRows(ids, labels);
  }

  /** The discrepancy: writing an empty id list and reading the file back
      fails in the code as written, while the corrected reader returns the
      empty table. */
  lemma EmptyTableRoundTrip()
    ensures ReadClusterGroupTsvAsWritten(Serialize([], [])).Err?
    ensures ReadClusterGroupTsv(Serialize([], [])) == Ok(QualityTable([], []))
  {
    ReadSerialize([], []);
    RowsOfSerialize([], []);
    assert |SerializedRows([], [])| == 1;
  }

  /** The boundary of the discrepancy: for one or more clusters the code as
      written reads the written table back unchanged. */
  lemma NonEmptyTableRoundTripAsWritten(ids: seq<int>, labels: seq<Label>)
    requires |ids| == |labels| && |ids| >= 1
    ensures ReadClusterGroupTsvAsWritten(Serialize(ids, labels)) == Ok(QualityTable(ids, Names(labels)))
  {
    RowsOfSerialize(ids, labels);
    ReadSerialize(ids, labels);
  }

  // ------------------------------------------------------------ fallback

  predicate Ascending(s: seq<int>) {
    forall i, j :: 0 <= i < j < |s| ==> s[i] < s[j]
  }

  /** `x` placed into an ascending sequence of distinct values. */
  function Insert(s: seq<int>, x: int): (r: seq<int>)
    requires Ascending(s)
    ensures Ascending(r)
    ensures forall v :: v in r <==> v in s || v == x
  {
    if s == [] then [x]
    else if x < s[0] then [x] + s
    else if x == s[0] then s
    else
      var rest := Insert(s[1..], x);
      assert forall k :: 0 <= k < |rest| ==> s[0] < rest[k] by {
        forall k | 0 <= k < |rest|
          ensures s[0] < rest[k]
        {
          if rest[k] != x {
            assert rest[k] in s[1..];
            var m :| 0 <= m < |s| - 1 && s[1..][m] == rest[k];
            assert s[m + 1] == rest[k];
          }
        }
      }
      [s[0]] + rest
  }

  /** `np.unique(xs)`: the distinct values of `xs` in ascending order. */
  function Unique(xs: seq<int>): (r: seq<int>)
    ensures Ascending(r)
    ensures forall v :: v in r <==> v in xs
  {
    if xs == [] then [] else Insert(Unique(xs[..|xs| - 1]), xs[|xs| - 1])
  }

  /** A value in the tail of one ascending sequence that has the same
      elements and the same head as another lies in the other's tail. */
  lemma TailMember(a: seq<int>, b: seq<int>, v: int)
    requires Ascending(a) && Ascending(b) && a != [] && b != [] && a[0] == b[0]
    requires forall u :: u in a <==> u in b
    requires v in a[1..]
    ensures v in b[1..]
  {
    var m :| 0 <= m < |a| - 1 && a[1..][m] == v;
    assert a[m + 1] == v;
    assert v in a;
    var n :| 0 <= n < |b| && b[n] == v;
    assert n != 0;
    assert b[1..][n - 1] == v;
  }

  /** An ascending sequence is determined by its set of elements, so
      `Unique` is the only answer its contract allows. */
  lemma {:induction false} AscendingDeterminedByElements(a: seq<int>, b: seq<int>)
    requires Ascending(a) && Ascending(b)
    requires forall v :: v in a <==> v in b
    ensures a == b
    decreases |a|
  {
    assert a != [] ==> a[0] in b by {
      if a != [] {
        assert a[0] in a;
      }
    }
    assert b != [] ==> b[0] in a by {
      if b != [] {
        assert b[0] in b;
      }
    }
    if a != [] {
      var k :| 0 <= k < |b| && b[k] == a[0];
      assert b[0] <= a[0];
      var m :| 0 <= m < |a| && a[m] == b[0];
      assert a[0] <= b[0];
      forall v
        ensures v in a[1..] <==> v in b[1..]
      {
        if v in a[1..] {
          TailMember(a, b, v);
        }
        if v in b[1..] {
          TailMember(b, a, v);
        }
      }
      AscendingDeterminedByElements(a[1..], b[1..]);
      assert a == [a[0]] + a[1..] && b == [b[0]] + b[1..];
    }
  }

  /** The table synthesised when `cluster_group.tsv` is absent: every distinct
      cluster of the spike data, ascending, labelled unsorted. */
  function Fallback(spikeClusters: seq<int>): (t: QualityTable)
    ensures Ascending(t.ids)
    ensures forall v :: v in t.ids <==> v in spikeClusters
    ensures |t.labels| == |t.ids|
    ensures forall j :: 0 <= j < |t.labels| ==> t.labels[j] == LabelName(Unsorted)
  {
    var ids := Unique(spikeClusters);
    QualityTable(ids, seq(|ids|, _ => "unsorted"))
  }

  /** Resolving the quality table: the file's contents when present (read
      errors propagate), the fallback table exactly when it is absent. */
  function ResolveQuality(table: Option<string>, spikeClusters: seq<int>): (r: Result<QualityTable>)
    ensures table.None? ==> r == Ok(Fallback(spikeClusters))
    ensures table.Some? ==> r == ReadClusterGroupTsv(table.value)
  {
    match table
    case None => Ok(Fallback(spikeClusters))
    case Some(text) => ReadClusterGroupTsv(text)
  }

  /** The fallback ids are the sorted distinct cluster values and nothing
      else: any ascending sequence holding exactly those values is it. */
  lemma FallbackIdsAreSortedDistinct(spikeClusters: seq<int>, ids: seq<int>)
    requires Ascending(ids)
    requires forall v :: v in ids <==> v in spikeClusters
    ensures Fallback(spikeClusters).ids == ids
  {
    AscendingDeterminedByElements(Fallback(spikeClusters).ids, ids);
  }
}
