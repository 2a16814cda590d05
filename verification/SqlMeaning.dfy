/**
  What the metrics of a query are, read off the columns and cells of its answer and nothing else, and
  when a query succeeds; the translations of SqlTables are shown to meet this.
 */
module SqlMeaning {
  import opened Types
  import opened SqlTables

  /** Column `k` is the last of its name among the columns from `lo` up to `hi`. */
  ghost predicate LastColumn(columns: seq<string>, lo: nat, hi: nat, name: string, k: nat) {
    lo <= k < hi <= |columns| && columns[k] == name && forall j :: k < j < hi ==> columns[j] != name
  }

  /** The tags are the texts of the columns from `lo` on, the last of a name, and the source, always sql. */
  ghost predicate TagsRead(columns: seq<string>, row: Row, lo: nat, tags: map<string, string>) {
    && |row.cells| == |columns|
    && (forall name :: name in tags <==> name == "source" || exists k :: lo <= k < |columns| && columns[k] == name)
    && tags["source"] == "sql"
    && (forall k: nat ::
          k < |columns| && LastColumn(columns, lo, |columns|, columns[k], k) && columns[k] != "source" ==>
            columns[k] in tags && row.cells[k].text == Some(tags[columns[k]]))
  }

  /** The metric of one key in one row of a column query with `n` metrics. */
  ghost predicate ColumnMetric(meta: MetricMeta, n: nat, columns: seq<string>, row: Row, m: Metric) {
    && m.key == meta.key && m.unit == meta.unit && m.timestamp == 0
    && TagsRead(columns, row, n, m.tags)
    && exists k: nat :: LastColumn(columns, 0, n, meta.key, k) && row.cells[k].number == Some(m.value)
  }

  /** Metric `j` of row `i` is where the row-major order has it. */
  ghost predicate ColumnEntry(metas: seq<MetricMeta>, t: Table, metrics: seq<Metric>, i: nat, j: nat)
    requires i < |t.rows| && j < |metas|
  {
    && i * |metas| + j < |metrics|
    && ColumnMetric(metas[j], |metas|, t.columns, t.rows[i], metrics[i * |metas| + j])
  }

  ghost predicate ColumnAnswer(metas: seq<MetricMeta>, t: Table, metrics: seq<Metric>) {
    && |metrics| == |t.rows| * |metas|
    && forall i, j :: 0 <= i < |t.rows| && 0 <= j < |metas| ==> ColumnEntry(metas, t, metrics, i, j)
  }

  /** A row of a column query that can be translated. */
  ghost predicate ColumnRowFits(metas: seq<MetricMeta>, columns: seq<string>, row: Row) {
    && row.columnsOk && |metas| <= |columns|
    && (forall k :: 0 <= k < |metas| && k < |row.cells| ==> row.cells[k].number.Some?)
    && (forall k :: |metas| <= k < |row.cells| ==> row.cells[k].text.Some?)
    && (forall j :: 0 <= j < |metas| ==> exists k :: 0 <= k < |metas| && columns[k] == metas[j].key)
  }

  /** The row has the given name, up to upper and lower case. */
  ghost predicate NamedRow(lower: string -> string, row: Row, name: string) {
    row.cells != [] && row.cells[0].text.Some? && lower(row.cells[0].text.value) == name
  }

  ghost predicate SomeRowNamed(lower: string -> string, t: Table, name: string) {
    exists i :: 0 <= i < |t.rows| && NamedRow(lower, t.rows[i], name)
  }

  ghost predicate LastRow(lower: string -> string, t: Table, name: string, i: nat) {
    && i < |t.rows| && NamedRow(lower, t.rows[i], name)
    && forall k :: i < k < |t.rows| ==> !NamedRow(lower, t.rows[k], name)
  }

  /** The metric of one key of a row query. */
  ghost predicate RowMetric(lower: string -> string, meta: MetricMeta, t: Table, m: Metric) {
    && m.key == meta.key && m.unit == meta.unit && m.timestamp == 0
    && exists i: nat :: LastRow(lower, t, meta.key, i) && ReadFrom(t.columns, t.rows[i], m)
  }

  /** The value is the second cell of the row, the tags are its further cells. */
  ghost predicate ReadFrom(columns: seq<string>, row: Row, m: Metric) {
    |row.cells| >= 2 && row.cells[1].number == Some(m.value) && TagsRead(columns, row, 2, m.tags)
  }

  ghost predicate RowAnswer(lower: string -> string, metas: seq<MetricMeta>, t: Table, metrics: seq<Metric>) {
    |metrics| == |metas| && forall j :: 0 <= j < |metas| ==> RowMetric(lower, metas[j], t, metrics[j])
  }

  /** A row of a row query that can be read: a name, a number, and texts. */
  ghost predicate RowFits(columns: seq<string>, row: Row) {
    && row.columnsOk && 2 <= |columns| && 2 <= |row.cells|
    && row.cells[0].text.Some? && row.cells[1].number.Some?
    && forall k :: 2 <= k < |row.cells| ==> row.cells[k].text.Some?
  }

  // ---- the translations meet this ----

  lemma LastFrom(columns: seq<string>, lo: nat, hi: nat, name: string, i: int)
    requires lo <= hi <= |columns|
    ensures LastAt(columns[lo..hi], name, i) ==> LastColumn(columns, lo, hi, name, lo + i)
    ensures 0 <= i && LastColumn(columns, lo, hi, name, lo + i) ==> LastAt(columns[lo..hi], name, i)
  {
    var part := columns[lo..hi];
    assert forall j :: 0 <= j < |part| ==> part[j] == columns[lo + j];
    if LastAt(part, name, i) {
      forall j | lo + i < j < hi ensures columns[j] != name {
        assert part[j - lo] == columns[j];
      }
    }
  }

  lemma TagsAreRead(columns: seq<string>, row: Row, lo: nat, texts: seq<string>)
    requires lo <= |columns| == |row.cells| && |texts| == |columns| - lo
    requires forall k :: lo <= k < |row.cells| ==> row.cells[k].text == Some(texts[k - lo])
    ensures TagsRead(columns, row, lo, Tags(columns[lo..], texts))
  {
    var rest, tags := columns[lo..], Tags(columns[lo..], texts);
    forall name
      ensures name in tags <==> name == "source" || exists k :: lo <= k < |columns| && columns[k] == name
    {
      TagsMeaning(rest, texts, name);
      if name in rest {
        var i :| 0 <= i < |rest| && rest[i] == name;
        assert columns[lo + i] == name;
      }
    }
    TagsMeaning(rest, texts, "source");
    forall k: nat | k < |columns| && LastColumn(columns, lo, |columns|, columns[k], k) && columns[k] != "source"
      ensures columns[k] in tags && row.cells[k].text == Some(tags[columns[k]])
    {
      LastFrom(columns, lo, |columns|, columns[k], k - lo);
      TagsMeaning(rest, texts, columns[k]);
    }
  }

  lemma ColumnRowMeaning(metas: seq<MetricMeta>, columns: seq<string>, row: Row, j: nat)
    requires |row.cells| == |columns| && ColumnRowError(metas, columns, row).None? && j < |metas|
    ensures ColumnMetric(metas[j], |metas|, columns, row, ColumnRowMetrics(metas, columns, row)[j])
  {
    var n := |metas|;
    var m := ColumnRowMetrics(metas, columns, row)[j];
    ColumnRowLookup(metas, columns, row, j);
    TagsAreRead(columns, row, n, Texts(row, n));
    var i :| LastAt(columns[..n], metas[j].key, i);
    LastFrom(columns, 0, n, metas[j].key, i);
    assert columns[0..n] == columns[..n];
    assert LastColumn(columns, 0, n, metas[j].key, i) && row.cells[i].number == Some(m.value);
  }

  /** A successful column query yields its answer, entry by entry. */
  lemma ColumnMetricsMeaning(metas: seq<MetricMeta>, t: Table)
    requires WellFormed(t) && Translatable(metas, t)
    ensures ColumnAnswer(metas, t, ColumnMetrics(metas, t))
  {
    ConcatAt(ColumnBlocks(metas, t), |metas|, 0, 0);
    forall i, j | 0 <= i < |t.rows| && 0 <= j < |metas|
      ensures ColumnEntry(metas, t, ColumnMetrics(metas, t), i, j)
    {
      ColumnMetricsRowMajor(metas, t, i, j);
      ColumnRowMeaning(metas, t.columns, t.rows[i], j);
    }
  }

  lemma NamedAt(lower: string -> string, t: Table, name: string, i: int)
    requires AllReadable(t) && 0 <= i < |t.rows|
    ensures NamedRow(lower, t.rows[i], name) <==> RowNames(lower, t)[i] == name
  {
  }

  lemma SomeRowNamedIff(lower: string -> string, t: Table, name: string)
    requires AllReadable(t)
    ensures SomeRowNamed(lower, t, name) <==> name in RowNames(lower, t)
  {
    if SomeRowNamed(lower, t, name) {
      var i :| 0 <= i < |t.rows| && NamedRow(lower, t.rows[i], name);
      NamedAt(lower, t, name, i);
    }
    if name in RowNames(lower, t) {
      var i :| 0 <= i < |t.rows| && RowNames(lower, t)[i] == name;
      NamedAt(lower, t, name, i);
    }
  }

  lemma LastRowAt(lower: string -> string, t: Table, name: string, i: nat)
    requires AllReadable(t) && LastAt(RowNames(lower, t), name, i)
    ensures LastRow(lower, t, name, i)
  {
    forall k | i <= k < |t.rows| ensures NamedRow(lower, t.rows[k], name) <==> k == i {
      NamedAt(lower, t, name, k);
    }
  }

  lemma {:induction false} RowIsRead(lower: string -> string, metas: seq<MetricMeta>, t: Table, j: nat, i: nat)
    requires AllReadable(t) && FirstMissing(metas, Readings(lower, t).Keys) == |metas| && j < |metas|
    requires LastAt(RowNames(lower, t), metas[j].key, i)
    ensures ReadFrom(t.columns, t.rows[i], RowMetrics(metas, Readings(lower, t), |metas|)[j])
  {
    RowMetricsAreLookups(lower, metas, t, |metas|, j, i);
    assert Readable(t.columns, t.rows[i]);
    TagsAreRead(t.columns, t.rows[i], 2, RowTexts(t.rows[i]));
  }

  lemma RowMetricMeaning(lower: string -> string, metas: seq<MetricMeta>, t: Table, j: nat)
    requires AllReadable(t) && FirstMissing(metas, Readings(lower, t).Keys) == |metas| && j < |metas|
    ensures RowMetric(lower, metas[j], t, RowMetrics(metas, Readings(lower, t), |metas|)[j])
  {
    var key := metas[j].key;
    assert key in Readings(lower, t).Keys;
    FillIsLastWins(RowNames(lower, t), RowReadings(t), key);
    var i: nat :| LastAt(RowNames(lower, t), key, i);
    LastRowAt(lower, t, key, i);
    RowIsRead(lower, metas, t, j, i);
  }

  /** A successful row query yields its answer, key by key. */
  lemma RowMetricsMeaning(lower: string -> string, metas: seq<MetricMeta>, t: Table)
    requires AllReadable(t) && FirstMissing(metas, Readings(lower, t).Keys) == |metas|
    ensures RowAnswer(lower, metas, t, RowMetrics(metas, Readings(lower, t), |metas|))
  {
    forall j | 0 <= j < |metas|
      ensures RowMetric(lower, metas[j], t, RowMetrics(metas, Readings(lower, t), |metas|)[j])
    {
      RowMetricMeaning(lower, metas, t, j);
    }
  }

  /** A row can be translated iff it fits. */
  lemma ColumnRowFitsIff(metas: seq<MetricMeta>, columns: seq<string>, row: Row)
    ensures ColumnRowError(metas, columns, row).None? <==> ColumnRowFits(metas, columns, row)
  {
    if row.columnsOk && |metas| <= |columns| {
      var n := |metas|;
      forall j | 0 <= j < n
        ensures metas[j].key in NameSet(columns[..n]) <==> exists k :: 0 <= k < n && columns[k] == metas[j].key
      {
        if k :| 0 <= k < n && columns[k] == metas[j].key {
          assert columns[..n][k] == metas[j].key;
        }
      }
    }
  }

  lemma RowFitsIff(columns: seq<string>, row: Row)
    ensures RowReadError(columns, row).None? <==> RowFits(columns, row)
  {
  }
}
