/**
  Query results, what it takes to read their rows, and what the column and row translations of a
  result into metrics mean.
 */
module SqlTables {
  import opened Types

  /** A cell, as the conversions that a scan may ask of it would turn out. */
  datatype Cell = Cell(text: Option<string>, number: Option<real>)

  /** A delivered row; `columnsOk` says whether asking for the column names works while on it. */
  datatype Row = Row(columnsOk: bool, cells: seq<Cell>)

  datatype Table = Table(columns: seq<string>, rows: seq<Row>)

  predicate WellFormed(t: Table) {
    forall i :: 0 <= i < |t.rows| ==> |t.rows[i].cells| == |t.columns|
  }

  datatype Answer = QueryFailed | Answered(table: Table)

  datatype MetricMeta = MetricMeta(key: string, unit: string)

  datatype Error = PingError | QueryError | ColumnsError | TooFewColumns | ScanError | MissingKey(key: string)

  function Keys(metas: seq<MetricMeta>): seq<string> {
    seq(|metas|, i requires 0 <= i < |metas| => metas[i].key)
  }

  // ---- maps filled from parallel lists, later entries overwriting earlier ones ----

  function Fill<T>(names: seq<string>, data: seq<T>): map<string, T>
    requires |names| == |data|
  {
    if names == [] then map[] else
    Fill(names[..|names| - 1], data[..|data| - 1])[names[|names| - 1] := data[|data| - 1]]
  }

  ghost predicate LastAt(names: seq<string>, key: string, i: int) {
    0 <= i < |names| && names[i] == key && forall j :: i < j < |names| ==> names[j] != key
  }

  /** The filled map has exactly the names as keys, each with the datum of its last occurrence. */
  lemma {:induction false} FillIsLastWins<T>(names: seq<string>, data: seq<T>, key: string)
    requires |names| == |data|
    ensures key in Fill(names, data) <==> key in names
    ensures forall i :: LastAt(names, key, i) ==> key in Fill(names, data) && Fill(names, data)[key] == data[i]
    ensures key in names ==> exists i :: LastAt(names, key, i)
  {
    if names != [] {
      var n := |names| - 1;
      FillIsLastWins(names[..n], data[..n], key);
      if names[n] == key {
        assert LastAt(names, key, n);
      } else {
        assert forall i :: LastAt(names, key, i) <==> LastAt(names[..n], key, i);
      }
    }
  }

  lemma FillSnoc<T>(names: seq<string>, data: seq<T>, i: nat)
    requires |names| == |data| && i < |names|
    ensures Fill(names[..i + 1], data[..i + 1]) == Fill(names[..i], data[..i])[names[i] := data[i]]
  {
    assert names[..i + 1][..i] == names[..i];
    assert data[..i + 1][..i] == data[..i];
  }

  /** Entry (name, datum) is in the lists. */
  ghost predicate HasEntry<T>(names: seq<string>, data: seq<T>, name: string, datum: T)
    requires |names| == |data|
  {
    exists i :: 0 <= i < |names| && names[i] == name && data[i] == datum
  }

  ghost predicate Covers<T>(names: seq<string>, data: seq<T>, names': seq<string>, data': seq<T>)
    requires |names| == |data| && |names'| == |data'|
  {
    forall k :: 0 <= k < |names'| ==> HasEntry(names, data, names'[k], data'[k])
  }

  /** When the names are distinct, two lists with the same entries fill the same map, in whatever order. */
  lemma FillSameEntries<T>(names: seq<string>, data: seq<T>, names': seq<string>, data': seq<T>, key: string)
    requires |names| == |data| && |names'| == |data'| && Distinct(names)
    requires Covers(names, data, names', data') && Covers(names', data', names, data)
    ensures key in Fill(names, data) <==> key in Fill(names', data')
    ensures key in Fill(names, data) ==> Fill(names, data)[key] == Fill(names', data')[key]
  {
    FillIsLastWins(names, data, key);
    FillIsLastWins(names', data', key);
    if key in Fill(names, data) {
      var i :| LastAt(names, key, i);
      assert HasEntry(names', data', names[i], data[i]);
    }
    if key in Fill(names', data') {
      var k :| LastAt(names', key, k);
      assert HasEntry(names, data, names'[k], data'[k]);
      var i :| 0 <= i < |names| && names[i] == names'[k] && data[i] == data'[k];
      assert LastAt(names, key, i);
    }
  }

  predicate Distinct(names: seq<string>) {
    forall i, j :: 0 <= i < j < |names| ==> names[i] != names[j]
  }

  // ---- concatenation of blocks ----

  function Concat<T>(blocks: seq<seq<T>>): seq<T> {
    if blocks == [] then [] else Concat(blocks[..|blocks| - 1]) + blocks[|blocks| - 1]
  }

  lemma ConcatSnoc<T>(blocks: seq<seq<T>>, i: nat)
    requires i < |blocks|
    ensures Concat(blocks[..i + 1]) == Concat(blocks[..i]) + blocks[i]
  {
    assert blocks[..i + 1][..i] == blocks[..i];
  }

  /** Blocks of equal length follow each other at multiples of that length. */
  lemma {:induction false} ConcatAt<T>(blocks: seq<seq<T>>, n: nat, i: nat, j: nat)
    requires forall k :: 0 <= k < |blocks| ==> |blocks[k]| == n
    ensures |Concat(blocks)| == |blocks| * n
    ensures i < |blocks| && j < n ==> i * n + j < |blocks| * n && Concat(blocks)[i * n + j] == blocks[i][j]
  {
    if blocks != [] {
      var m := |blocks| - 1;
      ConcatAt(blocks[..m], n, i, j);
      assert |blocks| * n == m * n + n;
    }
  }

  // ---- one row, its first n cells as numbers and the others as text ----

  predicate Scans(row: Row, n: nat) {
    && (forall i :: 0 <= i < |row.cells| && i < n ==> row.cells[i].number.Some?)
    && (forall i :: n <= i < |row.cells| ==> row.cells[i].text.Some?)
  }

  function Numbers(row: Row, n: nat): (xs: seq<real>)
    requires n <= |row.cells| && Scans(row, n)
    ensures |xs| == n
  {
    seq(n, i requires 0 <= i < n => row.cells[i].number.value)
  }

  function Texts(row: Row, n: nat): (xs: seq<string>)
    requires n <= |row.cells| && Scans(row, n)
    ensures |xs| == |row.cells| - n
  {
    seq(|row.cells| - n, i requires 0 <= i < |row.cells| - n => row.cells[n + i].text.value)
  }

  /** The columns after the first n as tags, and always the source. */
  function Tags(columns: seq<string>, texts: seq<string>): map<string, string>
    requires |columns| == |texts|
  {
    Fill(columns, texts)["source" := "sql"]
  }

  /** The tags are the given columns, each with its last text, and the source, which is always sql. */
  lemma TagsMeaning(columns: seq<string>, texts: seq<string>, name: string)
    requires |columns| == |texts|
    ensures name in Tags(columns, texts) <==> name == "source" || name in columns
    ensures Tags(columns, texts)["source"] == "sql"
    ensures forall i :: name != "source" && LastAt(columns, name, i) ==>
              name in Tags(columns, texts) && Tags(columns, texts)[name] == texts[i]
  {
    FillIsLastWins(columns, texts, name);
  }

  // ---- one metric per column ----

  /** The position of the first metric whose key is not among the names. */
  function FirstMissing(metas: seq<MetricMeta>, names: set<string>): (j: nat)
    ensures j <= |metas| && (forall i :: 0 <= i < j ==> metas[i].key in names)
    ensures j < |metas| ==> metas[j].key !in names
  {
    if metas == [] || metas[0].key !in names then 0 else 1 + FirstMissing(metas[1..], names)
  }

  function NameSet(names: seq<string>): set<string> {
    set k | k in names
  }

  /** What stops a row from being translated, if anything. */
  function ColumnRowError(metas: seq<MetricMeta>, columns: seq<string>, row: Row): Option<Error> {
    if !row.columnsOk then Some(ColumnsError)
    else if |columns| < |metas| then Some(TooFewColumns)
    else if !Scans(row, |metas|) then Some(ScanError)
    else
      var j := FirstMissing(metas, NameSet(columns[..|metas|]));
      if j < |metas| then Some(MissingKey(metas[j].key)) else None
  }

  function ColumnRowMetrics(metas: seq<MetricMeta>, columns: seq<string>, row: Row): (ms: seq<Metric>)
    requires |row.cells| == |columns| && ColumnRowError(metas, columns, row).None?
    ensures |ms| == |metas|
  {
    var n := |metas|;
    var values := Fill(columns[..n], Numbers(row, n));
    var tags := Tags(columns[n..], Texts(row, n));
    seq(n, j requires 0 <= j < n =>
      FillIsLastWins(columns[..n], Numbers(row, n), metas[j].key);
      Metric(metas[j].key, 0, values[metas[j].key], metas[j].unit, tags))
  }

  /** The first error among the rows, in order. */
  function ColumnError(metas: seq<MetricMeta>, t: Table): Option<Error>
    decreases |t.rows|
  {
    if t.rows == [] then None else
    var before := ColumnError(metas, t.(rows := t.rows[..|t.rows| - 1]));
    if before.Some? then before else ColumnRowError(metas, t.columns, t.rows[|t.rows| - 1])
  }

  /** A column query fails iff some row does. */
  lemma {:induction false} ColumnErrorIffSomeRow(metas: seq<MetricMeta>, t: Table)
    ensures ColumnError(metas, t).None? <==> Translatable(metas, t)
    decreases |t.rows|
  {
    if t.rows != [] {
      ColumnErrorIffSomeRow(metas, t.(rows := t.rows[..|t.rows| - 1]));
    }
  }

  predicate Translatable(metas: seq<MetricMeta>, t: Table) {
    forall i :: 0 <= i < |t.rows| ==> ColumnRowError(metas, t.columns, t.rows[i]).None?
  }

  function ColumnBlocks(metas: seq<MetricMeta>, t: Table): (blocks: seq<seq<Metric>>)
    requires WellFormed(t) && Translatable(metas, t)
    ensures |blocks| == |t.rows| && forall i :: 0 <= i < |blocks| ==> |blocks[i]| == |metas|
  {
    seq(|t.rows|, i requires 0 <= i < |t.rows| => ColumnRowMetrics(metas, t.columns, t.rows[i]))
  }

  /** The metrics of all rows, one after the other. */
  function ColumnMetrics(metas: seq<MetricMeta>, t: Table): seq<Metric>
    requires WellFormed(t) && Translatable(metas, t)
  {
    Concat(ColumnBlocks(metas, t))
  }

  /** On success the output is row-major: rows times metrics, each row's block in the order of the metrics. */
  lemma ColumnMetricsRowMajor(metas: seq<MetricMeta>, t: Table, i: nat, j: nat)
    requires WellFormed(t) && Translatable(metas, t) && i < |t.rows| && j < |metas|
    ensures |ColumnMetrics(metas, t)| == |t.rows| * |metas|
    ensures 0 <= i * |metas| + j < |t.rows| * |metas|
    ensures var m := ColumnMetrics(metas, t)[i * |metas| + j];
            && m == ColumnRowMetrics(metas, t.columns, t.rows[i])[j]
            && m.key == metas[j].key && m.unit == metas[j].unit
            && "source" in m.tags && m.tags["source"] == "sql"
  {
    ConcatAt(ColumnBlocks(metas, t), |metas|, i, j);
  }

  /**
    Each metric of a translated row has the number of the last of the first columns of its name, and
    the other columns as tags.
   */
  lemma ColumnRowLookup(metas: seq<MetricMeta>, columns: seq<string>, row: Row, j: nat)
    requires |row.cells| == |columns| && ColumnRowError(metas, columns, row).None? && j < |metas|
    ensures exists i :: LastAt(columns[..|metas|], metas[j].key, i)
    ensures forall i :: LastAt(columns[..|metas|], metas[j].key, i) ==>
              ColumnRowMetrics(metas, columns, row)[j].value == row.cells[i].number.value
    ensures ColumnRowMetrics(metas, columns, row)[j].tags == Tags(columns[|metas|..], Texts(row, |metas|))
  {
    var n := |metas|;
    assert metas[j].key in NameSet(columns[..n]);
    FillIsLastWins(columns[..n], Numbers(row, n), metas[j].key);
  }

  // ---- the pigeonhole result ----

  lemma {:induction false} SetSize(names: seq<string>)
    ensures |NameSet(names)| <= |names|
    ensures |NameSet(names)| == |names| <==> Distinct(names)
  {
    if names != [] {
      var n := |names| - 1;
      var init := names[..n];
      SetSize(init);
      assert NameSet(names) == NameSet(init) + {names[n]};
      if names[n] in NameSet(init) {
        assert NameSet(names) == NameSet(init);
      }
    }
  }

  lemma Pigeonhole(keys: seq<string>, names: seq<string>)
    requires Distinct(keys) && |keys| == |names| && NameSet(keys) <= NameSet(names)
    ensures Distinct(names) && NameSet(names) == NameSet(keys)
  {
    SetSize(keys);
    SetSize(names);
    SubsetSize(NameSet(keys), NameSet(names));
  }

  lemma SubsetSize(a: set<string>, b: set<string>)
    requires a <= b
    ensures |a| <= |b| && (|a| == |b| ==> a == b)
  {
    assert b == a + (b - a);
    assert |b| == |a| + |b - a|;
  }

  /**
    If the metric keys are distinct, a row that is translated has as its first columns a duplicate-free
    permutation of the keys: every value read is reported exactly once, under the name of its own
    column.
   */
  lemma EveryValueReportedOnce(metas: seq<MetricMeta>, columns: seq<string>, row: Row)
    requires |row.cells| == |columns| && ColumnRowError(metas, columns, row).None?
    requires Distinct(Keys(metas))
    ensures Distinct(columns[..|metas|]) && NameSet(columns[..|metas|]) == NameSet(Keys(metas))
    ensures forall i, j :: 0 <= i < |metas| && 0 <= j < |metas| && columns[i] == metas[j].key ==>
              ColumnRowMetrics(metas, columns, row)[j].value == row.cells[i].number.value
    ensures forall i :: 0 <= i < |metas| ==> exists j :: 0 <= j < |metas| && columns[i] == metas[j].key
  {
    var n := |metas|;
    var names := columns[..n];
    assert NameSet(Keys(metas)) <= NameSet(names);
    Pigeonhole(Keys(metas), names);
    forall i, j | 0 <= i < n && 0 <= j < n && columns[i] == metas[j].key
      ensures ColumnRowMetrics(metas, columns, row)[j].value == row.cells[i].number.value
    {
      ColumnRowLookup(metas, columns, row, j);
      assert LastAt(names, metas[j].key, i);
    }
    forall i | 0 <= i < n
      ensures exists j :: 0 <= j < n && columns[i] == metas[j].key
    {
      assert names[i] in NameSet(names);
      assert names[i] in Keys(metas);
    }
  }

  // ---- one metric per row ----

  /** A row of a row query scans as a name, a number and tags. */
  predicate RowScans(row: Row) {
    && |row.cells| >= 2
    && row.cells[0].text.Some? && row.cells[1].number.Some?
    && (forall i :: 2 <= i < |row.cells| ==> row.cells[i].text.Some?)
  }

  function RowReadError(columns: seq<string>, row: Row): Option<Error> {
    if !row.columnsOk then Some(ColumnsError)
    else if |columns| < 2 then Some(TooFewColumns)
    else if !RowScans(row) then Some(ScanError)
    else None
  }

  datatype Reading = Reading(value: real, tags: map<string, string>)

  predicate Readable(columns: seq<string>, row: Row) {
    |row.cells| == |columns| && RowReadError(columns, row).None?
  }

  function RowTexts(row: Row): (xs: seq<string>)
    requires RowScans(row)
    ensures |xs| == |row.cells| - 2
  {
    seq(|row.cells| - 2, i requires 0 <= i < |row.cells| - 2 => row.cells[2 + i].text.value)
  }

  function ReadRow(columns: seq<string>, row: Row): Reading
    requires Readable(columns, row)
  {
    Reading(row.cells[1].number.value, Tags(columns[2..], RowTexts(row)))
  }

  /** The name under which a row is remembered; `lower` is the lower-casing of strings. */
  function RowName(lower: string -> string, row: Row): string
    requires RowScans(row)
  {
    lower(row.cells[0].text.value)
  }

  function ReadError(t: Table): Option<Error>
    decreases |t.rows|
  {
    if t.rows == [] then None else
    var before := ReadError(t.(rows := t.rows[..|t.rows| - 1]));
    if before.Some? then before else RowReadError(t.columns, t.rows[|t.rows| - 1])
  }

  lemma {:induction false} ReadErrorIffSomeRow(t: Table)
    ensures ReadError(t).None? <==> forall i :: 0 <= i < |t.rows| ==> RowReadError(t.columns, t.rows[i]).None?
    decreases |t.rows|
  {
    if t.rows != [] {
      ReadErrorIffSomeRow(t.(rows := t.rows[..|t.rows| - 1]));
    }
  }

  predicate AllReadable(t: Table) {
    forall i :: 0 <= i < |t.rows| ==> Readable(t.columns, t.rows[i])
  }

  function RowNames(lower: string -> string, t: Table): (names: seq<string>)
    requires AllReadable(t)
    ensures |names| == |t.rows|
  {
    seq(|t.rows|, i requires 0 <= i < |t.rows| => RowName(lower, t.rows[i]))
  }

  function RowReadings(t: Table): (readings: seq<Reading>)
    requires AllReadable(t)
    ensures |readings| == |t.rows|
  {
    seq(|t.rows|, i requires 0 <= i < |t.rows| => ReadRow(t.columns, t.rows[i]))
  }

  /** The readings by lower-cased name, a later row overwriting an earlier one of the same name. */
  function Readings(lower: string -> string, t: Table): map<string, Reading>
    requires AllReadable(t)
  {
    Fill(RowNames(lower, t), RowReadings(t))
  }

  /** A key has a reading iff it is the lower-cased name of some row; it is the reading of the last such row. */
  lemma ReadingsAreLookups(lower: string -> string, t: Table, key: string)
    requires AllReadable(t)
    ensures key in Readings(lower, t) <==> key in RowNames(lower, t)
    ensures forall i :: LastAt(RowNames(lower, t), key, i) ==>
              key in Readings(lower, t) && Readings(lower, t)[key] == ReadRow(t.columns, t.rows[i])
  {
    FillIsLastWins(RowNames(lower, t), RowReadings(t), key);
  }

  lemma PermutedRowsCovered(lower: string -> string, t: Table, t': Table)
    requires AllReadable(t) && AllReadable(t')
    requires t'.columns == t.columns && multiset(t'.rows) == multiset(t.rows)
    ensures Covers(RowNames(lower, t), RowReadings(t), RowNames(lower, t'), RowReadings(t'))
  {
    var names, data, names', data' := RowNames(lower, t), RowReadings(t), RowNames(lower, t'), RowReadings(t');
    forall k | 0 <= k < |names'|
      ensures HasEntry(names, data, names'[k], data'[k])
    {
      assert t'.rows[k] in multiset(t.rows);
      var i :| 0 <= i < |t.rows| && t.rows[i] == t'.rows[k];
      assert names[i] == names'[k] && data[i] == data'[k];
    }
  }

  lemma PermutedRowsReadable(t: Table, t': Table)
    requires AllReadable(t) && t'.columns == t.columns && multiset(t'.rows) == multiset(t.rows)
    ensures AllReadable(t')
  {
    forall k | 0 <= k < |t'.rows|
      ensures Readable(t'.columns, t'.rows[k])
    {
      assert t'.rows[k] in multiset(t.rows);
    }
  }

  /** When lower-cased names are distinct, the readings do not depend on the order of the rows. */
  lemma PermutedRowsSameReadings(lower: string -> string, t: Table, t': Table)
    requires AllReadable(t) && AllReadable(t') && Distinct(RowNames(lower, t))
    requires t'.columns == t.columns && multiset(t'.rows) == multiset(t.rows)
    ensures Readings(lower, t) == Readings(lower, t')
  {
    PermutedRowsCovered(lower, t, t');
    PermutedRowsCovered(lower, t', t);
    forall key
      ensures key in Readings(lower, t) <==> key in Readings(lower, t')
      ensures key in Readings(lower, t) ==> Readings(lower, t)[key] == Readings(lower, t')[key]
    {
      FillSameEntries(RowNames(lower, t), RowReadings(t), RowNames(lower, t'), RowReadings(t'), key);
    }
  }

  /** The metrics of the first `n` requested keys, in the order requested. */
  function RowMetrics(metas: seq<MetricMeta>, readings: map<string, Reading>, n: nat): (ms: seq<Metric>)
    requires n <= FirstMissing(metas, readings.Keys)
    ensures |ms| == n
  {
    seq(n, j requires 0 <= j < n =>
      Metric(metas[j].key, 0, readings[metas[j].key].value, metas[j].unit, readings[metas[j].key].tags))
  }

  datatype RowResult = RowResult(metrics: seq<Metric>, err: Option<Error>)

  /**
    What a row query returns when all rows can be read: the metrics before the first missing key, and
    the error if any.
   */
  function RowOutcome(lower: string -> string, metas: seq<MetricMeta>, t: Table): RowResult
    requires AllReadable(t)
  {
    var readings := Readings(lower, t);
    var j := FirstMissing(metas, readings.Keys);
    RowResult(RowMetrics(metas, readings, j), if j < |metas| then Some(MissingKey(metas[j].key)) else None)
  }

  /**
    When all rows can be read and their lower-cased names are distinct, neither the metrics nor the
    error of a row query depends on the order of the rows.
   */
  lemma RowOrderDoesNotMatter(lower: string -> string, metas: seq<MetricMeta>, t: Table, t': Table)
    requires AllReadable(t) && Distinct(RowNames(lower, t))
    requires t'.columns == t.columns && multiset(t'.rows) == multiset(t.rows)
    ensures AllReadable(t') && RowOutcome(lower, metas, t) == RowOutcome(lower, metas, t')
  {
    PermutedRowsReadable(t, t');
    PermutedRowsSameReadings(lower, t, t');
  }

  /** Each metric of a row query is the reading of the last row whose lower-cased name is its key. */
  lemma RowMetricsAreLookups(lower: string -> string, metas: seq<MetricMeta>, t: Table, n: nat, j: nat, i: int)
    requires AllReadable(t) && j < n <= FirstMissing(metas, Readings(lower, t).Keys)
    requires LastAt(RowNames(lower, t), metas[j].key, i)
    ensures var m := RowMetrics(metas, Readings(lower, t), n)[j];
            && m.key == metas[j].key && m.unit == metas[j].unit
            && m.value == t.rows[i].cells[1].number.value
            && m.tags == Tags(t.columns[2..], RowTexts(t.rows[i]))
  {
    ReadingsAreLookups(lower, t, metas[j].key);
  }
}
