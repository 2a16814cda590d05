/** The SQL collector: its loops, shown to compute the translations that SqlTables specifies. */
module SqlCollector {
  import opened Types
  import opened SqlTables
  import opened SqlMeaning

  // ---- getRowDataAsMaps ----

  /** Scans a row into the two buffers, in order, stopping at the first cell that does not convert. */
  method Scan(row: Row, valuesData: array<real>, tagsData: array<string>) returns (ok: bool)
    requires |row.cells| == valuesData.Length + tagsData.Length
    modifies valuesData, tagsData
    ensures ok <==> Scans(row, valuesData.Length)
    ensures ok ==> valuesData[..] == Numbers(row, valuesData.Length)
    ensures ok ==> tagsData[..] == Texts(row, valuesData.Length)
  {
    var n := valuesData.Length;
    for i := 0 to n
      invariant forall k :: 0 <= k < i ==> row.cells[k].number == Some(valuesData[k])
    {
      if row.cells[i].number.None? {
        return false;
      }
      valuesData[i] := row.cells[i].number.value;
    }
    for i := 0 to tagsData.Length
      invariant forall k :: 0 <= k < n ==> row.cells[k].number == Some(valuesData[k])
      invariant forall k :: n <= k < n + i ==> row.cells[k].text == Some(tagsData[k - n])
    {
      if row.cells[n + i].text.None? {
        return false;
      }
      tagsData[i] := row.cells[n + i].text.value;
    }
    return true;
  }

  method FillMap<T>(names: seq<string>, data: seq<T>) returns (m: map<string, T>)
    requires |names| == |data|
    ensures m == Fill(names, data)
  {
    m := map[];
    for i := 0 to |data|
      invariant m == Fill(names[..i], data[..i])
    {
      FillSnoc(names, data, i);
      m := m[names[i] := data[i]];
    }
    assert names[..|names|] == names && data[..|data|] == data;
  }

  method GetRowDataAsMaps(numberOfValues: nat, columns: seq<string>, row: Row)
    returns (values: map<string, real>, tags: map<string, string>, err: Option<Error>)
    requires |row.cells| == |columns|
    ensures err == if !row.columnsOk then Some(ColumnsError)
                   else if |columns| < numberOfValues then Some(TooFewColumns)
                   else if !Scans(row, numberOfValues) then Some(ScanError) else None
    ensures err.None? ==> values == Fill(columns[..numberOfValues], Numbers(row, numberOfValues))
    ensures err.None? ==> tags == Fill(columns[numberOfValues..], Texts(row, numberOfValues))
    ensures err.Some? ==> values == map[] && tags == map[]
  {
    values, tags := map[], map[];
    if !row.columnsOk {
      return values, tags, Some(ColumnsError);
    }
    if |columns| < numberOfValues {
      return values, tags, Some(TooFewColumns);
    }
    var valuesData := new real[numberOfValues](_ => 0.0);
    var tagsData := new string[|columns| - numberOfValues](_ => "");
    var ok := Scan(row, valuesData, tagsData);
    if !ok {
      return values, tags, Some(ScanError);
    }
    values := FillMap(columns[..numberOfValues], valuesData[..]);
    tags := FillMap(columns[numberOfValues..], tagsData[..]);
    err := None;
  }

  // ---- columnMetricQuery.getMetrics ----

  method TranslateRow(metas: seq<MetricMeta>, columns: seq<string>, row: Row)
    returns (metrics: seq<Metric>, err: Option<Error>)
    requires |row.cells| == |columns|
    ensures err == ColumnRowError(metas, columns, row)
    ensures err.None? ==> metrics == ColumnRowMetrics(metas, columns, row)
  {
    var n := |metas|;
    var values, tags;
    values, tags, err := GetRowDataAsMaps(n, columns, row);
    if err.Some? {
      return [], err;
    }
    tags := tags["source" := "sql"];
    metrics := [];
    ghost var names := NameSet(columns[..n]);
    for j := 0 to n
      invariant |metrics| == j && j <= FirstMissing(metas, names)
      invariant forall k :: 0 <= k < j ==>
                  && metas[k].key in values
                  && metrics[k] == Metric(metas[k].key, 0, values[metas[k].key], metas[k].unit, tags)
    {
      FillIsLastWins(columns[..n], Numbers(row, n), metas[j].key);
      if metas[j].key !in values {
        return [], Some(MissingKey(metas[j].key));
      }
      metrics := metrics + [Metric(metas[j].key, 0, values[metas[j].key], metas[j].unit, tags)];
    }
  }

  /** Succeeds with the metrics of all rows, or fails with the first error and no metrics. */
  method ColumnGetMetrics(metas: seq<MetricMeta>, answer: Answer) returns (metrics: seq<Metric>, err: Option<Error>)
    requires answer.Answered? ==> WellFormed(answer.table)
    ensures err == if answer.QueryFailed? then Some(QueryError) else ColumnError(metas, answer.table)
    ensures err.None? ==> Translatable(metas, answer.table) && metrics == ColumnMetrics(metas, answer.table)
    ensures err.Some? ==> metrics == []
  {
    if answer.QueryFailed? {
      return [], Some(QueryError);
    }
    var t := answer.table;
    metrics := [];
    for i := 0 to |t.rows|
      invariant ColumnError(metas, t.(rows := t.rows[..i])).None?
      invariant Translatable(metas, t.(rows := t.rows[..i]))
      invariant metrics == ColumnMetrics(metas, t.(rows := t.rows[..i]))
    {
      var rowMetrics, rowErr := TranslateRow(metas, t.columns, t.rows[i]);
      OneMoreRow(metas, t, i);
      if rowErr.Some? {
        FirstErrorStays(metas, t, i);
        return [], rowErr;
      }
      metrics := metrics + rowMetrics;
    }
    assert t.(rows := t.rows[..|t.rows|]) == t;
    return metrics, None;
  }

  lemma OneMoreRow(metas: seq<MetricMeta>, t: Table, i: nat)
    requires WellFormed(t) && i < |t.rows|
    requires Translatable(metas, t.(rows := t.rows[..i])) && ColumnError(metas, t.(rows := t.rows[..i])).None?
    ensures ColumnError(metas, t.(rows := t.rows[..i + 1])) == ColumnRowError(metas, t.columns, t.rows[i])
    ensures ColumnRowError(metas, t.columns, t.rows[i]).None? ==>
              && Translatable(metas, t.(rows := t.rows[..i + 1]))
              && ColumnMetrics(metas, t.(rows := t.rows[..i + 1])) ==
                 ColumnMetrics(metas, t.(rows := t.rows[..i])) + ColumnRowMetrics(metas, t.columns, t.rows[i])
  {
    var before, after := t.(rows := t.rows[..i]), t.(rows := t.rows[..i + 1]);
    assert after.rows[..i] == before.rows;
    if ColumnRowError(metas, t.columns, t.rows[i]).None? {
      ConcatSnoc(ColumnBlocks(metas, after), i);
      assert ColumnBlocks(metas, after)[..i] == ColumnBlocks(metas, before);
      assert ColumnBlocks(metas, after)[..i + 1] == ColumnBlocks(metas, after);
    }
  }

  lemma {:induction false} FirstErrorStays(metas: seq<MetricMeta>, t: Table, i: nat)
    requires i < |t.rows| && ColumnError(metas, t.(rows := t.rows[..i + 1])).Some?
    ensures ColumnError(metas, t) == ColumnError(metas, t.(rows := t.rows[..i + 1]))
    decreases |t.rows|
  {
    var n := |t.rows| - 1;
    if i < n {
      var init := t.(rows := t.rows[..n]);
      assert init.rows[..i + 1] == t.rows[..i + 1];
      FirstErrorStays(metas, init, i);
    } else {
      assert t.(rows := t.rows[..i + 1]) == t;
    }
  }

  // ---- rowMetricQuery.getMetrics ----

  method ReadOne(columns: seq<string>, row: Row) returns (key: string, reading: Reading, err: Option<Error>)
    requires |row.cells| == |columns|
    ensures err == RowReadError(columns, row)
    ensures err.None? ==> key == row.cells[0].text.value && reading == ReadRow(columns, row)
  {
    key, reading := "", Reading(0.0, map[]);
    if !row.columnsOk {
      return key, reading, Some(ColumnsError);
    }
    if |columns| < 2 {
      return key, reading, Some(TooFewColumns);
    }
    if row.cells[0].text.None? || row.cells[1].number.None? {
      return key, reading, Some(ScanError);
    }
    var tagsData: seq<string> := [];
    for i := 0 to |columns| - 2
      invariant |tagsData| == i
      invariant forall k :: 2 <= k < i + 2 ==> row.cells[k].text == Some(tagsData[k - 2])
    {
      if row.cells[i + 2].text.None? {
        return key, reading, Some(ScanError);
      }
      tagsData := tagsData + [row.cells[i + 2].text.value];
    }
    assert tagsData == RowTexts(row);
    var tags := FillMap(columns[2..], tagsData);
    tags := tags["source" := "sql"];
    return row.cells[0].text.value, Reading(row.cells[1].number.value, tags), None;
  }

  method ReadAll(lower: string -> string, t: Table) returns (readings: map<string, Reading>, err: Option<Error>)
    requires WellFormed(t)
    ensures err == ReadError(t)
    ensures err.None? ==> AllReadable(t) && readings == Readings(lower, t)
  {
    readings := map[];
    for i := 0 to |t.rows|
      invariant ReadError(t.(rows := t.rows[..i])).None?
      invariant AllReadable(t.(rows := t.rows[..i])) && readings == Readings(lower, t.(rows := t.rows[..i]))
    {
      var key, reading, rowErr := ReadOne(t.columns, t.rows[i]);
      OneMoreReading(lower, t, i);
      if rowErr.Some? {
        FirstReadErrorStays(t, i);
        return readings, rowErr;
      }
      readings := readings[lower(key) := reading];
    }
    assert t.(rows := t.rows[..|t.rows|]) == t;
    return readings, None;
  }

  lemma OneMoreReading(lower: string -> string, t: Table, i: nat)
    requires WellFormed(t) && i < |t.rows|
    requires AllReadable(t.(rows := t.rows[..i])) && ReadError(t.(rows := t.rows[..i])).None?
    ensures ReadError(t.(rows := t.rows[..i + 1])) == RowReadError(t.columns, t.rows[i])
    ensures RowReadError(t.columns, t.rows[i]).None? ==>
              && AllReadable(t.(rows := t.rows[..i + 1]))
              && Readings(lower, t.(rows := t.rows[..i + 1])) ==
                 Readings(lower, t.(rows := t.rows[..i]))[RowName(lower, t.rows[i]) := ReadRow(t.columns, t.rows[i])]
  {
    var before, after := t.(rows := t.rows[..i]), t.(rows := t.rows[..i + 1]);
    assert after.rows[..i] == before.rows;
    if RowReadError(t.columns, t.rows[i]).None? {
      assert RowNames(lower, after)[..i] == RowNames(lower, before);
      assert RowReadings(after)[..i] == RowReadings(before);
    }
  }

  lemma {:induction false} FirstReadErrorStays(t: Table, i: nat)
    requires i < |t.rows| && ReadError(t.(rows := t.rows[..i + 1])).Some?
    ensures ReadError(t) == ReadError(t.(rows := t.rows[..i + 1]))
    decreases |t.rows|
  {
    var n := |t.rows| - 1;
    if i < n {
      var init := t.(rows := t.rows[..n]);
      assert init.rows[..i + 1] == t.rows[..i + 1];
      FirstReadErrorStays(init, i);
    } else {
      assert t.(rows := t.rows[..i + 1]) == t;
    }
  }

  /**
    Reads all rows, then looks up the keys in the order of the metrics. A missing key is an error that
    comes with the metrics found before it.
   */
  method RowGetMetrics(lower: string -> string, metas: seq<MetricMeta>, answer: Answer)
    returns (metrics: seq<Metric>, err: Option<Error>)
    requires answer.Answered? ==> WellFormed(answer.table)
    ensures answer.QueryFailed? ==> err == Some(QueryError) && metrics == []
    ensures answer.Answered? && ReadError(answer.table).Some? ==> err == ReadError(answer.table) && metrics == []
    ensures answer.Answered? && ReadError(answer.table).None? ==>
              AllReadable(answer.table) && RowResult(metrics, err) == RowOutcome(lower, metas, answer.table)
  {
    if answer.QueryFailed? {
      return [], Some(QueryError);
    }
    var readings;
    readings, err := ReadAll(lower, answer.table);
    if err.Some? {
      return [], err;
    }
    metrics := [];
    for j := 0 to |metas|
      invariant j <= FirstMissing(metas, readings.Keys) && metrics == RowMetrics(metas, readings, j)
    {
      if metas[j].key !in readings {
        return metrics, Some(MissingKey(metas[j].key));
      }
      var found := readings[metas[j].key];
      metrics := metrics + [Metric(metas[j].key, 0, found.value, metas[j].unit, found.tags)];
    }
  }

  // ---- sqlMetricsCollector.Collect ----

  datatype Query =
    | ColumnQuery(metas: seq<MetricMeta>, answer: Answer)
    | RowQuery(metas: seq<MetricMeta>, answer: Answer)

  predicate QueryWellFormed(q: Query) {
    q.answer.Answered? ==> WellFormed(q.answer.table)
  }

  /** The query has an answer, its rows read, and every key is there. */
  predicate Succeeds(lower: string -> string, q: Query) {
    q.answer.Answered? && WellFormed(q.answer.table) &&
    match q
    case ColumnQuery(metas, answer) => Translatable(metas, answer.table)
    case RowQuery(metas, answer) =>
      AllReadable(answer.table) &&
      forall j :: 0 <= j < |metas| ==> metas[j].key in RowNames(lower, answer.table)
  }

  lemma RowQueryFindsAll(lower: string -> string, metas: seq<MetricMeta>, t: Table)
    requires AllReadable(t)
    ensures FirstMissing(metas, Readings(lower, t).Keys) == |metas| <==>
            forall j :: 0 <= j < |metas| ==> metas[j].key in RowNames(lower, t)
  {
    forall j | 0 <= j < |metas|
      ensures metas[j].key in Readings(lower, t) <==> metas[j].key in RowNames(lower, t)
    {
      ReadingsAreLookups(lower, t, metas[j].key);
    }
    if FirstMissing(metas, Readings(lower, t).Keys) == |metas| {
      assert forall j :: 0 <= j < |metas| ==> metas[j].key in Readings(lower, t).Keys;
    }
  }

  function QueryMetrics(lower: string -> string, q: Query): seq<Metric>
    requires Succeeds(lower, q)
  {
    match q
    case ColumnQuery(metas, answer) => ColumnMetrics(metas, answer.table)
    case RowQuery(metas, answer) =>
      RowQueryFindsAll(lower, metas, answer.table);
      RowMetrics(metas, Readings(lower, answer.table), |metas|)
  }

  /** The query is answered, every row can be read, and every key is there, cell by cell. */
  ghost predicate QueryFits(lower: string -> string, q: Query) {
    q.answer.Answered? &&
    var t := q.answer.table;
    match q
    case ColumnQuery(metas, _) => forall i :: 0 <= i < |t.rows| ==> ColumnRowFits(metas, t.columns, t.rows[i])
    case RowQuery(metas, _) =>
      && (forall i :: 0 <= i < |t.rows| ==> RowFits(t.columns, t.rows[i]))
      && (forall j :: 0 <= j < |metas| ==> SomeRowNamed(lower, t, metas[j].key))
  }

  /** The metrics are what the cells of the answer say, each in its place. */
  ghost predicate QueryAnswer(lower: string -> string, q: Query, metrics: seq<Metric>)
    requires q.answer.Answered?
  {
    match q
    case ColumnQuery(metas, answer) => ColumnAnswer(metas, answer.table, metrics)
    case RowQuery(metas, answer) => RowAnswer(lower, metas, answer.table, metrics)
  }

  lemma RowKeysFound(lower: string -> string, metas: seq<MetricMeta>, t: Table)
    requires AllReadable(t)
    ensures forall j :: 0 <= j < |metas| ==>
              (SomeRowNamed(lower, t, metas[j].key) <==> metas[j].key in RowNames(lower, t))
  {
    forall j | 0 <= j < |metas|
      ensures SomeRowNamed(lower, t, metas[j].key) <==> metas[j].key in RowNames(lower, t)
    {
      SomeRowNamedIff(lower, t, metas[j].key);
    }
  }

  lemma ReadableIff(t: Table)
    requires WellFormed(t)
    ensures AllReadable(t) <==> forall i :: 0 <= i < |t.rows| ==> RowFits(t.columns, t.rows[i])
  {
    forall i | 0 <= i < |t.rows| ensures Readable(t.columns, t.rows[i]) <==> RowFits(t.columns, t.rows[i]) {
      RowFitsIff(t.columns, t.rows[i]);
    }
  }

  lemma TranslatableIff(metas: seq<MetricMeta>, t: Table)
    ensures Translatable(metas, t) <==> forall i :: 0 <= i < |t.rows| ==> ColumnRowFits(metas, t.columns, t.rows[i])
  {
    forall i | 0 <= i < |t.rows|
      ensures ColumnRowError(metas, t.columns, t.rows[i]).None? <==> ColumnRowFits(metas, t.columns, t.rows[i])
    {
      ColumnRowFitsIff(metas, t.columns, t.rows[i]);
    }
  }

  /** A query succeeds iff it fits. */
  lemma SucceedsIffFits(lower: string -> string, q: Query)
    requires QueryWellFormed(q)
    ensures Succeeds(lower, q) <==> QueryFits(lower, q)
  {
    if q.answer.Answered? {
      var t := q.answer.table;
      if q.ColumnQuery? {
        TranslatableIff(q.metas, t);
      } else {
        ReadableIff(t);
        if AllReadable(t) {
          RowKeysFound(lower, q.metas, t);
        }
      }
    }
  }

  /** The metrics of a query that succeeds are its answer. */
  lemma QueryMetricsMeaning(lower: string -> string, q: Query)
    requires Succeeds(lower, q)
    ensures QueryAnswer(lower, q, QueryMetrics(lower, q))
  {
    match q
    case ColumnQuery(metas, answer) => ColumnMetricsMeaning(metas, answer.table);
    case RowQuery(metas, answer) =>
      RowQueryFindsAll(lower, metas, answer.table);
      RowMetricsMeaning(lower, metas, answer.table);
  }

  method GetMetricsByKind(lower: string -> string, q: Query) returns (metrics: seq<Metric>, err: Option<Error>)
    requires QueryWellFormed(q)
    ensures err.None? <==> Succeeds(lower, q)
    ensures err.None? ==> metrics == QueryMetrics(lower, q)
  {
    match q
    case ColumnQuery(metas, answer) =>
      metrics, err := ColumnGetMetrics(metas, answer);
      if answer.Answered? {
        ColumnErrorIffSomeRow(metas, answer.table);
      }
    case RowQuery(metas, answer) =>
      metrics, err := RowGetMetrics(lower, metas, answer);
      if answer.Answered? {
        ReadErrorIffSomeRow(answer.table);
        if ReadError(answer.table).None? {
          RowQueryFindsAll(lower, metas, answer.table);
        }
      }
  }

  method GetMetrics(lower: string -> string, q: Query) returns (metrics: seq<Metric>, err: Option<Error>)
    requires QueryWellFormed(q)
    ensures err.None? <==> Succeeds(lower, q)
    ensures err.None? ==> metrics == QueryMetrics(lower, q)
    ensures err.None? <==> QueryFits(lower, q)
    ensures err.None? ==> QueryAnswer(lower, q, metrics)
  {
    metrics, err := GetMetricsByKind(lower, q);
    SucceedsIffFits(lower, q);
    if err.None? {
      QueryMetricsMeaning(lower, q);
    }
  }

  /** Permuting the rows of a row query with distinct lower-cased names changes neither its success nor its metrics. */
  lemma RowQueryOrderDoesNotMatter(lower: string -> string, metas: seq<MetricMeta>, t: Table, t': Table)
    requires AllReadable(t) && Distinct(RowNames(lower, t))
    requires t'.columns == t.columns && multiset(t'.rows) == multiset(t.rows)
    ensures var q, q' := RowQuery(metas, Answered(t)), RowQuery(metas, Answered(t'));
            && (Succeeds(lower, q) <==> Succeeds(lower, q'))
            && (Succeeds(lower, q) ==> QueryMetrics(lower, q) == QueryMetrics(lower, q'))
  {
    RowOrderDoesNotMatter(lower, metas, t, t');
    PermutedRowsSameReadings(lower, t, t');
    RowQueryFindsAll(lower, metas, t);
    RowQueryFindsAll(lower, metas, t');
  }

  /** How many metrics a successful query has: one per key, in a column query for each row. */
  function QueryLength(q: Query): nat {
    match q
    case ColumnQuery(metas, answer) => if answer.Answered? then |answer.table.rows| * |metas| else 0
    case RowQuery(metas, _) => |metas|
  }

  /** Where the metrics of query `i` begin in the result. */
  function Offset(queries: seq<Query>, i: nat): nat
    requires i <= |queries|
  {
    if i == 0 then 0 else Offset(queries, i - 1) + QueryLength(queries[i - 1])
  }

  lemma AnswerLength(lower: string -> string, q: Query, metrics: seq<Metric>)
    requires q.answer.Answered? && QueryAnswer(lower, q, metrics)
    ensures |metrics| == QueryLength(q)
  {
  }

  /** The part of the result that belongs to query `k` is its answer. */
  ghost predicate Holds(lower: string -> string, queries: seq<Query>, k: nat, metrics: seq<Metric>)
    requires k < |queries|
  {
    && queries[k].answer.Answered?
    && Offset(queries, k + 1) <= |metrics|
    && QueryAnswer(lower, queries[k], metrics[Offset(queries, k)..Offset(queries, k + 1)])
  }

  ghost predicate HoldAll(lower: string -> string, queries: seq<Query>, n: nat, metrics: seq<Metric>)
    requires n <= |queries|
  {
    forall k :: 0 <= k < n ==> Holds(lower, queries, k, metrics)
  }

  ghost predicate AllFit(lower: string -> string, queries: seq<Query>, n: nat)
    requires n <= |queries|
  {
    forall k :: 0 <= k < n ==> QueryFits(lower, queries[k])
  }

  lemma HoldsLonger(lower: string -> string, queries: seq<Query>, k: nat, metrics: seq<Metric>, more: seq<Metric>)
    requires k < |queries| && Holds(lower, queries, k, metrics)
    ensures Holds(lower, queries, k, metrics + more)
  {
    var lo, hi := Offset(queries, k), Offset(queries, k + 1);
    assert (metrics + more)[lo..hi] == metrics[lo..hi];
  }

  lemma HoldsLast(lower: string -> string, queries: seq<Query>, i: nat, metrics: seq<Metric>, more: seq<Metric>)
    requires i < |queries| && |metrics| == Offset(queries, i)
    requires queries[i].answer.Answered? && QueryAnswer(lower, queries[i], more)
    ensures |metrics + more| == Offset(queries, i + 1) && Holds(lower, queries, i, metrics + more)
  {
    AnswerLength(lower, queries[i], more);
    assert (metrics + more)[Offset(queries, i)..Offset(queries, i + 1)] == more;
  }

  lemma HoldsNext(lower: string -> string, queries: seq<Query>, i: nat, metrics: seq<Metric>, more: seq<Metric>)
    requires i < |queries| && |metrics| == Offset(queries, i)
    requires queries[i].answer.Answered? && QueryAnswer(lower, queries[i], more)
    requires HoldAll(lower, queries, i, metrics)
    ensures |metrics + more| == Offset(queries, i + 1) && HoldAll(lower, queries, i + 1, metrics + more)
  {
    HoldsLast(lower, queries, i, metrics, more);
    forall k | 0 <= k < i ensures Holds(lower, queries, k, metrics + more) {
      HoldsLonger(lower, queries, k, metrics, more);
    }
  }

  /**
    All or nothing: the metrics of all queries in order, each block being the answer of its query cell
    by cell, or an error and no metrics at all, even where a failing row query had metrics to show.
   */
  method Collect(lower: string -> string, pingOk: bool, queries: seq<Query>)
    returns (metrics: seq<Metric>, err: Option<Error>)
    requires forall i :: 0 <= i < |queries| ==> QueryWellFormed(queries[i])
    ensures err.None? <==> pingOk && AllFit(lower, queries, |queries|)
    ensures err.None? ==> |metrics| == Offset(queries, |queries|) && HoldAll(lower, queries, |queries|, metrics)
    ensures err.Some? ==> metrics == []
  {
    metrics := [];
    if !pingOk {
      return metrics, Some(PingError);
    }
    for i := 0 to |queries|
      invariant AllFit(lower, queries, i)
      invariant |metrics| == Offset(queries, i) && HoldAll(lower, queries, i, metrics)
    {
      var newMetrics, queryErr := GetMetrics(lower, queries[i]);
      if queryErr.Some? {
        return [], queryErr;
      }
      HoldsNext(lower, queries, i, metrics, newMetrics);
      metrics := metrics + newMetrics;
    }
    return metrics, None;
  }
}
