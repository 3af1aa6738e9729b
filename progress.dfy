/** The progress page of one patient (view_activity_progress): the
    pipeline from stored score documents to the tables and figures the
    page shows, with the faults it raises on the way. */
module Progress {
  import opened Wrappers
  import opened Scores
  import opened Sequences
  import opened ActivityRows
  import opened Percentages
  import opened Windows
  import opened DailySeries
  import opened Forms

  /** The views the `results` selector names; anything else shows the
      whole table. */
  function SelectView(choice: string, table: seq<Row>, today: int): (v: seq<Row>)
    ensures choice == "row_data_lastweek" ==> v == LastWeek(table, today)
    ensures choice == "row_data" ==> v == LastActivity(table)
    ensures choice == "row_data_lastmonth" ==> v == LastMonth(table, today)
    ensures choice !in {"row_data_lastweek", "row_data", "row_data_lastmonth"} ==> v == table
  {
    if choice == "row_data_lastweek" then LastWeek(table, today)
    else if choice == "row_data" then LastActivity(table)
    else if choice == "row_data_lastmonth" then LastMonth(table, today)
    else table
  }

  /** The rows the page's table shows: the last day's attempts on a plain
      visit or after a comment is saved, the selected view otherwise. */
  function RowData(req: Request, table: seq<Row>, today: int): (r: Outcome<seq<Row>>)
    ensures req.Get? ==> r == Success(LastActivity(table))
    ensures req.Post? ==> (r.Failure? <==>
      "comment_made" !in req.form || (req.form["comment_made"] == "" && "results" !in req.form))
    ensures req.Post? && "comment_made" !in req.form ==> r == Failure(MissingKey("comment_made"))
    ensures req.Post? && "comment_made" in req.form && req.form["comment_made"] == "" && "results" !in req.form ==>
      r == Failure(MissingKey("results"))
    ensures r.Failure? ==> r.error == MissingKey("comment_made") || r.error == MissingKey("results")
    ensures r.Success? ==> SubseqOf(r.value, table)
    ensures req.Post? && r.Success? && req.form["comment_made"] != "" ==> r.value == LastActivity(table)
    ensures req.Post? && r.Success? && req.form["comment_made"] == "" ==>
      r.value == SelectView(req.form["results"], table, today)
  {
    match req
    case Get => Success(LastActivity(table))
    case Post(form) =>
      var comment :- Lookup(form, "comment_made");
      if comment == "" then
        var results :- Lookup(form, "results");
        SubseqOfSelf(table);
        Success(SelectView(results, table, today))
      else Success(LastActivity(table))
  }

  /** What the handler hands to the template. `table` is the sorted,
      projected frame the views are taken from; the template receives only
      its column names, and the rows it shows are `rowData`. */
  datatype ProgressPage = ProgressPage(
    dailyCounts: seq<DayCount>,
    percentages: seq<real>,
    table: seq<TableRow>,
    rowData: seq<TableRow>,
    lastDate: int)

  /** Every known activity has at least one row. */
  predicate AllAttempted(rows: seq<Row>) {
    && Total(rows, FeetTogether) > 0
    && Total(rows, Tandem) > 0
    && Total(rows, Instep) > 0
    && Total(rows, OneFoot) > 0
  }

  /** The page: the rows are flattened, the daily series and the
      percentages computed, the table sorted latest first and the selected
      view taken from it. Faults in the order the handler meets them: an
      empty table has no date column, no feet-together attempt leaves the
      date range without a start, an unattempted activity divides by zero,
      a missing form field is a KeyError. */
  function ViewActivityProgress(docs: seq<ScoreDocument>, today: int, req: Request): (r: Outcome<ProgressPage>)
    ensures Flatten(docs) == [] ==> r == Failure(MissingKey("date_set"))
    ensures Flatten(docs) != [] && FeetTogetherRows(Flatten(docs)) == [] ==> r == Failure(NoFirstDate)
    ensures FeetTogetherRows(Flatten(docs)) != [] && CalculatePercentages(Flatten(docs)).Failure? ==>
      r == Failure(CalculatePercentages(Flatten(docs)).error)
    ensures FeetTogetherRows(Flatten(docs)) != [] && CalculatePercentages(Flatten(docs)).Success? ==>
      var view := RowData(req, SortByDateDesc(Flatten(docs)), today);
      (r.Failure? <==> view.Failure?) && (view.Failure? ==> r.error == view.error)
    ensures r.Success? ==>
      var rows := Flatten(docs);
      var sorted := SortByDateDesc(rows);
      && rows != []
      && DailyCounts(rows, today).Success? && r.value.dailyCounts == DailyCounts(rows, today).value
      && CalculatePercentages(rows).Success? && r.value.percentages == CalculatePercentages(rows).value
      && r.value.table == Project(sorted)
      && RowData(req, sorted, today).Success? && r.value.rowData == Project(RowData(req, sorted, today).value)
  {
    var rows := Flatten(docs);
    if rows == [] then Failure(MissingKey("date_set"))
    else
      var daily :- DailyCounts(rows, today);
      var percentages :- CalculatePercentages(rows);
      var sorted := SortByDateDesc(rows);
      var view :- RowData(req, sorted, today);
      Success(ProgressPage(daily, percentages, Project(sorted), Project(view), MaxDate(sorted)))
  }

  /** The page renders exactly when all four activities have been attempted
      and the form names its fields. */
  lemma {:induction false} ProgressSucceeds(docs: seq<ScoreDocument>, today: int, req: Request)
    ensures ViewActivityProgress(docs, today, req).Success? <==>
      AllAttempted(Flatten(docs)) && RowData(req, SortByDateDesc(Flatten(docs)), today).Success?
  {
    var rows := Flatten(docs);
    TotalCountsNamed(rows, FeetTogether);
    if rows == [] {
      assert Total(rows, FeetTogether) == 0;
    } else {
      assert DailyCounts(rows, today).Failure? <==> Total(rows, FeetTogether) == 0;
      assert CalculatePercentages(rows).Success? <==> AllAttempted(rows);
    }
  }

  /** A rendered page's sorted table holds a column projection of every
      flattened row and nothing else, its last date is the table's latest
      date, and the rows it shows are taken from the sorted table. */
  lemma {:induction false} ProgressShows(docs: seq<ScoreDocument>, today: int, req: Request)
    requires ViewActivityProgress(docs, today, req).Success?
    ensures var page := ViewActivityProgress(docs, today, req).value;
      && |page.table| == KnownKeyCount(docs)
      && (forall x :: x in Flatten(docs) ==> Columns(x) in page.table)
      && (forall t :: t in page.table ==> exists x :: x in Flatten(docs) && Columns(x) == t)
      && page.lastDate == MaxDate(Flatten(docs))
      && exists view :: SubseqOf(view, SortByDateDesc(Flatten(docs))) && page.rowData == Project(view)
  {
    var rows := Flatten(docs);
    FlattenLength(docs);
    SortedMaxDate(rows);
    var sorted := SortByDateDesc(rows);
    ProjectPermutation(rows, sorted);
    var view := RowData(req, sorted, today).value;
    assert SubseqOf(view, sorted);
  }

  /** The projection of a reordering of `rows` holds the projection of
      each row of `rows`, and nothing else. */
  lemma {:induction false} ProjectPermutation(rows: seq<Row>, sorted: seq<Row>)
    requires multiset(sorted) == multiset(rows)
    ensures |Project(sorted)| == |rows|
    ensures forall x :: x in rows ==> Columns(x) in Project(sorted)
    ensures forall t :: t in Project(sorted) ==> exists x :: x in rows && Columns(x) == t
  {
    var table := Project(sorted);
    assert |multiset(sorted)| == |multiset(rows)|;
    forall x | x in rows ensures Columns(x) in table {
      assert x in multiset(sorted);
      var i :| 0 <= i < |sorted| && sorted[i] == x;
      assert table[i] == Columns(x);
    }
    forall t | t in table ensures exists x :: x in rows && Columns(x) == t {
      var i :| 0 <= i < |table| && table[i] == t;
      assert sorted[i] in multiset(rows);
    }
  }

  /** Sorting the table does not change its latest date. */
  lemma {:induction false} SortedMaxDate(rows: seq<Row>)
    requires rows != []
    ensures SortByDateDesc(rows) != [] && MaxDate(SortByDateDesc(rows)) == MaxDate(rows)
  {
    var sorted := SortByDateDesc(rows);
    assert rows[0] in multiset(sorted);
    var i :| 0 <= i < |sorted| && sorted[i].date == MaxDate(sorted);
    var j :| 0 <= j < |rows| && rows[j].date == MaxDate(rows);
    assert sorted[i] in multiset(rows);
    assert rows[j] in multiset(sorted);
  }

  /** The week and month views shown from the sorted table hold the same
      rows as those of the unsorted one, and are sorted latest first. */
  lemma {:induction false} SortedWindows(rows: seq<Row>, today: int)
    ensures var sorted := SortByDateDesc(rows);
      && multiset(LastWeek(sorted, today)) == multiset(LastWeek(rows, today))
      && multiset(LastMonth(sorted, today)) == multiset(LastMonth(rows, today))
      && DatesDescending(LastWeek(sorted, today))
      && DatesDescending(LastMonth(sorted, today))
  {
    var sorted := SortByDateDesc(rows);
    KeepPermutation(sorted, rows, After(today - 7));
    KeepPermutation(sorted, rows, After(today - 28));
    KeepDescending(sorted, After(today - 7));
    KeepDescending(sorted, After(today - 28));
  }

  /** Likewise for the last day's view. */
  lemma {:induction false} SortedLastActivity(rows: seq<Row>)
    ensures var sorted := SortByDateDesc(rows);
      && multiset(LastActivity(sorted)) == multiset(LastActivity(rows))
      && DatesDescending(LastActivity(sorted))
  {
    var sorted := SortByDateDesc(rows);
    if rows != [] {
      SortedMaxDate(rows);
      var m := MaxDate(rows);
      KeepPermutation(sorted, rows, On(m));
      KeepDescending(sorted, On(m));
    }
  }

  /** The page renders only for a patient who has attempted all four
      activities: if no document holds an attempt at one of them (and each
      stored attempt is labelled with the key it is stored under), the
      handler fails. */
  lemma {:induction false} ProgressNeedsEveryActivity(docs: seq<ScoreDocument>, today: int, req: Request, a: string)
    requires a in KnownActivities
    requires forall i :: 0 <= i < |docs| ==> a !in docs[i]
    requires forall i, k :: 0 <= i < |docs| && k in docs[i] && k in KnownActivities ==> docs[i][k].activityName == k
    ensures ViewActivityProgress(docs, today, req).Failure?
  {
    NoRowsOf(docs, a);
    assert !AllAttempted(Flatten(docs));
    ProgressSucceeds(docs, today, req);
    assert !ViewActivityProgress(docs, today, req).Success?;
  }

  lemma {:induction false} NoRowsOf(docs: seq<ScoreDocument>, a: string)
    requires forall i :: 0 <= i < |docs| ==> a !in docs[i]
    requires forall i, k :: 0 <= i < |docs| && k in docs[i] && k in KnownActivities ==> docs[i][k].activityName == k
    ensures Total(Flatten(docs), a) == 0
  {
    var rows := Flatten(docs);
    forall j | 0 <= j < |rows| ensures !Named(a)(rows[j]) {
      FlattenMember(docs, rows[j]);
    }
    KeepNone(rows, Named(a));
    TotalCountsNamed(rows, a);
  }
}
