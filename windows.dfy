/** The views of the progress table: sorted by date, the last day's
    attempts, the last week and the last month (view_activity_progress). */
module Windows {
  import opened Wrappers
  import opened Scores
  import opened Sequences

  ghost predicate DatesDescending(rows: seq<Row>) {
    forall i, j :: 0 <= i < j < |rows| ==> rows[i].date >= rows[j].date
  }

  /** `x` placed before the first row of `s` that is not newer than it. */
  function Insert(x: Row, s: seq<Row>): (r: seq<Row>)
    ensures |r| == |s| + 1
  {
    if s == [] then [x]
    else if x.date >= s[0].date then [x] + s
    else [s[0]] + Insert(x, s[1..])
  }

  lemma {:induction false} InsertElements(x: Row, s: seq<Row>)
    ensures multiset(Insert(x, s)) == multiset(s) + multiset{x}
  {
    if s != [] && x.date < s[0].date {
      InsertElements(x, s[1..]);
      assert s == [s[0]] + s[1..];
    }
  }

  lemma {:induction false} InsertDescending(x: Row, s: seq<Row>)
    requires DatesDescending(s)
    ensures DatesDescending(Insert(x, s))
  {
    if s != [] && x.date < s[0].date {
      var rest := s[1..];
      assert DatesDescending(rest);
      InsertDescending(x, rest);
      InsertElements(x, rest);
      var tail := Insert(x, rest);
      forall k | 0 <= k < |tail| ensures s[0].date >= tail[k].date {
        assert tail[k] in multiset(rest) + multiset{x};
      }
    }
  }

  /** The table sorted by date, latest first (sort_values(ascending=False)):
      a permutation of the rows with dates non-increasing. */
  function SortByDateDesc(rows: seq<Row>): (s: seq<Row>)
    ensures multiset(s) == multiset(rows)
    ensures DatesDescending(s)
  {
    if rows == [] then []
    else
      var sortedTail := SortByDateDesc(rows[1..]);
      InsertElements(rows[0], sortedTail);
      InsertDescending(rows[0], sortedTail);
      assert rows == [rows[0]] + rows[1..];
      Insert(rows[0], sortedTail)
  }

  /** The latest date in a non-empty table. */
  function MaxDate(rows: seq<Row>): (m: int)
    requires rows != []
    ensures exists i :: 0 <= i < |rows| && rows[i].date == m
    ensures forall i :: 0 <= i < |rows| ==> rows[i].date <= m
  {
    if |rows| == 1 then rows[0].date
    else
      var m := MaxDate(rows[1..]);
      assert forall i :: 1 <= i < |rows| ==> rows[i] == rows[1..][i - 1];
      if rows[0].date >= m then rows[0].date else m
  }

  /** `df["date_set"].max()`: absent (NaN) for an empty table. */
  function LastDate(rows: seq<Row>): (d: Option<int>)
    ensures d.None? <==> rows == []
    ensures d.Some? ==> exists i :: 0 <= i < |rows| && rows[i].date == d.value
    ensures d.Some? ==> forall i :: 0 <= i < |rows| ==> rows[i].date <= d.value
  {
    if rows == [] then None else Some(MaxDate(rows))
  }

  function After(bound: int): Row -> bool {
    (r: Row) => r.date > bound
  }

  function Named(activity: string): Row -> bool {
    (r: Row) => r.activityName == activity
  }

  function NamedOn(activity: string, day: int): Row -> bool {
    (r: Row) => r.activityName == activity && r.date == day
  }

  function On(day: int): Row -> bool {
    (r: Row) => r.date == day
  }

  /** Rows whose date is `day`, in table order. */
  function OnDate(rows: seq<Row>, day: int): seq<Row> {
    Keep(rows, On(day))
  }

  /** lastActivity: the rows of the latest date, in table order; empty
      only for an empty table. */
  function LastActivity(rows: seq<Row>): (v: seq<Row>)
    ensures SubseqOf(v, rows)
    ensures v == [] <==> rows == []
    ensures forall i, j :: 0 <= i < |v| && 0 <= j < |rows| ==> rows[j].date <= v[i].date
  {
    match LastDate(rows)
    case None => []
    case Some(m) =>
      var i :| 0 <= i < |rows| && rows[i].date == m;
      KeepMember(rows, On(m), rows[i]);
      OnDate(rows, m)
  }

  /** last_week: the rows dated after today - 7, in table order. */
  function LastWeek(rows: seq<Row>, today: int): (v: seq<Row>)
    ensures SubseqOf(v, rows)
    ensures forall i :: 0 <= i < |v| ==> v[i].date > today - 7
    ensures forall x :: x in rows && x.date > today - 7 ==> x in v
  {
    assert forall x :: x in rows && x.date > today - 7 ==> x in Keep(rows, After(today - 7)) by {
      forall x | x in rows && x.date > today - 7 ensures x in Keep(rows, After(today - 7)) {
        KeepMember(rows, After(today - 7), x);
      }
    }
    Keep(rows, After(today - 7))
  }

  /** last_month: the rows dated after today - 28, in table order. */
  function LastMonth(rows: seq<Row>, today: int): (v: seq<Row>)
    ensures SubseqOf(v, rows)
    ensures forall i :: 0 <= i < |v| ==> v[i].date > today - 28
    ensures forall x :: x in rows && x.date > today - 28 ==> x in v
  {
    assert forall x :: x in rows && x.date > today - 28 ==> x in Keep(rows, After(today - 28)) by {
      forall x | x in rows && x.date > today - 28 ensures x in Keep(rows, After(today - 28)) {
        KeepMember(rows, After(today - 28), x);
      }
    }
    Keep(rows, After(today - 28))
  }

  /** The last view holds exactly the rows of the maximum date, ties
      included and in table order; it is non-empty for a non-empty table,
      and every row left out is strictly older. */
  lemma {:induction false} LastActivityExact(rows: seq<Row>)
    ensures SubseqOf(LastActivity(rows), rows)
    ensures LastActivity(rows) == [] <==> rows == []
    ensures rows != [] ==> forall x ::
      multiset(LastActivity(rows))[x] == if x.date == MaxDate(rows) then multiset(rows)[x] else 0
    ensures rows != [] ==> forall i :: 0 <= i < |rows| ==>
      (rows[i] in LastActivity(rows) <==> rows[i].date == MaxDate(rows))
    ensures rows != [] ==> forall x :: x in rows && x !in LastActivity(rows) ==> x.date < MaxDate(rows)
  {
    if rows != [] {
      var m := MaxDate(rows);
      KeepCount(rows, On(m));
      KeepNone(rows, On(m));
      forall x | true ensures x in LastActivity(rows) <==> x in rows && x.date == m {
        KeepMember(rows, On(m), x);
      }
    }
  }

  /** The week and month views hold exactly the rows after their bound,
      with their multiplicities, in table order. */
  lemma {:induction false} WindowsExact(rows: seq<Row>, today: int)
    ensures SubseqOf(LastWeek(rows, today), rows) && SubseqOf(LastMonth(rows, today), rows)
    ensures forall x :: multiset(LastWeek(rows, today))[x] == (if x.date > today - 7 then multiset(rows)[x] else 0)
    ensures forall x :: multiset(LastMonth(rows, today))[x] == (if x.date > today - 28 then multiset(rows)[x] else 0)
  {
    KeepCount(rows, After(today - 7));
    KeepCount(rows, After(today - 28));
  }

  /** last week is contained in last month, which is contained in the table:
      the week view is the month view filtered once more. */
  lemma {:induction false} WeekWithinMonth(rows: seq<Row>, today: int)
    ensures LastWeek(rows, today) == Keep(LastMonth(rows, today), After(today - 7))
    ensures SubseqOf(LastWeek(rows, today), LastMonth(rows, today))
    ensures forall x :: x in LastWeek(rows, today) ==> x in LastMonth(rows, today)
  {
    KeepStronger(rows, After(today - 28), After(today - 7));
    forall x | x in LastWeek(rows, today) ensures x in LastMonth(rows, today) {
      KeepMember(rows, After(today - 7), x);
      KeepMember(rows, After(today - 28), x);
    }
  }

  /** A view of a table sorted latest first is itself sorted latest first. */
  lemma {:induction false} KeepDescending(rows: seq<Row>, p: Row -> bool)
    requires DatesDescending(rows)
    ensures DatesDescending(Keep(rows, p))
  {
    if rows != [] {
      var rest := Keep(rows[1..], p);
      KeepDescending(rows[1..], p);
      assert DatesDescending(rows[1..]) by {
        assert forall i :: 0 <= i < |rows| - 1 ==> rows[1..][i] == rows[i + 1];
      }
      forall k | 0 <= k < |rest| ensures rows[0].date >= rest[k].date {
        KeepMember(rows[1..], p, rest[k]);
      }
    }
  }
}
