/** The bar series of feet-together attempts per day over the last week of
    the patient's history (view_activity_progress). */
module DailySeries {
  import opened Wrappers
  import opened Scores
  import opened Sequences
  import opened Windows

  datatype DayCount = DayCount(day: int, count: nat)

  /** The rows the series counts: the feet-together rows, in table order. */
  function FeetTogetherRows(rows: seq<Row>): (ft: seq<Row>)
    ensures SubseqOf(ft, rows)
    ensures forall i :: 0 <= i < |ft| ==> ft[i].activityName == FeetTogether
    ensures forall x :: x in rows && x.activityName == FeetTogether ==> x in ft
  {
    assert forall x :: x in rows && x.activityName == FeetTogether ==> x in Keep(rows, Named(FeetTogether)) by {
      forall x | x in rows && x.activityName == FeetTogether ensures x in Keep(rows, Named(FeetTogether)) {
        KeepMember(rows, Named(FeetTogether), x);
      }
    }
    Keep(rows, Named(FeetTogether))
  }

  /** The earliest date in a non-empty table. */
  function MinDate(rows: seq<Row>): (m: int)
    requires rows != []
    ensures exists i :: 0 <= i < |rows| && rows[i].date == m
    ensures forall i :: 0 <= i < |rows| ==> m <= rows[i].date
  {
    if |rows| == 1 then rows[0].date
    else
      var m := MinDate(rows[1..]);
      assert forall i :: 1 <= i < |rows| ==> rows[i] == rows[1..][i - 1];
      if rows[0].date <= m then rows[0].date else m
  }

  /** The days lo, lo + 1, ..., hi (date_range, both ends included). */
  function Days(lo: int, hi: int): (r: seq<int>)
    ensures |r| == if lo <= hi then hi - lo + 1 else 0
    ensures forall i :: 0 <= i < |r| ==> r[i] == lo + i
    decreases hi - lo
  {
    if lo > hi then [] else [lo] + Days(lo + 1, hi)
  }

  /** Each day with the number of `rows` dated that day, 0 for none
      (groupby(date).size() reindexed with fill_value=0). */
  function Series(rows: seq<Row>, days: seq<int>): (s: seq<DayCount>)
    ensures |s| == |days|
    ensures forall i :: 0 <= i < |days| ==> s[i].day == days[i] && s[i].count <= |rows|
    ensures forall i :: 0 <= i < |days| ==>
      (s[i].count == 0 <==> forall j :: 0 <= j < |rows| ==> rows[j].date != days[i])
  {
    assert forall i :: 0 <= i < |days| ==>
      (|OnDate(rows, days[i])| == 0 <==> forall j :: 0 <= j < |rows| ==> rows[j].date != days[i]) by {
      forall i | 0 <= i < |days|
        ensures |OnDate(rows, days[i])| == 0 <==> forall j :: 0 <= j < |rows| ==> rows[j].date != days[i]
      {
        KeepNone(rows, On(days[i]));
      }
    }
    seq(|days|, i requires 0 <= i < |days| => DayCount(days[i], |OnDate(rows, days[i])|))
  }

  /** The daily-count series: the last (at most 7) days from the first
      feet-together attempt through today, each with its number of
      feet-together rows. Without any feet-together row the range starts
      at NaT, which pandas refuses. */
  function DailyCounts(rows: seq<Row>, today: int): (r: Outcome<seq<DayCount>>)
    ensures r.Failure? <==> FeetTogetherRows(rows) == []
    ensures r.Failure? ==> r.error == NoFirstDate
    ensures r.Success? ==> |r.value| <= 7
    ensures r.Success? ==> forall i :: 0 <= i < |r.value| ==>
      && r.value[i].day == today - |r.value| + 1 + i
      && r.value[i].day >= MinDate(FeetTogetherRows(rows))
      && r.value[i].count == |OnDate(FeetTogetherRows(rows), r.value[i].day)|
    ensures r.Success? ==>
      var first := MinDate(FeetTogetherRows(rows));
      |r.value| == if first > today then 0 else if today - first + 1 < 7 then today - first + 1 else 7
  {
    var ft := FeetTogetherRows(rows);
    if ft == [] then Failure(NoFirstDate)
    else
      var first := MinDate(ft);
      var start := if first > today - 6 then first else today - 6;
      Success(Series(ft, Days(start, today)))
  }

  /** A day's entry is 0 exactly when no feet-together attempt is dated
      that day, and equals the number of rows of that activity and day. */
  lemma {:induction false} CountMeaning(rows: seq<Row>, today: int, i: nat)
    requires DailyCounts(rows, today).Success?
    requires i < |DailyCounts(rows, today).value|
    ensures var e := DailyCounts(rows, today).value[i];
      && (e.count == 0 <==> forall j :: 0 <= j < |rows| ==> !(rows[j].activityName == FeetTogether && rows[j].date == e.day))
      && e.count == |Keep(rows, NamedOn(FeetTogether, e.day))|
  {
    var e := DailyCounts(rows, today).value[i];
    var ft := FeetTogetherRows(rows);
    KeepNone(ft, On(e.day));
    KeepStronger(rows, Named(FeetTogether), NamedOn(FeetTogether, e.day));
    assert forall j :: 0 <= j < |ft| ==> ft[j].activityName == FeetTogether;
    KeepAgree(ft, On(e.day), NamedOn(FeetTogether, e.day));
    forall j | 0 <= j < |rows| && rows[j].activityName == FeetTogether && rows[j].date == e.day
      ensures exists k :: 0 <= k < |ft| && ft[k].date == e.day
    {
      KeepMember(rows, Named(FeetTogether), rows[j]);
    }
    forall k | 0 <= k < |ft| && ft[k].date == e.day
      ensures exists j :: 0 <= j < |rows| && rows[j].activityName == FeetTogether && rows[j].date == e.day
    {
      KeepMember(rows, Named(FeetTogether), ft[k]);
    }
  }
}
