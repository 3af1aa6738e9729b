/** Per-activity completion percentages (calculate_percentages). */
module Percentages {
  import opened Wrappers
  import opened Scores
  import opened Sequences
  import opened Windows

  /** The order of the four values in the returned list. */
  const PercentOrder: seq<string> := [FeetTogether, Instep, Tandem, OneFoot]

  /** Number of rows of activity `a`: never more than the table has. */
  function Total(rows: seq<Row>, a: string): (n: nat)
    ensures n <= |rows|
  {
    if rows == [] then 0
    else (if rows[0].activityName == a then 1 else 0) + Total(rows[1..], a)
  }

  /** An activity has no rows exactly when no row names it. */
  lemma {:induction false} TotalZero(rows: seq<Row>, a: string)
    ensures Total(rows, a) == 0 <==> forall i :: 0 <= i < |rows| ==> rows[i].activityName != a
  {
    if rows != [] {
      TotalZero(rows[1..], a);
      assert forall i :: 1 <= i < |rows| ==> rows[i] == rows[1..][i - 1];
    }
  }

  /** Number of completed rows of activity `a`: never more than its rows. */
  function Completed(rows: seq<Row>, a: string): (n: nat)
    ensures n <= Total(rows, a)
  {
    if rows == [] then 0
    else
      (if rows[0].activityName == a && rows[0].completed then 1 else 0) + Completed(rows[1..], a)
  }

  /** The denominator is the number of rows the activity filter keeps. */
  lemma {:induction false} TotalCountsNamed(rows: seq<Row>, a: string)
    ensures Total(rows, a) == |Keep(rows, Named(a))|
  {
    if rows != [] {
      TotalCountsNamed(rows[1..], a);
    }
  }

  /** The exact completion ratio of activity `a`, in percent. */
  function Percentage(rows: seq<Row>, a: string): (p: real)
    requires Total(rows, a) > 0
    ensures p * (Total(rows, a) as real) == 100.0 * (Completed(rows, a) as real)
    ensures 0.0 <= p <= 100.0
  {
    RatioBounds(Completed(rows, a) as real, Total(rows, a) as real);
    (100.0 * (Completed(rows, a) as real)) / (Total(rows, a) as real)
  }

  lemma {:induction false} RatioBounds(c: real, t: real)
    requires 0.0 <= c <= t && t > 0.0
    ensures (100.0 * c) / t * t == 100.0 * c
    ensures 0.0 <= (100.0 * c) / t <= 100.0
  {
    var p := (100.0 * c) / t;
    assert p * t == 100.0 * c;
    assert p * t <= 100.0 * t;
  }

  /** The percentages of `acts` in that order, or the ZeroDivisionError the
      first activity without rows raises. */
  function PercentagesOf(rows: seq<Row>, acts: seq<string>): (r: Outcome<seq<real>>)
    ensures r.Success? <==> forall j :: 0 <= j < |acts| ==> Total(rows, acts[j]) > 0
    ensures r.Success? ==> (|r.value| == |acts| &&
      forall j :: 0 <= j < |acts| ==> Total(rows, acts[j]) > 0 && r.value[j] == Percentage(rows, acts[j]))
    ensures r.Failure? ==> exists j ::
      && 0 <= j < |acts|
      && r.error == ZeroDivision(acts[j])
      && Total(rows, acts[j]) == 0
      && forall i :: 0 <= i < j ==> Total(rows, acts[i]) > 0
  {
    if acts == [] then Success([])
    else if Total(rows, acts[0]) == 0 then Failure(ZeroDivision(acts[0]))
    else
      var rest := PercentagesOf(rows, acts[1..]);
      if rest.Failure? then
        assert forall j :: 1 <= j < |acts| ==> acts[j] == acts[1..][j - 1];
        rest
      else
        assert forall j :: 1 <= j < |acts| ==> acts[j] == acts[1..][j - 1];
        Success([Percentage(rows, acts[0])] + rest.value)
  }

  /** calculate_percentages: four values, in the order feet-together,
      Instep, Tandem, one-foot, each in [0, 100]; a ZeroDivisionError for
      the first of them that has no rows. */
  function CalculatePercentages(rows: seq<Row>): (r: Outcome<seq<real>>)
    ensures r.Success? <==>
      Total(rows, FeetTogether) > 0 && Total(rows, Instep) > 0 &&
      Total(rows, Tandem) > 0 && Total(rows, OneFoot) > 0
    ensures r.Success? ==> (|r.value| == 4 &&
      r.value[0] == Percentage(rows, FeetTogether) && r.value[1] == Percentage(rows, Instep) &&
      r.value[2] == Percentage(rows, Tandem) && r.value[3] == Percentage(rows, OneFoot))
    ensures r.Success? ==> forall j :: 0 <= j < 4 ==> 0.0 <= r.value[j] <= 100.0
    ensures r.Failure? ==> exists j ::
      && 0 <= j < |PercentOrder|
      && r.error == ZeroDivision(PercentOrder[j])
      && Total(rows, PercentOrder[j]) == 0
      && forall i :: 0 <= i < j ==> Total(rows, PercentOrder[i]) > 0
    ensures r.Failure? ==> r.error in {ZeroDivision(FeetTogether), ZeroDivision(Instep), ZeroDivision(Tandem), ZeroDivision(OneFoot)}
    ensures r.Failure? && Total(rows, FeetTogether) == 0 ==> r.error == ZeroDivision(FeetTogether)
  {
    var r := PercentagesOf(rows, PercentOrder);
    assert PercentOrder[0] == FeetTogether && PercentOrder[1] == Instep;
    assert PercentOrder[2] == Tandem && PercentOrder[3] == OneFoot;
    assert (forall j :: 0 <= j < 4 ==> Total(rows, PercentOrder[j]) > 0) <==>
      Total(rows, FeetTogether) > 0 && Total(rows, Instep) > 0 &&
      Total(rows, Tandem) > 0 && Total(rows, OneFoot) > 0;
    r
  }

  /** One completed and one failed Tandem attempt, and nothing else. */
  lemma {:induction false} TandemScenario(a: Row, b: Row)
    requires a.activityName == Tandem && a.completed
    requires b.activityName == Tandem && !b.completed
    ensures Percentage([a, b], Tandem) == 50.0
    ensures CalculatePercentages([a, b]) == Failure(ZeroDivision(FeetTogether))
  {
    NamesDistinct();
    assert [a, b][1..] == [b];
    assert [b][1..] == [];
    assert Total([b], Tandem) == 1 && Completed([b], Tandem) == 0;
    assert Total([a, b], Tandem) == 2;
    assert Completed([a, b], Tandem) == 1;
    assert Total([b], FeetTogether) == 0;
    assert Total([a, b], FeetTogether) == 0;
  }
}
