/** The data steps of the single-activity page (view_selected_activity):
    the menu of other activities and the rows of the chosen one. */
module SelectedActivity {
  import opened Wrappers
  import opened Values
  import opened Scores
  import opened Sequences
  import opened Windows
  import opened Percentages

  /** The entry appended after the other activities. */
  const OverallEntry: Dict := map["name" := Text("Overall")]

  function NotNamed(activity: string): Dict -> bool {
    (m: Dict) => !("name" in m && m["name"] == Text(activity))
  }

  /** The menu: every activity except the one shown, in catalogue order,
      then "Overall". An entry without a name is a KeyError. */
  function ActivityMenu(activities: seq<Dict>, activity: string): (r: Outcome<seq<Dict>>)
    ensures r.Success? <==> forall i :: 0 <= i < |activities| ==> "name" in activities[i]
    ensures r.Failure? ==> r.error == MissingKey("name")
    ensures r.Success? ==> |r.value| >= 1 && r.value[|r.value| - 1] == OverallEntry
    ensures r.Success? ==> SubseqOf(r.value[..|r.value| - 1], activities)
    ensures r.Success? ==> forall i :: 0 <= i < |r.value| - 1 ==>
      "name" in r.value[i] && r.value[i]["name"] != Text(activity)
    ensures r.Success? ==> forall i :: 0 <= i < |activities| && activities[i]["name"] != Text(activity) ==>
      activities[i] in r.value[..|r.value| - 1]
  {
    if exists i :: 0 <= i < |activities| && "name" !in activities[i] then Failure(MissingKey("name"))
    else
      var others := Keep(activities, NotNamed(activity));
      forall i | 0 <= i < |others| ensures "name" in others[i] && others[i]["name"] != Text(activity) {
        KeepMember(activities, NotNamed(activity), others[i]);
      }
      forall i | 0 <= i < |activities| && activities[i]["name"] != Text(activity)
        ensures activities[i] in others
      {
        KeepMember(activities, NotNamed(activity), activities[i]);
      }
      var menu := others + [OverallEntry];
      assert menu[..|menu| - 1] == others;
      Success(menu)
  }

  /** An activity appears in the menu exactly as often as in the catalogue,
      or not at all when it is the one shown. */
  lemma {:induction false} MenuCounts(activities: seq<Dict>, activity: string)
    requires ActivityMenu(activities, activity).Success?
    ensures var menu := ActivityMenu(activities, activity).value;
      forall x :: multiset(menu[..|menu| - 1])[x] ==
        if "name" in x && x["name"] == Text(activity) then 0 else multiset(activities)[x]
  {
    var menu := ActivityMenu(activities, activity).value;
    assert menu[..|menu| - 1] == Keep(activities, NotNamed(activity));
    KeepCount(activities, NotNamed(activity));
  }

  /** `df[df["activityName"] == activity]`: the chosen activity's rows in
      stored order; an empty table has no such column. */
  function SelectedRows(rows: seq<Row>, activity: string): (r: Outcome<seq<Row>>)
    ensures r.Failure? <==> rows == []
    ensures r.Failure? ==> r.error == MissingKey("activityName")
    ensures r.Success? ==> SubseqOf(r.value, rows)
    ensures r.Success? ==> forall i :: 0 <= i < |r.value| ==> r.value[i].activityName == activity
    ensures r.Success? ==> |r.value| == Total(rows, activity)
  {
    if rows == [] then Failure(MissingKey("activityName"))
    else
      TotalCountsNamed(rows, activity);
      Success(Keep(rows, Named(activity)))
  }

  /** `df.head(7)`: the attempts that get a signal plot are the first
      seven in stored order, not the latest seven. */
  function PlottedRows(selected: seq<Row>): (r: seq<Row>)
    ensures |r| == if |selected| < 7 then |selected| else 7
    ensures r == selected[..|r|]
  {
    if |selected| < 7 then selected else selected[..7]
  }
}
