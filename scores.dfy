/** The score records a patient's balance attempts are stored as, and the
    four activity names the reporting code recognises. */
module Scores {

  const FeetTogether: string := "Stand with your feet side-by-side"
  const Tandem: string := "Tandem Stance"
  const Instep: string := "Instep Stance"
  const OneFoot: string := "Stand on one foot"
  const GeneralComments: string := "General comments"

  const KnownActivities: set<string> := {FeetTogether, Tandem, Instep, OneFoot}

  /** One attempt. `date` is a day number (the parsed `date_set`); the
      sensor readings are kept as exact reals. */
  datatype Row = Row(
    activityName: string,
    date: int,
    maxValue: real,
    minValue: real,
    avgValue: real,
    completed: bool,
    accData: seq<real>)

  /** One stored score document: activity name to the attempt recorded
      under it. */
  type ScoreDocument = map<string, Row>

  /** A row of the progress table: the six columns the page shows, without
      the raw samples. */
  datatype TableRow = TableRow(
    activityName: string,
    date: int,
    maxValue: real,
    minValue: real,
    avgValue: real,
    completed: bool)

  function Columns(r: Row): TableRow {
    TableRow(r.activityName, r.date, r.maxValue, r.minValue, r.avgValue, r.completed)
  }

  function Project(rows: seq<Row>): seq<TableRow> {
    seq(|rows|, i requires 0 <= i < |rows| => Columns(rows[i]))
  }

  /** The five comment categories are five different names. */
  lemma {:induction false} NamesDistinct()
    ensures FeetTogether != Tandem && FeetTogether != Instep && FeetTogether != OneFoot
    ensures Tandem != Instep && Tandem != OneFoot && Instep != OneFoot
    ensures GeneralComments !in KnownActivities
    ensures |KnownActivities| == 4
  {
    assert FeetTogether[0] != Tandem[0] && FeetTogether[0] != Instep[0];
    assert FeetTogether[6] != OneFoot[6];
    assert Tandem[0] != Instep[0] && Tandem[0] != OneFoot[0] && Instep[0] != OneFoot[0];
    assert GeneralComments[0] != FeetTogether[0] && GeneralComments[0] != Tandem[0];
    assert GeneralComments[0] != Instep[0] && GeneralComments[0] != OneFoot[0];
  }
}
