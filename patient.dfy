/** The patient record and its dictionary form (models/patient.py). */
module PatientModel {
  import opened Wrappers
  import opened Values

  /** The six keys, in the order from_dict reads them. */
  const FieldNames: seq<string> := ["firstname", "lastname", "age", "email", "condition", "activities"]
  const FieldKeys: set<string> := {"firstname", "lastname", "age", "email", "condition", "activities"}

  /** The value a Patient object holds. */
  datatype PatientRecord = PatientRecord(
    firstname: Value,
    lastname: Value,
    age: Value,
    email: Value,
    condition: Value,
    activities: Value)

  /** to_dict on a record value: each field under its own key. */
  function Encode(p: PatientRecord): (d: Dict)
    ensures d.Keys == FieldKeys
    ensures d["firstname"] == p.firstname && d["lastname"] == p.lastname && d["age"] == p.age
    ensures d["email"] == p.email && d["condition"] == p.condition && d["activities"] == p.activities
  {
    map[
      "firstname" := p.firstname,
      "lastname" := p.lastname,
      "age" := p.age,
      "email" := p.email,
      "condition" := p.condition,
      "activities" := p.activities]
  }

  /** from_dict on values: the record built from the six keys, or the
      KeyError of the first of them (in reading order) that is absent.
      Other keys are ignored. */
  function Decode(source: Dict): (r: Outcome<PatientRecord>)
    ensures r.Success? <==> FieldKeys <= source.Keys
    ensures r.Success? ==> r.value.firstname == source["firstname"] && r.value.lastname == source["lastname"]
    ensures r.Success? ==> r.value.age == source["age"] && r.value.email == source["email"]
    ensures r.Success? ==> r.value.condition == source["condition"] && r.value.activities == source["activities"]
    ensures r.Failure? ==> exists j ::
      && 0 <= j < |FieldNames|
      && r.error == MissingKey(FieldNames[j])
      && FieldNames[j] !in source
      && forall i :: 0 <= i < j ==> FieldNames[i] in source
  {
    assert FieldNames[0] == "firstname" && FieldNames[1] == "lastname" && FieldNames[2] == "age";
    assert FieldNames[3] == "email" && FieldNames[4] == "condition" && FieldNames[5] == "activities";
    var firstname :- Lookup(source, "firstname");
    var lastname :- Lookup(source, "lastname");
    var age :- Lookup(source, "age");
    var email :- Lookup(source, "email");
    var condition :- Lookup(source, "condition");
    var activities :- Lookup(source, "activities");
    Success(PatientRecord(firstname, lastname, age, email, condition, activities))
  }

  /** from_dict(to_dict(p)) gives back p. */
  lemma {:induction false} DecodeEncode(p: PatientRecord)
    ensures Decode(Encode(p)) == Success(p)
  {
  }

  /** to_dict(from_dict(d)) gives back d when d has exactly the six keys. */
  lemma {:induction false} EncodeDecode(d: Dict)
    requires d.Keys == FieldKeys
    ensures Decode(d).Success? && Encode(Decode(d).value) == d
  {
  }

  /** With extra keys, the round trip keeps just the six. */
  lemma {:induction false} EncodeDecodeRestricts(d: Dict)
    requires FieldKeys <= d.Keys
    ensures Encode(Decode(d).value) == map k | k in FieldKeys :: d[k]
  {
  }

  class Patient {
    var firstname: Value
    var lastname: Value
    var age: Value
    var email: Value
    var condition: Value
    var activities: Value

    /** Each argument is stored unchanged in the field of the same name. */
    constructor (firstname: Value, lastname: Value, age: Value, email: Value, condition: Value, activities: Value)
      ensures this.firstname == firstname && this.lastname == lastname && this.age == age
      ensures this.email == email && this.condition == condition && this.activities == activities
    {
      this.firstname := firstname;
      this.lastname := lastname;
      this.age := age;
      this.email := email;
      this.condition := condition;
      this.activities := activities;
    }

    function Record(): PatientRecord
      reads this
    {
      PatientRecord(firstname, lastname, age, email, condition, activities)
    }

    /** to_dict: exactly the six keys, each holding its field; reading it
        back with from_dict gives this patient's fields. */
    function ToDict(): (d: Dict)
      reads this
      ensures d.Keys == FieldKeys
      ensures d["firstname"] == firstname && d["lastname"] == lastname && d["age"] == age
      ensures d["email"] == email && d["condition"] == condition && d["activities"] == activities
      ensures Decode(d) == Success(Record())
    {
      Encode(Record())
    }

    /** from_dict: a new Patient with the values under the six keys, or the
        KeyError of the first missing one. */
    static method FromDict(source: Dict) returns (r: Outcome<Patient>)
      ensures r.Success? <==> FieldKeys <= source.Keys
      ensures r.Failure? ==> Decode(source) == Failure(r.error)
      ensures r.Success? ==> fresh(r.value) && Decode(source) == Success(r.value.Record())
    {
      var record := Decode(source);
      if record.Failure? {
        return Failure(record.error);
      }
      var p := record.value;
      var patient := new Patient(p.firstname, p.lastname, p.age, p.email, p.condition, p.activities);
      return Success(patient);
    }
  }
}
