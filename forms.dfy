/** Small decisions taken on submitted forms: the registration password
    check (validate_register_details) and the choice of which comment
    collection the patient page shows (patient_details). */
module Forms {
  import opened Wrappers
  import opened Scores

  /** A submitted form: field name to value. */
  type Form = map<string, string>

  datatype Request = Get | Post(form: Form)

  const PasswordMismatch: string := "Passwords do not match."

  /** The verdict and the notices flashed to the user. */
  datatype Validation = Validation(valid: bool, flashed: seq<string>)

  /** The registration form is accepted exactly when its two password fields
      agree; a mismatch flashes one notice. A missing field is a KeyError,
      `confirm_password` being read first. */
  function ValidateRegisterDetails(data: Form): (r: Outcome<Validation>)
    ensures r.Success? <==> "confirm_password" in data && "password" in data
    ensures r.Failure? ==>
      r.error == MissingKey(if "confirm_password" !in data then "confirm_password" else "password")
    ensures r.Success? ==> (r.value.valid <==> data["confirm_password"] == data["password"])
    ensures r.Success? ==> (r.value.flashed == [] <==> r.value.valid)
    ensures r.Success? && !r.value.valid ==> r.value.flashed == [PasswordMismatch]
  {
    var confirm :- Lookup(data, "confirm_password");
    var password :- Lookup(data, "password");
    if confirm != password then Success(Validation(false, [PasswordMismatch]))
    else Success(Validation(true, []))
  }

  /** The comment collections the patient page can show. */
  const CommentCategories: set<string> := KnownActivities + {GeneralComments}

  /** The `activity` codes the patient page names explicitly. */
  const RecognisedCodes: set<string> := {"feetTogether", "instep", "tandem", "general"}

  /** The collection named by the form's `activity` code; any code other
      than the four listed falls through to one-foot. */
  function CategoryOf(code: string): (c: string)
    ensures c in CommentCategories
    ensures code == "feetTogether" ==> c == FeetTogether
    ensures code == "instep" ==> c == Instep
    ensures code == "tandem" ==> c == Tandem
    ensures code == "general" ==> c == GeneralComments
    ensures c == OneFoot <==> code !in RecognisedCodes
  {
    NamesDistinct();
    if code == "feetTogether" then FeetTogether
    else if code == "instep" then Instep
    else if code == "tandem" then Tandem
    else if code == "general" then GeneralComments
    else OneFoot
  }

  /** The collection patient_details reads comments from: general comments
      on a plain visit, the selected one on a form post. */
  function CommentsCategory(req: Request): (r: Outcome<string>)
    ensures req.Get? ==> r == Success(GeneralComments)
    ensures req.Post? ==> (r.Failure? <==> "activity" !in req.form)
    ensures r.Failure? ==> r.error == MissingKey("activity")
    ensures r.Success? ==> r.value in CommentCategories
    ensures req.Post? && r.Success? ==> r.value == CategoryOf(req.form["activity"])
  {
    match req
    case Get => Success(GeneralComments)
    case Post(form) =>
      var code :- Lookup(form, "activity");
      Success(CategoryOf(code))
  }

  /** The four recognised codes name four different collections, and every
      collection can be reached from some code. */
  lemma {:induction false} CategoryOfCovers()
    ensures forall c :: c in CommentCategories ==> exists code :: CategoryOf(code) == c
    ensures forall a, b :: a in RecognisedCodes && b in RecognisedCodes && a != b ==>
      CategoryOf(a) != CategoryOf(b)
  {
    NamesDistinct();
    assert CategoryOf("feetTogether") == FeetTogether;
    assert CategoryOf("instep") == Instep;
    assert CategoryOf("tandem") == Tandem;
    assert CategoryOf("general") == GeneralComments;
    assert CategoryOf("") == OneFoot;
  }
}
