/** The student form of the web front end (StudentFormClean.jsx): the form
    state, its initial values, the per-field change and reset handlers, the
    submit handler's bookkeeping, and the mapping of the user-facing scales
    onto the ranges the prediction service accepts. Numbers are JavaScript
    numbers that hold integers; NaN is represented by None. */
module StudentForm {
  import opened Base
  import Schema

  /** A value held by the form: a number from a slider, a number input or a
      numeric select, or the text of the gender select. */
  datatype FormValue = Num(n: int) | Text(s: string)

  type FormData = map<string, FormValue>

  /** A JavaScript number that is an integer, or NaN (None). */
  type JsNumber = Option<int>

  /** The values the form starts with and returns to on reset. */
  const InitialForm: FormData := map[
    "StudyHours" := Num(5),
    "Attendance" := Num(80),
    "Resources" := Num(3),
    "Extracurricular" := Num(1),
    "Motivation" := Num(6),
    "Internet" := Num(3),
    "Gender" := Text("other"),
    "Age" := Num(20),
    "OnlineCourses" := Num(1),
    "Discussions" := Num(3),
    "AssignmentCompletion" := Num(85),
    "ExamScore" := Num(70),
    "EduTech" := Num(3),
    "StressLevel" := Num(4),
    "FinalGrade" := Num(75)
  ]

  /** Number(v): a number stays itself; the empty text is 0, a text of decimal
      digits is its value, and any other text is NaN. */
  function ToNumber(v: FormValue): (r: JsNumber)
    ensures v.Num? ==> r == Some(v.n)
    ensures v.Text? ==> (r.Some? <==> AllDigits(v.s))
    ensures v.Text? && r.Some? ==> r.value >= 0
    ensures v == Text("") ==> r == Some(0)
    ensures v.Text? && AllDigits(v.s) ==> r == Some(ParseDecimal(v.s))
  {
    match v
    case Num(n) => Some(n)
    case Text(s) => if s == "" then Some(0) else if AllDigits(s) then Some(ParseDecimal(s)) else None
  }

  /** A number input holds the decimal numeral of its value; Number() reads
      that value back. */
  lemma NumberOfNumeral(n: nat)
    ensures ToNumber(Text(NatToDecimal(n))) == Some(n)
  {
    DecimalRoundTrip(n);
  }

  /** Number(formData[name]); a field that is not in the form is undefined,
      and Number(undefined) is NaN. */
  function FieldNumber(form: FormData, name: string): JsNumber
  {
    if name in form then ToNumber(form[name]) else None
  }

  // ---------------------------------------------------------------------
  // The scale mappers

  /** mapGender: 1 for "female" and 0 for everything else. */
  function MapGender(g: Option<FormValue>): (r: int)
    ensures r == 1 <==> g == Some(Text("female"))
    ensures r == 0 || r == 1
  {
    if g == Some(Text("female")) then 1 else 0
  }

  /** mapBinary, mapInternet and mapEduTech: 1 when the number is positive,
      0 otherwise; NaN is not positive. */
  function MapPositive(v: JsNumber): (r: int)
    ensures r == 1 <==> v.Some? && v.value > 0
    ensures r == 0 || r == 1
  {
    if v.Some? && v.value > 0 then 1 else 0
  }

  /** mapMotivation: the 0-10 scale rounded to the nearest fifth, clamped to
      0-2; NaN stays NaN. */
  function MapMotivation(v: JsNumber): (r: JsNumber)
    ensures r.Some? <==> v.Some?
    ensures r.Some? ==> 0 <= r.value <= 2
  {
    match v
    case None => None
    case Some(n) => Some(Min(2, Max(0, Round(n as real / 5.0))))
  }

  /** mapFinalGrade: the 0-100 scale rounded to the nearest tenth, clamped to
      0-10; NaN stays NaN. */
  function MapFinalGrade(v: JsNumber): (r: JsNumber)
    ensures r.Some? <==> v.Some?
    ensures r.Some? ==> 0 <= r.value <= 10
  {
    match v
    case None => None
    case Some(n) => Some(Min(10, Max(0, Round(n as real / 10.0))))
  }

  /** Motivation falls into three bands: up to 2 is low, 3 to 7 is medium,
      8 and above is high. */
  lemma MotivationBands(n: int)
    ensures MapMotivation(Some(n)) == Some(if n <= 2 then 0 else if n <= 7 then 1 else 2)
  {
    RoundFifth(n);
  }

  /** A higher motivation never maps to a lower level. */
  lemma MotivationMonotone(a: int, b: int)
    requires a <= b
    ensures MapMotivation(Some(a)).value <= MapMotivation(Some(b)).value
  {
    RoundMonotone(a as real / 5.0, b as real / 5.0);
  }

  /** On the slider's range, the final grade maps to the nearest tenth, halves
      going up: 75 becomes 8. */
  lemma FinalGradeNearestTenth(n: int)
    requires 0 <= n <= 100
    ensures 10 * MapFinalGrade(Some(n)).value - 5 <= n < 10 * MapFinalGrade(Some(n)).value + 5
    ensures n == 75 ==> MapFinalGrade(Some(n)) == Some(8)
  {
    RoundTenth(n);
  }

  /** A higher grade never maps to a lower one. */
  lemma FinalGradeMonotone(a: int, b: int)
    requires a <= b
    ensures MapFinalGrade(Some(a)).value <= MapFinalGrade(Some(b)).value
  {
    RoundMonotone(a as real / 10.0, b as real / 10.0);
  }

  // ---------------------------------------------------------------------
  // The request payload

  /** The keys of the payload, in the order it is built. */
  const PayloadKeys: seq<string> := [
    "StudyHours", "Attendance", "Resources", "Extracurricular", "Motivation",
    "Internet", "Gender", "Age", "OnlineCourses", "Discussions",
    "AssignmentCompletion", "ExamScore", "EduTech", "StressLevel", "FinalGrade"
  ]

  /** The positions in PayloadKeys of the fields sent without mapping. */
  predicate PassedThrough(i: int)
  {
    i in {0, 1, 2, 7, 8, 9, 10, 11, 13}
  }

  type Payload = seq<(string, JsNumber)>

  /** The payload posted to the service: the raw numbers for most fields and
      the mapped ones for the six fields whose scales differ. */
  function BuildPayload(form: FormData): (p: Payload)
    ensures |p| == |PayloadKeys|
    ensures forall i :: 0 <= i < |p| ==> p[i].0 == PayloadKeys[i]
    ensures forall i :: 0 <= i < |p| && PassedThrough(i) ==> p[i].1 == FieldNumber(form, PayloadKeys[i])
    ensures p[3].1.Some? && 0 <= p[3].1.value <= 1
    ensures p[4].1.Some? ==> 0 <= p[4].1.value <= 2
    ensures p[5].1.Some? && 0 <= p[5].1.value <= 1
    ensures p[6].1.Some? && 0 <= p[6].1.value <= 1
    ensures p[12].1.Some? && 0 <= p[12].1.value <= 1
    ensures p[14].1.Some? ==> 0 <= p[14].1.value <= 10
    ensures p[3].1 == Some(MapPositive(FieldNumber(form, "Extracurricular")))
    ensures p[4].1 == MapMotivation(FieldNumber(form, "Motivation"))
    ensures p[5].1 == Some(MapPositive(FieldNumber(form, "Internet")))
    ensures p[6].1 == Some(MapGender(if "Gender" in form then Some(form["Gender"]) else None))
    ensures p[12].1 == Some(MapPositive(FieldNumber(form, "EduTech")))
    ensures p[14].1 == MapFinalGrade(FieldNumber(form, "FinalGrade"))
  {
    var gender := if "Gender" in form then Some(form["Gender"]) else None;
    [
      ("StudyHours", FieldNumber(form, "StudyHours")),
      ("Attendance", FieldNumber(form, "Attendance")),
      ("Resources", FieldNumber(form, "Resources")),
      ("Extracurricular", Some(MapPositive(FieldNumber(form, "Extracurricular")))),
      ("Motivation", MapMotivation(FieldNumber(form, "Motivation"))),
      ("Internet", Some(MapPositive(FieldNumber(form, "Internet")))),
      ("Gender", Some(MapGender(gender))),
      ("Age", FieldNumber(form, "Age")),
      ("OnlineCourses", FieldNumber(form, "OnlineCourses")),
      ("Discussions", FieldNumber(form, "Discussions")),
      ("AssignmentCompletion", FieldNumber(form, "AssignmentCompletion")),
      ("ExamScore", FieldNumber(form, "ExamScore")),
      ("EduTech", Some(MapPositive(FieldNumber(form, "EduTech")))),
      ("StressLevel", FieldNumber(form, "StressLevel")),
      ("FinalGrade", MapFinalGrade(FieldNumber(form, "FinalGrade")))
    ]
  }

  /** What the initial form sends: motivation 6 becomes 1, internet quality 3
      and familiarity 3 become 1, gender "other" becomes 0, grade 75 becomes 8. */
  const InitialValues: seq<int> := [5, 80, 3, 1, 1, 1, 0, 20, 1, 3, 85, 70, 1, 4, 8]

  /** The initial values of the personal section. */
  lemma InitialPersonal()
    ensures "Gender" in InitialForm && InitialForm["Gender"] == Text("other")
    ensures FieldNumber(InitialForm, "Age") == Some(20)
    ensures FieldNumber(InitialForm, "Internet") == Some(3)
  {
  }

  /** The initial values of the sliders. */
  lemma InitialSliders()
    ensures FieldNumber(InitialForm, "StudyHours") == Some(5)
    ensures FieldNumber(InitialForm, "Attendance") == Some(80)
    ensures FieldNumber(InitialForm, "AssignmentCompletion") == Some(85)
    ensures FieldNumber(InitialForm, "ExamScore") == Some(70)
    ensures FieldNumber(InitialForm, "Motivation") == Some(6)
    ensures FieldNumber(InitialForm, "StressLevel") == Some(4)
    ensures FieldNumber(InitialForm, "FinalGrade") == Some(75)
  {
  }

  /** The initial values of the remaining number inputs and selects. */
  lemma InitialInputs()
    ensures FieldNumber(InitialForm, "Resources") == Some(3)
    ensures FieldNumber(InitialForm, "Extracurricular") == Some(1)
    ensures FieldNumber(InitialForm, "Discussions") == Some(3)
    ensures FieldNumber(InitialForm, "EduTech") == Some(3)
    ensures FieldNumber(InitialForm, "OnlineCourses") == Some(1)
  {
  }

  /** The fields the initial form sends unmapped. */
  lemma InitialPassedThrough(p: Payload)
    requires p == BuildPayload(InitialForm)
    ensures forall i :: 0 <= i < |PayloadKeys| && PassedThrough(i) ==> p[i].1 == Some(InitialValues[i])
  {
    InitialSliders();
    InitialInputs();
    InitialPersonal();
  }

  /** The fields the initial form sends mapped. */
  lemma InitialMapped(form: FormData, p: Payload)
    requires p == BuildPayload(form)
    requires FieldNumber(form, "Extracurricular") == Some(1) && FieldNumber(form, "Motivation") == Some(6)
    requires FieldNumber(form, "Internet") == Some(3) && "Gender" in form && form["Gender"] == Text("other")
    requires FieldNumber(form, "EduTech") == Some(3) && FieldNumber(form, "FinalGrade") == Some(75)
    ensures p[3].1 == Some(1) && p[4].1 == Some(1) && p[5].1 == Some(1)
    ensures p[6].1 == Some(0) && p[12].1 == Some(1) && p[14].1 == Some(8)
  {
    MotivationBands(6);
    RoundTenth(75);
  }

  lemma InitialPayload()
    ensures forall i :: 0 <= i < |PayloadKeys| ==> BuildPayload(InitialForm)[i].1 == Some(InitialValues[i])
  {
    var p := BuildPayload(InitialForm);
    InitialPassedThrough(p);
    InitialPersonal();
    InitialInputs();
    InitialSliders();
    InitialMapped(InitialForm, p);
    forall i | 0 <= i < |PayloadKeys| ensures p[i].1 == Some(InitialValues[i]) {
      if !PassedThrough(i) {
        assert i in {3, 4, 5, 6, 12, 14};
      }
    }
  }

  // ---------------------------------------------------------------------
  // The input controls

  /** An input of the form: a slider, number input or numeric select with its
      min and max, or a select among texts. */
  datatype Control = Range(name: string, lo: int, hi: int) | Choice(name: string, options: seq<string>)

  /** The most discussions per week the number input admits. */
  const DiscussionsInputMax: int := 20

  /** The inputs of the form, in the order of PayloadKeys, with the given
      maximum for the discussions input. */
  function Controls(discussionsMax: int): (cs: seq<Control>)
    ensures |cs| == |PayloadKeys|
    ensures forall i :: 0 <= i < |cs| ==> cs[i].name == PayloadKeys[i]
  {
    [
      Range("StudyHours", 0, 20), Range("Attendance", 0, 100), Range("Resources", 0, 5),
      Range("Extracurricular", 0, 40), Range("Motivation", 0, 10), Range("Internet", 0, 4),
      Choice("Gender", ["male", "female", "other"]), Range("Age", 10, 100),
      Range("OnlineCourses", 0, 1), Range("Discussions", 0, discussionsMax),
      Range("AssignmentCompletion", 0, 100), Range("ExamScore", 0, 100), Range("EduTech", 0, 5),
      Range("StressLevel", 0, 10), Range("FinalGrade", 0, 100)
    ]
  }

  /** The value is one the control can produce (and that the browser lets
      through on submit). */
  predicate Allows(c: Control, v: FormValue)
  {
    match c
    case Range(_, lo, hi) => v.Num? && lo <= v.n <= hi
    case Choice(_, options) => v.Text? && v.s in options
  }

  /** Every field of the form holds a value its control allows. */
  predicate WithinControls(form: FormData, controls: seq<Control>)
  {
    forall i :: 0 <= i < |controls| ==> controls[i].name in form && Allows(controls[i], form[controls[i].name])
  }

  /** The initial values are all ones the controls can produce, whatever the
      discussions input's maximum, as long as it admits the initial 3. */
  lemma InitialFormWithinControls(discussionsMax: int)
    requires discussionsMax >= 3
    ensures WithinControls(InitialForm, Controls(discussionsMax))
  {
  }

  /** No two controls edit the same field. */
  predicate DistinctNames(controls: seq<Control>)
  {
    forall i, j :: 0 <= i < j < |controls| ==> controls[i].name != controls[j].name
  }

  lemma ControlsDistinct(discussionsMax: int)
    ensures DistinctNames(Controls(discussionsMax))
  {
    var cs := Controls(discussionsMax);
    forall i, j | 0 <= i < j < |cs| ensures cs[i].name != cs[j].name {
      assert cs[i].name == PayloadKeys[i] && cs[j].name == PayloadKeys[j];
    }
  }

  /** A change made through one of the form's controls keeps every field
      within its control. */
  lemma ChangeKeepsWithinControls(form: FormData, controls: seq<Control>, i: int, value: FormValue)
    requires WithinControls(form, controls) && DistinctNames(controls)
    requires 0 <= i < |controls| && Allows(controls[i], value)
    ensures WithinControls(form[controls[i].name := value], controls)
  {
    var changed := form[controls[i].name := value];
    forall j | 0 <= j < |controls|
      ensures controls[j].name in changed && Allows(controls[j], changed[controls[j].name])
    {
      if j != i {
        assert controls[j].name != controls[i].name;
      }
    }
  }

  // ---------------------------------------------------------------------
  // Style names

  const StyleNames: seq<string> := ["Visual", "Auditory", "Kinesthetic", "Reading/Writing"]

  /** learningName: the name of one of the four styles, or "Style <id>" for
      any other id. */
  function LearningName(id: int): (name: string)
    ensures 0 <= id < 4 ==> name == StyleNames[id]
    ensures !(0 <= id < 4) ==> |name| > 6 && name[..6] == "Style " && name[6..] == IntToDecimal(id)
  {
    if 0 <= id < 4 then StyleNames[id] else "Style " + IntToDecimal(id)
  }

  /** Distinct ids are shown under distinct names. */
  lemma LearningNameInjective(a: int, b: int)
    requires LearningName(a) == LearningName(b)
    ensures a == b
  {
    var na, nb := LearningName(a), LearningName(b);
    if !(0 <= a < 4) && !(0 <= b < 4) {
      assert na[6..] == nb[6..];
      IntToDecimalInjective(a, b);
    }
  }

  // ---------------------------------------------------------------------
  // The component's state

  /** A failed request as axios reports it: the server's response body when
      there was a response, and the error's message. */
  datatype RequestFailure = RequestFailure(responseData: Option<Schema.Value>, message: string)

  /** JavaScript truthiness of a JSON value. Other stands for null, booleans,
      floats and arrays; only null and false among them are modelled as falsy. */
  predicate Truthy(v: Schema.Value)
  {
    match v
    case Int(i) => i != 0
    case Str(s) => s != ""
    case Obj(_) => true
    case Other(json) => json != "null" && json != "false"
  }

  /** err.response?.data || err.message: what the form shows for a failed request. */
  function ShownError(f: RequestFailure): (e: Schema.Value)
    ensures f.responseData.Some? && Truthy(f.responseData.value) ==> e == f.responseData.value
    ensures !(f.responseData.Some? && Truthy(f.responseData.value)) ==> e == Schema.Str(f.message)
  {
    if f.responseData.Some? && Truthy(f.responseData.value) then f.responseData.value else Schema.Str(f.message)
  }

  class StudentFormState {
    var formData: FormData
    var loading: bool
    var result: Option<Schema.Value>
    var error: Option<Schema.Value>

    constructor ()
      ensures formData == InitialForm && !loading && result.None? && error.None?
    {
      formData := InitialForm;
      loading := false;
      result := None;
      error := None;
    }

    /** handleChange: the named field takes the new value; every other field,
        and the rest of the state, stays as it was. */
    method HandleChange(name: string, value: FormValue)
      modifies this
      ensures formData == old(formData)[name := value]
      ensures forall k :: k in old(formData) && k != name ==> k in formData && formData[k] == old(formData)[k]
      ensures loading == old(loading) && result == old(result) && error == old(error)
    {
      formData := formData[name := value];
    }

    /** handleReset: the initial values come back and the last result and
        error are cleared; a request in flight stays in flight. */
    method HandleReset()
      modifies this
      ensures formData == InitialForm && result.None? && error.None?
      ensures loading == old(loading)
    {
      formData := InitialForm;
      result := None;
      error := None;
    }

    /** The synchronous part of handleSubmit, up to the request: the form is
        marked as loading, the last result and error are cleared, and the
        payload built from the current values is returned for posting. */
    method BeginSubmit() returns (payload: Payload)
      modifies this
      ensures payload == BuildPayload(formData)
      ensures formData == old(formData)
      ensures loading && result.None? && error.None?
    {
      loading := true;
      error := None;
      result := None;
      payload := BuildPayload(formData);
    }

    /** The rest of handleSubmit, once the request has settled: the response
        body becomes the result, or the failure becomes the error; either way
        loading ends. */
    method FinishSubmit(outcome: Result<Schema.Value, RequestFailure>)
      modifies this
      ensures !loading && formData == old(formData)
      ensures outcome.Success? ==> result == Some(outcome.value) && error == old(error)
      ensures outcome.Failure? ==> error == Some(ShownError(outcome.error)) && result == old(result)
    {
      match outcome {
        case Success(data) => result := Some(data);
        case Failure(f) => error := Some(ShownError(f));
      }
      loading := false;
    }
  }

  /** A submission right after a reset sends the initial payload. */
  method ResetThenSubmit(form: StudentFormState) returns (payload: Payload)
    modifies form
    ensures payload == BuildPayload(InitialForm)
    ensures form.loading && form.result.None? && form.error.None?
  {
    form.HandleReset();
    payload := form.BeginSubmit();
  }
}
