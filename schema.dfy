/** The request schema of the prediction service (main.py): the StudentData
    field table with its bounds, request-body validation against that table
    (what FastAPI and pydantic do before the handler runs), the handler that
    turns validation errors into a 422 body, and the projection of the
    validated record onto the encoder's fixed column order. */
module Schema {
  import opened Base

  /** A JSON value of a request body. Int stands for any value that pydantic
      accepts as an integer in lax mode: an integer, a float with no fractional
      part, a numeric string, and true/false, which are written Int(1)/Int(0).
      Other stands for null, floats with a fractional part, and arrays. */
  datatype Value = Int(i: int) | Str(s: string) | Obj(fields: map<string, Value>) | Other(json: string)

  /** One declared field of StudentData with its inclusive ge/le bounds. */
  datatype Field = Field(name: string, lo: int, hi: int)

  /** The fields of StudentData, in declaration order. */
  const StudentFields: seq<Field> := [
    Field("StudyHours", 0, 100),
    Field("Attendance", 0, 100),
    Field("Resources", 0, 10),
    Field("Extracurricular", 0, 1),
    Field("Motivation", 0, 2),
    Field("Internet", 0, 1),
    Field("Gender", 0, 1),
    Field("Age", 10, 100),
    Field("OnlineCourses", 0, 50),
    Field("Discussions", 0, 10),
    Field("AssignmentCompletion", 0, 100),
    Field("ExamScore", 0, 100),
    Field("EduTech", 0, 1),
    Field("StressLevel", 0, 10),
    Field("FinalGrade", 0, 10)
  ]

  function Names(fields: seq<Field>): seq<string>
  {
    seq(|fields|, i requires 0 <= i < |fields| => fields[i].name)
  }

  predicate InBounds(f: Field, v: int) { f.lo <= v <= f.hi }

  /** A validated StudentData: one integer per declared field, in declaration
      order, each within its field's bounds. */
  predicate IsStudentData(values: seq<int>)
  {
    |values| == |StudentFields| &&
    forall i :: 0 <= i < |values| ==> InBounds(StudentFields[i], values[i])
  }

  /** The field is present in the body, holds an integer, and is in bounds. */
  predicate Accepted(body: map<string, Value>, f: Field)
  {
    f.name in body && body[f.name].Int? && InBounds(f, body[f.name].i)
  }

  // ---------------------------------------------------------------------
  // Validation errors, as pydantic reports them

  /** One element of an error location: a key or a list position. */
  datatype LocPart = Key(key: string) | Index(index: int)

  /** An entry of exc.errors(); input is absent when the error carries none. */
  datatype ValidationError = ValidationError(loc: seq<LocPart>, msg: string, input: Option<Value>)

  const NotAnObject := "Input should be a valid dictionary or object to extract fields from"
  const Missing := "Field required"
  const NotAnInteger := "Input should be a valid integer"
  const UnparsableInteger := "Input should be a valid integer, unable to parse string as an integer"

  /** The JSON null, which also stands for an absent body. */
  const Null := Other("null")

  /** The error pydantic reports for one field, if any: a missing field, a
      non-integer value, or the first bound the value breaks. */
  function FieldError(body: map<string, Value>, f: Field): (e: Option<ValidationError>)
    ensures e.None? <==> Accepted(body, f)
    ensures e.Some? ==> e.value.loc == [Key("body"), Key(f.name)] && e.value.input.Some?
    ensures e.Some? && f.name in body ==> e.value.input == Some(body[f.name])
  {
    var loc := [Key("body"), Key(f.name)];
    if f.name !in body then
      Some(ValidationError(loc, Missing, Some(Obj(body))))
    else
      match body[f.name]
      case Int(v) =>
        if v < f.lo then
          Some(ValidationError(loc, "Input should be greater than or equal to " + IntToDecimal(f.lo), Some(Int(v))))
        else if v > f.hi then
          Some(ValidationError(loc, "Input should be less than or equal to " + IntToDecimal(f.hi), Some(Int(v))))
        else
          None
      case Str(_) =>
        Some(ValidationError(loc, UnparsableInteger, Some(body[f.name])))
      case _ =>
        Some(ValidationError(loc, NotAnInteger, Some(body[f.name])))
  }

  /** The message of a field's error: missing, not an integer (a text that
      does not parse as one, or another kind of value), or the bound broken. */
  lemma FieldErrorMessage(body: map<string, Value>, f: Field)
    ensures f.name !in body ==>
      FieldError(body, f) == Some(ValidationError([Key("body"), Key(f.name)], Missing, Some(Obj(body))))
    ensures f.name in body && body[f.name].Str? ==> FieldError(body, f).value.msg == UnparsableInteger
    ensures f.name in body && (body[f.name].Obj? || body[f.name].Other?) ==>
      FieldError(body, f).value.msg == NotAnInteger
    ensures f.name in body && body[f.name].Int? && body[f.name].i < f.lo ==>
      FieldError(body, f).value.msg == "Input should be greater than or equal to " + IntToDecimal(f.lo)
    ensures f.name in body && body[f.name].Int? && f.lo <= body[f.name].i && f.hi < body[f.name].i ==>
      FieldError(body, f).value.msg == "Input should be less than or equal to " + IntToDecimal(f.hi)
  {
  }

  /** The fields the body fails, in declaration order. */
  function Rejected(body: map<string, Value>, fields: seq<Field>): (bad: seq<Field>)
    ensures |bad| <= |fields|
  {
    if fields == [] then []
    else if Accepted(body, fields[0]) then Rejected(body, fields[1..])
    else [fields[0]] + Rejected(body, fields[1..])
  }

  /** The rejected fields are exactly the declared fields the body fails. */
  lemma {:induction false} RejectedFields(body: map<string, Value>, fields: seq<Field>, f: Field)
    ensures f in Rejected(body, fields) <==> f in fields && !Accepted(body, f)
  {
    if fields != [] {
      RejectedFields(body, fields[1..], f);
      assert fields == [fields[0]] + fields[1..];
    }
  }

  /** All errors for the given fields, in declaration order: exactly one per
      rejected field, that field's own error. */
  function FieldErrors(body: map<string, Value>, fields: seq<Field>): (errs: seq<ValidationError>)
    ensures |errs| == |Rejected(body, fields)|
    ensures forall j :: 0 <= j < |errs| ==> FieldError(body, Rejected(body, fields)[j]) == Some(errs[j])
    ensures forall j :: 0 <= j < |errs| ==>
      errs[j].loc == [Key("body"), Key(Rejected(body, fields)[j].name)]
    ensures errs == [] <==> forall i :: 0 <= i < |fields| ==> Accepted(body, fields[i])
  {
    if fields == [] then []
    else
      match FieldError(body, fields[0])
      case None => FieldErrors(body, fields[1..])
      case Some(e) => [e] + FieldErrors(body, fields[1..])
  }

  /** The field values of an accepted body, in declaration order. */
  function Values(body: map<string, Value>, fields: seq<Field>): (values: seq<int>)
    requires forall i :: 0 <= i < |fields| ==> Accepted(body, fields[i])
    ensures |values| == |fields|
    ensures forall i :: 0 <= i < |fields| ==>
      fields[i].name in body && body[fields[i].name] == Int(values[i]) && InBounds(fields[i], values[i])
  {
    if fields == [] then []
    else
      assert Accepted(body, fields[0]);
      [body[fields[0].name].i] + Values(body, fields[1..])
  }

  /** Validation of a request body against StudentData. Fields that are not
      declared are ignored; every declared field must be present, an integer
      and within its bounds. A null or absent body is a missing body, reported
      with null as its input; any other non-object is not a model input. */
  function Validate(body: Value): (r: Result<seq<int>, seq<ValidationError>>)
    ensures r.Success? <==>
      body.Obj? && forall i :: 0 <= i < |StudentFields| ==> Accepted(body.fields, StudentFields[i])
    ensures r.Success? ==> IsStudentData(r.value)
    ensures r.Success? ==>
      forall i :: 0 <= i < |StudentFields| ==> body.fields[StudentFields[i].name] == Int(r.value[i])
    ensures r.Failure? ==> |r.error| > 0
    ensures r.Failure? && body.Obj? ==> r.error == FieldErrors(body.fields, StudentFields)
    ensures body == Null ==> r == Failure([ValidationError([Key("body")], Missing, Some(Null))])
    ensures !body.Obj? && body != Null ==> r == Failure([ValidationError([Key("body")], NotAnObject, Some(body))])
  {
    if body == Null then
      Failure([ValidationError([Key("body")], Missing, Some(Null))])
    else if !body.Obj? then
      Failure([ValidationError([Key("body")], NotAnObject, Some(body))])
    else
      var errs := FieldErrors(body.fields, StudentFields);
      if errs == [] then Success(Values(body.fields, StudentFields)) else Failure(errs)
  }

  // ---------------------------------------------------------------------
  // validation_exception_handler

  datatype ErrorDetail = ErrorDetail(field: string, message: string, invalidValue: Value)

  datatype ValidationBody = ValidationBody(error: string, message: string, details: seq<ErrorDetail>)

  /** str() of one location element. */
  function LocText(p: LocPart): string
  {
    match p
    case Key(k) => k
    case Index(i) => IntToDecimal(i)
  }

  function LocTexts(loc: seq<LocPart>): (texts: seq<string>)
    ensures |texts| == |loc|
    ensures forall i :: 0 <= i < |loc| ==> texts[i] == LocText(loc[i])
  {
    if loc == [] then [] else [LocText(loc[0])] + LocTexts(loc[1..])
  }

  /** The location of an error, its parts joined by " -> ". */
  function FieldPath(loc: seq<LocPart>): (path: string)
    ensures |loc| == 1 ==> path == LocText(loc[0])
    ensures |loc| == 2 ==> path == LocText(loc[0]) + " -> " + LocText(loc[1])
  {
    var texts := LocTexts(loc);
    assert |loc| == 2 ==> texts[1..] == [texts[1]] && Join(texts[1..], " -> ") == texts[1];
    Join(texts, " -> ")
  }

  /** error.get("input", "N/A"): the input when the error carries one. */
  function InvalidValue(e: ValidationError): (v: Value)
    ensures e.input.Some? ==> v == e.input.value
    ensures e.input.None? ==> v == Str("N/A")
  {
    match e.input
    case Some(v) => v
    case None => Str("N/A")
  }

  /** Renders the validation errors as the 422 response: one detail per error,
      in the same order. */
  method ValidationExceptionHandler(errors: seq<ValidationError>) returns (status: int, content: ValidationBody)
    ensures status == 422
    ensures content.error == "Validation Error"
    ensures content.message == "The provided data does not match the expected format"
    ensures |content.details| == |errors|
    ensures forall i :: 0 <= i < |errors| ==>
      content.details[i].field == FieldPath(errors[i].loc) &&
      content.details[i].message == errors[i].msg &&
      content.details[i].invalidValue == InvalidValue(errors[i])
  {
    var details: seq<ErrorDetail> := [];
    var k := 0;
    while k < |errors|
      invariant 0 <= k <= |errors|
      invariant |details| == k
      invariant forall i :: 0 <= i < k ==>
        details[i] == ErrorDetail(FieldPath(errors[i].loc), errors[i].msg, InvalidValue(errors[i]))
    {
      var fieldName := FieldPath(errors[k].loc);
      details := details + [ErrorDetail(fieldName, errors[k].msg, InvalidValue(errors[k]))];
      k := k + 1;
    }
    status := 422;
    content := ValidationBody("Validation Error", "The provided data does not match the expected format", details);
  }

  /** The detail field of every error about a declared field reads
      "body -> <name>". */
  lemma FieldErrorPath(body: map<string, Value>, f: Field)
    requires !Accepted(body, f)
    ensures FieldError(body, f).Some?
    ensures FieldPath(FieldError(body, f).value.loc) == "body -> " + f.name
  {
  }

  /** A record with a single faulty declared field yields exactly one error,
      rendered with that field's path and the value it holds. */
  lemma SingleFault(fields: map<string, Value>, k: nat)
    requires k < |StudentFields| && !Accepted(fields, StudentFields[k])
    requires forall i :: 0 <= i < |StudentFields| && i != k ==> Accepted(fields, StudentFields[i])
    ensures Validate(Obj(fields)).Failure?
    ensures |Validate(Obj(fields)).error| == 1
    ensures FieldPath(Validate(Obj(fields)).error[0].loc) == "body -> " + StudentFields[k].name
    ensures StudentFields[k].name in fields ==> InvalidValue(Validate(Obj(fields)).error[0]) == fields[StudentFields[k].name]
  {
    var f := StudentFields[k];
    FieldErrorsOfOne(fields, StudentFields, k);
    FieldErrorPath(fields, f);
  }

  /** Attendance = 150 breaks the field's le=100 bound: its error is located
      at "body -> Attendance", names the bound and shows 150. With every other
      field accepted, SingleFault makes it the only error of the request. */
  lemma AttendanceOutOfRange(fields: map<string, Value>)
    requires "Attendance" in fields && fields["Attendance"] == Int(150)
    ensures StudentFields[1] == Field("Attendance", 0, 100)
    ensures FieldError(fields, StudentFields[1]) ==
      Some(ValidationError([Key("body"), Key("Attendance")], "Input should be less than or equal to 100", Some(Int(150))))
    ensures FieldPath([Key("body"), Key("Attendance")]) == "body -> Attendance"
  {
    var f := StudentFields[1];
    assert f == Field("Attendance", 0, 100);
    assert IntToDecimal(100) == "100" by {
      assert NatToDecimal(100) == NatToDecimal(10) + [DigitChar(0)];
      assert NatToDecimal(10) == NatToDecimal(1) + [DigitChar(0)];
    }
    FieldErrorMessage(fields, f);
    assert "Input should be less than or equal to " + "100" == "Input should be less than or equal to 100";
  }

  /** When only field k is rejected, the errors are that field's error alone. */
  lemma {:induction false} FieldErrorsOfOne(body: map<string, Value>, fields: seq<Field>, k: nat)
    requires k < |fields| && !Accepted(body, fields[k])
    requires forall i :: 0 <= i < |fields| && i != k ==> Accepted(body, fields[i])
    ensures FieldErrors(body, fields) == [FieldError(body, fields[k]).value]
  {
    if k > 0 {
      FieldErrorsOfOne(body, fields[1..], k - 1);
    } else {
      assert FieldErrors(body, fields[1..]) == [];
    }
  }

  // ---------------------------------------------------------------------
  // Projection onto the encoder's columns

  /** The columns the preprocessor expects, in order. */
  const ExpectedColumns: seq<string> := [
    "StudyHours", "Attendance", "Resources", "Extracurricular", "Motivation",
    "Internet", "Gender", "Age", "OnlineCourses", "Discussions",
    "AssignmentCompletion", "ExamScore", "EduTech", "StressLevel", "FinalGrade"
  ]

  /** A dict, as its entries in iteration order. */
  type Row = seq<(string, int)>

  function Keys(row: Row): (keys: seq<string>)
    ensures |keys| == |row|
    ensures forall i :: 0 <= i < |row| ==> keys[i] == row[i].0
  {
    if row == [] then [] else [row[0].0] + Keys(row[1..])
  }

  /** No key occurs twice, as in every Python dict. */
  predicate UniqueKeys(row: Row)
  {
    forall i, j :: 0 <= i < j < |row| ==> row[i].0 != row[j].0
  }

  /** data.dict(): the validated fields with their values, in declaration order. */
  function StudentDict(values: seq<int>): (row: Row)
    requires |values| == |StudentFields|
    ensures |row| == |values|
    ensures forall i :: 0 <= i < |row| ==> row[i] == (StudentFields[i].name, values[i])
  {
    seq(|values|, i requires 0 <= i < |values| => (StudentFields[i].name, values[i]))
  }

  /** The value stored under key, if any. */
  function Lookup(row: Row, key: string): (r: Option<int>)
    ensures r.Some? ==> (key, r.value) in row
    ensures r.None? ==> forall i :: 0 <= i < |row| ==> row[i].0 != key
  {
    if row == [] then None
    else if row[0].0 == key then Some(row[0].1)
    else Lookup(row[1..], key)
  }

  /** input_df[cols]: the row restricted to cols and reordered as cols; a
      missing column is an error (pandas raises KeyError). */
  function Project(row: Row, cols: seq<string>): (r: Option<Row>)
    ensures r.Some? <==> forall c :: c in cols ==> Lookup(row, c).Some?
    ensures r.Some? ==> Keys(r.value) == cols
    ensures r.Some? ==> forall i :: 0 <= i < |cols| ==> r.value[i].1 == Lookup(row, cols[i]).value
  {
    if cols == [] then Some([])
    else
      match Lookup(row, cols[0])
      case None => assert cols[0] in cols; None
      case Some(v) =>
        match Project(row, cols[1..])
        case None =>
          assert forall c :: c in cols[1..] ==> c in cols;
          None
        case Some(rest) => Some([(cols[0], v)] + rest)
  }

  /** In a dict, looking a key up finds exactly the entry stored under it. */
  lemma {:induction false} LookupFindsEntry(row: Row, key: string, v: int)
    requires UniqueKeys(row)
    ensures Lookup(row, key) == Some(v) <==> (key, v) in row
  {
    if row != [] && row[0].0 != key {
      assert UniqueKeys(row[1..]);
      LookupFindsEntry(row[1..], key, v);
      if (key, v) in row {
        assert (key, v) in row[1..];
      }
    } else if row != [] && (key, v) in row {
      var j :| 0 <= j < |row| && row[j] == (key, v);
      assert j == 0;
    }
  }

  /** The projected row depends only on the dict's entries, never on the
      order in which they were inserted. */
  lemma ProjectionIgnoresOrder(r1: Row, r2: Row, cols: seq<string>)
    requires UniqueKeys(r1) && UniqueKeys(r2)
    requires forall e :: e in r1 <==> e in r2
    ensures Project(r1, cols) == Project(r2, cols)
  {
    forall c | c in cols
      ensures Lookup(r1, c) == Lookup(r2, c)
    {
      match Lookup(r1, c)
      case Some(v) =>
        LookupFindsEntry(r1, c, v);
        LookupFindsEntry(r2, c, v);
      case None =>
        match Lookup(r2, c)
        case Some(w) =>
          LookupFindsEntry(r1, c, w);
          LookupFindsEntry(r2, c, w);
        case None =>
    }
    var p1, p2 := Project(r1, cols), Project(r2, cols);
    if p1.Some? {
      assert |p1.value| == |cols| == |p2.value|;
      assert forall i :: 0 <= i < |cols| ==> p1.value[i] == p2.value[i] by {
        forall i | 0 <= i < |cols| ensures p1.value[i] == p2.value[i] {
          assert p1.value[i].0 == Keys(p1.value)[i] == cols[i] == Keys(p2.value)[i] == p2.value[i].0;
        }
      }
    }
  }

  /** The declared fields are exactly the expected columns, in the same order. */
  lemma FieldsAreExpectedColumns()
    ensures Names(StudentFields) == ExpectedColumns
  {
  }

  /** No column is expected twice. */
  lemma ExpectedColumnsDistinct()
    ensures forall i, j :: 0 <= i < j < |ExpectedColumns| ==> ExpectedColumns[i] != ExpectedColumns[j]
  {
  }

  /** Projecting a validated record yields the 15 expected columns, in order,
      each with the value of the field of that name. */
  lemma ProjectStudentData(values: seq<int>)
    requires IsStudentData(values)
    ensures Project(StudentDict(values), ExpectedColumns).Some?
    ensures Project(StudentDict(values), ExpectedColumns).value == StudentDict(values)
  {
    var row := StudentDict(values);
    FieldsAreExpectedColumns();
    ExpectedColumnsDistinct();
    assert forall i :: 0 <= i < |row| ==> row[i].0 == ExpectedColumns[i];
    assert UniqueKeys(row);
    forall i | 0 <= i < |ExpectedColumns|
      ensures Lookup(row, ExpectedColumns[i]) == Some(values[i])
    {
      LookupFindsEntry(row, ExpectedColumns[i], values[i]);
    }
    var p := Project(row, ExpectedColumns);
    assert p.Some?;
    forall i | 0 <= i < |row| ensures p.value[i] == row[i] {
      assert p.value[i].0 == Keys(p.value)[i] == ExpectedColumns[i];
    }
  }
}
