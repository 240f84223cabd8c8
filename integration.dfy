/** How the pieces meet: the form's payload as the request body the service
    validates, and the training script's feature lists against the columns
    the service feeds to the saved preprocessor. */
module Integration {
  import opened Base
  import Schema
  import StudentForm
  import Training

  /** JSON.stringify of a number: an integer stays an integer, NaN becomes null. */
  function JsonOf(n: StudentForm.JsNumber): (v: Schema.Value)
    ensures v.Int? <==> n.Some?
    ensures n.Some? ==> v == Schema.Int(n.value)
    ensures n.None? ==> v == Schema.Null
  {
    if n.Some? then Schema.Int(n.value) else Schema.Null
  }

  /** The JSON object posted for a payload; a later key overwrites an earlier one. */
  function ToBody(p: StudentForm.Payload): (body: map<string, Schema.Value>)
    ensures p == [] ==> body == map[]
    ensures p != [] ==> p[|p| - 1].0 in body && body[p[|p| - 1].0] == JsonOf(p[|p| - 1].1)
  {
    if p == [] then map[] else ToBody(p[..|p| - 1])[p[|p| - 1].0 := JsonOf(p[|p| - 1].1)]
  }

  /** The posted object has exactly the payload's keys. */
  lemma {:induction false} ToBodyKeys(p: StudentForm.Payload)
    ensures forall i :: 0 <= i < |p| ==> p[i].0 in ToBody(p)
    ensures forall k :: k in ToBody(p) ==> exists i :: 0 <= i < |p| && p[i].0 == k
  {
    if p != [] {
      var init := p[..|p| - 1];
      ToBodyKeys(init);
      assert forall i :: 0 <= i < |init| ==> init[i] == p[i];
      forall k | k in ToBody(p) ensures exists i :: 0 <= i < |p| && p[i].0 == k {
        if k != p[|p| - 1].0 {
          var i :| 0 <= i < |init| && init[i].0 == k;
          assert p[i].0 == k;
        }
      }
    }
  }

  predicate DistinctKeys(p: StudentForm.Payload)
  {
    forall i, j :: 0 <= i < j < |p| ==> p[i].0 != p[j].0
  }

  /** In the posted object, each key of the payload holds that key's value. */
  lemma {:induction false} ToBodyLookup(p: StudentForm.Payload, i: int)
    requires DistinctKeys(p) && 0 <= i < |p|
    ensures p[i].0 in ToBody(p) && ToBody(p)[p[i].0] == JsonOf(p[i].1)
  {
    var init := p[..|p| - 1];
    if i < |p| - 1 {
      assert init[i] == p[i];
      assert DistinctKeys(init);
      ToBodyLookup(init, i);
      assert p[i].0 != p[|p| - 1].0;
    }
  }

  /** The payload's keys are the declared fields of StudentData, in order. */
  lemma PayloadKeysAreFields()
    ensures Schema.Names(Schema.StudentFields) == StudentForm.PayloadKeys
    ensures forall i, j :: 0 <= i < j < |StudentForm.PayloadKeys| ==>
      StudentForm.PayloadKeys[i] != StudentForm.PayloadKeys[j]
  {
    Schema.FieldsAreExpectedColumns();
    Schema.ExpectedColumnsDistinct();
    assert Schema.ExpectedColumns == StudentForm.PayloadKeys;
  }

  /** The body the form posts. */
  function PostedBody(form: StudentForm.FormData): (body: Schema.Value)
    ensures body.Obj?
  {
    Schema.Obj(ToBody(StudentForm.BuildPayload(form)))
  }

  /** The service accepts field i of a posted form exactly when the payload
      holds an integer there within the field's bounds. */
  lemma PostedField(form: StudentForm.FormData, i: int)
    requires 0 <= i < |Schema.StudentFields|
    ensures Schema.Accepted(PostedBody(form).fields, Schema.StudentFields[i]) <==>
      var v := StudentForm.BuildPayload(form)[i].1;
      v.Some? && Schema.InBounds(Schema.StudentFields[i], v.value)
  {
    var p := StudentForm.BuildPayload(form);
    PayloadKeysAreFields();
    assert DistinctKeys(p);
    ToBodyLookup(p, i);
    assert Schema.StudentFields[i].name == Schema.Names(Schema.StudentFields)[i] == p[i].0;
  }

  /** As line 38 promises, the six mapped fields always land inside the
      service's bounds (motivation and grade as long as they are numbers). */
  lemma MappedFieldsAccepted(form: StudentForm.FormData)
    ensures forall i :: i in {3, 5, 6, 12} ==> Schema.Accepted(PostedBody(form).fields, Schema.StudentFields[i])
    ensures StudentForm.FieldNumber(form, "Motivation").Some? ==>
      Schema.Accepted(PostedBody(form).fields, Schema.StudentFields[4])
    ensures StudentForm.FieldNumber(form, "FinalGrade").Some? ==>
      Schema.Accepted(PostedBody(form).fields, Schema.StudentFields[14])
  {
    forall i | i in {3, 4, 5, 6, 12, 14} ensures
      Schema.Accepted(PostedBody(form).fields, Schema.StudentFields[i]) <==>
      StudentForm.BuildPayload(form)[i].1.Some? &&
      Schema.InBounds(Schema.StudentFields[i], StudentForm.BuildPayload(form)[i].1.value)
    {
      PostedField(form, i);
    }
  }

  /** The form as written: the discussions input goes up to 20. */
  const AsWrittenControls := StudentForm.Controls(StudentForm.DiscussionsInputMax)

  /** The form as evidently intended: the discussions input stops at 10,
      the service's own maximum for the field. */
  const IntendedControls := StudentForm.Controls(10)

  /** Each input whose value is sent unmapped admits only values within the
      bounds of its field, provided the discussions input stops at 10 or below. */
  lemma PassedThroughControlsWithinBounds(discussionsMax: int, i: int)
    requires discussionsMax <= 10
    requires 0 <= i < |Schema.StudentFields| && StudentForm.PassedThrough(i)
    ensures StudentForm.Controls(discussionsMax)[i].Range?
    ensures Schema.StudentFields[i].lo <= StudentForm.Controls(discussionsMax)[i].lo
    ensures StudentForm.Controls(discussionsMax)[i].hi <= Schema.StudentFields[i].hi
  {
  }

  /** A field sent unmapped is accepted when its input holds a value the
      input admits. */
  lemma PassedThroughAccepted(form: StudentForm.FormData, i: int)
    requires 0 <= i < |Schema.StudentFields| && StudentForm.PassedThrough(i)
    requires StudentForm.WithinControls(form, IntendedControls)
    ensures Schema.Accepted(PostedBody(form).fields, Schema.StudentFields[i])
  {
    var cs := IntendedControls;
    PassedThroughControlsWithinBounds(10, i);
    PostedField(form, i);
    assert cs[i].name in form && StudentForm.Allows(cs[i], form[cs[i].name]);
  }

  /** A form whose every field lies within the controls passes validation
      when the discussions input stops at 10, the service's own maximum. */
  lemma ValidatesWithinIntendedControls(form: StudentForm.FormData)
    requires StudentForm.WithinControls(form, IntendedControls)
    ensures Schema.Validate(PostedBody(form)).Success?
  {
    var cs := IntendedControls;
    assert cs[4].name == "Motivation" && cs[4].Range? && StudentForm.Allows(cs[4], form["Motivation"]);
    assert cs[14].name == "FinalGrade" && cs[14].Range? && StudentForm.Allows(cs[14], form["FinalGrade"]);
    MappedFieldsAccepted(form);
    forall i | 0 <= i < |Schema.StudentFields|
      ensures Schema.Accepted(PostedBody(form).fields, Schema.StudentFields[i])
    {
      if StudentForm.PassedThrough(i) {
        PassedThroughAccepted(form, i);
      }
    }
  }

  /** With the discussions input as written, a form the controls allow is
      rejected: 15 discussions per week, with everything else as initially. */
  lemma DiscussionsOverflow()
    ensures StudentForm.WithinControls(StudentForm.InitialForm["Discussions" := StudentForm.Num(15)], AsWrittenControls)
    ensures Schema.Validate(PostedBody(StudentForm.InitialForm["Discussions" := StudentForm.Num(15)])).Failure?
  {
    var form := StudentForm.InitialForm["Discussions" := StudentForm.Num(15)];
    StudentForm.InitialFormWithinControls(StudentForm.DiscussionsInputMax);
    StudentForm.ControlsDistinct(StudentForm.DiscussionsInputMax);
    StudentForm.ChangeKeepsWithinControls(StudentForm.InitialForm, AsWrittenControls, 9, StudentForm.Num(15));
    PostedField(form, 9);
  }

  /** The record the service validates is the payload the form built. */
  lemma ValidatedIsPayload(form: StudentForm.FormData)
    requires Schema.Validate(PostedBody(form)).Success?
    ensures forall i :: 0 <= i < |Schema.StudentFields| ==>
      StudentForm.BuildPayload(form)[i].1 == Some(Schema.Validate(PostedBody(form)).value[i])
  {
    var p := StudentForm.BuildPayload(form);
    PayloadKeysAreFields();
    assert DistinctKeys(p);
    forall i | 0 <= i < |Schema.StudentFields|
      ensures p[i].1 == Some(Schema.Validate(PostedBody(form)).value[i])
    {
      ToBodyLookup(p, i);
      assert Schema.StudentFields[i].name == Schema.Names(Schema.StudentFields)[i] == p[i].0;
    }
  }

  /** Two records that both match the payload value by value are equal. */
  lemma SameValues(form: StudentForm.FormData, validated: seq<int>, values: seq<int>)
    requires Schema.Validate(PostedBody(form)) == Success(validated)
    requires |values| == |Schema.StudentFields|
    requires forall i :: 0 <= i < |values| ==> StudentForm.BuildPayload(form)[i].1 == Some(values[i])
    ensures validated == values
  {
    ValidatedIsPayload(form);
    assert |validated| == |values|;
    forall i | 0 <= i < |values| ensures validated[i] == values[i] {
      assert StudentForm.BuildPayload(form)[i].1 == Some(validated[i]);
    }
  }

  /** A form within the intended controls posts exactly the record its
      payload holds. */
  lemma ValidatesTo(form: StudentForm.FormData, values: seq<int>)
    requires StudentForm.WithinControls(form, IntendedControls)
    requires |values| == |Schema.StudentFields|
    requires forall i :: 0 <= i < |values| ==> StudentForm.BuildPayload(form)[i].1 == Some(values[i])
    ensures Schema.Validate(PostedBody(form)) == Success(values)
  {
    ValidatesWithinIntendedControls(form);
    var r := Schema.Validate(PostedBody(form));
    SameValues(form, r.value, values);
  }

  /** The initial form posts a record the service accepts, with the values
      the mappers give. */
  lemma InitialFormValidates()
    ensures Schema.Validate(PostedBody(StudentForm.InitialForm)) ==
      Success(StudentForm.InitialValues)
  {
    StudentForm.InitialFormWithinControls(10);
    StudentForm.InitialPayload();
    ValidatesTo(StudentForm.InitialForm, StudentForm.InitialValues);
  }

  /** The training script's categorical and numerical columns together are
      exactly the columns the service projects onto. */
  lemma FeaturesAreExpectedColumns()
    ensures |Training.CategoricalFeatures| + |Training.NumericalFeatures| == |Schema.ExpectedColumns|
    ensures forall c :: c in Training.CategoricalFeatures + Training.NumericalFeatures <==> c in Schema.ExpectedColumns
  {
    forall c | c in Schema.ExpectedColumns ensures c in Training.CategoricalFeatures + Training.NumericalFeatures {
      var i :| 0 <= i < |Schema.ExpectedColumns| && Schema.ExpectedColumns[i] == c;
    }
  }
}
