/** The prediction endpoints of main.py over the "predictions" collection:
    POST /predict-style stores one document per successful prediction,
    GET /predictions lists the newest documents, and GET /predictions/{id}
    looks one up by store id or by prediction id. The collection is an
    in-memory sequence in insertion order; the classifier, the generated
    UUID, the clock, the store's new id and database failures are
    parameters. */
module Predictions {
  import opened Base
  import opened Schema

  /** A store-native document id, by its hexadecimal text. */
  datatype ObjectId = ObjectId(hex: string)

  /** A prediction document whose _id has type I: ObjectId in the store,
      string once served. */
  datatype Document<I> = Document(id: I, predictionId: string, learningStyle: int, predictedAt: string, userData: Row)

  type Stored = Document<ObjectId>

  /** A stored document as a response carries it: _id replaced by str(_id). */
  function Served(d: Stored): (r: Document<string>)
    ensures r.id == d.id.hex
    ensures r.predictionId == d.predictionId && r.learningStyle == d.learningStyle
    ensures r.predictedAt == d.predictedAt && r.userData == d.userData
  {
    Document(d.id.hex, d.predictionId, d.learningStyle, d.predictedAt, d.userData)
  }

  /** The stored document a served one comes from. */
  function Unserved(d: Document<string>): Stored
  {
    Document(ObjectId(d.id), d.predictionId, d.learningStyle, d.predictedAt, d.userData)
  }

  /** Every document of a sequence, served. */
  function ServedAll(ds: seq<Stored>): (r: seq<Document<string>>)
    ensures |r| == |ds|
    ensures forall i :: 0 <= i < |ds| ==> r[i] == Served(ds[i])
  {
    if ds == [] then [] else [Served(ds[0])] + ServedAll(ds[1..])
  }

  /** A served document occurs as often as the stored document it comes from. */
  lemma {:induction false} ServedCount(ds: seq<Stored>, x: Document<string>)
    ensures multiset(ServedAll(ds))[x] == multiset(ds)[Unserved(x)]
  {
    if ds != [] {
      ServedCount(ds[1..], x);
      assert multiset(ServedAll(ds)) == multiset{Served(ds[0])} + multiset(ServedAll(ds[1..]));
      assert ds == [ds[0]] + ds[1..];
      assert multiset(ds) == multiset{ds[0]} + multiset(ds[1..]);
      assert Served(ds[0]) == x <==> ds[0] == Unserved(x);
    }
  }

  /** Serving keeps the inclusion of one collection of documents in another. */
  lemma ServedSubMultiset(a: seq<Stored>, b: seq<Stored>)
    requires multiset(a) <= multiset(b)
    ensures multiset(ServedAll(a)) <= multiset(ServedAll(b))
  {
    forall x ensures multiset(ServedAll(a))[x] <= multiset(ServedAll(b))[x] {
      ServedCount(a, x);
      ServedCount(b, x);
    }
  }

  lemma ServedInjective(d: Stored, e: Stored)
    requires Served(d) == Served(e)
    ensures d == e
  {
  }

  // ---------------------------------------------------------------------
  // Ordering by predicted_at (strings compare character by character)

  predicate LexLe(a: string, b: string)
    decreases |a|
  {
    |a| == 0 || (|b| > 0 && (a[0] < b[0] || (a[0] == b[0] && LexLe(a[1..], b[1..]))))
  }

  lemma {:induction false} LexLeTotal(a: string, b: string)
    ensures LexLe(a, b) || LexLe(b, a)
    decreases |a|
  {
    if |a| > 0 && |b| > 0 && a[0] == b[0] {
      LexLeTotal(a[1..], b[1..]);
    }
  }

  lemma {:induction false} LexLeTransitive(a: string, b: string, c: string)
    requires LexLe(a, b) && LexLe(b, c)
    ensures LexLe(a, c)
    decreases |a|
  {
    if |a| > 0 && a[0] == b[0] && b[0] == c[0] {
      LexLeTransitive(a[1..], b[1..], c[1..]);
    }
  }

  /** Sorted by predicted_at, newest (largest) first. */
  predicate NewestFirst<I>(ds: seq<Document<I>>)
  {
    forall i, j :: 0 <= i < j < |ds| ==> LexLe(ds[j].predictedAt, ds[i].predictedAt)
  }

  /** Places d before the first document that is not newer than it. */
  function Insert(d: Stored, ds: seq<Stored>): (r: seq<Stored>)
    ensures multiset(r) == multiset(ds) + multiset{d}
  {
    if ds == [] || LexLe(ds[0].predictedAt, d.predictedAt) then [d] + ds
    else
      assert ds == [ds[0]] + ds[1..];
      [ds[0]] + Insert(d, ds[1..])
  }

  lemma {:induction false} InsertKeepsNewestFirst(d: Stored, ds: seq<Stored>)
    requires NewestFirst(ds)
    ensures NewestFirst(Insert(d, ds))
  {
    if ds == [] {
    } else if LexLe(ds[0].predictedAt, d.predictedAt) {
      forall j | 0 <= j < |ds| ensures LexLe(ds[j].predictedAt, d.predictedAt) {
        if j > 0 { LexLeTransitive(ds[j].predictedAt, ds[0].predictedAt, d.predictedAt); }
      }
    } else {
      var rest := Insert(d, ds[1..]);
      InsertKeepsNewestFirst(d, ds[1..]);
      LexLeTotal(ds[0].predictedAt, d.predictedAt);
      forall x | x in rest ensures LexLe(x.predictedAt, ds[0].predictedAt) {
        assert x in multiset(rest);
        if x != d {
          assert x in multiset(ds[1..]);
          var j :| 0 <= j < |ds[1..]| && ds[1..][j] == x;
          assert ds[j + 1] == x;
        }
      }
      var r := [ds[0]] + rest;
      forall i, j | 0 <= i < j < |r| ensures LexLe(r[j].predictedAt, r[i].predictedAt) {
        if i == 0 { assert r[j] in rest; }
      }
    }
  }

  /** The collection ordered newest first: the same documents, reordered.
      Documents with equal timestamps keep an order of the model's choosing,
      as the store leaves their order unspecified. */
  function SortNewestFirst(ds: seq<Stored>): (r: seq<Stored>)
    ensures multiset(r) == multiset(ds) && |r| == |ds|
    ensures NewestFirst(r)
  {
    if ds == [] then []
    else
      var rest := SortNewestFirst(ds[1..]);
      InsertKeepsNewestFirst(ds[0], rest);
      assert ds == [ds[0]] + ds[1..];
      Insert(ds[0], rest)
  }

  /** Serving the first n documents of the sorted collection lists only
      stored documents, newest first, and leaves out none newer than them. */
  lemma NewestPrefix(ds: seq<Stored>, sorted: seq<Stored>, n: nat, listed: seq<Document<string>>)
    requires multiset(sorted) == multiset(ds) && NewestFirst(sorted)
    requires n <= |sorted| && |listed| == n
    requires forall i :: 0 <= i < n ==> listed[i] == Served(sorted[i])
    ensures NewestFirst(listed)
    ensures forall i :: 0 <= i < n ==> exists d :: d in ds && listed[i] == Served(d)
    ensures forall d :: d in ds && Served(d) !in listed ==>
      forall i :: 0 <= i < n ==> LexLe(d.predictedAt, listed[i].predictedAt)
  {
    forall i | 0 <= i < n ensures exists d :: d in ds && listed[i] == Served(d) {
      assert sorted[i] in multiset(ds);
    }
    forall d | d in ds && Served(d) !in listed
      ensures forall i :: 0 <= i < n ==> LexLe(d.predictedAt, listed[i].predictedAt)
    {
      assert d in multiset(sorted);
      var j :| 0 <= j < |sorted| && sorted[j] == d;
      assert j >= n;
    }
  }

  /** Serving the first n documents of a reordering of the collection lists
      each stored document at most as often as it is stored. */
  lemma PrefixListsStored(ds: seq<Stored>, sorted: seq<Stored>, n: nat, listed: seq<Document<string>>)
    requires multiset(sorted) == multiset(ds)
    requires n <= |sorted| && |listed| == n
    requires forall i :: 0 <= i < n ==> listed[i] == Served(sorted[i])
    ensures multiset(listed) <= multiset(ServedAll(ds))
  {
    var top, rest := sorted[..n], sorted[n..];
    assert listed == ServedAll(top);
    calc {
      multiset(ds);
    ==
      multiset(sorted);
    == { assert sorted == top + rest; }
      multiset(top + rest);
    ==
      multiset(top) + multiset(rest);
    }
    ServedSubMultiset(top, ds);
  }

  // ---------------------------------------------------------------------
  // Lookup queries

  predicate IsHexDigit(c: char)
  {
    '0' <= c <= '9' || 'a' <= c <= 'f' || 'A' <= c <= 'F'
  }

  /** ObjectId.is_valid on a string: exactly 24 hexadecimal digits. */
  predicate IsValidObjectId(s: string)
  {
    |s| == 24 && forall i :: 0 <= i < |s| ==> IsHexDigit(s[i])
  }

  /** A point query on exactly one key: _id or prediction_id. */
  datatype Query = ById(id: ObjectId) | ByPredictionId(predictionId: string)

  /** The query issued for a path id: by _id when the id passes the ObjectId
      check, by prediction_id otherwise. */
  function LookupQuery(id: string): (q: Query)
    ensures q.ById? <==> IsValidObjectId(id)
    ensures q == ById(ObjectId(id)) || q == ByPredictionId(id)
  {
    if IsValidObjectId(id) then ById(ObjectId(id)) else ByPredictionId(id)
  }

  /** A canonical UUID string (36 characters) is never taken for an ObjectId,
      so it is always looked up by prediction_id. */
  lemma UuidQueriesPredictionId(u: string)
    requires |u| == 36
    ensures LookupQuery(u) == ByPredictionId(u)
  {
  }

  predicate Matches(d: Stored, q: Query)
  {
    match q
    case ById(id) => d.id == id
    case ByPredictionId(p) => d.predictionId == p
  }

  /** find_one: the first matching document in natural (insertion) order. */
  function FindOne(ds: seq<Stored>, q: Query): (r: Option<Stored>)
    ensures r.Some? ==> r.value in ds && Matches(r.value, q)
    ensures r.None? <==> forall i :: 0 <= i < |ds| ==> !Matches(ds[i], q)
  {
    if ds == [] then None
    else if Matches(ds[0], q) then Some(ds[0])
    else FindOne(ds[1..], q)
  }

  /** With unique keys, a query that matches a document finds exactly it. */
  lemma {:induction false} FindOneUnique(ds: seq<Stored>, q: Query, k: nat)
    requires k < |ds| && Matches(ds[k], q)
    requires forall i :: 0 <= i < |ds| && i != k ==> !Matches(ds[i], q)
    ensures FindOne(ds, q) == Some(ds[k])
  {
    if k > 0 {
      FindOneUnique(ds[1..], q, k - 1);
    }
  }

  predicate UniqueIds(ds: seq<Stored>)
  {
    forall i, j :: 0 <= i < j < |ds| ==> ds[i].id != ds[j].id
  }

  /** The unique index on prediction_id created at startup. */
  predicate UniquePredictionIds(ds: seq<Stored>)
  {
    forall i, j :: 0 <= i < j < |ds| ==> ds[i].predictionId != ds[j].predictionId
  }

  /** A document appended to a collection without its keys is found again
      both by the prediction_id returned to the client and by its database id. */
  lemma FindInserted(ds: seq<Stored>, d: Stored)
    requires forall i :: 0 <= i < |ds| ==> ds[i].id != d.id && ds[i].predictionId != d.predictionId
    requires !IsValidObjectId(d.predictionId)
    requires IsValidObjectId(d.id.hex)
    ensures FindOne(ds + [d], LookupQuery(d.predictionId)) == Some(d)
    ensures FindOne(ds + [d], LookupQuery(d.id.hex)) == Some(d)
  {
    var all := ds + [d];
    FindOneUnique(all, ByPredictionId(d.predictionId), |ds|);
    FindOneUnique(all, ById(d.id), |ds|);
  }

  // ---------------------------------------------------------------------
  // Responses

  /** A handler's outcome: a JSON body, or an HTTPException with its status
      and detail. */
  datatype Outcome<B> = Ok(body: B) | HttpError(status: int, detail: string)

  datatype PredictReply = PredictReply(
    learningStylePredicted: int, databaseId: string, predictionId: string, status: string, inputReceived: Row)

  datatype Listing = Listing(predictions: seq<Document<string>>, count: int, status: string)

  datatype LookupReply = LookupReply(prediction: Document<string>, status: string)

  /** What POST /predict-style answers: the 422 body built from validation
      errors, or the handler's own outcome. */
  datatype PostReply = Unprocessable(status: int, content: ValidationBody) | Handled(outcome: Outcome<PredictReply>)

  const PredictionErrorPrefix := "Prediction error: "
  const DatabaseErrorPrefix := "Database error: "
  /** str() of HTTPException(status_code=404, detail="Prediction not found"). */
  const NotFoundText := "404: Prediction not found"
  /** The store's message when a unique key is already taken. */
  const DuplicateKeyText := "E11000 duplicate key error"
  /** The driver's message when to_list is given a negative length. */
  const NegativeLengthText := "length must be non-negative"

  /** The service with its database handle: the state the endpoints share. */
  class PredictionService {
    /** The "predictions" collection, in insertion order. */
    var predictions: seq<Stored>

    ghost predicate Valid()
      reads this
    {
      UniqueIds(predictions) && UniquePredictionIds(predictions)
    }

    /** The service once connected at startup: the collection holds whatever
        the store already holds, and both keys are unique in it. */
    constructor (stored: seq<Stored>)
      requires UniqueIds(stored) && UniquePredictionIds(stored)
      ensures Valid() && predictions == stored
    {
      predictions := stored;
    }

    /** POST /predict-style once the body has validated. classify stands for
        preprocessor.transform, model.predict and int(prediction[0]) on the
        projected row; an exception anywhere is Failure(message). uuid and now
        are str(uuid4()) and utcnow().isoformat(); newId is the id the store
        assigns; dbFault is a failure of insert_one. */
    method PredictLearningStyle(data: seq<int>, classify: Row -> Result<int, string>,
                                uuid: string, now: string, newId: ObjectId, dbFault: Option<string>)
      returns (reply: Outcome<PredictReply>)
      requires Valid() && IsStudentData(data)
      modifies this
      ensures Valid()
      ensures reply.Ok? <==>
        classify(StudentDict(data)).Success? && dbFault.None? &&
        forall i :: 0 <= i < |old(predictions)| ==>
          old(predictions)[i].id != newId && old(predictions)[i].predictionId != uuid
      ensures reply.Ok? ==>
        var style := classify(StudentDict(data)).value;
        reply.body == PredictReply(style, newId.hex, uuid, "success", StudentDict(data)) &&
        predictions == old(predictions) + [Document(newId, uuid, style, now, StudentDict(data))]
      ensures reply.HttpError? ==>
        reply.status == 500 && PredictionErrorPrefix <= reply.detail &&
        predictions == old(predictions)
      ensures classify(StudentDict(data)).Failure? ==>
        reply == HttpError(500, PredictionErrorPrefix + classify(StudentDict(data)).error)
    {
      var inputDict := StudentDict(data);
      ProjectStudentData(data);
      var inputRow := Project(inputDict, ExpectedColumns).value;
      match classify(inputRow) {
        case Failure(message) =>
          reply := HttpError(500, PredictionErrorPrefix + message);
        case Success(style) =>
          var doc := Document(newId, uuid, style, now, inputDict);
          if dbFault.Some? {
            reply := HttpError(500, PredictionErrorPrefix + dbFault.value);
          } else if exists i :: 0 <= i < |predictions| && (predictions[i].id == newId || predictions[i].predictionId == uuid) {
            reply := HttpError(500, PredictionErrorPrefix + DuplicateKeyText);
          } else {
            predictions := predictions + [doc];
            reply := Ok(PredictReply(style, newId.hex, uuid, "success", inputDict));
          }
      }
    }

    /** POST /predict-style as a whole: the body is validated first, a body
        that fails never reaches the classifier or the store, and one that
        passes is handed to the handler. */
    method PostPredictStyle(body: Value, classify: Row -> Result<int, string>,
                            uuid: string, now: string, newId: ObjectId, dbFault: Option<string>)
      returns (reply: PostReply)
      requires Valid()
      modifies this
      ensures Valid()
      ensures Validate(body).Failure? ==>
        var errors := Validate(body).error;
        reply.Unprocessable? && reply.status == 422 &&
        reply.content.error == "Validation Error" &&
        reply.content.message == "The provided data does not match the expected format" &&
        |reply.content.details| == |errors| &&
        (forall i :: 0 <= i < |errors| ==>
          reply.content.details[i] == ErrorDetail(FieldPath(errors[i].loc), errors[i].msg, InvalidValue(errors[i]))) &&
        predictions == old(predictions)
      ensures Validate(body).Success? ==> reply.Handled?
      ensures Validate(body).Success? ==>
        var input := StudentDict(Validate(body).value);
        (reply.outcome.Ok? <==>
          classify(input).Success? && dbFault.None? &&
          forall i :: 0 <= i < |old(predictions)| ==>
            old(predictions)[i].id != newId && old(predictions)[i].predictionId != uuid)
      ensures Validate(body).Success? && reply.outcome.Ok? ==>
        var input := StudentDict(Validate(body).value);
        var style := classify(input).value;
        reply.outcome.body == PredictReply(style, newId.hex, uuid, "success", input) &&
        predictions == old(predictions) + [Document(newId, uuid, style, now, input)]
      ensures Validate(body).Success? && reply.outcome.HttpError? ==>
        reply.outcome.status == 500 && PredictionErrorPrefix <= reply.outcome.detail &&
        predictions == old(predictions)
    {
      match Validate(body) {
        case Failure(errors) =>
          var status, content := ValidationExceptionHandler(errors);
          reply := Unprocessable(status, content);
        case Success(data) =>
          var outcome := PredictLearningStyle(data, classify, uuid, now, newId, dbFault);
          reply := Handled(outcome);
      }
    }

    /** GET /predictions?limit=...: the newest documents first, at most limit
        of them, each with _id as a string. A negative limit is refused by
        to_list before the store is reached. */
    method GetPredictions(limit: int, dbFault: Option<string>) returns (reply: Outcome<Listing>)
      ensures limit < 0 ==> reply == HttpError(500, DatabaseErrorPrefix + NegativeLengthText)
      ensures limit >= 0 && dbFault.Some? ==> reply == HttpError(500, DatabaseErrorPrefix + dbFault.value)
      ensures limit >= 0 && dbFault.None? ==> reply.Ok?
      ensures reply.Ok? ==>
        var listed := reply.body.predictions;
        && reply.body.status == "success"
        && reply.body.count == |listed| == Min(limit, |predictions|)
        && NewestFirst(listed)
        && multiset(listed) <= multiset(ServedAll(predictions))
        && (forall d :: d in predictions && Served(d) !in listed ==>
              forall i :: 0 <= i < |listed| ==> LexLe(d.predictedAt, listed[i].predictedAt))
    {
      if limit < 0 {
        reply := HttpError(500, DatabaseErrorPrefix + NegativeLengthText);
        return;
      }
      if dbFault.Some? {
        reply := HttpError(500, DatabaseErrorPrefix + dbFault.value);
        return;
      }
      var sorted := SortNewestFirst(predictions);
      var n := Min(limit, |sorted|);
      var top := sorted[..n];
      var listed: seq<Document<string>> := [];
      for k := 0 to n
        invariant |listed| == k
        invariant forall i :: 0 <= i < k ==> listed[i] == Served(top[i])
      {
        listed := listed + [Served(top[k])];
      }
      NewestPrefix(predictions, sorted, n, listed);
      PrefixListsStored(predictions, sorted, n, listed);
      reply := Ok(Listing(listed, |listed|, "success"));
    }

    /** GET /predictions/{prediction_id}. A miss raises a 404 inside the try
        block, which the handler's catch-all turns into a 500. */
    method GetPredictionById(id: string, dbFault: Option<string>) returns (reply: Outcome<LookupReply>)
      ensures dbFault.Some? ==> reply == HttpError(500, DatabaseErrorPrefix + dbFault.value)
      ensures dbFault.None? ==>
        match FindOne(predictions, LookupQuery(id))
        case Some(d) => reply == Ok(LookupReply(Served(d), "success"))
        case None => reply == HttpError(500, DatabaseErrorPrefix + NotFoundText)
      ensures reply.HttpError? ==> reply.status == 500
    {
      if dbFault.Some? {
        reply := HttpError(500, DatabaseErrorPrefix + dbFault.value);
        return;
      }
      var query := LookupQuery(id);
      var found := FindOne(predictions, query);
      if found.None? {
        reply := HttpError(500, DatabaseErrorPrefix + NotFoundText);
      } else {
        reply := Ok(LookupReply(Served(found.value), "success"));
      }
    }

    /** The same endpoint with the 404 let through to the caller, as the
        handler evidently intends. */
    method GetPredictionByIdIntended(id: string, dbFault: Option<string>) returns (reply: Outcome<LookupReply>)
      ensures dbFault.Some? ==> reply == HttpError(500, DatabaseErrorPrefix + dbFault.value)
      ensures dbFault.None? ==>
        match FindOne(predictions, LookupQuery(id))
        case Some(d) => reply == Ok(LookupReply(Served(d), "success"))
        case None => reply == HttpError(404, "Prediction not found")
      ensures reply.HttpError? && reply.status == 404 <==>
        dbFault.None? && forall i :: 0 <= i < |predictions| ==> !Matches(predictions[i], LookupQuery(id))
    {
      if dbFault.Some? {
        reply := HttpError(500, DatabaseErrorPrefix + dbFault.value);
        return;
      }
      var found := FindOne(predictions, LookupQuery(id));
      if found.None? {
        reply := HttpError(404, "Prediction not found");
      } else {
        reply := Ok(LookupReply(Served(found.value), "success"));
      }
    }
  }
}
