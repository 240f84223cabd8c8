# Learning style detection — a verified model

The system predicts a student's learning style (Visual, Auditory,
Kinesthetic, Reading/Writing) from fifteen bounded integer features. This
project models the parts of it that hold logic of their own:

- **The prediction service** (`main.py`), in modules `Schema` and `Predictions`:
  - `Schema` covers the `StudentData` request schema with its fifteen `ge`/`le` bounds. It models request-body validation as the framework performs it before the handler runs, and the custom handler that turns validation errors into a 422 body. It also covers the projection of a validated record onto the encoder's fixed column order.
  - `Predictions` covers the "predictions" collection and its three endpoints: predict-and-store, list the newest, and look up by store id or by prediction id.
  - The collection is a field of a `PredictionService` class. Its methods reassign it. Its invariant is the two unique keys, `_id` and the `prediction_id` index created at startup.
- **The training script** (`d_t.py`), in module `Training`: the feature partition, and the best-of-three selection loop as an imperative method. The order of the script's steps is recorded as a trace: split, fit on the training part, transform the test part, three fits with seeds 43 to 45, then save.
- **The student form** (`StudentFormClean.jsx`), in module `StudentForm`:
  - the initial values;
  - the scale mappers;
  - the request payload;
  - the style names;
  - the input controls' ranges;
  - the component state as a class whose methods are the change, reset and submit handlers.
- **The trend chart** (`StyleTrendChart.jsx`), in module `TrendChart`: the predicted index, the fallback percentages, and the seven-point rounded lines (a method with the source's loop). It also covers the global min/max and the `x`/`y` scales.
- **Cross-file facts**, in module `Integration`:
  - what the form posts is what the service validates;
  - the training script's feature lists are the service's columns.

`Base` holds the shared pieces:
- `Option` and `Result`;
- JavaScript's `Math.round` on exact reals, `Round(x) = floor(x + 0.5)`;
- decimal rendering of integers;
- Python's `str.join`.

The classifier, the accuracy of a trained forest, the UUID, the clock, the id the store assigns and database failures are parameters of the operations that use them.

Three behaviours of the service are modelled exactly as the code has them:

- Storing a prediction is part of the request. The insert runs inside the handler's `try`, so a failed insert fails the whole request with 500 "Prediction error: …" (main.py:118-135).
- The prediction response carries `learning_style_predicted`, `database_id`, `prediction_id`, `status` and `input_received`, and nothing else (main.py:125-131). The store's id is returned to the client. There is no `predicted_style` field, no per-class `predictions` list and no probability. The form stores the response body (StudentFormClean.jsx:73) and reads `predicted_style`/`predictions` from it (StudentFormClean.jsx:217-226). The trend chart is modelled on its own input, whatever it receives.
- A lookup miss is answered with 500, not 404 (main.py:166-172; see Findings).

## Model

| member | source | states |
|---|---|---|
| Base.Round | frontend-new/src/components/StyleTrendChart.jsx:42 | Math.round on an exact real is the integer within half a unit of it, halves going up |
| Base.RoundMonotone | frontend-new/src/components/StyleTrendChart.jsx:42 | rounding never reverses the order of two values |
| Base.RoundFifth | frontend-new/src/components/StudentFormClean.jsx:41-45 | for an integer n, Math.round(n/5) is (2n+5) div 10 |
| Base.RoundTenth | frontend-new/src/components/StudentFormClean.jsx:48-52 | for an integer n, Math.round(n/10) is (n+5) div 10 |
| Base.IntToDecimalInjective | frontend-new/src/components/StudentFormClean.jsx:80 | distinct integers render as distinct decimal strings |
| Schema.FieldError | main.py:80-95 | a declared field yields no error exactly when it is present, an integer and within its ge/le bounds; an error is located at ["body", name] and carries the offending input, or the whole body when the field is missing |
| Schema.FieldErrorMessage | main.py:80-95 | the message of each kind of error: "Field required" for a missing field; "unable to parse string as an integer" for a string; "Input should be a valid integer" for other non-integers; "greater than or equal to <ge>" below the bound and "less than or equal to <le>" above it |
| Schema.RejectedFields | main.py:80-95 | the rejected fields are exactly the declared fields the body fails |
| Schema.FieldErrors | main.py:80-95 | one error per rejected field, in declaration order, each located at its field and each the error FieldError gives that field; no errors exactly when every field is accepted |
| Schema.Validate | main.py:80-99 | a body is accepted exactly when it is an object whose 15 declared fields are all present integers within bounds; the accepted record holds the body's values in declaration order; a rejection lists at least one error, exactly the per-field errors for an object; a null or absent body is one "Field required" error at ["body"]; any other non-object is one "valid dictionary" error |
| Schema.ValidationExceptionHandler | main.py:54-72 | status 422 with the fixed error and message; one detail per error, in order, with field = loc parts joined by " -> ", message = msg, invalid_value = input or "N/A" |
| Schema.FieldPath | main.py:58 | a location of one part reads as that part; of two parts, as both joined by " -> " |
| Schema.InvalidValue | main.py:62 | the error's input when it has one, "N/A" otherwise |
| Schema.FieldErrorPath | main.py:58 | the error of a rejected field is reported at "body -> <field name>" |
| Schema.SingleFault | main.py:54-95 | a body with a single faulty field yields exactly one error, at that field's path, showing the value it holds |
| Schema.AttendanceOutOfRange | main.py:82 | an Attendance of 150 is rejected at ["body", "Attendance"] with "Input should be less than or equal to 100" and the input 150, shown at "body -> Attendance"; with SingleFault, a record whose only fault it is yields exactly that one error |
| Schema.StudentDict | main.py:101 | data.dict() holds the 15 fields with their values in declaration order |
| Schema.Lookup | main.py:109 | a found value is stored under the key; a miss means no entry has the key |
| Schema.Project | main.py:109 | selecting the columns succeeds exactly when every column is present; the result has exactly those columns, in that order, with the dict's values |
| Schema.LookupFindsEntry | main.py:101-109 | in a dict with unique keys, a lookup finds exactly the stored entry |
| Schema.ProjectionIgnoresOrder | main.py:104-109 | the projected row depends only on the dict's entries, not on their insertion order |
| Schema.FieldsAreExpectedColumns | main.py:104-108 | the declared fields are exactly the expected columns, in the same order |
| Schema.ExpectedColumnsDistinct | main.py:104-108 | no column is expected twice |
| Schema.ProjectStudentData | main.py:101-109 | projecting a validated record always succeeds and yields the 15 expected columns in order with the record's values |
| Predictions.ServedInjective | main.py:144-145 | replacing _id by its string loses no information: distinct documents are served distinctly |
| Predictions.Served | main.py:144-145 | a served document is the stored one with _id replaced by its string, every other field kept |
| Predictions.ServedCount | main.py:144-145 | a served document occurs in the served listing as often as its stored original occurs in the collection |
| Predictions.ServedSubMultiset | main.py:144-145 | serving keeps sub-multisets: a part of the collection serves as a part of the served collection |
| Predictions.PrefixListsStored | main.py:141-145 | the first n documents of a reordering of the collection, served, form a sub-multiset of the served collection: each listed at most as often as it is stored |
| Predictions.LexLeTotal | main.py:141 | any two timestamps are ordered one way or the other |
| Predictions.LexLeTransitive | main.py:141 | the string order of timestamps is transitive |
| Predictions.Insert | main.py:141 | insertion adds exactly the one document |
| Predictions.InsertKeepsNewestFirst | main.py:141 | inserting into a newest-first sequence keeps it newest first |
| Predictions.SortNewestFirst | main.py:141 | sort("predicted_at", -1) yields the same documents, newest first |
| Predictions.NewestPrefix | main.py:141-145 | the first n served documents are stored ones, newest first, and no unlisted document is newer than a listed one |
| Predictions.LookupQuery | main.py:159-162 | the id is queried on _id exactly when it passes the ObjectId check (IsValidObjectId: exactly 24 hexadecimal digits), on prediction_id otherwise; exactly one key is queried |
| Predictions.UuidQueriesPredictionId | main.py:116 | a UUID string (36 characters) is always looked up by prediction_id |
| Predictions.FindOne | main.py:164 | find_one returns a stored matching document, and nothing exactly when no document matches |
| Predictions.FindOneUnique | main.py:45 | with the key unique, a matching query finds exactly that document |
| Predictions.FindInserted | main.py:118-128 | a stored document is found again both by the prediction_id and by the database id returned to the client |
| Predictions.PredictionService.constructor | main.py:41-45 | the service starts with the given stored documents, which must have unique _id and prediction_id values |
| Predictions.PredictionService.PredictLearningStyle | main.py:99-135 | success exactly when classification succeeds, the store does not fail and neither key is taken; a success answers the style, the new ids, "success" and the input, and appends exactly the new document; every failure is 500 "Prediction error: …" and leaves the collection unchanged |
| Predictions.PredictionService.PostPredictStyle | main.py:54-135 | an invalid body is answered 422 with "Validation Error", the fixed message and one detail per error (its path, message and invalid value), and never reaches the classifier or the store; a valid one is handled exactly as PredictLearningStyle states: success exactly when classification succeeds, the store does not fail and neither key is taken, answering the style, the new ids, "success" and the validated input and appending exactly the new document; every failure is a 500 "Prediction error: …" that leaves the collection unchanged |
| Predictions.PredictionService.GetPredictions | main.py:138-153 | a negative limit is 500 "Database error: …" before the store is consulted; otherwise a store fault is 500 "Database error: …"; otherwise "success" with count = min(limit, stored) documents, newest first, stored documents (a sub-multiset of the served collection: each listed at most as often as it is stored, which is once while the class invariant keeps _id unique) with _id as a string, and none left out that is newer than one listed; nothing changes |
| Predictions.PredictionService.GetPredictionById | main.py:156-172 | a hit is served with "success"; a miss is 500 "Database error: 404: Prediction not found"; every error is a 500 |
| Predictions.PredictionService.GetPredictionByIdIntended | main.py:164-170 | as above, but a miss is 404 "Prediction not found", and a 404 occurs exactly when no document matches |
| Training.FeaturePartition | d_t.py:18-19 | 3 categorical and 12 numerical columns, disjoint, none listed twice |
| Training.FittedSeedsAppend | d_t.py:46-58 | the seeds fitted by two consecutive stretches of the script are those of the first followed by those of the second |
| Training.AppendSafeSteps | d_t.py:30-37 | steps that neither split nor fit on the test part keep a leak-free trace leak-free |
| Training.RunsAreSafe | d_t.py:46-63 | the runs only fit on the training part and only evaluate on the test part, with seeds 43, 44, 45 in order |
| Training.ScriptTraceOrder | d_t.py:30-78 | the split comes first and once; the preprocessor is fitted on the training part before the test part is transformed; exactly the models seeded 43, 44, 45 are fitted, each on the training part |
| Training.TrainAndSaveModel | d_t.py:39-78 | the best accuracy is at least 0 and at least every run's; no model is kept exactly when no run scores above 0, and then the best accuracy is 0; a kept model is the first run reaching the best accuracy; the steps taken are the script's trace |
| StudentForm.MapGender | frontend-new/src/components/StudentFormClean.jsx:39 | 1 exactly for "female", 0 for anything else |
| StudentForm.ToNumber | frontend-new/src/components/StudentFormClean.jsx:54-70 | Number() of a number is that number; the empty text is 0; a text of decimal digits is its decimal value; any other text is NaN |
| StudentForm.NumberOfNumeral | frontend-new/src/components/StudentFormClean.jsx:54-70 | Number() reads back the decimal text of any natural number |
| StudentForm.MapPositive | frontend-new/src/components/StudentFormClean.jsx:40-47 | mapBinary, mapInternet and mapEduTech give 1 exactly for a positive number and 0 otherwise, NaN included |
| StudentForm.MapMotivation | frontend-new/src/components/StudentFormClean.jsx:41-45 | a number maps into 0-2; NaN stays NaN |
| StudentForm.MapFinalGrade | frontend-new/src/components/StudentFormClean.jsx:48-52 | a number maps into 0-10; NaN stays NaN |
| StudentForm.MotivationBands | frontend-new/src/components/StudentFormClean.jsx:41-45 | motivation up to 2 maps to 0, 3 to 7 to 1, and 8 and above to 2 |
| StudentForm.MotivationMonotone | frontend-new/src/components/StudentFormClean.jsx:41-45 | a higher motivation never maps lower |
| StudentForm.FinalGradeNearestTenth | frontend-new/src/components/StudentFormClean.jsx:48-52 | on 0-100 a grade maps to its nearest tenth, halves up; 75 maps to 8 |
| StudentForm.FinalGradeMonotone | frontend-new/src/components/StudentFormClean.jsx:48-52 | a higher grade never maps lower |
| StudentForm.BuildPayload | frontend-new/src/components/StudentFormClean.jsx:54-70 | the 15 keys in order; nine fields are sent as Number() of the form value; Extracurricular, Internet and EduTech are mapBinary/mapInternet/mapEduTech of their values, Motivation mapMotivation, Gender mapGender of the value or of undefined, FinalGrade mapFinalGrade; the binary fields are always 0 or 1, motivation within 0-2 and grade within 0-10 when they are numbers |
| StudentForm.InitialPayload | frontend-new/src/components/StudentFormClean.jsx:5-21 | the initial form sends 5, 80, 3, 1, 1, 1, 0, 20, 1, 3, 85, 70, 1, 4, 8 |
| StudentForm.Controls | frontend-new/src/components/StudentFormClean.jsx:89-202 | one control per payload field, in payload order |
| StudentForm.InitialFormWithinControls | frontend-new/src/components/StudentFormClean.jsx:5-21 | every initial value is one its control can produce |
| StudentForm.ControlsDistinct | frontend-new/src/components/StudentFormClean.jsx:89-202 | no two controls edit the same field |
| StudentForm.ChangeKeepsWithinControls | frontend-new/src/components/StudentFormClean.jsx:29-31 | a change through a control keeps every field within its control |
| StudentForm.LearningName | frontend-new/src/components/StudentFormClean.jsx:80 | ids 0 to 3 name the four styles; any other id reads "Style <id>" |
| StudentForm.LearningNameInjective | frontend-new/src/components/StudentFormClean.jsx:80 | distinct ids are shown under distinct names |
| StudentForm.ShownError | frontend-new/src/components/StudentFormClean.jsx:76 | the server's response body when there is a truthy one, the error message otherwise |
| StudentForm.StudentFormState.constructor | frontend-new/src/components/StudentFormClean.jsx:24-27 | the initial form, not loading, no result, no error |
| StudentForm.StudentFormState.HandleChange | frontend-new/src/components/StudentFormClean.jsx:29-31 | the named field takes the new value; every other field and the rest of the state are unchanged |
| StudentForm.StudentFormState.HandleReset | frontend-new/src/components/StudentFormClean.jsx:33 | the initial form returns and result and error are cleared |
| StudentForm.StudentFormState.BeginSubmit | frontend-new/src/components/StudentFormClean.jsx:35-72 | loading, result and error cleared, form unchanged, and the payload of the current form is posted |
| StudentForm.StudentFormState.FinishSubmit | frontend-new/src/components/StudentFormClean.jsx:72-77 | loading ends; the response body becomes the result, or the failure becomes the error |
| StudentForm.ResetThenSubmit | frontend-new/src/components/StudentFormClean.jsx:33-36 | a submit right after a reset posts the initial payload |
| TrendChart.FindIndex | frontend-new/src/components/StyleTrendChart.jsx:10 | the first flagged position, or -1 exactly when none is flagged |
| TrendChart.PredictedIndex | frontend-new/src/components/StyleTrendChart.jsx:10 | the `|| 0` fallback never applies: the index is findIndex's, -1 included |
| TrendChart.CurrentPercentages | frontend-new/src/components/StyleTrendChart.jsx:13-15 | four entries: the predictions' percentages when there are exactly four, otherwise 25 each |
| TrendChart.FinalValue | frontend-new/src/components/StyleTrendChart.jsx:32 | the `|| 25` fallback: the percentage when it is present and not 0, and 25 when it is 0 or missing; never 0 |
| TrendChart.StartValue | frontend-new/src/components/StyleTrendChart.jsx:37 | the predicted style starts at max(20, final-25), the others at min(35, final+10) |
| TrendChart.TrendLine | frontend-new/src/components/StyleTrendChart.jsx:36-43 | the loop yields the seven rounded phase values of the line |
| TrendChart.Line | frontend-new/src/components/StyleTrendChart.jsx:36-43 | one rounded value per analysis phase, seven in all |
| TrendChart.StyleLine | frontend-new/src/components/StyleTrendChart.jsx:30-44 | a style's line has seven points, from round(start value) to round(final value) |
| TrendChart.Series | frontend-new/src/components/StyleTrendChart.jsx:30-47 | four lines, one per style, each starting from its style's start value, predicted or not |
| TrendChart.UnflaggedDrawsNoGrowth | frontend-new/src/components/StyleTrendChart.jsx:10-37 | with nothing flagged, every line uses the non-predicted start value |
| TrendChart.OnePredictedLine | frontend-new/src/components/StyleTrendChart.jsx:33 | a style is drawn as predicted exactly when it is the first flagged one |
| TrendChart.LineEnds | frontend-new/src/components/StyleTrendChart.jsx:39-43 | each line's first point is round(start) and its last round(final) |
| TrendChart.PointsBetween | frontend-new/src/components/StyleTrendChart.jsx:40-41 | the phase values lie between start and final and move towards final |
| TrendChart.LineMonotone | frontend-new/src/components/StyleTrendChart.jsx:39-43 | a line never moves away from its final value |
| TrendChart.NonDecreasingIff | frontend-new/src/components/StyleTrendChart.jsx:39-43 | a line never falls exactly when round(start) <= round(final) |
| TrendChart.NonIncreasingIff | frontend-new/src/components/StyleTrendChart.jsx:39-43 | a line never rises exactly when round(final) <= round(start) |
| TrendChart.PredictedGrowsIff | frontend-new/src/components/StyleTrendChart.jsx:35-37 | the predicted line shows growth exactly when final >= 19.5; below that it declines from 20 |
| TrendChart.OthersDeclineIff | frontend-new/src/components/StyleTrendChart.jsx:35-37 | another style's line shows decline or stays level exactly when final < 35.5; above that it rises from 35 |
| TrendChart.SeqMin | frontend-new/src/components/StyleTrendChart.jsx:56 | Math.min of the values is one of them and at most each |
| TrendChart.SeqMax | frontend-new/src/components/StyleTrendChart.jsx:57 | Math.max of the values is one of them and at least each |
| TrendChart.Flatten | frontend-new/src/components/StyleTrendChart.jsx:55 | flat() holds every point of every line and nothing else |
| TrendChart.X | frontend-new/src/components/StyleTrendChart.jsx:59 | every phase is placed between the left and right padding |
| TrendChart.Y | frontend-new/src/components/StyleTrendChart.jsx:60 | every value between min and max is placed between the top and bottom padding |
| TrendChart.XSpansWidth | frontend-new/src/components/StyleTrendChart.jsx:59 | x(0) = 48, x(6) = 736, and x increases |
| TrendChart.YSpansHeight | frontend-new/src/components/StyleTrendChart.jsx:60 | y(max) = 24; when max > min, y(min) = 228, y decreases, and maps [min, max] into [24, 228]; with equal values the span falls back to 1 |
| TrendChart.PointsInsideChart | frontend-new/src/components/StyleTrendChart.jsx:54-60 | every point of the four lines is drawn inside the plot area |
| Integration.JsonOf | frontend-new/src/components/StudentFormClean.jsx:72 | a number is posted as that integer, NaN as null |
| Integration.ToBody | frontend-new/src/components/StudentFormClean.jsx:72 | the posted object of an empty payload is empty; the last key holds the JSON of its value |
| Integration.ToBodyKeys | frontend-new/src/components/StudentFormClean.jsx:54-72 | the posted object has exactly the payload's keys |
| Integration.ToBodyLookup | frontend-new/src/components/StudentFormClean.jsx:54-72 | each key of the posted object holds the payload's value for it |
| Integration.PayloadKeysAreFields | frontend-new/src/components/StudentFormClean.jsx:54-70 | the payload's keys are the service's declared fields, in order, each once |
| Integration.PostedField | frontend-new/src/components/StudentFormClean.jsx:54-72 | the service accepts a posted field exactly when the payload holds an integer there within the field's bounds |
| Integration.MappedFieldsAccepted | frontend-new/src/components/StudentFormClean.jsx:38-70 | the mapped fields always pass the service's bounds (motivation and grade when they are numbers) |
| Integration.ValidatesWithinIntendedControls | frontend-new/src/components/StudentFormClean.jsx:169 | with the discussions input stopping at 10, every form the controls allow passes validation |
| Integration.DiscussionsOverflow | frontend-new/src/components/StudentFormClean.jsx:169 | as written, the controls allow 15 discussions, which the service rejects |
| Integration.ValidatedIsPayload | frontend-new/src/components/StudentFormClean.jsx:54-72 | the record the service validates is the payload the form built |
| Integration.ValidatesTo | frontend-new/src/components/StudentFormClean.jsx:54-72 | a form within the intended controls is validated into exactly its payload's values |
| Integration.InitialFormValidates | frontend-new/src/components/StudentFormClean.jsx:5-21 | the initial form posts a record the service accepts, with the mapped values |
| Integration.FeaturesAreExpectedColumns | d_t.py:18-19 | the categorical and numerical columns together are exactly the 15 columns the service projects onto |

Helpers without a row of their own are stated through the rows that use them:
- `Predictions.LexLe`, the store's string order on `predicted_at` (main.py:141), through LexLeTotal, LexLeTransitive and SortNewestFirst;
- `StudentForm.Truthy`, the `||` of StudentFormClean.jsx:76, through ShownError;
- `TrendChart.PointValue`, the phase value of StyleTrendChart.jsx:40-41, through PointsBetween and Line;
- `Base.IntToDecimal`, `str()` at main.py:58 and the template `${id}` at StudentFormClean.jsx:80, through IntToDecimalInjective and LearningName.

## Left out

- Validation errors follow pydantic 2 (the generation FastAPI 0.100 and later uses): each error carries an `input`, a missing field reports the whole body as its input, and the messages are pydantic 2's "Field required" and "Input should be …" texts. pydantic 1's `value_error.missing` style of errors is not modelled.
- Schema.Validate: does not model pydantic's lax coercion. Numeric strings, whole floats and the booleans `true`/`false` that pydantic accepts as integers are represented by `Int` before validation, a boolean as `Int(1)`/`Int(0)`. A string is always rejected with "unable to parse string as an integer", and every other non-integer with "Input should be a valid integer". Pydantic's own messages for a float with a fractional part ("got a number with a fractional part") and for whitespace around numeric strings are not modelled. `Other` stands for null, floats with a fractional part and arrays alike. `Null` also stands for an absent request body.
- Predictions.PredictionService.PredictLearningStyle: for a store failure the detail is stated only up to its "Prediction error: " prefix, because the driver's message text is a parameter.
- The `except ValidationError` branch (main.py:132-133) is not modelled. Nothing inside the handler's `try` raises a pydantic ValidationError once the body has validated.
- sklearn is not modelled: training, the one-hot encoder, prediction and accuracy scoring are foreign library behaviour. The classifier and the per-seed accuracy are parameters.
- joblib dumping and loading, reading the CSV, and the script's progress output are left out as I/O.
- MongoDB and motor are left out as I/O: the collection is an in-memory sequence and database failures are a parameter. Equal `predicted_at` values are listed in an order of the model's choosing.
- `uuid4()` and `utcnow().isoformat()` are parameters; the ISO-8601 format of timestamps is not modelled. Timestamps are compared as strings, as the store compares them.
- `ObjectId.is_valid` is modelled for strings only (24 hexadecimal digits). `ObjectId(s)` keeps the text as given; its lower-casing of hexadecimal digits is not modelled.
- Predictions.PredictionService.GetPredictions: takes `limit` as an argument. The default of 10, used when the query omits it (main.py:139), is the caller's choice of that argument.
- A non-integer `limit` query parameter, which the framework rejects before the handler, is not modelled; `limit` is an integer.
- The root endpoint, CORS, and the startup and shutdown hooks are left out as framework wiring; only the unique indexes are kept, as the class invariant.
- JavaScript numbers are modelled as integers, and percentages as exact reals. Fractional inputs, IEEE-754 rounding and NaN percentages (treated as missing) are not modelled.
- `Number()` of a text is only modelled for the empty text and plain decimal digits; every other text counts as NaN.
- StudentForm.Truthy counts only null and false among non-integer, non-string, non-object JSON values as falsy; a JSON 0.0 is treated as truthy.
- The `predicted_style` and `predictions` fields the form reads, and their rendering, are left out: the service shown here never sends them.
- Rendering is left out: the JSX layout, SVG paths and their `toFixed(2)` strings, the "Your Best Match" label, scrolling and `useMemo` caching.
- The loading state is modelled across the request: BeginSubmit sets it and FinishSubmit clears it. The HTTP call between them is a parameter of FinishSubmit.
- d_p.py, the manual test scripts and App.jsx are not part of this model.

## Findings

| source | as written | input that shows it | evidently intended | confidence | as-written member | corrected member |
|---|---|---|---|---|---|---|
| main.py:164-172 | a lookup miss raises HTTPException(404) inside the `try`, and the catch-all `except Exception` re-raises it as 500 "Database error: 404: Prediction not found" | GET /predictions/{id} with an id that no document matches | the caller receives 404 "Prediction not found" | high; not executed | Predictions.PredictionService.GetPredictionById | Predictions.PredictionService.GetPredictionByIdIntended |
| frontend-new/src/components/StudentFormClean.jsx:169 | the discussions input admits up to 20, while the service accepts at most 10 (main.py:90), and the value is sent unmapped | the initial form with 15 discussions per week is rejected with 422 | the input stops at 10, so every form the controls allow is accepted | high; not executed | Integration.DiscussionsOverflow | Integration.ValidatesWithinIntendedControls |
