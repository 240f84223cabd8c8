/** The offline training script d_t.py: the split into train and test parts,
    the preprocessor fitted on the training part only, and the best-of-three
    model selection by test accuracy. The learning itself is not modelled:
    the accuracy a forest reaches is a function of its random seed, and a
    trained model is identified by that seed. The steps the script takes are
    recorded as a trace so that their order can be stated. */
module Training {
  import opened Base

  /** The columns one-hot encoded by the preprocessor. */
  const CategoricalFeatures: seq<string> := ["Gender", "Motivation", "Extracurricular"]

  /** The columns passed through unchanged. */
  const NumericalFeatures: seq<string> := [
    "StudyHours", "Attendance", "AssignmentCompletion", "OnlineCourses", "Discussions", "Resources",
    "Internet", "EduTech", "StressLevel", "ExamScore", "FinalGrade", "Age"
  ]

  const TrainingRuns: nat := 3
  const SeedBase: int := 42
  const TestSize: real := 0.2
  const SplitSeed: int := 42

  /** The seed of run r (runs are numbered from 1). */
  function RunSeed(r: int): int { SeedBase + r }

  /** The categorical and numerical lists do not overlap, and neither names a
      column twice. */
  lemma FeaturePartition()
    ensures |CategoricalFeatures| == 3 && |NumericalFeatures| == 12
    ensures forall c :: c in CategoricalFeatures ==> c !in NumericalFeatures
    ensures forall i, j :: 0 <= i < j < |CategoricalFeatures| ==> CategoricalFeatures[i] != CategoricalFeatures[j]
    ensures forall i, j :: 0 <= i < j < |NumericalFeatures| ==> NumericalFeatures[i] != NumericalFeatures[j]
  {
  }

  datatype Part = Train | Test

  /** One step of the script, in the order it is taken. */
  datatype Step =
    | Split(testSize: real, seed: int, stratified: bool)
    | FitTransform(part: Part)
    | Transform(part: Part)
    | FitModel(seed: int, part: Part)
    | Evaluate(seed: int, part: Part)
    | SaveModel(best: Option<int>)
    | SavePreprocessor

  /** The part of the data a step touches, if any. */
  function Touches(s: Step): Option<Part>
  {
    match s
    case FitTransform(p) => Some(p)
    case Transform(p) => Some(p)
    case FitModel(_, p) => Some(p)
    case Evaluate(_, p) => Some(p)
    case _ => None
  }

  /** No test data leaks into fitting: the split comes first and only once,
      the preprocessor and every model are fitted on the training part, and
      the test part is only transformed and evaluated on. */
  predicate NoLeakage(trace: seq<Step>)
  {
    && |trace| > 0
    && trace[0].Split?
    && (forall i :: 0 < i < |trace| ==> !trace[i].Split?)
    && (forall i :: 0 <= i < |trace| && trace[i].FitTransform? ==> trace[i].part == Train)
    && (forall i :: 0 <= i < |trace| && trace[i].FitModel? ==> trace[i].part == Train)
    && (forall i :: 0 <= i < |trace| && Touches(trace[i]) == Some(Test) ==>
          trace[i].Transform? || trace[i].Evaluate?)
  }

  /** The preprocessor is fitted before anything is transformed with it. */
  predicate FitBeforeTransform(trace: seq<Step>)
  {
    forall j :: 0 <= j < |trace| && trace[j].Transform? ==>
      exists i :: 0 <= i < j && trace[i].FitTransform?
  }

  /** The seeds of the models fitted, in order. */
  function FittedSeeds(trace: seq<Step>): seq<int>
  {
    if trace == [] then []
    else (if trace[0].FitModel? then [trace[0].seed] else []) + FittedSeeds(trace[1..])
  }

  /** The steps before the runs: split, fit_transform(X_train), transform(X_test). */
  const Prelude: seq<Step> := [Split(TestSize, SplitSeed, true), FitTransform(Train), Transform(Test)]

  /** The two steps of run r: fit on the training part, predict on the test part. */
  function RunSteps(r: int): seq<Step>
  {
    [FitModel(RunSeed(r), Train), Evaluate(RunSeed(r), Test)]
  }

  lemma {:induction false} FittedSeedsAppend(a: seq<Step>, b: seq<Step>)
    ensures FittedSeeds(a + b) == FittedSeeds(a) + FittedSeeds(b)
  {
    if a == [] {
      assert a + b == b;
    } else {
      assert (a + b)[0] == a[0] && (a + b)[1..] == a[1..] + b;
      FittedSeedsAppend(a[1..], b);
    }
  }

  /** Steps that may follow the preprocessor fit without leaking: no second
      split, no fitting on the test part, the test part only transformed or
      evaluated on. */
  predicate SafeSteps(steps: seq<Step>)
  {
    forall i :: 0 <= i < |steps| ==>
      !steps[i].Split? && !steps[i].FitTransform? &&
      (steps[i].FitModel? ==> steps[i].part == Train) &&
      (Touches(steps[i]) == Some(Test) ==> steps[i].Transform? || steps[i].Evaluate?)
  }

  /** Appending safe steps after the preprocessor fit keeps the trace free of leakage. */
  lemma AppendSafeSteps(trace: seq<Step>, steps: seq<Step>, fit: nat)
    requires NoLeakage(trace) && FitBeforeTransform(trace)
    requires fit < |trace| && trace[fit].FitTransform?
    requires SafeSteps(steps)
    ensures NoLeakage(trace + steps) && FitBeforeTransform(trace + steps)
  {
    var t := trace + steps;
    forall j | 0 <= j < |t| && t[j].Transform? ensures exists i :: 0 <= i < j && t[i].FitTransform? {
      if j >= |trace| {
        assert t[fit].FitTransform?;
      } else {
        assert trace[j].Transform?;
        var i :| 0 <= i < j && trace[i].FitTransform?;
        assert t[i].FitTransform?;
      }
    }
    forall i | 0 <= i < |t| && Touches(t[i]) == Some(Test) ensures t[i].Transform? || t[i].Evaluate? {
      if i < |trace| { assert t[i] == trace[i]; } else { assert t[i] == steps[i - |trace|]; }
    }
  }

  /** The steps of runs 1 to n, in order. */
  function Runs(n: nat): seq<Step>
  {
    if n == 0 then [] else Runs(n - 1) + RunSteps(n)
  }

  lemma {:induction false} RunsAreSafe(n: nat)
    ensures SafeSteps(Runs(n))
    ensures FittedSeeds(Runs(n)) == seq(n, i => RunSeed(i + 1))
  {
    if n > 0 {
      RunsAreSafe(n - 1);
      var steps := RunSteps(n);
      assert FittedSeeds(steps) == [RunSeed(n)] by {
        assert FittedSeeds(steps[1..]) == [] by { assert steps[1..][1..] == []; }
      }
      FittedSeedsAppend(Runs(n - 1), steps);
      var r := Runs(n);
      forall i | 0 <= i < |r|
        ensures !r[i].Split? && !r[i].FitTransform? && (r[i].FitModel? ==> r[i].part == Train) &&
          (Touches(r[i]) == Some(Test) ==> r[i].Transform? || r[i].Evaluate?)
      {
        if i >= |Runs(n - 1)| { assert r[i] == steps[i - |Runs(n - 1)|]; }
        else { assert r[i] == Runs(n - 1)[i]; }
      }
    }
  }

  /** Everything the script does, given the model it ends up keeping. */
  function ScriptTrace(best: Option<int>): seq<Step>
  {
    Prelude + Runs(TrainingRuns) + [SaveModel(best), SavePreprocessor]
  }

  /** The script splits once and first, fits the preprocessor on the training
      part before transforming the test part with it, fits exactly the models
      seeded 43, 44 and 45, each on the training part, and saves last. */
  lemma ScriptTraceOrder(best: Option<int>)
    ensures NoLeakage(ScriptTrace(best)) && FitBeforeTransform(ScriptTrace(best))
    ensures FittedSeeds(ScriptTrace(best)) == [43, 44, 45]
  {
    assert FittedSeeds(Prelude[2..]) == [] by { assert Prelude[2..][1..] == []; }
    assert FittedSeeds(Prelude[1..]) == [] by { assert Prelude[1..][1..] == Prelude[2..]; }
    assert FittedSeeds(Prelude) == [];
    assert NoLeakage(Prelude);
    assert FitBeforeTransform(Prelude) by {
      assert forall j :: 0 <= j < |Prelude| && Prelude[j].Transform? ==> j == 2;
    }
    var save := [SaveModel(best), SavePreprocessor];
    assert FittedSeeds(save) == [] by { assert FittedSeeds(save[1..]) == [] by { assert save[1..][1..] == []; } }
    assert SafeSteps(save);
    RunsAreSafe(TrainingRuns);
    AppendSafeSteps(Prelude, Runs(TrainingRuns), 1);
    AppendSafeSteps(Prelude + Runs(TrainingRuns), save, 1);
    FittedSeedsAppend(Prelude, Runs(TrainingRuns));
    FittedSeedsAppend(Prelude + Runs(TrainingRuns), save);
    assert seq(TrainingRuns, i => RunSeed(i + 1)) == [43, 44, 45];
  }

  /** train_and_save_model. accuracy(seed) is the test accuracy of the forest
      trained with that seed. Returns the best accuracy, the seed of the kept
      model (None when no run beat 0.0) and the steps taken. */
  method TrainAndSaveModel(accuracy: int -> real)
    returns (bestAccuracy: real, bestModel: Option<int>, trace: seq<Step>)
    ensures bestAccuracy >= 0.0
    ensures forall r :: 1 <= r <= TrainingRuns ==> accuracy(RunSeed(r)) <= bestAccuracy
    ensures bestModel.None? <==> forall r :: 1 <= r <= TrainingRuns ==> accuracy(RunSeed(r)) <= 0.0
    ensures bestModel.None? ==> bestAccuracy == 0.0
    ensures bestModel.Some? ==>
      exists r :: 1 <= r <= TrainingRuns && bestModel.value == RunSeed(r) && accuracy(RunSeed(r)) == bestAccuracy &&
        forall q :: 1 <= q < r ==> accuracy(RunSeed(q)) < bestAccuracy
    ensures trace == ScriptTrace(bestModel)
  {
    trace := Prelude;
    bestAccuracy := 0.0;
    bestModel := None;
    ghost var bestRun := 0;
    var run := 1;
    while run <= TrainingRuns
      invariant 1 <= run <= TrainingRuns + 1
      invariant bestAccuracy >= 0.0
      invariant forall r :: 1 <= r < run ==> accuracy(RunSeed(r)) <= bestAccuracy
      invariant bestModel.None? <==> forall r :: 1 <= r < run ==> accuracy(RunSeed(r)) <= 0.0
      invariant bestModel.None? ==> bestAccuracy == 0.0
      invariant bestModel.Some? ==>
        1 <= bestRun < run && bestModel.value == RunSeed(bestRun) && accuracy(RunSeed(bestRun)) == bestAccuracy &&
        forall q :: 1 <= q < bestRun ==> accuracy(RunSeed(q)) < bestAccuracy
      invariant trace == Prelude + Runs(run - 1)
    {
      var seed := RunSeed(run);
      var runAccuracy := accuracy(seed);
      trace := trace + [FitModel(seed, Train), Evaluate(seed, Test)];
      if runAccuracy > bestAccuracy {
        bestAccuracy := runAccuracy;
        bestModel := Some(seed);
        bestRun := run;
      }
      run := run + 1;
    }
    trace := trace + [SaveModel(bestModel), SavePreprocessor];
  }
}
