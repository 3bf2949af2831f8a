/** Training sets built from the record store, and the registry of the two
    models trained once when the engine starts. */
module Training {
  import opened Wrappers
  import opened JsNumber
  import opened Store
  import opened Regression

  /** The two regression targets. */
  datatype Target = FinalCGPA | Endsem

  /** The label a record offers for a target, if any. */
  function Label(rec: Record, t: Target): Option<real>
  {
    match t
    case FinalCGPA => rec.cgpa
    case Endsem => rec.endsem
  }

  /** The prior GPA feature: the cumulative GPA when it is a number, else 0. */
  function PrevGPA(st: Student): real
  {
    match st.cumulativeGPA
    case Some(g) => g
    case None => 0.0
  }

  /** `[rec.mid1 || 0, rec.mid2 || 0, prevGPA]` */
  function Features(st: Student, rec: Record): seq<real>
  {
    [Or(rec.mid1, 0.0), Or(rec.mid2, 0.0), PrevGPA(st)]
  }

  datatype Example = Example(features: seq<real>, y: real)

  /** The examples one student's records contribute, in stored order. */
  function RecordExamples(st: Student, recs: seq<Record>, t: Target): seq<Example>
  {
    if recs == [] then []
    else
      var last := recs[|recs| - 1];
      RecordExamples(st, recs[..|recs| - 1], t)
        + (if Label(last, t).Some? then [Example(Features(st, last), Label(last, t).value)] else [])
  }

  /** The examples of all students, students first, then records, in stored order. */
  function Examples(students: seq<Student>, t: Target): seq<Example>
  {
    if students == [] then []
    else
      var last := students[|students| - 1];
      Examples(students[..|students| - 1], t) + RecordExamples(last, last.records, t)
  }

  function FeatureRows(es: seq<Example>): (X: Matrix)
  {
    seq(|es|, i requires 0 <= i < |es| => es[i].features)
  }

  /** Rows of three features each form a width-3 matrix whenever there are any. */
  lemma FeatureRowsShape(es: seq<Example>)
    requires forall i :: 0 <= i < |es| ==> |es[i].features| == 3
    ensures |FeatureRows(es)| == |es|
    ensures |es| > 0 ==> IsMatrix(FeatureRows(es)) && Width(FeatureRows(es)) == 3
  {
  }

  function Labels(es: seq<Example>): (y: seq<real>)
    ensures |y| == |es|
  {
    seq(|es|, i requires 0 <= i < |es| => es[i].y)
  }

  /** A student yields at most one example per record, each with three features. */
  lemma {:induction false} RecordExamplesShape(st: Student, recs: seq<Record>, t: Target)
    ensures |RecordExamples(st, recs, t)| <= |recs|
    ensures forall i :: 0 <= i < |RecordExamples(st, recs, t)| ==> |RecordExamples(st, recs, t)[i].features| == 3
  {
    if recs != [] {
      var last := recs[|recs| - 1];
      var done: seq<Example> := RecordExamples(st, recs[..|recs| - 1], t);
      var added: seq<Example> := if Label(last, t).Some? then [Example(Features(st, last), Label(last, t).value)] else [];
      RecordExamplesShape(st, recs[..|recs| - 1], t);
      assert RecordExamples(st, recs, t) == done + added;
      forall i: int | 0 <= i < |done + added|
        ensures |(done + added)[i].features| == 3
      {
        if i < |done| {
          assert (done + added)[i] == done[i];
        }
      }
    }
  }

  /** Every example of the training set has three features. */
  lemma {:induction false} ExamplesShape(students: seq<Student>, t: Target)
    ensures forall i :: 0 <= i < |Examples(students, t)| ==> |Examples(students, t)[i].features| == 3
  {
    if students != [] {
      var init, last := students[..|students| - 1], students[|students| - 1];
      var a: seq<Example>, b: seq<Example> := Examples(init, t), RecordExamples(last, last.records, t);
      ExamplesShape(init, t);
      RecordExamplesShape(last, last.records, t);
      assert Examples(students, t) == a + b;
      forall i: int | 0 <= i < |a + b|
        ensures |(a + b)[i].features| == 3
      {
        if i < |a| {
          assert (a + b)[i] == a[i];
        } else {
          assert (a + b)[i] == b[i - |a|];
        }
      }
    }
  }

  /** The example a record offers: its label for the target and its three features. */
  predicate Yields(st: Student, rec: Record, t: Target, e: Example)
  {
    Label(rec, t) == Some(e.y) && e.features == Features(st, rec)
  }

  /** Some record of the student yields the example. */
  predicate StudentYields(st: Student, t: Target, e: Example)
  {
    exists r :: 0 <= r < |st.records| && Yields(st, st.records[r], t, e)
  }

  /** Every labelled record of the student yields one example, and nothing else does. */
  lemma {:induction false} RecordExamplesMembership(st: Student, recs: seq<Record>, t: Target, e: Example)
    ensures e in RecordExamples(st, recs, t) <==> exists r :: 0 <= r < |recs| && Yields(st, recs[r], t, e)
  {
    if recs != [] {
      var n := |recs| - 1;
      var init := recs[..n];
      RecordExamplesMembership(st, init, t, e);
      if e in RecordExamples(st, recs, t) {
        if e in RecordExamples(st, init, t) {
          var r :| 0 <= r < |init| && Yields(st, init[r], t, e);
          assert recs[r] == init[r];
        } else {
          assert Yields(st, recs[n], t, e);
        }
      }
      if exists r :: 0 <= r < |recs| && Yields(st, recs[r], t, e) {
        var r :| 0 <= r < |recs| && Yields(st, recs[r], t, e);
        if r < n {
          assert init[r] == recs[r];
        }
      }
    }
  }

  /** The training set holds exactly one example per labelled record of any
      student: `[mid1 || 0, mid2 || 0, prior GPA]` with the record's label. */
  lemma {:induction false} ExamplesMembership(students: seq<Student>, t: Target, e: Example)
    ensures e in Examples(students, t) <==> exists s :: 0 <= s < |students| && StudentYields(students[s], t, e)
  {
    if students != [] {
      var n := |students| - 1;
      var init, last := students[..n], students[n];
      assert Examples(students, t) == Examples(init, t) + RecordExamples(last, last.records, t);
      ExamplesMembership(init, t, e);
      RecordExamplesMembership(last, last.records, t, e);
      if e in Examples(students, t) {
        if e in Examples(init, t) {
          var s :| 0 <= s < |init| && StudentYields(init[s], t, e);
          assert students[s] == init[s];
        } else {
          assert StudentYields(students[n], t, e);
        }
      }
      if exists s :: 0 <= s < |students| && StudentYields(students[s], t, e) {
        var s :| 0 <= s < |students| && StudentYields(students[s], t, e);
        if s < n {
          assert init[s] == students[s];
        }
      }
    }
  }

  /** Rows and labels of two example lists laid end to end. */
  lemma RowsAppend(a: seq<Example>, b: seq<Example>)
    ensures FeatureRows(a + b) == FeatureRows(a) + FeatureRows(b)
    ensures Labels(a + b) == Labels(a) + Labels(b)
  {
    assert forall i :: 0 <= i < |a + b| ==> (a + b)[i] == if i < |a| then a[i] else b[i - |a|];
  }

  /** One more record adds its row and label exactly when it is labelled. */
  lemma RowsStep(st: Student, recs: seq<Record>, t: Target, r: nat)
    requires r < |recs|
    ensures var known := Label(recs[r], t);
      && FeatureRows(RecordExamples(st, recs[..r + 1], t))
           == FeatureRows(RecordExamples(st, recs[..r], t)) + (if known.Some? then [Features(st, recs[r])] else [])
      && Labels(RecordExamples(st, recs[..r + 1], t))
           == Labels(RecordExamples(st, recs[..r], t)) + (if known.Some? then [known.value] else [])
  {
    var done := RecordExamples(st, recs[..r], t);
    var known := Label(recs[r], t);
    var added := if known.Some? then [Example(Features(st, recs[r]), known.value)] else [];
    assert recs[..r + 1][..r] == recs[..r];
    assert RecordExamples(st, recs[..r + 1], t) == done + added;
    RowsAppend(done, added);
  }

  /** The inner `st.records.forEach`: push the row and label of every
      labelled record of one student. */
  method AddStudent(st: Student, t: Target, X0: Matrix, y0: seq<real>) returns (X: Matrix, y: seq<real>)
    ensures X == X0 + FeatureRows(RecordExamples(st, st.records, t))
    ensures y == y0 + Labels(RecordExamples(st, st.records, t))
  {
    X, y := X0, y0;
    var prevGPA := if st.cumulativeGPA.Some? then st.cumulativeGPA.value else 0.0;
    for r := 0 to |st.records|
      invariant X == X0 + FeatureRows(RecordExamples(st, st.records[..r], t))
      invariant y == y0 + Labels(RecordExamples(st, st.records[..r], t))
    {
      var rec := st.records[r];
      RowsStep(st, st.records, t, r);
      var known := if t.FinalCGPA? then rec.cgpa else rec.endsem;
      if known.Some? {
        X := X + [[Or(rec.mid1, 0.0), Or(rec.mid2, 0.0), prevGPA]];
        y := y + [known.value];
      }
    }
    assert st.records[..|st.records|] == st.records;
  }

  /** buildTrainingForFinalCGPA / buildTrainingForEndsemMarks: push one row and
      one label per labelled record, students then records in stored order. */
  method BuildTraining(students: seq<Student>, t: Target) returns (X: Matrix, y: seq<real>)
    ensures X == FeatureRows(Examples(students, t)) && y == Labels(Examples(students, t))
  {
    X, y := [], [];
    for s := 0 to |students|
      invariant X == FeatureRows(Examples(students[..s], t))
      invariant y == Labels(Examples(students[..s], t))
    {
      assert students[..s + 1][..s] == students[..s];
      RowsAppend(Examples(students[..s], t), RecordExamples(students[s], students[s].records, t));
      X, y := AddStudent(students[s], t, X, y);
    }
    assert students[..|students|] == students;
  }

  /** The model a registry slot holds after start-up: trained (alpha 0.01,
      2500 iterations) only when the training set has at least 2 rows. */
  function Pretrained(students: seq<Student>, t: Target, sqrt: real -> real): (m: Option<LinearModel>)
    ensures m.Some? <==> |Examples(students, t)| >= 2
    ensures m.Some? ==> m.value.WellFormed() && |m.value.mu| == 3
  {
    var es := Examples(students, t);
    ExamplesShape(students, t);
    FeatureRowsShape(es);
    if |es| >= 2 then TrainedModel(FeatureRows(es), Labels(es), 0.01, 2500, sqrt) else None
  }

  /** pretrain: fill each slot whose training set has at least 2 rows. */
  method Pretrain(students: seq<Student>, sqrt: real -> real)
    returns (finalModel: Option<LinearModel>, endsemModel: Option<LinearModel>)
    ensures finalModel == Pretrained(students, FinalCGPA, sqrt)
    ensures endsemModel == Pretrained(students, Endsem, sqrt)
  {
    finalModel, endsemModel := None, None;
    var X1, y1 := BuildTraining(students, FinalCGPA);
    ExamplesShape(students, FinalCGPA);
    FeatureRowsShape(Examples(students, FinalCGPA));
    if |X1| >= 2 {
      finalModel := TrainLinearModel(X1, y1, 0.01, 2500, sqrt);
    }
    var X2, y2 := BuildTraining(students, Endsem);
    ExamplesShape(students, Endsem);
    FeatureRowsShape(Examples(students, Endsem));
    if |X2| >= 2 {
      endsemModel := TrainLinearModel(X2, y2, 0.01, 2500, sqrt);
    }
  }
}
