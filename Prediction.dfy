/** saveStudentMarksAndPredict: upsert a semester's marks, then predict the
    end-semester mark, the final CGPA and the next-semester CGPA, writing the
    final CGPA into the record once, on the first call that sees the
    end-semester mark. */
module Prediction {
  import opened Wrappers
  import opened JsNumber
  import opened Store
  import opened Regression
  import opened Training

  /** A registry slot is usable when its model takes the three features. */
  predicate SlotReady(m: Option<LinearModel>)
  {
    m.Some? ==> m.value.WellFormed() && |m.value.mu| == 3
  }

  /** The two model slots, `model_finalCGPA` and `model_endsem`. */
  datatype Registry = Registry(finalCGPA: Option<LinearModel>, endsem: Option<LinearModel>)
  {
    predicate Ready()
    {
      SlotReady(finalCGPA) && SlotReady(endsem)
    }
  }

  /** The arguments of one call; absent marks are `null`. */
  datatype Request = Request(username: string, sem: int, mid1: Option<real>, mid2: Option<real>, endsem: Option<real>)

  datatype EngineError = StudentNotFound

  /** The object the call returns. */
  datatype Prediction = Prediction(
    student: string,
    sem: int,
    mid1: Option<real>,
    mid2: Option<real>,
    endsem: Option<real>,
    predictedEnd: Option<real>,
    predictedFinalCGPA: Option<real>,
    predictedNextSemCGPA: Option<real>)

  /** The heuristic final grade used without a model:
      `Math.min(10, Math.max(0, (mid1 + mid2 + end) / 100 * 10))`. */
  function FallbackCGPA(mid1: real, mid2: real, end: real): (g: real)
    ensures 0.0 <= g <= 10.0
    ensures 0.0 <= mid1 + mid2 + end <= 100.0 ==> g == (mid1 + mid2 + end) / 10.0
    ensures mid1 + mid2 + end < 0.0 ==> g == 0.0
    ensures mid1 + mid2 + end > 100.0 ==> g == 10.0
  {
    Clamp(0.0, 10.0, (mid1 + mid2 + end) / 100.0 * 10.0)
  }

  /** What the prediction step decides for the upserted record:
      the predicted end-semester mark, the (unrounded) final grade, and the
      grade to store into the record, if any. */
  datatype Verdict = Verdict(predictedEnd: Option<real>, finalCGPA: Option<real>, stored: Option<real>)

  function Decide(rec: Record, cumulativeGPA: Option<real>, reg: Registry): Verdict
    requires reg.Ready()
  {
    var x := [Or(rec.mid1, 0.0), Or(rec.mid2, 0.0), Or(cumulativeGPA, 0.0)];
    if rec.endsem.None? then
      var end := if reg.endsem.Some? then PredictLinear(reg.endsem, x).value else (x[0] + x[1]) * 2.0;
      var f := if reg.finalCGPA.Some? then PredictLinear(reg.finalCGPA, x).value else FallbackCGPA(x[0], x[1], end);
      Verdict(Some(end), Some(f), None)
    else if rec.cgpa.None? then
      var f := if reg.finalCGPA.Some? then PredictLinear(reg.finalCGPA, x).value
               else FallbackCGPA(x[0], x[1], Or(rec.endsem, 0.0));
      Verdict(None, Some(f), Some(Round2(f)))
    else
      Verdict(None, rec.cgpa, None)
  }

  /** A grade is stored exactly when the record has its end-semester mark and
      no grade yet, and what is stored is the final grade rounded to two decimals. */
  lemma DecideStoresOnce(rec: Record, cumulativeGPA: Option<real>, reg: Registry)
    requires reg.Ready()
    ensures var v := Decide(rec, cumulativeGPA, reg);
      && (v.stored.Some? <==> rec.endsem.Some? && rec.cgpa.None?)
      && v.finalCGPA.Some?
      && (v.stored.Some? ==> v.stored == Some(Round2(v.finalCGPA.value)))
      && (rec.endsem.Some? && rec.cgpa.Some? ==> v.finalCGPA == rec.cgpa)
  {
  }

  /** The next-semester blend `0.9 * f + 0.1 * (cumulativeGPA || f)`, rounded. */
  function NextSem(f: real, cumulativeGPA: Option<real>): real
  {
    Round2(0.9 * f + 0.1 * Or(cumulativeGPA, f))
  }

  function RoundOpt(o: Option<real>): Option<real>
  {
    if o.Some? then Some(Round2(o.value)) else None
  }

  /** The object returned for the upserted record `rec` of student `st`:
      its marks, the rounded predictions and the next-semester blend. */
  function Respond(st: Student, sem: int, rec: Record, predictedEnd: Option<real>, finalCGPA: Option<real>): Prediction
  {
    Prediction(st.username, sem, rec.mid1, rec.mid2, rec.endsem,
      RoundOpt(predictedEnd), RoundOpt(finalCGPA),
      if finalCGPA.Some? then Some(NextSem(finalCGPA.value, st.cumulativeGPA)) else None)
  }

  /** A call's effect: what it returns, the store afterwards, and one
      snapshot of the store per `DB.save`. */
  datatype Outcome = Outcome(result: Result<Prediction, EngineError>, students: seq<Student>, saves: seq<seq<Student>>)

  /** The whole call as a function of the store and the registry. */
  function Submit(students: seq<Student>, reg: Registry, req: Request): Outcome
    requires reg.Ready()
  {
    match FindStudent(students, req.username)
    case None => Outcome(Failure(StudentNotFound), students, [])
    case Some(i) =>
      var st := students[i];
      var recs := Upsert(st.records, req.sem, req.mid1, req.mid2, req.endsem);
      var k := UpsertIndex(st.records, req.sem);
      UpsertSpec(st.records, req.sem, req.mid1, req.mid2, req.endsem);
      var rec := recs[k];
      var upserted := students[i := st.(records := recs)];
      var v := Decide(rec, st.cumulativeGPA, reg);
      var after := if v.stored.Some? then students[i := st.(records := recs[k := rec.(cgpa := v.stored)])] else upserted;
      Outcome(Success(Respond(st, req.sem, rec, v.predictedEnd, v.finalCGPA)), after, if v.stored.Some? then [upserted, after] else [upserted])
  }

  /** The call on a known student, in terms of the upserted record and the verdict on it. */
  lemma SubmitFound(students: seq<Student>, reg: Registry, req: Request, i: nat, k: nat, v: Verdict)
    requires reg.Ready() && FindStudent(students, req.username) == Some(i)
    requires k == UpsertIndex(students[i].records, req.sem)
    requires var recs := Upsert(students[i].records, req.sem, req.mid1, req.mid2, req.endsem);
      k < |recs| && v == Decide(recs[k], students[i].cumulativeGPA, reg)
    ensures var st := students[i];
      var recs := Upsert(st.records, req.sem, req.mid1, req.mid2, req.endsem);
      var upserted := students[i := st.(records := recs)];
      var after := students[i := st.(records := recs[k := recs[k].(cgpa := v.stored)])];
      Submit(students, reg, req) == Outcome(Success(Respond(st, req.sem, recs[k], v.predictedEnd, v.finalCGPA)),
        if v.stored.Some? then after else upserted,
        if v.stored.Some? then [upserted, after] else [upserted])
  {
  }

  /** The engine's state: the store (`DBdata`), the two model slots filled
      once at start-up, and a log of what every `DB.save` persisted. */
  class Engine {
    var students: seq<Student>
    var faculty: seq<Faculty>
    var modelFinalCGPA: Option<LinearModel>
    var modelEndsem: Option<LinearModel>
    ghost var saved: seq<seq<Student>>

    ghost predicate Valid()
      reads this
    {
      Registry(modelFinalCGPA, modelEndsem).Ready()
    }

    /** Load the store and run pretrain. */
    constructor (students: seq<Student>, faculty: seq<Faculty>, sqrt: real -> real)
      ensures Valid()
      ensures this.students == students && this.faculty == faculty && saved == []
      ensures modelFinalCGPA == Pretrained(students, FinalCGPA, sqrt)
      ensures modelEndsem == Pretrained(students, Endsem, sqrt)
    {
      var f, e := Pretrain(students, sqrt);
      this.students := students;
      this.faculty := faculty;
      modelFinalCGPA := f;
      modelEndsem := e;
      saved := [];
    }

    /** The first half of saveStudentMarksAndPredict for the student at `i`:
        find the semester's record or push a blank one, overwrite the marks
        that were supplied, and save. */
    method UpsertMarks(i: nat, sem: int, mid1: Option<real>, mid2: Option<real>, endsemValue: Option<real>)
      returns (k: nat, rec: Record)
      requires i < |students|
      modifies this`students, this`saved
      ensures var recs := Upsert(old(students)[i].records, sem, mid1, mid2, endsemValue);
        && k == UpsertIndex(old(students)[i].records, sem) && k < |recs| && rec == recs[k]
        && students == old(students)[i := old(students)[i].(records := recs)]
        && saved == old(saved) + [students]
    {
      var student := students[i];
      var records := student.records;
      ghost var stored := records;
      UpsertSpec(records, sem, mid1, mid2, endsemValue);
      var found := FindRecord(records, sem);
      if found.None? {
        records := records + [Record(sem, None, None, None, None)];
        k := |records| - 1;
      } else {
        k := found.value;
      }
      rec := records[k];
      if mid1.Some? { rec := rec.(mid1 := mid1); }
      if mid2.Some? { rec := rec.(mid2 := mid2); }
      if endsemValue.Some? { rec := rec.(endsem := endsemValue); }
      records := records[k := rec];
      assert records == Upsert(stored, sem, mid1, mid2, endsemValue);
      students := students[i := student.(records := records)];
      saved := saved + [students];
    }

    /** `rec.cgpa = grade; DB.save(DBdata)` for record `k` of student `i`. */
    method StoreGrade(i: nat, k: nat, grade: real)
      requires i < |students| && k < |students[i].records|
      modifies this`students, this`saved
      ensures var recs := old(students)[i].records;
        students == old(students)[i := old(students)[i].(records := recs[k := recs[k].(cgpa := Some(grade))])]
      ensures saved == old(saved) + [students]
    {
      var student := students[i];
      var rec := student.records[k].(cgpa := Some(grade));
      students := students[i := student.(records := student.records[k := rec])];
      saved := saved + [students];
    }

    /** The prediction step of saveStudentMarksAndPredict for the upserted
        record: the end-semester mark when it is still missing, and the final
        grade from the model, the heuristic, or the record's stored grade. */
    method Forecast(rec: Record, cumulativeGPA: Option<real>)
      returns (predictedEnd: Option<real>, predictedFinalCGPA: Option<real>)
      requires Valid()
      ensures var v := Decide(rec, cumulativeGPA, Registry(modelFinalCGPA, modelEndsem));
        predictedEnd == v.predictedEnd && predictedFinalCGPA == v.finalCGPA
    {
      var prevGPA := Or(cumulativeGPA, 0.0);
      var x := [Or(rec.mid1, 0.0), Or(rec.mid2, 0.0), prevGPA];
      predictedEnd, predictedFinalCGPA := None, None;
      if rec.endsem.None? {
        if modelEndsem.Some? {
          predictedEnd := PredictLinear(modelEndsem, x);
        } else {
          predictedEnd := Some((Or(rec.mid1, 0.0) + Or(rec.mid2, 0.0)) * 2.0);
        }
        if modelFinalCGPA.Some? {
          predictedFinalCGPA := PredictLinear(modelFinalCGPA, x);
        } else {
          predictedFinalCGPA := Some(FallbackCGPA(Or(rec.mid1, 0.0), Or(rec.mid2, 0.0), predictedEnd.value));
        }
      } else if rec.cgpa.None? {
        if modelFinalCGPA.Some? {
          predictedFinalCGPA := PredictLinear(modelFinalCGPA, x);
        } else {
          predictedFinalCGPA := Some(FallbackCGPA(Or(rec.mid1, 0.0), Or(rec.mid2, 0.0), Or(rec.endsem, 0.0)));
        }
      } else {
        predictedFinalCGPA := rec.cgpa;
      }
    }

    /** The returned object: the record's marks, the predictions rounded with
        `toFixed(2)`, and the next-semester blend of the final grade. */
    method Report(student: Student, sem: int, rec: Record, predictedEnd: Option<real>, predictedFinalCGPA: Option<real>)
      returns (p: Prediction)
      ensures p == Respond(student, sem, rec, predictedEnd, predictedFinalCGPA)
    {
      var predictedNextSemCGPA: Option<real> := None;
      if predictedFinalCGPA.Some? {
        var f := predictedFinalCGPA.value;
        predictedNextSemCGPA := Some(Round2(0.9 * f + 0.1 * Or(student.cumulativeGPA, f)));
      }
      p := Prediction(student.username, sem, rec.mid1, rec.mid2, rec.endsem,
        if predictedEnd.Some? then Some(Round2(predictedEnd.value)) else None,
        if predictedFinalCGPA.Some? then Some(Round2(predictedFinalCGPA.value)) else None,
        predictedNextSemCGPA);
    }

    /** saveStudentMarksAndPredict, step by step on the store. */
    method SaveStudentMarksAndPredict(username: string, sem: int, mid1: Option<real>, mid2: Option<real>, endsemValue: Option<real>)
      returns (r: Result<Prediction, EngineError>)
      requires Valid()
      modifies this`students, this`saved
      ensures var o := Submit(old(students), Registry(modelFinalCGPA, modelEndsem), Request(username, sem, mid1, mid2, endsemValue));
        r == o.result && students == o.students && saved == old(saved) + o.saves
    {
      var si := FindStudent(students, username);
      if si.None? {
        return Failure(StudentNotFound);
      }
      var i := si.value;
      var student := students[i];
      var k, rec := UpsertMarks(i, sem, mid1, mid2, endsemValue);
      ghost var v := Decide(rec, student.cumulativeGPA, Registry(modelFinalCGPA, modelEndsem));
      SubmitFound(old(students), Registry(modelFinalCGPA, modelEndsem), Request(username, sem, mid1, mid2, endsemValue), i, k, v);
      var predictedEnd, predictedFinalCGPA := Forecast(rec, student.cumulativeGPA);
      DecideStoresOnce(rec, student.cumulativeGPA, Registry(modelFinalCGPA, modelEndsem));
      if rec.endsem.Some? && rec.cgpa.None? {
        // the end-semester mark is in and no grade is stored yet: store it
        StoreGrade(i, k, Round2(predictedFinalCGPA.value));
      }
      var p := Report(student, sem, rec, predictedEnd, predictedFinalCGPA);
      r := Success(p);
    }
  }

  // ------------------------------------------------------------ properties

  /** An unknown student fails and touches nothing; a known one always gets a
      final grade and a next-semester grade, an end-semester prediction
      exactly when the record still lacks its end-semester mark, and at least
      the save that follows the upsert. */
  lemma SubmitShape(students: seq<Student>, reg: Registry, req: Request)
    requires reg.Ready()
    ensures var o := Submit(students, reg, req);
      && (FindStudent(students, req.username).None? <==> o.result.Failure?)
      && (o.result.Failure? ==> o.students == students && o.saves == [])
      && (o.result.Success? ==>
            && o.result.value.predictedFinalCGPA.Some?
            && o.result.value.predictedNextSemCGPA.Some?
            && (o.result.value.predictedEnd.Some? <==> o.result.value.endsem.None?)
            && 1 <= |o.saves| <= 2
            && o.saves[|o.saves| - 1] == o.students)
  {
  }

  /** Without a final-grade model the predicted grade of a record still
      lacking its end-semester mark lies on the 0-10 scale. */
  lemma FallbackGradeOnScale(students: seq<Student>, reg: Registry, req: Request)
    requires reg.Ready() && reg.finalCGPA.None?
    requires Submit(students, reg, req).result.Success?
    requires Submit(students, reg, req).result.value.endsem.None?
    ensures var p := Submit(students, reg, req).result.value;
      0.0 <= p.predictedFinalCGPA.value <= 10.0
  {
    var i := FindStudent(students, req.username).value;
    var st := students[i];
    var recs := Upsert(st.records, req.sem, req.mid1, req.mid2, req.endsem);
    UpsertSpec(st.records, req.sem, req.mid1, req.mid2, req.endsem);
    var v := Decide(recs[UpsertIndex(st.records, req.sem)], st.cumulativeGPA, reg);
    Round2WithinScale(v.finalCGPA.value);
  }

  /** A stored final grade is never overwritten, no record or student goes
      away, and a grade is written only by a call whose record has its
      end-semester mark but no grade yet. */
  lemma SubmitWritesGradeOnce(students: seq<Student>, reg: Registry, req: Request)
    requires reg.Ready()
    ensures var o := Submit(students, reg, req);
      && |o.students| == |students|
      && (forall s :: 0 <= s < |students| ==>
            o.students[s].username == students[s].username
            && |students[s].records| <= |o.students[s].records|)
      && (forall s, r :: 0 <= s < |students| && 0 <= r < |students[s].records| && students[s].records[r].cgpa.Some? ==>
            r < |o.students[s].records| && o.students[s].records[r].cgpa == students[s].records[r].cgpa)
      && (|o.saves| == 2 ==>
            && o.result.Success? && o.result.value.endsem.Some?
            && var i := FindStudent(students, req.username).value;
               var k := UpsertIndex(students[i].records, req.sem);
               k == |students[i].records| || students[i].records[k].cgpa.None?)
  {
    var o := Submit(students, reg, req);
    if FindStudent(students, req.username).Some? {
      var i := FindStudent(students, req.username).value;
      var st := students[i];
      UpsertSpec(st.records, req.sem, req.mid1, req.mid2, req.endsem);
    }
  }

  /** Repeating a call changes nothing more: the store stays as the first call
      left it, only the save after the upsert happens, and the returned
      end-semester and final-grade predictions are the same. When the first
      call did not write a grade, the whole result is the same. */
  lemma SubmitIdempotent(students: seq<Student>, reg: Registry, req: Request)
    requires reg.Ready()
    ensures var o1 := Submit(students, reg, req);
      var o2 := Submit(o1.students, reg, req);
      && o2.students == o1.students
      && (o1.result.Failure? ==> o2 == o1)
      && (o1.result.Success? ==>
            && o2.saves == [o1.students]
            && o2.result.Success?
            && o2.result.value.predictedEnd == o1.result.value.predictedEnd
            && o2.result.value.predictedFinalCGPA == o1.result.value.predictedFinalCGPA)
      && (|o1.saves| <= 1 ==> o2.result == o1.result)
  {
    var o1 := Submit(students, reg, req);
    var u := req.username;
    FindFirstSameKeys(students, o1.students, StudentName, u);
    if FindStudent(students, u).Some? {
      var i := FindStudent(students, u).value;
      var st := students[i];
      var recs := Upsert(st.records, req.sem, req.mid1, req.mid2, req.endsem);
      var k := UpsertIndex(st.records, req.sem);
      UpsertSpec(st.records, req.sem, req.mid1, req.mid2, req.endsem);
      var rec := recs[k];
      var v := Decide(rec, st.cumulativeGPA, reg);
      var recs1 := if v.stored.Some? then recs[k := rec.(cgpa := v.stored)] else recs;
      assert o1.students[i] == st.(records := recs1);
      FindFirstSameKeys(recs, recs1, RecordSem, req.sem);
      UpsertFixed(recs1, req.sem, req.mid1, req.mid2, req.endsem, k);
      assert FindStudent(o1.students, u) == Some(i);
      var v2 := Decide(recs1[k], st.cumulativeGPA, reg);
      if v.stored.Some? {
        Round2Idempotent(v.finalCGPA.value);
        assert v2 == Verdict(None, v.stored, None);
      } else {
        assert recs1[k] == rec && v2 == v;
      }
    }
  }

  /** `cumulativeGPA || f`: a cumulative GPA of 0 counts as absent, so the
      next-semester blend is then just the rounded final grade. */
  lemma ZeroCumulativeGPAUsesGrade(f: real)
    ensures NextSem(f, Some(0.0)) == Round2(f)
    ensures NextSem(f, None) == Round2(f)
  {
  }

  /** With a final-grade model the stored grade ignores the end-semester mark. */
  lemma ModelGradeIgnoresEndsem(rec: Record, cumulativeGPA: Option<real>, reg: Registry, a: real, b: real)
    requires reg.Ready() && reg.finalCGPA.Some?
    ensures Decide(rec.(endsem := Some(a)), cumulativeGPA, reg).finalCGPA
         == Decide(rec.(endsem := Some(b)), cumulativeGPA, reg).finalCGPA
  {
  }

  // --------------------------------------------------- worked scenarios

  /** Cold start, end-semester mark missing: 76 predicted, grade clamped to 10,
      next semester 9.74. Nothing is stored. */
  lemma ScenarioColdStart()
    ensures var db := [Student("s", "S", Some(7.4), [])];
      var o := Submit(db, Registry(None, None), Request("s", 1, Some(18.0), Some(20.0), None));
      && o.result == Success(Prediction("s", 1, Some(18.0), Some(20.0), None, Some(76.0), Some(10.0), Some(9.74)))
      && o.students == [Student("s", "S", Some(7.4), [Record(1, Some(18.0), Some(20.0), None, None)])]
      && |o.saves| == 1
  {
    var db := [Student("s", "S", Some(7.4), [])];
    assert FindStudent(db, "s") == Some(0);
    assert Upsert([], 1, Some(18.0), Some(20.0), None) == [Record(1, Some(18.0), Some(20.0), None, None)];
    assert Round2(76.0) == 76.0 by {
      assert (76.0 * 100.0 + 0.5).Floor == 7600;
    }
    assert Round2(10.0) == 10.0 by {
      assert (10.0 * 100.0 + 0.5).Floor == 1000;
    }
    assert Round2(9.74) == 9.74 by {
      assert (9.74 * 100.0 + 0.5).Floor == 974;
    }
  }

  /** End-semester mark present, no grade yet, no model: 7.6 is stored once;
      calling again returns 7.6 and stores nothing. */
  lemma ScenarioFinalise()
    ensures var db := [Student("s", "S", Some(0.0), [Record(1, Some(12.0), Some(14.0), None, None)])];
      var req := Request("s", 1, Some(12.0), Some(14.0), Some(50.0));
      var o1 := Submit(db, Registry(None, None), req);
      var o2 := Submit(o1.students, Registry(None, None), req);
      && o1.result.Success? && o1.result.value.predictedFinalCGPA == Some(7.6)
      && o1.students[0].records[0].cgpa == Some(7.6)
      && |o1.saves| == 2
      && o2.result.Success? && o2.result.value.predictedFinalCGPA == Some(7.6)
      && o2.students == o1.students && |o2.saves| == 1
  {
    var db := [Student("s", "S", Some(0.0), [Record(1, Some(12.0), Some(14.0), None, None)])];
    var req := Request("s", 1, Some(12.0), Some(14.0), Some(50.0));
    assert FindStudent(db, "s") == Some(0);
    assert FindRecord(db[0].records, 1) == Some(0);
    assert Round2(7.6) == 7.6 by {
      assert (7.6 * 100.0 + 0.5).Floor == 760;
    }
    SubmitIdempotent(db, Registry(None, None), req);
  }

  /** The next-semester blend is not idempotent across the finalising call:
      that call blends the unrounded grade 7.6053, later calls the stored 7.61. */
  lemma NextSemShiftsAfterFinalising()
    ensures var db := [Student("s", "S", Some(7.0), [])];
      var req := Request("s", 1, Some(10.0), Some(10.0), Some(56.053));
      var o1 := Submit(db, Registry(None, None), req);
      var o2 := Submit(o1.students, Registry(None, None), req);
      && o1.result.Success? && o2.result.Success?
      && o1.result.value.predictedFinalCGPA == o2.result.value.predictedFinalCGPA == Some(7.61)
      && o1.result.value.predictedNextSemCGPA == Some(7.54)
      && o2.result.value.predictedNextSemCGPA == Some(7.55)
  {
    var db := [Student("s", "S", Some(7.0), [])];
    var req := Request("s", 1, Some(10.0), Some(10.0), Some(56.053));
    assert FindStudent(db, "s") == Some(0);
    assert Round2(7.6053) == 7.61 by {
      assert (7.6053 * 100.0 + 0.5).Floor == 761;
    }
    assert Round2(7.61) == 7.61 by {
      assert (7.61 * 100.0 + 0.5).Floor == 761;
    }
    assert Round2(0.9 * 7.6053 + 0.1 * 7.0) == 7.54 by {
      assert ((0.9 * 7.6053 + 0.1 * 7.0) * 100.0 + 0.5).Floor == 754;
    }
    assert Round2(0.9 * 7.61 + 0.1 * 7.0) == 7.55 by {
      assert ((0.9 * 7.61 + 0.1 * 7.0) * 100.0 + 0.5).Floor == 755;
    }
    SubmitIdempotent(db, Registry(None, None), req);
  }
}
