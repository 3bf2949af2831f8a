/** The read-only views: one student's performance history, sorted by
    semester, and the average latest grade of a faculty member's students. */
module Queries {
  import opened Wrappers
  import opened JsNumber
  import opened Store

  // ------------------------------------------------------------ sorting by semester

  predicate SortedBySem(recs: seq<Record>)
  {
    forall i, j :: 0 <= i < j < |recs| ==> recs[i].sem <= recs[j].sem
  }

  /** The records of one semester, in their order. */
  function OfSem(recs: seq<Record>, s: int): (r: seq<Record>)
    ensures |r| <= |recs|
  {
    if recs == [] then []
    else (if recs[0].sem == s then [recs[0]] else []) + OfSem(recs[1..], s)
  }

  /** Put `r` before the first record whose semester is not smaller. */
  function Insert(r: Record, recs: seq<Record>): seq<Record>
  {
    if recs == [] || r.sem <= recs[0].sem then [r] + recs
    else [recs[0]] + Insert(r, recs[1..])
  }

  /** `records.slice().sort((a, b) => a.sem - b.sem)`: a stable sort by semester. */
  function SortBySem(recs: seq<Record>): seq<Record>
  {
    if recs == [] then [] else Insert(recs[0], SortBySem(recs[1..]))
  }

  lemma {:induction false} InsertElements(r: Record, recs: seq<Record>)
    ensures multiset(Insert(r, recs)) == multiset(recs) + multiset{r}
  {
    if recs != [] && r.sem > recs[0].sem {
      InsertElements(r, recs[1..]);
      assert recs == [recs[0]] + recs[1..];
    }
  }

  lemma {:induction false} InsertMembers(r: Record, recs: seq<Record>, x: Record)
    ensures x in Insert(r, recs) <==> x == r || x in recs
  {
    if recs != [] && r.sem > recs[0].sem {
      InsertMembers(r, recs[1..], x);
      assert recs == [recs[0]] + recs[1..];
    }
  }

  lemma {:induction false} InsertSorted(r: Record, recs: seq<Record>)
    requires SortedBySem(recs)
    ensures SortedBySem(Insert(r, recs))
  {
    if recs != [] && r.sem > recs[0].sem {
      var tail := recs[1..];
      InsertSorted(r, tail);
      var ins := Insert(r, tail);
      forall j | 0 <= j < |ins|
        ensures recs[0].sem <= ins[j].sem
      {
        InsertMembers(r, tail, ins[j]);
        if ins[j] != r {
          var k :| 0 <= k < |tail| && tail[k] == ins[j];
          assert tail[k] == recs[k + 1];
        }
      }
      var out := [recs[0]] + ins;
      assert out == Insert(r, recs);
      forall a, b | 0 <= a < b < |out|
        ensures out[a].sem <= out[b].sem
      {
        if a > 0 {
          assert out[a] == ins[a - 1] && out[b] == ins[b - 1];
        }
      }
    }
  }

  /** Inserting keeps the records of every semester in order, with `r` first among its own. */
  lemma {:induction false} InsertStable(r: Record, recs: seq<Record>, s: int)
    ensures OfSem(Insert(r, recs), s) == (if r.sem == s then [r] else []) + OfSem(recs, s)
  {
    if recs == [] || r.sem <= recs[0].sem {
      assert ([r] + recs)[1..] == recs;
    } else {
      InsertStable(r, recs[1..], s);
      assert ([recs[0]] + Insert(r, recs[1..]))[1..] == Insert(r, recs[1..]);
    }
  }

  /** The sort orders by semester and keeps, for every semester, exactly its
      records in their original order (stability; with it, a permutation). */
  lemma {:induction false} SortBySemSpec(recs: seq<Record>)
    ensures SortedBySem(SortBySem(recs))
    ensures multiset(SortBySem(recs)) == multiset(recs)
    ensures forall s :: OfSem(SortBySem(recs), s) == OfSem(recs, s)
  {
    if recs != [] {
      SortBySemSpec(recs[1..]);
      InsertSorted(recs[0], SortBySem(recs[1..]));
      InsertElements(recs[0], SortBySem(recs[1..]));
      assert recs == [recs[0]] + recs[1..];
      forall s ensures OfSem(SortBySem(recs), s) == OfSem(recs, s) {
        InsertStable(recs[0], SortBySem(recs[1..]), s);
      }
    }
  }

  // ------------------------------------------------------------ getStudentPerformance

  datatype TrendPoint = TrendPoint(sem: int, cgpa: Option<real>)

  datatype Performance = Performance(
    username: string,
    name: string,
    cumulativeGPA: Option<real>,
    records: seq<Record>,
    trend: seq<TrendPoint>)

  /** One `{ sem, cgpa }` point per record, in the same order. */
  function Trend(recs: seq<Record>): (t: seq<TrendPoint>)
    ensures |t| == |recs|
    ensures forall j :: 0 <= j < |t| ==> t[j] == TrendPoint(recs[j].sem, recs[j].cgpa)
  {
    seq(|recs|, j requires 0 <= j < |recs| => TrendPoint(recs[j].sem, recs[j].cgpa))
  }

  /** getStudentPerformance: null for an unknown student, otherwise the
      student's identity, their records sorted by semester and the trend. */
  function GetStudentPerformance(students: seq<Student>, username: string): (r: Option<Performance>)
    ensures r.Some? <==> FindStudent(students, username).Some?
    ensures r.Some? ==> var st := students[FindStudent(students, username).value];
      && r.value.username == st.username == username
      && r.value.name == st.name
      && r.value.cumulativeGPA == st.cumulativeGPA
      && SortedBySem(r.value.records)
      && multiset(r.value.records) == multiset(st.records)
      && (forall s :: OfSem(r.value.records, s) == OfSem(st.records, s))
      && |r.value.trend| == |r.value.records|
      && (forall j :: 0 <= j < |r.value.trend| ==>
            r.value.trend[j].sem == r.value.records[j].sem && r.value.trend[j].cgpa == r.value.records[j].cgpa)
  {
    match FindStudent(students, username)
    case None => None
    case Some(i) =>
      var st := students[i];
      SortBySemSpec(st.records);
      var recs := SortBySem(st.records);
      Some(Performance(st.username, st.name, st.cumulativeGPA, recs, Trend(recs)))
  }

  // ------------------------------------------------------------ computeFacultyAverages

  /** `f.students.map(findStudent).filter(Boolean)`: the assigned usernames
      that name a student, resolved in order; unknown ones are dropped. */
  function Resolve(students: seq<Student>, usernames: seq<string>): seq<Student>
  {
    if usernames == [] then []
    else
      var u := usernames[|usernames| - 1];
      Resolve(students, usernames[..|usernames| - 1])
        + (match FindStudent(students, u) case Some(i) => [students[i]] case None => [])
  }

  /** `records.filter(r => r.cgpa != null)` */
  function Graded(recs: seq<Record>): (g: seq<Record>)
    ensures forall j :: 0 <= j < |g| ==> g[j].cgpa.Some?
  {
    if recs == [] then []
    else Graded(recs[..|recs| - 1]) + (if recs[|recs| - 1].cgpa.Some? then [recs[|recs| - 1]] else [])
  }

  /** The grade of the student's last graded record, in stored order. */
  function LatestGrade(st: Student): Option<real>
  {
    var g := Graded(st.records);
    if |g| > 0 then g[|g| - 1].cgpa else None
  }

  /** The sum and the number of the latest grades of the students that have one. */
  function GradeSum(studs: seq<Student>): real
  {
    if studs == [] then 0.0
    else
      var st := studs[|studs| - 1];
      GradeSum(studs[..|studs| - 1]) + (if LatestGrade(st).Some? then LatestGrade(st).value else 0.0)
  }

  function GradedCount(studs: seq<Student>): (n: nat)
    ensures n <= |studs|
  {
    if studs == [] then 0
    else
      var st := studs[|studs| - 1];
      GradedCount(studs[..|studs| - 1]) + (if LatestGrade(st).Some? then 1 else 0)
  }

  datatype Averages = Averages(avgCGPA: Option<real>, studentCount: nat)

  /** What computeFacultyAverages returns, as a function of the store. */
  function FacultyAverages(students: seq<Student>, faculty: seq<Faculty>, username: string): Option<Averages>
  {
    match FindFaculty(faculty, username)
    case None => None
    case Some(fi) =>
      var studs := Resolve(students, faculty[fi].students);
      var n := GradedCount(studs);
      Some(Averages(if n > 0 then Some(Round2(GradeSum(studs) / n as real)) else None, |studs|))
  }

  /** `f.students.map(u => findStudent(u)).filter(Boolean)` */
  method ResolveAll(students: seq<Student>, usernames: seq<string>) returns (studObjs: seq<Student>)
    ensures studObjs == Resolve(students, usernames)
  {
    studObjs := [];
    for j := 0 to |usernames|
      invariant studObjs == Resolve(students, usernames[..j])
    {
      assert usernames[..j + 1][..j] == usernames[..j];
      var si := FindStudent(students, usernames[j]);
      if si.Some? {
        studObjs := studObjs + [students[si.value]];
      }
    }
    assert usernames[..|usernames|] == usernames;
  }

  /** The `studObjs.forEach` accumulating `cgpaSum` and `count`. */
  method SumLatest(studObjs: seq<Student>) returns (cgpaSum: real, count: nat)
    ensures cgpaSum == GradeSum(studObjs) && count == GradedCount(studObjs)
  {
    cgpaSum, count := 0.0, 0;
    for j := 0 to |studObjs|
      invariant cgpaSum == GradeSum(studObjs[..j]) && count == GradedCount(studObjs[..j])
    {
      assert studObjs[..j + 1][..j] == studObjs[..j];
      var recs := Graded(studObjs[j].records);
      if |recs| > 0 {
        var latest := recs[|recs| - 1];
        cgpaSum := cgpaSum + latest.cgpa.value;
        count := count + 1;
      }
    }
    assert studObjs[..|studObjs|] == studObjs;
  }

  /** computeFacultyAverages: resolve the assigned students, then add up the
      latest grade of each one that has a graded record. */
  method ComputeFacultyAverages(students: seq<Student>, faculty: seq<Faculty>, username: string)
    returns (r: Option<Averages>)
    ensures r == FacultyAverages(students, faculty, username)
  {
    var fi := FindFaculty(faculty, username);
    if fi.None? {
      return None;
    }
    var members := faculty[fi.value].students;
    var studObjs := ResolveAll(students, members);
    var cgpaSum, count := SumLatest(studObjs);
    var avg: Option<real> := None;
    if count > 0 {
      avg := Some(Round2(cgpaSum / count as real));
    }
    r := Some(Averages(avg, |studObjs|));
  }

  // ------------------------------------------------------------ properties

  /** The latest grade is the grade of the last record that has one, and it
      is missing exactly when no record has a grade. */
  lemma {:induction false} LatestGradeIsLastGraded(recs: seq<Record>)
    ensures var g := Graded(recs);
      (|g| == 0 <==> forall j :: 0 <= j < |recs| ==> recs[j].cgpa.None?)
      && (|g| > 0 ==>
            exists j :: 0 <= j < |recs| && recs[j] == g[|g| - 1] && forall l :: j < l < |recs| ==> recs[l].cgpa.None?)
  {
    if recs != [] {
      var init := recs[..|recs| - 1];
      LatestGradeIsLastGraded(init);
      var g := Graded(recs);
      if recs[|recs| - 1].cgpa.None? {
        assert g == Graded(init);
        if |g| > 0 {
          var j :| 0 <= j < |init| && init[j] == g[|g| - 1]
            && forall l :: j < l < |init| ==> init[l].cgpa.None?;
          assert recs[j] == g[|g| - 1];
          assert forall l :: j < l < |recs| ==> recs[l].cgpa.None?;
        } else {
          assert forall j :: 0 <= j < |recs| ==> recs[j].cgpa.None? by {
            forall j | 0 <= j < |recs| ensures recs[j].cgpa.None? {
              if j < |init| { assert recs[j] == init[j]; }
            }
          }
        }
      } else {
        assert g[|g| - 1] == recs[|recs| - 1];
      }
    }
  }

  /** Every resolved student is the first student of one of the assigned
      usernames, and every assigned username that names a student is resolved. */
  lemma {:induction false} ResolveMembership(students: seq<Student>, usernames: seq<string>, st: Student)
    ensures st in Resolve(students, usernames) <==>
      exists j :: 0 <= j < |usernames| && FindStudent(students, usernames[j]).Some?
        && students[FindStudent(students, usernames[j]).value] == st
  {
    if usernames != [] {
      var init := usernames[..|usernames| - 1];
      var u := usernames[|usernames| - 1];
      assert Resolve(students, usernames) == Resolve(students, init)
        + (match FindStudent(students, u) case Some(i) => [students[i]] case None => []);
      ResolveMembership(students, init, st);
      if exists j :: 0 <= j < |usernames| && FindStudent(students, usernames[j]).Some?
          && students[FindStudent(students, usernames[j]).value] == st {
        var j :| 0 <= j < |usernames| && FindStudent(students, usernames[j]).Some?
          && students[FindStudent(students, usernames[j]).value] == st;
        if j < |init| {
          assert init[j] == usernames[j];
        }
      }
    }
  }

  /** Every grade the student has stored is on the 0–10 scale. */
  predicate GradesOnScale(st: Student)
  {
    forall j :: 0 <= j < |st.records| && st.records[j].cgpa.Some? ==> 0.0 <= st.records[j].cgpa.value <= 10.0
  }

  /** With every stored grade on the 0–10 scale, the sum of the latest
      grades lies between 0 and 10 per graded student. */
  lemma {:induction false} GradeSumBounds(studs: seq<Student>)
    requires forall st :: st in studs ==> GradesOnScale(st)
    ensures 0.0 <= GradeSum(studs) <= 10.0 * GradedCount(studs) as real
  {
    if studs != [] {
      var n := |studs| - 1;
      var init, st := studs[..n], studs[n];
      GradeSumBounds(init);
      if LatestGrade(st).Some? {
        LatestGradeIsLastGraded(st.records);
        var g := Graded(st.records);
        var j :| 0 <= j < |st.records| && st.records[j] == g[|g| - 1]
          && forall l :: j < l < |st.records| ==> st.records[l].cgpa.None?;
        assert st in studs;
      }
    }
  }

  /** With every stored grade on the 0–10 scale, so is the faculty average. */
  lemma AverageOnScale(students: seq<Student>, faculty: seq<Faculty>, username: string)
    requires forall st :: st in students ==> GradesOnScale(st)
    ensures var r := FacultyAverages(students, faculty, username);
      r.Some? && r.value.avgCGPA.Some? ==> 0.0 <= r.value.avgCGPA.value <= 10.0
  {
    var fi := FindFaculty(faculty, username);
    if fi.Some? {
      var studs := Resolve(students, faculty[fi.value].students);
      forall st | st in studs
        ensures GradesOnScale(st)
      {
        ResolveMembership(students, faculty[fi.value].students, st);
      }
      GradeSumBounds(studs);
      var n := GradedCount(studs);
      if n > 0 {
        var avg := GradeSum(studs) / n as real;
        assert 0.0 <= avg <= 10.0;
        Round2WithinScale(avg);
      }
    }
  }

  /** The average is null exactly when no resolved student has a graded record. */
  lemma {:induction false} NoAverageWithoutGrades(studs: seq<Student>)
    ensures GradedCount(studs) == 0 <==> forall s :: 0 <= s < |studs| ==> LatestGrade(studs[s]).None?
  {
    if studs != [] {
      var n := |studs| - 1;
      NoAverageWithoutGrades(studs[..n]);
      assert forall s :: 0 <= s < n ==> studs[..n][s] == studs[s];
    }
  }
}
