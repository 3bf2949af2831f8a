/** The in-memory record store: students with their per-semester records,
    faculty with their assigned students, lookup by key, and the upsert of a
    semester's marks. */
module Store {
  import opened Wrappers

  /** One semester of one student; every mark may still be missing. */
  datatype Record = Record(
    sem: int,
    mid1: Option<real>,
    mid2: Option<real>,
    endsem: Option<real>,
    cgpa: Option<real>)

  /** A student; `cumulativeGPA` is absent when it is not a number. */
  datatype Student = Student(
    username: string,
    name: string,
    cumulativeGPA: Option<real>,
    records: seq<Record>)

  /** A faculty member and the usernames of the students assigned to them. */
  datatype Faculty = Faculty(
    username: string,
    name: string,
    students: seq<string>)

  /** `Array.prototype.find` by key: the index of the first element whose key is `k`. */
  function FindFirst<T, K(==)>(xs: seq<T>, key: T -> K, k: K): (r: Option<nat>)
    ensures r.Some? ==> r.value < |xs| && key(xs[r.value]) == k
    ensures r.Some? ==> forall j :: 0 <= j < r.value ==> key(xs[j]) != k
    ensures r.None? ==> forall j :: 0 <= j < |xs| ==> key(xs[j]) != k
  {
    if xs == [] then None
    else if key(xs[0]) == k then Some(0)
    else match FindFirst(xs[1..], key, k)
      case None => None
      case Some(i) => Some(i + 1)
  }

  /** Two sequences with the same keys in the same order are searched alike. */
  lemma FindFirstSameKeys<T, K>(xs: seq<T>, ys: seq<T>, key: T -> K, k: K)
    requires |xs| == |ys|
    requires forall j :: 0 <= j < |xs| ==> key(xs[j]) == key(ys[j])
    ensures FindFirst(xs, key, k) == FindFirst(ys, key, k)
  {
  }

  function StudentName(s: Student): string { s.username }
  function FacultyName(f: Faculty): string { f.username }
  function RecordSem(r: Record): int { r.sem }

  /** findStudent */
  function FindStudent(students: seq<Student>, username: string): Option<nat>
  {
    FindFirst(students, StudentName, username)
  }

  /** findFaculty */
  function FindFaculty(faculty: seq<Faculty>, username: string): Option<nat>
  {
    FindFirst(faculty, FacultyName, username)
  }

  /** `records.find(r => r.sem === sem)` */
  function FindRecord(records: seq<Record>, sem: int): Option<nat>
  {
    FindFirst(records, RecordSem, sem)
  }

  /** A fresh record for a semester: every mark null. */
  function Blank(sem: int): Record
  {
    Record(sem, None, None, None, None)
  }

  /** Overwrite a record's marks with the ones that were supplied (non-null). */
  function Merge(rec: Record, mid1: Option<real>, mid2: Option<real>, endsem: Option<real>): Record
  {
    rec.(mid1 := if mid1.Some? then mid1 else rec.mid1,
         mid2 := if mid2.Some? then mid2 else rec.mid2,
         endsem := if endsem.Some? then endsem else rec.endsem)
  }

  /** Where the semester's record sits after the upsert: the first record of
      that semester, or a new last one. */
  function UpsertIndex(records: seq<Record>, sem: int): nat
  {
    match FindRecord(records, sem)
    case Some(k) => k
    case None => |records|
  }

  /** Find or append the semester's record, then merge the supplied marks into it. */
  function Upsert(records: seq<Record>, sem: int, mid1: Option<real>, mid2: Option<real>, endsem: Option<real>): seq<Record>
  {
    match FindRecord(records, sem)
    case Some(k) => records[k := Merge(records[k], mid1, mid2, endsem)]
    case None => records + [Merge(Blank(sem), mid1, mid2, endsem)]
  }

  /** What the upsert promises: afterwards the semester has a record, found
      at UpsertIndex; a missing one is appended at the end; only the supplied
      marks change it, and no other record changes. */
  lemma UpsertSpec(records: seq<Record>, sem: int, mid1: Option<real>, mid2: Option<real>, endsem: Option<real>)
    ensures var r, k := Upsert(records, sem, mid1, mid2, endsem), UpsertIndex(records, sem);
      && FindRecord(r, sem) == Some(k)
      && (FindRecord(records, sem).None? <==> |r| == |records| + 1)
      && (FindRecord(records, sem).None? ==> r == records + [Merge(Blank(sem), mid1, mid2, endsem)])
      && (FindRecord(records, sem).Some? ==> |r| == |records|)
      && (forall j :: 0 <= j < |records| && j != k ==> r[j] == records[j])
      && r[k].sem == sem
      && r[k].mid1 == (if mid1.Some? then mid1 else if k < |records| then records[k].mid1 else None)
      && r[k].mid2 == (if mid2.Some? then mid2 else if k < |records| then records[k].mid2 else None)
      && r[k].endsem == (if endsem.Some? then endsem else if k < |records| then records[k].endsem else None)
      && r[k].cgpa == (if k < |records| then records[k].cgpa else None)
  {
    var r, k := Upsert(records, sem, mid1, mid2, endsem), UpsertIndex(records, sem);
    assert RecordSem(r[k]) == sem;
  }

  /** Upserting the same marks again changes nothing. */
  lemma UpsertIdempotent(records: seq<Record>, sem: int, mid1: Option<real>, mid2: Option<real>, endsem: Option<real>)
    ensures var r := Upsert(records, sem, mid1, mid2, endsem);
      Upsert(r, sem, mid1, mid2, endsem) == r
  {
    UpsertSpec(records, sem, mid1, mid2, endsem);
  }

  /** Upserting marks a record already holds changes nothing and finds the same record. */
  lemma UpsertFixed(records: seq<Record>, sem: int, mid1: Option<real>, mid2: Option<real>, endsem: Option<real>, k: nat)
    requires FindRecord(records, sem) == Some(k)
    requires mid1.Some? ==> records[k].mid1 == mid1
    requires mid2.Some? ==> records[k].mid2 == mid2
    requires endsem.Some? ==> records[k].endsem == endsem
    ensures Upsert(records, sem, mid1, mid2, endsem) == records
    ensures UpsertIndex(records, sem) == k
  {
    assert Merge(records[k], mid1, mid2, endsem) == records[k];
  }
}
