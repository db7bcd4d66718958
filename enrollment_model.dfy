/** The enrollment collection (backend/models/Enrollment.js): status enum, default status,
    required references, and the unique (student, course) index. */
module EnrollmentModel {
  import opened Wrappers
  import opened Db

  datatype Status = Enrolled | Completed | Dropped

  /** The enum's strings. */
  function StatusName(s: Status): string {
    match s
    case Enrolled => "enrolled"
    case Completed => "completed"
    case Dropped => "dropped"
  }

  /** The enum validator: a string is a status exactly when it is one of the three names. */
  function ParseStatus(name: string): (r: Option<Status>)
    ensures forall s :: r == Some(s) <==> StatusName(s) == name
    ensures r.None? <==> name !in ["enrolled", "completed", "dropped"]
  {
    if name == "enrolled" then Some(Enrolled)
    else if name == "completed" then Some(Completed)
    else if name == "dropped" then Some(Dropped)
    else None
  }

  datatype Enrollment = Enrollment(id: Id, student: Id, course: Id, status: Status)

  datatype SchemaError = StudentRequired | CourseRequired | StatusNotInEnum(value: string)

  /** `new Enrollment(fields)` as validated by `save`: references are required, the status
      defaults to "enrolled" and must otherwise be in the enum. */
  function Build(id: Id, student: Option<Id>, course: Option<Id>, status: Option<string>): (r: Result<Enrollment, set<SchemaError>>)
    ensures r.Ok? <==> student.Some? && course.Some? && (status.None? || ParseStatus(status.value).Some?)
    ensures r.Ok? ==> r.value.id == id && r.value.student == student.value && r.value.course == course.value
    ensures r.Ok? ==> r.value.status == if status.None? then Enrolled else ParseStatus(status.value).value
    ensures r.Err? ==> && (StudentRequired in r.error <==> student.None?)
                       && (CourseRequired in r.error <==> course.None?)
                       && (forall v :: StatusNotInEnum(v) in r.error <==> status == Some(v) && ParseStatus(v).None?)
  {
    var parsed := if status.None? then Some(Enrolled) else ParseStatus(status.value);
    if student.Some? && course.Some? && parsed.Some? then
      Ok(Enrollment(id, student.value, course.value, parsed.value))
    else
      Err((if student.None? then {StudentRequired} else {})
          + (if course.None? then {CourseRequired} else {})
          + (if parsed.None? then {StatusNotInEnum(status.value)} else {}))
  }

  /** A record with no status given is "enrolled". */
  lemma DefaultStatus(id: Id, student: Id, course: Id)
    ensures Build(id, Some(student), Some(course), None) == Ok(Enrollment(id, student, course, Enrolled))
  {
  }

  /** Whether a record belongs to the pair. */
  predicate OfPair(e: Enrollment, student: Id, course: Id) {
    e.student == student && e.course == course
  }

  /** The unique index on (student, course): no two records share a pair. */
  predicate PairsUnique(records: map<Id, Enrollment>) {
    forall i, j :: i in records && j in records && OfPair(records[i], records[j].student, records[j].course) ==> i == j
  }

  /** Records are stored under their own ids, all drawn below `n`, and pairs are unique. */
  predicate Consistent(records: map<Id, Enrollment>, n: nat) {
    (forall i :: i in records ==> records[i].id == i && i < n) && PairsUnique(records)
  }

  /** The filter `{ student, course, status }`. */
  function Filter(student: Id, course: Id, status: Status): Enrollment -> bool {
    e => OfPair(e, student, course) && e.status == status
  }

  /** The record of a pair, if any. */
  function RecordOf(records: map<Id, Enrollment>, n: nat, student: Id, course: Id): Option<Id> {
    FindOne(records, e => OfPair(e, student, course), n)
  }

  /** `findOne({ student, course, status })` finds the pair's one record when it has that
      status, and nothing otherwise. */
  lemma {:induction false} FindOneOfPair(records: map<Id, Enrollment>, n: nat, student: Id, course: Id, status: Status)
    requires Consistent(records, n)
    ensures var r := RecordOf(records, n, student, course);
            FindOne(records, Filter(student, course, status), n)
            == if r.Some? && records[r.value].status == status then r else None
  {
    var r := RecordOf(records, n, student, course);
    var f := FindOne(records, Filter(student, course, status), n);
    if f.Some? {
      assert OfPair(records[f.value], student, course);
      assert r.Some?;
      assert OfPair(records[r.value], records[f.value].student, records[f.value].course);
    } else if r.Some? {
      assert !Filter(student, course, status)(records[r.value]);
    }
  }

  /** A pair without a record matches no stored record. */
  lemma {:induction false} NoRecordOfPair(records: map<Id, Enrollment>, n: nat, student: Id, course: Id)
    requires Consistent(records, n) && RecordOf(records, n, student, course).None?
    ensures forall j :: j in records ==> !OfPair(records[j], student, course)
  {
    forall j | j in records
      ensures !OfPair(records[j], student, course)
    {
      assert j < n;
    }
  }

  /** A record for a pair that has none, stored under the next id, keeps the collection
      consistent. */
  lemma {:induction false} AddFreshPair(records: map<Id, Enrollment>, n: nat, student: Id, course: Id, status: Status)
    requires Consistent(records, n) && RecordOf(records, n, student, course).None?
    ensures Consistent(records[n := Enrollment(n, student, course, status)], n + 1)
  {
    NoRecordOfPair(records, n, student, course);
  }

  /** Changing the status of a stored record keeps the collection consistent. */
  lemma {:induction false} ChangeStatus(records: map<Id, Enrollment>, n: nat, id: Id, s: Status)
    requires Consistent(records, n) && id in records
    ensures Consistent(records[id := records[id].(status := s)], n)
  {
    var after := records[id := records[id].(status := s)];
    forall i, j | i in after && j in after && OfPair(after[i], after[j].student, after[j].course)
      ensures i == j
    {
      assert OfPair(records[i], records[j].student, records[j].course);
    }
  }

  /** The enrollment collection. */
  class EnrollmentStore {
    var records: map<Id, Enrollment>
    var nextId: Id

    ghost predicate Valid()
      reads this
    {
      Consistent(records, nextId)
    }

    constructor ()
      ensures Valid() && records == map[]
    {
      records := map[];
      nextId := 0;
    }

    /** `findOne(filter)` on this collection. */
    method FindFirst(filter: Enrollment -> bool) returns (r: Option<Enrollment>)
      ensures var i := FindOne(records, filter, nextId);
              r == if i.Some? then Some(records[i.value]) else None
    {
      var i := FindOne(records, filter, nextId);
      r := if i.Some? then Some(records[i.value]) else None;
    }

    /** `new Enrollment({ student, course }).save()`: the unique index rejects a second
        record for a pair (an E11000 error, None here); otherwise a record with the default
        status is added under a fresh id. */
    method Insert(student: Id, course: Id) returns (r: Option<Enrollment>)
      requires Valid()
      modifies this
      ensures Valid()
      ensures r.None? <==> RecordOf(old(records), old(nextId), student, course).Some?
      ensures r.None? ==> records == old(records) && nextId == old(nextId)
      ensures r.Some? ==> && r.value == Enrollment(old(nextId), student, course, Enrolled)
                          && records == old(records)[r.value.id := r.value] && nextId == old(nextId) + 1
    {
      var taken := RecordOf(records, nextId, student, course);
      if taken.Some? {
        return None;
      }
      var built := Build(nextId, Some(student), Some(course), None);
      var e := built.value;
      records := records[nextId := e];
      nextId := nextId + 1;
      r := Some(e);
    }

    /** `record.status = s; record.save()` on a stored record. */
    method SetStatus(id: Id, s: Status) returns (e: Enrollment)
      requires Valid() && id in records
      modifies this
      ensures Valid() && nextId == old(nextId)
      ensures e == old(records)[id].(status := s) && records == old(records)[id := e]
    {
      e := records[id].(status := s);
      records := records[id := e];
    }
  }
}
