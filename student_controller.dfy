/** The student handlers (backend/controllers/studentController.js): enrolling, dropping and
    completing courses, and the two lists of a student's courses. Each handler that changes
    the enrollment collection is a method on the store, specified by a function of the
    collection before the call; the properties of the state machine are lemmas about those
    functions. */
module StudentController {
  import opened Wrappers
  import opened Db
  import opened Http
  import opened EnrollmentModel
  import opened CourseModel

  const CourseNotFound := "Course not found"
  const AlreadyEnrolled := "Already enrolled in this course"
  const EnrolledMessage := "Enrolled in course successfully"
  const InternalError := "Internal server error"
  const NotEnrolledToDrop := "You are not enrolled in this course or have already dropped/completed it"
  const DroppedMessage := "Course dropped successfully"
  const NotEnrolledToComplete := "You are not enrolled in this course"
  const CompletedMessage := "Course completed successfully"

  /** The enrollment collection as a value: its records and its id counter. */
  datatype Table = Table(records: map<Id, Enrollment>, nextId: nat) {
    predicate Valid() {
      Consistent(records, nextId)
    }
  }

  /** A handler's reply and the collection it leaves behind. */
  datatype Step<T> = Step(reply: Reply<T>, after: Table)

  /** `enrollInCourse`: course lookup, then `findOne` for an "enrolled" record, then for a
      "dropped" one, which is re-activated; otherwise a new record is saved, which the
      unique index may reject (the catch-all 500). */
  function Enroll(t: Table, courses: map<Id, Course>, student: Id, course: Id): (s: Step<Enrollment>)
    ensures s.reply.code == 201 || s.reply.code == 400 || s.reply.code == 404 || s.reply.code == 500
    ensures s.reply.code == 404 <==> course !in courses
    ensures s.reply.code != 201 ==> s.after == t
    ensures s.reply.code == 201 ==> Enrolls(t, s, student, course)
  {
    if course !in courses then Step(Refused(404, CourseNotFound), t)
    else if FindOne(t.records, Filter(student, course, Enrolled), t.nextId).Some? then
      Step(Refused(400, AlreadyEnrolled), t)
    else
      var dropped := FindOne(t.records, Filter(student, course, Dropped), t.nextId);
      if dropped.Some? then
        var e := t.records[dropped.value].(status := Enrolled);
        assert Filter(student, course, Dropped)(t.records[dropped.value]);
        assert t.records[dropped.value] == e.(status := Dropped);
        Step(Succeeded(201, EnrolledMessage, e), t.(records := t.records[e.id := e]))
      else if RecordOf(t.records, t.nextId, student, course).Some? then
        Step(Faulted(500, InternalError), t)
      else
        var e := Enrollment(t.nextId, student, course, Enrolled);
        Step(Succeeded(201, EnrolledMessage, e), Table(t.records[e.id := e], t.nextId + 1))
  }

  /** A 201 from `enrollInCourse`: the reply carries an "enrolled" record of the pair, and
      the collection stores exactly it, either over a "dropped" record (the counter is
      unchanged) or under a fresh id taken from the counter. */
  ghost predicate Enrolls(t: Table, s: Step<Enrollment>, student: Id, course: Id) {
    && s.reply.code == 201 && s.reply.body.Envelope? && s.reply.body.status == Success
    && s.reply.body.message == Some(EnrolledMessage) && s.reply.body.data.Some?
    && var e := s.reply.body.data.value;
       && OfPair(e, student, course) && e.status == Enrolled
       && s.after.records == t.records[e.id := e]
       && ((s.after.nextId == t.nextId && exists i :: i in t.records && t.records[i] == e.(status := Dropped))
           || (e.id == t.nextId && s.after.nextId == t.nextId + 1))
  }

  /** The guarded transition shared by `dropCourse` and `completeCourse`: only an "enrolled"
      record of the pair moves, to `target`. */
  function Move(t: Table, student: Id, course: Id, target: Status, refusal: string, success: string): (s: Step<Enrollment>)
    ensures s.reply.code == 200 || s.reply.code == 404
    ensures s.reply.code == 404 ==> s == Step(Refused(404, refusal), t)
    ensures s.reply.code == 200 ==> s.reply == Done(200, success) && Moved(t, s.after, student, course, target)
  {
    var found := FindOne(t.records, Filter(student, course, Enrolled), t.nextId);
    if found.None? then Step(Refused(404, refusal), t)
    else
      var e := t.records[found.value].(status := target);
      assert Filter(student, course, Enrolled)(t.records[found.value]);
      Step(Done(200, success), t.(records := t.records[e.id := e]))
  }

  /** `after` is `t` with one "enrolled" record of the pair moved to `target` and saved
      under its own id. */
  ghost predicate Moved(t: Table, after: Table, student: Id, course: Id, target: Status) {
    exists i :: && i in t.records && OfPair(t.records[i], student, course) && t.records[i].status == Enrolled
                && var e := t.records[i].(status := target);
                   after == t.(records := t.records[e.id := e])
  }

  /** `dropCourse` */
  function Drop(t: Table, student: Id, course: Id): (s: Step<Enrollment>)
    ensures s.reply.code == 200 || s.reply == Refused(404, NotEnrolledToDrop)
    ensures s.reply.code == 404 ==> s.after == t
    ensures s.reply.code == 200 ==> s.reply == Done(200, DroppedMessage) && Moved(t, s.after, student, course, Dropped)
  {
    Move(t, student, course, Dropped, NotEnrolledToDrop, DroppedMessage)
  }

  /** `completeCourse` */
  function Complete(t: Table, student: Id, course: Id): (s: Step<Enrollment>)
    ensures s.reply.code == 200 || s.reply == Refused(404, NotEnrolledToComplete)
    ensures s.reply.code == 404 ==> s.after == t
    ensures s.reply.code == 200 ==> s.reply == Done(200, CompletedMessage) && Moved(t, s.after, student, course, Completed)
  {
    Move(t, student, course, Completed, NotEnrolledToComplete, CompletedMessage)
  }

  /** `enrollInCourse` on the live collection. */
  method EnrollInCourse(store: EnrollmentStore, courses: map<Id, Course>, student: Id, course: Id) returns (reply: Reply<Enrollment>)
    requires store.Valid()
    modifies store
    ensures store.Valid()
    ensures Step(reply, Table(store.records, store.nextId))
            == Enroll(Table(old(store.records), old(store.nextId)), courses, student, course)
  {
    if course !in courses {
      return Refused(404, CourseNotFound);
    }
    var existing := store.FindFirst(Filter(student, course, Enrolled));
    if existing.Some? {
      return Refused(400, AlreadyEnrolled);
    }
    var dropped := store.FindFirst(Filter(student, course, Dropped));
    if dropped.Some? {
      var e := store.SetStatus(dropped.value.id, Enrolled);
      return Succeeded(201, EnrolledMessage, e);
    }
    var inserted := store.Insert(student, course);
    if inserted.None? {
      return Faulted(500, InternalError);
    }
    reply := Succeeded(201, EnrolledMessage, inserted.value);
  }

  /** `dropCourse` and `completeCourse` on the live collection. */
  method MoveCourse(store: EnrollmentStore, student: Id, course: Id, target: Status, refusal: string, success: string)
    returns (reply: Reply<Enrollment>)
    requires store.Valid()
    modifies store
    ensures store.Valid()
    ensures Step(reply, Table(store.records, store.nextId))
            == Move(Table(old(store.records), old(store.nextId)), student, course, target, refusal, success)
  {
    var found := store.FindFirst(Filter(student, course, Enrolled));
    if found.None? {
      return Refused(404, refusal);
    }
    var _ := store.SetStatus(found.value.id, target);
    reply := Done(200, success);
  }

  /** `dropCourse` */
  method DropCourse(store: EnrollmentStore, student: Id, course: Id) returns (reply: Reply<Enrollment>)
    requires store.Valid()
    modifies store
    ensures store.Valid()
    ensures Step(reply, Table(store.records, store.nextId)) == Drop(Table(old(store.records), old(store.nextId)), student, course)
  {
    reply := MoveCourse(store, student, course, Dropped, NotEnrolledToDrop, DroppedMessage);
  }

  /** `completeCourse` */
  method CompleteCourse(store: EnrollmentStore, student: Id, course: Id) returns (reply: Reply<Enrollment>)
    requires store.Valid()
    modifies store
    ensures store.Valid()
    ensures Step(reply, Table(store.records, store.nextId)) == Complete(Table(old(store.records), old(store.nextId)), student, course)
  {
    reply := MoveCourse(store, student, course, Completed, NotEnrolledToComplete, CompletedMessage);
  }

  // ---- The state machine, stated in terms of the pair's one record ----

  /** The status of the pair's record, if it has one. */
  function StatusOf(t: Table, student: Id, course: Id): Option<Status>
    requires t.Valid()
  {
    var r := RecordOf(t.records, t.nextId, student, course);
    if r.Some? then Some(t.records[r.value].status) else None
  }

  /** Every step of the handlers keeps the collection consistent: ids below the counter,
      and at most one record per (student, course) pair. */
  lemma {:induction false} EnrollKeepsConsistent(t: Table, courses: map<Id, Course>, student: Id, course: Id)
    requires t.Valid()
    ensures Enroll(t, courses, student, course).after.Valid()
  {
    FindOneOfPair(t.records, t.nextId, student, course, Enrolled);
    FindOneOfPair(t.records, t.nextId, student, course, Dropped);
    var dropped := FindOne(t.records, Filter(student, course, Dropped), t.nextId);
    if dropped.Some? {
      ChangeStatus(t.records, t.nextId, dropped.value, Enrolled);
    } else if RecordOf(t.records, t.nextId, student, course).None? {
      AddFreshPair(t.records, t.nextId, student, course, Enrolled);
    }
  }

  lemma {:induction false} MoveKeepsConsistent(t: Table, student: Id, course: Id, target: Status, refusal: string, success: string)
    requires t.Valid()
    ensures Move(t, student, course, target, refusal, success).after.Valid()
  {
    var found := FindOne(t.records, Filter(student, course, Enrolled), t.nextId);
    if found.Some? {
      ChangeStatus(t.records, t.nextId, found.value, target);
    }
  }

  /** Enrolling in a course id that does not exist: 404 and no change. */
  lemma EnrollUnknownCourse(t: Table, courses: map<Id, Course>, student: Id, course: Id)
    requires course !in courses
    ensures Enroll(t, courses, student, course) == Step(Refused(404, CourseNotFound), t)
  {
  }

  /** Enrolling again while enrolled: 400 and no change. */
  lemma {:induction false} EnrollWhileEnrolled(t: Table, courses: map<Id, Course>, student: Id, course: Id)
    requires t.Valid() && course in courses
    requires StatusOf(t, student, course) == Some(Enrolled)
    ensures Enroll(t, courses, student, course) == Step(Refused(400, AlreadyEnrolled), t)
  {
    FindOneOfPair(t.records, t.nextId, student, course, Enrolled);
  }

  /** Enrolling after dropping re-activates the same record: the same id, now "enrolled",
      and the collection does not grow. */
  lemma {:induction false} EnrollAfterDrop(t: Table, courses: map<Id, Course>, student: Id, course: Id)
    requires t.Valid() && course in courses
    requires StatusOf(t, student, course) == Some(Dropped)
    ensures var s := Enroll(t, courses, student, course);
            var i := RecordOf(t.records, t.nextId, student, course).value;
            && s.reply == Succeeded(201, EnrolledMessage, t.records[i].(status := Enrolled))
            && s.after == Table(t.records[i := t.records[i].(status := Enrolled)], t.nextId)
            && s.after.records.Keys == t.records.Keys
            && |s.after.records| == |t.records|
  {
    FindOneOfPair(t.records, t.nextId, student, course, Enrolled);
    FindOneOfPair(t.records, t.nextId, student, course, Dropped);
    var i := RecordOf(t.records, t.nextId, student, course).value;
    assert t.records[i].id == i;
    assert t.records[i := t.records[i].(status := Enrolled)].Keys == t.records.Keys;
  }

  /** Enrolling in a course the student has no record for adds exactly one "enrolled"
      record under a fresh id and answers 201. */
  lemma {:induction false} EnrollFresh(t: Table, courses: map<Id, Course>, student: Id, course: Id)
    requires t.Valid() && course in courses
    requires StatusOf(t, student, course).None?
    ensures var s := Enroll(t, courses, student, course);
            var e := Enrollment(t.nextId, student, course, Enrolled);
            && e.id !in t.records
            && s.reply == Succeeded(201, EnrolledMessage, e)
            && s.after == Table(t.records[e.id := e], t.nextId + 1)
            && |s.after.records| == |t.records| + 1
  {
    FindOneOfPair(t.records, t.nextId, student, course, Enrolled);
    FindOneOfPair(t.records, t.nextId, student, course, Dropped);
    assert t.nextId !in t.records;
  }

  /** Enrolling in a course already completed: neither lookup matches, the insert breaks the
      unique index, and the reply is 500 with the record still "completed". */
  lemma {:induction false} EnrollAfterComplete(t: Table, courses: map<Id, Course>, student: Id, course: Id)
    requires t.Valid() && course in courses
    requires StatusOf(t, student, course) == Some(Completed)
    ensures Enroll(t, courses, student, course) == Step(Faulted(500, InternalError), t)
  {
    FindOneOfPair(t.records, t.nextId, student, course, Enrolled);
    FindOneOfPair(t.records, t.nextId, student, course, Dropped);
  }

  /** Drop and complete move a record only out of "enrolled"; from any other state, or with
      no record, they answer 404 and change nothing. */
  lemma {:induction false} MoveOnlyFromEnrolled(t: Table, student: Id, course: Id, target: Status, refusal: string, success: string)
    requires t.Valid()
    ensures var s := Move(t, student, course, target, refusal, success);
            if StatusOf(t, student, course) == Some(Enrolled) then
              var i := RecordOf(t.records, t.nextId, student, course).value;
              s == Step(Done(200, success), t.(records := t.records[i := t.records[i].(status := target)]))
            else
              s == Step(Refused(404, refusal), t)
  {
    FindOneOfPair(t.records, t.nextId, student, course, Enrolled);
    var i := RecordOf(t.records, t.nextId, student, course);
    if i.Some? {
      assert t.records[i.value].id == i.value;
    }
  }

  /** A completed course stays completed: dropping it, completing it again and enrolling in it
      all leave the collection as it was. */
  lemma {:induction false} CompletedIsFinal(t: Table, courses: map<Id, Course>, student: Id, course: Id)
    requires t.Valid()
    requires StatusOf(t, student, course) == Some(Completed)
    ensures Drop(t, student, course) == Step(Refused(404, NotEnrolledToDrop), t)
    ensures Complete(t, student, course) == Step(Refused(404, NotEnrolledToComplete), t)
    ensures Enroll(t, courses, student, course).after == t
  {
    MoveOnlyFromEnrolled(t, student, course, Dropped, NotEnrolledToDrop, DroppedMessage);
    MoveOnlyFromEnrolled(t, student, course, Completed, NotEnrolledToComplete, CompletedMessage);
    if course in courses {
      EnrollAfterComplete(t, courses, student, course);
    }
  }

  // ---- The two lists ----

  /** An enrollment with its course populated: the course document, or null when that
      course no longer exists. */
  datatype EnrolledCourse = EnrolledCourse(id: Id, student: Id, course: Option<Course>, status: Status)

  function Populate(e: Enrollment, courses: map<Id, Course>): EnrolledCourse {
    EnrolledCourse(e.id, e.student, if e.course in courses then Some(courses[e.course]) else None, e.status)
  }

  /** `populate('course')` over the records found, in the order found. */
  function PopulateAll(records: map<Id, Enrollment>, courses: map<Id, Course>, ids: seq<Id>): (r: seq<EnrolledCourse>)
    requires forall k :: 0 <= k < |ids| ==> ids[k] in records && records[ids[k]].id == ids[k]
    ensures |r| == |ids|
    ensures forall k :: 0 <= k < |r| ==> r[k].id == ids[k] && r[k] == Populate(records[ids[k]], courses)
  {
    seq(|ids|, k requires 0 <= k < |ids| => Populate(records[ids[k]], courses))
  }

  /** `find({ student, status }).populate('course')`: exactly the student's records with
      that status, in natural order, each with its course. */
  function ListByStatus(t: Table, courses: map<Id, Course>, student: Id, status: Status): (r: seq<EnrolledCourse>)
    requires t.Valid()
    ensures forall k :: 0 <= k < |r| ==> r[k].id in t.records && r[k] == Populate(t.records[r[k].id], courses)
    ensures forall k :: 0 <= k < |r| ==> t.records[r[k].id].student == student && t.records[r[k].id].status == status
    ensures forall i :: i in t.records && t.records[i].student == student && t.records[i].status == status ==>
              exists k :: 0 <= k < |r| && r[k].id == i
    ensures forall a, b :: 0 <= a < b < |r| ==> r[a].id < r[b].id
  {
    var ids := Find(t.records, (e: Enrollment) => e.student == student && e.status == status, t.nextId);
    assert forall i :: i in t.records && t.records[i].student == student && t.records[i].status == status ==> i in ids;
    PopulateAll(t.records, courses, ids)
  }

  /** The rows of one list name distinct courses: a student has one record per course. */
  lemma {:induction false} OneRowPerCourse(t: Table, courses: map<Id, Course>, student: Id, status: Status)
    requires t.Valid()
    ensures var r := ListByStatus(t, courses, student, status);
            forall a, b :: 0 <= a < b < |r| ==> t.records[r[a].id].course != t.records[r[b].id].course
  {
    var r := ListByStatus(t, courses, student, status);
    forall a, b | 0 <= a < b < |r|
      ensures t.records[r[a].id].course != t.records[r[b].id].course
    {
      var i, j := r[a].id, r[b].id;
      assert i != j && t.records[i].student == t.records[j].student;
      assert OfPair(t.records[i], t.records[j].student, t.records[j].course) ==> i == j;
    }
  }

  /** `getEnrolledCourses` */
  function GetEnrolledCourses(t: Table, courses: map<Id, Course>, student: Id): (r: Reply<seq<EnrolledCourse>>)
    requires t.Valid()
    ensures r.code == 200 && r.body.Envelope? && r.body.data.Some?
    ensures r.body.message == Some("Enrolled courses fetched successfully")
    ensures r.body.data.value == ListByStatus(t, courses, student, Enrolled)
    ensures forall k :: 0 <= k < |r.body.data.value| ==> r.body.data.value[k].status == Enrolled
  {
    Succeeded(200, "Enrolled courses fetched successfully", ListByStatus(t, courses, student, Enrolled))
  }

  /** `getCompletedCourses` */
  function GetCompletedCourses(t: Table, courses: map<Id, Course>, student: Id): (r: Reply<seq<EnrolledCourse>>)
    requires t.Valid()
    ensures r.code == 200 && r.body.Envelope? && r.body.data.Some?
    ensures r.body.message == Some("Completed courses fetched successfully")
    ensures r.body.data.value == ListByStatus(t, courses, student, Completed)
    ensures forall k :: 0 <= k < |r.body.data.value| ==> r.body.data.value[k].status == Completed
  {
    Succeeded(200, "Completed courses fetched successfully", ListByStatus(t, courses, student, Completed))
  }
}
