/** The public course handlers (backend/controllers/courseController.js). They only read:
    each is a function of the collections it queries. */
module CourseController {
  import opened Wrappers
  import opened Db
  import opened Http
  import opened CourseModel
  import opened UserModel
  import opened EnrollmentModel

  /** `populate('instructor', 'name email')`: the instructor's id, name and email. */
  datatype Contact = Contact(id: Id, name: string, email: string)

  /** A course with its instructor populated, or null when that user no longer exists. */
  datatype CourseView = CourseView(id: Id, title: string, description: string, instructor: Option<Contact>)

  function View(c: Course, users: map<Id, User>): (v: CourseView)
    ensures v.id == c.id && v.title == c.title && v.description == c.description
    ensures v.instructor.Some? <==> c.instructor in users
    ensures v.instructor.Some? ==> v.instructor.value == Contact(c.instructor, users[c.instructor].name, users[c.instructor].email)
  {
    CourseView(c.id, c.title, c.description,
      if c.instructor in users then Some(Contact(c.instructor, users[c.instructor].name, users[c.instructor].email)) else None)
  }

  /** `Course.find().populate('instructor', 'name email')`: every course, in natural order,
      each with its instructor's contact, or null where that user is gone. */
  function Catalog(courses: map<Id, Course>, n: nat, users: map<Id, User>): (d: seq<CourseView>)
    requires Indexed(courses, n)
    ensures forall k :: 0 <= k < |d| ==> d[k].id in courses && d[k] == View(courses[d[k].id], users)
    ensures forall i :: i in courses ==> exists k :: 0 <= k < |d| && d[k].id == i
    ensures forall a, b :: 0 <= a < b < |d| ==> d[a].id < d[b].id
  {
    var ids := Find(courses, (c: Course) => true, n);
    assert forall i :: i in courses ==> i in ids;
    ViewAll(courses, users, ids)
  }

  /** `getAllCourses`: every course, in natural order, with no filter on owner. */
  function GetAllCourses(courses: map<Id, Course>, n: nat, users: map<Id, User>): (r: Reply<seq<CourseView>>)
    requires Indexed(courses, n)
    ensures r.code == 200 && r.body.Envelope? && r.body.status == Success && r.body.data.Some?
    ensures var d := r.body.data.value;
            && (forall k :: 0 <= k < |d| ==> d[k].id in courses && d[k] == View(courses[d[k].id], users))
            && (forall i :: i in courses ==> exists k :: 0 <= k < |d| && d[k].id == i)
            && (forall a, b :: 0 <= a < b < |d| ==> d[a].id < d[b].id)
  {
    Succeeded(200, "Courses fetched successfully", Catalog(courses, n, users))
  }

  /** `populate('instructor', 'name email')` over the courses found, in the order found. */
  function ViewAll(courses: map<Id, Course>, users: map<Id, User>, ids: seq<Id>): (d: seq<CourseView>)
    requires forall k :: 0 <= k < |ids| ==> ids[k] in courses && courses[ids[k]].id == ids[k]
    ensures |d| == |ids|
    ensures forall k :: 0 <= k < |d| ==> d[k].id == ids[k] && d[k] == View(courses[ids[k]], users)
  {
    seq(|ids|, k requires 0 <= k < |ids| => View(courses[ids[k]], users))
  }

  /** `getCourseById` */
  function GetCourseById(courses: map<Id, Course>, users: map<Id, User>, id: Id): (r: Reply<CourseView>)
    ensures id !in courses ==> r == Refused(404, "Course not found")
    ensures id in courses ==> r == Succeeded(200, "Course fetched successfully", View(courses[id], users))
  {
    if id !in courses then Refused(404, "Course not found")
    else Succeeded(200, "Course fetched successfully", View(courses[id], users))
  }

  /** An enrollment with its student populated: the whole user document, password
      included (a hash, for users made by `register`), since `populate('student')` selects
      every field. */
  datatype Roster = Roster(id: Id, student: Option<User>, course: Id, status: Status)

  /** `getEnrollments`: exactly the "enrolled" records of the course, in natural order;
      dropped and completed records are left out. */
  function GetEnrollments(records: map<Id, Enrollment>, n: nat, users: map<Id, User>, course: Id): (r: Reply<seq<Roster>>)
    requires forall i :: i in records ==> records[i].id == i && i < n
    ensures r.code == 200 && r.body.Envelope? && r.body.data.Some?
    ensures var d := r.body.data.value;
            && (forall k :: 0 <= k < |d| ==>
                  && d[k].id in records
                  && records[d[k].id].course == course && records[d[k].id].status == Enrolled
                  && d[k].student == FindById(users, records[d[k].id].student))
            && (forall i :: i in records && records[i].course == course && records[i].status == Enrolled ==>
                  exists k :: 0 <= k < |d| && d[k].id == i)
            && (forall a, b :: 0 <= a < b < |d| ==> d[a].id < d[b].id)
  {
    var ids := Find(records, (e: Enrollment) => e.course == course && e.status == Enrolled, n);
    assert forall i :: i in records && records[i].course == course && records[i].status == Enrolled ==> i in ids;
    Succeeded(200, "Enrollments fetched successfully", RosterAll(records, users, ids))
  }

  /** `populate('student')` over the enrollments found, in the order found. */
  function RosterAll(records: map<Id, Enrollment>, users: map<Id, User>, ids: seq<Id>): (d: seq<Roster>)
    requires forall k :: 0 <= k < |ids| ==> ids[k] in records && records[ids[k]].id == ids[k]
    ensures |d| == |ids|
    ensures forall k :: 0 <= k < |d| ==>
              var e := records[ids[k]]; d[k].id == ids[k] && d[k] == Roster(e.id, FindById(users, e.student), e.course, e.status)
  {
    seq(|ids|, k requires 0 <= k < |ids| =>
      var e := records[ids[k]]; Roster(e.id, FindById(users, e.student), e.course, e.status))
  }
}
