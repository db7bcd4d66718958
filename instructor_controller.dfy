/** The instructor handlers (backend/controllers/instructorController.js). Creating, updating
    and deleting change the course table; every change is filtered by the caller's id as
    the course's instructor. */
module InstructorController {
  import opened Wrappers
  import opened Db
  import opened Http
  import opened CourseModel

  const NotFoundToUpdate := "Course not found or you are not authorized to update it"
  const NotFoundToDelete := "Course not found or you are not authorized to delete it"

  /** The `title` and `description` of the request body; None is an absent field. */
  datatype CourseBody = CourseBody(title: Option<string>, description: Option<string>)

  /** JavaScript truthiness of an optional string: present and not "". */
  predicate Truthy(s: Option<string>) {
    s.Some? && s.value != ""
  }

  /** `updateData`: a field is set only when the body's value is truthy. */
  function BuildUpdate(b: CourseBody): (p: Patch)
    ensures p.title == (if Truthy(b.title) then b.title else None)
    ensures p.description == (if Truthy(b.description) then b.description else None)
  {
    Patch(if Truthy(b.title) then b.title else None,
          if Truthy(b.description) then b.description else None)
  }

  /** The reply a failed save gets: 500 with the validation error's message. */
  function SaveFailed(v: set<Violation>): Reply<Course> {
    Reply(500, Envelope(Error, Some("Internal server error"), None, Some(ValidationMessage(v))))
  }

  /** `createCourse`: the new course belongs to the caller. */
  method CreateCourse(table: CourseTable, b: CourseBody, caller: Id) returns (reply: Reply<Course>)
    requires table.Valid()
    modifies table
    ensures table.Valid()
    ensures var built := Build(old(table.nextId), Draft(b.title, b.description, Some(caller)));
            if built.Ok? then
              && reply == Succeeded(201, "Course created successfully", built.value)
              && built.value.instructor == caller
              && table.courses == old(table.courses)[built.value.id := built.value]
            else
              reply == SaveFailed(built.error) && table.courses == old(table.courses)
  {
    var r := table.Insert(Draft(b.title, b.description, Some(caller)));
    if r.Ok? {
      reply := Succeeded(201, "Course created successfully", r.value);
    } else {
      reply := SaveFailed(r.error);
    }
  }

  /** A new course is stored only when it conforms to the schema, and then it belongs to
      the caller: a title of 1 to 200 code units, a description of 1 to 1000. */
  lemma CreatedCourseConforms(n: nat, b: CourseBody, caller: Id)
    requires Build(n, Draft(b.title, b.description, Some(caller))).Ok?
    ensures var c := Build(n, Draft(b.title, b.description, Some(caller))).value;
            && c.instructor == caller && c.title == b.title.value && c.description == b.description.value
            && 0 < |c.title| && Text.Utf16Length(c.title) <= MaxTitleLength
            && 0 < |c.description| && Text.Utf16Length(c.description) <= MaxDescriptionLength
  {
  }

  /** `getCourses`: exactly the caller's courses, in natural order; the reply has no
      message. */
  function GetCourses(courses: map<Id, Course>, n: nat, caller: Id): (r: Reply<seq<Course>>)
    requires Indexed(courses, n)
    ensures r.code == 200 && r.body.Envelope? && r.body.message.None? && r.body.data.Some?
    ensures var d := r.body.data.value;
            && (forall k :: 0 <= k < |d| ==> d[k].id in courses && d[k] == courses[d[k].id] && d[k].instructor == caller)
            && (forall i :: i in courses && courses[i].instructor == caller ==> exists k :: 0 <= k < |d| && d[k].id == i)
            && (forall a, b :: 0 <= a < b < |d| ==> d[a].id < d[b].id)
  {
    var ids := Find(courses, (c: Course) => c.instructor == caller, n);
    var d := Docs(courses, ids);
    assert forall i :: i in courses && courses[i].instructor == caller ==> i in ids;
    Reply(200, Envelope(Success, None, Some(d), None))
  }

  /** A handler's reply and the course map it leaves behind. */
  datatype Change = Change(reply: Reply<Course>, courses: map<Id, Course>)

  /** Whether the filter `{ _id: id, instructor: caller }` matches. */
  predicate Owns(courses: map<Id, Course>, id: Id, caller: Id) {
    id in courses && courses[id].instructor == caller
  }

  /** `updateCourse` */
  function Update(courses: map<Id, Course>, id: Id, caller: Id, b: CourseBody): (c: Change)
    ensures !Owns(courses, id, caller) ==> c == Change(Refused(404, NotFoundToUpdate), courses)
    ensures Owns(courses, id, caller) ==>
              && c.reply.code == 200
              && c.courses.Keys == courses.Keys
              && (forall j :: j in courses && j != id ==> c.courses[j] == courses[j])
              && c.courses[id] == Apply(courses[id], BuildUpdate(b))
              && c.reply == Succeeded(200, "Course updated successfully", c.courses[id])
  {
    if !Owns(courses, id, caller) then Change(Refused(404, NotFoundToUpdate), courses)
    else
      var updated := Apply(courses[id], BuildUpdate(b));
      Change(Succeeded(200, "Course updated successfully", updated), courses[id := updated])
  }

  /** `deleteCourse`: the refusal carries status "error", unlike the other 404s. */
  function Delete(courses: map<Id, Course>, id: Id, caller: Id): (c: Change)
    ensures !Owns(courses, id, caller) ==> c == Change(Faulted(404, NotFoundToDelete), courses)
    ensures Owns(courses, id, caller) ==>
              c == Change(Succeeded(200, "Course deleted successfully", courses[id]), courses - {id})
  {
    if !Owns(courses, id, caller) then Change(Faulted(404, NotFoundToDelete), courses)
    else Change(Succeeded(200, "Course deleted successfully", courses[id]), courses - {id})
  }

  /** A successful update keeps every field the body left absent or empty, never touches the
      id or the instructor, and leaves the other courses alone. */
  lemma UpdateKeepsUnsetFields(courses: map<Id, Course>, id: Id, caller: Id, b: CourseBody)
    requires Owns(courses, id, caller)
    ensures var after := Update(courses, id, caller, b).courses[id];
            && after.id == courses[id].id && after.instructor == caller
            && after.title == (if Truthy(b.title) then b.title.value else courses[id].title)
            && after.description == (if Truthy(b.description) then b.description.value else courses[id].description)
  {
  }

  /** `updateCourse` on the live table. */
  method UpdateCourse(table: CourseTable, id: Id, caller: Id, b: CourseBody) returns (reply: Reply<Course>)
    requires table.Valid()
    modifies table
    ensures table.Valid() && table.nextId == old(table.nextId)
    ensures Change(reply, table.courses) == Update(old(table.courses), id, caller, b)
  {
    var updated := table.FindOneAndUpdate(id, caller, BuildUpdate(b));
    if updated.None? {
      return Refused(404, NotFoundToUpdate);
    }
    reply := Succeeded(200, "Course updated successfully", updated.value);
  }

  /** `deleteCourse` on the live table. */
  method DeleteCourse(table: CourseTable, id: Id, caller: Id) returns (reply: Reply<Course>)
    requires table.Valid()
    modifies table
    ensures table.Valid() && table.nextId == old(table.nextId)
    ensures Change(reply, table.courses) == Delete(old(table.courses), id, caller)
  {
    var deleted := table.FindOneAndDelete(id, caller);
    if deleted.None? {
      return Faulted(404, NotFoundToDelete);
    }
    reply := Succeeded(200, "Course deleted successfully", deleted.value);
  }
}
