/** The course collection (backend/models/Course.js): the document shape, the schema's
    validators, and the table the instructor handlers change. */
module CourseModel {
  import opened Wrappers
  import opened Db
  import opened Text

  const MaxTitleLength := 200
  const MaxDescriptionLength := 1000

  /** A stored course. The schema has exactly these fields (plus timestamps): there is no
      status and no image field. */
  datatype Course = Course(id: Id, title: string, description: string, instructor: Id)

  /** The fields a new course document is given; None is `undefined`. */
  datatype Draft = Draft(title: Option<string>, description: Option<string>, instructor: Option<Id>)

  datatype Violation =
    | TitleRequired | TitleTooLong
    | DescriptionRequired | DescriptionTooLong
    | InstructorRequired

  /** What Mongoose's `required` rejects on a string path: undefined and "". */
  predicate Missing(s: Option<string>) {
    s.None? || s.value == ""
  }

  /** Mongoose's `maxlength`, which compares `.length` (UTF-16 code units). */
  predicate TooLong(s: Option<string>, max: nat) {
    s.Some? && Utf16Length(s.value) > max
  }

  /** A stored course satisfies the schema. */
  predicate Conforms(c: Course) {
    c.title != "" && Utf16Length(c.title) <= MaxTitleLength
    && c.description != "" && Utf16Length(c.description) <= MaxDescriptionLength
  }

  /** Every validator that fails on a draft; Mongoose runs them all before reporting. */
  function Violations(d: Draft): (v: set<Violation>)
    ensures TitleRequired in v <==> Missing(d.title)
    ensures TitleTooLong in v <==> TooLong(d.title, MaxTitleLength)
    ensures DescriptionRequired in v <==> Missing(d.description)
    ensures DescriptionTooLong in v <==> TooLong(d.description, MaxDescriptionLength)
    ensures InstructorRequired in v <==> d.instructor.None?
  {
    (if Missing(d.title) then {TitleRequired} else {})
    + (if TooLong(d.title, MaxTitleLength) then {TitleTooLong} else {})
    + (if Missing(d.description) then {DescriptionRequired} else {})
    + (if TooLong(d.description, MaxDescriptionLength) then {DescriptionTooLong} else {})
    + (if d.instructor.None? then {InstructorRequired} else {})
  }

  /** `new Course(draft).save()` validation: the document, or every failed validator. */
  function Build(id: Id, d: Draft): (r: Result<Course, set<Violation>>)
    ensures r.Ok? <==> d.title.Some? && d.description.Some? && d.instructor.Some?
                       && Conforms(Course(id, d.title.value, d.description.value, d.instructor.value))
    ensures r.Ok? ==> r.value == Course(id, d.title.value, d.description.value, d.instructor.value)
    ensures r.Err? ==> r.error != {} && r.error == Violations(d)
  {
    var v := Violations(d);
    if v == {} then Ok(Course(id, d.title.value, d.description.value, d.instructor.value))
    else Err(v)
  }

  /** The path names the validation error message lists, in schema order. */
  function FailedPaths(v: set<Violation>): seq<string> {
    (if TitleRequired in v || TitleTooLong in v then ["title"] else [])
    + (if DescriptionRequired in v || DescriptionTooLong in v then ["description"] else [])
    + (if InstructorRequired in v then ["instructor"] else [])
  }

  /** The `message` of the ValidationError a failed save throws (the wording of each
      validator's own text is abstracted to its path). */
  function ValidationMessage(v: set<Violation>): string {
    "Course validation failed: " + Join(FailedPaths(v), ", ")
  }

  /** The update document of a `findOneAndUpdate`: None leaves the field alone. */
  datatype Patch = Patch(title: Option<string>, description: Option<string>)

  /** `$set` of a patch; updates do not run the schema's validators. */
  function Apply(c: Course, p: Patch): (r: Course)
    ensures r.id == c.id && r.instructor == c.instructor
    ensures r.title == (if p.title.Some? then p.title.value else c.title)
    ensures r.description == (if p.description.Some? then p.description.value else c.description)
  {
    c.(title := p.title.GetOr(c.title), description := p.description.GetOr(c.description))
  }

  /** A course map is indexed by the document ids, all drawn below `n`. */
  predicate Indexed(courses: map<Id, Course>, n: nat) {
    forall i :: i in courses ==> courses[i].id == i && i < n
  }

  /** For code points in the Basic Multilingual Plane, `.length` is the number of
      characters. */
  lemma {:induction false} Utf16LengthBmp(s: string)
    requires forall k :: 0 <= k < |s| ==> s[k] as int <= 0xFFFF
    ensures Utf16Length(s) == |s|
  {
    if s != [] {
      Utf16LengthBmp(s[1..]);
    }
  }

  /** Validation is what keeps titles within 200 code units: a stored, conforming course
      patched with a 201-character title no longer conforms. */
  lemma UpdateBypassesValidation(c: Course)
    requires Conforms(c)
    ensures !Conforms(Apply(c, Patch(Some(seq(201, _ => 'a')), None)))
  {
    var long: string := seq(201, _ => 'a');
    Utf16LengthBmp(long);
  }

  /** The course table. */
  class CourseTable {
    var courses: map<Id, Course>
    var nextId: Id

    ghost predicate Valid()
      reads this
    {
      Indexed(courses, nextId)
    }

    constructor ()
      ensures Valid() && courses == map[]
    {
      courses := map[];
      nextId := 0;
    }

    /** `new Course(draft).save()`: stores the validated document under a fresh id, or
        stores nothing. */
    method Insert(d: Draft) returns (r: Result<Course, set<Violation>>)
      requires Valid()
      modifies this
      ensures Valid()
      ensures r == Build(old(nextId), d)
      ensures r.Ok? ==> courses == old(courses)[r.value.id := r.value] && nextId == old(nextId) + 1
      ensures r.Err? ==> courses == old(courses) && nextId == old(nextId)
    {
      r := Build(nextId, d);
      if r.Ok? {
        courses := courses[nextId := r.value];
        nextId := nextId + 1;
      }
    }

    /** `findOneAndUpdate({ _id: id, instructor }, patch, { new: true })`: the updated
        document, or null when no course has that id and that instructor. */
    method FindOneAndUpdate(id: Id, instructor: Id, p: Patch) returns (r: Option<Course>)
      requires Valid()
      modifies this
      ensures Valid() && nextId == old(nextId)
      ensures r.Some? <==> id in old(courses) && old(courses)[id].instructor == instructor
      ensures r.Some? ==> r.value == Apply(old(courses)[id], p) && courses == old(courses)[id := r.value]
      ensures r.None? ==> courses == old(courses)
    {
      if id in courses && courses[id].instructor == instructor {
        var c := Apply(courses[id], p);
        courses := courses[id := c];
        r := Some(c);
      } else {
        r := None;
      }
    }

    /** `findOneAndDelete({ _id: id, instructor })`: the removed document, or null. */
    method FindOneAndDelete(id: Id, instructor: Id) returns (r: Option<Course>)
      requires Valid()
      modifies this
      ensures Valid() && nextId == old(nextId)
      ensures r.Some? <==> id in old(courses) && old(courses)[id].instructor == instructor
      ensures r.Some? ==> r.value == old(courses)[id] && courses == old(courses) - {id}
      ensures r.None? ==> courses == old(courses)
    {
      if id in courses && courses[id].instructor == instructor {
        r := Some(courses[id]);
        courses := courses - {id};
      } else {
        r := None;
      }
    }
  }
}
