/** The admin dialog that adds a lesson to a course or edits one: its validation
    schema, the values it starts from, and what a submission writes to the store
    (src/components/admin/lesson-form.tsx). */
module LessonForm {
  import opened Common
  import opened Text
  import opened Catalog

  /** The values the form submits, after the schema has dropped every other key. */
  datatype Values = Values(
    title: string,
    description: string,
    category: string,
    difficulty: string,
    duration: string,
    videoUrl: string,
    thumbnailUrl: string,
    status: string)

  datatype Field = Title | Description | Category | Difficulty | Duration | VideoUrl | ThumbnailUrl | Status

  /** A validation message shown under one field. */
  datatype Issue = Issue(field: Field, message: string)

  /** The rule the schema applies to one field; lengths are JavaScript lengths, and
      `isUrl` stands for the URL check of the validation library, which is not part of
      this model. */
  predicate FieldOk(v: Values, f: Field, isUrl: string -> bool) {
    match f
    case Title => JsLength(v.title) >= 3
    case Description => JsLength(v.description) >= 10
    case Category => JsLength(v.category) >= 1
    case Difficulty => JsLength(v.difficulty) >= 1
    case Duration => JsLength(v.duration) >= 1
    case VideoUrl => v.videoUrl == "" || isUrl(v.videoUrl)
    case ThumbnailUrl => v.thumbnailUrl == "" || isUrl(v.thumbnailUrl)
    case Status => v.status == "active" || v.status == "disabled"
  }

  /** The message shown under a field that breaks its rule. A URL field that is neither
      empty nor a URL shows its own message; a status outside the enumeration shows the
      validation library's enumeration message, which quotes the value received. */
  function Message(v: Values, f: Field): (r: string)
    ensures f == VideoUrl || f == ThumbnailUrl ==> r == "Please enter a valid URL."
    ensures f == Status ==> |r| > |v.status| && r[|r| - |v.status| - 1..] == v.status + "'"
  {
    match f
    case Title => "Title must be at least 3 characters."
    case Description => "Description must be at least 10 characters."
    case Category => "Please select a category."
    case Difficulty => "Please select a difficulty."
    case Duration => "Please enter a duration."
    case VideoUrl => "Please enter a valid URL."
    case ThumbnailUrl => "Please enter a valid URL."
    case Status => "Invalid enum value. Expected 'active' | 'disabled', received '" + v.status + "'"
  }

  /** The fields in the order the schema declares them. */
  const SchemaFields := [Title, Description, Category, Difficulty, Duration, VideoUrl, ThumbnailUrl, Status]

  lemma SchemaFieldsComplete(f: Field)
    ensures f in SchemaFields
  {
    match f
    case Title => assert SchemaFields[0] == f;
    case Description => assert SchemaFields[1] == f;
    case Category => assert SchemaFields[2] == f;
    case Difficulty => assert SchemaFields[3] == f;
    case Duration => assert SchemaFields[4] == f;
    case VideoUrl => assert SchemaFields[5] == f;
    case ThumbnailUrl => assert SchemaFields[6] == f;
    case Status => assert SchemaFields[7] == f;
  }

  function FieldsOf(issues: seq<Issue>): set<Field> {
    set i | i in issues :: i.field
  }

  /** The messages for the fields of `fields` that `v` breaks, in the order of `fields`. */
  function IssuesFor(v: Values, isUrl: string -> bool, fields: seq<Field>): (r: seq<Issue>)
    requires forall i, j :: 0 <= i < j < |fields| ==> fields[i] != fields[j]
    ensures |r| <= |fields|
    ensures forall k :: 0 <= k < |r| ==>
              r[k].field in fields && !FieldOk(v, r[k].field, isUrl) && r[k].message == Message(v, r[k].field)
    ensures forall f :: f in fields && !FieldOk(v, f, isUrl) ==> Issue(f, Message(v, f)) in r
    ensures forall i, j :: 0 <= i < j < |r| ==> r[i].field != r[j].field
  {
    if fields == [] then []
    else
      var rest := IssuesFor(v, isUrl, fields[1..]);
      assert forall f :: f in fields ==> f == fields[0] || f in fields[1..];
      assert fields[0] !in fields[1..] by {
        forall k | 0 <= k < |fields[1..]| ensures fields[1..][k] != fields[0] {
          assert fields[1..][k] == fields[k + 1];
        }
      }
      if FieldOk(v, fields[0], isUrl) then rest
      else [Issue(fields[0], Message(v, fields[0]))] + rest
  }

  /** Every message the schema reports for `v`, in field order: exactly the fields whose
      rule `v` breaks, each once, with its message. */
  function Issues(v: Values, isUrl: string -> bool): (r: seq<Issue>)
    ensures forall f: Field :: f in FieldsOf(r) <==> !FieldOk(v, f, isUrl)
    ensures forall k :: 0 <= k < |r| ==> r[k].message == Message(v, r[k].field)
    ensures forall i, j :: 0 <= i < j < |r| ==> r[i].field != r[j].field
    ensures |r| <= 8
  {
    var r := IssuesFor(v, isUrl, SchemaFields);
    forall f: Field ensures f in FieldsOf(r) <==> !FieldOk(v, f, isUrl) {
      SchemaFieldsComplete(f);
      if !FieldOk(v, f, isUrl) {
        assert Issue(f, Message(v, f)) in r;
      }
      if f in FieldsOf(r) {
        var i :| i in r && i.field == f;
        var k :| 0 <= k < |r| && r[k] == i;
      }
    }
    r
  }

  /** The form submits only when the schema reports nothing. */
  predicate Accepts(v: Values, isUrl: string -> bool)
    ensures Accepts(v, isUrl) <==> forall f: Field :: FieldOk(v, f, isUrl)
  {
    var r := Issues(v, isUrl);
    assert r != [] ==> r[0].field in FieldsOf(r);
    r == []
  }

  lemma AcceptsExactly(v: Values, isUrl: string -> bool)
    ensures Accepts(v, isUrl) <==>
              && JsLength(v.title) >= 3
              && JsLength(v.description) >= 10
              && v.category != "" && v.difficulty != "" && v.duration != ""
              && (v.videoUrl == "" || isUrl(v.videoUrl))
              && (v.thumbnailUrl == "" || isUrl(v.thumbnailUrl))
              && (v.status == "active" || v.status == "disabled")
  {
    var r := Issues(v, isUrl);
    if !Accepts(v, isUrl) {
      assert r[0].field in FieldsOf(r);
    } else {
      assert FieldsOf(r) == {};
      assert FieldOk(v, Title, isUrl) && FieldOk(v, Description, isUrl) && FieldOk(v, Category, isUrl);
      assert FieldOk(v, Difficulty, isUrl) && FieldOk(v, Duration, isUrl) && FieldOk(v, VideoUrl, isUrl);
      assert FieldOk(v, ThumbnailUrl, isUrl) && FieldOk(v, Status, isUrl);
    }
  }

  /** The length rules count JavaScript code units: a title of two characters from
      outside the Basic Multilingual Plane already meets the three-character minimum. */
  lemma TitleLengthInCodeUnits(isUrl: string -> bool)
    ensures FieldOk(Values("\U{1F600}\U{1F600}", "", "", "", "", "", "", ""), Title, isUrl)
  {
    assert JsLength("\U{1F600}\U{1F600}"[1..]) == 2;
  }

  /** The values the form is reset to whenever the edited lesson changes: the lesson being
      edited, or the blank
      new-lesson defaults. */
  function Initial(lesson: Option<Lesson>): (v: Values)
    ensures lesson.Some? ==> Merge(lesson, v, lesson.value.courseId) == lesson.value
    ensures lesson.None? ==> v == Values("", "", "", "Beginner", "", "", PlaceholderThumbnail, "active")
  {
    match lesson
    case Some(l) => Load(l)
    case None =>
      Values("", "", "", "Beginner", "", "", PlaceholderThumbnail, "active")
  }

  /** The fields of a stored lesson that the form edits. */
  function Load(l: Lesson): Values {
    Values(l.title, l.description, l.category, l.difficulty, l.duration,
           l.videoUrl, l.thumbnailUrl, l.status)
  }

  /** The blank form cannot be submitted as it is: title, description, category and
      duration must be filled in, while the preset difficulty and status already pass. */
  lemma BlankFormIssues(isUrl: string -> bool)
    requires isUrl(PlaceholderThumbnail)
    ensures FieldsOf(Issues(Initial(None), isUrl)) == {Title, Description, Category, Duration}
  {
    var v := Initial(None);
    assert JsLength(v.difficulty) >= 1;
    FieldsOfIssues(v, isUrl, {Title, Description, Category, Duration});
  }

  /** The fields reported are the fields whose rule fails, as a set. */
  lemma FieldsOfIssues(v: Values, isUrl: string -> bool, failing: set<Field>)
    requires forall f: Field :: !FieldOk(v, f, isUrl) <==> f in failing
    ensures FieldsOf(Issues(v, isUrl)) == failing
  {
  }

  /** The record after a merge-write of the submitted values and `courseId` over
      what is stored under the lesson's id: every written field replaced, every other
      field (the creation time) kept; a merge onto a missing document creates it. */
  function Merge(stored: Option<Lesson>, v: Values, courseId: Id): (l: Lesson)
    ensures Load(l) == v && l.courseId == courseId
    ensures l.createdAt == if stored.Some? then stored.value.createdAt else None
  {
    Lesson(v.title, v.description, v.category, v.difficulty, v.duration,
           v.videoUrl, v.thumbnailUrl, v.status, courseId,
           if stored.Some? then stored.value.createdAt else None)
  }

  /** The record a create writes: the values, the course and the creation time. */
  function Created(v: Values, courseId: Id, now: Timestamp): (l: Lesson)
    ensures Load(l) == v && l.courseId == courseId && l.createdAt == Some(now)
  {
    Lesson(v.title, v.description, v.category, v.difficulty, v.duration,
           v.videoUrl, v.thumbnailUrl, v.status, courseId, Some(now))
  }

  /** The course after `arrayUnion` of a new lesson id into its `lessonIds`
      (a missing array is treated as empty). */
  function Link(c: Course, id: Id): (r: Course)
    ensures r.lessonIds.Some? && id in r.lessonIds.value
    ensures c.lessonIds.Some? ==> c.lessonIds.value <= r.lessonIds.value
    ensures r.(lessonIds := c.lessonIds) == c
    ensures r.lessonIds == Some(ArrayUnion(c.lessonIds.GetOr([]), id))
  {
    c.(lessonIds := Some(ArrayUnion(c.lessonIds.GetOr([]), id)))
  }

  /** A course whose list had no duplicates lists a newly linked lesson exactly once. */
  lemma LinkListsOnce(c: Course, id: Id)
    requires NoDuplicates(c.lessonIds.GetOr([]))
    ensures NoDuplicates(Link(c, id).lessonIds.value)
    ensures Occurrences(Link(c, id).lessonIds.value, id) == 1
  {
    ArrayUnionKeepsNoDuplicates(c.lessonIds.GetOr([]), id);
  }

  /** Submitting the dialog. Nothing is written unless the schema accepts the values.
      Editing (`editing` holds the lesson's id) merge-writes the lesson and touches no
      course. Creating adds the lesson under a fresh id and then unions that id into
      the course's `lessonIds`; when that second write fails (the course is missing,
      or the store reports an error) the new lesson stays stored and the error is
      reported. `writeFails` and `linkFails` stand for store errors on the first and
      the second write. */
  method Submit(store: Store, v: Values, editing: Option<Id>, courseId: Id, isUrl: string -> bool,
                now: Timestamp, writeFails: bool, linkFails: bool)
    returns (outcome: Outcome)
    modifies store
    ensures store.reviews == old(store.reviews)
    ensures !Accepts(v, isUrl) ==>
              outcome == Rejected && store.lessons == old(store.lessons) && store.courses == old(store.courses)
    ensures Accepts(v, isUrl) && writeFails ==>
              outcome == Failed(WriteFailed) && store.lessons == old(store.lessons) && store.courses == old(store.courses)
    ensures Accepts(v, isUrl) && !writeFails && editing.Some? ==>
              var id := editing.value;
              && outcome == Saved(id)
              && store.lessons == old(store.lessons)[id := Merge(Get(old(store.lessons), id), v, courseId)]
              && store.courses == old(store.courses)
    ensures Accepts(v, isUrl) && !writeFails && editing.None? ==>
              var linked := !linkFails && courseId in old(store.courses);
              && (if linked then outcome.Saved? else outcome.Failed? && outcome.error.CourseUpdateFailed?)
              && var id := if linked then outcome.id else outcome.error.lessonId;
              && id !in old(store.lessons)
              && store.lessons == old(store.lessons)[id := Created(v, courseId, now)]
              && store.courses == if linked then old(store.courses)[courseId := Link(old(store.courses)[courseId], id)]
                                  else old(store.courses)
    ensures Accepts(v, isUrl) && !writeFails && editing.None? ==>
              LinksConsistent(old(store.lessons), old(store.courses)) ==>
                LinksConsistent(store.lessons, store.courses)
    ensures editing.Some? && editing.value in old(store.lessons)
            && old(store.lessons)[editing.value].courseId == courseId ==>
              LinksConsistent(old(store.lessons), old(store.courses)) ==>
                LinksConsistent(store.lessons, store.courses)
  {
    if !Accepts(v, isUrl) {
      return Rejected;
    }
    if writeFails {
      return Failed(WriteFailed);
    }
    if editing.Some? {
      var id := editing.value;
      store.lessons := store.lessons[id := Merge(Get(store.lessons, id), v, courseId)];
      return Saved(id);
    }
    var id := NewId(store.lessons.Keys);
    store.lessons := store.lessons[id := Created(v, courseId, now)];
    if linkFails || courseId !in store.courses {
      outcome := Failed(CourseUpdateFailed(id));
    } else {
      store.courses := store.courses[courseId := Link(store.courses[courseId], id)];
      outcome := Saved(id);
    }
    CreateKeepsLinks(old(store.lessons), old(store.courses), store.lessons, store.courses, id, courseId);
  }

  /** Adding a fresh lesson and possibly linking it to its own course keeps the two
      sides of the relationship in agreement. */
  lemma CreateKeepsLinks(lessons: map<Id, Lesson>, courses: map<Id, Course>,
                         lessons': map<Id, Lesson>, courses': map<Id, Course>, id: Id, courseId: Id)
    requires id !in lessons
    requires lessons'.Keys == lessons.Keys + {id} && lessons'[id].courseId == courseId
    requires forall k :: k in lessons ==> lessons'[k] == lessons[k]
    requires courses' == courses
             || (courseId in courses && courses' == courses[courseId := Link(courses[courseId], id)])
    ensures LinksConsistent(lessons, courses) ==> LinksConsistent(lessons', courses')
  {
    if LinksConsistent(lessons, courses) {
      forall cid, x | cid in courses' && courses'[cid].lessonIds.Some? && x in courses'[cid].lessonIds.value
        ensures x in lessons' && lessons'[x].courseId == cid
      {
        if x != id {
          if cid == courseId && courses' != courses {
            assert x in courses[cid].lessonIds.GetOr([]);
          }
          assert x in courses[cid].lessonIds.value;
        }
      }
    }
  }
}
