/** The admin dialog that creates or edits a course: its validation schema, the
    values it opens with and what a submission writes to the store
    (src/components/admin/course-form.tsx). */
module CourseForm {
  import opened Common
  import opened Text
  import opened Catalog

  /** The submitted values; `thumbnailUrl` is optional and may be missing. */
  datatype Values = Values(title: string, description: string, thumbnailUrl: Option<string>)

  datatype Field = Title | Description

  datatype Issue = Issue(field: Field, message: string)

  const TitleTooShort := Issue(Title, "Title must be at least 3 characters.")
  const DescriptionTooShort := Issue(Description, "Description must be at least 10 characters.")

  /** Every message the schema reports for `v`, in field order; the thumbnail
      carries no rule. */
  function Issues(v: Values): (r: seq<Issue>)
    ensures TitleTooShort in r <==> JsLength(v.title) < 3
    ensures DescriptionTooShort in r <==> JsLength(v.description) < 10
    ensures forall i :: i in r ==> i == TitleTooShort || i == DescriptionTooShort
    ensures forall i, j :: 0 <= i < j < |r| ==> r[i] != r[j]
  {
    var title := if JsLength(v.title) >= 3 then [] else [TitleTooShort];
    var description := if JsLength(v.description) >= 10 then [] else [DescriptionTooShort];
    assert forall i :: i in title + description <==> i in title || i in description;
    title + description
  }

  /** The form submits exactly when neither message is shown. */
  predicate Accepts(v: Values)
    ensures Accepts(v) <==> TitleTooShort !in Issues(v) && DescriptionTooShort !in Issues(v)
  {
    var r := Issues(v);
    assert r != [] ==> r[0] in r;
    r == []
  }

  /** A course is accepted exactly when its title has 3 characters and its
      description 10, whatever the thumbnail. */
  lemma AcceptsExactly(v: Values)
    ensures Accepts(v) <==> JsLength(v.title) >= 3 && JsLength(v.description) >= 10
  {
    if !Accepts(v) {
      assert Issues(v)[0] in Issues(v);
    }
  }

  /** The values the dialog shows: those of the course being edited while the dialog
      is open, and blank fields otherwise. */
  function Initial(isOpen: bool, course: Option<Course>): (v: Values)
    ensures isOpen && course.Some? ==> Merge(course, v) == course.value
    ensures isOpen && course.Some? ==> v.thumbnailUrl == course.value.thumbnailUrl
    ensures !(isOpen && course.Some?) ==> v == Values("", "", Some("")) && !Accepts(v)
  {
    if isOpen && course.Some? then
      Values(course.value.title, course.value.description, course.value.thumbnailUrl)
    else
      Values("", "", Some(""))
  }

  /** The record after a merge-write of `v` over what is stored under the course's id:
      title and description replaced, the thumbnail replaced when one was submitted,
      `lessonIds` and the creation time kept; a merge onto a missing document creates
      one without `lessonIds`. */
  function Merge(stored: Option<Course>, v: Values): (c: Course)
    ensures c.title == v.title && c.description == v.description
    ensures v.thumbnailUrl.Some? ==> c.thumbnailUrl == v.thumbnailUrl
    ensures stored.Some? ==> c.lessonIds == stored.value.lessonIds && c.createdAt == stored.value.createdAt
    ensures stored.Some? && v.thumbnailUrl.None? ==> c.thumbnailUrl == stored.value.thumbnailUrl
    ensures stored.None? ==> c.lessonIds.None? && c.createdAt.None?
  {
    match stored
    case Some(prior) =>
      Course(v.title, v.description,
             if v.thumbnailUrl.Some? then v.thumbnailUrl else prior.thumbnailUrl,
             prior.lessonIds, prior.createdAt)
    case None =>
      Course(v.title, v.description, v.thumbnailUrl, None, None)
  }

  /** The record a create writes: the values, an empty lesson list and the creation time. */
  function Created(v: Values, now: Timestamp): (c: Course)
    ensures c.lessonIds == Some([]) && c.createdAt == Some(now)
    ensures c.title == v.title && c.description == v.description && c.thumbnailUrl == v.thumbnailUrl
  {
    Course(v.title, v.description, v.thumbnailUrl, Some([]), Some(now))
  }

  /** Submitting the dialog. Nothing is written unless the schema accepts the values.
      Editing (`editing` holds the course's id) merge-writes that course; creating adds
      one course with no lessons under a fresh id. No lesson or review is touched, and
      no other course changes. `writeFails` stands for a store error. */
  method Submit(store: Store, v: Values, editing: Option<Id>, now: Timestamp, writeFails: bool)
    returns (outcome: Outcome)
    modifies store
    ensures store.lessons == old(store.lessons) && store.reviews == old(store.reviews)
    ensures !Accepts(v) ==> outcome == Rejected && store.courses == old(store.courses)
    ensures Accepts(v) && writeFails ==> outcome == Failed(WriteFailed) && store.courses == old(store.courses)
    ensures Accepts(v) && !writeFails && editing.Some? ==>
              var id := editing.value;
              && outcome == Saved(id)
              && store.courses == old(store.courses)[id := Merge(Get(old(store.courses), id), v)]
              && (id in old(store.courses) ==> |store.courses| == |old(store.courses)|)
    ensures Accepts(v) && !writeFails && editing.None? ==>
              && outcome.Saved? && outcome.id !in old(store.courses)
              && store.courses == old(store.courses)[outcome.id := Created(v, now)]
              && |store.courses| == |old(store.courses)| + 1
    ensures LinksConsistent(old(store.lessons), old(store.courses)) ==>
              LinksConsistent(store.lessons, store.courses)
  {
    if !Accepts(v) {
      return Rejected;
    }
    if writeFails {
      return Failed(WriteFailed);
    }
    if editing.Some? {
      var id := editing.value;
      store.courses := store.courses[id := Merge(Get(store.courses, id), v)];
      outcome := Saved(id);
    } else {
      var id := NewId(store.courses.Keys);
      store.courses := store.courses[id := Created(v, now)];
      outcome := Saved(id);
    }
  }
}
