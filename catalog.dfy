/** The catalog documents the admin forms write (the `lessons`, `courses` and
    `reviews` collections of the document store), held in memory as maps from
    document id to record, and the two store primitives whose semantics the forms
    rely on: auto-generated ids and `arrayUnion`. */
module Catalog {
  import opened Common

  type Id = string

  /** Milliseconds of `new Date()`; the clock is an input of the model. */
  type Timestamp = nat

  /** A lesson document. `courseId` is "" when the lesson belongs to no course;
      `createdAt` is absent on a lesson first written by a merge. */
  datatype Lesson = Lesson(
    title: string,
    description: string,
    category: string,
    difficulty: string,
    duration: string,
    videoUrl: string,
    thumbnailUrl: string,
    status: string,
    courseId: Id,
    createdAt: Option<Timestamp>)

  /** A course document. `lessonIds` is the ordered list of its lessons; it is
      absent on a course document that was first written by a merge. */
  datatype Course = Course(
    title: string,
    description: string,
    thumbnailUrl: Option<string>,
    lessonIds: Option<seq<Id>>,
    createdAt: Option<Timestamp>)

  datatype Review = Review(
    name: string,
    review: string,
    imageFilename: string,
    createdAt: Option<Timestamp>)

  /** Which write of a submission failed. `CourseUpdateFailed` carries the lesson that
      was already stored when linking it to its course failed. */
  datatype StoreError = WriteFailed | CourseUpdateFailed(lessonId: Id)

  /** What a form submission ends in: the schema rejected the values (nothing is
      written), the document with `id` was saved, or the store reported an error. */
  datatype Outcome = Rejected | Saved(id: Id) | Failed(error: StoreError)

  /** The placeholder image of a lesson or course card. */
  const PlaceholderThumbnail := "https://placehold.co/400x225.png"

  /** Number of times `x` occurs in `s`. */
  function Occurrences(s: seq<Id>, x: Id): nat {
    multiset(s)[x]
  }

  /** The store's `arrayUnion(x)` applied to an array field: `x` is appended unless it
      is already present, in which case the array is left as it is. */
  function ArrayUnion(s: seq<Id>, x: Id): (r: seq<Id>)
    ensures x in r
    ensures s <= r && |r| <= |s| + 1
    ensures forall y :: y in r <==> y in s || y == x
    ensures Occurrences(r, x) == if x in s then Occurrences(s, x) else 1
    ensures x in s ==> r == s
    ensures x !in s ==> r == s + [x]
  {
    if x in s then s else s + [x]
  }

  /** Applying the same union twice changes nothing the second time (a retried create). */
  lemma ArrayUnionIdempotent(s: seq<Id>, x: Id)
    ensures ArrayUnion(ArrayUnion(s, x), x) == ArrayUnion(s, x)
  {
  }

  predicate NoDuplicates(s: seq<Id>) {
    forall i, j :: 0 <= i < j < |s| ==> s[i] != s[j]
  }

  /** A duplicate-free list stays duplicate-free, and then holds `x` exactly once. */
  lemma ArrayUnionKeepsNoDuplicates(s: seq<Id>, x: Id)
    requires NoDuplicates(s)
    ensures NoDuplicates(ArrayUnion(s, x))
    ensures Occurrences(ArrayUnion(s, x), x) == 1
  {
    if x in s {
      var k :| 0 <= k < |s| && s[k] == x;
      assert s == s[..k] + [x] + s[k + 1..];
      assert x !in s[..k] && x !in s[k + 1..];
      assert multiset(s) == multiset(s[..k]) + multiset{x} + multiset(s[k + 1..]);
    }
  }

  /** The course side of the course/lesson relationship agrees with the lesson side:
      every id listed in a course's `lessonIds` names a stored lesson whose `courseId`
      is that course. */
  ghost predicate LinksConsistent(lessons: map<Id, Lesson>, courses: map<Id, Course>) {
    forall cid, id ::
      cid in courses && courses[cid].lessonIds.Some? && id in courses[cid].lessonIds.value ==>
        id in lessons && lessons[id].courseId == cid
  }

  /** A document id not yet used in a collection, as the store's `addDoc` assigns one:
      a string longer than every id in use. */
  method NewId(used: set<Id>) returns (id: Id)
    ensures id !in used
  {
    var longest: nat := 0;
    var rest := used;
    while rest != {}
      invariant rest <= used
      invariant forall u :: u in used && u !in rest ==> |u| <= longest
      decreases |rest|
    {
      var u :| u in rest;
      if |u| > longest {
        longest := |u|;
      }
      rest := rest - {u};
    }
    id := seq(longest + 1, _ => 'x');
  }

  /** The in-memory document store: one map per collection. */
  class Store {
    var lessons: map<Id, Lesson>
    var courses: map<Id, Course>
    var reviews: map<Id, Review>

    constructor ()
      ensures lessons == map[] && courses == map[] && reviews == map[]
    {
      lessons := map[];
      courses := map[];
      reviews := map[];
    }
  }
}
