/** The admin dialog that creates or edits a homepage review: its validation schema,
    the values it opens with and what a submission writes to the store
    (src/components/admin/review-form.tsx). */
module ReviewForm {
  import opened Common
  import opened Text
  import opened Catalog

  datatype Values = Values(name: string, review: string, imageFilename: string)

  datatype Field = Name | ReviewText | ImageFilename

  datatype Issue = Issue(field: Field, message: string)

  const NameTooShort := Issue(Name, "Reviewer name must be at least 2 characters.")
  const TextTooShort := Issue(ReviewText, "Review must be at least 10 characters.")
  const ImageMissing := Issue(ImageFilename, "Image filename is required.")

  /** Every message the schema reports for `v`, in field order. */
  function Issues(v: Values): (r: seq<Issue>)
    ensures NameTooShort in r <==> JsLength(v.name) < 2
    ensures TextTooShort in r <==> JsLength(v.review) < 10
    ensures ImageMissing in r <==> v.imageFilename == ""
    ensures forall i :: i in r ==> i == NameTooShort || i == TextTooShort || i == ImageMissing
    ensures forall i, j :: 0 <= i < j < |r| ==> r[i] != r[j]
  {
    var name := if JsLength(v.name) >= 2 then [] else [NameTooShort];
    var text := if JsLength(v.review) >= 10 then [] else [TextTooShort];
    var image := if JsLength(v.imageFilename) >= 1 then [] else [ImageMissing];
    assert forall i :: i in name + text + image <==> i in name || i in text || i in image;
    name + text + image
  }

  /** The form submits exactly when none of the three messages is shown. */
  predicate Accepts(v: Values)
    ensures Accepts(v) <==> NameTooShort !in Issues(v) && TextTooShort !in Issues(v) && ImageMissing !in Issues(v)
  {
    var r := Issues(v);
    assert r != [] ==> r[0] in r;
    r == []
  }

  /** A review is accepted exactly when the name has 2 characters, the text 10 and
      the image filename at least one. */
  lemma AcceptsExactly(v: Values)
    ensures Accepts(v) <==> JsLength(v.name) >= 2 && JsLength(v.review) >= 10 && v.imageFilename != ""
  {
    if !Accepts(v) {
      assert Issues(v)[0] in Issues(v);
    }
  }

  /** The values the dialog shows: those of the review being edited while the dialog
      is open, and blank fields otherwise. */
  function Initial(isOpen: bool, review: Option<Review>): (v: Values)
    ensures isOpen && review.Some? ==> Merge(review, v) == review.value
    ensures !(isOpen && review.Some?) ==> v == Values("", "", "") && !Accepts(v)
  {
    if isOpen && review.Some? then
      Values(review.value.name, review.value.review, review.value.imageFilename)
    else
      Values("", "", "")
  }

  /** The record after a merge-write of `v` over what is stored under the review's id:
      the three fields replaced, the creation time kept. */
  function Merge(stored: Option<Review>, v: Values): (r: Review)
    ensures r.name == v.name && r.review == v.review && r.imageFilename == v.imageFilename
    ensures r.createdAt == if stored.Some? then stored.value.createdAt else None
  {
    Review(v.name, v.review, v.imageFilename, if stored.Some? then stored.value.createdAt else None)
  }

  function Created(v: Values, now: Timestamp): (r: Review)
    ensures r.name == v.name && r.review == v.review && r.imageFilename == v.imageFilename
    ensures r.createdAt == Some(now)
  {
    Review(v.name, v.review, v.imageFilename, Some(now))
  }

  /** Submitting the dialog. Nothing is written unless the schema accepts the values.
      Editing merge-writes the review with that id; creating adds one review under a
      fresh id. No other review, and no lesson or course, changes. */
  method Submit(store: Store, v: Values, editing: Option<Id>, now: Timestamp, writeFails: bool)
    returns (outcome: Outcome)
    modifies store
    ensures store.lessons == old(store.lessons) && store.courses == old(store.courses)
    ensures !Accepts(v) ==> outcome == Rejected && store.reviews == old(store.reviews)
    ensures Accepts(v) && writeFails ==> outcome == Failed(WriteFailed) && store.reviews == old(store.reviews)
    ensures Accepts(v) && !writeFails && editing.Some? ==>
              var id := editing.value;
              && outcome == Saved(id)
              && store.reviews == old(store.reviews)[id := Merge(Get(old(store.reviews), id), v)]
              && (id in old(store.reviews) ==> |store.reviews| == |old(store.reviews)|)
    ensures Accepts(v) && !writeFails && editing.None? ==>
              && outcome.Saved? && outcome.id !in old(store.reviews)
              && store.reviews == old(store.reviews)[outcome.id := Created(v, now)]
              && |store.reviews| == |old(store.reviews)| + 1
  {
    if !Accepts(v) {
      return Rejected;
    }
    if writeFails {
      return Failed(WriteFailed);
    }
    if editing.Some? {
      var id := editing.value;
      store.reviews := store.reviews[id := Merge(Get(store.reviews, id), v)];
      outcome := Saved(id);
    } else {
      var id := NewId(store.reviews.Keys);
      store.reviews := store.reviews[id := Created(v, now)];
      outcome := Saved(id);
    }
  }
}
