/** The featured-courses strip of the landing page: the thumbnail address of a course
    card and its lesson count (src/components/landing/featured-courses.tsx). */
module FeaturedCourses {
  import opened Common
  import opened Text
  import opened Catalog

  /** The card's image address, with the guard exactly as the component writes it:
      an absent or empty thumbnail, or one starting with "http" or with the placeholder
      host, is used as it is (the empty case falling back to the placeholder); any other
      value names a public image file. */
  function ThumbnailUrl(thumbnailUrl: Option<string>): (r: string)
    ensures thumbnailUrl.None? || thumbnailUrl == Some("") ==> r == PlaceholderThumbnail
    ensures thumbnailUrl.Some? && thumbnailUrl.value != "" && StartsWith(thumbnailUrl.value, "http") ==>
              r == thumbnailUrl.value
    ensures thumbnailUrl.Some? && thumbnailUrl.value != "" && !StartsWith(thumbnailUrl.value, "http") ==>
              r == "/" + thumbnailUrl.value + ".png"
  {
    var t := thumbnailUrl.GetOr("");
    if t == "" || StartsWith(t, "http") || StartsWith(t, "https://placehold.co") then
      (if t != "" then t else PlaceholderThumbnail)
    else
      "/" + t + ".png"
  }

  /** The same address without the placeholder-host test. */
  function SimpleThumbnailUrl(thumbnailUrl: Option<string>): string {
    var t := thumbnailUrl.GetOr("");
    if t == "" then PlaceholderThumbnail
    else if StartsWith(t, "http") then t
    else "/" + t + ".png"
  }

  /** The placeholder-host test never decides anything: every string starting with
      "https://placehold.co" already starts with "http". */
  lemma PlaceholderTestRedundant(thumbnailUrl: Option<string>)
    ensures ThumbnailUrl(thumbnailUrl) == SimpleThumbnailUrl(thumbnailUrl)
  {
    var t := thumbnailUrl.GetOr("");
    if StartsWith(t, "https://placehold.co") {
      assert t[..4] == "https://placehold.co"[..4];
    }
  }

  /** `course.lessonIds?.length || 0`: the number of listed lessons, 0 when the list
      is missing. */
  function LessonCount(lessonIds: Option<seq<string>>): (n: nat)
    ensures lessonIds.None? ==> n == 0
    ensures lessonIds.Some? ==> n == |lessonIds.value|
  {
    match lessonIds
    case Some(ids) => |ids|
    case None => 0
  }
}
