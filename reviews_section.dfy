/** The reviews carousel of the landing page: the avatar address of a reviewer and
    whether the section is shown (src/components/landing/reviews-section.tsx). */
module ReviewsSection {
  import opened Common
  import opened Text

  /** The avatar address: none for a missing or empty filename, otherwise the public
      PNG file of that name. */
  function AvatarUrl(imageFilename: Option<string>): (r: string)
    ensures imageFilename.None? || imageFilename == Some("") ==> r == ""
    ensures imageFilename.Some? && imageFilename.value != "" ==>
              |r| == |imageFilename.value| + 5 && StartsWith(r, "/") && FileName(r) == imageFilename.value
    ensures imageFilename.Some? && imageFilename.value != "" ==> r == "/" + imageFilename.value + ".png"
  {
    match imageFilename
    case None => ""
    case Some(f) =>
      if f == "" then ""
      else
        var r := "/" + f + ".png";
        assert r[1..|r| - 4] == f;
        r
  }

  /** The filename inside an avatar address: the address without its leading "/" and
      its trailing ".png". */
  function FileName(url: string): string
    requires |url| >= 5
  {
    url[1..|url| - 4]
  }

  /** Distinct filenames give distinct avatars. */
  lemma AvatarUrlInjective(f: string, g: string)
    requires f != "" && g != "" && f != g
    ensures AvatarUrl(Some(f)) != AvatarUrl(Some(g))
  {
  }

  /** What the section renders: placeholders while the first snapshot is awaited,
      nothing when there are no reviews, and the carousel otherwise. */
  datatype View<R> = Skeleton | Hidden | Carousel(reviews: seq<R>)

  function Render<R>(loading: bool, reviews: seq<R>): (v: View<R>)
    ensures loading <==> v.Skeleton?
    ensures !loading && reviews == [] <==> v.Hidden?
    ensures v.Carousel? ==> v.reviews == reviews && reviews != []
  {
    if loading then Skeleton
    else if reviews == [] then Hidden
    else Carousel(reviews)
  }
}
