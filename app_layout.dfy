/** The signed-in page frame: which sidebar link is highlighted, the page title taken
    from the address path, and the sidebar links for each role
    (src/components/layout/app-layout.tsx). */
module AppLayout {
  import opened Common
  import opened Text

  /** `s.split('/')`: the pieces between slashes, empty pieces included. */
  function Split(s: string): (r: seq<string>)
    ensures |r| >= 1
    ensures forall piece :: piece in r ==> '/' !in piece
  {
    if s == [] then [[]]
    else
      var rest := Split(s[1..]);
      if s[0] == '/' then [[]] + rest
      else
        assert forall piece :: piece in rest[1..] ==> piece in rest;
        [[s[0]] + rest[0]] + rest[1..]
  }

  /** `pieces.join('/')`. */
  function Join(pieces: seq<string>): string
    requires |pieces| >= 1
  {
    if |pieces| == 1 then pieces[0] else pieces[0] + "/" + Join(pieces[1..])
  }

  /** Joining the pieces again gives back the path. */
  lemma {:induction false} JoinSplit(s: string)
    ensures Join(Split(s)) == s
  {
    if s != [] {
      JoinSplit(s[1..]);
      var rest := Split(s[1..]);
      if s[0] != '/' {
        if |rest| > 1 {
          assert Split(s)[1..] == rest[1..];
          assert Join(Split(s)) == [s[0]] + rest[0] + "/" + Join(rest[1..]);
        }
        assert s == [s[0]] + s[1..];
      } else {
        assert s == "/" + s[1..];
      }
    }
  }

  /** Splitting at a slash splits the two sides separately. */
  lemma {:induction false} SplitAppend(a: string, b: string)
    ensures Split(a + "/" + b) == Split(a) + Split(b)
  {
    if a == [] {
      assert a + "/" + b == "/" + b;
      assert ("/" + b)[1..] == b;
    } else {
      assert (a + "/" + b)[1..] == a[1..] + "/" + b;
      SplitAppend(a[1..], b);
    }
  }

  lemma {:induction false} SplitWithoutSlash(s: string)
    requires '/' !in s
    ensures Split(s) == [s]
  {
    if s != [] {
      SplitWithoutSlash(s[1..]);
      assert [s[0]] + s[1..] == s;
    }
  }

  /** Pieces without slashes come back unchanged from joining and splitting. */
  lemma {:induction false} SplitJoin(pieces: seq<string>)
    requires |pieces| >= 1
    requires forall i :: 0 <= i < |pieces| ==> '/' !in pieces[i]
    ensures Split(Join(pieces)) == pieces
  {
    SplitWithoutSlash(pieces[0]);
    if |pieces| > 1 {
      SplitJoin(pieces[1..]);
      SplitAppend(pieces[0], Join(pieces[1..]));
      assert [pieces[0]] + pieces[1..] == pieces;
    }
  }

  /** `.filter(Boolean)` on the pieces: the non-empty ones, in order. */
  function NonEmpty(pieces: seq<string>): (r: seq<string>)
    ensures forall piece :: piece in r <==> piece in pieces && piece != ""
    ensures IsSubsequence(r, pieces)
    ensures forall piece :: multiset(r)[piece] == if piece == "" then 0 else multiset(pieces)[piece]
  {
    if pieces == [] then []
    else
      var rest := NonEmpty(pieces[1..]);
      assert pieces == [pieces[0]] + pieces[1..];
      assert multiset(pieces) == multiset{pieces[0]} + multiset(pieces[1..]);
      if pieces[0] == "" then
        SubsequenceWiden(rest, pieces[0], pieces[1..]);
        rest
      else
        assert ([pieces[0]] + rest)[1..] == rest;
        [pieces[0]] + rest
  }

  lemma {:induction false} NonEmptyAppend(a: seq<string>, b: seq<string>)
    ensures NonEmpty(a + b) == NonEmpty(a) + NonEmpty(b)
  {
    if a != [] {
      assert (a + b)[1..] == a[1..] + b;
      NonEmptyAppend(a[1..], b);
    } else {
      assert a + b == b;
    }
  }

  /** The non-empty segments of a path. */
  function Segments(path: string): (r: seq<string>)
    ensures forall i :: 0 <= i < |r| ==> r[i] != "" && '/' !in r[i]
  {
    var r := NonEmpty(Split(path));
    assert forall i :: 0 <= i < |r| ==> r[i] in r;
    r
  }

  /** A path without slashes is one segment, or none when it is empty. */
  lemma SegmentsWithoutSlash(s: string)
    requires '/' !in s
    ensures Segments(s) == if s == "" then [] else [s]
  {
    SplitWithoutSlash(s);
  }

  /** The segments of two paths joined by a slash are those of the first followed by
      those of the second. */
  lemma SegmentsAppend(a: string, b: string)
    ensures Segments(a + "/" + b) == Segments(a) + Segments(b)
  {
    SplitAppend(a, b);
    NonEmptyAppend(Split(a), Split(b));
  }

  /** Leading, trailing and repeated slashes do not change the segments. */
  lemma ExtraSlashesIgnored(a: string, b: string)
    ensures Segments("/" + b) == Segments(b)
    ensures Segments(a + "/") == Segments(a)
    ensures Segments(a + "//" + b) == Segments(a + "/" + b)
  {
    SegmentsAppend("", b);
    assert "" + "/" + b == "/" + b;
    SegmentsAppend(a, "");
    assert a + "/" + "" == a + "/";
    SegmentsAppend(a, "/" + b);
    assert a + "/" + ("/" + b) == a + "//" + b;
    SegmentsAppend(a, b);
  }

  /** `segment.charAt(0).toUpperCase() + segment.slice(1).replace('-', ' ')`. */
  function Capitalize(segment: string): (r: string)
    requires segment != ""
    ensures |r| == |segment| && r[0] == UpperChar(segment[0])
    ensures r[1..] == ReplaceFirst(segment[1..], '-', ' ')
  {
    [UpperChar(segment[0])] + ReplaceFirst(segment[1..], '-', ' ')
  }

  /** The header title for the current path. */
  function PageTitle(pathname: string): (t: string)
    ensures Segments(pathname) == [] ==> t == "Dashboard"
    ensures var segs := Segments(pathname);
            |segs| > 2 && segs[0] in {"lessons", "courses"} ==>
              t == if segs[0] == "lessons" then "Lesson Details" else "Course Details"
    ensures var segs := Segments(pathname);
            segs != [] && !(|segs| > 2 && segs[0] in {"lessons", "courses"}) ==>
              |t| == |segs[0]| && t[0] == UpperChar(segs[0][0])
              && t[1..] == ReplaceFirst(segs[0][1..], '-', ' ')
  {
    var segs := Segments(pathname);
    if segs == [] then "Dashboard"
    else
      var segment := segs[0];
      if segment == "lessons" && |segs| > 2 then "Lesson Details"
      else if segment == "courses" && |segs| > 2 then "Course Details"
      else Capitalize(segment)
  }

  /** The title ignores leading, trailing and repeated slashes. */
  lemma PageTitleIgnoresExtraSlashes(a: string, b: string)
    ensures PageTitle("/" + b) == PageTitle(b)
    ensures PageTitle(a + "/") == PageTitle(a)
    ensures PageTitle(a + "//" + b) == PageTitle(a + "/" + b)
  {
    ExtraSlashesIgnored(a, b);
    SameSegmentsSameTitle("/" + b, b);
    SameSegmentsSameTitle(a + "/", a);
    SameSegmentsSameTitle(a + "//" + b, a + "/" + b);
  }

  /** The title depends on the path only through its segments. */
  lemma SameSegmentsSameTitle(p: string, q: string)
    requires Segments(p) == Segments(q)
    ensures PageTitle(p) == PageTitle(q)
  {
  }

  /** Whether the sidebar link to `path` is highlighted on `pathname`: the dashboard
      link only on the dashboard itself, every other link on any path it is a prefix of. */
  function IsActive(pathname: string, path: string): (b: bool)
    ensures path == "/dashboard" ==> (b <==> pathname == "/dashboard")
    ensures path != "/dashboard" ==> (b <==> path <= pathname)
  {
    if path == "/dashboard" then pathname == path else StartsWith(pathname, path)
  }

  /** A non-dashboard link stays highlighted on every path below it, and on any other
      path that merely starts with the same characters. */
  lemma IsActiveExtends(pathname: string, path: string, suffix: string)
    requires path != "/dashboard" && IsActive(pathname, path)
    ensures IsActive(pathname + suffix, path)
  {
    assert (pathname + suffix)[..|path|] == pathname[..|path|];
  }

  lemma CoursesLinkPrefixMatch()
    ensures IsActive("/courses/1", "/courses")
    ensures IsActive("/coursesX", "/courses")
    ensures !IsActive("/dashboard/x", "/dashboard")
  {
    assert "/courses" <= "/courses/1";
    assert "/courses" <= "/coursesX";
  }

  datatype NavLink = NavLink(href: string, text: string)

  const AdminLinks := [
    NavLink("/dashboard", "Dashboard"), NavLink("/users", "Users"), NavLink("/courses", "Courses"),
    NavLink("/lessons", "Lessons"), NavLink("/analytics", "Analytics"), NavLink("/forums", "Forums")]

  const LearnerLinks := [
    NavLink("/dashboard", "Dashboard"), NavLink("/courses", "Courses"),
    NavLink("/lessons", "Lessons"), NavLink("/forums", "Forums")]

  function NavLinks(isAdmin: bool): (links: seq<NavLink>)
    ensures links != [] && links[0] == NavLink("/dashboard", "Dashboard")
  {
    if isAdmin then AdminLinks else LearnerLinks
  }

  /** An administrator sees every learner link, in the same order, plus extra ones. */
  lemma AdminSeesLearnerLinks()
    ensures IsSubsequence(NavLinks(false), NavLinks(true))
    ensures |NavLinks(false)| < |NavLinks(true)|
  {
    assert AdminLinks[1..][1..] == AdminLinks[2..];
    assert LearnerLinks[1..][1..] == LearnerLinks[2..];
  }
}
