/** What the learner dashboard derives from the learner's progress records and the
    catalog: the two statistics, the recent-scores chart, the "continue learning"
    suggestion and the thumbnail address (src/components/dashboard/user-dashboard.tsx).
    The progress list is given newest first, as the store query orders it. */
module UserDashboard {
  import opened Common
  import opened Text
  import opened Catalog

  /** One completed quiz: the lesson it belongs to and the number of correct answers. */
  datatype Progress = Progress(lessonId: Id, score: int)

  datatype Stats = Stats(lessonsCompleted: nat, totalLessons: nat, averageScore: int)

  datatype ChartEntry = ChartEntry(lesson: string, score: int)

  const ChartWindow := 7

  const ListThumbnail := "https://placehold.co/120x67.png"

  /** The `reduce` that adds up the scores. */
  function TotalScore(progress: seq<Progress>): (r: int)
    ensures progress == [] ==> r == 0
    ensures (forall i :: 0 <= i < |progress| ==> progress[i].score >= 0) ==> r >= 0
  {
    if progress == [] then 0 else progress[0].score + TotalScore(progress[1..])
  }

  /** The total of two runs of records is the sum of their totals, so the order in
      which `reduce` visits the records does not matter for the statistics. */
  lemma {:induction false} TotalScoreAppend(a: seq<Progress>, b: seq<Progress>)
    ensures TotalScore(a + b) == TotalScore(a) + TotalScore(b)
  {
    if a != [] {
      assert (a + b)[1..] == a[1..] + b;
      TotalScoreAppend(a[1..], b);
    } else {
      assert a + b == b;
    }
  }

  /** `Math.round(num / den)`: the nearest integer, halves rounded up. */
  function RoundHalfUp(num: int, den: int): (r: int)
    requires den > 0
    ensures 2 * den * r <= 2 * num + den < 2 * den * (r + 1)
  {
    (2 * num + den) / (2 * den)
  }

  function AverageScore(progress: seq<Progress>): int {
    if |progress| > 0 then RoundHalfUp(TotalScore(progress), |progress|) else 0
  }

  function ComputeStats(progress: seq<Progress>, lessons: map<Id, Lesson>): (s: Stats)
    ensures s.lessonsCompleted == |progress| && s.totalLessons == |lessons|
    ensures progress == [] ==> s.averageScore == 0
    ensures progress != [] ==> s.averageScore == RoundHalfUp(TotalScore(progress), |progress|)
  {
    Stats(|progress|, |lessons|, AverageScore(progress))
  }

  lemma {:induction false} TotalScoreBounds(progress: seq<Progress>, hi: int)
    requires forall p :: p in progress ==> 0 <= p.score <= hi
    ensures 0 <= TotalScore(progress) <= |progress| * hi
  {
    if progress != [] {
      TotalScoreBounds(progress[1..], hi);
    }
  }

  lemma LessByFactor(a: int, b: int, d: int)
    requires d > 0 && d * a < d * b
    ensures a < b
  {
    assert d * (b - a) == d * b - d * a;
  }

  /** Rounding an average of values between `lo` and `hi` stays between them. */
  lemma RoundHalfUpBetween(num: int, den: int, lo: int, hi: int)
    requires den > 0 && den * lo <= num <= den * hi
    ensures lo <= RoundHalfUp(num, den) <= hi
  {
    var r := RoundHalfUp(num, den);
    assert 2 * den * (hi + 1) == 2 * (den * hi) + 2 * den;
    assert 2 * den * r < 2 * den * (hi + 1);
    LessByFactor(r, hi + 1, 2 * den);
    assert 2 * den * (r + 1) > 2 * (den * lo) + den;
    assert 2 * (den * lo) == 2 * den * lo;
    LessByFactor(lo, r + 1, 2 * den);
  }

  /** With every score between 0 and `hi`, the average shown is between 0 and `hi` too. */
  lemma AverageScoreBounds(progress: seq<Progress>, hi: nat)
    requires forall p :: p in progress ==> 0 <= p.score <= hi
    ensures 0 <= AverageScore(progress) <= hi
  {
    if |progress| > 0 {
      TotalScoreBounds(progress, hi);
      RoundHalfUpBetween(TotalScore(progress), |progress|, 0, hi);
    }
  }

  lemma {:induction false} TotalOfEqualScores(progress: seq<Progress>, score: int)
    requires forall p :: p in progress ==> p.score == score
    ensures TotalScore(progress) == |progress| * score
  {
    if progress != [] {
      TotalOfEqualScores(progress[1..], score);
    }
  }

  /** When every quiz had the same score, that score is the average. */
  lemma AverageOfEqualScores(progress: seq<Progress>, score: int)
    requires progress != []
    requires forall p :: p in progress ==> p.score == score
    ensures AverageScore(progress) == score
  {
    TotalOfEqualScores(progress, score);
    RoundHalfUpBetween(TotalScore(progress), |progress|, score, score);
  }

  /** The chart label of one record: the lesson's title, or "Unknown" when the lesson
      no longer exists. */
  function EntryFor(p: Progress, lessons: map<Id, Lesson>): ChartEntry {
    ChartEntry(if p.lessonId in lessons then lessons[p.lessonId].title else "Unknown", p.score)
  }

  function Entries(progress: seq<Progress>, lessons: map<Id, Lesson>): seq<ChartEntry> {
    seq(|progress|, i requires 0 <= i < |progress| => EntryFor(progress[i], lessons))
  }

  /** The bars of the chart: the (at most) seven newest records, oldest first. Bar `k`
      (counting from the left) is the record `n - 1 - k` of the newest-first list,
      labelled by its lesson's title or "Unknown", with the record's own score. */
  function ChartData(progress: seq<Progress>, lessons: map<Id, Lesson>): (r: seq<ChartEntry>)
    ensures |r| == Min(ChartWindow, |progress|) <= ChartWindow
    ensures forall k :: 0 <= k < |r| ==>
              var p := progress[|r| - 1 - k];
              && r[k].score == p.score
              && r[k].lesson == if p.lessonId in lessons then lessons[p.lessonId].title else "Unknown"
  {
    var e := Entries(progress[..Min(ChartWindow, |progress|)], lessons);
    ReverseLength(e);
    assert forall k :: 0 <= k < |e| ==> Reverse(e)[k] == e[|e| - 1 - k] by {
      forall k | 0 <= k < |e| {
        ReverseAt(e, k);
      }
    }
    Reverse(e)
  }

  function CompletedIds(progress: seq<Progress>): set<Id> {
    set p | p in progress :: p.lessonId
  }

  /** `lessonIds.find(id => !completed.has(id))`: the first id of the course that is not
      completed, if there is one. */
  function NextLessonId(lessonIds: seq<Id>, completed: set<Id>): (r: Option<Id>)
    ensures r.None? <==> forall id :: id in lessonIds ==> id in completed
    ensures r.Some? ==> exists k :: 0 <= k < |lessonIds| && lessonIds[k] == r.value
                                   && r.value !in completed
                                   && forall j :: 0 <= j < k ==> lessonIds[j] in completed
  {
    if lessonIds == [] then None
    else if lessonIds[0] !in completed then Some(lessonIds[0])
    else
      var r := NextLessonId(lessonIds[1..], completed);
      assert forall id :: id in lessonIds ==> id == lessonIds[0] || id in lessonIds[1..];
      if r.Some? then
        var k :| 0 <= k < |lessonIds[1..]| && lessonIds[1..][k] == r.value && r.value !in completed
                 && forall j :: 0 <= j < k ==> lessonIds[1..][j] in completed;
        assert lessonIds[k + 1] == r.value;
        assert forall j :: 0 <= j < k + 1 ==> lessonIds[j] in completed by {
          forall j | 0 <= j < k + 1 ensures lessonIds[j] in completed {
            if j > 0 {
              assert lessonIds[j] == lessonIds[1..][j - 1];
            }
          }
        }
        r
      else
        r
  }

  /** The lesson the "continue learning" card shows, if any. With progress: the course of
      the most recently completed lesson is looked up, and its first not-yet-completed
      lesson is shown when that lesson still exists. Without progress: the first lesson
      of the first course is shown when the course lists one and it exists. A course
      document without `lessonIds` yields no suggestion. */
  function ContinueLearning(progress: seq<Progress>, lessons: map<Id, Lesson>,
                            courses: map<Id, Course>, firstCourse: Option<Course>): (r: Option<Id>)
    ensures r.Some? ==> r.value in lessons
    ensures progress != [] && r.Some? ==> r.value !in CompletedIds(progress)
    ensures progress != [] ==>
              var last := progress[0].lessonId;
              if last in lessons && lessons[last].courseId != "" && lessons[last].courseId in courses
                 && courses[lessons[last].courseId].lessonIds.Some?
              then
                var next := NextLessonId(courses[lessons[last].courseId].lessonIds.value, CompletedIds(progress));
                r == if next.Some? && next.value in lessons then next else None
              else r == None
    ensures progress == [] ==> r == match firstCourse
                                    case Some(c) =>
                                      if c.lessonIds.Some? && c.lessonIds.value != [] && c.lessonIds.value[0] in lessons
                                      then Some(c.lessonIds.value[0]) else None
                                    case None => None
  {
    if progress != [] then
      var last := progress[0].lessonId;
      if last in lessons && lessons[last].courseId != "" && lessons[last].courseId in courses then
        var course := courses[lessons[last].courseId];
        if course.lessonIds.Some? then
          var next := NextLessonId(course.lessonIds.value, CompletedIds(progress));
          if next.Some? && next.value in lessons then next else None
        else None
      else None
    else
      match firstCourse
      case Some(c) =>
        if c.lessonIds.Some? && c.lessonIds.value != [] && c.lessonIds.value[0] in lessons
        then Some(c.lessonIds.value[0]) else None
      case None => None
  }

  /** With progress, a suggestion is a lesson of the course of the most recently
      completed lesson, and every lesson listed before it in that course is completed. */
  lemma SuggestionIsNextInCourse(progress: seq<Progress>, lessons: map<Id, Lesson>,
                                 courses: map<Id, Course>, firstCourse: Option<Course>)
    requires progress != []
    requires ContinueLearning(progress, lessons, courses, firstCourse).Some?
    ensures var last := progress[0].lessonId;
            && last in lessons && lessons[last].courseId in courses
            && var ids := courses[lessons[last].courseId].lessonIds;
            && ids.Some?
            && var next := ContinueLearning(progress, lessons, courses, firstCourse).value;
            exists k :: 0 <= k < |ids.value| && ids.value[k] == next
                        && forall j :: 0 <= j < k ==> ids.value[j] in CompletedIds(progress)
  {
  }

  /** The outcome of the "continue learning" lookup as the component is written: a
      suggestion, none, or a thrown error that leaves the dashboard loading for good. */
  datatype Suggestion = Suggest(id: Id) | NoSuggestion | Crashed

  /** The lookup exactly as written: the branch with progress reads `lessonIds` of the
      course without checking that the field exists. */
  function ContinueLearningAsWritten(progress: seq<Progress>, lessons: map<Id, Lesson>,
                                     courses: map<Id, Course>, firstCourse: Option<Course>): (r: Suggestion)
    ensures r.Crashed? ==> progress != []
    ensures r.Suggest? ==> r.id in lessons
  {
    if progress != [] then
      var last := progress[0].lessonId;
      if last in lessons && lessons[last].courseId != "" && lessons[last].courseId in courses then
        var course := courses[lessons[last].courseId];
        if course.lessonIds.None? then Crashed
        else
          var next := NextLessonId(course.lessonIds.value, CompletedIds(progress));
          if next.Some? && next.value in lessons then Suggest(next.value) else NoSuggestion
      else NoSuggestion
    else
      match firstCourse
      case Some(c) =>
        if c.lessonIds.Some? && c.lessonIds.value != [] && c.lessonIds.value[0] in lessons
        then Suggest(c.lessonIds.value[0]) else NoSuggestion
      case None => NoSuggestion
  }

  /** A learner whose last lesson belongs to a course document without `lessonIds` makes
      the lookup as written throw. */
  lemma MissingLessonIdsCrashes()
    ensures var lesson := Lesson("Intro", "", "Grammar", "Beginner", "5 min", "", "", "active", "c1", None);
            var course := Course("Basics", "", None, None, None);
            ContinueLearningAsWritten([Progress("l1", 1)], map["l1" := lesson], map["c1" := course], None) == Crashed
  {
  }

  /** Wherever the lookup as written does not throw, it agrees with `ContinueLearning`,
      which reads the missing list as "no suggestion". */
  lemma ContinueLearningAgrees(progress: seq<Progress>, lessons: map<Id, Lesson>,
                               courses: map<Id, Course>, firstCourse: Option<Course>)
    ensures var r := ContinueLearningAsWritten(progress, lessons, courses, firstCourse);
            match r
            case Suggest(id) => ContinueLearning(progress, lessons, courses, firstCourse) == Some(id)
            case NoSuggestion => ContinueLearning(progress, lessons, courses, firstCourse) == None
            case Crashed => ContinueLearning(progress, lessons, courses, firstCourse) == None
  {
  }

  /** The thumbnail address of the suggested lesson. */
  function ThumbnailUrl(thumbnailUrl: Option<string>): (r: string)
    ensures thumbnailUrl.None? || thumbnailUrl == Some("") ==> r == ListThumbnail
    ensures thumbnailUrl.Some? && thumbnailUrl.value != "" && StartsWith(thumbnailUrl.value, "http") ==>
              r == thumbnailUrl.value
    ensures thumbnailUrl.Some? && thumbnailUrl.value != "" && !StartsWith(thumbnailUrl.value, "http") ==>
              r == "/" + thumbnailUrl.value + ".png"
  {
    match thumbnailUrl
    case None => ListThumbnail
    case Some(t) =>
      if t == "" then ListThumbnail
      else if StartsWith(t, "http") then t
      else "/" + t + ".png"
  }
}
