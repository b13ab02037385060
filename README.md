# UKMERIT32 catalog and dashboard logic in Dafny

UKMERIT32 is an English-learning web application. Administrators edit a catalog of
lessons, courses and reviews through dialog forms. Learners see a dashboard with their
progress, a chart of recent scores and a "continue learning" suggestion. Landing pages
show featured courses and reviews. The signed-in pages share a layout that picks the
page title and the highlighted sidebar link from the address path.

This project models the decision logic of those components. Every rendering concern
is left out.

- `Catalog` (catalog.dfy): the lesson, course and review documents, and the document store
  as a class with one map per collection. It also holds the two store primitives
  the forms rely on. `NewId` gives auto-generated document ids. `ArrayUnion` is
  `arrayUnion` on an array field.
- `LessonForm`, `CourseForm`, `ReviewForm`: each form has four parts.
  - Its validation schema. The field checks and the exact messages of the source.
  - The values the form is reset to: for the course and review forms whenever the dialog
    opens, and for the lesson form whenever the edited lesson changes.
  - The documents written on submit. A merge write replaces the written fields and keeps
    the others.
  - The submit handler, a method on the store.

  The lesson form's create path adds a lesson and then appends its id to the course's
  `lessonIds`. It is proved to keep the course/lesson links consistent. A failure of
  either store write is an input of the method. When the second write fails, the lesson
  stays stored without a link. The model reports this as `CourseUpdateFailed`.
- `UserDashboard`: the statistics (count, total, `Math.round` of the mean), the chart
  of the seven most recent scores in chronological order, the "continue learning"
  suggestion and the thumbnail address.
- `FeaturedCourses`, `ReviewsSection`: the image-address helpers, the lesson count,
  and the choice between skeleton, nothing and carousel.
- `AppLayout`: `split('/')`/`filter(Boolean)` on the path, the page title, the active-link
  rule and the two sidebar link lists.
- `Combobox`: filtering options by a case-insensitive substring, the trigger label,
  the check mark and the select/create toggling, with the popover state as a class.
- `Common`, `Text`: an option type, reversal, subsequences, and string length in code units, ASCII case mapping,
  substring search and single-character replacement as JavaScript defines them.

Some behaviour of the source worth stating plainly:
- Saving a lesson does not create a category.
- The lesson form writes the `courseId` it is given into the lesson. An edit never moves
  the lesson's id between course lists.
- The admin video page (src/app/(app)/admin/videos/page.tsx:105-110) renders the lesson
  form without a `courseId`, so its edits and creates write an undefined `courseId`.
  The course page (src/app/(app)/admin/courses/[id]/page.tsx:92) passes its own id.
- No cascade on delete appears in these components.
- The dashboard's `lessonIds.find` throws on a course without `lessonIds`. This is
  logged under Findings, and the rest of the model uses the intended behaviour.
- The length rules of the schemas count JavaScript code units, so the model measures
  lengths with `Text.JsLength`.

## Model

| member | source | states |
|---|---|---|
| Catalog.ArrayUnion | src/components/admin/lesson-form.tsx:102-105 | A present id leaves the list unchanged, and an absent one is appended at the end. So the union contains the id, keeps the old list as a prefix and grows by at most one. Its members are exactly the old ones plus the id. |
| Catalog.ArrayUnionIdempotent | src/components/admin/lesson-form.tsx:103-105 | A second union of the same id changes nothing. |
| Catalog.ArrayUnionKeepsNoDuplicates | src/components/admin/lesson-form.tsx:103-105 | A duplicate-free list stays duplicate-free and then holds the id exactly once. |
| Catalog.NewId | src/components/admin/lesson-form.tsx:95-99 | `addDoc` assigns an id that no document of the collection uses yet. |
| Catalog.Store.constructor | src/components/admin/lesson-form.tsx:90-104 | The store starts with the three collections empty. |
| LessonForm.Issues | src/components/admin/lesson-form.tsx:32-41 | The fields reported are exactly those whose schema check fails: title under 3 code units, description under 10, empty category, difficulty or duration, a non-empty video or thumbnail address that is not a URL, a status other than active/disabled. Each field is reported at most once, with the schema's own message (`Message`). |
| LessonForm.IssuesFor | src/components/admin/lesson-form.tsx:32-41 | The messages follow the order of the fields. Each reported field is one of them and breaks its rule, and every breaking field is reported once. |
| LessonForm.TitleLengthInCodeUnits | src/components/admin/lesson-form.tsx:33 | A title of two characters outside the Basic Multilingual Plane (four code units) passes the three-character minimum. |
| LessonForm.Message | src/components/admin/lesson-form.tsx:33-40 | The message of each field. Both URL fields show "Please enter a valid URL.", and the status message ends by quoting the value received. |
| LessonForm.Accepts | src/components/admin/lesson-form.tsx:32-41 | The form submits exactly when every field satisfies its rule. |
| LessonForm.AcceptsExactly | src/components/admin/lesson-form.tsx:32-41 | The schema accepts the values if and only if all eight conditions hold, with lengths in code units. |
| LessonForm.Initial | src/components/admin/lesson-form.tsx:68-83 | For an edited lesson, the form starts from its stored fields, and saving them unchanged gives back the stored lesson. For a new lesson, every field is blank except difficulty "Beginner", status "active" and the 400x225 placeholder thumbnail. |
| LessonForm.BlankFormIssues | src/components/admin/lesson-form.tsx:72-81 | The blank form for a new lesson fails exactly on title, description, category and duration. |
| LessonForm.Merge | src/components/admin/lesson-form.tsx:88-91 | The merge write stores the form values and the dialog's course id and keeps the stored creation time. |
| LessonForm.Created | src/components/admin/lesson-form.tsx:95-99 | A new lesson holds the form values, the course id and the submit time. |
| LessonForm.Link | src/components/admin/lesson-form.tsx:101-105 | The new list is `ArrayUnion` of the old list, or of the empty list when it is missing. So it holds the lesson id and keeps the old list as a prefix. No other field changes. |
| LessonForm.LinkListsOnce | src/components/admin/lesson-form.tsx:102-105 | After linking, a duplicate-free list holds the lesson exactly once. |
| LessonForm.Submit | src/components/admin/lesson-form.tsx:86-119 | Rejected values write nothing. A failed first write changes nothing. An edit merges into the lesson and touches no course. A create stores a new lesson under a fresh id, then links it to its course. Reviews never change. When the link write fails, or the course does not exist, the stored lesson's id is reported. Creating keeps the course/lesson links consistent, and so does editing a lesson within its own course. |
| LessonForm.CreateKeepsLinks | src/components/admin/lesson-form.tsx:95-105 | Storing a new lesson under an unused id and linking it to its course preserves link consistency. |
| CourseForm.Issues | src/components/admin/course-form.tsx:24-28 | The two messages are reported exactly when the title is under 3 or the description under 10 code units. There are no others, and none is repeated. |
| CourseForm.Accepts | src/components/admin/course-form.tsx:24-28 | The form submits exactly when neither message is shown. |
| CourseForm.AcceptsExactly | src/components/admin/course-form.tsx:24-28 | The schema accepts the values if and only if the title has at least 3 and the description at least 10 code units. |
| CourseForm.Initial | src/components/admin/course-form.tsx:48-62 | An open dialog for a course starts from its fields, including its thumbnail, and saving them unchanged gives back the stored course. Otherwise the form holds three empty strings, which the schema rejects. |
| CourseForm.Merge | src/components/admin/course-form.tsx:67-70 | Title and description are replaced. The thumbnail is replaced only when the key is present. `lessonIds` and the creation time are kept. A merge onto a missing document has neither. |
| CourseForm.Created | src/components/admin/course-form.tsx:72-78 | A new course holds the values, an empty lesson list and the submit time. |
| CourseForm.Submit | src/components/admin/course-form.tsx:65-91 | Only the course collection changes. Edits merge under the course id, and creates add one course under a fresh id. Rejected values or a failed write change nothing. Link consistency is preserved. |
| ReviewForm.Issues | src/components/admin/review-form.tsx:24-28 | The three messages are reported exactly for a name under 2 code units, a review under 10 and an empty image filename. None is repeated. |
| ReviewForm.Accepts | src/components/admin/review-form.tsx:24-28 | The form submits exactly when none of the three messages is shown. |
| ReviewForm.AcceptsExactly | src/components/admin/review-form.tsx:24-28 | The schema accepts the values if and only if the three conditions hold. |
| ReviewForm.Initial | src/components/admin/review-form.tsx:48-62 | An open dialog for a review starts from its fields, and saving them unchanged gives back the stored review. Otherwise the form holds three empty strings, which the schema rejects. |
| ReviewForm.Merge | src/components/admin/review-form.tsx:67-70 | The three fields are replaced, and the creation time is kept. |
| ReviewForm.Created | src/components/admin/review-form.tsx:71-76 | A new review holds the values and the submit time. |
| ReviewForm.Submit | src/components/admin/review-form.tsx:65-88 | Only the review collection changes. Edits merge, and creates add one review under a fresh id. Rejected values or a failed write change nothing. |
| UserDashboard.TotalScore | src/components/dashboard/user-dashboard.tsx:50 | The `reduce` gives 0 for no records and a non-negative total for non-negative scores. |
| UserDashboard.TotalScoreAppend | src/components/dashboard/user-dashboard.tsx:50 | The total of two runs of records is the sum of their totals. |
| UserDashboard.RoundHalfUp | src/components/dashboard/user-dashboard.tsx:51 | `Math.round(num / den)` is the integer nearest to the quotient, with halves rounded up. |
| UserDashboard.ComputeStats | src/components/dashboard/user-dashboard.tsx:45-57 | Completed is the number of progress records, and the total is the number of lessons. The average is 0 without progress and otherwise `RoundHalfUp` of the total score over the count. |
| UserDashboard.TotalScoreBounds | src/components/dashboard/user-dashboard.tsx:50 | Scores between 0 and a bound sum to between 0 and count times the bound. |
| UserDashboard.RoundHalfUpBetween | src/components/dashboard/user-dashboard.tsx:51 | Rounding a quotient that lies between two integers stays between them. |
| UserDashboard.AverageScoreBounds | src/components/dashboard/user-dashboard.tsx:49-51 | With every score between 0 and a bound, the average lies between 0 and that bound. |
| UserDashboard.AverageOfEqualScores | src/components/dashboard/user-dashboard.tsx:49-51 | When every score is the same, the average is that score. |
| UserDashboard.ChartData | src/components/dashboard/user-dashboard.tsx:60-69 | The chart has min(7, number of records) entries. Entry k holds the score of the (n-1-k)-th most recent record among the first seven, so the oldest comes first. Its label is the lesson title, or "Unknown" for a missing lesson. |
| UserDashboard.NextLessonId | src/components/dashboard/user-dashboard.tsx:81-82 | The result is none exactly when every listed lesson is completed. Otherwise it is the first listed lesson not completed. |
| UserDashboard.ContinueLearning | src/components/dashboard/user-dashboard.tsx:71-105 | A suggestion is always a stored lesson. With progress, the latest record's lesson, its non-empty course id, the course and its `lessonIds` are looked up. If all exist, the suggestion is `NextLessonId` of that list when that lesson is stored, and none otherwise. If any lookup fails, there is none. A suggestion is never a completed lesson. Without progress, it is the first lesson of the first course. |
| UserDashboard.SuggestionIsNextInCourse | src/components/dashboard/user-dashboard.tsx:73-88 | With progress, a suggestion is listed in the course of the latest completed lesson, and every lesson listed before it there is completed. |
| UserDashboard.ContinueLearningAsWritten | src/components/dashboard/user-dashboard.tsx:72-105 | Throwing requires progress, and a suggestion is a stored lesson. |
| UserDashboard.MissingLessonIdsCrashes | src/components/dashboard/user-dashboard.tsx:79-82 | A course stored without `lessonIds` makes the lookup as written throw. |
| UserDashboard.ContinueLearningAgrees | src/components/dashboard/user-dashboard.tsx:72-105 | Wherever the lookup as written does not throw, it gives the same suggestion as the corrected one. Where it throws, the corrected one gives none. |
| UserDashboard.ThumbnailUrl | src/components/dashboard/user-dashboard.tsx:114-118 | A missing or empty address gives the 120x67 placeholder. An address starting with "http" is kept. Any other name becomes "/name.png". |
| FeaturedCourses.ThumbnailUrl | src/components/landing/featured-courses.tsx:35-40 | A missing or empty address gives the 400x225 placeholder. An address starting with "http" is kept. Any other name becomes "/name.png". |
| FeaturedCourses.PlaceholderTestRedundant | src/components/landing/featured-courses.tsx:36 | The "https://placehold.co" test never changes the result, because the "http" test already covers it. |
| FeaturedCourses.LessonCount | src/components/landing/featured-courses.tsx:95 | The count is the length of `lessonIds`, or 0 when it is absent. |
| ReviewsSection.AvatarUrl | src/components/landing/reviews-section.tsx:42-45 | A missing or empty file name gives "". Otherwise the result is exactly "/" + name + ".png", from which the name can be read back. |
| ReviewsSection.AvatarUrlInjective | src/components/landing/reviews-section.tsx:44 | Different non-empty file names give different addresses. |
| ReviewsSection.Render | src/components/landing/reviews-section.tsx:47-63 | While loading, a skeleton is shown. With no reviews, nothing is shown. Otherwise the carousel holds the reviews in order. |
| AppLayout.Split | src/components/layout/app-layout.tsx:39 | `split('/')` gives at least one piece, and no piece contains a slash. |
| AppLayout.JoinSplit | src/components/layout/app-layout.tsx:39 | Joining the pieces with slashes gives back the path. |
| AppLayout.SplitJoin | src/components/layout/app-layout.tsx:39 | Slash-free pieces joined and split again come back unchanged. |
| AppLayout.SplitAppend | src/components/layout/app-layout.tsx:39 | Splitting `a/b` gives the pieces of `a` followed by those of `b`. |
| AppLayout.NonEmpty | src/components/layout/app-layout.tsx:39 | `filter(Boolean)` keeps the non-empty pieces, in order, each as often as it occurs. |
| AppLayout.Segments | src/components/layout/app-layout.tsx:39 | Every segment is non-empty and slash-free. |
| AppLayout.SegmentsWithoutSlash | src/components/layout/app-layout.tsx:39 | A path without slashes has no segments when empty and is its own single segment otherwise. With `SegmentsAppend`, this fixes the segments of every path. |
| AppLayout.SegmentsAppend | src/components/layout/app-layout.tsx:39 | The segments of `a/b` are those of `a` followed by those of `b`. |
| AppLayout.ExtraSlashesIgnored | src/components/layout/app-layout.tsx:39 | Leading, trailing and doubled slashes do not change the segments. |
| AppLayout.Capitalize | src/components/layout/app-layout.tsx:45 | The first character is upper-cased, the rest has its first '-' replaced by a space, and the length is kept. |
| AppLayout.PageTitle | src/components/layout/app-layout.tsx:38-46 | An empty path gives "Dashboard". A lessons or courses path with more than two segments gives "Lesson Details" or "Course Details". Otherwise the title is the first segment, capitalized, with the first '-' after its first character replaced by a space. |
| AppLayout.PageTitleIgnoresExtraSlashes | src/components/layout/app-layout.tsx:38-46 | Leading, trailing and doubled slashes do not change the title. |
| AppLayout.SameSegmentsSameTitle | src/components/layout/app-layout.tsx:38-46 | Two paths with the same segments have the same title. |
| AppLayout.IsActive | src/components/layout/app-layout.tsx:33-36 | The dashboard link is active only on "/dashboard" itself. Any other link is active exactly on paths it is a prefix of. |
| AppLayout.IsActiveExtends | src/components/layout/app-layout.tsx:35 | An active non-dashboard link stays active on every extension of the path. |
| AppLayout.CoursesLinkPrefixMatch | src/components/layout/app-layout.tsx:33-36 | The prefix rule marks "/courses" active on "/courses/1" and also on "/coursesX". "/dashboard" is not active on "/dashboard/x". |
| AppLayout.NavLinks | src/components/layout/app-layout.tsx:48-62 | Both roles' lists start with the Dashboard link. |
| AppLayout.AdminSeesLearnerLinks | src/components/layout/app-layout.tsx:48-62 | The learner links occur in the admin list in the same order, and the admin list is longer. |
| Text.JsLength | src/components/admin/lesson-form.tsx:33-37 | JavaScript `length` counts code units: at least one and at most two per character. |
| Text.JsLengthBmp | src/components/admin/lesson-form.tsx:33-37 | Text from the Basic Multilingual Plane has one code unit per character. |
| Text.Contains | src/components/ui/combobox.tsx:35 | `includes` holds exactly when the text occurs at some position. |
| Text.Lower | src/components/ui/combobox.tsx:35 | `toLowerCase` keeps the length and lower-cases each character. |
| Text.ReplaceFirst | src/components/layout/app-layout.tsx:45 | `replace('-', ' ')` keeps the length. It changes only the first '-', and leaves a string without one unchanged. |
| Combobox.Matches | src/components/ui/combobox.tsx:35 | Empty typed text matches every option. Matching text is never longer than the caption. |
| Combobox.Checked | src/components/ui/combobox.tsx:86 | A checked option has a value of the same length as the current one. |
| Combobox.OptionMatchesItself | src/components/ui/combobox.tsx:35-86 | An option is checked when the value is its own, and its caption matches itself as typed text. |
| Combobox.Filtered | src/components/ui/combobox.tsx:34-36 | An option is listed exactly when its caption contains the typed text, ignoring case. The list keeps the original order, and a matching option appears as often as in the options. |
| Combobox.EmptyInputKeepsAll | src/components/ui/combobox.tsx:34-36 | With nothing typed, every option is listed. |
| Combobox.SelectValue | src/components/ui/combobox.tsx:78-80 | Picking the checked option clears the value. Picking any other option sets it to that option's value. |
| Combobox.SelectTogglesCheck | src/components/ui/combobox.tsx:78-87 | Picking an option with a non-empty value toggles its check mark. |
| Combobox.SelectTwiceClears | src/components/ui/combobox.tsx:78-80 | Picking the same unchecked option twice leaves the value empty. |
| Combobox.FindByValue | src/components/ui/combobox.tsx:48 | `find` returns none exactly when no value matches, ignoring case. Otherwise it returns the first match. |
| Combobox.TriggerLabel | src/components/ui/combobox.tsx:47-49 | With no value, the label is the placeholder, or "Select option..." when that is missing or empty. With a value, it is the caption of the first matching option (`FindByValue`), or nothing when none matches. |
| Combobox.Picker.constructor | src/components/ui/combobox.tsx:30-32 | The popover starts closed with no typed text. |
| Combobox.Picker.SetOpen | src/components/ui/combobox.tsx:39 | Only the open state changes. |
| Combobox.Picker.Type | src/components/ui/combobox.tsx:55-59 | Only the typed text changes. |
| Combobox.Picker.Select | src/components/ui/combobox.tsx:74-81 | Picking a listed option toggles the value as `SelectValue` says and closes the popover. The picked option is one of the options. Afterwards a non-empty value always shows a caption on the trigger. |
| Combobox.Picker.Create | src/components/ui/combobox.tsx:47-68 | The typed text becomes the value unchanged, and the popover closes. A created value that matches no option leaves the trigger without a label. |

## Left out

- Store reads and writes, subscriptions, authentication, routing, toasts and dialog open/close plumbing are left out. The store is an in-memory map, and a failing write is a boolean input.
- The clock is an input (`now`). Date formatting on the dashboard is not modelled.
- Catalog.NewId: returns an id longer than every id in use, not the store's random 20-character ids. Only freshness is modelled.
- The URL check of the lesson schema is a parameter (`isUrl`). The exact URL grammar of the validation library is not modelled.
- LessonForm.Issues: the message reported for a failed URL field is the field's own message. The validation library's handling of a failed union is not modelled further.
- `form.reset()` after a successful submit and the initial `defaultValues` of `useForm` are left out. The effect that resets the form supersedes them: it runs when the dialog opens for the course and review forms, and when the edited lesson changes for the lesson form.
- Values typed into a cancelled new-lesson dialog persist when it is reopened, because the lesson form's reset does not depend on the dialog being open. `LessonForm.Initial` gives only the values after a reset.
- CourseForm.Merge: an undefined `thumbnailUrl` is treated as an omitted key. The store client's own handling of `undefined` is not part of this model.
- Concurrent submissions and races between the two writes of a lesson create are not modelled. Each submit runs alone.
- The dashboard's reads (the progress query ordered by completion time, lesson and course documents, the first course) become parameters: a list in that order, maps and an optional course.
- Scores are integers. JavaScript's floating-point division before `Math.round` is treated as exact.
- Case mapping covers ASCII letters only, not Unicode.
- Lengths count UTF-16 code units, but a string holding an unpaired surrogate cannot be represented: strings are sequences of Unicode scalar values.
- LessonForm.Submit: `courseId` is always a string. The admin video page passes none, and the store client's handling of an undefined field is not modelled: it either rejects the write or drops the key, depending on a configuration that is not part of this model.
- The combobox library's own filtering, which decides when the "Create" button shows, is not modelled. The value passed to `onSelect` is taken to be the option's value.
- The user menu avatar and initials, the particle button, the admin dashboard and the featured lessons section are not part of this model.
- Chart rendering, carousel autoplay and all markup are left out.

## Findings

| source | as written | input that shows it | evidently intended | confidence | as-written member | corrected member |
|---|---|---|---|---|---|---|
| src/components/dashboard/user-dashboard.tsx:82 | `courseData.lessonIds.find(...)` is called without checking that `lessonIds` exists, so it throws before `setLoading(false)`. The dashboard then stays on its skeleton. | The most recent progress record names lesson l1 of course c1, and the document of c1 has no `lessonIds` (a course document written outside these components) | No suggestion, and the dashboard finishes loading, as the guard on line 98 does for the first course | high, not executed | UserDashboard.ContinueLearningAsWritten | UserDashboard.ContinueLearning |
