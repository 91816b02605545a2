# Course explorer and exam dashboard: client-side logic in Dafny

This project models the client-side logic of two pages of a student
education portal, written as React components:

- **The course explorer** lists a course catalogue. It narrows the list by a
  title search and by eight facet selections: streams, course type, course
  level, states, cities, exams, course titles and specializations. When the
  catalogue arrives it builds the facet option lists. It derives the
  specialization options from the current selection. It also tracks the
  user's bookmarked courses against a remote store.
- **The exam dashboard** maps raw exam records to display records. It sorts
  exams into the Upcoming / Ongoing / Past tabs by date, narrows a tab by
  name search, and tracks the compare, save and dropdown selections. An
  exam submitted elsewhere in the app is put in front of the list.

Modules, one per concern:

- `Js` (`js.dfy`): the JavaScript value semantics the pages rely on. A JSON
  field is a string, `null` or `undefined`. The model also covers
  truthiness and `toLowerCase`/`includes`. It also models the order the
  default `sort()` uses: values are converted to strings and `undefined`
  goes last. Strings are compared by code point, not by UTF-16 code unit
  (see "## Left out").
- `Seqs` (`seqs.dfy`): the array operations, as functions with their
  properties proved. These are `filter` (an order-preserving subsequence),
  `flatMap`, `[...new Set(xs)]`, a stable sort by key (ordered, a
  permutation, and keeping the input order among equal keys) and the
  membership toggle.
- `ExploreCourses` (`explore_courses.dfy`): the course filter predicate, the
  facet and specialization option lists, and the pure transitions behind
  the filter, bookmark and load handlers.
- `CourseExplorerPage` (`course_explorer.dfy`): the page's state as a class.
  Each handler is a method proved against those transitions.
- `Exams` (`exams.dfy`): exam record mapping, tab bucketing and name search.
- `ExamDashboardPage` (`exam_dashboard.dfy`): the dashboard's state as a
  class, with its handlers as methods.

Inputs from outside the pages are parameters:

- the reply of each HTTP request, as `Option` or as a success flag;
- the local-storage entries;
- the current date (`new Date()`) and `Date.now()`.

Three behaviours of the code are easy to miss:

- The tabs are not mutually exclusive. Each tab filters on its own, so an
  exam later in the current month is both Upcoming and Ongoing
  (`Exams.LaterThisMonthInBoth`, with a witness in `Exams.TabsOverlap`).
- The stream, degree-type and level option lists keep `null` and
  `undefined`. Only the city and state lists drop falsy values.
- A course without a title is not guarded: the search calls `toLowerCase`
  on it, and the page fails. The model makes a present title a
  precondition of the filter.

## Model

| member | source | states |
|---|---|---|
| `ExploreCourses.FilteredCourses` | frontend/src/Pages/ExploreCoursesPage.jsx:159-184 | the listed courses are an order-preserving subsequence of the catalogue, and a course is listed iff it is in the catalogue and passes the predicate, with every copy of it kept; every course must carry a title |
| `ExploreCourses.IncludeCourseByFacets` | frontend/src/Pages/ExploreCoursesPage.jsx:172-183 | with no specialization selected, a course passes iff the search matches and, for every other category with a non-empty selection, some value of the course (its one field, or any of its exams) is selected |
| `ExploreCourses.SpecializationOverrides` | frontend/src/Pages/ExploreCoursesPage.jsx:163-171 | with a specialization selected, a course passes iff the search matches and one of its specialization names is selected; the other seven selections have no effect |
| `ExploreCourses.NoFiltersSearchOnly` | frontend/src/Pages/ExploreCoursesPage.jsx:160-162 | with every selection empty, only the lower-cased title search decides; an empty search then lists the whole catalogue unchanged |
| `ExploreCourses.NoFiltersEmpty` | frontend/src/Pages/ExploreCoursesPage.jsx:203-212 | the initial and cleared selection holds nothing in any of the eight categories |
| `ExploreCourses.OptionList` | frontend/src/Pages/ExploreCoursesPage.jsx:43 | `[...new Set(xs)].sort()` is duplicate-free, in default sort order, and holds exactly the values of `xs` |
| `ExploreCourses.BuildFacetOptions` | frontend/src/Pages/ExploreCoursesPage.jsx:41-63 | each of the seven option lists is duplicate-free and sorted; stream, degree type and level list every value present, `null`/`undefined` included; exams and specializations list every element of any course's list; cities and states list exactly the truthy values present |
| `ExploreCourses.CityStateOptionsTruthy` | frontend/src/Pages/ExploreCoursesPage.jsx:58-63 | no falsy value (`undefined`, `null`, "") is offered as a city or a state |
| `ExploreCourses.SpecializationOptions` | frontend/src/Pages/ExploreCoursesPage.jsx:379-405 | the specialization options are sorted and duplicate-free; they are the names from courses whose title is selected or, when no title is, from courses passing the stream and course-type tests |
| `ExploreCourses.SpecializationOptionsIgnoreStreams` | frontend/src/Pages/ExploreCoursesPage.jsx:380-390 | once a title is selected, the stream and course-type selections do not change the specialization options |
| `ExploreCourses.SpecializationsShownIff` | frontend/src/Pages/ExploreCoursesPage.jsx:406 | the section is rendered iff a stream or a title is selected and some feeding course has a specialization |
| `ExploreCourses.ChangeFilter` | frontend/src/Pages/ExploreCoursesPage.jsx:104-117 | multi mode flips the value's membership in the one category and keeps every other value's, removing it without reordering the rest or appending it at the end (the order `filters.exams[0]` shows); single mode sets the category to `[value]` for a truthy value and to `[]` otherwise; the other seven categories are unchanged |
| `ExploreCourses.ChangeFilterTwice` | frontend/src/Pages/ExploreCoursesPage.jsx:109-115 | ticking the same box twice restores which values are selected; when the value was unticked, the whole selection is restored |
| `ExploreCourses.SavedAfterToggle` | frontend/src/Pages/ExploreCoursesPage.jsx:122-157 | only the course's id can change; with no user id, or a failed request, nothing changes; otherwise a successful delete removes the id and a successful post adds it |
| `ExploreCourses.SaveToggleTwice` | frontend/src/Pages/ExploreCoursesPage.jsx:133-152 | save then unsave (or the reverse), both succeeding, gives back the original set |
| `ExploreCourses.SavedAfterHydration` | frontend/src/Pages/ExploreCoursesPage.jsx:75-99 | a readable cache seeds the set; with a stored user id, a successful server reply replaces it wholesale; otherwise it is left as it was |
| `ExploreCourses.TitleKey` | frontend/src/Pages/ExploreCoursesPage.jsx:333 | the A→Z key is the title when it is truthy, and "" when it is missing, `null` or empty |
| `ExploreCourses.UntitledFirst` | frontend/src/Pages/ExploreCoursesPage.jsx:331-335 | a course without a title sorts no later than any other |
| `Seqs.SortByKey` | frontend/src/Pages/ExploreCoursesPage.jsx:331-335 | sorting yields a sequence ordered by the key that is a permutation of the input and is stable: for every key, the elements with that key appear in their input order |
| `Seqs.Filter` | frontend/src/components/Exams.js:230-247 | `xs.filter(p)` is an order-preserving subsequence of `xs` holding exactly the elements `p` accepts, each kept as many times as it occurs in `xs`, the others not at all |
| `Seqs.Dedup` | frontend/src/Pages/ExploreCoursesPage.jsx:53-55 | `[...new Set(xs)]` is duplicate-free and holds exactly the values of `xs` |
| `Seqs.Toggle` | frontend/src/components/Exams.js:13-19 | the toggled value's membership flips; every other value keeps its membership; an absent value is appended at the end |
| `Seqs.ToggleTwice` | frontend/src/components/Exams.js:323-333 | toggling the same value twice restores every membership, and restores the sequence itself when the value was absent |
| `Js.EmptySearchMatches` | frontend/src/components/Exams.js:251 | the lower-cased empty search term is contained in every name |
| `CourseExplorerPage.CourseExplorer.constructor` | frontend/src/Pages/ExploreCoursesPage.jsx:8-31 | initial state: empty catalogue, search and selections, loading, nothing saved, user id from storage |
| `CourseExplorerPage.CourseExplorer.LoadCourses` | frontend/src/Pages/ExploreCoursesPage.jsx:36-71 | on success stores the catalogue and its option lists; on failure empties the catalogue; loading ends either way |
| `CourseExplorerPage.CourseExplorer.LoadSavedCourses` | frontend/src/Pages/ExploreCoursesPage.jsx:75-99 | the saved set becomes the hydration result; a stored user id is adopted |
| `CourseExplorerPage.CourseExplorer.SetSearchText` | frontend/src/Pages/ExploreCoursesPage.jsx:297 | the search text is replaced |
| `CourseExplorerPage.CourseExplorer.ToggleAccordion` | frontend/src/Pages/ExploreCoursesPage.jsx:101-102 | opens the section, or closes it when it was the open one |
| `CourseExplorerPage.CourseExplorer.FilterChange` | frontend/src/Pages/ExploreCoursesPage.jsx:104-117 | the selection becomes `ChangeFilter` of the old one; other categories are unchanged |
| `CourseExplorerPage.CourseExplorer.ClearFilters` | frontend/src/Pages/ExploreCoursesPage.jsx:202-213 | all eight categories are empty afterwards |
| `CourseExplorerPage.CourseExplorer.CourseClick` | frontend/src/Pages/ExploreCoursesPage.jsx:119-120 | expands the card, or collapses it when it was the expanded one |
| `CourseExplorerPage.CourseExplorer.SaveToggle` | frontend/src/Pages/ExploreCoursesPage.jsx:122-157 | the saved set becomes `SavedAfterToggle` of the old one; the signal is a login request without a user id, a retry notice on failure, otherwise saved or unsaved by the prior state |
| `CourseExplorerPage.CourseExplorer.SortAlpha` | frontend/src/Pages/ExploreCoursesPage.jsx:330-335 | the catalogue becomes the stable sort of the old one by title key: ordered, the same courses, and courses with equal keys in catalogue order |
| `CourseExplorerPage.CourseExplorer.SpecializationSection` | frontend/src/Pages/ExploreCoursesPage.jsx:555 | the section shows iff a stream or a title is selected and a feeding course has a specialization; what it shows is exactly `SpecializationOptions` of the catalogue and selection, a non-empty, sorted, duplicate-free list |
| `Exams.Normalize` | frontend/src/components/Exams.js:175-184 | the name is `examName`, else `resultExamName`, else "Untitled Exam", and is never empty; dates are kept; the next event is the deadline, else the exam date, else the no-date caption; the mode/level is `modeLevel`, else "Not Provided" |
| `Exams.FromServer` | frontend/src/components/Exams.js:173-186 | records from the endpoint keep their id; the conducting body and the mode/level fall back to "Not Provided", the next event to "No Event" |
| `Exams.FromForm` | frontend/src/components/Exams.js:205-218 | a submitted record keeps a truthy id, else takes `Date.now()`; the conducting body falls back to "User Submitted", the mode/level to "Not Provided", the next event to "New Exam Added" |
| `Exams.BucketDate` | frontend/src/components/Exams.js:232 | the tab date is the exam date when present, else the application deadline |
| `Exams.TabFiltered` | frontend/src/components/Exams.js:230-247 | the tab's exams are an order-preserving subsequence, holding exactly the exams the tab test accepts, every copy of each kept |
| `Exams.VisibleExams` | frontend/src/components/Exams.js:250-252 | the visible exams are an order-preserving subsequence of the tab's exams; an exam is visible iff it is in the tab and its lower-cased name contains the lower-cased term; no copy is dropped |
| `Exams.UndatedOnlyUpcoming` | frontend/src/components/Exams.js:234 | an exam with neither date is in Upcoming and in no other tab |
| `Exams.BeforeTotal` | frontend/src/components/Exams.js:238-244 | `<` on two instants is a strict total order: two different instants are ordered one way, never both |
| `Exams.BeforeTrans` | frontend/src/components/Exams.js:238-244 | `<` on instants is transitive; with `BeforeTotal`, it is a strict total order |
| `Exams.UpcomingPastStrict` | frontend/src/components/Exams.js:238-244 | no exam is both Upcoming and Past; a dated exam is in one of them unless it is dated exactly now; an exam dated exactly now is only Ongoing |
| `Exams.LaterThisMonthInBoth` | frontend/src/components/Exams.js:238-243 | every exam dated later than now in the current year and month is both Upcoming and Ongoing |
| `Exams.TabsOverlap` | frontend/src/components/Exams.js:238-243 | the overlap is real: some exam and date put an exam in both Upcoming and Ongoing |
| `Exams.OppositePriorities` | frontend/src/components/Exams.js:179-184 | with both dates present, the card announces the deadline while the tabs use the exam date |
| `Exams.EmptySearchShowsTab` | frontend/src/components/Exams.js:250-252 | an empty search shows the tab's exams unchanged |
| `ExamDashboardPage.ExamDashboard.constructor` | frontend/src/components/Exams.js:143-160 | initial state: no exams, empty search and selections, Upcoming tab |
| `ExamDashboardPage.ExamDashboard.LoadExams` | frontend/src/components/Exams.js:165-195 | on success the list is the reply mapped record by record; on failure it is unchanged |
| `ExamDashboardPage.ExamDashboard.ExamAdded` | frontend/src/components/Exams.js:202-220 | the submitted exam is put in front; the rest of the list is unchanged and in the same order |
| `ExamDashboardPage.ExamDashboard.SetSearchTerm` | frontend/src/components/Exams.js:292 | the search term is replaced |
| `ExamDashboardPage.ExamDashboard.SetActiveTab` | frontend/src/components/Exams.js:303 | the active tab is replaced |
| `ExamDashboardPage.ExamDashboard.ToggleCompare` | frontend/src/components/Exams.js:323-327 | the id's membership in the compare list flips; every other id keeps its membership |
| `ExamDashboardPage.ExamDashboard.ToggleSave` | frontend/src/components/Exams.js:329-333 | the id's membership in the saved list flips; every other id keeps its membership |
| `ExamDashboardPage.ExamDashboard.ToggleOption` | frontend/src/components/Exams.js:275-280 | one dropdown's selection becomes the toggle of the old one (the option removed, or appended at the end), which is the order `join(", ")` shows; the other five dropdowns are unchanged |
| `ExamDashboardPage.ExamDashboard.CompareNeedsTwo` | frontend/src/components/Exams.js:347-367 | Compare is enabled iff at least two exams are selected, Download Calendar iff at least one; Compare implies Download |

## Left out

- HTTP requests, and the request ordering between them: each reply is a
  parameter. Overlapping save toggles or loads that race are not modelled.
  The model runs the handlers one after another.
- `localStorage` and `JSON.parse`: the cached saved-courses entry comes in
  already classified as absent, unreadable or a list of ids.
- `alert`, `navigate` and the `window` listener registration:
  `SaveToggle` returns which signal is raised instead of raising it.
- The duration sort. It subtracts `parseFloat` results that can be `NaN`,
  and its comparator is then inconsistent; floating point is not modelled.
- Locale collation: `localeCompare` and the default `sort()` are both
  modelled as Unicode code-point order (`Js.StrLe`). `toLocaleDateString` formatting is left
  to the renderer: `NextEvent` carries the date, not the formatted text.
- OptionList, BuildFacetOptions and SpecializationOptions: strings are
  sequences of Unicode code points, so a character above U+FFFF sorts after
  the characters U+E000–U+FFFF in the model. The default `sort()` compares
  UTF-16 code units, where such a character (a surrogate pair starting at
  0xD800–0xDBFF) sorts before them. For strings without characters above
  U+FFFF the two orders agree.
- Date parsing and time zones: `new Date(...)` is an abstract `Date` given
  by its local year, month and offset within the month, ordered in that
  order. Invalid dates, and the hour repeated when daylight saving time
  ends, are not modelled.
- `Js.Lower` maps only the ASCII letters; full Unicode case mapping is not
  modelled.
- Course ids: `(course._id || course.id).toString()` is taken as an
  already-normalised string, and so are the ids of cached and server-side
  saved courses.
- Rendering: JSX, CSS, animation, icons, the course cards, the Course
  dropdown's option list (every title, in catalogue order), the mobile
  filter toggle and each dropdown's open state.
- The dashboard's fallback `return true` for a tab other than the three:
  `setActiveTab` is only called with the three tab names, so `Tab` has
  exactly those.
- The six exam dropdown selections are stored, but no list reads them; only
  the toggle is modelled.
