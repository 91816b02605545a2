/** The exam dashboard's client-side logic: how a raw exam record becomes the
    record the page shows, how the Upcoming / Ongoing / Past tabs pick exams by
    date, and how the name search narrows the tab's list. */
module Exams {
  import opened Js
  import opened Seqs

  /** A month number as `getMonth()` returns it. */
  type Month = m: int | 0 <= m < 12

  /** An instant as `new Date(...)` gives it, in local calendar terms: its
      year, its month, and how many milliseconds into that month it falls. */
  datatype Date = Date(year: int, month: Month, offset: nat)

  /** `a < b` on two instants: the earlier year, then the earlier month, then
      the earlier moment within the month. */
  predicate Before(a: Date, b: Date) {
    a.year < b.year
    || (a.year == b.year && (a.month < b.month || (a.month == b.month && a.offset < b.offset)))
  }

  /** Two different instants are ordered one way or the other, and never
      both ways. */
  lemma BeforeTotal(a: Date, b: Date)
    ensures a != b <==> Before(a, b) || Before(b, a)
    ensures !(Before(a, b) && Before(b, a))
  {
  }

  /** An instant earlier than an earlier one is earlier still. */
  lemma BeforeTrans(a: Date, b: Date, c: Date)
    requires Before(a, b) && Before(b, c)
    ensures Before(a, c)
  {
  }

  /** An exam's `_id`: the one it came with, or `Date.now()` for a submitted
      exam that had none. */
  datatype ExamId = Given(v: Value) | Stamp(ms: int)

  /** An exam as the exams endpoint or the exam form's `exam-added` event
      delivers it; a date field is `None` when it is missing or empty. */
  datatype RawExam = RawExam(
    id: Value,
    examName: Value,
    resultExamName: Value,
    conductingBody: Value,
    examDate: Option<Date>,
    applicationDeadline: Option<Date>,
    modeLevel: Value)

  /** The card's "Next Event" line; the date formatting itself is left to the
      renderer. */
  datatype NextEvent = RegistrationOpen(deadline: Date) | ExamOn(date: Date) | NoDate(caption: string)

  /** An exam as the dashboard holds it. */
  datatype Exam = Exam(
    id: ExamId,
    examName: string,
    conductingBody: string,
    examDate: Option<Date>,
    applicationDeadline: Option<Date>,
    nextEvent: NextEvent,
    modeLevel: string)

  /** `v || fallback` for a text field. */
  function TextOr(v: Value, fallback: string): (r: string)
    ensures Truthy(v) ==> r == v.s
    ensures !Truthy(v) ==> r == fallback
  {
    if Truthy(v) then v.s else fallback
  }

  /** The record mapping both places write out; they differ only in the id,
      the conducting-body fallback and the no-date label. */
  function Normalize(e: RawExam, id: ExamId, bodyFallback: string, noDateLabel: string): (r: Exam)
    requires bodyFallback != ""
    ensures r.id == id
    ensures r.examName != "" && r.conductingBody != ""
    ensures Truthy(e.examName) ==> r.examName == e.examName.s
    ensures !Truthy(e.examName) && Truthy(e.resultExamName) ==> r.examName == e.resultExamName.s
    ensures !Truthy(e.examName) && !Truthy(e.resultExamName) ==> r.examName == "Untitled Exam"
    ensures r.examDate == e.examDate && r.applicationDeadline == e.applicationDeadline
    ensures e.applicationDeadline.Some? ==> r.nextEvent == RegistrationOpen(e.applicationDeadline.value)
    ensures e.applicationDeadline.None? && e.examDate.Some? ==> r.nextEvent == ExamOn(e.examDate.value)
    ensures e.applicationDeadline.None? && e.examDate.None? ==> r.nextEvent == NoDate(noDateLabel)
    ensures r.modeLevel == TextOr(e.modeLevel, "Not Provided")
  {
    Exam(
      id,
      TextOr(e.examName, TextOr(e.resultExamName, "Untitled Exam")),
      TextOr(e.conductingBody, bodyFallback),
      e.examDate,
      e.applicationDeadline,
      if e.applicationDeadline.Some? then RegistrationOpen(e.applicationDeadline.value)
      else if e.examDate.Some? then ExamOn(e.examDate.value)
      else NoDate(noDateLabel),
      TextOr(e.modeLevel, "Not Provided"))
  }

  /** The mapping applied to the exams endpoint's reply. */
  function FromServer(e: RawExam): (r: Exam)
    ensures r.id == Given(e.id)
    ensures r.conductingBody == TextOr(e.conductingBody, "Not Provided")
    ensures e.applicationDeadline.None? && e.examDate.None? ==> r.nextEvent == NoDate("No Event")
    ensures r.modeLevel == TextOr(e.modeLevel, "Not Provided")
  {
    Normalize(e, Given(e.id), "Not Provided", "No Event")
  }

  /** The mapping applied to an exam announced by the `exam-added` event;
      `now` is `Date.now()`. */
  function FromForm(e: RawExam, now: int): (r: Exam)
    ensures Truthy(e.id) ==> r.id == Given(e.id)
    ensures !Truthy(e.id) ==> r.id == Stamp(now)
    ensures r.conductingBody == TextOr(e.conductingBody, "User Submitted")
    ensures e.applicationDeadline.None? && e.examDate.None? ==> r.nextEvent == NoDate("New Exam Added")
    ensures r.modeLevel == TextOr(e.modeLevel, "Not Provided")
  {
    Normalize(e, if Truthy(e.id) then Given(e.id) else Stamp(now), "User Submitted", "New Exam Added")
  }

  // ------------------------------------------------------------------ tabs

  datatype Tab = Upcoming | Ongoing | Past

  /** The date a tab looks at: the exam date, else the application deadline. */
  function BucketDate(e: Exam): (d: Option<Date>)
    ensures e.examDate.Some? ==> d == e.examDate
    ensures e.examDate.None? ==> d == e.applicationDeadline
  {
    if e.examDate.Some? then e.examDate else e.applicationDeadline
  }

  /** The callback of `tabFilteredExams` for the active tab. */
  predicate InTab(e: Exam, tab: Tab, today: Date) {
    match BucketDate(e)
    case None => tab == Upcoming
    case Some(d) =>
      match tab
      case Upcoming => Before(today, d)
      case Ongoing => d.year == today.year && d.month == today.month
      case Past => Before(d, today)
  }

  /** `tabFilteredExams`. */
  function TabFiltered(exams: seq<Exam>, tab: Tab, today: Date): (r: seq<Exam>)
    ensures Subsequence(r, exams)
    ensures forall e :: e in r <==> e in exams && InTab(e, tab, today)
    ensures forall e | e in r :: multiset(r)[e] == multiset(exams)[e]
  {
    Filter(exams, (e: Exam) => InTab(e, tab, today))
  }

  /** `visibleExams`: the tab's exams whose name contains the search term,
      ignoring case. */
  function VisibleExams(exams: seq<Exam>, tab: Tab, today: Date, searchTerm: string): (r: seq<Exam>)
    ensures Subsequence(r, TabFiltered(exams, tab, today))
    ensures forall e :: e in r <==> e in exams && InTab(e, tab, today) && MatchesSearch(e.examName, searchTerm)
    ensures forall e | e in r :: multiset(r)[e] == multiset(exams)[e]
  {
    Filter(TabFiltered(exams, tab, today), (e: Exam) => MatchesSearch(e.examName, searchTerm))
  }

  /** An exam with no date at all is listed under Upcoming and nowhere else. */
  lemma UndatedOnlyUpcoming(e: Exam, tab: Tab, today: Date)
    requires e.examDate.None? && e.applicationDeadline.None?
    ensures InTab(e, tab, today) <==> tab == Upcoming
  {
  }

  /** Upcoming and Past are strict comparisons: none is in both, a dated exam
      is in one of them unless it is dated exactly now, and an exam dated
      exactly now is only Ongoing. */
  lemma UpcomingPastStrict(e: Exam, today: Date)
    ensures !(InTab(e, Upcoming, today) && InTab(e, Past, today))
    ensures BucketDate(e).Some? && BucketDate(e) != Some(today) ==>
      InTab(e, Upcoming, today) || InTab(e, Past, today)
    ensures BucketDate(e) == Some(today) ==>
      !InTab(e, Upcoming, today) && !InTab(e, Past, today) && InTab(e, Ongoing, today)
  {
    if BucketDate(e).Some? {
      BeforeTotal(BucketDate(e).value, today);
    }
  }

  /** Each tab filters on its own: every exam dated later in the current
      month is both Upcoming and Ongoing. */
  lemma LaterThisMonthInBoth(e: Exam, today: Date)
    requires BucketDate(e).Some?
    requires BucketDate(e).value.year == today.year && BucketDate(e).value.month == today.month
    requires Before(today, BucketDate(e).value)
    ensures InTab(e, Upcoming, today) && InTab(e, Ongoing, today)
  {
  }

  /** So the tabs do overlap: some exam is both Upcoming and Ongoing. */
  lemma TabsOverlap()
    ensures exists e: Exam, today: Date :: InTab(e, Upcoming, today) && InTab(e, Ongoing, today)
  {
    var today := Date(2025, 6, 100);
    var e := Exam(Stamp(0), "Exam", "Body", Some(Date(2025, 6, 200)), None, ExamOn(Date(2025, 6, 200)), "Online");
    LaterThisMonthInBoth(e, today);
  }

  /** The card announces the deadline first while the tabs go by the exam
      date first: with both present they name different dates. */
  lemma OppositePriorities(e: RawExam, id: ExamId, bodyFallback: string, noDateLabel: string)
    requires bodyFallback != ""
    requires e.examDate.Some? && e.applicationDeadline.Some?
    ensures Normalize(e, id, bodyFallback, noDateLabel).nextEvent == RegistrationOpen(e.applicationDeadline.value)
    ensures BucketDate(Normalize(e, id, bodyFallback, noDateLabel)) == e.examDate
  {
  }

  /** An empty search shows the whole tab. */
  lemma EmptySearchShowsTab(exams: seq<Exam>, tab: Tab, today: Date)
    ensures VisibleExams(exams, tab, today, "") == TabFiltered(exams, tab, today)
  {
    var t := TabFiltered(exams, tab, today);
    forall e | e in t ensures MatchesSearch(e.examName, "") {
      EmptySearchMatches(e.examName);
    }
    FilterKeepsAll(t, (e: Exam) => MatchesSearch(e.examName, ""));
  }
}
