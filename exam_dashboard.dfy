/** The exam dashboard as an object: its state hooks become fields and its
    handlers methods. The clock (`new Date()`, `Date.now()`) and the exams
    endpoint's reply are parameters. */
module ExamDashboardPage {
  import opened Js
  import opened Seqs
  import opened Exams

  /** The six sidebar dropdowns. Their selections are kept but no list reads
      them. */
  datatype Dropdown = StateFilter | StreamFilter | LevelFilter | ExamTypeFilter | ModeFilter | DateRangeFilter

  class ExamDashboard {
    var examData: seq<Exam>
    var searchTerm: string
    var compareSelected: seq<ExamId>
    var savedExams: seq<ExamId>
    var activeTab: Tab
    var dropdowns: map<Dropdown, seq<string>>

    /** Every dropdown has a selection. */
    ghost predicate Valid()
      reads this
    {
      forall d :: d in dropdowns
    }

    constructor ()
      ensures Valid()
      ensures examData == [] && searchTerm == "" && compareSelected == [] && savedExams == []
      ensures activeTab == Upcoming
      ensures forall d :: dropdowns[d] == []
    {
      examData := [];
      searchTerm := "";
      compareSelected := [];
      savedExams := [];
      activeTab := Upcoming;
      dropdowns := map[StateFilter := [], StreamFilter := [], LevelFilter := [],
                       ExamTypeFilter := [], ModeFilter := [], DateRangeFilter := []];
      new;
      forall d: Dropdown ensures d in dropdowns {
        match d
        case StateFilter =>
        case StreamFilter =>
        case LevelFilter =>
        case ExamTypeFilter =>
        case ModeFilter =>
        case DateRangeFilter =>
      }
    }

    /** `fetchData`: on success the reply, mapped record by record, replaces
        the list; on failure nothing changes. */
    method LoadExams(response: Option<seq<RawExam>>)
      modifies this`examData
      ensures response.Some? ==> |examData| == |response.value|
      ensures response.Some? ==> forall i :: 0 <= i < |examData| ==> examData[i] == FromServer(response.value[i])
      ensures response.None? ==> examData == old(examData)
    {
      if response.Some? {
        var raws := response.value;
        examData := seq(|raws|, i requires 0 <= i < |raws| => FromServer(raws[i]));
      }
    }

    /** The `exam-added` handler: the submitted exam goes in front and the rest
        of the list follows unchanged. */
    method ExamAdded(e: RawExam, now: int)
      modifies this`examData
      ensures |examData| == |old(examData)| + 1
      ensures examData[0] == FromForm(e, now)
      ensures examData[1..] == old(examData)
    {
      examData := [FromForm(e, now)] + examData;
    }

    method SetSearchTerm(term: string)
      modifies this`searchTerm
      ensures searchTerm == term
    {
      searchTerm := term;
    }

    method SetActiveTab(tab: Tab)
      modifies this`activeTab
      ensures activeTab == tab
    {
      activeTab := tab;
    }

    /** A card's "Select" checkbox. */
    method ToggleCompare(id: ExamId)
      modifies this`compareSelected
      ensures id in compareSelected <==> id !in old(compareSelected)
      ensures forall x :: x != id ==> (x in compareSelected <==> x in old(compareSelected))
      ensures compareSelected == Toggle(old(compareSelected), id)
    {
      compareSelected := Toggle(compareSelected, id);
    }

    /** A card's bookmark button. */
    method ToggleSave(id: ExamId)
      modifies this`savedExams
      ensures id in savedExams <==> id !in old(savedExams)
      ensures forall x :: x != id ==> (x in savedExams <==> x in old(savedExams))
      ensures savedExams == Toggle(old(savedExams), id)
    {
      savedExams := Toggle(savedExams, id);
    }

    /** `CustomDropdown.toggleOption` on one dropdown's selection. */
    method ToggleOption(d: Dropdown, option: string)
      requires Valid()
      modifies this`dropdowns
      ensures Valid()
      ensures option in dropdowns[d] <==> option !in old(dropdowns)[d]
      ensures forall o :: o != option ==> (o in dropdowns[d] <==> o in old(dropdowns)[d])
      ensures forall other :: other != d ==> dropdowns[other] == old(dropdowns)[other]
      ensures dropdowns[d] == Toggle(old(dropdowns)[d], option)
    {
      dropdowns := dropdowns[d := Toggle(dropdowns[d], option)];
    }

    /** The "Compare Exams" button is enabled from two selected exams on. */
    predicate CompareEnabled()
      reads this
    {
      !(|compareSelected| < 2)
    }

    /** The "Download Calendar" button is enabled from one selected exam on. */
    predicate DownloadEnabled()
      reads this
    {
      |compareSelected| != 0
    }

    lemma CompareNeedsTwo()
      ensures CompareEnabled() <==> |compareSelected| >= 2
      ensures DownloadEnabled() <==> |compareSelected| >= 1
      ensures CompareEnabled() ==> DownloadEnabled()
    {
    }
  }
}
