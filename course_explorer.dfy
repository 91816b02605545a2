/** The course explorer page as an object: its React state hooks become
    fields, and each handler becomes a method that updates them the way the
    handler's `setX(prev => ...)` does. Network replies are parameters. */
module CourseExplorerPage {
  import opened Js
  import opened Seqs
  import opened ExploreCourses

  /** What `handleSaveToggle` tells the user besides changing the set. */
  datatype SaveSignal = LoginRequired | Unsaved | Saved | RetryNotice

  class CourseExplorer {
    var courses: seq<Course>
    var searchText: string
    var activeAccordion: Option<Category>
    var filters: Filters
    var loading: bool
    var options: FacetOptions
    var expandedCourseId: Option<string>
    var savedCourses: set<string>
    var userId: Option<string>

    /** The page as first rendered; `storedUserId` is the `userId` entry of
        local storage. */
    constructor (storedUserId: Option<string>)
      ensures courses == [] && searchText == "" && activeAccordion == None
      ensures filters == NoFilters && loading
      ensures options == FacetOptions([], [], [], [], [], [], [])
      ensures expandedCourseId == None && savedCourses == {} && userId == storedUserId
    {
      courses := [];
      searchText := "";
      activeAccordion := None;
      filters := NoFilters;
      loading := true;
      options := FacetOptions([], [], [], [], [], [], []);
      expandedCourseId := None;
      savedCourses := {};
      userId := storedUserId;
    }

    /** `fetchCourses`: `response` is the catalogue, or `None` when the request
        fails, in which case the catalogue is emptied and the option lists
        stay as they were. Loading ends either way. */
    method LoadCourses(response: Option<seq<Course>>)
      modifies this`courses, this`options, this`loading
      ensures !loading
      ensures response.Some? ==> courses == response.value && options == BuildFacetOptions(response.value)
      ensures response.None? ==> courses == [] && options == old(options)
    {
      if response.Some? {
        courses := response.value;
        options := BuildFacetOptions(response.value);
      } else {
        courses := [];
      }
      loading := false;
    }

    /** The saved-courses effect at page load: the cached entry seeds the set,
        then a stored user id is adopted and the server's list, when it
        arrives, replaces the set. */
    method LoadSavedCourses(cache: CachedSaved, storedUserId: Option<string>, server: Option<seq<string>>)
      modifies this`savedCourses, this`userId
      ensures savedCourses == SavedAfterHydration(old(savedCourses), cache, storedUserId, server)
      ensures userId == if LoggedIn(storedUserId) then storedUserId else old(userId)
    {
      if cache.Stored? {
        savedCourses := set x | x in cache.ids;
      }
      if LoggedIn(storedUserId) {
        userId := storedUserId;
        if server.Some? {
          savedCourses := set x | x in server.value;
        }
      }
    }

    method SetSearchText(text: string)
      modifies this`searchText
      ensures searchText == text
    {
      searchText := text;
    }

    /** `toggleAccordion`: opens the section, or closes it when it is the open
        one; at most one section is open. */
    method ToggleAccordion(cat: Category)
      modifies this`activeAccordion
      ensures old(activeAccordion) == Some(cat) ==> activeAccordion == None
      ensures old(activeAccordion) != Some(cat) ==> activeAccordion == Some(cat)
    {
      activeAccordion := if activeAccordion == Some(cat) then None else Some(cat);
    }

    /** `handleFilterChange`. */
    method FilterChange(cat: Category, value: Value, isMulti: bool)
      modifies this`filters
      ensures filters == ChangeFilter(old(filters), cat, value, isMulti)
      ensures forall d :: d != cat ==> filters.Get(d) == old(filters).Get(d)
    {
      filters := ChangeFilter(filters, cat, value, isMulti);
    }

    /** The "Clear" button. */
    method ClearFilters()
      modifies this`filters
      ensures forall cat :: filters.Get(cat) == []
    {
      filters := NoFilters;
    }

    /** `handleCourseClick`: expands a card, or collapses it when it is the
        expanded one. */
    method CourseClick(id: string)
      modifies this`expandedCourseId
      ensures old(expandedCourseId) == Some(id) ==> expandedCourseId == None
      ensures old(expandedCourseId) != Some(id) ==> expandedCourseId == Some(id)
    {
      expandedCourseId := if expandedCourseId == Some(id) then None else Some(id);
    }

    /** `handleSaveToggle`: `requestOk` is whether the delete (for a saved
        course) or the post (for an unsaved one) succeeds. */
    method SaveToggle(course: Course, requestOk: bool) returns (signal: SaveSignal)
      modifies this`savedCourses
      ensures savedCourses == SavedAfterToggle(old(savedCourses), userId, course.id, requestOk)
      ensures signal == LoginRequired <==> !LoggedIn(userId)
      ensures signal == RetryNotice <==> LoggedIn(userId) && !requestOk
      ensures signal == Unsaved <==> LoggedIn(userId) && requestOk && course.id in old(savedCourses)
      ensures signal == Saved <==> LoggedIn(userId) && requestOk && course.id !in old(savedCourses)
    {
      if !LoggedIn(userId) {
        return LoginRequired;
      }
      var isSaved := course.id in savedCourses;
      if !requestOk {
        return RetryNotice;
      }
      if isSaved {
        savedCourses := savedCourses - {course.id};
        signal := Unsaved;
      } else {
        savedCourses := savedCourses + {course.id};
        signal := Saved;
      }
    }

    /** The "A → Z" sort choice: the catalogue is reordered by title, a
        missing title counting as the empty string; courses with the same
        key keep their catalogue order. */
    method SortAlpha()
      modifies this`courses
      ensures courses == SortByKey(old(courses), TitleKey)
      ensures SortedBy(courses, TitleKey)
      ensures multiset(courses) == multiset(old(courses))
      ensures forall k :: Filter(courses, KeyIs(TitleKey, k)) == Filter(old(courses), KeyIs(TitleKey, k))
    {
      courses := SortByKey(courses, TitleKey);
    }

    /** The specialization section: its option list when it is rendered,
        `None` when it is not. */
    function SpecializationSection(): (r: Option<seq<Value>>)
      reads this
      ensures r.Some? <==> (|filters.streams| > 0 || |filters.courses| > 0)
                           && exists c :: c in courses && FeedsSpecializations(c, filters) && |c.specializations| > 0
      ensures r.Some? ==> r.value == SpecializationOptions(courses, filters)
      ensures r.Some? ==> IsOptionList(r.value) && |r.value| > 0
    {
      SpecializationsShownIff(courses, filters);
      if SpecializationsShown(courses, filters) then Some(SpecializationOptions(courses, filters)) else None
    }
  }
}
