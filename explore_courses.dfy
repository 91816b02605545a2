/** The course explorer's client-side logic, lifted out of its React
    component: the record of selected facet values, the predicate that decides
    which courses are listed, the facet option lists built when the catalogue
    arrives, the specialization options derived from the current selection,
    and the pure state transitions behind the filter and bookmark handlers. */
module ExploreCourses {
  import opened Js
  import opened Seqs

  /** A course as the catalogue endpoint returns it, reduced to the fields the
      page reads. `id` is the already normalised `(course._id || course.id)`
      as a string; a missing `exams` or `specializations` array reads as
      empty, and `specializations` holds each specialization's `name`. */
  datatype Course = Course(
    id: string,
    courseTitle: Value,
    stream: Value,
    degreeType: Value,
    level: Value,
    exams: seq<Value>,
    specializations: seq<Value>,
    state: Value,
    city: Value)

  /** The eight keys of the page's `filters` object. */
  datatype Category =
    Streams | CourseType | CourseLevel | States | Cities | Exams | Courses | Specializations

  /** The `filters` object: one selection per category, always present. */
  datatype Filters = Filters(
    streams: seq<Value>,
    courseType: seq<Value>,
    courseLevel: seq<Value>,
    states: seq<Value>,
    cities: seq<Value>,
    exams: seq<Value>,
    courses: seq<Value>,
    specializations: seq<Value>)
  {
    /** `filters[category]`. */
    function Get(c: Category): seq<Value> {
      match c
      case Streams => streams
      case CourseType => courseType
      case CourseLevel => courseLevel
      case States => states
      case Cities => cities
      case Exams => exams
      case Courses => courses
      case Specializations => specializations
    }

    /** `{ ...filters, [category]: sel }`. */
    function With(c: Category, sel: seq<Value>): (r: Filters)
      ensures r.Get(c) == sel
      ensures forall d :: d != c ==> r.Get(d) == Get(d)
    {
      match c
      case Streams => this.(streams := sel)
      case CourseType => this.(courseType := sel)
      case CourseLevel => this.(courseLevel := sel)
      case States => this.(states := sel)
      case Cities => this.(cities := sel)
      case Exams => this.(exams := sel)
      case Courses => this.(courses := sel)
      case Specializations => this.(specializations := sel)
    }
  }

  /** The initial selection, and what "Clear" resets to. */
  const NoFilters := Filters([], [], [], [], [], [], [], [])

  lemma NoFiltersEmpty(c: Category)
    ensures NoFilters.Get(c) == []
  {
  }

  // --------------------------------------------------------- the predicate

  /** One facet test `(!sel.length || sel.includes(v))`: an empty selection
      admits everything. */
  predicate Admits(sel: seq<Value>, v: Value) {
    |sel| == 0 || v in sel
  }

  /** `xs.some(x => sel.includes(x))`. */
  predicate SomeIn(xs: seq<Value>, sel: seq<Value>) {
    exists x :: x in xs && x in sel
  }

  /** The search test; it calls `toLowerCase` on the title, which fails on a
      course without one. */
  predicate TitleMatches(c: Course, searchText: string)
    requires c.courseTitle.Str?
  {
    MatchesSearch(c.courseTitle.s, searchText)
  }

  /** The callback of `courses.filter` that yields the listed courses. A
      selected specialization decides on its own; otherwise every facet is
      tested and the tests are conjoined. */
  predicate IncludeCourse(c: Course, f: Filters, searchText: string)
    requires c.courseTitle.Str?
  {
    var matchesSearch := TitleMatches(c, searchText);
    if |f.specializations| > 0 then
      matchesSearch && SomeIn(c.specializations, f.specializations)
    else
      var matchesFilters :=
        Admits(f.streams, c.stream)
        && Admits(f.courseType, c.degreeType)
        && Admits(f.courseLevel, c.level)
        && (|f.exams| == 0 || SomeIn(c.exams, f.exams))
        && Admits(f.courses, c.courseTitle)
        && Admits(f.states, c.state)
        && Admits(f.cities, c.city);
      matchesSearch && matchesFilters
  }

  /** The values a course offers to one category's selection. */
  function FacetValues(c: Course, cat: Category): seq<Value> {
    match cat
    case Streams => [c.stream]
    case CourseType => [c.degreeType]
    case CourseLevel => [c.level]
    case States => [c.state]
    case Cities => [c.city]
    case Exams => c.exams
    case Courses => [c.courseTitle]
    case Specializations => c.specializations
  }

  /** A facet constrains a course only when something is selected in it, and
      then some value of the course has to be selected. */
  predicate FacetSatisfied(c: Course, f: Filters, cat: Category) {
    |f.Get(cat)| == 0 || SomeIn(FacetValues(c, cat), f.Get(cat))
  }

  /** All courses carry a title, as the search requires. */
  predicate AllTitled(cs: seq<Course>) {
    forall c :: c in cs ==> c.courseTitle.Str?
  }

  /** `filteredCourses`: the courses the page lists, in catalogue order. */
  function FilteredCourses(cs: seq<Course>, f: Filters, searchText: string): (r: seq<Course>)
    requires AllTitled(cs)
    ensures Subsequence(r, cs)
    ensures forall c :: c in r <==> c in cs && IncludeCourse(c, f, searchText)
    ensures forall c | c in r :: multiset(r)[c] == multiset(cs)[c]
  {
    Filter(cs, (c: Course) requires c.courseTitle.Str? => IncludeCourse(c, f, searchText))
  }

  /** With no specialization selected the predicate is the conjunction, over
      every other category, of "nothing selected or some value selected". */
  lemma IncludeCourseByFacets(c: Course, f: Filters, searchText: string)
    requires c.courseTitle.Str? && |f.specializations| == 0
    ensures IncludeCourse(c, f, searchText) <==>
      TitleMatches(c, searchText)
      && forall cat :: cat != Specializations ==> FacetSatisfied(c, f, cat)
  {
    assert FacetSatisfied(c, f, Streams) <==> Admits(f.streams, c.stream) by {
      SomeInSingleton(c.stream, f.streams);
    }
    assert FacetSatisfied(c, f, CourseType) <==> Admits(f.courseType, c.degreeType) by {
      SomeInSingleton(c.degreeType, f.courseType);
    }
    assert FacetSatisfied(c, f, CourseLevel) <==> Admits(f.courseLevel, c.level) by {
      SomeInSingleton(c.level, f.courseLevel);
    }
    assert FacetSatisfied(c, f, States) <==> Admits(f.states, c.state) by {
      SomeInSingleton(c.state, f.states);
    }
    assert FacetSatisfied(c, f, Cities) <==> Admits(f.cities, c.city) by {
      SomeInSingleton(c.city, f.cities);
    }
    assert FacetSatisfied(c, f, Courses) <==> Admits(f.courses, c.courseTitle) by {
      SomeInSingleton(c.courseTitle, f.courses);
    }
    var each := FacetSatisfied(c, f, Streams) && FacetSatisfied(c, f, CourseType)
      && FacetSatisfied(c, f, CourseLevel) && FacetSatisfied(c, f, States)
      && FacetSatisfied(c, f, Cities) && FacetSatisfied(c, f, Exams)
      && FacetSatisfied(c, f, Courses);
    assert IncludeCourse(c, f, searchText) <==> TitleMatches(c, searchText) && each;
    if each {
      forall cat | cat != Specializations ensures FacetSatisfied(c, f, cat) {
        match cat
        case Streams =>
        case CourseType =>
        case CourseLevel =>
        case States =>
        case Cities =>
        case Exams =>
        case Courses =>
      }
    }
  }

  lemma SomeInSingleton(v: Value, sel: seq<Value>)
    ensures SomeIn([v], sel) <==> v in sel
  {
    if v in sel { assert v in [v]; }
  }

  /** A selected specialization overrides every other facet: only the search
      and the course's specialization names count. */
  lemma SpecializationOverrides(c: Course, f: Filters, g: Filters, searchText: string)
    requires c.courseTitle.Str?
    requires |f.specializations| > 0 && g.specializations == f.specializations
    ensures IncludeCourse(c, f, searchText) <==>
      TitleMatches(c, searchText) && exists s :: s in c.specializations && s in f.specializations
    ensures IncludeCourse(c, g, searchText) == IncludeCourse(c, f, searchText)
  {
  }

  /** With every selection empty only the search decides; an empty search then
      lists the whole catalogue, in order. */
  lemma NoFiltersSearchOnly(cs: seq<Course>, searchText: string)
    requires AllTitled(cs)
    ensures forall c :: c in cs ==> (IncludeCourse(c, NoFilters, searchText) <==> TitleMatches(c, searchText))
    ensures searchText == "" ==> FilteredCourses(cs, NoFilters, searchText) == cs
  {
    if searchText == "" {
      forall c | c in cs ensures IncludeCourse(c, NoFilters, searchText) {
        EmptySearchMatches(c.courseTitle.s);
      }
      FilterKeepsAll(cs, (c: Course) requires c.courseTitle.Str? => IncludeCourse(c, NoFilters, searchText));
    }
  }

  // --------------------------------------------------------- option lists

  /** A facet option list: in default `sort()` order and duplicate-free. */
  predicate IsOptionList(r: seq<Value>) {
    SortedBy(r, DefaultKey) && Distinct(r)
  }

  /** `[...new Set(vals)].sort()`. */
  function OptionList(vals: seq<Value>): (r: seq<Value>)
    ensures IsOptionList(r)
    ensures forall v :: v in r <==> v in vals
  {
    var d := Dedup(vals);
    var r := SortByKey(d, DefaultKey);
    DistinctPermutation(d, r);
    forall v ensures v in r <==> v in vals { SortKeepsMembers(d, DefaultKey, v); }
    r
  }

  /** `cs.map(field)`. */
  function Project(cs: seq<Course>, field: Course -> Value): (r: seq<Value>)
    ensures forall v :: v in r <==> exists c :: c in cs && field(c) == v
  {
    var r := seq(|cs|, i requires 0 <= i < |cs| => field(cs[i]));
    assert forall c :: c in cs ==> field(c) in r by {
      forall c | c in cs ensures field(c) in r {
        var i :| 0 <= i < |cs| && cs[i] == c;
        assert r[i] == field(c);
      }
    }
    r
  }

  /** `[...new Set(cs.map(field))].sort()`. */
  function FieldOptions(cs: seq<Course>, field: Course -> Value): (r: seq<Value>)
    ensures IsOptionList(r)
    ensures forall v :: v in r <==> exists c :: c in cs && field(c) == v
  {
    OptionList(Project(cs, field))
  }

  /** `[...new Set(cs.map(field).filter(Boolean))].sort()`. */
  function TruthyFieldOptions(cs: seq<Course>, field: Course -> Value): (r: seq<Value>)
    ensures IsOptionList(r)
    ensures forall v :: v in r <==> Truthy(v) && exists c :: c in cs && field(c) == v
  {
    OptionList(Filter(Project(cs, field), Truthy))
  }

  /** `[...new Set(cs.flatMap(field))].sort()`. */
  function ListOptions(cs: seq<Course>, field: Course -> seq<Value>): (r: seq<Value>)
    ensures IsOptionList(r)
    ensures forall v :: v in r <==> exists c :: c in cs && v in field(c)
  {
    OptionList(FlatMap(cs, field))
  }

  /** The option lists `fetchCourses` stores beside the catalogue. */
  datatype FacetOptions = FacetOptions(
    streams: seq<Value>,
    courseTypes: seq<Value>,
    levels: seq<Value>,
    exams: seq<Value>,
    specializations: seq<Value>,
    cities: seq<Value>,
    states: seq<Value>)

  /** Stream, degree type and level keep `null` and `undefined` as options;
      only city and state drop the falsy values. */
  function BuildFacetOptions(cs: seq<Course>): (r: FacetOptions)
    ensures IsOptionList(r.streams) && IsOptionList(r.courseTypes) && IsOptionList(r.levels)
    ensures IsOptionList(r.exams) && IsOptionList(r.specializations)
    ensures IsOptionList(r.cities) && IsOptionList(r.states)
    ensures forall v :: v in r.streams <==> exists c :: c in cs && c.stream == v
    ensures forall v :: v in r.courseTypes <==> exists c :: c in cs && c.degreeType == v
    ensures forall v :: v in r.levels <==> exists c :: c in cs && c.level == v
    ensures forall v :: v in r.exams <==> exists c :: c in cs && v in c.exams
    ensures forall v :: v in r.specializations <==> exists c :: c in cs && v in c.specializations
    ensures forall v :: v in r.cities <==> Truthy(v) && exists c :: c in cs && c.city == v
    ensures forall v :: v in r.states <==> Truthy(v) && exists c :: c in cs && c.state == v
  {
    FacetOptions(
      FieldOptions(cs, (c: Course) => c.stream),
      FieldOptions(cs, (c: Course) => c.degreeType),
      FieldOptions(cs, (c: Course) => c.level),
      ListOptions(cs, (c: Course) => c.exams),
      ListOptions(cs, (c: Course) => c.specializations),
      TruthyFieldOptions(cs, (c: Course) => c.city),
      TruthyFieldOptions(cs, (c: Course) => c.state))
  }

  /** No falsy value is offered as a city or a state. */
  lemma CityStateOptionsTruthy(cs: seq<Course>)
    ensures forall v :: v in BuildFacetOptions(cs).cities ==> Truthy(v)
    ensures forall v :: v in BuildFacetOptions(cs).states ==> Truthy(v)
  {
  }

  // ----------------------------------------------- specialization options

  /** Which courses feed the specialization section: those whose title is
      selected, or, when no title is, those passing the stream and course-type
      tests. */
  predicate FeedsSpecializations(c: Course, f: Filters) {
    if |f.courses| > 0 then c.courseTitle in f.courses
    else Admits(f.streams, c.stream) && Admits(f.courseType, c.degreeType)
  }

  /** `filteredSpecs` in `SpecializationsSection`. */
  function SpecializationOptions(cs: seq<Course>, f: Filters): (r: seq<Value>)
    ensures IsOptionList(r)
    ensures forall v :: v in r <==> exists c :: c in cs && FeedsSpecializations(c, f) && v in c.specializations
  {
    var feeding :=
      if |f.courses| > 0 then Filter(cs, (c: Course) => c.courseTitle in f.courses)
      else Filter(cs, (c: Course) => Admits(f.streams, c.stream) && Admits(f.courseType, c.degreeType));
    assert forall c :: c in feeding <==> c in cs && FeedsSpecializations(c, f);
    OptionList(FlatMap(feeding, (c: Course) => c.specializations))
  }

  /** Once a title is selected the stream and course-type selections no longer
      matter to the specialization options. */
  lemma SpecializationOptionsIgnoreStreams(cs: seq<Course>, f: Filters, g: Filters)
    requires |f.courses| > 0 && g.courses == f.courses
    ensures SpecializationOptions(cs, f) == SpecializationOptions(cs, g)
  {
  }

  /** The section is rendered when a stream or a title is selected and the
      derived option list is not empty. */
  predicate SpecializationsShown(cs: seq<Course>, f: Filters) {
    (|f.streams| > 0 || |f.courses| > 0) && |SpecializationOptions(cs, f)| > 0
  }

  lemma SpecializationsShownIff(cs: seq<Course>, f: Filters)
    ensures SpecializationsShown(cs, f) <==>
      (|f.streams| > 0 || |f.courses| > 0)
      && exists c :: c in cs && FeedsSpecializations(c, f) && |c.specializations| > 0
  {
    var r := SpecializationOptions(cs, f);
    if c :| c in cs && FeedsSpecializations(c, f) && |c.specializations| > 0 {
      assert c.specializations[0] in r;
    }
    if |r| > 0 {
      assert r[0] in r;
    }
  }

  // --------------------------------------------------------- transitions

  /** `handleFilterChange(category, value, isMulti)` applied to `filters`. */
  function ChangeFilter(f: Filters, cat: Category, value: Value, isMulti: bool): (r: Filters)
    ensures forall d :: d != cat ==> r.Get(d) == f.Get(d)
    ensures isMulti ==> (value in r.Get(cat) <==> value !in f.Get(cat))
    ensures isMulti ==> forall v :: v != value ==> (v in r.Get(cat) <==> v in f.Get(cat))
    ensures isMulti ==> r.Get(cat) == Toggle(f.Get(cat), value)
    ensures !isMulti && Truthy(value) ==> r.Get(cat) == [value]
    ensures !isMulti && !Truthy(value) ==> r.Get(cat) == []
  {
    if !isMulti then f.With(cat, if Truthy(value) then [value] else [])
    else f.With(cat, Toggle(f.Get(cat), value))
  }

  /** Ticking the same box twice restores which values are selected; when it
      was unticked the whole record comes back unchanged. */
  lemma ChangeFilterTwice(f: Filters, cat: Category, value: Value)
    ensures forall v :: v in ChangeFilter(ChangeFilter(f, cat, value, true), cat, value, true).Get(cat)
                        <==> v in f.Get(cat)
    ensures value !in f.Get(cat) ==> ChangeFilter(ChangeFilter(f, cat, value, true), cat, value, true) == f
  {
    ToggleTwice(f.Get(cat), value);
    var g := ChangeFilter(ChangeFilter(f, cat, value, true), cat, value, true);
    if value !in f.Get(cat) {
      assert forall d :: g.Get(d) == f.Get(d);
      assert g.Get(Streams) == f.Get(Streams) && g.Get(CourseType) == f.Get(CourseType)
        && g.Get(CourseLevel) == f.Get(CourseLevel) && g.Get(States) == f.Get(States)
        && g.Get(Cities) == f.Get(Cities) && g.Get(Exams) == f.Get(Exams)
        && g.Get(Courses) == f.Get(Courses) && g.Get(Specializations) == f.Get(Specializations);
    }
  }

  /** `if (!userId)`: no stored id, or an empty one, means not logged in. */
  predicate LoggedIn(userId: Option<string>) {
    userId.Some? && userId.value != ""
  }

  /** What `handleSaveToggle` leaves in `savedCourses`; `requestOk` is whether
      the delete or post it issues succeeds. */
  function SavedAfterToggle(saved: set<string>, userId: Option<string>, id: string, requestOk: bool): (r: set<string>)
    ensures forall x :: x != id ==> (x in r <==> x in saved)
    ensures !LoggedIn(userId) || !requestOk ==> r == saved
    ensures LoggedIn(userId) && requestOk ==> (id in r <==> id !in saved)
  {
    if !LoggedIn(userId) then saved
    else if id in saved then (if requestOk then saved - {id} else saved)
    else if requestOk then saved + {id}
    else saved
  }

  /** Saving and then unsaving (or the reverse), both requests succeeding,
      gives back the set that was there before. */
  lemma SaveToggleTwice(saved: set<string>, userId: Option<string>, id: string)
    ensures SavedAfterToggle(SavedAfterToggle(saved, userId, id, true), userId, id, true) == saved
  {
    var once := SavedAfterToggle(saved, userId, id, true);
    var twice := SavedAfterToggle(once, userId, id, true);
    assert forall x :: x in twice <==> x in saved;
  }

  /** The `savedCourses` entry in local storage, as read at page load. */
  datatype CachedSaved = NotStored | Unreadable | Stored(ids: seq<string>)

  /** The saved set after load: the cached entry seeds it, then, for a stored
      user id, a successful server fetch replaces it outright. */
  function SavedAfterHydration(saved: set<string>, cache: CachedSaved, storedUserId: Option<string>,
                               server: Option<seq<string>>): (r: set<string>)
    ensures LoggedIn(storedUserId) && server.Some? ==> forall x :: x in r <==> x in server.value
    ensures !(LoggedIn(storedUserId) && server.Some?) && cache.Stored? ==> forall x :: x in r <==> x in cache.ids
    ensures !(LoggedIn(storedUserId) && server.Some?) && !cache.Stored? ==> r == saved
  {
    var seeded := if cache.Stored? then set x | x in cache.ids else saved;
    if LoggedIn(storedUserId) && server.Some? then set x | x in server.value else seeded
  }

  // --------------------------------------------------------------- sort

  /** The "A → Z" comparator's key, `course.courseTitle || ""`. */
  function TitleKey(c: Course): (k: SortKey)
    ensures k.Text?
    ensures Truthy(c.courseTitle) ==> k.t == c.courseTitle.s
    ensures !Truthy(c.courseTitle) ==> k == Text("")
  {
    if Truthy(c.courseTitle) then Text(c.courseTitle.s) else Text("")
  }

  /** Courses without a title come before every titled one. */
  lemma UntitledFirst(a: Course, b: Course)
    requires !Truthy(a.courseTitle)
    ensures KeyLe(TitleKey(a), TitleKey(b))
  {
  }
}
