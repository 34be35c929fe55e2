/** The course management page (src/pages/Admin/AdminCourses.tsx): the
    statistics cards, the searched, filtered and sorted course table, the
    status tag and the actions offered per status. Prices and revenue are
    in cents, ratings in tenths of a star, and update dates the number
    YYYYMMDD of the ISO date. */
module AdminCourses {
  import opened Wrappers
  import Seqs
  import Text

  datatype ManagedCourse = ManagedCourse(id: string, title: string, instructor: string, category: string,
                                         priceCents: nat, ratingTenths: nat, totalStudents: nat,
                                         revenueCents: nat, status: string, lastUpdated: int,
                                         completionRate: nat, totalLessons: nat)

  const MockCourses: seq<ManagedCourse> := [
    ManagedCourse("1", "Complete React Developer Course", "Jane Instructor", "Web Development",
                  8999, 48, 1250, 11243750, "published", 20240315, 85, 125),
    ManagedCourse("2", "Machine Learning A-Z", "Alex Teacher", "Data Science",
                  12999, 49, 980, 12739020, "published", 20240310, 78, 185),
    ManagedCourse("3", "Digital Marketing Masterclass", "Sarah Expert", "Marketing",
                  6999, 47, 750, 5249250, "draft", 20240308, 0, 98),
    ManagedCourse("4", "Advanced Python Programming", "Mike Python", "Programming",
                  9499, 46, 620, 5889380, "review", 20240312, 92, 145)
  ]

  // ---------------------------------------------------------------------
  // Statistics
  // ---------------------------------------------------------------------

  function Students(c: ManagedCourse): int { c.totalStudents }
  function Revenue(c: ManagedCourse): int { c.revenueCents }

  predicate IsPublished(c: ManagedCourse) {
    c.status == "published"
  }

  function Published(): ManagedCourse -> bool {
    (c: ManagedCourse) => IsPublished(c)
  }

  datatype Statistics = Statistics(totalRevenueCents: int, totalStudents: int, publishedCourses: nat)

  /** The integer parts of `statistics`: the sums of revenue and students
      and the number of published courses. */
  function ComputeStatistics(courses: seq<ManagedCourse>): (st: Statistics)
    ensures st.totalRevenueCents >= 0 && st.totalStudents >= 0
    ensures st.publishedCourses <= |courses|
    ensures st.publishedCourses == |courses| <==> forall i :: 0 <= i < |courses| ==> courses[i].status == "published"
  {
    Seqs.SumNonNegative(courses, Revenue);
    Seqs.SumNonNegative(courses, Students);
    Seqs.CountAll(courses, Published());
    Statistics(Seqs.SumBy(courses, Revenue), Seqs.SumBy(courses, Students), Seqs.Count(courses, Published()))
  }

  function Combine(a: Statistics, b: Statistics): Statistics {
    Statistics(a.totalRevenueCents + b.totalRevenueCents, a.totalStudents + b.totalStudents,
               a.publishedCourses + b.publishedCourses)
  }

  /** No courses give zero cards; one course gives its own revenue and
      students, and one published course or none. */
  lemma StatisticsOfOne(c: ManagedCourse)
    ensures ComputeStatistics([]) == Statistics(0, 0, 0)
    ensures ComputeStatistics([c]) == Statistics(c.revenueCents, c.totalStudents, if IsPublished(c) then 1 else 0)
  {
    assert [c][..0] == [] && [c][1..] == [];
  }

  /** The cards of two runs of courses add up card by card; with
      `StatisticsOfOne` this makes each card the sum over the courses. */
  lemma {:induction false} StatisticsAdd(a: seq<ManagedCourse>, b: seq<ManagedCourse>)
    ensures ComputeStatistics(a + b) == Combine(ComputeStatistics(a), ComputeStatistics(b))
  {
    Seqs.SumAppend(a, b, Revenue);
    Seqs.SumAppend(a, b, Students);
    Seqs.FilterAppend(a, b, Published());
  }

  /** The sample data's cards: revenue 351,214.00, 3600 students, two
      published courses. */
  lemma MockStatistics()
    ensures ComputeStatistics(MockCourses) == Statistics(35121400, 3600, 2)
  {
    Seqs.SumFour(MockCourses[0], MockCourses[1], MockCourses[2], MockCourses[3], Revenue);
    Seqs.SumFour(MockCourses[0], MockCourses[1], MockCourses[2], MockCourses[3], Students);
    var p := Published();
    assert Seqs.Filter(MockCourses[3..], p) == [];
    assert Seqs.Filter(MockCourses[2..], p) == [];
    assert Seqs.Filter(MockCourses[1..], p) == [MockCourses[1]];
  }

  // ---------------------------------------------------------------------
  // The course table
  // ---------------------------------------------------------------------

  predicate MatchesSearch(c: ManagedCourse, search: string) {
    Text.IncludesFold(c.title, search) || Text.IncludesFold(c.instructor, search)
  }

  predicate InCategory(c: ManagedCourse, category: string) {
    c.category == category
  }

  predicate HasStatus(c: ManagedCourse, status: string) {
    c.status == status
  }

  function SearchIs(search: string): ManagedCourse -> bool {
    (c: ManagedCourse) => MatchesSearch(c, search)
  }

  function CategoryIs(category: string): ManagedCourse -> bool {
    (c: ManagedCourse) => InCategory(c, category)
  }

  function StatusIs(status: string): ManagedCourse -> bool {
    (c: ManagedCourse) => HasStatus(c, status)
  }

  /** Each filter as a condition that holds when it is switched off. */
  function SearchOk(search: string): ManagedCourse -> bool {
    (c: ManagedCourse) => search == "" || MatchesSearch(c, search)
  }

  function CategoryOk(category: string): ManagedCourse -> bool {
    (c: ManagedCourse) => category == "all" || InCategory(c, category)
  }

  function StatusOk(status: string): ManagedCourse -> bool {
    (c: ManagedCourse) => status == "all" || HasStatus(c, status)
  }

  /** The search unless empty, then the category and the status unless
      "all", in the order the memo applies them. */
  function FilterCourses(courses: seq<ManagedCourse>, search: string, category: string, status: string): seq<ManagedCourse> {
    var bySearch := if search != "" then Seqs.Filter(courses, SearchIs(search)) else courses;
    var byCategory := if category != "all" then Seqs.Filter(bySearch, CategoryIs(category)) else bySearch;
    if status != "all" then Seqs.Filter(byCategory, StatusIs(status)) else byCategory
  }

  predicate Shown(c: ManagedCourse, search: string, category: string, status: string) {
    SearchOk(search)(c) && CategoryOk(category)(c) && StatusOk(status)(c)
  }

  function ShownFn(search: string, category: string, status: string): ManagedCourse -> bool {
    (c: ManagedCourse) => Shown(c, search, category, status)
  }

  /** The three filters are one filter by their conjunction. */
  lemma FilterCoursesIsOneFilter(courses: seq<ManagedCourse>, search: string, category: string, status: string)
    ensures FilterCourses(courses, search, category, status) == Seqs.Filter(courses, ShownFn(search, category, status))
  {
    var a, b, c := SearchOk(search), CategoryOk(category), StatusOk(status);
    Seqs.OptionalFilter(courses, search != "", SearchIs(search), a);
    var s1 := Seqs.Filter(courses, a);
    Seqs.OptionalFilter(s1, category != "all", CategoryIs(category), b);
    var s2 := Seqs.Filter(s1, b);
    Seqs.OptionalFilter(s2, status != "all", StatusIs(status), c);
    Seqs.FilterTwice(courses, a, b);
    Seqs.FilterTwice(courses, Seqs.And(a, b), c);
    Seqs.FilterExt(courses, Seqs.And(Seqs.And(a, b), c), ShownFn(search, category, status));
  }

  /** The filters are conjunctive, so the status filter may come first:
      the table is the same either way. */
  lemma StatusFirstSameTable(courses: seq<ManagedCourse>, search: string, category: string, status: string)
    ensures FilterCourses(courses, search, category, status)
            == FilterCourses(Seqs.Filter(courses, StatusOk(status)), search, category, "all")
  {
    var t := Seqs.Filter(courses, StatusOk(status));
    FilterCoursesIsOneFilter(courses, search, category, status);
    FilterCoursesIsOneFilter(t, search, category, "all");
    Seqs.FilterTwice(courses, StatusOk(status), ShownFn(search, category, "all"));
    Seqs.FilterExt(courses, Seqs.And(StatusOk(status), ShownFn(search, category, "all")),
                   ShownFn(search, category, status));
  }

  /** A course is in the table exactly when it passes the three filters. */
  lemma TableMembers(courses: seq<ManagedCourse>, search: string, category: string, status: string, c: ManagedCourse)
    ensures c in FilterCourses(courses, search, category, status) <==> c in courses && Shown(c, search, category, status)
  {
    FilterCoursesIsOneFilter(courses, search, category, status);
    Seqs.FilterMembers(courses, ShownFn(search, category, status), c);
  }

  datatype CourseSort = Newest | ByRating | ByStudents | ByRevenue | Unsorted

  /** The sort selector; an unknown value compares every pair as equal. */
  function ParseCourseSort(value: string): (o: CourseSort)
    ensures o == Unsorted <==> value !in ["newest", "rating", "students", "revenue"]
  {
    match value
    case "newest" => Newest
    case "rating" => ByRating
    case "students" => ByStudents
    case "revenue" => ByRevenue
    case _ => Unsorted
  }

  function UpdatedKey(c: ManagedCourse): int { c.lastUpdated }
  function RatingKey(c: ManagedCourse): int { c.ratingTenths }

  /** `filteredCourses`: the filtered courses in the selected order. */
  function TableData(courses: seq<ManagedCourse>, search: string, category: string, status: string,
                     o: CourseSort): (r: seq<ManagedCourse>)
    ensures multiset(r) == multiset(FilterCourses(courses, search, category, status))
    ensures o == Unsorted ==> r == FilterCourses(courses, search, category, status)
    ensures o == Newest ==> forall i, j :: 0 <= i < j < |r| ==> r[i].lastUpdated >= r[j].lastUpdated
    ensures o == ByRating ==> forall i, j :: 0 <= i < j < |r| ==> r[i].ratingTenths >= r[j].ratingTenths
    ensures o == ByStudents ==> forall i, j :: 0 <= i < j < |r| ==> r[i].totalStudents >= r[j].totalStudents
    ensures o == ByRevenue ==> forall i, j :: 0 <= i < j < |r| ==> r[i].revenueCents >= r[j].revenueCents
  {
    var data := FilterCourses(courses, search, category, status);
    match o
    case Unsorted => data
    case Newest =>
      var r := Seqs.SortDesc(data, UpdatedKey);
      assert forall i, j :: 0 <= i < j < |r| ==> UpdatedKey(r[i]) >= UpdatedKey(r[j]);
      r
    case ByRating =>
      var r := Seqs.SortDesc(data, RatingKey);
      assert forall i, j :: 0 <= i < j < |r| ==> RatingKey(r[i]) >= RatingKey(r[j]);
      r
    case ByStudents =>
      var r := Seqs.SortDesc(data, Students);
      assert forall i, j :: 0 <= i < j < |r| ==> Students(r[i]) >= Students(r[j]);
      r
    case ByRevenue =>
      var r := Seqs.SortDesc(data, Revenue);
      assert forall i, j :: 0 <= i < j < |r| ==> Revenue(r[i]) >= Revenue(r[j]);
      r
  }

  // ---------------------------------------------------------------------
  // Status tag and actions
  // ---------------------------------------------------------------------

  datatype TagColor = Success | Plain | Processing | Failure

  const KnownStatuses: seq<string> := ["published", "draft", "review", "rejected"]

  /** `getStatusTag(status)`: a coloured tag for the four statuses, nothing
      for any other. */
  function StatusTag(status: string): (tag: Option<TagColor>)
    ensures tag.Some? <==> status in KnownStatuses
    ensures tag == Some(Success) <==> status == "published"
    ensures tag == Some(Processing) <==> status == "review"
  {
    match status
    case "published" => Some(Success)
    case "draft" => Some(Plain)
    case "review" => Some(Processing)
    case "rejected" => Some(Failure)
    case _ => None
  }

  /** Different known statuses get different tags. */
  lemma StatusTagsDistinct(i: nat, j: nat)
    requires i < |KnownStatuses| && j < |KnownStatuses| && i != j
    ensures StatusTag(KnownStatuses[i]) != StatusTag(KnownStatuses[j])
  {
  }

  datatype CourseAction = View | Approve | Reject | Takedown

  /** The action buttons of a row. */
  function Actions(status: string): (r: seq<CourseAction>)
    ensures |r| > 0 && r[0] == View
    ensures Approve in r <==> status == "review"
    ensures Reject in r <==> status == "review"
    ensures Takedown in r <==> status == "published"
  {
    [View] + (if status == "review" then [Approve, Reject] else []) + (if status == "published" then [Takedown] else [])
  }

  /** No row offers both approval and takedown, and a draft or rejected
      course can only be viewed. */
  lemma ActionsExclusive(status: string)
    ensures !(Approve in Actions(status) && Takedown in Actions(status))
    ensures status !in ["review", "published"] ==> Actions(status) == [View]
  {
  }

  // ---------------------------------------------------------------------
  // The detail dialog
  // ---------------------------------------------------------------------

  /** The course last chosen for the dialog and whether the dialog is open;
      the page starts with no course and the dialog closed. */
  datatype DialogState = DialogState(selected: Option<ManagedCourse>, visible: bool)

  const InitialDialog: DialogState := DialogState(None, false)

  /** The course whose details the dialog shows: none while it is closed or
      before any course was chosen. */
  function DialogBody(d: DialogState): Option<ManagedCourse> {
    if d.visible then d.selected else None
  }

  /** The view button of a row: the dialog opens on that course, whatever
      it showed before. */
  function HandleViewCourse(d: DialogState, c: ManagedCourse): (e: DialogState)
    ensures DialogBody(e) == Some(c)
  {
    DialogState(Some(c), true)
  }

  /** Closing the dialog hides it and keeps the chosen course. */
  function HandleCancel(d: DialogState): (e: DialogState)
    ensures DialogBody(e).None? && e.selected == d.selected
  {
    d.(visible := false)
  }

  /** Viewing a course after others, with the dialog closed in between or
      not, shows only the last one. */
  lemma ViewLastWins(d: DialogState, a: ManagedCourse, b: ManagedCourse)
    ensures HandleViewCourse(HandleCancel(HandleViewCourse(d, a)), b) == HandleViewCourse(d, b)
    ensures HandleViewCourse(HandleViewCourse(d, a), b) == HandleViewCourse(d, b)
  {
  }
}
