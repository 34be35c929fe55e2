/** The review moderation page (src/pages/Admin/AdminReviews.tsx): the
    statistics cards, the searched and filtered review table, the status
    tag, the hide/show button and the detail dialog. The table is never
    sorted. */
module AdminReviews {
  import opened Wrappers
  import Seqs
  import Text

  datatype Review = Review(id: string, userId: string, userName: string, courseId: string, courseName: string,
                           rating: int, content: string, status: string, helpful: nat, reported: bool)

  const MockReviews: seq<Review> := [
    Review("REV001", "USR001", "John Doe", "CRS001", "Complete React Developer Course", 5,
           "This course is absolutely amazing! The instructor explains everything clearly and the projects are very practical.",
           "published", 24, false),
    Review("REV002", "USR002", "Jane Smith", "CRS002", "Machine Learning A-Z", 2,
           "The content is outdated and some code examples do not work anymore. Needs urgent updates.",
           "reported", 5, true),
    Review("REV003", "USR003", "Mike Johnson", "CRS003", "Digital Marketing Masterclass", 4,
           "Great course overall. Would be perfect with more real-world case studies.",
           "published", 12, false),
    Review("REV004", "USR004", "Sarah Wilson", "CRS004", "Advanced Python Programming", 1,
           "Very disappointed. The course description promised advanced topics but mostly covered basics.",
           "hidden", 3, true)
  ]

  // ---------------------------------------------------------------------
  // Statistics
  // ---------------------------------------------------------------------

  predicate IsReported(r: Review) {
    r.reported
  }

  function Reported(): Review -> bool {
    (r: Review) => IsReported(r)
  }

  datatype ReviewStatistics = ReviewStatistics(totalReviews: nat, reportedReviews: nat)

  /** The integer cards of `statistics`: how many reviews, and how many
      carry the reported flag. */
  function ComputeStatistics(reviews: seq<Review>): (st: ReviewStatistics)
    ensures st.totalReviews == |reviews|
    ensures st.reportedReviews <= st.totalReviews
    ensures st.reportedReviews == st.totalReviews <==> forall i :: 0 <= i < |reviews| ==> reviews[i].reported
  {
    Seqs.CountAll(reviews, Reported());
    ReviewStatistics(|reviews|, Seqs.Count(reviews, Reported()))
  }

  function Combine(a: ReviewStatistics, b: ReviewStatistics): ReviewStatistics {
    ReviewStatistics(a.totalReviews + b.totalReviews, a.reportedReviews + b.reportedReviews)
  }

  /** No reviews give zero cards; one review counts once, and as reported
      exactly when it carries the flag. */
  lemma StatisticsOfOne(r: Review)
    ensures ComputeStatistics([]) == ReviewStatistics(0, 0)
    ensures ComputeStatistics([r]) == ReviewStatistics(1, if r.reported then 1 else 0)
  {
    assert [r][1..] == [];
  }

  /** The cards of two runs of reviews add up; with `StatisticsOfOne` this
      makes the reported card the exact number of flagged reviews. */
  lemma {:induction false} StatisticsAdd(a: seq<Review>, b: seq<Review>)
    ensures ComputeStatistics(a + b) == Combine(ComputeStatistics(a), ComputeStatistics(b))
  {
    Seqs.FilterAppend(a, b, Reported());
  }

  /** The sample data: four reviews, two of them reported. */
  lemma MockStatistics()
    ensures ComputeStatistics(MockReviews) == ReviewStatistics(4, 2)
  {
    var p := Reported();
    assert Seqs.Filter(MockReviews[3..], p) == [MockReviews[3]];
    assert Seqs.Filter(MockReviews[2..], p) == [MockReviews[3]];
    assert Seqs.Filter(MockReviews[1..], p) == [MockReviews[1], MockReviews[3]];
  }

  // ---------------------------------------------------------------------
  // The review table
  // ---------------------------------------------------------------------

  predicate MatchesSearch(r: Review, search: string) {
    || Text.IncludesFold(r.content, search)
    || Text.IncludesFold(r.userName, search)
    || Text.IncludesFold(r.courseName, search)
  }

  predicate HasStatus(r: Review, status: string) {
    r.status == status
  }

  /** The rating filter compares the review's rating with the number the
      filter value starts with; a value with no leading number matches
      nothing. */
  predicate HasRating(r: Review, ratingFilter: string) {
    Text.ParseInt(ratingFilter) == Some(r.rating)
  }

  function SearchIs(search: string): Review -> bool {
    (r: Review) => MatchesSearch(r, search)
  }

  function StatusIs(status: string): Review -> bool {
    (r: Review) => HasStatus(r, status)
  }

  function RatingIs(ratingFilter: string): Review -> bool {
    (r: Review) => HasRating(r, ratingFilter)
  }

  /** `filteredReviews` without a date range: the search unless empty,
      then the status and the rating unless "all". */
  function FilterReviews(reviews: seq<Review>, search: string, status: string, ratingFilter: string): seq<Review> {
    var bySearch := if search != "" then Seqs.Filter(reviews, SearchIs(search)) else reviews;
    var byStatus := if status != "all" then Seqs.Filter(bySearch, StatusIs(status)) else bySearch;
    if ratingFilter != "all" then Seqs.Filter(byStatus, RatingIs(ratingFilter)) else byStatus
  }

  predicate Shown(r: Review, search: string, status: string, ratingFilter: string) {
    && (search == "" || MatchesSearch(r, search))
    && (status == "all" || HasStatus(r, status))
    && (ratingFilter == "all" || HasRating(r, ratingFilter))
  }

  /** The table keeps the reviews' order: it is obtained from the list by
      deleting reviews. */
  lemma TableOrdered(reviews: seq<Review>, search: string, status: string, ratingFilter: string)
    ensures Seqs.IsSubsequence(FilterReviews(reviews, search, status, ratingFilter), reviews)
  {
    var bySearch := if search != "" then Seqs.Filter(reviews, SearchIs(search)) else reviews;
    var byStatus := if status != "all" then Seqs.Filter(bySearch, StatusIs(status)) else bySearch;
    if search == "" { Seqs.SubsequenceRefl(reviews); }
    if status != "all" { Seqs.SubsequenceTrans(byStatus, bySearch, reviews); }
    if ratingFilter != "all" {
      Seqs.SubsequenceTrans(Seqs.Filter(byStatus, RatingIs(ratingFilter)), byStatus, reviews);
    }
  }

  /** A review is in the table exactly when it passes the three filters. */
  lemma TableMembers(reviews: seq<Review>, search: string, status: string, ratingFilter: string, r: Review)
    ensures r in FilterReviews(reviews, search, status, ratingFilter) <==> r in reviews && Shown(r, search, status, ratingFilter)
  {
    var bySearch := if search != "" then Seqs.Filter(reviews, SearchIs(search)) else reviews;
    if search != "" { Seqs.FilterMembers(reviews, SearchIs(search), r); }
    var byStatus := if status != "all" then Seqs.Filter(bySearch, StatusIs(status)) else bySearch;
    if status != "all" { Seqs.FilterMembers(bySearch, StatusIs(status), r); }
    if ratingFilter != "all" { Seqs.FilterMembers(byStatus, RatingIs(ratingFilter), r); }
  }

  /** Each star option of the rating selector keeps exactly the reviews
      with that many stars. */
  lemma RatingOptionExact(n: int, r: Review)
    ensures Text.IntToString(n) != "all"
    ensures Shown(r, "", "all", Text.IntToString(n)) <==> r.rating == n
  {
    Text.ParseIntToString(n);
    var s := Text.IntToString(n);
    assert Text.IsDigit(s[0]) || s[0] == '-';
  }

  // ---------------------------------------------------------------------
  // Status tag, hide/show and the detail dialog
  // ---------------------------------------------------------------------

  datatype TagKind = PublishedTag | ReportedTag | HiddenTag

  /** `getStatusTag(status)`: a tag for the three statuses, nothing for
      any other. */
  function StatusTag(status: string): (tag: Option<TagKind>)
    ensures tag.Some? <==> status in ["published", "reported", "hidden"]
    ensures tag == Some(HiddenTag) <==> status == "hidden"
  {
    match status
    case "published" => Some(PublishedTag)
    case "reported" => Some(ReportedTag)
    case "hidden" => Some(HiddenTag)
    case _ => None
  }

  datatype Visibility = ShowButton | HideButton

  /** The hide/show button of a row and of the dialog: a hidden review can
      be shown, any other hidden; only hiding is styled as dangerous. */
  function VisibilityAction(status: string): (v: Visibility)
    ensures v == ShowButton <==> status == "hidden"
  {
    if status == "hidden" then ShowButton else HideButton
  }

  predicate DangerStyle(status: string) {
    status != "hidden"
  }

  /** The button offers to show exactly the reviews the tag marks hidden,
      and is dangerous exactly when it hides. */
  lemma ShowIffHiddenTag(status: string)
    ensures VisibilityAction(status) == ShowButton <==> StatusTag(status) == Some(HiddenTag)
    ensures DangerStyle(status) <==> VisibilityAction(status) == HideButton
  {
  }

  datatype DialogState = DialogState(selected: Option<Review>, visible: bool)

  /** `handleViewReview(review)`: the dialog opens on that review. */
  function HandleViewReview(d: DialogState, review: Review): (e: DialogState)
    ensures e.visible && e.selected == Some(review)
  {
    DialogState(Some(review), true)
  }

  /** Viewing a second review replaces the first. */
  lemma ViewLastWins(d: DialogState, a: Review, b: Review)
    ensures HandleViewReview(HandleViewReview(d, a), b) == HandleViewReview(d, b)
  {
  }
}
