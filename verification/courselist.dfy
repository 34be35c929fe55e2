/** The course catalogue page (src/pages/CourseList/index.tsx): the courses
    of the route's category, the search / price / rating / level filters,
    the sort orders, and the pages of twelve. The category data itself
    (src/data/courses) is a parameter. Prices are in cents and ratings in
    tenths of a star. */
module CourseList {
  import opened Wrappers
  import Seqs
  import Text

  datatype ListCourse = ListCourse(id: string, title: string, priceCents: Option<nat>,
                                   discountCents: Option<nat>, ratingTenths: nat,
                                   ratingCount: Option<nat>, level: Option<string>)

  datatype Category = Category(key: string, name: string, courses: seq<ListCourse>)

  datatype SortOption = Popular | HighestRated | Newest | PriceLow | PriceHigh

  /** The sort selector's value; anything unrecognised sorts as "popular". */
  function ParseSort(value: string): (o: SortOption)
    ensures o != Popular ==> value in ["rating", "newest", "price-low", "price-high"]
  {
    match value
    case "rating" => HighestRated
    case "newest" => Newest
    case "price-low" => PriceLow
    case "price-high" => PriceHigh
    case _ => Popular
  }

  /** The filter inputs: the search text, the price slider in whole dollars,
      the minimum star rating, the checked levels, and the sort. */
  datatype Filters = Filters(query: string, priceLo: nat, priceHi: nat, rating: Option<nat>,
                             levels: seq<string>, sort: SortOption)

  const InitialFilters: Filters := Filters("", 0, 200, None, [], Popular)

  const PageSize: nat := 12

  // ---------------------------------------------------------------------
  // The filters
  // ---------------------------------------------------------------------

  /** `course.discountPrice || course.price`: a zero or missing discount
      falls back to the list price, which may itself be missing. */
  function EffectivePrice(c: ListCourse): (p: Option<nat>)
    ensures c.discountCents.Some? && c.discountCents.value != 0 ==> p == c.discountCents
    ensures !(c.discountCents.Some? && c.discountCents.value != 0) ==> p == c.priceCents
  {
    if c.discountCents.Some? && c.discountCents.value != 0 then c.discountCents else c.priceCents
  }

  predicate MatchesQuery(c: ListCourse, query: string) {
    Text.IncludesFold(c.title, query)
  }

  /** A missing price compares false with both bounds. */
  predicate InPriceRange(c: ListCourse, lo: nat, hi: nat) {
    EffectivePrice(c).Some? && lo * 100 <= EffectivePrice(c).value <= hi * 100
  }

  predicate RatingSet(rating: Option<nat>) {
    rating.Some? && rating.value != 0
  }

  predicate RatedAtLeast(c: ListCourse, stars: nat) {
    c.ratingTenths >= stars * 10
  }

  predicate LevelChosen(c: ListCourse, levels: seq<string>) {
    c.level.Some? && c.level.value in levels
  }

  function QueryIs(query: string): ListCourse -> bool {
    (c: ListCourse) => MatchesQuery(c, query)
  }

  function PriceIn(lo: nat, hi: nat): ListCourse -> bool {
    (c: ListCourse) => InPriceRange(c, lo, hi)
  }

  function RatingAtLeast(stars: nat): ListCourse -> bool {
    (c: ListCourse) => RatedAtLeast(c, stars)
  }

  function LevelIn(levels: seq<string>): ListCourse -> bool {
    (c: ListCourse) => LevelChosen(c, levels)
  }

  /** The four filters of the effect, applied one after the other; the
      search, rating and level filters only when they are set. */
  function FilterCourses(courses: seq<ListCourse>, f: Filters): seq<ListCourse> {
    var bySearch := if f.query != "" then Seqs.Filter(courses, QueryIs(f.query)) else courses;
    var byPrice := Seqs.Filter(bySearch, PriceIn(f.priceLo, f.priceHi));
    var byRating := if RatingSet(f.rating) then Seqs.Filter(byPrice, RatingAtLeast(f.rating.value)) else byPrice;
    if |f.levels| > 0 then Seqs.Filter(byRating, LevelIn(f.levels)) else byRating
  }

  /** The single condition a course must meet to be listed. */
  predicate Passes(c: ListCourse, f: Filters) {
    && SearchOk(f)(c)
    && PriceIn(f.priceLo, f.priceHi)(c)
    && RatingOk(f)(c)
    && LevelOk(f)(c)
  }

  function PassesAll(f: Filters): ListCourse -> bool {
    (c: ListCourse) => Passes(c, f)
  }

  /** Each filter as a condition that holds trivially when it is not set. */
  function SearchOk(f: Filters): ListCourse -> bool {
    (c: ListCourse) => f.query == "" || MatchesQuery(c, f.query)
  }

  function RatingOk(f: Filters): ListCourse -> bool {
    (c: ListCourse) => !RatingSet(f.rating) || RatedAtLeast(c, f.rating.value)
  }

  function LevelOk(f: Filters): ListCourse -> bool {
    (c: ListCourse) => |f.levels| == 0 || LevelChosen(c, f.levels)
  }

  /** The chain of filters is one filter by the conjunction. */
  lemma FilterCoursesIsOneFilter(courses: seq<ListCourse>, f: Filters)
    ensures FilterCourses(courses, f) == Seqs.Filter(courses, PassesAll(f))
  {
    var search, price, rating, level := SearchOk(f), PriceIn(f.priceLo, f.priceHi), RatingOk(f), LevelOk(f);
    Seqs.OptionalFilter(courses, f.query != "", QueryIs(f.query), search);
    var s1 := Seqs.Filter(courses, search);
    var s2 := Seqs.Filter(s1, price);
    Seqs.OptionalFilter(s2, RatingSet(f.rating), RatingAtLeast(f.rating.GetOr(0)), rating);
    var s3 := Seqs.Filter(s2, rating);
    Seqs.OptionalFilter(s3, |f.levels| > 0, LevelIn(f.levels), level);
    assert FilterCourses(courses, f) == Seqs.Filter(s3, level);
    Seqs.FilterTwice(courses, search, price);
    Seqs.FilterTwice(courses, Seqs.And(search, price), rating);
    Seqs.FilterTwice(courses, Seqs.And(Seqs.And(search, price), rating), level);
    Seqs.FilterExt(courses, Seqs.And(Seqs.And(Seqs.And(search, price), rating), level), PassesAll(f));
  }

  /** A course is listed exactly when it is among the loaded courses and
      meets every active filter. */
  lemma FilteredMembers(courses: seq<ListCourse>, f: Filters, c: ListCourse)
    ensures c in FilterCourses(courses, f) <==> c in courses && Passes(c, f)
  {
    FilterCoursesIsOneFilter(courses, f);
    Seqs.FilterMembers(courses, PassesAll(f), c);
  }

  // ---------------------------------------------------------------------
  // The sort orders
  // ---------------------------------------------------------------------

  /** The sort keys. A course without a price is filtered out before
      sorting, so its key never matters. */
  function PriceKey(c: ListCourse): int {
    EffectivePrice(c).GetOr(0)
  }

  function NegPriceKey(c: ListCourse): int {
    -PriceKey(c)
  }

  function RatingKey(c: ListCourse): int {
    c.ratingTenths
  }

  /** `rating * ratingCount`, a missing count counting as zero. */
  function PopularityKey(c: ListCourse): int {
    c.ratingTenths * c.ratingCount.GetOr(0)
  }

  /** The comparator-based sorts, each the stable sort by its key; "newest"
      shuffles, and the shuffled order is the `shuffled` argument. */
  function SortCourses(s: seq<ListCourse>, o: SortOption, shuffled: seq<ListCourse>): (r: seq<ListCourse>)
    requires o == Newest ==> multiset(shuffled) == multiset(s)
    ensures multiset(r) == multiset(s)
    ensures o == PriceLow ==> forall i, j :: 0 <= i < j < |r| ==> PriceKey(r[i]) <= PriceKey(r[j])
    ensures o == PriceHigh ==> forall i, j :: 0 <= i < j < |r| ==> PriceKey(r[i]) >= PriceKey(r[j])
    ensures o == HighestRated ==> forall i, j :: 0 <= i < j < |r| ==> r[i].ratingTenths >= r[j].ratingTenths
    ensures o == Popular ==> forall i, j :: 0 <= i < j < |r| ==> PopularityKey(r[i]) >= PopularityKey(r[j])
  {
    match o
    case PriceLow =>
      var r := Seqs.SortDesc(s, NegPriceKey);
      assert forall i, j :: 0 <= i < j < |r| ==> NegPriceKey(r[i]) >= NegPriceKey(r[j]);
      r
    case PriceHigh =>
      var r := Seqs.SortDesc(s, PriceKey);
      assert forall i, j :: 0 <= i < j < |r| ==> PriceKey(r[i]) >= PriceKey(r[j]);
      r
    case HighestRated =>
      var r := Seqs.SortDesc(s, RatingKey);
      assert forall i, j :: 0 <= i < j < |r| ==> RatingKey(r[i]) >= RatingKey(r[j]);
      r
    case Popular =>
      var r := Seqs.SortDesc(s, PopularityKey);
      assert forall i, j :: 0 <= i < j < |r| ==> PopularityKey(r[i]) >= PopularityKey(r[j]);
      r
    case Newest => shuffled
  }

  /** The key a comparator sort orders by; the shuffle has none, and the
      price stands in for it. */
  function SortKey(o: SortOption): ListCourse -> int {
    match o
    case Popular => PopularityKey
    case HighestRated => RatingKey
    case _ => PriceKey
  }

  /** `Array.prototype.sort` is stable, so courses that tie on the key of
      a comparator sort keep their filtered order, for every sort but the
      shuffle. */
  lemma SortTiesKeepOrder(s: seq<ListCourse>, o: SortOption, shuffled: seq<ListCourse>, k: int)
    requires o == Newest ==> multiset(shuffled) == multiset(s)
    ensures o != Newest ==>
              Seqs.Filter(SortCourses(s, o, shuffled), Seqs.KeyIs(SortKey(o), k)) == Seqs.Filter(s, Seqs.KeyIs(SortKey(o), k))
  {
    match o
    case PriceLow => PriceLowStable(s, k);
    case PriceHigh => Seqs.SortDescStable(s, PriceKey, k);
    case HighestRated => Seqs.SortDescStable(s, RatingKey, k);
    case Popular => Seqs.SortDescStable(s, PopularityKey, k);
    case Newest =>
  }

  // ---------------------------------------------------------------------
  // Page state
  // ---------------------------------------------------------------------

  datatype ListState = ListState(selectedCategory: string, courses: seq<ListCourse>,
                                 filtered: seq<ListCourse>, filters: Filters, currentPage: nat)

  /** The first render: the route's category (or "all") selected, nothing
      loaded, first page. */
  function InitialState(category: Option<string>): (s: ListState)
    ensures s.currentPage == 1 && s.courses == [] && s.filtered == []
  {
    ListState(if category.Some? && category.value != "" then category.value else "all", [], [], InitialFilters, 1)
  }

  predicate KeyMatches(c: Category, key: string) {
    c.key == key
  }

  function CategoryKeyIs(key: string): Category -> bool {
    (c: Category) => KeyMatches(c, key)
  }

  /** The courses of every category of the catalogue, category by
      category. */
  function AllCourses(catalog: seq<Category>): seq<ListCourse>
    decreases |catalog|
  {
    if |catalog| == 0 then [] else AllCourses(catalog[..|catalog| - 1]) + catalog[|catalog| - 1].courses
  }

  /** The category effect: a named category other than "all" loads its
      courses when it exists and changes nothing when it does not; no
      category, or "all", loads every course. */
  function LoadCategory(catalog: seq<Category>, category: Option<string>, s: ListState): (t: ListState)
    ensures category.Some? && category.value != "" && category.value != "all" ==>
              (if Seqs.Find(catalog, CategoryKeyIs(category.value)).Some?
               then t.courses == Seqs.Find(catalog, CategoryKeyIs(category.value)).value.courses
                    && t.filtered == t.courses && t.selectedCategory == category.value
               else t == s)
    ensures !(category.Some? && category.value != "" && category.value != "all") ==>
              t.courses == AllCourses(catalog) && t.filtered == t.courses && t.selectedCategory == "all"
    ensures t.filters == s.filters && t.currentPage == s.currentPage
  {
    if category.Some? && category.value != "" && category.value != "all" then
      match Seqs.Find(catalog, CategoryKeyIs(category.value))
      case Some(found) => s.(courses := found.courses, filtered := found.courses, selectedCategory := category.value)
      case None => s
    else
      var all := AllCourses(catalog);
      s.(courses := all, filtered := all, selectedCategory := "all")
  }

  /** An unknown category key leaves the page as it was. */
  lemma UnknownCategoryKeepsList(catalog: seq<Category>, key: string, s: ListState)
    requires key != "" && key != "all"
    requires forall i :: 0 <= i < |catalog| ==> catalog[i].key != key
    ensures LoadCategory(catalog, Some(key), s) == s
  {
    assert forall i :: 0 <= i < |catalog| ==> !CategoryKeyIs(key)(catalog[i]);
  }

  /** `getCategoryLabel(key)`: the label of the first category with that
      key, or "All Courses". */
  function CategoryLabel(catalog: seq<Category>, key: string): (text: string)
    ensures (forall i :: 0 <= i < |catalog| ==> catalog[i].key != key) ==> text == "All Courses"
    ensures (exists i :: 0 <= i < |catalog| && catalog[i].key == key) ==>
              exists i :: 0 <= i < |catalog| && catalog[i].key == key && catalog[i].name == text
                          && forall j :: 0 <= j < i ==> catalog[j].key != key
  {
    match Seqs.Find(catalog, CategoryKeyIs(key))
    case Some(c) =>
      assert exists i :: 0 <= i < |catalog| && catalog[i] == c && CategoryKeyIs(key)(catalog[i])
                         && forall j :: 0 <= j < i ==> !CategoryKeyIs(key)(catalog[j]);
      c.name
    case None =>
      assert forall i :: 0 <= i < |catalog| ==> !CategoryKeyIs(key)(catalog[i]);
      "All Courses"
  }

  datatype CategoryIcon = Bulb | Picture | Sound | Code | Shop | Book

  const IconKeys: seq<string> := ["generative-ai", "ai-images", "ai-music", "ai-code", "ai-business", "ai-research"]

  /** `getCategoryIcon(key)`: one icon per known key, the bulb for the rest. */
  function IconOf(key: string): (icon: CategoryIcon)
    ensures icon == Picture <==> key == "ai-images"
    ensures icon == Sound <==> key == "ai-music"
    ensures icon == Code <==> key == "ai-code"
    ensures icon == Shop <==> key == "ai-business"
    ensures icon == Book <==> key == "ai-research"
    ensures icon == Bulb <==> key !in IconKeys[1..]
  {
    match key
    case "generative-ai" => Bulb
    case "ai-images" => Picture
    case "ai-music" => Sound
    case "ai-code" => Code
    case "ai-business" => Shop
    case "ai-research" => Book
    case _ => Bulb
  }

  /** The filter-and-sort effect: runs after any input changes, and always
      returns to the first page. */
  function ApplyFilters(s: ListState, shuffled: seq<ListCourse>): (t: ListState)
    requires s.filters.sort == Newest ==> multiset(shuffled) == multiset(FilterCourses(s.courses, s.filters))
    ensures t.currentPage == 1
    ensures multiset(t.filtered) == multiset(Seqs.Filter(s.courses, PassesAll(s.filters)))
    ensures forall c :: c in t.filtered <==> c in s.courses && Passes(c, s.filters)
    ensures t.courses == s.courses && t.filters == s.filters && t.selectedCategory == s.selectedCategory
    ensures s.filters.sort == Newest ==> t.filtered == shuffled
    ensures s.filters.sort == PriceLow ==>
              forall i, j :: 0 <= i < j < |t.filtered| ==> PriceKey(t.filtered[i]) <= PriceKey(t.filtered[j])
    ensures s.filters.sort == PriceHigh ==>
              forall i, j :: 0 <= i < j < |t.filtered| ==> PriceKey(t.filtered[i]) >= PriceKey(t.filtered[j])
    ensures s.filters.sort == HighestRated ==>
              forall i, j :: 0 <= i < j < |t.filtered| ==> t.filtered[i].ratingTenths >= t.filtered[j].ratingTenths
    ensures s.filters.sort == Popular ==>
              forall i, j :: 0 <= i < j < |t.filtered| ==> PopularityKey(t.filtered[i]) >= PopularityKey(t.filtered[j])
  {
    var sorted := SortCourses(FilterCourses(s.courses, s.filters), s.filters.sort, shuffled);
    RearrangedMembers(s.courses, s.filters, sorted);
    s.(filtered := sorted, currentPage := 1)
  }

  /** Any rearrangement of the filtered courses holds exactly the loaded
      courses that pass. */
  lemma RearrangedMembers(courses: seq<ListCourse>, f: Filters, r: seq<ListCourse>)
    requires multiset(r) == multiset(FilterCourses(courses, f))
    ensures multiset(r) == multiset(Seqs.Filter(courses, PassesAll(f)))
    ensures forall c :: c in r <==> c in courses && Passes(c, f)
  {
    FilterCoursesIsOneFilter(courses, f);
    forall c ensures c in r <==> c in courses && Passes(c, f) {
      FilteredMembers(courses, f, c);
      assert c in r <==> c in multiset(r);
      assert c in FilterCourses(courses, f) <==> c in multiset(FilterCourses(courses, f));
    }
  }

  /** Sorting by the negated price keeps ties on the price in order. */
  lemma PriceLowStable(s: seq<ListCourse>, k: int)
    ensures Seqs.Filter(Seqs.SortDesc(s, NegPriceKey), Seqs.KeyIs(PriceKey, k)) == Seqs.Filter(s, Seqs.KeyIs(PriceKey, k))
  {
    var neg, pos := Seqs.KeyIs(NegPriceKey, -k), Seqs.KeyIs(PriceKey, k);
    assert forall x :: neg(x) == pos(x);
    Seqs.SortDescStable(s, NegPriceKey, -k);
    Seqs.FilterExt(s, neg, pos);
    Seqs.FilterExt(Seqs.SortDesc(s, NegPriceKey), neg, pos);
  }

  /** Courses that tie on the sort key are listed in their loaded order,
      for every sort but the shuffle. */
  lemma ListedTiesKeepOrder(s: ListState, shuffled: seq<ListCourse>, k: int)
    requires s.filters.sort == Newest ==> multiset(shuffled) == multiset(FilterCourses(s.courses, s.filters))
    ensures var key := Seqs.KeyIs(SortKey(s.filters.sort), k);
            s.filters.sort != Newest ==>
              Seqs.Filter(ApplyFilters(s, shuffled).filtered, key) == Seqs.Filter(Seqs.Filter(s.courses, PassesAll(s.filters)), key)
  {
    FilterCoursesIsOneFilter(s.courses, s.filters);
    SortTiesKeepOrder(FilterCourses(s.courses, s.filters), s.filters.sort, shuffled, k);
  }

  /** The listed courses are a rearrangement of the loaded courses that
      pass: each passing course appears as often as it was loaded, every
      other course not at all. */
  lemma ListedIsPermutedSubset(s: ListState, shuffled: seq<ListCourse>, c: ListCourse)
    requires s.filters.sort == Newest ==> multiset(shuffled) == multiset(FilterCourses(s.courses, s.filters))
    ensures multiset(ApplyFilters(s, shuffled).filtered)[c] == if Passes(c, s.filters) then multiset(s.courses)[c] else 0
  {
    Seqs.FilterMultiset(s.courses, PassesAll(s.filters), c);
  }

  // ---------------------------------------------------------------------
  // Filter inputs
  // ---------------------------------------------------------------------

  /** `handleLevelChange(level)`: unchecks a checked level, checks an
      unchecked one. */
  function HandleLevelChange(f: Filters, level: string): (g: Filters)
    ensures level in g.levels <==> level !in f.levels
    ensures forall l :: l != level ==> (l in g.levels <==> l in f.levels)
    ensures g.(levels := f.levels) == f
  {
    f.(levels := Seqs.ToggleMember(f.levels, level))
  }

  /** Clicking a level twice restores the checked set. */
  lemma LevelChangeTwice(f: Filters, level: string)
    ensures forall l :: l in HandleLevelChange(HandleLevelChange(f, level), level).levels <==> l in f.levels
  {
    Seqs.ToggleTwice(f.levels, level);
  }

  /** `handleRatingChange(rating)`: picking the selected rating clears it,
      picking another selects it. */
  function HandleRatingChange(f: Filters, stars: nat): (g: Filters)
    ensures g.rating.None? <==> f.rating == Some(stars)
    ensures g.rating.Some? ==> g.rating.value == stars
    ensures g.(rating := f.rating) == f
  {
    f.(rating := if f.rating == Some(stars) then None else Some(stars))
  }

  /** Picking the same rating twice returns to "no rating" or to that
      rating, whichever it started from. */
  lemma RatingChangeTwice(f: Filters, stars: nat)
    requires f.rating.None? || f.rating == Some(stars)
    ensures HandleRatingChange(HandleRatingChange(f, stars), stars) == f
  {
  }

  // ---------------------------------------------------------------------
  // Pagination
  // ---------------------------------------------------------------------

  /** Where page `page` starts in the filtered list. */
  function PageStart(page: nat): nat
    requires page >= 1
  {
    (page - 1) * PageSize
  }

  /** `getCurrentCourses()`: the run of at most twelve filtered courses
      that starts where the current page starts. */
  function CurrentCourses(s: ListState): (r: seq<ListCourse>)
    requires s.currentPage >= 1
    ensures |r| <= PageSize
    ensures PageStart(s.currentPage) >= |s.filtered| ==> r == []
    ensures PageStart(s.currentPage) < |s.filtered| ==>
              PageStart(s.currentPage) + |r| == Seqs.Min(s.currentPage * PageSize, |s.filtered|)
    ensures PageStart(s.currentPage) + |r| <= |s.filtered| || r == []
    ensures forall i :: 0 <= i < |r| ==> PageStart(s.currentPage) + i < |s.filtered|
                                         && r[i] == s.filtered[PageStart(s.currentPage) + i]
  {
    Seqs.Page(s.filtered, s.currentPage, PageSize)
  }

  /** `handlePageChange(page)`; the pager only reports pages from 1. */
  function HandlePageChange(s: ListState, page: nat): (t: ListState)
    requires page >= 1
    ensures t.currentPage == page && t.(currentPage := s.currentPage) == s
  {
    s.(currentPage := page)
  }

  /** Paging does not touch the list: the pages of the filtered courses
      read in order give back the whole list. */
  lemma PagingKeepsList(s: ListState, page: nat, k: nat)
    requires page >= 1 && k * PageSize >= |s.filtered|
    ensures Seqs.PagesUpTo(HandlePageChange(s, page).filtered, k, PageSize) == s.filtered
  {
    Seqs.PagesTile(s.filtered, k, PageSize);
  }

  /** The upper end of "Showing a-b of n". */
  function ShowingUpTo(page: nat, n: nat): nat {
    Seqs.Min(page * PageSize, n)
  }

  /** The courses on pages 1 to `k` are the first `ShowingUpTo(k)` courses,
      and enough pages reproduce the whole filtered list. */
  lemma PagesCoverList(s: seq<ListCourse>, k: nat)
    ensures Seqs.PagesUpTo(s, k, PageSize) == s[..ShowingUpTo(k, |s|)]
    ensures k * PageSize >= |s| ==> Seqs.PagesUpTo(s, k, PageSize) == s
  {
    Seqs.PagesPrefix(s, k, PageSize);
  }
}
