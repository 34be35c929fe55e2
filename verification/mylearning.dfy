/** The "My Learning" page (src/pages/MyLearning/index.tsx): the enrolled
    courses filtered by search text and category and sorted, the thumbnail
    path fix, the four-slot grid of a collection card, and the progress
    badge. Access times are written as the number YYYYMMDDhhmm of the ISO
    time stamp, which orders them as the time stamps do. */
module MyLearning {
  import opened Wrappers
  import Seqs
  import Text

  datatype LearningCourse = LearningCourse(id: nat, title: string, instructor: string, thumbnail: string,
                                           progress: nat, lastAccessed: int, ratingTenths: nat,
                                           category: string, completed: bool)

  datatype Collection = Collection(id: nat, name: string, courses: seq<LearningCourse>, courseCount: nat)

  const MockCourses: seq<LearningCourse> := [
    LearningCourse(1, "Complete AI & Machine Learning Bootcamp 2023", "Dr. Alex Johnson", "mockups/mock1.jpg",
                   35, 202305121045, 48, "AI", false),
    LearningCourse(2, "Advanced Deep Learning with TensorFlow 2.0", "Sarah Williams, PhD", "mockups/mock2.jpg",
                   68, 202305150830, 47, "Deep Learning", false),
    LearningCourse(3, "Natural Language Processing from Scratch", "Michael Chen", "mockups/mock10.jpg",
                   100, 202305011420, 49, "NLP", true)
  ]

  /** The two sample collections, each listing some of the enrolled courses. */
  function Collections(): (cs: seq<Collection>)
    ensures |cs| == 2
    ensures forall i :: 0 <= i < |cs| ==> cs[i].courseCount == |cs[i].courses|
    ensures forall i, j :: 0 <= i < |cs| && 0 <= j < |cs[i].courses| ==> cs[i].courses[j] in MockCourses
  {
    [Collection(1, "AI Fundamentals", [MockCourses[0], MockCourses[1]], 2),
     Collection(2, "Advanced Topics", [MockCourses[2]], 1)]
  }

  // ---------------------------------------------------------------------
  // Search, category and sort
  // ---------------------------------------------------------------------

  datatype LearningSort = Recent | TitleAsc | TitleDesc

  /** The sort selector's value; anything unrecognised sorts by recency. */
  function ParseLearningSort(value: string): (o: LearningSort)
    ensures o == TitleAsc <==> value == "title-asc"
    ensures o == TitleDesc <==> value == "title-desc"
  {
    if value == "title-asc" then TitleAsc else if value == "title-desc" then TitleDesc else Recent
  }

  /** The filter callback: a set search text must occur in the title, and a
      category other than "all" must be the course's own. */
  predicate Keeps(c: LearningCourse, query: string, category: string) {
    && (query == "" || Text.IncludesFold(c.title, query))
    && (category == "all" || c.category == category)
  }

  function KeepsFn(query: string, category: string): LearningCourse -> bool {
    (c: LearningCourse) => Keeps(c, query, category)
  }

  function AccessKey(c: LearningCourse): int {
    c.lastAccessed
  }

  /** `filteredCourses`. The title orders compare with `localeCompare`,
      whose collation is not modelled: their order is the `byTitle`
      argument, which must be a rearrangement of the kept courses. */
  function FilteredCourses(courses: seq<LearningCourse>, query: string, category: string,
                           sort: LearningSort, byTitle: seq<LearningCourse>): (r: seq<LearningCourse>)
    requires sort != Recent ==> multiset(byTitle) == multiset(Seqs.Filter(courses, KeepsFn(query, category)))
    ensures multiset(r) == multiset(Seqs.Filter(courses, KeepsFn(query, category)))
    ensures forall i :: 0 <= i < |r| ==> Keeps(r[i], query, category)
    ensures sort == Recent ==> forall i, j :: 0 <= i < j < |r| ==> r[i].lastAccessed >= r[j].lastAccessed
  {
    var kept := Seqs.Filter(courses, KeepsFn(query, category));
    if sort == Recent then
      var r := Seqs.SortDesc(kept, AccessKey);
      assert forall i, j :: 0 <= i < j < |r| ==> AccessKey(r[i]) >= AccessKey(r[j]);
      Seqs.PermutedFilterSatisfies(r, courses, KeepsFn(query, category));
      r
    else
      Seqs.PermutedFilterSatisfies(byTitle, courses, KeepsFn(query, category));
      byTitle
  }

  /** A course is listed exactly as often as it is enrolled when it passes
      the filters, and not at all otherwise. */
  lemma ListedCount(courses: seq<LearningCourse>, query: string, category: string,
                    sort: LearningSort, byTitle: seq<LearningCourse>, c: LearningCourse)
    requires sort != Recent ==> multiset(byTitle) == multiset(Seqs.Filter(courses, KeepsFn(query, category)))
    ensures multiset(FilteredCourses(courses, query, category, sort, byTitle))[c]
            == if Keeps(c, query, category) then multiset(courses)[c] else 0
  {
    Seqs.FilterMultiset(courses, KeepsFn(query, category), c);
  }

  /** With no search text and every category, the page lists every
      enrolled course. */
  lemma NoFilterListsAll(courses: seq<LearningCourse>, sort: LearningSort, byTitle: seq<LearningCourse>)
    requires sort != Recent ==> multiset(byTitle) == multiset(Seqs.Filter(courses, KeepsFn("", "all")))
    ensures Seqs.Filter(courses, KeepsFn("", "all")) == courses
    ensures multiset(FilteredCourses(courses, "", "all", sort, byTitle)) == multiset(courses)
  {
    Seqs.FilterAll(courses, KeepsFn("", "all"));
  }

  // ---------------------------------------------------------------------
  // Thumbnails, the collection grid, the progress badge
  // ---------------------------------------------------------------------

  /** The thumbnail fix: a path without a leading slash gets one. */
  function ThumbnailSrc(path: string): (src: string)
    ensures |src| > 0 && src[0] == '/'
    ensures |path| > 0 && path[0] == '/' ==> src == path
    ensures !(|path| > 0 && path[0] == '/') ==> src[1..] == path
  {
    if Text.StartsWith(path, "/") then path else "/" + path
  }

  /** Fixing a fixed path changes nothing. */
  lemma ThumbnailIdempotent(path: string)
    ensures ThumbnailSrc(ThumbnailSrc(path)) == ThumbnailSrc(path)
  {
  }

  /** The cover grid of a collection card: its courses, then empty slots
      until there are four. */
  method GridSlots(courses: seq<LearningCourse>) returns (grid: seq<Option<LearningCourse>>)
    ensures |grid| == Seqs.Max(4, |courses|)
    ensures forall i :: 0 <= i < |courses| ==> grid[i] == Some(courses[i])
    ensures forall i :: |courses| <= i < |grid| ==> grid[i].None?
  {
    grid := [];
    var k := 0;
    while k < |courses|
      invariant k <= |courses| && |grid| == k
      invariant forall i :: 0 <= i < k ==> grid[i] == Some(courses[i])
    {
      grid := grid + [Some(courses[k])];
      k := k + 1;
    }
    while |grid| < 4
      invariant |grid| <= Seqs.Max(4, |courses|)
      invariant forall i :: 0 <= i < |courses| ==> grid[i] == Some(courses[i])
      invariant forall i :: |courses| <= i < |grid| ==> grid[i].None?
      decreases 4 - |grid|
    {
      grid := grid + [None];
    }
  }

  /** The badge on an enrolled course's thumbnail. */
  function ProgressLabel(progress: nat): (text: string)
    ensures text == "Completed" <==> progress >= 100
    ensures progress < 100 ==> |text| > 10 && text[|text| - 10..] == "% complete"
  {
    if progress < 100 then Text.NatToString(progress) + "% complete" else "Completed"
  }

  /** The number in an unfinished course's badge reads back as its
      progress. */
  lemma ProgressLabelReadsBack(progress: nat)
    requires progress < 100
    ensures Text.ParseInt(ProgressLabel(progress)) == Some(progress as int)
  {
    Text.DigitsValueOfNat(progress);
    Text.ParseIntLeadingDigits(Text.NatToString(progress), "% complete");
  }
}
