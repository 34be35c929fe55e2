/** The course page (src/pages/CourseDetail/index.tsx): which course a
    route id opens, the defaults filled into it, and the fixed curriculum
    with its counts and overview excerpt. Ratings are kept in tenths of a
    star and prices in cents. */
module CourseDetail {
  import opened Wrappers
  import Seqs
  import Accordion

  /** `CourseType`: every field the listing data may leave out is optional. */
  datatype Course = Course(id: string, title: string, instructor: Option<string>, ratingTenths: nat,
                           students: Option<nat>, image: string, priceCents: Option<nat>,
                           level: Option<string>, description: Option<string>, ratingCount: Option<nat>)

  datatype CategoryTab = CategoryTab(key: string, title: string, courses: seq<Course>)

  function Listed(id: string, title: string, instructor: string, ratingTenths: nat, students: nat,
                  image: string, priceCents: nat): Course {
    Course(id, title, Some(instructor), ratingTenths, Some(students), image, Some(priceCents), None, None, None)
  }

  function Featured(id: string, title: string, level: string, ratingTenths: nat, students: nat, image: string): Course {
    Course(id, title, None, ratingTenths, Some(students), image, None, Some(level), None, None)
  }

  /** The page's own copy of the home page's category tabs. */
  const CategoryTabs: seq<CategoryTab> := [
    CategoryTab("image", "AI for Images", [
      Listed("img1", "Computer Vision Fundamentals", "Dr. Sarah Chen", 48, 8400, "/public/mockups/mock6.jpg", 8999),
      Listed("img2", "Image Generation with GANs", "Michael Wong", 47, 6200, "/public/mockups/mock7.jpg", 9499),
      Listed("img3", "Stable Diffusion Masterclass", "Emma Davis", 49, 5100, "/public/mockups/mock8.jpg", 7999),
      Listed("img4", "Object Detection for Beginners", "James Wilson", 46, 4300, "/public/mockups/mock9.jpg", 6999)]),
    CategoryTab("text", "AI for Text", [
      Listed("txt1", "Natural Language Processing", "Dr. Alex Johnson", 49, 12600, "/public/mockups/mock1.jpg", 9999),
      Listed("txt2", "Building ChatGPT Applications", "Lisa Park", 48, 9800, "/public/mockups/mock2.jpg", 8999),
      Listed("txt3", "Text Classification with Transformers", "Robert Zhang", 47, 5600, "/public/mockups/mock3.jpg", 7499),
      Listed("txt4", "Advanced Text Generation", "Sophia Rodriguez", 46, 4100, "/public/mockups/mock4.jpg", 7999)]),
    CategoryTab("audio", "AI for Audio", [
      Listed("aud1", "Speech Recognition Systems", "Dr. Thomas Lee", 48, 7200, "/public/mockups/mock5.jpg", 8999),
      Listed("aud2", "Music Generation with AI", "Maria Garcia", 47, 5100, "/public/mockups/mock6.jpg", 7999),
      Listed("aud3", "Audio Processing Fundamentals", "John Smith", 46, 4800, "/public/mockups/mock7.jpg", 6999),
      Listed("aud4", "Voice Cloning Techniques", "Kevin Brown", 48, 3900, "/public/mockups/mock8.jpg", 8499)]),
    CategoryTab("code", "AI for Code", [
      Listed("code1", "AI-Assisted Coding", "Daniel Kim", 49, 8700, "/public/mockups/mock9.jpg", 9499),
      Listed("code2", "Building Code Copilots", "Jennifer Liu", 48, 6100, "/public/mockups/mock10.jpg", 8999),
      Listed("code3", "Automated Code Review with AI", "Paul Martinez", 47, 4500, "/public/mockups/mock1.jpg", 7999),
      Listed("code4", "Code Generation Techniques", "Olivia Wilson", 46, 3800, "/public/mockups/mock2.jpg", 7499)]),
    CategoryTab("business", "AI for Business", [
      Listed("biz1", "AI Strategy for Executives", "Dr. Richard Taylor", 48, 9300, "/public/mockups/mock3.jpg", 9999),
      Listed("biz2", "Predictive Analytics for Business", "Amanda Johnson", 47, 7200, "/public/mockups/mock4.jpg", 8999),
      Listed("biz3", "Customer Insights with AI", "David Wilson", 48, 5600, "/public/mockups/mock5.jpg", 8499),
      Listed("biz4", "AI Automation for Businesses", "Michelle Lee", 46, 4300, "/public/mockups/mock6.jpg", 7999)])
  ]

  const FeaturedCourses: seq<Course> := [
    Featured("1", "Introduction to AI and Machine Learning", "Beginner", 48, 12500, "/public/mockups/mock1.jpg"),
    Featured("2", "Deep Learning with TensorFlow", "Intermediate", 49, 8300, "/public/mockups/mock2.jpg"),
    Featured("3", "Natural Language Processing Fundamentals", "Intermediate", 47, 6200, "/public/mockups/mock3.jpg")
  ]

  // ---------------------------------------------------------------------
  // Finding the course
  // ---------------------------------------------------------------------

  /** The courses of the tabs, one tab after another: a course is listed
      iff some tab lists it, and a single tab contributes its own courses. */
  function CoursesOf(tabs: seq<CategoryTab>): (r: seq<Course>)
    ensures forall t, c :: 0 <= t < |tabs| && c in tabs[t].courses ==> c in r
    ensures forall c :: c in r ==> exists t :: 0 <= t < |tabs| && c in tabs[t].courses
    ensures |tabs| == 1 ==> r == tabs[0].courses
    decreases |tabs|
  {
    if |tabs| == 0 then []
    else
      var init := tabs[..|tabs| - 1];
      assert forall t :: 0 <= t < |init| ==> init[t] == tabs[t];
      CoursesOf(init) + tabs[|tabs| - 1].courses
  }

  /** The courses of two runs of tabs are those of the first run followed by
      those of the second: the flattened list keeps the tab order. */
  lemma {:induction false} CoursesOfAppend(a: seq<CategoryTab>, b: seq<CategoryTab>)
    ensures CoursesOf(a + b) == CoursesOf(a) + CoursesOf(b)
    decreases |b|
  {
    if |b| == 0 {
      assert a + b == a;
    } else {
      var init := b[..|b| - 1];
      assert (a + b)[..|a + b| - 1] == a + init;
      assert (a + b)[|a + b| - 1] == b[|b| - 1];
      CoursesOfAppend(a, init);
    }
  }

  /** Every course the page can open, in search order: the shared catalogue
      (absent, it contributes nothing), the category tabs, the featured
      courses. */
  function AllCourses(catalog: Option<seq<CategoryTab>>): seq<Course> {
    CoursesOf(catalog.GetOr([])) + CoursesOf(CategoryTabs) + FeaturedCourses
  }

  predicate HasId(c: Course, id: Option<string>) {
    id.Some? && c.id == id.value
  }

  function IdIs(id: Option<string>): Course -> bool {
    (c: Course) => HasId(c, id)
  }

  /** The first course of the search list whose id is the route's id; a
      route without an id matches nothing. */
  function FindCourse(catalog: Option<seq<CategoryTab>>, id: Option<string>): (r: Option<Course>)
    ensures r.Some? ==> id.Some? && r.value.id == id.value && r.value in AllCourses(catalog)
    ensures r.Some? ==> exists k :: 0 <= k < |AllCourses(catalog)| && AllCourses(catalog)[k] == r.value
                                    && forall j :: 0 <= j < k ==> !HasId(AllCourses(catalog)[j], id)
    ensures r.None? <==> forall i :: 0 <= i < |AllCourses(catalog)| ==> !HasId(AllCourses(catalog)[i], id)
  {
    FindById(AllCourses(catalog), id)
  }

  /** The first course of a list with the given id. */
  function FindById(all: seq<Course>, id: Option<string>): (r: Option<Course>)
    ensures r.Some? ==> id.Some? && r.value.id == id.value && r.value in all
    ensures r.Some? ==> exists k :: 0 <= k < |all| && all[k] == r.value && forall j :: 0 <= j < k ==> !HasId(all[j], id)
    ensures r.None? <==> forall i :: 0 <= i < |all| ==> !HasId(all[i], id)
  {
    var r := Seqs.Find(all, IdIs(id));
    if r.Some? then
      assert IdIs(id)(r.value);
      assert exists k :: 0 <= k < |all| && all[k] == r.value && forall j :: 0 <= j < k ==> !IdIs(id)(all[j]);
      r
    else
      assert forall i :: 0 <= i < |all| ==> !IdIs(id)(all[i]);
      r
  }

  /** Lookup precedence: a match in the shared catalogue wins over the
      category tabs, which win over the featured courses. */
  lemma LookupPrecedence(catalog: Option<seq<CategoryTab>>, id: Option<string>)
    ensures var first := Seqs.Find(CoursesOf(catalog.GetOr([])), IdIs(id));
            var second := Seqs.Find(CoursesOf(CategoryTabs), IdIs(id));
            FindCourse(catalog, id)
            == if first.Some? then first
               else if second.Some? then second
               else Seqs.Find(FeaturedCourses, IdIs(id))
  {
    var a, b, c := CoursesOf(catalog.GetOr([])), CoursesOf(CategoryTabs), FeaturedCourses;
    assert AllCourses(catalog) == a + (b + c);
    Seqs.FindAppend(a, b + c, IdIs(id));
    Seqs.FindAppend(b, c, IdIs(id));
  }

  // ---------------------------------------------------------------------
  // Defaults
  // ---------------------------------------------------------------------

  /** The sentence used when a course has no description; `students` is
      shown with `toLocaleString`, which is a parameter here, and an absent
      or empty rendering falls back to "1000+". */
  function DefaultDescription(title: string, students: Option<nat>, localeString: nat -> string): string {
    var count := if students.Some? && localeString(students.value) != "" then localeString(students.value) else "1000+";
    "This comprehensive course on " + title
      + " will teach you everything you need to know to become proficient in this area. Join the "
      + count + " students who have already enrolled!"
  }

  /** JavaScript truthiness of the optional text and count fields. */
  predicate TextSet(s: Option<string>) {
    s.Some? && s.value != ""
  }

  predicate CountSet(n: Option<nat>) {
    n.Some? && n.value != 0
  }

  /** The two defaults filled into a found course: a description when it has
      none, and a rating count of a tenth of the students (rounded down)
      when it has none but does have students. */
  function FillDefaults(c: Course, localeString: nat -> string): (r: Course)
    ensures TextSet(r.description)
    ensures TextSet(c.description) ==> r.description == c.description
    ensures !TextSet(c.description) ==> r.description == Some(DefaultDescription(c.title, c.students, localeString))
    ensures !CountSet(c.ratingCount) && CountSet(c.students) ==>
              r.ratingCount.Some? && r.ratingCount.value * 10 <= c.students.value < r.ratingCount.value * 10 + 10
    ensures CountSet(c.ratingCount) || !CountSet(c.students) ==> r.ratingCount == c.ratingCount
    ensures r.(description := c.description, ratingCount := c.ratingCount) == c
  {
    var description := if TextSet(c.description) then c.description
                       else Some(DefaultDescription(c.title, c.students, localeString));
    var ratingCount := if !CountSet(c.ratingCount) && CountSet(c.students) then Some(c.students.value / 10)
                       else c.ratingCount;
    c.(description := description, ratingCount := ratingCount)
  }

  /** Filling the defaults of a course whose defaults are filled changes
      nothing. */
  lemma FillDefaultsIdempotent(c: Course, localeString: nat -> string)
    ensures FillDefaults(FillDefaults(c, localeString), localeString) == FillDefaults(c, localeString)
  {
  }

  /** What the page shows: the loading text, "Course not found", or the
      course. */
  datatype DetailView = Loading | NotFound | Found(course: Course)

  /** The page's `course` and `loading` state; it starts with no course,
      loading. */
  datatype DetailState = DetailState(course: Option<Course>, loading: bool)

  const InitialDetail: DetailState := DetailState(None, true)

  /** The render guards: loading first, then a missing course. */
  function ViewOf(st: DetailState): DetailView {
    if st.loading then Loading
    else if st.course.None? then NotFound
    else Found(st.course.value)
  }

  /** The lookup effect, run whenever the route id changes: a course found
      replaces the shown one with its defaults filled; when none is found
      the course state is left as it was. Loading ends either way. */
  function RunLookup(st: DetailState, catalog: Option<seq<CategoryTab>>, id: Option<string>,
                     localeString: nat -> string): (t: DetailState)
    ensures !t.loading
    ensures FindCourse(catalog, id).Some? ==> t.course == Some(FillDefaults(FindCourse(catalog, id).value, localeString))
    ensures FindCourse(catalog, id).None? ==> t.course == st.course
  {
    match FindCourse(catalog, id)
    case Some(c) => DetailState(Some(FillDefaults(c, localeString)), false)
    case None => st.(loading := false)
  }

  /** The view after the lookup effect has run on a fresh page. */
  function LoadCourse(catalog: Option<seq<CategoryTab>>, id: Option<string>, localeString: nat -> string)
    : (v: DetailView)
    ensures v.Found? <==> FindCourse(catalog, id).Some?
    ensures v.Found? ==> v.course.id == id.value && TextSet(v.course.description)
    ensures v.Found? ==> v.course == FillDefaults(FindCourse(catalog, id).value, localeString)
  {
    ViewOf(RunLookup(InitialDetail, catalog, id, localeString))
  }

  /** Moving from one course to an id that is not found keeps showing the
      earlier course: the page only shows "Course not found" when no course
      was ever found. */
  lemma StaleCourseShown(st: DetailState, catalog: Option<seq<CategoryTab>>, id: Option<string>,
                         localeString: nat -> string)
    requires st.course.Some? && FindCourse(catalog, id).None?
    ensures ViewOf(RunLookup(st, catalog, id, localeString)) == Found(st.course.value)
  {
  }

  /** A found course is shown the same way whatever the page showed
      before. */
  lemma FoundIgnoresHistory(st: DetailState, catalog: Option<seq<CategoryTab>>, id: Option<string>,
                            localeString: nat -> string)
    requires FindCourse(catalog, id).Some?
    ensures ViewOf(RunLookup(st, catalog, id, localeString)) == LoadCourse(catalog, id, localeString)
  {
  }

  /** The route ids of the page's own tables are all found, whatever the
      shared catalogue holds: the featured course "2", for instance. */
  lemma FeaturedFound(catalog: Option<seq<CategoryTab>>)
    ensures LoadCourse(catalog, Some("2"), n => "").Found?
  {
    var all := AllCourses(catalog);
    var k := |CoursesOf(catalog.GetOr([]))| + |CoursesOf(CategoryTabs)| + 1;
    assert all[k] == FeaturedCourses[1];
    assert HasId(all[k], Some("2"));
  }

  // ---------------------------------------------------------------------
  // The fixed curriculum
  // ---------------------------------------------------------------------

  function Video(id: string, title: string, duration: string, isPreview: bool): Accordion.ContentItem {
    Accordion.ContentItem(id, title, duration, isPreview, "video")
  }

  function Other(id: string, title: string, duration: string, kind: string): Accordion.ContentItem {
    Accordion.ContentItem(id, title, duration, false, kind)
  }

  const Curriculum1: Accordion.ContentSection := Accordion.ContentSection("section-1", "Getting Started with AI", "1h 20m", [
    Video("item-1-1", "Introduction to the Course", "5:20", true),
    Video("item-1-2", "How to Get the Most Out of This Course", "8:30", false),
    Video("item-1-3", "Setting Up Your Environment", "12:45", false),
    Other("item-1-4", "Understanding AI Basics - Quiz", "15:00", "quiz")], 4)

  const Curriculum2: Accordion.ContentSection := Accordion.ContentSection("section-2", "Fundamentals of Machine Learning", "2h 45m", [
    Video("item-2-1", "What is Machine Learning?", "10:15", true),
    Video("item-2-2", "Supervised vs Unsupervised Learning", "15:30", false),
    Video("item-2-3", "Regression and Classification", "18:20", false),
    Other("item-2-4", "Practice Exercise: Building Your First Model", "25:00", "exercise"),
    Other("item-2-5", "ML Fundamentals - Assignment", "45:00", "assignment")], 5)

  const Curriculum3: Accordion.ContentSection := Accordion.ContentSection("section-3", "Neural Networks and Deep Learning", "3h 30m", [
    Video("item-3-1", "Introduction to Neural Networks", "12:30", false),
    Video("item-3-2", "Building a Simple Neural Network", "22:45", false),
    Video("item-3-3", "Understanding Backpropagation", "18:10", false),
    Video("item-3-4", "Deep Learning Applications", "15:35", false),
    Other("item-3-5", "Hands-on Project: Image Classification", "45:00", "project"),
    Other("item-3-6", "Neural Networks - Quiz", "20:00", "quiz")], 6)

  const Curriculum4: Accordion.ContentSection := Accordion.ContentSection("section-4", "Advanced AI Techniques", "4h 15m", [
    Video("item-4-1", "Reinforcement Learning Fundamentals", "15:45", false),
    Video("item-4-2", "Natural Language Processing", "20:30", false),
    Video("item-4-3", "Computer Vision Deep Dive", "25:20", false),
    Video("item-4-4", "Generative AI and GANs", "18:15", false),
    Other("item-4-5", "Final Course Project", "90:00", "project")], 5)

  const Curriculum: seq<Accordion.ContentSection> := [Curriculum1, Curriculum2, Curriculum3, Curriculum4]

  function ItemCount(s: Accordion.ContentSection): int {
    |s.items|
  }

  function HeaderCount(s: Accordion.ContentSection): int {
    s.totalLectures
  }

  /** `totalLectures`: the items of all sections, so at least those of
      any one section. */
  function TotalLectures(content: seq<Accordion.ContentSection>): (n: nat)
    ensures forall k :: 0 <= k < |content| ==> |content[k].items| <= n
  {
    Seqs.TermAtMostSum(content, ItemCount);
    Seqs.SumBy(content, ItemCount)
  }

  /** `totalSections`. */
  function TotalSections(content: seq<Accordion.ContentSection>): nat {
    |content|
  }

  /** When every section's stored count agrees with its items, the section
      headers add up to the page's lecture total. */
  lemma {:induction false} HeadersAddUp(content: seq<Accordion.ContentSection>)
    requires forall k :: 0 <= k < |content| ==> Accordion.CountsAgree(content[k])
    ensures Seqs.SumBy(content, HeaderCount) == TotalLectures(content)
    decreases |content|
  {
    if |content| > 0 {
      HeadersAddUp(content[..|content| - 1]);
      assert Accordion.CountsAgree(content[|content| - 1]);
    }
  }

  /** The built-in curriculum: 4 sections, 20 lectures, and stored counts
      that agree with the item lists. */
  lemma CurriculumCounts()
    ensures TotalSections(Curriculum) == 4 && TotalLectures(Curriculum) == 20
    ensures forall k :: 0 <= k < |Curriculum| ==> Accordion.CountsAgree(Curriculum[k])
  {
    Seqs.SumFour(Curriculum1, Curriculum2, Curriculum3, Curriculum4, ItemCount);
  }

  // ---------------------------------------------------------------------
  // Overview excerpt
  // ---------------------------------------------------------------------

  /** The overview tab lists the first two sections, or all of them when
      there are fewer. */
  function OverviewSections(content: seq<Accordion.ContentSection>): (r: seq<Accordion.ContentSection>)
    ensures |r| == Seqs.Min(2, |content|) && r == content[..|r|]
  {
    Seqs.Slice(content, 0, 2)
  }

  /** "Show more sections" is offered when the curriculum has more than two. */
  predicate ShowMoreSections(content: seq<Accordion.ContentSection>) {
    |content| > 2
  }

  /** The button appears exactly when the excerpt leaves sections out, and
      the excerpt followed by the rest is the whole curriculum. */
  lemma ShowMoreIffTruncated(content: seq<Accordion.ContentSection>)
    ensures ShowMoreSections(content) <==> |OverviewSections(content)| < |content|
    ensures OverviewSections(content) + content[|OverviewSections(content)|..] == content
  {
  }

  /** The panels open initially: the first section in the overview, none in
      the curriculum tab. */
  const OverviewExpanded: seq<string> := ["section-1"]
  const CurriculumExpanded: seq<string> := []
}
