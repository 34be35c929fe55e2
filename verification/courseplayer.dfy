/** The lecture player (src/pages/CoursePlayer/index.tsx): the built-in
    course outline, lecture selection, the previous and next buttons, the
    expanded sections of the navigator, and the progress figures. The
    handlers read the constant outline, never an edited copy of it. */
module CoursePlayer {
  import opened Wrappers
  import Seqs
  import Text

  datatype ItemKind = Video | Quiz | Exercise | Assignment | Project

  datatype Item = Item(id: string, title: string, duration: string, completed: bool, kind: ItemKind, active: bool)

  datatype Section = Section(id: string, title: string, duration: string, expanded: bool, items: seq<Item>)

  /** A lecture together with the id of the section listing it. */
  datatype Slot = Slot(sectionId: string, item: Item)

  /** The player's own state: the lecture shown and the open sections. */
  datatype PlayerState = PlayerState(currentLecture: Option<Item>, expandedSections: seq<string>)

  // ---------------------------------------------------------------------
  // The built-in outline
  // ---------------------------------------------------------------------

  function Lecture(id: string, title: string, duration: string, kind: ItemKind): Item {
    Item(id, title, duration, false, kind, false)
  }

  const Section1: Section := Section("section-1", "Getting Started with AI", "1h 20m", true, [
    Item("item-1-1", "Introduction to the Course", "5:20", true, Video, false),
    Item("item-1-2", "How to Get the Most Out of This Course", "8:30", true, Video, false),
    Item("item-1-3", "Setting Up Your Environment", "12:45", false, Video, true),
    Lecture("item-1-4", "Understanding AI Basics - Quiz", "15:00", Quiz)
  ])

  const Section2: Section := Section("section-2", "Fundamentals of Machine Learning", "2h 45m", false, [
    Lecture("item-2-1", "What is Machine Learning?", "10:15", Video),
    Lecture("item-2-2", "Supervised vs Unsupervised Learning", "15:30", Video),
    Lecture("item-2-3", "Regression and Classification", "18:20", Video),
    Lecture("item-2-4", "Practice Exercise: Building Your First Model", "25:00", Exercise),
    Lecture("item-2-5", "ML Fundamentals - Assignment", "45:00", Assignment)
  ])

  const Section3: Section := Section("section-3", "Neural Networks and Deep Learning", "3h 30m", false, [
    Lecture("item-3-1", "Introduction to Neural Networks", "12:30", Video),
    Lecture("item-3-2", "Building a Simple Neural Network", "22:45", Video),
    Lecture("item-3-3", "Understanding Backpropagation", "18:10", Video),
    Lecture("item-3-4", "Deep Learning Applications", "15:35", Video),
    Lecture("item-3-5", "Hands-on Project: Image Classification", "45:00", Project),
    Lecture("item-3-6", "Neural Networks - Quiz", "20:00", Quiz)
  ])

  const Section4: Section := Section("section-4", "Advanced AI Techniques", "4h 15m", false, [
    Lecture("item-4-1", "Reinforcement Learning Fundamentals", "15:45", Video),
    Lecture("item-4-2", "Natural Language Processing", "20:30", Video),
    Lecture("item-4-3", "Computer Vision Deep Dive", "25:20", Video),
    Lecture("item-4-4", "Generative AI and GANs", "18:15", Video),
    Lecture("item-4-5", "Final Course Project", "90:00", Project)
  ])

  /** `courseContent`. */
  const CourseContent: seq<Section> := [Section1, Section2, Section3, Section4]

  // ---------------------------------------------------------------------
  // Reading order
  // ---------------------------------------------------------------------

  function SlotsOf(s: Section): (r: seq<Slot>)
    ensures |r| == |s.items|
    ensures forall j :: 0 <= j < |r| ==> r[j] == Slot(s.id, s.items[j])
  {
    seq(|s.items|, j requires 0 <= j < |s.items| => Slot(s.id, s.items[j]))
  }

  /** Every lecture in reading order: the sections in order, and the items
      of each section in order. */
  function Flatten(content: seq<Section>): seq<Slot>
    decreases |content|
  {
    if |content| == 0 then [] else Flatten(content[..|content| - 1]) + SlotsOf(content[|content| - 1])
  }

  lemma {:induction false} FlattenAppend(a: seq<Section>, b: seq<Section>)
    ensures Flatten(a + b) == Flatten(a) + Flatten(b)
    decreases |b|
  {
    if |b| == 0 {
      assert a + b == a;
    } else {
      var init, last := b[..|b| - 1], b[|b| - 1];
      assert (a + b)[..|a + b| - 1] == a + init;
      assert (a + b)[|a + b| - 1] == last;
      assert Flatten(a + b) == Flatten(a + init) + SlotsOf(last);
      FlattenAppend(a, init);
      assert Flatten(b) == Flatten(init) + SlotsOf(last);
    }
  }

  lemma FlattenStep(content: seq<Section>, i: nat)
    requires i < |content|
    ensures Flatten(content[..i + 1]) == Flatten(content[..i]) + SlotsOf(content[i])
  {
    assert content[..i + 1][..i] == content[..i];
  }

  /** Item `j` of section `i` sits right after the lectures of the sections
      before it. */
  lemma SlotAt(content: seq<Section>, i: nat, j: nat)
    requires i < |content| && j < |content[i].items|
    ensures |Flatten(content[..i])| + j < |Flatten(content)|
    ensures Flatten(content)[|Flatten(content[..i])| + j] == Slot(content[i].id, content[i].items[j])
  {
    FlattenAppend(content[..i + 1], content[i + 1..]);
    assert content[..i + 1] + content[i + 1..] == content;
    FlattenStep(content, i);
  }

  function IsLecture(id: string): Slot -> bool {
    (s: Slot) => s.item.id == id
  }

  // ---------------------------------------------------------------------
  // Previous / next, as reading-order neighbours
  // ---------------------------------------------------------------------

  /** The lecture after the first one with the given id, if there is one. */
  function NextSpec(lectures: seq<Slot>, id: string): Option<Slot> {
    match Seqs.FindFirst(lectures, IsLecture(id))
    case None => None
    case Some(k) => if k + 1 < |lectures| then Some(lectures[k + 1]) else None
  }

  /** The lecture before the last one with the given id, if there is one. */
  function PreviousSpec(lectures: seq<Slot>, id: string): Option<Slot> {
    match Seqs.FindLast(lectures, IsLecture(id))
    case None => None
    case Some(k) => if k > 0 then Some(lectures[k - 1]) else None
  }

  lemma FirstAt(lectures: seq<Slot>, id: string, k: nat)
    requires k < |lectures| && lectures[k].item.id == id
    requires forall m :: 0 <= m < k ==> lectures[m].item.id != id
    ensures NextSpec(lectures, id) == if k + 1 < |lectures| then Some(lectures[k + 1]) else None
  {
    var r := Seqs.FindFirst(lectures, IsLecture(id));
    assert IsLecture(id)(lectures[k]);
    assert r.Some?;
    assert !(r.value < k);
    assert !(r.value > k) by {
      assert !IsLecture(id)(lectures[r.value]) || r.value <= k;
    }
  }

  lemma LastAt(lectures: seq<Slot>, id: string, k: nat)
    requires k < |lectures| && lectures[k].item.id == id
    requires forall m :: k < m < |lectures| ==> lectures[m].item.id != id
    ensures PreviousSpec(lectures, id) == if k > 0 then Some(lectures[k - 1]) else None
  {
    var r := Seqs.FindLast(lectures, IsLecture(id));
    assert IsLecture(id)(lectures[k]);
    assert r.Some?;
    assert !(r.value > k);
    assert !(r.value < k) by {
      assert !IsLecture(id)(lectures[r.value]) || r.value >= k;
    }
  }

  lemma Absent(lectures: seq<Slot>, id: string)
    requires forall m :: 0 <= m < |lectures| ==> lectures[m].item.id != id
    ensures NextSpec(lectures, id).None? && PreviousSpec(lectures, id).None?
  {
    assert forall m :: 0 <= m < |lectures| ==> !IsLecture(id)(lectures[m]);
  }

  /** The "Next" button: walks the sections and their items in order; the
      item after the current one, possibly the first of a later section, is
      the lecture to open. */
  method Next(content: seq<Section>, current: Option<Item>) returns (target: Option<Slot>)
    ensures current.None? ==> target.None?
    ensures current.Some? ==> target == NextSpec(Flatten(content), current.value.id)
  {
    if current.None? {
      return None;
    }
    var id := current.value.id;
    ghost var lectures := Flatten(content);
    var foundCurrent := false;
    var i := 0;
    ghost var pos := 0;
    assert content[..0] == [];
    while i < |content|
      invariant 0 <= i <= |content|
      invariant pos == |Flatten(content[..i])|
      invariant ScannedForward(lectures, id, pos, foundCurrent)
    {
      SectionSlots(content, i, lectures, pos);
      target, foundCurrent := NextInSection(content[i], id, foundCurrent, lectures, pos);
      if target.Some? {
        return target;
      }
      FlattenStep(content, i);
      pos := pos + |content[i].items|;
      i := i + 1;
    }
    assert content[..|content|] == content;
    ScannedToEnd(lectures, id, foundCurrent);
    return None;
  }

  /** A forward scan that reached the end without returning found no next
      lecture. */
  lemma ScannedToEnd(lectures: seq<Slot>, id: string, found: bool)
    requires ScannedForward(lectures, id, |lectures|, found)
    ensures NextSpec(lectures, id).None?
  {
    if found {
      FirstAt(lectures, id, |lectures| - 1);
    } else {
      Absent(lectures, id);
    }
  }

  /** The lectures before `pos` have been visited from the start: none of
      them is the current one except possibly the one at `pos - 1`, and
      `found` says whether it is. */
  ghost predicate ScannedForward(lectures: seq<Slot>, id: string, pos: nat, found: bool) {
    && pos <= |lectures|
    && (forall m :: 0 <= m < pos - 1 ==> lectures[m].item.id != id)
    && (found <==> pos > 0 && lectures[pos - 1].item.id == id)
  }

  /** The inner loop of "Next" over the items of one section, first first;
      the section's lectures sit at `base` onwards in reading order. */
  method NextInSection(section: Section, id: string, foundBefore: bool,
                       ghost lectures: seq<Slot>, ghost base: nat)
    returns (target: Option<Slot>, foundCurrent: bool)
    requires base + |section.items| <= |lectures|
    requires forall j :: 0 <= j < |section.items| ==> lectures[base + j] == Slot(section.id, section.items[j])
    requires ScannedForward(lectures, id, base, foundBefore)
    ensures target.Some? ==> target == NextSpec(lectures, id)
    ensures target.None? ==> ScannedForward(lectures, id, base + |section.items|, foundCurrent)
  {
    foundCurrent := foundBefore;
    for j := 0 to |section.items|
      invariant ScannedForward(lectures, id, base + j, foundCurrent)
    {
      var item := section.items[j];
      if foundCurrent {
        FirstAt(lectures, id, base + j - 1);
        return Some(Slot(section.id, item)), foundCurrent;
      }
      if item.id == id && j < |section.items| - 1 {
        FirstAt(lectures, id, base + j);
        return Some(Slot(section.id, section.items[j + 1])), foundCurrent;
      }
      foundCurrent := item.id == id;
    }
    return None, foundCurrent;
  }

  /** The lectures from `pos` on have been visited from the end: none of
      them is the current one except possibly the one at `pos`, and `found`
      says whether it is. */
  ghost predicate ScannedBack(lectures: seq<Slot>, id: string, pos: nat, found: bool) {
    && pos <= |lectures|
    && (forall m :: pos < m < |lectures| ==> lectures[m].item.id != id)
    && (found <==> pos < |lectures| && lectures[pos].item.id == id)
  }

  lemma BackStep(lectures: seq<Slot>, id: string, pos: nat)
    requires pos < |lectures| && ScannedBack(lectures, id, pos + 1, false)
    ensures ScannedBack(lectures, id, pos, lectures[pos].item.id == id)
  {
  }

  /** Every lecture and the section listing it carry a non-empty id; an
      empty string is false where the page tests an id. */
  predicate Named(lectures: seq<Slot>) {
    forall k :: 0 <= k < |lectures| ==> lectures[k].sectionId != "" && lectures[k].item.id != ""
  }

  /** The lecture the "Previous" button opens once its search is over: the
      page changes lecture only when both kept ids are non-empty. */
  function Opened(previous: Option<Slot>): Option<Slot> {
    if previous.Some? && previous.value.sectionId != "" && previous.value.item.id != "" then previous else None
  }

  /** The "Previous" button: walks the sections and their items from the
      end, keeping the section and item ids of the lecture before the
      current one, possibly the last of an earlier section. The section
      loop only stops once the kept item id is non-empty, so an empty id
      lets the walk go on into earlier sections; the lecture is opened
      only when both kept ids are non-empty. Where the page breaks out of
      the section loop, the model returns what it would open. */
  method Previous(content: seq<Section>, current: Option<Item>) returns (target: Option<Slot>)
    ensures current.None? ==> target.None?
    ensures target.Some? ==> target.value in Flatten(content)
    ensures target.Some? ==> target.value.sectionId != "" && target.value.item.id != ""
    ensures current.Some? && Named(Flatten(content)) ==> target == PreviousSpec(Flatten(content), current.value.id)
  {
    if current.None? {
      return None;
    }
    var id := current.value.id;
    ghost var lectures := Flatten(content);
    ghost var named := Named(lectures);
    var foundPrevious := false;
    var previous: Option<Slot> := None;
    ghost var at: nat := 0;
    assert content[..|content|] == content;
    var i := |content|;
    while i > 0
      invariant 0 <= i <= |content|
      invariant previous.Some? ==> at < |lectures| && lectures[at] == previous.value && previous.value.item.id == ""
      invariant named ==> previous.None? && ScannedBack(lectures, id, |Flatten(content[..i])|, foundPrevious)
    {
      i := i - 1;
      ghost var base := |Flatten(content[..i])|;
      FlattenStep(content, i);
      SectionSlots(content, i, lectures, base);
      previous, foundPrevious, at := PreviousInSection(content[i], id, foundPrevious, previous, lectures, base, at);
      if previous.Some? && previous.value.item.id != "" {
        return OpenedAt(lectures, previous, at);
      }
    }
    if named {
      ScannedBackToStart(lectures, id, foundPrevious);
    }
    return OpenedAt(lectures, previous, at);
  }

  /** `Opened`, for a kept lecture found at position `at`: a lecture of the
      outline, opened as it is among named lectures. */
  function OpenedAt(ghost lectures: seq<Slot>, previous: Option<Slot>, ghost at: nat): (r: Option<Slot>)
    requires previous.Some? ==> at < |lectures| && lectures[at] == previous.value
    ensures r == Opened(previous)
    ensures r.Some? ==> r.value in lectures && r.value.sectionId != "" && r.value.item.id != ""
    ensures Named(lectures) ==> r == previous
  {
    Opened(previous)
  }

  /** A backward scan that reached the start without keeping a lecture found
      no previous lecture. */
  lemma ScannedBackToStart(lectures: seq<Slot>, id: string, found: bool)
    requires ScannedBack(lectures, id, 0, found)
    ensures PreviousSpec(lectures, id).None?
  {
    if found {
      LastAt(lectures, id, 0);
    } else {
      Absent(lectures, id);
    }
  }

  /** The inner loop of "Previous" over the items of one section, last
      first; the section's lectures sit at `base` onwards in reading order.
      With nothing kept yet, it either keeps the lecture before the current
      one or reports how far the scan got. */
  method PreviousInSection(section: Section, id: string, foundBefore: bool, previousBefore: Option<Slot>,
                           ghost lectures: seq<Slot>, ghost base: nat, ghost atBefore: nat)
    returns (previous: Option<Slot>, foundPrevious: bool, ghost at: nat)
    requires base + |section.items| <= |lectures|
    requires forall j :: 0 <= j < |section.items| ==> lectures[base + j] == Slot(section.id, section.items[j])
    requires previousBefore.Some? ==> atBefore < |lectures| && lectures[atBefore] == previousBefore.value
    ensures previous.Some? ==> at < |lectures| && lectures[at] == previous.value
    ensures previousBefore.None? && ScannedBack(lectures, id, base + |section.items|, foundBefore) ==>
              if previous.Some? then previous == PreviousSpec(lectures, id) else ScannedBack(lectures, id, base, foundPrevious)
  {
    ghost var tracking := previousBefore.None? && ScannedBack(lectures, id, base + |section.items|, foundBefore);
    foundPrevious, previous, at := foundBefore, previousBefore, atBefore;
    var j := |section.items|;
    while j > 0
      invariant 0 <= j <= |section.items|
      invariant previous.Some? ==> at < |lectures| && lectures[at] == previous.value
      invariant tracking ==> previous.None? && ScannedBack(lectures, id, base + j, foundPrevious)
    {
      j := j - 1;
      var item := section.items[j];
      if foundPrevious {
        if tracking {
          LastAt(lectures, id, base + j + 1);
        }
        return Some(Slot(section.id, item)), foundPrevious, base + j;
      }
      if tracking {
        BackStep(lectures, id, base + j);
      }
      if item.id == id {
        if j > 0 {
          if tracking {
            LastAt(lectures, id, base + j);
          }
          return Some(Slot(section.id, section.items[j - 1])), foundPrevious, base + j - 1;
        }
        foundPrevious := true;
      }
    }
    return previous, foundPrevious, at;
  }

  /** Section `i`'s lectures in reading order, from position `base` of
      `lectures`, the whole course. */
  lemma SectionSlots(content: seq<Section>, i: nat, lectures: seq<Slot>, base: nat)
    requires i < |content| && lectures == Flatten(content) && base == |Flatten(content[..i])|
    ensures base + |content[i].items| <= |lectures|
    ensures forall j :: 0 <= j < |content[i].items| ==> lectures[base + j] == Slot(content[i].id, content[i].items[j])
  {
    SectionLength(content, i);
    forall j | 0 <= j < |content[i].items|
      ensures lectures[base + j] == Slot(content[i].id, content[i].items[j])
    {
      SlotAt(content, i, j);
    }
  }

  lemma SectionLength(content: seq<Section>, i: nat)
    requires i < |content|
    ensures |Flatten(content[..i])| + |content[i].items| <= |Flatten(content)|
  {
    FlattenAppend(content[..i + 1], content[i + 1..]);
    assert content[..i + 1] + content[i + 1..] == content;
    FlattenStep(content, i);
  }

  // ---------------------------------------------------------------------
  // Neighbours undo each other
  // ---------------------------------------------------------------------

  predicate UniqueIds(lectures: seq<Slot>) {
    forall a, b :: 0 <= a < b < |lectures| ==> lectures[a].item.id != lectures[b].item.id
  }

  /** With distinct lecture ids, going back from the next lecture returns to
      the current one, and going forward from the previous one does too. */
  lemma NextThenPrevious(lectures: seq<Slot>, id: string)
    requires UniqueIds(lectures) && NextSpec(lectures, id).Some?
    ensures PreviousSpec(lectures, NextSpec(lectures, id).value.item.id).Some?
    ensures PreviousSpec(lectures, NextSpec(lectures, id).value.item.id).value.item.id == id
  {
    var k := Seqs.FindFirst(lectures, IsLecture(id)).value;
    assert lectures[k].item.id == id by { assert IsLecture(id)(lectures[k]); }
    LastAt(lectures, lectures[k + 1].item.id, k + 1);
  }

  lemma PreviousThenNext(lectures: seq<Slot>, id: string)
    requires UniqueIds(lectures) && PreviousSpec(lectures, id).Some?
    ensures NextSpec(lectures, PreviousSpec(lectures, id).value.item.id).Some?
    ensures NextSpec(lectures, PreviousSpec(lectures, id).value.item.id).value.item.id == id
  {
    var k := Seqs.FindLast(lectures, IsLecture(id)).value;
    assert lectures[k].item.id == id by { assert IsLecture(id)(lectures[k]); }
    FirstAt(lectures, lectures[k - 1].item.id, k - 1);
  }

  /** Only the very first lecture has no previous one: the test that
      disables the "Previous" button is exact when ids are distinct. */
  lemma PreviousExistsUnlessFirst(lectures: seq<Slot>, id: string, k: nat)
    requires UniqueIds(lectures) && k < |lectures| && lectures[k].item.id == id
    ensures PreviousSpec(lectures, id).None? <==> k == 0
  {
    LastAt(lectures, id, k);
  }

  /** The "Previous" button is disabled with no current lecture, or when the
      current lecture has the id of the outline's very first item. */
  function PreviousDisabled(content: seq<Section>, current: Option<Item>): (disabled: bool)
    requires |content| > 0 && |content[0].items| > 0
  {
    current.None? || current.value.id == content[0].items[0].id
  }

  /** With distinct ids, the button is disabled exactly when pressing it
      would find no previous lecture. */
  lemma {:induction false} PreviousDisabledExact(content: seq<Section>, current: Item, k: nat)
    requires |content| > 0 && |content[0].items| > 0
    requires UniqueIds(Flatten(content)) && k < |Flatten(content)| && Flatten(content)[k].item.id == current.id
    ensures PreviousDisabled(content, Some(current)) <==> PreviousSpec(Flatten(content), current.id).None?
  {
    FirstSlot(content);
    PreviousExistsUnlessFirst(Flatten(content), current.id, k);
  }

  /** The first lecture in reading order is the first item of the first
      section. */
  lemma FirstSlot(content: seq<Section>)
    requires |content| > 0 && |content[0].items| > 0
    ensures |Flatten(content)| > 0 && Flatten(content)[0].item == content[0].items[0]
  {
    SlotAt(content, 0, 0);
    assert content[..0] == [];
  }

  // ---------------------------------------------------------------------
  // Selecting a lecture
  // ---------------------------------------------------------------------

  /** Section `k` is the first section with its id. */
  predicate FirstWithId(content: seq<Section>, k: nat)
    requires k < |content|
  {
    forall m :: 0 <= m < k ==> content[m].id != content[k].id
  }

  function SectionIs(id: string): Section -> bool {
    (s: Section) => s.id == id
  }

  function ItemIs(id: string): Item -> bool {
    (it: Item) => it.id == id
  }

  /** The two `find`s of `handleChangeLecture`: the first section with the
      given id, then the first item of it with the given id. */
  function LookupLecture(content: seq<Section>, sectionId: string, itemId: string): (r: Option<Item>)
    ensures r.Some? ==> r.value.id == itemId
    ensures r.Some? ==> exists k, j :: 0 <= k < |content| && content[k].id == sectionId && FirstWithId(content, k)
                                       && 0 <= j < |content[k].items| && content[k].items[j] == r.value
                                       && forall i :: 0 <= i < j ==> content[k].items[i].id != itemId
    ensures r.None? <==> forall k :: 0 <= k < |content| && content[k].id == sectionId && FirstWithId(content, k) ==>
                                      forall j :: 0 <= j < |content[k].items| ==> content[k].items[j].id != itemId
  {
    match Seqs.FindFirst(content, SectionIs(sectionId))
    case None => None
    case Some(k) =>
      assert content[k].id == sectionId by { assert SectionIs(sectionId)(content[k]); }
      forall m | 0 <= m < k ensures content[m].id != sectionId {
        assert !SectionIs(sectionId)(content[m]);
      }
      FirstSectionUnique(content, sectionId, k);
      var found := Seqs.Find(content[k].items, ItemIs(itemId));
      if found.None? then
        assert forall j :: 0 <= j < |content[k].items| ==> !ItemIs(itemId)(content[k].items[j]);
        None
      else
        assert ItemIs(itemId)(found.value);
        assert exists j :: 0 <= j < |content[k].items| && content[k].items[j] == found.value
                           && forall i :: 0 <= i < j ==> !ItemIs(itemId)(content[k].items[i]);
        found
  }

  lemma FirstSectionUnique(content: seq<Section>, id: string, k: nat)
    requires k < |content| && content[k].id == id
    requires forall m :: 0 <= m < k ==> content[m].id != id
    ensures FirstWithId(content, k)
    ensures forall k' :: 0 <= k' < |content| && content[k'].id == id && FirstWithId(content, k') ==> k' == k
  {
  }

  /** `handleChangeLecture(sectionId, itemId)`: the item found becomes the
      current lecture, marked active, and its section joins the expanded
      ones. When either lookup fails the page throws; that is `None` here. */
  function HandleChangeLecture(content: seq<Section>, st: PlayerState, sectionId: string, itemId: string)
    : (r: Option<PlayerState>)
    ensures r.Some? <==> LookupLecture(content, sectionId, itemId).Some?
    ensures r.Some? ==> r.value.currentLecture.Some? && r.value.currentLecture.value.id == itemId
                        && r.value.currentLecture.value.active
    ensures r.Some? ==> sectionId in r.value.expandedSections
    ensures r.Some? ==> forall x :: x in st.expandedSections ==> x in r.value.expandedSections
    ensures r.Some? ==> forall x :: x in r.value.expandedSections ==> x == sectionId || x in st.expandedSections
  {
    match LookupLecture(content, sectionId, itemId)
    case None => None
    case Some(item) =>
      Some(PlayerState(Some(item.(active := true)), Seqs.AddIfAbsent(st.expandedSections, sectionId)))
  }

  function ActivateItem(it: Item, selected: bool): Item {
    it.(active := selected)
  }

  function ActivateSection(s: Section, sectionId: string, itemId: string): Section {
    s.(items := seq(|s.items|, j requires 0 <= j < |s.items| => ActivateItem(s.items[j], s.id == sectionId && s.items[j].id == itemId)),
       expanded := s.expanded || s.id == sectionId)
  }

  /** The `updatedContent` of `handleChangeLecture`: only the chosen item of
      the chosen section is active, that section is expanded, and nothing
      else changes. */
  function ActivateLecture(content: seq<Section>, sectionId: string, itemId: string): (r: seq<Section>)
    ensures |r| == |content|
    ensures forall k :: 0 <= k < |r| ==>
              r[k].id == content[k].id && r[k].title == content[k].title && |r[k].items| == |content[k].items|
    ensures forall k :: 0 <= k < |r| ==> r[k].expanded == (content[k].expanded || content[k].id == sectionId)
    ensures forall k, j :: 0 <= k < |r| && 0 <= j < |r[k].items| ==>
              r[k].items[j] == content[k].items[j].(active := r[k].items[j].active)
    ensures forall k, j :: 0 <= k < |r| && 0 <= j < |r[k].items| ==>
              (r[k].items[j].active <==> content[k].id == sectionId && content[k].items[j].id == itemId)
  {
    seq(|content|, k requires 0 <= k < |content| => ActivateSection(content[k], sectionId, itemId))
  }

  /** The lecture the mount effect would open from the updated outline is
      the lecture the handler selected: the two notions of "current" agree. */
  lemma ActivatedIsSelected(content: seq<Section>, st: PlayerState, sectionId: string, itemId: string)
    requires HandleChangeLecture(content, st, sectionId, itemId).Some?
    ensures InitialLecture(ActivateLecture(content, sectionId, itemId))
            == HandleChangeLecture(content, st, sectionId, itemId).value.currentLecture
  {
    var r := ActivateLecture(content, sectionId, itemId);
    var k := Seqs.FindFirst(content, SectionIs(sectionId)).value;
    assert content[k].id == sectionId by { assert SectionIs(sectionId)(content[k]); }
    var j := Seqs.FindFirst(content[k].items, ItemIs(itemId)).value;
    assert content[k].items[j].id == itemId by { assert ItemIs(itemId)(content[k].items[j]); }
    forall m, n | 0 <= m < k && 0 <= n < |r[m].items| ensures !r[m].items[n].active {
      assert !SectionIs(sectionId)(content[m]);
    }
    forall n | 0 <= n < j ensures !r[k].items[n].active {
      assert !ItemIs(itemId)(content[k].items[n]);
    }
    InitialLectureAt(r, k, j);
  }

  /** The mount effect finds the item at `(k, j)` when it is the first
      active one in reading order. */
  lemma {:induction false} InitialLectureAt(content: seq<Section>, k: nat, j: nat)
    requires k < |content| && j < |content[k].items| && content[k].items[j].active
    requires forall m, n :: 0 <= m < k && 0 <= n < |content[m].items| ==> !content[m].items[n].active
    requires forall n :: 0 <= n < j ==> !content[k].items[n].active
    ensures InitialLecture(content) == Some(content[k].items[j])
    decreases k
  {
    if k == 0 {
      assert IsActive(content[0].items[j]);
      var f := Seqs.FindFirst(content[0].items, IsActive);
      assert f.Some? && !(f.value < j) && !(f.value > j);
    } else {
      assert forall n :: 0 <= n < |content[0].items| ==> !IsActive(content[0].items[n]);
      InitialLectureAt(content[1..], k - 1, j);
    }
  }

  /** Selecting the same lecture twice is selecting it once. */
  lemma ChangeLectureIdempotent(content: seq<Section>, st: PlayerState, sectionId: string, itemId: string)
    requires HandleChangeLecture(content, st, sectionId, itemId).Some?
    ensures var once := HandleChangeLecture(content, st, sectionId, itemId).value;
            HandleChangeLecture(content, once, sectionId, itemId) == Some(once)
  {
  }

  /** `toggleSection(sectionId)`: opens a closed section, closes an open one. */
  function ToggleSection(st: PlayerState, sectionId: string): (t: PlayerState)
    ensures sectionId in t.expandedSections <==> sectionId !in st.expandedSections
    ensures forall x :: x != sectionId ==> (x in t.expandedSections <==> x in st.expandedSections)
    ensures t.currentLecture == st.currentLecture
  {
    st.(expandedSections := Seqs.ToggleMember(st.expandedSections, sectionId))
  }

  /** The sections open when the page loads. */
  const InitialExpanded: seq<string> := ["section-1"]

  predicate Holds(s: Section, id: string) {
    exists j :: 0 <= j < |s.items| && s.items[j].id == id
  }

  function HoldsLecture(id: string): Section -> bool {
    (s: Section) => Holds(s, id)
  }

  /** `getCurrentSection()`: the first section listing the current lecture. */
  function GetCurrentSection(content: seq<Section>, current: Option<Item>): (r: Option<Section>)
    ensures r.Some? ==> current.Some? && r.value in content && Holds(r.value, current.value.id)
    ensures r.None? <==> current.None? || forall k :: 0 <= k < |content| ==> !Holds(content[k], current.value.id)
    ensures r.Some? ==> exists k :: 0 <= k < |content| && content[k] == r.value
                                   && forall m :: 0 <= m < k ==> !Holds(content[m], current.value.id)
  {
    if current.None? then None
    else
      var r := Seqs.Find(content, HoldsLecture(current.value.id));
      assert forall m :: 0 <= m < |content| ==>
        (HoldsLecture(current.value.id)(content[m]) <==> Holds(content[m], current.value.id));
      if r.None? then
        assert forall k :: 0 <= k < |content| ==> !HoldsLecture(current.value.id)(content[k]);
        None
      else
        assert HoldsLecture(current.value.id)(r.value);
        r
  }

  /** No lecture id is listed in two different sections. */
  predicate IdsLocal(content: seq<Section>) {
    forall k1, k2, j1, j2 :: 0 <= k1 < |content| && 0 <= k2 < |content| && 0 <= j1 < |content[k1].items|
                             && 0 <= j2 < |content[k2].items| && content[k1].items[j1].id == content[k2].items[j2].id
                             ==> k1 == k2
  }

  /** When no lecture id is listed in two sections, the section shown as
      current after a selection is the selected section. */
  lemma CurrentSectionAfterChange(content: seq<Section>, st: PlayerState, sectionId: string, itemId: string)
    requires IdsLocal(content)
    requires HandleChangeLecture(content, st, sectionId, itemId).Some?
    ensures GetCurrentSection(content, HandleChangeLecture(content, st, sectionId, itemId).value.currentLecture).Some?
    ensures GetCurrentSection(content, HandleChangeLecture(content, st, sectionId, itemId).value.currentLecture).value.id
            == sectionId
  {
    var item := LookupLecture(content, sectionId, itemId).value;
    var k :| 0 <= k < |content| && content[k].id == sectionId && FirstWithId(content, k) && item in content[k].items;
    var j :| 0 <= j < |content[k].items| && content[k].items[j] == item;
    CurrentSectionOf(content, k, j, item.(active := true));
  }

  lemma CurrentSectionOf(content: seq<Section>, k: nat, j: nat, current: Item)
    requires IdsLocal(content) && k < |content| && j < |content[k].items|
    requires content[k].items[j].id == current.id
    ensures GetCurrentSection(content, Some(current)) == Some(content[k])
  {
    var r := GetCurrentSection(content, Some(current));
    assert Holds(content[k], current.id);
    var k2 :| 0 <= k2 < |content| && content[k2] == r.value;
    var j2 :| 0 <= j2 < |content[k2].items| && content[k2].items[j2].id == current.id;
    assert k2 == k;
  }

  // ---------------------------------------------------------------------
  // The lecture shown first
  // ---------------------------------------------------------------------

  function IsActive(it: Item): bool {
    it.active
  }

  /** The mount effect: in section order, the first item marked active in
      the first section that has one. */
  function InitialLecture(content: seq<Section>): (r: Option<Item>)
    ensures r.Some? ==> r.value.active && exists k :: 0 <= k < |content| && r.value in content[k].items
    ensures r.None? <==> forall k, j :: 0 <= k < |content| && 0 <= j < |content[k].items| ==> !content[k].items[j].active
    decreases |content|
  {
    if |content| == 0 then None
    else
      var found := Seqs.Find(content[0].items, IsActive);
      if found.Some? then found
      else
        var rest := InitialLecture(content[1..]);
        assert forall j :: 0 <= j < |content[0].items| ==> !IsActive(content[0].items[j]);
        assert forall k :: 1 <= k < |content| ==> content[k] == content[1..][k - 1];
        rest
  }

  /** The built-in outline opens on "Setting Up Your Environment". */
  lemma InitialLectureOfCourse()
    ensures InitialLecture(CourseContent) == Some(Section1.items[2])
    ensures Section1.items[2].id == "item-1-3"
  {
    assert CourseContent[0] == Section1;
    assert !IsActive(Section1.items[0]) && !IsActive(Section1.items[1]) && IsActive(Section1.items[2]);
    assert Seqs.FindFirst(Section1.items, IsActive) == Some(2) by {
      assert Section1.items[1..][1..] == Section1.items[2..];
    }
  }

  // ---------------------------------------------------------------------
  // Progress
  // ---------------------------------------------------------------------

  /** The number of completed lectures. */
  function CompletedCount(lectures: seq<Slot>): (n: nat)
    ensures n <= |lectures|
    decreases |lectures|
  {
    if |lectures| == 0 then 0
    else CompletedCount(lectures[..|lectures| - 1]) + (if lectures[|lectures| - 1].item.completed then 1 else 0)
  }

  /** `getTotalAndCompletedLectures()`: counts every item of every section,
      and the completed ones among them. */
  method GetTotalAndCompleted(content: seq<Section>) returns (total: nat, completed: nat)
    ensures total == |Flatten(content)|
    ensures completed == CompletedCount(Flatten(content))
  {
    ghost var lectures := Flatten(content);
    total, completed := 0, 0;
    for i := 0 to |content|
      invariant total == |Flatten(content[..i])| <= |lectures|
      invariant completed == CompletedCount(lectures[..total])
    {
      var section := content[i];
      SectionSlots(content, i, lectures, total);
      ghost var base := total;
      for j := 0 to |section.items|
        invariant total == base + j
        invariant completed == CompletedCount(lectures[..total])
      {
        CompletedStep(lectures, total);
        assert lectures[total].item == section.items[j];
        total := total + 1;
        if section.items[j].completed {
          completed := completed + 1;
        }
      }
      FlattenStep(content, i);
    }
    assert content[..|content|] == content;
    assert lectures[..total] == lectures;
  }

  lemma CompletedStep(lectures: seq<Slot>, n: nat)
    requires n < |lectures|
    ensures CompletedCount(lectures[..n + 1])
            == CompletedCount(lectures[..n]) + (if lectures[n].item.completed then 1 else 0)
  {
    assert lectures[..n + 1][..n] == lectures[..n];
  }

  /** The share of completed lectures as the nearest whole percentage,
      halves rounded up; `None` for the `NaN` of an empty course. */
  function RoundPercent(completed: nat, total: nat): (r: Option<int>)
    ensures r.None? <==> total == 0
    ensures r.Some? ==> 200 * completed - total < 2 * r.value * total <= 200 * completed + total
    ensures r.Some? && completed <= total ==> 0 <= r.value <= 100
  {
    if total == 0 then None
    else
      var q := (200 * completed + total) / (2 * total);
      RoundBounds(200 * completed + total, 2 * total, q);
      assert 2 * q * total == (2 * total) * q;
      PercentAtMost(completed, total, q);
      Some(q)
  }

  lemma RoundBounds(n: int, d: int, q: int)
    requires d > 0 && n >= 0 && q == n / d
    ensures n - d < d * q <= n
  {
  }

  lemma PercentAtMost(completed: nat, total: nat, q: int)
    requires total > 0 && 2 * q * total <= 200 * completed + total
    requires q == (200 * completed + total) / (2 * total)
    ensures q >= 0
    ensures completed <= total ==> q <= 100
  {
    if completed <= total {
      assert 2 * q * total <= 201 * total;
      assert (2 * q - 201) * total <= 0;
      assert 2 * q - 201 <= 0;
    }
  }

  lemma CompletedAppend(a: seq<Slot>, b: seq<Slot>)
    ensures CompletedCount(a + b) == CompletedCount(a) + CompletedCount(b)
    decreases |b|
  {
    if |b| > 0 {
      assert (a + b)[..|a + b| - 1] == a + b[..|b| - 1];
      CompletedAppend(a, b[..|b| - 1]);
    } else {
      assert a + b == a;
    }
  }

  lemma NoneCompleted(lectures: seq<Slot>)
    requires forall m :: 0 <= m < |lectures| ==> !lectures[m].item.completed
    ensures CompletedCount(lectures) == 0
    decreases |lectures|
  {
    if |lectures| > 0 {
      NoneCompleted(lectures[..|lectures| - 1]);
    }
  }

  /** The built-in outline has 20 lectures, two of them completed, so the
      navigator shows 10% complete. */
  lemma CourseProgress()
    ensures |Flatten(CourseContent)| == 20
    ensures CompletedCount(Flatten(CourseContent)) == 2
    ensures RoundPercent(2, 20) == Some(10)
  {
    FlattenCourse();
    CourseCompleted(SlotsOf(Section1), SlotsOf(Section2), SlotsOf(Section3), SlotsOf(Section4));
  }

  lemma CourseCompleted(s1: seq<Slot>, s2: seq<Slot>, s3: seq<Slot>, s4: seq<Slot>)
    requires s1 == SlotsOf(Section1) && s2 == SlotsOf(Section2) && s3 == SlotsOf(Section3) && s4 == SlotsOf(Section4)
    ensures CompletedCount(s1 + s2 + s3 + s4) == 2
  {
    NoneCompleted(s2);
    NoneCompleted(s3);
    NoneCompleted(s4);
    FirstSectionCompleted();
    CompletedAppend(s1, s2);
    CompletedAppend(s1 + s2, s3);
    CompletedAppend(s1 + s2 + s3, s4);
  }

  lemma FlattenCourse()
    ensures Flatten(CourseContent) == SlotsOf(Section1) + SlotsOf(Section2) + SlotsOf(Section3) + SlotsOf(Section4)
  {
    FlattenFour(Section1, Section2, Section3, Section4);
  }

  lemma FlattenFour(a: Section, b: Section, c: Section, d: Section)
    ensures Flatten([a, b, c, d]) == SlotsOf(a) + SlotsOf(b) + SlotsOf(c) + SlotsOf(d)
  {
    var s := [a, b, c, d];
    assert s[..3] == [a, b, c] && [a, b, c][..2] == [a, b] && [a, b][..1] == [a] && [a][..0] == [];
    assert Flatten([a]) == SlotsOf(a);
    assert Flatten([a, b]) == SlotsOf(a) + SlotsOf(b);
    assert Flatten([a, b, c]) == SlotsOf(a) + SlotsOf(b) + SlotsOf(c);
  }

  lemma CompletedLast(lectures: seq<Slot>)
    requires |lectures| > 0
    ensures CompletedCount(lectures) == CompletedCount(lectures[..|lectures| - 1])
                                        + (if lectures[|lectures| - 1].item.completed then 1 else 0)
  {
  }

  lemma FirstSectionCompleted()
    ensures CompletedCount(SlotsOf(Section1)) == 2
  {
    var s1 := SlotsOf(Section1);
    assert s1[3].item == Section1.items[3] && !s1[3].item.completed;
    assert s1[2].item == Section1.items[2] && !s1[2].item.completed;
    assert s1[1].item.completed && s1[0].item.completed;
    CompletedLast(s1);
    CompletedLast(s1[..3]);
    assert s1[..3][..2] == s1[..2];
    CompletedLast(s1[..2]);
    assert s1[..2][..1] == s1[..1];
    CompletedLast(s1[..1]);
    assert s1[..1][..0] == [];
  }

  // ---------------------------------------------------------------------
  // Completion marks (computed by the page, then not kept)
  // ---------------------------------------------------------------------

  function MarkItem(it: Item, id: string): Item {
    if it.id == id then it.(completed := true) else it
  }

  /** The "Mark as completed" button: every item with the current lecture's
      id becomes completed, nothing else changes. */
  function MarkCompleted(content: seq<Section>, id: string): (r: seq<Section>)
    ensures |r| == |content|
    ensures forall k :: 0 <= k < |r| ==> r[k].id == content[k].id && |r[k].items| == |content[k].items|
    ensures forall k, j :: 0 <= k < |r| && 0 <= j < |r[k].items| ==>
              r[k].items[j].completed == (content[k].items[j].completed || content[k].items[j].id == id)
              && r[k].items[j].id == content[k].items[j].id
    ensures forall k :: 0 <= k < |r| ==> r[k] == content[k].(items := r[k].items)
    ensures forall k, j :: 0 <= k < |r| && 0 <= j < |r[k].items| ==>
              r[k].items[j] == content[k].items[j].(completed := r[k].items[j].completed)
  {
    seq(|content|, k requires 0 <= k < |content| =>
      content[k].(items := seq(|content[k].items|, j requires 0 <= j < |content[k].items| => MarkItem(content[k].items[j], id))))
  }

  /** Marking twice is marking once. */
  lemma MarkCompletedIdempotent(content: seq<Section>, id: string)
    ensures MarkCompleted(MarkCompleted(content, id), id) == MarkCompleted(content, id)
  {
    var once := MarkCompleted(content, id);
    var twice := MarkCompleted(once, id);
    forall k | 0 <= k < |once| ensures twice[k] == once[k] {
      assert twice[k].items == once[k].items;
    }
  }

  function FlipItem(it: Item, id: string): Item {
    if it.id == id then it.(completed := !it.completed) else it
  }

  function FlipSection(s: Section, sectionId: string, itemId: string): Section {
    if s.id == sectionId then s.(items := seq(|s.items|, j requires 0 <= j < |s.items| => FlipItem(s.items[j], itemId)))
    else s
  }

  /** The check box of a lecture: flips the completion of the items with
      that id in the sections with that id. */
  function ToggleCompleted(content: seq<Section>, sectionId: string, itemId: string): (r: seq<Section>)
    ensures |r| == |content|
    ensures forall k :: 0 <= k < |r| ==> r[k].id == content[k].id && |r[k].items| == |content[k].items|
    ensures forall k, j :: 0 <= k < |r| && 0 <= j < |r[k].items| ==>
              r[k].items[j].completed
              == (if content[k].id == sectionId && content[k].items[j].id == itemId
                  then !content[k].items[j].completed else content[k].items[j].completed)
    ensures forall k :: 0 <= k < |r| ==> r[k] == content[k].(items := r[k].items)
    ensures forall k, j :: 0 <= k < |r| && 0 <= j < |r[k].items| ==>
              r[k].items[j] == content[k].items[j].(completed := r[k].items[j].completed)
  {
    seq(|content|, k requires 0 <= k < |content| => FlipSection(content[k], sectionId, itemId))
  }

  /** Ticking a check box twice restores the outline. */
  lemma ToggleCompletedInvolution(content: seq<Section>, sectionId: string, itemId: string)
    ensures ToggleCompleted(ToggleCompleted(content, sectionId, itemId), sectionId, itemId) == content
  {
    var once := ToggleCompleted(content, sectionId, itemId);
    var twice := ToggleCompleted(once, sectionId, itemId);
    forall k | 0 <= k < |content| ensures twice[k] == content[k] {
      if content[k].id == sectionId {
        assert twice[k].items == content[k].items;
      }
    }
  }

  // ---------------------------------------------------------------------
  // The compact lecture picker and the video frame
  // ---------------------------------------------------------------------

  /** The value of a picker option: `${section.id}|${item.id}`. */
  function SelectValue(sectionId: string, itemId: string): string {
    Text.Join([sectionId, itemId], '|')
  }

  /** A picker value split at the separator bar, of which the first two
      parts are kept; a missing second part is absent. */
  function DecodeSelect(value: string): (r: (string, Option<string>))
    ensures '|' !in r.0
  {
    var parts := Text.Split(value, '|');
    (parts[0], if |parts| >= 2 then Some(parts[1]) else None)
  }

  /** An option's value decodes to its section and lecture ids, provided
      neither contains the separator. */
  lemma SelectRoundTrip(sectionId: string, itemId: string)
    requires '|' !in sectionId && '|' !in itemId
    ensures DecodeSelect(SelectValue(sectionId, itemId)) == (sectionId, Some(itemId))
  {
    Text.SplitJoin([sectionId, itemId], '|');
  }

  /** The picker's `onChange`: decodes the value and selects the lecture;
      a value without a second part makes the lookup fail. */
  function OnSelect(content: seq<Section>, st: PlayerState, value: string): (r: Option<PlayerState>)
    ensures DecodeSelect(value).1.Some? ==>
              r == HandleChangeLecture(content, st, DecodeSelect(value).0, DecodeSelect(value).1.value)
    ensures DecodeSelect(value).1.None? ==> r.None?
  {
    var (sectionId, lectureId) := DecodeSelect(value);
    if lectureId.None? then None else HandleChangeLecture(content, st, sectionId, lectureId.value)
  }

  /** Choosing an option of the picker selects that very lecture. */
  lemma PickerSelects(content: seq<Section>, st: PlayerState, sectionId: string, itemId: string)
    requires '|' !in sectionId && '|' !in itemId
    ensures OnSelect(content, st, SelectValue(sectionId, itemId)) == HandleChangeLecture(content, st, sectionId, itemId)
  {
    SelectRoundTrip(sectionId, itemId);
  }

  const VideoBase: string := "https://www.youtube.com/embed/dQw4w9WgXcQ?rel=0&showinfo=0&autoplay=1&lesson="

  /** The frame's address: the current lecture's id, or nothing, as the
      `lesson` parameter. */
  function VideoSrc(current: Option<Item>): (url: string)
    ensures |url| >= |VideoBase| && url[..|VideoBase|] == VideoBase
    ensures url[|VideoBase|..] == (if current.Some? then current.value.id else "")
  {
    VideoBase + (if current.Some? then current.value.id else "")
  }
}
