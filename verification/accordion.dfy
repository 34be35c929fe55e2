/** The curriculum accordion (src/components/CourseContent/CourseContentAccordion.tsx):
    the label and icon of each kind of item, the preview/lock rule, and the
    set of open panels, which follows the `expandedSections` property and
    the panel clicks. */
module Accordion {
  import opened Wrappers

  datatype ContentItem = ContentItem(id: string, title: string, duration: string, isPreview: bool, kind: string)

  /** A section as the accordion receives it: `totalLectures` is a stored
      field, shown in the panel header. */
  datatype ContentSection = ContentSection(id: string, title: string, duration: string,
                                           items: seq<ContentItem>, totalLectures: nat)

  // ---------------------------------------------------------------------
  // Item kinds
  // ---------------------------------------------------------------------

  /** The six item kinds the page knows by name. */
  const KnownKinds: seq<string> := ["video", "quiz", "exercise", "assignment", "project", "article"]

  /** `getItemTypeText(type)`. */
  function ItemTypeText(kind: string): (text: string)
    ensures text == "Lecture" <==> kind !in KnownKinds
  {
    match kind
    case "video" => "Video"
    case "quiz" => "Quiz"
    case "exercise" => "Exercise"
    case "assignment" => "Assignment"
    case "project" => "Project"
    case "article" => "Article"
    case _ => "Lecture"
  }

  /** The reference the labels follow: the kind with its first letter in
      upper case. */
  function Capitalize(s: string): (r: string)
    ensures |r| == |s| && (|s| > 0 ==> r[1..] == s[1..])
  {
    if |s| == 0 then s
    else if 'a' <= s[0] <= 'z' then [(s[0] as int - 32) as char] + s[1..]
    else s
  }

  /** Each known kind is labelled by its own name, capitalized. */
  lemma KnownLabelsCapitalized(i: nat)
    requires i < |KnownKinds|
    ensures ItemTypeText(KnownKinds[i]) == Capitalize(KnownKinds[i])
  {
    var k := KnownKinds[i];
    assert Capitalize(k) == [(k[0] as int - 32) as char] + k[1..];
    if i == 0 { assert k == "video" && ItemTypeText(k) == "Video"; }
    else if i == 1 { assert k == "quiz" && ItemTypeText(k) == "Quiz"; }
    else if i == 2 { assert k == "exercise" && ItemTypeText(k) == "Exercise"; }
    else if i == 3 { assert k == "assignment" && ItemTypeText(k) == "Assignment"; }
    else if i == 4 { assert k == "project" && ItemTypeText(k) == "Project"; }
    else { assert k == "article" && ItemTypeText(k) == "Article"; }
  }

  /** Different kinds get different labels. */
  lemma KnownLabelsDistinct(i: nat, j: nat)
    requires i < |KnownKinds| && j < |KnownKinds| && i != j
    ensures ItemTypeText(KnownKinds[i]) != ItemTypeText(KnownKinds[j])
  {
    var a, b := KnownKinds[i], KnownKinds[j];
    KnownLabelsCapitalized(i);
    KnownLabelsCapitalized(j);
    assert a != b;
    assert Capitalize(a)[1..] == a[1..] && Capitalize(b)[1..] == b[1..];
  }

  datatype Icon = PlayCircle | Form | FileText | Project

  /** `getItemIcon(item)`: quizzes and assignments share the form icon,
      exercises and articles the text icon; any other kind plays. */
  function ItemIcon(kind: string): (icon: Icon)
    ensures icon == Project <==> kind == "project"
    ensures icon == Form <==> kind == "quiz" || kind == "assignment"
    ensures icon == FileText <==> kind == "exercise" || kind == "article"
    ensures icon == PlayCircle <==> kind !in ["quiz", "assignment", "exercise", "article", "project"]
  {
    match kind
    case "video" => PlayCircle
    case "quiz" => Form
    case "exercise" => FileText
    case "assignment" => Form
    case "project" => Project
    case "article" => FileText
    case _ => PlayCircle
  }

  /** The default icon and the default label go together: an unknown kind
      plays and reads "Lecture". */
  lemma UnknownKindPlays(kind: string)
    requires ItemTypeText(kind) == "Lecture"
    ensures ItemIcon(kind) == PlayCircle
  {
  }

  // ---------------------------------------------------------------------
  // Preview or lock
  // ---------------------------------------------------------------------

  datatype Access = PlayButton | Locked

  /** What the right-hand side of an item row shows. */
  function ItemAccess(item: ContentItem): (a: Access)
    ensures a == PlayButton <==> item.isPreview
  {
    if item.isPreview then PlayButton else Locked
  }

  /** Whether the "Preview" tag follows the title. */
  predicate ShowsPreviewTag(item: ContentItem) {
    item.isPreview
  }

  /** The tag and the play button appear together; every other item is
      locked. */
  lemma PreviewTagIffPlayable(item: ContentItem)
    ensures ShowsPreviewTag(item) <==> ItemAccess(item) == PlayButton
    ensures !ShowsPreviewTag(item) <==> ItemAccess(item) == Locked
  {
  }

  // ---------------------------------------------------------------------
  // Open panels
  // ---------------------------------------------------------------------

  /** What `Collapse` hands to `onChange`: a list of keys, or a single key
      that may be missing. */
  datatype PanelKeys = KeyList(keys: seq<string>) | SingleKey(key: Option<string>)

  /** A list of keys is taken as it is; a single key becomes a list of
      that key, or the empty list when it is missing or empty. */
  function NormalizeKeys(k: PanelKeys): (r: seq<string>)
    ensures k.KeyList? ==> r == k.keys
    ensures k.SingleKey? ==> |r| <= 1 && (|r| == 1 <==> k.key.Some? && k.key.value != "")
    ensures k.SingleKey? && |r| == 1 ==> r[0] == k.key.value
  {
    match k
    case KeyList(keys) => keys
    case SingleKey(key) => if key.Some? && key.value != "" then [key.value] else []
  }

  /** A normalized key list normalizes to itself, and a single key never
      yields an empty key. */
  lemma NormalizeIdempotent(k: PanelKeys)
    ensures NormalizeKeys(KeyList(NormalizeKeys(k))) == NormalizeKeys(k)
    ensures k.SingleKey? ==> "" !in NormalizeKeys(k)
  {
  }

  datatype AccordionState = AccordionState(activeKeys: seq<string>)

  /** The first render: the open panels are the `expandedSections` given. */
  function InitAccordion(expanded: seq<string>): (s: AccordionState)
    ensures s.activeKeys == expanded
  {
    AccordionState(expanded)
  }

  /** A click on a panel header: the keys reported become the open panels. */
  function OnPanelChange(s: AccordionState, k: PanelKeys): (t: AccordionState)
    ensures t.activeKeys == NormalizeKeys(k)
  {
    AccordionState(NormalizeKeys(k))
  }

  /** The effect on a new `expandedSections`: the open panels are reset to
      it, whatever was clicked before. */
  function OnExpandedChange(s: AccordionState, expanded: seq<string>): (t: AccordionState)
    ensures t == InitAccordion(expanded)
  {
    AccordionState(expanded)
  }

  /** Clicks are forgotten when the property changes: any run of clicks
      followed by a new `expandedSections` ends where a fresh accordion
      would start. */
  lemma {:induction false} PropertyWins(s: AccordionState, clicks: seq<PanelKeys>, expanded: seq<string>)
    ensures OnExpandedChange(Clicks(s, clicks), expanded) == InitAccordion(expanded)
    ensures |clicks| > 0 ==> Clicks(s, clicks).activeKeys == NormalizeKeys(clicks[|clicks| - 1])
  {
  }

  /** A run of panel clicks. */
  function Clicks(s: AccordionState, clicks: seq<PanelKeys>): AccordionState
    decreases |clicks|
  {
    if |clicks| == 0 then s else OnPanelChange(Clicks(s, clicks[..|clicks| - 1]), clicks[|clicks| - 1])
  }

  /** A section whose stored header count agrees with its item list. */
  predicate CountsAgree(s: ContentSection) {
    s.totalLectures == |s.items|
  }
}
