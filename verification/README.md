# PeakHub frontend: a Dafny model of its logic

PeakHub is a course-marketplace web frontend built on mock data. Under its
rendering code sits a good deal of ordinary, deterministic logic, and this
project models that logic and proves properties of it:

- the session (`AuthProvider`): sign-in against the fixed account list,
  registration, sign-out, and restoring the stored user;
- what each role sees and where it is sent: the navigation entries, the
  header controls, and the sign-in, sign-up and profile forms;
- the lecture player: previous and next lecture, lecture selection, expanded
  sections, completion flags, progress counters, and the select-box encoding;
- the course detail page and its curriculum accordion;
- the list pages: the catalogue, "My Learning", and the three admin tables
  for users, courses and reviews. Each is a filter, then a sort, then a page;
- the cart button and the search bar.

Each page or component is one module and is written as pure functions over
immutable datatypes. A handler is a function from the old state to the new
one. Navigation is returned as a route string, and browser storage is an
`Option<User>` slot, or a string map for the admin tab. Units:

- Money is in integer cents.
- Ratings are in tenths of a star.
- Dates are integers of the form YYYYMMDD. Time stamps are YYYYMMDDhhmm.
  Both order the same way as the ISO strings they stand for.
- Lower-casing is ASCII case folding.
- `encodeURIComponent` is modelled in full: UTF-8 bytes, percent-encoded.

JavaScript's `Array.prototype.sort` is stable. Here it is a stable insertion
sort by an integer key, largest first; an ascending sort uses the negated key.
Some comparators the model cannot compute: `localeCompare`, `Math.random`,
and a comparator that returns 0 for an unknown option. For the first two the
caller passes the resulting order as an argument, and the `requires` clause
says it must be a rearrangement of the same items. An unknown option keeps
the input order, as a stable sort does when every pair compares equal.

Helper modules:

- `Wrappers`: `Option` and `Result`.
- `Text`: trimming, substring search, splitting, and decimal conversion.
  `Text.ParseInt` reads decimal text as `parseInt` does: optional blanks,
  an optional sign, then the longest run of digits. The hexadecimal `0x`
  prefix is not handled (see "Left out").
- `Uri`: percent-encoding.
- `Seqs`: filter, find, stable sort, pages, sums and toggles. The list pages
  are built from these.

## Model

| member | source | states |
|---|---|---|
| `Auth.Bootstrap` | src/contexts/AuthContext.tsx:78-85 | the mount effect installs the stored user when there is one, keeps the current one otherwise, and ends loading |
| `Auth.BootstrapFresh` | src/contexts/AuthContext.tsx:75-85 | a fresh provider is signed in exactly when a user was stored, and as that user |
| `Auth.Login` | src/contexts/AuthContext.tsx:87-109 | a user comes back iff some account matches email and password exactly; the returned, stored and installed user are that account without its password; a refusal leaves user and storage alone; loading ends on both paths |
| `Auth.Register` | src/contexts/AuthContext.tsx:111-140 | refused iff the email belongs to an account, leaving user and storage alone; otherwise the new user has id "6", the given email and name, the given role or student, a generated avatar, and is stored and installed |
| `Auth.RegisteredAvatar` | src/contexts/AuthContext.tsx:130 | the avatar of a new user is a ui-avatars URL |
| `Auth.Logout` | src/contexts/AuthContext.tsx:142-145 | signing out clears user and storage whatever the state was |
| `Auth.UseAuth` | src/contexts/AuthContext.tsx:60-66 | the hook returns the context when a provider is present and otherwise fails with the provider message |
| `Auth.LogoutIdempotent` | src/contexts/AuthContext.tsx:142-145 | signing out twice is signing out once, and a reload after signing out is signed out |
| `Auth.IsAuthenticated` | src/contexts/AuthContext.tsx:149 | the session is signed in exactly when a user is installed; `BootstrapFresh` and `Logout` state it for the mount and the sign-out |
| `Auth.LoginSurvivesReload` | src/contexts/AuthContext.tsx:78-104 | after a successful sign-in, a reload restores the same user |
| `Auth.NewUserIdIsSix` | src/contexts/AuthContext.tsx:126 | `(MOCK_USERS.length + 1).toString()` is "6" |
| `Auth.RegisteredCannotLogin` | src/contexts/AuthContext.tsx:118-139 | registration never extends the account list, so the new credentials are refused by sign-in |
| `Auth.AvatarNameIsOneParameter` | src/contexts/AuthContext.tsx:130 | an encoded name contains no `&` or `=`, so it stays one query parameter |
| `Auth.MockAccountsLogIn` | src/contexts/AuthContext.tsx:5-46 | each of the five accounts signs in with its email and "password123" |
| `NavLinks.FilteredNavItems` | src/components/common/molecules/NavLinks.tsx:28-30 | an entry is shown iff it has no role list or lists the user's role; the result keeps the entries' order; unrestricted entries are always shown |
| `NavLinks.IsVisible` | src/components/common/molecules/NavLinks.tsx:28-30 | an entry without a role list is visible to everybody, one with a list to a signed-in user whose role is on it; `FilteredNavItems` states the menu built from it |
| `NavLinks.FilterSplits` | src/components/common/molecules/NavLinks.tsx:11-30 | the filter keeps the three public entries and filters only the dashboards |
| `NavLinks.AnonymousSeesPublicEntries` | src/components/common/molecules/NavLinks.tsx:11-14 | a visitor with no role sees Home, Courses and About |
| `NavLinks.EntriesPerRole` | src/components/common/molecules/NavLinks.tsx:11-19 | a guest sees 3 entries and every other role sees 4 |
| `NavLinks.DashboardsPerRole` | src/components/common/molecules/NavLinks.tsx:15-19 | each non-guest role sees exactly one dashboard entry and a guest none |
| `Header.InitialHeader` | src/components/common/organisms/Header.tsx:22-31 | the header starts unfocused, with the dropdown closed and English chosen |
| `Header.ToggleLangDropdown` | src/components/common/organisms/Header.tsx:51-53 | toggling flips the dropdown and changes nothing else |
| `Header.ChangeLang` | src/components/common/organisms/Header.tsx:55-60 | choosing a language selects it and always closes the dropdown |
| `Header.MouseDown` | src/components/common/organisms/Header.tsx:35-49 | a press outside an open dropdown closes it; any other press changes nothing |
| `Header.SearchFocusChanged` | src/components/common/organisms/Header.tsx:79-80 | the search bar's focus and blur set the header's flag and nothing else |
| `Header.HeaderControlsByRole` | src/components/common/organisms/Header.tsx:86-96 | a visitor sees only the cart; whoever sees the instructor link also sees cart and notifications; an admin sees notifications but no cart; a student or guest sees cart and notifications but no instructor link |
| `Header.ShowsInstructorLink` | src/components/common/organisms/Header.tsx:86 | the instructor link appears for a signed-in instructor only; `HeaderControlsByRole` states the controls per role |
| `Header.ShowsCart` | src/components/common/organisms/Header.tsx:95 | the cart appears for visitors and every role but the administrator |
| `Header.ShowsNotifications` | src/components/common/organisms/Header.tsx:96 | the notifications menu appears for any signed-in user |
| `Header.DropdownToggles` | src/components/common/organisms/Header.tsx:51-57 | toggling twice restores the state, and choosing a language after opening leaves it closed |
| `LoginPage.HandleChange` | src/pages/Login/index.tsx:20-23 | an input updates only its own credential |
| `LoginPage.HandleSubmit` | src/pages/Login/index.tsx:25-48 | success routes an admin to `/admin` and anyone else to `/`; a refusal shows "Invalid email or password" and stays; loading is off on every path |
| `LoginPage.QuickLoginAs` | src/pages/Login/index.tsx:51-68 | a demo sign-in routes to `/` on success whatever the role, and shows the quick-login error otherwise |
| `LoginPage.QuickLoginsSucceed` | src/pages/Login/index.tsx:224-235 | each of the four demo buttons signs in as its account and lands on `/` |
| `LoginPage.AdminRedirects` | src/pages/Login/index.tsx:32-38 | the admin's typed credentials lead to `/admin` but the admin demo button leads to `/` |
| `LoginPage.RedirectFor` | src/pages/Login/index.tsx:34-38 | a typed sign-in sends an administrator to `/admin` and anyone else to `/`; `HandleSubmit` states it for the form |
| `SignupPage.InitialSignup` | src/pages/Signup/index.tsx:12-20 | the form starts on the student role, which is one of the two offered |
| `SignupPage.HandleChange` | src/pages/Signup/index.tsx:24-27 | an input updates only its own field |
| `SignupPage.HandleRoleChange` | src/pages/Signup/index.tsx:29-31 | the role select updates only the role |
| `SignupPage.SetConfirmPassword` | src/pages/Signup/index.tsx:152 | the confirmation input updates only the confirmation |
| `SignupPage.HandleSubmit` | src/pages/Signup/index.tsx:33-59 | different passwords stop before `register` with "Passwords do not match"; otherwise success routes to `/` and a refusal shows the email-in-use error; loading is off on every path |
| `SignupPage.SignupSignsIn` | src/pages/Signup/index.tsx:46-49 | a successful sign-up signs in a user with id "6" and the form's email, name and role |
| `SignupPage.KnownEmailRefused` | src/pages/Signup/index.tsx:46-52 | signing up with an account's email is refused and leaves the session alone |
| `SignupPage.SignupNotPersistent` | src/pages/Signup/index.tsx:46 | after signing out, the new account's credentials are refused by sign-in |
| `ProfilePage.AvatarName` | src/pages/Profile/index.tsx:109 | the avatar name is the user's name when non-empty and "User" otherwise |
| `ProfilePage.InitialAvatar` | src/pages/Profile/index.tsx:108-110 | the user's own avatar when it is non-empty, otherwise the ui-avatars URL with the encoded name between the fixed prefix and suffix |
| `ProfilePage.GeneratedAvatarName` | src/pages/Profile/index.tsx:108-110 | a generated URL's name parameter contains no `&`, and a visitor gets name "User" |
| `ProfilePage.ValidateNewPassword` | src/pages/Profile/index.tsx:350-354 | the new password passes iff it has at least 8 characters; an empty one gets only the required message |
| `ProfilePage.ConfirmValidator` | src/pages/Profile/index.tsx:368-374 | the custom rule accepts an empty value or one equal to the new password, and otherwise rejects with "The two passwords do not match" |
| `ProfilePage.ValidateConfirm` | src/pages/Profile/index.tsx:365-374 | the confirmation passes iff it is non-empty and equal to the new password, with at most one message |
| `ProfilePage.PasswordFormAccepts` | src/pages/Profile/index.tsx:350-374 | the password form passes iff the new password is at least 8 long and typed identically twice |
| `SearchBar.SetQuery` | src/components/common/molecules/SearchBar.tsx:18 | typing replaces the query and keeps the focus |
| `SearchBar.Submit` | src/components/common/molecules/SearchBar.tsx:22-27 | a search is emitted iff a callback is present and the query has a non-blank character; what is emitted is the trimmed query |
| `SearchBar.SubmitStable` | src/components/common/molecules/SearchBar.tsx:24-25 | an emitted query has no surrounding blanks, and submitting it again emits it unchanged |
| `SearchBar.Focus` | src/components/common/molecules/SearchBar.tsx:29-32 | focus sets the flag and forwards to the callback when there is one |
| `SearchBar.Blur` | src/components/common/molecules/SearchBar.tsx:34-37 | blur clears the flag and forwards to the callback when there is one |
| `CartButton.Subtotal` | src/components/common/molecules/CartButton.tsx:43 | the subtotal is at least every item's price |
| `CartButton.SubtotalAdd` | src/components/common/molecules/CartButton.tsx:43 | adding an item raises the subtotal by exactly its price |
| `CartButton.MockSubtotal` | src/components/common/molecules/CartButton.tsx:16-29 | the two sample items come to 7998 cents, shown as "$79.98" |
| `CartButton.Decimals` | src/components/common/molecules/CartButton.tsx:287 | the two decimals shown are the tens and units of the cents |
| `CartButton.FormatCents` | src/components/common/molecules/CartButton.tsx:287 | an amount is shown as "$", digits, ".", two digits |
| `CartButton.FormatCentsReadsBack` | src/components/common/molecules/CartButton.tsx:225-287 | the shown amount reads back: its whole part parses to the dollars and its decimals to the cents |
| `CartButton.Badge` | src/components/common/molecules/CartButton.tsx:106-127 | the badge shows iff the cart is non-empty, and shows the number of items |
| `CartButton.Actions` | src/components/common/molecules/CartButton.tsx:177-394 | a non-empty cart offers checkout; browsing the catalogue is offered iff the cart is empty |
| `CartButton.ToggleCart` | src/components/common/molecules/CartButton.tsx:45-47 | the cart button flips the dropdown and does not navigate |
| `CartButton.Press` | src/components/common/molecules/CartButton.tsx:49-57 | each dropdown button closes the dropdown and navigates to its route |
| `CartButton.MouseDown` | src/components/common/molecules/CartButton.tsx:59-76 | a press outside an open dropdown closes it; nothing else changes it |
| `CartButton.ActionRoutesDistinct` | src/components/common/molecules/CartButton.tsx:49-57 | the three buttons lead to three different routes |
| `CoursePlayer.SlotsOf` | src/pages/CoursePlayer/index.tsx:273-280 | a section contributes its items, in order, each tagged with the section id |
| `CoursePlayer.FlattenAppend` | src/pages/CoursePlayer/index.tsx:625-626 | the reading order of two outlines put together is the two reading orders put together |
| `CoursePlayer.SlotAt` | src/pages/CoursePlayer/index.tsx:625-627 | item j of section i sits in reading order just after the items of the earlier sections |
| `CoursePlayer.Next` | src/pages/CoursePlayer/index.tsx:618-645 | the Next loop selects the lecture right after the first occurrence of the current one in reading order, crossing into later sections, and nothing at the end or with no lecture |
| `CoursePlayer.Previous` | src/pages/CoursePlayer/index.tsx:571-609 | with no lecture nothing opens; whatever opens is a lecture of the outline whose section and item ids are both non-empty; when every id is non-empty, it is the lecture right before the last occurrence of the current one in reading order, crossing back into earlier sections, and nothing at the start |
| `CoursePlayer.NextInSection` | src/pages/CoursePlayer/index.tsx:626-642 | the inner forward scan of one section either finds the next lecture, possibly the first of this section after a match at the end of the last one, or reports whether the section ended on the current lecture |
| `CoursePlayer.PreviousInSection` | src/pages/CoursePlayer/index.tsx:582-601 | the inner backward scan of one section keeps only lectures of the outline; with nothing kept yet, it keeps the lecture before the last occurrence of the current one or reports how far the scan got |
| `CoursePlayer.NextThenPrevious` | src/pages/CoursePlayer/index.tsx:571-645 | with distinct ids, Previous undoes Next |
| `CoursePlayer.PreviousThenNext` | src/pages/CoursePlayer/index.tsx:571-645 | with distinct ids, Next undoes Previous |
| `CoursePlayer.PreviousExistsUnlessFirst` | src/pages/CoursePlayer/index.tsx:571-609 | with distinct ids, Previous finds nothing exactly at the first lecture |
| `CoursePlayer.PreviousDisabledExact` | src/pages/CoursePlayer/index.tsx:570 | the Previous button is disabled exactly when there is no previous lecture |
| `CoursePlayer.PreviousDisabled` | src/pages/CoursePlayer/index.tsx:570 | the Previous button is disabled with no current lecture or at the outline's very first item (its contract is stated by `PreviousDisabledExact`) |
| `CoursePlayer.FirstSlot` | src/pages/CoursePlayer/index.tsx:570 | the first lecture in reading order is the first item of the first section |
| `CoursePlayer.LookupLecture` | src/pages/CoursePlayer/index.tsx:309-310 | the lookup finds, in the first section with the given id, the first item with the given id, and fails iff that section lacks it or no section has that id |
| `CoursePlayer.FirstSectionUnique` | src/pages/CoursePlayer/index.tsx:309 | the section found is the first with that id, and only that one |
| `CoursePlayer.HandleChangeLecture` | src/pages/CoursePlayer/index.tsx:288-318 | selecting a lecture makes it current and active, adds its section to the expanded list if absent, and removes nothing; a failed lookup is the crash |
| `CoursePlayer.ActivateLecture` | src/pages/CoursePlayer/index.tsx:293-306 | the recomputed outline marks active exactly the chosen item of the chosen section, expands that section, and changes nothing else |
| `CoursePlayer.ActivatedIsSelected` | src/pages/CoursePlayer/index.tsx:151-160 | the first active item of the recomputed outline is the lecture the handler selected |
| `CoursePlayer.ChangeLectureIdempotent` | src/pages/CoursePlayer/index.tsx:288-318 | selecting the same lecture twice is selecting it once |
| `CoursePlayer.ToggleSection` | src/pages/CoursePlayer/index.tsx:412-418 | toggling flips the membership of that section and keeps every other section and the lecture |
| `CoursePlayer.GetCurrentSection` | src/pages/CoursePlayer/index.tsx:339 | the first section that lists the current lecture (no earlier section lists it), and there is none iff there is no lecture or no section lists it |
| `CoursePlayer.CurrentSectionAfterChange` | src/pages/CoursePlayer/index.tsx:288-339 | after a selection, the current section is the chosen section when ids do not repeat across sections |
| `CoursePlayer.CurrentSectionOf` | src/pages/CoursePlayer/index.tsx:339 | when ids do not repeat across sections, the current section is the one holding the lecture |
| `CoursePlayer.InitialLecture` | src/pages/CoursePlayer/index.tsx:151-160 | the mount effect picks an active item, and picks none iff no item is active |
| `CoursePlayer.InitialLectureAt` | src/pages/CoursePlayer/index.tsx:151-160 | the pick is the first active item in section-then-item order |
| `CoursePlayer.InitialLectureOfCourse` | src/pages/CoursePlayer/index.tsx:99-104 | the built-in outline starts on "item-1-3" |
| `CoursePlayer.CompletedCount` | src/pages/CoursePlayer/index.tsx:276-278 | no more lectures are completed than there are lectures |
| `CoursePlayer.GetTotalAndCompleted` | src/pages/CoursePlayer/index.tsx:269-283 | the nested loops count every lecture and the completed ones |
| `CoursePlayer.CompletedAppend` | src/pages/CoursePlayer/index.tsx:273-280 | the completed count adds up over concatenation |
| `CoursePlayer.RoundPercent` | src/pages/CoursePlayer/index.tsx:365 | the percentage is completed/total rounded half up, at most 100, and undefined for an empty course |
| `CoursePlayer.CourseProgress` | src/pages/CoursePlayer/index.tsx:96-148 | the built-in outline has 20 lectures, 2 completed, so 10 percent |
| `CoursePlayer.MarkCompleted` | src/pages/CoursePlayer/index.tsx:541-549 | "Mark as completed" sets the flag of every lecture with that id; every other field of every section and item is unchanged |
| `CoursePlayer.MarkCompletedIdempotent` | src/pages/CoursePlayer/index.tsx:541-549 | marking twice is marking once |
| `CoursePlayer.ToggleCompleted` | src/pages/CoursePlayer/index.tsx:471-482 | the checkbox flips exactly the flag of that item of that section; every other field of every section and item is unchanged |
| `CoursePlayer.ToggleCompletedInvolution` | src/pages/CoursePlayer/index.tsx:471-482 | clicking the checkbox twice restores the outline |
| `CoursePlayer.DecodeSelect` | src/pages/CoursePlayer/index.tsx:664 | the section part of a decoded option value never contains the separator bar |
| `CoursePlayer.SelectRoundTrip` | src/pages/CoursePlayer/index.tsx:664-671 | splitting an option value at the separator bar gives back its section and item ids when neither contains a bar |
| `CoursePlayer.SelectValue` | src/pages/CoursePlayer/index.tsx:671 | an option value is the section id, the separator bar and the item id; `SelectRoundTrip` states that decoding inverts it |
| `CoursePlayer.OnSelect` | src/pages/CoursePlayer/index.tsx:663-666 | choosing an option selects the decoded lecture; a value without the separator bar selects nothing |
| `CoursePlayer.PickerSelects` | src/pages/CoursePlayer/index.tsx:663-671 | choosing the option of a lecture selects that lecture |
| `CoursePlayer.VideoSrc` | src/pages/CoursePlayer/index.tsx:521 | the player URL is the fixed embed URL followed by the lecture id, or nothing |
| `CourseDetail.CoursesOf` | src/pages/CourseDetail/index.tsx:246-247 | a course is in the flattened list iff some tab lists it, and a single tab contributes exactly its own courses |
| `CourseDetail.CoursesOfAppend` | src/pages/CourseDetail/index.tsx:246-247 | flattening keeps the tab order: the courses of two runs of tabs are those of the first followed by those of the second |
| `CourseDetail.FindCourse` | src/pages/CourseDetail/index.tsx:245-249 | the course found is the first listed course with the requested id, and none is found iff no listed course has it |
| `CourseDetail.FindById` | src/pages/CourseDetail/index.tsx:249 | the search returns the first course of the list with the id, and nothing iff none has it |
| `CourseDetail.LookupPrecedence` | src/pages/CourseDetail/index.tsx:246-249 | the catalogue is searched first, then the category tabs, then the featured courses |
| `CourseDetail.FillDefaults` | src/pages/CourseDetail/index.tsx:259-267 | a missing description gets the default and an existing one is kept; the rating count becomes students/10 only when it is missing and students are known; nothing else changes |
| `CourseDetail.FillDefaultsIdempotent` | src/pages/CourseDetail/index.tsx:259-267 | filling defaults twice is filling them once |
| `CourseDetail.LoadCourse` | src/pages/CourseDetail/index.tsx:245-274 | on a fresh page, a course is shown iff the lookup finds one, and then it is that course with defaults filled |
| `CourseDetail.RunLookup` | src/pages/CourseDetail/index.tsx:249-274 | the effect ends loading; a found course replaces the shown one with defaults filled; when none is found the earlier course stays |
| `CourseDetail.StaleCourseShown` | src/pages/CourseDetail/index.tsx:268-274 | after a course was shown, an id that is not found keeps showing that course rather than "Course not found" |
| `CourseDetail.FoundIgnoresHistory` | src/pages/CourseDetail/index.tsx:255-269 | a found course is shown the same whatever was shown before |
| `CourseDetail.DefaultDescription` | src/pages/CourseDetail/index.tsx:260-262 | the default sentence names the title and the formatted student count, or "1000+" when the count is missing or formats as empty (`FillDefaults` states where it is used) |
| `CourseDetail.FeaturedFound` | src/pages/CourseDetail/index.tsx:239-249 | course "2" is always found, through the featured list at the latest |
| `CourseDetail.TotalLectures` | src/pages/CourseDetail/index.tsx:334 | the total is at least the number of items of any one section |
| `CourseDetail.HeadersAddUp` | src/pages/CourseDetail/index.tsx:278-335 | when every section's stored count is its number of items, the headers add up to the total |
| `CourseDetail.CurriculumCounts` | src/pages/CourseDetail/index.tsx:278-335 | the curriculum has 4 sections and 20 lectures, and each stored count is right |
| `CourseDetail.TotalSections` | src/pages/CourseDetail/index.tsx:335 | the section count is the number of curriculum sections; `CurriculumCounts` gives 4 for the built-in one |
| `CourseDetail.OverviewSections` | src/pages/CourseDetail/index.tsx:623 | the overview shows the first two sections, or all when there are fewer |
| `CourseDetail.ShowMoreIffTruncated` | src/pages/CourseDetail/index.tsx:622-637 | "Show more sections" appears iff the overview leaves sections out |
| `CourseDetail.ShowMoreSections` | src/pages/CourseDetail/index.tsx:627 | "Show more sections" is offered for more than two sections; `ShowMoreIffTruncated` ties it to the excerpt |
| `Accordion.ItemTypeText` | src/components/CourseContent/CourseContentAccordion.tsx:64-81 | the label is "Lecture" iff the type is none of the six known ones |
| `Accordion.Capitalize` | src/components/CourseContent/CourseContentAccordion.tsx:64-81 | capitalising keeps the length and every character after the first |
| `Accordion.KnownLabelsCapitalized` | src/components/CourseContent/CourseContentAccordion.tsx:64-78 | each known type's label is the type capitalised |
| `Accordion.KnownLabelsDistinct` | src/components/CourseContent/CourseContentAccordion.tsx:64-78 | the six known types get six different labels |
| `Accordion.ItemIcon` | src/components/CourseContent/CourseContentAccordion.tsx:45-62 | the icon of each type, with the play icon for video and for anything unknown |
| `Accordion.UnknownKindPlays` | src/components/CourseContent/CourseContentAccordion.tsx:45-81 | a type labelled "Lecture" shows the play icon |
| `Accordion.ItemAccess` | src/components/CourseContent/CourseContentAccordion.tsx:131-145 | an item offers Play iff it is a preview, and is locked otherwise |
| `Accordion.PreviewTagIffPlayable` | src/components/CourseContent/CourseContentAccordion.tsx:120-145 | the Preview tag shows exactly on the items with a Play button |
| `Accordion.NormalizeKeys` | src/components/CourseContent/CourseContentAccordion.tsx:86-89 | a key list is kept; a single key becomes a one-key list iff it is non-empty and an empty list otherwise |
| `Accordion.NormalizeIdempotent` | src/components/CourseContent/CourseContentAccordion.tsx:86-89 | normalising a normalised list changes nothing, and a single key never yields "" |
| `Accordion.InitAccordion` | src/components/CourseContent/CourseContentAccordion.tsx:39 | the open panels start as the given expanded sections |
| `Accordion.OnPanelChange` | src/components/CourseContent/CourseContentAccordion.tsx:86-89 | a click sets the open panels to the normalised keys |
| `Accordion.OnExpandedChange` | src/components/CourseContent/CourseContentAccordion.tsx:41-43 | a new expanded-sections value resets the open panels |
| `Accordion.PropertyWins` | src/components/CourseContent/CourseContentAccordion.tsx:39-89 | after any clicks, a new expanded-sections value wins; otherwise the last click decides |
| `CourseList.ParseSort` | src/pages/CourseList/index.tsx:131-150 | any value other than the four named sorts is the popular sort |
| `CourseList.EffectivePrice` | src/pages/CourseList/index.tsx:116 | the price used is the discount price when it is set and non-zero, the list price otherwise |
| `CourseList.FilterCoursesIsOneFilter` | src/pages/CourseList/index.tsx:104-128 | the four filters applied in turn are one filter by their conjunction |
| `CourseList.FilteredMembers` | src/pages/CourseList/index.tsx:108-128 | a course is kept iff it is listed, matches the search, is in the price range, and meets the rating and level filters that are set |
| `CourseList.SortCourses` | src/pages/CourseList/index.tsx:131-150 | every sort is a rearrangement; price-low is non-decreasing and price-high non-increasing in effective price; rating and popular are non-increasing |
| `CourseList.SortTiesKeepOrder` | src/pages/CourseList/index.tsx:131-150 | for every sort but the shuffle, courses that tie on the sort key keep their relative order |
| `CourseList.PriceLowStable` | src/pages/CourseList/index.tsx:132-134 | the ascending price sort, a sort by the negated price, keeps courses of equal price in order |
| `CourseList.InitialState` | src/pages/CourseList/index.tsx:48-57 | the page starts on page 1 with nothing loaded |
| `CourseList.LoadCategory` | src/pages/CourseList/index.tsx:86-101 | no category or "all" loads every course; a known key loads that category; an unknown key changes nothing |
| `CourseList.UnknownCategoryKeepsList` | src/pages/CourseList/index.tsx:87-93 | an unknown category key leaves the page as it was |
| `CourseList.CategoryLabel` | src/pages/CourseList/index.tsx:60-63 | the label is the name of the first category with that key, and "All Courses" when there is none |
| `CourseList.IconOf` | src/pages/CourseList/index.tsx:66-83 | each known key has its icon; the bulb is used for "generative-ai" and for any unknown key |
| `CourseList.ApplyFilters` | src/pages/CourseList/index.tsx:104-154 | the effect lists a rearrangement of the courses that pass, holding exactly those, in the order of the selected sort (the given shuffle for newest), and goes back to page 1 |
| `CourseList.ListedTiesKeepOrder` | src/pages/CourseList/index.tsx:104-154 | for every sort but the shuffle, listed courses that tie on the sort key appear in their loaded order |
| `CourseList.RearrangedMembers` | src/pages/CourseList/index.tsx:104-129 | any rearrangement of the filtered courses holds exactly the loaded courses that pass, as often as they were loaded |
| `CourseList.ListedIsPermutedSubset` | src/pages/CourseList/index.tsx:104-154 | a passing course is listed as often as it is loaded, and a failing one not at all |
| `CourseList.HandleLevelChange` | src/pages/CourseList/index.tsx:157-165 | a level checkbox toggles that level's membership and keeps the others |
| `CourseList.LevelChangeTwice` | src/pages/CourseList/index.tsx:157-165 | toggling a level twice restores the chosen levels |
| `CourseList.HandleRatingChange` | src/pages/CourseList/index.tsx:168-170 | picking the chosen rating clears it, and picking another sets it |
| `CourseList.RatingChangeTwice` | src/pages/CourseList/index.tsx:168-170 | picking the same rating twice restores the filter when it was unset or that rating |
| `CourseList.CurrentCourses` | src/pages/CourseList/index.tsx:178-181 | the page holds the elements from (p-1)*12 up to min(p*12, n), at most 12 of them |
| `CourseList.HandlePageChange` | src/pages/CourseList/index.tsx:172-175 | changing page sets the page and nothing else |
| `CourseList.PagingKeepsList` | src/pages/CourseList/index.tsx:172-181 | the pages, put together, give back the whole list |
| `CourseList.PagesCoverList` | src/pages/CourseList/index.tsx:178-181 | the first k pages are the list up to min(k*12, n), the "showing" bound |
| `CourseList.ShowingUpTo` | src/pages/CourseList/index.tsx:357-358 | the upper end of "Showing a-b of n" is the smaller of page times twelve and n; `PagesCoverList` shows it is the length of the first pages |
| `MyLearning.Collections` | src/pages/MyLearning/index.tsx:189-202 | each sample collection's count is its number of courses, and it lists enrolled courses only |
| `MyLearning.ParseLearningSort` | src/pages/MyLearning/index.tsx:438-448 | "title-asc" and "title-desc" pick the title orders and anything else the recency order |
| `MyLearning.FilteredCourses` | src/pages/MyLearning/index.tsx:428-449 | the list is a rearrangement of the courses that pass the search and category filters, and the recent order is by non-increasing access time |
| `MyLearning.ListedCount` | src/pages/MyLearning/index.tsx:428-437 | a passing course is listed as often as it is enrolled, and a failing one not at all |
| `MyLearning.NoFilterListsAll` | src/pages/MyLearning/index.tsx:430-436 | an empty search and "all" list every enrolled course |
| `MyLearning.ThumbnailSrc` | src/pages/MyLearning/index.tsx:215-217 | the path always starts with `/`; one that did is unchanged and any other gets one prepended |
| `MyLearning.ThumbnailIdempotent` | src/pages/MyLearning/index.tsx:362-364 | fixing a fixed path changes nothing |
| `MyLearning.GridSlots` | src/pages/MyLearning/index.tsx:372-373 | the grid has max(4, n) slots: the courses in order, then empty ones |
| `MyLearning.ProgressLabel` | src/pages/MyLearning/index.tsx:248 | the badge is "Completed" iff progress is at least 100, and otherwise ends in "% complete" |
| `MyLearning.ProgressLabelReadsBack` | src/pages/MyLearning/index.tsx:248 | the number in an unfinished course's badge reads back as its progress |
| `AdminUsers.HandleDelete` | src/pages/Admin/AdminUsers.tsx:146-149 | deleting removes every user with that id and keeps every other user, as often as before and in order |
| `AdminUsers.DeleteAbsent` | src/pages/Admin/AdminUsers.tsx:146-149 | deleting an id no user has changes nothing |
| `AdminUsers.DeleteTwice` | src/pages/Admin/AdminUsers.tsx:146-149 | deleting twice is deleting once |
| `AdminUsers.FlipStatus` | src/pages/Admin/AdminUsers.tsx:153 | a locked account becomes active and any other becomes locked |
| `AdminUsers.HandleToggleLock` | src/pages/Admin/AdminUsers.tsx:152-155 | the lock button flips the status of the users with that id, and no other user or field changes |
| `AdminUsers.ToggleLockTwice` | src/pages/Admin/AdminUsers.tsx:152-155 | locking and unlocking the same id restores the list when its status is "active" or "locked" |
| `AdminUsers.StudentSort` | src/pages/Admin/AdminUsers.tsx:162-166 | the student table sorts by name, creation date, course count, or not at all |
| `AdminUsers.InstructorSort` | src/pages/Admin/AdminUsers.tsx:176-181 | the instructor table sorts by name, course count, rating, revenue, or not at all |
| `AdminUsers.FilterUsersOrdered` | src/pages/Admin/AdminUsers.tsx:159-161 | the filtered table keeps the list's order |
| `AdminUsers.FilterUsersMembers` | src/pages/Admin/AdminUsers.tsx:159-161 | a user is in the table iff the user has the table's role, the chosen status unless "all", and a name or email containing the search |
| `AdminUsers.SortUsers` | src/pages/Admin/AdminUsers.tsx:162-181 | every sort is a rearrangement; creation date, course count, rating and revenue are non-increasing, a missing number counting as 0; an unknown sort keeps the order |
| `AdminUsers.TableData` | src/pages/Admin/AdminUsers.tsx:158-184 | each table is a rearrangement of the filtered users and holds exactly the users that pass |
| `AdminUsers.TablesDisjoint` | src/pages/Admin/AdminUsers.tsx:159-173 | no account is in both the student and the instructor table |
| `AdminUsers.DefaultTables` | src/pages/Admin/AdminUsers.tsx:12-89 | the sample data shows two students and two instructors under the default filters |
| `AdminUsers.InitialTab` | src/pages/Admin/AdminUsers.tsx:143 | the first render shows the stored tab, or "student" when nothing non-empty is stored |
| `AdminUsers.HandleTabChange` | src/pages/Admin/AdminUsers.tsx:383-386 | changing tab shows the tab and stores it, leaving other stored keys alone |
| `AdminUsers.TabSurvivesReload` | src/pages/Admin/AdminUsers.tsx:143-386 | a chosen tab is the one shown after a reload |
| `AdminCourses.ComputeStatistics` | src/pages/Admin/AdminCourses.tsx:120-132 | revenue and student totals are non-negative; the published count is at most the number of courses, and equals it iff all are published |
| `AdminCourses.StatisticsOfOne` | src/pages/Admin/AdminCourses.tsx:120-132 | no courses give zero cards; one course gives its revenue, its students, and one published course iff it is published |
| `AdminCourses.StatisticsAdd` | src/pages/Admin/AdminCourses.tsx:120-132 | the cards of two runs of courses add up card by card, so each card is the sum over the courses |
| `AdminCourses.MockStatistics` | src/pages/Admin/AdminCourses.tsx:21-132 | the sample data gives revenue 35121400 cents, 3600 students and 2 published courses |
| `AdminCourses.FilterCoursesIsOneFilter` | src/pages/Admin/AdminCourses.tsx:135-154 | the search, category and status filters in turn are one filter by their conjunction |
| `AdminCourses.StatusFirstSameTable` | src/pages/Admin/AdminCourses.tsx:147-154 | applying the status filter first gives the same table |
| `AdminCourses.TableMembers` | src/pages/Admin/AdminCourses.tsx:139-154 | a course is in the table iff its title or instructor contains the search and its category and status match unless "all" |
| `AdminCourses.ParseCourseSort` | src/pages/Admin/AdminCourses.tsx:157-170 | only the four named sorts sort |
| `AdminCourses.TableData` | src/pages/Admin/AdminCourses.tsx:135-172 | the table is a rearrangement of the filtered courses; newest, rating, students and revenue are non-increasing; an unknown sort keeps the order |
| `AdminCourses.StatusTag` | src/pages/Admin/AdminCourses.tsx:175-188 | a tag for exactly the four known statuses, green for published and blue for review |
| `AdminCourses.StatusTagsDistinct` | src/pages/Admin/AdminCourses.tsx:175-188 | different known statuses get different tags |
| `AdminCourses.Actions` | src/pages/Admin/AdminCourses.tsx:255-309 | view always comes first; approve and reject appear iff the status is review; takedown iff it is published |
| `AdminCourses.ActionsExclusive` | src/pages/Admin/AdminCourses.tsx:255-309 | no row offers both approve and takedown, and other statuses can only be viewed |
| `AdminCourses.HandleViewCourse` | src/pages/Admin/AdminCourses.tsx:259-262 | the view button opens the dialog showing that course |
| `AdminCourses.HandleCancel` | src/pages/Admin/AdminCourses.tsx:431 | closing the dialog hides it and keeps the chosen course |
| `AdminCourses.ViewLastWins` | src/pages/Admin/AdminCourses.tsx:259-262 | viewing a course after another, closed in between or not, shows only the last |
| `AdminReviews.ComputeStatistics` | src/pages/Admin/AdminReviews.tsx:111-126 | the total is the number of reviews; the reported count is at most that, and equals it iff all are reported |
| `AdminReviews.StatisticsOfOne` | src/pages/Admin/AdminReviews.tsx:111-126 | no reviews give zero cards; one review counts once, and as reported iff it carries the flag |
| `AdminReviews.StatisticsAdd` | src/pages/Admin/AdminReviews.tsx:111-126 | the cards of two runs of reviews add up, so the reported card is the exact number of flagged reviews |
| `AdminReviews.MockStatistics` | src/pages/Admin/AdminReviews.tsx:24-116 | the sample data has 4 reviews, 2 of them reported |
| `AdminReviews.TableOrdered` | src/pages/Admin/AdminReviews.tsx:127-159 | the table keeps the reviews' order; there is no sort |
| `AdminReviews.TableMembers` | src/pages/Admin/AdminReviews.tsx:127-147 | a review is in the table iff it matches the search in content, user or course name, and the status and parsed rating unless "all" |
| `AdminReviews.RatingOptionExact` | src/pages/Admin/AdminReviews.tsx:145-147 | a star option keeps exactly the reviews with that many stars |
| `AdminReviews.StatusTag` | src/pages/Admin/AdminReviews.tsx:161-172 | a tag for exactly the three known statuses, the hidden tag for "hidden" |
| `AdminReviews.VisibilityAction` | src/pages/Admin/AdminReviews.tsx:245-249 | the button offers to show iff the review is hidden |
| `AdminReviews.ShowIffHiddenTag` | src/pages/Admin/AdminReviews.tsx:161-249 | the show button appears exactly on reviews tagged hidden, and the danger style exactly on the hide button |
| `AdminReviews.HandleViewReview` | src/pages/Admin/AdminReviews.tsx:174-177 | viewing a review opens the dialog on it |
| `AdminReviews.ViewLastWins` | src/pages/Admin/AdminReviews.tsx:174-177 | viewing a second review replaces the first |
| `Text.Trim` | src/components/common/molecules/SearchBar.tsx:24-25 | `trim()` removes the blanks at both ends and nothing else, and is empty iff the text is all blanks |
| `Text.TrimIdempotent` | src/components/common/molecules/SearchBar.tsx:24-25 | trimming twice is trimming once |
| `Text.SplitJoin` | src/pages/CoursePlayer/index.tsx:664 | `split` undoes joining with a separator that no part contains |
| `Text.ParseIntToString` | src/pages/Admin/AdminReviews.tsx:145-147 | `parseInt` of a printed integer gives it back |
| `Text.ParseInt` | src/pages/Admin/AdminReviews.tsx:146 | decimal `parseInt`: blanks, an optional sign, then the longest run of digits, with no digit read as `NaN` (`None`); `ParseIntToString` shows it reads back every printed integer |
| `Text.IncludesFold` | src/pages/CourseList/index.tsx:110 | the case-insensitive search of the list pages: the folded needle occurs in the folded text |
| `Text.Split` | src/pages/CoursePlayer/index.tsx:664 | splitting gives at least one part and no part holds the separator; `SplitJoin` shows it undoes joining |
| `Text.ParseIntLeadingDigits` | src/pages/Admin/AdminReviews.tsx:146 | `parseInt` reads the leading digits and stops at the first other character |
| `Uri.EncodeUriComponent` | src/contexts/AuthContext.tsx:130 | the encoding keeps only unreserved characters, `%` and hex digits, and never shortens |
| `Uri.EncodeIdentity` | src/pages/Profile/index.tsx:109 | a text encodes to itself iff all its characters are unreserved |
| `Uri.Utf8RoundTrip` | src/contexts/AuthContext.tsx:130 | the UTF-8 bytes of a character decode back to it |
| `Seqs.SortDescStable` | src/pages/CourseList/index.tsx:131-150 | the sort keeps the relative order of elements with equal keys, as `Array.prototype.sort` does |
| `Seqs.PagesTile` | src/pages/CourseList/index.tsx:178-181 | enough pages, put together, are the whole list |
| `Seqs.SortDesc` | src/pages/CourseList/index.tsx:131-150 | the comparator sort by a key is ordered largest first and is a rearrangement of its input |
| `Seqs.Page` | src/pages/CourseList/index.tsx:178-181 | a page holds at most the page size, is empty past the end, and is the run of the list starting at (page-1) times the size |
| `Seqs.Find` | src/pages/CourseDetail/index.tsx:249 | `find` returns the first element satisfying the test, and nothing iff none does |
| `Seqs.ToggleTwice` | src/pages/CoursePlayer/index.tsx:412-418 | adding or removing an element twice restores membership |
| `Seqs.AddIfAbsentKeepsDistinct` | src/pages/CoursePlayer/index.tsx:316-318 | appending only when absent keeps a list free of duplicates |

## Left out

- Rendering, styling, hover flags and the component library are left out. So are the charts, the notification lists and the pages with no logic.
- Async behaviour is left out. The 500 ms delays, promise interleaving and racing handlers are not modelled; each handler is one atomic transition.
- Browser storage holds JSON. The model stores the `User` value itself, so parse and serialise errors do not arise.
- `catch` branches are left out. The model's operations cannot throw, so the "An error occurred" messages are never produced.
- Navigation is a returned route string. `window.scrollTo` is not modelled.
- src/data/courses is not part of this model. The catalogue (`aiCategories`) is a parameter of `CourseList` and `CourseDetail`.
- The course lookup of the lecture player is left out. It is the same precedence search as the course page's, plus a stored-course shortcut in storage.
- The detail page's default description depends on `toLocaleString`. The number format is a parameter.
- Floating point is left out. Prices are integer cents, ratings integer tenths, revenue integer cents. The average-rating card and discount percentages are not modelled.
- The review page's date-range filter and its "last 30 days" card are left out, because they depend on the clock.
- The review page's hide, show and delete buttons have no handlers in the source. Only which button is offered is modelled.
- The admin course page's approve, reject and takedown buttons have no handlers either. Only which buttons are offered is modelled.
- CourseList.SortCourses: a course with no rating count sorts as popularity 0. In the source `rating * undefined` is `NaN`, which the sort treats as "equal", and that makes the comparator inconsistent.
- CourseList.SortCourses: the newest sort uses `Math.random()`. The shuffled order is an argument, required to be a rearrangement.
- MyLearning.FilteredCourses: the title sorts use `localeCompare`. The sorted list is an argument, required to be a rearrangement.
- AdminUsers.SortUsers: the name sort uses `localeCompare`. The sorted list is an argument, required to be a rearrangement.
- CourseList.HandlePageChange: the pager only ever passes a page of at least 1, and the model requires that.
- CoursePlayer.HandleChangeLecture: when the section or item is not found, the source throws on `undefined`. The model returns `None` for that case.
- CoursePlayer.MarkCompleted: the source computes the updated outline and then discards it. The model states what it computes.
- CoursePlayer.ToggleCompleted: as with MarkCompleted, the source discards the result, and the model states what it computes.
- CoursePlayer.ActivateLecture: the source discards this outline too, and the model states what it computes.
- Text.ParseInt: reads decimal text only. `parseInt` without a radix reads a `0x` or `0X` prefix as hexadecimal, which the model reads as 0 followed by other text. The page only parses the rating filter's values "1" to "5".
- CourseDetail.LoadCourse: the source writes the filled description and rating count back into the catalogue's own course object, so other pages that share that object see them later. The model's values are immutable and the catalogue is not changed.
- CoursePlayer.RoundPercent: `Math.round` on a float is modelled as exact rounding half up of the rational completed/total.
- `toLowerCase` is ASCII case folding; characters outside ASCII are left as they are.
