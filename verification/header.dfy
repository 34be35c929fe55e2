/** The site header (src/components/common/organisms/Header.tsx): which
    controls the signed-in role unlocks, and the language dropdown. */
module Header {
  import opened Wrappers
  import opened Auth

  datatype Language = Language(code: string, name: string, flag: string)

  /** `languages`: English first (the initial choice), then Vietnamese. */
  const Languages: seq<Language> := [
    Language("en", "English", "\U{1F1FA}\U{1F1F8}"),
    Language("vi", "Ti\U{1EBF}ng Vi\U{1EC7}t", "\U{1F1FB}\U{1F1F3}")
  ]

  datatype HeaderState = HeaderState(isSearchFocused: bool, isLangDropdownOpen: bool, currentLang: Language)

  function InitialHeader(): (h: HeaderState)
    ensures !h.isSearchFocused && !h.isLangDropdownOpen && h.currentLang.code == "en"
  {
    HeaderState(false, false, Languages[0])
  }

  /** `toggleLangDropdown`: flips the dropdown and nothing else. */
  function ToggleLangDropdown(h: HeaderState): (t: HeaderState)
    ensures t.isLangDropdownOpen == !h.isLangDropdownOpen
    ensures t.currentLang == h.currentLang && t.isSearchFocused == h.isSearchFocused
  {
    h.(isLangDropdownOpen := !h.isLangDropdownOpen)
  }

  /** `changeLang(lang)`: selects the language and always closes the dropdown. */
  function ChangeLang(h: HeaderState, lang: Language): (t: HeaderState)
    ensures t.currentLang == lang && !t.isLangDropdownOpen
    ensures t.isSearchFocused == h.isSearchFocused
  {
    h.(currentLang := lang, isLangDropdownOpen := false)
  }

  /** The mousedown listener installed while the dropdown is open: a click
      outside the dropdown closes it; a click inside changes nothing. */
  function MouseDown(h: HeaderState, insideDropdown: bool): (t: HeaderState)
    ensures t.currentLang == h.currentLang && t.isSearchFocused == h.isSearchFocused
    ensures t.isLangDropdownOpen <==> h.isLangDropdownOpen && insideDropdown
  {
    if h.isLangDropdownOpen && !insideDropdown then h.(isLangDropdownOpen := false) else h
  }

  /** The search bar's focus and blur callbacks raise and lower the header's flag. */
  function SearchFocusChanged(h: HeaderState, focused: bool): (t: HeaderState)
    ensures t.isSearchFocused == focused
    ensures t.isLangDropdownOpen == h.isLangDropdownOpen && t.currentLang == h.currentLang
  {
    h.(isSearchFocused := focused)
  }

  /** The instructor link appears for a signed-in instructor only. */
  predicate ShowsInstructorLink(user: Option<User>) {
    user.Some? && user.value.role == Instructor
  }

  /** The cart appears for visitors and for every role but the
      administrator. */
  predicate ShowsCart(user: Option<User>) {
    user.None? || user.value.role != Admin
  }

  /** The notifications menu appears for any signed-in user. */
  predicate ShowsNotifications(user: Option<User>) {
    user.Some?
  }

  /** Visitors see the cart and nothing else; an instructor sees all three;
      an administrator sees notifications but no cart; any other role sees
      cart and notifications. */
  lemma HeaderControlsByRole(user: Option<User>)
    ensures user.None? ==> ShowsCart(user) && !ShowsInstructorLink(user) && !ShowsNotifications(user)
    ensures ShowsInstructorLink(user) ==> ShowsCart(user) && ShowsNotifications(user)
    ensures user.Some? && user.value.role == Admin ==> !ShowsCart(user) && ShowsNotifications(user)
    ensures user.Some? && user.value.role != Admin && user.value.role != Instructor
            ==> ShowsCart(user) && ShowsNotifications(user) && !ShowsInstructorLink(user)
  {
  }

  /** Toggling twice restores the dropdown; choosing a language after
      opening it leaves it closed. */
  lemma DropdownToggles(h: HeaderState, lang: Language)
    ensures ToggleLangDropdown(ToggleLangDropdown(h)) == h
    ensures !ChangeLang(ToggleLangDropdown(h), lang).isLangDropdownOpen
  {
  }
}
