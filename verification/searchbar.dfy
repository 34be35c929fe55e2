/** The search box (src/components/common/molecules/SearchBar.tsx). Its
    callbacks are optional properties; a call is modelled as the value it
    would receive, so a handler returns the calls it makes. */
module SearchBar {
  import opened Wrappers
  import Text

  /** Which of the optional callbacks the parent passed. */
  datatype Callbacks = Callbacks(hasOnSearch: bool, hasOnFocus: bool, hasOnBlur: bool)

  datatype SearchBarState = SearchBarState(query: string, isFocused: bool)

  function InitialSearchBar(): SearchBarState {
    SearchBarState("", false)
  }

  /** Typing replaces the query. */
  function SetQuery(s: SearchBarState, q: string): (t: SearchBarState)
    ensures t.query == q && t.isFocused == s.isFocused
  {
    s.(query := q)
  }

  /** `handleSubmit`: the trimmed query goes to `onSearch` when there is
      such a callback and the trimmed query is not empty. */
  function Submit(cb: Callbacks, s: SearchBarState): (searched: Option<string>)
    ensures searched.Some? <==> cb.hasOnSearch && exists i :: 0 <= i < |s.query| && !Text.IsWhitespace(s.query[i])
    ensures searched.Some? ==> searched.value == Text.Trim(s.query) && searched.value != ""
  {
    var q := Text.Trim(s.query);
    if cb.hasOnSearch && q != "" then Some(q) else None
  }

  /** What was searched has no surrounding white space, and submitting it
      again searches for the same text. */
  lemma SubmitStable(cb: Callbacks, s: SearchBarState)
    requires Submit(cb, s).Some?
    ensures var q := Submit(cb, s).value;
            !Text.IsWhitespace(q[0]) && !Text.IsWhitespace(q[|q| - 1])
            && Submit(cb, SetQuery(s, q)) == Some(q)
  {
    var q := Text.Trim(s.query);
    assert Submit(cb, s).value == q && q != "";
    assert !Text.IsWhitespace(q[0]) && !Text.IsWhitespace(q[|q| - 1]);
    Text.TrimIdempotent(s.query);
    assert Text.Trim(SetQuery(s, q).query) == q;
  }

  /** `handleFocus`: sets the flag and reports whether `onFocus` was called. */
  function Focus(cb: Callbacks, s: SearchBarState): (r: (SearchBarState, bool))
    ensures r.0.isFocused && r.0.query == s.query
    ensures r.1 == cb.hasOnFocus
  {
    (s.(isFocused := true), cb.hasOnFocus)
  }

  /** `handleBlur`: clears the flag and reports whether `onBlur` was called. */
  function Blur(cb: Callbacks, s: SearchBarState): (r: (SearchBarState, bool))
    ensures !r.0.isFocused && r.0.query == s.query
    ensures r.1 == cb.hasOnBlur
  {
    (s.(isFocused := false), cb.hasOnBlur)
  }
}
