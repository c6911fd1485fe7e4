/**
 * The `github_skills` tool: switches the trending listing between
 * repositories and developers, filters it by language, or reloads it. Every
 * call first asks the host to open the GitHub tab.
 */
module GithubSkills {
  import opened Common
  import opened Strings
  import opened GithubState

  datatype Action = SetModeAction | SetLangAction | Refresh | Unknown(name: string)

  /** `data?.toLowerCase()`. */
  function LowerData(data: Option<string>): (r: Option<string>)
    ensures r.Some? <==> data.Some?
    ensures data.Some? ==> r.value == ToLower(data.value)
  {
    match data
    case None => None
    case Some(d) => Some(ToLower(d))
  }

  const InvalidMode := "Invalid mode. Use \"repositories\" or \"developers\"."

  function Handle(hasSetTab: bool, s: State, action: Action, data: Option<string>): (r: Reply<State>)
    ensures r.tab == (if hasSetTab then Some("github") else None)
    ensures action == SetModeAction && data.Some? && ModeNamed(ToLower(data.value)).Some? ==>
      && r.state == SetMode(s, ToLower(data.value))
      && r.state.mode == ModeNamed(ToLower(data.value)).value
      && r.text == "GitHub trending mode switched to: " + ToLower(data.value) + "."
    ensures action == SetModeAction && !(data.Some? && ModeNamed(ToLower(data.value)).Some?) ==>
      r.state == s && r.text == InvalidMode
    ensures action == SetLangAction ==>
      && r.state == SetLanguage(s, if Truthy(LowerData(data)) then ToLower(data.value) else "all")
      && r.text == "GitHub trending language filtered to: " + Show(data) + "."
    ensures action == Refresh ==>
      && r.state == s.(refreshSignal := s.refreshSignal + 1)
      && r.text == "Reloading GitHub trends..."
    ensures action.Unknown? ==> r.state == s && r.text == "Action ignored."
  {
    var tab := if hasSetTab then Some("github") else None;
    match action
    case SetModeAction =>
      var mode := LowerData(data);
      if mode == Some("repositories") || mode == Some("developers") then
        Reply(SetMode(s, mode.value), "GitHub trending mode switched to: " + mode.value + ".", tab)
      else Reply(s, InvalidMode, tab)
    case SetLangAction =>
      Reply(SetLanguage(s, OrElse(LowerData(data), "all")), "GitHub trending language filtered to: " + Show(data) + ".", tab)
    case Refresh => Reply(SetLanguage(s, s.selectedLang), "Reloading GitHub trends...", tab)
    case Unknown(_) => Reply(s, "Action ignored.", tab)
  }

  /** The mode switch ignores case: "Developers" and "DEVELOPERS" both select developers. */
  lemma ModeIgnoresCase(hasSetTab: bool, s: State, data: string)
    requires ToLower(data) == "developers"
    ensures Handle(hasSetTab, s, SetModeAction, Some(data)).state.mode == Developers
    ensures Handle(hasSetTab, s, SetModeAction, Some(data)).state.refreshSignal == s.refreshSignal + 1
  {
  }

  /** Without a language the filter goes back to "all"; the reply still names the missing value. */
  lemma MissingLanguageMeansAll(hasSetTab: bool, s: State)
    ensures Handle(hasSetTab, s, SetLangAction, None).state.selectedLang == "all"
    ensures Handle(hasSetTab, s, SetLangAction, None).text == "GitHub trending language filtered to: undefined."
  {
  }

  /** A refresh keeps mode and language and only moves the signal on. */
  lemma RefreshKeepsFilters(hasSetTab: bool, s: State)
    ensures var t := Handle(hasSetTab, s, Refresh, None).state;
      t.mode == s.mode && t.selectedLang == s.selectedLang && t.refreshSignal > s.refreshSignal
  {
  }
}
