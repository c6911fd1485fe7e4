/**
 * The `system_skills` tool: theme changes (the rules of the theme tool),
 * the session purge, the identity shuffle and fireworks. Browser storage is
 * modelled as string maps; cookies, IndexedDB, the reload timer and the DOM
 * click are not modelled beyond whether they are attempted.
 */
module SystemSkills {
  import opened Common
  import opened Strings
  import opened AppState
  import ThemeSkills
  import EffectSkills
  import opened JsNumbers

  datatype Action = PurgeSession | ShuffleIdentity | TriggerFireworks | ChangeThemeAction | ListThemesAction
    | Unknown(name: string)

  /**
   * The host: its accents and `setAccent`, an optional fireworks system,
   * whether a browser window exists, and whether the aura button is on the page.
   */
  datatype Host = Host(
    hasSetAccent: bool,
    accents: Option<seq<Accent>>,
    hasFireworks: bool,
    hasWindow: bool,
    hasAuraButton: bool)

  /** Both web storages. */
  datatype Storage = Storage(local: map<string, string>, session: map<string, string>)

  /** Everything a call may do besides replying. */
  datatype Outcome = Outcome(
    storage: Storage,
    accent: Option<Accent>,
    fireworks: Option<int>,
    clickedAura: bool,
    text: string)

  const Fallback := "System action completed."
  const PurgeMarker := "puter"

  /** Removes every key that contains "puter". */
  function PurgeKeys(m: map<string, string>): (r: map<string, string>)
    ensures forall k :: k in r <==> k in m && !Contains(k, PurgeMarker)
    ensures forall k :: k in r ==> r[k] == m[k]
  {
    map k | k in m && !Contains(k, PurgeMarker) :: m[k]
  }

  /** Purging twice removes nothing more than purging once. */
  lemma PurgeIdempotent(m: map<string, string>)
    ensures PurgeKeys(PurgeKeys(m)) == PurgeKeys(m)
  {
  }

  function Purge(st: Storage): (r: Storage)
    ensures r == Storage(PurgeKeys(st.local), PurgeKeys(st.session))
  {
    Storage(PurgeKeys(st.local), PurgeKeys(st.session))
  }

  function Nothing(st: Storage, text: string): Outcome {
    Outcome(st, None, None, false, text)
  }

  function Handle(host: Host, st: Storage, action: Action, data: Option<string>): (r: Outcome)
    ensures action == ListThemesAction ==> r == Nothing(st, ThemeSkills.ListThemes(host.accents))
    ensures action == ChangeThemeAction && host.hasSetAccent && host.accents.Some? && Truthy(data) ==>
      var c := ThemeSkills.ChangeTheme(host.accents.value, data.value);
      r == Outcome(st, c.accent, None, false, c.text)
    ensures action == PurgeSession && host.hasWindow ==>
      r == Nothing(Purge(st), "SYSTEM PURGE INITIATED. REBOOTING...")
    ensures action == ShuffleIdentity && host.hasWindow ==>
      r == Outcome(st, None, None, host.hasAuraButton, "Identity shuffled. Aura triggered.")
    ensures action == TriggerFireworks && host.hasFireworks && Truthy(data) ==>
      var n := Intensity(data.value);
      r == Outcome(st, None, Some(n), false, "Fireworks triggered with intensity: " + NatToString(n))
    ensures r.fireworks.Some? ==> 1 <= r.fireworks.value <= 50
    ensures r.fireworks.Some? ==> action == TriggerFireworks && host.hasFireworks && Truthy(data)
    ensures r.storage != st ==> action == PurgeSession && host.hasWindow
    ensures r.clickedAura ==> action == ShuffleIdentity && host.hasWindow && host.hasAuraButton
    ensures
      || (action == ChangeThemeAction && !(host.hasSetAccent && host.accents.Some? && Truthy(data)))
      || ((action == PurgeSession || action == ShuffleIdentity) && !host.hasWindow)
      || (action == TriggerFireworks && !(host.hasFireworks && Truthy(data)))
      || action.Unknown?
      ==> r == Nothing(st, Fallback)
  {
    match action
    case ListThemesAction => Nothing(st, ThemeSkills.ListThemes(host.accents))
    case ChangeThemeAction =>
      if host.hasSetAccent && host.accents.Some? && Truthy(data) then
        var c := ThemeSkills.ChangeTheme(host.accents.value, data.value);
        Outcome(st, c.accent, None, false, c.text)
      else Nothing(st, Fallback)
    case PurgeSession =>
      if host.hasWindow then Nothing(Purge(st), "SYSTEM PURGE INITIATED. REBOOTING...") else Nothing(st, Fallback)
    case ShuffleIdentity =>
      if host.hasWindow then Outcome(st, None, None, host.hasAuraButton, "Identity shuffled. Aura triggered.")
      else Nothing(st, Fallback)
    case TriggerFireworks =>
      if host.hasFireworks && Truthy(data) then
        var n := Intensity(data.value);
        Outcome(st, None, Some(n), false, "Fireworks triggered with intensity: " + NatToString(n))
      else Nothing(st, Fallback)
    case Unknown(_) => Nothing(st, Fallback)
  }

  /** The theme actions of this tool follow the theme tool's rules whenever the theme tool acts. */
  lemma ThemeActionsAgree(host: Host, st: Storage, data: Option<string>)
    ensures var t := ThemeSkills.Handle(ThemeSkills.Host(host.hasSetAccent, host.accents), ThemeSkills.ListThemesAction, data);
      Handle(host, st, ListThemesAction, data) == Nothing(st, t.text)
    ensures var t := ThemeSkills.Handle(ThemeSkills.Host(host.hasSetAccent, host.accents), ThemeSkills.ChangeThemeAction, data);
      var r := Handle(host, st, ChangeThemeAction, data);
      r.accent == t.accent && r.storage == st
      && (r.text == t.text <==> host.hasSetAccent && host.accents.Some? && Truthy(data))
  {
  }

  /** Given data, this tool fires the same intensity as the effects tool; without data it fires nothing. */
  lemma FireworksAgree(host: Host, st: Storage, data: Option<string>)
    requires host.hasFireworks
    ensures var e := EffectSkills.Handle(EffectSkills.Host(true, host.hasWindow, host.hasAuraButton), EffectSkills.TriggerFireworks, data);
      var r := Handle(host, st, TriggerFireworks, data);
      (Truthy(data) ==> r.fireworks == e.fireworks && r.text == e.text)
      && (!Truthy(data) ==> r.fireworks.None? && e.fireworks == Some(10))
  {
    if !Truthy(data) {
      EffectSkills.AbsentDataGivesTen(data);
    }
  }
}
