/**
 * The `theme_skills` tool and the accent rules it shares with the system
 * tool: a HEX colour (checked with `/^#?([0-9A-F]{3}){1,2}$/i`) becomes a
 * custom accent, otherwise the lower-cased name is looked up among the
 * accents. The host's `setAccent` call is returned as the accent to set.
 */
module ThemeSkills {
  import opened Common
  import opened Strings
  import opened Seqs
  import opened AppState

  predicate IsHexDigit(c: char) {
    '0' <= c <= '9' || 'a' <= c <= 'f' || 'A' <= c <= 'F'
  }

  /** Three or six hex digits. */
  predicate HexBody(s: string) {
    (|s| == 3 || |s| == 6) && forall i :: 0 <= i < |s| ==> IsHexDigit(s[i])
  }

  /** The regular expression's test: an optional '#' followed by three or six hex digits, in either case. */
  predicate IsHex(data: string) {
    var body := if |data| > 0 && data[0] == '#' then data[1..] else data;
    HexBody(body)
  }

  /** The two shapes the pattern admits, stated separately. */
  lemma IsHexShapes(data: string)
    ensures IsHex(data) <==> HexBody(data) || (|data| > 0 && data[0] == '#' && HexBody(data[1..]))
  {
  }

  /** `data.startsWith('#') ? data : '#' + data`. */
  function NormalizeHex(data: string): (r: string)
    ensures |r| > 0 && r[0] == '#'
    ensures IsHex(data) ==> HexBody(r[1..]) && '#' !in r[1..]
    ensures IsHex(data) ==> IsHex(r)
  {
    if "#" <= data then data else "#" + data
  }

  /** Normalising a normalised HEX colour changes nothing. */
  lemma NormalizeIdempotent(data: string)
    requires IsHex(data)
    ensures NormalizeHex(NormalizeHex(data)) == NormalizeHex(data)
  {
  }

  function AccentNames(accents: seq<Accent>): (r: seq<string>)
    ensures |r| == |accents| && forall i :: 0 <= i < |r| ==> r[i] == accents[i].name
  {
    seq(|accents|, i requires 0 <= i < |accents| => accents[i].name)
  }

  /** The first accent whose name equals `name` exactly. */
  function FindAccent(accents: seq<Accent>, name: string): (r: Option<Accent>)
    ensures r.Some? ==> r.value in accents && r.value.name == name
    ensures r.Some? ==> exists i :: 0 <= i < |accents| && r.value == accents[i] && forall j :: 0 <= j < i ==> accents[j].name != name
    ensures r.None? <==> forall i :: 0 <= i < |accents| ==> accents[i].name != name
  {
    match FindIndex(accents, (a: Accent) => a.name == name)
    case None => None
    case Some(i) => Some(accents[i])
  }

  /** The outcome of a theme change: the accent handed to `setAccent`, if any, and the reply. */
  datatype ThemeChange = ThemeChange(accent: Option<Accent>, text: string)

  /** `change_theme` with its prerequisites met. */
  function ChangeTheme(accents: seq<Accent>, data: string): (r: ThemeChange)
    ensures IsHex(data) ==>
      && r.accent == Some(Accent("custom", NormalizeHex(data)))
      && r.text == "System accent updated to custom hex: " + ToUpper(NormalizeHex(data))
    ensures !IsHex(data) && FindAccent(accents, ToLower(data)).Some? ==>
      && r.accent == FindAccent(accents, ToLower(data))
      && r.text == "System accent updated to: " + ToUpper(r.accent.value.name)
    ensures !IsHex(data) && FindAccent(accents, ToLower(data)).None? ==>
      && r.accent.None?
      && r.text == "Invalid theme \"" + data + "\". Choose from: " + Join(AccentNames(accents), ", ") + " or provide a HEX code."
    ensures r.accent.Some? ==> r.accent.value.name == "custom" || r.accent.value in accents
  {
    if IsHex(data) then
      var hex := NormalizeHex(data);
      ThemeChange(Some(Accent("custom", hex)), "System accent updated to custom hex: " + ToUpper(hex))
    else
      match FindAccent(accents, ToLower(data))
      case Some(found) => ThemeChange(Some(found), "System accent updated to: " + ToUpper(found.name))
      case None =>
        ThemeChange(None, "Invalid theme \"" + data + "\". Choose from: " + Join(AccentNames(accents), ", ")
                          + " or provide a HEX code.")
  }

  /** A HEX-shaped name never reaches the name lookup, even when an accent has that name. */
  lemma HexBeatsNames(accents: seq<Accent>, data: string)
    requires IsHex(data)
    ensures ChangeTheme(accents, data).accent.value.name == "custom"
  {
  }

  /** `list_themes`: the accent names in order, when the host has accents. */
  function ListThemes(accents: Option<seq<Accent>>): (r: string)
    ensures accents.None? ==> r == "Theme system not available."
    ensures accents.Some? ==> r == "Available Themes: " + Join(AccentNames(accents.value), ", ")
  {
    match accents
    case None => "Theme system not available."
    case Some(a) => "Available Themes: " + Join(AccentNames(a), ", ")
  }

  datatype Action = ChangeThemeAction | ListThemesAction | Unknown(name: string)

  /** What the host offers the handler. */
  datatype Host = Host(hasSetAccent: bool, accents: Option<seq<Accent>>)

  /** The handler; `r.accent` is the accent passed to `setAccent`, if it was called. */
  function Handle(host: Host, action: Action, data: Option<string>): (r: ThemeChange)
    ensures action == ListThemesAction ==> r == ThemeChange(None, ListThemes(host.accents))
    ensures action == ChangeThemeAction && host.hasSetAccent && host.accents.Some? && Truthy(data) ==>
      r == ChangeTheme(host.accents.value, data.value)
    ensures !(action == ListThemesAction) && !(action == ChangeThemeAction && host.hasSetAccent && host.accents.Some? && Truthy(data)) ==>
      r == ThemeChange(None, "Theme action completed.")
  {
    if action == ListThemesAction then ThemeChange(None, ListThemes(host.accents))
    else if action == ChangeThemeAction && host.hasSetAccent && host.accents.Some? && Truthy(data) then
      ChangeTheme(host.accents.value, data.value)
    else ThemeChange(None, "Theme action completed.")
  }
}
