/**
 * The `navigation_skills` tool: resolves the tab and section to show, with
 * the corrections for sections that live on the about tab, and asks the host
 * to open the tab. Scrolling to the section is returned as the element id.
 */
module NavigationSkills {
  import opened Common
  import opened Strings

  datatype Action = GoTo | GoHome | NoAction

  datatype Args = Args(target: string, section: Option<string>, action: Action)

  /** Sections that belong to the about tab. */
  const AboutSections: seq<string> := ["connect", "comment", "stats", "github"]

  /** The tab and section after resolution. */
  datatype Place = Place(target: string, section: Option<string>)

  function LowerOpt(o: Option<string>): (r: Option<string>)
    ensures r.Some? <==> o.Some?
    ensures o.Some? ==> r.value == ToLower(o.value)
  {
    match o
    case None => None
    case Some(s) => Some(ToLower(s))
  }

  /**
   * `go_home` means the about tab; the section is lower-cased; an about
   * section forces the about tab, and "stats" is shown as "github".
   */
  function Resolve(args: Args): (r: Place)
    ensures r.section.Some? <==> args.section.Some?
    ensures var sec := LowerOpt(args.section);
      Truthy(sec) && sec.value in AboutSections ==> r.target == "about"
    ensures var sec := LowerOpt(args.section);
      !(Truthy(sec) && sec.value in AboutSections) ==> r.target == (if args.action == GoHome then "about" else args.target)
    ensures var sec := LowerOpt(args.section);
      r.section == (if sec == Some("stats") then Some("github") else sec)
    ensures r.section != Some("stats")
  {
    var target := if args.action == GoHome then "about" else args.target;
    var sec := LowerOpt(args.section);
    if Truthy(sec) && sec.value in AboutSections then
      Place("about", if sec.value == "stats" then Some("github") else sec)
    else Place(target, sec)
  }

  /** Resolving an already resolved place changes nothing. */
  lemma ResolveIsStable(args: Args)
    ensures var p := Resolve(args);
      Resolve(Args(p.target, p.section, GoTo)) == p
  {
    var p := Resolve(args);
    if p.section.Some? {
      var sec := LowerOpt(args.section).value;
      ToLowerIdempotent(args.section.value);
      assert ToLower(sec) == sec;
      if sec == "stats" {
        assert ToLower("github") == "github";
        assert LowerOpt(p.section) == Some("github");
      } else {
        assert LowerOpt(p.section) == Some(sec);
      }
    }
  }

  /** The host call: the tab opened and the element scrolled to, if any. */
  datatype Outcome = Outcome(tab: Option<string>, scrollTo: Option<string>, text: string)

  function Handle(hasSetTab: bool, args: Args): (r: Outcome)
    ensures !hasSetTab ==> r == Outcome(None, None, "Navigation failed: setTab not available.")
    ensures hasSetTab ==>
      var p := Resolve(args);
      && r.tab == Some(p.target)
      && (r.scrollTo.Some? <==> Truthy(p.section))
      && (r.scrollTo.Some? ==> r.scrollTo.value == "section-" + p.section.value)
      && r.text == "Navigated to " + p.target + (if Truthy(p.section) then " (" + p.section.value + ")" else "") + "."
  {
    if !hasSetTab then Outcome(None, None, "Navigation failed: setTab not available.")
    else
      var p := Resolve(args);
      var scroll := if Truthy(p.section) then Some("section-" + p.section.value) else None;
      Outcome(Some(p.target), scroll,
              "Navigated to " + p.target + (if Truthy(p.section) then " (" + p.section.value + ")" else "") + ".")
  }
}
