/**
 * The `wisdom_skills` tool: carousel navigation and card styling on the
 * wisdom state. Every call first asks the host to open the wisdom tab.
 */
module WisdomSkills {
  import opened Common
  import opened WisdomState

  datatype Action = NextQuote | PrevQuote | SetStyleAction | SetFontAction | SetAlignAction | ToggleGrayscaleAction
    | Unknown(name: string)

  datatype Args = Args(action: Action, data: Option<string>)

  /** The value `toggle_grayscale` passes: `data === 'true'`. */
  predicate GrayscaleWanted(data: Option<string>) {
    data == Some("true")
  }

  function Handle(hasSetTab: bool, s: State, args: Args): (r: Reply<State>)
    ensures r.tab == (if hasSetTab then Some("wisdom") else None)
    ensures args.action == NextQuote ==> r.state == Next(s) && r.text == "Next quote triggered."
    ensures args.action == PrevQuote ==> r.state == Prev(s) && r.text == "Previous quote triggered."
    ensures args.action == SetStyleAction ==>
      && r.state == (if Truthy(args.data) then SetStyle(s, args.data.value) else s)
      && r.text == "Style set to " + Show(args.data) + "."
    ensures args.action == SetFontAction ==>
      && r.state == (if Truthy(args.data) then s.(font := args.data.value) else s)
      && r.text == "Font set to " + Show(args.data) + "."
    ensures args.action == SetAlignAction ==>
      && r.state == (if Truthy(args.data) then s.(align := args.data.value) else s)
      && r.text == "Alignment set to " + Show(args.data) + "."
    ensures args.action == ToggleGrayscaleAction ==>
      && r.state == s.(grayscale := GrayscaleWanted(args.data))
      && r.text == "Grayscale mode " + (if GrayscaleWanted(args.data) then "enabled" else "disabled") + "."
    ensures args.action.Unknown? ==> r.state == s && r.text == "Action ignored."
  {
    var tab := if hasSetTab then Some("wisdom") else None;
    match args.action
    case NextQuote => Reply(Next(s), "Next quote triggered.", tab)
    case PrevQuote => Reply(Prev(s), "Previous quote triggered.", tab)
    case SetStyleAction =>
      Reply(if Truthy(args.data) then SetStyle(s, args.data.value) else s, "Style set to " + Show(args.data) + ".", tab)
    case SetFontAction =>
      Reply(if Truthy(args.data) then SetFont(s, args.data.value) else s, "Font set to " + Show(args.data) + ".", tab)
    case SetAlignAction =>
      Reply(if Truthy(args.data) then SetAlign(s, args.data.value) else s, "Alignment set to " + Show(args.data) + ".", tab)
    case ToggleGrayscaleAction =>
      var on := GrayscaleWanted(args.data);
      Reply(ToggleGrayscale(s, Some(on)), "Grayscale mode " + (if on then "enabled" else "disabled") + ".", tab)
    case Unknown(_) => Reply(s, "Action ignored.", tab)
  }

  /**
   * `toggle_grayscale` always sets the mode and never flips it: repeating the
   * call gives the same state as making it once.
   */
  lemma ToggleCallIdempotent(hasSetTab: bool, s: State, data: Option<string>)
    ensures var args := Args(ToggleGrayscaleAction, data);
      Handle(hasSetTab, Handle(hasSetTab, s, args).state, args).state == Handle(hasSetTab, s, args).state
  {
  }

  /** A `next` call followed by a `prev` call returns the carousel to the quote it showed. */
  lemma NextThenPrevCall(hasSetTab: bool, s: State)
    requires InRange(s)
    ensures var t := Handle(hasSetTab, s, Args(NextQuote, None)).state;
      Handle(hasSetTab, t, Args(PrevQuote, None)).state == s
  {
    PrevAfterNext(s);
  }
}
