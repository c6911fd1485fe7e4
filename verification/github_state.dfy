/**
 * The GitHub trending panel's state (`GithubState`): the listing mode, the
 * language filter, and a refresh counter the panel watches to reload. The
 * fetched repositories and developers are not modelled.
 */
module GithubState {
  import opened Common

  datatype Mode = Repositories | Developers

  datatype State = State(mode: Mode, selectedLang: string, refreshSignal: nat)

  function Initial(): (r: State)
    ensures r.mode == Repositories && r.selectedLang == "all" && r.refreshSignal == 0
  {
    State(Repositories, "all", 0)
  }

  /** The mode a name denotes, if it is one of the two. */
  function ModeNamed(name: string): (r: Option<Mode>)
    ensures r == Some(Repositories) <==> name == "repositories"
    ensures r == Some(Developers) <==> name == "developers"
    ensures r.None? <==> name != "repositories" && name != "developers"
  {
    if name == "repositories" then Some(Repositories)
    else if name == "developers" then Some(Developers)
    else None
  }

  function ModeName(m: Mode): (r: string)
    ensures ModeNamed(r) == Some(m)
  {
    match m
    case Repositories => "repositories"
    case Developers => "developers"
  }

  /** `setMode`: a known mode is taken and signals a refresh; any other name changes nothing. */
  function SetMode(s: State, name: string): (r: State)
    ensures ModeNamed(name).Some? ==> r.mode == ModeNamed(name).value && r.refreshSignal == s.refreshSignal + 1
    ensures ModeNamed(name).None? ==> r == s
    ensures r.selectedLang == s.selectedLang
  {
    match ModeNamed(name)
    case None => s
    case Some(m) => s.(mode := m, refreshSignal := s.refreshSignal + 1)
  }

  /** `setLanguage`: takes the language and signals a refresh. */
  function SetLanguage(s: State, lang: string): (r: State)
    ensures r.selectedLang == lang && r.mode == s.mode && r.refreshSignal == s.refreshSignal + 1
  {
    s.(selectedLang := lang, refreshSignal := s.refreshSignal + 1)
  }

  /** A call on the state. */
  datatype Call = SetModeCall(name: string) | SetLanguageCall(lang: string)

  /** Whether a call changes the state (and so signals a refresh). */
  predicate Effective(c: Call) {
    match c
    case SetModeCall(name) => ModeNamed(name).Some?
    case SetLanguageCall(_) => true
  }

  function Apply(s: State, c: Call): State {
    match c
    case SetModeCall(name) => SetMode(s, name)
    case SetLanguageCall(lang) => SetLanguage(s, lang)
  }

  function Run(s: State, calls: seq<Call>): State
    decreases |calls|
  {
    if |calls| == 0 then s else Run(Apply(s, calls[0]), calls[1..])
  }

  /** How many of the calls change the state. */
  function CountEffective(calls: seq<Call>): (r: nat)
    ensures r <= |calls|
    ensures r == |calls| <==> forall i :: 0 <= i < |calls| ==> Effective(calls[i])
    ensures r == 0 <==> forall i :: 0 <= i < |calls| ==> !Effective(calls[i])
    decreases |calls|
  {
    if |calls| == 0 then 0 else (if Effective(calls[0]) then 1 else 0) + CountEffective(calls[1..])
  }

  /**
   * The refresh signal counts exactly the calls that changed something: it
   * never goes down, and the panel sees a new value after every effective call.
   */
  lemma {:induction false} SignalCountsCalls(s: State, calls: seq<Call>)
    ensures Run(s, calls).refreshSignal == s.refreshSignal + CountEffective(calls)
    ensures Run(s, calls).refreshSignal >= s.refreshSignal
    decreases |calls|
  {
    if |calls| > 0 {
      SignalCountsCalls(Apply(s, calls[0]), calls[1..]);
    }
  }

  /**
   * Only `setMode` moves the mode: a mode other than the starting one was
   * named by one of the calls.
   */
  lemma {:induction false} ModeStaysNamed(s: State, calls: seq<Call>)
    ensures Run(s, calls).mode != s.mode ==>
      exists i :: 0 <= i < |calls| && calls[i] == SetModeCall(ModeName(Run(s, calls).mode))
    ensures (forall i :: 0 <= i < |calls| ==> !calls[i].SetModeCall?) ==> Run(s, calls).mode == s.mode
    decreases |calls|
  {
    if |calls| > 0 {
      ModeStaysNamed(Apply(s, calls[0]), calls[1..]);
      assert forall i :: 1 <= i < |calls| ==> calls[1..][i - 1] == calls[i];
    }
  }
}
