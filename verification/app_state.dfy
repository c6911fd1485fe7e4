/**
 * The application-wide state (`AppState`): accent colour and persona with
 * their shuffles, the time-of-day background, and the combo counter with its
 * overload latch. Random numbers, the hour of the day and the asset lists are
 * inputs; timed visual flags (glitch, aura, shake) are not modelled.
 */
module AppState {
  import opened Common

  datatype Accent = Accent(name: string, hex: string)

  /** The background image sets, one per part of the day. */
  datatype Backgrounds = Backgrounds(morning: seq<string>, day: seq<string>, evening: seq<string>, night: seq<string>)

  datatype State = State(
    persona: string,
    personas: seq<string>,
    accents: seq<Accent>,
    currentAccent: Accent,
    selectedBg: Option<string>,
    isOverloaded: bool,
    showOverloadModal: bool,
    comboCount: nat,
    showCombo: bool,
    comboScale: real)

  const OverloadCount := 50
  const FireworksEvery := 10

  /** A random value as `Math.random()` returns it. */
  predicate IsRandom(rnd: real) {
    0.0 <= rnd < 1.0
  }

  /** `Math.floor(rnd * n)`: an index into a list of `n` elements. */
  function PickIndex(n: nat, rnd: real): (r: nat)
    requires n > 0 && IsRandom(rnd)
    ensures r < n
  {
    assert 0.0 <= rnd * n as real < n as real;
    (rnd * n as real).Floor
  }

  /** The part of the day an hour falls in. */
  datatype DayPart = Morning | Day | Evening | Night

  function DayPartOf(hour: int): (r: DayPart)
    ensures r == Morning <==> 5 <= hour < 10
    ensures r == Day <==> 10 <= hour < 17
    ensures r == Evening <==> 17 <= hour < 21
    ensures r == Night <==> hour < 5 || hour >= 21
  {
    if 5 <= hour < 10 then Morning
    else if 10 <= hour < 17 then Day
    else if 17 <= hour < 21 then Evening
    else Night
  }

  function SetFor(b: Backgrounds, part: DayPart): seq<string> {
    match part
    case Morning => b.morning
    case Day => b.day
    case Evening => b.evening
    case Night => b.night
  }

  /** `getBackgroundByTime`: a random member of the hour's set; None (`undefined`) when that set is empty. */
  function BackgroundByTime(b: Backgrounds, hour: int, rnd: real): (r: Option<string>)
    requires IsRandom(rnd)
    ensures r.Some? <==> |SetFor(b, DayPartOf(hour))| > 0
    ensures r.Some? ==> r.value in SetFor(b, DayPartOf(hour))
  {
    var pool := SetFor(b, DayPartOf(hour));
    if |pool| == 0 then None else Some(pool[PickIndex(|pool|, rnd)])
  }

  /**
   * The do/while shuffle: draws `values[floor(rnd * n)]` for each random value
   * in turn and stops at the first draw that `differs` accepts. None means
   * every supplied draw was rejected, so the loop would still be running.
   */
  function ShufflePick<T>(values: seq<T>, differs: T -> bool, draws: seq<real>): (r: Option<T>)
    requires |values| > 0
    requires forall i :: 0 <= i < |draws| ==> IsRandom(draws[i])
    decreases |draws|
    ensures r.Some? ==> differs(r.value) && r.value in values
    ensures r.None? ==> forall i :: 0 <= i < |draws| ==> !differs(values[PickIndex(|values|, draws[i])])
    ensures r.Some? ==> exists i :: 0 <= i < |draws| && r.value == values[PickIndex(|values|, draws[i])]
                                    && forall j :: 0 <= j < i ==> !differs(values[PickIndex(|values|, draws[j])])
  {
    if |draws| == 0 then None
    else
      var v := values[PickIndex(|values|, draws[0])];
      if differs(v) then Some(v)
      else
        var rest := ShufflePick(values, differs, draws[1..]);
        assert forall i :: 1 <= i < |draws| ==> draws[1..][i - 1] == draws[i];
        assert rest.Some? ==> exists i :: 0 <= i < |draws| && rest.value == values[PickIndex(|values|, draws[i])]
                                        && forall j :: 0 <= j < i ==> !differs(values[PickIndex(|values|, draws[j])]) by {
          if rest.Some? {
            var k :| 0 <= k < |draws[1..]| && rest.value == values[PickIndex(|values|, draws[1..][k])]
              && forall j :: 0 <= j < k ==> !differs(values[PickIndex(|values|, draws[1..][j])]);
            assert rest.value == values[PickIndex(|values|, draws[k + 1])];
          }
        }
        rest
  }

  /** When no value differs from the current one, no number of draws ends the shuffle. */
  lemma ShuffleNeedsAlternative<T>(values: seq<T>, differs: T -> bool, draws: seq<real>)
    requires |values| > 0
    requires forall i :: 0 <= i < |draws| ==> IsRandom(draws[i])
    requires forall i :: 0 <= i < |values| ==> !differs(values[i])
    ensures ShufflePick(values, differs, draws).None?
  {
  }

  /** `shufflePersona`: a persona other than the current one, once the draws reach one. */
  function ShufflePersona(s: State, draws: seq<real>): (r: Option<State>)
    requires |s.personas| > 0 && forall i :: 0 <= i < |draws| ==> IsRandom(draws[i])
    ensures r.Some? ==> r.value == s.(persona := r.value.persona) && r.value.persona != s.persona
    ensures r.Some? ==> r.value.persona in s.personas
  {
    match ShufflePick(s.personas, (p: string) => p != s.persona, draws)
    case None => None
    case Some(p) => Some(s.(persona := p))
  }

  /** `shuffleAccent`: an accent whose name differs from the current one, once the draws reach one. */
  function ShuffleAccent(s: State, draws: seq<real>): (r: Option<State>)
    requires |s.accents| > 0 && forall i :: 0 <= i < |draws| ==> IsRandom(draws[i])
    ensures r.Some? ==> r.value == s.(currentAccent := r.value.currentAccent)
    ensures r.Some? ==> r.value.currentAccent.name != s.currentAccent.name && r.value.currentAccent in s.accents
  {
    match ShufflePick(s.accents, (a: Accent) => a.name != s.currentAccent.name, draws)
    case None => None
    case Some(a) => Some(s.(currentAccent := a))
  }

  function SetAccent(s: State, accent: Accent): (r: State)
    ensures r == s.(currentAccent := accent)
  {
    s.(currentAccent := accent)
  }

  /**
   * `init`: a new persona, the background for the hour, then the saved accent
   * when one could be read back (`saved`), otherwise a shuffled accent. None
   * when a shuffle has not finished within the supplied draws.
   */
  function Init(s: State, b: Backgrounds, hour: int, bgRnd: real, personaDraws: seq<real>,
                saved: Option<Accent>, accentDraws: seq<real>): (r: Option<State>)
    requires |s.personas| > 0 && |s.accents| > 0 && IsRandom(bgRnd)
    requires forall i :: 0 <= i < |personaDraws| ==> IsRandom(personaDraws[i])
    requires forall i :: 0 <= i < |accentDraws| ==> IsRandom(accentDraws[i])
    ensures r.Some? ==> r.value.persona != s.persona && r.value.selectedBg == BackgroundByTime(b, hour, bgRnd)
    ensures r.Some? && saved.Some? ==> r.value.currentAccent == saved.value
    ensures r.Some? && saved.None? ==> r.value.currentAccent.name != s.currentAccent.name
    ensures r.Some? ==> r.value.persona in s.personas
    ensures r.Some? && saved.None? ==> r.value.currentAccent in s.accents
    ensures r.Some? ==>
      r.value == s.(persona := r.value.persona, selectedBg := r.value.selectedBg, currentAccent := r.value.currentAccent)
  {
    match ShufflePersona(s, personaDraws)
    case None => None
    case Some(p) =>
      var t := p.(selectedBg := BackgroundByTime(b, hour, bgRnd));
      if saved.Some? then Some(SetAccent(t, saved.value)) else ShuffleAccent(t, accentDraws)
  }

  /** A saved accent ends `init` before the accent shuffle, so the accent draws play no part. */
  lemma InitSavedIgnoresAccentDraws(s: State, b: Backgrounds, hour: int, bgRnd: real, personaDraws: seq<real>,
                                    accent: Accent, accentDraws: seq<real>, otherDraws: seq<real>)
    requires |s.personas| > 0 && |s.accents| > 0 && IsRandom(bgRnd)
    requires Randoms(personaDraws) && Randoms(accentDraws) && Randoms(otherDraws)
    ensures Init(s, b, hour, bgRnd, personaDraws, Some(accent), accentDraws)
         == Init(s, b, hour, bgRnd, personaDraws, Some(accent), otherDraws)
  {
  }

  /** With a single persona, which is already the current one, the persona shuffle in `init` never ends. */
  lemma InitNeedsTwoPersonas(s: State, b: Backgrounds, hour: int, bgRnd: real, personaDraws: seq<real>,
                             saved: Option<Accent>, accentDraws: seq<real>)
    requires |s.accents| > 0 && s.personas == [s.persona] && IsRandom(bgRnd)
    requires Randoms(personaDraws) && Randoms(accentDraws)
    ensures Init(s, b, hour, bgRnd, personaDraws, saved, accentDraws).None?
  {
    ShuffleNeedsAlternative(s.personas, (p: string) => p != s.persona, personaDraws);
  }

  /** `1 + Math.min(count * 0.02, 0.3)`. */
  function ComboScale(count: nat): (r: real)
    ensures 1.0 <= r <= 1.3
    ensures count <= 15 ==> r == 1.0 + count as real * 0.02
    ensures count >= 15 ==> r == 1.3
  {
    var grow := count as real * 0.02;
    1.0 + (if grow < 0.3 then grow else 0.3)
  }

  /** 2^k, the fireworks intensity of the k-th tenth strike. */
  function Pow2(k: nat): (r: nat)
    ensures r >= 1
    ensures k > 0 ==> r == 2 * Pow2(k - 1) && r >= k + 1
  {
    if k == 0 then 1 else 2 * Pow2(k - 1)
  }

  /** What the counting half of `addStrike` does to the state, and the fireworks intensity it fires, if any. */
  datatype Strike = Strike(state: State, fireworks: Option<nat>)

  /**
   * The counting half of `addStrike`: counts the strike, fires fireworks of
   * intensity 2^(count / 10) on every tenth strike when a fireworks system is
   * present, shows the combo at its scale, and latches the overload at 50.
   */
  function CountStrike(s: State, hasFireworks: bool): (r: Strike)
    ensures r.state.comboCount == s.comboCount + 1
    ensures r.fireworks.Some? <==> hasFireworks && r.state.comboCount % FireworksEvery == 0
    ensures r.fireworks.Some? ==> r.fireworks.value == Pow2(r.state.comboCount / FireworksEvery)
    ensures r.state.showCombo && r.state.comboScale == ComboScale(r.state.comboCount)
    ensures r.state.comboCount == OverloadCount ==> r.state.isOverloaded && r.state.showOverloadModal
    ensures r.state.comboCount != OverloadCount ==>
      r.state.isOverloaded == s.isOverloaded && r.state.showOverloadModal == s.showOverloadModal
    ensures r.state == s.(comboCount := r.state.comboCount, showCombo := true, comboScale := r.state.comboScale,
                          isOverloaded := r.state.isOverloaded, showOverloadModal := r.state.showOverloadModal)
  {
    var count := s.comboCount + 1;
    var fire := if count % FireworksEvery == 0 && hasFireworks then Some(Pow2(count / FireworksEvery)) else None;
    var t := s.(comboCount := count, showCombo := true, comboScale := ComboScale(count));
    Strike(if count == OverloadCount then t.(isOverloaded := true, showOverloadModal := true) else t, fire)
  }

  /** Every value in `draws` is a `Math.random()` result. */
  predicate Randoms(draws: seq<real>) {
    forall i :: 0 <= i < |draws| ==> IsRandom(draws[i])
  }

  /**
   * `addStrike`: shuffles the persona with `personaDraws`, then the accent with
   * `accentDraws`, then counts. None when either shuffle has not finished
   * within its draws, as the source's loop is then still running.
   */
  function AddStrike(s: State, hasFireworks: bool, personaDraws: seq<real>, accentDraws: seq<real>): (r: Option<Strike>)
    requires |s.personas| > 0 && |s.accents| > 0
    requires Randoms(personaDraws) && Randoms(accentDraws)
    ensures r.None? <==> (ShufflePersona(s, personaDraws).None?
                          || ShuffleAccent(ShufflePersona(s, personaDraws).value, accentDraws).None?)
    ensures r.Some? ==> r.value.state.persona != s.persona && r.value.state.persona in s.personas
    ensures r.Some? ==> (r.value.state.currentAccent.name != s.currentAccent.name
                         && r.value.state.currentAccent in s.accents)
    ensures r.Some? ==> r.value == CountStrike(s.(persona := r.value.state.persona,
                                                   currentAccent := r.value.state.currentAccent), hasFireworks)
  {
    match ShufflePersona(s, personaDraws)
    case None => None
    case Some(p) =>
      match ShuffleAccent(p, accentDraws)
      case None => None
      case Some(a) => Some(CountStrike(a, hasFireworks))
  }

  /** With a single persona the strike never gets past its first shuffle. */
  lemma StrikeNeedsTwoPersonas(s: State, hasFireworks: bool, personaDraws: seq<real>, accentDraws: seq<real>)
    requires |s.accents| > 0 && s.personas == [s.persona]
    requires Randoms(personaDraws) && Randoms(accentDraws)
    ensures AddStrike(s, hasFireworks, personaDraws, accentDraws).None?
  {
    ShuffleNeedsAlternative(s.personas, (p: string) => p != s.persona, personaDraws);
  }

  /** `resetCombo`: the count returns to zero unless overloaded; the combo is hidden at scale 1. */
  function ResetCombo(s: State): (r: State)
    ensures !s.isOverloaded ==> r.comboCount == 0
    ensures s.isOverloaded ==> r.comboCount == s.comboCount
    ensures !r.showCombo && r.comboScale == 1.0
    ensures r.isOverloaded == s.isOverloaded && r.showOverloadModal == s.showOverloadModal
    ensures r == s.(comboCount := r.comboCount, showCombo := false, comboScale := 1.0)
  {
    s.(comboCount := if s.isOverloaded then s.comboCount else 0, showCombo := false, comboScale := 1.0)
  }

  /** The draws of each strike in turn, all `Math.random()` results. */
  predicate RoundsRandom(rounds: seq<(seq<real>, seq<real>)>) {
    forall k :: 0 <= k < |rounds| ==> Randoms(rounds[k].0) && Randoms(rounds[k].1)
  }

  /**
   * One strike per round, without the combo timing out in between. None when
   * a shuffle in some round does not finish within its draws.
   */
  function Strikes(s: State, hasFireworks: bool, rounds: seq<(seq<real>, seq<real>)>): (r: Option<State>)
    requires |s.personas| > 0 && |s.accents| > 0 && RoundsRandom(rounds)
    decreases |rounds|
    ensures r.Some? ==> r.value.personas == s.personas && r.value.accents == s.accents
  {
    if |rounds| == 0 then Some(s)
    else
      var last := rounds[|rounds| - 1];
      match Strikes(s, hasFireworks, rounds[..|rounds| - 1])
      case None => None
      case Some(t) =>
        match AddStrike(t, hasFireworks, last.0, last.1)
        case None => None
        case Some(x) => Some(x.state)
  }

  /** Strikes only count up, and the overload, once set, stays set. */
  lemma {:induction false} StrikesCount(s: State, hasFireworks: bool, rounds: seq<(seq<real>, seq<real>)>)
    requires |s.personas| > 0 && |s.accents| > 0 && RoundsRandom(rounds)
    ensures Strikes(s, hasFireworks, rounds).Some? ==> Strikes(s, hasFireworks, rounds).value.comboCount == s.comboCount + |rounds|
    ensures Strikes(s, hasFireworks, rounds).Some? && s.isOverloaded ==> Strikes(s, hasFireworks, rounds).value.isOverloaded
    ensures Strikes(s, hasFireworks, rounds).Some? && |rounds| > 0 ==> 1.0 <= Strikes(s, hasFireworks, rounds).value.comboScale <= 1.3
    decreases |rounds|
  {
    if |rounds| > 0 {
      StrikesCount(s, hasFireworks, rounds[..|rounds| - 1]);
    }
  }

  /** From a fresh counter, fifty uninterrupted strikes that finish their shuffles latch the overload. */
  lemma {:induction false} FiftyStrikesOverload(s: State, hasFireworks: bool, rounds: seq<(seq<real>, seq<real>)>)
    requires |s.personas| > 0 && |s.accents| > 0 && RoundsRandom(rounds)
    requires s.comboCount == 0 && |rounds| == OverloadCount
    ensures Strikes(s, hasFireworks, rounds).Some? ==> Strikes(s, hasFireworks, rounds).value.isOverloaded
    ensures Strikes(s, hasFireworks, rounds).Some? ==> Strikes(s, hasFireworks, rounds).value.showOverloadModal
  {
    StrikesCount(s, hasFireworks, rounds[..|rounds| - 1]);
  }

  /** Once overloaded, a timeout no longer clears the counter. */
  lemma OverloadSurvivesReset(s: State, hasFireworks: bool, personaDraws: seq<real>, accentDraws: seq<real>)
    requires |s.personas| > 0 && |s.accents| > 0 && Randoms(personaDraws) && Randoms(accentDraws)
    requires s.isOverloaded
    ensures AddStrike(s, hasFireworks, personaDraws, accentDraws).Some? ==>
      ResetCombo(AddStrike(s, hasFireworks, personaDraws, accentDraws).value.state).comboCount == s.comboCount + 1
  {
  }
}
