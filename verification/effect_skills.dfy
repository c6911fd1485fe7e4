/**
 * The `effect_skills` tool: fireworks with an intensity clamped to [1, 50]
 * (10 when the data is absent, zero or not a number), and the identity
 * shuffle, which clicks the aura button when the page has one.
 */
module EffectSkills {
  import opened Common
  import opened Strings
  import opened JsNumbers

  datatype Action = TriggerFireworks | ShuffleIdentity | Unknown(name: string)

  /** The host: an optional fireworks system, a browser window, and whether the aura button is on the page. */
  datatype Host = Host(hasFireworks: bool, hasWindow: bool, hasAuraButton: bool)

  /** The fireworks fired, if any, whether the aura button was clicked, and the reply. */
  datatype Outcome = Outcome(fireworks: Option<int>, clickedAura: bool, text: string)

  /** `parseInt(data || '10') || 10`, clamped to [1, 50]. */
  function EffectIntensity(data: Option<string>): (r: int)
    ensures 1 <= r <= 50
    ensures Truthy(data) && ParseInt(data.value).Some? && 1 <= ParseInt(data.value).value <= 50 ==>
      r == ParseInt(data.value).value
    ensures Truthy(data) && ParseInt(data.value).Some? && ParseInt(data.value).value > 50 ==> r == 50
    ensures Truthy(data) && ParseInt(data.value).Some? && ParseInt(data.value).value < 0 ==> r == 1
    ensures Truthy(data) && (ParseInt(data.value).None? || ParseInt(data.value) == Some(0)) ==> r == 10
  {
    Intensity(OrElse(data, "10"))
  }

  /** Without data the intensity is 10. */
  lemma AbsentDataGivesTen(data: Option<string>)
    requires !Truthy(data)
    ensures EffectIntensity(data) == 10
  {
    assert OrElse(data, "10") == NatToString(10);
    IntensityOfRendered(10);
  }

  function Handle(host: Host, action: Action, data: Option<string>): (r: Outcome)
    ensures action == TriggerFireworks && host.hasFireworks ==>
      var n := EffectIntensity(data);
      r == Outcome(Some(n), false, "Fireworks triggered with intensity: " + NatToString(n))
    ensures action == TriggerFireworks && !host.hasFireworks ==>
      r == Outcome(None, false, "Fireworks system not available.")
    ensures action == ShuffleIdentity ==> r.fireworks.None?
    ensures action == ShuffleIdentity ==>
      r.clickedAura == (host.hasWindow && host.hasAuraButton)
      && r.text == (if r.clickedAura then "Identity shuffled. Aura triggered." else "Identity shuffle triggered.")
    ensures action.Unknown? ==> r == Outcome(None, false, "Effect completed.")
    ensures r.fireworks.Some? ==> 1 <= r.fireworks.value <= 50
  {
    match action
    case ShuffleIdentity =>
      if host.hasWindow && host.hasAuraButton then Outcome(None, true, "Identity shuffled. Aura triggered.")
      else Outcome(None, false, "Identity shuffle triggered.")
    case TriggerFireworks =>
      if host.hasFireworks then
        var n := EffectIntensity(data);
        Outcome(Some(n), false, "Fireworks triggered with intensity: " + NatToString(n))
      else Outcome(None, false, "Fireworks system not available.")
    case Unknown(_) => Outcome(None, false, "Effect completed.")
  }
}
