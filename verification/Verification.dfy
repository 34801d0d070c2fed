/** summarizeVerification: what a set of observations says about a contract's expected effects. */
module Verification {
  import opened Domain

  datatype Summary = Summary(
    confirmed: bool, unknown: bool, rejected: bool, minimumStrengthMet: bool, missingEffects: seq<string>)

  predicate HasResult(observations: seq<Observation>, effect: string, result: EffectResult) {
    exists o | o in observations :: o.effectId == effect && o.result == result
  }

  predicate ConfirmedAt(observations: seq<Observation>, effect: string, strength: real) {
    exists o | o in observations :: o.effectId == effect && o.result == EffectConfirmed && o.strength >= strength
  }

  function Minimum(c: Contract): real { if c.minimumStrength.Some? then c.minimumStrength.value else 0.0 }

  function Missing(effects: seq<string>, observations: seq<Observation>): seq<string> {
    if effects == [] then []
    else
      var last := effects[|effects| - 1];
      Missing(effects[..|effects| - 1], observations)
      + (if HasResult(observations, last, EffectConfirmed) then [] else [last])
  }

  /** What the summary means, effect by effect. */
  function Summarize(c: Contract, observations: seq<Observation>): Summary {
    Summary(
      forall e | e in c.effects :: ConfirmedAt(observations, e, Minimum(c)),
      exists e | e in c.effects ::
        !HasResult(observations, e, EffectConfirmed) && !HasResult(observations, e, EffectRejected),
      exists e | e in c.effects ::
        !HasResult(observations, e, EffectConfirmed) && HasResult(observations, e, EffectRejected),
      forall e | e in c.effects ::
        HasResult(observations, e, EffectConfirmed) ==> ConfirmedAt(observations, e, Minimum(c)),
      Missing(c.effects, observations))
  }

  lemma {:induction false} MissingFacts(effects: seq<string>, observations: seq<Observation>)
    ensures forall e :: e in Missing(effects, observations) <==>
      (e in effects && !HasResult(observations, e, EffectConfirmed))
  {
    if effects != [] {
      MissingFacts(effects[..|effects| - 1], observations);
      assert effects == effects[..|effects| - 1] + [effects[|effects| - 1]];
    }
  }

  method Matching(observations: seq<Observation>, effect: string) returns (matches: seq<Observation>)
    ensures forall o :: o in matches <==> o in observations && o.effectId == effect
  {
    matches := [];
    for i := 0 to |observations|
      invariant forall o :: o in matches <==> o in observations[..i] && o.effectId == effect
    {
      if observations[i].effectId == effect { matches := matches + [observations[i]]; }
    }
  }

  method ConfirmedOnes(observations: seq<Observation>) returns (confirmed: seq<Observation>)
    ensures forall o :: o in confirmed <==> o in observations && o.result == EffectConfirmed
  {
    confirmed := [];
    for i := 0 to |observations|
      invariant forall o :: o in confirmed <==> o in observations[..i] && o.result == EffectConfirmed
    {
      if observations[i].result == EffectConfirmed { confirmed := confirmed + [observations[i]]; }
    }
  }

  method MaxStrength(observations: seq<Observation>) returns (max: real)
    requires observations != []
    ensures exists o | o in observations :: o.strength == max
    ensures forall o | o in observations :: o.strength <= max
  {
    max := observations[0].strength;
    for i := 1 to |observations|
      invariant exists o | o in observations :: o.strength == max
      invariant forall j | 0 <= j < i :: observations[j].strength <= max
    {
      if observations[i].strength > max { max := observations[i].strength; }
    }
  }

  /** No confirmation, but a rejection; no confirmation and none either; a confirmation too weak. */
  predicate IsRejected(observations: seq<Observation>, effect: string) {
    !HasResult(observations, effect, EffectConfirmed) && HasResult(observations, effect, EffectRejected)
  }

  predicate IsUnknown(observations: seq<Observation>, effect: string) {
    !HasResult(observations, effect, EffectConfirmed) && !HasResult(observations, effect, EffectRejected)
  }

  predicate IsWeak(observations: seq<Observation>, effect: string, minimum: real) {
    HasResult(observations, effect, EffectConfirmed) && !ConfirmedAt(observations, effect, minimum)
  }

  /** The filters and tests of one pass of the loop. */
  method Judge(observations: seq<Observation>, effect: string, minimum: real)
    returns (missing: bool, rejected: bool, weak: bool)
    ensures missing == !HasResult(observations, effect, EffectConfirmed)
    ensures rejected == IsRejected(observations, effect) && weak == IsWeak(observations, effect, minimum)
    ensures missing && !rejected <==> IsUnknown(observations, effect)
    ensures rejected ==> missing
    ensures weak ==> !missing
  {
    missing, rejected, weak := false, false, false;
    var matches := Matching(observations, effect);
    var confirmed := ConfirmedOnes(matches);
    if confirmed == [] {
      missing := true;
      rejected := exists o | o in matches :: o.result == EffectRejected;
    } else {
      assert confirmed[0] in confirmed;
      var strongest := MaxStrength(confirmed);
      weak := strongest < minimum;
    }
  }

  /** The loop over the expected effects computes the meaning above. */
  method SummarizeVerification(c: Contract, observations: seq<Observation>) returns (summary: Summary)
    ensures summary == Summarize(c, observations)
  {
    hide HasResult, ConfirmedAt, IsRejected, IsUnknown, IsWeak, Summarize;
    var missingEffects: seq<string> := [];
    var rejected, unknown, minimumStrengthMet := false, false, true;
    for i := 0 to |c.effects|
      invariant missingEffects == Missing(c.effects[..i], observations)
      invariant rejected <==> exists e | e in c.effects[..i] :: IsRejected(observations, e)
      invariant unknown <==> exists e | e in c.effects[..i] :: IsUnknown(observations, e)
      invariant minimumStrengthMet <==> forall e | e in c.effects[..i] :: !IsWeak(observations, e, Minimum(c))
    {
      var effect := c.effects[i];
      assert c.effects[..i + 1] == c.effects[..i] + [effect];
      assert c.effects[..i + 1][..i] == c.effects[..i];
      var isMissing, isRejected, isWeak := Judge(observations, effect, Minimum(c));
      if isMissing {
        missingEffects := missingEffects + [effect];
        if isRejected { rejected := true; } else { unknown := true; }
        continue;
      }
      if isWeak { minimumStrengthMet := false; }
    }
    assert c.effects[..|c.effects|] == c.effects;
    summary := Summary(
      missingEffects == [] && !rejected && minimumStrengthMet, unknown, rejected, minimumStrengthMet, missingEffects);
    SummaryOfParts(c, observations);
  }

  lemma ConfirmedHasResult(observations: seq<Observation>, effect: string, minimum: real)
    requires ConfirmedAt(observations, effect, minimum)
    ensures HasResult(observations, effect, EffectConfirmed)
  {
    var o :| o in observations && o.effectId == effect && o.result == EffectConfirmed && o.strength >= minimum;
  }

  /** The flags the loop keeps, put together, are the summary. */
  lemma SummaryOfParts(c: Contract, observations: seq<Observation>)
    ensures var rejected := exists e | e in c.effects :: IsRejected(observations, e);
      var met := forall e | e in c.effects :: !IsWeak(observations, e, Minimum(c));
      Summarize(c, observations) == Summary(
        Missing(c.effects, observations) == [] && !rejected && met,
        exists e | e in c.effects :: IsUnknown(observations, e), rejected, met, Missing(c.effects, observations))
  {
    hide HasResult, ConfirmedAt;
    MissingFacts(c.effects, observations);
    var missing := Missing(c.effects, observations);
    assert missing != [] ==> missing[0] in missing;
    forall e | ConfirmedAt(observations, e, Minimum(c)) ensures HasResult(observations, e, EffectConfirmed) {
      ConfirmedHasResult(observations, e, Minimum(c));
    }
  }

  /** Exactly one of three verdicts: confirmed, rejected, or neither; a weak confirmation is neither. */
  lemma VerdictsExclude(c: Contract, observations: seq<Observation>)
    ensures var s := Summarize(c, observations);
      && !(s.confirmed && s.rejected) && !(s.confirmed && s.unknown)
      && (s.confirmed <==> s.missingEffects == [] && s.minimumStrengthMet)
  {
    MissingFacts(c.effects, observations);
    var missing := Missing(c.effects, observations);
    assert missing != [] ==> missing[0] in missing;
    forall e | e in c.effects && ConfirmedAt(observations, e, Minimum(c))
      ensures HasResult(observations, e, EffectConfirmed)
    {
      var o :| o in observations && o.effectId == e && o.result == EffectConfirmed && o.strength >= Minimum(c);
    }
    forall e | e in missing ensures !ConfirmedAt(observations, e, Minimum(c)) {}
  }
}
