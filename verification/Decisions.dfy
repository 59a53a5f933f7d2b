// apps/updater/src/decisions.ts: the decision rules over release ordinals.
module Decisions {
  import opened Options

  datatype StepAction = Hold | Refuse | Apply(toVersion: nat)

  function DecideStep(current: nat, desired: nat, floor: nat, signedDowngrade: bool): StepAction {
    if desired == current then Hold
    else if desired < current then
      if signedDowngrade then (if desired < floor then Refuse else Apply(desired)) else Refuse
    else Apply(current + 1)
  }

  // Unsigned, the only move is one rung up; signed, it also reaches down, never past the floor.
  lemma StepsStayInBounds(current: nat, desired: nat, floor: nat, signedDowngrade: bool)
    ensures var a := DecideStep(current, desired, floor, signedDowngrade);
            a.Apply? <==> desired > current || (signedDowngrade && floor <= desired < current)
    ensures var a := DecideStep(current, desired, floor, signedDowngrade);
            a.Apply? ==> a.toVersion == current + 1 || (signedDowngrade && floor <= a.toVersion < current)
  {
  }

  predicate IsPoisoned(attempts: map<nat, nat>, version: nat, maxFailures: nat) {
    (if version in attempts then attempts[version] else 0) >= maxFailures
  }

  // collabOk None: the probe was not judged, never a vote.
  datatype CanarySample = CanarySample(writeOk: bool, collabOk: Option<bool>, busy: bool)

  datatype CanaryVerdict = Healthy | WriteBroken | CollabBroken | Busy

  function QuietOf(samples: seq<CanarySample>): seq<CanarySample> {
    if samples == [] then []
    else (if samples[0].busy then [] else [samples[0]]) + QuietOf(samples[1..])
  }

  function VerdictOf(samples: seq<CanarySample>): CanaryVerdict {
    var quiet := QuietOf(samples);
    if |quiet| == 0 then Busy
    else if exists s :: s in quiet && !s.writeOk then WriteBroken
    else if exists s :: s in quiet && s.collabOk == Some(false) then CollabBroken
    else Healthy
  }

  lemma {:induction false} QuietMembers(samples: seq<CanarySample>)
    ensures forall s :: s in QuietOf(samples) <==> s in samples && !s.busy
  {
    if samples != [] {
      QuietMembers(samples[1..]);
      assert samples == [samples[0]] + samples[1..];
    }
  }

  // A release is rolled back exactly when some sample taken off load saw it broken.
  lemma CondemnedOnlyByQuietFailure(samples: seq<CanarySample>)
    ensures VerdictOf(samples) in {WriteBroken, CollabBroken}
       <==> exists s :: s in samples && !s.busy && (!s.writeOk || s.collabOk == Some(false))
    ensures VerdictOf(samples) == Busy <==> forall s :: s in samples ==> s.busy
  {
    QuietMembers(samples);
    if QuietOf(samples) != [] { assert QuietOf(samples)[0] in QuietOf(samples); }
  }

  datatype KeptImage = KeptImage(version: nat, minCompatibleSchema: nat)

  function RollbackTarget(kept: seq<KeptImage>, migratedSchema: nat): (r: Option<nat>)
    ensures r.Some? ==> exists k :: k in kept && k.version == r.value && k.minCompatibleSchema <= migratedSchema
    ensures forall k :: k in kept && k.minCompatibleSchema <= migratedSchema ==> r.Some? && k.version <= r.value
  {
    if kept == [] then None
    else
      var rest := RollbackTarget(kept[1..], migratedSchema);
      assert kept == [kept[0]] + kept[1..];
      if kept[0].minCompatibleSchema > migratedSchema then rest
      else if rest.Some? && rest.value > kept[0].version then rest
      else Some(kept[0].version)
  }
}
