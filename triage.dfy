/**
 * Rule-based triage (backend/app/services/triage.py): the first critical
 * flag naming an emergent condition with a suspected or uncertain status
 * makes the report EMERGENT; otherwise two or more entities whose certainty
 * is exactly "present" make it URGENT; otherwise it is ROUTINE.
 */
module Triage {
  import opened Wrappers
  import opened Text
  import opened ExtractedData

  /** EMERGENT_FLAGS. */
  const EmergentFlags: set<string> := {"pneumothorax", "intracranial_hemorrhage", "free_air", "pulmonary_embolism"}

  datatype Level = Routine | Urgent | Emergent {
    function Name(): string {
      match this
      case Routine => "ROUTINE"
      case Urgent => "URGENT"
      case Emergent => "EMERGENT"
    }
  }

  datatype TriageResult = TriageResult(urgency: Level, rationale: string)

  /** The lower-cased flag name, `(f.get("flag") or "").lower()`. */
  function FlagName(f: Flag): string {
    LowerAscii(OrEmpty(f.flag))
  }

  /** The lower-cased status, `(f.get("status") or "").lower()`. */
  function FlagStatus(f: Flag): string {
    LowerAscii(OrEmpty(f.status))
  }

  predicate IsEmergent(f: Flag) {
    FlagName(f) in EmergentFlags && FlagStatus(f) in {"suspected", "uncertain"}
  }

  /** How an f-string renders `f.get('evidence', '')`: absent gives "", `null` gives "None". */
  function EvidenceText(f: Field): string {
    match f
    case Missing => ""
    case Null => "None"
    case Str(s) => s
  }

  /** The index of the first element at or after `k` that satisfies `p`, if any. */
  function FirstFrom<T>(s: seq<T>, p: T -> bool, k: nat): (r: Option<nat>)
    requires k <= |s|
    ensures r.Some? ==> k <= r.value < |s| && p(s[r.value])
    ensures r.Some? ==> forall j :: k <= j < r.value ==> !p(s[j])
    ensures r.None? ==> forall j :: k <= j < |s| ==> !p(s[j])
    decreases |s| - k
  {
    if k == |s| then None
    else if p(s[k]) then Some(k)
    else FirstFrom(s, p, k + 1)
  }

  predicate IsPresent(e: Entity) {
    e.certainty == Str("present")
  }

  /** `len([e for e in entities if e.get("certainty") == "present"])`. */
  function CountPresent(es: seq<Entity>): (n: nat)
    ensures n <= |es|
  {
    if es == [] then 0 else CountPresent(es[..|es| - 1]) + (if IsPresent(es[|es| - 1]) then 1 else 0)
  }

  function EmergentRationale(f: Flag): string {
    "Critical flag '" + FlagName(f) + "' is " + FlagStatus(f) + ". Evidence: " + EvidenceText(f.evidence)
  }

  const RoutineRationale: string := "No emergent critical flags detected by rule engine."

  function UrgentRationale(n: nat): string {
    NatToString(n) + " abnormal findings present. Review recommended."
  }

  /** triage_risk. */
  function TriageRisk(x: Extracted): (r: TriageResult)
    ensures r.urgency == Emergent <==> exists i :: 0 <= i < |x.criticalFlags| && IsEmergent(x.criticalFlags[i])
    ensures r.urgency == Emergent ==> exists i :: (
      && 0 <= i < |x.criticalFlags| && IsEmergent(x.criticalFlags[i])
      && (forall j :: 0 <= j < i ==> !IsEmergent(x.criticalFlags[j]))
      && r.rationale == EmergentRationale(x.criticalFlags[i]))
    ensures r.urgency == Urgent <==>
      (forall i :: 0 <= i < |x.criticalFlags| ==> !IsEmergent(x.criticalFlags[i])) && CountPresent(x.entities) >= 2
    ensures r.urgency == Urgent ==> r.rationale == UrgentRationale(CountPresent(x.entities))
    ensures r.urgency == Routine ==> r.rationale == RoutineRationale
  {
    match FirstFrom(x.criticalFlags, IsEmergent, 0)
    case Some(i) => TriageResult(Emergent, EmergentRationale(x.criticalFlags[i]))
    case None =>
      var n := CountPresent(x.entities);
      if n >= 2 then TriageResult(Urgent, UrgentRationale(n))
      else TriageResult(Routine, RoutineRationale)
  }

  /** A flag whose name or status is absent or `null` is never emergent. */
  lemma AbsentNeverEmergent(f: Flag)
    requires !f.flag.Str? || !f.status.Str?
    ensures !IsEmergent(f)
  {
    assert FlagName(f) == "" || FlagStatus(f) == "";
  }

  /** Two entities present is exactly what the count tests. */
  lemma {:induction false} CountPresentAtLeastTwo(es: seq<Entity>)
    ensures CountPresent(es) >= 2 <==> exists i, j :: 0 <= i < j < |es| && IsPresent(es[i]) && IsPresent(es[j])
  {
    if es != [] {
      var init, last := es[..|es| - 1], es[|es| - 1];
      CountPresentAtLeastTwo(init);
      CountPresentPositive(init);
      if CountPresent(es) >= 2 {
        if CountPresent(init) >= 2 {
          var i, j :| 0 <= i < j < |init| && IsPresent(init[i]) && IsPresent(init[j]);
          assert es[i] == init[i] && es[j] == init[j];
        } else {
          var i :| 0 <= i < |init| && IsPresent(init[i]);
          assert es[i] == init[i] && es[|es| - 1] == last;
        }
      }
      if exists i, j :: 0 <= i < j < |es| && IsPresent(es[i]) && IsPresent(es[j]) {
        var i, j :| 0 <= i < j < |es| && IsPresent(es[i]) && IsPresent(es[j]);
        if j < |es| - 1 {
          assert init[i] == es[i] && init[j] == es[j];
        } else {
          assert init[i] == es[i];
        }
      }
    }
  }

  lemma {:induction false} CountPresentPositive(es: seq<Entity>)
    ensures CountPresent(es) >= 1 <==> exists i :: 0 <= i < |es| && IsPresent(es[i])
  {
    if es != [] {
      var init := es[..|es| - 1];
      CountPresentPositive(init);
      if exists i :: 0 <= i < |init| && IsPresent(init[i]) {
        var i :| 0 <= i < |init| && IsPresent(init[i]);
        assert es[i] == init[i];
      }
      if exists i :: 0 <= i < |es| && IsPresent(es[i]) {
        var i :| 0 <= i < |es| && IsPresent(es[i]);
        if i < |es| - 1 { assert init[i] == es[i]; }
      }
    }
  }

  /** The flags decide before the entities: an emergent flag wins whatever the entities say. */
  lemma EmergentPrecedence(x: Extracted, es: seq<Entity>)
    ensures TriageRisk(x).urgency == Emergent ==> TriageRisk(x.(entities := es)).urgency == Emergent
  {
  }

  /** Lower-casing is applied before the comparison: "PNEUMOTHORAX" with status "Suspected" is emergent. */
  lemma UpperCaseFlagIsEmergent()
    ensures IsEmergent(Flag(Str("PNEUMOTHORAX"), Str("Suspected"), Missing))
  {
    assert LowerAscii("PNEUMOTHORAX") == "pneumothorax";
    assert LowerAscii("Suspected") == "suspected";
  }

  /** The certainty comparison is case-sensitive: "Present" does not count. */
  lemma CertaintyIsCaseSensitive(e: Entity)
    requires e.certainty == Str("Present")
    ensures !IsPresent(e)
  {
  }
}
