/**
 * The display lookup tables of frontend/src/lib/utils.ts. Each is a constant
 * record indexed by an ordinary string key, with `||` falling back to a
 * default when the key is absent (every table value is a non-empty string,
 * so a present key never falls through).
 */
module Display {
  import opened Wrappers

  const UnknownColor: string := "text-gray-600 bg-gray-50 border-gray-200"
  const UnknownIcon: string := "❓"

  /** The urgency colour record. */
  function ColorEntry(urgency: string): Option<string> {
    if urgency == "LOW" then Some("text-emerald-600 bg-emerald-50 border-emerald-200")
    else if urgency == "MEDIUM" then Some("text-yellow-600 bg-yellow-50 border-yellow-200")
    else if urgency == "HIGH" then Some("text-orange-600 bg-orange-50 border-orange-200")
    else if urgency == "EMERGENCY" then Some("text-red-600 bg-red-50 border-red-200")
    else if urgency == "UNKNOWN" then Some(UnknownColor)
    else None
  }

  /** The urgency icon record. */
  function IconEntry(urgency: string): Option<string> {
    if urgency == "LOW" then Some("✅")
    else if urgency == "MEDIUM" then Some("⚠️")
    else if urgency == "HIGH" then Some("🔶")
    else if urgency == "EMERGENCY" then Some("🚨")
    else if urgency == "UNKNOWN" then Some(UnknownIcon)
    else None
  }

  /** The visibility label record. */
  function LabelEntry(visibility: string): Option<string> {
    if visibility == "PRIVATE" then Some("🔒 Private")
    else if visibility == "SHARED_SUMMARY" then Some("👨‍👩‍👧‍👦 Family Shared")
    else if visibility == "CAREGIVER" then Some("🏥 Caregiver Access")
    else None
  }

  /** `table[key] || fallback`: an absent key, or a falsy (empty) value, gives the fallback. */
  function LookupOr(entry: Option<string>, fallback: string): string {
    if entry.Some? && entry.value != "" then entry.value else fallback
  }

  predicate IsUrgencyKey(urgency: string) {
    urgency in {"LOW", "MEDIUM", "HIGH", "EMERGENCY", "UNKNOWN"}
  }

  /** getUrgencyColor. */
  function UrgencyColor(urgency: string): (r: string)
    ensures IsUrgencyKey(urgency) ==> r == ColorEntry(urgency).value
    ensures !IsUrgencyKey(urgency) ==> r == UnknownColor
    ensures r != ""
  {
    LookupOr(ColorEntry(urgency), ColorEntry("UNKNOWN").value)
  }

  /** getUrgencyIcon. */
  function UrgencyIcon(urgency: string): (r: string)
    ensures IsUrgencyKey(urgency) ==> r == IconEntry(urgency).value
    ensures !IsUrgencyKey(urgency) ==> r == UnknownIcon
    ensures r != ""
  {
    LookupOr(IconEntry(urgency), IconEntry("UNKNOWN").value)
  }

  /** getVisibilityLabel. */
  function VisibilityLabel(visibility: string): (r: string)
    ensures LabelEntry(visibility).Some? ==> r == LabelEntry(visibility).value
    ensures LabelEntry(visibility).None? ==> r == visibility
  {
    LookupOr(LabelEntry(visibility), visibility)
  }

  /** Every urgency outside the table is drawn exactly like UNKNOWN. */
  lemma UnknownKeysLookLikeUnknown(urgency: string)
    requires !IsUrgencyKey(urgency)
    ensures UrgencyColor(urgency) == UrgencyColor("UNKNOWN")
    ensures UrgencyIcon(urgency) == UrgencyIcon("UNKNOWN")
  {
  }

  /**
   * The urgency names the triage engine stores (ROUTINE, URGENT, EMERGENT)
   * are not table keys, so processed reports are drawn with the UNKNOWN style
   * and icon.
   */
  lemma TriageLevelsLookUnknown(urgency: string)
    requires urgency in {"ROUTINE", "URGENT", "EMERGENT"}
    ensures UrgencyColor(urgency) == UnknownColor
    ensures UrgencyIcon(urgency) == UnknownIcon
  {
    assert !IsUrgencyKey(urgency);
  }
}
