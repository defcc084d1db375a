/**
 * The structured record the extractor produces from a radiology report and
 * that the triage rules read. Only the members the code inspects are
 * modelled field by field; a JSON member is either absent, `null`, or a string.
 */
module ExtractedData {
  import opened Wrappers

  /** One JSON member as the code reads it with `d.get(key)`. */
  datatype Field = Missing | Null | Str(s: string)

  /** `d.get(key) or ""`: absent, `null` and the empty string all read as "". */
  function OrEmpty(f: Field): (r: string)
    ensures f.Str? ==> r == f.s
    ensures !f.Str? ==> r == ""
  {
    match f
    case Str(s) => s
    case _ => ""
  }

  /** An item of `entities`. */
  datatype Entity = Entity(
    entity: Field, anatomy: Field, certainty: Field, severity: Field, temporal: Field, evidence: Field)

  /** An item of `critical_flags`. */
  datatype Flag = Flag(flag: Field, status: Field, evidence: Field)

  /** The `quality_checks` object; `None` marks an absent member. */
  datatype QualityChecks = QualityChecks(
    jsonValid: Option<bool>, missingSections: Option<seq<string>>, notes: Option<string>)

  /**
   * The extracted record. `study` and `sections` are kept as the JSON text
   * they were given in; an absent `entities` or `critical_flags` list reads
   * as the empty list, as `d.get(key, [])` does.
   */
  datatype Extracted = Extracted(
    study: string, sections: string,
    entities: seq<Entity>, criticalFlags: seq<Flag>,
    qualityChecks: Option<QualityChecks>)
}
