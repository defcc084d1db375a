/**
 * Extraction post-processing (backend/app/services/extractor.py): the
 * evidence check that downgrades entities and critical flags whose evidence
 * is not a verbatim piece of the report, and the two-attempt retry loop of
 * `extract` with its quality-check update.
 *
 * The language model's generation and the JSON decoding with schema
 * validation are oracles given as parameters: `gen(k)` is the text the
 * `k`-th call of `_generate` returns, and `parse(block)` is the decoded
 * record when `loads_json` and `validate` both succeed.
 */
module Extractor {
  import opened Wrappers
  import opened Text
  import opened ExtractedData
  import JsonBlock

  /** `in_report(ev)`: a non-empty string that occurs in the report. */
  predicate InReport(ev: Field, report: string) {
    ev.Str? && ev.s != "" && Contains(report, ev.s)
  }

  function FixEntity(e: Entity, report: string): Entity {
    if InReport(e.evidence, report) then e else e.(certainty := Str("uncertain"), evidence := Str(""))
  }

  function FixFlag(f: Flag, report: string): Flag {
    if InReport(f.evidence, report) then f else f.(status := Str("uncertain"), evidence := Str(""))
  }

  function FixEntities(es: seq<Entity>, report: string): seq<Entity> {
    seq(|es|, i requires 0 <= i < |es| => FixEntity(es[i], report))
  }

  function FixFlags(fs: seq<Flag>, report: string): seq<Flag> {
    seq(|fs|, i requires 0 <= i < |fs| => FixFlag(fs[i], report))
  }

  /** Evidence that is either cleared or a verbatim piece of the report. */
  predicate EvidenceSound(ev: Field, report: string) {
    ev == Str("") || InReport(ev, report)
  }

  /** `_validate_and_fix_evidence` on the record as a whole. */
  function FixEvidence(x: Extracted, report: string): Extracted {
    x.(entities := FixEntities(x.entities, report), criticalFlags := FixFlags(x.criticalFlags, report))
  }

  /**
   * `_validate_and_fix_evidence`: rewrites, in place, every entity and every
   * critical flag whose evidence is not in the report.
   */
  method ValidateAndFixEvidence(entities: array<Entity>, flags: array<Flag>, report: string)
    modifies entities, flags
    ensures entities[..] == FixEntities(old(entities[..]), report)
    ensures flags[..] == FixFlags(old(flags[..]), report)
  {
    for i := 0 to entities.Length
      invariant forall k :: 0 <= k < i ==> entities[k] == FixEntity(old(entities[k]), report)
      invariant forall k :: i <= k < entities.Length ==> entities[k] == old(entities[k])
      invariant flags[..] == old(flags[..])
    {
      var e := entities[i];
      if !InReport(e.evidence, report) {
        entities[i] := e.(certainty := Str("uncertain"), evidence := Str(""));
      }
    }
    for i := 0 to flags.Length
      invariant forall k :: 0 <= k < entities.Length ==> entities[k] == FixEntity(old(entities[k]), report)
      invariant forall k :: 0 <= k < i ==> flags[k] == FixFlag(old(flags[k]), report)
      invariant forall k :: i <= k < flags.Length ==> flags[k] == old(flags[k])
    {
      var f := flags[i];
      if !InReport(f.evidence, report) {
        flags[i] := f.(status := Str("uncertain"), evidence := Str(""));
      }
    }
  }

  /**
   * What the fix does to each entity: one whose evidence is in the report is
   * kept as it is; any other is downgraded to "uncertain" with its evidence
   * cleared; the list keeps its length and order and every other member.
   */
  lemma FixEntitiesEffect(es: seq<Entity>, report: string)
    ensures |FixEntities(es, report)| == |es|
    ensures forall i :: 0 <= i < |es| ==> (
      var r := FixEntities(es, report)[i];
      && (InReport(es[i].evidence, report) ==> r == es[i])
      && (!InReport(es[i].evidence, report) ==> r.certainty == Str("uncertain") && r.evidence == Str(""))
      && r.entity == es[i].entity && r.anatomy == es[i].anatomy
      && r.severity == es[i].severity && r.temporal == es[i].temporal)
  {
  }

  /** The same for the critical flags. */
  lemma FixFlagsEffect(fs: seq<Flag>, report: string)
    ensures |FixFlags(fs, report)| == |fs|
    ensures forall i :: 0 <= i < |fs| ==> (
      var r := FixFlags(fs, report)[i];
      && (InReport(fs[i].evidence, report) ==> r == fs[i])
      && (!InReport(fs[i].evidence, report) ==> r.status == Str("uncertain") && r.evidence == Str(""))
      && r.flag == fs[i].flag)
  {
  }

  /** After the fix every evidence is cleared or a non-empty piece of the report. */
  lemma FixEvidenceSound(x: Extracted, report: string)
    ensures forall e :: e in FixEvidence(x, report).entities ==> EvidenceSound(e.evidence, report)
    ensures forall f :: f in FixEvidence(x, report).criticalFlags ==> EvidenceSound(f.evidence, report)
  {
    var y := FixEvidence(x, report);
    forall e | e in y.entities ensures EvidenceSound(e.evidence, report) {
      var i :| 0 <= i < |y.entities| && y.entities[i] == e;
      assert e == FixEntity(x.entities[i], report);
    }
    forall f | f in y.criticalFlags ensures EvidenceSound(f.evidence, report) {
      var i :| 0 <= i < |y.criticalFlags| && y.criticalFlags[i] == f;
      assert f == FixFlag(x.criticalFlags[i], report);
    }
  }

  /** Applying the fix twice equals applying it once. */
  lemma FixEvidenceIdempotent(x: Extracted, report: string)
    ensures FixEvidence(FixEvidence(x, report), report) == FixEvidence(x, report)
  {
    var y := FixEvidence(x, report);
    assert !InReport(Str(""), report);
    assert FixEntities(y.entities, report) == y.entities;
    assert FixFlags(y.criticalFlags, report) == y.criticalFlags;
  }

  /** The quality-check update: `json_valid` set, the two other members defaulted only when absent. */
  function UpdateQualityChecks(qc: Option<QualityChecks>): (r: QualityChecks)
    ensures r.jsonValid == Some(true)
    ensures qc.Some? && qc.value.missingSections.Some? ==> r.missingSections == qc.value.missingSections
    ensures (qc.None? || qc.value.missingSections.None?) ==> r.missingSections == Some([])
    ensures qc.Some? && qc.value.notes.Some? ==> r.notes == qc.value.notes
    ensures (qc.None? || qc.value.notes.None?) ==> r.notes == Some("")
  {
    var q := qc.GetOr(QualityChecks(None, None, None));
    QualityChecks(
      Some(true),
      if q.missingSections.None? then Some([]) else q.missingSections,
      if q.notes.None? then Some("") else q.notes)
  }

  /** What one attempt yields once the block locator has returned `block`. */
  function AttemptOn(block: Option<string>, report: string, parse: string -> Option<Extracted>): (r: Option<Extracted>)
    ensures r.Some? <==> block.Some? && block.value != "" && parse(block.value).Some?
    ensures r.Some? ==> r.value.qualityChecks.Some? && r.value.qualityChecks.value.jsonValid == Some(true)
    ensures r.Some? ==>
      && (forall e :: e in r.value.entities ==> EvidenceSound(e.evidence, report))
      && (forall f :: f in r.value.criticalFlags ==> EvidenceSound(f.evidence, report))
  {
    if block.None? || block.value == "" then None
    else
      match parse(block.value)
      case None => None
      case Some(d) =>
        FixEvidenceSound(d, report);
        var y := FixEvidence(d, report);
        Some(y.(qualityChecks := Some(UpdateQualityChecks(d.qualityChecks))))
  }

  /** What one attempt yields for the raw generation `raw`. */
  function Attempt(raw: string, report: string, parse: string -> Option<Extracted>): Option<Extracted> {
    AttemptOn(JsonBlock.ExtractJsonBlock(raw), report, parse)
  }

  /** A successful attempt carries `json_valid` True and evidence that is cleared or in the report. */
  lemma AttemptSuccess(raw: string, report: string, parse: string -> Option<Extracted>)
    requires Attempt(raw, report, parse).Some?
    ensures var d := Attempt(raw, report, parse).value;
      && d.qualityChecks.Some? && d.qualityChecks.value.jsonValid == Some(true)
      && (forall e :: e in d.entities ==> EvidenceSound(e.evidence, report))
      && (forall f :: f in d.criticalFlags ==> EvidenceSound(f.evidence, report))
  {
    var block := JsonBlock.ExtractJsonBlock(raw);
    FixEvidenceSound(parse(block.value).value, report);
  }

  /** The success path of one attempt: the in-place evidence fix, then the quality-check update. */
  method FixAndCheck(d: Extracted, report: string) returns (r: Extracted)
    ensures r == FixEvidence(d, report).(qualityChecks := Some(UpdateQualityChecks(d.qualityChecks)))
  {
    var entities := new Entity[|d.entities|](i requires 0 <= i < |d.entities| => d.entities[i]);
    var flags := new Flag[|d.criticalFlags|](i requires 0 <= i < |d.criticalFlags| => d.criticalFlags[i]);
    assert entities[..] == d.entities && flags[..] == d.criticalFlags;
    ValidateAndFixEvidence(entities, flags, report);
    var qc := d.qualityChecks.GetOr(QualityChecks(None, None, None));
    qc := qc.(jsonValid := Some(true));
    if qc.missingSections.None? {
      qc := qc.(missingSections := Some([]));
    }
    if qc.notes.None? {
      qc := qc.(notes := Some(""));
    }
    r := d.(entities := entities[..], criticalFlags := flags[..], qualityChecks := Some(qc));
  }

  /** The body of the retry loop for one generation: locate, decode and validate, then fix up. */
  method TryAttempt(locate: string -> Option<string>, raw: string, report: string, parse: string -> Option<Extracted>) returns (r: Option<Extracted>)
    ensures r == AttemptOn(locate(raw), report, parse)
  {
    var block := locate(raw);
    if block.None? || block.value == "" {
      return None;
    }
    var parsed := parse(block.value);
    if parsed.None? {
      return None;
    }
    var d := FixAndCheck(parsed.value, report);
    r := Some(d);
  }

  /**
   * The retry loop of extract, for a block locator `locate`: at most two
   * generations; the first attempt whose block decodes and validates is
   * fixed up and returned with its raw text; when both fail the result is
   * absent, with the second generation's text.
   */
  method ExtractLoop(locate: string -> Option<string>, report: string, gen: nat -> string, parse: string -> Option<Extracted>)
    returns (data: Option<Extracted>, raw: string, calls: nat)
    ensures 1 <= calls <= 2 && raw == gen(calls)
    ensures calls == 1 <==> AttemptOn(locate(gen(1)), report, parse).Some?
    ensures data == AttemptOn(locate(raw), report, parse)
  {
    var attempt := 1;
    data, raw, calls := None, "", 0;
    while attempt <= 2
      invariant 1 <= attempt <= 3 && calls == attempt - 1
      invariant calls > 0 ==> raw == gen(calls)
      invariant data.None?
      invariant forall k :: 1 <= k < attempt ==> AttemptOn(locate(gen(k)), report, parse).None?
    {
      raw := gen(attempt);
      calls := attempt;
      data := TryAttempt(locate, raw, report, parse);
      if data.Some? {
        return;
      }
      attempt := attempt + 1;
    }
  }

  /** extract, with the repository's block locator extract_json_block. */
  method Extract(report: string, gen: nat -> string, parse: string -> Option<Extracted>)
    returns (data: Option<Extracted>, raw: string, calls: nat)
    ensures 1 <= calls <= 2 && raw == gen(calls)
    ensures calls == 1 <==> Attempt(gen(1), report, parse).Some?
    ensures data == Attempt(raw, report, parse)
  {
    data, raw, calls := ExtractLoop(JsonBlock.ExtractJsonBlock, report, gen, parse);
  }
}
