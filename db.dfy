/**
 * The reports table and its queries (utils/db.py), over an in-memory table.
 *
 * The table is a sequence of rows in insertion order; since `id` is an
 * AUTOINCREMENT key that is never reused, this is ascending id order and
 * `ORDER BY id DESC` is the reversed sequence.
 */
module Db {
  import opened Wrappers

  /** A row of `reports`; `None` is SQL NULL. `extracted_json` is the stored JSON text. */
  datatype Row = Row(
    id: nat, owner: string, visibility: string, reportText: string, extractedJson: Option<string>,
    patientView: Option<string>, familyView: Option<string>, urgency: string, createdAt: string)

  /** The `(id, owner, visibility, urgency, created_at)` tuple list_reports_for_user returns. */
  datatype Summary = Summary(id: nat, owner: string, visibility: string, urgency: string, createdAt: string)

  /** The dictionary get_report returns; `extracted` is the JSON text handed to `json.loads`, if any. */
  datatype Detail = Detail(
    id: nat, owner: string, visibility: string, reportText: string, extracted: Option<string>,
    patientView: Option<string>, familyView: Option<string>, urgency: string, createdAt: string)

  /** The `json.JSONDecodeError` that `json.loads` raises on stored text that is not JSON. */
  datatype DecodeError = DecodeError

  /** `json.loads(stored) if stored else None` does not raise: the stored JSON is NULL, empty, or decodes. */
  predicate StoredDecodes(j: Option<string>, decodes: string -> bool) {
    j.None? || j.value == "" || decodes(j.value)
  }

  function Reverse<T>(s: seq<T>): (r: seq<T>)
    ensures |r| == |s| && forall i :: 0 <= i < |s| ==> r[i] == s[|s| - 1 - i]
  {
    if s == [] then [] else [s[|s| - 1]] + Reverse(s[..|s| - 1])
  }

  /** `ORDER BY id DESC` reads the same rows. */
  lemma ReverseSameMembers<T>(s: seq<T>)
    ensures forall x :: x in Reverse(s) <==> x in s
  {
    forall x | x in s ensures x in Reverse(s) {
      var k :| 0 <= k < |s| && s[k] == x;
      assert Reverse(s)[|s| - 1 - k] == x;
    }
  }

  function SummaryOf(r: Row): Summary {
    Summary(r.id, r.owner, r.visibility, r.urgency, r.createdAt)
  }

  /** The MVP visibility rule: the owner sees everything of theirs; anyone sees shared and caregiver reports. */
  predicate CanSee(viewer: string, r: Row) {
    viewer == r.owner || r.visibility in {"SHARED_SUMMARY", "CAREGIVER"}
  }

  /** The rows of `rs` the viewer may see, in the order of `rs`. */
  function VisibleRows(viewer: string, rs: seq<Row>): (v: seq<Row>)
    ensures |v| <= |rs|
    ensures forall r :: r in v <==> r in rs && CanSee(viewer, r)
  {
    if rs == [] then []
    else (if CanSee(viewer, rs[0]) then [rs[0]] else []) + VisibleRows(viewer, rs[1..])
  }

  function Summaries(rs: seq<Row>): seq<Summary> {
    seq(|rs|, i requires 0 <= i < |rs| => SummaryOf(rs[i]))
  }

  predicate IdsAscending(rs: seq<Row>) {
    forall i, j :: 0 <= i < j < |rs| ==> rs[i].id < rs[j].id
  }

  predicate IdsDescending(rs: seq<Row>) {
    forall i, j :: 0 <= i < j < |rs| ==> rs[i].id > rs[j].id
  }

  function IndexOf(rs: seq<Row>, id: nat): (r: Option<nat>)
    ensures r.Some? ==> r.value < |rs| && rs[r.value].id == id
    ensures r.None? ==> forall i :: 0 <= i < |rs| ==> rs[i].id != id
  {
    if rs == [] then None
    else if rs[|rs| - 1].id == id then Some(|rs| - 1)
    else IndexOf(rs[..|rs| - 1], id)
  }

  function DetailOf(r: Row): (d: Detail)
    ensures d.extracted.None? <==> r.extractedJson.None? || r.extractedJson.value == ""
    ensures d.extracted.Some? ==> d.extracted == r.extractedJson
  {
    Detail(r.id, r.owner, r.visibility, r.reportText,
      if r.extractedJson.None? || r.extractedJson.value == "" then None else r.extractedJson,
      r.patientView, r.familyView, r.urgency, r.createdAt)
  }

  class ReportTable {
    var rows: seq<Row>
    var nextId: nat

    /** Ids are ascending and below the next AUTOINCREMENT value, which starts at 1. */
    ghost predicate Valid()
      reads this
    {
      && nextId >= 1
      && IdsAscending(rows)
      && (forall i :: 0 <= i < |rows| ==> 1 <= rows[i].id < nextId)
    }

    constructor ()
      ensures rows == [] && nextId == 1 && Valid()
    {
      rows := [];
      nextId := 1;
    }

    /** list_reports_for_user: the summaries of the rows the viewer may see, newest id first. */
    method ListReportsForUser(viewer: string) returns (visible: seq<Summary>)
      ensures visible == Summaries(VisibleRows(viewer, Reverse(rows)))
    {
      var desc := Reverse(rows);
      visible := [];
      for i := 0 to |desc|
        invariant visible == Summaries(VisibleRows(viewer, desc[..i]))
      {
        var r := desc[i];
        assert desc[..i + 1] == desc[..i] + [r];
        VisibleRowsSnoc(viewer, desc[..i], r);
        SummariesSnoc(VisibleRows(viewer, desc[..i]), r);
        ghost var next := Summaries(VisibleRows(viewer, desc[..i + 1]));
        assert next == visible + (if CanSee(viewer, r) then [SummaryOf(r)] else []);
        if viewer == r.owner {
          visible := visible + [SummaryOf(r)];
        } else {
          if r.visibility in {"SHARED_SUMMARY", "CAREGIVER"} {
            visible := visible + [SummaryOf(r)];
          }
        }
      }
      assert desc[..|desc|] == desc;
    }

    /**
     * get_report: `Ok(None)` for a missing id, otherwise the row's detail;
     * `json.loads` on non-empty stored JSON that does not decode raises,
     * and nothing in get_report catches it.
     */
    method GetReport(id: nat, decodes: string -> bool) returns (d: Result<Option<Detail>, DecodeError>)
      requires Valid()
      ensures d == Ok(None) <==> forall i :: 0 <= i < |rows| ==> rows[i].id != id
      ensures forall i :: 0 <= i < |rows| && rows[i].id == id ==>
        d == (if StoredDecodes(rows[i].extractedJson, decodes) then Ok(Some(DetailOf(rows[i]))) else Err(DecodeError))
    {
      var k := IndexOf(rows, id);
      if k.None? {
        return Ok(None);
      }
      var row := rows[k.value];
      UniqueIdIn(rows, id, k.value);
      if row.extractedJson.Some? && row.extractedJson.value != "" && !decodes(row.extractedJson.value) {
        return Err(DecodeError);
      }
      d := Ok(Some(DetailOf(row)));
    }
  }

  /** With ascending ids, the only row carrying `id` is the one it was found at. */
  lemma UniqueIdIn(rs: seq<Row>, id: nat, k: nat)
    requires k < |rs| && rs[k].id == id
    ensures IdsAscending(rs) ==> forall i :: 0 <= i < |rs| && rs[i].id == id ==> i == k
  {
  }

  lemma SummariesSnoc(rs: seq<Row>, r: Row)
    ensures Summaries(rs + [r]) == Summaries(rs) + [SummaryOf(r)]
  {
  }

  lemma {:induction false} VisibleRowsSnoc(viewer: string, rs: seq<Row>, r: Row)
    ensures VisibleRows(viewer, rs + [r]) == VisibleRows(viewer, rs) + (if CanSee(viewer, r) then [r] else [])
  {
    var t := rs + [r];
    if rs == [] {
      assert t[1..] == [];
    } else {
      assert t[0] == rs[0] && t[1..] == rs[1..] + [r];
      VisibleRowsSnoc(viewer, rs[1..], r);
    }
  }

  /** A row is listed exactly when the viewer may see it (ids are unique, so summaries identify rows). */
  lemma ListedExactly(viewer: string, rows: seq<Row>)
    requires IdsAscending(rows)
    ensures forall i :: 0 <= i < |rows| ==>
      (SummaryOf(rows[i]) in Summaries(VisibleRows(viewer, Reverse(rows))) <==> CanSee(viewer, rows[i]))
  {
    var desc := Reverse(rows);
    var v := VisibleRows(viewer, desc);
    forall i | 0 <= i < |rows|
      ensures SummaryOf(rows[i]) in Summaries(v) <==> CanSee(viewer, rows[i])
    {
      if CanSee(viewer, rows[i]) {
        assert desc[|rows| - 1 - i] == rows[i];
        assert rows[i] in v;
        var j :| 0 <= j < |v| && v[j] == rows[i];
        assert Summaries(v)[j] == SummaryOf(rows[i]);
      }
      if SummaryOf(rows[i]) in Summaries(v) {
        var j :| 0 <= j < |v| && Summaries(v)[j] == SummaryOf(rows[i]);
        assert v[j] in desc;
        var k :| 0 <= k < |desc| && desc[k] == v[j];
        var m := |rows| - 1 - k;
        assert rows[m] == v[j];
        assert rows[m].id == rows[i].id;
        assert m == i;
      }
    }
  }

  /** A viewer always sees the reports they own, PRIVATE ones included; other owners' PRIVATE reports never. */
  lemma OwnerAndPrivate(viewer: string, r: Row)
    ensures r.owner == viewer ==> CanSee(viewer, r)
    ensures r.owner != viewer && r.visibility == "PRIVATE" ==> !CanSee(viewer, r)
  {
  }

  lemma {:induction false} VisibleRowsDescending(viewer: string, rs: seq<Row>)
    requires IdsDescending(rs)
    ensures IdsDescending(VisibleRows(viewer, rs))
  {
    if rs != [] {
      var tl := VisibleRows(viewer, rs[1..]);
      VisibleRowsDescending(viewer, rs[1..]);
      if CanSee(viewer, rs[0]) {
        var v := [rs[0]] + tl;
        forall i, j | 0 <= i < j < |v| ensures v[i].id > v[j].id {
          assert v[j] == tl[j - 1] && tl[j - 1] in rs[1..];
          if i > 0 { assert v[i] == tl[i - 1]; }
          else {
            var k :| 0 <= k < |rs[1..]| && rs[1..][k] == tl[j - 1];
            assert rs[k + 1] == tl[j - 1];
          }
        }
      }
    }
  }

  /** The listing is newest first: ids strictly descending. */
  lemma ListedNewestFirst(viewer: string, rows: seq<Row>)
    requires IdsAscending(rows)
    ensures IdsDescending(Reverse(rows))
    ensures IdsDescending(VisibleRows(viewer, Reverse(rows)))
    ensures forall i, j :: 0 <= i < j < |Summaries(VisibleRows(viewer, Reverse(rows)))| ==>
      Summaries(VisibleRows(viewer, Reverse(rows)))[i].id > Summaries(VisibleRows(viewer, Reverse(rows)))[j].id
  {
    var desc := Reverse(rows);
    assert IdsDescending(desc) by {
      forall i, j | 0 <= i < j < |desc| ensures desc[i].id > desc[j].id {
        assert desc[i] == rows[|rows| - 1 - i] && desc[j] == rows[|rows| - 1 - j];
      }
    }
    VisibleRowsDescending(viewer, desc);
  }
}
