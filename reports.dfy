/**
 * The reports endpoints (backend/app/api/v1/reports.py) over the in-memory
 * reports table: listing with the admin and owner/shared rules, fetching one
 * report, creating a placeholder row, the background processing step that
 * fills it in, and deletion.
 *
 * PII redaction, extraction and the two explanation generators are oracles:
 * the background step receives what they produced as a `Stage` value, and
 * `json.dumps`/`json.loads` are the parameters `dumps` and `decodes`.
 */
module ReportsApi {
  import opened Wrappers
  import opened Text
  import opened Http
  import opened Db
  import opened Schemas
  import opened ExtractedData
  import Triage

  const ListLimit: nat := 100
  const Admin: string := "admin"
  const NotFound: HttpError := HttpError(404, "Report not found")
  /** The framework's answer to an exception the endpoint does not catch. */
  const InternalError: HttpError := HttpError(500, "Internal Server Error")
  const PlaceholderText: string := "[PROCESSING]"
  const InProgressText: string := "[Processing in progress...]"
  const UnknownUrgency: string := "UNKNOWN"
  const ExtractionFailureView: string := "⚠️ Unable to generate explanation due to extraction failure."

  function ErrorView(error: string): string {
    "⚠️ Processing Error: " + error
  }

  /** `LIMIT n`. */
  function Take<T>(s: seq<T>, n: nat): (r: seq<T>)
    ensures |r| <= n && |r| <= |s| && r == s[..|r|]
    ensures |s| <= n ==> r == s
  {
    if |s| <= n then s else s[..n]
  }

  /** The rows the SQL of list_reports orders by `id DESC` before `LIMIT`: all of them for the admin, otherwise the visible ones. */
  function Candidates(viewer: string, rows: seq<Row>): (c: seq<Row>)
    ensures forall r :: r in c <==> r in rows && (viewer == Admin || CanSee(viewer, r))
  {
    ReverseSameMembers(rows);
    if viewer == Admin then Reverse(rows) else VisibleRows(viewer, Reverse(rows))
  }

  /** The rows the SQL of list_reports selects, in result order: the first `ListLimit` candidates. */
  function Selected(viewer: string, rows: seq<Row>): (s: seq<Row>)
    ensures |s| == if |Candidates(viewer, rows)| <= ListLimit then |Candidates(viewer, rows)| else ListLimit
    ensures s == Candidates(viewer, rows)[..|s|]
  {
    Take(Candidates(viewer, rows), ListLimit)
  }

  /** `json.loads(stored) if stored else None`, as JSON text. */
  function StoredJson(j: Option<string>): Option<string> {
    if j.None? || j.value == "" then None else j
  }

  /** The ReportResponse built for a listed row. */
  function ResponseOf(r: Row): ReportResponse {
    ReportResponse(r.id, r.owner, r.visibility, r.urgency, "completed", r.createdAt,
      Some(r.reportText), StoredJson(r.extractedJson), r.patientView, r.familyView)
  }

  /** A row whose non-empty stored JSON does not decode raises inside the loop and is skipped. */
  predicate Decodable(r: Row, decodes: string -> bool) {
    StoredDecodes(r.extractedJson, decodes)
  }

  function Listed(rs: seq<Row>, decodes: string -> bool): (out: seq<ReportResponse>)
    ensures |out| <= |rs|
  {
    if rs == [] then []
    else
      var last := rs[|rs| - 1];
      Listed(rs[..|rs| - 1], decodes) + (if Decodable(last, decodes) then [ResponseOf(last)] else [])
  }

  /** list_reports. */
  method ListReports(t: ReportTable, viewer: string, decodes: string -> bool) returns (result: seq<ReportResponse>)
    ensures result == Listed(Selected(viewer, t.rows), decodes)
  {
    var rows := Selected(viewer, t.rows);
    result := [];
    for i := 0 to |rows|
      invariant result == Listed(rows[..i], decodes)
    {
      assert rows[..i + 1][..i] == rows[..i];
      var row := rows[i];
      if Decodable(row, decodes) {
        result := result + [ResponseOf(row)];
      }
    }
    assert rows[..|rows|] == rows;
  }

  lemma {:induction false} ListedShape(rs: seq<Row>, decodes: string -> bool)
    ensures forall x :: x in Listed(rs, decodes) ==>
      (x.status == "completed" && exists r :: r in rs && Decodable(r, decodes) && x == ResponseOf(r))
    ensures (forall r :: r in rs ==> Decodable(r, decodes)) ==> |Listed(rs, decodes)| == |rs|
    ensures forall r :: r in rs && Decodable(r, decodes) ==> ResponseOf(r) in Listed(rs, decodes)
  {
    if rs != [] {
      var init := rs[..|rs| - 1];
      ListedShape(init, decodes);
      forall r | r in rs && Decodable(r, decodes)
        ensures ResponseOf(r) in Listed(rs, decodes)
      {
        if r != rs[|rs| - 1] {
          var k :| 0 <= k < |rs| && rs[k] == r;
          assert init[k] == r;
        }
      }
      forall x | x in Listed(init, decodes)
        ensures exists r :: r in rs && Decodable(r, decodes) && x == ResponseOf(r)
      {
        var r :| r in init && Decodable(r, decodes) && x == ResponseOf(r);
        assert r in rs;
      }
      assert rs[|rs| - 1] in rs;
      if forall r :: r in rs ==> Decodable(r, decodes) {
        assert forall r :: r in init ==> r in rs;
      }
    }
  }

  /**
   * What list_reports promises: at most 100 responses, all "completed"; an
   * admin gets every row (when there are at most 100 and all decode); any
   * other viewer only rows they own or that are shared.
   */
  lemma ListReportsProps(viewer: string, rows: seq<Row>, decodes: string -> bool)
    ensures |Listed(Selected(viewer, rows), decodes)| <= ListLimit
    ensures forall x :: x in Listed(Selected(viewer, rows), decodes) ==> x.status == "completed"
    ensures viewer == Admin && |rows| <= ListLimit && (forall r :: r in rows ==> Decodable(r, decodes)) ==>
      |Listed(Selected(viewer, rows), decodes)| == |rows|
    ensures viewer != Admin ==> forall x :: x in Listed(Selected(viewer, rows), decodes) ==>
      exists r :: r in rows && CanSee(viewer, r) && x == ResponseOf(r)
  {
    var sel := Selected(viewer, rows);
    var c := Candidates(viewer, rows);
    ListedShape(sel, decodes);
    forall r | r in sel ensures r in rows && (viewer == Admin || CanSee(viewer, r)) {
      var k :| 0 <= k < |sel| && sel[k] == r;
      assert c[k] == r;
    }
    if viewer == Admin && |rows| <= ListLimit {
      assert |c| == |rows|;
    }
  }

  /** Response ids strictly descend: newest first. */
  predicate ResponseIdsDescending(out: seq<ReportResponse>) {
    forall i, j :: 0 <= i < j < |out| ==> out[i].id > out[j].id
  }

  /** Skipping rows keeps the id order of the rows that remain. */
  lemma {:induction false} ListedDescending(rs: seq<Row>, decodes: string -> bool)
    requires IdsDescending(rs)
    ensures ResponseIdsDescending(Listed(rs, decodes))
  {
    if rs != [] {
      var init := rs[..|rs| - 1];
      var last := rs[|rs| - 1];
      ListedDescending(init, decodes);
      ListedShape(init, decodes);
      var head := Listed(init, decodes);
      if Decodable(last, decodes) {
        forall i | 0 <= i < |head| ensures head[i].id > last.id {
          assert head[i] in head;
          var r :| r in init && Decodable(r, decodes) && head[i] == ResponseOf(r);
          var k :| 0 <= k < |init| && init[k] == r;
          assert rs[k] == r;
        }
        SnocDescending(head, ResponseOf(last));
      }
    }
  }

  lemma SnocDescending(head: seq<ReportResponse>, x: ReportResponse)
    requires ResponseIdsDescending(head)
    requires forall i :: 0 <= i < |head| ==> head[i].id > x.id
    ensures ResponseIdsDescending(head + [x])
  {
  }

  /** A prefix of an id-descending sequence holds its highest ids: a row left out is below every row taken, and is left out only at the limit. */
  lemma TakeHighest(c: seq<Row>, n: nat)
    requires IdsDescending(c)
    ensures IdsDescending(Take(c, n))
    ensures forall r :: r in c && r !in Take(c, n) ==>
      |Take(c, n)| == n && forall s :: s in Take(c, n) ==> s.id > r.id
  {
    var t := Take(c, n);
    forall r | r in c && r !in t
      ensures |t| == n && forall s :: s in t ==> s.id > r.id
    {
      var k :| 0 <= k < |c| && c[k] == r;
      forall s | s in t ensures s.id > r.id {
        var j :| 0 <= j < |t| && t[j] == s;
        assert c[j] == s;
      }
    }
  }

  /**
   * What list_reports promises about order and selection, over a table in id
   * order (the table invariant): responses come newest id first; a response
   * is listed exactly for a decodable selected row; and a candidate (any row
   * for the admin, a visible row for anyone else) is left unselected only
   * when `ListLimit` rows with higher ids were selected.
   */
  lemma ListReportsSelection(viewer: string, rows: seq<Row>, decodes: string -> bool)
    requires IdsAscending(rows)
    ensures ResponseIdsDescending(Listed(Selected(viewer, rows), decodes))
    ensures forall x :: x in Listed(Selected(viewer, rows), decodes) <==>
      exists r :: r in Selected(viewer, rows) && Decodable(r, decodes) && x == ResponseOf(r)
    ensures forall r :: r in Selected(viewer, rows) ==> r in Candidates(viewer, rows)
    ensures forall r :: r in Candidates(viewer, rows) && r !in Selected(viewer, rows) ==>
      |Selected(viewer, rows)| == ListLimit && forall s :: s in Selected(viewer, rows) ==> s.id > r.id
  {
    var c := Candidates(viewer, rows);
    ListedNewestFirst(viewer, rows);
    TakeHighest(c, ListLimit);
    ListedDescending(Selected(viewer, rows), decodes);
    ListedShape(Selected(viewer, rows), decodes);
    forall r | r in Selected(viewer, rows) ensures r in c {
      var s := Selected(viewer, rows);
      var k :| 0 <= k < |s| && s[k] == r;
      assert c[k] == r;
    }
  }

  /** The API's admin listing differs from list_reports_for_user: the admin sees another owner's PRIVATE report. */
  lemma AdminSeesOthersPrivate()
    ensures var rows := [Row(1, "alice", "PRIVATE", "text", None, None, None, "LOW", "t")];
      && |Listed(Selected(Admin, rows), _ => true)| == 1
      && Summaries(VisibleRows(Admin, Reverse(rows))) == []
  {
    var rows := [Row(1, "alice", "PRIVATE", "text", None, None, None, "LOW", "t")];
    assert Reverse(rows) == rows;
    assert Selected(Admin, rows) == rows;
    assert Listed(rows, _ => true) == Listed([], _ => true) + [ResponseOf(rows[0])];
    assert VisibleRows(Admin, rows) == [];
  }

  /** The ReportResponse get_report_detail builds from get_report's dictionary. */
  function DetailResponse(d: Detail): ReportResponse {
    ReportResponse(d.id, d.owner, d.visibility, d.urgency, "completed", d.createdAt,
      Some(d.reportText), d.extracted, d.patientView, d.familyView)
  }

  /**
   * get_report_detail: 404 for a missing id; a row whose stored JSON does
   * not decode makes get_report raise, which nothing catches, so FastAPI
   * answers 500; otherwise the row as a "completed" response.
   */
  method GetReportDetail(t: ReportTable, id: nat, decodes: string -> bool) returns (r: Result<ReportResponse, HttpError>)
    requires t.Valid()
    ensures r == Err(NotFound) <==> forall i :: 0 <= i < |t.rows| ==> t.rows[i].id != id
    ensures r.Ok? ==> r.value.status == "completed" && r.value.id == id
    ensures forall i :: 0 <= i < |t.rows| && t.rows[i].id == id ==>
      r == (if Decodable(t.rows[i], decodes) then Ok(DetailResponse(DetailOf(t.rows[i]))) else Err(InternalError))
  {
    var detail := t.GetReport(id, decodes);
    if detail.Err? {
      return Err(InternalError);
    }
    if detail.value.None? {
      return Err(NotFound);
    }
    var i :| 0 <= i < |t.rows| && t.rows[i].id == id;
    r := Ok(DetailResponse(detail.value.value));
  }

  /** A listed row and its detail page show the same response. */
  lemma DetailAgreesWithListing(r: Row, decodes: string -> bool)
    requires Decodable(r, decodes)
    ensures DetailResponse(DetailOf(r)) == ResponseOf(r)
    ensures ResponseOf(r) in Listed([r], decodes)
  {
    assert Listed([r], decodes) == Listed([], decodes) + [ResponseOf(r)];
  }

  /** The arguments create_report schedules the background task with. */
  datatype Task = Task(reportId: nat, reportText: string, owner: string, visibility: string)

  function PlaceholderRow(id: nat, req: ReportCreate, now: string): Row {
    Row(id, req.owner, req.visibility.Value(), PlaceholderText, None, None, None, UnknownUrgency, now)
  }

  /** create_report: inserts the placeholder row under the next id and answers "processing". */
  method CreateReport(t: ReportTable, req: ReportCreate, now: string) returns (resp: ReportResponse, task: Task)
    requires t.Valid()
    modifies t
    ensures t.Valid()
    ensures t.rows == old(t.rows) + [PlaceholderRow(old(t.nextId), req, now)]
    ensures t.nextId == old(t.nextId) + 1
    ensures resp == ReportResponse(old(t.nextId), req.owner, req.visibility.Value(), UnknownUrgency, "processing", now,
      Some(InProgressText), None, None, None)
    ensures task == Task(old(t.nextId), req.reportText, req.owner, req.visibility.Value())
  {
    var id := t.nextId;
    t.rows := t.rows + [PlaceholderRow(id, req, now)];
    t.nextId := id + 1;
    task := Task(id, req.reportText, req.owner, req.visibility.Value());
    resp := ReportResponse(id, req.owner, req.visibility.Value(), UnknownUrgency, "processing", now,
      Some(InProgressText), None, None, None);
  }

  /** The explanations generated for a successful extraction. */
  datatype Explained = Explained(data: Extracted, patientView: string, familyView: string)

  /**
   * How the steps before the database update ended: an exception with its
   * message, or the redacted text with the extraction (absent when it failed)
   * and its explanations.
   */
  datatype Stage = Raised(error: string) | Completed(redacted: string, outcome: Option<Explained>)

  /** The row after the background task's UPDATE. */
  function Processed(r: Row, stage: Stage, dumps: Extracted -> string): (p: Row)
    ensures p.id == r.id && p.owner == r.owner && p.visibility == r.visibility && p.createdAt == r.createdAt
    ensures stage.Raised? ==> p.reportText == r.reportText && p.extractedJson == r.extractedJson && p.urgency == r.urgency
    ensures stage.Completed? ==> p.reportText == stage.redacted
  {
    match stage
    case Raised(e) => r.(patientView := Some(ErrorView(e)), familyView := Some(ErrorView(e)))
    case Completed(redacted, None) =>
      r.(reportText := redacted, extractedJson := None,
         patientView := Some(ExtractionFailureView), familyView := Some(ExtractionFailureView), urgency := UnknownUrgency)
    case Completed(redacted, Some(x)) =>
      r.(reportText := redacted, extractedJson := Some(dumps(x.data)),
         patientView := Some(x.patientView), familyView := Some(x.familyView),
         urgency := Triage.TriageRisk(x.data).urgency.Name())
  }

  /** `UPDATE reports SET ... WHERE id = ?`. */
  function UpdateWhere(rs: seq<Row>, id: nat, stage: Stage, dumps: Extracted -> string): (out: seq<Row>)
    ensures |out| == |rs|
    ensures forall i :: 0 <= i < |rs| ==> out[i] == if rs[i].id == id then Processed(rs[i], stage, dumps) else rs[i]
  {
    seq(|rs|, i requires 0 <= i < |rs| => if rs[i].id == id then Processed(rs[i], stage, dumps) else rs[i])
  }

  /** _process_report_task: the UPDATE of step 5, or the views-only UPDATE after an exception. */
  method ProcessReportTask(t: ReportTable, id: nat, stage: Stage, dumps: Extracted -> string)
    requires t.Valid()
    modifies t
    ensures t.Valid() && t.nextId == old(t.nextId)
    ensures t.rows == UpdateWhere(old(t.rows), id, stage, dumps)
  {
    ghost var updated := UpdateWhere(t.rows, id, stage, dumps);
    assert forall i :: 0 <= i < |updated| ==> updated[i].id == t.rows[i].id;
    match stage
    case Raised(e) =>
      t.rows := UpdateWhere(t.rows, id, stage, dumps);
    case Completed(redacted, outcome) =>
      var urgency, patientView, familyView, stored;
      if outcome.Some? {
        urgency := Triage.TriageRisk(outcome.value.data).urgency.Name();
        patientView, familyView := outcome.value.patientView, outcome.value.familyView;
        stored := Some(dumps(outcome.value.data));
      } else {
        urgency := UnknownUrgency;
        patientView, familyView := ExtractionFailureView, ExtractionFailureView;
        stored := None;
      }
      assert forall r: Row :: Processed(r, stage, dumps) == r.(reportText := redacted, extractedJson := stored,
        patientView := Some(patientView), familyView := Some(familyView), urgency := urgency);
      t.rows := UpdateWhere(t.rows, id, stage, dumps);
  }

  /**
   * The three outcomes of the background step: a failed extraction stores
   * "UNKNOWN" and the fixed failure message in both views; a successful one
   * stores the redacted text and the triage urgency; an exception changes
   * only the two views.
   */
  lemma ProcessedOutcomes(r: Row, stage: Stage, dumps: Extracted -> string)
    ensures stage.Completed? && stage.outcome.None? ==>
      var p := Processed(r, stage, dumps);
      p.urgency == UnknownUrgency && p.patientView == Some(ExtractionFailureView) && p.familyView == Some(ExtractionFailureView)
      && p.extractedJson.None?
    ensures stage.Completed? && stage.outcome.Some? ==>
      var p := Processed(r, stage, dumps);
      p.reportText == stage.redacted && p.urgency in {"ROUTINE", "URGENT", "EMERGENT"}
    ensures stage.Raised? ==>
      var p := Processed(r, stage, dumps);
      p.(patientView := r.patientView, familyView := r.familyView) == r
      && p.patientView == Some(ErrorView(stage.error)) && p.familyView == p.patientView
    ensures Processed(r, stage, dumps).id == r.id && Processed(r, stage, dumps).owner == r.owner
      && Processed(r, stage, dumps).visibility == r.visibility && Processed(r, stage, dumps).createdAt == r.createdAt
  {
  }

  /** Only the row with that id changes; when no row has it, nothing changes. */
  lemma UpdateWhereFrame(rs: seq<Row>, id: nat, stage: Stage, dumps: Extracted -> string)
    ensures forall i :: 0 <= i < |rs| && rs[i].id != id ==> UpdateWhere(rs, id, stage, dumps)[i] == rs[i]
    ensures (forall i :: 0 <= i < |rs| ==> rs[i].id != id) ==> UpdateWhere(rs, id, stage, dumps) == rs
    ensures forall i :: 0 <= i < |rs| ==> UpdateWhere(rs, id, stage, dumps)[i].id == rs[i].id
  {
  }

  /** `DELETE FROM reports WHERE id = ?`. */
  function RemoveId(rs: seq<Row>, id: nat): (out: seq<Row>)
    ensures |out| <= |rs|
    ensures forall r :: r in out <==> r in rs && r.id != id
  {
    if rs == [] then []
    else (if rs[0].id == id then [] else [rs[0]]) + RemoveId(rs[1..], id)
  }

  /** delete_report: 404 when no row has the id, otherwise that row alone is removed. */
  method DeleteReport(t: ReportTable, id: nat) returns (r: Result<string, HttpError>)
    requires t.Valid()
    modifies t
    ensures t.Valid() && t.nextId == old(t.nextId)
    ensures t.rows == RemoveId(old(t.rows), id)
    ensures r.Err? <==> forall i :: 0 <= i < |old(t.rows)| ==> old(t.rows)[i].id != id
    ensures r.Err? ==> r.error == NotFound && t.rows == old(t.rows)
    ensures r.Ok? ==> r.value == "Report " + NatToString(id) + " deleted successfully" && |t.rows| == |old(t.rows)| - 1
  {
    var before := t.rows;
    t.rows := RemoveId(t.rows, id);
    RemoveIdAscending(before, id);
    if forall i :: 0 <= i < |before| ==> before[i].id != id {
      RemoveIdAbsent(before, id);
      return Err(NotFound);
    }
    RemoveIdPresent(before, id);
    r := Ok("Report " + NatToString(id) + " deleted successfully");
  }

  lemma PrependAscending(r: Row, rs: seq<Row>)
    requires IdsAscending(rs)
    requires forall x :: x in rs ==> r.id < x.id
    ensures IdsAscending([r] + rs)
  {
    var v := [r] + rs;
    forall i, j | 0 <= i < j < |v| ensures v[i].id < v[j].id {
      assert v[j] == rs[j - 1];
      if i > 0 { assert v[i] == rs[i - 1]; }
    }
  }

  lemma TailIdsAbove(rs: seq<Row>)
    requires rs != [] && IdsAscending(rs)
    ensures IdsAscending(rs[1..])
    ensures forall x :: x in rs[1..] ==> rs[0].id < x.id
  {
    forall x | x in rs[1..] ensures rs[0].id < x.id {
      var k :| 0 <= k < |rs[1..]| && rs[1..][k] == x;
      assert rs[k + 1] == x;
    }
  }

  lemma NoIdInTail(rs: seq<Row>, id: nat)
    requires rs != [] && forall i :: 1 <= i < |rs| ==> rs[i].id != id
    ensures forall i :: 0 <= i < |rs[1..]| ==> rs[1..][i].id != id
  {
    forall i | 0 <= i < |rs[1..]| ensures rs[1..][i].id != id { assert rs[i + 1] == rs[1..][i]; }
  }

  /** Deleting keeps the rows in id order. */
  lemma {:induction false} RemoveIdAscending(rs: seq<Row>, id: nat)
    requires IdsAscending(rs)
    ensures IdsAscending(RemoveId(rs, id))
  {
    if rs != [] {
      TailIdsAbove(rs);
      RemoveIdAscending(rs[1..], id);
      if rs[0].id != id {
        PrependAscending(rs[0], RemoveId(rs[1..], id));
      }
    }
  }

  /** Deleting an absent id changes nothing. */
  lemma {:induction false} RemoveIdAbsent(rs: seq<Row>, id: nat)
    requires forall i :: 0 <= i < |rs| ==> rs[i].id != id
    ensures RemoveId(rs, id) == rs
  {
    if rs != [] {
      NoIdInTail(rs, id);
      RemoveIdAbsent(rs[1..], id);
    }
  }

  /** Deleting a present id removes exactly one row, since ids are unique. */
  lemma {:induction false} RemoveIdPresent(rs: seq<Row>, id: nat)
    requires IdsAscending(rs)
    requires exists i :: 0 <= i < |rs| && rs[i].id == id
    ensures |RemoveId(rs, id)| == |rs| - 1
  {
    var i :| 0 <= i < |rs| && rs[i].id == id;
    TailIdsAbove(rs);
    if i == 0 {
      NoIdInTail(rs, id);
      RemoveIdAbsent(rs[1..], id);
    } else {
      assert rs[1..][i - 1].id == id;
      RemoveIdPresent(rs[1..], id);
    }
  }
}
