/**
 * The dashboard figures of the home page (frontend/src/app/page.tsx): the
 * metric counts over the fetched reports, which may not have arrived yet, and
 * the pluralised report count.
 */
module HomeMetrics {
  import opened Wrappers
  import opened Text
  import opened Schemas

  datatype Metrics = Metrics(total: nat, urgent: nat, routine: nat, shared: nat)

  /** `s.filter(p).length`. */
  function Count<T>(s: seq<T>, p: T -> bool): (n: nat)
    ensures n <= |s|
  {
    if s == [] then 0 else Count(s[..|s| - 1], p) + (if p(s[|s| - 1]) then 1 else 0)
  }

  predicate IsUrgent(r: ReportResponse) { r.urgency == "HIGH" || r.urgency == "EMERGENCY" }
  predicate IsRoutine(r: ReportResponse) { r.urgency == "LOW" }
  predicate IsShared(r: ReportResponse) { r.visibility != "PRIVATE" }

  /** The `metrics` object; `reports?.… || 0` is 0 while the reports are undefined. */
  function MetricsOf(reports: Option<seq<ReportResponse>>): (m: Metrics)
    ensures m.urgent + m.routine <= m.total && m.shared <= m.total
    ensures m.total == if reports.None? then 0 else |reports.value|
  {
    match reports
    case None => Metrics(0, 0, 0, 0)
    case Some(rs) =>
      CountDisjoint(rs, IsUrgent, IsRoutine);
      Metrics(|rs|, Count(rs, IsUrgent), Count(rs, IsRoutine), Count(rs, IsShared))
  }

  /** Reports matching one of two exclusive tests are counted at most once. */
  lemma {:induction false} CountDisjoint<T>(s: seq<T>, p: T -> bool, q: T -> bool)
    requires forall x :: !(p(x) && q(x))
    ensures Count(s, p) + Count(s, q) <= |s|
  {
    if s != [] {
      CountDisjoint(s[..|s| - 1], p, q);
    }
  }

  /** A test that holds of every report counts them all. */
  lemma {:induction false} CountAll<T>(s: seq<T>, p: T -> bool)
    requires forall i :: 0 <= i < |s| ==> p(s[i])
    ensures Count(s, p) == |s|
  {
    if s != [] {
      CountAll(s[..|s| - 1], p);
    }
  }

  /** urgent + routine never exceeds total, nor does shared; without reports every figure is 0. */
  lemma MetricsBounds(reports: Option<seq<ReportResponse>>)
    ensures var m := MetricsOf(reports);
      m.urgent + m.routine <= m.total && m.shared <= m.total
    ensures reports.None? ==> MetricsOf(reports) == Metrics(0, 0, 0, 0)
    ensures reports.Some? ==> MetricsOf(reports).total == |reports.value|
  {
    if reports.Some? {
      CountDisjoint(reports.value, IsUrgent, IsRoutine);
    }
  }

  /** When no report is PRIVATE, every report counts as shared. */
  lemma AllSharedWithoutPrivate(rs: seq<ReportResponse>)
    requires forall i :: 0 <= i < |rs| ==> rs[i].visibility != "PRIVATE"
    ensures MetricsOf(Some(rs)).shared == |rs|
  {
    CountAll(rs, IsShared);
  }

  /** The "N report(s) found" line. */
  function CountLabel(reports: Option<seq<ReportResponse>>): (r: string)
    ensures r == "1 report found" <==> MetricsOf(reports).total == 1
  {
    var n := MetricsOf(reports).total;
    assert n == 1 ==> NatToString(n) == "1";
    NatToString(n) + " report" + (if n != 1 then "s" else "") + " found"
  }

  /** The plural "s" is added unless exactly one report was fetched. */
  lemma CountLabelPlural(reports: Option<seq<ReportResponse>>)
    ensures MetricsOf(reports).total == 1 ==> CountLabel(reports) == "1 report found"
    ensures MetricsOf(reports).total != 1 ==> CountLabel(reports) == NatToString(MetricsOf(reports).total) + " reports found"
  {
    var n := MetricsOf(reports).total;
    if n == 1 {
      assert NatToString(1) == "1";
    }
  }
}
