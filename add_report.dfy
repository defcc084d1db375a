/**
 * The report submission page (frontend/src/app/add/page.tsx): form defaults,
 * the blank-text guard, the create call's two outcomes and the controls that
 * are disabled while a submission is pending or has succeeded.
 *
 * The awaited create call splits handleSubmit in two: `BeginSubmit` runs up
 * to the call and returns the request it sends (none when the guard stops
 * it), `Settle` runs once the call has answered or failed. The delayed
 * navigation is returned as an intent value.
 */
module AddReport {
  import opened Wrappers
  import opened Text
  import opened PageErrors

  const DefaultOwner: string := "alice"
  const DefaultVisibility: string := "SHARED_SUMMARY"
  const BlankTextError: string := "Please paste your medical report text before submitting."
  const DefaultCreateError: string := "Failed to create report. Please try again."
  const RedirectDelayMs: nat := 2000

  datatype CreateRequest = CreateRequest(owner: string, visibility: string, reportText: string)

  /** A navigation scheduled with setTimeout. */
  datatype Redirect = Redirect(path: string, delayMs: nat)

  datatype CreateOutcome = Created(id: nat) | Failed(detail: Option<string>, message: Option<string>)

  /** `!text.trim()`. */
  predicate Blank(text: string) {
    JsTrim(text) == ""
  }

  const ReportsPrefix: string := "/reports/"

  /** The detail page of report `id`: the prefix, then digits that read back as `id`. */
  function ReportPath(id: nat): (r: string)
    ensures |ReportsPrefix| < |r| && r[..|ReportsPrefix|] == ReportsPrefix
    ensures var digits := r[|ReportsPrefix|..];
      (forall i :: 0 <= i < |digits| ==> '0' <= digits[i] <= '9') && DecimalValue(digits) == id
  {
    NatToStringValue(id);
    var r := ReportsPrefix + NatToString(id);
    assert r[|ReportsPrefix|..] == NatToString(id);
    r
  }

  class AddReportPage {
    var owner: string
    var visibility: string
    var reportText: string
    var isSubmitting: bool
    var error: Option<string>
    var success: bool

    constructor ()
      ensures owner == DefaultOwner && visibility == DefaultVisibility && reportText == ""
      ensures !isSubmitting && error.None? && !success
    {
      owner, visibility, reportText := DefaultOwner, DefaultVisibility, "";
      isSubmitting, error, success := false, None, false;
    }

    /** The Submit and Cancel buttons' `disabled`. */
    predicate ControlsDisabled()
      reads this
    {
      isSubmitting || success
    }

    /** handleSubmit up to the create call: the previous error is cleared first, a blank text stops here. */
    method BeginSubmit() returns (request: Option<CreateRequest>)
      modifies this
      ensures owner == old(owner) && visibility == old(visibility) && reportText == old(reportText) && success == old(success)
      ensures Blank(old(reportText)) ==> request.None? && error == Some(BlankTextError) && isSubmitting == old(isSubmitting)
      ensures !Blank(old(reportText)) ==>
        request == Some(CreateRequest(owner, visibility, reportText)) && error.None? && isSubmitting
    {
      var text := reportText;
      error := None;
      if JsTrim(text) == "" {
        error := Some(BlankTextError);
        return None;
      }
      isSubmitting := true;
      request := Some(CreateRequest(owner, visibility, reportText));
    }

    /** handleSubmit after the call: success schedules the redirect, failure shows the error; submitting ends either way. */
    method Settle(outcome: CreateOutcome) returns (redirect: Option<Redirect>)
      modifies this
      ensures owner == old(owner) && visibility == old(visibility) && reportText == old(reportText)
      ensures !isSubmitting
      ensures outcome.Created? ==>
        success && error == old(error) && redirect == Some(Redirect(ReportPath(outcome.id), RedirectDelayMs))
      ensures outcome.Failed? ==>
        success == old(success) && redirect.None? && error == Some(ErrorText(outcome.detail, outcome.message, DefaultCreateError))
    {
      match outcome {
        case Created(id) =>
          success := true;
          redirect := Some(Redirect(ReportPath(id), RedirectDelayMs));
        case Failed(detail, message) =>
          error := Some(ErrorText(detail, message, DefaultCreateError));
          redirect := None;
      }
      isSubmitting := false;
    }
  }

  /** A text of whitespace only is blank; a text with a visible character is not. */
  lemma BlankIff(text: string)
    ensures Blank(text) <==> forall i :: 0 <= i < |text| ==> JsIsSpace(text[i])
  {
    StripEmptyIff(text, JsIsSpace);
  }
}
