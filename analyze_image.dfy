/**
 * The image analysis page (frontend/src/app/analyze-image/page.tsx): the
 * file checks on selection, the analyse call with its guard and outcomes,
 * reset, and the labels of the quick-prompt buttons.
 *
 * The selected file is described by its MIME type and size; the preview the
 * page reads asynchronously with FileReader is not modelled, so selecting a
 * file leaves `preview` as it was. The awaited call splits handleAnalyze into
 * `BeginAnalyze` and `SettleAnalyze`.
 */
module AnalyzeImage {
  import opened Wrappers
  import opened Text
  import opened PageErrors

  const MaxImageBytes: nat := 10 * 1024 * 1024
  const DefaultPrompt: string := "Describe this medical image in detail"
  const NotImageError: string := "Please select an image file"
  const TooLargeError: string := "Image file is too large. Maximum size is 10MB."
  const NoFileError: string := "Please select an image first"
  const DefaultAnalyzeError: string := "Failed to analyze image. Please try again."
  const LabelLimit: nat := 30

  const PredefinedPrompts: seq<string> := [
    "Describe this medical image in detail",
    "What are the key findings in this X-ray?",
    "Is there anything abnormal in this image?",
    "Describe the anatomy visible in this image"
  ]

  datatype ImageFile = ImageFile(name: string, mimeType: string, size: nat)

  datatype AnalyzeRequest = AnalyzeRequest(file: ImageFile, prompt: string)

  datatype AnalyzeOutcome = Analyzed(analysis: string, processingTimeMs: real) | Failed(detail: Option<string>, message: Option<string>)

  /** The checks handleFileSelect makes, in order: the MIME type first, then the size. */
  function FileError(file: ImageFile): (r: Option<string>)
    ensures !StartsWith(file.mimeType, "image/") ==> r == Some(NotImageError)
    ensures StartsWith(file.mimeType, "image/") && file.size > MaxImageBytes ==> r == Some(TooLargeError)
    ensures r.None? <==> StartsWith(file.mimeType, "image/") && file.size <= MaxImageBytes
  {
    if !StartsWith(file.mimeType, "image/") then Some(NotImageError)
    else if file.size > MaxImageBytes then Some(TooLargeError)
    else None
  }

  /** Exactly 10 MiB is accepted and one byte more is not; a non-image of any size is refused for its type. */
  lemma FileErrorBoundary(name: string, mimeType: string)
    ensures StartsWith(mimeType, "image/") ==> FileError(ImageFile(name, mimeType, 10485760)).None?
    ensures StartsWith(mimeType, "image/") ==> FileError(ImageFile(name, mimeType, 10485761)) == Some(TooLargeError)
    ensures !StartsWith(mimeType, "image/") ==> FileError(ImageFile(name, mimeType, 10485761)) == Some(NotImageError)
  {
  }

  /** The text of a quick-prompt button. */
  function QuickPromptLabel(prompt: string): (r: string)
    ensures |prompt| <= LabelLimit ==> r == prompt
    ensures |prompt| > LabelLimit ==> |r| == LabelLimit + 3 && r[..LabelLimit] == prompt[..LabelLimit] && r[LabelLimit..] == "..."
  {
    if |prompt| > LabelLimit then prompt[..LabelLimit] + "..." else prompt
  }

  /** Every predefined prompt is longer than 30 characters, so every button shows a shortened label. */
  lemma PredefinedLabelsShortened()
    ensures forall k :: 0 <= k < |PredefinedPrompts| ==>
      QuickPromptLabel(PredefinedPrompts[k]) == PredefinedPrompts[k][..LabelLimit] + "..."
  {
    assert |PredefinedPrompts[0]| == 37 && |PredefinedPrompts[1]| == 40;
    assert |PredefinedPrompts[2]| == 41 && |PredefinedPrompts[3]| == 42;
  }

  class AnalyzeImagePage {
    var selectedFile: Option<ImageFile>
    var preview: Option<string>
    var prompt: string
    var analysis: Option<string>
    var isAnalyzing: bool
    var error: Option<string>
    var processingTime: Option<real>

    constructor ()
      ensures selectedFile.None? && preview.None? && prompt == DefaultPrompt && analysis.None?
      ensures !isAnalyzing && error.None? && processingTime.None?
    {
      selectedFile, preview, prompt, analysis := None, None, DefaultPrompt, None;
      isAnalyzing, error, processingTime := false, None, None;
    }

    /** handleFileSelect: no file changes nothing; a refused file only sets the error; an accepted file is selected. */
    method FileSelect(file: Option<ImageFile>)
      modifies this
      ensures file.None? ==> unchanged(this)
      ensures file.Some? && FileError(file.value).Some? ==>
        error == FileError(file.value) && selectedFile == old(selectedFile) && preview == old(preview)
      ensures file.Some? && FileError(file.value).None? ==> selectedFile == file && error.None? && preview == old(preview)
      ensures prompt == old(prompt) && analysis == old(analysis) && isAnalyzing == old(isAnalyzing)
      ensures processingTime == old(processingTime)
    {
      if file.None? {
        return;
      }
      var f := file.value;
      if !StartsWith(f.mimeType, "image/") {
        error := Some(NotImageError);
        return;
      }
      if f.size > MaxImageBytes {
        error := Some(TooLargeError);
        return;
      }
      selectedFile := Some(f);
      error := None;
    }

    /** handleAnalyze up to the call: without a file only the error is set; otherwise the old results are cleared. */
    method BeginAnalyze() returns (request: Option<AnalyzeRequest>)
      modifies this
      ensures selectedFile == old(selectedFile) && preview == old(preview) && prompt == old(prompt)
      ensures old(selectedFile).None? ==>
        request.None? && error == Some(NoFileError) && analysis == old(analysis)
        && isAnalyzing == old(isAnalyzing) && processingTime == old(processingTime)
      ensures old(selectedFile).Some? ==>
        request == Some(AnalyzeRequest(old(selectedFile).value, old(prompt)))
        && isAnalyzing && error.None? && analysis.None? && processingTime.None?
    {
      if selectedFile.None? {
        error := Some(NoFileError);
        return None;
      }
      isAnalyzing := true;
      error := None;
      analysis := None;
      processingTime := None;
      request := Some(AnalyzeRequest(selectedFile.value, prompt));
    }

    /** handleAnalyze after the call: the result or the error is shown, and analysing ends either way. */
    method SettleAnalyze(outcome: AnalyzeOutcome)
      modifies this
      ensures selectedFile == old(selectedFile) && preview == old(preview) && prompt == old(prompt) && !isAnalyzing
      ensures outcome.Analyzed? ==>
        analysis == Some(outcome.analysis) && processingTime == Some(outcome.processingTimeMs) && error == old(error)
      ensures outcome.Failed? ==>
        error == Some(ErrorText(outcome.detail, outcome.message, DefaultAnalyzeError))
        && analysis == old(analysis) && processingTime == old(processingTime)
    {
      match outcome {
        case Analyzed(a, t) =>
          analysis := Some(a);
          processingTime := Some(t);
        case Failed(detail, message) =>
          error := Some(ErrorText(detail, message, DefaultAnalyzeError));
      }
      isAnalyzing := false;
    }

    /** handleReset: everything but the prompt (and the analysing flag) is cleared. */
    method Reset()
      modifies this
      ensures selectedFile.None? && preview.None? && analysis.None? && error.None? && processingTime.None?
      ensures prompt == old(prompt) && isAnalyzing == old(isAnalyzing)
    {
      selectedFile := None;
      preview := None;
      analysis := None;
      error := None;
      processingTime := None;
    }

    /** A quick-prompt button sets the prompt. */
    method ChoosePrompt(p: string)
      modifies this
      ensures prompt == p
      ensures selectedFile == old(selectedFile) && preview == old(preview) && analysis == old(analysis)
      ensures isAnalyzing == old(isAnalyzing) && error == old(error) && processingTime == old(processingTime)
    {
      prompt := p;
    }
  }
}
