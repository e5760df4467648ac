/** The page state of the application: the four section visibility flags, the text of the
    error element and the two global slots, with the operations that update them in place. */
module CalorieApp {
  import opened Wrappers
  import opened Strings
  import opened FileValidation
  import opened Readiness
  import opened AnalysisResults
  import opened Messages
  import opened Analysis
  import opened Clipboard

  datatype Section = Preview | Loading | Result | Error

  class App {
    var previewVisible: bool
    var loadingVisible: bool
    var resultVisible: bool
    var errorVisible: bool
    /** The text content of the error element. */
    var errorText: string
    /** `currentImageData`: the staged image as a data URI. */
    var currentImageData: Option<string>
    /** `analysisResult`: the last result, if any. */
    var analysisResult: Option<AnalysisResult>

    /** The sections whose display is "block". */
    function VisibleSections(): set<Section>
      reads this
    {
      (if previewVisible then {Preview} else {})
      + (if loadingVisible then {Loading} else {})
      + (if resultVisible then {Result} else {})
      + (if errorVisible then {Error} else {})
    }

    predicate AtMostOneVisible()
      reads this
    {
      |VisibleSections()| <= 1
    }

    /** `currentImageData` is truthy. */
    predicate HasImage()
      reads this
    {
      currentImageData.Some? && currentImageData.value != ""
    }

    /** The page once loaded: no slot is set and every section is hidden. */
    constructor ()
      ensures VisibleSections() == {}
      ensures currentImageData == None && analysisResult == None && errorText == ""
    {
      currentImageData := None;
      analysisResult := None;
      errorText := "";
      previewVisible := false;
      loadingVisible := false;
      resultVisible := false;
      errorVisible := false;
    }

    method HideAllSections()
      modifies this`previewVisible, this`loadingVisible, this`resultVisible, this`errorVisible
      ensures VisibleSections() == {}
    {
      previewVisible := false;
      loadingVisible := false;
      resultVisible := false;
      errorVisible := false;
    }

    method ShowPreview()
      modifies this`previewVisible, this`loadingVisible, this`resultVisible, this`errorVisible
      ensures VisibleSections() == {Preview}
    {
      HideAllSections();
      previewVisible := true;
    }

    method ShowLoading()
      modifies this`previewVisible, this`loadingVisible, this`resultVisible, this`errorVisible
      ensures VisibleSections() == {Loading}
    {
      HideAllSections();
      loadingVisible := true;
    }

    /** Hides the loading section and touches nothing else. */
    method HideLoading()
      modifies this`loadingVisible
      ensures VisibleSections() == old(VisibleSections()) - {Loading}
      ensures old(AtMostOneVisible()) ==> AtMostOneVisible()
    {
      loadingVisible := false;
    }

    method ShowResult()
      modifies this`previewVisible, this`loadingVisible, this`resultVisible, this`errorVisible
      ensures VisibleSections() == {Result}
    {
      HideAllSections();
      resultVisible := true;
    }

    /** Shows only the error section, with `message` completed as `ComposeErrorMessage` says;
        `debug` is `None` unless debug mode is on. */
    method ShowError(message: string, debug: Option<Diagnostics>)
      modifies this`previewVisible, this`loadingVisible, this`resultVisible, this`errorVisible, this`errorText
      ensures VisibleSections() == {Error}
      ensures errorText == ComposeErrorMessage(message, debug)
    {
      HideAllSections();
      errorText := ComposeErrorMessage(message, debug);
      errorVisible := true;
    }

    /** Clears both slots and hides every section. */
    method ResetApp()
      modifies this`previewVisible, this`loadingVisible, this`resultVisible, this`errorVisible,
               this`currentImageData, this`analysisResult
      ensures currentImageData == None && analysisResult == None
      ensures VisibleSections() == {}
    {
      currentImageData := None;
      analysisResult := None;
      HideAllSections();
    }

    /** `handleFileSelect` up to the point where reading starts. Returns whether the file is
        handed to the reader; a rejected file shows its error, and nothing else changes. */
    method SelectFile(file: Option<FileInfo>, debug: Option<Diagnostics>) returns (readStarted: bool)
      modifies this`previewVisible, this`loadingVisible, this`resultVisible, this`errorVisible, this`errorText
      ensures readStarted <==> file.Some? && ValidateFile(file.value) == Accepted
      ensures file.None? || readStarted ==>
                VisibleSections() == old(VisibleSections()) && errorText == old(errorText)
      ensures file.Some? && ValidateFile(file.value) == TooLarge ==>
                VisibleSections() == {Error} && errorText == ComposeErrorMessage(FileTooLargeMessage, debug)
      ensures file.Some? && ValidateFile(file.value) == NotAnImage ==>
                VisibleSections() == {Error} && errorText == ComposeErrorMessage(NotAnImageMessage, debug)
    {
      readStarted := false;
      if file.None? {
        return;
      }
      match ValidateFile(file.value) {
        case TooLarge =>
          ShowError(FileTooLargeMessage, debug);
        case NotAnImage =>
          ShowError(NotAnImageMessage, debug);
        case Accepted =>
          readStarted := true;
      }
    }

    /** The image's onload callback: stages the encoded image and shows the preview. */
    method ImageLoaded(encoded: string)
      modifies this`previewVisible, this`loadingVisible, this`resultVisible, this`errorVisible,
               this`currentImageData
      ensures currentImageData == Some(encoded)
      ensures VisibleSections() == {Preview}
    {
      currentImageData := Some(encoded);
      ShowPreview();
    }

    /** The reader's onerror callback. */
    method ReadFailed(debug: Option<Diagnostics>)
      modifies this`previewVisible, this`loadingVisible, this`resultVisible, this`errorVisible, this`errorText
      ensures VisibleSections() == {Error}
      ensures errorText == ComposeErrorMessage(ReadFailedMessage, debug)
    {
      ShowError(ReadFailedMessage, debug);
    }

    /** `displayResult`, apart from rendering: shows the result section when there is a
        result, and otherwise does nothing. */
    method DisplayResult()
      modifies this`previewVisible, this`loadingVisible, this`resultVisible, this`errorVisible
      ensures analysisResult.Some? ==> VisibleSections() == {Result}
      ensures analysisResult.None? ==> VisibleSections() == old(VisibleSections())
    {
      if analysisResult.None? {
        return;
      }
      ShowResult();
    }

    /** `analyzeImage`. `keys` are the key values the readiness poll observes, `response` the
        outcome of the one network call, `parse` stands for `JSON.parse`. Returns how many
        times the key was checked and the request sent, if any. */
    method AnalyzeImage(keys: seq<Option<string>>, response: FetchOutcome,
                        parse: string -> Option<AnalysisResult>, debug: Option<Diagnostics>)
      returns (checks: nat, request: Option<Request>)
      requires |keys| >= MaxAttempts
      modifies this
      ensures currentImageData == old(currentImageData)
      ensures request.Some? <==> old(HasImage()) && BecomesReady(keys)
      // no staged image: an error, and neither a key check nor a request
      ensures !old(HasImage()) ==>
                checks == 0 && analysisResult == old(analysisResult)
                && VisibleSections() == {Error} && errorText == ComposeErrorMessage(NoImageMessage, debug)
      // no valid key within the poll: an error after every check, and no request
      ensures old(HasImage()) ==> 1 <= checks <= MaxAttempts
      ensures old(HasImage()) && !BecomesReady(keys) ==>
                checks == MaxAttempts && analysisResult == old(analysisResult)
                && VisibleSections() == {Error} && errorText == ComposeErrorMessage(KeyMissingMessage, debug)
      // otherwise one request, with the outcome `SendRequest` describes
      ensures request.Some? ==>
                request.value == Request(UploadMimeType, Base64Payload(old(currentImageData).value))
      ensures request.Some? ==> Settled(RunRequest(response, parse), old(analysisResult), old(errorText), debug)
    {
      checks, request := 0, None;
      if !HasImage() {
        ShowError(NoImageMessage, debug);
        return;
      }
      var ready, waits;
      ready, checks, waits := CheckApiKey(keys);
      if !ready {
        ShowError(KeyMissingMessage, debug);
        return;
      }
      var sent := SendRequest(response, parse, debug);
      request := Some(sent);
    }

    /** The state after the try block ended with `outcome`: on success the new result is
        shown; on failure the mapped message is shown and the previous result is kept. */
    ghost predicate Settled(outcome: Attempt, previous: Option<AnalysisResult>, previousText: string,
                            debug: Option<Diagnostics>)
      reads this
    {
      match outcome {
        case Succeeded(r) =>
          analysisResult == Some(r) && VisibleSections() == {Result} && errorText == previousText
        case Threw(m) =>
          analysisResult == previous && VisibleSections() == {Error}
          && errorText == ComposeErrorMessage(UserMessageFor(m), debug)
      }
    }

    /** From `showLoading()` to the end of the catch block of `analyzeImage`: sends the staged
        image and settles the state according to `response`. */
    method SendRequest(response: FetchOutcome, parse: string -> Option<AnalysisResult>,
                       debug: Option<Diagnostics>)
      returns (request: Request)
      requires HasImage()
      modifies this`previewVisible, this`loadingVisible, this`resultVisible, this`errorVisible,
               this`errorText, this`analysisResult
      ensures request == Request(UploadMimeType, Base64Payload(currentImageData.value))
      ensures Settled(RunRequest(response, parse), old(analysisResult), old(errorText), debug)
    {
      ShowLoading();
      request := Request(UploadMimeType, Base64Payload(currentImageData.value));
      Settle(RunRequest(response, parse), debug);
    }

    /** The end of `analyzeImage` once the try block has ended with `outcome`: the loading
        section is hidden, then the result or the mapped error message is shown. */
    method Settle(outcome: Attempt, debug: Option<Diagnostics>)
      modifies this`previewVisible, this`loadingVisible, this`resultVisible, this`errorVisible,
               this`errorText, this`analysisResult
      ensures Settled(outcome, old(analysisResult), old(errorText), debug)
    {
      match outcome {
        case Succeeded(r) => ShowAnalysis(r);
        case Threw(m) => ReportFailure(m, debug);
      }
    }

    /** The end of the try block: the result is stored, the loading section hidden and the
        result shown. */
    method ShowAnalysis(r: AnalysisResult)
      modifies this`previewVisible, this`loadingVisible, this`resultVisible, this`errorVisible,
               this`analysisResult
      ensures analysisResult == Some(r) && VisibleSections() == {Result}
    {
      analysisResult := Some(r);
      HideLoading();
      DisplayResult();
    }

    /** The catch block: the loading section is hidden and the message mapped from the thrown
        text is shown; the previous result stays. */
    method ReportFailure(thrown: string, debug: Option<Diagnostics>)
      modifies this`previewVisible, this`loadingVisible, this`resultVisible, this`errorVisible,
               this`errorText
      ensures VisibleSections() == {Error}
      ensures errorText == ComposeErrorMessage(UserMessageFor(thrown), debug)
    {
      HideLoading();
      ShowError(UserMessageFor(thrown), debug);
    }

    /** The text `copyResult` builds, or `None` when there is no result. */
    method CopyResult() returns (text: Option<string>)
      ensures analysisResult.None? ==> text.None?
      ensures analysisResult.Some? ==> text == Some(CopyText(analysisResult.value))
    {
      if analysisResult.None? {
        return None;
      }
      var r := analysisResult.value;
      var copyText := CopyHeader;
      if |r.foods| > 0 {
        copyText := AppendLines(copyText + FoodsHeading, r.foods, FoodLine);
        copyText := copyText + "\n";
        AppendAssoc(CopyHeader, FoodsHeading, Lines(r.foods, FoodLine));
        AppendAssoc(CopyHeader, FoodsHeading + Lines(r.foods, FoodLine), "\n");
      }
      assert copyText == CopyHeader + FoodBlock(r.foods);
      copyText := copyText + TotalLine(r.totalCalories);
      if |r.exercises| > 0 {
        var before := copyText;
        copyText := AppendLines(copyText + ExercisesHeading, r.exercises, ExerciseLine);
        AppendAssoc(before, ExercisesHeading, Lines(r.exercises, ExerciseLine));
      } else {
        assert copyText == copyText + ExerciseBlock(r.exercises);
      }
      text := Some(copyText);
    }
  }

  /** A `forEach` that appends one line per element to `prefix`, in order. */
  method AppendLines<T>(prefix: string, xs: seq<T>, line: T -> string) returns (text: string)
    ensures text == prefix + Lines(xs, line)
  {
    text := prefix;
    for i := 0 to |xs|
      invariant text == prefix + Lines(xs[..i], line)
    {
      assert xs[..i + 1][..i] == xs[..i];
      AppendAssoc(prefix, Lines(xs[..i], line), line(xs[i]));
      text := text + line(xs[i]);
    }
    assert xs[..|xs|] == xs;
  }
}
