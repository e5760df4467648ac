/** The decisions `analyzeImage` takes around its single network call: extracting the
    base64 payload from the staged data URI, classifying the response, cleaning and parsing
    the reply text, and falling back to the fixed result when parsing fails. The network
    call and `JSON.parse` are not modelled: the former is given as its outcome, the latter as
    an oracle `parse` that returns `None` where `JSON.parse` throws. */
module Analysis {
  import opened Wrappers
  import opened Strings
  import opened AnalysisResults
  import opened Fences
  import opened Messages

  /** The MIME type the request declares for the image. */
  const UploadMimeType := "image/jpeg"

  /** The request body, apart from the fixed instruction text: the declared MIME type and the
      payload, absent when the staged data URI has no comma (JSON.stringify then drops it). */
  datatype Request = Request(mimeType: string, data: Option<string>)

  /** What `response.json()` yields and how far the code gets into it. */
  datatype ResponseBody =
    | InvalidJson(message: string)          // `response.json()` rejects
    | MissingContent                        // no `candidates[0].content`
    | ContentWithoutText(message: string)   // `content.parts[0].text` is not a string: a TypeError
    | ContentText(text: string)             // the model's answer

  /** The outcome of `fetch`: a rejected promise, or a response with its `ok` flag,
      status, status text and body. */
  datatype FetchOutcome =
    | Rejected(message: string)
    | Responded(ok: bool, status: int, statusText: string, body: ResponseBody)

  /** The try block ends with a result, or with an error carrying a message. */
  datatype Attempt = Succeeded(result: AnalysisResult) | Threw(message: string)

  /** The index of the first `c` in `s`. */
  function IndexOf(s: string, c: char): (r: Option<nat>)
    ensures r.None? <==> c !in s
    ensures r.Some? ==> r.value < |s| && s[r.value] == c && c !in s[..r.value]
  {
    if |s| == 0 then None
    else if s[0] == c then Some(0)
    else match IndexOf(s[1..], c) {
      case None => None
      case Some(i) =>
        assert s[..i + 1] == [s[0]] + s[1..][..i];
        Some(i + 1)
    }
  }

  /** The longest prefix of `s` without `c`. */
  function UpTo(s: string, c: char): (r: string)
    ensures c !in r && StartsWith(s, r)
    ensures |r| == |s| || s[|r|] == c
  {
    match IndexOf(s, c) {
      case None => s
      case Some(i) => s[..i]
    }
  }

  /** `dataUri.split(',')[1]`: the text between the first and the second comma, or up to the
      end when there is one comma; `undefined` when there is none. */
  function Base64Payload(dataUri: string): (r: Option<string>)
    ensures r.None? <==> ',' !in dataUri
    ensures r.Some? ==> ',' !in r.value
  {
    match IndexOf(dataUri, ',') {
      case None => None
      case Some(i) => Some(UpTo(dataUri[i + 1..], ','))
    }
  }

  /** A data URI "header,payload" yields its payload. */
  lemma PayloadOfDataUri(header: string, payload: string)
    requires ',' !in header && ',' !in payload
    ensures Base64Payload(header + "," + payload) == Some(payload)
  {
    var uri := header + "," + payload;
    assert uri[|header|] == ',';
    assert uri[..|header|] == header;
    assert uri[|header| + 1..] == payload;
  }

  /** Parse the cleaned text, or substitute the fallback. */
  function ParseOrFallback(cleaned: string, parse: string -> Option<AnalysisResult>): AnalysisResult
  {
    match parse(cleaned) {
      case Some(r) => r
      case None => CreateFallbackResult(cleaned)
    }
  }

  /** The try block of `analyzeImage`, from the response onwards. */
  function RunRequest(response: FetchOutcome, parse: string -> Option<AnalysisResult>): Attempt
  {
    match response {
      case Rejected(m) => Threw(m)
      case Responded(ok, status, statusText, body) =>
        if !ok then Threw(HttpErrorText(status, statusText))
        else match body {
          case InvalidJson(m) => Threw(m)
          case MissingContent => Threw(MissingContentError)
          case ContentWithoutText(m) => Threw(m)
          case ContentText(text) => Succeeded(ParseOrFallback(StripFences(text), parse))
        }
    }
  }

  /** A response that is not ok is reported as a connection problem, whatever its body. */
  lemma NotOkReportsNetworkFailure(status: int, statusText: string, body: ResponseBody,
                                   parse: string -> Option<AnalysisResult>)
    ensures RunRequest(Responded(false, status, statusText, body), parse).Threw?
    ensures UserMessageFor(RunRequest(Responded(false, status, statusText, body), parse).message)
            == NetworkFailureMessage
  {
    HttpFailureReportedAsNetwork(status, statusText);
  }

  /** An ok response without `candidates[0].content` is reported with the generic message. */
  lemma MissingContentReportsGenericFailure(status: int, statusText: string,
                                            parse: string -> Option<AnalysisResult>)
    ensures RunRequest(Responded(true, status, statusText, MissingContent), parse).Threw?
    ensures UserMessageFor(RunRequest(Responded(true, status, statusText, MissingContent), parse).message)
            == GenericFailureMessage
  {
    MissingContentReportedAsGeneric();
  }

  /** An ok response carrying a reply text succeeds with the parse-or-fallback of its
      cleaned form. */
  lemma TextReplySucceeds(status: int, statusText: string, text: string,
                          parse: string -> Option<AnalysisResult>)
    ensures RunRequest(Responded(true, status, statusText, ContentText(text)), parse)
            == Succeeded(ParseOrFallback(StripFences(text), parse))
  {
  }

  /** A cleaned text that does not parse is replaced by the fallback record. */
  lemma UnparsedTextFallsBack(cleaned: string, parse: string -> Option<AnalysisResult>)
    requires parse(cleaned).None?
    ensures ParseOrFallback(cleaned, parse) == CreateFallbackResult("")
  {
    FallbackIgnoresText(cleaned, "");
  }

  /** Whatever the reply text, when its cleaned form does not parse the result is the
      fallback record. */
  lemma UnparseableReplyFallsBack(status: int, statusText: string, text: string,
                                  parse: string -> Option<AnalysisResult>)
    requires parse(StripFences(text)).None?
    ensures RunRequest(Responded(true, status, statusText, ContentText(text)), parse)
            == Succeeded(CreateFallbackResult(""))
  {
    TextReplySucceeds(status, statusText, text, parse);
    UnparsedTextFallsBack(StripFences(text), parse);
  }

  /** The parser only ever sees a text with no "```" and no space at either end: two parsers
      that agree on every such text give the same outcome for every response. */
  lemma ParserSeesOnlyCleanText(response: FetchOutcome, parse1: string -> Option<AnalysisResult>,
                                parse2: string -> Option<AnalysisResult>)
    requires forall y :: !Contains(y, Fence) && Trimmed(y) ==> parse1(y) == parse2(y)
    ensures RunRequest(response, parse1) == RunRequest(response, parse2)
  {
    if response.Responded? && response.ok && response.body.ContentText? {
      var text := response.body.text;
      StripFencesClean(text);
      assert parse1(StripFences(text)) == parse2(StripFences(text));
      TextReplySucceeds(response.status, response.statusText, text, parse1);
      TextReplySucceeds(response.status, response.statusText, text, parse2);
    }
  }

  /** A reply fenced as a JSON code block is parsed from its body alone, and a parsed reply
      is taken over without change. */
  lemma FencedReplyParsedFromBody(status: int, statusText: string, body: string,
                                  parse: string -> Option<AnalysisResult>)
    requires !Contains(body, Fence) && Trimmed(body)
    ensures RunRequest(Responded(true, status, statusText, ContentText("```json\n" + body + "\n```")), parse)
            == Succeeded(ParseOrFallback(body, parse))
    ensures parse(body).Some? ==>
            RunRequest(Responded(true, status, statusText, ContentText("```json\n" + body + "\n```")), parse)
            == Succeeded(parse(body).value)
  {
    FencedReplyYieldsBody(body);
  }
}
