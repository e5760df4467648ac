/** The user-facing error texts, the composition `showError` performs, and the mapping the
    catch block of `analyzeImage` applies to a thrown error's message. */
module Messages {
  import opened Wrappers
  import opened Strings

  const FileTooLargeMessage := "파일 크기가 너무 큽니다. 10MB 이하의 이미지를 선택해주세요."
  const NotAnImageMessage := "이미지 파일만 업로드 가능합니다."
  const ReadFailedMessage := "이미지를 읽을 수 없습니다."
  const NoImageMessage := "분석할 이미지가 없습니다."
  const KeyMissingMessage := KeyMarker + "가 설정되지 않았습니다. config.js 파일을 확인해주세요."
  const NetworkFailureMessage := "API 서버에 연결할 수 없습니다. 네트워크 연결을 확인해주세요."
  const InvalidKeyMessage := KeyMarker + "가 올바르지 않습니다. config.js 파일의 API 키를 확인해주세요."
  const GenericFailureMessage := "이미지 분석 중 오류가 발생했습니다. 다시 시도해주세요."

  /** The message thrown when the reply has no `candidates[0].content`. */
  const MissingContentError := "API 응답에서 분석 결과를 찾을 수 없습니다."
  /** The text marking an HTTP failure, and the text marking a credential problem. */
  const HttpFailureMarker := "API 요청 실패"
  const KeyMarker := "API 키"

  /** The message thrown for a response whose status is not ok. */
  function HttpErrorText(status: int, statusText: string): (m: string)
    ensures StartsWith(m, HttpFailureMarker)
  {
    HttpFailureMarker + ": " + IntToString(status) + " " + statusText
  }

  /** The thrown message carries the status code, rendered as a template literal renders it,
      and the status text. */
  lemma HttpErrorCarriesStatus(status: int, statusText: string)
    ensures Contains(HttpErrorText(status, statusText), IntToString(status))
    ensures Contains(HttpErrorText(status, statusText), statusText)
  {
    var m := HttpErrorText(status, statusText);
    var d := IntToString(status);
    var k := |HttpFailureMarker| + 2;
    assert m == (HttpFailureMarker + ": ") + d + " " + statusText;
    assert m[k..k + |d|] == d;
    assert OccursAt(m, d, k);
    assert m[|m| - |statusText|..] == statusText;
    assert OccursAt(m, statusText, |m| - |statusText|);
  }

  /** The catch block: which message the user sees for a thrown error. */
  function UserMessageFor(thrown: string): (m: string)
    ensures m in {NetworkFailureMessage, InvalidKeyMessage, GenericFailureMessage}
    ensures m == NetworkFailureMessage <==> Contains(thrown, HttpFailureMarker)
    ensures m == InvalidKeyMessage <==> !Contains(thrown, HttpFailureMarker) && Contains(thrown, KeyMarker)
  {
    if Contains(thrown, HttpFailureMarker) then NetworkFailureMessage
    else if Contains(thrown, KeyMarker) then InvalidKeyMessage
    else GenericFailureMessage
  }

  /** Every HTTP failure is reported as a connection problem. */
  lemma HttpFailureReportedAsNetwork(status: int, statusText: string)
    ensures UserMessageFor(HttpErrorText(status, statusText)) == NetworkFailureMessage
  {
    StartsWithContains(HttpErrorText(status, statusText), HttpFailureMarker);
  }

  /** A reply without content is reported with the generic message: its error text mentions
      neither an HTTP failure nor the key. */
  lemma MissingContentReportedAsGeneric()
    ensures UserMessageFor(MissingContentError) == GenericFailureMessage
  {
    NotContainsMissingChar(MissingContentError, HttpFailureMarker, 4);
    NotContainsMissingChar(MissingContentError, KeyMarker, 4);
  }

  // ---------------------------------------------------------------------------
  // showError

  /** Hints appended to a credential-related message. */
  const KeyHelp := "\n\n모바일에서 접속 중이시라면:\n1. PC IP 주소로 접속하세요: 192.168.1.125:8000\n2. 브라우저를 새로고침해 보세요\n3. 캐시를 삭제해 보세요"

  /** What the debug block reports: whether a key is set, whether the configuration object
      exists, the page URL and whether the user agent mentions "Mobile". */
  datatype Diagnostics = Diagnostics(keyPresent: bool, configLoaded: bool, url: string, mobileAgent: bool)

  function BoolText(b: bool): string
  {
    if b then "true" else "false"
  }

  function DiagnosticsText(d: Diagnostics): (t: string)
    ensures t != []
  {
    "\n\n[디버그 정보]\n- API 키 존재: " + BoolText(d.keyPresent)
    + "\n- Config 로드됨: " + BoolText(d.configLoaded)
    + "\n- 현재 URL: " + d.url
    + "\n- 사용자 에이전트: " + (if d.mobileAgent then "모바일" else "데스크톱")
  }

  /** The text `showError` displays for `message`; `debug` is `None` unless debug mode is on. */
  function ComposeErrorMessage(message: string, debug: Option<Diagnostics>): (full: string)
    ensures StartsWith(full, message)
    ensures full == message <==> !Contains(message, KeyMarker)
  {
    if Contains(message, KeyMarker) then
      message + KeyHelp + match debug { case Some(d) => DiagnosticsText(d) case None => "" }
    else
      message
  }

  /** The debug block only extends the message shown without it. */
  lemma DiagnosticsAreSupplementary(message: string, d: Diagnostics)
    ensures StartsWith(ComposeErrorMessage(message, Some(d)), ComposeErrorMessage(message, None))
  {
    if Contains(message, KeyMarker) {
      assert ComposeErrorMessage(message, Some(d)) == (message + KeyHelp) + DiagnosticsText(d);
    }
  }

  /** The missing-key message is shown with the hints after it. */
  lemma KeyMissingShownWithHelp(debug: Option<Diagnostics>)
    ensures StartsWith(ComposeErrorMessage(KeyMissingMessage, debug), KeyMissingMessage + KeyHelp)
  {
    StartsWithContains(KeyMissingMessage, KeyMarker);
    var full := ComposeErrorMessage(KeyMissingMessage, debug);
    assert full == (KeyMissingMessage + KeyHelp) + match debug { case Some(d) => DiagnosticsText(d) case None => "" };
  }

  /** The connection message does not mention the key. */
  lemma NetworkMessageLacksKeyMarker()
    ensures !Contains(NetworkFailureMessage, KeyMarker)
  {
    NotContainsMissingChar(NetworkFailureMessage, KeyMarker, 4);
  }

  /** The generic failure message does not mention the key. */
  lemma GenericMessageLacksKeyMarker()
    ensures !Contains(GenericFailureMessage, KeyMarker)
  {
    NotContainsMissingChar(GenericFailureMessage, KeyMarker, 4);
  }

  /** The no-image message does not mention the key. */
  lemma NoImageMessageLacksKeyMarker()
    ensures !Contains(NoImageMessage, KeyMarker)
  {
    NotContainsMissingChar(NoImageMessage, KeyMarker, 4);
  }

  /** The missing-key message always carries the hints; the connection and generic messages
      are shown as they are. */
  lemma ShownMessages(debug: Option<Diagnostics>)
    ensures StartsWith(ComposeErrorMessage(KeyMissingMessage, debug), KeyMissingMessage + KeyHelp)
    ensures ComposeErrorMessage(NetworkFailureMessage, debug) == NetworkFailureMessage
    ensures ComposeErrorMessage(GenericFailureMessage, debug) == GenericFailureMessage
    ensures ComposeErrorMessage(NoImageMessage, debug) == NoImageMessage
  {
    KeyMissingShownWithHelp(debug);
    NetworkMessageLacksKeyMarker();
    GenericMessageLacksKeyMarker();
    NoImageMessageLacksKeyMarker();
  }
}
