/** The `POST /api/analyze-exam` route: request gating, the initial-analysis
    prompt, and post-processing of the oracle's reply into the JSON response
    (envelope extraction, the fixed fallback envelope, the three section
    extractors and the merge of their results over the oracle's fields). */
module AnalyzeExam {
  import opened Wrappers
  import opened Text
  import opened Js

  /** What the text-generation oracle did with a prompt. */
  datatype Generation = Generated(text: string) | GenerationFailed(message: string)

  /** Everything the route reads besides the request body. */
  datatype Env = Env(
    apiKey: string,                               // GEMINI_API_KEY, "" when unset
    teacherPrompt: string,                        // the route's teacher instruction constant
    formatInstructions: string,                   // the JSON-format block that closes the initial prompt
    generate: string -> Generation,               // generateContent(prompt), then response.text()
    parse: string -> Option<map<string, Json>>,   // JSON.parse of an object text; None when it throws
    num: real -> string,                          // Number.prototype.toString
    typeError: TypeError -> string,               // the engine's message for each kind of TypeError
    now: string)                                  // new Date().toISOString()

  datatype Response = Response(status: int, body: map<string, Json>)

  const RemediationMarker := "### REMEDIERENDE VRAAG:"
  const QuestionMarker := "### VRAAG:"
  const AnswerMarker := "### JOUW ANTWOORD:"
  const FeedbackMarker := "### FEEDBACK:"

  const RemediationKey := "currentRemediatingQuestion"
  const QuestionKey := "currentOriginalQuestion"
  const AnswerKey := "currentStudentAnswer"
  const ExtractedKeys: set<string> := {RemediationKey, QuestionKey, AnswerKey}

  // ---------------------------------------------------------------------------
  // Request gating

  function ErrorBody(message: string): map<string, Json> {
    map["error" := JStr(message)]
  }

  const ConfigErrorBody: map<string, Json> := map[
    "error" := JStr("API configuratie ontbreekt. Check Environment Variables."),
    "hint" := JStr("Voeg GEMINI_API_KEY toe aan je environment variables")]

  /** The outer `catch`: status 500 with the thrown message and a timestamp. */
  function Crash(env: Env, message: string): Response {
    Response(500, map[
      "error" := JStr("Er is een fout opgetreden bij het analyseren van de toets"),
      "details" := JStr(message),
      "timestamp" := JStr(env.now)])
  }

  /** The destructured request fields, or `None` when reading the body throws. */
  function RequestFields(body: Result<Json, string>): Option<map<string, Json>> {
    match body
    case Failure(_) => None
    case Success(j) => Props(j)
  }

  /** The request the route answers with an oracle call: key configured, readable
      body, truthy `examContent`, `action` exactly `"initial_analysis"`, and an exam
      and a file name the prompt's template can print. */
  predicate Accepted(env: Env, body: Result<Json, string>) {
    && env.apiKey != ""
    && RequestFields(body).Some?
    && Truthy(Get(RequestFields(body).value, "examContent"))
    && Get(RequestFields(body).value, "action") == Some(JStr("initial_analysis"))
    && Printable(Get(RequestFields(body).value, "examContent"))
    && Printable(Get(RequestFields(body).value, "fileName"))
  }

  const AnalysisTask :=
    "\n\nTAAK: Analyseer deze ingeleverde scheikundetoets en geef de eerste feedback.\n\nTOETS INHOUD:\n"
  const FileNameHead := "\n\nBESTANDSNAAM: "

  /** The prompt of the initial analysis: the teacher instructions, then the exam
      text and the file name, then the JSON-format instructions. */
  function InitialPrompt(env: Env, examContent: Option<Json>, fileName: Option<Json>): (r: string)
    ensures StartsWith(r, env.teacherPrompt)
    ensures IsInfix(Interp(examContent, env.num), r)
    ensures IsInfix(Interp(fileName, env.num), r)
  {
    var parts := [env.teacherPrompt, AnalysisTask, Interp(examContent, env.num), FileNameHead,
                  Interp(fileName, env.num), "\n\n", env.formatInstructions];
    ConcatStartsWith(parts);
    ConcatInfix(parts, 2);
    ConcatInfix(parts, 4);
    Concat(parts)
  }

  /** `POST`: the checks in source order, then one oracle call, then the
      post-processing of its text. */
  function Post(env: Env, body: Result<Json, string>): (r: Response)
    ensures r.status == 200 || r.status == 400 || r.status == 500
    ensures env.apiKey == "" ==> r == Response(500, ConfigErrorBody)
    ensures env.apiKey != "" && body.Failure? ==> r == Crash(env, body.error)
    ensures 200 <= r.status < 300 ==> Accepted(env, body)
    ensures env.apiKey != "" && RequestFields(body).Some? ==> r == Dispatch(env, RequestFields(body).value)
  {
    if env.apiKey == "" then Response(500, ConfigErrorBody)
    else match body
      case Failure(m) => Crash(env, m)
      case Success(j) =>
        match Props(j)
        case None => Crash(env, env.typeError(DestructureNull))
        case Some(p) => Dispatch(env, p)
  }

  /** The route past the key check, once the request fields are read: the two
      400 answers, then the oracle call for `initial_analysis`. */
  function Dispatch(env: Env, p: map<string, Json>): (r: Response)
    ensures r.status == 200 || r.status == 400 || r.status == 500
    ensures !Truthy(Get(p, "examContent")) ==> r == Response(400, ErrorBody("Toets inhoud is vereist"))
    ensures Truthy(Get(p, "examContent")) && Get(p, "action") != Some(JStr("initial_analysis"))
            ==> r == Response(400, ErrorBody("Onbekende actie"))
    ensures 200 <= r.status < 300 ==>
              Truthy(Get(p, "examContent")) && Get(p, "action") == Some(JStr("initial_analysis"))
  {
    if !Truthy(Get(p, "examContent")) then Response(400, ErrorBody("Toets inhoud is vereist"))
    else if Get(p, "action") != Some(JStr("initial_analysis")) then Response(400, ErrorBody("Onbekende actie"))
    else Analyze(env, Get(p, "examContent"), Get(p, "fileName"))
  }

  /** Building the initial prompt, then one oracle call on it: a value the template
      cannot print throws before the call, a failed call is the outer `catch`, and
      the generated text becomes the 200 body. */
  function Analyze(env: Env, examContent: Option<Json>, fileName: Option<Json>): (r: Response)
    ensures r.status == 200 || r.status == 500
    ensures !(Printable(examContent) && Printable(fileName)) ==> r == Crash(env, env.typeError(NoPrimitive))
    ensures r.status == 200 <==>
              Printable(examContent) && Printable(fileName)
              && env.generate(InitialPrompt(env, examContent, fileName)).Generated?
  {
    if !Printable(examContent) || !Printable(fileName) then Crash(env, env.typeError(NoPrimitive))
    else match env.generate(InitialPrompt(env, examContent, fileName))
      case GenerationFailed(m) => Crash(env, m)
      case Generated(t) => Response(200, PostProcess(t, env.parse))
  }

  /** An exam sent as an object with its own "toString" key is answered 500
      without the oracle, whatever the oracle would have said. */
  lemma UnprintableExamRejected(env: Env, other: string -> Generation)
    requires env.apiKey != ""
    ensures var body := Success(JObj(map["examContent" := JObj(map["toString" := JNum(1.0)]),
                                         "action" := JStr("initial_analysis")]));
            && Post(env, body) == Crash(env, env.typeError(NoPrimitive))
            && Post(env, body) == Post(env.(generate := other), body)
  {
    var body := Success(JObj(map["examContent" := JObj(map["toString" := JNum(1.0)]),
                                 "action" := JStr("initial_analysis")]));
    assert Get(RequestFields(body).value, "examContent") == Some(JObj(map["toString" := JNum(1.0)]));
  }

  /** The action the client sends for every chat message is never answered with a
      2xx status: this route has no branch for it. */
  lemma ContinueFeedbackRejected(env: Env, body: Result<Json, string>)
    requires RequestFields(body).Some?
    requires Get(RequestFields(body).value, "action") == Some(JStr("continue_feedback"))
    ensures Post(env, body).status == 400 || Post(env, body).status == 500
    ensures env.apiKey != "" ==> Post(env, body).status == 400
  {
  }

  /** A rejected request never reaches the oracle: its response does not depend on
      what the oracle would have said. */
  lemma RejectedBeforeOracle(env: Env, body: Result<Json, string>, other: string -> Generation)
    requires !Accepted(env, body)
    ensures Post(env, body) == Post(env.(generate := other), body)
  {
  }

  // ---------------------------------------------------------------------------
  // Envelope extraction and fallback

  /** Some `{` comes before some `}`. */
  predicate HasBracePair(t: string) {
    exists i, j :: 0 <= i < j < |t| && t[i] == '{' && t[j] == '}'
  }

  /** What `/\{[\s\S]*\}/` matches: from the first `{` to the last `}`. */
  function EnvelopeCandidate(t: string): (r: Option<string>)
    ensures r.Some? <==> HasBracePair(t)
    ensures r.Some? ==> exists i, j :: 0 <= i < j < |t| && t[i] == '{' && t[j] == '}'
                          && '{' !in t[..i] && '}' !in t[j + 1..] && r.value == t[i..j + 1]
  {
    match (IndexOfChar(t, '{'), LastIndexOfChar(t, '}'))
    case (Some(i), Some(j)) =>
      if i < j then Some(t[i..j + 1]) else None
    case (None, _) => None
    case (_, None) => None
  }

  const ReviewingJ := JStr("reviewing")
  const PendingJ := JStr("pending")

  const FallbackProgress: map<string, Json> :=
    map["1" := ReviewingJ, "2" := PendingJ, "3" := PendingJ, "4" := PendingJ, "5" := PendingJ]

  /** The body returned when the reply holds no parseable envelope. */
  function FallbackBody(text: string): map<string, Json> {
    map[
      "success" := JBool(true),
      "summary" := JStr("\U{2705} Toets ge\U{00FC}pload en geanalyseerd\n\U{26A0}\U{FE0F} Feedback wordt gegenereerd..."),
      "initialGrade" := JNum(6.0),
      "learningObjectives" := JArr([
        JStr("Ik kan scheikundige concepten toepassen"),
        JStr("Ik begrijp chemische reacties"),
        JStr("Ik kan berekeningen maken")]),
      "totalQuestions" := JNum(5.0),
      "firstQuestionFeedback" := JStr(text),
      "questionProgress" := JObj(FallbackProgress),
      RemediationKey := JStr("Leg uit wat je denkt dat het antwoord zou moeten zijn."),
      QuestionKey := JStr("Eerste vraag uit de toets"),
      AnswerKey := JStr("Je antwoord wordt geanalyseerd...")]
  }

  /** The fallback carries grade 6.0, five questions, the fixed progress map, and
      the oracle's raw text as the first feedback. */
  lemma FallbackShape(text: string)
    ensures Get(FallbackBody(text), "initialGrade") == Some(JNum(6.0))
    ensures Get(FallbackBody(text), "totalQuestions") == Some(JNum(5.0))
    ensures Get(FallbackBody(text), "firstQuestionFeedback") == Some(JStr(text))
    ensures Get(FallbackBody(text), "success") == Some(JBool(true))
    ensures Get(FallbackBody(text), "questionProgress") == Some(JObj(FallbackProgress))
  {
  }

  /** The fallback progress map has exactly the entries "1" to "5": question 1
      under review, the others pending. */
  lemma FallbackProgressShape()
    ensures FallbackProgress.Keys == {"1", "2", "3", "4", "5"}
    ensures forall q :: 1 <= q <= 5 ==>
              Get(FallbackProgress, DecimalText(q)) == Some(if q == 1 then ReviewingJ else PendingJ)
  {
    forall q | 1 <= q <= 5
      ensures Get(FallbackProgress, DecimalText(q)) == Some(if q == 1 then ReviewingJ else PendingJ)
    {
      if q == 1 { assert DecimalText(q) == "1"; }
      else if q == 2 { assert DecimalText(q) == "2"; }
      else if q == 3 { assert DecimalText(q) == "3"; }
      else if q == 4 { assert DecimalText(q) == "4"; }
      else { assert DecimalText(q) == "5"; }
    }
  }

  // ---------------------------------------------------------------------------
  // Section extraction

  /** `e` is where a section starting at `start` ends: at the first
      case-insensitive occurrence of `stop` from `start` on, or at the end. */
  predicate SectionEnd(s: string, start: nat, e: nat, stop: string) {
    && start <= e <= |s|
    && (e == |s| || MatchAt(s, e, stop, true))
    && forall j: nat :: start <= j < e ==> !MatchAt(s, j, stop, true)
  }

  /** The section introduced by the first case-insensitive `marker` in `s`, found
      at index `k`, runs from just after the marker to index `e`: the first `stop`
      after it, or the end of `s` when there is no stop pattern. */
  predicate SectionAt(s: string, marker: string, stop: Option<string>, k: nat, e: nat) {
    && k + |marker| <= e <= |s|
    && FirstMatch(s, marker, k, true)
    && (if stop.None? then e == |s| else SectionEnd(s, k + |marker|, e, stop.value))
  }

  /** `v` is the trimmed text of the section introduced by `marker`. */
  ghost predicate SectionIs(s: string, marker: string, stop: Option<string>, v: string) {
    exists k: nat, e: nat {:trigger SectionAt(s, marker, stop, k, e)} :: SectionAt(s, marker, stop, k, e) && v == Trim(s[k + |marker|..e])
  }

  /** Where a section starting at `start` ends: at the first `stop` from there on,
      or at the end of `s`. */
  function SectionStop(s: string, start: nat, stop: Option<string>): (e: nat)
    requires start <= |s|
    ensures start <= e <= |s|
    ensures stop.None? ==> e == |s|
    ensures stop.Some? ==> SectionEnd(s, start, e, stop.value)
  {
    if stop.None? then |s|
    else match Find(s, stop.value, start, true)
      case Some(e) => e
      case None => |s|
  }

  /** Text after the first case-insensitive `marker`, up to the first `stop` after
      it (or to the end when `stop` is `None`), trimmed. */
  function Section(s: string, marker: string, stop: Option<string>): (r: Option<string>)
    ensures r.Some? <==> Contains(s, marker, true)
    ensures r.Some? ==> SectionIs(s, marker, stop, r.value)
  {
    FindFromStart(s, marker, true);
    var k := Find(s, marker, 0, true);
    if k.None? then None else Some(SectionFrom(s, marker, stop, k.value))
  }

  /** The trimmed section behind the first `marker`, found at `k`. */
  function SectionFrom(s: string, marker: string, stop: Option<string>, k: nat): (v: string)
    requires FirstMatch(s, marker, k, true)
    ensures SectionIs(s, marker, stop, v)
  {
    var e := SectionStop(s, k + |marker|, stop);
    SectionAtIs(s, marker, stop, k, e);
    Trim(s[k + |marker|..e])
  }

  lemma SectionAtIs(s: string, marker: string, stop: Option<string>, k: nat, e: nat)
    requires k + |marker| <= e <= |s| && FirstMatch(s, marker, k, true)
    requires if stop.None? then e == |s| else SectionEnd(s, k + |marker|, e, stop.value)
    ensures SectionIs(s, marker, stop, Trim(s[k + |marker|..e]))
  {
    assert SectionAt(s, marker, stop, k, e);
  }

  /** `/### REMEDIERENDE VRAAG:\s*([\s\S]*?)$/i`, trimmed: everything after the
      first marker. */
  function Remediation(ff: string): (r: Option<string>)
    ensures r.None? <==> !Contains(ff, RemediationMarker, true)
    ensures r.Some? ==> SectionIs(ff, RemediationMarker, None, r.value)
  {
    Section(ff, RemediationMarker, None)
  }

  /** `/### VRAAG:\s*([\s\S]*?)(?=### JOUW ANTWOORD:|$)/i`, trimmed. */
  function OriginalQuestion(ff: string): (r: Option<string>)
    ensures r.None? <==> !Contains(ff, QuestionMarker, true)
    ensures r.Some? ==> SectionIs(ff, QuestionMarker, Some(AnswerMarker), r.value)
  {
    Section(ff, QuestionMarker, Some(AnswerMarker))
  }

  /** `/### JOUW ANTWOORD:\s*([\s\S]*?)(?=### FEEDBACK:|$)/i`, trimmed. */
  function StudentAnswer(ff: string): (r: Option<string>)
    ensures r.None? <==> !Contains(ff, AnswerMarker, true)
    ensures r.Some? ==> SectionIs(ff, AnswerMarker, Some(FeedbackMarker), r.value)
  {
    Section(ff, AnswerMarker, Some(FeedbackMarker))
  }

  // ---------------------------------------------------------------------------
  // Merging the extracted fields into the response

  /** `analysisData.firstQuestionFeedback || ''` as `.match` sees it: `None` when the
      value is truthy but not a string, so that calling `.match` on it throws. */
  function FirstFeedback(data: map<string, Json>): (r: Option<string>)
    ensures !Truthy(Get(data, "firstQuestionFeedback")) ==> r == Some("")
    ensures Truthy(Get(data, "firstQuestionFeedback")) ==>
              (r.Some? <==> data["firstQuestionFeedback"].JStr?)
    ensures r.Some? && r.value != "" ==> Get(data, "firstQuestionFeedback") == Some(JStr(r.value))
  {
    var v := Get(data, "firstQuestionFeedback");
    if !Truthy(v) then Some("")
    else match v.value
      case JStr(s) => Some(s)
      case _ => None
  }

  function Lift(v: Option<string>): Option<Json> {
    match v
    case Some(s) => Some(JStr(s))
    case None => None
  }

  /** Sets `key` to the extracted string, or drops it when the extraction is
      `undefined` (JSON.stringify omits undefined-valued properties). */
  function Override(m: map<string, Json>, key: string, v: Option<string>): (r: map<string, Json>)
    ensures Get(r, key) == Lift(v)
    ensures forall k :: k != key ==> Get(r, k) == Get(m, k)
  {
    match v
    case Some(s) => m[key := JStr(s)]
    case None => m - {key}
  }

  /** `{success: true, ...analysisData, currentRemediatingQuestion, currentOriginalQuestion,
      currentStudentAnswer}`: the oracle's fields override `success`, and the three
      extracted fields override the oracle's. */
  function Merge(data: map<string, Json>, remediation: Option<string>, question: Option<string>,
                 answer: Option<string>): (r: map<string, Json>)
    ensures Get(r, RemediationKey) == Lift(remediation)
    ensures Get(r, QuestionKey) == Lift(question)
    ensures Get(r, AnswerKey) == Lift(answer)
    ensures forall k :: k !in ExtractedKeys && k != "success" ==> Get(r, k) == Get(data, k)
    ensures Get(r, "success") == if "success" in data then Some(data["success"]) else Some(JBool(true))
  {
    var base := map["success" := JBool(true)] + data;
    assert forall k :: k != "success" ==> Get(base, k) == Get(data, k);
    var r1 := Override(base, RemediationKey, remediation);
    var r2 := Override(r1, QuestionKey, question);
    Override(r2, AnswerKey, answer)
  }

  /** The response fields extracted from the first feedback text, merged. */
  function MergeExtracted(data: map<string, Json>, ff: string): map<string, Json> {
    Merge(data, Remediation(ff), OriginalQuestion(ff), StudentAnswer(ff))
  }

  /** The 200 body built from the oracle's text. */
  function PostProcess(text: string, parse: string -> Option<map<string, Json>>): (r: map<string, Json>)
    ensures !HasBracePair(text) ==> r == FallbackBody(text)
    ensures HasBracePair(text) && parse(EnvelopeCandidate(text).value).None? ==> r == FallbackBody(text)
    ensures HasBracePair(text) && parse(EnvelopeCandidate(text).value).Some? ==>
              var data := parse(EnvelopeCandidate(text).value).value;
              r == match FirstFeedback(data) case None => FallbackBody(text) case Some(ff) => MergeExtracted(data, ff)
  {
    match EnvelopeCandidate(text)
    case None => FallbackBody(text)
    case Some(c) =>
      match parse(c)
      case None => FallbackBody(text)
      case Some(data) =>
        match FirstFeedback(data)
        case None => FallbackBody(text)
        case Some(ff) => MergeExtracted(data, ff)
  }

  /** A missing or falsy `firstQuestionFeedback` leaves all three extracted fields
      out of the response, whatever the oracle put under those names. */
  lemma EmptyFeedbackDropsExtracted(data: map<string, Json>)
    requires !Truthy(Get(data, "firstQuestionFeedback"))
    ensures var r := MergeExtracted(data, FirstFeedback(data).value);
            RemediationKey !in r && QuestionKey !in r && AnswerKey !in r
  {
    assert !Contains("", RemediationMarker, true);
    assert !Contains("", QuestionMarker, true);
    assert !Contains("", AnswerMarker, true);
  }
}
