/** The `/api/stream-feedback` route: request gating, the continue-turn prompt
    (context defaults and the numbered conversation history), and the loop that
    forwards the oracle's non-empty chunks, in order, as the response body. */
module StreamFeedback {
  import opened Wrappers
  import opened Text
  import opened Js

  /** What the streaming oracle did with a prompt. */
  datatype Upstream =
    | Refused(message: string)                                // generateContentStream rejects
    | Streamed(chunks: seq<string>, failure: Option<string>)  // chunk texts in arrival order; a failure ends the stream after them

  /** Everything the route reads besides the request body. */
  datatype Env = Env(
    apiKey: string,                       // GEMINI_API_KEY, "" when unset
    teacherPrompt: string,                // the route's teacher instruction constant
    stringify: Option<Json> -> string,    // JSON.stringify as interpolated
    num: real -> string,                  // Number.prototype.toString
    typeError: TypeError -> string,       // the engine's message for each kind of TypeError
    stream: string -> Upstream)           // generateContentStream

  /** A plain-text reply, or the 200 streamed reply: the chunks enqueued and whether
      the stream was closed normally (rather than errored). */
  datatype Reply =
    | Plain(status: int, text: string)
    | Stream(enqueued: seq<string>, closed: bool)

  const NoHistory := "Geen eerdere conversatie"
  const FirstInteraction := "Eerste interactie"
  const NotYetKnown := "Nog niet bepaald"

  function Crash(message: string): Reply {
    Plain(500, "Er is een fout opgetreden: " + message)
  }

  // ---------------------------------------------------------------------------
  // Conversation history

  /** Line `i` (from 0) of the rendered history. */
  function EntryLine(i: nat, entry: map<string, Json>, num: real -> string): string {
    DecimalText(i + 1) + ". "
      + (if Get(entry, "type") == Some(JStr("student")) then "LEERLING" else "DOCENT")
      + ": " + Interp(Get(entry, "content"), num)
  }

  /** Rendering entry `e` throws: reading `msg.type` of `null`, or printing a
      `msg.content` the template cannot print. */
  predicate EntryThrows(e: Json) {
    e == JNull || !Printable(Get(Props(e).value, "content"))
  }

  /** What the first entry that throws throws. */
  function EntryError(e: Json): TypeError {
    if e == JNull then ReadOfNull else NoPrimitive
  }

  /** The lines of the first `n` entries, or what the first entry that throws
      throws. */
  function HistoryLines(items: seq<Json>, n: nat, num: real -> string): (r: Result<seq<string>, TypeError>)
    requires n <= |items|
    ensures r.Failure? <==> exists i :: 0 <= i < n && EntryThrows(items[i])
    ensures r.Failure? ==> exists i :: 0 <= i < n && EntryThrows(items[i]) && r.error == EntryError(items[i])
                                       && forall k :: 0 <= k < i ==> !EntryThrows(items[k])
    ensures r.Success? ==> |r.value| == n
    ensures r.Success? ==> forall i :: 0 <= i < n ==> r.value[i] == EntryLine(i, Props(items[i]).value, num)
    decreases n
  {
    if n == 0 then Success([])
    else match HistoryLines(items, n - 1, num)
      case Failure(t) => Failure(t)
      case Success(ls) =>
        if EntryThrows(items[n - 1]) then Failure(EntryError(items[n - 1]))
        else Success(ls + [EntryLine(n - 1, Props(items[n - 1]).value, num)])
  }

  /** `conversationHistory?.map(…).join('\n') || 'Geen eerdere conversatie'`, or
      what it throws: a value without a callable `map`, or a throwing entry. */
  function RenderHistory(h: Option<Json>, num: real -> string): (r: Result<string, TypeError>)
    ensures h == None || h == Some(JNull) || h == Some(JArr([])) ==> r == Success(NoHistory)
    ensures h.Some? && !h.value.JArr? && h.value != JNull ==> r == Failure(NotAFunction)
    ensures r.Success? && r.value != NoHistory ==>
              h.Some? && h.value.JArr? && |h.value.items| > 0
    ensures h.Some? && h.value.JArr? ==>
              (r.Failure? <==> exists i :: 0 <= i < |h.value.items| && EntryThrows(h.value.items[i]))
    ensures h.Some? && h.value.JArr? && r.Failure? ==>
              exists i :: 0 <= i < |h.value.items| && EntryThrows(h.value.items[i])
                          && r.error == EntryError(h.value.items[i])
                          && forall k :: 0 <= k < i ==> !EntryThrows(h.value.items[k])
    ensures h.Some? && h.value.JArr? && |h.value.items| > 0 && r.Success? ==>
              var items := h.value.items;
              exists ls: seq<string> :: |ls| == |items|
                && (forall i :: 0 <= i < |items| ==> ls[i] == EntryLine(i, Props(items[i]).value, num))
                && r.value == Join(ls, '\n')
  {
    if h.None? || h.value.JNull? then Success(NoHistory)
    else if !h.value.JArr? then Failure(NotAFunction)
    else match HistoryLines(h.value.items, |h.value.items|, num)
      case Failure(t) => Failure(t)
      case Success(ls) =>
        var t := Join(ls, '\n');
        if t == "" then Success(NoHistory) else Success(t)
  }

  /** A non-empty history renders to its lines joined by newlines (never to the
      default), and when no content holds a newline, splitting the rendering at
      newlines gives back exactly one line per entry, in order. */
  lemma {:induction false} HistoryRoundTrip(items: seq<Json>, num: real -> string)
    requires |items| > 0
    requires forall i :: 0 <= i < |items| ==> !EntryThrows(items[i])
    requires forall i :: 0 <= i < |items| ==>
               items[i] != JNull && '\n' !in Interp(Get(Props(items[i]).value, "content"), num)
    ensures RenderHistory(Some(JArr(items)), num).Success?
    ensures var ls := HistoryLines(items, |items|, num).value;
            && RenderHistory(Some(JArr(items)), num).value == Join(ls, '\n')
            && Split(RenderHistory(Some(JArr(items)), num).value, '\n') == ls
  {
    var ls := HistoryLines(items, |items|, num).value;
    forall i | 0 <= i < |ls| ensures '\n' !in ls[i] {
      EntryLineOneLine(i, Props(items[i]).value, num);
    }
    JoinNonEmpty(ls);
    SplitJoin(ls, '\n');
  }

  /** An entry whose content has no newline renders to a single line. */
  lemma EntryLineOneLine(i: nat, entry: map<string, Json>, num: real -> string)
    requires '\n' !in Interp(Get(entry, "content"), num)
    ensures '\n' !in EntryLine(i, entry, num)
  {
    var who := if Get(entry, "type") == Some(JStr("student")) then "LEERLING" else "DOCENT";
    var d := DecimalText(i + 1);
    assert '\n' !in d;
    assert '\n' !in d + ". " + who + ": ";
  }

  lemma JoinNonEmpty(ls: seq<string>)
    requires |ls| > 0 && |ls[0]| > 0
    ensures Join(ls, '\n') != ""
  {
  }

  // ---------------------------------------------------------------------------
  // The prompt

  /** The fixed text between the interpolated values of the continue-turn prompt. */
  const ContextHead := "\n\nCONTEXT:\n- Je bent bezig met vraag "
  const LastRemediation := " van de toets\n- BELANGRIJKE CONTEXT - Dit was je laatste remedierende vraag aan de leerling: \""
  const OriginalHead := "\"\n- ORIGINELE VRAAG uit de toets: \""
  const AnswerHead := "\"\n- OORSPRONKELIJK ANTWOORD van leerling: \""
  const ResponseHead := "\"\n- De leerling heeft NU geantwoord op jouw remedierende vraag: \""
  const ProgressHead := "\"\n- Voortgang vragen: "
  const HistoryHead := "\n\nCONVERSATIE GESCHIEDENIS:\n"
  const ExamHead := "\n\nOORSPRONKELIJKE TOETS:\n"
  const TaskHead := "\n\nTAAK: \n1. Je WEET wat je remedierende vraag was: \""
  const TaskReact := "\"\n2. Reageer specifiek op het antwoord \""
  const TaskRest := "\" op DIE vraag\n3. Als het antwoord goed/voldoende is, ga door naar de volgende vraag uit de toets\n4. Als het antwoord nog niet goed is, geef hints en stel een nieuwe remedierende vraag\n5. Als alle vragen zijn behandeld, geef een eindoverzicht\n6. GEBRUIK DE CONTEXT - verwijs naar eerdere antwoorden als relevant\n\nGebruik de gestructureerde format met ### koppen. Geef NOOIT direct het juiste antwoord.\nONTHOUD: Je hebt de remedierende vraag \""
  const RememberMid := "\" gesteld en reageert nu op het antwoord \""
  const RememberEnd := "\"."

  /** The parts of the continue-turn prompt, in order; the prompt is their
      concatenation. */
  function PromptParts(env: Env, p: map<string, Json>, history: string): seq<string> {
    ContextParts(env, p) + TaskParts(env, p, history)
  }

  /** The teacher instructions and the CONTEXT block, up to the student's response. */
  function ContextParts(env: Env, p: map<string, Json>): (r: seq<string>)
    ensures |r| == 11
    ensures r[0] == env.teacherPrompt
    ensures r[4] == OrText(Get(p, "currentRemediatingQuestion"), FirstInteraction, env.num)
    ensures r[6] == OrText(Get(p, "currentOriginalQuestion"), NotYetKnown, env.num)
    ensures r[8] == OrText(Get(p, "currentStudentAnswer"), NotYetKnown, env.num)
    ensures r[10] == Interp(Get(p, "studentResponse"), env.num)
  {
    [ env.teacherPrompt,
      ContextHead, Interp(Get(p, "currentQuestion"), env.num),
      LastRemediation, OrText(Get(p, "currentRemediatingQuestion"), FirstInteraction, env.num),
      OriginalHead, OrText(Get(p, "currentOriginalQuestion"), NotYetKnown, env.num),
      AnswerHead, OrText(Get(p, "currentStudentAnswer"), NotYetKnown, env.num),
      ResponseHead, Interp(Get(p, "studentResponse"), env.num) ]
  }

  /** The progress, history and exam blocks and the TAAK and ONTHOUD lines.
      `currentRemediatingQuestion` is interpolated there without a default, so an
      absent one reads "undefined". */
  function TaskParts(env: Env, p: map<string, Json>, history: string): (r: seq<string>)
    ensures |r| == 15
    ensures r[3] == history
    ensures r[5] == Interp(Get(p, "examContent"), env.num)
  {
    var rem := Interp(Get(p, "currentRemediatingQuestion"), env.num);
    var response := Interp(Get(p, "studentResponse"), env.num);
    [ ProgressHead, env.stringify(Get(p, "questionProgress")),
      HistoryHead, history,
      ExamHead, Interp(Get(p, "examContent"), env.num),
      TaskHead, rem,
      TaskReact, response,
      TaskRest, rem,
      RememberMid, response, RememberEnd ]
  }

  /** The continue-turn prompt: it opens with the teacher instructions and carries
      the student's response, the exam text, the rendered history and the three
      context values (each replaced by its default when falsy) verbatim. */
  function ContinuePrompt(env: Env, p: map<string, Json>, history: string): (r: string)
    ensures StartsWith(r, env.teacherPrompt)
    ensures IsInfix(Interp(Get(p, "studentResponse"), env.num), r)
    ensures IsInfix(Interp(Get(p, "examContent"), env.num), r)
    ensures IsInfix(history, r)
    ensures IsInfix(OrText(Get(p, "currentRemediatingQuestion"), FirstInteraction, env.num), r)
    ensures IsInfix(OrText(Get(p, "currentOriginalQuestion"), NotYetKnown, env.num), r)
    ensures IsInfix(OrText(Get(p, "currentStudentAnswer"), NotYetKnown, env.num), r)
  {
    var parts := PromptParts(env, p, history);
    ConcatSplitAt(parts, 0);
    assert parts[..0] == [];
    ConcatInfix(parts, 10);
    ConcatInfix(parts, 16);
    ConcatInfix(parts, 14);
    ConcatInfix(parts, 4);
    ConcatInfix(parts, 6);
    ConcatInfix(parts, 8);
    Concat(parts)
  }

  // ---------------------------------------------------------------------------
  // Streaming

  /** The chunks the stream enqueues: the non-empty chunk texts, in arrival order.
      Together they spell exactly what all the chunks spell. */
  function Enqueue(chunks: seq<string>): (r: seq<string>)
    ensures |r| <= |chunks|
    ensures forall i :: 0 <= i < |r| ==> r[i] != "" && r[i] in chunks
    ensures Concat(r) == Concat(chunks)
    decreases |chunks|
  {
    if |chunks| == 0 then []
    else if chunks[0] == "" then Enqueue(chunks[1..])
    else [chunks[0]] + Enqueue(chunks[1..])
  }

  /** Enqueueing works chunk by chunk: the chunks of a longer stream are those of
      its first part followed by those of its second. */
  lemma {:induction false} EnqueueAppend(a: seq<string>, b: seq<string>)
    ensures Enqueue(a + b) == Enqueue(a) + Enqueue(b)
    decreases |a|
  {
    if |a| == 0 {
      assert a + b == b;
    } else {
      assert (a + b)[0] == a[0];
      assert (a + b)[1..] == a[1..] + b;
      EnqueueAppend(a[1..], b);
    }
  }

  /** A single chunk is forwarded exactly when it is not empty. */
  lemma EnqueueOne(c: string)
    ensures Enqueue([c]) == if c == "" then [] else [c]
  {
    assert [c][1..] == [];
  }

  /** The text of a reply's body, as the client reads it until the stream ends. */
  function BodyText(r: Reply): string {
    match r
    case Plain(_, t) => t
    case Stream(cs, _) => Concat(cs)
  }

  /** The values the template prints before the history can all be printed
      (one replaced by its `||` default is falsy, hence printable anyway). */
  predicate ContextPrintable(p: map<string, Json>) {
    && Printable(Get(p, "currentQuestion"))
    && Printable(Get(p, "currentRemediatingQuestion"))
    && Printable(Get(p, "currentOriginalQuestion"))
    && Printable(Get(p, "currentStudentAnswer"))
    && Printable(Get(p, "studentResponse"))
  }

  /** The prompt's template evaluated left to right: the context values, then the
      history, then the exam (the later values repeat earlier ones); the first
      substitution that throws decides the TypeError. */
  function PromptOrThrow(p: map<string, Json>, num: real -> string): (r: Result<string, TypeError>)
    ensures !ContextPrintable(p) ==> r == Failure(NoPrimitive)
    ensures ContextPrintable(p) && RenderHistory(Get(p, "conversationHistory"), num).Failure? ==>
              r == Failure(RenderHistory(Get(p, "conversationHistory"), num).error)
    ensures r.Success? <==>
              ContextPrintable(p) && RenderHistory(Get(p, "conversationHistory"), num).Success?
              && Printable(Get(p, "examContent"))
    ensures r.Failure? && r.error != NoPrimitive ==>
              ContextPrintable(p) && r == RenderHistory(Get(p, "conversationHistory"), num)
  {
    if !ContextPrintable(p) then Failure(NoPrimitive)
    else match RenderHistory(Get(p, "conversationHistory"), num)
      case Failure(t) => Failure(t)
      case Success(history) =>
        if !Printable(Get(p, "examContent")) then Failure(NoPrimitive) else Success(history)
  }

  /** `POST`: the checks in source order, the prompt, one streaming oracle call,
      and the forwarded chunks. A thrown `TypeError` reaches the outer `catch`
      with the message of its kind. */
  function Post(env: Env, body: Result<Json, string>): (r: Reply)
    ensures env.apiKey == "" ==> r == Plain(500, "API configuratie ontbreekt")
    ensures env.apiKey != "" && body.Success? && body.value == JNull ==> r == Crash(env.typeError(DestructureNull))
    ensures env.apiKey != "" && body.Success? && Props(body.value).Some?
            && !Truthy(Get(Props(body.value).value, "examContent"))
            ==> r == Plain(400, "Toets inhoud is vereist")
    ensures env.apiKey != "" && body.Success? && Props(body.value).Some?
            && Truthy(Get(Props(body.value).value, "examContent"))
            && PromptOrThrow(Props(body.value).value, env.num).Failure?
            ==> r == Crash(env.typeError(PromptOrThrow(Props(body.value).value, env.num).error))
    ensures r.Stream? ==>
              env.apiKey != "" && body.Success? && Props(body.value).Some?
              && Truthy(Get(Props(body.value).value, "examContent"))
    ensures r.Stream? && body.Success? && Props(body.value).Some? ==>
              var p := Props(body.value).value;
              var h := RenderHistory(Get(p, "conversationHistory"), env.num);
              ContextPrintable(p) && Printable(Get(p, "examContent"))
              && h.Success? && env.stream(ContinuePrompt(env, p, h.value)).Streamed?
              && BodyText(r) == Concat(env.stream(ContinuePrompt(env, p, h.value)).chunks)
              && r.closed == env.stream(ContinuePrompt(env, p, h.value)).failure.None?
  {
    if env.apiKey == "" then Plain(500, "API configuratie ontbreekt")
    else match body
      case Failure(m) => Crash(m)
      case Success(j) =>
        match Props(j)
        case None => Crash(env.typeError(DestructureNull))
        case Some(p) =>
          if !Truthy(Get(p, "examContent")) then Plain(400, "Toets inhoud is vereist")
          else match PromptOrThrow(p, env.num)
            case Failure(t) => Crash(env.typeError(t))
            case Success(history) =>
              var prompt := ContinuePrompt(env, p, history);
              match env.stream(prompt)
              case Refused(m) => Crash(m)
              case Streamed(chunks, failure) => Stream(Enqueue(chunks), failure.None?)
  }

  /** A `null` body and a history without `map` throw different TypeErrors, so the
      two requests get different 500 texts whenever the engine's messages differ. */
  lemma NullBodyAndBadHistoryDiffer(env: Env)
    requires env.apiKey != "" && env.typeError(DestructureNull) != env.typeError(NotAFunction)
    ensures var other := JObj(map["examContent" := JStr("x"), "conversationHistory" := JNum(5.0)]);
            && Post(env, Success(JNull)) == Crash(env.typeError(DestructureNull))
            && Post(env, Success(other)) == Crash(env.typeError(NotAFunction))
            && Post(env, Success(JNull)) != Post(env, Success(other))
  {
    var p := map["examContent" := JStr("x"), "conversationHistory" := JNum(5.0)];
    assert Get(p, "examContent") == Some(JStr("x"));
    assert Get(p, "conversationHistory") == Some(JNum(5.0));
    assert ContextPrintable(p);
    var a := "Er is een fout opgetreden: ";
    assert (a + env.typeError(DestructureNull))[|a|..] == env.typeError(DestructureNull);
    assert (a + env.typeError(NotAFunction))[|a|..] == env.typeError(NotAFunction);
  }

  /** A missing key or a falsy `examContent` is answered before the oracle is
      called: the reply does not depend on the oracle. */
  lemma RejectedBeforeOracle(env: Env, body: Result<Json, string>, other: string -> Upstream)
    requires env.apiKey == "" || (body.Success? && Props(body.value).Some?
               && !Truthy(Get(Props(body.value).value, "examContent")))
    ensures Post(env, body) == Post(env.(stream := other), body)
  {
  }

  /** `GET` is always refused. */
  function GetReply(): (r: Reply)
    ensures r.Plain? && r.status == 405
  {
    Plain(405, "GET method not allowed. Use POST to stream feedback.")
  }
}
