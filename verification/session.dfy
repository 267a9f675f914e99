/** The page wired to the analyze-exam route: the initial upload and the chat
    turn, with the page's `fetch` answered by the route itself. */
module Session {
  import opened Wrappers
  import opened Js
  import opened Text
  import AnalyzeExam
  import ExamChecker
  import ChatInterface

  /** The analyze-exam route as the page's `fetch` sees it: the request object
      arrives as it was sent, and the reply is the route's status and JSON body. */
  function Route(env: AnalyzeExam.Env): Json -> ExamChecker.HttpReply {
    j => ExamChecker.Answered(AnalyzeExam.Post(env, Success(j)).status, JObj(AnalyzeExam.Post(env, Success(j)).body))
  }

  // ---------------------------------------------------------------------------
  // Upload

  /** What the page's `fetch` gets from the route for a request object. */
  lemma RouteAnswer(env: AnalyzeExam.Env, j: Json)
    ensures Route(env)(j).Answered?
    ensures Route(env)(j).status == AnalyzeExam.Post(env, Success(j)).status
    ensures ExamChecker.Data(Route(env)(j)) == Some(AnalyzeExam.Post(env, Success(j)).body)
  {
  }

  /** An upload answered with 200 and an object body shows the feedback view on
      question 1, with no error. */
  lemma UploadAnswered(s: ExamChecker.State, exam: ExamChecker.ExamData, analyze: Json -> ExamChecker.HttpReply)
    requires analyze(ExamChecker.AnalysisRequest(exam)).Answered?
    requires analyze(ExamChecker.AnalysisRequest(exam)).status == 200
    requires ExamChecker.Data(analyze(ExamChecker.AnalysisRequest(exam))).Some?
    ensures var r := ExamChecker.HandleFileUpload(s, exam.fileName, exam.content, exam.fileType, analyze);
            && r.step == ExamChecker.Feedback && r.error == "" && !r.analyzing
            && r.feedback == Some(ExamChecker.InitialFeedback(ExamChecker.Data(analyze(ExamChecker.AnalysisRequest(exam))).value))
            && ExamChecker.Views(r) == [ExamChecker.FeedbackView(r.feedback.value)]
  {
  }

  /** The route's answer to the initial-analysis request of a non-empty exam,
      when the oracle answers. */
  lemma AcceptedRequest(env: AnalyzeExam.Env, exam: ExamChecker.ExamData, content: string)
    requires env.apiKey != "" && exam.content == Some(content) && content != ""
    requires env.generate(AnalyzeExam.InitialPrompt(env, Some(JStr(content)), Some(JStr(exam.fileName)))).Generated?
    ensures var j := ExamChecker.AnalysisRequest(exam);
            var text := env.generate(AnalyzeExam.InitialPrompt(env, Some(JStr(content)), Some(JStr(exam.fileName)))).text;
            AnalyzeExam.Post(env, Success(j)) == AnalyzeExam.Response(200, AnalyzeExam.PostProcess(text, env.parse))
  {
    var j := ExamChecker.AnalysisRequest(exam);
    assert AnalyzeExam.RequestFields(Success(j)) == Some(j.fields);
    AnalysisFields(exam, content);
    PrintedAnalysis(env, content, exam.fileName);
  }

  /** The fields the route reads from the page's initial-analysis request. */
  lemma AnalysisFields(exam: ExamChecker.ExamData, content: string)
    requires exam.content == Some(content)
    ensures var m := ExamChecker.AnalysisRequest(exam).fields;
            && Get(m, "examContent") == Some(JStr(content))
            && Get(m, "fileName") == Some(JStr(exam.fileName))
            && Get(m, "action") == Some(JStr("initial_analysis"))
  {
  }

  /** Strings print as themselves, so the oracle's text reaches post-processing. */
  lemma PrintedAnalysis(env: AnalyzeExam.Env, content: string, name: string)
    requires env.generate(AnalyzeExam.InitialPrompt(env, Some(JStr(content)), Some(JStr(name)))).Generated?
    ensures var text := env.generate(AnalyzeExam.InitialPrompt(env, Some(JStr(content)), Some(JStr(name)))).text;
            AnalyzeExam.Analyze(env, Some(JStr(content)), Some(JStr(name)))
              == AnalyzeExam.Response(200, AnalyzeExam.PostProcess(text, env.parse))
  {
  }

  /** A non-empty upload with the key configured and the oracle answering shows
      the feedback view on question 1, with no error. */
  lemma UploadShowsFeedback(env: AnalyzeExam.Env, s: ExamChecker.State, name: string, content: string,
                            fileType: string)
    requires env.apiKey != "" && content != ""
    requires env.generate(AnalyzeExam.InitialPrompt(env, Some(JStr(content)), Some(JStr(name)))).Generated?
    ensures var r := ExamChecker.HandleFileUpload(s, name, Some(content), fileType, Route(env));
            && r.step == ExamChecker.Feedback && r.error == "" && !r.analyzing
            && r.feedback.Some? && r.feedback.value.currentQuestion == Some(JNum(1.0))
            && ExamChecker.Views(r) == [ExamChecker.FeedbackView(r.feedback.value)]
  {
    var exam := ExamChecker.ExamData(Some(content), name, fileType);
    AcceptedRequest(env, exam, content);
    RouteAnswer(env, ExamChecker.AnalysisRequest(exam));
    UploadAnswered(s, exam, Route(env));
  }

  /** An upload that hands over no content, or empty content, is answered with
      400: the page shows the analysis error and stays where it was. */
  lemma EmptyUploadRejected(env: AnalyzeExam.Env, s: ExamChecker.State, name: string, content: Option<string>,
                            fileType: string)
    requires env.apiKey != "" && (content.None? || content == Some(""))
    ensures var r := ExamChecker.HandleFileUpload(s, name, content, fileType, Route(env));
            && r.error == ExamChecker.AnalysisError && r.step == s.step && r.feedback == s.feedback
            && !r.analyzing
  {
    var j := ExamChecker.AnalysisRequest(ExamChecker.ExamData(content, name, fileType));
    assert AnalyzeExam.RequestFields(Success(j)) == Some(j.fields);
    assert !Truthy(Get(j.fields, "examContent"));
  }

  /** When the oracle's text holds no braces, the page shows the fixed fallback:
      the raw text as feedback, grade 6.0, five questions, the first under
      review. */
  lemma UploadFallback(env: AnalyzeExam.Env, s: ExamChecker.State, name: string, content: string,
                       fileType: string, text: string)
    requires env.apiKey != "" && content != ""
    requires env.generate(AnalyzeExam.InitialPrompt(env, Some(JStr(content)), Some(JStr(name)))) == AnalyzeExam.Generated(text)
    requires !AnalyzeExam.HasBracePair(text)
    ensures var r := ExamChecker.HandleFileUpload(s, name, Some(content), fileType, Route(env));
            && r.feedback.Some?
            && r.feedback.value.feedback == Some(JStr(text))
            && r.feedback.value.initialGrade == Some(JNum(6.0))
            && r.feedback.value.totalQuestions == Some(JNum(5.0))
            && r.feedback.value.questionProgress == Some(JObj(AnalyzeExam.FallbackProgress))
  {
    var exam := ExamChecker.ExamData(Some(content), name, fileType);
    AcceptedRequest(env, exam, content);
    RouteAnswer(env, ExamChecker.AnalysisRequest(exam));
    UploadAnswered(s, exam, Route(env));
    FallbackRecord(text);
  }

  /** The feedback record the page builds from the fallback body. */
  lemma FallbackRecord(text: string)
    ensures var f := ExamChecker.InitialFeedback(AnalyzeExam.FallbackBody(text));
            && f.feedback == Some(JStr(text)) && f.initialGrade == Some(JNum(6.0))
            && f.totalQuestions == Some(JNum(5.0))
            && f.questionProgress == Some(JObj(AnalyzeExam.FallbackProgress))
  {
    AnalyzeExam.FallbackShape(text);
  }

  // ---------------------------------------------------------------------------
  // Chat

  /** One chat turn across the panel and the page: the panel's send, the page's
      handler on the route, and the settling of the send. The page's handler
      catches every failure itself, so the send always resolves. */
  function ChatTurn(env: AnalyzeExam.Env, s: ExamChecker.State, c: ChatInterface.Chat)
    : (r: (Option<ExamChecker.State>, ChatInterface.Chat))
    ensures !ChatInterface.CanSend(c) ==> r == (Some(s), c)
    ensures ChatInterface.CanSend(c) ==>
              && r.0 == ExamChecker.HandleChatMessage(s, Trim(c.input), Route(env))
              && r.1 == ChatInterface.Settle(ChatInterface.Send(c).0, ChatInterface.Resolved)
  {
    var (c1, sent) := ChatInterface.Send(c);
    if sent.None? then (Some(s), c)
    else (ExamChecker.HandleChatMessage(s, sent.value, Route(env)), ChatInterface.Settle(c1, ChatInterface.Resolved))
  }

  /** The route answers every chat request of the page with a status outside
      the 2xx range. */
  lemma RouteRejectsChat(env: AnalyzeExam.Env, exam: ExamChecker.ExamData, f: ExamChecker.FeedbackData,
                         message: string)
    ensures var reply := Route(env)(ExamChecker.ChatRequest(exam, f, message));
            reply.Answered? && !ExamChecker.Ok(reply.status)
  {
    var j := ExamChecker.ChatRequest(exam, f, message);
    RouteAnswer(env, j);
    assert AnalyzeExam.RequestFields(Success(j)) == Some(j.fields);
    AnalyzeExam.ContinueFeedbackRejected(env, Success(j));
  }

  /** A chat reply outside the 2xx range only sets the page's chat error. */
  lemma ChatFailed(s: ExamChecker.State, message: string, analyze: Json -> ExamChecker.HttpReply)
    requires s.exam.Some? && s.feedback.Some?
    requires var reply := analyze(ExamChecker.ChatRequest(s.exam.value, s.feedback.value, message));
             reply.Answered? && !ExamChecker.Ok(reply.status)
    ensures ExamChecker.HandleChatMessage(s, message, analyze) == Some(s.(error := ExamChecker.ChatError))
  {
  }

  /** The error banner and the view are independent: setting the error changes
      no view. */
  lemma ErrorKeepsViews(s: ExamChecker.State, error: string)
    ensures ExamChecker.Views(s.(error := error)) == ExamChecker.Views(s)
  {
  }

  /** The page asks the analyze-exam route to continue the conversation, which
      that route never does: every chat turn ends with the page's chat error, the
      feedback record and the view unchanged, and the panel holding the
      student's message with no answer and no error message of its own. */
  lemma ChatNeverAdvances(env: AnalyzeExam.Env, s: ExamChecker.State, c: ChatInterface.Chat)
    requires s.exam.Some? && s.feedback.Some? && ChatInterface.CanSend(c)
    ensures var r := ChatTurn(env, s, c);
            && r.0 == Some(s.(error := ExamChecker.ChatError))
            && ExamChecker.Views(r.0.value) == ExamChecker.Views(s)
            && r.1.history == c.history + [ChatInterface.Message(ChatInterface.Student, Some(JStr(Trim(c.input))))]
            && !r.1.loading && r.1.input == ""
  {
    var m := Trim(c.input);
    RouteRejectsChat(env, s.exam.value, s.feedback.value, m);
    ChatFailed(s, m, Route(env));
    ErrorKeepsViews(s, ExamChecker.ChatError);
    ChatInterface.TurnAppends(c, ChatInterface.Resolved);
  }
}
