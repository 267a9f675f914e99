/** The page controller: the exam and feedback state, the three steps (upload,
    feedback, chat), the initial analysis and the chat turn as transitions on
    that state, reset, and which view the state renders. The route replies are
    parameters of the transitions. */
module ExamChecker {
  import opened Wrappers
  import opened Js

  datatype Step = Upload | Feedback | Chat

  /** The uploaded exam; `content` is `None` when the upload handed over
      `undefined`. */
  datatype ExamData = ExamData(content: Option<string>, fileName: string, fileType: string)

  /** The feedback record. Apart from the two fields the initial analysis fixes,
      every field is copied from a route reply, so each holds whatever JSON value
      (or `undefined`) the reply carried. */
  datatype FeedbackData = FeedbackData(
    summary: Option<Json>,
    initialGrade: Option<Json>,
    learningObjectives: Option<Json>,
    currentQuestion: Option<Json>,
    totalQuestions: Option<Json>,
    feedback: Option<Json>,
    isComplete: Option<Json>,
    finalGrade: Option<Json>,
    questionProgress: Option<Json>)

  datatype State = State(
    exam: Option<ExamData>,
    feedback: Option<FeedbackData>,
    analyzing: bool,
    step: Step,
    error: string)

  /** What `fetch('/api/analyze-exam', …)` produced: a response with its status
      and parsed body, or a rejection. */
  datatype HttpReply = Answered(status: int, body: Json) | Rejected(message: string)

  const AnalysisError := "Er is een fout opgetreden bij het analyseren van je toets. Probeer het opnieuw."
  const ChatError := "Er is een fout opgetreden bij het verwerken van je antwoord."

  predicate Ok(status: int) {
    200 <= status <= 299
  }

  /** The state of a freshly mounted page. */
  function Init(): (s: State)
    ensures s.step == Upload && s.exam.None? && s.feedback.None? && !s.analyzing && s.error == ""
  {
    State(None, None, false, Upload, "")
  }

  /** The properties of a reply body as `data.x` reads them; `None` when the body
      is `null` and reading throws. */
  function Data(reply: HttpReply): Option<map<string, Json>>
    requires reply.Answered?
  {
    Props(reply.body)
  }

  // ---------------------------------------------------------------------------
  // Initial analysis

  /** The request body of the initial analysis (`JSON.stringify` drops an
      `undefined` content). */
  function AnalysisRequest(exam: ExamData): (j: Json)
    ensures j.JObj? && Get(j.fields, "action") == Some(JStr("initial_analysis"))
    ensures Get(j.fields, "fileName") == Some(JStr(exam.fileName))
    ensures exam.content.Some? <==> "examContent" in j.fields
    ensures exam.content.Some? ==> Get(j.fields, "examContent") == Some(JStr(exam.content.value))
  {
    var base := map["fileName" := JStr(exam.fileName), "action" := JStr("initial_analysis")];
    JObj(if exam.content.Some? then base["examContent" := JStr(exam.content.value)] else base)
  }

  /** `handleFileUpload` up to the request: the error is cleared, analysing is on
      and the exam is recorded. */
  function UploadStarted(s: State, name: string, content: Option<string>, fileType: string): (r: State)
    ensures r.error == "" && r.analyzing
    ensures r.exam == Some(ExamData(content, name, fileType))
    ensures r.feedback == s.feedback && r.step == s.step
  {
    s.(error := "", analyzing := true, exam := Some(ExamData(content, name, fileType)))
  }

  /** The feedback record of a successful initial analysis. */
  function InitialFeedback(data: map<string, Json>): (f: FeedbackData)
    ensures f.currentQuestion == Some(JNum(1.0)) && f.isComplete == Some(JBool(false))
    ensures f.finalGrade.None?
    ensures f.summary == Get(data, "summary") && f.initialGrade == Get(data, "initialGrade")
    ensures f.learningObjectives == Get(data, "learningObjectives")
    ensures f.totalQuestions == Get(data, "totalQuestions")
    ensures f.feedback == Get(data, "firstQuestionFeedback")
    ensures Truthy(Get(data, "questionProgress")) ==> f.questionProgress == Get(data, "questionProgress")
    ensures !Truthy(Get(data, "questionProgress")) ==> f.questionProgress == Some(JObj(map[]))
  {
    FeedbackData(
      Get(data, "summary"), Get(data, "initialGrade"), Get(data, "learningObjectives"),
      Some(JNum(1.0)), Get(data, "totalQuestions"), Get(data, "firstQuestionFeedback"),
      Some(JBool(false)), None,
      if Truthy(Get(data, "questionProgress")) then Get(data, "questionProgress") else Some(JObj(map[])))
  }

  /** `handleFileUpload` after the reply: an ok reply with a readable body shows
      the feedback; anything else sets the error and keeps step and feedback.
      Analysing is off either way. */
  function UploadFinished(s: State, reply: HttpReply): (r: State)
    ensures !r.analyzing && r.exam == s.exam
    ensures reply.Answered? && Ok(reply.status) && Data(reply).Some? ==>
              r.step == Feedback && r.feedback == Some(InitialFeedback(Data(reply).value))
              && r.error == s.error
    ensures !(reply.Answered? && Ok(reply.status) && Data(reply).Some?) ==>
              r.error == AnalysisError && r.step == s.step && r.feedback == s.feedback
  {
    if reply.Answered? && Ok(reply.status) then
      match Data(reply)
      case None => s.(error := AnalysisError, analyzing := false)
      case Some(data) => s.(feedback := Some(InitialFeedback(data)), step := Feedback, analyzing := false)
    else s.(error := AnalysisError, analyzing := false)
  }

  /** The whole of `handleFileUpload`, with the route's reply to the request it
      builds as a function of that request. */
  function HandleFileUpload(s: State, name: string, content: Option<string>, fileType: string,
                            analyze: Json -> HttpReply): (r: State)
    ensures !r.analyzing && r.exam == Some(ExamData(content, name, fileType))
    ensures var reply := analyze(AnalysisRequest(ExamData(content, name, fileType)));
            (reply.Answered? && Ok(reply.status) && Data(reply).Some? ==>
               r.step == Feedback && r.error == ""
               && r.feedback == Some(InitialFeedback(Data(reply).value)))
            && (!(reply.Answered? && Ok(reply.status) && Data(reply).Some?) ==>
                  r.step == s.step && r.error == AnalysisError && r.feedback == s.feedback)
  {
    var exam := ExamData(content, name, fileType);
    UploadFinished(UploadStarted(s, name, content, fileType), analyze(AnalysisRequest(exam)))
  }

  // ---------------------------------------------------------------------------
  // Chat turn

  /** The request body of a chat turn (`undefined` fields are dropped). */
  function ChatRequest(exam: ExamData, f: FeedbackData, message: string): (j: Json)
    ensures j.JObj? && Get(j.fields, "action") == Some(JStr("continue_feedback"))
    ensures Get(j.fields, "studentResponse") == Some(JStr(message))
    ensures Get(j.fields, "fileName") == Some(JStr(exam.fileName))
    ensures Get(j.fields, "currentQuestion") == f.currentQuestion
    ensures Get(j.fields, "questionProgress") == f.questionProgress
    ensures Get(j.fields, "examContent") == if exam.content.Some? then Some(JStr(exam.content.value)) else None
  {
    var m := map["fileName" := JStr(exam.fileName), "action" := JStr("continue_feedback"),
                 "studentResponse" := JStr(message)];
    var m1 := if exam.content.Some? then m["examContent" := JStr(exam.content.value)] else m;
    var m2 := if f.currentQuestion.Some? then m1["currentQuestion" := f.currentQuestion.value] else m1;
    var m3 := if f.questionProgress.Some? then m2["questionProgress" := f.questionProgress.value] else m2;
    JObj(m3)
  }

  /** The feedback record after a chat reply: the reply's turn fields replace the
      old ones, the progress only when the reply has a truthy one, and the rest
      is kept. */
  function MergeChat(prev: FeedbackData, data: map<string, Json>): (f: FeedbackData)
    ensures f.summary == prev.summary && f.initialGrade == prev.initialGrade
    ensures f.learningObjectives == prev.learningObjectives && f.totalQuestions == prev.totalQuestions
    ensures f.currentQuestion == Get(data, "currentQuestion") && f.feedback == Get(data, "feedback")
    ensures f.isComplete == Get(data, "isComplete") && f.finalGrade == Get(data, "finalGrade")
    ensures Truthy(Get(data, "questionProgress")) ==> f.questionProgress == Get(data, "questionProgress")
    ensures !Truthy(Get(data, "questionProgress")) ==> f.questionProgress == prev.questionProgress
  {
    prev.(currentQuestion := Get(data, "currentQuestion"), feedback := Get(data, "feedback"),
          isComplete := Get(data, "isComplete"), finalGrade := Get(data, "finalGrade"),
          questionProgress := if Truthy(Get(data, "questionProgress")) then Get(data, "questionProgress")
                              else prev.questionProgress)
  }

  /** `handleChatMessage`: nothing without an exam and a feedback record; a failed
      turn sets the error and changes nothing else; a successful one merges the
      reply and returns to the feedback step only when the reply says the exam
      is complete. The error is not cleared by a successful turn.

      A 2xx reply whose body is `null` is not a failed turn: the merge is queued
      before `data.isComplete` throws into the catch, and when the page renders
      next the queued merge reads a property of `null` and throws, so the page
      crashes. `None` is that crash. */
  function HandleChatMessage(s: State, message: string, analyze: Json -> HttpReply): (r: Option<State>)
    ensures s.exam.None? || s.feedback.None? ==> r == Some(s)
    ensures r.Some? ==> r.value.exam == s.exam && r.value.analyzing == s.analyzing
    ensures s.exam.Some? && s.feedback.Some? ==>
              var reply := analyze(ChatRequest(s.exam.value, s.feedback.value, message));
              (r.None? <==> reply.Answered? && Ok(reply.status) && Data(reply).None?)
              && (reply.Answered? && Ok(reply.status) && Data(reply).Some? ==>
                    r.Some?
                    && r.value.feedback == Some(MergeChat(s.feedback.value, Data(reply).value))
                    && r.value.error == s.error
                    && (Truthy(Get(Data(reply).value, "isComplete")) ==> r.value.step == Feedback)
                    && (!Truthy(Get(Data(reply).value, "isComplete")) ==> r.value.step == s.step))
              && (!(reply.Answered? && Ok(reply.status)) ==> r == Some(s.(error := ChatError)))
  {
    if s.exam.None? || s.feedback.None? then Some(s)
    else
      var reply := analyze(ChatRequest(s.exam.value, s.feedback.value, message));
      if reply.Answered? && Ok(reply.status) then
        match Data(reply)
        case None => None
        case Some(data) =>
          var s1 := s.(feedback := Some(MergeChat(s.feedback.value, data)));
          Some(if Truthy(Get(data, "isComplete")) then s1.(step := Feedback) else s1)
      else Some(s.(error := ChatError))
  }

  /** Every chat turn the page survives keeps the summary, grade, objectives and
      question count it started from. */
  lemma ChatKeepsOverview(s: State, message: string, analyze: Json -> HttpReply)
    requires s.feedback.Some?
    ensures var r := HandleChatMessage(s, message, analyze);
            r.Some? ==>
            && r.value.feedback.Some?
            && r.value.feedback.value.summary == s.feedback.value.summary
            && r.value.feedback.value.initialGrade == s.feedback.value.initialGrade
            && r.value.feedback.value.learningObjectives == s.feedback.value.learningObjectives
            && r.value.feedback.value.totalQuestions == s.feedback.value.totalQuestions
  {
  }

  // ---------------------------------------------------------------------------
  // Navigation

  /** `resetExam`: back to an empty upload step; analysing is left as it is. */
  function Reset(s: State): (r: State)
    ensures r.exam.None? && r.feedback.None? && r.step == Upload && r.error == ""
    ensures r.analyzing == s.analyzing
    ensures !s.analyzing ==> r == Init()
  {
    s.(exam := None, feedback := None, step := Upload, error := "")
  }

  /** `onStartChat`: only the step changes; the chat view appears when there is
      a feedback record that is not complete, and otherwise nothing is shown. */
  function StartChat(s: State): (r: State)
    ensures r.exam == s.exam && r.feedback == s.feedback && r.error == s.error && r.analyzing == s.analyzing
    ensures Views(r) == if s.feedback.Some? && !Truthy(s.feedback.value.isComplete)
                        then [ChatView(s.feedback.value)] else []
  {
    s.(step := Chat)
  }

  /** `onBackToFeedback`: only the step changes, and the feedback view is shown
      whenever there is a feedback record. */
  function BackToFeedback(s: State): (r: State)
    ensures r.exam == s.exam && r.feedback == s.feedback && r.error == s.error && r.analyzing == s.analyzing
    ensures Views(r) == if s.feedback.Some? then [FeedbackView(s.feedback.value)] else []
  {
    s.(step := Feedback)
  }

  // ---------------------------------------------------------------------------
  // Rendering

  datatype View = UploadView(analyzing: bool) | FeedbackView(data: FeedbackData) | ChatView(data: FeedbackData)

  /** The views the page renders below the error banner, in order. */
  function Views(s: State): (vs: seq<View>)
    ensures |vs| <= 1
    ensures |vs| == 1 && vs[0].UploadView? <==> s.step == Upload
    ensures |vs| == 1 && vs[0].FeedbackView? <==> s.step == Feedback && s.feedback.Some?
    ensures |vs| == 1 && vs[0].ChatView? <==>
              s.step == Chat && s.feedback.Some? && !Truthy(s.feedback.value.isComplete)
    ensures |vs| == 1 && !vs[0].UploadView? ==> vs[0].data == s.feedback.value
  {
    (if s.step == Upload then [UploadView(s.analyzing)] else [])
    + (if s.step == Feedback && s.feedback.Some? then [FeedbackView(s.feedback.value)] else [])
    + (if s.step == Chat && s.feedback.Some? && !Truthy(s.feedback.value.isComplete)
       then [ChatView(s.feedback.value)] else [])
  }

  /** The error banner is shown exactly when the error text is non-empty. */
  predicate ShowsError(s: State) {
    s.error != ""
  }
}
