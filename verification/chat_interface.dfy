/** The chat panel: the message log, the text box and the loading flag; sending
    a message (the guard, the appended student message, the error message of a
    failed send), the reset of the log when the feedback text changes, the
    Enter key, and the formatting of the teacher's messages. */
module ChatInterface {
  import opened Text
  import opened Js
  import opened Wrappers
  import FeedbackDisplay

  datatype Sender = Teacher | Student

  /** A log entry. The content is the value as the component holds it: the
      student's messages are strings, the opening teacher message is whatever
      the feedback record's `feedback` field holds (`None` for `undefined`). */
  datatype Message = Message(sender: Sender, content: Option<Json>)

  /** The component state: the text box, the loading flag and the log. */
  datatype Chat = Chat(input: string, loading: bool, history: seq<Message>)

  /** How the parent's `onSendMessage` promise settled. */
  datatype Outcome = Resolved | Rejected

  const SendFailed := "Sorry, er is een fout opgetreden. Probeer je antwoord opnieuw te sturen."

  // ---------------------------------------------------------------------------
  // The log

  /** The effect on `feedbackData.feedback`: the log becomes the single teacher
      message carrying that value; the text box and the loading flag stay. */
  function Reset(c: Chat, feedback: Option<Json>): (r: Chat)
    ensures |r.history| == 1 && r.history[0].sender == Teacher && r.history[0].content == feedback
    ensures r.input == c.input && r.loading == c.loading
  {
    c.(history := [Message(Teacher, feedback)])
  }

  /** The state after mounting: empty text box, not loading, and the effect has
      run once. */
  function Mount(feedback: Option<Json>): (r: Chat)
    ensures r.input == "" && !r.loading
    ensures r.history == [Message(Teacher, feedback)]
  {
    Reset(Chat("", false, []), feedback)
  }

  // ---------------------------------------------------------------------------
  // Sending

  /** The guard of `handleSendMessage`: a non-blank text and no send in flight. */
  predicate CanSend(c: Chat) {
    !IsBlank(c.input) && !c.loading
  }

  /** The send button's `disabled` expression. */
  predicate SendDisabled(c: Chat) {
    IsBlank(c.input) || c.loading
  }

  /** The synchronous part of `handleSendMessage`: the state before the `await`
      and the text handed to `onSendMessage` (`None` when the guard returns). */
  function Send(c: Chat): (r: (Chat, Option<string>))
    ensures !CanSend(c) ==> r == (c, None)
    ensures CanSend(c) ==> r.1 == Some(Trim(c.input))
    ensures CanSend(c) ==>
              && r.0.history == c.history + [Message(Student, Some(JStr(Trim(c.input))))]
              && r.0.input == "" && r.0.loading
  {
    if !CanSend(c) then (c, None)
    else
      var text := Trim(c.input);
      (Chat("", true, c.history + [Message(Student, Some(JStr(text)))]), Some(text))
  }

  /** The rest of `handleSendMessage`: a rejection appends the fixed teacher
      message, and loading ends either way. */
  function Settle(c: Chat, outcome: Outcome): (r: Chat)
    ensures !r.loading && r.input == c.input
    ensures outcome == Resolved ==> r.history == c.history
    ensures outcome == Rejected ==> r.history == c.history + [Message(Teacher, Some(JStr(SendFailed)))]
  {
    var h := if outcome == Rejected then c.history + [Message(Teacher, Some(JStr(SendFailed)))] else c.history;
    c.(loading := false, history := h)
  }

  /** A send that passes the guard hands over a text that is not blank and has no
      white space at either end. */
  lemma SentTextTrimmed(c: Chat)
    requires CanSend(c)
    ensures Send(c).1.Some?
    ensures var sent := Send(c).1.value; sent != "" && Trim(sent) == sent
  {
    TrimIdempotent(c.input);
  }

  /** A send that passes the guard appends exactly one message, the student's,
      carrying the text handed over, and leaves the earlier ones as they were. */
  lemma SendAppendsStudentMessage(c: Chat)
    requires CanSend(c)
    ensures Send(c).1.Some?
    ensures var h := Send(c).0.history;
            && |h| == |c.history| + 1
            && h[..|c.history|] == c.history
            && h[|c.history|] == Message(Student, Some(JStr(Send(c).1.value)))
  {
    var h := Send(c).0.history;
    assert h[..|c.history|] == c.history;
  }

  /** The button is disabled exactly when pressing it would change nothing and
      send nothing. */
  lemma DisabledIffNoOp(c: Chat)
    ensures SendDisabled(c) <==> Send(c).1.None?
    ensures SendDisabled(c) <==> Send(c).0 == c
  {
    if !SendDisabled(c) {
      assert Send(c).0.loading;
    }
  }

  /** While a send is in flight a second one does nothing: at most one message is
      awaiting its answer. */
  lemma NoSecondSend(c: Chat)
    ensures var r := Send(c).0; Send(r).1.None? && Send(r).0 == r
  {
  }

  /** A whole turn: the log gains the student's message, followed by the error
      message exactly when the parent rejected; the text box is empty and loading
      is over afterwards. */
  lemma TurnAppends(c: Chat, outcome: Outcome)
    requires CanSend(c)
    ensures var r := Settle(Send(c).0, outcome);
            var sent := Message(Student, Some(JStr(Trim(c.input))));
            && r.input == "" && !r.loading
            && r.history == c.history + [sent]
                            + (if outcome == Rejected then [Message(Teacher, Some(JStr(SendFailed)))] else [])
  {
  }

  // ---------------------------------------------------------------------------
  // Keyboard and text box

  /** `handleKeyPress`: Enter without Shift sends; every other key leaves the
      state alone (Shift+Enter types a newline through the text box instead). */
  function KeyPress(c: Chat, key: string, shift: bool): (r: (Chat, Option<string>))
    ensures key == "Enter" && !shift ==> r == Send(c)
    ensures key != "Enter" || shift ==> r == (c, None)
  {
    if key == "Enter" && !shift then Send(c) else (c, None)
  }

  /** `onChange` of the text box, which is disabled while loading. */
  function Edit(c: Chat, text: string): (r: Chat)
    ensures c.loading ==> r == c
    ensures !c.loading ==> r.input == text && r.history == c.history && !r.loading
  {
    if c.loading then c else c.(input := text)
  }

  /** Shift+Enter never sends, whatever is typed. */
  lemma ShiftEnterNeverSends(c: Chat)
    ensures KeyPress(c, "Enter", true).1.None?
  {
  }

  // ---------------------------------------------------------------------------
  // Formatting

  /** The element for one line of a teacher message, checked in the panel's own
      order: the three markers, then non-blank text, then a line break. */
  function MessageLine(line: string): (e: FeedbackDisplay.Element)
    ensures e == FeedbackDisplay.FormatLine(line)
  {
    FeedbackDisplay.MarkersDistinct(Trim(line));
    if StartsWith(Trim(line), FeedbackDisplay.CheckEmoji) then
      FeedbackDisplay.Marked(FeedbackDisplay.Check, Trim(ReplaceFirst(line, FeedbackDisplay.CheckEmoji, "")))
    else if StartsWith(Trim(line), FeedbackDisplay.WarningEmoji) then
      FeedbackDisplay.Marked(FeedbackDisplay.Warning, Trim(ReplaceFirst(line, FeedbackDisplay.WarningEmoji, "")))
    else if StartsWith(Trim(line), FeedbackDisplay.TipEmoji) then
      FeedbackDisplay.Marked(FeedbackDisplay.Tip, Trim(ReplaceFirst(line, FeedbackDisplay.TipEmoji, "")))
    else if !IsBlank(line) then FeedbackDisplay.Paragraph(line)
    else FeedbackDisplay.Break
  }

  /** `formatMessage`: one element per `\n`-separated line, in order. */
  function FormatMessage(content: string): (r: seq<FeedbackDisplay.Element>)
    ensures |r| == |Split(content, '\n')|
    ensures forall i :: 0 <= i < |r| ==> r[i] == MessageLine(Split(content, '\n')[i])
  {
    var lines := Split(content, '\n');
    seq(|lines|, i requires 0 <= i < |lines| => MessageLine(lines[i]))
  }

  /** The panel formats a message exactly as the feedback view formats the same
      text. */
  lemma FormatMessageAgrees(content: string)
    ensures FormatMessage(content) == FeedbackDisplay.FormatFeedback(content)
  {
    var lines := Split(content, '\n');
    forall i | 0 <= i < |lines|
      ensures MessageLine(lines[i]) == FeedbackDisplay.FormatLine(lines[i])
    {
    }
  }

  /** What a teacher message shows: its formatted lines, or `None` when its
      content is not a string and `formatMessage` throws. Student messages are
      shown as they are and are not formatted. */
  function TeacherElements(m: Message): (r: Option<seq<FeedbackDisplay.Element>>)
    requires m.sender == Teacher
    ensures r.Some? <==> m.content.Some? && m.content.value.JStr?
  {
    if m.content.Some? && m.content.value.JStr? then Some(FormatMessage(m.content.value.s)) else None
  }

  /** Opening the chat on a feedback text shows, as its first message, exactly
      what the feedback view shows for that text. */
  lemma ChatOpensWithFeedback(text: string)
    ensures var c := Mount(Some(JStr(text)));
            TeacherElements(c.history[0]) == Some(FeedbackDisplay.FormatFeedback(text))
  {
    FormatMessageAgrees(text);
  }
}
