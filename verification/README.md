# feedback-op-toetsen, modelled in Dafny

A model of the core of *feedback-op-toetsen*, a Next.js application in which a
student uploads a chemistry exam, receives feedback from a text-generation
model, and then chats about the questions one at a time.

The model covers seven source files:

- the three API routes:
  - `analyze-exam`: request gating, the initial-analysis prompt, the JSON envelope taken from the model's reply, the fixed fallback envelope, and the three section extractors.
  - `stream-feedback`: request gating, the continue-turn prompt with its defaults and numbered history, and the chunk loop.
  - `upload-document`: presence, type and size checks, the PDF fallback sanitiser, and the word and character counts.
- the four client components:
  - the upload widget's classification and validation;
  - the page controller's state machine (upload, feedback, chat);
  - the feedback view's helpers (grade bands, status colours, indicators, completed count, line formatter, panels);
  - the chat panel's send guard, log and formatter.

Everything is written as immutable datatypes and pure functions. The
text-generation model, `JSON.parse`, `JSON.stringify`, `Number#toString`,
mammoth, pdf-parse, the UTF-8 decoder, `FileReader` and `fetch` are
parameters of the functions that call them: function-typed fields of an `Env`
record, or the route's reply passed in as a value.

The modules follow the source files:

| module | file | source |
|---|---|---|
| `Wrappers` | wrappers.dfy | `Option` and `Result` |
| `Text` | text.dfy | the JavaScript string operations used: `trim`, `\s`, `split`, `join`, `replace`, `toLowerCase`, regex search, UTF-16 `length`, decimal numerals |
| `Js` | js.dfy | JSON values, truthiness, template interpolation, property access |
| `AnalyzeExam` | analyze_exam.dfy | src/app/api/analyze-exam/route.ts |
| `StreamFeedback` | stream_feedback.dfy | src/app/api/stream-feedback/route.ts |
| `UploadDocument` | upload_document.dfy | src/app/api/upload-document/route.ts |
| `FileUpload` | file_upload.dfy | src/components/FileUpload.tsx |
| `ExamChecker` | exam_checker.dfy | src/components/ExamChecker.tsx |
| `FeedbackDisplay` | feedback_display.dfy | src/components/FeedbackDisplay.tsx |
| `ChatInterface` | chat_interface.dfy | src/components/ChatInterface.tsx |
| `Session` | session.dfy | the page wired to the analyze-exam route |

Some notable things the proofs show about the code as written:

- The chat never advances. The page sends every chat message to the analyze-exam route with action `continue_feedback`. That route answers only `initial_analysis` and returns 400 `Onbekende actie` for anything else. So every chat turn ends with the page's chat error, and the feedback record stays unchanged (`Session.ChatNeverAdvances`).
  - The page's handler catches that failure itself, so the panel's own error message is never appended.
  - The stream-feedback route, which does build a continue-turn prompt, is not called by any of the modelled components.
  - A 2xx chat reply whose body is `null` would crash the page rather than set the error: the merge is queued before `data.isComplete` throws, and it reads a property of `null` when the page renders next. The route never answers that way, so in the composed program this does not happen.
- The three section extractors are independent. Each takes the first case-insensitive occurrence of its marker, whatever the order of the markers. A missing or falsy `firstQuestionFeedback` drops all three fields from the response, even when the model's JSON supplied them.
- The PDF branch of the upload route never answers 400. The inner `catch` turns every pdf-parse failure into the sanitiser's text, so the outer "PDF verwerking niet beschikbaar" branch cannot be reached (`UploadDocument.PdfNeverRejected`).
- A request value that is an object with its own "toString" key, alone or inside an array, cannot be printed by the prompt templates: both routes answer 500 before calling the model (`AnalyzeExam.UnprintableExamRejected`). The page only ever sends strings there.
- The TAAK and ONTHOUD lines of the continue-turn prompt interpolate `currentRemediatingQuestion` without the default the CONTEXT block uses. An absent value therefore reads `undefined` there.

What these files do not do:

- Nothing in them advances `currentQuestion`, parses the four markers in a fixed order, or ends the session.
- The feedback record's `currentQuestion`, `isComplete` and `finalGrade` are copied verbatim from whatever a reply carries.

## Model

| member | source | states |
|---|---|---|
| AnalyzeExam.InitialPrompt | src/app/api/analyze-exam/route.ts:94-113 | the initial prompt opens with the teacher instructions and contains the exam content and the file name verbatim, as `${}` prints them |
| AnalyzeExam.Post | src/app/api/analyze-exam/route.ts:61-182 | only 200, 400 or 500 is ever returned; a missing key gives the 500 configuration body; an unreadable body gives the outer catch's 500; a destructured `null` body gives the 500 with the engine's message for that TypeError; a 2xx answer only for a configured key, a truthy `examContent`, action `initial_analysis`, and an exam and file name the template can print |
| AnalyzeExam.Dispatch | src/app/api/analyze-exam/route.ts:79-166 | a falsy `examContent` gives 400 "Toets inhoud is vereist" before the action is looked at; any action other than `initial_analysis` gives 400 "Onbekende actie"; a 2xx answer implies both checks passed |
| AnalyzeExam.Analyze | src/app/api/analyze-exam/route.ts:93-160 | an exam or file name the template cannot print (an object with its own "toString" key, at any depth of an array) throws before the model is called and gives the 500 with the engine's message for that TypeError; otherwise the answer is 200 exactly when the model call succeeds, and 500 otherwise |
| AnalyzeExam.UnprintableExamRejected | src/app/api/analyze-exam/route.ts:93-101 | an exam sent as an object with its own "toString" key gets the 500 of the failed conversion, whatever the model would have said |
| AnalyzeExam.ContinueFeedbackRejected | src/app/api/analyze-exam/route.ts:163-166 | a `continue_feedback` request, the one the page sends for every chat message, never gets a 2xx answer, and gets 400 when the key is set |
| AnalyzeExam.RejectedBeforeOracle | src/app/api/analyze-exam/route.ts:64-92 | every request the route rejects is answered without the model: the answer is the same whatever the model would have said |
| AnalyzeExam.EnvelopeCandidate | src/app/api/analyze-exam/route.ts:121-124 | a candidate exists exactly when some `{` precedes some `}`; it is the text from the first `{` to the last `}`, both included |
| AnalyzeExam.FallbackShape | src/app/api/analyze-exam/route.ts:144-159 | the fallback body has success true, grade 6.0, five questions, the fixed progress map, and the model's raw text as the first feedback |
| AnalyzeExam.FallbackProgressShape | src/app/api/analyze-exam/route.ts:155 | the fallback progress has exactly the keys "1" to "5": question 1 under review, the rest pending |
| AnalyzeExam.SectionStop | src/app/api/analyze-exam/route.ts:131-132 | the lazy group before the stop-or-end lookahead ends at the first case-insensitive occurrence of the stop marker after the start, or at the end of the text |
| AnalyzeExam.Section | src/app/api/analyze-exam/route.ts:130-132 | a section exists exactly when its marker occurs (case-insensitively); it is the trimmed text from just after the first occurrence to the section's end |
| AnalyzeExam.SectionFrom | src/app/api/analyze-exam/route.ts:137-139 | the extracted value is the trimmed text between the first marker and its stop |
| AnalyzeExam.Remediation | src/app/api/analyze-exam/route.ts:130 | the remediation is undefined exactly when "### REMEDIERENDE VRAAG:" is absent; otherwise it is everything after the first occurrence, trimmed |
| AnalyzeExam.OriginalQuestion | src/app/api/analyze-exam/route.ts:131 | the question is undefined exactly when "### VRAAG:" is absent; otherwise it is the trimmed text up to the next "### JOUW ANTWOORD:" or the end |
| AnalyzeExam.StudentAnswer | src/app/api/analyze-exam/route.ts:132 | the answer is undefined exactly when "### JOUW ANTWOORD:" is absent; otherwise it is the trimmed text up to the next "### FEEDBACK:" or the end |
| AnalyzeExam.FirstFeedback | src/app/api/analyze-exam/route.ts:129 | a falsy `firstQuestionFeedback` reads as ""; a truthy one can be searched only when it is a string (otherwise `.match` throws) |
| AnalyzeExam.Override | src/app/api/analyze-exam/route.ts:137-139 | an extracted field is set to its string, or dropped when undefined; no other key changes |
| AnalyzeExam.Merge | src/app/api/analyze-exam/route.ts:134-140 | the three extracted fields win over the model's same-named keys; every other model key is kept; `success` is true unless the model's JSON supplied it |
| AnalyzeExam.PostProcess | src/app/api/analyze-exam/route.ts:119-159 | with no brace pair, or an unparseable candidate, or a non-string truthy first feedback, the fallback body is used; otherwise the parsed data with the extracted fields merged over it |
| AnalyzeExam.EmptyFeedbackDropsExtracted | src/app/api/analyze-exam/route.ts:129-139 | a missing or falsy `firstQuestionFeedback` removes all three extracted keys from the response, whatever the model put under them |
| StreamFeedback.HistoryLines | src/app/api/stream-feedback/route.ts:102-103 | line i is "i+1. LEERLING: content" for a student entry and "i+1. DOCENT: content" otherwise, one per entry in order; the first entry that is `null` (reading `msg.type`) or has a content the template cannot print throws, and decides which TypeError |
| StreamFeedback.RenderHistory | src/app/api/stream-feedback/route.ts:102-104 | an absent, null or empty history renders as "Geen eerdere conversatie"; a non-empty array renders as its lines joined by newlines; any other value has no `map` and throws a not-a-function TypeError; an array throws exactly when some entry throws, with the first such entry's TypeError |
| StreamFeedback.HistoryRoundTrip | src/app/api/stream-feedback/route.ts:102-104 | when no content holds a newline, splitting the rendered history at newlines gives back exactly the entry lines in order |
| StreamFeedback.EntryLineOneLine | src/app/api/stream-feedback/route.ts:103 | an entry whose content holds no newline renders to a single line |
| StreamFeedback.ContextParts | src/app/api/stream-feedback/route.ts:91-98 | the CONTEXT block opens with the teacher instructions; the remediation defaults to "Eerste interactie" and the original question and answer to "Nog niet bepaald" when falsy |
| StreamFeedback.TaskParts | src/app/api/stream-feedback/route.ts:99-118 | the progress, history and exam blocks carry the rendered history and the exam content verbatim |
| StreamFeedback.ContinuePrompt | src/app/api/stream-feedback/route.ts:91-118 | the prompt opens with the teacher instructions and contains the student's response, the exam content, the history and the three defaulted context values verbatim |
| StreamFeedback.Enqueue | src/app/api/stream-feedback/route.ts:127-134 | only non-empty chunks are enqueued, each one of the chunks, and together they spell exactly the concatenation of all chunk texts |
| StreamFeedback.EnqueueAppend | src/app/api/stream-feedback/route.ts:127-134 | the loop handles chunks one at a time: the chunks enqueued for a stream are those of its first part followed by those of its second, so arrival order is kept |
| StreamFeedback.EnqueueOne | src/app/api/stream-feedback/route.ts:128-133 | a single chunk is enqueued exactly when its text is not empty; with the append lemma this pins the enqueued chunks to the non-empty chunks in arrival order |
| StreamFeedback.PromptOrThrow | src/app/api/stream-feedback/route.ts:90-118 | the template's substitutions in order: an unprintable context value throws first, then the history's own TypeError, then an unprintable exam; the prompt is built exactly when none throws |
| StreamFeedback.Post | src/app/api/stream-feedback/route.ts:61-155 | a missing key gives 500; a `null` body gives the 500 with the destructuring TypeError's message; a falsy `examContent` gives 400; a prompt that throws gives the 500 with the message of the TypeError it threw; a streamed reply implies all checks passed, and its body is the concatenation of the model's chunks, closed normally exactly when the stream did not fail |
| StreamFeedback.NullBodyAndBadHistoryDiffer | src/app/api/stream-feedback/route.ts:71-81 | a `null` body and a history without `map` get different 500 texts whenever the engine's two messages differ |
| StreamFeedback.RejectedBeforeOracle | src/app/api/stream-feedback/route.ts:64-85 | a missing key or a falsy `examContent` is answered without calling the model |
| StreamFeedback.GetReply | src/app/api/stream-feedback/route.ts:157-159 | GET is refused with 405 |
| UploadDocument.DocxPdfExclusive | src/app/api/upload-document/route.ts:14-16 | no name is both a `.docx` and a `.pdf` name |
| UploadDocument.SanitiseChar | src/app/api/upload-document/route.ts:49 | an allowed character is kept; any other becomes one space per UTF-16 code unit |
| UploadDocument.Sanitise | src/app/api/upload-document/route.ts:49 | the result holds only printable ASCII, newline, carriage return and tab, and has the input's UTF-16 length |
| UploadDocument.SanitiseKeepsAllowed | src/app/api/upload-document/route.ts:49 | a text of allowed characters is left unchanged |
| UploadDocument.SanitiseIdempotent | src/app/api/upload-document/route.ts:49 | sanitising twice is sanitising once |
| UploadDocument.SanitisePointwise | src/app/api/upload-document/route.ts:49 | within the Basic Multilingual Plane, position i of the result is the input's character when allowed and a space otherwise |
| UploadDocument.SplitOnSpace | src/app/api/upload-document/route.ts:67 | `split(/\s+/)` yields at least one piece, and no piece holds white space |
| UploadDocument.NonEmpty | src/app/api/upload-document/route.ts:67 | the filter keeps only non-empty pieces, each one of the input's |
| UploadDocument.WordCountIsWordStarts | src/app/api/upload-document/route.ts:67 | the split-and-filter word count equals the number of positions where a non-space follows a space or the start |
| UploadDocument.NoWordsIffBlank | src/app/api/upload-document/route.ts:67 | there are no word starts exactly when the text is all white space |
| UploadDocument.WordCountBounds | src/app/api/upload-document/route.ts:67-68 | `wordCount` is 0 exactly for empty or blank text, and never exceeds `characterCount` |
| UploadDocument.Success | src/app/api/upload-document/route.ts:61-69 | the success reply carries the extracted text, and `characterCount` is its UTF-16 length |
| UploadDocument.Post | src/app/api/upload-document/route.ts:4-78 | a missing file gives 400 before anything else; a name that is neither `.docx` nor `.pdf` gives 400; the size check comes after the type check and 10 MiB itself is accepted; 200 exactly for a readable supported file within the bound whose docx extraction succeeds, with counts of the returned text |
| UploadDocument.PdfNeverRejected | src/app/api/upload-document/route.ts:39-58 | a readable PDF within the bound is always accepted, with the sanitised UTF-8 text when pdf-parse is unavailable |
| UploadDocument.GetReply | src/app/api/upload-document/route.ts:80-85 | GET is refused with 405 |
| FileUpload.ImageNameEnds | src/components/FileUpload.tsx:20 | a lowered image name ends in `g`, `p` or `if` |
| FileUpload.PdfNameEnds | src/components/FileUpload.tsx:21 | a lowered PDF name ends in `df` |
| FileUpload.DocxNameEnds | src/components/FileUpload.tsx:22 | a lowered Word name ends in `x` |
| FileUpload.TextNameEnds | src/components/FileUpload.tsx:23 | a lowered text name ends in `t` or `d` |
| FileUpload.CategoriesExclusive | src/components/FileUpload.tsx:19-23 | at most one of image, PDF, Word and text holds for any name |
| FileUpload.AcceptListsExtensions | src/components/FileUpload.tsx:173 | the `accept` attribute lists exactly the ten handled extensions, each with its dot, and a name is supported exactly when its lowered form ends in one of them |
| FileUpload.AcceptSplits | src/components/FileUpload.tsx:173 | splitting the `accept` attribute at commas gives back its entries |
| FileUpload.SupportedIffAccepted | src/components/FileUpload.tsx:19-23 | a name passes the widget's type check exactly when its lowered form ends in an entry of the `accept` list |
| FileUpload.AcceptedEntry | src/components/FileUpload.tsx:173 | every supported name ends in some entry of the `accept` list |
| FileUpload.EntrySupported | src/components/FileUpload.tsx:173 | every name ending in an entry of the `accept` list is supported |
| FileUpload.ServerTypesAgree | src/components/FileUpload.tsx:21-22 | the names the widget sends to the upload route are exactly those the route accepts |
| FileUpload.HandleFileSelect | src/components/FileUpload.tsx:15-90 | an unsupported name gives the formats error and never reaches `onFileUpload`; the size check follows the type check; images are handed over as data URLs tagged `image`, text files as text tagged `text`, documents tagged `document` |
| FileUpload.DocumentReply | src/components/FileUpload.tsx:68-89 | a non-ok response or a rejected fetch shows an error starting "Fout bij uploaden: "; an ok response hands over its `content` as a document |
| FileUpload.ClientServerAgree | src/components/FileUpload.tsx:68-85 | a document within the bound passes the route's checks; the widget hands over exactly the text the route extracted, or shows the route's 500 message |
| FileUpload.Drop | src/components/FileUpload.tsx:92-100 | only the first dropped file is handled; an empty list does nothing |
| FileUpload.Input | src/components/FileUpload.tsx:112-117 | the file input follows the same rule, and a missing list does nothing |
| ExamChecker.Init | src/components/ExamChecker.tsx:27-31 | the page starts on the upload step, with no exam, no feedback, no error and not analysing |
| ExamChecker.AnalysisRequest | src/components/ExamChecker.tsx:52-56 | the analysis request carries the content, the file name and action `initial_analysis`; an undefined content is left out |
| ExamChecker.UploadStarted | src/components/ExamChecker.tsx:34-44 | before the request the error is cleared, analysing is on and the exam is recorded |
| ExamChecker.InitialFeedback | src/components/ExamChecker.tsx:65-74 | the record copies the reply's fields, fixes question 1 and not complete, and takes the reply's progress or `{}` |
| ExamChecker.UploadFinished | src/components/ExamChecker.tsx:59-82 | an ok reply with a readable body shows the feedback step; anything else sets the analysis error and keeps step and feedback; analysing is off either way |
| ExamChecker.HandleFileUpload | src/components/ExamChecker.tsx:33-83 | the whole upload: success shows the feedback with the error cleared; failure shows the analysis error and keeps step and feedback |
| ExamChecker.ChatRequest | src/components/ExamChecker.tsx:94-101 | the chat request carries action `continue_feedback`, the student's message, the file name, and the current question and progress |
| ExamChecker.MergeChat | src/components/ExamChecker.tsx:110-117 | the turn fields are replaced by the reply's; summary, grade, objectives and question count are kept; the old progress stays unless the reply has a truthy one |
| ExamChecker.HandleChatMessage | src/components/ExamChecker.tsx:85-126 | without an exam or feedback nothing happens; a non-2xx reply or a rejected fetch only sets the chat error; a 2xx reply with an object body merges it and returns to the feedback step exactly when the reply says complete; a 2xx reply with a `null` body crashes the page, because the queued merge reads a property of `null` on the next render |
| ExamChecker.ChatKeepsOverview | src/components/ExamChecker.tsx:110-117 | every chat turn the page survives keeps the summary, the initial grade, the objectives and the question count |
| ExamChecker.Reset | src/components/ExamChecker.tsx:128-133 | reset clears exam, feedback and error and returns to upload; when not analysing it is the initial state |
| ExamChecker.StartChat | src/components/ExamChecker.tsx:161 | starting the chat shows the chat view when there is an incomplete feedback record, and nothing otherwise |
| ExamChecker.BackToFeedback | src/components/ExamChecker.tsx:170 | going back shows the feedback view whenever there is a feedback record |
| ExamChecker.Views | src/components/ExamChecker.tsx:151-172 | at most one view is shown; the chat view needs a feedback record that is not complete |
| FeedbackDisplay.GradeBand | src/components/FeedbackDisplay.tsx:26-31 | exactly one band applies: at least 8 green, at least 6.5 blue, at least 5.5 yellow, else red |
| FeedbackDisplay.GradeBandMonotone | src/components/FeedbackDisplay.tsx:26-31 | a higher grade never gets a worse band |
| FeedbackDisplay.ProgressColor | src/components/FeedbackDisplay.tsx:33-39 | completed is green, reviewing blue, anything else grey |
| FeedbackDisplay.StatusAt | src/components/FeedbackDisplay.tsx:135 | a missing or falsy progress entry reads as pending |
| FeedbackDisplay.Indicators | src/components/FeedbackDisplay.tsx:134-145 | one indicator per question 1 to total, in order, each with its status, colour and title |
| FeedbackDisplay.CompletedKeys | src/components/FeedbackDisplay.tsx:108 | the keys counted are exactly those whose value is "completed" |
| FeedbackDisplay.CompletedCount | src/components/FeedbackDisplay.tsx:108 | the completed count never exceeds the number of entries, and is 0 exactly when no entry is completed |
| FeedbackDisplay.IndicatorColors | src/components/FeedbackDisplay.tsx:108-140 | a question's indicator is green exactly when its key is among the completed keys the progress bar counts, and blue exactly when its key holds "reviewing" |
| FeedbackDisplay.FallbackIndicators | src/components/FeedbackDisplay.tsx:134-140 | the fallback progress shows question 1 blue and the other four grey, with nothing completed |
| FeedbackDisplay.MarkersDistinct | src/components/FeedbackDisplay.tsx:46-63 | a line starts with at most one of the three markers |
| FeedbackDisplay.FormatLine | src/components/FeedbackDisplay.tsx:46-67 | a line is marked exactly when its trimmed form starts with a marker, and its text is the line without the first occurrence of the marker, trimmed; a non-blank line is a paragraph of itself; a blank line is a break |
| FeedbackDisplay.FormatFeedback | src/components/FeedbackDisplay.tsx:41-69 | one element per `\n`-separated line, in order |
| FeedbackDisplay.FormatJoinedLines | src/components/FeedbackDisplay.tsx:43-45 | newline-free lines joined by newlines are formatted one element each, in order |
| FeedbackDisplay.BreakIffWhiteSpace | src/components/FeedbackDisplay.tsx:64-67 | a line becomes a break exactly when it is all white space |
| FeedbackDisplay.MarkedLineText | src/components/FeedbackDisplay.tsx:46-62 | leading white space, a marker and a rest give that marker with the rest, trimmed |
| FeedbackDisplay.PanelsFor | src/components/FeedbackDisplay.tsx:76-231 | rendering fails exactly when an evaluated expression throws: `toFixed` of a non-number initial grade (line 90), `Object.values` of an undefined or null progress (108), an object as the question count (108), `formatFeedback` of a non-string summary (153), an object as the start button's question (201), and, once complete, `toFixed` of a defined non-null non-number final grade (100, 220) or `formatFeedback` of a non-string feedback (226); otherwise the start panel shows exactly when not complete, the congratulations panel exactly when complete, the final grade only when complete and truthy, and the start label is "Start met Vraag " followed by the question as React renders it |
| FeedbackDisplay.InitialPanels | src/components/FeedbackDisplay.tsx:76-231 | the record built from an initial analysis renders exactly when the reply's grade is a number, its summary a string and its question count renderable, and then shows the start button for question 1 without a final grade |
| FeedbackDisplay.FallbackPanels | src/app/api/analyze-exam/route.ts:144-159 | the page renders the fallback record, with the start button for question 1 |
| ChatInterface.Reset | src/components/ChatInterface.tsx:38-45 | a new feedback text resets the log to a single teacher message carrying it |
| ChatInterface.Mount | src/components/ChatInterface.tsx:30-45 | the panel opens with an empty text box, not loading, and the feedback as its only message |
| ChatInterface.Send | src/components/ChatInterface.tsx:60-72 | a blank input or a send in flight changes nothing; otherwise one student message with the trimmed input is appended, the box is cleared and loading starts |
| ChatInterface.Settle | src/components/ChatInterface.tsx:74-90 | loading ends either way; a rejection appends exactly the fixed error message |
| ChatInterface.SentTextTrimmed | src/components/ChatInterface.tsx:61-66 | the text handed to the parent is non-empty and already trimmed |
| ChatInterface.SendAppendsStudentMessage | src/components/ChatInterface.tsx:63-70 | a send appends exactly one message, the student's with the text handed over, and leaves earlier ones unchanged |
| ChatInterface.DisabledIffNoOp | src/components/ChatInterface.tsx:222 | the send button is disabled exactly when the guard would return without a change |
| ChatInterface.NoSecondSend | src/components/ChatInterface.tsx:61 | while a send is in flight a second one does nothing |
| ChatInterface.TurnAppends | src/components/ChatInterface.tsx:60-91 | a whole turn appends the student's message, then the error message exactly when the parent rejected; the box is empty and loading over |
| ChatInterface.KeyPress | src/components/ChatInterface.tsx:93-98 | Enter without Shift sends; any other key does nothing |
| ChatInterface.ShiftEnterNeverSends | src/components/ChatInterface.tsx:94 | Shift+Enter never sends |
| ChatInterface.Edit | src/components/ChatInterface.tsx:211-217 | typing replaces the input only when not loading |
| ChatInterface.MessageLine | src/components/ChatInterface.tsx:103-125 | the panel's copy of the line classifier gives, for every line, exactly the element the feedback view's classifier gives |
| ChatInterface.FormatMessage | src/components/ChatInterface.tsx:100-127 | one element per `\n`-separated line, in order |
| ChatInterface.FormatMessageAgrees | src/components/ChatInterface.tsx:100-127 | the panel formats every text exactly as the feedback view does |
| ChatInterface.TeacherElements | src/components/ChatInterface.tsx:168-174 | a teacher message is formatted exactly when its content is a string |
| ChatInterface.ChatOpensWithFeedback | src/components/ChatInterface.tsx:38-45 | the panel's first message shows exactly what the feedback view shows for the same text |
| Session.RouteAnswer | src/components/ExamChecker.tsx:47-63 | the page's `fetch` gets the route's status and body |
| Session.UploadAnswered | src/components/ExamChecker.tsx:59-76 | a 200 reply with an object body shows the feedback view with no error |
| Session.AcceptedRequest | src/app/api/analyze-exam/route.ts:76-140 | the page's request for a non-empty exam is answered 200 with the post-processed text when the model answers |
| Session.AnalysisFields | src/components/ExamChecker.tsx:52-56 | the route reads the page's exam text, file name and action `initial_analysis` from its request |
| Session.PrintedAnalysis | src/app/api/analyze-exam/route.ts:93-140 | strings print as themselves, so the model's text for the page's request reaches post-processing |
| Session.UploadShowsFeedback | src/components/ExamChecker.tsx:33-83 | a non-empty upload with the key set and the model answering shows the feedback view on question 1 with no error |
| Session.EmptyUploadRejected | src/app/api/analyze-exam/route.ts:79-84 | an upload with no or empty content is answered 400 and the page shows the analysis error, keeping step and feedback |
| Session.UploadFallback | src/app/api/analyze-exam/route.ts:141-159 | a model reply without braces shows the raw text as feedback, grade 6.0, five questions and the fixed progress |
| Session.FallbackRecord | src/components/ExamChecker.tsx:65-74 | the page's record of the fallback body holds the raw text, 6.0, 5 and the fixed progress |
| Session.ChatTurn | src/components/ChatInterface.tsx:60-91 | one turn: nothing happens when the guard fails; otherwise the page handles the trimmed text (or crashes, as its handler says) and the panel's send resolves |
| Session.RouteRejectsChat | src/components/ExamChecker.tsx:89-101 | the route answers every chat request of the page outside the 2xx range |
| Session.ErrorKeepsViews | src/components/ExamChecker.tsx:151-172 | the three views depend only on the step and the records, so setting the error banner changes no view |
| Session.ChatFailed | src/components/ExamChecker.tsx:104-125 | a non-2xx chat reply only sets the page's chat error |
| Session.ChatNeverAdvances | src/components/ExamChecker.tsx:85-126 | every chat turn ends with the chat error, the feedback record and view unchanged, and the panel holding the student's message with no answer |
| Text.Trim | src/components/ChatInterface.tsx:61 | `trim` yields the infix left after removing white space at both ends, with no white space at either end |
| Text.BlankIffAllSpace | src/components/ChatInterface.tsx:61 | `!s.trim()` holds exactly when every character is white space |
| Text.TrimIdempotent | src/components/ChatInterface.tsx:66 | trimming a trimmed text changes nothing |
| Text.TrimPadded | src/components/FeedbackDisplay.tsx:49 | white space added at either end does not change the trimmed text |
| Text.Find | src/app/api/analyze-exam/route.ts:130-132 | the search finds the first (optionally ASCII case-insensitive) occurrence at or after the start |
| Text.FindFromStart | src/app/api/analyze-exam/route.ts:130-132 | a search from the start succeeds exactly when the pattern occurs, at its first occurrence |
| Text.ReplaceFirst | src/components/FeedbackDisplay.tsx:49 | `replace` with a string pattern removes only the first occurrence, and changes nothing when there is none |
| Text.Split | src/components/FeedbackDisplay.tsx:44 | `split` yields at least one piece, none holding the separator, and joining them gives back the text |
| Text.SplitJoin | src/components/FeedbackDisplay.tsx:44 | splitting a join of separator-free pieces gives the pieces back |
| Text.Lower | src/components/FileUpload.tsx:19 | lower-casing keeps the length and lowers each ASCII letter |
| Text.Utf16Length | src/app/api/upload-document/route.ts:68 | the JavaScript length lies between the number of characters and twice that |
| Text.DecimalTextValue | src/components/FeedbackDisplay.tsx:135 | the key a question number indexes reads back as that number |
| Text.DecimalTextInjective | src/components/FeedbackDisplay.tsx:135 | different question numbers index different keys |
| Js.Props | src/app/api/analyze-exam/route.ts:77 | destructuring `null` throws; an object yields its fields |
| Js.OrText | src/app/api/stream-feedback/route.ts:95-97 | a defaulted value gives the default for a falsy value and a non-empty string itself |
| Js.JsxChild | src/components/FeedbackDisplay.tsx:201 | a value placed as a JSX child renders as nothing when undefined, null or boolean, as the numeral for a number, as itself for a string, and is refused for an object |
| Js.ObjectItemRefused | src/components/FeedbackDisplay.tsx:201 | an array with an object anywhere among its elements cannot be rendered as a child |
| Js.JsxAgreesWithInterp | src/components/FeedbackDisplay.tsx:201 | a JSX child and a template literal agree on strings and numbers; an undefined value renders as nothing where the template literal prints "undefined" |
| Js.Interp | src/app/api/stream-feedback/route.ts:94 | `${v}` prints `undefined` for an absent value and a string as itself; it is the text of a value that `Printable` admits, the others throw |
| Js.UnprintableIsTruthy | src/app/api/stream-feedback/route.ts:95-97 | only an object or an array can fail to print, and both are truthy, so a `||` default never stands in for an unprintable value |

## Left out

- The text-generation calls (`generateContent`, `generateContentStream`) and the client object are foreign and non-deterministic. They are oracle functions in `Env`.
- The texts of the engine's `TypeError` messages are engine-specific. Each route's `Env` maps the four kinds the model distinguishes (destructuring `null`, calling a missing `map`, reading a property of `null`, converting an object without a callable `toString`) to a message; which kind is thrown, and in what order the template throws, is modelled.
- `JSON.parse` and `JSON.stringify`, `Number#toString`, mammoth, pdf-parse, the UTF-8 decoder of `Buffer`, `FileReader`, `fetch` and `FormData` are libraries and I/O. They are parameters, so the JSON grammar is not modelled and the sanitiser starts from already decoded text.
- The `ReadableStream` and `TextEncoder` mechanics, asynchronous interleavings and cancellation are concurrency plumbing. Only the chunk filter and its concatenation are modelled, plus whether the stream closed or errored.
- Rendering, CSS, the scroll and textarea-resize effects, timestamps and `Date.now` ids, `toLocaleTimeString`, the character counter, the objectives toggle and `src/app/layout.tsx` and `src/app/page.tsx` are presentation with no logic.
- `toFixed`, the percentage and the progress-bar width are floating-point formatting with no logic to state.
- The wording of the teacher prompts and of the initial prompt's JSON-format block is opaque. These are `Env` strings; the short template labels around the interpolated values are literal.
- The `console` calls are left out. So are the request headers and the response headers of the routes.
- React's effect scheduling is left out: when `feedbackData.feedback` is an object, a new reply carrying an equal object would re-run the reset effect. `ChatInterface.Reset` is the effect's body, applied when the value changes.
- The outer "PDF verwerking niet beschikbaar" 400 of the upload route is not a branch of `UploadDocument.Post`. The inner `catch` absorbs every pdf-parse failure, so the branch cannot be reached.
- Text.Lower: lowers ASCII letters only. Every extension the code tests is ASCII, and no non-ASCII character lowers to an ASCII letter that completes one.
- Text.Find: ASCII case folding stands in for the `i` flag. The markers are ASCII, and without the `u` flag JavaScript never folds a non-ASCII character to an ASCII one.
- Js.Truthy: a JSON value cannot be `NaN`, so the falsy `NaN` is not represented.
- FeedbackDisplay.GradeBand: takes a number. The component would compare whatever JSON value the reply carried, with JavaScript's coercions.
- FeedbackDisplay.Indicators: takes a natural count. The `Array.from({ length })` conversion of a non-integer or non-number `totalQuestions` is not modelled.
- FeedbackDisplay.CompletedCount: counts over an object progress map. `Object.values` of a non-object progress is not modelled.
- FeedbackDisplay.PanelsFor: the objectives list, evaluated only after the reader opens it, is not part of the rendering condition; `.map` on a non-array `learningObjectives` would throw then. The `RangeError` of `Array.from` for a huge question count is not modelled either (see Indicators).
- UploadDocument.Post: the `arrayBuffer` read is a readability flag of the file, and the sizes are the reported `file.size`.
- UploadDocument.Sanitise: works on Unicode scalar values with their UTF-16 length counted. Lone surrogates, which UTF-8 decoding never produces, are not represented.
