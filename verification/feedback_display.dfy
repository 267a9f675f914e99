/** The feedback page's pure helpers: the grade colour bands, the question status
    colours and indicators (with the `pending` default), the completed count, the
    line-by-line feedback formatter, and which panels a feedback record shows. */
module FeedbackDisplay {
  import opened Wrappers
  import opened Text
  import opened Js
  import ExamChecker
  import AnalyzeExam

  // ---------------------------------------------------------------------------
  // Grade colours

  /** The four colour bands of `getGradeColor`, from best to worst. */
  datatype Band = Green | Blue | Yellow | Red

  /** The rank of a band: higher is better. */
  function Rank(b: Band): nat {
    match b
    case Red => 0
    case Yellow => 1
    case Blue => 2
    case Green => 3
  }

  /** The CSS classes of a band. */
  function BandClasses(b: Band): string {
    match b
    case Green => "text-green-600 bg-green-100"
    case Blue => "text-blue-600 bg-blue-100"
    case Yellow => "text-yellow-600 bg-yellow-100"
    case Red => "text-red-600 bg-red-100"
  }

  /** `getGradeColor`: at least 8 is green, at least 6.5 blue, at least 5.5
      yellow, anything lower red. */
  function GradeBand(grade: real): (b: Band)
    ensures b == Green <==> grade >= 8.0
    ensures b == Blue <==> 6.5 <= grade < 8.0
    ensures b == Yellow <==> 5.5 <= grade < 6.5
    ensures b == Red <==> grade < 5.5
  {
    if grade >= 8.0 then Green
    else if grade >= 6.5 then Blue
    else if grade >= 5.5 then Yellow
    else Red
  }

  /** A higher grade never gets a worse band. */
  lemma GradeBandMonotone(g: real, h: real)
    requires g <= h
    ensures Rank(GradeBand(g)) <= Rank(GradeBand(h))
  {
  }

  // ---------------------------------------------------------------------------
  // Question status

  const Completed := JStr("completed")
  const Reviewing := JStr("reviewing")
  const Pending := JStr("pending")

  /** `getProgressColor`: strict comparison with the two known statuses. */
  function ProgressColor(status: Json): (c: string)
    ensures status == Completed ==> c == "bg-green-500"
    ensures status == Reviewing ==> c == "bg-blue-500"
    ensures status != Completed && status != Reviewing ==> c == "bg-gray-300"
  {
    if status == Completed then "bg-green-500"
    else if status == Reviewing then "bg-blue-500"
    else "bg-gray-300"
  }

  /** `questionProgress[q] || 'pending'`: a numeric index reads the key spelled
      in decimal. */
  function StatusAt(progress: map<string, Json>, q: nat): (s: Json)
    ensures !Truthy(Get(progress, DecimalText(q))) ==> s == Pending
    ensures Truthy(Get(progress, DecimalText(q))) ==> s == progress[DecimalText(q)]
  {
    var v := Get(progress, DecimalText(q));
    if Truthy(v) then v.value else Pending
  }

  /** One question indicator: its number, status, colour and title. */
  datatype Indicator = Indicator(number: nat, status: Json, color: string, title: string)

  function StatusWord(status: Json): string {
    if status == Completed then "Afgerond" else if status == Reviewing then "Bezig" else "Wachtend"
  }

  /** The indicators for questions 1 to `total`, in order. */
  function Indicators(progress: map<string, Json>, total: nat): (r: seq<Indicator>)
    ensures |r| == total
    ensures forall i :: 0 <= i < total ==>
              r[i].number == i + 1 && r[i].status == StatusAt(progress, i + 1)
              && r[i].color == ProgressColor(r[i].status)
              && r[i].title == "Vraag " + DecimalText(i + 1) + ": " + StatusWord(r[i].status)
  {
    seq(total, i requires 0 <= i < total =>
      var st := StatusAt(progress, i + 1);
      Indicator(i + 1, st, ProgressColor(st), "Vraag " + DecimalText(i + 1) + ": " + StatusWord(st)))
  }

  /** The keys whose value is `"completed"`. */
  function CompletedKeys(progress: map<string, Json>): (ks: set<string>)
    ensures ks <= progress.Keys
    ensures forall k :: k in ks <==> k in progress && progress[k] == Completed
  {
    set k | k in progress && progress[k] == Completed
  }

  /** `Object.values(questionProgress).filter(s => s === 'completed').length`:
      never more than the number of entries. */
  function CompletedCount(progress: map<string, Json>): (n: nat)
    ensures n <= |progress|
    ensures n == 0 <==> forall k :: k in progress ==> progress[k] != Completed
  {
    var ks := CompletedKeys(progress);
    SubsetCardinality(ks, progress.Keys);
    |ks|
  }

  /** An indicator is green exactly when its question's key is one of the
      completed keys the progress bar counts, and blue exactly when that key
      holds `"reviewing"`. */
  lemma IndicatorColors(progress: map<string, Json>, total: nat, q: nat)
    requires 1 <= q <= total
    ensures var r := Indicators(progress, total);
            (r[q - 1].color == "bg-green-500" <==> DecimalText(q) in CompletedKeys(progress))
            && (r[q - 1].color == "bg-blue-500" <==>
                  DecimalText(q) in progress && progress[DecimalText(q)] == Reviewing)
  {
    var r := Indicators(progress, total);
    assert r[q - 1].status == StatusAt(progress, q);
    if DecimalText(q) in progress {
      assert Get(progress, DecimalText(q)) == Some(progress[DecimalText(q)]);
    }
  }

  lemma SubsetCardinality<T>(a: set<T>, b: set<T>)
    requires a <= b
    ensures |a| <= |b|
    decreases |b|
  {
    if a != {} {
      var x :| x in a;
      SubsetCardinality(a - {x}, b - {x});
    }
  }

  /** The fallback progress shows five indicators: question 1 under review in
      blue, the others pending in grey, and nothing completed. */
  lemma FallbackIndicators()
    ensures var r := Indicators(AnalyzeExam.FallbackProgress, 5);
            r[0].status == Reviewing && r[0].color == "bg-blue-500"
            && forall i :: 1 <= i < 5 ==> r[i].status == Pending && r[i].color == "bg-gray-300"
    ensures CompletedCount(AnalyzeExam.FallbackProgress) == 0
  {
    AnalyzeExam.FallbackProgressShape();
    var r := Indicators(AnalyzeExam.FallbackProgress, 5);
    forall i | 1 <= i < 5 ensures r[i].status == Pending {
      assert Get(AnalyzeExam.FallbackProgress, DecimalText(i + 1)) == Some(Pending);
    }
    assert Get(AnalyzeExam.FallbackProgress, DecimalText(1)) == Some(Reviewing);
    forall k | k in AnalyzeExam.FallbackProgress ensures AnalyzeExam.FallbackProgress[k] != Completed {
    }
  }

  // ---------------------------------------------------------------------------
  // Feedback formatting

  const CheckEmoji := "\U{2705}"
  const WarningEmoji := "\U{26A0}\U{FE0F}"
  const TipEmoji := "\U{1F4A1}"

  datatype Mark = Check | Warning | Tip

  function Emoji(m: Mark): string {
    match m
    case Check => CheckEmoji
    case Warning => WarningEmoji
    case Tip => TipEmoji
  }

  /** A formatted line: a marked block with its text, a paragraph holding the
      line as it is, or a line break. */
  datatype Element = Marked(mark: Mark, text: string) | Paragraph(line: string) | Break

  /** The three markers begin with different characters, so a trimmed line starts
      with at most one of them. */
  lemma MarkersDistinct(t: string)
    ensures !(StartsWith(t, CheckEmoji) && StartsWith(t, WarningEmoji))
    ensures !(StartsWith(t, CheckEmoji) && StartsWith(t, TipEmoji))
    ensures !(StartsWith(t, WarningEmoji) && StartsWith(t, TipEmoji))
  {
    if StartsWith(t, CheckEmoji) {
      assert t[0] == '\U{2705}';
    }
    if StartsWith(t, WarningEmoji) {
      assert t[0] == '\U{26A0}';
    }
  }

  /** The element for one line: the trimmed line is checked against the markers
      in order; a marked line's text is the line with the first occurrence of its
      marker removed, trimmed. */
  function FormatLine(line: string): (e: Element)
    ensures e.Marked? <==>
              StartsWith(Trim(line), CheckEmoji) || StartsWith(Trim(line), WarningEmoji)
              || StartsWith(Trim(line), TipEmoji)
    ensures e.Marked? ==> StartsWith(Trim(line), Emoji(e.mark))
                          && e.text == Trim(ReplaceFirst(line, Emoji(e.mark), ""))
    ensures e.Paragraph? ==> e.line == line && !IsBlank(line)
    ensures e == Break <==> IsBlank(line)
  {
    var t := Trim(line);
    MarkersDistinct(t);
    if StartsWith(t, CheckEmoji) then Marked(Check, Trim(ReplaceFirst(line, CheckEmoji, "")))
    else if StartsWith(t, WarningEmoji) then Marked(Warning, Trim(ReplaceFirst(line, WarningEmoji, "")))
    else if StartsWith(t, TipEmoji) then Marked(Tip, Trim(ReplaceFirst(line, TipEmoji, "")))
    else if t != "" then Paragraph(line)
    else Break
  }

  /** `formatFeedback`: one element per `\n`-separated line, in order. */
  function FormatFeedback(text: string): (r: seq<Element>)
    ensures |r| == |Split(text, '\n')|
    ensures forall i :: 0 <= i < |r| ==> r[i] == FormatLine(Split(text, '\n')[i])
  {
    var lines := Split(text, '\n');
    seq(|lines|, i requires 0 <= i < |lines| => FormatLine(lines[i]))
  }

  /** Lines joined with newlines are formatted one element each, in order. */
  lemma FormatJoinedLines(lines: seq<string>)
    requires |lines| >= 1
    requires forall i :: 0 <= i < |lines| ==> '\n' !in lines[i]
    ensures |FormatFeedback(Join(lines, '\n'))| == |lines|
    ensures forall i :: 0 <= i < |lines| ==> FormatFeedback(Join(lines, '\n'))[i] == FormatLine(lines[i])
  {
    SplitJoin(lines, '\n');
  }

  /** A line break exactly for the lines of white space only. */
  lemma BreakIffWhiteSpace(line: string)
    ensures FormatLine(line) == Break <==> AllSpace(line)
  {
    BlankIffAllSpace(line);
  }

  /** A marker keeps its place at the head of the trimmed line. */
  lemma MarkerLeadsTrim(a: string, e: string, x: string)
    requires AllSpace(a) && |e| > 0 && !IsSpace(e[0]) && !IsSpace(e[|e| - 1])
    ensures StartsWith(Trim(a + e + x), e)
  {
    assert a + e + x == a + (e + x);
    TrimStartAfterSpace(a, e + x);
    TrimStartAtNonSpace(e + x);
    TrimEndKeepsPrefix(e + x, e);
  }

  lemma TrimStartAtNonSpace(s: string)
    requires |s| > 0 && !IsSpace(s[0])
    ensures TrimStart(s) == s
  {
  }

  /** Trimming the end keeps a prefix that ends in a non-space character. */
  lemma TrimEndKeepsPrefix(s: string, e: string)
    requires StartsWith(s, e) && |e| > 0 && !IsSpace(e[|e| - 1])
    ensures StartsWith(TrimEnd(s), e)
  {
    var r := TrimEnd(s);
    assert forall j :: |r| <= j < |s| ==> IsSpace(s[j]) by {
      forall j | |r| <= j < |s| ensures IsSpace(s[j]) {
        assert s[j] == s[|r|..][j - |r|];
      }
    }
    assert s[|e| - 1] == e[|e| - 1];
    assert r[..|e|] == s[..|e|];
  }

  /** The marker is found first where it follows the leading white space. */
  lemma MarkerRemoved(a: string, e: string, x: string)
    requires AllSpace(a) && |e| > 0 && !IsSpace(e[0])
    ensures ReplaceFirst(a + e + x, e, "") == a + x
  {
    var s := a + e + x;
    MarkerFoundAfterSpace(a, e, x);
    assert ReplaceFirst(s, e, "") == s[..|a|] + "" + s[|a| + |e|..];
    assert s[..|a|] == a;
    assert s[|a| + |e|..] == x;
  }

  lemma MarkerFoundAfterSpace(a: string, e: string, x: string)
    requires AllSpace(a) && |e| > 0 && !IsSpace(e[0])
    ensures Find(a + e + x, e, 0, false) == Some(|a|)
  {
    var s := a + e + x;
    assert s[|a|..|a| + |e|] == e;
    assert MatchAt(s, |a|, e, false);
    forall j: nat | j < |a| ensures !MatchAt(s, j, e, false) {
      assert s[j] == a[j];
    }
  }

  /** A line of leading white space, a marker and a rest is marked with that
      marker, and its text is the rest, trimmed. */
  lemma MarkedLineText(a: string, m: Mark, x: string)
    requires AllSpace(a)
    ensures FormatLine(a + Emoji(m) + x) == Marked(m, Trim(x))
  {
    var e := Emoji(m);
    var line := a + e + x;
    MarkerLeadsTrim(a, e, x);
    MarkersDistinct(Trim(line));
    MarkerRemoved(a, e, x);
    TrimPadded(a, x, "");
    assert a + x + "" == a + x;
  }

  // ---------------------------------------------------------------------------
  // Panels

  /** What the page shows for a feedback record, besides the grade circles. */
  datatype Panels = Panels(
    title: string,
    gradeLabel: string,
    finalGradeShown: bool,
    startPanel: bool,
    startLabel: string,
    congratulations: bool)

  /** `v.toFixed(1)`: only a number has the method. */
  predicate HasToFixed(v: Option<Json>) {
    v.Some? && v.value.JNum?
  }

  /** `v?.toFixed(1)`: `undefined` and `null` short-circuit, anything else needs
      the method. */
  predicate OptionalToFixed(v: Option<Json>) {
    v.None? || v.value.JNull? || v.value.JNum?
  }

  /** `formatFeedback(v)`: `.split` needs a string. */
  predicate Splittable(v: Option<Json>) {
    v.Some? && v.value.JStr?
  }

  /** `Object.values(v)`: throws on `undefined` and `null` only. */
  predicate HasValues(v: Option<Json>) {
    v.Some? && !v.value.JNull?
  }

  /** Every expression the component evaluates for a record can be evaluated:
      the grade circles, the completed count, the summary, and then either the
      start button or the congratulations panel. The objectives list is only
      evaluated once the reader opens it. */
  predicate Renders(f: ExamChecker.FeedbackData, num: real -> string) {
    && HasToFixed(f.initialGrade)
    && HasValues(f.questionProgress)
    && JsxChild(f.totalQuestions, num).Some?
    && Splittable(f.summary)
    && (Truthy(f.isComplete) ==> OptionalToFixed(f.finalGrade) && Splittable(f.feedback))
    && (!Truthy(f.isComplete) ==> JsxChild(f.currentQuestion, num).Some?)
  }

  /** The panels: the start panel and the congratulations panel are each other's
      opposites, switched by the truthiness of `isComplete`. `None` when some
      expression of the component throws, which takes the page down. */
  function PanelsFor(f: ExamChecker.FeedbackData, num: real -> string): (r: Option<Panels>)
    ensures !HasToFixed(f.initialGrade) ==> r.None?
    ensures f.questionProgress.None? || f.questionProgress == Some(JNull) ==> r.None?
    ensures JsxChild(f.totalQuestions, num).None? ==> r.None?
    ensures !(f.summary.Some? && f.summary.value.JStr?) ==> r.None?
    ensures Truthy(f.isComplete) && !OptionalToFixed(f.finalGrade) ==> r.None?
    ensures Truthy(f.isComplete) && !Splittable(f.feedback) ==> r.None?
    ensures !Truthy(f.isComplete) && JsxChild(f.currentQuestion, num).None? ==> r.None?
    ensures r.Some? <==> Renders(f, num)
    ensures r.Some? ==> (r.value.startPanel <==> !Truthy(f.isComplete))
    ensures r.Some? ==> (r.value.congratulations <==> Truthy(f.isComplete))
    ensures r.Some? ==> (r.value.finalGradeShown <==> r.value.congratulations && Truthy(f.finalGrade))
    ensures r.Some? && r.value.startPanel ==> "Start met Vraag " <= r.value.startLabel
    ensures r.Some? && r.value.startPanel && f.currentQuestion.Some? && f.currentQuestion.value.JNum? ==>
              r.value.startLabel == "Start met Vraag " + num(f.currentQuestion.value.n)
  {
    if !Renders(f, num) then None
    else
      var done := Truthy(f.isComplete);
      Some(Panels(
        if done then "Toets Afgerond! \U{1F389}" else "Feedback op je Toets",
        if done then "Eindcijfer" else "Startcijfer",
        done && Truthy(f.finalGrade),
        !done,
        if done then "" else "Start met Vraag " + JsxChild(f.currentQuestion, num).value,
        done))
  }

  /** The record the page builds from an initial analysis renders exactly when
      the reply's grade is a number, its summary a string and its question count
      renderable; it then shows the start button for question 1. */
  lemma InitialPanels(data: map<string, Json>, num: real -> string)
    ensures var r := PanelsFor(ExamChecker.InitialFeedback(data), num);
            && (r.Some? <==> HasToFixed(Get(data, "initialGrade")) && Splittable(Get(data, "summary"))
                             && JsxChild(Get(data, "totalQuestions"), num).Some?)
            && (r.Some? ==> r.value.startPanel && !r.value.finalGradeShown
                            && r.value.startLabel == "Start met Vraag " + num(1.0))
  {
    var f := ExamChecker.InitialFeedback(data);
    assert !Truthy(f.isComplete);
    assert HasValues(f.questionProgress);
    assert JsxChild(f.currentQuestion, num) == Some(num(1.0));
  }

  /** The fallback record renders, with the start button for question 1. */
  lemma FallbackPanels(text: string, num: real -> string)
    ensures var r := PanelsFor(ExamChecker.InitialFeedback(AnalyzeExam.FallbackBody(text)), num);
            r.Some? && r.value.startPanel && r.value.startLabel == "Start met Vraag " + num(1.0)
  {
    var data := AnalyzeExam.FallbackBody(text);
    AnalyzeExam.FallbackShape(text);
    assert Get(data, "summary").Some? && Get(data, "summary").value.JStr?;
    InitialPanels(data, num);
  }
}
