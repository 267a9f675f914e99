/** The `/api/upload-document` route: the checks on the submitted file (present,
    `.docx` or `.pdf`, at most 10 MiB), text extraction through the document
    libraries with the byte-level fallback sanitiser for PDFs, and the word and
    character counts of the reply. */
module UploadDocument {
  import opened Wrappers
  import opened Text

  /** The size bound, 10 MiB; a file of exactly this size is accepted. */
  const MaxSize: nat := 10 * 1024 * 1024

  const NoFile := "Geen bestand gevonden"
  const Unsupported := "Ondersteunde formaten: .docx, .pdf"
  const TooLarge := "Bestand is te groot (max 10MB)"
  const Failed := "Er is een fout opgetreden bij het verwerken van het bestand"
  const DocxType := "Word Document (.docx)"
  const PdfType := "PDF Document (.pdf)"

  /** An uploaded file: its name and its size in bytes. */
  datatype File = File(name: string, size: nat)

  /** The `file` entry of the submitted form: absent, a plain text value, or a file. */
  datatype Entry = NoEntry | TextValue(text: string) | FileValue(file: File)

  /** The request: a form with its `file` entry, or a body `formData()` rejects. */
  datatype Request = Form(entry: Entry) | NotAForm(message: string)

  /** The libraries and the byte access, as functions of the file. */
  datatype Env = Env(
    readable: File -> bool,                  // `arrayBuffer()` resolves
    docx: File -> Result<string, string>,    // mammoth.extractRawText: the raw text, or its rejection
    pdf: File -> Option<string>,             // pdf-parse: the text, or `None` when the import or the parse fails
    utf8: File -> string)                    // `buffer.toString('utf8')`

  datatype Body =
    | ErrorBody(error: string)
    | Uploaded(filename: string, size: nat, fileType: string, content: string,
               wordCount: nat, characterCount: nat)

  datatype Response = Response(status: int, body: Body)

  // ---------------------------------------------------------------------------
  // File type

  predicate IsDocxName(name: string) {
    EndsWith(Lower(name), ".docx")
  }

  predicate IsPdfName(name: string) {
    EndsWith(Lower(name), ".pdf")
  }

  /** No name is both: the lowered name's last character is `x` for one and `f`
      for the other. */
  lemma DocxPdfExclusive(name: string)
    ensures IsDocxName(name) ==> !IsPdfName(name)
  {
    var l := Lower(name);
    if IsDocxName(name) {
      assert l[|l| - 1] == l[|l| - 5..][4] == 'x';
    }
  }

  // ---------------------------------------------------------------------------
  // The PDF fallback sanitiser

  /** The characters the fallback keeps: printable ASCII, `\n`, `\r` and `\t`. */
  predicate Allowed(c: char) {
    ('\U{0020}' <= c <= '\U{007E}') || c == '\n' || c == '\r' || c == '\t'
  }

  predicate AllAllowed(s: string) {
    forall i :: 0 <= i < |s| ==> Allowed(s[i])
  }

  /** What one character becomes: itself when allowed, otherwise one space per
      UTF-16 code unit, since the pattern has no `u` flag and so matches each
      half of a surrogate pair on its own. */
  function SanitiseChar(c: char): (r: string)
    ensures Allowed(c) ==> r == [c]
    ensures !Allowed(c) ==> |r| == Utf16Length([c]) && forall i :: 0 <= i < |r| ==> r[i] == ' '
  {
    if Allowed(c) then [c]
    else if c as int >= 0x1_0000 then "  "
    else " "
  }

  /** `s.replace(/[^\x20-\x7E\n\r\t]/g, ' ')`: every code unit outside the
      allowed set becomes a space, so the JavaScript length is kept and only
      allowed characters remain. */
  function Sanitise(s: string): (r: string)
    ensures AllAllowed(r)
    ensures Utf16Length(r) == Utf16Length(s)
    ensures |r| == Utf16Length(s)
    decreases |s|
  {
    if |s| == 0 then ""
    else
      var r := SanitiseChar(s[0]) + Sanitise(s[1..]);
      assert Utf16Length(r) == Utf16Length(SanitiseChar(s[0])) + Utf16Length(Sanitise(s[1..])) by {
        Utf16LengthAppend(SanitiseChar(s[0]), Sanitise(s[1..]));
      }
      r
  }

  lemma {:induction false} Utf16LengthAppend(a: string, b: string)
    ensures Utf16Length(a + b) == Utf16Length(a) + Utf16Length(b)
    decreases |a|
  {
    if |a| > 0 {
      assert (a + b)[0] == a[0];
      assert (a + b)[1..] == a[1..] + b;
      Utf16LengthAppend(a[1..], b);
    } else {
      assert a + b == b;
    }
  }

  /** A string of allowed characters is left unchanged. */
  lemma {:induction false} SanitiseKeepsAllowed(s: string)
    requires AllAllowed(s)
    ensures Sanitise(s) == s
    decreases |s|
  {
    if |s| > 0 {
      SanitiseKeepsAllowed(s[1..]);
      assert [s[0]] + s[1..] == s;
    }
  }

  /** Sanitising twice is sanitising once. */
  lemma SanitiseIdempotent(s: string)
    ensures Sanitise(Sanitise(s)) == Sanitise(s)
  {
    SanitiseKeepsAllowed(Sanitise(s));
  }

  /** Within the Basic Multilingual Plane the sanitiser works position by
      position: each character is kept when allowed and is a space otherwise. */
  lemma {:induction false} SanitisePointwise(s: string)
    requires forall i :: 0 <= i < |s| ==> s[i] as int < 0x1_0000
    ensures |Sanitise(s)| == |s|
    ensures forall i :: 0 <= i < |s| ==>
              Sanitise(s)[i] == if Allowed(s[i]) then s[i] else ' '
    decreases |s|
  {
    if |s| > 0 {
      SanitisePointwise(s[1..]);
      var r := Sanitise(s);
      assert |SanitiseChar(s[0])| == 1;
      assert r == SanitiseChar(s[0]) + Sanitise(s[1..]);
      forall i | 0 <= i < |s| ensures r[i] == if Allowed(s[i]) then s[i] else ' ' {
        if i > 0 {
          assert r[i] == Sanitise(s[1..])[i - 1];
          assert s[1..][i - 1] == s[i];
        }
      }
    }
  }

  // ---------------------------------------------------------------------------
  // Word and character counts

  /** `s.split(/\s+/)`: the pieces between the maximal runs of white space, so
      that leading and trailing white space give empty first and last pieces. */
  function SplitOnSpace(s: string): (r: seq<string>)
    ensures |r| >= 1
    ensures forall i, j :: 0 <= i < |r| && 0 <= j < |r[i]| ==> !IsSpace(r[i][j])
    decreases |s|
  {
    var i := SpaceAt(s, 0);
    if i == |s| then [s]
    else
      var j := NonSpaceAt(s, i);
      [s[..i]] + SplitOnSpace(s[j..])
  }

  /** The first white-space position at or after `k`, or `|s|`. */
  function SpaceAt(s: string, k: nat): (i: nat)
    requires k <= |s|
    ensures k <= i <= |s|
    ensures forall m :: k <= m < i ==> !IsSpace(s[m])
    ensures i < |s| ==> IsSpace(s[i])
    decreases |s| - k
  {
    if k == |s| || IsSpace(s[k]) then k else SpaceAt(s, k + 1)
  }

  /** The first non-white-space position at or after `k`, or `|s|`. */
  function NonSpaceAt(s: string, k: nat): (i: nat)
    requires k < |s| && IsSpace(s[k])
    ensures k < i <= |s|
    ensures forall m :: k <= m < i ==> IsSpace(s[m])
    ensures i < |s| ==> !IsSpace(s[i])
    decreases |s| - k
  {
    if k + 1 == |s| || !IsSpace(s[k + 1]) then k + 1 else NonSpaceAt(s, k + 1)
  }

  /** `.filter(word => word.length > 0)`. */
  function NonEmpty(xs: seq<string>): (r: seq<string>)
    ensures |r| <= |xs|
    ensures forall i :: 0 <= i < |r| ==> r[i] != "" && r[i] in xs
    decreases |xs|
  {
    if |xs| == 0 then []
    else if xs[0] == "" then NonEmpty(xs[1..])
    else [xs[0]] + NonEmpty(xs[1..])
  }

  /** The reply's `wordCount`. */
  function WordCount(s: string): nat {
    |NonEmpty(SplitOnSpace(s))|
  }

  /** The reference count: the positions where a word begins, that is a
      non-white-space character at the start or after white space. `afterSpace`
      says whether the position before `s` counts as white space. */
  function WordStarts(s: string, afterSpace: bool): (n: nat)
    ensures n <= |s|
    decreases |s|
  {
    if |s| == 0 then 0
    else (if afterSpace && !IsSpace(s[0]) then 1 else 0) + WordStarts(s[1..], IsSpace(s[0]))
  }

  lemma {:induction false} WordStartsAppend(a: string, b: string, afterSpace: bool)
    ensures WordStarts(a + b, afterSpace)
         == WordStarts(a, afterSpace) + WordStarts(b, if |a| == 0 then afterSpace else IsSpace(a[|a| - 1]))
    decreases |a|
  {
    if |a| > 0 {
      assert (a + b)[0] == a[0];
      assert (a + b)[1..] == a[1..] + b;
      WordStartsAppend(a[1..], b, IsSpace(a[0]));
    } else {
      assert a + b == b;
    }
  }

  lemma {:induction false} WordStartsNoSpace(s: string, afterSpace: bool)
    requires forall i :: 0 <= i < |s| ==> !IsSpace(s[i])
    ensures WordStarts(s, afterSpace) == if afterSpace && |s| > 0 then 1 else 0
    decreases |s|
  {
    if |s| > 0 {
      WordStartsNoSpace(s[1..], false);
    }
  }

  lemma {:induction false} WordStartsAllSpace(s: string, afterSpace: bool)
    requires AllSpace(s)
    ensures WordStarts(s, afterSpace) == 0
    decreases |s|
  {
    if |s| > 0 {
      WordStartsAllSpace(s[1..], true);
    }
  }

  lemma {:induction false} NonEmptyAppend(x: string, ys: seq<string>)
    ensures |NonEmpty([x] + ys)| == (if x == "" then 0 else 1) + |NonEmpty(ys)|
  {
    assert ([x] + ys)[1..] == ys;
  }

  /** The split-and-filter count is the number of word beginnings. */
  lemma {:induction false} WordCountIsWordStarts(s: string)
    ensures WordCount(s) == WordStarts(s, true)
    decreases |s|
  {
    var i := SpaceAt(s, 0);
    if i == |s| {
      WordStartsNoSpace(s, true);
    } else {
      var j := NonSpaceAt(s, i);
      WordCountIsWordStarts(s[j..]);
      NonEmptyAppend(s[..i], SplitOnSpace(s[j..]));
      WordStartsStep(s, i, j);
    }
  }

  /** A word (possibly empty) followed by a white-space gap contributes one
      beginning when the word is non-empty. */
  lemma WordStartsStep(s: string, i: nat, j: nat)
    requires i < j <= |s|
    requires forall m :: 0 <= m < i ==> !IsSpace(s[m])
    requires forall m :: i <= m < j ==> IsSpace(s[m])
    ensures WordStarts(s, true) == (if i == 0 then 0 else 1) + WordStarts(s[j..], true)
  {
    assert s == s[..i] + s[i..j] + s[j..];
    WordGapStep(s[..i], s[i..j], s[j..]);
  }

  lemma WordGapStep(word: string, gap: string, rest: string)
    requires forall m :: 0 <= m < |word| ==> !IsSpace(word[m])
    requires |gap| > 0 && AllSpace(gap)
    ensures WordStarts(word + gap + rest, true) == (if |word| == 0 then 0 else 1) + WordStarts(rest, true)
  {
    var p := if |word| == 0 then true else IsSpace(word[|word| - 1]);
    assert word + gap + rest == word + (gap + rest);
    WordStartsAppend(word, gap + rest, true);
    WordStartsNoSpace(word, true);
    WordStartsAppend(gap, rest, p);
    WordStartsAllSpace(gap, p);
    assert IsSpace(gap[|gap| - 1]);
  }

  /** No words exactly when the text is empty or blank. */
  lemma {:induction false} NoWordsIffBlank(s: string)
    ensures WordStarts(s, true) == 0 <==> AllSpace(s)
    decreases |s|
  {
    if AllSpace(s) {
      WordStartsAllSpace(s, true);
    } else if |s| > 0 && IsSpace(s[0]) {
      NoWordsIffBlank(s[1..]);
      assert !AllSpace(s[1..]) by {
        var k :| 0 <= k < |s| && !IsSpace(s[k]);
        assert s[1..][k - 1] == s[k];
      }
    }
  }

  /** `wordCount` is zero exactly for blank text and never exceeds
      `characterCount`. */
  lemma WordCountBounds(s: string)
    ensures WordCount(s) == 0 <==> AllSpace(s)
    ensures WordCount(s) <= Utf16Length(s)
  {
    WordCountIsWordStarts(s);
    NoWordsIffBlank(s);
  }

  // ---------------------------------------------------------------------------
  // The route

  function Error(status: int, message: string): Response {
    Response(status, ErrorBody(message))
  }

  /** The success reply for extracted text. */
  function Success(file: File, fileType: string, text: string): (r: Response)
    ensures r.status == 200 && r.body.Uploaded?
    ensures r.body.content == text && r.body.characterCount == Utf16Length(text)
  {
    Response(200, Uploaded(file.name, file.size, fileType, text, WordCount(text), Utf16Length(text)))
  }

  /** `POST`: presence, type and size checks in that order, then extraction. A
      text value in place of a file has no name to lower, which throws. */
  function Post(env: Env, req: Request): (r: Response)
    ensures r.status in {200, 400, 500}
    ensures req.NotAForm? ==> r == Error(500, Failed)
    ensures req == Form(NoEntry) || req == Form(TextValue("")) ==> r == Error(400, NoFile)
    ensures req.Form? && req.entry.TextValue? && req.entry.text != "" ==> r == Error(500, Failed)
    ensures req.Form? && req.entry.FileValue? ==>
              var f := req.entry.file;
              (!IsDocxName(f.name) && !IsPdfName(f.name) ==> r == Error(400, Unsupported))
              && ((IsDocxName(f.name) || IsPdfName(f.name)) && f.size > MaxSize ==> r == Error(400, TooLarge))
    ensures r.status == 400 ==> r.body == ErrorBody(NoFile) || r.body == ErrorBody(Unsupported) || r.body == ErrorBody(TooLarge)
    ensures r.status == 200 <==>
              req.Form? && req.entry.FileValue? && (IsDocxName(req.entry.file.name) || IsPdfName(req.entry.file.name))
              && req.entry.file.size <= MaxSize && env.readable(req.entry.file)
              && (IsDocxName(req.entry.file.name) ==> env.docx(req.entry.file).Success?)
    ensures r.status == 200 ==>
              var f := req.entry.file;
              r.body.Uploaded? && r.body.filename == f.name && r.body.size == f.size
              && r.body.wordCount == WordCount(r.body.content)
              && r.body.characterCount == Utf16Length(r.body.content)
              && (IsDocxName(f.name) ==> r.body.fileType == DocxType && r.body.content == env.docx(f).value)
              && (IsPdfName(f.name) ==>
                    r.body.fileType == PdfType
                    && r.body.content == (if env.pdf(f).Some? then env.pdf(f).value else Sanitise(env.utf8(f))))
  {
    match req
    case NotAForm(_) => Error(500, Failed)
    case Form(NoEntry) => Error(400, NoFile)
    case Form(TextValue(t)) => if t == "" then Error(400, NoFile) else Error(500, Failed)
    case Form(FileValue(f)) =>
      var isDocx := IsDocxName(f.name);
      var isPdf := IsPdfName(f.name);
      DocxPdfExclusive(f.name);
      if !isDocx && !isPdf then Error(400, Unsupported)
      else if f.size > MaxSize then Error(400, TooLarge)
      else if !env.readable(f) then Error(500, Failed)
      else if isDocx then
        match env.docx(f)
        case Failure(_) => Error(500, Failed)
        case Success(text) => Success(f, DocxType, text)
      else
        var text := match env.pdf(f) case Some(t) => t case None => Sanitise(env.utf8(f));
        Success(f, PdfType, text)
  }

  /** A readable PDF within the size bound is always accepted: a failing import
      or parse falls back to the sanitiser instead of an error. */
  lemma PdfNeverRejected(env: Env, f: File)
    requires IsPdfName(f.name) && f.size <= MaxSize && env.readable(f)
    ensures Post(env, Form(FileValue(f))).status == 200
    ensures Post(env, Form(FileValue(f))).body.fileType == PdfType
    ensures env.pdf(f).None? ==>
              Post(env, Form(FileValue(f))).body.content == Sanitise(env.utf8(f))
  {
    DocxPdfExclusive(f.name);
  }

  /** `GET` is always refused. */
  function GetReply(): (r: Response)
    ensures r.status == 405 && r.body.ErrorBody?
  {
    Error(405, "GET method not allowed. Use POST to upload files.")
  }
}
