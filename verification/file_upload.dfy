/** The upload widget's file handling: classification by lowered extension, the
    client-side type and size checks, the three ways content is obtained (data
    URL for images, text read for text files, the upload route for PDF and Word
    documents), and the first-file rule of the drop zone and the file input. */
module FileUpload {
  import opened Wrappers
  import opened Text
  import UploadDocument

  type File = UploadDocument.File

  const ImageExtensions: seq<string> := ["jpg", "jpeg", "png", "gif", "webp", "bmp"]
  const TextExtensions: seq<string> := ["txt", "md"]

  /** Every extension the widget handles. */
  const Extensions: seq<string> := ["pdf", "docx"] + TextExtensions + ImageExtensions

  /** The entries of the input's `accept` attribute, which lists them joined by
      commas. */
  const AcceptEntries: seq<string> :=
    [".pdf", ".docx", ".txt", ".md", ".jpg", ".jpeg", ".png", ".gif", ".webp", ".bmp"]
  const Accept := Join(AcceptEntries, ',')

  const UnsupportedMessage :=
    "Ondersteunde formaten: afbeeldingen (JPG, PNG), PDF, Word documenten (.docx), of tekstbestanden (.txt)"
  const TooLargeMessage := "Bestand is te groot. Maximum grootte is 10MB."
  const ImageReadMessage := "Fout bij het lezen van de afbeelding"
  const TextReadMessage := "Fout bij het lezen van het tekstbestand"
  const UploadPrefix := "Fout bij uploaden: "

  // ---------------------------------------------------------------------------
  // Classification

  /** The lowered name ends in `.` followed by one of `exts`. */
  predicate EndsInOneOf(name: string, exts: seq<string>) {
    exists i :: 0 <= i < |exts| && EndsWith(Lower(name), "." + exts[i])
  }

  predicate IsImage(name: string) { EndsInOneOf(name, ImageExtensions) }
  predicate IsPdf(name: string) { EndsWith(Lower(name), ".pdf") }
  predicate IsDocx(name: string) { EndsWith(Lower(name), ".docx") }
  predicate IsText(name: string) { EndsInOneOf(name, TextExtensions) }

  predicate Supported(name: string) {
    IsImage(name) || IsPdf(name) || IsDocx(name) || IsText(name)
  }

  /** A string ending in `d` ends in the last two characters of `d`. */
  lemma EndLetters(l: string, d: string)
    requires |d| >= 2 && EndsWith(l, d)
    ensures |l| >= 2 && l[|l| - 1] == d[|d| - 1] && l[|l| - 2] == d[|d| - 2]
  {
    assert l[|l| - |d|..] == d;
    assert l[|l| - 1] == d[|d| - 1];
    assert l[|l| - 2] == d[|d| - 2];
  }

  /** Image names end in `g`, `p` or `if`. */
  lemma ImageNameEnds(name: string)
    requires IsImage(name)
    ensures var l := Lower(name);
            |l| >= 2 && (l[|l| - 1] == 'g' || l[|l| - 1] == 'p' || (l[|l| - 1] == 'f' && l[|l| - 2] == 'i'))
  {
    var i :| 0 <= i < |ImageExtensions| && EndsWith(Lower(name), "." + ImageExtensions[i]);
    ImageEnds(i);
    EndLetters(Lower(name), "." + ImageExtensions[i]);
  }

  lemma ImageEnds(i: nat)
    requires i < |ImageExtensions|
    ensures var x := "." + ImageExtensions[i];
            |x| >= 2 && (x[|x| - 1] == 'g' || x[|x| - 1] == 'p' || (x[|x| - 1] == 'f' && x[|x| - 2] == 'i'))
  {
    if i < 3 {
      assert i == 0 || i == 1 || i == 2;
    } else {
      assert i == 3 || i == 4 || i == 5;
    }
  }

  /** PDF names end in `df`. */
  lemma PdfNameEnds(name: string)
    requires IsPdf(name)
    ensures var l := Lower(name); |l| >= 2 && l[|l| - 1] == 'f' && l[|l| - 2] == 'd'
  {
    EndLetters(Lower(name), ".pdf");
  }

  /** Word document names end in `x`. */
  lemma DocxNameEnds(name: string)
    requires IsDocx(name)
    ensures var l := Lower(name); |l| >= 2 && l[|l| - 1] == 'x'
  {
    EndLetters(Lower(name), ".docx");
  }

  /** Text file names end in `t` or `d`. */
  lemma TextNameEnds(name: string)
    requires IsText(name)
    ensures var l := Lower(name); |l| >= 2 && (l[|l| - 1] == 't' || l[|l| - 1] == 'd')
  {
    var i :| 0 <= i < |TextExtensions| && EndsWith(Lower(name), "." + TextExtensions[i]);
    TextEnds(i);
    EndLetters(Lower(name), "." + TextExtensions[i]);
  }

  lemma TextEnds(i: nat)
    requires i < |TextExtensions|
    ensures var x := "." + TextExtensions[i]; |x| >= 2 && (x[|x| - 1] == 't' || x[|x| - 1] == 'd')
  {
  }

  /** The four categories are exclusive: at most one holds for any name, told
      apart by their last letters. */
  lemma CategoriesExclusive(name: string)
    ensures IsImage(name) ==> !IsPdf(name) && !IsDocx(name) && !IsText(name)
    ensures IsPdf(name) ==> !IsDocx(name) && !IsText(name)
    ensures IsDocx(name) ==> !IsText(name)
  {
    if IsImage(name) { ImageNameEnds(name); }
    if IsPdf(name) { PdfNameEnds(name); }
    if IsDocx(name) { DocxNameEnds(name); }
    if IsText(name) { TextNameEnds(name); }
  }

  /** The `accept` attribute lists exactly the handled extensions, each with its
      dot, so a name is supported exactly when it ends in one of the listed
      entries. */
  lemma AcceptListsExtensions(name: string)
    ensures |Split(Accept, ',')| == |Extensions|
    ensures forall i :: 0 <= i < |Extensions| ==> Split(Accept, ',')[i] == "." + Extensions[i]
    ensures Supported(name) <==>
              exists i :: 0 <= i < |Split(Accept, ',')| && EndsWith(Lower(name), Split(Accept, ',')[i])
  {
    AcceptSplits();
    EntriesAreExtensions();
    SupportedIffAccepted(name);
  }

  lemma AcceptSplits()
    ensures Split(Accept, ',') == AcceptEntries
  {
    assert forall i :: 0 <= i < |AcceptEntries| ==> ',' !in AcceptEntries[i];
    SplitJoin(AcceptEntries, ',');
  }

  lemma EntriesAreExtensions()
    ensures |AcceptEntries| == |Extensions|
    ensures forall i :: 0 <= i < |Extensions| ==> AcceptEntries[i] == "." + Extensions[i]
  {
  }

  lemma SupportedIffAccepted(name: string)
    ensures Supported(name) <==>
              exists i :: 0 <= i < |AcceptEntries| && EndsWith(Lower(name), AcceptEntries[i])
  {
    if Supported(name) {
      var i := AcceptedEntry(name);
    }
    if i :| 0 <= i < |AcceptEntries| && EndsWith(Lower(name), AcceptEntries[i]) {
      EntrySupported(name, i);
    }
  }

  /** The entry of the `accept` list a supported name ends in. */
  lemma AcceptedEntry(name: string) returns (i: nat)
    requires Supported(name)
    ensures i < |AcceptEntries| && EndsWith(Lower(name), AcceptEntries[i])
  {
    if IsPdf(name) {
      i := 0;
    } else if IsDocx(name) {
      i := 1;
    } else if IsText(name) {
      var j :| 0 <= j < |TextExtensions| && EndsWith(Lower(name), "." + TextExtensions[j]);
      TextEntry(j);
      i := 2 + j;
    } else {
      var j :| 0 <= j < |ImageExtensions| && EndsWith(Lower(name), "." + ImageExtensions[j]);
      ImageEntry(j);
      i := 4 + j;
    }
  }

  lemma TextEntry(j: nat)
    requires j < |TextExtensions|
    ensures 2 + j < |AcceptEntries| && AcceptEntries[2 + j] == "." + TextExtensions[j]
  {
    EntriesAreExtensions();
    assert Extensions[2 + j] == TextExtensions[j];
  }

  lemma ImageEntry(j: nat)
    requires j < |ImageExtensions|
    ensures 4 + j < |AcceptEntries| && AcceptEntries[4 + j] == "." + ImageExtensions[j]
  {
    EntriesAreExtensions();
    assert Extensions[4 + j] == ImageExtensions[j];
  }

  /** A name ending in an entry of the `accept` list is supported. */
  lemma EntrySupported(name: string, i: nat)
    requires i < |AcceptEntries| && EndsWith(Lower(name), AcceptEntries[i])
    ensures Supported(name)
  {
    EntriesAreExtensions();
    var l := Lower(name);
    if i < 2 {
      assert AcceptEntries[i] == if i == 0 then ".pdf" else ".docx";
    } else if i < 4 {
      assert AcceptEntries[i] == "." + TextExtensions[i - 2];
      assert EndsWith(l, "." + TextExtensions[i - 2]);
    } else {
      assert AcceptEntries[i] == "." + ImageExtensions[i - 4];
      assert EndsWith(l, "." + ImageExtensions[i - 4]);
    }
  }

  /** The documents the widget sends to the upload route are exactly those the
      route's type check accepts. */
  lemma ServerTypesAgree(name: string)
    ensures IsPdf(name) || IsDocx(name) <==> UploadDocument.IsPdfName(name) || UploadDocument.IsDocxName(name)
  {
  }

  // ---------------------------------------------------------------------------
  // Selecting a file

  /** What the upload route's `fetch` produced: a response with its status and
      parsed body, or a rejection with its message. */
  datatype Fetched =
    | Responded(status: int, body: UploadDocument.Body)
    | FetchRejected(message: string)

  /** The browser-side effects, as functions of the file: the reader results
      (`None` when `onerror` fires) and the upload route's answer. */
  datatype Env = Env(
    readDataUrl: File -> Option<string>,
    readText: File -> Option<string>,
    fetch: File -> Fetched)

  /** The result of `handleFileSelect`: the error shown, or the arguments
      `onFileUpload` receives (content `None` is `undefined`). */
  datatype Outcome =
    | ShowError(message: string)
    | Handed(content: Option<string>, fileType: string)

  /** `handleFileSelect`: type check, size check, then the content by category. */
  function HandleFileSelect(env: Env, f: File): (r: Outcome)
    ensures !Supported(f.name) ==> r == ShowError(UnsupportedMessage)
    ensures Supported(f.name) && f.size > UploadDocument.MaxSize ==> r == ShowError(TooLargeMessage)
    ensures r.Handed? ==> Supported(f.name) && f.size <= UploadDocument.MaxSize
    ensures r.Handed? && IsImage(f.name) ==> r.fileType == "image" && r.content == env.readDataUrl(f)
    ensures r.Handed? && IsText(f.name) ==> r.fileType == "text" && r.content == env.readText(f)
    ensures r.Handed? && (IsPdf(f.name) || IsDocx(f.name)) ==> r.fileType == "document"
    ensures r.ShowError? && r.message != UnsupportedMessage && r.message != TooLargeMessage ==>
              r.message == ImageReadMessage || r.message == TextReadMessage
              || StartsWith(r.message, UploadPrefix)
  {
    CategoriesExclusive(f.name);
    if !Supported(f.name) then ShowError(UnsupportedMessage)
    else if f.size > UploadDocument.MaxSize then ShowError(TooLargeMessage)
    else if IsImage(f.name) then
      match env.readDataUrl(f)
      case None => ShowError(ImageReadMessage)
      case Some(url) => Handed(Some(url), "image")
    else if IsText(f.name) then
      match env.readText(f)
      case None => ShowError(TextReadMessage)
      case Some(t) => Handed(Some(t), "text")
    else DocumentReply(env.fetch(f))
  }

  /** The PDF and Word branch: a non-ok response throws its `error` (or
      "Upload failed"), a rejected fetch throws its message, and an ok response
      hands over its `content`. */
  function DocumentReply(fetched: Fetched): (r: Outcome)
    ensures fetched.FetchRejected? ==> r == ShowError(UploadPrefix + fetched.message)
    ensures fetched.Responded? && 200 <= fetched.status < 300 && fetched.body.Uploaded? ==>
              r == Handed(Some(fetched.body.content), "document")
    ensures fetched.Responded? && !(200 <= fetched.status < 300) ==>
              r.ShowError? && StartsWith(r.message, UploadPrefix)
    ensures r.Handed? ==> r.fileType == "document"
    ensures r.ShowError? ==> StartsWith(r.message, UploadPrefix)
  {
    match fetched
    case FetchRejected(m) => ShowError(UploadPrefix + m)
    case Responded(status, body) =>
      if !(200 <= status < 300) then
        var e := if body.ErrorBody? && body.error != "" then body.error else "Upload failed";
        ShowError(UploadPrefix + e)
      else if body.Uploaded? then Handed(Some(body.content), "document")
      else Handed(None, "document")
  }

  /** A document the widget sends passes the route's type and size checks; when
      the route's reply comes back unchanged, the widget hands over exactly the
      text the route extracted, or shows the route's error. */
  lemma ClientServerAgree(env: Env, server: UploadDocument.Env, f: File)
    requires IsPdf(f.name) || IsDocx(f.name)
    requires f.size <= UploadDocument.MaxSize
    requires var reply := UploadDocument.Post(server, UploadDocument.Form(UploadDocument.FileValue(f)));
             env.fetch(f) == Responded(reply.status, reply.body)
    ensures var reply := UploadDocument.Post(server, UploadDocument.Form(UploadDocument.FileValue(f)));
            reply.status in {200, 500}
            && (reply.status == 200 ==> HandleFileSelect(env, f) == Handed(Some(reply.body.content), "document"))
            && (reply.status == 500 ==> HandleFileSelect(env, f) == ShowError(UploadPrefix + UploadDocument.Failed))
  {
    CategoriesExclusive(f.name);
  }

  // ---------------------------------------------------------------------------
  // Drop zone and file input

  /** `handleDrop`: only the first dropped file is handled; none does nothing. */
  function Drop(env: Env, files: seq<File>): (r: Option<Outcome>)
    ensures |files| == 0 <==> r.None?
    ensures |files| > 0 ==> r == Some(HandleFileSelect(env, files[0]))
  {
    if |files| > 0 then Some(HandleFileSelect(env, files[0])) else None
  }

  /** `handleFileInput`: the same rule, where the list itself may be missing. */
  function Input(env: Env, files: Option<seq<File>>): (r: Option<Outcome>)
    ensures r.Some? <==> files.Some? && |files.value| > 0
    ensures r.Some? ==> r == Drop(env, files.value)
  {
    match files
    case None => None
    case Some(fs) => Drop(env, fs)
  }
}
