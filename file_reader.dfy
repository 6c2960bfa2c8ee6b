/**
 * core/utils/file_reader.py: `extract_text_from_file(kb.file)` picks a reader by the file's
 * lower-cased extension and returns the extracted text, or an in-band message starting with
 * `"Error:"`; nothing it calls is allowed to raise out of it.  The PDF and DOCX parsers are
 * not modelled: what they yield for a file is part of the file's description below.
 */
module FileReader {
  import opened Wrappers
  import opened Strings
  import Utf8

  // ---------------------------------------------------------------- os.path.splitext

  /** The index of the last `c` in `s`, or -1 (`str.rfind`). */
  function LastIndexOf(s: string, c: char): (i: int)
    ensures -1 <= i < |s|
    ensures i >= 0 ==> s[i] == c
    ensures forall j :: i < j < |s| ==> s[j] != c
  {
    if s == [] then -1
    else if s[|s| - 1] == c then |s| - 1
    else LastIndexOf(s[..|s| - 1], c)
  }

  predicate AllDots(s: string) {
    forall i :: 0 <= i < |s| ==> s[i] == '.'
  }

  /** `os.path.splitext(name)[1]` on POSIX: from the last `.` of the last path component, unless
      only dots precede it in that component (a leading-dot name has no extension).  The
      extension is empty or a suffix of the name that starts with its only `.` and holds no `/`. */
  function SplitExt(name: string): (ext: string)
    ensures ext == [] || (EndsWith(name, ext) && ext[0] == '.')
    ensures forall j :: 0 < j < |ext| ==> ext[j] != '.'
    ensures forall j :: 0 <= j < |ext| ==> ext[j] != '/'
  {
    var dot, sep := LastIndexOf(name, '.'), LastIndexOf(name, '/');
    if dot > sep && !AllDots(name[sep + 1..dot]) then
      var ext := name[dot..];
      assert forall j :: 0 <= j < |ext| ==> ext[j] == name[dot + j];
      ext
    else []
  }

  /** A file name `stem.e`, whose stem ends in neither `/` nor `.` and whose `e` has neither,
      has the extension `.e`. */
  lemma SplitExtOfStemAndSuffix(stem: string, e: string)
    requires stem != [] && stem[|stem| - 1] != '/' && stem[|stem| - 1] != '.'
    requires forall j :: 0 <= j < |e| ==> e[j] != '.' && e[j] != '/'
    ensures SplitExt(stem + "." + e) == "." + e
  {
    var name := stem + "." + e;
    StemDotSuffix(stem, e, name);
    var dot, sep := LastIndexOf(name, '.'), LastIndexOf(name, '/');
    assert dot == |stem|;
    assert sep < |stem| - 1;
    assert name[sep + 1..dot][|stem| - 1 - (sep + 1)] == stem[|stem| - 1];
  }

  lemma StemDotSuffix(stem: string, e: string, name: string)
    requires stem != [] && name == stem + "." + e
    requires forall j :: 0 <= j < |e| ==> e[j] != '.' && e[j] != '/'
    ensures name[|stem|] == '.' && name[|stem| - 1] == stem[|stem| - 1]
    ensures forall j :: |stem| < j < |name| ==> name[j] != '.' && name[j] != '/'
    ensures name[|stem|..] == "." + e
  {
    assert forall j :: |stem| < j < |name| ==> name[j] == e[j - |stem| - 1];
  }

  /** A name without a dot in its last component has no extension. */
  lemma SplitExtWithoutDot(prefix: string, e: string)
    requires forall j :: 0 <= j < |e| ==> e[j] != '.' && e[j] != '/'
    requires prefix == [] || prefix[|prefix| - 1] == '/'
    ensures SplitExt(prefix + e) == ""
  {
    var name := prefix + e;
    var dot, sep := LastIndexOf(name, '.'), LastIndexOf(name, '/');
    if prefix != [] {
      assert name[|prefix| - 1] == '/';
    }
    assert forall j :: |prefix| <= j < |name| ==> name[j] == e[j - |prefix|];
  }

  /** Neither has a name whose last component is a dot followed by dot-free text (`.bashrc`). */
  lemma SplitExtLeadingDot(prefix: string, e: string)
    requires forall j :: 0 <= j < |e| ==> e[j] != '.' && e[j] != '/'
    requires prefix == [] || prefix[|prefix| - 1] == '/'
    ensures SplitExt(prefix + "." + e) == ""
  {
    var name := prefix + "." + e;
    var dot, sep := LastIndexOf(name, '.'), LastIndexOf(name, '/');
    assert name[|prefix|] == '.';
    assert forall j :: |prefix| < j < |name| ==> name[j] == e[j - |prefix| - 1];
    assert dot == |prefix|;
    if prefix != [] {
      assert name[|prefix| - 1] == '/';
    }
    assert sep == |prefix| - 1;
    assert name[sep + 1..dot] == [];
  }

  // ---------------------------------------------------------------- the file and its parsers

  /** What `page.extract_text()` gives for one page. */
  datatype PageResult = PageText(text: Option<string>) | PageRaises(msg: string)

  /** What `PyPDF2.PdfReader(f)` makes of the file: it raises, or yields its pages. */
  datatype PdfParse = PdfUnreadable(msg: string) | PdfPages(pages: seq<PageResult>)

  /** What `docx.Document(f)` makes of the file: it raises, or yields its paragraphs' texts. */
  datatype DocxParse = DocxUnreadable(msg: string) | DocxParagraphs(texts: seq<string>)

  /** The stored file behind `kb.file`: `open('rb')` raises, or it opens; `read()` then yields
      the bytes or raises, and the parsers see the contents as described. */
  datatype FileBody =
    | Unopenable(msg: string)
    | Opened(contents: Result<seq<Utf8.byte>>, pdf: PdfParse, docx: DocxParse)

  /** A Django `FieldFile`; it is falsy exactly when its name is empty. */
  datatype FieldFile = FieldFile(name: string, body: FileBody)

  /** Whether the optional PDF and DOCX libraries imported. */
  datatype Libraries = Libraries(pdf: bool, docx: bool)

  /** Every failure message starts with this. */
  const ErrorPrefix: string := "Error:"

  const NoFileError: string := ErrorPrefix + " No file object provided."
  const PdfMissingError: string := ErrorPrefix + " PyPDF2 not available. Cannot process PDF files."
  const DocxMissingError: string := ErrorPrefix + " python-docx not available. Cannot process DOCX files."

  const PdfReadText: string := " Could not read PDF content. Please ensure PyPDF2 is installed and the file is valid. ("
  const DocxReadText: string := " Could not read DOCX content. Please ensure python-docx is installed and the file is valid. ("
  const UnsupportedText: string := " Unsupported file type: "
  const AccessText: string := " Could not access file from storage: "

  /** `f"Error: {text}{detail}"`. */
  function Message(text: string, detail: string): string {
    ErrorPrefix + (text + detail)
  }

  function PdfError(e: string): string {
    Message(PdfReadText, e + ")")
  }

  function DocxError(e: string): string {
    Message(DocxReadText, e + ")")
  }

  function UnsupportedError(ext: string): string {
    Message(UnsupportedText, ext)
  }

  function AccessError(e: string): string {
    Message(AccessText, e)
  }

  /** A message starts with the prefix and ends with its detail. */
  lemma MessageInBand(text: string, detail: string)
    ensures StartsWith(Message(text, detail), ErrorPrefix)
    ensures EndsWith(Message(text, detail), detail)
  {
    var m := Message(text, detail);
    assert m[..|ErrorPrefix|] == ErrorPrefix;
    assert m[|m| - |detail|..] == detail;
  }

  /** The fixed messages start with the prefix too. */
  lemma FixedMessagesInBand()
    ensures StartsWith(NoFileError, ErrorPrefix)
    ensures StartsWith(PdfMissingError, ErrorPrefix)
    ensures StartsWith(DocxMissingError, ErrorPrefix)
  {
    PrefixStartsWith(ErrorPrefix, " No file object provided.");
    PrefixStartsWith(ErrorPrefix, " PyPDF2 not available. Cannot process PDF files.");
    PrefixStartsWith(ErrorPrefix, " python-docx not available. Cannot process DOCX files.");
  }

  lemma PrefixStartsWith(p: string, x: string)
    ensures StartsWith(p + x, p)
  {
    assert (p + x)[..|p|] == p;
  }

  // ---------------------------------------------------------------- the page loop

  /** What a page contributes: its text when that is truthy (not `None`, not `""`). */
  function PageContribution(t: Option<string>): string {
    if t.Some? && t.value != "" then t.value else ""
  }

  /** The page loop: the concatenation of the pages' texts in order, or the message of the
      first page whose extraction raises. */
  function PdfText(pages: seq<PageResult>): Result<string> {
    if pages == [] then Ok("")
    else
      var before := PdfText(pages[..|pages| - 1]);
      var last := pages[|pages| - 1];
      if before.Err? then before
      else if last.PageRaises? then Err(last.msg)
      else Ok(before.value + PageContribution(last.text))
  }

  /** The loop over `reader.pages`, accumulating `extracted_text += page_text`. */
  method ExtractPdfPages(pages: seq<PageResult>) returns (r: Result<string>)
    ensures r == PdfText(pages)
  {
    var text := "";
    for i := 0 to |pages|
      invariant PdfText(pages[..i]) == Ok(text)
    {
      assert pages[..i + 1][..i] == pages[..i];
      match pages[i]
      case PageRaises(msg) =>
        PdfTextKeepsFirstError(pages[..i + 1], pages[i + 1..]);
        assert pages[..i + 1] + pages[i + 1..] == pages;
        return Err(msg);
      case PageText(t) =>
        if t.Some? && t.value != "" {
          text := text + t.value;
        } else {
          assert text + PageContribution(t) == text;
        }
    }
    assert pages[..|pages|] == pages;
    r := Ok(text);
  }

  /** Once a page raises, later pages do not matter. */
  lemma {:induction false} PdfTextKeepsFirstError(a: seq<PageResult>, b: seq<PageResult>)
    requires PdfText(a).Err?
    ensures PdfText(a + b) == PdfText(a)
  {
    assert a != [];
    if b != [] {
      assert (a + b)[..|a + b| - 1] == a + b[..|b| - 1];
      PdfTextKeepsFirstError(a, b[..|b| - 1]);
    } else {
      assert a + b == a;
    }
  }

  /** The page loop is a concatenation: the text of two runs of pages is the text of the first
      followed by the text of the second, with no separator. */
  lemma {:induction false} PdfTextAppend(a: seq<PageResult>, b: seq<PageResult>)
    requires PdfText(a).Ok? && PdfText(b).Ok?
    ensures PdfText(a + b) == Ok(PdfText(a).value + PdfText(b).value)
  {
    if b == [] {
      assert a + b == a;
      assert PdfText(a).value + PdfText(b).value == PdfText(a).value;
    } else {
      var b' := b[..|b| - 1];
      assert (a + b)[..|a + b| - 1] == a + b';
      assert (a + b)[|a + b| - 1] == b[|b| - 1];
      assert PdfText(b').Ok?;
      assert a + b != [];
      PdfTextAppend(a, b');
      var last := b[|b| - 1];
      if !last.PageRaises? {
        var x, y, z := PdfText(a).value, PdfText(b').value, PageContribution(last.text);
        assert PdfText(b).value == y + z;
        assert (x + y) + z == x + (y + z);
      }
    }
  }

  /** A single page contributes its text, or nothing when it is empty or `None`. */
  lemma PdfTextSingle(p: PageResult)
    ensures PdfText([p]) == if p.PageRaises? then Err(p.msg) else Ok(PageContribution(p.text))
  {
    assert [p][..0] == [];
    if p.PageText? {
      assert "" + PageContribution(p.text) == PageContribution(p.text);
    }
  }

  // ---------------------------------------------------------------- extract_text_from_file

  /** `os.path.splitext(file.name)[1].lower()`. */
  function Extension(f: FieldFile): string {
    Lower(SplitExt(f.name))
  }

  /** The branch the extension selects. */
  datatype Reader = TxtReader | PdfReader | DocxReader | NoReader

  function ReaderFor(ext: string): Reader {
    if ext == ".txt" then TxtReader
    else if ext == ".pdf" then PdfReader
    else if ext == ".docx" then DocxReader
    else NoReader
  }

  /** What the selected branch returns for an opened file. */
  function Read(reader: Reader, ext: string, contents: Result<seq<Utf8.byte>>, pdf: PdfParse,
                docx: DocxParse, libs: Libraries): string
  {
    match reader
    case TxtReader =>
      if contents.Ok? then Utf8.Decode(contents.value) else AccessError(contents.error)
    case PdfReader =>
      if !libs.pdf then PdfMissingError
      else if pdf.PdfUnreadable? then PdfError(pdf.msg)
      else var t := PdfText(pdf.pages); if t.Err? then PdfError(t.error) else t.value
    case DocxReader =>
      if !libs.docx then DocxMissingError
      else if docx.DocxUnreadable? then DocxError(docx.msg)
      else Join("\n", docx.texts)
    case NoReader => UnsupportedError(ext)
  }

  /** `extract_text_from_file(f)`. */
  function Extract(f: FieldFile, libs: Libraries): string {
    if f.name == "" then NoFileError
    else
      match f.body
      case Unopenable(e) => AccessError(e)
      case Opened(contents, pdf, docx) =>
        var ext := Extension(f);
        Read(ReaderFor(ext), ext, contents, pdf, docx, libs)
  }

  /** The cases in which the selected branch fails, as opposed to yielding the file's text. */
  predicate ReadFails(reader: Reader, contents: Result<seq<Utf8.byte>>, pdf: PdfParse,
                      docx: DocxParse, libs: Libraries)
  {
    match reader
    case TxtReader => contents.Err?
    case PdfReader => !libs.pdf || pdf.PdfUnreadable? || PdfText(pdf.pages).Err?
    case DocxReader => !libs.docx || docx.DocxUnreadable?
    case NoReader => true
  }

  /** The cases in which extraction fails. */
  predicate Fails(f: FieldFile, libs: Libraries) {
    || f.name == ""
    || f.body.Unopenable?
    || ReadFails(ReaderFor(Extension(f)), f.body.contents, f.body.pdf, f.body.docx, libs)
  }

  lemma ReadFailureIsInBand(reader: Reader, ext: string, contents: Result<seq<Utf8.byte>>,
                            pdf: PdfParse, docx: DocxParse, libs: Libraries)
    requires ReadFails(reader, contents, pdf, docx, libs)
    ensures StartsWith(Read(reader, ext, contents, pdf, docx, libs), ErrorPrefix)
  {
    match reader
    case TxtReader => MessageInBand(AccessText, contents.error);
    case PdfReader =>
      FixedMessagesInBand();
      if libs.pdf && pdf.PdfUnreadable? {
        MessageInBand(PdfReadText, pdf.msg + ")");
      } else if libs.pdf {
        MessageInBand(PdfReadText, PdfText(pdf.pages).error + ")");
      }
    case DocxReader =>
      FixedMessagesInBand();
      if libs.docx {
        MessageInBand(DocxReadText, docx.msg + ")");
      }
    case NoReader => MessageInBand(UnsupportedText, ext);
  }

  /** Every failure is reported in band, as a string starting with `"Error:"`. */
  lemma FailureIsInBand(f: FieldFile, libs: Libraries)
    requires Fails(f, libs)
    ensures StartsWith(Extract(f, libs), ErrorPrefix)
  {
    FixedMessagesInBand();
    if f.name != "" && f.body.Unopenable? {
      MessageInBand(AccessText, f.body.msg);
    } else if f.name != "" {
      var ext := Extension(f);
      ReadFailureIsInBand(ReaderFor(ext), ext, f.body.contents, f.body.pdf, f.body.docx, libs);
    }
  }

  /** Otherwise the result is the file's text: its bytes decoded as UTF-8 dropping what does
      not decode, its pages' texts concatenated, or its paragraphs joined by newlines. */
  lemma SuccessIsFileText(f: FieldFile, libs: Libraries)
    requires !Fails(f, libs)
    ensures var r, ext := Extract(f, libs), Extension(f);
      && (ext == ".txt" ==> r == Utf8.Decode(f.body.contents.value))
      && (ext == ".pdf" ==> Ok(r) == PdfText(f.body.pdf.pages))
      && (ext == ".docx" ==> r == Join("\n", f.body.docx.texts))
      && (ext != ".txt" && ext != ".pdf" && ext != ".docx" ==> false)
  {
  }

  /** The text of a `.txt` file that holds an encoded string is that string. */
  lemma TextFileRoundTrip(name: string, s: string, pdf: PdfParse, docx: DocxParse, libs: Libraries)
    requires name != "" && Lower(SplitExt(name)) == ".txt"
    ensures Extract(FieldFile(name, Opened(Ok(Utf8.Encode(s)), pdf, docx)), libs) == s
  {
    Utf8.DecodeEncode(s);
  }

  /** Dispatch depends on the extension only up to case: names whose extensions agree when
      lower-cased are read alike. */
  lemma DispatchIgnoresCase(a: string, b: string, body: FileBody, libs: Libraries)
    requires a != "" && b != "" && Lower(SplitExt(a)) == Lower(SplitExt(b))
    ensures Extract(FieldFile(a, body), libs) == Extract(FieldFile(b, body), libs)
  {
    assert Extension(FieldFile(a, body)) == Extension(FieldFile(b, body));
  }

  /** A name `stem.doc` is unsupported, whatever the file holds. */
  lemma DocIsUnsupported(stem: string, body: FileBody, libs: Libraries)
    requires stem != [] && stem[|stem| - 1] != '/' && stem[|stem| - 1] != '.'
    requires body.Opened?
    ensures Extract(FieldFile(stem + "." + "doc", body), libs) == UnsupportedError(".doc")
  {
    SplitExtOfStemAndSuffix(stem, "doc");
    assert "." + "doc" == ".doc";
    LowerOfLowerCase(".doc");
  }

  /** An upper-case extension is read like its lower-case form. */
  lemma UpperCaseExtension(stem: string)
    requires stem != [] && stem[|stem| - 1] != '/' && stem[|stem| - 1] != '.'
    ensures Lower(SplitExt(stem + "." + "PDF")) == ".pdf"
  {
    SplitExtOfStemAndSuffix(stem, "PDF");
    LowerDotPdf(".PDF");
  }

  lemma LowerDotPdf(s: string)
    requires s == "." + "PDF"
    ensures Lower(s) == ".pdf"
  {
    var l := Lower(s);
    assert |l| == 4 && l[0] == '.' && l[1] == 'p' && l[2] == 'd' && l[3] == 'f';
  }
}
