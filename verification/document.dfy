/** `document.py`: the document extractor. The extension picks one of four
    readers (Word, PDF, Excel, PowerPoint) through `FILE_EXTENSIONS` and a
    method looked up by name; each reader copies fields from what its
    third-party library parsed. The libraries themselves are inputs here:
    `Readers` records, per library, what it parsed from the file or the
    message of the exception it raised. */
module Document {
  import opened Common
  import opened PyText
  import opened Values

  /** `FILE_EXTENSIONS`: lower-cased extension to document type name. */
  const FileExtensions: map<string, string> :=
    map[".docx" := "word", ".pdf" := "pdf", ".xlsx" := "excel", ".pptx" := "powerpoint"]

  datatype DocType = Word | Pdf | Excel | PowerPoint

  /** `getattr(self, name)` among the reader methods of `DocumentMetadata`;
      `None` where Python would raise `AttributeError`. */
  function ReaderMethod(name: string): (r: Option<DocType>)
    ensures r.Some? <==> name in {"word_metadata", "pdf_metadata", "excel_metadata", "powerpoint_metadata"}
  {
    if name == "word_metadata" then Some(Word)
    else if name == "pdf_metadata" then Some(Pdf)
    else if name == "excel_metadata" then Some(Excel)
    else if name == "powerpoint_metadata" then Some(PowerPoint)
    else None
  }

  /** Every type name in `FILE_EXTENSIONS` names an existing reader, and
      each extension reaches its own reader. */
  lemma EveryTypeHasReader()
    ensures forall ext :: ext in FileExtensions ==> ReaderMethod(FileExtensions[ext] + "_metadata").Some?
    ensures ReaderMethod(FileExtensions[".docx"] + "_metadata") == Some(Word)
    ensures ReaderMethod(FileExtensions[".pdf"] + "_metadata") == Some(Pdf)
    ensures ReaderMethod(FileExtensions[".xlsx"] + "_metadata") == Some(Excel)
    ensures ReaderMethod(FileExtensions[".pptx"] + "_metadata") == Some(PowerPoint)
  {
    assert FileExtensions[".docx"] + "_metadata" == "word_metadata";
    assert FileExtensions[".pdf"] + "_metadata" == "pdf_metadata";
    assert FileExtensions[".xlsx"] + "_metadata" == "excel_metadata";
    assert FileExtensions[".pptx"] + "_metadata" == "powerpoint_metadata";
  }

  /** `_determine_file_type`: the type name of the lower-cased extension,
      or the `MetadataError` message for any other extension. */
  function DetermineFileType(path: string): (r: Result<string, string>)
    ensures Lower(Extension(path)) in FileExtensions <==> r.Ok?
    ensures r.Ok? ==> r.value == FileExtensions[Lower(Extension(path))]
    ensures r.Err? ==> r.error == "Unsupported file type: " + Lower(Extension(path))
  {
    var ext := Lower(Extension(path));
    if ext !in FileExtensions then Err("Unsupported file type: " + ext)
    else Ok(FileExtensions[ext])
  }

  /* ---------- what the libraries parsed ---------- */

  /** A library call that either parsed the file or raised. */
  datatype Parsed<T> = Opened(doc: T) | Raised(message: string)

  /** python-docx: core properties by attribute name, section count,
      paragraph texts. */
  datatype WordFile = WordFile(core: map<string, Value>, sections: nat, paragraphs: seq<string>)

  /** pikepdf: the document-information dictionary, version, page count. */
  datatype PdfFile = PdfFile(docinfo: map<string, Value>, version: string, pages: nat)

  /** openpyxl: workbook properties, sheet count, extent of the active sheet. */
  datatype Workbook = Workbook(properties: map<string, Value>, sheets: nat, maxRow: int, maxColumn: int)

  /** python-pptx: core properties and slide count. */
  datatype Presentation = Presentation(core: map<string, Value>, slides: nat)

  /** What each library yields on one file. */
  datatype Readers = Readers(
    word: Parsed<WordFile>,
    pdf: Parsed<PdfFile>,
    excel: Parsed<Workbook>,
    powerpoint: Parsed<Presentation>)

  /** A property read; a property the file does not set reads as `None`. */
  function Prop(props: map<string, Value>, name: string): Value {
    if name in props then props[name] else VNone
  }

  /** Copies the named properties: result key to property name. */
  function CopyFields(props: map<string, Value>, fields: map<string, string>): (m: Metadata)
    ensures m.Keys == fields.Keys
    ensures forall k :: k in fields ==> m[k] == Prop(props, fields[k])
  {
    map k | k in fields :: Prop(props, fields[k])
  }

  /* ---------- word_metadata ---------- */

  const WordFields: map<string, string> := map[
    "Author" := "author", "Title" := "title", "Subject" := "subject",
    "Date Created" := "created", "Date Modified" := "modified",
    "Revision" := "revision", "Last Printed" := "last_printed",
    "Category" := "category", "Keywords" := "keywords",
    "Comments" := "comments", "Version" := "version",
    "Status" := "content_status"]

  /** Number of words over all paragraphs: the sum of the lengths of their
      whitespace splits. */
  function TotalWords(paragraphs: seq<string>): nat
    decreases |paragraphs|
  {
    if |paragraphs| == 0 then 0
    else TotalWords(paragraphs[..|paragraphs| - 1]) + |Words(paragraphs[|paragraphs| - 1])|
  }

  /** The word count of concatenated paragraph lists is the sum of theirs. */
  lemma {:induction false} TotalWordsAppend(a: seq<string>, b: seq<string>)
    ensures TotalWords(a + b) == TotalWords(a) + TotalWords(b)
    decreases |b|
  {
    if |b| > 0 {
      var ab := a + b;
      assert ab[..|ab| - 1] == a + b[..|b| - 1];
      assert ab[|ab| - 1] == b[|b| - 1];
      TotalWordsAppend(a, b[..|b| - 1]);
    } else {
      assert a + b == a;
    }
  }

  /** The word count is zero exactly when every paragraph is empty or
      whitespace only. */
  lemma {:induction false} NoWordsIffAllBlank(paragraphs: seq<string>)
    ensures TotalWords(paragraphs) == 0 <==> forall i :: 0 <= i < |paragraphs| ==> IsBlank(paragraphs[i])
    decreases |paragraphs|
  {
    if |paragraphs| > 0 {
      var init := paragraphs[..|paragraphs| - 1];
      var last := paragraphs[|paragraphs| - 1];
      NoWordsIffAllBlank(init);
      NoWordsIffBlank(last);
      if forall i :: 0 <= i < |paragraphs| ==> IsBlank(paragraphs[i]) {
        assert forall i :: 0 <= i < |init| ==> IsBlank(init[i]) by {
          forall i | 0 <= i < |init| ensures IsBlank(init[i]) {
            assert init[i] == paragraphs[i];
          }
        }
      }
      if TotalWords(paragraphs) == 0 {
        forall i | 0 <= i < |paragraphs| ensures IsBlank(paragraphs[i]) {
          if i < |init| {
            assert init[i] == paragraphs[i];
          }
        }
      }
    }
  }

  /** The word-count loop of `word_metadata`. */
  method CountParagraphWords(paragraphs: seq<string>) returns (count: nat)
    ensures count == TotalWords(paragraphs)
  {
    count := 0;
    var i := 0;
    while i < |paragraphs|
      invariant 0 <= i <= |paragraphs|
      invariant count == TotalWords(paragraphs[..i])
    {
      var n := CountWords(paragraphs[i]);
      assert paragraphs[..i + 1][..i] == paragraphs[..i];
      count := count + n;
      i := i + 1;
    }
    assert paragraphs[..i] == paragraphs;
  }

  const WordKeys := WordFields.Keys + {"Page Count", "Word Count"}

  /** `word_metadata`. */
  function WordMetadata(doc: WordFile): (m: Metadata)
    ensures m.Keys == WordKeys
    ensures forall k :: k in WordFields ==> m[k] == Prop(doc.core, WordFields[k])
    ensures m["Page Count"] == VInt(doc.sections)
    ensures m["Word Count"] == VInt(TotalWords(doc.paragraphs))
  {
    CopyFields(doc.core, WordFields)["Page Count" := VInt(doc.sections)]["Word Count" := VInt(TotalWords(doc.paragraphs))]
  }

  /* ---------- pdf_metadata ---------- */

  const PdfFields: map<string, string> := map[
    "Author" := "/Author", "Title" := "/Title",
    "Date Created" := "/CreationDate", "Date Modified" := "/ModDate",
    "Subject" := "/Subject", "Keywords" := "/Keywords", "PDDocID" := "/ID"]

  /** `docinfo.get(name, '')`. */
  function DocInfoGet(docinfo: map<string, Value>, name: string): Value {
    if name in docinfo then docinfo[name] else VStr("")
  }

  const PdfKeys := PdfFields.Keys + {"PDFVersion", "Page Count"}

  /** `pdf_metadata`: an entry the document-information dictionary lacks
      reads as the empty string. */
  function PdfMetadata(pdf: PdfFile): (m: Metadata)
    ensures m.Keys == PdfKeys
    ensures forall k :: k in PdfFields && PdfFields[k] !in pdf.docinfo ==> m[k] == VStr("")
    ensures forall k :: k in PdfFields && PdfFields[k] in pdf.docinfo ==> m[k] == pdf.docinfo[PdfFields[k]]
    ensures m["PDFVersion"] == VStr(pdf.version) && m["Page Count"] == VInt(pdf.pages)
  {
    var fields := map k | k in PdfFields :: DocInfoGet(pdf.docinfo, PdfFields[k]);
    fields["PDFVersion" := VStr(pdf.version)]["Page Count" := VInt(pdf.pages)]
  }

  /* ---------- excel_metadata and powerpoint_metadata ---------- */

  const ExcelFields: map<string, string> := map[
    "Author" := "creator", "Title" := "title",
    "Date Created" := "created", "Date Modified" := "modified"]

  const ExcelKeys := ExcelFields.Keys + {"Sheet Count", "Row Count", "Column Count"}

  /** `excel_metadata`. */
  function ExcelMetadata(book: Workbook): (m: Metadata)
    ensures m.Keys == ExcelKeys
    ensures forall k :: k in ExcelFields ==> m[k] == Prop(book.properties, ExcelFields[k])
    ensures m["Sheet Count"] == VInt(book.sheets)
  {
    CopyFields(book.properties, ExcelFields)
      ["Sheet Count" := VInt(book.sheets)]
      ["Row Count" := VInt(book.maxRow)]
      ["Column Count" := VInt(book.maxColumn)]
  }

  const PowerPointFields: map<string, string> := map[
    "Author" := "author", "Title" := "title", "Subject" := "subject",
    "Date Created" := "created", "Date Modified" := "modified"]

  const PowerPointKeys := PowerPointFields.Keys + {"Slide Count"}

  /** `powerpoint_metadata`. */
  function PowerPointMetadata(deck: Presentation): (m: Metadata)
    ensures m.Keys == PowerPointKeys
    ensures forall k :: k in PowerPointFields ==> m[k] == Prop(deck.core, PowerPointFields[k])
    ensures m["Slide Count"] == VInt(deck.slides)
  {
    CopyFields(deck.core, PowerPointFields)["Slide Count" := VInt(deck.slides)]
  }

  /** The reader a document type runs; a library exception propagates
      with its message. */
  function ReadAs(t: DocType, readers: Readers): (r: Result<Metadata, string>)
    ensures r.Ok? ==> r.value.Keys == KeysOf(t)
  {
    match t
    case Word => (match readers.word case Opened(d) => Ok(WordMetadata(d)) case Raised(e) => Err(e))
    case Pdf => (match readers.pdf case Opened(d) => Ok(PdfMetadata(d)) case Raised(e) => Err(e))
    case Excel => (match readers.excel case Opened(d) => Ok(ExcelMetadata(d)) case Raised(e) => Err(e))
    case PowerPoint => (match readers.powerpoint case Opened(d) => Ok(PowerPointMetadata(d)) case Raised(e) => Err(e))
  }

  /** The keys each reader produces. */
  function KeysOf(t: DocType): set<string> {
    match t
    case Word => WordKeys
    case Pdf => PdfKeys
    case Excel => ExcelKeys
    case PowerPoint => PowerPointKeys
  }

  /** The reader an extension of `FILE_EXTENSIONS` reaches by name. */
  function ReaderFor(ext: string): (t: DocType)
    requires ext in FileExtensions
    ensures ReaderMethod(FileExtensions[ext] + "_metadata") == Some(t)
  {
    EveryTypeHasReader();
    ReaderMethod(FileExtensions[ext] + "_metadata").value
  }

  /** `DocumentMetadata(path).extract_metadata()`, where `fileExists` is
      what `os.path.exists(path)` answers. The existence check runs first,
      so a missing file reports "File not found" whatever its extension; an
      unknown extension raises before any library runs; otherwise the
      reader of the extension's type runs. */
  function ExtractMetadata(path: string, fileExists: bool, readers: Readers): (r: Result<Metadata, string>)
    ensures !fileExists ==> r == Err("File not found: " + path)
    ensures fileExists && Lower(Extension(path)) !in FileExtensions ==>
      r == Err("Unsupported file type: " + Lower(Extension(path)))
    ensures fileExists && Lower(Extension(path)) in FileExtensions ==>
      r == ReadAs(ReaderFor(Lower(Extension(path))), readers)
  {
    if !fileExists then Err("File not found: " + path)
    else
      match DetermineFileType(path)
      case Err(e) => Err(e)
      case Ok(typeName) =>
        match ReaderMethod(typeName + "_metadata")
        case None => Err(NoAttribute(VObject("DocumentMetadata", ""), typeName + "_metadata"))
        case Some(t) => ReadAs(t, readers)
  }
}
