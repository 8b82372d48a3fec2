/** Text extraction from PDF, TXT and Markdown files, chosen by the file's
    extension, followed by chunking. The filesystem is a map from path to
    what each reader would see in the file; PDF page extraction and the text
    splitter are opaque. */
module DocumentProcessor {
  import opened Wrappers
  import opened PyText

  /** What the PDF library extracts from one page. */
  datatype PageText = Extracted(text: string) | ExtractFailed

  /** What opening a file as a PDF yields. */
  datatype PdfReading = Parsed(pages: seq<PageText>) | Unparseable

  /** What reading a file as UTF-8 text yields: the text, a decoding error,
      or an operating-system error (a directory, no permission). */
  datatype TextReading = Decoded(text: string) | NotUtf8 | Unreadable

  /** A file as the two readers see it. */
  datatype File = File(asPdf: PdfReading, asText: TextReading)

  type FileSystem = map<string, File>

  const DefaultChunkSize := 1000
  const DefaultChunkOverlap := 200

  // ---------------------------------------------------------------------
  // File names
  // ---------------------------------------------------------------------

  /** The last component of a path: the tail of the path after its last `/`,
      or the whole path when it has none. */
  function BaseName(path: string): (name: string)
    ensures '/' !in name
    ensures |name| <= |path| && name == path[|path| - |name|..]
    ensures |name| == |path| || path[|path| - |name| - 1] == '/'
    decreases |path|
  {
    match LastIndexOf(path, '/')
    case None => path
    case Some(i) => path[i + 1..]
  }

  /** `Path(path).suffix`: from the last dot of the file name, provided the
      dot neither opens nor closes the name. */
  function Suffix(path: string): (r: string)
    ensures r == [] || r[0] == '.'
    ensures var name := BaseName(path);
            r != [] ==> 2 <= |r| < |name| && r == name[|name| - |r|..] && '.' !in r[1..]
    ensures var name := BaseName(path);
            r == [] ==> forall i :: 0 < i < |name| - 1 && name[i] == '.' ==> '.' in name[i + 1..]
  {
    var name := BaseName(path);
    match LastIndexOf(name, '.')
    case None => ""
    case Some(i) => if 0 < i < |name| - 1 then name[i..] else ""
  }

  /** The extension used for dispatch: the suffix, lowercased. */
  function Extension(path: string): string {
    Lower(Suffix(path))
  }

  // ---------------------------------------------------------------------
  // Readers
  // ---------------------------------------------------------------------

  /** The text of the pages, each followed by a newline, or the read error
      raised for the first page that cannot be extracted. */
  function PagesText(pages: seq<PageText>): (r: Result<string>)
    ensures r.Err? ==> r == Err(ReadError)
  {
    if pages == [] then Ok("")
    else
      var front :- PagesText(pages[..|pages| - 1]);
      match pages[|pages| - 1]
      case ExtractFailed => Err(ReadError)
      case Extracted(t) => Ok(front + t + "\n")
  }

  /** `extract_text_from_pdf(path)`, as a function of the filesystem. */
  function PdfText(fs: FileSystem, path: string): (r: Result<string>)
    ensures path !in fs ==> r == Err(FileNotFound(path))
    ensures r.Err? ==> r.error == FileNotFound(path) || r.error == ReadError
  {
    if path !in fs then Err(FileNotFound(path))
    else match fs[path].asPdf
      case Unparseable => Err(ReadError)
      case Parsed(pages) => PagesText(pages)
  }

  /** `extract_text_from_txt(path)`: a decoding error is not an `IOError`,
      so it escapes the reader's handler unchanged. */
  function TxtText(fs: FileSystem, path: string): (r: Result<string>)
    ensures path !in fs ==> r == Err(FileNotFound(path))
    ensures r.Ok? <==> path in fs && fs[path].asText.Decoded?
    ensures r.Ok? ==> fs[path].asText == Decoded(r.value)
  {
    if path !in fs then Err(FileNotFound(path))
    else match fs[path].asText
      case Decoded(t) => Ok(t)
      case NotUtf8 => Err(DecodeError)
      case Unreadable => Err(ReadError)
  }

  /** `extract_text_from_md(path)`: the TXT reader. */
  function MdText(fs: FileSystem, path: string): (r: Result<string>)
    ensures path !in fs ==> r == Err(FileNotFound(path))
    ensures r.Ok? <==> path in fs && fs[path].asText.Decoded?
    ensures r.Ok? ==> fs[path].asText == Decoded(r.value)
  {
    TxtText(fs, path)
  }

  /** The reader chosen for an extension. */
  function ReadAs(fs: FileSystem, path: string, extension: string): (r: Result<string>)
    ensures r == Err(UnsupportedExtension(extension))
            <==> extension != ".pdf" && extension != ".txt" && extension != ".md"
  {
    if extension == ".pdf" then PdfText(fs, path)
    else if extension == ".txt" then TxtText(fs, path)
    else if extension == ".md" then MdText(fs, path)
    else Err(UnsupportedExtension(extension))
  }

  /** `extract_text_from_file(path)`: dispatch on the lowercased suffix. */
  function FileText(fs: FileSystem, path: string): (r: Result<string>)
    ensures r == Err(UnsupportedExtension(Extension(path)))
            <==> Extension(path) != ".pdf" && Extension(path) != ".txt" && Extension(path) != ".md"
  {
    ReadAs(fs, path, Extension(path))
  }

  /** `process_document(path, chunk_size, chunk_overlap)`. */
  function Processed(fs: FileSystem, path: string, chunkSize: int, chunkOverlap: int,
                     chunk: (string, int, int) -> Result<seq<string>>): (r: Result<seq<string>>)
    ensures FileText(fs, path).Err? ==> r == Err(FileText(fs, path).error)
    ensures r.Ok? ==> FileText(fs, path).Ok?
  {
    var text :- FileText(fs, path);
    chunk(text, chunkSize, chunkOverlap)
  }

  /** `extract_text_from_pdf(path)`: the text of each page plus a newline,
      accumulated page by page. */
  method ExtractTextFromPdf(fs: FileSystem, path: string) returns (r: Result<string>)
    ensures r == PdfText(fs, path)
  {
    if path !in fs {
      return Err(FileNotFound(path));
    }
    match fs[path].asPdf {
      case Unparseable =>
        return Err(ReadError);
      case Parsed(pages) =>
        var text := "";
        for i := 0 to |pages|
          invariant PagesText(pages[..i]) == Ok(text)
        {
          assert pages[..i + 1][..i] == pages[..i];
          match pages[i] {
            case ExtractFailed =>
              PagesTextSpec(pages);
              return Err(ReadError);
            case Extracted(t) =>
              text := text + t + "\n";
          }
        }
        assert pages[..|pages|] == pages;
        r := Ok(text);
    }
  }

  /** `extract_text_from_file(path)`. */
  method ExtractTextFromFile(fs: FileSystem, path: string) returns (r: Result<string>)
    ensures r == FileText(fs, path)
  {
    var extension := Lower(Suffix(path));
    if extension == ".pdf" {
      r := ExtractTextFromPdf(fs, path);
    } else if extension == ".txt" {
      r := TxtText(fs, path);
    } else if extension == ".md" {
      r := MdText(fs, path);
    } else {
      r := Err(UnsupportedExtension(extension));
    }
  }

  /** `process_document(path, chunk_size, chunk_overlap)`. */
  method ProcessDocument(fs: FileSystem, path: string, chunk: (string, int, int) -> Result<seq<string>>,
                         chunkSize: int := DefaultChunkSize, chunkOverlap: int := DefaultChunkOverlap)
    returns (r: Result<seq<string>>)
    ensures r == Processed(fs, path, chunkSize, chunkOverlap, chunk)
  {
    var text := ExtractTextFromFile(fs, path);
    if text.Err? {
      return Err(text.error);
    }
    r := chunk(text.value, chunkSize, chunkOverlap);
  }

  // ---------------------------------------------------------------------
  // Properties
  // ---------------------------------------------------------------------

  /** Every page was extracted. */
  predicate AllExtracted(pages: seq<PageText>) {
    forall i :: 0 <= i < |pages| ==> pages[i].Extracted?
  }

  /** The pages' texts, each followed by a newline, front to back. */
  function Concatenated(pages: seq<PageText>): string
    requires AllExtracted(pages)
  {
    if pages == [] then "" else pages[0].text + "\n" + Concatenated(pages[1..])
  }

  /** The total length of the pages' texts. */
  function TextLength(pages: seq<PageText>): nat
    requires AllExtracted(pages)
  {
    if pages == [] then 0 else |pages[0].text| + TextLength(pages[1..])
  }

  /** Concatenating one more page at the back. */
  lemma {:induction false} ConcatenatedSnoc(pages: seq<PageText>)
    requires pages != [] && AllExtracted(pages)
    ensures Concatenated(pages) == Concatenated(pages[..|pages| - 1]) + pages[|pages| - 1].text + "\n"
    ensures TextLength(pages) == TextLength(pages[..|pages| - 1]) + |pages[|pages| - 1].text|
  {
    if |pages| > 1 {
      var rest := pages[1..];
      ConcatenatedSnoc(rest);
      assert rest[..|rest| - 1] == pages[..|pages| - 1][1..];
    }
  }

  lemma {:induction false} ConcatenatedLength(pages: seq<PageText>)
    requires AllExtracted(pages)
    ensures |Concatenated(pages)| == TextLength(pages) + |pages|
  {
    if pages != [] {
      ConcatenatedLength(pages[1..]);
    }
  }

  /** The PDF text is exactly the pages' texts, each followed by a newline,
      in order, when every page is extracted; its length is the total page
      length plus one per page. Any page that fails makes the whole read
      fail with the read error: there is no partial text. */
  lemma {:induction false} PagesTextSpec(pages: seq<PageText>)
    ensures AllExtracted(pages) ==> PagesText(pages) == Ok(Concatenated(pages))
    ensures AllExtracted(pages) ==> |PagesText(pages).value| == TextLength(pages) + |pages|
    ensures !AllExtracted(pages) ==> PagesText(pages) == Err(ReadError)
  {
    if pages != [] {
      var front := pages[..|pages| - 1];
      PagesTextSpec(front);
      if AllExtracted(pages) {
        assert forall i :: 0 <= i < |front| ==> front[i] == pages[i];
        assert AllExtracted(front);
        ConcatenatedSnoc(pages);
        ConcatenatedLength(pages);
      } else if AllExtracted(front) {
        assert pages[|pages| - 1].ExtractFailed?;
      }
    }
  }

  /** A PDF without pages yields the empty text. */
  lemma NoPagesEmpty(fs: FileSystem, path: string)
    requires path in fs && fs[path].asPdf == Parsed([])
    ensures PdfText(fs, path) == Ok("")
  {
  }

  /** An extension outside `.pdf`, `.txt` and `.md` (in any letter case) is
      refused whatever the filesystem holds, even when the file is missing. */
  lemma UnsupportedBeforeExistence(fs: FileSystem, path: string)
    requires Extension(path) != ".pdf" && Extension(path) != ".txt" && Extension(path) != ".md"
    ensures FileText(fs, path) == Err(UnsupportedExtension(Extension(path)))
    ensures forall other: FileSystem :: FileText(other, path) == FileText(fs, path)
  {
  }

  /** A missing file with a supported extension is reported as not found
      before anything is read. */
  lemma MissingFileNotFound(fs: FileSystem, path: string)
    requires path !in fs
    requires Extension(path) == ".pdf" || Extension(path) == ".txt" || Extension(path) == ".md"
    ensures FileText(fs, path) == Err(FileNotFound(path))
  {
  }

  /** A Markdown file reads exactly as the TXT reader reads it. */
  lemma MarkdownIsText(fs: FileSystem, path: string)
    requires Extension(path) == ".md"
    ensures FileText(fs, path) == TxtText(fs, path)
  {
  }

  /** Two suffixes that differ only in ASCII letter case dispatch alike:
      the same file under either name reads the same. */
  lemma CaseInsensitiveDispatch(fs: FileSystem, p: string, q: string)
    requires Lower(Suffix(p)) == Lower(Suffix(q))
    requires p in fs && q in fs && fs[p] == fs[q]
    ensures FileText(fs, p) == FileText(fs, q)
  {
    SameFileSameReading(fs, p, q, Extension(p));
  }

  /** Under one extension, two paths holding the same file read alike. */
  lemma SameFileSameReading(fs: FileSystem, p: string, q: string, extension: string)
    requires p in fs && q in fs && fs[p] == fs[q]
    ensures ReadAs(fs, p, extension) == ReadAs(fs, q, extension)
  {
    assert PdfText(fs, p) == PdfText(fs, q);
    assert TxtText(fs, p) == TxtText(fs, q);
  }

  /** `.PDF` is read as a PDF. */
  lemma UpperCasePdf(fs: FileSystem)
    ensures FileText(fs, "a.PDF") == PdfText(fs, "a.PDF")
  {
    assert LastIndexOf("a.PDF", '/') == None;
    assert BaseName("a.PDF") == "a.PDF";
    assert LastIndexOf("a.PDF", '.') == Some(1);
    assert Suffix("a.PDF") == ".PDF";
    assert Lower(".PDF") == ".pdf";
    assert Extension("a.PDF") == ".pdf";
  }

  /** Processing fails with the extraction error, without chunking, when
      extraction fails, and otherwise is the chunking of the extracted text. */
  lemma ProcessedComposes(fs: FileSystem, path: string, chunkSize: int, chunkOverlap: int,
                          chunk: (string, int, int) -> Result<seq<string>>)
    ensures FileText(fs, path).Err? ==>
              Processed(fs, path, chunkSize, chunkOverlap, chunk) == Err(FileText(fs, path).error)
    ensures FileText(fs, path).Ok? ==>
              Processed(fs, path, chunkSize, chunkOverlap, chunk) == chunk(FileText(fs, path).value, chunkSize, chunkOverlap)
  {
  }
}
