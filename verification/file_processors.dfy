/** The file processors of utils/file_processors/base.py and pdf_processor.py:
    the per-processor size limit and the PDF page aggregation, with the PDF
    library's parse result given as input. */
module FileProcessors {
  import opened Wrappers
  import opened Http
  import opened Text

  newtype byte = x: int | 0 <= x < 256

  /** `MAX_FILE_SIZE`: 5 MiB. */
  const DefaultMaxFileSize: int := 5 * 1024 * 1024

  const MiB: nat := 1024 * 1024

  /** The processor classes a table entry can name. */
  datatype ProcessorKind = PdfProcessor | OtherProcessor(name: string)

  /** A processor instance: its class and its own size limit (any Python int). */
  datatype FileProcessor = FileProcessor(kind: ProcessorKind, maxFileSize: int)

  /** `__init__(max_file_size=None)`: the limit is overridden only by a
      non-`None` argument, so an explicit 0 is kept. */
  function NewProcessor(kind: ProcessorKind, maxFileSize: Option<int>): (p: FileProcessor)
    ensures p.kind == kind
    ensures maxFileSize.None? ==> p.maxFileSize == DefaultMaxFileSize
    ensures maxFileSize.Some? ==> p.maxFileSize == maxFileSize.value
  {
    FileProcessor(kind, if maxFileSize.Some? then maxFileSize.value else DefaultMaxFileSize)
  }

  /** The limit in whole MiB as the message prints it, `limit // 1024 // 1024`.
      Python's `//` floors; Dafny's `/` by a positive divisor floors too. */
  function LimitInMiB(limit: int): (m: int)
    ensures m * MiB <= limit < (m + 1) * MiB
  {
    limit / 1024 / 1024
  }

  function SizeLimitDetail(limit: int): string {
    "File size exceeds maximum limit of " + IntToString(LimitInMiB(limit)) + "MB"
  }

  /** `validate_size`: `None` when the content fits, otherwise the 400 error. */
  function ValidateSize(p: FileProcessor, content: seq<byte>): (r: Option<HttpError>)
    ensures r.None? <==> |content| <= p.maxFileSize
    ensures r.Some? ==> r.value == HttpError(400, SizeLimitDetail(p.maxFileSize))
  {
    if |content| > p.maxFileSize then Some(HttpError(400, SizeLimitDetail(p.maxFileSize))) else None
  }

  /** A limit below one MiB is reported as "0MB"; the default one as "5MB". */
  lemma SizeLimitDetailExamples(limit: int)
    requires 0 <= limit < MiB
    ensures SizeLimitDetail(limit) == SizeLimitDetail(0)
    ensures LimitInMiB(limit) == 0 && LimitInMiB(DefaultMaxFileSize) == 5
  {
  }

  // ---------------------------------------------------------------------------
  // PDF text extraction

  /** What the PDF library produced: the text of each page, a read error for an
      invalid file, or any other failure with its message. */
  datatype PdfReadOutcome = Pages(texts: seq<string>) | ReadError | LibraryError(message: string)

  const EmptyPdfDetail: string :=
    "Could not extract text from PDF. Please ensure the PDF contains readable text"

  const PageSeparator: string := "\n\n"

  /** A page text with something on it and no surrounding whitespace. */
  predicate Trimmed(t: string) {
    t != "" && !IsSpace(t[0]) && !IsSpace(t[|t| - 1])
  }

  /** The stripped texts of the non-blank pages, in page order. */
  function NonBlankPages(texts: seq<string>): (kept: seq<string>)
    ensures |kept| <= |texts|
    ensures forall i :: 0 <= i < |kept| ==> Trimmed(kept[i])
    decreases |texts|
  {
    if |texts| == 0 then []
    else
      var t := Strip(texts[0]);
      var rest := NonBlankPages(texts[1..]);
      if t == "" then rest
      else
        assert Trimmed(t);
        TrimmedCons(t, rest);
        [t] + rest
  }

  lemma TrimmedCons(t: string, rest: seq<string>)
    requires Trimmed(t)
    requires forall i :: 0 <= i < |rest| ==> Trimmed(rest[i])
    ensures forall i :: 0 <= i < |[t] + rest| ==> Trimmed(([t] + rest)[i])
  {
    forall i | 0 <= i < |[t] + rest|
      ensures Trimmed(([t] + rest)[i])
    {
      if i > 0 {
        assert ([t] + rest)[i] == rest[i - 1];
      }
    }
  }

  lemma EmptyAppend<T>(a: seq<T>, b: seq<T>)
    requires |a| == 0
    ensures a + b == b
  {
  }

  lemma AppendAssoc<T>(a: seq<T>, b: seq<T>, c: seq<T>)
    ensures a + (b + c) == (a + b) + c
  {
  }

  lemma TailOfAppend<T>(a: seq<T>, b: seq<T>)
    requires |a| > 0
    ensures (a + b)[0] == a[0] && (a + b)[1..] == a[1..] + b
  {
  }

  lemma NonBlankPagesCons(texts: seq<string>)
    requires |texts| > 0
    ensures NonBlankPages(texts) == (if Strip(texts[0]) != "" then [Strip(texts[0])] else []) + NonBlankPages(texts[1..])
  {
  }

  /** Pages are judged one at a time and kept in order: the pages kept from
      `a + b` are those kept from `a` followed by those kept from `b`. */
  lemma {:induction false} NonBlankPagesAppend(a: seq<string>, b: seq<string>)
    ensures NonBlankPages(a + b) == NonBlankPages(a) + NonBlankPages(b)
    decreases |a|
  {
    if |a| == 0 {
      assert a + b == b by {
        EmptyAppend(a, b);
      }
    } else {
      var head: seq<string> := if Strip(a[0]) != "" then [Strip(a[0])] else [];
      assert NonBlankPages(a + b) == head + NonBlankPages(a[1..] + b) by {
        TailOfAppend(a, b);
        NonBlankPagesCons(a + b);
      }
      assert NonBlankPages(a) == head + NonBlankPages(a[1..]) by {
        NonBlankPagesCons(a);
      }
      NonBlankPagesAppend(a[1..], b);
      AppendAssoc(head, NonBlankPages(a[1..]), NonBlankPages(b));
    }
  }

  /** A single page is kept, stripped, exactly when it is not all whitespace. */
  lemma NonBlankPagesSingle(t: string)
    ensures NonBlankPages([t]) == if AllSpace(t) then [] else [Strip(t)]
  {
    assert [t][1..] == [];
  }

  /** No page survives exactly when every page is blank. */
  lemma {:induction false} NonBlankPagesEmpty(texts: seq<string>)
    ensures NonBlankPages(texts) == [] <==> forall i :: 0 <= i < |texts| ==> AllSpace(texts[i])
    decreases |texts|
  {
    if |texts| > 0 {
      NonBlankPagesEmpty(texts[1..]);
      if NonBlankPages(texts) == [] {
        assert Strip(texts[0]) == "";
        forall i | 0 <= i < |texts|
          ensures AllSpace(texts[i])
        {
          if i > 0 {
            assert texts[i] == texts[1..][i - 1];
          }
        }
      } else if Strip(texts[0]) == "" {
        assert NonBlankPages(texts[1..]) != [];
        var i :| 0 <= i < |texts[1..]| && !AllSpace(texts[1..][i]);
        assert texts[1..][i] == texts[i + 1];
      }
    }
  }

  /** `extract_text`. The "no text" error is raised inside the `try` and caught
      by its generic handler, so it surfaces as a 500 whose detail embeds the
      inner exception's rendering "400: <detail>". */
  function ExtractText(outcome: PdfReadOutcome): (r: Result<string, HttpError>)
    ensures r.Success? ==> outcome.Pages?
    ensures r.Failure? ==> (r.error.status == 400 <==> outcome.ReadError?)
    ensures r.Failure? ==> r.error.status == 400 || r.error.status == 500
  {
    match outcome
    case ReadError => Failure(HttpError(400, "Invalid or corrupted PDF file"))
    case LibraryError(msg) => Failure(HttpError(500, "Error processing PDF: " + msg))
    case Pages(texts) =>
      var finalText := Join(NonBlankPages(texts), PageSeparator);
      if Strip(finalText) == "" then
        Failure(HttpError(500, "Error processing PDF: 400: " + EmptyPdfDetail))
      else Success(finalText)
  }

  lemma {:induction false} JoinNonBlank(kept: seq<string>)
    requires |kept| > 0
    requires forall i :: 0 <= i < |kept| ==> Trimmed(kept[i])
    ensures var s := Join(kept, PageSeparator);
      s != "" && !IsSpace(s[0]) && !IsSpace(s[|s| - 1]) && Strip(s) != ""
  {
    JoinEnds(kept, PageSeparator);
    var s := Join(kept, PageSeparator);
    var last := kept[|kept| - 1];
    assert s[0] == kept[0][0];
    assert s[|s| - 1] == s[|s| - |last|..][|last| - 1] == last[|last| - 1];
  }

  /** The text is the "\n\n"-join, in page order, of the stripped non-blank
      pages; it fails exactly when every page is blank. */
  lemma ExtractTextPages(texts: seq<string>)
    ensures ExtractText(Pages(texts)).Success? <==> exists i :: 0 <= i < |texts| && !AllSpace(texts[i])
    ensures ExtractText(Pages(texts)).Success? ==>
      ExtractText(Pages(texts)).value == Join(NonBlankPages(texts), PageSeparator)
    ensures ExtractText(Pages(texts)).Failure? ==>
      ExtractText(Pages(texts)).error == HttpError(500, "Error processing PDF: 400: " + EmptyPdfDetail)
  {
    var kept := NonBlankPages(texts);
    NonBlankPagesEmpty(texts);
    if kept != [] {
      JoinNonBlank(kept);
    }
  }

  /** A successful text is non-empty, has no surrounding whitespace, and is as
      long as the kept pages plus two characters between each pair of them. */
  lemma ExtractTextShape(texts: seq<string>)
    requires ExtractText(Pages(texts)).Success?
    ensures var s := ExtractText(Pages(texts)).value;
      && s != "" && !IsSpace(s[0]) && !IsSpace(s[|s| - 1])
      && |s| == SumLengths(NonBlankPages(texts)) + 2 * (|NonBlankPages(texts)| - 1)
  {
    var kept := NonBlankPages(texts);
    JoinNonBlank(kept);
    JoinLength(kept, PageSeparator);
  }
}

/** The extension-to-processor table of utils/file_processors/factory.py. */
module FileProcessorFactory {
  import opened Wrappers
  import opened Http
  import opened Text
  import opened OrderedMap
  import opened FileProcessors

  type ProcessorTable = OrderedMap<string, ProcessorKind>

  /** The table as shipped: only PDF. */
  const DefaultProcessors: ProcessorTable := [(".pdf", PdfProcessor)]

  /** The index of the last `c` in `s`, or -1 (Python's `str.rfind`). */
  function LastIndexOf(s: string, c: char): (i: int)
    ensures -1 <= i < |s|
    ensures i >= 0 ==> s[i] == c
    ensures forall k :: i < k < |s| ==> s[k] != c
    decreases |s|
  {
    if |s| == 0 then -1
    else if s[|s| - 1] == c then |s| - 1
    else LastIndexOf(s[..|s| - 1], c)
  }

  /** `Path(path).name`: the last component after empty and "." components
      (from repeated or trailing slashes) are dropped; "" when none is left. */
  function FinalComponent(path: string): (name: string)
    ensures forall k :: 0 <= k < |name| ==> name[k] != '/'
    ensures name != "."
    decreases |path|
  {
    var i := LastIndexOf(path, '/');
    var segment := path[i + 1..];
    assert forall k :: 0 <= k < |segment| ==> segment[k] != '/' by {
      forall k | 0 <= k < |segment| ensures segment[k] != '/' {
        assert segment[k] == path[i + 1 + k];
      }
    }
    if segment != "" && segment != "." then segment
    else if i < 0 then ""
    else FinalComponent(path[..i])
  }

  /** `PurePath.suffix` of a final component: from its last dot, provided the
      dot is neither the first nor the last character. */
  function Suffix(name: string): (r: string)
    ensures r == "" || (|r| >= 2 && r[0] == '.' && '.' !in r[1..])
  {
    var i := LastIndexOf(name, '.');
    if 0 < i < |name| - 1 then name[i..] else ""
  }

  /** `Path(filename).suffix.lower()`. */
  function Extension(filename: string): (ext: string)
    ensures ext == "" || (|ext| >= 2 && ext[0] == '.' && '.' !in ext[1..] && '/' !in ext)
    ensures forall i :: 0 <= i < |ext| ==> !IsUpperAscii(ext[i])
  {
    var s := Suffix(FinalComponent(filename));
    assert forall i :: 0 <= i < |s| ==> s[i] != '/' by {
      var name := FinalComponent(filename);
      var j := LastIndexOf(name, '.');
      if s != "" {
        forall i | 0 <= i < |s| ensures s[i] != '/' {
          assert s[i] == name[j + i];
        }
      }
    }
    Lower(s)
  }

  function UnsupportedType(table: ProcessorTable): HttpError {
    HttpError(400, "Unsupported file type. Currently supported formats: " + Join(Keys(table), ", "))
  }

  /** `get_processor`: a fresh processor, with the default limit, for the
      file's extension, or a 400 error listing the supported extensions. */
  function GetProcessor(table: ProcessorTable, filename: string): (r: Result<FileProcessor, HttpError>)
    ensures r.Success? <==> Extension(filename) in Keys(table)
    ensures r.Success? ==> Get(table, Extension(filename)) == Some(r.value.kind) && r.value.maxFileSize == DefaultMaxFileSize
    ensures r.Failure? ==> r.error == UnsupportedType(table)
  {
    match Get(table, Extension(filename))
    case Some(kind) => Success(NewProcessor(kind, None))
    case None => Failure(UnsupportedType(table))
  }

  /** `register_processor`: the extension is stored lower-cased. */
  function RegisterProcessor(table: ProcessorTable, extension: string, kind: ProcessorKind): (r: ProcessorTable)
    ensures Get(r, Lower(extension)) == Some(kind)
    ensures forall e :: e != Lower(extension) ==> Get(r, e) == Get(table, e)
    ensures Keys(r) == if Lower(extension) in Keys(table) then Keys(table) else Keys(table) + [Lower(extension)]
  {
    PutGetSame(table, Lower(extension), kind);
    PutGetOthers(table, Lower(extension), kind);
    PutKeys(table, Lower(extension), kind);
    Put(table, Lower(extension), kind)
  }

  // ---------------------------------------------------------------------------
  // Properties

  lemma NoSlashInPiece(stem: string, ext: string)
    requires '/' !in stem && '/' !in ext
    ensures '/' !in stem + "." + ext
  {
  }

  /** The suffix of `stem.ext` is `.ext` when the stem is non-empty and `ext`
      is non-empty and dot-free. */
  lemma SuffixOfStemExt(stem: string, ext: string)
    requires stem != "" && ext != "" && '.' !in ext
    ensures Suffix(stem + "." + ext) == "." + ext
  {
    var name := stem + "." + ext;
    assert name[..|name| - |ext|] == stem + ".";
    var j := |stem|;
    assert name[j] == '.';
    assert name[j + 1..] == ext;
  }

  lemma LastSlashAfterDir(dir: string, piece: string)
    requires '/' !in piece
    ensures LastIndexOf(dir + "/" + piece, '/') == |dir|
  {
    var p := dir + "/" + piece;
    assert p[|dir|] == '/';
    assert p[|dir| + 1..] == piece;
  }

  lemma LastIndexOfAt(s: string, c: char, i: nat)
    requires i < |s| && s[i] == c
    requires forall k :: i < k < |s| ==> s[k] != c
    ensures LastIndexOf(s, c) == i
  {
  }

  lemma FinalComponentOfPiece(piece: string)
    requires piece != "" && piece != "." && '/' !in piece
    ensures FinalComponent(piece) == piece
  {
    assert LastIndexOf(piece, '/') == -1;
    assert piece[0..] == piece;
  }

  /** For `stem.ext` with a non-empty stem and a non-empty dot-free `ext`, the
      extension is `.ext`, lower-cased: only the last suffix counts. */
  lemma ExtensionOfName(stem: string, ext: string)
    requires stem != "" && ext != "" && '.' !in ext && '/' !in ext && '/' !in stem
    ensures Extension(stem + "." + ext) == Lower("." + ext)
  {
    NoSlashInPiece(stem, ext);
    SuffixOfStemExt(stem, ext);
    FinalComponentOfPiece(stem + "." + ext);
  }

  /** The same holds under any directory: only the final component counts. */
  lemma ExtensionOfPath(dir: string, stem: string, ext: string)
    requires stem != "" && ext != "" && '.' !in ext && '/' !in ext && '/' !in stem
    ensures Extension(dir + "/" + stem + "." + ext) == Lower("." + ext)
  {
    var piece := stem + "." + ext;
    NoSlashInPiece(stem, ext);
    SuffixOfStemExt(stem, ext);
    LastSlashAfterDir(dir, piece);
    assert dir + "/" + stem + "." + ext == dir + "/" + piece;
    assert (dir + "/" + piece)[|dir| + 1..] == piece;
  }

  /** The lower-cased suffixes the examples below use. */
  lemma LowerSuffixes()
    ensures Lower("." + "PDF") == ".pdf" && Lower("." + "pdf") == ".pdf" && Lower("." + "exe") == ".exe"
  {
  }

  /** What the shipped table holds. */
  lemma DefaultTableLookups()
    ensures Get(DefaultProcessors, ".pdf") == Some(PdfProcessor)
    ensures Get(DefaultProcessors, ".exe") == None
  {
  }

  /** Lookup ignores letter case and only the last suffix counts: a name
      ending in ".pdf" or ".PDF" gets the PDF processor, whatever dots the
      part before it holds ("CV.PDF", "a.docx.pdf")... */
  lemma PdfAccepted(stem: string, ext: string)
    requires stem != "" && '/' !in stem
    requires ext == "pdf" || ext == "PDF"
    ensures GetProcessor(DefaultProcessors, stem + "." + ext) == Success(FileProcessor(PdfProcessor, DefaultMaxFileSize))
  {
    assert Extension(stem + "." + ext) == ".pdf" by {
      ExtensionOfName(stem, ext);
      LowerSuffixes();
    }
    DefaultTableLookups();
  }

  /** ... and a name ending in ".exe" is rejected whatever precedes it
      ("a.pdf.exe"), with the list of supported extensions. */
  lemma LastSuffixRejected(stem: string)
    requires stem != "" && '/' !in stem
    ensures GetProcessor(DefaultProcessors, stem + ".exe") == Failure(UnsupportedType(DefaultProcessors))
  {
    assert Extension(stem + ".exe") == ".exe" by {
      ExtensionOfName(stem, "exe");
      assert stem + "." + "exe" == stem + ".exe";
      LowerSuffixes();
    }
    DefaultTableLookups();
  }

  /** A dot that starts the name is not a suffix (".pdf")... */
  lemma LeadingDotNoSuffix(rest: string)
    requires rest != "" && '.' !in rest && '/' !in rest
    ensures Extension("." + rest) == ""
  {
    var name := "." + rest;
    assert name[1..] == rest;
    FinalComponentOfPiece(name);
    LastIndexOfAt(name, '.', 0);
  }

  /** ... nor is one that ends it ("resume."). */
  lemma TrailingDotNoSuffix(stem: string)
    requires stem != "" && '/' !in stem
    ensures Extension(stem + ".") == ""
  {
    var name := stem + ".";
    assert name[..|stem|] == stem;
    FinalComponentOfPiece(name);
    LastIndexOfAt(name, '.', |stem|);
  }

  /** A registered extension is found in any letter case. */
  lemma RegisterThenGet(table: ProcessorTable, extension: string, kind: ProcessorKind, filename: string)
    requires Extension(filename) == Lower(extension)
    ensures GetProcessor(RegisterProcessor(table, extension, kind), filename)
         == Success(FileProcessor(kind, DefaultMaxFileSize))
  {
    PutGetSame(table, Lower(extension), kind);
  }

  /** A non-empty extension registered without a leading dot never matches:
      every lookup finds what it found before. */
  lemma DotlessNeverMatches(table: ProcessorTable, extension: string, kind: ProcessorKind, filename: string)
    requires extension != "" && extension[0] != '.'
    ensures Get(RegisterProcessor(table, extension, kind), Extension(filename)) == Get(table, Extension(filename))
  {
    var ext := Extension(filename);
    assert Lower(extension)[0] != '.';
    PutGetOther(table, Lower(extension), kind, ext);
  }

  /** Registering the empty extension makes every suffix-less name match. */
  lemma EmptyExtensionMatchesSuffixless(table: ProcessorTable, kind: ProcessorKind, filename: string)
    requires Extension(filename) == ""
    ensures GetProcessor(RegisterProcessor(table, "", kind), filename) == Success(FileProcessor(kind, DefaultMaxFileSize))
  {
    RegisterThenGet(table, "", kind, filename);
  }

  /** A dot-free name such as "README" has no suffix, under any directory. */
  lemma DotlessNameSuffixless(dir: string, name: string)
    requires name != "" && '.' !in name && '/' !in name
    ensures Extension(name) == "" && Extension(dir + "/" + name) == ""
  {
    FinalComponentOfPiece(name);
    LastSlashAfterDir(dir, name);
    assert (dir + "/" + name)[|dir| + 1..] == name;
    assert LastIndexOf(name, '.') == -1;
  }
}
