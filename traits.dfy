/**
 * Choosing a processor for a file (src/traits/mod.rs). The default factory looks
 * at the top-level MIME type guessed from the path, then, for `application`
 * types, at the lower-cased extension; the test factory looks only at the
 * extension and remembers the name of the processor it chose last.
 */
module Traits {
  import opened Wrappers
  import opened Paths

  /** The top-level part of a guessed MIME type. */
  datatype MimeTop = ImageType | VideoType | TextType | ApplicationType | OtherType(name: string)

  datatype ProcessorKind = ImageProcessor | VideoProcessor | DocumentProcessor | CompressedFileProcessor | GenericProcessor

  /** The extensions the `application` branch hands to the document processor. */
  const ApplicationDocuments: set<string> := {"pdf", "doc", "docx", "ppt", "pptx", "xlsx", "xls", "json", "yml"}

  /** The extensions the `application` branch hands to the compressed-file processor. */
  const Archives: set<string> := {"zip", "tar", "rar", "7z"}

  /** `first_or_octet_stream`: when nothing is guessed, the type is `application/octet-stream`. */
  function TopOrOctetStream(guess: Option<MimeTop>): MimeTop {
    guess.GetOr(ApplicationType)
  }

  /** `DefaultProcessorFactory::create_processor`, given the MIME guess for the path. */
  function CreateProcessor(guess: Option<MimeTop>, path: Path): ProcessorKind {
    var extension := LowerExtension(path);
    match TopOrOctetStream(guess)
    case ImageType => ImageProcessor
    case VideoType => VideoProcessor
    case TextType => DocumentProcessor
    case ApplicationType =>
      if extension in ApplicationDocuments then DocumentProcessor
      else if extension in Archives then CompressedFileProcessor
      else GenericProcessor
    case OtherType(_) => GenericProcessor
  }

  /**
   * The dispatch, one processor at a time and in both directions: images,
   * videos and text by their MIME type alone; documents and archives among
   * `application` types by extension; everything else to the generic processor.
   */
  lemma Classification(guess: Option<MimeTop>, path: Path)
    ensures var top := TopOrOctetStream(guess); var extension := LowerExtension(path);
      && (CreateProcessor(guess, path) == ImageProcessor <==> top == ImageType)
      && (CreateProcessor(guess, path) == VideoProcessor <==> top == VideoType)
      && (CreateProcessor(guess, path) == DocumentProcessor <==>
            top == TextType || (top == ApplicationType && extension in ApplicationDocuments))
      && (CreateProcessor(guess, path) == CompressedFileProcessor <==>
            top == ApplicationType && extension in Archives)
      && (CreateProcessor(guess, path) == GenericProcessor <==>
            top.OtherType? || (top == ApplicationType && extension !in ApplicationDocuments && extension !in Archives))
  {
    var extension := LowerExtension(path);
    if extension in Archives {
      ArchiveIsNoDocument(extension);
    }
  }

  lemma ArchiveIsNoDocument(extension: string)
    requires extension in Archives
    ensures extension !in ApplicationDocuments
  {
  }

  /** The two extension sets share nothing, so the order of the two arms does not matter. */
  lemma ExtensionSetsDisjoint()
    ensures ApplicationDocuments * Archives == {}
  {
  }

  /** An unguessable file is treated as `application`: generic unless its extension is listed. */
  lemma UnguessedIsApplication(path: Path)
    ensures CreateProcessor(None, path) == CreateProcessor(Some(ApplicationType), path)
    ensures LowerExtension(path) !in ApplicationDocuments + Archives ==> CreateProcessor(None, path) == GenericProcessor
  {
  }

  /** Matching ignores case: paths whose extensions lower-case alike get the same processor. */
  lemma CaseInsensitive(guess: Option<MimeTop>, p: Path, q: Path)
    requires LowerExtension(p) == LowerExtension(q)
    ensures CreateProcessor(guess, p) == CreateProcessor(guess, q)
  {
  }

  /**
   * As written, YAML, CSV, HTML and plain-text files typed `application` go to the
   * generic processor although the document processor has folders for them.
   */
  lemma ApplicationOmissions(path: Path)
    requires LowerExtension(path) in {"yaml", "csv", "html", "txt"}
    ensures CreateProcessor(Some(ApplicationType), path) == GenericProcessor
  {
  }

  // ---------------------------------------------------------------------------
  // The test factory

  /** The choice `TestProcessorFactory` makes, by lower-cased extension only. */
  function TestChoice(path: Path): ProcessorKind {
    var extension := LowerExtension(path);
    if extension == "jpg" || extension == "png" then ImageProcessor
    else if extension == "docx" || extension == "txt" then DocumentProcessor
    else GenericProcessor
  }

  /** The name the test factory records for its choice. */
  function TestName(kind: ProcessorKind): string {
    match kind
    case ImageProcessor => "ImageProcessor"
    case DocumentProcessor => "DocumentProcessor"
    case _ => "UnknownProcessor"
  }

  class TestProcessorFactory {
    var lastProcessorType: Option<string>

    constructor ()
      ensures lastProcessorType == None
    {
      lastProcessorType := None;
    }

    /** `create_processor`: choose by extension and record the choice's name. */
    method CreateProcessor(path: Path) returns (kind: ProcessorKind)
      modifies this
      ensures kind == TestChoice(path)
      ensures lastProcessorType == Some(TestName(kind))
    {
      var extension := LowerExtension(path);
      if extension == "jpg" || extension == "png" {
        lastProcessorType := Some("ImageProcessor");
        kind := ImageProcessor;
      } else if extension == "docx" || extension == "txt" {
        lastProcessorType := Some("DocumentProcessor");
        kind := DocumentProcessor;
      } else {
        lastProcessorType := Some("UnknownProcessor");
        kind := GenericProcessor;
      }
    }
  }

  /** The test factory's record names the processor it returned, and no two choices share a name. */
  lemma TestNamesDistinct(a: ProcessorKind, b: ProcessorKind)
    requires a in {ImageProcessor, DocumentProcessor, GenericProcessor}
    requires b in {ImageProcessor, DocumentProcessor, GenericProcessor}
    ensures TestName(a) == TestName(b) <==> a == b
  {
  }

  /**
   * The selection the source's test makes, for any plain stem (the test uses
   * "test"): a .docx file, then a .png file; the record follows the last call.
   */
  method ProcessorSelection(stem: string) returns (afterDocument: Option<string>, afterImage: Option<string>)
    requires |stem| > 0 && '.' !in stem
    ensures afterDocument == Some("DocumentProcessor")
    ensures afterImage == Some("ImageProcessor")
  {
    var document, image := ["source", stem + "." + "docx"], ["source", stem + "." + "png"];
    ChoiceByExtension(stem, "docx");
    ChoiceByExtension(stem, "png");
    var factory := new TestProcessorFactory();
    var first := factory.CreateProcessor(document);
    afterDocument := factory.lastProcessorType;
    var second := factory.CreateProcessor(image);
    afterImage := factory.lastProcessorType;
  }

  /** The test factory's choice for a sample file named after its extension. */
  lemma ChoiceByExtension(stem: string, ext: string)
    requires |stem| > 0 && '.' !in stem && ext in {"docx", "png"}
    ensures TestChoice(["source", stem + "." + ext]) == if ext == "png" then ImageProcessor else DocumentProcessor
  {
    SampleExtensions(stem, ext);
  }

  /** A lower-case extension after a plain stem is what the factories match on. */
  lemma SampleExtensions(stem: string, ext: string)
    requires |stem| > 0 && '.' !in stem && '.' !in ext
    requires forall i :: 0 <= i < |ext| ==> !('A' <= ext[i] <= 'Z')
    ensures LowerExtension(["source", stem + "." + ext]) == ext
  {
    SingleDotExtension(["source"], stem, ext);
    assert ["source"] + [stem + "." + ext] == ["source", stem + "." + ext];
    LowerPlain(ext);
  }

  lemma LowerPlain(s: string)
    requires forall i :: 0 <= i < |s| ==> !('A' <= s[i] <= 'Z')
    ensures Lower(s) == s
  {
  }
}
