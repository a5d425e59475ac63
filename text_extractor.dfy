/**
  `TextExtractor`: picks a document reader by file extension and normalises
  extracted text. The readers themselves (pdfplumber, python-docx) are not
  part of this model; `read` stands for them, `None` meaning the library raised.
 */
module TextExtractor {
  import opened Base
  import opened Chars
  import opened Strings
  import opened Normalize

  /** The punctuation `clean_text` keeps besides word characters and whitespace. */
  const ExtractorPunct: set<char> := {'@', '.', ',', '(', ')', '-'}

  /**
    `clean_text`: empty for `None` or "", otherwise whitespace runs collapsed
    to one space, characters outside `[\w\s@.,()-]` dropped, ends trimmed.
   */
  function CleanText(text: Option<string>): (r: string)
    ensures text == None || text == Some("") ==> r == ""
    ensures text.Some? ==> |r| <= |text.value|
    ensures forall c :: c in r ==> IsWordChar(c) || c == ' ' || c in ExtractorPunct
    ensures ':' !in r && '/' !in r
    ensures forall c :: c in r ==> IsSpace(c) ==> c == ' '
    ensures r == [] || (r[0] != ' ' && r[|r| - 1] != ' ')
    ensures text.Some? ==> NonSpace(r) == KeepOnly(NonSpace(text.value), ExtractorPunct)
  {
    match text
    case None => ""
    case Some(t) =>
      CleanWithShape(t, ExtractorPunct);
      ExtractorCleanDropsColonSlash(t);
      CleanWith(t, ExtractorPunct)
  }

  /** Neither ':' nor '/' survives the extractor's cleaning. */
  lemma ExtractorCleanDropsColonSlash(t: string)
    ensures ':' !in CleanWith(t, ExtractorPunct) && '/' !in CleanWith(t, ExtractorPunct)
  {
    CleanWithExcludes(t, ExtractorPunct, ':');
    CleanWithExcludes(t, ExtractorPunct, '/');
  }

  /** The reader `extract_text` dispatches to: `.pdf`, then `.docx`, otherwise none. */
  function ExtractorFormat(path: string): (f: Option<DocFormat>)
    ensures f != Some(Txt)
  {
    if EndsWith(path, ".pdf") then Some(Pdf)
    else if EndsWith(path, ".docx") then Some(Docx)
    else None
  }

  /** `extract_text`: the chosen reader's text, `None` for an unsupported extension. */
  function ExtractText(path: string, read: DocFormat -> Option<string>): (r: Option<string>)
  {
    match ExtractorFormat(path)
    case Some(f) => read(f)
    case None => None
  }

  /**
    The dispatch in full: a `.pdf` path is read as PDF, a `.docx` path as
    DOCX, and every other path, `.txt` included, yields `None` without
    calling a reader.
   */
  lemma ExtractTextDispatch(path: string, read: DocFormat -> Option<string>)
    ensures EndsWith(path, ".pdf") ==> ExtractText(path, read) == read(Pdf)
    ensures EndsWith(path, ".docx") ==> ExtractText(path, read) == read(Docx)
    ensures !EndsWith(path, ".pdf") && !EndsWith(path, ".docx") ==> ExtractText(path, read) == None
    ensures EndsWith(path, ".txt") ==> ExtractText(path, read) == None
  {
    if EndsWith(path, ".docx") {
      assert path[|path| - 1] == 'x';
    }
    if EndsWith(path, ".txt") {
      assert path[|path| - 1] == 't';
      assert path[|path| - 2] == 'x';
    }
  }
}
