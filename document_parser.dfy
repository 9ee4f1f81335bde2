/**
 * `load_document`: pick one of four format parsers by the file's extension,
 * as `os.path.splitext` (POSIX) computes it, or raise `ValueError`. The PDF,
 * DOCX and TXT parsers and the CSV reader are oracles given as parameters.
 */
module DocumentParser {
  import opened Wrappers
  import opened Text
  import CsvParser

  datatype Format = Pdf | Docx | Txt | Csv

  /** `PARSER_MAPPING`: exactly these four extensions, compared case-sensitively. */
  const ParserMapping: map<string, Format> :=
    map[".pdf" := Pdf, ".docx" := Docx, ".txt" := Txt, ".csv" := Csv]

  /** The parser functions: the three thin library wrappers and the CSV reader. */
  datatype Parsers = Parsers(
    parsePdf: string -> string,
    parseDocx: string -> string,
    parseTxt: string -> string,
    readCsv: string -> Option<CsvParser.Frame>)

  /** Running the parser `PARSER_MAPPING` names on the file. */
  function Parse(parsers: Parsers, format: Format, filePath: string): string {
    match format
    case Pdf => parsers.parsePdf(filePath)
    case Docx => parsers.parseDocx(filePath)
    case Txt => parsers.parseTxt(filePath)
    case Csv => CsvParser.CsvText(parsers.readCsv(filePath))
  }

  /** The `ValueError` raised for an extension outside the mapping. */
  datatype LoadError = UnsupportedFileType(extension: string)

  function ErrorMessage(e: LoadError): string {
    "Unsupported file type: " + e.extension
  }

  /** `os.path.basename`: what follows the last '/'. */
  function Basename(p: string): (r: string)
    ensures |r| <= |p| && r == p[|p| - |r|..]
    ensures '/' !in r
    ensures |r| < |p| ==> p[|p| - |r| - 1] == '/'
  {
    p[LastIndexOf(p, '/') + 1..]
  }

  /** Some character of `p[lo..hi]` is not a dot (the leading-dots loop of splitext). */
  predicate NonDotBetween(p: string, lo: nat, hi: nat)
    requires lo <= hi <= |p|
    decreases hi - lo
  {
    lo < hi && (p[lo] != '.' || NonDotBetween(p, lo + 1, hi))
  }

  lemma {:induction false} NonDotBetweenMeans(p: string, lo: nat, hi: nat)
    requires lo <= hi <= |p|
    ensures NonDotBetween(p, lo, hi) <==> exists k :: lo <= k < hi && p[k] != '.'
    decreases hi - lo
  {
    if lo < hi {
      NonDotBetweenMeans(p, lo + 1, hi);
    }
  }

  /** `os.path.splitext(p)`: (root, extension). */
  function SplitExt(p: string): (r: (string, string))
    ensures r.0 + r.1 == p
    ensures r.1 == [] || (r.1[0] == '.' && '.' !in r.1[1..] && '/' !in r.1)
  {
    var sepIndex := LastIndexOf(p, '/');
    var dotIndex := LastIndexOf(p, '.');
    if dotIndex > sepIndex && NonDotBetween(p, sepIndex + 1, dotIndex) then
      (p[..dotIndex], p[dotIndex..])
    else
      (p, "")
  }

  /**
   * The final path component holds a dot with a character other than a dot
   * somewhere before it.
   */
  ghost predicate HasExtension(p: string) {
    exists k, d :: 0 <= k < d < |p| && p[k] != '.' && p[d] == '.' && '/' !in p[k..]
  }

  /**
   * The extension is non-empty exactly when the final component has a dot
   * after some non-dot character, and it is then the suffix from the last dot.
   */
  lemma ExtensionMeans(p: string)
    ensures SplitExt(p).1 != [] <==> HasExtension(p)
    ensures SplitExt(p).1 != [] ==> SplitExt(p).1 == p[LastIndexOf(p, '.')..]
  {
    var sepIndex := LastIndexOf(p, '/');
    var dotIndex := LastIndexOf(p, '.');
    if dotIndex > sepIndex {
      NonDotBetweenMeans(p, sepIndex + 1, dotIndex);
    }
    if SplitExt(p).1 != [] {
      var k :| sepIndex + 1 <= k < dotIndex && p[k] != '.';
      assert '/' !in p[k..] by {
        forall m | 0 <= m < |p[k..]| ensures p[k..][m] != '/' {
          assert p[k..][m] == p[k + m];
        }
      }
      assert 0 <= k < dotIndex < |p| && p[k] != '.' && p[dotIndex] == '.';
    }
    if HasExtension(p) {
      var k, d :| 0 <= k < d < |p| && p[k] != '.' && p[d] == '.' && '/' !in p[k..];
      assert sepIndex + 1 <= k < dotIndex;
    }
  }

  /** `load_document(file_path)`. */
  function LoadDocument(filePath: string, parsers: Parsers): (r: Result<string, LoadError>)
    ensures r.Failure? <==> SplitExt(filePath).1 !in {".pdf", ".docx", ".txt", ".csv"}
    ensures r.Failure? ==> r.error == UnsupportedFileType(SplitExt(filePath).1)
  {
    var (_, extension) := SplitExt(filePath);
    if extension !in ParserMapping then
      Failure(UnsupportedFileType(extension))
    else
      Success(Parse(parsers, ParserMapping[extension], filePath))
  }

  /**
   * A file is accepted exactly when its final component has an extension and
   * that extension, from the last dot on, is one of the four.
   */
  lemma LoadAcceptsExactly(filePath: string, parsers: Parsers)
    ensures LoadDocument(filePath, parsers).Success? <==>
      HasExtension(filePath) && filePath[LastIndexOf(filePath, '.')..] in ParserMapping
  {
    ExtensionMeans(filePath);
  }

  /** A rejected file is rejected before any parser runs: the parsers do not matter. */
  lemma RejectionIgnoresParsers(filePath: string, parsers: Parsers, others: Parsers)
    requires LoadDocument(filePath, parsers).Failure?
    ensures LoadDocument(filePath, others) == LoadDocument(filePath, parsers)
  {
  }

  /** An accepted file yields the output of the mapped parser, unchanged. */
  lemma AcceptedReturnsParserOutput(filePath: string, parsers: Parsers)
    requires SplitExt(filePath).1 in ParserMapping
    ensures SplitExt(filePath).1 == ".pdf" ==> LoadDocument(filePath, parsers) == Success(parsers.parsePdf(filePath))
    ensures SplitExt(filePath).1 == ".docx" ==> LoadDocument(filePath, parsers) == Success(parsers.parseDocx(filePath))
    ensures SplitExt(filePath).1 == ".txt" ==> LoadDocument(filePath, parsers) == Success(parsers.parseTxt(filePath))
    ensures SplitExt(filePath).1 == ".csv" ==>
      LoadDocument(filePath, parsers) == Success(CsvParser.CsvText(parsers.readCsv(filePath)))
  {
  }

  /**
   * A final component made of leading dots and a dot-free rest (".txt",
   * "..txt", "uploads/.csv") has no extension, so it is rejected.
   */
  lemma LeadingDotsHaveNoExtension(dir: string, dots: string, rest: string, parsers: Parsers)
    requires dir == [] || dir[|dir| - 1] == '/'
    requires forall k :: 0 <= k < |dots| ==> dots[k] == '.'
    requires '.' !in rest && '/' !in rest
    ensures SplitExt(dir + dots + rest).1 == []
    ensures LoadDocument(dir + dots + rest, parsers) == Failure(UnsupportedFileType(""))
  {
    var p := dir + dots + rest;
    assert forall m :: |dir| <= m < |dir| + |dots| ==> p[m] == dots[m - |dir|];
    assert forall m :: |dir| + |dots| <= m < |p| ==> p[m] == rest[m - |dir| - |dots|];
    forall k | 0 <= k < |dir| ensures '/' in p[k..] {
      assert p[k..][|dir| - 1 - k] == dir[|dir| - 1];
    }
    ExtensionMeans(p);
  }

  /** ASCII lower-casing of one character. */
  function AsciiLower(c: char): char {
    if 'A' <= c <= 'Z' then (c as int + 32) as char else c
  }

  /** ASCII lower-casing of a text, character by character. */
  function Lower(s: string): (r: string)
    ensures |r| == |s| && forall k :: 0 <= k < |s| ==> r[k] == AsciiLower(s[k])
  {
    seq(|s|, k requires 0 <= k < |s| => AsciiLower(s[k]))
  }

  /** The four supported extensions are already lower case. */
  lemma SupportedAreLowerCase(m: string)
    ensures m in ParserMapping ==> Lower(m) == m
  {
    if m in ParserMapping {
      assert m == ".pdf" || m == ".docx" || m == ".txt" || m == ".csv";
      assert Lower(m) == m;
    }
  }

  /**
   * Extensions are compared case-sensitively: an extension that lower-cases
   * to a supported one without being it (".PDF", ".Docx", ".tXt") is rejected.
   */
  lemma UpperCaseExtensionRejected(filePath: string, parsers: Parsers)
    requires Lower(SplitExt(filePath).1) in ParserMapping && SplitExt(filePath).1 != Lower(SplitExt(filePath).1)
    ensures LoadDocument(filePath, parsers) == Failure(UnsupportedFileType(SplitExt(filePath).1))
  {
    SupportedAreLowerCase(SplitExt(filePath).1);
  }
}
