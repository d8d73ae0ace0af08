/**
 * The document service's text pipeline: the cache key of an upload, the
 * file type taken from its name, the extractor chosen for that type, the
 * text of a PowerPoint presentation gathered slide by slide and note by
 * note, the text handed to the splitter, and the storage of the resulting
 * chunks in batches of ten. The parsers, the cache, the splitter and the
 * vector store are passed in.
 */
module DocumentService {
  import opened Wrappers
  import opened Strings
  import opened DocumentFormatter

  // ---------------------------------------------------------------------
  // cache key

  /** `getCacheKey`: `doc:` and the source, then `:` and the page number
      when the page number is truthy. */
  function CacheKey(source: string, pageNumber: Option<int>): (k: string)
    ensures StartsWith(k, "doc:" + source)
    ensures pageNumber.None? || pageNumber.value == 0 ==> k == "doc:" + source
    ensures pageNumber.Some? && pageNumber.value != 0 ==> |k| > |"doc:" + source|
  {
    "doc:" + source + (if pageNumber.Some? && pageNumber.value != 0 then ":" + IntToString(pageNumber.value) else "")
  }

  /** Page 0 is falsy, so it shares the key of the whole document. */
  lemma PageZeroIsWholeDocument(source: string)
    ensures CacheKey(source, Some(0)) == CacheKey(source, None)
  {
  }

  /** A source whose name ends in `:` and a number shares its key with a
      page of the shorter source. */
  lemma CacheKeysCollide()
    ensures CacheKey("a:1", None) == CacheKey("a", Some(1))
  {
    assert IntToString(1) == "1";
  }

  // ---------------------------------------------------------------------
  // file type

  predicate IsDot(c: char) { c == '.' }

  function Last<T>(xs: seq<T>): T
    requires xs != []
  {
    xs[|xs| - 1]
  }

  /** `split(".").pop()?.toLowerCase() || ""`: the lowercased text after the
      last dot, or the whole lowercased name when it has no dot. */
  function FileType(name: string): (t: string)
    ensures |t| <= |name| && '.' !in t
  {
    var pieces := SplitWhere(name, IsDot);
    SplitWhereLast(name, IsDot);
    ToLower(Last(pieces))
  }

  /** The last piece of a split is the longest suffix free of separators. */
  lemma {:induction false} SplitWhereLast(s: string, isSep: char -> bool)
    ensures var p := Last(SplitWhere(s, isSep));
            |p| <= |s| && p == s[|s| - |p|..] &&
            (forall i :: 0 <= i < |p| ==> !isSep(p[i])) &&
            (|p| < |s| ==> isSep(s[|s| - |p| - 1])) &&
            (|SplitWhere(s, isSep)| == 1 ==> p == s) &&
            (|SplitWhere(s, isSep)| > 1 ==> |p| < |s|)
  {
    if s != [] {
      SplitWhereLast(s[1..], isSep);
      var rest := SplitWhere(s[1..], isSep);
      var pieces := SplitWhere(s, isSep);
      if isSep(s[0]) {
        assert pieces == [""] + rest;
        assert Last(pieces) == Last(rest);
      } else if |rest| == 1 {
        assert pieces == [[s[0]] + rest[0]];
        assert [s[0]] + s[1..] == s;
      } else {
        assert pieces == [[s[0]] + rest[0]] + rest[1..];
        assert Last(pieces) == Last(rest);
      }
    }
  }

  /** A name with an extension has that extension, lowercased, as its type. */
  lemma FileTypeOfExtension(stem: string, ext: string)
    requires '.' !in ext
    ensures FileType(stem + "." + ext) == ToLower(ext)
  {
    var name := stem + "." + ext;
    SplitWhereLast(name, IsDot);
    var p := Last(SplitWhere(name, IsDot));
    assert name[|stem|] == '.';
    assert name[|stem| + 1..] == ext;
    assert |p| == |ext|;
    assert p == ext;
  }

  /** A name without a dot is its own type, lowercased. */
  lemma FileTypeWithoutDot(name: string)
    requires '.' !in name
    ensures FileType(name) == ToLower(name)
  {
    SplitWhereWhole(name, IsDot);
  }

  // ---------------------------------------------------------------------
  // choosing the extractor

  /** The extractor used for a file type. */
  datatype Extractor = PdfText | WordText | WorkbookText | PresentationText | Utf8Text

  const UNSUPPORTED := "Unsupported file type: "

  /** The chain of file-type tests; any other type is refused. */
  function ExtractorFor(fileType: string): (r: Result<Extractor>)
    ensures r.Failure? ==> r.error == UNSUPPORTED + fileType
  {
    if fileType == "pdf" then Success(PdfText)
    else if fileType in ["doc", "docx"] then Success(WordText)
    else if fileType in ["xls", "xlsx"] then Success(WorkbookText)
    else if fileType in ["ppt", "pptx"] then Success(PresentationText)
    else if fileType == "txt" then Success(Utf8Text)
    else Failure(UNSUPPORTED + fileType)
  }

  const SUPPORTED: seq<string> := ["pdf", "doc", "docx", "xls", "xlsx", "ppt", "pptx", "txt"]

  /** Exactly eight lowercase types have an extractor. */
  lemma SupportedTypes(fileType: string)
    ensures ExtractorFor(fileType).Success? <==> fileType in SUPPORTED
  {
  }

  /** Upper-case extensions are accepted, since the type is lowercased. */
  lemma UpperCaseExtension(stem: string)
    ensures ExtractorFor(FileType(stem + ".PDF")) == Success(PdfText)
  {
    FileTypeOfExtension(stem, "PDF");
    assert stem + "." + "PDF" == stem + ".PDF";
    assert ToLower("PDF") == "pdf";
  }

  // ---------------------------------------------------------------------
  // the text of one slide

  /** `replace(/\s+/g, " ")`: each run of white space becomes one space. */
  function Collapse(s: string): (r: string)
    ensures |r| <= |s|
    decreases |s|
  {
    if s == [] then []
    else if IsSpace(s[0]) then " " + Collapse(DropWhile(s[1..], IsSpace))
    else [s[0]] + Collapse(s[1..])
  }

  /** The collapsed text is single-spaced, and starts and ends with white
      space exactly when the original does. */
  lemma CollapseShape(s: string)
    ensures var r := Collapse(s);
            (r == [] <==> s == []) &&
            (s != [] ==> (IsSpace(r[0]) <==> IsSpace(s[0]))) &&
            (s != [] ==> (IsSpace(r[|r| - 1]) <==> IsSpace(s[|s| - 1]))) &&
            SingleSpaced(r)
  {
    CollapseEnds(s);
    CollapseSpacing(s);
  }

  lemma {:induction false} CollapseEnds(s: string)
    ensures var r := Collapse(s);
            (r == [] <==> s == []) &&
            (s != [] ==> (IsSpace(r[0]) <==> IsSpace(s[0]))) &&
            (s != [] ==> (IsSpace(r[|r| - 1]) <==> IsSpace(s[|s| - 1])))
    decreases |s|
  {
    if s != [] {
      var r := Collapse(s);
      if IsSpace(s[0]) {
        var d := DropWhile(s[1..], IsSpace);
        CollapseEnds(d);
        var c := Collapse(d);
        assert r == " " + c;
        if d == [] {
          assert AllSpace(s[1..]);
          assert r == " ";
        } else {
          assert s[|s| - 1] == d[|d| - 1];
          assert r[|r| - 1] == c[|c| - 1];
        }
      } else {
        var t := s[1..];
        CollapseEnds(t);
        var c := Collapse(t);
        assert r == [s[0]] + c;
        if t != [] {
          assert s[|s| - 1] == t[|t| - 1];
          assert r[|r| - 1] == c[|c| - 1];
        }
      }
    }
  }

  lemma {:induction false} CollapseSpacing(s: string)
    ensures SingleSpaced(Collapse(s))
    decreases |s|
  {
    if s != [] {
      if IsSpace(s[0]) {
        var d := DropWhile(s[1..], IsSpace);
        CollapseSpacing(d);
        CollapseEnds(d);
        SingleSpacedCons(' ', Collapse(d));
      } else {
        CollapseSpacing(s[1..]);
        SingleSpacedCons(s[0], Collapse(s[1..]));
      }
    }
  }

  lemma SingleSpacedCons(x: char, c: string)
    requires SingleSpaced(c)
    requires IsSpace(x) ==> x == ' ' && (c == [] || !IsSpace(c[0]))
    ensures SingleSpaced([x] + c)
  {
    var r := [x] + c;
    assert forall i :: 1 <= i < |r| ==> r[i] == c[i - 1];
  }

  /** Every white-space character is a plain space, and no two are adjacent. */
  predicate SingleSpaced(s: string) {
    (forall i :: 0 <= i < |s| && IsSpace(s[i]) ==> s[i] == ' ') &&
    (forall i :: 0 <= i < |s| - 1 && IsSpace(s[i]) ==> !IsSpace(s[i + 1]))
  }

  /** `trim().replace(/\s+/g, " ")`. */
  function Normalize(s: string): string {
    Collapse(Trim(s))
  }

  /** The normalized text has no white space at either end and is single-spaced. */
  lemma NormalizeShape(s: string)
    ensures IsTrimmed(Normalize(s)) && SingleSpaced(Normalize(s))
  {
    CollapseShape(Trim(s));
  }

  /** Collapsing changes nothing in single-spaced text. */
  lemma {:induction false} CollapseSingleSpaced(s: string)
    requires SingleSpaced(s)
    ensures Collapse(s) == s
    decreases |s|
  {
    if s != [] {
      assert SingleSpaced(s[1..]);
      CollapseSingleSpaced(s[1..]);
      if IsSpace(s[0]) {
        assert s[1..] == [] || !IsSpace(s[1..][0]);
        assert DropWhile(s[1..], IsSpace) == s[1..];
      }
      assert [s[0]] + s[1..] == s;
    }
  }

  /** Normalizing twice is normalizing once. */
  lemma NormalizeIdempotent(s: string)
    ensures Normalize(Normalize(s)) == Normalize(s)
  {
    var r := Normalize(s);
    NormalizeShape(s);
    TrimOfTrimmed(r);
    CollapseSingleSpaced(r);
  }

  /** The characters of a string that are not white space, in order. */
  function Visible(s: string): string {
    if s == [] then [] else (if IsSpace(s[0]) then [] else [s[0]]) + Visible(s[1..])
  }

  lemma {:induction false} VisibleAppend(a: string, b: string)
    ensures Visible(a + b) == Visible(a) + Visible(b)
    decreases |a|
  {
    if a != [] {
      assert (a + b)[1..] == a[1..] + b;
      VisibleAppend(a[1..], b);
    } else {
      assert a + b == b;
    }
  }

  lemma {:induction false} VisibleOfSpace(s: string)
    requires AllSpace(s)
    ensures Visible(s) == []
    decreases |s|
  {
    if s != [] {
      VisibleOfSpace(s[1..]);
    }
  }

  lemma {:induction false} VisibleDropWhile(s: string)
    ensures Visible(DropWhile(s, IsSpace)) == Visible(s)
    decreases |s|
  {
    if s != [] && IsSpace(s[0]) {
      VisibleDropWhile(s[1..]);
    }
  }

  lemma {:induction false} VisibleCollapse(s: string)
    ensures Visible(Collapse(s)) == Visible(s)
    decreases |s|
  {
    if s != [] {
      var r := Collapse(s);
      if IsSpace(s[0]) {
        var d := DropWhile(s[1..], IsSpace);
        VisibleCollapse(d);
        VisibleDropWhile(s[1..]);
        assert r[1..] == Collapse(d);
      } else {
        VisibleCollapse(s[1..]);
        assert r[1..] == Collapse(s[1..]);
      }
    }
  }

  /** Normalizing keeps every character that is not white space, in order:
      only the spacing changes. */
  lemma NormalizeKeepsText(s: string)
    ensures Visible(Normalize(s)) == Visible(s)
  {
    VisibleTrim(s);
    VisibleCollapse(Trim(s));
  }

  lemma VisibleTrim(s: string)
    ensures Visible(Trim(s)) == Visible(s)
  {
    var i, j := TrimSlice(s);
    SplitThree(s, i, j);
    VisibleAround(s[..i], s[i..j], s[j..]);
  }

  /** White space around a text adds nothing visible. */
  lemma VisibleAround(a: string, b: string, c: string)
    requires AllSpace(a) && AllSpace(c)
    ensures Visible(a + b + c) == Visible(b)
  {
    VisibleAppend(a + b, c);
    VisibleAppend(a, b);
    VisibleOfSpace(a);
    VisibleOfSpace(c);
  }

  /** The text nodes followed by one space each, as the loop builds it. */
  function SpaceTerminated(nodes: seq<string>): string {
    if nodes == [] then "" else SpaceTerminated(nodes[..|nodes| - 1]) + nodes[|nodes| - 1] + " "
  }

  /** `extractTextFromSlide`: the `a:t` text nodes of a slide, or `None`
      when its XML could not be read, which gives the empty text. */
  function SlideText(nodes: Option<seq<string>>): string {
    if nodes.None? then "" else Normalize(SpaceTerminated(nodes.value))
  }

  method ExtractTextFromSlide(nodes: Option<seq<string>>) returns (text: string)
    ensures text == SlideText(nodes)
  {
    if nodes.None? {
      return "";
    }
    var textNodes := nodes.value;
    text := "";
    for i := 0 to |textNodes|
      invariant text == SpaceTerminated(textNodes[..i])
    {
      assert textNodes[..i + 1][..i] == textNodes[..i];
      text := text + textNodes[i] + " ";
    }
    assert textNodes[..|textNodes|] == textNodes;
    text := Collapse(Trim(text));
  }

  // ---------------------------------------------------------------------
  // the slides and notes of a presentation

  /** The numbered parts of a presentation (`slideN.xml` or
      `notesSlideN.xml`), by N: the text nodes of each. */
  type Parts = map<nat, Option<seq<string>>>

  /** An opened presentation archive. */
  datatype Archive = Archive(slides: Parts, notes: Parts)

  /** The parts 1 to `n` are all present. */
  predicate PresentUpTo(m: Parts, n: nat) {
    forall k :: 1 <= k <= n ==> k in m
  }

  function Range(n: nat): (r: set<nat>)
    ensures |r| == n && forall k :: k in r <==> 1 <= k <= n
  {
    if n == 0 then {} else Range(n - 1) + {n}
  }

  /** Parts 1 to `n` present means at least `n` parts. */
  lemma PresentBound(m: Parts, n: nat)
    requires PresentUpTo(m, n)
    ensures n <= |m.Keys|
  {
    var r := Range(n);
    SubsetSize(r, m.Keys);
  }

  lemma {:induction false} SubsetSize<T>(a: set<T>, b: set<T>)
    requires a <= b
    ensures |a| <= |b|
    decreases |a|
  {
    if a != {} {
      var x :| x in a;
      SubsetSize(a - {x}, b - {x});
    }
  }

  /** The number of parts found by probing 1, 2, ... until one is missing,
      starting the probe at `i`. */
  function RunFrom(m: Parts, i: nat): (n: nat)
    requires 1 <= i && PresentUpTo(m, i - 1)
    ensures i - 1 <= n && PresentUpTo(m, n) && n + 1 !in m
    decreases |m.Keys| + 1 - i
  {
    PresentBound(m, i - 1);
    if i in m then
      PresentBound(m, i);
      RunFrom(m, i + 1)
    else i - 1
  }

  function Run(m: Parts): (n: nat)
    ensures PresentUpTo(m, n) && n + 1 !in m
  {
    RunFrom(m, 1)
  }

  /** `Slide N:` or `Notes N:` on its own line, then the text, then a newline. */
  function Entry(heading: string, n: nat, text: string): string {
    heading + " " + NatToString(n) + ":\n" + text + "\n"
  }

  /** The texts of parts 1 to `n`, in order. */
  function PartTexts(m: Parts, n: nat): (r: seq<string>)
    requires PresentUpTo(m, n)
    ensures |r| == n
  {
    if n == 0 then [] else PartTexts(m, n - 1) + [SlideText(m[n])]
  }

  lemma {:induction false} PartTextAt(m: Parts, n: nat, k: nat)
    requires PresentUpTo(m, n) && 1 <= k <= n
    ensures PartTexts(m, n)[k - 1] == SlideText(m[k])
  {
    var before := PartTexts(m, n - 1);
    assert PartTexts(m, n) == before + [SlideText(m[n])];
    if k < n {
      PartTextAt(m, n - 1, k);
    }
  }

  /** The entries of the texts of parts 1, 2, ..., skipping the empty ones. */
  function Entries(texts: seq<string>, heading: string): (r: seq<string>)
    ensures |r| <= |texts|
  {
    if texts == [] then []
    else
      var n := |texts|;
      Entries(texts[..n - 1], heading) + (if texts[n - 1] != "" then [Entry(heading, n, texts[n - 1])] else [])
  }

  /** The enumeration loop over one kind of part. */
  method CollectEntries(parts: Parts, heading: string) returns (entries: seq<string>, count: nat)
    ensures count == Run(parts)
    ensures entries == Entries(PartTexts(parts, count), heading)
  {
    entries := [];
    var index: nat := 1;
    while index in parts
      invariant 1 <= index && PresentUpTo(parts, index - 1)
      invariant RunFrom(parts, index) == Run(parts)
      invariant entries == Entries(PartTexts(parts, index - 1), heading)
      decreases |parts.Keys| + 1 - index
    {
      PresentBound(parts, index);
      var text := ExtractTextFromSlide(parts[index]);
      assert PartTexts(parts, index)[..index - 1] == PartTexts(parts, index - 1);
      if text != "" {
        entries := entries + [Entry(heading, index, text)];
      }
      index := index + 1;
    }
    count := index - 1;
  }

  const NO_TEXT_IN_PRESENTATION := "No extractable text found in PowerPoint file"
  const PRESENTATION_FAILED := "Failed to process PowerPoint file. For best results, please convert to PDF before uploading."

  function SlideEntries(a: Archive): seq<string> {
    Entries(PartTexts(a.slides, Run(a.slides)), "Slide")
  }

  function NoteEntries(a: Archive): seq<string> {
    Entries(PartTexts(a.notes, Run(a.notes)), "Notes")
  }

  /** The slide entries, then the note entries, separated by blank lines. */
  function PresentationBody(a: Archive): string {
    Trim(Join(SlideEntries(a) + NoteEntries(a), "\n\n"))
  }

  /** The presentation's text, or the single error every failure of that
      branch is turned into; `None` stands for an archive that cannot be
      opened. */
  function PresentationContent(archive: Option<Archive>): (r: Result<string>)
    ensures r.Failure? ==> r.error == PRESENTATION_FAILED
    ensures r.Success? ==> r.value != "" && IsTrimmed(r.value)
  {
    if archive.None? then Failure(PRESENTATION_FAILED)
    else
      var body := PresentationBody(archive.value);
      if body == "" then Failure(PRESENTATION_FAILED) else Success(body)
  }

  /** The PowerPoint branch of `processDocument`. */
  method ReadPresentation(archive: Option<Archive>) returns (r: Result<string>)
    ensures r == PresentationContent(archive)
  {
    if archive.None? {
      return Failure(PRESENTATION_FAILED);
    }
    var slideTexts, _ := CollectEntries(archive.value.slides, "Slide");
    var noteTexts, _ := CollectEntries(archive.value.notes, "Notes");
    var content := Trim(Join(slideTexts + noteTexts, "\n\n"));
    var inner: Result<string> := Success(content);
    if content == "" {
      inner := Failure(NO_TEXT_IN_PRESENTATION);
    }
    if inner.Failure? {
      return Failure(PRESENTATION_FAILED);
    }
    r := inner;
  }

  /** No text exactly when there are no entries. */
  lemma {:induction false} EntriesEmpty(texts: seq<string>, heading: string)
    ensures Entries(texts, heading) == [] <==> forall i :: 0 <= i < |texts| ==> texts[i] == ""
  {
    if texts != [] {
      var n := |texts|;
      EntriesEmpty(texts[..n - 1], heading);
      assert forall i :: 0 <= i < n - 1 ==> texts[..n - 1][i] == texts[i];
    }
  }

  /** Every entry starts with its heading. */
  lemma {:induction false} EntriesHeaded(texts: seq<string>, heading: string)
    ensures forall i :: 0 <= i < |Entries(texts, heading)| ==> StartsWith(Entries(texts, heading)[i], heading)
  {
    if texts != [] {
      var n := |texts|;
      EntriesHeaded(texts[..n - 1], heading);
      EntryStarts(heading, n, texts[n - 1]);
    }
  }

  lemma EntryStarts(heading: string, n: nat, text: string)
    ensures StartsWith(Entry(heading, n, text), heading)
  {
  }

  lemma JoinStart(xs: seq<string>, sep: string)
    requires xs != [] && xs[0] != ""
    ensures Join(xs, sep) != "" && Join(xs, sep)[0] == xs[0][0]
  {
  }

  /** An opened presentation is refused exactly when none of its slides and
      notes has any text. */
  lemma PresentationRefused(a: Archive)
    ensures PresentationContent(Some(a)).Failure? <==> Silent(a.slides) && Silent(a.notes)
  {
    var all := SlideEntries(a) + NoteEntries(a);
    EntriesEmpty(PartTexts(a.slides, Run(a.slides)), "Slide");
    EntriesEmpty(PartTexts(a.notes, Run(a.notes)), "Notes");
    assert SlideEntries(a) == [] <==> Silent(a.slides);
    assert NoteEntries(a) == [] <==> Silent(a.notes);
    if all != [] {
      FirstEntryVisible(a);
      JoinStart(all, "\n\n");
      TrimNonBlank(Join(all, "\n\n"), 0);
      assert PresentationBody(a) != "";
    } else {
      assert SlideEntries(a) == [] && NoteEntries(a) == [];
      assert PresentationBody(a) == "";
    }
  }

  /** None of the parts found has any text. */
  predicate Silent(m: Parts) {
    var texts := PartTexts(m, Run(m));
    forall i :: 0 <= i < |texts| ==> texts[i] == ""
  }

  lemma FirstEntryVisible(a: Archive)
    requires SlideEntries(a) + NoteEntries(a) != []
    ensures var all := SlideEntries(a) + NoteEntries(a); all[0] != "" && !IsSpace(all[0][0])
  {
    EntriesHeaded(PartTexts(a.slides, Run(a.slides)), "Slide");
    EntriesHeaded(PartTexts(a.notes, Run(a.notes)), "Notes");
    var all := SlideEntries(a) + NoteEntries(a);
    if SlideEntries(a) != [] {
      assert all[0] == SlideEntries(a)[0];
      assert all[0][0] == 'S';
    } else {
      assert all[0] == NoteEntries(a)[0];
      assert all[0][0] == 'N';
    }
  }

  // ---------------------------------------------------------------------
  // the content of an upload

  /** The results of the external parsers for one upload: the text of a PDF,
      the raw text of a Word file, the sheets of a workbook as name and CSV,
      the opened presentation, and the UTF-8 text. A failure carries the
      message of the error the parser throws. */
  datatype Sources = Sources(
    pdf: Result<string>, word: Result<string>, sheets: Result<seq<(string, string)>>,
    archive: Option<Archive>, utf8: string)

  /** Each sheet as `Sheet: <name>` on a line and its CSV, separated by blank lines. */
  function WorkbookContent(sheets: seq<(string, string)>): (r: string)
    ensures sheets == [] ==> r == ""
    ensures sheets != [] ==> StartsWith(r, "Sheet: " + sheets[0].0 + "\n")
  {
    var texts := seq(|sheets|, i requires 0 <= i < |sheets| => "Sheet: " + sheets[i].0 + "\n" + sheets[i].1);
    assert sheets != [] ==> StartsWith(texts[0], "Sheet: " + sheets[0].0 + "\n");
    assert sheets != [] ==> StartsWith(Join(texts, "\n\n"), texts[0]);
    Join(texts, "\n\n")
  }

  /** The content extracted for a file type, or the message of the error. */
  function ExtractedContent(fileType: string, src: Sources): (r: Result<string>)
    ensures ExtractorFor(fileType).Failure? ==> r == Failure(UNSUPPORTED + fileType)
    ensures fileType == "txt" ==> r == Success(src.utf8)
    ensures fileType in ["ppt", "pptx"] ==> r == PresentationContent(src.archive)
  {
    match ExtractorFor(fileType)
    case Failure(e) => Failure(e)
    case Success(PdfText) => src.pdf
    case Success(WordText) => src.word
    case Success(WorkbookText) =>
      if src.sheets.Failure? then Failure(src.sheets.error) else Success(WorkbookContent(src.sheets.value))
    case Success(PresentationText) => PresentationContent(src.archive)
    case Success(Utf8Text) => Success(src.utf8)
  }

  // ---------------------------------------------------------------------
  // the text handed to the splitter

  /** The TypeError a template string raises for an object whose own
      `toString` is not callable and whose `valueOf` returns the object. */
  const PRIMITIVE_ERROR := "Cannot convert object to primitive value"

  /** A record parsed from a `toString:` line has an own, non-callable
      `toString` field, which hides `Object.prototype.toString`. */
  predicate HidesToString(fields: Record) {
    exists i :: 0 <= i < |fields| && fields[i].0 == "toString"
  }

  /** Interpolating this section's content into a template string throws. */
  predicate InterpolationThrows(s: FormattedSection) {
    s.content.Obj? && HidesToString(s.content.fields)
  }

  /** One section as written in `processDocument`: its title line, then its
      content interpolated into a template string, so an object becomes
      `[object Object]` (a section whose interpolation throws never gets here). */
  function SectionTextAsWritten(s: FormattedSection): string {
    TitleLine(s) + match s.content {
      case Strs(items) => Join(Bullets(items), "\n")
      case Obj(_) => OBJECT_TEXT
      case Str(t) => t
    }
  }

  /** The splitter's input as written: the TypeError when some section's
      interpolation throws, otherwise the section texts separated by blank
      lines. */
  function DocTextAsWritten(sections: seq<FormattedSection>): Result<string> {
    if exists k :: 0 <= k < |sections| && InterpolationThrows(sections[k]) then Failure(PRIMITIVE_ERROR)
    else Success(Join(seq(|sections|, i requires 0 <= i < |sections| => SectionTextAsWritten(sections[i])), "\n\n"))
  }

  /** As written, the entries of a key-value section never reach the
      splitter: every object without a `toString` field renders the same. */
  lemma ObjectContentLost(title: Option<string>, a: Record, b: Record)
    requires !HidesToString(a) && !HidesToString(b)
    ensures DocTextAsWritten([FormattedSection(KeyValueKind, Obj(a), title)]).Success?
    ensures DocTextAsWritten([FormattedSection(KeyValueKind, Obj(a), title)]) ==
            DocTextAsWritten([FormattedSection(KeyValueKind, Obj(b), title)])
  {
  }

  /** A concrete case: a section holding `Name: Ada` becomes `[object Object]`. */
  lemma NameLost()
    ensures DocTextAsWritten([FormattedSection(KeyValueKind, Obj([("Name", Single("Ada"))]), None)]) == Success(OBJECT_TEXT)
  {
    var s := FormattedSection(KeyValueKind, Obj([("Name", Single("Ada"))]), None);
    assert !InterpolationThrows(s) by {
      assert forall i :: 0 <= i < |s.content.fields| ==> s.content.fields[i].0 == "Name";
      assert "Name" != "toString" by { assert "Name"[0] != "toString"[0]; }
    }
    assert TitleLine(s) == "";
    assert SectionTextAsWritten(s) == OBJECT_TEXT;
    var texts := seq(1, i requires 0 <= i < 1 => SectionTextAsWritten([s][i]));
    assert texts == [OBJECT_TEXT];
  }

  /** As written, a key-value section with a `toString` field makes the whole
      text fail with the TypeError, wherever the section stands. */
  lemma ToStringFieldThrows(sections: seq<FormattedSection>, k: nat, j: nat)
    requires k < |sections| && sections[k].content.Obj?
    requires j < |sections[k].content.fields| && sections[k].content.fields[j].0 == "toString"
    ensures DocTextAsWritten(sections) == Failure(PRIMITIVE_ERROR)
  {
    assert InterpolationThrows(sections[k]);
  }

  /** One section, its content rendered as `formattedDocumentToText` renders it. */
  function SectionText(s: FormattedSection, stringify: Record -> string): string {
    TitleLine(s) + RenderContent(s, stringify)
  }

  /** The splitter's input: the sections' texts separated by blank lines. */
  function DocText(sections: seq<FormattedSection>, stringify: Record -> string): string {
    Join(seq(|sections|, i requires 0 <= i < |sections| => SectionText(sections[i], stringify)), "\n\n")
  }

  /** Where no section holds an object, the corrected text is the text as written. */
  lemma DocTextAgrees(sections: seq<FormattedSection>, stringify: Record -> string)
    requires forall i :: 0 <= i < |sections| ==> !sections[i].content.Obj?
    ensures DocTextAsWritten(sections) == Success(DocText(sections, stringify))
  {
    var a := seq(|sections|, i requires 0 <= i < |sections| => SectionText(sections[i], stringify));
    var b := seq(|sections|, i requires 0 <= i < |sections| => SectionTextAsWritten(sections[i]));
    assert a == b;
  }

  /** Every key of a key-value object is rendered in bold, followed by a colon. */
  lemma {:induction false} FieldKeyRendered(fields: Record, j: nat)
    requires j < |fields|
    ensures Contains(RenderFields(fields), "**" + fields[j].0 + "**:\n")
    decreases |fields|
  {
    var n := |fields| - 1;
    var t := "**" + fields[j].0 + "**:\n";
    var init := RenderFields(fields[..n]);
    var last := FieldText(fields[n].0, fields[n].1);
    if j == n {
      assert last[..|t|] == t;
      ContainsAt(last, t, 0);
      ContainsSuffix(init, last, t);
    } else {
      assert fields[..n][j] == fields[j];
      FieldKeyRendered(fields[..n], j);
      ContainsPrefix(init, last, t);
    }
  }

  /** With the correction, every key of every key-value section reaches the
      splitter. */
  lemma FieldKeyInDocText(sections: seq<FormattedSection>, stringify: Record -> string, k: nat, j: nat)
    requires k < |sections| && sections[k].kind == KeyValueKind && sections[k].content.Obj?
    requires j < |sections[k].content.fields|
    ensures Contains(DocText(sections, stringify), "**" + sections[k].content.fields[j].0 + "**:\n")
  {
    var s := sections[k];
    var t := "**" + s.content.fields[j].0 + "**:\n";
    FieldKeyRendered(s.content.fields, j);
    ContainsSuffix(TitleLine(s), RenderContent(s, stringify), t);
    var texts := seq(|sections|, i requires 0 <= i < |sections| => SectionText(sections[i], stringify));
    JoinContains(texts, "\n\n", k, t);
  }

  // ---------------------------------------------------------------------
  // processDocument

  const DOCUMENT_FAILED := "Failed to process document: "

  /** What `processDocument` gives back: the cached chunks, or the formatted
      document with the splitter's input and chunk header and the two cache
      keys written. */
  datatype Processed =
    | FromCache(json: string)
    | Prepared(doc: FormattedDocument, text: string, header: string, documentKey: string, chunksKey: string)

  /** `processDocument` up to the splitter. `cached` is what the cache holds
      under the upload's key. */
  method ProcessDocument(name: string, cached: Option<string>, src: Sources)
    returns (r: Result<Processed>)
    ensures cached.Some? && cached.value != "" ==> r == Success(FromCache(cached.value))
    ensures (cached.None? || cached.value == "") ==>
              var content := ExtractedContent(FileType(name), src);
              (content.Failure? ==> r == Failure(DOCUMENT_FAILED + content.error)) &&
              (content.Success? ==>
                 var text := DocTextAsWritten(SectionsOf(Paragraphs(content.value)));
                 (text.Failure? ==> r == Failure(DOCUMENT_FAILED + text.error)) &&
                 (text.Success? ==>
                    r.Success? && r.value.Prepared? &&
                    r.value.doc.sections == SectionsOf(Paragraphs(content.value)) &&
                    r.value.text == text.value))
    ensures r.Failure? ==> StartsWith(r.error, DOCUMENT_FAILED)
    ensures r.Success? && r.value.Prepared? ==>
              r.value.chunksKey == CacheKey(name, None) &&
              r.value.documentKey == "doc:" + r.value.doc.id &&
              (name != "" ==> r.value.documentKey == r.value.chunksKey)
  {
    var fileType := FileType(name);
    var cacheKey := CacheKey(name, None);
    if cached.Some? && cached.value != "" {
      return Success(FromCache(cached.value));
    }
    var content: Result<string>;
    var extractor := ExtractorFor(fileType);
    match extractor {
      case Failure(e) =>
        content := Failure(e);
      case Success(PresentationText) =>
        content := ReadPresentation(src.archive);
      case Success(_) =>
        content := ExtractedContent(fileType, src);
    }
    if content.Failure? {
      return Failure(DOCUMENT_FAILED + content.error);
    }
    var formattedDoc := FormatDocumentContent(Metadata(Some(name), None, None, Some(fileType)), content.value);
    var docText := DocTextAsWritten(formattedDoc.sections);
    if docText.Failure? {
      return Failure(DOCUMENT_FAILED + docText.error);
    }
    var header := "DOCUMENT: " + (if formattedDoc.title != "" then formattedDoc.title else name) + "\n\n";
    r := Success(Prepared(formattedDoc, docText.value, header, "doc:" + formattedDoc.id, cacheKey));
  }

  // ---------------------------------------------------------------------
  // storeDocumentVectors

  const BATCH_SIZE := 10
  const STORE_FAILED := "Failed to store document vectors: "
  const NO_DOCUMENTS := "No documents provided for vector storage"

  /** The consecutive batches of at most ten documents. */
  function Batches<D>(xs: seq<D>): seq<seq<D>>
    decreases |xs|
  {
    if xs == [] then [] else [xs[..Min(BATCH_SIZE, |xs|)]] + Batches(xs[Min(BATCH_SIZE, |xs|)..])
  }

  function Flatten<D>(xss: seq<seq<D>>): seq<D> {
    if xss == [] then [] else xss[0] + Flatten(xss[1..])
  }

  /** The batches hold every document once, in order. */
  lemma {:induction false} BatchesPartition<D>(xs: seq<D>)
    ensures Flatten(Batches(xs)) == xs
    decreases |xs|
  {
    if xs != [] {
      var m := Min(BATCH_SIZE, |xs|);
      BatchesPartition(xs[m..]);
      assert ([xs[..m]] + Batches(xs[m..]))[1..] == Batches(xs[m..]);
      assert xs[..m] + xs[m..] == xs;
    }
  }

  /** Each batch holds one to ten documents, and there are `ceil(n / 10)` of them. */
  lemma {:induction false} BatchesSized<D>(xs: seq<D>)
    ensures |Batches(xs)| == (|xs| + BATCH_SIZE - 1) / BATCH_SIZE
    ensures forall i :: 0 <= i < |Batches(xs)| ==> 1 <= |Batches(xs)[i]| <= BATCH_SIZE
    decreases |xs|
  {
    if xs != [] {
      var m := Min(BATCH_SIZE, |xs|);
      BatchesSized(xs[m..]);
      var b := Batches(xs);
      assert b == [xs[..m]] + Batches(xs[m..]);
      forall i | 1 <= i < |b|
        ensures 1 <= |b[i]| <= BATCH_SIZE
      {
        assert b[i] == Batches(xs[m..])[i - 1];
      }
    }
  }

  /** The documents from index `i` on, none once `i` is past the end. */
  function From<D>(xs: seq<D>, i: nat): seq<D> {
    if i <= |xs| then xs[i..] else []
  }

  /** The batches from index `i` on: the slice of up to ten at `i`, then
      the batches from ten further on. */
  lemma BatchAt<D>(xs: seq<D>, i: nat)
    requires i < |xs|
    ensures Batches(From(xs, i)) == [xs[i..Min(i + BATCH_SIZE, |xs|)]] + Batches(From(xs, i + BATCH_SIZE))
  {
    var rest := From(xs, i);
    var m := Min(BATCH_SIZE, |rest|);
    assert rest[..m] == xs[i..Min(i + BATCH_SIZE, |xs|)];
    assert rest[m..] == From(xs, i + BATCH_SIZE);
  }

  /** The batches sent to the store in order, up to and including the first
      one it refuses, and the message of that refusal. */
  function SendAll<D>(batches: seq<seq<D>>, upsert: seq<D> -> Option<string>): (seq<seq<D>>, Option<string>) {
    if batches == [] then ([], None)
    else if upsert(batches[0]).Some? then ([batches[0]], upsert(batches[0]))
    else
      var rest := SendAll(batches[1..], upsert);
      ([batches[0]] + rest.0, rest.1)
  }

  /** The batches sent are a prefix of all batches, the whole of them when
      none is refused; every batch before the last one sent was accepted, and
      the error is that of the last one sent. */
  lemma {:induction false} SendAllStops<D>(batches: seq<seq<D>>, upsert: seq<D> -> Option<string>)
    ensures var r := SendAll(batches, upsert);
            |r.0| <= |batches| && r.0 == batches[..|r.0|] &&
            (r.1.None? ==> r.0 == batches) &&
            (forall j :: 0 <= j < |r.0| - 1 ==> upsert(r.0[j]).None?) &&
            (r.1.None? <==> forall j :: 0 <= j < |r.0| ==> upsert(r.0[j]).None?) &&
            (r.1.Some? ==> r.0 != [] && r.1 == upsert(r.0[|r.0| - 1]))
  {
    if batches != [] && upsert(batches[0]).None? {
      SendAllStops(batches[1..], upsert);
      var rest := SendAll(batches[1..], upsert);
      var sent := [batches[0]] + rest.0;
      assert forall j :: 1 <= j < |sent| ==> sent[j] == rest.0[j - 1];
      assert sent == batches[..|sent|];
    }
  }

  /** `storeDocumentVectors`: `upsert` stands for one call of the vector
      store on a batch, giving the message of its error if it throws. The
      batches sent are returned with the error, if any. */
  method StoreDocumentVectors<D>(documents: seq<D>, upsert: seq<D> -> Option<string>)
    returns (sent: seq<seq<D>>, error: Option<string>)
    ensures documents == [] ==> sent == [] && error == Some(STORE_FAILED + NO_DOCUMENTS)
    ensures documents != [] ==>
              var r := SendAll(Batches(documents), upsert);
              sent == r.0 && error == if r.1.Some? then Some(STORE_FAILED + r.1.value) else None
  {
    sent := [];
    if |documents| == 0 {
      return [], Some(STORE_FAILED + NO_DOCUMENTS);
    }
    var i: nat := 0;
    assert From(documents, 0) == documents;
    assert sent + SendAll(Batches(documents), upsert).0 == SendAll(Batches(documents), upsert).0;
    while i < |documents|
      invariant i < |documents| + BATCH_SIZE
      invariant var r := SendAll(Batches(From(documents, i)), upsert);
                SendAll(Batches(documents), upsert) == (sent + r.0, r.1)
      decreases |documents| - i
    {
      var batch := documents[i..Min(i + BATCH_SIZE, |documents|)];
      BatchAt(documents, i);
      var later := SendAll(Batches(From(documents, i + BATCH_SIZE)), upsert);
      var failure := upsert(batch);
      if failure.Some? {
        sent := sent + [batch];
        error := Some(STORE_FAILED + failure.value);
        return;
      }
      assert sent + ([batch] + later.0) == (sent + [batch]) + later.0;
      sent := sent + [batch];
      i := i + BATCH_SIZE;
    }
    assert From(documents, i) == [];
    assert sent == SendAll(Batches(documents), upsert).0;
    error := None;
  }
}
