/**
 * The interview generator's handling of the language model's reply: the
 * reply text taken out of whatever the SDK returned, the code fence and the
 * array brackets stripped, the questions parsed in three tiers (a JSON array,
 * then double-quoted segments, then numbered lines), the tech-stack list
 * cleaned, and the message of whatever was thrown. The SDK call, the JSON
 * parser and the database are passed in as outcomes and oracles.
 */
module InterviewGenerate {
  import opened Wrappers
  import opened Strings
  import opened Json

  // ---------------------------------------------------------------------------
  // Reply text
  // ---------------------------------------------------------------------------

  /** A property of the SDK result, as `typeof … === "string"` sees it. */
  datatype Field = Text(s: string) | NotText

  /** What `generateText` resolved to; `shown` is `String(result)`. A null
      result is an `OtherResult` that is not truthy. */
  datatype SdkResult =
    | StringResult(s: string)
    | ObjectResult(text: Field, output: Field, shown: string)
    | OtherResult(truthy: bool, shown: string)

  /** The reply text: the result itself when it is a string, else its `text`
      property, else its `output` property, else the result converted to a
      string (a falsy non-object converts as `""`). */
  function ExtractText(result: SdkResult): (r: string)
    ensures result.StringResult? ==> r == result.s
    ensures result.ObjectResult? && result.text.Text? ==> r == result.text.s
    ensures result.ObjectResult? && !result.text.Text? && result.output.Text? ==> r == result.output.s
    ensures result.ObjectResult? && !result.text.Text? && !result.output.Text? ==> r == result.shown
    ensures result.OtherResult? ==> r == if result.truthy then result.shown else ""
  {
    match result
    case StringResult(s) => s
    case ObjectResult(text, output, shown) =>
      if text.Text? then text.s else if output.Text? then output.s else shown
    case OtherResult(truthy, shown) => if truthy then shown else ""
  }

  // ---------------------------------------------------------------------------
  // Cleaning
  // ---------------------------------------------------------------------------

  const FENCE_OPEN := "```json"
  const FENCE_CLOSE := "```"

  /** `replace(/^p/, "")` for a literal `p`. */
  function DropPrefix(s: string, p: string): (r: string)
    ensures StartsWith(s, p) ==> s == p + r
    ensures !StartsWith(s, p) ==> r == s
  {
    if StartsWith(s, p) then s[|p|..] else s
  }

  /** `replace(/p$/, "")` for a literal `p`; without the `m` flag `$` is the
      end of the text only. */
  function DropSuffix(s: string, p: string): (r: string)
    ensures EndsWith(s, p) ==> s == r + p
    ensures !EndsWith(s, p) ==> r == s
  {
    if EndsWith(s, p) then s[..|s| - |p|] else s
  }

  /** The cleaning as written: trim, then remove at most once each a leading
      fence opener, a trailing fence, a leading `[` and a trailing `]`, and
      only then trim again. */
  function Clean(text: string): (r: string)
    ensures IsTrimmed(r) && |r| <= |text|
  {
    Trim(DropSuffix(DropPrefix(DropSuffix(DropPrefix(Trim(text), FENCE_OPEN), FENCE_CLOSE), "["), "]"))
  }

  /** The cleaning with a trim after the fence is removed, so that the
      brackets of a fenced array are found. */
  function CleanFixed(text: string): (r: string)
    ensures IsTrimmed(r) && |r| <= |text|
  {
    Trim(DropSuffix(DropPrefix(Trim(DropSuffix(DropPrefix(Trim(text), FENCE_OPEN), FENCE_CLOSE)), "["), "]"))
  }

  /** A reply that is the bare array the prompt asks for. */
  function Bare(body: string): string { "[" + body + "]" }

  /** The same array inside a Markdown `json` code fence. */
  function Fenced(body: string): string { FENCE_OPEN + "\n" + Bare(body) + "\n" + FENCE_CLOSE }

  /** A bare array loses exactly its brackets. */
  lemma CleanBare(body: string)
    ensures Clean(Bare(body)) == Trim(body)
  {
    var b := Bare(body);
    assert !IsSpace(b[0]) && !IsSpace(b[|b| - 1]);
    TrimOfTrimmed(b);
    assert b[0] != FENCE_OPEN[0];
    assert !StartsWith(b, FENCE_OPEN);
    assert b[|b| - 1] != '`';
    assert !EndsWith(b, FENCE_CLOSE);
    assert DropPrefix(b, "[") == body + "]";
  }

  /** Trim removes one line break on each side of trimmed text. */
  lemma TrimNewlines(x: string)
    requires x != [] && IsTrimmed(x)
    ensures Trim("\n" + x + "\n") == x
  {
    var s := "\n" + x + "\n";
    assert s[..|s| - 1] == "\n" + x;
    assert TrimEnd(s) == TrimEnd("\n" + x);
    assert ("\n" + x)[|"\n" + x| - 1] == x[|x| - 1];
    assert TrimEnd("\n" + x) == "\n" + x;
    assert ("\n" + x)[1..] == x;
  }

  /** As written, a fenced array keeps its brackets: the line break after the
      fence opener stops `^\[` and the one before the closing fence stops
      `\]$`, so `JSON.parse` is handed `[[…]]`, an array nested in an array. */
  lemma FencedReplyKeepsBrackets(body: string)
    requires IsTrimmed(body)
    ensures Clean(Fenced(body)) == Bare(body)
  {
    CleanOfFenced(body);
    BareTrimmed(body);
    TrimNewlines(Bare(body));
  }

  lemma CleanOfFenced(body: string)
    ensures Clean(Fenced(body)) == Trim("\n" + Bare(body) + "\n")
  {
    var b := FenceStripped(body);
    Unbracketed(b);
  }

  lemma Unbracketed(b: string)
    requires b != [] && b[0] == '\n' && b[|b| - 1] == '\n'
    ensures DropSuffix(DropPrefix(b, "["), "]") == b
  {
    assert !StartsWith(b, "[");
    assert !EndsWith(b, "]");
  }

  lemma BareTrimmed(body: string)
    ensures Bare(body) != [] && IsTrimmed(Bare(body))
  {
    var x := Bare(body);
    assert x[0] == '[' && x[|x| - 1] == ']';
  }

  /** Corrected, the fenced and the bare array both clean to the array's body. */
  lemma CleanFixedUnwraps(body: string)
    requires IsTrimmed(body)
    ensures CleanFixed(Fenced(body)) == body
    ensures CleanFixed(Bare(body)) == body
  {
    var b := FenceStripped(body);
    BareTrimmed(body);
    TrimNewlines(Bare(body));
    assert CleanFixed(Fenced(body)) == Trim(DropSuffix(DropPrefix(Bare(body), "["), "]"));
    Unwrapped(body);
    CleanBare(body);
    CleanFixedAgrees(Bare(body));
  }

  lemma Unwrapped(body: string)
    requires IsTrimmed(body)
    ensures Trim(DropSuffix(DropPrefix(Bare(body), "["), "]")) == body
  {
    assert DropPrefix(Bare(body), "[") == body + "]";
    TrimOfTrimmed(body);
  }

  /** Removing the fence from a fenced array leaves the array between two
      line breaks. */
  lemma FenceStripped(body: string) returns (b: string)
    ensures b == DropSuffix(DropPrefix(Trim(Fenced(body)), FENCE_OPEN), FENCE_CLOSE)
    ensures b == "\n" + Bare(body) + "\n"
  {
    var f := Fenced(body);
    assert f[0] == '`' && f[|f| - 1] == '`';
    TrimOfTrimmed(f);
    var a := "\n" + Bare(body) + "\n" + FENCE_CLOSE;
    assert f == FENCE_OPEN + a;
    assert DropPrefix(f, FENCE_OPEN) == a;
    b := "\n" + Bare(body) + "\n";
    assert a == b + FENCE_CLOSE;
    assert DropSuffix(a, FENCE_CLOSE) == b;
  }

  /** The correction changes nothing for a reply without a fence. */
  lemma CleanFixedAgrees(text: string)
    requires !StartsWith(Trim(text), FENCE_OPEN) && !EndsWith(Trim(text), FENCE_CLOSE)
    ensures CleanFixed(text) == Clean(text)
  {
    TrimOfTrimmed(Trim(text));
  }

  // ---------------------------------------------------------------------------
  // Second tier: double-quoted segments
  // ---------------------------------------------------------------------------

  function FirstIndex(s: string, c: char): (i: nat)
    requires c in s
    ensures i < |s| && s[i] == c && c !in s[..i]
  {
    if s[0] == c then 0
    else
      var j := FirstIndex(s[1..], c);
      assert s[..j + 1] == [s[0]] + s[1..][..j];
      j + 1
  }

  /** The matches of `/"([^"]*)"/g`, quotes included, left to right: each
      opening quote is paired with the next quote after it. */
  function QuoteMatches(s: string): (ms: seq<string>)
    ensures forall k :: 0 <= k < |ms| ==> |ms[k]| >= 2 && ms[k][0] == '"' && ms[k][|ms[k]| - 1] == '"'
    decreases |s|
  {
    if s == [] then []
    else if s[0] != '"' then QuoteMatches(s[1..])
    else if '"' !in s[1..] then []
    else
      var j := FirstIndex(s[1..], '"');
      [Quoted(s[1..][..j])] + QuoteMatches(s[j + 2..])
  }

  /** A text between double quotes. */
  function Quoted(q: string): string { "\"" + q + "\"" }

  /** `map(s => s.replace(/"/g, ""))`. */
  function Unquote(ms: seq<string>): (r: seq<string>)
    ensures |r| == |ms| && forall k :: 0 <= k < |r| ==> '"' !in r[k]
  {
    seq(|ms|, k requires 0 <= k < |ms| => RemoveAll(ms[k], '"'))
  }

  /** Text without a quote has no match, and adds none in front of more text. */
  lemma {:induction false} QuoteMatchesSkip(p: string, t: string)
    requires '"' !in p
    ensures QuoteMatches(p + t) == QuoteMatches(t)
    decreases |p|
  {
    if p != [] {
      assert p[0] in p;
      assert (p + t)[1..] == p[1..] + t;
      QuoteMatchesSkip(p[1..], t);
    } else {
      assert p + t == t;
    }
  }

  /** The text between a quote and the next quote is the first match. */
  lemma QuoteMatchesFirst(q: string, t: string)
    requires '"' !in q
    ensures QuoteMatches(Quoted(q) + t) == [Quoted(q)] + QuoteMatches(t)
  {
    var s := Quoted(q) + t;
    assert s[1..] == q + ("\"" + t);
    assert s[1..][|q|] == '"';
    assert s[1..][..|q|] == q;
    var j := FirstIndex(s[1..], '"');
    assert j == |q|;
    assert s[j + 2..] == t;
  }

  /** The body of the array the prompt asks for, without its brackets:
      `"q1", "q2", …`. */
  function QuotedList(qs: seq<string>): string {
    if qs == [] then ""
    else if |qs| == 1 then Quoted(qs[0])
    else Quoted(qs[0]) + (", " + QuotedList(qs[1..]))
  }

  /** The second tier reads back every question of a quoted list, whatever
      breaks the JSON parse (a stray comma or an unescaped character). */
  lemma {:induction false} QuotedListRoundTrip(qs: seq<string>)
    requires forall k :: 0 <= k < |qs| ==> '"' !in qs[k]
    ensures Unquote(QuoteMatches(QuotedList(qs))) == qs
    decreases |qs|
  {
    if qs == [] {
    } else if |qs| == 1 {
      QuoteMatchesFirst(qs[0], "");
      assert Quoted(qs[0]) + "" == QuotedList(qs);
      RemoveQuotes(qs[0]);
    } else {
      var rest := QuotedList(qs[1..]);
      QuoteMatchesFirst(qs[0], ", " + rest);
      QuoteMatchesSkip(", ", rest);
      QuotedListRoundTrip(qs[1..]);
      RemoveQuotes(qs[0]);
      UnquoteCons(Quoted(qs[0]), QuoteMatches(rest));
      assert [qs[0]] + qs[1..] == qs;
    }
  }

  lemma UnquoteCons(m: string, ms: seq<string>)
    ensures Unquote([m] + ms) == [RemoveAll(m, '"')] + Unquote(ms)
  {
  }

  lemma RemoveQuotes(q: string)
    requires '"' !in q
    ensures RemoveAll(Quoted(q), '"') == q
  {
    var s := Quoted(q);
    assert s[1..] == q + "\"";
    RemoveAllTail(q);
  }

  lemma {:induction false} RemoveAllTail(q: string)
    requires '"' !in q
    ensures RemoveAll(q + "\"", '"') == q
    decreases |q|
  {
    if q == [] {
      assert q + "\"" == "\"";
    } else {
      assert q[0] in q;
      assert (q + "\"")[1..] == q[1..] + "\"";
      RemoveAllTail(q[1..]);
      assert [q[0]] + q[1..] == q;
    }
  }

  // ---------------------------------------------------------------------------
  // Third tier: numbered lines
  // ---------------------------------------------------------------------------

  /** The alternation `/\n|,/`. */
  predicate IsListSeparator(c: char) { c == '\n' || c == ',' }

  predicate IsQuoteOrDash(c: char) { c == '-' || c == '"' || c == '\'' }

  /** `replace(/^\d+\.?\s*[\-"']*\/, "")`: a leading number, an optional
      dot, white space, and any dashes and quotes after it. Every part after
      the digits may be empty, so the greedy match needs no backtracking. */
  function StripNumbering(s: string): (r: string)
    ensures IsSuffix(r, s)
    ensures s == [] || !IsDigit(s[0]) ==> r == s
  {
    if s != [] && IsDigit(s[0]) then
      var a := DropWhile(s, IsDigit);
      var b := if a != [] && a[0] == '.' then a[1..] else a;
      var c := TrimStart(b);
      var d := DropWhile(c, IsQuoteOrDash);
      assert IsSuffix(b, a);
      SuffixTrans(d, c, b);
      SuffixTrans(d, b, a);
      SuffixTrans(d, a, s);
      d
    else s
  }

  /** `r` is a tail of `s`. */
  predicate IsSuffix(r: string, s: string) { |r| <= |s| && r == s[|s| - |r|..] }

  lemma SuffixTrans(a: string, b: string, c: string)
    requires IsSuffix(a, b) && IsSuffix(b, c)
    ensures IsSuffix(a, c)
  {
    assert c[|c| - |a|..] == c[|c| - |b|..][|b| - |a|..];
  }

  /** The third tier: split at line breaks and commas, strip numbering,
      trim, and keep the non-empty pieces. */
  function NumberedItems(text: string): (r: seq<string>)
  {
    NonEmpty(StripEach(SplitWhere(text, IsListSeparator)))
  }

  /** `map(s => s.replace(numbering, "").trim())`. */
  function StripEach(pieces: seq<string>): (r: seq<string>)
    ensures |r| == |pieces| && forall k :: 0 <= k < |r| ==> r[k] == Trim(StripNumbering(pieces[k]))
  {
    seq(|pieces|, k requires 0 <= k < |pieces| => Trim(StripNumbering(pieces[k])))
  }

  predicate NoSeparator(s: string) { forall i :: 0 <= i < |s| ==> !IsListSeparator(s[i]) }

  /** Stripping and trimming keep a piece's characters, so add no separator. */
  lemma StrippedNoSeparator(p: string)
    requires NoSeparator(p)
    ensures NoSeparator(Trim(StripNumbering(p)))
  {
    var a := StripNumbering(p);
    NoSeparatorSlice(p, |p| - |a|, |p|);
    var i0, j0 := TrimSlice(a);
    NoSeparatorSlice(a, i0, j0);
  }

  lemma NoSeparatorSlice(s: string, i: nat, j: nat)
    requires NoSeparator(s) && i <= j <= |s|
    ensures NoSeparator(s[i..j])
  {
    forall k | 0 <= k < j - i
      ensures !IsListSeparator(s[i..j][k])
    {
      assert s[i..j][k] == s[i + k];
    }
  }

  /** Every third-tier question is non-empty, trimmed and free of line breaks
      and commas, and there are no more of them than pieces of the text. */
  lemma NumberedItemsShape(text: string)
    ensures var r := NumberedItems(text);
            |r| <= |SplitWhere(text, IsListSeparator)| &&
            forall k :: 0 <= k < |r| ==> r[k] != "" && IsTrimmed(r[k]) && NoSeparator(r[k])
  {
    var pieces := SplitWhere(text, IsListSeparator);
    SplitWherePieces(text, IsListSeparator);
    forall k | 0 <= k < |pieces|
      ensures NoSeparator(pieces[k])
    {
    }
    StripEachShape(pieces);
    KeptItems(StripEach(pieces));
  }

  lemma StripEachShape(pieces: seq<string>)
    requires forall k :: 0 <= k < |pieces| ==> NoSeparator(pieces[k])
    ensures forall k :: 0 <= k < |pieces| ==> IsTrimmed(StripEach(pieces)[k]) && NoSeparator(StripEach(pieces)[k])
  {
    forall k | 0 <= k < |pieces|
      ensures NoSeparator(StripEach(pieces)[k])
    {
      StrippedNoSeparator(pieces[k]);
    }
  }

  lemma KeptItems(xs: seq<string>)
    requires forall k :: 0 <= k < |xs| ==> IsTrimmed(xs[k]) && NoSeparator(xs[k])
    ensures forall k :: 0 <= k < |NonEmpty(xs)| ==>
      NonEmpty(xs)[k] != "" && IsTrimmed(NonEmpty(xs)[k]) && NoSeparator(NonEmpty(xs)[k])
  {
    var r := NonEmpty(xs);
    forall k | 0 <= k < |r|
      ensures IsTrimmed(r[k]) && NoSeparator(r[k])
    {
      var m :| 0 <= m < |xs| && xs[m] == r[k];
    }
  }

  /** A numbered list, one question per line, counting from `n`. */
  function NumberedLines(qs: seq<string>, n: nat): (r: seq<string>)
    ensures |r| == |qs|
  {
    if qs == [] then [] else [NatToString(n) + ". " + qs[0]] + NumberedLines(qs[1..], n + 1)
  }

  /** A question the third tier can read back unchanged. */
  predicate PlainQuestion(q: string) {
    q != [] && IsTrimmed(q) && !IsDigit(q[0]) && !IsQuoteOrDash(q[0]) &&
    NoSeparator(q)
  }

  lemma StripNumberedLine(n: nat, q: string)
    requires PlainQuestion(q)
    ensures Trim(StripNumbering(NatToString(n) + ". " + q)) == q
  {
    var s := NatToString(n) + ". " + q;
    NumberedPrefix(n, q);
    DotSpace(q);
    StripDigits(s, ". " + q);
    TrimOfTrimmed(q);
  }

  lemma NumberedPrefix(n: nat, q: string)
    ensures var s := NatToString(n) + ". " + q; s != [] && IsDigit(s[0]) && DropWhile(s, IsDigit) == ". " + q
  {
    var d := NatToString(n);
    assert d + ". " + q == d + (". " + q);
    assert (d + (". " + q))[0] == d[0];
    DropWhilePrefix(d, ". " + q, IsDigit);
  }

  /** The numbering stripped from a line that starts with digits and a dot. */
  lemma StripDigits(s: string, a: string)
    requires s != [] && IsDigit(s[0]) && DropWhile(s, IsDigit) == a && a != [] && a[0] == '.'
    ensures StripNumbering(s) == DropWhile(TrimStart(a[1..]), IsQuoteOrDash)
  {
  }

  lemma DotSpace(q: string)
    requires PlainQuestion(q)
    ensures var a := ". " + q; a != [] && a[0] == '.' && DropWhile(TrimStart(a[1..]), IsQuoteOrDash) == q
  {
    var a := ". " + q;
    assert a[1..] == " " + q;
    assert (" " + q)[1..] == q;
    assert TrimStart(" " + q) == q;
  }

  /** The third tier reads back every question of a numbered list. */
  lemma NumberedListRoundTrip(qs: seq<string>)
    requires qs != [] && forall k :: 0 <= k < |qs| ==> PlainQuestion(qs[k])
    ensures NumberedItems(Join(NumberedLines(qs, 1), "\n")) == qs
  {
    NumberedLinesSplit(qs);
    NumberedLinesStripped(qs);
    NonEmptyKeepsAll(qs);
  }

  lemma NumberedLinesSplit(qs: seq<string>)
    requires qs != [] && forall k :: 0 <= k < |qs| ==> PlainQuestion(qs[k])
    ensures SplitWhere(Join(NumberedLines(qs, 1), "\n"), IsListSeparator) == NumberedLines(qs, 1)
  {
    var lines := NumberedLines(qs, 1);
    LinesOfNumbered(qs, 1);
    forall k, i | 0 <= k < |lines| && 0 <= i < |lines[k]|
      ensures !IsListSeparator(lines[k][i])
    {
      assert NoSeparator(lines[k]);
    }
    SplitWhereJoin(lines, '\n', IsListSeparator);
  }

  lemma NumberedLinesStripped(qs: seq<string>)
    requires forall k :: 0 <= k < |qs| ==> PlainQuestion(qs[k])
    ensures StripEach(NumberedLines(qs, 1)) == qs
  {
    var xs := StripEach(NumberedLines(qs, 1));
    forall k | 0 <= k < |qs|
      ensures xs[k] == qs[k]
    {
      StrippedLineAt(qs, k);
    }
  }

  lemma StrippedLineAt(qs: seq<string>, k: nat)
    requires k < |qs| && PlainQuestion(qs[k])
    ensures Trim(StripNumbering(NumberedLines(qs, 1)[k])) == qs[k]
  {
    NumberedLineAt(qs, 1, k);
    StripNumberedLine(1 + k, qs[k]);
  }

  lemma {:induction false} NumberedLineAt(qs: seq<string>, n: nat, k: nat)
    requires k < |qs|
    ensures NumberedLines(qs, n)[k] == NatToString(n + k) + ". " + qs[k]
    decreases k
  {
    if k > 0 {
      NumberedLineAt(qs[1..], n + 1, k - 1);
    }
  }

  lemma LinesOfNumbered(qs: seq<string>, n: nat)
    requires forall k :: 0 <= k < |qs| ==> PlainQuestion(qs[k])
    ensures forall k :: 0 <= k < |NumberedLines(qs, n)| ==> NoSeparator(NumberedLines(qs, n)[k])
  {
    var lines := NumberedLines(qs, n);
    forall k, i | 0 <= k < |lines| && 0 <= i < |lines[k]|
      ensures !IsListSeparator(lines[k][i])
    {
      NumberedLineAt(qs, n, k);
      var d := NatToString(n + k);
      if i >= |d| + 2 {
        assert lines[k][i] == qs[k][i - |d| - 2];
      }
    }
  }

  // ---------------------------------------------------------------------------
  // The three tiers together
  // ---------------------------------------------------------------------------

  function AsJson(xs: seq<string>): (r: seq<Json>)
    ensures |r| == |xs| && forall k :: 0 <= k < |r| ==> r[k] == JString(xs[k])
  {
    seq(|xs|, k requires 0 <= k < |xs| => JString(xs[k]))
  }

  /** `JSON.parse("[" + cleaned + "]")` gives an array. */
  predicate ParsesAsArray(cleaned: string, parse: string -> Option<Json>) {
    parse("[" + cleaned + "]").Some? && parse("[" + cleaned + "]").value.JArray?
  }

  /** The questions of a cleaned reply. `parse` stands for `JSON.parse`, with
      `None` for a parse that throws. The array parsed wins; otherwise the
      quoted segments, if any; otherwise the numbered lines. */
  function ParseQuestions(cleaned: string, parse: string -> Option<Json>): (qs: seq<Json>)
    ensures ParsesAsArray(cleaned, parse) ==> qs == parse("[" + cleaned + "]").value.items
    ensures !ParsesAsArray(cleaned, parse) ==> forall k :: 0 <= k < |qs| ==> qs[k].JString?
    ensures !ParsesAsArray(cleaned, parse) && QuoteMatches(cleaned) != [] ==>
              |qs| == |QuoteMatches(cleaned)| && forall k :: 0 <= k < |qs| ==> '"' !in qs[k].s
    ensures !ParsesAsArray(cleaned, parse) && QuoteMatches(cleaned) == [] ==>
              forall k :: 0 <= k < |qs| ==> qs[k].s != "" && IsTrimmed(qs[k].s) && NoSeparator(qs[k].s)
  {
    if ParsesAsArray(cleaned, parse) then parse("[" + cleaned + "]").value.items
    else
      var ms := QuoteMatches(cleaned);
      if ms != [] then AsJson(Unquote(ms))
      else
        NumberedItemsShape(cleaned);
        AsJson(NumberedItems(cleaned))
  }

  // ---------------------------------------------------------------------------
  // Tech stack and error messages
  // ---------------------------------------------------------------------------

  predicate IsComma(c: char) { c == ',' }

  /** `(techstack || "").split(",").map(trim).filter(non-empty)`; a missing
      tech stack is `None`. */
  function CleanTechstack(techstack: Option<string>): (r: seq<string>)
    ensures techstack.None? ==> r == []
    ensures forall k :: 0 <= k < |r| ==> r[k] != "" && IsTrimmed(r[k]) && ',' !in r[k]
  {
    var pieces := SplitWhere(techstack.GetOr(""), IsComma);
    SplitWherePieces(techstack.GetOr(""), IsComma);
    var trimmed := TrimAll(pieces);
    forall k | 0 <= k < |trimmed|
      ensures ',' !in trimmed[k]
    {
      var i, j := TrimSlice(pieces[k]);
    }
    NonEmpty(trimmed)
  }

  /** An entry list written back with commas cleans to itself. */
  lemma TechstackRoundTrip(xs: seq<string>)
    requires forall k :: 0 <= k < |xs| ==> xs[k] != "" && IsTrimmed(xs[k]) && ',' !in xs[k]
    ensures CleanTechstack(Some(Join(xs, ","))) == xs
  {
    if xs != [] {
      CommaFreeSplit(xs);
      TrimAllTrimmed(xs);
      NonEmptyKeepsAll(xs);
    }
  }

  lemma CommaFreeSplit(xs: seq<string>)
    requires xs != [] && forall k :: 0 <= k < |xs| ==> ',' !in xs[k]
    ensures SplitWhere(Join(xs, ","), IsComma) == xs
  {
    forall k, i | 0 <= k < |xs| && 0 <= i < |xs[k]|
      ensures !IsComma(xs[k][i])
    {
    }
    SplitWhereJoin(xs, ',', IsComma);
  }

  lemma TrimAllTrimmed(xs: seq<string>)
    requires forall k :: 0 <= k < |xs| ==> IsTrimmed(xs[k])
    ensures TrimAll(xs) == xs
  {
    forall k | 0 <= k < |xs|
      ensures Trim(xs[k]) == xs[k]
    {
      TrimOfTrimmed(xs[k]);
    }
  }

  /** Cleaning a cleaned tech stack changes nothing. */
  lemma TechstackIdempotent(techstack: Option<string>)
    ensures CleanTechstack(Some(Join(CleanTechstack(techstack), ","))) == CleanTechstack(techstack)
  {
    TechstackRoundTrip(CleanTechstack(techstack));
  }

  const UNKNOWN_ERROR := "An unknown error occurred."

  /** What was thrown. `converted` is the outcome of `String(…)` applied to
      the `message` property, or to the value itself; reading a property or
      converting a value can throw in turn. */
  datatype Thrown =
    | ErrorObject(message: string)
    | WithMessage(converted: Outcome<string>)
    | OtherThrown(converted: Outcome<string>)

  /** `err.message` for an `Error`, the converted `message` of an object that
      has one, otherwise the value converted to a string; a conversion that
      throws gives the fixed fallback text. */
  function GetErrorMessage(err: Thrown): (r: string)
    ensures err.ErrorObject? ==> r == err.message
    ensures !err.ErrorObject? && err.converted.Returned? ==> r == err.converted.value
    ensures !err.ErrorObject? && err.converted.Threw? ==> r == UNKNOWN_ERROR
  {
    match err
    case ErrorObject(message) => message
    case WithMessage(converted) => if converted.Returned? then converted.value else UNKNOWN_ERROR
    case OtherThrown(converted) => if converted.Returned? then converted.value else UNKNOWN_ERROR
  }

  // ---------------------------------------------------------------------------
  // The request handler
  // ---------------------------------------------------------------------------

  /** What the database was asked to store (the fields copied from the
      request, the cover image and the creation time are left out). */
  datatype Interview = Interview(techstack: seq<string>, questions: seq<Json>, finalized: bool)

  /** The outcome of adding the record to the `interviews` collection. */
  datatype StoreOutcome = Stored(id: string) | StoreFailed(error: Thrown)

  datatype Response = Response(status: int, body: Json)

  function Failed(message: string): (r: Response)
    ensures r.status == 500
  {
    Response(500, JObject([("success", JBool(false)), ("error", JString(message))]))
  }

  function Created(id: string): (r: Response)
    ensures r.status == 200
  {
    Response(200, JObject([("success", JBool(true)), ("id", JString(id))]))
  }

  /** The questions stored for an SDK result, cleaned as written (so a fenced
      array reaches `parse` still wrapped in its brackets). */
  function QuestionsOf(result: SdkResult, parse: string -> Option<Json>): seq<Json> {
    ParseQuestions(Clean(ExtractText(result)), parse)
  }

  /** The POST handler. `bodyError` is what reading the request body threw,
      if anything; `sdk` is the outcome of the SDK call, its failure already
      reduced to a message. */
  method Post(bodyError: Option<Thrown>, techstack: Option<string>, sdk: Outcome<SdkResult>,
              parse: string -> Option<Json>, store: StoreOutcome)
    returns (resp: Response, interview: Option<Interview>)
    ensures bodyError.Some? ==> resp == Failed(GetErrorMessage(bodyError.value)) && interview.None?
    ensures bodyError.None? && sdk.Threw? ==> resp == Failed(sdk.message) && interview.None?
    ensures bodyError.None? && sdk.Returned? ==>
              interview == Some(Interview(CleanTechstack(techstack), QuestionsOf(sdk.value, parse), true))
    ensures resp.status == 200 <==> interview.Some? && store.Stored?
    ensures resp.status == 200 ==> resp == Created(store.id)
    ensures interview.Some? && store.StoreFailed? ==> resp == Failed(GetErrorMessage(store.error))
  {
    if bodyError.Some? {
      return Failed(GetErrorMessage(bodyError.value)), None;
    }
    var questionsText := "";
    match sdk {
      case Threw(message) =>
        return Failed(message), None;
      case Returned(result) =>
        questionsText := ExtractText(result);
    }
    var questions: seq<Json> := [];
    var cleanedText := Trim(questionsText);
    cleanedText := DropPrefix(cleanedText, FENCE_OPEN);
    cleanedText := DropSuffix(cleanedText, FENCE_CLOSE);
    cleanedText := DropPrefix(cleanedText, "[");
    cleanedText := DropSuffix(cleanedText, "]");
    cleanedText := Trim(cleanedText);
    assert cleanedText == Clean(questionsText);
    var parsed := parse("[" + cleanedText + "]");
    if parsed.Some? && parsed.value.JArray? {
      questions := parsed.value.items;
    } else {
      var matches := QuoteMatches(cleanedText);
      if matches != [] {
        questions := AsJson(Unquote(matches));
      } else {
        questions := AsJson(NumberedItems(cleanedText));
      }
    }
    assert questions == ParseQuestions(cleanedText, parse);
    var cleanedTechstack := CleanTechstack(techstack);
    interview := Some(Interview(cleanedTechstack, questions, true));
    match store {
      case Stored(id) =>
        resp := Created(id);
      case StoreFailed(error) =>
        resp := Failed(GetErrorMessage(error));
    }
  }
}
