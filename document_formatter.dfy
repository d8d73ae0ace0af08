/**
 * lib/utils/documentFormatter.ts: turns the text of a document into titled
 * sections (paragraph by paragraph), derives its id, title and summary, and
 * renders the result back to Markdown-like text. The colon blocks with
 * `* ` items are read by a small line parser, `ParseKeyValue`.
 */
module DocumentFormatter {
  import opened Wrappers
  import opened Strings

  // ---------------------------------------------------------------------
  // Records: the plain objects parseKeyValue builds

  /** A record value: one string, or a list of them. */
  datatype Value = Single(text: string) | Many(items: seq<string>)

  /** A plain object with string keys, in insertion order. */
  type Record = seq<(string, Value)>

  function Keys(r: Record): (ks: seq<string>)
    ensures |ks| == |r| && forall i :: 0 <= i < |r| ==> ks[i] == r[i].0
  {
    if r == [] then [] else [r[0].0] + Keys(r[1..])
  }

  predicate DistinctKeys(r: Record) {
    forall i, j :: 0 <= i < j < |r| ==> r[i].0 != r[j].0
  }

  /** `r[k]`, when present. */
  function Lookup(r: Record, k: string): Option<Value> {
    if r == [] then None else if r[0].0 == k then Some(r[0].1) else Lookup(r[1..], k)
  }

  /** `r[k] = v`: a key already present keeps its place and takes the new
      value; a new key goes last. */
  function Put(r: Record, k: string, v: Value): Record {
    if r == [] then [(k, v)]
    else if r[0].0 == k then [(k, v)] + r[1..]
    else [r[0]] + Put(r[1..], k, v)
  }

  /** After `r[k] = v`, `k` reads `v`, every other key reads as before, and
      the keys keep their order with a new key last. */
  lemma PutSpec(r: Record, k: string, v: Value)
    ensures Lookup(Put(r, k, v), k) == Some(v)
    ensures forall k' :: k' != k ==> Lookup(Put(r, k, v), k') == Lookup(r, k')
    ensures k in Keys(r) ==> Keys(Put(r, k, v)) == Keys(r)
    ensures k !in Keys(r) ==> Keys(Put(r, k, v)) == Keys(r) + [k]
    ensures DistinctKeys(r) ==> DistinctKeys(Put(r, k, v))
  {
    PutLookup(r, k, v);
    PutKeys(r, k, v);
    var r' := Put(r, k, v);
    if DistinctKeys(r) {
      forall i, j | 0 <= i < j < |r'| ensures r'[i].0 != r'[j].0 {
        assert r'[i].0 == Keys(r')[i] && r'[j].0 == Keys(r')[j];
        if k !in Keys(r) && j == |r'| - 1 {
          assert Keys(r')[i] == Keys(r)[i];
        } else {
          assert Keys(r')[i] == r[i].0 && Keys(r')[j] == r[j].0;
        }
      }
    }
  }

  lemma {:induction false} PutLookup(r: Record, k: string, v: Value)
    ensures Lookup(Put(r, k, v), k) == Some(v)
    ensures forall k' :: k' != k ==> Lookup(Put(r, k, v), k') == Lookup(r, k')
  {
    if r != [] && r[0].0 != k {
      PutLookup(r[1..], k, v);
    }
  }

  lemma {:induction false} PutKeys(r: Record, k: string, v: Value)
    ensures k in Keys(r) ==> Keys(Put(r, k, v)) == Keys(r)
    ensures k !in Keys(r) ==> Keys(Put(r, k, v)) == Keys(r) + [k]
  {
    if r != [] {
      assert Keys(r) == [r[0].0] + Keys(r[1..]);
      if r[0].0 != k {
        PutKeys(r[1..], k, v);
        assert Keys(Put(r, k, v)) == [r[0].0] + Keys(Put(r[1..], k, v));
      } else {
        assert Keys(Put(r, k, v)) == [k] + Keys(r[1..]);
      }
    }
  }

  /** How a key's gathered values are stored: exactly one value as that
      string, any other number (none included) as the list. */
  function Pack(values: seq<string>): (v: Value)
    ensures v.Single? <==> |values| == 1
    ensures v.Single? ==> v.text == values[0]
    ensures v.Many? ==> v.items == values
  {
    if |values| == 1 then Single(values[0]) else Many(values)
  }

  // ---------------------------------------------------------------------
  // parseKeyValue

  /** `/^[A-Za-z][A-Za-z\s]*:/`: a letter, then letters and white space, then a colon. */
  predicate IsKeyLine(line: string) {
    |line| >= 2 && IsAsciiLetter(line[0]) &&
    exists j :: 1 <= j < |line| && line[j] == ':' && forall t :: 1 <= t < j ==> IsAsciiLetter(line[t]) || IsSpace(line[t])
  }

  /** The key a key line opens: the line without its first colon, trimmed. */
  function KeyOf(line: string): string {
    Trim(RemoveFirst(line, ':'))
  }

  /** The key of a key line is never empty, so it always counts as open. */
  lemma KeyOfKeyLine(line: string)
    requires IsKeyLine(line)
    ensures KeyOf(line) != ""
  {
    assert RemoveFirst(line, ':')[0] == line[0];
    TrimNonBlank(RemoveFirst(line, ':'), 0);
  }

  /** `replace(/^-\s*\/, "")`: a leading dash and the white space after it. */
  function StripDash(s: string): (r: string)
    ensures |r| <= |s|
  {
    if s != [] && s[0] == '-' then TrimStart(s[1..]) else s
  }

  /** The parser's variables: the open key, its values, and the object so far. */
  datatype KvState = KvState(key: string, values: seq<string>, result: Record)

  /** The object with the open key's values stored, if a key is open. */
  function Flush(st: KvState): Record {
    if st.key != "" then Put(st.result, st.key, Pack(st.values)) else st.result
  }

  /** One line of parseKeyValue. */
  function KvStep(st: KvState, line: string): KvState {
    if IsKeyLine(line) then KvState(KeyOf(line), [], Flush(st))
    else if StartsWith(Trim(line), "- ") then st.(values := st.values + [Trim(StripDash(line))])
    else if Trim(line) != "" then
      if st.values != [] then st.(values := st.values[..|st.values| - 1] + [st.values[|st.values| - 1] + " " + Trim(line)])
      else st.(values := [Trim(line)])
    else st
  }

  /** The parser's variables after the given lines. */
  function KvRun(lines: seq<string>): KvState
    decreases |lines|
  {
    if lines == [] then KvState("", [], []) else KvStep(KvRun(lines[..|lines| - 1]), lines[|lines| - 1])
  }

  /** The lines parseKeyValue looks at: the non-blank lines. */
  function KvLines(content: string): seq<string> {
    NonBlank(Split(content, "\n"))
  }

  lemma KvRunSnoc(lines: seq<string>, i: nat)
    requires i < |lines|
    ensures KvRun(lines[..i + 1]) == KvStep(KvRun(lines[..i]), lines[i])
  {
    assert lines[..i + 1][..i] == lines[..i];
  }

  /** What parseKeyValue returns. */
  function ParseKeyValueSpec(content: string): Record {
    Flush(KvRun(KvLines(content)))
  }

  /** parseKeyValue, line by line. */
  method ParseKeyValue(content: string) returns (result: Record)
    ensures result == ParseKeyValueSpec(content)
  {
    var lines := KvLines(content);
    result := [];
    var currentKey := "";
    var currentValues: seq<string> := [];
    for i := 0 to |lines|
      invariant KvState(currentKey, currentValues, result) == KvRun(lines[..i])
    {
      KvRunSnoc(lines, i);
      ghost var before := KvState(currentKey, currentValues, result);
      var line := lines[i];
      if IsKeyLine(line) {
        if currentKey != "" {
          result := Put(result, currentKey, Pack(currentValues));
        }
        currentKey := KeyOf(line);
        currentValues := [];
      } else if StartsWith(Trim(line), "- ") {
        currentValues := currentValues + [Trim(StripDash(line))];
      } else if Trim(line) != "" {
        if |currentValues| > 0 {
          currentValues := currentValues[..|currentValues| - 1] + [currentValues[|currentValues| - 1] + " " + Trim(line)];
        } else {
          currentValues := currentValues + [Trim(line)];
        }
      }
      assert KvState(currentKey, currentValues, result) == KvStep(before, line);
    }
    assert lines[..|lines|] == lines;
    if currentKey != "" {
      result := Put(result, currentKey, Pack(currentValues));
    }
  }

  /** `k` is the key opened by one of the key lines among `lines`. */
  predicate KeyFrom(lines: seq<string>, k: string) {
    k != "" && exists l :: l in lines && IsKeyLine(l) && KeyOf(l) == k
  }

  /** The object's keys are distinct, and each is the key of one of the key
      lines; so is the open key. */
  lemma {:induction false} KvRunKeys(lines: seq<string>)
    ensures DistinctKeys(KvRun(lines).result)
    ensures forall k :: k in Keys(KvRun(lines).result) ==> KeyFrom(lines, k)
    ensures KvRun(lines).key != "" ==> KeyFrom(lines, KvRun(lines).key)
    decreases |lines|
  {
    if lines != [] {
      var init := lines[..|lines| - 1];
      var last := lines[|lines| - 1];
      KvRunKeys(init);
      KeyFromSnoc(lines);
      var st := KvRun(init);
      assert KvRun(lines) == KvStep(st, last);
      KvStepShape(st, last);
      FlushKeys(st);
      if IsKeyLine(last) {
        KeyOfKeyLine(last);
      }
    }
  }

  /** A key line opens its key and stores the open one; any other line keeps both. */
  lemma KvStepShape(st: KvState, line: string)
    ensures IsKeyLine(line) ==> KvStep(st, line) == KvState(KeyOf(line), [], Flush(st))
    ensures !IsKeyLine(line) ==> KvStep(st, line).key == st.key && KvStep(st, line).result == st.result
  {
  }

  /** Storing the open key adds at most that key and keeps the keys distinct. */
  lemma FlushKeys(st: KvState)
    ensures DistinctKeys(st.result) ==> DistinctKeys(Flush(st))
    ensures forall k :: k in Keys(Flush(st)) ==> k in Keys(st.result) || (k == st.key && st.key != "")
  {
    if st.key != "" {
      PutSpec(st.result, st.key, Pack(st.values));
    }
  }

  /** A key opened by an earlier line stays opened by some line, and so does the key of the last line. */
  lemma KeyFromSnoc(lines: seq<string>)
    requires lines != []
    ensures forall k :: KeyFrom(lines[..|lines| - 1], k) ==> KeyFrom(lines, k)
    ensures IsKeyLine(lines[|lines| - 1]) && KeyOf(lines[|lines| - 1]) != "" ==> KeyFrom(lines, KeyOf(lines[|lines| - 1]))
  {
    var init := lines[..|lines| - 1];
    forall l | l in init ensures l in lines {
      assert lines == init + [lines[|lines| - 1]];
    }
    assert lines[|lines| - 1] in lines;
  }

  /** parseKeyValue's keys are distinct, non-empty, and each comes from a key line. */
  lemma ParseKeyValueKeys(content: string)
    ensures var r := ParseKeyValueSpec(content);
            DistinctKeys(r) && forall k :: k in Keys(r) ==> KeyFrom(KvLines(content), k)
  {
    var lines := KvLines(content);
    KvRunKeys(lines);
    var st := KvRun(lines);
    if st.key != "" {
      PutSpec(st.result, st.key, Pack(st.values));
      var r := Put(st.result, st.key, Pack(st.values));
      forall k | k in Keys(r) ensures KeyFrom(lines, k) {
        if k !in Keys(st.result) {
          assert k == st.key;
        }
      }
    }
  }

  /** Lines before the first key line leave no trace: the first key line opens
      its key with no values and an empty object. */
  lemma {:induction false} LeadingValuesDiscarded(pre: seq<string>, line: string)
    requires forall l :: l in pre ==> !IsKeyLine(l)
    requires IsKeyLine(line)
    ensures KvRun(pre + [line]) == KvState(KeyOf(line), [], [])
  {
    NoKeyNoRecord(pre);
    assert (pre + [line])[..|pre|] == pre;
  }

  lemma {:induction false} NoKeyNoRecord(lines: seq<string>)
    requires forall l :: l in lines ==> !IsKeyLine(l)
    ensures KvRun(lines).key == "" && KvRun(lines).result == []
    decreases |lines|
  {
    if lines != [] {
      var init := lines[..|lines| - 1];
      assert forall l :: l in init ==> l in lines;
      NoKeyNoRecord(init);
      assert lines[|lines| - 1] in lines;
    }
  }

  /** A continuation line with values pending extends the last value by a
      space and the trimmed line, keeping the number of values; with none
      pending it becomes the first value. */
  lemma ContinuationLine(st: KvState, line: string)
    requires !IsKeyLine(line) && !StartsWith(Trim(line), "- ") && Trim(line) != ""
    ensures var st' := KvStep(st, line);
            st'.key == st.key && st'.result == st.result &&
            (st.values == [] ==> st'.values == [Trim(line)]) &&
            (st.values != [] ==> |st'.values| == |st.values| &&
                                 Join(st'.values, " ") == Join(st.values, " ") + " " + Trim(line))
  {
    var v := st.values;
    if v != [] {
      var init, last := v[..|v| - 1], v[|v| - 1];
      assert last + " " + Trim(line) == last + (" " + Trim(line));
      assert KvStep(st, line).values == init + [last + (" " + Trim(line))];
      JoinSnoc(init, last, " ", " " + Trim(line));
      assert init + [last] == v;
    }
  }

  /** Extending the last piece extends the join. */
  lemma {:induction false} JoinSnoc(init: seq<string>, last: string, sep: string, more: string)
    ensures Join(init + [last + more], sep) == Join(init + [last], sep) + more
    decreases |init|
  {
    if init != [] {
      assert (init + [last + more])[1..] == init[1..] + [last + more];
      assert (init + [last])[1..] == init[1..] + [last];
      JoinSnoc(init[1..], last, sep, more);
    }
  }

  // ---------------------------------------------------------------------
  // Sections

  /** The `type` of a section. */
  datatype Kind = TextKind | ListKind | CodeKind | TableKind | DiagramKind | KeyValueKind | SectionKind

  /** The `content` of a section: a string, a list, or an object. */
  datatype Content = Str(s: string) | Strs(items: seq<string>) | Obj(fields: Record)

  datatype FormattedSection = FormattedSection(kind: Kind, content: Content, title: Option<string>)

  /** `content += t`: an array is first turned into its comma-joined text and
      an object into `[object Object]`. */
  function AppendText(c: Content, t: string): (r: Content)
    ensures r.Str? && EndsWith(r.s, t)
    ensures c.Str? ==> r.s == c.s + t
    ensures c.Strs? ==> r.s == Join(c.items, ",") + t
  {
    match c
    case Str(s) => Str(s + t)
    case Strs(items) => Str(Join(items, ",") + t)
    case Obj(_) => Str(OBJECT_TEXT + t)
  }

  /** The number of leading line feeds. */
  function LeadingNewlines(s: string): (n: nat)
    ensures n <= |s|
  {
    if s != [] && s[0] == '\n' then 1 + LeadingNewlines(s[1..]) else 0
  }

  /** `split(/\n{2,}/)`: cuts at every run of two or more line feeds. */
  function SplitParagraphs(s: string): (ps: seq<string>)
    ensures |ps| >= 1
    decreases |s|
  {
    if s == [] then [""]
    else if LeadingNewlines(s) >= 2 then [""] + SplitParagraphs(s[LeadingNewlines(s)..])
    else
      var rest := SplitParagraphs(s[1..]);
      [[s[0]] + rest[0]] + rest[1..]
  }

  /** The paragraphs formatDocumentContent walks through: the non-blank ones. */
  function Paragraphs(content: string): seq<string> {
    NonBlank(SplitParagraphs(content))
  }

  /** How a paragraph is treated, tried in this order. */
  datatype ParagraphKind = Header | ColonList | ColonKeyValue | ColonTable | ColonText | Fence | Plain

  /** The title (first line without its first colon) and body (the remaining
      lines) of a colon block, both trimmed. */
  function ColonParts(para: string): (string, string) {
    var lines := Split(para, "\n");
    (Trim(RemoveFirst(lines[0], ':')), Trim(Join(lines[1..], "\n")))
  }

  function Classify(para: string): ParagraphKind {
    if StartsWith(para, "**") && EndsWith(para, "**") then Header
    else if Contains(para, ":") then
      var body := ColonParts(para).1;
      if Contains(body, "- ") then ColonList
      else if Contains(body, "* ") then ColonKeyValue
      else if Contains(body, "|") && Contains(body, "-|") then ColonTable
      else ColonText
    else if StartsWith(para, "```") then Fence
    else Plain
  }

  /** The title of a bold header paragraph: without its `**` pairs, trimmed. */
  function HeaderTitle(para: string): string {
    Trim(RemoveAllPairs(para, '*'))
  }

  /** One entry of a list block: without a leading dash, trimmed. */
  function ListItems(body: string): (items: seq<string>)
    ensures forall i :: 0 <= i < |items| ==> items[i] != ""
  {
    var lines := Split(body, "\n");
    NonEmpty(seq(|lines|, i requires 0 <= i < |lines| => Trim(StripDash(lines[i]))))
  }

  /** The lines between the first and the last line of a paragraph (`slice(1, -1)`). */
  function InnerLines(para: string): seq<string> {
    var lines := Split(para, "\n");
    if |lines| >= 2 then lines[1..|lines| - 1] else []
  }

  /** The section of a code fence: its title is the line after the fence,
      trimmed, or `code`; its content the lines after that, trimmed. */
  function CodeBlock(para: string): (s: FormattedSection)
    ensures s.kind == CodeKind && s.content.Str? && s.title.Some? && s.title.value != ""
  {
    var inner := InnerLines(para);
    var lang := if inner == [] then "" else Trim(inner[0]);
    FormattedSection(CodeKind, Str(Trim(Join(if inner == [] then [] else inner[1..], "\n"))),
                     Some(if lang == "" then "code" else lang))
  }

  /** A fenced block with a language line: the language names the section and
      the lines between the language line and the closing line are its code. */
  lemma CodeBlockShape(fence: string, lang: string, code: seq<string>, close: string)
    requires '\n' !in fence && '\n' !in lang && '\n' !in close && Trim(lang) != ""
    requires code != [] && forall k :: 0 <= k < |code| ==> '\n' !in code[k]
    ensures CodeBlock(fence + "\n" + lang + "\n" + Join(code, "\n") + "\n" + close) ==
            FormattedSection(CodeKind, Str(Trim(Join(code, "\n"))), Some(Trim(lang)))
  {
    var lines := [fence, lang] + code + [close];
    FencedLines(fence, lang, code, close);
    CodeBlockOfLines(fence + "\n" + lang + "\n" + Join(code, "\n") + "\n" + close, lines);
    assert lines[1] == lang && lines[2..|lines| - 1] == code;
  }

  lemma CodeBlockOfLines(para: string, lines: seq<string>)
    requires Split(para, "\n") == lines && |lines| >= 3
    ensures CodeBlock(para) == FormattedSection(CodeKind, Str(Trim(Join(lines[2..|lines| - 1], "\n"))),
                                                Some(if Trim(lines[1]) == "" then "code" else Trim(lines[1])))
  {
    var inner := InnerLines(para);
    assert inner[1..] == lines[2..|lines| - 1];
  }

  /** The lines of a fenced block are its fence, language, code and closing lines. */
  lemma FencedLines(fence: string, lang: string, code: seq<string>, close: string)
    requires '\n' !in fence && '\n' !in lang && '\n' !in close
    requires code != [] && forall k :: 0 <= k < |code| ==> '\n' !in code[k]
    ensures SplitOn(fence + "\n" + lang + "\n" + Join(code, "\n") + "\n" + close, "\n") == [fence, lang] + code + [close]
  {
    var lines := [fence, lang] + code + [close];
    forall k | 0 <= k < |lines| ensures '\n' !in lines[k] {
      if 2 <= k < |lines| - 1 {
        assert lines[k] == code[k - 2];
      }
    }
    SplitOnJoin(lines, '\n');
    JoinFenced(fence, lang, code, close);
  }

  lemma JoinFenced(fence: string, lang: string, code: seq<string>, close: string)
    requires code != []
    ensures Join([fence, lang] + code + [close], "\n") == fence + "\n" + lang + "\n" + Join(code, "\n") + "\n" + close
  {
    var lines := [fence, lang] + code + [close];
    assert lines == [fence] + ([lang] + (code + [close]));
    JoinCons(fence, [lang] + (code + [close]), "\n");
    JoinCons(lang, code + [close], "\n");
    JoinAppend(code, close, "\n");
  }

  /** Adding a last piece adds a separator and the piece to the join. */
  lemma {:induction false} JoinAppend(parts: seq<string>, last: string, sep: string)
    requires parts != []
    ensures Join(parts + [last], sep) == Join(parts, sep) + sep + last
    decreases |parts|
  {
    if |parts| == 1 {
      assert (parts + [last])[1..] == [last];
    } else {
      assert (parts + [last])[1..] == parts[1..] + [last];
      JoinAppend(parts[1..], last, sep);
    }
  }

  /** The loop variables of formatDocumentContent: the sections pushed and the
      open bold section, if any. */
  datatype FormatState = FormatState(sections: seq<FormattedSection>, current: Option<FormattedSection>)

  function Open(current: Option<FormattedSection>): seq<FormattedSection> {
    if current.Some? then [current.value] else []
  }

  /** One paragraph of formatDocumentContent. */
  function FormatStep(st: FormatState, para: string): FormatState {
    var (title, body) := ColonParts(para);
    match Classify(para)
    case Header =>
      FormatState(st.sections + Open(st.current), Some(FormattedSection(SectionKind, Str(""), Some(HeaderTitle(para)))))
    case ColonList => AddItems(st, title, ListItems(body))
    case ColonKeyValue =>
      st.(sections := st.sections + [FormattedSection(KeyValueKind, Obj(ParseKeyValueSpec(para)), Some(title))])
    case ColonTable =>
      st.(sections := st.sections + [FormattedSection(TableKind, Str(body), Some(title))])
    case ColonText =>
      if st.current.Some? then
        var c := st.current.value;
        st.(current := Some(c.(content := AppendText(c.content, "\n\n" + title + ":\n" + body))))
      else st.(sections := st.sections + [FormattedSection(TextKind, Str(body), Some(title))])
    case Fence =>
      st.(sections := st.sections + [CodeBlock(para)])
    case Plain =>
      if st.current.Some? then
        var c := st.current.value;
        st.(current := Some(c.(content := AppendText(c.content, "\n\n" + para))))
      else st.(sections := st.sections + [FormattedSection(TextKind, Str(para), None)])
  }

  /** A list block: its items extend an open bold section (whose text content
      is discarded), or else form a list section of their own. */
  function AddItems(st: FormatState, title: string, items: seq<string>): FormatState {
    if st.current.Some? then
      var c := st.current.value;
      var kept := if c.content.Strs? then c.content.items else [];
      st.(current := Some(c.(content := Strs(kept + items))))
    else st.(sections := st.sections + [FormattedSection(ListKind, Strs(items), Some(title))])
  }

  function FormatRun(paras: seq<string>): FormatState
    decreases |paras|
  {
    if paras == [] then FormatState([], None) else FormatStep(FormatRun(paras[..|paras| - 1]), paras[|paras| - 1])
  }

  lemma FormatRunSnoc(paras: seq<string>, i: nat)
    requires i < |paras|
    ensures FormatRun(paras[..i + 1]) == FormatStep(FormatRun(paras[..i]), paras[i])
  {
    assert paras[..i + 1][..i] == paras[..i];
  }

  /** The sections formatDocumentContent returns for these paragraphs. */
  function SectionsOf(paras: seq<string>): seq<FormattedSection> {
    var st := FormatRun(paras);
    st.sections + Open(st.current)
  }

  /** Each paragraph adds at most one section. */
  lemma {:induction false} FormatRunCount(paras: seq<string>)
    ensures |FormatRun(paras).sections| + |Open(FormatRun(paras).current)| <= |paras|
    decreases |paras|
  {
    if paras != [] {
      FormatRunCount(paras[..|paras| - 1]);
      StepCount(FormatRun(paras[..|paras| - 1]), paras[|paras| - 1]);
    }
  }

  lemma StepCount(st: FormatState, para: string)
    ensures |FormatStep(st, para).sections| + |Open(FormatStep(st, para).current)| <= |st.sections| + |Open(st.current)| + 1
  {
    var st' := FormatStep(st, para);
    var k := Classify(para);
    if k == Header {
      assert st'.sections == st.sections + Open(st.current);
    } else if k == ColonKeyValue || k == ColonTable || k == Fence {
      assert |st'.sections| == |st.sections| + 1 && st'.current == st.current;
    } else {
      assert k == ColonList || k == ColonText || k == Plain;
      assert st.current.Some? ==> st'.sections == st.sections && st'.current.Some?;
      assert st.current.None? ==> |st'.sections| == |st.sections| + 1 && st'.current == st.current;
    }
  }

  /** There are never more sections than non-blank paragraphs. */
  lemma SectionCount(paras: seq<string>)
    ensures |SectionsOf(paras)| <= |paras|
  {
    FormatRunCount(paras);
  }

  /** After the last bold header the open section stays open, keeping its
      kind and title. */
  lemma {:induction false} HeaderStaysOpen(paras: seq<string>, k: nat)
    requires k < |paras| && Classify(paras[k]) == Header
    requires forall t :: k < t < |paras| ==> Classify(paras[t]) != Header
    ensures var c := FormatRun(paras).current;
            c.Some? && c.value.kind == SectionKind && c.value.title == Some(HeaderTitle(paras[k]))
    decreases |paras|
  {
    var init := paras[..|paras| - 1];
    if k < |paras| - 1 {
      HeaderStaysOpen(init, k);
    }
  }

  /** A bold section still open at the end is emitted last: the last section
      is the one opened by the last bold header. */
  lemma LastHeaderEmitted(paras: seq<string>, k: nat)
    requires k < |paras| && Classify(paras[k]) == Header
    requires forall t :: k < t < |paras| ==> Classify(paras[t]) != Header
    ensures var ss := SectionsOf(paras);
            ss != [] && ss[|ss| - 1].kind == SectionKind && ss[|ss| - 1].title == Some(HeaderTitle(paras[k]))
  {
    HeaderStaysOpen(paras, k);
  }

  /** With a bold section open, a list block replaces any text content by
      its items (keeping earlier items), and a text block coerces list
      content to its comma-joined text before appending. */
  lemma OpenSectionQuirks(st: FormatState, para: string)
    requires st.current.Some?
    ensures var c := st.current.value;
            var c' := FormatStep(st, para).current;
            var body := ColonParts(para).1;
            (Classify(para) == ColonList && c.content.Str? ==> c' == Some(c.(content := Strs(ListItems(body))))) &&
            (Classify(para) == ColonText && c.content.Strs? ==>
               c'.Some? && c'.value.content == Str(Join(c.content.items, ",") + ("\n\n" + ColonParts(para).0 + ":\n" + body)))
  {
    var c := st.current.value;
    if Classify(para) == ColonList && c.content.Str? {
      ListIntoOpenSection(st, para);
    }
    if Classify(para) == ColonText && c.content.Strs? {
      TextIntoOpenSection(st, para);
    }
  }

  lemma ListIntoOpenSection(st: FormatState, para: string)
    requires st.current.Some? && st.current.value.content.Str? && Classify(para) == ColonList
    ensures FormatStep(st, para).current == Some(st.current.value.(content := Strs(ListItems(ColonParts(para).1))))
  {
    var items := ListItems(ColonParts(para).1);
    assert FormatStep(st, para) == AddItems(st, ColonParts(para).0, items);
    EmptyPrefix(items);
  }

  lemma EmptyPrefix<T>(s: seq<T>)
    ensures [] + s == s
  {
  }

  lemma TextIntoOpenSection(st: FormatState, para: string)
    requires st.current.Some? && st.current.value.content.Strs? && Classify(para) == ColonText
    ensures var c := st.current.value;
            FormatStep(st, para).current ==
              Some(c.(content := Str(Join(c.content.items, ",") + ("\n\n" + ColonParts(para).0 + ":\n" + ColonParts(para).1))))
  {
  }

  // ---------------------------------------------------------------------
  // id, title and summary

  /** The metadata fields read: `source`, `title`, `summary`, `type`. */
  datatype Metadata = Metadata(source: Option<string>, title: Option<string>, summary: Option<string>, docType: Option<string>)

  /** `value || fallback` for an optional string. */
  function Or(value: Option<string>, fallback: string): (r: string)
    ensures value.Some? && value.value != "" ==> r == value.value
    ensures value.None? || value.value == "" ==> r == fallback
  {
    if value.Some? && value.value != "" then value.value else fallback
  }

  function FirstLine(content: string): string {
    Split(content, "\n")[0]
  }

  predicate IsSlugChar(c: char) { 'a' <= c <= 'z' || IsDigit(c) }

  function SkipNonSlug(s: string): (r: string)
    ensures |r| <= |s| && (r == [] || IsSlugChar(r[0]))
    ensures s != [] && !IsSlugChar(s[0]) ==> |r| < |s|
  {
    if s == [] || IsSlugChar(s[0]) then s else SkipNonSlug(s[1..])
  }

  /** `replace(/[^a-z0-9]+/g, "-")`: each run of other characters becomes one hyphen. */
  function Hyphenate(s: string): (r: string)
    ensures SlugShaped(r)
    ensures s != [] && IsSlugChar(s[0]) ==> r != [] && r[0] == s[0]
    decreases |s|
  {
    if s == [] then []
    else if IsSlugChar(s[0]) then [s[0]] + Hyphenate(s[1..])
    else "-" + Hyphenate(SkipNonSlug(s))
  }

  function DropLeading(s: string, c: char): (r: string)
    ensures |r| <= |s| && r == s[|s| - |r|..] && (r == [] || r[0] != c)
  {
    if s != [] && s[0] == c then DropLeading(s[1..], c) else s
  }

  function DropTrailing(s: string, c: char): (r: string)
    ensures |r| <= |s| && r == s[..|r|] && (r == [] || r[|r| - 1] != c)
  {
    if s != [] && s[|s| - 1] == c then DropTrailing(s[..|s| - 1], c) else s
  }

  /** The id derived from the first line: lowercased, runs of characters
      other than `a-z0-9` turned into one hyphen, hyphens at either end removed. */
  function Slug(line: string): (r: string)
    ensures SlugShaped(r)
    ensures r == [] || (r[0] != '-' && r[|r| - 1] != '-')
  {
    var h := Hyphenate(ToLower(line));
    var a := DropLeading(h, '-');
    SlugShapedSlice(h, |h| - |a|, |h|);
    var r := DropTrailing(a, '-');
    SlugShapedSlice(a, 0, |r|);
    r
  }

  /** Only `a-z`, `0-9` and single hyphens. */
  predicate SlugShaped(s: string) {
    (forall i :: 0 <= i < |s| ==> IsSlugChar(s[i]) || s[i] == '-') &&
    (forall i :: 0 <= i < |s| - 1 ==> s[i] != '-' || s[i + 1] != '-')
  }

  lemma SlugShapedSlice(s: string, i: nat, j: nat)
    requires i <= j <= |s| && SlugShaped(s)
    ensures SlugShaped(s[i..j])
  {
    var t := s[i..j];
    assert forall k :: 0 <= k < |t| ==> t[k] == s[i + k];
  }

  /** The title derived from the first line: without a leading run of `#` and
      the white space after it, trimmed. */
  function HeadingText(line: string): (r: string)
    ensures IsTrimmed(r) && |r| <= |line|
  {
    Trim(if line != [] && line[0] == '#' then TrimStart(DropLeading(line, '#')) else line)
  }

  /** The summary derived from the content: the first three lines joined by
      spaces, cut to 150 characters, followed by `...`. */
  function Excerpt(content: string): (r: string)
    ensures |r| <= 153 && EndsWith(r, "...")
    ensures var lines := Split(content, "\n");
            var joined := Join(lines[..Min(3, |lines|)], " ");
            StartsWith(joined, r[..|r| - 3])
  {
    var lines := Split(content, "\n");
    var joined := Join(lines[..Min(3, |lines|)], " ");
    joined[..Min(150, |joined|)] + "..."
  }

  datatype FormattedDocument = FormattedDocument(
    id: string, title: string, summary: string, sections: seq<FormattedSection>,
    source: string, docType: string)

  /** The body of formatDocumentContent's loop: one paragraph. */
  method AddParagraph(sections0: seq<FormattedSection>, current0: Option<FormattedSection>, para: string)
    returns (sections: seq<FormattedSection>, currentSection: Option<FormattedSection>)
    ensures FormatState(sections, currentSection) == FormatStep(FormatState(sections0, current0), para)
  {
    sections, currentSection := sections0, current0;
    ghost var st0 := FormatState(sections0, current0);
    var (title, sectionContent) := ColonParts(para);
    match Classify(para)
    case Header =>
      if currentSection.Some? {
        sections := sections + [currentSection.value];
      } else {
        assert sections + Open(currentSection) == sections;
      }
      currentSection := Some(FormattedSection(SectionKind, Str(""), Some(HeaderTitle(para))));
    case ColonList =>
      var listItems := ListItems(sectionContent);
      assert FormatStep(st0, para) == AddItems(st0, title, listItems);
      if currentSection.Some? {
        var kept := if currentSection.value.content.Strs? then currentSection.value.content.items else [];
        currentSection := Some(currentSection.value.(content := Strs(kept + listItems)));
      } else {
        sections := sections + [FormattedSection(ListKind, Strs(listItems), Some(title))];
      }
    case ColonKeyValue =>
      var keyValuePairs := ParseKeyValue(para);
      assert FormatStep(st0, para) == st0.(sections := st0.sections + [FormattedSection(KeyValueKind, Obj(keyValuePairs), Some(title))]);
      sections := sections + [FormattedSection(KeyValueKind, Obj(keyValuePairs), Some(title))];
    case ColonTable =>
      assert FormatStep(st0, para) == st0.(sections := st0.sections + [FormattedSection(TableKind, Str(sectionContent), Some(title))]);
      sections := sections + [FormattedSection(TableKind, Str(sectionContent), Some(title))];
    case ColonText =>
      if currentSection.Some? {
        var c := currentSection.value;
        currentSection := Some(c.(content := AppendText(c.content, "\n\n" + title + ":\n" + sectionContent)));
      } else {
        sections := sections + [FormattedSection(TextKind, Str(sectionContent), Some(title))];
      }
    case Fence =>
      assert FormatStep(st0, para) == st0.(sections := st0.sections + [CodeBlock(para)]);
      sections := sections + [CodeBlock(para)];
    case Plain =>
      if currentSection.Some? {
        var c := currentSection.value;
        currentSection := Some(c.(content := AppendText(c.content, "\n\n" + para)));
      } else {
        sections := sections + [FormattedSection(TextKind, Str(para), None)];
      }
  }

  /** formatDocumentContent: the paragraphs are classified one by one, with at
      most one bold section open at a time. */
  method FormatDocumentContent(meta: Metadata, content: string) returns (doc: FormattedDocument)
    ensures doc.sections == SectionsOf(Paragraphs(content))
    ensures |doc.sections| <= |Paragraphs(content)|
    ensures doc.id == Or(meta.source, Slug(FirstLine(content)))
    ensures doc.title == Or(meta.title, HeadingText(FirstLine(content)))
    ensures doc.summary == Or(meta.summary, Excerpt(content))
    ensures doc.source == Or(meta.source, "unknown") && doc.docType == Or(meta.docType, "document")
  {
    var sections: seq<FormattedSection> := [];
    var paragraphs := Paragraphs(content);
    var currentSection: Option<FormattedSection> := None;
    for i := 0 to |paragraphs|
      invariant FormatState(sections, currentSection) == FormatRun(paragraphs[..i])
    {
      FormatRunSnoc(paragraphs, i);
      sections, currentSection := AddParagraph(sections, currentSection, paragraphs[i]);
    }
    assert paragraphs[..|paragraphs|] == paragraphs;
    if currentSection.Some? {
      sections := sections + [currentSection.value];
    }
    SectionCount(paragraphs);
    var firstLine := FirstLine(content);
    doc := FormattedDocument(
      Or(meta.source, Slug(firstLine)),
      Or(meta.title, HeadingText(firstLine)),
      Or(meta.summary, Excerpt(content)),
      sections,
      Or(meta.source, "unknown"),
      Or(meta.docType, "document"));
  }

  // ---------------------------------------------------------------------
  // formattedDocumentToText

  /** `items.map(item => "- " + item)`. */
  function Bullets(items: seq<string>): (r: seq<string>)
    ensures |r| == |items| && forall i :: 0 <= i < |items| ==> r[i] == "- " + items[i]
  {
    seq(|items|, i requires 0 <= i < |items| => "- " + items[i])
  }

  function RenderValue(v: Value): string {
    match v
    case Many(items) => Join(Bullets(items), "\n")
    case Single(t) => t
  }

  /** The text of a key-value object: per entry, the bold key and a colon on
      one line, then the value, then a blank line. */
  function RenderFields(fields: Record): string
    decreases |fields|
  {
    if fields == [] then ""
    else
      RenderFields(fields[..|fields| - 1]) + FieldText(fields[|fields| - 1].0, fields[|fields| - 1].1)
  }

  function FieldText(key: string, v: Value): string {
    "**" + key + "**:\n" + RenderValue(v) + "\n\n"
  }

  /** A title counts when it is a non-empty string. */
  predicate HasTitle(s: FormattedSection) { s.title.Some? && s.title.value != "" }

  function TitleLine(s: FormattedSection): string {
    if HasTitle(s) then "## " + s.title.value + "\n\n" else ""
  }

  /** The text of a section's content; an object in a section that is not a
      key-value section goes through `JSON.stringify(content, null, 2)`. */
  function RenderContent(s: FormattedSection, stringify: Record -> string): string {
    match s.content
    case Strs(items) => Join(Bullets(items), "\n")
    case Obj(fields) => if s.kind == KeyValueKind then RenderFields(fields) else stringify(fields)
    case Str(t) => t
  }

  function RenderSection(s: FormattedSection, stringify: Record -> string): string {
    TitleLine(s) + RenderContent(s, stringify) + "\n\n"
  }

  function RenderAll(sections: seq<FormattedSection>, stringify: Record -> string): string
    decreases |sections|
  {
    if sections == [] then ""
    else RenderAll(sections[..|sections| - 1], stringify) + RenderSection(sections[|sections| - 1], stringify)
  }

  function DocumentHead(doc: FormattedDocument): string {
    "# " + doc.title + "\n\n" + doc.summary + "\n\n"
  }

  /** formattedDocumentToText, appending section by section. */
  method FormattedDocumentToText(doc: FormattedDocument, stringify: Record -> string) returns (text: string)
    ensures text == Trim(DocumentHead(doc) + RenderAll(doc.sections, stringify))
  {
    var result := "# " + doc.title + "\n\n" + doc.summary + "\n\n";
    for i := 0 to |doc.sections|
      invariant result == DocumentHead(doc) + RenderAll(doc.sections[..i], stringify)
    {
      RenderAllSnoc(doc.sections, i, stringify);
      var section := doc.sections[i];
      ghost var before := result;
      if section.title.Some? && section.title.value != "" {
        result := result + ("## " + section.title.value + "\n\n");
      }
      assert result == before + TitleLine(section);
      ghost var afterTitle := result;
      match section.content {
        case Strs(items) =>
          result := result + Join(Bullets(items), "\n");
        case Obj(fields) =>
          if section.kind == KeyValueKind {
            result := AppendFields(result, fields);
          } else {
            result := result + stringify(fields);
          }
        case Str(t) =>
          result := result + t;
      }
      assert result == afterTitle + RenderContent(section, stringify);
      result := result + "\n\n";
      Assoc(before, TitleLine(section), RenderContent(section, stringify));
      Assoc(before, TitleLine(section) + RenderContent(section, stringify), "\n\n");
      Assoc(DocumentHead(doc), RenderAll(doc.sections[..i], stringify), RenderSection(section, stringify));
    }
    assert doc.sections[..|doc.sections|] == doc.sections;
    text := Trim(result);
  }

  /** The loop over the entries of a key-value section. */
  method AppendFields(result0: string, fields: Record) returns (result: string)
    ensures result == result0 + RenderFields(fields)
  {
    result := result0;
    for j := 0 to |fields|
      invariant result == result0 + RenderFields(fields[..j])
    {
      RenderFieldsSnoc(fields, j);
      ghost var start := result;
      var (key, value) := fields[j];
      result := result + ("**" + key + "**:\n");
      match value {
        case Many(items) =>
          result := result + Join(Bullets(items), "\n");
        case Single(t) =>
          result := result + t;
      }
      result := result + "\n\n";
      Assoc(start, "**" + key + "**:\n", RenderValue(value));
      Assoc(start, "**" + key + "**:\n" + RenderValue(value), "\n\n");
      Assoc(result0, RenderFields(fields[..j]), FieldText(key, value));
    }
    assert fields[..|fields|] == fields;
  }

  lemma RenderFieldsSnoc(fields: Record, j: nat)
    requires j < |fields|
    ensures RenderFields(fields[..j + 1]) == RenderFields(fields[..j]) + FieldText(fields[j].0, fields[j].1)
  {
    assert fields[..j + 1][..j] == fields[..j];
  }

  lemma RenderAllSnoc(sections: seq<FormattedSection>, i: nat, stringify: Record -> string)
    requires i < |sections|
    ensures RenderAll(sections[..i + 1], stringify) == RenderAll(sections[..i], stringify) + RenderSection(sections[i], stringify)
  {
    assert sections[..i + 1][..i] == sections[..i];
  }

  lemma Assoc(a: string, b: string, c: string)
    ensures a + b + c == a + (b + c)
  {
  }

  /** Rendering splits over a concatenation of section lists. */
  lemma {:induction false} RenderAllAppend(a: seq<FormattedSection>, b: seq<FormattedSection>, stringify: Record -> string)
    ensures RenderAll(a + b, stringify) == RenderAll(a, stringify) + RenderAll(b, stringify)
    decreases |b|
  {
    if b == [] {
      assert a + b == a;
    } else {
      var init, last := b[..|b| - 1], b[|b| - 1];
      SnocOfAppend(a, b);
      RenderAllAppend(a, init, stringify);
      assert RenderAll(a + b, stringify) == RenderAll(a + init, stringify) + RenderSection(last, stringify);
      assert RenderAll(b, stringify) == RenderAll(init, stringify) + RenderSection(last, stringify);
      Assoc(RenderAll(a, stringify), RenderAll(init, stringify), RenderSection(last, stringify));
    }
  }

  /** The last element of `a + b` is that of `b`, and what comes before it is `a` and the rest of `b`. */
  lemma SnocOfAppend<T>(a: seq<T>, b: seq<T>)
    requires b != []
    ensures (a + b)[..|a + b| - 1] == a + b[..|b| - 1] && (a + b)[|a + b| - 1] == b[|b| - 1]
  {
  }

  lemma SliceOfConcat(a: string, b: string, c: string)
    ensures (a + (b + c))[|a|..|a| + |b|] == b
  {
  }

  /** Every section with a trimmed, non-empty title shows it as a `## ` heading
      in the rendered text. */
  lemma TitleRendered(doc: FormattedDocument, stringify: Record -> string, k: nat)
    requires k < |doc.sections| && HasTitle(doc.sections[k]) && IsTrimmed(doc.sections[k].title.value)
    ensures Contains(Trim(DocumentHead(doc) + RenderAll(doc.sections, stringify)), "## " + doc.sections[k].title.value)
  {
    var p := TitleAt(doc, stringify, k);
    ContainsTrim(DocumentHead(doc) + RenderAll(doc.sections, stringify), "## " + doc.sections[k].title.value, p);
  }

  /** Where a section's heading sits in the text before the final trim. */
  lemma TitleAt(doc: FormattedDocument, stringify: Record -> string, k: nat) returns (p: nat)
    requires k < |doc.sections| && HasTitle(doc.sections[k])
    ensures var whole := DocumentHead(doc) + RenderAll(doc.sections, stringify);
            var t := "## " + doc.sections[k].title.value;
            p + |t| <= |whole| && whole[p..p + |t|] == t
  {
    var ss := doc.sections;
    var t := "## " + ss[k].title.value;
    RenderAllAt(ss, k, stringify);
    TitledSection(ss[k], stringify);
    var rest := SectionAfterHeading(ss[k], stringify) + RenderAll(ss[k + 1..], stringify);
    var pre := DocumentHead(doc) + RenderAll(ss[..k], stringify);
    Assoc(t, SectionAfterHeading(ss[k], stringify), RenderAll(ss[k + 1..], stringify));
    Assoc(DocumentHead(doc), RenderAll(ss[..k], stringify), t + rest);
    SliceOfConcat(pre, t, rest);
    p := |pre|;
  }

  /** The text of a titled section after the `## title` itself. */
  function SectionAfterHeading(s: FormattedSection, stringify: Record -> string): string {
    "\n\n" + RenderContent(s, stringify) + "\n\n"
  }

  lemma TitledSection(s: FormattedSection, stringify: Record -> string)
    requires HasTitle(s)
    ensures RenderSection(s, stringify) == "## " + s.title.value + SectionAfterHeading(s, stringify)
  {
    var t := "## " + s.title.value;
    var nn := "\n\n";
    var rc := RenderContent(s, stringify);
    Assoc(t, nn, rc);
    Assoc(t, nn + rc, nn);
  }

  /** The rendering of a list of sections, around its `k`-th section. */
  lemma RenderAllAt(ss: seq<FormattedSection>, k: nat, stringify: Record -> string)
    requires k < |ss|
    ensures RenderAll(ss, stringify) == RenderAll(ss[..k], stringify) + (RenderSection(ss[k], stringify) + RenderAll(ss[k + 1..], stringify))
  {
    var pre, x, post := ss[..k], [ss[k]], ss[k + 1..];
    SplitAround(ss, k);
    RenderAllAppend(pre, x + post, stringify);
    RenderAllAppend(x, post, stringify);
    RenderAllSingle(ss[k], stringify);
  }

  /** A sequence is what comes before its `k`-th element, that element, and what follows. */
  lemma SplitAround<T>(s: seq<T>, k: nat)
    requires k < |s|
    ensures s == s[..k] + ([s[k]] + s[k + 1..])
  {
  }

  lemma RenderAllSingle(s: FormattedSection, stringify: Record -> string)
    ensures RenderAll([s], stringify) == RenderSection(s, stringify)
  {
    assert [s][..0] == [];
    assert RenderAll([], stringify) == "";
  }
}
