/**
 * The pure helpers of the chat-message component: the text of a message's
 * content, the text of a code block's node tree, the choice between the
 * fenced and the inline style for code, and the guards of the action buttons
 * and of deletion. Rendering, animation, speech and the clipboard are not
 * part of the model.
 */
module ChatMessage {
  import opened Wrappers
  import opened Strings

  // ---------------------------------------------------------------------
  // the text of a message

  /** A message's `content` prop: absent, a string, or an object, which may
      have a `content` string. */
  datatype MessageContent = Absent | Plain(text: string) | Structured(content: Option<string>)

  /** JavaScript truthiness of the prop: an object is always truthy. */
  predicate Truthy(c: MessageContent) {
    match c
    case Absent => false
    case Plain(t) => t != ""
    case Structured(_) => true
  }

  /** `getContentAsString`. */
  function ContentText(c: MessageContent): (r: string)
    ensures c.Absent? ==> r == ""
    ensures c.Plain? ==> r == c.text
    ensures c.Structured? ==> r == (if c.content.Some? then c.content.value else "")
  {
    if !Truthy(c) then ""
    else match c {
      case Plain(t) => t
      case Structured(inner) => if inner.Some? then inner.value else ""
      case Absent => ""
    }
  }

  /** `showButtons`: the message is not loading and its content is truthy. */
  predicate ShowButtons(isLoading: bool, c: MessageContent) {
    !isLoading && Truthy(c)
  }

  /** For absent or string content, the buttons show exactly when there is
      text to copy and the message is not loading. */
  lemma ButtonsIffText(isLoading: bool, c: MessageContent)
    requires !c.Structured?
    ensures ShowButtons(isLoading, c) <==> !isLoading && ContentText(c) != ""
  {
  }

  /** An object without text still shows the buttons, with nothing to copy. */
  lemma ButtonsWithoutText()
    ensures ShowButtons(false, Structured(None)) && ContentText(Structured(None)) == ""
  {
  }

  /** What `onCopy` writes to the clipboard, if anything. */
  function CopiedText(c: MessageContent): (r: Option<string>)
    ensures r.Some? <==> ContentText(c) != ""
    ensures r.Some? ==> r.value == ContentText(c)
  {
    var text := ContentText(c);
    if text != "" then Some(text) else None
  }

  const ERROR_FALLBACK := "An error occurred"

  /** The text shown for an error message. */
  function ErrorText(c: MessageContent): (r: string)
    ensures r != ""
    ensures ContentText(c) != "" ==> r == ContentText(c)
  {
    var text := ContentText(c);
    if text != "" then text else ERROR_FALLBACK
  }

  /** `handleDelete`: the id passed to `onDelete`, when both are present and
      the id is not empty. */
  function DeleteCall(id: Option<string>, hasOnDelete: bool): (r: Option<string>)
    ensures r.Some? <==> id.Some? && id.value != "" && hasOnDelete
    ensures r.Some? ==> r.value == id.value
  {
    if id.Some? && id.value != "" && hasOnDelete then Some(id.value) else None
  }

  // ---------------------------------------------------------------------
  // the text of a code block

  /** A React node under a `pre` element: nothing (or another falsy value), a
      string, an array of nodes, an element with the node in its
      `props.children`, or any other value. */
  datatype Node = Empty | Text(s: string) | Many(children: seq<Node>) | Element(child: Node) | Other

  /** `getCodeContent`. */
  function CodeContent(n: Node): string {
    match n
    case Empty => ""
    case Text(s) => s
    case Many(cs) => Concat(seq(|cs|, i requires 0 <= i < |cs| => CodeContent(cs[i])))
    case Element(c) => CodeContent(c)
    case Other => ""
  }

  /** The string leaves of a node tree, left to right: the independent
      description of what a code block holds. */
  function Leaves(n: Node): seq<string> {
    match n
    case Text(s) => [s]
    case Many(cs) => LeavesAll(cs)
    case Element(c) => Leaves(c)
    case Empty => []
    case Other => []
  }

  function LeavesAll(cs: seq<Node>): seq<string>
    decreases cs
  {
    if cs == [] then [] else Leaves(cs[0]) + LeavesAll(cs[1..])
  }

  lemma ConcatAppend(a: seq<string>, b: seq<string>)
    ensures Concat(a + b) == Concat(a) + Concat(b)
  {
    if a != [] {
      ConcatAppend(a[1..], b);
      assert (a + b)[1..] == a[1..] + b;
    } else {
      assert a + b == b;
    }
  }

  /** The code's text is the concatenation of the tree's string leaves, left
      to right. */
  lemma {:induction false} CodeContentIsLeaves(n: Node)
    ensures CodeContent(n) == Concat(Leaves(n))
    decreases n, 1
  {
    match n {
      case Text(s) =>
      case Many(cs) =>
        ContentsAreLeaves(cs);
      case Element(c) =>
        CodeContentIsLeaves(c);
      case Empty =>
      case Other =>
    }
  }

  lemma {:induction false} ContentsAreLeaves(cs: seq<Node>)
    ensures Concat(seq(|cs|, i requires 0 <= i < |cs| => CodeContent(cs[i]))) == Concat(LeavesAll(cs))
    decreases cs, 0
  {
    if cs != [] {
      var texts := seq(|cs|, i requires 0 <= i < |cs| => CodeContent(cs[i]));
      var rest := seq(|cs| - 1, i requires 0 <= i < |cs| - 1 => CodeContent(cs[1..][i]));
      assert texts[1..] == rest;
      ContentsAreLeaves(cs[1..]);
      CodeContentIsLeaves(cs[0]);
      ConcatAppend(Leaves(cs[0]), LeavesAll(cs[1..]));
    }
  }

  /** Splitting an array of children splits the text. */
  lemma ArraySplits(a: seq<Node>, b: seq<Node>)
    ensures CodeContent(Many(a + b)) == CodeContent(Many(a)) + CodeContent(Many(b))
  {
    CodeContentIsLeaves(Many(a + b));
    CodeContentIsLeaves(Many(a));
    CodeContentIsLeaves(Many(b));
    LeavesAllAppend(a, b);
    ConcatAppend(LeavesAll(a), LeavesAll(b));
  }

  lemma {:induction false} LeavesAllAppend(a: seq<Node>, b: seq<Node>)
    ensures LeavesAll(a + b) == LeavesAll(a) + LeavesAll(b)
  {
    if a != [] {
      assert (a + b)[1..] == a[1..] + b;
      LeavesAllAppend(a[1..], b);
    } else {
      assert a + b == b;
    }
  }

  /** Wrapping a node in elements or one-element arrays leaves its text unchanged. */
  lemma WrappingTransparent(n: Node)
    ensures CodeContent(Element(n)) == CodeContent(n)
    ensures CodeContent(Many([n])) == CodeContent(n)
  {
    CodeContentIsLeaves(Many([n]));
    CodeContentIsLeaves(n);
    assert [n][1..] == [];
    assert LeavesAll([n]) == Leaves(n) + [] == Leaves(n);
  }

  // ---------------------------------------------------------------------
  // the style of a code element

  /** A prop value: a string, an array of values, or anything else. */
  datatype PropValue = PText(s: string) | PList(items: seq<PropValue>) | POther

  /** The props passed to the `code` renderer, by name, in order. */
  type Props = seq<(string, PropValue)>

  function Lookup(props: Props, key: string): (r: Option<PropValue>)
    ensures r.Some? ==> (key, r.value) in props
    ensures r.None? ==> forall i :: 0 <= i < |props| ==> props[i].0 != key
  {
    if props == [] then None
    else if props[0].0 == key then Some(props[0].1)
    else Lookup(props[1..], key)
  }

  /** The props left after destructuring the named ones out (`...props`). */
  function Without(props: Props, keys: seq<string>): (r: Props)
    ensures forall i :: 0 <= i < |r| ==> r[i].0 !in keys && r[i] in props
    ensures forall i :: 0 <= i < |props| && props[i].0 !in keys ==> props[i] in r
  {
    if props == [] then []
    else if props[0].0 in keys then Without(props[1..], keys)
    else [props[0]] + Without(props[1..], keys)
  }

  /** The rest props keep their order: dropping names distributes over
      concatenation. */
  lemma {:induction false} WithoutAppend(a: Props, b: Props, keys: seq<string>)
    ensures Without(a + b, keys) == Without(a, keys) + Without(b, keys)
    decreases |a|
  {
    if a == [] {
      assert a + b == b;
    } else {
      assert (a + b)[0] == a[0];
      assert (a + b)[1..] == a[1..] + b;
      WithoutAppend(a[1..], b, keys);
    }
  }

  /** Props none of whose names are dropped pass through unchanged. */
  lemma {:induction false} WithoutNoneDropped(props: Props, keys: seq<string>)
    requires forall i :: 0 <= i < |props| ==> props[i].0 !in keys
    ensures Without(props, keys) == props
    decreases |props|
  {
    if props != [] {
      WithoutNoneDropped(props[1..], keys);
    }
  }

  /** The class string the language is read from: `className`, `""` when absent. */
  function ClassString(props: Props): string {
    var c := Lookup(props, "className");
    if c.Some? && c.value.PText? then c.value.s else ""
  }

  /** `/language-(\w+)/.exec(s)`: the word after the first `language-` that
      is followed by a word character. */
  function LanguageMatch(s: string): (r: Option<string>)
    ensures r.Some? ==> r.value != [] && Contains(s, "language-" + r.value)
    decreases |s|
  {
    if |s| < 10 then None
    else if s[..9] == "language-" && IsWordChar(s[9]) then
      var w := WordPrefix(s[9..]);
      assert s[..9 + |w|] == "language-" + w;
      Some(w)
    else
      LanguageMatch(s[1..])
  }

  /** `language-` followed by a word character starts at index `i` of `s`. */
  predicate MatchAt(s: string, i: int) {
    0 <= i && i + 10 <= |s| && s[i..i + 9] == "language-" && IsWordChar(s[i + 9])
  }

  /** `i` is the leftmost index where the pattern matches. */
  predicate FirstMatchAt(s: string, i: int) {
    MatchAt(s, i) && forall j :: 0 <= j < i ==> !MatchAt(s, j)
  }

  /** Dropping the first character shifts every later match one to the left. */
  lemma MatchShift(s: string, i: int)
    requires 1 <= i && s != []
    ensures MatchAt(s, i) <==> MatchAt(s[1..], i - 1)
  {
    if i + 10 <= |s| {
      assert s[1..][i - 1..i + 8] == s[i..i + 9];
      assert s[1..][i + 8] == s[i + 9];
    }
  }

  /** `exec` finds a language exactly when the pattern matches somewhere, and
      then it is the longest word after the leftmost match. */
  lemma {:induction false} LanguageMatchFirst(s: string)
    ensures LanguageMatch(s).None? <==> forall i :: 0 <= i < |s| ==> !MatchAt(s, i)
    ensures LanguageMatch(s).Some? ==>
              exists i :: FirstMatchAt(s, i) && LanguageMatch(s).value == WordPrefix(s[i + 9..])
    decreases |s|
  {
    if |s| < 10 {
    } else if s[..9] == "language-" && IsWordChar(s[9]) {
      assert s[0..9] == s[..9];
      assert FirstMatchAt(s, 0);
    } else {
      assert s[0..9] == s[..9];
      assert !MatchAt(s, 0);
      var t := s[1..];
      LanguageMatchFirst(t);
      assert LanguageMatch(s) == LanguageMatch(t);
      forall i | 1 <= i < |s|
        ensures MatchAt(s, i) <==> MatchAt(t, i - 1)
      {
        MatchShift(s, i);
      }
      if LanguageMatch(t).None? {
        forall i | 0 <= i < |s|
          ensures !MatchAt(s, i)
        {
          if i >= 1 { assert !MatchAt(t, i - 1); }
        }
      } else {
        var k :| FirstMatchAt(t, k) && LanguageMatch(t).value == WordPrefix(t[k + 9..]);
        assert MatchAt(s, k + 1);
        forall j | 0 <= j < k + 1
          ensures !MatchAt(s, j)
        {
          if j >= 1 { assert !MatchAt(t, j - 1); }
        }
        assert t[k + 9..] == s[k + 1 + 9..];
        assert FirstMatchAt(s, k + 1);
      }
    }
  }

  /** The longest prefix of word characters. */
  function WordPrefix(s: string): (w: string)
    ensures |w| <= |s| && w == s[..|w|]
    ensures forall i :: 0 <= i < |w| ==> IsWordChar(w[i])
    ensures |w| < |s| ==> !IsWordChar(s[|w|])
  {
    if s != [] && IsWordChar(s[0]) then [s[0]] + WordPrefix(s[1..]) else []
  }

  /** A class value marks inline code when it is a string containing
      `inline`, or an array with such a string. */
  predicate MarksInline(v: PropValue) {
    match v
    case PText(s) => Contains(s, "inline")
    case PList(items) => exists i :: 0 <= i < |items| && items[i].PText? && Contains(items[i].s, "inline")
    case POther => false
  }

  datatype CodeStyle = FencedStyle(language: string) | InlineStyle

  /** The style as written: the class list is read from the rest of the
      props, after `className` and `children` were taken out of them. */
  function StyleAsWritten(props: Props): CodeStyle {
    var nodeClass := Lookup(Without(props, ["className", "children"]), "className");
    var isInline := nodeClass.Some? && MarksInline(nodeClass.value);
    var language := LanguageMatch(ClassString(props));
    if !isInline && language.Some? then FencedStyle(language.value) else InlineStyle
  }

  /** As written, no class marks code inline: the style depends on the
      language match alone. */
  lemma InlineNeverSeen(props: Props)
    ensures StyleAsWritten(props) ==
              (var language := LanguageMatch(ClassString(props));
               if language.Some? then FencedStyle(language.value) else InlineStyle)
  {
    var rest := Without(props, ["className", "children"]);
    assert forall i :: 0 <= i < |rest| ==> rest[i].0 != "className";
  }

  const INLINE_JS: Props := [("className", PText("language-js inline"))]

  /** A concrete case: code classed `language-js inline` gets the fenced style. */
  lemma InlineCodeFenced()
    ensures StyleAsWritten(INLINE_JS) == FencedStyle("js")
  {
    InlineNeverSeen(INLINE_JS);
    JsLanguage();
  }

  lemma JsLanguage()
    ensures LanguageMatch(ClassString(INLINE_JS)) == Some("js")
  {
    var s := "language-js inline";
    assert ClassString(INLINE_JS) == s;
    assert s[..9] == "language-" && IsWordChar(s[9]);
    JsWord(s[9..]);
  }

  lemma JsWord(w: string)
    requires w == "js inline"
    ensures WordPrefix(w) == "js"
  {
    assert WordPrefix(w[2..]) == [];
    assert WordPrefix(w[1..]) == [w[1]];
  }

  /** The style with the class list read from the `className` prop itself. */
  function Style(props: Props): (r: CodeStyle)
    ensures r.FencedStyle? <==>
              !(Lookup(props, "className").Some? && MarksInline(Lookup(props, "className").value)) &&
              LanguageMatch(ClassString(props)).Some?
    ensures r.FencedStyle? ==> Contains(ClassString(props), "language-" + r.language)
  {
    var nodeClass := Lookup(props, "className");
    var isInline := nodeClass.Some? && MarksInline(nodeClass.value);
    var language := LanguageMatch(ClassString(props));
    if !isInline && language.Some? then FencedStyle(language.value) else InlineStyle
  }

  /** With the correction, code classed `language-js inline` is inline. */
  lemma InlineCodeInline()
    ensures Style(INLINE_JS) == InlineStyle
  {
    var s := "language-js inline";
    assert s[12..18] == "inline";
    ContainsAt(s, "inline", 12);
    JsLanguage();
  }

  /** Without an inline mark, the corrected style is the style as written. */
  lemma StylesAgree(props: Props)
    requires !(Lookup(props, "className").Some? && MarksInline(Lookup(props, "className").value))
    ensures Style(props) == StyleAsWritten(props)
  {
    InlineNeverSeen(props);
  }
}
