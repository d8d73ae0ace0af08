/**
 * The JavaScript string operations the modelled code relies on, written out
 * over `seq<char>`: `trim`, `startsWith`/`endsWith`/`includes`, `split` with a
 * string separator, `join`, the single `replace` of a string pattern, and an
 * ASCII `toLowerCase`.
 */
module Strings {

  /** The characters ECMAScript treats as white space or line terminators:
      the set removed by `trim` and matched by the regular-expression class `\s`. */
  predicate IsSpace(c: char) {
    c == '\t' || c == '\n' || c == '\U{000B}' || c == '\U{000C}' || c == '\r' || c == ' ' ||
    c == '\U{00A0}' || c == '\U{1680}' || ('\U{2000}' <= c <= '\U{200A}') ||
    c == '\U{2028}' || c == '\U{2029}' || c == '\U{202F}' || c == '\U{205F}' || c == '\U{3000}' ||
    c == '\U{FEFF}'
  }

  predicate IsAsciiLetter(c: char) { 'A' <= c <= 'Z' || 'a' <= c <= 'z' }

  predicate IsDigit(c: char) { '0' <= c <= '9' }

  /** The class `\w` of a regular expression: ASCII letters, digits and `_`. */
  predicate IsWordChar(c: char) { IsAsciiLetter(c) || IsDigit(c) || c == '_' }

  predicate AllSpace(s: string) { forall i :: 0 <= i < |s| ==> IsSpace(s[i]) }

  /** True when `s` has no white space at either end. */
  predicate IsTrimmed(s: string) { s == [] || (!IsSpace(s[0]) && !IsSpace(s[|s| - 1])) }

  function TrimStart(s: string): (r: string)
    ensures |r| <= |s| && r == s[|s| - |r|..]
    ensures r == [] || !IsSpace(r[0])
    ensures AllSpace(s[..|s| - |r|])
  {
    if s == [] then []
    else if IsSpace(s[0]) then TrimStart(s[1..])
    else s
  }

  function TrimEnd(s: string): (r: string)
    ensures |r| <= |s| && r == s[..|r|]
    ensures r == [] || !IsSpace(r[|r| - 1])
    ensures AllSpace(s[|r|..])
  {
    if s == [] then []
    else if IsSpace(s[|s| - 1]) then TrimEnd(s[..|s| - 1])
    else s
  }

  /** `String.prototype.trim`. */
  function Trim(s: string): (r: string)
    ensures |r| <= |s| && IsTrimmed(r)
  {
    TrimStart(TrimEnd(s))
  }

  /** Trim returns the text between the white-space margins of its argument. */
  lemma TrimSlice(s: string) returns (i: nat, j: nat)
    ensures i <= j <= |s| && Trim(s) == s[i..j]
    ensures AllSpace(s[..i]) && AllSpace(s[j..])
  {
    var e := TrimEnd(s);
    j := |e|;
    i := |e| - |TrimStart(e)|;
    assert s[..i] == e[..i];
  }

  /** A sequence is its three slices at `i` and `j`, put back together. */
  lemma SplitThree<T>(s: seq<T>, i: nat, j: nat)
    requires i <= j <= |s|
    ensures s == s[..i] + s[i..j] + s[j..]
  {
  }

  lemma TrimOfTrimmed(s: string)
    requires IsTrimmed(s)
    ensures Trim(s) == s
  {
  }

  predicate StartsWith(s: string, p: string) { |p| <= |s| && s[..|p|] == p }

  predicate EndsWith(s: string, p: string) { |p| <= |s| && s[|s| - |p|..] == p }

  /** `String.prototype.includes`: `t` occurs somewhere in `s`. */
  predicate Contains(s: string, t: string)
    decreases |s|
  {
    StartsWith(s, t) || (s != [] && Contains(s[1..], t))
  }

  lemma ContainsAt(s: string, t: string, k: nat)
    requires k + |t| <= |s| && s[k..k + |t|] == t
    ensures Contains(s, t)
  {
    if k > 0 {
      assert s[1..][k - 1..k - 1 + |t|] == t;
      ContainsAt(s[1..], t, k - 1);
    }
  }

  /** What text is in a string stays in it when more text is appended. */
  lemma {:induction false} ContainsPrefix(s: string, b: string, t: string)
    requires Contains(s, t)
    ensures Contains(s + b, t)
    decreases |s|
  {
    if StartsWith(s, t) {
      assert (s + b)[..|t|] == s[..|t|];
    } else {
      ContainsPrefix(s[1..], b, t);
      assert (s + b)[1..] == s[1..] + b;
    }
  }

  /** What text is in a string stays in it when more text is prepended. */
  lemma {:induction false} ContainsSuffix(a: string, s: string, t: string)
    requires Contains(s, t)
    ensures Contains(a + s, t)
    decreases |a|
  {
    if a == [] {
      assert a + s == s;
    } else {
      ContainsSuffix(a[1..], s, t);
      assert (a + s)[1..] == a[1..] + s;
    }
  }

  lemma ContainsChar(s: string, c: char)
    ensures Contains(s, [c]) <==> c in s
  {
    if s != [] {
      ContainsChar(s[1..], c);
      assert s == [s[0]] + s[1..];
    }
  }

  function Concat(parts: seq<string>): string {
    if parts == [] then "" else parts[0] + Concat(parts[1..])
  }

  /** `Array.prototype.join` over strings. */
  function Join(parts: seq<string>, sep: string): string {
    if |parts| == 0 then ""
    else if |parts| == 1 then parts[0]
    else parts[0] + sep + Join(parts[1..], sep)
  }

  /** What text is in one of the parts is in their join. */
  lemma {:induction false} JoinContains(xs: seq<string>, sep: string, k: nat, t: string)
    requires k < |xs| && Contains(xs[k], t)
    ensures Contains(Join(xs, sep), t)
    decreases |xs|
  {
    if |xs| > 1 {
      if k == 0 {
        ContainsPrefix(xs[0], sep, t);
        ContainsPrefix(xs[0] + sep, Join(xs[1..], sep), t);
      } else {
        JoinContains(xs[1..], sep, k - 1, t);
        ContainsSuffix(xs[0] + sep, Join(xs[1..], sep), t);
      }
    }
  }

  /** The result of `String(o)` for a plain object `o`. */
  function Min(a: int, b: int): int { if a < b then a else b }

  const OBJECT_TEXT := "[object Object]"

  lemma JoinCons(p: string, ps: seq<string>, sep: string)
    requires ps != []
    ensures Join([p] + ps, sep) == p + sep + Join(ps, sep)
  {
    assert ([p] + ps)[1..] == ps;
  }

  /** `String.prototype.split` with a non-empty string separator: the pieces
      between the left-to-right, non-overlapping occurrences of `d`. */
  function SplitOn(s: string, d: string): (parts: seq<string>)
    requires d != ""
    ensures |parts| >= 1
    decreases |s|
  {
    if |s| < |d| then [s]
    else if s[..|d|] == d then [""] + SplitOn(s[|d|..], d)
    else
      var rest := SplitOn(s[1..], d);
      [[s[0]] + rest[0]] + rest[1..]
  }

  /** `String.prototype.split` with a string separator; the empty separator
      splits into single characters. */
  function Split(s: string, d: string): (parts: seq<string>)
    ensures d != "" ==> |parts| >= 1
  {
    if d == "" then seq(|s|, i requires 0 <= i < |s| => [s[i]]) else SplitOn(s, d)
  }

  /** Putting a character in front of the first piece puts it in front of the join. */
  lemma JoinPrepend(c: char, parts: seq<string>, sep: string)
    requires parts != []
    ensures Join([[c] + parts[0]] + parts[1..], sep) == [c] + Join(parts, sep)
  {
    if |parts| > 1 {
      JoinCons([c] + parts[0], parts[1..], sep);
    }
  }

  /** Joining the pieces with the separator gives back the string split. */
  lemma {:induction false} JoinSplitOn(s: string, d: string)
    requires d != ""
    ensures Join(SplitOn(s, d), d) == s
    decreases |s|
  {
    if |s| < |d| {
    } else if s[..|d|] == d {
      JoinSplitOn(s[|d|..], d);
      JoinCons("", SplitOn(s[|d|..], d), d);
      assert s == d + s[|d|..];
    } else {
      JoinSplitOn(s[1..], d);
      JoinPrepend(s[0], SplitOn(s[1..], d), d);
      assert s == [s[0]] + s[1..];
    }
  }

  /** Splitting at a one-character separator peels off the text before its
      first occurrence. */
  lemma {:induction false} SplitOnCut(x: string, c: char, rest: string)
    requires c !in x
    ensures SplitOn(x + [c] + rest, [c]) == [x] + SplitOn(rest, [c])
    decreases |x|
  {
    var s := x + [c] + rest;
    if x == [] {
      assert s[..1] == [c] && s[1..] == rest;
    } else {
      assert x[0] in x;
      assert s[..1] == [x[0]];
      assert s[1..] == x[1..] + [c] + rest;
      SplitOnCut(x[1..], c, rest);
      assert [x[0]] + x[1..] == x;
    }
  }

  /** Splitting the join of pieces free of the separator gives the pieces back. */
  lemma {:induction false} SplitOnJoin(xs: seq<string>, c: char)
    requires xs != [] && forall k :: 0 <= k < |xs| ==> c !in xs[k]
    ensures SplitOn(Join(xs, [c]), [c]) == xs
    decreases |xs|
  {
    if |xs| == 1 {
      SplitOnNoSeparator(xs[0], c);
    } else {
      SplitOnJoin(xs[1..], c);
      SplitOnCut(xs[0], c, Join(xs[1..], [c]));
      assert [xs[0]] + xs[1..] == xs;
    }
  }

  lemma {:induction false} SplitOnNoSeparator(x: string, c: char)
    requires c !in x
    ensures SplitOn(x, [c]) == [x]
    decreases |x|
  {
    if |x| >= 1 {
      assert x[0] in x;
      assert x[..1] == [x[0]];
      SplitOnNoSeparator(x[1..], c);
      assert [x[0]] + x[1..] == x;
    }
  }

  /** Splitting at every character for which `isSep` holds (a one-character
      regular-expression alternation such as `/\n|,/`). */
  function SplitWhere(s: string, isSep: char -> bool): (parts: seq<string>)
    ensures |parts| >= 1
  {
    if s == [] then [""]
    else if isSep(s[0]) then [""] + SplitWhere(s[1..], isSep)
    else
      var rest := SplitWhere(s[1..], isSep);
      [[s[0]] + rest[0]] + rest[1..]
  }

  lemma {:induction false} SplitWherePieces(s: string, isSep: char -> bool)
    ensures forall k, i :: 0 <= k < |SplitWhere(s, isSep)| && 0 <= i < |SplitWhere(s, isSep)[k]| ==>
      !isSep(SplitWhere(s, isSep)[k][i])
  {
    if s != [] {
      SplitWherePieces(s[1..], isSep);
    }
  }

  lemma {:induction false} JoinSplitWhere(s: string, c: char, isSep: char -> bool)
    requires isSep(c) && forall x :: isSep(x) ==> x == c
    ensures Join(SplitWhere(s, isSep), [c]) == s
  {
    if s != [] {
      JoinSplitWhere(s[1..], c, isSep);
      if isSep(s[0]) {
        JoinCons("", SplitWhere(s[1..], isSep), [c]);
      } else {
        JoinPrepend(s[0], SplitWhere(s[1..], isSep), [c]);
      }
      assert s == [s[0]] + s[1..];
    }
  }

  /** Splitting at a separator character peels off the text before it. */
  lemma {:induction false} SplitWhereCut(x: string, c: char, rest: string, isSep: char -> bool)
    requires isSep(c) && forall i :: 0 <= i < |x| ==> !isSep(x[i])
    ensures SplitWhere(x + [c] + rest, isSep) == [x] + SplitWhere(rest, isSep)
    decreases |x|
  {
    var s := x + [c] + rest;
    if x == [] {
      assert s[1..] == rest;
    } else {
      assert s[1..] == x[1..] + [c] + rest;
      SplitWhereCut(x[1..], c, rest, isSep);
      assert [x[0]] + x[1..] == x;
    }
  }

  lemma {:induction false} SplitWhereWhole(x: string, isSep: char -> bool)
    requires forall i :: 0 <= i < |x| ==> !isSep(x[i])
    ensures SplitWhere(x, isSep) == [x]
    decreases |x|
  {
    if x != [] {
      SplitWhereWhole(x[1..], isSep);
      assert [x[0]] + x[1..] == x;
    }
  }

  /** Splitting the join of separator-free pieces gives the pieces back. */
  lemma {:induction false} SplitWhereJoin(xs: seq<string>, c: char, isSep: char -> bool)
    requires xs != [] && isSep(c)
    requires forall k, i :: 0 <= k < |xs| && 0 <= i < |xs[k]| ==> !isSep(xs[k][i])
    ensures SplitWhere(Join(xs, [c]), isSep) == xs
    decreases |xs|
  {
    if |xs| == 1 {
      SplitWhereWhole(xs[0], isSep);
    } else {
      SplitWhereJoin(xs[1..], c, isSep);
      SplitWhereCut(xs[0], c, Join(xs[1..], [c]), isSep);
      assert [xs[0]] + xs[1..] == xs;
    }
  }

  /** Drops the longest prefix whose characters all satisfy `p`. */
  function DropWhile(s: string, p: char -> bool): (r: string)
    ensures |r| <= |s| && r == s[|s| - |r|..]
    ensures r == [] || !p(r[0])
    ensures forall i :: 0 <= i < |s| - |r| ==> p(s[i])
  {
    if s != [] && p(s[0]) then
      var r := DropWhile(s[1..], p);
      assert s[|s| - |r|..] == s[1..][|s| - 1 - |r|..];
      assert forall i :: 1 <= i < |s| - |r| ==> s[i] == s[1..][i - 1];
      r
    else s
  }

  lemma {:induction false} DropWhilePrefix(x: string, t: string, p: char -> bool)
    requires forall i :: 0 <= i < |x| ==> p(x[i])
    ensures DropWhile(x + t, p) == DropWhile(t, p)
    decreases |x|
  {
    if x != [] {
      assert (x + t)[0] == x[0] && p(x[0]);
      assert (x + t)[1..] == x[1..] + t;
      DropWhilePrefix(x[1..], t, p);
    } else {
      assert x + t == t;
    }
  }

  /** `replace(/c/g, "")`: drops every occurrence of `c`. */
  function RemoveAll(s: string, c: char): (r: string)
    ensures |r| <= |s| && c !in r
    ensures c !in s ==> r == s
  {
    if s == [] then []
    else if s[0] == c then RemoveAll(s[1..], c)
    else [s[0]] + RemoveAll(s[1..], c)
  }

  /** `replace(c, "")` with a one-character string pattern: drops the first
      occurrence of `c`, if any. */
  function RemoveFirst(s: string, c: char): (r: string)
    ensures c in s ==> |r| == |s| - 1
    ensures c !in s ==> r == s
  {
    if s == [] then []
    else if s[0] == c then s[1..]
    else [s[0]] + RemoveFirst(s[1..], c)
  }

  /** `replace(/\*\*\/g, "")`: removes the left-to-right, non-overlapping
      occurrences of `**`. */
  function RemoveAllPairs(s: string, c: char): (r: string)
    ensures |r| <= |s|
  {
    if |s| < 2 then s
    else if s[0] == c && s[1] == c then RemoveAllPairs(s[2..], c)
    else [s[0]] + RemoveAllPairs(s[1..], c)
  }

  function LowerChar(c: char): char {
    if 'A' <= c <= 'Z' then (c as int + 32) as char else c
  }

  /** `toLowerCase`, on the ASCII letters. */
  function ToLower(s: string): (r: string)
    ensures |r| == |s|
    ensures forall i :: 0 <= i < |s| ==> r[i] == LowerChar(s[i])
  {
    seq(|s|, i requires 0 <= i < |s| => LowerChar(s[i]))
  }

  /** The decimal digits of a natural number, as `Number.prototype.toString`. */
  function NatToString(n: nat): (r: string)
    ensures r != [] && forall i :: 0 <= i < |r| ==> IsDigit(r[i])
  {
    if n < 10 then [('0' as int + n) as char]
    else NatToString(n / 10) + [('0' as int + n % 10) as char]
  }

  function IntToString(n: int): (r: string)
    ensures r != []
  {
    if n < 0 then "-" + NatToString(-n) else NatToString(n)
  }

  /** Keeps the strings that are not empty (`filter(s => s.length > 0)`). */
  function NonEmpty(xs: seq<string>): (r: seq<string>)
    ensures |r| <= |xs|
    ensures forall i :: 0 <= i < |r| ==> r[i] != "" && r[i] in xs
    ensures forall x :: x in xs && x != "" ==> x in r
  {
    if xs == [] then []
    else if xs[0] == "" then NonEmpty(xs[1..])
    else [xs[0]] + NonEmpty(xs[1..])
  }

  lemma {:induction false} NonEmptyKeepsAll(xs: seq<string>)
    requires forall i :: 0 <= i < |xs| ==> xs[i] != ""
    ensures NonEmpty(xs) == xs
  {
    if xs != [] {
      NonEmptyKeepsAll(xs[1..]);
      assert [xs[0]] + xs[1..] == xs;
    }
  }

  /** Keeps the strings that are not blank (`filter(s => s.trim() !== "")`). */
  function NonBlank(xs: seq<string>): (r: seq<string>)
    ensures |r| <= |xs|
    ensures forall i :: 0 <= i < |r| ==> Trim(r[i]) != "" && r[i] in xs
    ensures forall x :: x in xs && Trim(x) != "" ==> x in r
  {
    if xs == [] then []
    else if Trim(xs[0]) == "" then NonBlank(xs[1..])
    else [xs[0]] + NonBlank(xs[1..])
  }

  /** A string with a character that is not white space keeps it through trim. */
  lemma TrimNonBlank(s: string, k: nat)
    requires k < |s| && !IsSpace(s[k])
    ensures Trim(s) != ""
  {
    TrimEndKeeps(s, k);
    TrimStartKeeps(TrimEnd(s), k);
  }

  lemma {:induction false} TrimEndKeeps(s: string, k: nat)
    requires k < |s| && !IsSpace(s[k])
    ensures k < |TrimEnd(s)| && TrimEnd(s)[k] == s[k]
    decreases |s|
  {
    if IsSpace(s[|s| - 1]) {
      TrimEndKeeps(s[..|s| - 1], k);
    }
  }

  lemma {:induction false} TrimStartKeeps(s: string, k: nat)
    requires k < |s| && !IsSpace(s[k])
    ensures |s| - |TrimStart(s)| <= k
    decreases |s|
  {
    if IsSpace(s[0]) {
      TrimStartKeeps(s[1..], k - 1);
    }
  }

  /** Text that starts and ends with non-white-space characters survives trim. */
  lemma ContainsTrim(s: string, t: string, k: nat)
    requires t != [] && k + |t| <= |s| && s[k..k + |t|] == t
    requires !IsSpace(t[0]) && !IsSpace(t[|t| - 1])
    ensures Contains(Trim(s), t)
  {
    TrimEndKeepsSlice(s, t, k);
    TrimStartKeepsSlice(TrimEnd(s), t, k);
  }

  lemma TrimEndKeepsSlice(s: string, t: string, k: nat)
    requires t != [] && k + |t| <= |s| && s[k..k + |t|] == t && !IsSpace(t[|t| - 1])
    ensures k + |t| <= |TrimEnd(s)| && TrimEnd(s)[k..k + |t|] == t
  {
    assert s[k + |t| - 1] == t[|t| - 1];
    TrimEndKeeps(s, k + |t| - 1);
  }

  lemma TrimStartKeepsSlice(e: string, t: string, k: nat)
    requires t != [] && k + |t| <= |e| && e[k..k + |t|] == t && !IsSpace(t[0])
    ensures Contains(TrimStart(e), t)
  {
    assert e[k] == t[0];
    TrimStartKeeps(e, k);
    var ts := TrimStart(e);
    var d := |e| - |ts|;
    assert ts[k - d..k - d + |t|] == e[k..k + |t|];
    ContainsAt(ts, t, k - d);
  }

  /** `map(s => s.trim())`. */
  function TrimAll(xs: seq<string>): (r: seq<string>)
    ensures |r| == |xs| && forall i :: 0 <= i < |xs| ==> r[i] == Trim(xs[i])
  {
    seq(|xs|, i requires 0 <= i < |xs| => Trim(xs[i]))
  }
}
