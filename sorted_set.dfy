/**
 * Redis sorted sets, as the history store uses them: a set of distinct
 * members, each with a score, kept in ascending (score, member) order, with
 * members of equal score compared character by character. The set is
 * represented by its entries in that order.
 */
module SortedSet {
  import opened Wrappers

  datatype Entry = Entry(member: string, score: int)

  /** Lexicographic order on character codes (Redis compares members byte-wise). */
  predicate LexLess(a: string, b: string)
    decreases |a|
  {
    if a == [] then b != []
    else if b == [] then false
    else if a[0] != b[0] then a[0] < b[0]
    else LexLess(a[1..], b[1..])
  }

  lemma {:induction false} LexIrreflexive(a: string)
    ensures !LexLess(a, a)
  {
    if a != [] {
      LexIrreflexive(a[1..]);
    }
  }

  lemma {:induction false} LexTotal(a: string, b: string)
    requires a != b
    ensures LexLess(a, b) || LexLess(b, a)
  {
    if a != [] && b != [] && a[0] == b[0] {
      assert a == [a[0]] + a[1..] && b == [b[0]] + b[1..];
      LexTotal(a[1..], b[1..]);
    }
  }

  lemma {:induction false} LexTransitive(a: string, b: string, c: string)
    requires LexLess(a, b) && LexLess(b, c)
    ensures LexLess(a, c)
  {
    if a != [] && b != [] && c != [] && a[0] == b[0] && b[0] == c[0] {
      LexTransitive(a[1..], b[1..], c[1..]);
    }
  }

  /** The order of a sorted set: by score, then by member. */
  predicate Before(x: Entry, y: Entry) {
    x.score < y.score || (x.score == y.score && LexLess(x.member, y.member))
  }

  lemma BeforeIrreflexive(x: Entry)
    ensures !Before(x, x)
  {
    LexIrreflexive(x.member);
  }

  lemma BeforeTransitive(x: Entry, y: Entry, z: Entry)
    requires Before(x, y) && Before(y, z)
    ensures Before(x, z)
  {
    if x.score == y.score == z.score {
      LexTransitive(x.member, y.member, z.member);
    }
  }

  lemma BeforeTotal(x: Entry, y: Entry)
    requires x.member != y.member
    ensures Before(x, y) || Before(y, x)
  {
    LexTotal(x.member, y.member);
  }

  /** Entries in strictly ascending (score, member) order, each member once. */
  predicate Sorted(s: seq<Entry>) {
    forall i, j :: 0 <= i < j < |s| ==> Before(s[i], s[j])
  }

  predicate DistinctMembers(s: seq<Entry>) {
    forall i, j :: 0 <= i < j < |s| ==> s[i].member != s[j].member
  }

  /** The invariant of a sorted set's representation. */
  predicate IsSortedSet(s: seq<Entry>) { Sorted(s) && DistinctMembers(s) }

  function Members(s: seq<Entry>): (ms: seq<string>)
    ensures |ms| == |s| && forall i :: 0 <= i < |s| ==> ms[i] == s[i].member
  {
    seq(|s|, i requires 0 <= i < |s| => s[i].member)
  }

  predicate HasMember(s: seq<Entry>, m: string) { exists i :: 0 <= i < |s| && s[i].member == m }

  /** The entries whose member is not `m`, in their order. */
  function RemoveMember(s: seq<Entry>, m: string): (r: seq<Entry>)
    ensures forall x :: x in r <==> x in s && x.member != m
    ensures |r| <= |s|
  {
    if s == [] then []
    else if s[0].member == m then RemoveMember(s[1..], m)
    else [s[0]] + RemoveMember(s[1..], m)
  }

  lemma SortedCons(x: Entry, s: seq<Entry>)
    requires Sorted(s) && forall y :: y in s ==> Before(x, y)
    ensures Sorted([x] + s)
  {
    var t := [x] + s;
    forall i, j | 0 <= i < j < |t| ensures Before(t[i], t[j]) {
      if i > 0 {
        assert t[i] == s[i - 1] && t[j] == s[j - 1];
      } else {
        assert t[j] == s[j - 1];
      }
    }
  }

  lemma DistinctCons(x: Entry, s: seq<Entry>)
    requires DistinctMembers(s) && forall y :: y in s ==> y.member != x.member
    ensures DistinctMembers([x] + s)
  {
    var t := [x] + s;
    forall i, j | 0 <= i < j < |t| ensures t[i].member != t[j].member {
      assert t[j] == s[j - 1];
      if i > 0 {
        assert t[i] == s[i - 1];
      }
    }
  }

  lemma {:induction false} RemoveMemberKeeps(s: seq<Entry>, m: string)
    requires IsSortedSet(s)
    ensures IsSortedSet(RemoveMember(s, m))
  {
    if s != [] {
      RemoveMemberKeeps(s[1..], m);
      if s[0].member != m {
        forall y | y in RemoveMember(s[1..], m) ensures Before(s[0], y) && y.member != s[0].member {
          var k :| 0 <= k < |s[1..]| && s[1..][k] == y;
          assert s[k + 1] == y;
        }
        SortedCons(s[0], RemoveMember(s[1..], m));
        DistinctCons(s[0], RemoveMember(s[1..], m));
      }
    }
  }

  /** Inserts `e` at its place in the order. */
  function Insert(s: seq<Entry>, e: Entry): (r: seq<Entry>)
    ensures forall x :: x in r <==> x in s || x == e
    ensures |r| == |s| + 1
  {
    if s == [] then [e]
    else if Before(e, s[0]) then [e] + s
    else [s[0]] + Insert(s[1..], e)
  }

  lemma {:induction false} InsertKeeps(s: seq<Entry>, e: Entry)
    requires IsSortedSet(s) && !HasMember(s, e.member)
    ensures IsSortedSet(Insert(s, e))
  {
    if s != [] {
      assert s[0].member != e.member;
      if Before(e, s[0]) {
        forall y | y in s ensures Before(e, y) && y.member != e.member {
          var k :| 0 <= k < |s| && s[k] == y;
          if k > 0 {
            BeforeTransitive(e, s[0], y);
          }
        }
        SortedCons(e, s);
        DistinctCons(e, s);
      } else {
        BeforeTotal(e, s[0]);
        forall k | 0 <= k < |s[1..]| ensures s[1..][k].member != e.member {
          assert s[1..][k] == s[k + 1];
        }
        InsertKeeps(s[1..], e);
        forall y | y in Insert(s[1..], e) ensures Before(s[0], y) && y.member != s[0].member {
          if y != e {
            var k :| 0 <= k < |s[1..]| && s[1..][k] == y;
            assert s[k + 1] == y;
          }
        }
        SortedCons(s[0], Insert(s[1..], e));
        DistinctCons(s[0], Insert(s[1..], e));
      }
    }
  }

  /** ZADD of one member: a member already present takes the new score. */
  function Add(s: seq<Entry>, m: string, score: int): (r: seq<Entry>)
    ensures forall x :: x in r <==> (x in s && x.member != m) || x == Entry(m, score)
  {
    Insert(RemoveMember(s, m), Entry(m, score))
  }

  lemma AddKeeps(s: seq<Entry>, m: string, score: int)
    requires IsSortedSet(s)
    ensures IsSortedSet(Add(s, m, score))
  {
    RemoveMemberKeeps(s, m);
    var t := RemoveMember(s, m);
    forall k | 0 <= k < |t| ensures t[k].member != m {
      assert t[k] in t;
    }
    InsertKeeps(t, Entry(m, score));
  }

  lemma FirstIsElement(b: seq<Entry>)
    ensures b == [] || b[0] in b
  {
  }

  /** A sorted set's representation is determined by its entries: two
      representations holding the same entries are the same sequence. */
  lemma {:induction false} SortedUnique(a: seq<Entry>, b: seq<Entry>)
    requires Sorted(a) && Sorted(b)
    requires forall x :: x in a <==> x in b
    ensures a == b
  {
    if a == [] {
      FirstIsElement(b);
    } else {
      assert a[0] in a;
      assert b != [];
      assert b[0] in b;
      var i :| 0 <= i < |a| && a[i] == b[0];
      var j :| 0 <= j < |b| && b[j] == a[0];
      if i != 0 {
        assert Before(a[0], a[i]);
        assert j != 0 by {
          if j == 0 {
            BeforeIrreflexive(a[0]);
          }
        }
        assert Before(b[0], b[j]);
        BeforeTransitive(a[0], b[0], a[0]);
        BeforeIrreflexive(a[0]);
      }
      forall x ensures x in a[1..] <==> x in b[1..] {
        if x in a[1..] {
          var k :| 0 <= k < |a[1..]| && a[1..][k] == x;
          assert Before(a[0], a[k + 1]);
          BeforeIrreflexive(x);
          assert x in b;
        }
        if x in b[1..] {
          var k :| 0 <= k < |b[1..]| && b[1..][k] == x;
          assert Before(b[0], b[k + 1]);
          BeforeIrreflexive(x);
          assert x in a;
        }
      }
      SortedUnique(a[1..], b[1..]);
      assert a == [a[0]] + a[1..] && b == [b[0]] + b[1..];
    }
  }

  /** The score of a member, if the set holds it. */
  function ScoreOf(s: seq<Entry>, m: string): Option<int> {
    if s == [] then None
    else if s[0].member == m then Some(s[0].score)
    else ScoreOf(s[1..], m)
  }

  lemma {:induction false} ScoreOfIn(s: seq<Entry>, m: string)
    requires DistinctMembers(s)
    ensures ScoreOf(s, m) == None <==> !HasMember(s, m)
    ensures forall sc :: ScoreOf(s, m) == Some(sc) <==> Entry(m, sc) in s
  {
    if s != [] {
      assert DistinctMembers(s[1..]) by {
        forall i, j | 0 <= i < j < |s[1..]| ensures s[1..][i].member != s[1..][j].member {
          assert s[1..][i] == s[i + 1] && s[1..][j] == s[j + 1];
        }
      }
      ScoreOfIn(s[1..], m);
      if s[0].member != m {
        assert HasMember(s, m) ==> HasMember(s[1..], m) by {
          if HasMember(s, m) {
            var k :| 0 <= k < |s| && s[k].member == m;
            assert s[1..][k - 1].member == m;
          }
        }
        assert HasMember(s[1..], m) ==> HasMember(s, m) by {
          if HasMember(s[1..], m) {
            var k :| 0 <= k < |s[1..]| && s[1..][k].member == m;
            assert s[k + 1].member == m;
          }
        }
      } else {
        forall sc | Entry(m, sc) in s ensures sc == s[0].score {
          var k :| 0 <= k < |s| && s[k] == Entry(m, sc);
        }
      }
    }
  }

  /** The abstract effect of ZADD: the added member now has the given score,
      every other member keeps its score, and no member appears or disappears
      besides the added one. */
  lemma AddScores(s: seq<Entry>, m: string, score: int, x: string)
    requires IsSortedSet(s)
    ensures ScoreOf(Add(s, m, score), x) == if x == m then Some(score) else ScoreOf(s, x)
  {
    AddKeeps(s, m, score);
    var r := Add(s, m, score);
    ScoreOfIn(r, x);
    ScoreOfIn(s, x);
    if x == m {
      assert Entry(m, score) in r;
    } else {
      match ScoreOf(s, x)
      case Some(sc) => assert Entry(x, sc) in r;
      case None =>
        forall k | 0 <= k < |r| ensures r[k].member != x {
          assert r[k] in r;
          if r[k] in s {
            var k' :| 0 <= k' < |s| && s[k'] == r[k];
          }
        }
    }
  }

  /** The pair of positions `[lo, hi)` a rank range `start..stop` (inclusive,
      negative values counting from the end) selects, as ZRANGE and
      ZREMRANGEBYRANK normalise it. */
  function RankBounds(len: nat, start: int, stop: int): (b: (nat, nat))
    ensures b.0 <= b.1 <= len
  {
    var st := if start < 0 then start + len else start;
    var sp := if stop < 0 then stop + len else stop;
    var st := if st < 0 then 0 else st;
    if st > sp || st >= len then (0, 0)
    else (st, if sp >= len then len else sp + 1)
  }

  /** ZRANGE by rank. */
  function RangeByRank(s: seq<Entry>, start: int, stop: int): seq<Entry> {
    var b := RankBounds(|s|, start, stop);
    s[b.0..b.1]
  }

  /** ZREMRANGEBYRANK: what remains. */
  function RemoveRangeByRank(s: seq<Entry>, start: int, stop: int): seq<Entry> {
    var b := RankBounds(|s|, start, stop);
    s[..b.0] + s[b.1..]
  }

  lemma SubsequenceKeeps(s: seq<Entry>, lo: nat, hi: nat)
    requires IsSortedSet(s) && lo <= hi <= |s|
    ensures IsSortedSet(s[..lo] + s[hi..]) && IsSortedSet(s[lo..hi])
  {
    var t := s[..lo] + s[hi..];
    forall i, j | 0 <= i < j < |t| ensures Before(t[i], t[j]) && t[i].member != t[j].member {
      var i' := if i < lo then i else i + hi - lo;
      var j' := if j < lo then j else j + hi - lo;
      assert t[i] == s[i'] && t[j] == s[j'];
    }
  }
}
