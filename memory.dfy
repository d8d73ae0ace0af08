/**
 * The conversation memory of lib/memory.ts: a per-conversation history kept
 * in a Redis sorted set, and the embedding-cache and vector-search flow that
 * retrieves related content. Redis is modelled by `RedisStore.Redis`; the
 * clock, SHA-256, JSON, the embedding model and the vector index enter as
 * parameters (see `Services`).
 */
module Memory {
  import opened Wrappers
  import opened Strings
  import opened SortedSet
  import opened RedisStore
  import opened Json

  /** Identifies one conversation: a companion, a model and a user. */
  datatype CompanionKey = CompanionKey(companionName: string, modelName: string, userId: string)

  /** The Redis key of a conversation's history: the three fields joined by `-`. */
  function RedisCompanionKey(k: CompanionKey): (r: string)
    ensures |r| == |k.companionName| + |k.modelName| + |k.userId| + 2
  {
    k.companionName + "-" + k.modelName + "-" + k.userId
  }

  /** Cuts `s` at its first `c`. */
  function CutAtFirst(s: string, c: char): Option<(string, string)> {
    if s == [] then None
    else if s[0] == c then Some(([], s[1..]))
    else match CutAtFirst(s[1..], c)
      case None => None
      case Some(p) => Some(([s[0]] + p.0, p.1))
  }

  lemma {:induction false} CutAtFirstJoin(a: string, c: char, b: string)
    requires c !in a
    ensures CutAtFirst(a + [c] + b, c) == Some((a, b))
  {
    if a != [] {
      assert (a + [c] + b)[1..] == a[1..] + [c] + b;
      CutAtFirstJoin(a[1..], c, b);
      assert [a[0]] + a[1..] == a;
    }
  }

  /** Reads a history key back into its fields, cutting at the first two `-`. */
  function ParseCompanionKey(key: string): Option<CompanionKey> {
    match CutAtFirst(key, '-')
    case None => None
    case Some(p) =>
      match CutAtFirst(p.1, '-')
      case None => None
      case Some(q) => Some(CompanionKey(p.0, q.0, q.1))
  }

  /** The key is one-to-one on conversations whose companion and model names
      hold no `-`: the fields can be read back from it. */
  lemma CompanionKeyRoundTrip(k: CompanionKey)
    requires '-' !in k.companionName && '-' !in k.modelName
    ensures ParseCompanionKey(RedisCompanionKey(k)) == Some(k)
  {
    var rest := k.modelName + "-" + k.userId;
    assert RedisCompanionKey(k) == k.companionName + ['-'] + rest;
    CutAtFirstJoin(k.companionName, '-', rest);
    assert rest == k.modelName + ['-'] + k.userId;
    CutAtFirstJoin(k.modelName, '-', k.userId);
  }

  /** Without that restriction two conversations can share one history. */
  lemma CompanionKeyCollision()
    ensures RedisCompanionKey(CompanionKey("a-b", "c", "u")) == RedisCompanionKey(CompanionKey("a", "b-c", "u"))
  {
  }

  // ---------------------------------------------------------------------
  // The hex step of generateHash

  type Byte = b: int | 0 <= b < 256

  const HEX_DIGITS: string := "0123456789abcdef"

  /** `Number.prototype.toString(16)` of a byte: one or two lowercase digits. */
  function Radix16(b: Byte): string {
    if b < 16 then [HEX_DIGITS[b]] else [HEX_DIGITS[b / 16], HEX_DIGITS[b % 16]]
  }

  /** `padStart(n, c)`. */
  function PadStart(s: string, n: nat, c: char): (r: string)
    ensures |r| == if |s| >= n then |s| else n
  {
    if |s| >= n then s else seq(n - |s|, _ => c) + s
  }

  /** One byte as exactly two lowercase hex digits, high nibble first. */
  function ByteToHex(b: Byte): (r: string)
    ensures r == [HEX_DIGITS[b / 16], HEX_DIGITS[b % 16]]
  {
    PadStart(Radix16(b), 2, '0')
  }

  predicate IsLowerHex(c: char) { c in HEX_DIGITS }

  /** The digest bytes mapped to hex and joined. */
  function Hex(bytes: seq<Byte>): (r: string)
    ensures |r| == 2 * |bytes|
    ensures forall i :: 0 <= i < |r| ==> IsLowerHex(r[i])
  {
    if bytes == [] then "" else ByteToHex(bytes[0]) + Hex(bytes[1..])
  }

  function HexValue(c: char): (v: nat)
    requires IsLowerHex(c)
    ensures v < 16 && HEX_DIGITS[v] == c
  {
    if '0' <= c <= '9' then c as int - '0' as int else c as int - 'a' as int + 10
  }

  /** Reading a digit back gives the value it was written for. */
  lemma HexValueOfDigit(v: nat)
    requires v < 16
    ensures HexValue(HEX_DIGITS[v]) == v
  {
  }

  /** Reads hex digits back, two per byte. */
  function Unhex(s: string): (bytes: seq<Byte>)
    requires |s| % 2 == 0 && forall i :: 0 <= i < |s| ==> IsLowerHex(s[i])
  {
    if s == [] then [] else [HexValue(s[0]) * 16 + HexValue(s[1])] + Unhex(s[2..])
  }

  lemma {:induction false} UnhexHex(bytes: seq<Byte>)
    ensures Unhex(Hex(bytes)) == bytes
  {
    if bytes != [] {
      var b := bytes[0];
      var h := Hex(bytes);
      assert h == ByteToHex(b) + Hex(bytes[1..]);
      assert h[2..] == Hex(bytes[1..]);
      HexValueOfDigit(b / 16);
      HexValueOfDigit(b % 16);
      UnhexHex(bytes[1..]);
    }
  }

  /** Different digests give different hex strings. */
  lemma HexInjective(a: seq<Byte>, b: seq<Byte>)
    requires Hex(a) == Hex(b)
    ensures a == b
  {
    UnhexHex(a);
    UnhexHex(b);
  }

  // ---------------------------------------------------------------------
  // History window and trimming

  /** How many entries readLatestHistory returns. */
  const HISTORY_WINDOW: nat := 30

  /** The last `n` entries, oldest first. */
  function Latest(s: seq<Entry>, n: nat): (r: seq<Entry>)
    ensures |r| == Min(n, |s|) && r == s[|s| - |r|..]
  {
    s[|s| - Min(n, |s|)..]
  }

  /** The rank range readLatestHistory asks for selects the last 30 entries. */
  lemma LatestRange(s: seq<Entry>)
    ensures RangeByRank(s, if |s| > HISTORY_WINDOW then |s| - HISTORY_WINDOW else 0, -1) == Latest(s, HISTORY_WINDOW)
  {
  }

  /** The entries left by `limitHistory(maxItems)`: the `maxItems` highest
      ranked for a non-negative `maxItems`; a negative one drops the
      `-maxItems` lowest instead. */
  function KeepLatest(s: seq<Entry>, maxItems: int): (r: seq<Entry>)
    ensures maxItems >= 0 ==> r == Latest(s, maxItems)
    ensures maxItems < 0 ==> r == s[Min(-maxItems, |s|)..]
  {
    RemoveRangeByRank(s, 0, -maxItems - 1)
  }

  // ---------------------------------------------------------------------
  // Seeding

  /** The sorted set built by ZADDing line `i` with score `i`, in order. */
  function SeedEntries(lines: seq<string>): (r: seq<Entry>)
    ensures IsSortedSet(r) && (lines != [] ==> r != [])
    decreases |lines|
  {
    if lines == [] then []
    else
      var prev := SeedEntries(lines[..|lines| - 1]);
      AddKeeps(prev, lines[|lines| - 1], |lines| - 1);
      var r := Add(prev, lines[|lines| - 1], |lines| - 1);
      assert Entry(lines[|lines| - 1], |lines| - 1) in r;
      r
  }

  /** The position of the last occurrence of `m`. */
  function LastIndexOf(lines: seq<string>, m: string): Option<int>
    decreases |lines|
  {
    if lines == [] then None
    else if lines[|lines| - 1] == m then Some(|lines| - 1)
    else LastIndexOf(lines[..|lines| - 1], m)
  }

  /** Seeding gives every line the score of its last occurrence, and holds no
      other member. */
  lemma {:induction false} SeedScores(lines: seq<string>, m: string)
    ensures IsSortedSet(SeedEntries(lines))
    ensures ScoreOf(SeedEntries(lines), m) == LastIndexOf(lines, m)
    decreases |lines|
  {
    if lines != [] {
      var init := lines[..|lines| - 1];
      SeedScores(init, m);
      AddKeeps(SeedEntries(init), lines[|lines| - 1], |lines| - 1);
      AddScores(SeedEntries(init), lines[|lines| - 1], |lines| - 1, m);
    }
  }

  /** The sorted sets after seedChatHistory: untouched when the key exists. */
  function Seeded(zsets: map<string, seq<Entry>>, strings: map<string, string>, key: string, lines: seq<string>)
    : map<string, seq<Entry>>
  {
    if key in zsets || key in strings || lines == [] then zsets else zsets[key := SeedEntries(lines)]
  }

  /** Seeding twice in sequence is seeding once. */
  lemma SeedIdempotent(zsets: map<string, seq<Entry>>, strings: map<string, string>, key: string, lines: seq<string>)
    ensures Seeded(Seeded(zsets, strings, key, lines), strings, key, lines) == Seeded(zsets, strings, key, lines)
  {
  }

  // ---------------------------------------------------------------------
  // Embedding cache and vector search

  /** One match of a similarity search and its score. */
  datatype ScoredDocument = ScoredDocument(pageContent: string, score: real)

  /** What the vector index returns: an array, or something else. */
  datatype SearchReply = Documents(docs: seq<ScoredDocument>) | NotAnArray

  /** The external calls vectorSearch makes, in order. */
  datatype Call =
    | CacheGet(key: string)
    | CacheDelete(key: string)
    | CacheSet(key: string, payload: string)
    | Embed(text: string)
    | Search(filtered: bool)

  /** The behaviour of everything outside the model for one vectorSearch call. */
  datatype Services = Services(
    digest: string -> seq<Byte>,       // SHA-256 of the UTF-8 encoding
    clientReady: bool,                 // the vector client, index and embedder are created
    getFails: bool,                    // the cache GET throws
    parse: string -> Option<Json>,     // JSON.parse; None when it throws
    deleteFails: bool,                 // the cache DEL throws
    stringify: seq<real> -> string,    // JSON.stringify of a vector
    firstEmbed: Outcome<seq<real>>,    // the first embedQuery call
    secondEmbed: Outcome<seq<real>>,   // the second embedQuery call
    setFails: bool,                    // the cache SET throws
    storeReady: bool,                  // the vector store is opened
    filteredSearch: seq<real> -> Outcome<SearchReply>,   // top 3 with the fileName filter
    unfilteredSearch: seq<real> -> Outcome<SearchReply>) // top 3 without a filter

  /** The cache key: `embed:` and the hex SHA-256 of `fileName:history`. */
  function EmbeddingKey(digest: string -> seq<Byte>, fileName: string, history: string): (r: string)
    ensures StartsWith(r, "embed:") && |r| == 6 + 2 * |digest(fileName + ":" + history)|
  {
    "embed:" + Hex(digest(fileName + ":" + history))
  }

  /** A cached payload is usable when it parses to an array of numbers. */
  function CachedVector(parsed: Option<Json>): (r: Option<seq<real>>)
    ensures r.Some? <==> parsed.Some? && parsed.value.JArray? &&
                         forall i :: 0 <= i < |parsed.value.items| ==> parsed.value.items[i].JNumber?
    ensures r.Some? ==> |r.value| == |parsed.value.items| &&
                        forall i :: 0 <= i < |r.value| ==> parsed.value.items[i] == JNumber(r.value[i])
  {
    if parsed.Some? && parsed.value.JArray? && forall i :: 0 <= i < |parsed.value.items| ==> parsed.value.items[i].JNumber?
    then Some(seq(|parsed.value.items|, i requires 0 <= i < |parsed.value.items| => parsed.value.items[i].n))
    else None
  }

  datatype EmbeddingRun = EmbeddingRun(vector: Option<seq<real>>, cache: map<string, string>, calls: seq<Call>)

  /** The direct embedding attempt made after the cached path failed. */
  function Retry(cache: map<string, string>, calls: seq<Call>, text: string, attempt: Outcome<seq<real>>): EmbeddingRun {
    EmbeddingRun(if attempt.Returned? then Some(attempt.value) else None, cache, calls + [Embed(text)])
  }

  /** How vectorSearch obtains the embedding of `text` under cache key `key`. */
  function ObtainEmbedding(cache: map<string, string>, key: string, text: string, o: Services): EmbeddingRun {
    if o.getFails then Retry(cache, [CacheGet(key)], text, o.firstEmbed)
    else if key in cache && cache[key] != "" then
      match CachedVector(o.parse(cache[key]))
      case Some(v) => EmbeddingRun(Some(v), cache, [CacheGet(key)])
      case None =>
        Retry(if o.deleteFails then cache else cache - {key}, [CacheGet(key), CacheDelete(key)], text, o.firstEmbed)
    else
      match o.firstEmbed
      case Threw(_) => Retry(cache, [CacheGet(key), Embed(text)], text, o.secondEmbed)
      case Returned(v) =>
        var payload := o.stringify(v);
        EmbeddingRun(Some(v), if o.setFails then cache else cache[key := payload],
                     [CacheGet(key), Embed(text), CacheSet(key, payload)])
  }

  /** The filtered search, falling back to the unfiltered one when it throws. */
  function SearchIndex(v: seq<real>, o: Services): (seq<ScoredDocument>, seq<Call>) {
    match o.filteredSearch(v)
    case Returned(Documents(d)) => (d, [Search(true)])
    case Returned(NotAnArray) => ([], [Search(true)])
    case Threw(_) =>
      match o.unfilteredSearch(v)
      case Returned(Documents(d)) => (d, [Search(true), Search(false)])
      case _ => ([], [Search(true), Search(false)])
  }

  datatype SearchRun = SearchRun(docs: seq<ScoredDocument>, cache: map<string, string>, calls: seq<Call>)

  /** An argument that is a non-empty string. */
  predicate Given(arg: Option<string>) { arg.Some? && arg.value != "" }

  /** The whole of vectorSearch: result, cache afterwards, and calls made. */
  function VectorSearchRun(cache: map<string, string>, history: Option<string>, fileName: Option<string>, o: Services): SearchRun {
    if !Given(history) || !Given(fileName) || !o.clientReady then SearchRun([], cache, [])
    else
      var e := ObtainEmbedding(cache, EmbeddingKey(o.digest, fileName.value, history.value), history.value, o);
      if e.vector.None? || !o.storeReady then SearchRun([], e.cache, e.calls)
      else
        var s := SearchIndex(e.vector.value, o);
        SearchRun(s.0, e.cache, e.calls + s.1)
  }

  /** An empty or missing argument returns `[]` before touching the cache or the index. */
  lemma SearchGuard(cache: map<string, string>, history: Option<string>, fileName: Option<string>, o: Services)
    requires !Given(history) || !Given(fileName)
    ensures VectorSearchRun(cache, history, fileName, o) == SearchRun([], cache, [])
  {
  }

  /** A cached payload that parses to numbers is the embedding used: no
      embedding is computed and the cache is left as it was. */
  lemma CachedEmbeddingUsed(cache: map<string, string>, history: string, fileName: string, o: Services, v: seq<real>)
    requires history != "" && fileName != "" && o.clientReady && o.storeReady && !o.getFails
    requires var key := EmbeddingKey(o.digest, fileName, history);
             key in cache && cache[key] != "" && CachedVector(o.parse(cache[key])) == Some(v)
    ensures var run := VectorSearchRun(cache, Some(history), Some(fileName), o);
            run.cache == cache && run.docs == SearchIndex(v, o).0 &&
            forall c :: c in run.calls ==> !c.Embed? && !c.CacheSet?
  {
  }

  /** A cached payload that does not parse to numbers is deleted, the vector is
      computed afresh, and the fresh vector is not written back. */
  lemma InvalidCachePurged(cache: map<string, string>, history: string, fileName: string, o: Services)
    requires history != "" && fileName != "" && o.clientReady && !o.getFails && !o.deleteFails
    requires var key := EmbeddingKey(o.digest, fileName, history);
             key in cache && cache[key] != "" && CachedVector(o.parse(cache[key])).None?
    ensures var key := EmbeddingKey(o.digest, fileName, history);
            var e := ObtainEmbedding(cache, key, history, o);
            key !in e.cache && e.cache == cache - {key} &&
            e.vector == (if o.firstEmbed.Returned? then Some(o.firstEmbed.value) else None) &&
            e.calls == [CacheGet(key), CacheDelete(key), Embed(history)]
  {
  }

  /** A failed cache write does not change what vectorSearch returns. */
  lemma CacheWriteFailureHarmless(cache: map<string, string>, history: Option<string>, fileName: Option<string>, o: Services)
    ensures VectorSearchRun(cache, history, fileName, o.(setFails := true)).docs ==
            VectorSearchRun(cache, history, fileName, o.(setFails := false)).docs
  {
  }

  /** When the filtered search throws, the unfiltered search decides the result;
      a reply that is not an array, or a second failure, gives `[]`. */
  lemma FilteredSearchFallback(v: seq<real>, o: Services)
    requires o.filteredSearch(v).Threw?
    ensures SearchIndex(v, o).0 == match o.unfilteredSearch(v)
                                   case Returned(Documents(d)) => d
                                   case _ => []
  {
  }

  /** Whatever vectorSearch returns that is not empty is the reply of one of
      the two searches. */
  lemma SearchResultProvenance(cache: map<string, string>, history: Option<string>, fileName: Option<string>, o: Services)
    ensures var docs := VectorSearchRun(cache, history, fileName, o).docs;
            docs == [] || exists v :: o.filteredSearch(v) == Returned(Documents(docs)) ||
                                       o.unfilteredSearch(v) == Returned(Documents(docs))
  {
    var run := VectorSearchRun(cache, history, fileName, o);
    if run.docs != [] {
      var e := ObtainEmbedding(cache, EmbeddingKey(o.digest, fileName.value, history.value), history.value, o);
      var v := e.vector.value;
      assert o.filteredSearch(v) == Returned(Documents(run.docs)) || o.unfilteredSearch(v) == Returned(Documents(run.docs));
    }
  }

  // ---------------------------------------------------------------------
  // The memory manager

  class MemoryManager {
    const history: Redis

    ghost predicate Valid()
      reads this, history
    {
      history.Valid()
    }

    constructor (store: Redis)
      requires store.Valid()
      ensures Valid() && history == store
    {
      history := store;
    }

    /** writeToHistory: adds `text` scored by the clock reading `now`; a
        conversation without a user is not written to. */
    method WriteToHistory(text: string, key: CompanionKey, now: int) returns (written: bool)
      requires Valid()
      modifies history
      ensures Valid()
      ensures written <==> key.userId != ""
      ensures !written ==> unchanged(history)
      ensures written ==> history.zsets == old(history.zsets)[RedisCompanionKey(key) := Add(old(history.Entries(RedisCompanionKey(key))), text, now)]
      ensures history.strings == old(history.strings)
    {
      if key.userId == "" {
        return false;
      }
      history.ZAdd(RedisCompanionKey(key), text, now);
      return true;
    }

    /** readLatestHistory: the last 30 members, oldest first, one per line. */
    method ReadLatestHistory(key: CompanionKey) returns (text: string)
      requires Valid()
      ensures key.userId == "" ==> text == ""
      ensures key.userId != "" ==> text == Join(Members(Latest(history.Entries(RedisCompanionKey(key)), HISTORY_WINDOW)), "\n")
    {
      if key.userId == "" {
        return "";
      }
      var k := RedisCompanionKey(key);
      var total := history.ZCard(k);
      var start := if total > HISTORY_WINDOW then total - HISTORY_WINDOW else 0;
      var result := history.ZRange(k, start, -1);
      LatestRange(history.Entries(k));
      text := Join(result, "\n");
    }

    /** seedChatHistory: when the key does not exist, ZADDs each
        `delimiter`-separated line of `seedContent` with scores 0, 1, 2, ... */
    method SeedChatHistory(seedContent: string, delimiter: string, key: CompanionKey)
      requires Valid()
      modifies history
      ensures Valid()
      ensures history.zsets == Seeded(old(history.zsets), old(history.strings), RedisCompanionKey(key), Split(seedContent, delimiter))
      ensures history.strings == old(history.strings)
    {
      var k := RedisCompanionKey(key);
      if history.Exists(k) {
        return;
      }
      var content := Split(seedContent, delimiter);
      AddLines(k, content);
    }

    /** The loop of seedChatHistory: ZADDs `content[i]` with score `i` under a
        key that does not exist yet. */
    method AddLines(k: string, content: seq<string>)
      requires Valid() && !history.Exists(k)
      modifies history
      ensures Valid() && history.strings == old(history.strings)
      ensures history.zsets == if content == [] then old(history.zsets) else old(history.zsets)[k := SeedEntries(content)]
    {
      var counter := 0;
      while counter < |content|
        invariant 0 <= counter <= |content|
        invariant history.Valid() && history.strings == old(history.strings)
        invariant counter == 0 ==> history.zsets == old(history.zsets)
        invariant counter > 0 ==> history.zsets == old(history.zsets)[k := SeedEntries(content[..counter])]
      {
        ghost var done := content[..counter];
        assert content[..counter + 1][..counter] == done;
        ghost var before := history.Entries(k);
        assert before == SeedEntries(done);
        history.ZAdd(k, content[counter], counter);
        assert history.zsets == old(history.zsets)[k := Add(SeedEntries(done), content[counter], counter)];
        counter := counter + 1;
      }
      assert content[..|content|] == content;
    }

    /** limitHistory: ZREMRANGEBYRANK key 0 -(maxItems + 1), keeping the
        `maxItems` highest-ranked members. */
    method LimitHistory(key: CompanionKey, maxItems: int)
      requires Valid()
      modifies history
      ensures Valid()
      ensures var k := RedisCompanionKey(key);
              var rest := KeepLatest(old(history.Entries(k)), maxItems);
              history.zsets == if rest == [] then old(history.zsets) - {k} else old(history.zsets)[k := rest]
      ensures history.strings == old(history.strings)
    {
      history.ZRemRangeByRank(RedisCompanionKey(key), 0, -maxItems - 1);
    }

    /** vectorSearch: the embedding comes from the cache when a valid one is
        stored there, and otherwise from the embedding model (a second direct
        attempt follows any failure on the cached path); the filtered search
        falls back to the unfiltered one; every failure degrades to `[]`. */
    method VectorSearch(recentChatHistory: Option<string>, companionFileName: Option<string>, o: Services)
      returns (docs: seq<ScoredDocument>, calls: seq<Call>)
      requires Valid()
      modifies history
      ensures Valid()
      ensures var run := VectorSearchRun(old(history.strings), recentChatHistory, companionFileName, o);
              docs == run.docs && calls == run.calls && history.strings == run.cache
      ensures forall k :: k in history.zsets ==> k in old(history.zsets) && history.zsets[k] == old(history.zsets)[k]
      ensures calls != [] ==>
                recentChatHistory.Some? && companionFileName.Some? &&
                (history.zsets == old(history.zsets) ||
                 history.zsets == old(history.zsets) - {EmbeddingKey(o.digest, companionFileName.value, recentChatHistory.value)})
      ensures calls == [] ==> unchanged(history)
    {
      if recentChatHistory.None? || recentChatHistory.value == "" {
        return [], [];
      }
      if companionFileName.None? || companionFileName.value == "" {
        return [], [];
      }
      if !o.clientReady {
        return [], [];
      }
      var text := recentChatHistory.value;
      var key := EmbeddingKey(o.digest, companionFileName.value, text);
      var embedding: seq<real> := [];
      var embedCalls := 0;
      var failed := false;
      calls := [CacheGet(key)];
      if o.getFails {
        failed := true;
      } else {
        var cached := history.Get(key);
        if cached.Some? && cached.value != "" {
          var parsed := CachedVector(o.parse(cached.value));
          if parsed.Some? {
            embedding := parsed.value;
          } else {
            calls := calls + [CacheDelete(key)];
            if !o.deleteFails {
              history.Del(key);
            }
            failed := true;
          }
        } else {
          calls := calls + [Embed(text)];
          embedCalls := 1;
          match o.firstEmbed
          case Threw(_) =>
            failed := true;
          case Returned(v) =>
            embedding := v;
            var payload := o.stringify(v);
            calls := calls + [CacheSet(key, payload)];
            if !o.setFails {
              history.Set(key, payload);
            }
        }
      }
      if failed {
        var attempt := if embedCalls == 0 then o.firstEmbed else o.secondEmbed;
        calls := calls + [Embed(text)];
        if attempt.Threw? {
          return [], calls;
        }
        embedding := attempt.value;
      }
      assert ObtainEmbedding(old(history.strings), key, text, o) == EmbeddingRun(Some(embedding), history.strings, calls);
      if !o.storeReady {
        return [], calls;
      }
      match o.filteredSearch(embedding)
      case Returned(reply) =>
        calls := calls + [Search(true)];
        docs := if reply.Documents? then reply.docs else [];
      case Threw(_) =>
        calls := calls + [Search(true), Search(false)];
        match o.unfilteredSearch(embedding)
        case Returned(reply) =>
          docs := if reply.Documents? then reply.docs else [];
        case Threw(_) =>
          docs := [];
    }
  }
}
