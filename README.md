# AvatarAI core, modelled in Dafny

AvatarAI is a Next.js application. Users chat with AI companions, upload
documents that are chunked into a vector index, and generate interview
questions. This project models the parts of it that hold its logic:

- **Conversation memory** (`lib/memory.ts`). Each conversation keeps its
  history in a Redis sorted set under the key `companion-model-user`.
  Turns are written scored by a timestamp. The last 30 are read back, and
  the set is trimmed to a limit. A fresh conversation is seeded from
  delimiter-separated text. Related content is retrieved through a cached
  embedding and a filtered vector search.
  - The sorted set is `SortedSet`: distinct members ordered by (score,
    member), with the semantics of ZADD, ZCARD, ZRANGE and ZREMRANGEBYRANK.
  - The store is the class `RedisStore.Redis`. `Memory.MemoryManager`
    updates it in place.
  - The cache key is `embed:` followed by the lowercase hex (Base16,
    section 8 of RFC 4648) of a SHA-256 digest (FIPS 180-4). The digest
    is a parameter.
- **Document formatter** (`lib/utils/documentFormatter.ts`).
  - `parseKeyValue` is a line parser.
  - `formatDocumentContent` classifies paragraphs into sections and derives
    the id, title and summary.
  - `formattedDocumentToText` renders the sections back to Markdown-like text.

  Each loop is a method proved equal to a step function run over its input.
- **Document pipeline** (`lib/services/document.service.ts`): the cache
  key; the file-type dispatch; slide-text normalisation; the slide and notes
  enumeration loops; the text handed to the splitter; and the batching loop
  of the vector upload.
- **Interview generation** (`app/api/interviews/generate/route.ts`): the
  reply text taken from the SDK result, fence and bracket stripping,
  three-tier question parsing, tech-stack cleaning and error messages.
- **Chat service** (`lib/services/chat.service.ts`): converting a role-tagged
  conversation into the model's history, and the split between the history
  and the message sent.
- **Chat message helpers** (`components/chat-message.tsx`): the message
  text, code-block flattening, the inline/fenced code choice, and the
  button and delete guards.

Everything outside the process is a parameter: Redis failures, JSON
parsing and serialisation, SHA-256, the embedding model, the vector index,
the generative model, the file parsers and the database. A `Result` or
`Outcome` value carries what JavaScript would throw.

Two observations that are not findings:
- `processDocument` stores the formatted document under `doc:<id>`. The id
  is the file name, so for any non-empty file name this is the same key as
  the chunk cache. The second write replaces the first (`ProcessDocument`
  states this).
- `getCacheKey` on its own is not one-to-one: source `a:1` and page 1 of
  source `a` give the same key (`CacheKeysCollide`). Its only caller,
  `processDocument`, passes no page, so uploads with different names never
  share a key.

## Model

| member | source | states |
|---|---|---|
| SortedSet.LexIrreflexive | lib/memory.ts:166 | No member sorts before itself in the byte-wise member order Redis uses to break score ties. |
| SortedSet.LexTotal | lib/memory.ts:166 | Of two different members, one sorts before the other. |
| SortedSet.LexTransitive | lib/memory.ts:166 | The member order is transitive. |
| SortedSet.BeforeIrreflexive | lib/memory.ts:166 | The (score, member) order of a sorted set is irreflexive. |
| SortedSet.BeforeTransitive | lib/memory.ts:166 | The (score, member) order is transitive. |
| SortedSet.BeforeTotal | lib/memory.ts:166 | Any two entries with different members are ordered one way or the other. |
| SortedSet.Members | lib/memory.ts:175 | ZRANGE's reply lists the members of the selected entries, one for one, in order. |
| SortedSet.RemoveMember | lib/memory.ts:166 | Removing a member keeps exactly the other entries. |
| SortedSet.RemoveMemberKeeps | lib/memory.ts:166 | Removing a member keeps the set sorted and its members distinct. |
| SortedSet.Insert | lib/memory.ts:166 | Inserting an entry adds exactly that entry. |
| SortedSet.InsertKeeps | lib/memory.ts:166 | Inserting a new member at its place keeps the set sorted and distinct. |
| SortedSet.Add | lib/memory.ts:166 | ZADD leaves the other members as they were and gives the member the new score; re-adding a member updates its score. |
| SortedSet.AddKeeps | lib/memory.ts:166 | ZADD keeps the set sorted with distinct members. |
| SortedSet.SortedUnique | lib/memory.ts:166 | A sorted set is determined by its entries, so two sorted sets with the same entries are equal. |
| SortedSet.ScoreOfIn | lib/memory.ts:189 | A member has a score exactly when it is in the set, and that score is the one it is stored with. |
| SortedSet.AddScores | lib/memory.ts:189 | After ZADD, the added member has the new score and every other member keeps its score. |
| SortedSet.RankBounds | lib/memory.ts:174-175 | Redis rank arguments (negative ones count from the end) resolve to a range inside the set. |
| SortedSet.SubsequenceKeeps | lib/memory.ts:196 | Removing a rank range, or selecting one, keeps the set sorted and distinct. |
| RedisStore.Redis.Entries | lib/memory.ts:173-175 | The entries under a key always form a sorted set. |
| RedisStore.Redis.constructor | lib/memory.ts:18 | A new store holds no keys. |
| RedisStore.Redis.ZAdd | lib/memory.ts:166 | ZADD updates the one sorted set and nothing else. |
| RedisStore.Redis.ZCard | lib/memory.ts:173 | ZCARD is the number of members; a missing key counts 0. |
| RedisStore.Redis.ZRange | lib/memory.ts:175 | ZRANGE returns the members of the rank range in (score, member) order. |
| RedisStore.Redis.ZRemRangeByRank | lib/memory.ts:196 | ZREMRANGEBYRANK keeps the entries outside the range and deletes a key left empty. |
| RedisStore.Redis.Get | lib/memory.ts:78 | GET returns the stored string, or nothing. |
| RedisStore.Redis.Set | lib/memory.ts:95 | SET stores the string and replaces a sorted set under the same key. |
| RedisStore.Redis.Del | lib/memory.ts:88 | DEL removes the key of either kind. |
| Memory.RedisCompanionKey | lib/memory.ts:39-41 | The history key's length is the three fields' lengths plus two separators. |
| Memory.CompanionKeyRoundTrip | lib/memory.ts:39-41 | When companion and model names hold no `-`, the fields can be read back from the key, so the key is one-to-one. |
| Memory.CompanionKeyCollision | lib/memory.ts:39-41 | Otherwise two conversations can share a key: `a-b`/`c` and `a`/`b-c` collide. |
| Memory.CutAtFirstJoin | lib/memory.ts:39-41 | Cutting at the first separator undoes joining with it, when the first part has none. |
| Memory.PadStart | lib/memory.ts:46 | `padStart` gives at least the requested length. |
| Memory.ByteToHex | lib/memory.ts:46 | Each digest byte becomes exactly two lowercase hex digits, high nibble first. |
| Memory.Hex | lib/memory.ts:46-47 | The hex text has two lowercase digits per byte, so a 32-byte digest gives 64 characters. |
| Memory.HexValue | lib/memory.ts:46-47 | Each lowercase hex digit has the value it is written for. |
| Memory.HexValueOfDigit | lib/memory.ts:46-47 | Reading a written digit back gives its value. |
| Memory.UnhexHex | lib/memory.ts:46-47 | Decoding the hex text gives the digest back. |
| Memory.HexInjective | lib/memory.ts:46-47 | Different digests give different hex texts. |
| Memory.Latest | lib/memory.ts:170-177 | The window is the last min(n, size) entries, in order. |
| Memory.LatestRange | lib/memory.ts:173-175 | The rank range readLatestHistory computes (`total - 30` to `-1`) selects exactly the last 30 entries. |
| Memory.KeepLatest | lib/memory.ts:193-197 | limitHistory leaves the `maxItems` highest-ranked entries in their order; a negative limit drops the `-maxItems` lowest instead. |
| Memory.SeedEntries | lib/memory.ts:187-190 | Seeding yields a sorted set, non-empty when there are lines. |
| Memory.SeedScores | lib/memory.ts:186-190 | After seeding, every line has the index of its last occurrence as its score, and nothing else is a member. |
| Memory.SeedIdempotent | lib/memory.ts:184-191 | Seeding twice in a row is the same as seeding once. |
| Memory.EmbeddingKey | lib/memory.ts:73-74 | The cache key is `embed:` followed by two hex digits per digest byte. |
| Memory.CachedVector | lib/memory.ts:79-86 | A cached payload is used exactly when it parses to an array of numbers, and then it gives those numbers in order. |
| Memory.SearchGuard | lib/memory.ts:51-59 | A missing or empty argument returns `[]` without any cache or index call. |
| Memory.CachedEmbeddingUsed | lib/memory.ts:77-86 | A valid cached embedding is used as is: no embedding call, no cache write, and the cache is unchanged. |
| Memory.InvalidCachePurged | lib/memory.ts:82-109 | An invalid cached payload is deleted. One fresh embedding is computed and is not written back. |
| Memory.CacheWriteFailureHarmless | lib/memory.ts:91-99 | A failed cache write does not change what vectorSearch returns. |
| Memory.FilteredSearchFallback | lib/memory.ts:115-153 | When the filtered search throws, the unfiltered search decides the result. A non-array reply, or a second failure, gives `[]`. |
| Memory.SearchResultProvenance | lib/memory.ts:115-161 | Any non-empty result is exactly the reply of one of the two searches. |
| Memory.MemoryManager.constructor | lib/memory.ts:17-19 | The manager works on the given store. |
| Memory.MemoryManager.WriteToHistory | lib/memory.ts:163-168 | With a user, adds exactly one member scored by the given time to that conversation's set. Without a user, changes nothing. |
| Memory.MemoryManager.ReadLatestHistory | lib/memory.ts:170-177 | Returns the last 30 members in (score, member) order joined by line breaks; `""` without a user. |
| Memory.MemoryManager.SeedChatHistory | lib/memory.ts:179-191 | Leaves an existing key alone. Otherwise the set becomes the split lines scored 0..n-1. |
| Memory.MemoryManager.AddLines | lib/memory.ts:187-190 | The ZADD loop builds exactly the seeded set under the key. |
| Memory.MemoryManager.LimitHistory | lib/memory.ts:193-197 | Only the `maxItems` highest-ranked members remain, and nothing else changes. |
| Memory.MemoryManager.VectorSearch | lib/memory.ts:50-161 | The result, the call trace and the cache afterwards are those of the decision flow; the sorted sets stay as they were, apart from one stored under the embedding key itself, which the cache write or delete removes; an early return touches nothing. |
| DocumentFormatter.PutSpec | lib/utils/documentFormatter.ts:28 | Assigning a key in the result object sets that key and keeps the others. A new key goes last; a repeated key keeps its place, so keys stay distinct. |
| DocumentFormatter.Pack | lib/utils/documentFormatter.ts:28 | A key with exactly one value maps to that string, and otherwise to the list of values. |
| DocumentFormatter.KeyOfKeyLine | lib/utils/documentFormatter.ts:26-30 | A line matching the key pattern always opens a non-empty key. |
| DocumentFormatter.ParseKeyValue | lib/utils/documentFormatter.ts:18-48 | The loop computes the line-by-line run of the parser over the non-blank lines, then stores the open key. |
| DocumentFormatter.KvRunKeys | lib/utils/documentFormatter.ts:25-41 | The keys stored are distinct and non-empty, and each comes from a key line. |
| DocumentFormatter.ParseKeyValueKeys | lib/utils/documentFormatter.ts:18-48 | The same holds for the object parseKeyValue returns. |
| DocumentFormatter.LeadingValuesDiscarded | lib/utils/documentFormatter.ts:26-31 | Values gathered before the first key line are discarded. |
| DocumentFormatter.NoKeyNoRecord | lib/utils/documentFormatter.ts:25-41 | Without a key line nothing is stored and no key is open. |
| DocumentFormatter.ContinuationLine | lib/utils/documentFormatter.ts:34-40 | A plain line becomes the first value when none is pending. Otherwise it extends the last value by a space and the trimmed line. |
| DocumentFormatter.AppendText | lib/utils/documentFormatter.ts:117-139 | `content +=` turns list content into its comma-joined text before appending. |
| DocumentFormatter.SplitParagraphs | lib/utils/documentFormatter.ts:55 | Splitting at blank lines always gives at least one piece. |
| DocumentFormatter.ListItems | lib/utils/documentFormatter.ts:77-80 | List items are non-empty. |
| DocumentFormatter.CodeBlock | lib/utils/documentFormatter.ts:128-135 | A fence paragraph becomes a code section with a non-empty title. |
| DocumentFormatter.CodeBlockShape | lib/utils/documentFormatter.ts:128-135 | For a fence with a language line, the title is that line trimmed, and the content is the lines between it and the closing line, trimmed. |
| DocumentFormatter.AddParagraph | lib/utils/documentFormatter.ts:58-145 | One loop step does what the classification of the paragraph prescribes, in the fixed order header, colon list/keyValue/table/text, fence, plain. |
| DocumentFormatter.FormatRunCount | lib/utils/documentFormatter.ts:58-150 | Each paragraph adds at most one section, counting the open one. |
| DocumentFormatter.SectionCount | lib/utils/documentFormatter.ts:55-150 | There are never more sections than non-blank paragraphs. |
| DocumentFormatter.HeaderStaysOpen | lib/utils/documentFormatter.ts:59-69 | After the last bold header, its section stays open with its kind and title. |
| DocumentFormatter.LastHeaderEmitted | lib/utils/documentFormatter.ts:148-150 | A bold section still open at the end is emitted as the last section. |
| DocumentFormatter.OpenSectionQuirks | lib/utils/documentFormatter.ts:82-117 | With a bold section open, a list block discards any text content, and a text block turns list content into comma-joined text. |
| DocumentFormatter.Or | lib/utils/documentFormatter.ts:152-173 | `value \|\| fallback`: the value when it is a non-empty string, otherwise the fallback. |
| DocumentFormatter.Hyphenate | lib/utils/documentFormatter.ts:155 | Replacing runs of other characters by `-` leaves only `a-z`, `0-9` and single hyphens. |
| DocumentFormatter.Slug | lib/utils/documentFormatter.ts:152-156 | The derived id holds only `a-z`, `0-9` and single hyphens, and does not start or end with `-`. |
| DocumentFormatter.HeadingText | lib/utils/documentFormatter.ts:158-159 | The derived title is trimmed and no longer than the first line. |
| DocumentFormatter.Excerpt | lib/utils/documentFormatter.ts:161-162 | The summary is at most 153 characters. It ends in `...` and begins with the first three lines joined by spaces. |
| DocumentFormatter.FormatDocumentContent | lib/utils/documentFormatter.ts:50-176 | The sections are those of the paragraph run, no more than the paragraphs. The id, title, summary, source and type each come from the metadata or their fallback. |
| DocumentFormatter.Bullets | lib/utils/documentFormatter.ts:187-193 | Each list item is rendered as `- item`. |
| DocumentFormatter.FormattedDocumentToText | lib/utils/documentFormatter.ts:178-210 | The loop builds the heading, summary and every section's rendering, then trims. |
| DocumentFormatter.AppendFields | lib/utils/documentFormatter.ts:190-198 | The key-value loop appends every field's rendering in order. |
| DocumentFormatter.RenderAllAppend | lib/utils/documentFormatter.ts:181-207 | Rendering a concatenation of sections is the concatenation of the renderings. |
| DocumentFormatter.TitleRendered | lib/utils/documentFormatter.ts:182-209 | Every section with a trimmed, non-empty title shows it as a `## ` heading in the text. |
| DocumentService.CacheKey | lib/services/document.service.ts:57-59 | The key is `doc:` plus the source. `:page` is appended only for a truthy page, so no page or page 0 gives the bare key. |
| DocumentService.PageZeroIsWholeDocument | lib/services/document.service.ts:57-59 | Page 0 and no page share a key. |
| DocumentService.CacheKeysCollide | lib/services/document.service.ts:57-59 | `getCacheKey` gives source `a:1` and page 1 of source `a` the same key (no caller passes a page). |
| DocumentService.FileType | lib/services/document.service.ts:78 | The file type is no longer than the name and holds no dot. |
| DocumentService.SplitWhereLast | lib/services/document.service.ts:78 | The last piece of a split is the longest separator-free suffix. |
| DocumentService.FileTypeOfExtension | lib/services/document.service.ts:78 | For `stem.ext` with a dot-free `ext`, the type is `ext` lowercased. |
| DocumentService.FileTypeWithoutDot | lib/services/document.service.ts:78 | A name without a dot gives the whole name lowercased. |
| DocumentService.ExtractorFor | lib/services/document.service.ts:100-172 | An unsupported type fails with `Unsupported file type: ` and the type. |
| DocumentService.SupportedTypes | lib/services/document.service.ts:100-172 | Exactly pdf, doc, docx, xls, xlsx, ppt, pptx and txt are processed. |
| DocumentService.UpperCaseExtension | lib/services/document.service.ts:78-100 | `X.PDF` is read as a PDF. |
| DocumentService.Collapse | lib/services/document.service.ts:70 | Collapsing white space never lengthens the text. |
| DocumentService.CollapseShape | lib/services/document.service.ts:70 | The collapsed text is single-spaced, and starts or ends with white space exactly when the original does. |
| DocumentService.CollapseEnds | lib/services/document.service.ts:70 | Collapsing keeps emptiness and white space at either end. |
| DocumentService.CollapseSpacing | lib/services/document.service.ts:70 | The collapsed text never has two white-space characters in a row. |
| DocumentService.NormalizeShape | lib/services/document.service.ts:70 | Slide text has no white space at either end and no two white-space characters in a row. |
| DocumentService.CollapseSingleSpaced | lib/services/document.service.ts:70 | Collapsing single-spaced text changes nothing. |
| DocumentService.NormalizeIdempotent | lib/services/document.service.ts:70 | Normalising normalised text changes nothing. |
| DocumentService.NormalizeKeepsText | lib/services/document.service.ts:66-70 | Normalising keeps every non-white-space character, in order. |
| DocumentService.ExtractTextFromSlide | lib/services/document.service.ts:61-75 | The loop appends each text node and a space, then normalises; unreadable XML gives `""`. |
| DocumentService.Range | lib/services/document.service.ts:124-126 | The indices 1..n, n of them. |
| DocumentService.PresentBound | lib/services/document.service.ts:126 | The run of consecutive parts present is no longer than the archive's parts. |
| DocumentService.RunFrom | lib/services/document.service.ts:126-134 | Probing from `i` stops at the first missing index. |
| DocumentService.Run | lib/services/document.service.ts:124-134 | The enumeration visits 1, 2, … and stops at the first missing part. |
| DocumentService.PartTexts | lib/services/document.service.ts:128-129 | One text per part visited. |
| DocumentService.PartTextAt | lib/services/document.service.ts:128-129 | The k-th text is the slide text of part k. |
| DocumentService.Entries | lib/services/document.service.ts:130-132 | Parts with empty text are omitted, so there are no more entries than parts. |
| DocumentService.CollectEntries | lib/services/document.service.ts:124-147 | The `while` loop visits exactly the run of parts present. It collects the entries of the non-empty texts, numbered by their index. |
| DocumentService.EntriesEmpty | lib/services/document.service.ts:130-132 | There are no entries exactly when every visited text is empty. |
| DocumentService.EntriesHeaded | lib/services/document.service.ts:131-144 | Every entry starts with its heading (`Slide` or `Notes`). |
| DocumentService.PresentationContent | lib/services/document.service.ts:149-167 | A presentation gives non-empty trimmed text, slides before notes, or fails with the conversion advice. |
| DocumentService.ReadPresentation | lib/services/document.service.ts:118-167 | The presentation branch computes exactly that content. |
| DocumentService.PresentationRefused | lib/services/document.service.ts:159-166 | A presentation is refused exactly when no visited slide or note has text. |
| DocumentService.FirstEntryVisible | lib/services/document.service.ts:154-157 | The first entry starts with a visible character, so the joined text is non-empty after trimming. |
| DocumentService.WorkbookContent | lib/services/document.service.ts:112-117 | A workbook starts with its first sheet's `Sheet: name` line; a workbook without sheets gives `""`. |
| DocumentService.ExtractedContent | lib/services/document.service.ts:100-172 | Unsupported types fail with the type named. Text files are read as is, and presentations go through the presentation reader. |
| DocumentService.ObjectContentLost | lib/services/document.service.ts:187-195 | As written, every key-value section without a `toString` field renders the same text, whatever its entries. |
| DocumentService.NameLost | lib/services/document.service.ts:187-195 | As written, a section holding `Name: Ada` renders as `[object Object]`. |
| DocumentService.ToStringFieldThrows | lib/services/document.service.ts:187-195 | As written, a key-value section with a `toString` field makes the interpolation throw `Cannot convert object to primitive value`, wherever the section stands. |
| DocumentService.DocTextAgrees | lib/services/document.service.ts:187-195 | Without object content, the text as written succeeds and equals the corrected text. |
| DocumentService.FieldKeyRendered | lib/utils/documentFormatter.ts:190-191 | Every key of an object is rendered in bold followed by a colon. |
| DocumentService.FieldKeyInDocText | lib/services/document.service.ts:187-195 | With the correction, every key of every key-value section reaches the splitter. |
| DocumentService.ProcessDocument | lib/services/document.service.ts:77-221 | A cache hit returns the cached chunks. An unsupported type or a failed extraction fails with `Failed to process document: ` and the cause. Otherwise the sections are formatted from the content and the splitter's text is the text as written: `[object Object]` for a key-value section, and a failure with the prefix and the TypeError's message when a section has a `toString` field. The keys written are stated. |
| DocumentService.BatchesPartition | lib/services/document.service.ts:243-245 | The batches cover every document exactly once and in order. |
| DocumentService.BatchesSized | lib/services/document.service.ts:243-246 | There are ceil(n/10) batches, each of 1 to 10 documents. |
| DocumentService.BatchAt | lib/services/document.service.ts:244-245 | The batch at `i` is `documents[i..i+10]`, followed by the batches from `i+10`. |
| DocumentService.SendAllStops | lib/services/document.service.ts:244-270 | The batches sent are a prefix of all batches, all of them when none fails. Every batch before the last one sent succeeded, and the error is the last one's. |
| DocumentService.StoreDocumentVectors | lib/services/document.service.ts:224-271 | No documents fail with `No documents provided for vector storage`. Otherwise the loop sends the batches in order until one fails, and the error carries the `Failed to store document vectors: ` prefix. |
| InterviewGenerate.ExtractText | app/api/interviews/generate/route.ts:30-43 | The text is the result if it is a string, else its `text` field, else its `output` field, else `String(result)`. |
| InterviewGenerate.DropPrefix | app/api/interviews/generate/route.ts:80-82 | `replace(/^p/, "")` removes `p` once when the text starts with it and changes nothing otherwise. |
| InterviewGenerate.DropSuffix | app/api/interviews/generate/route.ts:81-83 | `replace(/p$/, "")` removes `p` once when the text ends with it and changes nothing otherwise. |
| InterviewGenerate.Clean | app/api/interviews/generate/route.ts:77-84 | The cleaned text is trimmed and no longer than the reply. |
| InterviewGenerate.CleanBare | app/api/interviews/generate/route.ts:77-84 | A bare array loses exactly its brackets. |
| InterviewGenerate.FencedReplyKeepsBrackets | app/api/interviews/generate/route.ts:77-84 | As written, a fenced array keeps its brackets. |
| InterviewGenerate.CleanFixed | app/api/interviews/generate/route.ts:77-84 | The corrected cleaning also gives trimmed text no longer than the reply. |
| InterviewGenerate.CleanFixedUnwraps | app/api/interviews/generate/route.ts:77-84 | Corrected, both the fenced and the bare array clean to the array's body. |
| InterviewGenerate.CleanFixedAgrees | app/api/interviews/generate/route.ts:77-84 | The correction changes nothing for a reply without a fence. |
| InterviewGenerate.QuoteMatches | app/api/interviews/generate/route.ts:95 | Every match of `/"([^"]*)"/g` starts and ends with a double quote. |
| InterviewGenerate.Unquote | app/api/interviews/generate/route.ts:98 | One question per match, and none holds a double quote. |
| InterviewGenerate.QuoteMatchesFirst | app/api/interviews/generate/route.ts:95 | A quoted text at the front is the first match. |
| InterviewGenerate.QuotedListRoundTrip | app/api/interviews/generate/route.ts:95-98 | The second tier reads back every question of a quoted, comma-separated list. |
| InterviewGenerate.StripNumbering | app/api/interviews/generate/route.ts:102 | Stripping the numbering leaves a suffix of the piece, and a piece not starting with a digit is kept as is. |
| InterviewGenerate.StripEach | app/api/interviews/generate/route.ts:102 | Each piece is stripped of its numbering and trimmed, one for one. |
| InterviewGenerate.NumberedItemsShape | app/api/interviews/generate/route.ts:100-103 | Third-tier questions are non-empty, trimmed and free of line breaks and commas. |
| InterviewGenerate.StripNumberedLine | app/api/interviews/generate/route.ts:102 | `n. question` strips back to the question. |
| InterviewGenerate.NumberedListRoundTrip | app/api/interviews/generate/route.ts:100-103 | The third tier reads back every question of a numbered list. |
| InterviewGenerate.ParseQuestions | app/api/interviews/generate/route.ts:86-105 | A reply that parses as an array is used unchanged. Otherwise the quoted segments are used if there are any, and the numbered lines if not; the second and third tiers give strings of the shapes above. |
| InterviewGenerate.CleanTechstack | app/api/interviews/generate/route.ts:107-110 | A missing tech stack gives `[]`. The entries are non-empty, trimmed and comma-free. |
| InterviewGenerate.TechstackRoundTrip | app/api/interviews/generate/route.ts:107-110 | A list of clean entries joined by commas cleans back to itself. |
| InterviewGenerate.TechstackIdempotent | app/api/interviews/generate/route.ts:107-110 | Cleaning a cleaned tech stack changes nothing. |
| InterviewGenerate.GetErrorMessage | app/api/interviews/generate/route.ts:132-148 | An `Error` gives its message, and an object with a `message` gives that converted to a string. Anything else is converted to a string; a conversion that throws gives the fixed fallback. |
| InterviewGenerate.Failed | app/api/interviews/generate/route.ts:154-157 | Failures answer with status 500. |
| InterviewGenerate.Created | app/api/interviews/generate/route.ts:126-128 | Success answers with status 200 and the new id. |
| InterviewGenerate.Post | app/api/interviews/generate/route.ts:1-159 | A body or SDK failure answers 500 with its message and stores nothing. Otherwise the interview holds the cleaned tech stack and the questions parsed from the reply cleaned as written (`Clean`, with no trim between the fence and the brackets). The answer is 200 exactly when it was stored. |
| ChatService.TurnsOf | lib/services/chat.service.ts:47-61 | A system message becomes a user turn followed by `I understand.` from the model. User and assistant messages keep their text as user and model turns; other roles are skipped. |
| ChatService.HistoryAppend | lib/services/chat.service.ts:44-62 | The conversion keeps the messages' order. |
| ChatService.HistoryLength | lib/services/chat.service.ts:44-62 | The history has one entry per message, plus one per system message, minus one per unknown role. |
| ChatService.HistoryEmpty | lib/services/chat.service.ts:44-62 | The history is empty exactly when no message has a known role. |
| ChatService.ConvertHistory | lib/services/chat.service.ts:44-62 | The loop builds exactly the converted history. |
| ChatService.Rethrown | lib/services/chat.service.ts:88-103 | The rethrown message is `Failed to generate response: ` plus the error's message or `Unknown error`. |
| ChatService.GenerateResponse | lib/services/chat.service.ts:42-105 | The chat opens with all entries but the last, and the last entry's text is sent. An empty history fails with the prefixed TypeError message, and every failure carries the prefix. |
| ChatService.TrailingSystemSendsAcknowledgement | lib/services/chat.service.ts:47-79 | A trailing system message sends `I understand.`, with the system text last in the opening history. |
| ChatService.TrailingUserSendsText | lib/services/chat.service.ts:56-79 | A trailing user message sends its own text after the earlier history. |
| ChatMessage.ContentText | components/chat-message.tsx:73-82 | Missing content gives `""`, a string gives itself, and an object gives its `content`. |
| ChatMessage.ButtonsIffText | components/chat-message.tsx:140 | For missing or string content, the buttons show exactly when the message is not loading and there is text. |
| ChatMessage.ButtonsWithoutText | components/chat-message.tsx:140 | An object with no `content` still shows the buttons. |
| ChatMessage.CopiedText | components/chat-message.tsx:84-93 | Copying happens exactly when there is text, and copies that text. |
| ChatMessage.ErrorText | components/chat-message.tsx:222 | An error message always shows something: the text, or `An error occurred`. |
| ChatMessage.DeleteCall | components/chat-message.tsx:134-138 | `onDelete` is called with the id exactly when both the id and the handler are present. |
| ChatMessage.CodeContentIsLeaves | components/chat-message.tsx:233-251 | The code text is the string leaves of the node tree, left to right. |
| ChatMessage.ArraySplits | components/chat-message.tsx:238-242 | The text of an array is the concatenation of its parts' texts. |
| ChatMessage.WrappingTransparent | components/chat-message.tsx:238-249 | Wrapping a node in an element or a one-element array does not change its text. |
| ChatMessage.Lookup | components/chat-message.tsx:286 | A property is found only if present, and missing only if absent. |
| ChatMessage.Without | components/chat-message.tsx:277-281 | The rest props hold none of the destructured names, and every prop with another name is kept. |
| ChatMessage.WithoutAppend | components/chat-message.tsx:277-281 | The rest props keep their order: dropping names distributes over concatenation. |
| ChatMessage.WithoutNoneDropped | components/chat-message.tsx:277-281 | Props with none of the destructured names pass through unchanged. |
| ChatMessage.LanguageMatch | components/chat-message.tsx:285 | A language is found only when `language-` followed by it occurs in the class. |
| ChatMessage.LanguageMatchFirst | components/chat-message.tsx:285 | A language is found exactly when `language-` followed by a word character occurs somewhere, and it is then the longest run of word characters after the leftmost such occurrence. |
| ChatMessage.WordPrefix | components/chat-message.tsx:285 | `\w+` takes the longest run of word characters. |
| ChatMessage.InlineNeverSeen | components/chat-message.tsx:277-296 | As written, the style never depends on an inline marker. |
| ChatMessage.InlineCodeFenced | components/chat-message.tsx:277-296 | As written, `language-js inline` is rendered as fenced `js` code. |
| ChatMessage.JsLanguage | components/chat-message.tsx:285 | The class `language-js inline` names the language `js`. |
| ChatMessage.Style | components/chat-message.tsx:285-296 | Corrected, code is fenced exactly when it is not marked inline and names a language, and that language occurs in the class. |
| ChatMessage.InlineCodeInline | components/chat-message.tsx:286-296 | Corrected, `language-js inline` is inline code. |
| ChatMessage.StylesAgree | components/chat-message.tsx:285-296 | The correction changes nothing for code not marked inline. |

## Left out

- `lib/rate-limit.ts`: a thin wrapper over an external rate limiter whose algorithm is not part of this model.
- Network and storage clients (the vector index, the embedding and generative models, the Redis transport, the database): they are parameters or failure flags, and their own behaviour is not modelled.
- SHA-256 is a function parameter. Only the hex step of `generateHash` is modelled.
- `JSON.parse` and `JSON.stringify` are oracle parameters. `Json` is an abstract value type with no grammar.
- The file parsers (pdf-parse, mammoth, xlsx, JSZip, the XML parser) are left out. Their outputs are given: the text of a PDF or Word file, a workbook's sheet names and CSV texts, and an archive's `a:t` text nodes per part.
- The text splitter and its chunk headers are left out. `ProcessDocument` stops at the splitter's input and the keys written.
- The Redis TTL on the chunk cache is left out, and so is the Redis client's automatic JSON decoding of values read back.
- Singletons, lazy initialisation, the exists-then-write race in `seedChatHistory`, and concurrent appends are left out: the model is sequential.
- Clocks and randomness (`Date.now`, `processedAt`, `createdAt`, the random cover image) and all logging are left out. The history timestamp is a parameter.
- The UI of `components/chat-message.tsx` is left out: rendering, animation, speech synthesis, clipboard and toasts.
- `Strings.ToLower` lowercases ASCII letters only, not the rest of Unicode.
- A character is a Unicode code point, while a JavaScript string is a sequence of UTF-16 code units. For text outside the Basic Multilingual Plane the model differs: `Excerpt`'s 150-character cut and its 153 bound count code points, `Split` with an empty delimiter (the seed split) yields whole code points where JavaScript yields code units, and every length in a contract counts code points.
- Metadata values other than strings (numbers, booleans, arrays) are left out. So is a `techstack` that is not a string.
- Memory.MemoryManager.WriteToHistory: returns `false` where the source returns `""` (no user). With a user it returns `true`, as the source does after discarding the ZADD reply. No caller reads the value.
- RedisStore.Redis: the WRONGTYPE error is not modelled, neither for a GET of a key holding a sorted set nor for a ZADD on a key holding a string (the model then keeps the key in both maps), because the keys used for strings (`embed:`, `doc:`, document cache keys) and for sorted sets (`companion-model-user`) never coincide in this program.
- InterviewGenerate.Post: how the 500 response's error text is derived from a thrown SDK value (route.ts lines 45-71: an `Error`'s message, otherwise a JSON round trip of the value, `String(value)` or a fixed fallback, so a thrown `undefined` ends up as `"undefined"`) is not modelled. The derived text is a parameter, because the thrown value is opaque to the model.
- ChatService.GenerateResponse: the TypeError for an empty history is represented by a fixed message, because the exact wording belongs to the JavaScript engine.
- DocumentService.ProcessDocument: errors thrown by the file parsers are taken to be `Error` values with a message, because the parsers are not modelled.
- DocumentService.ProcessDocument: the TypeError's message is V8's wording.
- DocumentService.StoreDocumentVectors: a failure to open the vector index before the empty check is not modelled, because opening the client is outside the model.
- The `No extractable text found` error inside the presentation branch is not modelled on its own: it is always replaced by the conversion advice, which the model states.
- The document `size` and the chunk metadata (`documentId`, `documentTitle`) are left out. They only feed the splitter.
- `searchSimilarDocuments` (document.service.ts lines 273-293) is left out: it is one call to the vector index.
- ChatMessage.LanguageMatch: a `className` that is not a string is read as `""`.

## Findings

| source | as written | input that shows it | evidently intended | confidence | as-written member | corrected member |
|---|---|---|---|---|---|---|
| app/api/interviews/generate/route.ts:77-84 | The fence is removed before the brackets with no trim between the steps. The line break after `` ```json `` stops `^\[`, and the one before the closing fence stops `\]$`. | The reply `` ```json `` + `\n["q1"]\n` + `` ``` `` cleans to `["q1"]`, so `JSON.parse("[[\"q1\"]]")` yields a nested array. | A fenced array cleans to the array's body, as a bare one does. | high; not executed | InterviewGenerate.FencedReplyKeepsBrackets | InterviewGenerate.CleanFixedUnwraps |
| components/chat-message.tsx:277-296 | `className` is destructured out of the props, so `props.className` is always absent, and `isInline` is always false. | The class `language-js inline` is rendered as a fenced `js` block. | Code whose class marks it inline is rendered inline. | high; not executed | ChatMessage.InlineCodeFenced | ChatMessage.InlineCodeInline |
| lib/services/document.service.ts:187-195 | A key-value section's object content is interpolated into a template string and becomes `[object Object]` (or throws, when a field is named `toString`). | A section holding `Name: Ada` reaches the splitter as `[object Object]`. | The entries reach the splitter, rendered as `formattedDocumentToText` renders them. | high; not executed | DocumentService.NameLost | DocumentService.FieldKeyInDocText |

The operations (`InterviewGenerate.Post`, `DocumentService.ProcessDocument`) run the code as written; the corrected members state the intended behaviour beside them.
