# A verified model of cppllmcoder's core

cppllmcoder is a local coding agent: a C++ loop streams replies from a language model, runs the Lua
code it finds in them, stores every message in SQLite, and shows the conversation in a terminal
cockpit.  This project models the parts of it that carry state, recursion or concurrency, and proves
what they promise:

- **Text, paging and truncation** (`utf8view`, `utf8text`, `segmentation`, `db_head`, `messages`,
  `cache_reader`).  A hand-written
  UTF-8 decoder feeds two scans that find grapheme boundaries.  The break function of utf8proc is an
  arbitrary argument `(previous, current, state) -> (break, state')`, so nothing here depends on a
  Unicode table, and no theorem assumes that the text is well-formed.
- **Lua values to JSON** (`lua_json`, `json_serializer`, `json_text`, `sorted_entries`).  The recursive
  printer over a table graph that may share tables or contain cycles, against an inductive definition of
  "this value unfolds to that finite tree", and a reader of the objects, arrays and strings of RFC 8259
  sections 4, 5 and 7 (and of the six-decimal numbers the printer writes) that inverts it.
- **Streaming with retries** (`retry_policy`, `chat_streamer`, `cockpit_chat`).  The attempt loop over an
  arbitrary script of chunks, errors, exceptions and stops, and the fold of its events into the
  conversation on screen.
- **The ReAct loop and its persistence** (`agent`, `brain_store`, `agent_queue`).  History, rendered
  cache, store and token count grow together; a restored agent is compared with the live one.
- **Protocols between threads** (`cockpit_consent`, `agent_manager`, `agent_protocol`).  The consent
  handshake as events of any interleaving; agents, workers and callers as single writes and critical
  sections of any interleaving.
- **Task forest and options** (`task_forest`, `task_tree`, `cli_options`, `cli_reading`).

Code that mutates objects is a class with methods whose `ensures` equate the new state with a function
of the old one; the lemmas are about those functions.  `counting`, `decimal` and `common` are helpers.
`segmentation`, `cache_reader` and `cli_reading` are references written apart from the code: which
boundaries the answers of the break function fix, what reads back from a cache entry, and what a command
line means without any configuration.

## Where the code does not do what one would expect

Each of these is a proved statement, with the exact condition under which the expected property holds.

- **An early retry erases an earlier answer.**  A retry before the first token of a reply does not reach
  the reply's item: at the start of a turn that is a placeholder without an agent id, and behind a tool's
  item there is none yet.  It clears the agent's latest earlier answer instead
  (`CockpitChat.EarlyRetryErasesPreviousAnswer`, `CockpitChat.EarlyRetryErasesFirstRound`).
- **An empty reply changes the tool's item.**  A reply without text behind a tool's item completes with a
  newline at the end of that item, with no retry at all (`CockpitChat.EmptyReplyChangesToolItem`).
  `CockpitChat.OtherItemsUnchanged` says, for every conversation and every run, exactly when the other
  items stay as they are.
- **Finished and Errored are not final.**  `park_agent` has no guard, and a wake that saw Waiting may write
  Running over the end state of a worker (`AgentProtocol.EndedAgentCanRun`).
  `AgentProtocol.FinalStateLastsExactly` says exactly how long an end state lasts.
- **Stored text ends at its first NUL byte** (`BrainStore.CStrKeepsExactlyNulFree`,
  `BrainStore.NulCutsReload`), so a reloaded history
  equals the live one exactly when its texts hold no NUL (`BrainStore.ReloadAgreesWithLive`).
- **The restored token count passes through a 32-bit int** and is the sum exactly below 2^31
  (`AgentLoop.RestoredCountIsExact`, `AgentLoop.RestoredCountWraps`).
- **The size bound of a pruned message has exceptions**: a message with an id whose fixed text does not fit is
  overhead - 1 bytes long, and one without an id can need the 23 bytes of its tags (`Messages.PrunedSize`, `Messages.PrunedSizeExceeds`).
- **A third letter cannot be split from a bundle.**  Besides `h` and `V`, a short option `-` would read as
  `--` on its own (`CliOptions.LetterSplitsExactly`).
- **An ill-formed sequence costs one byte per error.**  The header of the decoder speaks of maximal
  subparts; the code always advances one byte.  The model follows the code.

## Model

| member | source | states |
|---|---|---|
| `Utf8View.DecodeAcceptsExactly` | include/utils/simple_utf8view.hpp:35-97 | the decoder takes n bytes without error exactly when they are a UTF8-char of RFC 3629 section 4 |
| `Utf8View.ErrorsAreReplaced` | include/utils/simple_utf8view.hpp:26-97 | the decoder answers U+FFFD with one byte exactly where no UTF8-char starts |
| `Utf8View.NothingToDecode` | include/utils/simple_utf8view.hpp:43-44 | only at the end is nothing decoded and no byte taken |
| `Utf8View.DecodeInvertsEncode` | include/utils/simple_utf8view.hpp:35-97 | decoding the RFC 3629 encoding of any scalar value, whatever follows it, gives back the value and its length |
| `Utf8View.EncodeInvertsDecode` | include/utils/simple_utf8view.hpp:35-97 | encoding what was decoded without error gives back the very bytes consumed |
| `Utf8View.Decode` | include/utils/simple_utf8view.hpp:35-97 | inside the text the decoder advances by one to four bytes and never past the end |
| `Utf8View.DecodeSuffix` | include/utils/simple_utf8view.hpp:35-97 | decoding looks at no byte before its position, so it commutes with cutting off a prefix |
| `Utf8View.DecodePrefix` | include/utils/simple_utf8view.hpp:35-97 | decoding looks at no byte after the ones it consumes, so it commutes with cutting behind them |
| `Utf8View.PiecesConcat` | include/utils/simple_utf8view.hpp:121-147 | the raw bytes of a codepoint walk concatenate to the text, also on ill-formed bytes |
| `Utf8View.PiecesSplit` | include/utils/simple_utf8view.hpp:121-147 | cutting at any codepoint start splits the walk into the walks of the two parts |
| `Utf8View.PiecesSuffix` | include/utils/simple_utf8view.hpp:121-147 | the walk of a suffix is the rest of the walk of the whole text |
| `Utf8View.AdvanceTwice` | include/utils/simple_utf8view.hpp:141-147 | n steps and then m steps of the iterator end where n + m steps end |
| `Utf8View.Substr` | include/utils/simple_utf8view.hpp:178-203 | the two loops find the codepoint positions pos and pos + count, clamped to the end |
| `Utf8View.SubstrSplits` | include/utils/simple_utf8view.hpp:178-203 | `substr(s, 0, n)` followed by `substr(s, n)` is s |
| `Utf8View.SubstrIsPieces` | include/utils/simple_utf8view.hpp:178-203 | the bytes between two codepoint positions are exactly the pieces of the walk between them |
| `Utf8View.StringViewUtf8.constructor` | include/utils/simple_utf8view.hpp:210-215 | a new view shows the text and has nothing cached |
| `Utf8View.StringViewUtf8.CountCodepoints` | include/utils/simple_utf8view.hpp:228-234 | the answer is the number of pieces of the walk, cached or not, and stays right once cached |
| `Utf8View.PiecesAreShort` | include/utils/simple_utf8view.hpp:207-212 | a text never has more codepoints than bytes, so the count cannot be the sentinel of "not computed" |
| `Utf8View.CutKeepsWellFormed` | include/utils/simple_utf8view.hpp:35-97 | at a codepoint start, a text is well-formed exactly when both parts are |
| `Utf8Text.BreaksOfShift` | src/utf8_text.cpp:29-49 | a scan of a suffix finds the breaks of the same scan of the whole text, shifted |
| `Utf8Text.BreaksRestart` | src/utf8_text.cpp:11-18 | because the state is reset at a break, the rest of a scan is the scan restarted there |
| `Utf8Text.BreaksOfPrefix` | src/utf8_text.cpp:68-81 | a scan of a prefix that ends at a break finds the earlier breaks and no others |
| `Utf8Text.SuffixBoundaries` | src/utf8_text.cpp:11-49 | for any boundary b, the boundaries of the suffix from b are those of the text at or above b, shifted by b |
| `Utf8Text.PrefixBoundaries` | src/utf8_text.cpp:11-18 | for any boundary b, the boundaries of the prefix up to b are those of the text at or below b |
| `Utf8Text.BreaksAreCodepointStarts` | src/utf8_text.cpp:36-49 | every break lies at a position the codepoint iterator reaches |
| `Utf8Text.BoundaryCutKeepsWellFormed` | src/utf8_text.cpp:95-113 | a text is well-formed exactly when both sides of a cut at a boundary are |
| `Segmentation.AnswerDecides` | src/utf8_text.cpp:11-49 | behind a boundary, with none in between, a codepoint start is a boundary exactly when the break function answers so, asked about each codepoint and the one before it from state 0 on, its state handed on |
| `Segmentation.SegmentationIsExact` | src/utf8_text.cpp:11-81 | the boundaries of the scans are the only set that holds both ends, consists of codepoint starts, and agrees with these answers |
| `Segmentation.PairsOfAscendingText` | src/utf8_text.cpp:11-18 | a break function that tells its arguments apart and counts in its state splits "abcdef" into pairs |
| `Segmentation.AccentStaysWithItsLetter` | src/utf8_text.cpp:36-49 | a break function that keeps U+0301 with what precedes it makes one grapheme of "e" and its accent |
| `Utf8Text.Floor` | src/utf8_text.cpp:54-84 | the greatest boundary not above the budget |
| `Utf8Text.Ceiling` | src/utf8_text.cpp:20-52 | the least boundary not below the offset, clamped to the size |
| `Utf8Text.NextGraphemeBoundary` | src/utf8_text.cpp:20-52 | the forward scan returns the least boundary not below the offset (boundaries as `Segmentation.SegmentationIsExact` fixes them) |
| `Utf8Text.LastBoundaryWithinBudget` | src/utf8_text.cpp:54-84 | the budget scan returns the greatest boundary not above the budget (boundaries as `Segmentation.SegmentationIsExact` fixes them) |
| `Utf8Text.SuffixCut` | src/utf8_text.cpp:54-84 | cutting the suffix from a boundary by a budget is cutting the whole text by start + budget |
| `Utf8Text.SliceIsGlobalCut` | src/utf8_text.cpp:100-113 | a slice runs from the aligned offset to the last boundary of the whole text within the budget |
| `Utf8Text.PrefixOfPrefix` | src/utf8_text.cpp:95-98 | cutting to n and then to m equals cutting to min(n, m) |
| `Utf8Text.RoundingLaws` | src/utf8_text.cpp:20-84 | both roundings are monotone and idempotent for all offsets, bracket an offset inside the text, clamp one beyond it, and fix exactly the boundaries |
| `DbHead.PageEnd` | src/db_tools.cpp:121-131 | a page ends on a boundary; it makes progress; it fits the budget or is one grapheme; it could not be longer |
| `DbHead.Invoke` | src/db_tools.cpp:76-138 | a page of the smaller of `bytes_to_read` and `max_bytes_`, exactly for a non-negative offset, the messages table, its content column and an existing row, and otherwise the first refusal in order |
| `DbHead.PageIsExact` | src/db_tools.cpp:121-137 | for every offset and budget: the page starts at the least boundary not below the offset, ends at the last one within the budget or with the one grapheme that does not fit, and is empty for a zero budget |
| `DbHead.PageIsWholeGraphemes` | src/db_tools.cpp:121-131 | a page is whole graphemes of the stored text in order, within budget or a single grapheme, empty only at the end |
| `DbHead.PagingLosesNothing` | src/db_tools.cpp:80-137 | following `next_offset` with any positive budgets, the pages concatenate to exactly the text read so far, and at most one request per remaining byte reaches the end |
| `Messages.PrunedSize` | src/agent.cpp:440-481 | a pruned message fits `max_tool_out_bytes` exactly when the content does, or the 23 tag bytes do (no id), or the fixed text does (id); with an id and too little room it is overhead - 1 bytes |
| `Messages.PrunedSizeExceeds` | src/agent.cpp:448-474 | at a concrete limit and content both exceptions exceed the limit |
| `Messages.ShownIsBoundary` | src/agent.cpp:448-480 | the shown part, with or without an id, is a proper prefix of the original that ends on a grapheme boundary |
| `Messages.TruncationIsRecoverable` | src/agent.cpp:461-480 | the shown prefix followed by paging from its length gives back the whole original, and is well-formed if the original is |
| `Messages.CacheEntrySize` | src/agent.cpp:483-503 | a cache entry exceeds the pruned message by at most 30 bytes, or 63 when a tool message is wrapped for a user role, hence `max_tool_out_bytes` by as much whenever the pruned message fits; the bound stated at tests/test_agent_run_step.cpp:414-417 |
| `CacheReader.RenderReadsBack` | src/agent.cpp:440-503 | from every cache entry an independent reader recovers the role's name, the whole content or what is shown of it, the row id, and from the note the original size and the row `db.head` must be given; wrapped tool answers included |
| `CacheReader.PrunedReads` | src/agent.cpp:440-481 | the same for the pruned message alone: whole content, bare prefix, or prefix with a note |
| `CacheReader.ReadsNote` | src/agent.cpp:464-480 | the note reads back from its end, whatever the shown text contains |
| `CacheReader.VisibleIsGreatest` | src/agent.cpp:448-480 | what is shown ends at the greatest boundary that fits beside 23 bytes of tags, or beside 153 bytes and the two numbers of the note |
| `CacheReader.ShowsPrefixExactly` | src/agent.cpp:448-474 | some of the content is shown exactly when it is too long and there is no id or the fixed text fits |
| `JsonText.EscapeJson` | include/json_utils.hpp:8-46 | the loop produces the escaped text of the specification |
| `JsonText.EscapeOne` | include/json_utils.hpp:12-43 | each case of the switch writes its escape; a printable character other than a quote and a backslash is left alone |
| `JsonText.ParseEscaped` | include/json_utils.hpp:8-46 | reading an escaped string up to its closing quote gives back the string, for every byte content and whatever follows |
| `JsonText.ParseEscapedChar` | include/json_utils.hpp:12-43 | each of the three forms of escape reads back as its one character |
| `JsonText.UnicodeEscapeReads` | include/json_utils.hpp:35-39 | the reader takes four hexadecimal digits of either case, the most significant first, and refuses surrogates |
| `JsonText.ParsePrintedNumber` | src/lua_context.cpp:161-162 | the six-decimal text of a number reads back as the number, and no prefix of what follows is taken for it |
| `JsonText.NumberHasSixDecimals` | src/lua_context.cpp:161-162 | a number is written as its sign, its whole part, a point and its millionths in six digits |
| `JsonText.ParsePrinted` | src/lua_context.cpp:151-299 | a JSON reader maps the printed text of every tree back to that tree and stops right behind it |
| `JsonText.ParsePrintedArray` | src/lua_context.cpp:215-242 | the bracketed list of printed items reads back as the array |
| `JsonText.ParsePrintedObject` | src/lua_context.cpp:254-269 | the braced list of printed fields reads back as the object with its fields in order |
| `SortedEntries.SortIsSorted` | src/lua_context.cpp:217-252 | sorting entries with distinct keys keeps exactly the entries, in strictly ascending key order |
| `SortedEntries.AscendingIsUnique` | src/lua_context.cpp:249-252 | a set of keys has one ascending order, so the output cannot depend on the order of iteration |
| `SortedEntries.LessIsStrictTotal` | src/lua_context.cpp:249-252 | the byte-wise comparison of the keys is a strict total order |
| `SortedEntries.LessIsBytewise` | src/lua_context.cpp:249-252 | a key comes first by the first byte that differs, or as a proper prefix |
| `Counting.CountEqualsMax` | src/lua_context.cpp:193-213 | distinct positive indices are as many as their maximum exactly when they are 1..max |
| `LuaJson.ArrayShapeIsUnique` | src/lua_context.cpp:213 | a table is an array of at most one length |
| `LuaJson.ObjectShapeIsUnique` | src/lua_context.cpp:249-252 | a table is an object with at most one sorted list of keys |
| `LuaJson.TreeSound` | src/lua_context.cpp:151-299 | whatever the traversal returns is the unfolding of the value and stays within the depth cap |
| `LuaJson.UnfoldingIsUnique` | src/lua_context.cpp:151-299 | a value unfolds to at most one tree |
| `LuaJson.TreeComplete` | src/lua_context.cpp:165-173 | when a finite tree within the cap exists the traversal finds it; in particular a shared table below its ancestors is never reported as a cycle |
| `LuaJson.TreeAllComplete` | src/lua_context.cpp:224-268 | the same for the values of a table, one by one and under the same ancestors |
| `LuaJson.TraversalIsExact` | src/lua_context.cpp:144-302 | serialization succeeds exactly when the root unfolds to a finite tree of arrays and string-keyed tables no deeper than 32, and the text reads back as that tree |
| `LuaJson.CapIs32` | src/lua_context.cpp:146-155 | a tree is within the cap exactly when its deepest value is at most 32 levels below the root |
| `LuaJson.CanUnfoldExactly` | src/lua_context.cpp:146-173 | a value can be printed exactly when it unfolds to a finite tree of at most 32 levels below the root |
| `LuaJson.ErrorTexts` | src/lua_context.cpp:153-296 | the five error messages |
| `LuaJson.VariadicIsExact` | src/lua_context.cpp:304-329 | an argument list is printed exactly when each argument can be, and the text reads back as the array of their trees |
| `JsonSerializer.CollectEntries` | src/lua_context.cpp:175-205 | in any order of iteration the loop notices an invalid key exactly when there is one, and otherwise gathers every entry once |
| `JsonSerializer.GatheredIsArray` | src/lua_context.cpp:213 | with no string key, the count equals the largest index exactly when the keys are 1..n |
| `JsonSerializer.ShapeByCounting` | src/lua_context.cpp:207-253 | deciding by counters classifies every table as its set of keys does, whatever the order of iteration |
| `JsonSerializer.InvalidKeyDecides` | src/lua_context.cpp:187-211 | one key that is neither a positive integer nor a string makes the table unprintable, whatever the others are |
| `JsonSerializer.SortedArrayIsDense` | src/lua_context.cpp:216-229 | the sorted indices of an array are 1, 2, ..., n, so the sparse-array error is unreachable |
| `JsonSerializer.GatheredObject` | src/lua_context.cpp:249-268 | the sorted string entries are the object's fields: its keys in order, each with its value |
| `JsonSerializer.Serializer.constructor` | src/lua_context.cpp:146-147 | a serializer starts with no ancestor recorded |
| `JsonSerializer.Serializer.Serialize` | src/lua_context.cpp:151-299 | the result is the print of the pure traversal under the ancestors in `visited`, error or not, and `visited` is restored on every exit |
| `JsonSerializer.Serializer.SerializeTable` | src/lua_context.cpp:175-270 | the four outcomes of a table follow its shape alone, and `visited` is what it was |
| `JsonSerializer.Serializer.SerializeItems` | src/lua_context.cpp:216-242 | the array loop prints the items in index order or returns the first error |
| `JsonSerializer.Serializer.SerializeFields` | src/lua_context.cpp:254-269 | the object loop prints the fields in key order or returns the first error |
| `JsonSerializer.LuaObjectToJson` | src/lua_context.cpp:144-302 | succeeds exactly when the value unfolds to a finite tree within the cap, and then writes a text that reads back as it |
| `JsonSerializer.LuaVariadicToJson` | src/lua_context.cpp:304-329 | succeeds exactly when every argument can be unfolded, each with its own set of ancestors |
| `RetryPolicy.FullJitterBounds` | src/llm/retry_policy.cpp:131-138 | the delay lies between zero and the ceiling min(cap, base * factor^attempt), for every draw |
| `RetryPolicy.RetryAfterBounds` | src/llm/retry_policy.cpp:178-182 | a honoured header gives a delay in [header, header + jitter_extra] |
| `RetryPolicy.JitterCovers` | src/llm/retry_policy.cpp:131-138 | full jitter: every number of milliseconds below the ceiling is the delay of some draw |
| `RetryPolicy.RetryAfterCovers` | src/llm/retry_policy.cpp:178-182 | and with a header every one from the header on, below the extra jitter |
| `RetryPolicy.DefaultCeilings` | include/llm/retry_policy.hpp:25-31 | under the default configuration the ceilings are 0.5, 1, 2, 4 and later 30 seconds |
| `RetryPolicy.DelayBounds` | src/llm/retry_policy.cpp:166-222 | every decision sleeps within its header window or its backoff ceiling, and not at all unless it retries |
| `RetryPolicy.RetriesExactly` | src/llm/retry_policy.cpp:140-228 | the exact set of status, code, message and attempt for which a request is retried |
| `RetryPolicy.StopsExactly` | src/llm/retry_policy.cpp:147-227 | which of the three ways a request is given up, by code, status, message and attempt |
| `RetryPolicy.NonRetryableExactly` | src/llm/retry_policy.cpp:88-123 | the nine codes that are never retried, in any case, and which three of them mean billing or quota |
| `RetryPolicy.BillingExactly` | src/llm/retry_policy.cpp:109-114 | a billing message holds one of four phrases somewhere, in any case |
| `RetryPolicy.RateLimitExactly` | src/llm/retry_policy.cpp:166-172 | a 429 is a rate limit by its type, or by words somewhere in its code or message |
| `RetryPolicy.SumCapsLinear` | src/llm/retry_policy.cpp:131-138 | n ceilings sum to at most n times the cap |
| `RetryPolicy.SumCapsGeometric` | src/llm/retry_policy.cpp:131-138 | for a growing factor n ceilings sum to at most base * (factor^n - 1) / (factor - 1) |
| `ChatStreamer.Streamer.constructor` | include/llm_chat_streamer.hpp:20-23 | a streamer keeps its retry configuration |
| `ChatStreamer.Streamer.OnChunk` | src/llm_chat_streamer.cpp:28-66 | a chunk posts at most its content piece, appends the same piece to the buffer, and replaces the usage only with a complete one |
| `ChatStreamer.Streamer.Deliver` | src/llm_chat_streamer.cpp:77-82 | over all callbacks the buffer is the concatenation of the posted pieces, and the last error and the last usage remain |
| `ChatStreamer.Streamer.TryOnce` | src/llm_chat_streamer.cpp:14-138 | one attempt calls the client, posts, sleeps, returns and reports usage as the attempt of the specification does |
| `ChatStreamer.Streamer.Stream` | src/llm_chat_streamer.cpp:12-144 | events, reply, usage, the number of client calls and the sleeps of the loop are those of the specified run, for every script |
| `ChatStreamer.CallsAreBounded` | src/llm_chat_streamer.cpp:14-78 | the client is called at most `max_attempts` times, and a run that completes sleeps exactly once between two calls |
| `ChatStreamer.NoticesAndCompletion` | src/llm_chat_streamer.cpp:84-136 | `on_retry` receives 1, 2, 3, ... and `on_turn_complete` fires once with the returned text, or never when the run was interrupted, which returns nothing |
| `ChatStreamer.OnlyStopsInterrupt` | src/llm_chat_streamer.cpp:14-141 | with at least one attempt, a run without stops completes |
| `ChatStreamer.NoAttemptExactly` | src/llm_chat_streamer.cpp:14 | a run without any attempt is one of a policy that allows none |
| `ChatStreamer.ShownIsReply` | src/llm_chat_streamer.cpp:55-61 | what was delivered since the last `on_retry` is the returned text, plus the error text on failure |
| `ChatStreamer.UsageFromSuccess` | src/llm_chat_streamer.cpp:85-91 | usage is written by a successful attempt only, from that attempt's last complete report |
| `ChatStreamer.LastUsageIsLast` | src/llm_chat_streamer.cpp:29-46 | the usage of an attempt is the last complete one its chunks report, by position |
| `ChatStreamer.LastErrorIsLast` | src/llm_chat_streamer.cpp:70-73 | the error of an attempt is the last one reported, by position |
| `ChatStreamer.ErrorTextIs` | src/llm_chat_streamer.cpp:102-109 | the four prefixes of a failure by outcome and attempt |
| `ChatStreamer.TrySleepFits` | src/llm_chat_streamer.cpp:94-121 | an attempt sleeps only after a failure, and within the window its error allows |
| `ChatStreamer.SleepsFit` | src/llm_chat_streamer.cpp:94-121 | in any run each sleep fits its attempt, and an unrecognised 429 is slept on after attempt 0 only |
| `ChatStreamer.TotalBackoff` | src/llm_chat_streamer.cpp:94-121 | without a honoured header all sleeps of a run sum to at most (max_attempts - 1) ceilings, hence to the linear and the geometric bound |
| `CockpitChat.LatestIndex` | include/cockpit_chat.hpp:24-34 | the last assistant item of the agent, or -1 when there is none |
| `CockpitChat.FindLatestConversationIndexForAgent` | include/cockpit_chat.hpp:24-34 | the downward loop finds that index |
| `CockpitChat.Cockpit.ClearRetryTarget` | include/cockpit_chat.hpp:36-49 | clears the text of that one item and selects it, or changes nothing and reports false |
| `CockpitChat.Cockpit.HandleOne` | src/cockpit_ui.cpp:777-831 | each of the three handlers changes the conversation as one step of the fold |
| `CockpitChat.Cockpit.HandleToolCall` | src/cockpit_ui.cpp:801-812 | a tool call adds one collapsed item with its summary and changes no other |
| `CockpitChat.Cockpit.Handle` | src/cockpit_ui.cpp:774-831 | handling drained events one by one folds them into the conversation, whatever it ends in |
| `CockpitChat.LatestBelow` | include/cockpit_chat.hpp:24-34 | a new last item is the target when it belongs to the agent and hides nothing otherwise |
| `CockpitChat.FoldClaimed` | src/cockpit_ui.cpp:777-831 | once the turn's item carries the agent id, the events of the turn change this item only, to what was delivered since the last retry |
| `CockpitChat.FoldUnclaimed` | src/cockpit_ui.cpp:777-831 | the same for an assistant's item of another agent: the first token claims it, and retries before that clear an earlier item of the agent instead |
| `CockpitChat.FoldClosed` | src/cockpit_ui.cpp:777-831 | the same without an assistant's item at the end: the first token opens one, and a turn without tokens ends the last item there is with a newline |
| `CockpitChat.FoldIsTurn` | src/cockpit_ui.cpp:777-831 | over every conversation, the fold of every list of tokens and retries with at most a final completion is the non-recursive description by those three cases |
| `CockpitChat.RunIsTurn` | src/llm_chat_streamer.cpp:84-136 | the events of every run, interrupted or not, are tokens and retries with a completion only at the end |
| `CockpitChat.TurnItemShowsReply` | src/cockpit_ui.cpp:777-831 | over every conversation and every run: the turn's item shows its earlier text unless a retry reached it, then the returned text, the error text if the run failed, and a newline; where a run without text has no item, its completion ends the last one there is with a newline |
| `CockpitChat.OtherItemsUnchanged` | src/cockpit_ui.cpp:777-831 | over every conversation and every run: the other items are unchanged exactly unless a textless run completed behind an item that is no assistant's, or the run was retried before any text while the agent had no item at the end but an earlier one with text |
| `CockpitChat.SilentRunHasNoToken` | src/llm_chat_streamer.cpp:55-111 | a run posts a token exactly when some attempt delivered a piece or the run failed |
| `CockpitChat.TurnIsTranscript` | src/agent.cpp:243-388 | over a whole turn of streamed replies and tool results, each of which says something before it is retried, the conversation grows by exactly the transcript: each reply in its own item, each tool result behind it |
| `CockpitChat.FirstTokenOpensItem` | src/cockpit_ui.cpp:777-791 | without an assistant item last, the first token has the effect of an item opened before it |
| `CockpitChat.EarlyRetryErasesPreviousAnswer` | src/cockpit_ui.cpp:293-294 | a concrete two-attempt run that erases the previous answer above a fresh placeholder |
| `CockpitChat.EarlyRetryErasesFirstRound` | src/cockpit_ui.cpp:801-831 | the same run in a later round of a turn erases the turn's own first answer |
| `CockpitChat.EmptyReplyChangesToolItem` | src/cockpit_ui.cpp:792-812 | a reply without text in a later round adds a newline to the tool's item, with no retry at all |
| `BrainStore.CStrKeepsExactlyNulFree` | src/brain_store.cpp:46-49 | a text survives `column_text` exactly when it holds no NUL byte |
| `BrainStore.RowRoundTrip` | src/brain_store.cpp:232-239 | writing a message and reading its row gives the message back exactly when its texts are NUL-free |
| `BrainStore.RoleNames` | src/brain_store.cpp:33-44 | every role has its name, survives it, and any other name reads as the user |
| `BrainStore.Store.constructor` | src/brain_store.cpp:52 | an empty store |
| `BrainStore.Store.EnsureSession` | src/brain_store.cpp:100-128 | adds the session once and never changes an existing one |
| `BrainStore.Store.LoadSession` | src/brain_store.cpp:248-273 | finds exactly the known sessions, with texts cut at a NUL |
| `BrainStore.Store.InsertRow` | src/brain_store.cpp:218-246 | appends one row under the next id for a known session, and changes nothing otherwise |
| `BrainStore.Store.InsertMessage` | src/brain_store.cpp:163-216 | updates the row of a known id, keeping its creation time and taking a fresh update time, or inserts and returns the new id |
| `BrainStore.Store.LoadMessages` | src/brain_store.cpp:275-304 | the messages of the session and no other, in id order |
| `BrainStore.InsertAppends` | src/brain_store.cpp:218-304 | an insert appends to its own session's messages and leaves every other session's as they are |
| `BrainStore.ReloadIsExact` | src/brain_store.cpp:275-304 | reloading changes nothing exactly when all texts are NUL-free, and a second reload never changes anything |
| `BrainStore.StoreHoldsLiveHistory` | src/brain_store.cpp:218-304 | after any interleaving of sessions, loading one gives what its live agent holds, as stored |
| `BrainStore.RebuildLoads` | src/agent.cpp:75-84 | a rebuilt agent lives on with what the store holds of its session, and changes neither rows nor other sessions |
| `BrainStore.ReloadAgreesWithLive` | src/brain_store.cpp:275-304 | after any interleaving, reloaded and live history agree exactly when NUL-free, and where a message agrees so does its cache entry |
| `BrainStore.NulCutsReload` | src/brain_store.cpp:46-49 | the concrete message `a`, NUL, `b` is reloaded as `a` |
| `AgentQueue.Fifo.Push` | include/agent_driver.hpp:111-117 | a push adds one element behind all others |
| `AgentQueue.Fifo.TryPop` | include/agent_driver.hpp:235-242 | takes the oldest element not yet taken, or nothing when all were |
| `AgentQueue.Fifo.WaitNext` | include/agent_driver.hpp:132-138 | takes the oldest event not yet taken |
| `AgentQueue.Fifo.Drain` | include/agent_driver.hpp:121-129 | takes everything queued, in order |
| `AgentLoop.RestoredCountIsExact` | src/agent.cpp:80-88 | the token count recorded on restore is the sum exactly when the sum is below 2^31 |
| `AgentLoop.RestoredCountWraps` | src/agent.cpp:85-88 | 2^31 tokens are recorded as none, 2^32 + 5 as five |
| `AgentLoop.ToInt32IsResidue` | src/agent.cpp:86-87 | the conversion to int keeps the residue modulo 2^32 in the signed range |
| `AgentLoop.Agent.Start` | src/agent.cpp:48-73 | a fresh agent has an empty history, cache and count, in step with its store |
| `AgentLoop.Agent.Restore` | src/agent.cpp:75-93 | a restored agent holds exactly the stored messages of its session, its cache in step, its count the sum |
| `AgentLoop.Agent.RebuildCache` | src/agent.cpp:79-88 | the rebuilt cache is the rendering of the history entry by entry |
| `AgentLoop.Agent.AddToHistory` | src/agent.cpp:421-425 | one message joins history, cache and store together under its new id; other sessions are untouched |
| `AgentLoop.AppendInStep` | src/agent.cpp:421-425 | growing history, cache and rows by one message keeps them in step |
| `AgentLoop.Agent.Say` | src/agent.cpp:207-226 | an appended message extends the run by one step of the grammar; other sessions of the store are untouched |
| `AgentLoop.Agent.DrainInjections` | src/agent.cpp:260-272 | all pending injections become user messages in FIFO order, and nothing else happens; other sessions of the store are untouched |
| `AgentLoop.Agent.RunRound` | src/agent.cpp:260-385 | one round appends the injections, the reply, and a tool result exactly when the reply has code; it goes on exactly then and when not marked done; other sessions of the store are untouched |
| `AgentLoop.Agent.OpenTurn` | src/agent.cpp:195-226 | a call opens with the input, and with the system prompt before it exactly when the history was empty; other sessions of the store are untouched |
| `AgentLoop.Agent.RunStep` | src/agent.cpp:186-389 | a call appends `System? User (User* Assistant Tool)* (User* Assistant)?`; it plays exactly the rounds that are not stopped, timed out, finished or beyond `max_iterations`, up to the first reply without code or marked done; its text is the concatenation of their replies; replies and tool results carry the content, time, duration and tokens of their round; injections come in FIFO order with the time of their round; ids are consecutive; history and recorded tokens grow by what the rounds report; other sessions of the store are untouched |
| `AgentLoop.RoundsAreFixed` | src/agent.cpp:243-386 | the guard, the reply and the done mark of the rounds fix how many are played |
| `AgentLoop.RoundRan` | src/agent.cpp:274-385 | one more round keeps this and decides whether the loop goes on |
| `AgentLoop.ProgressIsStep` | src/agent.cpp:243-388 | where the loop may stop, what was appended is a sentence of that grammar |
| `AgentLoop.StepIsExact` | src/agent.cpp:195-386 | that grammar, read from the front: the system prompt if the history was empty, the input, then injections before each reply, a reply with code and its tool result, and a reply without code only at the end |
| `AgentLoop.LoadIsStored` | src/brain_store.cpp:288-303 | loaded messages are unchanged by being stored again |
| `AgentLoop.RestoreTwin` | src/agent.cpp:75-88 | an agent rebuilt from a live agent's store holds what the session held before it and then its history as stored; the same history exactly when there was nothing before and no NUL, and then the same cache |
| `AgentLoop.TakeTurn` | src/agent.cpp:186-389 | a call by one of several agents of different sessions on one store leaves all of them in step with it |
| `AgentLoop.TakeTurns` | src/agent.cpp:186-389 | so does any interleaving of calls by any number of agents |
| `AgentLoop.RestoreAll` | src/agent.cpp:75-88 | each of the agents can be rebuilt from the shared store |
| `AgentLoop.InterleaveAndRestore` | src/agent.cpp:75-389 | after any interleaving of calls every agent, rebuilt from the shared store, has its own history as stored, and the same cache when the history is the same |
| `TaskForest.IndexOf` | src/cockpit_runtime.cpp:281-282 | finds the row with an id exactly when there is one |
| `TaskForest.Kids` | src/cockpit_runtime.cpp:275-288 | the rows filed under a parent, exactly those and in row order |
| `TaskForest.PathIsUnique` | src/cockpit_runtime.cpp:275-288 | a row is reached from the roots by at most one path |
| `TaskForest.PathIsShort` | src/cockpit_runtime.cpp:199-212 | no path is longer than the list, so the recursion ends although links may be cyclic |
| `TaskForest.PreorderExact` | src/cockpit_runtime.cpp:202-208 | the depth-first walk below a node visits every path through it once, in preorder |
| `TaskForest.ListingIsExact` | src/cockpit_runtime.cpp:199-212 | the whole walk visits every path from a root, and no other, in preorder with siblings in row order |
| `TaskForest.EachRowListedOnce` | src/cockpit_runtime.cpp:199-212 | exactly the rows whose parent chain ends are listed, each once, for missing, self and cyclic parents alike |
| `TaskTree.TaskNode.constructor` | src/cockpit_runtime.cpp:266-271 | a new node shows its row and has no children |
| `TaskTree.MakeNodes` | src/cockpit_runtime.cpp:263-273 | one fresh node for every row, found under its id |
| `TaskTree.LinkNodes` | src/cockpit_runtime.cpp:274-288 | after the loop every node's children are the nodes of its child rows in row order, and the roots are the rows without a known parent |
| `TaskTree.SetDepth` | src/cockpit_runtime.cpp:289-295 | sets the depth of every row below a node to its number of parent links, and of no other |
| `TaskTree.SetAllDepths` | src/cockpit_runtime.cpp:289-298 | every row whose chain ends gets its number of parent links as depth, and the rest keep theirs |
| `TaskTree.LoadTaskTree` | src/cockpit_runtime.cpp:263-300 | for distinct ids the object graph holds exactly the row forest, with these depths |
| `TaskTree.Dfs` | src/cockpit_runtime.cpp:202-208 | appends the nodes below one in the preorder of the specification |
| `TaskTree.FlattenTasks` | src/cockpit_runtime.cpp:199-212 | the flattened list is the nodes of exactly the listed rows, in that order |
| `CockpitConsent.IdsAreDistinct` | include/cockpit_consent.hpp:42-43 | equal approval ids come from the same number and the same tool name, whatever the names contain |
| `CockpitConsent.CockpitConsentProvider.constructor` | include/cockpit_consent.hpp:23-24 | nothing is pending at first |
| `CockpitConsent.CockpitConsentProvider.BeginRequest` | include/cockpit_consent.hpp:37-52 | answers at once exactly under auto-approve, with Allow and the slot untouched, or claims the slot under the id made of the next number and the tool's name |
| `CockpitConsent.CockpitConsentProvider.FinishRequest` | include/cockpit_consent.hpp:54-70 | answers with the decision in the slot or denies with "approval timeout", and frees the slot |
| `CockpitConsent.CockpitConsentProvider.Resolve` | include/cockpit_consent.hpp:73-79 | stores the decision exactly when the id is the pending one |
| `CockpitConsent.CockpitConsentProvider.PendingApprovalId` | include/cockpit_consent.hpp:82-87 | the pending id of the slot |
| `CockpitConsent.WaitingStaysRight` | include/cockpit_consent.hpp:45-79 | during a wait the slot always holds the last decision given for the waiting id |
| `CockpitConsent.NewAnswerIsRight` | include/cockpit_consent.hpp:54-70 | the answer that ends a wait is that decision, or a denial only by timeout |
| `CockpitConsent.EveryAnswerIsRight` | include/cockpit_consent.hpp:37-79 | in every interleaving with one requester each answer is the last decision for its own id while it waited, or Deny by timeout; no decision carries over |
| `CockpitConsent.AllowedOnlyIfResolved` | include/cockpit_consent.hpp:37-79 | in every interleaving a tool is allowed only by a `resolve` of its own request that allows it, given while that request waited; without one the answer is Deny, by timeout; otherwise it is the last one given |
| `CockpitConsent.LastDecisionIsLast` | include/cockpit_consent.hpp:73-79 | the decision in the slot is the last one given for the id, by position |
| `CockpitConsent.EveryWaitIsAnswered` | include/cockpit_consent.hpp:54-70 | every wait that ends gives exactly one answer |
| `CockpitConsent.AlwaysPossible` | include/cockpit_consent.hpp:26-79 | which events can come next: decisions and the switch always, a request when none waits, an end of the wait by timeout or decision |
| `CockpitConsent.Play` | include/cockpit_consent.hpp:26-79 | the provider, played through any possible list of events, ends in the slot and gives the answers of the run |
| `CockpitConsent.AnswerIdsAreDistinct` | include/cockpit_consent.hpp:42-43 | no two answers of a run have the same id |
| `CockpitConsent.PendingWhileWaiting` | include/cockpit_consent.hpp:82-87 | over every run from an empty slot, `pending_approval_id` answers exactly while a request waits, with the id of that request |
| `CockpitConsent.ForeignResolvesAreInvisible` | include/cockpit_consent.hpp:73-79 | removing every resolve that names another id changes neither the slot nor any decision |
| `AgentManager.ManagedAgentRecord.constructor` | include/agent_driver.hpp:504-517 | a new record is Running and waits for nobody |
| `AgentManager.AgentManager.ParkAgent` | include/agent_driver.hpp:543-554 | parks any known agent, also one that has ended |
| `AgentManager.AgentManager.WakeAgent` | include/agent_driver.hpp:556-569 | clears the waiting fields and turns Waiting, and only Waiting, into Running |
| `AgentManager.AgentManager.WaitingReason` | include/agent_driver.hpp:571-578 | the reason of a known agent whose flag is up |
| `AgentManager.AgentManager.InjectInto` | include/agent_driver.hpp:786-810 | queues the message behind the others and leaves the agent not Waiting |
| `AgentManager.SubAgentDriver.constructor` | include/agent_driver.hpp:389-392 | a new driver has fed nothing back |
| `AgentManager.SubAgentDriver.MaybeForwardFeedback` | include/agent_driver.hpp:398-404 | the same text goes to the parent's queue and, as a feedback event, to the bus |
| `AgentManager.SubAgentDriver.OnTurnComplete` | include/agent_driver.hpp:406-411 | a completed turn is posted and its formatted text fed back |
| `AgentManager.SubAgentDriver.OnToolResult` | include/agent_driver.hpp:413-421 | a tool result is posted, and fed back unless empty |
| `AgentProtocol.QueuesStayKept` | include/agent_driver.hpp:109-144 | no step of any thread loses, repeats or reorders an event on the bus or an injection of a driver |
| `AgentProtocol.EndsStayOnce` | include/agent_driver.hpp:600-624 | no step posts an event of an agent after its terminal one, or a second terminal one |
| `AgentProtocol.FeedStaysExact` | include/agent_driver.hpp:398-404 | after every step a parent's queue has received exactly what its sub-agent fed back or is about to, in order, and nothing from others' children |
| `AgentProtocol.StatusMove` | include/agent_driver.hpp:543-569 | every write of a record, in a critical section or outside, keeps state, waiting flag, stamp and mutex consistent |
| `AgentProtocol.InvariantStep` | include/agent_driver.hpp:502-830 | all four invariants survive every step of every thread |
| `AgentProtocol.EveryRunKeepsInvariant` | include/agent_driver.hpp:502-830 | over every interleaving from the empty manager: drained ++ queued is posted, taken ++ queued is injected, one terminal event per ended agent and after all its others, feedback equals injections, and Waiting outside the mutex implies the waiting flag |
| `AgentProtocol.EndIsReported` | include/agent_driver.hpp:600-624 | over every run Finished and the finished event are for workers that returned, Errored and the error event for those that failed, and the terminal event carries the text of the return or the error |
| `AgentProtocol.PostsReachTheBus` | include/agent_driver.hpp:109-144 | over every run the bus holds, of each agent, exactly the tokens, turns, tool calls and retries its worker posted, in that order |
| `AgentProtocol.KnownOnceRegistered` | include/agent_driver.hpp:629-632 | an agent is known to the registry exactly from its registration on |
| `AgentProtocol.CallersAreServed` | include/agent_driver.hpp:543-569 | a known agent can be injected into at any moment, and parked or woken whenever the mutex is free |
| `AgentProtocol.WorkerCanEnd` | include/agent_driver.hpp:592-624 | from any moment a worker can end in at most four steps of its own, whoever holds the registry mutex |
| `AgentProtocol.MutexIsReleased` | include/agent_driver.hpp:543-569 | whoever holds the registry mutex can release it in at most two steps |
| `AgentProtocol.FeedbackReachesParent` | include/agent_driver.hpp:398-404 | feedback reaches the parent's queue and the bus in two steps of the sub-agent's worker |
| `AgentProtocol.QueueCanBeTaken` | include/agent_driver.hpp:235-242 | a working agent can take its whole queue, oldest first, and then has taken all that was injected |
| `AgentProtocol.BusCanBeDrained` | include/agent_driver.hpp:121-129 | a drain is possible at any moment and reads everything posted |
| `AgentProtocol.WaitingIsLastCall` | include/agent_driver.hpp:543-569 | outside the mutex the waiting flag is up exactly when the last park or wake call for the agent was a park; Waiting implies this, and while the worker has not ended the two agree |
| `AgentProtocol.AwakeUntilParked` | include/agent_driver.hpp:799-808 | an agent woken by an injection and not parked since is not Waiting, whatever ran in between |
| `AgentProtocol.WaitingReasonIsLastParks` | include/agent_driver.hpp:543-578 | at every moment of every run `waiting_reason` answers with the reason of the last completed park, and only if no wake came after it |
| `AgentProtocol.ParkIsOneWrite` | include/agent_driver.hpp:543-554 | the steps of a park, undisturbed, are the one write of the sequential method |
| `AgentProtocol.WakeIsOneWrite` | include/agent_driver.hpp:556-569 | the steps of a wake, undisturbed, are the one write of the sequential method |
| `AgentProtocol.StampIsFinal` | include/agent_driver.hpp:604-618 | in every run a finish stamp once set is never cleared or changed |
| `AgentProtocol.FinalStateStep` | include/agent_driver.hpp:543-569 | a single step leaves an end state exactly when it is a park, or the second half of a wake begun before the end; no step brings it back |
| `AgentProtocol.FinalStateLastsExactly` | include/agent_driver.hpp:543-569 | in every run an end state lasts exactly as long as nobody parks the agent and no wake halfway through at its end completes |
| `AgentProtocol.EndStateLastsExactly` | include/agent_driver.hpp:600-618 | from the moment its worker returns an agent is Finished, from the moment it fails Errored, exactly as long as nobody parks it and no wake halfway through completes |
| `AgentProtocol.EndedAgentCanRun` | include/agent_driver.hpp:556-569 | two concrete runs after which an agent that posted its terminal event is listed as Running |
| `CliOptions.FindLongIsFirst` | include/cli/option_parser_impl.hpp:38-47 | the lookup finds the first option with the name, and nothing exactly when none has it |
| `CliOptions.FindShortIsFirst` | include/cli/option_parser_impl.hpp:49-61 | the same for letters, except that the NUL letter finds nothing even where options have no letter |
| `CliOptions.ParseImpl` | include/cli/option_parser_impl.hpp:105-247 | the nested loops return what the recursive parser returns, for every table, argument list and effect of the options; `CliReading.ParseIsOutcome` says what that is |
| `CliReading.ParseIsOutcome` | include/cli/option_parser_impl.hpp:105-247 | a command line is a list of options with values and an ending, read without any configuration; parsing applies those options left to right to the initial configuration and then ends so |
| `CliReading.ParsesAsRead` | include/cli/option_parser_impl.hpp:128-246 | the same for the arguments and any configuration |
| `CliReading.ApplyAllTrace` | include/cli/option_parser_impl.hpp:174-233 | all options are applied exactly when every value is accepted and every application succeeds, and otherwise the message is that of the first that fails |
| `CliReading.UseIsOne` | include/cli/option_parser_impl.hpp:77-103 | one option: rejected with the list of allowed values, or applied |
| `CliReading.LongForm` | include/cli/option_parser_impl.hpp:154-190 | `--model gpt` names the option with its value |
| `CliReading.AttachedForm` | include/cli/option_parser_impl.hpp:204-209 | `-mgpt` names it too |
| `CliReading.DetachedForm` | include/cli/option_parser_impl.hpp:210-218 | and so does `-m gpt` |
| `CliReading.FlagForm` | include/cli/option_parser_impl.hpp:192-233 | a flag is named without a value |
| `CliOptions.SplitPreserves` | include/cli/option_parser_impl.hpp:192-234 | splitting a bundle of known letters into single options changes nothing |
| `CliOptions.BundleThenNormal` | include/cli/option_parser_impl.hpp:192-234 | normalizing the arguments behind a bundle changes nothing, also when the bundle takes its value from them |
| `CliOptions.NormalizePreserves` | include/cli/option_parser_impl.hpp:128-246 | normalizing any argument list changes neither status nor config nor message |
| `CliOptions.NormalFormParsesAlike` | include/cli/option_parser_impl.hpp:105-247 | the same for the whole command line, completion or not |
| `CliOptions.NormalizeIsIdempotent` | include/cli/option_parser_impl.hpp:192-234 | a normal form is its own normal form |
| `CliReading.NormalizeIsNormal` | include/cli/option_parser_impl.hpp:192-234 | where the parser reads options, the normal form leaves no bundle that can be split |
| `CliReading.SplittableExactly` | include/cli/option_parser_impl.hpp:192-234 | a bundle can be split exactly when every letter up to the first that takes a value is known and is none of h, V and - |
| `CliOptions.LetterSplitsExactly` | include/cli/option_parser_impl.hpp:131-157 | a known letter can stand alone for every continuation exactly when it is none of h, V and - |
| `Decimal.ValueOfDec` | include/cockpit_consent.hpp:42-43 | the decimal text of a number determines it |
| `Decimal.DigitsInOrder` | src/agent.cpp:464-468 | decimal digits are those of ASCII, the last one at the end |
| `Decimal.DecLength` | src/agent.cpp:486-488 | a number below 10^k has at most k digits |

## Left out

Foreign code and I/O:

- SQLite: the messages table is a map from increasing row ids to rows, sessions are a map, and a foreign-key violation is the only failure of an insert; a statement that cannot be prepared or stepped (src/db_tools.cpp:96-110) is not modelled.
- The Lua VM: a table is a finite map from keys to values, executing code yields an arbitrary summary and an optional done mark, and `tostring` of other types is an arbitrary optional text.
- HTTP, SSE and the model: an attempt is an arbitrary list of callbacks and an optional exception; the done callback does nothing in the source.
- utf8proc: its break function is an arbitrary argument, so no property of Unicode Standard Annex #29 is stated.
- The terminal UI apart from its token, retry, turn-complete and tool-call handlers: rendering, keys, logs, tool statuses and `current_action`.
- Prompt logs, execution logs, tool-invocation rows, statistics other than the token count, prompt text, filesystem tools, embeddings and UUIDs.
- Time formatting and parsing: time stamps are arbitrary strings, and no round trip holds (include/time_utils.hpp:46 writes `/` where include/time_utils.hpp:85-88 requires `-`).
- `prune_context`, which does nothing, and tool ranking, `truncate_for_display`, the help and completion texts of the option parser.

Numbers:

- Lua numbers are whole millionths, the six decimals `std::to_string` prints; other reals, infinities, NaN and negative zero are absent, as is the conversion of a key to `size_t`.
- Backoff arithmetic is over `real`; single-precision rounding is not modelled, and a random draw is an argument from the unit interval.
- Consent numbers, row ids, attempt and iteration counters are unbounded; only the 32-bit conversion of the restored token count is written out.
- The decoder's and scans' offsets are unbounded, so `startOffset + 1` cannot wrap.

Conditions and simplifications:

- JsonText.ParsePrinted: the reader is not that of RFC 8259 section 6: a number is a sign, digits (leading zeros included), a point and six decimals; and it knows no white space.
- CacheReader.RenderReadsBack: the reader is told whether the entry has an id, is wrapped and was cut, because a message may imitate each of these marks.
- Messages.TruncationIsRecoverable: is about messages with an id, since one without has no row to page.
- CockpitConsent.EveryAnswerIsRight: assumes one request at a time, as the cockpit arranges (src/cockpit_ui.cpp:279-289); the counter increment and the claim of the slot are one step.
- CockpitConsent.CockpitConsentProvider.BeginRequest: the request callback is not modelled.
- CockpitChat.TurnItemShowsReply: the events of other agents are not interleaved with those of the run.
- CockpitChat.TurnIsTranscript: says what the screen shows when every reply is regular; the other cases are those of `CockpitChat.TurnItemShowsReply`, reply by reply.
- AgentLoop.Agent.Restore: assumes a session id without NUL, since ids are UUIDs or command-line words.
- AgentLoop.Agent.RunStep: the script of rounds is finite; its end stands for a stop request, and parsing a reply for code is an arbitrary function.
- AgentProtocol.EveryRunKeepsInvariant: ids are not spawned twice, a parent's queue exists before its sub-agent, workers and `parent_inject` fail only with `std::exception` and not between the injection and the post, and the source's unsynchronized writes of a record field are atomic and in program order.
- AgentManager.AgentManager.InjectInto: as a method it is one step; the interleaved form is the `Inject` step followed by the steps of a wake.
- AgentManager.SubAgentDriver.OnToolResult: the tool's JSON arguments, always empty here, are dropped.
- RetryPolicy.RetriesExactly: the human-readable reason of a decision is not modelled, and the error body is given by its three fields.
- SortedEntries.SortIsSorted: `std::sort` is an insertion sort on values; with distinct keys the result is the same.
- TaskTree.LoadTaskTree: needs distinct ids, which the primary key guarantees.
- BrainStore.RowRoundTrip: time stamps are assumed not to look like numbers; their columns are declared DATETIME (include/db_schema_sql.hpp:52-53), and SQLite would store a text such as `007` there as the number 7.
- The stop, timeout and `should_finish` answers of a driver are inputs of a round; waiting and blocking are not modelled.
