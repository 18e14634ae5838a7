/** Messages and their rendering in the request sent to the model: `prune_message` and
    `append_to_cache`. */
module Messages {
  import opened Decimal
  import opened Utf8View
  import opened Utf8Text
  import opened DbHead

  datatype Role = System | User | Assistant | Tool

  function RoleToString(role: Role): string {
    match role
    case System => "system"
    case User => "user"
    case Assistant => "assistant"
    case Tool => "tool"
  }

  function RoleFromString(s: string): Role {
    if s == "system" then System
    else if s == "assistant" then Assistant
    else if s == "tool" then Tool
    else User
  }

  /** `id` is 0 until the store has assigned the row id. */
  datatype Message = Message(id: nat, role: Role, content: string, sessionId: string,
                             createdAt: string, updatedAt: string, duration: int, tokenCount: nat)

  /** The options that decide how a message is rendered. */
  datatype RenderOptions = RenderOptions(brk: BreakFn, maxToolOutBytes: nat, supportsToolRole: bool)

  datatype CacheEntry = CacheEntry(role: string, content: string)

  const TAG_OPEN := "<truncated>"
  const TAG_CLOSE := "</truncated>"
  const TOOL_RESPONSE_TAG_OPEN := "<tool_response>"
  const TOOL_RESPONSE_TAG_CLOSE := "</tool_response>"

  /** The instruction that tells the model how to page the rest. */
  function DbToolsNote(size: nat, id: nat): string {
    "TOTAL IN BYTES ORIGINAL: " + Dec(size) + "\n READ IT IN BLOCKS WITH THE TOOL(S):\ndb.head('messages', "
    + Dec(id) + ", 'content', offset_bytes, bytes_to_read)\n"
  }

  function Overhead(m: Message): nat {
    |DbToolsNote(|m.content|, m.id)| + |TAG_OPEN| + |TAG_CLOSE| + 5
  }

  function PruneMessage(o: RenderOptions, m: Message): string {
    if |m.content| <= o.maxToolOutBytes then m.content
    else if m.id == 0 then
      var tags := |TAG_OPEN| + |TAG_CLOSE|;
      var total := if tags > o.maxToolOutBytes then 0 else o.maxToolOutBytes - tags;
      TAG_OPEN + PrefixByBytes(o.brk, m.content, total) + TAG_CLOSE
    else
      var dbtools := DbToolsNote(|m.content|, m.id);
      if Overhead(m) > o.maxToolOutBytes then TAG_OPEN + "..." + TAG_CLOSE + "\n" + dbtools
      else
        TAG_OPEN + PrefixByBytes(o.brk, m.content, o.maxToolOutBytes - Overhead(m)) + TAG_CLOSE + "\n" + dbtools
  }

  function Render(o: RenderOptions, m: Message): CacheEntry {
    var addId := if m.id != 0 then "\n<id>" + Dec(m.id) + "</id>\n" else "";
    var message := PruneMessage(o, m);
    if !o.supportsToolRole && m.role == Tool then
      CacheEntry("user", TOOL_RESPONSE_TAG_OPEN + "\n" + message + "\n" + TOOL_RESPONSE_TAG_CLOSE + addId)
    else
      CacheEntry(RoleToString(m.role), message + addId)
  }

  /** The pruned message fits: a message without an id needs room for the tags, one with an id room
      for the overhead less one byte. */
  predicate Fits(o: RenderOptions, m: Message) {
    || |m.content| <= o.maxToolOutBytes
    || (m.id == 0 && 23 <= o.maxToolOutBytes)
    || (m.id != 0 && Overhead(m) - 1 <= o.maxToolOutBytes)
  }

  /** The exact length budget; the note alone is overhead - 1 bytes. */
  lemma PrunedSize(o: RenderOptions, m: Message)
    ensures var n := |PruneMessage(o, m)|;
            && (n <= o.maxToolOutBytes <==> Fits(o, m))
            && (|m.content| > o.maxToolOutBytes && m.id != 0 && Overhead(m) > o.maxToolOutBytes ==>
                  n == Overhead(m) - 1)
            && (|m.content| > o.maxToolOutBytes && m.id != 0 && Overhead(m) <= o.maxToolOutBytes ==>
                  n <= o.maxToolOutBytes - 4)
  {
    hide Breaks, Floor, DbToolsNote;
  }

  /** Both exceptions: tags around nothing for a limit of 10, and a note that cannot fit in 10 bytes. */
  lemma PrunedSizeExceeds(o: RenderOptions, m: Message)
    requires o.maxToolOutBytes == 10 && m.content == "eleven char"
    ensures m.id == 0 ==> |PruneMessage(o, m)| >= 23
    ensures m.id != 0 ==> |PruneMessage(o, m)| == Overhead(m) - 1 && Overhead(m) - 1 >= 27
  {
    hide Breaks, Floor, DbToolsNote;
    PrunedSize(o, m);
  }

  /** A truncated message that shows some of its content. */
  predicate ShowsPrefix(o: RenderOptions, m: Message) {
    |m.content| > o.maxToolOutBytes && (m.id == 0 || Overhead(m) <= o.maxToolOutBytes)
  }

  /** How many bytes of the content a truncated message shows. */
  function ShownBytes(o: RenderOptions, m: Message): nat
    requires ShowsPrefix(o, m)
  {
    var fixed := if m.id == 0 then |TAG_OPEN| + |TAG_CLOSE| else Overhead(m);
    LastBoundaryWithin(o.brk, m.content, if fixed <= o.maxToolOutBytes then o.maxToolOutBytes - fixed else 0)
  }

  lemma ShownIsBoundary(o: RenderOptions, m: Message)
    requires ShowsPrefix(o, m)
    ensures var k := ShownBytes(o, m);
            && k in Boundaries(o.brk, m.content) && k < |m.content|
            && PruneMessage(o, m) ==
                 TAG_OPEN + m.content[..k] + TAG_CLOSE
                 + if m.id == 0 then "" else "\n" + DbToolsNote(|m.content|, m.id)
  {
    hide Breaks, Floor, DbToolsNote;
    if m.id != 0 {
      NoteLast(m.content[..ShownBytes(o, m)], DbToolsNote(|m.content|, m.id));
    }
  }

  lemma NoteLast(shown: string, note: string)
    ensures TAG_OPEN + shown + TAG_CLOSE + "\n" + note == TAG_OPEN + shown + TAG_CLOSE + ("\n" + note)
  {
  }

  /** A truncated message with an id shows a boundary prefix of the content, and reading on with
      `db.head` from that prefix's length, whatever the page sizes, recovers the rest. */
  lemma TruncationIsRecoverable(o: RenderOptions, m: Message, budgets: seq<nat>)
    requires ShowsPrefix(o, m) && m.id != 0
    requires AllPositive(budgets) && |m.content| <= |budgets|
    ensures var k := ShownBytes(o, m);
            && k in Boundaries(o.brk, m.content) && k < |m.content|
            && PruneMessage(o, m) ==
                 TAG_OPEN + m.content[..k] + TAG_CLOSE + ("\n" + DbToolsNote(|m.content|, m.id))
            && m.content[..k] + Data(Read(o.brk, m.content, k, budgets)) == m.content
            && (WellFormed(m.content) ==> WellFormed(m.content[..k]))
  {
    hide *;
    ShownIsBoundary(o, m);
    var k := ShownBytes(o, m);
    PagingLosesNothing(o.brk, m.content, k, budgets);
    BoundaryCutKeepsWellFormed(o.brk, m.content, k);
  }

  /** A row id is a positive 64-bit integer, so its tag takes at most 30 bytes; wrapping a tool
      answer in its own tags takes 33 more. */
  lemma CacheEntrySize(o: RenderOptions, m: Message)
    requires m.id < 0x8000_0000_0000_0000
    ensures var tags := (if m.id == 0 then 0 else 30) + (if !o.supportsToolRole && m.role == Tool then 33 else 0);
            && |Render(o, m).content| <= |PruneMessage(o, m)| + tags
            && (Fits(o, m) ==> |Render(o, m).content| <= o.maxToolOutBytes + tags)
  {
    hide PruneMessage, Fits;
    Int64HasAtMost19Digits(m.id);
    PrunedSize(o, m);
  }
}
