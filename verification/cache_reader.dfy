/** Reading a cache entry back: from the text the model receives alone, who spoke, what was said, the
    row id, and how to page the rest. */
module CacheReader {
  import opened Common
  import opened Decimal
  import opened Utf8Text
  import opened Messages

  // ---- Reading from the end of a text ----

  function DropEnd(s: string, w: string): Option<string> {
    if |w| <= |s| && s[|s| - |w|..] == w then Some(s[..|s| - |w|]) else None
  }

  function TrailingDigits(s: string): (k: nat)
    ensures k <= |s| && AllDigits(s[|s| - k..])
  {
    if s != "" && IsDigit(s[|s| - 1]) then
      var k := TrailingDigits(s[..|s| - 1]);
      assert s[|s| - 1 - k..] == s[..|s| - 1][|s| - 1 - k..] + [s[|s| - 1]];
      k + 1
    else 0
  }

  /** A text that ends in a decimal number, and what comes before it. */
  datatype Numbered = Numbered(before: string, number: nat)

  function DropNumber(s: string): Option<Numbered> {
    var k := TrailingDigits(s);
    if k == 0 then None else Some(Numbered(s[..|s| - k], Value(s[|s| - k..])))
  }

  lemma DropsEnd(s: string, w: string)
    ensures DropEnd(s + w, w) == Some(s)
  {
  }

  lemma {:induction false} DigitsTrail(s: string, digits: string)
    requires AllDigits(digits) && s != "" && !IsDigit(s[|s| - 1])
    ensures TrailingDigits(s + digits) == |digits|
  {
    if digits != "" {
      var n := |digits| - 1;
      assert (s + digits)[..|s + digits| - 1] == s + digits[..n];
      DigitsTrail(s, digits[..n]);
    } else {
      assert s + digits == s;
    }
  }

  lemma DropsNumber(s: string, n: nat)
    requires s != "" && !IsDigit(s[|s| - 1])
    ensures DropNumber(s + Dec(n)) == Some(Numbered(s, n))
  {
    DigitsTrail(s, Dec(n));
    ValueOfDec(n);
    assert (s + Dec(n))[|s|..] == Dec(n);
  }

  // ---- The reader ----

  /** What the reader is told, because a message may imitate every mark: whether the entry carries an
      id, whether a tool's answer is wrapped for the user role, and how the text was cut. */
  datatype Cut = Whole | Bare | Noted

  datatype Kind = Kind(hasId: bool, wrapped: bool, cut: Cut)

  /** How to page the rest: the size of the original and the row `db.head` must be given. */
  datatype Paging = Paging(size: nat, rowId: nat)

  datatype View = View(role: string, text: string, id: Option<nat>, paging: Option<Paging>)

  function ReadId(content: string): Option<Numbered> {
    match DropEnd(content, "</id>\n")
    case None => None
    case Some(tagged) =>
      match DropNumber(tagged)
      case None => None
      case Some(Numbered(before, id)) =>
        match DropEnd(before, "\n<id>")
        case None => None
        case Some(body) => Some(Numbered(body, id))
  }

  /** What stands between an opening mark at the start and a closing mark at the end. */
  function Between(s: string, opening: string, closing: string): Option<string> {
    if opening <= s then DropEnd(s[|opening|..], closing) else None
  }

  datatype Noting = Noting(shown: string, paging: Paging)

  function AfterSize(): string {
    "\n READ IT IN BLOCKS WITH THE TOOL(S):\ndb.head('messages', "
  }

  function AfterId(): string {
    ", 'content', offset_bytes, bytes_to_read)\n"
  }

  function BeforeSize(): string {
    "</truncated>\nTOTAL IN BYTES ORIGINAL: "
  }

  function ReadNote(message: string): Option<Noting> {
    match DropEnd(message, AfterId())
    case None => None
    case Some(call) =>
      match DropNumber(call)
      case None => None
      case Some(Numbered(upToCall, rowId)) =>
        match DropEnd(upToCall, AfterSize())
        case None => None
        case Some(total) =>
          match DropNumber(total)
          case None => None
          case Some(Numbered(upToSize, size)) =>
            match Between(upToSize, "<truncated>", BeforeSize())
            case None => None
            case Some(shown) => Some(Noting(shown, Paging(size, rowId)))
  }

  function ReadMessage(cut: Cut, role: string, id: Option<nat>, message: string): Option<View> {
    match cut
    case Whole => Some(View(role, message, id, None))
    case Bare =>
      (match Between(message, "<truncated>", "</truncated>")
       case None => None
       case Some(shown) => Some(View(role, shown, id, None)))
    case Noted =>
      match ReadNote(message)
      case None => None
      case Some(Noting(shown, paging)) => Some(View(role, shown, id, Some(paging)))
  }

  function ReadBody(kind: Kind, role: string, id: Option<nat>, body: string): Option<View> {
    if kind.wrapped then
      match Between(body, "<tool_response>\n", "\n</tool_response>")
      case None => None
      case Some(message) => ReadMessage(kind.cut, role, id, message)
    else ReadMessage(kind.cut, role, id, body)
  }

  function Read(kind: Kind, e: CacheEntry): Option<View> {
    if kind.hasId then
      match ReadId(e.content)
      case None => None
      case Some(Numbered(body, id)) => ReadBody(kind, e.role, Some(id), body)
    else ReadBody(kind, e.role, None, e.content)
  }

  // ---- What is read ----

  lemma ReadsId(body: string, id: nat)
    ensures ReadId(body + "\n<id>" + Dec(id) + "</id>\n") == Some(Numbered(body, id))
  {
    hide DropEnd, DropNumber;
    var before := body + "\n<id>";
    DropsEnd(before + Dec(id), "</id>\n");
    assert before[|before| - 1] == '>';
    DropsNumber(before, id);
    DropsEnd(body, "\n<id>");
  }

  lemma ReadsBetween(s: string, opening: string, closing: string)
    ensures Between(opening + s + closing, opening, closing) == Some(s)
  {
    assert (opening + s + closing)[|opening|..] == s + closing;
    DropsEnd(s, closing);
    hide DropEnd;
  }

  lemma NoteParts(shown: string, size: nat, id: nat)
    ensures "<truncated>" + shown + "</truncated>" + "\n" + DbToolsNote(size, id) ==
            "<truncated>" + shown + BeforeSize() + Dec(size) + AfterSize() + Dec(id) + AfterId()
  {
    hide Dec;
  }

  lemma MarksEndInSpaces()
    ensures |BeforeSize()| > 0 && !IsDigit(BeforeSize()[|BeforeSize()| - 1])
    ensures |AfterSize()| > 0 && !IsDigit(AfterSize()[|AfterSize()| - 1])
  {
  }

  lemma ReadsNote(shown: string, size: nat, id: nat)
    ensures ReadNote("<truncated>" + shown + "</truncated>" + "\n" + DbToolsNote(size, id)) ==
            Some(Noting(shown, Paging(size, id)))
  {
    NoteParts(shown, size, id);
    MarksEndInSpaces();
    hide DropEnd, DropNumber, Between, BeforeSize, AfterSize, AfterId, DbToolsNote, Dec;
    var upToSize := "<truncated>" + shown + BeforeSize();
    var upToCall := upToSize + Dec(size) + AfterSize();
    DropsEnd(upToCall + Dec(id), AfterId());
    assert upToCall[|upToCall| - 1] == AfterSize()[|AfterSize()| - 1];
    DropsNumber(upToCall, id);
    DropsEnd(upToSize + Dec(size), AfterSize());
    assert upToSize[|upToSize| - 1] == BeforeSize()[|BeforeSize()| - 1];
    DropsNumber(upToSize, size);
    ReadsBetween(shown, "<truncated>", BeforeSize());
  }

  function CutOf(o: RenderOptions, m: Message): Cut {
    if |m.content| <= o.maxToolOutBytes then Whole else if m.id == 0 then Bare else Noted
  }

  /** What of the content the model sees. */
  function Visible(o: RenderOptions, m: Message): string {
    if |m.content| <= o.maxToolOutBytes then m.content
    else if ShowsPrefix(o, m) then
      ShownIsBoundary(o, m);
      m.content[..ShownBytes(o, m)]
    else "..."
  }

  lemma PrunedReads(o: RenderOptions, m: Message, role: string, id: Option<nat>)
    ensures ReadMessage(CutOf(o, m), role, id, PruneMessage(o, m)) ==
            Some(View(role, Visible(o, m), id, if CutOf(o, m).Noted? then Some(Paging(|m.content|, m.id)) else None))
  {
    if |m.content| > o.maxToolOutBytes {
      hide PruneMessage, ReadNote, Between, Visible, DbToolsNote;
      if m.id == 0 {
        PrunedBare(o, m);
        ReadsBetween(Visible(o, m), "<truncated>", "</truncated>");
      } else {
        PrunedNoted(o, m);
        ReadsNote(Visible(o, m), |m.content|, m.id);
      }
    }
  }

  lemma PrunedBare(o: RenderOptions, m: Message)
    requires |m.content| > o.maxToolOutBytes && m.id == 0
    ensures PruneMessage(o, m) == "<truncated>" + Visible(o, m) + "</truncated>"
  {
    ShownIsBoundary(o, m);
    hide ShownBytes, Boundaries, DbToolsNote, PruneMessage;
    assert TAG_OPEN + m.content[..ShownBytes(o, m)] + TAG_CLOSE + "" == TAG_OPEN + m.content[..ShownBytes(o, m)] + TAG_CLOSE;
  }

  lemma PrunedNoted(o: RenderOptions, m: Message)
    requires |m.content| > o.maxToolOutBytes && m.id != 0
    ensures PruneMessage(o, m) ==
            "<truncated>" + Visible(o, m) + "</truncated>" + "\n" + DbToolsNote(|m.content|, m.id)
  {
    hide DbToolsNote, Boundaries;
    if ShowsPrefix(o, m) {
      ShownIsBoundary(o, m);
      NoteLast(m.content[..ShownBytes(o, m)], DbToolsNote(|m.content|, m.id));
      hide PruneMessage, ShownBytes;
    }
  }

  function RoleName(o: RenderOptions, role: Role): string {
    match role
    case System => "system"
    case User => "user"
    case Assistant => "assistant"
    case Tool => if o.supportsToolRole then "tool" else "user"
  }

  function KindOf(o: RenderOptions, m: Message): Kind {
    Kind(m.id != 0, m.role == Tool && !o.supportsToolRole, CutOf(o, m))
  }

  /** Every cache entry reads back: the role's name, the whole content or what is shown of it, the row
      id, and when there is a note the size of the original and the row to page. */
  lemma RenderReadsBack(o: RenderOptions, m: Message)
    ensures Read(KindOf(o, m), Render(o, m)) ==
            Some(View(RoleName(o, m.role), Visible(o, m), if m.id == 0 then None else Some(m.id),
                      if |m.content| > o.maxToolOutBytes && m.id != 0 then Some(Paging(|m.content|, m.id)) else None))
  {
    var message := PruneMessage(o, m);
    var body := if KindOf(o, m).wrapped then "<tool_response>\n" + message + "\n</tool_response>" else message;
    var id := if m.id == 0 then None else Some(m.id);
    PrunedReads(o, m, RoleName(o, m.role), id);
    RenderParts(o, m);
    if m.id != 0 {
      ReadsId(body, m.id);
    }
    ReadsBetween(message, "<tool_response>\n", "\n</tool_response>");
    hide ReadId, ReadMessage, Between, PruneMessage, Visible, Render;
  }

  lemma RenderParts(o: RenderOptions, m: Message)
    ensures var message := PruneMessage(o, m);
            var body := if KindOf(o, m).wrapped then "<tool_response>\n" + message + "\n</tool_response>" else message;
            Render(o, m) ==
            CacheEntry(RoleName(o, m.role), if m.id == 0 then body else body + "\n<id>" + Dec(m.id) + "</id>\n")
  {
    hide PruneMessage;
    var message := PruneMessage(o, m);
    var body := if KindOf(o, m).wrapped then "<tool_response>\n" + message + "\n</tool_response>" else message;
    assert body + "" == body;
    assert body + ("\n<id>" + Dec(m.id) + "</id>\n") == body + "\n<id>" + Dec(m.id) + "</id>\n";
    assert "<tool_response>" + "\n" + message + "\n" + "</tool_response>" == "<tool_response>\n" + message + "\n</tool_response>";
  }

  /** How much is shown: up to the last boundary within the limit less 23 bytes of tags, or less the
      125 + 23 + 5 fixed bytes around the two numbers of the note. */
  lemma VisibleIsGreatest(o: RenderOptions, m: Message)
    requires ShowsPrefix(o, m)
    ensures var fixed := if m.id == 0 then 23 else 153 + |Dec(|m.content|)| + |Dec(m.id)|;
            var room := if fixed <= o.maxToolOutBytes then o.maxToolOutBytes - fixed else 0;
            exists k :: k in Boundaries(o.brk, m.content) && k <= room && k <= |m.content|
                        && Visible(o, m) == m.content[..k]
                        && forall x :: x in Boundaries(o.brk, m.content) && x <= room ==> x <= k
  {
    OverheadIs(m);
    hide Breaks, Floor, Overhead;
    ShownIsBoundary(o, m);
    var k := ShownBytes(o, m);
    assert Visible(o, m) == m.content[..k];
  }

  lemma OverheadIs(m: Message)
    ensures Overhead(m) == 153 + |Dec(|m.content|)| + |Dec(m.id)|
  {
    hide Dec;
  }

  /** The note is given room exactly when its fixed text fits the limit. */
  lemma ShowsPrefixExactly(o: RenderOptions, m: Message)
    ensures ShowsPrefix(o, m) <==>
            && |m.content| > o.maxToolOutBytes
            && (m.id == 0 || 153 + |Dec(|m.content|)| + |Dec(m.id)| <= o.maxToolOutBytes)
  {
    OverheadIs(m);
    hide Overhead, Dec;
  }
}
