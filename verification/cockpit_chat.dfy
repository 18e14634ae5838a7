/** The conversation on screen: the token, retry and turn-complete handlers, and how the turn's
    item follows what the streamer returns. */
module CockpitChat {
  import opened Common
  import opened RetryPolicy
  import opened ChatStreamer
  import opened Decimal

  datatype ChatRole = User | Assistant | System | Tool

  datatype ChatItem = ChatItem(role: ChatRole, title: string, text: string, agentId: string,
                               collapsible: bool, expanded: bool, previewLen: int)

  /** The item a token opens when the last one is not an assistant's. */
  function NewItem(agentId: string): ChatItem {
    ChatItem(Assistant, "", "", agentId, false, false, 200)
  }

  predicate IsTarget(item: ChatItem, agentId: string) {
    item.role == Assistant && item.agentId == agentId
  }

  /** The index of the agent's latest assistant item, -1 if there is none. */
  function LatestIndex(conv: seq<ChatItem>, agentId: string): (i: int)
    ensures -1 <= i < |conv|
    ensures 0 <= i ==> IsTarget(conv[i], agentId)
    ensures forall j :: i < j < |conv| ==> !IsTarget(conv[j], agentId)
  {
    if conv == [] then -1
    else if IsTarget(conv[|conv| - 1], agentId) then |conv| - 1
    else LatestIndex(conv[..|conv| - 1], agentId)
  }

  method FindLatestConversationIndexForAgent(conv: seq<ChatItem>, agentId: string) returns (i: int)
    ensures i == LatestIndex(conv, agentId)
  {
    i := |conv| - 1;
    while i >= 0
      invariant -1 <= i < |conv|
      invariant forall j :: i < j < |conv| ==> !IsTarget(conv[j], agentId)
    {
      if conv[i].role == Assistant && conv[i].agentId == agentId {
        return;
      }
      i := i - 1;
    }
  }

  function ClearTarget(conv: seq<ChatItem>, agentId: string): (c: seq<ChatItem>)
    ensures |c| == |conv|
  {
    var i := LatestIndex(conv, agentId);
    if i < 0 then conv else conv[i := conv[i].(text := "")]
  }

  function Apply(conv: seq<ChatItem>, agentId: string, e: Event): seq<ChatItem> {
    match e
    case Token(text) =>
      var open := if conv == [] || conv[|conv| - 1].role != Assistant then conv + [NewItem(agentId)] else conv;
      var last := open[|open| - 1];
      open[|open| - 1 := last.(agentId := agentId, text := last.text + text)]
    case RetryNotice(_) => ClearTarget(conv, agentId)
    case TurnComplete(_) =>
      if conv == [] then conv else conv[|conv| - 1 := conv[|conv| - 1].(text := conv[|conv| - 1].text + "\n")]
  }

  function Fold(conv: seq<ChatItem>, agentId: string, es: seq<Event>): (c: seq<ChatItem>)
    ensures |c| >= |conv|
    decreases es
  {
    if es == [] then conv else Fold(Apply(conv, agentId, es[0]), agentId, es[1..])
  }

  /** What the tool-call handler pushes. */
  function ToolItem(toolName: string, success: bool, summary: string): ChatItem {
    ChatItem(Tool, "[" + toolName + "] " + (if success then CHECK_MARK else CROSS) + " " + Dec(|summary|) + " bytes",
             summary, "", true, false, 200)
  }

  /** The UTF-8 bytes of U+2713 and U+2717. */
  const CHECK_MARK := [0xE2 as char, 0x9C as char, 0x93 as char]
  const CROSS := [0xE2 as char, 0x9C as char, 0x97 as char]

  class Cockpit {
    var conversation: seq<ChatItem>
    var selectedChat: int

    method HandleToolCall(toolName: string, success: bool, summary: string)
      modifies `conversation
      ensures conversation == old(conversation) + [ToolItem(toolName, success, summary)]
    {
      var mark := if success then [0xE2 as char, 0x9C as char, 0x93 as char]
                  else [0xE2 as char, 0x9C as char, 0x97 as char];
      var title := "[" + toolName + "] " + mark + " " + Dec(|summary|) + " bytes";
      conversation := conversation + [ChatItem(Tool, title, summary, "", true, false, 200)];
    }

    method ClearRetryTarget(agentId: string) returns (cleared: bool)
      modifies this
      ensures conversation == ClearTarget(old(conversation), agentId)
      ensures cleared <==> exists i :: 0 <= i < |conversation| && IsTarget(conversation[i], agentId)
      ensures cleared <==> LatestIndex(old(conversation), agentId) >= 0
      ensures selectedChat == if cleared then LatestIndex(conversation, agentId) else old(selectedChat)
    {
      var index := FindLatestConversationIndexForAgent(conversation, agentId);
      if index < 0 {
        return false;
      }
      conversation := conversation[index := conversation[index].(text := "")];
      assert IsTarget(conversation[index], agentId);
      SameTarget(old(conversation), conversation, agentId);
      selectedChat := index;
      cleared := true;
    }

    /** The handler of one event. */
    method HandleOne(agentId: string, e: Event)
      modifies this
      ensures conversation == Apply(old(conversation), agentId, e)
      ensures e.Token? ==> selectedChat == |conversation| - 1
      ensures e.TurnComplete? || (e.RetryNotice? && LatestIndex(old(conversation), agentId) < 0) ==>
                selectedChat == old(selectedChat)
      ensures e.RetryNotice? && LatestIndex(old(conversation), agentId) >= 0 ==>
                selectedChat == LatestIndex(conversation, agentId)
    {
      match e {
        case Token(text) =>
          if conversation == [] || conversation[|conversation| - 1].role != Assistant {
            conversation := conversation + [ChatItem(Assistant, "", "", agentId, false, false, 200)];
          }
          var n := |conversation| - 1;
          conversation := conversation[n := conversation[n].(agentId := agentId)];
          conversation := conversation[n := conversation[n].(text := conversation[n].text + text)];
          selectedChat := n;
        case RetryNotice(_) =>
          var _ := ClearRetryTarget(agentId);
        case TurnComplete(_) =>
          if conversation != [] {
            var n := |conversation| - 1;
            conversation := conversation[n := conversation[n].(text := conversation[n].text + "\n")];
          }
      }
    }

    /** The handlers in the order the events were drained. */
    method Handle(agentId: string, es: seq<Event>)
      modifies this
      ensures conversation == Fold(old(conversation), agentId, es)
    {
      hide Apply;
      assert es[0..] == es;
      for i := 0 to |es|
        invariant Fold(conversation, agentId, es[i..]) == Fold(old(conversation), agentId, es)
      {
        assert es[i..][0] == es[i] && es[i..][1..] == es[i + 1..];
        HandleOne(agentId, es[i]);
      }
    }
  }

  /** Clearing a text does not move the latest index. */
  lemma SameTarget(conv: seq<ChatItem>, conv': seq<ChatItem>, agentId: string)
    requires |conv| == |conv'|
    requires forall i :: 0 <= i < |conv| ==> IsTarget(conv[i], agentId) == IsTarget(conv'[i], agentId)
    ensures LatestIndex(conv, agentId) == LatestIndex(conv', agentId)
  {
  }

  // ---- One stream's events over any conversation ----

  lemma LatestBelow(base: seq<ChatItem>, item: ChatItem, agentId: string)
    ensures LatestIndex(base + [item], agentId) ==
            if IsTarget(item, agentId) then |base| else LatestIndex(base, agentId)
  {
    assert (base + [item])[..|base|] == base;
  }

  /** One event on a conversation whose last item is an assistant's. */
  lemma ApplyToOpen(base: seq<ChatItem>, item: ChatItem, agentId: string, e: Event)
    requires item.role == Assistant
    ensures Apply(base + [item], agentId, e) ==
            match e
            case Token(t) => base + [item.(agentId := agentId, text := item.text + t)]
            case RetryNotice(_) =>
              if item.agentId == agentId then base + [item.(text := "")] else ClearTarget(base, agentId) + [item]
            case TurnComplete(_) => base + [item.(text := item.text + "\n")]
  {
    LatestBelow(base, item, agentId);
  }

  lemma ClearTwice(base: seq<ChatItem>, agentId: string)
    ensures ClearTarget(ClearTarget(base, agentId), agentId) == ClearTarget(base, agentId)
  {
    SameTarget(base, ClearTarget(base, agentId), agentId);
  }

  /** The events of a run: tokens and notices, with a completion only at the end. */
  predicate IsTurn(es: seq<Event>) {
    es != [] ==> if es[0].TurnComplete? then |es| == 1 else IsTurn(es[1..])
  }

  predicate HasToken(es: seq<Event>) {
    es != [] && (es[0].Token? || HasToken(es[1..]))
  }

  /** The events from the first one that is not a notice. */
  function DropNotices(es: seq<Event>): seq<Event> {
    if es != [] && es[0].RetryNotice? then DropNotices(es[1..]) else es
  }

  function Newline(es: seq<Event>): string {
    if Completions(es) == [] then "" else "\n"
  }

  /** Where the turn's item is or will be: the last item if it is an assistant's, else behind it. */
  function TurnIndex(conv: seq<ChatItem>): (n: nat)
    ensures n <= |conv|
    ensures n < |conv| ==> n == |conv| - 1 && conv[n].role == Assistant
    ensures n == |conv| && conv != [] ==> conv[|conv| - 1].role != Assistant
  {
    if conv == [] || conv[|conv| - 1].role != Assistant then |conv| else |conv| - 1
  }

  /** The last item is the agent's own. */
  predicate IsClaimed(conv: seq<ChatItem>, agentId: string) {
    TurnIndex(conv) < |conv| && conv[TurnIndex(conv)].agentId == agentId
  }

  /** What a turn leaves of the other items: a retry that comes before the turn has an item of the
      agent clears the agent's latest earlier one. */
  function OthersAfter(conv: seq<ChatItem>, agentId: string, es: seq<Event>): (others: seq<ChatItem>)
    ensures |others| == TurnIndex(conv)
  {
    var others := conv[..TurnIndex(conv)];
    if !IsClaimed(conv, agentId) && es != [] && es[0].RetryNotice? then ClearTarget(others, agentId) else others
  }

  /** The item the turn writes to, as it is at the start. */
  function OwnItem(conv: seq<ChatItem>, agentId: string): ChatItem {
    if TurnIndex(conv) < |conv| then conv[TurnIndex(conv)] else NewItem(agentId)
  }

  /** The events that reach the turn's item: those behind the notices an item of another agent misses. */
  function Reaching(conv: seq<ChatItem>, agentId: string, es: seq<Event>): seq<Event> {
    if IsClaimed(conv, agentId) then es else DropNotices(es)
  }

  /** The turn's item with the text it shows in the end. */
  function TurnItem(conv: seq<ChatItem>, agentId: string, es: seq<Event>, text: string): ChatItem {
    var item := OwnItem(conv, agentId);
    item.(agentId := if HasToken(es) then agentId else item.agentId, text := text)
  }

  predicate HasItem(conv: seq<ChatItem>, es: seq<Event>) {
    TurnIndex(conv) < |conv| || HasToken(es)
  }

  /** A completion without any item of its own ends the last item with a newline. */
  function EndLast(conv: seq<ChatItem>, newline: string): (c: seq<ChatItem>)
    ensures |c| == |conv|
  {
    if conv == [] then conv else conv[|conv| - 1 := conv[|conv| - 1].(text := conv[|conv| - 1].text + newline)]
  }

  /** The conversation after a turn. */
  function AfterTurn(conv: seq<ChatItem>, agentId: string, es: seq<Event>): seq<ChatItem> {
    var others := OthersAfter(conv, agentId, es);
    var text := SinceRetry(OwnItem(conv, agentId).text, Reaching(conv, agentId, es)) + Newline(es);
    if HasItem(conv, es) then others + [TurnItem(conv, agentId, es, text)] else EndLast(others, Newline(es))
  }

  /** Once the item carries the agent's id, only it changes. */
  lemma {:induction false} FoldClaimed(base: seq<ChatItem>, item: ChatItem, agentId: string, es: seq<Event>)
    requires item.role == Assistant && item.agentId == agentId && IsTurn(es)
    ensures Fold(base + [item], agentId, es) == base + [item.(text := SinceRetry(item.text, es) + Newline(es))]
    decreases es
  {
    hide Apply;
    if es == [] {
      assert item.text + "" == item.text;
    } else {
      ApplyToOpen(base, item, agentId, es[0]);
      match es[0]
      case Token(t) => FoldClaimed(base, item.(text := item.text + t), agentId, es[1..]);
      case RetryNotice(_) => FoldClaimed(base, item.(text := ""), agentId, es[1..]);
      case TurnComplete(_) => assert es[1..] == [];
    }
  }

  /** An assistant's item of another agent is claimed by the first token; notices before it clear
      the agent's latest earlier item instead. */
  lemma {:induction false} FoldUnclaimed(base: seq<ChatItem>, item: ChatItem, agentId: string, es: seq<Event>)
    requires item.role == Assistant && item.agentId != agentId && IsTurn(es)
    ensures Fold(base + [item], agentId, es) ==
            (if es != [] && es[0].RetryNotice? then ClearTarget(base, agentId) else base) +
            [item.(agentId := if HasToken(es) then agentId else item.agentId,
                   text := SinceRetry(item.text, DropNotices(es)) + Newline(es))]
    decreases es
  {
    hide Apply, ClearTarget;
    if es == [] {
      assert item.text + "" == item.text;
    } else {
      ApplyToOpen(base, item, agentId, es[0]);
      match es[0]
      case Token(t) => FoldClaimed(base, item.(agentId := agentId, text := item.text + t), agentId, es[1..]);
      case RetryNotice(_) =>
        ClearTwice(base, agentId);
        FoldUnclaimed(ClearTarget(base, agentId), item, agentId, es[1..]);
      case TurnComplete(_) => assert es[1..] == [];
    }
  }

  /** When the last item is not an assistant's, the first token opens the turn's item. */
  lemma FirstTokenOpensItem(conv: seq<ChatItem>, agentId: string, es: seq<Event>)
    requires es != [] && es[0].Token? && TurnIndex(conv) == |conv|
    ensures Fold(conv, agentId, es) == Fold(conv + [NewItem(agentId)], agentId, es)
  {
    OpensItem(conv, agentId, es[0]);
    hide Apply;
  }

  lemma OpensItem(conv: seq<ChatItem>, agentId: string, e: Event)
    requires e.Token? && TurnIndex(conv) == |conv|
    ensures Apply(conv, agentId, e) == Apply(conv + [NewItem(agentId)], agentId, e)
  {
  }

  /** Without an assistant's item at the end, notices clear the agent's latest earlier item, the
      first token opens an item, and a turn without tokens ends the last item there is. */
  lemma {:induction false} FoldClosed(conv: seq<ChatItem>, agentId: string, es: seq<Event>)
    requires TurnIndex(conv) == |conv| && IsTurn(es)
    ensures Fold(conv, agentId, es) ==
            var others := if es != [] && es[0].RetryNotice? then ClearTarget(conv, agentId) else conv;
            if HasToken(es) then others + [NewItem(agentId).(text := SinceRetry("", DropNotices(es)) + Newline(es))]
            else EndLast(others, Newline(es))
    decreases es
  {
    if es == [] {
      assert conv != [] ==> conv[|conv| - 1].text + "" == conv[|conv| - 1].text;
    } else {
      match es[0]
      case Token(t) =>
        FirstTokenOpensItem(conv, agentId, es);
        FoldClaimed(conv, NewItem(agentId), agentId, es);
      case RetryNotice(_) =>
        ClearTwice(conv, agentId);
        ClearKeepsRoles(conv, agentId);
        hide ClearTarget;
        FoldClosed(ClearTarget(conv, agentId), agentId, es[1..]);
      case TurnComplete(_) => assert es[1..] == [];
    }
  }

  lemma ClearKeepsRoles(conv: seq<ChatItem>, agentId: string)
    requires TurnIndex(conv) == |conv|
    ensures TurnIndex(ClearTarget(conv, agentId)) == |conv|
  {
  }

  /** Every conversation, every list of events that can come from one call of `stream`. */
  lemma FoldIsTurn(conv: seq<ChatItem>, agentId: string, es: seq<Event>)
    requires IsTurn(es)
    ensures Fold(conv, agentId, es) == AfterTurn(conv, agentId, es)
  {
    hide Fold, ClearTarget, HasToken, DropNotices, SinceRetry, Newline, IsTurn;
    var n := TurnIndex(conv);
    if n == |conv| {
      FoldClosed(conv, agentId, es);
      assert conv[..n] == conv;
    } else {
      assert conv == conv[..n] + [conv[n]];
      if IsClaimed(conv, agentId) {
        FoldClaimed(conv[..n], conv[n], agentId, es);
      } else {
        FoldUnclaimed(conv[..n], conv[n], agentId, es);
      }
    }
  }

  // ---- The runs of the streamer ----

  lemma {:induction false} TokensThenTurn(tokens: seq<Event>, es: seq<Event>)
    requires (forall e :: e in tokens ==> !e.TurnComplete?) && IsTurn(es)
    ensures IsTurn(tokens + es)
  {
    if tokens == [] {
      assert tokens + es == es;
    } else {
      assert tokens[0] in tokens;
      TokensThenTurn(tokens[1..], es);
      assert (tokens + es)[1..] == tokens[1..] + es;
    }
  }

  lemma {:induction false} RunIsTurn(cfg: RetryConfig, script: Script, attempt: nat)
    ensures IsTurn(RunFrom(cfg, script, attempt).events)
    decreases cfg.maxAttempts - attempt
  {
    hide Decide, ErrorText, Pieces, SinceRetry;
    if attempt < cfg.maxAttempts {
      var a := script(attempt);
      var pieces := Pieces(a.callbacks);
      match Try(cfg, a, attempt)
      case Done(run) =>
        if !a.stopAtStart {
          var tail := run.events[|pieces|..];
          assert run.events == pieces + tail;
          assert |tail| == 2 ==> tail[1..] == [tail[1]];
          TokensThenTurn(pieces, tail);
        }
      case Again(es, _) =>
        RunIsTurn(cfg, script, attempt + 1);
        TokensThenTurn(es, RunFrom(cfg, script, attempt + 1).events);
    }
  }

  lemma {:induction false} KeptUntilNotice(shown: string, es: seq<Event>)
    ensures SinceRetry(shown, es) == (if Retries(es) == [] then shown else "") + SinceRetry("", es)
    decreases es
  {
    if es != [] {
      match es[0]
      case Token(t) =>
        KeptUntilNotice(shown + t, es[1..]);
        KeptUntilNotice("" + t, es[1..]);
      case RetryNotice(_) =>
      case TurnComplete(_) => KeptUntilNotice(shown, es[1..]);
    }
  }

  lemma {:induction false} NoticesDropNothing(es: seq<Event>)
    ensures SinceRetry("", DropNotices(es)) == SinceRetry("", es)
  {
    if es != [] && es[0].RetryNotice? {
      NoticesDropNothing(es[1..]);
    }
  }

  /** What the turn's item showed before and still shows: its text, unless a notice reached it. */
  function KeptText(conv: seq<ChatItem>, agentId: string, es: seq<Event>): string {
    if Retries(Reaching(conv, agentId, es)) == [] then OwnItem(conv, agentId).text else ""
  }

  /** What a run adds: the returned text, the error text if it failed, and a newline; an interrupted
      run adds what it had delivered since the last notice. */
  function RunText(run: Run): string {
    if Completed(run) then run.reply + FailureText(run) + "\n" else SinceRetry("", run.events)
  }

  lemma RunTextIsShown(cfg: RetryConfig, script: Script)
    ensures var run := RunFrom(cfg, script, 0);
            && SinceRetry("", run.events) + Newline(run.events) == RunText(run)
            && (Newline(run.events) == "\n" <==> Completed(run))
  {
    hide RunFrom, Completions, SinceRetry;
    var run := RunFrom(cfg, script, 0);
    NoticesAndCompletion(cfg, script, 0);
    if Completed(run) {
      ShownIsReply(cfg, script, 0, "");
      assert "" + run.reply + FailureText(run) == run.reply + FailureText(run);
    }
  }

  lemma TurnText(conv: seq<ChatItem>, agentId: string, es: seq<Event>)
    ensures SinceRetry(OwnItem(conv, agentId).text, Reaching(conv, agentId, es)) ==
            KeptText(conv, agentId, es) + SinceRetry("", es)
  {
    hide SinceRetry, DropNotices, OwnItem;
    KeptUntilNotice(OwnItem(conv, agentId).text, Reaching(conv, agentId, es));
    NoticesDropNothing(es);
  }

  /** Over every conversation and every run: the turn's item shows what was there and was not
      retried away, then the text of the run; without tokens there is an item only if the
      conversation ended in an assistant's. */
  lemma TurnItemShowsReply(cfg: RetryConfig, script: Script, conv: seq<ChatItem>, agentId: string)
    ensures var run := RunFrom(cfg, script, 0);
            var others := OthersAfter(conv, agentId, run.events);
            Fold(conv, agentId, run.events) ==
              if HasItem(conv, run.events)
              then others + [TurnItem(conv, agentId, run.events, KeptText(conv, agentId, run.events) + RunText(run))]
              else EndLast(others, if Completed(run) then "\n" else "")
  {
    hide RunFrom, Fold, OthersAfter, HasItem, TurnItem, KeptText, RunText, SinceRetry, Reaching, OwnItem, EndLast;
    var run := RunFrom(cfg, script, 0);
    RunIsTurn(cfg, script, 0);
    FoldIsTurn(conv, agentId, run.events);
    TurnText(conv, agentId, run.events);
    RunTextIsShown(cfg, script);
    assert KeptText(conv, agentId, run.events) + SinceRetry("", run.events) + Newline(run.events) ==
           KeptText(conv, agentId, run.events) + (SinceRetry("", run.events) + Newline(run.events));
  }

  /** A run without any text: it did not fail, and no call delivered a piece. */
  ghost predicate IsSilent(cfg: RetryConfig, script: Script, attempt: nat) {
    && !RunFrom(cfg, script, attempt).ending.Failed?
    && forall i :: attempt <= i < attempt + RunFrom(cfg, script, attempt).calls ==> Pieces(script(i).callbacks) == []
  }

  lemma {:induction false} HasTokenAppend(es: seq<Event>, fs: seq<Event>)
    ensures HasToken(es + fs) <==> HasToken(es) || HasToken(fs)
  {
    if es == [] {
      assert es + fs == fs;
    } else {
      HasTokenAppend(es[1..], fs);
      assert (es + fs)[1..] == es[1..] + fs;
    }
  }

  lemma {:induction false} SilentRunHasNoToken(cfg: RetryConfig, script: Script, attempt: nat)
    ensures HasToken(RunFrom(cfg, script, attempt).events) <==> !IsSilent(cfg, script, attempt)
    decreases cfg.maxAttempts - attempt
  {
    hide Try, Pieces, HasToken;
    if attempt < cfg.maxAttempts {
      AttemptHasToken(cfg, script(attempt), attempt);
      match Try(cfg, script(attempt), attempt)
      case Done(_) =>
      case Again(es, _) =>
        SilentRunHasNoToken(cfg, script, attempt + 1);
        HasTokenAppend(es, RunFrom(cfg, script, attempt + 1).events);
    } else {
      NothingHasNoToken();
    }
  }

  lemma NothingHasNoToken()
    ensures !HasToken([])
  {
  }

  /** One attempt posts a token exactly when it delivers a piece or fails for good. */
  lemma AttemptHasToken(cfg: RetryConfig, a: Attempt, attempt: nat)
    ensures var t, pieces := Try(cfg, a, attempt), Pieces(a.callbacks);
            && (t.Done? ==> t.run.calls == (if a.stopAtStart then 0 else 1)
                            && (HasToken(t.run.events) <==> t.run.ending.Failed? || (!a.stopAtStart && pieces != [])))
            && (t.Again? ==> (HasToken(t.events) <==> pieces != []))
  {
    hide Decide, ErrorText, Pieces, SinceRetry;
    var pieces := Pieces(a.callbacks);
    var t := Try(cfg, a, attempt);
    assert pieces != [] ==> pieces[0] in pieces && HasToken(pieces);
    var es := if t.Done? then t.run.events else t.events;
    if !a.stopAtStart {
      var tail := es[|pieces|..];
      assert es == pieces + tail;
      HasTokenAppend(pieces, tail);
      assert |tail| > 0 ==> tail[1..] == [] || |tail| == 2;
    }
  }

  /** The first attempt was retried before it had delivered any text. */
  predicate RetriedBeforeText(cfg: RetryConfig, script: Script) {
    0 < cfg.maxAttempts && Try(cfg, script(0), 0).Again? && Pieces(script(0).callbacks) == []
  }

  /** The agent already has an item with text. */
  predicate HasEarlierText(base: seq<ChatItem>, agentId: string) {
    LatestIndex(base, agentId) >= 0 && base[LatestIndex(base, agentId)].text != ""
  }

  /** A run that completes without any text ends in a conversation whose last item is not an
      assistant's: there is nothing of its own to end with a newline. */
  ghost predicate EndsForeignItem(cfg: RetryConfig, script: Script, conv: seq<ChatItem>) {
    && conv != [] && conv[|conv| - 1].role != Assistant
    && Completed(RunFrom(cfg, script, 0)) && IsSilent(cfg, script, 0)
  }

  /** Over every conversation and every run, exactly when the other items stay as they were. */
  lemma OtherItemsUnchanged(cfg: RetryConfig, script: Script, conv: seq<ChatItem>, agentId: string)
    ensures var n := TurnIndex(conv);
            var after := Fold(conv, agentId, RunFrom(cfg, script, 0).events);
            && n <= |after|
            && (after[..n] == conv[..n] <==>
                && !EndsForeignItem(cfg, script, conv)
                && (IsClaimed(conv, agentId)
                    || !(RetriedBeforeText(cfg, script) && HasEarlierText(conv[..n], agentId))))
  {
    var n := TurnIndex(conv);
    var run := RunFrom(cfg, script, 0);
    TurnItemShowsReply(cfg, script, conv, agentId);
    SilentRunHasNoToken(cfg, script, 0);
    FirstEvent(cfg, script);
    ClearingIsVisible(conv[..n], agentId);
    hide RunFrom, Fold, RetriedBeforeText, HasEarlierText, ClearTarget, IsSilent, HasToken, TurnItem, KeptText, RunText, Completed;
    var others := OthersAfter(conv, agentId, run.events);
    if HasItem(conv, run.events) {
      assert (others + [TurnItem(conv, agentId, run.events, KeptText(conv, agentId, run.events) + RunText(run))])[..n] == others;
    } else {
      assert conv[..n] == conv;
      EndLastIsVisible(conv, agentId, others, if Completed(run) then "\n" else "");
      assert EndLast(others, if Completed(run) then "\n" else "")[..n] == EndLast(others, if Completed(run) then "\n" else "");
    }
  }

  /** Ending the last item with a newline shows; ending it with nothing does not. */
  lemma EndLastIsVisible(conv: seq<ChatItem>, agentId: string, others: seq<ChatItem>, newline: string)
    requires TurnIndex(conv) == |conv| && (others == conv || others == ClearTarget(conv, agentId))
    ensures EndLast(others, newline) == conv <==> others == conv && (newline == "" || conv == [])
  {
    if conv != [] {
      var n := |conv| - 1;
      assert others[n] == conv[n];
      assert EndLast(others, newline)[n].text == conv[n].text + newline;
      assert newline == "" ==> conv[n].text + newline == conv[n].text && EndLast(others, newline) == others;
      assert newline != "" ==> |conv[n].text + newline| > |conv[n].text|;
    }
  }

  lemma ClearingIsVisible(base: seq<ChatItem>, agentId: string)
    ensures ClearTarget(base, agentId) == base <==> !HasEarlierText(base, agentId)
  {
    var i := LatestIndex(base, agentId);
    assert i >= 0 ==> ClearTarget(base, agentId)[i].text == "";
  }

  lemma FirstEvent(cfg: RetryConfig, script: Script)
    ensures var es := RunFrom(cfg, script, 0).events;
            es != [] && es[0].RetryNotice? <==> RetriedBeforeText(cfg, script)
  {
    hide Decide, ErrorText, SinceRetry;
    var pieces := Pieces(script(0).callbacks);
    var es := RunFrom(cfg, script, 0).events;
    if cfg.maxAttempts > 0 && !script(0).stopAtStart && pieces != [] {
      assert es[0] == pieces[0] && pieces[0] in pieces;
    }
  }

  // ---- A whole turn: runs and tool results in turns ----

  datatype Round = Round(script: Script, tool: Option<ChatItem>)

  function PlayRounds(cfg: RetryConfig, conv: seq<ChatItem>, agentId: string, rounds: seq<Round>): seq<ChatItem>
    decreases |rounds|
  {
    if rounds == [] then conv
    else
      var streamed := Fold(conv, agentId, RunFrom(cfg, rounds[0].script, 0).events);
      PlayRounds(cfg, streamed + ToolOf(rounds[0]), agentId, rounds[1..])
  }

  function ToolOf(round: Round): seq<ChatItem> {
    if round.tool.Some? then [round.tool.value] else []
  }

  /** One item with the text of each run, then the tool's. */
  function Transcript(cfg: RetryConfig, item: ChatItem, agentId: string, rounds: seq<Round>): seq<ChatItem>
    decreases |rounds|
  {
    if rounds == [] then []
    else
      [item.(agentId := agentId, text := RunText(RunFrom(cfg, rounds[0].script, 0)))] + ToolOf(rounds[0])
      + Transcript(cfg, NewItem(agentId), agentId, rounds[1..])
  }

  /** Every round says something before it is retried; only the last one may lack a tool result. */
  ghost predicate Regular(cfg: RetryConfig, rounds: seq<Round>) {
    forall i :: 0 <= i < |rounds| ==>
      && !IsSilent(cfg, rounds[i].script, 0) && !RetriedBeforeText(cfg, rounds[i].script)
      && (rounds[i].tool.Some? ==> rounds[i].tool.value.role == Tool)
      && (i < |rounds| - 1 ==> rounds[i].tool.Some?)
  }

  lemma RoundShowsText(cfg: RetryConfig, script: Script, conv: seq<ChatItem>, agentId: string)
    requires OwnItem(conv, agentId).text == "" && !IsSilent(cfg, script, 0) && !RetriedBeforeText(cfg, script)
    ensures Fold(conv, agentId, RunFrom(cfg, script, 0).events) ==
            conv[..TurnIndex(conv)] +
            [OwnItem(conv, agentId).(agentId := agentId, text := RunText(RunFrom(cfg, script, 0)))]
  {
    var run := RunFrom(cfg, script, 0);
    TurnItemShowsReply(cfg, script, conv, agentId);
    SilentRunHasNoToken(cfg, script, 0);
    FirstEvent(cfg, script);
    hide RunFrom, Fold, RetriedBeforeText, IsSilent, HasToken, RunText, OwnItem, Reaching, ClearTarget;
    assert "" + RunText(run) == RunText(run);
  }

  /** Over a whole turn of regular rounds the conversation grows by exactly the transcript, from the
      turn's first item on. */
  lemma {:induction false} TurnIsTranscript(cfg: RetryConfig, conv: seq<ChatItem>, agentId: string, rounds: seq<Round>)
    requires OwnItem(conv, agentId).text == "" && Regular(cfg, rounds) && rounds != []
    ensures PlayRounds(cfg, conv, agentId, rounds) ==
            conv[..TurnIndex(conv)] + Transcript(cfg, OwnItem(conv, agentId), agentId, rounds)
    decreases |rounds|
  {
    hide Fold, RunText, RunFrom, IsSilent, RetriedBeforeText;
    var streamed := Fold(conv, agentId, RunFrom(cfg, rounds[0].script, 0).events);
    RoundShowsText(cfg, rounds[0].script, conv, agentId);
    if |rounds| == 1 {
      assert rounds[1..] == [];
    } else {
      var next := streamed + ToolOf(rounds[0]);
      assert next[..|next|] == next && TurnIndex(next) == |next|;
      TurnIsTranscript(cfg, next, agentId, rounds[1..]);
    }
  }

  // ---- Runs that change other items ----

  /** A transport error before any text, then the reply "hi". */
  ghost predicate FailsThenSaysHi(cfg: RetryConfig, script: Script) {
    && cfg.maxAttempts == 2
    && script(0) == Attempt(false, [], Some("connection reset"), 0.0, false)
    && script(1) == Attempt(false, [OnData(Chunk(None, Some(Some("hi")), false))], None, 0.0, false)
  }

  /** The placeholder that `start_agent_turn` pushes does not protect the previous answer. */
  lemma EarlyRetryErasesPreviousAnswer(cfg: RetryConfig, script: Script)
    requires FailsThenSaysHi(cfg, script)
    ensures var base := [NewItem("main").(text := "previous answer")];
            && RunFrom(cfg, script, 0).reply == "hi"
            && Fold(base + [NewItem("")], "main", RunFrom(cfg, script, 0).events)[0].text == ""
  {
    hide FullJitterDelay;
    var base := [NewItem("main").(text := "previous answer")];
    SecondReply(cfg, script);
    TurnItemShowsReply(cfg, script, base + [NewItem("")], "main");
    assert (base + [NewItem("")])[..1] == base && LatestIndex(base, "main") == 0;
    hide Fold;
  }

  /** What the screen shows after the first round of a turn: the answer and the tool's output. */
  function AfterFirstRound(): seq<ChatItem> {
    [NewItem("main").(text := "first answer\n"), ToolItem("lua", true, "output")]
  }

  /** In a later round the retry erases this turn's own first answer. */
  lemma EarlyRetryErasesFirstRound(cfg: RetryConfig, script: Script)
    requires FailsThenSaysHi(cfg, script)
    ensures Fold(AfterFirstRound(), "main", RunFrom(cfg, script, 0).events)[0].text == ""
  {
    hide FullJitterDelay;
    var conv := AfterFirstRound();
    SecondReply(cfg, script);
    TurnItemShowsReply(cfg, script, conv, "main");
    assert conv[..2] == conv && conv[..1] == [conv[0]];
    assert LatestIndex(conv[..1], "main") == 0 && LatestIndex(conv, "main") == 0;
    hide Fold;
  }

  /** In a later round a reply without text ends the tool's item with a newline, with no retry at all. */
  lemma EmptyReplyChangesToolItem(cfg: RetryConfig, script: Script)
    requires cfg.maxAttempts > 0 && script(0) == Attempt(false, [], None, 0.0, false)
    ensures !RetriedBeforeText(cfg, script) && RunFrom(cfg, script, 0).reply == ""
    ensures var conv := AfterFirstRound();
            Fold(conv, "main", RunFrom(cfg, script, 0).events) == conv[1 := conv[1].(text := "output\n")]
  {
    var conv := AfterFirstRound();
    assert RunFrom(cfg, script, 0) == Run(Succeeded, "", [] + [TurnComplete("")], None, 1, []);
    assert [] + [TurnComplete("")] == [TurnComplete("")] && [TurnComplete("")][1..] == [];
    TurnItemShowsReply(cfg, script, conv, "main");
    assert conv[..2] == conv && "output" + "\n" == "output\n";
    hide Fold;
  }

  lemma SecondReply(cfg: RetryConfig, script: Script)
    requires FailsThenSaysHi(cfg, script)
    ensures var run := RunFrom(cfg, script, 0);
            Completed(run) && run.reply == "hi" && run.events != [] && run.events[0].RetryNotice? && HasToken(run.events)
  {
    hide FullJitterDelay;
    var a := script(1);
    assert a.callbacks[1..] == [];
    assert Pieces(a.callbacks) == [Token("hi")] + [];
    assert [Token("hi")][1..] == [];
    assert SinceRetry("", [Token("hi")]) == "" + "hi";
    assert Try(cfg, a, 1).Done?;
    assert Try(cfg, script(0), 0).Again?;
    var last := RunFrom(cfg, script, 1);
    assert last == Try(cfg, a, 1).run && last.events[0] == Token("hi");
    var es := RunFrom(cfg, script, 0).events;
    assert es == [RetryNotice(1)] + last.events && es[1..] == last.events;
  }
}
