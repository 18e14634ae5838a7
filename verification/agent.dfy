/** The agent's ReAct loop and the state it grows together: history, rendered cache, store and
    token count. */
module AgentLoop {
  import opened Common
  import opened AgentQueue
  import opened Messages
  import opened BrainStore

  datatype Options = Options(render: RenderOptions, autoApprove: bool, maxIterations: int)

  /** One round of the loop: the answers of the driver and the clock, the injections that arrive,
      the streamed reply with its reported token total, what the code yields if there is any, and
      whether it marked its work done; with the clock's readings. */
  datatype Round = Round(stop: bool, timedOut: bool, shouldFinish: bool,
                         arrivals: seq<string>, injectedAt: string,
                         reply: string, totalTokens: int, duration: int, repliedAt: string,
                         summary: string, toolDuration: int, toolAt: string, done: bool)

  /** `AgentAction::parse`: the code of a reply, if it has any. */
  type Parser = string -> Option<string>

  // ---- The grammar of a run ----

  datatype Phase = NeedSystem | NeedUser | Ready | Injected | Said(hasCode: bool)

  function Next(parse: Parser, phase: Phase, m: Message): Option<Phase> {
    match (phase, m.role)
    case (NeedSystem, System) => Some(NeedUser)
    case (NeedUser, User) => Some(Ready)
    case (Ready, User) => Some(Injected)
    case (Injected, User) => Some(Injected)
    case (Ready, Assistant) => Some(Said(parse(m.content).Some?))
    case (Injected, Assistant) => Some(Said(parse(m.content).Some?))
    case (Said(true), Tool) => Some(Ready)
    case _ => None
  }

  /** The phase after the messages, read left to right. */
  function PhaseAfter(parse: Parser, start: Phase, ms: seq<Message>): Option<Phase> {
    if ms == [] then Some(start)
    else
      match PhaseAfter(parse, start, ms[..|ms| - 1])
      case Some(phase) => Next(parse, phase, ms[|ms| - 1])
      case None => None
  }

  /** System? User (User* Assistant Tool)* (User* Assistant)?, where an Assistant message is
      followed by a Tool message exactly when it has code. */
  ghost predicate IsStep(parse: Parser, isNew: bool, ms: seq<Message>) {
    PhaseAfter(parse, if isNew then NeedSystem else NeedUser, ms) in {Some(Ready), Some(Said(false))}
  }

  /** The rounds of a step, read from the front: injections before a reply, a reply with code and its
      tool result, and a reply without code only at the end. */
  predicate IsRounds(parse: Parser, ms: seq<Message>) {
    if ms == [] then true
    else
      match ms[0].role
      case User => ms[1..] != [] && IsRounds(parse, ms[1..])
      case Assistant =>
        if parse(ms[0].content).None? then ms[1..] == []
        else |ms| >= 2 && ms[1].role == Tool && IsRounds(parse, ms[2..])
      case _ => false
  }

  lemma {:induction false} PhaseFromFront(parse: Parser, start: Phase, ms: seq<Message>)
    requires ms != []
    ensures PhaseAfter(parse, start, ms) ==
            match Next(parse, start, ms[0])
            case Some(phase) => PhaseAfter(parse, phase, ms[1..])
            case None => None
  {
    hide Next;
    var n := |ms| - 1;
    if n > 0 {
      PhaseFromFront(parse, start, ms[..n]);
      assert ms[..n][0] == ms[0] && ms[..n][1..] == ms[1..][..n - 1] && ms[1..][n - 1] == ms[n];
      hide PhaseAfter;
      PhaseAtEnd(parse, start, ms);
      if Next(parse, start, ms[0]).Some? {
        PhaseAtEnd(parse, Next(parse, start, ms[0]).value, ms[1..]);
      }
    } else {
      assert ms[..0] == [] && ms[1..] == [];
    }
  }

  lemma PhaseAtEnd(parse: Parser, start: Phase, ms: seq<Message>)
    requires ms != []
    ensures PhaseAfter(parse, start, ms) ==
            match PhaseAfter(parse, start, ms[..|ms| - 1])
            case Some(phase) => Next(parse, phase, ms[|ms| - 1])
            case None => None
  {
  }

  predicate Complete(phase: Option<Phase>) {
    phase == Some(Ready) || phase == Some(Said(false))
  }

  lemma {:induction false} RoundsByPhase(parse: Parser, ms: seq<Message>)
    ensures Complete(PhaseAfter(parse, Ready, ms)) <==> IsRounds(parse, ms)
    ensures Complete(PhaseAfter(parse, Injected, ms)) <==> ms != [] && IsRounds(parse, ms)
    ensures Complete(PhaseAfter(parse, Said(true), ms)) <==> ms != [] && ms[0].role == Tool && IsRounds(parse, ms[1..])
    ensures Complete(PhaseAfter(parse, Said(false), ms)) <==> ms == []
    decreases |ms|
  {
    if ms != [] {
      PhaseFromFront(parse, Ready, ms);
      PhaseFromFront(parse, Injected, ms);
      PhaseFromFront(parse, Said(true), ms);
      PhaseFromFront(parse, Said(false), ms);
      hide PhaseAfter;
      RoundsByPhase(parse, ms[1..]);
      assert |ms| >= 2 ==> ms[1..][0] == ms[1] && ms[1..][1..] == ms[2..];
    }
  }

  /** A step is the system prompt if the history was empty, the input, and rounds. */
  lemma StepIsExact(parse: Parser, isNew: bool, ms: seq<Message>)
    ensures IsStep(parse, isNew, ms) <==>
            if isNew then |ms| >= 2 && ms[0].role == System && ms[1].role == User && IsRounds(parse, ms[2..])
            else |ms| >= 1 && ms[0].role == User && IsRounds(parse, ms[1..])
  {
    if ms != [] {
      PhaseFromFront(parse, if isNew then NeedSystem else NeedUser, ms);
      if |ms| > 1 {
        PhaseFromFront(parse, NeedUser, ms[1..]);
        assert ms[1..][0] == ms[1] && ms[1..][1..] == ms[2..];
        RoundsByPhase(parse, ms[2..]);
      }
      RoundsByPhase(parse, ms[1..]);
    }
    hide IsRounds;
  }

  function ContentsOf(role: Role, ms: seq<Message>): seq<string> {
    if ms == [] then []
    else
      ContentsOf(role, ms[..|ms| - 1]) + if ms[|ms| - 1].role == role then [ms[|ms| - 1].content] else []
  }

  /** What a message says, when, how long it took and what it cost. */
  datatype Part = Part(content: string, at: string, duration: int, tokens: nat)

  function PartsOf(role: Role, ms: seq<Message>): seq<Part> {
    if ms == [] then []
    else
      var m := ms[|ms| - 1];
      PartsOf(role, ms[..|ms| - 1])
      + if m.role == role then [Part(m.content, m.createdAt, m.duration, m.tokenCount)] else []
  }

  function Joined(parts: seq<Part>): string {
    if parts == [] then "" else Joined(parts[..|parts| - 1]) + parts[|parts| - 1].content
  }

  /** The token totals the rounds report; a negative total counts as none. */
  function Spent(rounds: seq<Round>): nat {
    if rounds == [] then 0
    else
      var total := rounds[|rounds| - 1].totalTokens;
      Spent(rounds[..|rounds| - 1]) + if total >= 0 then total else 0
  }

  function SumTokens(ms: seq<Message>): nat {
    if ms == [] then 0 else SumTokens(ms[..|ms| - 1]) + ms[|ms| - 1].tokenCount
  }

  /** What the messages of a call amount to. */
  datatype Log = Log(phase: Phase, systems: seq<string>, users: seq<string>, replies: seq<Part>, tools: seq<Part>)

  ghost predicate Progress(parse: Parser, isNew: bool, log: Log, ms: seq<Message>) {
    && PhaseAfter(parse, if isNew then NeedSystem else NeedUser, ms) == Some(log.phase)
    && ContentsOf(System, ms) == log.systems && ContentsOf(User, ms) == log.users
    && PartsOf(Assistant, ms) == log.replies && PartsOf(Tool, ms) == log.tools
  }

  lemma NothingYet(parse: Parser, isNew: bool)
    ensures Progress(parse, isNew, Log(if isNew then NeedSystem else NeedUser, [], [], [], []), [])
  {
  }

  lemma ProgressIsStep(parse: Parser, isNew: bool, log: Log, ms: seq<Message>)
    requires Progress(parse, isNew, log, ms) && log.phase in {Ready, Said(false)}
    ensures IsStep(parse, isNew, ms)
  {
  }

  function Extend(parse: Parser, log: Log, m: Message): Log
    requires Next(parse, log.phase, m).Some?
  {
    var phase := Next(parse, log.phase, m).value;
    match m.role
    case System => log.(phase := phase, systems := log.systems + [m.content])
    case User => log.(phase := phase, users := log.users + [m.content])
    case Assistant =>
      log.(phase := phase, replies := log.replies + [Part(m.content, m.createdAt, m.duration, m.tokenCount)])
    case Tool =>
      log.(phase := phase, tools := log.tools + [Part(m.content, m.createdAt, m.duration, m.tokenCount)])
  }

  /** A message the grammar allows next extends the log in its own role only. */
  lemma Grow(parse: Parser, isNew: bool, log: Log, ms: seq<Message>, m: Message)
    requires Progress(parse, isNew, log, ms) && Next(parse, log.phase, m).Some?
    ensures Progress(parse, isNew, Extend(parse, log, m), ms + [m])
  {
    assert (ms + [m])[..|ms|] == ms;
  }

  function ReplyOf(round: Round): Part {
    Part(round.reply, round.repliedAt, round.duration, if round.totalTokens >= 0 then round.totalTokens else 0)
  }

  function ToolOf(round: Round): Part {
    Part(round.summary, round.toolAt, round.toolDuration, 0)
  }

  /** The i-th reply and the i-th tool answer are those of the i-th round. */
  ghost predicate Played(script: seq<Round>, replies: seq<Part>, tools: seq<Part>) {
    && |tools| <= |replies| <= |script|
    && (forall i :: 0 <= i < |replies| ==> replies[i] == ReplyOf(script[i]))
    && (forall i :: 0 <= i < |tools| ==> tools[i] == ToolOf(script[i]))
  }

  /** Nothing stops the first n rounds before they ask the model. */
  ghost predicate NotStopped(options: Options, script: seq<Round>, n: nat) {
    n <= |script|
    && forall i :: 0 <= i < n ==>
         && !script[i].stop && !script[i].timedOut && !script[i].shouldFinish
         && (options.autoApprove || i < options.maxIterations)
  }

  /** The first n replies have code to run that does not mark the work done. */
  ghost predicate GoOn(parse: Parser, script: seq<Round>, n: nat) {
    n <= |script| && forall i :: 0 <= i < n ==> parse(script[i].reply).Some? && !script[i].done
  }

  /** After k rounds the loop is over: the script ends, round k is stopped, or round k - 1 was the last. */
  ghost predicate IsOver(options: Options, parse: Parser, script: seq<Round>, k: nat) {
    || k == |script|
    || (k < |script| && (script[k].stop || script[k].timedOut || script[k].shouldFinish))
    || (!options.autoApprove && k >= options.maxIterations)
    || (0 < k <= |script| && (parse(script[k - 1].reply).None? || script[k - 1].done))
  }

  /** What the rounds of a call amount to: the replies and tool results of the first rounds, none of
      them stopped, all but the last with code that goes on, and each with code answered by its tool
      result; the text is that of the replies. */
  ghost predicate Ran(options: Options, parse: Parser, script: seq<Round>, log: Log, fullReply: string) {
    var k := |log.replies|;
    && Played(script, log.replies, log.tools) && fullReply == Joined(log.replies)
    && NotStopped(options, script, k) && (k > 0 ==> GoOn(parse, script, k - 1))
    && |log.tools| == if k > 0 && parse(script[k - 1].reply).None? then k - 1 else k
  }

  /** The first n messages carry the time of the call. */
  ghost predicate Opens(ms: seq<Message>, n: nat, now: string) {
    n <= |ms| && forall i :: 0 <= i < n ==> ms[i].createdAt == now
  }

  /** Consecutive ids up to n, one session, update times equal to creation times, and no cost for what
      the user and the system say. */
  ghost predicate Recorded(ms: seq<Message>, sessionId: string, n: nat) {
    forall i :: 0 <= i < |ms| ==>
      && ms[i].id == n - |ms| + i && ms[i].sessionId == sessionId && ms[i].updatedAt == ms[i].createdAt
      && (ms[i].role in {System, User} ==> ms[i].duration == 0 && ms[i].tokenCount == 0)
  }

  /** From one moment to a later one the list of User texts grew by exactly what was taken from the
      queue, in the same order. */
  ghost predicate Follows(users: seq<string>, taken: seq<string>, users': seq<string>, taken': seq<string>) {
    taken <= taken' && users' == users + taken'[|taken|..]
  }

  /** `static_cast<int>` of a size_t. */
  function ToInt32(n: nat): int {
    var low := n % 0x1_0000_0000;
    if low < 0x8000_0000 then low else low - 0x1_0000_0000
  }

  lemma ToInt32IsResidue(n: nat)
    ensures -0x8000_0000 <= ToInt32(n) < 0x8000_0000 && (n - ToInt32(n)) % 0x1_0000_0000 == 0
  {
  }

  /** How many replies come before the i-th message. */
  function RepliesBefore(ms: seq<Message>, i: nat): nat
    requires i <= |ms|
  {
    |PartsOf(Assistant, ms[..i])|
  }

  /** The messages behind `ms` that come from the user were injected before the k-th reply, at this time. */
  ghost predicate InjectedAt(ms: seq<Message>, more: seq<Message>, k: nat, at: string) {
    && ms <= more
    && forall i :: |ms| <= i < |more| && more[i].role == User ==> more[i].createdAt == at && RepliesBefore(more, i) == k
  }

  /** Behind the first n messages every injection carries the time of the round it came in. */
  ghost predicate Timed(ms: seq<Message>, n: nat, script: seq<Round>) {
    forall i :: n <= i < |ms| && ms[i].role == User ==>
      RepliesBefore(ms, i) < |script| && ms[i].createdAt == script[RepliesBefore(ms, i)].injectedAt
  }

  lemma InjectedNothing(ms: seq<Message>, k: nat, at: string)
    ensures InjectedAt(ms, ms, k, at)
  {
  }

  lemma InjectedOne(ms: seq<Message>, more: seq<Message>, k: nat, at: string, m: Message)
    requires InjectedAt(ms, more, k, at)
    requires m.role == User ==> m.createdAt == at && |PartsOf(Assistant, more)| == k
    ensures InjectedAt(ms, more + [m], k, at)
  {
    hide PartsOf;
    forall i | |ms| <= i < |more + [m]| && (more + [m])[i].role == User
      ensures (more + [m])[i].createdAt == at && RepliesBefore(more + [m], i) == k
    {
      assert (more + [m])[..i] == more[..i];
      assert i == |more| ==> more[..i] == more;
    }
  }

  lemma TimedMore(ms: seq<Message>, more: seq<Message>, n: nat, script: seq<Round>, k: nat)
    requires Timed(ms, n, script) && k < |script| && InjectedAt(ms, more, k, script[k].injectedAt)
    ensures Timed(more, n, script)
  {
    hide PartsOf;
    forall i | n <= i < |more| && more[i].role == User
      ensures RepliesBefore(more, i) < |script| && more[i].createdAt == script[RepliesBefore(more, i)].injectedAt
    {
      if i < |ms| {
        assert more[..i] == ms[..i];
      }
    }
  }

  lemma InjectedExtends(ms: seq<Message>, more: seq<Message>, k: nat, at: string)
    requires InjectedAt(ms, more, k, at)
    ensures ms <= more
  {
  }

  lemma OpeningIsTimed(ms: seq<Message>, n: nat, script: seq<Round>)
    requires |ms| <= n
    ensures Timed(ms, n, script)
  {
  }

  lemma RepliesOf(parse: Parser, isNew: bool, log: Log, ms: seq<Message>)
    requires Progress(parse, isNew, log, ms)
    ensures |PartsOf(Assistant, ms)| == |log.replies|
  {
  }

  /** What a restored agent records for the sum of its history's token counts. */
  function RestoredCount(sum: nat): int {
    if sum > 0 && ToInt32(sum) > 0 then ToInt32(sum) else 0
  }

  lemma RestoredCountIsExact(sum: nat)
    ensures RestoredCount(sum) == sum <==> sum < 0x8000_0000
  {
  }

  /** 2^31 tokens are recorded as none, 2^32 + 5 as five. */
  lemma RestoredCountWraps()
    ensures RestoredCount(0x8000_0000) == 0 && RestoredCount(0x1_0000_0005) == 5
  {
  }

  /** Cache and rows follow the history entry by entry. */
  ghost predicate InStep(o: RenderOptions, history: seq<Message>, cache: seq<CacheEntry>, rows: seq<Message>, prior: seq<Message>) {
    cache == RenderAll(o, history) && rows == prior + StoredAll(history)
  }

  lemma NothingInStep(o: RenderOptions, rows: seq<Message>)
    ensures InStep(o, [], [], rows, rows)
  {
  }

  lemma RestoredInStep(o: RenderOptions, rows: map<nat, Row>, sessionId: string, n: nat, cache: seq<CacheEntry>)
    requires cache == RenderAll(o, Load(rows, sessionId, n))
    ensures InStep(o, Load(rows, sessionId, n), cache, Load(rows, sessionId, n), [])
  {
    hide Stored, Render;
    LoadIsStored(rows, sessionId, n);
  }

  lemma AppendInStep(o: RenderOptions, history: seq<Message>, cache: seq<CacheEntry>, rows: seq<Message>, prior: seq<Message>, m: Message)
    requires InStep(o, history, cache, rows, prior)
    ensures InStep(o, history + [m], cache + [Render(o, m)], rows + [Stored(m)], prior)
  {
    hide Stored, Render;
    assert StoredAll(history + [m]) == StoredAll(history) + [Stored(m)];
  }

  /** No session but this one reads anything else than before. */
  ghost predicate OthersKept(sessionId: string, rows: map<nat, Row>, n: nat, rows': map<nat, Row>, n': nat) {
    forall other :: other != sessionId ==> Load(rows', other, n') == Load(rows, other, n)
  }

  lemma InsertKeepsOthers(rows: map<nat, Row>, n: nat, m: Message)
    ensures OthersKept(m.sessionId, rows, n, rows[n := ToRow(m)], n + 1)
  {
    hide Load, Stored, ToRow;
    forall other | other != m.sessionId
      ensures Load(rows[n := ToRow(m)], other, n + 1) == Load(rows, other, n)
    {
      InsertAppends(rows, n, m, other);
    }
  }

  class Agent {
    const options: Options
    const store: Store
    const sessionId: string
    var history: seq<Message>
    var messagesCache: seq<CacheEntry>
    var recordedTokens: int
    /** What the session's rows held before this agent's history. */
    ghost var prior: seq<Message>

    ghost predicate Valid()
      reads `history, `messagesCache, `prior, store
    {
      && store.Valid() && sessionId in store.sessions
      && InStep(options.render, history, messagesCache, Load(store.rows, sessionId, store.nextId), prior)
    }

    /** A new agent that ignores whatever the session already holds. */
    constructor Start(opts: Options, s: Store, info: SessionInfo)
      requires s.Valid()
      modifies s`sessions
      ensures Valid() && options == opts && store == s && sessionId == info.id
      ensures history == [] && recordedTokens == 0
      ensures prior == Load(s.rows, info.id, s.nextId)
    {
      options, store, sessionId := opts, s, info.id;
      history, messagesCache, recordedTokens := [], [], 0;
      prior := Load(s.rows, info.id, s.nextId);
      new;
      hide InStep;
      store.EnsureSession(info);
      NothingInStep(opts.render, prior);
    }

    /** An agent rebuilt from the store.  Session ids are UUIDs or command-line words. */
    constructor Restore(opts: Options, s: Store, info: SessionInfo)
      requires s.Valid() && NulFree(info.id)
      modifies s`sessions
      ensures Valid() && options == opts && store == s && sessionId == info.id
      ensures history == Load(s.rows, info.id, s.nextId) && prior == []
      ensures recordedTokens == RestoredCount(SumTokens(history))
      ensures recordedTokens == SumTokens(history) <==> SumTokens(history) < 0x8000_0000
      ensures info.id in old(s.sessions) ==> s.sessions == old(s.sessions)
    {
      options, store, sessionId := opts, s, info.id;
      history, messagesCache, recordedTokens := [], [], 0;
      prior := [];
      new;
      Reload(info);
    }

    method Reload(info: SessionInfo)
      requires store.Valid() && NulFree(sessionId) && info.id == sessionId
      requires messagesCache == [] && recordedTokens == 0 && prior == []
      modifies `history, `messagesCache, `recordedTokens, store`sessions
      ensures Valid() && history == Load(store.rows, sessionId, store.nextId)
      ensures recordedTokens == RestoredCount(SumTokens(history))
      ensures recordedTokens == SumTokens(history) <==> SumTokens(history) < 0x8000_0000
      ensures info.id in old(store.sessions) ==> store.sessions == old(store.sessions)
    {
      hide InStep, CStr, NulFree, Load, SumTokens, RestoredCount;
      store.EnsureSession(info);
      CStrKeepsExactlyNulFree(sessionId);
      var loaded := store.LoadSession(sessionId);
      history := store.LoadMessages(sessionId);
      RebuildCache();
      RestoredInStep(options.render, store.rows, sessionId, store.nextId, messagesCache);
    }

    method RebuildCache()
      requires messagesCache == [] && recordedTokens == 0
      modifies `messagesCache, `recordedTokens
      ensures messagesCache == RenderAll(options.render, history)
      ensures recordedTokens == RestoredCount(SumTokens(history))
      ensures recordedTokens == SumTokens(history) <==> SumTokens(history) < 0x8000_0000
    {
      hide Render;
      var totalTokens := 0;
      for i := 0 to |history|
        invariant messagesCache == RenderAll(options.render, history[..i])
        invariant totalTokens == SumTokens(history[..i]) && recordedTokens == 0
      {
        assert history[..i + 1][..i] == history[..i];
        AppendToCache(history[i]);
        totalTokens := totalTokens + history[i].tokenCount;
      }
      assert history[..|history|] == history;
      if totalTokens > 0 {
        IncrementTokenCount(ToInt32(totalTokens));
      }
      RestoredCountIsExact(totalTokens);
    }

    method IncrementTokenCount(delta: int)
      modifies `recordedTokens
      ensures recordedTokens == old(recordedTokens) + if delta > 0 then delta else 0
    {
      if delta > 0 {
        recordedTokens := recordedTokens + delta;
      }
    }

    method AppendToCache(m: Message)
      modifies `messagesCache
      ensures messagesCache == old(messagesCache) + [Render(options.render, m)]
    {
      messagesCache := messagesCache + [Render(options.render, m)];
    }

    /** History, store and cache take the message together, under the id the store gave it. */
    method AddToHistory(m: Message)
      requires Valid() && m.id == 0 && m.sessionId == sessionId
      modifies `history, `messagesCache, store`rows, store`nextId
      ensures Valid()
      ensures history == old(history) + [m.(id := old(store.nextId))] && old(store.nextId) > 0
      ensures store.nextId == old(store.nextId) + 1
      ensures OthersKept(sessionId, old(store.rows), old(store.nextId), store.rows, store.nextId)
    {
      hide InStep, Load, Stored, ToRow, OthersKept;
      AppendInStep(options.render, history, messagesCache, Load(store.rows, sessionId, store.nextId), prior,
                   m.(id := store.nextId));
      var _, m' := store.InsertMessage(m, m.updatedAt);
      history := history + [m'];
      AppendToCache(m');
      InsertAppends(old(store.rows), old(store.nextId), m, sessionId);
      InsertKeepsOthers(old(store.rows), old(store.nextId), m);
    }

    /** `add_to_history` of a new message, followed through the grammar. */
    method Say(parse: Parser, role: Role, content: string, now: string, duration: int, tokenCount: nat,
               ghost base: seq<Message>, ghost isNew: bool, ghost log: Log, ghost ms: seq<Message>)
      returns (ghost log': Log, ghost ms': seq<Message>)
      requires Valid() && history == base + ms && Progress(parse, isNew, log, ms)
      requires Recorded(ms, sessionId, store.nextId)
      requires Next(parse, log.phase, Message(0, role, content, sessionId, now, now, duration, tokenCount)).Some?
      requires role in {System, User} ==> duration == 0 && tokenCount == 0
      modifies `history, `messagesCache, store`rows, store`nextId
      ensures Valid() && history == base + ms' && Progress(parse, isNew, log', ms') && Recorded(ms', sessionId, store.nextId)
      ensures log' == Extend(parse, log, Message(0, role, content, sessionId, now, now, duration, tokenCount))
      ensures ms' == ms + [Message(old(store.nextId), role, content, sessionId, now, now, duration, tokenCount)]
      ensures SumTokens(history) == old(SumTokens(history)) + tokenCount
      ensures OthersKept(sessionId, old(store.rows), old(store.nextId), store.rows, store.nextId)
    {
      hide Progress, Valid;
      var m := Message(0, role, content, sessionId, now, now, duration, tokenCount);
      ghost var recorded := m.(id := store.nextId);
      Grow(parse, isNew, log, ms, recorded);
      log', ms' := Extend(parse, log, recorded), ms + [recorded];
      AddToHistory(m);
      assert history[..|history| - 1] == old(history);
    }

    /** Pending injections become User messages, oldest first. */
    method DrainInjections(parse: Parser, driver: Fifo<string>, now: string,
                           ghost base: seq<Message>, ghost isNew: bool, ghost log: Log, ghost ms: seq<Message>)
      returns (ghost log': Log, ghost ms': seq<Message>)
      requires Valid() && driver.Valid() && history == base + ms
      requires Progress(parse, isNew, log, ms) && log.phase == Ready && Recorded(ms, sessionId, store.nextId)
      modifies `history, `messagesCache, store`rows, store`nextId, driver
      ensures Valid() && driver.Valid() && history == base + ms' && Progress(parse, isNew, log', ms')
      ensures Recorded(ms', sessionId, store.nextId)
      ensures driver.pushed == old(driver.pushed) && driver.taken == driver.pushed
      ensures log'.phase in {Ready, Injected} && log' == log.(phase := log'.phase, users := log'.users)
      ensures Follows(log.users, old(driver.taken), log'.users, driver.taken) && InjectedAt(ms, ms', |log.replies|, now)
      ensures SumTokens(history) == old(SumTokens(history))
      ensures OthersKept(sessionId, old(store.rows), old(store.nextId), store.rows, store.nextId)
    {
      hide Progress, Valid, SumTokens, InjectedAt;
      log', ms' := log, ms;
      InjectedNothing(ms, |log.replies|, now);
      while true
        invariant Valid() && driver.Valid() && history == base + ms' && Progress(parse, isNew, log', ms')
        invariant Recorded(ms', sessionId, store.nextId)
        invariant driver.pushed == old(driver.pushed)
        invariant InjectedAt(ms, ms', |log.replies|, now) && log'.phase in {Ready, Injected} && log' == log.(phase := log'.phase, users := log'.users)
        invariant Follows(log.users, old(driver.taken), log'.users, driver.taken)
        invariant SumTokens(history) == old(SumTokens(history))
        invariant OthersKept(sessionId, old(store.rows), old(store.nextId), store.rows, store.nextId)
        decreases |driver.pushed| - |driver.taken|
      {
        var injection := driver.TryPop();
        if injection.None? {
          break;
        }
        RepliesOf(parse, isNew, log', ms');
        InjectedOne(ms, ms', |log.replies|, now, Message(store.nextId, User, injection.value, sessionId, now, now, 0, 0));
        log', ms' := Say(parse, User, injection.value, now, 0, 0, base, isNew, log', ms');
      }
    }

    /** One round of the loop after its stop checks. */
    method RunRound(parse: Parser, driver: Fifo<string>, round: Round,
                    ghost base: seq<Message>, ghost isNew: bool, ghost log: Log, ghost ms: seq<Message>)
      returns (over: bool, ghost log': Log, ghost ms': seq<Message>)
      requires Valid() && driver.Valid() && history == base + ms
      requires Progress(parse, isNew, log, ms) && log.phase == Ready && Recorded(ms, sessionId, store.nextId)
      modifies `history, `messagesCache, `recordedTokens, store`rows, store`nextId, driver
      ensures Valid() && driver.Valid() && history == base + ms' && Progress(parse, isNew, log', ms')
      ensures Recorded(ms', sessionId, store.nextId)
      ensures driver.taken == driver.pushed == old(driver.pushed) + round.arrivals
      ensures Follows(log.users, old(driver.taken), log'.users, driver.taken)
      ensures InjectedAt(ms, ms', |log.replies|, round.injectedAt)
      ensures log'.systems == log.systems && log'.replies == log.replies + [ReplyOf(round)]
      ensures if parse(round.reply).Some? then
                log'.phase == Ready && log'.tools == log.tools + [ToolOf(round)] && over == round.done
              else log'.phase == Said(false) && log'.tools == log.tools && over
      ensures SumTokens(history) == old(SumTokens(history)) + ReplyOf(round).tokens
      ensures recordedTokens == old(recordedTokens) + ReplyOf(round).tokens
      ensures OthersKept(sessionId, old(store.rows), old(store.nextId), store.rows, store.nextId)
    {
      hide Progress, Valid, SumTokens, Follows, InjectedAt;
      ghost var k := |log.replies|;
      driver.PushAll(round.arrivals);
      log', ms' := DrainInjections(parse, driver, round.injectedAt, base, isNew, log, ms);
      var tokens := if round.totalTokens >= 0 then round.totalTokens else 0;
      InjectedOne(ms, ms', k, round.injectedAt, Message(store.nextId, Assistant, round.reply, sessionId,
                                                        round.repliedAt, round.repliedAt, round.duration, tokens));
      log', ms' := Say(parse, Assistant, round.reply, round.repliedAt, round.duration, tokens, base, isNew, log', ms');
      if round.totalTokens >= 0 {
        IncrementTokenCount(round.totalTokens);
      }
      if parse(round.reply).None? {
        over := true;
        return;
      }
      InjectedOne(ms, ms', k, round.injectedAt, Message(store.nextId, Tool, round.summary, sessionId,
                                                        round.toolAt, round.toolAt, round.toolDuration, 0));
      log', ms' := Say(parse, Tool, round.summary, round.toolAt, round.toolDuration, 0, base, isNew, log', ms');
      over := round.done;
    }

    /** One call of `run_step`.  `script` is what happens round by round; its end, if the loop gets
        there, stands for a stop request. */
    method RunStep(parse: Parser, systemPrompt: string, input: string, driver: Fifo<string>,
                   script: seq<Round>, now: string)
      returns (fullReply: string, ghost ms: seq<Message>, ghost log: Log, ghost ended: bool)
      requires Valid() && driver.Valid()
      modifies `history, `messagesCache, `recordedTokens, store`rows, store`nextId, driver
      ensures Valid() && driver.Valid() && history == old(history) + ms
      ensures Progress(parse, old(history) == [], log, ms) && IsStep(parse, old(history) == [], ms)
      ensures log.systems == if old(history) == [] then [systemPrompt] else []
      ensures Follows([input], old(driver.taken), log.users, driver.taken)
      ensures Ran(options, parse, script, log, fullReply) && IsOver(options, parse, script, |log.replies|)
      ensures !options.autoApprove ==> |log.replies| <= if options.maxIterations > 0 then options.maxIterations else 0
      ensures !ended ==> |log.replies| == |script|
      ensures !options.autoApprove && |script| > options.maxIterations && |script| > 0 ==> ended
      ensures Recorded(ms, sessionId, store.nextId) && Opens(ms, if old(history) == [] then 2 else 1, now)
      ensures Timed(ms, if old(history) == [] then 2 else 1, script)
      ensures SumTokens(history) == old(SumTokens(history)) + Spent(script[..|log.replies|])
      ensures recordedTokens == old(recordedTokens) + Spent(script[..|log.replies|])
      ensures OthersKept(sessionId, old(store.rows), old(store.nextId), store.rows, store.nextId)
    {
      hide Progress, Valid, SumTokens, Follows, Spent, Ran, GoOn, IsOver, Recorded, Opens, Timed, InjectedAt, ReplyOf, ToolOf;
      ghost var base, isNew := history, history == [];
      log, ms := OpenTurn(parse, systemPrompt, input, now);
      FollowsNothing([input], driver.taken);
      OpeningIsTimed(ms, if isNew then 2 else 1, script);
      NothingRan(options, parse, script, log);
      fullReply, ended := "", false;
      var iterations := 0;
      while iterations < |script|
        invariant 0 <= iterations == |log.replies| <= |script| && !ended
        invariant Valid() && driver.Valid() && history == base + ms
        invariant Progress(parse, isNew, log, ms) && log.phase == Ready && Recorded(ms, sessionId, store.nextId)
        invariant log.systems == (if isNew then [systemPrompt] else []) && Opens(ms, if isNew then 2 else 1, now)
        invariant Timed(ms, if isNew then 2 else 1, script)
        invariant Follows([input], old(driver.taken), log.users, driver.taken)
        invariant Ran(options, parse, script, log, fullReply) && GoOn(parse, script, iterations)
        invariant SumTokens(history) == old(SumTokens(history)) + Spent(script[..iterations])
        invariant recordedTokens == old(recordedTokens) + Spent(script[..iterations])
        invariant OthersKept(sessionId, old(store.rows), old(store.nextId), store.rows, store.nextId)
      {
        var round := script[iterations];
        if round.stop || round.timedOut || round.shouldFinish
           || (!options.autoApprove && iterations >= options.maxIterations) {
          RoundStopped(options, parse, script, iterations);
          ended := true;
          break;
        }
        ghost var before, taken := log, driver.taken;
        var over;
        ghost var said := ms;
        over, log, ms := RunRound(parse, driver, round, base, isNew, log, ms);
        InjectedExtends(said, ms, iterations, round.injectedAt);
        OpensMore(said, ms, if isNew then 2 else 1, now);
        TimedMore(said, ms, if isNew then 2 else 1, script, iterations);
        FollowsOn([input], old(driver.taken), before.users, taken, log.users, driver.taken);
        RoundRan(options, parse, script, before, fullReply, log);
        SpentOn(script, iterations);
        iterations := iterations + 1;
        fullReply := fullReply + round.reply;
        if over {
          ended := true;
          break;
        }
      }
      ProgressIsStep(parse, isNew, log, ms);
      ScriptEnds(options, parse, script);
      if !options.autoApprove {
        RanWithinLimit(options, parse, script, log, fullReply);
      }
    }

    /** The messages before the loop. */
    method OpenTurn(parse: Parser, systemPrompt: string, input: string, now: string)
      returns (ghost log: Log, ghost ms: seq<Message>)
      requires Valid()
      modifies `history, `messagesCache, store`rows, store`nextId
      ensures Valid() && history == old(history) + ms
      ensures Progress(parse, old(history) == [], log, ms)
      ensures Recorded(ms, sessionId, store.nextId) && Opens(ms, if old(history) == [] then 2 else 1, now)
      ensures |ms| == if old(history) == [] then 2 else 1
      ensures log == Log(Ready, if old(history) == [] then [systemPrompt] else [], [input], [], [])
      ensures SumTokens(history) == old(SumTokens(history))
      ensures OthersKept(sessionId, old(store.rows), old(store.nextId), store.rows, store.nextId)
    {
      hide Progress, Valid, SumTokens;
      ghost var base, isNew := history, history == [];
      log, ms := Log(if isNew then NeedSystem else NeedUser, [], [], [], []), [];
      NothingYet(parse, isNew);
      if history == [] {
        log, ms := Say(parse, System, systemPrompt, now, 0, 0, base, isNew, log, ms);
      }
      log, ms := Say(parse, User, input, now, 0, 0, base, isNew, log, ms);
    }
  }

  /** An agent rebuilt from a live agent's store holds what the session held before that agent and
      then its history up to NUL bytes; it holds the same history exactly when there was nothing
      before and there are no NUL bytes, and then it has the same cache. */
  method RestoreTwin(live: Agent, info: SessionInfo) returns (twin: Agent)
    requires live.Valid() && info.id == live.sessionId && NulFree(info.id)
    modifies live.store`sessions
    ensures fresh(twin) && twin.Valid() && twin.options == live.options && twin.sessionId == live.sessionId
    ensures live.store.sessions == old(live.store.sessions)
    ensures twin.history == live.prior + StoredAll(live.history)
    ensures twin.history == live.history <==>
            live.prior == [] && forall i :: 0 <= i < |live.history| ==> TextIsNulFree(live.history[i])
    ensures twin.history == live.history ==> twin.messagesCache == live.messagesCache
    ensures twin.recordedTokens == SumTokens(twin.history) <==> SumTokens(twin.history) < 0x8000_0000
  {
    hide TextIsNulFree, Stored, Render, NulFree, SumTokens;
    ReloadIsExact(live.history);
    twin := new Agent.Restore(live.options, live.store, info);
    assert live.prior == [] ==> live.prior + StoredAll(live.history) == StoredAll(live.history);
  }

  // ---- Several agents on one store ----

  /** Agents of different sessions on one store, each in step with it. */
  ghost predicate Company(store: Store, agents: seq<Agent>)
    reads store, agents
  {
    && (forall i :: 0 <= i < |agents| ==> agents[i].store == store && agents[i].Valid())
    && (forall i, j :: 0 <= i < j < |agents| ==> agents[i].sessionId != agents[j].sessionId)
  }

  /** A call of `run_step` by one of the agents. */
  datatype Turn = Turn(who: nat, input: string, script: seq<Round>, now: string)

  /** One agent's call leaves all the others in step. */
  method TakeTurn(parse: Parser, systemPrompt: string, store: Store, ghost agents: seq<Agent>, a: Agent,
                  driver: Fifo<string>, turn: Turn)
    requires Company(store, agents) && turn.who < |agents| && a == agents[turn.who] && driver.Valid()
    modifies a`history, a`messagesCache, a`recordedTokens, store`rows, store`nextId, driver
    ensures Company(store, agents) && driver.Valid()
    ensures exists ms :: a.history == old(a.history) + ms && IsStep(parse, old(a.history) == [], ms)
  {
    hide IsStep, InStep, Progress, Follows, Ran, IsOver, SumTokens, Spent;
    var _, ms, _, _ := a.RunStep(parse, systemPrompt, turn.input, driver, turn.script, turn.now);
  }

  /** Any interleaving of calls by any number of agents. */
  method TakeTurns(parse: Parser, systemPrompt: string, store: Store, agents: seq<Agent>, drivers: seq<Fifo<string>>,
                   turns: seq<Turn>)
    requires Company(store, agents) && |drivers| == |agents| && forall i :: 0 <= i < |drivers| ==> drivers[i].Valid()
    requires forall k :: 0 <= k < |turns| ==> turns[k].who < |agents|
    modifies agents, store`rows, store`nextId, drivers
    ensures Company(store, agents) && forall i :: 0 <= i < |drivers| ==> drivers[i].Valid()
    ensures forall i :: 0 <= i < |agents| ==> agents[i].prior == old(agents[i].prior)
  {
    hide IsStep, InStep;
    for k := 0 to |turns|
      invariant Company(store, agents) && forall i :: 0 <= i < |drivers| ==> drivers[i].Valid()
      invariant forall i :: 0 <= i < |agents| ==> agents[i].prior == old(agents[i].prior)
    {
      var who := turns[k].who;
      TakeTurn(parse, systemPrompt, store, agents, agents[who], drivers[who], turns[k]);
    }
  }

  /** A rebuilt agent: what its session held before the live one, then the live history as stored. */
  ghost predicate IsTwin(twin: Agent, live: Agent)
    reads live, twin, twin.store
  {
    && twin.Valid() && twin.history == live.prior + StoredAll(live.history)
    && (twin.history == live.history <==>
        live.prior == [] && forall i :: 0 <= i < |live.history| ==> TextIsNulFree(live.history[i]))
    && (twin.history == live.history ==> twin.messagesCache == live.messagesCache)
  }

  method RestoreAll(store: Store, agents: seq<Agent>, infos: seq<SessionInfo>) returns (twins: seq<Agent>)
    requires Company(store, agents) && |infos| == |agents|
    requires forall i :: 0 <= i < |agents| ==> infos[i].id == agents[i].sessionId && NulFree(infos[i].id)
    modifies store`sessions
    ensures Company(store, agents) && |twins| == |agents|
    ensures forall i :: 0 <= i < |agents| ==> IsTwin(twins[i], agents[i])
  {
    hide InStep, StoredAll, NulFree, SumTokens, TextIsNulFree;
    twins := [];
    for i := 0 to |agents|
      invariant |twins| == i && store.sessions == old(store.sessions)
      invariant forall j :: 0 <= j < i ==> IsTwin(twins[j], agents[j])
    {
      var twin := RestoreTwin(agents[i], infos[i]);
      twins := twins + [twin];
    }
  }

  /** After any interleaving every agent can be rebuilt from the shared store. */
  method InterleaveAndRestore(parse: Parser, systemPrompt: string, store: Store, agents: seq<Agent>,
                              drivers: seq<Fifo<string>>, turns: seq<Turn>, infos: seq<SessionInfo>)
    returns (twins: seq<Agent>)
    requires Company(store, agents) && |drivers| == |agents| && forall i :: 0 <= i < |drivers| ==> drivers[i].Valid()
    requires forall k :: 0 <= k < |turns| ==> turns[k].who < |agents|
    requires |infos| == |agents|
    requires forall i :: 0 <= i < |agents| ==> infos[i].id == agents[i].sessionId && NulFree(infos[i].id)
    modifies agents, store, drivers
    ensures Company(store, agents) && |twins| == |agents|
    ensures forall i :: 0 <= i < |agents| ==>
              IsTwin(twins[i], agents[i]) && agents[i].prior == old(agents[i].prior)
  {
    hide InStep, IsTwin, NulFree;
    TakeTurns(parse, systemPrompt, store, agents, drivers, turns);
    twins := RestoreAll(store, agents, infos);
  }

  lemma FollowsNothing(users: seq<string>, taken: seq<string>)
    ensures Follows(users, taken, users, taken)
  {
  }

  lemma FollowsOn(u0: seq<string>, t0: seq<string>, u1: seq<string>, t1: seq<string>, u2: seq<string>, t2: seq<string>)
    requires Follows(u0, t0, u1, t1) && Follows(u1, t1, u2, t2)
    ensures Follows(u0, t0, u2, t2)
  {
    assert t2[|t0|..] == t1[|t0|..] + t2[|t1|..];
  }

  lemma OpensMore(ms: seq<Message>, more: seq<Message>, n: nat, now: string)
    requires Opens(ms, n, now) && ms <= more
    ensures Opens(more, n, now)
  {
  }

  lemma NothingRan(options: Options, parse: Parser, script: seq<Round>, log: Log)
    requires log.replies == [] && log.tools == []
    ensures Ran(options, parse, script, log, "") && GoOn(parse, script, 0) && Spent(script[..0]) == 0
  {
  }

  /** One more round. */
  lemma RoundRan(options: Options, parse: Parser, script: seq<Round>, before: Log, fullReply: string, after: Log)
    requires Ran(options, parse, script, before, fullReply) && GoOn(parse, script, |before.replies|)
    requires var k := |before.replies|;
             && k < |script| && !script[k].stop && !script[k].timedOut && !script[k].shouldFinish
             && (options.autoApprove || k < options.maxIterations)
    requires var round := script[|before.replies|];
             && after.replies == before.replies + [ReplyOf(round)]
             && after.tools == before.tools + if parse(round.reply).Some? then [ToolOf(round)] else []
    ensures var round := script[|before.replies|];
            && Ran(options, parse, script, after, fullReply + round.reply)
            && if parse(round.reply).Some? && !round.done then GoOn(parse, script, |after.replies|)
               else IsOver(options, parse, script, |after.replies|)
  {
    hide Joined;
    JoinedOn(before.replies, ReplyOf(script[|before.replies|]));
  }

  lemma RanWithinLimit(options: Options, parse: Parser, script: seq<Round>, log: Log, fullReply: string)
    requires Ran(options, parse, script, log, fullReply) && !options.autoApprove
    ensures |log.replies| <= if options.maxIterations > 0 then options.maxIterations else 0
  {
  }

  lemma JoinedOn(replies: seq<Part>, reply: Part)
    ensures Joined(replies + [reply]) == Joined(replies) + reply.content
  {
    assert (replies + [reply])[..|replies|] == replies;
  }

  lemma RoundStopped(options: Options, parse: Parser, script: seq<Round>, k: nat)
    requires k < |script|
    requires script[k].stop || script[k].timedOut || script[k].shouldFinish
             || (!options.autoApprove && k >= options.maxIterations)
    ensures IsOver(options, parse, script, k)
  {
  }

  lemma ScriptEnds(options: Options, parse: Parser, script: seq<Round>)
    ensures IsOver(options, parse, script, |script|)
  {
  }

  /** The rounds a call plays are fixed: at no two numbers can the loop have come so far and be over. */
  lemma RoundsAreFixed(options: Options, parse: Parser, script: seq<Round>, j: nat, k: nat)
    requires NotStopped(options, script, j) && (j > 0 ==> GoOn(parse, script, j - 1)) && IsOver(options, parse, script, j)
    requires NotStopped(options, script, k) && (k > 0 ==> GoOn(parse, script, k - 1)) && IsOver(options, parse, script, k)
    ensures j == k
  {
  }

  lemma SpentOn(script: seq<Round>, k: nat)
    requires k < |script|
    ensures Spent(script[..k + 1]) == Spent(script[..k]) + ReplyOf(script[k]).tokens
  {
    assert script[..k + 1][..k] == script[..k];
  }

  lemma {:induction false} LoadIsStored(rows: map<nat, Row>, sessionId: string, n: nat)
    ensures StoredAll(Load(rows, sessionId, n)) == Load(rows, sessionId, n)
  {
    hide Stored;
    if n > 0 {
      LoadIsStored(rows, sessionId, n - 1);
      if n - 1 in rows && rows[n - 1].sessionId == sessionId {
        LoadedIsStored(n - 1, sessionId, rows[n - 1]);
      }
    }
  }

  lemma LoadedIsStored(id: nat, sessionId: string, row: Row)
    ensures Stored(FromRow(id, sessionId, row)) == FromRow(id, sessionId, row)
  {
    CStrKeepsExactlyNulFree(row.content);
    CStrKeepsExactlyNulFree(row.createdAt);
    CStrKeepsExactlyNulFree(row.updatedAt);
  }
}
