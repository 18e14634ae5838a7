/** The message store: inserts, reloads, and why a reloaded session is the one that was written,
    whatever other sessions wrote in between. */
module BrainStore {
  import opened Common
  import opened Messages

  datatype SessionInfo = SessionInfo(id: string, model: string, modelVersion: string, endpoint: string,
                                     temperature: real, topP: real, topK: int, maxTokens: int, seed: int,
                                     paramsJson: string)

  datatype Row = Row(sessionId: string, role: string, content: string, tokenCount: nat, durationMs: int,
                     createdAt: string, updatedAt: string)

  const NUL: char := 0 as char

  /** What reading a column as a C string keeps of it. */
  function CStr(s: string): string {
    if s == "" || s[0] == NUL then "" else [s[0]] + CStr(s[1..])
  }

  predicate NulFree(s: string) {
    NUL !in s
  }

  lemma {:induction false} CStrKeepsExactlyNulFree(s: string)
    ensures CStr(s) == s <==> NulFree(s)
    ensures NulFree(CStr(s)) && CStr(CStr(s)) == CStr(s)
  {
    if s != "" && s[0] != NUL {
      CStrKeepsExactlyNulFree(s[1..]);
      assert s == [s[0]] + s[1..];
      assert CStr(s)[1..] == CStr(s[1..]);
    }
  }

  function ToRow(m: Message): Row {
    Row(m.sessionId, RoleToString(m.role), m.content, m.tokenCount, m.duration, m.createdAt, m.updatedAt)
  }

  function FromRow(id: nat, sessionId: string, row: Row): Message {
    Message(id, RoleFromString(CStr(row.role)), CStr(row.content), sessionId,
            CStr(row.createdAt), CStr(row.updatedAt), row.durationMs, row.tokenCount)
  }

  /** A message as the store gives it back. */
  function Stored(m: Message): Message {
    m.(content := CStr(m.content), createdAt := CStr(m.createdAt), updatedAt := CStr(m.updatedAt))
  }

  predicate TextIsNulFree(m: Message) {
    NulFree(m.content) && NulFree(m.createdAt) && NulFree(m.updatedAt)
  }

  lemma RowRoundTrip(m: Message)
    ensures FromRow(m.id, m.sessionId, ToRow(m)) == Stored(m)
    ensures Stored(m) == m <==> TextIsNulFree(m)
    ensures Stored(Stored(m)) == Stored(m)
  {
    hide NulFree;
    CStrKeepsExactlyNulFree(m.content);
    CStrKeepsExactlyNulFree(m.createdAt);
    CStrKeepsExactlyNulFree(m.updatedAt);
    RoleNames(m.role);
  }

  lemma RoleNames(r: Role)
    ensures RoleFromString(CStr(RoleToString(r))) == r
    ensures RoleToString(System) == "system" && RoleToString(User) == "user"
    ensures RoleToString(Assistant) == "assistant" && RoleToString(Tool) == "tool"
    ensures forall s :: s != "system" && s != "assistant" && s != "tool" ==> RoleFromString(s) == User
  {
    CStrKeepsExactlyNulFree(RoleToString(r));
  }

  // ---- Loading a session ----

  /** The rows of a session with an id below n, by ascending id. */
  function Load(rows: map<nat, Row>, sessionId: string, n: nat): seq<Message> {
    if n == 0 then []
    else
      Load(rows, sessionId, n - 1)
      + if n - 1 in rows && rows[n - 1].sessionId == sessionId then [FromRow(n - 1, sessionId, rows[n - 1])] else []
  }

  function StoredAll(ms: seq<Message>): (ss: seq<Message>)
    ensures |ss| == |ms| && forall i :: 0 <= i < |ms| ==> ss[i] == Stored(ms[i])
  {
    seq(|ms|, i requires 0 <= i < |ms| => Stored(ms[i]))
  }

  /** A reloaded history is the written one exactly when its texts hold no NUL byte. */
  lemma ReloadIsExact(ms: seq<Message>)
    ensures StoredAll(ms) == ms <==> forall i :: 0 <= i < |ms| ==> TextIsNulFree(ms[i])
    ensures StoredAll(StoredAll(ms)) == StoredAll(ms)
  {
    hide TextIsNulFree, Stored;
    forall i | 0 <= i < |ms|
      ensures StoredAll(ms)[i] == ms[i] <==> TextIsNulFree(ms[i])
      ensures StoredAll(StoredAll(ms))[i] == StoredAll(ms)[i]
    {
      RowRoundTrip(ms[i]);
    }
    if forall i :: 0 <= i < |ms| ==> TextIsNulFree(ms[i]) {
      assert forall i :: 0 <= i < |ms| ==> StoredAll(ms)[i] == ms[i];
    }
  }

  /** Rows at or above n do not show in the rows below n. */
  lemma {:induction false} LoadIgnoresLater(rows: map<nat, Row>, sessionId: string, n: nat, id: nat, row: Row)
    requires n <= id
    ensures Load(rows[id := row], sessionId, n) == Load(rows, sessionId, n)
  {
    if n > 0 {
      LoadIgnoresLater(rows, sessionId, n - 1, id, row);
    }
  }

  /** Inserting at the next id appends to the row's own session and changes no other. */
  lemma InsertAppends(rows: map<nat, Row>, n: nat, m: Message, sessionId: string)
    ensures Load(rows[n := ToRow(m)], sessionId, n + 1) ==
            Load(rows, sessionId, n) + if m.sessionId == sessionId then [Stored(m.(id := n))] else []
  {
    LoadIgnoresLater(rows, sessionId, n, n, ToRow(m));
    RowRoundTrip(m.(id := n));
  }

  class Store {
    var sessions: map<string, SessionInfo>
    var rows: map<nat, Row>
    var nextId: nat

    ghost predicate Valid()
      reads `rows, `nextId
    {
      nextId >= 1 && forall id :: id in rows ==> 1 <= id < nextId
    }

    constructor ()
      ensures Valid() && sessions == map[] && rows == map[] && nextId == 1
    {
      sessions, rows, nextId := map[], map[], 1;
    }

    /** INSERT OR IGNORE: the first parameters of a session stay. */
    method EnsureSession(info: SessionInfo)
      modifies `sessions
      ensures sessions == if info.id in old(sessions) then old(sessions) else old(sessions)[info.id := info]
    {
      if info.id !in sessions {
        sessions := sessions[info.id := info];
      }
    }

    method LoadSession(sessionId: string) returns (r: Result<SessionInfo>)
      ensures r.Ok? <==> sessionId in sessions
      ensures r.Err? ==> r.message == "session not found"
      ensures r.Ok? ==>
                var info := sessions[sessionId];
                r.value == info.(id := CStr(info.id), model := CStr(info.model), modelVersion := CStr(info.modelVersion),
                                 endpoint := CStr(info.endpoint), paramsJson := CStr(info.paramsJson))
    {
      if sessionId !in sessions {
        return Err("session not found");
      }
      var info := sessions[sessionId];
      r := Ok(info.(id := CStr(info.id), model := CStr(info.model), modelVersion := CStr(info.modelVersion),
                    endpoint := CStr(info.endpoint), paramsJson := CStr(info.paramsJson)));
    }

    /** The insert: a new row at the next id, refused when the session is unknown. */
    method InsertRow(m: Message) returns (r: Result<nat>)
      requires Valid()
      modifies `rows, `nextId
      ensures Valid()
      ensures r == if m.sessionId in sessions then Ok(old(nextId)) else Err("insert messages: FOREIGN KEY constraint failed")
      ensures r.Ok? ==> rows == old(rows)[old(nextId) := ToRow(m)] && nextId == old(nextId) + 1
      ensures r.Err? ==> rows == old(rows) && nextId == old(nextId)
    {
      if m.sessionId !in sessions {
        return Err("insert messages: FOREIGN KEY constraint failed");
      }
      rows := rows[nextId := ToRow(m)];
      r := Ok(nextId);
      nextId := nextId + 1;
    }

    /** Insert or update: an id that names a row updates it in place (a trigger stamps `now`, and
        the creation time stays); any other message is inserted and gets the new id. */
    method InsertMessage(m: Message, now: string) returns (r: Result<nat>, m': Message)
      requires Valid()
      modifies `rows, `nextId
      ensures Valid()
      ensures r.Ok? <==> m.sessionId in sessions
      ensures r.Ok? ==> m' == m.(id := r.value) && r.value in rows
      ensures r.Ok? && m.id > 0 && m.id in old(rows) ==>
                && r.value == m.id && nextId == old(nextId)
                && rows == old(rows)[m.id := ToRow(m).(createdAt := old(rows)[m.id].createdAt, updatedAt := now)]
      ensures r.Ok? && !(m.id > 0 && m.id in old(rows)) ==>
                && r.value == old(nextId) && nextId == old(nextId) + 1
                && rows == old(rows)[old(nextId) := ToRow(m)]
      ensures r.Err? ==> rows == old(rows) && nextId == old(nextId) && m' == m
      ensures r.Err? ==> r.message == if m.id > 0 && m.id in rows then "update messages: FOREIGN KEY constraint failed"
                                      else "insert messages: FOREIGN KEY constraint failed"
    {
      m' := m;
      if m.id > 0 {
        var present := m.id in rows;
        if present {
          if m.sessionId !in sessions {
            return Err("update messages: FOREIGN KEY constraint failed"), m;
          }
          rows := rows[m.id := ToRow(m).(createdAt := rows[m.id].createdAt, updatedAt := now)];
          return Ok(m.id), m;
        }
      }
      r := InsertRow(m);
      if r.Ok? {
        m' := m.(id := r.value);
      }
    }

    method LoadMessages(sessionId: string) returns (out: seq<Message>)
      ensures out == Load(rows, sessionId, nextId)
    {
      out := [];
      var id := 0;
      while id < nextId
        invariant id <= nextId && out == Load(rows, sessionId, id)
      {
        if id in rows && rows[id].sessionId == sessionId {
          out := out + [FromRow(id, sessionId, rows[id])];
        }
        id := id + 1;
      }
    }
  }

  // ---- Any interleaving of sessions ----

  /** A session's agent records a message, or is rebuilt from the store. */
  datatype Op = Record(message: Message) | Rebuild(sessionId: string)

  datatype World = World(rows: map<nat, Row>, nextId: nat, live: map<string, seq<Message>>)

  function LiveHistory(w: World, sessionId: string): seq<Message> {
    if sessionId in w.live then w.live[sessionId] else []
  }

  function Step(w: World, op: Op): World {
    match op
    case Record(m) =>
      World(w.rows[w.nextId := ToRow(m)], w.nextId + 1,
            w.live[m.sessionId := LiveHistory(w, m.sessionId) + [m.(id := w.nextId)]])
    case Rebuild(sessionId) =>
      w.(live := w.live[sessionId := Load(w.rows, sessionId, w.nextId)])
  }

  function Perform(ops: seq<Op>): World {
    if ops == [] then World(map[], 1, map[])
    else Step(Perform(ops[..|ops| - 1]), ops[|ops| - 1])
  }

  lemma StoredAppend(ms: seq<Message>, m: Message)
    ensures StoredAll(ms + [m]) == StoredAll(ms) + [Stored(m)]
  {
    hide Stored;
  }

  /** After any interleaving, the store holds each session's live history, as stored and in order. */
  lemma {:induction false} StoreHoldsLiveHistory(ops: seq<Op>, sessionId: string)
    ensures var w := Perform(ops);
            Load(w.rows, sessionId, w.nextId) == StoredAll(LiveHistory(w, sessionId))
  {
    hide Stored;
    if ops == [] {
      assert Load(map[], sessionId, 1) == Load(map[], sessionId, 0);
    } else {
      var before, op := Perform(ops[..|ops| - 1]), ops[|ops| - 1];
      StoreHoldsLiveHistory(ops[..|ops| - 1], sessionId);
      var history := LiveHistory(before, sessionId);
      assert Perform(ops) == Step(before, op);
      hide Load, StoredAll, Perform;
      match op
      case Record(m) =>
        InsertAppends(before.rows, before.nextId, m, sessionId);
        StoredAppend(history, m.(id := before.nextId));
      case Rebuild(other) =>
        ReloadIsExact(history);
    }
  }

  /** A rebuilt agent lives on with what the store holds of its session; the others are as they were. */
  lemma RebuildLoads(ops: seq<Op>, sessionId: string, other: string)
    ensures var before, after := Perform(ops), Perform(ops + [Rebuild(sessionId)]);
            && LiveHistory(after, sessionId) == StoredAll(LiveHistory(before, sessionId))
            && (other != sessionId ==> LiveHistory(after, other) == LiveHistory(before, other))
            && after.rows == before.rows && after.nextId == before.nextId
  {
    assert (ops + [Rebuild(sessionId)])[..|ops|] == ops;
    StoreHoldsLiveHistory(ops, sessionId);
  }

  /** A NUL byte costs the rest of the message: "a", NUL, "b" comes back as "a". */
  lemma NulCutsReload(m: Message)
    requires m.content == ['a', 0 as char, 'b']
    ensures var w := Perform([Record(m)]);
            && LiveHistory(w, m.sessionId) == [m.(id := 1)]
            && |Load(w.rows, m.sessionId, w.nextId)| == 1
            && Load(w.rows, m.sessionId, w.nextId)[0].content == "a"
  {
    StoreHoldsLiveHistory([Record(m)], m.sessionId);
    var w := Perform([Record(m)]);
    assert [Record(m)][..0] == [];
    assert LiveHistory(w, m.sessionId) == [] + [m.(id := 1)];
    assert m.content[1..][0] == 0 as char;
    assert CStr(m.content) == "a" + CStr(m.content[1..]) && CStr(m.content[1..]) == "";
  }

  function RenderAll(o: RenderOptions, ms: seq<Message>): (cs: seq<CacheEntry>)
    ensures |cs| == |ms| && forall i :: 0 <= i < |ms| ==> cs[i] == Render(o, ms[i])
  {
    seq(|ms|, i requires 0 <= i < |ms| => Render(o, ms[i]))
  }

  /** Reloading gives back the live history and its rendering whenever the texts are NUL-free,
      and gives back the history only then. */
  lemma ReloadAgreesWithLive(ops: seq<Op>, sessionId: string, o: RenderOptions)
    ensures var w := Perform(ops);
            var live, reloaded := LiveHistory(w, sessionId), Load(w.rows, sessionId, w.nextId);
            && (reloaded == live <==> forall i :: 0 <= i < |live| ==> TextIsNulFree(live[i]))
            && |reloaded| == |live|
            && (forall i :: 0 <= i < |live| && TextIsNulFree(live[i]) ==>
                  reloaded[i] == live[i] && RenderAll(o, reloaded)[i] == RenderAll(o, live)[i])
  {
    hide TextIsNulFree, Stored, Render;
    var live := LiveHistory(Perform(ops), sessionId);
    StoreHoldsLiveHistory(ops, sessionId);
    ReloadIsExact(live);
    forall i | 0 <= i < |live| && TextIsNulFree(live[i])
      ensures StoredAll(live)[i] == live[i]
    {
      RowRoundTrip(live[i]);
    }
  }
}
