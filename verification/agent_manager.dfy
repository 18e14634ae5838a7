/** Agents, their records and drivers as objects: the registry operations of `AgentManager` and the
    feedback of a sub-agent's driver. */
module AgentManager {
  import opened Common
  import opened AgentQueue

  datatype AgentState = Running | Waiting | Finished | Errored

  datatype AgentEvent =
    | Token(agentId: string, text: string)
    | TurnComplete(agentId: string, text: string)
    | ToolCall(agentId: string, toolName: string, success: bool, text: string)
    | Retry(agentId: string, attempt: nat)
    | Feedback(agentId: string, parentId: string, text: string)
    | AgentFinished(agentId: string, text: string)
    | AgentError(agentId: string, text: string)

  predicate IsTerminal(e: AgentEvent) {
    e.AgentFinished? || e.AgentError?
  }

  /** What `park_agent` and `wake_agent` write in a record. */
  datatype Status = Status(state: AgentState, waitingForParent: bool, waitingReason: string)

  function Parked(reason: string): Status {
    Status(Waiting, true, reason)
  }

  function Woken(s: Status): Status {
    Status(if s.state == Waiting then Running else s.state, false, "")
  }

  /** What `waiting_reason` reads from a record. */
  function ReasonOf(s: Status): Option<string> {
    if s.waitingForParent then Some(s.waitingReason) else None
  }

  class ManagedAgentRecord {
    const id: string
    const driver: Fifo<string>
    var state: AgentState
    var waitingForParent: bool
    var waitingReason: string

    ghost function StatusOf(): Status
      reads this
    {
      Status(state, waitingForParent, waitingReason)
    }

    constructor (agentId: string, d: Fifo<string>)
      ensures id == agentId && driver == d && StatusOf() == Status(Running, false, "")
    {
      id, driver := agentId, d;
      state, waitingForParent, waitingReason := Running, false, "";
    }
  }

  class AgentManager {
    var registry: map<string, ManagedAgentRecord>

    constructor ()
      ensures registry == map[]
    {
      registry := map[];
    }

    /** The record of an agent, as the set of objects an operation may write. */
    ghost function RecordOf(agentId: string): (s: set<object>)
      reads this
    {
      if agentId in registry then {registry[agentId]} else {}
    }

    /** Any agent can be parked, also one that has finished. */
    method ParkAgent(agentId: string, reason: string) returns (found: bool)
      modifies RecordOf(agentId)
      ensures found <==> agentId in registry
      ensures found ==> registry[agentId].StatusOf() == Parked(reason)
    {
      if agentId !in registry {
        return false;
      }
      var rec := registry[agentId];
      rec.state := Waiting;
      rec.waitingForParent := true;
      rec.waitingReason := reason;
      found := true;
    }

    method WakeAgent(agentId: string) returns (found: bool)
      modifies RecordOf(agentId)
      ensures found <==> agentId in registry
      ensures found ==> registry[agentId].StatusOf() == Woken(old(registry[agentId].StatusOf()))
    {
      if agentId !in registry {
        return false;
      }
      var rec := registry[agentId];
      rec.waitingForParent := false;
      rec.waitingReason := "";
      if rec.state == Waiting {
        rec.state := Running;
      }
      found := true;
    }

    method WaitingReason(agentId: string) returns (r: Option<string>)
      ensures r == if agentId in registry then ReasonOf(registry[agentId].StatusOf()) else None
    {
      if agentId !in registry || !registry[agentId].waitingForParent {
        return None;
      }
      r := Some(registry[agentId].waitingReason);
    }

    /** The message is queued for the agent, and the agent is woken. */
    method InjectInto(agentId: string, message: string) returns (found: bool)
      requires agentId in registry ==> registry[agentId].driver.Valid()
      modifies RecordOf(agentId), if agentId in registry then {registry[agentId].driver} else {}
      ensures found <==> agentId in registry
      ensures found ==>
                var rec := registry[agentId];
                && rec.driver.Valid() && rec.driver.pushed == old(rec.driver.pushed) + [message]
                && rec.driver.taken == old(rec.driver.taken)
                && rec.StatusOf() == Woken(old(registry[agentId].StatusOf()))
                && rec.state != Waiting
    {
      if agentId !in registry {
        return false;
      }
      var driver := registry[agentId].driver;
      driver.Push(message);
      var _ := WakeAgent(agentId);
      found := true;
    }
  }

  // ---- A sub-agent's driver ----

  /** The texts of the agent's feedback events, in order. */
  function FeedbackTexts(es: seq<AgentEvent>, agentId: string): seq<string> {
    if es == [] then []
    else
      FeedbackTexts(es[..|es| - 1], agentId)
      + if es[|es| - 1].Feedback? && es[|es| - 1].agentId == agentId then [es[|es| - 1].text] else []
  }

  lemma FeedbackOneMore(es: seq<AgentEvent>, e: AgentEvent, agentId: string)
    ensures FeedbackTexts(es + [e], agentId) ==
            FeedbackTexts(es, agentId) + if e.Feedback? && e.agentId == agentId then [e.text] else []
  {
    assert (es + [e])[..|es|] == es;
  }

  class SubAgentDriver {
    const bus: Fifo<AgentEvent>
    const agentId: string
    const parentId: string
    /** The parent's queue, when the configuration has a `parent_inject`. */
    const parent: Option<Fifo<string>>
    const formatter: Option<string -> string>
    /** Everything this driver handed to its parent. */
    ghost var handed: seq<string>

    ghost predicate Valid()
      reads this, bus, if parent.Some? then {parent.value} else {}
    {
      bus.Valid() && (parent.Some? ==> parent.value.Valid())
      && (parent.Some? ==> FeedbackTexts(bus.pushed, agentId) == handed)
    }

    constructor (b: Fifo<AgentEvent>, id: string, pid: string, p: Option<Fifo<string>>, f: Option<string -> string>)
      requires b.Valid() && (p.Some? ==> p.value.Valid()) && FeedbackTexts(b.pushed, id) == []
      ensures Valid() && bus == b && agentId == id && parentId == pid && parent == p && formatter == f && handed == []
    {
      bus, agentId, parentId, parent, formatter := b, id, pid, p, f;
      handed := [];
    }

    method MaybeForwardFeedback(text: string)
      requires Valid()
      modifies this, bus, if parent.Some? then {parent.value} else {}
      ensures Valid()
      ensures bus.pushed == old(bus.pushed) + [Feedback(agentId, parentId, text)]
      ensures parent.Some? ==> parent.value.pushed == old(parent.value.pushed) + [text] && handed == old(handed) + [text]
    {
      if parent.Some? {
        parent.value.Push(text);
        handed := handed + [text];
      }
      FeedbackOneMore(bus.pushed, Feedback(agentId, parentId, text), agentId);
      bus.Push(Feedback(agentId, parentId, text));
    }

    /** The completed turn, then the (formatted) text to the parent, then the feedback event. */
    method OnTurnComplete(response: string)
      requires Valid()
      modifies this, bus, if parent.Some? then {parent.value} else {}
      ensures Valid()
      ensures var text := if formatter.Some? then formatter.value(response) else response;
              && bus.pushed == old(bus.pushed) + [TurnComplete(agentId, response), Feedback(agentId, parentId, text)]
              && (parent.Some? ==> parent.value.pushed == old(parent.value.pushed) + [text])
    {
      FeedbackOneMore(bus.pushed, TurnComplete(agentId, response), agentId);
      bus.Push(TurnComplete(agentId, response));
      MaybeForwardFeedback(if formatter.Some? then formatter.value(response) else response);
    }

    /** A tool result is fed back unless its summary is empty. */
    method OnToolResult(toolName: string, success: bool, summary: string)
      requires Valid()
      modifies this, bus, if parent.Some? then {parent.value} else {}
      ensures Valid()
      ensures bus.pushed == old(bus.pushed) + [ToolCall(agentId, toolName, success, summary)]
                            + if summary == "" then [] else [Feedback(agentId, parentId, summary)]
      ensures parent.Some? ==>
                parent.value.pushed == old(parent.value.pushed) + if summary == "" then [] else [summary]
    {
      FeedbackOneMore(bus.pushed, ToolCall(agentId, toolName, success, summary), agentId);
      bus.Push(ToolCall(agentId, toolName, success, summary));
      if summary != "" {
        MaybeForwardFeedback(summary);
      }
    }
  }
}
