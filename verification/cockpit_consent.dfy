/** The consent handshake between the agent's thread and the screen: one pending slot under a
    mutex, and what every answer is over any interleaving with one requester at a time. */
module CockpitConsent {
  import opened Common
  import opened Decimal

  datatype ToolDecisionKind = Allow | Deny | ModifyArgs | ChooseAlternative | AbortConversation

  datatype ToolDecision = ToolDecision(action: ToolDecisionKind, reason: string, modifiedJsonArgs: string)

  const AUTO_APPROVED := ToolDecision(Allow, "auto-approved", "")
  const TIMED_OUT := ToolDecision(Deny, "approval timeout", "")

  function ApprovalId(number: nat, toolName: string): string {
    "consent-" + Dec(number) + "-" + toolName
  }

  /** Ids of different requests differ whatever the tool names. */
  lemma IdsAreDistinct(i: nat, j: nat, a: string, b: string)
    ensures ApprovalId(i, a) == ApprovalId(j, b) ==> i == j && a == b
  {
    hide Dec;
    var x, y := Dec(i) + "-" + a, Dec(j) + "-" + b;
    assert ApprovalId(i, a) == "consent-" + x && ApprovalId(j, b) == "consent-" + y;
    if ApprovalId(i, a) == ApprovalId(j, b) {
      assert x == ("consent-" + x)[8..] && y == ("consent-" + y)[8..];
      DigitsEndAtDash(Dec(i), a, Dec(j), b);
      ValueOfDec(i);
      ValueOfDec(j);
    }
  }

  lemma DigitsEndAtDash(m: string, a: string, n: string, b: string)
    requires AllDigits(m) && AllDigits(n) && m + "-" + a == n + "-" + b
    ensures m == n && a == b
  {
    var x, y := m + "-" + a, n + "-" + b;
    assert x[|m|] == '-' && y[|n|] == '-';
    assert x[..|m|] == m && y[..|n|] == n;
    assert x[|m| + 1..] == a && y[|n| + 1..] == b;
  }

  // ---- The provider ----

  datatype Slot = Slot(autoApprove: bool, counter: nat, pendingId: string, pendingDecision: Option<ToolDecision>)

  function AfterBegin(s: Slot, toolName: string): Slot {
    s.(counter := s.counter + 1, pendingId := ApprovalId(s.counter + 1, toolName), pendingDecision := None)
  }

  function AfterResolve(s: Slot, approvalId: string, decision: ToolDecision): Slot {
    if s.pendingId == approvalId then s.(pendingDecision := Some(decision)) else s
  }

  /** The wait is over when there is a decision, when the slot is empty, or by timeout. */
  predicate WaitOver(s: Slot, timedOut: bool) {
    s.pendingDecision.Some? || s.pendingId == "" || timedOut
  }

  function PendingOf(s: Slot): Option<string> {
    if s.pendingId == "" then None else Some(s.pendingId)
  }

  function AnswerOf(s: Slot): ToolDecision {
    match s.pendingDecision
    case Some(d) => d
    case None => TIMED_OUT
  }

  class CockpitConsentProvider {
    var autoApprove: bool
    var counter: nat
    var pendingId: string
    var pendingDecision: Option<ToolDecision>

    ghost function State(): Slot
      reads this
    {
      Slot(autoApprove, counter, pendingId, pendingDecision)
    }

    constructor (auto: bool)
      ensures State() == Slot(auto, 0, "", None)
    {
      autoApprove, counter, pendingId, pendingDecision := auto, 0, "", None;
    }

    /** `requestToolUse` up to the release of the first lock: the answer of an automatic approval,
        or the id under which the request is now pending. */
    method BeginRequest(toolName: string) returns (auto: Option<ToolDecision>, approvalId: string)
      modifies this
      ensures auto.Some? <==> old(autoApprove)
      ensures auto.Some? ==> auto.value == ToolDecision(Allow, "auto-approved", "") && State() == old(State())
      ensures auto.None? ==>
                && State() == AfterBegin(old(State()), toolName)
                && approvalId == pendingId == "consent-" + Dec(old(counter) + 1) + "-" + toolName
    {
      approvalId := "";
      if autoApprove {
        return Some(AUTO_APPROVED), approvalId;
      }
      counter := counter + 1;
      approvalId := ApprovalId(counter, toolName);
      pendingId := approvalId;
      pendingDecision := None;
      auto := None;
    }

    /** `requestToolUse` once its wait is over. */
    method FinishRequest(timedOut: bool) returns (decision: ToolDecision)
      requires WaitOver(State(), timedOut)
      modifies this
      ensures decision == AnswerOf(old(State()))
      ensures old(pendingDecision).None? ==> decision == ToolDecision(Deny, "approval timeout", "")
      ensures State() == old(State()).(pendingId := "", pendingDecision := None)
    {
      if pendingDecision.Some? {
        decision := pendingDecision.value;
        pendingId := "";
        pendingDecision := None;
        return;
      }
      pendingId := "";
      decision := TIMED_OUT;
    }

    method Resolve(approvalId: string, decision: ToolDecision)
      modifies this
      ensures State() == AfterResolve(old(State()), approvalId, decision)
    {
      if pendingId == approvalId {
        pendingDecision := Some(decision);
      }
    }

    method PendingApprovalId() returns (r: Option<string>)
      ensures r == PendingOf(State())
    {
      if pendingId == "" {
        return None;
      }
      return Some(pendingId);
    }
  }

  // ---- Any interleaving with one requester ----

  datatype Event =
    | SetAuto(auto: bool)
    | Request(toolName: string)
    | Resolve(approvalId: string, decision: ToolDecision)
    | Wake(timedOut: bool)

  /** An answer that was not automatic: the request with this id was the event at index `from`, and
      the wait ended with the event at index `to`. */
  datatype Answer = Answer(number: nat, id: string, decision: ToolDecision, from: nat, to: nat)

  /** The provider, and the request in progress with the index of its event. */
  datatype World = World(slot: Slot, waiting: Option<nat>, answers: seq<Answer>)

  predicate Enabled(w: World, e: Event) {
    match e
    case Request(_) => w.waiting.None?
    case Wake(timedOut) => w.waiting.Some? && WaitOver(w.slot, timedOut)
    case _ => true
  }

  /** One event, the n-th of the run. */
  function Step(w: World, e: Event, n: nat): World {
    match e
    case SetAuto(auto) => w.(slot := w.slot.(autoApprove := auto))
    case Request(toolName) =>
      if w.slot.autoApprove then w else w.(slot := AfterBegin(w.slot, toolName), waiting := Some(n))
    case Resolve(id, d) => w.(slot := AfterResolve(w.slot, id, d))
    case Wake(_) =>
      if w.waiting.None? then w
      else
        World(w.slot.(pendingId := "", pendingDecision := None), None,
              w.answers + [Answer(w.slot.counter, w.slot.pendingId, AnswerOf(w.slot), w.waiting.value, n)])
  }

  function Run(start: Slot, es: seq<Event>): World {
    if es == [] then World(start, None, [])
    else Step(Run(start, es[..|es| - 1]), es[|es| - 1], |es| - 1)
  }

  ghost predicate Possible(start: Slot, es: seq<Event>) {
    es == []
    || (Possible(start, es[..|es| - 1]) && Enabled(Run(start, es[..|es| - 1]), es[|es| - 1]))
  }

  /** The decision of the last `resolve` with this id, if there is one. */
  function LastDecision(es: seq<Event>, id: string): Option<ToolDecision> {
    if es == [] then None
    else
      match es[|es| - 1]
      case Resolve(other, d) => if other == id then Some(d) else LastDecision(es[..|es| - 1], id)
      case _ => LastDecision(es[..|es| - 1], id)
  }

  /** The answer is the last decision given for its id between its request and its end, or a denial
      by timeout when there was none. */
  ghost predicate AnswerIsRight(es: seq<Event>, a: Answer) {
    && a.from < a.to < |es|
    && es[a.from].Request? && a.id == ApprovalId(a.number, es[a.from].toolName)
    && es[a.to].Wake?
    && match LastDecision(es[a.from + 1..a.to], a.id)
       case Some(d) => a.decision == d
       case None => a.decision == TIMED_OUT && es[a.to].timedOut
  }

  /** The request in progress owns the slot, and the slot holds the last decision for it. */
  ghost predicate WaitingIsRight(es: seq<Event>, w: World) {
    w.waiting.Some? ==>
      var from := w.waiting.value;
      && from < |es| && es[from].Request?
      && w.slot.pendingId == ApprovalId(w.slot.counter, es[from].toolName)
      && w.slot.pendingDecision == LastDecision(es[from + 1..], w.slot.pendingId)
  }

  lemma AnswerStaysRight(es: seq<Event>, e: Event, a: Answer)
    requires AnswerIsRight(es, a)
    ensures AnswerIsRight(es + [e], a)
  {
    assert (es + [e])[a.from + 1..a.to] == es[a.from + 1..a.to];
  }

  lemma WaitingStaysRight(es: seq<Event>, e: Event, w: World)
    requires WaitingIsRight(es, w)
    ensures WaitingIsRight(es + [e], Step(w, e, |es|))
  {
    hide ApprovalId, AnswerOf, WaitOver;
    var w' := Step(w, e, |es|);
    if w'.waiting.Some? {
      var from := w'.waiting.value;
      var since := (es + [e])[from + 1..];
      if from < |es| {
        assert since == es[from + 1..] + [e] && since[..|since| - 1] == es[from + 1..];
      } else {
        assert since == [];
      }
    }
  }

  lemma NewAnswerIsRight(es: seq<Event>, e: Event, w: World)
    requires WaitingIsRight(es, w) && w.waiting.Some? && e.Wake? && WaitOver(w.slot, e.timedOut)
    ensures AnswerIsRight(es + [e], Answer(w.slot.counter, w.slot.pendingId, AnswerOf(w.slot), w.waiting.value, |es|))
  {
    var from := w.waiting.value;
    assert (es + [e])[from + 1..|es|] == es[from + 1..];
    assert w.slot.pendingId != "" by {
      assert |w.slot.pendingId| >= 8;
    }
  }

  /** Over every interleaving, every answer is right and answers carry increasing numbers, so no
      decision reaches a request other than the one it was given for while that one waited. */
  lemma {:induction false} EveryAnswerIsRight(start: Slot, es: seq<Event>)
    requires Possible(start, es)
    ensures var w := Run(start, es);
            && WaitingIsRight(es, w)
            && (forall i :: 0 <= i < |w.answers| ==> AnswerIsRight(es, w.answers[i]) && w.answers[i].number <= w.slot.counter)
            && (w.waiting.Some? ==> forall i :: 0 <= i < |w.answers| ==> w.answers[i].number < w.slot.counter)
            && forall i, j :: 0 <= i < j < |w.answers| ==> w.answers[i].number < w.answers[j].number
  {
    hide AnswerIsRight, WaitingIsRight, LastDecision;
    if es == [] {
      NothingWaits(start);
    } else {
      var before, e := es[..|es| - 1], es[|es| - 1];
      var w := Run(start, before);
      EveryAnswerIsRight(start, before);
      assert es == before + [e];
      WaitingStaysRight(before, e, w);
      forall i | 0 <= i < |w.answers|
        ensures AnswerIsRight(es, w.answers[i])
      {
        AnswerStaysRight(before, e, w.answers[i]);
      }
      if e.Wake? {
        NewAnswerIsRight(before, e, w);
      }
    }
  }

  /** The last decision for an id, found by position. */
  lemma {:induction false} LastDecisionIsLast(es: seq<Event>, id: string)
    ensures LastDecision(es, id).None? ==> forall j :: 0 <= j < |es| ==> !(es[j].Resolve? && es[j].approvalId == id)
    ensures LastDecision(es, id).Some? ==>
              exists j :: 0 <= j < |es| && es[j] == Resolve(id, LastDecision(es, id).value)
                          && forall k :: j < k < |es| ==> !(es[k].Resolve? && es[k].approvalId == id)
  {
    if es != [] {
      var before, e := es[..|es| - 1], es[|es| - 1];
      LastDecisionIsLast(before, id);
      assert es == before + [e];
      if e.Resolve? && e.approvalId == id {
        assert es[|es| - 1] == Resolve(id, LastDecision(es, id).value);
      } else if LastDecision(es, id).Some? {
        var j :| 0 <= j < |before| && before[j] == Resolve(id, LastDecision(before, id).value)
                 && forall k :: j < k < |before| ==> !(before[k].Resolve? && before[k].approvalId == id);
        assert es[j] == before[j];
        forall k | j < k < |es|
          ensures !(es[k].Resolve? && es[k].approvalId == id)
        {
          assert k < |before| ==> es[k] == before[k];
        }
      }
    }
  }

  ghost predicate Decides(e: Event, id: string) {
    e.Resolve? && e.approvalId == id
  }

  /** An answer that is right follows the last `resolve` of its id during the wait, if there is one. */
  lemma AnswerFollows(es: seq<Event>, a: Answer)
    requires AnswerIsRight(es, a)
    ensures (forall j :: a.from < j < a.to ==> !Decides(es[j], a.id)) ==>
              a.decision == ToolDecision(Deny, "approval timeout", "") && es[a.to].timedOut
    ensures (exists j :: a.from < j < a.to && Decides(es[j], a.id)) ==>
              exists j :: a.from < j < a.to && Decides(es[j], a.id) && es[j].decision == a.decision
                          && forall k :: j < k < a.to ==> !Decides(es[k], a.id)
  {
    hide ApprovalId, LastDecision;
    var meanwhile := es[a.from + 1..a.to];
    LastDecisionIsLast(meanwhile, a.id);
    forall j | a.from < j < a.to
      ensures es[j] == meanwhile[j - a.from - 1]
    {
    }
    if LastDecision(meanwhile, a.id).Some? {
      var d := LastDecision(meanwhile, a.id).value;
      assert a.decision == d;
      var k :| 0 <= k < |meanwhile| && meanwhile[k] == Resolve(a.id, d)
               && forall l :: k < l < |meanwhile| ==> !(meanwhile[l].Resolve? && meanwhile[l].approvalId == a.id);
      var j := a.from + 1 + k;
      assert es[j] == meanwhile[k];
      assert Decides(es[j], a.id) && es[j].decision == d;
    } else {
      assert a.decision == TIMED_OUT && es[a.to].timedOut;
    }
  }

  /** A tool is allowed only by a `resolve` of its own request that allows it, given while that
      request waited; without any `resolve` of its own, the request is denied, and by timeout. */
  lemma AllowedOnlyIfResolved(start: Slot, es: seq<Event>, i: nat)
    requires Possible(start, es) && i < |Run(start, es).answers|
    ensures var a := Run(start, es).answers[i];
            && a.from < a.to < |es| && es[a.from].Request? && es[a.to].Wake?
            && ((forall j :: a.from < j < a.to ==> !Decides(es[j], a.id)) ==>
                  a.decision == ToolDecision(Deny, "approval timeout", "") && es[a.to].timedOut)
            && ((exists j :: a.from < j < a.to && Decides(es[j], a.id)) ==>
                  exists j :: a.from < j < a.to && Decides(es[j], a.id) && es[j].decision == a.decision
                              && forall k :: j < k < a.to ==> !Decides(es[k], a.id))
            && (a.decision.action == Allow ==>
                  exists j :: a.from < j < a.to && Decides(es[j], a.id) && es[j].decision.action == Allow)
  {
    EveryAnswerIsRight(start, es);
    hide Run, Possible, WaitingIsRight;
    var a := Run(start, es).answers[i];
    AnswerFollows(es, a);
  }

  /** The user can decide and switch approval at any moment; a request can be made when none waits, and
      a wait can always end by timeout. */
  lemma AlwaysPossible(start: Slot, es: seq<Event>, e: Event)
    requires Possible(start, es)
    ensures Possible(start, es + [e]) <==>
            match e
            case Request(_) => Run(start, es).waiting.None?
            case Wake(timedOut) =>
              Run(start, es).waiting.Some?
              && (timedOut || Run(start, es).slot.pendingDecision.Some? || Run(start, es).slot.pendingId == "")
            case _ => true
  {
    assert (es + [e])[..|es|] == es;
  }

  /** Every wait that ends gives one answer. */
  function Wakes(es: seq<Event>): nat {
    if es == [] then 0 else Wakes(es[..|es| - 1]) + if es[|es| - 1].Wake? then 1 else 0
  }

  lemma {:induction false} EveryWaitIsAnswered(start: Slot, es: seq<Event>)
    requires Possible(start, es)
    ensures |Run(start, es).answers| == Wakes(es)
  {
    if es != [] {
      EveryWaitIsAnswered(start, es[..|es| - 1]);
    }
  }

  /** The provider follows the run: playing any possible list of events on it leaves it in the run's
      slot and gives the run's answers. */
  method Play(provider: CockpitConsentProvider, es: seq<Event>) returns (given: seq<(string, ToolDecision)>)
    requires Possible(provider.State(), es)
    modifies provider
    ensures provider.State() == Run(old(provider.State()), es).slot
    ensures given == Decisions(Run(old(provider.State()), es))
  {
    ghost var start := provider.State();
    given := [];
    for n := 0 to |es|
      invariant provider.State() == Run(start, es[..n]).slot
      invariant given == Decisions(Run(start, es[..n]))
    {
      PossibleSoFar(start, es, n + 1);
      assert es[..n + 1][..n] == es[..n] && es[..n + 1][n] == es[n];
      match es[n]
      case SetAuto(auto) =>
        provider.autoApprove := auto;
      case Request(toolName) =>
        var _, _ := provider.BeginRequest(toolName);
      case Resolve(id, decision) =>
        provider.Resolve(id, decision);
      case Wake(timedOut) =>
        var id := provider.pendingId;
        var decision := provider.FinishRequest(timedOut);
        given := given + [(id, decision)];
    }
    assert es[..|es|] == es;
  }

  lemma {:induction false} PossibleSoFar(start: Slot, es: seq<Event>, n: nat)
    requires Possible(start, es) && n <= |es|
    ensures Possible(start, es[..n])
    decreases |es| - n
  {
    if n < |es| {
      PossibleSoFar(start, es, n + 1);
      assert es[..n + 1][..n] == es[..n];
    } else {
      assert es[..n] == es;
    }
  }

  lemma NothingWaits(start: Slot)
    ensures WaitingIsRight([], World(start, None, []))
  {
  }

  lemma AnswerIdsAreDistinct(start: Slot, es: seq<Event>, i: nat, j: nat)
    requires Possible(start, es) && i < j < |Run(start, es).answers|
    ensures Run(start, es).answers[i].id != Run(start, es).answers[j].id
  {
    EveryAnswerIsRight(start, es);
    var a, b := Run(start, es).answers[i], Run(start, es).answers[j];
    IdsAreDistinct(a.number, b.number, es[a.from].toolName, es[b.from].toolName);
  }

  /** From an empty slot on, `pending_approval_id` answers exactly while a request waits, with the
      id of that request. */
  lemma PendingWhileWaiting(start: Slot, es: seq<Event>)
    requires Possible(start, es) && start.pendingId == ""
    ensures var w := Run(start, es);
            w.waiting.Some? ==> w.waiting.value < |es| && es[w.waiting.value].Request?
    ensures var w := Run(start, es);
            PendingOf(w.slot) ==
            if w.waiting.Some? then Some(ApprovalId(w.slot.counter, es[w.waiting.value].toolName)) else None
  {
    hide LastDecision, AnswerIsRight, Possible;
    EveryAnswerIsRight(start, es);
    NotPending(start, es);
    var w := Run(start, es);
    if w.waiting.Some? {
      assert |w.slot.pendingId| >= 8;
    }
  }

  lemma {:induction false} NotPending(start: Slot, es: seq<Event>)
    requires start.pendingId == ""
    ensures Run(start, es).waiting.None? ==> Run(start, es).slot.pendingId == ""
  {
    if es != [] {
      NotPending(start, es[..|es| - 1]);
    }
  }

  // ---- Resolves with other ids are invisible ----

  /** The run without the resolves that name another id than the pending one. */
  function WithoutForeign(start: Slot, es: seq<Event>): seq<Event> {
    if es == [] then []
    else
      var before, e := es[..|es| - 1], es[|es| - 1];
      WithoutForeign(start, before)
      + if e.Resolve? && e.approvalId != Run(start, before).slot.pendingId then [] else [e]
  }

  function Decisions(w: World): (ds: seq<(string, ToolDecision)>)
    ensures |ds| == |w.answers| && forall i :: 0 <= i < |ds| ==> ds[i] == (w.answers[i].id, w.answers[i].decision)
  {
    seq(|w.answers|, i requires 0 <= i < |w.answers| => (w.answers[i].id, w.answers[i].decision))
  }

  lemma {:induction false} ForeignResolvesAreInvisible(start: Slot, es: seq<Event>)
    ensures var w, v := Run(start, es), Run(start, WithoutForeign(start, es));
            v.slot == w.slot && v.waiting.Some? == w.waiting.Some? && Decisions(v) == Decisions(w)
  {
    if es != [] {
      var before, e := es[..|es| - 1], es[|es| - 1];
      ForeignResolvesAreInvisible(start, before);
      var kept := WithoutForeign(start, before);
      assert (kept + [e])[..|kept|] == kept;
      assert kept + [] == kept;
    }
  }
}
