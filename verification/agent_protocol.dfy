/** Agents, workers and callers of the manager as threads: one step is one critical section of a
    queue or one write of a record field.  The registry mutex orders `park_agent` and `wake_agent`
    among themselves, but a worker writes its final state without it. */
module AgentProtocol {
  import opened Common
  import opened AgentManager

  // ---- Worlds ----

  /** Where a worker is.  `Handing` is inside `maybe_forward_feedback`, between the call of
      `parent_inject` and the post; the three phases before `Ended` follow the return of its function. */
  datatype Phase =
    | Working
    | Handing(text: string)
    | Written(ok: bool, text: string)
    | Stamped(ok: bool, text: string)
    | Ended

  /** A queued message; `source` is the sub-agent whose feedback it is, if any. */
  datatype Injection = Injection(source: Option<string>, text: string)

  /** `parent` is the agent whose queue `parent_inject` feeds, when the driver has one. */
  datatype Agent = Agent(
    parentId: string,
    parent: Option<string>,
    registered: bool,
    status: Status,
    finishedAt: Option<int>,
    phase: Phase,
    injected: seq<Injection>,
    taken: seq<Injection>,
    queue: seq<Injection>)

  /** The registry mutex, by what its holder has still to do.  `Clearing` has dropped the waiting
      flag and not yet looked at the state; `Resuming` has seen Waiting and not yet written Running. */
  datatype Lock =
    | Free
    | Parking(id: string)
    | Clearing(id: string)
    | Resuming(id: string)

  datatype World = World(
    agents: map<string, Agent>,
    lock: Lock,
    posted: seq<AgentEvent>,
    drained: seq<AgentEvent>,
    queue: seq<AgentEvent>)

  const EMPTY := World(map[], Free, [], [], [])

  function Spawned(parentId: string, parent: Option<string>): Agent {
    Agent(parentId, parent, false, Status(Running, false, ""), None, Working, [], [], [])
  }

  // ---- Steps ----

  /** What a thread does to one agent. */
  datatype Move =
    | Register
      // the worker
    | Post(event: AgentEvent)
    | HandOver(text: string)
    | PostFeedback
    | WriteState(ok: bool, text: string)
    | Stamp(now: int)
    | PostEnd
    | TakeInjection
      // callers of the manager
    | Inject(text: string)
    | ParkBegin
    | ParkEnd(reason: string)
    | WakeBegin
    | WakeTest
    | WakeWrite

  predicate CanMove(a: Agent, id: string, lock: Lock, m: Move) {
    match m
    case Register => lock.Free?
    case Post(e) => a.phase.Working? && e.agentId == id && !IsTerminal(e) && !e.Feedback?
    case HandOver(_) => a.phase.Working?
    case PostFeedback => a.phase.Handing?
    case WriteState(_, _) => a.phase.Working?
    case Stamp(_) => a.phase.Written?
    case PostEnd => a.phase.Stamped?
    case TakeInjection => a.phase.Working? && a.queue != []
    case Inject(_) => a.registered
    case ParkBegin => a.registered && lock.Free?
    case ParkEnd(_) => lock == Parking(id)
    case WakeBegin => a.registered && lock.Free?
    case WakeTest => lock == Clearing(id)
    case WakeWrite => lock == Resuming(id)
  }

  function Queued(a: Agent, m: Injection): Agent {
    a.(injected := a.injected + [m], queue := a.queue + [m])
  }

  function Moved(a: Agent, id: string, lock: Lock, m: Move): Agent
    requires CanMove(a, id, lock, m)
  {
    match m
    case Register => a.(registered := true)
    case Post(_) => a
    case HandOver(text) => a.(phase := Handing(text))
    case PostFeedback => a.(phase := Working)
    case WriteState(ok, text) =>
      a.(status := a.status.(state := if ok then Finished else Errored), phase := Written(ok, text))
    case Stamp(now) => a.(finishedAt := Some(now), phase := Stamped(a.phase.ok, a.phase.text))
    case PostEnd => a.(phase := Ended)
    case TakeInjection => a.(taken := a.taken + [a.queue[0]], queue := a.queue[1..])
    case Inject(text) => Queued(a, Injection(None, text))
    case ParkBegin => a.(status := a.status.(state := Waiting))
    case ParkEnd(reason) => a.(status := a.status.(waitingForParent := true, waitingReason := reason))
    case WakeBegin => a.(status := a.status.(waitingForParent := false, waitingReason := ""))
    case WakeTest => a
    case WakeWrite => a.(status := a.status.(state := Running))
  }

  function LockAfter(a: Agent, id: string, lock: Lock, m: Move): Lock {
    match m
    case ParkBegin => Parking(id)
    case WakeBegin => Clearing(id)
    case WakeTest => if a.status.state == Waiting then Resuming(id) else Free
    case ParkEnd(_) => Free
    case WakeWrite => Free
    case _ => lock
  }

  /** What the move posts on the bus. */
  function PostedBy(a: Agent, id: string, lock: Lock, m: Move): seq<AgentEvent>
    requires CanMove(a, id, lock, m)
  {
    match m
    case Post(e) => [e]
    case PostFeedback => [Feedback(id, a.parentId, a.phase.text)]
    case PostEnd => [if a.phase.ok then AgentFinished(id, a.phase.text) else AgentError(id, a.phase.text)]
    case _ => []
  }

  datatype Step =
    | Spawn(id: string, parentId: string, parent: Option<string>)
    | Act(id: string, move: Move)
      // the reader of the bus
    | Drain
    | WaitNext

  predicate Enabled(w: World, s: Step) {
    match s
    case Spawn(id, _, parent) => id !in w.agents && (parent.Some? ==> parent.value in w.agents)
    case Act(id, m) => id in w.agents && CanMove(w.agents[id], id, w.lock, m)
    case Drain => true
    case WaitNext => w.queue != []
  }

  /** `parent_inject`, when the driver has one, queues the text for the parent. */
  function HandedUp(agents: map<string, Agent>, id: string, text: string): map<string, Agent>
    requires id in agents
  {
    match agents[id].parent
    case Some(p) => if p in agents then agents[p := Queued(agents[p], Injection(Some(id), text))] else agents
    case None => agents
  }

  function AgentsAfter(w: World, id: string, m: Move): map<string, Agent>
    requires Enabled(w, Act(id, m))
  {
    var moved := w.agents[id := Moved(w.agents[id], id, w.lock, m)];
    if m.HandOver? then HandedUp(moved, id, m.text) else moved
  }

  function Next(w: World, s: Step): World
    requires Enabled(w, s)
  {
    match s
    case Spawn(id, parentId, parent) => w.(agents := w.agents[id := Spawned(parentId, parent)])
    case Act(id, m) =>
      var es := PostedBy(w.agents[id], id, w.lock, m);
      World(AgentsAfter(w, id, m), LockAfter(w.agents[id], id, w.lock, m), w.posted + es, w.drained, w.queue + es)
    case Drain => w.(drained := w.drained + w.queue, queue := [])
    case WaitNext => w.(drained := w.drained + [w.queue[0]], queue := w.queue[1..])
  }

  /** A run: every step is enabled where it is taken. */
  ghost predicate Leads(w: World, ss: seq<Step>, w': World)
    decreases |ss|
  {
    if ss == [] then w == w'
    else Enabled(w, ss[0]) && Leads(Next(w, ss[0]), ss[1..], w')
  }

  // ---- What is promised ----

  /** The events an agent posted, in bus order. */
  function Own(es: seq<AgentEvent>, id: string): seq<AgentEvent> {
    if es == [] then []
    else Own(es[..|es| - 1], id) + if es[|es| - 1].agentId == id then [es[|es| - 1]] else []
  }

  /** No terminal event. */
  ghost predicate Open(es: seq<AgentEvent>) {
    forall i :: 0 <= i < |es| ==> !IsTerminal(es[i])
  }

  /** One terminal event, and it is the last. */
  ghost predicate Closed(es: seq<AgentEvent>) {
    es != [] && IsTerminal(es[|es| - 1]) && Open(es[..|es| - 1])
  }

  /** The texts a queue received as the feedback of one sub-agent. */
  function TextsFrom(ms: seq<Injection>, id: string): seq<string> {
    if ms == [] then []
    else TextsFrom(ms[..|ms| - 1], id) + if ms[|ms| - 1].source == Some(id) then [ms[|ms| - 1].text] else []
  }

  function InFlight(p: Phase): seq<string> {
    if p.Handing? then [p.text] else []
  }

  /** Nothing posted on the bus, and nothing injected into a driver, is lost, repeated or reordered. */
  ghost predicate QueuesKeep(w: World) {
    && w.drained + w.queue == w.posted
    && forall id :: id in w.agents ==> w.agents[id].taken + w.agents[id].queue == w.agents[id].injected
  }

  /** An agent posts one terminal event when it ends, none before and nothing after. */
  ghost predicate EndsOnce(w: World, id: string) {
    if id !in w.agents then Own(w.posted, id) == []
    else if w.agents[id].phase.Ended? then Closed(Own(w.posted, id))
    else Open(Own(w.posted, id))
  }

  /** What q received from id is what id fed back, when q is its parent, and nothing otherwise. */
  ghost predicate FedExactly(w: World, id: string, q: string)
    requires q in w.agents
  {
    TextsFrom(w.agents[q].injected, id) ==
    if id in w.agents && w.agents[id].parent == Some(q)
    then FeedbackTexts(w.posted, id) + InFlight(w.agents[id].phase)
    else []
  }

  ghost predicate Feeds(w: World) {
    && (forall id, q :: q in w.agents ==> FedExactly(w, id, q))
    && (forall id :: id !in w.agents ==> FeedbackTexts(w.posted, id) == [])
    && (forall id :: id in w.agents && w.agents[id].parent.Some? ==> w.agents[id].parent.value in w.agents)
  }

  predicate HeldFor(lock: Lock, id: string) {
    !lock.Free? && lock.id == id
  }

  predicate HasEnded(p: Phase) {
    p.Written? || p.Stamped? || p.Ended?
  }

  /** State, waiting flag, stamp and phase of one agent; `held` when the mutex is held for it. */
  ghost predicate StatusFits(a: Agent, lock: Lock, id: string) {
    && (a.finishedAt.Some? <==> a.phase.Stamped? || a.phase.Ended?)
    && (a.status.state in {Finished, Errored} ==> HasEnded(a.phase))
    && (a.status.state == Waiting && !a.status.waitingForParent ==> HeldFor(lock, id))
    && (a.status.waitingForParent && a.status.state != Waiting ==> HasEnded(a.phase))
    && (lock == Parking(id) && a.status.state != Waiting ==> HasEnded(a.phase))
    && (lock == Clearing(id) || lock == Resuming(id) ==> !a.status.waitingForParent)
    && (lock == Resuming(id) && a.status.state != Waiting ==> HasEnded(a.phase))
    && (HeldFor(lock, id) ==> a.registered)
    && (!a.registered ==> a.status.state != Waiting)
  }

  ghost predicate StatusesFit(w: World) {
    && (forall id :: id in w.agents ==> StatusFits(w.agents[id], w.lock, id))
    && (!w.lock.Free? ==> w.lock.id in w.agents)
  }

  ghost predicate Invariant(w: World) {
    QueuesKeep(w) && (forall id :: EndsOnce(w, id)) && Feeds(w) && StatusesFit(w)
  }

  // ---- Every step keeps it ----

  /** One agent after a step. */
  function AgentAfter(w: World, s: Step, id: string): Agent
    requires Enabled(w, s) && (id in w.agents || (s.Spawn? && s.id == id))
  {
    match s
    case Spawn(added, parentId, parent) => if added == id then Spawned(parentId, parent) else w.agents[id]
    case Act(actor, m) =>
      var a := if actor == id then Moved(w.agents[id], id, w.lock, m) else w.agents[id];
      if m.HandOver? && w.agents[actor].parent == Some(id) then Queued(a, Injection(Some(actor), m.text)) else a
    case _ => w.agents[id]
  }

  function PostsOf(w: World, s: Step): seq<AgentEvent>
    requires Enabled(w, s)
  {
    if s.Act? then PostedBy(w.agents[s.id], s.id, w.lock, s.move) else []
  }

  lemma NextAgents(w: World, s: Step)
    requires Enabled(w, s)
    ensures Next(w, s).posted == w.posted + PostsOf(w, s)
    ensures forall id :: id in Next(w, s).agents <==> id in w.agents || (s.Spawn? && s.id == id)
    ensures forall id :: id in Next(w, s).agents ==> Next(w, s).agents[id] == AgentAfter(w, s, id)
  {
    if s.Act? {
      MoveKeepsParent(w.agents[s.id], s.id, w.lock, s.move);
    }
    hide CanMove, Moved, LockAfter, PostedBy, Queued;
  }

  lemma MoveKeepsParent(a: Agent, id: string, lock: Lock, m: Move)
    requires CanMove(a, id, lock, m)
    ensures Moved(a, id, lock, m).parent == a.parent
  {
  }

  lemma QueuesStayKept(w: World, s: Step)
    requires QueuesKeep(w) && Enabled(w, s)
    ensures QueuesKeep(Next(w, s))
  {
    hide AgentAfter, Enabled, Next;
    NextAgents(w, s);
    BusStaysKept(w, s);
    forall id | id in Next(w, s).agents
      ensures var b := Next(w, s).agents[id]; b.taken + b.queue == b.injected
    {
      QueueAfter(w, s, id);
    }
  }

  lemma BusStaysKept(w: World, s: Step)
    requires w.drained + w.queue == w.posted && Enabled(w, s)
    ensures var w' := Next(w, s); w'.drained + w'.queue == w'.posted
  {
    hide CanMove, AgentsAfter, PostedBy, LockAfter;
  }

  lemma QueueAfter(w: World, s: Step, id: string)
    requires Enabled(w, s) && (if id in w.agents then w.agents[id].taken + w.agents[id].queue == w.agents[id].injected else s.Spawn? && s.id == id)
    ensures var b := AgentAfter(w, s, id); b.taken + b.queue == b.injected
  {
    if s.Act? {
      if s.id == id {
        QueueMove(w.agents[id], id, w.lock, s.move);
      }
      hide CanMove, Moved;
    }
  }

  lemma QueueMove(a: Agent, id: string, lock: Lock, m: Move)
    requires CanMove(a, id, lock, m) && a.taken + a.queue == a.injected
    ensures var b := Moved(a, id, lock, m); b.taken + b.queue == b.injected
  {
  }

  lemma OwnOneMore(es: seq<AgentEvent>, e: AgentEvent, id: string)
    ensures Own(es + [e], id) == Own(es, id) + if e.agentId == id then [e] else []
  {
    assert (es + [e])[..|es|] == es;
  }

  lemma TextsOneMore(ms: seq<Injection>, m: Injection, id: string)
    ensures TextsFrom(ms + [m], id) == TextsFrom(ms, id) + if m.source == Some(id) then [m.text] else []
  {
    assert (ms + [m])[..|ms|] == ms;
  }

  /** What a move posts is its own agent's; it is terminal exactly when it ends the agent. */
  lemma PostsFit(a: Agent, id: string, lock: Lock, m: Move)
    requires CanMove(a, id, lock, m)
    ensures var es := PostedBy(a, id, lock, m);
            && (|es| <= 1 && (es != [] ==> es[0].agentId == id && (IsTerminal(es[0]) <==> m.PostEnd?)))
            && (m.PostEnd? ==> es != [])
    ensures Moved(a, id, lock, m).phase.Ended? <==> m.PostEnd? || a.phase.Ended?
    ensures a.phase.Ended? ==> PostedBy(a, id, lock, m) == []
  {
  }

  lemma OwnAfter(w: World, s: Step, id: string)
    requires Enabled(w, s)
    ensures Own(w.posted + PostsOf(w, s), id) ==
            Own(w.posted, id) + if s.Act? && s.id == id then PostsOf(w, s) else []
  {
    var es := PostsOf(w, s);
    if s.Act? {
      PostsFit(w.agents[s.id], s.id, w.lock, s.move);
    }
    hide Own, CanMove, PostedBy;
    if es == [] {
      assert w.posted + es == w.posted;
    } else {
      assert es == [es[0]];
      OwnOneMore(w.posted, es[0], id);
    }
  }

  lemma EndedAfter(w: World, s: Step, id: string)
    requires Enabled(w, s) && (id in w.agents || (s.Spawn? && s.id == id))
    ensures var posts := if s.Act? && s.id == id then PostsOf(w, s) else [];
            && (AgentAfter(w, s, id).phase.Ended? <==>
                (id in w.agents && w.agents[id].phase.Ended?) || (posts != [] && IsTerminal(posts[0])))
            && |posts| <= 1 && (id in w.agents && w.agents[id].phase.Ended? ==> posts == [])
  {
    if s.Act? {
      PostsFit(w.agents[s.id], s.id, w.lock, s.move);
    }
    hide CanMove, Moved, PostedBy, IsTerminal;
  }

  lemma OpenOrClosed(es: seq<AgentEvent>, posts: seq<AgentEvent>)
    requires Open(es) && |posts| <= 1
    ensures if posts != [] && IsTerminal(posts[0]) then Closed(es + posts) else Open(es + posts)
  {
    if posts != [] {
      assert (es + posts)[..|es|] == es;
    } else {
      assert es + posts == es;
    }
  }

  lemma EndsStayOnce(w: World, s: Step, id: string)
    requires EndsOnce(w, id) && Enabled(w, s)
    ensures EndsOnce(Next(w, s), id)
  {
    var es, posts := Own(w.posted, id), if s.Act? && s.id == id then PostsOf(w, s) else [];
    NextAgents(w, s);
    OwnAfter(w, s, id);
    if id in Next(w, s).agents {
      EndedAfter(w, s, id);
      assert es + [] == es;
      assert !Closed(es) ==> Open(es);
      if Open(es) {
        OpenOrClosed(es, posts);
      }
    }
    hide Own, Enabled, PostsOf, Next, IsTerminal, Open, Closed, AgentAfter;
  }

  function FedBack(es: seq<AgentEvent>): seq<string> {
    if es != [] && es[0].Feedback? then [es[0].text] else []
  }

  /** What a move feeds back and what it leaves in flight together grow by what it hands over. */
  lemma FeedMove(a: Agent, id: string, lock: Lock, m: Move)
    requires CanMove(a, id, lock, m)
    ensures var es := PostedBy(a, id, lock, m);
            && |es| <= 1 && (es != [] ==> es[0].agentId == id)
            && FedBack(es) + InFlight(Moved(a, id, lock, m).phase)
               == InFlight(a.phase) + (if m.HandOver? then [m.text] else [])
    ensures m.HandOver? ==> InFlight(a.phase) == [] && PostedBy(a, id, lock, m) == []
    ensures Moved(a, id, lock, m).injected == a.injected + if m.Inject? then [Injection(None, m.text)] else []
    ensures Moved(a, id, lock, m).parent == a.parent
  {
  }

  function FedBackBy(w: World, s: Step, id: string): seq<string>
    requires Enabled(w, s)
  {
    if s.Act? && s.id == id then FedBack(PostsOf(w, s)) else []
  }

  lemma FeedbackAfter(w: World, s: Step, id: string)
    requires Enabled(w, s)
    ensures FeedbackTexts(w.posted + PostsOf(w, s), id) ==
            FeedbackTexts(w.posted, id) + FedBackBy(w, s, id)
  {
    var es := PostsOf(w, s);
    if s.Act? {
      FeedMove(w.agents[s.id], s.id, w.lock, s.move);
    }
    hide FeedbackTexts, PostedBy, CanMove;
    if es == [] {
      assert w.posted + es == w.posted;
    } else {
      assert es == [es[0]];
      FeedbackOneMore(w.posted, es[0], id);
    }
  }

  /** What a step queues for q. */
  function QueuedFor(w: World, s: Step, q: string): seq<Injection>
    requires Enabled(w, s)
  {
    if s.Act? && s.move.HandOver? && w.agents[s.id].parent == Some(q) then [Injection(Some(s.id), s.move.text)]
    else if s.Act? && s.move.Inject? && s.id == q then [Injection(None, s.move.text)]
    else []
  }

  lemma InjectedAfter(w: World, s: Step, q: string)
    requires Enabled(w, s) && q in w.agents
    ensures AgentAfter(w, s, q).injected == w.agents[q].injected + QueuedFor(w, s, q)
  {
    assert w.agents[q].injected + [] == w.agents[q].injected;
    if s.Act? {
      FeedMove(w.agents[s.id], s.id, w.lock, s.move);
      hide CanMove, Moved;
    }
  }

  lemma TextsPlus(ms: seq<Injection>, more: seq<Injection>, id: string)
    requires |more| <= 1
    ensures TextsFrom(ms + more, id) ==
            TextsFrom(ms, id) + if more != [] && more[0].source == Some(id) then [more[0].text] else []
  {
    hide TextsFrom;
    if more == [] {
      assert ms + more == ms;
    } else {
      assert more == [more[0]];
      TextsOneMore(ms, more[0], id);
    }
  }

  /** What q has received from id after a step. */
  lemma ReceivedAfter(w: World, s: Step, id: string, q: string)
    requires Enabled(w, s) && q in w.agents
    ensures TextsFrom(AgentAfter(w, s, q).injected, id) ==
            TextsFrom(w.agents[q].injected, id)
            + if id in w.agents && w.agents[id].parent == Some(q) then HandedBy(s, id) else []
  {
    hide TextsFrom, CanMove, AgentAfter;
    InjectedAfter(w, s, q);
    TextsPlus(w.agents[q].injected, QueuedFor(w, s, q), id);
  }

  function HandedBy(s: Step, id: string): seq<string> {
    if s.Act? && s.id == id && s.move.HandOver? then [s.move.text] else []
  }

  lemma FlightAfter(w: World, s: Step, id: string)
    requires Enabled(w, s) && id in w.agents
    ensures AgentAfter(w, s, id).parent == w.agents[id].parent
    ensures FedBackBy(w, s, id) + InFlight(AgentAfter(w, s, id).phase)
            == InFlight(w.agents[id].phase) + HandedBy(s, id)
  {
    if s.Act? && s.id == id {
      FeedMove(w.agents[id], id, w.lock, s.move);
      hide CanMove, Moved, PostedBy;
    }
  }

  lemma FedKnown(w: World, s: Step, id: string, q: string)
    requires Enabled(w, s) && id in w.agents && q in w.agents && FedExactly(w, id, q)
    ensures TextsFrom(AgentAfter(w, s, q).injected, id) ==
            if AgentAfter(w, s, id).parent == Some(q)
            then FeedbackTexts(w.posted + PostsOf(w, s), id) + InFlight(AgentAfter(w, s, id).phase)
            else []
  {
    FeedbackAfter(w, s, id);
    ReceivedAfter(w, s, id, q);
    FlightAfter(w, s, id);
    Regroup(FeedbackTexts(w.posted, id), InFlight(w.agents[id].phase), HandedBy(s, id),
            FedBackBy(w, s, id), InFlight(AgentAfter(w, s, id).phase));
    hide TextsFrom, FeedbackTexts, Enabled, PostsOf, InFlight, FedBackBy, AgentAfter, HandedBy;
  }

  lemma Regroup(fed: seq<string>, flight: seq<string>, handed: seq<string>, more: seq<string>, flight': seq<string>)
    requires more + flight' == flight + handed
    ensures fed + more + flight' == fed + flight + handed
  {
    assert fed + more + flight' == fed + (more + flight');
  }

  lemma FedNew(w: World, s: Step, id: string, q: string)
    requires Feeds(w) && Enabled(w, s) && (id !in w.agents || q !in w.agents)
    requires q in w.agents || (s.Spawn? && s.id == q)
    ensures TextsFrom(AgentAfter(w, s, q).injected, id) == []
    ensures id in w.agents ==> AgentAfter(w, s, id).parent != Some(q)
    ensures id !in w.agents ==> FeedbackTexts(w.posted + PostsOf(w, s), id) + InFlight(Working) == []
  {
    FeedbackAfter(w, s, id);
    FeedsStart(id);
    if id !in w.agents {
      assert FedBackBy(w, s, id) == [];
    }
    if q in w.agents {
      assert FedExactly(w, id, q);
      ReceivedAfter(w, s, id, q);
    } else if id in w.agents {
      FlightAfter(w, s, id);
    }
    hide TextsFrom, FeedbackTexts, PostsOf, InFlight, FedBackBy, CanMove;
  }

  lemma FeedStaysExact(w: World, s: Step, id: string, q: string)
    requires Feeds(w) && Enabled(w, s) && q in Next(w, s).agents
    ensures FedExactly(Next(w, s), id, q)
  {
    NextAgents(w, s);
    if id in w.agents && q in w.agents {
      assert FedExactly(w, id, q);
      FedKnown(w, s, id, q);
    } else {
      FedNew(w, s, id, q);
      if id !in w.agents && id in Next(w, s).agents {
        assert AgentAfter(w, s, id).phase == Working;
      }
    }
    hide TextsFrom, FeedbackTexts, Enabled, PostsOf, InFlight, Next, AgentAfter;
  }

  lemma FeedsStart(id: string)
    ensures TextsFrom([], id) == [] && FeedbackTexts([], id) == [] && Own([], id) == []
    ensures InFlight(Working) == []
  {
  }

  lemma FeedsStay(w: World, s: Step)
    requires Feeds(w) && Enabled(w, s)
    ensures Feeds(Next(w, s))
  {
    NextAgents(w, s);
    hide FeedbackTexts, TextsFrom, FedExactly, Enabled, PostsOf, AgentAfter, Next, InFlight;
    ParentsStay(w, s);
    forall id, q | q in Next(w, s).agents
      ensures FedExactly(Next(w, s), id, q)
    {
      FeedStaysExact(w, s, id, q);
    }
    forall id | id !in Next(w, s).agents
      ensures FeedbackTexts(Next(w, s).posted, id) == []
    {
      FeedbackAfter(w, s, id);
      assert id !in w.agents;
      assert FedBackBy(w, s, id) == [];
    }
  }

  lemma ParentsStay(w: World, s: Step)
    requires Feeds(w) && Enabled(w, s)
    ensures var agents := Next(w, s).agents;
            forall id :: id in agents && agents[id].parent.Some? ==> agents[id].parent.value in agents
  {
    NextAgents(w, s);
    if s.Act? {
      MoveKeepsParent(w.agents[s.id], s.id, w.lock, s.move);
    }
    hide CanMove, Moved, Next;
  }

  lemma StatusMove(a: Agent, id: string, lock: Lock, m: Move)
    requires CanMove(a, id, lock, m) && StatusFits(a, lock, id)
    ensures StatusFits(Moved(a, id, lock, m), LockAfter(a, id, lock, m), id)
    ensures LockAfter(a, id, lock, m) == lock || (HeldFor(lock, id) && LockAfter(a, id, lock, m).Free?)
            || ((lock.Free? || HeldFor(lock, id)) && HeldFor(LockAfter(a, id, lock, m), id))
  {
  }

  lemma StatusElsewhere(b: Agent, other: string, id: string, lock: Lock, lock': Lock)
    requires StatusFits(b, lock, other) && other != id
    requires lock' == lock || ((lock.Free? || HeldFor(lock, id)) && (lock'.Free? || HeldFor(lock', id)))
    ensures StatusFits(b, lock', other)
  {
  }

  lemma StatusesStayFit(w: World, s: Step)
    requires StatusesFit(w) && Enabled(w, s)
    ensures StatusesFit(Next(w, s))
  {
    NextAgents(w, s);
    if s.Act? {
      var lock' := LockAfter(w.agents[s.id], s.id, w.lock, s.move);
      StatusMove(w.agents[s.id], s.id, w.lock, s.move);
      hide CanMove, Moved, LockAfter, PostedBy, AgentsAfter;
      forall id | id in w.agents
        ensures StatusFits(Next(w, s).agents[id], lock', id)
      {
        if id != s.id {
          StatusElsewhere(w.agents[id], id, s.id, w.lock, lock');
        }
      }
    }
  }

  lemma InvariantStep(w: World, s: Step)
    requires Invariant(w) && Enabled(w, s)
    ensures Invariant(Next(w, s))
  {
    hide QueuesKeep, EndsOnce, Feeds, StatusesFit, Enabled, Next;
    QueuesStayKept(w, s);
    FeedsStay(w, s);
    StatusesStayFit(w, s);
    forall id
      ensures EndsOnce(Next(w, s), id)
    {
      EndsStayOnce(w, s, id);
    }
  }

  lemma {:induction false} InvariantRun(w: World, ss: seq<Step>, w': World)
    requires Invariant(w) && Leads(w, ss, w')
    ensures Invariant(w')
    decreases |ss|
  {
    hide Invariant, Enabled, Next;
    if ss != [] {
      InvariantStep(w, ss[0]);
      InvariantRun(Next(w, ss[0]), ss[1..], w');
    }
  }

  lemma InvariantInitially()
    ensures Invariant(EMPTY)
  {
  }

  /** Over every interleaving. */
  lemma EveryRunKeepsInvariant(ss: seq<Step>, w: World)
    requires Leads(EMPTY, ss, w)
    ensures Invariant(w)
  {
    InvariantInitially();
    InvariantRun(EMPTY, ss, w);
  }

  // ---- Waiting is what the last caller asked for ----

  function AfterCall(s: Step, id: string, before: bool): bool {
    if s == Act(id, ParkBegin) then true else if s == Act(id, WakeBegin) then false else before
  }

  /** Whether the last `park_agent` or `wake_agent` for the agent was a park. */
  function LastParks(ss: seq<Step>, id: string, before: bool): bool {
    if ss == [] then before else LastParks(ss[1..], id, AfterCall(ss[0], id, before))
  }

  /** Outside a park in progress, the waiting flag says whether the last call was a park. */
  ghost predicate FlagFits(a: Agent, lock: Lock, id: string, parked: bool) {
    if lock == Parking(id) then parked else a.status.waitingForParent <==> parked
  }

  lemma FlagMove(a: Agent, id: string, lock: Lock, m: Move, parked: bool)
    requires CanMove(a, id, lock, m) && StatusFits(a, lock, id) && FlagFits(a, lock, id, parked)
    ensures FlagFits(Moved(a, id, lock, m), LockAfter(a, id, lock, m), id, AfterCall(Act(id, m), id, parked))
  {
  }

  lemma FlagStaysFit(w: World, s: Step, id: string, parked: bool)
    requires StatusesFit(w) && Enabled(w, s)
    requires if id in w.agents then FlagFits(w.agents[id], w.lock, id, parked) else !parked
    ensures if id in Next(w, s).agents
            then FlagFits(Next(w, s).agents[id], Next(w, s).lock, id, AfterCall(s, id, parked))
            else !AfterCall(s, id, parked)
  {
    NextAgents(w, s);
    if s.Act? {
      StatusMove(w.agents[s.id], s.id, w.lock, s.move);
      if s.id == id {
        FlagMove(w.agents[id], id, w.lock, s.move, parked);
      }
      hide CanMove, Moved, LockAfter, PostedBy, AgentsAfter;
    }
  }

  lemma {:induction false} FlagRun(w: World, ss: seq<Step>, w': World, id: string, parked: bool)
    requires Invariant(w) && Leads(w, ss, w')
    requires if id in w.agents then FlagFits(w.agents[id], w.lock, id, parked) else !parked
    ensures id in w'.agents ==> FlagFits(w'.agents[id], w'.lock, id, LastParks(ss, id, parked))
    decreases |ss|
  {
    hide QueuesKeep, EndsOnce, Feeds, StatusesFit, FlagFits, Enabled, Next;
    if ss != [] {
      FlagStaysFit(w, ss[0], id, parked);
      InvariantStep(w, ss[0]);
      FlagRun(Next(w, ss[0]), ss[1..], w', id, AfterCall(ss[0], id, parked));
    }
  }

  /** Outside the mutex: the waiting flag of an agent is up exactly when the last call for it was a
      park; Waiting implies the flag; and while its worker has not ended the two agree. */
  lemma WaitingIsLastCall(ss: seq<Step>, w: World, id: string)
    requires Leads(EMPTY, ss, w) && id in w.agents && !HeldFor(w.lock, id)
    ensures w.agents[id].status.waitingForParent <==> LastParks(ss, id, false)
    ensures w.agents[id].status.state == Waiting ==> LastParks(ss, id, false)
    ensures !HasEnded(w.agents[id].phase) ==> (w.agents[id].status.state == Waiting <==> LastParks(ss, id, false))
  {
    hide Leads, QueuesKeep, EndsOnce, Feeds;
    InvariantInitially();
    FlagRun(EMPTY, ss, w, id, false);
    EveryRunKeepsInvariant(ss, w);
  }

  lemma {:induction false} LastParksSplit(before: seq<Step>, after: seq<Step>, id: string, parked: bool)
    ensures LastParks(before + after, id, parked) == LastParks(after, id, LastParks(before, id, parked))
  {
    if before == [] {
      assert before + after == after;
    } else {
      assert (before + after)[1..] == before[1..] + after;
      LastParksSplit(before[1..], after, id, AfterCall(before[0], id, parked));
    }
  }

  lemma {:induction false} NoParkSince(ss: seq<Step>, id: string)
    requires Act(id, ParkBegin) !in ss
    ensures !LastParks(ss, id, false)
  {
    if ss != [] {
      NoParkSince(ss[1..], id);
    }
  }

  /** An agent woken and not parked since is not Waiting, whatever else happened meanwhile. */
  lemma AwakeUntilParked(before: seq<Step>, after: seq<Step>, w: World, id: string)
    requires Leads(EMPTY, before + [Act(id, WakeBegin)] + after, w) && id in w.agents && !HeldFor(w.lock, id)
    requires Act(id, ParkBegin) !in after
    ensures w.agents[id].status.state != Waiting && !w.agents[id].status.waitingForParent
  {
    WaitingIsLastCall(before + [Act(id, WakeBegin)] + after, w, id);
    LastParksSplit(before + [Act(id, WakeBegin)], after, id, false);
    LastParksSplit(before, [Act(id, WakeBegin)], id, false);
    NoParkSince(after, id);
  }

  function AfterReasonCall(s: Step, id: string, before: Option<string>): Option<string> {
    if s.Act? && s.id == id && s.move.ParkEnd? then Some(s.move.reason)
    else if s == Act(id, WakeBegin) then None
    else before
  }

  /** The reason of the last completed park of the agent, if no wake came after it. */
  function LastReason(ss: seq<Step>, id: string, before: Option<string>): Option<string> {
    if ss == [] then before else LastReason(ss[1..], id, AfterReasonCall(ss[0], id, before))
  }

  ghost predicate ReasonFits(w: World, id: string, reason: Option<string>) {
    (if id in w.agents then ReasonOf(w.agents[id].status) else None) == reason
  }

  lemma ReasonMove(a: Agent, id: string, lock: Lock, m: Move)
    requires CanMove(a, id, lock, m)
    ensures ReasonOf(Moved(a, id, lock, m).status) == AfterReasonCall(Act(id, m), id, ReasonOf(a.status))
  {
  }

  lemma ReasonStaysFit(w: World, s: Step, id: string, reason: Option<string>)
    requires Enabled(w, s) && ReasonFits(w, id, reason)
    ensures ReasonFits(Next(w, s), id, AfterReasonCall(s, id, reason))
  {
    NextAgents(w, s);
    if s.Act? && s.id == id {
      ReasonMove(w.agents[id], id, w.lock, s.move);
    }
    hide Next, CanMove, Moved;
  }

  lemma {:induction false} ReasonRun(w: World, ss: seq<Step>, w': World, id: string, reason: Option<string>)
    requires Leads(w, ss, w') && ReasonFits(w, id, reason)
    ensures ReasonFits(w', id, LastReason(ss, id, reason))
    decreases |ss|
  {
    hide ReasonFits, Enabled, Next, AfterReasonCall;
    if ss != [] {
      ReasonStaysFit(w, ss[0], id, reason);
      ReasonRun(Next(w, ss[0]), ss[1..], w', id, AfterReasonCall(ss[0], id, reason));
    }
  }

  /** At every moment `waiting_reason` answers with the reason of the last completed park, and only
      if no wake came after it. */
  lemma WaitingReasonIsLastParks(ss: seq<Step>, w: World, id: string)
    requires Leads(EMPTY, ss, w) && id in w.agents
    ensures ReasonOf(w.agents[id].status) == LastReason(ss, id, None)
  {
    ReasonRun(EMPTY, ss, w, id, None);
  }

  // ---- How a worker ends ----

  datatype End = End(ok: bool, text: string)

  function AfterEnd(s: Step, id: string, before: Option<End>): Option<End> {
    if s.Act? && s.id == id && s.move.WriteState? then Some(End(s.move.ok, s.move.text)) else before
  }

  /** How the worker of the agent returned, if it did. */
  function EndOf(ss: seq<Step>, id: string, before: Option<End>): Option<End> {
    if ss == [] then before else EndOf(ss[1..], id, AfterEnd(ss[0], id, before))
  }

  /** A worker that has not returned is not final; one that has keeps its outcome in its phase and, as
      long as its state is final, in its state. */
  ghost predicate OutcomeFits(a: Agent, end: Option<End>) {
    match end
    case None => (a.phase.Working? || a.phase.Handing?) && a.status.state != Finished && a.status.state != Errored
    case Some(End(ok, text)) =>
      && (a.phase == Written(ok, text) || a.phase == Stamped(ok, text) || a.phase == Ended)
      && (a.status.state == Finished ==> ok) && (a.status.state == Errored ==> !ok)
  }

  /** Its terminal event carries the outcome. */
  ghost predicate EndFits(w: World, id: string, end: Option<End>) {
    if id !in w.agents then end == None
    else
      && OutcomeFits(w.agents[id], end)
      && (w.agents[id].phase.Ended? ==>
            && end.Some? && Own(w.posted, id) != []
            && var last := Own(w.posted, id)[|Own(w.posted, id)| - 1];
               if end.value.ok then last == AgentFinished(id, end.value.text) else last == AgentError(id, end.value.text))
  }

  lemma OutcomeMove(a: Agent, id: string, lock: Lock, m: Move, end: Option<End>)
    requires CanMove(a, id, lock, m) && OutcomeFits(a, end)
    ensures OutcomeFits(Moved(a, id, lock, m), AfterEnd(Act(id, m), id, end))
    ensures a.phase.Ended? || m.PostEnd? ==> AfterEnd(Act(id, m), id, end) == end
    ensures m.PostEnd? ==>
              && end.Some?
              && PostedBy(a, id, lock, m) ==
                 [if end.value.ok then AgentFinished(id, end.value.text) else AgentError(id, end.value.text)]
  {
  }

  lemma EndStaysFit(w: World, s: Step, id: string, end: Option<End>)
    requires Enabled(w, s) && EndFits(w, id, end)
    ensures EndFits(Next(w, s), id, AfterEnd(s, id, end))
  {
    if s.Act? && s.id == id {
      EndOfMover(w, id, s.move, end);
    } else {
      EndElsewhere(w, s, id, end);
    }
  }

  lemma EndOfMover(w: World, id: string, m: Move, end: Option<End>)
    requires Enabled(w, Act(id, m)) && EndFits(w, id, end)
    ensures EndFits(Next(w, Act(id, m)), id, AfterEnd(Act(id, m), id, end))
  {
    hide Own, CanMove, Moved, PostedBy, OutcomeFits, Next;
    var s := Act(id, m);
    NextAgents(w, s);
    OwnAfter(w, s, id);
    OutcomeMove(w.agents[id], id, w.lock, m, end);
    PostsFit(w.agents[id], id, w.lock, m);
    KeepsOutcome(w, id, m, AfterEnd(s, id, end));
    assert Own(w.posted, id) + [] == Own(w.posted, id);
  }

  lemma KeepsOutcome(w: World, id: string, m: Move, end: Option<End>)
    requires Enabled(w, Act(id, m)) && OutcomeFits(Moved(w.agents[id], id, w.lock, m), end)
    ensures OutcomeFits(AgentAfter(w, Act(id, m), id), end)
    ensures AgentAfter(w, Act(id, m), id).phase == Moved(w.agents[id], id, w.lock, m).phase
  {
    hide CanMove, Moved;
  }

  lemma EndElsewhere(w: World, s: Step, id: string, end: Option<End>)
    requires Enabled(w, s) && EndFits(w, id, end) && !(s.Act? && s.id == id)
    ensures EndFits(Next(w, s), id, AfterEnd(s, id, end))
  {
    hide Own, PostsOf, OutcomeFits, Next;
    NextAgents(w, s);
    OwnAfter(w, s, id);
    assert Own(w.posted, id) + [] == Own(w.posted, id);
    if id in w.agents {
      OthersOutcome(w, s, id, end);
    } else {
      NewOutcome();
    }
  }

  lemma NewOutcome()
    ensures forall parentId, parent :: OutcomeFits(Spawned(parentId, parent), None)
  {
  }

  lemma OthersOutcome(w: World, s: Step, id: string, end: Option<End>)
    requires Enabled(w, s) && id in w.agents && !(s.Act? && s.id == id) && OutcomeFits(w.agents[id], end)
    ensures OutcomeFits(AgentAfter(w, s, id), end) && AgentAfter(w, s, id).phase == w.agents[id].phase
  {
    hide CanMove, Moved;
  }

  lemma {:induction false} EndRun(w: World, ss: seq<Step>, w': World, id: string, end: Option<End>)
    requires Leads(w, ss, w') && EndFits(w, id, end)
    ensures EndFits(w', id, EndOf(ss, id, end))
    decreases |ss|
  {
    hide EndFits, Enabled, Next, AfterEnd;
    if ss != [] {
      EndStaysFit(w, ss[0], id, end);
      EndRun(Next(w, ss[0]), ss[1..], w', id, AfterEnd(ss[0], id, end));
    }
  }

  /** Over every run: Finished and AgentFinished are for workers that returned, Errored and AgentError
      for those that failed, and the terminal event carries the text of the return or the error. */
  lemma EndIsReported(ss: seq<Step>, w: World, id: string)
    requires Leads(EMPTY, ss, w) && id in w.agents
    ensures var end, state := EndOf(ss, id, None), w.agents[id].status.state;
            && (state == Finished ==> end.Some? && end.value.ok)
            && (state == Errored ==> end.Some? && !end.value.ok)
            && (end.None? ==> w.agents[id].phase.Working? || w.agents[id].phase.Handing?)
            && (w.agents[id].phase.Ended? ==>
                  && end.Some? && Own(w.posted, id) != []
                  && var last := Own(w.posted, id)[|Own(w.posted, id)| - 1];
                     if end.value.ok then last == AgentFinished(id, end.value.text)
                     else last == AgentError(id, end.value.text))
  {
    EndRun(EMPTY, ss, w, id, None);
    hide Leads, Own, EndOf;
  }

  // ---- What a worker posts reaches the bus ----

  predicate IsOrdinary(e: AgentEvent, id: string) {
    e.agentId == id && !e.Feedback? && !e.AgentFinished? && !e.AgentError?
  }

  /** The tokens, turns, tool calls and retries of an agent, in bus order. */
  function Ordinary(es: seq<AgentEvent>, id: string): seq<AgentEvent> {
    if es == [] then []
    else Ordinary(es[..|es| - 1], id) + if IsOrdinary(es[|es| - 1], id) then [es[|es| - 1]] else []
  }

  /** What its worker posted, step by step. */
  function PostsIn(ss: seq<Step>, id: string): seq<AgentEvent> {
    if ss == [] then []
    else (if ss[0].Act? && ss[0].id == id && ss[0].move.Post? then [ss[0].move.event] else []) + PostsIn(ss[1..], id)
  }

  lemma OrdinaryPlus(es: seq<AgentEvent>, more: seq<AgentEvent>, id: string)
    requires |more| <= 1
    ensures Ordinary(es + more, id) == Ordinary(es, id) + if more != [] && IsOrdinary(more[0], id) then more else []
  {
    if more == [] {
      assert es + more == es;
    } else {
      assert (es + more)[..|es|] == es;
    }
  }

  lemma PostIsOrdinary(a: Agent, id: string, lock: Lock, m: Move, other: string)
    requires CanMove(a, id, lock, m)
    ensures var es := PostedBy(a, id, lock, m);
            && |es| <= 1
            && (if es != [] && IsOrdinary(es[0], other) then es else []) ==
               if m.Post? && other == id then [m.event] else []
  {
  }

  lemma OrdinaryStep(w: World, s: Step, id: string)
    requires Enabled(w, s)
    ensures Ordinary(Next(w, s).posted, id) ==
            Ordinary(w.posted, id) + if s.Act? && s.id == id && s.move.Post? then [s.move.event] else []
  {
    NextAgents(w, s);
    if s.Act? {
      PostIsOrdinary(w.agents[s.id], s.id, w.lock, s.move, id);
    }
    OrdinaryPlus(w.posted, PostsOf(w, s), id);
    hide Next, Ordinary, CanMove, PostedBy;
  }

  lemma {:induction false} OrdinaryRun(w: World, ss: seq<Step>, w': World, id: string)
    requires Leads(w, ss, w')
    ensures Ordinary(w'.posted, id) == Ordinary(w.posted, id) + PostsIn(ss, id)
    decreases |ss|
  {
    hide Enabled, Next, Ordinary;
    if ss != [] {
      OrdinaryStep(w, ss[0], id);
      OrdinaryRun(Next(w, ss[0]), ss[1..], w', id);
    }
  }

  /** Over every run the bus holds exactly what the worker of an agent posted, in its order. */
  lemma PostsReachTheBus(ss: seq<Step>, w: World, id: string)
    requires Leads(EMPTY, ss, w)
    ensures Ordinary(w.posted, id) == PostsIn(ss, id)
  {
    OrdinaryRun(EMPTY, ss, w, id);
  }

  // ---- The registry knows an agent once it is registered ----

  lemma {:induction false} RegisteredRun(w: World, ss: seq<Step>, w': World, id: string)
    requires Leads(w, ss, w')
    ensures id in w'.agents && w'.agents[id].registered <==>
            (id in w.agents && w.agents[id].registered) || Act(id, Register) in ss
    decreases |ss|
  {
    if ss != [] {
      RegisteredStep(w, ss[0], id);
      hide Enabled, Next;
      HeadOrTail(ss, Act(id, Register));
      RegisteredRun(Next(w, ss[0]), ss[1..], w', id);
    }
  }

  lemma RegisteredStep(w: World, s: Step, id: string)
    requires Enabled(w, s)
    ensures id in Next(w, s).agents && Next(w, s).agents[id].registered <==>
            (id in w.agents && w.agents[id].registered) || s == Act(id, Register)
  {
    NextAgents(w, s);
    if s.Act? && s.id == id {
      RegisteredMove(w.agents[id], id, w.lock, s.move);
    }
    hide CanMove, Moved, Next;
  }

  lemma RegisteredMove(a: Agent, id: string, lock: Lock, m: Move)
    requires CanMove(a, id, lock, m)
    ensures Moved(a, id, lock, m).registered <==> a.registered || m == Register
  {
  }

  /** `park_agent`, `wake_agent` and `inject_into` find an agent exactly from its registration on. */
  lemma KnownOnceRegistered(ss: seq<Step>, w: World, id: string)
    requires Leads(EMPTY, ss, w)
    ensures id in w.agents && w.agents[id].registered <==> Act(id, Register) in ss
  {
    RegisteredRun(EMPTY, ss, w, id);
  }

  /** A known agent can be injected into at any moment, and parked or woken whenever the mutex is free;
      it is registered under the mutex too. */
  lemma CallersAreServed(w: World, id: string, text: string)
    requires id in w.agents
    ensures Enabled(w, Act(id, Inject(text))) <==> w.agents[id].registered
    ensures Enabled(w, Act(id, ParkBegin)) <==> w.agents[id].registered && w.lock == Free
    ensures Enabled(w, Act(id, WakeBegin)) <==> w.agents[id].registered && w.lock == Free
    ensures Enabled(w, Act(id, Register)) <==> w.lock == Free
  {
  }

  /** The bus can be drained at any moment, and then everything posted has been read. */
  lemma BusCanBeDrained(w: World)
    requires QueuesKeep(w)
    ensures Enabled(w, Drain) && Next(w, Drain).drained == w.posted && Next(w, Drain).queue == []
  {
  }

  // ---- Nothing waits for ever ----

  /** From any moment a worker can reach its end in at most four steps of its own, whoever holds the
      mutex and whatever is queued. */
  lemma {:induction false} WorkerCanEnd(w: World, id: string) returns (ss: seq<Step>, w': World)
    requires id in w.agents
    ensures Leads(w, ss, w') && |ss| <= 4 && w'.lock == w.lock
    ensures forall i :: 0 <= i < |ss| ==> ss[i].Act? && ss[i].id == id
    ensures id in w'.agents && w'.agents[id].phase.Ended?
    ensures |ss| <= StepsLeft(w.agents[id].phase)
    decreases StepsLeft(w.agents[id].phase)
  {
    var phase := w.agents[id].phase;
    if phase.Ended? {
      ss, w' := [], w;
      return;
    }
    var m := if phase.Handing? then PostFeedback
             else if phase.Working? then WriteState(true, "")
             else if phase.Written? then Stamp(0)
             else PostEnd;
    WorkerStep(w, id, m);
    var w1 := Next(w, Act(id, m));
    var rest;
    hide Leads, Enabled, Next;
    rest, w' := WorkerCanEnd(w1, id);
    ss := [Act(id, m)] + rest;
    LeadsFirst(w, Act(id, m), rest, w');
  }

  function StepsLeft(p: Phase): nat {
    match p
    case Handing(_) => 4
    case Working => 3
    case Written(_, _) => 2
    case Stamped(_, _) => 1
    case Ended => 0
  }

  lemma WorkerStep(w: World, id: string, m: Move)
    requires id in w.agents && !w.agents[id].phase.Ended?
    requires m == match w.agents[id].phase
                  case Handing(_) => PostFeedback
                  case Working => WriteState(true, "")
                  case Written(_, _) => Stamp(0)
                  case _ => PostEnd
    ensures Enabled(w, Act(id, m)) && Next(w, Act(id, m)).lock == w.lock && id in Next(w, Act(id, m)).agents
    ensures StepsLeft(Next(w, Act(id, m)).agents[id].phase) == StepsLeft(w.agents[id].phase) - 1
  {
    NextAgents(w, Act(id, m));
  }

  lemma LeadsFirst(w: World, s: Step, rest: seq<Step>, w': World)
    requires Enabled(w, s) && Leads(Next(w, s), rest, w')
    ensures Leads(w, [s] + rest, w')
  {
    hide Enabled, Next;
    assert ([s] + rest)[1..] == rest;
  }

  /** Whoever holds the mutex can always go on, and releases it in at most two steps. */
  lemma MutexIsReleased(w: World) returns (ss: seq<Step>, w': World)
    requires StatusesFit(w)
    ensures Leads(w, ss, w') && |ss| <= 2 && w'.lock.Free?
    ensures forall i :: 0 <= i < |ss| ==> ss[i].Act? && HeldFor(w.lock, ss[i].id)
  {
    if w.lock.Free? {
      ss, w' := [], w;
      return;
    }
    var id := w.lock.id;
    var m := if w.lock.Parking? then ParkEnd("") else if w.lock.Clearing? then WakeTest else WakeWrite;
    HolderStep(w, id, m);
    var w1 := Next(w, Act(id, m));
    if w1.lock.Free? {
      assert Leads(w1, [], w1);
      LeadsFirst(w, Act(id, m), [], w1);
      ss, w' := [Act(id, m)] + [], w1;
    } else {
      HolderStep(w1, id, WakeWrite);
      w' := Next(w1, Act(id, WakeWrite));
      assert Leads(w', [], w');
      LeadsFirst(w1, Act(id, WakeWrite), [], w');
      LeadsFirst(w, Act(id, m), [Act(id, WakeWrite)] + [], w');
      ss := [Act(id, m)] + ([Act(id, WakeWrite)] + []);
    }
  }

  lemma HolderStep(w: World, id: string, m: Move)
    requires id in w.agents
    requires (w.lock == Parking(id) && m == ParkEnd("")) || (w.lock == Clearing(id) && m == WakeTest)
             || (w.lock == Resuming(id) && m == WakeWrite)
    ensures Enabled(w, Act(id, m)) && id in Next(w, Act(id, m)).agents
    ensures var lock := Next(w, Act(id, m)).lock; lock.Free? || (m == WakeTest && lock == Resuming(id))
  {
    NextAgents(w, Act(id, m));
  }

  /** A sub-agent's feedback reaches its parent's queue and the bus in two steps of its worker. */
  lemma FeedbackReachesParent(w: World, id: string, p: string, text: string)
    requires id in w.agents && p in w.agents && p != id
    requires w.agents[id].phase.Working? && w.agents[id].parent == Some(p)
    ensures exists w' :: Leads(w, [Act(id, HandOver(text)), Act(id, PostFeedback)], w')
                         && p in w'.agents
                         && w'.agents[p].queue == w.agents[p].queue + [Injection(Some(id), text)]
                         && w'.posted == w.posted + [Feedback(id, w.agents[id].parentId, text)]
  {
    var ss := [Act(id, HandOver(text)), Act(id, PostFeedback)];
    hide Leads;
    var w1 := Start(w, ss);
    w1 := OneMore(w, ss, 0, w1);
    assert w1.posted == w.posted && w1.agents[p].queue == w.agents[p].queue + [Injection(Some(id), text)];
    assert w1.agents[id].phase == Handing(text) && w1.agents[id].parentId == w.agents[id].parentId;
    var w2 := OneMore(w, ss, 1, w1);
    assert ss[..2] == ss;
    assert w2.agents[p] == w1.agents[p];
  }

  /** A working agent can take its whole queue, oldest first, and then has taken all that was injected. */
  lemma {:induction false} QueueCanBeTaken(w: World, id: string) returns (ss: seq<Step>, w': World)
    requires QueuesKeep(w) && id in w.agents && w.agents[id].phase.Working?
    ensures Leads(w, ss, w') && |ss| == |w.agents[id].queue|
    ensures id in w'.agents && w'.agents[id].taken == w.agents[id].injected == w.agents[id].taken + w.agents[id].queue
    decreases |w.agents[id].queue|
  {
    if w.agents[id].queue == [] {
      ss, w' := [], w;
    } else {
      var s := Act(id, TakeInjection);
      TakesOldest(w, id);
      QueuesStayKept(w, s);
      var rest;
      assert w.agents[id].taken + w.agents[id].queue == w.agents[id].injected;
      hide Leads, Enabled, Next, QueuesKeep;
      rest, w' := QueueCanBeTaken(Next(w, s), id);
      ss := [s] + rest;
      LeadsFirst(w, s, rest, w');
    }
  }

  lemma TakesOldest(w: World, id: string)
    requires id in w.agents && w.agents[id].phase.Working? && w.agents[id].queue != []
    ensures Enabled(w, Act(id, TakeInjection))
    ensures var a, b := w.agents[id], Next(w, Act(id, TakeInjection)).agents;
            && id in b && b[id].phase.Working? && b[id].injected == a.injected
            && b[id].taken == a.taken + [a.queue[0]] && b[id].queue == a.queue[1..]
  {
    NextAgents(w, Act(id, TakeInjection));
  }

  // ---- The regions of the mutex as single writes ----

  lemma {:induction false} LeadsAppend(w: World, ss: seq<Step>, w': World, s: Step)
    requires Leads(w, ss, w') && Enabled(w', s)
    ensures Leads(w, ss + [s], Next(w', s))
    decreases |ss|
  {
    hide Enabled, Next;
    if ss == [] {
      assert Leads(Next(w, s), [], Next(w, s));
      assert ([] + [s])[0] == s && ([] + [s])[1..] == [];
    } else {
      LeadsAppend(Next(w, ss[0]), ss[1..], w', s);
      assert (ss + [s])[1..] == ss[1..] + [s];
    }
  }

  /** Following a list of steps, one at a time. */
  lemma OneMore(from: World, ss: seq<Step>, i: nat, w: World) returns (w': World)
    requires i < |ss| && Leads(from, ss[..i], w) && Enabled(w, ss[i])
    ensures w' == Next(w, ss[i]) && Leads(from, ss[..i + 1], w')
  {
    w' := Next(w, ss[i]);
    LeadsAppend(from, ss[..i], w, ss[i]);
    assert ss[..i + 1] == ss[..i] + [ss[i]];
  }

  lemma Start(from: World, ss: seq<Step>) returns (w: World)
    ensures w == from && Leads(from, ss[..0], w)
  {
    w := from;
  }

  function WithStatus(w: World, id: string, s: Status): World
    requires id in w.agents
  {
    w.(agents := w.agents[id := w.agents[id].(status := s)])
  }

  /** With no worker in between, the steps of `park_agent` write the record once. */
  lemma ParkIsOneWrite(w: World, id: string, reason: string)
    requires Enabled(w, Act(id, ParkBegin))
    ensures Leads(w, [Act(id, ParkBegin), Act(id, ParkEnd(reason))], WithStatus(w, id, Parked(reason)))
  {
    var ss := [Act(id, ParkBegin), Act(id, ParkEnd(reason))];
    hide Leads;
    var w1 := Start(w, ss);
    w1 := OneMore(w, ss, 0, w1);
    assert w1 == WithStatus(w, id, w.agents[id].status.(state := Waiting)).(lock := Parking(id));
    var w2 := OneMore(w, ss, 1, w1);
    assert w2 == WithStatus(w, id, Parked(reason)) && ss[..2] == ss;
  }

  function WakeSteps(id: string, waiting: bool): seq<Step> {
    [Act(id, WakeBegin), Act(id, WakeTest)] + if waiting then [Act(id, WakeWrite)] else []
  }

  lemma WakeBegun(w: World, id: string, ss: seq<Step>) returns (w2: World)
    requires Enabled(w, Act(id, WakeBegin)) && |ss| >= 2 && ss[..2] == WakeSteps(id, false)
    ensures var s := Status(w.agents[id].status.state, false, "");
            w2 == WithStatus(w, id, s).(lock := if s.state == Waiting then Resuming(id) else Free)
    ensures Leads(w, ss[..2], w2)
  {
    hide Leads;
    var state := w.agents[id].status.state;
    assert ss[0] == ss[..2][0] && ss[1] == ss[..2][1];
    var w1 := Start(w, ss);
    w1 := OneMore(w, ss, 0, w1);
    assert w1 == WithStatus(w, id, Status(state, false, "")).(lock := Clearing(id));
    w2 := OneMore(w, ss, 1, w1);
  }

  /** And so do those of `wake_agent`. */
  lemma WakeIsOneWrite(w: World, id: string)
    requires Enabled(w, Act(id, WakeBegin))
    ensures Leads(w, WakeSteps(id, w.agents[id].status.state == Waiting), WithStatus(w, id, Woken(w.agents[id].status)))
  {
    hide Leads;
    var waiting := w.agents[id].status.state == Waiting;
    var ss := WakeSteps(id, waiting);
    var w2 := WakeBegun(w, id, ss);
    if waiting {
      WakeEnds(w2, id);
      StatusTwice(w, id, Status(Waiting, false, ""), Resuming(id), Status(Running, false, ""));
      assert w2.agents[id].status == Status(Waiting, false, "");
      var w3 := OneMore(w, ss, 2, w2);
      assert ss[..3] == ss;
    } else {
      assert ss[..2] == ss;
    }
  }

  lemma StatusTwice(w: World, id: string, s: Status, lock: Lock, t: Status)
    requires id in w.agents
    ensures WithStatus(WithStatus(w, id, s).(lock := lock), id, t).(lock := w.lock) == WithStatus(w, id, t)
  {
    assert w.agents[id := w.agents[id].(status := s)][id := w.agents[id].(status := t)] ==
           w.agents[id := w.agents[id].(status := t)];
  }

  lemma WakeEnds(w: World, id: string)
    requires id in w.agents && w.lock == Resuming(id)
    ensures Enabled(w, Act(id, WakeWrite))
    ensures Next(w, Act(id, WakeWrite)) == WithStatus(w, id, w.agents[id].status.(state := Running)).(lock := Free)
  {
  }

  // ---- How far the end of a worker is final ----

  lemma StampMove(a: Agent, id: string, lock: Lock, m: Move)
    requires CanMove(a, id, lock, m) && StatusFits(a, lock, id) && a.finishedAt.Some?
    ensures Moved(a, id, lock, m).finishedAt == a.finishedAt
  {
  }

  lemma StampStays(w: World, s: Step, id: string)
    requires StatusesFit(w) && Enabled(w, s) && id in w.agents && w.agents[id].finishedAt.Some?
    ensures id in Next(w, s).agents && Next(w, s).agents[id].finishedAt == w.agents[id].finishedAt
  {
    NextAgents(w, s);
    if s.Act? && s.id == id {
      StampMove(w.agents[id], id, w.lock, s.move);
    }
    hide Next, CanMove, Moved;
  }

  /** The stamp of the end of a worker is never cleared or changed. */
  lemma {:induction false} StampIsFinal(w: World, ss: seq<Step>, w': World, id: string)
    requires Invariant(w) && Leads(w, ss, w') && id in w.agents && w.agents[id].finishedAt.Some?
    ensures id in w'.agents && w'.agents[id].finishedAt == w.agents[id].finishedAt
    decreases |ss|
  {
    hide QueuesKeep, EndsOnce, Feeds, StatusesFit, Enabled, Next;
    if ss != [] {
      StampStays(w, ss[0], id);
      InvariantStep(w, ss[0]);
      StampIsFinal(Next(w, ss[0]), ss[1..], w', id);
    }
  }

  predicate IsFinal(s: AgentState) {
    s == Finished || s == Errored
  }

  lemma FinalStates()
    ensures forall s: AgentState :: IsFinal(s) <==> s != Running && s != Waiting
  {
  }

  /** A final state is left in two ways: the agent is parked, or a caller that saw Waiting before
      the worker ended now writes Running.  Once left it does not come back. */
  lemma FinalStateStep(w: World, s: Step, id: string)
    requires StatusesFit(w) && Enabled(w, s) && id in w.agents && HasEnded(w.agents[id].phase)
    ensures id in Next(w, s).agents && HasEnded(Next(w, s).agents[id].phase)
    ensures var was, now := w.agents[id].status.state, Next(w, s).agents[id].status.state;
            && (IsFinal(was) ==> (now == was <==> s != Act(id, ParkBegin) && s != Act(id, WakeWrite)))
            && (now == was || !IsFinal(now))
    ensures w.lock != Resuming(id) && IsFinal(w.agents[id].status.state) ==>
              s != Act(id, WakeWrite) && Next(w, s).lock != Resuming(id)
    ensures w.lock == Resuming(id) && s != Act(id, WakeWrite) ==> Next(w, s).lock == Resuming(id)
    ensures w.lock == Resuming(id) ==> s != Act(id, ParkBegin)
  {
    NextAgents(w, s);
    if s.Act? {
      if s.id == id {
        FinalMove(w.agents[id], id, w.lock, s.move);
      } else {
        LockElsewhere(w.agents[s.id], s.id, w.lock, s.move, id);
      }
      hide CanMove, AgentsAfter, PostedBy, LockAfter, Moved;
    }
  }

  lemma LockElsewhere(a: Agent, id: string, lock: Lock, m: Move, other: string)
    requires CanMove(a, id, lock, m) && other != id
    ensures LockAfter(a, id, lock, m) == Resuming(other) <==> lock == Resuming(other)
  {
  }

  lemma FinalMove(a: Agent, id: string, lock: Lock, m: Move)
    requires CanMove(a, id, lock, m) && HasEnded(a.phase)
    ensures HasEnded(Moved(a, id, lock, m).phase)
    ensures IsFinal(a.status.state) ==>
              (Moved(a, id, lock, m).status.state == a.status.state <==> m != ParkBegin && m != WakeWrite)
    ensures Moved(a, id, lock, m).status.state == a.status.state || !IsFinal(Moved(a, id, lock, m).status.state)
    ensures lock != Resuming(id) && IsFinal(a.status.state) ==>
              m != WakeWrite && LockAfter(a, id, lock, m) != Resuming(id)
    ensures lock == Resuming(id) && m != WakeWrite ==> LockAfter(a, id, lock, m) == Resuming(id) && m != ParkBegin
    ensures lock == Resuming(id) ==> m != ParkBegin
  {
  }

  lemma {:induction false} NotFinalAgain(w: World, ss: seq<Step>, w': World, id: string)
    requires Invariant(w) && Leads(w, ss, w') && id in w.agents && HasEnded(w.agents[id].phase)
    requires !IsFinal(w.agents[id].status.state)
    ensures id in w'.agents && !IsFinal(w'.agents[id].status.state)
    decreases |ss|
  {
    hide QueuesKeep, EndsOnce, Feeds, StatusesFit, Enabled, Next, HasEnded, IsFinal;
    if ss != [] {
      FinalStateStep(w, ss[0], id);
      InvariantStep(w, ss[0]);
      NotFinalAgain(Next(w, ss[0]), ss[1..], w', id);
    }
  }

  lemma FinalHasEnded(w: World, id: string)
    requires StatusesFit(w) && id in w.agents && IsFinal(w.agents[id].status.state)
    ensures HasEnded(w.agents[id].phase)
  {
  }

  lemma HeadOrTail(ss: seq<Step>, s: Step)
    requires ss != []
    ensures s in ss <==> s == ss[0] || s in ss[1..]
  {
    assert ss == [ss[0]] + ss[1..];
  }

  /** The state a worker ended in lasts exactly as long as nobody parks the agent and no wake that
      was halfway through at that moment completes. */
  lemma {:induction false} FinalStateLastsExactly(w: World, ss: seq<Step>, w': World, id: string)
    requires Invariant(w) && Leads(w, ss, w') && id in w.agents && IsFinal(w.agents[id].status.state)
    ensures id in w'.agents
    ensures w'.agents[id].status.state == w.agents[id].status.state
            <==> Act(id, ParkBegin) !in ss && (w.lock == Resuming(id) ==> Act(id, WakeWrite) !in ss)
    decreases |ss|
  {
    hide QueuesKeep, EndsOnce, Feeds, StatusesFit, Enabled, Next, HasEnded;
    if ss != [] {
      FinalHasEnded(w, id);
      var w1 := Next(w, ss[0]);
      FinalStateStep(w, ss[0], id);
      InvariantStep(w, ss[0]);
      HeadOrTail(ss, Act(id, ParkBegin));
      HeadOrTail(ss, Act(id, WakeWrite));
      if w1.agents[id].status.state == w.agents[id].status.state {
        FinalStateLastsExactly(w1, ss[1..], w', id);
      } else {
        assert !IsFinal(w1.agents[id].status.state);
        NotFinalAgain(w1, ss[1..], w', id);
      }
    }
  }

  /** From the moment a worker returns or fails its agent is Finished or Errored, exactly as long as
      nobody parks it and no wake that was halfway through completes. */
  lemma EndStateLastsExactly(w: World, id: string, ok: bool, text: string, ss: seq<Step>, w': World)
    requires Invariant(w) && Enabled(w, Act(id, WriteState(ok, text)))
    requires Leads(Next(w, Act(id, WriteState(ok, text))), ss, w')
    ensures id in w'.agents
    ensures w'.agents[id].status.state == (if ok then Finished else Errored)
            <==> Act(id, ParkBegin) !in ss && (w.lock == Resuming(id) ==> Act(id, WakeWrite) !in ss)
  {
    var s := Act(id, WriteState(ok, text));
    InvariantStep(w, s);
    WrittenState(w, id, ok, text);
    hide Invariant, Enabled, Next, Leads;
    FinalStateLastsExactly(Next(w, s), ss, w', id);
  }

  lemma WrittenState(w: World, id: string, ok: bool, text: string)
    requires Enabled(w, Act(id, WriteState(ok, text)))
    ensures var w' := Next(w, Act(id, WriteState(ok, text)));
            && w'.lock == w.lock && id in w'.agents
            && w'.agents[id].status.state == (if ok then Finished else Errored)
            && w'.agents[id].status.waitingForParent == w.agents[id].status.waitingForParent
  {
    NextAgents(w, Act(id, WriteState(ok, text)));
  }

  /** Parking an agent after its end and waking it. */
  function LatePark(id: string): seq<Step> {
    [Spawn(id, "", None), Act(id, Register), Act(id, WriteState(true, "")), Act(id, Stamp(0)), Act(id, PostEnd),
     Act(id, ParkBegin), Act(id, ParkEnd("")), Act(id, WakeBegin), Act(id, WakeTest), Act(id, WakeWrite)]
  }

  /** A worker that ends between the two halves of a wake. */
  function OvertakenWake(id: string): seq<Step> {
    [Spawn(id, "", None), Act(id, Register), Act(id, ParkBegin), Act(id, ParkEnd("")), Act(id, WakeBegin),
     Act(id, WakeTest), Act(id, WriteState(true, "")), Act(id, WakeWrite), Act(id, Stamp(0)), Act(id, PostEnd)]
  }

  /** A world with one agent, whose bus nobody reads. */
  function Solo(id: string, a: Agent, lock: Lock, posted: seq<AgentEvent>): World {
    World(map[id := a], lock, posted, [], posted)
  }

  function Known(state: AgentState, waiting: bool, stamp: Option<int>, phase: Phase): Agent {
    Spawned("", None).(registered := true, status := Status(state, waiting, ""), finishedAt := stamp, phase := phase)
  }

  lemma SoloMove(id: string, a: Agent, lock: Lock, posted: seq<AgentEvent>, m: Move)
    requires a.parent.None? && CanMove(a, id, lock, m)
    ensures Enabled(Solo(id, a, lock, posted), Act(id, m))
    ensures Next(Solo(id, a, lock, posted), Act(id, m)) ==
            Solo(id, Moved(a, id, lock, m), LockAfter(a, id, lock, m), posted + PostedBy(a, id, lock, m))
  {
    MoveKeepsParent(a, id, lock, m);
    hide CanMove, Moved, LockAfter, PostedBy;
    var w := Solo(id, a, lock, posted);
    assert AgentsAfter(w, id, m) == map[id := Moved(a, id, lock, m)];
  }

  /** The i-th step of a list moves the one agent from a to b. */
  lemma SoloStep(ss: seq<Step>, i: nat, id: string, m: Move, a: Agent, lock: Lock, posted: seq<AgentEvent>,
                 b: Agent, lock': Lock, posted': seq<AgentEvent>)
    requires i < |ss| && ss[i] == Act(id, m) && Leads(EMPTY, ss[..i], Solo(id, a, lock, posted))
    requires a.parent.None? && CanMove(a, id, lock, m)
    requires b == Moved(a, id, lock, m) && lock' == LockAfter(a, id, lock, m)
    requires posted' == posted + PostedBy(a, id, lock, m)
    ensures Leads(EMPTY, ss[..i + 1], Solo(id, b, lock', posted'))
  {
    hide Leads, Enabled, Next, CanMove, Moved, LockAfter, PostedBy, Solo;
    SoloMove(id, a, lock, posted, m);
    var _ := OneMore(EMPTY, ss, i, Solo(id, a, lock, posted));
  }

  /** The same when the move posts nothing. */
  lemma SoloQuiet(ss: seq<Step>, i: nat, id: string, m: Move, a: Agent, lock: Lock, posted: seq<AgentEvent>,
                  b: Agent, lock': Lock)
    requires i < |ss| && ss[i] == Act(id, m) && Leads(EMPTY, ss[..i], Solo(id, a, lock, posted))
    requires a.parent.None? && CanMove(a, id, lock, m)
    requires b == Moved(a, id, lock, m) && lock' == LockAfter(a, id, lock, m) && PostedBy(a, id, lock, m) == []
    ensures Leads(EMPTY, ss[..i + 1], Solo(id, b, lock', posted))
  {
    hide Leads, CanMove, Moved, LockAfter, PostedBy, Solo;
    SoloStep(ss, i, id, m, a, lock, posted, b, lock', posted);
  }

  lemma Listed(ss: seq<Step>, id: string)
    requires |ss| >= 2 && ss[0] == Spawn(id, "", None) && ss[1] == Act(id, Register)
    ensures Leads(EMPTY, ss[..2], Solo(id, Known(Running, false, None, Working), Free, []))
  {
    hide Leads;
    var w := Start(EMPTY, ss);
    w := OneMore(EMPTY, ss, 0, w);
    assert w == Solo(id, Spawned("", None), Free, []);
    SoloStep(ss, 1, id, Register, w.agents[id], Free, [], Known(Running, false, None, Working), Free, []);
  }

  ghost predicate EndedButRunning(w: World, id: string) {
    && id in w.agents && w.lock.Free?
    && w.agents[id].phase.Ended? && w.agents[id].status.state == Running
  }

  lemma LateParkEnds(id: string)
    ensures var es := [AgentFinished(id, "")];
            Leads(EMPTY, LatePark(id)[..5], Solo(id, Known(Finished, false, Some(0), Ended), Free, es))
  {
    hide Leads, Solo;
    var ss, es := LatePark(id), [AgentFinished(id, "")];
    Listed(ss, id);
    var a2 := Known(Running, false, None, Working);
    var a3 := Known(Finished, false, None, Written(true, ""));
    SoloQuiet(ss, 2, id, WriteState(true, ""), a2, Free, [], a3, Free);
    var a4 := Known(Finished, false, Some(0), Stamped(true, ""));
    SoloQuiet(ss, 3, id, Stamp(0), a3, Free, [], a4, Free);
    var a5 := Known(Finished, false, Some(0), Ended);
    SoloStep(ss, 4, id, PostEnd, a4, Free, [], a5, Free, es);
  }

  lemma LateParkWaits(id: string)
    ensures Leads(EMPTY, LatePark(id)[..7], Solo(id, Known(Waiting, true, Some(0), Ended), Free, [AgentFinished(id, "")]))
  {
    hide Leads, Solo;
    var ss, es := LatePark(id), [AgentFinished(id, "")];
    LateParkEnds(id);
    var a5 := Known(Finished, false, Some(0), Ended);
    var a6 := Known(Waiting, false, Some(0), Ended);
    SoloQuiet(ss, 5, id, ParkBegin, a5, Free, es, a6, Parking(id));
    var a7 := Known(Waiting, true, Some(0), Ended);
    SoloQuiet(ss, 6, id, ParkEnd(""), a6, Parking(id), es, a7, Free);
  }

  lemma LateParkRuns(id: string)
    ensures Leads(EMPTY, LatePark(id), Solo(id, Known(Running, false, Some(0), Ended), Free, [AgentFinished(id, "")]))
  {
    hide Leads, Solo;
    var ss, es := LatePark(id), [AgentFinished(id, "")];
    LateParkWaits(id);
    var a7 := Known(Waiting, true, Some(0), Ended);
    var a8 := Known(Waiting, false, Some(0), Ended);
    SoloQuiet(ss, 7, id, WakeBegin, a7, Free, es, a8, Clearing(id));
    var a9 := Known(Waiting, false, Some(0), Ended);
    SoloQuiet(ss, 8, id, WakeTest, a8, Clearing(id), es, a9, Resuming(id));
    var a10 := Known(Running, false, Some(0), Ended);
    SoloQuiet(ss, 9, id, WakeWrite, a9, Resuming(id), es, a10, Free);
    assert ss[..10] == ss;
  }

  lemma OvertakenWakeBegins(id: string)
    ensures Leads(EMPTY, OvertakenWake(id)[..6], Solo(id, Known(Waiting, false, None, Working), Resuming(id), []))
  {
    hide Leads, Solo;
    var ss := OvertakenWake(id);
    Listed(ss, id);
    var a2 := Known(Running, false, None, Working);
    var a3 := Known(Waiting, false, None, Working);
    SoloQuiet(ss, 2, id, ParkBegin, a2, Free, [], a3, Parking(id));
    var a4 := Known(Waiting, true, None, Working);
    SoloQuiet(ss, 3, id, ParkEnd(""), a3, Parking(id), [], a4, Free);
    var a5 := Known(Waiting, false, None, Working);
    SoloQuiet(ss, 4, id, WakeBegin, a4, Free, [], a5, Clearing(id));
    var a6 := Known(Waiting, false, None, Working);
    SoloQuiet(ss, 5, id, WakeTest, a5, Clearing(id), [], a6, Resuming(id));
  }

  lemma OvertakenWakeRuns(id: string)
    ensures Leads(EMPTY, OvertakenWake(id), Solo(id, Known(Running, false, Some(0), Ended), Free, [AgentFinished(id, "")]))
  {
    hide Leads, Solo;
    var ss, es := OvertakenWake(id), [AgentFinished(id, "")];
    OvertakenWakeBegins(id);
    var a6 := Known(Waiting, false, None, Working);
    var a7 := Known(Finished, false, None, Written(true, ""));
    SoloQuiet(ss, 6, id, WriteState(true, ""), a6, Resuming(id), [], a7, Resuming(id));
    var a8 := Known(Running, false, None, Written(true, ""));
    SoloQuiet(ss, 7, id, WakeWrite, a7, Resuming(id), [], a8, Free);
    var a9 := Known(Running, false, Some(0), Stamped(true, ""));
    SoloQuiet(ss, 8, id, Stamp(0), a8, Free, [], a9, Free);
    var a10 := Known(Running, false, Some(0), Ended);
    SoloStep(ss, 9, id, PostEnd, a9, Free, [], a10, Free, es);
    assert ss[..10] == ss;
  }

  lemma EndsRunning(id: string, es: seq<AgentEvent>)
    ensures EndedButRunning(Solo(id, Known(Running, false, Some(0), Ended), Free, es), id)
  {
  }

  /** Both ways are real: the worker has ended, its terminal event is posted, and its agent is listed
      as Running. */
  lemma EndedAgentCanRun(id: string, ss: seq<Step>)
    requires ss == LatePark(id) || ss == OvertakenWake(id)
    ensures exists w :: Leads(EMPTY, ss, w) && EndedButRunning(w, id)
  {
    hide Leads;
    LateParkRuns(id);
    OvertakenWakeRuns(id);
    EndsRunning(id, [AgentFinished(id, "")]);
  }
}
