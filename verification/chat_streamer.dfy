/** `ChatStreamer::stream`: the retry loop over an arbitrary script of what the client and the
    user do. */
module ChatStreamer {
  import opened Common
  import opened RetryPolicy

  datatype Usage = Usage(promptTokens: int, completionTokens: int, totalTokens: int)

  /** A streamed chunk: its usage object if all three counts are integers; `delta` is None when
      there is no first choice or it has no delta, Some(None) when the delta has no text.
      `stopAfter` is what `stop_requested` answers while the chunk is handled. */
  datatype Chunk = Chunk(usage: Option<Usage>, delta: Option<Option<string>>, stopAfter: bool)

  datatype StreamError = StreamError(message: string, body: ErrorFields, httpCode: int, retryAfterSeconds: int)

  datatype Callback = OnData(chunk: Chunk) | OnError(error: StreamError)

  /** One attempt: the answers of `stop_requested` before it and during the sleep after it, the
      callbacks the client makes in order, whether the client throws, and the random draw. */
  datatype Attempt = Attempt(stopAtStart: bool, callbacks: seq<Callback>, thrown: Option<string>,
                             draw: Draw, stopInSleep: bool)

  /** What happens at each attempt, should it be reached. */
  type Script = nat -> Attempt

  datatype Event = Token(text: string) | RetryNotice(attempt: nat) | TurnComplete(text: string)

  datatype StreamControl = Continue | Stop

  // ---- The run as a function of the script ----

  function PieceOf(cb: Callback): (es: seq<Event>)
    ensures forall e :: e in es ==> e.Token?
  {
    match cb
    case OnData(Chunk(_, Some(Some(piece)), _)) => [Token(piece)]
    case _ => []
  }

  function Pieces(cbs: seq<Callback>): (es: seq<Event>)
    ensures forall e :: e in es ==> e.Token?
  {
    if cbs == [] then [] else PieceOf(cbs[0]) + Pieces(cbs[1..])
  }

  /** The text of the tokens since the last retry notice, starting from `shown`. */
  function SinceRetry(shown: string, es: seq<Event>): string
    decreases es
  {
    if es == [] then shown
    else
      match es[0]
      case Token(t) => SinceRetry(shown + t, es[1..])
      case RetryNotice(_) => SinceRetry("", es[1..])
      case TurnComplete(_) => SinceRetry(shown, es[1..])
  }

  function LastUsage(cbs: seq<Callback>, before: Option<Usage>): Option<Usage> {
    if cbs == [] then before
    else
      LastUsage(cbs[1..], if cbs[0].OnData? && cbs[0].chunk.usage.Some? then cbs[0].chunk.usage else before)
  }

  function LastError(cbs: seq<Callback>, before: Option<StreamError>): Option<StreamError> {
    if cbs == [] then before
    else LastError(cbs[1..], if cbs[0].OnError? then Some(cbs[0].error) else before)
  }

  /** The error an attempt ends with: an exception overrides what `on_error` reported. */
  function Failure(a: Attempt): Option<StreamError> {
    match a.thrown
    case Some(what) => Some(StreamError(what, ErrorFields("", "", ""), 0, -1))
    case None => LastError(a.callbacks, None)
  }

  function Decide(cfg: RetryConfig, err: StreamError, attempt: nat, draw: Draw): RetryDecision {
    Classify(err.httpCode, err.body, err.retryAfterSeconds, attempt, cfg, draw)
  }

  function ErrorText(outcome: RetryOutcome, isLastAttempt: bool, err: StreamError): string {
    (if outcome == StopBillingOrQuota then "[quota/billing] "
     else if outcome == StopUserAction then "[auth/config] "
     else if isLastAttempt then "[retry exhausted] "
     else "[error] ") + err.message
  }

  /** The four prefixes by what they tell the user. */
  lemma ErrorTextIs(outcome: RetryOutcome, isLastAttempt: bool, err: StreamError)
    ensures var text := ErrorText(outcome, isLastAttempt, err);
            && (outcome == StopBillingOrQuota ==> text == "[quota/billing] " + err.message)
            && (outcome == StopUserAction ==> text == "[auth/config] " + err.message)
            && (outcome in {Retry, DoNotRetry} && isLastAttempt ==> text == "[retry exhausted] " + err.message)
            && (outcome in {Retry, DoNotRetry} && !isLastAttempt ==> text == "[error] " + err.message)
  {
  }

  /** The last usage reported, found by position. */
  lemma {:induction false} LastUsageIsLast(cbs: seq<Callback>, before: Option<Usage>)
    ensures (forall i :: 0 <= i < |cbs| ==> !ReportsUsage(cbs[i])) ==> LastUsage(cbs, before) == before
    ensures forall i :: 0 <= i < |cbs| && ReportsUsage(cbs[i]) && (forall j :: i < j < |cbs| ==> !ReportsUsage(cbs[j])) ==>
              LastUsage(cbs, before) == cbs[i].chunk.usage
  {
    if cbs != [] {
      var rest := cbs[1..];
      var next := if ReportsUsage(cbs[0]) then cbs[0].chunk.usage else before;
      assert LastUsage(cbs, before) == LastUsage(rest, next);
      hide LastUsage;
      LastUsageIsLast(rest, next);
      forall i | 0 <= i < |cbs| && ReportsUsage(cbs[i]) && (forall j :: i < j < |cbs| ==> !ReportsUsage(cbs[j]))
        ensures LastUsage(rest, next) == cbs[i].chunk.usage
      {
        assert forall j :: 0 <= j < |rest| ==> rest[j] == cbs[j + 1];
      }
    }
  }

  predicate ReportsUsage(cb: Callback) {
    cb.OnData? && cb.chunk.usage.Some?
  }

  /** And the last error. */
  lemma {:induction false} LastErrorIsLast(cbs: seq<Callback>, before: Option<StreamError>)
    ensures (forall i :: 0 <= i < |cbs| ==> !cbs[i].OnError?) ==> LastError(cbs, before) == before
    ensures forall i :: 0 <= i < |cbs| && cbs[i].OnError? && (forall j :: i < j < |cbs| ==> !cbs[j].OnError?) ==>
              LastError(cbs, before) == Some(cbs[i].error)
  {
    if cbs != [] {
      var rest := cbs[1..];
      assert forall i :: 0 < i < |cbs| ==> cbs[i] == rest[i - 1];
      LastErrorIsLast(rest, if cbs[0].OnError? then Some(cbs[0].error) else before);
    }
  }

  datatype Ending = NoAttempt | Stopped | Succeeded | Failed(errorText: string)

  datatype Run = Run(ending: Ending, reply: string, events: seq<Event>, usage: Option<Usage>,
                     calls: nat, sleeps: seq<int>)

  datatype Tried = Done(run: Run) | Again(events: seq<Event>, delayMs: int)

  /** One attempt that is within the limit. */
  function Try(cfg: RetryConfig, a: Attempt, attempt: nat): Tried {
    if a.stopAtStart then Done(Run(Stopped, "", [], None, 0, []))
    else
      var pieces := Pieces(a.callbacks);
      var buffer := SinceRetry("", pieces);
      match Failure(a)
      case None =>
        Done(Run(Succeeded, buffer, pieces + [TurnComplete(buffer)], LastUsage(a.callbacks, None), 1, []))
      case Some(err) =>
        var decision := Decide(cfg, err, attempt, a.draw);
        var isLastAttempt := attempt + 1 >= cfg.maxAttempts;
        if decision.outcome != Retry || isLastAttempt then
          var text := ErrorText(decision.outcome, isLastAttempt, err);
          Done(Run(Failed(text), buffer, pieces + [Token(text), TurnComplete(buffer)], None, 1, []))
        else if decision.delayMs > 0 && a.stopInSleep then
          Done(Run(Stopped, "", pieces, None, 1, [decision.delayMs]))
        else Again(pieces + [RetryNotice(attempt + 1)], decision.delayMs)
  }

  lemma TrySucceeds(cfg: RetryConfig, a: Attempt, attempt: nat)
    requires !a.stopAtStart && Failure(a).None?
    ensures var pieces := Pieces(a.callbacks);
            var buffer := SinceRetry("", pieces);
            Try(cfg, a, attempt) ==
            Done(Run(Succeeded, buffer, pieces + [TurnComplete(buffer)], LastUsage(a.callbacks, None), 1, []))
  {
  }

  lemma TryFails(cfg: RetryConfig, a: Attempt, attempt: nat, err: StreamError)
    requires !a.stopAtStart && Failure(a) == Some(err)
    ensures var pieces := Pieces(a.callbacks);
            var buffer := SinceRetry("", pieces);
            var decision := Decide(cfg, err, attempt, a.draw);
            var isLastAttempt := attempt + 1 >= cfg.maxAttempts;
            Try(cfg, a, attempt) ==
            if decision.outcome != Retry || isLastAttempt then
              var text := ErrorText(decision.outcome, isLastAttempt, err);
              Done(Run(Failed(text), buffer, pieces + [Token(text), TurnComplete(buffer)], None, 1, []))
            else if decision.delayMs > 0 && a.stopInSleep then
              Done(Run(Stopped, "", pieces, None, 1, [decision.delayMs]))
            else Again(pieces + [RetryNotice(attempt + 1)], decision.delayMs)
  {
    hide Failure, Pieces, SinceRetry, Decide, ErrorText;
  }

  /** The rest of a run from `attempt` on. */
  function RunFrom(cfg: RetryConfig, script: Script, attempt: nat): Run
    decreases cfg.maxAttempts - attempt
  {
    if attempt >= cfg.maxAttempts then Run(NoAttempt, "", [], None, 0, [])
    else
      match Try(cfg, script(attempt), attempt)
      case Done(run) => run
      case Again(events, delayMs) =>
        var rest := RunFrom(cfg, script, attempt + 1);
        Run(rest.ending, rest.reply, events + rest.events, rest.usage, 1 + rest.calls, [delayMs] + rest.sleeps)
  }

  // ---- The loop ----

  /** A driver that posts what it is told, in order. */
  class Driver {
    var events: seq<Event>

    constructor ()
      ensures events == []
    {
      events := [];
    }

    method Post(e: Event)
      modifies this
      ensures events == old(events) + [e]
    {
      events := events + [e];
    }
  }

  lemma {:induction false} PiecesAppend(cbs: seq<Callback>, cb: Callback)
    ensures Pieces(cbs + [cb]) == Pieces(cbs) + PieceOf(cb)
  {
    hide PieceOf;
    if cbs == [] {
      assert cbs + [cb] == [cb];
      assert Pieces([cb]) == PieceOf(cb) + [];
    } else {
      PiecesAppend(cbs[1..], cb);
      assert (cbs + [cb])[1..] == cbs[1..] + [cb];
      assert Pieces(cbs) + PieceOf(cb) == PieceOf(cbs[0]) + (Pieces(cbs[1..]) + PieceOf(cb));
    }
  }

  lemma NothingDelivered()
    ensures Pieces([]) == [] && SinceRetry("", []) == "" && forall e: StreamError :: PieceOf(OnError(e)) == []
    ensures forall shown :: SinceRetry(shown, []) == shown
  {
  }

  lemma {:induction false} SinceRetryAppend(shown: string, es: seq<Event>, fs: seq<Event>)
    ensures SinceRetry(shown, es + fs) == SinceRetry(SinceRetry(shown, es), fs)
    decreases es
  {
    if es == [] {
      assert es + fs == fs;
    } else {
      assert (es + fs)[1..] == es[1..] + fs;
      match es[0]
      case Token(t) => SinceRetryAppend(shown + t, es[1..], fs);
      case RetryNotice(_) => SinceRetryAppend("", es[1..], fs);
      case TurnComplete(_) => SinceRetryAppend(shown, es[1..], fs);
    }
  }

  /** A run whose first attempts posted, called and slept as given. */
  function After(posted: seq<Event>, calls: nat, sleeps: seq<int>, rest: Run): Run {
    Run(rest.ending, rest.reply, posted + rest.events, rest.usage, calls + rest.calls, sleeps + rest.sleeps)
  }

  lemma RunEnds(posted: seq<Event>, calls: nat, sleeps: seq<int>, rest: Run)
    ensures var run := After(posted, calls, sleeps, rest);
            && run.reply == rest.reply && run.usage == rest.usage && run.events == posted + rest.events
            && run.calls == calls + rest.calls && run.sleeps == sleeps + rest.sleeps
  {
  }

  lemma AfterNothing(run: Run)
    ensures After([], 0, [], run) == run
  {
  }

  lemma RunGoesOn(cfg: RetryConfig, script: Script, attempt: nat, posted: seq<Event>, calls: nat, sleeps: seq<int>)
    requires attempt < cfg.maxAttempts && Try(cfg, script(attempt), attempt).Again?
    ensures var t := Try(cfg, script(attempt), attempt);
            After(posted, calls, sleeps, RunFrom(cfg, script, attempt)) ==
            After(posted + t.events, calls + 1, sleeps + [t.delayMs], RunFrom(cfg, script, attempt + 1))
  {
    hide Try;
    var t, rest := Try(cfg, script(attempt), attempt), RunFrom(cfg, script, attempt + 1);
    assert posted + (t.events + rest.events) == posted + t.events + rest.events;
    assert sleeps + ([t.delayMs] + rest.sleeps) == sleeps + [t.delayMs] + rest.sleeps;
  }

  lemma RunStops(cfg: RetryConfig, script: Script, attempt: nat)
    ensures attempt >= cfg.maxAttempts ==>
              RunFrom(cfg, script, attempt) == Run(NoAttempt, "", [], None, 0, [])
    ensures attempt < cfg.maxAttempts && Try(cfg, script(attempt), attempt).Done? ==>
              RunFrom(cfg, script, attempt) == Try(cfg, script(attempt), attempt).run
  {
  }

  /** Some chunk with a delta arrived while a stop was requested: the client is told to stop. */
  predicate AsksToStop(cbs: seq<Callback>) {
    exists i :: 0 <= i < |cbs| && cbs[i].OnData? && cbs[i].chunk.delta.Some? && cbs[i].chunk.stopAfter
  }

  class Streamer {
    const cfg: RetryConfig
    var control: StreamControl

    constructor (c: RetryConfig)
      ensures cfg == c && control == Continue
    {
      cfg := c;
      control := Continue;
    }

    /** `on_data`: records usage, forwards text, and answers whether to go on. */
    method OnChunk(chunk: Chunk, driver: Driver, buffer: string, usage: Option<Usage>)
      returns (buffer': string, usage': Option<Usage>)
      modifies `control, driver
      ensures usage' == if chunk.usage.Some? then chunk.usage else usage
      ensures driver.events == old(driver.events) + PieceOf(OnData(chunk))
      ensures buffer' == SinceRetry(buffer, PieceOf(OnData(chunk)))
      ensures control == if chunk.delta.Some? && chunk.stopAfter then Stop else old(control)
    {
      buffer', usage' := buffer, usage;
      if chunk.usage.Some? {
        usage' := chunk.usage;
      }
      if chunk.delta.None? {
        return;
      }
      if chunk.delta.value.Some? {
        buffer' := buffer' + chunk.delta.value.value;
        driver.Post(Token(chunk.delta.value.value));
      }
      if chunk.stopAfter {
        control := Stop;
      }
    }

    /** The client's callbacks of one attempt. */
    method Deliver(cbs: seq<Callback>, driver: Driver)
      returns (buffer: string, usage: Option<Usage>, error: Option<StreamError>)
      modifies `control, driver
      ensures driver.events == old(driver.events) + Pieces(cbs)
      ensures buffer == SinceRetry("", Pieces(cbs))
      ensures usage == LastUsage(cbs, None) && error == LastError(cbs, None)
      ensures control == if AsksToStop(cbs) then Stop else old(control)
    {
      hide Pieces, SinceRetry, PieceOf;
      buffer, usage, error := "", None, None;
      assert cbs[..0] == [] && cbs[0..] == cbs;
      NothingDelivered();
      for i := 0 to |cbs|
        invariant driver.events == old(driver.events) + Pieces(cbs[..i])
        invariant buffer == SinceRetry("", Pieces(cbs[..i]))
        invariant LastUsage(cbs[i..], usage) == LastUsage(cbs, None)
        invariant LastError(cbs[i..], error) == LastError(cbs, None)
        invariant control == if AsksToStop(cbs[..i]) then Stop else old(control)
      {
        assert forall j :: 0 <= j < i ==> cbs[..i + 1][j] == cbs[..i][j];
        PiecesAppend(cbs[..i], cbs[i]);
        SinceRetryAppend("", Pieces(cbs[..i]), PieceOf(cbs[i]));
        assert cbs[..i + 1] == cbs[..i] + [cbs[i]];
        match cbs[i]
        case OnData(chunk) =>
          buffer, usage := OnChunk(chunk, driver, buffer, usage);
        case OnError(err) =>
          error := Some(err);
      }
      assert cbs[..|cbs|] == cbs;
    }

    /** One turn of the loop: whether the run is over, and what it then returns.  `calls` counts the
        calls of the client, `sleeps` records the delays waited for. */
    method TryOnce(a: Attempt, attempt: nat, driver: Driver, usageIn: Option<Usage>)
      returns (over: bool, reply: string, usageOut: Option<Usage>, ghost calls: nat, ghost sleeps: seq<int>)
      requires attempt < cfg.maxAttempts
      modifies `control, driver
      ensures var t := Try(cfg, a, attempt);
              && over == t.Done?
              && driver.events == old(driver.events) + (if t.Done? then t.run.events else t.events)
              && reply == (if t.Done? then t.run.reply else "")
              && usageOut == (if t.Done? && t.run.usage.Some? then t.run.usage else usageIn)
              && control == (if a.stopAtStart then old(control) else if AsksToStop(a.callbacks) then Stop else Continue)
              && calls == (if t.Done? then t.run.calls else 1)
              && sleeps == (if t.Done? then t.run.sleeps else [t.delayMs])
    {
      hide Pieces, SinceRetry, LastUsage, LastError, Classify, ErrorText, AsksToStop;
      reply, usageOut, calls, sleeps := "", usageIn, 0, [];
      if a.stopAtStart {
        over := true;
        return;
      }
      control := Continue;
      calls := calls + 1;
      var buffer, usage, error := Deliver(a.callbacks, driver);
      if a.thrown.Some? {
        error := Some(StreamError(a.thrown.value, ErrorFields("", "", ""), 0, -1));
      }
      if error.None? {
        TrySucceeds(cfg, a, attempt);
        hide Try;
        driver.Post(TurnComplete(buffer));
        if usage.Some? {
          usageOut := usage;
        }
        over, reply := true, buffer;
        return;
      }
      TryFails(cfg, a, attempt, error.value);
      hide Try;
      var decision := Classify(error.value.httpCode, error.value.body, error.value.retryAfterSeconds, attempt, cfg, a.draw);
      var isLastAttempt := attempt + 1 >= cfg.maxAttempts;
      if decision.outcome != Retry || isLastAttempt {
        var prefix;
        if decision.outcome == StopBillingOrQuota {
          prefix := "[quota/billing] ";
        } else if decision.outcome == StopUserAction {
          prefix := "[auth/config] ";
        } else if isLastAttempt {
          prefix := "[retry exhausted] ";
        } else {
          prefix := "[error] ";
        }
        ErrorTextIs(decision.outcome, isLastAttempt, error.value);
        driver.Post(Token(prefix + error.value.message));
        driver.Post(TurnComplete(buffer));
        over, reply := true, buffer;
        return;
      }
      sleeps := sleeps + [decision.delayMs];
      if decision.delayMs > 0 && a.stopInSleep {
        over := true;
        return;
      }
      driver.Post(RetryNotice(attempt + 1));
      over := false;
    }

    /** `usageIn` is the caller's value; it is overwritten on success only. */
    method Stream(script: Script, driver: Driver, usageIn: Option<Usage>)
      returns (reply: string, usageOut: Option<Usage>, ghost calls: nat, ghost sleeps: seq<int>)
      modifies `control, driver
      ensures var run := RunFrom(cfg, script, 0);
              && driver.events == old(driver.events) + run.events
              && reply == run.reply
              && calls == run.calls && sleeps == run.sleeps
              && usageOut == (if run.usage.Some? then run.usage else usageIn)
    {
      hide Try, RunFrom, After;
      ghost var run := RunFrom(cfg, script, 0);
      reply, usageOut, calls, sleeps := "", usageIn, 0, [];
      var attempt: nat := 0;
      ghost var posted: seq<Event> := [];
      AfterNothing(run);
      while attempt < cfg.maxAttempts
        invariant driver.events == old(driver.events) + posted
        invariant run == After(posted, calls, sleeps, RunFrom(cfg, script, attempt))
        invariant usageOut == usageIn && reply == ""
      {
        var over;
        ghost var called, slept;
        RunStops(cfg, script, attempt);
        RunEnds(posted, calls, sleeps, RunFrom(cfg, script, attempt));
        over, reply, usageOut, called, slept := TryOnce(script(attempt), attempt, driver, usageIn);
        if !over {
          RunGoesOn(cfg, script, attempt, posted, calls, sleeps);
          posted := posted + Try(cfg, script(attempt), attempt).events;
        }
        calls, sleeps := calls + called, sleeps + slept;
        if over {
          return;
        }
        attempt := attempt + 1;
      }
      RunStops(cfg, script, attempt);
      RunEnds(posted, calls, sleeps, RunFrom(cfg, script, attempt));
      assert posted + [] == posted && sleeps + [] == sleeps;
    }
  }

  // ---- The contract of every run ----

  function Retries(es: seq<Event>): seq<nat> {
    if es == [] then []
    else RetryOf(es[0]) + Retries(es[1..])
  }

  function RetryOf(e: Event): seq<nat> {
    if e.RetryNotice? then [e.attempt] else []
  }

  function Completions(es: seq<Event>): seq<string> {
    if es == [] then []
    else CompletionOf(es[0]) + Completions(es[1..])
  }

  function CompletionOf(e: Event): seq<string> {
    if e.TurnComplete? then [e.text] else []
  }

  lemma {:induction false} RetriesAppend(es: seq<Event>, fs: seq<Event>)
    ensures Retries(es + fs) == Retries(es) + Retries(fs)
  {
    hide RetryOf;
    if es == [] {
      assert es + fs == fs;
    } else {
      assert (es + fs)[1..] == es[1..] + fs;
      RetriesAppend(es[1..], fs);
      assert Retries(es) + Retries(fs) == RetryOf(es[0]) + (Retries(es[1..]) + Retries(fs));
    }
  }

  lemma {:induction false} CompletionsAppend(es: seq<Event>, fs: seq<Event>)
    ensures Completions(es + fs) == Completions(es) + Completions(fs)
  {
    hide CompletionOf;
    if es == [] {
      assert es + fs == fs;
    } else {
      assert (es + fs)[1..] == es[1..] + fs;
      CompletionsAppend(es[1..], fs);
      assert Completions(es) + Completions(fs) == CompletionOf(es[0]) + (Completions(es[1..]) + Completions(fs));
    }
  }

  /** The three readings of a list of events followed by one more. */
  lemma OneMore(shown: string, es: seq<Event>, e: Event)
    ensures Retries(es + [e]) == Retries(es) + RetryOf(e)
    ensures Completions(es + [e]) == Completions(es) + CompletionOf(e)
    ensures SinceRetry(shown, es + [e]) ==
            if e.RetryNotice? then "" else SinceRetry(shown, es) + if e.Token? then e.text else ""
  {
    RetriesAppend(es, [e]);
    CompletionsAppend(es, [e]);
    SinceRetryAppend(shown, es, [e]);
    assert [e][1..] == [];
  }

  lemma {:induction false} TokensOnly(es: seq<Event>)
    requires forall e :: e in es ==> e.Token?
    ensures Retries(es) == [] && Completions(es) == []
  {
    if es != [] {
      assert es[0] in es;
      TokensOnly(es[1..]);
    }
  }

  lemma {:induction false} TokensAccumulate(shown: string, es: seq<Event>)
    requires forall e :: e in es ==> e.Token?
    ensures SinceRetry(shown, es) == shown + SinceRetry("", es)
    decreases es
  {
    if es != [] {
      assert es[0] in es;
      var t := es[0].text;
      TokensAccumulate(shown + t, es[1..]);
      TokensAccumulate("" + t, es[1..]);
      assert "" + t == t;
      assert shown + t + SinceRetry("", es[1..]) == shown + (t + SinceRetry("", es[1..]));
    }
  }

  function Range(from: nat, n: nat): (r: seq<nat>)
    ensures |r| == n && forall i :: 0 <= i < n ==> r[i] == from + i
  {
    seq(n, i => from + i)
  }

  lemma RangeStep(from: nat, n: nat)
    ensures [from] + Range(from + 1, n) == Range(from, n + 1)
  {
  }

  predicate Completed(r: Run) {
    r.ending.Succeeded? || r.ending.Failed?
  }

  function FailureText(r: Run): string {
    if r.ending.Failed? then r.ending.errorText else ""
  }

  /** The events of one attempt, read the three ways the contract needs. */
  lemma TryEvents(cfg: RetryConfig, a: Attempt, attempt: nat, shown: string)
    ensures var t := Try(cfg, a, attempt);
            && (t.Done? ==> Retries(t.run.events) == []
                            && Completions(t.run.events) == (if Completed(t.run) then [t.run.reply] else []))
            && (t.Done? && Completed(t.run) ==>
                  SinceRetry(shown, t.run.events) == shown + t.run.reply + FailureText(t.run))
            && (t.Again? ==> Retries(t.events) == [attempt + 1] && Completions(t.events) == []
                             && SinceRetry(shown, t.events) == "")
  {
    hide Decide, ErrorText, Retries, Completions, SinceRetry, LastUsage, LastError;
    var pieces := Pieces(a.callbacks);
    TokensOnly(pieces);
    TokensAccumulate(shown, pieces);
    TokensOnly([]);
    var t := Try(cfg, a, attempt);
    if t.Again? {
      OneMore(shown, pieces, RetryNotice(attempt + 1));
    } else if t.run.ending.Succeeded? {
      OneMore(shown, pieces, TurnComplete(t.run.reply));
    } else if t.run.ending.Failed? {
      var withError := pieces + [Token(t.run.ending.errorText)];
      OneMore(shown, pieces, Token(t.run.ending.errorText));
      OneMore(shown, withError, TurnComplete(t.run.reply));
      assert t.run.events == withError + [TurnComplete(t.run.reply)];
    }
  }

  /** The client is called at most `maxAttempts` times and every further call follows a sleep. */
  lemma {:induction false} CallsAreBounded(cfg: RetryConfig, script: Script, attempt: nat)
    requires attempt <= cfg.maxAttempts
    ensures var r := RunFrom(cfg, script, attempt);
            && attempt + r.calls <= cfg.maxAttempts
            && |r.sleeps| <= r.calls <= |r.sleeps| + 1
            && (Completed(r) ==> r.calls == |r.sleeps| + 1)
            && (r.sleeps != [] ==> attempt + |r.sleeps| < cfg.maxAttempts)
    decreases cfg.maxAttempts - attempt
  {
    if attempt < cfg.maxAttempts && Try(cfg, script(attempt), attempt).Again? {
      CallsAreBounded(cfg, script, attempt + 1);
    }
  }

  /** The notices count 1, 2, 3, ...; the turn is completed exactly once, with the returned text,
      unless the run was stopped or never made an attempt, and then the reply is empty. */
  lemma {:induction false} NoticesAndCompletion(cfg: RetryConfig, script: Script, attempt: nat)
    ensures var r := RunFrom(cfg, script, attempt);
            && Retries(r.events) == Range(attempt + 1, |Retries(r.events)|)
            && Completions(r.events) == (if Completed(r) then [r.reply] else [])
            && (!Completed(r) ==> r.reply == "")
    decreases cfg.maxAttempts - attempt
  {
    hide Try, Range, SinceRetry;
    if attempt < cfg.maxAttempts {
      TryEvents(cfg, script(attempt), attempt, "");
      UnfinishedIsEmpty(cfg, script(attempt), attempt);
      match Try(cfg, script(attempt), attempt)
      case Done(r) =>
      case Again(es, _) =>
        NoticesAndCompletion(cfg, script, attempt + 1);
        RetriesAppend(es, RunFrom(cfg, script, attempt + 1).events);
        CompletionsAppend(es, RunFrom(cfg, script, attempt + 1).events);
        RangeStep(attempt + 1, |Retries(RunFrom(cfg, script, attempt + 1).events)|);
    }
  }

  lemma UnfinishedIsEmpty(cfg: RetryConfig, a: Attempt, attempt: nat)
    ensures Try(cfg, a, attempt).Done? && !Completed(Try(cfg, a, attempt).run) ==> Try(cfg, a, attempt).run.reply == ""
  {
  }

  /** What the driver has shown since the last notice is the reply, followed by the error text
      when the run failed. */
  lemma {:induction false} ShownIsReply(cfg: RetryConfig, script: Script, attempt: nat, shown: string)
    requires Completed(RunFrom(cfg, script, attempt))
    ensures var r := RunFrom(cfg, script, attempt);
            SinceRetry(shown, r.events) ==
              (if Retries(r.events) == [] then shown else "") + r.reply + FailureText(r)
    decreases cfg.maxAttempts - attempt
  {
    hide Try;
    TryEvents(cfg, script(attempt), attempt, shown);
    match Try(cfg, script(attempt), attempt)
    case Done(r) =>
    case Again(es, _) =>
      var rest := RunFrom(cfg, script, attempt + 1);
      ShownIsReply(cfg, script, attempt + 1, "");
      SinceRetryAppend(shown, es, rest.events);
      RetriesAppend(es, rest.events);
  }

  /** Usage is what the last usage chunk of the successful attempt said, and nothing otherwise. */
  lemma {:induction false} UsageFromSuccess(cfg: RetryConfig, script: Script, attempt: nat)
    ensures var r := RunFrom(cfg, script, attempt);
            r.usage == if r.ending.Succeeded? then LastUsage(script(attempt + |r.sleeps|).callbacks, None) else None
    decreases cfg.maxAttempts - attempt
  {
    if attempt < cfg.maxAttempts && Try(cfg, script(attempt), attempt).Again? {
      UsageFromSuccess(cfg, script, attempt + 1);
    }
  }

  /** A run that has an attempt to make completes its turn unless the user stops it. */
  lemma {:induction false} OnlyStopsInterrupt(cfg: RetryConfig, script: Script, attempt: nat)
    requires attempt < cfg.maxAttempts
    requires forall i :: attempt <= i ==> !script(i).stopAtStart && !script(i).stopInSleep
    ensures Completed(RunFrom(cfg, script, attempt))
    decreases cfg.maxAttempts - attempt
  {
    if attempt + 1 < cfg.maxAttempts {
      OnlyStopsInterrupt(cfg, script, attempt + 1);
    }
  }

  // ---- The backoff of a run ----

  /** Only a policy without attempts makes none. */
  lemma {:induction false} NoAttemptExactly(cfg: RetryConfig, script: Script, attempt: nat)
    ensures RunFrom(cfg, script, attempt).ending.NoAttempt? <==> attempt >= cfg.maxAttempts
    decreases cfg.maxAttempts - attempt
  {
    hide Decide, ErrorText, Pieces, SinceRetry, Failure;
    if attempt < cfg.maxAttempts && Try(cfg, script(attempt), attempt).Again? {
      NoAttemptExactly(cfg, script, attempt + 1);
    }
  }

  predicate IsUnrecognised429(err: StreamError) {
    err.httpCode == 429 && !IsRateLimit(err.body)
  }

  predicate Honoured(err: StreamError) {
    HonoursRetryAfter(err.httpCode, err.body, err.retryAfterSeconds)
  }

  /** The sleep after attempt i follows a failure; it lies in the window of the header it honours,
      or below its backoff ceiling; an unrecognised 429 is slept on after attempt 0 only. */
  ghost predicate SleepFits(cfg: RetryConfig, a: Attempt, i: nat, sleep: int) {
    && sleep >= 0 && Failure(a).Some?
    && var err := Failure(a).value;
       && (IsUnrecognised429(err) ==> i == 0)
       && (if Honoured(err) then
             1000 * err.retryAfterSeconds <= sleep
             && sleep as real <= 1000.0 * (err.retryAfterSeconds as real + Max(0.0, cfg.jitterExtra))
           else sleep as real <= 1000.0 * BackoffCap(i, cfg))
  }

  lemma TrySleepFits(cfg: RetryConfig, a: Attempt, attempt: nat)
    ensures var t := Try(cfg, a, attempt);
            && (t.Again? ==> SleepFits(cfg, a, attempt, t.delayMs))
            && (t.Done? && t.run.sleeps != [] ==> |t.run.sleeps| == 1 && SleepFits(cfg, a, attempt, t.run.sleeps[0]))
  {
    hide Pieces, SinceRetry, LastError, LastUsage, ErrorText, Classify, BackoffCap, IsRateLimit;
    if Failure(a).Some? {
      var err := Failure(a).value;
      DelayBounds(err.httpCode, err.body, err.retryAfterSeconds, attempt, cfg, a.draw);
      RetriesExactly(err.httpCode, err.body, err.retryAfterSeconds, attempt, cfg, a.draw);
    }
  }

  /** sleeps[j - attempt] is the sleep after attempt j. */
  lemma {:induction false} SleepsFit(cfg: RetryConfig, script: Script, attempt: nat, j: nat)
    requires attempt <= j < attempt + |RunFrom(cfg, script, attempt).sleeps|
    ensures SleepFits(cfg, script(j), j, RunFrom(cfg, script, attempt).sleeps[j - attempt])
    decreases cfg.maxAttempts - attempt
  {
    hide Try, SleepFits;
    TrySleepFits(cfg, script(attempt), attempt);
    if j > attempt {
      SleepsFit(cfg, script, attempt + 1, j);
    }
  }

  function Total(sleeps: seq<int>): int {
    if sleeps == [] then 0 else Total(sleeps[..|sleeps| - 1]) + sleeps[|sleeps| - 1]
  }

  lemma {:induction false} TotalBelowCaps(sleeps: seq<int>, n: nat, cfg: RetryConfig)
    requires |sleeps| <= n
    requires forall i :: 0 <= i < |sleeps| ==> sleeps[i] as real <= 1000.0 * BackoffCap(i, cfg)
    ensures Total(sleeps) as real <= 1000.0 * SumCaps(n, cfg)
    decreases n
  {
    hide Uncapped;
    if |sleeps| == n {
      if n > 0 {
        TotalBelowCaps(sleeps[..n - 1], n - 1, cfg);
      }
    } else {
      TotalBelowCaps(sleeps, n - 1, cfg);
    }
  }

  lemma SleepsBelowCaps(cfg: RetryConfig, script: Script)
    requires forall i :: Failure(script(i)).Some? ==> !Honoured(Failure(script(i)).value)
    ensures var sleeps := RunFrom(cfg, script, 0).sleeps;
            forall i :: 0 <= i < |sleeps| ==> sleeps[i] as real <= 1000.0 * BackoffCap(i, cfg)
  {
    hide RunFrom, BackoffCap, Honoured, IsUnrecognised429;
    var sleeps := RunFrom(cfg, script, 0).sleeps;
    forall i | 0 <= i < |sleeps|
      ensures sleeps[i] as real <= 1000.0 * BackoffCap(i, cfg)
    {
      SleepsFit(cfg, script, 0, i);
    }
  }

  /** In a run that never honours a header the sleeps sum to at most the first maxAttempts - 1
      ceilings, hence to at most (maxAttempts - 1) times the cap and, for a growing factor, to at
      most the geometric sum base * (factor^(maxAttempts - 1) - 1) / (factor - 1). */
  lemma TotalBackoff(cfg: RetryConfig, script: Script)
    requires cfg.maxAttempts >= 1 && cfg.cap >= 0.0
    requires forall i :: Failure(script(i)).Some? ==> !Honoured(Failure(script(i)).value)
    ensures var total := Total(RunFrom(cfg, script, 0).sleeps);
            && total as real <= 1000.0 * SumCaps(cfg.maxAttempts - 1, cfg)
            && total as real <= 1000.0 * ((cfg.maxAttempts - 1) as real * cfg.cap)
            && (cfg.baseDelay >= 0.0 && cfg.factor > 1.0 ==>
                  BelowGeometric(total as real / 1000.0, cfg.baseDelay, cfg.factor, Pow(cfg.factor, cfg.maxAttempts - 1)))
  {
    hide RunFrom, BackoffCap, Honoured, SumCaps, BelowGeometric, Pow;
    SleepsBelowCaps(cfg, script);
    CallsAreBounded(cfg, script, 0);
    TotalBelowCaps(RunFrom(cfg, script, 0).sleeps, cfg.maxAttempts - 1, cfg);
    SumCapsLinear(cfg.maxAttempts - 1, cfg);
    if cfg.baseDelay >= 0.0 && cfg.factor > 1.0 {
      var n: nat := cfg.maxAttempts - 1;
      SumCapsGeometric(n, cfg);
      LessIsBelow(Total(RunFrom(cfg, script, 0).sleeps) as real / 1000.0, SumCaps(n, cfg), cfg.baseDelay, cfg.factor,
                  Pow(cfg.factor, n));
    }
  }
}
