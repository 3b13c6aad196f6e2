/**
 * Callbacks of one provider attempt, admitted and run one at a time, the flag
 * they set when they carry output, and the attempts of a call that has
 * streamed nothing (internal/agent/turn.go).
 */
module ProviderCallbacks {
  import opened Wrappers

  type ThreadId = nat

  // A goroutine's place in invoke.
  datatype Pc =
    | Outside
    | Checking      // holds the admission lock
    | Queued        // admitted: holds the admission lock, waits for its turn
    | Running       // in its callback, holding the serial lock
    | Stored        // has stored the flag when its text is output
    | Leaving       // has released the serial lock
    | Left
    | Dropped       // found the lifetime closed

  datatype Closer = NotClosing | Waiting | Returned

  // One attempt's providerCallbackLifetime and callbackFired, the text each
  // goroutine streams, and what the goroutines have done: the orders in which
  // callbacks were admitted, started and finished, and the texts emitted.
  datatype Lifetime = Lifetime(
    texts: seq<string>,
    fired: bool,
    mu: Option<ThreadId>,
    serial: Option<ThreadId>,
    closed: bool,
    active: nat,
    threads: seq<Pc>,
    closer: Closer,
    admitted: seq<ThreadId>,
    started: seq<ThreadId>,
    finished: seq<ThreadId>,
    emitted: seq<string>)

  datatype Action =
    | LockAdmission(t: ThreadId)
    | Admit(t: ThreadId)
    | Start(t: ThreadId)
    | Store(t: ThreadId)
    | Finish(t: ThreadId, emits: bool)  // emitIfActive may decline the text
    | Leave(t: ThreadId)
    | Close
    | Return

  predicate Enabled(l: Lifetime, a: Action) {
    match a
    case LockAdmission(t) => t < |l.threads| && l.threads[t].Outside? && l.mu.None?
    case Admit(t) => t < |l.threads| && l.threads[t].Checking?
    case Start(t) => t < |l.threads| && l.threads[t].Queued? && l.serial.None?
    case Store(t) => t < |l.threads| && l.threads[t].Running?
    case Finish(t, _) => t < |l.threads| && l.threads[t].Stored?
    case Leave(t) => t < |l.threads| && l.threads[t].Leaving? && l.active > 0
    case Close => l.closer.NotClosing? && l.mu.None?
    case Return => l.closer.Waiting? && l.active == 0
  }

  function At(l: Lifetime, t: ThreadId, pc: Pc): Lifetime
    requires t < |l.threads|
  {
    l.(threads := l.threads[t := pc])
  }

  function TextOf(l: Lifetime, t: ThreadId): string {
    if t < |l.texts| then l.texts[t] else ""
  }

  function Next(l: Lifetime, a: Action): Lifetime
    requires Enabled(l, a)
  {
    match a
    case LockAdmission(t) => At(l, t, Checking).(mu := Some(t))
    case Admit(t) =>
      if l.closed then At(l, t, Dropped).(mu := None)
      else At(l, t, Queued).(active := l.active + 1, admitted := l.admitted + [t])
    case Start(t) => At(l, t, Running).(serial := Some(t), mu := None, started := l.started + [t])
    case Store(t) => At(l, t, Stored).(fired := l.fired || TextOf(l, t) != "")
    case Finish(t, emits) =>
      At(l, t, Leaving).(serial := None, finished := l.finished + [t],
                         emitted := if emits then l.emitted + [TextOf(l, t)] else l.emitted)
    case Leave(t) => At(l, t, Left).(active := l.active - 1)
    case Close => l.(closed := true, closer := Waiting)
    case Return => l.(closer := Returned)
  }

  predicate Counted(pc: Pc) {
    pc.Queued? || pc.Running? || pc.Stored? || pc.Leaving?
  }

  predicate InCallback(pc: Pc) {
    pc.Running? || pc.Stored?
  }

  function Active(threads: seq<Pc>): nat {
    if threads == [] then 0
    else Active(threads[..|threads| - 1]) + (if Counted(threads[|threads| - 1]) then 1 else 0)
  }

  lemma {:induction false} ActiveStep(threads: seq<Pc>, t: ThreadId, pc: Pc)
    requires t < |threads|
    ensures Active(threads[t := pc])
            == Active(threads) - (if Counted(threads[t]) then 1 else 0) + (if Counted(pc) then 1 else 0)
  {
    var n := |threads| - 1;
    if t == n {
      assert threads[t := pc][..n] == threads[..n];
    } else {
      assert threads[t := pc][..n] == threads[..n][t := pc];
      ActiveStep(threads[..n], t, pc);
    }
  }

  lemma {:induction false} NoneActive(threads: seq<Pc>, t: ThreadId)
    requires Active(threads) == 0 && t < |threads|
    ensures !Counted(threads[t])
  {
    if t < |threads| - 1 {
      NoneActive(threads[..|threads| - 1], t);
    }
  }

  ghost predicate Inv(l: Lifetime) {
    && l.active == Active(l.threads)
    && (forall t :: 0 <= t < |l.threads| ==> (l.threads[t].Checking? || l.threads[t].Queued? <==> l.mu == Some(t)))
    && (forall t :: 0 <= t < |l.threads| ==> (l.threads[t].Running? || l.threads[t].Stored? <==> l.serial == Some(t)))
    && (l.mu.Some? ==> l.mu.value < |l.threads|) && (l.serial.Some? ==> l.serial.value < |l.threads|)
    && (!l.closer.NotClosing? <==> l.closed)
    && (l.closer.Returned? ==> l.active == 0)
    && l.admitted == l.started + (if l.mu.Some? && l.threads[l.mu.value].Queued? then [l.mu.value] else [])
    && l.started == l.finished + (if l.serial.Some? then [l.serial.value] else [])
  }

  predicate Initial(l: Lifetime) {
    && l == Lifetime(l.texts, false, None, None, false, 0, l.threads, NotClosing, [], [], [], [])
    && forall t :: 0 <= t < |l.threads| ==> l.threads[t].Outside?
  }

  lemma {:induction false} InitialInv(threads: seq<Pc>)
    requires forall t :: 0 <= t < |threads| ==> threads[t].Outside?
    ensures Active(threads) == 0
  {
    if threads != [] {
      InitialInv(threads[..|threads| - 1]);
    }
  }

  lemma {:induction false} StepInv(l: Lifetime, a: Action)
    requires Inv(l) && Enabled(l, a)
    ensures Inv(Next(l, a))
  {
    hide Inv, Enabled, Next;
    match a
    case LockAdmission(t) => LockInv(l, t);
    case Admit(t) => AdmitInv(l, t);
    case Start(t) => StartInv(l, t);
    case Store(t) => StoreInv(l, t);
    case Finish(t, emits) => FinishInv(l, t, emits);
    case Leave(t) => LeaveInv(l, t);
    case Close => CloseInv(l);
    case Return => ReturnInv(l);
  }

  lemma {:induction false} LockInv(l: Lifetime, t: ThreadId)
    requires Inv(l) && Enabled(l, LockAdmission(t))
    ensures Inv(Next(l, LockAdmission(t)))
  {
    ActiveStep(l.threads, t, Checking);
    hide Active;
  }

  lemma {:induction false} AdmitInv(l: Lifetime, t: ThreadId)
    requires Inv(l) && Enabled(l, Admit(t))
    ensures Inv(Next(l, Admit(t)))
  {
    ActiveStep(l.threads, t, if l.closed then Dropped else Queued);
    hide Active;
  }

  lemma {:induction false} StartInv(l: Lifetime, t: ThreadId)
    requires Inv(l) && Enabled(l, Start(t))
    ensures Inv(Next(l, Start(t)))
  {
    ActiveStep(l.threads, t, Running);
    hide Active;
  }

  lemma {:induction false} StoreInv(l: Lifetime, t: ThreadId)
    requires Inv(l) && Enabled(l, Store(t))
    ensures Inv(Next(l, Store(t)))
  {
    ActiveStep(l.threads, t, Stored);
    hide Active;
  }

  lemma {:induction false} FinishInv(l: Lifetime, t: ThreadId, emits: bool)
    requires Inv(l) && Enabled(l, Finish(t, emits))
    ensures Inv(Next(l, Finish(t, emits)))
  {
    ActiveStep(l.threads, t, Leaving);
    hide Active;
  }

  lemma {:induction false} LeaveInv(l: Lifetime, t: ThreadId)
    requires Inv(l) && Enabled(l, Leave(t))
    ensures Inv(Next(l, Leave(t)))
  {
    ActiveStep(l.threads, t, Left);
    hide Active;
  }

  lemma {:induction false} CloseInv(l: Lifetime)
    requires Inv(l) && Enabled(l, Close)
    ensures Inv(Next(l, Close))
  {
    hide Active;
  }

  lemma {:induction false} ReturnInv(l: Lifetime)
    requires Inv(l) && Enabled(l, Return)
    ensures Inv(Next(l, Return))
  {
    hide Active;
  }

  ghost predicate Legal(l: Lifetime, actions: seq<Action>)
    decreases |actions|
  {
    actions == [] || (Enabled(l, actions[0]) && Legal(Next(l, actions[0]), actions[1..]))
  }

  ghost function After(l: Lifetime, actions: seq<Action>): Lifetime
    requires Legal(l, actions)
    decreases |actions|
  {
    if actions == [] then l else After(Next(l, actions[0]), actions[1..])
  }

  lemma {:induction false} RunInv(l: Lifetime, actions: seq<Action>)
    requires Inv(l) && Legal(l, actions)
    ensures Inv(After(l, actions))
    decreases |actions|
  {
    if actions != [] {
      StepInv(l, actions[0]);
      RunInv(Next(l, actions[0]), actions[1..]);
    }
  }

  // Callbacks run one at a time, in the order they were admitted: those
  // started are the first of those admitted, and at most the last of them
  // has not finished.
  lemma {:induction false} OneAtATime(l: Lifetime, actions: seq<Action>)
    requires Initial(l) && Legal(l, actions)
    ensures var end := After(l, actions);
            && end.finished <= end.started <= end.admitted && |end.started| <= |end.finished| + 1
            && |end.admitted| <= |end.started| + 1
            && forall t, u :: 0 <= t < |end.threads| && 0 <= u < |end.threads| && InCallback(end.threads[t]) && InCallback(end.threads[u])
                 ==> t == u
  {
    InitialInv(l.threads);
    RunInv(l, actions);
    var end := After(l, actions);
    assert forall t :: 0 <= t < |end.threads| && InCallback(end.threads[t]) ==> end.serial == Some(t);
  }

  // Once closeAndWait has returned, every admitted callback has finished and
  // none starts, whatever goes on.
  lemma {:induction false} NoneAfterReturn(l: Lifetime, actions: seq<Action>)
    requires Inv(l) && l.closer.Returned? && Legal(l, actions)
    ensures l.serial.None? && l.started == l.finished == l.admitted
    ensures After(l, actions).admitted == l.admitted && After(l, actions).started == l.started
    ensures After(l, actions).closer.Returned?
    decreases |actions|
  {
    assert l.serial.None? && !(l.mu.Some? && l.threads[l.mu.value].Queued?) by {
      if l.serial.Some? {
        NoneActive(l.threads, l.serial.value);
      }
      if l.mu.Some? {
        NoneActive(l.threads, l.mu.value);
      }
    }
    if actions != [] {
      if actions[0].Start? || actions[0].Store? || actions[0].Finish? || actions[0].Leave? {
        NoneActive(l.threads, actions[0].t);
      }
      StepInv(l, actions[0]);
      NoneAfterReturn(Next(l, actions[0]), actions[1..]);
    }
  }

  // ---- the flag ----

  // A callback that has stored its flag carried output.
  ghost predicate Spoke(l: Lifetime) {
    || (exists k :: 0 <= k < |l.finished| && TextOf(l, l.finished[k]) != "")
    || (l.serial.Some? && l.serial.value < |l.threads| && l.threads[l.serial.value].Stored? && TextOf(l, l.serial.value) != "")
  }

  // The flag says whether any callback has spoken, and what was emitted came
  // from one that has.
  ghost predicate FlagInv(l: Lifetime) {
    && (l.fired <==> Spoke(l))
    && forall k :: 0 <= k < |l.emitted| && l.emitted[k] != "" ==> l.fired
  }

  lemma {:induction false} StepFlag(l: Lifetime, a: Action)
    requires Inv(l) && FlagInv(l) && Enabled(l, a)
    ensures FlagInv(Next(l, a))
  {
    hide Active;
    var next := Next(l, a);
    if a.Finish? {
      assert next.finished[|l.finished|] == a.t;
      assert forall k :: 0 <= k < |l.finished| ==> next.finished[k] == l.finished[k];
    } else {
      assert next.finished == l.finished;
    }
  }

  lemma {:induction false} RunFlag(l: Lifetime, actions: seq<Action>)
    requires Inv(l) && FlagInv(l) && Legal(l, actions)
    ensures Inv(After(l, actions)) && FlagInv(After(l, actions))
    decreases |actions|
  {
    hide Inv, FlagInv, Enabled, Next;
    if actions != [] {
      StepInv(l, actions[0]);
      StepFlag(l, actions[0]);
      RunFlag(Next(l, actions[0]), actions[1..]);
    }
  }

  // The emitted texts are those of these finished callbacks, in order.
  ghost predicate EmitsOf(l: Lifetime, at: seq<nat>) {
    && |at| == |l.emitted|
    && (forall k :: 0 <= k < |at| ==> at[k] < |l.finished| && l.emitted[k] == TextOf(l, l.finished[at[k]]))
    && forall j, k :: 0 <= j < k < |at| ==> at[j] < at[k]
  }

  // Output is emitted in the order its callbacks were admitted, each text at
  // most once, and every text when none is declined.
  lemma {:induction false} EmittedInOrder(l: Lifetime, actions: seq<Action>, at: seq<nat>) returns (end: seq<nat>)
    requires Inv(l) && EmitsOf(l, at) && Legal(l, actions)
    ensures EmitsOf(After(l, actions), end) && After(l, actions).finished <= After(l, actions).admitted
    ensures |at| == |l.finished| && (forall i :: 0 <= i < |actions| && actions[i].Finish? ==> actions[i].emits) ==>
              |end| == |After(l, actions).finished|
    decreases |actions|
  {
    hide Active;
    if actions == [] {
      end := at;
    } else {
      StepInv(l, actions[0]);
      hide Inv;
      var a, next := actions[0], Next(l, actions[0]);
      var more := if a.Finish? && a.emits then at + [|l.finished|] else at;
      NextEmits(l, a, at);
      end := EmittedInOrder(next, actions[1..], more);
    }
  }

  lemma {:induction false} NextEmits(l: Lifetime, a: Action, at: seq<nat>)
    requires EmitsOf(l, at) && Enabled(l, a)
    ensures EmitsOf(Next(l, a), if a.Finish? && a.emits then at + [|l.finished|] else at)
  {
    var next := Next(l, a);
    assert l.finished <= next.finished && next.texts == l.texts;
    assert forall k :: 0 <= k < |l.finished| ==> next.finished[k] == l.finished[k];
  }

  // An attempt whose callbacks were joined: closeAndWait has returned.
  ghost predicate Joined(l: Lifetime) {
    exists start, actions :: Initial(start) && Legal(start, actions) && After(start, actions) == l && l.closer.Returned?
  }

  // Some admitted callback carried output.
  ghost predicate Streamed(l: Lifetime) {
    exists k :: 0 <= k < |l.admitted| && TextOf(l, l.admitted[k]) != ""
  }

  // Read after the callbacks are joined, the flag is set exactly when some
  // admitted callback carried output: the report is final.
  lemma {:induction false} FlagIsFinal(l: Lifetime)
    requires Joined(l)
    ensures Inv(l) && FlagInv(l) && (l.fired <==> Streamed(l))
  {
    var start, actions :| Initial(start) && Legal(start, actions) && After(start, actions) == l;
    InitialInv(start.threads);
    RunFlag(start, actions);
    NoneAfterReturn(l, []);
    assert l.finished == l.admitted;
  }

  // What a joined attempt has admitted, emitted and reported stays as it is,
  // whatever goroutines of it still call.
  ghost predicate Settled(next: Lifetime, l: Lifetime) {
    && next.closer.Returned? && next.texts == l.texts && next.fired == l.fired
    && next.admitted == l.admitted && next.emitted == l.emitted
  }

  lemma {:induction false} JoinedStays(l: Lifetime, a: Action)
    requires Inv(l) && l.closer.Returned? && Enabled(l, a)
    ensures Inv(Next(l, a)) && Settled(Next(l, a), l)
  {
    StepInv(l, a);
    NoneAfterReturn(l, []);
    forall t | 0 <= t < |l.threads|
      ensures !Counted(l.threads[t])
    {
      NoneActive(l.threads, t);
    }
  }

  // ---- the attempts of one call ----

  const MAX_PROVIDER_RETRIES := 2
  const MAX_PROVIDER_RETRY_DELAY := 30_000  // milliseconds

  datatype ErrorKind = ProviderError | ProviderResponseInvalid

  datatype StreamError = StreamError(kind: ErrorKind, httpStatus: int, noResponse: bool, retryAfter: int, contextLengthExceeded: bool)

  function Doubled(base: nat, attempt: nat): nat {
    if attempt == 0 then base else 2 * Doubled(base, attempt - 1)
  }

  function RetryDelay(e: StreamError, attempt: nat, base: nat): Option<nat> {
    if attempt >= MAX_PROVIDER_RETRIES || e.kind != ProviderError then None
    else if !((e.httpStatus == 0 && e.noResponse) || e.httpStatus in {429, 502, 503, 504}) then None
    else
      var backoff := Doubled(base, attempt);
      var delay := if e.retryAfter > backoff then e.retryAfter else backoff;
      if delay > MAX_PROVIDER_RETRY_DELAY then None else Some(delay)
  }

  // One call's attempts: those that failed before, whose goroutines may still
  // call back, and the current one.
  datatype Call = Call(past: seq<Lifetime>, current: Lifetime)

  datatype CallAction =
    | Invoke(attempt: nat, action: Action)
    | Retry(error: StreamError, base: nat, texts: seq<string>)

  function NewLifetime(texts: seq<string>): Lifetime {
    Lifetime(texts, false, None, None, false, 0, seq(|texts|, _ => Outside), NotClosing, [], [], [], [])
  }

  predicate CallEnabled(c: Call, a: CallAction) {
    match a
    case Invoke(i, action) =>
      (i < |c.past| && Enabled(c.past[i], action)) || (i == |c.past| && Enabled(c.current, action))
    case Retry(error, base, _) =>
      c.current.closer.Returned? && !c.current.fired && RetryDelay(error, |c.past|, base).Some?
  }

  function CallNext(c: Call, a: CallAction): Call
    requires CallEnabled(c, a)
  {
    match a
    case Invoke(i, action) =>
      if i < |c.past| then c.(past := c.past[i := Next(c.past[i], action)]) else c.(current := Next(c.current, action))
    case Retry(_, _, texts) => Call(c.past + [c.current], NewLifetime(texts))
  }

  // A past attempt was joined without output.
  ghost predicate Silent(l: Lifetime) {
    Inv(l) && FlagInv(l) && l.closer.Returned? && !l.fired
  }

  ghost predicate CallInv(c: Call) {
    && Inv(c.current) && FlagInv(c.current) && |c.past| <= MAX_PROVIDER_RETRIES
    && forall i :: 0 <= i < |c.past| ==> Silent(c.past[i])
  }

  lemma {:induction false} NewLifetimeInv(texts: seq<string>)
    ensures Initial(NewLifetime(texts)) && Inv(NewLifetime(texts)) && FlagInv(NewLifetime(texts))
  {
    InitialInv(NewLifetime(texts).threads);
  }

  lemma {:induction false} CallStep(c: Call, a: CallAction)
    requires CallInv(c) && CallEnabled(c, a)
    ensures CallInv(CallNext(c, a))
  {
    hide Inv, FlagInv, Enabled, Next, Initial;
    match a
    case Invoke(i, action) =>
      if i < |c.past| {
        SilentStays(c.past[i], action);
      } else {
        StepInv(c.current, action);
        StepFlag(c.current, action);
      }
    case Retry(_, _, texts) =>
      NewLifetimeInv(texts);
  }

  lemma {:induction false} SilentStays(l: Lifetime, a: Action)
    requires Silent(l) && Enabled(l, a)
    ensures Silent(Next(l, a))
  {
    hide Inv, FlagInv, Enabled, Next;
    JoinedStays(l, a);
    StepFlag(l, a);
  }

  ghost predicate CallLegal(c: Call, actions: seq<CallAction>)
    decreases |actions|
  {
    actions == [] || (CallEnabled(c, actions[0]) && CallLegal(CallNext(c, actions[0]), actions[1..]))
  }

  ghost function CallAfter(c: Call, actions: seq<CallAction>): Call
    requires CallLegal(c, actions)
    decreases |actions|
  {
    if actions == [] then c else CallAfter(CallNext(c, actions[0]), actions[1..])
  }

  lemma {:induction false} CallRun(c: Call, actions: seq<CallAction>)
    requires CallInv(c) && CallLegal(c, actions)
    ensures CallInv(CallAfter(c, actions))
    decreases |actions|
  {
    hide CallInv, CallEnabled, CallNext;
    if actions != [] {
      CallStep(c, actions[0]);
      CallRun(CallNext(c, actions[0]), actions[1..]);
    }
  }

  // Whatever goroutines of earlier attempts still call, and however the
  // attempts interleave, every callback with output that was ever admitted
  // belongs to the last attempt, and so does all emitted output.
  lemma {:induction false} OnlyTheLastSpeaks(texts: seq<string>, actions: seq<CallAction>)
    requires CallLegal(Call([], NewLifetime(texts)), actions)
    ensures var c := CallAfter(Call([], NewLifetime(texts)), actions);
            && |c.past| <= MAX_PROVIDER_RETRIES
            && forall i :: 0 <= i < |c.past| ==>
                 && !Streamed(c.past[i])
                 && forall k :: 0 <= k < |c.past[i].emitted| ==> c.past[i].emitted[k] == ""
  {
    NewLifetimeInv(texts);
    CallRun(Call([], NewLifetime(texts)), actions);
    var c := CallAfter(Call([], NewLifetime(texts)), actions);
    forall i | 0 <= i < |c.past|
      ensures !Streamed(c.past[i]) && forall k :: 0 <= k < |c.past[i].emitted| ==> c.past[i].emitted[k] == ""
    {
      SilentSaidNothing(c.past[i]);
    }
  }

  lemma {:induction false} SilentSaidNothing(l: Lifetime)
    requires Silent(l)
    ensures !Streamed(l) && forall k :: 0 <= k < |l.emitted| ==> l.emitted[k] == ""
  {
    NoneAfterReturn(l, []);
  }

  // ---- callProvider ----

  // One attempt as streamProviderAttempt returns it: its joined callbacks, how
  // it ended, and what the turn observes before another would start.
  datatype Attempt = Attempt(
    lifetime: Lifetime,
    error: Option<StreamError>,
    live: bool,        // no cause selected and the context not ended
    waits: bool,       // the backoff passes
    authorized: bool)  // the lease still authorizes a request

  datatype CallOutcome = Response | ContextRejection(error: StreamError) | Failed

  // The attempt failed before anything was generated, and another may start.
  ghost predicate Retried(a: Attempt, attempt: nat, base: nat) {
    && a.error.Some? && RetryDelay(a.error.value, attempt, base).Some? && !Streamed(a.lifetime)
    && a.live && a.waits && a.authorized
  }

  ghost predicate RejectsContext(a: Attempt) {
    a.error.Some? && a.error.value.contextLengthExceeded && !Streamed(a.lifetime) && a.live
  }

  // How long the first n attempts' retries wait.
  ghost function Waited(attempts: nat -> Attempt, n: nat, base: nat): nat {
    if n == 0 then 0
    else
      var a := attempts(n - 1);
      Waited(attempts, n - 1, base)
      + (if a.error.Some? && RetryDelay(a.error.value, n - 1, base).Some? then RetryDelay(a.error.value, n - 1, base).value else 0)
  }

  // Attempts repeat only while no admitted callback has carried output; how
  // the last one ended decides the outcome.
  method CallProvider(attempts: nat -> Attempt, base: nat) returns (r: CallOutcome, last: nat, waited: nat)
    requires forall i: nat :: Joined(attempts(i).lifetime)
    ensures last <= MAX_PROVIDER_RETRIES && waited == Waited(attempts, last, base)
    ensures forall i: nat :: i < last ==> Retried(attempts(i), i, base)
    ensures !Retried(attempts(last), last, base)
    ensures r.Response? <==> attempts(last).error.None?
    ensures r.ContextRejection? <==>
              RejectsContext(attempts(last)) && RetryDelay(attempts(last).error.value, last, base).None?
    ensures r.ContextRejection? ==> attempts(last).error == Some(r.error)
  {
    hide Joined, Streamed, Doubled;
    last, waited := 0, 0;
    while true
      invariant last <= MAX_PROVIDER_RETRIES && waited == Waited(attempts, last, base)
      invariant forall i: nat :: i < last ==> Retried(attempts(i), i, base)
      decreases MAX_PROVIDER_RETRIES - last
    {
      var a := attempts(last);
      if a.error.None? {
        return Response, last, waited;
      }
      FlagIsFinal(a.lifetime);
      var delay := RetryDelay(a.error.value, last, base);
      var fired := a.lifetime.fired;
      if delay.None? || fired || !a.live {
        if a.error.value.contextLengthExceeded && !fired && a.live {
          return ContextRejection(a.error.value), last, waited;
        }
        return Failed, last, waited;
      }
      if !a.waits || !a.authorized {
        return Failed, last, waited;
      }
      waited := waited + delay.value;
      last := last + 1;
    }
  }

  // A call's retries wait, in all, at least the doubling backoff and at most
  // twice the bound on one wait.
  lemma {:induction false} WaitsAreBounded(attempts: nat -> Attempt, n: nat, base: nat)
    requires n <= MAX_PROVIDER_RETRIES && forall i: nat :: i < n ==> Retried(attempts(i), i, base)
    ensures base * (Doubled(1, n) - 1) <= Waited(attempts, n, base) <= n * MAX_PROVIDER_RETRY_DELAY
  {
    hide Streamed;
    if n > 0 {
      WaitsAreBounded(attempts, n - 1, base);
      DoubledIs(base, n - 1);
      assert Retried(attempts(n - 1), n - 1, base);
    }
  }

  lemma {:induction false} DoubledIs(base: nat, n: nat)
    ensures Doubled(base, n) == base * Doubled(1, n) && Doubled(1, n) >= 1
  {
    if n > 0 {
      DoubledIs(base, n - 1);
    }
  }

  // Another attempt may start exactly when one is left and the provider gave
  // no response or was unavailable; it waits the longer of the doubling
  // backoff and what the provider asked for, within 30 seconds.
  lemma {:induction false} DelayExactly(e: StreamError, attempt: nat, base: nat, delay: nat)
    ensures RetryDelay(e, attempt, base) == Some(delay) <==>
              && attempt < 2 && e.kind == ProviderError && delay <= 30_000
              && ((e.httpStatus == 0 && e.noResponse)
                  || e.httpStatus == 429 || e.httpStatus == 502 || e.httpStatus == 503 || e.httpStatus == 504)
              && var backoff := if attempt == 0 then base else 2 * base;
              delay == if e.retryAfter < backoff then backoff else e.retryAfter
  {
    assert Doubled(base, 1) == 2 * Doubled(base, 0);
  }
}
