/**
 * The turn coordinator, which arbitrates between the turn goroutine, the
 * heartbeat goroutine and provider callbacks (internal/agent/ownership.go).
 * Each critical section of its mutex is one atomic method; the reader-writer
 * lock that admits callbacks is part of the interleaving model in
 * CoordinatorRuns.
 */
module Coordinator {
  import opened Wrappers

  datatype Stage =
    | ContextCompose | ContextCompaction | Provider | AssistantCommit
    | ToolPrepare | ToolApproval | ToolExecute | ToolCommit

  datatype Kind =
    | Success | ProviderError | ProviderInvalid | CallerCancelled | CallerDeadline | LeaseLost
    | HeartbeatFailed | AssistantPersistence | Storage | ContextOverflow | RepositoryInstructions | StepLimit

  type ThreadId = nat

  // A cause as it is reserved, by the goroutine that reserved it.
  datatype Pending = Pending(kind: Kind, owner: ThreadId)

  datatype Cause = Cause(kind: Kind, owner: ThreadId, stage: Stage)

  datatype Shared = Shared(
    cancelled: bool,
    stage: Stage,
    cause: Option<Cause>,
    pending: Option<Pending>,
    toolDone: Option<nat>,  // the open tool phase's channel
    phases: nat)            // tool phases begun
  {
    predicate Active() {
      cause.None? && pending.None? && !cancelled
    }

    // The stage changes unless a cause is final.
    function Entered(next: Stage): Shared {
      if cause.None? then this.(stage := next) else this
    }

    function Reserved(kind: Kind, owner: ThreadId): Shared {
      if cause.None? && pending.None? then this.(pending := Some(Pending(kind, owner))) else this
    }

    predicate Holds(owner: ThreadId) {
      cause.None? && pending.Some? && pending.value.owner == owner
    }

    // A reservation becomes final in the stage the turn has reached.
    function Finalised(owner: ThreadId): Shared {
      if Holds(owner) then this.(cause := Some(Cause(pending.value.kind, owner, stage)), pending := None) else this
    }

    function Succeeded(owner: ThreadId): Shared {
      this.(cause := Some(Cause(Success, owner, stage)), pending := None)
    }

    function ToolBegun(): Shared {
      if Active() then this.(toolDone := Some(phases), phases := phases + 1) else this
    }

    function ToolClosed(): Shared {
      this.(toolDone := None)
    }

    // What result reports: a reserved cause counts, at the present stage.
    function Observed(): Option<Cause> {
      if cause.None? && pending.Some? then Some(Cause(pending.value.kind, pending.value.owner, stage)) else cause
    }
  }

  class TurnCoordinator {
    var cancelled: bool
    var stage: Stage
    var cause: Option<Cause>
    var pending: Option<Pending>
    var toolDone: Option<nat>
    var phases: nat

    ghost function State(): Shared
      reads this
    {
      Shared(cancelled, stage, cause, pending, toolDone, phases)
    }

    constructor ()
      ensures State() == Shared(false, ContextCompose, None, None, None, 0)
    {
      cancelled, stage, cause, pending, toolDone, phases := false, ContextCompose, None, None, None, 0;
    }

    method SetStage(next: Stage) returns (entered: bool)
      modifies `stage
      ensures entered == old(State()).Active()
      ensures State() == if entered then old(State()).Entered(next) else old(State())
      ensures entered <==> old(cause).None? && old(pending).None? && !cancelled
      ensures stage == if entered then next else old(stage)
    {
      if cause.Some? || pending.Some? || cancelled {
        return false;
      }
      stage := next;
      return true;
    }

    method FinishAdmittedCallbackStage(next: Stage)
      modifies `stage
      ensures State() == old(State()).Entered(next)
      ensures stage == if cause.None? then next else old(stage)
    {
      if cause.None? {
        stage := next;
      }
    }

    // The admission check of an emission or a commit boundary.
    method CheckActive() returns (active: bool)
      ensures active == State().Active()
      ensures active <==> cause.None? && pending.None? && !cancelled
    {
      return cause.None? && pending.None? && !cancelled;
    }

    // selectCause's first section.
    method Reserve(kind: Kind, owner: ThreadId) returns (reserved: bool)
      modifies `pending
      ensures reserved == (old(State()).cause.None? && old(State()).pending.None?)
      ensures State() == old(State()).Reserved(kind, owner)
      ensures pending == if reserved then Some(Pending(kind, owner)) else old(pending)
    {
      if cause.Some? || pending.Some? {
        return false;
      }
      pending := Some(Pending(kind, owner));
      return true;
    }

    method Cancel()
      modifies `cancelled
      ensures State() == old(State()).(cancelled := true)
    {
      cancelled := true;
    }

    // selectCause's last section, under the write lock.
    method Finalise(owner: ThreadId) returns (selected: bool)
      modifies `cause, `pending
      ensures selected == old(State()).Holds(owner)
      ensures State() == old(State()).Finalised(owner)
      ensures selected <==> old(cause).None? && old(pending).Some? && old(pending).value.owner == owner
      ensures selected ==> cause == Some(Cause(old(pending).value.kind, owner, stage)) && pending.None?
      ensures !selected ==> cause == old(cause) && pending == old(pending)
    {
      if cause.Some? || pending.None? || pending.value.owner != owner {
        return false;
      }
      cause := Some(Cause(pending.value.kind, owner, stage));
      pending := None;
      return true;
    }

    method FinishCommitBoundary(next: Stage)
      modifies `stage
      ensures State() == old(State()).Entered(next)
      ensures stage == if cause.None? then next else old(stage)
    {
      if cause.None? {
        stage := next;
      }
    }

    method FinishSuccessBoundary(owner: ThreadId)
      modifies `cause, `pending
      ensures State() == old(State()).Succeeded(owner)
      ensures cause == Some(Cause(Success, owner, stage)) && pending.None?
    {
      cause := Some(Cause(Success, owner, stage));
      pending := None;
    }

    method BeginToolPhase() returns (begun: bool)
      modifies `toolDone, `phases
      ensures begun == old(State()).Active()
      ensures State() == old(State()).ToolBegun()
      ensures begun <==> cause.None? && pending.None? && !cancelled
      ensures if begun then toolDone == Some(old(phases)) && phases == old(phases) + 1
              else toolDone == old(toolDone) && phases == old(phases)
    {
      if cause.Some? || pending.Some? || cancelled {
        return false;
      }
      toolDone := Some(phases);
      phases := phases + 1;
      return true;
    }

    method CompleteToolPhase()
      modifies `stage, `toolDone
      ensures State() == old(State()).Entered(ToolCommit).ToolClosed()
      ensures toolDone.None? && stage == if cause.None? then ToolCommit else old(stage)
    {
      if cause.None? {
        stage := ToolCommit;
      }
      if toolDone.Some? {
        toolDone := None;
      }
    }

    method AbortToolPhase()
      modifies `toolDone
      ensures State() == old(State()).ToolClosed()
      ensures toolDone.None?
    {
      if toolDone.Some? {
        toolDone := None;
      }
    }

    method Result() returns (observed: Option<Cause>)
      ensures observed == State().Observed()
      ensures cause.Some? ==> observed == cause
      ensures cause.None? && pending.Some? ==> observed == Some(Cause(pending.value.kind, pending.value.owner, stage))
      ensures cause.None? && pending.None? ==> observed.None?
    {
      if cause.None? && pending.Some? {
        return Some(Cause(pending.value.kind, pending.value.owner, stage));
      }
      return cause;
    }
  }
}

/**
 * Every interleaving of the goroutines that share a turn coordinator
 * (internal/agent/ownership.go, internal/agent/turn.go). A goroutine's place
 * in an operation is its program counter; an action is one goroutine's next
 * atomic step. As in Go's RWMutex, a waiting writer keeps new readers out.
 */
module CoordinatorRuns {
  import opened Wrappers
  import opened Coordinator

  // Who calls what: only the turn goroutine crosses commit boundaries, runs
  // tool phases and moves between iterations; the heartbeat selects and
  // observes; provider callbacks emit.
  datatype Role = Turn | Heartbeat | Callback

  datatype Boundary = Emission | Transition(next: Stage) | Commit | Observation

  datatype Pc =
    | Idle
    // selectCause
    | HasReserved
    | HasCancelled
    | Waiting(channel: Option<nat>)  // until the tool phase it found has ended
    | Announced                      // the write lock is requested
    | Writing                        // the write lock is held
    // a boundary under the read lock
    | Entering(boundary: Boundary)
    | Admitted(boundary: Boundary)
    | Rejected

  // A goroutine, and what its last selectCause returned.
  datatype Thread = Thread(role: Role, pc: Pc, selected: Option<bool>)

  // causes records every assignment of the shared cause.
  datatype Sys = Sys(shared: Shared, threads: seq<Thread>, causes: seq<Cause>)

  predicate Selecting(pc: Pc) {
    pc.HasReserved? || pc.HasCancelled? || pc.Waiting? || pc.Announced? || pc.Writing?
  }

  predicate Reads(pc: Pc) {
    pc.Entering? || pc.Admitted? || pc.Rejected?
  }

  datatype Action =
    | CallerCancels
    | SetStage(stage: Stage)
    | Reserve(kind: Kind)
    | Cancel
    | TakeToolDone
    | Announce
    | LockWrite
    | Finalise
    | LockRead(boundary: Boundary)
    | Check
    | Leave
    | FinishStage(stage: Stage)
    | FinishCommit(stage: Stage)
    | FinishSuccess
    | BeginTool
    | CompleteTool
    | AbortTool

  predicate MayEnter(role: Role, boundary: Boundary) {
    match boundary
    case Emission => role != Heartbeat
    case Observation => role != Callback
    case _ => role == Turn
  }

  predicate WriterWaits(s: Sys) {
    exists t :: 0 <= t < |s.threads| && (s.threads[t].pc.Announced? || s.threads[t].pc.Writing?)
  }

  predicate ReaderHolds(s: Sys) {
    exists t :: 0 <= t < |s.threads| && Reads(s.threads[t].pc)
  }

  // Goroutine t can take the action now. The turn goroutine never selects a
  // cause while it runs a tool phase: lifecycle callbacks only report
  // toolPhaseInterruption.
  predicate Enabled(s: Sys, t: ThreadId, a: Action)
    requires t < |s.threads|
  {
    var role, pc := s.threads[t].role, s.threads[t].pc;
    match a
    case CallerCancels => true
    case SetStage(_) => pc.Idle? && role == Turn
    case Reserve(kind) =>
      pc.Idle? && kind != Success && role != Callback && (role == Turn ==> s.shared.toolDone.None?)
    case Cancel => pc.HasReserved?
    case TakeToolDone => pc.HasCancelled?
    case Announce => pc.Waiting? && (pc.channel.None? || s.shared.toolDone != pc.channel)
    case LockWrite => pc.Announced? && !ReaderHolds(s)
    case Finalise => pc.Writing?
    case LockRead(boundary) => pc.Idle? && MayEnter(role, boundary) && !WriterWaits(s)
    case Check => pc.Entering? && !pc.boundary.Observation?
    case Leave => pc.Rejected? || pc.Admitted? || (pc.Entering? && pc.boundary.Observation?)
    case FinishStage(_) => pc.Admitted? && pc.boundary.Emission? && role == Turn
    case FinishCommit(_) => pc.Admitted? && pc.boundary.Commit?
    case FinishSuccess => pc.Admitted? && pc.boundary.Commit?
    case BeginTool => pc.Idle? && role == Turn
    case CompleteTool => pc.Idle? && role == Turn
    case AbortTool => pc.Idle? && role == Turn
  }

  function At(s: Sys, t: ThreadId, shared: Shared, pc: Pc): Sys
    requires t < |s.threads|
  {
    Sys(shared, s.threads[t := s.threads[t].(pc := pc)], s.causes)
  }

  function Apply(s: Sys, t: ThreadId, a: Action): Sys
    requires t < |s.threads| && Enabled(s, t, a)
  {
    var c, pc := s.shared, s.threads[t].pc;
    match a
    case CallerCancels => s.(shared := c.(cancelled := true))
    case SetStage(stage) => if c.Active() then s.(shared := c.Entered(stage)) else s
    case Reserve(kind) =>
      if c.cause.None? && c.pending.None? then At(s, t, c.Reserved(kind, t), HasReserved)
      else s.(threads := s.threads[t := s.threads[t].(selected := Some(false))])
    case Cancel => At(s, t, c.(cancelled := true), HasCancelled)
    case TakeToolDone => At(s, t, c, Waiting(c.toolDone))
    case Announce => At(s, t, c, Announced)
    case LockWrite => At(s, t, c, Writing)
    case Finalise =>
      Sys(c.Finalised(t), s.threads[t := s.threads[t].(pc := Idle, selected := Some(c.Holds(t)))],
          s.causes + (if c.Holds(t) then [c.Finalised(t).cause.value] else []))
    case LockRead(boundary) => At(s, t, c, Entering(boundary))
    case Check =>
      if !c.Active() then At(s, t, c, Rejected)
      else if pc.boundary.Transition? then At(s, t, c.Entered(pc.boundary.next), Admitted(pc.boundary))
      else At(s, t, c, Admitted(pc.boundary))
    case Leave => At(s, t, c, Idle)
    case FinishStage(stage) => s.(shared := c.Entered(stage))
    case FinishCommit(stage) => At(s, t, c.Entered(stage), Idle)
    case FinishSuccess => At(s, t, c.Succeeded(t), Idle).(causes := s.causes + [c.Succeeded(t).cause.value])
    case BeginTool => s.(shared := c.ToolBegun())
    case CompleteTool => s.(shared := c.Entered(ToolCommit).ToolClosed())
    case AbortTool => s.(shared := c.ToolClosed())
  }

  predicate Initial(s: Sys) {
    && s.shared == Shared(false, ContextCompose, None, None, None, 0) && s.causes == []
    && (forall t :: 0 <= t < |s.threads| ==> s.threads[t].pc.Idle? && s.threads[t].selected.None?)
    && forall t, u :: 0 <= t < |s.threads| && 0 <= u < |s.threads| && s.threads[t].role.Turn? && s.threads[u].role.Turn?
         ==> t == u
  }

  predicate Failed(c: Shared) {
    c.cause.Some? && c.cause.value.kind != Success
  }

  // ---- what every reachable state keeps ----

  // One goroutine's place agrees with the shared state.
  predicate ThreadInv(c: Shared, t: ThreadId, thread: Thread) {
    var pc := thread.pc;
    && (Selecting(pc) ==>
          && thread.role != Callback
          && ((c.pending.Some? && c.pending.value.owner == t) || (c.cause.Some? && c.cause.value.kind == Success))
          && (thread.role == Turn ==> c.toolDone.None?))
    && (Selecting(pc) && !pc.HasReserved? ==> c.cancelled)
    && (pc.Waiting? && c.toolDone.Some? ==> pc.channel == c.toolDone)
    && (pc.Announced? || pc.Writing? ==> c.toolDone.None?)
    && ((pc.Entering? || pc.Admitted?) ==> MayEnter(thread.role, pc.boundary))
    && (pc.Admitted? ==> !Failed(c))
    && (pc.Admitted? && pc.boundary.Commit? ==> c.cause.None?)
    && (thread.selected == Some(true) ==> Failed(c) && c.cause.value.owner == t)
  }

  predicate SharedInv(c: Shared, causes: seq<Cause>) {
    && (c.cause.Some? ==> c.pending.None? && c.cause.value.stage == c.stage)
    && (c.pending.Some? ==> c.pending.value.kind != Success)
    && (Failed(c) ==> c.toolDone.None?)
    && causes == (if c.cause.Some? then [c.cause.value] else [])
  }

  predicate Inv(s: Sys) {
    && SharedInv(s.shared, s.causes)
    && (forall t :: 0 <= t < |s.threads| ==> ThreadInv(s.shared, t, s.threads[t]))
    && (s.shared.pending.Some? ==>
          s.shared.pending.value.owner < |s.threads| && Selecting(s.threads[s.shared.pending.value.owner].pc))
    && (s.shared.toolDone.Some? ==> HasTurn(s))
    && Exclusive(s)
  }

  predicate HasTurn(s: Sys) {
    exists t :: 0 <= t < |s.threads| && s.threads[t].role.Turn?
  }

  // One turn goroutine, one selecting goroutine, and no reader beside a writer.
  predicate Exclusive(s: Sys) {
    forall t, u :: 0 <= t < |s.threads| && 0 <= u < |s.threads| && t != u ==>
      && !(s.threads[t].role.Turn? && s.threads[u].role.Turn?)
      && !(Selecting(s.threads[t].pc) && Selecting(s.threads[u].pc))
      && !(s.threads[t].pc.Writing? && Reads(s.threads[u].pc))
  }

  lemma {:induction false} InitialInv(s: Sys)
    requires Initial(s)
    ensures Inv(s)
  {
  }

  lemma {:induction false} StepInv(s: Sys, t: ThreadId, a: Action)
    requires Inv(s) && t < |s.threads| && Enabled(s, t, a)
    ensures Inv(Apply(s, t, a))
  {
    hide Enabled, Apply, ThreadInv, SharedInv, Exclusive, Selecting;
    var next := Apply(s, t, a);
    StepShared(s, t, a);
    StepExclusive(s, t, a);
    forall u | 0 <= u < |next.threads|
      ensures ThreadInv(next.shared, u, next.threads[u])
    {
      StepThread(s, t, a, u);
    }
  }

  lemma {:induction false} StepShared(s: Sys, t: ThreadId, a: Action)
    requires Inv(s) && t < |s.threads| && Enabled(s, t, a)
    ensures var next := Apply(s, t, a);
            && |next.threads| == |s.threads| && SharedInv(next.shared, next.causes)
            && (next.shared.pending.Some? ==>
                  && next.shared.pending.value.owner < |next.threads|
                  && Selecting(next.threads[next.shared.pending.value.owner].pc))
            && (next.shared.toolDone.Some? ==> HasTurn(next))
  {
    hide Exclusive, ReaderHolds, WriterWaits, MayEnter;
    assert ThreadInv(s.shared, t, s.threads[t]);
    var next := Apply(s, t, a);
    assert forall u :: 0 <= u < |s.threads| ==> next.threads[u].role == s.threads[u].role;
    if next.shared.toolDone.Some? {
      var u :| 0 <= u < |s.threads| && (s.threads[u].role.Turn? || (u == t && a.BeginTool?));
      assert next.threads[u].role.Turn?;
    }
  }

  lemma {:induction false} StepExclusive(s: Sys, t: ThreadId, a: Action)
    requires Inv(s) && t < |s.threads| && Enabled(s, t, a)
    ensures |Apply(s, t, a).threads| == |s.threads| && Exclusive(Apply(s, t, a))
  {
    hide HasTurn, MayEnter;
    assert ThreadInv(s.shared, t, s.threads[t]);
    var next := Apply(s, t, a);
    forall u, v | 0 <= u < |s.threads| && 0 <= v < |s.threads| && u != v
      ensures !(next.threads[u].role.Turn? && next.threads[v].role.Turn?)
      ensures !(Selecting(next.threads[u].pc) && Selecting(next.threads[v].pc))
      ensures !(next.threads[u].pc.Writing? && Reads(next.threads[v].pc))
    {
      assert ThreadInv(s.shared, u, s.threads[u]) && ThreadInv(s.shared, v, s.threads[v]);
    }
  }

  // What one goroutine's step leaves true of another.
  lemma {:induction false} StepThread(s: Sys, t: ThreadId, a: Action, u: ThreadId)
    requires Inv(s) && t < |s.threads| && Enabled(s, t, a) && u < |s.threads|
    ensures ThreadInv(Apply(s, t, a).shared, u, Apply(s, t, a).threads[u])
  {
    if u == t {
      StepSelf(s, t, a);
    } else {
      StepOther(s, t, a, u);
    }
  }

  lemma {:induction false} StepSelf(s: Sys, t: ThreadId, a: Action)
    requires Inv(s) && t < |s.threads| && Enabled(s, t, a)
    ensures ThreadInv(Apply(s, t, a).shared, t, Apply(s, t, a).threads[t])
  {
    hide HasTurn, ReaderHolds, WriterWaits;
    assert ThreadInv(s.shared, t, s.threads[t]);
  }

  lemma {:induction false} StepOther(s: Sys, t: ThreadId, a: Action, u: ThreadId)
    requires Inv(s) && t < |s.threads| && Enabled(s, t, a) && u < |s.threads| && u != t
    ensures ThreadInv(Apply(s, t, a).shared, u, Apply(s, t, a).threads[u])
  {
    hide HasTurn, ReaderHolds, WriterWaits;
    assert ThreadInv(s.shared, t, s.threads[t]) && ThreadInv(s.shared, u, s.threads[u]);
    assert Apply(s, t, a).threads[u] == s.threads[u];
  }

  // ---- runs ----

  datatype Step = Step(thread: ThreadId, action: Action)

  predicate Legal(s: Sys, steps: seq<Step>)
    decreases |steps|
  {
    steps == [] ||
    (&& steps[0].thread < |s.threads| && Enabled(s, steps[0].thread, steps[0].action)
     && Legal(Apply(s, steps[0].thread, steps[0].action), steps[1..]))
  }

  function After(s: Sys, steps: seq<Step>): Sys
    requires Legal(s, steps)
    decreases |steps|
  {
    if steps == [] then s else After(Apply(s, steps[0].thread, steps[0].action), steps[1..])
  }

  lemma {:induction false} RunInv(s: Sys, steps: seq<Step>)
    requires Inv(s) && Legal(s, steps)
    ensures Inv(After(s, steps))
    decreases |steps|
  {
    if steps != [] {
      StepInv(s, steps[0].thread, steps[0].action);
      RunInv(Apply(s, steps[0].thread, steps[0].action), steps[1..]);
    }
  }

  // At most one cause is ever assigned, in the stage the turn had reached; a
  // goroutine told that it selected the cause did. Once a failure is final,
  // no commit boundary, admitted callback or tool phase is open.
  lemma {:induction false} AtMostOneCause(s: Sys, steps: seq<Step>)
    requires Initial(s) && Legal(s, steps)
    ensures var c := After(s, steps).shared;
            && After(s, steps).causes == (if c.cause.Some? then [c.cause.value] else [])
            && (c.cause.Some? ==> c.cause.value.stage == c.stage)
            && forall t :: 0 <= t < |After(s, steps).threads| && After(s, steps).threads[t].selected == Some(true) ==>
                 c.cause.Some? && c.cause.value.owner == t && c.cause.value.kind != Success
    ensures var end := After(s, steps);
            Failed(end.shared) ==>
              && end.shared.toolDone.None?
              && forall t :: 0 <= t < |end.threads| ==> !end.threads[t].pc.Admitted?
  {
    InitialInv(s);
    RunInv(s, steps);
    var end := After(s, steps);
    forall t | 0 <= t < |end.threads|
      ensures end.threads[t].selected == Some(true) ==> Failed(end.shared) && end.shared.cause.value.owner == t
      ensures Failed(end.shared) ==> !end.threads[t].pc.Admitted?
    {
      assert ThreadInv(end.shared, t, end.threads[t]);
    }
  }

  lemma {:induction false} StepKeepsCause(s: Sys, t: ThreadId, a: Action)
    requires Inv(s) && t < |s.threads| && Enabled(s, t, a) && s.shared.cause.Some?
    ensures Apply(s, t, a).shared.cause == s.shared.cause && Apply(s, t, a).shared.stage == s.shared.stage
  {
    assert ThreadInv(s.shared, t, s.threads[t]);
  }

  // Whatever runs on, a final cause stays and the stage stands still with it.
  lemma {:induction false} CauseIsFinal(s: Sys, steps: seq<Step>)
    requires Inv(s) && Legal(s, steps) && s.shared.cause.Some?
    ensures After(s, steps).shared.cause == s.shared.cause
    ensures After(s, steps).shared.stage == s.shared.cause.value.stage
    decreases |steps|
  {
    if steps != [] {
      StepKeepsCause(s, steps[0].thread, steps[0].action);
      StepInv(s, steps[0].thread, steps[0].action);
      CauseIsFinal(Apply(s, steps[0].thread, steps[0].action), steps[1..]);
    }
  }

  // A reservation gives way only to itself becoming final or to a success
  // whose commit boundary was open; a failure becomes final with no other
  // goroutine inside a boundary.
  lemma {:induction false} CauseAssigned(s: Sys, t: ThreadId, a: Action)
    requires Inv(s) && t < |s.threads| && Enabled(s, t, a) && s.shared.cause.None?
    ensures var c := Apply(s, t, a).shared;
            c.cause.Some? ==>
              || (&& a.FinishSuccess? && c.cause.value == Cause(Success, t, s.shared.stage)
                  && s.threads[t].pc == Admitted(Commit) && s.threads[t].role == Turn)
              || (&& a.Finalise? && s.shared.pending == Some(Pending(c.cause.value.kind, t))
                  && c.cause.value.owner == t && c.cause.value.stage == s.shared.stage
                  && s.shared.cancelled && s.shared.toolDone.None? && !ReaderHolds(s))
    ensures s.shared.pending.Some? && Apply(s, t, a).shared.pending != s.shared.pending ==>
              Apply(s, t, a).shared.cause.Some?
  {
    assert ThreadInv(s.shared, t, s.threads[t]);
    if s.threads[t].pc.Writing? {
      assert forall u :: 0 <= u < |s.threads| && u != t ==> !Reads(s.threads[u].pc);
    }
  }

  // ---- whose failure a cause is ----

  // Step i of the run reserved the kind for the goroutine, before any other
  // failure was reserved or any cause final.
  ghost predicate ReservedAt(s: Sys, steps: seq<Step>, i: nat, kind: Kind, owner: ThreadId)
    requires Legal(s, steps)
  {
    && i < |steps| && steps[i] == Step(owner, Reserve(kind))
    && Legal(s, steps[..i])
    && var before := After(s, steps[..i]).shared;
       before.cause.None? && before.pending.None?
  }

  lemma {:induction false} RunSplit(s: Sys, steps: seq<Step>, last: Step)
    ensures Legal(s, steps + [last]) <==>
              && Legal(s, steps) && last.thread < |After(s, steps).threads|
              && Enabled(After(s, steps), last.thread, last.action)
    ensures Legal(s, steps + [last]) ==>
              After(s, steps + [last]) == Apply(After(s, steps), last.thread, last.action)
    decreases |steps|
  {
    hide Enabled, Apply;
    if steps == [] {
      assert [] + [last] == [last] && [last][1..] == [];
    } else {
      assert (steps + [last])[0] == steps[0] && (steps + [last])[1..] == steps[1..] + [last];
      if steps[0].thread < |s.threads| && Enabled(s, steps[0].thread, steps[0].action) {
        RunSplit(Apply(s, steps[0].thread, steps[0].action), steps[1..], last);
      }
    }
  }

  // A reservation comes from a step that reserves it, and stays until it
  // becomes final as it is or a success displaces it.
  lemma {:induction false} CauseComesFrom(s: Sys, t: ThreadId, a: Action)
    requires Inv(s) && t < |s.threads| && Enabled(s, t, a)
    ensures var c, next := s.shared, Apply(s, t, a).shared;
            && (next.pending.Some? ==>
                  || next.pending == c.pending
                  || (c.cause.None? && c.pending.None? && a == Reserve(next.pending.value.kind) && next.pending.value.owner == t))
            && (Failed(next) ==>
                  || next.cause == c.cause
                  || (c.pending == Some(Pending(next.cause.value.kind, next.cause.value.owner))))
  {
    assert ThreadInv(s.shared, t, s.threads[t]);
  }

  // The failure a turn ends with, or is about to, is the one a goroutine
  // passed when it selected it, and nothing was selected before it.
  lemma {:induction false} CauseWasSelected(s: Sys, steps: seq<Step>)
    requires Initial(s) && Legal(s, steps)
    ensures var c := After(s, steps).shared;
            && (c.pending.Some? ==> exists i: nat :: ReservedAt(s, steps, i, c.pending.value.kind, c.pending.value.owner))
            && (Failed(c) ==> exists i: nat :: ReservedAt(s, steps, i, c.cause.value.kind, c.cause.value.owner))
    decreases |steps|
  {
    hide Enabled, Apply, Inv, After, Legal;
    if steps == [] {
      NothingSelected(s);
    } else {
      var n := |steps| - 1;
      var before, last := steps[..n], steps[n];
      assert steps == before + [last];
      RunSplit(s, before, last);
      CauseWasSelected(s, before);
      InitialInv(s);
      RunInv(s, before);
      CauseComesFrom(After(s, before), last.thread, last.action);
      var c, next := After(s, before).shared, After(s, steps).shared;
      if next.pending.Some? {
        if next.pending == c.pending {
          EarlierStep(s, before, last, next.pending.value.kind, next.pending.value.owner);
        } else {
          assert steps[..n] == before;
          assert ReservedAt(s, steps, n, next.pending.value.kind, next.pending.value.owner);
        }
      }
      if Failed(next) {
        EarlierStep(s, before, last, next.cause.value.kind, next.cause.value.owner);
      }
    }
  }

  lemma {:induction false} NothingSelected(s: Sys)
    requires Initial(s) && Legal(s, [])
    ensures After(s, []) == s && s.shared.pending.None? && s.shared.cause.None?
  {
  }

  lemma {:induction false} EarlierStep(s: Sys, before: seq<Step>, last: Step, kind: Kind, owner: ThreadId)
    requires Legal(s, before) && Legal(s, before + [last])
    requires exists i: nat :: ReservedAt(s, before, i, kind, owner)
    ensures exists i: nat :: ReservedAt(s, before + [last], i, kind, owner)
  {
    hide Legal, After;
    var i: nat :| ReservedAt(s, before, i, kind, owner);
    assert (before + [last])[..i] == before[..i];
    assert ReservedAt(s, before + [last], i, kind, owner);
  }

  // The stage moves only as an action says, while no cause is final; and an
  // admitted action's stage is the one the turn reaches.
  lemma {:induction false} StageMoves(s: Sys, t: ThreadId, a: Action)
    requires t < |s.threads| && Enabled(s, t, a)
    ensures var c, next := s.shared, Apply(s, t, a).shared.stage;
            && (next != c.stage ==>
                  && c.cause.None?
                  && (|| a == SetStage(next) || a == FinishStage(next) || a == FinishCommit(next)
                      || (a.CompleteTool? && next == ToolCommit)
                      || (a.Check? && s.threads[t].pc == Entering(Transition(next)))))
            && (c.cause.None? && (a.FinishStage? || a.FinishCommit?) ==> next == a.stage)
            && (c.cause.None? && a.CompleteTool? ==> next == ToolCommit)
            && (c.cause.None? && c.pending.None? && !c.cancelled && a.SetStage? ==> next == a.stage)
            && (c.cause.None? && c.pending.None? && !c.cancelled && a.Check? && s.threads[t].pc.boundary.Transition? ==>
                  next == s.threads[t].pc.boundary.next)
  {
  }

  // A tool phase or a boundary is entered exactly while no failure is selected
  // and the context is live.
  lemma {:induction false} EnteredWhileActive(s: Sys, t: ThreadId, a: Action)
    requires t < |s.threads| && Enabled(s, t, a)
    ensures var c, next := s.shared, Apply(s, t, a);
            && (a.Check? ==>
                  (next.threads[t].pc.Admitted? <==> c.cause.None? && c.pending.None? && !c.cancelled))
            && (a.BeginTool? ==>
                  if c.cause.None? && c.pending.None? && !c.cancelled then next.shared.toolDone == Some(c.phases)
                  else next.shared.toolDone == c.toolDone)
            && (a.CompleteTool? || a.AbortTool? ==> next.shared.toolDone.None?)
  {
  }

  // ---- progress ----

  // A step that goes on with an operation already begun.
  predicate Continues(a: Action) {
    || a.Cancel? || a.TakeToolDone? || a.Announce? || a.LockWrite? || a.Finalise?
    || a.Check? || a.Leave? || a.AbortTool?
  }

  function SelectRank(pc: Pc): nat {
    match pc
    case HasReserved => 5
    case HasCancelled => 4
    case Waiting(_) => 3
    case Announced => 2
    case Writing => 1
    case _ => 0
  }

  function ReadRank(pc: Pc): nat {
    if pc.Entering? then 2 else if pc.Admitted? || pc.Rejected? then 1 else 0
  }

  function ReadRanks(threads: seq<Thread>): nat {
    if threads == [] then 0
    else ReadRanks(threads[..|threads| - 1]) + ReadRank(threads[|threads| - 1].pc)
  }

  lemma {:induction false} ReadRanksStep(threads: seq<Thread>, t: ThreadId, thread: Thread)
    requires t < |threads|
    ensures ReadRanks(threads[t := thread]) == ReadRanks(threads) - ReadRank(threads[t].pc) + ReadRank(thread.pc)
  {
    var n := |threads| - 1;
    if t == n {
      assert threads[t := thread][..n] == threads[..n];
    } else {
      assert threads[t := thread][..n] == threads[..n][t := thread];
      ReadRanksStep(threads[..n], t, thread);
    }
  }

  function Owner(s: Sys): ThreadId
    requires s.shared.pending.Some?
  {
    s.shared.pending.value.owner
  }

  // From every state with a reserved cause, some goroutine can go on, and
  // each such step brings the cause nearer.
  lemma {:induction false} HelpfulStep(s: Sys) returns (step: Step)
    requires Inv(s) && s.shared.pending.Some?
    ensures step.thread < |s.threads| && Enabled(s, step.thread, step.action) && Continues(step.action)
    ensures var next := Apply(s, step.thread, step.action);
            || next.shared.cause.Some?
            || (&& next.shared.pending == s.shared.pending
                && var r, r' := SelectRank(s.threads[Owner(s)].pc), SelectRank(next.threads[Owner(s)].pc);
                   || r' < r
                   || (r' == r && next.shared.toolDone.None? && s.shared.toolDone.Some?)
                   || (r' == r && next.shared.toolDone == s.shared.toolDone
                       && ReadRanks(next.threads) < ReadRanks(s.threads)))
  {
    var o := Owner(s);
    assert ThreadInv(s.shared, o, s.threads[o]);
    match s.threads[o].pc
    case HasReserved => step := Step(o, Cancel);
    case HasCancelled => step := Step(o, TakeToolDone);
    case Waiting(channel) =>
      if s.shared.toolDone.None? {
        step := Step(o, Announce);
      } else {
        var t: ThreadId :| t < |s.threads| && s.threads[t].role.Turn?;
        assert ThreadInv(s.shared, t, s.threads[t]);
        step := if Reads(s.threads[t].pc) then LeaveStep(s, t) else Step(t, AbortTool);
        LeavingStep(s, t);
      }
    case Announced =>
      if ReaderHolds(s) {
        var t: ThreadId :| t < |s.threads| && Reads(s.threads[t].pc);
        step := LeaveStep(s, t);
        LeavingStep(s, t);
      } else {
        step := Step(o, LockWrite);
      }
    case Writing => step := Step(o, Finalise);
    case _ => step := Step(o, Cancel);
  }

  function LeaveStep(s: Sys, t: ThreadId): Step
    requires t < |s.threads|
  {
    var pc := s.threads[t].pc;
    Step(t, if pc.Entering? && !pc.boundary.Observation? then Check else Leave)
  }

  lemma {:induction false} LeavingStep(s: Sys, t: ThreadId)
    requires t < |s.threads| && s.shared.pending.Some?
    ensures Reads(s.threads[t].pc) ==>
              && var a := LeaveStep(s, t).action;
              && Enabled(s, t, a) && Continues(a)
              && var next := Apply(s, t, a);
              && next.shared == s.shared && ReadRanks(next.threads) < ReadRanks(s.threads)
              && forall u :: 0 <= u < |s.threads| && u != t ==> next.threads[u] == s.threads[u]
  {
    if Reads(s.threads[t].pc) {
      var pc := s.threads[t].pc;
      ReadRanksStep(s.threads, t, s.threads[t].(pc := if LeaveStep(s, t).action.Check? then Rejected else Idle));
    }
  }

  // No state with a reserved cause is stuck: goroutines that only finish what
  // they have begun reach a final cause.
  lemma {:induction false} ReservationResolves(s: Sys) returns (steps: seq<Step>)
    requires Inv(s) && s.shared.pending.Some?
    ensures Legal(s, steps) && (forall i :: 0 <= i < |steps| ==> Continues(steps[i].action))
    ensures After(s, steps).shared.cause.Some?
    decreases SelectRank(s.threads[Owner(s)].pc), s.shared.toolDone.Some?, ReadRanks(s.threads)
  {
    var step := HelpfulStep(s);
    var next := Apply(s, step.thread, step.action);
    StepInv(s, step.thread, step.action);
    if next.shared.cause.Some? {
      steps := [step];
      assert steps[1..] == [];
    } else {
      var rest := ReservationResolves(next);
      steps := [step] + rest;
      assert steps[1..] == rest;
    }
  }

  // Why lifecycle callbacks report instead of selecting: a turn goroutine that
  // waits for the tool phase it is running waits for ever.
  lemma {:induction false} SelectingInToolPhaseBlocks(s: Sys, steps: seq<Step>, t: ThreadId)
    requires Legal(s, steps) && t < |s.threads| && s.threads[t].role == Turn
    requires forall u :: 0 <= u < |s.threads| && u != t ==> s.threads[u].role != Turn
    requires s.shared.toolDone.Some? && s.threads[t].pc == Waiting(s.shared.toolDone)
    ensures After(s, steps).shared.toolDone == s.shared.toolDone
    ensures t < |After(s, steps).threads| && After(s, steps).threads[t].pc == s.threads[t].pc
    decreases |steps|
  {
    if steps != [] {
      var next := Apply(s, steps[0].thread, steps[0].action);
      assert forall u :: 0 <= u < |s.threads| ==> next.threads[u].role == s.threads[u].role;
      SelectingInToolPhaseBlocks(next, steps[1..], t);
    }
  }
}
