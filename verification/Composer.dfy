/**
 * Composing a request: the budget its input may use, the root turn it starts
 * from, and the older turns it leaves out until it fits
 * (internal/agent/context.go). Projecting the turns from a start is a
 * parameter: the bytes it encodes to, or why it cannot be encoded.
 */
module Composer {
  import opened Wrappers
  import opened Events
  import opened TokenRatio

  datatype ProjectError = ContextOverflow | Unprojectable

  datatype ComposeError = NoBudget | MissingRoot | FrontierAfterActive | Failed(cause: ProjectError)

  type Projection = (nat, int) -> Result<int, ProjectError>

  // From start up to s, every request is too large for its budget.
  ghost predicate NoneFits(project: Projection, usable: int, start: nat, s: nat) {
    forall k: nat :: start <= k < s ==>
      project(k, usable) == Err(ContextOverflow) || (project(k, usable).Ok? && project(k, usable).value > usable)
  }

  ghost predicate FirstFit(project: Projection, usable: int, start: nat, active: nat, s: nat) {
    && start <= s <= active && NoneFits(project, usable, start, s)
    && project(s, usable).Ok? && project(s, usable).value <= usable
  }

  // A start that cannot be encoded comes before any that fits.
  ghost predicate Breaks(project: Projection, usable: int, start: nat, active: nat) {
    exists s: nat :: start <= s <= active && NoneFits(project, usable, start, s) && project(s, usable) == Err(Unprojectable)
  }

  // The first root with the identity, or the number of roots.
  function RootIndex(roots: seq<EventId>, id: EventId): (i: nat)
    ensures i <= |roots| && (i < |roots| ==> roots[i] == id)
    ensures forall k :: 0 <= k < i ==> roots[k] != id
  {
    if roots == [] || roots[0] == id then 0 else 1 + RootIndex(roots[1..], id)
  }

  // prepare: the start a whole-turn compaction's frontier leaves.
  method StartIndex(roots: seq<EventId>, firstRetainedId: EventId, active: nat) returns (r: Result<nat, ComposeError>)
    requires active < |roots|
    ensures firstRetainedId == "" ==> r == Ok(0)
    ensures firstRetainedId != "" && firstRetainedId !in roots ==> r == Err(MissingRoot)
    ensures firstRetainedId in roots && firstRetainedId != "" ==>
              var at := RootIndex(roots, firstRetainedId);
              r == if at <= active then Ok(at) else Err(FrontierAfterActive)
  {
    if firstRetainedId == "" {
      return Ok(0);
    }
    var i := 0;
    while i < |roots| && roots[i] != firstRetainedId
      invariant i <= |roots| && forall k :: 0 <= k < i ==> roots[k] != firstRetainedId
    {
      i := i + 1;
    }
    if i == |roots| {
      return Err(MissingRoot);
    }
    return if i > active then Err(FrontierAfterActive) else Ok(i);
  }

  // A request starts from the oldest root turn from which it fits. It
  // overflows exactly when not even the active turn alone does.
  method ComposeFrom(project: Projection, usable: int, start: nat, active: nat) returns (r: Result<nat, ProjectError>)
    requires start <= active
    ensures r.Ok? ==> FirstFit(project, usable, start, active, r.value)
    ensures r == Err(ContextOverflow) <==> NoneFits(project, usable, start, active + 1)
    ensures r == Err(Unprojectable) <==> Breaks(project, usable, start, active)
  {
    var s := start;
    while true
      invariant start <= s <= active && NoneFits(project, usable, start, s)
      decreases active - s
    {
      var p := project(s, usable);
      if p.Err? && (p.error == Unprojectable || s >= active) {
        return Err(p.error);
      }
      if p.Ok? {
        if p.value <= usable {
          return Ok(s);
        }
        if s >= active {
          return Err(ContextOverflow);
        }
      }
      s := s + 1;
    }
  }

  method Compose(profile: Profile, calibrated: nat, rejectedBytes: int, roots: seq<EventId>, firstRetainedId: EventId, active: nat,
                 project: Projection)
    returns (r: Result<nat, ComposeError>)
    requires active < |roots|
    ensures r == Err(NoBudget) <==> InputTokens(profile).None?
    ensures InputTokens(profile).Some? ==>
              && (r == Err(MissingRoot) <==> firstRetainedId != "" && firstRetainedId !in roots)
              && (r == Err(FrontierAfterActive) <==> firstRetainedId != "" && active < RootIndex(roots, firstRetainedId) < |roots|)
    ensures var milli := RejectionBounded(calibrated, profile, rejectedBytes);
            var start := if firstRetainedId == "" then 0 else RootIndex(roots, firstRetainedId);
            InputTokens(profile).Some? && start <= active ==>
              var usable := UsableInputBytes(profile, milli).value;
              && (r.Ok? ==> FirstFit(project, usable, start, active, r.value))
              && (r == Err(Failed(ContextOverflow)) <==> NoneFits(project, usable, start, active + 1))
              && (r == Err(Failed(Unprojectable)) <==> Breaks(project, usable, start, active))
  {
    var milli := RejectionBounded(calibrated, profile, rejectedBytes);
    var usable := UsableInputBytes(profile, milli);
    if usable.None? {
      return Err(NoBudget);
    }
    var start := StartIndex(roots, firstRetainedId, active);
    if start.Err? {
      return Err(start.error);
    }
    var composed := ComposeFrom(project, usable.value, start.value, active);
    return if composed.Ok? then Ok(composed.value) else Err(Failed(composed.error));
  }

  // Whatever the turns are, a request within the budget encodes below the bound.
  ghost predicate AlwaysBelow(usable: int, bound: int) {
    forall project: Projection, start: nat, active: nat, s: nat :: FirstFit(project, usable, start, active, s) ==>
      project(s, usable).value < bound
  }

  // The retry a context rejection allows composes a request smaller than the
  // rejected one, whatever the turns are, exactly when the window's input
  // tokens number under a thousand per rejected byte.
  lemma {:induction false} RetriedRequestShrinks(profile: Profile, calibrated: nat, rejectedBytes: int)
    requires profile.hardWindowTokens <= MAX_INT64 && InputTokens(profile).Some? && rejectedBytes > 0
    ensures InputTokens(profile).value < 1000 * rejectedBytes
       <==> AlwaysBelow(UsableInputBytes(profile, RejectionBounded(calibrated, profile, rejectedBytes)).value, rejectedBytes)
  {
    RetryShrinksExactly(profile, calibrated, rejectedBytes);
    hide UsableInputBytes, RejectionBounded, InputTokens;
    var usable := UsableInputBytes(profile, RejectionBounded(calibrated, profile, rejectedBytes)).value;
    if usable >= rejectedBytes {
      var project: Projection := (k, u) => Ok(rejectedBytes);
      assert FirstFit(project, usable, 0, 0, 0);
    }
  }
}
