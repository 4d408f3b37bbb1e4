/**
  The idempotency store under concurrent handlers. `check` holds the lock of the
  deduplication map and the lock of the cooldown map one after the other, so two calls
  can interleave between them. The spacing guarantees hold in every interleaving.
 */
module StoreLocks {
  import opened ExpiringMap
  import opened Idempotency
  import opened LockedMap
  import opened Arithmetic

  // ----- All interleavings -----

  datatype Stage = Waiting | Between | Answered(decision: Decision)

  datatype State = State(
    store: Store, calls: seq<Call>, stages: seq<Stage>, dedupVisits: seq<Visit>, cooldownVisits: seq<Visit>)

  datatype Event = Arrive(call: Call) | DedupSection(id: nat) | CooldownSection(id: nat)

  const INIT := State(Store(map[], map[]), [], [], [], [])

  ghost predicate Enabled(state: State, event: Event) {
    match event
    case Arrive(_) => true
    case DedupSection(id) => id < |state.calls| == |state.stages| && state.stages[id].Waiting?
    case CooldownSection(id) =>
      id < |state.calls| == |state.stages| && state.stages[id].Between? && HasCooldownKey(state.calls[id])
  }

  ghost function DedupStep(policy: Policy, state: State, id: nat): State
    requires Enabled(state, DedupSection(id))
  {
    var call := state.calls[id];
    if call.dedupKey == "" then state.(stages := state.stages[id := Answered(Accept)])
    else
      var (dedup, granted) := Section(policy.dedupTtl, state.store.dedup, call.dedupKey, call.now);
      state.(store := state.store.(dedup := dedup),
             dedupVisits := state.dedupVisits + [Visit(id, call.dedupKey, call.now, granted)],
             stages := state.stages[id := if !granted then Answered(Duplicate)
                                          else if HasCooldownKey(call) then Between
                                          else Answered(Accept)])
  }

  ghost function CooldownStep(policy: Policy, state: State, id: nat): State
    requires Enabled(state, CooldownSection(id))
  {
    var call := state.calls[id];
    var (cooldowns, granted) := Section(policy.cooldown, state.store.cooldowns, call.cooldownKey.value, call.now);
    state.(store := state.store.(cooldowns := cooldowns),
           cooldownVisits := state.cooldownVisits + [Visit(id, call.cooldownKey.value, call.now, granted)],
           stages := state.stages[id := Answered(if granted then Accept else Cooldown)])
  }

  ghost function Step(policy: Policy, state: State, event: Event): State
    requires Enabled(state, event)
  {
    match event
    case Arrive(call) => state.(calls := state.calls + [call], stages := state.stages + [Waiting])
    case DedupSection(id) => DedupStep(policy, state, id)
    case CooldownSection(id) => CooldownStep(policy, state, id)
  }

  ghost predicate Reaches(policy: Policy, before: State, events: seq<Event>, after: State)
    decreases |events|
  {
    if events == [] then before == after
    else Enabled(before, events[0]) && Reaches(policy, Step(policy, before, events[0]), events[1..], after)
  }

  /** Each map is what its own visits left, whatever happened at the other lock. */
  ghost predicate LocksHonest(policy: Policy, state: State) {
    && Honest(policy.dedupTtl, state.dedupVisits)
    && Honest(policy.cooldown, state.cooldownVisits)
    && state.store.dedup == After(policy.dedupTtl, Touches(state.dedupVisits))
    && state.store.cooldowns == After(policy.cooldown, Touches(state.cooldownVisits))
  }

  lemma {:induction false} StepKeepsLocksHonest(policy: Policy, state: State, event: Event)
    requires LocksHonest(policy, state) && Enabled(state, event)
    ensures LocksHonest(policy, Step(policy, state, event))
  {
    match event {
      case Arrive(_) =>
      case DedupSection(id) =>
        var call := state.calls[id];
        VisitRecorded(policy.dedupTtl, state.dedupVisits, id, call.dedupKey, call.now);
      case CooldownSection(id) =>
        var call := state.calls[id];
        VisitRecorded(policy.cooldown, state.cooldownVisits, id, call.cooldownKey.value, call.now);
    }
  }

  /** Call `id` was granted its deduplication key. */
  ghost predicate DedupGranted(state: State, id: nat)
    requires id < |state.calls|
  {
    exists i :: 0 <= i < |state.dedupVisits|
                && state.dedupVisits[i] == Visit(id, state.calls[id].dedupKey, state.calls[id].now, true)
  }

  ghost predicate CooldownGranted(state: State, id: nat)
    requires id < |state.calls| && HasCooldownKey(state.calls[id])
  {
    exists i :: 0 <= i < |state.cooldownVisits|
                && state.cooldownVisits[i] ==
                   Visit(id, state.calls[id].cooldownKey.value, state.calls[id].now, true)
  }

  /** A call past its first section without a `Duplicate` was granted its key; an accepted one both. */
  ghost predicate StageEarned(state: State, id: nat)
    requires id < |state.calls| == |state.stages|
  {
    var call, stage := state.calls[id], state.stages[id];
    call.dedupKey != "" && stage != Waiting && stage != Answered(Duplicate) ==>
      DedupGranted(state, id) && (stage == Answered(Accept) && HasCooldownKey(call) ==> CooldownGranted(state, id))
  }

  ghost predicate StagesEarned(state: State) {
    |state.calls| == |state.stages| && forall id :: 0 <= id < |state.calls| ==> StageEarned(state, id)
  }

  ghost predicate Remembers(earlier: State, later: State) {
    && earlier.calls <= later.calls
    && earlier.dedupVisits <= later.dedupVisits
    && earlier.cooldownVisits <= later.cooldownVisits
  }

  lemma {:induction false} EarnedRemembered(earlier: State, later: State, id: nat)
    requires id < |earlier.calls| == |earlier.stages| && id < |later.calls| == |later.stages|
    requires Remembers(earlier, later) && StageEarned(earlier, id) && later.stages[id] == earlier.stages[id]
    ensures StageEarned(later, id)
  {
    assert later.calls[id] == earlier.calls[id];
    if DedupGranted(earlier, id) {
      var i :| 0 <= i < |earlier.dedupVisits|
               && earlier.dedupVisits[i] == Visit(id, earlier.calls[id].dedupKey, earlier.calls[id].now, true);
      assert later.dedupVisits[i] == earlier.dedupVisits[i];
    }
    if HasCooldownKey(earlier.calls[id]) && CooldownGranted(earlier, id) {
      var i :| 0 <= i < |earlier.cooldownVisits|
               && earlier.cooldownVisits[i] ==
                  Visit(id, earlier.calls[id].cooldownKey.value, earlier.calls[id].now, true);
      assert later.cooldownVisits[i] == earlier.cooldownVisits[i];
    }
  }

  lemma {:induction false} DedupStepEarns(policy: Policy, state: State, id: nat)
    requires Enabled(state, DedupSection(id))
    ensures StageEarned(DedupStep(policy, state, id), id)
  {
    var after := DedupStep(policy, state, id);
    if state.calls[id].dedupKey != "" {
      var last := |state.dedupVisits|;
      var earned := Visit(id, state.calls[id].dedupKey, state.calls[id].now, true);
      assert after.dedupVisits[last].granted ==> after.dedupVisits[last] == earned;
    }
  }

  lemma {:induction false} CooldownStepEarns(policy: Policy, state: State, id: nat)
    requires Enabled(state, CooldownSection(id)) && StageEarned(state, id)
    ensures StageEarned(CooldownStep(policy, state, id), id)
  {
    var after := CooldownStep(policy, state, id);
    var last := |state.cooldownVisits|;
    var earned := Visit(id, state.calls[id].cooldownKey.value, state.calls[id].now, true);
    assert after.cooldownVisits[last].granted ==> after.cooldownVisits[last] == earned;
    assert after.dedupVisits == state.dedupVisits;
  }

  lemma {:induction false} StepKeepsEarned(policy: Policy, state: State, event: Event)
    requires StagesEarned(state) && Enabled(state, event)
    ensures StagesEarned(Step(policy, state, event))
  {
    var after := Step(policy, state, event);
    forall id | 0 <= id < |after.calls|
      ensures StageEarned(after, id)
    {
      if event == DedupSection(id) {
        DedupStepEarns(policy, state, id);
      } else if event == CooldownSection(id) {
        CooldownStepEarns(policy, state, id);
      } else if id < |state.calls| {
        EarnedRemembered(state, after, id);
      }
    }
  }

  lemma {:induction false} RunKeepsLocks(policy: Policy, before: State, events: seq<Event>, after: State)
    requires LocksHonest(policy, before) && StagesEarned(before) && Reaches(policy, before, events, after)
    ensures LocksHonest(policy, after) && StagesEarned(after)
    decreases |events|
  {
    if events != [] {
      StepKeepsLocksHonest(policy, before, events[0]);
      StepKeepsEarned(policy, before, events[0]);
      RunKeepsLocks(policy, Step(policy, before, events[0]), events[1..], after);
    }
  }

  // ----- The guarantees -----

  /** In every interleaving, two calls with one key that are both let through are a lifetime apart, less the lag. */
  lemma {:induction false} ConcurrentDedupSpacing(
    policy: Policy, events: seq<Event>, after: State, lag: nat, a: nat, b: nat)
    requires Reaches(policy, INIT, events, after) && VisitLag(after.dedupVisits, lag)
    requires a < |after.calls| && b < |after.calls| && a != b && |after.stages| == |after.calls|
    requires after.calls[a].dedupKey == after.calls[b].dedupKey != ""
    requires after.stages[a].Answered? && after.stages[a].decision != Duplicate
    requires after.stages[b].Answered? && after.stages[b].decision != Duplicate
    ensures Distance(after.calls[a].now, after.calls[b].now) >= policy.dedupTtl - lag
  {
    RunKeepsLocks(policy, INIT, events, after);
    assert StageEarned(after, a) && StageEarned(after, b);
    var i :| 0 <= i < |after.dedupVisits|
             && after.dedupVisits[i] == Visit(a, after.calls[a].dedupKey, after.calls[a].now, true);
    var j :| 0 <= j < |after.dedupVisits|
             && after.dedupVisits[j] == Visit(b, after.calls[b].dedupKey, after.calls[b].now, true);
    GrantsApart(policy.dedupTtl, after.dedupVisits, lag, i, j);
  }

  /** In every interleaving, two accepted calls with one cooldown key are a cooldown apart, less the lag. */
  lemma {:induction false} ConcurrentCooldownSpacing(
    policy: Policy, events: seq<Event>, after: State, lag: nat, a: nat, b: nat)
    requires Reaches(policy, INIT, events, after) && VisitLag(after.cooldownVisits, lag)
    requires a < |after.calls| && b < |after.calls| && a != b && |after.stages| == |after.calls|
    requires after.calls[a].dedupKey != "" && after.calls[b].dedupKey != ""
    requires HasCooldownKey(after.calls[a]) && after.calls[a].cooldownKey == after.calls[b].cooldownKey
    requires after.stages[a] == Answered(Accept) && after.stages[b] == Answered(Accept)
    ensures Distance(after.calls[a].now, after.calls[b].now) >= policy.cooldown - lag
  {
    RunKeepsLocks(policy, INIT, events, after);
    assert StageEarned(after, a) && StageEarned(after, b);
    var key := after.calls[a].cooldownKey.value;
    var i :| 0 <= i < |after.cooldownVisits| && after.cooldownVisits[i] == Visit(a, key, after.calls[a].now, true);
    var j :| 0 <= j < |after.cooldownVisits| && after.cooldownVisits[j] == Visit(b, key, after.calls[b].now, true);
    GrantsApart(policy.cooldown, after.cooldownVisits, lag, i, j);
  }
}
