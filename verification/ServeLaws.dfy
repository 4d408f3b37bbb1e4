/** What any interleaving of handlers says about duplicates, and about one source among others. */
module ServeLaws {
  import opened Wrappers
  import opened Sources
  import opened Serve
  import opened ServeRun
  import opened LockedMap
  import Idempotency
  import RateLimiter

  // ----- Duplicates -----

  /** The visit of a request that was answered after its checks, and whether it was granted. */
  lemma {:induction false} AnswerVisit(
    config: Config, state: State, id: nat, source: Source, key: string) returns (v: nat)
    requires Justified(config, state) && id < |state.requests| && state.phases[id].Done?
    requires AfterRecording(state.phases[id].response) || state.phases[id].response == DUPLICATE
    requires Resolve(config, state.requests[id]) == Some(source) && PrintsKey(config, state.requests[id], source, key)
    ensures v < |state.dedupVisits|
    ensures state.dedupVisits[v] == Visit(id, key, state.requests[id].now, state.phases[id].response != DUPLICATE)
  {
    var response := state.phases[id].response;
    assert PhaseJustified(config, state, id, state.phases[id]);
    if response == DUPLICATE {
      v :| DeniedDedup(config, state, id, v);
    } else {
      DoneGranted(config, state, id, source, key);
      v :| 0 <= v < |state.dedupVisits| && state.dedupVisits[v] == Visit(id, key, state.requests[id].now, true);
    }
  }

  /**
    In every interleaving, a request that got past its checks and was answered has one
    visit to the first lock, and is answered `Duplicate` if and only if an earlier visit
    still held its key: granted less than a lifetime before, and not followed by a visit
    whose clock reached its expiry. For clocks in lock order the last part falls away.
   */
  lemma {:induction false} AnsweredDuplicateExactly(
    config: Config, events: seq<Event>, after: State, id: nat, source: Source, key: string) returns (v: nat)
    requires Reaches(config, INIT, events, after)
    requires id < |after.requests| == |after.phases| && after.phases[id].Done?
    requires AfterRecording(after.phases[id].response) || after.phases[id].response == DUPLICATE
    requires Resolve(config, after.requests[id]) == Some(source) && PrintsKey(config, after.requests[id], source, key)
    ensures key != "" && v < |after.dedupVisits|
    ensures forall w :: 0 <= w < |after.dedupVisits| ==> (after.dedupVisits[w].caller == id <==> w == v)
    ensures var now, ttl := after.requests[id].now, config.policy.dedupTtl;
            && (after.phases[id].response == DUPLICATE <==>
                exists i: nat :: Holds(ttl, after.dedupVisits[..v], i, key, now))
            && (VisitLag(after.dedupVisits, 0) ==>
                  (after.phases[id].response == DUPLICATE <==>
                   GrantedRecently(ttl, after.dedupVisits[..v], key, now)))
  {
    RunKeepsInvariant(config, INIT, events, after);
    KeyNonEmpty(config, after.requests[id], source, key);
    v := AnswerVisit(config, after, id, source, key);
    GrantedExactly(config.policy.dedupTtl, after.dedupVisits, v);
    if VisitLag(after.dedupVisits, 0) {
      GrantedInOrder(config.policy.dedupTtl, after.dedupVisits, v);
    }
  }

  lemma {:induction false} KeyNonEmpty(config: Config, request: Request, source: Source, key: string)
    requires PrintsKey(config, request, source, key)
    ensures key != ""
  {
    DedupKeyNonEmpty(source, request.headers, request.body.value);
  }

  // ----- Sources do not see each other -----

  /**
    In every interleaving with clocks in lock order, each of the three locks answered a
    source's requests as it would have had the other sources never asked, and the visits
    with the source's keys are exactly those of its own requests.
   */
  lemma {:induction false} SourcesUnnoticed(config: Config, events: seq<Event>, after: State, source: Source)
    requires Reaches(config, INIT, events, after)
    requires VisitLag(after.dedupVisits, 0) && VisitLag(after.cooldownVisits, 0)
    ensures RateLimiter.Genuine(config.perMinute, RateLimiter.Only(after.rates, Name(source)))
    ensures Honest(config.policy.dedupTtl, Only(after.dedupVisits, key => OwnsDedupKey(source, key)))
    ensures Honest(config.policy.cooldown, Only(after.cooldownVisits, key => OwnsCooldownKey(source, key)))
    ensures forall v :: v in after.dedupVisits ==>
              (OwnsDedupKey(source, v.key) <==> SourceOf(config, after, v) == Some(source))
    ensures forall v :: v in after.cooldownVisits ==>
              (OwnsCooldownKey(source, v.key) <==> SourceOf(config, after, v) == Some(source))
  {
    RunKeepsInvariant(config, INIT, events, after);
    RateLimiter.OthersUnnoticed(config.perMinute, after.rates, Name(source));
    OthersUnnoticed(config.policy.dedupTtl, after.dedupVisits, key => OwnsDedupKey(source, key));
    OthersUnnoticed(config.policy.cooldown, after.cooldownVisits, key => OwnsCooldownKey(source, key));
    OwnVisits(config, after, source);
  }

  lemma {:induction false} OwnVisits(config: Config, state: State, source: Source)
    requires VisitsOwned(config, state)
    ensures forall v :: v in state.dedupVisits ==>
              (OwnsDedupKey(source, v.key) <==> SourceOf(config, state, v) == Some(source))
    ensures forall v :: v in state.cooldownVisits ==>
              (OwnsCooldownKey(source, v.key) <==> SourceOf(config, state, v) == Some(source))
  {
    forall v | v in state.dedupVisits && SourceOf(config, state, v) != Some(source)
      ensures !OwnsDedupKey(source, v.key)
    {
      KeySpacesDisjoint(SourceOf(config, state, v).value, source, v.key);
    }
    forall v | v in state.cooldownVisits && SourceOf(config, state, v) != Some(source)
      ensures !OwnsCooldownKey(source, v.key)
    {
      KeySpacesDisjoint(SourceOf(config, state, v).value, source, v.key);
    }
  }

  // ----- Every answer has its reason -----

  ghost predicate CooldownDenied(state: State, id: nat, checked: Checked) {
    && id < |state.requests| && Cools(checked)
    && exists v :: 0 <= v < |state.cooldownVisits| && state.cooldownVisits[v] ==
                   Visit(id, checked.cooldownKey.value, state.requests[id].now, false)
  }

  ghost predicate RateDenied(state: State, id: nat, source: Source) {
    && id < |state.requests|
    && exists r :: 0 <= r < |state.rates| && state.rates[r] ==
                   RateLimiter.Entry(RateLimiter.Request(Name(source), state.requests[id].now), false)
  }

  ghost predicate HasTicket(state: State, id: nat, envelopeId: string) {
    exists t :: 0 <= t < |state.accepted| && state.accepted[t].origin.Http? && state.accepted[t].origin.id == id
                && state.accepted[t].job.envelope.id == envelopeId
  }

  ghost predicate EarnedSome(config: Config, state: State, id: nat, source: Source) {
    exists rate, visit, job :: Earned(config, state, id, source, rate, visit, job)
  }

  /** Why a request got its answer. */
  ghost predicate Explained(config: Config, state: State, id: nat, response: Response)
    requires id < |state.requests|
  {
    var request := state.requests[id];
    var source := Resolve(config, request);
    if response == NotFound then source == None
    else
      source.Some? &&
      var checked := Precheck(config, source.value, request);
      match response
      case NotFound => false
      case TooManyRequests => RateDenied(state, id, source.value)
      case Refused(error) =>
        checked == Err(error) || (checked.Ok? && Prepare(config, source.value, request, checked.value) == Err(error))
      case Ignored(decision) =>
        (match decision
         case Duplicate => exists v :: DeniedDedup(config, state, id, v)
         case Cooldown => checked.Ok? && CooldownDenied(state, id, checked.value)
         case Accept => false)
      case Queued(envelopeId) => HasTicket(state, id, envelopeId)
      case QueueFull => EarnedSome(config, state, id, source.value)
      case QueueClosed => state.closed && EarnedSome(config, state, id, source.value)
  }

  ghost predicate AllExplained(config: Config, state: State) {
    && |state.phases| == |state.requests|
    && forall id :: 0 <= id < |state.phases| && state.phases[id].Done? ==>
         Explained(config, state, id, state.phases[id].response)
  }

  ghost predicate Grows(earlier: State, later: State) {
    Remembers(earlier, later) && earlier.accepted <= later.accepted && (earlier.closed ==> later.closed)
  }

  lemma {:induction false} StepGrows(config: Config, state: State, event: Event)
    requires Enabled(state, event)
    ensures Grows(state, Step(config, state, event))
  {}

  lemma {:induction false} ReasonKept(config: Config, earlier: State, later: State, id: nat, response: Response)
    requires Grows(earlier, later) && id < |earlier.requests| && Explained(config, earlier, id, response)
    ensures Explained(config, later, id, response)
  {
    var request := earlier.requests[id];
    assert later.requests[id] == request;
    var source := Resolve(config, request);
    match response {
      case TooManyRequests =>
        RateDenialKept(earlier, later, id, source.value);
      case Ignored(decision) =>
        if decision == Idempotency.Duplicate {
          var v :| DeniedDedup(config, earlier, id, v);
          DenialRemembered(config, earlier, later, id, v);
        } else {
          CooldownDenialKept(earlier, later, id, Precheck(config, source.value, request).value);
        }
      case Queued(envelopeId) =>
        TicketKept(earlier, later, id, envelopeId);
      case QueueFull =>
        EarningKept(config, earlier, later, id, source.value);
      case QueueClosed =>
        EarningKept(config, earlier, later, id, source.value);
      case _ =>
    }
  }

  lemma {:induction false} RateDenialKept(earlier: State, later: State, id: nat, source: Source)
    requires Grows(earlier, later) && RateDenied(earlier, id, source)
    ensures RateDenied(later, id, source)
  {
    var r :| 0 <= r < |earlier.rates| && earlier.rates[r] ==
      RateLimiter.Entry(RateLimiter.Request(Name(source), earlier.requests[id].now), false);
    assert later.rates[r] == earlier.rates[r] && later.requests[id] == earlier.requests[id];
  }

  lemma {:induction false} CooldownDenialKept(earlier: State, later: State, id: nat, checked: Checked)
    requires Grows(earlier, later) && CooldownDenied(earlier, id, checked)
    ensures CooldownDenied(later, id, checked)
  {
    var v :| 0 <= v < |earlier.cooldownVisits| && earlier.cooldownVisits[v] ==
      Visit(id, checked.cooldownKey.value, earlier.requests[id].now, false);
    assert later.cooldownVisits[v] == earlier.cooldownVisits[v] && later.requests[id] == earlier.requests[id];
  }

  lemma {:induction false} TicketKept(earlier: State, later: State, id: nat, envelopeId: string)
    requires Grows(earlier, later) && HasTicket(earlier, id, envelopeId)
    ensures HasTicket(later, id, envelopeId)
  {
    var t :| 0 <= t < |earlier.accepted| && earlier.accepted[t].origin.Http? && earlier.accepted[t].origin.id == id
             && earlier.accepted[t].job.envelope.id == envelopeId;
    assert later.accepted[t] == earlier.accepted[t];
  }

  lemma {:induction false} EarningKept(config: Config, earlier: State, later: State, id: nat, source: Source)
    requires Grows(earlier, later) && EarnedSome(config, earlier, id, source)
    ensures EarnedSome(config, later, id, source)
  {
    var rate, visit, job :| Earned(config, earlier, id, source, rate, visit, job);
    EarnedRemembered(config, earlier, later, id, source, rate, visit, job);
  }

  lemma {:induction false} RateAnswerExplained(config: Config, state: State, id: nat)
    requires Enabled(state, CheckRate(id))
    ensures var after := RateStep(config, state, id);
            after.phases[id].Done? ==> Explained(config, after, id, after.phases[id].response)
  {
    var after := RateStep(config, state, id);
    var source := Resolve(config, state.requests[id]);
    if source.Some? && !after.rates[|state.rates|].allowed {
      assert RateDenied(after, id, source.value);
    }
  }

  lemma {:induction false} DedupAnswerExplained(config: Config, state: State, id: nat)
    requires Justified(config, state) && Enabled(state, CheckDedup(id))
    ensures var after := DedupStep(config, state, id);
            after.phases[id].Done? ==> Explained(config, after, id, after.phases[id].response)
  {
    var after, phase := DedupStep(config, state, id), state.phases[id];
    assert PhaseJustified(config, state, id, phase);
    var checked := Precheck(config, phase.source, state.requests[id]);
    if checked.Ok? && !after.dedupVisits[|state.dedupVisits|].granted {
      assert DeniedDedup(config, after, id, |state.dedupVisits|);
    }
  }

  lemma {:induction false} CooldownAnswerExplained(config: Config, state: State, id: nat)
    requires Justified(config, state) && Enabled(state, CheckCooldown(id))
    ensures var after := CooldownStep(config, state, id);
            after.phases[id].Done? ==> Explained(config, after, id, after.phases[id].response)
  {
    var after, phase := CooldownStep(config, state, id), state.phases[id];
    assert PhaseJustified(config, state, id, phase);
    var last := |state.cooldownVisits|;
    if !after.cooldownVisits[last].granted {
      assert CooldownDenied(after, id, phase.checked);
    }
  }

  lemma {:induction false} QueueAnswerExplained(config: Config, state: State, id: nat)
    requires Justified(config, state) && Enabled(state, Enqueue(id))
    ensures var after := QueueStep(config, state, id); Explained(config, after, id, after.phases[id].response)
  {
    var after, phase := QueueStep(config, state, id), state.phases[id];
    assert PhaseJustified(config, state, id, phase);
    if HasRoom(config, state) {
      var t := |state.accepted|;
      assert after.accepted[t].origin.id == id && after.accepted[t].job == phase.job;
      assert HasTicket(after, id, phase.job.envelope.id);
    } else {
      EarnedRemembered(config, state, after, id, phase.source, phase.rate, phase.visit, phase.job);
      assert EarnedSome(config, after, id, phase.source);
    }
  }

  lemma {:induction false} NewAnswerExplained(config: Config, state: State, event: Event, id: nat)
    requires Justified(config, state) && Enabled(state, event)
    requires var after := Step(config, state, event);
             id < |after.phases| && after.phases[id].Done? && !(id < |state.phases| && state.phases[id].Done?)
    ensures id < |state.requests|
    ensures var after := Step(config, state, event); Explained(config, after, id, after.phases[id].response)
  {
    match event {
      case CheckRate(i) => RateAnswerExplained(config, state, i);
      case CheckDedup(i) => DedupAnswerExplained(config, state, i);
      case CheckCooldown(i) => CooldownAnswerExplained(config, state, i);
      case Enqueue(i) => QueueAnswerExplained(config, state, i);
      case _ =>
    }
  }

  lemma {:induction false} StepExplains(config: Config, state: State, event: Event)
    requires Justified(config, state) && AllExplained(config, state) && Enabled(state, event)
    ensures AllExplained(config, Step(config, state, event))
  {
    var after := Step(config, state, event);
    StepGrows(config, state, event);
    DoneStaysDone(config, state, event);
    forall id | 0 <= id < |after.phases| && after.phases[id].Done?
      ensures Explained(config, after, id, after.phases[id].response)
    {
      if id < |state.phases| && state.phases[id].Done? {
        ReasonKept(config, state, after, id, state.phases[id].response);
      } else {
        NewAnswerExplained(config, state, event, id);
      }
    }
  }

  lemma {:induction false} RunExplains(config: Config, before: State, events: seq<Event>, after: State)
    requires Invariant(config, before) && AllExplained(config, before) && Reaches(config, before, events, after)
    ensures AllExplained(config, after)
    decreases |events|
  {
    if events != [] {
      StepExplains(config, before, events[0]);
      RunKeepsInvariant(config, before, [events[0]], Step(config, before, events[0]));
      RunExplains(config, Step(config, before, events[0]), events[1..], after);
    }
  }

  /** In every interleaving each answer has its reason: at the path, the limiter, the checks, a lock or the queue. */
  lemma {:induction false} AnswersExplained(config: Config, events: seq<Event>, after: State, id: nat)
    requires Reaches(config, INIT, events, after) && id < |after.requests| == |after.phases| && after.phases[id].Done?
    ensures Explained(config, after, id, after.phases[id].response)
  {
    RunExplains(config, INIT, events, after);
  }
}
