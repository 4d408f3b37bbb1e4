/**
  The smash consumer over whole runs of one partition: polling, crashes at any point,
  asynchronous commits that may land late or never, and restarts.
 */
module SmashRun {
  import opened Wrappers
  import opened Kafka
  import opened Envelopes
  import opened Smash
  import opened Arithmetic
  import Json
  import Plugins

  /** One call of `process_message`; `finished` says that no crash cut it short. */
  datatype Call = Call(offset: nat, attempts: seq<Attempt>, dlq: seq<DlqRecord>, finished: bool)

  /** How far a call gets: to its end, or through `reached` attempts and perhaps the dead letter after them. */
  datatype Extent = Whole | CutShort(reached: nat, letterWritten: bool)

  datatype State = State(
    log: seq<Message>,
    position: Option<nat>,     // next offset to poll while running
    committed: Option<nat>,    // the group's stored offset
    requested: set<nat>,       // offsets ever passed to an asynchronous commit
    calls: seq<Call>,
    erred: set<nat>,           // offsets whose processing returned an error
    skipped: set<nat>)         // offsets passed over by the initial commit or a reset, without a finished call

  datatype Event =
    | Produce(message: Message)
    | Start
    | Poll(io: Io)
    | CrashDuring(io: Io, reached: nat, letterWritten: bool)    // a crash in the middle of a call
    | Crash
    | CommitLands(offset: nat)

  /** A group that may already have a stored offset; what lies below it is not this run's business. */
  function Init(log: seq<Message>, committed: Option<nat>): State {
    State(log, None, committed, {}, [], {}, if committed.Some? then UpTo(committed.value) else {})
  }

  ghost predicate Enabled(state: State, event: Event) {
    match event
    case Produce(_) => true
    case Start => state.position.None?
    case Poll(_) => state.position.Some? && state.position.value < |state.log|
    case CrashDuring(_, _, _) => state.position.Some? && state.position.value < |state.log|
    case Crash => state.position.Some?
    case CommitLands(offset) => offset in state.requested
  }

  /** The record of a call: all it does, or its first attempts and the letter only after the last of them. */
  ghost function CallOf(config: Config, message: Message, io: Io, offset: nat, extent: Extent): Call {
    var effects := Process(config, message, io);
    match extent
    case Whole => Call(offset, effects.attempts, effects.dlq, true)
    case CutShort(reached, letterWritten) =>
      Call(offset, effects.attempts[..Min(reached, |effects.attempts|)],
           if letterWritten && reached >= |effects.attempts| then effects.dlq else [], false)
  }

  ghost predicate Finished(state: State, offset: nat) {
    exists call :: call in state.calls && call.offset == offset && call.finished
  }

  /** One step. With no stored offset a start resets to the end of the log. */
  ghost function Step(config: Config, state: State, event: Event): State
    requires Enabled(state, event)
  {
    match event
    case Produce(message) => state.(log := state.log + [message])
    case Start =>
      (match state.committed
       case Some(offset) => state.(position := Some(offset))
       case None => state.(position := Some(|state.log|),
                           skipped := state.skipped
                                      + set o | o in UpTo(|state.log|) && !Finished(state, o)))
    case Poll(io) =>
      var p := state.position.value;
      var effects := Process(config, state.log[p], io);
      state.(position := Some(p + 1),
             calls := state.calls + [CallOf(config, state.log[p], io, p, Whole)],
             requested := state.requested + (if effects.commits then {p + 1} else {}),
             erred := state.erred + (if effects.failed then {p} else {}))
    case CrashDuring(io, reached, letterWritten) =>
      var p := state.position.value;
      var call := CallOf(config, state.log[p], io, p, CutShort(reached, letterWritten));
      state.(position := None, calls := state.calls + [call])
    case Crash => state.(position := None)
    case CommitLands(offset) => state.(committed := Some(offset))
  }

  /** The run is possible, and ends in `after`. */
  ghost predicate Reaches(config: Config, before: State, events: seq<Event>, after: State)
    decreases |events|
  {
    if events == [] then before == after
    else Enabled(before, events[0]) && Reaches(config, Step(config, before, events[0]), events[1..], after)
  }

  // ----- What may have become of an offset -----

  /** One call delivered every required destination of every matching route, plugins applied. */
  ghost predicate DeliveredBy(config: Config, topic: string, envelope: Envelope, call: Call) {
    var schedule := Schedule(config, topic, envelope);
    schedule != [] && RequiredReached(config, schedule, envelope, call.attempts)
  }

  ghost predicate Delivered(config: Config, state: State, offset: nat)
    requires offset < |state.log| && state.log[offset].payload.Parsed?
  {
    exists call :: call in state.calls && call.offset == offset
                   && DeliveredBy(config, state.log[offset].topic, state.log[offset].payload.envelope, call)
  }

  ghost predicate DeadLettered(state: State, offset: nat)
    requires offset < |state.log| && state.log[offset].payload.Parsed?
  {
    exists call, record :: call in state.calls && call.offset == offset && record in call.dlq
                           && record.envelope == state.log[offset].payload.envelope
  }

  /** A finished call found no destination for the message, and the policy is to drop such messages. */
  ghost predicate DiscardedByPolicy(config: Config, state: State, offset: nat)
    requires offset < |state.log| && state.log[offset].payload.Parsed?
  {
    && Finished(state, offset)
    && Schedule(config, state.log[offset].topic, state.log[offset].payload.envelope) == []
    && config.allowNoOutput && config.noOutputSink == Some(Discard)
  }

  ghost predicate Settled(config: Config, state: State, offset: nat) {
    && offset < |state.log|
    && state.log[offset].payload.Parsed?
    && (Delivered(config, state, offset) || DeadLettered(state, offset) || DiscardedByPolicy(config, state, offset))
  }

  ghost predicate AccountedFor(config: Config, state: State, offset: nat) {
    Settled(config, state, offset) || offset in state.erred || offset in state.skipped
  }

  ghost predicate AccountedBelow(config: Config, state: State, watermark: nat) {
    forall offset: nat :: offset < watermark ==> AccountedFor(config, state, offset)
  }

  ghost predicate Invariant(config: Config, state: State) {
    && (forall offset :: Finished(state, offset) ==> AccountedFor(config, state, offset))
    && (state.position.Some? ==> AccountedBelow(config, state, state.position.value))
    && (forall offset :: offset in state.requested ==> AccountedBelow(config, state, offset))
    && (state.committed.Some? ==> AccountedBelow(config, state, state.committed.value))
  }

  // ----- Nothing is forgotten -----

  /** `later` remembers everything `earlier` did. */
  ghost predicate Extends(earlier: State, later: State) {
    && earlier.log <= later.log
    && earlier.calls <= later.calls
    && earlier.erred <= later.erred
    && earlier.skipped <= later.skipped
  }

  lemma {:induction false} AccountedMonotone(config: Config, earlier: State, later: State, offset: nat)
    requires Extends(earlier, later) && AccountedFor(config, earlier, offset)
    ensures AccountedFor(config, later, offset)
  {
    if Settled(config, earlier, offset) {
      assert later.log[offset] == earlier.log[offset];
      assert forall call :: call in earlier.calls ==> call in later.calls;
    }
  }

  lemma {:induction false} BelowMonotone(config: Config, earlier: State, later: State, watermark: nat)
    requires Extends(earlier, later) && AccountedBelow(config, earlier, watermark)
    ensures AccountedBelow(config, later, watermark)
  {
    forall offset: nat | offset < watermark
      ensures AccountedFor(config, later, offset)
    {
      AccountedMonotone(config, earlier, later, offset);
    }
  }

  // ----- A processed offset is accounted for -----

  /** A finished call that returned no error settled its message. */
  lemma {:induction false} ProcessedIsSettled(config: Config, state: State, offset: nat, io: Io)
    requires offset < |state.log|
    requires var effects := Process(config, state.log[offset], io);
             && !effects.failed
             && Call(offset, effects.attempts, effects.dlq, true) in state.calls
    ensures Settled(config, state, offset)
  {
    var message := state.log[offset];
    var envelope := message.payload.envelope;
    var effects := Process(config, message, io);
    var call := Call(offset, effects.attempts, effects.dlq, true);
    assert Finished(state, offset);
    var matched := MatchedRoutes(config.routes, message.topic, envelope.eventType);
    DeliveryResolves(config, message.topic, matched, envelope, io.answers, io.dlq);
    if effects.dlq != [] {
      assert effects.dlq[0] in call.dlq;
    }
  }

  lemma {:induction false} RequiredDelivered(
    config: Config, schedule: seq<Slot>, envelope: Envelope, answers: seq<bool>, outcome: SendOutcome, k: nat)
    requires k < |schedule| && schedule[k].required
    requires DeliverSchedule(config, schedule, envelope, answers, outcome).verdict == Commit
    ensures var attempts := DeliverSchedule(config, schedule, envelope, answers, outcome).attempts;
            var slot := schedule[k];
            && k < |attempts|
            && attempts[k] ==
               Attempt(slot, Some(Plugins.Transformed(PluginsFor(config, slot.adapterId), envelope)), true)
  {
    ScheduleFollowed(config, schedule, envelope, answers, outcome);
    ScheduleDecides(config, schedule, envelope, answers, outcome);
    ScheduleAttemptAt(config, schedule, envelope, answers, outcome, k);
    AttemptSeesOriginal(config, envelope, schedule[k], Answer(answers, k));
  }

  /** Every required slot has a successful attempt with its adapter's plugins applied. */
  ghost predicate RequiredReached(config: Config, schedule: seq<Slot>, envelope: Envelope, attempts: seq<Attempt>) {
    forall slot :: slot in schedule && slot.required ==>
      Attempt(slot, Some(Plugins.Transformed(PluginsFor(config, slot.adapterId), envelope)), true) in attempts
  }

  lemma {:induction false} CommitReachesRequired(
    config: Config, schedule: seq<Slot>, envelope: Envelope, answers: seq<bool>, outcome: SendOutcome)
    requires DeliverSchedule(config, schedule, envelope, answers, outcome).verdict == Commit
    ensures RequiredReached(config, schedule, envelope,
                            DeliverSchedule(config, schedule, envelope, answers, outcome).attempts)
  {
    var attempts := DeliverSchedule(config, schedule, envelope, answers, outcome).attempts;
    forall slot | slot in schedule && slot.required
      ensures Attempt(slot, Some(Plugins.Transformed(PluginsFor(config, slot.adapterId), envelope)), true) in attempts
    {
      var k :| 0 <= k < |schedule| && schedule[k] == slot;
      RequiredDelivered(config, schedule, envelope, answers, outcome, k);
      assert attempts[k] in attempts;
    }
  }

  /** How a delivery without an error leaves its message. */
  ghost predicate Resolved(config: Config, schedule: seq<Slot>, envelope: Envelope, d: Delivery) {
    || (d.dlq != [] && d.dlq[0].envelope == envelope)
    || (schedule == [] && config.allowNoOutput && config.noOutputSink == Some(Discard))
    || (schedule != [] && RequiredReached(config, schedule, envelope, d.attempts))
  }

  lemma {:induction false} ScheduleResolves(
    config: Config, schedule: seq<Slot>, envelope: Envelope, answers: seq<bool>, outcome: SendOutcome)
    requires schedule != []
    requires !DeliverSchedule(config, schedule, envelope, answers, outcome).verdict.Failed?
    ensures Resolved(config, schedule, envelope, DeliverSchedule(config, schedule, envelope, answers, outcome))
  {
    if DeliverSchedule(config, schedule, envelope, answers, outcome).verdict == Commit {
      CommitReachesRequired(config, schedule, envelope, answers, outcome);
    } else {
      ScheduleDecides(config, schedule, envelope, answers, outcome);
    }
  }

  lemma {:induction false} NoOutputResolves(config: Config, envelope: Envelope, reason: Reason, outcome: SendOutcome)
    requires !NoOutputDelivery(config, envelope, reason, outcome).verdict.Failed?
    ensures Resolved(config, [], envelope, NoOutputDelivery(config, envelope, reason, outcome))
  {}

  lemma {:induction false} DeliveryResolves(config: Config, topic: string, matched: seq<Route>, envelope: Envelope,
                                            answers: seq<bool>, outcome: SendOutcome)
    requires !DeliverTo(config, topic, matched, envelope, answers, outcome).verdict.Failed?
    ensures Resolved(config, Flatten(matched), envelope, DeliverTo(config, topic, matched, envelope, answers, outcome))
  {
    if matched == [] {
      NoOutputResolves(config, envelope, NoMatchingRoute(topic, envelope.eventType), outcome);
    } else if Flatten(matched) == [] {
      NoOutputResolves(config, envelope, NoActiveDestination(topic, envelope.eventType), outcome);
    } else {
      ScheduleResolves(config, Flatten(matched), envelope, answers, outcome);
    }
  }

  // ----- Every step, every run -----

  lemma {:induction false} StepKeepsInvariant(config: Config, state: State, event: Event)
    requires Invariant(config, state) && Enabled(state, event)
    ensures Invariant(config, Step(config, state, event))
  {
    var after := Step(config, state, event);
    assert Extends(state, after);
    forall w: nat | AccountedBelow(config, state, w)
      ensures AccountedBelow(config, after, w)
    {
      BelowMonotone(config, state, after, w);
    }
    if event.Poll? {
      PollAccounts(config, state, event.io);
    }
    forall offset | Finished(after, offset)
      ensures AccountedFor(config, after, offset)
    {
      if Finished(state, offset) {
        AccountedMonotone(config, state, after, offset);
      } else {
        NewlyFinished(config, state, event, offset);
      }
    }
  }

  /** Only a poll finishes a call, and for the polled offset. */
  lemma {:induction false} NewlyFinished(config: Config, state: State, event: Event, offset: nat)
    requires Enabled(state, event) && Finished(Step(config, state, event), offset) && !Finished(state, offset)
    ensures event.Poll? && offset == state.position.value
  {
    var call :| call in Step(config, state, event).calls && call.offset == offset && call.finished;
    assert call !in state.calls;
  }

  lemma {:induction false} PollAccounts(config: Config, state: State, io: Io)
    requires Enabled(state, Poll(io)) && AccountedBelow(config, state, state.position.value)
    ensures AccountedBelow(config, Step(config, state, Poll(io)), state.position.value + 1)
  {
    var p, after := state.position.value, Step(config, state, Poll(io));
    assert Extends(state, after);
    BelowMonotone(config, state, after, p);
    var effects := Process(config, state.log[p], io);
    if !effects.failed {
      assert Call(p, effects.attempts, effects.dlq, true) in after.calls;
      ProcessedIsSettled(config, after, p, io);
    }
    assert AccountedFor(config, after, p);
  }

  lemma {:induction false} RunKeepsInvariant(config: Config, before: State, events: seq<Event>, after: State)
    requires Invariant(config, before) && Reaches(config, before, events, after)
    ensures Invariant(config, after)
    decreases |events|
  {
    if events != [] {
      StepKeepsInvariant(config, before, events[0]);
      RunKeepsInvariant(config, Step(config, before, events[0]), events[1..], after);
    }
  }

  /** Whatever happens, no offset below the committed position is unaccounted for. */
  lemma {:induction false} CommittedIsAccounted(
    config: Config, log: seq<Message>, stored: Option<nat>, events: seq<Event>, after: State, offset: nat)
    requires Reaches(config, Init(log, stored), events, after)
    requires after.committed.Some? && offset < after.committed.value
    ensures AccountedFor(config, after, offset)
  {
    assert Invariant(config, Init(log, stored));
    RunKeepsInvariant(config, Init(log, stored), events, after);
  }

  /** Where no processing erred and nothing was skipped, nothing below the watermark is lost. */
  lemma {:induction false} ErrorFreeRunLosesNothing(
    config: Config, log: seq<Message>, stored: Option<nat>, events: seq<Event>, after: State, offset: nat)
    requires Reaches(config, Init(log, stored), events, after)
    requires after.committed.Some? && offset < after.committed.value
    requires offset !in after.erred && offset !in after.skipped
    ensures Settled(config, after, offset)
  {
    CommittedIsAccounted(config, log, stored, events, after, offset);
  }

  // ----- Exactly when a call errs -----

  /** When a delivery returns an error, in terms of its schedule and what the world answered. */
  ghost predicate DeliveryErrs(config: Config, schedule: seq<Slot>, envelope: Envelope, io: Io) {
    if schedule == [] then
      || !config.allowNoOutput
      || config.noOutputSink.None?
      || (config.noOutputSink == Some(Dlq) && !io.dlq.Acked?)
      || !io.commitAccepted
    else if Cut(config, envelope, schedule, io.answers, 0) < |schedule| then !io.dlq.Acked?
    else !io.commitAccepted
  }

  lemma {:induction false} DeliveryErrsExactly(
    config: Config, topic: string, matched: seq<Route>, envelope: Envelope, io: Io)
    ensures var verdict := DeliverTo(config, topic, matched, envelope, io.answers, io.dlq).verdict;
            verdict.Failed? || (verdict == Commit && !io.commitAccepted) <==>
            DeliveryErrs(config, Flatten(matched), envelope, io)
  {}

  /** Processing a message errs exactly when it is undecodable or its delivery errs. */
  lemma {:induction false} ProcessFailsExactly(config: Config, message: Message, io: Io)
    ensures Process(config, message, io).failed <==>
            || !message.payload.Parsed?
            || DeliveryErrs(config, Schedule(config, message.topic, message.payload.envelope),
                            message.payload.envelope, io)
  {
    if message.payload.Parsed? {
      var envelope := message.payload.envelope;
      var matched := MatchedRoutes(config.routes, message.topic, envelope.eventType);
      DeliveryErrsExactly(config, message.topic, matched, envelope, io);
    }
  }

  // ----- Exactly when an offset is settled -----

  predicate Written(outcome: SendOutcome) { outcome.Acked? || outcome.written }

  /** Every required slot from `n` on repeats a slot before `n`. */
  ghost predicate Repeats(schedule: seq<Slot>, n: nat)
    requires n <= |schedule|
  {
    forall k :: n <= k < |schedule| && schedule[k].required ==> schedule[k] in schedule[..n]
  }

  /**
    A call settles its message, said of the schedule and what the world answered. With
    nothing scheduled the call must finish and the policy discard the message, or the
    message get into the dead-letter topic. Otherwise the call gets past all required slots
    (or past one of each, if a route repeats a destination), or past the first required
    failure to a written dead letter.
   */
  ghost predicate Settles(config: Config, message: Message, io: Io, extent: Extent) {
    message.payload.Parsed? &&
    var envelope := message.payload.envelope;
    var schedule := Schedule(config, message.topic, envelope);
    if schedule == [] then
      && config.allowNoOutput
      && (|| (config.noOutputSink == Some(Discard) && extent.Whole?)
          || (config.noOutputSink == Some(Dlq) && GetsLetter(extent, 0) && Written(io.dlq)))
    else
      var cut := Cut(config, envelope, schedule, io.answers, 0);
      || Repeats(schedule, Reached(extent, cut))
      || (cut < |schedule| && GetsLetter(extent, cut + 1) && Written(io.dlq))
  }

  /** How many of the first `n` attempts the call makes. */
  function Reached(extent: Extent, n: nat): (k: nat)
    ensures k <= n
  {
    if extent.Whole? then n else Min(extent.reached, n)
  }

  /** The call makes `n` attempts and goes on to the dead letter. */
  predicate GetsLetter(extent: Extent, n: nat) { extent.Whole? || (extent.letterWritten && extent.reached >= n) }

  /** The step gives `offset` a call that settles it. */
  ghost predicate StepSettles(config: Config, state: State, event: Event, offset: nat)
    requires Enabled(state, event)
  {
    match event
    case Poll(io) =>
      offset == state.position.value && Settles(config, state.log[offset], io, Whole)
    case CrashDuring(io, reached, letterWritten) =>
      offset == state.position.value && Settles(config, state.log[offset], io, CutShort(reached, letterWritten))
    case _ => false
  }

  /** Among the attempts before the cut all required ones succeed; the one at the cut does not. */
  lemma {:induction false} AttemptsBeforeCut(
    config: Config, schedule: seq<Slot>, envelope: Envelope, answers: seq<bool>, outcome: SendOutcome, k: nat)
    requires k < |DeliverSchedule(config, schedule, envelope, answers, outcome).attempts|
    ensures k < |schedule|
    ensures var a := DeliverSchedule(config, schedule, envelope, answers, outcome).attempts[k];
            var cut := Cut(config, envelope, schedule, answers, 0);
            && k <= cut && a.slot == schedule[k]
            && (schedule[k].required ==> (a.ok <==> k < cut))
            && (a.ok ==> a == Attempt(schedule[k], Some(Plugins.Transformed(
                                        PluginsFor(config, schedule[k].adapterId), envelope)), true))
  {
    ScheduleAttemptAt(config, schedule, envelope, answers, outcome, k);
    AttemptSeesOriginal(config, envelope, schedule[k], Answer(answers, k));
  }

  lemma {:induction false} RepeatsReach(
    config: Config, schedule: seq<Slot>, envelope: Envelope, answers: seq<bool>, outcome: SendOutcome, m: nat)
    requires m <= |DeliverSchedule(config, schedule, envelope, answers, outcome).attempts|
    requires Repeats(schedule, Min(m, Cut(config, envelope, schedule, answers, 0)))
    ensures RequiredReached(config, schedule, envelope,
                            DeliverSchedule(config, schedule, envelope, answers, outcome).attempts[..m])
  {
    var all := DeliverSchedule(config, schedule, envelope, answers, outcome).attempts;
    var n := Min(m, Cut(config, envelope, schedule, answers, 0));
    forall slot | slot in schedule && slot.required
      ensures Attempt(slot, Some(Plugins.Transformed(PluginsFor(config, slot.adapterId), envelope)), true) in all[..m]
    {
      var k :| 0 <= k < |schedule| && schedule[k] == slot;
      if k >= n {
        k :| 0 <= k < n && schedule[..n][k] == slot;
      }
      AttemptsBeforeCut(config, schedule, envelope, answers, outcome, k);
      assert all[..m][k] == all[k];
    }
  }

  lemma {:induction false} ReachRepeats(
    config: Config, schedule: seq<Slot>, envelope: Envelope, answers: seq<bool>, outcome: SendOutcome, m: nat)
    requires m <= |DeliverSchedule(config, schedule, envelope, answers, outcome).attempts|
    requires RequiredReached(config, schedule, envelope,
                             DeliverSchedule(config, schedule, envelope, answers, outcome).attempts[..m])
    ensures Repeats(schedule, Min(m, Cut(config, envelope, schedule, answers, 0)))
  {
    var all := DeliverSchedule(config, schedule, envelope, answers, outcome).attempts;
    var n := Min(m, Cut(config, envelope, schedule, answers, 0));
    forall k | n <= k < |schedule| && schedule[k].required
      ensures schedule[k] in schedule[..n]
    {
      var slot := schedule[k];
      var wanted := Attempt(slot, Some(Plugins.Transformed(PluginsFor(config, slot.adapterId), envelope)), true);
      assert slot in schedule && wanted in all[..m];
      var j :| 0 <= j < m && all[..m][j] == wanted;
      AttemptsBeforeCut(config, schedule, envelope, answers, outcome, j);
      assert schedule[..n][j] == slot;
    }
  }

  /** What one call's record shows. */
  ghost predicate CallSettles(config: Config, message: Message, call: Call) {
    message.payload.Parsed? &&
    var envelope := message.payload.envelope;
    var schedule := Schedule(config, message.topic, envelope);
    || (schedule == [] && config.allowNoOutput && config.noOutputSink == Some(Discard) && call.finished)
    || (schedule != [] && RequiredReached(config, schedule, envelope, call.attempts))
    || Lettered(call.dlq, envelope)
  }

  ghost predicate Lettered(letters: seq<DlqRecord>, envelope: Envelope) {
    exists record :: record in letters && record.envelope == envelope
  }

  /** The letters and attempts of a delivery that a call of this extent gets to. */
  ghost function LettersWithin(d: Delivery, extent: Extent): seq<DlqRecord> {
    if GetsLetter(extent, |d.attempts|) then d.dlq else []
  }

  ghost function AttemptsWithin(d: Delivery, extent: Extent): seq<Attempt> {
    d.attempts[..Reached(extent, |d.attempts|)]
  }

  lemma {:induction false} ScheduleSettlesExactly(
    config: Config, schedule: seq<Slot>, envelope: Envelope, io: Io, extent: Extent)
    requires schedule != []
    ensures var d := DeliverSchedule(config, schedule, envelope, io.answers, io.dlq);
            var cut := Cut(config, envelope, schedule, io.answers, 0);
            RequiredReached(config, schedule, envelope, AttemptsWithin(d, extent))
            || Lettered(LettersWithin(d, extent), envelope) <==>
            Repeats(schedule, Reached(extent, cut))
            || (cut < |schedule| && GetsLetter(extent, cut + 1) && Written(io.dlq))
  {
    var d := DeliverSchedule(config, schedule, envelope, io.answers, io.dlq);
    var cut, m := Cut(config, envelope, schedule, io.answers, 0), Reached(extent, |d.attempts|);
    assert Min(m, cut) == Reached(extent, cut);
    if RequiredReached(config, schedule, envelope, d.attempts[..m]) {
      ReachRepeats(config, schedule, envelope, io.answers, io.dlq, m);
    }
    if Repeats(schedule, Reached(extent, cut)) {
      RepeatsReach(config, schedule, envelope, io.answers, io.dlq, m);
    }
    ScheduleLetters(config, schedule, envelope, io, extent);
  }

  lemma {:induction false} ScheduleLetters(
    config: Config, schedule: seq<Slot>, envelope: Envelope, io: Io, extent: Extent)
    requires schedule != []
    ensures var d := DeliverSchedule(config, schedule, envelope, io.answers, io.dlq);
            var cut := Cut(config, envelope, schedule, io.answers, 0);
            Lettered(LettersWithin(d, extent), envelope) <==>
            cut < |schedule| && GetsLetter(extent, cut + 1) && Written(io.dlq)
  {
    var d := DeliverSchedule(config, schedule, envelope, io.answers, io.dlq);
    var cut := Cut(config, envelope, schedule, io.answers, 0);
    if cut < |schedule| && GetsLetter(extent, cut + 1) && Written(io.dlq) {
      assert d.dlq[0] in d.dlq && d.dlq[0].envelope == envelope;
    }
  }

  lemma {:induction false} NoOutputLetters(
    config: Config, envelope: Envelope, reason: Reason, outcome: SendOutcome, extent: Extent)
    ensures Lettered(LettersWithin(NoOutputDelivery(config, envelope, reason, outcome), extent), envelope) <==>
            config.allowNoOutput && config.noOutputSink == Some(Dlq) && GetsLetter(extent, 0) && Written(outcome)
  {
    var d := NoOutputDelivery(config, envelope, reason, outcome);
    if config.allowNoOutput && config.noOutputSink == Some(Dlq) && GetsLetter(extent, 0) && Written(outcome) {
      assert d.dlq[0] in d.dlq && d.dlq[0].envelope == envelope;
    }
  }

  lemma {:induction false} DeliverySettlesExactly(
    config: Config, topic: string, matched: seq<Route>, envelope: Envelope, io: Io, extent: Extent)
    ensures var d := DeliverTo(config, topic, matched, envelope, io.answers, io.dlq);
            var schedule := Flatten(matched);
            var lettered := Lettered(LettersWithin(d, extent), envelope);
            if schedule == [] then
              lettered <==>
              config.allowNoOutput && config.noOutputSink == Some(Dlq) && GetsLetter(extent, 0) && Written(io.dlq)
            else
              var cut := Cut(config, envelope, schedule, io.answers, 0);
              RequiredReached(config, schedule, envelope, AttemptsWithin(d, extent)) || lettered <==>
              Repeats(schedule, Reached(extent, cut))
              || (cut < |schedule| && GetsLetter(extent, cut + 1) && Written(io.dlq))
  {
    if matched == [] {
      NoOutputLetters(config, envelope, NoMatchingRoute(topic, envelope.eventType), io.dlq, extent);
    } else if Flatten(matched) == [] {
      NoOutputLetters(config, envelope, NoActiveDestination(topic, envelope.eventType), io.dlq, extent);
    } else {
      ScheduleSettlesExactly(config, Flatten(matched), envelope, io, extent);
    }
  }

  /** A call of any extent settles its message exactly on the condition above. */
  lemma {:induction false} CallSettlesExactly(config: Config, message: Message, io: Io, offset: nat, extent: Extent)
    ensures CallSettles(config, message, CallOf(config, message, io, offset, extent)) <==>
            Settles(config, message, io, extent)
  {
    if message.payload.Parsed? {
      var envelope := message.payload.envelope;
      var matched := MatchedRoutes(config.routes, message.topic, envelope.eventType);
      DeliverySettlesExactly(config, message.topic, matched, envelope, io, extent);
      RecordedWithin(config, message, io, offset, extent);
    }
  }

  lemma {:induction false} RecordedWithin(config: Config, message: Message, io: Io, offset: nat, extent: Extent)
    requires message.payload.Parsed?
    ensures var d := Deliver(config, message.topic, message.payload.envelope, io.answers, io.dlq);
            var call := CallOf(config, message, io, offset, extent);
            && call.attempts == AttemptsWithin(d, extent) && call.dlq == LettersWithin(d, extent)
            && call.finished == extent.Whole?
  {}

  /** An offset is settled exactly when one of its calls settled it. */
  lemma {:induction false} SettledByCalls(config: Config, state: State, offset: nat)
    requires offset < |state.log|
    ensures Settled(config, state, offset) <==>
            exists call :: call in state.calls && call.offset == offset
                           && CallSettles(config, state.log[offset], call)
  {
    var message := state.log[offset];
    if call :| call in state.calls && call.offset == offset && CallSettles(config, message, call) {
      assert call.finished ==> Finished(state, offset);
    }
  }

  /** A step that adds one call settles what that call settles. */
  lemma {:induction false} AddedCallSettles(config: Config, state: State, after: State, call: Call, offset: nat)
    requires after.log == state.log && after.calls == state.calls + [call] && offset < |state.log|
    ensures Settled(config, after, offset) <==>
            Settled(config, state, offset) || (call.offset == offset && CallSettles(config, state.log[offset], call))
  {
    SettledByCalls(config, state, offset);
    SettledByCalls(config, after, offset);
    assert forall c :: c in after.calls <==> c in state.calls || c == call;
  }

  lemma {:induction false} SameCallsSettle(config: Config, state: State, after: State, offset: nat)
    requires state.log <= after.log && after.calls == state.calls && offset < |state.log|
    ensures Settled(config, after, offset) <==> Settled(config, state, offset)
  {
    SettledByCalls(config, state, offset);
    SettledByCalls(config, after, offset);
  }

  /** Calls are about logged messages. */
  ghost predicate CallsLogged(state: State) { forall call :: call in state.calls ==> call.offset < |state.log| }

  lemma {:induction false} StepSettlesExactly(config: Config, state: State, event: Event, offset: nat)
    requires CallsLogged(state) && Enabled(state, event)
    ensures CallsLogged(Step(config, state, event))
    ensures Settled(config, Step(config, state, event), offset) <==>
            Settled(config, state, offset) || StepSettles(config, state, event, offset)
  {
    var after := Step(config, state, event);
    if event.Poll? || event.CrashDuring? {
      var p := state.position.value;
      var extent := if event.Poll? then Whole else CutShort(event.reached, event.letterWritten);
      if offset < |state.log| {
        CallSettlesExactly(config, state.log[p], event.io, p, extent);
        AddedCallSettles(config, state, after, CallOf(config, state.log[p], event.io, p, extent), offset);
      }
    } else if offset < |state.log| {
      SameCallsSettle(config, state, after, offset);
    } else if offset < |after.log| {
      SettledByCalls(config, after, offset);
    }
  }

  /** Some step of the run settles the offset. */
  ghost predicate SettledDuring(config: Config, before: State, events: seq<Event>, offset: nat)
    decreases |events|
  {
    events != [] && Enabled(before, events[0])
    && (StepSettles(config, before, events[0], offset)
        || SettledDuring(config, Step(config, before, events[0]), events[1..], offset))
  }

  /**
    Over every run an offset ends settled exactly when some step settles it: the condition
    speaks only of the schedule, the adapters' answers and what the dead-letter topic took.
   */
  lemma {:induction false} RunSettlesExactly(
    config: Config, before: State, events: seq<Event>, after: State, offset: nat)
    requires CallsLogged(before) && Reaches(config, before, events, after)
    ensures Settled(config, after, offset) <==>
            Settled(config, before, offset) || SettledDuring(config, before, events, offset)
    decreases |events|
  {
    if events != [] {
      StepSettlesExactly(config, before, events[0], offset);
      RunSettlesExactly(config, Step(config, before, events[0]), events[1..], after, offset);
    }
  }

  // ----- What the guarantee cannot be -----

  /** Poll two messages, then let the second one's commit land. */
  function Overtaking(io1: Io, io2: Io, p: nat): seq<Event> {
    [Poll(io1)] + ([Poll(io2)] + [CommitLands(p + 2)])
  }

  /**
    From any state, the next message's commit also covers a message that asked for none,
    and that message ends settled exactly when it was before or its own call settled it.
   */
  lemma {:induction false} LaterCommitOvertakes(config: Config, before: State, p: nat, io1: Io, io2: Io)
    returns (after: State)
    requires before.position == Some(p) && p + 1 < |before.log| && CallsLogged(before)
    requires !Process(config, before.log[p], io1).commits && Process(config, before.log[p + 1], io2).commits
    ensures Reaches(config, before, Overtaking(io1, io2, p), after)
    ensures after.committed == Some(p + 2) && after.log == before.log
    ensures Settled(config, after, p) <==> Settled(config, before, p) || Settles(config, before.log[p], io1, Whole)
  {
    var s1 := PollOnce(config, before, io1, p, p);
    var s2 := PollOnce(config, s1, io2, p + 1, p);
    after := s2.(committed := Some(p + 2));
    SameCallsSettle(config, s2, after, p);
    ReachesOne(config, s2, CommitLands(p + 2));
    assert Reaches(config, s1, [Poll(io2)] + [CommitLands(p + 2)], after);
  }

  /** One poll as a step to put in front of any run from where it ends. */
  lemma {:induction false} PollOnce(config: Config, state: State, io: Io, p: nat, offset: nat) returns (after: State)
    requires CallsLogged(state) && state.position == Some(p) && p < |state.log|
    ensures CallsLogged(after) && after.log == state.log && after.position == Some(p + 1)
    ensures Process(config, state.log[p], io).commits ==> p + 1 in after.requested
    ensures Settled(config, after, offset) <==>
            Settled(config, state, offset) || (offset == p && Settles(config, state.log[p], io, Whole))
    ensures forall events, last :: Reaches(config, after, events, last) ==>
              Reaches(config, state, [Poll(io)] + events, last)
  {
    after := Step(config, state, Poll(io));
    StepSettlesExactly(config, state, Poll(io), offset);
    forall events, last | Reaches(config, after, events, last)
      ensures Reaches(config, state, [Poll(io)] + events, last)
    {
      ReachesCons(config, state, Poll(io), events, last);
    }
  }

  lemma {:induction false} ReachesOne(config: Config, before: State, event: Event)
    requires Enabled(before, event)
    ensures Reaches(config, before, [event], Step(config, before, event))
  {
    assert [event][1..] == [];
  }

  lemma {:induction false} ReachesCons(config: Config, before: State, event: Event, events: seq<Event>, after: State)
    requires Enabled(before, event) && Reaches(config, Step(config, before, event), events, after)
    ensures Reaches(config, before, [event] + events, after)
  {
    assert ([event] + events)[1..] == events;
  }

  /** So "below the committed position" does not imply "settled": an undecodable message is passed over. */
  lemma {:induction false} CommittedButNeverSettled(envelope: Envelope)
    returns (config: Config, log: seq<Message>, events: seq<Event>, after: State)
    ensures Reaches(config, Init(log, Some(0)), events, after)
    ensures after.committed == Some(2) && !Settled(config, after, 0)
  {
    config := Config([], {}, map[], true, Some(Discard));
    var first, second := Message("t", Malformed), Message("t", Parsed(envelope));
    var io := Io([], Acked, true);
    assert MatchedRoutes(config.routes, "t", envelope.eventType) == [];
    log, events := [first, second], [Start] + Overtaking(io, io, 0);
    var started := Step(config, Init(log, Some(0)), Start);
    after := LaterCommitOvertakes(config, started, 0, io, io);
    ReachesCons(config, Init(log, Some(0)), Start, Overtaking(io, io, 0), after);
  }

  // ----- When it commits -----

  /** The slot's adapter exists, its plugins let the payload through, and it answers yes. */
  ghost predicate Succeeds(config: Config, envelope: Envelope, slot: Slot, answer: bool) {
    && slot.adapterId in config.adapters && answer
    && (slot.adapterId in config.adapterPlugins ==>
          !exists pointer :: Plugins.RequirePayloadField(pointer) in config.adapterPlugins[slot.adapterId]
                             && Json.Pointer(envelope.payload, pointer) == None)
  }

  /** A commit is asked for and accepted, said of the schedule and the world's answers. */
  ghost predicate Commits(config: Config, message: Message, io: Io) {
    message.payload.Parsed? && io.commitAccepted &&
    var envelope := message.payload.envelope;
    var schedule := Schedule(config, message.topic, envelope);
    if schedule == [] then
      config.allowNoOutput
      && (config.noOutputSink == Some(Discard) || (config.noOutputSink == Some(Dlq) && io.dlq == Acked))
    else
      forall k :: 0 <= k < |schedule| && schedule[k].required ==>
        k < |io.answers| && Succeeds(config, envelope, schedule[k], io.answers[k])
  }

  lemma {:induction false} AttemptSucceedsExactly(config: Config, envelope: Envelope, slot: Slot, answer: bool)
    ensures AttemptOn(config, envelope, slot, answer).ok <==> Succeeds(config, envelope, slot, answer)
  {
    var plugins := PluginsFor(config, slot.adapterId);
    if Plugins.Rejects(plugins, envelope.payload) {
      var i :| 0 <= i < |plugins| && Plugins.Demands(plugins[i], envelope.payload);
      assert Plugins.RequirePayloadField(plugins[i].pointer) in plugins;
    }
  }

  lemma {:induction false} ScheduleCommitsExactly(
    config: Config, schedule: seq<Slot>, envelope: Envelope, answers: seq<bool>, outcome: SendOutcome)
    ensures DeliverSchedule(config, schedule, envelope, answers, outcome).verdict == Commit <==>
            forall k :: 0 <= k < |schedule| && schedule[k].required ==>
              k < |answers| && Succeeds(config, envelope, schedule[k], answers[k])
  {
    forall k | 0 <= k < |schedule| && schedule[k].required
      ensures Blocks(AttemptOn(config, envelope, schedule[k], Answer(answers, k))) <==>
              !(k < |answers| && Succeeds(config, envelope, schedule[k], answers[k]))
    {
      AttemptSucceedsExactly(config, envelope, schedule[k], Answer(answers, k));
    }
  }

  /** Processing asks for an accepted commit exactly then. */
  lemma {:induction false} CommitsExactly(config: Config, message: Message, io: Io)
    ensures Process(config, message, io).commits <==> Commits(config, message, io)
  {
    if message.payload.Parsed? {
      var envelope := message.payload.envelope;
      var matched := MatchedRoutes(config.routes, message.topic, envelope.eventType);
      DeliveryCommitsExactly(config, message.topic, matched, envelope, io);
    }
  }

  lemma {:induction false} DeliveryCommitsExactly(
    config: Config, topic: string, matched: seq<Route>, envelope: Envelope, io: Io)
    ensures var schedule := Flatten(matched);
            DeliverTo(config, topic, matched, envelope, io.answers, io.dlq).verdict == Commit <==>
            if schedule == [] then
              config.allowNoOutput
              && (config.noOutputSink == Some(Discard) || (config.noOutputSink == Some(Dlq) && io.dlq == Acked))
            else
              forall k :: 0 <= k < |schedule| && schedule[k].required ==>
                k < |io.answers| && Succeeds(config, envelope, schedule[k], io.answers[k])
  {
    if Flatten(matched) != [] {
      ScheduleCommitsExactly(config, Flatten(matched), envelope, io.answers, io.dlq);
    }
  }

  /** Some step of the run polls the message before `offset` and commits it. */
  ghost predicate CommittedDuring(config: Config, before: State, events: seq<Event>, offset: nat)
    decreases |events|
  {
    events != [] && Enabled(before, events[0])
    && (|| (events[0].Poll? && before.position.value + 1 == offset
            && Commits(config, before.log[before.position.value], events[0].io))
        || CommittedDuring(config, Step(config, before, events[0]), events[1..], offset))
  }

  lemma {:induction false} StepRequestsExactly(config: Config, state: State, event: Event, offset: nat)
    requires Enabled(state, event)
    ensures offset in Step(config, state, event).requested <==>
            || offset in state.requested
            || (event.Poll? && state.position.value + 1 == offset
                && Commits(config, state.log[state.position.value], event.io))
  {
    if event.Poll? {
      CommitsExactly(config, state.log[state.position.value], event.io);
    }
  }

  /** Over every run, a commit of an offset is asked for exactly when the message before it is polled and commits. */
  lemma {:induction false} RunRequestsExactly(
    config: Config, before: State, events: seq<Event>, after: State, offset: nat)
    requires Reaches(config, before, events, after)
    ensures offset in after.requested <==>
            offset in before.requested || CommittedDuring(config, before, events, offset)
    decreases |events|
  {
    if events != [] {
      StepRequestsExactly(config, before, events[0], offset);
      RunRequestsExactly(config, Step(config, before, events[0]), events[1..], after, offset);
    }
  }

  // ----- Why a message is dead-lettered -----

  /** What the reason of a dead letter says. */
  ghost predicate Names(topic: string, eventType: string, matched: seq<Route>, schedule: seq<Slot>, reason: Reason) {
    if matched == [] then reason == NoMatchingRoute(topic, eventType)
    else if schedule == [] then reason == NoActiveDestination(topic, eventType)
    else exists slot :: slot in schedule && slot.required && reason == RequiredFailed(slot.adapterId, slot.routeId)
  }

  lemma {:induction false} ScheduleLetterNames(
    config: Config, schedule: seq<Slot>, envelope: Envelope, answers: seq<bool>, outcome: SendOutcome, i: nat)
    requires i < |DeliverSchedule(config, schedule, envelope, answers, outcome).dlq|
    ensures var letter := DeliverSchedule(config, schedule, envelope, answers, outcome).dlq[i];
            && letter.envelope == envelope
            && exists slot :: slot in schedule && slot.required
                              && letter.reason == RequiredFailed(slot.adapterId, slot.routeId)
  {
    var cut := Cut(config, envelope, schedule, answers, 0);
    assert schedule[cut] in schedule;
  }

  lemma {:induction false} DeliveryLetterNames(
    config: Config, topic: string, matched: seq<Route>, envelope: Envelope, io: Io, i: nat)
    requires i < |DeliverTo(config, topic, matched, envelope, io.answers, io.dlq).dlq|
    ensures var letter := DeliverTo(config, topic, matched, envelope, io.answers, io.dlq).dlq[i];
            letter.envelope == envelope && Names(topic, envelope.eventType, matched, Flatten(matched), letter.reason)
  {
    if matched == [] {
      NoOutputLetter(config, envelope, NoMatchingRoute(topic, envelope.eventType), io.dlq, i);
    } else if Flatten(matched) == [] {
      NoOutputLetter(config, envelope, NoActiveDestination(topic, envelope.eventType), io.dlq, i);
    } else {
      assert DeliverTo(config, topic, matched, envelope, io.answers, io.dlq) ==
             DeliverSchedule(config, Flatten(matched), envelope, io.answers, io.dlq);
      ScheduleLetterNames(config, Flatten(matched), envelope, io.answers, io.dlq, i);
    }
  }

  lemma {:induction false} NoOutputLetter(
    config: Config, envelope: Envelope, reason: Reason, outcome: SendOutcome, i: nat)
    requires i < |NoOutputDelivery(config, envelope, reason, outcome).dlq|
    ensures NoOutputDelivery(config, envelope, reason, outcome).dlq[i] == DlqRecord(envelope, reason)
  {}

  /** A dead letter holds the message and names the missing route, the missing destinations, or the failed one. */
  lemma {:induction false} LetterNamesReason(config: Config, message: Message, io: Io, i: nat)
    requires i < |Process(config, message, io).dlq|
    ensures message.payload.Parsed?
    ensures var envelope, letter := message.payload.envelope, Process(config, message, io).dlq[i];
            && letter.envelope == envelope
            && Names(message.topic, envelope.eventType,
                     MatchedRoutes(config.routes, message.topic, envelope.eventType),
                     Schedule(config, message.topic, envelope), letter.reason)
  {
    var envelope := message.payload.envelope;
    var matched := MatchedRoutes(config.routes, message.topic, envelope.eventType);
    DeliveryLetterNames(config, message.topic, matched, envelope, io, i);
  }
}
