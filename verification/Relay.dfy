/**
  The relay: consume a partition, republish every message verbatim to the output topic
  and commit. Runs include crashes at any point, sends whose acknowledgement is lost, writes
  that land long after their send failed, late commits and restarts.
 */
module Relay {
  import opened Wrappers
  import opened Kafka
  import opened Retry
  import opened Arithmetic

  datatype Mode = Raw | EnvelopeOnly

  datatype Config = Config(mode: Mode, maxRetries: U32, backoffBase: U64, backoffMax: U64)

  /** A message; `isEnvelope` says whether its payload decodes as an event envelope. */
  datatype Message = Message(key: Option<seq<bv8>>, payload: Option<seq<bv8>>, isEnvelope: bool)

  /** A record on the output topic, with the input offset and the process life it came from. */
  datatype Record = Record(key: Option<seq<bv8>>, payload: seq<bv8>, offset: nat, life: nat)

  datatype Io = Io(outcomes: seq<SendOutcome>, commitAccepted: bool)

  datatype Outcome = Committed | DeferredNoCommit | PublishFailed | CommitFailed

  /** The loop declines the message before sending anything. */
  predicate Declines(config: Config, message: Message) {
    message.payload.None? || (config.mode.EnvelopeOnly? && !message.isEnvelope)
  }

  /** How many of the first `n` sends reached the output topic. */
  function Writes(outcomes: seq<SendOutcome>, n: nat): (writes: nat)
    ensures writes <= n
  {
    if n == 0 then 0
    else
      var reply := Reply(outcomes, n - 1);
      Writes(outcomes, n - 1) + if reply.Acked? || reply.written then 1 else 0
  }

  function OutcomeOf(config: Config, message: Message, io: Io): Outcome {
    if Declines(config, message) then DeferredNoCommit
    else if !Succeeds(config.maxRetries, io.outcomes) then PublishFailed
    else if io.commitAccepted then Committed else CommitFailed
  }

  function Copies(record: Record, n: nat): (copies: seq<Record>)
    ensures |copies| == n && forall c :: c in copies ==> c == record
  {
    seq(n, i => record)
  }

  /** The records a message leaves on the output topic after `n` sends. */
  function Appended(message: Message, offset: nat, life: nat, outcomes: seq<SendOutcome>, n: nat): seq<Record>
    requires message.payload.Some?
  {
    Copies(Record(message.key, message.payload.value, offset, life), Writes(outcomes, n))
  }

  /** The records of `n` sends that failed without being written yet; the broker may still write them. */
  function Outstanding(config: Config, message: Message, offset: nat, life: nat, outcomes: seq<SendOutcome>, n: nat)
    : seq<Record>
  {
    if Declines(config, message) then []
    else Copies(Record(message.key, message.payload.value, offset, life), n - Writes(outcomes, n))
  }

  function Published(config: Config, message: Message, offset: nat, life: nat, io: Io): seq<Record> {
    if Declines(config, message) then []
    else Appended(message, offset, life, io.outcomes, Sends(config.maxRetries, io.outcomes))
  }

  // ----- The source's loop body -----

  class RelayWorker {
    const config: Config
    const life: nat
    var output: seq<Record>
    var commitRequests: seq<nat>

    constructor (config: Config, life: nat, output: seq<Record>)
      ensures this.config == config && this.life == life && this.output == output && commitRequests == []
    {
      this.config, this.life, this.output, commitRequests := config, life, output, [];
    }

    /** Sends until acknowledged or out of attempts; every written copy is the message verbatim. */
    method PublishMessage(message: Message, offset: nat, outcomes: seq<SendOutcome>)
      returns (ok: bool, slept: nat)
      requires message.payload.Some?
      modifies this`output
      ensures ok == Succeeds(config.maxRetries, outcomes)
      ensures slept == TotalSleep(config.backoffBase, config.backoffMax, Sends(config.maxRetries, outcomes) - 1)
      ensures output == old(output) + Appended(message, offset, life, outcomes, Sends(config.maxRetries, outcomes))
    {
      var attempt: U32 := 0;
      ghost var sends := 0;
      slept := 0;
      while true
        invariant attempt == sends && sends < Max(1, config.maxRetries)
        invariant forall j :: 0 <= j < sends ==> !Reply(outcomes, j).Acked?
        invariant output == old(output) + Appended(message, offset, life, outcomes, sends)
        invariant slept == TotalSleep(config.backoffBase, config.backoffMax, sends)
        decreases Max(1, config.maxRetries) - sends
      {
        var reply := Reply(outcomes, attempt);
        if reply.Acked? || reply.written {
          output := output + [Record(message.key, message.payload.value, offset, life)];
        }
        sends := sends + 1;
        if reply.Acked? {
          return true, slept;
        }
        attempt := SaturatingIncrement(attempt);
        if attempt >= config.maxRetries {
          return false, slept;
        }
        slept := slept + Backoff(config.backoffBase, config.backoffMax, SaturatingDecrement(attempt));
      }
    }

    method ProcessMessage(message: Message, offset: nat, io: Io) returns (outcome: Outcome)
      modifies this
      ensures outcome == OutcomeOf(config, message, io)
      ensures output == old(output) + Published(config, message, offset, life, io)
      ensures commitRequests == old(commitRequests) + (if outcome == Committed then [offset + 1] else [])
    {
      if message.payload.None? {
        return DeferredNoCommit;
      }
      if config.mode.EnvelopeOnly? && !message.isEnvelope {
        return DeferredNoCommit;
      }
      var ok, _ := PublishMessage(message, offset, io.outcomes);
      if !ok {
        return PublishFailed;
      }
      if !io.commitAccepted {
        return CommitFailed;
      }
      commitRequests := commitRequests + [offset + 1];
      return Committed;
    }
  }

  // ----- Runs -----

  datatype State = State(
    log: seq<Message>,
    position: Option<nat>,
    committed: Option<nat>,
    requested: set<nat>,
    output: seq<Record>,
    pending: seq<Record>,      // failed sends of this run that the broker may still write
    life: nat,                 // number of starts so far
    finished: set<nat>,        // offsets whose processing was not cut short
    refused: set<nat>,         // offsets the loop gave up on: declined, or retries exhausted
    skipped: set<nat>)         // offsets passed over by the initial commit or a reset, without being finished

  datatype Event =
    | Produce(message: Message)
    | Start
    | Poll(io: Io)
    | CrashDuring(io: Io, sends: nat)
    | Crash
    | CommitLands(offset: nat)
    | WriteLands(k: nat)

  function Init(log: seq<Message>, committed: Option<nat>, output: seq<Record>): State {
    State(log, None, committed, {}, output, [], 0, {}, {}, if committed.Some? then UpTo(committed.value) else {})
  }

  predicate Enabled(state: State, event: Event) {
    match event
    case Produce(_) => true
    case Start => state.position.None?
    case Poll(_) => state.position.Some? && state.position.value < |state.log|
    case CrashDuring(_, _) => state.position.Some? && state.position.value < |state.log|
    case Crash => state.position.Some?
    case CommitLands(offset) => offset in state.requested
    case WriteLands(k) => k < |state.pending|
  }

  function Step(config: Config, state: State, event: Event): State
    requires Enabled(state, event)
  {
    match event
    case Produce(message) => state.(log := state.log + [message])
    case Start =>
      var started := state.(life := state.life + 1);
      (match state.committed
       case Some(offset) => started.(position := Some(offset))
       case None => started.(position := Some(|state.log|),
                             skipped := state.skipped + (UpTo(|state.log|) - state.finished)))
    case Poll(io) =>
      var p := state.position.value;
      var outcome := OutcomeOf(config, state.log[p], io);
      state.(position := Some(p + 1),
             output := state.output + Published(config, state.log[p], p, state.life, io),
             pending := state.pending + Outstanding(config, state.log[p], p, state.life, io.outcomes,
                                                    Sends(config.maxRetries, io.outcomes)),
             finished := state.finished + {p},
             requested := state.requested + (if outcome == Committed then {p + 1} else {}),
             refused := state.refused + (if outcome == DeferredNoCommit || outcome == PublishFailed then {p} else {}))
    case CrashDuring(io, sends) =>
      var p := state.position.value;
      var done := Min(sends, Sends(config.maxRetries, io.outcomes));
      state.(position := None,
             output := state.output
                       + if Declines(config, state.log[p]) then []
                         else Appended(state.log[p], p, state.life, io.outcomes, done),
             pending := state.pending + Outstanding(config, state.log[p], p, state.life, io.outcomes, done))
    case Crash => state.(position := None)
    case CommitLands(offset) => state.(committed := Some(offset))
    case WriteLands(k) =>
      state.(output := state.output + [state.pending[k]], pending := state.pending[..k] + state.pending[k + 1..])
  }

  ghost predicate Reaches(config: Config, before: State, events: seq<Event>, after: State)
    decreases |events|
  {
    if events == [] then before == after
    else Enabled(before, events[0]) && Reaches(config, Step(config, before, events[0]), events[1..], after)
  }

  // ----- At least once -----

  /** The message at `offset` is on the output topic, key and payload unchanged. */
  ghost predicate Forwarded(state: State, offset: nat) {
    && offset < |state.log|
    && state.log[offset].payload.Some?
    && exists r :: r in state.output && r.offset == offset
                   && r.key == state.log[offset].key && r.payload == state.log[offset].payload.value
  }

  ghost predicate AccountedFor(state: State, offset: nat) {
    Forwarded(state, offset) || offset in state.refused || offset in state.skipped
  }

  ghost predicate AccountedBelow(state: State, watermark: nat) {
    forall offset: nat :: offset < watermark ==> AccountedFor(state, offset)
  }

  ghost predicate Covered(state: State) {
    && (forall offset :: offset in state.finished ==> AccountedFor(state, offset))
    && (state.position.Some? ==> AccountedBelow(state, state.position.value))
    && (forall offset :: offset in state.requested ==> AccountedBelow(state, offset))
    && (state.committed.Some? ==> AccountedBelow(state, state.committed.value))
  }

  ghost predicate Extends(earlier: State, later: State) {
    && earlier.log <= later.log
    && earlier.output <= later.output
    && earlier.refused <= later.refused
    && earlier.skipped <= later.skipped
  }

  lemma {:induction false} AccountedMonotone(earlier: State, later: State, offset: nat)
    requires Extends(earlier, later) && AccountedFor(earlier, offset)
    ensures AccountedFor(later, offset)
  {
    if Forwarded(earlier, offset) {
      assert later.log[offset] == earlier.log[offset];
    }
  }

  lemma {:induction false} BelowMonotone(earlier: State, later: State, watermark: nat)
    requires Extends(earlier, later) && AccountedBelow(earlier, watermark)
    ensures AccountedBelow(later, watermark)
  {
    forall offset: nat | offset < watermark
      ensures AccountedFor(later, offset)
    {
      AccountedMonotone(earlier, later, offset);
    }
  }

  /** A successful publish left at least one copy. */
  lemma {:induction false} SuccessWrites(config: Config, outcomes: seq<SendOutcome>)
    requires Succeeds(config.maxRetries, outcomes)
    ensures Writes(outcomes, Sends(config.maxRetries, outcomes)) >= 1
  {}

  lemma {:induction false} PollAccounts(config: Config, state: State, io: Io)
    requires Enabled(state, Poll(io)) && AccountedBelow(state, state.position.value)
    ensures AccountedBelow(Step(config, state, Poll(io)), state.position.value + 1)
  {
    var p, after := state.position.value, Step(config, state, Poll(io));
    BelowMonotone(state, after, p);
    var outcome := OutcomeOf(config, state.log[p], io);
    if outcome == Committed || outcome == CommitFailed {
      var published := Published(config, state.log[p], p, state.life, io);
      SuccessWrites(config, io.outcomes);
      assert published[0] in after.output;
      assert Forwarded(after, p);
    }
    assert AccountedFor(after, p);
  }

  lemma {:induction false} StepKeepsCovered(config: Config, state: State, event: Event)
    requires Covered(state) && Enabled(state, event)
    ensures Covered(Step(config, state, event))
  {
    var after := Step(config, state, event);
    assert Extends(state, after);
    forall w: nat | AccountedBelow(state, w)
      ensures AccountedBelow(after, w)
    {
      BelowMonotone(state, after, w);
    }
    forall offset | offset in state.finished
      ensures AccountedFor(after, offset)
    {
      AccountedMonotone(state, after, offset);
    }
    if event.Poll? {
      PollAccounts(config, state, event.io);
    }
  }

  // ----- Verbatim -----

  /** The record copies a logged message, its process had started, and the current process is past it. */
  ghost predicate Sound(state: State, r: Record) {
    && r.offset < |state.log| && state.log[r.offset].payload == Some(r.payload) && state.log[r.offset].key == r.key
    && 1 <= r.life <= state.life
    && (state.position.Some? && r.life == state.life ==> r.offset < state.position.value)
  }

  /** Every record this run wrote or may still write is sound. */
  ghost predicate Faithful(state: State, base: nat) {
    && base <= |state.output| && (state.position.Some? ==> state.life >= 1)
    && (forall i :: base <= i < |state.output| ==> Sound(state, state.output[i]))
    && (forall i :: 0 <= i < |state.pending| ==> Sound(state, state.pending[i]))
  }

  lemma {:induction false} SoundKept(config: Config, state: State, event: Event, r: Record)
    requires Enabled(state, event) && Sound(state, r)
    ensures Sound(Step(config, state, event), r)
  {}

  /** The records a poll or a crash adds. */
  lemma {:induction false} AddedAreSound(config: Config, state: State, event: Event)
    requires Enabled(state, event) && (event.Poll? || event.CrashDuring?) && state.life >= 1
    ensures var after, p := Step(config, state, event), state.position.value;
            && state.output <= after.output && state.pending <= after.pending
            && (forall i :: |state.output| <= i < |after.output| ==>
                  Sound(after, after.output[i]) && after.output[i].offset == p && after.output[i].life == state.life)
            && (forall i :: |state.pending| <= i < |after.pending| ==>
                  Sound(after, after.pending[i]) && after.pending[i].offset == p && after.pending[i].life == state.life)
            && |after.output| - |state.output| + |after.pending| - |state.pending| <= Max(1, config.maxRetries)
  {
    var after, p := Step(config, state, event), state.position.value;
    var message, life := state.log[p], state.life;
    var sends := Sends(config.maxRetries, event.io.outcomes);
    var n := if event.Poll? then sends else Min(event.sends, sends);
    if !Declines(config, message) {
      var record := Record(message.key, message.payload.value, p, life);
      var written, waiting := Writes(event.io.outcomes, n), n - Writes(event.io.outcomes, n);
      assert after.output == state.output + Copies(record, written);
      assert after.pending == state.pending + Copies(record, waiting);
      assert forall i :: 0 <= i < written ==> Copies(record, written)[i] in Copies(record, written);
      assert forall i :: 0 <= i < waiting ==> Copies(record, waiting)[i] in Copies(record, waiting);
    }
  }

  lemma {:induction false} StepKeepsFaithful(config: Config, state: State, event: Event, base: nat)
    requires Faithful(state, base) && Enabled(state, event)
    ensures Faithful(Step(config, state, event), base)
  {
    var after := Step(config, state, event);
    forall r | Sound(state, r)
      ensures Sound(after, r)
    {
      SoundKept(config, state, event, r);
    }
    if event.Poll? || event.CrashDuring? {
      AddedAreSound(config, state, event);
    }
  }

  lemma {:induction false} RunKeepsInvariants(
    config: Config, before: State, events: seq<Event>, after: State, base: nat)
    requires Covered(before) && Faithful(before, base) && Reaches(config, before, events, after)
    ensures Covered(after) && Faithful(after, base)
    decreases |events|
  {
    if events != [] {
      StepKeepsCovered(config, before, events[0]);
      StepKeepsFaithful(config, before, events[0], base);
      RunKeepsInvariants(config, Step(config, before, events[0]), events[1..], after, base);
    }
  }

  /** Below the committed position every message was forwarded at least once, unless the loop refused it. */
  lemma {:induction false} AtLeastOnce(config: Config, log: seq<Message>, stored: Option<nat>, output: seq<Record>,
                                       events: seq<Event>, after: State, offset: nat)
    requires Reaches(config, Init(log, stored, output), events, after)
    requires after.committed.Some? && offset < after.committed.value
    ensures Forwarded(after, offset) || offset in after.refused || offset in after.skipped
  {
    var before := Init(log, stored, output);
    assert Faithful(before, |output|);
    RunKeepsInvariants(config, before, events, after, |output|);
    assert AccountedFor(after, offset);
  }

  /** Nothing is invented: every record this run added is a logged message, key and payload unchanged. */
  lemma {:induction false} OutputIsVerbatim(config: Config, log: seq<Message>, stored: Option<nat>, output: seq<Record>,
                                            events: seq<Event>, after: State, i: nat)
    requires Reaches(config, Init(log, stored, output), events, after)
    requires |output| <= i < |after.output|
    ensures var r := after.output[i];
            r.offset < |after.log| && after.log[r.offset].payload == Some(r.payload) && after.log[r.offset].key == r.key
  {
    var before := Init(log, stored, output);
    assert Faithful(before, |output|);
    RunKeepsInvariants(config, before, events, after, |output|);
  }

  // ----- In order -----

  /** Records of one process life appear in input order. */
  ghost predicate InOrder(state: State, base: nat) {
    forall i, j :: base <= i < j < |state.output| && state.output[i].life == state.output[j].life ==>
      state.output[i].offset <= state.output[j].offset
  }

  /** A write that lands late does so before any later message of its process life was written. */
  ghost predicate LandsInOrder(state: State, event: Event, base: nat)
    requires Enabled(state, event)
  {
    event.WriteLands? ==>
      forall i :: base <= i < |state.output| && state.output[i].life == state.pending[event.k].life ==>
        state.output[i].offset <= state.pending[event.k].offset
  }

  lemma {:induction false} StepOrdersExactly(config: Config, state: State, event: Event, base: nat)
    requires Faithful(state, base) && Enabled(state, event)
    ensures InOrder(Step(config, state, event), base) <==> InOrder(state, base) && LandsInOrder(state, event, base)
  {
    var after := Step(config, state, event);
    if event.Poll? || event.CrashDuring? {
      AddedAreSound(config, state, event);
      assert forall i :: 0 <= i < |state.output| ==> after.output[i] == state.output[i];
    } else if event.WriteLands? {
      LandingOrdersExactly(config, state, event.k, base);
    }
    if InOrder(after, base) {
      OrderOfPrefix(state, after, base);
    }
  }

  lemma {:induction false} LandingOrdersExactly(config: Config, state: State, k: nat, base: nat)
    requires Faithful(state, base) && k < |state.pending|
    ensures var event := WriteLands(k);
            InOrder(Step(config, state, event), base) <==> InOrder(state, base) && LandsInOrder(state, event, base)
  {
    var after, n := Step(config, state, WriteLands(k)), |state.output|;
    assert after.output[n] == state.pending[k];
    assert forall i :: 0 <= i < n ==> after.output[i] == state.output[i];
    if InOrder(after, base) {
      OrderOfPrefix(state, after, base);
      forall i | base <= i < n && state.output[i].life == state.pending[k].life
        ensures state.output[i].offset <= state.pending[k].offset
      {
        assert after.output[i].offset <= after.output[n].offset;
      }
    }
  }

  lemma {:induction false} OrderOfPrefix(state: State, after: State, base: nat)
    requires state.output <= after.output && InOrder(after, base)
    ensures InOrder(state, base)
  {
    assert forall i :: 0 <= i < |state.output| ==> after.output[i] == state.output[i];
  }

  ghost predicate LandingsInOrder(config: Config, before: State, events: seq<Event>, base: nat)
    decreases |events|
  {
    events == []
    || (Enabled(before, events[0]) && LandsInOrder(before, events[0], base)
        && LandingsInOrder(config, Step(config, before, events[0]), events[1..], base))
  }

  /**
    Within each process life the output of a run keeps the input order if and only if every
    late write lands before a later message of that life is written. In particular it does
    when no write lands late.
   */
  lemma {:induction false} RunOrdersExactly(
    config: Config, before: State, events: seq<Event>, after: State, base: nat)
    requires Faithful(before, base) && Reaches(config, before, events, after)
    ensures InOrder(after, base) <==> InOrder(before, base) && LandingsInOrder(config, before, events, base)
    decreases |events|
  {
    if events != [] {
      StepOrdersExactly(config, before, events[0], base);
      StepKeepsFaithful(config, before, events[0], base);
      RunOrdersExactly(config, Step(config, before, events[0]), events[1..], after, base);
    }
  }

  lemma {:induction false} NoLandingInOrder(config: Config, before: State, events: seq<Event>, after: State, base: nat)
    requires Reaches(config, before, events, after) && forall e :: e in events ==> !e.WriteLands?
    ensures LandingsInOrder(config, before, events, base)
    decreases |events|
  {
    if events != [] {
      assert events[0] in events && forall e :: e in events[1..] ==> e in events;
      NoLandingInOrder(config, Step(config, before, events[0]), events[1..], after, base);
    }
  }

  /** Without late writes the output of each process life keeps the input order. */
  lemma {:induction false} OrderedFanIn(config: Config, log: seq<Message>, stored: Option<nat>, output: seq<Record>,
                                        events: seq<Event>, after: State)
    requires Reaches(config, Init(log, stored, output), events, after)
    requires forall e :: e in events ==> !e.WriteLands?
    ensures InOrder(after, |output|)
  {
    var before := Init(log, stored, output);
    NoLandingInOrder(config, before, events, after, |output|);
    RunOrdersExactly(config, before, events, after, |output|);
  }

  /** A failed send that lands late can put an earlier message behind a later one. */
  lemma {:induction false} LateWriteReorders(config: Config, first: Message, second: Message)
    returns (events: seq<Event>, after: State)
    requires config.maxRetries >= 2 && !Declines(config, first) && !Declines(config, second)
    ensures Reaches(config, Init([first, second], Some(0), []), events, after)
    ensures after.life == 1 && !InOrder(after, 0)
  {
    var retried, sent := Io([Unacked(false), Acked], true), Io([Acked], true);
    var s0 := Init([first, second], Some(0), []);
    var s1 := Step(config, s0, Start);
    TwoSends(config, first, 0, 1);
    var s2 := Step(config, s1, Poll(retried));
    OneSend(config, second, 1, 1);
    var s3 := Step(config, s2, Poll(sent));
    after := Step(config, s3, WriteLands(0));
    assert after.output[1].offset == 1 && after.output[2].offset == 0 && after.output[1].life == after.output[2].life;
    assert Reaches(config, after, [], after);
    ReachesCons(config, s3, WriteLands(0), [], after);
    ReachesCons(config, s2, Poll(sent), [WriteLands(0)] + [], after);
    ReachesCons(config, s1, Poll(retried), [Poll(sent)] + ([WriteLands(0)] + []), after);
    events := [Start] + ([Poll(retried)] + ([Poll(sent)] + ([WriteLands(0)] + [])));
    ReachesCons(config, s0, Start, [Poll(retried)] + ([Poll(sent)] + ([WriteLands(0)] + [])), after);
  }

  lemma {:induction false} ReachesCons(config: Config, before: State, event: Event, events: seq<Event>, after: State)
    requires Enabled(before, event) && Reaches(config, Step(config, before, event), events, after)
    ensures Reaches(config, before, [event] + events, after)
  {
    assert ([event] + events)[1..] == events;
  }

  lemma {:induction false} TwoSends(config: Config, message: Message, offset: nat, life: nat)
    requires config.maxRetries >= 2 && !Declines(config, message)
    ensures var io := Io([Unacked(false), Acked], true);
            var record := Record(message.key, message.payload.value, offset, life);
            && Published(config, message, offset, life, io) == [record]
            && Outstanding(config, message, offset, life, io.outcomes, Sends(config.maxRetries, io.outcomes)) ==
                 [record]
  {
    var outcomes := [Unacked(false), Acked];
    assert Reply(outcomes, 0) == Unacked(false) && Reply(outcomes, 1) == Acked;
    assert Sends(config.maxRetries, outcomes) == 2;
    assert Writes(outcomes, 0) == 0 && Writes(outcomes, 1) == 0 && Writes(outcomes, 2) == 1;
  }

  lemma {:induction false} OneSend(config: Config, message: Message, offset: nat, life: nat)
    requires !Declines(config, message)
    ensures var io := Io([Acked], true);
            && Published(config, message, offset, life, io) ==
                 [Record(message.key, message.payload.value, offset, life)]
            && Outstanding(config, message, offset, life, io.outcomes, Sends(config.maxRetries, io.outcomes)) == []
  {
    var outcomes := [Acked];
    assert Reply(outcomes, 0) == Acked;
    assert Sends(config.maxRetries, outcomes) == 1;
    assert Writes(outcomes, 0) == 0 && Writes(outcomes, 1) == 1;
  }

  // ----- How many copies -----

  /** The records of one offset that one process life left. */
  function CopiesOf(records: seq<Record>, offset: nat, life: nat): nat {
    if records == [] then 0
    else
      var last := records[|records| - 1];
      CopiesOf(records[..|records| - 1], offset, life) + if last.offset == offset && last.life == life then 1 else 0
  }

  lemma {:induction false} CopiesConcat(a: seq<Record>, b: seq<Record>, offset: nat, life: nat)
    ensures CopiesOf(a + b, offset, life) == CopiesOf(a, offset, life) + CopiesOf(b, offset, life)
    decreases |b|
  {
    if b == [] {
      assert a + b == a;
    } else {
      CopiesConcat(a, b[..|b| - 1], offset, life);
      assert (a + b)[..|a + b| - 1] == a + b[..|b| - 1];
    }
  }

  lemma {:induction false} CopiesAtMost(records: seq<Record>, offset: nat, life: nat)
    ensures CopiesOf(records, offset, life) <= |records|
    ensures (forall i :: 0 <= i < |records| ==> records[i].offset != offset || records[i].life != life) ==>
              CopiesOf(records, offset, life) == 0
  {
    if records != [] {
      CopiesAtMost(records[..|records| - 1], offset, life);
    }
  }

  /** What one life wrote of an offset and may still write stays within the send budget. */
  ghost predicate CopiesWithin(config: Config, state: State, base: nat) {
    base <= |state.output|
    && forall offset, life ::
         CopiesOf(state.output[base..], offset, life) + CopiesOf(state.pending, offset, life) <=
         Max(1, config.maxRetries)
  }

  lemma {:induction false} AppendedCopies(
    config: Config, state: State, after: State, base: nat, p: nat, offset: nat, life: nat)
    requires CopiesWithin(config, state, base) && Faithful(state, base) && state.position == Some(p)
    requires state.output <= after.output && state.pending <= after.pending
    requires forall i :: |state.output| <= i < |after.output| ==>
               after.output[i].offset == p && after.output[i].life == state.life
    requires forall i :: |state.pending| <= i < |after.pending| ==>
               after.pending[i].offset == p && after.pending[i].life == state.life
    requires |after.output| - |state.output| + |after.pending| - |state.pending| <= Max(1, config.maxRetries)
    ensures CopiesOf(after.output[base..], offset, life) + CopiesOf(after.pending, offset, life) <=
            Max(1, config.maxRetries)
  {
    var written, waiting := after.output[|state.output|..], after.pending[|state.pending|..];
    assert after.output[base..] == state.output[base..] + written && after.pending == state.pending + waiting;
    CopiesConcat(state.output[base..], written, offset, life);
    CopiesConcat(state.pending, waiting, offset, life);
    CopiesAtMost(written, offset, life);
    CopiesAtMost(waiting, offset, life);
    if offset == p && life == state.life {
      NoneYet(state, base, p);
    }
  }

  /** The current life has not touched the offset it is about to poll. */
  lemma {:induction false} NoneYet(state: State, base: nat, p: nat)
    requires Faithful(state, base) && state.position == Some(p)
    ensures CopiesOf(state.output[base..], p, state.life) == 0 == CopiesOf(state.pending, p, state.life)
  {
    var written := state.output[base..];
    assert forall i :: 0 <= i < |written| ==> written[i] == state.output[base + i];
    CopiesAtMost(written, p, state.life);
    CopiesAtMost(state.pending, p, state.life);
  }

  /** A late write moves one record from pending to the output. */
  lemma {:induction false} LandedCopies(state: State, base: nat, k: nat, offset: nat, life: nat)
    requires base <= |state.output| && k < |state.pending|
    ensures var r := state.pending[k];
            CopiesOf((state.output + [r])[base..], offset, life)
            + CopiesOf(state.pending[..k] + state.pending[k + 1..], offset, life) ==
            CopiesOf(state.output[base..], offset, life) + CopiesOf(state.pending, offset, life)
  {
    var r, ahead, behind := state.pending[k], state.pending[..k], state.pending[k + 1..];
    assert (state.output + [r])[base..] == state.output[base..] + [r];
    assert state.pending == (ahead + [r]) + behind;
    CopiesConcat(state.output[base..], [r], offset, life);
    CopiesConcat(ahead, behind, offset, life);
    CopiesConcat(ahead + [r], behind, offset, life);
    CopiesConcat(ahead, [r], offset, life);
  }

  lemma {:induction false} StepKeepsCopies(config: Config, state: State, event: Event, base: nat)
    requires CopiesWithin(config, state, base) && Faithful(state, base) && Enabled(state, event)
    ensures CopiesWithin(config, Step(config, state, event), base)
  {
    var after := Step(config, state, event);
    if event.Poll? || event.CrashDuring? {
      SendingKeepsCopies(config, state, event, base);
    } else if event.WriteLands? {
      forall offset, life
        ensures CopiesOf(after.output[base..], offset, life) + CopiesOf(after.pending, offset, life) <=
                Max(1, config.maxRetries)
      {
        LandedCopies(state, base, event.k, offset, life);
      }
    }
  }

  lemma {:induction false} SendingKeepsCopies(config: Config, state: State, event: Event, base: nat)
    requires CopiesWithin(config, state, base) && Faithful(state, base) && Enabled(state, event)
    requires event.Poll? || event.CrashDuring?
    ensures CopiesWithin(config, Step(config, state, event), base)
  {
    var after := Step(config, state, event);
    AddedAreSound(config, state, event);
    forall offset, life
      ensures CopiesOf(after.output[base..], offset, life) + CopiesOf(after.pending, offset, life) <=
              Max(1, config.maxRetries)
    {
      AppendedCopies(config, state, after, base, state.position.value, offset, life);
    }
  }

  lemma {:induction false} RunKeepsCopies(config: Config, before: State, events: seq<Event>, after: State, base: nat)
    requires CopiesWithin(config, before, base) && Faithful(before, base) && Reaches(config, before, events, after)
    ensures CopiesWithin(config, after, base)
    decreases |events|
  {
    if events != [] {
      StepKeepsCopies(config, before, events[0], base);
      StepKeepsFaithful(config, before, events[0], base);
      RunKeepsCopies(config, Step(config, before, events[0]), events[1..], after, base);
    }
  }

  /** One process life leaves at most `max(1, maxRetries)` copies of a message; only restarts add more. */
  lemma {:induction false} DuplicatesBounded(
    config: Config, log: seq<Message>, stored: Option<nat>, output: seq<Record>,
    events: seq<Event>, after: State, offset: nat, life: nat)
    requires Reaches(config, Init(log, stored, output), events, after)
    ensures |output| <= |after.output|
    ensures CopiesOf(after.output[|output|..], offset, life) <= Max(1, config.maxRetries)
  {
    var before := Init(log, stored, output);
    assert before.output[|output|..] == [];
    assert Faithful(before, |output|);
    RunKeepsCopies(config, before, events, after, |output|);
  }

  /** Refusal is decided by the message and the send replies alone. */
  lemma {:induction false} RefusedExactly(config: Config, message: Message, io: Io)
    ensures OutcomeOf(config, message, io) in {DeferredNoCommit, PublishFailed} <==>
            || message.payload.None?
            || (config.mode.EnvelopeOnly? && !message.isEnvelope)
            || forall k :: 0 <= k < Max(1, config.maxRetries) ==> !Reply(io.outcomes, k).Acked?
  {}

  // ----- When it commits -----

  /** The message was forwarded and its commit accepted, said of the message and the world's answers. */
  ghost predicate Commits(config: Config, message: Message, io: Io) {
    && message.payload.Some?
    && (config.mode.EnvelopeOnly? ==> message.isEnvelope)
    && (exists k :: 0 <= k < Max(1, config.maxRetries) && Reply(io.outcomes, k).Acked?)
    && io.commitAccepted
  }

  /** The loop body ends in a commit exactly then, and otherwise in the outcome of the first stage to fail. */
  lemma {:induction false} CommitsExactly(config: Config, message: Message, io: Io)
    ensures OutcomeOf(config, message, io) == Committed <==> Commits(config, message, io)
    ensures OutcomeOf(config, message, io) == DeferredNoCommit <==>
            message.payload.None? || (config.mode.EnvelopeOnly? && !message.isEnvelope)
    ensures OutcomeOf(config, message, io) == CommitFailed <==>
            Commits(config, message, io.(commitAccepted := true)) && !io.commitAccepted
  {}

  /** Some step of the run polls the message before `offset` and commits it. */
  ghost predicate CommittedDuring(config: Config, before: State, events: seq<Event>, offset: nat)
    decreases |events|
  {
    events != [] && Enabled(before, events[0])
    && (|| (events[0].Poll? && before.position.value + 1 == offset
            && Commits(config, before.log[before.position.value], events[0].io))
        || CommittedDuring(config, Step(config, before, events[0]), events[1..], offset))
  }

  /** Over every run, a commit of an offset is asked for exactly when the message before it is polled and commits. */
  lemma {:induction false} RunRequestsExactly(
    config: Config, before: State, events: seq<Event>, after: State, offset: nat)
    requires Reaches(config, before, events, after)
    ensures offset in after.requested <==>
            offset in before.requested || CommittedDuring(config, before, events, offset)
    decreases |events|
  {
    if events != [] {
      if events[0].Poll? {
        CommitsExactly(config, before.log[before.position.value], events[0].io);
      }
      RunRequestsExactly(config, Step(config, before, events[0]), events[1..], after, offset);
    }
  }

  // ----- What it writes -----

  /** The sends up to `n` that reached the topic, acknowledged or not. */
  ghost function Reaching(outcomes: seq<SendOutcome>, n: nat): set<nat> {
    set k | 0 <= k < n && (Reply(outcomes, k) == Acked || Reply(outcomes, k) == Unacked(true))
  }

  lemma {:induction false} WritesCount(outcomes: seq<SendOutcome>, n: nat)
    ensures Writes(outcomes, n) == |Reaching(outcomes, n)|
  {
    if n > 0 {
      WritesCount(outcomes, n - 1);
      var here := if n - 1 in Reaching(outcomes, n) then {n - 1} else {};
      assert Reaching(outcomes, n) == Reaching(outcomes, n - 1) + here;
    } else {
      assert Reaching(outcomes, n) == {};
    }
  }

  /** A message is written once for every send that reaches the topic, and not sent again once acknowledged. */
  lemma {:induction false} PublishedExactly(config: Config, message: Message, offset: nat, life: nat, io: Io)
    requires message.payload.Some? && (config.mode.EnvelopeOnly? ==> message.isEnvelope)
    ensures var sends := Sends(config.maxRetries, io.outcomes);
            && |Published(config, message, offset, life, io)| == |Reaching(io.outcomes, sends)|
            && (forall k :: 0 <= k < sends - 1 ==> Reply(io.outcomes, k) != Acked)
            && (sends < Max(1, config.maxRetries) ==> Reply(io.outcomes, sends - 1) == Acked)
  {
    WritesCount(io.outcomes, Sends(config.maxRetries, io.outcomes));
  }
}
