/**
  Delivery of one consumed message: route matching, required then optional
  destinations, the dead-letter queue and the commit decision.
 */
module Smash {
  import opened Wrappers
  import opened Kafka
  import opened Envelopes
  import opened Plugins
  import Glob

  datatype Destination = Destination(adapterId: string, required: bool)

  datatype Route = Route(
    id: string, sourceTopicPattern: string, eventFilters: seq<string>, destinations: seq<Destination>)

  datatype NoOutputSink = Discard | Dlq

  datatype Config = Config(
    routes: seq<Route>,
    adapters: set<string>,
    adapterPlugins: map<string, seq<Plugin>>,
    allowNoOutput: bool,
    noOutputSink: Option<NoOutputSink>)

  /** One position of the delivery schedule. */
  datatype Slot = Slot(routeId: string, adapterId: string, required: bool)

  /** One call of `deliver_destination`; `sent` is what the adapter was handed, if it was called. */
  datatype Attempt = Attempt(slot: Slot, sent: Option<Envelope>, ok: bool)

  datatype Reason =
    | NoMatchingRoute(topic: string, eventType: string)
    | NoActiveDestination(topic: string, eventType: string)
    | RequiredFailed(adapterId: string, routeId: string)

  datatype DlqRecord = DlqRecord(envelope: Envelope, reason: Reason)

  datatype DeliveryError = NoOutput(reason: Reason) | SinkNotConfigured | DlqUnavailable

  datatype Verdict = Commit | DoNotCommit | Failed(error: DeliveryError)

  // ----- Matching -----

  ghost predicate RouteMatches(route: Route, topic: string, eventType: string) {
    && Glob.Matches(route.sourceTopicPattern, topic)
    && (route.eventFilters == [] || exists f :: f in route.eventFilters && Glob.Matches(f, eventType))
  }

  method MatchesRoute(route: Route, topic: string, eventType: string) returns (matched: bool)
    ensures matched <==> RouteMatches(route, topic, eventType)
  {
    matched := Glob.WildcardMatches(route.sourceTopicPattern, topic);
    if !matched || route.eventFilters == [] {
      return;
    }
    for i := 0 to |route.eventFilters|
      invariant forall j :: 0 <= j < i ==> !Glob.Matches(route.eventFilters[j], eventType)
    {
      var hit := Glob.WildcardMatches(route.eventFilters[i], eventType);
      if hit {
        return true;
      }
    }
    return false;
  }

  ghost function MatchedRoutes(routes: seq<Route>, topic: string, eventType: string): seq<Route> {
    if routes == [] then []
    else
      (if RouteMatches(routes[0], topic, eventType) then [routes[0]] else [])
      + MatchedRoutes(routes[1..], topic, eventType)
  }

  lemma {:induction false} MatchedStep(
    routes: seq<Route>, topic: string, eventType: string, i: nat, matched: seq<Route>)
    requires i < |routes|
    ensures matched + MatchedRoutes(routes[i..], topic, eventType) ==
            (if RouteMatches(routes[i], topic, eventType) then matched + [routes[i]] else matched)
            + MatchedRoutes(routes[i + 1..], topic, eventType)
  {
    assert routes[i..][1..] == routes[i + 1..];
  }

  function WithRequired(destinations: seq<Destination>, required: bool): (kept: seq<Destination>)
    ensures forall d :: d in kept <==> d in destinations && d.required == required
  {
    if destinations == [] then []
    else
      (if destinations[0].required == required then [destinations[0]] else [])
      + WithRequired(destinations[1..], required)
  }

  // ----- The flat schedule -----

  function SlotsFor(route: Route, destinations: seq<Destination>): (slots: seq<Slot>)
    ensures |slots| == |destinations|
    ensures forall i :: 0 <= i < |slots| ==>
              slots[i] == Slot(route.id, destinations[i].adapterId, destinations[i].required)
  {
    seq(|destinations|, i requires 0 <= i < |destinations| =>
      Slot(route.id, destinations[i].adapterId, destinations[i].required))
  }

  /** A route's destinations in delivery order: required before optional. */
  function RouteSlots(route: Route): seq<Slot> {
    SlotsFor(route, WithRequired(route.destinations, true))
    + SlotsFor(route, WithRequired(route.destinations, false))
  }

  function Flatten(routes: seq<Route>): seq<Slot> {
    if routes == [] then [] else RouteSlots(routes[0]) + Flatten(routes[1..])
  }

  /** Everything this message should be delivered to, in order. */
  ghost function Schedule(config: Config, topic: string, envelope: Envelope): seq<Slot> {
    Flatten(MatchedRoutes(config.routes, topic, envelope.eventType))
  }

  // ----- One attempt -----

  function PluginsFor(config: Config, adapterId: string): seq<Plugin> {
    if adapterId in config.adapterPlugins then config.adapterPlugins[adapterId] else []
  }

  /** The attempt on `slot` when the adapter, if reached, answers `answer`. */
  function AttemptOn(config: Config, envelope: Envelope, slot: Slot, answer: bool): Attempt {
    var plugins := PluginsFor(config, slot.adapterId);
    if slot.adapterId !in config.adapters || Rejects(plugins, envelope.payload) then Attempt(slot, None, false)
    else Attempt(slot, Some(Transformed(plugins, envelope)), answer)
  }

  predicate Answer(answers: seq<bool>, k: nat) { k < |answers| && answers[k] }

  /** The first `n` attempts of the schedule. */
  function Attempts(config: Config, envelope: Envelope, schedule: seq<Slot>, answers: seq<bool>, n: nat)
    : (attempts: seq<Attempt>)
    requires n <= |schedule|
    ensures |attempts| == n
    ensures forall k :: 0 <= k < n ==>
              attempts[k] == AttemptOn(config, envelope, schedule[k], Answer(answers, k))
  {
    seq(n, k requires 0 <= k < n => AttemptOn(config, envelope, schedule[k], Answer(answers, k)))
  }

  predicate Blocks(attempt: Attempt) { attempt.slot.required && !attempt.ok }

  /** The position of the first required destination that fails, or the schedule's length. */
  function Cut(config: Config, envelope: Envelope, schedule: seq<Slot>, answers: seq<bool>, from: nat): (cut: nat)
    requires from <= |schedule|
    ensures from <= cut <= |schedule|
    ensures forall k :: from <= k < cut ==>
              !Blocks(AttemptOn(config, envelope, schedule[k], Answer(answers, k)))
    ensures cut < |schedule| ==> Blocks(AttemptOn(config, envelope, schedule[cut], Answer(answers, cut)))
    decreases |schedule| - from
  {
    if from == |schedule| || Blocks(AttemptOn(config, envelope, schedule[from], Answer(answers, from))) then from
    else Cut(config, envelope, schedule, answers, from + 1)
  }

  // ----- The whole delivery -----

  datatype Delivery = Delivery(verdict: Verdict, attempts: seq<Attempt>, dlq: seq<DlqRecord>)

  function DlqWrites(record: DlqRecord, outcome: SendOutcome): seq<DlqRecord> {
    if outcome.Acked? || outcome.written then [record] else []
  }

  function NoOutputDelivery(config: Config, envelope: Envelope, reason: Reason, dlq: SendOutcome): Delivery {
    if !config.allowNoOutput then Delivery(Failed(NoOutput(reason)), [], [])
    else
      match config.noOutputSink
      case Some(Discard) => Delivery(Commit, [], [])
      case Some(Dlq) =>
        Delivery(if dlq.Acked? then Commit else Failed(DlqUnavailable), [],
                 DlqWrites(DlqRecord(envelope, reason), dlq))
      case None => Delivery(Failed(SinkNotConfigured), [], [])
  }

  /** Work the schedule off up to its first required failure, which is dead-lettered. */
  function DeliverSchedule(config: Config, schedule: seq<Slot>, envelope: Envelope, answers: seq<bool>,
                           dlq: SendOutcome): Delivery
  {
    var cut := Cut(config, envelope, schedule, answers, 0);
    if cut == |schedule| then Delivery(Commit, Attempts(config, envelope, schedule, answers, cut), [])
    else
      Delivery(if dlq.Acked? then DoNotCommit else Failed(DlqUnavailable),
               Attempts(config, envelope, schedule, answers, cut + 1),
               DlqWrites(DlqRecord(envelope, RequiredFailed(schedule[cut].adapterId, schedule[cut].routeId)), dlq))
  }

  /** The delivery to the matched routes, read off their flat schedule. */
  function DeliverTo(config: Config, topic: string, matched: seq<Route>, envelope: Envelope,
                     answers: seq<bool>, dlq: SendOutcome): Delivery
  {
    var schedule := Flatten(matched);
    if matched == [] then
      NoOutputDelivery(config, envelope, NoMatchingRoute(topic, envelope.eventType), dlq)
    else if schedule == [] then
      NoOutputDelivery(config, envelope, NoActiveDestination(topic, envelope.eventType), dlq)
    else DeliverSchedule(config, schedule, envelope, answers, dlq)
  }

  ghost function Deliver(config: Config, topic: string, envelope: Envelope, answers: seq<bool>, dlq: SendOutcome)
    : Delivery
  {
    DeliverTo(config, topic, MatchedRoutes(config.routes, topic, envelope.eventType), envelope, answers, dlq)
  }

  // ----- One message -----

  datatype Payload = Absent | Malformed | Parsed(envelope: Envelope)

  datatype Message = Message(topic: string, payload: Payload)

  /** What the outside world answers while one message is processed. */
  datatype Io = Io(answers: seq<bool>, dlq: SendOutcome, commitAccepted: bool)

  /** What processing one message does: it may ask for a commit, and it may return an error. */
  datatype Effects = Effects(attempts: seq<Attempt>, dlq: seq<DlqRecord>, commits: bool, failed: bool)

  ghost function Process(config: Config, message: Message, io: Io): Effects {
    match message.payload
    case Absent => Effects([], [], false, true)
    case Malformed => Effects([], [], false, true)
    case Parsed(envelope) =>
      var d := Deliver(config, message.topic, envelope, io.answers, io.dlq);
      Effects(d.attempts, d.dlq, d.verdict == Commit && io.commitAccepted,
              d.verdict.Failed? || (d.verdict == Commit && !io.commitAccepted))
  }

  // ----- The source's nested loops -----

  /** The consumer with the outside world it acts on: adapter calls and the dead-letter topic. */
  class KafkaConsumer {
    const config: Config
    var attempts: seq<Attempt>
    var dlq: seq<DlqRecord>
    var commitRequests: seq<nat>

    constructor (config: Config)
      ensures this.config == config && attempts == [] && dlq == [] && commitRequests == []
    {
      this.config := config;
      attempts, dlq, commitRequests := [], [], [];
    }

    method PublishFailed(envelope: Envelope, reason: Reason, outcome: SendOutcome) returns (ok: bool)
      modifies this`dlq
      ensures ok == outcome.Acked?
      ensures dlq == old(dlq) + DlqWrites(DlqRecord(envelope, reason), outcome)
    {
      if outcome.Acked? || outcome.written {
        dlq := dlq + [DlqRecord(envelope, reason)];
      }
      return outcome.Acked?;
    }

    method DeliverDestination(slot: Slot, envelope: Envelope, answer: bool) returns (ok: bool)
      modifies this`attempts
      ensures attempts == old(attempts) + [AttemptOn(config, envelope, slot, answer)]
      ensures ok == AttemptOn(config, envelope, slot, answer).ok
    {
      if slot.adapterId !in config.adapters {
        attempts := attempts + [Attempt(slot, None, false)];
        return false;
      }
      var plugins := if slot.adapterId in config.adapterPlugins then config.adapterPlugins[slot.adapterId] else [];
      var transformed := ApplySmashPlugins(plugins, envelope);
      if transformed.Err? {
        attempts := attempts + [Attempt(slot, None, false)];
        return false;
      }
      attempts := attempts + [Attempt(slot, Some(transformed.value), answer)];
      return answer;
    }

    method HandleNoOutput(envelope: Envelope, reason: Reason, outcome: SendOutcome) returns (verdict: Verdict)
      modifies this`dlq
      ensures var spec := NoOutputDelivery(config, envelope, reason, outcome);
              verdict == spec.verdict && dlq == old(dlq) + spec.dlq
    {
      if !config.allowNoOutput {
        return Failed(NoOutput(reason));
      }
      match config.noOutputSink {
        case Some(Discard) =>
          return Commit;
        case Some(Dlq) =>
          var ok := PublishFailed(envelope, reason, outcome);
          return if ok then Commit else Failed(DlqUnavailable);
        case None =>
          return Failed(SinkNotConfigured);
      }
    }

    method Matched(topic: string, eventType: string) returns (matched: seq<Route>)
      ensures matched == MatchedRoutes(config.routes, topic, eventType)
    {
      matched := [];
      for i := 0 to |config.routes|
        invariant MatchedRoutes(config.routes, topic, eventType) ==
                  matched + MatchedRoutes(config.routes[i..], topic, eventType)
      {
        MatchedStep(config.routes, topic, eventType, i, matched);
        var hit := MatchesRoute(config.routes[i], topic, eventType);
        if hit {
          matched := matched + [config.routes[i]];
        }
      }
    }

    /** `base` followed by the first `count` attempts of the schedule, none of them blocking. */
    ghost predicate Progress(
      base: seq<Attempt>, envelope: Envelope, schedule: seq<Slot>, answers: seq<bool>, count: nat)
      requires count <= |schedule|
      reads this
    {
      && Unblocked(config, envelope, schedule, answers, count)
      && attempts == base + Attempts(config, envelope, schedule, answers, count)
    }

    /** Deliver `schedule[count]`, the first of the slots `now`. */
    method DeliverNext(slot: Slot, envelope: Envelope, answers: seq<bool>, count: nat,
                       ghost base: seq<Attempt>, ghost schedule: seq<Slot>, ghost now: seq<Slot>, ghost rest: seq<Slot>)
      returns (ok: bool)
      requires count <= |schedule| && schedule[count..] == now + rest && now != [] && now[0] == slot
      requires Progress(base, envelope, schedule, answers, count)
      modifies this`attempts
      ensures count < |schedule| && schedule[count] == slot && schedule[count + 1..] == now[1..] + rest
      ensures attempts == base + Attempts(config, envelope, schedule, answers, count + 1)
      ensures ok == AttemptOn(config, envelope, slot, Answer(answers, count)).ok
      ensures ok || !slot.required ==> Progress(base, envelope, schedule, answers, count + 1)
    {
      HeadOfRest(schedule, count, now, rest);
      ok := DeliverDestination(slot, envelope, Answer(answers, count));
      AttemptsSnoc(config, envelope, schedule, answers, count);
    }

    /** A required destination failed: dead-letter the envelope and end the delivery. */
    method DeadLetter(slot: Slot, envelope: Envelope, answers: seq<bool>, outcome: SendOutcome, count: nat,
                      ghost base: seq<Attempt>, ghost schedule: seq<Slot>)
      returns (verdict: Verdict)
      requires count < |schedule| && schedule[count] == slot
      requires Unblocked(config, envelope, schedule, answers, count)
      requires Blocks(AttemptOn(config, envelope, slot, Answer(answers, count)))
      requires attempts == base + Attempts(config, envelope, schedule, answers, count + 1)
      modifies this`dlq
      ensures Stopped(base, old(dlq), envelope, schedule, answers, outcome, verdict)
    {
      CutAt(config, envelope, schedule, answers, count);
      var published := PublishFailed(envelope, RequiredFailed(slot.adapterId, slot.routeId), outcome);
      return if published then DoNotCommit else Failed(DlqUnavailable);
    }

    /** The loop over a route's required destinations; a failure is dead-lettered and ends the delivery. */
    method DeliverRequired(route: Route, envelope: Envelope, answers: seq<bool>, outcome: SendOutcome, from: nat,
                           ghost base: seq<Attempt>, ghost schedule: seq<Slot>, ghost rest: seq<Slot>)
      returns (verdict: Option<Verdict>, count: nat)
      requires from <= |schedule|
      requires schedule[from..] == SlotsFor(route, WithRequired(route.destinations, true)) + rest
      requires Progress(base, envelope, schedule, answers, from)
      modifies this`attempts, this`dlq
      ensures verdict.None? ==>
                && dlq == old(dlq) && count <= |schedule| && schedule[count..] == rest
                && Progress(base, envelope, schedule, answers, count)
      ensures verdict.Some? ==>
                Stopped(base, old(dlq), envelope, schedule, answers, outcome, verdict.value)
    {
      var required := WithRequired(route.destinations, true);
      ghost var slots := SlotsFor(route, required);
      count := from;
      for j := 0 to |required|
        invariant dlq == old(dlq)
        invariant count <= |schedule| && schedule[count..] == slots[j..] + rest
        invariant Progress(base, envelope, schedule, answers, count)
      {
        assert required[j] in required;
        var slot := Slot(route.id, required[j].adapterId, true);
        assert slots[j..][1..] == slots[j + 1..];
        var ok := DeliverNext(slot, envelope, answers, count, base, schedule, slots[j..], rest);
        if !ok {
          var ended := DeadLetter(slot, envelope, answers, outcome, count, base, schedule);
          return Some(ended), count + 1;
        }
        count := count + 1;
      }
      return None, count;
    }

    /** The loop over a route's optional destinations; failures are ignored. */
    method DeliverOptional(route: Route, envelope: Envelope, answers: seq<bool>, from: nat,
                           ghost base: seq<Attempt>, ghost schedule: seq<Slot>, ghost rest: seq<Slot>)
      returns (count: nat)
      requires from <= |schedule|
      requires schedule[from..] == SlotsFor(route, WithRequired(route.destinations, false)) + rest
      requires Progress(base, envelope, schedule, answers, from)
      modifies this`attempts
      ensures count <= |schedule| && schedule[count..] == rest
      ensures Progress(base, envelope, schedule, answers, count)
    {
      var optional := WithRequired(route.destinations, false);
      ghost var slots := SlotsFor(route, optional);
      count := from;
      for j := 0 to |optional|
        invariant count <= |schedule| && schedule[count..] == slots[j..] + rest
        invariant Progress(base, envelope, schedule, answers, count)
      {
        assert optional[j] in optional;
        var slot := Slot(route.id, optional[j].adapterId, false);
        assert slots[j..][1..] == slots[j + 1..];
        var _ := DeliverNext(slot, envelope, answers, count, base, schedule, slots[j..], rest);
        count := count + 1;
      }
    }

    /** One matched route: its required destinations, then its optional ones. */
    method DeliverRoute(route: Route, envelope: Envelope, answers: seq<bool>, outcome: SendOutcome, from: nat,
                        ghost base: seq<Attempt>, ghost schedule: seq<Slot>, ghost later: seq<Slot>)
      returns (verdict: Option<Verdict>, count: nat)
      requires from <= |schedule| && schedule[from..] == RouteSlots(route) + later
      requires Progress(base, envelope, schedule, answers, from)
      modifies this`attempts, this`dlq
      ensures verdict.None? ==>
                && dlq == old(dlq) && count <= |schedule| && schedule[count..] == later
                && Progress(base, envelope, schedule, answers, count)
      ensures verdict.Some? ==>
                Stopped(base, old(dlq), envelope, schedule, answers, outcome, verdict.value)
    {
      ghost var optional := SlotsFor(route, WithRequired(route.destinations, false));
      assert schedule[from..] == SlotsFor(route, WithRequired(route.destinations, true)) + (optional + later);
      verdict, count := DeliverRequired(route, envelope, answers, outcome, from, base, schedule, optional + later);
      if verdict.None? {
        count := DeliverOptional(route, envelope, answers, count, base, schedule, later);
      }
    }

    /** The delivery ended at the schedule's first required failure. */
    ghost predicate Stopped(base: seq<Attempt>, letters: seq<DlqRecord>, envelope: Envelope, schedule: seq<Slot>,
                            answers: seq<bool>, outcome: SendOutcome, verdict: Verdict)
      reads this
    {
      var cut := Cut(config, envelope, schedule, answers, 0);
      && cut < |schedule|
      && attempts == base + Attempts(config, envelope, schedule, answers, cut + 1)
      && dlq == letters + DlqWrites(
           DlqRecord(envelope, RequiredFailed(schedule[cut].adapterId, schedule[cut].routeId)), outcome)
      && verdict == if outcome.Acked? then DoNotCommit else Failed(DlqUnavailable)
    }

    method DeliverMatched(matched: seq<Route>, envelope: Envelope, answers: seq<bool>, outcome: SendOutcome)
      returns (verdict: Option<Verdict>, count: nat)
      modifies this`attempts, this`dlq
      ensures var schedule := Flatten(matched);
              && (verdict.None? ==>
                    && dlq == old(dlq) && count == |schedule|
                    && Progress(old(attempts), envelope, schedule, answers, count))
              && (verdict.Some? ==>
                    Stopped(old(attempts), old(dlq), envelope, schedule, answers, outcome, verdict.value))
    {
      ghost var base, schedule := attempts, Flatten(matched);
      count := 0;
      for i := 0 to |matched|
        invariant dlq == old(dlq)
        invariant count <= |schedule| && schedule[count..] == Flatten(matched[i..])
        invariant Progress(base, envelope, schedule, answers, count)
      {
        assert matched[i..][1..] == matched[i + 1..];
        verdict, count :=
          DeliverRoute(matched[i], envelope, answers, outcome, count, base, schedule, Flatten(matched[i + 1..]));
        if verdict.Some? {
          return;
        }
      }
      verdict := None;
    }

    method Conclude(topic: string, matched: seq<Route>, envelope: Envelope, answers: seq<bool>, outcome: SendOutcome)
      returns (verdict: Verdict)
      modifies this`attempts, this`dlq
      ensures var spec := DeliverTo(config, topic, matched, envelope, answers, outcome);
              && verdict == spec.verdict
              && attempts == old(attempts) + spec.attempts
              && dlq == old(dlq) + spec.dlq
    {
      if matched == [] {
        verdict := HandleNoOutput(envelope, NoMatchingRoute(topic, envelope.eventType), outcome);
        return;
      }
      var ended, count := DeliverMatched(matched, envelope, answers, outcome);
      ghost var schedule := Flatten(matched);
      if ended.Some? {
        assert attempts == old(attempts) + DeliverSchedule(config, schedule, envelope, answers, outcome).attempts;
        return ended.value;
      }
      if count == 0 {
        verdict := HandleNoOutput(envelope, NoActiveDestination(topic, envelope.eventType), outcome);
        return;
      }
      CutAt(config, envelope, schedule, answers, count);
      assert DeliverSchedule(config, schedule, envelope, answers, outcome) ==
             Delivery(Commit, Attempts(config, envelope, schedule, answers, count), []);
      return Commit;
    }

    /** Refines the flat schedule: same attempts, same dead letters, same verdict. */
    method DeliverToRoutes(topic: string, envelope: Envelope, answers: seq<bool>, outcome: SendOutcome)
      returns (verdict: Verdict)
      modifies this`attempts, this`dlq
      ensures var spec := Deliver(config, topic, envelope, answers, outcome);
              && verdict == spec.verdict
              && attempts == old(attempts) + spec.attempts
              && dlq == old(dlq) + spec.dlq
    {
      var matched := Matched(topic, envelope.eventType);
      verdict := Conclude(topic, matched, envelope, answers, outcome);
    }

    /** A commit asks for the offset after the message; only a `Commit` verdict asks for one. */
    method ProcessMessage(offset: nat, message: Message, io: Io) returns (ok: bool)
      modifies this
      ensures var spec := Process(config, message, io);
              && attempts == old(attempts) + spec.attempts
              && dlq == old(dlq) + spec.dlq
              && commitRequests == old(commitRequests) + (if spec.commits then [offset + 1] else [])
              && ok == !spec.failed
    {
      if !message.payload.Parsed? {
        return false;
      }
      var verdict := DeliverToRoutes(message.topic, message.payload.envelope, io.answers, io.dlq);
      match verdict {
        case Failed(_) =>
          return false;
        case DoNotCommit =>
          return true;
        case Commit =>
          if io.commitAccepted {
            commitRequests := commitRequests + [offset + 1];
          }
          return io.commitAccepted;
      }
    }
  }

  ghost predicate Unblocked(config: Config, envelope: Envelope, schedule: seq<Slot>, answers: seq<bool>, n: nat)
    requires n <= |schedule|
  {
    forall k :: 0 <= k < n ==> !Blocks(AttemptOn(config, envelope, schedule[k], Answer(answers, k)))
  }

  lemma {:induction false} HeadOfRest(schedule: seq<Slot>, count: nat, now: seq<Slot>, later: seq<Slot>)
    requires count <= |schedule| && schedule[count..] == now + later && now != []
    ensures count < |schedule| && schedule[count] == now[0] && schedule[count + 1..] == now[1..] + later
  {
    assert schedule[count] == schedule[count..][0];
    assert schedule[count + 1..] == schedule[count..][1..];
  }

  lemma {:induction false} AttemptsSnoc(
    config: Config, envelope: Envelope, schedule: seq<Slot>, answers: seq<bool>, n: nat)
    requires n < |schedule|
    ensures Attempts(config, envelope, schedule, answers, n + 1) ==
            Attempts(config, envelope, schedule, answers, n)
            + [AttemptOn(config, envelope, schedule[n], Answer(answers, n))]
  {}

  lemma {:induction false} CutAt(config: Config, envelope: Envelope, schedule: seq<Slot>, answers: seq<bool>, n: nat)
    requires n <= |schedule| && Unblocked(config, envelope, schedule, answers, n)
    requires n < |schedule| ==> Blocks(AttemptOn(config, envelope, schedule[n], Answer(answers, n)))
    ensures Cut(config, envelope, schedule, answers, 0) == n
  {}

  // ----- Laws of one delivery -----

  /** `slot` stands for one of the route's destinations. */
  ghost predicate SlotOf(route: Route, slot: Slot) {
    exists d :: d in route.destinations && slot == Slot(route.id, d.adapterId, d.required)
  }

  /** A slot is scheduled exactly for the destinations of the matching routes. */
  lemma {:induction false} ScheduledExactly(config: Config, topic: string, envelope: Envelope, slot: Slot)
    ensures slot in Schedule(config, topic, envelope) <==>
            exists route :: route in config.routes && RouteMatches(route, topic, envelope.eventType)
                            && SlotOf(route, slot)
  {
    var matched := MatchedRoutes(config.routes, topic, envelope.eventType);
    InFlatten(matched, slot);
    forall route
      ensures route in matched <==> route in config.routes && RouteMatches(route, topic, envelope.eventType)
    {
      InMatched(config.routes, topic, envelope.eventType, route);
    }
  }

  lemma {:induction false} InMatched(routes: seq<Route>, topic: string, eventType: string, route: Route)
    ensures route in MatchedRoutes(routes, topic, eventType) <==>
            route in routes && RouteMatches(route, topic, eventType)
  {
    if routes != [] {
      InMatched(routes[1..], topic, eventType, route);
      assert routes == [routes[0]] + routes[1..];
    }
  }

  lemma {:induction false} InFlatten(routes: seq<Route>, slot: Slot)
    ensures slot in Flatten(routes) <==> exists route :: route in routes && SlotOf(route, slot)
  {
    if routes != [] {
      InFlatten(routes[1..], slot);
      InRouteSlots(routes[0], slot);
      assert routes == [routes[0]] + routes[1..];
    }
  }

  lemma {:induction false} InRouteSlots(route: Route, slot: Slot)
    ensures slot in RouteSlots(route) <==> SlotOf(route, slot)
  {
    var required, optional := WithRequired(route.destinations, true), WithRequired(route.destinations, false);
    if d :| d in route.destinations && slot == Slot(route.id, d.adapterId, d.required) {
      if d.required {
        var i :| 0 <= i < |required| && required[i] == d;
        assert SlotsFor(route, required)[i] == slot;
      } else {
        var i :| 0 <= i < |optional| && optional[i] == d;
        assert SlotsFor(route, optional)[i] == slot;
      }
    }
    if slot in RouteSlots(route) {
      if slot in SlotsFor(route, required) {
        var i :| 0 <= i < |required| && SlotsFor(route, required)[i] == slot;
        assert required[i] in required;
      } else {
        var i :| 0 <= i < |optional| && SlotsFor(route, optional)[i] == slot;
        assert optional[i] in optional;
      }
    }
  }

  /**
    The attempts follow the schedule slot by slot and stop early only at a required
    failure: every attempt but the last lets the delivery go on, and the last one blocks
    exactly when the schedule was cut.
   */
  ghost predicate Follows(attempts: seq<Attempt>, schedule: seq<Slot>) {
    var n := |attempts|;
    && 1 <= n <= |schedule|
    && (forall k :: 0 <= k < n ==> attempts[k].slot == schedule[k])
    && (forall k :: 0 <= k < n - 1 ==> !Blocks(attempts[k]))
    && (n < |schedule| ==> Blocks(attempts[n - 1]))
  }

  /**
    The verdict is `Commit` exactly when the last attempt does not block; a blocked
    delivery is not committed, and an acknowledged dead letter is written exactly once,
    with the original envelope and the failed adapter and route.
   */
  ghost predicate DecidedByLast(d: Delivery, schedule: seq<Slot>, envelope: Envelope, outcome: SendOutcome) {
    d.attempts != [] &&
    var last := d.attempts[|d.attempts| - 1];
    && (d.verdict == Commit <==> !Blocks(last))
    && (d.verdict == Commit ==> |d.attempts| == |schedule| && d.dlq == [])
    && (d.verdict == DoNotCommit <==> Blocks(last) && outcome.Acked?)
    && (d.verdict == DoNotCommit ==>
          d.dlq == [DlqRecord(envelope, RequiredFailed(last.slot.adapterId, last.slot.routeId))])
  }

  lemma {:induction false} ScheduleFollowed(
    config: Config, schedule: seq<Slot>, envelope: Envelope, answers: seq<bool>, outcome: SendOutcome)
    requires schedule != []
    ensures Follows(DeliverSchedule(config, schedule, envelope, answers, outcome).attempts, schedule)
  {
    var cut := Cut(config, envelope, schedule, answers, 0);
    var n := if cut == |schedule| then cut else cut + 1;
    assert DeliverSchedule(config, schedule, envelope, answers, outcome).attempts ==
           Attempts(config, envelope, schedule, answers, n);
  }

  lemma {:induction false} ScheduleDecides(
    config: Config, schedule: seq<Slot>, envelope: Envelope, answers: seq<bool>, outcome: SendOutcome)
    requires schedule != []
    ensures DecidedByLast(DeliverSchedule(config, schedule, envelope, answers, outcome), schedule, envelope, outcome)
  {
    var cut := Cut(config, envelope, schedule, answers, 0);
    var last := if cut == |schedule| then cut - 1 else cut;
    assert DeliverSchedule(config, schedule, envelope, answers, outcome).attempts[last] ==
           AttemptOn(config, envelope, schedule[last], Answer(answers, last));
  }

  lemma {:induction false} AttemptsFollowSchedule(
    config: Config, topic: string, matched: seq<Route>, envelope: Envelope, answers: seq<bool>, outcome: SendOutcome)
    requires Flatten(matched) != []
    ensures Follows(DeliverTo(config, topic, matched, envelope, answers, outcome).attempts, Flatten(matched))
  {
    ScheduleFollowed(config, Flatten(matched), envelope, answers, outcome);
  }

  lemma {:induction false} VerdictFollowsAttempts(
    config: Config, topic: string, matched: seq<Route>, envelope: Envelope, answers: seq<bool>, outcome: SendOutcome)
    requires Flatten(matched) != []
    ensures DecidedByLast(DeliverTo(config, topic, matched, envelope, answers, outcome), Flatten(matched),
                          envelope, outcome)
  {
    ScheduleDecides(config, Flatten(matched), envelope, answers, outcome);
  }

  lemma {:induction false} ScheduleAttemptAt(
    config: Config, schedule: seq<Slot>, envelope: Envelope, answers: seq<bool>, outcome: SendOutcome, k: nat)
    requires k < |DeliverSchedule(config, schedule, envelope, answers, outcome).attempts|
    ensures k < |schedule|
    ensures DeliverSchedule(config, schedule, envelope, answers, outcome).attempts[k] ==
            AttemptOn(config, envelope, schedule[k], Answer(answers, k))
  {}

  /** An attempt hands the adapter its own plugins' output, unless a plugin rejects or there is no adapter. */
  ghost predicate SeesOriginal(config: Config, envelope: Envelope, a: Attempt) {
    var plugins := PluginsFor(config, a.slot.adapterId);
    && (a.sent.Some? <==> a.slot.adapterId in config.adapters && !Rejects(plugins, envelope.payload))
    && (a.sent.Some? ==> a.sent.value == Transformed(plugins, envelope))
    && (a.ok ==> a.sent.Some?)
  }

  lemma {:induction false} AttemptSeesOriginal(config: Config, envelope: Envelope, slot: Slot, answer: bool)
    ensures SeesOriginal(config, envelope, AttemptOn(config, envelope, slot, answer))
  {}

  /** Every adapter call gets that adapter's plugins applied to the original envelope. */
  lemma {:induction false} AttemptsSeeOriginal(config: Config, topic: string, matched: seq<Route>, envelope: Envelope,
                            answers: seq<bool>, outcome: SendOutcome, k: nat)
    requires k < |DeliverTo(config, topic, matched, envelope, answers, outcome).attempts|
    ensures SeesOriginal(config, envelope, DeliverTo(config, topic, matched, envelope, answers, outcome).attempts[k])
  {
    assert matched != [] && Flatten(matched) != [];
    ScheduleAttemptAt(config, Flatten(matched), envelope, answers, outcome, k);
    AttemptSeesOriginal(config, envelope, Flatten(matched)[k], Answer(answers, k));
  }

  /** Two answer sequences that agree on the required slots of a schedule. */
  ghost predicate AgreeOnRequired(schedule: seq<Slot>, a: seq<bool>, b: seq<bool>) {
    forall k :: 0 <= k < |schedule| && schedule[k].required ==> Answer(a, k) == Answer(b, k)
  }

  ghost predicate SameCalls(a: seq<Attempt>, b: seq<Attempt>) {
    && |a| == |b|
    && forall k :: 0 <= k < |a| ==> a[k].slot == b[k].slot && a[k].sent == b[k].sent
  }

  lemma {:induction false} SchedulesAgree(config: Config, schedule: seq<Slot>, envelope: Envelope,
                                          a: seq<bool>, b: seq<bool>, outcome: SendOutcome)
    requires AgreeOnRequired(schedule, a, b)
    ensures var da := DeliverSchedule(config, schedule, envelope, a, outcome);
            var db := DeliverSchedule(config, schedule, envelope, b, outcome);
            da.verdict == db.verdict && da.dlq == db.dlq && SameCalls(da.attempts, db.attempts)
  {
    CutsAgree(config, envelope, schedule, a, b, 0);
  }

  /** What optional destinations answer changes neither the verdict nor what is attempted. */
  lemma {:induction false} OptionalAnswersIrrelevant(
    config: Config, topic: string, matched: seq<Route>, envelope: Envelope,
    a: seq<bool>, b: seq<bool>, outcome: SendOutcome)
    requires AgreeOnRequired(Flatten(matched), a, b)
    ensures var da := DeliverTo(config, topic, matched, envelope, a, outcome);
            var db := DeliverTo(config, topic, matched, envelope, b, outcome);
            da.verdict == db.verdict && da.dlq == db.dlq && SameCalls(da.attempts, db.attempts)
  {
    SchedulesAgree(config, Flatten(matched), envelope, a, b, outcome);
  }

  lemma {:induction false} CutsAgree(
    config: Config, envelope: Envelope, schedule: seq<Slot>, a: seq<bool>, b: seq<bool>, from: nat)
    requires from <= |schedule| && AgreeOnRequired(schedule, a, b)
    ensures Cut(config, envelope, schedule, a, from) == Cut(config, envelope, schedule, b, from)
    decreases |schedule| - from
  {
    if from < |schedule| {
      CutsAgree(config, envelope, schedule, a, b, from + 1);
    }
  }
}
