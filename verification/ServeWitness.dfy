/** Plain Linear requests for which the runs of the replay module exist. */
module ServeWitness {
  import opened Wrappers
  import opened Text
  import opened Arithmetic
  import opened Json
  import opened Sources
  import opened Serve
  import opened ServeRun
  import opened ServeReplay
  import opened LockedMap
  import Idempotency
  import Timestamps

  /** A serve with Linear enabled and nothing else configured. */
  function Plain(policy: Idempotency.Policy, window: int, capacity: nat): Config {
    Config(["linear"], "webhooks", [], 3, policy, true, window, [], [], None, [], capacity)
  }

  function PlainPayload(epoch: int): Value { Object([Member("webhookTimestamp", Number(Integer(epoch)))]) }

  function PlainRequest(delivery: string, epoch: int, now: int): Request {
    Request("linear", map["Linear-Event" := "e", "Linear-Delivery" := delivery], Authentic, Some(PlainPayload(epoch)),
            now, "id", "trace", "then")
  }

  function PlainChecked(delivery: string, epoch: int): Checked {
    Checked("e", PrintDedupKey(Linear, delivery, "unknown", "unknown"), None, PlainPayload(epoch))
  }

  lemma {:induction false} LinearIsLower()
    ensures ToLower("linear") == "linear"
  {
    assert "linear"[1..] == "inear" && "inear"[1..] == "near" && "near"[1..] == "ear" && "ear"[1..] == "ar";
    assert "ar"[1..] == "r" && "r"[1..] == "";
    assert ToLower("ear") == "ear";
  }

  lemma {:induction false} LinearIsResolved(config: Config, request: Request)
    requires request.path == "linear" && config.enabledSources == ["linear"]
    ensures Resolve(config, request) == Some(Linear)
  {
    LinearIsLower();
    LinearIsTrimmed();
  }

  lemma {:induction false} LinearIsTrimmed()
    ensures Trim("linear") == "linear"
  {}

  lemma {:induction false} OnlyTimestamp(epoch: int, key: string)
    requires key != "webhookTimestamp"
    ensures Get(PlainPayload(epoch), key) == None
  {
    var members := PlainPayload(epoch).members;
    assert members[0].key == "webhookTimestamp" && members[1..] == [];
    assert Find(members[1..], key) == None;
  }

  lemma {:induction false} PlainKeys(epoch: int)
    ensures var payload := PlainPayload(epoch);
            && TextField(payload, "type") == None && TextField(payload, "action") == None
            && PayloadToken(payload, ["action"]) == None && DedupEntity(Linear, payload) == "unknown"
            && CooldownKey(Linear, payload) == None
  {
    forall key | key in ["type", "action", "data", "webhookId"]
      ensures Get(PlainPayload(epoch), key) == None
    {
      OnlyTimestamp(epoch, key);
    }
    assert Get(PlainPayload(epoch), "type") == None && Get(PlainPayload(epoch), "action") == None;
    assert Get(PlainPayload(epoch), "data") == None && Get(PlainPayload(epoch), "webhookId") == None;
  }

  lemma {:induction false} PlainIsChecked(config: Config, delivery: string, epoch: int, now: int)
    requires NonBlank(delivery) == Some(delivery) && 0 <= epoch <= Timestamps.MILLISECOND_THRESHOLD
    requires Distance(now, epoch) <= config.linearWindowSeconds <= I64_MAX && 0 <= now <= I64_MAX
    ensures Precheck(config, Linear, PlainRequest(delivery, epoch, now)) == Ok(PlainChecked(delivery, epoch))
    ensures Timestamps.ExtractEpoch(PlainPayload(epoch)) == Some(epoch)
  {
    PlainKeys(epoch);
    assert Timestamps.ExtractEpoch(PlainPayload(epoch)) == Some(epoch);
    Timestamps.WindowExact(PlainPayload(epoch), now, config.linearWindowSeconds);
    assert NonBlank("e") == Some("e");
    assert ToLower("e") == "e" by { assert "e"[1..] == ""; }
  }

  lemma {:induction false} PlainIsPrepared(config: Config, request: Request, checked: Checked)
    requires config.plugins == [] && config.routes == [] && checked.payload.Object?
    ensures Prepare(config, Linear, request, checked).Ok?
  {
    LinearIsTrimmed();
  }

  /** A plain request is deliverable and has no cooldown key. */
  lemma {:induction false} PlainIsDeliverable(config: Config, delivery: string, epoch: int, now: int)
    returns (p: Parcel)
    requires config.enabledSources == ["linear"] && config.plugins == [] && config.routes == []
    requires NonBlank(delivery) == Some(delivery) && 0 <= epoch <= Timestamps.MILLISECOND_THRESHOLD
    requires Distance(now, epoch) <= config.linearWindowSeconds <= I64_MAX && 0 <= now <= I64_MAX
    ensures Deliverable(config, p) && p.source == Linear && p.checked == PlainChecked(delivery, epoch)
    ensures p.request == PlainRequest(delivery, epoch, now)
    ensures Timestamps.ExtractEpoch(p.checked.payload) == Some(epoch)
  {
    var request, checked := PlainRequest(delivery, epoch, now), PlainChecked(delivery, epoch);
    LinearIsResolved(config, request);
    PlainIsChecked(config, delivery, epoch, now);
    PlainIsPrepared(config, request, checked);
    p := Parcel(request, Linear, checked, Prepare(config, Linear, request, checked).value);
  }

  lemma {:induction false} TwoDeliveries()
    ensures NonBlank("1") == Some("1") && NonBlank("2") == Some("2")
    ensures PrintDedupKey(Linear, "1", "unknown", "unknown") != PrintDedupKey(Linear, "2", "unknown", "unknown")
  {
    var one, two := PrintDedupKey(Linear, "1", "unknown", "unknown"), PrintDedupKey(Linear, "2", "unknown", "unknown");
    assert one[7] == '1' && two[7] == '2';
  }

  /** There is a run in which a delivery that found the queue full is turned away when retried. */
  lemma {:induction false} RetryIsShutOutSomewhere() returns (config: Config, after: State)
    ensures Reachable(config, after) && |after.phases| == 3 == |after.requests| && HasRoom(config, after)
    ensures after.phases[1] == Done(QueueFull) && after.phases[2] == Done(DUPLICATE)
    ensures after.requests[2] == Replayed(after.requests[1], 1)
  {
    config := Plain(Idempotency.Policy(10, 1), 60, 1);
    TwoDeliveries();
    var filler := PlainIsDeliverable(config, "1", 100, 100);
    var p := PlainIsDeliverable(config, "2", 100, 100);
    PlainIsChecked(config, "2", 100, 101);
    after := RetryShutOut(config, filler, p, 1);
  }

  /** For every window there is a configuration at the bound, and a run that queues one delivery twice. */
  lemma {:induction false} ReplayHappensSomewhere(window: int)
    returns (config: Config, p: Parcel, again: Parcel, after: State)
    requires 0 < window <= Timestamps.MILLISECOND_THRESHOLD
    ensures config.enforceLinearWindow && config.linearWindowSeconds == window && config.policy.dedupTtl == 2 * window
    ensures Reachable(config, after) && QueuedBoth(after, p, again, 1)
    ensures SameDelivery(config, p.request, again.request)
  {
    config := Plain(Idempotency.Policy(2 * window, 1), window, 2);
    TwoDeliveries();
    p := PlainIsDeliverable(config, "1", window, 0);
    again, after := ReplayQueuedTwice(config, p);
  }

  /** The same for every window and positive lag, at the lifetime of two windows and the lag. */
  lemma {:induction false} LaggingReplayHappensSomewhere(window: int, lag: nat)
    returns (config: Config, p: Parcel, again: Parcel, after: State)
    requires 0 < window && 0 < lag && 2 * window + lag <= Timestamps.MILLISECOND_THRESHOLD
    ensures config.enforceLinearWindow && config.linearWindowSeconds == window
    ensures config.policy.dedupTtl == 2 * window + lag && VisitLag(after.dedupVisits, lag)
    ensures Reachable(config, after) && QueuedBoth(after, p, again, 2)
    ensures SameDelivery(config, p.request, again.request)
  {
    var ttl := 2 * window + lag;
    config := Plain(Idempotency.Policy(ttl, 1), window, 3);
    TwoDeliveries();
    p := PlainIsDeliverable(config, "1", window, 0);
    var other := PlainIsDeliverable(config, "2", ttl, ttl);
    again, after := ReplayQueuedTwiceWithLag(config, p, other, lag);
  }
}
