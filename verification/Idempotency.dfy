/**
  The serve-side idempotency store: a deduplication map and a cooldown map with
  expiry, pruned on every use. Its decisions are compared with a specification that
  keeps the whole history and never prunes.
 */
module Idempotency {
  import opened Wrappers
  import opened ExpiringMap
  import opened Arithmetic

  datatype Decision = Accept | Duplicate | Cooldown

  datatype Policy = Policy(dedupTtl: int, cooldown: int)

  datatype Call = Call(dedupKey: string, cooldownKey: Option<string>, now: int)

  datatype Store = Store(dedup: map<string, int>, cooldowns: map<string, int>)

  /** A call that was answered. */
  datatype Entry = Entry(call: Call, decision: Decision)

  predicate HasCooldownKey(call: Call) {
    call.cooldownKey.Some? && call.cooldownKey.value != ""
  }

  /** One call of `check` on the two maps. */
  function Decide(policy: Policy, store: Store, call: Call): (Store, Decision) {
    if call.dedupKey == "" then (store, Accept)
    else
      var dedup := Prune(store.dedup, call.now);
      if call.dedupKey in dedup && dedup[call.dedupKey] > call.now then
        (store.(dedup := dedup), Duplicate)
      else
        var recorded := store.(dedup := dedup[call.dedupKey := call.now + policy.dedupTtl]);
        if !HasCooldownKey(call) then (recorded, Accept)
        else
          var key := call.cooldownKey.value;
          var cooldowns := Prune(store.cooldowns, call.now);
          if key in cooldowns && cooldowns[key] > call.now then
            (recorded.(cooldowns := cooldowns), Cooldown)
          else
            (recorded.(cooldowns := cooldowns[key := call.now + policy.cooldown]), Accept)
  }

  function StoreAfter(policy: Policy, history: seq<Entry>): Store {
    if history == [] then Store(map[], map[])
    else Decide(policy, StoreAfter(policy, history[..|history| - 1]), history[|history| - 1].call).0
  }

  /** The recorded decisions are the ones the store gave, starting from empty maps. */
  ghost predicate Genuine(policy: Policy, history: seq<Entry>) {
    history == [] ||
    var n := |history| - 1;
    && Genuine(policy, history[..n])
    && history[n].decision == Decide(policy, StoreAfter(policy, history[..n]), history[n].call).1
  }

  /** No call's clock is more than `lag` behind an earlier call's clock. */
  ghost predicate LagAtMost(history: seq<Entry>, lag: int) {
    forall i, j :: 0 <= i < j < |history| ==> history[i].call.now <= history[j].call.now + lag
  }

  // ----- The source's store -----

  class IdempotencyStore {
    const policy: Policy
    var dedupExpirations: map<string, int>
    var cooldownExpirations: map<string, int>
    ghost var history: seq<Entry>

    ghost predicate Valid()
      reads this
    {
      && Genuine(policy, history)
      && StoreAfter(policy, history) == Store(dedupExpirations, cooldownExpirations)
    }

    constructor (dedupTtlSeconds: int, cooldownSeconds: int)
      ensures Valid() && history == [] && policy == Policy(dedupTtlSeconds, cooldownSeconds)
    {
      policy := Policy(dedupTtlSeconds, cooldownSeconds);
      dedupExpirations, cooldownExpirations, history := map[], map[], [];
    }

    /**
      The answer extends a genuine history, so every lemma about histories below is
      about this method; on a clock that never went back it is the unpruned answer.
     */
    method Check(dedupKey: string, cooldownKey: Option<string>, now: int) returns (decision: Decision)
      requires Valid()
      modifies this
      ensures Valid()
      ensures history == old(history) + [Entry(Call(dedupKey, cooldownKey, now), decision)]
      ensures LagAtMost(history, 0) ==>
                decision == Expected(policy, old(history), Call(dedupKey, cooldownKey, now))
    {
      decision := Update(dedupKey, cooldownKey, now);
      ghost var entry := Entry(Call(dedupKey, cooldownKey, now), decision);
      GenuineSnoc(policy, history, entry);
      AnswerExpected(policy, history, entry);
      history := history + [entry];
    }

    /** The two locked sections, one per map. */
    method Update(dedupKey: string, cooldownKey: Option<string>, now: int) returns (decision: Decision)
      modifies this`dedupExpirations, this`cooldownExpirations
      ensures (Store(dedupExpirations, cooldownExpirations), decision) ==
              Decide(policy, Store(old(dedupExpirations), old(cooldownExpirations)),
                     Call(dedupKey, cooldownKey, now))
    {
      if dedupKey == "" {
        return Accept;
      }

      dedupExpirations := Prune(dedupExpirations, now);
      if dedupKey in dedupExpirations && dedupExpirations[dedupKey] > now {
        return Duplicate;
      }
      dedupExpirations := dedupExpirations[dedupKey := now + policy.dedupTtl];

      if cooldownKey.None? || cooldownKey.value == "" {
        return Accept;
      }
      var key := cooldownKey.value;
      cooldownExpirations := Prune(cooldownExpirations, now);
      if key in cooldownExpirations && cooldownExpirations[key] > now {
        return Cooldown;
      }
      cooldownExpirations := cooldownExpirations[key := now + policy.cooldown];
      return Accept;
    }
  }

  lemma {:induction false} GenuineSnoc(policy: Policy, history: seq<Entry>, entry: Entry)
    requires Genuine(policy, history)
    requires entry.decision == Decide(policy, StoreAfter(policy, history), entry.call).1
    ensures Genuine(policy, history + [entry])
    ensures StoreAfter(policy, history + [entry]) ==
            Decide(policy, StoreAfter(policy, history), entry.call).0
  {
    assert (history + [entry])[..|history|] == history;
  }

  lemma {:induction false} GenuinePrefix(policy: Policy, history: seq<Entry>, n: nat)
    requires n <= |history| && Genuine(policy, history)
    ensures Genuine(policy, history[..n])
    decreases |history|
  {
    if n == |history| {
      assert history[..n] == history;
    } else {
      var m := |history| - 1;
      GenuinePrefix(policy, history[..m], n);
      assert history[..m][..n] == history[..n];
    }
  }

  lemma {:induction false} GenuineAt(policy: Policy, history: seq<Entry>, n: nat)
    requires n < |history| && Genuine(policy, history)
    ensures Genuine(policy, history[..n])
    ensures history[n].decision == Decide(policy, StoreAfter(policy, history[..n]), history[n].call).1
  {
    GenuinePrefix(policy, history, n);
    GenuinePrefix(policy, history, n + 1);
    assert history[..n + 1][..n] == history[..n];
  }

  // ----- The two maps as expiring maps -----

  /** The call wrote its deduplication key; a `Cooldown` answer writes it as well. */
  ghost predicate Records(entry: Entry, key: string) {
    key != "" && entry.call.dedupKey == key && entry.decision != Duplicate
  }

  /** The call wrote its cooldown key. */
  ghost predicate Charges(entry: Entry, key: string) {
    && entry.call.dedupKey != ""
    && HasCooldownKey(entry.call)
    && entry.call.cooldownKey.value == key
    && entry.decision == Accept
  }

  ghost function DedupTouch(entry: Entry): Touch {
    Touch(entry.call.now, entry.call.dedupKey != "",
          if entry.call.dedupKey != "" && entry.decision != Duplicate then Some(entry.call.dedupKey) else None)
  }

  ghost function CooldownTouch(entry: Entry): Touch {
    var reached := entry.call.dedupKey != "" && entry.decision != Duplicate && HasCooldownKey(entry.call);
    Touch(entry.call.now, reached,
          if reached && entry.decision == Accept then Some(entry.call.cooldownKey.value) else None)
  }

  ghost function DedupTouches(history: seq<Entry>): (touches: seq<Touch>)
    ensures |touches| == |history|
    ensures forall i :: 0 <= i < |history| ==> touches[i] == DedupTouch(history[i])
  {
    seq(|history|, i requires 0 <= i < |history| => DedupTouch(history[i]))
  }

  ghost function CooldownTouches(history: seq<Entry>): (touches: seq<Touch>)
    ensures |touches| == |history|
    ensures forall i :: 0 <= i < |history| ==> touches[i] == CooldownTouch(history[i])
  {
    seq(|history|, i requires 0 <= i < |history| => CooldownTouch(history[i]))
  }

  /** Seen from each map, one call is one touch. */
  lemma {:induction false} DecideTouches(policy: Policy, store: Store, entry: Entry)
    requires entry.decision == Decide(policy, store, entry.call).1
    ensures var after := Decide(policy, store, entry.call).0;
            && after.dedup == Apply(policy.dedupTtl, store.dedup, DedupTouch(entry))
            && after.cooldowns == Apply(policy.cooldown, store.cooldowns, CooldownTouch(entry))
  {}

  lemma {:induction false} StoreIsExpiringMaps(policy: Policy, history: seq<Entry>)
    requires Genuine(policy, history)
    ensures StoreAfter(policy, history).dedup == After(policy.dedupTtl, DedupTouches(history))
    ensures StoreAfter(policy, history).cooldowns == After(policy.cooldown, CooldownTouches(history))
  {
    if history != [] {
      var n := |history| - 1;
      StoreIsExpiringMaps(policy, history[..n]);
      assert DedupTouches(history)[..n] == DedupTouches(history[..n]);
      assert CooldownTouches(history)[..n] == CooldownTouches(history[..n]);
      DecideTouches(policy, StoreAfter(policy, history[..n]), history[n]);
    }
  }

  lemma {:induction false} StoreIsDisciplined(policy: Policy, history: seq<Entry>)
    requires Genuine(policy, history)
    ensures Disciplined(policy.dedupTtl, DedupTouches(history))
    ensures Disciplined(policy.cooldown, CooldownTouches(history))
  {
    if history != [] {
      var n := |history| - 1;
      StoreIsDisciplined(policy, history[..n]);
      StoreIsExpiringMaps(policy, history[..n]);
      assert DedupTouches(history)[..n] == DedupTouches(history[..n]);
      assert CooldownTouches(history)[..n] == CooldownTouches(history[..n]);
    }
  }

  // ----- Exact decisions under any clock -----

  /** Entry `i` wrote `key`, has not expired at `now`, and no later call pruned it away. */
  ghost predicate DedupLive(policy: Policy, history: seq<Entry>, i: int, key: string, now: int) {
    && 0 <= i < |history|
    && Records(history[i], key)
    && now < history[i].call.now + policy.dedupTtl
    && forall q :: i < q < |history| && history[q].call.dedupKey != "" ==>
         history[q].call.now < history[i].call.now + policy.dedupTtl
  }

  /** The calls that get as far as the cooldown map. */
  ghost predicate ReachesCooldown(entry: Entry) {
    entry.call.dedupKey != "" && entry.decision != Duplicate && HasCooldownKey(entry.call)
  }

  ghost predicate CooldownLive(policy: Policy, history: seq<Entry>, i: int, key: string, now: int) {
    && 0 <= i < |history|
    && Charges(history[i], key)
    && now < history[i].call.now + policy.cooldown
    && forall q :: i < q < |history| && ReachesCooldown(history[q]) ==>
         history[q].call.now < history[i].call.now + policy.cooldown
  }

  lemma {:induction false} DedupMapExact(policy: Policy, history: seq<Entry>, key: string, now: int)
    requires Genuine(policy, history) && key != ""
    ensures key in Prune(StoreAfter(policy, history).dedup, now) <==>
            exists i :: DedupLive(policy, history, i, key, now)
  {
    var ttl, touches := policy.dedupTtl, DedupTouches(history);
    StoreIsExpiringMaps(policy, history);
    StoreIsDisciplined(policy, history);
    HoldsExactlyLive(ttl, touches, key);
    forall i
      ensures DedupLive(policy, history, i, key, now) <==>
              Live(ttl, touches, i, key) && now < touches[i].now + ttl
    {
      if DedupLive(policy, history, i, key, now) {
        assert Live(ttl, touches, i, key);
      }
      if Live(ttl, touches, i, key) && now < touches[i].now + ttl {
        assert touches[i] == DedupTouch(history[i]);
        forall q | i < q < |history| && history[q].call.dedupKey != ""
          ensures history[q].call.now < history[i].call.now + ttl
        {
          assert touches[q].prunes;
        }
      }
    }
  }

  lemma {:induction false} CooldownMapExact(policy: Policy, history: seq<Entry>, key: string, now: int)
    requires Genuine(policy, history) && key != ""
    ensures key in Prune(StoreAfter(policy, history).cooldowns, now) <==>
            exists i :: CooldownLive(policy, history, i, key, now)
  {
    var ttl, touches := policy.cooldown, CooldownTouches(history);
    StoreIsExpiringMaps(policy, history);
    StoreIsDisciplined(policy, history);
    HoldsExactlyLive(ttl, touches, key);
    forall i
      ensures CooldownLive(policy, history, i, key, now) <==>
              Live(ttl, touches, i, key) && now < touches[i].now + ttl
    {
      if CooldownLive(policy, history, i, key, now) {
        assert Live(ttl, touches, i, key);
      }
      if Live(ttl, touches, i, key) && now < touches[i].now + ttl {
        assert touches[i] == CooldownTouch(history[i]);
        forall q | i < q < |history| && ReachesCooldown(history[q])
          ensures history[q].call.now < history[i].call.now + ttl
        {
          assert touches[q].prunes;
        }
      }
    }
  }

  /** The decision of every call, whatever the clock did: pruning is the only way to forget. */
  lemma {:induction false} DecisionExact(policy: Policy, history: seq<Entry>, n: nat)
    requires Genuine(policy, history) && n < |history|
    ensures var call := history[n].call;
            var dup := call.dedupKey != ""
                       && exists i :: DedupLive(policy, history[..n], i, call.dedupKey, call.now);
            var cool := call.dedupKey != "" && HasCooldownKey(call)
                        && exists i :: CooldownLive(policy, history[..n], i, call.cooldownKey.value, call.now);
            history[n].decision == if dup then Duplicate else if cool then Cooldown else Accept
  {
    var call := history[n].call;
    GenuineAt(policy, history, n);
    if call.dedupKey != "" {
      DedupMapExact(policy, history[..n], call.dedupKey, call.now);
      if HasCooldownKey(call) {
        CooldownMapExact(policy, history[..n], call.cooldownKey.value, call.now);
      }
    }
  }

  // ----- The history specification -----

  /** An earlier call wrote this key less than the lifetime ago. */
  ghost predicate SeenRecently(policy: Policy, history: seq<Entry>, key: string, now: int) {
    exists i :: 0 <= i < |history| && Records(history[i], key) && now - history[i].call.now < policy.dedupTtl
  }

  ghost predicate CoolingDown(policy: Policy, history: seq<Entry>, key: string, now: int) {
    exists i :: 0 <= i < |history| && Charges(history[i], key) && now - history[i].call.now < policy.cooldown
  }

  /** The decision read off the whole history; nothing is ever forgotten. */
  ghost function Expected(policy: Policy, history: seq<Entry>, call: Call): Decision {
    if call.dedupKey == "" then Accept
    else if SeenRecently(policy, history, call.dedupKey, call.now) then Duplicate
    else if HasCooldownKey(call) && CoolingDown(policy, history, call.cooldownKey.value, call.now) then Cooldown
    else Accept
  }

  /** On a non-decreasing clock the pruned maps answer as the full history does. */
  lemma {:induction false} PruningUnobservable(policy: Policy, history: seq<Entry>, n: nat)
    requires Genuine(policy, history) && LagAtMost(history, 0) && n < |history|
    ensures history[n].decision == Expected(policy, history[..n], history[n].call)
  {
    var past, call := history[..n], history[n].call;
    DecisionExact(policy, history, n);
    forall i, key | 0 <= i < n && Records(past[i], key)
      ensures DedupLive(policy, past, i, key, call.now) <==> call.now - past[i].call.now < policy.dedupTtl
    {
      forall q | i < q < n ensures past[q].call.now <= call.now {}
    }
    forall i, key | 0 <= i < n && Charges(past[i], key)
      ensures CooldownLive(policy, past, i, key, call.now) <==> call.now - past[i].call.now < policy.cooldown
    {
      forall q | i < q < n ensures past[q].call.now <= call.now {}
    }
  }

  /** Whatever the clock does, a rejection is always justified by the history. */
  lemma {:induction false} RejectionsJustified(policy: Policy, history: seq<Entry>, n: nat)
    requires Genuine(policy, history) && n < |history|
    ensures var call := history[n].call;
            && (history[n].decision == Duplicate ==>
                  SeenRecently(policy, history[..n], call.dedupKey, call.now))
            && (history[n].decision == Cooldown ==>
                  HasCooldownKey(call) && CoolingDown(policy, history[..n], call.cooldownKey.value, call.now))
  {
    DecisionExact(policy, history, n);
  }

  /** A call after `i` carried a clock past the expiry of what `i` wrote, and pruned it. */
  ghost predicate PrunedSince(policy: Policy, history: seq<Entry>, i: nat)
    requires i < |history|
  {
    exists q :: i < q < |history| && history[q].call.dedupKey != ""
                && history[q].call.now >= history[i].call.now + policy.dedupTtl
  }

  /** The store lets a key through within its lifetime exactly when every recent writer was pruned by a faster clock. */
  lemma {:induction false} ForgetsExactly(policy: Policy, history: seq<Entry>, n: nat)
    requires Genuine(policy, history) && n < |history| && history[n].call.dedupKey != ""
    requires SeenRecently(policy, history[..n], history[n].call.dedupKey, history[n].call.now)
    ensures var past, call := history[..n], history[n].call;
            history[n].decision != Duplicate <==>
            forall i :: (0 <= i < n && Records(past[i], call.dedupKey)
                         && call.now - past[i].call.now < policy.dedupTtl) ==>
              PrunedSince(policy, past, i)
  {
    var past, call := history[..n], history[n].call;
    DecisionExact(policy, history, n);
    forall i | 0 <= i < n
      ensures DedupLive(policy, past, i, call.dedupKey, call.now) <==>
              Records(past[i], call.dedupKey) && call.now - past[i].call.now < policy.dedupTtl
              && !PrunedSince(policy, past, i)
    {}
  }

  /** A clock that steps back can see a key accepted twice within its lifetime. */
  lemma {:induction false} BackwardClockForgets(ttl: int)
    requires ttl > 0
    ensures var policy := Policy(ttl, 1);
            var first := Entry(Call("a", None, 0), Accept);
            var other := Entry(Call("b", None, ttl), Accept);
            var again := Entry(Call("a", None, ttl - 1), Accept);
            && Genuine(policy, [first, other] + [again])
            && Expected(policy, [first, other], again.call) == Duplicate
  {
    var policy := Policy(ttl, 1);
    var first := Entry(Call("a", None, 0), Accept);
    var other := Entry(Call("b", None, ttl), Accept);
    var again := Entry(Call("a", None, ttl - 1), Accept);
    GenuineSnoc(policy, [], first);
    assert [] + [first] == [first];
    assert StoreAfter(policy, [first]).dedup == map["a" := ttl];
    GenuineSnoc(policy, [first], other);
    assert [first] + [other] == [first, other];
    assert StoreAfter(policy, [first, other]).dedup == map["b" := 2 * ttl];
    assert "a" !in Prune(map["b" := 2 * ttl], ttl - 1);
    GenuineSnoc(policy, [first, other], again);
    assert Records([first, other][0], "a");
  }

  lemma {:induction false} AnswerExpected(policy: Policy, history: seq<Entry>, entry: Entry)
    requires Genuine(policy, history + [entry])
    ensures LagAtMost(history + [entry], 0) ==>
              entry.decision == Expected(policy, history, entry.call)
  {
    var longer := history + [entry];
    if LagAtMost(longer, 0) {
      PruningUnobservable(policy, longer, |history|);
      assert longer[..|history|] == history;
    }
  }

  // ----- Spacing -----

  /** Two calls that both wrote one deduplication key are a lifetime apart, less the lag. */
  lemma {:induction false} DedupSpacing(policy: Policy, history: seq<Entry>, lag: nat, i: nat, j: nat, key: string)
    requires Genuine(policy, history) && LagAtMost(history, lag)
    requires i < j < |history| && Records(history[i], key) && Records(history[j], key)
    ensures history[j].call.now - history[i].call.now >= policy.dedupTtl - lag
  {
    DecisionExact(policy, history, j);
    var past := history[..j];
    assert past[i] == history[i];
    assert !DedupLive(policy, past, i, key, history[j].call.now);
    if history[j].call.now < history[i].call.now + policy.dedupTtl {
      var q :| i < q < |past| && past[q].call.dedupKey != ""
               && !(past[q].call.now < past[i].call.now + policy.dedupTtl);
      assert past[q] == history[q];
    }
  }

  /** Two accepted calls on one cooldown key are a cooldown apart, less the lag. */
  lemma {:induction false} CooldownSpacing(policy: Policy, history: seq<Entry>, lag: nat, i: nat, j: nat, key: string)
    requires Genuine(policy, history) && LagAtMost(history, lag)
    requires i < j < |history| && Charges(history[i], key) && Charges(history[j], key)
    ensures history[j].call.now - history[i].call.now >= policy.cooldown - lag
  {
    DecisionExact(policy, history, j);
    var past := history[..j];
    assert past[i] == history[i];
    assert !CooldownLive(policy, past, i, key, history[j].call.now);
    if history[j].call.now < history[i].call.now + policy.cooldown {
      var q :| i < q < |past| && ReachesCooldown(past[q])
               && !(past[q].call.now < past[i].call.now + policy.cooldown);
      assert past[q] == history[q];
    }
  }

  /** How many calls on `key` were accepted with a clock between `from` and `to`. */
  ghost function AcceptsWithin(history: seq<Entry>, key: string, from: int, to: int): nat {
    if history == [] then 0
    else
      var n := |history| - 1;
      AcceptsWithin(history[..n], key, from, to)
      + if Charges(history[n], key) && from <= history[n].call.now <= to then 1 else 0
  }

  /** Accepted calls on one key are at least `gap` apart, in the order of the run. */
  ghost predicate Spaced(history: seq<Entry>, key: string, gap: int) {
    forall i, j :: 0 <= i < j < |history| && Charges(history[i], key) && Charges(history[j], key) ==>
      history[i].call.now + gap <= history[j].call.now
  }

  /** Some accepted call lies at least `count - 1` gaps after the start of the interval. */
  lemma {:induction false} LastAcceptIsLate(history: seq<Entry>, key: string, from: int, to: int, gap: nat)
    returns (last: nat)
    requires Spaced(history, key, gap)
    requires AcceptsWithin(history, key, from, to) > 0
    ensures last < |history| && Charges(history[last], key) && history[last].call.now <= to
    ensures from + Times(AcceptsWithin(history, key, from, to) - 1, gap) <= history[last].call.now
  {
    var n := |history| - 1;
    var count := AcceptsWithin(history[..n], key, from, to);
    if count == 0 {
      last := n;
    } else {
      last := LastAcceptIsLate(history[..n], key, from, to, gap);
      assert history[..n][last] == history[last];
      if Charges(history[n], key) && from <= history[n].call.now <= to {
        assert Times(count, gap) == Times(count - 1, gap) + gap;
        last := n;
      }
    }
  }

  /** An entity is accepted at most `length / cooldown + 1` times in any interval. */
  lemma {:induction false} AcceptRateBound(policy: Policy, history: seq<Entry>, key: string, from: int, length: nat)
    requires Genuine(policy, history) && LagAtMost(history, 0) && policy.cooldown > 0
    ensures AcceptsWithin(history, key, from, from + length) <= length / policy.cooldown + 1
  {
    assert Spaced(history, key, policy.cooldown) by {
      forall i, j | 0 <= i < j < |history| && Charges(history[i], key) && Charges(history[j], key)
        ensures history[i].call.now + policy.cooldown <= history[j].call.now
      {
        CooldownSpacing(policy, history, 0, i, j, key);
      }
    }
    SpacedRateBound(history, key, from, length, policy.cooldown);
  }

  lemma {:induction false} SpacedRateBound(history: seq<Entry>, key: string, from: int, length: nat, gap: nat)
    requires gap > 0 && Spaced(history, key, gap)
    ensures AcceptsWithin(history, key, from, from + length) <= length / gap + 1
  {
    var count := AcceptsWithin(history, key, from, from + length);
    if count > 0 {
      var last := LastAcceptIsLate(history, key, from, from + length, gap);
      QuotientBound(count - 1, gap, length);
    }
  }

  lemma {:induction false} QuotientBound(n: nat, d: nat, total: nat)
    requires d > 0 && Times(n, d) <= total
    ensures n <= total / d
  {
    if n > total / d {
      TimesMonotone(total / d + 1, n, d);
      assert false;
    }
  }

  lemma {:induction false} TimesMonotone(m: nat, n: nat, d: nat)
    requires m <= n
    ensures Times(m, d) <= Times(n, d)
  {
    assert Times(n, d) == Times(m, d) + Times(n - m, d);
  }
}
