/**
  One map of the idempotency store behind its lock: every visit prunes the map, looks its
  key up, and records the key if it was not there.
 */
module LockedMap {
  import opened Wrappers
  import opened ExpiringMap
  import opened Idempotency
  import opened Arithmetic

  /** One locked section of one call: it is granted when its key was not live, and then records it. */
  datatype Visit = Visit(caller: nat, key: string, now: int, granted: bool)

  function Section(ttl: int, cache: map<string, int>, key: string, now: int): (map<string, int>, bool) {
    var kept := Prune(cache, now);
    if key in kept && kept[key] > now then (kept, false) else (kept[key := now + ttl], true)
  }

  /** Two sections in a row are one call of the store. */
  lemma {:induction false} UninterruptedIsAtomic(policy: Policy, store: Store, call: Call)
    requires call.dedupKey != ""
    ensures var (dedup, isNew) := Section(policy.dedupTtl, store.dedup, call.dedupKey, call.now);
            Decide(policy, store, call) ==
            if !isNew then (Store(dedup, store.cooldowns), Duplicate)
            else if !HasCooldownKey(call) then (Store(dedup, store.cooldowns), Accept)
            else
              var (cooldowns, rested) := Section(policy.cooldown, store.cooldowns, call.cooldownKey.value, call.now);
              (Store(dedup, cooldowns), if rested then Accept else Cooldown)
  {}

  function Touches(visits: seq<Visit>): (touches: seq<Touch>)
    ensures |touches| == |visits|
    ensures forall i :: 0 <= i < |visits| ==>
              touches[i] == Touch(visits[i].now, true, if visits[i].granted then Some(visits[i].key) else None)
  {
    seq(|visits|, i requires 0 <= i < |visits| =>
      Touch(visits[i].now, true, if visits[i].granted then Some(visits[i].key) else None))
  }

  /** Every visit was answered by the map its predecessors left. */
  ghost predicate Honest(ttl: int, visits: seq<Visit>) {
    visits == [] ||
    var n := |visits| - 1;
    && Honest(ttl, visits[..n])
    && visits[n].granted == Section(ttl, After(ttl, Touches(visits[..n])), visits[n].key, visits[n].now).1
  }

  lemma {:induction false} VisitRecorded(ttl: int, visits: seq<Visit>, caller: nat, key: string, now: int)
    requires Honest(ttl, visits)
    ensures var (cache, granted) := Section(ttl, After(ttl, Touches(visits)), key, now);
            var longer := visits + [Visit(caller, key, now, granted)];
            Honest(ttl, longer) && After(ttl, Touches(longer)) == cache
  {
    var granted := Section(ttl, After(ttl, Touches(visits)), key, now).1;
    var longer := visits + [Visit(caller, key, now, granted)];
    assert longer[..|visits|] == visits;
    assert Touches(longer)[..|visits|] == Touches(visits);
  }

  lemma {:induction false} HonestIsDisciplined(ttl: int, visits: seq<Visit>)
    requires Honest(ttl, visits)
    ensures Disciplined(ttl, Touches(visits))
  {
    if visits != [] {
      var n := |visits| - 1;
      HonestIsDisciplined(ttl, visits[..n]);
      assert Touches(visits)[..n] == Touches(visits[..n]);
    }
  }

  lemma {:induction false} HonestAt(ttl: int, visits: seq<Visit>, n: nat)
    requires n < |visits| && Honest(ttl, visits)
    ensures Honest(ttl, visits[..n])
    ensures visits[n].granted == Section(ttl, After(ttl, Touches(visits[..n])), visits[n].key, visits[n].now).1
    decreases |visits|
  {
    var m := |visits| - 1;
    if n < m {
      HonestAt(ttl, visits[..m], n);
      assert visits[..m][..n] == visits[..n];
    }
  }

  /** No visit's clock is more than `lag` behind the clock of a visit that held the lock before. */
  ghost predicate VisitLag(visits: seq<Visit>, lag: int) {
    forall i, j :: 0 <= i < j < |visits| ==> visits[i].now <= visits[j].now + lag
  }

  // ----- Exactly when a visit is granted -----

  /** Visit `i` was granted `key`, is younger than the lifetime at `now`, and no visit since reached its expiry. */
  ghost predicate Holds(ttl: int, visits: seq<Visit>, i: nat, key: string, now: int) {
    && i < |visits| && visits[i].granted && visits[i].key == key
    && now < visits[i].now + ttl
    && forall q :: i < q < |visits| ==> visits[q].now < visits[i].now + ttl
  }

  /** The next visit is granted exactly when no earlier one still holds the key, whatever the clock does. */
  lemma {:induction false} SectionExact(ttl: int, visits: seq<Visit>, key: string, now: int)
    requires Honest(ttl, visits)
    ensures Section(ttl, After(ttl, Touches(visits)), key, now).1 <==>
            !exists i: nat :: Holds(ttl, visits, i, key, now)
  {
    var touches := Touches(visits);
    HonestIsDisciplined(ttl, visits);
    HoldsExactlyLive(ttl, touches, key);
    forall i: nat
      ensures Holds(ttl, visits, i, key, now) <==> Live(ttl, touches, i, key) && now < touches[i].now + ttl
    {
      if Live(ttl, touches, i, key) {
        forall q | i < q < |visits|
          ensures visits[q].now < visits[i].now + ttl
        {
          assert touches[q].prunes;
        }
      }
    }
  }

  lemma {:induction false} GrantedExactly(ttl: int, visits: seq<Visit>, n: nat)
    requires Honest(ttl, visits) && n < |visits|
    ensures visits[n].granted <==> !exists i: nat :: Holds(ttl, visits[..n], i, visits[n].key, visits[n].now)
  {
    HonestAt(ttl, visits, n);
    SectionExact(ttl, visits[..n], visits[n].key, visits[n].now);
  }

  /** An earlier visit was granted `key` less than the lifetime ago. */
  ghost predicate GrantedRecently(ttl: int, visits: seq<Visit>, key: string, now: int) {
    exists i :: 0 <= i < |visits| && visits[i].granted && visits[i].key == key && now - visits[i].now < ttl
  }

  /** With clocks in lock order, a visit is granted exactly when no grant of its key is younger than the lifetime. */
  lemma {:induction false} SectionInOrder(ttl: int, visits: seq<Visit>, key: string, now: int)
    requires Honest(ttl, visits) && forall i :: 0 <= i < |visits| ==> visits[i].now <= now
    ensures Section(ttl, After(ttl, Touches(visits)), key, now).1 <==> !GrantedRecently(ttl, visits, key, now)
  {
    SectionExact(ttl, visits, key, now);
    if i :| 0 <= i < |visits| && visits[i].granted && visits[i].key == key && now - visits[i].now < ttl {
      assert Holds(ttl, visits, i, key, now);
    }
  }

  lemma {:induction false} GrantedInOrder(ttl: int, visits: seq<Visit>, n: nat)
    requires Honest(ttl, visits) && VisitLag(visits, 0) && n < |visits|
    ensures visits[n].granted <==> !GrantedRecently(ttl, visits[..n], visits[n].key, visits[n].now)
  {
    HonestAt(ttl, visits, n);
    SectionInOrder(ttl, visits[..n], visits[n].key, visits[n].now);
  }

  /** In lock order, granted visits with one key are a lifetime apart, less the lag. */
  lemma {:induction false} GrantsSpaced(ttl: int, visits: seq<Visit>, lag: nat, i: nat, j: nat)
    requires Honest(ttl, visits) && VisitLag(visits, lag)
    requires i < j < |visits| && visits[i].key == visits[j].key && visits[i].granted && visits[j].granted
    ensures visits[j].now - visits[i].now >= ttl - lag
  {
    GrantedExactly(ttl, visits, j);
    if visits[j].now - visits[i].now < ttl - lag {
      forall q | i < q < j
        ensures visits[q].now < visits[i].now + ttl
      {
        assert visits[q].now <= visits[j].now + lag;
      }
      assert Holds(ttl, visits[..j], i, visits[j].key, visits[j].now);
      assert false;
    }
  }

  lemma {:induction false} GrantsApart(ttl: int, visits: seq<Visit>, lag: nat, i: nat, j: nat)
    requires Honest(ttl, visits) && VisitLag(visits, lag) && i != j && i < |visits| && j < |visits|
    requires visits[i].key == visits[j].key && visits[i].granted && visits[j].granted
    ensures Distance(visits[i].now, visits[j].now) >= ttl - lag
  {
    if i < j {
      GrantsSpaced(ttl, visits, lag, i, j);
    } else {
      GrantsSpaced(ttl, visits, lag, j, i);
    }
  }

  // ----- Visits that share no key do not see each other -----

  /** The visits whose keys are kept, in order. */
  ghost function Only(visits: seq<Visit>, keep: string -> bool): (kept: seq<Visit>)
    ensures forall v :: v in kept <==> v in visits && keep(v.key)
  {
    if visits == [] then []
    else
      var last := visits[|visits| - 1];
      Only(visits[..|visits| - 1], keep) + if keep(last.key) then [last] else []
  }

  /**
    With clocks in lock order, the answers to the visits with kept keys are those the lock
    would have given had the others never come.
   */
  lemma {:induction false} OthersUnnoticed(ttl: int, visits: seq<Visit>, keep: string -> bool)
    requires Honest(ttl, visits) && VisitLag(visits, 0)
    ensures Honest(ttl, Only(visits, keep))
  {
    if visits != [] {
      var n := |visits| - 1;
      var last := visits[n];
      OthersUnnoticed(ttl, visits[..n], keep);
      var kept := Only(visits[..n], keep);
      if keep(last.key) {
        GrantedInOrder(ttl, visits, n);
        KeptAnswer(ttl, visits[..n], keep, last);
        assert Only(visits, keep) == kept + [last] && (kept + [last])[..|kept|] == kept;
      } else {
        assert Only(visits, keep) == kept;
      }
    }
  }

  lemma {:induction false} KeptAnswer(ttl: int, past: seq<Visit>, keep: string -> bool, last: Visit)
    requires Honest(ttl, Only(past, keep)) && keep(last.key)
    requires forall v :: v in past ==> v.now <= last.now
    ensures Section(ttl, After(ttl, Touches(Only(past, keep))), last.key, last.now).1 <==>
            !GrantedRecently(ttl, past, last.key, last.now)
  {
    var kept := Only(past, keep);
    assert forall i :: 0 <= i < |kept| ==> kept[i] in kept;
    SectionInOrder(ttl, kept, last.key, last.now);
    if i :| 0 <= i < |past| && past[i].granted && past[i].key == last.key && last.now - past[i].now < ttl {
      assert past[i] in kept;
    }
    if i :| 0 <= i < |kept| && kept[i].granted && kept[i].key == last.key && last.now - kept[i].now < ttl {
      assert kept[i] in past;
    }
  }
}
