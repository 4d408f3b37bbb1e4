/**
  A map of keys to expiry times that is pruned as it is used, the structure both
  halves of the idempotency store share. The main lemma describes its contents after
  any run, for clocks that may go backwards, without mentioning the map.
 */
module ExpiringMap {
  import opened Wrappers

  /** `prune_expired`: keep the entries whose expiry lies in the future. */
  function Prune(cache: map<string, int>, now: int): map<string, int> {
    map k | k in cache && cache[k] > now :: cache[k]
  }

  /** What one call does to the map: it may prune, and may then insert a key. */
  datatype Touch = Touch(now: int, prunes: bool, inserts: Option<string>)

  function Apply(ttl: int, cache: map<string, int>, touch: Touch): map<string, int> {
    var kept := if touch.prunes then Prune(cache, touch.now) else cache;
    match touch.inserts
    case Some(key) => kept[key := touch.now + ttl]
    case None => kept
  }

  function After(ttl: int, touches: seq<Touch>): map<string, int> {
    if touches == [] then map[]
    else Apply(ttl, After(ttl, touches[..|touches| - 1]), touches[|touches| - 1])
  }

  /** A key is inserted only by a call that pruned first and found the key gone. */
  ghost predicate Disciplined(ttl: int, touches: seq<Touch>) {
    touches == [] ||
    var n := |touches| - 1;
    && Disciplined(ttl, touches[..n])
    && (touches[n].inserts.Some? ==>
          touches[n].prunes && touches[n].inserts.value !in Prune(After(ttl, touches[..n]), touches[n].now))
  }

  /** Call `i` inserted `key` and no later call's clock reached its expiry while pruning. */
  ghost predicate Live(ttl: int, touches: seq<Touch>, i: int, key: string) {
    && 0 <= i < |touches|
    && touches[i].inserts == Some(key)
    && forall q :: i < q < |touches| && touches[q].prunes ==> touches[q].now < touches[i].now + ttl
  }

  /** The map holds exactly the live keys, each with its inserter's clock plus the lifetime. */
  lemma {:induction false} HoldsExactlyLive(ttl: int, touches: seq<Touch>, key: string)
    requires Disciplined(ttl, touches)
    ensures key in After(ttl, touches) <==> exists i :: Live(ttl, touches, i, key)
    ensures forall i :: Live(ttl, touches, i, key) ==>
              key in After(ttl, touches) && After(ttl, touches)[key] == touches[i].now + ttl
  {
    if touches == [] {
    } else {
      var n := |touches| - 1;
      var before, last := touches[..n], touches[n];
      HoldsExactlyLive(ttl, before, key);
      forall i | 0 <= i < n
        ensures Live(ttl, touches, i, key) <==>
                Live(ttl, before, i, key) && (last.prunes ==> last.now < touches[i].now + ttl)
      {
        LiveStep(ttl, touches, i, key);
      }
      if last.inserts == Some(key) {
        assert Live(ttl, touches, n, key);
      } else if key in After(ttl, touches) {
        var i :| Live(ttl, before, i, key);
        assert Live(ttl, touches, i, key);
      }
    }
  }

  lemma {:induction false} LiveStep(ttl: int, touches: seq<Touch>, i: nat, key: string)
    requires i < |touches| - 1
    ensures var n := |touches| - 1;
            Live(ttl, touches, i, key) <==>
            && Live(ttl, touches[..n], i, key)
            && (touches[n].prunes ==> touches[n].now < touches[i].now + ttl)
  {
    var before := touches[..|touches| - 1];
    assert forall q :: 0 <= q < |before| ==> before[q] == touches[q];
  }
}
