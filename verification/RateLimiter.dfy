/**
  The per-source rate limiter: one minute bucket and one 32-bit counter per source,
  reset when the minute changes.
 */
module RateLimiter {
  import opened Arithmetic

  const SECONDS_PER_MINUTE := 60

  datatype Window = Window(minuteBucket: int, count: U32)

  datatype Request = Request(source: string, now: int)

  datatype Entry = Entry(request: Request, allowed: bool)

  /** Integer division that truncates toward zero, as the source's does. */
  function TruncatingDiv(a: int, b: int): int
    requires b > 0
  {
    if a >= 0 then a / b else -((-a) / b)
  }

  function Minute(now: int): int {
    TruncatingDiv(now, SECONDS_PER_MINUTE)
  }

  /** One call of `allow` on the map of windows. */
  function Step(limit: U32, windows: map<string, Window>, request: Request): (map<string, Window>, bool) {
    var minute := Minute(request.now);
    var found := if request.source in windows then windows[request.source] else Window(minute, 0);
    var current := if found.minuteBucket != minute then Window(minute, 0) else found;
    if current.count >= limit then (windows[request.source := current], false)
    else (windows[request.source := current.(count := SaturatingIncrement(current.count))], true)
  }

  function WindowsAfter(limit: U32, history: seq<Entry>): map<string, Window> {
    if history == [] then map[]
    else Step(limit, WindowsAfter(limit, history[..|history| - 1]), history[|history| - 1].request).0
  }

  /** The recorded answers are the ones the limiter gave, starting from no windows. */
  ghost predicate Genuine(limit: U32, history: seq<Entry>) {
    history == [] ||
    var n := |history| - 1;
    && Genuine(limit, history[..n])
    && history[n].allowed == Step(limit, WindowsAfter(limit, history[..n]), history[n].request).1
  }

  class SourceRateLimiter {
    const limitPerMinute: U32
    var windows: map<string, Window>
    ghost var history: seq<Entry>

    ghost predicate Valid()
      reads this
    {
      Genuine(limitPerMinute, history) && windows == WindowsAfter(limitPerMinute, history)
    }

    constructor (limitPerMinute: U32)
      ensures Valid() && history == [] && this.limitPerMinute == limitPerMinute
    {
      this.limitPerMinute := limitPerMinute;
      windows, history := map[], [];
    }

    /** Extends the genuine history the lemmas below are about. */
    method Allow(source: string, now: int) returns (allowed: bool)
      requires Valid()
      modifies this
      ensures Valid()
      ensures history == old(history) + [Entry(Request(source, now), allowed)]
    {
      var nowMinute := Minute(now);
      if source !in windows {
        windows := windows[source := Window(nowMinute, 0)];
      }
      if windows[source].minuteBucket != nowMinute {
        windows := windows[source := Window(nowMinute, 0)];
      }
      var entry := windows[source];
      if entry.count >= limitPerMinute {
        allowed := false;
      } else {
        windows := windows[source := entry.(count := SaturatingIncrement(entry.count))];
        allowed := true;
      }
      assert windows == Step(limitPerMinute, old(windows), Request(source, now)).0;
      ghost var before := history;
      history := history + [Entry(Request(source, now), allowed)];
      assert history[..|before|] == before;
    }
  }

  lemma {:induction false} GenuineSnoc(limit: U32, history: seq<Entry>, entry: Entry)
    requires Genuine(limit, history)
    requires entry.allowed == Step(limit, WindowsAfter(limit, history), entry.request).1
    ensures Genuine(limit, history + [entry])
  {
    assert (history + [entry])[..|history|] == history;
  }

  // ----- Counting -----

  /** Requests of `source` with a clock in minute `minute`. */
  ghost function Requests(history: seq<Entry>, source: string, minute: int): nat {
    if history == [] then 0
    else
      var last := history[|history| - 1];
      Requests(history[..|history| - 1], source, minute)
      + if last.request.source == source && Minute(last.request.now) == minute then 1 else 0
  }

  ghost function Allowed(history: seq<Entry>, source: string, minute: int): nat {
    if history == [] then 0
    else
      var last := history[|history| - 1];
      Allowed(history[..|history| - 1], source, minute)
      + if last.allowed && last.request.source == source && Minute(last.request.now) == minute then 1 else 0
  }

  /** How many requests of `source` came in `minute` since its last one in another minute. */
  ghost function Streak(history: seq<Entry>, source: string, minute: int): nat {
    if history == [] then 0
    else
      var past, last := history[..|history| - 1], history[|history| - 1].request;
      if last.source != source then Streak(past, source, minute)
      else if Minute(last.now) == minute then Streak(past, source, minute) + 1
      else 0
  }

  /** How often the source's requests entered `minute`: once for clocks in order, more when they go back. */
  ghost function Stretches(history: seq<Entry>, source: string, minute: int): nat {
    if history == [] then 0
    else
      var past, last := history[..|history| - 1], history[|history| - 1].request;
      Stretches(past, source, minute)
      + if last.source == source && Minute(last.now) == minute && Streak(past, source, minute) == 0 then 1 else 0
  }

  // ----- Every answer, whatever the clock does -----

  /** A source's window is the minute of its latest request, with the streak in it, cut at the limit. */
  ghost predicate WindowMatches(limit: U32, windows: map<string, Window>, history: seq<Entry>, source: string) {
    if source !in windows then forall minute :: Streak(history, source, minute) == 0
    else
      var window := windows[source];
      && window.count == Min(limit, Streak(history, source, window.minuteBucket))
      && forall minute :: minute != window.minuteBucket ==> Streak(history, source, minute) == 0
  }

  lemma {:induction false} WindowIsStreak(limit: U32, history: seq<Entry>, source: string)
    ensures WindowMatches(limit, WindowsAfter(limit, history), history, source)
  {
    if history != [] {
      WindowIsStreak(limit, history[..|history| - 1], source);
    }
  }

  lemma {:induction false} GenuineAt(limit: U32, history: seq<Entry>, n: nat)
    requires n < |history| && Genuine(limit, history)
    ensures history[n].allowed == Step(limit, WindowsAfter(limit, history[..n]), history[n].request).1
    decreases |history|
  {
    var m := |history| - 1;
    if n < m {
      GenuineAt(limit, history[..m], n);
      assert history[..m][..n] == history[..n];
    }
  }

  /** A request is let through exactly when fewer than `limit` of its source stand before it in its stretch. */
  lemma {:induction false} AllowedExactly(limit: U32, history: seq<Entry>, n: nat)
    requires Genuine(limit, history) && n < |history|
    ensures var request := history[n].request;
            history[n].allowed <==> Streak(history[..n], request.source, Minute(request.now)) < limit
  {
    GenuineAt(limit, history, n);
    WindowIsStreak(limit, history[..n], history[n].request.source);
  }

  /** The requests of one source, in order. */
  ghost function Only(history: seq<Entry>, source: string): seq<Entry> {
    if history == [] then []
    else
      var last := history[|history| - 1];
      Only(history[..|history| - 1], source) + if last.request.source == source then [last] else []
  }

  lemma {:induction false} OwnStreak(history: seq<Entry>, source: string, minute: int)
    ensures Streak(Only(history, source), source, minute) == Streak(history, source, minute)
  {
    if history != [] {
      var n := |history| - 1;
      OwnStreak(history[..n], source, minute);
      var own := Only(history[..n], source);
      if history[n].request.source == source {
        assert Only(history, source)[..|own|] == own;
      } else {
        assert Only(history, source) == own;
      }
    }
  }

  /** Whatever the clock does, a source is answered as if it were alone. */
  lemma {:induction false} OthersUnnoticed(limit: U32, history: seq<Entry>, source: string)
    requires Genuine(limit, history)
    ensures Genuine(limit, Only(history, source))
  {
    if history != [] {
      var n := |history| - 1;
      var last, own := history[n], Only(history[..n], source);
      OthersUnnoticed(limit, history[..n], source);
      if last.request.source == source {
        AllowedExactly(limit, history, n);
        OwnStreak(history[..n], source, Minute(last.request.now));
        WindowIsStreak(limit, own, source);
        GenuineSnoc(limit, own, last);
      } else {
        assert Only(history, source) == own;
      }
    }
  }

  /**
    The counter never meets its saturation bound: wherever it is increased it is below
    the limit, so the saturating increment is plain addition.
   */
  lemma {:induction false} NeverSaturates(limit: U32, history: seq<Entry>, request: Request)
    ensures var windows := WindowsAfter(limit, history);
            var (after, allowed) := Step(limit, windows, request);
            var before := if request.source in windows && windows[request.source].minuteBucket == Minute(request.now)
                          then windows[request.source].count else 0;
            && before <= limit
            && request.source in after
            && after[request.source].count == before + (if allowed then 1 else 0)
  {
    WindowIsStreak(limit, history, request.source);
  }

  // ----- The limit per minute -----

  /** What the four counts of one minute have to do with each other. */
  ghost predicate Tallied(limit: U32, allowed: nat, requests: nat, stretches: nat, streak: nat) {
    && streak <= requests && allowed <= requests && (requests == 0 <==> stretches == 0)
    && (stretches == 1 && streak > 0 ==> streak == requests)
    && (stretches >= 2 ==> streak < requests)
    && (requests <= limit ==> allowed == requests)
    && (stretches <= 1 ==> allowed == Min(limit, requests))
    && (limit > 0 && stretches >= 2 && requests > limit ==> allowed > limit)
    && allowed + (if streak > 0 then limit - Min(limit, streak) else 0) <= Times(limit, stretches)
  }

  lemma {:induction false} TalliesKept(limit: U32, allowed: nat, requests: nat, stretches: nat, streak: nat)
    requires Tallied(limit, allowed, requests, stretches, streak)
    ensures Tallied(limit, allowed, requests, stretches, 0)
    ensures Tallied(limit, allowed + (if streak < limit then 1 else 0), requests + 1,
                    stretches + (if streak == 0 then 1 else 0), streak + 1)
  {
    assert Times(limit, stretches + 1) == Times(limit, stretches) + limit;
  }

  lemma {:induction false} MinuteTallied(limit: U32, history: seq<Entry>, source: string, minute: int)
    requires Genuine(limit, history)
    ensures Tallied(limit, Allowed(history, source, minute), Requests(history, source, minute),
                    Stretches(history, source, minute), Streak(history, source, minute))
  {
    if history != [] {
      var n := |history| - 1;
      var past := history[..n];
      MinuteTallied(limit, past, source, minute);
      AllowedExactly(limit, history, n);
      TalliesKept(limit, Allowed(past, source, minute), Requests(past, source, minute),
                  Stretches(past, source, minute), Streak(past, source, minute));
    }
  }

  /**
    A source gets exactly min(limit, requests) through in a minute if and only if its
    requests entered the minute at most once, or stayed within the limit anyway.
   */
  lemma {:induction false} AdmitsExactlyTheLimit(limit: U32, history: seq<Entry>, source: string, minute: int)
    requires Genuine(limit, history)
    ensures Allowed(history, source, minute) == Min(limit, Requests(history, source, minute)) <==>
            limit == 0 || Stretches(history, source, minute) <= 1 || Requests(history, source, minute) <= limit
  {
    MinuteTallied(limit, history, source, minute);
  }

  /** Whatever the clock does, a minute lets through at most the limit each time it is entered. */
  lemma {:induction false} AdmitsPerStretch(limit: U32, history: seq<Entry>, source: string, minute: int)
    requires Genuine(limit, history)
    ensures Allowed(history, source, minute) <= limit * Stretches(history, source, minute)
  {
    MinuteTallied(limit, history, source, minute);
  }

  /** The source's requests reach the limiter with their minutes in order. */
  ghost predicate MinutesInOrder(history: seq<Entry>, source: string) {
    forall i, j :: 0 <= i < j < |history| && history[i].request.source == source == history[j].request.source ==>
      Minute(history[i].request.now) <= Minute(history[j].request.now)
  }

  lemma {:induction false} LeftForLater(history: seq<Entry>, source: string, minute: int) returns (i: nat)
    requires MinutesInOrder(history, source)
    requires Streak(history, source, minute) == 0 && Stretches(history, source, minute) > 0
    ensures i < |history| && history[i].request.source == source && Minute(history[i].request.now) > minute
  {
    var n := |history| - 1;
    var past := history[..n];
    if history[n].request.source == source && Streak(past, source, minute) > 0 {
      i := n;
      var k := InStreak(past, source, minute);
      assert history[k].request == past[k].request;
    } else {
      i := LeftForLater(past, source, minute);
    }
  }

  lemma {:induction false} InStreak(history: seq<Entry>, source: string, minute: int) returns (i: nat)
    requires Streak(history, source, minute) > 0
    ensures i < |history| && history[i].request.source == source && Minute(history[i].request.now) == minute
  {
    var n := |history| - 1;
    if history[n].request.source == source {
      i := n;
    } else {
      i := InStreak(history[..n], source, minute);
    }
  }

  /** With minutes in order every minute is entered at most once. */
  lemma {:induction false} InOrderOneStretch(history: seq<Entry>, source: string, minute: int)
    requires MinutesInOrder(history, source)
    ensures Stretches(history, source, minute) <= 1
  {
    if history != [] {
      var n := |history| - 1;
      var past, last := history[..n], history[n].request;
      InOrderOneStretch(past, source, minute);
      if last.source == source && Minute(last.now) == minute && Streak(past, source, minute) == 0
         && Stretches(past, source, minute) > 0 {
        var _ := LeftForLater(past, source, minute);
        assert false;
      }
    }
  }

  /** Clocks that reach the limiter out of order can let more than the limit through a minute. */
  lemma {:induction false} OutOfOrderExceeds()
    ensures var at59, at60 := Entry(Request("s", 59), true), Entry(Request("s", 60), true);
            var history := [at59] + [at60] + [at59];
            Genuine(1, history) && Allowed(history, "s", 0) == 2 && Stretches(history, "s", 0) == 2
  {
    var at59, at60 := Entry(Request("s", 59), true), Entry(Request("s", 60), true);
    GenuineSnoc(1, [], at59);
    assert [] + [at59] == [at59] && [at59][..0] == [];
    assert WindowsAfter(1, [at59]) == map["s" := Window(0, 1)];
    GenuineSnoc(1, [at59], at60);
    var two := [at59] + [at60];
    assert two[..1] == [at59];
    assert WindowsAfter(1, two) == map["s" := Window(1, 1)];
    GenuineSnoc(1, two, at59);
    assert (two + [at59])[..2] == two;
    assert Streak([at59], "s", 0) == 1 && Streak(two, "s", 0) == 0;
    assert Stretches([at59], "s", 0) == 1 && Stretches(two, "s", 0) == 1;
    assert Allowed([at59], "s", 0) == 1 && Allowed(two, "s", 0) == 1;
  }

  // ----- Any sixty seconds -----

  /** Requests of `source` let through with a clock in `from <= now < from + 60`. */
  ghost function AllowedWithinMinuteOf(history: seq<Entry>, source: string, from: int): nat {
    if history == [] then 0
    else
      var last := history[|history| - 1];
      AllowedWithinMinuteOf(history[..|history| - 1], source, from)
      + if last.allowed && last.request.source == source && from <= last.request.now < from + SECONDS_PER_MINUTE
        then 1 else 0
  }

  /**
    Any sixty-second interval, aligned or not, touches two minutes: it admits at most the
    limit for each time one of them is entered, hence twice the limit for clocks in order.
   */
  lemma {:induction false} SlidingMinuteBound(limit: U32, history: seq<Entry>, source: string, from: int)
    requires Genuine(limit, history)
    ensures var minute := Minute(from);
            AllowedWithinMinuteOf(history, source, from) <=
            limit * Stretches(history, source, minute) + limit * Stretches(history, source, minute + 1)
    ensures MinutesInOrder(history, source) ==> AllowedWithinMinuteOf(history, source, from) <= 2 * limit
  {
    var minute := Minute(from);
    TwoBuckets(history, source, from);
    MinuteTallied(limit, history, source, minute);
    MinuteTallied(limit, history, source, minute + 1);
    if MinutesInOrder(history, source) {
      InOrderOneStretch(history, source, minute);
      InOrderOneStretch(history, source, minute + 1);
    }
  }

  lemma {:induction false} TwoBuckets(history: seq<Entry>, source: string, from: int)
    ensures var minute := Minute(from);
            AllowedWithinMinuteOf(history, source, from) <=
            Allowed(history, source, minute) + Allowed(history, source, minute + 1)
  {
    if history != [] {
      TwoBuckets(history[..|history| - 1], source, from);
    }
  }

  /** The bound is reached: a full bucket at its end and another right after it. */
  lemma {:induction false} SlidingMinuteBoundReached()
    ensures var last := Entry(Request("s", 59), true);
            var first := Entry(Request("s", 60), true);
            && Genuine(1, [last, first]) && MinutesInOrder([last, first], "s")
            && AllowedWithinMinuteOf([last, first], "s", 59) == 2 * 1
  {
    var last := Entry(Request("s", 59), true);
    var first := Entry(Request("s", 60), true);
    var history := [last, first];
    assert history[..1] == [last] && [last][..0] == [];
    assert WindowsAfter(1, []) == map[];
    assert WindowsAfter(1, [last]) == map["s" := Window(0, 1)];
    assert Genuine(1, [last]);
    assert AllowedWithinMinuteOf([last], "s", 59) == 1;
  }
}
