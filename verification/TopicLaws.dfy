/** The topics a runtime subscribes to, and what survives handing them over as one string. */
module TopicLaws {
  import opened Wrappers
  import opened Text
  import opened Smash
  import opened Projection
  import opened RuntimeConfig
  import Glob

  /** A non-blank trimmed name without stars. */
  predicate Literal(name: string) { name != "" && Trim(name) == name && '*' !in name }

  ghost predicate CommaFree(topics: seq<string>) { forall t :: t in topics ==> ',' !in t }

  ghost predicate AllTrimmed(topics: seq<string>) { forall t :: t in topics ==> t != "" && Trim(t) == t }

  // ----- Splitting on commas -----

  lemma {:induction false} TrimmedUnchanged(topics: seq<string>)
    requires AllTrimmed(topics)
    ensures NonEmpty(TrimAll(topics)) == topics
  {
    if topics != [] {
      assert forall t :: t in topics[1..] ==> t in topics;
      TrimmedUnchanged(topics[1..]);
    }
  }

  lemma {:induction false} TrimOnlyRemoves(s: string, c: char)
    ensures c in Trim(s) ==> c in s
  {
    TrimStartIsSuffix(s);
    TrimEndIsPrefix(TrimStart(s));
  }

  lemma {:induction false} CleanedIsFree(parts: seq<string>)
    requires CommaFree(parts)
    ensures CommaFree(NonEmpty(TrimAll(parts)))
  {
    if parts != [] {
      assert forall p :: p in parts[1..] ==> p in parts;
      CleanedIsFree(parts[1..]);
      TrimOnlyRemoves(parts[0], ',');
    }
  }

  /** Trimmed topics survive the comma-separated variable exactly when none contains a comma. */
  lemma {:induction false} TopicsRoundTrip(topics: seq<string>)
    requires topics != [] && AllTrimmed(topics)
    ensures ParseCsvTopics(Join(topics, ',')) == topics <==> CommaFree(topics)
  {
    var raw := Join(topics, ',');
    SplitIsFree(raw, ',');
    CleanedIsFree(Split(raw, ','));
    if CommaFree(topics) {
      SplitJoin(topics, ',');
      TrimmedUnchanged(topics);
    }
  }

  // ----- Deriving topics from routes -----

  /** For literal patterns the runtime's fallback derives the same topics as the projection. */
  lemma {:induction false} DerivedAsProjected(routes: seq<Route>)
    requires forall r :: r in routes ==> Literal(r.sourceTopicPattern)
    ensures DeriveTopics(routes) == Ok(TopicsOf(routes))
  {
    if routes != [] {
      var n := |routes| - 1;
      DerivedAsProjected(routes[..n]);
      assert routes[n] in routes;
    }
  }

  lemma {:induction false} TopicsAreTrimmed(routes: seq<Route>)
    requires forall r :: r in routes ==> Literal(r.sourceTopicPattern)
    ensures AllTrimmed(TopicsOf(routes))
  {
    forall t | t in TopicsOf(routes)
      ensures t != "" && Trim(t) == t
    {
      var i :| 0 <= i < |routes| && routes[i].sourceTopicPattern == t;
      assert routes[i] in routes;
    }
  }

  /** A literal pattern matches its own text and nothing else. */
  lemma {:induction false} LiteralMatchesItself(pattern: string, value: string)
    requires Literal(pattern)
    ensures Glob.Matches(pattern, value) <==> value == pattern
  {
    Glob.SplitShape(pattern);
    Glob.LanguageIsParts(pattern, value);
  }

  /** The topics of the routes come strictly ascending. */
  lemma {:induction false} TopicsAscend(routes: seq<Route>)
    ensures Sorted(TopicsOf(routes))
  {
    if routes != [] {
      var n := |routes| - 1;
      TopicsAscend(routes[..n]);
      InsertKeepsSorted(TopicsOf(routes[..n]), routes[n].sourceTopicPattern);
    }
  }

  /** The runtime's fallback fails exactly when some pattern holds a star, and names such a route. */
  lemma {:induction false} WildcardsRefused(routes: seq<Route>)
    ensures DeriveTopics(routes).Err? <==> exists r :: r in routes && '*' in Trim(r.sourceTopicPattern)
    ensures DeriveTopics(routes).Err? ==>
              exists r :: r in routes && '*' in Trim(r.sourceTopicPattern)
                          && DeriveTopics(routes).error == WildcardTopic(r.id)
  {
    if routes != [] {
      var n := |routes| - 1;
      WildcardsRefused(routes[..n]);
      assert routes == routes[..n] + [routes[n]];
    }
  }
}
