/**
  The two plugin interpreters. Serve threads an event type, a payload and a flag list
  through the plugins; smash edits a copy of the envelope.
 */
module Plugins {
  import opened Wrappers
  import opened Text
  import opened Json
  import opened Envelopes

  datatype Plugin =
    | EventTypeAlias(from: string, to: string)
    | RequirePayloadField(pointer: string)
    | AddMetaFlag(flag: string)

  // ----- What a plugin list means, one field at a time -----

  /** The event type after every alias, in order. */
  function FinalType(plugins: seq<Plugin>, eventType: string): string {
    if plugins == [] then eventType
    else
      var p := plugins[0];
      FinalType(plugins[1..], if p.EventTypeAlias? && eventType == p.from then p.to else eventType)
  }

  /** The flags after every `add_meta_flag`, each pushed only when absent. */
  function FinalFlags(plugins: seq<Plugin>, flags: seq<string>): seq<string> {
    if plugins == [] then flags
    else
      var p := plugins[0];
      FinalFlags(plugins[1..], if p.AddMetaFlag? && p.flag !in flags then flags + [p.flag] else flags)
  }

  predicate AddsFlags(plugins: seq<Plugin>) {
    exists i :: 0 <= i < |plugins| && plugins[i].AddMetaFlag?
  }

  predicate Demands(plugin: Plugin, payload: Value) {
    plugin.RequirePayloadField? && Pointer(payload, plugin.pointer).None?
  }

  /** Some required pointer leads nowhere in the payload. */
  predicate Rejects(plugins: seq<Plugin>, payload: Value) {
    exists i :: 0 <= i < |plugins| && Demands(plugins[i], payload)
  }

  /** The pointer named in the error: the first one that is missing. */
  function FirstMissing(plugins: seq<Plugin>, payload: Value): string
    requires Rejects(plugins, payload)
  {
    if Demands(plugins[0], payload) then plugins[0].pointer
    else
      assert Rejects(plugins[1..], payload) by {
        var i :| 0 <= i < |plugins| && Demands(plugins[i], payload);
        assert plugins[1..][i - 1] == plugins[i];
      }
      FirstMissing(plugins[1..], payload)
  }

  function FlagsOf(meta: Option<EventMeta>): seq<string> {
    if meta.Some? then meta.value.flags else []
  }

  function FinalMeta(plugins: seq<Plugin>, meta: Option<EventMeta>): Option<EventMeta> {
    if !AddsFlags(plugins) then meta
    else
      var base := if meta.Some? then meta.value else DEFAULT_META;
      Some(base.(flags := FinalFlags(plugins, base.flags)))
  }

  function Transformed(plugins: seq<Plugin>, envelope: Envelope): Envelope {
    envelope.(eventType := FinalType(plugins, envelope.eventType), meta := FinalMeta(plugins, envelope.meta))
  }

  function SmashOutcome(plugins: seq<Plugin>, envelope: Envelope): Result<Envelope, string> {
    if Rejects(plugins, envelope.payload) then Err(FirstMissing(plugins, envelope.payload))
    else Ok(Transformed(plugins, envelope))
  }

  function ServeOutcome(plugins: seq<Plugin>, eventType: string, payload: Value)
    : Result<(string, Value, seq<string>), string>
  {
    if Rejects(plugins, payload) then Err(FirstMissing(plugins, payload))
    else Ok((FinalType(plugins, eventType), payload, FinalFlags(plugins, [])))
  }

  // ----- The source's loops -----

  method ApplyServePlugins(plugins: seq<Plugin>, eventType: string, payload: Value)
    returns (result: Result<(string, Value, seq<string>), string>)
    ensures result == ServeOutcome(plugins, eventType, payload)
  {
    var event, flags := eventType, [];
    for i := 0 to |plugins|
      invariant FinalType(plugins, eventType) == FinalType(plugins[i..], event)
      invariant FinalFlags(plugins, []) == FinalFlags(plugins[i..], flags)
      invariant forall j :: 0 <= j < i ==> !Demands(plugins[j], payload)
    {
      assert plugins[i..][1..] == plugins[i + 1..];
      match plugins[i] {
        case EventTypeAlias(from, to) =>
          if event == from { event := to; }
        case RequirePayloadField(pointer) =>
          if Pointer(payload, pointer).None? {
            FirstMissingAt(plugins, payload, i);
            return Err(pointer);
          }
        case AddMetaFlag(flag) =>
          if flag !in flags { flags := flags + [flag]; }
      }
    }
    return Ok((event, payload, flags));
  }

  method ApplySmashPlugins(plugins: seq<Plugin>, envelope: Envelope)
    returns (result: Result<Envelope, string>)
    ensures result == SmashOutcome(plugins, envelope)
  {
    if plugins == [] {
      return Ok(envelope);
    }
    var transformed := envelope;
    for i := 0 to |plugins|
      invariant transformed == Transformed(plugins[..i], envelope)
      invariant forall j :: 0 <= j < i ==> !Demands(plugins[j], envelope.payload)
    {
      TransformedSnoc(plugins[..i], plugins[i], envelope);
      assert plugins[..i] + [plugins[i]] == plugins[..i + 1];
      match plugins[i] {
        case EventTypeAlias(from, to) =>
          if transformed.eventType == from { transformed := transformed.(eventType := to); }
        case RequirePayloadField(pointer) =>
          if Pointer(transformed.payload, pointer).None? {
            FirstMissingAt(plugins, envelope.payload, i);
            return Err(pointer);
          }
        case AddMetaFlag(flag) =>
          var meta := if transformed.meta.Some? then transformed.meta.value else DEFAULT_META;
          if flag !in meta.flags { meta := meta.(flags := meta.flags + [flag]); }
          transformed := transformed.(meta := Some(meta));
      }
    }
    assert plugins[..|plugins|] == plugins;
    return Ok(transformed);
  }

  lemma {:induction false} FirstMissingAt(plugins: seq<Plugin>, payload: Value, i: nat)
    requires i < |plugins| && Demands(plugins[i], payload)
    requires forall j :: 0 <= j < i ==> !Demands(plugins[j], payload)
    ensures Rejects(plugins, payload) && FirstMissing(plugins, payload) == plugins[i].pointer
  {
    if i > 0 {
      FirstMissingAt(plugins[1..], payload, i - 1);
    }
  }

  // ----- Laws -----

  lemma {:induction false} TypeComposes(p: seq<Plugin>, q: seq<Plugin>, eventType: string)
    ensures FinalType(p + q, eventType) == FinalType(q, FinalType(p, eventType))
    decreases |p|
  {
    if p == [] {
      assert p + q == q;
    } else {
      assert (p + q)[1..] == p[1..] + q;
      var next := if p[0].EventTypeAlias? && eventType == p[0].from then p[0].to else eventType;
      TypeComposes(p[1..], q, next);
    }
  }

  lemma {:induction false} FlagsCompose(p: seq<Plugin>, q: seq<Plugin>, flags: seq<string>)
    ensures FinalFlags(p + q, flags) == FinalFlags(q, FinalFlags(p, flags))
    decreases |p|
  {
    if p == [] {
      assert p + q == q;
    } else {
      assert (p + q)[1..] == p[1..] + q;
      var next := if p[0].AddMetaFlag? && p[0].flag !in flags then flags + [p[0].flag] else flags;
      FlagsCompose(p[1..], q, next);
    }
  }

  lemma {:induction false} FlagsUntouched(plugins: seq<Plugin>, flags: seq<string>)
    requires !AddsFlags(plugins)
    ensures FinalFlags(plugins, flags) == flags
  {
    if plugins != [] {
      assert !AddsFlags(plugins[1..]) by {
        forall i | 0 <= i < |plugins[1..]| ensures !plugins[1..][i].AddMetaFlag? {
          assert plugins[1..][i] == plugins[i + 1];
        }
      }
      assert !plugins[0].AddMetaFlag?;
      FlagsUntouched(plugins[1..], flags);
    }
  }

  lemma {:induction false} MetaComposes(p: seq<Plugin>, q: seq<Plugin>, meta: Option<EventMeta>)
    ensures FinalMeta(p + q, meta) == FinalMeta(q, FinalMeta(p, meta))
  {
    AddsFlagsConcat(p, q);
    var base := if meta.Some? then meta.value else DEFAULT_META;
    FlagsCompose(p, q, base.flags);
    if !AddsFlags(p) { FlagsUntouched(p, base.flags); }
    if !AddsFlags(q) { FlagsUntouched(q, FinalFlags(p, base.flags)); }
  }

  lemma {:induction false} AddsFlagsConcat(p: seq<Plugin>, q: seq<Plugin>)
    ensures AddsFlags(p + q) <==> AddsFlags(p) || AddsFlags(q)
  {
    var r := p + q;
    if AddsFlags(p) {
      var i :| 0 <= i < |p| && p[i].AddMetaFlag?;
      assert r[i].AddMetaFlag?;
    }
    if AddsFlags(q) {
      var i :| 0 <= i < |q| && q[i].AddMetaFlag?;
      assert r[|p| + i].AddMetaFlag?;
    }
  }

  lemma {:induction false} RejectsConcat(p: seq<Plugin>, q: seq<Plugin>, payload: Value)
    ensures Rejects(p + q, payload) <==> Rejects(p, payload) || Rejects(q, payload)
  {
    var r := p + q;
    if Rejects(p, payload) {
      var i :| 0 <= i < |p| && Demands(p[i], payload);
      assert Demands(r[i], payload);
    }
    if Rejects(q, payload) {
      var i :| 0 <= i < |q| && Demands(q[i], payload);
      assert Demands(r[|p| + i], payload);
    }
  }

  lemma {:induction false} FirstMissingConcat(p: seq<Plugin>, q: seq<Plugin>, payload: Value)
    requires Rejects(p + q, payload)
    ensures Rejects(p, payload) ==> FirstMissing(p + q, payload) == FirstMissing(p, payload)
    ensures !Rejects(p, payload) ==>
              Rejects(q, payload) && FirstMissing(p + q, payload) == FirstMissing(q, payload)
    decreases |p|
  {
    RejectsConcat(p, q, payload);
    if p == [] {
      assert p + q == q;
    } else {
      assert (p + q)[1..] == p[1..] + q && (p + q)[0] == p[0];
      assert p == [p[0]] + p[1..];
      RejectsConcat([p[0]], p[1..], payload);
      if !Demands(p[0], payload) {
        assert forall i :: 0 <= i < |[p[0]]| ==> [p[0]][i] == p[0];
        RejectsConcat(p[1..], q, payload);
        FirstMissingConcat(p[1..], q, payload);
      }
    }
  }

  lemma {:induction false} TransformedSnoc(plugins: seq<Plugin>, plugin: Plugin, envelope: Envelope)
    ensures Transformed(plugins + [plugin], envelope) ==
            Transformed([plugin], Transformed(plugins, envelope))
    ensures AddsFlags([plugin]) <==> plugin.AddMetaFlag?
    ensures forall flags :: FinalFlags([plugin], flags) ==
              if plugin.AddMetaFlag? && plugin.flag !in flags then flags + [plugin.flag] else flags
    ensures forall t :: FinalType([plugin], t) ==
              if plugin.EventTypeAlias? && t == plugin.from then plugin.to else t
  {
    TypeComposes(plugins, [plugin], envelope.eventType);
    MetaComposes(plugins, [plugin], envelope.meta);
    assert [plugin][1..] == [];
    assert AddsFlags([plugin]) <==> [plugin][0].AddMetaFlag?;
  }

  /** Running `p ++ q` is running `q` on what `p` produced, errors included. */
  lemma {:induction false} SmashPluginsCompose(p: seq<Plugin>, q: seq<Plugin>, envelope: Envelope)
    ensures SmashOutcome(p + q, envelope) ==
            match SmashOutcome(p, envelope)
            case Err(pointer) => Err(pointer)
            case Ok(middle) => SmashOutcome(q, middle)
  {
    TypeComposes(p, q, envelope.eventType);
    MetaComposes(p, q, envelope.meta);
    RejectsConcat(p, q, envelope.payload);
    if Rejects(p + q, envelope.payload) {
      FirstMissingConcat(p, q, envelope.payload);
    }
  }

  /** Whether the list is rejected does not depend on the order of its plugins. */
  lemma {:induction false} RejectionIgnoresOrder(p: seq<Plugin>, q: seq<Plugin>, envelope: Envelope)
    requires multiset(p) == multiset(q)
    ensures SmashOutcome(p, envelope).Err? <==> SmashOutcome(q, envelope).Err?
    ensures SmashOutcome(p, envelope).Err? <==>
            exists plugin :: plugin in p && Demands(plugin, envelope.payload)
  {
    if Rejects(p, envelope.payload) {
      SameRejection(p, q, envelope.payload);
    }
    if Rejects(q, envelope.payload) {
      SameRejection(q, p, envelope.payload);
    }
  }

  lemma {:induction false} SameRejection(p: seq<Plugin>, q: seq<Plugin>, payload: Value)
    requires multiset(p) == multiset(q) && Rejects(p, payload)
    ensures Rejects(q, payload)
  {
    var i :| 0 <= i < |p| && Demands(p[i], payload);
    assert p[i] in multiset(p);
    assert p[i] in q;
    var j :| 0 <= j < |q| && q[j] == p[i];
  }

  lemma {:induction false} FlagsGrow(plugins: seq<Plugin>, flags: seq<string>)
    ensures flags <= FinalFlags(plugins, flags)
    ensures Distinct(flags) ==> Distinct(FinalFlags(plugins, flags))
    ensures forall f :: f in FinalFlags(plugins, flags) <==> f in flags || AddMetaFlag(f) in plugins
  {
    if plugins != [] {
      var p := plugins[0];
      var next := if p.AddMetaFlag? && p.flag !in flags then flags + [p.flag] else flags;
      FlagsGrow(plugins[1..], next);
      assert plugins == [p] + plugins[1..];
    }
  }

  /** Plugins leave identity and payload alone, and only ever append new, distinct flags. */
  lemma {:induction false} SmashPluginsPreserve(plugins: seq<Plugin>, envelope: Envelope)
    requires SmashOutcome(plugins, envelope).Ok?
    ensures var after := SmashOutcome(plugins, envelope).value;
            && after.id == envelope.id && after.source == envelope.source
            && after.receivedAt == envelope.receivedAt && after.payload == envelope.payload
            && FlagsOf(envelope.meta) <= FlagsOf(after.meta)
            && (Distinct(FlagsOf(envelope.meta)) ==> Distinct(FlagsOf(after.meta)))
            && (forall f :: f in FlagsOf(after.meta) <==>
                            f in FlagsOf(envelope.meta) || AddMetaFlag(f) in plugins)
  {
    var flags := FlagsOf(envelope.meta);
    FlagsGrow(plugins, flags);
    if !AddsFlags(plugins) {
      FlagsUntouched(plugins, flags);
    }
  }

  /** From an envelope without flags the two interpreters agree, failures included. */
  lemma {:induction false} InterpretersAgree(plugins: seq<Plugin>, envelope: Envelope)
    requires FlagsOf(envelope.meta) == []
    ensures match ServeOutcome(plugins, envelope.eventType, envelope.payload)
            case Err(pointer) => SmashOutcome(plugins, envelope) == Err(pointer)
            case Ok((eventType, payload, flags)) =>
              && SmashOutcome(plugins, envelope).Ok?
              && var after := SmashOutcome(plugins, envelope).value;
                 eventType == after.eventType && payload == after.payload && flags == FlagsOf(after.meta)
  {
    if !AddsFlags(plugins) {
      FlagsUntouched(plugins, []);
    }
  }

  // ----- What single plugins do -----

  /** An alias renames its event type and nothing else. */
  lemma {:induction false} AliasRenames(from: string, to: string, envelope: Envelope)
    ensures SmashOutcome([EventTypeAlias(from, to)], envelope) ==
            Ok(envelope.(eventType := if envelope.eventType == from then to else envelope.eventType))
  {
    TransformedSnoc([], EventTypeAlias(from, to), envelope);
    assert [] + [EventTypeAlias(from, to)] == [EventTypeAlias(from, to)];
  }

  /** A required field that is there changes nothing, one that is not rejects the envelope. */
  lemma {:induction false} FieldIsRequired(pointer: string, envelope: Envelope)
    ensures SmashOutcome([RequirePayloadField(pointer)], envelope) ==
            if Pointer(envelope.payload, pointer) == None then Err(pointer) else Ok(envelope)
  {
    TransformedSnoc([], RequirePayloadField(pointer), envelope);
    assert [] + [RequirePayloadField(pointer)] == [RequirePayloadField(pointer)];
    assert Demands([RequirePayloadField(pointer)][0], envelope.payload) <==> Pointer(envelope.payload, pointer) == None;
  }

  /** A flag is added to the envelope's metadata, which it creates if there is none, unless it is there already. */
  lemma {:induction false} FlagIsAdded(flag: string, envelope: Envelope)
    ensures SmashOutcome([AddMetaFlag(flag)], envelope) ==
            var meta := if envelope.meta.Some? then envelope.meta.value else EventMeta(None, None, None, []);
            Ok(envelope.(meta := Some(meta.(flags := if flag in meta.flags then meta.flags
                                                     else meta.flags + [flag]))))
  {
    TransformedSnoc([], AddMetaFlag(flag), envelope);
    assert [] + [AddMetaFlag(flag)] == [AddMetaFlag(flag)];
  }
}
