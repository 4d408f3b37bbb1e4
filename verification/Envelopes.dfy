/** The event envelope that serve publishes and smash delivers. */
module Envelopes {
  import opened Wrappers
  import opened Json

  datatype EventMeta = EventMeta(
    traceId: Option<string>, ingressAdapter: Option<string>, routeKey: Option<string>, flags: seq<string>)

  const DEFAULT_META := EventMeta(None, None, None, [])

  datatype Envelope = Envelope(
    id: string, source: string, eventType: string, receivedAt: string, payload: Value, meta: Option<EventMeta>)
}
