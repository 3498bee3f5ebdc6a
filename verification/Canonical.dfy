/** Inbound messages in canonical form: the wire adapters, the one projection to a store input,
    and the two timestamp normalisations that end up composed. */
module Canonical {
  import opened Tables

  const I64_MAX: int := 0x7FFF_FFFF_FFFF_FFFF
  const MIN_PLAUSIBLE_MS: int := 100_000_000_000

  type Int64 = x: int | -0x8000_0000_0000_0000 <= x <= 0x7FFF_FFFF_FFFF_FFFF

  /** What the store's upsert is given. */
  datatype Input = Input(
    server: nat, local: nat, channel: nat, channelType: int, timestamp: Int64, from: nat, body: Body,
    status: int, pts: int, orderSeq: int, precision: Precision, mime: Option<string>, revoked: bool)

  datatype Inbound = Inbound(
    server: nat, local: nat, channel: nat, channelType: int, from: nat, kind: int, content: string,
    extra: string, pts: int, sentAtMs: Int64, precision: Precision, revoked: bool)

  /** The fields that must not depend on the route a message came by. Parsed metadata is opaque. */
  datatype Semantic<M(==)> = Semantic(
    server: nat, channel: nat, channelType: int, from: nat, kind: int, content: string,
    metadata: M, pts: int, sentAtMs: Int64, revoked: bool)

  /** i64::saturating_mul by 1000, for positive operands. */
  function SaturatingMillis(v: Int64): (r: Int64)
    requires v > 0
    ensures v <= r
  {
    if v * 1000 > I64_MAX then I64_MAX else v * 1000
  }

  /** The adapters' normalisation: no usable time becomes 0. */
  function NormalizeSentAtMs(v: Int64): Int64 {
    if v >= MIN_PLAUSIBLE_MS then v else if v > 0 then SaturatingMillis(v) else 0
  }

  /** The store's normalisation: no usable time becomes the local clock. */
  function SentAtMs(timestamp: Int64, fallback: int): int {
    if timestamp >= MIN_PLAUSIBLE_MS then timestamp
    else if timestamp > 0 then SaturatingMillis(timestamp)
    else fallback
  }

  /** Division truncating toward zero. */
  function Truncated(a: int, b: int): int
    requires b > 0
  {
    if a >= 0 then a / b else -((-a) / b)
  }

  function SemanticOf<M(==)>(c: Inbound, parse: string -> M): Semantic<M> {
    Semantic(c.server, c.channel, c.channelType, c.from, c.kind, c.content, parse(c.extra),
             c.pts, c.sentAtMs, c.revoked)
  }

  predicate AgreesWith<M(==)>(a: Semantic<M>, b: Semantic<M>) {
    && a.server == b.server && a.channel == b.channel && a.channelType == b.channelType
    && a.from == b.from && a.kind == b.kind && a.content == b.content && a.metadata == b.metadata
    && a.pts == b.pts && a.revoked == b.revoked
    && Truncated(a.sentAtMs, 1000) == Truncated(b.sentAtMs, 1000)
  }

  function ToUpsertInput(c: Inbound, status: int, mime: Option<string>): Input {
    Input(c.server, c.local, c.channel, if c.channelType == 0 then 1 else c.channelType, c.sentAtMs,
          c.from, Body(c.kind, c.content, "", 0, c.extra), status, c.pts, c.pts, c.precision, mime,
          c.revoked)
  }

  // ----- one adapter per source; `extra` is the canonical envelope -----

  function FromHistory(server: nat, channel: nat, channelType: int, from: nat, kind: int, content: string,
                       extra: string, seqNo: Option<int>, timestamp: nat, revoked: bool): Inbound
  {
    var time: Int64 := if timestamp > I64_MAX then I64_MAX else timestamp;
    Inbound(server, 0, channel, channelType, from, kind, content, extra,
            if seqNo.Some? then seqNo.value else 0, NormalizeSentAtMs(time), Milliseconds, revoked)
  }

  function FromSync(server: nat, local: nat, channel: nat, channelType: int, from: nat, kind: int,
                    content: string, extra: string, pts: int, timestamp: Int64): Inbound
  {
    Inbound(server, local, channel, channelType, from, kind, content, extra, pts,
            NormalizeSentAtMs(timestamp), Milliseconds, false)
  }

  function FromPush(server: nat, local: nat, channel: nat, channelType: int, from: nat, kind: int,
                    content: string, extra: string, seqNo: int, seconds: Int64): Inbound
  {
    Inbound(server, local, channel, channelType, from, kind, content, extra, seqNo,
            NormalizeSentAtMs(seconds), Seconds, false)
  }

  // ----- the routes to the store -----

  /** A sync item overrides what is bookkeeping rather than the message itself. */
  function ItemInput(c: Inbound, setting: int, orderSeq: int, mime: Option<string>): Input {
    var inp := ToUpsertInput(c, SENT, mime);
    inp.(body := inp.body.(setting := setting, searchable := ""), orderSeq := orderSeq)
  }

  /** A push is packed into a sync item, which does not say how precise its time was, and read back as
      one. */
  function PushRoute(server: nat, local: nat, channel: nat, channelType: int, from: nat, kind: int, content: string,
                     extra: string, seqNo: int, seconds: Int64, needReceipt: bool, mime: Option<string>): Input
  {
    var c := FromPush(server, local, channel, channelType, from, kind, content, extra, seqNo, seconds);
    var item := FromSync(c.server, c.local, c.channel, if c.channelType == 0 then 1 else c.channelType, c.from, c.kind,
                         c.content, c.extra, c.pts, c.sentAtMs);
    ItemInput(item, if needReceipt then 1 else 0, seqNo, mime)
  }

  /** A message of a channel difference. */
  function DifferenceRoute(server: nat, local: nat, channel: nat, channelType: int, from: nat, kind: int,
                           content: string, extra: string, pts: int, timestamp: Int64, mime: Option<string>): Input
  {
    var item := FromSync(server, local, channel, if channelType == 0 then 1 else channelType, from, kind, content,
                         extra, pts, timestamp);
    ItemInput(item, 0, pts, mime)
  }

  function HistoryRoute(server: nat, channel: nat, channelType: int, from: nat, kind: int, content: string,
                        extra: string, seqNo: Option<int>, timestamp: nat, revoked: bool, mime: Option<string>): Input
  {
    var ty := if channelType == 0 then 1 else channelType;
    ToUpsertInput(FromHistory(server, channel, ty, from, kind, content, extra, seqNo, timestamp, revoked), SENT, mime)
  }

  // ----- properties -----

  /** Normalising in the adapter and again in the store equals normalising once for exactly the
      values that are not positive seconds before 10^8 (March 1973), and seconds before 10^11 are
      never clamped: a value is taken as it is from 10^11 on, times 1000 below, and as no time at all when
      not positive, which the store replaces by the local clock. */
  lemma NormalisationComposes(v: Int64, fallback: int)
    ensures SentAtMs(NormalizeSentAtMs(v), fallback) == SentAtMs(v, fallback) <==> v <= 0 || v >= 100_000_000
    ensures 0 < v < MIN_PLAUSIBLE_MS ==> NormalizeSentAtMs(v) == v * 1000 < I64_MAX
    ensures NormalizeSentAtMs(v) == 0 || NormalizeSentAtMs(v) >= 1000
    ensures v >= 100_000_000_000 ==> NormalizeSentAtMs(v) == v == SentAtMs(v, fallback)
    ensures 0 < v < 100_000_000_000 ==> NormalizeSentAtMs(v) == v * 1000 == SentAtMs(v, fallback)
    ensures v <= 0 ==> NormalizeSentAtMs(v) == 0 && SentAtMs(v, fallback) == fallback
  {
  }

  /** Two projections agree when they are alike but for less than a second, and their times fall in the same
      second. */
  lemma AgreementMeans<M>(a: Semantic<M>, b: Semantic<M>)
    requires a.sentAtMs >= 0 && b.sentAtMs >= 0
    ensures AgreesWith(a, b) <==> a.(sentAtMs := 0) == b.(sentAtMs := 0) && a.sentAtMs / 1000 == b.sentAtMs / 1000
  {
  }

  /** A push copy (whole seconds) and a history copy (milliseconds) of one message agree exactly
      when they name the same second and the history copy is not already revoked: the push
      adapter has no revoke flag to carry. */
  lemma PushAgreesWithHistory<M>(
    server: nat, local: nat, channel: nat, channelType: int, from: nat, kind: int, content: string,
    extra: string, pts: int, seconds: Int64, millis: nat, revoked: bool, parse: string -> M)
    requires 0 < seconds < MIN_PLAUSIBLE_MS <= millis <= I64_MAX
    ensures
      var push := FromPush(server, local, channel, channelType, from, kind, content, extra, pts, seconds);
      var history := FromHistory(server, channel, channelType, from, kind, content, extra, Some(pts), millis, revoked);
      && (AgreesWith(SemanticOf(push, parse), SemanticOf(history, parse)) <==> !revoked && seconds == millis / 1000)
      && (AgreesWith(SemanticOf(history, parse), SemanticOf(push, parse)) <==> !revoked && seconds == millis / 1000)
  {
    NormalisationComposes(seconds, 0);
    assert seconds * 1000 / 1000 == seconds;
  }
}
