/**
 * HeartbeatHandler: on a writer-idle event it sends a PING with a fresh request
 * id; when the channel goes inactive it asks its consumer to connect again.
 * Every user event is passed on to the next handler; the channel-inactive event
 * only when that connect returns normally.
 */
module Heartbeat {
  import opened Wrappers
  import opened Bytes
  import opened Protocol
  import opened Decoder
  import opened Consumer
  import opened Seqs

  // ---------------------------------------------------------------------------
  // The request id generator

  /** AtomicLong.incrementAndGet on a 64-bit value: Long.MAX_VALUE wraps round to Long.MIN_VALUE. */
  function NextId(v: int64): (r: int64)
    ensures v < MAX_INT64 ==> r == v + 1
    ensures v == MAX_INT64 ==> r == MIN_INT64
  {
    if v == MAX_INT64 then MIN_INT64 else v + 1
  }

  /** The shared request id counter, used one call at a time. */
  class RequestIdGen {
    var value: int64

    constructor (initial: int64)
      ensures value == initial
    {
      value := initial;
    }

    method IncrementAndGet() returns (id: int64)
      modifies this
      ensures value == NextId(old(value)) && id == value
    {
      value := NextId(value);
      id := value;
    }
  }

  // ---------------------------------------------------------------------------
  // Events and the handler context

  datatype IdleState = READER_IDLE | WRITER_IDLE | ALL_IDLE

  /** The object userEventTriggered receives: an IdleStateEvent, or anything else. */
  datatype UserEvent = IdleStateEvent(state: IdleState) | OtherEvent

  /** What a handler passes on to the next handler in the pipeline. */
  datatype InboundEvent = ChannelInactiveFired | UserEventFired(evt: UserEvent)

  /** The part of ChannelHandlerContext the handler uses: its channel, and the events fired onwards. */
  class HandlerContext {
    const channel: Channel
    var fired: seq<InboundEvent>

    constructor (ch: Channel)
      ensures channel == ch && fired == []
    {
      channel := ch;
      fired := [];
    }
  }

  /**
   * The header of the PING frame the handler sends: the protocol's magic and
   * version, Hessian serialization, a type the decoder reads as HEARTBEAT,
   * status 1 and the given id; msgLen keeps MsgHeader's default of 0.
   */
  function PingHeader(k: Constants, requestId: int64): (h: MsgHeader)
    ensures h.magic == k.magic && h.version == k.version && h.serialization == k.hessian
    ensures FindByType(h.msgType) == Some(HEARTBEAT)
    ensures h.status == 1 && h.requestId == requestId && h.msgLen == 0
  {
    FindByTypeOfTypeCode(HEARTBEAT);
    MsgHeader(k.magic, k.version, k.hessian, TypeCode(HEARTBEAT), 1, requestId, 0)
  }

  /** The generator's value after one user event: only a writer-idle event draws an id. */
  function IdStep(value: int64, evt: UserEvent): int64
  {
    if evt == IdleStateEvent(WRITER_IDLE) then NextId(value) else value
  }

  /** What one user event writes to the channel when the generator holds `value`. */
  function Written(k: Constants, value: int64, evt: UserEvent): seq<Message>
  {
    if evt == IdleStateEvent(WRITER_IDLE) then [Message(PingHeader(k, NextId(value)), TextBody(k.ping))] else []
  }

  class HeartbeatHandler {
    const consumer: RpcConsumer

    constructor (rpcConsumer: RpcConsumer)
      ensures consumer == rpcConsumer
    {
      consumer := rpcConsumer;
    }

    /**
     * channelInactive: exactly one connect() on the owning consumer. connect()
     * waits for the attempt and rethrows its failure, which leaves the handler
     * before the event is fired onwards; `reconnectSucceeds` is that outcome.
     */
    method ChannelInactive(ctx: HandlerContext, reconnectSucceeds: bool)
      modifies consumer`pendingConnects, ctx
      ensures consumer.pendingConnects == old(consumer.pendingConnects) + 1
      ensures ctx.fired == old(ctx.fired) + (if reconnectSucceeds then [ChannelInactiveFired] else [])
    {
      consumer.Connect();
      if reconnectSucceeds {
        ctx.fired := ctx.fired + [ChannelInactiveFired];
      }
    }

    /**
     * userEventTriggered: a WRITER_IDLE event draws one fresh id and writes one
     * PING frame; any other event writes nothing and draws no id. The event is
     * passed on in every case.
     */
    method UserEventTriggered(ctx: HandlerContext, ids: RequestIdGen, k: Constants, evt: UserEvent)
      modifies ctx, ctx.channel, ids
      ensures ctx.channel.outbound == old(ctx.channel.outbound) + Written(k, old(ids.value), evt)
      ensures ids.value == IdStep(old(ids.value), evt)
      ensures ctx.fired == old(ctx.fired) + [UserEventFired(evt)]
    {
      if evt.IdleStateEvent? {
        var event := evt;
        if event.state == WRITER_IDLE {
          var requestId := ids.IncrementAndGet();
          var header := PingHeader(k, requestId);
          ctx.channel.WriteAndFlush(Message(header, TextBody(k.ping)));
        }
      }
      ctx.fired := ctx.fired + [UserEventFired(evt)];
    }
  }

  // ---------------------------------------------------------------------------
  // Many events

  /** The generator's value after a sequence of user events. */
  function IdAfter(start: int64, events: seq<UserEvent>): int64
  {
    if events == [] then start
    else IdStep(IdAfter(start, events[..|events| - 1]), events[|events| - 1])
  }

  /** Everything a sequence of user events writes to the channel, in order. */
  function Outbound(k: Constants, start: int64, events: seq<UserEvent>): seq<Message>
  {
    if events == [] then []
    else
      var init := events[..|events| - 1];
      Outbound(k, start, init) + Written(k, IdAfter(start, init), events[|events| - 1])
  }

  /**
   * As long as the counter does not reach Long.MAX_VALUE, a sequence of user
   * events writes one PING per WRITER_IDLE event and nothing else, with the ids
   * start + 1, start + 2, ... in order, so they are strictly increasing and
   * pairwise distinct.
   */
  lemma {:induction false} PingsPerWriterIdle(k: Constants, start: int64, events: seq<UserEvent>)
    requires start + Count(IdleStateEvent(WRITER_IDLE), events) <= MAX_INT64
    ensures var out := Outbound(k, start, events);
      && |out| == Count(IdleStateEvent(WRITER_IDLE), events)
      && IdAfter(start, events) == start + |out|
      && (forall i :: 0 <= i < |out| ==> out[i].body == TextBody(k.ping) && out[i].header.requestId == start + i + 1)
      && (forall i, j :: 0 <= i < j < |out| ==> out[i].header.requestId < out[j].header.requestId)
  {
    if events != [] {
      var n := |events|;
      var init, e := events[..n - 1], events[n - 1];
      assert events == init + [e];
      CountAppend(IdleStateEvent(WRITER_IDLE), init, [e]);
      PingsPerWriterIdle(k, start, init);
    }
  }

  /**
   * The PING the handler sends, laid out on the wire with the length of its
   * serialized body, is answered by the peer's decoder with exactly one PONG
   * under the same header, request id included, and is never emitted upwards.
   */
  lemma PingIsAnsweredWithPong(k: Constants, requestId: int64, payload: seq<uint8>,
                               before: seq<uint8>, after: seq<uint8>, serializationOf: int8 -> Serialization)
    requires |payload| <= 0x7FFF_FFFF
    requires serializationOf(k.hessian).text(payload) == Some(k.ping)
    ensures var h := PingHeader(k, requestId).(msgLen := |payload|);
      var data := before + FrameBytes(h, payload) + after;
      var r := DecodeSpec(data, |before|, k, serializationOf);
      && r.out == []
      && r.written == [Message(h, TextBody(k.pong))]
      && r.readerIndex == |before| + HEADER_TOTAL_LEN + |payload|
      && r.error == None
  {
    var h := PingHeader(k, requestId).(msgLen := |payload|);
    FindByTypeOfTypeCode(HEARTBEAT);
    DecodeLaidOutFrame(before, h, payload, after, k, serializationOf);
  }
}
