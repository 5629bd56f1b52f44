/**
 * MiniRpcDecoder.decode: takes at most one frame off the front of the readable
 * bytes of a ByteBuf, hands REQUEST and RESPONSE messages on, and answers a
 * heartbeat PING with a PONG on the channel.
 */
module Decoder {
  import opened Wrappers
  import opened Bytes
  import opened Protocol
  import opened Buffer

  /** magic 2 + version 1 + serialization 1 + msgType 1 + status 1 + requestId 8 + data length 4 */
  const HEADER_TOTAL_LEN: nat := 18

  /** What decode throws. */
  datatype DecodeError =
    | IllegalMagic(magic: int16)         // IllegalArgumentException: the magic number is illegal
    | NegativeArraySize(length: int32)   // `new byte[dataLength]` with a negative data length

  /**
   * What one call of decode does: where it leaves the reader index, what it adds
   * to the `out` list, what it writes to the channel, and what it throws.
   */
  datatype Decoded = Decoded(readerIndex: nat, out: seq<Message>, written: seq<Message>, error: Option<DecodeError>)

  function Int8At(data: seq<uint8>, at: nat): int8
    requires at + 1 <= |data|
  {
    SignedWidths(data[at..at + 1]);
    BeSigned(data[at..at + 1])
  }

  function Int16At(data: seq<uint8>, at: nat): int16
    requires at + 2 <= |data|
  {
    SignedWidths(data[at..at + 2]);
    BeSigned(data[at..at + 2])
  }

  function Int32At(data: seq<uint8>, at: nat): int32
    requires at + 4 <= |data|
  {
    SignedWidths(data[at..at + 4]);
    BeSigned(data[at..at + 4])
  }

  function Int64At(data: seq<uint8>, at: nat): int64
    requires at + 8 <= |data|
  {
    SignedWidths(data[at..at + 8]);
    BeSigned(data[at..at + 8])
  }

  /** The header held by the 18 bytes from `at`, field by field at the offsets of the layout. */
  function HeaderAt(data: seq<uint8>, at: nat): MsgHeader
    requires at + HEADER_TOTAL_LEN <= |data|
  {
    MsgHeader(
      magic := Int16At(data, at),
      version := Int8At(data, at + 2),
      serialization := Int8At(data, at + 3),
      msgType := Int8At(data, at + 4),
      status := Int8At(data, at + 5),
      requestId := Int64At(data, at + 6),
      msgLen := Int32At(data, at + 14))
  }

  /** The bytes from `ri` hold a good header and all the payload it announces. */
  predicate CompleteFrame(data: seq<uint8>, ri: nat, k: Constants)
    requires ri <= |data|
  {
    && |data| - ri >= HEADER_TOTAL_LEN
    && HeaderAt(data, ri).magic == k.magic
    && 0 <= HeaderAt(data, ri).msgLen <= |data| - ri - HEADER_TOTAL_LEN
  }

  /**
   * The handling of one complete frame with header h and payload bytes, whose
   * end is at `next`: dispatch on the message type.
   */
  function Deliver(h: MsgHeader, payload: seq<uint8>, next: nat, k: Constants, s: Serialization): (r: Decoded)
    ensures r.readerIndex == next && r.error == None
  {
    match FindByType(h.msgType)
    case None => Decoded(next, [], [], None)
    case Some(REQUEST) =>
      var out := match s.request(payload)
        case Some(request) => [Message(h, RequestBody(request))]
        case None => [];
      Decoded(next, out, [], None)
    case Some(RESPONSE) =>
      var out := match s.response(payload)
        case Some(response) => [Message(h, ResponseBody(response))]
        case None => [];
      Decoded(next, out, [], None)
    case Some(HEARTBEAT) =>
      var written := if s.text(payload) == Some(k.ping) then [Message(h, TextBody(k.pong))] else [];
      Decoded(next, [], written, None)
  }

  /** What decode does to a buffer holding `data` whose reader index is `ri`. */
  function DecodeSpec(data: seq<uint8>, ri: nat, k: Constants, serializationOf: int8 -> Serialization): (r: Decoded)
    requires ri <= |data|
    ensures ri <= r.readerIndex <= |data|
    ensures |r.out| + |r.written| <= 1
    ensures r.error.Some? ==> r.out == [] && r.written == []
  {
    if |data| - ri < HEADER_TOTAL_LEN then Decoded(ri, [], [], None)
    else
      var h := HeaderAt(data, ri);
      if h.magic != k.magic then Decoded(ri + 2, [], [], Some(IllegalMagic(h.magic)))
      else if |data| - (ri + HEADER_TOTAL_LEN) < h.msgLen then Decoded(ri, [], [], None)
      else if h.msgLen < 0 then Decoded(ri + HEADER_TOTAL_LEN, [], [], Some(NegativeArraySize(h.msgLen)))
      else
        var next := ri + HEADER_TOTAL_LEN + h.msgLen;
        Deliver(h, data[ri + HEADER_TOTAL_LEN..next], next, k, serializationOf(h.serialization))
  }

  /**
   * decode(ctx, in, out): the messages it adds to `out` are returned, what it
   * writes goes to `ch`, and an exception it throws is returned as `error`.
   */
  method Decode(ch: Channel, buf: ByteBuf, k: Constants, serializationOf: int8 -> Serialization)
    returns (out: seq<Message>, error: Option<DecodeError>)
    requires buf.Valid()
    modifies buf, ch
    ensures buf.Valid()
    ensures var r := DecodeSpec(buf.data, old(buf.readerIndex), k, serializationOf);
      && buf.readerIndex == r.readerIndex
      && out == r.out
      && error == r.error
      && ch.outbound == old(ch.outbound) + r.written
    ensures buf.markedReaderIndex ==
      if |buf.data| - old(buf.readerIndex) < HEADER_TOTAL_LEN then old(buf.markedReaderIndex) else old(buf.readerIndex)
  {
    out, error := [], None;
    if buf.ReadableBytes() < HEADER_TOTAL_LEN {
      return;
    }
    buf.MarkReaderIndex();

    var magic := buf.ReadShort();
    if magic != k.magic {
      error := Some(IllegalMagic(magic));
      return;
    }
    var header := ReadHeaderRest(buf, magic);
    var dataLength := header.msgLen;
    if buf.ReadableBytes() < dataLength {
      buf.ResetReaderIndex();
      return;
    }
    if dataLength < 0 {
      error := Some(NegativeArraySize(dataLength));
      return;
    }
    var data := new uint8[dataLength];
    buf.ReadBytes(data);
    out := Dispatch(ch, header, data, k, serializationOf(header.serialization));
  }

  /**
   * The header reads that follow a good magic number: version, serialization,
   * msgType and status one byte each, the 8-byte request id and the 4-byte data
   * length. The header returned is the one whose magic was read just before.
   */
  method ReadHeaderRest(buf: ByteBuf, magic: int16) returns (header: MsgHeader)
    requires buf.Valid() && 2 <= buf.readerIndex && buf.ReadableBytes() >= HEADER_TOTAL_LEN - 2
    requires magic == Int16At(buf.data, buf.readerIndex - 2)
    modifies buf`readerIndex
    ensures buf.Valid() && buf.readerIndex == old(buf.readerIndex) + HEADER_TOTAL_LEN - 2
    ensures header == HeaderAt(buf.data, old(buf.readerIndex) - 2)
  {
    var version := buf.ReadByte();
    var serializeType := buf.ReadByte();
    var msgType := buf.ReadByte();
    var status := buf.ReadByte();
    var requestId := buf.ReadLong();
    var dataLength := buf.ReadInt();
    header := MsgHeader(magic, version, serializeType, msgType, status, requestId, dataLength);
  }

  /**
   * The switch on the message type once the payload bytes are in `data`: returns
   * what goes to `out` and writes the heartbeat reply to `ch`. The reader index
   * is Decode's business and has already moved past the frame, so the index
   * handed to Deliver here is a placeholder and only its outputs are compared.
   */
  method Dispatch(ch: Channel, header: MsgHeader, data: array<uint8>, k: Constants, rpcSerialization: Serialization)
    returns (out: seq<Message>)
    modifies ch
    ensures var r := Deliver(header, data[..], 0, k, rpcSerialization);
      out == r.out && ch.outbound == old(ch.outbound) + r.written
  {
    out := [];
    var msgTypeEnum := FindByType(header.msgType);
    if msgTypeEnum.None? {
      return;
    }
    match msgTypeEnum.value
    case REQUEST =>
      var request := rpcSerialization.request(data[..]);
      if request.Some? {
        out := out + [Message(header, RequestBody(request.value))];
      }
    case RESPONSE =>
      var response := rpcSerialization.response(data[..]);
      if response.Some? {
        out := out + [Message(header, ResponseBody(response.value))];
      }
    case HEARTBEAT =>
      var heart := rpcSerialization.text(data[..]);
      if heart == Some(k.ping) {
        ch.WriteAndFlush(Message(header, TextBody(k.pong)));
      }
  }

  // ---------------------------------------------------------------------------
  // Properties of one call

  /** Fewer than 18 readable bytes: nothing is read, emitted or written. */
  lemma ShortBufferIsLeftAlone(data: seq<uint8>, ri: nat, k: Constants, serializationOf: int8 -> Serialization)
    requires ri <= |data| && |data| - ri < HEADER_TOTAL_LEN
    ensures DecodeSpec(data, ri, k, serializationOf) == Decoded(ri, [], [], None)
  {
  }

  /** A bad magic number throws after the two magic bytes are read, and emits nothing. */
  lemma IllegalMagicThrows(data: seq<uint8>, ri: nat, k: Constants, serializationOf: int8 -> Serialization)
    requires ri <= |data| && |data| - ri >= HEADER_TOTAL_LEN
    requires BeSigned(data[ri..ri + 2]) != k.magic
    ensures DecodeSpec(data, ri, k, serializationOf) == Decoded(ri + 2, [], [], Some(IllegalMagic(Int16At(data, ri))))
  {
  }

  /** A header whose payload has not fully arrived leaves the reader index where it was. */
  lemma PartialFrameIsNotConsumed(data: seq<uint8>, ri: nat, k: Constants, serializationOf: int8 -> Serialization)
    requires ri <= |data| && |data| - ri >= HEADER_TOTAL_LEN
    requires HeaderAt(data, ri).magic == k.magic
    requires HeaderAt(data, ri).msgLen > |data| - ri - HEADER_TOTAL_LEN
    ensures DecodeSpec(data, ri, k, serializationOf) == Decoded(ri, [], [], None)
  {
  }

  /**
   * A negative data length passes the length check and fails at the array
   * allocation, after the whole header has been read.
   */
  lemma NegativeLengthThrows(data: seq<uint8>, ri: nat, k: Constants, serializationOf: int8 -> Serialization)
    requires ri <= |data| && |data| - ri >= HEADER_TOTAL_LEN
    requires HeaderAt(data, ri).magic == k.magic && HeaderAt(data, ri).msgLen < 0
    ensures DecodeSpec(data, ri, k, serializationOf)
         == Decoded(ri + HEADER_TOTAL_LEN, [], [], Some(NegativeArraySize(HeaderAt(data, ri).msgLen)))
  {
  }

  /** A complete frame is consumed whole, and the payload is exactly the next data-length bytes. */
  lemma CompleteFrameIsConsumed(data: seq<uint8>, ri: nat, k: Constants, serializationOf: int8 -> Serialization)
    requires ri <= |data| && CompleteFrame(data, ri, k)
    ensures var h := HeaderAt(data, ri);
      var next := ri + HEADER_TOTAL_LEN + h.msgLen;
      && DecodeSpec(data, ri, k, serializationOf).readerIndex == next
      && DecodeSpec(data, ri, k, serializationOf)
         == Deliver(h, data[ri + HEADER_TOTAL_LEN..next], next, k, serializationOf(h.serialization))
  {
  }

  /** Every call either waits, throws, or consumes exactly one complete frame. */
  lemma DecodeOutcomes(data: seq<uint8>, ri: nat, k: Constants, serializationOf: int8 -> Serialization)
    requires ri <= |data|
    ensures var r := DecodeSpec(data, ri, k, serializationOf);
      || (r == Decoded(ri, [], [], None) && !CompleteFrame(data, ri, k))
      || (r.error.Some? && !CompleteFrame(data, ri, k))
      || (CompleteFrame(data, ri, k) && r.error == None
          && r.readerIndex == ri + HEADER_TOTAL_LEN + HeaderAt(data, ri).msgLen)
  {
  }

  /** An unknown message type: the frame is consumed, and nothing is emitted or written. */
  lemma UnknownTypeIsDropped(data: seq<uint8>, ri: nat, k: Constants, serializationOf: int8 -> Serialization)
    requires ri <= |data| && CompleteFrame(data, ri, k)
    requires FindByType(HeaderAt(data, ri).msgType) == None
    ensures var r := DecodeSpec(data, ri, k, serializationOf);
      r.out == [] && r.written == [] && r.error == None
      && r.readerIndex == ri + HEADER_TOTAL_LEN + HeaderAt(data, ri).msgLen
  {
  }

  /**
   * A REQUEST or RESPONSE frame is emitted, once, exactly when its body
   * deserializes to non-null; the message carries the decoded header, whose
   * msgLen is the data length.
   */
  lemma RequestOrResponseIsEmitted(data: seq<uint8>, ri: nat, k: Constants, serializationOf: int8 -> Serialization)
    requires ri <= |data| && CompleteFrame(data, ri, k)
    requires FindByType(HeaderAt(data, ri).msgType) in {Some(REQUEST), Some(RESPONSE)}
    ensures var h := HeaderAt(data, ri);
      var payload := data[ri + HEADER_TOTAL_LEN..ri + HEADER_TOTAL_LEN + h.msgLen];
      var s := serializationOf(h.serialization);
      var r := DecodeSpec(data, ri, k, serializationOf);
      && r.written == []
      && |r.out| <= 1
      && (FindByType(h.msgType) == Some(REQUEST) ==>
            (r.out != [] <==> s.request(payload).Some?)
            && (r.out != [] ==> r.out[0] == Message(h, RequestBody(s.request(payload).value))))
      && (FindByType(h.msgType) == Some(RESPONSE) ==>
            (r.out != [] <==> s.response(payload).Some?)
            && (r.out != [] ==> r.out[0] == Message(h, ResponseBody(s.response(payload).value))))
      && (r.out != [] ==> r.out[0].header.msgLen == |payload|)
  {
  }

  /**
   * A HEARTBEAT frame is never emitted; a PING body gets exactly one PONG
   * written back under the same header, request id included.
   */
  lemma HeartbeatIsAnswered(data: seq<uint8>, ri: nat, k: Constants, serializationOf: int8 -> Serialization)
    requires ri <= |data| && CompleteFrame(data, ri, k)
    requires FindByType(HeaderAt(data, ri).msgType) == Some(HEARTBEAT)
    ensures var h := HeaderAt(data, ri);
      var payload := data[ri + HEADER_TOTAL_LEN..ri + HEADER_TOTAL_LEN + h.msgLen];
      var r := DecodeSpec(data, ri, k, serializationOf);
      && r.out == []
      && r.written == (if serializationOf(h.serialization).text(payload) == Some(k.ping)
                       then [Message(h, TextBody(k.pong))] else [])
  {
  }

  // ---------------------------------------------------------------------------
  // The frame layout drawn in the decoder's header comment

  /** A frame with header h and the given payload, laid out field by field, big-endian. */
  function FrameBytes(h: MsgHeader, payload: seq<uint8>): (bytes: seq<uint8>)
    ensures |bytes| == HEADER_TOTAL_LEN + |payload|
  {
    Pow256Values();
    BeSignedBytes(h.magic, 2) + BeSignedBytes(h.version, 1) + BeSignedBytes(h.serialization, 1)
    + BeSignedBytes(h.msgType, 1) + BeSignedBytes(h.status, 1) + BeSignedBytes(h.requestId, 8)
    + BeSignedBytes(h.msgLen, 4) + payload
  }

  /** Each header field is read back from its own offset. */
  lemma {:induction false} HeaderAtFrame(before: seq<uint8>, h: MsgHeader, payload: seq<uint8>, after: seq<uint8>)
    ensures var data := before + FrameBytes(h, payload) + after;
      && |before| + HEADER_TOTAL_LEN <= |data|
      && HeaderAt(data, |before|) == h
      && data[|before| + HEADER_TOTAL_LEN..|before| + HEADER_TOTAL_LEN + |payload|] == payload
  {
    Pow256Values();
    var m, v, s := BeSignedBytes(h.magic, 2), BeSignedBytes(h.version, 1), BeSignedBytes(h.serialization, 1);
    var t, st := BeSignedBytes(h.msgType, 1), BeSignedBytes(h.status, 1);
    var id, len := BeSignedBytes(h.requestId, 8), BeSignedBytes(h.msgLen, 4);
    var data := before + FrameBytes(h, payload) + after;
    var at := |before|;
    assert data == before + m + v + s + t + st + id + len + payload + after;
    assert data[at..at + 2] == m;
    assert data[at + 2..at + 3] == v;
    assert data[at + 3..at + 4] == s;
    assert data[at + 4..at + 5] == t;
    assert data[at + 5..at + 6] == st;
    assert data[at + 6..at + 14] == id;
    assert data[at + 14..at + 18] == len;
    assert data[at + 18..at + 18 + |payload|] == payload;
    BeSignedRoundTrip(h.magic, 2);
    BeSignedRoundTrip(h.version, 1);
    BeSignedRoundTrip(h.serialization, 1);
    BeSignedRoundTrip(h.msgType, 1);
    BeSignedRoundTrip(h.status, 1);
    BeSignedRoundTrip(h.requestId, 8);
    BeSignedRoundTrip(h.msgLen, 4);
  }

  /**
   * The converse of HeaderAtFrame: the bytes of every complete frame are exactly
   * the layout of the header decoded from them followed by their payload.
   */
  lemma CompleteFrameIsLaidOut(data: seq<uint8>, ri: nat, k: Constants)
    requires ri <= |data| && CompleteFrame(data, ri, k)
    ensures var h := HeaderAt(data, ri);
      var end := ri + HEADER_TOTAL_LEN + h.msgLen;
      data[ri..end] == FrameBytes(h, data[ri + HEADER_TOTAL_LEN..end])
  {
    var h := HeaderAt(data, ri);
    var end := ri + HEADER_TOTAL_LEN + h.msgLen;
    var m, v, se := data[ri..ri + 2], data[ri + 2..ri + 3], data[ri + 3..ri + 4];
    var t, st := data[ri + 4..ri + 5], data[ri + 5..ri + 6];
    var id, len, payload := data[ri + 6..ri + 14], data[ri + 14..ri + 18], data[ri + 18..end];
    BeSignedBytesRoundTrip(m);
    BeSignedBytesRoundTrip(v);
    BeSignedBytesRoundTrip(se);
    BeSignedBytesRoundTrip(t);
    BeSignedBytesRoundTrip(st);
    BeSignedBytesRoundTrip(id);
    BeSignedBytesRoundTrip(len);
    assert FrameBytes(h, payload) == m + v + se + t + st + id + len + payload;
    assert data[ri..ri + 3] == m + v;
    assert data[ri..ri + 4] == m + v + se;
    assert data[ri..ri + 5] == m + v + se + t;
    assert data[ri..ri + 6] == m + v + se + t + st;
    assert data[ri..ri + 14] == m + v + se + t + st + id;
    assert data[ri..ri + 18] == m + v + se + t + st + id + len;
    assert data[ri..end] == data[ri..ri + 18] + payload;
  }

  /**
   * A frame laid out after any bytes already read, and followed by any further
   * bytes, is decoded with exactly its own header and payload and consumed whole.
   */
  lemma DecodeLaidOutFrame(before: seq<uint8>, h: MsgHeader, payload: seq<uint8>, after: seq<uint8>,
                           k: Constants, serializationOf: int8 -> Serialization)
    requires h.magic == k.magic && h.msgLen == |payload|
    ensures var data := before + FrameBytes(h, payload) + after;
      var next := |before| + HEADER_TOTAL_LEN + |payload|;
      && |before| <= |data|
      && DecodeSpec(data, |before|, k, serializationOf) == Deliver(h, payload, next, k, serializationOf(h.serialization))
  {
    HeaderAtFrame(before, h, payload, after);
  }
}
