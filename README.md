# mini-rpc consumer core in Dafny

A model of the client side of mini-rpc, a small RPC framework on Netty, with
proofs about it. It covers:

- **The frame decoder** (`MiniRpcDecoder.decode`). A frame is an 18-byte header
  followed by its payload. The header holds a 2-byte magic, then version,
  serialization, message type and status at 1 byte each, an 8-byte request id
  and a 4-byte data length, all big-endian and signed. The decoder reads one
  frame per call from a Netty `ByteBuf` with a movable reader index and a mark.
  It dispatches on the message type:
  - REQUEST and RESPONSE bodies go to the output list;
  - a HEARTBEAT carrying PING is answered with PONG on the channel.

  Modules: `Bytes`, `Buffer`, `Protocol`, `Decoder`.
- **The reconnect policy** of `RpcConsumer`. A counter of failed connects since
  the last success drives it. Each failure schedules a retry 5 seconds later.
  When the counter equals 3, the retry closes the channel and removes the
  consumer from the factory. Every retry connects again.

  Module `Reconnect` is the pure state machine. Class `Consumer.RpcConsumer`
  holds the counter.
- **The consumer registry** (`RpcConsumerFactory`). It maps
  `serviceAddr + ":" + servicePort` to one consumer per endpoint. Lookups
  create consumers on demand, and a consumer can be removed by its own
  host and port. This is class `Consumer.RpcConsumerFactory`.
- **The heartbeat handler** (`HeartbeatHandler`). A writer-idle event sends a
  PING with a fresh id from a shared counter. A channel-inactive event calls
  `connect()` again. Every user event is passed on. The channel-inactive
  event is passed on only when that `connect()` returns normally: a failed
  connect is rethrown by `future.sync()` before the event is fired. Module
  `Heartbeat`.
- **The service key** `name + "@" + version` (`RpcServiceHelper`), and
  `ServiceMeta` as the datatype `Service.ServiceMeta`. Module `Service`.

Stateful parts are classes whose methods are proved against specification
functions. The decoder's `Decode` method is tied to `DecodeSpec`. The
consumer's counter is tied to `Reconnect.Run` through its `Valid()` invariant.
The handler is tied to `Written` and `IdStep`. The listed properties are then
lemmas about those functions.

Things whose definitions are not part of this model are parameters:

- the protocol constants (`MAGIC`, `VERSION`, `PING`, `PONG`, the Hessian tag),
  passed as `Protocol.Constants`;
- the serializers (`SerializationFactory`, `RpcSerialization`), passed as
  functions that return `None` where Java returns null;
- registry discovery;
- `hashCode`.

`MsgType.java` is not part of this model, so its codes REQUEST = 0,
RESPONSE = 1 and HEARTBEAT = 2 are an assumption.

On these points the model follows the code:

- A negative data length is not rejected. It passes the length check and
  fails at the array allocation. The model returns `NegativeArraySize` with
  the reader index after the header.
- Reaching the maximum number of reconnects does not stop the retry logic:
  `connect()` is still called after the removal. Whether those connects get
  anywhere once the removal has shut down the event-loop group is not modelled.
- A channel-inactive event calls `connect()` but does not count as a failure.

## Model

| member | source | states |
|---|---|---|
| Decoder.Decode | rpc-protocol/src/main/java/com/mini/rpc/codec/MiniRpcDecoder.java:33-106 | The new reader index, the messages added to `out`, the messages written to the channel and the exception thrown are exactly those `DecodeSpec` gives for the buffer contents and the old reader index. The mark is set to the old reader index once a header's worth of bytes is readable. |
| Decoder.ReadHeaderRest | rpc-protocol/src/main/java/com/mini/rpc/codec/MiniRpcDecoder.java:45-51 | After a magic read at offset 0, the following reads advance the reader index by 16 and yield the header whose fields sit at offsets 2, 3, 4, 5, 6-13 and 14-17. |
| Decoder.Dispatch | rpc-protocol/src/main/java/com/mini/rpc/codec/MiniRpcDecoder.java:59-105 | The switch on the message type returns and writes exactly what `Deliver` gives for the header and payload. |
| Decoder.DecodeSpec | rpc-protocol/src/main/java/com/mini/rpc/codec/MiniRpcDecoder.java:34-106 | The reader index never moves back and never passes the end of the data. At most one message is emitted or written per call. An exception emits and writes nothing. |
| Decoder.Deliver | rpc-protocol/src/main/java/com/mini/rpc/codec/MiniRpcDecoder.java:59-105 | A complete frame is consumed up to its end, whatever its type. With the serializers modelled as total functions it raises no exception; the exceptions they can throw are listed under Left out. |
| Decoder.ShortBufferIsLeftAlone | rpc-protocol/src/main/java/com/mini/rpc/codec/MiniRpcDecoder.java:35-37 | With fewer than 18 readable bytes, the reader index is unchanged and nothing is emitted, written or thrown. |
| Decoder.IllegalMagicThrows | rpc-protocol/src/main/java/com/mini/rpc/codec/MiniRpcDecoder.java:40-43 | If the first two bytes, read as a big-endian short, differ from MAGIC, decode throws `IllegalMagic` with that short. Nothing is emitted, and the reader index is left just after the magic. |
| Decoder.PartialFrameIsNotConsumed | rpc-protocol/src/main/java/com/mini/rpc/codec/MiniRpcDecoder.java:38-55 | If fewer than `dataLength` bytes follow the header, the reader index goes back to where the header started, and nothing is emitted or written. |
| Decoder.NegativeLengthThrows | rpc-protocol/src/main/java/com/mini/rpc/codec/MiniRpcDecoder.java:51-56 | A negative data length passes the length check. The array allocation then throws, after the 18 header bytes have been read. |
| Decoder.CompleteFrameIsConsumed | rpc-protocol/src/main/java/com/mini/rpc/codec/MiniRpcDecoder.java:56-57 | On a complete frame, the reader index advances by exactly 18 + dataLength, and the payload handed on is exactly the next dataLength bytes. |
| Decoder.DecodeOutcomes | rpc-protocol/src/main/java/com/mini/rpc/codec/MiniRpcDecoder.java:34-106 | Each call either leaves an incomplete frame untouched, throws, or consumes one complete frame, and these three cases are told apart by whether a complete frame is present. |
| Decoder.UnknownTypeIsDropped | rpc-protocol/src/main/java/com/mini/rpc/codec/MiniRpcDecoder.java:59-62 | A message type outside REQUEST, RESPONSE and HEARTBEAT consumes the whole frame but emits and writes nothing. |
| Decoder.RequestOrResponseIsEmitted | rpc-protocol/src/main/java/com/mini/rpc/codec/MiniRpcDecoder.java:64-92 | A REQUEST or RESPONSE is emitted exactly when its body deserializes to non-null. It is emitted once, under a header that copies every decoded field, with msgLen equal to dataLength. Nothing is written. |
| Decoder.HeartbeatIsAnswered | rpc-protocol/src/main/java/com/mini/rpc/codec/MiniRpcDecoder.java:93-104 | A HEARTBEAT is never emitted. A PING body gets exactly one PONG written back under the same header, so the request id is reused. Any other body gets nothing. |
| Decoder.CompleteFrameIsLaidOut | rpc-protocol/src/main/java/com/mini/rpc/codec/MiniRpcDecoder.java:24-57 | The bytes of every complete frame are exactly the layout of the header decoded from them followed by their payload, so the layout and the decoder are inverse in both directions. |
| Decoder.HeaderAtFrame | rpc-protocol/src/main/java/com/mini/rpc/codec/MiniRpcDecoder.java:24-51 | For bytes laid out as the header comment draws them, after any prefix, every header field is read back exactly, and so is the payload. |
| Decoder.DecodeLaidOutFrame | rpc-protocol/src/main/java/com/mini/rpc/codec/MiniRpcDecoder.java:24-57 | A well-formed frame with correct magic and length, between any bytes before and after, is decoded with exactly its own header and payload and consumed whole. |
| Buffer.ByteBuf.MarkReaderIndex | rpc-protocol/src/main/java/com/mini/rpc/codec/MiniRpcDecoder.java:38 | The mark becomes the current reader index. |
| Buffer.ByteBuf.ResetReaderIndex | rpc-protocol/src/main/java/com/mini/rpc/codec/MiniRpcDecoder.java:53 | The reader index returns to the mark. |
| Buffer.ByteBuf.ReadShort | rpc-protocol/src/main/java/com/mini/rpc/codec/MiniRpcDecoder.java:40 | Reads the next 2 bytes as a big-endian signed short and advances the reader index by 2. |
| Buffer.ByteBuf.ReadByte | rpc-protocol/src/main/java/com/mini/rpc/codec/MiniRpcDecoder.java:45-48 | Reads the next byte as a signed byte and advances the reader index by 1. |
| Buffer.ByteBuf.ReadLong | rpc-protocol/src/main/java/com/mini/rpc/codec/MiniRpcDecoder.java:49 | Reads the next 8 bytes as a big-endian signed long and advances the reader index by 8. |
| Buffer.ByteBuf.ReadInt | rpc-protocol/src/main/java/com/mini/rpc/codec/MiniRpcDecoder.java:51 | Reads the next 4 bytes as a big-endian signed int and advances the reader index by 4. |
| Buffer.ByteBuf.ReadBytes | rpc-protocol/src/main/java/com/mini/rpc/codec/MiniRpcDecoder.java:56-57 | Fills the fresh array with exactly the next `length` readable bytes and advances the reader index by that many. |
| Bytes.BeSignedRoundTrip | rpc-protocol/src/main/java/com/mini/rpc/codec/MiniRpcDecoder.java:40-51 | A signed value written big-endian in n bytes reads back as itself. |
| Bytes.BeSignedBytesRoundTrip | rpc-protocol/src/main/java/com/mini/rpc/codec/MiniRpcDecoder.java:40-51 | Any n bytes, read as a signed value and written back in n bytes, give the same bytes. |
| Bytes.SignedWidths | rpc-protocol/src/main/java/com/mini/rpc/codec/MiniRpcDecoder.java:40-51 | Reads of 1, 2, 4 and 8 bytes give values in the Java byte, short, int and long ranges. |
| Protocol.FindByType | rpc-protocol/src/main/java/com/mini/rpc/codec/MiniRpcDecoder.java:59-62 | A message type code is known exactly when it is 0, 1 or 2, and the type found has that code. |
| Protocol.FindByTypeOfTypeCode | rpc-protocol/src/main/java/com/mini/rpc/codec/MiniRpcDecoder.java:59 | Looking up a type's own code finds that type. |
| Protocol.Channel.WriteAndFlush | rpc-protocol/src/main/java/com/mini/rpc/codec/MiniRpcDecoder.java:102 | Appends the message to the channel's outbound messages. |
| Service.BuildServiceKey | rpc-core/src/main/java/com/mini/rpc/common/RpcServiceHelper.java:5-7 | The key has length \|name\| + 1 + \|version\|. The name is a prefix of it, '@' follows the name, and the version is the suffix. |
| Service.SplitBuildServiceKey | rpc-core/src/main/java/com/mini/rpc/common/RpcServiceHelper.java:5-7 | For a name without '@', splitting the key at its first '@' gives back exactly the name and the version. |
| Service.ServiceKeyInjective | rpc-core/src/main/java/com/mini/rpc/common/RpcServiceHelper.java:5-7 | For names without '@', different (name, version) pairs give different keys. |
| Reconnect.Step | rpc-consumer/src/main/java/com/mini/rpc/consumer/RpcConsumer.java:65-85 | A success resets the counter to 0. A failure adds one and schedules one retry after RETRY_TIME = 5 seconds. A due retry closes and removes exactly when the counter equals MAX_RECONNECT_TIMES = 3, and always ends by connecting again. |
| Reconnect.CounterCountsFailures | rpc-consumer/src/main/java/com/mini/rpc/consumer/RpcConsumer.java:66-70 | After any run of events, the counter equals the number of failures since the last success, plus the starting value if there was no success. |
| Reconnect.AtMostOneRemovalPerFailureRun | rpc-consumer/src/main/java/com/mini/rpc/consumer/RpcConsumer.java:74-81 | Because the test is `==` and only a success resets the counter, a run of failures and their retries with no success closes and removes the consumer at most once. |
| Reconnect.FailThenRetry | rpc-consumer/src/main/java/com/mini/rpc/consumer/RpcConsumer.java:69-85 | A failure followed by its retry raises the counter by one and adds: one scheduled retry; a close and remove if the counter now equals 3; and one new connect. |
| Reconnect.PersistentFailure | rpc-consumer/src/main/java/com/mini/rpc/consumer/RpcConsumer.java:72-85 | Against an endpoint that never accepts, n failed attempts leave the counter at n and schedule n retries. They call `connect()` n more times, including after the removal, since the retry logic has no stop of its own; whether those connects get anywhere once the event-loop group is shut down is not modelled. They close and remove once if n reaches 3, and otherwise not at all. |
| Consumer.RpcConsumer.constructor | rpc-consumer/src/main/java/com/mini/rpc/consumer/RpcConsumer.java:40-58 | A new consumer takes host and port from the ServiceMeta, starts with reconnectTimes = 0, and starts one connect. |
| Consumer.RpcConsumer.Connect | rpc-consumer/src/main/java/com/mini/rpc/consumer/RpcConsumer.java:61-64 | Starts exactly one more connection attempt. |
| Consumer.RpcConsumer.OnConnectComplete | rpc-consumer/src/main/java/com/mini/rpc/consumer/RpcConsumer.java:65-72 | A success sets reconnectTimes to 0. A failure adds exactly one and schedules exactly one retry. The counter stays equal to the policy `Run` over every event seen. |
| Consumer.RpcConsumer.OnRetryDue | rpc-consumer/src/main/java/com/mini/rpc/consumer/RpcConsumer.java:72-85 | If reconnectTimes equals 3, the retry closes the channel and removes exactly this consumer's key from the factory, and changes nothing otherwise. In every case it then calls `connect()`. The factory's invariant is kept. |
| Consumer.DecimalStringInjective | rpc-consumer/src/main/java/com/mini/rpc/consumer/RpcConsumerFactory.java:23 | Different ports render as different decimal text. |
| Consumer.DigitsValueOfDigits | rpc-consumer/src/main/java/com/mini/rpc/consumer/RpcConsumerFactory.java:23 | Reading back the decimal digits of a number gives the number. |
| Consumer.DecimalString | rpc-consumer/src/main/java/com/mini/rpc/consumer/RpcConsumerFactory.java:23 | Java's rendering of an int: a '-' exactly for negative values, then decimal digits whose value is the magnitude; it never contains ':'. |
| Consumer.EndpointKey | rpc-consumer/src/main/java/com/mini/rpc/consumer/RpcConsumerFactory.java:23 | The key is the address, then ':', then the port's decimal text, and nothing else. |
| Consumer.RoutingHash | rpc-consumer/src/main/java/com/mini/rpc/consumer/RpcConsumerFactory.java:21 | The hash is the first parameter's hash when there are parameters, and the service key's hash otherwise. |
| Consumer.RoutingDependsOnFirstParamOnly | rpc-consumer/src/main/java/com/mini/rpc/consumer/RpcConsumerFactory.java:21 | Calls whose first parameters are equal, or which both have none, are routed with the same hash whatever else they carry. |
| Consumer.EndpointKeyInjective | rpc-consumer/src/main/java/com/mini/rpc/consumer/RpcConsumerFactory.java:23 | Different (address, port) pairs give different `addr:port` keys, even when addresses contain ':'. |
| Consumer.RpcConsumerFactory.constructor | rpc-consumer/src/main/java/com/mini/rpc/consumer/RpcConsumerFactory.java:14 | The map starts empty. |
| Consumer.RpcConsumerFactory.GetInstance | rpc-consumer/src/main/java/com/mini/rpc/consumer/RpcConsumerFactory.java:16-31 | The routing hash is the first parameter's hash, or the service key's if there are no parameters. A discovery failure is passed on and leaves the map unchanged. A key already present returns its consumer and leaves the map unchanged. An absent key gets a fresh consumer for that endpoint, with a zero counter and its first connect under way. If that first connect succeeds, the consumer is inserted as the only new entry and returned. If it fails, the constructor's rethrow reaches the caller, the map is unchanged, and the unstored consumer is reported. Every consumer stays stored under its own key. |
| Consumer.RpcConsumerFactory.Remove | rpc-consumer/src/main/java/com/mini/rpc/consumer/RpcConsumerFactory.java:33-36 | Deletes the entry under the consumer's `host:port` key, whichever consumer it maps to. All other keys are unchanged, an absent key is a no-op, and the consumer is no longer in the map. |
| Consumer.RpcConsumerFactory.GetInstanceTwice | rpc-consumer/src/main/java/com/mini/rpc/consumer/RpcConsumerFactory.java:24-29 | In sequential use, once a lookup has returned a consumer, a second lookup of the same request returns that same consumer, which is the one stored in the map. A discovery failure repeats. |
| Heartbeat.NextId | rpc-consumer/src/main/java/com/mini/rpc/consumer/handler/HeartbeatHandler.java:75 | The next id is the previous one plus one, except that Long.MAX_VALUE wraps round to Long.MIN_VALUE. |
| Heartbeat.RequestIdGen.IncrementAndGet | rpc-consumer/src/main/java/com/mini/rpc/consumer/handler/HeartbeatHandler.java:75 | Advances the counter to the next id and returns it. |
| Heartbeat.HeartbeatHandler.ChannelInactive | rpc-consumer/src/main/java/com/mini/rpc/consumer/handler/HeartbeatHandler.java:50-58 | Starts exactly one `connect()` on the owning consumer and touches nothing else of it. It passes the channel-inactive event on exactly when that connect succeeds; a failed connect is rethrown (RpcConsumer.java:60, :92) before the event is fired. |
| Heartbeat.PingHeader | rpc-consumer/src/main/java/com/mini/rpc/consumer/handler/HeartbeatHandler.java:74-81 | The PING header has the protocol's magic and version, Hessian serialization, a type code the decoder reads as HEARTBEAT, status 1 and the given request id; msgLen keeps its default of 0. |
| Heartbeat.HeartbeatHandler.UserEventTriggered | rpc-consumer/src/main/java/com/mini/rpc/consumer/handler/HeartbeatHandler.java:67-88 | A WRITER_IDLE event draws one id and writes exactly one PING frame. Its header has magic MAGIC, version VERSION, serialization HESSIAN, type HEARTBEAT, status 1 and that id. Other idle states and other events write nothing and draw no id. Every event is passed on. |
| Heartbeat.PingsPerWriterIdle | rpc-consumer/src/main/java/com/mini/rpc/consumer/handler/HeartbeatHandler.java:67-88 | Below Long.MAX_VALUE, a run of events writes one PING per WRITER_IDLE event and nothing else. The ids are start + 1, start + 2, … in order, so they strictly increase and are pairwise distinct. |
| Heartbeat.PingIsAnsweredWithPong | rpc-consumer/src/main/java/com/mini/rpc/consumer/handler/HeartbeatHandler.java:73-84 | The PING the handler builds, laid out on the wire with its serialized body, is decoded at the peer into exactly one PONG written back. The PONG has the same header, request id included; nothing is emitted upward, and the frame is consumed whole. |

## Left out

- Netty's cumulation loop (`ByteToMessageDecoder` calling `decode` again while bytes remain) is not part of this model. `Decoder.Decode` models one call.
- Serialization, `SerializationFactory`, `MsgType`, `ProtocolConstants`, `MsgHeader`'s defaults, the encoder and `RpcResponseHandler` are not part of this model. They appear as parameters, abstract types or values.
- Logging and `printStackTrace` are left out because they do not affect state.
- `channelActive` only logs, so it is left out.
- Netty mechanics are not modelled:
  - `Bootstrap`, the event loop group and the pipeline initializer;
  - `ChannelFuture.sync()` itself (only its outcome is modelled: for the constructor's connect as a parameter of `GetInstance`, for the reconnect as a parameter of `HeartbeatHandler.ChannelInactive`);
  - `eventLoopGroup.shutdownGracefully()`;
  - the `HeartbeatHandler` that each `connect()` adds to the pipeline.

  Connect outcomes and retry timers are events the caller drives: `OnConnectComplete` and `OnRetryDue`.
- Consumer.RpcConsumer.OnRetryDue: the removal happens inside the close listener, after the channel has closed. The model removes at once, in the same step as the close.
- Consumer.RpcConsumer.OnConnectComplete: `reconnectTimes` is a Java `int`. The model's counter is unbounded, so the wrap-around after 2^31 consecutive failures is not modelled.
- Consumer.RpcConsumerFactory.GetInstance: the map is a `ConcurrentHashMap` whose `containsKey`/`put` pair is not atomic. The model is sequential, so the race that can create two consumers for one endpoint is not captured.
- Consumer.RpcConsumerFactory.GetInstance: when the first connect fails, the unstored consumer's connect listener still runs and keeps retrying. At its third failure it calls `remove`, which deletes whatever consumer is then stored under the same `host:port` key. The model returns that consumer in the error but does not follow its later events.
- Consumer.RpcConsumer.OnRetryDue: the close listener also calls `eventLoopGroup.shutdownGracefully()`. That group runs both the retry timer and the connects, and a shut-down group cancels its scheduled tasks and closes its channels. The model keeps accepting connect outcomes and retries after the removal.
- Decoder.Deliver: `SerializationFactory.getRpcSerialization` and `deserialize` can throw. In the source the frame has then been consumed and the exception reaches the caller. The serializers are total functions here, so these exceptions are not modelled.
- Consumer.RpcConsumerFactory.GetInstance: a null first parameter would throw `NullPointerException` at `hashCode()`. Parameters are abstract values without null, so this is not modelled.
- `hashCode()` values are abstract functions `paramHash` and `keyHash`, because their values come from classes outside the core.
- Registry discovery (Nacos) is an abstract function returning a `ServiceMeta` or a `RegistryError`. In the Nacos implementation, keys are split on '#' while `buildServiceKey` joins with '@'. That backend is not part of this model.
- `sendRequest` is only a socket write and is left out.
- `WebSocketServer` is unrelated to the RPC path and is left out.
- Heartbeat.RequestIdGen.IncrementAndGet: the generator is an `AtomicLong` shared between threads. Its calls are modelled one at a time, and its starting value, which lives in a class outside the core, is a constructor parameter.
- Heartbeat.PingIsAnsweredWithPong: the handler leaves msgLen at its default of 0. The encoder, which is not part of this model, writes the body's real length. The lemma lays the frame out with that length.
