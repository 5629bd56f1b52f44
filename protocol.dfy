/**
 * The mini-rpc wire protocol's values: the message header, the message types,
 * the bodies a frame carries, the protocol constants and the channel frames are
 * written to.
 */
module Protocol {
  import opened Wrappers
  import opened Bytes

  /** The message types the protocol knows, with their wire codes. */
  datatype MsgType = REQUEST | RESPONSE | HEARTBEAT

  function TypeCode(t: MsgType): (code: int8)
  {
    match t
    case REQUEST => 0
    case RESPONSE => 1
    case HEARTBEAT => 2
  }

  /** MsgType.findByType: the type with the given code, or null. */
  function FindByType(code: int8): (t: Option<MsgType>)
    ensures t.Some? <==> 0 <= code <= 2
    ensures t.Some? ==> TypeCode(t.value) == code
  {
    if code == 0 then Some(REQUEST)
    else if code == 1 then Some(RESPONSE)
    else if code == 2 then Some(HEARTBEAT)
    else None
  }

  /** Every type is found again from its own code. */
  lemma FindByTypeOfTypeCode(t: MsgType)
    ensures FindByType(TypeCode(t)) == Some(t)
  {
  }

  /** The protocol constants the core relies on; their values live outside it. */
  datatype Constants = Constants(
    magic: int16,     // ProtocolConstants.MAGIC
    version: int8,    // ProtocolConstants.VERSION
    hessian: int8,    // SerializationTypeEnum.HESSIAN.getType()
    ping: string,     // ProtocolConstants.PING
    pong: string)     // ProtocolConstants.PONG

  /** MsgHeader: the fixed header of a frame. */
  datatype MsgHeader = MsgHeader(
    magic: int16,
    version: int8,
    serialization: int8,
    msgType: int8,
    status: int8,
    requestId: int64,
    msgLen: int32)

  /** A call parameter and a response object, as the serializer produces them. */
  type Param(==)
  type RpcResponse(==)

  /** MiniRpcRequest: what a REQUEST frame carries. */
  datatype RpcRequest = RpcRequest(className: string, serviceVersion: string, params: seq<Param>)

  datatype Body = RequestBody(request: RpcRequest) | ResponseBody(response: RpcResponse) | TextBody(text: string)

  /** MiniRpcProtocol: a header with its body. */
  datatype Message = Message(header: MsgHeader, body: Body)

  /**
   * One RpcSerialization: deserialize(data, class) for the three classes the
   * decoder asks for. None stands for a null result.
   */
  datatype Serialization = Serialization(
    request: seq<uint8> -> Option<RpcRequest>,
    response: seq<uint8> -> Option<RpcResponse>,
    text: seq<uint8> -> Option<string>)

  /** The outbound side of a Netty channel: the messages written and flushed on it, in order. */
  class Channel {
    var outbound: seq<Message>

    constructor ()
      ensures outbound == []
    {
      outbound := [];
    }

    method WriteAndFlush(m: Message)
      modifies this
      ensures outbound == old(outbound) + [m]
    {
      outbound := outbound + [m];
    }
  }
}
