/**
 * RpcConsumer and RpcConsumerFactory: one consumer per provider endpoint, kept
 * in a map keyed by "host:port", and each consumer's reconnect counter.
 */
module Consumer {
  import opened Wrappers
  import opened Bytes
  import opened Protocol
  import opened Service
  import opened Reconnect

  // ---------------------------------------------------------------------------
  // The endpoint key

  function DigitChar(d: nat): (c: char)
    requires d < 10
    ensures '0' <= c <= '9' && c as int - '0' as int == d
  {
    ('0' as int + d) as char
  }

  ghost predicate AllDigits(s: string)
  {
    forall i :: 0 <= i < |s| ==> '0' <= s[i] <= '9'
  }

  /** The decimal digits of n, most significant first, without leading zeros. */
  function Digits(n: nat): (s: string)
    ensures |s| >= 1 && AllDigits(s)
  {
    if n < 10 then [DigitChar(n)] else Digits(n / 10) + [DigitChar(n % 10)]
  }

  /** The value of a run of decimal digits. */
  function DigitsValue(s: string): nat
    requires AllDigits(s)
  {
    if s == [] then 0 else DigitsValue(s[..|s| - 1]) * 10 + (s[|s| - 1] as int - '0' as int)
  }

  lemma {:induction false} DigitsValueOfDigits(n: nat)
    ensures DigitsValue(Digits(n)) == n
  {
    if n >= 10 {
      var s := Digits(n);
      assert s[..|s| - 1] == Digits(n / 10);
      DigitsValueOfDigits(n / 10);
    }
  }

  /**
   * Java's rendering of an int in a string concatenation: a '-' for a negative
   * value, then the decimal digits of its magnitude.
   */
  function DecimalString(n: int): (s: string)
    ensures |s| >= 1 && ':' !in s
    ensures s[0] == '-' <==> n < 0
    ensures n >= 0 ==> AllDigits(s) && DigitsValue(s) == n
    ensures n < 0 ==> AllDigits(s[1..]) && DigitsValue(s[1..]) == -n
  {
    if n < 0 then
      DigitsValueOfDigits(-n);
      assert ("-" + Digits(-n))[1..] == Digits(-n);
      "-" + Digits(-n)
    else
      DigitsValueOfDigits(n);
      Digits(n)
  }

  /** Different ints render differently. */
  lemma DecimalStringInjective(a: int, b: int)
    requires DecimalString(a) == DecimalString(b)
    ensures a == b
  {
    var s := DecimalString(a);
    if a < 0 {
      assert DigitsValue(s[1..]) == -a == -b;
    }
  }

  /** The key of an endpoint in the factory's map: address, ':', port. */
  function EndpointKey(addr: string, port: int): (key: string)
    ensures |key| == |addr| + 1 + |DecimalString(port)|
    ensures key[..|addr|] == addr && key[|addr|] == ':' && key[|addr| + 1..] == DecimalString(port)
  {
    addr + ":" + DecimalString(port)
  }

  /** In an endpoint key, the ':' after the address is the last one. */
  lemma LastColon(addr: string, port: int)
    ensures var key := EndpointKey(addr, port);
      key[|addr|] == ':' && forall j :: |addr| < j < |key| ==> key[j] != ':'
  {
    var key := EndpointKey(addr, port);
    var d := DecimalString(port);
    forall j | |addr| < j < |key|
      ensures key[j] != ':'
    {
      assert key[j] == d[j - |addr| - 1];
    }
  }

  /**
   * Different endpoints have different keys, whatever the addresses contain:
   * the last ':' of a key is the one before the port.
   */
  lemma EndpointKeyInjective(addr1: string, port1: int, addr2: string, port2: int)
    requires EndpointKey(addr1, port1) == EndpointKey(addr2, port2)
    ensures addr1 == addr2 && port1 == port2
  {
    var key := EndpointKey(addr1, port1);
    LastColon(addr1, port1);
    LastColon(addr2, port2);
    assert |addr1| == |addr2|;
    assert addr1 == key[..|addr1|] == addr2;
    assert DecimalString(port1) == key[|addr1| + 1..] == DecimalString(port2);
    DecimalStringInjective(port1, port2);
  }

  /** The routing hash handed to discovery: the first parameter's hash, or the service key's. */
  function RoutingHash(params: seq<Param>, serviceKey: string, paramHash: Param -> int32, keyHash: string -> int32): (h: int32)
    ensures |params| > 0 ==> h == paramHash(params[0])
    ensures params == [] ==> h == keyHash(serviceKey)
  {
    if |params| > 0 then paramHash(params[0]) else keyHash(serviceKey)
  }

  /**
   * Only the first parameter takes part in routing: two calls whose first
   * parameters are equal get the same hash whatever follows, and a call
   * without parameters gets the same hash as every other call of that service.
   */
  lemma RoutingDependsOnFirstParamOnly(params1: seq<Param>, params2: seq<Param>, serviceKey: string,
                                       paramHash: Param -> int32, keyHash: string -> int32)
    requires (params1 == [] && params2 == []) || (params1 != [] && params2 != [] && params1[0] == params2[0])
    ensures RoutingHash(params1, serviceKey, paramHash, keyHash) == RoutingHash(params2, serviceKey, paramHash, keyHash)
  {
  }

  // ---------------------------------------------------------------------------
  // RpcConsumer

  class RpcConsumer {
    const host: string
    const port: int32
    var reconnectTimes: int
    /** connect() calls whose future the listener has not seen complete yet. */
    var pendingConnects: nat
    /** Retry tasks scheduled on the event loop that have not run yet. */
    var pendingRetries: nat
    /** The channel was closed because the counter reached MAX_RECONNECT_TIMES. */
    var closed: bool
    /** The listener outcomes and retry tasks seen so far, and everything they set off. */
    ghost var events: seq<Event>
    ghost var actions: seq<Action>

    /** The counter, and what was set off, are those of the reconnect policy run over the events seen. */
    ghost predicate Valid()
      reads this
    {
      Run(0, events) == Outcome(reconnectTimes, actions)
    }

    /** The key this consumer is removed under. */
    function Key(): string
    {
      EndpointKey(host, port)
    }

    /** Takes host and port from the service metadata and starts the first connect. */
    constructor (meta: ServiceMeta)
      ensures Valid()
      ensures host == meta.serviceAddr && port == meta.servicePort
      ensures reconnectTimes == 0 && events == [] && !closed
      ensures pendingConnects == 1 && pendingRetries == 0
    {
      host := meta.serviceAddr;
      port := meta.servicePort;
      reconnectTimes := 0;
      pendingConnects, pendingRetries, closed := 0, 0, false;
      events, actions := [], [];
      new;
      Connect();
    }

    /** connect(): starts one connection attempt, whose outcome the listener gets later. */
    method Connect()
      modifies this`pendingConnects
      ensures pendingConnects == old(pendingConnects) + 1
    {
      pendingConnects := pendingConnects + 1;
    }

    /**
     * The connect future's listener: a success resets the counter; a failure
     * increments it and schedules a retry RETRY_TIME seconds later.
     */
    method OnConnectComplete(success: bool)
      requires Valid() && pendingConnects > 0
      modifies this
      ensures Valid()
      ensures var e := if success then ConnectSucceeded else ConnectFailed;
        && events == old(events) + [e]
        && actions == old(actions) + Step(old(reconnectTimes), e).actions
      ensures reconnectTimes == if success then 0 else old(reconnectTimes) + 1
      ensures pendingConnects == old(pendingConnects) - 1
      ensures pendingRetries == old(pendingRetries) + (if success then 0 else 1)
      ensures closed == old(closed)
    {
      ghost var e := if success then ConnectSucceeded else ConnectFailed;
      RunAppend(0, events, e);
      pendingConnects := pendingConnects - 1;
      if success {
        reconnectTimes := 0;
      } else {
        reconnectTimes := reconnectTimes + 1;
        pendingRetries := pendingRetries + 1;
      }
      actions := actions + Step(old(reconnectTimes), e).actions;
      events := events + [e];
    }

    /**
     * The retry task: when the counter equals MAX_RECONNECT_TIMES it closes the
     * channel and removes this consumer from the factory; then it calls
     * connect() again in every case.
     */
    method OnRetryDue(factory: RpcConsumerFactory)
      requires Valid() && pendingRetries > 0 && factory.Valid()
      modifies this, factory
      ensures Valid() && factory.Valid()
      ensures events == old(events) + [RetryDue]
      ensures actions == old(actions) + Step(reconnectTimes, RetryDue).actions
      ensures reconnectTimes == old(reconnectTimes)
      ensures pendingRetries == old(pendingRetries) - 1
      ensures pendingConnects == old(pendingConnects) + 1
      ensures closed == (old(closed) || reconnectTimes == MAX_RECONNECT_TIMES)
      ensures factory.consumers ==
        if reconnectTimes == MAX_RECONNECT_TIMES then old(factory.consumers) - {Key()} else old(factory.consumers)
    {
      RunAppend(0, events, RetryDue);
      pendingRetries := pendingRetries - 1;
      if reconnectTimes == MAX_RECONNECT_TIMES {
        closed := true;
        factory.Remove(this);
      }
      Connect();
      actions := actions + Step(reconnectTimes, RetryDue).actions;
      events := events + [RetryDue];
    }
  }

  // ---------------------------------------------------------------------------
  // RpcConsumerFactory

  /** What getInstance throws. */
  datatype LookupError =
    | DiscoveryFailed(cause: RegistryError)      // discovery found no instance
    | FirstConnectFailed(orphan: RpcConsumer)    // the constructor's connect() rethrew; the consumer was never stored

  /** A consumer just built for `meta`: its endpoint, a fresh counter, and its first connect under way. */
  ghost predicate NewConsumerFor(c: RpcConsumer, meta: ServiceMeta)
    reads c
  {
    && c.Valid() && c.Key() == EndpointKey(meta.serviceAddr, meta.servicePort)
    && c.host == meta.serviceAddr && c.port == meta.servicePort
    && c.reconnectTimes == 0 && c.events == [] && c.pendingConnects == 1 && !c.closed
  }

  class RpcConsumerFactory {
    /** RPC_CONSUMER_MAP */
    var consumers: map<string, RpcConsumer>

    /** Each consumer is stored under its own endpoint key. */
    ghost predicate Valid()
      reads this
    {
      forall key :: key in consumers ==> consumers[key].Key() == key
    }

    constructor ()
      ensures Valid() && consumers == map[]
    {
      consumers := map[];
    }

    /**
     * getInstance: build the service key, pick the routing hash, ask discovery
     * for an endpoint, and return the consumer mapped to that endpoint's key,
     * creating and inserting one if there is none. An exception from discovery
     * reaches the caller and leaves the map alone. A new consumer's constructor
     * waits for its first connect; when that fails, the constructor throws
     * before the consumer is stored, and the consumer is left behind with its
     * connect listener still to run.
     */
    method GetInstance(request: RpcRequest, discovery: (string, int32) -> Result<ServiceMeta, RegistryError>,
                       paramHash: Param -> int32, keyHash: string -> int32, firstConnectSucceeds: bool)
      returns (r: Result<RpcConsumer, LookupError>)
      requires Valid()
      modifies this
      ensures Valid()
      ensures var serviceKey := BuildServiceKey(request.className, request.serviceVersion);
        match discovery(serviceKey, RoutingHash(request.params, serviceKey, paramHash, keyHash))
        case Failure(e) => r == Failure(DiscoveryFailed(e)) && consumers == old(consumers)
        case Success(meta) =>
          var key := EndpointKey(meta.serviceAddr, meta.servicePort);
          if key in old(consumers) then
            r == Success(old(consumers)[key]) && consumers == old(consumers)
          else if firstConnectSucceeds then
            && r.Success? && fresh(r.value) && NewConsumerFor(r.value, meta)
            && consumers == old(consumers)[key := r.value]
          else
            && r.Failure? && r.error.FirstConnectFailed? && fresh(r.error.orphan)
            && NewConsumerFor(r.error.orphan, meta)
            && consumers == old(consumers)
      ensures r.Success? ==> r.value in consumers.Values
    {
      var params := request.params;
      var serviceKey := BuildServiceKey(request.className, request.serviceVersion);
      var invokerHashCode := if |params| > 0 then paramHash(params[0]) else keyHash(serviceKey);
      var found := discovery(serviceKey, invokerHashCode);
      if found.Failure? {
        return Failure(DiscoveryFailed(found.error));
      }
      var serviceMetadata := found.value;
      var key := EndpointKey(serviceMetadata.serviceAddr, serviceMetadata.servicePort);
      if key in consumers {
        assert consumers[key] in consumers.Values;
        return Success(consumers[key]);
      } else {
        var rpcConsumer := new RpcConsumer(serviceMetadata);
        if !firstConnectSucceeds {
          return Failure(FirstConnectFailed(rpcConsumer));
        }
        consumers := consumers[key := rpcConsumer];
        assert consumers[key] == rpcConsumer;
        return Success(rpcConsumer);
      }
    }

    /**
     * remove: deletes the entry under the consumer's host:port key, whichever
     * consumer it maps to; the other keys keep their consumers.
     */
    method Remove(c: RpcConsumer)
      requires Valid()
      modifies this
      ensures Valid()
      ensures consumers == old(consumers) - {c.Key()}
      ensures c !in consumers.Values
    {
      consumers := consumers - {c.host + ":" + DecimalString(c.port)};
    }

    /**
     * In sequential use, once a lookup has returned a consumer, a second lookup
     * of the same request against the same discovery returns that consumer and
     * changes nothing, whatever a new connect would do; a discovery failure
     * repeats as well.
     */
    method GetInstanceTwice(request: RpcRequest, discovery: (string, int32) -> Result<ServiceMeta, RegistryError>,
                            paramHash: Param -> int32, keyHash: string -> int32, firstConnect1: bool, firstConnect2: bool)
      returns (first: Result<RpcConsumer, LookupError>, second: Result<RpcConsumer, LookupError>)
      requires Valid()
      modifies this
      ensures Valid()
      ensures first.Success? ==> second == first && first.value in consumers.Values
      ensures first.Failure? && first.error.DiscoveryFailed? ==> second == first
    {
      first := GetInstance(request, discovery, paramHash, keyHash, firstConnect1);
      ghost var between := consumers;
      second := GetInstance(request, discovery, paramHash, keyHash, firstConnect2);
      if first.Success? {
        assert consumers == between;
      }
    }
  }
}
