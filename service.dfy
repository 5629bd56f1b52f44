/** ServiceMeta and RpcServiceHelper: what a provider instance is, and how a service is named. */
module Service {
  import opened Wrappers
  import opened Bytes

  /** One provider instance of one service version, as discovery returns it. */
  datatype ServiceMeta = ServiceMeta(serviceName: string, serviceVersion: string, serviceAddr: string, servicePort: int32)

  /** The exception RegistryService.discovery throws when it finds no instance. */
  datatype RegistryError = RegistryError(message: string)

  /** RpcServiceHelper.SERVICE_JOIN */
  const SERVICE_JOIN: char := '@'

  /** RpcServiceHelper.buildServiceKey: name and version joined by the separator. */
  function BuildServiceKey(serviceName: string, serviceVersion: string): (key: string)
    ensures |key| == |serviceName| + 1 + |serviceVersion|
    ensures key[..|serviceName|] == serviceName
    ensures key[|serviceName|] == SERVICE_JOIN
    ensures key[|serviceName| + 1..] == serviceVersion
  {
    serviceName + [SERVICE_JOIN] + serviceVersion
  }

  /** The index of the first c in s, if there is one. */
  function IndexOf(s: string, c: char): (r: Option<nat>)
    ensures r.None? ==> c !in s
    ensures r.Some? ==> r.value < |s| && s[r.value] == c && c !in s[..r.value]
  {
    if s == [] then None
    else if s[0] == c then Some(0)
    else
      match IndexOf(s[1..], c)
      case None => None
      case Some(i) =>
        assert s[..i + 1] == [s[0]] + s[1..][..i];
        Some(i + 1)
  }

  /** Splits a service key at its first separator into name and version. */
  function SplitServiceKey(key: string): (r: Option<(string, string)>)
  {
    match IndexOf(key, SERVICE_JOIN)
    case None => None
    case Some(i) => Some((key[..i], key[i + 1..]))
  }

  /** For a name without the separator, the key splits back into exactly the name and the version. */
  lemma SplitBuildServiceKey(serviceName: string, serviceVersion: string)
    requires SERVICE_JOIN !in serviceName
    ensures SplitServiceKey(BuildServiceKey(serviceName, serviceVersion)) == Some((serviceName, serviceVersion))
  {
    var key := BuildServiceKey(serviceName, serviceVersion);
    assert key[..|serviceName| + 1] == serviceName + [SERVICE_JOIN];
  }

  /** Among names without the separator, different (name, version) pairs give different keys. */
  lemma ServiceKeyInjective(n1: string, v1: string, n2: string, v2: string)
    requires SERVICE_JOIN !in n1 && SERVICE_JOIN !in n2
    requires BuildServiceKey(n1, v1) == BuildServiceKey(n2, v2)
    ensures n1 == n2 && v1 == v2
  {
    SplitBuildServiceKey(n1, v1);
    SplitBuildServiceKey(n2, v2);
  }
}
