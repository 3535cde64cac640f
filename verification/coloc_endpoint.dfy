/** ColocEndpoint: the endpoint of the colocated transport. Its defaults
    depend on the protocol; connecting looks up the acceptor a colocated
    server registered for the endpoint; it can be neither marshaled nor
    unmarshaled.

    The base Endpoint.Equals and ParseHostAndPort live outside this class
    and are parameters. */
module ColocEndpoints {
  import opened Errors

  type ushort = x: int | 0 <= x < 0x1_0000

  const DefaultColocPort: ushort := 4062

  datatype Transport = Coloc | OtherTransport(name: string)

  /** The concrete class of an endpoint object. */
  datatype EndpointClass = ColocClass | OtherClass(name: string)

  datatype EndpointData = EndpointData(transport: Transport, host: string, port: ushort, options: seq<string>)

  datatype Endpoint = Endpoint(cls: EndpointClass, data: EndpointData, protocol: Protocol)

  /** The ColocEndpoint constructor. */
  function NewColoc(host: string, port: ushort, protocol: Protocol): (r: Endpoint)
    ensures r.cls.ColocClass? && r.data.transport == Coloc && r.data.options == []
    ensures r.data.host == host && r.data.port == port && r.protocol == protocol
  {
    Endpoint(ColocClass, EndpointData(Coloc, host, port, []), protocol)
  }

  /** A colocated endpoint never leaves the process, so it is secure
      whatever its protocol. */
  function IsAlwaysSecure(e: Endpoint): (r: bool)
    ensures r
  {
    true
  }

  /** Ice1 colocated endpoints accept options, others do not: exactly the
      endpoints whose default port is 0. */
  function HasOptions(e: Endpoint): (r: bool)
    ensures r <==> DefaultPort(e) == 0
  {
    e.protocol == Ice1
  }

  /** 0 with Ice1, as for IP endpoints; 4062 otherwise. */
  function DefaultPort(e: Endpoint): (port: ushort)
    ensures e.protocol == Ice1 <==> port == 0
    ensures e.protocol != Ice1 <==> port == DefaultColocPort
  {
    if e.protocol == Ice1 then 0 else DefaultColocPort
  }

  /** Equals: the other endpoint must also be a ColocEndpoint, and equal as
      an Endpoint. */
  function Equals(e: Endpoint, other: Option<Endpoint>, baseEquals: (Endpoint, Endpoint) -> bool): (r: bool)
    ensures r <==> other.Some? && other.value.cls == ColocClass && baseEquals(e, other.value)
  {
    match other
    case None => false
    case Some(o) => o.cls == ColocClass && baseEquals(e, o)
  }

  /** What connecting hands back: a client connection bound to the acceptor
      registered for the endpoint. */
  datatype ClientConnection = ClientConnection(endpoint: Endpoint, acceptor: nat)

  /** ConnectAsync: ColocAcceptor.TryGetValue, or ConnectionRefused. */
  function ConnectAsync(e: Endpoint, acceptors: map<Endpoint, nat>): (r: Result<ClientConnection>)
    ensures r.Ok? <==> e in acceptors
    ensures r.Ok? ==> r.value == ClientConnection(e, acceptors[e])
    ensures r.Err? ==> r.error == ConnectionRefused
  {
    if e in acceptors then Ok(ClientConnection(e, acceptors[e])) else Err(ConnectionRefused)
  }

  const ReceivedPrefix := "received "
  const ReceivedSuffix := " endpoint for coloc transport"

  /** The unmarshaling constructor: a colocated endpoint is never received;
      the error names the protocol it was received with. */
  function CreateEndpoint(data: EndpointData, protocol: Protocol): (r: Result<Endpoint>)
    ensures r.Err? && r.error.InvalidData?
    ensures var m := r.error.message;
            |m| == |ReceivedPrefix| + |protocol.name| + |ReceivedSuffix| &&
            m[|ReceivedPrefix|..|m| - |ReceivedSuffix|] == protocol.name
  {
    Err(InvalidData(ReceivedPrefix + protocol.name + ReceivedSuffix))
  }

  /** The protocol named by CreateEndpoint's message. */
  function ProtocolNamed(message: string): (name: string)
    requires |message| >= |ReceivedPrefix| + |ReceivedSuffix|
  {
    message[|ReceivedPrefix|..|message| - |ReceivedSuffix|]
  }

  const NotMarshalable := "colocated endpoint can't be marshaled"

  /** WriteOptions11: a colocated endpoint is never marshaled. */
  function WriteOptions11(e: Endpoint): (r: Result<seq<int>>)
    ensures r.Err? && r.error.NotSupported?
  {
    Err(NotSupported(NotMarshalable))
  }

  const DefaultInvalidOperationMessage := "Operation is not valid due to the current state of the object."

  /** CreateDatagramServerConnection: there are no colocated datagrams. */
  function CreateDatagramServerConnection(e: Endpoint): (r: Result<ClientConnection>)
    ensures r.Err? && r.error.InvalidOperation?
  {
    Err(InvalidOperation(DefaultInvalidOperationMessage))
  }

  /** ParseIce1Endpoint: host and port come from ParseHostAndPort, which may
      reject the string. */
  function ParseIce1Endpoint(options: map<string, Option<string>>, endpointString: string,
                             parseHostAndPort: (map<string, Option<string>>, string) -> Result<(string, ushort)>)
    : (r: Result<Endpoint>)
    ensures parseHostAndPort(options, endpointString).Err? <==> r.Err?
    ensures r.Ok? ==> && r.value.protocol == Ice1 && r.value.cls == ColocClass && r.value.data.transport == Coloc
                      && (r.value.data.host, r.value.data.port) == parseHostAndPort(options, endpointString).value
  {
    var (host, port) :- parseHostAndPort(options, endpointString);
    Ok(NewColoc(host, port, Ice1))
  }

  /** ParseIce2Endpoint: host and port are already parsed; options are
      ignored. */
  function ParseIce2Endpoint(host: string, port: ushort, options: map<string, string>): (e: Endpoint)
    ensures e.protocol == Ice2 && e.cls == ColocClass && e.data.transport == Coloc
    ensures e.data.host == host && e.data.port == port && e.data.options == []
  {
    NewColoc(host, port, Ice2)
  }

  // ---------------------------------------------------------------------
  // Properties
  // ---------------------------------------------------------------------

  /** The protocol decides the defaults: an Ice1 endpoint has options and
      default port 0, an Ice2 endpoint has no options and port 4062. */
  lemma ParsedDefaults(options: map<string, Option<string>>, endpointString: string,
                       parseHostAndPort: (map<string, Option<string>>, string) -> Result<(string, ushort)>,
                       host: string, port: ushort)
    requires parseHostAndPort(options, endpointString).Ok?
    ensures var e1 := ParseIce1Endpoint(options, endpointString, parseHostAndPort).value;
            HasOptions(e1) && DefaultPort(e1) == 0
    ensures var e2 := ParseIce2Endpoint(host, port, map[]);
            !HasOptions(e2) && DefaultPort(e2) == DefaultColocPort
  {
  }

  /** A colocated endpoint is never equal to an endpoint of another class,
      whatever the base comparison says. */
  lemma NeverEqualToOtherClass(e: Endpoint, other: Endpoint, baseEquals: (Endpoint, Endpoint) -> bool)
    requires other.cls != ColocClass
    ensures !Equals(e, Some(other), baseEquals)
  {
  }

  /** Restricted to colocated endpoints, Equals is an equivalence whenever
      the base comparison is one. */
  lemma EqualsIsEquivalence(a: Endpoint, b: Endpoint, c: Endpoint, baseEquals: (Endpoint, Endpoint) -> bool)
    requires a.cls == ColocClass && b.cls == ColocClass && c.cls == ColocClass
    requires forall x: Endpoint :: baseEquals(x, x)
    requires forall x: Endpoint, y: Endpoint :: baseEquals(x, y) == baseEquals(y, x)
    requires forall x: Endpoint, y: Endpoint, z: Endpoint :: baseEquals(x, y) && baseEquals(y, z) ==> baseEquals(x, z)
    ensures Equals(a, Some(a), baseEquals)
    ensures Equals(a, Some(b), baseEquals) == Equals(b, Some(a), baseEquals)
    ensures Equals(a, Some(b), baseEquals) && Equals(b, Some(c), baseEquals) ==> Equals(a, Some(c), baseEquals)
  {
  }

  /** The operations a colocated endpoint does not support fail whatever
      they are given: the failure depends on nothing but the protocol a
      received endpoint claims, and that protocol can be read back from the
      message, so endpoints received with different protocols are reported
      differently. */
  lemma UnsupportedOperationsIgnoreInput(d1: EndpointData, d2: EndpointData, p: Protocol, q: Protocol,
                                         e1: Endpoint, e2: Endpoint)
    ensures CreateEndpoint(d1, p) == CreateEndpoint(d2, p)
    ensures ProtocolNamed(CreateEndpoint(d1, p).error.message) == p.name
    ensures p != q ==> CreateEndpoint(d1, p) != CreateEndpoint(d2, q)
    ensures WriteOptions11(e1) == WriteOptions11(e2)
    ensures CreateDatagramServerConnection(e1) == CreateDatagramServerConnection(e2)
  {
    if p != q {
      assert ProtocolNamed(CreateEndpoint(d1, q).error.message) == q.name;
    }
  }

  /** Registering an acceptor is what makes connecting succeed: after
      adding one for e, ConnectAsync reaches it, and connecting to any
      other endpoint is unaffected. */
  lemma ConnectFindsRegisteredAcceptor(e: Endpoint, other: Endpoint, acceptors: map<Endpoint, nat>, id: nat)
    requires other != e
    ensures ConnectAsync(e, acceptors[e := id]) == Ok(ClientConnection(e, id))
    ensures ConnectAsync(other, acceptors[e := id]) == ConnectAsync(other, acceptors)
  {
  }
}
