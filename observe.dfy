/** The connection tracker of src/observe.rs: what the observer does with a packet once
    the link, network and transport parsers have run. The parsers' results are inputs
    (an `Option` wherever a parser can fail), the clock is the `now` parameter, and the
    observer's last-value table `states` is a `map` field updated in place. */
module Observe {
  import opened Wrappers
  import opened Domain

  const KEEPALIVE_SECS: nat := 30

  /** KEEPALIVE_SECS in nanoseconds, the unit of SystemTime here. */
  const KEEPALIVE: nat := KEEPALIVE_SECS * NANOS_PER_SEC

  // ===========================================================================
  // ICMP codes as the packet parser reports them, and their Problem numbering
  // (src/observe.rs:98-155).

  datatype UnreachableCode =
    | DestinationNetworkUnreachable | DestinationHostUnreachable | DestinationProtocolUnreachable
    | DestinationPortUnreachable | FragmentationRequired | SourceRouteFailed
    | DestinationNetworkUnknown | DestinationHostUnknown | SourceHostIsolated
    | NetworkAdministrativelyProhibited | HostAdministrativelyProhibited
    | NetworkUnreachableForTos | HostUnreachableForTos
    | CommunicationAdministrativelyProhibited | HostPrecedenceViolation | PrecedentCutoffInEffect

  datatype RedirectCode = Network | Host | TosAndNetwork | TosAndHost

  datatype TimeExceededCode = Ttl | FragmentReassembly

  datatype ParameterProblemCode = Pointer | MissingRequiredOption | BadLength

  datatype ExtendedEchoReplyCode =
    | NoError | MalformedQuery | NoSuchInterface | NoSuchTableEntry | MultipleInterfacesSatisfyQuery

  datatype IcmpCode =
    | EchoReply
    | Reserved
    | DestinationUnreachable(un: UnreachableCode)
    | SourceQuench
    | Redirect(rd: RedirectCode)
    | EchoRequest
    | RouterAdvertisement
    | RouterSolicitation
    | TimeExceeded(te: TimeExceededCode)
    | ParameterProblem(pp: ParameterProblemCode)
    | Timestamp
    | TimestampReply
    | ExtendedEchoRequest
    | ExtendedEchoReply(eer: ExtendedEchoReplyCode)
    | Other(raw: u16)

  /** `From<IcmpCode> for Problem`: the ICMP type as `kind`, the code as `code`. */
  function ProblemOf(c: IcmpCode): Problem {
    match c
    case EchoReply => Problem(0, 0)
    case Reserved => Problem(1, 0)
    case DestinationUnreachable(un) => Problem(3,
      match un
      case DestinationNetworkUnreachable => 0
      case DestinationHostUnreachable => 1
      case DestinationProtocolUnreachable => 2
      case DestinationPortUnreachable => 3
      case FragmentationRequired => 4
      case SourceRouteFailed => 5
      case DestinationNetworkUnknown => 6
      case DestinationHostUnknown => 7
      case SourceHostIsolated => 8
      case NetworkAdministrativelyProhibited => 9
      case HostAdministrativelyProhibited => 10
      case NetworkUnreachableForTos => 11
      case HostUnreachableForTos => 12
      case CommunicationAdministrativelyProhibited => 13
      case HostPrecedenceViolation => 14
      case PrecedentCutoffInEffect => 15)
    case SourceQuench => Problem(4, 0)
    case Redirect(rd) => Problem(5,
      match rd
      case Network => 0
      case Host => 1
      case TosAndNetwork => 2
      case TosAndHost => 3)
    case EchoRequest => Problem(8, 0)
    case RouterAdvertisement => Problem(9, 0)
    case RouterSolicitation => Problem(10, 0)
    case TimeExceeded(te) => Problem(11,
      match te
      case Ttl => 0
      case FragmentReassembly => 1)
    case ParameterProblem(pp) => Problem(12,
      match pp
      case Pointer => 0
      case MissingRequiredOption => 1
      case BadLength => 2)
    case Timestamp => Problem(12, 0)
    case TimestampReply => Problem(13, 0)
    case ExtendedEchoRequest => Problem(42, 0)
    case ExtendedEchoReply(eer) => Problem(43,
      match eer
      case NoError => 0
      case MalformedQuery => 1
      case NoSuchInterface => 2
      case NoSuchTableEntry => 3
      case MultipleInterfacesSatisfyQuery => 4)
    case Other(raw) => Problem(raw / 0x100, raw % 0x100)
  }

  /** The sub-codes of each ICMP type in the order the parser declares them. */
  const UNREACHABLE_ORDER: seq<UnreachableCode> := [
    DestinationNetworkUnreachable, DestinationHostUnreachable, DestinationProtocolUnreachable,
    DestinationPortUnreachable, FragmentationRequired, SourceRouteFailed,
    DestinationNetworkUnknown, DestinationHostUnknown, SourceHostIsolated,
    NetworkAdministrativelyProhibited, HostAdministrativelyProhibited,
    NetworkUnreachableForTos, HostUnreachableForTos,
    CommunicationAdministrativelyProhibited, HostPrecedenceViolation, PrecedentCutoffInEffect]
  const REDIRECT_ORDER: seq<RedirectCode> := [Network, Host, TosAndNetwork, TosAndHost]
  const TIME_EXCEEDED_ORDER: seq<TimeExceededCode> := [Ttl, FragmentReassembly]
  const PARAMETER_PROBLEM_ORDER: seq<ParameterProblemCode> := [Pointer, MissingRequiredOption, BadLength]
  const EXTENDED_ECHO_REPLY_ORDER: seq<ExtendedEchoReplyCode> :=
    [NoError, MalformedQuery, NoSuchInterface, NoSuchTableEntry, MultipleInterfacesSatisfyQuery]

  /** Each sub-code is numbered by its position in declaration order, under the type
      number of its family: unreachable 3, redirect 5, time exceeded 11, parameter
      problem 12, extended echo reply 43. */
  lemma SubCodesInDeclaredOrder(i: nat)
    ensures i < |UNREACHABLE_ORDER| ==> ProblemOf(DestinationUnreachable(UNREACHABLE_ORDER[i])) == Problem(3, i)
    ensures i < |REDIRECT_ORDER| ==> ProblemOf(Redirect(REDIRECT_ORDER[i])) == Problem(5, i)
    ensures i < |TIME_EXCEEDED_ORDER| ==> ProblemOf(TimeExceeded(TIME_EXCEEDED_ORDER[i])) == Problem(11, i)
    ensures i < |PARAMETER_PROBLEM_ORDER| ==> ProblemOf(ParameterProblem(PARAMETER_PROBLEM_ORDER[i])) == Problem(12, i)
    ensures i < |EXTENDED_ECHO_REPLY_ORDER| ==> ProblemOf(ExtendedEchoReply(EXTENDED_ECHO_REPLY_ORDER[i])) == Problem(43, i)
  {
  }

  /** The order lists are complete: every sub-code appears in its list. */
  lemma OrdersComplete(un: UnreachableCode, rd: RedirectCode, te: TimeExceededCode, pp: ParameterProblemCode, eer: ExtendedEchoReplyCode)
    ensures un in UNREACHABLE_ORDER && rd in REDIRECT_ORDER && te in TIME_EXCEEDED_ORDER
    ensures pp in PARAMETER_PROBLEM_ORDER && eer in EXTENDED_ECHO_REPLY_ORDER
  {
  }

  /** An unrecognised code keeps the raw 16-bit value: its high byte as the kind,
      its low byte as the code. */
  lemma OtherKeepsRaw(raw: u16)
    ensures ProblemOf(Other(raw)).kind * 0x100 + ProblemOf(Other(raw)).code == raw
  {
  }

  /** `Timestamp` is numbered 12 (RFC 792 gives it type 13), so it shares its Problem
      with a parameter problem of the pointer kind and cannot be told apart from it. */
  lemma TimestampCollidesWithParameterProblem()
    ensures ProblemOf(Timestamp) == ProblemOf(ParameterProblem(Pointer))
    ensures Timestamp != ParameterProblem(Pointer)
  {
  }

  /** Apart from that collision, distinct recognised codes get distinct Problems. */
  lemma RecognisedCodesDistinct(a: IcmpCode, b: IcmpCode)
    requires !a.Other? && !b.Other? && a != b
    requires {a, b} != {Timestamp, ParameterProblem(Pointer)}
    ensures ProblemOf(a) != ProblemOf(b)
  {
  }

  // ===========================================================================
  // DNS records as the DNS parser reports them, and the Name they become
  // (src/observe.rs:202-226).

  datatype RData =
    | A(v4: Ipv4Octets)
    | AAAA(v6: Ipv6Segments)
    | CNAME(cname: Str)
    | MX(preference: u16, exchange: Str)
    | SRV(priority: u16, weight: u16, port: u16, target: Str)
    | TXT(txt: seq<seq<byte>>)
    | OtherRecord

  datatype ResourceRecord = ResourceRecord(name: Str, data: RData)

  datatype Question = Question(qname: Str)

  datatype DnsPacket = DnsPacket(questions: seq<Question>, answers: seq<ResourceRecord>)

  function NameOfQuestion(q: Question): Name {
    Name(q.qname, None)
  }

  function NameOfRecord(r: ResourceRecord): Name {
    Name(r.name,
      match r.data
      case A(v4) => Some(Address(V4(v4)))
      case AAAA(v6) => Some(Address(V6(v6)))
      case CNAME(cname) => Some(Alias(cname))
      case MX(_, exchange) => Some(Service(exchange, None))
      case SRV(_, _, port, target) => Some(Service(target, Some(port)))
      case TXT(txt) => Some(Text(txt))
      case OtherRecord => None)
  }

  /** What a record resolves to: address records to the address, CNAME to an alias,
      MX to its exchange with no port, SRV to its target and port, TXT to its blobs,
      and every other record type to nothing; the record's own name is kept. */
  lemma RecordResolution(r: ResourceRecord)
    ensures NameOfRecord(r).name == r.name
    ensures NameOfRecord(r).address.None? <==> r.data.OtherRecord?
    ensures r.data.A? ==> NameOfRecord(r).address == Some(Address(V4(r.data.v4)))
    ensures r.data.AAAA? ==> NameOfRecord(r).address == Some(Address(V6(r.data.v6)))
    ensures r.data.CNAME? ==> NameOfRecord(r).address == Some(Alias(r.data.cname))
    ensures r.data.MX? ==> NameOfRecord(r).address == Some(Service(r.data.exchange, None))
    ensures r.data.SRV? ==> NameOfRecord(r).address == Some(Service(r.data.target, Some(r.data.port)))
    ensures r.data.TXT? ==> NameOfRecord(r).address == Some(Text(r.data.txt))
  {
  }

  /** The names a DNS packet yields: its questions, then its answers. */
  function DnsNames(p: DnsPacket): seq<Name> {
    seq(|p.questions|, i requires 0 <= i < |p.questions| => NameOfQuestion(p.questions[i])) +
    seq(|p.answers|, j requires 0 <= j < |p.answers| => NameOfRecord(p.answers[j]))
  }

  /** Questions come first, in order and with no address; then every answer, in order. */
  lemma DnsNamesOrder(p: DnsPacket)
    ensures |DnsNames(p)| == |p.questions| + |p.answers|
    ensures forall i :: 0 <= i < |p.questions| ==> DnsNames(p)[i] == Name(p.questions[i].qname, None)
    ensures forall j :: 0 <= j < |p.answers| ==> DnsNames(p)[|p.questions| + j] == NameOfRecord(p.answers[j])
  {
  }

  /** The two push loops of `handle_dns` (src/observe.rs:329-335). */
  method CollectNames(p: DnsPacket) returns (names: seq<Name>)
    ensures |names| == |p.questions| + |p.answers|
    ensures forall i :: 0 <= i < |p.questions| ==> names[i] == NameOfQuestion(p.questions[i])
    ensures forall j :: 0 <= j < |p.answers| ==> names[|p.questions| + j] == NameOfRecord(p.answers[j])
    ensures names == DnsNames(p)
  {
    names := [];
    for i := 0 to |p.questions|
      invariant |names| == i
      invariant forall k :: 0 <= k < i ==> names[k] == NameOfQuestion(p.questions[k])
    {
      names := names + [NameOfQuestion(p.questions[i])];
    }
    for j := 0 to |p.answers|
      invariant |names| == |p.questions| + j
      invariant forall k :: 0 <= k < |p.questions| ==> names[k] == NameOfQuestion(p.questions[k])
      invariant forall k :: 0 <= k < j ==> names[|p.questions| + k] == NameOfRecord(p.answers[k])
    {
      names := names + [NameOfRecord(p.answers[j])];
    }
  }

  // ===========================================================================
  // Parsed packets: the input of the observer.

  datatype TcpHeader = TcpHeader(sourcePort: u16, destPort: u16, rst: bool, fin: bool)

  datatype UdpHeader = UdpHeader(sourcePort: u16, destPort: u16)

  /** A UDP datagram: its header, and what the DNS parser makes of the payload
      (None when it is not a DNS packet). */
  datatype UdpDatagram = UdpDatagram(header: UdpHeader, dns: Option<DnsPacket>)

  /** An ICMP message: its code, and the quoted payload read as a UDP header and as a
      TCP header (None where that parse fails). */
  datatype IcmpMessage = IcmpMessage(code: IcmpCode, asUdp: Option<UdpHeader>, asTcp: Option<TcpHeader>)

  /** The transport payload selected by the IP protocol number, parsed (None where the
      transport parser fails). */
  datatype Transport =
    | TcpSegment(tcp: Option<TcpHeader>)
    | UdpSegment(udp: Option<UdpDatagram>)
    | Icmp(icmp: Option<IcmpMessage>)
    | Icmp6(icmp6: Option<IcmpMessage>)
    | OtherTransport

  datatype Ipv4Packet = Ipv4Packet(source: Ipv4Octets, dest: Ipv4Octets, payload: Transport)

  datatype Ipv6Packet = Ipv6Packet(source: Ipv6Segments, dest: Ipv6Segments, payload: Transport)

  /** An Ethernet frame by EtherType (None inside where the IP header does not parse). */
  datatype EtherFrame =
    | IPv4Frame(ipv4: Option<Ipv4Packet>)
    | IPv6Frame(ipv6: Option<Ipv6Packet>)
    | OtherEtherType

  datatype Linktype = Ethernet | OtherLink

  /** A captured packet: the index of its device, the device's link type, and its frame
      (None where the Ethernet header does not parse). */
  datatype Ingress = Ingress(interface: nat, link: Linktype, frame: Option<EtherFrame>)

  /** A packet together with the clock reading at which the observer handles it. */
  datatype Arrival = Arrival(ingress: Ingress, now: SystemTime)

  // ===========================================================================
  // The observer as a function of its table: each step gives the new table and the
  // messages emitted.

  type Table = map<Connection, Message>

  datatype Step = Step(states: Table, out: seq<Message>)

  /** `now.duration_since(as_of)` is an error when `now` is earlier, which counts as
      "not stale"; otherwise the entry is stale once strictly more than 30 s old. */
  predicate Stale(asOf: SystemTime, now: SystemTime) {
    if now < asOf then false else now - asOf > KEEPALIVE
  }

  function OpenStep(t: Table, conn: Connection, now: SystemTime): Step {
    if conn in t && t[conn].Active? then
      if Stale(t[conn].state.asOf, now) then
        var m := Active(State(now, conn));
        Step(t[conn := m], [m])
      else Step(t, [])
    else
      var m := Active(State(now, conn));
      Step(t[conn := m], [m])
  }

  function ClosedStep(t: Table, conn: Connection, how: Closed, now: SystemTime): Step {
    var m := Ended(State(now, conn), how);
    Step(t[conn := m], [m])
  }

  function UnavailStep(t: Table, conn: Connection, problem: Problem, now: SystemTime): Step {
    var m := Failed(State(now, conn), problem);
    Step(t[conn := m], [m])
  }

  /** The flow is closed as connectionless, then the names follow; only the Ended
      message is recorded in the table. */
  function SendNamesStep(t: Table, conn: Connection, names: seq<Name>, now: SystemTime): Step {
    var s := ClosedStep(t, conn, Connectionless, now);
    Step(s.states, s.out + [Names(State(now, conn), names)])
  }

  function DnsStep(t: Table, dns: Option<DnsPacket>, conn: Connection, now: SystemTime): Step {
    match dns
    case None => Step(t, [])
    case Some(p) =>
      if |p.questions| == 0 then Step(t, [])
      else SendNamesStep(t, conn, DnsNames(p), now)
  }

  /** The flow as observed: source and destination are not reordered. */
  function Flow(interface: nat, hosts: HostPair, sourcePort: u16, destPort: u16, protocol: Protocol): Connection {
    Connection(interface, Endpoint(hosts.src, sourcePort), Endpoint(hosts.dst, destPort), protocol)
  }

  function TcpStep(t: Table, interface: nat, tcp: Option<TcpHeader>, hosts: HostPair, now: SystemTime): Step {
    match tcp
    case None => Step(t, [])
    case Some(h) =>
      var conn := Flow(interface, hosts, h.sourcePort, h.destPort, Tcp);
      if h.rst || h.fin then ClosedStep(t, conn, if h.rst then Reset else Normally, now)
      else OpenStep(t, conn, now)
  }

  function UdpStep(t: Table, interface: nat, udp: Option<UdpDatagram>, hosts: HostPair, now: SystemTime): Step {
    match udp
    case None => Step(t, [])
    case Some(d) =>
      var conn := Flow(interface, hosts, d.header.sourcePort, d.header.destPort, Udp);
      if d.header.destPort == 53 || d.header.sourcePort == 53 then DnsStep(t, d.dns, conn, now)
      else ClosedStep(t, conn, Connectionless, now)
  }

  /** The flow an ICMP message is about: the quoted header read as UDP first, then as
      TCP, with the addresses of the packet that carries the ICMP message. */
  function IcmpFlow(interface: nat, msg: IcmpMessage, hosts: HostPair): Option<Connection> {
    if msg.asUdp.Some? then
      Some(Flow(interface, hosts, msg.asUdp.value.sourcePort, msg.asUdp.value.destPort, Udp))
    else if msg.asTcp.Some? then
      Some(Flow(interface, hosts, msg.asTcp.value.sourcePort, msg.asTcp.value.destPort, Tcp))
    else None
  }

  function IcmpStep(t: Table, interface: nat, icmp: Option<IcmpMessage>, hosts: HostPair, now: SystemTime): Step {
    match icmp
    case None => Step(t, [])
    case Some(msg) =>
      match IcmpFlow(interface, msg, hosts)
      case None => Step(t, [])
      case Some(conn) => UnavailStep(t, conn, ProblemOf(msg.code), now)
  }

  function Ipv4Step(t: Table, interface: nat, ip: Option<Ipv4Packet>, now: SystemTime): Step {
    match ip
    case None => Step(t, [])
    case Some(p) =>
      var hosts := HostPair(V4(p.source), V4(p.dest));
      match p.payload
      case TcpSegment(tcp) => TcpStep(t, interface, tcp, hosts, now)
      case UdpSegment(udp) => UdpStep(t, interface, udp, hosts, now)
      case Icmp(icmp) => IcmpStep(t, interface, icmp, hosts, now)
      case Icmp6(_) => Step(t, [])
      case OtherTransport => Step(t, [])
  }

  function Ipv6Step(t: Table, interface: nat, ip: Option<Ipv6Packet>, now: SystemTime): Step {
    match ip
    case None => Step(t, [])
    case Some(p) =>
      var hosts := HostPair(V6(p.source), V6(p.dest));
      match p.payload
      case TcpSegment(tcp) => TcpStep(t, interface, tcp, hosts, now)
      case UdpSegment(udp) => UdpStep(t, interface, udp, hosts, now)
      case Icmp(_) => Step(t, [])
      case Icmp6(icmp) => IcmpStep(t, interface, icmp, hosts, now)
      case OtherTransport => Step(t, [])
  }

  function EtherStep(t: Table, interface: nat, frame: Option<EtherFrame>, now: SystemTime): Step {
    match frame
    case None => Step(t, [])
    case Some(IPv4Frame(ip)) => Ipv4Step(t, interface, ip, now)
    case Some(IPv6Frame(ip)) => Ipv6Step(t, interface, ip, now)
    case Some(OtherEtherType) => Step(t, [])
  }

  /** What one packet does: non-Ethernet links are ignored. */
  function IngressStep(t: Table, a: Arrival): Step {
    if a.ingress.link == Ethernet then EtherStep(t, a.ingress.interface, a.ingress.frame, a.now)
    else Step(t, [])
  }

  datatype Batch = Batch(states: Table, out: Option<seq<Message>>, consumed: nat)

  /** `Observer::next`: handle packets until one yields messages; None once the
      packets run out, which is when the channel is closed. */
  function NextBatch(t: Table, arrivals: seq<Arrival>): (b: Batch)
    ensures b.consumed <= |arrivals|
    ensures b.out.Some? ==> |b.out.value| > 0 && b.consumed > 0
    ensures b.out.None? ==> b.consumed == |arrivals|
    decreases |arrivals|
  {
    if |arrivals| == 0 then Batch(t, None, 0)
    else
      var s := IngressStep(t, arrivals[0]);
      if |s.out| > 0 then Batch(s.states, Some(s.out), 1)
      else
        var b := NextBatch(s.states, arrivals[1..]);
        Batch(b.states, b.out, b.consumed + 1)
  }

  // ===========================================================================
  // The observer object.

  class Observer {
    var states: Table

    /** Every entry is filed under its own flow and none is a Name message. */
    ghost predicate Valid()
      reads this
    {
      TableConsistent(states)
    }

    constructor ()
      ensures states == map[]
      ensures Valid()
    {
      states := map[];
    }

    method ConnectionOpen(conn: Connection, now: SystemTime) returns (out: seq<Message>)
      modifies this
      ensures Step(states, out) == OpenStep(old(states), conn, now)
    {
      if conn in states && states[conn].Active? {
        if Stale(states[conn].state.asOf, now) {
          var message := Active(State(now, conn));
          states := states[conn := message];
          out := [message];
        } else {
          out := [];
        }
      } else {
        var message := Active(State(now, conn));
        states := states[conn := message];
        out := [message];
      }
    }

    method ConnectionClosed(conn: Connection, how: Closed, now: SystemTime) returns (out: seq<Message>)
      modifies this
      ensures Step(states, out) == ClosedStep(old(states), conn, how, now)
    {
      var message := Ended(State(now, conn), how);
      states := states[conn := message];
      out := [message];
    }

    method ConnectionUnavail(conn: Connection, problem: Problem, now: SystemTime) returns (out: seq<Message>)
      modifies this
      ensures Step(states, out) == UnavailStep(old(states), conn, problem, now)
    {
      var message := Failed(State(now, conn), problem);
      states := states[conn := message];
      out := [message];
    }

    method SendNames(conn: Connection, names: seq<Name>, now: SystemTime) returns (out: seq<Message>)
      modifies this
      ensures Step(states, out) == SendNamesStep(old(states), conn, names, now)
    {
      out := ConnectionClosed(conn, Connectionless, now);
      out := out + [Names(State(now, conn), names)];
    }

    method HandleDns(dns: Option<DnsPacket>, conn: Connection, now: SystemTime) returns (out: seq<Message>)
      modifies this
      ensures Step(states, out) == DnsStep(old(states), dns, conn, now)
    {
      if dns.None? || |dns.value.questions| == 0 {
        out := [];
      } else {
        var names := CollectNames(dns.value);
        out := SendNames(conn, names, now);
      }
    }

    method HandleTcp(interface: nat, tcp: Option<TcpHeader>, hosts: HostPair, now: SystemTime) returns (out: seq<Message>)
      modifies this
      ensures Step(states, out) == TcpStep(old(states), interface, tcp, hosts, now)
    {
      if tcp.None? {
        return [];
      }
      var pkt := tcp.value;
      var conn := Connection(interface, Endpoint(hosts.src, pkt.sourcePort), Endpoint(hosts.dst, pkt.destPort), Tcp);
      if pkt.rst || pkt.fin {
        out := ConnectionClosed(conn, if pkt.rst then Reset else Normally, now);
      } else {
        out := ConnectionOpen(conn, now);
      }
    }

    method HandleUdp(interface: nat, udp: Option<UdpDatagram>, hosts: HostPair, now: SystemTime) returns (out: seq<Message>)
      modifies this
      ensures Step(states, out) == UdpStep(old(states), interface, udp, hosts, now)
    {
      if udp.None? {
        return [];
      }
      var pkt := udp.value.header;
      var conn := Connection(interface, Endpoint(hosts.src, pkt.sourcePort), Endpoint(hosts.dst, pkt.destPort), Udp);
      if pkt.destPort == 53 || pkt.sourcePort == 53 {
        out := HandleDns(udp.value.dns, conn, now);
      } else {
        out := ConnectionClosed(conn, Connectionless, now);
      }
    }

    method HandleIcmp(interface: nat, icmp: Option<IcmpMessage>, hosts: HostPair, now: SystemTime) returns (out: seq<Message>)
      modifies this
      ensures Step(states, out) == IcmpStep(old(states), interface, icmp, hosts, now)
    {
      if icmp.None? {
        return [];
      }
      var pkt := icmp.value;
      var conn: Option<Connection>;
      if pkt.asUdp.Some? {
        var trans := pkt.asUdp.value;
        conn := Some(Connection(interface, Endpoint(hosts.src, trans.sourcePort), Endpoint(hosts.dst, trans.destPort), Udp));
      } else if pkt.asTcp.Some? {
        var trans := pkt.asTcp.value;
        conn := Some(Connection(interface, Endpoint(hosts.src, trans.sourcePort), Endpoint(hosts.dst, trans.destPort), Tcp));
      } else {
        conn := None;
      }
      if conn.Some? {
        out := ConnectionUnavail(conn.value, ProblemOf(pkt.code), now);
      } else {
        out := [];
      }
    }

    method HandleIpv4(interface: nat, ip: Option<Ipv4Packet>, now: SystemTime) returns (out: seq<Message>)
      modifies this
      ensures Step(states, out) == Ipv4Step(old(states), interface, ip, now)
    {
      if ip.None? {
        return [];
      }
      var pkt := ip.value;
      var pair := HostPair(V4(pkt.source), V4(pkt.dest));
      match pkt.payload
      case TcpSegment(tcp) => out := HandleTcp(interface, tcp, pair, now);
      case UdpSegment(udp) => out := HandleUdp(interface, udp, pair, now);
      case Icmp(icmp) => out := HandleIcmp(interface, icmp, pair, now);
      case Icmp6(_) => out := [];
      case OtherTransport => out := [];
    }

    method HandleIpv6(interface: nat, ip: Option<Ipv6Packet>, now: SystemTime) returns (out: seq<Message>)
      modifies this
      ensures Step(states, out) == Ipv6Step(old(states), interface, ip, now)
    {
      if ip.None? {
        return [];
      }
      var pkt := ip.value;
      var pair := HostPair(V6(pkt.source), V6(pkt.dest));
      match pkt.payload
      case TcpSegment(tcp) => out := HandleTcp(interface, tcp, pair, now);
      case UdpSegment(udp) => out := HandleUdp(interface, udp, pair, now);
      case Icmp(_) => out := [];
      case Icmp6(icmp) => out := HandleIcmp(interface, icmp, pair, now);
      case OtherTransport => out := [];
    }

    method HandleEther(interface: nat, frame: Option<EtherFrame>, now: SystemTime) returns (out: seq<Message>)
      modifies this
      ensures Step(states, out) == EtherStep(old(states), interface, frame, now)
    {
      match frame
      case None => out := [];
      case Some(IPv4Frame(ip)) => out := HandleIpv4(interface, ip, now);
      case Some(IPv6Frame(ip)) => out := HandleIpv6(interface, ip, now);
      case Some(OtherEtherType) => out := [];
    }

    /** The receive loop of `next`: packets from non-Ethernet devices are dropped, and
        a packet that yields no message does not end the call. */
    method Next(arrivals: seq<Arrival>) returns (batch: Option<seq<Message>>, consumed: nat)
      requires Valid()
      modifies this
      ensures NextBatch(old(states), arrivals) == Batch(states, batch, consumed)
      ensures Valid()
    {
      NextBatchKeepsInvariant(states, arrivals);
      var i := 0;
      while i < |arrivals|
        invariant 0 <= i <= |arrivals|
        invariant NextBatch(old(states), arrivals) == Skipped(NextBatch(states, arrivals[i..]), i)
      {
        var a := arrivals[i];
        var msgs: seq<Message> := [];
        if a.ingress.link == Ethernet {
          msgs := HandleEther(a.ingress.interface, a.ingress.frame, a.now);
        }
        if |msgs| > 0 {
          return Some(msgs), i + 1;
        }
        assert arrivals[i..][1..] == arrivals[i + 1..];
        i := i + 1;
      }
      return None, i;
    }
  }

  /** A batch reached after `n` packets that produced nothing. */
  function Skipped(b: Batch, n: nat): Batch {
    Batch(b.states, b.out, b.consumed + n)
  }

  // ===========================================================================
  // What the steps promise.

  /** The first sighting of a flow, or any sighting after a non-Active entry, emits
      exactly one Active stamped `now` and records it. An Active entry is refreshed
      only when strictly more than 30 s old; otherwise (also when the clock reads
      earlier than the entry) nothing is emitted and the table is left as it was. */
  lemma OpenBehaviour(t: Table, conn: Connection, now: SystemTime)
    ensures var s := OpenStep(t, conn, now);
      && (s.out == [] <==> conn in t && t[conn].Active? && now - t[conn].state.asOf <= KEEPALIVE)
      && (s.out == [] ==> s.states == t)
      && (s.out != [] ==> s.out == [Active(State(now, conn))] && s.states == t[conn := Active(State(now, conn))])
  {
  }

  /** Closing and failing are never suppressed: exactly one message, recorded under
      the flow, and no other entry changes. */
  lemma ClosedAndUnavailBehaviour(t: Table, conn: Connection, how: Closed, problem: Problem, now: SystemTime)
    ensures ClosedStep(t, conn, how, now).out == [Ended(State(now, conn), how)]
    ensures ClosedStep(t, conn, how, now).states == t[conn := Ended(State(now, conn), how)]
    ensures UnavailStep(t, conn, problem, now).out == [Failed(State(now, conn), problem)]
    ensures UnavailStep(t, conn, problem, now).states == t[conn := Failed(State(now, conn), problem)]
  {
  }

  /** After a heartbeat at `t1`, the next sighting at `t2` is silent exactly when it
      comes at most 30 s later; a close or failure in between re-arms it. */
  lemma HeartbeatSpacing(t: Table, conn: Connection, t1: SystemTime, t2: SystemTime)
    requires OpenStep(t, conn, t1).out != []
    ensures OpenStep(OpenStep(t, conn, t1).states, conn, t2).out == [] <==> t2 - t1 <= KEEPALIVE
    ensures OpenStep(ClosedStep(OpenStep(t, conn, t1).states, conn, Normally, t1).states, conn, t2).out != []
  {
  }

  /** TCP: RST wins over FIN; FIN alone closes normally; anything else is a sighting. */
  lemma TcpDispatch(t: Table, interface: nat, h: TcpHeader, hosts: HostPair, now: SystemTime)
    ensures var conn := Connection(interface, Endpoint(hosts.src, h.sourcePort), Endpoint(hosts.dst, h.destPort), Tcp);
      && (h.rst ==> TcpStep(t, interface, Some(h), hosts, now) == ClosedStep(t, conn, Reset, now))
      && (!h.rst && h.fin ==> TcpStep(t, interface, Some(h), hosts, now) == ClosedStep(t, conn, Normally, now))
      && (!h.rst && !h.fin ==> TcpStep(t, interface, Some(h), hosts, now) == OpenStep(t, conn, now))
  {
  }

  /** UDP: port 53 at either end goes to DNS handling; any other datagram closes its
      flow as connectionless. */
  lemma UdpDispatch(t: Table, interface: nat, d: UdpDatagram, hosts: HostPair, now: SystemTime)
    ensures var conn := Flow(interface, hosts, d.header.sourcePort, d.header.destPort, Udp);
      && (d.header.sourcePort == 53 || d.header.destPort == 53 ==> UdpStep(t, interface, Some(d), hosts, now) == DnsStep(t, d.dns, conn, now))
      && (d.header.sourcePort != 53 && d.header.destPort != 53 ==>
            UdpStep(t, interface, Some(d), hosts, now).out == [Ended(State(now, conn), Connectionless)])
  {
  }

  /** DNS: an unparsable packet or one without questions emits nothing and changes
      nothing; otherwise the flow is closed as connectionless and a Name message
      carrying the questions, then the answers, follows on the same flow. */
  lemma DnsBehaviour(t: Table, dns: Option<DnsPacket>, conn: Connection, now: SystemTime)
    ensures dns.None? || |dns.value.questions| == 0 ==> DnsStep(t, dns, conn, now) == Step(t, [])
    ensures dns.Some? && |dns.value.questions| > 0 ==>
      && DnsStep(t, dns, conn, now).out == [Ended(State(now, conn), Connectionless), Names(State(now, conn), DnsNames(dns.value))]
      && DnsStep(t, dns, conn, now).states == t[conn := Ended(State(now, conn), Connectionless)]
  {
  }

  /** ICMP: the flow is found by a UDP reading of the quoted header, else a TCP
      reading; it is marked Failed with the code's Problem; with neither, nothing happens. */
  lemma IcmpBehaviour(t: Table, interface: nat, msg: IcmpMessage, hosts: HostPair, now: SystemTime)
    ensures var s := IcmpStep(t, interface, Some(msg), hosts, now);
      && (msg.asUdp.None? && msg.asTcp.None? <==> s == Step(t, []))
      && (msg.asUdp.Some? ==> s.out == [Failed(State(now, Flow(interface, hosts, msg.asUdp.value.sourcePort, msg.asUdp.value.destPort, Udp)), ProblemOf(msg.code))])
      && (msg.asUdp.None? && msg.asTcp.Some? ==> s.out == [Failed(State(now, Flow(interface, hosts, msg.asTcp.value.sourcePort, msg.asTcp.value.destPort, Tcp)), ProblemOf(msg.code))])
  {
  }

  /** The table invariant: every entry is filed under its own flow, and Name
      messages are never recorded. */
  ghost predicate TableConsistent(t: Table) {
    forall k :: k in t ==> t[k].state.connection == k && !t[k].Names?
  }

  function FlowsOf(out: seq<Message>): set<Connection> {
    set m | m in out :: m.state.connection
  }

  /** What any step may do: emit messages stamped `now` for flows on the packet's
      interface, and change table entries only for flows it emitted a message about;
      a step that emits nothing leaves the table alone. */
  ghost predicate Effect(t: Table, s: Step, interface: nat, now: SystemTime) {
    && (forall m :: m in s.out ==> m.state.asOf == now && m.state.connection.interface == interface)
    && (forall k :: k in t ==> k in s.states)
    && (forall k :: k in s.states && (k !in t || s.states[k] != t[k]) ==> k in FlowsOf(s.out))
    && (s.out == [] ==> s.states == t)
  }

  lemma RecordEffect(t: Table, conn: Connection, m: Message, interface: nat, now: SystemTime)
    requires TableConsistent(t)
    requires m.state.connection == conn && m.state.asOf == now && conn.interface == interface && !m.Names?
    ensures TableConsistent(t[conn := m]) && Effect(t, Step(t[conn := m], [m]), interface, now)
  {
    assert FlowsOf([m]) == {conn};
  }

  /** The forms a single step's result takes: nothing happens, or one flow's entry
      becomes the first message emitted, which is not a Name message, is stamped
      `now` and is about a flow on the packet's interface; a second message can only
      be the Name message following an Ended one on the same flow. */
  ghost predicate Shaped(t: Table, s: Step, interface: nat, now: SystemTime) {
    || s == Step(t, [])
    || (&& 0 < |s.out| <= 2
        && s.out[0].state == State(now, s.out[0].state.connection)
        && s.out[0].state.connection.interface == interface
        && !s.out[0].Names?
        && s.states == t[s.out[0].state.connection := s.out[0]]
        && (|s.out| == 2 ==> s.out[0].Ended? && s.out[1].state == s.out[0].state))
  }

  lemma TransportShaped(t: Table, interface: nat, payload: Transport, hosts: HostPair, now: SystemTime)
    ensures payload.TcpSegment? ==> Shaped(t, TcpStep(t, interface, payload.tcp, hosts, now), interface, now)
    ensures payload.UdpSegment? ==> Shaped(t, UdpStep(t, interface, payload.udp, hosts, now), interface, now)
    ensures payload.Icmp? ==> Shaped(t, IcmpStep(t, interface, payload.icmp, hosts, now), interface, now)
    ensures payload.Icmp6? ==> Shaped(t, IcmpStep(t, interface, payload.icmp6, hosts, now), interface, now)
  {
  }

  lemma EtherShaped(t: Table, a: Arrival)
    ensures Shaped(t, IngressStep(t, a), a.ingress.interface, a.now)
  {
    var interface, now := a.ingress.interface, a.now;
    if a.ingress.link == Ethernet {
      match a.ingress.frame
      case None =>
      case Some(IPv4Frame(ip)) =>
        if ip.Some? {
          TransportShaped(t, interface, ip.value.payload, HostPair(V4(ip.value.source), V4(ip.value.dest)), now);
        }
      case Some(IPv6Frame(ip)) =>
        if ip.Some? {
          TransportShaped(t, interface, ip.value.payload, HostPair(V6(ip.value.source), V6(ip.value.dest)), now);
        }
      case Some(OtherEtherType) =>
    }
  }

  lemma ShapedEffect(t: Table, s: Step, interface: nat, now: SystemTime)
    requires TableConsistent(t) && Shaped(t, s, interface, now)
    ensures TableConsistent(s.states) && Effect(t, s, interface, now)
  {
    if s != Step(t, []) {
      var m := s.out[0];
      RecordEffect(t, m.state.connection, m, interface, now);
      if |s.out| == 2 {
        assert s.out == [m, s.out[1]];
        assert FlowsOf(s.out) == {m.state.connection};
      } else {
        assert s.out == [m];
      }
    }
  }

  lemma FlowStepsKeepInvariant(t: Table, a: Arrival)
    requires TableConsistent(t)
    ensures TableConsistent(IngressStep(t, a).states)
    ensures Effect(t, IngressStep(t, a), a.ingress.interface, a.now)
  {
    EtherShaped(t, a);
    ShapedEffect(t, IngressStep(t, a), a.ingress.interface, a.now);
  }

  /** Every packet handled keeps the table invariant and has only the effect above. */
  lemma {:induction false} NextBatchKeepsInvariant(t: Table, arrivals: seq<Arrival>)
    requires TableConsistent(t)
    ensures TableConsistent(NextBatch(t, arrivals).states)
    decreases |arrivals|
  {
    if |arrivals| > 0 {
      FlowStepsKeepInvariant(t, arrivals[0]);
      var s := IngressStep(t, arrivals[0]);
      if |s.out| == 0 {
        NextBatchKeepsInvariant(s.states, arrivals[1..]);
      }
    }
  }

  /** The packets `next` passes over produced nothing: a batch that ends at packet
      `consumed` is what that packet yielded, from the table the earlier ones left
      unchanged. */
  lemma {:induction false} NextBatchSkipsSilentPackets(t: Table, arrivals: seq<Arrival>)
    requires TableConsistent(t)
    ensures var b := NextBatch(t, arrivals);
      forall i :: 0 <= i < b.consumed - (if b.out.Some? then 1 else 0) ==> IngressStep(t, arrivals[i]).out == []
    ensures var b := NextBatch(t, arrivals);
      b.out.Some? ==> b == Batch(IngressStep(t, arrivals[b.consumed - 1]).states, Some(IngressStep(t, arrivals[b.consumed - 1]).out), b.consumed)
    decreases |arrivals|
  {
    if |arrivals| > 0 {
      FlowStepsKeepInvariant(t, arrivals[0]);
      var s := IngressStep(t, arrivals[0]);
      if |s.out| == 0 {
        assert s.states == t;
        NextBatchSkipsSilentPackets(t, arrivals[1..]);
        var b := NextBatch(t, arrivals[1..]);
        forall i | 0 <= i < b.consumed + 1 - (if b.out.Some? then 1 else 0)
          ensures IngressStep(t, arrivals[i]).out == []
        {
          if i > 0 {
            assert arrivals[i] == arrivals[1..][i - 1];
          }
        }
        if b.out.Some? {
          assert arrivals[b.consumed] == arrivals[1..][b.consumed - 1];
        }
      }
    }
  }
}
