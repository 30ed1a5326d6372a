/** The data model shared by the tracker, the codec, the transport and the server:
    the value types of src/observe.rs, with the total order Rust derives for them. */
module Domain {
  import opened Wrappers

  type byte = x: int | 0 <= x < 0x100
  type u16 = x: int | 0 <= x < 0x1_0000
  type u32 = x: int | 0 <= x < 0x1_0000_0000
  type u64 = x: int | 0 <= x < 0x1_0000_0000_0000_0000

  const NANOS_PER_SEC: int := 1_000_000_000

  /** A Unix `SystemTime` counts whole seconds from the epoch in a signed 64-bit integer. */
  const SECONDS_LIMIT: int := 0x8000_0000_0000_0000

  const TIME_LIMIT: int := SECONDS_LIMIT * NANOS_PER_SEC

  /** A wall-clock instant, in nanoseconds relative to the Unix epoch (negative before it). */
  type SystemTime = t: int | -TIME_LIMIT <= t < TIME_LIMIT

  /** The four octets of an IPv4 address, most significant first. */
  type Ipv4Octets = s: seq<byte> | |s| == 4 witness [0, 0, 0, 0]

  /** The eight 16-bit segments of an IPv6 address, most significant first. */
  type Ipv6Segments = s: seq<u16> | |s| == 8 witness [0, 0, 0, 0, 0, 0, 0, 0]

  datatype IpAddr = V4(v4: Ipv4Octets) | V6(v6: Ipv6Segments)

  datatype Endpoint = Endpoint(addr: IpAddr, port: u16)

  datatype HostPair = HostPair(src: IpAddr, dst: IpAddr)

  datatype Protocol = Tcp | Udp

  /** `interface` is a Rust `usize`: the index of the capture device. */
  datatype Connection = Connection(interface: nat, src: Endpoint, dst: Endpoint, protocol: Protocol)

  datatype State = State(asOf: SystemTime, connection: Connection)

  datatype Problem = Problem(kind: byte, code: byte)

  datatype Closed = Normally | Reset | TimedOut | Connectionless

  /** A Rust `String`, kept as its UTF-8 bytes. */
  type Str = seq<byte>

  datatype Resolution =
    | Address(addr: IpAddr)
    | Alias(alias: Str)
    | Service(target: Str, port: Option<u16>)
    | Text(texts: seq<seq<byte>>)

  datatype Name = Name(name: Str, address: Option<Resolution>)

  /** `Names` is the variant the source calls `Message::Name`. */
  datatype Message =
    | Active(state: State)
    | Ended(state: State, closed: Closed)
    | Failed(state: State, problem: Problem)
    | Names(state: State, names: seq<Name>)

  // ---------------------------------------------------------------------------
  // The order `#[derive(PartialOrd, Ord)]` gives these types: variants in
  // declaration order, then fields in declaration order, sequences
  // lexicographically.

  /** Lexicographic strict order on integer sequences (arrays and slices in Rust). */
  predicate LexLess(a: seq<int>, b: seq<int>)
    decreases |a|
  {
    if |a| == 0 then |b| > 0
    else if |b| == 0 then false
    else a[0] < b[0] || (a[0] == b[0] && LexLess(a[1..], b[1..]))
  }

  predicate IpLess(a: IpAddr, b: IpAddr) {
    match (a, b)
    case (V4(x), V4(y)) => LexLess(x, y)
    case (V4(_), V6(_)) => true
    case (V6(_), V4(_)) => false
    case (V6(x), V6(y)) => LexLess(x, y)
  }

  predicate EndpointLess(a: Endpoint, b: Endpoint) {
    IpLess(a.addr, b.addr) || (a.addr == b.addr && a.port < b.port)
  }

  predicate ProtocolLess(a: Protocol, b: Protocol) {
    a == Tcp && b == Udp
  }

  predicate ConnectionLess(a: Connection, b: Connection) {
    || a.interface < b.interface
    || (a.interface == b.interface && EndpointLess(a.src, b.src))
    || (a.interface == b.interface && a.src == b.src && EndpointLess(a.dst, b.dst))
    || (a.interface == b.interface && a.src == b.src && a.dst == b.dst && ProtocolLess(a.protocol, b.protocol))
  }

  lemma {:induction false} LexLessTrichotomy(a: seq<int>, b: seq<int>)
    ensures LexLess(a, b) || a == b || LexLess(b, a)
    ensures !(LexLess(a, b) && LexLess(b, a))
    decreases |a|
  {
    if |a| > 0 && |b| > 0 {
      LexLessTrichotomy(a[1..], b[1..]);
      if a[0] == b[0] && a[1..] == b[1..] {
        assert a == [a[0]] + a[1..] && b == [b[0]] + b[1..];
      }
    }
  }

  lemma {:induction false} LexLessTransitive(a: seq<int>, b: seq<int>, c: seq<int>)
    requires LexLess(a, b) && LexLess(b, c)
    ensures LexLess(a, c)
    decreases |a|
  {
    if |a| > 0 && |b| > 0 && |c| > 0 && a[0] == b[0] == c[0] {
      LexLessTransitive(a[1..], b[1..], c[1..]);
    }
  }

  lemma IpLessTrichotomy(a: IpAddr, b: IpAddr)
    ensures IpLess(a, b) || a == b || IpLess(b, a)
    ensures !(IpLess(a, b) && IpLess(b, a))
  {
    match (a, b)
    case (V4(x), V4(y)) => LexLessTrichotomy(x, y);
    case (V6(x), V6(y)) => LexLessTrichotomy(x, y);
    case _ =>
  }

  lemma IpLessTransitive(a: IpAddr, b: IpAddr, c: IpAddr)
    requires IpLess(a, b) && IpLess(b, c)
    ensures IpLess(a, c)
  {
    match (a, b, c)
    case (V4(x), V4(y), V4(z)) => LexLessTransitive(x, y, z);
    case (V6(x), V6(y), V6(z)) => LexLessTransitive(x, y, z);
    case _ =>
  }

  lemma EndpointLessTrichotomy(a: Endpoint, b: Endpoint)
    ensures EndpointLess(a, b) || a == b || EndpointLess(b, a)
    ensures !(EndpointLess(a, b) && EndpointLess(b, a))
  {
    IpLessTrichotomy(a.addr, b.addr);
  }

  lemma EndpointLessTransitive(a: Endpoint, b: Endpoint, c: Endpoint)
    requires EndpointLess(a, b) && EndpointLess(b, c)
    ensures EndpointLess(a, c)
  {
    IpLessTrichotomy(a.addr, b.addr);
    IpLessTrichotomy(b.addr, c.addr);
    if IpLess(a.addr, b.addr) && IpLess(b.addr, c.addr) {
      IpLessTransitive(a.addr, b.addr, c.addr);
    }
  }

  /** The derived order on connections is a strict total order: exactly one of
      a < b, a == b, b < a holds. */
  lemma ConnectionLessTrichotomy(a: Connection, b: Connection)
    ensures ConnectionLess(a, b) || a == b || ConnectionLess(b, a)
    ensures !(ConnectionLess(a, b) && ConnectionLess(b, a))
  {
    EndpointLessTrichotomy(a.src, b.src);
    EndpointLessTrichotomy(a.dst, b.dst);
  }

  lemma ConnectionLessTransitive(a: Connection, b: Connection, c: Connection)
    requires ConnectionLess(a, b) && ConnectionLess(b, c)
    ensures ConnectionLess(a, c)
  {
    EndpointLessTrichotomy(a.src, b.src);
    EndpointLessTrichotomy(b.src, c.src);
    EndpointLessTrichotomy(a.dst, b.dst);
    EndpointLessTrichotomy(b.dst, c.dst);
    if EndpointLess(a.src, b.src) && EndpointLess(b.src, c.src) {
      EndpointLessTransitive(a.src, b.src, c.src);
    }
    if EndpointLess(a.dst, b.dst) && EndpointLess(b.dst, c.dst) {
      EndpointLessTransitive(a.dst, b.dst, c.dst);
    }
  }
}
