/** The historical flow table of old_main.rs: flows keyed on a direction-independent
    canonical connection, an `active` table updated in place by the packet handlers,
    timed pruning of finished flows, and the diff of `active` against `last` as
    Add/Remove events that a remote copy of the table replays with `take_event`. */
module OldTracker {
  import opened Wrappers
  import opened Domain

  /** `time::Instant`, in nanoseconds on a monotonic clock. */
  type Instant = int

  /** `Instant - Instant` and `duration_since`: zero when the later instant is earlier. */
  function Elapsed(later: Instant, earlier: Instant): nat {
    if later >= earlier then later - earlier else 0
  }

  // ===========================================================================
  // Canonical connections (old_main.rs:84-87).

  function Swapped(c: Connection): Connection {
    c.(src := c.dst, dst := c.src)
  }

  /** Keeps `c` when its swapped copy orders below it, otherwise the swapped copy. */
  function Canonical(c: Connection): Connection {
    var alt := Swapped(c);
    if ConnectionLess(alt, c) then c else alt
  }

  /** A connection and its reverse have the same canonical form. */
  lemma CanonicalSymmetric(c: Connection)
    ensures Canonical(c) == Canonical(Swapped(c))
  {
    ConnectionLessTrichotomy(c, Swapped(c));
    assert Swapped(Swapped(c)) == c;
  }

  /** The canonical form is one of the two directions, keeps interface and protocol,
      and is the larger of the two under the derived order. */
  lemma CanonicalIsLarger(c: Connection)
    ensures Canonical(c) == c || Canonical(c) == Swapped(c)
    ensures Canonical(c).interface == c.interface && Canonical(c).protocol == c.protocol
    ensures !ConnectionLess(Canonical(c), c) && !ConnectionLess(Canonical(c), Swapped(c))
  {
    ConnectionLessTrichotomy(c, Swapped(c));
    ConnectionLessTrichotomy(c, c);
    ConnectionLessTrichotomy(Swapped(c), Swapped(c));
  }

  lemma CanonicalIdempotent(c: Connection)
    ensures Canonical(Canonical(c)) == Canonical(c)
  {
    CanonicalSymmetric(c);
    if Canonical(c) != c {
      assert Canonical(c) == Swapped(c);
      CanonicalSymmetric(Swapped(c));
      assert Swapped(Swapped(c)) == c;
      ConnectionLessTrichotomy(c, Swapped(c));
    }
  }

  // ===========================================================================
  // Flow states and events (old_main.rs:91-108).

  datatype CloseMode = Finish | Reset | NeverOpen

  datatype FlowState =
    | Active
    | Former(ended: Instant, how: CloseMode)
    | Unavailable(kind: byte, code: byte)

  datatype Event = Add(connection: Connection, state: FlowState) | Remove(connection: Connection)

  type Flows = map<Connection, FlowState>

  // Parsed packets, the input of the handlers (None inside where a parser fails).
  datatype TcpPacket = TcpPacket(source: u16, destination: u16, rst: bool, fin: bool)
  datatype UdpPacket = UdpPacket(source: u16, destination: u16)
  /** An ICMP packet: its kind and code, and its payload read as UDP and as TCP. */
  datatype IcmpPacket = IcmpPacket(kind: byte, code: byte, asUdp: Option<UdpPacket>, asTcp: Option<TcpPacket>)

  function ReversedHosts(h: HostPair): HostPair {
    HostPair(h.dst, h.src)
  }

  function ObservedFlow(interface: nat, hosts: HostPair, source: u16, destination: u16, protocol: Protocol): Connection {
    Connection(interface, Endpoint(hosts.src, source), Endpoint(hosts.dst, destination), protocol)
  }

  // ===========================================================================
  // The handlers as functions of the table.

  function TcpStep(active: Flows, interface: nat, tcp: Option<TcpPacket>, hosts: HostPair, now: Instant): Flows {
    match tcp
    case None => active
    case Some(p) =>
      var conn := Canonical(ObservedFlow(interface, hosts, p.source, p.destination, Tcp));
      if p.rst || p.fin then active[conn := Former(now, if p.rst then CloseMode.Reset else Finish)]
      else active[conn := FlowState.Active]
  }

  function UdpStep(active: Flows, interface: nat, udp: Option<UdpPacket>, hosts: HostPair, now: Instant): Flows {
    match udp
    case None => active
    case Some(p) => active[Canonical(ObservedFlow(interface, hosts, p.source, p.destination, Udp)) := Former(now, NeverOpen)]
  }

  function IcmpStep(active: Flows, interface: nat, icmp: Option<IcmpPacket>, hosts: HostPair): Flows {
    match icmp
    case None => active
    case Some(p) =>
      if p.asUdp.Some? then
        active[Canonical(ObservedFlow(interface, hosts, p.asUdp.value.source, p.asUdp.value.destination, Udp)) := Unavailable(p.kind, p.code)]
      else if p.asTcp.Some? then
        active[Canonical(ObservedFlow(interface, hosts, p.asTcp.value.source, p.asTcp.value.destination, Tcp)) := Unavailable(p.kind, p.code)]
      else active
  }

  /** A finished flow survives pruning while younger than `keep`; other states always do. */
  predicate Retained(s: FlowState, now: Instant, keep: nat) {
    match s
    case Former(ended, _) => Elapsed(now, ended) < keep
    case _ => true
  }

  function Pruned(active: Flows, now: Instant, keep: nat): Flows {
    map k | k in active && Retained(active[k], now, keep) :: active[k]
  }

  predicate IsAddFor(active: Flows, last: Flows, e: Event) {
    e.Add? && e.connection in active && e.state == active[e.connection] &&
    (e.connection !in last || last[e.connection] != e.state)
  }

  predicate IsRemoveFor(active: Flows, last: Flows, e: Event) {
    e.Remove? && e.connection in last && e.connection !in active
  }

  /** `take_event` on a table. */
  function TakeEvent(m: Flows, e: Event): Flows {
    match e
    case Add(connection, state) => m[connection := state]
    case Remove(connection) => m - {connection}
  }

  function TakeEvents(m: Flows, events: seq<Event>): Flows
    decreases |events|
  {
    if |events| == 0 then m else TakeEvents(TakeEvent(m, events[0]), events[1..])
  }

  // ===========================================================================
  // The table object (old_main.rs:111-129, 172-283).

  const KEEP: nat := 300 * NANOS_PER_SEC
  const PRUNE: nat := 1 * NANOS_PER_SEC

  class Connections {
    var active: Flows
    var last: Flows
    var keep: nat
    var lastPrune: Instant
    var prune: nat

    /** `Connections::default()`, at the instant `now`. */
    constructor (now: Instant)
      ensures active == map[] && last == map[]
      ensures keep == KEEP && prune == PRUNE && lastPrune == now
    {
      active := map[];
      last := map[];
      keep := KEEP;
      lastPrune := now;
      prune := PRUNE;
    }

    method ConnectionClosed(conn: Connection, how: CloseMode, now: Instant)
      modifies this`active
      ensures active == old(active)[conn := Former(now, how)]
    {
      active := active[conn := Former(now, how)];
    }

    method ConnectionOpen(conn: Connection)
      modifies this`active
      ensures active == old(active)[conn := FlowState.Active]
    {
      active := active[conn := FlowState.Active];
    }

    method ConnectionUnavail(conn: Connection, kind: byte, code: byte)
      modifies this`active
      ensures active == old(active)[conn := Unavailable(kind, code)]
    {
      active := active[conn := Unavailable(kind, code)];
    }

    method HandleTcp(interface: nat, tcp: Option<TcpPacket>, hosts: HostPair, now: Instant)
      modifies this`active
      ensures active == TcpStep(old(active), interface, tcp, hosts, now)
    {
      if tcp.Some? {
        var pkt := tcp.value;
        var conn := Canonical(Connection(interface, Endpoint(hosts.src, pkt.source), Endpoint(hosts.dst, pkt.destination), Tcp));
        if pkt.rst || pkt.fin {
          ConnectionClosed(conn, if pkt.rst then CloseMode.Reset else Finish, now);
        } else {
          ConnectionOpen(conn);
        }
      }
    }

    method HandleUdp(interface: nat, udp: Option<UdpPacket>, hosts: HostPair, now: Instant)
      modifies this`active
      ensures active == UdpStep(old(active), interface, udp, hosts, now)
    {
      if udp.Some? {
        var pkt := udp.value;
        var conn := Canonical(Connection(interface, Endpoint(hosts.src, pkt.source), Endpoint(hosts.dst, pkt.destination), Udp));
        ConnectionClosed(conn, NeverOpen, now);
      }
    }

    method HandleIcmp(interface: nat, icmp: Option<IcmpPacket>, hosts: HostPair)
      modifies this`active
      ensures active == IcmpStep(old(active), interface, icmp, hosts)
    {
      if icmp.Some? {
        var pkt := icmp.value;
        var conn: Option<Connection> := None;
        if pkt.asUdp.Some? {
          var trans := pkt.asUdp.value;
          conn := Some(Connection(interface, Endpoint(hosts.src, trans.source), Endpoint(hosts.dst, trans.destination), Udp));
        } else if pkt.asTcp.Some? {
          var trans := pkt.asTcp.value;
          conn := Some(Connection(interface, Endpoint(hosts.src, trans.source), Endpoint(hosts.dst, trans.destination), Tcp));
        }
        if conn.Some? {
          ConnectionUnavail(Canonical(conn.value), pkt.kind, pkt.code);
        }
      }
    }

    /** Prunes when a prune interval has passed since the last prune, then lists an
        Add for every entry of `active` that `last` lacks or holds differently and a
        Remove for every key of `last` that `active` lacks, Adds first. */
    method Update(now: Instant) returns (events: seq<Event>)
      modifies this`active, this`lastPrune
      ensures Elapsed(now, old(lastPrune)) >= prune ==> active == Pruned(old(active), now, keep) && lastPrune == now
      ensures Elapsed(now, old(lastPrune)) < prune ==> active == old(active) && lastPrune == old(lastPrune)
      ensures forall e :: e in events <==> IsAddFor(active, last, e) || IsRemoveFor(active, last, e)
      ensures forall i, j :: 0 <= i < j < |events| ==> events[i].connection != events[j].connection
      ensures forall i, j :: 0 <= i < j < |events| && events[i].Remove? ==> events[j].Remove?
    {
      if Elapsed(now, lastPrune) >= prune {
        lastPrune := now;
        active := map k | k in active && Retained(active[k], now, keep) :: active[k];
      }
      var adds := Additions();
      var removes := Removals();
      forall i | 0 <= i < |adds| ensures adds[i].Add? && adds[i].connection in active {
        assert adds[i] in adds;
        assert IsAddFor(active, last, adds[i]);
      }
      forall i | 0 <= i < |removes| ensures removes[i].Remove? && removes[i].connection !in active {
        assert removes[i] in removes;
      }
      events := adds + removes;
      assert forall i :: 0 <= i < |events| ==> events[i] == if i < |adds| then adds[i] else removes[i - |adds|];
    }

    /** The first loop of `update` (old_main.rs:256-265): an Add for every entry of
        `active` that `last` lacks or holds differently, each connection once. */
    method Additions() returns (adds: seq<Event>)
      ensures forall e :: e in adds <==> IsAddFor(active, last, e)
      ensures forall i, j :: 0 <= i < j < |adds| ==> adds[i].connection != adds[j].connection
    {
      adds := [];
      var todo := active.Keys;
      while todo != {}
        invariant todo <= active.Keys
        invariant forall e :: e in adds <==> IsAddFor(active, last, e) && e.connection !in todo
        invariant forall i :: 0 <= i < |adds| ==> adds[i].connection !in todo
        invariant forall i, j :: 0 <= i < j < |adds| ==> adds[i].connection != adds[j].connection
        decreases |todo|
      {
        var conn :| conn in todo;
        var state := active[conn];
        if conn in last {
          if last[conn] != state {
            adds := adds + [Add(conn, state)];
          }
        } else {
          adds := adds + [Add(conn, state)];
        }
        todo := todo - {conn};
      }
    }

    /** The second loop of `update` (old_main.rs:266-270): a Remove for every key of
        `last` that `active` lacks, each connection once. */
    method Removals() returns (removes: seq<Event>)
      ensures forall e :: e in removes <==> IsRemoveFor(active, last, e)
      ensures forall i, j :: 0 <= i < j < |removes| ==> removes[i].connection != removes[j].connection
    {
      removes := [];
      var rest := last.Keys;
      while rest != {}
        invariant rest <= last.Keys
        invariant forall e :: e in removes <==> IsRemoveFor(active, last, e) && e.connection !in rest
        invariant forall i :: 0 <= i < |removes| ==> removes[i].connection !in rest
        invariant forall i, j :: 0 <= i < j < |removes| ==> removes[i].connection != removes[j].connection
        decreases |rest|
      {
        var conn :| conn in rest;
        if conn !in active {
          removes := removes + [Remove(conn)];
        }
        rest := rest - {conn};
      }
    }

    method TakeEventInto(ev: Event)
      modifies this`active
      ensures active == TakeEvent(old(active), ev)
    {
      match ev
      case Add(connection, state) => active := active[connection := state];
      case Remove(connection) => active := active - {connection};
    }
  }

  // ===========================================================================
  // What the table promises.

  /** Both directions of a flow land on the same entry, whichever handler sees them. */
  lemma HandlersKeyOnCanonical(active: Flows, interface: nat, hosts: HostPair, now: Instant,
                               tcp: TcpPacket, udp: UdpPacket, icmp: IcmpPacket)
    ensures TcpStep(active, interface, Some(tcp), hosts, now) ==
            TcpStep(active, interface, Some(tcp.(source := tcp.destination, destination := tcp.source)), ReversedHosts(hosts), now)
    ensures UdpStep(active, interface, Some(udp), hosts, now) ==
            UdpStep(active, interface, Some(UdpPacket(udp.destination, udp.source)), ReversedHosts(hosts), now)
    ensures IcmpStep(active, interface, Some(icmp), hosts) ==
            IcmpStep(active, interface, Some(icmp.(asUdp := SwapUdp(icmp.asUdp), asTcp := SwapTcp(icmp.asTcp))), ReversedHosts(hosts))
  {
    var hs := ReversedHosts(hosts);
    var t := ObservedFlow(interface, hosts, tcp.source, tcp.destination, Tcp);
    CanonicalSymmetric(t);
    assert Swapped(t) == ObservedFlow(interface, hs, tcp.destination, tcp.source, Tcp);
    var u := ObservedFlow(interface, hosts, udp.source, udp.destination, Udp);
    CanonicalSymmetric(u);
    assert Swapped(u) == ObservedFlow(interface, hs, udp.destination, udp.source, Udp);
    if icmp.asUdp.Some? {
      var c := ObservedFlow(interface, hosts, icmp.asUdp.value.source, icmp.asUdp.value.destination, Udp);
      CanonicalSymmetric(c);
      assert Swapped(c) == ObservedFlow(interface, hs, icmp.asUdp.value.destination, icmp.asUdp.value.source, Udp);
    } else if icmp.asTcp.Some? {
      var c := ObservedFlow(interface, hosts, icmp.asTcp.value.source, icmp.asTcp.value.destination, Tcp);
      CanonicalSymmetric(c);
      assert Swapped(c) == ObservedFlow(interface, hs, icmp.asTcp.value.destination, icmp.asTcp.value.source, Tcp);
    }
  }

  function SwapUdp(u: Option<UdpPacket>): Option<UdpPacket> {
    match u
    case None => None
    case Some(p) => Some(UdpPacket(p.destination, p.source))
  }

  function SwapTcp(t: Option<TcpPacket>): Option<TcpPacket> {
    match t
    case None => None
    case Some(p) => Some(p.(source := p.destination, destination := p.source))
  }

  /** RST takes priority over FIN; UDP always records a never-opened former flow;
      each handler writes exactly the canonical entry and nothing else. */
  lemma HandlerEffects(active: Flows, interface: nat, hosts: HostPair, now: Instant, tcp: TcpPacket, udp: UdpPacket)
    ensures var c := Canonical(ObservedFlow(interface, hosts, tcp.source, tcp.destination, Tcp));
      TcpStep(active, interface, Some(tcp), hosts, now) ==
        active[c := if tcp.rst then Former(now, CloseMode.Reset) else if tcp.fin then Former(now, Finish) else FlowState.Active]
    ensures var c := Canonical(ObservedFlow(interface, hosts, udp.source, udp.destination, Udp));
      UdpStep(active, interface, Some(udp), hosts, now) == active[c := Former(now, NeverOpen)]
  {
  }

  /** Pruning removes exactly the finished flows that are at least `keep` old. */
  lemma PruneExact(active: Flows, now: Instant, keep: nat)
    ensures forall k :: k in Pruned(active, now, keep) <==>
      k in active && !(active[k].Former? && Elapsed(now, active[k].ended) >= keep)
    ensures forall k :: k in Pruned(active, now, keep) ==> Pruned(active, now, keep)[k] == active[k]
  {
  }

  /** Entries of distinct keys: replaying events touches each key at most once. */
  predicate DistinctKeys(events: seq<Event>) {
    forall i, j :: 0 <= i < j < |events| ==> events[i].connection != events[j].connection
  }

  /** Replaying distinct-key events: a key an event names takes that event's effect,
      every other key keeps its value. */
  lemma {:induction false} TakeEventsAt(m: Flows, events: seq<Event>, k: Connection)
    requires DistinctKeys(events)
    ensures forall i :: 0 <= i < |events| && events[i].connection == k ==>
      (k in TakeEvents(m, events) <==> events[i].Add?) &&
      (events[i].Add? ==> TakeEvents(m, events)[k] == events[i].state)
    ensures (forall i :: 0 <= i < |events| ==> events[i].connection != k) ==>
      (k in TakeEvents(m, events) <==> k in m) && (k in m ==> TakeEvents(m, events)[k] == m[k])
    decreases |events|
  {
    if |events| > 0 {
      var m' := TakeEvent(m, events[0]);
      assert DistinctKeys(events[1..]) by {
        forall i, j | 0 <= i < j < |events[1..]| ensures events[1..][i].connection != events[1..][j].connection {
          assert events[1..][i] == events[i + 1] && events[1..][j] == events[j + 1];
        }
      }
      TakeEventsAt(m', events[1..], k);
      forall j | 0 <= j < |events[1..]| ensures events[1..][j] == events[j + 1] {}
      if events[0].connection == k {
        forall j | 0 <= j < |events[1..]| ensures events[1..][j].connection != k {
          assert events[1..][j] == events[j + 1];
        }
      }
    }
  }

  /** A remote table holding what this one last sent becomes this one's `active`
      once it has taken every event of an update. */
  lemma ReplayYieldsActive(active: Flows, last: Flows, events: seq<Event>)
    requires forall e :: e in events <==> IsAddFor(active, last, e) || IsRemoveFor(active, last, e)
    requires DistinctKeys(events)
    ensures TakeEvents(last, events) == active
  {
    var r := TakeEvents(last, events);
    forall k | true
      ensures (k in r <==> k in active) && (k in active ==> r[k] == active[k])
    {
      TakeEventsAt(last, events, k);
      if k in active && (k !in last || last[k] != active[k]) {
        assert Add(k, active[k]) in events;
      } else if k in last && k !in active {
        assert Remove(k) in events;
      } else {
        forall i | 0 <= i < |events| ensures events[i].connection != k {
          assert events[i] in events;
        }
      }
    }
  }
}
