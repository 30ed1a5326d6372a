/** The server side of the sync protocol (`client_thread` in src/main.rs): the first
    frame of a connection names the client, every later frame carries one Message,
    and each Active, Ended or Failed message becomes one row of the `state` table.
    The TCP stream is the sequence of bytes the peer sends before it closes; the
    database is the sequence of rows inserted. */
module Server {
  import opened Wrappers
  import opened Domain
  import opened Coding
  import opened Utf8
  import Sync

  /** The length a frame announces: its first two bytes, big-endian. */
  function FrameLength(s: seq<byte>): nat
    requires |s| >= 2
  {
    (s[0] as nat) * 0x100 + s[1] as nat
  }

  /** Reads one outer frame off the front of the stream: the announced length, then
      that many bytes; a stream too short for either yields no frame. */
  function ReadFrame(s: seq<byte>): (r: Decoded<seq<byte>>)
    ensures r.Some? ==> |s| >= 2 && s == s[..2] + r.value.0 + r.value.1
  {
    if |s| >= 2 && 2 + FrameLength(s) <= |s| then
      var n := FrameLength(s);
      assert s == s[..2] + s[2..2 + n] + s[2 + n..];
      Some((s[2..2 + n], s[2 + n..]))
    else None
  }

  /** `n` raw bytes are read exactly when there are that many. */
  lemma {:induction false} DecodeBytes(n: nat, t: seq<byte>)
    ensures DecodeElems(n, DecodeU8, t) == if n <= |t| then Some((t[..n], t[n..])) else None
    decreases n
  {
    if n > 0 {
      DecodeElemsStep(n, DecodeU8, t);
      if |t| > 0 {
        DecodeBytes(n - 1, t[1..]);
        if n <= |t| {
          assert [t[0]] + t[1..][..n - 1] == t[..n];
          assert t[1..][n - 1..] == t[n..];
        }
      }
    }
  }

  /** The frame reader is the codec's CodingVec<u8, u16> decoder. */
  lemma ReadFrameIsCodingVec(s: seq<byte>)
    ensures ReadFrame(s) == DecodeVec(W16, DecodeU8, s)
  {
    if |s| >= 2 {
      DecodeU16Spec(s);
      var n := FrameLength(s);
      DecodeBytes(n, s[2..]);
      if 2 + n <= |s| {
        assert s[2..][..n] == s[2..2 + n];
        assert s[2..][n..] == s[2 + n..];
      }
    }
  }

  // ===========================================================================
  // Rows of the `state` table (src/main.rs:195-239).

  /** The columns of one row. `instime` (the server's clock at insertion) is not
      modelled; `conntime` is the message's timestamp; `peer` is the client's socket
      address; NULL is None. */
  datatype Row = Row(
    conntime: SystemTime, ident: Str, peer: Endpoint,
    src: Endpoint, dst: Endpoint, proto: byte,
    close: Option<byte>, pkind: Option<byte>, pcode: Option<byte>)

  /** The row a message becomes (src/main.rs:203-239); a Name message has none. */
  function RowOf(ident: Str, peer: Endpoint, m: Message): Row
    requires !m.Names?
  {
    var conn := m.state.connection;
    Row(m.state.asOf, ident, peer, conn.src, conn.dst, ProtocolNumber(conn.protocol),
      if m.Ended? then Some(ClosedNumber(m.closed)) else None,
      if m.Failed? then Some(m.problem.kind) else None,
      if m.Failed? then Some(m.problem.code) else None)
  }

  /** Which columns are NULL: `close` is set exactly for Ended, `pkind` and `pcode`
      exactly for Failed, and `proto` always holds the protocol's wire number. */
  lemma NullColumns(ident: Str, peer: Endpoint, m: Message)
    requires !m.Names?
    ensures var r := RowOf(ident, peer, m);
      && (r.close.Some? <==> m.Ended?)
      && (r.pkind.Some? <==> m.Failed?) && (r.pcode.Some? <==> m.Failed?)
      && (m.Ended? ==> r.close == Some(ClosedNumber(m.closed)))
      && (m.Failed? ==> r.pkind == Some(m.problem.kind) && r.pcode == Some(m.problem.code))
      && (r.proto == TCP_MARK <==> m.state.connection.protocol == Tcp)
      && (r.proto == UDP_MARK <==> m.state.connection.protocol == Udp)
  {
  }

  /** The message with its capture interface cleared: the row has no column for it. */
  function WithoutInterface(m: Message): Message {
    m.(state := m.state.(connection := m.state.connection.(interface := 0)))
  }

  /** Rows lose only the interface: two messages give the same row exactly when they
      agree on everything else. */
  lemma RowDeterminesMessage(ident: Str, peer: Endpoint, m1: Message, m2: Message)
    requires !m1.Names? && !m2.Names?
    ensures RowOf(ident, peer, m1) == RowOf(ident, peer, m2) <==> WithoutInterface(m1) == WithoutInterface(m2)
  {
    if RowOf(ident, peer, m1) == RowOf(ident, peer, m2) {
      var p1 := m1.state.connection.protocol;
      var p2 := m2.state.connection.protocol;
      assert ProtocolNumber(p1) == ProtocolNumber(p2);
      assert p1 == p2;
      if m1.Ended? {
        assert ClosedNumber(m1.closed) == ClosedNumber(m2.closed);
        assert m1.closed == m2.closed;
      }
    }
  }

  // ===========================================================================
  // Ingestion (src/main.rs:180-247).

  /** How a connection's handler ends: no first frame, a first frame that is not
      UTF-8, the stream running out of whole frames, or a panic: the `todo!()` on a
      Name message, or a frame whose timestamp overflows while it is decoded. */
  datatype Outcome = IdentMissing | IdentInvalid | StreamEnded | Panicked

  /** The rows the frames of `s` give, and how the loop stops: frames are read until
      one cannot be; a frame whose timestamp panics while decoding stops everything;
      a frame whose payload does not otherwise start with a Message is skipped (bytes
      after the message are ignored); a Name message stops everything. */
  function Ingest(ident: Str, peer: Endpoint, s: seq<byte>): (r: (seq<Row>, Outcome))
    ensures r.1 == StreamEnded || r.1 == Panicked
    decreases |s|
  {
    match ReadFrame(s)
    case None => ([], StreamEnded)
    case Some((frame, rest)) =>
      if MessagePanics(frame) then ([], Panicked)
      else match DecodeMessage(frame)
      case None => Ingest(ident, peer, rest)
      case Some((m, _)) =>
        if m.Names? then ([], Panicked)
        else
          var more := Ingest(ident, peer, rest);
          ([RowOf(ident, peer, m)] + more.0, more.1)
  }

  /** The whole connection: the identity frame, then ingestion. */
  function Session(stream: seq<byte>, peer: Endpoint): (r: (seq<Row>, Outcome))
    ensures r.1 == IdentMissing <==> ReadFrame(stream).None?
    ensures r.1 == IdentInvalid <==> ReadFrame(stream).Some? && !ValidUtf8(ReadFrame(stream).value.0)
  {
    var first := ReadFrame(stream);
    if first.None? then ([], IdentMissing)
    else if !ValidUtf8(first.value.0) then ([], IdentInvalid)
    else Ingest(first.value.0, peer, first.value.1)
  }

  /** Rows are stored only once a valid identity has been read, and every row carries
      that identity and the connection's peer. */
  lemma SessionRows(stream: seq<byte>, peer: Endpoint)
    ensures var r := Session(stream, peer);
      |r.0| > 0 ==>
        && ReadFrame(stream).Some? && ValidUtf8(ReadFrame(stream).value.0)
        && forall i :: 0 <= i < |r.0| ==> r.0[i].ident == ReadFrame(stream).value.0 && r.0[i].peer == peer
  {
    var first := ReadFrame(stream);
    if first.Some? && ValidUtf8(first.value.0) {
      IngestIdent(first.value.0, peer, first.value.1);
    }
  }

  /** One frame of ingestion. */
  lemma IngestStep(ident: Str, peer: Endpoint, s: seq<byte>, frame: seq<byte>, rest: seq<byte>)
    requires ReadFrame(s) == Some((frame, rest))
    ensures MessagePanics(frame) ==> Ingest(ident, peer, s) == ([], Panicked)
    ensures !MessagePanics(frame) && DecodeMessage(frame).None? ==> Ingest(ident, peer, s) == Ingest(ident, peer, rest)
    ensures DecodeMessage(frame).Some? && DecodeMessage(frame).value.0.Names? ==> Ingest(ident, peer, s) == ([], Panicked)
    ensures !MessagePanics(frame) && DecodeMessage(frame).Some? && !DecodeMessage(frame).value.0.Names? ==>
      Ingest(ident, peer, s) == Prefixed([RowOf(ident, peer, DecodeMessage(frame).value.0)], Ingest(ident, peer, rest))
  {
  }

  /** Every row of a connection carries its identity and its peer. */
  lemma {:induction false} IngestIdent(ident: Str, peer: Endpoint, s: seq<byte>)
    ensures forall i :: 0 <= i < |Ingest(ident, peer, s).0| ==>
      Ingest(ident, peer, s).0[i].ident == ident && Ingest(ident, peer, s).0[i].peer == peer
    decreases |s|
  {
    var f := ReadFrame(s);
    if f.Some? {
      IngestStep(ident, peer, s, f.value.0, f.value.1);
      IngestIdent(ident, peer, f.value.1);
    }
  }

  function Prefixed(rows: seq<Row>, r: (seq<Row>, Outcome)): (seq<Row>, Outcome) {
    (rows + r.0, r.1)
  }

  /** `client_thread` (src/main.rs:180-247): the `while let` loop over frames, each
      decoded Active, Ended or Failed message inserted as a row. */
  method ClientThread(stream: seq<byte>, peer: Endpoint) returns (rows: seq<Row>, outcome: Outcome)
    ensures (rows, outcome) == Session(stream, peer)
  {
    var first := ReadFrame(stream);
    if first.None? {
      return [], IdentMissing;
    }
    var ident := first.value.0;
    if !ValidUtf8(ident) {
      return [], IdentInvalid;
    }
    var input := first.value.1;
    IngestIdent(ident, peer, input);
    rows := [];
    var rest := input;
    assert rows + Ingest(ident, peer, rest).0 == Ingest(ident, peer, rest).0;
    while true
      invariant Ingest(ident, peer, input) == Prefixed(rows, Ingest(ident, peer, rest))
      decreases |rest|
    {
      var frame := ReadFrame(rest);
      if frame.None? {
        assert rows + [] == rows;
        return rows, StreamEnded;
      }
      ghost var before := rest;
      rest := frame.value.1;
      IngestStep(ident, peer, before, frame.value.0, rest);
      if MessagePanics(frame.value.0) {
        assert rows + [] == rows;
        return rows, Panicked;
      }
      var message := DecodeMessage(frame.value.0);
      if message.Some? {
        var m := message.value.0;
        if m.Names? {
          assert rows + [] == rows;
          return rows, Panicked;
        }
        assert rows + ([RowOf(ident, peer, m)] + Ingest(ident, peer, rest).0) == (rows + [RowOf(ident, peer, m)]) + Ingest(ident, peer, rest).0;
        rows := rows + [RowOf(ident, peer, m)];
      }
    }
  }

  /** A frame whose timestamp overflows ends the handler: nothing after it is stored. */
  lemma PanickingFrameStops(ident: Str, peer: Endpoint, frame: seq<byte>, rest: seq<byte>)
    requires MessagePanics(frame) && |frame| < 0x1_0000
    ensures Ingest(ident, peer, Sync.Frame(frame) + rest) == ([], Panicked)
  {
    Sync.FrameRoundTrip(frame, rest);
    ReadFrameIsCodingVec(Sync.Frame(frame) + rest);
    IngestStep(ident, peer, Sync.Frame(frame) + rest, frame, rest);
  }

  // ===========================================================================
  // What a client's connection carries, read back.

  /** The messages a client sends after its hello, each encoded and framed as
      `Client::send` does. */
  function Stream(msgs: seq<Message>): seq<byte>
    requires AllDeliverable(msgs)
    decreases |msgs|
  {
    if |msgs| == 0 then []
    else
      Sync.Frame(EncodeMessage(msgs[0]).value) + Stream(msgs[1..])
  }

  /** A message the codec carries faithfully and whose encoding fits one frame. */
  predicate Deliverable(m: Message) {
    MessageOk(m) && |EncodeMessage(m).value| < 0x1_0000
  }

  predicate AllDeliverable(msgs: seq<Message>)
    decreases |msgs|
  {
    |msgs| == 0 || (Deliverable(msgs[0]) && AllDeliverable(msgs[1..]))
  }

  lemma {:induction false} AllDeliverableEach(msgs: seq<Message>)
    ensures AllDeliverable(msgs) <==> forall i :: 0 <= i < |msgs| ==> Deliverable(msgs[i])
    decreases |msgs|
  {
    if |msgs| > 0 {
      AllDeliverableEach(msgs[1..]);
      assert forall i :: 0 < i < |msgs| ==> msgs[i] == msgs[1..][i - 1];
    }
  }

  /** The rows the server is to store for these messages: one per message up to the
      first Name message, which stops the handler. */
  function Expected(ident: Str, peer: Endpoint, msgs: seq<Message>): (r: (seq<Row>, Outcome))
    ensures |r.0| <= |msgs|
    ensures r.1 == Panicked <==> exists i :: 0 <= i < |msgs| && msgs[i].Names?
    decreases |msgs|
  {
    if |msgs| == 0 then ([], StreamEnded)
    else if msgs[0].Names? then ([], Panicked)
    else
      var more := Expected(ident, peer, msgs[1..]);
      assert forall i :: 0 < i < |msgs| ==> msgs[i] == msgs[1..][i - 1];
      ([RowOf(ident, peer, msgs[0])] + more.0, more.1)
  }

  /** The frames of deliverable messages, followed by bytes that hold no further
      frame, are ingested as exactly the expected rows. */
  lemma {:induction false} IngestStream(ident: Str, peer: Endpoint, msgs: seq<Message>, tail: seq<byte>)
    requires AllDeliverable(msgs)
    requires ReadFrame(tail).None?
    ensures Ingest(ident, peer, Stream(msgs) + tail) == Expected(ident, peer, msgs)
    decreases |msgs|
  {
    if |msgs| == 0 {
      assert Stream(msgs) + tail == tail;
    } else {
      StreamCons(msgs, tail);
      IngestMessage(ident, peer, msgs[0], Stream(msgs[1..]) + tail);
      IngestStream(ident, peer, msgs[1..], tail);
    }
  }

  lemma StreamCons(msgs: seq<Message>, tail: seq<byte>)
    requires |msgs| > 0 && AllDeliverable(msgs)
    ensures Stream(msgs) + tail == Sync.Frame(EncodeMessage(msgs[0]).value) + (Stream(msgs[1..]) + tail)
  {
    Associative(Sync.Frame(EncodeMessage(msgs[0]).value), Stream(msgs[1..]), tail);
  }

  /** One deliverable message's frame, whatever follows it: a Name message stops
      the handler, any other becomes its row. */
  lemma IngestMessage(ident: Str, peer: Endpoint, m: Message, after: seq<byte>)
    requires Deliverable(m)
    ensures m.Names? ==> Ingest(ident, peer, Sync.Frame(EncodeMessage(m).value) + after) == ([], Panicked)
    ensures !m.Names? ==>
      Ingest(ident, peer, Sync.Frame(EncodeMessage(m).value) + after) == Prefixed([RowOf(ident, peer, m)], Ingest(ident, peer, after))
  {
    var b := EncodeMessage(m).value;
    Sync.FrameRoundTrip(b, after);
    ReadFrameIsCodingVec(Sync.Frame(b) + after);
    MessageRoundTrip(m, []);
    EncodedMessageNeverPanics(m, []);
    assert b + [] == b;
    IngestStep(ident, peer, Sync.Frame(b) + after, b, after);
  }

  /** End to end: a client whose identity is a valid string under 65536 bytes writes
      its hello and then the frames of deliverable messages; the server stores the
      expected rows under that identity. */
  lemma SessionOfClient(ident: Str, peer: Endpoint, msgs: seq<Message>, tail: seq<byte>)
    requires StringOk(ident)
    requires AllDeliverable(msgs)
    requires ReadFrame(tail).None?
    ensures Session(Sync.Hello(ident) + Stream(msgs) + tail, peer) == Expected(ident, peer, msgs)
  {
    var after := Stream(msgs) + tail;
    assert Sync.Hello(ident) + Stream(msgs) + tail == Sync.Frame(ident) + after by {
      Sync.HelloIsFrame(ident);
    }
    Sync.FrameRoundTrip(ident, after);
    ReadFrameIsCodingVec(Sync.Frame(ident) + after);
    IngestStream(ident, peer, msgs, tail);
  }
}
