/** The client side of the sync protocol (src/sync.rs): one queue and one worker
    per destination, the hello each worker writes first on every connection, the
    fan-out of every framed message to all queues, and the worker's reconnect
    back-off. Sockets, threads and clocks are replaced by explicit inputs: a
    connect attempt is a clock reading and an outcome, a write is an outcome. */
module Sync {
  import opened Wrappers
  import opened Domain
  import opened Coding

  /** `RETRY_BACKOFF_WIN` (src/sync.rs:16): after this many failed connects every
      further attempt waits for the window. */
  const RETRY_TRIES: nat := 5
  /** The ten-second window, in nanoseconds. */
  const RETRY_WINDOW: nat := 10 * NANOS_PER_SEC

  /** The hello buffer: the identity in the String encoding (src/sync.rs:60-61). */
  function Hello(ident: Str): seq<byte> {
    EncodeString(ident)
  }

  /** The outer frame around every message: its bytes as a CodingVec<u8, u16>. */
  function Frame(bytes: seq<byte>): seq<byte> {
    EncodeVec(W16, bytes, EncodeU8)
  }

  /** A frame is a two-byte big-endian length (reduced modulo 65536) and the bytes. */
  lemma FrameLayout(bytes: seq<byte>)
    ensures Frame(bytes) == EncodeU16(|bytes| % 0x1_0000) + bytes
  {
    BytesEncodeAsThemselves(bytes);
  }

  /** The hello is laid out exactly like a frame holding the identity, so a reader of
      frames takes it as the first frame. */
  lemma HelloIsFrame(ident: Str)
    ensures Hello(ident) == Frame(ident)
    ensures Hello(ident) == EncodeU16(|ident| % 0x1_0000) + ident
  {
    FrameLayout(ident);
  }

  /** A frame reads back, with whatever follows it left over, exactly when its
      payload is under 65536 bytes. */
  lemma FrameRoundTrip(bytes: seq<byte>, rest: seq<byte>)
    ensures DecodeVec(W16, DecodeU8, Frame(bytes) + rest) == Some((bytes, rest)) <==> |bytes| < 0x1_0000
  {
    BytesRoundTrip(bytes);
    VecRoundTrip(W16, bytes, EncodeU8, DecodeU8, rest);
  }

  // ===========================================================================
  // The reconnect loop of `client_thread` (src/sync.rs:18-34).

  /** `a.saturating_duration_since(b)`. */
  function SaturatingSince(a: int, b: int): (d: nat)
    ensures d == 0 <==> a <= b
    ensures b + d >= a
  {
    if a > b then a - b else 0
  }

  /** One connect attempt as the environment answers it: the clock when the attempt
      begins and whether `TcpStream::connect` succeeds. */
  datatype Attempt = Attempt(at: int, ok: bool)

  /** What the worker does for one attempt: how long it sleeps first, and when it
      calls connect (the sleep is taken to last exactly as long as asked). */
  datatype Try = Try(slept: nat, at: int)

  /** The pause before the attempt made after `tries` failures, and the window start
      that attempt leaves behind (src/sync.rs:22-25). */
  function Pause(tries: nat, start: int, now: int): nat {
    if tries > RETRY_TRIES then SaturatingSince(start + RETRY_WINDOW, now) else 0
  }

  function NextStart(tries: nat, start: int, now: int): int {
    if tries > RETRY_TRIES then now + Pause(tries, start, now) else start
  }

  /** The window start when attempt `n` of a cycle begins (`n` connects have failed),
      the cycle having started at `clock`. */
  function WindowStart(clock: int, env: seq<Attempt>, n: nat): int
    requires n <= |env|
    decreases n
  {
    if n == 0 then clock
    else NextStart(n - 1, WindowStart(clock, env, n - 1), env[n - 1].at)
  }

  /** Attempt `n` of a cycle: the pause, and when connect is called. */
  function TryAt(clock: int, env: seq<Attempt>, n: nat): Try
    requires n < |env|
  {
    var now := env[n].at;
    var slept := Pause(n, WindowStart(clock, env, n), now);
    Try(slept, now + slept)
  }

  predicate Connected(env: seq<Attempt>) {
    exists k :: 0 <= k < |env| && env[k].ok
  }

  /** No earlier attempt moves the window start before the seventh attempt. */
  lemma {:induction false} WindowHeldEarly(clock: int, env: seq<Attempt>, n: nat)
    requires n <= |env| && n <= RETRY_TRIES + 1
    ensures WindowStart(clock, env, n) == clock
    decreases n
  {
    if n > 0 {
      WindowHeldEarly(clock, env, n - 1);
    }
  }

  /** A fresh cycle (`tries` starts at 0): the first six attempts are immediate, the
      seventh is the first that waits (until ten seconds after the cycle began), and
      from then on each attempt is made ten seconds or more after the previous one. */
  lemma Backoff(clock: int, env: seq<Attempt>)
    ensures forall k :: 0 <= k < |env| && k <= RETRY_TRIES ==> TryAt(clock, env, k) == Try(0, env[k].at)
    ensures |env| > RETRY_TRIES + 1 ==> TryAt(clock, env, RETRY_TRIES + 1).at >= clock + RETRY_WINDOW
    ensures forall k :: RETRY_TRIES + 1 < k < |env| ==> TryAt(clock, env, k).at >= TryAt(clock, env, k - 1).at + RETRY_WINDOW
  {
    if |env| > RETRY_TRIES + 1 {
      WindowHeldEarly(clock, env, RETRY_TRIES + 1);
    }
  }

  /** The inner `loop` of `client_thread` (src/sync.rs:19-34): `tries` starts at 0
      and counts failed connects; once it is past five, each attempt first sleeps
      until the window start plus ten seconds and moves the window start to the
      moment it wakes. The loop ends at the first successful connect; every attempt
      before it failed, and without one all attempts are made. */
  method Dial(clock: int, env: seq<Attempt>) returns (log: seq<Try>, connected: bool)
    ensures |log| <= |env|
    ensures forall k :: 0 <= k < |log| ==> log[k] == TryAt(clock, env, k)
    ensures forall k :: 0 <= k < |log| - 1 ==> !env[k].ok
    ensures connected == Connected(env)
    ensures connected ==> |log| > 0 && env[|log| - 1].ok
    ensures !connected ==> |log| == |env|
  {
    var tries: nat := 0;
    var start := clock;
    log := [];
    while tries < |env|
      invariant tries <= |env| && |log| == tries
      invariant start == WindowStart(clock, env, tries)
      invariant forall k :: 0 <= k < tries ==> log[k] == TryAt(clock, env, k)
      invariant forall k :: 0 <= k < tries ==> !env[k].ok
      decreases |env| - tries
    {
      var now := env[tries].at;
      var slept: nat := 0;
      if tries > RETRY_TRIES {
        slept := SaturatingSince(start + RETRY_WINDOW, now);
        start := now + slept;
      }
      log := log + [Try(slept, now + slept)];
      if env[tries].ok {
        return log, true;
      }
      tries := tries + 1;
    }
    connected := false;
  }

  // ===========================================================================
  // The drain loop of `client_thread` (src/sync.rs:35-42).

  /** The end of a drain: the frames written, the frame lost to a failed write (it
      has already left the queue), and what stays queued. */
  datatype DrainResult = DrainResult(wrote: seq<seq<byte>>, lost: Option<seq<byte>>, rest: seq<seq<byte>>)

  /** Frames leave `queue` in order, one write outcome each, until the queue is empty
      (the worker blocks in `recv`), the outcomes run out, or a write fails. */
  function Drained(queue: seq<seq<byte>>, results: seq<bool>): (d: DrainResult)
    ensures |d.wrote| <= |results| && |d.wrote| <= |queue|
    decreases |queue|
  {
    if |queue| == 0 || |results| == 0 then DrainResult([], None, queue)
    else if !results[0] then DrainResult([], Some(queue[0]), queue[1..])
    else
      var d := Drained(queue[1..], results[1..]);
      d.(wrote := [queue[0]] + d.wrote)
  }

  function LostFrames(lost: Option<seq<byte>>): seq<seq<byte>> {
    match lost
    case Some(f) => [f]
    case None => []
  }

  /** No frame is duplicated, dropped silently or reordered: the frames written, then
      the one lost, then the rest are the queue as it was; a frame is lost only at a
      failed write, and a drain that loses none stops only at an empty queue or the
      end of the outcomes. */
  lemma {:induction false} DrainFifo(queue: seq<seq<byte>>, results: seq<bool>)
    ensures var d := Drained(queue, results);
      && d.wrote + LostFrames(d.lost) + d.rest == queue
      && (d.lost.Some? <==> |d.wrote| < |results| && |d.wrote| < |queue| && !results[|d.wrote|])
      && (d.lost.None? ==> |d.rest| == 0 || |d.wrote| == |results|)
    decreases |queue|
  {
    if |queue| > 0 && |results| > 0 && results[0] {
      DrainFifo(queue[1..], results[1..]);
      var d' := Drained(queue[1..], results[1..]);
      assert [queue[0]] + d'.wrote + LostFrames(d'.lost) + d'.rest == [queue[0]] + (d'.wrote + LostFrames(d'.lost) + d'.rest);
    }
  }

  /** When every write succeeds, the whole queue is written in order. */
  lemma {:induction false} DrainAllWritten(queue: seq<seq<byte>>, results: seq<bool>)
    requires |results| >= |queue|
    requires forall i :: 0 <= i < |results| ==> results[i]
    ensures Drained(queue, results) == DrainResult(queue, None, [])
    decreases |queue|
  {
    if |queue| > 0 {
      DrainAllWritten(queue[1..], results[1..]);
      assert [queue[0]] + queue[1..] == queue;
    }
  }

  // ===========================================================================
  // Destinations, their queues and their workers.

  /** One destination: the shared hello, the frames waiting in its channel, whether
      the worker still holds the receiving end, whether the worker is connected with
      the hello written, and the writes the current connection has carried. */
  class Link {
    const addr: Endpoint
    const hello: seq<byte>
    var pending: seq<seq<byte>>
    var open: bool
    var online: bool
    var wire: seq<seq<byte>>

    /** A connected worker has written the hello before anything else. */
    ghost predicate Valid()
      reads this
    {
      online ==> |wire| > 0 && wire[0] == hello
    }

    constructor (addr: Endpoint, hello: seq<byte>)
      ensures this.addr == addr && this.hello == hello
      ensures pending == [] && open && !online && wire == []
      ensures Valid()
    {
      this.addr := addr;
      this.hello := hello;
      pending := [];
      open := true;
      online := false;
      wire := [];
    }

    /** One reconnect cycle (src/sync.rs:19-35): fresh counters, the attempts with
        their back-off, then the hello on the new connection. The queue is not
        touched, so a failed hello write dequeues nothing. */
    method Reconnect(clock: int, env: seq<Attempt>, helloOk: bool) returns (log: seq<Try>)
      requires !online
      modifies this`online, this`wire
      ensures |log| <= |env|
      ensures forall k :: 0 <= k < |log| ==> log[k] == TryAt(clock, env, k)
      ensures forall k :: 0 <= k < |log| - 1 ==> !env[k].ok
      ensures Connected(env) ==> |log| > 0 && env[|log| - 1].ok
      ensures !Connected(env) ==> |log| == |env|
      ensures online == (Connected(env) && helloOk)
      ensures wire == (if online then [hello] else [])
      ensures Valid()
    {
      var connected;
      log, connected := Dial(clock, env);
      if connected && helloOk {
        wire := [hello];
        online := true;
      } else {
        wire := [];
      }
    }

    /** The `while let` drain (src/sync.rs:36-41): frames leave the channel in order
        and are written until the channel is empty, the outcomes run out, or a write
        fails, which loses that frame and takes the worker offline. */
    method Drain(results: seq<bool>) returns (wrote: seq<seq<byte>>, lost: Option<seq<byte>>)
      requires online && Valid()
      modifies this`pending, this`online, this`wire
      ensures Drained(old(pending), results) == DrainResult(wrote, lost, pending)
      ensures online == lost.None?
      ensures wire == old(wire) + wrote
      ensures Valid()
    {
      wrote := [];
      lost := None;
      var i := 0;
      while |pending| > 0 && i < |results| && lost.None?
        invariant 0 <= i <= |results|
        invariant online == lost.None?
        invariant wire == old(wire) + wrote
        invariant lost.None? ==>
          (var d := Drained(pending, results[i..]); Drained(old(pending), results) == d.(wrote := wrote + d.wrote))
        invariant lost.Some? ==> Drained(old(pending), results) == DrainResult(wrote, lost, pending)
        decreases |pending|
      {
        var bytes := pending[0];
        assert results[i..][1..] == results[i + 1..];
        pending := pending[1..];
        if results[i] {
          wrote := wrote + [bytes];
          wire := wire + [bytes];
        } else {
          lost := Some(bytes);
          online := false;
        }
        i := i + 1;
      }
      assert lost.None? ==> Drained(pending, results[i..]).wrote == [];
    }
  }

  /** `Client`: the sending ends of the channels, one per destination. */
  class Client {
    var links: seq<Link>

    /** Every destination has its own channel. */
    ghost predicate Valid()
      reads this
    {
      forall i, j :: 0 <= i < j < |links| ==> links[i] != links[j]
    }

    constructor (links: seq<Link>)
      ensures this.links == links
    {
      this.links := links;
    }

    /** `send_frame` (src/sync.rs:81-88): frames the bytes once and appends that one
        buffer to every channel whose worker still listens; a closed channel is
        skipped and the rest still receive it. Nothing else about a destination
        changes. */
    method SendFrame(bytes: seq<byte>)
      requires Valid()
      modifies set l | l in links
      ensures forall i :: 0 <= i < |links| ==>
        links[i].pending == (if old(links[i].open) then old(links[i].pending) + [Frame(bytes)] else old(links[i].pending))
      ensures forall i :: 0 <= i < |links| ==>
        links[i].open == old(links[i].open) && links[i].online == old(links[i].online) && links[i].wire == old(links[i].wire)
    {
      var frame := Frame(bytes);
      for i := 0 to |links|
        invariant forall j :: 0 <= j < i ==>
          links[j].pending == (if old(links[j].open) then old(links[j].pending) + [frame] else old(links[j].pending))
        invariant forall j :: i <= j < |links| ==> links[j].pending == old(links[j].pending)
        invariant forall j :: 0 <= j < |links| ==>
          links[j].open == old(links[j].open) && links[j].online == old(links[j].online) && links[j].wire == old(links[j].wire)
      {
        var l := links[i];
        if l.open {
          l.pending := l.pending + [frame];
        }
      }
    }

    /** `send` (src/sync.rs:75-79): encodes the message once and frames it once. An
        encoding error is an `unwrap` panic in the caller; here it sends nothing and
        reports false. */
    method Send(m: Message) returns (sent: bool)
      requires Valid()
      modifies set l | l in links
      ensures sent <==> m.state.asOf >= 0
      ensures forall i :: 0 <= i < |links| ==>
        links[i].pending == (if sent && old(links[i].open) then old(links[i].pending) + [Frame(EncodeMessage(m).value)] else old(links[i].pending))
      ensures forall i :: 0 <= i < |links| ==>
        links[i].open == old(links[i].open) && links[i].online == old(links[i].online) && links[i].wire == old(links[i].wire)
    {
      var buffer := EncodeMessage(m);
      if buffer.None? {
        return false;
      }
      SendFrame(buffer.value);
      sent := true;
    }
  }

  /** `ClientConfig` (src/sync.rs:5-9, 47-57): the identity and the destinations. */
  class ClientConfig {
    const ident: Str
    var dests: seq<Endpoint>

    constructor (ident: Str)
      ensures this.ident == ident && dests == []
    {
      this.ident := ident;
      dests := [];
    }

    method Add(addr: Endpoint)
      modifies this`dests
      ensures dests == old(dests) + [addr]
    {
      dests := dests + [addr];
    }

    /** `build` (src/sync.rs:59-71): one hello for all, then one fresh channel and
        idle worker per destination, in the order the destinations were added. */
    method Build() returns (c: Client)
      ensures fresh(c) && c.Valid()
      ensures |c.links| == |dests|
      ensures forall i :: 0 <= i < |dests| ==>
        && fresh(c.links[i])
        && c.links[i].addr == dests[i] && c.links[i].hello == Hello(ident)
        && c.links[i].pending == [] && c.links[i].open && !c.links[i].online
        && c.links[i].wire == [] && c.links[i].Valid()
    {
      var hello := Hello(ident);
      var links: seq<Link> := [];
      for i := 0 to |dests|
        invariant |links| == i
        invariant forall j, k :: 0 <= j < k < i ==> links[j] != links[k]
        invariant forall j :: 0 <= j < i ==>
          && fresh(links[j])
          && links[j].addr == dests[j] && links[j].hello == hello
          && links[j].pending == [] && links[j].open && !links[j].online
          && links[j].wire == [] && links[j].Valid()
      {
        var l := new Link(dests[i], hello);
        links := links + [l];
      }
      c := new Client(links);
    }
  }
}
