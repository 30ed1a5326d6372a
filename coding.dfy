/** The wire codec of src/coding.rs. Every `Coder::encode` becomes a function from a
    value to the bytes it appends to the writer (an `Option` where encoding can fail),
    every `Coder::decode` a function from the unread input to the decoded value and the
    input that is left, or None where the Rust code returns an `io::Error`. */
module Coding {
  import opened Wrappers
  import opened Domain
  import opened Utf8

  // Tag bytes (src/coding.rs:15-30).
  const V4_MARK: byte := 1
  const V6_MARK: byte := 2
  const TCP_MARK: byte := 1
  const UDP_MARK: byte := 2
  const NORMAL_MARK: byte := 1
  const RESET_MARK: byte := 2
  const CLESS_MARK: byte := 3
  const TMOUT_MARK: byte := 4
  const ACTIVE_MARK: byte := 1
  const ENDED_MARK: byte := 2
  const FAILED_MARK: byte := 3
  const NAME_MARK: byte := 4
  const ADDR_MARK: byte := 1
  const ALIAS_MARK: byte := 2
  const SVC_MARK: byte := 3
  const TEXT_MARK: byte := 4

  /** A decoded value together with the input that follows it. */
  type Decoded<T> = Option<(T, seq<byte>)>

  // ===========================================================================
  // Fixed-width integers, big-endian, built from halves.

  function EncodeU8(x: byte): seq<byte> {
    [x]
  }

  function DecodeU8(s: seq<byte>): Decoded<byte> {
    if |s| == 0 then None else Some((s[0], s[1..]))
  }

  function EncodeU16(x: u16): seq<byte> {
    EncodeU8(x / 0x100) + EncodeU8(x % 0x100)
  }

  function DecodeU16(s: seq<byte>): Decoded<u16> {
    var hi :- DecodeU8(s);
    var lo :- DecodeU8(hi.1);
    Some((hi.0 * 0x100 + lo.0, lo.1))
  }

  function EncodeU32(x: u32): seq<byte> {
    EncodeU16(x / 0x1_0000) + EncodeU16(x % 0x1_0000)
  }

  function DecodeU32(s: seq<byte>): Decoded<u32> {
    var hi :- DecodeU16(s);
    var lo :- DecodeU16(hi.1);
    Some((hi.0 * 0x1_0000 + lo.0, lo.1))
  }

  function EncodeU64(x: u64): seq<byte> {
    EncodeU32(x / 0x1_0000_0000) + EncodeU32(x % 0x1_0000_0000)
  }

  function DecodeU64(s: seq<byte>): Decoded<u64> {
    var hi :- DecodeU32(s);
    var lo :- DecodeU32(hi.1);
    Some((hi.0 * 0x1_0000_0000 + lo.0, lo.1))
  }

  /** Independent reference reading of a byte string as a big-endian number. */
  function Pow256(n: nat): (p: nat)
    ensures p >= 1
  {
    if n == 0 then 1 else 0x100 * Pow256(n - 1)
  }

  function BigEndianValue(s: seq<byte>): (v: nat)
    ensures v < Pow256(|s|)
  {
    if |s| == 0 then 0 else BigEndianValue(s[..|s| - 1]) * 0x100 + s[|s| - 1]
  }

  lemma {:induction false} BigEndianConcat(a: seq<byte>, b: seq<byte>)
    ensures BigEndianValue(a + b) == BigEndianValue(a) * Pow256(|b|) + BigEndianValue(b)
    decreases |b|
  {
    if |b| > 0 {
      var b' := b[..|b| - 1];
      assert (a + b)[..|a + b| - 1] == a + b';
      BigEndianConcat(a, b');
      var x, p, y, z := BigEndianValue(a), Pow256(|b'|), BigEndianValue(b'), b[|b| - 1];
      assert BigEndianValue(a + b) == BigEndianValue(a + b') * 0x100 + z;
      assert BigEndianValue(b) == y * 0x100 + z;
      Regroup(x, p, y, z);
    } else {
      assert a + b == a;
    }
  }

  lemma Regroup(x: int, p: int, y: int, z: int)
    ensures (x * p + y) * 0x100 + z == x * (0x100 * p) + (y * 0x100 + z)
  {
  }

  /** u16 is written as exactly two bytes whose big-endian value is the number. */
  lemma U16BigEndian(x: u16)
    ensures |EncodeU16(x)| == 2 && BigEndianValue(EncodeU16(x)) == x
  {
    var e := EncodeU16(x);
    assert e[..1] == [x / 0x100];
  }

  /** u32 is written as exactly four bytes, the high u16 half first. */
  lemma U32BigEndian(x: u32)
    ensures |EncodeU32(x)| == 4 && BigEndianValue(EncodeU32(x)) == x
  {
    U16BigEndian(x / 0x1_0000);
    U16BigEndian(x % 0x1_0000);
    BigEndianConcat(EncodeU16(x / 0x1_0000), EncodeU16(x % 0x1_0000));
  }

  /** u64 is written as exactly eight bytes, the high u32 half first. */
  lemma U64BigEndian(x: u64)
    ensures |EncodeU64(x)| == 8 && BigEndianValue(EncodeU64(x)) == x
  {
    U32BigEndian(x / 0x1_0000_0000);
    U32BigEndian(x % 0x1_0000_0000);
    BigEndianConcat(EncodeU32(x / 0x1_0000_0000), EncodeU32(x % 0x1_0000_0000));
  }

  lemma U16RoundTrip(x: u16, rest: seq<byte>)
    ensures DecodeU16(EncodeU16(x) + rest) == Some((x, rest))
  {
    assert (EncodeU16(x) + rest)[1..][1..] == rest;
  }

  lemma U32RoundTrip(x: u32, rest: seq<byte>)
    ensures DecodeU32(EncodeU32(x) + rest) == Some((x, rest))
  {
    var hi, lo := x / 0x1_0000, x % 0x1_0000;
    assert EncodeU32(x) + rest == EncodeU16(hi) + (EncodeU16(lo) + rest);
    U16RoundTrip(hi, EncodeU16(lo) + rest);
    U16RoundTrip(lo, rest);
  }

  lemma U64RoundTrip(x: u64, rest: seq<byte>)
    ensures DecodeU64(EncodeU64(x) + rest) == Some((x, rest))
  {
    var hi, lo := x / 0x1_0000_0000, x % 0x1_0000_0000;
    assert EncodeU64(x) + rest == EncodeU32(hi) + (EncodeU32(lo) + rest);
    U32RoundTrip(hi, EncodeU32(lo) + rest);
    U32RoundTrip(lo, rest);
  }

  /** Reading a u16 needs two bytes and yields their big-endian value; it fails only
      when the input runs out. */
  lemma DecodeU16Spec(s: seq<byte>)
    ensures DecodeU16(s).Some? <==> |s| >= 2
    ensures |s| >= 2 ==> DecodeU16(s) == Some((BigEndianValue(s[..2]), s[2..]))
  {
    if |s| >= 2 {
      assert s[..2][..1] == [s[0]];
      assert s[1..][1..] == s[2..];
    }
  }

  lemma DecodeU32Spec(s: seq<byte>)
    ensures DecodeU32(s).Some? <==> |s| >= 4
    ensures |s| >= 4 ==> DecodeU32(s) == Some((BigEndianValue(s[..4]), s[4..]))
  {
    DecodeU16Spec(s);
    if |s| >= 2 {
      DecodeU16Spec(s[2..]);
      if |s| >= 4 {
        assert s[..4] == s[..2] + s[2..][..2];
        assert s[2..][2..] == s[4..];
        BigEndianConcat(s[..2], s[2..][..2]);
      }
    }
  }

  lemma DecodeU64Spec(s: seq<byte>)
    ensures DecodeU64(s).Some? <==> |s| >= 8
    ensures |s| >= 8 ==> DecodeU64(s) == Some((BigEndianValue(s[..8]), s[8..]))
  {
    DecodeU32Spec(s);
    if |s| >= 4 {
      DecodeU32Spec(s[4..]);
      if |s| >= 8 {
        assert s[..8] == s[..4] + s[4..][..4];
        assert s[4..][4..] == s[8..];
        BigEndianConcat(s[..4], s[4..][..4]);
      }
    }
  }

  // ===========================================================================
  // Length prefixes: the `Length` impls for u8, u16 and u32 (src/coding.rs:41-69).
  // `from_usize` is an `as` cast, which keeps the low bits of the length.

  datatype Width = W8 | W16 | W32

  function WidthLimit(w: Width): nat {
    match w
    case W8 => 0x100
    case W16 => 0x1_0000
    case W32 => 0x1_0000_0000
  }

  function EncodeLength(w: Width, n: nat): seq<byte> {
    match w
    case W8 => EncodeU8(n % 0x100)
    case W16 => EncodeU16(n % 0x1_0000)
    case W32 => EncodeU32(n % 0x1_0000_0000)
  }

  function DecodeLength(w: Width, s: seq<byte>): Decoded<nat> {
    match w
    case W8 => var l :- DecodeU8(s); Some((l.0 as nat, l.1))
    case W16 => var l :- DecodeU16(s); Some((l.0 as nat, l.1))
    case W32 => var l :- DecodeU32(s); Some((l.0 as nat, l.1))
  }

  /** A length prefix reads back as the length reduced modulo the width's range. */
  lemma LengthRoundTrip(w: Width, n: nat, rest: seq<byte>)
    ensures DecodeLength(w, EncodeLength(w, n) + rest) == Some((n % WidthLimit(w), rest))
  {
    match w
    case W8 => assert (EncodeLength(w, n) + rest)[1..] == rest;
    case W16 => U16RoundTrip(n % 0x1_0000, rest);
    case W32 => U32RoundTrip(n % 0x1_0000_0000, rest);
  }

  // ===========================================================================
  // CodingVec<T, Width> (src/coding.rs:451-467): a length prefix, then the elements.

  function EncodeElems<T>(xs: seq<T>, enc: T -> seq<byte>): seq<byte>
    decreases |xs|
  {
    if |xs| == 0 then [] else enc(xs[0]) + EncodeElems(xs[1..], enc)
  }

  /** Decodes exactly `n` elements one after the other, failing as soon as one fails. */
  function DecodeElems<T>(n: nat, dec: seq<byte> -> Decoded<T>, s: seq<byte>): (r: Decoded<seq<T>>)
    ensures r.Some? ==> |r.value.0| == n
    decreases n
  {
    if n == 0 then Some(([], s))
    else
      var x :- dec(s);
      var xs :- DecodeElems(n - 1, dec, x.1);
      Some(([x.0] + xs.0, xs.1))
  }

  /** One element read off the front, then the remaining `n - 1`. */
  lemma DecodeElemsStep<T>(n: nat, dec: seq<byte> -> Decoded<T>, s: seq<byte>)
    requires n > 0
    ensures dec(s).None? ==> DecodeElems(n, dec, s) == None
    ensures dec(s).Some? ==> DecodeElems(n, dec, s) == Prepend([dec(s).value.0], DecodeElems(n - 1, dec, dec(s).value.1))
  {
  }

  function EncodeVec<T>(w: Width, xs: seq<T>, enc: T -> seq<byte>): seq<byte> {
    EncodeLength(w, |xs|) + EncodeElems(xs, enc)
  }

  function DecodeVec<T>(w: Width, dec: seq<byte> -> Decoded<T>, s: seq<byte>): Decoded<seq<T>> {
    var l :- DecodeLength(w, s);
    DecodeElems(l.0, dec, l.1)
  }

  /** `dec` reads back every element of `xs` that `enc` writes, whatever follows it. */
  ghost predicate RoundTrips<T(!new)>(xs: seq<T>, enc: T -> seq<byte>, dec: seq<byte> -> Decoded<T>) {
    forall i, rest :: 0 <= i < |xs| ==> dec(enc(xs[i]) + rest) == Some((xs[i], rest))
  }

  lemma {:induction false} ElemsRoundTrip<T(!new)>(xs: seq<T>, enc: T -> seq<byte>, dec: seq<byte> -> Decoded<T>, rest: seq<byte>)
    requires RoundTrips(xs, enc, dec)
    ensures DecodeElems(|xs|, dec, EncodeElems(xs, enc) + rest) == Some((xs, rest))
    decreases |xs|
  {
    if |xs| > 0 {
      var tail := EncodeElems(xs[1..], enc) + rest;
      assert EncodeElems(xs, enc) + rest == enc(xs[0]) + tail;
      assert dec(enc(xs[0]) + tail) == Some((xs[0], tail));
      DecodeElemsStep(|xs|, dec, enc(xs[0]) + tail);
      assert RoundTrips(xs[1..], enc, dec) by {
        forall i, r | 0 <= i < |xs[1..]| ensures dec(enc(xs[1..][i]) + r) == Some((xs[1..][i], r)) {
          assert xs[1..][i] == xs[i + 1];
        }
      }
      ElemsRoundTrip(xs[1..], enc, dec, rest);
      assert [xs[0]] + xs[1..] == xs;
    } else {
      assert EncodeElems(xs, enc) + rest == rest;
    }
  }

  /** A CodingVec reads back exactly when its length fits the prefix width; a longer
      one is written with a truncated prefix and reads back as something else. */
  lemma VecRoundTrip<T(!new)>(w: Width, xs: seq<T>, enc: T -> seq<byte>, dec: seq<byte> -> Decoded<T>, rest: seq<byte>)
    requires RoundTrips(xs, enc, dec)
    ensures DecodeVec(w, dec, EncodeVec(w, xs, enc) + rest) == Some((xs, rest)) <==> |xs| < WidthLimit(w)
  {
    var body := EncodeElems(xs, enc) + rest;
    assert EncodeVec(w, xs, enc) + rest == EncodeLength(w, |xs|) + body;
    LengthRoundTrip(w, |xs|, body);
    ModIdentity(|xs|, WidthLimit(w));
    DecodeVecStep(w, dec, EncodeLength(w, |xs|) + body, |xs| % WidthLimit(w), body);
    if |xs| < WidthLimit(w) {
      ElemsRoundTrip(xs, enc, dec, rest);
    }
  }

  lemma DecodeVecStep<T>(w: Width, dec: seq<byte> -> Decoded<T>, s: seq<byte>, n: nat, body: seq<byte>)
    requires DecodeLength(w, s) == Some((n, body))
    ensures DecodeVec(w, dec, s) == DecodeElems(n, dec, body)
  {
  }

  /** The `for elem` loop of `CodingVec::encode` (src/coding.rs:452-458). */
  method WriteCodingVec<T>(w: Width, xs: seq<T>, enc: T -> seq<byte>) returns (out: seq<byte>)
    ensures out == EncodeVec(w, xs, enc)
  {
    out := EncodeLength(w, |xs|);
    for i := 0 to |xs|
      invariant out == EncodeLength(w, |xs|) + EncodeElems(xs[..i], enc)
    {
      EncodeElemsSnoc(xs[..i + 1], enc);
      assert xs[..i + 1][..i] == xs[..i];
      out := out + enc(xs[i]);
    }
    assert xs[..|xs|] == xs;
  }

  lemma {:induction false} EncodeElemsSnoc<T>(xs: seq<T>, enc: T -> seq<byte>)
    requires |xs| > 0
    ensures EncodeElems(xs, enc) == EncodeElems(xs[..|xs| - 1], enc) + enc(xs[|xs| - 1])
    decreases |xs|
  {
    if |xs| > 1 {
      EncodeElemsSnoc(xs[1..], enc);
      assert xs[1..][..|xs[1..]| - 1] == xs[..|xs| - 1][1..];
    }
  }

  /** The `try_fold` of `CodingVec::decode` (src/coding.rs:460-466): read the prefix,
      then push one decoded element per round until `len` elements are read. */
  method ReadCodingVec<T>(w: Width, dec: seq<byte> -> Decoded<T>, s: seq<byte>) returns (r: Decoded<seq<T>>)
    ensures r == DecodeVec(w, dec, s)
  {
    var l := DecodeLength(w, s);
    if l.None? {
      return None;
    }
    var len, input := l.value.0, l.value.1;
    var vec: seq<T> := [];
    var i := 0;
    PrependTwice([], [], DecodeElems(len, dec, input));
    while i < len
      invariant 0 <= i <= len && |vec| == i
      invariant DecodeElems(len, dec, l.value.1) == Prepend(vec, DecodeElems(len - i, dec, input))
    {
      var x := dec(input);
      DecodeElemsStep(len - i, dec, input);
      if x.None? {
        return None;
      }
      PrependTwice(vec, [x.value.0], DecodeElems(len - i - 1, dec, x.value.1));
      vec := vec + [x.value.0];
      input := x.value.1;
      i := i + 1;
    }
    assert vec + [] == vec;
    r := Some((vec, input));
  }

  function Prepend<T>(prefix: seq<T>, r: Decoded<seq<T>>): Decoded<seq<T>> {
    match r
    case None => None
    case Some((xs, rest)) => Some((prefix + xs, rest))
  }

  lemma PrependTwice<T>(a: seq<T>, b: seq<T>, r: Decoded<seq<T>>)
    ensures Prepend(a, Prepend(b, r)) == Prepend(a + b, r)
    ensures Prepend([], r) == r
  {
    if r.Some? {
      assert a + (b + r.value.0) == (a + b) + r.value.0;
      assert [] + r.value.0 == r.value.0;
    }
  }

  // ===========================================================================
  // Strings (src/coding.rs:421-429) and options (src/coding.rs:431-449).

  /** A String is a CodingVec<u8, u16> of its UTF-8 bytes. */
  function EncodeString(s: Str): seq<byte> {
    EncodeVec(W16, s, EncodeU8)
  }

  function DecodeString(s: seq<byte>): (r: Decoded<Str>)
    ensures r.Some? ==> ValidUtf8(r.value.0)
  {
    var v :- DecodeVec(W16, DecodeU8, s);
    if ValidUtf8(v.0) then Some(v) else None
  }

  lemma {:induction false} BytesEncodeAsThemselves(s: seq<byte>)
    ensures EncodeElems(s, EncodeU8) == s
    decreases |s|
  {
    if |s| > 0 {
      BytesEncodeAsThemselves(s[1..]);
      assert [s[0]] + s[1..] == s;
    }
  }

  lemma BytesRoundTrip(s: seq<byte>)
    ensures RoundTrips(s, EncodeU8, DecodeU8)
  {
    forall i, rest | 0 <= i < |s| ensures DecodeU8(EncodeU8(s[i]) + rest) == Some((s[i], rest)) {
      assert (EncodeU8(s[i]) + rest)[1..] == rest;
    }
  }

  predicate StringOk(s: Str) {
    |s| < 0x1_0000 && ValidUtf8(s)
  }

  /** A String is a two-byte big-endian length followed by its bytes. */
  lemma StringLayout(s: Str)
    ensures EncodeString(s) == EncodeU16(|s| % 0x1_0000) + s
  {
    BytesEncodeAsThemselves(s);
  }

  /** A string reads back exactly when it is under 65536 bytes and valid UTF-8. */
  lemma StringRoundTrip(s: Str, rest: seq<byte>)
    ensures DecodeString(EncodeString(s) + rest) == Some((s, rest)) <==> StringOk(s)
  {
    BytesRoundTrip(s);
    VecRoundTrip(W16, s, EncodeU8, DecodeU8, rest);
  }

  /** Bytes that are not UTF-8 are rejected even when the length prefix is right. */
  lemma InvalidUtf8Rejected(s: seq<byte>, rest: seq<byte>)
    requires |s| < 0x1_0000 && !ValidUtf8(s)
    ensures DecodeString(EncodeString(s) + rest) == None
  {
    BytesRoundTrip(s);
    VecRoundTrip(W16, s, EncodeU8, DecodeU8, rest);
  }

  function EncodeOption<T>(o: Option<T>, enc: T -> seq<byte>): seq<byte> {
    match o
    case Some(x) => EncodeU8(1) + enc(x)
    case None => EncodeU8(0)
  }

  function DecodeOption<T>(dec: seq<byte> -> Decoded<T>, s: seq<byte>): Decoded<Option<T>> {
    var mark :- DecodeU8(s);
    if mark.0 == 1 then
      var x :- dec(mark.1);
      Some((Some(x.0), x.1))
    else
      Some((None, mark.1))
  }

  lemma OptionRoundTrip<T>(o: Option<T>, enc: T -> seq<byte>, dec: seq<byte> -> Decoded<T>, rest: seq<byte>)
    requires o.Some? ==> dec(enc(o.value) + rest) == Some((o.value, rest))
    ensures DecodeOption(dec, EncodeOption(o, enc) + rest) == Some((o, rest))
  {
    assert (EncodeOption(o, enc) + rest)[1..] == if o.Some? then enc(o.value) + rest else rest;
  }

  /** Any flag byte other than 1, not only 0, reads as an absent value. */
  lemma OptionAbsentFlag<T>(dec: seq<byte> -> Decoded<T>, flag: byte, rest: seq<byte>)
    requires flag != 1
    ensures DecodeOption(dec, [flag] + rest) == Some((None, rest))
  {
    assert ([flag] + rest)[1..] == rest;
  }

  // ===========================================================================
  // Addresses (src/coding.rs:71-127).

  function EncodeIpv4(a: Ipv4Octets): seq<byte> {
    a
  }

  function DecodeIpv4(s: seq<byte>): Decoded<Ipv4Octets> {
    if |s| < 4 then None else Some((s[..4], s[4..]))
  }

  /** `Ipv6Addr::octets`: each segment big-endian. */
  function Ipv6Octets(a: Ipv6Segments): (o: seq<byte>)
    ensures |o| == 16
  {
    seq(16, i requires 0 <= i < 16 => if i % 2 == 0 then a[i / 2] / 0x100 else a[i / 2] % 0x100)
  }

  function EncodeIpv6(a: Ipv6Segments): seq<byte> {
    Ipv6Octets(a)
  }

  /** Reads 16 bytes and pairs them up into segments, `(b[2i] << 8) | b[2i+1]`. */
  function DecodeIpv6(s: seq<byte>): Decoded<Ipv6Segments> {
    if |s| < 16 then None
    else
      var segments: seq<u16> := seq(8, i requires 0 <= i < 8 => (s[2 * i] as int) * 0x100 + s[2 * i + 1] as int);
      Some((segments, s[16..]))
  }

  function IpAddrNumber(a: IpAddr): byte {
    match a
    case V4(_) => V4_MARK
    case V6(_) => V6_MARK
  }

  function EncodeIpAddr(a: IpAddr): seq<byte> {
    match a
    case V4(v4) => EncodeU8(V4_MARK) + EncodeIpv4(v4)
    case V6(v6) => EncodeU8(V6_MARK) + EncodeIpv6(v6)
  }

  /** Succeeds only on the family tag of the address it returns. */
  function DecodeIpAddr(s: seq<byte>): (r: Decoded<IpAddr>)
    ensures r.Some? ==> |s| > 0 && s[0] == IpAddrNumber(r.value.0)
  {
    var mark :- DecodeU8(s);
    if mark.0 == V4_MARK then
      var a :- DecodeIpv4(mark.1);
      Some((V4(a.0), a.1))
    else if mark.0 == V6_MARK then
      var a :- DecodeIpv6(mark.1);
      Some((V6(a.0), a.1))
    else None
  }

  lemma Ipv6RoundTrip(a: Ipv6Segments, rest: seq<byte>)
    ensures DecodeIpv6(EncodeIpv6(a) + rest) == Some((a, rest))
  {
    var s := EncodeIpv6(a) + rest;
    var segments: seq<u16> := seq(8, i requires 0 <= i < 8 => (s[2 * i] as int) * 0x100 + s[2 * i + 1] as int);
    forall i | 0 <= i < 8 ensures segments[i] == a[i] {
      assert s[2 * i] == a[i] / 0x100 && s[2 * i + 1] == a[i] % 0x100;
    }
    assert segments == a;
    assert s[16..] == rest;
  }

  /** IPv4 is tag 1 and 4 octets, IPv6 tag 2 and 16 octets; both read back. */
  lemma IpAddrRoundTrip(a: IpAddr, rest: seq<byte>)
    ensures |EncodeIpAddr(a)| == (if a.V4? then 5 else 17)
    ensures EncodeIpAddr(a)[0] == (if a.V4? then 1 else 2)
    ensures DecodeIpAddr(EncodeIpAddr(a) + rest) == Some((a, rest))
  {
    match a
    case V4(v4) =>
      assert (EncodeIpAddr(a) + rest)[1..] == v4 + rest;
      assert (v4 + rest)[..4] == v4 && (v4 + rest)[4..] == rest;
    case V6(v6) =>
      assert (EncodeIpAddr(a) + rest)[1..] == EncodeIpv6(v6) + rest;
      Ipv6RoundTrip(v6, rest);
  }

  /** A leading byte other than 1 or 2 is a decode error. */
  lemma IpAddrUnknownTag(s: seq<byte>)
    requires |s| > 0 && s[0] != V4_MARK && s[0] != V6_MARK
    ensures DecodeIpAddr(s) == None
  {
  }

  // ===========================================================================
  // Enumerations and small records (src/coding.rs:182-246).

  function ProtocolNumber(p: Protocol): byte {
    match p
    case Tcp => TCP_MARK
    case Udp => UDP_MARK
  }

  function EncodeProtocol(p: Protocol): seq<byte> {
    EncodeU8(ProtocolNumber(p))
  }

  function DecodeProtocol(s: seq<byte>): (r: Decoded<Protocol>)
    ensures r.Some? ==> |s| > 0 && s[0] == ProtocolNumber(r.value.0) && r.value.1 == s[1..]
  {
    var mark :- DecodeU8(s);
    if mark.0 == TCP_MARK then Some((Tcp, mark.1))
    else if mark.0 == UDP_MARK then Some((Udp, mark.1))
    else None
  }

  /** Tcp is tag 1, Udp tag 2; both read back and every other tag is refused. */
  lemma ProtocolTags(p: Protocol, rest: seq<byte>)
    ensures EncodeProtocol(p) == [if p == Tcp then 1 else 2]
    ensures DecodeProtocol(EncodeProtocol(p) + rest) == Some((p, rest))
    ensures forall b: byte :: b != 1 && b != 2 ==> DecodeProtocol([b] + rest) == None
  {
    assert (EncodeProtocol(p) + rest)[1..] == rest;
  }

  function ClosedNumber(c: Closed): byte {
    match c
    case Normally => NORMAL_MARK
    case Reset => RESET_MARK
    case TimedOut => TMOUT_MARK
    case Connectionless => CLESS_MARK
  }

  function EncodeClosed(c: Closed): seq<byte> {
    EncodeU8(ClosedNumber(c))
  }

  /** `Closed::decode` knows the marks 1, 2 and 3 only. */
  function DecodeClosed(s: seq<byte>): (r: Decoded<Closed>)
    ensures r.Some? ==> |s| > 0 && s[0] == ClosedNumber(r.value.0) && r.value.1 == s[1..]
    ensures r.Some? ==> r.value.0 != TimedOut
  {
    var mark :- DecodeU8(s);
    if mark.0 == NORMAL_MARK then Some((Normally, mark.1))
    else if mark.0 == RESET_MARK then Some((Reset, mark.1))
    else if mark.0 == CLESS_MARK then Some((Connectionless, mark.1))
    else None
  }

  /** Normally=1, Reset=2, Connectionless=3 read back; TimedOut is written as 4, which
      the decoder refuses, as it does every other unknown tag. */
  lemma ClosedTags(c: Closed, rest: seq<byte>)
    ensures EncodeClosed(c) == [match c case Normally => 1 case Reset => 2 case Connectionless => 3 case TimedOut => 4]
    ensures DecodeClosed(EncodeClosed(c) + rest) == (if c == TimedOut then None else Some((c, rest)))
    ensures forall b: byte :: b < 1 || 3 < b ==> DecodeClosed([b] + rest) == None
  {
    assert (EncodeClosed(c) + rest)[1..] == rest;
  }

  function EncodeProblem(p: Problem): seq<byte> {
    EncodeU8(p.kind) + EncodeU8(p.code)
  }

  function DecodeProblem(s: seq<byte>): Decoded<Problem> {
    var kind :- DecodeU8(s);
    var code :- DecodeU8(kind.1);
    Some((Problem(kind.0, code.0), code.1))
  }

  lemma ProblemRoundTrip(p: Problem, rest: seq<byte>)
    ensures DecodeProblem(EncodeProblem(p) + rest) == Some((p, rest))
  {
    assert (EncodeProblem(p) + rest)[1..][1..] == rest;
  }

  // ===========================================================================
  // Timestamps (src/coding.rs:248-263): u64 seconds since the epoch, then u32 nanoseconds.

  /** Fails for instants before the epoch (`duration_since` returns an error). */
  function EncodeTime(t: SystemTime): (r: Option<seq<byte>>)
    ensures r.Some? <==> t >= 0
  {
    if t < 0 then None
    else Some(EncodeU64(t / NANOS_PER_SEC) + EncodeU32(t % NANOS_PER_SEC))
  }

  /** Decoding a timestamp panics once both integers are read: `Duration::new(secs, nanos)`
      panics when the whole seconds carried out of `nanos` overflow the u64 seconds, and
      adding the duration to `UNIX_EPOCH` panics once the seconds exceed what a signed
      64-bit count holds. Both happen exactly when the carried seconds reach 2^63. */
  predicate TimePanics(s: seq<byte>) {
    match DecodeU64(s)
    case None => false
    case Some((secs, s1)) =>
      match DecodeU32(s1)
      case None => false
      case Some((nanos, _)) => secs + nanos / NANOS_PER_SEC >= SECONDS_LIMIT
  }

  /** A short input is an error; a panicking one reads as None here, and `TimePanics`
      tells the two apart. */
  function DecodeTime(s: seq<byte>): (r: Decoded<SystemTime>)
    ensures r.Some? ==> r.value.0 >= 0
    ensures TimePanics(s) ==> r.None?
  {
    var secs :- DecodeU64(s);
    var nanos :- DecodeU32(secs.1);
    if secs.0 + nanos.0 / NANOS_PER_SEC >= SECONDS_LIMIT then None
    else
      DurationBound(secs.0, nanos.0);
      Some((secs.0 * NANOS_PER_SEC + nanos.0, nanos.1))
  }

  lemma DurationBound(secs: nat, nanos: nat)
    requires secs + nanos / NANOS_PER_SEC < SECONDS_LIMIT
    ensures secs * NANOS_PER_SEC + nanos < TIME_LIMIT
  {
    var carry := nanos / NANOS_PER_SEC;
    assert nanos == carry * NANOS_PER_SEC + nanos % NANOS_PER_SEC;
    assert secs * NANOS_PER_SEC + nanos == (secs + carry) * NANOS_PER_SEC + nanos % NANOS_PER_SEC;
    assert (secs + carry) * NANOS_PER_SEC <= (SECONDS_LIMIT - 1) * NANOS_PER_SEC;
  }

  /** A timestamp decode fails exactly when fewer than twelve bytes remain or when it
      panics. */
  lemma TimeDecodeOutcomes(s: seq<byte>)
    ensures DecodeTime(s).None? <==> |s| < 12 || TimePanics(s)
  {
    DecodeU64Spec(s);
    if |s| >= 8 {
      DecodeU32Spec(s[8..]);
    }
  }

  /** Twelve bytes: eight of whole seconds, four of nanoseconds within the second. */
  lemma TimeLayout(t: SystemTime)
    requires t >= 0
    ensures |EncodeTime(t).value| == 12
    ensures BigEndianValue(EncodeTime(t).value[..8]) == t / NANOS_PER_SEC
    ensures BigEndianValue(EncodeTime(t).value[8..]) == t % NANOS_PER_SEC
  {
    var e := EncodeTime(t).value;
    U64BigEndian(t / NANOS_PER_SEC);
    U32BigEndian(t % NANOS_PER_SEC);
    assert e[..8] == EncodeU64(t / NANOS_PER_SEC);
    assert e[8..] == EncodeU32(t % NANOS_PER_SEC);
  }

  lemma TimeRoundTrip(t: SystemTime, rest: seq<byte>)
    requires t >= 0
    ensures DecodeTime(EncodeTime(t).value + rest) == Some((t, rest))
  {
    var secs, nanos := t / NANOS_PER_SEC, t % NANOS_PER_SEC;
    assert EncodeTime(t).value + rest == EncodeU64(secs) + (EncodeU32(nanos) + rest);
    U64RoundTrip(secs, EncodeU32(nanos) + rest);
    U32RoundTrip(nanos, rest);
    assert nanos / NANOS_PER_SEC == 0;
  }

  // ===========================================================================
  // Endpoint, Connection, State (src/coding.rs:265-306).

  function EncodeEndpoint(e: Endpoint): seq<byte> {
    EncodeIpAddr(e.addr) + EncodeU16(e.port)
  }

  function DecodeEndpoint(s: seq<byte>): Decoded<Endpoint> {
    var addr :- DecodeIpAddr(s);
    var port :- DecodeU16(addr.1);
    Some((Endpoint(addr.0, port.0), port.1))
  }

  lemma EndpointRoundTrip(e: Endpoint, rest: seq<byte>)
    ensures DecodeEndpoint(EncodeEndpoint(e) + rest) == Some((e, rest))
  {
    assert EncodeEndpoint(e) + rest == EncodeIpAddr(e.addr) + (EncodeU16(e.port) + rest);
    IpAddrRoundTrip(e.addr, EncodeU16(e.port) + rest);
    U16RoundTrip(e.port, rest);
  }

  /** The interface index is written with a truncating `as u16` cast. */
  function EncodeConnection(c: Connection): seq<byte> {
    EncodeU16(c.interface % 0x1_0000) + EncodeEndpoint(c.src) + EncodeEndpoint(c.dst) + EncodeProtocol(c.protocol)
  }

  function DecodeConnection(s: seq<byte>): Decoded<Connection> {
    var interface :- DecodeU16(s);
    var src :- DecodeEndpoint(interface.1);
    var dst :- DecodeEndpoint(src.1);
    var protocol :- DecodeProtocol(dst.1);
    Some((Connection(interface.0, src.0, dst.0, protocol.0), protocol.1))
  }

  /** A connection reads back with its interface index reduced modulo 65536, so it
      reads back unchanged exactly when the index is below 65536. */
  lemma ConnectionRoundTrip(c: Connection, rest: seq<byte>)
    ensures DecodeConnection(EncodeConnection(c) + rest) == Some((c.(interface := c.interface % 0x1_0000), rest))
  {
    var p := EncodeProtocol(c.protocol) + rest;
    var d := EncodeEndpoint(c.dst) + p;
    var sr := EncodeEndpoint(c.src) + d;
    var i := c.interface % 0x1_0000;
    ConnectionLayout(c, rest);
    U16RoundTrip(i, sr);
    EndpointRoundTrip(c.src, d);
    EndpointRoundTrip(c.dst, p);
    ProtocolTags(c.protocol, rest);
    DecodeConnectionSteps(EncodeConnection(c) + rest, i, c.src, c.dst, c.protocol, sr, d, p, rest);
  }

  lemma ConnectionLayout(c: Connection, rest: seq<byte>)
    ensures EncodeConnection(c) + rest == EncodeU16(c.interface % 0x1_0000) + (EncodeEndpoint(c.src) + (EncodeEndpoint(c.dst) + (EncodeProtocol(c.protocol) + rest)))
  {
  }

  lemma DecodeConnectionSteps(s: seq<byte>, i: u16, src: Endpoint, dst: Endpoint, p: Protocol, s1: seq<byte>, s2: seq<byte>, s3: seq<byte>, rest: seq<byte>)
    requires DecodeU16(s) == Some((i, s1))
    requires DecodeEndpoint(s1) == Some((src, s2))
    requires DecodeEndpoint(s2) == Some((dst, s3))
    requires DecodeProtocol(s3) == Some((p, rest))
    ensures DecodeConnection(s) == Some((Connection(i, src, dst, p), rest))
  {
  }

  lemma ConnectionRoundTripExact(c: Connection, rest: seq<byte>)
    ensures DecodeConnection(EncodeConnection(c) + rest) == Some((c, rest)) <==> c.interface < 0x1_0000
  {
    ConnectionRoundTrip(c, rest);
    ModIdentity(c.interface, 0x1_0000);
  }

  lemma ModIdentity(n: nat, m: nat)
    requires m > 0
    ensures n % m == n <==> n < m
  {
  }

  predicate StateOk(st: State) {
    st.asOf >= 0 && st.connection.interface < 0x1_0000
  }

  function EncodeState(st: State): (r: Option<seq<byte>>)
    ensures r.Some? <==> st.asOf >= 0
  {
    var t :- EncodeTime(st.asOf);
    Some(t + EncodeConnection(st.connection))
  }

  function DecodeState(s: seq<byte>): Decoded<State> {
    var asOf :- DecodeTime(s);
    var connection :- DecodeConnection(asOf.1);
    Some((State(asOf.0, connection.0), connection.1))
  }

  lemma StateRoundTrip(st: State, rest: seq<byte>)
    requires StateOk(st)
    ensures DecodeState(EncodeState(st).value + rest) == Some((st, rest))
  {
    var c := EncodeConnection(st.connection) + rest;
    assert EncodeState(st).value + rest == EncodeTime(st.asOf).value + c;
    TimeRoundTrip(st.asOf, c);
    ConnectionRoundTripExact(st.connection, rest);
    DecodeStateSteps(EncodeState(st).value + rest, st.asOf, st.connection, c, rest);
  }

  lemma DecodeStateSteps(s: seq<byte>, t: SystemTime, c: Connection, s1: seq<byte>, rest: seq<byte>)
    requires DecodeTime(s) == Some((t, s1))
    requires DecodeConnection(s1) == Some((c, rest))
    ensures DecodeState(s) == Some((State(t, c), rest))
  {
  }

  // ===========================================================================
  // DNS side channel: Resolution and Name (src/coding.rs:308-367).

  function ResolutionNumber(r: Resolution): byte {
    match r
    case Address(_) => ADDR_MARK
    case Alias(_) => ALIAS_MARK
    case Service(_, _) => SVC_MARK
    case Text(_) => TEXT_MARK
  }

  /** One TXT blob: a CodingVec<u8, u8>. */
  function EncodeBlob(b: seq<byte>): seq<byte> {
    EncodeVec(W8, b, EncodeU8)
  }

  function DecodeBlob(s: seq<byte>): Decoded<seq<byte>> {
    DecodeVec(W8, DecodeU8, s)
  }

  /** What follows the tag byte, per variant. */
  function ResolutionBody(r: Resolution): seq<byte> {
    match r
    case Address(addr) => EncodeIpAddr(addr)
    case Alias(alias) => EncodeString(alias)
    case Service(name, port) => EncodeString(name) + EncodeOption(port, EncodeU16)
    case Text(texts) => EncodeVec(W8, texts, EncodeBlob)
  }

  function EncodeResolution(r: Resolution): seq<byte> {
    EncodeU8(ResolutionNumber(r)) + ResolutionBody(r)
  }

  function DecodeResolution(s: seq<byte>): (r: Decoded<Resolution>)
    ensures r.Some? ==> |s| > 0 && s[0] == ResolutionNumber(r.value.0)
  {
    var mark :- DecodeU8(s);
    if mark.0 == ADDR_MARK then
      var addr :- DecodeIpAddr(mark.1);
      Some((Address(addr.0), addr.1))
    else if mark.0 == ALIAS_MARK then
      var alias :- DecodeString(mark.1);
      Some((Alias(alias.0), alias.1))
    else if mark.0 == SVC_MARK then
      var name :- DecodeString(mark.1);
      var port :- DecodeOption(DecodeU16, name.1);
      Some((Service(name.0, port.0), port.1))
    else if mark.0 == TEXT_MARK then
      var texts :- DecodeVec(W8, DecodeBlob, mark.1);
      Some((Text(texts.0), texts.1))
    else None
  }

  predicate BlobsOk(texts: seq<seq<byte>>) {
    |texts| < 0x100 && forall i :: 0 <= i < |texts| ==> |texts[i]| < 0x100
  }

  predicate ResolutionOk(r: Resolution) {
    match r
    case Address(_) => true
    case Alias(alias) => StringOk(alias)
    case Service(name, _) => StringOk(name)
    case Text(texts) => BlobsOk(texts)
  }

  lemma BlobsRoundTrip(texts: seq<seq<byte>>)
    requires BlobsOk(texts)
    ensures RoundTrips(texts, EncodeBlob, DecodeBlob)
  {
    forall i, rest | 0 <= i < |texts| ensures DecodeBlob(EncodeBlob(texts[i]) + rest) == Some((texts[i], rest)) {
      BytesRoundTrip(texts[i]);
      VecRoundTrip(W8, texts[i], EncodeU8, DecodeU8, rest);
    }
  }

  lemma DecodeResolutionSteps(t: seq<byte>)
    ensures DecodeResolution([ADDR_MARK] + t) == (var a :- DecodeIpAddr(t); Some((Address(a.0), a.1)))
    ensures DecodeResolution([ALIAS_MARK] + t) == (var a :- DecodeString(t); Some((Alias(a.0), a.1)))
    ensures DecodeResolution([SVC_MARK] + t) == (var n :- DecodeString(t); var p :- DecodeOption(DecodeU16, n.1); Some((Service(n.0, p.0), p.1)))
    ensures DecodeResolution([TEXT_MARK] + t) == (var x :- DecodeVec(W8, DecodeBlob, t); Some((Text(x.0), x.1)))
  {
    assert ([ADDR_MARK] + t)[1..] == t;
    assert ([ALIAS_MARK] + t)[1..] == t;
    assert ([SVC_MARK] + t)[1..] == t;
    assert ([TEXT_MARK] + t)[1..] == t;
  }

  lemma ServiceRoundTrip(name: Str, port: Option<u16>, rest: seq<byte>)
    requires StringOk(name)
    ensures DecodeString(ResolutionBody(Service(name, port)) + rest) == Some((name, EncodeOption(port, EncodeU16) + rest))
    ensures DecodeOption(DecodeU16, EncodeOption(port, EncodeU16) + rest) == Some((port, rest))
  {
    var p := EncodeOption(port, EncodeU16) + rest;
    assert ResolutionBody(Service(name, port)) + rest == EncodeString(name) + p;
    StringRoundTrip(name, p);
    if port.Some? {
      U16RoundTrip(port.value, rest);
    }
    OptionRoundTrip(port, EncodeU16, DecodeU16, rest);
  }

  lemma ResolutionRoundTrip(r: Resolution, rest: seq<byte>)
    requires ResolutionOk(r)
    ensures DecodeResolution(EncodeResolution(r) + rest) == Some((r, rest))
  {
    var t := ResolutionBody(r) + rest;
    assert EncodeResolution(r) + rest == [ResolutionNumber(r)] + t;
    DecodeResolutionSteps(t);
    match r
    case Address(addr) =>
      IpAddrRoundTrip(addr, rest);
    case Alias(alias) =>
      StringRoundTrip(alias, rest);
    case Service(name, port) =>
      ServiceRoundTrip(name, port, rest);
    case Text(texts) =>
      BlobsRoundTrip(texts);
      VecRoundTrip(W8, texts, EncodeBlob, DecodeBlob, rest);
  }

  function EncodeName(n: Name): seq<byte> {
    EncodeString(n.name) + EncodeOption(n.address, EncodeResolution)
  }

  function DecodeName(s: seq<byte>): Decoded<Name> {
    var name :- DecodeString(s);
    var address :- DecodeOption(DecodeResolution, name.1);
    Some((Name(name.0, address.0), address.1))
  }

  predicate NameOk(n: Name) {
    StringOk(n.name) && (n.address.Some? ==> ResolutionOk(n.address.value))
  }

  lemma NameRoundTrip(n: Name, rest: seq<byte>)
    requires NameOk(n)
    ensures DecodeName(EncodeName(n) + rest) == Some((n, rest))
  {
    var a := EncodeOption(n.address, EncodeResolution) + rest;
    assert EncodeName(n) + rest == EncodeString(n.name) + a;
    StringRoundTrip(n.name, a);
    if n.address.Some? {
      ResolutionRoundTrip(n.address.value, rest);
    }
    OptionRoundTrip(n.address, EncodeResolution, DecodeResolution, rest);
  }

  // ===========================================================================
  // Message (src/coding.rs:369-419).

  function MessageNumber(m: Message): byte {
    match m
    case Active(_) => ACTIVE_MARK
    case Ended(_, _) => ENDED_MARK
    case Failed(_, _) => FAILED_MARK
    case Names(_, _) => NAME_MARK
  }

  /** The payload after the tag and the state: the variant's own fields. */
  function MessageTail(m: Message): seq<byte> {
    match m
    case Active(_) => []
    case Ended(_, closed) => EncodeClosed(closed)
    case Failed(_, problem) => EncodeProblem(problem)
    case Names(_, names) => EncodeVec(W8, names, EncodeName)
  }

  /** Fails exactly when the message's timestamp is before the epoch. */
  function EncodeMessage(m: Message): (r: Option<seq<byte>>)
    ensures r.Some? <==> m.state.asOf >= 0
    ensures r.Some? ==> |r.value| > 0 && r.value[0] == MessageNumber(m)
  {
    var st :- EncodeState(m.state);
    Some(EncodeU8(MessageNumber(m)) + st + MessageTail(m))
  }

  function DecodeMessage(s: seq<byte>): (r: Decoded<Message>)
    ensures r.Some? ==> |s| > 0 && s[0] == MessageNumber(r.value.0)
  {
    var mark :- DecodeU8(s);
    if mark.0 == ACTIVE_MARK then
      var state :- DecodeState(mark.1);
      Some((Active(state.0), state.1))
    else if mark.0 == ENDED_MARK then
      var state :- DecodeState(mark.1);
      var closed :- DecodeClosed(state.1);
      Some((Ended(state.0, closed.0), closed.1))
    else if mark.0 == FAILED_MARK then
      var state :- DecodeState(mark.1);
      var problem :- DecodeProblem(state.1);
      Some((Failed(state.0, problem.0), problem.1))
    else if mark.0 == NAME_MARK then
      var state :- DecodeState(mark.1);
      var names :- DecodeVec(W8, DecodeName, state.1);
      Some((Names(state.0, names.0), names.1))
    else None
  }

  /** The values the codec carries faithfully: a post-epoch timestamp, an interface
      index under 65536, no TimedOut, at most 255 names whose strings are under 65536
      bytes and whose TXT data has at most 255 blobs of at most 255 bytes. */
  predicate MessageOk(m: Message) {
    && StateOk(m.state)
    && (m.Ended? ==> m.closed != TimedOut)
    && (m.Names? ==> |m.names| < 0x100 && forall i :: 0 <= i < |m.names| ==> NameOk(m.names[i]))
  }

  lemma NamesRoundTrip(names: seq<Name>)
    requires forall i :: 0 <= i < |names| ==> NameOk(names[i])
    ensures RoundTrips(names, EncodeName, DecodeName)
  {
    forall i, rest | 0 <= i < |names| ensures DecodeName(EncodeName(names[i]) + rest) == Some((names[i], rest)) {
      NameRoundTrip(names[i], rest);
    }
  }

  /** The payload after the tag and the state, per variant. */
  lemma MessageSplit(m: Message, rest: seq<byte>)
    requires m.state.asOf >= 0
    ensures EncodeMessage(m).value + rest == [MessageNumber(m)] + (EncodeState(m.state).value + (MessageTail(m) + rest))
  {
    var st, tail := EncodeState(m.state).value, MessageTail(m);
    assert EncodeMessage(m).value == [MessageNumber(m)] + st + tail;
    Associative([MessageNumber(m)] + st, tail, rest);
    Associative([MessageNumber(m)], st, tail + rest);
  }

  lemma Associative(a: seq<byte>, b: seq<byte>, c: seq<byte>)
    ensures (a + b) + c == a + (b + c)
  {
  }

  /** After the tag and a state, each variant reads its own payload. */
  lemma DecodeActiveStep(t: seq<byte>, st: State, tail: seq<byte>)
    requires DecodeState(t) == Some((st, tail))
    ensures DecodeMessage([ACTIVE_MARK] + t) == Some((Active(st), tail))
  {
    assert ([ACTIVE_MARK] + t)[1..] == t;
  }

  lemma DecodeEndedStep(t: seq<byte>, st: State, tail: seq<byte>)
    requires DecodeState(t) == Some((st, tail))
    ensures DecodeMessage([ENDED_MARK] + t) == (var c :- DecodeClosed(tail); Some((Ended(st, c.0), c.1)))
  {
    assert ([ENDED_MARK] + t)[1..] == t;
  }

  lemma DecodeFailedStep(t: seq<byte>, st: State, tail: seq<byte>)
    requires DecodeState(t) == Some((st, tail))
    ensures DecodeMessage([FAILED_MARK] + t) == (var p :- DecodeProblem(tail); Some((Failed(st, p.0), p.1)))
  {
    assert ([FAILED_MARK] + t)[1..] == t;
  }

  lemma DecodeNamesStep(t: seq<byte>, st: State, tail: seq<byte>)
    requires DecodeState(t) == Some((st, tail))
    ensures DecodeMessage([NAME_MARK] + t) == (var ns :- DecodeVec(W8, DecodeName, tail); Some((Names(st, ns.0), ns.1)))
  {
    assert ([NAME_MARK] + t)[1..] == t;
  }

  /** Every message within the codec's limits reads back, leaving what follows it. */
  lemma MessageRoundTrip(m: Message, rest: seq<byte>)
    requires MessageOk(m)
    ensures EncodeMessage(m).Some?
    ensures DecodeMessage(EncodeMessage(m).value + rest) == Some((m, rest))
  {
    match m
    case Active(st) => ActiveRoundTrip(st, rest);
    case Ended(st, closed) => EndedRoundTrip(st, closed, rest);
    case Failed(st, problem) => FailedRoundTrip(st, problem, rest);
    case Names(st, names) => NamesMessageRoundTrip(st, names, rest);
  }

  lemma ActiveRoundTrip(st: State, rest: seq<byte>)
    requires StateOk(st)
    ensures DecodeMessage(EncodeMessage(Active(st)).value + rest) == Some((Active(st), rest))
  {
    var t := EncodeState(st).value + rest;
    assert EncodeMessage(Active(st)).value + rest == [ACTIVE_MARK] + t;
    StateRoundTrip(st, rest);
    DecodeActiveStep(t, st, rest);
  }

  lemma EndedRoundTrip(st: State, closed: Closed, rest: seq<byte>)
    requires StateOk(st) && closed != TimedOut
    ensures DecodeMessage(EncodeMessage(Ended(st, closed)).value + rest) == Some((Ended(st, closed), rest))
  {
    var m := Ended(st, closed);
    MessageSplit(m, rest);
    StateRoundTrip(st, MessageTail(m) + rest);
    EndedTail(EncodeState(st).value + (MessageTail(m) + rest), st, closed, rest);
  }

  lemma FailedRoundTrip(st: State, problem: Problem, rest: seq<byte>)
    requires StateOk(st)
    ensures DecodeMessage(EncodeMessage(Failed(st, problem)).value + rest) == Some((Failed(st, problem), rest))
  {
    var m := Failed(st, problem);
    MessageSplit(m, rest);
    StateRoundTrip(st, MessageTail(m) + rest);
    FailedTail(EncodeState(st).value + (MessageTail(m) + rest), st, problem, rest);
  }

  lemma NamesMessageRoundTrip(st: State, names: seq<Name>, rest: seq<byte>)
    requires StateOk(st)
    requires |names| < 0x100 && forall i :: 0 <= i < |names| ==> NameOk(names[i])
    ensures DecodeMessage(EncodeMessage(Names(st, names)).value + rest) == Some((Names(st, names), rest))
  {
    var m := Names(st, names);
    MessageSplit(m, rest);
    StateRoundTrip(st, MessageTail(m) + rest);
    NamesTail(EncodeState(st).value + (MessageTail(m) + rest), st, names, rest);
  }

  lemma EndedTail(t: seq<byte>, st: State, closed: Closed, rest: seq<byte>)
    requires closed != TimedOut
    requires DecodeState(t) == Some((st, EncodeClosed(closed) + rest))
    ensures DecodeMessage([ENDED_MARK] + t) == Some((Ended(st, closed), rest))
  {
    DecodeEndedStep(t, st, EncodeClosed(closed) + rest);
    ClosedTags(closed, rest);
  }

  lemma FailedTail(t: seq<byte>, st: State, problem: Problem, rest: seq<byte>)
    requires DecodeState(t) == Some((st, EncodeProblem(problem) + rest))
    ensures DecodeMessage([FAILED_MARK] + t) == Some((Failed(st, problem), rest))
  {
    DecodeFailedStep(t, st, EncodeProblem(problem) + rest);
    ProblemRoundTrip(problem, rest);
  }

  lemma NamesTail(t: seq<byte>, st: State, names: seq<Name>, rest: seq<byte>)
    requires |names| < 0x100 && forall i :: 0 <= i < |names| ==> NameOk(names[i])
    requires DecodeState(t) == Some((st, EncodeVec(W8, names, EncodeName) + rest))
    ensures DecodeMessage([NAME_MARK] + t) == Some((Names(st, names), rest))
  {
    DecodeNamesStep(t, st, EncodeVec(W8, names, EncodeName) + rest);
    NamesRoundTrip(names);
    VecRoundTrip(W8, names, EncodeName, DecodeName, rest);
  }

  /** An Ended(TimedOut) message is written but can never be read back. */
  lemma TimedOutMessageRejected(st: State, rest: seq<byte>)
    requires StateOk(st)
    ensures DecodeMessage(EncodeMessage(Ended(st, TimedOut)).value + rest) == None
  {
    var m := Ended(st, TimedOut);
    var tail := MessageTail(m) + rest;
    MessageSplit(m, rest);
    StateRoundTrip(st, tail);
    DecodeEndedStep(EncodeState(st).value + tail, st, tail);
    ClosedTags(TimedOut, rest);
  }

  /** A Name message with 256 or more names is written with a truncated count. */
  lemma TooManyNamesMisread(st: State, names: seq<Name>, rest: seq<byte>)
    requires StateOk(st) && |names| >= 0x100
    requires forall i :: 0 <= i < |names| ==> NameOk(names[i])
    ensures DecodeMessage(EncodeMessage(Names(st, names)).value + rest) != Some((Names(st, names), rest))
  {
    var m := Names(st, names);
    var tail := MessageTail(m) + rest;
    MessageSplit(m, rest);
    StateRoundTrip(st, tail);
    DecodeNamesStep(EncodeState(st).value + tail, st, tail);
    NamesRoundTrip(names);
    VecRoundTrip(W8, names, EncodeName, DecodeName, rest);
  }

  /** A leading byte that is not one of the four message tags is a decode error. */
  lemma MessageUnknownTag(s: seq<byte>)
    requires |s| > 0 && (s[0] == 0 || s[0] > NAME_MARK)
    ensures DecodeMessage(s) == None
  {
  }

  // ===========================================================================
  // Message decodes that panic.

  /** Every variant's tag is followed by its state, whose timestamp is read first: a
      known tag followed by a panicking timestamp panics the whole Message decode. */
  predicate MessagePanics(s: seq<byte>) {
    |s| > 0 && ACTIVE_MARK <= s[0] <= NAME_MARK && TimePanics(s[1..])
  }

  /** A panicking decode has no value in this model's decoder. */
  lemma MessagePanicsUndecoded(s: seq<byte>)
    requires MessagePanics(s)
    ensures DecodeMessage(s).None?
  {
    assert DecodeU8(s) == Some((s[0], s[1..]));
    assert DecodeState(s[1..]).None?;
  }

  /** The encoder never produces a panicking message: its seconds are below 2^63 and
      its nanoseconds below one second. */
  lemma EncodedMessageNeverPanics(m: Message, rest: seq<byte>)
    requires m.state.asOf >= 0
    ensures !MessagePanics(EncodeMessage(m).value + rest)
  {
    var t := EncodeTime(m.state.asOf).value;
    var after := EncodeConnection(m.state.connection) + (MessageTail(m) + rest);
    MessageSplit(m, rest);
    Associative(t, EncodeConnection(m.state.connection), MessageTail(m) + rest);
    assert (EncodeMessage(m).value + rest)[1..] == t + after;
    TimeRoundTrip(m.state.asOf, after);
  }

  /** An Active tag, u64::MAX seconds and one whole second of nanoseconds: the carry
      overflows in `Duration::new`. */
  lemma OverflowingTimestampPanics()
    ensures MessagePanics([ACTIVE_MARK, 0xFF, 0xFF, 0xFF, 0xFF, 0xFF, 0xFF, 0xFF, 0xFF, 0x3B, 0x9A, 0xCA, 0x00])
  {
    var s: seq<byte> := [0xFF, 0xFF, 0xFF, 0xFF, 0xFF, 0xFF, 0xFF, 0xFF, 0x3B, 0x9A, 0xCA, 0x00];
    DecodeU64Spec(s);
    DecodeU32Spec(s[8..]);
    BigEndianConcat(s[..4], s[4..8]);
  }
}
