/** internal/transports/swiftkcp/kcp.go, bridge: packets on a byte stream, each behind a four-byte length. */
module KcpFraming {
  import opened Bytes

  type packet = seq<byte>

  const MAX: nat := 65535

  /** binary.BigEndian.PutUint32 */
  function Header(n: nat): (h: seq<byte>)
    ensures |h| == 4
  {
    BigEndian(n, 4)
  }

  /** binary.BigEndian.Uint32 */
  function Length(h: seq<byte>): nat {
    Value(h)
  }

  lemma HeaderRoundTrip(n: nat)
    requires n <= MAX
    ensures Length(Header(n)) == n
  {
    assert Range(4) == 256 * Range(3) == 65536 * Range(2) == 16777216 * Range(1);
    BigEndianValue(n, 4);
  }

  /** A packet length on the wire: two zero octets, then the length, most significant octet first. */
  lemma HeaderOctets(n: nat)
    requires n <= 65535
    ensures var h := Header(n); h[0] == h[1] == 0 && n == 256 * (h[2] as int) + h[3] as int
  {
    assert BigEndian(n / 65536, 2) == BigEndian(n / 65536 / 256, 1) + [n / 65536 % 256];
    assert BigEndian(n / 256, 3) == BigEndian(n / 256 / 256, 2) + [n / 256 % 256];
  }

  lemma LengthRoundTrip(h: seq<byte>)
    requires |h| == 4
    ensures Header(Length(h)) == h
  {
    ValueBigEndian(h);
  }

  /** What the writer puts on the wire for packets read from the interface. */
  function Stream(ps: seq<packet>): seq<byte> {
    if ps == [] then [] else Header(|ps[0]|) + ps[0] + Stream(ps[1..])
  }

  /** The writing goroutine; the interface never yields more than its buffer holds. */
  method Write(ps: seq<packet>) returns (wire: seq<byte>)
    requires forall p | p in ps :: |p| <= MAX
    ensures wire == Stream(ps)
  {
    wire := [];
    for k := 0 to |ps|
      invariant wire == Stream(ps[..k])
    {
      var n := |ps[k]|;
      assert ps[..k + 1] == ps[..k] + [ps[k]];
      StreamConcat(ps[..k], [ps[k]]);
      OneFrame(ps[k]);
      wire := wire + Header(n);
      wire := wire + ps[k];
    }
    assert ps[..|ps|] == ps;
  }

  lemma OneFrame(p: packet)
    ensures Stream([p]) == Header(|p|) + p
  {
    assert [p][1..] == [];
  }

  /** Why the reading goroutine stops: the stream ends between frames, inside one, or has a bad length. */
  datatype Stop = AtBoundary | InsideFrame | BadLength(n: nat)

  datatype Reading = Reading(packets: seq<packet>, stop: Stop)

  function Parse(wire: seq<byte>): Reading
    decreases |wire|
  {
    if wire == [] then Reading([], AtBoundary)
    else if |wire| < 4 then Reading([], InsideFrame)
    else
      var n := Length(wire[..4]);
      if n == 0 || n > MAX then Reading([], BadLength(n))
      else if |wire| < 4 + n then Reading([], InsideFrame)
      else
        var rest := Parse(wire[4 + n..]);
        Reading([wire[4..4 + n]] + rest.packets, rest.stop)
  }

  /** The reader has delivered `out` and the rest reads as `rest`. */
  ghost predicate Continues(all: Reading, out: seq<packet>, rest: Reading) {
    all == Reading(out + rest.packets, rest.stop)
  }

  lemma ContinuesWith(all: Reading, out: seq<packet>, p: packet, rest: Reading)
    requires Continues(all, out, Reading([p] + rest.packets, rest.stop))
    ensures Continues(all, out + [p], rest)
  {
    assert out + ([p] + rest.packets) == (out + [p]) + rest.packets;
  }

  lemma ContinuesToEnd(all: Reading, out: seq<packet>, stop: Stop)
    requires Continues(all, out, Reading([], stop))
    ensures all == Reading(out, stop)
  {
  }

  /** The reading goroutine; `left` is what has not been read yet. */
  method Read(wire: seq<byte>) returns (out: seq<packet>, stop: Stop)
    ensures Reading(out, stop) == Parse(wire)
  {
    ghost var all := Parse(wire);
    out := [];
    var left := wire;
    while true
      invariant Continues(all, out, Parse(left))
      decreases |left|
    {
      if left == [] {
        stop := AtBoundary;
        break;
      }
      if |left| < 4 {
        stop := InsideFrame;
        break;
      }
      var n := Length(left[..4]);
      if n == 0 || n > MAX {
        stop := BadLength(n);
        break;
      }
      if |left| < 4 + n {
        stop := InsideFrame;
        break;
      }
      ContinuesWith(all, out, left[4..4 + n], Parse(left[4 + n..]));
      out := out + [left[4..4 + n]];
      left := left[4 + n..];
    }
    ContinuesToEnd(all, out, stop);
  }

  ghost predicate Sendable(ps: seq<packet>) {
    forall k | 0 <= k < |ps| :: 1 <= |ps[k]| <= MAX
  }

  lemma ParseFrame(p: packet, rest: seq<byte>)
    requires 1 <= |p| <= MAX
    ensures Parse(Header(|p|) + p + rest) == Reading([p] + Parse(rest).packets, Parse(rest).stop)
  {
    var w := Header(|p|) + p + rest;
    HeaderRoundTrip(|p|);
    assert w[..4] == Header(|p|) && w[4..4 + |p|] == p && w[4 + |p|..] == rest;
  }

  lemma StreamStep(p: packet, tail: seq<packet>, rest: seq<byte>)
    ensures Stream([p] + tail) + rest == Header(|p|) + p + (Stream(tail) + rest)
  {
    assert ([p] + tail)[1..] == tail;
  }

  /** Main result: the reader recovers exactly the packets that were written, whatever follows them on the wire. */
  lemma {:induction false} RoundTrip(ps: seq<packet>, rest: seq<byte>)
    requires Sendable(ps)
    ensures Parse(Stream(ps) + rest) == Reading(ps + Parse(rest).packets, Parse(rest).stop)
  {
    if ps == [] {
      assert Stream(ps) + rest == rest;
    } else {
      var p, tail := ps[0], ps[1..];
      assert ps == [p] + tail;
      StreamStep(p, tail, rest);
      assert Sendable(tail) by { assert forall k | 0 <= k < |tail| :: tail[k] == ps[k + 1]; }
      RoundTrip(tail, rest);
      ParseFrame(p, Stream(tail) + rest);
      assert [p] + (tail + Parse(rest).packets) == ps + Parse(rest).packets;
    }
  }

  lemma WholeStream(ps: seq<packet>)
    requires Sendable(ps)
    ensures Parse(Stream(ps)) == Reading(ps, AtBoundary)
  {
    RoundTrip(ps, []);
    assert Stream(ps) + [] == Stream(ps) && ps + [] == ps;
  }

  lemma {:induction false} StreamConcat(a: seq<packet>, b: seq<packet>)
    ensures Stream(a + b) == Stream(a) + Stream(b)
  {
    if a == [] {
      assert a + b == b;
    } else {
      assert (a + b)[1..] == a[1..] + b;
      StreamConcat(a[1..], b);
    }
  }

  lemma ZeroLength(rest: seq<byte>)
    ensures Parse(Header(0) + [] + rest) == Reading([], BadLength(0))
  {
    var w := Header(0) + [] + rest;
    assert w[..4] == Header(0);
    HeaderRoundTrip(0);
  }

  /** An empty packet stops the reader: everything before it arrives, nothing after it does. */
  lemma EmptyPacketStops(before: seq<packet>, after: seq<packet>)
    requires Sendable(before)
    ensures Parse(Stream(before + [[]] + after)) == Reading(before, BadLength(0))
  {
    var none: packet := [];
    var tail := [none] + after;
    assert before + [none] + after == before + tail;
    StreamConcat(before, tail);
    RoundTrip(before, Stream(tail));
    assert tail[1..] == after;
    ZeroLength(Stream(after));
    assert before + [] == before;
  }

  /** All that is written within the buffer size arrives exactly when no packet is empty. */
  lemma DeliveryExact(ps: seq<packet>)
    requires forall k | 0 <= k < |ps| :: |ps[k]| <= MAX
    ensures Parse(Stream(ps)) == Reading(ps, AtBoundary) <==> forall k | 0 <= k < |ps| :: ps[k] != []
  {
    if forall k | 0 <= k < |ps| :: ps[k] != [] {
      WholeStream(ps);
    } else {
      var k := FirstEmpty(ps);
      EmptyPacketStops(ps[..k], ps[k + 1..]);
      assert ps == ps[..k] + [[]] + ps[k + 1..];
    }
  }

  lemma FirstEmpty(ps: seq<packet>) returns (k: nat)
    requires exists k :: 0 <= k < |ps| && ps[k] == []
    requires forall k | 0 <= k < |ps| :: |ps[k]| <= MAX
    ensures k < |ps| && ps[k] == [] && Sendable(ps[..k])
  {
    k := 0;
    while ps[k] != []
      invariant k < |ps| && forall j | 0 <= j < k :: ps[j] != []
      invariant exists j :: k <= j < |ps| && ps[j] == []
      decreases |ps| - k
    {
      k := k + 1;
    }
  }

  /** A wire that begins with a well-formed frame. */
  lemma FrontFrame(wire: seq<byte>, n: nat)
    requires |wire| >= 4 && n == Length(wire[..4]) && 1 <= n <= MAX && 4 + n <= |wire|
    ensures wire == Header(n) + wire[4..4 + n] + wire[4 + n..]
  {
    LengthRoundTrip(wire[..4]);
    assert wire == wire[..4] + wire[4..4 + n] + wire[4 + n..];
  }

  lemma PrependFrame(p: packet, ps: seq<packet>, rest: seq<byte>)
    ensures Stream(ps) <= rest ==> Stream([p] + ps) <= Header(|p|) + p + rest
    ensures rest == Stream(ps) <==> Header(|p|) + p + rest == Stream([p] + ps)
  {
    StreamStep(p, ps, []);
    var h := Header(|p|) + p;
    assert Stream([p] + ps) == h + Stream(ps);
    assert (h + rest)[|h|..] == rest && (h + Stream(ps))[|h|..] == Stream(ps);
  }

  /** The packets are exactly the frames at the front of the wire, and the wire is nothing but those frames when the
      reader stops between frames. */
  ghost predicate Sound(wire: seq<byte>, r: Reading) {
    && Sendable(r.packets) && Stream(r.packets) <= wire
    && (r.stop.AtBoundary? <==> wire == Stream(r.packets))
  }

  lemma SoundStep(p: packet, rest: seq<byte>, r: Reading)
    requires 1 <= |p| <= MAX && Sound(rest, r)
    ensures Sound(Header(|p|) + p + rest, Reading([p] + r.packets, r.stop))
  {
    PrependFrame(p, r.packets, rest);
  }

  /** Whatever arrives. */
  lemma {:induction false} ReaderSound(wire: seq<byte>)
    ensures Sound(wire, Parse(wire))
    decreases |wire|
  {
    var n := if |wire| >= 4 then Length(wire[..4]) else 0;
    if 1 <= n <= MAX && 4 + n <= |wire| {
      FrontFrame(wire, n);
      ReaderSound(wire[4 + n..]);
      ParseFrame(wire[4..4 + n], wire[4 + n..]);
      SoundStep(wire[4..4 + n], wire[4 + n..], Parse(wire[4 + n..]));
    } else {
      assert Parse(wire).packets == [];
    }
  }

  /** Cutting the stream anywhere delivers a prefix of the packets. */
  lemma CutDeliversPrefix(ps: seq<packet>, k: nat)
    requires Sendable(ps) && k <= |Stream(ps)|
    ensures Parse(Stream(ps)[..k]).packets <= ps
  {
    var all := Stream(ps);
    var got := Parse(all[..k]).packets;
    ReaderSound(all[..k]);
    WholeStream(ps);
    PrefixOfStream(got, all);
  }

  lemma PrefixOfStream(got: seq<packet>, all: seq<byte>)
    requires Sendable(got) && Stream(got) <= all
    ensures got <= Parse(all).packets
  {
    var left := all[|Stream(got)|..];
    assert all == Stream(got) + left;
    RoundTrip(got, left);
  }
}
