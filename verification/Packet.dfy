/** The wire format of a NetworkPacket (RawPacket with a two-byte size field):
    size, then a four-byte command, then the data. */

/** Bytes of an integer, least significant first, as the shifting loops of RawPacket see them. */
module Bytes {
  type Byte = b: int | 0 <= b < 256

  function Pow256(n: nat): (p: nat)
    ensures 1 <= p
  {
    if n == 0 then 1 else 256 * Pow256(n - 1)
  }

  function LittleBytes(v: nat, n: nat): (bs: seq<Byte>)
    ensures |bs| == n
  {
    if n == 0 then [] else [v % 256] + LittleBytes(v / 256, n - 1)
  }

  function FromLittle(bs: seq<Byte>): nat {
    if bs == [] then 0 else bs[0] + 256 * FromLittle(bs[1..])
  }

  function Reversed(bs: seq<Byte>): (r: seq<Byte>)
    ensures |r| == |bs|
  {
    if bs == [] then [] else Reversed(bs[1..]) + [bs[0]]
  }

  lemma {:induction false} FromLittleOfBytes(v: nat, n: nat)
    requires v < Pow256(n)
    ensures FromLittle(LittleBytes(v, n)) == v
  {
    if n == 0 {
    } else {
      FromLittleOfBytes(v / 256, n - 1);
      assert LittleBytes(v, n)[1..] == LittleBytes(v / 256, n - 1);
    }
  }

  lemma {:induction false} BytesOfFromLittle(bs: seq<Byte>)
    ensures FromLittle(bs) < Pow256(|bs|)
    ensures LittleBytes(FromLittle(bs), |bs|) == bs
  {
    if bs == [] {
    } else {
      BytesOfFromLittle(bs[1..]);
      assert FromLittle(bs) / 256 == FromLittle(bs[1..]) && FromLittle(bs) % 256 == bs[0];
    }
  }

  /** A right shift by i bytes. */
  function ShiftRight(v: nat, i: nat): nat {
    if i == 0 then v else ShiftRight(v / 256, i - 1)
  }

  /** Byte i of a value is what shifting it down i bytes and masking gives. */
  lemma {:induction false} ByteAt(v: nat, n: nat, i: nat)
    requires i < n
    ensures LittleBytes(v, n)[i] == ShiftRight(v, i) % 256
  {
    if i == 0 {
    } else {
      ByteAt(v / 256, n - 1, i - 1);
    }
  }

  /** Or-ing in one more shifted byte extends the value that has been read so far. */
  lemma {:induction false} FromLittleSnoc(bs: seq<Byte>, b: Byte)
    ensures FromLittle(bs + [b]) == FromLittle(bs) + b * Pow256(|bs|)
  {
    if bs == [] {
      assert [b][1..] == [];
    } else {
      assert (bs + [b])[1..] == bs[1..] + [b];
      FromLittleSnoc(bs[1..], b);
      assert 256 * (b * Pow256(|bs| - 1)) == b * Pow256(|bs|);
    }
  }

  lemma {:induction false} ReversedSnoc(bs: seq<Byte>, b: Byte)
    ensures Reversed(bs + [b]) == [b] + Reversed(bs)
  {
    if bs == [] {
      assert Reversed([b]) == Reversed([]) + [b];
    } else {
      assert (bs + [b])[1..] == bs[1..] + [b];
      ReversedSnoc(bs[1..], b);
    }
  }

  lemma {:induction false} ReversedTwice(bs: seq<Byte>)
    ensures Reversed(Reversed(bs)) == bs
  {
    if bs == [] {
    } else {
      ReversedTwice(bs[1..]);
      ReversedSnoc(Reversed(bs[1..]), bs[0]);
    }
  }
}

module Packets {
  import opened Bytes

  datatype Host = LittleEndian | BigEndian

  datatype Packet = Packet(socket: int, command: seq<Byte>, data: seq<Byte>)

  const SIZE_BYTES: nat := 2
  const COMMAND_BYTES: nat := 4
  /** The size field is a signed 16-bit integer. */
  const MAX_PAYLOAD: nat := 32767

  // Commands, as ASCII
  const SEND: seq<Byte> := [83, 69, 78, 68]
  const HEARTBEAT: seq<Byte> := [72, 65, 82, 84]
  const BLANK: seq<Byte> := [66, 76, 78, 75]
  const EMPTY: seq<Byte> := [69, 77, 84, 89]
  const DEADLINE_CROSSED: seq<Byte> := [68, 69, 68, 67]
  const SETUP_ACK: seq<Byte> := [65, 67, 75, 65]
  const SETUP_SYN: seq<Byte> := [65, 67, 75, 83]
  const SETUP_CLIENT_ID: seq<Byte> := [65, 67, 73, 68]
  const SETUP_JOIN: seq<Byte> := [74, 79, 73, 78]

  /** htons and htonl: they swap the bytes of an n-byte value on a little-endian host only. */
  function HostToNetwork(host: Host, v: nat, n: nat): nat {
    if host.LittleEndian? then FromLittle(Reversed(LittleBytes(v, n))) else v
  }

  /** ntohs and ntohl are the same swap. */
  function NetworkToHost(host: Host, v: nat, n: nat): nat {
    HostToNetwork(host, v, n)
  }

  lemma ConversionsInvert(host: Host, v: nat, n: nat)
    requires v < Pow256(n)
    ensures HostToNetwork(host, v, n) < Pow256(n)
    ensures NetworkToHost(host, HostToNetwork(host, v, n), n) == v
  {
    var r := Reversed(LittleBytes(v, n));
    BytesOfFromLittle(r);
    ReversedTwice(LittleBytes(v, n));
    FromLittleOfBytes(v, n);
  }

  /** An n-byte pattern read as a two's complement integer. */
  function Signed(v: nat, n: nat): int {
    if 2 * v < Pow256(n) then v else v - Pow256(n)
  }

  function Header(host: Host, size: nat): (h: seq<Byte>)
    ensures |h| == SIZE_BYTES
  {
    LittleBytes(HostToNetwork(host, size % Pow256(SIZE_BYTES), SIZE_BYTES), SIZE_BYTES)
  }

  function Payload(p: Packet): seq<Byte> {
    p.command + p.data
  }

  function Marshal(host: Host, p: Packet): seq<Byte> {
    Header(host, |Payload(p)|) + Payload(p)
  }

  /** What a reader takes the first two bytes of a frame to mean; the sign survives, and a negative
      size becomes an enormous one when the callers convert it to an unsigned type. */
  function WireSize(host: Host, header: seq<Byte>): int
    requires |header| == SIZE_BYTES
  {
    Signed(NetworkToHost(host, FromLittle(header), SIZE_BYTES), SIZE_BYTES)
  }

  function FromPayload(socket: int, payload: seq<Byte>): Packet
    requires COMMAND_BYTES <= |payload|
  {
    Packet(socket, payload[..COMMAND_BYTES], payload[COMMAND_BYTES..])
  }

  predicate WellFormed(p: Packet) {
    |p.command| == COMMAND_BYTES && |Payload(p)| <= MAX_PAYLOAD
  }

  predicate AllWellFormed(ps: seq<Packet>, socket: int) {
    forall p <- ps :: WellFormed(p) && p.socket == socket
  }

  /** The bytes of a list of packets sent one after the other. */
  function Stream(host: Host, ps: seq<Packet>): seq<Byte> {
    if ps == [] then [] else Marshal(host, ps[0]) + Stream(host, ps[1..])
  }

  /** RawPacket::Marshall */
  method Marshall(host: Host, p: Packet) returns (out: seq<Byte>)
    ensures out == Marshal(host, p) && |out| == SIZE_BYTES + |p.command| + |p.data|
    ensures out[SIZE_BYTES..SIZE_BYTES + |p.command|] == p.command && out[SIZE_BYTES + |p.command|..] == p.data
  {
    var packetSize := HostToNetwork(host, (|p.command| + |p.data|) % Pow256(SIZE_BYTES), SIZE_BYTES);
    var sizeBuffer: seq<Byte> := [];
    for i := 0 to SIZE_BYTES
      invariant sizeBuffer == LittleBytes(packetSize, SIZE_BYTES)[..i]
    {
      ByteAt(packetSize, SIZE_BYTES, i);
      sizeBuffer := sizeBuffer + [ShiftRight(packetSize, i) % 256];
    }
    out := sizeBuffer + p.command + p.data;
    assert out == sizeBuffer + (p.command + p.data);
    Slices(sizeBuffer, p.command, p.data);
  }

  /** RawPacket::ExtractPacketSizeFromBuffer; the or of bytes shifted to disjoint places is their sum. */
  method ExtractPacketSize(host: Host, buffer: seq<Byte>) returns (size: int)
    requires SIZE_BYTES <= |buffer|
    ensures size == WireSize(host, buffer[..SIZE_BYTES])
  {
    var bytesToRead: nat := 0;
    for i := 0 to SIZE_BYTES
      invariant bytesToRead == FromLittle(buffer[..i])
    {
      FromLittleSnoc(buffer[..i], buffer[i]);
      assert buffer[..i + 1] == buffer[..i] + [buffer[i]];
      bytesToRead := bytesToRead + buffer[i] * Pow256(i);
    }
    size := Signed(NetworkToHost(host, bytesToRead, SIZE_BYTES), SIZE_BYTES);
  }

  /** RawPacket::ExtractDataFromBuffer */
  method ExtractData(socket: int, payload: seq<Byte>) returns (p: Packet)
    requires COMMAND_BYTES <= |payload|
    ensures p.socket == socket && |p.command| == COMMAND_BYTES && Payload(p) == payload
    ensures p.command == payload[..COMMAND_BYTES] && p.data == payload[COMMAND_BYTES..]
  {
    var data: seq<Byte> := [];
    if |payload| > COMMAND_BYTES {
      data := payload[COMMAND_BYTES..];
    }
    p := Packet(socket, payload[..COMMAND_BYTES], data);
  }

  lemma PowTwo()
    ensures Pow256(SIZE_BYTES) == 65536
  {
    assert Pow256(2) == 256 * Pow256(1) == 256 * (256 * Pow256(0));
  }

  lemma HeaderRoundTrip(host: Host, size: nat)
    ensures WireSize(host, Header(host, size)) == Signed(size % 65536, SIZE_BYTES)
  {
    PowTwo();
    ConversionsInvert(host, size % 65536, SIZE_BYTES);
    FromLittleOfBytes(HostToNetwork(host, size % 65536, SIZE_BYTES), SIZE_BYTES);
  }

  lemma HeaderOfWireSize(host: Host, header: seq<Byte>)
    requires |header| == SIZE_BYTES && 0 <= WireSize(host, header)
    ensures WireSize(host, header) <= MAX_PAYLOAD
    ensures Header(host, WireSize(host, header)) == header
  {
    PowTwo();
    var v := FromLittle(header);
    var w := HostToNetwork(host, v, SIZE_BYTES);
    BytesOfFromLittle(header);
    ConversionsInvert(host, v, SIZE_BYTES);
    assert WireSize(host, header) == w;
    assert w % 65536 == w;
  }

  /** The byte order on the wire is the one of RFC 791 Appendix B on little-endian hosts only. */
  lemma HighByteFirst(host: Host, size: nat)
    requires 0 < size <= MAX_PAYLOAD
    ensures host.LittleEndian? ==> Header(host, size) == [size / 256, size % 256]
    ensures host.BigEndian? ==> Header(host, size) == [size % 256, size / 256]
  {
    PowTwo();
    TwoBytes(size);
    BytesOfFromLittle([size / 256, size % 256]);
    hide LittleBytes, FromLittle, Reversed, Pow256;
  }

  lemma TwoBytes(size: nat)
    requires size <= MAX_PAYLOAD
    ensures var lo, hi := size % 256, size / 256;
            LittleBytes(size, 2) == [lo, hi] && Reversed([lo, hi]) == [hi, lo] && size % 65536 == size
  {
    var lo, hi := size % 256, size / 256;
    assert LittleBytes(hi, 1) == [hi] + LittleBytes(0, 0);
    assert LittleBytes(size, 2) == [lo] + LittleBytes(hi, 1) == [lo, hi];
    ReversedSnoc([lo], hi);
    ReversedSnoc([], lo);
    assert [lo] + [hi] == [lo, hi] && [] + [lo] == [lo];
  }

  lemma HeaderIffWireSize(host: Host, header: seq<Byte>, size: nat)
    requires |header| == SIZE_BYTES && size <= MAX_PAYLOAD
    ensures WireSize(host, header) == size <==> header == Header(host, size)
  {
    PowTwo();
    HeaderRoundTrip(host, size);
    if WireSize(host, header) == size {
      HeaderOfWireSize(host, header);
    }
  }

  /** Two hosts understand each other's header exactly when they order bytes alike or the size reads
      the same both ways. */
  lemma SameOrderIff(sender: Host, receiver: Host, size: nat)
    requires 0 < size <= MAX_PAYLOAD
    ensures WireSize(receiver, Header(sender, size)) == size
            <==> (sender == receiver || size / 256 == size % 256)
  {
    HeaderIffWireSize(receiver, Header(sender, size), size);
    HighByteFirst(sender, size);
    HighByteFirst(receiver, size);
    if sender != receiver {
      var hi, lo := size / 256, size % 256;
      assert [hi, lo] == [lo, hi] <==> hi == lo by {
        assert [hi, lo][0] == hi && [lo, hi][0] == lo;
      }
    }
  }

  // ---- the pure frame parser --------------------------------------------------------------

  datatype Parsed = Frame(packet: Packet, rest: seq<Byte>) | Incomplete | Malformed

  function ParseOne(host: Host, socket: int, bs: seq<Byte>): Parsed {
    if |bs| < SIZE_BYTES then Incomplete
    else
      var size := WireSize(host, bs[..SIZE_BYTES]);
      if size < COMMAND_BYTES then Malformed
      else if |bs| < SIZE_BYTES + size then Incomplete
      else Frame(FromPayload(socket, bs[SIZE_BYTES..SIZE_BYTES + size]), bs[SIZE_BYTES + size..])
  }

  /** Every complete frame, from the front. */
  function Frames(host: Host, socket: int, bs: seq<Byte>): seq<Packet>
    decreases |bs|
  {
    match ParseOne(host, socket, bs)
    case Frame(p, rest) => [p] + Frames(host, socket, rest)
    case _ => []
  }

  /** The bytes after the last complete frame. */
  function LeftOver(host: Host, socket: int, bs: seq<Byte>): seq<Byte>
    decreases |bs|
  {
    match ParseOne(host, socket, bs)
    case Frame(_, rest) => LeftOver(host, socket, rest)
    case _ => bs
  }

  lemma Slices<T>(a: seq<T>, b: seq<T>, c: seq<T>)
    ensures var s := a + b + c;
            s[..|a|] == a && s[|a|..|a| + |b|] == b && s[|a| + |b|..] == c
  {
  }

  lemma ParseOneMarshal(host: Host, p: Packet, tail: seq<Byte>)
    requires WellFormed(p)
    ensures ParseOne(host, p.socket, Marshal(host, p) + tail) == Frame(p, tail)
  {
    var payload := Payload(p);
    HeaderIffWireSize(host, Header(host, |payload|), |payload|);
    Slices(Header(host, |payload|), payload, tail);
    assert FromPayload(p.socket, payload) == p by {
      Slices(p.command, p.data, []);
      assert payload + [] == payload;
    }
  }

  lemma MarshalOfParseOne(host: Host, socket: int, bs: seq<Byte>)
    requires ParseOne(host, socket, bs).Frame?
    ensures var f := ParseOne(host, socket, bs);
            WellFormed(f.packet) && f.packet.socket == socket && Marshal(host, f.packet) + f.rest == bs
  {
    var f := ParseOne(host, socket, bs);
    var size := WireSize(host, bs[..SIZE_BYTES]);
    HeaderOfWireSize(host, bs[..SIZE_BYTES]);
    assert Payload(f.packet) == bs[SIZE_BYTES..SIZE_BYTES + size];
  }

  /** One packet survives the wire exactly when its command has four bytes and its payload fits the
      signed size field. */
  lemma RoundTripIff(host: Host, p: Packet)
    ensures ParseOne(host, p.socket, Marshal(host, p)) == Frame(p, []) <==> WellFormed(p)
  {
    if WellFormed(p) {
      ParseOneMarshal(host, p, []);
      assert Marshal(host, p) + [] == Marshal(host, p);
    } else if ParseOne(host, p.socket, Marshal(host, p)) == Frame(p, []) {
      MarshalOfParseOne(host, p.socket, Marshal(host, p));
    }
  }

  lemma HeadFirst<T>(a: seq<T>, b: seq<T>)
    requires a != []
    ensures a + b == [a[0]] + (a[1..] + b)
  {
    assert a == [a[0]] + a[1..];
  }

  lemma FramesStep(host: Host, p: Packet, tail: seq<Byte>)
    requires WellFormed(p)
    ensures Frames(host, p.socket, Marshal(host, p) + tail) == [p] + Frames(host, p.socket, tail)
    ensures LeftOver(host, p.socket, Marshal(host, p) + tail) == LeftOver(host, p.socket, tail)
  {
    ParseOneMarshal(host, p, tail);
  }

  /** Parsing what was sent gives back the packets that were sent, whatever follows them. */
  lemma {:induction false} FramesOfStream(host: Host, socket: int, ps: seq<Packet>, tail: seq<Byte>)
    requires AllWellFormed(ps, socket)
    ensures Frames(host, socket, Stream(host, ps) + tail) == ps + Frames(host, socket, tail)
    ensures LeftOver(host, socket, Stream(host, ps) + tail) == LeftOver(host, socket, tail)
  {
    var after := Frames(host, socket, tail);
    if ps == [] {
      assert Stream(host, ps) + tail == tail;
      assert ps + after == after;
    } else {
      var rest := Stream(host, ps[1..]) + tail;
      assert Stream(host, ps) + tail == Marshal(host, ps[0]) + rest;
      FramesStep(host, ps[0], rest);
      FramesOfStream(host, socket, ps[1..], tail);
      HeadFirst(ps, after);
    }
  }

  lemma StreamStep(host: Host, p: Packet, ps: seq<Packet>, left: seq<Byte>)
    ensures Stream(host, [p] + ps) + left == Marshal(host, p) + (Stream(host, ps) + left)
  {
    assert ([p] + ps)[1..] == ps;
  }

  /** Sending what was parsed gives back the bytes that were parsed, for every byte string. */
  lemma {:induction false} StreamOfFrames(host: Host, socket: int, bs: seq<Byte>)
    ensures AllWellFormed(Frames(host, socket, bs), socket)
    ensures Stream(host, Frames(host, socket, bs)) + LeftOver(host, socket, bs) == bs
    ensures !ParseOne(host, socket, LeftOver(host, socket, bs)).Frame?
    decreases |bs|
  {
    match ParseOne(host, socket, bs)
    case Frame(p, rest) =>
      MarshalOfParseOne(host, socket, bs);
      StreamOfFrames(host, socket, rest);
      StreamStep(host, p, Frames(host, socket, rest), LeftOver(host, socket, rest));
    case _ =>
      assert [] + bs == bs;
  }

  /** No frame is a proper prefix of another one. */
  lemma PrefixFree(host: Host, p: Packet, q: Packet)
    requires WellFormed(p) && WellFormed(q) && p.socket == q.socket
    requires Marshal(host, p) <= Marshal(host, q)
    ensures p == q
  {
    var tail := Marshal(host, q)[|Marshal(host, p)|..];
    assert Marshal(host, q) == Marshal(host, p) + tail;
    ParseOneMarshal(host, p, tail);
    ParseOneMarshal(host, q, []);
    assert Marshal(host, q) + [] == Marshal(host, q);
  }

  lemma {:induction false} StreamConcat(host: Host, a: seq<Packet>, b: seq<Packet>)
    ensures Stream(host, a + b) == Stream(host, a) + Stream(host, b)
  {
    if a == [] {
      assert a + b == b;
    } else {
      assert (a + b)[1..] == a[1..] + b;
      StreamConcat(host, a[1..], b);
    }
  }
}
