/** Decoding the frames that a client sends, one at a time or many in one go. */
module Readers {
  import opened Bytes
  import opened Packets
  import opened Buffers
  import opened Tcp
  import opened Deadlines
  import opened Clients

  // ---- what handling a packet does ----------------------------------------------------------

  /** All that reading from a client can change: the client's id, warning flag and number of deadline
      increments, the Send packets read so far, and the shard's queue of packets to write. */
  datatype Reading = Reading(clientId: seq<Byte>, terminateOnNextCycle: bool, ticks: nat,
                             readList: seq<Packet>, toWrite: seq<Packet>)

  function Tick(r: Reading): Reading {
    r.(ticks := r.ticks + 1)
  }

  function React(r: Reading, p: Packet): Reading {
    if p.command == BLANK then r.(terminateOnNextCycle := false)
    else if p.command == SETUP_ACK then r.(toWrite := r.toWrite + [Packet(p.socket, SETUP_SYN, [])])
    else if p.command == SETUP_CLIENT_ID then
      r.(clientId := p.data, toWrite := r.toWrite + [Packet(p.socket, SETUP_JOIN, [])])
    else if p.command == SEND then r.(terminateOnNextCycle := false, readList := r.readList + [p])
    else r
  }

  function Handle(r: Reading, p: Packet): Reading {
    React(Tick(r), p)
  }

  function HandleAll(r: Reading, ps: seq<Packet>): Reading {
    if ps == [] then r else Handle(HandleAll(r, ps[..|ps| - 1]), ps[|ps| - 1])
  }

  lemma {:induction false} HandleAllConcat(r: Reading, ps: seq<Packet>, qs: seq<Packet>)
    ensures HandleAll(r, ps + qs) == HandleAll(HandleAll(r, ps), qs)
  {
    if qs == [] {
      assert ps + qs == ps;
    } else {
      assert (ps + qs)[..|ps + qs| - 1] == ps + qs[..|qs| - 1];
      HandleAllConcat(r, ps, qs[..|qs| - 1]);
    }
  }

  /** The Send packets of a list. */
  function SendsOf(ps: seq<Packet>): seq<Packet> {
    if ps == [] then []
    else SendsOf(ps[..|ps| - 1]) + if ps[|ps| - 1].command == SEND then [ps[|ps| - 1]] else []
  }

  lemma {:induction false} SendsConcat(ps: seq<Packet>, qs: seq<Packet>)
    ensures SendsOf(ps + qs) == SendsOf(ps) + SendsOf(qs)
  {
    if qs == [] {
      assert ps + qs == ps;
    } else {
      assert (ps + qs)[..|ps + qs| - 1] == ps + qs[..|qs| - 1];
      SendsConcat(ps, qs[..|qs| - 1]);
    }
  }

  /** The answers of the handshake that a list of packets asks for. */
  function RepliesOf(ps: seq<Packet>): seq<Packet> {
    if ps == [] then [] else RepliesOf(ps[..|ps| - 1]) + RepliesTo(ps[|ps| - 1])
  }

  lemma {:induction false} RepliesConcat(ps: seq<Packet>, qs: seq<Packet>)
    ensures RepliesOf(ps + qs) == RepliesOf(ps) + RepliesOf(qs)
  {
    if qs == [] {
      assert ps + qs == ps;
    } else {
      assert (ps + qs)[..|ps + qs| - 1] == ps + qs[..|qs| - 1];
      RepliesConcat(ps, qs[..|qs| - 1]);
    }
  }

  function RepliesTo(p: Packet): seq<Packet> {
    if p.command == SETUP_ACK then [Packet(p.socket, SETUP_SYN, [])]
    else if p.command == SETUP_CLIENT_ID then [Packet(p.socket, SETUP_JOIN, [])]
    else []
  }

  /** The id that the last packet with an id gives. */
  function IdAfter(clientId: seq<Byte>, ps: seq<Packet>): seq<Byte> {
    if ps == [] then clientId
    else if ps[|ps| - 1].command == SETUP_CLIENT_ID then ps[|ps| - 1].data
    else IdAfter(clientId, ps[..|ps| - 1])
  }

  /** Whether the client has said something that takes back a warning. */
  predicate SignOfLife(ps: seq<Packet>) {
    exists p <- ps :: p.command == BLANK || p.command == SEND
  }

  lemma HandledOne(r: Reading, p: Packet)
    ensures Handle(r, p)
         == Reading(if p.command == SETUP_CLIENT_ID then p.data else r.clientId,
                    r.terminateOnNextCycle && p.command != BLANK && p.command != SEND, r.ticks + 1,
                    r.readList + (if p.command == SEND then [p] else []), r.toWrite + RepliesTo(p))
  {
    assert BLANK[0] == 66 && SETUP_ACK[2] == 75 && SETUP_CLIENT_ID[2] == 73 && SETUP_ACK[0] == 65 && SEND[0] == 83;
  }

  lemma {:induction false} OneMorePacket(r: Reading, ps: seq<Packet>, p: Packet)
    ensures HandleAll(r, ps + [p]) == Handle(HandleAll(r, ps), p)
    ensures SendsOf(ps + [p]) == SendsOf(ps) + if p.command == SEND then [p] else []
    ensures RepliesOf(ps + [p]) == RepliesOf(ps) + RepliesTo(p)
    ensures forall id :: IdAfter(id, ps + [p]) == if p.command == SETUP_CLIENT_ID then p.data else IdAfter(id, ps)
    ensures SignOfLife(ps + [p]) <==> SignOfLife(ps) || p.command == BLANK || p.command == SEND
  {
    var more := ps + [p];
    assert more[..|more| - 1] == ps && more[|more| - 1] == p;
    assert forall q :: q in more <==> q in ps || q == p;
    hide BLANK, SEND, SETUP_CLIENT_ID, RepliesTo, Handle;
  }

  /** What handling packets comes to: the packets read gain exactly the Send packets, the packets to write the
      answers of the handshake, all in order; the deadline is incremented once per packet; the warning is taken
      back if there was a Blank or a Send; and the id is the last one given. */
  lemma {:induction false} HandledMeans(r: Reading, ps: seq<Packet>)
    ensures HandleAll(r, ps)
         == Reading(IdAfter(r.clientId, ps), r.terminateOnNextCycle && !SignOfLife(ps), r.ticks + |ps|,
                    r.readList + SendsOf(ps), r.toWrite + RepliesOf(ps))
  {
    if ps == [] {
    } else {
      var before, last := ps[..|ps| - 1], ps[|ps| - 1];
      HandledMeans(r, before);
      HandledOne(HandleAll(r, before), last);
      OneMorePacket(r, before, last);
      assert ps == before + [last];
      hide *;
      Assoc(r.readList, SendsOf(before), if last.command == SEND then [last] else []);
      Assoc(r.toWrite, RepliesOf(before), RepliesTo(last));
    }
  }

  lemma Assoc<T>(a: seq<T>, b: seq<T>, c: seq<T>)
    ensures (a + b) + c == a + (b + c)
  {
  }

  // ---- chunking does not matter -------------------------------------------------------------

  /** Calls that consumed whole frames add up: what one call does to the frames of a piece of the
      stream and the next one to those of the following piece is what happens to the frames of both. */
  lemma CallsCompose(host: Host, socket: int, r: Reading, a: seq<Byte>, b: seq<Byte>)
    requires LeftOver(host, socket, a) == []
    ensures Frames(host, socket, a + b) == Frames(host, socket, a) + Frames(host, socket, b)
    ensures LeftOver(host, socket, a + b) == LeftOver(host, socket, b)
    ensures HandleAll(r, Frames(host, socket, a + b))
         == HandleAll(HandleAll(r, Frames(host, socket, a)), Frames(host, socket, b))
  {
    var ps := Frames(host, socket, a);
    StreamOfFrames(host, socket, a);
    assert Stream(host, ps) + [] == Stream(host, ps);
    FramesOfStream(host, socket, ps, b);
    HandleAllConcat(r, ps, Frames(host, socket, b));
  }

  // ---- well-formed streams never trip the reader --------------------------------------------

  /** A byte string starts with at most one frame. */
  lemma FirstFrameUnique(host: Host, p: Packet, q: Packet, x: seq<Byte>, y: seq<Byte>)
    requires WellFormed(p) && WellFormed(q) && p.socket == q.socket
    requires Marshal(host, p) + x == Marshal(host, q) + y
    ensures p == q && x == y
  {
    ParseOneMarshal(host, p, x);
    ParseOneMarshal(host, q, y);
  }

  lemma FirstHeader(host: Host, p: Packet, x: seq<Byte>, header: seq<Byte>, y: seq<Byte>)
    requires WellFormed(p) && |header| == SIZE_BYTES && Marshal(host, p) + x == header + y
    ensures WireSize(host, header) == |Payload(p)|
  {
    var h := Header(host, |Payload(p)|);
    assert header == (header + y)[..SIZE_BYTES];
    assert h == (Marshal(host, p) + x)[..SIZE_BYTES];
    HeaderIffWireSize(host, header, |Payload(p)|);
  }

  /** The bytes of a stream of fitting frames that follow whole frames start with a fitting header. */
  lemma {:induction false} NextHeaderFits(host: Host, socket: int, capacity: nat, ps: seq<Packet>, tail: seq<Byte>,
                                          handled: seq<Packet>, header: seq<Byte>, rest: seq<Byte>)
    requires AllWellFormed(ps, socket) && AllWellFormed(handled, socket) && |header| == SIZE_BYTES
    requires forall p <- ps :: |Payload(p)| < capacity
    requires Stream(host, ps) + tail == Stream(host, handled) + (header + rest)
    requires ps != [] && |Stream(host, handled)| < |Stream(host, ps)|
    ensures COMMAND_BYTES <= WireSize(host, header) < capacity
  {
    FirstOfStream(host, socket, ps, tail);
    var after := Stream(host, ps[1..]) + tail;
    assert ps[0] in ps;
    assert COMMAND_BYTES <= |Payload(ps[0])| < capacity && forall p <- ps[1..] :: p in ps;
    if handled == [] {
      assert Stream(host, handled) + (header + rest) == header + rest;
      hide *;
      FirstHeader(host, ps[0], after, header, rest);
    } else {
      FirstOfStream(host, socket, handled, header + rest);
      hide *;
      FirstFrameUnique(host, ps[0], handled[0], after, Stream(host, handled[1..]) + (header + rest));
      NextHeaderFits(host, socket, capacity, ps[1..], tail, handled[1..], header, rest);
    }
  }

  lemma {:induction false} FirstOfStream(host: Host, socket: int, ps: seq<Packet>, tail: seq<Byte>)
    requires AllWellFormed(ps, socket) && ps != []
    ensures WellFormed(ps[0]) && ps[0].socket == socket && AllWellFormed(ps[1..], socket)
    ensures Stream(host, ps) + tail == Marshal(host, ps[0]) + (Stream(host, ps[1..]) + tail)
    ensures |Stream(host, ps)| == |Marshal(host, ps[0])| + |Stream(host, ps[1..])|
  {
    assert ps[0] in ps && forall p <- ps[1..] :: p in ps;
    var first, more := Marshal(host, ps[0]), Stream(host, ps[1..]);
    assert Stream(host, ps) == first + more;
    hide *;
    assert (first + more) + tail == first + (more + tail);
  }
}
