/** What one call of a reader comes to, as a function of the bytes that the peer has sent and of what the
    receives bring: the reference that the loops over the buffer are proved against. It knows neither buffer
    nor offset, and leaves all decoding to the frame parser. */
module Calls {
  import opened Bytes
  import opened Packets
  import opened Tcp
  import opened Readers

  /** Broken stands for the points where the code asserts, throws, or wraps an unsigned counter around:
      a first receive of a single byte (line 404), a size that does not fit the buffer (line 423), a
      completing receive that succeeded although the peer stopped short (line 474), and a payload too
      short to hold a command. */
  datatype Cause = OneByteRead | Oversize | ShortRead | NoCommand
  datatype ReadResult = Read | Terminated | Broken(cause: Cause)

  /** The result, the packets handled, whether the deadline was incremented for a frame that then was not
      completed, the bytes received but not handled, and what is left of stream and script. */
  datatype Call = Call(result: ReadResult, handled: seq<Packet>, ticked: bool, left: seq<Byte>,
                       incoming: seq<Byte>, script: seq<Outcome>)

  /** What a call does to what the server knows of the client. */
  function Effect(c: Call, r: Reading): Reading {
    if c.ticked then Tick(HandleAll(r, c.handled)) else HandleAll(r, c.handled)
  }

  /** A connection to a client: the host of the server, the socket, and the size of the buffer. */
  datatype Peer = Peer(host: Host, socket: int, capacity: nat)

  function Decoded(peer: Peer, bs: seq<Byte>): seq<Packet> {
    Frames(peer.host, peer.socket, bs)
  }

  function Undecoded(peer: Peer, bs: seq<Byte>): seq<Byte> {
    LeftOver(peer.host, peer.socket, bs)
  }

  /** The size that a header announces fits the buffer. */
  predicate Fits(peer: Peer, size: int) {
    0 <= size < peer.capacity
  }

  /** What becomes of bytes that start with a header: a packet and what is behind it, or the end of the call. */
  datatype Progress =
    | On(packet: Packet, window: seq<Byte>, incoming: seq<Byte>, script: seq<Outcome>)
    | Off(result: ReadResult, ticked: bool, left: seq<Byte>, incoming: seq<Byte>, script: seq<Outcome>)

  /** The bytes of the payload that are missing are received first, exactly. */
  function Decode(peer: Peer, window: seq<Byte>, incoming: seq<Byte>, script: seq<Outcome>): (d: Progress)
    requires SIZE_BYTES <= |window|
    ensures d.Off? ==> !d.result.Read? && d.ticked
  {
    var size := WireSize(peer.host, window[..SIZE_BYTES]);
    if !Fits(peer, size) then Off(Broken(Oversize), true, window, incoming, script)
    else
      var missing := Lacks(size, window);
      var t := TakeFixed(|incoming|, script, missing, 0);
      var more, incoming' := window + incoming[..t.count], incoming[t.count..];
      if 0 < missing && (t.count == 0 || t.closed) then Off(Terminated, true, more, incoming', t.after)
      else if size < COMMAND_BYTES then Off(Broken(NoCommand), true, more, incoming', t.after)
      else if t.count < missing then Off(Broken(ShortRead), true, more, incoming', t.after)
      else
        On(FromPayload(peer.socket, more[SIZE_BYTES..SIZE_BYTES + size]), more[SIZE_BYTES + size..], incoming', t.after)
  }

  lemma Oversized(peer: Peer, window: seq<Byte>, incoming: seq<Byte>, script: seq<Outcome>)
    requires SIZE_BYTES <= |window|
    ensures !Fits(peer, WireSize(peer.host, window[..SIZE_BYTES])) ==>
              Decode(peer, window, incoming, script) == Off(Broken(Oversize), true, window, incoming, script)
  {
  }

  /** The fast reader receives as long as what it has ends with a lone byte of a header, into the room that
      is left in the buffer. */
  function Draw(peer: Peer, drawn: seq<Byte>, incoming: seq<Byte>, script: seq<Outcome>): Call
    requires |drawn| <= peer.capacity
    decreases |incoming|
  {
    var t := TakeSome(|incoming|, script, peer.capacity - |drawn|);
    var drawn', incoming' := drawn + incoming[..t.count], incoming[t.count..];
    if t.count == 0 then
      Call(Terminated, Decoded(peer, drawn), false, Undecoded(peer, drawn), incoming, t.after)
    else if |drawn'| == 1 then
      Call(Broken(OneByteRead), [], true, drawn', incoming', t.after)
    else if |Undecoded(peer, drawn')| == 1 then Draw(peer, drawn', incoming', t.after)
    else Finish(peer, drawn', incoming', t.after)
  }

  /** Then, unless that ends on a frame boundary, it receives exactly what the last frame lacks. */
  function Finish(peer: Peer, drawn: seq<Byte>, incoming: seq<Byte>, script: seq<Outcome>): Call
    requires |Undecoded(peer, drawn)| != 1
  {
    var handled, left := Decoded(peer, drawn), Undecoded(peer, drawn);
    if left == [] then Call(Read, handled, false, [], incoming, script)
    else Behind(handled, Decode(peer, left, incoming, script))
  }

  /** The call that ends with one more packet, or with what became of the bytes that are not handled. */
  function Behind(handled: seq<Packet>, d: Progress): Call {
    match d
    case On(p, _, incoming, script) => Call(Read, handled + [p], false, [], incoming, script)
    case Off(result, ticked, left, incoming, script) => Call(result, handled, ticked, left, incoming, script)
  }

  /** How many bytes of a payload of the given size are not there yet. */
  function Lacks(size: nat, left: seq<Byte>): nat
    requires SIZE_BYTES <= |left|
  {
    if size <= |left| - SIZE_BYTES then 0 else size - (|left| - SIZE_BYTES)
  }

  function FastCall(peer: Peer, stream: seq<Byte>, script: seq<Outcome>): Call {
    Draw(peer, [], stream, script)
  }

  /** The single-shot reader receives a header, then the payload that it announces. */
  function SingleCall(peer: Peer, stream: seq<Byte>, script: seq<Outcome>): Call {
    var t := TakeFixed(|stream|, script, SIZE_BYTES, 0);
    var header, incoming := stream[..t.count], stream[t.count..];
    if t.count == 0 || t.closed then Call(Terminated, [], false, header, incoming, t.after)
    else if t.count < SIZE_BYTES then Call(Broken(OneByteRead), [], true, header, incoming, t.after)
    else SingleFrame(peer, header, incoming, t.after)
  }

  function SingleFrame(peer: Peer, header: seq<Byte>, incoming: seq<Byte>, script: seq<Outcome>): Call
    requires |header| == SIZE_BYTES
  {
    var size := WireSize(peer.host, header);
    if !(0 <= size <= peer.capacity) then Call(Broken(Oversize), [], true, header, incoming, script)
    else
      var t := TakeFixed(|incoming|, script, size, 0);
      var frame, incoming' := header + incoming[..t.count], incoming[t.count..];
      if t.count == 0 || t.closed then Call(Terminated, [], true, frame, incoming', t.after)
      else if size == peer.capacity then Call(Broken(Oversize), [], true, frame, incoming', t.after)
      else if size < COMMAND_BYTES then Call(Broken(NoCommand), [], true, frame, incoming', t.after)
      else if t.count < size then Call(Broken(ShortRead), [], true, frame, incoming', t.after)
      else Call(Read, Decoded(peer, frame), false, [], incoming', t.after)
  }

  /** What a call does, in terms of the packets that it handled. */
  lemma EffectMeans(c: Call, r: Reading)
    ensures Effect(c, r)
         == Reading(IdAfter(r.clientId, c.handled), r.terminateOnNextCycle && !SignOfLife(c.handled),
                    r.ticks + |c.handled| + (if c.ticked then 1 else 0),
                    r.readList + SendsOf(c.handled), r.toWrite + RepliesOf(c.handled))
  {
    HandledMeans(r, c.handled);
    hide HandleAll, SignOfLife;
  }

  // ---- every call handles exactly the frames of what it received ----------------------------

  lemma Whole<T>(s: seq<T>, n: nat)
    requires n <= |s|
    ensures s[..n] + s[n..] == s && s[..|s|] == s && [] + s == s == s + []
  {
  }

  lemma HeadStays<T>(head: seq<T>, s: seq<T>)
    ensures (head + s)[..|head|] == head && (head + s)[|head|..] == s
  {
  }

  /** Decoding can stop and go on where it stopped. */
  lemma {:induction false} DecodedMore(peer: Peer, drawn: seq<Byte>, got: seq<Byte>)
    ensures Decoded(peer, drawn + got) == Decoded(peer, drawn) + Decoded(peer, Undecoded(peer, drawn) + got)
    ensures Undecoded(peer, drawn + got) == Undecoded(peer, Undecoded(peer, drawn) + got)
  {
    var ps, left := Frames(peer.host, peer.socket, drawn), LeftOver(peer.host, peer.socket, drawn);
    StreamOfFrames(peer.host, peer.socket, drawn);
    FramesOfStream(peer.host, peer.socket, ps, left + got);
    hide Stream, Frames, LeftOver;
    Assoc(Stream(peer.host, ps), left, got);
  }

  /** What a header and bytes behind it decode to. */
  lemma {:induction false} DecodedOne(peer: Peer, bs: seq<Byte>)
    requires SIZE_BYTES <= |bs|
    ensures var size := WireSize(peer.host, bs[..SIZE_BYTES]);
            if size < COMMAND_BYTES || |bs| < SIZE_BYTES + size then
              Decoded(peer, bs) == [] && Undecoded(peer, bs) == bs
            else |bs| == SIZE_BYTES + size ==>
              && Undecoded(peer, bs) == []
              && Decoded(peer, bs) == [FromPayload(peer.socket, bs[SIZE_BYTES..])]
  {
    var size := WireSize(peer.host, bs[..SIZE_BYTES]);
    if size >= COMMAND_BYTES && |bs| == SIZE_BYTES + size {
      assert bs[SIZE_BYTES..SIZE_BYTES + size] == bs[SIZE_BYTES..] && bs[SIZE_BYTES + size..] == [];
      assert Frames(peer.host, peer.socket, []) == [] && LeftOver(peer.host, peer.socket, []) == [];
    }
  }

  /** What is not decoded holds no frame. */
  lemma {:induction false} NoFrameLeft(peer: Peer, bs: seq<Byte>)
    ensures !ParseOne(peer.host, peer.socket, Undecoded(peer, bs)).Frame?
    ensures Decoded(peer, Undecoded(peer, bs)) == [] && Undecoded(peer, Undecoded(peer, bs)) == Undecoded(peer, bs)
  {
    StreamOfFrames(peer.host, peer.socket, bs);
  }

  /** The call received some bytes, handled all of their frames, and nothing else; and it succeeded exactly if
      that was something and no bytes remain. */
  ghost predicate HandlesAll(peer: Peer, drawn: seq<Byte>, incoming: seq<Byte>, c: Call) {
    && |c.incoming| <= |incoming| && c.incoming == incoming[|incoming| - |c.incoming|..]
    && var received := drawn + incoming[..|incoming| - |c.incoming|];
       && c.handled == Decoded(peer, received) && c.left == Undecoded(peer, received)
       && (c.result.Read? <==> c.left == [] && c.handled != [])
       && (c.result.Read? ==> !c.ticked)
  }

  /** One frame comes out of what was left over and the bytes received then, or none. */
  ghost predicate OneOrNone(peer: Peer, left: seq<Byte>, incoming: seq<Byte>, d: Progress) {
    && |d.incoming| <= |incoming| && d.incoming == incoming[|incoming| - |d.incoming|..]
    && var more := left + incoming[..|incoming| - |d.incoming|];
       if d.On? then Decoded(peer, more) == [d.packet] && Undecoded(peer, more) == [] == d.window
       else Decoded(peer, more) == [] && Undecoded(peer, more) == more == d.left && !d.result.Read?
            && more != []
  }

  lemma DecodeOfLeft(peer: Peer, drawn: seq<Byte>, incoming: seq<Byte>, script: seq<Outcome>)
    requires SIZE_BYTES <= |Undecoded(peer, drawn)|
    ensures OneOrNone(peer, Undecoded(peer, drawn), incoming, Decode(peer, Undecoded(peer, drawn), incoming, script))
  {
    var left := Undecoded(peer, drawn);
    var size := WireSize(peer.host, left[..SIZE_BYTES]);
    NoFrameLeft(peer, drawn);
    DecodedOne(peer, left);
    assert left + incoming[..0] == left && incoming[0..] == incoming;
    if Fits(peer, size) {
      var got := incoming[..TakeFixed(|incoming|, script, Lacks(size, left), 0).count];
      DecodedOne(peer, left + got);
      assert (left + got)[..SIZE_BYTES] == left[..SIZE_BYTES];
    }
    hide Decoded, Undecoded, WireSize, TakeFixed, Frames, LeftOver;
  }

  lemma FinishHandlesAll(peer: Peer, drawn: seq<Byte>, incoming: seq<Byte>, script: seq<Outcome>)
    requires |Undecoded(peer, drawn)| != 1 && drawn != []
    ensures HandlesAll(peer, drawn, incoming, Finish(peer, drawn, incoming, script))
  {
    var handled, left := Decoded(peer, drawn), Undecoded(peer, drawn);
    StreamOfFrames(peer.host, peer.socket, drawn);
    assert left == [] ==> handled != [];
    hide Decoded, Undecoded, Decode;
    if left == [] {
      assert drawn + incoming[..0] == drawn && incoming[0..] == incoming;
      return;
    }
    hide OneOrNone, HandlesAll;
    DecodeOfLeft(peer, drawn, incoming, script);
    HandledThen(peer, drawn, incoming, Decode(peer, left, incoming, script));
  }

  /** What was left over went on to be decoded. */
  lemma HandledThen(peer: Peer, drawn: seq<Byte>, incoming: seq<Byte>, d: Progress)
    requires OneOrNone(peer, Undecoded(peer, drawn), incoming, d)
    ensures HandlesAll(peer, drawn, incoming, Behind(Decoded(peer, drawn), d))
  {
    assert Decoded(peer, drawn) + [] == Decoded(peer, drawn);
    DecodedMore(peer, drawn, incoming[..|incoming| - |d.incoming|]);
    hide Decoded, Undecoded;
  }

  /** The same bytes, of which fewer had been received. */
  lemma HandledLater(peer: Peer, drawn: seq<Byte>, incoming: seq<Byte>, n: nat, c: Call)
    requires n <= |incoming|
    ensures HandlesAll(peer, drawn + incoming[..n], incoming[n..], c) ==> HandlesAll(peer, drawn, incoming, c)
  {
    if !HandlesAll(peer, drawn + incoming[..n], incoming[n..], c) {
      return;
    }
    var m := |incoming| - |c.incoming|;
    hide Decoded, Undecoded;
    LaterSlices(drawn, incoming, n, m);
  }

  lemma LaterSlices(drawn: seq<Byte>, incoming: seq<Byte>, n: nat, m: nat)
    requires n <= m <= |incoming|
    ensures (drawn + incoming[..n]) + incoming[n..][..m - n] == drawn + incoming[..m]
    ensures incoming[n..][m - n..] == incoming[m..]
  {
  }

  lemma {:induction false} DrawHandlesAll(peer: Peer, drawn: seq<Byte>, incoming: seq<Byte>, script: seq<Outcome>)
    requires |drawn| <= peer.capacity && (drawn == [] || |Undecoded(peer, drawn)| == 1)
    ensures HandlesAll(peer, drawn, incoming, Draw(peer, drawn, incoming, script))
    decreases |incoming|
  {
    var t := TakeSome(|incoming|, script, peer.capacity - |drawn|);
    var drawn', incoming' := drawn + incoming[..t.count], incoming[t.count..];
    hide *;
    DrawStep(peer, drawn, incoming, script);
    if t.count == 0 || |drawn'| == 1 {
      FewBytes(peer, drawn, incoming, t);
    } else if |Undecoded(peer, drawn')| == 1 {
      DrawHandlesAll(peer, drawn', incoming', t.after);
      HandledLater(peer, drawn, incoming, t.count, Draw(peer, drawn', incoming', t.after));
    } else {
      FinishHandlesAll(peer, drawn', incoming', t.after);
      HandledLater(peer, drawn, incoming, t.count, Finish(peer, drawn', incoming', t.after));
    }
  }

  lemma {:induction false} DrawStep(peer: Peer, drawn: seq<Byte>, incoming: seq<Byte>, script: seq<Outcome>)
    requires |drawn| <= peer.capacity
    ensures var t := TakeSome(|incoming|, script, peer.capacity - |drawn|);
            var drawn', incoming' := drawn + incoming[..t.count], incoming[t.count..];
            && |drawn'| <= peer.capacity
            && (t.count > 0 ==> drawn' != [] && |incoming'| < |incoming|)
            && Draw(peer, drawn, incoming, script) ==
               if t.count == 0 then
                 Call(Terminated, Decoded(peer, drawn), false, Undecoded(peer, drawn), incoming, t.after)
               else if |drawn'| == 1 then Call(Broken(OneByteRead), [], true, drawn', incoming', t.after)
               else if |Undecoded(peer, drawn')| == 1 then Draw(peer, drawn', incoming', t.after)
               else Finish(peer, drawn', incoming', t.after)
  {
    hide Decoded, Undecoded, Finish, TakeSome;
  }

  lemma FewBytes(peer: Peer, drawn: seq<Byte>, incoming: seq<Byte>, t: Taken)
    requires t.count <= |incoming| && (drawn == [] || |Undecoded(peer, drawn)| == 1)
    ensures var drawn', incoming' := drawn + incoming[..t.count], incoming[t.count..];
            && (t.count == 0 ==> HandlesAll(peer, drawn, incoming,
                  Call(Terminated, Decoded(peer, drawn), false, Undecoded(peer, drawn), incoming, t.after)))
            && (t.count > 0 && |drawn'| == 1 ==> HandlesAll(peer, drawn, incoming,
                  Call(Broken(OneByteRead), [], true, drawn', incoming', t.after)))
  {
    var drawn' := drawn + incoming[..t.count];
    assert drawn + incoming[..0] == drawn && incoming[0..] == incoming;
    assert Decoded(peer, []) == [] && Undecoded(peer, []) == [];
    assert |drawn'| == 1 ==> Decoded(peer, drawn') == [] && Undecoded(peer, drawn') == drawn';
    hide Decoded, Undecoded;
  }

  /** Whatever the receives bring and however the call ends: it handled exactly the frames that the parser
      finds in the bytes it received, and it succeeded exactly if there were some and they were all. */
  lemma FastCallHandlesItsFrames(peer: Peer, stream: seq<Byte>, script: seq<Outcome>)
    ensures HandlesAll(peer, [], stream, FastCall(peer, stream, script))
    ensures !ParseOne(peer.host, peer.socket, FastCall(peer, stream, script).left).Frame?
  {
    var c := FastCall(peer, stream, script);
    DrawHandlesAll(peer, [], stream, script);
    NoFrameLeft(peer, [] + stream[..|stream| - |c.incoming|]);
    hide FastCall, Decoded, Undecoded, ParseOne;
  }

  ghost predicate HandlesOne(peer: Peer, received: seq<Byte>, incoming: seq<Byte>, c: Call) {
    && (c.result.Read? || received + incoming == c.left + c.incoming)
    && |c.handled| == (if c.result.Read? then 1 else 0)
    && ((c.result == Broken(Oversize) && |c.left| == SIZE_BYTES + peer.capacity)
        || HandlesAll(peer, received, incoming, c))
  }

  lemma FrameHandlesOne(peer: Peer, header: seq<Byte>, incoming: seq<Byte>, script: seq<Outcome>)
    requires |header| == SIZE_BYTES
    ensures HandlesOne(peer, header, incoming, SingleFrame(peer, header, incoming, script))
  {
    var size := WireSize(peer.host, header);
    HeadStays(header, []);
    Whole(incoming, 0);
    DecodedOne(peer, header);
    if 0 <= size <= peer.capacity {
      var n := TakeFixed(|incoming|, script, size, 0).count;
      HeadStays(header, incoming[..n]);
      DecodedOne(peer, header + incoming[..n]);
      Whole(incoming, n);
      Assoc(header, incoming[..n], incoming[n..]);
    }
    hide Decoded, Undecoded, TakeFixed, WireSize;
  }

  /** The same for the single-shot reader, one frame a call; only a frame as large as the whole buffer is
      received and then refused. */
  lemma SingleCallHandlesItsFrame(peer: Peer, stream: seq<Byte>, script: seq<Outcome>)
    ensures HandlesOne(peer, [], stream, SingleCall(peer, stream, script))
  {
    var t := TakeFixed(|stream|, script, SIZE_BYTES, 0);
    var header, incoming := stream[..t.count], stream[t.count..];
    assert [] + header == header && [] + stream == stream == header + incoming;
    if |header| == SIZE_BYTES {
      assert !t.closed && t.count != 0;
      FrameHandlesOne(peer, header, incoming, t.after);
      hide SingleFrame, TakeFixed, Decoded, Undecoded;
      HandledLater(peer, [], stream, t.count, SingleFrame(peer, header, incoming, t.after));
    } else {
      assert Decoded(peer, header) == [] && Undecoded(peer, header) == header;
    }
  }

  // ---- exactly when a call succeeds ---------------------------------------------------------

  function Upto(stream: seq<Byte>, n: nat): (r: seq<Byte>)
    requires n <= |stream|
    ensures |r| == n
  {
    stream[..n]
  }

  function After(stream: seq<Byte>, n: nat): (r: seq<Byte>)
    requires n <= |stream|
    ensures |r| == |stream| - n
  {
    stream[n..]
  }

  /** How far into the stream the fast reader gets before it completes a frame; Dry if the last receive
      brought nothing. */
  datatype Drawn = Dry(count: nat, after: seq<Outcome>) | Got(count: nat, after: seq<Outcome>)

  function DrawnFrom(peer: Peer, stream: seq<Byte>, n: nat, script: seq<Outcome>): (d: Drawn)
    requires n <= |stream| && n <= peer.capacity
    ensures n <= d.count <= |stream| && d.count <= peer.capacity && (d.Got? ==> n < d.count)
    decreases |stream| - n
  {
    var t := TakeSome(|stream| - n, script, peer.capacity - n);
    var m := n + t.count;
    if t.count == 0 then Dry(n, t.after)
    else if m != 1 && |Undecoded(peer, Upto(stream, m))| == 1 then DrawnFrom(peer, stream, m, t.after)
    else Got(m, t.after)
  }

  /** The header is one of a frame that fits, and the receives bring all that the frame lacks. */
  predicate Completes(peer: Peer, left: seq<Byte>, available: nat, script: seq<Outcome>)
    requires SIZE_BYTES <= |left|
  {
    var size := WireSize(peer.host, left[..SIZE_BYTES]);
    && COMMAND_BYTES <= size < peer.capacity
    && TakeFixed(available, script, Lacks(size, left), 0).count == Lacks(size, left)
  }

  /** The bytes that were drawn end on a frame boundary, or more than one byte into a frame that is completed. */
  predicate Succeeds(peer: Peer, stream: seq<Byte>, d: Drawn)
    requires d.count <= |stream|
  {
    var left := Undecoded(peer, Upto(stream, d.count));
    d.Got? && |left| != 1 && (left == [] || Completes(peer, left, |stream| - d.count, d.after))
  }

  /** The last receive brought nothing, or a frame that fits was not there yet and the receives for the rest of it brought
      nothing or found the socket closed. */
  predicate GivesUp(peer: Peer, stream: seq<Byte>, d: Drawn)
    requires d.count <= |stream|
  {
    var left := Undecoded(peer, Upto(stream, d.count));
    || d.Dry?
    || (SIZE_BYTES <= |left|
        && var size := WireSize(peer.host, left[..SIZE_BYTES]);
           && 0 <= size < peer.capacity && Lacks(size, left) > 0
           && var t := TakeFixed(|stream| - d.count, d.after, Lacks(size, left), 0);
              t.count == 0 || t.closed)
  }

  lemma FinishReadsIff(peer: Peer, stream: seq<Byte>, n: nat, script: seq<Outcome>)
    requires n <= |stream| && |Undecoded(peer, Upto(stream, n))| != 1
    ensures var c := Finish(peer, Upto(stream, n), After(stream, n), script);
            && (c.result.Read? <==> Succeeds(peer, stream, Got(n, script)))
            && (c.result.Terminated? <==> GivesUp(peer, stream, Got(n, script)))
  {
    var drawn := Upto(stream, n);
    var left := Undecoded(peer, drawn);
    if left != [] {
      NoFrameLeft(peer, drawn);
      DecodedOne(peer, left);
    }
    hide Decoded, Undecoded, WireSize, TakeFixed, Frames, LeftOver, Upto, After;
  }

  lemma UptoLater(stream: seq<Byte>, n: nat, k: nat)
    requires n + k <= |stream|
    ensures Upto(stream, n) + After(stream, n)[..k] == Upto(stream, n + k)
    ensures After(stream, n)[k..] == After(stream, n + k)
  {
  }

  lemma {:induction false} DrawReadsIff(peer: Peer, stream: seq<Byte>, n: nat, script: seq<Outcome>)
    requires n <= |stream| && n <= peer.capacity && (n == 0 || |Undecoded(peer, Upto(stream, n))| == 1)
    ensures var c := Draw(peer, Upto(stream, n), After(stream, n), script);
            && (c.result.Read? <==> Succeeds(peer, stream, DrawnFrom(peer, stream, n, script)))
            && (c.result.Terminated? <==> GivesUp(peer, stream, DrawnFrom(peer, stream, n, script)))
    decreases |stream| - n
  {
    hide *;
    var t := TakeSome(|stream| - n, script, peer.capacity - n);
    var m := n + t.count;
    UptoLater(stream, n, t.count);
    DrawStep(peer, Upto(stream, n), After(stream, n), script);
    DrawnStepAt(peer, stream, n, script);
    if 0 < t.count && m != 1 {
      if |Undecoded(peer, Upto(stream, m))| == 1 {
        DrawReadsIff(peer, stream, m, t.after);
      } else {
        FinishReadsIff(peer, stream, m, t.after);
      }
    } else {
      DryFails(peer, stream, n, t.after);
      LoneByteFails(peer, stream, t.after);
    }
  }

  lemma {:induction false} DrawnStepAt(peer: Peer, stream: seq<Byte>, n: nat, script: seq<Outcome>)
    requires n <= |stream| && n <= peer.capacity
    ensures var t := TakeSome(|stream| - n, script, peer.capacity - n);
            var m := n + t.count;
            && m <= |stream| && m <= peer.capacity
            && DrawnFrom(peer, stream, n, script) ==
               if t.count == 0 then Dry(n, t.after)
               else if m != 1 && |Undecoded(peer, Upto(stream, m))| == 1 then DrawnFrom(peer, stream, m, t.after)
               else Got(m, t.after)
  {
    hide Undecoded, TakeSome;
  }

  lemma DryFails(peer: Peer, stream: seq<Byte>, n: nat, script: seq<Outcome>)
    requires n <= |stream|
    ensures !Succeeds(peer, stream, Dry(n, script)) && GivesUp(peer, stream, Dry(n, script))
  {
  }

  lemma LoneByteFails(peer: Peer, stream: seq<Byte>, script: seq<Outcome>)
    ensures 1 <= |stream| ==> !Succeeds(peer, stream, Got(1, script)) && !GivesUp(peer, stream, Got(1, script))
  {
    if 1 <= |stream| {
      assert Undecoded(peer, stream[..1]) == stream[..1];
    }
  }

  /** For every stream, script and buffer: when a call succeeds, and when it gives the connection up. */
  lemma FastCallReadsIff(peer: Peer, stream: seq<Byte>, script: seq<Outcome>)
    ensures FastCall(peer, stream, script).result.Read?
            <==> Succeeds(peer, stream, DrawnFrom(peer, stream, 0, script))
    ensures FastCall(peer, stream, script).result.Terminated?
            <==> GivesUp(peer, stream, DrawnFrom(peer, stream, 0, script))
  {
    assert Upto(stream, 0) == [] && After(stream, 0) == stream;
    DrawReadsIff(peer, stream, 0, script);
  }

  // ---- how a call ends ----------------------------------------------------------------------

  /** The bytes start with a header, and the size that it announces is one that fits the buffer. */
  predicate Announces(peer: Peer, bs: seq<Byte>) {
    SIZE_BYTES <= |bs| && Fits(peer, WireSize(peer.host, bs[..SIZE_BYTES]))
  }

  /** A call that received so many bytes ended like this: what it left and how it ended go together, and the deadline
      was incremented in advance exactly for a header that was read and not completed, or a single byte. */
  ghost predicate EndsWell(peer: Peer, received: int, c: Call) {
    && (c.result == Broken(OneByteRead) <==> received == 1)
    && (c.result == Broken(Oversize) <==> SIZE_BYTES <= |c.left| && !Announces(peer, c.left))
    && (c.result == Broken(NoCommand) ==>
          Announces(peer, c.left) && WireSize(peer.host, c.left[..SIZE_BYTES]) < COMMAND_BYTES)
    && (c.result == Broken(ShortRead) ==>
          Announces(peer, c.left) && COMMAND_BYTES <= WireSize(peer.host, c.left[..SIZE_BYTES]))
    && (c.result.Terminated? ==> (|c.left| <= 1 && received != 1) || Announces(peer, c.left))
    && (c.ticked <==> !c.result.Read? && (received == 1 || SIZE_BYTES <= |c.left|))
  }

  lemma FinishEnds(peer: Peer, drawn: seq<Byte>, incoming: seq<Byte>, script: seq<Outcome>)
    requires |Undecoded(peer, drawn)| != 1 && 1 < |drawn|
    ensures var c := Finish(peer, drawn, incoming, script);
            |c.incoming| <= |incoming| && EndsWell(peer, |drawn| + |incoming| - |c.incoming|, c)
  {
    var left := Undecoded(peer, drawn);
    hide Undecoded, Decoded, WireSize, TakeFixed;
    if left != [] && Fits(peer, WireSize(peer.host, left[..SIZE_BYTES])) {
      var t := TakeFixed(|incoming|, script, Lacks(WireSize(peer.host, left[..SIZE_BYTES]), left), 0);
      assert (left + incoming[..t.count])[..SIZE_BYTES] == left[..SIZE_BYTES];
    }
  }

  lemma FewBytesEnd(peer: Peer, drawn: seq<Byte>, incoming: seq<Byte>, t: Taken)
    requires t.count <= |incoming| && |drawn| != 1 && (drawn == [] || |Undecoded(peer, drawn)| == 1)
    ensures EndsWell(peer, |drawn|, Call(Terminated, Decoded(peer, drawn), false, Undecoded(peer, drawn), incoming, t.after))
    ensures var drawn' := drawn + incoming[..t.count];
            |drawn'| == 1 ==> EndsWell(peer, 1, Call(Broken(OneByteRead), [], true, drawn', incoming[t.count..], t.after))
  {
    assert Undecoded(peer, []) == [];
    hide Undecoded, Decoded;
  }

  lemma {:induction false} DrawEnds(peer: Peer, drawn: seq<Byte>, incoming: seq<Byte>, script: seq<Outcome>)
    requires |drawn| <= peer.capacity && |drawn| != 1 && (drawn == [] || |Undecoded(peer, drawn)| == 1)
    ensures var c := Draw(peer, drawn, incoming, script);
            |c.incoming| <= |incoming| && EndsWell(peer, |drawn| + |incoming| - |c.incoming|, c)
    decreases |incoming|
  {
    hide *;
    var t := TakeSome(|incoming|, script, peer.capacity - |drawn|);
    var drawn', incoming' := drawn + incoming[..t.count], incoming[t.count..];
    DrawStep(peer, drawn, incoming, script);
    if t.count == 0 || |drawn'| == 1 {
      FewBytesEnd(peer, drawn, incoming, t);
    } else if |Undecoded(peer, drawn')| == 1 {
      DrawEnds(peer, drawn', incoming', t.after);
    } else {
      FinishEnds(peer, drawn', incoming', t.after);
    }
  }

  /** For every stream, script and buffer. */
  lemma FastCallEnds(peer: Peer, stream: seq<Byte>, script: seq<Outcome>)
    ensures var c := FastCall(peer, stream, script);
            |c.incoming| <= |stream| && EndsWell(peer, |stream| - |c.incoming|, c)
  {
    DrawEnds(peer, [], stream, script);
  }

  /** Any number of recoverable errors in front of a receive of the drawing loop, wherever that is, changes nothing of
      what the call comes to. */
  lemma RecoverableIsInvisible(peer: Peer, drawn: seq<Byte>, incoming: seq<Byte>, errors: seq<Outcome>, script: seq<Outcome>)
    requires |drawn| <= peer.capacity && forall o <- errors :: o.Recoverable?
    ensures Draw(peer, drawn, incoming, errors + script) == Draw(peer, drawn, incoming, script)
  {
    hide *;
    RecoverableSkipped(|incoming|, errors, script, peer.capacity - |drawn|);
    DrawStep(peer, drawn, incoming, script);
    DrawStep(peer, drawn, incoming, errors + script);
  }

  /** In front of the first one, for instance. */
  lemma InterruptedCallIsTheSame(peer: Peer, stream: seq<Byte>, errors: seq<Outcome>, script: seq<Outcome>)
    requires forall o <- errors :: o.Recoverable?
    ensures FastCall(peer, stream, errors + script) == FastCall(peer, stream, script)
  {
    RecoverableIsInvisible(peer, [], stream, errors, script);
  }

  // ---- healthy connections ------------------------------------------------------------------

  /** Every one of the next n receives brings something. */
  ghost predicate Lively(script: seq<Outcome>, n: nat) {
    n <= |script| && forall i :: 0 <= i < n ==> script[i].Deliver? && script[i].count > 0
  }

  lemma {:induction false} LivelyTakesAll(available: nat, script: seq<Outcome>, size: nat, n: nat)
    requires Lively(script, n) && size <= available && size <= n
    ensures var t := TakeFixed(available, script, size, 0);
            && t.count == size && !t.closed
            && |script| - size <= |t.after| <= |script| && t.after == script[|script| - |t.after|..]
    decreases size
  {
    if size == 0 {
      assert script[0..] == script;
    } else {
      var recv := Min(script[0].count, Min(available, size));
      LivelyTakesAll(available - recv, script[1..], size - recv, n - 1);
      var t := TakeFixed(available - recv, script[1..], size - recv, 0);
      assert script[1..][|script| - 1 - |t.after|..] == script[|script| - |t.after|..];
    }
  }

  /** Whole frames that fit the buffer. */
  ghost predicate GoodFrames(peer: Peer, ps: seq<Packet>) {
    AllWellFormed(ps, peer.socket) && forall p <- ps :: |Payload(p)| < peer.capacity
  }

  /** However a stream of whole frames is cut, what is not decoded of the first part announces a fitting
      frame that the second part completes. */
  lemma CutFrame(peer: Peer, ps: seq<Packet>, n: nat)
    requires GoodFrames(peer, ps) && n <= |Stream(peer.host, ps)|
    ensures var left := Undecoded(peer, Upto(Stream(peer.host, ps), n));
            SIZE_BYTES <= |left| ==>
              var size := WireSize(peer.host, left[..SIZE_BYTES]);
              && COMMAND_BYTES <= size < peer.capacity
              && Lacks(size, left) <= |Stream(peer.host, ps)| - n
  {
    var s := Stream(peer.host, ps);
    var handled, left := Decoded(peer, s[..n]), Undecoded(peer, s[..n]);
    if SIZE_BYTES <= |left| {
      StreamOfFrames(peer.host, peer.socket, s[..n]);
      NoFrameLeft(peer, s[..n]);
      DecodedOne(peer, left);
      CutFrameFits(peer, ps, n, handled, left);
      CutFrameIsCompleted(peer, ps, n, left);
    }
  }

  lemma CutFrameFits(peer: Peer, ps: seq<Packet>, n: nat, handled: seq<Packet>, left: seq<Byte>)
    requires GoodFrames(peer, ps) && n <= |Stream(peer.host, ps)| && SIZE_BYTES <= |left|
    requires AllWellFormed(handled, peer.socket) && Stream(peer.host, handled) + left == Stream(peer.host, ps)[..n]
    ensures COMMAND_BYTES <= WireSize(peer.host, left[..SIZE_BYTES]) < peer.capacity
  {
    var s, header, rest := Stream(peer.host, ps), left[..SIZE_BYTES], left[SIZE_BYTES..] + Stream(peer.host, ps)[n..];
    assert s + [] == s;
    assert s == s[..n] + s[n..];
    assert left == header + left[SIZE_BYTES..];
    hide *;
    assert s[..n] + s[n..] == Stream(peer.host, handled) + (header + rest);
    NextHeaderFits(peer.host, peer.socket, peer.capacity, ps, [], handled, header, rest);
  }

  /** A stream of whole frames has nothing undecoded, so the rest of it completes what a part left. */
  lemma CutFrameIsCompleted(peer: Peer, ps: seq<Packet>, n: nat, left: seq<Byte>)
    requires GoodFrames(peer, ps) && n <= |Stream(peer.host, ps)|
    requires SIZE_BYTES <= |left| && left == Undecoded(peer, Stream(peer.host, ps)[..n])
    requires COMMAND_BYTES <= WireSize(peer.host, left[..SIZE_BYTES])
    ensures Lacks(WireSize(peer.host, left[..SIZE_BYTES]), left) <= |Stream(peer.host, ps)| - n
  {
    var s := Stream(peer.host, ps);
    var got := s[n..];
    assert s == s[..n] + got && s + [] == s;
    DecodedMore(peer, s[..n], got);
    FramesOfStream(peer.host, peer.socket, ps, []);
    assert LeftOver(peer.host, peer.socket, []) == [];
    assert (left + got)[..SIZE_BYTES] == left[..SIZE_BYTES];
    DecodedOne(peer, left + got);
  }

  lemma LivelyTakesSome(available: nat, script: seq<Outcome>, room: nat)
    requires 0 < available && Lively(script, available)
    ensures var t := TakeSome(available, script, room);
            (t.count == 0 <==> room == 0) && (t.count > 0 ==> Lively(t.after, available - t.count))
  {
  }

  /** A lone byte of a header is the last that was received: all there was, or all the buffer holds. */
  lemma {:induction false} LivelyDraws(peer: Peer, stream: seq<Byte>, n: nat, script: seq<Outcome>)
    requires n <= |stream| && n <= peer.capacity && Lively(script, |stream| - n)
    requires n == 0 || |Undecoded(peer, Upto(stream, n))| == 1
    ensures var d := DrawnFrom(peer, stream, n, script);
            && (d.Dry? ==> d.count == peer.capacity || d.count == |stream|)
            && (d.Dry? ==> d.count == 0 || |Undecoded(peer, Upto(stream, d.count))| == 1)
            && (d.Got? ==> Lively(d.after, |stream| - d.count))
            && (d.Got? && d.count != 1 ==> |Undecoded(peer, Upto(stream, d.count))| != 1)
    decreases |stream| - n
  {
    hide *;
    var t := TakeSome(|stream| - n, script, peer.capacity - n);
    DrawnStepAt(peer, stream, n, script);
    if n < |stream| {
      LivelyTakesSome(|stream| - n, script, peer.capacity - n);
      var m := n + t.count;
      if t.count > 0 && m != 1 && |Undecoded(peer, Upto(stream, m))| == 1 {
        LivelyDraws(peer, stream, m, t.after);
      }
    }
  }

  lemma {:induction false} WholeStreamIsDecoded(peer: Peer, ps: seq<Packet>)
    requires GoodFrames(peer, ps)
    ensures Undecoded(peer, Stream(peer.host, ps)) == [] && Decoded(peer, Stream(peer.host, ps)) == ps
  {
    var s := Stream(peer.host, ps);
    FramesOfStream(peer.host, peer.socket, ps, []);
    assert LeftOver(peer.host, peer.socket, []) == [] && Frames(peer.host, peer.socket, []) == [];
    assert s + [] == s && ps + [] == ps;
  }

  lemma HealthyCompletes(peer: Peer, ps: seq<Packet>, n: nat, script: seq<Outcome>)
    requires GoodFrames(peer, ps) && n <= |Stream(peer.host, ps)| && Lively(script, |Stream(peer.host, ps)| - n)
    ensures var stream := Stream(peer.host, ps);
            var left := Undecoded(peer, Upto(stream, n));
            SIZE_BYTES <= |left| ==> Completes(peer, left, |stream| - n, script)
  {
    var stream := Stream(peer.host, ps);
    var left := Undecoded(peer, Upto(stream, n));
    hide Undecoded, TakeFixed, Upto, WireSize, GoodFrames, Lively, Stream;
    if SIZE_BYTES <= |left| {
      CutFrame(peer, ps, n);
      LivelyTakesAll(|stream| - n, script, Lacks(WireSize(peer.host, left[..SIZE_BYTES]), left), |stream| - n);
    }
  }

  lemma NothingIsALoneByte(peer: Peer, ps: seq<Packet>)
    requires GoodFrames(peer, ps) && ps != []
    ensures var stream := Stream(peer.host, ps);
            && 1 < |stream| && 0 < peer.capacity && Undecoded(peer, Upto(stream, |stream|)) == []
            && |Undecoded(peer, Upto(stream, 1))| == 1
  {
    var stream := Stream(peer.host, ps);
    assert ps[0] in ps;
    WholeStreamIsDecoded(peer, ps);
    assert Upto(stream, |stream|) == stream && Upto(stream, 1) == stream[..1];
  }

  /** While the peer sends whole frames that fit the buffer, and every receive brings something, a call
      succeeds unless a lone byte of a header is all that the first receive brought, or falls on the last
      byte of the buffer. */
  lemma HealthyCallReadsIff(peer: Peer, ps: seq<Packet>, script: seq<Outcome>)
    requires GoodFrames(peer, ps) && ps != [] && Lively(script, |Stream(peer.host, ps)|)
    ensures var stream := Stream(peer.host, ps);
            var n := DrawnFrom(peer, stream, 0, script).count;
            && (FastCall(peer, stream, script).result.Read? <==> |Undecoded(peer, Upto(stream, n))| != 1)
            && (|Undecoded(peer, Upto(stream, n))| == 1 ==> n == 1 || n == peer.capacity)
  {
    hide *;
    var stream := Stream(peer.host, ps);
    var d := DrawnFrom(peer, stream, 0, script);
    NothingIsALoneByte(peer, ps);
    SucceedsMeans(peer, stream, d);
    FastCallReadsIff(peer, stream, script);
    LivelyDraws(peer, stream, 0, script);
    if d.Got? {
      HealthyCompletes(peer, ps, d.count, d.after);
    }
  }

  lemma SucceedsMeans(peer: Peer, stream: seq<Byte>, d: Drawn)
    requires d.count <= |stream|
    ensures var left := Undecoded(peer, Upto(stream, d.count));
            Succeeds(peer, stream, d) <==>
            d.Got? && |left| != 1 && (SIZE_BYTES <= |left| ==> Completes(peer, left, |stream| - d.count, d.after))
  {
    hide Undecoded, Upto, Completes;
  }

  // ---- how healthy connections get lost -----------------------------------------------------

  /** The packet belongs to the peer and fits its buffer. */
  predicate Sendable(peer: Peer, p: Packet) {
    WellFormed(p) && p.socket == peer.socket && |Payload(p)| < peer.capacity
  }

  function FrameOf(peer: Peer, p: Packet): (bs: seq<Byte>)
    ensures |bs| == SIZE_BYTES + |Payload(p)|
  {
    Marshal(peer.host, p)
  }

  lemma FrameThen(peer: Peer, p: Packet, bs: seq<Byte>)
    requires Sendable(peer, p)
    ensures Decoded(peer, FrameOf(peer, p) + bs) == [p] + Decoded(peer, bs)
    ensures Undecoded(peer, FrameOf(peer, p) + bs) == Undecoded(peer, bs)
    ensures |bs| < SIZE_BYTES ==> Decoded(peer, bs) == [] && Undecoded(peer, bs) == bs
  {
    FramesStep(peer.host, p, bs);
  }

  /** What a first receive of n bytes leaves. */
  lemma FirstDraw(peer: Peer, stream: seq<Byte>, n: nat, more: seq<Outcome>)
    requires 0 < n <= |stream| && n <= peer.capacity
    ensures var c := FastCall(peer, stream, [Deliver(n)] + more);
            c == if n == 1 then Call(Broken(OneByteRead), [], true, stream[..1], stream[1..], more)
                 else if |Undecoded(peer, stream[..n])| == 1 then Draw(peer, stream[..n], stream[n..], more)
                 else Finish(peer, stream[..n], stream[n..], more)
  {
    var script := [Deliver(n)] + more;
    assert First(script) == Deliver(n) && Rest(script) == more;
    assert [] + stream[..n] == stream[..n];
    hide First, Rest, Undecoded, Finish;
    DrawStep(peer, [], stream, script);
  }

  /** A first receive that brings a single byte. */
  lemma OneByteBreaks(peer: Peer, p: Packet, more: seq<Outcome>)
    requires Sendable(peer, p)
    ensures FastCall(peer, FrameOf(peer, p), [Deliver(1)] + more).result == Broken(OneByteRead)
  {
    FirstDraw(peer, FrameOf(peer, p), 1, more);
  }

  /** A receive that ends one byte into the next header. */
  lemma OneByteBehind(peer: Peer, p: Packet, q: Packet, more: seq<Outcome>)
    requires Sendable(peer, p) && Sendable(peer, q) && |FrameOf(peer, p)| < peer.capacity
    ensures var n, stream := |FrameOf(peer, p)| + 1, FrameOf(peer, p) + FrameOf(peer, q);
            && FastCall(peer, stream, [Deliver(n)] + more) == Draw(peer, stream[..n], stream[n..], more)
            && Decoded(peer, stream[..n]) == [p] && |Undecoded(peer, stream[..n])| == 1
  {
    var n, stream := |FrameOf(peer, p)| + 1, FrameOf(peer, p) + FrameOf(peer, q);
    var b := FrameOf(peer, q)[..1];
    FrameThen(peer, p, b);
    assert stream[..n] == FrameOf(peer, p) + b && [p] + [] == [p];
    hide Decoded, Undecoded, Draw, FrameOf;
    FirstDraw(peer, stream, n, more);
  }

  /** If that byte falls on the last one of the buffer, there is no room for another receive. */
  lemma LastByteTerminates(peer: Peer, p: Packet, q: Packet, more: seq<Outcome>)
    requires Sendable(peer, p) && Sendable(peer, q) && |FrameOf(peer, p)| + 1 == peer.capacity
    ensures var c := FastCall(peer, FrameOf(peer, p) + FrameOf(peer, q), [Deliver(peer.capacity)] + more);
            c.result == Terminated && c.handled == [p]
  {
    OneByteBehind(peer, p, q, more);
    hide Decoded, Undecoded, FrameOf, TakeSome;
  }

  /** And if the other receive has nothing to bring yet, it is not tried again. */
  lemma AgainTerminates(peer: Peer, p: Packet, q: Packet, more: seq<Outcome>)
    requires Sendable(peer, p) && Sendable(peer, q) && |FrameOf(peer, p)| + 1 < peer.capacity
    ensures var stream, n := FrameOf(peer, p) + FrameOf(peer, q), |FrameOf(peer, p)| + 1;
            var c := FastCall(peer, stream, [Deliver(n)] + ([Again] + more));
            c.result == Terminated && c.handled == [p]
  {
    OneByteBehind(peer, p, q, [Again] + more);
    hide Decoded, Undecoded, FrameOf;
  }

  lemma OneFrameBegun(peer: Peer, p: Packet, n: nat, more: seq<Outcome>)
    requires Sendable(peer, p) && SIZE_BYTES <= n < |FrameOf(peer, p)| && n <= peer.capacity
    ensures var s := FrameOf(peer, p);
            && WireSize(peer.host, s[..n][..SIZE_BYTES]) == |Payload(p)|
            && FastCall(peer, s, [Deliver(n)] + more) == Finish(peer, s[..n], s[n..], more)
            && Decoded(peer, s[..n]) == [] && Undecoded(peer, s[..n]) == s[..n]
  {
    var s := FrameOf(peer, p);
    assert s[..n][..SIZE_BYTES] == Header(peer.host, |Payload(p)|);
    HeaderIffWireSize(peer.host, s[..n][..SIZE_BYTES], |Payload(p)|);
    DecodedOne(peer, s[..n]);
    FirstDraw(peer, s, n, more);
    hide Decoded, Undecoded, FrameOf, WireSize, Finish, FastCall;
  }

  /** The peer hangs up within a frame: what the completing receive did bring makes it a success. */
  lemma ShortCompletionBreaks(peer: Peer, p: Packet)
    requires Sendable(peer, p)
    ensures FastCall(peer, FrameOf(peer, p), [Deliver(3), Deliver(1), Deliver(0)]).result == Broken(ShortRead)
  {
    var s, more := FrameOf(peer, p), [Deliver(1), Deliver(0)];
    assert [Deliver(3)] + more == [Deliver(3), Deliver(1), Deliver(0)];
    OneFrameBegun(peer, p, 3, more);
    assert Rest(more) == [Deliver(0)] && Rest([Deliver(0)]) == [];
    hide FrameOf, WireSize, Decoded, FastCall;
    assert TakeFixed(|s[3..]| - 1, [Deliver(0)], |Payload(p)| - 2, 0) == Taken(0, false, []);
    assert TakeFixed(|s[3..]|, more, |Payload(p)| - 1, 0) == Taken(1, false, []);
  }

  /** A completing receive, in contrast, puts up with 24 receives that have nothing to bring yet. */
  lemma CompletionHasPatience(peer: Peer, p: Packet, k: nat)
    requires Sendable(peer, p) && k <= 24
    ensures var s := FrameOf(peer, p);
            FastCall(peer, s, [Deliver(3)] + (Agains(k) + [Deliver(|s|)])).result == Read
  {
    var s := FrameOf(peer, p);
    var more := Agains(k) + [Deliver(|s|)];
    OneFrameBegun(peer, p, 3, more);
    AgainsWear(|s[3..]|, k, |s|, |Payload(p)| - 1, 0);
    hide FrameOf, WireSize, Decoded, FastCall, TakeFixed, Agains;
  }

  function Agains(k: nat): seq<Outcome> {
    seq(k, _ => Again)
  }

  lemma {:induction false} AgainsWear(available: nat, k: nat, n: nat, size: nat, worn: nat)
    requires worn + k < PATIENCE && 0 < size <= available && size <= n
    ensures TakeFixed(available, Agains(k) + [Deliver(n)], size, worn) == Taken(size, false, [])
    decreases k
  {
    var script := Agains(k) + [Deliver(n)];
    if k == 0 {
      assert script == [Deliver(n)] && Rest(script) == [];
      assert TakeFixed(available - size, [], 0, worn) == Taken(0, false, []);
    } else {
      assert First(script) == Again && Rest(script) == Agains(k - 1) + [Deliver(n)];
      AgainsWear(available, k - 1, n, size, worn + 1);
    }
  }

  /** To the single-shot reader, a frame that announces no payload is a failed receive. */
  lemma EmptyPayloadTerminates(peer: Peer, rest: seq<Byte>, more: seq<Outcome>)
    ensures SingleCall(peer, Header(peer.host, 0) + rest, [Deliver(SIZE_BYTES)] + more).result == Terminated
  {
    var stream, script := Header(peer.host, 0) + rest, [Deliver(SIZE_BYTES)] + more;
    HeaderIffWireSize(peer.host, Header(peer.host, 0), 0);
    assert stream[..SIZE_BYTES] == Header(peer.host, 0);
    assert First(script) == Deliver(SIZE_BYTES) && Rest(script) == more;
    assert TakeFixed(|stream| - SIZE_BYTES, more, 0, 0) == Taken(0, false, more);
    assert TakeFixed(|stream|, script, SIZE_BYTES, 0) == Taken(SIZE_BYTES, false, more);
    hide Header, WireSize, TakeFixed;
  }

  // ---- the reader that goes round by round --------------------------------------------------

  /** One round: a header is received if none is there, and then a frame decoded. Room is what the buffer has
      behind what was handled. */
  function RoundOf(peer: Peer, room: nat, window: seq<Byte>, incoming: seq<Byte>, script: seq<Outcome>): (d: Progress)
    requires |window| <= room
    ensures d.Off? ==> !d.result.Read?
  {
    if SIZE_BYTES <= |window| then Decode(peer, window, incoming, script)
    else
      var t := TakeSome(|incoming|, script, room - |window|);
      var window', incoming' := window + incoming[..t.count], incoming[t.count..];
      if t.count == 0 then Off(Terminated, false, window', incoming', t.after)
      else if |window'| < SIZE_BYTES then Off(Broken(OneByteRead), true, window', incoming', t.after)
      else Decode(peer, window', incoming', t.after)
  }

  /** What a call comes to that has handled some frames and has the window behind them. */
  ghost function Ahead(peer: Peer, handled: seq<Packet>, window: seq<Byte>, incoming: seq<Byte>, script: seq<Outcome>): Call
    requires Between(peer, handled, window)
  {
    var drawn := Stream(peer.host, handled) + window;
    if window == [] && handled != [] then Call(Read, handled, false, [], incoming, script)
    else if window == [] || |Undecoded(peer, drawn)| == 1 then Draw(peer, drawn, incoming, script)
    else Finish(peer, drawn, incoming, script)
  }

  /** Between two rounds: whole frames were handled, and they and what is behind them are in the buffer, unless
      nothing is behind them. */
  ghost predicate Between(peer: Peer, handled: seq<Packet>, window: seq<Byte>) {
    && AllWellFormed(handled, peer.socket)
    && (handled == [] || window != [] ==> |Stream(peer.host, handled)| + |window| <= peer.capacity)
  }

  /** A round that handles one more packet leaves what the call comes to as it was, or it ends the call. */
  ghost predicate RoundLeads(peer: Peer, handled: seq<Packet>, c: Call, d: Progress) {
    if d.On? then
      && Between(peer, handled + [d.packet], d.window)
      && c == Ahead(peer, handled + [d.packet], d.window, d.incoming, d.script)
    else c == Behind(handled, d)
  }

  lemma {:induction false} BehindHandled(peer: Peer, handled: seq<Packet>, bs: seq<Byte>)
    requires AllWellFormed(handled, peer.socket)
    ensures var drawn := Stream(peer.host, handled) + bs;
            Decoded(peer, drawn) == handled + Decoded(peer, bs) && Undecoded(peer, drawn) == Undecoded(peer, bs)
  {
    FramesOfStream(peer.host, peer.socket, handled, bs);
  }

  lemma {:induction false} OneMoreHandled(peer: Peer, handled: seq<Packet>, p: Packet, rest: seq<Byte>)
    requires AllWellFormed(handled, peer.socket) && WellFormed(p) && p.socket == peer.socket
    ensures AllWellFormed(handled + [p], peer.socket)
    ensures Stream(peer.host, handled) + (Marshal(peer.host, p) + rest) == Stream(peer.host, handled + [p]) + rest
    ensures |Stream(peer.host, handled + [p])| == |Stream(peer.host, handled)| + |Marshal(peer.host, p)|
  {
    StreamConcat(peer.host, handled, [p]);
    var s, m := Stream(peer.host, handled), Marshal(peer.host, p);
    assert Stream(peer.host, [p]) == m + [] == m;
    hide Stream, Marshal;
    assert s + (m + rest) == (s + m) + rest;
  }

  /** The window starts with a whole frame. */
  lemma {:induction false} RoundDecodesWhole(peer: Peer, handled: seq<Packet>, window: seq<Byte>, incoming: seq<Byte>,
                                             script: seq<Outcome>)
    requires Between(peer, handled, window) && SIZE_BYTES <= |window|
    requires ParseOne(peer.host, peer.socket, window).Frame?
    ensures RoundLeads(peer, handled, Ahead(peer, handled, window, incoming, script),
                       Decode(peer, window, incoming, script))
  {
    var f := ParseOne(peer.host, peer.socket, window);
    var p, rest := f.packet, f.rest;
    MarshalOfParseOne(peer.host, peer.socket, window);
    BehindHandled(peer, handled, window);
    OneMoreHandled(peer, handled, p, rest);
    DecodeWhole(peer, window, incoming, script);
    assert Decoded(peer, window) == [p] + Decoded(peer, rest) && Undecoded(peer, window) == Undecoded(peer, rest);
    assert rest == [] ==> Decoded(peer, rest) == [] && [p] + [] == [p] && Undecoded(peer, rest) == [];
    hide Decode, Draw, Stream, Decoded, Undecoded, Marshal, ParseOne, AllWellFormed;
  }

  lemma DecodeWhole(peer: Peer, window: seq<Byte>, incoming: seq<Byte>, script: seq<Outcome>)
    requires |window| <= peer.capacity && SIZE_BYTES <= |window|
    requires ParseOne(peer.host, peer.socket, window).Frame?
    ensures var f := ParseOne(peer.host, peer.socket, window);
            Decode(peer, window, incoming, script) == On(f.packet, f.rest, incoming, script)
  {
    assert window + incoming[..0] == window && incoming[0..] == incoming;
    assert TakeFixed(|incoming|, script, 0, 0) == Taken(0, false, script);
    hide WireSize;
  }

  /** The window holds part of a frame. */
  lemma {:induction false} RoundDecodesPart(peer: Peer, handled: seq<Packet>, window: seq<Byte>, incoming: seq<Byte>,
                                            script: seq<Outcome>)
    requires Between(peer, handled, window) && SIZE_BYTES <= |window|
    requires !ParseOne(peer.host, peer.socket, window).Frame?
    ensures RoundLeads(peer, handled, Ahead(peer, handled, window, incoming, script),
                       Decode(peer, window, incoming, script))
  {
    var d := Decode(peer, window, incoming, script);
    assert Decoded(peer, window) == [] && Undecoded(peer, window) == window;
    BehindHandled(peer, handled, window);
    assert handled + [] == handled;
    DecodeOfLeft(peer, window, incoming, script);
    hide Decode, Draw, Stream, Decoded, Undecoded, ParseOne, OneOrNone;
    if d.On? {
      PartDecoded(peer, window, incoming, d);
    }
  }

  lemma PartDecoded(peer: Peer, window: seq<Byte>, incoming: seq<Byte>, d: Progress)
    requires OneOrNone(peer, window, incoming, d) && d.On?
    ensures d.window == [] && AllWellFormed([d.packet], peer.socket)
  {
    StreamOfFrames(peer.host, peer.socket, window + incoming[..|incoming| - |d.incoming|]);
  }

  lemma {:induction false} RoundDecodes(peer: Peer, handled: seq<Packet>, window: seq<Byte>, incoming: seq<Byte>,
                                        script: seq<Outcome>)
    requires Between(peer, handled, window) && SIZE_BYTES <= |window|
    ensures RoundLeads(peer, handled, Ahead(peer, handled, window, incoming, script),
                       Decode(peer, window, incoming, script))
  {
    hide *;
    if ParseOne(peer.host, peer.socket, window).Frame? {
      RoundDecodesWhole(peer, handled, window, incoming, script);
    } else {
      RoundDecodesPart(peer, handled, window, incoming, script);
    }
  }

  /** There is no header yet. */
  lemma {:induction false} RoundDraws(peer: Peer, handled: seq<Packet>, window: seq<Byte>, incoming: seq<Byte>,
                                      script: seq<Outcome>)
    requires Between(peer, handled, window) && (handled == [] <==> window == []) && |window| < SIZE_BYTES
    ensures var drawn := Stream(peer.host, handled) + window;
            && |drawn| <= peer.capacity && Decoded(peer, drawn) == handled && Undecoded(peer, drawn) == window
            && Ahead(peer, handled, window, incoming, script) == Draw(peer, drawn, incoming, script)
  {
    assert Decoded(peer, window) == [] && Undecoded(peer, window) == window && handled + [] == handled;
    BehindHandled(peer, handled, window);
    hide Stream, Decoded, Undecoded, Draw, Finish, AllWellFormed;
  }

  /** More bytes came in behind what was handled, and there is a header now. */
  lemma {:induction false} RoundHasHeader(peer: Peer, handled: seq<Packet>, window: seq<Byte>, incoming: seq<Byte>,
                                          script: seq<Outcome>)
    requires AllWellFormed(handled, peer.socket) && SIZE_BYTES <= |window|
    requires |Stream(peer.host, handled)| + |window| <= peer.capacity
    ensures var drawn := Stream(peer.host, handled) + window;
            && Between(peer, handled, window) && Undecoded(peer, drawn) == Undecoded(peer, window)
            && Ahead(peer, handled, window, incoming, script) ==
               if |Undecoded(peer, drawn)| == 1 then Draw(peer, drawn, incoming, script)
               else Finish(peer, drawn, incoming, script)
  {
    BehindHandled(peer, handled, window);
    hide Stream, Decoded, Undecoded, Draw, Finish, AllWellFormed;
  }

  /** What one receive into the given room brought. */
  predicate Brought(t: Taken, room: nat, incoming: seq<Byte>, script: seq<Outcome>, got: seq<Byte>, incoming': seq<Byte>) {
    t == TakeSome(|incoming|, script, room) && got == incoming[..t.count] && incoming' == incoming[t.count..]
  }

  /** The call receives before it goes on. */
  lemma {:induction false} RoundReceives(peer: Peer, handled: seq<Packet>, window: seq<Byte>, t: Taken, room: nat,
                                         incoming: seq<Byte>, script: seq<Outcome>, got: seq<Byte>, incoming': seq<Byte>)
    requires Between(peer, handled, window) && (handled == [] <==> window == []) && |window| < SIZE_BYTES
    requires room == peer.capacity - |Stream(peer.host, handled)| - |window|
    requires Brought(t, room, incoming, script, got, incoming')
    ensures var c := Ahead(peer, handled, window, incoming, script);
            if got == [] then c == Call(Terminated, handled, false, window, incoming, t.after)
            else if |window + got| < SIZE_BYTES then
              handled == [] && c == Call(Broken(OneByteRead), [], true, window + got, incoming', t.after)
            else
              && Between(peer, handled, window + got)
              && c == Ahead(peer, handled, window + got, incoming', t.after)
  {
    var s := Stream(peer.host, handled);
    assert AllWellFormed(handled, peer.socket) && (handled == [] ==> s == []);
    assert |got| <= room;
    hide Ahead, Between, Draw, Finish, Decoded, Undecoded, Brought, Stream, AllWellFormed;
    RoundDraws(peer, handled, window, incoming, script);
    Assoc(s, window, got);
    DrawGets(peer, s + window, s + (window + got), t, room, incoming, script, got, incoming');
    if SIZE_BYTES <= |window + got| {
      RoundHasHeader(peer, handled, window + got, incoming', t.after);
    }
  }

  lemma {:induction false} DrawGets(peer: Peer, drawn: seq<Byte>, drawn': seq<Byte>, t: Taken, room: nat,
                                    incoming: seq<Byte>, script: seq<Outcome>, got: seq<Byte>, incoming': seq<Byte>)
    requires |drawn| + room == peer.capacity && drawn' == drawn + got
    requires Brought(t, room, incoming, script, got, incoming')
    ensures |drawn'| <= peer.capacity
    ensures Draw(peer, drawn, incoming, script) ==
            if got == [] then Call(Terminated, Decoded(peer, drawn), false, Undecoded(peer, drawn), incoming, t.after)
            else if |drawn'| == 1 then Call(Broken(OneByteRead), [], true, drawn', incoming', t.after)
            else if |Undecoded(peer, drawn')| == 1 then Draw(peer, drawn', incoming', t.after)
            else Finish(peer, drawn', incoming', t.after)
  {
    hide Draw, Finish, Decoded, Undecoded, TakeSome;
    DrawStep(peer, drawn, incoming, script);
  }

  lemma {:induction false} RoundIs(peer: Peer, room: nat, window: seq<Byte>, t: Taken, incoming: seq<Byte>,
                                   script: seq<Outcome>, got: seq<Byte>, incoming': seq<Byte>)
    requires |window| <= room && |window| < SIZE_BYTES
    requires Brought(t, room - |window|, incoming, script, got, incoming')
    ensures RoundOf(peer, room, window, incoming, script) ==
            if got == [] then Off(Terminated, false, window, incoming, t.after)
            else if |window + got| < SIZE_BYTES then Off(Broken(OneByteRead), true, window + got, incoming', t.after)
            else Decode(peer, window + got, incoming', t.after)
  {
    hide TakeSome, Decode;
  }

  /** Round by round, the call comes to the same. */
  lemma {:induction false} AheadRounds(peer: Peer, handled: seq<Packet>, window: seq<Byte>, incoming: seq<Byte>,
                                       script: seq<Outcome>)
    requires Between(peer, handled, window) && (handled == [] <==> window == [])
    ensures RoundLeads(peer, handled, Ahead(peer, handled, window, incoming, script),
                       RoundOf(peer, peer.capacity - |Stream(peer.host, handled)|, window, incoming, script))
  {
    var room: nat := peer.capacity - |Stream(peer.host, handled)|;
    assert |window| <= room;
    hide Ahead, Between, Decode, Stream, AllWellFormed;
    if SIZE_BYTES <= |window| {
      RoundDecodes(peer, handled, window, incoming, script);
      return;
    }
    var t := TakeSome(|incoming|, script, room - |window|);
    var got, incoming' := incoming[..t.count], incoming[t.count..];
    assert Brought(t, room - |window|, incoming, script, got, incoming');
    hide Brought, RoundOf, TakeSome;
    RoundIs(peer, room, window, t, incoming, script, got, incoming');
    RoundReceives(peer, handled, window, t, room - |window|, incoming, script, got, incoming');
    if SIZE_BYTES <= |window + got| {
      RoundDecodes(peer, handled, window + got, incoming', t.after);
    }
  }

  /** What receiving exactly size bytes brought. */
  predicate Fetched(t: Taken, size: nat, incoming: seq<Byte>, script: seq<Outcome>, got: seq<Byte>, incoming': seq<Byte>) {
    t == TakeFixed(|incoming|, script, size, 0) && got == incoming[..t.count] && incoming' == incoming[t.count..]
  }

  /** How the attempt to get a payload of which some bytes are missing went. */
  function Payloaded(size: nat, missing: nat, t: Taken): ReadResult {
    if 0 < missing && (t.count == 0 || t.closed) then Terminated
    else if size < COMMAND_BYTES then Broken(NoCommand)
    else if t.count < missing then Broken(ShortRead)
    else Read
  }

  lemma DecodeIs(peer: Peer, header: seq<Byte>, window: seq<Byte>, size: nat, missing: nat, t: Taken,
                 incoming: seq<Byte>, script: seq<Outcome>, got: seq<Byte>, incoming': seq<Byte>)
    requires |header| == SIZE_BYTES && WireSize(peer.host, header) == size < peer.capacity
    requires missing == if size <= |window| then 0 else size - |window|
    requires Fetched(t, missing, incoming, script, got, incoming')
    ensures Payloaded(size, missing, t).Read? ==> COMMAND_BYTES <= size <= |window + got|
    ensures Decode(peer, header + window, incoming, script) ==
            if Payloaded(size, missing, t).Read? then
              On(FromPayload(peer.socket, (window + got)[..size]), (window + got)[size..], incoming', t.after)
            else Off(Payloaded(size, missing, t), true, header + (window + got), incoming', t.after)
  {
    HeadStays(header, window);
    HeadStays(header, window + got);
    Assoc(header, window, got);
    var frame := header + (window + got);
    assert Payloaded(size, missing, t).Read? ==> frame[SIZE_BYTES..SIZE_BYTES + size] == (window + got)[..size];
    hide TakeFixed, WireSize;
  }

  lemma NothingBrought(t: Taken, room: nat, incoming: seq<Byte>, script: seq<Outcome>, got: seq<Byte>,
                       incoming': seq<Byte>)
    requires Brought(t, room, incoming, script, got, incoming') && got == []
    ensures incoming' == incoming
  {
    Whole(incoming, 0);
  }

  lemma FromItsPayload(socket: int, p: Packet)
    requires |p.command| == COMMAND_BYTES && p.socket == socket
    ensures FromPayload(socket, Payload(p)) == p
  {
    HeadStays(p.command, p.data);
  }

  lemma PayloadOfFrame(socket: int, payload: seq<Byte>)
    requires COMMAND_BYTES <= |payload|
    ensures Payload(FromPayload(socket, payload)) == payload
  {
  }

  /** Where a call starts, and where it ends if it succeeds. */
  lemma {:induction false} CallAhead(peer: Peer, stream: seq<Byte>, script: seq<Outcome>)
    ensures Between(peer, [], []) && Stream(peer.host, []) == []
    ensures Ahead(peer, [], [], stream, script) == FastCall(peer, stream, script)
  {
    assert Stream(peer.host, []) + [] == [];
  }

  lemma {:induction false} AheadEnds(peer: Peer, handled: seq<Packet>, r: Reading, incoming: seq<Byte>,
                                     script: seq<Outcome>)
    requires Between(peer, handled, []) && handled != []
    ensures var c := Ahead(peer, handled, [], incoming, script);
            c.result.Read? && c.incoming == incoming && c.script == script && Effect(c, r) == HandleAll(r, handled)
  {
  }

  lemma RoundConsumes(peer: Peer, room: nat, window: seq<Byte>, incoming: seq<Byte>, script: seq<Outcome>)
    requires |window| <= room
    ensures var d := RoundOf(peer, room, window, incoming, script);
            d.On? ==> |d.window| + |d.incoming| < |window| + |incoming|
  {
    hide TakeFixed, TakeSome, WireSize;
  }

  /** What a round does to what is known of the client. */
  lemma {:induction false} RoundLeadsOn(peer: Peer, handled: seq<Packet>, r: Reading, c: Call, d: Progress)
    requires RoundLeads(peer, handled, c, d)
    ensures d.On? ==>
              && Between(peer, handled + [d.packet], d.window)
              && c == Ahead(peer, handled + [d.packet], d.window, d.incoming, d.script)
              && React(Tick(HandleAll(r, handled)), d.packet) == HandleAll(r, handled + [d.packet])
              && |Stream(peer.host, handled + [d.packet])|
                 == |Stream(peer.host, handled)| + SIZE_BYTES + |Payload(d.packet)|
    ensures d.Off? ==>
              && c.result == d.result && c.incoming == d.incoming && c.script == d.script
              && Effect(c, r) == if d.ticked then Tick(HandleAll(r, handled)) else HandleAll(r, handled)
  {
    if d.On? {
      OneMorePacket(r, handled, d.packet);
      assert d.packet in handled + [d.packet];
      hide Ahead, React, Tick, HandleAll;
      StreamConcat(peer.host, handled, [d.packet]);
    }
  }

  /** The single-shot reader after its first receive. */
  lemma SingleCallIs(peer: Peer, t: Taken, stream: seq<Byte>, script: seq<Outcome>, header: seq<Byte>,
                     incoming: seq<Byte>, r: Reading)
    requires Fetched(t, SIZE_BYTES, stream, script, header, incoming)
    ensures var c := SingleCall(peer, stream, script);
            if t.count == 0 || t.closed then
              c.result == Terminated && c.incoming == incoming && c.script == t.after && Effect(c, r) == r
            else if t.count < SIZE_BYTES then
              c.result == Broken(OneByteRead) && c.incoming == incoming && c.script == t.after && Effect(c, r) == Tick(r)
            else |header| == SIZE_BYTES && c == SingleFrame(peer, header, incoming, t.after)
  {
    assert HandleAll(r, []) == r;
    hide TakeFixed, WireSize, Tick, HandleAll;
  }

  lemma OversizeIs(peer: Peer, header: seq<Byte>, incoming: seq<Byte>, script: seq<Outcome>, r: Reading)
    requires |header| == SIZE_BYTES && !(0 <= WireSize(peer.host, header) <= peer.capacity)
    ensures var c := SingleFrame(peer, header, incoming, script);
            c.result == Broken(Oversize) && c.incoming == incoming && c.script == script && Effect(c, r) == Tick(r)
  {
    assert HandleAll(r, []) == r;
  }

  lemma SingleFrameIs(peer: Peer, header: seq<Byte>, size: nat, t: Taken, incoming: seq<Byte>, script: seq<Outcome>,
                      got: seq<Byte>, incoming': seq<Byte>, r: Reading)
    requires |header| == SIZE_BYTES && WireSize(peer.host, header) == size <= peer.capacity
    requires Fetched(t, size, incoming, script, got, incoming')
    ensures var c := SingleFrame(peer, header, incoming, script);
            && c.incoming == incoming' && c.script == t.after
            && c.result == (if t.count == 0 || t.closed then Terminated
                            else if size == peer.capacity then Broken(Oversize)
                            else if size < COMMAND_BYTES then Broken(NoCommand)
                            else if t.count < size then Broken(ShortRead)
                            else Read)
            && (c.result.Read? ==> |got| == size && Effect(c, r) == React(Tick(r), FromPayload(peer.socket, got)))
            && (!c.result.Read? ==> Effect(c, r) == Tick(r))
  {
    assert HandleAll(r, []) == r;
    HeadStays(header, got);
    DecodedOne(peer, header + got);
    if |got| == size && COMMAND_BYTES <= size {
      OneMorePacket(r, [], FromPayload(peer.socket, got));
      assert [] + [FromPayload(peer.socket, got)] == [FromPayload(peer.socket, got)];
    }
    hide TakeFixed, WireSize, Tick, React, HandleAll, Decoded, Undecoded;
  }

  // ---- one fast call and many single-shot calls ---------------------------------------------

  /** A call of either reader, with what its receives bring. */
  datatype Try = Fast(script: seq<Outcome>) | Single(script: seq<Outcome>)

  function CallOf(peer: Peer, stream: seq<Byte>, t: Try): Call {
    if t.Fast? then FastCall(peer, stream, t.script) else SingleCall(peer, stream, t.script)
  }

  /** A run of calls that all succeed. */
  ghost predicate AllRead(peer: Peer, stream: seq<Byte>, tries: seq<Try>)
    decreases |tries|
  {
    tries == [] ||
    (CallOf(peer, stream, tries[0]).result.Read?
     && AllRead(peer, CallOf(peer, stream, tries[0]).incoming, tries[1..]))
  }

  /** What the server knows of the client after a run. */
  function AfterCalls(peer: Peer, r: Reading, stream: seq<Byte>, tries: seq<Try>): Reading
    decreases |tries|
  {
    if tries == [] then r
    else
      var c := CallOf(peer, stream, tries[0]);
      AfterCalls(peer, Effect(c, r), c.incoming, tries[1..])
  }

  function RestAfter(peer: Peer, stream: seq<Byte>, tries: seq<Try>): seq<Byte>
    decreases |tries|
  {
    if tries == [] then stream else RestAfter(peer, CallOf(peer, stream, tries[0]).incoming, tries[1..])
  }

  function FramesIn(peer: Peer, stream: seq<Byte>, tries: seq<Try>): nat
    decreases |tries|
  {
    if tries == [] then 0
    else
      var c := CallOf(peer, stream, tries[0]);
      |c.handled| + FramesIn(peer, c.incoming, tries[1..])
  }

  /** The bytes up to the rest are whole frames, n of them, and these have been handled. */
  ghost predicate HandledUpTo(peer: Peer, stream: seq<Byte>, rest: seq<Byte>, n: nat, r: Reading, r': Reading) {
    && |rest| <= |stream| && After(stream, |stream| - |rest|) == rest
    && var consumed := Upto(stream, |stream| - |rest|);
       Undecoded(peer, consumed) == [] && |Decoded(peer, consumed)| == n && r' == HandleAll(r, Decoded(peer, consumed))
  }

  lemma UptoFurther(stream: seq<Byte>, n: nat, m: nat)
    requires n + m <= |stream|
    ensures Upto(stream, n) + Upto(After(stream, n), m) == Upto(stream, n + m)
    ensures After(After(stream, n), m) == After(stream, n + m)
  {
  }

  lemma HandledOneMore(peer: Peer, stream: seq<Byte>, middle: seq<Byte>, rest: seq<Byte>, n: nat, m: nat,
                       r: Reading, r': Reading, r'': Reading)
    requires HandledUpTo(peer, stream, middle, n, r, r') && HandledUpTo(peer, middle, rest, m, r', r'')
    ensures HandledUpTo(peer, stream, rest, n + m, r, r'')
  {
    hide Upto, After, Frames, LeftOver, HandleAll;
    var a, b := Upto(stream, |stream| - |middle|), Upto(middle, |middle| - |rest|);
    UptoFurther(stream, |stream| - |middle|, |middle| - |rest|);
    CallsCompose(peer.host, peer.socket, r, a, b);
  }

  /** A successful call handled everything up to where it stopped receiving. */
  lemma CallHandledUpTo(peer: Peer, stream: seq<Byte>, t: Try, r: Reading)
    requires CallOf(peer, stream, t).result.Read?
    ensures var c := CallOf(peer, stream, t);
            HandledUpTo(peer, stream, c.incoming, |c.handled|, r, Effect(c, r))
            && (t.Single? ==> |c.handled| == 1)
  {
    var c := CallOf(peer, stream, t);
    FastCallHandlesItsFrames(peer, stream, t.script);
    SingleCallHandlesItsFrame(peer, stream, t.script);
    hide FastCall, SingleCall, HandlesAll, HandledUpTo, Effect, Decoded, Undecoded;
    HandledAllIsUpTo(peer, stream, c, r);
  }

  lemma HandledAllIsUpTo(peer: Peer, stream: seq<Byte>, c: Call, r: Reading)
    requires HandlesAll(peer, [], stream, c) && c.result.Read?
    ensures HandledUpTo(peer, stream, c.incoming, |c.handled|, r, Effect(c, r))
  {
    assert [] + stream[..|stream| - |c.incoming|] == Upto(stream, |stream| - |c.incoming|);
  }

  lemma NothingHandled(peer: Peer, stream: seq<Byte>, r: Reading)
    ensures HandledUpTo(peer, stream, stream, 0, r, r)
  {
    assert Upto(stream, 0) == [] && After(stream, 0) == stream;
  }

  lemma {:induction false} RunHandledUpTo(peer: Peer, r: Reading, stream: seq<Byte>, tries: seq<Try>)
    requires AllRead(peer, stream, tries)
    ensures HandledUpTo(peer, stream, RestAfter(peer, stream, tries), FramesIn(peer, stream, tries), r,
                        AfterCalls(peer, r, stream, tries))
    decreases |tries|
  {
    hide CallOf, HandledUpTo, Effect;
    if tries == [] {
      NothingHandled(peer, stream, r);
      return;
    }
    var c := CallOf(peer, stream, tries[0]);
    CallHandledUpTo(peer, stream, tries[0], r);
    RunHandledUpTo(peer, Effect(c, r), c.incoming, tries[1..]);
    HandledOneMore(peer, stream, c.incoming, RestAfter(peer, stream, tries), |c.handled|,
                   FramesIn(peer, c.incoming, tries[1..]), r, Effect(c, r), AfterCalls(peer, r, stream, tries));
  }

  /** Two runs of successful calls over the same bytes have the same effect: the same client id, flag, number of
      deadline increments, packets read and replies queued, and the same number of frames. It does not matter
      which reader they call, how many frames a call decodes, or what a receive brings. */
  lemma RunsAgree(peer: Peer, r: Reading, stream: seq<Byte>, a: seq<Try>, b: seq<Try>)
    requires AllRead(peer, stream, a) && AllRead(peer, stream, b)
    requires RestAfter(peer, stream, a) == RestAfter(peer, stream, b)
    ensures AfterCalls(peer, r, stream, a) == AfterCalls(peer, r, stream, b)
    ensures FramesIn(peer, stream, a) == FramesIn(peer, stream, b)
  {
    hide AllRead, RestAfter, AfterCalls, FramesIn, Decoded, Undecoded;
    RunHandledUpTo(peer, r, stream, a);
    RunHandledUpTo(peer, r, stream, b);
  }

  ghost predicate OnlySingle(tries: seq<Try>) {
    forall t <- tries :: t.Single?
  }

  lemma {:induction false} SinglesTakeOneEach(peer: Peer, stream: seq<Byte>, tries: seq<Try>)
    requires AllRead(peer, stream, tries) && OnlySingle(tries)
    ensures FramesIn(peer, stream, tries) == |tries|
    decreases |tries|
  {
    if tries == [] {
      return;
    }
    assert tries[0] in tries;
    hide CallOf, HandledUpTo, Effect;
    CallHandledUpTo(peer, stream, tries[0], Reading([], false, 0, [], []));
    SinglesTakeOneEach(peer, CallOf(peer, stream, tries[0]).incoming, tries[1..]);
  }

  /** In particular, a successful call of the fast reader that decodes k frames does what any successful calls
      of the single-shot reader on the same bytes do, and they are k calls. */
  lemma FastCallIsManySingleCalls(peer: Peer, r: Reading, stream: seq<Byte>, script: seq<Outcome>, tries: seq<Try>)
    requires FastCall(peer, stream, script).result.Read? && AllRead(peer, stream, tries) && OnlySingle(tries)
    requires RestAfter(peer, stream, tries) == FastCall(peer, stream, script).incoming
    ensures AfterCalls(peer, r, stream, tries) == Effect(FastCall(peer, stream, script), r)
    ensures |tries| == |FastCall(peer, stream, script).handled|
  {
    var once, c := [Fast(script)], FastCall(peer, stream, script);
    assert once[0] == Fast(script) && once[1..] == [];
    assert AllRead(peer, stream, once) && RestAfter(peer, stream, once) == c.incoming;
    assert AfterCalls(peer, r, stream, once) == Effect(c, r) && FramesIn(peer, stream, once) == |c.handled|;
    hide *;
    RunsAgree(peer, r, stream, once, tries);
    SinglesTakeOneEach(peer, stream, tries);
  }

  lemma SingleFrameTakes(peer: Peer, p: Packet, header: seq<Byte>, rest: seq<Byte>, script: seq<Outcome>)
    requires Sendable(peer, p) && Lively(script, |Payload(p)|) && header == Header(peer.host, |Payload(p)|)
    ensures var c := SingleFrame(peer, header, Payload(p) + rest, script);
            c.result.Read? && c.handled == [p] && c.incoming == rest
  {
    var size := |Payload(p)|;
    HeaderIffWireSize(peer.host, header, size);
    LivelyTakesAll(|Payload(p) + rest|, script, size, size);
    FrameThen(peer, p, []);
    assert (Payload(p) + rest)[..size] == Payload(p) && (Payload(p) + rest)[size..] == rest;
    assert header + Payload(p) == FrameOf(peer, p) == FrameOf(peer, p) + [] && [p] + [] == [p];
    hide FrameOf, TakeFixed, WireSize, Decoded, Undecoded, Payload;
  }

  /** If its receives bring something, a single-shot call on a stream that starts with a frame takes it. */
  lemma SingleCallTakesFrame(peer: Peer, p: Packet, rest: seq<Byte>, script: seq<Outcome>)
    requires Sendable(peer, p) && Lively(script, |FrameOf(peer, p)|)
    ensures var c := SingleCall(peer, FrameOf(peer, p) + rest, script);
            c.result.Read? && c.handled == [p] && c.incoming == rest
  {
    var stream, header := FrameOf(peer, p) + rest, Header(peer.host, |Payload(p)|);
    LivelyTakesAll(|stream|, script, SIZE_BYTES, |FrameOf(peer, p)|);
    var t := TakeFixed(|stream|, script, SIZE_BYTES, 0);
    assert Lively(t.after, |Payload(p)|);
    assert stream[..SIZE_BYTES] == header && stream[SIZE_BYTES..] == Payload(p) + rest;
    hide FrameOf, TakeFixed, SingleFrame, Payload, Header, Lively;
    SingleFrameTakes(peer, p, header, rest, t.after);
  }

  /** So there are such calls for every list of frames. */
  lemma {:induction false} SingleCallsTakeFrames(peer: Peer, ps: seq<Packet>, rest: seq<Byte>, scripts: seq<seq<Outcome>>)
    returns (tries: seq<Try>)
    requires |scripts| == |ps|
    requires forall i :: 0 <= i < |ps| ==> Sendable(peer, ps[i]) && Lively(scripts[i], |FrameOf(peer, ps[i])|)
    ensures var stream := Stream(peer.host, ps) + rest;
            OnlySingle(tries) && AllRead(peer, stream, tries) && RestAfter(peer, stream, tries) == rest
    decreases |ps|
  {
    if ps == [] {
      assert Stream(peer.host, ps) + rest == rest;
      return [];
    }
    var more := Stream(peer.host, ps[1..]) + rest;
    assert Stream(peer.host, ps) + rest == FrameOf(peer, ps[0]) + more;
    SingleCallTakesFrame(peer, ps[0], more, scripts[0]);
    var after := SingleCallsTakeFrames(peer, ps[1..], rest, scripts[1..]);
    tries := [Single(scripts[0])] + after;
    assert tries[1..] == after;
    hide SingleCall, Stream, FrameOf, Lively, Sendable;
  }

  // ---- how a single-shot call ends ----------------------------------------------------------

  /** How a call of the single-shot reader ends and what it leaves; a frame as large as the buffer is received before it is
      refused. */
  lemma SingleCallEnds(peer: Peer, stream: seq<Byte>, script: seq<Outcome>)
    ensures var c := SingleCall(peer, stream, script);
            && (c.result == Broken(OneByteRead) ==> |c.left| == 1)
            && (c.result == Broken(Oversize) ==> SIZE_BYTES <= |c.left| && !Announces(peer, c.left))
            && (c.result.Broken? && c.result.cause != OneByteRead && c.result.cause != Oversize ==> Announces(peer, c.left))
            && (c.ticked <==> !c.result.Read? && (c.result == Broken(OneByteRead) || SIZE_BYTES <= |c.left|))
  {
    var t := TakeFixed(|stream|, script, SIZE_BYTES, 0);
    var header, incoming := stream[..t.count], stream[t.count..];
    hide TakeFixed, Decoded, WireSize;
    assert |header| == SIZE_BYTES ==> header[..SIZE_BYTES] == header;
    if |header| == SIZE_BYTES && 0 <= WireSize(peer.host, header) <= peer.capacity {
      var more := TakeFixed(|incoming|, t.after, WireSize(peer.host, header), 0);
      assert (header + incoming[..more.count])[..SIZE_BYTES] == header == header[..SIZE_BYTES];
    }
  }

  /** The header comes whole, announces a frame that fits, and that comes whole. */
  lemma SingleCallReadsIff(peer: Peer, stream: seq<Byte>, script: seq<Outcome>)
    ensures var c, t := SingleCall(peer, stream, script), TakeFixed(|stream|, script, SIZE_BYTES, 0);
            if t.count < SIZE_BYTES then
              !c.result.Read? && (c.result.Terminated? <==> t.count == 0 || t.closed)
            else
              var size, available := WireSize(peer.host, stream[..SIZE_BYTES]), |stream| - SIZE_BYTES;
              && (c.result.Read? <==>
                    COMMAND_BYTES <= size < peer.capacity && TakeFixed(available, t.after, size, 0).count == size)
              && (c.result.Terminated? <==>
                    0 <= size <= peer.capacity
                    && (TakeFixed(available, t.after, size, 0).count == 0 || TakeFixed(available, t.after, size, 0).closed))
  {
    hide TakeFixed, Decoded, WireSize;
  }
}
