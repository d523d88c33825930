/** A shard's table of clients and its packet queues. */
module ClientTables {
  import opened Bytes
  import opened Packets
  import opened Buffers
  import opened Tcp
  import opened Deadlines
  import opened Clients
  import opened Readers
  import opened Calls
  import opened Polls
  import opened Iteration
  import opened Pipelines
  import opened Priorities

  /** What the clients of the other sockets are made of. */
  ghost function Others(clients: map<int, ClientInfo>, socket: int): set<object> {
    (set k | k in clients && k != socket :: clients[k] as object)
    + (set k | k in clients && k != socket :: clients[k].deadline as object)
    + (set k | k in clients && k != socket :: clients[k].deadline.queue as object)
  }

  /** The clients of the other sockets are in order, and in these states. */
  ghost predicate OthersAs(clients: map<int, ClientInfo>, socket: int, now: Timespec, states: map<int, ClientState>)
    reads Others(clients, socket)
  {
    forall k <- clients :: k != socket ==>
      && clients[k].socket == k && clients[k].Valid() && clients[k].deadline.Past(now)
      && k in states && states[k] == StateOf(clients[k])
  }

  lemma LaterAs(clients: map<int, ClientInfo>, socket: int, earlier: Timespec, now: Timespec, states: map<int, ClientState>)
    requires OthersAs(clients, socket, earlier, states) && Nanos(earlier) <= Nanos(now)
    ensures OthersAs(clients, socket, now, states)
  {
  }

  ghost function StateOf(c: ClientInfo): ClientState
    reads c, c.deadline
  {
    ClientState(c.clientId, c.terminateOnNextCycle, c.terminateNow, c.deadline.history, c.deadline.maxCount,
                c.deadline.maxTime)
  }

  ghost function LineOf(wire: Wire): Line
    reads wire
  {
    Line(wire.incoming, wire.outcomes)
  }

  /** Each socket has a line of its own. */
  ghost predicate OwnLines(wires: map<int, Wire>) {
    forall j, k :: j in wires && k in wires && j != k ==> wires[j] != wires[k]
  }

  lemma SameMap<T>(m: map<int, T>, m': map<int, T>)
    requires m.Keys == m'.Keys && forall k <- m.Keys :: m[k] == m'[k]
    ensures m == m'
  {
    assert forall k :: k in m ==> k in m.Keys;
    assert forall k :: k in m' ==> k in m'.Keys;
    assert forall k :: k in m ==> m[k] == m'[k];
  }

  ghost predicate OtherLinesAs(wires: map<int, Wire>, socket: int, lines: map<int, Line>)
    reads set k | k in wires && k != socket :: wires[k]
  {
    forall k <- wires :: k != socket ==> k in lines && lines[k] == LineOf(wires[k])
  }

  ghost function Lines(wires: map<int, Wire>): map<int, Line>
    reads set k | k in wires :: wires[k]
  {
    map k <- wires :: LineOf(wires[k])
  }

  ghost function WeightOf(c: ClientInfo): nat {
    if c.deadline.maxCount < 0 then 0 else c.deadline.maxCount
  }

  ghost function WeightsOf(clients: map<int, ClientInfo>, order: seq<int>): (r: seq<nat>)
    ensures |r| == |order|
  {
    seq(|order|, i requires 0 <= i < |order| => if order[i] in clients then WeightOf(clients[order[i]]) else 0)
  }

  lemma PaidMore(clients: map<int, ClientInfo>, order: seq<int>, socket: int, loads: Loads, index: nat)
    requires socket in clients && WellIndexed(loads) && index < |loads.sizes|
    ensures DecAll(loads, index, WeightsOf(clients, order + [socket]))
         == Dec(DecAll(loads, index, WeightsOf(clients, order)), index, WeightOf(clients[socket]))
  {
    assert WeightsOf(clients, order + [socket]) == WeightsOf(clients, order) + [WeightOf(clients[socket])];
    DecAllSnoc(loads, index, WeightsOf(clients, order), WeightOf(clients[socket]));
  }

  /** In the middle of ClientInfos::close: the rest has not been looked at. */
  ghost predicate CloseProgress(before: map<int, ClientInfo>, now: map<int, ClientInfo>, sockets: set<int>,
                                rest: set<int>, removed: set<int>, order: seq<int>)
  {
    && rest <= sockets
    && removed == (sockets - rest) * before.Keys + rest && now == before - (sockets - rest)
    && Lists(order, (sockets - rest) * before.Keys)
  }

  lemma CloseRound(before: map<int, ClientInfo>, now: map<int, ClientInfo>, sockets: set<int>,
                   rest: set<int>, removed: set<int>, order: seq<int>, socket: int)
    requires CloseProgress(before, now, sockets, rest, removed, order) && socket in rest
    ensures socket in now <==> socket in before
    ensures socket in now ==>
              && now[socket] == before[socket]
              && CloseProgress(before, now - {socket}, sockets, rest - {socket}, removed, order + [socket])
    ensures socket !in now ==>
              CloseProgress(before, now - {socket}, sockets, rest - {socket}, removed - {socket}, order)
  {
    var more := order + [socket];
    assert sockets - (rest - {socket}) == (sockets - rest) + {socket};
    if socket in before {
      assert (sockets - (rest - {socket})) * before.Keys == (sockets - rest) * before.Keys + {socket};
    } else {
      assert (sockets - (rest - {socket})) * before.Keys == (sockets - rest) * before.Keys;
    }
    assert forall i :: 0 <= i < |order| ==> order[i] in order;
  }

  lemma CloseDone(before: map<int, ClientInfo>, now: map<int, ClientInfo>, sockets: set<int>, removed: set<int>,
                  order: seq<int>)
    requires CloseProgress(before, now, sockets, {}, removed, order)
    ensures removed == sockets * before.Keys && now == before - sockets && Lists(order, removed)
  {
    assert sockets - {} == sockets;
  }

  lemma HeartBeatsSnoc(sockets: seq<int>, socket: int)
    ensures HeartBeats(sockets + [socket]) == HeartBeats(sockets) + [Packet(socket, HEARTBEAT, [])]
  {
  }

  /** In the middle of FilterSocketsToTerminate: kept is what is left of the selection. */
  ghost predicate FilterProgress(keys: set<int>, striking: set<int>, selected: set<int>, rest: set<int>,
                                 kept: set<int>, order: seq<int>)
  {
    && rest <= kept <= selected && Lists(order, selected - kept)
    && forall k <- selected :: k in kept <==> k in rest || k !in keys || k in striking
  }

  lemma FilterRound(keys: set<int>, striking: set<int>, selected: set<int>, rest: set<int>, kept: set<int>,
                    order: seq<int>, socket: int)
    requires FilterProgress(keys, striking, selected, rest, kept, order) && socket in rest
    ensures socket in keys && socket !in striking ==>
              FilterProgress(keys, striking, selected, rest - {socket}, kept - {socket}, order + [socket])
    ensures socket !in keys || socket in striking ==>
              FilterProgress(keys, striking, selected, rest - {socket}, kept, order)
  {
    if socket in keys && socket !in striking {
      var more := order + [socket];
      assert selected - (kept - {socket}) == (selected - kept) + {socket};
      assert forall i :: 0 <= i < |order| ==> order[i] in order;
    }
  }

  /** What the strikes so far have done to the flags and the sockets that are shut down. */
  ghost predicate Struck(striking: set<int>, flagged: set<int>, shut: set<int>, selected: set<int>, rest: set<int>,
                         kept: set<int>, striking': set<int>, flagged': set<int>, shut': set<int>)
  {
    && rest <= kept <= selected
    && striking' == striking + (selected - kept) && flagged' == flagged + (selected - kept)
    && shut' == shut + (kept - rest) * striking
  }

  lemma StruckMore(keys: set<int>, striking: set<int>, flagged: set<int>, shut: set<int>, selected: set<int>,
                   rest: set<int>, kept: set<int>, striking': set<int>, flagged': set<int>, shut': set<int>, socket: int)
    requires Struck(striking, flagged, shut, selected, rest, kept, striking', flagged', shut') && socket in rest
    ensures rest - {socket} <= kept - {socket} <= selected && rest - {socket} <= kept
    ensures socket in striking' <==> socket in striking
    ensures socket !in striking ==>
              Struck(striking, flagged, shut, selected, rest - {socket}, kept - {socket},
                     striking' + {socket}, flagged' + {socket}, shut' + {socket} * striking')
    ensures Struck(striking, flagged, shut, selected, rest - {socket}, kept,
                   striking' + {}, flagged' + {}, shut' + {socket} * striking')
  {
    assert selected - (kept - {socket}) == (selected - kept) + {socket};
    assert (kept - {socket}) - (rest - {socket}) == kept - rest;
    assert kept - (rest - {socket}) == (kept - rest) + {socket};
  }

  lemma StruckAll(striking: set<int>, flagged: set<int>, shut: set<int>, selected: set<int>,
                  kept: set<int>, striking': set<int>, flagged': set<int>, shut': set<int>)
    requires Struck(striking, flagged, shut, selected, {}, kept, striking', flagged', shut')
    ensures flagged' == flagged + (selected - kept) && shut' == shut + kept * striking
  {
    assert kept - {} == kept;
  }

  /** What FilterSocketsToTerminate leaves of a selection. */
  ghost function StayIn(selected: set<int>, keys: set<int>, striking: set<int>): set<int> {
    set k | k in selected && (k !in keys || k in striking)
  }

  lemma FilterDone(keys: set<int>, striking: set<int>, selected: set<int>, kept: set<int>, order: seq<int>)
    requires FilterProgress(keys, striking, selected, {}, kept, order)
    ensures kept == StayIn(selected, keys, striking) && Lists(order, selected - kept)
  {
    var r := StayIn(selected, keys, striking);
    forall k
      ensures k in kept <==> k in r
    {
      assert k in kept ==> k in selected;
      assert k in selected ==> (k in kept <==> k !in keys || k in striking);
    }
  }

  function HeartBeats(sockets: seq<int>): (r: seq<Packet>)
    ensures |r| == |sockets|
  {
    seq(|sockets|, i requires 0 <= i < |sockets| => Packet(sockets[i], HEARTBEAT, []))
  }

  /** Of the first n packets, exactly those at these places went out, in this order: those that were accepted. */
  ghost predicate WentOut(ps: seq<Packet>, outcomes: seq<SendOutcome>, n: nat, passed: seq<nat>, sent: seq<Packet>) {
    && n <= |ps| && |sent| == |passed| && Increasing(passed)
    && (forall i :: 0 <= i < n && OutcomeAt(outcomes, i).Accepted? ==> i in passed)
    && forall j :: 0 <= j < |passed| ==>
         passed[j] < n && OutcomeAt(outcomes, passed[j]).Accepted? && sent[j] == ps[passed[j]]
  }

  lemma WentOneMore(ps: seq<Packet>, outcomes: seq<SendOutcome>, n: nat, passed: seq<nat>, passed': seq<nat>,
                    sent: seq<Packet>, sent': seq<Packet>)
    requires WentOut(ps, outcomes, n, passed, sent) && n < |ps|
    requires if OutcomeAt(outcomes, n).Accepted? then passed' == passed + [n] && sent' == sent + [ps[n]]
             else passed' == passed && sent' == sent
    ensures WentOut(ps, outcomes, n + 1, passed', sent')
  {
    assert OutcomeAt(outcomes, n).Accepted? ==> passed'[|passed|] == n;
    assert forall i :: i in passed ==> i in passed';
  }

  class ClientInfos {
    const host: Host
    var clients: map<int, ClientInfo>
    var packetsToRead: seq<Packet>
    var packetsToWrite: seq<Packet>
    var watched: set<int>  // the sockets that were added to the poll set

    constructor (host: Host)
      ensures this.host == host && clients == map[] && packetsToRead == packetsToWrite == [] && watched == {}
    {
      this.host, clients, packetsToRead, packetsToWrite, watched := host, map[], [], [], {};
    }

    /** What reading from a client has done so far. */
    ghost function Snapshot(c: ClientInfo, readList: seq<Packet>): Reading
      reads this, c, c.deadline
    {
      Reading(c.clientId, c.terminateOnNextCycle, |c.deadline.history|, readList, packetsToWrite)
    }

    ghost function PeerOf(socket: int, buffer: Buffer): Peer {
      Peer(host, socket, buffer.SizeIgnoreOffset())
    }

    /** ++clientInfo.deadline */
    method CountPacket(c: ClientInfo, clock: Clock, readList: seq<Packet>, ghost r: Reading)
      requires c.Valid() && c.deadline.Past(clock.time) && r == Snapshot(c, readList)
      modifies c.deadline, c.deadline.queue, clock
      ensures c.Valid() && c.deadline.Past(clock.time) && Nanos(old(clock.time)) <= Nanos(clock.time)
      ensures Snapshot(c, readList) == Tick(r) && old(c.deadline.history) <= c.deadline.history
    {
      c.deadline.Increment(clock);
    }

    method ProcessPacket(c: ClientInfo, packet: Packet, readList: seq<Packet>, ghost r: Reading)
      returns (readList': seq<Packet>)
      requires c.Valid() && r == Snapshot(c, readList)
      modifies `packetsToWrite, c`clientId, c`terminateOnNextCycle
      ensures c.Valid() && Snapshot(c, readList') == React(r, packet)
    {
      readList' := readList;
      if packet.command == BLANK {
        c.terminateOnNextCycle := false;
      } else if packet.command == SETUP_ACK {
        packetsToWrite := packetsToWrite + [Packet(packet.socket, SETUP_SYN, [])];
      } else if packet.command == SETUP_CLIENT_ID {
        c.clientId := packet.data;
        packetsToWrite := packetsToWrite + [Packet(packet.socket, SETUP_JOIN, [])];
      } else if packet.command == SEND {
        c.terminateOnNextCycle := false;
        readList' := readList' + [packet];
      }
    }

    /** Reads on behind the bytes that are already there, as much as fits. */
    method Refill(buffer: Buffer, wire: Wire, bytesToRead: nat, ghost window: seq<Byte>)
      returns (ok: bool, total: nat, ghost t: Taken, ghost got: seq<Byte>)
      requires buffer.Valid() && bytesToRead <= buffer.Size() && window == buffer.Window(bytesToRead)
      modifies buffer, buffer.arr, wire
      ensures Brought(t, old(buffer.Size()) - bytesToRead, old(wire.incoming), old(wire.outcomes), got, wire.incoming)
      ensures wire.outcomes == t.after && buffer.offset == old(buffer.offset)
      ensures total == bytesToRead + |got| <= buffer.Size() && buffer.Window(total) == window + got
      ensures ok <==> got != []
    {
      buffer.OffsetBy(bytesToRead);
      ghost var incoming, arr := wire.incoming, buffer.arr[..];
      t := TakeSome(|incoming|, wire.outcomes, buffer.Size());
      hide TakeSome, First, Rest, Tcp.Min;
      var recvResult, again := RecvAsManyAsPossible(wire, buffer);
      got := incoming[..recvResult.noOfBytes];
      ok := !recvResult.IsFailure();
      LandedBehind(arr, old(buffer.offset), bytesToRead, incoming, recvResult.noOfBytes, buffer.arr[..], wire.incoming);
      hide Landed;
      buffer.OffsetBack(bytesToRead);
      total := bytesToRead + recvResult.noOfBytes;
    }

    method SlideToStart(buffer: Buffer, bytesToRead: nat, ghost window: seq<Byte>)
      requires buffer.Valid() && bytesToRead <= buffer.Size() && window == buffer.Window(bytesToRead)
      modifies buffer, buffer.arr
      ensures buffer.Valid() && buffer.offset == bytesToRead && buffer.arr[..][0..0 + bytesToRead] == window
    {
      assert window == buffer.arr[..][buffer.offset..][..bytesToRead];
      buffer.MoveToStart();
      buffer.SetOffset(bytesToRead);
    }

    /** Slides the bytes that are there to the start and receives exactly the missing ones. */
    method Complete(buffer: Buffer, wire: Wire, bytesToRead: nat, missing: nat, ghost window: seq<Byte>)
      returns (recvResult: Result, ghost t: Taken, ghost got: seq<Byte>)
      requires buffer.Valid() && bytesToRead <= buffer.Size() && window == buffer.Window(bytesToRead)
      requires bytesToRead + missing <= buffer.SizeIgnoreOffset()
      modifies buffer, buffer.arr, wire
      ensures Fetched(t, missing, old(wire.incoming), old(wire.outcomes), got, wire.incoming)
      ensures wire.outcomes == t.after && recvResult == Result(t.count, t.closed)
      ensures buffer.Valid() && |got| == t.count <= missing && buffer.arr[..][..bytesToRead + |got|] == window + got
    {
      ghost var incoming := wire.incoming;
      t := TakeFixed(|incoming|, wire.outcomes, missing, 0);
      assert t.count <= missing;
      hide TakeFixed, Landed;
      SlideToStart(buffer, bytesToRead, window);
      ghost var moved := buffer.arr[..];
      recvResult := RecvFixedBytes(wire, buffer, missing);
      got := incoming[..recvResult.noOfBytes];
      LandedBehind(moved, 0, bytesToRead, incoming, recvResult.noOfBytes, buffer.arr[..], wire.incoming);
    }

    /** Makes sure that a header is there. */
    method FirstBytes(buffer: Buffer, wire: Wire, bytesToRead: nat, ghost peer: Peer, ghost window: seq<Byte>)
      returns (step: ReadResult, left: nat, ghost got: seq<Byte>)
      requires buffer.Valid() && bytesToRead <= buffer.Size() && window == buffer.Window(bytesToRead)
      modifies buffer, buffer.arr, wire
      ensures buffer.offset == old(buffer.offset) && left <= buffer.Size() && buffer.Window(left) == window + got
      ensures step.Read? ==> SIZE_BYTES <= left
      ensures RoundOf(peer, old(buffer.Size()), window, old(wire.incoming), old(wire.outcomes)) ==
              if step.Read? then Decode(peer, window + got, wire.incoming, wire.outcomes)
              else Off(step, step.Broken?, window + got, wire.incoming, wire.outcomes)
    {
      step, left, got := Read, bytesToRead, [];
      ghost var room, incoming, outcomes := buffer.Size(), wire.incoming, wire.outcomes;
      assert window + [] == window;
      if left < SIZE_BYTES {
        var ok;
        ghost var t;
        ok, left, t, got := Refill(buffer, wire, left, window);
        hide Decode, TakeSome;
        RoundIs(peer, room, window, t, incoming, outcomes, got, wire.incoming);
        if !ok {
          NothingBrought(t, room - |window|, incoming, outcomes, got, wire.incoming);
          step := Terminated;
        } else if left < SIZE_BYTES {
          step := Broken(OneByteRead);
        }
      }
    }

    method PopPacket(socket: int, buffer: Buffer, bytesToRead: nat, packetSize: nat, ghost window: seq<Byte>)
      returns (packet: Packet)
      requires buffer.Valid() && COMMAND_BYTES <= packetSize <= bytesToRead <= buffer.Size()
      requires window == buffer.Window(bytesToRead)
      modifies buffer
      ensures buffer.Valid() && buffer.offset == old(buffer.offset) + packetSize
      ensures packet == FromPayload(socket, window[..packetSize])
      ensures buffer.Window(bytesToRead - packetSize) == window[packetSize..]
    {
      assert buffer.Window(packetSize) == window[..packetSize];
      packet := ExtractData(socket, buffer.Window(packetSize));
      FromItsPayload(socket, packet);
      hide Payload;
      buffer.OffsetBy(packetSize);
    }

    /** Completes the payload if it is only partly there, and takes the packet out. */
    method TakePacket(socket: int, buffer: Buffer, wire: Wire, bytesToRead: nat, packetSize: nat, ghost window: seq<Byte>)
      returns (step: ReadResult, left: nat, packet: Packet, ghost t: Taken, ghost got: seq<Byte>)
      requires buffer.Valid() && bytesToRead <= buffer.Size() && packetSize < buffer.SizeIgnoreOffset()
      requires window == buffer.Window(bytesToRead)
      modifies buffer, buffer.arr, wire
      ensures var missing: nat := if packetSize <= bytesToRead then 0 else packetSize - bytesToRead;
              && Fetched(t, missing, old(wire.incoming), old(wire.outcomes), got, wire.incoming)
              && wire.outcomes == t.after && step == Payloaded(packetSize, missing, t)
      ensures step.Read? ==>
                && COMMAND_BYTES <= packetSize <= |window + got|
                && packet == FromPayload(socket, (window + got)[..packetSize])
                && buffer.Valid() && left <= buffer.Size() && buffer.Window(left) == (window + got)[packetSize..]
                && (left > 0 ==> buffer.offset == old(buffer.offset) + packetSize)
    {
      left, packet := bytesToRead, Packet(socket, [], []);
      got, t := [], TakeFixed(|wire.incoming|, wire.outcomes, 0, 0);
      assert t == Taken(0, false, wire.outcomes) && wire.incoming[..0] == [] && wire.incoming[0..] == wire.incoming;
      assert window + [] == window;
      hide TakeFixed;
      if packetSize > left {
        var recvResult;
        recvResult, t, got := Complete(buffer, wire, left, packetSize - left, window);
        if recvResult.IsFailure() {
          return Terminated, left, packet, t, got;
        }
        left := left + recvResult.noOfBytes;
        buffer.SetOffset(0);
        assert buffer.Window(left) == window + got;
      }
      if packetSize < COMMAND_BYTES {
        return Broken(NoCommand), left, packet, t, got;
      }
      if left < packetSize {
        return Broken(ShortRead), left, packet, t, got;
      }
      packet := PopPacket(socket, buffer, left, packetSize, window + got);
      left := left - packetSize;
      step := Read;
    }

    /** Takes the size from the header and then the packet. */
    method DecodeFrame(socket: int, buffer: Buffer, wire: Wire, bytesToRead: nat, ghost window: seq<Byte>)
      returns (step: ReadResult, left: nat, packet: Packet, ghost d: Progress)
      requires buffer.Valid() && SIZE_BYTES <= bytesToRead <= buffer.Size()
      requires window == buffer.Window(bytesToRead)
      modifies buffer, buffer.arr, wire
      ensures d == Decode(PeerOf(socket, buffer), window, old(wire.incoming), old(wire.outcomes))
      ensures Progressed(d, step, packet, buffer, left, old(buffer.offset), wire)
    {
      left, packet := bytesToRead, Packet(socket, [], []);
      ghost var peer, incoming, outcomes := PeerOf(socket, buffer), wire.incoming, wire.outcomes;
      Oversized(peer, window, incoming, outcomes);
      hide Decode, Fetched, Payloaded, WireSize, TakeFixed;
      ghost var header := window[..SIZE_BYTES];
      assert buffer.Window(SIZE_BYTES)[..SIZE_BYTES] == header && window == header + window[SIZE_BYTES..];
      d := Decode(peer, window, incoming, outcomes);
      var packetSize := ExtractPacketSize(host, buffer.Window(SIZE_BYTES));
      left := left - SIZE_BYTES;
      buffer.OffsetBy(SIZE_BYTES);
      assert buffer.Window(left) == window[SIZE_BYTES..];
      if packetSize < 0 || packetSize >= buffer.SizeIgnoreOffset() {
        step := Broken(Oversize);
        return;
      }
      ghost var t, got;
      step, left, packet, t, got := TakePacket(socket, buffer, wire, left, packetSize, window[SIZE_BYTES..]);
      DecodeIs(peer, header, window[SIZE_BYTES..], packetSize,
               if packetSize <= bytesToRead - SIZE_BYTES then 0 else packetSize - (bytesToRead - SIZE_BYTES),
               t, incoming, outcomes, got, wire.incoming);
      if step.Read? {
        PayloadOfFrame(socket, (window[SIZE_BYTES..] + got)[..packetSize]);
      }
    }

    /** The step that was taken is the one that was to be made. */
    ghost predicate Progressed(d: Progress, step: ReadResult, packet: Packet, buffer: Buffer, left: nat, at: nat, wire: Wire)
      reads buffer, buffer.arr, wire
    {
      && wire.incoming == d.incoming && wire.outcomes == d.script
      && if d.Off? then step == d.result && !step.Read?
         else
           && step.Read? && packet == d.packet
           && buffer.Valid() && left <= buffer.Size() && buffer.Window(left) == d.window
           && (left > 0 ==> buffer.offset == at + SIZE_BYTES + |Payload(packet)|)
    }

    /** One round of the reader's loop, on the bytes it has and those it receives. */
    method DecodeRound(socket: int, c: ClientInfo, readList: seq<Packet>, buffer: Buffer, wire: Wire, clock: Clock,
                       bytesToRead: nat, ghost window: seq<Byte>, ghost r: Reading)
      returns (step: ReadResult, left: nat, readList': seq<Packet>, ghost packet: Packet, ghost d: Progress)
      requires c.Valid() && c.deadline.Past(clock.time)
      requires buffer.Valid() && bytesToRead <= buffer.Size()
      requires window == buffer.Window(bytesToRead) && r == Snapshot(c, readList)
      modifies `packetsToWrite, c`clientId, c`terminateOnNextCycle, c.deadline, c.deadline.queue
      modifies clock, buffer, buffer.arr, wire
      ensures c.Valid() && c.deadline.Past(clock.time) && Nanos(old(clock.time)) <= Nanos(clock.time)
      ensures old(c.deadline.history) <= c.deadline.history
      ensures d == RoundOf(PeerOf(socket, buffer), old(buffer.Size()), window, old(wire.incoming), old(wire.outcomes))
      ensures Progressed(d, step, packet, buffer, left, old(buffer.offset), wire)
      ensures Snapshot(c, readList')
           == if d.On? then React(Tick(r), d.packet) else if d.ticked then Tick(r) else r
    {
      ghost var at := buffer.offset;
      readList', packet := readList, Packet(socket, [], []);
      ghost var got;
      hide RoundOf, Decode, Progressed, Tick, React;
      d := RoundOf(PeerOf(socket, buffer), buffer.Size(), window, wire.incoming, wire.outcomes);
      step, left, got := FirstBytes(buffer, wire, bytesToRead, PeerOf(socket, buffer), window);
      if step.Terminated? {
        StoppedShort(d, step, packet, buffer, left, at, wire);
        return;
      }
      CountPacket(c, clock, readList, r);
      if !step.Read? {
        StoppedShort(d, step, packet, buffer, left, at, wire);
        return;
      }
      var p;
      step, left, p, d := DecodeFrame(socket, buffer, wire, left, window + got);
      packet := p;
      WhatProgressed(d, step, packet, buffer, left, at, wire);
      if !step.Read? {
        return;
      }
      readList' := ProcessPacket(c, p, readList, Tick(r));
    }

    lemma StoppedShort(d: Progress, step: ReadResult, packet: Packet, buffer: Buffer, left: nat, at: nat, wire: Wire)
      requires d.Off? && step == d.result && !step.Read? && wire.incoming == d.incoming && wire.outcomes == d.script
      ensures Progressed(d, step, packet, buffer, left, at, wire)
    {
    }

    lemma WhatProgressed(d: Progress, step: ReadResult, packet: Packet, buffer: Buffer, left: nat, at: nat, wire: Wire)
      requires Progressed(d, step, packet, buffer, left, at, wire)
      ensures wire.incoming == d.incoming && wire.outcomes == d.script && (step.Read? <==> d.On?)
      ensures d.Off? ==> step == d.result
      ensures d.On? ==>
                && packet == d.packet && buffer.Valid() && left <= buffer.Size() && buffer.Window(left) == d.window
                && (left > 0 ==> buffer.offset == at + SIZE_BYTES + |Payload(packet)|)
    {
    }

    /** What a call was to come to is what it came to. */
    ghost predicate CameTo(call: Call, r: Reading, result: ReadResult, wire: Wire, r': Reading)
      reads wire
    {
      && result == call.result && wire.incoming == call.incoming && wire.outcomes == call.script
      && r' == Effect(call, r)
    }

    lemma ItCameTo(call: Call, r: Reading, result: ReadResult, wire: Wire, r': Reading)
      requires result == call.result && wire.incoming == call.incoming && wire.outcomes == call.script
      requires r' == Effect(call, r)
      ensures CameTo(call, r, result, wire, r')
    {
    }

    /** ReadForSingleSocket with PC_OPTIMIZE_READ_MULTIPLE_SINGLE_SHOT, which is how the server is built. */
    method ReadForSingleSocket(socket: int, c: ClientInfo, readList: seq<Packet>, buffer: Buffer,
                               wire: Wire, clock: Clock, os: Sockets)
      returns (result: ReadResult, readList': seq<Packet>)
      requires c.Valid() && c.deadline.Past(clock.time)
      requires 0 < buffer.SizeIgnoreOffset()
      modifies `packetsToWrite, c`clientId, c`terminateOnNextCycle, c.deadline, c.deadline.queue
      modifies clock, buffer, buffer.arr, wire, os`shut
      ensures c.Valid() && c.deadline.Past(clock.time) && Nanos(old(clock.time)) <= Nanos(clock.time)
      ensures CameTo(FastCall(PeerOf(socket, buffer), old(wire.incoming), old(wire.outcomes)), old(Snapshot(c, readList)),
                     result, wire, Snapshot(c, readList'))
      ensures old(c.deadline.history) <= c.deadline.history
      ensures os.shut == old(os.shut) + if result.Terminated? then {socket} else {}
    {
      hide *;
      result, readList' := DecodeAvailable(socket, c, readList, buffer, wire, clock);
      if result.Terminated? {
        os.Shutdown(socket);
      }
    }

    /** In the middle of a call that is going to come to a given end. */
    ghost predicate Underway(peer: Peer, call: Call, r: Reading, now: Reading, handled: seq<Packet>, left: seq<Byte>,
                             wire: Wire, buffer: Buffer, bytesToRead: nat)
      reads wire, buffer, buffer.arr
    {
      && Between(peer, handled, left) && call == Ahead(peer, handled, left, wire.incoming, wire.outcomes)
      && now == HandleAll(r, handled) && peer.capacity == buffer.SizeIgnoreOffset()
      && buffer.Valid() && bytesToRead <= buffer.Size() && left == buffer.Window(bytesToRead)
      && (handled == [] ==> bytesToRead == 0)
      && (handled == [] || bytesToRead > 0 ==> buffer.offset == |Stream(peer.host, handled)|)
    }

    lemma SetsOut(peer: Peer, r: Reading, wire: Wire, buffer: Buffer)
      requires buffer.offset == 0 && peer.capacity == buffer.SizeIgnoreOffset()
      ensures Underway(peer, FastCall(peer, wire.incoming, wire.outcomes), r, r, [], [], wire, buffer, 0)
    {
      CallAhead(peer, wire.incoming, wire.outcomes);
    }

    lemma Arrives(peer: Peer, call: Call, r: Reading, now: Reading, handled: seq<Packet>, left: seq<Byte>,
                  wire: Wire, buffer: Buffer)
      requires Underway(peer, call, r, now, handled, left, wire, buffer, 0) && handled != []
      ensures CameTo(call, r, Read, wire, now)
    {
      AheadEnds(peer, handled, r, wire.incoming, wire.outcomes);
    }

    lemma WhatIsUnderway(peer: Peer, call: Call, r: Reading, now: Reading, handled: seq<Packet>, left: seq<Byte>,
                         wire: Wire, buffer: Buffer, bytesToRead: nat)
      requires Underway(peer, call, r, now, handled, left, wire, buffer, bytesToRead) && (handled == [] || bytesToRead > 0)
      ensures buffer.Valid() && bytesToRead <= buffer.Size() && left == buffer.Window(bytesToRead) && |left| == bytesToRead
      ensures now == HandleAll(r, handled) && buffer.offset == |Stream(peer.host, handled)|
      ensures Between(peer, handled, left) && call == Ahead(peer, handled, left, wire.incoming, wire.outcomes)
      ensures buffer.Size() == peer.capacity - |Stream(peer.host, handled)| && (handled == [] <==> left == [])
    {
    }

    lemma BeforeRound(peer: Peer, call: Call, r: Reading, now: Reading, handled: seq<Packet>, left: seq<Byte>,
                      wire: Wire, buffer: Buffer, bytesToRead: nat)
      requires Underway(peer, call, r, now, handled, left, wire, buffer, bytesToRead) && (handled == [] || bytesToRead > 0)
      ensures buffer.Valid() && bytesToRead <= buffer.Size() && left == buffer.Window(bytesToRead)
      ensures now == HandleAll(r, handled) && buffer.offset == |Stream(peer.host, handled)|
      ensures var d := RoundOf(peer, buffer.Size(), left, wire.incoming, wire.outcomes);
              RoundLeads(peer, handled, call, d) && (d.On? ==> |d.window| + |d.incoming| < |left| + |wire.incoming|)
    {
      hide *;
      WhatIsUnderway(peer, call, r, now, handled, left, wire, buffer, bytesToRead);
      AheadRounds(peer, handled, left, wire.incoming, wire.outcomes);
      RoundConsumes(peer, buffer.Size(), left, wire.incoming, wire.outcomes);
    }

    lemma AfterRound(peer: Peer, call: Call, r: Reading, now: Reading, handled: seq<Packet>, d: Progress, at: nat,
                     step: ReadResult, packet: Packet, wire: Wire, buffer: Buffer, bytesToRead: nat)
      requires RoundLeads(peer, handled, call, d) && peer.capacity == buffer.SizeIgnoreOffset()
      requires Progressed(d, step, packet, buffer, bytesToRead, at, wire) && at == |Stream(peer.host, handled)|
      requires now == if d.On? then React(Tick(HandleAll(r, handled)), d.packet)
                      else if d.ticked then Tick(HandleAll(r, handled)) else HandleAll(r, handled)
      ensures if d.On? then
                && step.Read? && packet == d.packet && bytesToRead <= buffer.Size()
                && Underway(peer, call, r, now, handled + [packet], d.window, wire, buffer, bytesToRead)
              else CameTo(call, r, step, wire, now) && !step.Read?
    {
      RoundLeadsOn(peer, handled, r, call, d);
      hide RoundLeads, React, Tick, HandleAll, Between, Ahead, Stream, Effect;
    }

    /** One turn of the loop. */
    method DecodeNext(socket: int, c: ClientInfo, readList: seq<Packet>, buffer: Buffer, wire: Wire, clock: Clock,
                      bytesToRead: nat, ghost call: Call, ghost r: Reading, ghost handled: seq<Packet>,
                      ghost left: seq<Byte>)
      returns (result: ReadResult, bytesToRead': nat, readList': seq<Packet>, ghost handled': seq<Packet>,
               ghost left': seq<Byte>)
      requires c.Valid() && c.deadline.Past(clock.time) && (handled == [] || bytesToRead > 0)
      requires Underway(PeerOf(socket, buffer), call, r, Snapshot(c, readList), handled, left, wire, buffer, bytesToRead)
      modifies `packetsToWrite, c`clientId, c`terminateOnNextCycle, c.deadline, c.deadline.queue
      modifies clock, buffer, buffer.arr, wire
      ensures c.Valid() && c.deadline.Past(clock.time) && Nanos(old(clock.time)) <= Nanos(clock.time)
      ensures old(c.deadline.history) <= c.deadline.history && handled' != []
      ensures if result.Read? then
                && Underway(PeerOf(socket, buffer), call, r, Snapshot(c, readList'), handled', left', wire, buffer,
                            bytesToRead')
                && |left'| + |wire.incoming| < |left| + |old(wire.incoming)|
              else CameTo(call, r, result, wire, Snapshot(c, readList'))
    {
      ghost var peer, at := PeerOf(socket, buffer), buffer.offset;
      ghost var packet, d;
      hide *;
      BeforeRound(peer, call, r, Snapshot(c, readList), handled, left, wire, buffer, bytesToRead);
      result, bytesToRead', readList', packet, d :=
        DecodeRound(socket, c, readList, buffer, wire, clock, bytesToRead, left, HandleAll(r, handled));
      AfterRound(peer, call, r, Snapshot(c, readList'), handled, d, at, result, packet, wire, buffer, bytesToRead');
      WhatProgressed(d, result, packet, buffer, bytesToRead', at, wire);
      handled', left' := handled + [packet], if d.On? then d.window else [];
    }

    /** Takes whatever is available and decodes it in place, frame after frame. */
    method DecodeAvailable(socket: int, c: ClientInfo, readList: seq<Packet>, buffer: Buffer, wire: Wire, clock: Clock)
      returns (result: ReadResult, readList': seq<Packet>)
      requires c.Valid() && c.deadline.Past(clock.time)
      requires 0 < buffer.SizeIgnoreOffset()
      modifies `packetsToWrite, c`clientId, c`terminateOnNextCycle, c.deadline, c.deadline.queue
      modifies clock, buffer, buffer.arr, wire
      ensures c.Valid() && c.deadline.Past(clock.time) && Nanos(old(clock.time)) <= Nanos(clock.time)
      ensures old(c.deadline.history) <= c.deadline.history
      ensures CameTo(FastCall(PeerOf(socket, buffer), old(wire.incoming), old(wire.outcomes)), old(Snapshot(c, readList)),
                     result, wire, Snapshot(c, readList'))
    {
      var bytesToRead: nat := 0;
      result, readList' := Read, readList;
      buffer.SetOffset(0);
      var first := true;
      ghost var peer, r := PeerOf(socket, buffer), Snapshot(c, readList);
      ghost var call := FastCall(peer, wire.incoming, wire.outcomes);
      ghost var handled: seq<Packet>, left: seq<Byte> := [], [];
      SetsOut(peer, r, wire, buffer);
      hide *;
      while first || bytesToRead > 0
        invariant c.Valid() && c.deadline.Past(clock.time) && Nanos(old(clock.time)) <= Nanos(clock.time)
        invariant old(c.deadline.history) <= c.deadline.history
        invariant Underway(peer, call, r, Snapshot(c, readList'), handled, left, wire, buffer, bytesToRead)
        invariant (first <==> handled == []) && result == Read
        decreases |wire.incoming| + |left|
      {
        result, bytesToRead, readList', handled, left :=
          DecodeNext(socket, c, readList', buffer, wire, clock, bytesToRead, call, r, handled, left);
        if !result.Read? {
          return;
        }
        first := false;
      }
      Arrives(peer, call, r, Snapshot(c, readList'), handled, left, wire, buffer);
    }

    /** The first bytes of the buffer take what comes in. */
    method Receive(buffer: Buffer, wire: Wire, size: nat)
      returns (recvResult: Result, ghost t: Taken, ghost got: seq<Byte>)
      requires buffer.Valid() && buffer.offset == 0 && size <= buffer.SizeIgnoreOffset()
      modifies wire, buffer.arr
      ensures Fetched(t, size, old(wire.incoming), old(wire.outcomes), got, wire.incoming)
      ensures wire.outcomes == t.after && recvResult == Result(t.count, t.closed)
      ensures |got| == t.count <= size && buffer.Window(|got|) == got
    {
      ghost var incoming, arr := wire.incoming, buffer.arr[..];
      t := TakeFixed(|incoming|, wire.outcomes, size, 0);
      recvResult := RecvFixedBytes(wire, buffer, size);
      got := incoming[..recvResult.noOfBytes];
      LandedPrefix(arr, 0, incoming, recvResult.noOfBytes, buffer.arr[..], wire.incoming);
      hide TakeFixed;
    }

    /** ReadForSingleSocket without PC_OPTIMIZE_READ_MULTIPLE_SINGLE_SHOT. */
    method ReadForSingleSocketOnce(socket: int, c: ClientInfo, readList: seq<Packet>, buffer: Buffer,
                                   wire: Wire, clock: Clock, os: Sockets)
      returns (result: ReadResult, readList': seq<Packet>)
      requires c.Valid() && c.deadline.Past(clock.time)
      requires SIZE_BYTES <= buffer.SizeIgnoreOffset()
      modifies `packetsToWrite, c`clientId, c`terminateOnNextCycle, c.deadline, c.deadline.queue
      modifies clock, buffer, buffer.arr, wire, os`shut
      ensures c.Valid() && c.deadline.Past(clock.time) && Nanos(old(clock.time)) <= Nanos(clock.time)
      ensures CameTo(SingleCall(PeerOf(socket, buffer), old(wire.incoming), old(wire.outcomes)), old(Snapshot(c, readList)),
                     result, wire, Snapshot(c, readList'))
      ensures os.shut == old(os.shut) + if result.Terminated? then {socket} else {}
    {
      hide *;
      result, readList' := DecodeOne(socket, c, readList, buffer, wire, clock);
      if result.Terminated? {
        os.Shutdown(socket);
      }
    }

    /** The header, then the payload over it. A size beyond the buffer is reported before the receive that
        would overrun it. */
    method DecodeOne(socket: int, c: ClientInfo, readList: seq<Packet>, buffer: Buffer, wire: Wire, clock: Clock)
      returns (result: ReadResult, readList': seq<Packet>)
      requires c.Valid() && c.deadline.Past(clock.time)
      requires SIZE_BYTES <= buffer.SizeIgnoreOffset()
      modifies `packetsToWrite, c`clientId, c`terminateOnNextCycle, c.deadline, c.deadline.queue
      modifies clock, buffer, buffer.arr, wire
      ensures c.Valid() && c.deadline.Past(clock.time) && Nanos(old(clock.time)) <= Nanos(clock.time)
      ensures CameTo(SingleCall(PeerOf(socket, buffer), old(wire.incoming), old(wire.outcomes)), old(Snapshot(c, readList)),
                     result, wire, Snapshot(c, readList'))
    {
      readList' := readList;
      buffer.SetOffset(0);
      ghost var peer, incoming, outcomes, r := PeerOf(socket, buffer), wire.incoming, wire.outcomes, Snapshot(c, readList);
      var recvResult;
      ghost var t, header;
      hide Fetched, SingleCall, SingleFrame, Effect, Tick, React, WireSize;
      recvResult, t, header := Receive(buffer, wire, SIZE_BYTES);
      SingleCallIs(peer, t, incoming, outcomes, header, wire.incoming, r);
      if recvResult.IsFailure() {
        return Terminated, readList;
      }
      CountPacket(c, clock, readList, r);
      if recvResult.noOfBytes < SIZE_BYTES {
        return Broken(OneByteRead), readList;
      }
      hide CameTo;
      result, readList' := DecodePayload(socket, c, readList, buffer, wire, clock, header, r);
    }

    /** There is a header. */
    method DecodePayload(socket: int, c: ClientInfo, readList: seq<Packet>, buffer: Buffer, wire: Wire, clock: Clock,
                         ghost header: seq<Byte>, ghost r: Reading)
      returns (result: ReadResult, readList': seq<Packet>)
      requires c.Valid() && Snapshot(c, readList) == Tick(r)
      requires buffer.Valid() && buffer.offset == 0 && SIZE_BYTES <= buffer.SizeIgnoreOffset()
      requires header == buffer.Window(SIZE_BYTES)
      modifies `packetsToWrite, c`clientId, c`terminateOnNextCycle, buffer, buffer.arr, wire
      ensures c.Valid()
      ensures CameTo(SingleFrame(PeerOf(socket, buffer), header, old(wire.incoming), old(wire.outcomes)), r,
                     result, wire, Snapshot(c, readList'))
    {
      readList' := readList;
      ghost var peer := PeerOf(socket, buffer);
      ghost var call := SingleFrame(peer, header, wire.incoming, wire.outcomes);
      hide WireSize, SingleFrame, Effect, Tick, React, CameTo;
      assert header[..SIZE_BYTES] == header;
      var packetSize := ExtractPacketSize(host, buffer.Window(SIZE_BYTES));
      if packetSize < 0 || packetSize > buffer.SizeIgnoreOffset() {
        OversizeIs(peer, header, wire.incoming, wire.outcomes, r);
        ItCameTo(call, r, Broken(Oversize), wire, Snapshot(c, readList));
        return Broken(Oversize), readList;
      }
      var packet;
      result, packet := ReceivePayload(socket, buffer, wire, packetSize, header, r);
      if result.Read? {
        readList' := ProcessPacket(c, packet, readList, Tick(r));
      }
      ItCameTo(call, r, result, wire, Snapshot(c, readList'));
    }

    method ReceivePayload(socket: int, buffer: Buffer, wire: Wire, packetSize: nat, ghost header: seq<Byte>,
                          ghost r: Reading)
      returns (result: ReadResult, packet: Packet)
      requires buffer.Valid() && buffer.offset == 0 && packetSize <= buffer.SizeIgnoreOffset()
      requires |header| == SIZE_BYTES && packetSize == WireSize(host, header)
      modifies wire, buffer, buffer.arr
      ensures var call := SingleFrame(PeerOf(socket, buffer), header, old(wire.incoming), old(wire.outcomes));
              && result == call.result && wire.incoming == call.incoming && wire.outcomes == call.script
              && Effect(call, r) == if result.Read? then React(Tick(r), packet) else Tick(r)
    {
      packet := Packet(socket, [], []);
      var recvResult;
      ghost var t, got;
      ghost var peer, incoming, outcomes := PeerOf(socket, buffer), wire.incoming, wire.outcomes;
      hide Fetched, SingleFrame, HandleAll;
      recvResult, t, got := Receive(buffer, wire, packetSize);
      SingleFrameIs(peer, header, packetSize, t, incoming, outcomes, got, wire.incoming, r);
      if recvResult.IsFailure() {
        result := Terminated;
      } else if packetSize >= buffer.SizeIgnoreOffset() {
        result := Broken(Oversize);
      } else if packetSize < COMMAND_BYTES {
        result := Broken(NoCommand);
      } else if recvResult.noOfBytes < packetSize {
        result := Broken(ShortRead);
      } else {
        result := Read;
        packet := ExtractData(socket, buffer.Window(packetSize));
        FromItsPayload(socket, packet);
        buffer.OffsetBy(packetSize);
      }
    }

    // ---- the table ----------------------------------------------------------------------------

    ghost function Footprint(): set<object>
      reads `clients
    {
      (set k | k in clients :: clients[k] as object)
      + (set k | k in clients :: clients[k].deadline as object)
      + (set k | k in clients :: clients[k].deadline.queue as object)
    }

    ghost predicate Valid()
      reads `clients, Footprint()
    {
      forall k <- clients :: clients[k].socket == k && clients[k].Valid()
    }

    /** No two clients share a deadline. */
    ghost predicate Apart()
      reads `clients
    {
      forall j, k :: j in clients && k in clients && j != k ==>
        && clients[j].deadline != clients[k].deadline && clients[j].deadline.queue != clients[k].deadline.queue
    }

    /** No deadline was incremented later than now. */
    ghost predicate Past(now: Timespec)
      reads `clients, Footprint()
    {
      forall k <- clients :: clients[k].deadline.Past(now)
    }

    ghost function States(): map<int, ClientState>
      reads `clients, Footprint()
    {
      map k <- clients :: StateOf(clients[k])
    }

    /** What the callbacks can see of the clients. */
    ghost function ClientIds(): map<int, seq<Byte>>
      reads `clients, Footprint()
    {
      map k <- clients :: clients[k].clientId
    }

    /** ClientInfos::insert: like std::map::insert, it does not replace a client that is there already. */
    method Insert(clientInfo: ClientInfo)
      requires Valid() && clientInfo.Valid()
      modifies `clients, `watched
      ensures Valid() && watched == old(watched) + {clientInfo.socket}
      ensures clients == if clientInfo.socket in old(clients) then old(clients)
                         else old(clients)[clientInfo.socket := clientInfo]
    {
      if clientInfo.socket !in clients {
        clients := clients[clientInfo.socket := clientInfo];
      }
      watched := watched + {clientInfo.socket};
    }

    /** One round of ClientInfos::close. */
    method CloseOne(socket: int, balancer: Priority, index: nat, os: Sockets) returns (found: bool)
      requires Valid() && balancer.Valid() && index < |balancer.sizes|
      modifies `clients, balancer, os`closed
      ensures Valid() && balancer.Valid() && |balancer.sizes| == |old(balancer.sizes)|
      ensures (found <==> socket in old(clients)) && clients == old(clients) - {socket}
      ensures os.closed == old(os.closed) + if found then [socket] else []
      ensures balancer.View() == if found then Dec(old(balancer.View()), index, WeightOf(old(clients)[socket]))
                                 else old(balancer.View())
    {
      found := socket in clients;
      if found {
        balancer.DecPriority(index, clients[socket].DeadlineMaxCount());
        clients := clients - {socket};
        os.Close(socket);
      }
    }

    /** ClientInfos::close: of the sockets given, those that are registered go, are closed once each and
        paid for at the balancer, in some order; exactly those are returned. */
    method Close(socketsToRemove: set<int>, balancer: Priority, index: nat, os: Sockets)
      returns (removed: set<int>, ghost order: seq<int>)
      requires Valid() && balancer.Valid() && index < |balancer.sizes|
      modifies `clients, balancer, os`closed
      ensures Valid() && balancer.Valid() && |balancer.sizes| == |old(balancer.sizes)|
      ensures removed == socketsToRemove * old(clients.Keys) && clients == old(clients) - socketsToRemove
      ensures Lists(order, removed) && os.closed == old(os.closed) + order
      ensures balancer.View() == DecAll(old(balancer.View()), index, WeightsOf(old(clients), order))
    {
      removed, order := socketsToRemove, [];
      var rest := socketsToRemove;
      ghost var before, loads, closed := clients, balancer.View(), os.closed;
      assert CloseProgress(before, clients, socketsToRemove, socketsToRemove, removed, order);
      assert WellIndexed(loads) && closed + [] == closed;
      hide *;
      while rest != {}
        invariant Valid() && balancer.Valid() && |balancer.sizes| == |loads.sizes|
        invariant CloseProgress(before, clients, socketsToRemove, rest, removed, order)
        invariant os.closed == closed + order
        invariant balancer.View() == DecAll(loads, index, WeightsOf(before, order))
        decreases rest
      {
        Inhabited(rest);
        var socket :| socket in rest;
        CloseRound(before, clients, socketsToRemove, rest, removed, order, socket);
        var found := CloseOne(socket, balancer, index, os);
        if found {
          PaidMore(before, order, socket, loads, index);
          Assoc(closed, order, [socket]);
          order := order + [socket];
        } else {
          removed := removed - {socket};
        }
        rest := rest - {socket};
      }
      CloseDone(before, clients, socketsToRemove, removed, order);
    }

    /** ClientInfos::OldestSocket: the socket that the hash map has first. */
    method OldestSocket() returns (socket: int)
      requires clients != map[]
      ensures socket in clients
    {
      Inhabited(clients.Keys);
      socket :| socket in clients;
    }

    /** ClientInfos::RemoveOldestClientAndReturn: the client that the hash map has first, or a made-up one
        for a table without clients. Its socket stays in the poll set. */
    method RemoveOldestClientAndReturn(first: int, clock: Clock) returns (clientInfo: ClientInfo)
      requires Valid() && (clients == map[] || first in clients)
      modifies `clients, clock
      ensures Valid() && clientInfo.Valid() && clients == old(clients) - {clientInfo.socket}
      ensures old(clients) != map[] ==> clientInfo.socket == first && clientInfo == old(clients)[first]
      ensures old(clients) == map[] ==>
                && fresh(clientInfo) && clientInfo.socket == -1 && clientInfo.deadline.maxCount == 25
                && !clientInfo.terminateOnNextCycle
    {
      if clients == map[] {
        clientInfo := new ClientInfo(-1, 25, clock);
        return;
      }
      clientInfo := clients[first];
      clients := clients - {first};
    }

    /** The registered sockets whose warning flag is set, and those that the next strike takes down. */
    ghost function Flagged(): set<int>
      reads `clients, Footprint()
    {
      set k | k in clients && clients[k].terminateOnNextCycle
    }

    ghost function Striking(): set<int>
      reads `clients, Footprint()
    {
      set k | k in clients && (clients[k].terminateOnNextCycle || clients[k].terminateNow)
    }

    /** One round of FilterSocketsToTerminate, under the lock. */
    method FilterOne(socket: int, os: Sockets) returns (terminateNow: bool)
      requires Valid()
      modifies (set k | k in clients :: clients[k])`terminateOnNextCycle, os`shut
      ensures Valid() && (terminateNow <==> socket !in clients || socket in old(Striking()))
      ensures Flagged() == old(Flagged()) + if terminateNow then {} else {socket}
      ensures Striking() == old(Striking()) + if terminateNow then {} else {socket}
      ensures os.shut == old(os.shut) + {socket} * old(Striking())
    {
      if socket in clients {
        ghost var flagged := Flagged();
        terminateNow := clients[socket].TerminateThisCycleOrNext(os);
        assert forall k <- clients :: k != socket ==> clients[k] != clients[socket];
        assert forall k <- clients :: k in Flagged() <==> k in flagged || (k == socket && !terminateNow);
      } else {
        terminateNow := true;
      }
    }

    /** ClientInfos::FilterSocketsToTerminate: the first strike takes a socket out of the selection and
        queues it a HeartBeat; the second one, and sockets that are not registered, stay in. */
    method FilterSocketsToTerminate(socketsSelected: set<int>, os: Sockets)
      returns (kept: set<int>, ghost order: seq<int>)
      requires Valid()
      modifies (set k | k in clients :: clients[k])`terminateOnNextCycle, `packetsToWrite, os`shut
      ensures Valid()
      ensures kept == StayIn(socketsSelected, clients.Keys, old(Striking()))
      ensures Lists(order, socketsSelected - kept) && packetsToWrite == old(packetsToWrite) + HeartBeats(order)
      ensures forall i :: 0 <= i < |order| ==> packetsToWrite[|old(packetsToWrite)| + i] == Packet(order[i], HEARTBEAT, [])
      ensures Flagged() == old(Flagged()) + (socketsSelected - kept)
      ensures os.shut == old(os.shut) + kept * old(Striking())
    {
      var warningMessageList;
      kept, warningMessageList, order := Strike(socketsSelected, os);
      packetsToWrite := packetsToWrite + warningMessageList;
    }

    /** The loop of FilterSocketsToTerminate. */
    method Strike(socketsSelected: set<int>, os: Sockets)
      returns (kept: set<int>, warningMessageList: seq<Packet>, ghost order: seq<int>)
      requires Valid()
      modifies (set k | k in clients :: clients[k])`terminateOnNextCycle, os`shut
      ensures Valid()
      ensures kept == StayIn(socketsSelected, clients.Keys, old(Striking()))
      ensures Lists(order, socketsSelected - kept) && warningMessageList == HeartBeats(order)
      ensures Flagged() == old(Flagged()) + (socketsSelected - kept)
      ensures os.shut == old(os.shut) + kept * old(Striking())
    {
      kept, order, warningMessageList := socketsSelected, [], [];
      var rest := socketsSelected;
      ghost var keys, striking, flagged, shut := clients.Keys, Striking(), Flagged(), os.shut;
      assert FilterProgress(keys, striking, socketsSelected, rest, kept, order);
      assert Struck(striking, flagged, shut, socketsSelected, rest, kept, Striking(), Flagged(), os.shut);
      hide *;
      while rest != {}
        invariant Valid() && rest <= kept <= socketsSelected
        invariant FilterProgress(keys, striking, socketsSelected, rest, kept, order)
        invariant warningMessageList == HeartBeats(order)
        invariant Struck(striking, flagged, shut, socketsSelected, rest, kept, Striking(), Flagged(), os.shut)
        decreases rest
      {
        Inhabited(rest);
        var socket :| socket in rest;
        FilterRound(keys, striking, socketsSelected, rest, kept, order, socket);
        StruckMore(keys, striking, flagged, shut, socketsSelected, rest, kept, Striking(), Flagged(), os.shut, socket);
        var terminateNow := FilterOne(socket, os);
        if !terminateNow {
          HeartBeatsSnoc(order, socket);
          kept := kept - {socket};
          warningMessageList := warningMessageList + [Packet(socket, HEARTBEAT, [])];
          order := order + [socket];
        }
        rest := rest - {socket};
      }
      FilterDone(keys, striking, socketsSelected, kept, order);
      StruckAll(striking, flagged, shut, socketsSelected, kept, Striking(), Flagged(), os.shut);
    }

    /** The client has something to say. */
    method HearClient(c: ClientInfo, socket: int, readList: seq<Packet>, buffer: Buffer, wire: Wire, clock: Clock,
                      os: Sockets, ghost client: ClientState, ghost line: Line, ghost time: Timespec)
      returns (handling: Handling, readList': seq<Packet>, ghost v: Visit)
      requires c.Valid() && c.deadline.Past(clock.time) && 0 < buffer.SizeIgnoreOffset()
      requires client == StateOf(c) && line == LineOf(wire)
      modifies `packetsToWrite, c`clientId, c`terminateOnNextCycle, c.deadline, c.deadline.queue
      modifies clock, buffer, buffer.arr, wire, os`shut
      ensures c.Valid() && c.deadline.Past(clock.time) && Nanos(old(clock.time)) <= Nanos(clock.time) && v.time == time
      ensures CameTrue(HeardOf(PeerOf(socket, buffer), client, line, v.stamps), v, socket, handling, StateOf(c),
                       LineOf(wire), readList, readList', old(packetsToWrite), packetsToWrite, old(os.shut), os.shut)
    {
      ghost var r, shut := Snapshot(c, readList), os.shut;
      hide FastCall, Effect, HeardOf, CameTrue, ClientInfo.Valid, Deadline.Past;
      var result;
      result, readList' := ReadForSingleSocket(socket, c, readList, buffer, wire, clock, os);
      v := Visit(time, c.deadline.history[|client.history|..]);
      handling := ReadAs(result);
      HeardComesTrue(PeerOf(socket, buffer), client, line, v, result, StateOf(c), LineOf(wire), r, Snapshot(c, readList'),
                     shut, os.shut);
    }

    /** One round of OnReadPoll, for a client that is registered: it is read from if it has something to say,
        unless it is to be terminated or has said too much of late. */
    method PollClient(c: ClientInfo, event: PollEvent, readList: seq<Packet>, buffer: Buffer, wire: Wire,
                      clock: Clock, os: Sockets, ghost client: ClientState, ghost line: Line)
      returns (handling: Handling, readList': seq<Packet>, ghost v: Visit)
      requires c.Valid() && c.deadline.Past(clock.time) && 0 < buffer.SizeIgnoreOffset()
      requires client == StateOf(c) && line == LineOf(wire)
      modifies `packetsToWrite, c`clientId, c`terminateOnNextCycle, c.deadline, c.deadline.queue
      modifies clock, buffer, buffer.arr, wire, os`shut
      ensures c.Valid() && c.deadline.Past(clock.time)
      ensures Nanos(old(clock.time)) <= Nanos(v.time) <= Nanos(clock.time)
      ensures handling.Barred? <==>
                client.terminateNow || CountWithin(client.history, v.time, client.maxTime) >= client.maxCount
      ensures handling.ReadAs? <==> event.readable && !handling.Barred?
      ensures !handling.HungUp? && !handling.Unknown?
      ensures CameTrue(VisitOf(PeerOf(event.socket, buffer), event, client, line, v), v, event.socket, handling,
                       StateOf(c), LineOf(wire), readList, readList', old(packetsToWrite), packetsToWrite,
                       old(os.shut), os.shut)
    {
      handling, readList', v := Barred, readList, Visit(clock.time, []);
      NothingCame(event.socket, Barred, client, line, readList, packetsToWrite, os.shut);
      NothingCame(event.socket, Passed, client, line, readList, packetsToWrite, os.shut);
      hide FastCall, CountWithin, Holds, Sorted, CameTrue, HeardOf;
      if c.terminateNow {
        return;
      }
      var breached := c.deadline.Breached(clock);
      v := Visit(clock.time, []);
      if breached {
        return;
      }
      handling := Passed;
      if event.readable {
        handling, readList', v :=
          HearClient(c, event.socket, readList, buffer, wire, clock, os, client, line, v.time);
      }
    }

    lemma OthersApart(socket: int, c: ClientInfo, buffer: Buffer, wire: Wire, clock: Clock, os: Sockets)
      requires Valid() && Apart() && socket in clients && c == clients[socket]
      ensures {this, c, c.deadline, c.deadline.queue, clock, buffer, buffer.arr, wire, os} !! Others(clients, socket)
      ensures {c, c.deadline, c.deadline.queue} <= Footprint() && c.socket == socket
    {
    }

    lemma AllReady(socket: int, c: ClientInfo, now: Timespec)
      returns (states: map<int, ClientState>)
      requires Valid() && Past(now) && socket in clients && c == clients[socket]
      ensures OthersAs(clients, socket, now, states) && c.Valid() && c.deadline.Past(now)
      ensures states == States() && c.socket == socket
    {
      states := States();
    }

    lemma AllAs(socket: int, c: ClientInfo, now: Timespec, states: map<int, ClientState>)
      requires OthersAs(clients, socket, now, states) && socket in clients && c == clients[socket]
      requires c.socket == socket && c.Valid() && c.deadline.Past(now) && states.Keys == clients.Keys
      ensures Valid() && Past(now) && States() == states[socket := StateOf(c)]
    {
      SameMap(States(), states[socket := StateOf(c)]);
    }

    /** Reading from one client does not disturb the others. */
    method PollApart(c: ClientInfo, event: PollEvent, readList: seq<Packet>, buffer: Buffer, wire: Wire, clock: Clock,
                     os: Sockets, ghost client: ClientState, ghost line: Line, ghost states: map<int, ClientState>)
      returns (handling: Handling, readList': seq<Packet>, ghost v: Visit)
      requires c.Valid() && c.deadline.Past(clock.time) && 0 < buffer.SizeIgnoreOffset()
      requires client == StateOf(c) && line == LineOf(wire) && OthersAs(clients, event.socket, clock.time, states)
      requires {this, c, c.deadline, c.deadline.queue, clock, buffer, buffer.arr, wire, os} !! Others(clients, event.socket)
      modifies `packetsToWrite, c`clientId, c`terminateOnNextCycle, c.deadline, c.deadline.queue
      modifies clock, buffer, buffer.arr, wire, os`shut
      ensures Nanos(old(clock.time)) <= Nanos(v.time) <= Nanos(clock.time)
      ensures c.Valid() && c.deadline.Past(clock.time) && OthersAs(clients, event.socket, clock.time, states)
      ensures CameTrue(VisitOf(PeerOf(event.socket, buffer), event, client, line, v), v, event.socket, handling,
                       StateOf(c), LineOf(wire), readList, readList', old(packetsToWrite), packetsToWrite,
                       old(os.shut), os.shut)
    {
      ghost var time := clock.time;
      hide *;
      handling, readList', v := PollClient(c, event, readList, buffer, wire, clock, os, client, line);
      LaterAs(clients, event.socket, time, clock.time, states);
    }

    lemma OtherLinesApart(wires: map<int, Wire>, socket: int)
      requires OwnLines(wires) && socket in wires
      ensures wires[socket] !in (set k | k in wires && k != socket :: wires[k])
      ensures OtherLinesAs(wires, socket, Lines(wires))
    {
    }

    lemma AllLinesAs(wires: map<int, Wire>, socket: int, lines: map<int, Line>)
      requires OtherLinesAs(wires, socket, lines) && socket in wires && lines.Keys == wires.Keys
      ensures Lines(wires) == lines[socket := LineOf(wires[socket])]
    {
      SameMap(Lines(wires), lines[socket := LineOf(wires[socket])]);
    }

    /** The states of the clients, the lines, and what the poll has gathered so far. */
    ghost function Gathered(wires: map<int, Wire>, readList: seq<Packet>, os: Sockets, doomed: set<int>,
                            heard: set<int>, broken: bool): Polled
      reads this, Footprint(), os, set k | k in wires :: wires[k]
    {
      Polled(States(), Lines(wires), readList, packetsToWrite, os.shut, doomed, heard, broken)
    }

    lemma NotBroken(wires: map<int, Wire>, readList: seq<Packet>, os: Sockets, doomed: set<int>, heard: set<int>)
      ensures !Gathered(wires, readList, os, doomed, heard, false).broken
    {
    }

    method PollRegistered(c: ClientInfo, event: PollEvent, wires: map<int, Wire>, readList: seq<Packet>, buffer: Buffer,
                          wire: Wire, clock: Clock, os: Sockets, ghost s: Polled)
      returns (handling: Handling, readList': seq<Packet>, ghost v: Visit, ghost client: ClientState, ghost line: Line)
      requires Valid() && Apart() && Past(clock.time) && 0 < buffer.SizeIgnoreOffset() && OwnLines(wires)
      requires event.socket in clients && c == clients[event.socket]
      requires event.socket in wires && wire == wires[event.socket]
      requires event.socket in s.clients && event.socket in s.lines
      requires s.clients == States() && s.lines == Lines(wires) && s.toWrite == packetsToWrite && s.shut == os.shut
      modifies `packetsToWrite, Footprint(), clock, buffer, buffer.arr, wire, os`shut
      ensures Valid() && Past(clock.time) && clients == old(clients) && packetsToRead == old(packetsToRead)
      ensures Nanos(old(clock.time)) <= Nanos(v.time) <= Nanos(clock.time)
      ensures States() == s.clients[event.socket := client] && Lines(wires) == s.lines[event.socket := line]
      ensures CameTrue(VisitOf(PeerOf(event.socket, buffer), event, s.clients[event.socket], s.lines[event.socket], v),
                       v, event.socket, handling, client, line, readList, readList', s.toWrite, packetsToWrite,
                       s.shut, os.shut)
    {
      hide *;
      Known(wires, event.socket);
      OthersApart(event.socket, c, buffer, wire, clock, os);
      OtherLinesApart(wires, event.socket);
      ghost var client0, line0 := s.clients[event.socket], s.lines[event.socket];
      ghost var states := AllReady(event.socket, c, clock.time);
      assert states == s.clients;
      handling, readList', v := PollApart(c, event, readList, buffer, wire, clock, os, client0, line0, states);
      AllAs(event.socket, c, clock.time, states);
      AllLinesAs(wires, event.socket, s.lines);
      client, line := StateOf(c), LineOf(wire);
    }

    method HandleRegistered(event: PollEvent, wires: map<int, Wire>, readList: seq<Packet>, heard: set<int>,
                            doomed: set<int>, buffer: Buffer, clock: Clock, os: Sockets, ghost s: Polled)
      returns (readList': seq<Packet>, heard': set<int>, doomed': set<int>, broken: bool, ghost v: Visit)
      requires Valid() && Apart() && Past(clock.time) && 0 < buffer.SizeIgnoreOffset() && OwnLines(wires)
      requires event.socket in wires && !event.hangUp && event.socket in clients
      requires s == Gathered(wires, readList, os, doomed, heard, false)
      modifies `packetsToWrite, Footprint(), clock, buffer, buffer.arr, os`shut
      modifies set k | k in wires :: wires[k]
      ensures Valid() && Past(clock.time) && clients == old(clients) && packetsToRead == old(packetsToRead)
      ensures Nanos(old(clock.time)) <= Nanos(v.time) <= Nanos(clock.time)
      ensures event.socket in s.lines && Timely(host, buffer.SizeIgnoreOffset(), s, event, v)
      ensures Gathered(wires, readList', os, doomed', heard', broken)
           == PollStep(host, buffer.SizeIgnoreOffset(), s, event, v)
    {
      readList', heard', doomed' := readList, heard, doomed;
      Known(wires, event.socket);
      hide VisitOf, Lines, States, Valid, Past, Apart, OwnLines, CameTrue, PollStep, Timely;
      var handling;
      ghost var client, line;
      handling, readList', v, client, line :=
        PollRegistered(clients[event.socket], event, wires, readList, buffer, wires[event.socket], clock, os, s);
      if handling.Barred? || handling == ReadAs(Terminated) {
        doomed' := doomed + {event.socket};
      } else if handling == ReadAs(Read) {
        heard' := heard + {event.socket};
      }
      broken := handling.ReadAs? && handling.result.Broken?;
      StepIs(host, buffer.SizeIgnoreOffset(), s, event, v, handling, client, line,
             Gathered(wires, readList', os, doomed', heard', broken));
    }

    method HandleEvent(event: PollEvent, wires: map<int, Wire>, readList: seq<Packet>, heard: set<int>, doomed: set<int>,
                       buffer: Buffer, clock: Clock, os: Sockets, ghost s: Polled)
      returns (readList': seq<Packet>, heard': set<int>, doomed': set<int>, broken: bool, ghost v: Visit)
      requires Valid() && Apart() && Past(clock.time) && 0 < buffer.SizeIgnoreOffset() && OwnLines(wires)
      requires event.socket in wires && s == Gathered(wires, readList, os, doomed, heard, false)
      modifies `packetsToWrite, Footprint(), clock, buffer, buffer.arr, os`shut
      modifies set k | k in wires :: wires[k]
      ensures Valid() && Past(clock.time) && clients == old(clients) && packetsToRead == old(packetsToRead)
      ensures Nanos(old(clock.time)) <= Nanos(v.time) <= Nanos(clock.time)
      ensures event.socket in s.lines && Timely(host, buffer.SizeIgnoreOffset(), s, event, v)
      ensures Gathered(wires, readList', os, doomed', heard', broken)
           == PollStep(host, buffer.SizeIgnoreOffset(), s, event, v)
    {
      Known(wires, event.socket);
      hide VisitOf, Lines, States, Valid, Past, Apart, OwnLines;
      if event.hangUp || event.socket !in clients {
        return readList, heard, doomed + {event.socket}, false, Visit(clock.time, []);
      }
      readList', heard', doomed', broken, v :=
        HandleRegistered(event, wires, readList, heard, doomed, buffer, clock, os, s);
    }

    lemma Known(wires: map<int, Wire>, socket: int)
      ensures States().Keys == clients.Keys && Lines(wires).Keys == wires.Keys
      ensures socket in clients ==> States()[socket] == StateOf(clients[socket])
      ensures socket in wires ==> Lines(wires)[socket] == LineOf(wires[socket])
    {
    }

    /** What ClientInfos::OnReadPoll does under the lock. */
    method PollEvents(events: seq<PollEvent>, wires: map<int, Wire>, socketsToTerminate: set<int>, buffer: Buffer,
                      clock: Clock, os: Sockets, ghost s: Polled)
      returns (readList: seq<Packet>, socketsWeReadAt: set<int>, socketsToTerminate': set<int>, broken: bool,
               ghost visits: seq<Visit>)
      requires Valid() && Apart() && Past(clock.time) && 0 < buffer.SizeIgnoreOffset()
      requires OwnLines(wires) && forall e <- events :: e.socket in wires
      requires s == Gathered(wires, [], os, socketsToTerminate, {}, false)
      modifies `packetsToWrite, Footprint(), clock, buffer, buffer.arr, os`shut
      modifies set k | k in wires :: wires[k]
      ensures Valid() && Past(clock.time) && clients == old(clients) && packetsToRead == old(packetsToRead)
      ensures InTime(old(clock.time), visits, clock.time) && Nanos(old(clock.time)) <= Nanos(clock.time)
      ensures |visits| <= |events| && (!broken ==> |visits| == |events|)
      ensures Reached(host, buffer.SizeIgnoreOffset(), s, events[..|visits|], visits,
                      Gathered(wires, readList, os, socketsToTerminate', socketsWeReadAt, broken))
    {
      readList, socketsWeReadAt, socketsToTerminate', broken, visits := [], {}, socketsToTerminate, false, [];
      ghost var capacity := buffer.SizeIgnoreOffset();
      ghost var start := clock.time;
      NoneReached(host, capacity, s, events);
      assert InTime(start, visits, start);
      hide *;
      for i := 0 to |events|
        invariant Valid() && Past(clock.time) && Apart() && 0 < buffer.SizeIgnoreOffset()
        invariant clients == old(clients) && packetsToRead == old(packetsToRead) && !broken
        invariant |visits| == i && Nanos(start) <= Nanos(clock.time) && InTime(start, visits, clock.time)
        invariant Reached(host, capacity, s, events[..i], visits,
                          Gathered(wires, readList, os, socketsToTerminate', socketsWeReadAt, false))
      {
        ghost var v;
        var event := events[i];
        ghost var now, time := Gathered(wires, readList, os, socketsToTerminate', socketsWeReadAt, false), clock.time;
        NotBroken(wires, readList, os, socketsToTerminate', socketsWeReadAt);
        readList, socketsWeReadAt, socketsToTerminate', broken, v :=
          HandleEvent(event, wires, readList, socketsWeReadAt, socketsToTerminate', buffer, clock, os, now);
        OneMoreReached(host, capacity, s, events, visits, now, v);
        InTimeMore(start, visits, time, v, clock.time);
        visits := visits + [v];
        if broken {
          return;
        }
      }
    }

    /** The events were handled, in their order and all of them unless the reader broke, and what they came to is
        what is there now. */
    ghost predicate CameOut(capacity: nat, s: Polled, s': Polled, events: seq<PollEvent>, visits: seq<Visit>,
                            wires: map<int, Wire>, os: Sockets, doomed: set<int>, broken: bool)
      reads this, Footprint(), os, set k | k in wires :: wires[k]
    {
      && |visits| <= |events| && (!broken ==> |visits| == |events|)
      && Reached(host, capacity, s, events[..|visits|], visits, s')
      && s' == Gathered(wires, s'.readList, os, doomed, s'.heard, broken)
      && SocketBySocket(capacity, s, s', events, visits)
    }

    /** When no socket is reported twice, socket by socket. */
    ghost predicate SocketBySocket(capacity: nat, s: Polled, s': Polled, events: seq<PollEvent>, visits: seq<Visit>) {
      Distinct(events) ==>
        && |visits| <= |events| && (forall e <- events[..|visits|] :: e.socket in s.lines)
        && Outcomes(host, capacity, s, events[..|visits|], visits, s')
    }

    lemma ItCameOut(capacity: nat, s: Polled, s': Polled, events: seq<PollEvent>, visits: seq<Visit>, wires: map<int, Wire>,
                    readList: seq<Packet>, os: Sockets, doomed: set<int>, heard: set<int>, broken: bool)
      requires |visits| <= |events| && (!broken ==> |visits| == |events|)
      requires Reached(host, capacity, s, events[..|visits|], visits, s')
      requires s' == Gathered(wires, readList, os, doomed, heard, broken)
      requires !s.broken
      ensures CameOut(capacity, s, s', events, visits, wires, os, doomed, broken)
      ensures s'.readList == readList && s'.heard == heard
    {
      hide Outcomes, PollAll, AllTimely;
      if Distinct(events) {
        PollComesTo(host, capacity, s, events[..|visits|], visits, s');
      }
    }

    /** Only registered clients are heard. When no socket is reported twice: heard are exactly those that were read from
        with success; they are none of those that were doomed, which are exactly those that hung up, are not registered,
        were barred or lost their connection. */
    ghost predicate HeardAndDoomed(capacity: nat, s: Polled, events: seq<PollEvent>, visits: seq<Visit>, heard: set<int>,
                                   doomed: set<int>)
      reads `clients
    {
      heard <= clients.Keys &&
      (Distinct(events) ==>
        && |visits| <= |events| && Wired(s, events[..|visits|])
        && heard == EndedIn(host, capacity, s, events[..|visits|], visits, Read)
        && doomed == s.doomed + DoomedIn(host, capacity, s, events[..|visits|], visits)
        && heard !! DoomedIn(host, capacity, s, events[..|visits|], visits))
    }

    lemma WhoWasHeard(capacity: nat, s: Polled, s': Polled, events: seq<PollEvent>, visits: seq<Visit>,
                      wires: map<int, Wire>, os: Sockets, doomed: set<int>, broken: bool)
      requires CameOut(capacity, s, s', events, visits, wires, os, doomed, broken)
      requires s.heard == {} && s.clients.Keys == clients.Keys
      ensures HeardAndDoomed(capacity, s, events, visits, s'.heard, doomed)
    {
      var es := events[..|visits|];
      hide AllTimely, PollAll, StatesOut, ListsOut, EndedIn, DoomedIn;
      HeardAreRegistered(host, capacity, s, es, visits);
      if Distinct(events) {
        assert Wired(s, es);
        HeardOrDoomed(host, capacity, s, es, visits);
        assert {} + EndedIn(host, capacity, s, es, visits, Read) == EndedIn(host, capacity, s, es, visits, Read);
      }
    }

    lemma Gathering(wires: map<int, Wire>, readList: seq<Packet>, os: Sockets, doomed: set<int>, heard: set<int>,
                    broken: bool)
      ensures var s := Gathered(wires, readList, os, doomed, heard, broken);
              s.doomed == doomed && s.heard == heard && s.broken == broken && s.clients.Keys == clients.Keys
    {
    }

    /** ClientInfos::OnReadPoll, for the events that epoll has reported and the stream of each socket. When the
        reader breaks, what was read so far is lost. */
    method OnReadPoll(events: seq<PollEvent>, wires: map<int, Wire>, socketsToTerminate: set<int>, buffer: Buffer,
                      clock: Clock, os: Sockets, ghost s: Polled)
      returns (socketsWeReadAt: set<int>, socketsToTerminate': set<int>, broken: bool, ghost visits: seq<Visit>,
               ghost s': Polled)
      requires Valid() && Apart() && Past(clock.time) && 0 < buffer.SizeIgnoreOffset()
      requires OwnLines(wires) && forall e <- events :: e.socket in wires
      requires s == Gathered(wires, [], os, socketsToTerminate, {}, false)
      modifies `packetsToRead, `packetsToWrite, Footprint(), clock, buffer, buffer.arr, os`shut
      modifies set k | k in wires :: wires[k]
      ensures Valid() && Past(clock.time) && clients == old(clients)
      ensures InTime(old(clock.time), visits, clock.time) && s'.heard == socketsWeReadAt
      ensures HeardAndDoomed(buffer.SizeIgnoreOffset(), s, events, visits, socketsWeReadAt, socketsToTerminate')
      ensures CameOut(buffer.SizeIgnoreOffset(), s, s', events, visits, wires, os, socketsToTerminate', broken)
      ensures packetsToRead == old(packetsToRead) + if broken then [] else s'.readList
    {
      var readList;
      ghost var capacity := buffer.SizeIgnoreOffset();
      hide *;
      Gathering(wires, [], os, socketsToTerminate, {}, false);
      readList, socketsWeReadAt, socketsToTerminate', broken, visits :=
        PollEvents(events, wires, socketsToTerminate, buffer, clock, os, s);
      s' := Gathered(wires, readList, os, socketsToTerminate', socketsWeReadAt, broken);
      ItCameOut(capacity, s, s', events, visits, wires, readList, os, socketsToTerminate', socketsWeReadAt, broken);
      WhoWasHeard(capacity, s, s', events, visits, wires, os, socketsToTerminate', broken);
      if !broken {
        TakeIn(readList, wires, os, socketsToTerminate', broken, s, s', clock.time, capacity, events,
               visits);
      }
    }

    method TakeIn(readList: seq<Packet>, ghost wires: map<int, Wire>, ghost os: Sockets, ghost doomed: set<int>,
                  ghost broken: bool, ghost s: Polled, ghost s': Polled, ghost now: Timespec,
                  ghost capacity: nat, ghost events: seq<PollEvent>, ghost visits: seq<Visit>)
      requires Valid() && Past(now) && CameOut(capacity, s, s', events, visits, wires, os, doomed, broken)
      modifies `packetsToRead
      ensures Valid() && Past(now) && CameOut(capacity, s, s', events, visits, wires, os, doomed, broken)
      ensures packetsToRead == old(packetsToRead) + readList
    {
      packetsToRead := packetsToRead + readList;
    }

    /** ClientInfos::Execute: all packets that were read get their callback and become packets to write;
        without any client they are dropped. The answer to a registered client is what it said, and its id behind it. */
    method Execute()
      requires Valid()
      modifies `packetsToRead, `packetsToWrite
      ensures packetsToRead == []
      ensures packetsToWrite == old(packetsToWrite)
                + if clients == map[] then [] else AnswerPackets(old(packetsToRead), old(ClientIds()))
      ensures clients != map[] ==>
                && |packetsToWrite| == |old(packetsToWrite)| + |old(packetsToRead)|
                && forall i :: 0 <= i < |old(packetsToRead)| ==>
                     SaysBack(packetsToWrite[|old(packetsToWrite)| + i], old(packetsToRead)[i], ClientIds())
    {
      if packetsToRead == [] {
        return;
      }
      var tempList := packetsToRead;
      packetsToRead := [];
      if clients == map[] {
        return;
      }
      ghost var taken := tempList;
      for i := 0 to |tempList|
        invariant |tempList| == |taken|
        invariant forall k :: 0 <= k < i ==> tempList[k] == Answer(taken[k], ClientIds())
        invariant forall k :: i <= k < |tempList| ==> tempList[k] == taken[k]
      {
        var packet := tempList[i];
        if packet.socket in clients {
          tempList := tempList[i := packet.(data := packet.data + WAS_RECEIVED_FROM + clients[packet.socket].clientId)];
        }
      }
      packetsToWrite := packetsToWrite + tempList;
      forall i | 0 <= i < |taken|
        ensures SaysBack(tempList[i], taken[i], ClientIds())
      {
        AnswerSaysBack(taken[i], ClientIds());
      }
    }

    /** ClientInfos::Write: the packets go out in order until one finds its socket closed; that socket is
        shut down, and the packets behind it, whoever they are for, are dropped. passed says which ones went out. */
    method Write(outcomes: seq<SendOutcome>, os: Sockets)
      returns (sent: seq<Packet>, ghost reached: nat, ghost passed: seq<nat>)
      modifies `packetsToWrite, os`shut
      ensures packetsToWrite == [] && reached == Reach(outcomes, |old(packetsToWrite)|)
      ensures sent == AcceptedOf(old(packetsToWrite)[..reached], outcomes)
      ensures WentOut(old(packetsToWrite), outcomes, reached, passed, sent)
      ensures os.shut == old(os.shut)
                + if reached < |old(packetsToWrite)| then {old(packetsToWrite)[reached].socket} else {}
    {
      var tempWriteList := packetsToWrite;
      packetsToWrite, sent, reached, passed := [], [], 0, [];
      for i := 0 to |tempWriteList|
        invariant reached == i && packetsToWrite == [] && os.shut == old(os.shut)
        invariant Reach(outcomes, |tempWriteList|) >= i
        invariant sent == AcceptedOf(tempWriteList[..i], outcomes)
        invariant WentOut(tempWriteList, outcomes, i, passed, sent)
      {
        var outcome := OutcomeAt(outcomes, i);
        ghost var before, gone := passed, sent;
        assert tempWriteList[..i + 1][..i] == tempWriteList[..i];
        if outcome.Closed? {
          os.Shutdown(tempWriteList[i].socket);
          return;
        }
        if outcome.Accepted? {
          sent, passed := sent + [tempWriteList[i]], passed + [i];
        }
        WentOneMore(tempWriteList, outcomes, i, before, passed, gone, sent);
        reached := i + 1;
      }
    }
  }
}
