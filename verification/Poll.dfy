/** What a shard makes of the events that epoll reports: a function of what it knows of its clients, of what
    these have sent, of what the receives bring, and of the readings of the clock. */
module Polls {
  import opened Bytes
  import opened Packets
  import opened Tcp
  import opened Deadlines
  import opened Readers
  import opened Calls

  /** What epoll reports of a socket: that it hung up or failed, or that it can be read. */
  datatype PollEvent = PollEvent(socket: int, hangUp: bool, readable: bool)

  /** What was made of it. */
  datatype Handling = HungUp | Unknown | Barred | Passed | ReadAs(result: ReadResult)

  datatype ClientState = ClientState(clientId: seq<Byte>, terminateOnNextCycle: bool, terminateNow: bool,
                                     history: seq<Timespec>, maxCount: int, maxTime: int)

  /** What a client has sent that was not received yet, and what the receives are going to bring. */
  datatype Line = Line(incoming: seq<Byte>, script: seq<Outcome>)

  /** When the limiter was asked, and the increments of the deadline while the client was read from. */
  datatype Visit = Visit(time: Timespec, stamps: seq<Timespec>)

  datatype Visited = Visited(handling: Handling, client: ClientState, line: Line, handled: seq<Packet>, ticks: nat)

  predicate TooFast(c: ClientState, now: Timespec) {
    CountWithin(c.history, now, c.maxTime) >= c.maxCount
  }

  /** A registered client is barred if it is to be terminated or was too fast when the limiter was asked; if
      not, and it has something to say, it is read from. */
  function VisitOf(peer: Peer, e: PollEvent, c: ClientState, line: Line, v: Visit): Visited {
    if c.terminateNow || TooFast(c, v.time) then Visited(Barred, c, line, [], 0)
    else if !e.readable then Visited(Passed, c, line, [], 0)
    else HeardOf(peer, c, line, v.stamps)
  }

  function HeardOf(peer: Peer, c: ClientState, line: Line, stamps: seq<Timespec>): Visited {
    var call := FastCall(peer, line.incoming, line.script);
    var client := ClientState(IdAfter(c.clientId, call.handled), c.terminateOnNextCycle && !SignOfLife(call.handled),
                              c.terminateNow, c.history + stamps, c.maxCount, c.maxTime);
    Visited(ReadAs(call.result), client, Line(call.incoming, call.script), call.handled,
            |call.handled| + if call.ticked then 1 else 0)
  }

  /** A visit came to what it was to come to. */
  ghost predicate CameTrue(x: Visited, v: Visit, socket: int, handling: Handling, client: ClientState, line: Line,
                           readList: seq<Packet>, readList': seq<Packet>, toWrite: seq<Packet>, toWrite': seq<Packet>,
                           shut: set<int>, shut': set<int>)
  {
    && handling == x.handling && client == x.client && line == x.line && |v.stamps| == x.ticks
    && readList' == readList + SendsOf(x.handled) && toWrite' == toWrite + RepliesOf(x.handled)
    && shut' == shut + Only(socket, handling == ReadAs(Terminated))
  }

  /** In the middle of a poll: the clients, their lines, the Send packets read, the packets to write, the sockets
      that were shut down, those to be terminated, those that were heard, and whether the reader broke. */
  datatype Polled = Polled(clients: map<int, ClientState>, lines: map<int, Line>, readList: seq<Packet>,
                           toWrite: seq<Packet>, shut: set<int>, doomed: set<int>, heard: set<int>, broken: bool)

  function Only(socket: int, c: bool): set<int> {
    if c then {socket} else {}
  }

  /** One event. Sockets that hung up, that are not registered, whose client is barred or whose connection
      failed are to be terminated. Nothing happens any more once the reader broke. */
  function PollStep(host: Host, capacity: nat, s: Polled, e: PollEvent, v: Visit): (s': Polled)
    requires e.socket in s.lines
    ensures s'.clients.Keys == s.clients.Keys && s'.lines.Keys == s.lines.Keys
  {
    if s.broken then s
    else if e.hangUp || e.socket !in s.clients then s.(doomed := s.doomed + {e.socket})
    else
      var x := VisitOf(Peer(host, e.socket, capacity), e, s.clients[e.socket], s.lines[e.socket], v);
      Polled(s.clients[e.socket := x.client], s.lines[e.socket := x.line],
             s.readList + SendsOf(x.handled), s.toWrite + RepliesOf(x.handled),
             s.shut + Only(e.socket, x.handling == ReadAs(Terminated)),
             s.doomed + Only(e.socket, x.handling.Barred? || x.handling == ReadAs(Terminated)),
             s.heard + Only(e.socket, x.handling == ReadAs(Read)),
             x.handling.ReadAs? && x.handling.result.Broken?)
  }

  /** All events, in their order. */
  function PollAll(host: Host, capacity: nat, s: Polled, es: seq<PollEvent>, vs: seq<Visit>): (s': Polled)
    requires |es| == |vs| && forall e <- es :: e.socket in s.lines
    ensures s'.clients.Keys == s.clients.Keys && s'.lines.Keys == s.lines.Keys
  {
    if es == [] then s
    else
      var n := |es| - 1;
      assert es[n] in es;
      PollStep(host, capacity, PollAll(host, capacity, s, es[..n], vs[..n]), es[n], vs[n])
  }

  /** As many increments as the reader makes. */
  ghost predicate Timely(host: Host, capacity: nat, s: Polled, e: PollEvent, v: Visit)
    requires e.socket in s.lines
  {
    s.broken || e.hangUp || e.socket !in s.clients
    || |v.stamps| == VisitOf(Peer(host, e.socket, capacity), e, s.clients[e.socket], s.lines[e.socket], v).ticks
  }

  ghost predicate AllTimely(host: Host, capacity: nat, s: Polled, es: seq<PollEvent>, vs: seq<Visit>)
    requires |es| == |vs| && forall e <- es :: e.socket in s.lines
  {
    es == [] ||
    var n := |es| - 1;
    assert es[n] in es;
    && AllTimely(host, capacity, s, es[..n], vs[..n]) && !PollAll(host, capacity, s, es[..n], vs[..n]).broken
    && Timely(host, capacity, PollAll(host, capacity, s, es[..n], vs[..n]), es[n], vs[n])
  }

  /** The events were handled, with these visits and none after the reader broke, and that is what they came to. */
  ghost predicate Reached(host: Host, capacity: nat, s: Polled, es: seq<PollEvent>, vs: seq<Visit>, s': Polled) {
    && |es| == |vs| && (forall e <- es :: e.socket in s.lines)
    && AllTimely(host, capacity, s, es, vs) && s' == PollAll(host, capacity, s, es, vs)
  }

  lemma {:induction false} NoneReached(host: Host, capacity: nat, s: Polled, es: seq<PollEvent>)
    ensures Reached(host, capacity, s, es[..0], [], s)
  {
    assert es[..0] == [];
  }

  lemma {:induction false} OneMoreReached(host: Host, capacity: nat, s: Polled, es: seq<PollEvent>, vs: seq<Visit>,
                                          s': Polled, v: Visit)
    requires |vs| < |es| && Reached(host, capacity, s, es[..|vs|], vs, s')
    requires !s'.broken && es[|vs|].socket in s'.lines && Timely(host, capacity, s', es[|vs|], v)
    ensures Reached(host, capacity, s, es[..|vs| + 1], vs + [v], PollStep(host, capacity, s', es[|vs|], v))
  {
    var n := |vs|;
    var more := es[..n + 1];
    assert more[..n] == es[..n] && (vs + [v])[..n] == vs && more[n] == es[n] && (vs + [v])[n] == v;
    assert forall e <- more :: e in es[..n] || e == es[n];
    hide PollStep, Timely;
  }

  lemma NothingCame(socket: int, handling: Handling, client: ClientState, line: Line, readList: seq<Packet>,
                    toWrite: seq<Packet>, shut: set<int>)
    requires !handling.ReadAs?
    ensures forall time :: CameTrue(Visited(handling, client, line, [], 0), Visit(time, []), socket, handling, client, line,
                                    readList, readList, toWrite, toWrite, shut, shut)
  {
    assert readList + SendsOf([]) == readList && toWrite + RepliesOf([]) == toWrite;
  }

  /** A call of the reader makes the visit of a client that it reads from. */
  lemma HeardComesTrue(peer: Peer, client: ClientState, line: Line, v: Visit, result: ReadResult, client': ClientState,
                       line': Line, r: Reading, r': Reading, shut: set<int>, shut': set<int>)
    requires var call := FastCall(peer, line.incoming, line.script);
             result == call.result && line' == Line(call.incoming, call.script) && r' == Effect(call, r)
    requires r.clientId == client.clientId && r.terminateOnNextCycle == client.terminateOnNextCycle
    requires r'.clientId == client'.clientId && r'.terminateOnNextCycle == client'.terminateOnNextCycle
    requires r.ticks == |client.history| && r'.ticks == |client'.history| && client'.history == client.history + v.stamps
    requires client' == client.(clientId := client'.clientId, terminateOnNextCycle := client'.terminateOnNextCycle,
                                history := client'.history)
    requires shut' == shut + Only(peer.socket, result.Terminated?)
    ensures CameTrue(HeardOf(peer, client, line, v.stamps), v, peer.socket, ReadAs(result), client', line',
                     r.readList, r'.readList, r.toWrite, r'.toWrite, shut, shut')
  {
    var call := FastCall(peer, line.incoming, line.script);
    EffectMeans(call, r);
    hide FastCall, Effect, SendsOf, RepliesOf, SignOfLife, IdAfter;
  }

  lemma StepIs(host: Host, capacity: nat, s: Polled, e: PollEvent, v: Visit, handling: Handling, client: ClientState,
               line: Line, s': Polled)
    requires !s.broken && !e.hangUp && e.socket in s.clients && e.socket in s.lines
    requires var x := VisitOf(Peer(host, e.socket, capacity), e, s.clients[e.socket], s.lines[e.socket], v);
             CameTrue(x, v, e.socket, handling, client, line, s.readList, s'.readList, s.toWrite, s'.toWrite,
                      s.shut, s'.shut)
    requires s'.clients == s.clients[e.socket := client] && s'.lines == s.lines[e.socket := line]
    requires s'.doomed == s.doomed + Only(e.socket, handling.Barred? || handling == ReadAs(Terminated))
    requires s'.heard == s.heard + Only(e.socket, handling == ReadAs(Read))
    requires s'.broken <==> handling.ReadAs? && handling.result.Broken?
    ensures s' == PollStep(host, capacity, s, e, v) && Timely(host, capacity, s, e, v)
  {
    hide VisitOf, SendsOf, RepliesOf;
  }

  /** The limiter was asked during the poll, and for one client after the other. */
  ghost predicate InTime(from: Timespec, vs: seq<Visit>, to: Timespec) {
    forall i, j :: 0 <= i <= j < |vs| ==> Nanos(from) <= Nanos(vs[i].time) <= Nanos(vs[j].time) <= Nanos(to)
  }

  lemma InTimeMore(from: Timespec, vs: seq<Visit>, to: Timespec, v: Visit, to': Timespec)
    requires InTime(from, vs, to) && Nanos(from) <= Nanos(to) <= Nanos(v.time) <= Nanos(to')
    ensures InTime(from, vs + [v], to')
  {
  }

  // ---- who is read from, who is barred, and who is heard --------------------------------------

  /** The client was not to be terminated, had fewer than maxCount recent increments when the limiter was asked, and has
      something to say. */
  predicate ReadsFrom(s: Polled, e: PollEvent, v: Visit) {
    && !e.hangUp && e.socket in s.clients && e.readable
    && var c := s.clients[e.socket];
       !c.terminateNow && CountWithin(c.history, v.time, c.maxTime) < c.maxCount
  }

  /** The call of the reader that the socket is in for. */
  function CallOn(host: Host, capacity: nat, s: Polled, e: PollEvent): Call
    requires e.socket in s.lines
  {
    FastCall(Peer(host, e.socket, capacity), s.lines[e.socket].incoming, s.lines[e.socket].script)
  }

  /** Whether a socket is to be terminated. */
  predicate Dooms(host: Host, capacity: nat, s: Polled, e: PollEvent, v: Visit)
    requires e.socket in s.lines
  {
    || e.hangUp || e.socket !in s.clients
    || s.clients[e.socket].terminateNow
    || CountWithin(s.clients[e.socket].history, v.time, s.clients[e.socket].maxTime) >= s.clients[e.socket].maxCount
    || (e.readable && CallOn(host, capacity, s, e).result.Terminated?)
  }

  /** Whether a socket is read from, with this result. */
  predicate Ends(host: Host, capacity: nat, s: Polled, e: PollEvent, v: Visit, result: ReadResult)
    requires e.socket in s.lines
  {
    ReadsFrom(s, e, v) && CallOn(host, capacity, s, e).result == result
  }

  predicate Breaks(host: Host, capacity: nat, s: Polled, e: PollEvent, v: Visit)
    requires e.socket in s.lines
  {
    ReadsFrom(s, e, v) && CallOn(host, capacity, s, e).result.Broken?
  }

  /** What has been read and handled. */
  function HandledOf(host: Host, capacity: nat, s: Polled, e: PollEvent, v: Visit): seq<Packet>
    requires e.socket in s.lines
  {
    if ReadsFrom(s, e, v) then CallOn(host, capacity, s, e).handled else []
  }

  function HandledIn(host: Host, capacity: nat, s: Polled, es: seq<PollEvent>, vs: seq<Visit>): seq<Packet>
    requires |es| == |vs| && forall e <- es :: e.socket in s.lines
  {
    if es == [] then []
    else
      var n := |es| - 1;
      assert es[n] in es;
      HandledIn(host, capacity, s, es[..n], vs[..n]) + HandledOf(host, capacity, s, es[n], vs[n])
  }

  /** How the client and its line are left. */
  ghost predicate LeftAs(host: Host, capacity: nat, s: Polled, e: PollEvent, v: Visit, s': Polled)
    requires e.socket in s.lines && e.socket in s'.lines && s'.clients.Keys == s.clients.Keys
  {
    if ReadsFrom(s, e, v) then
      var call, c := CallOn(host, capacity, s, e), s.clients[e.socket];
      && s'.lines[e.socket] == Line(call.incoming, call.script)
      && s'.clients[e.socket] == c.(clientId := IdAfter(c.clientId, call.handled),
                                    terminateOnNextCycle := c.terminateOnNextCycle && !SignOfLife(call.handled),
                                    history := c.history + v.stamps)
      && |v.stamps| == |call.handled| + if call.ticked then 1 else 0
    else
      s'.lines[e.socket] == s.lines[e.socket] && (e.socket in s.clients ==> s'.clients[e.socket] == s.clients[e.socket])
  }

  /** What a poll over events of different sockets comes to, socket by socket. */
  ghost predicate Outcomes(host: Host, capacity: nat, s: Polled, es: seq<PollEvent>, vs: seq<Visit>, s': Polled)
    requires |es| == |vs| && forall e <- es :: e.socket in s.lines
  {
    && SetsOut(host, capacity, s, es, vs, s') && ListsOut(host, capacity, s, es, vs, s')
    && StatesOut(host, capacity, s, es, vs, s')
  }

  predicate Wired(s: Polled, es: seq<PollEvent>) {
    forall i :: 0 <= i < |es| ==> es[i].socket in s.lines
  }

  function DoomedIn(host: Host, capacity: nat, s: Polled, es: seq<PollEvent>, vs: seq<Visit>): set<int>
    requires |es| == |vs| && Wired(s, es)
  {
    set i | 0 <= i < |es| && Dooms(host, capacity, s, es[i], vs[i]) :: es[i].socket
  }

  function EndedIn(host: Host, capacity: nat, s: Polled, es: seq<PollEvent>, vs: seq<Visit>, result: ReadResult): set<int>
    requires |es| == |vs| && Wired(s, es)
  {
    set i | 0 <= i < |es| && Ends(host, capacity, s, es[i], vs[i], result) :: es[i].socket
  }

  ghost predicate SetsOut(host: Host, capacity: nat, s: Polled, es: seq<PollEvent>, vs: seq<Visit>, s': Polled)
    requires |es| == |vs| && Wired(s, es)
  {
    && s'.doomed == s.doomed + DoomedIn(host, capacity, s, es, vs)
    && s'.heard == s.heard + EndedIn(host, capacity, s, es, vs, Read)
    && s'.shut == s.shut + EndedIn(host, capacity, s, es, vs, Terminated)
  }

  ghost predicate ListsOut(host: Host, capacity: nat, s: Polled, es: seq<PollEvent>, vs: seq<Visit>, s': Polled)
    requires |es| == |vs| && forall e <- es :: e.socket in s.lines
  {
    && s'.readList == s.readList + SendsOf(HandledIn(host, capacity, s, es, vs))
    && s'.toWrite == s.toWrite + RepliesOf(HandledIn(host, capacity, s, es, vs))
  }

  ghost predicate StatesOut(host: Host, capacity: nat, s: Polled, es: seq<PollEvent>, vs: seq<Visit>, s': Polled)
    requires |es| == |vs| && Wired(s, es)
  {
    && s'.clients.Keys == s.clients.Keys && s'.lines.Keys == s.lines.Keys
    && (forall k <- s.clients :: Unnamed(es, k) ==> s'.clients[k] == s.clients[k])
    && (forall k <- s.lines :: Unnamed(es, k) ==> s'.lines[k] == s.lines[k])
    && (forall i :: 0 <= i < |es| ==> LeftAs(host, capacity, s, es[i], vs[i], s'))
    && (s'.broken <==> es != [] && Breaks(host, capacity, s, es[|es| - 1], vs[|es| - 1]))
  }

  /** No event is about this socket. */
  ghost predicate Unnamed(es: seq<PollEvent>, k: int) {
    forall i :: 0 <= i < |es| ==> es[i].socket != k
  }

  /** One event, of a socket that is as it was at the beginning of the poll. */
  lemma StepOut(host: Host, capacity: nat, s: Polled, s1: Polled, e: PollEvent, v: Visit)
    requires e.socket in s.lines && e.socket in s1.lines && s1.clients.Keys == s.clients.Keys && !s1.broken
    requires s1.lines[e.socket] == s.lines[e.socket]
    requires e.socket in s.clients ==> s1.clients[e.socket] == s.clients[e.socket]
    requires Timely(host, capacity, s1, e, v)
    ensures var s' := PollStep(host, capacity, s1, e, v);
            && s'.doomed == s1.doomed + Only(e.socket, Dooms(host, capacity, s, e, v))
            && s'.heard == s1.heard + Only(e.socket, Ends(host, capacity, s, e, v, Read))
            && s'.shut == s1.shut + Only(e.socket, Ends(host, capacity, s, e, v, Terminated))
            && s'.readList == s1.readList + SendsOf(HandledOf(host, capacity, s, e, v))
            && s'.toWrite == s1.toWrite + RepliesOf(HandledOf(host, capacity, s, e, v))
            && (s'.broken <==> Breaks(host, capacity, s, e, v)) && LeftAs(host, capacity, s, e, v, s')
            && (forall k <- s1.clients :: k != e.socket ==> s'.clients[k] == s1.clients[k])
            && (forall k <- s1.lines :: k != e.socket ==> s'.lines[k] == s1.lines[k])
  {
    hide FastCall, CountWithin, IdAfter, SignOfLife;
    assert SendsOf([]) == [] && RepliesOf([]) == [];
  }

  lemma DoomedMore(host: Host, capacity: nat, s: Polled, es: seq<PollEvent>, vs: seq<Visit>, e: PollEvent, v: Visit)
    requires |es| == |vs| && Wired(s, es) && e.socket in s.lines
    ensures Wired(s, es + [e])
    ensures DoomedIn(host, capacity, s, es + [e], vs + [v])
         == DoomedIn(host, capacity, s, es, vs) + Only(e.socket, Dooms(host, capacity, s, e, v))
  {
    var n := |es|;
    assert forall i :: 0 <= i < n ==> (es + [e])[i] == es[i] && (vs + [v])[i] == vs[i];
    assert (es + [e])[n] == e && (vs + [v])[n] == v;
    hide Dooms;
  }

  lemma EndedMore(host: Host, capacity: nat, s: Polled, es: seq<PollEvent>, vs: seq<Visit>, e: PollEvent, v: Visit,
                  result: ReadResult)
    requires |es| == |vs| && Wired(s, es) && e.socket in s.lines
    ensures Wired(s, es + [e])
    ensures EndedIn(host, capacity, s, es + [e], vs + [v], result)
         == EndedIn(host, capacity, s, es, vs, result) + Only(e.socket, Ends(host, capacity, s, e, v, result))
  {
    var n := |es|;
    assert forall i :: 0 <= i < n ==> (es + [e])[i] == es[i] && (vs + [v])[i] == vs[i];
    assert (es + [e])[n] == e && (vs + [v])[n] == v;
    hide Ends;
  }

  lemma SetsMore(host: Host, capacity: nat, s: Polled, es: seq<PollEvent>, vs: seq<Visit>, s1: Polled, e: PollEvent,
                 v: Visit, s': Polled)
    requires |es| == |vs| && Wired(s, es) && e.socket in s.lines && SetsOut(host, capacity, s, es, vs, s1)
    requires s'.doomed == s1.doomed + Only(e.socket, Dooms(host, capacity, s, e, v))
    requires s'.heard == s1.heard + Only(e.socket, Ends(host, capacity, s, e, v, Read))
    requires s'.shut == s1.shut + Only(e.socket, Ends(host, capacity, s, e, v, Terminated))
    ensures Wired(s, es + [e]) && SetsOut(host, capacity, s, es + [e], vs + [v], s')
  {
    hide DoomedIn, EndedIn, Dooms, Ends, Only, Wired;
    DoomedMore(host, capacity, s, es, vs, e, v);
    EndedMore(host, capacity, s, es, vs, e, v, Read);
    EndedMore(host, capacity, s, es, vs, e, v, Terminated);
  }

  lemma ListsMore(host: Host, capacity: nat, s: Polled, es: seq<PollEvent>, vs: seq<Visit>, s1: Polled, s': Polled)
    requires |es| == |vs| && es != [] && forall e <- es :: e.socket in s.lines
    requires ListsOut(host, capacity, s, es[..|es| - 1], vs[..|es| - 1], s1)
    requires assert es[|es| - 1] in es;
             var more := HandledOf(host, capacity, s, es[|es| - 1], vs[|es| - 1]);
             s'.readList == s1.readList + SendsOf(more) && s'.toWrite == s1.toWrite + RepliesOf(more)
    ensures ListsOut(host, capacity, s, es, vs, s')
  {
    assert es[|es| - 1] in es;
    var more := HandledOf(host, capacity, s, es[|es| - 1], vs[|es| - 1]);
    var before := HandledIn(host, capacity, s, es[..|es| - 1], vs[..|es| - 1]);
    assert HandledIn(host, capacity, s, es, vs) == before + more;
    hide HandledOf, HandledIn;
    SendsConcat(before, more);
    RepliesConcat(before, more);
    Assoc(s.readList, SendsOf(before), SendsOf(more));
    Assoc(s.toWrite, RepliesOf(before), RepliesOf(more));
  }

  lemma LeftLater(host: Host, capacity: nat, s: Polled, e: PollEvent, v: Visit, s1: Polled, s': Polled)
    requires e.socket in s.lines && e.socket in s1.lines && s1.clients.Keys == s.clients.Keys
    requires e.socket in s'.lines && s'.clients.Keys == s.clients.Keys && s'.lines[e.socket] == s1.lines[e.socket]
    requires e.socket in s.clients ==> s'.clients[e.socket] == s1.clients[e.socket]
    requires LeftAs(host, capacity, s, e, v, s1)
    ensures LeftAs(host, capacity, s, e, v, s')
  {
    hide FastCall, CountWithin, IdAfter, SignOfLife;
  }

  lemma StatesMore(host: Host, capacity: nat, s: Polled, es: seq<PollEvent>, vs: seq<Visit>, s1: Polled, e: PollEvent,
                   v: Visit, s': Polled)
    requires |es| == |vs| && Wired(s, es) && e.socket in s.lines && StatesOut(host, capacity, s, es, vs, s1)
    requires Unnamed(es, e.socket) && s'.clients.Keys == s.clients.Keys && s'.lines.Keys == s.lines.Keys
    requires (s'.broken <==> Breaks(host, capacity, s, e, v)) && LeftAs(host, capacity, s, e, v, s')
    requires forall k <- s1.clients :: k != e.socket ==> s'.clients[k] == s1.clients[k]
    requires forall k <- s1.lines :: k != e.socket ==> s'.lines[k] == s1.lines[k]
    ensures Wired(s, es + [e]) && StatesOut(host, capacity, s, es + [e], vs + [v], s')
  {
    var n, more, visits := |es|, es + [e], vs + [v];
    assert more[n] == e && visits[n] == v;
    hide LeftAs, Breaks;
    forall i | 0 <= i <= n
      ensures LeftAs(host, capacity, s, more[i], visits[i], s')
    {
      if i < n {
        assert LeftAs(host, capacity, s, es[i], vs[i], s1) && es[i].socket != e.socket;
        LeftLater(host, capacity, s, es[i], vs[i], s1, s');
      }
    }
    forall k | Unnamed(more, k)
      ensures Unnamed(es, k) && k != e.socket
    {
      assert more[n].socket != k && forall i :: 0 <= i < n ==> more[i] == es[i];
    }
  }

  /** The events of a poll are reported once a socket. Whoever hung up, is not registered, is to be terminated, was too fast
      when the limiter was asked, or lost its connection is doomed, and nobody else; whoever was read from without that is
      heard, and nobody else; each is left as the call of the reader leaves it, the others as they were; and what was
      read and what is to be said is what these calls handled, in the order of the events. */
  lemma {:induction false} PollComesTo(host: Host, capacity: nat, s: Polled, es: seq<PollEvent>, vs: seq<Visit>, s': Polled)
    requires Reached(host, capacity, s, es, vs, s') && Distinct(es) && !s.broken
    ensures Outcomes(host, capacity, s, es, vs, s')
    decreases |es|
  {
    if es == [] {
      NothingComesTo(host, capacity, s);
      return;
    }
    var n := |es| - 1;
    LastReached(host, capacity, s, es, vs, s');
    var s1 := PollAll(host, capacity, s, es[..n], vs[..n]);
    hide *;
    PollComesTo(host, capacity, s, es[..n], vs[..n], s1);
    OutcomesMore(host, capacity, s, es, vs, s1, s');
  }

  lemma NothingComesTo(host: Host, capacity: nat, s: Polled)
    requires !s.broken
    ensures Outcomes(host, capacity, s, [], [], s)
  {
    assert SendsOf([]) == [] && RepliesOf([]) == [] && s.readList + [] == s.readList && s.toWrite + [] == s.toWrite;
  }

  lemma LastReached(host: Host, capacity: nat, s: Polled, es: seq<PollEvent>, vs: seq<Visit>, s': Polled)
    requires es != [] && Reached(host, capacity, s, es, vs, s') && Distinct(es)
    ensures var n := |es| - 1;
            assert es[n] in es;
            var s1 := PollAll(host, capacity, s, es[..n], vs[..n]);
            && Reached(host, capacity, s, es[..n], vs[..n], s1) && Distinct(es[..n]) && !s1.broken
            && Timely(host, capacity, s1, es[n], vs[n]) && s' == PollStep(host, capacity, s1, es[n], vs[n])
  {
    hide PollStep, Timely;
  }

  lemma OutcomesMore(host: Host, capacity: nat, s: Polled, es: seq<PollEvent>, vs: seq<Visit>, s1: Polled, s': Polled)
    requires |es| == |vs| && es != [] && Distinct(es) && !s1.broken && forall e <- es :: e.socket in s.lines
    requires Outcomes(host, capacity, s, es[..|es| - 1], vs[..|es| - 1], s1)
    requires var e, v := es[|es| - 1], vs[|es| - 1];
             && e.socket in s1.lines && Timely(host, capacity, s1, e, v) && s' == PollStep(host, capacity, s1, e, v)
    ensures Outcomes(host, capacity, s, es, vs, s')
  {
    var n := |es| - 1;
    var es1, vs1, e, v := es[..n], vs[..n], es[n], vs[n];
    assert es == es1 + [e] && vs == vs1 + [v] && forall i :: 0 <= i < |es| ==> es[i] in es;
    NotYet(es);
    assert s1.lines[e.socket] == s.lines[e.socket];
    assert e.socket in s.clients ==> s1.clients[e.socket] == s.clients[e.socket];
    assert s1.clients.Keys == s.clients.Keys && s1.lines.Keys == s.lines.Keys;
    hide *;
    StepOut(host, capacity, s, s1, e, v);
    AllOut(host, capacity, s, es1, vs1, s1);
    SetsMore(host, capacity, s, es1, vs1, s1, e, v, s');
    ListsMore(host, capacity, s, es, vs, s1, s');
    StatesMore(host, capacity, s, es1, vs1, s1, e, v, s');
    IsOut(host, capacity, s, es, vs, s');
  }

  lemma AllOut(host: Host, capacity: nat, s: Polled, es: seq<PollEvent>, vs: seq<Visit>, s': Polled)
    requires |es| == |vs| && (forall e <- es :: e.socket in s.lines) && Outcomes(host, capacity, s, es, vs, s')
    ensures Wired(s, es)
    ensures SetsOut(host, capacity, s, es, vs, s') && ListsOut(host, capacity, s, es, vs, s')
    ensures StatesOut(host, capacity, s, es, vs, s')
  {
  }

  lemma IsOut(host: Host, capacity: nat, s: Polled, es: seq<PollEvent>, vs: seq<Visit>, s': Polled)
    requires |es| == |vs| && forall e <- es :: e.socket in s.lines
    requires Wired(s, es)
    requires SetsOut(host, capacity, s, es, vs, s') && ListsOut(host, capacity, s, es, vs, s')
    requires StatesOut(host, capacity, s, es, vs, s')
    ensures Outcomes(host, capacity, s, es, vs, s')
  {
  }

  /** Only clients that are registered are heard. */
  lemma {:induction false} HeardAreRegistered(host: Host, capacity: nat, s: Polled, es: seq<PollEvent>, vs: seq<Visit>)
    requires |es| == |vs| && (forall e <- es :: e.socket in s.lines) && s.heard <= s.clients.Keys
    ensures PollAll(host, capacity, s, es, vs).heard <= s.clients.Keys
    decreases |es|
  {
    if es == [] {
    } else {
      var n := |es| - 1;
      assert es[n] in es;
      HeardAreRegistered(host, capacity, s, es[..n], vs[..n]);
      hide VisitOf;
    }
  }

  /** Nobody is both heard and doomed. */
  lemma HeardOrDoomed(host: Host, capacity: nat, s: Polled, es: seq<PollEvent>, vs: seq<Visit>)
    requires |es| == |vs| && Wired(s, es) && Distinct(es)
    ensures EndedIn(host, capacity, s, es, vs, Read) !! DoomedIn(host, capacity, s, es, vs)
    ensures EndedIn(host, capacity, s, es, vs, Read) <= s.clients.Keys
  {
    forall i, j | 0 <= i < |es| && 0 <= j < |es| && es[i].socket == es[j].socket
                  && Ends(host, capacity, s, es[i], vs[i], Read)
      ensures !Dooms(host, capacity, s, es[j], vs[j])
    {
      assert i == j;
      hide FastCall, CountWithin;
    }
    hide Dooms;
  }

  lemma NotYet(es: seq<PollEvent>)
    requires es != [] && Distinct(es)
    ensures Unnamed(es[..|es| - 1], es[|es| - 1].socket)
  {
  }

  // ---- every client for itself --------------------------------------------------------------

  /** The two agree on all that concerns a socket. */
  ghost predicate Agree(s: Polled, s': Polled, k: int) {
    && s.clients.Keys == s'.clients.Keys && s.lines.Keys == s'.lines.Keys
    && (k in s.clients ==> s.clients[k] == s'.clients[k]) && (k in s.lines ==> s.lines[k] == s'.lines[k])
    && (k in s.shut <==> k in s'.shut) && (k in s.doomed <==> k in s'.doomed) && (k in s.heard <==> k in s'.heard)
  }

  ghost predicate Distinct(es: seq<PollEvent>) {
    forall i, j :: 0 <= i < j < |es| ==> es[i].socket != es[j].socket
  }

  lemma StepAgrees(host: Host, capacity: nat, s: Polled, s': Polled, e: PollEvent, v: Visit)
    requires e.socket in s.lines && Agree(s, s', e.socket) && s.broken == s'.broken
    ensures Agree(PollStep(host, capacity, s, e, v), PollStep(host, capacity, s', e, v), e.socket)
  {
    hide VisitOf;
  }

  /** An event does nothing to other sockets. */
  lemma StepElsewhere(host: Host, capacity: nat, s: Polled, e: PollEvent, v: Visit, k: int)
    requires e.socket in s.lines && e.socket != k
    ensures Agree(s, PollStep(host, capacity, s, e, v), k)
  {
    hide VisitOf;
  }

  lemma {:induction false} AllElsewhere(host: Host, capacity: nat, s: Polled, es: seq<PollEvent>, vs: seq<Visit>, k: int)
    requires |es| == |vs| && forall e <- es :: e.socket in s.lines && e.socket != k
    ensures Agree(s, PollAll(host, capacity, s, es, vs), k)
  {
    if es == [] {
    } else {
      var n := |es| - 1;
      assert es[n] in es;
      AllElsewhere(host, capacity, s, es[..n], vs[..n], k);
      hide PollStep;
      StepElsewhere(host, capacity, PollAll(host, capacity, s, es[..n], vs[..n]), es[n], vs[n], k);
    }
  }

  lemma AgreeAlike(s: Polled, s': Polled, s'': Polled, k: int)
    requires Agree(s, s', k) && Agree(s, s'', k)
    ensures Agree(s', s, k) && Agree(s', s'', k)
  {
  }

  /** Whatever the events of the other sockets are, and whatever comes of them: a client whose event is reached
      fares as if it were the only one, and the events behind one that broke the reader are not reached. */
  lemma {:induction false} EachForItself(host: Host, capacity: nat, s: Polled, es: seq<PollEvent>, vs: seq<Visit>, i: nat)
    requires |es| == |vs| && i < |es| && Distinct(es) && !s.broken && forall e <- es :: e.socket in s.lines
    ensures var s' := PollAll(host, capacity, s, es, vs);
            assert es[i] in es;
            Agree(s', if PollAll(host, capacity, s, es[..i], vs[..i]).broken then s
                      else PollStep(host, capacity, s, es[i], vs[i]), es[i].socket)
    decreases |es|
  {
    var n, k := |es| - 1, es[i].socket;
    assert es[n] in es && es[i] in es;
    var before := PollAll(host, capacity, s, es[..n], vs[..n]);
    var after := PollStep(host, capacity, before, es[n], vs[n]);
    assert PollAll(host, capacity, s, es, vs) == after && (before.broken ==> after == before);
    if i == n {
      AllElsewhere(host, capacity, s, es[..n], vs[..n], k);
      hide *;
      AgreeAlike(s, before, before, k);
      if !before.broken {
        StepAgrees(host, capacity, before, s, es[n], vs[n]);
      }
    } else {
      assert es[..n][..i] == es[..i] && vs[..n][..i] == vs[..i] && es[..n][i] == es[i] && vs[..n][i] == vs[i];
      EachForItself(host, capacity, s, es[..n], vs[..n], i);
      hide *;
      StepElsewhere(host, capacity, before, es[n], vs[n], k);
      AgreeAlike(before, after, if PollAll(host, capacity, s, es[..i], vs[..i]).broken then s
                                else PollStep(host, capacity, s, es[i], vs[i]), k);
    }
  }
}
