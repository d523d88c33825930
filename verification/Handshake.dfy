/** The four-message set-up of a connection: the client's SetupConnection against the server's packet
    handling, over two lossless channels, with HeartBeats of the health check in between. */
module Handshakes {
  import opened Bytes
  import opened Packets
  import opened Readers
  import opened ClientProtocol

  /** Where SetupConnection is. */
  datatype Phase = Start | AwaitSyn | SendId | AwaitJoin | Succeeded | Failed

  datatype State = State(
    phase: Phase,
    toServer: seq<Packet>,      // the two channels,
    toClient: seq<Packet>,      // oldest first
    server: Reading,            // the server's record of the client, and what it has queued for it
    exchanged: seq<Packet>,     // every set-up message that went onto a channel
    lost: bool,                 // whether a failed write of the server dropped one of those
    earlyHeartBeat: bool)       // whether a HeartBeat was queued before Join was

  /** The steps of SetupConnection, of the server's reader and writer, and of its health check. A step
      that is not ok is a failed write; ReadFails is a timeout or a closed connection. */
  datatype Label =
    | SendsAck(ok: bool)
    | ReceivesSyn
    | SendsId(ok: bool)
    | ReceivesJoin
    | ReadFails
    | ServerHandles
    | ServerWrites(ok: bool)
    | QueueHeartBeat

  /** The two ends: the sockets, and the id that the client was made with. */
  datatype Ends = Ends(client: int, server: int, clientId: seq<Byte>) {
    function Ack(): Packet { Packet(client, SETUP_ACK, []) }
    function Syn(): Packet { Packet(server, SETUP_SYN, []) }
    function Id(): Packet { Packet(client, SETUP_CLIENT_ID, clientId) }
    function Join(): Packet { Packet(server, SETUP_JOIN, []) }
    function Four(): seq<Packet> { [Ack(), Syn(), Id(), Join()] }
  }

  /** A new client: nothing known, nothing sent, one increment from its constructor. */
  const FRESH: Reading := Reading([], false, 1, [], [])
  const INIT: State := State(Start, [], [], FRESH, [], false, false)

  predicate IsFault(l: Label) {
    l.ReadFails? || ((l.SendsAck? || l.SendsId? || l.ServerWrites?) && !l.ok)
  }

  predicate Enabled(s: State, l: Label) {
    match l
    case SendsAck(_) => s.phase.Start?
    case ReceivesSyn => s.phase.AwaitSyn? && s.toClient != []
    case SendsId(_) => s.phase.SendId?
    case ReceivesJoin => s.phase.AwaitJoin? && s.toClient != []
    case ReadFails => s.phase.AwaitSyn? || s.phase.AwaitJoin?
    case ServerHandles => s.toServer != []
    case ServerWrites(_) => s.server.toWrite != []
    case QueueHeartBeat => true
  }

  predicate IsHeartBeat(p: Packet) {
    p.command == HEARTBEAT
  }

  function Sends(s: State, p: Packet, ok: bool, phase: Phase): State {
    if ok then s.(phase := phase, toServer := s.toServer + [p], exchanged := s.exchanged + [p])
    else s.(phase := Failed)
  }

  function Receives(s: State, command: seq<Byte>, phase: Phase): State
    requires s.toClient != []
  {
    s.(phase := if s.toClient[0].command == command then phase else Failed, toClient := s.toClient[1..])
  }

  function Next(e: Ends, s: State, l: Label): State
    requires Enabled(s, l)
  {
    match l
    case SendsAck(ok) => Sends(s, e.Ack(), ok, AwaitSyn)
    case ReceivesSyn => Receives(s, SETUP_SYN, SendId)
    case SendsId(ok) => Sends(s, e.Id(), ok, AwaitJoin)
    case ReceivesJoin => Receives(s, SETUP_JOIN, Succeeded)
    case ReadFails => s.(phase := Failed)
    case ServerHandles => s.(toServer := s.toServer[1..], server := Handle(s.server, s.toServer[0].(socket := e.server)))
    case ServerWrites(ok) =>
      var p := s.server.toWrite[0];
      var s' := s.(server := s.server.(toWrite := s.server.toWrite[1..]));
      if !ok then s'.(lost := s.lost || !IsHeartBeat(p))
      else s'.(toClient := s.toClient + [p], exchanged := s.exchanged + if IsHeartBeat(p) then [] else [p])
    case QueueHeartBeat =>
      s.(server := s.server.(toWrite := s.server.toWrite + [Packet(e.server, HEARTBEAT, [])]),
         earlyHeartBeat := s.earlyHeartBeat || s.server.ticks < FRESH.ticks + 2)
  }

  predicate CanRun(e: Ends, s: State, ls: seq<Label>)
    decreases |ls|
  {
    ls == [] || (Enabled(s, ls[0]) && CanRun(e, Next(e, s, ls[0]), ls[1..]))
  }

  function Run(e: Ends, s: State, ls: seq<Label>): State
    requires CanRun(e, s, ls)
    decreases |ls|
  {
    if ls == [] then s else Run(e, Next(e, s, ls[0]), ls[1..])
  }

  // ---- how far the exchange is --------------------------------------------------------------

  /** The packets of a queue other than HeartBeats. */
  function Replies(q: seq<Packet>): seq<Packet> {
    if q == [] then [] else (if IsHeartBeat(q[0]) then [] else [q[0]]) + Replies(q[1..])
  }

  lemma {:induction false} RepliesSnoc(q: seq<Packet>, p: Packet)
    ensures Replies(q + [p]) == Replies(q) + if IsHeartBeat(p) then [] else [p]
  {
    if q == [] {
      assert [p][1..] == [];
    } else {
      assert (q + [p])[1..] == q[1..] + [p];
      RepliesSnoc(q[1..], p);
    }
  }

  /** Every message passes two or three places: 1 the acknowledgement is on its way to the server, 2 the
      answer is queued, 3 it is on its way to the client, 4 it has arrived, and so on up to 8. */
  function PhaseAt(at: nat): Phase {
    if at == 0 then Start else if at <= 3 then AwaitSyn else if at == 4 then SendId
    else if at <= 7 then AwaitJoin else Succeeded
  }

  /** The message that enters a channel in step at. */
  function Message(e: Ends, at: nat): seq<Packet> {
    if at == 1 then [e.Ack()] else if at == 3 then [e.Syn()] else if at == 5 then [e.Id()]
    else if at == 7 then [e.Join()] else []
  }

  function Exchanged(e: Ends, at: nat): seq<Packet> {
    if at == 0 then [] else Exchanged(e, at - 1) + Message(e, at)
  }

  lemma ExchangesNothing(e: Ends, at: nat)
    requires at % 2 == 1
    ensures Exchanged(e, at + 1) == Exchanged(e, at)
  {
    assert Exchanged(e, at) + [] == Exchanged(e, at);
  }

  lemma ExchangedIsFour(e: Ends, at: nat)
    requires at <= 8
    ensures Exchanged(e, at) == e.Four()[..(at + 1) / 2]
  {
    if at == 0 {
    } else {
      ExchangedIsFour(e, at - 1);
    }
  }

  ghost predicate At(e: Ends, s: State, at: nat) {
    && at <= 8
    && (s.phase == PhaseAt(at) || s.phase.Failed?)
    && s.toServer == (if at == 1 || at == 5 then Message(e, at) else [])
    && (s.lost ==> at == 2 || at == 6)
    && Replies(s.server.toWrite) == (if !s.lost && (at == 2 || at == 6) then Message(e, at + 1) else [])
    && Replies(s.toClient) == (if at == 3 || at == 7 then Message(e, at) else [])
    && s.exchanged == Exchanged(e, at)
    && s.server.ticks == FRESH.ticks + (if at < 2 then 0 else if at < 6 then 1 else 2)
    && s.server.clientId == (if at < 6 then [] else e.clientId)
    && s.server.readList == []
  }

  lemma Leaves(q: seq<Packet>)
    requires q != [] && |Replies(q)| <= 1
    ensures IsHeartBeat(q[0]) ==> Replies(q[1..]) == Replies(q)
    ensures !IsHeartBeat(q[0]) ==> Replies(q) == [q[0]] && Replies(q[1..]) == []
  {
    var head, rest := if IsHeartBeat(q[0]) then [] else [q[0]], Replies(q[1..]);
    assert |head + rest| == |head| + |rest| && [] + rest == rest;
  }

  lemma Joins(q: seq<Packet>, p: Packet)
    ensures IsHeartBeat(p) ==> Replies(q + [p]) == Replies(q)
    ensures !IsHeartBeat(p) && Replies(q) == [] ==> Replies(q + [p]) == [p]
  {
    RepliesSnoc(q, p);
    assert Replies(q) + [] == Replies(q) && [] + [p] == [p];
  }

  lemma AreReplies(e: Ends)
    ensures !IsHeartBeat(e.Syn()) && !IsHeartBeat(e.Join()) && IsHeartBeat(Packet(e.server, HEARTBEAT, []))
  {
  }

  /** What the server makes of the message that has reached it. */
  lemma Handled(e: Ends, s: State, at: nat)
    requires At(e, s, at) && s.toServer != []
    ensures at == 1 || at == 5
    ensures Next(e, s, ServerHandles)
         == s.(toServer := [],
               server := s.server.(clientId := if at == 1 then s.server.clientId else e.clientId,
                                   ticks := s.server.ticks + 1,
                                   toWrite := s.server.toWrite + [if at == 1 then e.Syn() else e.Join()]))
  {
    assert at == 1 || at == 5;
    assert s.toServer == [if at == 1 then e.Ack() else e.Id()];
    hide At, Exchanged, Replies;
  }

  lemma Handling(e: Ends, s: State, at: nat)
    requires At(e, s, at) && s.toServer != []
    ensures At(e, Next(e, s, ServerHandles), at + 1)
  {
    var reply := if at == 1 then e.Syn() else e.Join();
    Handled(e, s, at);
    ExchangesNothing(e, at);
    AreReplies(e);
    Joins(s.server.toWrite, reply);
    hide Replies, IsHeartBeat, Exchanged, Next;
  }

  lemma PassingHeartBeat(e: Ends, s: State, at: nat, ok: bool)
    requires At(e, s, at) && s.server.toWrite != [] && IsHeartBeat(s.server.toWrite[0])
    ensures At(e, Next(e, s, ServerWrites(ok)), at)
  {
    Leaves(s.server.toWrite);
    Joins(s.toClient, s.server.toWrite[0]);
    assert s.exchanged + [] == s.exchanged;
    hide Replies, Exchanged, Message;
  }

  /** The answer that the server has queued, if that is what it writes next. */
  lemma Queued(e: Ends, s: State, at: nat)
    requires At(e, s, at) && s.server.toWrite != [] && !IsHeartBeat(s.server.toWrite[0])
    ensures (at == 2 || at == 6) && [s.server.toWrite[0]] == Message(e, at + 1)
    ensures Replies(s.server.toWrite[1..]) == [] && Replies(s.toClient + [s.server.toWrite[0]]) == [s.server.toWrite[0]]
  {
    Leaves(s.server.toWrite);
    Joins(s.toClient, s.server.toWrite[0]);
    hide Replies, IsHeartBeat, Exchanged;
  }

  lemma Replying(e: Ends, s: State, at: nat, ok: bool)
    requires At(e, s, at) && s.server.toWrite != [] && !IsHeartBeat(s.server.toWrite[0])
    ensures At(e, Next(e, s, ServerWrites(ok)), if ok then at + 1 else at)
  {
    var p, rest := s.server.toWrite[0], s.server.toWrite[1..];
    var left := s.(server := s.server.(toWrite := rest));
    assert Next(e, s, ServerWrites(ok))
        == if ok then left.(toClient := s.toClient + [p], exchanged := s.exchanged + [p]) else left.(lost := true);
    Queued(e, s, at);
    assert Exchanged(e, at + 1) == Exchanged(e, at) + [p];
    hide Replies, IsHeartBeat, Exchanged, Next;
    if !ok {
      hide Message;
    }
  }

  lemma Sending(e: Ends, s: State, l: Label, at: nat)
    requires At(e, s, at) && Enabled(s, l) && (l.SendsAck? || l.SendsId?)
    ensures At(e, Next(e, s, l), if l.ok then at + 1 else at)
  {
    var p := if at == 0 then e.Ack() else e.Id();
    assert [p] == Message(e, at + 1) && [] + [p] == [p];
    hide Replies, Message;
  }

  /** What the client finds at the head of its channel. */
  lemma Finds(e: Ends, s: State, l: Label, at: nat)
    requires At(e, s, at) && Enabled(s, l) && (l.ReceivesSyn? || l.ReceivesJoin?)
    ensures !s.phase.Failed? && (0 < at < 4 || 4 < at < 8)
    ensures Replies(s.toClient[1..]) == if IsHeartBeat(s.toClient[0]) then Replies(s.toClient) else []
    ensures !IsHeartBeat(s.toClient[0]) ==> at == if l.ReceivesSyn? then 3 else 7
    ensures Next(e, s, l) == s.(phase := if IsHeartBeat(s.toClient[0]) then Failed else PhaseAt(at + 1),
                                toClient := s.toClient[1..])
  {
    Leaves(s.toClient);
    hide Exchanged;
  }

  lemma Receiving(e: Ends, s: State, l: Label, at: nat)
    requires At(e, s, at) && Enabled(s, l) && (l.ReceivesSyn? || l.ReceivesJoin?)
    ensures At(e, Next(e, s, l), if IsHeartBeat(s.toClient[0]) then at else at + 1)
  {
    hide At, Next, IsHeartBeat, Replies, Exchanged;
    Finds(e, s, l, at);
    if IsHeartBeat(s.toClient[0]) {
      FailsAt(e, s, at);
    } else {
      ExchangesNothing(e, at);
      Arrives(e, s, at);
    }
  }

  lemma FailsAt(e: Ends, s: State, at: nat)
    requires At(e, s, at) && s.toClient != [] && Replies(s.toClient[1..]) == Replies(s.toClient)
    ensures At(e, s.(phase := Failed, toClient := s.toClient[1..]), at)
  {
    hide IsHeartBeat, Replies, Exchanged, Message;
  }

  lemma Arrives(e: Ends, s: State, at: nat)
    requires At(e, s, at) && (at == 3 || at == 7) && s.toClient != [] && Replies(s.toClient[1..]) == []
    ensures At(e, s.(phase := PhaseAt(at + 1), toClient := s.toClient[1..]), at + 1)
  {
    ExchangesNothing(e, at);
    hide IsHeartBeat, Replies, Exchanged, Message;
    if at == 3 {
      assert At(e, s.(phase := PhaseAt(4), toClient := s.toClient[1..]), 4);
    } else {
      assert At(e, s.(phase := PhaseAt(8), toClient := s.toClient[1..]), 8);
    }
  }

  lemma Disturbing(e: Ends, s: State, at: nat)
    requires At(e, s, at)
    ensures At(e, Next(e, s, QueueHeartBeat), at)
  {
    AreReplies(e);
    Joins(s.server.toWrite, Packet(e.server, HEARTBEAT, []));
    hide Replies, Exchanged, Message, IsHeartBeat;
  }

  /** One step takes one message one place further, or none. */
  function Further(s: State, l: Label, at: nat): nat
    requires Enabled(s, l)
  {
    match l
    case SendsAck(ok) => if ok then at + 1 else at
    case SendsId(ok) => if ok then at + 1 else at
    case ReceivesSyn => if IsHeartBeat(s.toClient[0]) then at else at + 1
    case ReceivesJoin => if IsHeartBeat(s.toClient[0]) then at else at + 1
    case ServerHandles => at + 1
    case ServerWrites(ok) => if ok && !IsHeartBeat(s.server.toWrite[0]) then at + 1 else at
    case _ => at
  }

  lemma StepMoves(e: Ends, s: State, l: Label, at: nat)
    requires At(e, s, at) && Enabled(s, l)
    ensures At(e, Next(e, s, l), Further(s, l, at))
  {
    assert l.ReadFails? ==> At(e, Next(e, s, l), at);
    hide At, Next, IsHeartBeat;
    match l
    case ReadFails =>
    case ServerHandles => Handling(e, s, at);
    case ServerWrites(ok) =>
      if IsHeartBeat(s.server.toWrite[0]) {
        PassingHeartBeat(e, s, at, ok);
      } else {
        Replying(e, s, at, ok);
      }
    case QueueHeartBeat => Disturbing(e, s, at);
    case ReceivesSyn => Receiving(e, s, l, at);
    case ReceivesJoin => Receiving(e, s, l, at);
    case _ => Sending(e, s, l, at);
  }

  // ---- what HeartBeats do -------------------------------------------------------------------

  /** All that is under way to the client, first to arrive first. */
  function Pending(s: State): seq<Packet> {
    s.toClient + s.server.toWrite
  }

  /** Without faults: before an early HeartBeat only set-up messages are under way; from then on, until it
      fails, the client is going to find a HeartBeat where it expects an answer. */
  ghost predicate Clean(e: Ends, s: State, at: nat) {
    !s.lost && if s.earlyHeartBeat then s.phase.Failed? || Spoilt(Pending(s), at)
               else !s.phase.Failed? && Unspoilt(e, Pending(s), at)
  }

  ghost predicate Spoilt(q: seq<Packet>, at: nat) {
    at < 8 && (HeartBeatAt(q, 0) || ((at == 2 || at == 3) && HeartBeatAt(q, 1)))
  }

  ghost predicate Unspoilt(e: Ends, q: seq<Packet>, at: nat) {
    && (at < 6 ==> q == if at == 2 || at == 3 then [e.Syn()] else [])
    && (at == 6 || at == 7 ==> q != [] && q[0] == e.Join())
  }

  predicate HeartBeatAt(q: seq<Packet>, i: nat) {
    i < |q| && IsHeartBeat(q[i])
  }

  lemma PendingAfter(e: Ends, s: State, l: Label)
    requires Enabled(s, l) && !IsFault(l)
    ensures var q, s' := Pending(s), Next(e, s, l);
            && (l.ServerWrites? ==> Pending(s') == q)
            && (l.QueueHeartBeat? ==> Pending(s') == q + [Packet(e.server, HEARTBEAT, [])])
            && (l.ReceivesSyn? || l.ReceivesJoin? ==> q != [] && q[0] == s.toClient[0] && Pending(s') == q[1..])
            && s'.lost == s.lost
            && (l.ServerWrites? || l.QueueHeartBeat? || l.ServerHandles? ==> s'.phase == s.phase)
            && (!l.QueueHeartBeat? ==> s'.earlyHeartBeat == s.earlyHeartBeat)
  {
    hide IsHeartBeat, Handle;
    if l.ReceivesSyn? || l.ReceivesJoin? {
      assert Pending(s)[1..] == Pending(Next(e, s, l));
    }
  }

  lemma CleanHandling(e: Ends, s: State, at: nat)
    requires At(e, s, at) && Clean(e, s, at) && s.toServer != []
    ensures Clean(e, Next(e, s, ServerHandles), at + 1)
  {
    hide At, IsHeartBeat, Next;
    Handled(e, s, at);
    var reply := if at == 1 then e.Syn() else e.Join();
    assert Pending(Next(e, s, ServerHandles)) == Pending(s) + [reply];
    hide Pending;
    assert [] + [reply] == [reply];
  }

  lemma CleanSending(e: Ends, s: State, l: Label, at: nat)
    requires At(e, s, at) && Clean(e, s, at) && Enabled(s, l) && !IsFault(l) && (l.SendsAck? || l.SendsId?)
    ensures Clean(e, Next(e, s, l), at + 1)
  {
    assert at == 0 || at == 4;
    hide At, Exchanged, IsHeartBeat;
  }

  lemma CleanWriting(e: Ends, s: State, at: nat)
    requires At(e, s, at) && Clean(e, s, at) && s.server.toWrite != []
    ensures Clean(e, Next(e, s, ServerWrites(true)), Further(s, ServerWrites(true), at))
  {
    assert IsHeartBeat(s.server.toWrite[0]) || at == 2 || at == 6 by {
      Leaves(s.server.toWrite);
    }
    hide At, IsHeartBeat, Next, Pending;
    PendingAfter(e, s, ServerWrites(true));
  }

  lemma CleanReceiving(e: Ends, s: State, l: Label, at: nat)
    requires At(e, s, at) && Clean(e, s, at) && Enabled(s, l) && (l.ReceivesSyn? || l.ReceivesJoin?)
    ensures Clean(e, Next(e, s, l), Further(s, l, at))
  {
    hide At, IsHeartBeat, Next, Pending;
    Finds(e, s, l, at);
    PendingAfter(e, s, l);
    assert |Pending(s)| == 1 ==> Pending(s)[1..] == [];
    AreReplies(e);
  }

  lemma CleanDisturbing(e: Ends, s: State, at: nat)
    requires At(e, s, at) && Clean(e, s, at)
    ensures Clean(e, Next(e, s, QueueHeartBeat), at)
  {
    var q, heart := Pending(s), Packet(e.server, HEARTBEAT, []);
    assert Next(e, s, QueueHeartBeat).earlyHeartBeat == (s.earlyHeartBeat || at < 6);
    hide At, IsHeartBeat, Next, Pending, Enabled;
    PendingAfter(e, s, QueueHeartBeat);
    AreReplies(e);
    assert (q + [heart])[|q|] == heart;
  }

  lemma StepKeepsClean(e: Ends, s: State, l: Label, at: nat)
    requires At(e, s, at) && Clean(e, s, at) && Enabled(s, l) && !IsFault(l)
    ensures Clean(e, Next(e, s, l), Further(s, l, at))
  {
    hide At, Clean, Next;
    match l
    case ServerHandles => CleanHandling(e, s, at);
    case ServerWrites(_) => CleanWriting(e, s, at);
    case QueueHeartBeat => CleanDisturbing(e, s, at);
    case ReceivesSyn => CleanReceiving(e, s, l, at);
    case ReceivesJoin => CleanReceiving(e, s, l, at);
    case _ => CleanSending(e, s, l, at);
  }

  // ---- runs ---------------------------------------------------------------------------------

  /** How many more steps there can be before the exchange is over, HeartBeats aside. */
  function Rank(s: State, at: nat): int {
    2 * (8 - at) + |s.server.toWrite| + if s.phase.Failed? then 0 else 1
  }

  lemma QueueGrows(e: Ends, s: State, l: Label)
    requires Enabled(s, l)
    ensures |Next(e, s, l).server.toWrite| - |s.server.toWrite|
         <= if l.QueueHeartBeat? || l.ServerHandles? then 1 else if l.ServerWrites? then -1 else 0
    ensures !l.QueueHeartBeat? ==> Next(e, s, l).earlyHeartBeat == s.earlyHeartBeat
  {
    hide IsHeartBeat;
  }

  lemma StepRanks(e: Ends, s: State, l: Label, at: nat)
    requires At(e, s, at) && Enabled(s, l)
    ensures 0 <= Rank(s, at)
    ensures Rank(Next(e, s, l), Further(s, l, at)) <= Rank(s, at) + if l.QueueHeartBeat? then 1 else -1
  {
    QueueGrows(e, s, l);
    if l.ReceivesSyn? || l.ReceivesJoin? {
      Finds(e, s, l, at);
      hide Next, IsHeartBeat, At;
    } else {
      hide IsHeartBeat, At, Handle;
    }
  }

  function CountHeartBeats(ls: seq<Label>): nat {
    if ls == [] then 0 else (if ls[0].QueueHeartBeat? then 1 else 0) + CountHeartBeats(ls[1..])
  }

  ghost predicate FaultFree(ls: seq<Label>) {
    forall l <- ls :: !IsFault(l)
  }

  lemma {:induction false} RunMoves(e: Ends, s: State, at: nat, ls: seq<Label>) returns (at': nat)
    requires At(e, s, at) && CanRun(e, s, ls)
    ensures At(e, Run(e, s, ls), at')
    ensures Rank(Run(e, s, ls), at') + |ls| <= Rank(s, at) + 2 * CountHeartBeats(ls)
    ensures FaultFree(ls) && Clean(e, s, at) ==> Clean(e, Run(e, s, ls), at')
    ensures CountHeartBeats(ls) == 0 ==> Run(e, s, ls).earlyHeartBeat == s.earlyHeartBeat
    decreases |ls|
  {
    if ls == [] {
      at' := at;
    } else {
      hide At, Clean, Next, Rank, Further, Enabled;
      QueueGrows(e, s, ls[0]);
      StepMoves(e, s, ls[0], at);
      StepRanks(e, s, ls[0], at);
      if FaultFree(ls) && Clean(e, s, at) {
        StepKeepsClean(e, s, ls[0], at);
      }
      at' := RunMoves(e, Next(e, s, ls[0]), Further(s, ls[0], at), ls[1..]);
    }
  }

  lemma Starts(e: Ends)
    ensures At(e, INIT, 0) && Clean(e, INIT, 0) && Rank(INIT, 0) == 17
  {
    assert Replies([]) == [];
  }

  /** Whatever happens, at whatever point, and whether or not it ends well: the server knows the client
      by the client's own id or not at all, and no set-up message is repeated, missed out or overtaken. If
      SetupConnection succeeds, the server does know it. And it comes to an end. */
  lemma HandshakeIsSafe(e: Ends, ls: seq<Label>)
    requires CanRun(e, INIT, ls)
    ensures var s := Run(e, INIT, ls);
            && (s.server.clientId == [] || s.server.clientId == e.clientId)
            && s.exchanged <= e.Four()
            && (s.phase.Succeeded? ==> s.server.clientId == e.clientId && s.exchanged == e.Four())
            && |ls| <= 17 + 2 * CountHeartBeats(ls)
  {
    Starts(e);
    var at := RunMoves(e, INIT, 0, ls);
    ExchangedIsFour(e, at);
    assert 0 <= Rank(Run(e, INIT, ls), at);
    hide Run, CanRun, Replies, Exchanged, Message;
  }

  /** Nothing can happen but another HeartBeat or a fault. */
  ghost predicate Stuck(s: State) {
    forall l: Label :: Enabled(s, l) ==> IsFault(l) || l.QueueHeartBeat?
  }

  lemma Continues(e: Ends, s: State, at: nat) returns (l: Label)
    requires At(e, s, at) && at < 8 && !s.phase.Failed? && !s.lost
    ensures Enabled(s, l) && !IsFault(l) && !l.QueueHeartBeat?
  {
    assert Replies([]) == [];
    l := if at == 0 then SendsAck(true) else if at == 1 || at == 5 then ServerHandles
         else if at == 2 || at == 6 then ServerWrites(true)
         else if at == 3 then ReceivesSyn else if at == 4 then SendsId(true) else ReceivesJoin;
    hide Exchanged;
  }

  /** Without faults, a set-up that has come to its end has succeeded exactly if no HeartBeat was queued
      before Join was; otherwise it has failed. */
  lemma HandshakeOutcome(e: Ends, ls: seq<Label>)
    requires CanRun(e, INIT, ls) && FaultFree(ls) && Stuck(Run(e, INIT, ls))
    ensures var s := Run(e, INIT, ls);
            && (s.phase.Succeeded? <==> !s.earlyHeartBeat) && (s.phase.Failed? <==> s.earlyHeartBeat)
            && (CountHeartBeats(ls) == 0 ==> s.phase.Succeeded?)
  {
    Starts(e);
    var at := RunMoves(e, INIT, 0, ls);
    var s := Run(e, INIT, ls);
    hide Run, CanRun, FaultFree, CountHeartBeats;
    if at < 8 && !s.phase.Failed? {
      var l := Continues(e, s, at);
      assert false;
    }
    assert s.phase.Failed? || Pending(s) == [] || at == 8;
    hide Replies, Exchanged;
  }

  /** The HeartBeats of the health check can break a set-up that nothing else is wrong with. */
  lemma EarlyHeartBeatBreaks(e: Ends)
    ensures var ls := [QueueHeartBeat, SendsAck(true), ServerWrites(true), ReceivesSyn];
            CanRun(e, INIT, ls) && FaultFree(ls) && Run(e, INIT, ls).phase.Failed?
  {
    var heart := Packet(e.server, HEARTBEAT, []);
    var s1 := INIT.(server := FRESH.(toWrite := [heart]), earlyHeartBeat := true);
    var s2 := s1.(phase := AwaitSyn, toServer := [e.Ack()], exchanged := [e.Ack()]);
    var s3 := s2.(server := FRESH, toClient := [heart]);
    assert Next(e, INIT, QueueHeartBeat) == s1 && Next(e, s1, SendsAck(true)) == s2;
    assert Next(e, s2, ServerWrites(true)) == s3;
    var s4 := Next(e, s3, ReceivesSyn);
    assert s4.phase.Failed?;
    hide Next;
    RunCons(e, s3, ReceivesSyn, []);
    RunCons(e, s2, ServerWrites(true), [ReceivesSyn]);
    RunCons(e, s1, SendsAck(true), [ServerWrites(true), ReceivesSyn]);
    RunCons(e, INIT, QueueHeartBeat, [SendsAck(true), ServerWrites(true), ReceivesSyn]);
    assert [QueueHeartBeat] + [SendsAck(true), ServerWrites(true), ReceivesSyn]
        == [QueueHeartBeat, SendsAck(true), ServerWrites(true), ReceivesSyn];
  }

  lemma RunCons(e: Ends, s: State, l: Label, ls: seq<Label>)
    requires Enabled(s, l) && CanRun(e, Next(e, s, l), ls)
    ensures CanRun(e, s, [l] + ls) && Run(e, s, [l] + ls) == Run(e, Next(e, s, l), ls)
  {
    assert ([l] + ls)[1..] == ls;
  }

  // ---- the client's part is SetupConnection -------------------------------------------------

  predicate IsOfClient(l: Label) {
    !l.ServerHandles? && !l.ServerWrites? && !l.QueueHeartBeat?
  }

  /** The steps of a call of SetupConnection that finds all it is going to read on its channel. */
  function CallSteps(ackSent: bool, idSent: bool, inbox: seq<Packet>): seq<Label> {
    if !ackSent then [SendsAck(false)]
    else if inbox == [] then [SendsAck(true), ReadFails]
    else if inbox[0].command != SETUP_SYN then [SendsAck(true), ReceivesSyn]
    else if !idSent then [SendsAck(true), ReceivesSyn, SendsId(false)]
    else [SendsAck(true), ReceivesSyn, SendsId(true), if |inbox| == 1 then ReadFails else ReceivesJoin]
  }

  /** A call is a run of those steps: it succeeds if the call does, sends what the call sends and leaves what the call
      leaves. */
  lemma SetupCallRuns(e: Ends, s: State, ackSent: bool, idSent: bool)
    requires s.phase.Start?
    ensures var ls := CallSteps(ackSent, idSent, s.toClient);
            var c := SetUpWith(e.client, e.clientId, ackSent, idSent, s.toClient);
            && (forall l <- ls :: IsOfClient(l)) && CanRun(e, s, ls)
            && Run(e, s, ls) == s.(phase := if c.ok then Succeeded else Failed, toServer := s.toServer + c.sent,
                                   toClient := c.rest, exchanged := s.exchanged + c.sent)
  {
    assert s.toServer + [] == s.toServer && s.exchanged + [] == s.exchanged;
    if !ackSent {
      RunCons(e, s, SendsAck(false), []);
      assert [SendsAck(false)] + [] == [SendsAck(false)];
    } else {
      var ls := CallSteps(true, idSent, s.toClient);
      AfterAck(e, s, idSent);
      RunCons(e, s, SendsAck(true), ls[1..]);
      assert [SendsAck(true)] + ls[1..] == ls;
    }
  }

  lemma AfterAck(e: Ends, s: State, idSent: bool)
    requires s.phase.Start?
    ensures var s1, ls := Next(e, s, SendsAck(true)), CallSteps(true, idSent, s.toClient)[1..];
            var c := SetUpWith(e.client, e.clientId, true, idSent, s.toClient);
            && CanRun(e, s1, ls)
            && Run(e, s1, ls) == s.(phase := if c.ok then Succeeded else Failed, toServer := s.toServer + c.sent,
                                    toClient := c.rest, exchanged := s.exchanged + c.sent)
  {
    var s1, ls := Next(e, s, SendsAck(true)), CallSteps(true, idSent, s.toClient)[1..];
    if s.toClient == [] || s.toClient[0].command != SETUP_SYN {
      RunCons(e, s1, ls[0], []);
      assert ls == [ls[0]] + [];
    } else {
      AfterSyn(e, s, idSent);
      RunCons(e, s1, ReceivesSyn, ls[1..]);
      assert ls == [ReceivesSyn] + ls[1..];
    }
  }

  lemma AfterSyn(e: Ends, s: State, idSent: bool)
    requires s.phase.Start? && s.toClient != [] && s.toClient[0].command == SETUP_SYN
    ensures var s2, ls := s.(phase := SendId, toServer := s.toServer + [e.Ack()], toClient := s.toClient[1..],
                             exchanged := s.exchanged + [e.Ack()]), CallSteps(true, idSent, s.toClient)[2..];
            var c := SetUpWith(e.client, e.clientId, true, idSent, s.toClient);
            && CanRun(e, s2, ls)
            && Run(e, s2, ls) == s.(phase := if c.ok then Succeeded else Failed, toServer := s.toServer + c.sent,
                                    toClient := c.rest, exchanged := s.exchanged + c.sent)
  {
    var s2, ls := s.(phase := SendId, toServer := s.toServer + [e.Ack()], toClient := s.toClient[1..],
                     exchanged := s.exchanged + [e.Ack()]), CallSteps(true, idSent, s.toClient)[2..];
    if !idSent {
      RunCons(e, s2, SendsId(false), []);
      assert ls == [SendsId(false)] + [];
    } else {
      var s3 := Next(e, s2, SendsId(true));
      RunCons(e, s3, ls[1], []);
      assert ls[1..] == [ls[1]] + [];
      RunCons(e, s2, SendsId(true), ls[1..]);
      assert ls == [SendsId(true)] + ls[1..];
      assert [e.Ack()] + [e.Id()] == [e.Ack(), e.Id()];
      assert (s.toServer + [e.Ack()]) + [e.Id()] == s.toServer + ([e.Ack()] + [e.Id()]);
      assert (s.exchanged + [e.Ack()]) + [e.Id()] == s.exchanged + ([e.Ack()] + [e.Id()]);
      assert |s.toClient| >= 2 ==> s.toClient[1..][1..] == s.toClient[2..];
    }
  }

  /** What a step brings the client to read; a failed read comes as a packet of its own. */
  function Brings(s: State, l: Label): seq<Packet>
    requires Enabled(s, l)
  {
    if l.ReceivesSyn? || l.ReceivesJoin? then [s.toClient[0]]
    else if l.ReadFails? then [Packet(0, EMPTY, [])]
    else []
  }

  function Inbox(e: Ends, s: State, ls: seq<Label>): seq<Packet>
    requires CanRun(e, s, ls)
    decreases |ls|
  {
    if ls == [] then [] else Brings(s, ls[0]) + Inbox(e, Next(e, s, ls[0]), ls[1..])
  }

  /** The phase is where a call stands that has sent these and read these. */
  predicate Stands(e: Ends, phase: Phase, ackSent: bool, idSent: bool, inbox: seq<Packet>) {
    match phase
    case Start => !ackSent && !idSent && inbox == []
    case AwaitSyn => ackSent && !idSent && inbox == []
    case SendId => ackSent && !idSent && |inbox| == 1 && inbox[0].command == SETUP_SYN
    case AwaitJoin => ackSent && idSent && |inbox| == 1 && inbox[0].command == SETUP_SYN
    case _ =>
      var c := SetUpWith(e.client, e.clientId, ackSent, idSent, inbox);
      c.sent == SentBy(e, ackSent, idSent) && c.rest == [] && (phase.Succeeded? <==> c.ok)
  }

  function SentBy(e: Ends, ackSent: bool, idSent: bool): seq<Packet> {
    (if ackSent then [e.Ack()] else []) + if idSent then [e.Id()] else []
  }

  lemma StepStands(e: Ends, s: State, l: Label, ackSent: bool, idSent: bool, inbox: seq<Packet>)
    requires Enabled(s, l) && Stands(e, s.phase, ackSent, idSent, inbox)
    ensures Stands(e, Next(e, s, l).phase, ackSent || l == SendsAck(true), idSent || l == SendsId(true),
                   inbox + Brings(s, l))
  {
    assert inbox + [] == inbox;
    assert EMPTY[0] == 69 && SETUP_SYN[0] == 65 && SETUP_JOIN[0] == 74;
  }

  lemma {:induction false} RunStands(e: Ends, s: State, ls: seq<Label>, ackSent: bool, idSent: bool, inbox: seq<Packet>)
    requires CanRun(e, s, ls) && Stands(e, s.phase, ackSent, idSent, inbox)
    ensures Stands(e, Run(e, s, ls).phase, ackSent || SendsAck(true) in ls, idSent || SendsId(true) in ls,
                   inbox + Inbox(e, s, ls))
    decreases |ls|
  {
    if ls == [] {
      assert inbox + [] == inbox;
    } else {
      var l, rest := ls[0], ls[1..];
      assert forall k :: k in ls <==> k == l || k in rest;
      StepStands(e, s, l, ackSent, idSent, inbox);
      RunStands(e, Next(e, s, l), rest, ackSent || l == SendsAck(true), idSent || l == SendsId(true),
                inbox + Brings(s, l));
      assert inbox + (Brings(s, l) + Inbox(e, Next(e, s, l), rest))
          == (inbox + Brings(s, l)) + Inbox(e, Next(e, s, l), rest);
      hide Stands, Next, Enabled, Brings;
    }
  }

  /** In every run, whatever the server, the channels and the health check do in between: once the client is through,
      it has succeeded exactly if a call of SetupConnection does that can send what it sent and reads what it read,
      and it has sent and read just what such a call does. */
  lemma RunIsSetupCall(e: Ends, ls: seq<Label>)
    requires CanRun(e, INIT, ls) && (Run(e, INIT, ls).phase.Succeeded? || Run(e, INIT, ls).phase.Failed?)
    ensures var c := SetUpWith(e.client, e.clientId, SendsAck(true) in ls, SendsId(true) in ls, Inbox(e, INIT, ls));
            && c.sent == SentBy(e, SendsAck(true) in ls, SendsId(true) in ls) && c.rest == []
            && (Run(e, INIT, ls).phase.Succeeded? <==> c.ok)
  {
    RunStands(e, INIT, ls, false, false, []);
    assert [] + Inbox(e, INIT, ls) == Inbox(e, INIT, ls);
  }
}
