/** The client library: its rate discipline and the four-message set-up. */
module ClientProtocol {
  import opened Bytes
  import opened Packets
  import opened Deadlines

  datatype WriteResult = Sent | LinkFailure | DeadlineFailure

  /** The connection to the server: what NetworkPacket::Read will return, one entry a call (poll
      timeouts and closed sockets included, under their own commands; then only timeouts), and
      whether each write succeeds. */
  class Link {
    const socket: int
    var inbox: seq<Packet>
    var writable: seq<bool>
    var sent: seq<Packet>

    constructor (socket: int, inbox: seq<Packet>, writable: seq<bool>)
      ensures this.socket == socket && this.inbox == inbox && this.writable == writable && sent == []
    {
      this.socket, this.inbox, this.writable, sent := socket, inbox, writable, [];
    }

    method Read() returns (p: Packet)
      modifies `inbox
      ensures old(inbox) == [] ==> p == Packet(socket, EMPTY, []) && inbox == []
      ensures old(inbox) != [] ==> p == old(inbox)[0] && inbox == old(inbox)[1..]
    {
      if inbox == [] {
        return Packet(socket, EMPTY, []);
      }
      p := inbox[0];
      inbox := inbox[1..];
    }

    method Write(p: Packet) returns (result: WriteResult)
      modifies `writable, `sent
      ensures (result == Sent && sent == old(sent) + [p]) || (result == LinkFailure && sent == old(sent))
      ensures result == Sent <==> old(writable) == [] || old(writable)[0]
      ensures writable == if old(writable) == [] then [] else old(writable)[1..]
    {
      var ok := writable == [] || writable[0];
      if writable != [] {
        writable := writable[1..];
      }
      if ok {
        sent := sent + [p];
        return Sent;
      }
      return LinkFailure;
    }
  }

  /** Whether the n-th write from now passes; those that nothing is said of do. */
  predicate Passes(writable: seq<bool>, n: nat) {
    n < |writable| ==> writable[n]
  }

  function Later(writable: seq<bool>): seq<bool> {
    if writable == [] then [] else writable[1..]
  }

  /** What an attempt to set up a connection comes to: whether it succeeds, what it sends, and what it leaves unread. */
  datatype SetUp = SetUp(ok: bool, sent: seq<Packet>, rest: seq<Packet>)

  function Unread(inbox: seq<Packet>, n: nat): seq<Packet> {
    if n <= |inbox| then inbox[n..] else []
  }

  predicate Says(inbox: seq<Packet>, i: nat, command: seq<Byte>) {
    i < |inbox| && inbox[i].command == command
  }

  /** Given whether the acknowledgement and the id can be sent, and what is there to be read. */
  function SetUpWith(socket: int, clientId: seq<Byte>, ackSent: bool, idSent: bool, inbox: seq<Packet>): SetUp {
    var ack, id := Packet(socket, SETUP_ACK, []), Packet(socket, SETUP_CLIENT_ID, clientId);
    if !ackSent then SetUp(false, [], inbox)
    else if !Says(inbox, 0, SETUP_SYN) || !idSent then SetUp(false, [ack], Unread(inbox, 1))
    else SetUp(Says(inbox, 1, SETUP_JOIN), [ack, id], Unread(inbox, 2))
  }

  lemma BoundedAfterRecord(history: seq<Timespec>, maxCount: nat, maxTime: int, checked: int, t: Timespec)
    requires 0 < maxCount && RateBounded(history, maxCount, maxTime)
    requires |history| >= maxCount ==> checked - Nanos(history[|history| - maxCount]) > maxTime
    requires checked <= Nanos(t)
    ensures RateBounded(history + [t], maxCount, maxTime)
  {
  }

  predicate AllCommands(ps: seq<Packet>, command: seq<Byte>) {
    forall p <- ps :: p.command == command
  }

  /** What became of a HeartBeat that was taken in: how the write of its answer went, and when the limiter was asked. */
  datatype Reply = Reply(result: WriteResult, time: Timespec)

  /** The answers that went out. */
  function Blanks(socket: int, replies: seq<Reply>): seq<Packet> {
    if replies == [] then []
    else (if replies[0].result.Sent? then [Packet(socket, BLANK, [])] else []) + Blanks(socket, replies[1..])
  }

  /** How many of the answers were recorded by the limiter. */
  function Recorded(replies: seq<Reply>): nat {
    if replies == [] then 0 else Recorded(replies[1..]) + if replies[0].result.DeadlineFailure? then 0 else 1
  }

  /** HeartBeats are taken in up to the first other packet, a timeout or a breach of the limiter; there is one reply a
      HeartBeat, and nothing else is sent. */
  ghost predicate ReadsUpTo(inbox: seq<Packet>, inbox': seq<Packet>, sent: seq<Packet>, sent': seq<Packet>,
                            packet: Packet, breached: bool, socket: int, replies: seq<Reply>)
  {
    && |inbox'| <= |inbox| && inbox' == inbox[|inbox| - |inbox'|..] && sent' == sent + Blanks(socket, replies)
    && var taken := inbox[..|inbox| - |inbox'|];
       && |replies| <= |taken| && AllCommands(taken[..|replies|], HEARTBEAT)
       && if breached then packet.command == DEADLINE_CROSSED && |taken| == |replies|
          else if inbox' == [] && |taken| == |replies| then packet.command == EMPTY
          else |taken| == |replies| + 1 && packet == taken[|replies|] && packet.command != HEARTBEAT
  }

  /** Every HeartBeat and every answer to it is recorded. An answer is refused exactly if the limiter is breached at
      that time by what was recorded so far, n events when the HeartBeat comes in; and otherwise sent exactly if the link
      lets it pass. */
  ghost predicate AnswersWell(history: seq<Timespec>, n: nat, maxCount: int, maxTime: int, writable: seq<bool>,
                              since: Timespec, replies: seq<Reply>)
    decreases |replies|
  {
    replies == [] ||
    var r := replies[0];
    && n + 1 <= |history| && Nanos(since) <= Nanos(r.time)
    && (r.result.DeadlineFailure? <==> CountWithin(history[..n + 1], r.time, maxTime) >= maxCount)
    && (!r.result.DeadlineFailure? ==> (r.result.Sent? <==> Passes(writable, 0)))
    && if r.result.DeadlineFailure? then AnswersWell(history, n + 1, maxCount, maxTime, writable, r.time, replies[1..])
       else AnswersWell(history, n + 2, maxCount, maxTime, Later(writable), r.time, replies[1..])
  }

  lemma ReadsNone(inbox: seq<Packet>, sent: seq<Packet>, socket: int)
    ensures ReadsUpTo(inbox, inbox, sent, sent, Packet(socket, DEADLINE_CROSSED, []), true, socket, [])
    ensures ReadsUpTo([], [], sent, sent, Packet(socket, EMPTY, []), false, socket, [])
    ensures Recorded([]) == 0
  {
    assert sent + [] == sent;
  }

  lemma ReadsOne(p: Packet, inbox: seq<Packet>, sent: seq<Packet>, socket: int)
    requires p.command != HEARTBEAT
    ensures ReadsUpTo([p] + inbox, inbox, sent, sent, p, false, socket, [])
  {
    assert ([p] + inbox)[..1] == [p] && ([p] + inbox)[1..] == inbox && sent + [] == sent;
  }

  lemma ReadsOneMore(p: Packet, inbox: seq<Packet>, inbox': seq<Packet>, sent: seq<Packet>, reply: Reply,
                     sent': seq<Packet>, packet: Packet, breached: bool, socket: int, replies: seq<Reply>)
    requires p.command == HEARTBEAT
    requires ReadsUpTo(inbox, inbox', sent + Blanks(socket, [reply]), sent', packet, breached, socket, replies)
    ensures ReadsUpTo([p] + inbox, inbox', sent, sent', packet, breached, socket, [reply] + replies)
    ensures Recorded([reply] + replies) == Recorded(replies) + if reply.result.DeadlineFailure? then 0 else 1
  {
    var all, n, k := [reply] + replies, |inbox| - |inbox'|, |replies|;
    assert all[1..] == replies && [reply][1..] == [];
    assert ([p] + inbox)[..n + 1] == [p] + inbox[..n] && ([p] + inbox)[n + 1..] == inbox[n..];
    assert ([p] + inbox[..n])[..k + 1] == [p] + inbox[..n][..k];
    assert Blanks(socket, [reply]) + [] == Blanks(socket, [reply]);
    assert (sent + Blanks(socket, [reply])) + Blanks(socket, replies)
        == sent + (Blanks(socket, [reply]) + Blanks(socket, replies));
  }

  /** What was recorded later does not make up for what is forgotten. */
  lemma {:induction false} CountLater(history: seq<Timespec>, more: seq<Timespec>, t: Timespec, t': Timespec, maxTime: int)
    requires Nanos(t) <= Nanos(t')
    ensures CountWithin(history + more, t', maxTime) <= CountWithin(history, t, maxTime) + |more|
    decreases |history|
  {
    if history == [] {
      assert history + more == more;
      CountAll(more, t', maxTime);
    } else {
      assert (history + more)[0] == history[0] && (history + more)[1..] == history[1..] + more;
      CountLater(history[1..], more, t, t', maxTime);
    }
  }

  /** With room for two recordings a HeartBeat, and a link that lets everything pass, every one is answered. */
  lemma {:induction false} AllAreAnswered(history: seq<Timespec>, n: nat, maxCount: int, maxTime: int, since: Timespec,
                                          replies: seq<Reply>, socket: int)
    requires n <= |history| && AnswersWell(history, n, maxCount, maxTime, [], since, replies)
    requires CountWithin(history[..n], since, maxTime) + 2 * |replies| <= maxCount
    ensures Recorded(replies) == |replies|
    ensures Blanks(socket, replies) == AllBlanks(socket, |replies|)
    decreases |replies|
  {
    if replies == [] {
    } else {
      var r, rest := replies[0], replies[1..];
      CountLater(history[..n], [history[n]], since, r.time, maxTime);
      assert history[..n + 1] == history[..n] + [history[n]];
      assert r.result.Sent?;
      if rest == [] {
        assert Blanks(socket, rest) == [] && Recorded(rest) == 0;
      } else {
        assert n + 2 <= |history|;
        CountLater(history[..n], history[n..n + 2], since, r.time, maxTime);
        assert history[..n + 2] == history[..n] + history[n..n + 2];
        AllAreAnswered(history, n + 2, maxCount, maxTime, r.time, rest, socket);
      }
      assert [Packet(socket, BLANK, [])] + AllBlanks(socket, |rest|) == AllBlanks(socket, |replies|);
    }
  }

  /** How many HeartBeats are in front. */
  function Leading(inbox: seq<Packet>): (n: nat)
    ensures n <= |inbox| && AllCommands(inbox[..n], HEARTBEAT) && (n < |inbox| ==> inbox[n].command != HEARTBEAT)
  {
    if inbox == [] || inbox[0].command != HEARTBEAT then 0 else 1 + Leading(inbox[1..])
  }

  /** All the limiter has to do with a read. */
  ghost predicate RecordsWell(history: seq<Timespec>, history': seq<Timespec>, maxCount: int, maxTime: int,
                              writable: seq<bool>, time: Timespec, time': Timespec, breached: bool, replies: seq<Reply>)
  {
    && history <= history' && |history'| == |history| + |replies| + Recorded(replies) + (if breached then 0 else 1)
    && AnswersWell(history', |history|, maxCount, maxTime, writable, time, replies)
    && (breached ==> CountWithin(history', time', maxTime) >= maxCount)
  }

  lemma NoneToAnswer(history: seq<Timespec>, history': seq<Timespec>, maxCount: int, maxTime: int, writable: seq<bool>,
                     time: Timespec, time': Timespec, breached: bool)
    requires history' == history + if breached then [] else [time']
    requires breached ==> CountWithin(history, time', maxTime) >= maxCount
    ensures RecordsWell(history, history', maxCount, maxTime, writable, time, time', breached, [])
  {
    hide CountWithin;
    assert history + [] == history;
  }

  lemma Since(history: seq<Timespec>, n: nat, maxCount: int, maxTime: int, writable: seq<bool>, since: Timespec,
              earlier: Timespec, replies: seq<Reply>)
    requires AnswersWell(history, n, maxCount, maxTime, writable, since, replies) && Nanos(earlier) <= Nanos(since)
    ensures AnswersWell(history, n, maxCount, maxTime, writable, earlier, replies)
  {
    hide CountWithin;
  }

  lemma OneMoreAnswer(history: seq<Timespec>, taken: seq<Timespec>, now: seq<Timespec>, history': seq<Timespec>,
                      maxCount: int, maxTime: int, writable: seq<bool>, writable': seq<bool>, time: Timespec, later: Timespec,
                      time': Timespec, breached: bool, reply: Reply, replies: seq<Reply>)
    requires history <= taken && |taken| == |history| + 1
    requires now == taken + if reply.result.DeadlineFailure? then [] else [later]
    requires Nanos(time) <= Nanos(reply.time) <= Nanos(later)
    requires reply.result.DeadlineFailure? <==> CountWithin(taken, reply.time, maxTime) >= maxCount
    requires if reply.result.DeadlineFailure? then writable' == writable
             else (reply.result.Sent? <==> Passes(writable, 0)) && writable' == Later(writable)
    requires RecordsWell(now, history', maxCount, maxTime, writable', later, time', breached, replies)
    ensures RecordsWell(history, history', maxCount, maxTime, writable, time, time', breached, [reply] + replies)
  {
    assert ([reply] + replies)[1..] == replies && history'[..|history| + 1] == taken;
    Since(history', |now|, maxCount, maxTime, writable', later, reply.time, replies);
    hide CountWithin;
  }

  /** A read that ends in front of something else has come past all HeartBeats. */
  lemma PastAll(inbox: seq<Packet>, inbox': seq<Packet>, sent: seq<Packet>, sent': seq<Packet>, packet: Packet,
                breached: bool, socket: int, replies: seq<Reply>)
    requires ReadsUpTo(inbox, inbox', sent, sent', packet, breached, socket, replies)
    ensures |replies| <= Leading(inbox) && (!breached ==> |replies| == Leading(inbox))
  {
    var taken := inbox[..|inbox| - |inbox'|];
    assert taken[..|replies|] == inbox[..|replies|];
    var n := Leading(inbox);
    assert |replies| < n ==> inbox[|replies|] in inbox[..n];
    hide Blanks;
  }

  function AllBlanks(socket: int, n: nat): seq<Packet> {
    seq(n, _ => Packet(socket, BLANK, []))
  }

  /** With room for two recordings a HeartBeat and one more, and a link that lets everything pass. */
  lemma WithRoom(inbox: seq<Packet>, inbox': seq<Packet>, sent: seq<Packet>, sent': seq<Packet>, packet: Packet, socket: int,
                 history: seq<Timespec>, history': seq<Timespec>, maxCount: int, maxTime: int, writable: seq<bool>,
                 time: Timespec, time': Timespec, breached: bool, replies: seq<Reply>)
    requires ReadsUpTo(inbox, inbox', sent, sent', packet, breached, socket, replies) && Nanos(time) <= Nanos(time')
    requires RecordsWell(history, history', maxCount, maxTime, writable, time, time', breached, replies)
    ensures writable == [] && CountWithin(history, time, maxTime) + 2 * Leading(inbox) + 1 <= maxCount ==>
              && !breached && sent' == sent + AllBlanks(socket, Leading(inbox))
              && |history'| == |history| + 2 * Leading(inbox) + 1
  {
    PastAll(inbox, inbox', sent, sent', packet, breached, socket, replies);
    if writable == [] && CountWithin(history, time, maxTime) + 2 * Leading(inbox) + 1 <= maxCount {
      assert history'[..|history|] == history && history + history'[|history|..] == history';
      AllAreAnswered(history', |history|, maxCount, maxTime, time, replies, socket);
      CountLater(history, history'[|history|..], time, time', maxTime);
    }
  }

  class ClientLearnProtocol {
    const server: Link
    const deadline: Deadline
    const clock: Clock
    const clientId: seq<Byte>

    /** At no time did more than maxCount recorded operations fall within maxTime. */
    ghost predicate Valid()
      reads this, server, deadline, deadline.queue, clock
    {
      && deadline.Valid() && 0 < deadline.maxCount && deadline.Past(clock.time)
      && RateBounded(deadline.history, deadline.maxCount, deadline.maxTime)
    }

    constructor (server: Link, clock: Clock, clientId: seq<Byte>, maxCount: int, maxTime: int)
      requires 0 < maxCount
      ensures Valid() && deadline.history == [] && deadline.maxCount == maxCount && deadline.maxTime == maxTime
      ensures this.server == server && this.clock == clock && this.clientId == clientId
      ensures fresh(deadline) && fresh(deadline.queue)
    {
      deadline := new Deadline(maxCount, maxTime);
      this.server, this.clock, this.clientId := server, clock, clientId;
    }

    /** ++deadline after a check that let the operation through. */
    method Record(ghost checked: int)
      requires Valid() && checked <= Nanos(clock.time)
      requires var h := deadline.history;
               |h| >= deadline.maxCount ==> checked - Nanos(h[|h| - deadline.maxCount]) > deadline.maxTime
      modifies deadline, deadline.queue, clock
      ensures Valid() && deadline.history == old(deadline.history) + [clock.time]
      ensures Nanos(old(clock.time)) <= Nanos(clock.time)
    {
      ghost var h := deadline.history;
      deadline.Increment(clock);
      BoundedAfterRecord(h, deadline.maxCount, deadline.maxTime, checked, clock.time);
    }

    /** Refuses exactly when the limiter is breached at the time of the check; otherwise records the
        operation and passes the packet on. */
    method Write(packet: Packet) returns (result: WriteResult, ghost checked: Timespec)
      requires Valid()
      modifies server, deadline, deadline.queue, clock
      ensures Valid() && Nanos(old(clock.time)) <= Nanos(checked) <= Nanos(clock.time)
      ensures result.DeadlineFailure? <==>
                CountWithin(old(deadline.history), checked, deadline.maxTime) >= deadline.maxCount
      ensures result.DeadlineFailure? ==>
                deadline.history == old(deadline.history) && server.sent == old(server.sent) && checked == clock.time
      ensures !result.DeadlineFailure? ==>
                && deadline.history == old(deadline.history) + [clock.time]
                && server.sent == old(server.sent) + (if result.Sent? then [packet] else [])
      ensures old(|deadline.history|) < deadline.maxCount ==> !result.DeadlineFailure?
      ensures server.inbox == old(server.inbox)
      ensures old(server.writable) == [] ==> server.writable == [] && !result.LinkFailure?
      ensures if result.DeadlineFailure? then server.writable == old(server.writable)
              else (result.Sent? <==> Passes(old(server.writable), 0)) && server.writable == Later(old(server.writable))
    {
      var breached := deadline.Breached(clock);
      checked := clock.time;
      if breached {
        return DeadlineFailure, checked;
      }
      Record(Nanos(clock.time));
      result := server.Write(packet);
    }

    /** One packet, unless the limiter is breached. */
    method Take() returns (breached: bool, packet: Packet)
      requires Valid()
      modifies server, deadline, deadline.queue, clock
      ensures Valid() && Nanos(old(clock.time)) <= Nanos(clock.time)
      ensures breached ==> CountWithin(old(deadline.history), clock.time, deadline.maxTime) >= deadline.maxCount
      ensures old(|deadline.history|) < deadline.maxCount ==> !breached
      ensures server.sent == old(server.sent) && server.writable == old(server.writable)
      ensures breached ==>
                && packet == Packet(server.socket, DEADLINE_CROSSED, []) && server.inbox == old(server.inbox)
                && deadline.history == old(deadline.history)
      ensures !breached ==>
                && deadline.history == old(deadline.history) + [clock.time]
                && (if old(server.inbox) == [] then
                      packet == Packet(server.socket, EMPTY, []) && packet.command != HEARTBEAT && server.inbox == []
                    else old(server.inbox) == [packet] + server.inbox)
    {
      breached := deadline.Breached(clock);
      if breached {
        return true, Packet(server.socket, DEADLINE_CROSSED, []);
      }
      packet := server.Read();
      Record(Nanos(clock.time));
    }

    /** One Blank, if limiter and link let it pass. */
    method AnswerHeartBeat() returns (ghost reply: Reply)
      requires Valid()
      modifies server, deadline, deadline.queue, clock
      ensures Valid() && Nanos(old(clock.time)) <= Nanos(reply.time) <= Nanos(clock.time)
      ensures server.inbox == old(server.inbox) && server.sent == old(server.sent) + Blanks(server.socket, [reply])
      ensures deadline.history
           == old(deadline.history) + if reply.result.DeadlineFailure? then [] else [clock.time]
      ensures reply.result.DeadlineFailure? <==>
                CountWithin(old(deadline.history), reply.time, deadline.maxTime) >= deadline.maxCount
      ensures if reply.result.DeadlineFailure? then server.writable == old(server.writable)
              else
                && (reply.result.Sent? <==> Passes(old(server.writable), 0))
                && server.writable == Later(old(server.writable))
    {
      var blank := Packet(server.socket, BLANK, []);
      ghost var sent := server.sent;
      var result, checked := Write(blank);
      reply := Reply(result, checked);
      assert [reply][1..] == [] && sent + [] == sent && [blank] + [] == [blank];
    }

    /** Answers HeartBeats as long as they come in, and returns the first other packet, or that the
        limiter is breached. Every packet taken in is recorded, and so is every answer. */
    method Read() returns (packet: Packet, breached: bool, ghost replies: seq<Reply>)
      requires Valid()
      modifies server, deadline, deadline.queue, clock
      ensures Valid() && Nanos(old(clock.time)) <= Nanos(clock.time)
      ensures ReadsUpTo(old(server.inbox), server.inbox, old(server.sent), server.sent, packet, breached, server.socket,
                        replies)
      ensures RecordsWell(old(deadline.history), deadline.history, deadline.maxCount, deadline.maxTime,
                          old(server.writable), old(clock.time), clock.time, breached, replies)
      ensures old(server.writable) == []
              && CountWithin(old(deadline.history), old(clock.time), deadline.maxTime) + 2 * Leading(old(server.inbox)) + 1
                 <= deadline.maxCount ==>
                && !breached && server.sent == old(server.sent) + AllBlanks(server.socket, Leading(old(server.inbox)))
                && |deadline.history| == |old(deadline.history)| + 2 * Leading(old(server.inbox)) + 1
      decreases |server.inbox|
    {
      ghost var inbox, sent, history, writable := server.inbox, server.sent, deadline.history, server.writable;
      ghost var socket, maxCount, maxTime, time := server.socket, deadline.maxCount, deadline.maxTime, clock.time;
      hide *;
      replies := [];
      ReadsNone(inbox, sent, socket);
      breached, packet := Take();
      NoneToAnswer(history, deadline.history, maxCount, maxTime, writable, time, clock.time, breached);
      if !breached && packet.command == HEARTBEAT {
        ghost var rest, taken := server.inbox, deadline.history;
        ghost var reply := AnswerHeartBeat();
        ghost var now, writable', later := deadline.history, server.writable, clock.time;
        packet, breached, replies := Read();
        ReadsOneMore(inbox[0], rest, server.inbox, sent, reply, server.sent, packet, breached, socket, replies);
        OneMoreAnswer(history, taken, now, deadline.history, maxCount, maxTime, writable, writable', time, later, clock.time,
                      breached, reply, replies);
        replies := [reply] + replies;
      } else if !breached && inbox != [] {
        ReadsOne(packet, server.inbox, sent, socket);
      }
      WithRoom(inbox, server.inbox, sent, server.sent, packet, socket, history, deadline.history, maxCount, maxTime,
               writable, time, clock.time, breached, replies);
    }

    /** ClientLearnProtocol::SetupConnection: the acknowledgement goes through the limiter, the rest does not. said is
        what it sends; with nothing against it from limiter and link, it succeeds exactly when the first two packets to
        come in are the two expected answers. */
    method SetupConnection() returns (ok: bool, ghost ackSent: bool, ghost idSent: bool, ghost said: seq<Packet>)
      requires Valid()
      modifies server, deadline, deadline.queue, clock
      ensures Valid()
      ensures SetUp(ok, said, server.inbox) == SetUpWith(server.socket, clientId, ackSent, idSent, old(server.inbox))
      ensures server.sent == old(server.sent) + said
      ensures ackSent ==> Passes(old(server.writable), 0) && (idSent <==> Passes(old(server.writable), 1))
      ensures old(|deadline.history|) < deadline.maxCount ==> (ackSent <==> Passes(old(server.writable), 0))
      ensures old(|deadline.history|) < deadline.maxCount && old(server.writable) == [] ==>
                (ok <==> Says(old(server.inbox), 0, SETUP_SYN) && Says(old(server.inbox), 1, SETUP_JOIN))
    {
      assert EMPTY[0] == 69 && SETUP_SYN[0] == 65;
      hide EMPTY, SETUP_SYN, SETUP_JOIN, SETUP_ACK, SETUP_CLIENT_ID, CountWithin, RateBounded;
      ok, said := false, [];
      ghost var inbox := server.inbox;
      var ack, checked := Write(Packet(server.socket, SETUP_ACK, []));
      ackSent, idSent := ack.Sent?, Passes(server.writable, 0);
      if !ack.Sent? {
        return;
      }
      said := [Packet(server.socket, SETUP_ACK, [])];
      var syn := server.Read();
      if syn.command != SETUP_SYN {
        return;
      }
      ok := Introduce(inbox);
      said := said + if idSent then [Packet(server.socket, SETUP_CLIENT_ID, clientId)] else [];
    }

    /** Its second half. */
    method Introduce(ghost inbox: seq<Packet>) returns (ok: bool)
      requires Valid() && server.inbox == Unread(inbox, 1)
      modifies server
      ensures Valid() && (ok <==> Passes(old(server.writable), 0) && Says(inbox, 1, SETUP_JOIN))
      ensures server.inbox == Unread(inbox, if Passes(old(server.writable), 0) then 2 else 1)
      ensures server.sent == old(server.sent)
                + if Passes(old(server.writable), 0) then [Packet(server.socket, SETUP_CLIENT_ID, clientId)] else []
    {
      assert EMPTY[0] == 69 && SETUP_JOIN[0] == 74;
      assert 2 <= |inbox| ==> inbox[1..][1..] == inbox[2..] && inbox[1..][0] == inbox[1];
      hide EMPTY, SETUP_JOIN, SETUP_CLIENT_ID;
      var id := server.Write(Packet(server.socket, SETUP_CLIENT_ID, clientId));
      if !id.Sent? {
        return false;
      }
      var join := server.Read();
      ok := join.command == SETUP_JOIN;
    }
  }
}
