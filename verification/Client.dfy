/** The server's record of one client. */
module Clients {
  import opened Bytes
  import opened Deadlines
  import opened Tcp

  class ClientInfo {
    const socket: int
    var clientId: seq<Byte>
    const deadline: Deadline
    var terminateOnNextCycle: bool
    var terminateNow: bool

    ghost predicate Valid()
      reads this, deadline, deadline.queue
    {
      deadline.Valid() && 0 < deadline.maxCount
    }

    constructor (socket: int, deadlineMaxCount: int := 25, clock: Clock)
      requires 0 < deadlineMaxCount
      modifies clock
      ensures Valid() && this.socket == socket && clientId == [] && !terminateOnNextCycle && !terminateNow
      ensures deadline.maxCount == deadlineMaxCount && deadline.history == [clock.time]
      ensures deadline.maxTime == 10_000_000_000 && deadline.maxHealthCheckTime == 30_000_000_000
      ensures Nanos(old(clock.time)) <= Nanos(clock.time)
      ensures fresh(deadline) && fresh(deadline.queue)
    {
      this.socket, clientId, terminateOnNextCycle, terminateNow := socket, [], false, false;
      deadline := new Deadline(deadlineMaxCount);
      new;
      deadline.Increment(clock);
    }

    /** The first strike warns, the second shuts the socket down. */
    method TerminateThisCycleOrNext(os: Sockets) returns (now: bool)
      modifies `terminateOnNextCycle, os`shut
      ensures now <==> old(terminateOnNextCycle) || terminateNow
      ensures terminateOnNextCycle <==> old(terminateOnNextCycle) || !terminateNow
      ensures os.shut == if now then old(os.shut) + {socket} else old(os.shut)
    {
      if terminateOnNextCycle || terminateNow {
        os.Shutdown(socket);
        return true;
      }
      terminateOnNextCycle := true;
      return false;
    }

    function DeadlineMaxCount(): int
      reads deadline.queue
    {
      deadline.MaxCount()
    }
  }
}
