/** What a shard is made of: its table of clients, its recency index, and its slot at the balancer. */
module ServerProtocol {
  import opened Buffers
  import opened Packets
  import opened Readers
  import opened Tcp
  import opened Deadlines
  import opened Clients
  import opened ClientTables
  import opened Polls
  import opened Iteration
  import opened MostRecentTimestamps
  import opened Priorities

  class ServerLearnProtocol {
    const clientInfos: ClientInfos
    const mostRecentTimestamps: Timestamps
    const balancerIndex: nat
    const timeout: int

    ghost function Repr(): set<object>
      reads clientInfos`clients
    {
      {clientInfos, mostRecentTimestamps, mostRecentTimestamps.timestamps} + clientInfos.Footprint()
    }

    ghost predicate Valid()
      reads Repr()
    {
      clientInfos.Valid() && mostRecentTimestamps.Valid()
    }

    lemma PartsValid()
      ensures Valid() <==> clientInfos.Valid() && mostRecentTimestamps.Valid()
      ensures mostRecentTimestamps !in clientInfos.Footprint()
      ensures mostRecentTimestamps.timestamps !in clientInfos.Footprint()
    {
    }

    lemma Served(balancer: Priority)
      ensures balancer !in clientInfos.Footprint()
      ensures ServedBy(balancer) <==> balancer.Valid() && balancerIndex < |balancer.sizes|
    {
    }

    lemma CountsAs(clientInfo: ClientInfo)
      requires clientInfo.Valid()
      ensures 0 < clientInfo.DeadlineMaxCount() == WeightOf(clientInfo)
      ensures clientInfo.deadline.maxCount == 25 ==> WeightOf(clientInfo) == 25
    {
    }

    /** Whether the balancer has a slot for this shard. */
    ghost predicate ServedBy(balancer: Priority)
      reads balancer
    {
      balancer.Valid() && balancerIndex < |balancer.sizes|
    }

    constructor (host: Host, balancerIndex: nat, timeout: int := 10, supplied: bool)
      ensures Valid() && clientInfos.clients == map[] && mostRecentTimestamps.ops == [] && mostRecentTimestamps.now == 0
      ensures fresh(clientInfos) && fresh(mostRecentTimestamps) && fresh(mostRecentTimestamps.timestamps)
      ensures this.balancerIndex == balancerIndex && this.timeout == timeout
      ensures clientInfos.host == host && mostRecentTimestamps.timestamps.supplied == supplied
      ensures clientInfos.packetsToRead == clientInfos.packetsToWrite == []
    {
      clientInfos := new ClientInfos(host);
      mostRecentTimestamps := new Timestamps(supplied);
      this.balancerIndex, this.timeout := balancerIndex, timeout;
    }

    /** Registers the client, charges the shard, and notes the activity, in this order. */
    method Add(balancer: Priority, clientInfo: ClientInfo, time: int)
      requires Valid() && ServedBy(balancer) && clientInfo.Valid() && mostRecentTimestamps.now <= time
      modifies clientInfos`clients, clientInfos`watched
      modifies balancer, mostRecentTimestamps, mostRecentTimestamps.timestamps
      ensures Valid() && ServedBy(balancer) && mostRecentTimestamps.now == time
      ensures clientInfos.clients == if clientInfo.socket in old(clientInfos.clients) then old(clientInfos.clients)
                                     else old(clientInfos.clients)[clientInfo.socket := clientInfo]
      ensures clientInfos.watched == old(clientInfos.watched) + {clientInfo.socket}
      ensures balancer.View() == Inc(old(balancer.View()), balancerIndex, WeightOf(clientInfo))
      ensures mostRecentTimestamps.ops == old(mostRecentTimestamps.ops) + [OrderedHashSets.Insert(clientInfo.socket, time)]
    {
      PartsValid();
      Served(balancer);
      CountsAs(clientInfo);
      hide *;
      clientInfos.Insert(clientInfo);
      PartsValid();
      Served(balancer);
      balancer.IncPriority(balancerIndex, clientInfo.DeadlineMaxCount());
      mostRecentTimestamps.UpdateSingle(clientInfo.socket, time);
      PartsValid();
      Served(balancer);
    }

    /** Takes the client that the table has first, or the made-up one of an empty table, for which the
        shard is discharged as well. */
    method RemoveOldestClientAndReturn(first: int, balancer: Priority, clock: Clock) returns (clientInfo: ClientInfo)
      requires Valid() && ServedBy(balancer) && (clientInfos.clients == map[] || first in clientInfos.clients)
      modifies clientInfos`clients, balancer, mostRecentTimestamps, mostRecentTimestamps.timestamps, clock
      ensures Valid() && ServedBy(balancer) && clientInfo.Valid()
      ensures mostRecentTimestamps.now == old(mostRecentTimestamps.now)
      ensures clientInfos.clients == old(clientInfos.clients) - {clientInfo.socket}
      ensures old(clientInfos.clients) != map[] ==>
                clientInfo.socket == first && clientInfo == old(clientInfos.clients)[first]
      ensures old(clientInfos.clients) == map[] ==>
                clientInfo.socket == -1 && WeightOf(clientInfo) == 25 && !clientInfo.terminateOnNextCycle
      ensures balancer.View() == Dec(old(balancer.View()), balancerIndex, WeightOf(clientInfo))
      ensures mostRecentTimestamps.ops == old(mostRecentTimestamps.ops) + [OrderedHashSets.Remove(clientInfo.socket)]
    {
      hide Dec, Extremes, Scan, Timestamps.Valid;
      clientInfo := clientInfos.RemoveOldestClientAndReturn(first, clock);
      balancer.DecPriority(balancerIndex, clientInfo.DeadlineMaxCount());
      mostRecentTimestamps.RemoveSingle(clientInfo.socket);
    }

    /** Reads from the clients that have something to say, and notes the activity of those that were heard,
        unless the reader breaks. */
    method PollRead(events: seq<PollEvent>, wires: map<int, Wire>, socketsToTerminate: set<int>, buffer: Buffer,
                    clock: Clock, os: Sockets, time: int, ghost s: Polled)
      returns (socketsToTerminate': set<int>, broken: bool, ghost visits: seq<Visit>, ghost s': Polled,
               ghost heard: seq<int>)
      requires Valid() && clientInfos.Apart() && clientInfos.Past(clock.time) && mostRecentTimestamps.now <= time
      requires 0 < buffer.SizeIgnoreOffset() && OwnLines(wires) && forall e <- events :: e.socket in wires
      requires s == clientInfos.Gathered(wires, [], os, socketsToTerminate, {}, false)
      modifies clientInfos`packetsToRead, clientInfos`packetsToWrite, clientInfos.Footprint()
      modifies clock, buffer, buffer.arr, os`shut, set k | k in wires :: wires[k]
      modifies mostRecentTimestamps, mostRecentTimestamps.timestamps
      ensures Valid() && clientInfos.Past(clock.time) && clientInfos.clients == old(clientInfos.clients)
      ensures InTime(old(clock.time), visits, clock.time)
      ensures clientInfos.HeardAndDoomed(buffer.SizeIgnoreOffset(), s, events, visits, s'.heard, socketsToTerminate')
      ensures clientInfos.CameOut(buffer.SizeIgnoreOffset(), s, s', events, visits, wires, os, socketsToTerminate', broken)
      ensures clientInfos.packetsToRead == old(clientInfos.packetsToRead) + if broken then [] else s'.readList
      ensures if broken then heard == [] else Lists(heard, s'.heard)
      ensures mostRecentTimestamps.ops == old(mostRecentTimestamps.ops) + Activities(heard, time)
      ensures Noted(old(mostRecentTimestamps.ops), mostRecentTimestamps.ops, heard, time)
    {
      var socketsWeReadAt;
      hide Valid, ClientInfos.Valid, ClientInfos.Past, ClientInfos.CameOut, ClientInfos.Apart, ClientInfos.Gathered;
      hide Lists, Activities, OwnLines, Timestamps.Valid, ClientInfos.HeardAndDoomed, InTime, Noted;
      PartsValid();
      socketsWeReadAt, socketsToTerminate', broken, visits, s' :=
        clientInfos.OnReadPoll(events, wires, socketsToTerminate, buffer, clock, os, s);
      PartsValid();
      ghost var ops := mostRecentTimestamps.ops;
      heard := NoteActivity(socketsWeReadAt, broken, time);
      OpsAt(ops, heard, time);
    }

    method NoteActivity(socketsWeReadAt: set<int>, broken: bool, time: int) returns (ghost heard: seq<int>)
      requires Valid() && mostRecentTimestamps.now <= time
      modifies mostRecentTimestamps, mostRecentTimestamps.timestamps
      ensures Valid() && mostRecentTimestamps.ops == old(mostRecentTimestamps.ops) + Activities(heard, time)
      ensures if broken then heard == [] else Lists(heard, socketsWeReadAt)
    {
      heard := [];
      OneMoreOp(mostRecentTimestamps.ops, [], 0, time);
      hide *;
      PartsValid();
      if !broken {
        heard := mostRecentTimestamps.UpdateFor(socketsWeReadAt, time);
      }
      PartsValid();
    }

    /** Closes those of the sockets that are registered here. down is how many clients the callback is told
        of; it is not called for none. */
    method CloseSocketConnections(balancer: Priority, socketsToRemove: set<int>, os: Sockets)
      returns (removed: set<int>, down: nat, ghost closed: seq<int>, ghost forgotten: seq<int>)
      requires Valid() && ServedBy(balancer)
      modifies clientInfos`clients, balancer, mostRecentTimestamps, mostRecentTimestamps.timestamps, os`closed
      ensures Valid() && ServedBy(balancer) && down == |removed|
      ensures mostRecentTimestamps.now == old(mostRecentTimestamps.now)
      ensures removed == socketsToRemove * old(clientInfos.clients.Keys)
      ensures clientInfos.clients == old(clientInfos.clients) - socketsToRemove
      ensures Lists(closed, removed) && Lists(forgotten, removed) && os.closed == old(os.closed) + closed
      ensures balancer.View()
           == DecAll(old(balancer.View()), balancerIndex, WeightsOf(old(clientInfos.clients), closed))
      ensures mostRecentTimestamps.ops == old(mostRecentTimestamps.ops) + Removals(forgotten)
      ensures Forgotten(old(mostRecentTimestamps.ops), mostRecentTimestamps.ops, forgotten)
    {
      PartsValid();
      Served(balancer);
      forgotten := [];
      assert Lists([], {});
      OneMoreOp(mostRecentTimestamps.ops, [], 0, 0);
      hide *;
      removed, closed := clientInfos.Close(socketsToRemove, balancer, balancerIndex, os);
      down := |removed|;
      PartsValid();
      Served(balancer);
      if removed == {} {
        return;
      }
      OpsAt(mostRecentTimestamps.ops, [], 0);
      forgotten := mostRecentTimestamps.Remove(removed);
      PartsValid();
    }

    /** Of the sockets that were silent for timeout seconds, the registered ones without a warning get one;
        the others are added to those that the caller is going to shut down. */
    method ExecHealthCheck(socketsSelected: set<int>, now: int, os: Sockets)
      returns (socketsToClose: set<int>, ghost warned: seq<int>)
      requires Valid()
      modifies (set k | k in clientInfos.clients :: clientInfos.clients[k])`terminateOnNextCycle
      modifies clientInfos`packetsToWrite, os`shut
      ensures Valid()
      ensures var stale, table := Stale(old(mostRecentTimestamps.Contents()), now, timeout), clientInfos.clients.Keys;
              && socketsToClose == socketsSelected + StayIn(stale, table, old(clientInfos.Striking()))
              && Lists(warned, stale * table - old(clientInfos.Striking()))
              && clientInfos.Flagged() == old(clientInfos.Flagged()) + (stale * table - old(clientInfos.Striking()))
              && os.shut == old(os.shut) + stale * old(clientInfos.Striking())
      ensures clientInfos.packetsToWrite == old(clientInfos.packetsToWrite) + HeartBeats(warned)
      ensures forall i :: 0 <= i < |warned| ==>
                clientInfos.packetsToWrite[|old(clientInfos.packetsToWrite)| + i] == Packet(warned[i], HEARTBEAT, [])
    {
      var selected := mostRecentTimestamps.GetSocketsLessThanTimestamp(now, timeout);
      var kept;
      kept, warned := clientInfos.FilterSocketsToTerminate(selected, os);
      socketsToClose := socketsSelected + kept;
      assert selected - kept == selected * clientInfos.clients.Keys - old(clientInfos.Striking());
      assert kept * old(clientInfos.Striking()) == selected * old(clientInfos.Striking());
    }
  }
}
