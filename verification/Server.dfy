/** The server program: its shards, its balancer, and the loops over them that accept, close and migrate clients. */
module Servers {
  import opened Iteration
  import opened Packets
  import opened Deadlines
  import opened Tcp
  import opened Priorities
  import opened Clients
  import opened ClientTables
  import opened ServerProtocol
  import opened MostRecentTimestamps
  import opened ServerSteps
  import opened Ownership
  import opened Accounting
  import opened Balance
  import Refinement

  lemma {:induction false} DoMore(s: State, ops: seq<Op>, op: Op)
    requires Settled(s) && CanDo(s, ops) && Allowed(Do(s, ops), op)
    ensures CanRun(Do(s, ops), Steps(Do(s, ops), op))
    ensures CanDo(s, ops + [op]) && Do(s, ops + [op]) == Run(Do(s, ops), Steps(Do(s, ops), op))
    decreases |ops|
  {
    if ops == [] {
      OpSettles(s, op);
      assert [] + [op] == [op] && [op][1..] == [];
      hide *;
      assert CanDo(Run(s, Steps(s, op)), []);
    } else {
      OpSettles(s, ops[0]);
      assert (ops + [op])[0] == ops[0] && (ops + [op])[1..] == ops[1..] + [op];
      hide Settled, Allowed, Steps, Run, CanRun;
      DoMore(Run(s, Steps(s, ops[0])), ops[1..], op);
    }
  }

  lemma DoOne(s: State, op: Op)
    requires Settled(s) && Allowed(s, op)
    ensures CanRun(s, Steps(s, op)) && CanDo(s, [op]) && Do(s, [op]) == Run(s, Steps(s, op))
  {
    assert CanDo(s, []) && Do(s, []) == s && [] + [op] == [op];
    hide *;
    DoMore(s, [], op);
  }

  lemma DoneMore(s: State, ops: seq<Op>, s1: State, op: Op, s2: State)
    requires Done(s, ops, s1) && Done(s1, [op], s2)
    ensures Done(s, ops + [op], s2)
  {
    assert Allowed(s1, op);
    hide Settled, Do, CanDo, Allowed, Steps;
    DoOne(s1, op);
    DoMore(s, ops, op);
  }

  lemma DoneIs(s: State, ops: seq<Op>, s': State)
    requires Done(s, ops, s')
    ensures Settled(s) && CanDo(s, ops) && s' == Do(s, ops)
  {
  }

  lemma DoneNone(s: State)
    requires Settled(s)
    ensures Done(s, [], s)
  {
  }

  lemma MayAccept(s: State, socket: int, weight: nat)
    requires Wf(s) && 0 <= socket && socket !in s.accepted
    ensures Allowed(s, AcceptOp(socket, weight))
  {
  }

  /** The i-th shard, and no other, has lost the clients of these sockets. */
  ghost predicate Without(s: State, i: nat, sockets: set<int>, s': State) {
    i < |s.shards| && s'.shards == s.shards[i := s.shards[i] - sockets]
  }

  /** Between two polls no shard has sockets to close. */
  ghost predicate NoneDoomed(s: State) {
    forall i :: 0 <= i < |s.doomed| ==> s.doomed[i] == {}
  }

  /** A run of whole operations leads from s to s'. */
  ghost predicate Done(s: State, ops: seq<Op>, s': State) {
    Settled(s) && CanDo(s, ops) && s' == Do(s, ops)
  }

  /** Clock readings that do not run backwards. */
  ghost predicate Onwards(latest: int, times: seq<int>) {
    forall i, j :: 0 <= i <= j < |times| ==> latest <= times[i] <= times[j]
  }

  lemma NotBackwards(latest: int, times: seq<int>)
    requires Onwards(latest, times)
    ensures forall i :: 0 <= i < |times| ==> latest <= times[i]
    ensures forall i, j :: 0 <= i <= j < |times| ==> times[i] <= times[j]
  {
  }

  class Server {
    const balancer: Priority
    const shards: seq<ServerLearnProtocol>
    ghost var state: State  // the same server, as a system of steps
    ghost var latest: int   // the clock reading of the last activity

    /** What the methods below change, besides the server itself. */
    ghost function Parts(): set<object> {
      {balancer}
      + (set j | 0 <= j < |shards| :: shards[j].clientInfos as object)
      + (set j | 0 <= j < |shards| :: shards[j].mostRecentTimestamps as object)
      + (set j | 0 <= j < |shards| :: shards[j].mostRecentTimestamps.timestamps as object)
    }

    /** No two shards share a table or an index. */
    ghost predicate Apart() {
      forall i, j :: 0 <= i < j < |shards| ==>
        && shards[i].clientInfos != shards[j].clientInfos
        && shards[i].mostRecentTimestamps != shards[j].mostRecentTimestamps
        && shards[i].mostRecentTimestamps.timestamps != shards[j].mostRecentTimestamps.timestamps
    }

    /** The tables of the shards other than the i-th. */
    ghost function Tables(i: int): set<object> {
      set j | 0 <= j < |shards| && j != i :: shards[j].clientInfos
    }

    /** All that the shards other than the i-th are made of. */
    ghost function Rest(i: int): set<object>
      reads Tables(i)
    {
      set j, o | 0 <= j < |shards| && j != i && o in shards[j].Repr() :: o
    }

    /** The shards other than the i-th hold these tables. */
    ghost predicate RestAs(i: int, tables: seq<map<int, Client>>, time: int)
      reads Tables(i), Rest(i)
    {
      |tables| == |shards| && forall j :: 0 <= j < |shards| && j != i ==>
        && shards[j].balancerIndex == j && shards[j].Valid() && shards[j].mostRecentTimestamps.now <= time
        && tables[j] == Refinement.TableOf(shards[j])
    }

    /** The shards and the balancer are as the state says. */
    ghost predicate Linked(s: State, time: int)
      reads balancer, Tables(-1), Rest(-1)
    {
      && balancer.Valid() && |shards| == |balancer.sizes| && Apart()
      && Wf(s) && s.loads == balancer.View() && RestAs(-1, s.shards, time)
    }

    /** So many steps have been taken since the state was s. */
    ghost predicate Came(s: State, ls: seq<Label>, time: int)
      reads balancer, Tables(-1), Rest(-1)
    {
      Wf(s) && CanRun(s, ls) && Linked(Run(s, ls), time)
    }

    ghost predicate Valid()
      reads this, balancer, Tables(-1), Rest(-1)
    {
      Linked(state, latest) && Settled(state) && NoneDoomed(state)
    }

    constructor (processors: nat, host: Host, supplied: bool)
      requires 0 < processors
      ensures Valid() && |shards| == processors && state == Start(processors) && latest == 0 && fresh(balancer)
      ensures forall j :: 0 <= j < processors ==> shards[j].timeout == 10 && shards[j].clientInfos.host == host
                                                  && shards[j].mostRecentTimestamps.timestamps.supplied == supplied
      ensures forall j :: 0 <= j < processors ==>
                && fresh(shards[j].clientInfos) && fresh(shards[j].mostRecentTimestamps)
                && fresh(shards[j].mostRecentTimestamps.timestamps)
    {
      balancer := new Priority(processors);
      var protocols := Protocols(processors, host, supplied);
      shards, state, latest := protocols, Start(processors), 0;
      new;
      StartsLinked();
    }

    static method Protocols(processors: nat, host: Host, supplied: bool) returns (protocols: seq<ServerLearnProtocol>)
      ensures |protocols| == processors && AreNew(protocols)
      ensures forall j :: 0 <= j < processors ==> MadeFor(protocols[j], host, supplied)
      ensures forall j :: 0 <= j < processors ==>
                && fresh(protocols[j].clientInfos) && fresh(protocols[j].mostRecentTimestamps)
                && fresh(protocols[j].mostRecentTimestamps.timestamps)
    {
      protocols := [];
      for i := 0 to processors
        invariant |protocols| == i && AreNew(protocols)
        invariant forall j :: 0 <= j < i ==> MadeFor(protocols[j], host, supplied)
        invariant forall j :: 0 <= j < i ==>
          && fresh(protocols[j].clientInfos) && fresh(protocols[j].mostRecentTimestamps)
          && fresh(protocols[j].mostRecentTimestamps.timestamps)
      {
        var protocol := new ServerLearnProtocol(host, i, 10, supplied);
        assert protocol.mostRecentTimestamps.Valid() && AreNew(protocols) && NotAmong(protocol, protocols);
        assert MadeFor(protocol, host, supplied);
        NewMore(protocols, protocol);
        hide *;
        protocols := protocols + [protocol];
      }
    }

    static ghost predicate MadeFor(protocol: ServerLearnProtocol, host: Host, supplied: bool) {
      protocol.timeout == 10 && protocol.clientInfos.host == host
      && protocol.mostRecentTimestamps.timestamps.supplied == supplied
    }

    /** Shards of a server that has just been started. */
    static ghost predicate AreNew(protocols: seq<ServerLearnProtocol>)
      reads set p | p in protocols :: p.clientInfos
      reads set p | p in protocols :: p.mostRecentTimestamps
      reads set p | p in protocols :: p.mostRecentTimestamps.timestamps
    {
      && (forall j :: 0 <= j < |protocols| ==>
          && protocols[j].clientInfos.clients == map[] && protocols[j].balancerIndex == j
          && protocols[j].mostRecentTimestamps.Valid() && protocols[j].mostRecentTimestamps.now == 0)
      && forall i, j :: 0 <= i < j < |protocols| ==>
          && protocols[i].clientInfos != protocols[j].clientInfos
          && protocols[i].mostRecentTimestamps != protocols[j].mostRecentTimestamps
          && protocols[i].mostRecentTimestamps.timestamps != protocols[j].mostRecentTimestamps.timestamps
    }

    /** It shares nothing with them. */
    static ghost predicate NotAmong(protocol: ServerLearnProtocol, protocols: seq<ServerLearnProtocol>) {
      forall p <- protocols ::
        && protocol.clientInfos != p.clientInfos && protocol.mostRecentTimestamps != p.mostRecentTimestamps
        && protocol.mostRecentTimestamps.timestamps != p.mostRecentTimestamps.timestamps
    }

    static lemma NewMore(protocols: seq<ServerLearnProtocol>, protocol: ServerLearnProtocol)
      requires AreNew(protocols) && NotAmong(protocol, protocols) && protocol.clientInfos.clients == map[]
      requires protocol.balancerIndex == |protocols|
      requires protocol.mostRecentTimestamps.Valid() && protocol.mostRecentTimestamps.now == 0
      ensures AreNew(protocols + [protocol])
    {
      hide Timestamps.Valid;
      assert forall j :: 0 <= j < |protocols| ==> protocols[j] in protocols;
    }

    lemma StartsLinked()
      requires AreNew(shards) && 0 < |shards| && balancer.Valid() && balancer.View() == Start(|shards|).loads
      ensures Linked(Start(|shards|), 0) && NoneDoomed(Start(|shards|))
    {
    }

    // ---- one call of one shard --------------------------------------------------------------

    lemma OfShard(i: nat, s: State, time: int)
      requires Linked(s, time) && i < |shards|
      ensures Apart() && |s.shards| == |shards| && RestAs(i, s.shards, time)
      ensures Refinement.Shows(s, shards[i], balancer) && shards[i].mostRecentTimestamps.now <= time
      ensures shards[i].Valid() && shards[i].ServedBy(balancer) && shards[i].balancerIndex == i
    {
    }

    lemma Separate(i: nat)
      requires Apart() && i < |shards|
      ensures {balancer, shards[i].clientInfos, shards[i].mostRecentTimestamps, shards[i].mostRecentTimestamps.timestamps}
           <= Parts()
      ensures balancer !in Tables(i) + Rest(i) && shards[i].clientInfos !in Tables(i) + Rest(i)
      ensures shards[i].mostRecentTimestamps !in Tables(i) + Rest(i)
      ensures shards[i].mostRecentTimestamps.timestamps !in Tables(i) + Rest(i)
      ensures forall o <- Tables(i) + Rest(i) :: allocated(o)
    {
    }

    lemma NotPart(o: object)
      requires o is Clock || o is Sockets || o is Server
      ensures o !in Parts()
    {
    }

    lemma NoDevice(i: int, o: object)
      requires o is Clock || o is Sockets || o is Server
      ensures o !in Tables(i) + Rest(i) && forall p <- Tables(i) + Rest(i) :: allocated(p)
    {
    }

    lemma WithShard(i: nat, s: State, ls: seq<Label>, earlier: int, time: int)
      requires Apart() && i < |shards| && |s.shards| == |shards| && RestAs(i, s.shards, earlier) && earlier <= time
      requires shards[i].Valid() && shards[i].ServedBy(balancer) && shards[i].balancerIndex == i
      requires shards[i].mostRecentTimestamps.now <= time && Refinement.Stepped(s, ls, shards[i], balancer)
      ensures Came(s, ls, time)
    {
    }

    /** An addition in flight arrives at the i-th shard. */
    method Arrive(i: nat, clientInfo: ClientInfo, time: int, ghost s: State, ghost id: nat)
      requires Linked(s, latest) && i < |shards| && clientInfo.Valid() && latest <= time && id in s.tasks
      requires s.tasks[id] == Adding(clientInfo.socket, Client(WeightOf(clientInfo), clientInfo.terminateOnNextCycle), i)
      modifies Parts()
      ensures state == old(state) && latest == old(latest)
      ensures Came(s, [Insert(id), Charge(id)], time)
    {
      hide *;
      OfShard(i, s, latest);
      NotPart(this);
      Separate(i);
      Refinement.Add(shards[i], balancer, clientInfo, time, s, id);
      WithShard(i, s, [Insert(id), Charge(id)], latest, time);
    }

    /** The i-th shard gives a client away, or a made-up one. */
    method Depart(i: nat, first: int, clock: Clock, ghost s: State, ghost id: nat, ghost to: nat)
      returns (clientInfo: ClientInfo)
      requires Linked(s, latest) && i < |shards| && id !in s.tasks && to < |shards|
      requires shards[i].clientInfos.clients == map[] || first in shards[i].clientInfos.clients
      modifies Parts(), clock
      ensures state == old(state) && latest == old(latest)
      ensures clientInfo.Valid() && Came(s, [Remove(id, i, first, to), Discharge(id)], latest)
      ensures Refinement.InHand(s, [Remove(id, i, first, to), Discharge(id)], id,
                Adding(clientInfo.socket, Client(WeightOf(clientInfo), clientInfo.terminateOnNextCycle), to))
    {
      hide *;
      OfShard(i, s, latest);
      NotPart(this);
      Separate(i);
      NoDevice(i, clock);
      clientInfo := Refinement.RemoveOldestClientAndReturn(shards[i], first, balancer, clock, s, id, to);
      WithShard(i, s, [Remove(id, i, first, to), Discharge(id)], latest, latest);
    }

    /** The i-th shard closes what is to be closed there. */
    method CloseHere(i: nat, socketsToRemove: set<int>, os: Sockets, ghost s: State)
      returns (removed: set<int>, ghost ls: seq<Label>, ghost order: seq<int>, ghost strays: seq<int>)
      requires Linked(s, latest) && i < |shards| && Refinement.AreDoomed(s, i, socketsToRemove)
      modifies Parts(), os`closed
      ensures state == old(state) && latest == old(latest)
      ensures Came(s, ls, latest) && Refinement.ClosedBy(s, ls, i, order, strays)
      ensures removed == socketsToRemove * old(shards[i].clientInfos.clients).Keys
      ensures Lists(order, removed) && Lists(strays, socketsToRemove - removed) && os.closed == old(os.closed) + order
    {
      hide *;
      OfShard(i, s, latest);
      NotPart(this);
      Separate(i);
      NoDevice(i, os);
      removed, ls, order, strays := Refinement.CloseSocketConnections(shards[i], balancer, socketsToRemove, os, s);
      WithShard(i, s, ls, latest, latest);
    }

    // ---- the loops --------------------------------------------------------------------------

    lemma WhatIsValid()
      requires Valid()
      ensures Linked(state, latest) && Settled(state) && NoneDoomed(state)
      ensures Wf(state) && state.tasks == map[] && |state.shards| == |shards|
      ensures balancer.Valid() && state.loads.minIdx == balancer.NextIndex() && state.loads.maxIdx == balancer.MaxIndex()
      ensures forall i :: 0 <= i < |shards| ==> state.shards[i].Keys == shards[i].clientInfos.clients.Keys
    {
    }

    /** These operations have been done since the state was s. */
    ghost predicate Did(s: State, ops: seq<Op>, time: int)
      reads balancer, Tables(-1), Rest(-1)
    {
      Settled(s) && CanDo(s, ops) && Linked(Do(s, ops), time) && NoneDoomed(Do(s, ops))
    }

    lemma IsValid()
      requires Linked(state, latest) && Settled(state) && NoneDoomed(state)
      ensures Valid()
    {
    }

    ghost method Proceed(ops: seq<Op>, time: int)
      requires Did(state, ops, time)
      modifies this
      ensures Valid() && latest == time && Done(old(state), ops, state)
    {
      NoDevice(-1, this);
      assert Settled(state) && CanDo(state, ops);
      ghost var s := Do(state, ops);
      assert Settled(s) && Linked(s, time) && NoneDoomed(s) && Done(state, ops, s);
      hide *;
      state, latest := s, time;
      IsValid();
    }

    /** An accepted socket is about to be added. */
    lemma AcceptBegins(socket: int, weight: nat) returns (s: State)
      requires Valid() && Allowed(state, AcceptOp(socket, weight))
      ensures var to := state.loads.minIdx;
              && s.tasks == map[0 := Adding(socket, Client(weight, false), to)]
              && Wf(s) && CanRun(state, [Accept(0, socket, weight, to)]) && s == Run(state, [Accept(0, socket, weight, to)])
              && Linked(s, latest) && to < |shards|
    {
      var l := Accept(0, socket, weight, state.loads.minIdx);
      s := Next(state, l);
      RunOne(state, l);
    }

    lemma AcceptEnds(s: State, socket: int, weight: nat, before: State, time: int)
      requires Settled(before) && NoneDoomed(before) && Allowed(before, AcceptOp(socket, weight))
      requires var l := Accept(0, socket, weight, before.loads.minIdx);
               CanRun(before, [l]) && s == Run(before, [l])
      requires Came(s, [Insert(0), Charge(0)], time)
      ensures Did(before, [AcceptOp(socket, weight)], time)
    {
      AcceptSettles(before, socket, weight);
      var l := Accept(0, socket, weight, before.loads.minIdx);
      DoOne(before, AcceptOp(socket, weight));
      hide Run, CanRun, Settled, Allowed, Linked;
      RunConcat(before, [l], [Insert(0), Charge(0)]);
    }

    lemma Weighs(clientInfo: ClientInfo, count: nat)
      requires clientInfo.deadline.maxCount == count
      ensures WeightOf(clientInfo) == count
    {
    }

    /** The accept loop: a new connection goes to a least loaded shard. */
    method AcceptOne(socket: int, deadlineMaxCount: int := 25, clock: Clock, time: int)
      requires Valid() && 0 < deadlineMaxCount && latest <= time
      requires 0 <= socket && socket !in state.accepted
      modifies this, Parts(), clock
      ensures Valid() && latest == time && Done(old(state), [AcceptOp(socket, deadlineMaxCount)], state)
    {
      hide *;
      WhatIsValid();
      MayAccept(state, socket, deadlineMaxCount);
      ghost var s := AcceptBegins(socket, deadlineMaxCount);
      NoDevice(-1, clock);
      var currentBalance := balancer.NextIndex();
      var clientInfo := new ClientInfo(socket, deadlineMaxCount, clock);
      Weighs(clientInfo, deadlineMaxCount);
      Arrive(currentBalance, clientInfo, time, s, 0);
      AcceptEnds(s, socket, deadlineMaxCount, state, time);
      Proceed([AcceptOp(socket, deadlineMaxCount)], time);
    }

    lemma MigrateBegins(first: int)
      requires Valid() && Moves(state) && first in shards[balancer.MaxIndex()].clientInfos.clients
      ensures var from, to := balancer.MaxIndex(), balancer.NextIndex();
              && from < |shards| && to < |shards| && from == state.loads.maxIdx && to == state.loads.minIdx
              && 0 !in state.tasks && Allowed(state, MigrateOp(first))
    {
    }

    lemma MigrateEnds(s: State, first: int, s1: State, time: int)
      requires Settled(s) && NoneDoomed(s) && Moves(s) && Allowed(s, MigrateOp(first))
      requires var ls := [Remove(0, s.loads.maxIdx, first, s.loads.minIdx), Discharge(0)];
               CanRun(s, ls) && s1 == Run(s, ls)
      requires Came(s1, [Insert(0), Charge(0)], time)
      ensures Did(s, [MigrateOp(first)], time)
    {
      MigrateSettles(s, first);
      var ls := [Remove(0, s.loads.maxIdx, first, s.loads.minIdx), Discharge(0)];
      DoOne(s, MigrateOp(first));
      hide Run, CanRun, Settled, Allowed, Linked, Moves;
      RunConcat(s, ls, [Insert(0), Charge(0)]);
    }

    /** One migration, from the most to the least loaded shard. */
    method Switch(first: int, clock: Clock, time: int)
      requires Valid() && Moves(state) && first in shards[balancer.MaxIndex()].clientInfos.clients && latest <= time
      modifies this, Parts(), clock
      ensures Valid() && latest == time && Done(old(state), [MigrateOp(first)], state)
    {
      hide *;
      WhatIsValid();
      MigrateBegins(first);
      var maxIdx, minIdx := balancer.MaxIndex(), balancer.NextIndex();
      var clientInfo := Depart(maxIdx, first, clock, state, 0, minIdx);
      ghost var s := InHandNow(state, [Remove(0, maxIdx, first, minIdx), Discharge(0)], clientInfo, minIdx);
      Arrive(minIdx, clientInfo, time, s, 0);
      MigrateEnds(state, first, s, time);
      Proceed([MigrateOp(first)], time);
    }

    lemma InHandNow(s: State, ls: seq<Label>, c: ClientInfo, to: nat) returns (s1: State)
      requires Came(s, ls, latest)
      requires Refinement.InHand(s, ls, 0, Adding(c.socket, Client(WeightOf(c), c.terminateOnNextCycle), to))
      ensures Wf(s) && CanRun(s, ls) && s1 == Run(s, ls) && Linked(s1, latest) && 0 in s1.tasks
      ensures s1.tasks[0] == Adding(c.socket, Client(WeightOf(c), c.terminateOnNextCycle), to)
    {
      s1 := Run(s, ls);
    }

    lemma MayMove(oldest: int)
      requires Valid() && balancer.MaxIndex() != balancer.NextIndex()
      requires balancer.MaxIndex() < |shards| && oldest in shards[balancer.MaxIndex()].clientInfos.clients
      ensures Moves(state) && CanMove(state, oldest)
      ensures Stuck(state, oldest)
    {
      assert oldest in state.shards[state.loads.maxIdx];
    }

    lemma CannotMove()
      requires Valid() && (balancer.MaxIndex() == balancer.NextIndex()
                           || (balancer.MaxIndex() < |shards| && shards[balancer.MaxIndex()].clientInfos.clients == map[]))
      ensures forall prevSocket :: Stuck(state, prevSocket)
    {
      assert balancer.MaxIndex() < |shards|;
      assert state.shards[balancer.MaxIndex()].Keys == shards[balancer.MaxIndex()].clientInfos.clients.Keys;
    }

    /** One round of downCallback: nothing happens if one shard has both the least and the greatest load, or the most
        loaded one has nobody to give, or the client that moved before would move again. */
    method Round(prevSocket: int, clock: Clock, time: int) returns (moved: bool, oldest: int)
      requires Valid() && latest <= time
      modifies this, Parts(), clock
      ensures Valid() && (moved ==> oldest != prevSocket && CanMove(old(state), oldest))
      ensures moved ==> latest == time && Done(old(state), [MigrateOp(oldest)], state)
      ensures !moved ==> latest == old(latest) && state == old(state) && Stuck(state, prevSocket)
    {
      hide *;
      WhatIsValid();
      NoDevice(-1, this);
      var maxIdx, minIdx := balancer.MaxIndex(), balancer.NextIndex();
      if maxIdx == minIdx || shards[maxIdx].clientInfos.clients == map[] {
        CannotMove();
        return false, PHANTOM;
      }
      oldest := shards[maxIdx].clientInfos.OldestSocket();
      MayMove(oldest);
      if oldest == prevSocket {
        return false, PHANTOM;
      }
      Switch(oldest, clock, time);
      moved := true;
    }

    /** downCallback: as many migrations as clients went down, unless it gets stuck. */
    method DownCallback(count: nat, clock: Clock, times: seq<int>) returns (ghost moves: seq<Op>)
      requires Valid() && count <= |times| && Onwards(latest, times)
      modifies this, Parts(), clock
      ensures Valid() && Done(old(state), moves, state) && Stopped(state, moves, count)
    {
      var prevSocket := PHANTOM;
      moves := [];
      ghost var start := state;
      hide *;
      NotBackwards(latest, times);
      NoneMoved();
      WhatIsValid();
      DoneNone(state);
      for i := 0 to count
        invariant Valid() && Done(start, moves, state) && latest == if i == 0 then old(latest) else times[i - 1]
        invariant |moves| == i && AreMigrations(moves) && prevSocket == LastMoved(moves)
      {
        ghost var s := state;
        var moved, oldest := Round(prevSocket, clock, times[i]);
        if !moved {
          Stops(state, moves, count);
          return;
        }
        DoneMore(start, moves, s, MigrateOp(oldest), state);
        MovedMore(moves, oldest);
        prevSocket, moves := oldest, moves + [MigrateOp(oldest)];
      }
      Stops(state, moves, count);
    }

    lemma CloseBegins(i: nat, named: seq<int>, socketsToRemove: set<int>) returns (s: State)
      requires Valid() && i < |shards| && Lists(named, socketsToRemove)
      ensures Linked(s, latest) && Refinement.AreDoomed(s, i, socketsToRemove)
      ensures Wf(state) && CanRun(state, PollEach(i, named)) && s == Run(state, PollEach(i, named))
    {
      ElementsOf(named, socketsToRemove);
      PollEachRuns(state, i, named);
      s := Run(state, PollEach(i, named));
      assert state.doomed[i] + Elements(named) == socketsToRemove;
      hide Run, CanRun;
      RunNone(s);
    }

    lemma CloseEnds(s: State, i: nat, named: seq<int>, s1: State, sockets: set<int>, removed: set<int>, ls: seq<Label>,
                    order: seq<int>, strays: seq<int>)
      requires Settled(s) && NoneDoomed(s) && i < |s.shards| && Lists(named, sockets)
      requires CanRun(s, PollEach(i, named)) && s1 == Run(s, PollEach(i, named))
      requires Came(s1, ls, latest) && Refinement.ClosedBy(s1, ls, i, order, strays)
      requires Lists(order, removed) && Lists(strays, sockets - removed) && removed <= sockets
      ensures Did(s, [CloseOp(i, named, order + strays)], latest)
      ensures Without(s, i, sockets, Do(s, [CloseOp(i, named, order + strays)]))
    {
      var op := CloseOp(i, named, order + strays);
      ClosedInOrder(s1, ls, i, order, strays);
      ElementsOf(named, sockets);
      assert Allowed(s, op) by {
        BothListed(order, strays, sockets, removed);
      }
      assert Steps(s, op) == PollEach(i, named) + ls;
      hide Run, CanRun, Settled, Allowed, Linked, PollEach, Closes, Elements, Lists, Steps;
      NoneDoomedThen(s, i, named, order + strays);
      DoOne(s, op);
      RunConcat(s, PollEach(i, named), ls);
    }

    lemma ClosedInOrder(s: State, ls: seq<Label>, i: nat, order: seq<int>, strays: seq<int>)
      requires Refinement.ClosedBy(s, ls, i, order, strays)
      ensures ls == Closes(i, order + strays)
    {
      assert Closes(i, order) + Closes(i, strays) == Closes(i, order + strays);
    }

    /** The first half of ServerLearnProtocol::CloseSocketConnections: what is named and registered is closed. */
    method CloseNamed(i: nat, socketsToRemove: set<int>, os: Sockets)
      returns (removed: set<int>, ghost close: Op, ghost closed: seq<int>)
      requires Valid() && i < |shards|
      modifies this, Parts(), os`closed
      ensures Valid() && latest == old(latest) && Done(old(state), [close], state)
      ensures close.CloseOp? && close.shard == i && Lists(close.named, socketsToRemove)
      ensures removed == socketsToRemove * old(shards[i].clientInfos.clients).Keys && Lists(closed, removed)
      ensures os.closed == old(os.closed) + closed && closed <= close.order
      ensures Without(old(state), i, socketsToRemove, state)
    {
      hide *;
      WhatIsValid();
      ghost var ls, strays;
      ghost var named := Refinement.Listed(socketsToRemove);
      ghost var s := CloseBegins(i, named, socketsToRemove);
      removed, ls, closed, strays := CloseHere(i, socketsToRemove, os, s);
      CloseEnds(state, i, named, s, socketsToRemove, removed, ls, closed, strays);
      close := CloseOp(i, named, closed + strays);
      ghost var before := state;
      Proceed([close], latest);
      DoneIs(before, [close], state);
    }

    /** ServerLearnProtocol::CloseSocketConnections with downCallback: closes those of the sockets that the shard has,
        in some order, then lets as many clients migrate. */
    method CloseSocketConnections(i: nat, socketsToRemove: set<int>, os: Sockets, clock: Clock, times: seq<int>)
      returns (removed: set<int>, ghost close: Op, ghost closed: seq<int>, ghost between: State, ghost moves: seq<Op>)
      requires Valid() && i < |shards| && |socketsToRemove| <= |times| && Onwards(latest, times)
      modifies this, Parts(), os`closed, clock
      ensures Valid() && Done(old(state), [close], between) && Done(between, moves, state)
      ensures close.CloseOp? && close.shard == i && Lists(close.named, socketsToRemove)
      ensures removed == socketsToRemove * old(shards[i].clientInfos.clients).Keys && Lists(closed, removed)
      ensures os.closed == old(os.closed) + closed && closed <= close.order
      ensures Without(old(state), i, socketsToRemove, between) && Stopped(state, moves, |removed|)
    {
      hide *;
      removed, close, closed := CloseNamed(i, socketsToRemove, os);
      between := state;
      NotPart(os);
      FewerOf(removed, socketsToRemove);
      moves := DownCallback(|removed|, clock, times);
    }
  }

  lemma NoneDoomedThen(s: State, i: nat, named: seq<int>, order: seq<int>)
    requires Settled(s) && NoneDoomed(s) && Allowed(s, CloseOp(i, named, order))
    ensures var ls := Steps(s, CloseOp(i, named, order));
            CanRun(s, ls) && NoneDoomed(Run(s, ls)) && Without(s, i, Elements(named), Run(s, ls))
  {
    CloseSettles(s, i, named, order);
    hide Run, CanRun, Settled;
    assert s.doomed[i] - Elements(named) == {};
  }

  lemma BothListed(order: seq<int>, strays: seq<int>, sockets: set<int>, removed: set<int>)
    requires Lists(order, removed) && Lists(strays, sockets - removed) && removed <= sockets
    ensures Lists(order + strays, sockets)
  {
    var both := order + strays;
    forall j, k | 0 <= j < k < |both|
      ensures both[j] != both[k]
    {
      if j < |order| <= k {
        assert both[j] == order[j] && order[j] in order && both[k] == strays[k - |order|] && strays[k - |order|] in strays;
      }
    }
  }

  lemma FewerOf(removed: set<int>, sockets: set<int>)
    requires removed <= sockets
    ensures |removed| <= |sockets|
  {
    assert sockets == removed + (sockets - removed);
  }

  /** Migrations, no two in a row of the same client. */
  ghost predicate AreMigrations(ops: seq<Op>) {
    && (forall i :: 0 <= i < |ops| ==> ops[i].MigrateOp?)
    && forall i :: 0 < i < |ops| ==> ops[i].socket != ops[i - 1].socket
  }

  /** A most loaded shard has this client to give. */
  ghost predicate CanMove(s: State, socket: int) {
    Wf(s) && s.loads.minIdx != s.loads.maxIdx && socket in s.shards[s.loads.maxIdx] && socket != PHANTOM
  }

  /** The client that moved last; a socket cannot be -1. */
  ghost function LastMoved(moves: seq<Op>): int {
    if moves != [] && moves[|moves| - 1].MigrateOp? then moves[|moves| - 1].socket else PHANTOM
  }

  /** One shard has both the least and the greatest load, or the most loaded one has nobody to give, or it has the client
      that moved before. */
  ghost predicate Stuck(s: State, prevSocket: int) {
    && Wf(s)
    && (s.loads.minIdx == s.loads.maxIdx || s.shards[s.loads.maxIdx] == map[]
        || (prevSocket != PHANTOM && prevSocket in s.shards[s.loads.maxIdx]))
  }

  /** As many migrations as that, unless they got stuck. */
  ghost predicate Stopped(s: State, moves: seq<Op>, count: nat) {
    |moves| <= count && AreMigrations(moves) && (|moves| < count ==> Stuck(s, LastMoved(moves)))
  }

  lemma Stops(s: State, moves: seq<Op>, count: nat)
    requires |moves| <= count && AreMigrations(moves)
    requires |moves| == count || Stuck(s, LastMoved(moves))
    ensures Stopped(s, moves, count)
  {
  }

  lemma NoneMoved()
    ensures AreMigrations([]) && LastMoved([]) == PHANTOM
  {
  }

  lemma MovedMore(moves: seq<Op>, socket: int)
    requires AreMigrations(moves) && socket != LastMoved(moves)
    ensures AreMigrations(moves + [MigrateOp(socket)]) && LastMoved(moves + [MigrateOp(socket)]) == socket
  {
  }
}
