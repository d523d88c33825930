/** The shards take the steps that the server was modelled by: every call of a shard is, for its table of clients
    and for the balancer, a run of those steps. */
module Refinement {
  import opened Iteration
  import opened Bytes
  import opened Packets
  import opened Buffers
  import opened Tcp
  import opened Deadlines
  import opened Readers
  import opened Polls
  import opened Priorities
  import opened Clients
  import opened ClientTables
  import opened ServerProtocol
  import opened MostRecentTimestamps
  import opened ServerSteps
  import TwoStrike
  import Calls

  /** The table of a shard as the steps see it: weights and warnings. */
  ghost function Table(clients: map<int, ClientInfo>, flagged: set<int>): map<int, Client> {
    map k <- clients :: Client(WeightOf(clients[k]), k in flagged)
  }

  ghost function TableOf(shard: ServerLearnProtocol): map<int, Client>
    reads shard.clientInfos`clients, shard.clientInfos.Footprint()
  {
    Table(shard.clientInfos.clients, shard.clientInfos.Flagged())
  }

  /** The shard and the balancer are as the state says. */
  ghost predicate Shows(s: State, shard: ServerLearnProtocol, balancer: Priority)
    reads shard.clientInfos`clients, shard.clientInfos.Footprint(), balancer
  {
    && Wf(s) && shard.balancerIndex < |s.shards|
    && s.shards[shard.balancerIndex] == TableOf(shard) && s.loads == balancer.View()
  }

  // ---- Add and RemoveOldestClientAndReturn --------------------------------------------------

  lemma AddSteps(s: State, id: nat, clients: map<int, ClientInfo>, flagged: set<int>, c: ClientInfo, warned: bool)
    requires Wf(s) && id in s.tasks && s.tasks[id].Adding? && flagged <= clients.Keys
    requires s.tasks[id].socket == c.socket && s.tasks[id].client == Client(WeightOf(c), warned)
    requires s.shards[s.tasks[id].to] == Table(clients, flagged)
    ensures var ls, to := [Insert(id), Charge(id)], s.tasks[id].to;
            && CanRun(s, ls) && Elsewhere(s, Run(s, ls), to)
            && Run(s, ls).loads == Inc(s.loads, to, WeightOf(c))
            && Run(s, ls).shards[to] ==
               if c.socket in clients then Table(clients, flagged)
               else Table(clients[c.socket := c], flagged + Only(c.socket, warned))
  {
    RunTwo(s, Insert(id), Charge(id));
    var client := Client(WeightOf(c), warned);
    if c.socket !in clients {
      assert Table(clients, flagged)[c.socket := client] == Table(clients[c.socket := c], flagged + Only(c.socket, warned));
    }
  }

  lemma TakeSteps(s: State, id: nat, from: nat, to: nat, clients: map<int, ClientInfo>, flagged: set<int>, first: int)
    requires Wf(s) && id !in s.tasks && from < |s.shards| && to < |s.shards|
    requires s.shards[from] == Table(clients, flagged) && (clients == map[] || first in clients)
    ensures var ls := [Remove(id, from, first, to), Discharge(id)];
            && CanRun(s, ls) && Elsewhere(s, Run(s, ls), from)
            && if clients == map[] then
                 && Run(s, ls).shards == s.shards && Run(s, ls).loads == Dec(s.loads, from, PHANTOM_WEIGHT)
                 && id in Run(s, ls).tasks
                 && Run(s, ls).tasks[id] == Adding(PHANTOM, Client(PHANTOM_WEIGHT, false), to)
               else
                 && Run(s, ls).shards[from] == Table(clients - {first}, flagged - {first})
                 && Run(s, ls).loads == Dec(s.loads, from, WeightOf(clients[first]))
                 && id in Run(s, ls).tasks
                 && Run(s, ls).tasks[id] == Adding(first, Client(WeightOf(clients[first]), first in flagged), to)
  {
    RunTwo(s, Remove(id, from, first, to), Discharge(id));
    if clients == map[] {
      assert Table(clients, flagged).Keys == {};
    } else {
      assert first in Table(clients, flagged);
      assert Table(clients, flagged) - {first} == Table(clients - {first}, flagged - {first});
    }
  }

  ghost function FlaggedOf(clients: map<int, ClientInfo>): set<int>
    reads set k | k in clients :: clients[k]
  {
    set k | k in clients && clients[k].terminateOnNextCycle
  }

  /** What happened is a run of these steps. */
  ghost predicate Stepped(s: State, ls: seq<Label>, shard: ServerLearnProtocol, balancer: Priority)
    reads shard.clientInfos`clients, shard.clientInfos.Footprint(), balancer
  {
    Wf(s) && CanRun(s, ls) && Shows(Run(s, ls), shard, balancer) && Elsewhere(s, Run(s, ls), shard.balancerIndex)
  }

  /** The other shards are as they were. */
  ghost predicate Elsewhere(s: State, s': State, shard: nat) {
    && |s'.shards| == |s.shards| && |s'.doomed| == |s.doomed| && |s'.drift| == |s.drift|
    && (forall j :: 0 <= j < |s.shards| && j != shard ==> s'.shards[j] == s.shards[j])
    && (forall j :: 0 <= j < |s.doomed| && j != shard ==> s'.doomed[j] == s.doomed[j])
    && (forall j :: 0 <= j < |s.drift| && j != shard ==> s'.drift[j] == s.drift[j])
  }

  lemma HasStepped(s: State, ls: seq<Label>, shard: ServerLearnProtocol, balancer: Priority, flagged: set<int>)
    requires Wf(s) && CanRun(s, ls) && shard.balancerIndex < |s.shards|
    requires shard.clientInfos.Flagged() == flagged
    requires Run(s, ls).shards[shard.balancerIndex] == Table(shard.clientInfos.clients, flagged)
    requires Run(s, ls).loads == balancer.View() && Elsewhere(s, Run(s, ls), shard.balancerIndex)
    ensures Stepped(s, ls, shard, balancer)
  {
  }

  lemma WhatShows(s: State, shard: ServerLearnProtocol, balancer: Priority)
    requires Shows(s, shard, balancer)
    ensures Wf(s) && shard.balancerIndex < |s.shards| && s.loads == balancer.View()
    ensures var clients := shard.clientInfos.clients;
            s.shards[shard.balancerIndex] == Table(clients, FlaggedOf(clients)) && FlaggedOf(clients) <= clients.Keys
  {
  }

  lemma FlagsOfAdded(clients: map<int, ClientInfo>, flagged: set<int>, c: ClientInfo, shard: ServerLearnProtocol)
    requires FlaggedOf(clients) == flagged
    requires shard.clientInfos.clients == if c.socket in clients then clients else clients[c.socket := c]
    ensures shard.clientInfos.Flagged()
         == if c.socket in clients then flagged else flagged + Only(c.socket, c.terminateOnNextCycle)
  {
  }

  /** An addition in flight arrives. */
  method Add(shard: ServerLearnProtocol, balancer: Priority, clientInfo: ClientInfo, time: int, ghost s: State,
             ghost id: nat)
    requires shard.Valid() && shard.ServedBy(balancer) && clientInfo.Valid() && shard.mostRecentTimestamps.now <= time
    requires Shows(s, shard, balancer) && id in s.tasks
    requires s.tasks[id] == Adding(clientInfo.socket, Client(WeightOf(clientInfo), clientInfo.terminateOnNextCycle),
                                   shard.balancerIndex)
    modifies shard.clientInfos`clients, shard.clientInfos`watched
    modifies balancer, shard.mostRecentTimestamps, shard.mostRecentTimestamps.timestamps
    ensures shard.Valid() && shard.ServedBy(balancer) && shard.mostRecentTimestamps.now == time
    ensures Stepped(s, [Insert(id), Charge(id)], shard, balancer)
  {
    ghost var clients, flagged := shard.clientInfos.clients, FlaggedOf(shard.clientInfos.clients);
    WhatShows(s, shard, balancer);
    AddSteps(s, id, clients, flagged, clientInfo, clientInfo.terminateOnNextCycle);
    hide *;
    shard.Add(balancer, clientInfo, time);
    FlagsOfAdded(clients, flagged, clientInfo, shard);
    HasStepped(s, [Insert(id), Charge(id)], shard, balancer, shard.clientInfos.Flagged());
  }

  lemma FlagsOfRest(clients: map<int, ClientInfo>, flagged: set<int>, gone: set<int>, shard: ServerLearnProtocol)
    requires FlaggedOf(clients) == flagged && shard.clientInfos.clients == clients - gone
    ensures shard.clientInfos.Flagged() == flagged - gone
  {
  }

  /** A migration takes its client, or makes one up, and is left with it in hand. */
  method RemoveOldestClientAndReturn(shard: ServerLearnProtocol, first: int, balancer: Priority, clock: Clock,
                                     ghost s: State, ghost id: nat, ghost to: nat)
    returns (clientInfo: ClientInfo)
    requires shard.Valid() && shard.ServedBy(balancer)
    requires shard.clientInfos.clients == map[] || first in shard.clientInfos.clients
    requires Shows(s, shard, balancer) && id !in s.tasks && to < |s.shards|
    modifies shard.clientInfos`clients, balancer, shard.mostRecentTimestamps, shard.mostRecentTimestamps.timestamps, clock
    ensures shard.Valid() && shard.ServedBy(balancer) && clientInfo.Valid()
    ensures shard.mostRecentTimestamps.now == old(shard.mostRecentTimestamps.now)
    ensures var ls := [Remove(id, shard.balancerIndex, first, to), Discharge(id)];
            && Stepped(s, ls, shard, balancer)
            && InHand(s, ls, id,
                      Adding(clientInfo.socket, Client(WeightOf(clientInfo), clientInfo.terminateOnNextCycle), to))
  {
    ghost var clients, flagged := shard.clientInfos.clients, FlaggedOf(shard.clientInfos.clients);
    hide *;
    WhatShows(s, shard, balancer);
    FlagOfFirst(clients, flagged, first);
    clientInfo := shard.RemoveOldestClientAndReturn(first, balancer, clock);
    FlagsOfRest(clients, flagged, {clientInfo.socket}, shard);
    AfterTake(s, id, shard, balancer, clients, flagged, first, clientInfo, to);
  }

  lemma AfterTake(s: State, id: nat, shard: ServerLearnProtocol, balancer: Priority, clients: map<int, ClientInfo>,
                  flagged: set<int>, first: int, c: ClientInfo, to: nat)
    requires Wf(s) && id !in s.tasks && shard.balancerIndex < |s.shards| && to < |s.shards|
    requires s.shards[shard.balancerIndex] == Table(clients, flagged) && (clients == map[] || first in clients)
    requires shard.clientInfos.clients == clients - {c.socket} && shard.clientInfos.Flagged() == flagged - {c.socket}
    requires if clients == map[] then
               c.socket == PHANTOM && WeightOf(c) == PHANTOM_WEIGHT && !c.terminateOnNextCycle
             else
               c.socket == first && c == clients[first] && (first in flagged <==> c.terminateOnNextCycle)
    requires balancer.View() == Dec(s.loads, shard.balancerIndex, WeightOf(c))
    ensures var ls := [Remove(id, shard.balancerIndex, first, to), Discharge(id)];
            && Stepped(s, ls, shard, balancer)
            && InHand(s, ls, id, Adding(c.socket, Client(WeightOf(c), c.terminateOnNextCycle), to))
  {
    var from := shard.balancerIndex;
    var ls := [Remove(id, from, first, to), Discharge(id)];
    TakeSteps(s, id, from, to, clients, flagged, first);
    if clients == map[] {
      assert Table(clients, flagged) == Table(clients - {c.socket}, flagged - {c.socket});
    }
    hide Next, Run, CanRun, Enabled, Dec, Table, Elsewhere;
    HasStepped(s, ls, shard, balancer, flagged - {c.socket});
  }

  lemma FlagOfFirst(clients: map<int, ClientInfo>, flagged: set<int>, first: int)
    requires flagged == FlaggedOf(clients) && (clients == map[] || first in clients)
    ensures clients == map[] ==> flagged - {PHANTOM} == flagged && PHANTOM == -1 && PHANTOM_WEIGHT == 25
    ensures clients != map[] ==> (first in flagged <==> clients[first].terminateOnNextCycle)
  {
  }

  /** The operation has this client to add. */
  ghost predicate InHand(s: State, ls: seq<Label>, id: nat, t: Task) {
    Wf(s) && CanRun(s, ls) && id in Run(s, ls).tasks && Run(s, ls).tasks[id] == t
  }

  // ---- close --------------------------------------------------------------------------------

  function WeightsIn(clients: map<int, Client>, order: seq<int>): seq<nat> {
    seq(|order|, i requires 0 <= i < |order| => if order[i] in clients then clients[order[i]].weight else 0)
  }

  /** What closing the sockets of a list, which are all registered, comes to, and nothing else. */
  ghost predicate ClosedAll(s: State, s': State, shard: nat, order: seq<int>)
    requires Wf(s) && shard < |s.shards|
  {
    && |s'.drift| == |s.drift|
    && s' == s.(
         shards := s.shards[shard := s.shards[shard] - Elements(order)],
         loads := DecAll(s.loads, shard, WeightsIn(s.shards[shard], order)),
         closed := s.closed + order,
         doomed := s.doomed[shard := s.doomed[shard] - Elements(order)],
         drift := s.drift[shard := s'.drift[shard]])
  }

  lemma {:induction false} ClosesRun(s: State, shard: nat, order: seq<int>)
    requires Wf(s) && shard < |s.shards| && Lists(order, Elements(order))
    requires forall k <- order :: k in s.doomed[shard] && k in s.shards[shard]
    ensures CanRun(s, Closes(shard, order)) && ClosedAll(s, Run(s, Closes(shard, order)), shard, order)
    decreases |order|
  {
    if order == [] {
      RunNone(s);
      assert Closes(shard, order) == [] && s.closed + [] == s.closed && WeightsIn(s.shards[shard], order) == [];
      assert s.shards[shard] - Elements(order) == s.shards[shard] && s.doomed[shard] - Elements(order) == s.doomed[shard];
      assert s.drift[shard := s.drift[shard]] == s.drift;
    } else {
      var before, last := order[..|order| - 1], order[|order| - 1];
      assert order == before + [last] && last !in before && forall k <- before :: k in order;
      assert Lists(before, Elements(before));
      ClosesRun(s, shard, before);
      assert Closes(shard, order) == Closes(shard, before) + [CloseOne(shard, last)];
      ClosedOneMore(s, Run(s, Closes(shard, before)), shard, before, last);
      hide *;
      RunMore(s, Closes(shard, before), CloseOne(shard, last));
    }
  }

  lemma ClosedOneMore(s: State, s1: State, shard: nat, order: seq<int>, socket: int)
    requires Wf(s) && Wf(s1) && shard < |s.shards| && ClosedAll(s, s1, shard, order)
    requires socket !in order && socket in s.doomed[shard] && socket in s.shards[shard]
    ensures Enabled(s1, CloseOne(shard, socket))
    ensures ClosedAll(s, Next(s1, CloseOne(shard, socket)), shard, order + [socket])
  {
    var more, weights := order + [socket], WeightsIn(s.shards[shard], order);
    assert Elements(more) == Elements(order) + {socket};
    assert s.shards[shard] - Elements(more) == s.shards[shard] - Elements(order) - {socket};
    assert s.doomed[shard] - Elements(more) == s.doomed[shard] - Elements(order) - {socket};
    assert WeightsIn(s.shards[shard], more) == weights + [s.shards[shard][socket].weight];
    DecAllSnoc(s.loads, shard, weights, s.shards[shard][socket].weight);
    hide DecAll, Dec, WeightsIn;
    assert (s.closed + order) + [socket] == s.closed + more;
  }

  /** Sockets that are not registered are only crossed off. */
  lemma {:induction false} StraysRun(s: State, shard: nat, strays: seq<int>)
    requires Wf(s) && shard < |s.shards| && Lists(strays, Elements(strays))
    requires forall k <- strays :: k in s.doomed[shard] && k !in s.shards[shard]
    ensures CanRun(s, Closes(shard, strays))
    ensures Run(s, Closes(shard, strays)) == s.(doomed := s.doomed[shard := s.doomed[shard] - Elements(strays)])
    decreases |strays|
  {
    if strays == [] {
      RunNone(s);
      assert Closes(shard, strays) == [] && s.doomed[shard] - Elements(strays) == s.doomed[shard];
    } else {
      var before, last := strays[..|strays| - 1], strays[|strays| - 1];
      assert strays == before + [last] && last !in before && forall k <- before :: k in strays;
      assert Lists(before, Elements(before));
      StraysRun(s, shard, before);
      assert Closes(shard, strays) == Closes(shard, before) + [CloseOne(shard, last)];
      StrayOneMore(s, shard, before, last);
      hide *;
      RunMore(s, Closes(shard, before), CloseOne(shard, last));
    }
  }

  lemma StrayOneMore(s: State, shard: nat, strays: seq<int>, socket: int)
    requires Wf(s) && shard < |s.shards| && socket !in strays && socket in s.doomed[shard] && socket !in s.shards[shard]
    ensures var s1 := s.(doomed := s.doomed[shard := s.doomed[shard] - Elements(strays)]);
            && Wf(s1) && Enabled(s1, CloseOne(shard, socket))
            && Next(s1, CloseOne(shard, socket))
            == s.(doomed := s.doomed[shard := s.doomed[shard] - Elements(strays + [socket])])
  {
    assert s.doomed[shard] - Elements(strays + [socket]) == s.doomed[shard] - Elements(strays) - {socket};
  }

  lemma {:induction false} Listed(s: set<int>) returns (order: seq<int>)
    ensures Lists(order, s)
  {
    if s == {} {
      order := [];
    } else {
      Inhabited(s);
      var x :| x in s;
      var rest := Listed(s - {x});
      order := rest + [x];
      assert forall i :: 0 <= i < |rest| ==> rest[i] in rest;
    }
  }

  /** These steps are closes in this shard, of the registered sockets of a list in its order and of some that are not
      registered; they do nothing but that, and leave none to be closed there. */
  ghost predicate ClosedBy(s: State, ls: seq<Label>, shard: nat, order: seq<int>, strays: seq<int>) {
    && Wf(s) && shard < |s.shards| && ls == Closes(shard, order) + Closes(shard, strays) && CanRun(s, ls)
    && var s' := Run(s, ls);
       s' == s.(
         shards := s.shards[shard := s.shards[shard] - Elements(order)],
         loads := DecAll(s.loads, shard, WeightsIn(s.shards[shard], order)),
         closed := s.closed + order,
         doomed := s.doomed[shard := {}],
         drift := s.drift[shard := s'.drift[shard]])
  }

  /** Closes of all sockets that are doomed in the shard. */
  lemma ClosedByRun(s: State, shard: nat, order: seq<int>, strays: seq<int>)
    requires Wf(s) && shard < |s.shards|
    requires Lists(order, s.doomed[shard] * s.shards[shard].Keys) && Lists(strays, s.doomed[shard] - s.shards[shard].Keys)
    ensures ClosedBy(s, Closes(shard, order) + Closes(shard, strays), shard, order, strays)
  {
    ElementsOf(order, s.doomed[shard] * s.shards[shard].Keys);
    ElementsOf(strays, s.doomed[shard] - s.shards[shard].Keys);
    ClosesRun(s, shard, order);
    var s1 := Run(s, Closes(shard, order));
    StraysRun(s1, shard, strays);
    assert s.doomed[shard] - Elements(order) - Elements(strays) == {};
    hide Run, CanRun, Closes, WeightsIn, DecAll;
    RunConcat(s, Closes(shard, order), Closes(shard, strays));
  }

  /** The steps of a whole call of close: what it promises of table and load is what they do. */
  lemma CloseSteps(s: State, shard: nat, sockets: set<int>, clients: map<int, ClientInfo>, flagged: set<int>,
                   order: seq<int>, strays: seq<int>)
    requires Wf(s) && shard < |s.shards| && s.doomed[shard] == sockets
    requires s.shards[shard] == Table(clients, flagged)
    requires Lists(order, sockets * clients.Keys) && Lists(strays, sockets - clients.Keys)
    ensures ClosedBy(s, Closes(shard, order) + Closes(shard, strays), shard, order, strays)
    ensures var s' := Run(s, Closes(shard, order) + Closes(shard, strays));
            && s'.shards[shard] == Table(clients - sockets, flagged - sockets)
            && s'.loads == DecAll(s.loads, shard, WeightsOf(clients, order))
  {
    assert Table(clients, flagged).Keys == clients.Keys;
    ElementsOf(order, sockets * clients.Keys);
    assert WeightsIn(s.shards[shard], order) == WeightsOf(clients, order);
    assert Table(clients, flagged) - Elements(order) == Table(clients - sockets, flagged - sockets);
    ClosedByRun(s, shard, order, strays);
    hide Run, CanRun, Closes, WeightsOf, WeightsIn, DecAll;
  }

  lemma ClosedElsewhere(s: State, ls: seq<Label>, shard: nat, order: seq<int>, strays: seq<int>)
    requires ClosedBy(s, ls, shard, order, strays)
    ensures Wf(s) && CanRun(s, ls) && Elsewhere(s, Run(s, ls), shard)
  {
    hide Run, CanRun, Closes, WeightsIn, DecAll;
  }

  /** The poll thread closes what it has collected. */
  method CloseSocketConnections(shard: ServerLearnProtocol, balancer: Priority, socketsToRemove: set<int>, os: Sockets,
                                ghost s: State)
    returns (removed: set<int>, ghost ls: seq<Label>, ghost order: seq<int>, ghost strays: seq<int>)
    requires shard.Valid() && shard.ServedBy(balancer) && Shows(s, shard, balancer)
    requires AreDoomed(s, shard.balancerIndex, socketsToRemove)
    modifies shard.clientInfos`clients, balancer, shard.mostRecentTimestamps, shard.mostRecentTimestamps.timestamps
    modifies os`closed
    ensures shard.Valid() && shard.ServedBy(balancer) && Stepped(s, ls, shard, balancer)
    ensures shard.mostRecentTimestamps.now == old(shard.mostRecentTimestamps.now)
    ensures ClosedBy(s, ls, shard.balancerIndex, order, strays) && os.closed == old(os.closed) + order
    ensures removed == socketsToRemove * old(shard.clientInfos.clients).Keys
    ensures Lists(order, removed) && Lists(strays, socketsToRemove - removed)
  {
    ghost var clients, flagged, i := shard.clientInfos.clients, FlaggedOf(shard.clientInfos.clients), shard.balancerIndex;
    WhatShows(s, shard, balancer);
    assert s.doomed[i] == socketsToRemove;
    hide *;
    var down;
    ghost var forgotten;
    removed, down, order, forgotten := shard.CloseSocketConnections(balancer, socketsToRemove, os);
    FlagsOfRest(clients, flagged, socketsToRemove, shard);
    ls, strays := AfterClose(s, shard, balancer, socketsToRemove, clients, flagged, order, removed);
  }

  lemma AfterClose(s: State, shard: ServerLearnProtocol, balancer: Priority, sockets: set<int>,
                   clients: map<int, ClientInfo>, flagged: set<int>, order: seq<int>, removed: set<int>)
    returns (ls: seq<Label>, strays: seq<int>)
    requires Wf(s) && shard.balancerIndex < |s.shards| && s.doomed[shard.balancerIndex] == sockets
    requires s.shards[shard.balancerIndex] == Table(clients, flagged)
    requires removed == sockets * clients.Keys && Lists(order, removed)
    requires shard.clientInfos.clients == clients - sockets && shard.clientInfos.Flagged() == flagged - sockets
    requires balancer.View() == DecAll(s.loads, shard.balancerIndex, WeightsOf(clients, order))
    ensures Stepped(s, ls, shard, balancer) && ClosedBy(s, ls, shard.balancerIndex, order, strays)
    ensures Lists(strays, sockets - removed)
  {
    assert sockets - removed == sockets - clients.Keys;
    hide *;
    var i := shard.balancerIndex;
    strays := Listed(sockets - clients.Keys);
    ls := Closes(i, order) + Closes(i, strays);
    CloseSteps(s, i, sockets, clients, flagged, order, strays);
    ClosedElsewhere(s, ls, i, order, strays);
    HasStepped(s, ls, shard, balancer, flagged - sockets);
  }

  /** These are to be closed. */
  ghost predicate AreDoomed(s: State, shard: nat, sockets: set<int>) {
    shard < |s.doomed| && s.doomed[shard] == sockets
  }

  /** After these steps. */
  ghost predicate Doomed(s: State, ls: seq<Label>, shard: nat, sockets: set<int>) {
    Wf(s) && CanRun(s, ls) && shard < |s.shards| && Run(s, ls).doomed[shard] == sockets
  }

  // ---- the health check ---------------------------------------------------------------------

  function CheckOnes(sockets: seq<int>): seq<Label> {
    seq(|sockets|, i requires 0 <= i < |sockets| => CheckOne(sockets[i]))
  }

  function WarnedEach(sockets: seq<int>): seq<Event> {
    seq(|sockets|, i requires 0 <= i < |sockets| => Warned(sockets[i]))
  }

  /** A registered client among them was warned before; the others are not registered here. */
  function PassedOn(clients: map<int, Client>, sockets: seq<int>): seq<Event> {
    seq(|sockets|, i requires 0 <= i < |sockets| =>
      if sockets[i] in clients then Struck(sockets[i]) else Unregistered(sockets[i]))
  }

  ghost function Warn(clients: map<int, Client>, sockets: set<int>): map<int, Client> {
    map k <- clients :: if k in sockets then clients[k].(warned := true) else clients[k]
  }

  /** The check is past these sockets, and warned their clients. */
  ghost function PastWarned(s: State, order: seq<int>): State
    requires Wf(s) && s.check.Filtering?
  {
    var p := s.check.shard;
    s.(shards := s.shards[p := Warn(s.shards[p], Elements(order))],
       check := Filtering(p, s.check.remaining - Elements(order), s.check.warnings + order),
       log := s.log + WarnedEach(order))
  }

  lemma WarnedOneMore(s: State, order: seq<int>, socket: int)
    requires Wf(s) && s.check.Filtering? && socket !in order && socket in s.check.remaining
    requires socket in s.shards[s.check.shard] && !s.shards[s.check.shard][socket].warned
    ensures var s1 := PastWarned(s, order);
            Wf(s1) && Enabled(s1, CheckOne(socket)) && Next(s1, CheckOne(socket)) == PastWarned(s, order + [socket])
  {
    var p, more := s.check.shard, order + [socket];
    var table := s.shards[p];
    assert Elements(more) == Elements(order) + {socket};
    assert Warn(table, Elements(more)) == Warn(table, Elements(order))[socket := table[socket].(warned := true)];
    assert s.check.remaining - Elements(more) == s.check.remaining - Elements(order) - {socket};
    assert (s.check.warnings + order) + [socket] == s.check.warnings + more;
    assert (s.log + WarnedEach(order)) + [Warned(socket)] == s.log + WarnedEach(more);
    hide Elements, Warn, WarnedEach;
  }

  lemma {:induction false} WarnsRun(s: State, order: seq<int>)
    requires Wf(s) && s.check.Filtering? && Lists(order, Elements(order))
    requires forall k <- order :: k in s.check.remaining && k in s.shards[s.check.shard]
                                  && !s.shards[s.check.shard][k].warned
    ensures CanRun(s, CheckOnes(order)) && Run(s, CheckOnes(order)) == PastWarned(s, order)
    decreases |order|
  {
    if order == [] {
      RunNone(s);
      var table := s.shards[s.check.shard];
      assert CheckOnes(order) == [] && WarnedEach(order) == [] && Elements(order) == {};
      assert Warn(table, {}) == table && s.check.remaining - {} == s.check.remaining;
      assert s.log + [] == s.log && s.check.warnings + [] == s.check.warnings;
    } else {
      var before, last := order[..|order| - 1], order[|order| - 1];
      assert order == before + [last] && last !in before && forall k <- before :: k in order;
      assert Lists(before, Elements(before));
      assert CheckOnes(order) == CheckOnes(before) + [CheckOne(last)];
      WarnsRun(s, before);
      WarnedOneMore(s, before, last);
      hide *;
      RunMore(s, CheckOnes(before), CheckOne(last));
    }
  }

  ghost function PastKept(s: State, kept: seq<int>): State
    requires Wf(s) && s.check.Filtering?
  {
    s.(check := s.check.(remaining := s.check.remaining - Elements(kept)),
       log := s.log + PassedOn(s.shards[s.check.shard], kept))
  }

  lemma KeptOneMore(s: State, kept: seq<int>, socket: int)
    requires Wf(s) && s.check.Filtering? && socket !in kept && socket in s.check.remaining
    requires socket in s.shards[s.check.shard] ==> s.shards[s.check.shard][socket].warned
    ensures var s1 := PastKept(s, kept);
            Wf(s1) && Enabled(s1, CheckOne(socket)) && Next(s1, CheckOne(socket)) == PastKept(s, kept + [socket])
  {
    var more, table := kept + [socket], s.shards[s.check.shard];
    assert s.check.remaining - Elements(more) == s.check.remaining - Elements(kept) - {socket};
    assert PassedOn(table, more)
        == PassedOn(table, kept) + [if socket in table then Struck(socket) else Unregistered(socket)];
    hide Elements, PassedOn;
  }

  lemma {:induction false} KeptRun(s: State, kept: seq<int>)
    requires Wf(s) && s.check.Filtering? && Lists(kept, Elements(kept))
    requires forall k <- kept :: k in s.check.remaining
                                 && (k in s.shards[s.check.shard] ==> s.shards[s.check.shard][k].warned)
    ensures CanRun(s, CheckOnes(kept)) && Run(s, CheckOnes(kept)) == PastKept(s, kept)
    decreases |kept|
  {
    if kept == [] {
      RunNone(s);
      assert CheckOnes(kept) == [] && PassedOn(s.shards[s.check.shard], kept) == [] && s.log + [] == s.log;
      assert s.check.remaining - Elements(kept) == s.check.remaining;
    } else {
      var before, last := kept[..|kept| - 1], kept[|kept| - 1];
      assert kept == before + [last] && last !in before && forall k <- before :: k in kept;
      assert Lists(before, Elements(before));
      assert CheckOnes(kept) == CheckOnes(before) + [CheckOne(last)];
      KeptRun(s, before);
      KeptOneMore(s, before, last);
      hide *;
      RunMore(s, CheckOnes(before), CheckOne(last));
    }
  }

  /** What a whole check logs. */
  function CheckLog(clients: map<int, Client>, warned: seq<int>, kept: seq<int>): seq<Event> {
    WarnedEach(warned) + PassedOn(clients, kept) + QueuedAll(warned)
  }

  function CheckLabels(shard: nat, selected: set<int>, warned: seq<int>, kept: seq<int>): seq<Label> {
    [CheckStart(shard, selected)] + (CheckOnes(warned) + CheckOnes(kept)) + [CheckEnd]
  }

  lemma TableWarned(clients: map<int, ClientInfo>, flagged: set<int>, warned: seq<int>, kept: seq<int>)
    ensures Warn(Table(clients, flagged), Elements(warned)) == Table(clients, flagged + Elements(warned))
    ensures PassedOn(Warn(Table(clients, flagged), Elements(warned)), kept) == PassedOn(Table(clients, flagged), kept)
  {
    hide Elements;
  }

  /** The rounds of a check. */
  lemma ChecksRun(s: State, shard: nat, selected: set<int>, clients: map<int, ClientInfo>, flagged: set<int>,
                  warned: seq<int>, kept: seq<int>)
    requires Wf(s) && s.check == Filtering(shard, selected, []) && s.shards[shard] == Table(clients, flagged)
    requires Lists(warned, selected * clients.Keys - flagged) && Lists(kept, selected - (selected * clients.Keys - flagged))
    ensures CanRun(s, CheckOnes(warned) + CheckOnes(kept))
    ensures var table := Table(clients, flagged + (selected * clients.Keys - flagged));
            Run(s, CheckOnes(warned) + CheckOnes(kept)) ==
            s.(shards := s.shards[shard := table], check := Filtering(shard, {}, warned),
               log := s.log + WarnedEach(warned) + PassedOn(s.shards[shard], kept))
  {
    ElementsOf(warned, selected * clients.Keys - flagged);
    ElementsOf(kept, selected - (selected * clients.Keys - flagged));
    TableWarned(clients, flagged, warned, kept);
    assert forall k <- warned :: k in Elements(warned);
    assert forall k <- kept :: k in Elements(kept);
    WarnsRun(s, warned);
    var s1 := PastWarned(s, warned);
    assert Wf(s1) && s1.check == Filtering(shard, selected - Elements(warned), warned);
    KeptRun(s1, kept);
    assert selected - Elements(warned) - Elements(kept) == {};
    hide Run, CanRun;
    RunConcat(s, CheckOnes(warned), CheckOnes(kept));
  }

  /** The steps of a whole check: those without a warning get one, the others are passed on. */
  lemma CheckSteps(s: State, shard: nat, selected: set<int>, clients: map<int, ClientInfo>, flagged: set<int>,
                   warned: seq<int>, kept: seq<int>)
    requires Wf(s) && s.check.Idle? && shard < |s.shards| && s.shards[shard] == Table(clients, flagged)
    requires Lists(warned, selected * clients.Keys - flagged) && Lists(kept, selected - (selected * clients.Keys - flagged))
    ensures var ls := CheckLabels(shard, selected, warned, kept);
            && CanRun(s, ls)
            && Run(s, ls) == s.(
                 shards := s.shards[shard := Table(clients, flagged + (selected * clients.Keys - flagged))],
                 log := s.log + CheckLog(s.shards[shard], warned, kept))
  {
    var start, rounds := CheckStart(shard, selected), CheckOnes(warned) + CheckOnes(kept);
    assert CheckLabels(shard, selected, warned, kept) == [start] + rounds + [CheckEnd];
    assert CheckLog(s.shards[shard], warned, kept)
        == WarnedEach(warned) + PassedOn(s.shards[shard], kept) + QueuedAll(warned);
    hide *;
    StartRuns(s, shard, selected);
    var s1 := s.(check := Filtering(shard, selected, []));
    ChecksRun(s1, shard, selected, clients, flagged, warned, kept);
    RunConcat(s, [start], rounds);
    EndRuns(Run(s1, rounds), shard, warned);
    RunConcat(s, [start] + rounds, [CheckEnd]);
    LogAssoc(s.log, WarnedEach(warned), PassedOn(s.shards[shard], kept), QueuedAll(warned));
  }

  lemma StartRuns(s: State, shard: nat, selected: set<int>)
    requires Wf(s) && s.check.Idle? && shard < |s.shards|
    ensures CanRun(s, [CheckStart(shard, selected)])
    ensures Run(s, [CheckStart(shard, selected)]) == s.(check := Filtering(shard, selected, []))
    ensures Wf(s.(check := Filtering(shard, selected, [])))
  {
    RunOne(s, CheckStart(shard, selected));
  }

  lemma EndRuns(s: State, shard: nat, warned: seq<int>)
    requires Wf(s) && s.check == Filtering(shard, {}, warned)
    ensures CanRun(s, [CheckEnd]) && Run(s, [CheckEnd]) == s.(check := Idle, log := s.log + QueuedAll(warned))
  {
    RunOne(s, CheckEnd);
  }

  lemma LogAssoc(log: seq<Event>, a: seq<Event>, b: seq<Event>, c: seq<Event>)
    ensures log + a + b + c == log + (a + b + c)
  {
  }

  lemma NobodyIsDueNow(clients: map<int, ClientInfo>, shard: ServerLearnProtocol)
    requires shard.clientInfos.clients == clients && forall k <- clients :: !clients[k].terminateNow
    ensures shard.clientInfos.Striking() == FlaggedOf(clients)
  {
    forall k
      ensures k in shard.clientInfos.Striking() <==> k in FlaggedOf(clients)
    {
      assert k in clients ==> !clients[k].terminateNow;
    }
  }

  lemma KeptAre(selected: set<int>, keys: set<int>, flagged: set<int>, kept: seq<int>)
    requires flagged <= keys && Lists(kept, selected - (selected * keys - flagged))
    ensures Elements(kept) == StayIn(selected, keys, flagged)
    ensures Elements(kept) * keys == selected * flagged
  {
    ElementsOf(kept, selected - (selected * keys - flagged));
  }

  /** A health check of the shard, of clients whose terminateNow, as always, nobody has set. */
  method ExecHealthCheck(shard: ServerLearnProtocol, balancer: Priority, socketsSelected: set<int>, now: int, os: Sockets,
                         ghost s: State)
    returns (socketsToClose: set<int>, ghost selected: set<int>, ghost warned: seq<int>, ghost kept: seq<int>)
    requires shard.Valid() && Shows(s, shard, balancer) && s.check.Idle?
    requires forall k <- shard.clientInfos.clients :: !shard.clientInfos.clients[k].terminateNow
    modifies (set k | k in shard.clientInfos.clients :: shard.clientInfos.clients[k])`terminateOnNextCycle
    modifies shard.clientInfos`packetsToWrite, os`shut
    ensures shard.Valid() && selected == Stale(shard.mostRecentTimestamps.Contents(), now, shard.timeout)
    ensures Stepped(s, CheckLabels(shard.balancerIndex, selected, warned, kept), shard, balancer)
    ensures Logged(s, CheckLabels(shard.balancerIndex, selected, warned, kept),
                   CheckLog(old(TableOf(shard)), warned, kept))
    ensures socketsToClose == socketsSelected + Elements(kept)
    ensures shard.clientInfos.packetsToWrite == old(shard.clientInfos.packetsToWrite) + HeartBeats(warned)
    ensures os.shut == old(os.shut) + Elements(kept) * shard.clientInfos.clients.Keys
  {
    ghost var clients, flagged, i := shard.clientInfos.clients, FlaggedOf(shard.clientInfos.clients), shard.balancerIndex;
    selected := Stale(shard.mostRecentTimestamps.Contents(), now, shard.timeout);
    WhatShows(s, shard, balancer);
    NobodyIsDueNow(clients, shard);
    hide *;
    socketsToClose, warned := shard.ExecHealthCheck(socketsSelected, now, os);
    kept := Listed(selected - (selected * clients.Keys - flagged));
    KeptAre(selected, clients.Keys, flagged, kept);
    CheckSteps(s, i, selected, clients, flagged, warned, kept);
    HasStepped(s, CheckLabels(i, selected, warned, kept), shard, balancer, shard.clientInfos.Flagged());
  }

  /** What the run has logged. */
  ghost predicate Logged(s: State, ls: seq<Label>, events: seq<Event>) {
    Wf(s) && CanRun(s, ls) && Run(s, ls).log == s.log + events && Run(s, ls).check.Idle?
  }

  // ---- reading ------------------------------------------------------------------------------

  ghost function Seen(states: map<int, ClientState>): map<int, Client> {
    map k <- states :: Client(if states[k].maxCount < 0 then 0 else states[k].maxCount, states[k].terminateOnNextCycle)
  }

  /** The state is that of a poll which has come so far. */
  ghost predicate Follows(s: State, shard: nat, q: Polled) {
    Wf(s) && shard < |s.shards| && s.shards[shard] == Seen(q.clients) && s.doomed[shard] == q.doomed
  }

  function Parses(shard: nat, socket: int, ps: seq<Packet>): seq<Label> {
    seq(|ps|, i requires 0 <= i < |ps| => Label.Parse(shard, socket, ps[i].command))
  }

  /** A Blank or Send is heard. */
  function HeardsOf(socket: int, ps: seq<Packet>): seq<Event> {
    if ps == [] then []
    else
      var n := |ps| - 1;
      HeardsOf(socket, ps[..n]) + if ps[n].command == BLANK || ps[n].command == SEND then [Heard(socket)] else []
  }

  /** The client was parsed these packets from. */
  ghost function Parsed(s: State, shard: nat, socket: int, ps: seq<Packet>): State
    requires Wf(s) && shard < |s.shards| && socket in s.shards[shard]
  {
    var c := s.shards[shard][socket];
    s.(shards := s.shards[shard := s.shards[shard][socket := c.(warned := c.warned && !SignOfLife(ps))]],
       log := s.log + HeardsOf(socket, ps))
  }

  lemma {:induction false} ParsesRun(s: State, shard: nat, socket: int, ps: seq<Packet>)
    requires Wf(s) && shard < |s.shards| && 0 <= socket && socket in s.shards[shard]
    ensures CanRun(s, Parses(shard, socket, ps)) && Run(s, Parses(shard, socket, ps)) == Parsed(s, shard, socket, ps)
    decreases |ps|
  {
    if ps == [] {
      RunNone(s);
      assert Parses(shard, socket, ps) == [] && s.log + [] == s.log;
      assert s.shards[shard][socket := s.shards[shard][socket]] == s.shards[shard];
    } else {
      var before, last := ps[..|ps| - 1], ps[|ps| - 1];
      var l := Label.Parse(shard, socket, last.command);
      assert ps == before + [last];
      assert Parses(shard, socket, ps) == Parses(shard, socket, before) + [l];
      ParsesRun(s, shard, socket, before);
      ParsedOneMore(s, shard, socket, before, last);
      hide *;
      RunMore(s, Parses(shard, socket, before), l);
    }
  }

  lemma ParseIs(s: State, shard: nat, socket: int, command: seq<Byte>)
    requires Wf(s) && shard < |s.shards| && 0 <= socket && socket in s.shards[shard]
    ensures var l, c := Label.Parse(shard, socket, command), s.shards[shard][socket];
            var heard := command == BLANK || command == SEND;
            && Enabled(s, l)
            && Next(s, l) == s.(
                 shards := s.shards[shard := s.shards[shard][socket := c.(warned := c.warned && !heard)]],
                 log := s.log + if heard then [Heard(socket)] else [])
  {
    TwoStrike.FlagAfterIs(s.shards[shard][socket].warned, command);
    hide FlagAfter, BLANK, SEND;
  }

  lemma HeardsSnoc(socket: int, ps: seq<Packet>, p: Packet)
    ensures HeardsOf(socket, ps + [p])
         == HeardsOf(socket, ps) + if p.command == BLANK || p.command == SEND then [Heard(socket)] else []
    ensures SignOfLife(ps + [p]) <==> SignOfLife(ps) || p.command == BLANK || p.command == SEND
  {
    assert (ps + [p])[..|ps|] == ps;
    OneMorePacket(Reading([], false, 0, [], []), ps, p);
    hide BLANK, SEND, SignOfLife;
  }

  lemma ParsedOneMore(s: State, shard: nat, socket: int, ps: seq<Packet>, p: Packet)
    requires Wf(s) && shard < |s.shards| && 0 <= socket && socket in s.shards[shard]
    ensures var s1, l := Parsed(s, shard, socket, ps), Label.Parse(shard, socket, p.command);
            Wf(s1) && Enabled(s1, l) && Next(s1, l) == Parsed(s, shard, socket, ps + [p])
  {
    var c, s1 := s.shards[shard][socket], Parsed(s, shard, socket, ps);
    assert Wf(s1) && socket in s1.shards[shard];
    hide Next, Enabled, Wf, BLANK, SEND, HeardsOf, SignOfLife;
    ParseIs(s1, shard, socket, p.command);
    HeardsSnoc(socket, ps, p);
    SetTwice(s.shards[shard], socket, s1.shards[shard][socket], c.(warned := c.warned && !SignOfLife(ps + [p])));
    Assoc(s.log, HeardsOf(socket, ps), if p.command == BLANK || p.command == SEND then [Heard(socket)] else []);
  }

  lemma SetTwice(clients: map<int, Client>, socket: int, a: Client, b: Client)
    ensures clients[socket := a][socket := b] == clients[socket := b]
  {
  }

  lemma SeenSet(states: map<int, ClientState>, socket: int, c: ClientState)
    requires socket in states && c.maxCount == states[socket].maxCount
    ensures Seen(states[socket := c]) == Seen(states)[socket := Seen(states)[socket].(warned := c.terminateOnNextCycle)]
  {
  }

  /** The steps of an event: a Parse for every packet that is handled, and a Poll if the client is to be terminated
      or is none. */
  function EventLabels(shard: nat, host: Host, capacity: nat, q: Polled, e: PollEvent, v: Visit): seq<Label>
    requires e.socket in q.lines
  {
    if q.broken then []
    else if e.hangUp || e.socket !in q.clients then [Poll(shard, e.socket)]
    else
      var x := VisitOf(Calls.Peer(host, e.socket, capacity), e, q.clients[e.socket], q.lines[e.socket], v);
      Parses(shard, e.socket, x.handled)
      + if x.handling.Barred? || x.handling == ReadAs(Calls.Terminated) then [Poll(shard, e.socket)] else []
  }

  function EventLog(host: Host, capacity: nat, q: Polled, e: PollEvent, v: Visit): seq<Event>
    requires e.socket in q.lines
  {
    if q.broken || e.hangUp || e.socket !in q.clients then []
    else
      var x := VisitOf(Calls.Peer(host, e.socket, capacity), e, q.clients[e.socket], q.lines[e.socket], v);
      HeardsOf(e.socket, x.handled)
  }

  /** The steps of a poll, and what they log. */
  function PollLabels(shard: nat, host: Host, capacity: nat, q: Polled, es: seq<PollEvent>, vs: seq<Visit>): seq<Label>
    requires |es| == |vs| && forall e <- es :: e.socket in q.lines
  {
    if es == [] then []
    else
      var n := |es| - 1;
      assert es[n] in es;
      PollLabels(shard, host, capacity, q, es[..n], vs[..n])
      + EventLabels(shard, host, capacity, PollAll(host, capacity, q, es[..n], vs[..n]), es[n], vs[n])
  }

  function PollLog(host: Host, capacity: nat, q: Polled, es: seq<PollEvent>, vs: seq<Visit>): seq<Event>
    requires |es| == |vs| && forall e <- es :: e.socket in q.lines
  {
    if es == [] then []
    else
      var n := |es| - 1;
      assert es[n] in es;
      PollLog(host, capacity, q, es[..n], vs[..n])
      + EventLog(host, capacity, PollAll(host, capacity, q, es[..n], vs[..n]), es[n], vs[n])
  }

  /** The server after a poll of one shard that came to q and logged these events. */
  ghost function PolledTo(s: State, shard: nat, q: Polled, log: seq<Event>): State
    requires Wf(s) && shard < |s.shards|
  {
    s.(shards := s.shards[shard := Seen(q.clients)], doomed := s.doomed[shard := q.doomed], log := s.log + log)
  }

  /** An event does this. */
  lemma {:induction false} EventRuns(s: State, shard: nat, host: Host, capacity: nat, q: Polled, e: PollEvent, v: Visit)
    requires Follows(s, shard, q) && e.socket in q.lines && 0 <= e.socket
    ensures var ls := EventLabels(shard, host, capacity, q, e, v);
            && CanRun(s, ls)
            && Run(s, ls) == PolledTo(s, shard, PollStep(host, capacity, q, e, v), EventLog(host, capacity, q, e, v))
  {
    var poll := Poll(shard, e.socket);
    SameShard(s, shard);
    if q.broken {
      RunNone(s);
    } else if e.hangUp || e.socket !in q.clients {
      RunOne(s, poll);
    } else {
      var peer, c, line := Calls.Peer(host, e.socket, capacity), q.clients[e.socket], q.lines[e.socket];
      var x := VisitOf(peer, e, c, line, v);
      VisitFlag(peer, e, c, line, v);
      SeenSet(q.clients, e.socket, x.client);
      ParsesRun(s, shard, e.socket, x.handled);
      hide VisitOf, SignOfLife, Run, CanRun, Seen, Parses, HeardsOf;
      var ls := Parses(shard, e.socket, x.handled);
      if x.handling.Barred? || x.handling == ReadAs(Calls.Terminated) {
        RunMore(s, ls, poll);
      } else {
        assert ls + [] == ls && q.doomed + {} == q.doomed;
      }
    }
  }

  lemma SameShard(s: State, shard: nat)
    requires Wf(s) && shard < |s.shards|
    ensures s.shards[shard := s.shards[shard]] == s.shards && s.doomed[shard := s.doomed[shard]] == s.doomed
    ensures s.log + [] == s.log
  {
  }

  lemma VisitFlag(peer: Calls.Peer, e: PollEvent, c: ClientState, line: Line, v: Visit)
    ensures var x := VisitOf(peer, e, c, line, v);
            && x.client.terminateOnNextCycle == (c.terminateOnNextCycle && !SignOfLife(x.handled))
            && x.client.maxCount == c.maxCount
  {
  }

  /** And a poll this: in every run of the server, it parses what it handled, dooms what it dooms, logs what it heard,
      and does nothing else. */
  lemma {:induction false} PollRuns(s: State, shard: nat, host: Host, capacity: nat, q: Polled, es: seq<PollEvent>,
                                    vs: seq<Visit>)
    requires Follows(s, shard, q) && |es| == |vs| && forall e <- es :: e.socket in q.lines && 0 <= e.socket
    ensures var ls := PollLabels(shard, host, capacity, q, es, vs);
            && CanRun(s, ls)
            && Run(s, ls) == PolledTo(s, shard, PollAll(host, capacity, q, es, vs), PollLog(host, capacity, q, es, vs))
    decreases |es|
  {
    if es == [] {
      RunNone(s);
      SameShard(s, shard);
    } else {
      var n := |es| - 1;
      assert es[n] in es;
      PollRuns(s, shard, host, capacity, q, es[..n], vs[..n]);
      var q1, log1 := PollAll(host, capacity, q, es[..n], vs[..n]), PollLog(host, capacity, q, es[..n], vs[..n]);
      var before := PollLabels(shard, host, capacity, q, es[..n], vs[..n]);
      PolledFollows(s, shard, q1, log1);
      OneMorePolled(shard, host, capacity, q, es, vs);
      hide *;
      EventRuns(PolledTo(s, shard, q1, log1), shard, host, capacity, q1, es[n], vs[n]);
      RunConcat(s, before, EventLabels(shard, host, capacity, q1, es[n], vs[n]));
      PolledTwice(s, shard, q1, log1, PollStep(host, capacity, q1, es[n], vs[n]),
                  EventLog(host, capacity, q1, es[n], vs[n]));
    }
  }

  lemma OneMorePolled(shard: nat, host: Host, capacity: nat, q: Polled, es: seq<PollEvent>, vs: seq<Visit>)
    requires |es| == |vs| && es != [] && forall e <- es :: e.socket in q.lines
    ensures var n := |es| - 1;
            assert es[n] in es;
            var q1 := PollAll(host, capacity, q, es[..n], vs[..n]);
            && es[n].socket in q1.lines && 0 <= n
            && PollAll(host, capacity, q, es, vs) == PollStep(host, capacity, q1, es[n], vs[n])
            && PollLabels(shard, host, capacity, q, es, vs)
            == PollLabels(shard, host, capacity, q, es[..n], vs[..n]) + EventLabels(shard, host, capacity, q1, es[n], vs[n])
            && PollLog(host, capacity, q, es, vs)
            == PollLog(host, capacity, q, es[..n], vs[..n]) + EventLog(host, capacity, q1, es[n], vs[n])
  {
    hide PollStep, EventLabels, EventLog;
  }

  lemma PolledTwice(s: State, shard: nat, q: Polled, log: seq<Event>, q': Polled, more: seq<Event>)
    requires Wf(s) && shard < |s.shards|
    requires Wf(PolledTo(s, shard, q, log)) && shard < |PolledTo(s, shard, q, log).shards|
    ensures PolledTo(PolledTo(s, shard, q, log), shard, q', more) == PolledTo(s, shard, q', log + more)
  {
    Assoc(s.log, log, more);
  }

  lemma PolledFollows(s: State, shard: nat, q: Polled, log: seq<Event>)
    requires Wf(s) && shard < |s.shards|
    ensures Follows(PolledTo(s, shard, q, log), shard, q) && Wf(PolledTo(s, shard, q, log))
    ensures |PolledTo(s, shard, q, log).shards| == |s.shards|
  {
  }

  lemma SeenIsTable(shard: ServerLearnProtocol)
    ensures TableOf(shard) == Seen(shard.clientInfos.States())
  {
    var clients, states := shard.clientInfos.clients, shard.clientInfos.States();
    forall k <- clients
      ensures Seen(states)[k] == TableOf(shard)[k]
    {
      assert states[k] == StateOf(clients[k]) && (k in shard.clientInfos.Flagged() <==> clients[k].terminateOnNextCycle);
    }
    SameMap(TableOf(shard), Seen(states));
  }

  /** These are the steps of the poll, and that is what they come to. */
  ghost predicate PolledBy(s: State, ls: seq<Label>, shard: nat, host: Host, capacity: nat, q: Polled, q': Polled,
                           es: seq<PollEvent>, vs: seq<Visit>)
  {
    && |es| == |vs| && (forall e <- es :: e.socket in q.lines)
    && q' == PollAll(host, capacity, q, es, vs) && ls == PollLabels(shard, host, capacity, q, es, vs)
    && Wf(s) && shard < |s.shards| && CanRun(s, ls)
    && Run(s, ls) == PolledTo(s, shard, q', PollLog(host, capacity, q, es, vs))
  }

  /** A call of PollRead came to q' over these visits, the steps are those of that poll, and the sockets it hands on are
      the ones that are doomed after them. */
  ghost predicate PollStepped(s: State, ls: seq<Label>, shard: ServerLearnProtocol, capacity: nat, q: Polled, q': Polled,
                              events: seq<PollEvent>, visits: seq<Visit>, wires: map<int, Wire>, os: Sockets,
                              doomed: set<int>, broken: bool)
    reads shard.clientInfos, shard.clientInfos.Footprint(), os, set k | k in wires :: wires[k]
  {
    && shard.clientInfos.CameOut(capacity, q, q', events, visits, wires, os, doomed, broken) && |visits| <= |events|
    && PolledBy(s, ls, shard.balancerIndex, shard.clientInfos.host, capacity, q, q', events[..|visits|], visits)
    && Doomed(s, ls, shard.balancerIndex, doomed)
  }

  /** A poll, with the sockets it finds to be terminated. */
  method PollRead(shard: ServerLearnProtocol, balancer: Priority, events: seq<PollEvent>, wires: map<int, Wire>,
                  socketsToTerminate: set<int>, buffer: Buffer, clock: Clock, os: Sockets, time: int,
                  ghost q: Polled, ghost s: State)
    returns (socketsToTerminate': set<int>, broken: bool, ghost visits: seq<Visit>, ghost q': Polled, ghost ls: seq<Label>)
    requires shard.Valid() && shard.clientInfos.Apart() && shard.clientInfos.Past(clock.time)
    requires shard.mostRecentTimestamps.now <= time && 0 < buffer.SizeIgnoreOffset() && OwnLines(wires)
    requires forall e <- events :: e.socket in wires && 0 <= e.socket
    requires q == shard.clientInfos.Gathered(wires, [], os, socketsToTerminate, {}, false)
    requires Shows(s, shard, balancer) && AreDoomed(s, shard.balancerIndex, socketsToTerminate)
    modifies shard.clientInfos`packetsToRead, shard.clientInfos`packetsToWrite, shard.clientInfos.Footprint()
    modifies clock, buffer, buffer.arr, os`shut, set k | k in wires :: wires[k]
    modifies shard.mostRecentTimestamps, shard.mostRecentTimestamps.timestamps
    ensures shard.Valid() && Stepped(s, ls, shard, balancer)
    ensures PollStepped(s, ls, shard, buffer.SizeIgnoreOffset(), q, q', events, visits, wires, os, socketsToTerminate',
                        broken)
  {
    ghost var heard;
    ghost var capacity := buffer.SizeIgnoreOffset();
    hide *;
    BeforePoll(s, shard, balancer, wires, socketsToTerminate, os, q);
    Unrelated(shard, balancer, wires, buffer, clock, os);
    socketsToTerminate', broken, visits, q', heard :=
      shard.PollRead(events, wires, socketsToTerminate, buffer, clock, os, time, q);
    ls := AfterPoll(s, shard, balancer, capacity, q, q', events, visits, wires, os, socketsToTerminate', broken);
  }

  /** The balancer is no part of what a poll touches. */
  lemma Unrelated(shard: ServerLearnProtocol, balancer: Priority, wires: map<int, Wire>, buffer: Buffer, clock: Clock,
                  os: Sockets)
    ensures balancer !in shard.clientInfos.Footprint() && balancer !in (set k | k in wires :: wires[k] as object)
    ensures allocated(balancer)
  {
  }

  lemma BeforePoll(s: State, shard: ServerLearnProtocol, balancer: Priority, wires: map<int, Wire>, doomed: set<int>,
                   os: Sockets, q: Polled)
    requires Shows(s, shard, balancer) && AreDoomed(s, shard.balancerIndex, doomed)
    requires q == shard.clientInfos.Gathered(wires, [], os, doomed, {}, false)
    ensures Follows(s, shard.balancerIndex, q) && s.loads == balancer.View()
  {
    SeenIsTable(shard);
  }

  lemma WhatCameOut(shard: ServerLearnProtocol, capacity: nat, q: Polled, q': Polled, events: seq<PollEvent>,
                    visits: seq<Visit>, wires: map<int, Wire>, os: Sockets, doomed: set<int>, broken: bool)
    requires shard.clientInfos.CameOut(capacity, q, q', events, visits, wires, os, doomed, broken)
    requires forall e <- events :: 0 <= e.socket
    ensures |visits| <= |events| && forall e <- events[..|visits|] :: e.socket in q.lines && 0 <= e.socket
    ensures q' == PollAll(shard.clientInfos.host, capacity, q, events[..|visits|], visits)
    ensures q'.clients == shard.clientInfos.States() && q'.doomed == doomed
  {
    hide PollAll;
  }

  lemma AfterPoll(s: State, shard: ServerLearnProtocol, balancer: Priority, capacity: nat, q: Polled, q': Polled,
                  events: seq<PollEvent>, visits: seq<Visit>, wires: map<int, Wire>, os: Sockets, doomed: set<int>,
                  broken: bool)
    returns (ls: seq<Label>)
    requires shard.clientInfos.CameOut(capacity, q, q', events, visits, wires, os, doomed, broken)
    requires Follows(s, shard.balancerIndex, q) && s.loads == balancer.View() && forall e <- events :: 0 <= e.socket
    ensures Stepped(s, ls, shard, balancer)
    ensures PollStepped(s, ls, shard, capacity, q, q', events, visits, wires, os, doomed, broken)
  {
    WhatCameOut(shard, capacity, q, q', events, visits, wires, os, doomed, broken);
    var i, host, es := shard.balancerIndex, shard.clientInfos.host, events[..|visits|];
    assert Wf(s) && i < |s.shards|;
    hide ClientInfos.CameOut, PollAll, PollLabels, PollLog, Run, CanRun, Shows, Elsewhere, Follows, PolledTo, Wf;
    ls := PollLabels(i, host, capacity, q, es, visits);
    PollRuns(s, i, host, capacity, q, es, visits);
    PolledShows(s, shard, balancer, q', PollLog(host, capacity, q, es, visits));
  }

  lemma PolledShows(s: State, shard: ServerLearnProtocol, balancer: Priority, q: Polled, log: seq<Event>)
    requires Wf(s) && shard.balancerIndex < |s.shards| && s.loads == balancer.View()
    requires q.clients == shard.clientInfos.States()
    ensures var s' := PolledTo(s, shard.balancerIndex, q, log);
            && Shows(s', shard, balancer) && Elsewhere(s, s', shard.balancerIndex)
            && shard.balancerIndex < |s'.doomed| && s'.doomed[shard.balancerIndex] == q.doomed
  {
    SeenIsTable(shard);
  }
}
