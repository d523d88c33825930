/** Runs of accepts, migrations and closes that are taken as a whole: the shards stay balanced. */
module Balance {
  import opened Iteration
  import opened Priorities
  import opened Ownership
  import opened Accounting
  import opened ServerSteps

  // ---- how far the loads are apart ----------------------------------------------------------

  function Spread(b: Loads): int
    requires b.minIdx < |b.sizes| && b.maxIdx < |b.sizes|
  {
    b.sizes[b.maxIdx] as int - b.sizes[b.minIdx]
  }

  function Max(a: int, b: int): int {
    if a < b then b else a
  }

  /** Whatever goes to the least loaded shard. */
  lemma AcceptSpread(b: Loads, weight: nat)
    requires Extremes(b)
    ensures var r := Inc(b, b.minIdx, weight);
            Extremes(r) && Spread(r) <= Max(Spread(b), weight)
  {
    RescanIsRight(b, b.minIdx, weight);
  }

  /** A client that moves from a most loaded shard to a least loaded one. */
  lemma MigrateSpread(b: Loads, weight: nat)
    requires Extremes(b) && b.minIdx != b.maxIdx && weight <= b.sizes[b.maxIdx]
    ensures var r := Inc(Dec(b, b.maxIdx, weight), b.minIdx, weight);
            Extremes(r) && Spread(r) <= Max(Spread(b), 2 * weight)
  {
    var d := Dec(b, b.maxIdx, weight);
    RescanIsRight(b, b.maxIdx, weight);
    RescanIsRight(d, b.minIdx, weight);
  }

  /** The bound is reached: with two equally loaded shards a migration moves all there is to one of them. */
  lemma SpreadIsReached(weight: nat)
    requires 0 < weight
    ensures var b0 := Loads([0, 0], 0, 0);
            var b1 := Inc(b0, b0.minIdx, weight);
            var b2 := Inc(b1, b1.minIdx, weight);
            && Spread(b2) == 0 && b2.minIdx != b2.maxIdx
            && Spread(Inc(Dec(b2, b2.maxIdx, weight), b2.minIdx, weight)) == 2 * weight
  {
    var one, two: seq<nat> := [weight, 0], [weight, weight];
    assert [0, 0][0 := 0 + weight] == one && one[1 := 0 + weight] == two;
    assert LastZero(one, 1) && IsMax(one, 0) && IsMin(two, 1) && IsMax(two, 0);
    RescanBreaksTies(Loads(one, 0, 0));
    RescanBreaksTies(Loads(two, 1, 0));
    hide Scan;
    var b2 := Loads(two, 1, 0);
    assert Inc(Loads([0, 0], 0, 0), 0, weight) == Loads(one, 1, 0);
    assert Inc(Loads(one, 1, 0), 1, weight) == b2;
    RescanIsRight(b2, 0, weight);
    RescanIsRight(Dec(b2, 0, weight), 1, weight);
    assert Inc(Dec(b2, 0, weight), 1, weight).sizes == [0, 2 * weight];
  }

  lemma {:induction false} TotalAtLeast(sizes: seq<nat>, low: int)
    requires forall i :: 0 <= i < |sizes| ==> low <= sizes[i]
    ensures |sizes| * low <= Total(sizes)
  {
    if sizes == [] {
    } else {
      TotalAtLeast(sizes[..|sizes| - 1], low);
      assert |sizes| * low == (|sizes| - 1) * low + low;
    }
  }

  lemma {:induction false} TotalWithOne(sizes: seq<nat>, low: int, k: nat)
    requires k < |sizes| && forall i :: 0 <= i < |sizes| ==> low <= sizes[i]
    ensures (|sizes| - 1) * low + sizes[k] <= Total(sizes)
  {
    var n := |sizes| - 1;
    if k == n {
      TotalAtLeast(sizes[..n], low);
    } else {
      TotalWithOne(sizes[..n], low, k);
      assert n * low == (n - 1) * low + low;
    }
  }

  /** With loads at most w apart, no shard carries more than its share and (m - 1) / m of w. */
  lemma NoShardIsOverloaded(b: Loads, w: nat)
    requires Extremes(b) && Spread(b) <= w
    ensures |b.sizes| * b.sizes[b.maxIdx] <= Total(b.sizes) + (|b.sizes| - 1) * w
  {
    var m, top := |b.sizes|, b.sizes[b.maxIdx];
    TotalWithOne(b.sizes, top - w, b.maxIdx);
    Distribute(m, top, w);
  }

  lemma Distribute(m: int, top: int, w: int)
    ensures (m - 1) * (top - w) + top == m * top - (m - 1) * w
  {
    assert (m - 1) * (top - w) == (m - 1) * top - (m - 1) * w;
    assert (m - 1) * top == m * top - top;
  }

  // ---- whole operations ---------------------------------------------------------------------

  /** An accept goes to the least loaded shard; a migration takes some client from the most loaded one
      there; a close takes events that name sockets, and then closes those that the shard has, in some order. */
  datatype Op =
    | AcceptOp(socket: int, weight: nat)
    | MigrateOp(socket: int)
    | CloseOp(shard: nat, named: seq<int>, order: seq<int>)

  ghost predicate Moves(s: State)
    requires Wf(s)
  {
    s.loads.minIdx != s.loads.maxIdx && s.shards[s.loads.maxIdx] != map[]
  }

  ghost predicate Allowed(s: State, op: Op)
    requires Wf(s)
  {
    match op
    case AcceptOp(socket, _) => 0 <= socket && socket !in s.accepted
    case MigrateOp(socket) => Moves(s) ==> socket in s.shards[s.loads.maxIdx]
    case CloseOp(shard, named, order) => shard < |s.shards| && Lists(order, Elements(named))
  }

  /** The steps of an operation; a migration that has nothing to move takes none. */
  ghost function Steps(s: State, op: Op): seq<Label>
    requires Wf(s)
  {
    match op
    case AcceptOp(socket, weight) => AcceptSteps(0, socket, weight, s.loads.minIdx)
    case MigrateOp(socket) =>
      if Moves(s) then MigrateSteps(0, s.loads.maxIdx, socket, s.loads.minIdx) else []
    case CloseOp(shard, named, order) => PollEach(shard, named) + Closes(shard, order)
  }

  /** Between operations: loads are exact, the indices right, and no phantom is anywhere. */
  ghost predicate Settled(s: State) {
    && Wf(s) && Exact(s) && Extremes(s.loads) && Owned(s)
    && forall i, socket :: 0 <= i < |s.shards| && socket in s.shards[i] ==> socket >= 0
  }

  lemma LoadCovers(s: State, i: nat, socket: int)
    requires Wf(s) && Exact(s) && i < |s.shards| && socket in s.shards[i]
    ensures s.shards[i][socket].weight <= s.loads.sizes[i]
  {
    WeightWithout(s.shards[i], socket);
  }

  lemma AcceptSettles(s: State, socket: int, weight: nat)
    requires Settled(s) && Allowed(s, AcceptOp(socket, weight))
    ensures socket !in s.shards[s.loads.minIdx]
    ensures var ls := AcceptSteps(0, socket, weight, s.loads.minIdx);
            && CanRun(s, ls) && Settled(Run(s, ls)) && Run(s, ls).drift == s.drift && Run(s, ls).doomed == s.doomed
            && Run(s, ls).loads == Inc(s.loads, s.loads.minIdx, weight)
            && Run(s, ls).shards ==
               s.shards[s.loads.minIdx := s.shards[s.loads.minIdx][socket := Client(weight, false)]]
  {
    var to := s.loads.minIdx;
    assert socket !in s.shards[to] by {
      if socket in s.shards[to] {
        assert At(s, InShard(to), socket);
        assert false;
      }
    }
    AcceptRuns(s, 0, socket, weight, to);
    WeightUpdate(s.shards[to], socket, Client(weight, false));
    RescanIsRight(s.loads, to, weight);
    RunKeepsOwned(s, AcceptSteps(0, socket, weight, to));
  }

  /** The state after a migration from the most to the least loaded shard. */
  ghost function Migrated(s: State, socket: int): State
    requires Wf(s) && socket in s.shards[s.loads.maxIdx]
  {
    var from, to := s.loads.maxIdx, s.loads.minIdx;
    var c := s.shards[from][socket];
    s.(shards := s.shards[from := s.shards[from] - {socket}][to := s.shards[to][socket := c]],
       loads := Inc(Dec(s.loads, from, c.weight), to, c.weight))
  }

  lemma MigratedIsExact(s: State, socket: int)
    requires Settled(s) && Moves(s) && socket in s.shards[s.loads.maxIdx] && socket !in s.shards[s.loads.minIdx]
    ensures s.shards[s.loads.maxIdx][socket].weight <= s.loads.sizes[s.loads.maxIdx]
    ensures var s' := Migrated(s, socket);
            && Wf(s') && Exact(s') && Extremes(s'.loads)
            && forall i, k :: 0 <= i < |s'.shards| && k in s'.shards[i] ==> k >= 0
  {
    var from, to := s.loads.maxIdx, s.loads.minIdx;
    var c, s' := s.shards[from][socket], Migrated(s, socket);
    LoadCovers(s, from, socket);
    WeightWithout(s.shards[from], socket);
    WeightUpdate(s.shards[to], socket, c);
    RescanIsRight(s.loads, from, c.weight);
    RescanIsRight(Dec(s.loads, from, c.weight), to, c.weight);
    NobodyNegative(s, socket);
    hide Weight, Owned, Scan, Extremes;
    assert Wf(s') && s'.tasks == map[];
    forall i | 0 <= i < |s'.shards|
      ensures s'.loads.sizes[i] == Weight(s'.shards[i])
    {
      assert s.loads.sizes[i] == Weight(s.shards[i]);
      hide Exact, Settled, Moves;
      if i == from {
      } else if i == to {
      }
    }
  }

  lemma NobodyNegative(s: State, socket: int)
    requires Settled(s) && socket in s.shards[s.loads.maxIdx]
    ensures forall i, k :: 0 <= i < |Migrated(s, socket).shards| && k in Migrated(s, socket).shards[i] ==> k >= 0
  {
    hide Exact, Owned, Extremes, Inc, Dec;
  }

  lemma OnlyIn(s: State, i: nat, j: nat, socket: int)
    requires Settled(s) && i < |s.shards| && j < |s.shards| && i != j && socket in s.shards[i]
    ensures socket !in s.shards[j]
  {
    assert At(s, InShard(i), socket);
    if socket in s.shards[j] {
      assert At(s, InShard(j), socket);
      assert false;
    }
  }

  lemma MigrateSettles(s: State, socket: int)
    requires Settled(s) && Moves(s) && Allowed(s, MigrateOp(socket))
    ensures socket !in s.shards[s.loads.minIdx]
    ensures s.shards[s.loads.maxIdx][socket].weight <= s.loads.sizes[s.loads.maxIdx]
    ensures var ls := MigrateSteps(0, s.loads.maxIdx, socket, s.loads.minIdx);
            CanRun(s, ls) && Settled(Run(s, ls)) && Run(s, ls) == Migrated(s, socket)
  {
    var from, to := s.loads.maxIdx, s.loads.minIdx;
    OnlyIn(s, from, to, socket);
    MigratedIsExact(s, socket);
    assert Enabled(s, Remove(0, from, socket, to)) && 0 !in s.tasks;
    hide Exact, Enabled, Weight, Owned, Extremes, Run, CanRun, MigrateSteps, Next, Scan;
    MigrateRuns(s, 0, from, socket, to);
    RunKeepsOwned(s, MigrateSteps(0, from, socket, to));
  }

  lemma {:induction false} PollEachRuns(s: State, shard: nat, sockets: seq<int>)
    requires Wf(s) && shard < |s.shards|
    ensures CanRun(s, PollEach(shard, sockets))
    ensures Run(s, PollEach(shard, sockets)) == s.(doomed := s.doomed[shard := s.doomed[shard] + Elements(sockets)])
    decreases |sockets|
  {
    if sockets == [] {
      RunNone(s);
      assert PollEach(shard, sockets) == [] && s.doomed[shard] + Elements(sockets) == s.doomed[shard];
    } else {
      var before, last := sockets[..|sockets| - 1], sockets[|sockets| - 1];
      assert sockets == before + [last];
      assert PollEach(shard, sockets) == PollEach(shard, before) + [Poll(shard, last)];
      assert s.doomed[shard] + Elements(sockets) == s.doomed[shard] + Elements(before) + {last};
      PollEachRuns(s, shard, before);
      hide Run, CanRun, PollEach, Elements;
      RunMore(s, PollEach(shard, before), Poll(shard, last));
    }
  }

  lemma CloseOneSettles(s: State, shard: nat, socket: int)
    requires Settled(s) && shard < |s.shards| && socket in s.doomed[shard]
    ensures var s' := Next(s, CloseOne(shard, socket));
            && Settled(s') && s'.drift == s.drift && s'.doomed == s.doomed[shard := s.doomed[shard] - {socket}]
            && s'.shards == s.shards[shard := s.shards[shard] - {socket}]
  {
    RunOne(s, CloseOne(shard, socket));
    RunKeepsOwned(s, [CloseOne(shard, socket)]);
    hide Owned, Extremes, Run, CanRun;
    assert socket !in s.shards[shard] ==> s.shards[shard] - {socket} == s.shards[shard];
    if socket in s.shards[shard] {
      LoadCovers(s, shard, socket);
      WeightWithout(s.shards[shard], socket);
      RescanIsRight(s.loads, shard, s.shards[shard][socket].weight);
    }
    hide Weight, Dec;
  }

  lemma {:induction false} ClosesSettle(s: State, shard: nat, order: seq<int>)
    requires Settled(s) && shard < |s.shards| && Lists(order, Elements(order)) && Elements(order) <= s.doomed[shard]
    ensures CanRun(s, Closes(shard, order))
    ensures var s' := Run(s, Closes(shard, order));
            && Settled(s') && s'.drift == s.drift && s'.doomed == s.doomed[shard := s.doomed[shard] - Elements(order)]
            && s'.shards == s.shards[shard := s.shards[shard] - Elements(order)]
    decreases |order|
  {
    if order == [] {
      RunNone(s);
      assert Closes(shard, order) == [] && s.doomed[shard] - Elements(order) == s.doomed[shard];
      assert s.shards[shard] - Elements(order) == s.shards[shard];
    } else {
      var before, last := order[..|order| - 1], order[|order| - 1];
      LastListed(order, s.doomed[shard], s.shards[shard]);
      assert Closes(shard, order) == Closes(shard, before) + [CloseOne(shard, last)];
      hide Run, CanRun, Closes, Elements, Lists, Settled;
      ClosesSettle(s, shard, before);
      WhatIsSettled(s);
      var s1 := Run(s, Closes(shard, before));
      WhatIsSettled(s1);
      CloseOneSettles(s1, shard, last);
      RunMore(s, Closes(shard, before), CloseOne(shard, last));
    }
  }

  lemma LastListed(order: seq<int>, doomed: set<int>, clients: map<int, Client>)
    requires order != [] && Lists(order, Elements(order)) && Elements(order) <= doomed
    ensures var before, last := order[..|order| - 1], order[|order| - 1];
            && Lists(before, Elements(before)) && Elements(before) <= doomed && last in doomed - Elements(before)
            && doomed - Elements(order) == doomed - Elements(before) - {last}
            && clients - Elements(order) == clients - Elements(before) - {last}
  {
    var before, last := order[..|order| - 1], order[|order| - 1];
    assert order == before + [last] && last in Elements(order);
    assert Elements(order) == Elements(before) + {last};
  }

  lemma WhatIsSettled(s: State)
    requires Settled(s)
    ensures Wf(s) && s.tasks == map[]
  {
  }

  lemma CloseSettles(s: State, shard: nat, named: seq<int>, order: seq<int>)
    requires Settled(s) && shard < |s.shards| && Lists(order, Elements(named))
    ensures var ls := PollEach(shard, named) + Closes(shard, order);
            CanRun(s, ls) && Settled(Run(s, ls)) && Run(s, ls).drift == s.drift
    ensures var s' := Run(s, PollEach(shard, named) + Closes(shard, order));
            && s'.doomed == s.doomed[shard := s.doomed[shard] - Elements(named)]
            && s'.shards == s.shards[shard := s.shards[shard] - Elements(named)]
  {
    ElementsOf(order, Elements(named));
    PollEachRuns(s, shard, named);
    var s1 := s.(doomed := s.doomed[shard := s.doomed[shard] + Elements(named)]);
    assert Settled(s1) by {
      NamedSettles(s, shard, Elements(named));
    }
    assert s.doomed[shard] + Elements(named) - Elements(named) == s.doomed[shard] - Elements(named);
    hide Run, CanRun, Closes, PollEach, Elements, Settled, Lists;
    ClosesSettle(s1, shard, order);
    RunConcat(s, PollEach(shard, named), Closes(shard, order));
  }

  lemma NamedSettles(s: State, shard: nat, sockets: set<int>)
    requires Settled(s) && shard < |s.shards|
    ensures Settled(s.(doomed := s.doomed[shard := s.doomed[shard] + sockets]))
  {
    hide Weight, Extremes;
    SameOwned(s, s.(doomed := s.doomed[shard := s.doomed[shard] + sockets]));
  }

  lemma SameOwned(s: State, s': State)
    requires Owned(s) && s' == s.(doomed := s'.doomed)
    ensures Owned(s')
  {
    assert forall p, socket :: At(s', p, socket) <==> At(s, p, socket);
  }

  lemma OpSettles(s: State, op: Op)
    requires Settled(s) && Allowed(s, op)
    ensures CanRun(s, Steps(s, op)) && Settled(Run(s, Steps(s, op))) && Run(s, Steps(s, op)).drift == s.drift
  {
    match op
    case AcceptOp(socket, weight) => AcceptSettles(s, socket, weight);
    case MigrateOp(socket) =>
      if Moves(s) {
        MigrateSettles(s, socket);
      }
    case CloseOp(shard, named, order) => CloseSettles(s, shard, named, order);
  }

  /** A run of whole operations. */
  ghost predicate CanDo(s: State, ops: seq<Op>)
    requires Settled(s)
    decreases |ops|
  {
    ops == [] || (Allowed(s, ops[0]) && (OpSettles(s, ops[0]); CanDo(Run(s, Steps(s, ops[0])), ops[1..])))
  }

  ghost function Do(s: State, ops: seq<Op>): (s': State)
    requires Settled(s) && CanDo(s, ops)
    ensures Settled(s') && s'.drift == s.drift
    decreases |ops|
  {
    if ops == [] then s
    else
      OpSettles(s, ops[0]);
      Do(Run(s, Steps(s, ops[0])), ops[1..])
  }

  lemma InitSettled(n: nat)
    requires 0 < n
    ensures Settled(Init(n))
  {
    forall i | 0 <= i < n
      ensures Weight(Init(n).shards[i]) == 0
    {
      assert Weights(Init(n).shards[i]).Keys == {};
    }
  }

  /** Where every server starts. */
  ghost function Start(n: nat): (s: State)
    requires 0 < n
    ensures Settled(s)
  {
    InitSettled(n);
    Init(n)
  }

  // ---- balance over runs --------------------------------------------------------------------

  ghost predicate LightClients(s: State, w: nat) {
    forall i, socket :: 0 <= i < |s.shards| && socket in s.shards[i] ==> s.shards[i][socket].weight <= w
  }

  ghost predicate NoCloses(ops: seq<Op>, w: nat) {
    forall op <- ops :: !op.CloseOp? && (op.AcceptOp? ==> op.weight <= w)
  }

  ghost predicate AcceptsOnly(ops: seq<Op>, w: nat) {
    forall op <- ops :: op.AcceptOp? && op.weight <= w
  }

  lemma AcceptKeepsSpread(s: State, socket: int, weight: nat, w: nat, bound: nat)
    requires Settled(s) && Allowed(s, AcceptOp(socket, weight)) && LightClients(s, w) && weight <= w <= bound
    requires Spread(s.loads) <= bound && CanRun(s, AcceptSteps(0, socket, weight, s.loads.minIdx))
    ensures var s' := Run(s, AcceptSteps(0, socket, weight, s.loads.minIdx));
            LightClients(s', w) && Spread(s'.loads) <= bound
  {
    AcceptSpread(s.loads, weight);
    AcceptSettles(s, socket, weight);
    hide Exact, Owned, Extremes, Run, CanRun, AcceptSteps, Scan, Inc, Settled, Allowed;
  }

  lemma MigrateKeepsSpread(s: State, socket: int, w: nat, bound: nat)
    requires Settled(s) && Moves(s) && socket in s.shards[s.loads.maxIdx] && LightClients(s, w) && 2 * w <= bound
    requires Spread(s.loads) <= bound && CanRun(s, MigrateSteps(0, s.loads.maxIdx, socket, s.loads.minIdx))
    ensures var s' := Run(s, MigrateSteps(0, s.loads.maxIdx, socket, s.loads.minIdx));
            LightClients(s', w) && Spread(s'.loads) <= bound
  {
    MigrateSettles(s, socket);
    MigrateSpread(s.loads, s.shards[s.loads.maxIdx][socket].weight);
    hide Exact, Owned, Extremes, Run, CanRun, MigrateSteps, Scan, Inc, Dec, Settled, Moves;
  }

  lemma OpSpread(s: State, op: Op, w: nat, bound: nat)
    requires Settled(s) && Allowed(s, op) && LightClients(s, w) && !op.CloseOp?
    requires op.AcceptOp? ==> op.weight <= w
    requires Spread(s.loads) <= bound && (bound >= 2 * w || (bound >= w && op.AcceptOp?))
    requires CanRun(s, Steps(s, op))
    ensures LightClients(Run(s, Steps(s, op)), w) && Spread(Run(s, Steps(s, op)).loads) <= bound
  {
    hide Exact, Owned, Extremes, CanRun, AcceptSteps, MigrateSteps, Spread, LightClients;
    if op.AcceptOp? {
      AcceptKeepsSpread(s, op.socket, op.weight, w, bound);
    } else if Moves(s) {
      MigrateKeepsSpread(s, op.socket, w, bound);
    }
  }

  lemma {:induction false} RunSpread(s: State, ops: seq<Op>, w: nat, bound: nat)
    requires Settled(s) && CanDo(s, ops) && LightClients(s, w) && NoCloses(ops, w)
    requires Spread(s.loads) <= bound && (bound >= 2 * w || (bound >= w && AcceptsOnly(ops, w)))
    ensures Spread(Do(s, ops).loads) <= bound
    decreases |ops|
  {
    if ops == [] {
    } else {
      assert ops[0] in ops;
      OpSettles(s, ops[0]);
      OpSpread(s, ops[0], w, bound);
      hide Steps, Settled, Allowed, Spread;
      RunSpread(Run(s, Steps(s, ops[0])), ops[1..], w, bound);
    }
  }

  /** Over every run of accepts and migrations of clients of weight at most w, the loads stay within 2w. */
  lemma ServerStaysBalanced(n: nat, ops: seq<Op>, w: nat)
    requires 0 < n && CanDo(Start(n), ops) && NoCloses(ops, w)
    ensures Spread(Do(Start(n), ops).loads) <= 2 * w
  {
    RunSpread(Start(n), ops, w, 2 * w);
  }

  /** With accepts only they stay within w, and no shard carries much more than its share. */
  lemma AcceptsStayBalanced(n: nat, ops: seq<Op>, w: nat)
    requires 0 < n && CanDo(Start(n), ops) && AcceptsOnly(ops, w)
    ensures var b := Do(Start(n), ops).loads;
            && Spread(b) <= w
            && |b.sizes| * b.sizes[b.maxIdx] <= Total(b.sizes) + (|b.sizes| - 1) * w
  {
    RunSpread(Start(n), ops, w, w);
    NoShardIsOverloaded(Do(Start(n), ops).loads, w);
  }
}
