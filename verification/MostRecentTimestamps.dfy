/** The recency index of a shard: the sockets in the order of their last activity. */
module MostRecentTimestamps {
  import opened Iteration
  import opened OrderedHashSets

  type Stamp = Entry<int, int>  // socket, and the second of its activity

  ghost predicate SortedByTime(es: seq<Stamp>) {
    forall i, j :: 0 <= i < j < |es| ==> es[i].value <= es[j].value
  }

  ghost predicate NotAfter(es: seq<Stamp>, now: int) {
    forall e <- es :: e.value <= now
  }

  /** The sockets of all entries that are at least timeout old, wherever they stand. */
  function Stale(es: seq<Stamp>, now: int, timeout: int): set<int> {
    set e | e in es && now - e.value >= timeout :: e.key
  }

  lemma WithoutSorted(es: seq<Stamp>, socket: int, now: int)
    requires SortedByTime(es) && NotAfter(es, now)
    ensures SortedByTime(Without(es, socket)) && NotAfter(Without(es, socket), now)
  {
    var w := Without(es, socket);
    forall i, j | 0 <= i < j < |w|
      ensures w[i].value <= w[j].value
    {
      var a, b := WithoutPair(es, socket, i, j);
    }
    forall e | e in w
      ensures e.value <= now
    {
      WithoutMember(es, socket, e);
    }
  }

  /** The index that a history of activities and removals leaves: the intended one, or, as long as new keys are
      not stored in the map, the literal one. */
  function Recorded(ops: seq<Op<int, int>>, supplied: bool): seq<Stamp> {
    if supplied then Intended(ops) else Literal(ops)
  }

  /** One more operation keeps the index sorted by time. */
  lemma {:induction false} RecordedMore(ops: seq<Op<int, int>>, op: Op<int, int>, supplied: bool, now: int, time: int)
    requires SortedByTime(Recorded(ops, supplied)) && NotAfter(Recorded(ops, supplied), now)
    requires now <= time && (op.Insert? ==> op.value == time)
    ensures var es := Recorded(ops, supplied);
            var kept := if supplied then Without(es, op.key) else es;
            Recorded(ops + [op], supplied) == if op.Insert? then kept + [Entry(op.key, op.value)] else kept
    ensures SortedByTime(Recorded(ops + [op], supplied)) && NotAfter(Recorded(ops + [op], supplied), time)
  {
    var es := Recorded(ops, supplied);
    assert (ops + [op])[..|ops|] == ops;
    WithoutSorted(es, op.key, now);
    var kept := if supplied then Without(es, op.key) else es;
    assert forall i :: 0 <= i < |kept| ==> kept[i] in kept;
  }

  function Activities(sockets: seq<int>, time: int): seq<Op<int, int>> {
    seq(|sockets|, i requires 0 <= i < |sockets| => Insert(sockets[i], time))
  }

  function Removals(sockets: seq<int>): seq<Op<int, int>> {
    seq(|sockets|, i requires 0 <= i < |sockets| => Remove(sockets[i]))
  }

  lemma OneMoreOp(ops: seq<Op<int, int>>, sockets: seq<int>, socket: int, time: int)
    ensures ops + Activities(sockets + [socket], time) == (ops + Activities(sockets, time)) + [Insert(socket, time)]
    ensures ops + Removals(sockets + [socket]) == (ops + Removals(sockets)) + [Remove(socket)]
    ensures ops + Activities([], time) == ops == ops + Removals([])
  {
  }

  /** Each of these sockets was noted as active at this time, and nothing else happened. */
  ghost predicate Noted(ops: seq<Op<int, int>>, ops': seq<Op<int, int>>, sockets: seq<int>, time: int) {
    && ops <= ops' && |ops'| == |ops| + |sockets|
    && forall i :: 0 <= i < |sockets| ==> ops'[|ops| + i] == Insert(sockets[i], time)
  }

  ghost predicate Forgotten(ops: seq<Op<int, int>>, ops': seq<Op<int, int>>, sockets: seq<int>) {
    && ops <= ops' && |ops'| == |ops| + |sockets|
    && forall i :: 0 <= i < |sockets| ==> ops'[|ops| + i] == Remove(sockets[i])
  }

  lemma OpsAt(ops: seq<Op<int, int>>, sockets: seq<int>, time: int)
    ensures Noted(ops, ops + Activities(sockets, time), sockets, time)
    ensures Forgotten(ops, ops + Removals(sockets), sockets)
  {
  }

  class Timestamps {
    const timestamps: OrderedHashSet<int, int>
    ghost var now: int  // the clock reading of the last update
    ghost var ops: seq<Op<int, int>>  // every activity and removal so far

    /** The list is what the history leaves, sorted by time. */
    ghost predicate Valid()
      reads this, timestamps
    {
      && timestamps.Valid() && Contents() == Recorded(ops, timestamps.supplied)
      && SortedByTime(Contents()) && NotAfter(Contents(), now)
    }

    ghost function Contents(): seq<Stamp>
      reads timestamps
    {
      timestamps.Contents()
    }

    constructor (supplied: bool)
      ensures Valid() && ops == [] && timestamps.supplied == supplied && now == 0
      ensures fresh(timestamps)
    {
      timestamps := new OrderedHashSet(supplied);
      now, ops := 0, [];
    }

    /** time is the clock reading of the call, which never runs backwards. */
    method UpdateSingle(socket: int, time: int)
      requires Valid() && now <= time
      modifies this, timestamps
      ensures Valid() && now == time && ops == old(ops) + [Insert(socket, time)]
    {
      RecordedMore(ops, Insert(socket, time), timestamps.supplied, now, time);
      hide SortedByTime, NotAfter, Recorded;
      timestamps.Insert(socket, time);
      now, ops := time, ops + [Insert(socket, time)];
    }

    /** Visits the set in some order, of which the caller learns no more than that. */
    method UpdateFor(sockets: set<int>, time: int) returns (ghost order: seq<int>)
      requires Valid() && now <= time
      modifies this, timestamps
      ensures Valid() && now == if sockets == {} then old(now) else time
      ensures Lists(order, sockets) && ops == old(ops) + Activities(order, time)
      ensures Noted(old(ops), ops, order, time)
    {
      order := [];
      var rest := sockets;
      assert Lists([], sockets - sockets);
      OneMoreOp(ops, [], 0, time);
      hide *;
      while rest != {}
        invariant rest <= sockets && now <= time && Valid()
        invariant now == if rest == sockets then old(now) else time
        invariant Lists(order, sockets - rest) && ops == old(ops) + Activities(order, time)
        decreases rest
      {
        Inhabited(rest);
        var s :| s in rest;
        UpdateSingle(s, time);
        ListsMore(order, sockets, rest, s);
        OneMoreOp(old(ops), order, s, time);
        rest, order := rest - {s}, order + [s];
      }
      ListsAll(order, sockets);
      OpsAt(old(ops), order, time);
    }

    method Remove(sockets: set<int>) returns (ghost order: seq<int>)
      requires Valid()
      modifies this, timestamps
      ensures Valid() && now == old(now)
      ensures Lists(order, sockets) && ops == old(ops) + Removals(order)
      ensures Forgotten(old(ops), ops, order)
    {
      order := [];
      var rest := sockets;
      assert Lists([], sockets - sockets);
      OneMoreOp(ops, [], 0, 0);
      hide *;
      while rest != {}
        invariant rest <= sockets && now == old(now) && Valid()
        invariant Lists(order, sockets - rest) && ops == old(ops) + Removals(order)
        decreases rest
      {
        Inhabited(rest);
        var s :| s in rest;
        RemoveSingle(s);
        ListsMore(order, sockets, rest, s);
        OneMoreOp(old(ops), order, s, 0);
        rest, order := rest - {s}, order + [s];
      }
      ListsAll(order, sockets);
      OpsAt(old(ops), order, 0);
    }

    method RemoveSingle(socket: int)
      requires Valid()
      modifies this, timestamps
      ensures Valid() && now == old(now) && ops == old(ops) + [OrderedHashSets.Remove(socket)]
    {
      RecordedMore(ops, OrderedHashSets.Remove(socket), timestamps.supplied, now, now);
      hide SortedByTime, NotAfter, Recorded;
      timestamps.Remove(socket);
      ops := ops + [OrderedHashSets.Remove(socket)];
    }

    /** Over whatever was called before: the scan, which stops at the first recent entry, selects exactly the
        sockets whose latest activity is old and that were not removed since; or, while new keys are not stored in
        the map, those with any old activity. */
    method GetSocketsLessThanTimestamp(now: int, timeout: int) returns (sockets: set<int>)
      requires Valid()
      ensures sockets == Stale(Contents(), now, timeout)
      ensures forall s :: s in sockets <==>
                if timestamps.supplied then LatestOld(ops, s, now, timeout) else EverOld(ops, s, now, timeout)
    {
      sockets := SelectStale(now, timeout);
      forall s
        ensures s in sockets <==>
                  if timestamps.supplied then LatestOld(ops, s, now, timeout) else EverOld(ops, s, now, timeout)
      {
        ScanFindsLatestOld(ops, s, now, timeout);
        LiteralScanFindsEverOld(ops, s, now, timeout);
      }
    }

    method SelectStale(now: int, timeout: int) returns (sockets: set<int>)
      requires Valid()
      ensures sockets == Stale(Contents(), now, timeout)
    {
      sockets := {};
      ghost var es := Contents();
      assert |es| == |timestamps.list| && forall i :: 0 <= i < |es| ==> timestamps.list[i].entry == es[i];
      assert Stale(es[..0], now, timeout) == {};
      hide Stale;
      for i := 0 to |timestamps.list|
        invariant sockets == Stale(es[..i], now, timeout)
      {
        var e := timestamps.list[i].entry;
        if now - e.value < timeout {
          RestIsRecent(es, i, now, timeout);
          return;
        }
        StaleMore(es, i, now, timeout);
        sockets := sockets + {e.key};
      }
      assert es[..|es|] == es;
    }
  }

  lemma StaleMore(es: seq<Stamp>, i: nat, now: int, timeout: int)
    requires i < |es| && now - es[i].value >= timeout
    ensures Stale(es[..i + 1], now, timeout) == Stale(es[..i], now, timeout) + {es[i].key}
  {
    assert es[..i + 1] == es[..i] + [es[i]];
  }

  lemma RestIsRecent(es: seq<Stamp>, i: nat, now: int, timeout: int)
    requires SortedByTime(es) && i < |es| && now - es[i].value < timeout
    ensures Stale(es, now, timeout) == Stale(es[..i], now, timeout)
  {
    forall e | e in es && now - e.value >= timeout
      ensures e in es[..i]
    {
      var k :| 0 <= k < |es| && es[k] == e;
      assert es[..i][k] == e;
    }
  }

  // ---- what the scan means over a whole history ---------------------------------------------

  /** Some recorded activity of the socket is at least timeout old. */
  ghost predicate EverOld(ops: seq<Op<int, int>>, socket: int, now: int, timeout: int) {
    exists i :: 0 <= i < |ops| && ops[i].Insert? && ops[i].key == socket && now - ops[i].value >= timeout
  }

  /** The last thing that happened to the socket is an activity that is at least timeout old. */
  ghost predicate LatestOld(ops: seq<Op<int, int>>, socket: int, now: int, timeout: int) {
    var last := LastOp(ops, socket);
    last >= 0 && ops[last].Insert? && now - ops[last].value >= timeout
  }

  lemma ScanFindsLatestOld(ops: seq<Op<int, int>>, socket: int, now: int, timeout: int)
    ensures socket in Stale(Intended(ops), now, timeout) <==> LatestOld(ops, socket, now, timeout)
  {
    IntendedOrder(ops);
    var last := LastOp(ops, socket);
    if LatestOld(ops, socket, now, timeout) {
      assert LastInserted(ops, Entry(socket, ops[last].value));
    }
  }

  lemma {:induction false} LiteralHolds(ops: seq<Op<int, int>>, e: Stamp)
    ensures e in Literal(ops) <==> exists i :: 0 <= i < |ops| && ops[i] == Insert(e.key, e.value)
  {
    if ops == [] {
    } else {
      var n := |ops| - 1;
      LiteralHolds(ops[..n], e);
      if i :| 0 <= i < |ops| && ops[i] == Insert(e.key, e.value) {
        if i < n {
          assert ops[..n][i] == ops[i];
        }
      }
    }
  }

  /** The code as written also selects sockets that were active again or removed since. */
  lemma LiteralScanFindsEverOld(ops: seq<Op<int, int>>, socket: int, now: int, timeout: int)
    ensures socket in Stale(Literal(ops), now, timeout) <==> EverOld(ops, socket, now, timeout)
  {
    if socket in Stale(Literal(ops), now, timeout) {
      var e :| e in Literal(ops) && now - e.value >= timeout && e.key == socket;
      LiteralHolds(ops, e);
    }
    if EverOld(ops, socket, now, timeout) {
      var i :| 0 <= i < |ops| && ops[i].Insert? && ops[i].key == socket && now - ops[i].value >= timeout;
      LiteralHolds(ops, Entry(socket, ops[i].value));
    }
  }

  /** A socket that was active this very second, and one that was closed, are both selected. */
  lemma LiteralScanSelectsTheActive()
    ensures var ops := [Insert(5, 0), Insert(6, 0), Insert(5, 100), Remove(6)];
            && Stale(Literal(ops), 100, 10) == {5, 6}
            && Stale(Intended(ops), 100, 10) == {}
  {
    var ops: seq<Op<int, int>> := [Insert(5, 0), Insert(6, 0), Insert(5, 100), Remove(6)];
    assert LastOp(ops, 6) == 3 && LastOp(ops[..3], 5) == 2 && LastOp(ops, 5) == 2;
    assert ops[0].Insert? && ops[1].Insert?;
    forall s
      ensures s in Stale(Literal(ops), 100, 10) <==> s in {5, 6}
      ensures s !in Stale(Intended(ops), 100, 10)
    {
      LiteralScanFindsEverOld(ops, s, 100, 10);
      ScanFindsLatestOld(ops, s, 100, 10);
      assert EverOld(ops, s, 100, 10) <==> s == 5 || s == 6;
      var last := LastOp(ops, s);
      assert last == -1 || last == 0 || last == 1 || last == 2 || last == 3;
    }
  }
}
