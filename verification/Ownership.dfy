/** Every accepted socket is in exactly one place at all times, and is closed at most once. */
module Ownership {
  import opened Bytes
  import opened Packets
  import opened Priorities
  import opened ServerSteps

  datatype Place = InShard(shard: nat) | InTask(id: nat) | ClosedAs(n: nat)

  ghost predicate Carries(t: Task, socket: int) {
    !t.Charging? && t.socket == socket
  }

  ghost predicate At(s: State, p: Place, socket: int) {
    match p
    case InShard(i) => i < |s.shards| && socket in s.shards[i]
    case InTask(id) => id in s.tasks && Carries(s.tasks[id], socket)
    case ClosedAs(n) => n < |s.closed| && s.closed[n] == socket
  }

  ghost predicate OnlyAccepted(s: State) {
    forall p, socket :: At(s, p, socket) && socket >= 0 ==> socket in s.accepted
  }

  ghost predicate AtMostOnePlace(s: State) {
    forall p, q, socket :: At(s, p, socket) && At(s, q, socket) && socket >= 0 ==> p == q
  }

  ghost predicate SomePlace(s: State) {
    forall socket <- s.accepted :: exists p :: At(s, p, socket)
  }

  ghost predicate Owned(s: State) {
    OnlyAccepted(s) && AtMostOnePlace(s) && SomePlace(s) && forall socket <- s.accepted :: socket >= 0
  }

  /** Where a socket that is at p goes in a step. */
  ghost function Moved(s: State, l: Label, p: Place, socket: int): Place
    requires Wf(s) && Enabled(s, l)
  {
    match l
    case Insert(id) => if p == InTask(id) then InShard(s.tasks[id].to) else p
    case Remove(id, from, chosen, _) =>
      if p == InShard(from) && socket == chosen && s.shards[from] != map[] then InTask(id) else p
    case CloseOne(shard, chosen) =>
      if p == InShard(shard) && socket == chosen then ClosedAs(|s.closed|) else p
    case _ => p
  }

  /** A step moves what is there and, apart from an accept, brings nothing in. */
  lemma StepMoves(s: State, l: Label, p: Place, socket: int)
    requires Wf(s) && Enabled(s, l) && At(s, p, socket)
    ensures At(Next(s, l), Moved(s, l, p, socket), socket)
  {
  }

  /** Where a socket that is at q after a step came from. */
  ghost function Origin(s: State, l: Label, q: Place, socket: int): Place
    requires Wf(s) && Enabled(s, l)
  {
    match l
    case Insert(id) =>
      if q == InShard(s.tasks[id].to) && socket == s.tasks[id].socket && socket !in s.shards[s.tasks[id].to]
      then InTask(id) else q
    case Remove(id, from, _, _) => if q == InTask(id) then InShard(from) else q
    case CloseOne(shard, _) => if q == ClosedAs(|s.closed|) then InShard(shard) else q
    case _ => q
  }

  lemma StepOrigin(s: State, l: Label, q: Place, socket: int)
    requires Wf(s) && Enabled(s, l) && At(Next(s, l), q, socket) && socket >= 0
    requires !(l.Accept? && q == InTask(l.id))
    ensures At(s, Origin(s, l, q, socket), socket)
    ensures Moved(s, l, Origin(s, l, q, socket), socket) == q
  {
  }

  lemma StepKeepsOwned(s: State, l: Label)
    requires Wf(s) && Enabled(s, l) && Owned(s)
    ensures Owned(Next(s, l))
  {
    var s' := Next(s, l);
    forall p, q, socket | At(s', p, socket) && At(s', q, socket) && socket >= 0
      ensures p == q && socket in s'.accepted
    {
      if l.Accept? && socket == l.socket {
        assert p == InTask(l.id) && q == InTask(l.id) by {
          AcceptIsNew(s, l, p, socket);
          AcceptIsNew(s, l, q, socket);
        }
      } else {
        StepOrigin(s, l, p, socket);
        StepOrigin(s, l, q, socket);
      }
    }
    forall socket | socket in s'.accepted
      ensures exists p :: At(s', p, socket)
    {
      if socket in s.accepted {
        var p :| At(s, p, socket);
        StepMoves(s, l, p, socket);
      } else {
        assert At(s', InTask(l.id), socket);
      }
    }
  }

  lemma AcceptIsNew(s: State, l: Label, p: Place, socket: int)
    requires Wf(s) && Enabled(s, l) && Owned(s) && l.Accept? && socket == l.socket
    requires At(Next(s, l), p, socket)
    ensures p == InTask(l.id)
  {
    if p != InTask(l.id) {
      StepOrigin(s, l, p, socket);
      assert false;
    }
  }

  /** Over every run, whatever interleaves: each accepted socket is with exactly one owner, which is a
      shard, an addition or migration in flight, or the one ::close that ended it. */
  lemma {:induction false} RunKeepsOwned(s: State, ls: seq<Label>)
    requires Wf(s) && CanRun(s, ls) && Owned(s)
    ensures Owned(Run(s, ls))
    decreases |ls|
  {
    if ls == [] {
    } else {
      NextWf(s, ls[0]);
      StepKeepsOwned(s, ls[0]);
      RunKeepsOwned(Next(s, ls[0]), ls[1..]);
    }
  }

  lemma ServerKeepsOwned(n: nat, ls: seq<Label>)
    requires 0 < n && CanRun(Init(n), ls)
    ensures Owned(Run(Init(n), ls))
  {
    RunKeepsOwned(Init(n), ls);
  }

  /** No socket is closed twice. */
  lemma ClosedOnce(s: State, i: nat, j: nat)
    requires Owned(s) && i < |s.closed| && j < |s.closed| && s.closed[i] == s.closed[j] && s.closed[i] >= 0
    ensures i == j
  {
    assert At(s, ClosedAs(i), s.closed[i]) && At(s, ClosedAs(j), s.closed[i]);
  }

  // ---- stale events -------------------------------------------------------------------------

  ghost predicate PutsIn(s: State, l: Label, shard: nat, socket: int)
    requires Wf(s) && Enabled(s, l)
  {
    l.Insert? && s.tasks[l.id].socket == socket && s.tasks[l.id].to == shard
  }

  ghost predicate TakesOut(s: State, l: Label, shard: nat, socket: int)
    requires Wf(s) && Enabled(s, l)
  {
    || (l.Remove? && l.from == shard && l.socket == socket)
    || (l.CloseOne? && l.shard == shard && l.socket == socket)
  }

  /** Nowhere along the run is the socket taken out of the shard. */
  ghost predicate NeverTakenOut(s: State, ls: seq<Label>, shard: nat, socket: int)
    requires Wf(s) && CanRun(s, ls)
    decreases |ls|
  {
    ls == [] || (!TakesOut(s, ls[0], shard, socket)
                 && (NextWf(s, ls[0]); NeverTakenOut(Next(s, ls[0]), ls[1..], shard, socket)))
  }

  /** Somewhere along the run the socket is put into the shard, and it is not taken out after that. */
  ghost predicate LastPutIn(s: State, ls: seq<Label>, shard: nat, socket: int)
    requires Wf(s) && CanRun(s, ls)
    decreases |ls|
  {
    ls != [] && (
      NextWf(s, ls[0]);
      || (PutsIn(s, ls[0], shard, socket) && NeverTakenOut(Next(s, ls[0]), ls[1..], shard, socket))
      || LastPutIn(Next(s, ls[0]), ls[1..], shard, socket))
  }

  lemma StepInShardIff(s: State, l: Label, shard: nat, socket: int)
    requires Wf(s) && Enabled(s, l) && shard < |s.shards|
    ensures socket in Next(s, l).shards[shard]
            <==> PutsIn(s, l, shard, socket) || (socket in s.shards[shard] && !TakesOut(s, l, shard, socket))
  {
  }

  /** Over every run: the shard has the socket exactly if the last that happened to the socket there is that it was
      put in, or if it was there before and never taken out. */
  lemma {:induction false} InShardIff(s: State, ls: seq<Label>, shard: nat, socket: int)
    requires Wf(s) && CanRun(s, ls) && shard < |s.shards|
    ensures socket in Run(s, ls).shards[shard]
            <==> LastPutIn(s, ls, shard, socket) || (socket in s.shards[shard] && NeverTakenOut(s, ls, shard, socket))
    decreases |ls|
  {
    if ls == [] {
    } else {
      NextWf(s, ls[0]);
      StepInShardIff(s, ls[0], shard, socket);
      InShardIff(Next(s, ls[0]), ls[1..], shard, socket);
      hide PutsIn, TakesOut, Next, Enabled, Wf;
    }
  }

  lemma CloseOneIs(s: State, shard: nat, socket: int)
    requires Wf(s) && Enabled(s, CloseOne(shard, socket))
    ensures Next(s, CloseOne(shard, socket)).closed == s.closed + if socket in s.shards[shard] then [socket] else []
    ensures socket !in s.shards[shard] ==>
              Next(s, CloseOne(shard, socket)) == s.(doomed := s.doomed[shard := s.doomed[shard] - {socket}])
  {
  }

  /** An event of a socket that its shard no longer has dooms the socket there. Whatever is going on until the poll
      thread gets to close: it closes the socket exactly if the socket has come back and not left again, and if it
      has not, close changes nothing but its own list. */
  lemma StaleEventClosesIff(s: State, shard: nat, socket: int, ls: seq<Label>)
    requires Wf(s) && shard < |s.shards| && socket !in s.shards[shard]
    requires var polled := Next(s, Poll(shard, socket));
             Wf(polled) && CanRun(polled, ls) && Enabled(Run(polled, ls), CloseOne(shard, socket))
    ensures var polled := Next(s, Poll(shard, socket));
            var s', back := Run(polled, ls), LastPutIn(polled, ls, shard, socket);
            && Next(s', CloseOne(shard, socket)).closed == s'.closed + (if back then [socket] else [])
            && (back || Next(s', CloseOne(shard, socket))
                        == s'.(doomed := s'.doomed[shard := s'.doomed[shard] - {socket}]))
  {
    var polled := Next(s, Poll(shard, socket));
    InShardIff(polled, ls, shard, socket);
    CloseOneIs(Run(polled, ls), shard, socket);
    assert socket !in polled.shards[shard];
    hide LastPutIn, NeverTakenOut, Next, Enabled, Wf, Run, CanRun;
  }

  /** A client is accepted by shard 1 and moves to shard 0. */
  function ThereSteps(): seq<Label> {
    AcceptSteps(0, 7, 5, 1) + MigrateSteps(0, 1, 7, 0)
  }

  lemma ThereRuns()
    ensures CanRun(Init(2), ThereSteps())
    ensures var s := Run(Init(2), ThereSteps());
            && s.shards[0] == map[7 := Client(5, false)] && 7 !in s.shards[1]
            && s.tasks == map[] && s.closed == [] && s.log == [] && s.check.Idle? && |s.shards| == 2
  {
    var s0 := Init(2);
    AcceptRuns(s0, 0, 7, 5, 1);
    var s1 := Run(s0, AcceptSteps(0, 7, 5, 1));
    hide AcceptSteps, MigrateSteps, Inc, Dec, Run, CanRun, Next;
    assert s1.shards[0] == map[] && s1.shards[1] == map[7 := Client(5, false)];
    MigrateRuns(s1, 0, 1, 7, 0);
    RunConcat(s0, AcceptSteps(0, 7, 5, 1), MigrateSteps(0, 1, 7, 0));
  }

  /** That client is on its way back to shard 1. */
  lemma ComingBack()
    ensures var ls := ThereSteps() + [Remove(0, 0, 7, 1), Discharge(0)];
            && CanRun(Init(2), ls)
            && var s := Run(Init(2), ls);
            && s.tasks == map[0 := Adding(7, Client(5, false), 1)] && |s.shards| == 2
            && 7 !in s.shards[0] && 7 !in s.shards[1] && s.closed == []
  {
    ThereRuns();
    var s := Run(Init(2), ThereSteps());
    hide ThereSteps, Init, Inc, Dec, Run, CanRun, Next;
    TakeRuns(s, 0, 0, 7, 1);
    RunConcat(Init(2), ThereSteps(), [Remove(0, 0, 7, 1), Discharge(0)]);
  }

  lemma BackAndClosed(s: State, id: nat)
    requires Wf(s) && id in s.tasks && s.tasks[id].Adding? && s.tasks[id].socket !in s.shards[s.tasks[id].to]
    ensures var socket, shard := s.tasks[id].socket, s.tasks[id].to;
            var ls := [Poll(shard, socket), Insert(id)] + [CloseOne(shard, socket)];
            CanRun(s, ls) && Run(s, ls).closed == s.closed + [socket]
  {
    var socket, shard := s.tasks[id].socket, s.tasks[id].to;
    var back, close := [Poll(shard, socket), Insert(id)], CloseOne(shard, socket);
    RunTwo(s, back[0], back[1]);
    var s' := Run(s, back);
    assert s'.closed == s.closed && socket in s'.shards[shard] && Enabled(s', close);
    NextWf(s', close);
    CloseOneIs(s', shard, socket);
    hide Next, Enabled, Wf;
    RunsStepwise(s', [close], [s', Next(s', close)]);
    RunConcat(s, back, [close]);
  }

  /** So a live client can be closed by an event from before it left: a stale event of shard 1 on the way, the
      insertion, and the close. */
  lemma StaleEventClosesReturned()
    ensures var ls := ThereSteps() + [Remove(0, 0, 7, 1), Discharge(0)]
                      + ([Poll(1, 7), Insert(0)] + [CloseOne(1, 7)]);
            CanRun(Init(2), ls) && Run(Init(2), ls).closed == [7]
  {
    var there := ThereSteps() + [Remove(0, 0, 7, 1), Discharge(0)];
    ComingBack();
    hide ThereSteps, Init, Run, CanRun, Next;
    BackAndClosed(Run(Init(2), there), 0);
    RunConcat(Init(2), there, [Poll(1, 7), Insert(0)] + [CloseOne(1, 7)]);
  }
}
