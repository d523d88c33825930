/** What the balancer's loads have to do with the clients the shards really have. */
module Accounting {
  import opened MapSums
  import opened Packets
  import opened Priorities
  import opened Ownership
  import opened ServerSteps

  ghost function Weights(clients: map<int, Client>): map<int, int> {
    map socket <- clients :: clients[socket].weight
  }

  /** The summed DeadlineMaxCount of a shard's clients. */
  ghost function Weight(clients: map<int, Client>): int {
    Sum(Weights(clients))
  }

  /** What an operation in flight still owes to a shard's load: increments count up, decrements down. */
  function Owes(t: Task, shard: nat): int {
    match t
    case Adding(_, _, _) => 0
    case Charging(to, weight) => if to == shard then weight else 0
    case Discharging(_, client, from, _, held) => if from == shard && held then 0 - client.weight else 0
  }

  ghost function Owings(tasks: map<nat, Task>, shard: nat): map<int, int> {
    map id <- tasks :: Owes(tasks[id], shard)
  }

  ghost function Owed(tasks: map<nat, Task>, shard: nat): int {
    Sum(Owings(tasks, shard))
  }

  /** The load of a shard, with what is pending, is the weight of its clients plus its drift. */
  ghost predicate AccountedAt(s: State, i: nat)
    requires Wf(s) && i < |s.shards|
  {
    s.loads.sizes[i] + Owed(s.tasks, i) == Weight(s.shards[i]) + s.drift[i]
  }

  ghost predicate Accounted(s: State)
    requires Wf(s)
  {
    forall i :: 0 <= i < |s.shards| ==> AccountedAt(s, i)
  }

  lemma WeightUpdate(clients: map<int, Client>, socket: int, c: Client)
    ensures Weight(clients[socket := c])
         == Weight(clients) + c.weight - if socket in clients then clients[socket].weight else 0
  {
    assert Weights(clients[socket := c]) == Weights(clients)[socket := c.weight];
    SumUpdate(Weights(clients), socket, c.weight);
  }

  lemma WeightWithout(clients: map<int, Client>, socket: int)
    requires socket in clients
    ensures Weight(clients - {socket}) == Weight(clients) - clients[socket].weight
    ensures clients[socket].weight <= Weight(clients)
  {
    assert Weights(clients - {socket}) == Weights(clients) - {socket};
    SumWithout(Weights(clients), socket);
    assert forall k <- Weights(clients) :: Weights(clients)[k] >= 0;
    SumAtLeast(Weights(clients), socket);
  }

  lemma OwedUpdate(tasks: map<nat, Task>, id: nat, t: Task, shard: nat)
    ensures Owed(tasks[id := t], shard)
         == Owed(tasks, shard) + Owes(t, shard) - if id in tasks then Owes(tasks[id], shard) else 0
  {
    assert Owings(tasks[id := t], shard) == Owings(tasks, shard)[id := Owes(t, shard)];
    SumUpdate(Owings(tasks, shard), id, Owes(t, shard));
  }

  lemma OwedWithout(tasks: map<nat, Task>, id: nat, shard: nat)
    requires id in tasks
    ensures Owed(tasks - {id}, shard) == Owed(tasks, shard) - Owes(tasks[id], shard)
  {
    assert Owings(tasks - {id}, shard) == Owings(tasks, shard) - {id};
    SumWithout(Owings(tasks, shard), id);
  }

  lemma MigrationStepAt(s: State, l: Label, i: nat)
    requires Wf(s) && Enabled(s, l) && i < |s.shards| && AccountedAt(s, i)
    requires l.Remove? || l.Discharge?
    ensures Wf(Next(s, l)) && AccountedAt(Next(s, l), i)
  {
    NextWf(s, l);
    var s' := Next(s, l);
    hide Sum, Weight, Owed;
    OwedUpdate(s.tasks, l.id, s'.tasks[l.id], i);
    if l.Remove? && s.shards[l.from] != map[] {
      WeightWithout(s.shards[l.from], l.socket);
    }
  }

  lemma AdditionStepAt(s: State, l: Label, i: nat)
    requires Wf(s) && Enabled(s, l) && i < |s.shards| && AccountedAt(s, i)
    requires l.Accept? || l.Insert? || l.Charge?
    ensures Wf(Next(s, l)) && AccountedAt(Next(s, l), i)
  {
    NextWf(s, l);
    var s' := Next(s, l);
    hide Sum, Weight, Owed;
    if l.Charge? {
      OwedWithout(s.tasks, l.id, i);
    } else {
      OwedUpdate(s.tasks, l.id, s'.tasks[l.id], i);
      if l.Insert? {
        WeightUpdate(s.shards[i], s.tasks[l.id].socket, s.tasks[l.id].client);
      }
    }
  }

  lemma ClientStepAt(s: State, l: Label, i: nat)
    requires Wf(s) && Enabled(s, l) && i < |s.shards| && AccountedAt(s, i)
    requires l.CloseOne? || l.Parse? || l.CheckOne?
    ensures Wf(Next(s, l)) && AccountedAt(Next(s, l), i)
  {
    NextWf(s, l);
    var s' := Next(s, l);
    var shard := if l.CheckOne? then s.check.shard else l.shard;
    if l.socket in s.shards[shard] {
      hide Sum, Weight, Owed;
      if l.CloseOne? {
        WeightWithout(s.shards[shard], l.socket);
      } else {
        WeightUpdate(s.shards[shard], l.socket, s'.shards[shard][l.socket]);
        assert s'.shards[shard] == s.shards[shard][l.socket := s'.shards[shard][l.socket]];
      }
    }
  }

  lemma StepKeepsAccounted(s: State, l: Label)
    requires Wf(s) && Enabled(s, l) && Accounted(s)
    ensures Wf(Next(s, l)) && Accounted(Next(s, l))
  {
    NextWf(s, l);
    forall i | 0 <= i < |s.shards|
      ensures AccountedAt(Next(s, l), i)
    {
      assert AccountedAt(s, i);
      match l {
        case Accept(_, _, _, _) => AdditionStepAt(s, l, i);
        case Insert(_) => AdditionStepAt(s, l, i);
        case Charge(_) => AdditionStepAt(s, l, i);
        case Remove(_, _, _, _) => MigrationStepAt(s, l, i);
        case Discharge(_) => MigrationStepAt(s, l, i);
        case CloseOne(_, _) => ClientStepAt(s, l, i);
        case Parse(_, _, _) => ClientStepAt(s, l, i);
        case CheckOne(_) => ClientStepAt(s, l, i);
        case _ =>
      }
    }
  }

  /** In every run, however additions, closes and migrations interleave. */
  lemma {:induction false} RunKeepsAccounted(s: State, ls: seq<Label>)
    requires Wf(s) && CanRun(s, ls) && Accounted(s)
    ensures Accounted(Run(s, ls))
    decreases |ls|
  {
    if ls == [] {
    } else {
      StepKeepsAccounted(s, ls[0]);
      RunKeepsAccounted(Next(s, ls[0]), ls[1..]);
    }
  }

  lemma InitAccounted(n: nat)
    requires 0 < n
    ensures Accounted(Init(n))
  {
    forall i | 0 <= i < n
      ensures AccountedAt(Init(n), i)
    {
      assert Weights(Init(n).shards[i]).Keys == {} && Owings(Init(n).tasks, i).Keys == {};
    }
  }

  lemma ServerKeepsAccounted(n: nat, ls: seq<Label>)
    requires 0 < n && CanRun(Init(n), ls)
    ensures Accounted(Run(Init(n), ls))
  {
    InitAccounted(n);
    RunKeepsAccounted(Init(n), ls);
  }

  // ---- exactly when the books stay balanced -------------------------------------------------

  /** Every load, with what is pending, is the weight of the shard's clients. */
  ghost predicate Balanced(s: State)
    requires Wf(s)
  {
    forall i :: 0 <= i < |s.shards| ==> s.loads.sizes[i] + Owed(s.tasks, i) == Weight(s.shards[i])
  }

  /** Throughout a run. */
  ghost predicate StaysBalanced(s: State, ls: seq<Label>)
    requires Wf(s) && CanRun(s, ls)
    decreases |ls|
  {
    Balanced(s) && (ls == [] || (NextWf(s, ls[0]); StaysBalanced(Next(s, ls[0]), ls[1..])))
  }

  /** The three things that upset them; each can be told before the step. An insertion finds the socket there and
      leaves the map alone; decPriority drops a decrement that the load does not cover; the weight of a made-up
      client is subtracted from a load that does cover it. */
  ghost predicate Drifts(s: State, l: Label)
    requires Wf(s) && Enabled(s, l)
  {
    match l
    case Insert(id) => s.tasks[id].socket in s.shards[s.tasks[id].to] && s.tasks[id].client.weight > 0
    case Discharge(id) =>
      var t := s.tasks[id];
      && t.client.weight > 0
      && (if t.held then s.loads.sizes[t.from] < t.client.weight else s.loads.sizes[t.from] >= t.client.weight)
    case CloseOne(shard, socket) =>
      socket in s.shards[shard] && s.loads.sizes[shard] < s.shards[shard][socket].weight
    case _ => false
  }

  ghost predicate NeverDrifts(s: State, ls: seq<Label>)
    requires Wf(s) && CanRun(s, ls)
    decreases |ls|
  {
    ls == [] || (!Drifts(s, ls[0]) && (NextWf(s, ls[0]); NeverDrifts(Next(s, ls[0]), ls[1..])))
  }

  ghost predicate NoDrift(s: State) {
    forall i :: 0 <= i < |s.drift| ==> s.drift[i] == 0
  }

  lemma BalancedIff(s: State)
    requires Wf(s) && Accounted(s)
    ensures Balanced(s) <==> NoDrift(s)
  {
    hide Owed, Weight;
    forall i | 0 <= i < |s.shards|
      ensures s.loads.sizes[i] + Owed(s.tasks, i) == Weight(s.shards[i]) + s.drift[i]
    {
      assert AccountedAt(s, i);
    }
  }

  lemma DriftChangesIff(s: State, l: Label)
    requires Wf(s) && Enabled(s, l) && NoDrift(s)
    ensures NoDrift(Next(s, l)) <==> !Drifts(s, l)
  {
    var s' := Next(s, l);
    assert |s'.drift| == |s.drift|;
    if Drifts(s, l) {
      var i := match l case Insert(id) => s.tasks[id].to case Discharge(id) => s.tasks[id].from
                       case CloseOne(shard, _) => shard case _ => 0;
      assert s'.drift[i] != 0;
    }
    hide FlagAfter, Inc, Dec, QueuedAll;
  }

  lemma {:induction false} StaysBalancedIff(s: State, ls: seq<Label>)
    requires Wf(s) && CanRun(s, ls) && Accounted(s) && NoDrift(s)
    ensures StaysBalanced(s, ls) <==> NeverDrifts(s, ls)
    decreases |ls|
  {
    BalancedIff(s);
    if ls == [] {
    } else {
      StepKeepsAccounted(s, ls[0]);
      DriftChangesIff(s, ls[0]);
      var s' := Next(s, ls[0]);
      hide Accounted, Balanced, Drifts, NoDrift, Next, Enabled, Wf;
      if NoDrift(s') {
        StaysBalancedIff(s', ls[1..]);
      } else {
        BalancedIff(s');
      }
    }
  }

  /** However the steps interleave, the books balance throughout a run exactly if none of its steps is, where it
      is taken, one of the three. */
  lemma ServerStaysBalancedIff(n: nat, ls: seq<Label>)
    requires 0 < n && CanRun(Init(n), ls)
    ensures StaysBalanced(Init(n), ls) <==> NeverDrifts(Init(n), ls)
  {
    InitAccounted(n);
    StaysBalancedIff(Init(n), ls);
  }

  /** A client that was put into a shard whose load is to be charged for it. */
  function Uncharged(): State {
    State([map[7 := Client(5, false)]], Loads([0], 0, 0), map[0 := Charging(0, 5)], {7}, [{}], [], [0], Idle, [])
  }

  lemma UnchargedRuns()
    ensures var ls := [Accept(0, 7, 5, 0), Insert(0)];
            CanRun(Init(1), ls) && Run(Init(1), ls) == Uncharged()
  {
    RunTwo(Init(1), Accept(0, 7, 5, 0), Insert(0));
  }

  lemma ClosedUncharged()
    ensures var ls := [Poll(0, 7), CloseOne(0, 7)];
            Wf(Uncharged()) && CanRun(Uncharged(), ls)
            && Run(Uncharged(), ls) == Uncharged().(shards := [map[]], closed := [7], drift := [5])
  {
    var s := Uncharged();
    RunTwo(s, Poll(0, 7), CloseOne(0, 7));
    var none: set<int> := {};
    assert none + {7} - {7} == none && s.shards[0] - {7} == map[];
    hide Run, CanRun;
  }

  lemma ChargedLate()
    ensures var s := Uncharged().(shards := [map[]], closed := [7], drift := [5]);
            Wf(s) && CanRun(s, [Charge(0)])
            && Run(s, [Charge(0)]).shards == s.shards && Run(s, [Charge(0)]).loads.sizes == [5]
            && Run(s, [Charge(0)]).tasks == map[] && Run(s, [Charge(0)]).closed == s.closed
  {
    var s := Uncharged().(shards := [map[]], closed := [7], drift := [5]);
    NextWf(s, Charge(0));
    RunsStepwise(s, [Charge(0)], [s, Next(s, Charge(0))]);
  }

  /** It does happen: a client is closed between its insertion and the increment of the load. The decrement is
      dropped, and the shard ends up empty with the load of the client. */
  lemma ClosedTooSoon()
    ensures var ls := [Accept(0, 7, 5, 0), Insert(0)] + [Poll(0, 7), CloseOne(0, 7)] + [Charge(0)];
            && CanRun(Init(1), ls)
            && Run(Init(1), ls).shards == [map[]] && Run(Init(1), ls).loads.sizes == [5]
            && Run(Init(1), ls).tasks == map[] && Run(Init(1), ls).closed == [7]
  {
    var a, b := [Accept(0, 7, 5, 0), Insert(0)], [Poll(0, 7), CloseOne(0, 7)];
    hide *;
    UnchargedRuns();
    ClosedUncharged();
    ChargedLate();
    RunConcat(Init(1), a, b);
    RunConcat(Init(1), a + b, [Charge(0)]);
  }

  /** With nothing in flight and no drift, a load is exactly the weight of the shard's clients. */
  ghost predicate Exact(s: State)
    requires Wf(s)
  {
    s.tasks == map[] && forall i :: 0 <= i < |s.shards| ==> s.loads.sizes[i] == Weight(s.shards[i])
  }

  lemma ExactIff(s: State)
    requires Wf(s) && Accounted(s) && s.tasks == map[]
    ensures Exact(s) <==> forall i :: 0 <= i < |s.shards| ==> s.drift[i] == 0
  {
    forall i | 0 <= i < |s.shards|
      ensures s.loads.sizes[i] == Weight(s.shards[i]) + s.drift[i]
    {
      assert AccountedAt(s, i);
      assert Owings(s.tasks, i).Keys == {};
    }
  }
}
