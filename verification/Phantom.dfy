/** Runs of the operations that the shards' locks do not split: a client is taken with its decrement, and put with
    its increment. What is left to go wrong is the client that is made up for an empty shard. */
module Phantoms {
  import opened Iteration
  import opened MapSums
  import opened Priorities
  import opened Ownership
  import opened Accounting
  import opened ServerSteps

  /** RemoveOldestClientAndReturn and Add of a shard, and any step that is not part of them. A client that was
      taken, or accepted, and not put yet is the task id. */
  datatype Whole =
    | Take(id: nat, from: nat, socket: int, to: nat)
    | Put(id: nat)
    | Single(step: Label)

  predicate StandsAlone(l: Label) {
    !l.Insert? && !l.Charge? && !l.Remove? && !l.Discharge?
  }

  /** No operation is half done; clients may be in the hands of those that are going to put them. */
  ghost predicate Quiet(s: State) {
    Wf(s) && forall id <- s.tasks :: s.tasks[id].Adding?
  }

  ghost predicate Can(s: State, op: Whole)
    requires Quiet(s)
  {
    match op
    case Take(id, from, socket, to) => Enabled(s, Remove(id, from, socket, to))
    case Put(id) => Enabled(s, Insert(id))
    case Single(l) => StandsAlone(l) && Enabled(s, l)
  }

  function Labels(op: Whole): seq<Label> {
    match op
    case Take(id, from, socket, to) => [Remove(id, from, socket, to), Discharge(id)]
    case Put(id) => [Insert(id), Charge(id)]
    case Single(l) => [l]
  }

  ghost function Done(s: State, op: Whole): State
    requires Quiet(s) && Can(s, op)
  {
    match op
    case Take(id, from, socket, to) => Next(Next(s, Remove(id, from, socket, to)), Discharge(id))
    case Put(id) => Next(Next(s, Insert(id)), Charge(id))
    case Single(l) => Next(s, l)
  }

  lemma DoneQuiet(s: State, op: Whole)
    requires Quiet(s) && Can(s, op)
    ensures Quiet(Done(s, op)) && |Done(s, op).shards| == |s.shards|
  {
    hide Inc, Dec, FlagAfter, QueuedAll;
    match op
    case Take(id, from, socket, to) =>
      NextWf(s, Remove(id, from, socket, to));
      NextWf(Next(s, Remove(id, from, socket, to)), Discharge(id));
      hide Wf;
    case Put(id) =>
      NextWf(s, Insert(id));
      NextWf(Next(s, Insert(id)), Charge(id));
      hide Wf;
    case Single(l) =>
      NextWf(s, l);
      hide Wf;
  }

  lemma DoneRuns(s: State, op: Whole)
    requires Quiet(s) && Can(s, op)
    ensures CanRun(s, Labels(op)) && Run(s, Labels(op)) == Done(s, op)
  {
    match op
    case Take(id, from, socket, to) => RunTwo(s, Remove(id, from, socket, to), Discharge(id));
    case Put(id) => RunTwo(s, Insert(id), Charge(id));
    case Single(l) =>
      NextWf(s, l);
      RunsStepwise(s, [l], [s, Next(s, l)]);
  }

  ghost predicate CanAll(s: State, ops: seq<Whole>)
    requires Quiet(s)
    decreases |ops|
  {
    ops == [] || (Can(s, ops[0]) && (DoneQuiet(s, ops[0]); CanAll(Done(s, ops[0]), ops[1..])))
  }

  ghost function DoneAll(s: State, ops: seq<Whole>): (s': State)
    requires Quiet(s) && CanAll(s, ops)
    ensures Quiet(s')
    decreases |ops|
  {
    if ops == [] then s
    else
      DoneQuiet(s, ops[0]);
      DoneAll(Done(s, ops[0]), ops[1..])
  }

  // ---- the loads are the weights ------------------------------------------------------------

  ghost predicate LoadsAreWeights(s: State)
    requires Wf(s)
  {
    forall i :: 0 <= i < |s.shards| ==> s.loads.sizes[i] == Weight(s.shards[i])
  }

  /** Every client that is nobody's is the one that was made up. */
  ghost predicate MadeUp(s: State) {
    && (forall i, k :: 0 <= i < |s.shards| && k in s.shards[i] ==>
          k >= 0 || (k == PHANTOM && s.shards[i][k].weight == PHANTOM_WEIGHT))
    && forall id <- s.tasks :: !s.tasks[id].Charging? ==>
         s.tasks[id].socket >= 0 || (s.tasks[id].socket == PHANTOM && s.tasks[id].client.weight == PHANTOM_WEIGHT)
  }

  /** A made-up client is put where another one is already. */
  ghost predicate PhantomsMeet(s: State, op: Whole)
    requires Quiet(s) && Can(s, op)
  {
    op.Put? && s.tasks[op.id].socket == PHANTOM && PHANTOM in s.shards[s.tasks[op.id].to]
  }

  lemma NextMadeUp(s: State, l: Label)
    requires Wf(s) && Enabled(s, l) && MadeUp(s)
    ensures MadeUp(Next(s, l))
  {
    hide Inc, Dec, FlagAfter, QueuedAll;
  }

  lemma DoneOwned(s: State, op: Whole)
    requires Quiet(s) && Can(s, op) && Owned(s)
    ensures Owned(Done(s, op))
  {
    DoneRuns(s, op);
    hide Done, Can, Owned, Labels;
    RunKeepsOwned(s, Labels(op));
  }

  lemma DoneMadeUp(s: State, op: Whole)
    requires Quiet(s) && Can(s, op) && MadeUp(s)
    ensures MadeUp(Done(s, op))
  {
    hide MadeUp;
    match op
    case Take(id, from, socket, to) =>
      NextMadeUp(s, Remove(id, from, socket, to));
      NextMadeUp(Next(s, Remove(id, from, socket, to)), Discharge(id));
    case Put(id) =>
      NextMadeUp(s, Insert(id));
      NextMadeUp(Next(s, Insert(id)), Charge(id));
    case Single(l) => NextMadeUp(s, l);
  }

  lemma TakeKeepsLoads(s: State, op: Whole)
    requires Quiet(s) && Can(s, op) && LoadsAreWeights(s) && op.Take?
    ensures Wf(Done(s, op)) && LoadsAreWeights(Done(s, op))
    ensures s.shards[op.from] == map[] ==> Done(s, op).loads == s.loads
  {
    DoneQuiet(s, op);
    var from, s' := op.from, Done(s, op);
    if s.shards[from] == map[] {
      assert Weights(s.shards[from]).Keys == {};
    } else {
      WeightWithout(s.shards[from], op.socket);
    }
    hide Weight, Scan;
    assert forall i :: 0 <= i < |s.shards| && i != from ==> s'.shards[i] == s.shards[i];
  }

  lemma PutKeepsLoadsIff(s: State, op: Whole)
    requires Quiet(s) && Can(s, op) && LoadsAreWeights(s) && op.Put? && MadeUp(s) && Owned(s)
    ensures Wf(Done(s, op)) && (LoadsAreWeights(Done(s, op)) <==> !PhantomsMeet(s, op))
  {
    DoneQuiet(s, op);
    var t, s' := s.tasks[op.id], Done(s, op);
    if t.socket in s.shards[t.to] {
      OnlyPhantomsMeet(s, op.id);
    }
    assert t.socket !in s.shards[t.to] ==> Weight(s'.shards[t.to]) == Weight(s.shards[t.to]) + t.client.weight by {
      WeightUpdate(s.shards[t.to], t.socket, t.client);
    }
    hide Weight, Scan, Owned, MadeUp;
    assert forall i :: 0 <= i < |s.shards| && i != t.to ==> s'.shards[i] == s.shards[i];
    assert s'.loads.sizes[t.to] == s.loads.sizes[t.to] + t.client.weight;
  }

  /** An accepted socket is never put where it is already. */
  lemma OnlyPhantomsMeet(s: State, id: nat)
    requires Quiet(s) && MadeUp(s) && Owned(s) && id in s.tasks && s.tasks[id].socket in s.shards[s.tasks[id].to]
    ensures s.tasks[id].socket == PHANTOM && s.tasks[id].client.weight == PHANTOM_WEIGHT
  {
    var t := s.tasks[id];
    assert At(s, InTask(id), t.socket) && At(s, InShard(t.to), t.socket);
  }

  lemma SingleKeepsLoads(s: State, op: Whole)
    requires Quiet(s) && Can(s, op) && LoadsAreWeights(s) && op.Single?
    ensures Wf(Done(s, op)) && LoadsAreWeights(Done(s, op))
  {
    DoneQuiet(s, op);
    var l, s' := op.step, Done(s, op);
    if l.CloseOne? && l.socket in s.shards[l.shard] {
      WeightWithout(s.shards[l.shard], l.socket);
    } else if l.Parse? {
      WeightUpdate(s.shards[l.shard], l.socket, s'.shards[l.shard][l.socket]);
    } else if l.CheckOne? && l.socket in s.shards[s.check.shard] {
      var shard := s.check.shard;
      WeightUpdate(s.shards[shard], l.socket, s'.shards[shard][l.socket]);
      assert s'.shards[shard] == s.shards[shard][l.socket := s'.shards[shard][l.socket]];
    }
    hide Weight, Scan, FlagAfter, QueuedAll;
  }

  /** At all times of a run. */
  ghost predicate StaysExact(s: State, ops: seq<Whole>)
    requires Quiet(s) && CanAll(s, ops)
    decreases |ops|
  {
    LoadsAreWeights(s) && (ops == [] || (DoneQuiet(s, ops[0]); StaysExact(Done(s, ops[0]), ops[1..])))
  }

  ghost predicate PhantomsNeverMeet(s: State, ops: seq<Whole>)
    requires Quiet(s) && CanAll(s, ops)
    decreases |ops|
  {
    ops == [] || (!PhantomsMeet(s, ops[0]) && (DoneQuiet(s, ops[0]); PhantomsNeverMeet(Done(s, ops[0]), ops[1..])))
  }

  lemma {:induction false} StaysExactIff(s: State, ops: seq<Whole>)
    requires Quiet(s) && CanAll(s, ops) && LoadsAreWeights(s) && MadeUp(s) && Owned(s)
    ensures StaysExact(s, ops) <==> PhantomsNeverMeet(s, ops)
    decreases |ops|
  {
    if ops == [] {
      return;
    }
    var op, s' := ops[0], Done(s, ops[0]);
    DoneQuiet(s, op);
    DoneMadeUp(s, op);
    DoneOwned(s, op);
    match op {
      case Take(_, _, _, _) => TakeKeepsLoads(s, op);
      case Put(_) => PutKeepsLoadsIff(s, op);
      case Single(_) => SingleKeepsLoads(s, op);
    }
    assert LoadsAreWeights(s') <==> !PhantomsMeet(s, op);
    hide Quiet, Can, Done, LoadsAreWeights, PhantomsMeet, MadeUp, Owned;
    if LoadsAreWeights(s') {
      StaysExactIff(s', ops[1..]);
    }
  }

  /** Through any run of whole operations the loads are the weights of the shards' clients, throughout, exactly
      if at no time a made-up client is put where another one is. */
  lemma WholeOperationsStayExactIff(n: nat, ops: seq<Whole>)
    requires 0 < n && CanAll(Init(n), ops)
    ensures StaysExact(Init(n), ops) <==> PhantomsNeverMeet(Init(n), ops)
  {
    var s := Init(n);
    forall i | 0 <= i < n
      ensures s.loads.sizes[i] == Weight(s.shards[i])
    {
      assert Weights(s.shards[i]).Keys == {};
    }
    StaysExactIff(s, ops);
  }

  // ---- what taking a made-up client does ----------------------------------------------------

  lemma {:induction false} NothingOwed(tasks: map<nat, Task>, shard: nat)
    requires forall id <- tasks :: tasks[id].Adding?
    ensures Owed(tasks, shard) == 0
    decreases |tasks|
  {
    if tasks == map[] {
      assert Owings(tasks, shard).Keys == {};
    } else {
      Inhabited(tasks.Keys);
      var id :| id in tasks;
      OwedWithout(tasks, id, shard);
      NothingOwed(tasks - {id}, shard);
    }
  }

  /** Taking a client from an empty shard changes the loads exactly if that load has drifted by as much as the
      made-up client weighs. */
  lemma PhantomSubtractsIff(s: State, op: Whole)
    requires Quiet(s) && Can(s, op) && op.Take? && s.shards[op.from] == map[] && Accounted(s)
    ensures Done(s, op).loads != s.loads <==> s.drift[op.from] >= PHANTOM_WEIGHT
    ensures Done(s, op).shards == s.shards
  {
    NothingOwed(s.tasks, op.from);
    assert AccountedAt(s, op.from);
    assert Weights(s.shards[op.from]).Keys == {};
    hide Scan;
  }

  /** Throughout the run, taking from an empty shard leaves all loads alone. */
  ghost predicate PhantomsSubtractNothing(s: State, ops: seq<Whole>)
    requires Quiet(s) && CanAll(s, ops)
    decreases |ops|
  {
    ops == [] || (
      && (ops[0].Take? && s.shards[ops[0].from] == map[] ==> Done(s, ops[0]).loads == s.loads)
      && (DoneQuiet(s, ops[0]); PhantomsSubtractNothing(Done(s, ops[0]), ops[1..])))
  }

  lemma {:induction false} ExactSubtractsNothing(s: State, ops: seq<Whole>)
    requires Quiet(s) && CanAll(s, ops) && StaysExact(s, ops)
    ensures PhantomsSubtractNothing(s, ops)
    decreases |ops|
  {
    if ops == [] {
      return;
    }
    DoneQuiet(s, ops[0]);
    if ops[0].Take? {
      TakeKeepsLoads(s, ops[0]);
    }
    hide Quiet, Can, Done, LoadsAreWeights;
    ExactSubtractsNothing(Done(s, ops[0]), ops[1..]);
  }

  /** As long as no two made-up clients meet, taking them never changes a load. */
  lemma PhantomsAreHarmlessApart(n: nat, ops: seq<Whole>)
    requires 0 < n && CanAll(Init(n), ops) && PhantomsNeverMeet(Init(n), ops)
    ensures PhantomsSubtractNothing(Init(n), ops)
  {
    WholeOperationsStayExactIff(n, ops);
    ExactSubtractsNothing(Init(n), ops);
  }

  // ---- two of them meet ---------------------------------------------------------------------

  const MADE_UP: Client := Client(PHANTOM_WEIGHT, false)

  lemma TakeMadeUp(s: State)
    requires Quiet(s) && s.tasks == map[] && |s.shards| == 2 && s.shards[0] == map[] && s.loads.sizes[0] == 0
    ensures Can(s, Take(0, 0, 0, 1))
    ensures Done(s, Take(0, 0, 0, 1)) == s.(tasks := map[0 := Adding(PHANTOM, MADE_UP, 1)])
  {
    assert s.tasks[0 := Discharging(PHANTOM, MADE_UP, 0, 1, false)][0 := Adding(PHANTOM, MADE_UP, 1)]
        == map[0 := Adding(PHANTOM, MADE_UP, 1)];
  }

  lemma PutMadeUp(s: State)
    requires Quiet(s) && s.tasks == map[0 := Adding(PHANTOM, MADE_UP, 1)] && |s.shards| == 2
    ensures Can(s, Put(0))
    ensures Done(s, Put(0)) == s.(
              tasks := map[], loads := Inc(s.loads, 1, PHANTOM_WEIGHT),
              shards := if PHANTOM in s.shards[1] then s.shards else s.shards[1 := s.shards[1][PHANTOM := MADE_UP]],
              drift := if PHANTOM in s.shards[1] then Bump(s.drift, 1, PHANTOM_WEIGHT) else s.drift)
  {
    assert s.tasks[0 := Charging(1, PHANTOM_WEIGHT)] - {0} == map[];
  }

  /** A made-up client is moved from the empty shard 0 to shard 1. */
  lemma MoveMadeUp(s: State, load: nat)
    requires Quiet(s) && s.tasks == map[] && s.loads.sizes == [0, load]
    requires s.shards == [map[], map[]] || s.shards == [map[], map[PHANTOM := MADE_UP]]
    ensures CanAll(s, [Take(0, 0, 0, 1), Put(0)])
    ensures var s' := DoneAll(s, [Take(0, 0, 0, 1), Put(0)]);
            && s'.tasks == map[] && s'.loads.sizes == [0, load + PHANTOM_WEIGHT]
            && s'.shards == [map[], map[PHANTOM := MADE_UP]]
  {
    TakeMadeUp(s);
    var s1 := Done(s, Take(0, 0, 0, 1));
    DoneQuiet(s, Take(0, 0, 0, 1));
    PutMadeUp(s1);
    DoneQuiet(s1, Put(0));
    hide Can, Done, Quiet, Scan;
    DoneTwo(s, Take(0, 0, 0, 1), Put(0));
  }

  lemma DoneTwo(s: State, a: Whole, b: Whole)
    requires Quiet(s) && Can(s, a) && Quiet(Done(s, a)) && Can(Done(s, a), b)
    ensures CanAll(s, [a, b]) && DoneAll(s, [a, b]) == Done(Done(s, a), b)
  {
    var s1 := Done(s, a);
    var s2 := Done(s1, b);
    DoneQuiet(s1, b);
    hide Can, Done, Quiet;
    assert [a, b][1..] == [b] && [b][1..] == [];
    assert CanAll(s2, []) && DoneAll(s2, []) == s2;
    assert CanAll(s1, [b]) && DoneAll(s1, [b]) == s2;
  }

  lemma {:induction false} DoneConcat(s: State, a: seq<Whole>, b: seq<Whole>)
    requires Quiet(s) && CanAll(s, a) && CanAll(DoneAll(s, a), b)
    ensures CanAll(s, a + b) && DoneAll(s, a + b) == DoneAll(DoneAll(s, a), b)
    decreases |a|
  {
    hide *;
    DoneNone(s);
    if a == [] {
      assert a + b == b;
    } else {
      assert (a + b)[0] == a[0] && (a + b)[1..] == a[1..] + b;
      DoneFirst(s, a);
      DoneConcat(Done(s, a[0]), a[1..], b);
      DoneFirst(s, a + b);
    }
  }

  lemma DoneNone(s: State)
    requires Quiet(s)
    ensures CanAll(s, []) && DoneAll(s, []) == s
  {
  }

  lemma {:induction false} DoneFirst(s: State, ops: seq<Whole>)
    requires Quiet(s) && ops != []
    ensures CanAll(s, ops) <==> Can(s, ops[0]) && Quiet(Done(s, ops[0])) && CanAll(Done(s, ops[0]), ops[1..])
    ensures CanAll(s, ops) ==> DoneAll(s, ops) == DoneAll(Done(s, ops[0]), ops[1..])
  {
    if Can(s, ops[0]) {
      DoneQuiet(s, ops[0]);
    }
    hide Can, Done, Quiet;
  }

  lemma MovedTwice(s: State)
    requires Quiet(s) && s.tasks == map[] && s.loads.sizes == [0, 0] && s.shards == [map[], map[]]
    ensures var twice := [Take(0, 0, 0, 1), Put(0)] + [Take(0, 0, 0, 1), Put(0)];
            && CanAll(s, twice) && DoneAll(s, twice).tasks == map[]
            && DoneAll(s, twice).loads.sizes == [0, 2 * PHANTOM_WEIGHT]
            && DoneAll(s, twice).shards == [map[], map[PHANTOM := MADE_UP]]
  {
    var once := [Take(0, 0, 0, 1), Put(0)];
    hide Done, Can, CanAll, DoneAll, Quiet;
    MoveMadeUp(s, 0);
    MoveMadeUp(DoneAll(s, once), PHANTOM_WEIGHT);
    DoneConcat(s, once, once);
  }

  /** The empty shard 0 is asked for a client twice, and then shard 1 for its one client: it ends up empty with the
      load of a client, which is what another made-up client would subtract. */
  lemma PhantomsDoMeet()
    ensures var twice := [Take(0, 0, 0, 1), Put(0)] + [Take(0, 0, 0, 1), Put(0)];
            && CanAll(Init(2), twice) && CanAll(Init(2), twice + [Take(0, 1, PHANTOM, 0)])
            && DoneAll(Init(2), twice).loads.sizes == [0, 2 * PHANTOM_WEIGHT]
            && DoneAll(Init(2), twice).shards == [map[], map[PHANTOM := MADE_UP]]
            && DoneAll(Init(2), twice + [Take(0, 1, PHANTOM, 0)]).loads.sizes == [0, PHANTOM_WEIGHT]
            && DoneAll(Init(2), twice + [Take(0, 1, PHANTOM, 0)]).shards == [map[], map[]]
  {
    var twice := [Take(0, 0, 0, 1), Put(0)] + [Take(0, 0, 0, 1), Put(0)];
    assert Quiet(Init(2)) && Init(2).loads.sizes == [0, 0] && Init(2).shards == [map[], map[]] && Init(2).tasks == map[];
    hide *;
    MovedTwice(Init(2));
    TakeLast(DoneAll(Init(2), twice));
    DoneConcat(Init(2), twice, [Take(0, 1, PHANTOM, 0)]);
  }

  lemma TakeLast(s: State)
    requires Quiet(s) && s.tasks == map[] && s.loads.sizes == [0, 2 * PHANTOM_WEIGHT]
    requires s.shards == [map[], map[PHANTOM := MADE_UP]]
    ensures CanAll(s, [Take(0, 1, PHANTOM, 0)])
    ensures var s' := DoneAll(s, [Take(0, 1, PHANTOM, 0)]);
            s'.loads.sizes == [0, PHANTOM_WEIGHT] && s'.shards == [map[], map[]]
  {
    var op := Take(0, 1, PHANTOM, 0);
    DoneQuiet(s, op);
    assert [op][1..] == [] && s.shards[1] - {PHANTOM} == map[];
    assert DoneAll(Done(s, op), []) == Done(s, op);
    hide Scan;
  }
}
