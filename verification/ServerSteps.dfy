/** The server as a system of steps. Shards own clients, a balancer keeps a load per shard, and the
    accept thread, the poll threads, migrations and the health check interleave freely: every section
    under a lock is one step, and any number of additions and migrations may be in flight. */
module ServerSteps {
  import opened Bytes
  import opened Packets
  import opened Priorities
  import opened Readers

  /** What a shard's map holds for a socket, as far as the steps below look at it: DeadlineMaxCount and
      terminateOnNextCycle. */
  datatype Client = Client(weight: nat, warned: bool)

  /** The socket and the weight of the client that RemoveOldestClientAndReturn makes up for an empty shard. */
  const PHANTOM: int := -1
  const PHANTOM_WEIGHT: nat := 25

  /** An operation between two of its steps. A migration is Discharging, then Adding, then Charging; an
      accept starts at Adding. held says whether the client came out of a map. */
  datatype Task =
    | Adding(socket: int, client: Client, to: nat)
    | Charging(to: nat, weight: nat)
    | Discharging(socket: int, client: Client, from: nat, to: nat, held: bool)

  /** The health check thread: going through the sockets it selected in a shard, with the warnings it
      has not queued yet. */
  datatype Check = Idle | Filtering(shard: nat, remaining: set<int>, warnings: seq<int>)

  /** Warned: the first strike set the flag. Queued: its HeartBeat went to the write queue. Heard: a Blank
      or Send was parsed. Struck: the second strike shut a registered client down. Unregistered: a socket
      that the shard does not have was passed on to be shut down. */
  datatype Event =
    | Warned(socket: int) | Queued(socket: int) | Heard(socket: int) | Struck(socket: int) | Unregistered(socket: int)

  datatype State = State(
    shards: seq<map<int, Client>>,
    loads: Loads,
    tasks: map<nat, Task>,
    accepted: set<int>,
    doomed: seq<set<int>>,  // socketsToTerminate of each poll thread
    closed: seq<int>,       // every ::close so far
    drift: seq<int>,        // what the loads are off by, see Next
    check: Check,
    log: seq<Event>)

  ghost predicate Wf(s: State) {
    && 0 < |s.shards| == |s.loads.sizes| == |s.doomed| == |s.drift|
    && s.loads.minIdx < |s.shards| && s.loads.maxIdx < |s.shards|
    && (forall id <- s.tasks :: TaskWf(s.tasks[id], |s.shards|))
    && (s.check.Filtering? ==> s.check.shard < |s.shards|)
  }

  ghost predicate TaskWf(t: Task, n: nat) {
    match t
    case Adding(_, _, to) => to < n
    case Charging(to, _) => to < n
    case Discharging(_, _, from, to, held) => from < n && to < n && (!held ==> t.socket == PHANTOM)
  }

  function Init(n: nat): (s: State)
    requires 0 < n
    ensures Wf(s)
  {
    State(seq(n, _ => map[]), Loads(seq(n, _ => 0), 0, 0), map[], {}, seq(n, _ => {}), [], seq(n, _ => 0), Idle, [])
  }

  datatype Label =
    | Accept(id: nat, socket: int, weight: nat, to: nat)
    | Insert(id: nat)                                     // ClientInfos::insert
    | Charge(id: nat)                                     // incPriority
    | Remove(id: nat, from: nat, socket: int, to: nat)    // ClientInfos::RemoveOldestClientAndReturn
    | Discharge(id: nat)                                  // its decPriority
    | Poll(shard: nat, socket: int)                       // an event that dooms a socket
    | CloseOne(shard: nat, socket: int)                   // one round of ClientInfos::close
    | Parse(shard: nat, socket: int, command: seq<Byte>)  // a packet of a client was handled
    | CheckStart(shard: nat, selected: set<int>)          // getSocketsLessThanTimestamp
    | CheckOne(socket: int)                               // one round of FilterSocketsToTerminate
    | CheckEnd                                            // its splice into packetsToWrite

  /** Accepted sockets are new. The client that is removed is any one the shard has, as the begin() of a
      hash map is; when there is none, the phantom. */
  ghost predicate Enabled(s: State, l: Label)
    requires Wf(s)
  {
    match l
    case Accept(id, socket, _, to) => id !in s.tasks && 0 <= socket && socket !in s.accepted && to < |s.shards|
    case Insert(id) => id in s.tasks && s.tasks[id].Adding?
    case Charge(id) => id in s.tasks && s.tasks[id].Charging?
    case Remove(id, from, socket, to) =>
      && id !in s.tasks && from < |s.shards| && to < |s.shards|
      && (s.shards[from] == map[] || socket in s.shards[from])
    case Discharge(id) => id in s.tasks && s.tasks[id].Discharging?
    case Poll(shard, _) => shard < |s.shards|
    case CloseOne(shard, socket) => shard < |s.shards| && socket in s.doomed[shard]
    case Parse(shard, socket, _) => shard < |s.shards| && 0 <= socket && socket in s.shards[shard]
    case CheckStart(shard, _) => s.check.Idle? && shard < |s.shards|
    case CheckOne(socket) => s.check.Filtering? && socket in s.check.remaining
    case CheckEnd => s.check.Filtering? && s.check.remaining == {}
  }

  function QueuedAll(sockets: seq<int>): seq<Event> {
    seq(|sockets|, i requires 0 <= i < |sockets| => Queued(sockets[i]))
  }

  function Bump(drift: seq<int>, i: nat, amount: int): seq<int>
    requires i < |drift|
  {
    drift[i := drift[i] + amount]
  }

  /** The flag after a packet, as the reader handles it. */
  function FlagAfter(warned: bool, command: seq<Byte>): bool {
    React(Reading([], warned, 0, [], []), Packet(0, command, [])).terminateOnNextCycle
  }

  /** One step. drift records what a step does to the difference between the loads and the weights, in
      exactly three cases: decPriority drops a decrement, the weight of a phantom is subtracted, or an
      insertion finds the socket there and leaves the map alone. */
  ghost function Next(s: State, l: Label): State
    requires Wf(s) && Enabled(s, l)
  {
    match l
    case Accept(id, socket, weight, to) =>
      s.(tasks := s.tasks[id := Adding(socket, Client(weight, false), to)], accepted := s.accepted + {socket})
    case Insert(id) =>
      var t := s.tasks[id];
      var s' := s.(tasks := s.tasks[id := Charging(t.to, t.client.weight)]);
      if t.socket in s.shards[t.to] then s'.(drift := Bump(s.drift, t.to, t.client.weight))
      else s'.(shards := s.shards[t.to := s.shards[t.to][t.socket := t.client]])
    case Charge(id) =>
      s.(loads := Inc(s.loads, s.tasks[id].to, s.tasks[id].weight), tasks := s.tasks - {id})
    case Remove(id, from, socket, to) =>
      if s.shards[from] == map[] then
        s.(tasks := s.tasks[id := Discharging(PHANTOM, Client(PHANTOM_WEIGHT, false), from, to, false)])
      else
        s.(shards := s.shards[from := s.shards[from] - {socket}],
           tasks := s.tasks[id := Discharging(socket, s.shards[from][socket], from, to, true)])
    case Discharge(id) =>
      var t := s.tasks[id];
      var w := t.client.weight;
      var dropped := s.loads.sizes[t.from] < w;
      s.(loads := Dec(s.loads, t.from, w),
         tasks := s.tasks[id := Adding(t.socket, t.client, t.to)],
         drift := if t.held && dropped then Bump(s.drift, t.from, w)
                  else if !t.held && !dropped then Bump(s.drift, t.from, 0 - w)
                  else s.drift)
    case Poll(shard, socket) => s.(doomed := s.doomed[shard := s.doomed[shard] + {socket}])
    case CloseOne(shard, socket) =>
      var s' := s.(doomed := s.doomed[shard := s.doomed[shard] - {socket}]);
      if socket in s.shards[shard] then
        var w := s.shards[shard][socket].weight;
        s'.(shards := s.shards[shard := s.shards[shard] - {socket}],
            loads := Dec(s.loads, shard, w),
            closed := s.closed + [socket],
            drift := if s.loads.sizes[shard] < w then Bump(s.drift, shard, w) else s.drift)
      else s'
    case Parse(shard, socket, command) =>
      var c := s.shards[shard][socket];
      s.(shards := s.shards[shard := s.shards[shard][socket := c.(warned := FlagAfter(c.warned, command))]],
         log := s.log + if command == BLANK || command == SEND then [Heard(socket)] else [])
    case CheckStart(shard, selected) => s.(check := Filtering(shard, selected, []))
    case CheckOne(socket) =>
      var shard := s.check.shard;
      var c' := s.check.(remaining := s.check.remaining - {socket});
      if socket !in s.shards[shard] then s.(check := c', log := s.log + [Unregistered(socket)])
      else if s.shards[shard][socket].warned then s.(check := c', log := s.log + [Struck(socket)])
      else
        s.(shards := s.shards[shard := s.shards[shard][socket := s.shards[shard][socket].(warned := true)]],
           check := c'.(warnings := c'.warnings + [socket]),
           log := s.log + [Warned(socket)])
    case CheckEnd => s.(check := Idle, log := s.log + QueuedAll(s.check.warnings))
  }

  lemma NextWf(s: State, l: Label)
    requires Wf(s) && Enabled(s, l)
    ensures Wf(Next(s, l)) && |Next(s, l).shards| == |s.shards|
  {
  }

  /** A run: every label is enabled where it is taken. */
  ghost predicate CanRun(s: State, ls: seq<Label>)
    requires Wf(s)
    decreases |ls|
  {
    ls == [] || (Enabled(s, ls[0]) && (NextWf(s, ls[0]); CanRun(Next(s, ls[0]), ls[1..])))
  }

  ghost function Run(s: State, ls: seq<Label>): (s': State)
    requires Wf(s) && CanRun(s, ls)
    ensures Wf(s') && |s'.shards| == |s.shards|
    decreases |ls|
  {
    if ls == [] then s
    else
      NextWf(s, ls[0]);
      Run(Next(s, ls[0]), ls[1..])
  }

  /** A run can be given by its states. */
  lemma {:induction false} RunsStepwise(s: State, ls: seq<Label>, states: seq<State>)
    requires Wf(s) && |states| == |ls| + 1 && states[0] == s
    requires forall i :: 0 <= i < |states| ==> Wf(states[i])
    requires forall i :: 0 <= i < |ls| ==> Enabled(states[i], ls[i]) && states[i + 1] == Next(states[i], ls[i])
    ensures CanRun(s, ls) && Run(s, ls) == states[|ls|]
    decreases |ls|
  {
    if ls == [] {
    } else {
      assert Enabled(states[0], ls[0]) && states[0 + 1] == Next(states[0], ls[0]);
      RunsStepwise(states[1], ls[1..], states[1..]);
    }
  }

  lemma {:induction false} RunConcat(s: State, a: seq<Label>, b: seq<Label>)
    requires Wf(s) && CanRun(s, a) && CanRun(Run(s, a), b)
    ensures CanRun(s, a + b) && Run(s, a + b) == Run(Run(s, a), b)
    decreases |a|
  {
    if a == [] {
      assert a + b == b;
    } else {
      NextWf(s, a[0]);
      assert (a + b)[0] == a[0] && (a + b)[1..] == a[1..] + b;
      hide Next, Enabled, Wf;
      RunConcat(Next(s, a[0]), a[1..], b);
    }
  }

  lemma {:induction false} RunOne(s: State, l: Label)
    requires Wf(s) && Enabled(s, l)
    ensures CanRun(s, [l]) && Run(s, [l]) == Next(s, l)
  {
    NextWf(s, l);
    hide Next, Enabled, Wf;
    RunsStepwise(s, [l], [s, Next(s, l)]);
  }

  lemma {:induction false} RunMore(s: State, ls: seq<Label>, l: Label)
    requires Wf(s) && CanRun(s, ls) && Enabled(Run(s, ls), l)
    ensures CanRun(s, ls + [l]) && Run(s, ls + [l]) == Next(Run(s, ls), l)
  {
    RunOne(Run(s, ls), l);
    RunConcat(s, ls, [l]);
  }

  lemma RunNone(s: State)
    requires Wf(s)
    ensures CanRun(s, []) && Run(s, []) == s
  {
  }

  /** Events that name these sockets. */
  function PollEach(shard: nat, sockets: seq<int>): seq<Label> {
    seq(|sockets|, i requires 0 <= i < |sockets| => Poll(shard, sockets[i]))
  }

  /** One round of close for each of these sockets. */
  function Closes(shard: nat, sockets: seq<int>): seq<Label> {
    seq(|sockets|, i requires 0 <= i < |sockets| => CloseOne(shard, sockets[i]))
  }

  // ---- whole operations, taken without anything in between ----------------------------------

  lemma RunTwo(s: State, a: Label, b: Label)
    requires Wf(s) && Enabled(s, a) && Wf(Next(s, a)) && Enabled(Next(s, a), b)
    ensures CanRun(s, [a, b]) && Run(s, [a, b]) == Next(Next(s, a), b)
  {
    NextWf(Next(s, a), b);
    RunsStepwise(s, [a, b], [s, Next(s, a), Next(Next(s, a), b)]);
  }

  /** The two steps of an addition that is in flight. */
  lemma AddRuns(s: State, id: nat)
    requires Wf(s) && id in s.tasks && s.tasks[id].Adding? && s.tasks[id].socket !in s.shards[s.tasks[id].to]
    ensures CanRun(s, [Insert(id), Charge(id)])
    ensures var t := s.tasks[id];
            Run(s, [Insert(id), Charge(id)]) ==
            s.(shards := s.shards[t.to := s.shards[t.to][t.socket := t.client]],
               loads := Inc(s.loads, t.to, t.client.weight), tasks := s.tasks - {id})
  {
    var s1 := Next(s, Insert(id));
    assert s1.tasks - {id} == s.tasks - {id};
    RunTwo(s, Insert(id), Charge(id));
  }

  /** The two steps that take a client out of a shard. */
  lemma TakeRuns(s: State, id: nat, from: nat, socket: int, to: nat)
    requires Wf(s) && Enabled(s, Remove(id, from, socket, to)) && socket in s.shards[from]
    ensures CanRun(s, [Remove(id, from, socket, to), Discharge(id)])
    ensures var c := s.shards[from][socket];
            Run(s, [Remove(id, from, socket, to), Discharge(id)]) ==
            s.(shards := s.shards[from := s.shards[from] - {socket}],
               loads := Dec(s.loads, from, c.weight), tasks := s.tasks[id := Adding(socket, c, to)],
               drift := if s.loads.sizes[from] < c.weight then Bump(s.drift, from, c.weight) else s.drift)
  {
    var s1 := Next(s, Remove(id, from, socket, to));
    assert s1.tasks[id := Adding(socket, s.shards[from][socket], to)]
        == s.tasks[id := Adding(socket, s.shards[from][socket], to)];
    RunTwo(s, Remove(id, from, socket, to), Discharge(id));
  }

  /** ServerLearnProtocol::Add of an accepted socket. */
  function AcceptSteps(id: nat, socket: int, weight: nat, to: nat): seq<Label> {
    [Accept(id, socket, weight, to)] + [Insert(id), Charge(id)]
  }

  /** RemoveOldestClientAndReturn on one shard, then Add on another. */
  function MigrateSteps(id: nat, from: nat, socket: int, to: nat): seq<Label> {
    [Remove(id, from, socket, to), Discharge(id)] + [Insert(id), Charge(id)]
  }

  lemma AcceptRuns(s: State, id: nat, socket: int, weight: nat, to: nat)
    requires Wf(s) && Enabled(s, Accept(id, socket, weight, to)) && socket !in s.shards[to]
    ensures CanRun(s, AcceptSteps(id, socket, weight, to))
    ensures Run(s, AcceptSteps(id, socket, weight, to)) ==
            s.(shards := s.shards[to := s.shards[to][socket := Client(weight, false)]],
               loads := Inc(s.loads, to, weight), accepted := s.accepted + {socket})
  {
    var l := Accept(id, socket, weight, to);
    var s1 := Next(s, l);
    RunsStepwise(s, [l], [s, s1]);
    assert s1.tasks - {id} == s.tasks;
    AddRuns(s1, id);
    RunConcat(s, [l], [Insert(id), Charge(id)]);
  }

  lemma MigrateRuns(s: State, id: nat, from: nat, socket: int, to: nat)
    requires Wf(s) && Enabled(s, Remove(id, from, socket, to)) && from != to
    requires socket in s.shards[from] && socket !in s.shards[to]
    ensures CanRun(s, MigrateSteps(id, from, socket, to))
    ensures var c := s.shards[from][socket];
            Run(s, MigrateSteps(id, from, socket, to)) ==
            s.(shards := s.shards[from := s.shards[from] - {socket}][to := s.shards[to][socket := c]],
               loads := Inc(Dec(s.loads, from, c.weight), to, c.weight),
               drift := if s.loads.sizes[from] < c.weight then Bump(s.drift, from, c.weight) else s.drift)
  {
    var take, c := [Remove(id, from, socket, to), Discharge(id)], s.shards[from][socket];
    TakeRuns(s, id, from, socket, to);
    var s1 := Run(s, take);
    hide Run, CanRun, Enabled, Next;
    assert s1.tasks - {id} == s.tasks;
    AddRuns(s1, id);
    RunConcat(s, take, [Insert(id), Charge(id)]);
  }
}
