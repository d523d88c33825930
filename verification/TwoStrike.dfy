/** A client is struck down by a health check only after an earlier one warned it in vain. */
module TwoStrike {
  import opened Bytes
  import opened Packets
  import opened Readers
  import opened Ownership
  import opened ServerSteps

  /** How a socket stands after a history: nothing held against it, a warning that is not queued yet, or
      one that is. */
  datatype Standing = Clear | Noted | Announced

  function After(st: Standing, e: Event, socket: int): Standing {
    match e
    case Warned(k) => if k == socket then Noted else st
    case Queued(k) => if k == socket && st.Noted? then Announced else st
    case Heard(k) => if k == socket then Clear else st
    case _ => st
  }

  function StandingOf(log: seq<Event>, socket: int): Standing {
    if log == [] then Clear else After(StandingOf(log[..|log| - 1], socket), log[|log| - 1], socket)
  }

  lemma StandingSnoc(log: seq<Event>, e: Event, socket: int)
    ensures StandingOf(log + [e], socket) == After(StandingOf(log, socket), e, socket)
  {
    assert (log + [e])[..|log|] == log;
  }

  /** A warning, and not a word since. */
  ghost predicate NotedAt(log: seq<Event>, socket: int, j: int) {
    0 <= j < |log| && log[j] == Warned(socket) && forall k :: j < k < |log| ==> log[k] != Heard(socket)
  }

  /** What it takes to be struck down: a warning, then its HeartBeat queued, and not a word since. */
  ghost predicate WarnedInVain(log: seq<Event>, socket: int) {
    exists j, q :: InVain(log, socket, j, q)
  }

  ghost predicate InVain(log: seq<Event>, socket: int, j: int, q: int) {
    NotedAt(log, socket, j) && j < q < |log| && log[q] == Queued(socket)
  }

  lemma NotedLonger(log: seq<Event>, e: Event, socket: int, j: int)
    requires NotedAt(log, socket, j) && e != Heard(socket)
    ensures NotedAt(log + [e], socket, j)
  {
  }

  lemma {:induction false} StandingMeans(log: seq<Event>, socket: int)
    ensures StandingOf(log, socket).Announced? ==> WarnedInVain(log, socket)
    ensures StandingOf(log, socket).Noted? ==> exists j :: NotedAt(log, socket, j)
  {
    if log == [] {
    } else {
      var n := |log| - 1;
      var before, e := log[..n], log[n];
      assert log == before + [e];
      StandingMeans(before, socket);
      if e == Warned(socket) {
        assert NotedAt(log, socket, n);
      } else if StandingOf(log, socket).Noted? {
        var j :| NotedAt(before, socket, j);
        NotedLonger(before, e, socket, j);
      } else if StandingOf(log, socket).Announced? {
        if e == Queued(socket) && StandingOf(before, socket).Noted? {
          var j :| NotedAt(before, socket, j);
          NotedLonger(before, e, socket, j);
          assert InVain(log, socket, j, n);
        } else {
          var j, q :| InVain(before, socket, j, q);
          NotedLonger(before, e, socket, j);
          assert InVain(log, socket, j, q);
        }
      }
    }
  }

  /** Every strike so far was deserved. */
  ghost predicate StrikesDeserved(log: seq<Event>) {
    forall k :: 0 <= k < |log| && log[k].Struck? ==> StandingOf(log[..k], log[k].socket).Announced?
  }

  lemma DeservedSnoc(log: seq<Event>, e: Event)
    requires StrikesDeserved(log) && (e.Struck? ==> StandingOf(log, e.socket).Announced?)
    ensures StrikesDeserved(log + [e])
  {
    forall k | 0 <= k < |log + [e]| && (log + [e])[k].Struck?
      ensures StandingOf((log + [e])[..k], (log + [e])[k].socket).Announced?
    {
      assert (log + [e])[..k] == log[..k];
      assert log[..|log|] == log;
    }
  }

  /** The flag of a client, wherever the client is. */
  ghost predicate Flagged(s: State, p: Place, socket: int) {
    match p
    case InShard(i) => i < |s.shards| && socket in s.shards[i] && s.shards[i][socket].warned
    case InTask(id) => id in s.tasks && Carries(s.tasks[id], socket) && s.tasks[id].client.warned
    case ClosedAs(_) => false
  }

  /** A flag that is set is explained by the log and by the warnings still to be queued. */
  ghost predicate FlagsExplained(s: State) {
    forall p, socket :: Flagged(s, p, socket) ==>
      && !StandingOf(s.log, socket).Clear?
      && (StandingOf(s.log, socket).Noted? ==> s.check.Filtering? && socket in s.check.warnings)
  }

  ghost predicate WarningsApart(s: State) {
    s.check.Filtering? ==> forall socket <- s.check.warnings :: socket !in s.check.remaining
  }

  ghost predicate Fair(s: State) {
    StrikesDeserved(s.log) && FlagsExplained(s) && WarningsApart(s)
  }

  /** Queueing the warnings of a check turns every note into an announcement. */
  lemma {:induction false} QueuedAllAnnounces(log: seq<Event>, warnings: seq<int>, socket: int)
    requires StrikesDeserved(log)
    ensures StrikesDeserved(log + QueuedAll(warnings))
    ensures var st := StandingOf(log, socket);
            StandingOf(log + QueuedAll(warnings), socket) == if st.Noted? && socket in warnings then Announced else st
  {
    if warnings == [] {
      assert log + QueuedAll([]) == log;
    } else {
      var n := |warnings| - 1;
      var rest, e := warnings[..n], Queued(warnings[n]);
      QueuedAllAnnounces(log, rest, socket);
      assert log + QueuedAll(warnings) == (log + QueuedAll(rest)) + [e];
      StandingSnoc(log + QueuedAll(rest), e, socket);
      DeservedSnoc(log + QueuedAll(rest), e);
      assert warnings == rest + [warnings[n]];
    }
  }

  /** A step that logs nothing only moves flagged clients around. */
  lemma FlagOrigin(s: State, l: Label, q: Place, socket: int)
    requires Wf(s) && Enabled(s, l) && Flagged(Next(s, l), q, socket)
    ensures Flagged(s, Origin(s, l, q, socket), socket)
            || (l.CheckOne? && l.socket == socket && q == InShard(s.check.shard))
    ensures l.Parse? && l.socket == socket && (l.command == BLANK || l.command == SEND) ==> q != InShard(l.shard)
  {
  }

  /** Blank and Send, and nothing else, clear the flag. */
  lemma FlagAfterIs(warned: bool, command: seq<Byte>)
    ensures FlagAfter(warned, command) == (warned && command != BLANK && command != SEND)
  {
  }

  lemma ExplainedAt(s: State, p: Place, socket: int)
    requires FlagsExplained(s) && Flagged(s, p, socket)
    ensures !StandingOf(s.log, socket).Clear?
    ensures StandingOf(s.log, socket).Noted? ==> s.check.Filtering? && socket in s.check.warnings
  {
  }

  lemma ParseKeepsFair(s: State, l: Label)
    requires Wf(s) && Enabled(s, l) && Owned(s) && Fair(s) && l.Parse?
    ensures Fair(Next(s, l))
  {
    var s' := Next(s, l);
    var heard := l.command == BLANK || l.command == SEND;
    assert s'.log == if heard then s.log + [Heard(l.socket)] else s.log;
    DeservedSnoc(s.log, Heard(l.socket));
    forall q, socket | Flagged(s', q, socket)
      ensures !StandingOf(s'.log, socket).Clear?
      ensures StandingOf(s'.log, socket).Noted? ==> s'.check.Filtering? && socket in s'.check.warnings
    {
      FlagOrigin(s, l, q, socket);
      ExplainedAt(s, q, socket);
      if heard {
        StandingSnoc(s.log, Heard(l.socket), socket);
        if socket == l.socket {
          assert At(s, InShard(l.shard), socket) && At(s, q, socket);
          assert false;
        }
      }
    }
  }

  lemma CheckOneKeepsFair(s: State, l: Label)
    requires Wf(s) && Enabled(s, l) && Fair(s) && l.CheckOne?
    ensures Fair(Next(s, l))
  {
    var s' := Next(s, l);
    var e := s'.log[|s.log|];
    assert s'.log == s.log + [e];
    if e.Struck? {
      ExplainedAt(s, InShard(s.check.shard), l.socket);
    }
    DeservedSnoc(s.log, e);
    forall q, socket | Flagged(s', q, socket)
      ensures !StandingOf(s'.log, socket).Clear?
      ensures StandingOf(s'.log, socket).Noted? ==> s'.check.Filtering? && socket in s'.check.warnings
    {
      StandingSnoc(s.log, e, socket);
      if !(socket == l.socket && e.Warned?) {
        FlagOrigin(s, l, q, socket);
        ExplainedAt(s, q, socket);
      }
    }
  }

  lemma CheckEndKeepsFair(s: State, l: Label)
    requires Wf(s) && Enabled(s, l) && Fair(s) && l.CheckEnd?
    ensures Fair(Next(s, l))
  {
    var s' := Next(s, l);
    QueuedAllAnnounces(s.log, s.check.warnings, 0);
    forall q, socket | Flagged(s', q, socket)
      ensures StandingOf(s'.log, socket).Announced?
    {
      assert Flagged(s, q, socket);
      ExplainedAt(s, q, socket);
      QueuedAllAnnounces(s.log, s.check.warnings, socket);
    }
  }

  lemma StepKeepsFair(s: State, l: Label)
    requires Wf(s) && Enabled(s, l) && Owned(s) && Fair(s)
    ensures Fair(Next(s, l))
  {
    match l
    case Parse(_, _, _) => ParseKeepsFair(s, l);
    case CheckOne(_) => CheckOneKeepsFair(s, l);
    case CheckEnd => CheckEndKeepsFair(s, l);
    case _ =>
      var s' := Next(s, l);
      assert s'.log == s.log;
      forall q, socket | Flagged(s', q, socket)
        ensures !StandingOf(s'.log, socket).Clear?
        ensures StandingOf(s'.log, socket).Noted? ==> s'.check.Filtering? && socket in s'.check.warnings
      {
        FlagOrigin(s, l, q, socket);
        ExplainedAt(s, Origin(s, l, q, socket), socket);
      }
  }

  lemma {:induction false} RunKeepsFair(s: State, ls: seq<Label>)
    requires Wf(s) && CanRun(s, ls) && Owned(s) && Fair(s)
    ensures Fair(Run(s, ls))
    decreases |ls|
  {
    if ls == [] {
    } else {
      NextWf(s, ls[0]);
      StepKeepsOwned(s, ls[0]);
      StepKeepsFair(s, ls[0]);
      RunKeepsFair(Next(s, ls[0]), ls[1..]);
    }
  }

  /** In every run, with migrations and whatever else in between: whenever a health check strikes a
      registered client down, an earlier one had set its flag and queued it a HeartBeat, and neither a
      Blank nor a Send of the client was parsed in the meantime. */
  lemma StruckOnlyInVain(n: nat, ls: seq<Label>, k: nat)
    requires 0 < n && CanRun(Init(n), ls)
    requires k < |Run(Init(n), ls).log| && Run(Init(n), ls).log[k].Struck?
    ensures var log := Run(Init(n), ls).log;
            WarnedInVain(log[..k], log[k].socket)
  {
    RunKeepsFair(Init(n), ls);
    var log := Run(Init(n), ls).log;
    StandingMeans(log[..k], log[k].socket);
  }

  // ---- the converse -------------------------------------------------------------------------

  /** Wherever the client of a socket is, its flag is set. */
  ghost predicate AllFlagged(s: State, socket: int) {
    forall p :: At(s, p, socket) && !p.ClosedAs? ==> Flagged(s, p, socket)
  }

  ghost predicate Silent(ls: seq<Label>, socket: int) {
    forall l <- ls :: !(l.Parse? && l.socket == socket && (l.command == BLANK || l.command == SEND))
  }

  lemma StepKeepsFlagged(s: State, l: Label, socket: int)
    requires Wf(s) && Enabled(s, l) && AllFlagged(s, socket) && socket in s.accepted && socket >= 0
    requires !(l.Parse? && l.socket == socket && (l.command == BLANK || l.command == SEND))
    ensures AllFlagged(Next(s, l), socket)
  {
    var s' := Next(s, l);
    forall q | At(s', q, socket) && !q.ClosedAs?
      ensures Flagged(s', q, socket)
    {
      StepOrigin(s, l, q, socket);
      var p := Origin(s, l, q, socket);
      assert At(s, p, socket) && !p.ClosedAs? ==> Flagged(s, p, socket);
      if l.Parse? {
        FlagAfterIs(s.shards[l.shard][l.socket].warned, l.command);
      }
    }
  }

  lemma {:induction false} SilenceKeepsFlagged(s: State, ls: seq<Label>, socket: int)
    requires Wf(s) && CanRun(s, ls) && AllFlagged(s, socket) && socket in s.accepted && socket >= 0
    requires Silent(ls, socket)
    ensures AllFlagged(Run(s, ls), socket)
    decreases |ls|
  {
    if ls == [] {
    } else {
      NextWf(s, ls[0]);
      assert ls[0] in ls;
      StepKeepsFlagged(s, ls[0], socket);
      SilenceKeepsFlagged(Next(s, ls[0]), ls[1..], socket);
    }
  }

  /** A client that two health checks come across, and that is silent in between, is struck down by the
      second, whatever else happens and in whichever shard that one finds it. */
  lemma SecondStrikeHits(s: State, socket: int, ls: seq<Label>)
    requires Wf(s) && Owned(s) && socket >= 0 && Enabled(s, CheckOne(socket))
    requires socket in s.shards[s.check.shard]
    requires var warned := Next(s, CheckOne(socket));
             && Wf(warned) && CanRun(warned, ls) && Silent(ls, socket)
             && Enabled(Run(warned, ls), CheckOne(socket))
             && socket in Run(warned, ls).shards[Run(warned, ls).check.shard]
    ensures var s' := Run(Next(s, CheckOne(socket)), ls);
            Next(s', CheckOne(socket)).log == s'.log + [Struck(socket)]
  {
    var shard, warned := s.check.shard, Next(s, CheckOne(socket));
    assert At(s, InShard(shard), socket);
    StepKeepsOwned(s, CheckOne(socket));
    assert Flagged(warned, InShard(shard), socket) && At(warned, InShard(shard), socket);
    SilenceKeepsFlagged(warned, ls, socket);
    var s' := Run(warned, ls);
    assert At(s', InShard(s'.check.shard), socket);
  }

  // ---- where the code does less than that ---------------------------------------------------

  ghost predicate NoNewCheck(ls: seq<Label>) {
    forall l <- ls :: !l.CheckStart?
  }

  lemma {:induction false} CheckStaysInShard(s: State, ls: seq<Label>)
    requires Wf(s) && CanRun(s, ls) && NoNewCheck(ls) && s.check.Filtering?
    ensures Run(s, ls).check.Idle? || Run(s, ls).check.shard == s.check.shard
    decreases |ls|
  {
    if ls == [] {
    } else {
      assert ls[0] in ls && forall l <- ls[1..] :: l in ls;
      NextWf(s, ls[0]);
      var s' := Next(s, ls[0]);
      assert s'.check.Idle? || s'.check.shard == s.check.shard;
      if s'.check.Filtering? {
        CheckStaysInShard(s', ls[1..]);
      } else {
        IdleStaysIdle(s', ls[1..]);
      }
    }
  }

  lemma {:induction false} IdleStaysIdle(s: State, ls: seq<Label>)
    requires Wf(s) && CanRun(s, ls) && NoNewCheck(ls) && s.check.Idle?
    ensures Run(s, ls).check.Idle?
    decreases |ls|
  {
    if ls == [] {
    } else {
      assert ls[0] in ls && forall l <- ls[1..] :: l in ls;
      NextWf(s, ls[0]);
      IdleStaysIdle(Next(s, ls[0]), ls[1..]);
    }
  }

  /** Whatever is going on since a check selected a socket of a shard: when it comes to the socket, it passes it on
      to be shut down without any warning exactly if the last that happened there is not that the socket was put
      in, and it was not there in the first place or was taken out since. */
  lemma PassedOnIff(s: State, shard: nat, selected: set<int>, socket: int, ls: seq<Label>)
    requires Wf(s) && Enabled(s, CheckStart(shard, selected)) && NoNewCheck(ls)
    requires var started := Next(s, CheckStart(shard, selected));
             Wf(started) && CanRun(started, ls) && Enabled(Run(started, ls), CheckOne(socket))
    ensures var started := Next(s, CheckStart(shard, selected));
            var s' := Run(started, ls);
            Next(s', CheckOne(socket)).log == s'.log + [Unregistered(socket)]
            <==> !LastPutIn(started, ls, shard, socket)
                 && (socket !in s.shards[shard] || !NeverTakenOut(started, ls, shard, socket))
  {
    var started := Next(s, CheckStart(shard, selected));
    var s' := Run(started, ls);
    CheckStaysInShard(started, ls);
    InShardIff(started, ls, shard, socket);
    CheckOneLogs(s', socket);
    hide LastPutIn, NeverTakenOut, Run, CanRun;
  }

  lemma CheckOneLogs(s: State, socket: int)
    requires Wf(s) && Enabled(s, CheckOne(socket))
    ensures Next(s, CheckOne(socket)).log == s.log + [Unregistered(socket)] <==> socket !in s.shards[s.check.shard]
  {
    var e := Next(s, CheckOne(socket)).log[|s.log|];
    assert Next(s, CheckOne(socket)).log == s.log + [e];
  }

  /** That hits live clients: one that moved from shard 1 to shard 0 and is still in the selection of
      shard 1 is shut down although nobody ever warned it. */
  lemma MovedClientIsShut()
    ensures var ls := ThereSteps() + [CheckStart(1, {7}), CheckOne(7)];
            && CanRun(Init(2), ls)
            && Run(Init(2), ls).log == [Unregistered(7)]
            && 7 in Run(Init(2), ls).shards[0] && !Run(Init(2), ls).shards[0][7].warned
  {
    ThereRuns();
    var s := Run(Init(2), ThereSteps());
    RunTwo(s, CheckStart(1, {7}), CheckOne(7));
    hide ThereSteps, Init, Run, CanRun;
    RunConcat(Init(2), ThereSteps(), [CheckStart(1, {7}), CheckOne(7)]);
  }
}
