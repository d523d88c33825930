/** The read, execute and write pipeline of one shard: nothing is duplicated or overtaken, and what gets
    lost is lost at known places. */
module Pipelines {
  import opened Bytes
  import opened Packets

  const WAS_RECEIVED_FROM: seq<Byte> :=
    [32, 119, 97, 115, 32, 114, 101, 99, 101, 105, 118, 101, 100, 32, 102, 114, 111, 109, 32]

  /** pollCallback on a packet whose client is registered; other packets stay as they are. */
  function Answer(p: Packet, clientIds: map<int, seq<Byte>>): Packet {
    if p.socket in clientIds then p.(data := p.data + WAS_RECEIVED_FROM + clientIds[p.socket]) else p
  }

  /** What an answer says: a client that is registered gets back what it said, then who it is; a packet of any other
      comes back as it is. */
  predicate SaysBack(r: Packet, p: Packet, clientIds: map<int, seq<Byte>>) {
    && r.socket == p.socket && r.command == p.command
    && if p.socket !in clientIds then r.data == p.data
       else
         var id := clientIds[p.socket];
         && |r.data| == |p.data| + |WAS_RECEIVED_FROM| + |id|
         && r.data[..|p.data|] == p.data && r.data[|r.data| - |id|..] == id
         && r.data[|p.data|..|p.data| + |WAS_RECEIVED_FROM|] == WAS_RECEIVED_FROM
  }

  lemma AnswerSaysBack(p: Packet, clientIds: map<int, seq<Byte>>)
    ensures SaysBack(Answer(p, clientIds), p, clientIds)
    ensures forall r :: SaysBack(r, p, clientIds) ==> r == Answer(p, clientIds)
  {
    var answer := Answer(p, clientIds);
    forall r | SaysBack(r, p, clientIds)
      ensures r == answer
    {
      if p.socket in clientIds {
        var n, m := |p.data|, |p.data| + |WAS_RECEIVED_FROM|;
        assert r.data == r.data[..n] + r.data[n..m] + r.data[m..];
        assert r.data[m..] == clientIds[p.socket];
      }
    }
  }

  /** The list of packets after the callbacks. */
  function AnswerPackets(ps: seq<Packet>, clientIds: map<int, seq<Byte>>): (r: seq<Packet>)
    ensures |r| == |ps|
  {
    seq(|ps|, i requires 0 <= i < |ps| => Answer(ps[i], clientIds))
  }

  /** A packet on its way: a Send with the number it was parsed under, or something the server itself
      has to say, such as a HeartBeat. */
  datatype Entry = Request(id: nat, packet: Packet) | Notice(packet: Packet)

  /** Where the executor is: about to Execute, with the packets it took, with the answers it has, about
      to Write, or writing. */
  datatype Executor = AtExecute | Took | Answered | AtWrite | Writing

  datatype Pipe = Pipe(
    parsed: seq<Packet>,     // every Send parsed so far
    readList: seq<Entry>,    // of the poll in progress
    toRead: seq<Entry>,      // packetsToRead
    executing: seq<Entry>,   // the executor's tempList, before and
    executed: seq<Entry>,    // after the callbacks
    toWrite: seq<Entry>,     // packetsToWrite
    writing: seq<Entry>,     // tempWriteList
    sent: seq<Entry>,
    lost: seq<Entry>,
    executor: Executor)

  const EMPTY_PIPE: Pipe := Pipe([], [], [], [], [], [], [], [], [], AtExecute)

  /** What the operating system makes of a packet: it takes it, or finds the socket closed, or fails in
      a way that neither closes the socket nor is worth another try. */
  datatype SendOutcome = Accepted | Closed | Refused

  /** The outcome of the i-th write of a call; an exhausted script accepts. */
  function OutcomeAt(outcomes: seq<SendOutcome>, i: nat): SendOutcome {
    if i < |outcomes| then outcomes[i] else Accepted
  }

  /** How many of n packets get as far as a write that does not find the socket closed. */
  function Reach(outcomes: seq<SendOutcome>, n: nat): (r: nat)
    ensures r <= n && (forall i :: 0 <= i < r ==> !OutcomeAt(outcomes, i).Closed?)
    ensures r < n ==> OutcomeAt(outcomes, r).Closed?
  {
    if n == 0 then 0
    else if Reach(outcomes, n - 1) == n - 1 && !OutcomeAt(outcomes, n - 1).Closed? then n
    else Reach(outcomes, n - 1)
  }

  function AcceptedOf(ps: seq<Packet>, outcomes: seq<SendOutcome>): seq<Packet> {
    if ps == [] then []
    else
      var n := |ps| - 1;
      AcceptedOf(ps[..n], outcomes) + if OutcomeAt(outcomes, n).Accepted? then [ps[n]] else []
  }

  /** The steps of the poll thread, of other threads with something to say, and of the one executor. Each is a section
      under one of the locks. A poll ends with SpliceRead, or with BreakRead if the reader breaks. */
  datatype Label =
    | Parse(packet: Packet)
    | SpliceRead
    | BreakRead
    | Say(packet: Packet)
    | TakeRead
    | Compute(clientIds: map<int, seq<Byte>>)
    | SpliceWrite
    | TakeWrite
    | WriteOne(outcome: SendOutcome)

  predicate Enabled(s: Pipe, l: Label) {
    match l
    case TakeRead => s.executor.AtExecute?
    case Compute(_) => s.executor.Took?
    case SpliceWrite => s.executor.Answered?
    case TakeWrite => s.executor.AtWrite?
    case WriteOne(_) => s.executor.Writing? && s.writing != []
    case _ => true
  }

  function AnswerAll(es: seq<Entry>, clientIds: map<int, seq<Byte>>): (r: seq<Entry>)
    ensures |r| == |es|
  {
    seq(|es|, i requires 0 <= i < |es| => es[i].(packet := Answer(es[i].packet, clientIds)))
  }

  function Next(s: Pipe, l: Label): Pipe {
    match l
    case Parse(p) => s.(parsed := s.parsed + [p], readList := s.readList + [Request(|s.parsed|, p)])
    case SpliceRead => s.(toRead := s.toRead + s.readList, readList := [])
    case BreakRead => s.(lost := s.lost + s.readList, readList := [])
    case Say(p) => s.(toWrite := s.toWrite + [Notice(p)])
    case TakeRead =>
      if s.toRead == [] then s.(executor := AtWrite)
      else s.(executing := s.toRead, toRead := [], executor := Took)
    case Compute(clientIds) =>
      if clientIds == map[] then s.(lost := s.lost + s.executing, executing := [], executor := AtWrite)
      else s.(executed := AnswerAll(s.executing, clientIds), executing := [], executor := Answered)
    case SpliceWrite => s.(toWrite := s.toWrite + s.executed, executed := [], executor := AtWrite)
    case TakeWrite =>
      if s.toWrite == [] then s.(executor := AtExecute)
      else s.(writing := s.toWrite, toWrite := [], executor := Writing)
    case WriteOne(outcome) =>
      if s.writing == [] then s
      else if outcome.Closed? then s.(lost := s.lost + s.writing, writing := [], executor := AtExecute)
      else
        var left := s.(writing := s.writing[1..], executor := if |s.writing| == 1 then AtExecute else Writing);
        if outcome.Accepted? then left.(sent := s.sent + [s.writing[0]])
        else left.(lost := s.lost + [s.writing[0]])
  }

  predicate CanRun(s: Pipe, ls: seq<Label>)
    decreases |ls|
  {
    ls == [] || (Enabled(s, ls[0]) && CanRun(Next(s, ls[0]), ls[1..]))
  }

  function Run(s: Pipe, ls: seq<Label>): Pipe
    decreases |ls|
  {
    if ls == [] then s else Run(Next(s, ls[0]), ls[1..])
  }

  /** The numbers of the requests in a list. */
  function Ids(es: seq<Entry>): seq<nat> {
    if es == [] then []
    else (if es[0].Request? then [es[0].id] else []) + Ids(es[1..])
  }

  /** The requests that have left or are still on their way, stage by stage, first parsed first. */
  function Line(s: Pipe): seq<nat> {
    Ids(s.sent) + (Ids(s.writing) + (Ids(s.toWrite) + (Ids(s.executed) + (Ids(s.executing) + Unread(s)))))
  }

  function Unread(s: Pipe): seq<nat> {
    Ids(s.toRead) + Ids(s.readList)
  }

  ghost predicate Increasing(ids: seq<nat>) {
    forall i, j :: 0 <= i < j < |ids| ==> ids[i] < ids[j]
  }

  ghost function Upto(n: nat): seq<nat> {
    seq(n, i => i)
  }

  /** The lists of the stages that the executor is not in are empty. */
  predicate StagesMatch(s: Pipe) {
    && (s.executing != [] <==> s.executor.Took?)
    && (s.executed != [] <==> s.executor.Answered?)
    && (s.writing != [] <==> s.executor.Writing?)
  }

  /** The tables of clients' ids that callbacks have found, or are going to find. */
  type Tables = set<map<int, seq<Byte>>>

  ghost predicate IsResponse(r: Packet, p: Packet, tables: Tables) {
    exists ids <- tables :: SaysBack(r, p, ids)
  }

  /** In every stage a request is what was parsed under its number; once it has been through Execute, with
      what the callback of its client made of it, one time. */
  ghost predicate TrueTo(es: seq<Entry>, parsed: seq<Packet>, tables: Tables, answered: bool) {
    forall e <- es :: e.Request? ==>
      && e.id < |parsed|
      && if answered then IsResponse(e.packet, parsed[e.id], tables) else e.packet == parsed[e.id]
  }

  ghost predicate Contents(s: Pipe, tables: Tables) {
    && TrueTo(s.readList, s.parsed, tables, false) && TrueTo(s.toRead, s.parsed, tables, false)
    && TrueTo(s.executing, s.parsed, tables, false) && TrueTo(s.executed, s.parsed, tables, true)
    && TrueTo(s.toWrite, s.parsed, tables, true) && TrueTo(s.writing, s.parsed, tables, true)
    && TrueTo(s.sent, s.parsed, tables, true)
  }

  ghost predicate Inv(s: Pipe, tables: Tables) {
    StagesMatch(s) && Contents(s, tables) && Accounted(Line(s), Ids(s.lost), |s.parsed|)
  }

  /** In line or lost, once, and nothing overtakes. */
  ghost predicate Accounted(line: seq<nat>, lost: seq<nat>, n: nat) {
    && Increasing(line) && (forall id <- line :: id < n)
    && multiset(line) + multiset(lost) == multiset(Upto(n))
    && (lost == [] ==> line == Upto(n))
  }

  lemma {:induction false} IdsConcat(a: seq<Entry>, b: seq<Entry>)
    ensures Ids(a + b) == Ids(a) + Ids(b)
  {
    if a == [] {
      assert a + b == b;
      assert [] + Ids(b) == Ids(b);
    } else {
      var head := if a[0].Request? then [a[0].id] else [];
      IdsConcat(a[1..], b);
      assert (a + b)[0] == a[0] && (a + b)[1..] == a[1..] + b;
      assert head + (Ids(a[1..]) + Ids(b)) == (head + Ids(a[1..])) + Ids(b);
    }
  }

  lemma {:induction false} IdsAnswered(es: seq<Entry>, clientIds: map<int, seq<Byte>>)
    ensures Ids(AnswerAll(es, clientIds)) == Ids(es)
  {
    if es == [] {
    } else {
      IdsAnswered(es[1..], clientIds);
      assert AnswerAll(es, clientIds)[1..] == AnswerAll(es[1..], clientIds);
    }
  }

  lemma IdsOfOne(e: Entry)
    ensures Ids([e]) == if e.Request? then [e.id] else []
  {
    assert [e][1..] == [];
    assert Ids([]) == [];
  }

  // ---- how a step changes the line ----------------------------------------------------------

  /** What is dropped: all that a poll has read when the reader breaks, all that the executor holds when no client is
      left at the callbacks or a socket turns out to be closed at a write, and the one packet that a write is refused
      for. */
  function Drops(s: Pipe, l: Label): seq<Entry> {
    match l
    case BreakRead => s.readList
    case Compute(clientIds) => if clientIds == map[] then s.executing else []
    case WriteOne(outcome) =>
      if outcome.Closed? then s.writing
      else if outcome.Refused? && s.writing != [] then [s.writing[0]]
      else []
    case _ => []
  }

  lemma PollKeepsLine(s: Pipe, l: Label)
    requires StagesMatch(s) && Enabled(s, l) && (l.SpliceRead? || l.TakeRead? || (l.BreakRead? && s.readList == []))
    ensures Line(Next(s, l)) == Line(s)
  {
    assert Ids([]) == [];
    if l.SpliceRead? {
      IdsConcat(s.toRead, s.readList);
      assert Unread(Next(s, l)) == Unread(s);
    } else if l.BreakRead? {
      assert s.lost + [] == s.lost;
    } else {
      assert [] + Unread(s) == Ids(s.toRead) + ([] + Ids(s.readList));
    }
  }

  lemma AnswersKeepLine(s: Pipe, l: Label)
    requires StagesMatch(s) && Enabled(s, l) && (l.SpliceWrite? || (l.Compute? && Drops(s, l) == []))
    ensures Line(Next(s, l)) == Line(s)
  {
    assert Ids([]) == [];
    var rest := Ids(s.executing) + Unread(s);
    if l.SpliceWrite? {
      IdsConcat(s.toWrite, s.executed);
      assert Ids(s.toWrite) + (Ids(s.executed) + rest) == (Ids(s.toWrite) + Ids(s.executed)) + ([] + rest);
    } else {
      IdsAnswered(s.executing, l.clientIds);
      assert [] + rest == Ids(s.executing) + ([] + Unread(s));
    }
  }

  lemma WritesKeepLine(s: Pipe, l: Label)
    requires StagesMatch(s) && Enabled(s, l)
    requires l.Say? || l.TakeWrite? || (l.WriteOne? && l.outcome.Accepted?)
    ensures Line(Next(s, l)) == Line(s)
  {
    assert Ids([]) == [];
    var rest := Ids(s.executed) + (Ids(s.executing) + Unread(s));
    if l.Say? {
      IdsConcat(s.toWrite, [Notice(l.packet)]);
      IdsOfOne(Notice(l.packet));
      assert Ids(s.toWrite) + [] == Ids(s.toWrite);
    } else if l.TakeWrite? {
      assert [] + (Ids(s.toWrite) + rest) == Ids(s.toWrite) + ([] + rest);
    } else {
      OneLeaves(s.sent, s.writing, Ids(s.toWrite) + rest);
    }
  }

  lemma OneLeaves(sent: seq<Entry>, writing: seq<Entry>, rest: seq<nat>)
    requires writing != []
    ensures Ids(sent + [writing[0]]) + (Ids(writing[1..]) + rest) == Ids(sent) + (Ids(writing) + rest)
  {
    var one := [writing[0]];
    IdsConcat(sent, one);
    IdsConcat(one, writing[1..]);
    assert one + writing[1..] == writing;
    hide Ids;
    assert (Ids(sent) + Ids(one)) + (Ids(writing[1..]) + rest)
        == Ids(sent) + ((Ids(one) + Ids(writing[1..])) + rest);
  }

  /** Appending in the innermost of the stages is appending to the line. */
  lemma AppendedInside(a: seq<nat>, b: seq<nat>, c: seq<nat>, d: seq<nat>, e: seq<nat>, f: seq<nat>, x: seq<nat>)
    ensures a + (b + (c + (d + (e + (f + x))))) == (a + (b + (c + (d + (e + f))))) + x
  {
    assert e + (f + x) == (e + f) + x;
    assert d + ((e + f) + x) == (d + (e + f)) + x;
    var g := d + (e + f);
    assert c + (g + x) == (c + g) + x;
    assert b + ((c + g) + x) == (b + (c + g)) + x;
  }

  lemma LineGrows(s: Pipe, p: Packet)
    ensures Line(Next(s, Parse(p))) == Line(s) + [|s.parsed|]
  {
    var n := [|s.parsed|];
    IdsConcat(s.readList, [Request(|s.parsed|, p)]);
    IdsOfOne(Request(|s.parsed|, p));
    assert Ids(s.toRead) + (Ids(s.readList) + n) == Unread(s) + n;
    hide Ids;
    AppendedInside(Ids(s.sent), Ids(s.writing), Ids(s.toWrite), Ids(s.executed), Ids(s.executing), Unread(s), n);
  }

  /** What is dropped is one connected piece of the line. */
  lemma LineShrinks(s: Pipe, l: Label) returns (a: seq<nat>, b: seq<nat>)
    requires StagesMatch(s) && Enabled(s, l) && Drops(s, l) != []
    ensures Line(s) == a + (Ids(Drops(s, l)) + b) && Line(Next(s, l)) == a + b
    ensures Next(s, l).lost == s.lost + Drops(s, l)
  {
    if l.BreakRead? {
      a, b := LineBefore(s), [];
      hide *;
      BreakLoses(s);
    } else if l.Compute? {
      a, b := Ids(s.sent) + ([] + Ids(s.toWrite)), Unread(s);
      assert Ids([]) == [];
      hide Ids;
      LoseInside(Ids(s.sent), Ids(s.toWrite), Ids(s.executing), b);
    } else {
      assert s.writing != [];
      hide *;
      a, b := WriteLoses(s, l.outcome);
    }
  }

  lemma WriteLoses(s: Pipe, outcome: SendOutcome) returns (a: seq<nat>, b: seq<nat>)
    requires s.writing != [] && !outcome.Accepted?
    ensures var l := WriteOne(outcome);
            && Line(s) == a + (Ids(Drops(s, l)) + b) && Line(Next(s, l)) == a + b
            && Next(s, l).lost == s.lost + Drops(s, l)
  {
    assert Ids([]) == [];
    var rest := Ids(s.toWrite) + (Ids(s.executed) + (Ids(s.executing) + Unread(s)));
    a := Ids(s.sent);
    if outcome.Closed? {
      b := rest;
      assert [] + rest == rest;
    } else {
      var one := [s.writing[0]];
      b := Ids(s.writing[1..]) + rest;
      IdsConcat(one, s.writing[1..]);
      assert one + s.writing[1..] == s.writing;
      hide Ids;
      assert (Ids(one) + Ids(s.writing[1..])) + rest == Ids(one) + (Ids(s.writing[1..]) + rest);
    }
  }

  /** The line up to what the poll in progress has read. */
  function LineBefore(s: Pipe): seq<nat> {
    Ids(s.sent) + (Ids(s.writing) + (Ids(s.toWrite) + (Ids(s.executed) + (Ids(s.executing) + Ids(s.toRead)))))
  }

  lemma BreakLoses(s: Pipe)
    ensures Line(s) == LineBefore(s) + (Ids(Drops(s, BreakRead)) + [])
    ensures Line(Next(s, BreakRead)) == LineBefore(s) + []
    ensures Next(s, BreakRead).lost == s.lost + Drops(s, BreakRead)
  {
    assert Ids([]) == [] && Ids(s.toRead) + [] == Ids(s.toRead) && Ids(s.readList) + [] == Ids(s.readList);
    assert LineBefore(s) + [] == LineBefore(s);
    hide Ids;
    AppendedInside(Ids(s.sent), Ids(s.writing), Ids(s.toWrite), Ids(s.executed), Ids(s.executing), Ids(s.toRead),
                   Ids(s.readList));
  }

  lemma LoseInside(a: seq<nat>, c: seq<nat>, m: seq<nat>, b: seq<nat>)
    ensures a + ([] + (c + ([] + (m + b)))) == (a + ([] + c)) + (m + b)
    ensures a + ([] + (c + ([] + ([] + b)))) == (a + ([] + c)) + b
  {
    assert c + ([] + (m + b)) == c + (m + b);
    assert c + ([] + ([] + b)) == c + b;
    assert [] + c == c && [] + (c + (m + b)) == c + (m + b) && [] + (c + b) == c + b;
  }

  lemma IncreasingWithout(a: seq<nat>, m: seq<nat>, b: seq<nat>)
    requires Increasing(a + (m + b))
    ensures Increasing(a + b)
  {
    var whole := a + (m + b);
    forall i, j | 0 <= i < j < |a + b|
      ensures (a + b)[i] < (a + b)[j]
    {
      var i', j' := if i < |a| then i else i + |m|, if j < |a| then j else j + |m|;
      assert whole[i'] == (a + b)[i] && whole[j'] == (a + b)[j];
    }
  }

  // ---- what is in the stages ----------------------------------------------------------------

  lemma StillTrue(es: seq<Entry>, parsed: seq<Packet>, tables: Tables, answered: bool, p: Packet)
    requires TrueTo(es, parsed, tables, answered)
    ensures TrueTo(es, parsed + [p], tables, answered)
  {
  }

  lemma TrueConcat(a: seq<Entry>, b: seq<Entry>, parsed: seq<Packet>, tables: Tables, answered: bool)
    requires TrueTo(a, parsed, tables, answered) && TrueTo(b, parsed, tables, answered)
    ensures TrueTo(a + b, parsed, tables, answered)
  {
  }

  lemma AnswersTrue(es: seq<Entry>, parsed: seq<Packet>, tables: Tables, clientIds: map<int, seq<Byte>>)
    requires TrueTo(es, parsed, tables, false) && clientIds in tables
    ensures TrueTo(AnswerAll(es, clientIds), parsed, tables, true)
  {
    var r := AnswerAll(es, clientIds);
    forall e | e in r && e.Request?
      ensures e.id < |parsed| && IsResponse(e.packet, parsed[e.id], tables)
    {
      var i :| 0 <= i < |r| && r[i] == e;
      assert es[i] in es;
      AnswerSaysBack(parsed[e.id], clientIds);
    }
  }

  lemma StepKeepsContents(s: Pipe, l: Label, tables: Tables)
    requires Contents(s, tables) && Enabled(s, l) && (l.Compute? ==> l.clientIds in tables)
    ensures Contents(Next(s, l), tables)
  {
    match l
    case Parse(p) =>
      StillTrue(s.readList, s.parsed, tables, false, p);
      StillTrue(s.toRead, s.parsed, tables, false, p);
      StillTrue(s.executing, s.parsed, tables, false, p);
      StillTrue(s.executed, s.parsed, tables, true, p);
      StillTrue(s.toWrite, s.parsed, tables, true, p);
      StillTrue(s.writing, s.parsed, tables, true, p);
      StillTrue(s.sent, s.parsed, tables, true, p);
      TrueConcat(s.readList, [Request(|s.parsed|, p)], s.parsed + [p], tables, false);
    case SpliceRead => TrueConcat(s.toRead, s.readList, s.parsed, tables, false);
    case Say(p) => TrueConcat(s.toWrite, [Notice(p)], s.parsed, tables, true);
    case Compute(clientIds) =>
      if clientIds != map[] {
        AnswersTrue(s.executing, s.parsed, tables, clientIds);
      }
    case SpliceWrite => TrueConcat(s.toWrite, s.executed, s.parsed, tables, true);
    case WriteOne(_) =>
      if s.writing != [] {
        TrueConcat(s.sent, [s.writing[0]], s.parsed, tables, true);
      }
    case _ =>
  }

  lemma LineKept(s: Pipe, l: Label)
    requires StagesMatch(s) && Enabled(s, l) && Drops(s, l) == [] && !l.Parse?
    ensures Line(Next(s, l)) == Line(s)
  {
    hide Line, Ids, Next;
    match l
    case SpliceRead => PollKeepsLine(s, l);
    case BreakRead => PollKeepsLine(s, l);
    case TakeRead => PollKeepsLine(s, l);
    case Compute(_) => AnswersKeepLine(s, l);
    case SpliceWrite => AnswersKeepLine(s, l);
    case _ => WritesKeepLine(s, l);
  }

  lemma StepKeepsStages(s: Pipe, l: Label)
    requires StagesMatch(s) && Enabled(s, l)
    ensures StagesMatch(Next(s, l)) && Next(s, l).parsed == s.parsed + if l.Parse? then [l.packet] else []
    ensures Drops(s, l) == [] ==> Next(s, l).lost == s.lost
  {
    match l
    case Parse(_) =>
    case SpliceRead =>
    case BreakRead =>
    case TakeRead =>
    case Compute(_) =>
    case SpliceWrite =>
    case TakeWrite =>
    case Say(_) =>
    case WriteOne(_) =>
  }

  lemma StepKeepsInv(s: Pipe, l: Label, tables: Tables)
    requires Inv(s, tables) && Enabled(s, l) && (l.Compute? ==> l.clientIds in tables)
    ensures Inv(Next(s, l), tables)
  {
    StepKeepsContents(s, l, tables);
    StepKeepsStages(s, l);
    assert l.Parse? ==> Drops(s, l) == [];
    hide Line, Ids, Contents, Next, Enabled, StagesMatch, Accounted, Drops;
    var n := |s.parsed|;
    if l.Parse? {
      LineGrows(s, l.packet);
      LineWithOneMore(Line(s), Ids(s.lost), n);
    } else if Drops(s, l) == [] {
      LineKept(s, l);
    } else {
      var a, b := LineShrinks(s, l);
      IdsConcat(s.lost, Drops(s, l));
      LineWithout(a, Ids(Drops(s, l)), b, Ids(s.lost), n);
    }
  }

  lemma LineWithOneMore(line: seq<nat>, lost: seq<nat>, n: nat)
    requires Accounted(line, lost, n)
    ensures Accounted(line + [n], lost, n + 1)
  {
    assert Upto(n + 1) == Upto(n) + [n];
    assert forall i :: 0 <= i < |line| ==> line[i] in line;
  }

  lemma LineWithout(a: seq<nat>, m: seq<nat>, b: seq<nat>, lost: seq<nat>, n: nat)
    requires Accounted(a + (m + b), lost, n)
    ensures Accounted(a + b, lost + m, n)
  {
    IncreasingWithout(a, m, b);
    assert forall id <- a + b :: id in a + (m + b);
    assert multiset(a + (m + b)) == multiset(a) + (multiset(m) + multiset(b));
    assert multiset(a + b) == multiset(a) + multiset(b);
    assert multiset(lost + m) == multiset(lost) + multiset(m);
    assert lost + m == [] ==> a + (m + b) == a + b;
  }

  lemma {:induction false} RunKeepsInv(s: Pipe, ls: seq<Label>, tables: Tables)
    requires Inv(s, tables) && CanRun(s, ls) && forall l <- ls :: l.Compute? ==> l.clientIds in tables
    ensures Inv(Run(s, ls), tables)
    decreases |ls|
  {
    if ls == [] {
    } else {
      assert ls[0] in ls && forall l <- ls[1..] :: l in ls;
      hide Inv, Next, Enabled;
      StepKeepsInv(s, ls[0], tables);
      RunKeepsInv(Next(s, ls[0]), ls[1..], tables);
    }
  }

  lemma EmptyPipeInv()
    ensures forall tables :: Inv(EMPTY_PIPE, tables)
  {
    assert Ids([]) == [];
    assert Line(EMPTY_PIPE) == [] == Upto(0);
  }

  /** In every run, whatever the poll thread, the executor and the others do in between: every Send that
      was parsed is in exactly one stage or was lost, once; responses leave in the order in which the
      requests were parsed, whichever clients they belong to; and each says the request and then the id that its
      client had in the table which the callbacks of the run found, or, if it was gone, just the request. */
  lemma PipelineConserves(ls: seq<Label>)
    requires CanRun(EMPTY_PIPE, ls)
    ensures var s := Run(EMPTY_PIPE, ls);
            && multiset(Line(s)) + multiset(Ids(s.lost)) == multiset(Upto(|s.parsed|))
            && Increasing(Line(s)) && Increasing(Ids(s.sent))
            && forall e <- s.sent :: e.Request? ==>
                 e.id < |s.parsed| && exists ids :: Compute(ids) in ls && SaysBack(e.packet, s.parsed[e.id], ids)
  {
    var tables := set l | l in ls && l.Compute? :: l.clientIds;
    EmptyPipeInv();
    RunKeepsInv(EMPTY_PIPE, ls, tables);
    var s := Run(EMPTY_PIPE, ls);
    assert Ids(s.sent) <= Line(s);
    IncreasingPrefix(Ids(s.sent), Line(s));
    hide SaysBack, Run, CanRun, Line, Accounted;
    forall e <- s.sent | e.Request?
      ensures e.id < |s.parsed| && exists ids :: Compute(ids) in ls && SaysBack(e.packet, s.parsed[e.id], ids)
    {
      assert IsResponse(e.packet, s.parsed[e.id], tables);
      var ids :| ids in tables && SaysBack(e.packet, s.parsed[e.id], ids);
      assert Compute(ids) in ls;
    }
  }

  lemma IncreasingPrefix(a: seq<nat>, b: seq<nat>)
    requires Increasing(b) && a <= b
    ensures Increasing(a)
  {
  }

  ghost predicate Drained(s: Pipe) {
    && s.readList == s.toRead == s.executing == s.executed == s.writing == []
    && forall e <- s.toWrite :: e.Notice?
  }

  /** When none is under way any more: every request has been responded to, in order, exactly if none was lost. */
  lemma DrainedIsCompleteIff(ls: seq<Label>)
    requires CanRun(EMPTY_PIPE, ls) && Drained(Run(EMPTY_PIPE, ls))
    ensures var s := Run(EMPTY_PIPE, ls);
            Ids(s.sent) == Upto(|s.parsed|) <==> Ids(s.lost) == []
  {
    EmptyPipeInv();
    RunKeepsInv(EMPTY_PIPE, ls, set l | l in ls && l.Compute? :: l.clientIds);
    var s := Run(EMPTY_PIPE, ls);
    hide Run, Contents, CanRun;
    NoticesHaveNoIds(s.toWrite);
    assert Ids([]) == [];
    assert Line(s) == Ids(s.sent);
    assert |multiset(Line(s)) + multiset(Ids(s.lost))| == |Line(s)| + |Ids(s.lost)|;
  }

  lemma {:induction false} NoticesHaveNoIds(es: seq<Entry>)
    requires forall e <- es :: e.Notice?
    ensures Ids(es) == []
  {
    if es == [] {
    } else {
      assert es[0] in es;
      NoticesHaveNoIds(es[1..]);
    }
  }

  /** Whether a Send was parsed, in the poll that is still going on after these steps. */
  predicate Unspliced(ls: seq<Label>) {
    ls != [] &&
    var n := |ls| - 1;
    ls[n].Parse? || (!ls[n].SpliceRead? && !ls[n].BreakRead? && Unspliced(ls[..n]))
  }

  /** No client is left at the callbacks, or a socket is closed or fails otherwise at a write, or the reader breaks when
      the poll has read something. */
  predicate Loses(before: seq<Label>, l: Label) {
    (l.Compute? && l.clientIds == map[]) || (l.WriteOne? && !l.outcome.Accepted?) || (l.BreakRead? && Unspliced(before))
  }

  ghost predicate NeverLoses(ls: seq<Label>) {
    forall i :: 0 <= i < |ls| ==> !Loses(ls[..i], ls[i])
  }

  /** Where such a step can be taken, it does drop something, and no other step does. */
  lemma LosesIff(s: Pipe, before: seq<Label>, l: Label)
    requires StagesMatch(s) && Enabled(s, l) && (s.readList != [] <==> Unspliced(before))
    ensures Drops(s, l) != [] <==> Loses(before, l)
    ensures Next(s, l).lost == s.lost + Drops(s, l)
    ensures Next(s, l).readList != [] <==> Unspliced(before + [l])
  {
    assert s.lost + [] == s.lost;
    assert (before + [l])[..|before|] == before;
  }

  lemma {:induction false} CanRunPrefix(s: Pipe, ls: seq<Label>, l: Label)
    requires CanRun(s, ls + [l])
    ensures CanRun(s, ls) && Enabled(Run(s, ls), l)
    decreases |ls|
  {
    if ls == [] {
      assert ([] + [l])[0] == l;
    } else {
      assert (ls + [l])[0] == ls[0] && (ls + [l])[1..] == ls[1..] + [l];
      CanRunPrefix(Next(s, ls[0]), ls[1..], l);
    }
  }

  lemma {:induction false} LostInRunIff(ls: seq<Label>)
    requires CanRun(EMPTY_PIPE, ls)
    ensures StagesMatch(Run(EMPTY_PIPE, ls)) && (Run(EMPTY_PIPE, ls).readList != [] <==> Unspliced(ls))
    ensures Run(EMPTY_PIPE, ls).lost == [] <==> NeverLoses(ls)
    decreases |ls|
  {
    if ls == [] {
      return;
    }
    var before, l := ls[..|ls| - 1], ls[|ls| - 1];
    assert ls == before + [l];
    CanRunPrefix(EMPTY_PIPE, before, l);
    LostInRunIff(before);
    RunSnoc(EMPTY_PIPE, before, l);
    var s := Run(EMPTY_PIPE, before);
    StepKeepsStages(s, l);
    LosesIff(s, before, l);
    NeverLosesSnoc(before, l);
    hide Loses, Drops, Next, Enabled, StagesMatch, Unspliced, Run, CanRun, NeverLoses;
    assert Next(s, l).lost == [] <==> s.lost == [] && Drops(s, l) == [];
  }

  lemma NeverLosesSnoc(ls: seq<Label>, l: Label)
    ensures NeverLoses(ls + [l]) <==> NeverLoses(ls) && !Loses(ls, l)
  {
    var more := ls + [l];
    assert forall i :: 0 <= i < |ls| ==> more[..i] == ls[..i] && more[i] == ls[i];
    assert more[..|ls|] == ls && more[|ls|] == l;
    hide Loses;
    if NeverLoses(more) {
      forall i | 0 <= i < |ls|
        ensures !Loses(ls[..i], ls[i])
      {
        assert !Loses(more[..i], more[i]);
      }
    }
  }

  /** In every run: nothing is lost, of requests and of what the server itself has to say, exactly if no callbacks
      found the table without clients, every write was accepted, and no reader broke in a poll that had read a Send. */
  lemma NothingIsLostIff(ls: seq<Label>)
    requires CanRun(EMPTY_PIPE, ls)
    ensures Run(EMPTY_PIPE, ls).lost == [] <==> NeverLoses(ls)
  {
    LostInRunIff(ls);
  }

  /** A socket that is closed takes the answers of other clients with it: q was parsed, its client is
      registered and nothing is wrong with its socket, but p came first. */
  lemma ClosedSocketLosesOthers(p: Packet, q: Packet, clientIds: map<int, seq<Byte>>) returns (ls: seq<Label>)
    requires p.socket != q.socket && q.socket in clientIds
    ensures CanRun(EMPTY_PIPE, ls)
    ensures Run(EMPTY_PIPE, ls).lost == [Request(0, Answer(p, clientIds)), Request(1, Answer(q, clientIds))]
    ensures ls == [Parse(p), Parse(q), SpliceRead, TakeRead, Compute(clientIds), SpliceWrite, TakeWrite, WriteOne(Closed)]
  {
    var e0, e1 := Request(0, p), Request(1, q);
    var r0, r1 := Request(0, Answer(p, clientIds)), Request(1, Answer(q, clientIds));
    assert AnswerAll([e0, e1], clientIds) == [r0, r1];
    assert [p] + [q] == [p, q] && [e0] + [e1] == [e0, e1] == [] + [e0, e1] && [r0, r1] == [] + [r0, r1];
    assert [] + [p] == [p] && [] + [e0] == [e0];
    var end := EMPTY_PIPE.(parsed := [p, q], lost := [r0, r1]);
    var read := end.(lost := [], toRead := [e0, e1]);
    ls := ClosedSocketLosesAll(read, [r0, r1], clientIds);
    hide Run, CanRun, AnswerAll, Answer;
    ls := OneMore(end.(lost := [], readList := [e0, e1]), SpliceRead, ls, end);
    ls := OneMore(EMPTY_PIPE.(parsed := [p], readList := [e0]), Parse(q), ls, end);
    ls := OneMore(EMPTY_PIPE, Parse(p), ls, end);
  }

  /** All that is read goes through Execute, and is lost at the first write. */
  lemma ClosedSocketLosesAll(s: Pipe, answers: seq<Entry>, clientIds: map<int, seq<Byte>>) returns (ls: seq<Label>)
    requires s == EMPTY_PIPE.(parsed := s.parsed, toRead := s.toRead) && s.toRead != [] && clientIds != map[]
    requires answers == AnswerAll(s.toRead, clientIds)
    ensures var end := s.(toRead := [], lost := answers);
            && ls == [TakeRead, Compute(clientIds), SpliceWrite, TakeWrite, WriteOne(Closed)]
            && CanRun(s, ls) && Run(s, ls) == end
  {
    var end := s.(toRead := [], lost := answers);
    var base := s.(toRead := []);
    assert CanRun(end, []) && Run(end, []) == end;
    hide Run, CanRun, Answer;
    assert [] + answers == answers;
    ls := OneMore(base.(writing := answers, executor := Writing), WriteOne(Closed), [], end);
    ls := OneMore(base.(toWrite := answers, executor := AtWrite), TakeWrite, ls, end);
    ls := OneMore(base.(executed := answers, executor := Answered), SpliceWrite, ls, end);
    ls := OneMore(base.(executing := s.toRead, executor := Took), Compute(clientIds), ls, end);
    ls := OneMore(s, TakeRead, ls, end);
  }

  lemma OneMore(s: Pipe, l: Label, ls: seq<Label>, end: Pipe) returns (r: seq<Label>)
    requires Enabled(s, l) && CanRun(Next(s, l), ls) && Run(Next(s, l), ls) == end
    ensures r == [l] + ls && CanRun(s, r) && Run(s, r) == end
  {
    r := [l] + ls;
    assert r[1..] == ls;
  }

  // ---- whole calls --------------------------------------------------------------------------

  function PacketsOf(es: seq<Entry>): (r: seq<Packet>)
    ensures |r| == |es|
  {
    seq(|es|, i requires 0 <= i < |es| => es[i].packet)
  }

  lemma {:induction false} RunSnoc(s: Pipe, ls: seq<Label>, l: Label)
    requires CanRun(s, ls) && Enabled(Run(s, ls), l)
    ensures CanRun(s, ls + [l]) && Run(s, ls + [l]) == Next(Run(s, ls), l)
    decreases |ls|
  {
    if ls == [] {
      assert [] + [l] == [l] && [l][1..] == [];
    } else {
      assert (ls + [l])[0] == ls[0] && (ls + [l])[1..] == ls[1..] + [l];
      RunSnoc(Next(s, ls[0]), ls[1..], l);
    }
  }

  /** The steps of the first k writes of a call. */
  function Writes(outcomes: seq<SendOutcome>, k: nat): seq<Label> {
    if k == 0 then [] else Writes(outcomes, k - 1) + [WriteOne(OutcomeAt(outcomes, k - 1))]
  }

  lemma PacketsSnoc(es: seq<Entry>, e: Entry)
    ensures PacketsOf(es + [e]) == PacketsOf(es) + [e.packet]
  {
  }

  lemma SentAssoc(a: seq<Packet>, b: seq<Packet>, c: seq<Packet>)
    ensures a + (b + c) == (a + b) + c && a + [] == a && b + [] == b
  {
  }

  lemma {:induction false} WritesRun(s: Pipe, outcomes: seq<SendOutcome>, k: nat)
    requires s.executor.Writing? && s.writing != [] && k <= Reach(outcomes, |s.writing|)
    ensures CanRun(s, Writes(outcomes, k))
    ensures var s' := Run(s, Writes(outcomes, k));
            && s'.writing == s.writing[k..] && s'.toWrite == s.toWrite
            && s'.executor == (if k == |s.writing| then AtExecute else Writing)
            && PacketsOf(s'.sent) == PacketsOf(s.sent) + AcceptedOf(PacketsOf(s.writing)[..k], outcomes)
  {
    var ps := PacketsOf(s.writing);
    if k == 0 {
      assert AcceptedOf(ps[..0], outcomes) == [];
    } else {
      WritesRun(s, outcomes, k - 1);
      var s1, o := Run(s, Writes(outcomes, k - 1)), OutcomeAt(outcomes, k - 1);
      RunSnoc(s, Writes(outcomes, k - 1), WriteOne(o));
      assert s1.writing[0] == s.writing[k - 1] && s1.writing[1..] == s.writing[k..];
      assert ps[..k][..k - 1] == ps[..k - 1] && ps[..k][k - 1] == s1.writing[0].packet;
      assert Writes(outcomes, k) == Writes(outcomes, k - 1) + [WriteOne(o)];
      assert AcceptedOf(ps[..k], outcomes)
          == AcceptedOf(ps[..k - 1], outcomes) + if o.Accepted? then [s1.writing[0].packet] else [];
      hide Run, CanRun, Enabled, AcceptedOf, Writes, OutcomeAt, Reach, PacketsOf;
      PacketsSnoc(s1.sent, s1.writing[0]);
      SentAssoc(PacketsOf(s.sent), AcceptedOf(ps[..k - 1], outcomes), if o.Accepted? then [s1.writing[0].packet] else []);
    }
  }

  /** A whole call of ClientInfos::Write, in steps: what gets sent is what the call sends, and the executor
      is through with its list. */
  lemma WriteCallRuns(s: Pipe, outcomes: seq<SendOutcome>) returns (ls: seq<Label>)
    requires s.executor.Writing? && s.writing != []
    ensures CanRun(s, ls) && Run(s, ls).writing == [] && Run(s, ls).executor.AtExecute?
    ensures var ps := PacketsOf(s.writing);
            PacketsOf(Run(s, ls).sent) == PacketsOf(s.sent) + AcceptedOf(ps[..Reach(outcomes, |ps|)], outcomes)
  {
    var reach := Reach(outcomes, |s.writing|);
    WritesRun(s, outcomes, reach);
    ls := Writes(outcomes, reach);
    if reach < |s.writing| {
      RunSnoc(s, ls, WriteOne(Closed));
      ls := ls + [WriteOne(Closed)];
    }
  }

  /** A whole call of ClientInfos::Execute that finds packets and clients, in steps. */
  lemma ExecuteCallRuns(s: Pipe, clientIds: map<int, seq<Byte>>)
    requires s.executor.AtExecute? && s.toRead != [] && clientIds != map[]
    ensures var ls := [TakeRead, Compute(clientIds), SpliceWrite];
            && CanRun(s, ls) && Run(s, ls).toRead == [] && Run(s, ls).executor.AtWrite?
            && PacketsOf(Run(s, ls).toWrite) == PacketsOf(s.toWrite) + AnswerPackets(PacketsOf(s.toRead), clientIds)
  {
    var s1 := Next(s, TakeRead);
    var s2 := Next(s1, Compute(clientIds));
    var end := Next(s2, SpliceWrite);
    var ls := OneMore(s2, SpliceWrite, [], end);
    ls := OneMore(s1, Compute(clientIds), ls, end);
    ls := OneMore(s, TakeRead, ls, end);
    assert ls == [TakeRead, Compute(clientIds), SpliceWrite];
    assert PacketsOf(AnswerAll(s.toRead, clientIds)) == AnswerPackets(PacketsOf(s.toRead), clientIds);
  }

  function ParseAll(ps: seq<Packet>): seq<Label> {
    if ps == [] then [] else ParseAll(ps[..|ps| - 1]) + [Parse(ps[|ps| - 1])]
  }

  lemma {:induction false} ParsesRun(s: Pipe, ps: seq<Packet>)
    ensures CanRun(s, ParseAll(ps))
    ensures var s' := Run(s, ParseAll(ps));
            && s' == s.(parsed := s.parsed + ps, readList := s'.readList)
            && PacketsOf(s'.readList) == PacketsOf(s.readList) + ps
    decreases |ps|
  {
    if ps == [] {
      assert s.parsed + [] == s.parsed && PacketsOf(s.readList) + [] == PacketsOf(s.readList);
    } else {
      var before, p := ps[..|ps| - 1], ps[|ps| - 1];
      ParsesRun(s, before);
      var s1 := Run(s, ParseAll(before));
      RunSnoc(s, ParseAll(before), Parse(p));
      PacketsSnoc(s1.readList, Request(|s1.parsed|, p));
      assert ps == before + [p];
      hide Run, CanRun, PacketsOf;
      SentAssoc(s.parsed, before, [p]);
      SentAssoc(PacketsOf(s.readList), before, [p]);
    }
  }

  /** A whole call of ClientInfos::OnReadPoll, in steps: the Sends that it reads become packets to read, unless the
      reader breaks; then they are lost. */
  lemma PollCallRuns(s: Pipe, sends: seq<Packet>, broken: bool)
    requires s.readList == []
    ensures var ls := ParseAll(sends) + [if broken then BreakRead else SpliceRead];
            && CanRun(s, ls) && Run(s, ls).readList == []
            && PacketsOf(Run(s, ls).toRead) == PacketsOf(s.toRead) + (if broken then [] else sends)
            && PacketsOf(Run(s, ls).lost) == PacketsOf(s.lost) + (if broken then sends else [])
            && Run(s, ls).parsed == s.parsed + sends
  {
    ParsesRun(s, sends);
    var s1 := Run(s, ParseAll(sends));
    RunSnoc(s, ParseAll(sends), if broken then BreakRead else SpliceRead);
    assert PacketsOf([]) + sends == sends;
    hide Run, CanRun, ParseAll, PacketsOf;
    PacketsConcat(s.toRead, s1.readList);
    PacketsConcat(s.lost, s1.readList);
  }

  lemma PacketsConcat(a: seq<Entry>, b: seq<Entry>)
    ensures PacketsOf(a + b) == PacketsOf(a) + PacketsOf(b)
    ensures PacketsOf(a) + [] == PacketsOf(a)
  {
  }
}
