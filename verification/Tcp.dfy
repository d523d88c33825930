/** The receive buffer with its moving offset. */
module Buffers {
  import opened Bytes

  class Buffer {
    const arr: array<Byte>
    var offset: nat

    ghost predicate Valid()
      reads this
    {
      offset <= arr.Length
    }

    constructor (size: nat)
      requires 0 < size
      ensures Valid() && offset == 0 && arr.Length == size && fresh(arr)
    {
      arr := new Byte[size](_ => 0);
      offset := 0;
    }

    function Size(): (n: nat)
      requires Valid()
      reads this
      ensures n == arr.Length - offset
    {
      arr.Length - offset
    }

    function SizeIgnoreOffset(): (n: nat)
      ensures n == arr.Length
    {
      arr.Length
    }

    /** The n bytes that data(), begin() and operator[] reach from the offset. */
    function Window(n: nat): (w: seq<Byte>)
      requires offset + n <= arr.Length
      reads this, arr
      ensures |w| == n && forall i :: 0 <= i < n ==> w[i] == arr[offset + i]
    {
      arr[..][offset..offset + n]
    }

    method SetOffset(newOffset: nat)
      requires newOffset <= arr.Length
      modifies this
      ensures Valid() && offset == newOffset
    {
      offset := newOffset;
    }

    method OffsetBy(amount: nat)
      requires offset + amount <= arr.Length
      modifies this
      ensures Valid() && offset == old(offset) + amount
    {
      SetOffset(offset + amount);
    }

    method OffsetBack(amount: nat)
      requires Valid() && amount <= offset
      modifies this
      ensures Valid() && offset == old(offset) - amount
    {
      SetOffset(offset - amount);
    }

    /** std::copy(arr + offset, arr + size, arr), front to back over the overlapping ranges. */
    method MoveToStart()
      requires Valid()
      modifies this, arr
      ensures Valid() && offset == 0
      ensures arr[..] == old(arr[..][offset..]) + old(arr[..][arr.Length - offset..])
    {
      var n := arr.Length - offset;
      for i := 0 to n
        invariant offset == old(offset)
        invariant forall k :: 0 <= k < i ==> arr[k] == old(arr[k + offset])
        invariant forall k :: i <= k < arr.Length ==> arr[k] == old(arr[k])
      {
        arr[i] := arr[i + offset];
      }
      SetOffset(0);
    }
  }
}

/** Receiving from a TCP socket. The operating system is an oracle: a script of recv outcomes over the
    bytes that the peer has sent and that were not consumed yet. */
module Tcp {
  import opened Bytes
  import opened Buffers

  /** What one ::recv does. The errno classes are those that HandleError tells apart: Again is EAGAIN or
      EWOULDBLOCK, Recoverable is EINTR, ENOMEM, EALREADY or ETIMEDOUT, Fatal is one that marks the
      socket closed, Unclassified is any other. A Deliver that can move no byte is the end of file. */
  datatype Outcome = Deliver(count: nat) | Again | Recoverable | Fatal | Unclassified

  datatype Result = Result(noOfBytes: nat, socketClosed: bool) {
    predicate IsFailure() {
      noOfBytes == 0 || socketClosed
    }
  }

  function Min(a: nat, b: nat): nat {
    if a < b then a else b
  }

  /** The return value of ::recv for a given outcome; -1 stands for an error. */
  function Received(o: Outcome, available: nat, len: nat): int {
    if o.Deliver? then Min(o.count, Min(available, len)) else -1
  }

  /** The next outcome of a script, and the script after it; running off the script is the end of file. */
  function First(os: seq<Outcome>): Outcome {
    if os == [] then Deliver(0) else os[0]
  }

  function Rest(os: seq<Outcome>): seq<Outcome> {
    if os == [] then [] else os[1..]
  }

  /** What a receiving function comes to: how many bytes it takes, whether it reports the socket closed,
      and what is left of the script. */
  datatype Taken = Taken(count: nat, closed: bool, after: seq<Outcome>)

  const PATIENCE: nat := 25

  /** Taking exactly size bytes, over any number of receives. Five EAGAINs or one recoverable error make one
      major failure and five of those are too many: worn counts up to 25. */
  function TakeFixed(available: nat, os: seq<Outcome>, size: nat, worn: nat): (t: Taken)
    requires worn < PATIENCE
    ensures t.count <= size && t.count <= available && (t.closed ==> t.count < size)
    decreases |os|
  {
    if size == 0 then Taken(0, false, os)
    else
      match First(os)
      case Deliver(n) =>
        var recv := Min(n, Min(available, size));
        if recv == 0 then Taken(0, false, Rest(os))
        else
          var more := TakeFixed(available - recv, Rest(os), size - recv, worn);
          more.(count := recv + more.count)
      case Again =>
        if worn + 1 >= PATIENCE then Taken(0, true, Rest(os)) else TakeFixed(available, Rest(os), size, worn + 1)
      case Recoverable =>
        if worn + 5 >= PATIENCE then Taken(0, true, Rest(os)) else TakeFixed(available, Rest(os), size, worn + 5)
      case Fatal => Taken(0, true, Rest(os))
      case Unclassified => Taken(0, false, Rest(os))
  }

  /** What is taken in all, when total bytes are there already. */
  function Onto(total: nat, t: Taken): Taken {
    t.(count := total + t.count)
  }

  lemma {:induction false} FixedStep(total: nat, available: nat, os: seq<Outcome>, size: nat, worn: nat)
    requires worn < PATIENCE
    ensures Onto(0, TakeFixed(available, os, size, worn)) == TakeFixed(available, os, size, worn)
    ensures size == 0 ==> Onto(total, TakeFixed(available, os, size, worn)) == Taken(total, false, os)
    ensures 0 < size ==>
              var o, recv := First(os), Received(First(os), available, size);
              var worn' := worn + if o.Again? then 1 else if o.Recoverable? then 5 else 0;
              Onto(total, TakeFixed(available, os, size, worn)) ==
              if recv == 0 || o.Unclassified? then Taken(total, false, Rest(os))
              else if o.Fatal? || worn' >= PATIENCE then Taken(total, true, Rest(os))
              else
                var more := if recv < 0 then 0 else recv;
                Onto(total + more, TakeFixed(available - more, Rest(os), size - more, worn'))
  {
  }

  /** Taking whatever one receive brings, up to room bytes; only recoverable errors are tried again. */
  function TakeSome(available: nat, os: seq<Outcome>, room: nat): (t: Taken)
    ensures t.count <= room && t.count <= available && (t.closed ==> t.count == 0)
    decreases |os|
  {
    match First(os)
    case Deliver(n) =>
      var recv := Min(n, Min(available, room));
      Taken(recv, recv == 0, Rest(os))
    case Again => Taken(0, false, Rest(os))
    case Recoverable => TakeSome(available, Rest(os), room)
    case Fatal => Taken(0, true, Rest(os))
    case Unclassified => Taken(0, false, Rest(os))
  }

  /** Recoverable errors that come first make no difference. */
  lemma {:induction false} RecoverableSkipped(available: nat, errors: seq<Outcome>, os: seq<Outcome>, room: nat)
    requires forall o <- errors :: o.Recoverable?
    ensures TakeSome(available, errors + os, room) == TakeSome(available, os, room)
    decreases |errors|
  {
    if errors == [] {
      assert errors + os == os;
    } else {
      assert errors[0] in errors && (errors + os)[0] == errors[0] && (errors + os)[1..] == errors[1..] + os;
      RecoverableSkipped(available, errors[1..], os, room);
    }
  }

  /** What counts is the first outcome of another kind, and what is behind it is left. */
  lemma SomeIsFirst(available: nat, errors: seq<Outcome>, os: seq<Outcome>, room: nat)
    requires (forall o <- errors :: o.Recoverable?) && !First(os).Recoverable?
    ensures var last := First(os);
            var count := if last.Deliver? then Min(last.count, Min(available, room)) else 0;
            TakeSome(available, errors + os, room)
            == Taken(count, last.Fatal? || (last.Deliver? && count == 0), Rest(os))
  {
    RecoverableSkipped(available, errors, os, room);
  }

  /** The first n incoming bytes moved into the array at an offset; the rest of both is as before. */
  ghost predicate Landed(arr: seq<Byte>, at: nat, incoming: seq<Byte>, n: nat, arr': seq<Byte>, incoming': seq<Byte>) {
    && n <= |incoming| && at + n <= |arr| == |arr'|
    && incoming' == incoming[n..]
    && forall k :: 0 <= k < |arr'| ==> arr'[k] == if at <= k < at + n then incoming[k - at] else arr[k]
  }

  lemma LandedTwice(arr: seq<Byte>, at: nat, inc: seq<Byte>, n: nat, arr': seq<Byte>, inc': seq<Byte>,
                    m: nat, arr'': seq<Byte>, inc'': seq<Byte>)
    requires Landed(arr, at, inc, n, arr', inc') && Landed(arr', at + n, inc', m, arr'', inc'')
    ensures Landed(arr, at, inc, n + m, arr'', inc'')
  {
    assert inc[n..][m..] == inc[n + m..];
  }

  lemma LandedPrefix(arr: seq<Byte>, at: nat, incoming: seq<Byte>, n: nat, arr': seq<Byte>, incoming': seq<Byte>)
    requires Landed(arr, at, incoming, n, arr', incoming')
    ensures |arr'| == |arr| && arr'[..at + n] == arr[..at] + incoming[..n]
    ensures incoming == incoming[..n] + incoming'
  {
  }

  /** Behind n bytes that were there already. */
  lemma LandedBehind(arr: seq<Byte>, at: nat, n: nat, incoming: seq<Byte>, m: nat, arr': seq<Byte>, incoming': seq<Byte>)
    requires at + n <= |arr| && Landed(arr, at + n, incoming, m, arr', incoming')
    ensures |arr'| == |arr| && incoming' == incoming[m..]
    ensures at + n + m <= |arr'| && arr'[at..at + (n + m)] == arr[at..at + n] + incoming[..m]
  {
  }

  /** What the operating system was told about sockets. */
  class Sockets {
    var shut: set<int>
    var closed: seq<int>

    constructor ()
      ensures shut == {} && closed == []
    {
      shut, closed := {}, [];
    }

    /** network::Socket::close, which is ::shutdown. */
    method Shutdown(socket: int)
      modifies `shut
      ensures shut == old(shut) + {socket}
    {
      shut := shut + {socket};
    }

    /** ::close */
    method Close(socket: int)
      modifies `closed
      ensures closed == old(closed) + [socket]
    {
      closed := closed + [socket];
    }
  }

  class Wire {
    var incoming: seq<Byte>
    var outcomes: seq<Outcome>

    constructor (incoming: seq<Byte>, outcomes: seq<Outcome>)
      ensures this.incoming == incoming && this.outcomes == outcomes
    {
      this.incoming, this.outcomes := incoming, outcomes;
    }

    /** ::recv into arr[at..at + len); an exhausted script is the end of file. */
    method Recv(arr: array<Byte>, at: nat, len: nat) returns (r: int, o: Outcome)
      requires at + len <= arr.Length
      modifies `incoming, `outcomes, arr
      ensures o == First(old(outcomes)) && outcomes == Rest(old(outcomes))
      ensures r == Received(o, |old(incoming)|, len)
      ensures Landed(old(arr[..]), at, old(incoming), if r < 0 then 0 else r, arr[..], incoming)
    {
      o := Deliver(0);
      if outcomes != [] {
        o := outcomes[0];
        outcomes := outcomes[1..];
      }
      r := Received(o, |incoming|, len);
      if 0 < r {
        forall k | at <= k < at + r {
          arr[k] := incoming[k - at];
        }
        incoming := incoming[r..];
      }
    }
  }

  /** TCP::HandleError; the sleeps have no effect on the state. */
  method HandleError(o: Outcome, closed: bool, asyncFail: nat, majorFail: nat)
    returns (retry: bool, closed': bool, asyncFail': nat, majorFail': nat)
    requires !o.Deliver? && asyncFail < 5
    ensures asyncFail' < 5
    ensures retry <==> o.Again? || o.Recoverable?
    ensures closed' <==> closed || o.Fatal?
    ensures 5 * majorFail' + asyncFail'
         == 5 * majorFail + asyncFail + (if o.Again? then 1 else if o.Recoverable? then 5 else 0)
    ensures o.Again? && asyncFail < 4 ==> majorFail' == majorFail
    ensures o.Recoverable? ==> asyncFail' == asyncFail
  {
    retry, closed', asyncFail', majorFail' := false, closed, asyncFail, majorFail;
    if o.Again? {
      asyncFail' := asyncFail' + 1;
      if asyncFail' >= 5 {
        asyncFail' := 0;
        majorFail' := majorFail' + 1;
      }
      retry := true;
    } else if o.Recoverable? {
      majorFail' := majorFail' + 1;
      retry := true;
    } else if o.Fatal? {
      closed' := true;
    }
  }

  /** The ::recv call of recvFixedBytes, with what is known so far. */
  method RecvMore(wire: Wire, buffer: Buffer, total: nat, size: nat, ghost arr: seq<Byte>, ghost incoming: seq<Byte>)
    returns (recv: int, o: Outcome)
    requires buffer.Valid() && total < size <= buffer.Size()
    requires Landed(arr, buffer.offset, incoming, total, buffer.arr[..], wire.incoming)
    modifies wire`incoming, wire`outcomes, buffer.arr
    ensures o == First(old(wire.outcomes)) && wire.outcomes == Rest(old(wire.outcomes))
    ensures recv == Received(o, |old(wire.incoming)|, size - total) <= size - total && -1 <= recv
    ensures recv == -1 <==> !o.Deliver?
    ensures |wire.incoming| == |old(wire.incoming)| - if recv < 0 then 0 else recv
    ensures Landed(arr, buffer.offset, incoming, if recv < 0 then total else total + recv, buffer.arr[..], wire.incoming)
  {
    ghost var arr', incoming' := buffer.arr[..], wire.incoming;
    recv, o := wire.Recv(buffer.arr, buffer.offset + total, size - total);
    LandedTwice(arr, buffer.offset, incoming, total, arr', incoming',
                if recv < 0 then 0 else recv, buffer.arr[..], wire.incoming);
  }

  /** One round of recvFixedBytes. */
  method RecvRound(wire: Wire, buffer: Buffer, total: nat, size: nat, asyncFail: nat, majorFail: nat,
                   ghost arr: seq<Byte>, ghost incoming: seq<Byte>)
    returns (stop: bool, total': nat, closed: bool, asyncFail': nat, majorFail': nat)
    requires buffer.Valid() && total < size <= buffer.Size() && asyncFail < 5 && majorFail < 5
    requires Landed(arr, buffer.offset, incoming, total, buffer.arr[..], wire.incoming)
    modifies wire`incoming, wire`outcomes, buffer.arr
    ensures total <= total' <= size && asyncFail' < 5
    ensures Landed(arr, buffer.offset, incoming, total', buffer.arr[..], wire.incoming)
    ensures !stop ==> !closed && majorFail' < 5
    ensures !stop ==> total' + 5 * majorFail' + asyncFail' > total + 5 * majorFail + asyncFail
    ensures Onto(total, TakeFixed(|old(wire.incoming)|, old(wire.outcomes), size - total, 5 * majorFail + asyncFail))
         == if stop then Taken(total', closed, wire.outcomes)
            else Onto(total', TakeFixed(|wire.incoming|, wire.outcomes, size - total', 5 * majorFail' + asyncFail'))
  {
    FixedStep(total, |wire.incoming|, wire.outcomes, size - total, 5 * majorFail + asyncFail);
    hide Landed, TakeFixed, Onto, Rest, First, Received;
    stop, total', closed, asyncFail', majorFail' := true, total, false, asyncFail, majorFail;
    var recv, o := RecvMore(wire, buffer, total, size, arr, incoming);
    if recv == 0 {
      return;
    }
    if recv == -1 {
      var retry;
      retry, closed, asyncFail', majorFail' := HandleError(o, false, asyncFail, majorFail);
      stop := !retry;
      if retry && majorFail' >= 5 {
        stop, closed := true, true;
      }
    } else {
      stop, total' := false, total + recv;
    }
  }

  /** TCP::recvFixedBytes with MSG_DONTWAIT, the only way the protocol calls it: exactly the bytes it takes from
      the stream land at the offset, and the rest of the buffer is untouched. */
  method RecvFixedBytes(wire: Wire, buffer: Buffer, size: nat) returns (result: Result)
    requires buffer.Valid() && size <= buffer.Size()
    modifies wire`incoming, wire`outcomes, buffer.arr
    ensures Taken(result.noOfBytes, result.socketClosed, wire.outcomes)
         == TakeFixed(|old(wire.incoming)|, old(wire.outcomes), size, 0)
    ensures Landed(old(buffer.arr[..]), buffer.offset, old(wire.incoming), result.noOfBytes, buffer.arr[..], wire.incoming)
  {
    var total, asyncFail, majorFail := 0, 0, 0;
    var stop, closed := false, false;
    ghost var arr, incoming, outcomes := buffer.arr[..], wire.incoming, wire.outcomes;
    assert Landed(arr, buffer.offset, incoming, 0, arr, incoming);
    FixedStep(0, |incoming|, outcomes, size, 0);
    hide *;
    while !stop && total < size
      invariant 0 <= total <= size && asyncFail < 5
      invariant Landed(arr, buffer.offset, incoming, total, buffer.arr[..], wire.incoming)
      invariant !stop ==> !closed && majorFail < 5
      invariant TakeFixed(|incoming|, outcomes, size, 0)
             == if stop then Taken(total, closed, wire.outcomes)
                else Onto(total, TakeFixed(|wire.incoming|, wire.outcomes, size - total, 5 * majorFail + asyncFail))
      decreases !stop, size - total + PATIENCE - (5 * majorFail + asyncFail)
    {
      stop, total, closed, asyncFail, majorFail :=
        RecvRound(wire, buffer, total, size, asyncFail, majorFail, arr, incoming);
    }
    if !stop {
      FixedStep(total, |wire.incoming|, wire.outcomes, size - total, 5 * majorFail + asyncFail);
    }
    result := Result(total, closed);
  }

  /** TCP::recvAsManyAsPossibleAsync: after so many receives that failed in a recoverable way comes one that did not,
      and that is the one that counts. */
  method RecvAsManyAsPossible(wire: Wire, buffer: Buffer) returns (result: Result, ghost again: nat)
    requires buffer.Valid()
    modifies wire`incoming, wire`outcomes, buffer.arr
    ensures again <= |old(wire.outcomes)| && (forall i :: 0 <= i < again ==> old(wire.outcomes)[i].Recoverable?)
    ensures var last := First(old(wire.outcomes)[again..]);
            && !last.Recoverable? && wire.outcomes == Rest(old(wire.outcomes)[again..])
            && result.noOfBytes == (if last.Deliver? then Min(last.count, Min(|old(wire.incoming)|, buffer.Size())) else 0)
            && (result.socketClosed <==> last.Fatal? || (last.Deliver? && result.noOfBytes == 0))
    ensures Taken(result.noOfBytes, result.socketClosed, wire.outcomes)
         == TakeSome(|old(wire.incoming)|, old(wire.outcomes), buffer.Size())
    ensures Landed(old(buffer.arr[..]), buffer.offset, old(wire.incoming), result.noOfBytes, buffer.arr[..], wire.incoming)
    decreases |wire.outcomes|
  {
    ghost var outcomes := wire.outcomes;
    again := 0;
    assert outcomes[0..] == outcomes;
    var recv, o := wire.Recv(buffer.arr, buffer.offset, buffer.Size());
    if recv == -1 {
      var retry, closed, asyncFail, majorFail := HandleError(o, false, 0, 0);
      if !retry || asyncFail != 0 {
        return Result(0, closed), 0;
      }
      result, again := RecvAsManyAsPossible(wire, buffer);
      assert outcomes[1..][again..] == outcomes[again + 1..];
      again := again + 1;
      return;
    }
    result := Result(recv, recv == 0);
  }

  // ---- how often they try -------------------------------------------------------------------

  /** How far an outcome wears recvFixedBytes down. */
  function Cost(o: Outcome): nat {
    match o case Again => 1 case Recoverable => 5 case _ => 0
  }

  function Wear(os: seq<Outcome>): nat {
    if os == [] then 0 else Cost(os[0]) + Wear(os[1..])
  }

  function Failing(os: seq<Outcome>): nat {
    if os == [] then 0 else (if os[0].Deliver? then 0 else 1) + Failing(os[1..])
  }

  function Brings(o: Outcome, available: nat, size: nat): nat {
    if o.Deliver? then Min(o.count, Min(available, size)) else 0
  }

  /** Whether recvFixedBytes goes on after a receive. */
  predicate GoesOn(o: Outcome, available: nat, size: nat, worn: nat) {
    if o.Deliver? then 0 < Brings(o, available, size)
    else !o.Unclassified? && !o.Fatal? && worn + Cost(o) < PATIENCE
  }

  /** The outcomes that recvFixedBytes goes through; one end of file more if it runs off the script. */
  function FixedUses(available: nat, os: seq<Outcome>, size: nat, worn: nat): seq<Outcome>
    requires worn < PATIENCE
    decreases |os|
  {
    if size == 0 || os == [] then []
    else if !GoesOn(os[0], available, size, worn) then [os[0]]
    else
      var more := Brings(os[0], available, size);
      [os[0]] + FixedUses(available - more, os[1..], size - more, worn + Cost(os[0]))
  }

  /** Where the next round starts. */
  datatype Round = Round(available: nat, os: seq<Outcome>, size: nat, worn: nat)

  function NextRound(r: Round): (next: Round)
    requires r.os != [] && 0 < r.size && r.worn < PATIENCE && GoesOn(r.os[0], r.available, r.size, r.worn)
    ensures next.worn < PATIENCE && next.os == r.os[1..]
  {
    var more := Brings(r.os[0], r.available, r.size);
    Round(r.available - more, r.os[1..], r.size - more, r.worn + Cost(r.os[0]))
  }

  function Takes(r: Round): Taken
    requires r.worn < PATIENCE
  {
    TakeFixed(r.available, r.os, r.size, r.worn)
  }

  function Uses(r: Round): seq<Outcome>
    requires r.worn < PATIENCE
  {
    FixedUses(r.available, r.os, r.size, r.worn)
  }

  lemma {:induction false} RoundsGoOn(r: Round)
    requires r.worn < PATIENCE
    ensures r.size == 0 ==> Takes(r) == Taken(0, false, r.os) && Uses(r) == []
    ensures r.os == [] && 0 < r.size ==> Takes(r) == Taken(0, false, []) && Uses(r) == []
    ensures r.os != [] && 0 < r.size ==>
              var o := r.os[0];
              if GoesOn(o, r.available, r.size, r.worn) then
                && Takes(r) == Onto(Brings(o, r.available, r.size), Takes(NextRound(r)))
                && Uses(r) == [o] + Uses(NextRound(r))
              else
                && Takes(r) == Taken(0, o.Fatal? || r.worn + Cost(o) >= PATIENCE, r.os[1..])
                && Uses(r) == [o]
  {
  }

  lemma {:induction false} WearCons(o: Outcome, os: seq<Outcome>)
    ensures Wear([o] + os) == Cost(o) + Wear(os)
    ensures Failing([o] + os) == (if o.Deliver? then 0 else 1) + Failing(os)
    ensures Wear([]) == Failing([]) == 0 && [o] + [] == [o]
  {
    assert ([o] + os)[1..] == os;
  }

  ghost predicate Bounded(r: Round, t: Taken, used: seq<Outcome>) {
    && r.os == used + t.after
    && r.worn + Failing(used) <= 25 && |used| <= t.count + Failing(used) + 1
  }

  lemma {:induction false} BoundedMore(r: Round, t: Taken, used: seq<Outcome>)
    requires r.os != [] && 0 < r.size && r.worn < PATIENCE && GoesOn(r.os[0], r.available, r.size, r.worn)
    requires Bounded(NextRound(r), t, used)
    ensures Bounded(r, Onto(Brings(r.os[0], r.available, r.size), t), [r.os[0]] + used)
  {
    WearCons(r.os[0], used);
    assert r.os == [r.os[0]] + r.os[1..];
    assert [r.os[0]] + (used + t.after) == ([r.os[0]] + used) + t.after;
    hide Failing;
  }

  /** recvFixedBytes gives up after at most 25 failing receives, and no more than one of the others brings
      nothing. */
  lemma {:induction false} FixedIsBounded(r: Round)
    requires r.worn < PATIENCE
    ensures Bounded(r, Takes(r), Uses(r))
    decreases |r.os|
  {
    RoundsGoOn(r);
    assert r.os == [] + r.os && Failing([]) == 0;
    if r.size != 0 && r.os != [] {
      if GoesOn(r.os[0], r.available, r.size, r.worn) {
        FixedIsBounded(NextRound(r));
        BoundedMore(r, Takes(NextRound(r)), Uses(NextRound(r)));
      } else {
        WearCons(r.os[0], []);
        assert r.os == [r.os[0]] + r.os[1..];
      }
    }
  }

  predicate StopsAt(last: Outcome, drained: bool, worn: nat) {
    (last.Deliver? && (last.count == 0 || drained)) || last.Fatal? || last.Unclassified? || worn >= 25
  }

  ghost predicate Reasons(r: Round, t: Taken, used: seq<Outcome>) {
    if t.count == r.size then !t.closed
    else if used == [] then t.after == [] && !t.closed
    else
      var last := used[|used| - 1];
      && (t.after == [] || StopsAt(last, t.count == r.available, r.worn + Wear(used)))
      && (t.closed <==> last.Fatal? || r.worn + Wear(used) >= 25)
  }

  lemma {:induction false} ReasonsMore(r: Round, t: Taken, used: seq<Outcome>)
    requires r.os != [] && 0 < r.size && r.worn < PATIENCE && GoesOn(r.os[0], r.available, r.size, r.worn)
    requires Reasons(NextRound(r), t, used)
    ensures Reasons(r, Onto(Brings(r.os[0], r.available, r.size), t), [r.os[0]] + used)
  {
    WearCons(r.os[0], used);
    assert ([r.os[0]] + used)[|used|] == if used == [] then r.os[0] else used[|used| - 1];
    hide Wear;
  }

  /** It stops short only at the end of the stream or of the script, on an error that is not retried, or when
      it is worn out; it reports the socket closed exactly after a fatal error and when worn out. */
  lemma {:induction false} FixedStopsFor(r: Round)
    requires r.worn < PATIENCE
    ensures Reasons(r, Takes(r), Uses(r))
    decreases |r.os|
  {
    RoundsGoOn(r);
    if r.size != 0 && r.os != [] {
      if GoesOn(r.os[0], r.available, r.size, r.worn) {
        FixedStopsFor(NextRound(r));
        ReasonsMore(r, Takes(NextRound(r)), Uses(NextRound(r)));
      } else {
        WearCons(r.os[0], []);
      }
    }
  }
}
