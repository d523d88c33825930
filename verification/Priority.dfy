/** The load balancer: one load per shard, and where the least and the greatest load are. */
module Priorities {

  datatype Loads = Loads(sizes: seq<nat>, minIdx: nat, maxIdx: nat)

  ghost predicate WellIndexed(b: Loads) {
    b.minIdx < |b.sizes| && b.maxIdx < |b.sizes|
  }

  ghost predicate IsMin(sizes: seq<nat>, i: nat) {
    i < |sizes| && forall j :: 0 <= j < |sizes| ==> sizes[i] <= sizes[j]
  }

  ghost predicate IsMax(sizes: seq<nat>, i: nat) {
    i < |sizes| && forall j :: 0 <= j < |sizes| ==> sizes[j] <= sizes[i]
  }

  ghost predicate LastZero(sizes: seq<nat>, z: nat) {
    z < |sizes| && sizes[z] == 0 && forall j :: z < j < |sizes| ==> sizes[j] != 0
  }

  /** A least and a greatest load are where the indices say. */
  ghost predicate Extremes(b: Loads) {
    IsMin(b.sizes, b.minIdx) && IsMax(b.sizes, b.maxIdx)
  }

  /** What one round of the scan does to the indices: a zero always takes the least index, other ties
      do not. */
  function Look(b: Loads, i: nat): (r: Loads)
    requires b.minIdx < |b.sizes| && b.maxIdx < |b.sizes| && i < |b.sizes|
    ensures r.sizes == b.sizes && r.minIdx < |r.sizes| && r.maxIdx < |r.sizes|
  {
    Loads(b.sizes,
          if b.sizes[i] == 0 || b.sizes[i] < b.sizes[b.minIdx] then i else b.minIdx,
          if b.sizes[i] > b.sizes[b.maxIdx] then i else b.maxIdx)
  }

  /** One pass from slot i on. */
  function Scan(b: Loads, i: nat): (r: Loads)
    requires b.minIdx < |b.sizes| && b.maxIdx < |b.sizes| && i <= |b.sizes|
    ensures r.sizes == b.sizes && r.minIdx < |r.sizes| && r.maxIdx < |r.sizes|
    decreases |b.sizes| - i
  {
    if i == |b.sizes| then b else Scan(Look(b, i), i + 1)
  }

  function Inc(b: Loads, index: nat, amount: nat): (r: Loads)
    requires b.minIdx < |b.sizes| && b.maxIdx < |b.sizes| && index < |b.sizes|
    ensures r.sizes == b.sizes[index := b.sizes[index] + amount] && WellIndexed(r)
  {
    Scan(b.(sizes := b.sizes[index := b.sizes[index] + amount]), 0)
  }

  /** A decrement that exceeds the load is dropped. */
  function Dec(b: Loads, index: nat, amount: nat): (r: Loads)
    requires b.minIdx < |b.sizes| && b.maxIdx < |b.sizes| && index < |b.sizes|
    ensures WellIndexed(r)
    ensures r.sizes == if b.sizes[index] >= amount then b.sizes[index := b.sizes[index] - amount] else b.sizes
  {
    if b.sizes[index] >= amount then Scan(b.(sizes := b.sizes[index := b.sizes[index] - amount]), 0) else b
  }

  lemma {:induction false} ScanFinds(b: Loads, i: nat)
    requires WellIndexed(b) && i <= |b.sizes|
    requires forall j :: 0 <= j < i ==> b.sizes[b.minIdx] <= b.sizes[j] <= b.sizes[b.maxIdx]
    ensures Extremes(Scan(b, i))
    decreases |b.sizes| - i
  {
    if i < |b.sizes| {
      ScanFinds(Look(b, i), i + 1);
    }
  }

  lemma {:induction false} ScanKeepsMin(b: Loads, i: nat)
    requires IsMin(b.sizes, b.minIdx) && b.maxIdx < |b.sizes| && i <= |b.sizes|
    requires forall j :: i <= j < |b.sizes| ==> b.sizes[j] != 0
    ensures Scan(b, i).minIdx == b.minIdx
    decreases |b.sizes| - i
  {
    if i < |b.sizes| {
      ScanKeepsMin(Look(b, i), i + 1);
    }
  }

  lemma {:induction false} ScanKeepsMax(b: Loads, i: nat)
    requires IsMax(b.sizes, b.maxIdx) && b.minIdx < |b.sizes| && i <= |b.sizes|
    ensures Scan(b, i).maxIdx == b.maxIdx
    decreases |b.sizes| - i
  {
    if i < |b.sizes| {
      ScanKeepsMax(Look(b, i), i + 1);
    }
  }

  lemma {:induction false} ScanTakesLastZero(b: Loads, i: nat, zero: nat)
    requires WellIndexed(b) && i <= zero && LastZero(b.sizes, zero)
    ensures Scan(b, i).minIdx == zero
    decreases |b.sizes| - i
  {
    if i < zero {
      ScanTakesLastZero(Look(b, i), i + 1, zero);
    } else {
      assert IsMin(b.sizes, zero);
      ScanKeepsMin(Look(b, i), i + 1);
    }
  }

  /** After any change of the loads the indices are right; whatever they were. */
  lemma RescanIsRight(b: Loads, index: nat, amount: nat)
    requires Extremes(b) && index < |b.sizes|
    ensures Extremes(Inc(b, index, amount)) && Extremes(Dec(b, index, amount))
  {
    ScanFinds(b.(sizes := b.sizes[index := b.sizes[index] + amount]), 0);
    if b.sizes[index] >= amount {
      ScanFinds(b.(sizes := b.sizes[index := b.sizes[index] - amount]), 0);
    }
  }

  /** The greatest index moves only when it has to; so does the least one while every shard has load,
      and otherwise it goes to the last shard without. */
  lemma RescanBreaksTies(b: Loads)
    requires WellIndexed(b)
    ensures IsMax(b.sizes, b.maxIdx) ==> Scan(b, 0).maxIdx == b.maxIdx
    ensures IsMin(b.sizes, b.minIdx) && b.sizes[b.minIdx] != 0 ==> Scan(b, 0).minIdx == b.minIdx
    ensures forall z :: LastZero(b.sizes, z) ==> Scan(b, 0).minIdx == z
  {
    if IsMax(b.sizes, b.maxIdx) {
      ScanKeepsMax(b, 0);
    }
    if IsMin(b.sizes, b.minIdx) && b.sizes[b.minIdx] != 0 {
      ScanKeepsMin(b, 0);
    }
    forall z | LastZero(b.sizes, z)
      ensures Scan(b, 0).minIdx == z
    {
      ScanTakesLastZero(b, 0, z);
    }
  }

  /** The decrements of several clients, one after the other. */
  function DecAll(b: Loads, index: nat, amounts: seq<nat>): (r: Loads)
    requires b.minIdx < |b.sizes| && b.maxIdx < |b.sizes| && index < |b.sizes|
    ensures WellIndexed(r) && |r.sizes| == |b.sizes|
  {
    if amounts == [] then b else Dec(DecAll(b, index, amounts[..|amounts| - 1]), index, amounts[|amounts| - 1])
  }

  lemma DecAllSnoc(b: Loads, index: nat, amounts: seq<nat>, amount: nat)
    requires WellIndexed(b) && index < |b.sizes|
    ensures DecAll(b, index, amounts + [amount]) == Dec(DecAll(b, index, amounts), index, amount)
  {
    assert (amounts + [amount])[..|amounts|] == amounts;
  }

  function Total(amounts: seq<nat>): nat {
    if amounts == [] then 0 else Total(amounts[..|amounts| - 1]) + amounts[|amounts| - 1]
  }

  /** In whatever order: a load that covers them all goes down by their sum. */
  lemma {:induction false} DecAllExact(b: Loads, index: nat, amounts: seq<nat>)
    requires WellIndexed(b) && index < |b.sizes| && Total(amounts) <= b.sizes[index]
    ensures DecAll(b, index, amounts).sizes == b.sizes[index := b.sizes[index] - Total(amounts)]
  {
    if amounts == [] {
    } else {
      DecAllExact(b, index, amounts[..|amounts| - 1]);
    }
  }

  class Priority {
    var sizes: seq<nat>
    var minIdx: nat
    var maxIdx: nat

    ghost predicate Valid()
      reads this
    {
      Extremes(View())
    }

    function View(): Loads
      reads this
    {
      Loads(sizes, minIdx, maxIdx)
    }

    constructor (maxSize: nat)
      requires 0 < maxSize
      ensures Valid() && |sizes| == maxSize && (forall i :: 0 <= i < maxSize ==> sizes[i] == 0)
      ensures minIdx == maxIdx == 0
    {
      sizes, minIdx, maxIdx := seq(maxSize, _ => 0), 0, 0;
    }

    function NextIndex(): (i: nat)
      requires Valid()
      reads this
      ensures IsMin(sizes, i)
    {
      minIdx
    }

    function MaxIndex(): (i: nat)
      requires Valid()
      reads this
      ensures IsMax(sizes, i)
    {
      maxIdx
    }

    method SetMinMaxIdx()
      requires minIdx < |sizes| && maxIdx < |sizes|
      modifies `minIdx, `maxIdx
      ensures Valid() && View() == Scan(old(View()), 0)
    {
      ScanFinds(View(), 0);
      for i := 0 to |sizes|
        invariant minIdx < |sizes| && maxIdx < |sizes|
        invariant Scan(View(), i) == Scan(old(View()), 0)
      {
        if sizes[i] == 0 || sizes[i] < sizes[minIdx] {
          minIdx := i;
        }
        if sizes[i] > sizes[maxIdx] {
          maxIdx := i;
        }
      }
    }

    method IncPriority(index: nat, amount: nat := 1)
      requires Valid() && index < |sizes|
      modifies this
      ensures Valid() && View() == Inc(old(View()), index, amount) && |sizes| == |old(sizes)|
      ensures sizes == old(sizes)[index := old(sizes)[index] + amount]
    {
      sizes := sizes[index := sizes[index] + amount];
      SetMinMaxIdx();
    }

    method DecPriority(index: nat, amount: nat := 1)
      requires Valid() && index < |sizes|
      modifies this
      ensures Valid() && View() == Dec(old(View()), index, amount) && |sizes| == |old(sizes)|
      ensures sizes == if old(sizes)[index] < amount then old(sizes)
                       else old(sizes)[index := old(sizes)[index] - amount]
    {
      if sizes[index] >= amount {
        sizes := sizes[index := sizes[index] - amount];
        SetMinMaxIdx();
      }
    }

    method SetPriority(index: nat, value: nat)
      requires Valid() && index < |sizes|
      modifies this
      ensures Valid() && sizes == old(sizes)[index := value]
    {
      sizes := sizes[index := value];
      SetMinMaxIdx();
    }
  }
}
