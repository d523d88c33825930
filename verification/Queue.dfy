/** The circular window pc::queue. */
module Queues {

  /** The window after one more value. */
  function Pushed<T>(window: seq<T>, capacity: nat, value: T): seq<T>
    requires 0 < capacity
  {
    (if |window| == capacity then window[1..] else window) + [value]
  }

  /** The window after a list of values. */
  function PushedAll<T>(window: seq<T>, capacity: nat, values: seq<T>): seq<T>
    requires 0 < capacity
    decreases |values|
  {
    if values == [] then window else PushedAll(Pushed(window, capacity, values[0]), capacity, values[1..])
  }

  function LastOf<T>(values: seq<T>, n: nat): (last: seq<T>)
    ensures |last| <= n
  {
    if |values| <= n then values else values[|values| - n..]
  }

  lemma PushedKeepsLast<T>(values: seq<T>, capacity: nat, value: T)
    requires 0 < capacity
    ensures Pushed(LastOf(values, capacity), capacity, value) == LastOf(values + [value], capacity)
  {
  }

  /** Whatever is added, the window holds the last values that fit, oldest first. */
  lemma {:induction false} WindowIsLast<T>(before: seq<T>, capacity: nat, values: seq<T>)
    requires 0 < capacity
    ensures PushedAll(LastOf(before, capacity), capacity, values) == LastOf(before + values, capacity)
    decreases |values|
  {
    if values == [] {
      assert before + values == before;
    } else {
      PushedKeepsLast(before, capacity, values[0]);
      assert before + values == before + [values[0]] + values[1..];
      WindowIsLast(before + [values[0]], capacity, values[1..]);
    }
  }

  lemma WrapMod(x: nat, m: nat)
    requires x <= m && 0 < m
    ensures x % m == if x == m then 0 else x
  {
  }

  /** The slots from front to rear, going round the end. */
  function Window<T>(items: seq<T>, front: int, rear: int): seq<T>
    requires front == rear == -1 || (0 <= front < |items| && 0 <= rear < |items|)
  {
    if front == -1 then []
    else if front <= rear then items[front..rear + 1]
    else items[front..] + items[..rear + 1]
  }

  predicate Circular(capacity: int, front: int, rear: int) {
    0 < capacity && (front == rear == -1 || (front == 0 <= rear < capacity) || 0 < front == rear + 1 < capacity)
  }

  function Next(i: int, capacity: int): int {
    if i + 1 == capacity then 0 else i + 1
  }

  lemma WindowAfterAdd<T>(items: seq<T>, front: int, rear: int, value: T)
    requires Circular(|items|, front, rear)
    ensures var w, n := Window(items, front, rear), |items|;
            var r := Next(rear, n);
            var f := if front == -1 then 0 else if |w| == n then Next(front, n) else front;
            Circular(n, f, r) && Window(items[r := value], f, r) == Pushed(w, n, value)
  {
    var n, r := |items|, Next(rear, |items|);
    var items' := items[r := value];
    if front == -1 {
      assert items'[0..1] == [value];
    } else if front == 0 && rear < n - 1 {
      assert items'[0..r + 1] == items[0..rear + 1] + [value];
    } else if front == 0 {
      assert items[0..n][1..] == items[1..];
      assert items'[..1] == [value];
    } else if front == n - 1 {
      assert items'[0..n] == items[..n - 1] + [value];
    } else {
      assert items'[front + 1..] == items[front + 1..];
      assert items'[..front + 1] == items[..front] + [value];
      assert (items[front..] + items[..front])[1..] == items[front + 1..] + items[..front];
    }
  }

  lemma WindowAt<T>(items: seq<T>, front: int, rear: int, k: nat)
    requires Circular(|items|, front, rear) && k < |Window(items, front, rear)|
    ensures Window(items, front, rear)[k] == items[if front + k < |items| then front + k else front + k - |items|]
  {
  }

  class Queue<T> {
    const blank: T  // what a value-initialised element holds
    var items: seq<T>
    var front: int
    var rear: int
    var maxCount: int

    /** Every wrapped state is full: the front only moves when a value is displaced. */
    ghost predicate Valid()
      reads this
    {
      maxCount == |items| && Circular(maxCount, front, rear)
    }

    /** Oldest first. */
    ghost function Contents(): seq<T>
      requires Valid()
      reads this
    {
      Window(items, front, rear)
    }

    constructor (size: int, blank: T)
      requires 0 < size
      ensures Valid() && Contents() == [] && maxCount == size && this.blank == blank
    {
      this.blank := blank;
      items := seq(size, _ => blank);
      front, rear, maxCount := -1, -1, size;
    }

    predicate IsFull()
      requires Valid()
      reads this
      ensures IsFull() <==> |Contents()| == maxCount
      ensures front > rear ==> IsFull()
    {
      (front == 0 && rear == maxCount - 1) || front == rear + 1
    }

    function First(): (v: T)
      requires Valid() && front != -1
      reads this
      ensures Contents() != [] && v == Contents()[0]
    {
      items[front]
    }

    function Last(): (v: T)
      requires Valid() && rear != -1
      reads this
      ensures Contents() != [] && v == Contents()[|Contents()| - 1]
    {
      items[rear]
    }

    method Add(value: T)
      requires Valid()
      modifies this
      ensures Valid() && maxCount == old(maxCount)
      ensures Contents() == Pushed(old(Contents()), maxCount, value)
    {
      WindowAfterAdd(items, front, rear, value);
      WrapMod(front + 1, maxCount);
      WrapMod(rear + 1, maxCount);
      if IsFull() {
        front := (front + 1) % maxCount;
      }
      if front == -1 {
        front := 0;
      }
      rear := (rear + 1) % maxCount;
      items := items[rear := value];
    }

    /** queue::MaxCount as written: the copy of a wrapped window stops before the newest element and
        rear is set one slot too far. Growing keeps the window exactly when it is not wrapped;
        otherwise two blanks replace the newest value. Shrinking only records the new count. */
    method MaxCount(newMaxCount: int)
      requires Valid()
      modifies this
      ensures maxCount == newMaxCount
      ensures newMaxCount < old(maxCount) ==> items == old(items) && front == old(front) && rear == old(rear)
      ensures newMaxCount >= old(maxCount) ==>
                Valid() && (Contents() == old(Contents()) <==> newMaxCount == old(maxCount) || old(front <= rear))
      ensures newMaxCount > old(maxCount) && old(front > rear) ==>
                Contents() == old(Contents())[..old(maxCount) - 1] + [blank, blank]
    {
      if maxCount < newMaxCount {
        if front > rear {
          var temp := seq(newMaxCount, _ => blank);
          var i, j := front, 0;
          ghost var window := Contents();
          while i != rear
            modifies {}
            invariant 0 <= j < maxCount && i == (if front + j < maxCount then front + j else front + j - maxCount)
            invariant |temp| == newMaxCount && temp[..j] == window[..j]
            invariant forall k :: j <= k < newMaxCount ==> temp[k] == blank
            decreases maxCount - j
          {
            WindowAt(items, front, rear, j);
            WrapMod(i + 1, maxCount);
            temp := temp[j := items[i]];
            i, j := (i + 1) % maxCount, j + 1;
          }
          front, rear := 0, maxCount;
          items := temp;
        } else {
          items := items + seq(newMaxCount - |items|, _ => blank);
        }
      }
      maxCount := newMaxCount;
    }

    /** Growth as it was meant: the newest element is copied too and rear stays on it. */
    method Grow(newMaxCount: int)
      requires Valid()
      modifies this
      ensures Valid() && maxCount == if newMaxCount > old(maxCount) then newMaxCount else old(maxCount)
      ensures Contents() == old(Contents())
    {
      if maxCount < newMaxCount {
        if front > rear {
          var temp := seq(newMaxCount, _ => blank);
          ghost var window := Contents();
          for j := 0 to maxCount
            modifies {}
            invariant |temp| == newMaxCount && temp[..j] == window[..j]
          {
            WindowAt(items, front, rear, j);
            temp := temp[j := items[if front + j < maxCount then front + j else front + j - maxCount]];
            assert window[..j + 1] == window[..j] + [window[j]];
          }
          front, rear := 0, maxCount - 1;
          items := temp;
        } else {
          items := items + seq(newMaxCount - |items|, _ => blank);
        }
        maxCount := newMaxCount;
      }
    }
  }
}
