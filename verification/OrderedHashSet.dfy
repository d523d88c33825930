/** The insertion-ordered index: a linked list and a map from keys to its nodes. */
module OrderedHashSets {

  datatype Entry<K, V> = Entry(key: K, value: V)

  // ---- what the index is for: delete the key, then append it --------------------------------

  datatype Op<K, V> = Insert(key: K, value: V) | Remove(key: K)

  function Without<K(==), V>(es: seq<Entry<K, V>>, key: K): (r: seq<Entry<K, V>>)
    ensures |r| <= |es|
  {
    if es == [] then []
    else (if es[0].key == key then [] else [es[0]]) + Without(es[1..], key)
  }

  ghost predicate HasKey<K, V>(es: seq<Entry<K, V>>, key: K) {
    exists i :: 0 <= i < |es| && es[i].key == key
  }

  ghost predicate DistinctKeys<K, V>(es: seq<Entry<K, V>>) {
    forall i, j :: 0 <= i < j < |es| ==> es[i].key != es[j].key
  }

  function Intended<K(==), V>(ops: seq<Op<K, V>>): seq<Entry<K, V>> {
    if ops == [] then []
    else
      var es := Intended(ops[..|ops| - 1]);
      match ops[|ops| - 1]
      case Insert(key, value) => Without(es, key) + [Entry(key, value)]
      case Remove(key) => Without(es, key)
  }

  /** What the code as written keeps: insert only ever appends and remove finds nothing, because no
      new key is stored in the map. */
  function Literal<K(==), V>(ops: seq<Op<K, V>>): seq<Entry<K, V>> {
    if ops == [] then []
    else
      var es := Literal(ops[..|ops| - 1]);
      match ops[|ops| - 1]
      case Insert(key, value) => es + [Entry(key, value)]
      case Remove(_) => es
  }

  /** Index of the last operation on a key, -1 when there is none. */
  function LastOp<K(==), V>(ops: seq<Op<K, V>>, key: K): (i: int)
    ensures -1 <= i < |ops|
    ensures i >= 0 ==> ops[i].key == key
  {
    if ops == [] then -1
    else if ops[|ops| - 1].key == key then |ops| - 1
    else LastOp(ops[..|ops| - 1], key)
  }

  lemma {:induction false} WithoutMember<K, V>(es: seq<Entry<K, V>>, key: K, e: Entry<K, V>)
    ensures e in Without(es, key) <==> e in es && e.key != key
  {
    if es == [] {
    } else {
      WithoutMember(es[1..], key, e);
      assert es == [es[0]] + es[1..];
    }
  }

  lemma {:induction false} WithoutKeeps<K, V>(es: seq<Entry<K, V>>, key: K)
    ensures !HasKey(es, key) ==> Without(es, key) == es
    ensures HasKey(es, key) ==> |Without(es, key)| < |es|
  {
    if es == [] {
    } else {
      WithoutKeeps(es[1..], key);
      if es[0].key != key && HasKey(es, key) {
        var i :| 0 <= i < |es| && es[i].key == key;
        assert es[1..][i - 1].key == key;
      }
      assert es == [es[0]] + es[1..];
    }
  }

  lemma {:induction false} WithoutAt<K, V>(es: seq<Entry<K, V>>, key: K, j: nat) returns (b: nat)
    requires j < |Without(es, key)|
    ensures b < |es| && es[b] == Without(es, key)[j]
  {
    if es[0].key == key {
      b := WithoutAt(es[1..], key, j);
      b := b + 1;
    } else if j == 0 {
      b := 0;
    } else {
      b := WithoutAt(es[1..], key, j - 1);
      b := b + 1;
    }
  }

  /** Two entries that remain were there before, the same way round. */
  lemma {:induction false} WithoutPair<K, V>(es: seq<Entry<K, V>>, key: K, i: nat, j: nat) returns (a: nat, b: nat)
    requires i < j < |Without(es, key)|
    ensures a < b < |es| && es[a] == Without(es, key)[i] && es[b] == Without(es, key)[j]
  {
    if es[0].key == key {
      a, b := WithoutPair(es[1..], key, i, j);
      a, b := a + 1, b + 1;
    } else if i == 0 {
      b := WithoutAt(es[1..], key, j - 1);
      a, b := 0, b + 1;
    } else {
      a, b := WithoutPair(es[1..], key, i - 1, j - 1);
      a, b := a + 1, b + 1;
    }
  }

  lemma WithoutDistinct<K, V>(es: seq<Entry<K, V>>, key: K)
    requires DistinctKeys(es)
    ensures DistinctKeys(Without(es, key))
  {
    var w := Without(es, key);
    forall i, j | 0 <= i < j < |w|
      ensures w[i].key != w[j].key
    {
      var a, b := WithoutPair(es, key, i, j);
    }
  }

  ghost predicate InOrder<K, V>(ops: seq<Op<K, V>>, es: seq<Entry<K, V>>) {
    forall i, j :: 0 <= i < j < |es| ==> LastOp(ops, es[i].key) < LastOp(ops, es[j].key)
  }

  lemma LastOpSnoc<K, V>(ops: seq<Op<K, V>>, op: Op<K, V>, key: K)
    ensures LastOp(ops + [op], key) == if op.key == key then |ops| else LastOp(ops, key)
  {
    assert (ops + [op])[..|ops|] == ops;
  }

  /** Dropping a key keeps the others in order, also after the operation that dropped it. */
  lemma WithoutInOrder<K, V>(ops: seq<Op<K, V>>, op: Op<K, V>, es: seq<Entry<K, V>>)
    requires InOrder(ops, es)
    ensures InOrder(ops + [op], Without(es, op.key))
  {
    var w := Without(es, op.key);
    WithoutKeeps(es, op.key);
    forall i, j | 0 <= i < j < |w|
      ensures LastOp(ops + [op], w[i].key) < LastOp(ops + [op], w[j].key)
    {
      var a, b := WithoutPair(es, op.key, i, j);
      WithoutMember(es, op.key, w[i]);
      WithoutMember(es, op.key, w[j]);
      LastOpSnoc(ops, op, w[i].key);
      LastOpSnoc(ops, op, w[j].key);
    }
  }

  lemma AppendInOrder<K, V>(ops: seq<Op<K, V>>, es: seq<Entry<K, V>>, e: Entry<K, V>)
    requires InOrder(ops, es) && forall d <- es :: LastOp(ops, d.key) < LastOp(ops, e.key)
    ensures InOrder(ops, es + [e])
  {
    forall i, j | 0 <= i < j < |es + [e]|
      ensures LastOp(ops, (es + [e])[i].key) < LastOp(ops, (es + [e])[j].key)
    {
      assert es[i] in es;
    }
  }

  /** Whether the index should hold an entry after a history of operations. */
  ghost predicate LastInserted<K, V>(ops: seq<Op<K, V>>, e: Entry<K, V>) {
    var last := LastOp(ops, e.key);
    last >= 0 && ops[last] == Insert(e.key, e.value)
  }

  lemma LastInsertedSnoc<K, V>(ops: seq<Op<K, V>>, op: Op<K, V>, e: Entry<K, V>)
    ensures LastInserted(ops + [op], e)
            <==> if op.key == e.key then op == Insert(e.key, e.value) else LastInserted(ops, e)
  {
    LastOpSnoc(ops, op, e.key);
  }

  /** The entries are exactly the keys whose last operation is an insertion, with the value of that
      insertion, oldest last insertion first. */
  lemma {:induction false} IntendedOrder<K(!new), V(!new)>(ops: seq<Op<K, V>>)
    ensures InOrder(ops, Intended(ops)) && DistinctKeys(Intended(ops))
    ensures forall e :: e in Intended(ops) <==> LastInserted(ops, e)
  {
    if ops == [] {
    } else {
      var before, op := ops[..|ops| - 1], ops[|ops| - 1];
      assert ops == before + [op];
      IntendedOrder(before);
      var es := Intended(before);
      var kept := Without(es, op.key);
      WithoutInOrder(before, op, es);
      WithoutDistinct(es, op.key);
      WithoutKeeps(es, op.key);
      forall e
        ensures e in Intended(ops) <==> LastInserted(ops, e)
        ensures e in kept ==> LastOp(ops, e.key) < |before| == LastOp(ops, op.key)
      {
        WithoutMember(es, op.key, e);
        LastInsertedSnoc(before, op, e);
        LastOpSnoc(before, op, e.key);
      }
      if op.Insert? {
        AppendInOrder(ops, kept, Entry(op.key, op.value));
      }
    }
  }

  // ---- exactly when the literal code does what it is for ------------------------------------

  /** An operation on a key that is present; a caller can look the key up before the call. */
  ghost predicate TouchesPresent<K, V>(ops: seq<Op<K, V>>, i: nat)
    requires i < |ops|
  {
    HasKey(Intended(ops[..i]), ops[i].key)
  }

  lemma {:induction false} LiteralIsLonger<K, V>(ops: seq<Op<K, V>>)
    ensures |Intended(ops)| <= |Literal(ops)|
    ensures |Intended(ops)| == |Literal(ops)| ==> Literal(ops) == Intended(ops)
  {
    if ops == [] {
    } else {
      LiteralIsLonger(ops[..|ops| - 1]);
      WithoutKeeps(Intended(ops[..|ops| - 1]), ops[|ops| - 1].key);
    }
  }

  lemma LiteralStep<K, V>(ops: seq<Op<K, V>>, op: Op<K, V>)
    ensures Literal(ops + [op]) == Intended(ops + [op])
            <==> Literal(ops) == Intended(ops) && !HasKey(Intended(ops), op.key)
  {
    assert (ops + [op])[..|ops|] == ops;
    LiteralIsLonger(ops);
    WithoutKeeps(Intended(ops), op.key);
    assert |Literal(ops + [op])| == |Literal(ops)| + if op.Insert? then 1 else 0;
    assert |Intended(ops + [op])| == |Without(Intended(ops), op.key)| + if op.Insert? then 1 else 0;
  }

  /** The code as written is the intended index on a run exactly when no operation of the run names a
      key that is present at that point. */
  lemma {:induction false} LiteralIff<K, V>(ops: seq<Op<K, V>>)
    ensures Literal(ops) == Intended(ops) <==> forall i :: 0 <= i < |ops| ==> !TouchesPresent(ops, i)
  {
    if ops == [] {
    } else {
      var n := |ops| - 1;
      assert ops == ops[..n] + [ops[n]];
      LiteralIff(ops[..n]);
      LiteralStep(ops[..n], ops[n]);
      forall i | 0 <= i < n
        ensures TouchesPresent(ops[..n], i) <==> TouchesPresent(ops, i)
      {
        assert ops[..n][..i] == ops[..i];
      }
      assert TouchesPresent(ops, n) <==> HasKey(Intended(ops[..n]), ops[n].key);
    }
  }

  // ---- the class ----------------------------------------------------------------------------

  /** A node of the std::list; its id stands for the iterators that point at it. */
  datatype Node<K, V> = Node(id: nat, entry: Entry<K, V>)

  function Entries<K, V>(list: seq<Node<K, V>>): (es: seq<Entry<K, V>>)
    ensures |es| == |list| && forall i :: 0 <= i < |es| ==> es[i] == list[i].entry
  {
    seq(|list|, i requires 0 <= i < |list| => list[i].entry)
  }

  /** list::erase */
  function Erase<K, V>(list: seq<Node<K, V>>, id: nat): (r: seq<Node<K, V>>) {
    if list == [] then []
    else (if list[0].id == id then [] else [list[0]]) + Erase(list[1..], id)
  }

  lemma {:induction false} EraseMember<K, V>(list: seq<Node<K, V>>, id: nat, n: Node<K, V>)
    ensures n in Erase(list, id) <==> n in list && n.id != id
  {
    if list == [] {
    } else {
      EraseMember(list[1..], id, n);
      assert list == [list[0]] + list[1..];
    }
  }

  lemma {:induction false} EraseIsWithout<K, V>(list: seq<Node<K, V>>, id: nat, key: K)
    requires forall n <- list :: n.id == id <==> n.entry.key == key
    ensures Entries(Erase(list, id)) == Without(Entries(list), key)
  {
    if list == [] {
      assert Entries(list) == [];
    } else {
      EraseIsWithout(list[1..], id, key);
      EntriesTail(list);
      EntriesCons(list[0], Erase(list[1..], id));
    }
  }

  lemma EntriesTail<K, V>(list: seq<Node<K, V>>)
    requires list != []
    ensures Entries(list)[1..] == Entries(list[1..])
  {
  }

  lemma EntriesCons<K, V>(node: Node<K, V>, list: seq<Node<K, V>>)
    ensures Entries([node] + list) == [node.entry] + Entries(list)
    ensures Entries([] + list) == [] + Entries(list)
  {
  }

  /** List and map agree: every node is mapped, every map entry points at the one node with its key,
      and no key occurs twice. */
  ghost predicate Indexed<K, V>(list: seq<Node<K, V>>, mapper: map<K, nat>) {
    && (forall n <- list :: n.entry.key in mapper && mapper[n.entry.key] == n.id)
    && (forall k <- mapper :: exists n :: n in list && n.id == mapper[k] && n.entry.key == k)
    && DistinctKeys(Entries(list))
  }

  /** Every id ever given out belongs to one key, and the next id is new. */
  ghost predicate Labelled<K, V>(list: seq<Node<K, V>>, keyOf: map<nat, K>, nextId: nat) {
    && (forall n <- list :: n.id in keyOf && keyOf[n.id] == n.entry.key)
    && (forall id <- keyOf :: id < nextId)
  }

  lemma IndexedErase<K, V>(list: seq<Node<K, V>>, mapper: map<K, nat>, keyOf: map<nat, K>, nextId: nat, key: K)
    requires Indexed(list, mapper) && Labelled(list, keyOf, nextId) && key in mapper
    ensures var kept := Erase(list, mapper[key]);
            && Indexed(kept, mapper - {key}) && Labelled(kept, keyOf, nextId) && mapper[key] < nextId
            && Entries(kept) == Without(Entries(list), key)
  {
    var m :| m in list && m.id == mapper[key] && m.entry.key == key;
    EraseIsWithout(list, mapper[key], key);
    WithoutDistinct(Entries(list), key);
    var kept, mapper' := Erase(list, mapper[key]), mapper - {key};
    forall n | n in kept
      ensures n in list && n.entry.key != key
    {
      EraseMember(list, mapper[key], n);
    }
    forall k | k in mapper'
      ensures exists n :: n in kept && n.id == mapper'[k] && n.entry.key == k
    {
      var n :| n in list && n.id == mapper[k] && n.entry.key == k;
      EraseMember(list, mapper[key], n);
    }
  }

  lemma IndexedAppend<K, V>(list: seq<Node<K, V>>, mapper: map<K, nat>, node: Node<K, V>)
    requires Indexed(list, mapper) && node.entry.key !in mapper
    ensures Indexed(list + [node], mapper[node.entry.key := node.id])
  {
    var mapper' := mapper[node.entry.key := node.id];
    assert (list + [node])[|list|] == node;
    forall k | k in mapper'
      ensures exists n :: n in list + [node] && n.id == mapper'[k] && n.entry.key == k
    {
      if k != node.entry.key {
        var n :| n in list && n.id == mapper[k] && n.entry.key == k;
        assert n in list + [node];
      }
    }
    assert forall i :: 0 <= i < |list| ==> list[i] in list;
  }

  lemma LabelledAppend<K, V>(list: seq<Node<K, V>>, keyOf: map<nat, K>, node: Node<K, V>)
    requires Labelled(list, keyOf, node.id)
    ensures Labelled(list + [node], keyOf[node.id := node.entry.key], node.id + 1)
  {
  }

  lemma {:induction false} EraseSnoc<K, V>(list: seq<Node<K, V>>, node: Node<K, V>, id: nat)
    requires node.id != id
    ensures Erase(list + [node], id) == Erase(list, id) + [node]
  {
    if list == [] {
      assert list + [node] == [node] && [node][1..] == [];
    } else {
      assert (list + [node])[1..] == list[1..] + [node];
      EraseSnoc(list[1..], node, id);
    }
  }

  lemma AbsentKey<K, V>(list: seq<Node<K, V>>, mapper: map<K, nat>, key: K)
    requires Indexed(list, mapper) && key !in mapper
    ensures Without(Entries(list), key) == Entries(list)
  {
    assert forall i :: 0 <= i < |list| ==> list[i] in list;
    WithoutKeeps(Entries(list), key);
  }

  lemma EntriesAppend<K, V>(list: seq<Node<K, V>>, node: Node<K, V>)
    ensures Entries(list + [node]) == Entries(list) + [node.entry]
  {
  }

  /** Appending the new node and then erasing the one the map had comes to deleting the key and
      appending it, and list and map agree again. */
  lemma InsertIndexed<K, V>(list: seq<Node<K, V>>, mapper: map<K, nat>, keyOf: map<nat, K>, node: Node<K, V>)
    requires Indexed(list, mapper) && Labelled(list, keyOf, node.id)
    ensures var key := node.entry.key;
            var list' := if key in mapper then Erase(list + [node], mapper[key]) else list + [node];
            && Indexed(list', mapper[key := node.id])
            && Labelled(list', keyOf[node.id := key], node.id + 1)
            && Entries(list') == Without(Entries(list), key) + [node.entry]
  {
    var key := node.entry.key;
    var kept, unmapped := list, mapper;
    if key in mapper {
      IndexedErase(list, mapper, keyOf, node.id, key);
      EraseSnoc(list, node, mapper[key]);
      kept, unmapped := Erase(list, mapper[key]), mapper - {key};
      assert unmapped[key := node.id] == mapper[key := node.id];
    } else {
      AbsentKey(list, mapper, key);
    }
    IndexedAppend(kept, unmapped, node);
    LabelledAppend(kept, keyOf, node);
    EntriesAppend(kept, node);
  }

  class OrderedHashSet<K(==, !new), V(!new)> {
    /** Whether the store of a new key into the map, which the code lacks, is supplied. */
    const supplied: bool
    var list: seq<Node<K, V>>
    var mapper: map<K, nat>
    var nextId: nat
    ghost var keyOf: map<nat, K>

    /** Without the store the map never holds anything. */
    ghost predicate Valid()
      reads this
    {
      Labelled(list, keyOf, nextId) && if supplied then Indexed(list, mapper) else mapper == map[]
    }

    ghost function Contents(): seq<Entry<K, V>>
      reads this
    {
      Entries(list)
    }

    constructor (supplied: bool)
      ensures Valid() && Contents() == [] && this.supplied == supplied
    {
      this.supplied := supplied;
      list, mapper, nextId, keyOf := [], map[], 0, map[];
    }

    /** list.push_back, then list.erase of the node that the map had for the key. */
    method Insert(key: K, value: V)
      requires Valid()
      modifies this
      ensures Valid()
      ensures Contents() == (if supplied then Without(old(Contents()), key) else old(Contents())) + [Entry(key, value)]
    {
      var present := key in mapper;
      var node := Node(nextId, Entry(key, value));
      if supplied {
        InsertIndexed(list, mapper, keyOf, node);
      }
      LabelledAppend(list, keyOf, node);
      EntriesAppend(list, node);
      keyOf := keyOf[node.id := key];
      list := list + [node];
      nextId := nextId + 1;
      if present {
        list := Erase(list, mapper[key]);
        mapper := mapper[key := node.id];
      } else if supplied {
        mapper := mapper[key := node.id];
      }
    }

    method Remove(key: K)
      requires Valid()
      modifies this
      ensures Valid()
      ensures Contents() == if supplied then Without(old(Contents()), key) else old(Contents())
    {
      if key !in mapper {
        if supplied {
          AbsentKey(list, mapper, key);
        }
        return;
      }
      IndexedErase(list, mapper, keyOf, nextId, key);
      list := Erase(list, mapper[key]);
      mapper := mapper - {key};
    }
  }
}
