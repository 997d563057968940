/** pkg/util/priorityqueue.go: a max-heap in an array, with an index from keys to slots beside it. */
module PriorityQueues {
  import opened Options
  import opened Heap
  import opened Powers

  /** What Add, Pop, Set and Remove report instead of succeeding. */
  datatype QueueError = KeyPresent(key: string) | KeyMissing(key: string) | QueueEmpty

  /** What the self-check reports. */
  datatype Problem =
    | LeftChildOutranks(i: int)
    | RightChildOutranks(i: int)
    | WrongIndex(key: string)
    | WrongCount(indexed: nat, size: nat)

  class PriorityQueue<V(==)> {
    var items: array<Slot<V>>
    var size: nat
    var keyToIndex: map<string, int>

    /** The whole representation; Heap.IsHeapMeans spells it out. */
    ghost predicate Valid()
      reads this, items
    {
      && size <= items.Length
      && IsHeap(items[..], size, keyToIndex, Lookup(items[..], size, keyToIndex))
    }

    /** The finite map from key to node that the queue stands for. */
    ghost function Contents(): map<string, Slot<V>>
      reads this, items
      requires Valid()
    {
      Lookup(items[..], size, keyToIndex)
    }

    lemma ContentsFacts()
      requires Valid()
      ensures Contents().Keys == keyToIndex.Keys && |Contents()| == size
      ensures forall k :: k in Contents() ==> Contents()[k].Node? && Contents()[k].key == k
    {
      HeapFacts(items[..], size, keyToIndex, Contents());
    }

    constructor (capacity: nat)
      ensures Valid() && Contents() == map[] && fresh(items) && items.Length == capacity
    {
      items := new Slot<V>[capacity](_ => Nil);
      size := 0;
      keyToIndex := map[];
    }

    // ---------- Implementation details ----------

    method ResizeIfNecessary()
      requires Valid()
      modifies this`items
      ensures Valid() && (items == old(items) || fresh(items))
      ensures items.Length == if size < old(items.Length) then old(items.Length) else 2 * old(items.Length)
      ensures Contents() == old(Contents())
    {
      if size < items.Length {
        return;
      }
      ghost var s, q := items[..], Contents();
      var newItems := new Slot<V>[items.Length * 2](_ => Nil);
      for ix := 0 to items.Length
        invariant newItems.Length == 2 * items.Length
        invariant forall i :: 0 <= i < ix ==> newItems[i] == items[i]
        invariant forall i :: ix <= i < newItems.Length ==> newItems[i].Nil?
        invariant items == old(items) && items[..] == s
      {
        newItems[ix] := items[ix];
      }
      items := newItems;
      ExtendStep(s, items[..], size, keyToIndex, q);
    }

    method Swap(i: nat, j: nat, ghost n: nat, ghost ks: set<string>, ghost q: map<string, Slot<V>>)
      requires n <= items.Length && i < n && j < n && i != j
      requires Represents(items[..], n, keyToIndex, ks, q)
      modifies items, this`keyToIndex
      ensures items[..] == old(items[..][i := items[j]][j := items[i]])
      ensures Represents(items[..], n, keyToIndex, ks, q)
    {
      SwapStep(items[..], n, keyToIndex, ks, q, i, j);
      var temp := items[i];
      items[i] := items[j];
      items[j] := temp;
      assert items[..] == old(items[..][i := items[j]][j := items[i]]);
      keyToIndex := keyToIndex[items[i].key := i];
      keyToIndex := keyToIndex[items[j].key := j];
    }

    /** Moves the node at index up among the first n slots; always walks to the root. */
    method SiftUp(index: nat, ghost n: nat, ghost ks: set<string>, ghost q: map<string, Slot<V>>)
      returns (ghost steps: nat)
      requires n <= items.Length && index < n
      requires Represents(items[..], n, keyToIndex, ks, q)
      requires OrderedAround(items[..], n, index)
      modifies items, this`keyToIndex
      ensures Represents(items[..], n, keyToIndex, ks, q)
      ensures OrderedAbove(items[..], n, index)
      ensures steps == Log2(index + 1) + 1
    {
      hide Represents, OrderedAbove, RisingFrom, Log2;
      StartRising(items[..], n, index);
      var ic: int := index;
      steps := 0;
      while true
        invariant 0 <= ic <= index
        invariant steps + Log2(ic + 1) == Log2(index + 1)
        invariant Represents(items[..], n, keyToIndex, ks, q)
        invariant RisingFrom(items[..], n, index, ic)
        decreases ic
      {
        ghost var s := items[..];
        var ip := Parent(ic);
        if ip < 0 {
          break;
        }
        NodeAt(s, n, keyToIndex, ks, q, ic);
        NodeAt(s, n, keyToIndex, ks, q, ip);
        ParentIsShallower(ic);
        steps := steps + 1;
        var p := items[ip];
        var c := items[ic];
        if c.priority > p.priority {
          Swap(ic, ip, n, ks, q);
          RiseBySwap(s, items[..], n, index, ic);
        } else {
          RiseByStep(s, n, index, ic);
        }
        if ic <= 0 {
          break;
        }
        ic := ip;
      }
    }

    /** Moves the node at index down among the live slots until neither child outranks it. */
    method SiftDown(index: nat, ghost ks: set<string>, ghost q: map<string, Slot<V>>) returns (ghost swaps: nat)
      requires size <= items.Length && index < size
      requires Represents(items[..], size, keyToIndex, ks, q)
      requires OrderedAbove(items[..], size, index)
      modifies items, this`keyToIndex
      ensures Represents(items[..], size, keyToIndex, ks, q)
      ensures HeapOrder(items[..], size)
      ensures swaps + Log2(index + 1) <= Log2(size)
    {
      hide Represents, OrderedAbove, HeapOrder, Log2;
      var ip: int := index;
      swaps := 0;
      while true
        invariant index <= ip < size
        invariant swaps + Log2(index + 1) == Log2(ip + 1)
        invariant Represents(items[..], size, keyToIndex, ks, q)
        invariant OrderedAbove(items[..], size, ip)
        decreases size - ip
      {
        ghost var s := items[..];
        var inext := ip;
        var ilc := LeftChild(ip);
        if ilc >= size {
          SettledAt(s, size, ip);
          break;
        }
        NodeAt(s, size, keyToIndex, ks, q, ip);
        NodeAt(s, size, keyToIndex, ks, q, ilc);
        var p := items[ip];
        var lc := items[ilc];
        if p.priority < lc.priority {
          inext := ilc;
        }
        var irc := RightChild(ip);
        if irc < size {
          NodeAt(s, size, keyToIndex, ks, q, irc);
          var rc := items[irc];
          if items[inext].priority < rc.priority {
            inext := irc;
          }
        }
        if inext == ip {
          SettledAt(s, size, ip);
          break;
        }
        Swap(ip, inext, size, ks, q);
        SinkBySwap(s, items[..], size, ip, inext);
        ChildIsDeeper(ip);
        ip := inext;
        swaps := swaps + 1;
      }
      Log2Monotone(ip + 1, size);
    }

    /** Adds a new element to an array with room for it. */
    method Append(key: string, priority: int, value: V) returns (ghost steps: nat)
      requires Valid() && size < items.Length && key !in Contents()
      modifies this, items
      ensures Valid() && items == old(items)
      ensures Contents() == old(Contents())[key := Node(key, priority, value)]
      ensures steps == Log2(size) + 1
    {
      hide IsHeap, Represents, Lookup, OrderedAround, OrderedAbove, HeapOrder, Log2;
      ContentsFacts();
      ghost var s, n, m, q := items[..], size, keyToIndex, Contents();
      var node := Node(key, priority, value);
      items[size] := node;
      keyToIndex := keyToIndex[key := size];
      assert items[..] == s[n := node];
      AppendStep(s, n, m, q, node);
      ghost var q' := q[key := node];
      assert q'.Keys == q.Keys + {key};
      steps := SiftUp(size, n + 1, q.Keys + {key}, q');
      size := size + 1;
      AppendDone(items[..], size, keyToIndex, q'.Keys, q');
      HeapFacts(items[..], size, keyToIndex, q');
    }

    // ---------- Public operations ----------

    /**
     Adds an element; key must be new. An array without any slots cannot be doubled, so that writing a new node to
     it would panic. The ghost result counts sift steps.
     */
    method Add(key: string, priority: int, value: V) returns (err: Option<QueueError>, ghost steps: nat)
      requires Valid() && 0 < items.Length
      modifies this, items
      ensures Valid() && 0 < items.Length && (items == old(items) || fresh(items))
      ensures err == if key in old(Contents()) then Some(KeyPresent(key)) else None
      ensures Contents() == if err.Some? then old(Contents()) else old(Contents())[key := Node(key, priority, value)]
      ensures steps == if err.Some? then 0 else Log2(size) + 1
    {
      hide IsHeap, Lookup, Log2;
      ContentsFacts();
      if key in keyToIndex {
        return Some(KeyPresent(key)), 0;
      }
      ResizeIfNecessary();
      steps := Append(key, priority, value);
      err := None;
    }

    /** The value of a highest-priority element, or nothing if the queue is empty. */
    method Peek() returns (top: Option<V>)
      requires Valid()
      ensures top.None? <==> Contents() == map[]
      ensures top.Some? ==> exists k :: IsTop(Contents(), k) && Contents()[k].value == top.value
    {
      ContentsFacts();
      if size == 0 {
        return None;
      }
      RootIsTop(items[..], size, keyToIndex, Contents());
      top := Some(items[0].value);
    }

    /** Removes a highest-priority element. */
    method Pop() returns (r: Option<V>, err: Option<QueueError>, ghost key: string, ghost steps: nat)
      requires Valid()
      modifies this, items
      ensures Valid() && items == old(items)
      ensures err == if old(Contents()) == map[] then Some(QueueEmpty) else None
      ensures err.Some? ==> r.None? && Contents() == old(Contents())
      ensures err.None? ==> IsTop(old(Contents()), key) && r == Some(old(Contents())[key].value)
      ensures err.None? ==> Contents() == old(Contents()) - {key} && size == old(size) - 1
      ensures steps <= Log2(size)
    {
      hide IsHeap, Represents, Lookup, OrderedAround, OrderedAbove, Log2, IsTop;
      ContentsFacts();
      key, steps := "", 0;
      if size == 0 {
        return None, Some(QueueEmpty), "", 0;
      }
      ghost var s, n, m, q := items[..], size, keyToIndex, Contents();
      RootIsTop(s, n, m, q);
      NodeAtHeap(s, n, m, q, n - 1);
      NodeAtHeap(s, n, m, q, 0);
      var item := items[0];
      key := item.key;
      ghost var q' := q - {key};
      keyToIndex := keyToIndex - {item.key};
      size := size - 1;
      var last := items[size];
      items[size] := Nil;
      if size > 0 {
        items[0] := last;
        keyToIndex := keyToIndex[last.key := 0];
        assert items[..] == s[n - 1 := Nil][0 := last];
        MoveLastStep(s, n, m, q, 0);
        DeleteStrayKey(items[..], size, m[last.key := 0], q.Keys, q', key);
        assert keyToIndex == m[last.key := 0] - {key};
        steps := SiftDown(0, q'.Keys, q');
      } else {
        assert items[..] == s[n - 1 := Nil];
        DropLastStep(s, n, m, q);
        DeleteStrayKey(items[..], size, m, q.Keys, q', key);
      }
      HeapDone(items[..], size, keyToIndex, q');
      r, err := Some(item.value), None;
    }

    /** Changes the priority of a present key. */
    method Set(key: string, priority: int) returns (err: Option<QueueError>, ghost steps: nat)
      requires Valid()
      modifies this, items
      ensures Valid() && items == old(items)
      ensures err == if key in old(Contents()) then None else Some(KeyMissing(key))
      ensures Contents() == if err.Some? then old(Contents())
                            else old(Contents())[key := Node(key, priority, old(Contents())[key].value)]
      ensures steps <= 2 * Log2(size) + 1
    {
      hide IsHeap, Represents, Lookup, OrderedAround, OrderedAbove, Log2;
      ContentsFacts();
      if key !in keyToIndex {
        return Some(KeyMissing(key)), 0;
      }
      ghost var s, m, q := items[..], keyToIndex, Contents();
      NodeOfKey(s, size, m, q, key);
      var index := keyToIndex[key];
      items[index] := items[index].(priority := priority);
      assert items[..] == s[index := items[index]];
      ReplaceStep(s, size, m, q, index, priority);
      ghost var q' := q[key := Node(key, priority, q[key].value)];
      assert q'.Keys == q.Keys;
      ghost var up := SiftUp(index, size, q.Keys, q');
      ghost var down := SiftDown(index, q.Keys, q');
      steps := up + down;
      HeapDone(items[..], size, keyToIndex, q');
      Log2Monotone(index + 1, size);
      err := None;
    }

    /** Removes a present key, returning its value. */
    method Remove(key: string) returns (r: Option<V>, err: Option<QueueError>, ghost steps: nat)
      requires Valid()
      modifies this, items
      ensures Valid() && items == old(items)
      ensures err == if key in old(Contents()) then None else Some(KeyMissing(key))
      ensures r == if err.Some? then None else Some(old(Contents())[key].value)
      ensures Contents() == old(Contents()) - {key}
      ensures steps <= 2 * Log2(size) + 1
    {
      hide IsHeap, Represents, Lookup, OrderedAround, OrderedAbove, Log2;
      ContentsFacts();
      steps := 0;
      if key !in keyToIndex {
        assert Contents() - {key} == Contents();
        return None, Some(KeyMissing(key)), 0;
      }
      ghost var s, n, m, q := items[..], size, keyToIndex, Contents();
      NodeOfKey(s, n, m, q, key);
      NodeAtHeap(s, n, m, q, n - 1);
      ghost var q' := q - {key};
      var index := keyToIndex[key];
      var item := items[index];
      var lastIndex := size - 1;
      if index != lastIndex {
        items[index] := items[lastIndex];
        keyToIndex := keyToIndex[items[index].key := index];
        items[lastIndex] := Nil;
        size := size - 1;
        assert items[..] == s[n - 1 := Nil][index := s[n - 1]];
        MoveLastStep(s, n, m, q, index);
        ghost var up := SiftUp(index, size, q.Keys, q');
        ghost var down := SiftDown(index, q.Keys, q');
        steps := up + down;
        Log2Monotone(index + 1, size);
      } else {
        items[lastIndex] := Nil;
        size := size - 1;
        assert items[..] == s[n - 1 := Nil];
        DropLastStep(s, n, m, q);
      }
      DeleteStrayKey(items[..], size, keyToIndex, q.Keys, q', key);
      keyToIndex := keyToIndex - {key};
      HeapDone(items[..], size, keyToIndex, q');
      r, err := Some(item.value), None;
    }

    /** Pops until the queue is empty, noting the top priority before each pop. */
    method Drain() returns (values: seq<V>, priorities: seq<int>, ghost keys: seq<string>)
      requires Valid()
      modifies this, items
      ensures Valid() && Contents() == map[] && items == old(items)
      ensures Pops(old(Contents()), keys) && Removed(old(Contents()), keys) == map[]
      ensures |values| == |priorities| == |keys|
      ensures forall k :: k in old(Contents()) <==> k in keys
      ensures forall i :: 0 <= i < |keys| ==> old(Contents())[keys[i]] == Node(keys[i], priorities[i], values[i])
      ensures forall i, j :: 0 <= i < j < |keys| ==> keys[i] != keys[j] && priorities[i] >= priorities[j]
    {
      hide IsHeap, Lookup, IsTop;
      ghost var q := Contents();
      ContentsFacts();
      values, priorities, keys := [], [], [];
      assert Removed(q, []) == q;
      while size > 0
        invariant Valid() && items == old(items)
        invariant Contents() == Removed(q, keys) && Pops(q, keys)
        invariant |values| == |priorities| == |keys|
        invariant forall i :: 0 <= i < |keys| ==> keys[i] in q && q[keys[i]] == Node(keys[i], priorities[i], values[i])
        decreases size
      {
        ContentsFacts();
        RootIsTop(items[..], size, keyToIndex, Contents());
        var priority := items[0].priority;
        ghost var left := Contents();
        ghost var top := items[0].key;
        var value, _, key, _ := Pop();
        TopsAgree(left, key, top);
        PopsOneMore(q, keys, key);
        values, priorities, keys := values + [value.value], priorities + [priority], keys + [key];
      }
      ContentsFacts();
      PopsAreSorted(q, keys);
    }

    function HasKey(key: string): (b: bool)
      requires Valid()
      reads this, items
      ensures b <==> key in Contents()
    {
      ContentsFacts();
      key in keyToIndex
    }

    // ---------- The self-check ----------

    /** The first part of the self-check: no child outranks its parent. */
    method CheckOrder() returns (errors: seq<Problem>)
      requires size <= items.Length
      requires forall i :: 0 <= i < size ==> items[i].Node?
      ensures errors == [] <==> HeapOrder(items[..], size)
    {
      errors := [];
      ghost var s := items[..];
      for i := 0 to size
        invariant errors == [] <==> OrderedUpTo(s, size, i)
      {
        hide OrderedUpTo, HeapOrder;
        CheckOneParent(s, size, i);
        var lc := LeftChild(i);
        if lc >= size {
          break;
        }
        var curr := items[i];
        var left := items[lc];
        if left.priority > curr.priority {
          errors := errors + [LeftChildOutranks(i)];
        }
        var rc := RightChild(i);
        if rc >= size {
          break;
        }
        var right := items[rc];
        if right.priority > curr.priority {
          errors := errors + [RightChildOutranks(i)];
        }
      }
    }

    /** The second part: the node at each indexed slot bears the key. */
    method CheckIndex() returns (errors: seq<Problem>)
      requires forall k :: k in keyToIndex ==> 0 <= keyToIndex[k] < items.Length && items[keyToIndex[k]].Node?
      ensures errors == [] <==> forall k :: k in keyToIndex ==> items[keyToIndex[k]].key == k
    {
      errors := [];
      var keys := keyToIndex.Keys;
      while keys != {}
        invariant keys <= keyToIndex.Keys
        invariant errors == [] <==> forall k :: k in keyToIndex && k !in keys ==> items[keyToIndex[k]].key == k
        decreases |keys|
      {
        var key :| key in keys;
        keys := keys - {key};
        if items[keyToIndex[key]].key != key {
          errors := errors + [WrongIndex(key)];
        }
      }
    }

    /**
     The debugging self-check. It may be run on any state whose index points at nodes; a nil live slot or an
     index past the array would panic.
     */
    method CheckValidity() returns (errors: seq<Problem>)
      requires size <= items.Length
      requires forall i :: 0 <= i < size ==> items[i].Node?
      requires forall k :: k in keyToIndex ==> 0 <= keyToIndex[k] < items.Length && items[keyToIndex[k]].Node?
      ensures errors == [] <==> HeapOrder(items[..], size)
                                && (forall k :: k in keyToIndex ==> items[keyToIndex[k]].key == k)
                                && |keyToIndex| == size
      ensures (forall k :: k in keyToIndex ==> keyToIndex[k] < size)
              ==> (errors == [] <==> HeapOrder(items[..], size)
                                     && Indexed(items[..], size, keyToIndex)
                                     && NoStrayKeys(items[..], size, keyToIndex))
      ensures (forall i :: size <= i < items.Length ==> items[i].Nil?) ==> (errors == [] <==> Valid())
    {
      hide HeapOrder;
      var orderErrors := CheckOrder();
      var indexErrors := CheckIndex();
      errors := orderErrors + indexErrors;
      if |keyToIndex| != size {
        errors := errors + [WrongCount(|keyToIndex|, size)];
      }
      IsHeapMeans(items[..], size, keyToIndex);
      if forall k :: k in keyToIndex ==> keyToIndex[k] < size {
        IndexIsBijection(items[..], size, keyToIndex);
      }
    }
  }
}
