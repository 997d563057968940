/**
 The pure side of the indexed max-heap of pkg/util/priorityqueue.go: index arithmetic, heap order
 on a sequence of slots, the key index, and the finite map from keys to nodes that both represent.
 */
module Heap {
  import opened Powers

  /** A slot of the backing array: nil, or a node. */
  datatype Slot<+V> = Nil | Node(key: string, priority: int, value: V)

  // ---------- Index arithmetic ----------

  /** Integer division of the source language, which truncates toward zero. */
  function TruncDiv(a: int, b: int): int
    requires b > 0
  {
    if a >= 0 then a / b else -((-a) / b)
  }

  function Parent(i: int): int { TruncDiv(i - 1, 2) }

  function LeftChild(i: int): int { i * 2 + 1 }

  function RightChild(i: int): int { i * 2 + 2 }

  /**
   The root is its own parent, and every other slot has exactly one parent, of which it is the left or right
   child.
   */
  lemma ParentChild(i: int, j: int)
    requires 0 <= i && 0 <= j
    ensures Parent(0) == 0
    ensures 0 < j ==> 0 <= Parent(j) < j
    ensures 0 < j ==> (Parent(j) == i <==> j == LeftChild(i) || j == RightChild(i))
    ensures LeftChild(i) == 2 * i + 1 && RightChild(i) == 2 * i + 2
  {
  }

  // ---------- Heap order ----------

  /** The priority in a slot (0 where there is none, which keeps the predicates below total). */
  function SlotPriority<V>(slot: Slot<V>): int
  {
    if slot.Node? then slot.priority else 0
  }

  function Prio<V>(s: seq<Slot<V>>, i: int): int
  {
    if 0 <= i < |s| then SlotPriority(s[i]) else 0
  }

  /** Slot j does not outrank its parent. */
  ghost predicate Ordered<V>(s: seq<Slot<V>>, j: int)
  {
    Prio(s, Parent(j)) >= Prio(s, j)
  }

  ghost predicate HeapOrder<V>(s: seq<Slot<V>>, n: nat)
  {
    forall j :: 0 < j < n ==> Ordered(s, j)
  }

  /** The parent of i is not outranked by the children of i. */
  ghost predicate Bridged<V>(s: seq<Slot<V>>, n: nat, i: int)
  {
    0 < i ==> forall j :: 0 < j < n && Parent(j) == i ==> Prio(s, Parent(i)) >= Prio(s, j)
  }

  /** Heap order except around slot i, whose own content is arbitrary. */
  ghost predicate OrderedAround<V>(s: seq<Slot<V>>, n: nat, i: int)
  {
    && (forall j :: 0 < j < n && j != i && Parent(j) != i ==> Ordered(s, j))
    && Bridged(s, n, i)
  }

  /** Heap order except that slot i may be outranked by its children. */
  ghost predicate OrderedAbove<V>(s: seq<Slot<V>>, n: nat, i: int)
  {
    && (forall j :: 0 < j < n && Parent(j) != i ==> Ordered(s, j))
    && Bridged(s, n, i)
  }

  /** In a heap the root has a maximal priority. */
  lemma {:induction false} RootIsMaximal<V>(s: seq<Slot<V>>, n: nat, i: nat)
    requires HeapOrder(s, n) && i < n
    ensures Prio(s, 0) >= Prio(s, i)
  {
    if i > 0 {
      ParentChild(0, i);
      RootIsMaximal(s, n, Parent(i));
      assert Ordered(s, i);
    }
  }

  // ---------- One step of a sift, an append, a refill ----------

  /** Heap order survives around slot i when only that slot's priority differs and the heap did not grow. */
  lemma RefillIsOrderedAround<V>(s: seq<Slot<V>>, s': seq<Slot<V>>, n: nat, n': nat, i: nat)
    requires HeapOrder(s, n) && i < n' <= n
    requires forall j :: 0 <= j < n' && j != i ==> Prio(s', j) == Prio(s, j)
    ensures OrderedAround(s', n', i)
  {
    forall j | 0 < j < n' && j != i && Parent(j) != i
      ensures Ordered(s', j)
    {
      assert Ordered(s, j) && 0 <= Parent(j) < j;
    }
    if 0 < i {
      assert Ordered(s, i) && 0 <= Parent(i) < i;
      forall j | 0 < j < n' && Parent(j) == i
        ensures Prio(s', Parent(i)) >= Prio(s', j)
      {
        assert Ordered(s, j) && i < j;
      }
    }
  }

  lemma AppendIsOrderedAround<V>(s: seq<Slot<V>>, n: nat, x: Slot<V>)
    requires n < |s| && HeapOrder(s, n)
    ensures OrderedAround(s[n := x], n + 1, n)
  {
    var s' := s[n := x];
    forall j | 0 < j < n + 1 && j != n && Parent(j) != n
      ensures Ordered(s', j)
    {
      assert Ordered(s, j) && 0 <= Parent(j) < j;
    }
    assert forall j :: 0 < j < n + 1 ==> Parent(j) < n;
  }

  lemma ReplaceIsOrderedAround<V>(s: seq<Slot<V>>, n: nat, i: nat, x: Slot<V>)
    requires i < n <= |s| && HeapOrder(s, n)
    ensures OrderedAround(s[i := x], n, i)
  {
    RefillIsOrderedAround(s, s[i := x], n, n, i);
  }

  lemma MoveLastIsOrderedAround<V>(s: seq<Slot<V>>, n: nat, i: nat)
    requires i < n - 1 && n <= |s| && HeapOrder(s, n)
    ensures OrderedAround(s[n - 1 := Nil][i := s[n - 1]], n - 1, i)
    ensures i == 0 ==> OrderedAbove(s[n - 1 := Nil][i := s[n - 1]], n - 1, i)
  {
    RefillIsOrderedAround(s, s[n - 1 := Nil][i := s[n - 1]], n, n - 1, i);
  }

  lemma ShrinkKeepsOrder<V>(s: seq<Slot<V>>, n: nat)
    requires 0 < n <= |s| && HeapOrder(s, n)
    ensures HeapOrder(s[n - 1 := Nil], n - 1)
  {
    var s' := s[n - 1 := Nil];
    forall j | 0 < j < n - 1
      ensures Ordered(s', j)
    {
      assert Ordered(s, j) && 0 <= Parent(j) < j;
    }
  }

  /** Every child of the first i slots is in order: what the self-check has established after i rounds. */
  ghost predicate OrderedUpTo<V>(s: seq<Slot<V>>, n: nat, i: nat)
  {
    forall j :: 0 < j < n && Parent(j) < i ==> Ordered(s, j)
  }

  lemma CheckOneParent<V>(s: seq<Slot<V>>, n: nat, i: nat)
    requires i < n
    ensures OrderedUpTo(s, n, i + 1) <==>
            && OrderedUpTo(s, n, i)
            && (LeftChild(i) < n ==> Prio(s, i) >= Prio(s, LeftChild(i)))
            && (RightChild(i) < n ==> Prio(s, i) >= Prio(s, RightChild(i)))
    ensures LeftChild(i) >= n ==> (OrderedUpTo(s, n, i) <==> HeapOrder(s, n))
    ensures RightChild(i) >= n ==> (OrderedUpTo(s, n, i + 1) <==> HeapOrder(s, n))
  {
    forall j | 0 < j < n
      ensures 0 <= Parent(j) < n && (Parent(j) == i <==> j == LeftChild(i) || j == RightChild(i))
      ensures LeftChild(i) >= n ==> Parent(j) < i
      ensures RightChild(i) >= n ==> Parent(j) < i + 1
    {
      ParentChild(i, j);
    }
    if OrderedUpTo(s, n, i) {
      forall j | 0 < j < n && Parent(j) < i + 1
        ensures Parent(j) < i ==> Ordered(s, j)
        ensures Parent(j) == i ==> j == LeftChild(i) || j == RightChild(i)
      {
      }
    }
    if OrderedUpTo(s, n, i + 1) {
      assert LeftChild(i) < n ==> Ordered(s, LeftChild(i));
      assert RightChild(i) < n ==> Ordered(s, RightChild(i));
    }
  }

  /** A slot without children, or not outranked by them, completes the heap order. */
  lemma SettledAt<V>(s: seq<Slot<V>>, n: nat, i: nat)
    requires OrderedAbove(s, n, i)
    requires LeftChild(i) < n ==> Prio(s, i) >= Prio(s, LeftChild(i))
    requires RightChild(i) < n ==> Prio(s, i) >= Prio(s, RightChild(i))
    ensures HeapOrder(s, n)
  {
    forall j | 0 < j < n
      ensures Ordered(s, j)
    {
      ParentChild(i, j);
    }
  }

  lemma LeafIsSettled<V>(s: seq<Slot<V>>, n: nat)
    requires 0 < n && OrderedAbove(s, n, n - 1)
    ensures HeapOrder(s, n)
  {
    SettledAt(s, n, n - 1);
  }

  /**
   The state of an upward sift that started at index and has reached ic: only ic may outrank its parent, and
   only the children of index may outrank index.
   */
  ghost predicate RisingFrom<V>(s: seq<Slot<V>>, n: nat, index: int, ic: int)
  {
    && 0 <= ic <= index < n
    && (forall j :: 0 < j < n && j != ic && Parent(j) != index ==> Ordered(s, j))
    && Bridged(s, n, ic)
    && (ic != index ==>
          && ic <= Parent(index)
          && Bridged(s, n, index)
          && ((forall j :: 0 < j < n && Parent(j) == index ==> Ordered(s, j)) || (0 < ic ==> Ordered(s, ic))))
  }

  lemma StartRising<V>(s: seq<Slot<V>>, n: nat, index: int)
    requires 0 <= index < n && OrderedAround(s, n, index)
    ensures RisingFrom(s, n, index, index)
  {
  }

  lemma RiseByStep<V>(s: seq<Slot<V>>, n: nat, index: int, ic: int)
    requires RisingFrom(s, n, index, ic) && Ordered(s, ic)
    ensures 0 < ic ==> RisingFrom(s, n, index, Parent(ic))
    ensures ic == 0 ==> OrderedAbove(s, n, index)
  {
    if 0 < ic {
      var ip := Parent(ic);
      assert 0 <= ip < ic;
      if 0 < ip {
        assert Ordered(s, ip) && Parent(ip) < ip;
        forall j | 0 < j < n && Parent(j) == ip
          ensures Prio(s, Parent(ip)) >= Prio(s, j)
        {
          assert Ordered(s, j);
        }
      }
    }
  }

  lemma RiseBySwap<V>(s: seq<Slot<V>>, s': seq<Slot<V>>, n: nat, index: int, ic: int)
    requires n <= |s| && RisingFrom(s, n, index, ic) && 0 < ic && !Ordered(s, ic)
    requires s' == s[ic := s[Parent(ic)]][Parent(ic) := s[ic]]
    ensures RisingFrom(s', n, index, Parent(ic))
  {
    var ip := Parent(ic);
    assert Prio(s', ip) == Prio(s, ic) && Prio(s', ic) == Prio(s, ip);
    assert forall j :: j != ip && j != ic ==> Prio(s', j) == Prio(s, j);
    if 0 < ip { assert Ordered(s, ip) && Parent(ip) < ip; }
    forall j | 0 < j < n && j != ip && Parent(j) != index
      ensures Ordered(s', j)
    {
      if j != ic { assert Ordered(s, j); }
    }
    if 0 < ip {
      forall j | 0 < j < n && Parent(j) == ip
        ensures Prio(s', Parent(ip)) >= Prio(s', j)
      {
        if j != ic { assert Ordered(s, j); }
      }
    }
    forall j | 0 < j < n && Parent(j) == index
      ensures Ordered(s', j) && Prio(s', Parent(index)) >= Prio(s', j)
    {
      assert index < j;
      if ic != index {
        assert Ordered(s, j);
        assert Parent(index) < index && ip < ic <= Parent(index);
      }
    }
  }

  lemma PrioSwapped<V>(s: seq<Slot<V>>, s': seq<Slot<V>>, a: int, b: int)
    requires 0 <= a < |s| && 0 <= b < |s| && s' == s[a := s[b]][b := s[a]]
    ensures Prio(s', a) == Prio(s, b) && Prio(s', b) == Prio(s, a)
    ensures forall j :: j != a && j != b ==> Prio(s', j) == Prio(s, j)
  {
  }

  lemma OrderedAboveAt<V>(s: seq<Slot<V>>, n: nat, i: int, j: int, c: int)
    requires OrderedAbove(s, n, i) && 0 < j < n && 0 < c < n && Parent(c) == i
    ensures Parent(j) != i ==> Ordered(s, j)
    ensures j == i ==> Prio(s, Parent(i)) >= Prio(s, c)
  {
  }

  lemma MakeOrderedAbove<V>(s: seq<Slot<V>>, n: nat, i: int)
    requires forall j :: 0 < j < n && Parent(j) != i ==> Ordered(s, j)
    requires forall j :: 0 < j < n && Parent(j) == i ==> Prio(s, Parent(i)) >= Prio(s, j)
    ensures OrderedAbove(s, n, i)
  {
  }

  lemma SinkBySwap<V>(s: seq<Slot<V>>, s': seq<Slot<V>>, n: nat, ip: int, inext: int)
    requires n <= |s| && 0 <= ip < n && OrderedAbove(s, n, ip)
    requires inext < n && (inext == LeftChild(ip) || inext == RightChild(ip)) && Prio(s, inext) > Prio(s, ip)
    requires LeftChild(ip) < n ==> Prio(s, LeftChild(ip)) <= Prio(s, inext)
    requires RightChild(ip) < n ==> Prio(s, RightChild(ip)) <= Prio(s, inext)
    requires s' == s[ip := s[inext]][inext := s[ip]]
    ensures OrderedAbove(s', n, inext)
  {
    hide OrderedAbove, Prio, Parent;
    ParentChild(ip, inext);
    PrioSwapped(s, s', ip, inext);
    forall j | 0 < j < n && Parent(j) != inext
      ensures Ordered(s', j)
    {
      ParentChild(ip, j);
      OrderedAboveAt(s, n, ip, j, inext);
    }
    forall j | 0 < j < n && Parent(j) == inext
      ensures Prio(s', Parent(inext)) >= Prio(s', j)
    {
      ParentChild(inext, j);
      OrderedAboveAt(s, n, ip, j, inext);
    }
    MakeOrderedAbove(s', n, inext);
  }

  /** One step up or down the tree changes the depth by one. */
  lemma ParentIsShallower(i: nat)
    ensures Log2(i + 1) == if i == 0 then 0 else 1 + Log2(Parent(i) + 1)
  {
  }

  lemma ChildIsDeeper(i: nat)
    ensures Log2(LeftChild(i) + 1) == Log2(i + 1) + 1 && Log2(RightChild(i) + 1) == Log2(i + 1) + 1
  {
  }

  // ---------- The key index ----------

  /** The first n slots hold nodes, and the index sends the key of each to its slot. */
  ghost predicate Indexed<V>(s: seq<Slot<V>>, n: nat, m: map<string, int>)
  {
    && n <= |s|
    && forall i :: 0 <= i < n ==> s[i].Node? && s[i].key in m && m[s[i].key] == i
  }

  /** The index has no other keys. */
  ghost predicate NoStrayKeys<V>(s: seq<Slot<V>>, n: nat, m: map<string, int>)
    requires n <= |s|
  {
    forall k :: k in m ==> 0 <= m[k] < n && s[m[k]].Node? && s[m[k]].key == k
  }

  /** Is key k held by one of the first n slots, where the index says? */
  predicate Held<V>(s: seq<Slot<V>>, n: nat, m: map<string, int>, k: string)
    requires n <= |s|
  {
    k in m && 0 <= m[k] < n && s[m[k]].Node? && s[m[k]].key == k
  }

  /** The finite map from key to node that the slots and the index represent. */
  function Lookup<V>(s: seq<Slot<V>>, n: nat, m: map<string, int>): map<string, Slot<V>>
    requires n <= |s|
  {
    map k | k in m && Held(s, n, m, k) :: s[m[k]]
  }

  /**
   The first n slots and the index m represent the map q, with nil slots after them. The index has the keys ks,
   one of which may be stray while an element is being removed.
   */
  ghost predicate Represents<V>(s: seq<Slot<V>>, n: nat, m: map<string, int>, ks: set<string>, q: map<string, Slot<V>>)
  {
    && Indexed(s, n, m) && m.Keys == ks && Lookup(s, n, m) == q
    && forall i :: n <= i < |s| ==> s[i].Nil?
  }

  /** The full representation between operations: no stray key, and heap order. */
  ghost predicate IsHeap<V>(s: seq<Slot<V>>, n: nat, m: map<string, int>, q: map<string, Slot<V>>)
  {
    Represents(s, n, m, q.Keys, q) && HeapOrder(s, n)
  }

  /** The index has no stray keys exactly when every indexed key can be looked up. */
  lemma NoStrayKeysIffAllHeld<V>(s: seq<Slot<V>>, n: nat, m: map<string, int>)
    requires n <= |s|
    ensures NoStrayKeys(s, n, m) <==> Lookup(s, n, m).Keys == m.Keys
    ensures NoStrayKeys(s, n, m) <==> forall k :: k in m ==> Held(s, n, m, k)
  {
    if Lookup(s, n, m).Keys == m.Keys {
      forall k | k in m ensures Held(s, n, m, k) { assert k in Lookup(s, n, m).Keys; }
    }
  }

  /** Read out of IsHeap: heap order, an index that is exact in both directions, nil past the live slots. */
  lemma IsHeapMeans<V>(s: seq<Slot<V>>, n: nat, m: map<string, int>)
    requires n <= |s|
    ensures IsHeap(s, n, m, Lookup(s, n, m))
            <==> && Indexed(s, n, m) && NoStrayKeys(s, n, m) && HeapOrder(s, n)
                 && forall i :: n <= i < |s| ==> s[i].Nil?
  {
    NoStrayKeysIffAllHeld(s, n, m);
  }

  /** A set of k numbers below n has k <= n; if k == n it holds every number below n. */
  lemma {:induction false} FullRange(xs: set<int>, n: nat)
    requires forall x :: x in xs ==> 0 <= x < n
    ensures |xs| <= n
    ensures |xs| == n ==> forall i :: 0 <= i < n ==> i in xs
  {
    if n > 0 {
      var ys := xs - {n - 1};
      FullRange(ys, n - 1);
      assert n - 1 in xs ==> xs == ys + {n - 1};
      assert n - 1 !in xs ==> xs == ys;
    } else {
      assert forall x :: x !in xs;
    }
  }

  lemma {:induction false} ImageSize(m: map<string, int>)
    requires forall k, k' :: k in m && k' in m && m[k] == m[k'] ==> k == k'
    ensures |m.Values| == |m|
    decreases |m|
  {
    if m.Keys != {} {
      var k :| k in m;
      var m' := m - {k};
      ImageSize(m');
      assert m.Keys == m'.Keys + {k};
      assert m.Values == m'.Values + {m[k]};
      assert m[k] !in m'.Values;
    } else {
      assert m.Values == {};
    }
  }

  /** A set of numbers below n that holds them all has n elements. */
  lemma {:induction false} FullRangeExact(xs: set<int>, n: nat)
    requires forall x :: x in xs <==> 0 <= x < n
    ensures |xs| == n
  {
    if n > 0 {
      FullRangeExact(xs - {n - 1}, n - 1);
    } else {
      assert forall x :: x !in xs;
    }
  }

  /**
   What the self-check inspects -- each indexed key is the key of the node it points at, and the index has
   as many keys as there are nodes -- is exactly that the index is a bijection between keys and live slots.
   */
  lemma IndexIsBijection<V>(s: seq<Slot<V>>, n: nat, m: map<string, int>)
    requires n <= |s|
    requires forall i :: 0 <= i < n ==> s[i].Node?
    requires forall k :: k in m ==> 0 <= m[k] < n
    ensures (forall k :: k in m ==> s[m[k]].key == k) && |m| == n
            <==> Indexed(s, n, m) && NoStrayKeys(s, n, m)
  {
    if forall k :: k in m ==> s[m[k]].key == k {
      ImageSize(m);
      FullRange(m.Values, n);
      if |m| == n {
        forall i | 0 <= i < n
          ensures s[i].key in m && m[s[i].key] == i
        {
          assert i in m.Values;
          var k :| k in m && m[k] == i;
        }
      }
      if Indexed(s, n, m) {
        forall i | 0 <= i < n
          ensures i in m.Values
        {
          assert m[s[i].key] == i;
        }
        FullRangeExact(m.Values, n);
      }
    }
  }

  /** Heap order in so many words: no node has a higher priority than the one it hangs under. */
  lemma HeapOrderMeans<V>(s: seq<Slot<V>>, n: nat)
    requires n <= |s| && forall i :: 0 <= i < n ==> s[i].Node?
    ensures HeapOrder(s, n) <==> forall i, j :: 0 <= i < n && 0 < j < n && (j == 2 * i + 1 || j == 2 * i + 2)
                                                ==> s[j].priority <= s[i].priority
  {
    if HeapOrder(s, n) {
      forall i, j | 0 <= i < n && 0 < j < n && (j == 2 * i + 1 || j == 2 * i + 2)
        ensures s[j].priority <= s[i].priority
      {
        assert Ordered(s, j) && Parent(j) == i;
      }
    }
    if forall i, j :: 0 <= i < n && 0 < j < n && (j == 2 * i + 1 || j == 2 * i + 2) ==> s[j].priority <= s[i].priority {
      forall j | 0 < j < n
        ensures Ordered(s, j)
      {
        ParentChild(Parent(j), j);
        assert s[j].priority <= s[Parent(j)].priority;
      }
    }
  }

  lemma HeapFacts<V>(s: seq<Slot<V>>, n: nat, m: map<string, int>, q: map<string, Slot<V>>)
    requires IsHeap(s, n, m, q)
    ensures n <= |s| && m.Keys == q.Keys && |q| == |m| == n && Lookup(s, n, m) == q
    ensures forall k :: k in q ==> q[k].Node? && q[k].key == k
  {
    NoStrayKeysIffAllHeld(s, n, m);
    IndexIsBijection(s, n, m);
    assert |q| == |q.Keys| && |m| == |m.Keys|;
  }

  lemma NodeAt<V>(s: seq<Slot<V>>, n: nat, m: map<string, int>, ks: set<string>, q: map<string, Slot<V>>, i: int)
    requires Represents(s, n, m, ks, q) && 0 <= i < n
    ensures n <= |s| && s[i].Node? && s[i].priority == Prio(s, i)
    ensures s[i].key in m && m[s[i].key] == i && s[i].key in q && q[s[i].key] == s[i]
    ensures 0 <= Parent(i) <= i && (Ordered(s, i) <==> Prio(s, Parent(i)) >= Prio(s, i))
  {
    assert Held(s, n, m, s[i].key);
  }

  lemma NodeAtHeap<V>(s: seq<Slot<V>>, n: nat, m: map<string, int>, q: map<string, Slot<V>>, i: int)
    requires IsHeap(s, n, m, q) && 0 <= i < n
    ensures n <= |s| && s[i].Node? && s[i].key in m && m[s[i].key] == i
  {
  }

  lemma HeapDone<V>(s: seq<Slot<V>>, n: nat, m: map<string, int>, q: map<string, Slot<V>>)
    requires Represents(s, n, m, q.Keys, q) && HeapOrder(s, n)
    ensures n <= |s| && IsHeap(s, n, m, q) && Lookup(s, n, m) == q
  {
  }

  lemma NodeOfKey<V>(s: seq<Slot<V>>, n: nat, m: map<string, int>, q: map<string, Slot<V>>, k: string)
    requires IsHeap(s, n, m, q) && k in m
    ensures n <= |s| && 0 <= m[k] < n && s[m[k]].Node? && s[m[k]].key == k && k in q && s[m[k]] == q[k]
  {
    NoStrayKeysIffAllHeld(s, n, m);
  }

  /** Exchanging two nodes and re-indexing their keys loses, duplicates or alters nothing. */
  lemma SwapStep<V>(
    s: seq<Slot<V>>, n: nat, m: map<string, int>, ks: set<string>, q: map<string, Slot<V>>, i: nat, j: nat)
    requires Represents(s, n, m, ks, q) && i < n && j < n && i != j
    ensures Represents(s[i := s[j]][j := s[i]], n, m[s[j].key := i][s[i].key := j], ks, q)
  {
    var s' := s[i := s[j]][j := s[i]];
    var m' := m[s[j].key := i][s[i].key := j];
    assert s[i].key != s[j].key;
    forall k | k in m
      ensures Held(s', n, m', k) == Held(s, n, m, k)
      ensures Held(s, n, m, k) ==> s'[m'[k]] == s[m[k]]
    {
      if k != s[i].key && k != s[j].key && Held(s, n, m, k) {
        assert m[k] != i && m[k] != j;
      }
    }
  }

  /** Writing a new node into the first free slot. */
  lemma AppendStep<V>(s: seq<Slot<V>>, n: nat, m: map<string, int>, q: map<string, Slot<V>>, x: Slot<V>)
    requires IsHeap(s, n, m, q) && n < |s| && x.Node? && x.key !in m
    ensures Represents(s[n := x], n + 1, m[x.key := n], q.Keys + {x.key}, q[x.key := x])
    ensures OrderedAround(s[n := x], n + 1, n)
  {
    var s', m' := s[n := x], m[x.key := n];
    NoStrayKeysIffAllHeld(s, n, m);
    assert forall k :: k in m' ==> Held(s', n + 1, m', k);
    AppendIsOrderedAround(s, n, x);
  }

  /** Once the sift of an appended node is over, nothing is left to repair below it. */
  lemma AppendDone<V>(s: seq<Slot<V>>, n: nat, m: map<string, int>, ks: set<string>, q: map<string, Slot<V>>)
    requires 0 < n && Represents(s, n, m, ks, q) && q.Keys == ks && OrderedAbove(s, n, n - 1)
    ensures IsHeap(s, n, m, q)
  {
    LeafIsSettled(s, n);
  }

  /** Changing the priority of the node in slot i. */
  lemma ReplaceStep<V>(s: seq<Slot<V>>, n: nat, m: map<string, int>, q: map<string, Slot<V>>, i: nat, priority: int)
    requires IsHeap(s, n, m, q) && i < n && s[i].Node?
    ensures var x := s[i].(priority := priority);
            Represents(s[i := x], n, m, q.Keys, q[x.key := x]) && OrderedAround(s[i := x], n, i)
  {
    var x := s[i].(priority := priority);
    var s' := s[i := x];
    NoStrayKeysIffAllHeld(s, n, m);
    assert forall k :: k in m && m[k] == i ==> k == x.key;
    assert forall k :: k in m ==> Held(s', n, m, k) && Held(s, n, m, k);
    ReplaceIsOrderedAround(s, n, i, x);
  }

  /** Dropping slot i and refilling it with the last node takes exactly one key away, which stays behind as a stray. */
  lemma MoveLastStep<V>(s: seq<Slot<V>>, n: nat, m: map<string, int>, q: map<string, Slot<V>>, i: nat)
    requires IsHeap(s, n, m, q) && i < n - 1 && s[i].Node? && s[n - 1].Node?
    ensures var s', m' := s[n - 1 := Nil][i := s[n - 1]], m[s[n - 1].key := i];
            && Represents(s', n - 1, m', q.Keys, q - {s[i].key})
            && OrderedAround(s', n - 1, i) && (i == 0 ==> OrderedAbove(s', n - 1, i))
  {
    var s', m' := s[n - 1 := Nil][i := s[n - 1]], m[s[n - 1].key := i];
    var key := s[i].key;
    assert m[key] == i && m[s[n - 1].key] == n - 1;
    NoStrayKeysIffAllHeld(s, n, m);
    assert !Held(s', n - 1, m', key);
    forall k | k in m && k != key
      ensures k in m' && Held(s, n, m, k) && Held(s', n - 1, m', k) && s'[m'[k]] == s[m[k]]
    {
      assert m[k] != i;
    }
    MoveLastIsOrderedAround(s, n, i);
  }

  lemma DropLastStep<V>(s: seq<Slot<V>>, n: nat, m: map<string, int>, q: map<string, Slot<V>>)
    requires IsHeap(s, n, m, q) && 0 < n && s[n - 1].Node?
    ensures Represents(s[n - 1 := Nil], n - 1, m, q.Keys, q - {s[n - 1].key}) && HeapOrder(s[n - 1 := Nil], n - 1)
  {
    var s' := s[n - 1 := Nil];
    assert m[s[n - 1].key] == n - 1;
    NoStrayKeysIffAllHeld(s, n, m);
    forall k | k in m
      ensures Held(s, n, m, k) && (Held(s', n - 1, m, k) <==> k != s[n - 1].key)
    {
    }
    ShrinkKeepsOrder(s, n);
  }

  /** Deleting a stray key from the index. */
  lemma DeleteStrayKey<V>(
    s: seq<Slot<V>>, n: nat, m: map<string, int>, ks: set<string>, q: map<string, Slot<V>>, key: string)
    requires Represents(s, n, m, ks, q) && key !in q
    ensures Represents(s, n, m - {key}, ks - {key}, q)
  {
    assert !Held(s, n, m, key);
  }

  /** Copying the slots into a longer array. */
  lemma ExtendStep<V>(s: seq<Slot<V>>, s': seq<Slot<V>>, n: nat, m: map<string, int>, q: map<string, Slot<V>>)
    requires IsHeap(s, n, m, q) && |s| <= |s'|
    requires forall i :: 0 <= i < |s'| ==> s'[i] == if i < |s| then s[i] else Nil
    ensures IsHeap(s', n, m, q)
  {
    forall j | 0 < j < n
      ensures Ordered(s', j)
    {
      assert Ordered(s, j) && 0 <= Parent(j) < j;
    }
  }

  /** Taking k out of the map q is a legal pop: k is present and nothing outranks it. */
  ghost predicate IsTop<V>(q: map<string, Slot<V>>, k: string)
  {
    && k in q && q[k].Node?
    && forall k' :: k' in q && q[k'].Node? ==> q[k'].priority <= q[k].priority
  }

  /** The root of a non-empty heap is a legal result of Peek and Pop. */
  lemma RootIsTop<V>(s: seq<Slot<V>>, n: nat, m: map<string, int>, q: map<string, Slot<V>>)
    requires IsHeap(s, n, m, q) && 0 < n
    ensures s[0].Node? && IsTop(q, s[0].key) && q[s[0].key] == s[0]
  {
    NodeAt(s, n, m, q.Keys, q, 0);
    forall k | k in q
      ensures q[k].priority <= s[0].priority
    {
      RootIsMaximal(s, n, m[k]);
    }
  }

  // ---------- Emptying a queue ----------

  lemma TopsAgree<V>(q: map<string, Slot<V>>, a: string, b: string)
    requires IsTop(q, a) && IsTop(q, b)
    ensures a in q && q[a].Node? && q[b].Node? && q[a].priority == q[b].priority
  {
  }

  function Removed<V>(q: map<string, V>, ks: seq<string>): map<string, V>
  {
    map k | k in q && k !in ks :: q[k]
  }

  /** The keys ks were popped from q one after another, each from the top of what was left. */
  ghost predicate Pops<V>(q: map<string, Slot<V>>, ks: seq<string>)
  {
    forall i :: 0 <= i < |ks| ==> IsTop(Removed(q, ks[..i]), ks[i])
  }

  lemma PopsOneMore<V>(q: map<string, Slot<V>>, ks: seq<string>, k: string)
    requires Pops(q, ks) && IsTop(Removed(q, ks), k)
    ensures Pops(q, ks + [k]) && Removed(q, ks + [k]) == Removed(q, ks) - {k}
  {
    forall i | 0 <= i < |ks + [k]|
      ensures IsTop(Removed(q, (ks + [k])[..i]), (ks + [k])[i])
    {
      assert (ks + [k])[..i] == ks[..i];
      assert ks[..|ks|] == ks;
    }
  }

  /**
   However a queue is emptied by pops, every key comes out exactly once and the priorities come out in
   non-increasing order.
   */
  lemma PopsAreSorted<V>(q: map<string, Slot<V>>, ks: seq<string>)
    requires Pops(q, ks) && Removed(q, ks) == map[]
    ensures forall k :: k in q <==> k in ks
    ensures forall k :: k in q ==> q[k].Node?
    ensures forall i, j :: 0 <= i < j < |ks| ==> ks[i] != ks[j] && q[ks[i]].priority >= q[ks[j]].priority
  {
    forall i | 0 <= i < |ks|
      ensures ks[i] in q && q[ks[i]].Node? && ks[i] !in ks[..i]
    {
      assert IsTop(Removed(q, ks[..i]), ks[i]);
    }
    forall k | k in q
      ensures k in ks
    {
      assert k !in Removed(q, ks);
    }
    forall i, j | 0 <= i < j < |ks|
      ensures ks[i] != ks[j] && q[ks[i]].priority >= q[ks[j]].priority
    {
      assert ks[..j][i] == ks[i];
      assert IsTop(Removed(q, ks[..i]), ks[i]);
      assert ks[j] !in ks[..i] by {
        assert forall x :: x in ks[..i] ==> x in ks[..j];
      }
      assert ks[j] in Removed(q, ks[..i]);
    }
  }
}
