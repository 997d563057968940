/** Bucket counts, as the metrics build them, and the sums they conserve. */
module Counting {

  /** Increments a bucket; one that is missing counts as zero. */
  function Bump<V>(m: map<V, int>, v: V): map<V, int>
  {
    m[v := (if v in m then m[v] else 0) + 1]
  }

  function Preimage<K, V(==)>(dom: set<K>, f: K -> V, v: V): set<K>
  {
    set k | k in dom && f(k) == v
  }

  /** m counts, for each value that f takes on dom, how often it takes it. */
  ghost predicate CountsOf<K, V>(dom: set<K>, f: K -> V, m: map<V, int>)
  {
    && (forall k :: k in dom ==> f(k) in m)
    && (forall v :: v in m ==> m[v] == |Preimage(dom, f, v)| && m[v] > 0)
  }

  /** The one map that counts f on dom. */
  ghost function Counts<K, V>(dom: set<K>, f: K -> V): map<V, int>
  {
    map v | v in (set k | k in dom :: f(k)) :: |Preimage(dom, f, v)|
  }

  lemma CountsAreCounts<K, V>(dom: set<K>, f: K -> V)
    ensures CountsOf(dom, f, Counts(dom, f))
  {
    forall v | v in Counts(dom, f)
      ensures |Preimage(dom, f, v)| > 0
    {
      var k :| k in dom && f(k) == v;
      assert k in Preimage(dom, f, v);
    }
  }

  lemma CountsAreUnique<K, V>(dom: set<K>, f: K -> V, m: map<V, int>)
    requires CountsOf(dom, f, m)
    ensures m == Counts(dom, f)
  {
    forall v | v in m
      ensures v in Counts(dom, f)
    {
      assert Preimage(dom, f, v) != {};
      var k :| k in Preimage(dom, f, v);
    }
  }

  lemma BumpCounts<K, V>(dom: set<K>, f: K -> V, m: map<V, int>, x: K)
    requires CountsOf(dom, f, m) && x !in dom
    ensures CountsOf(dom + {x}, f, Bump(m, f(x)))
  {
    var m' := Bump(m, f(x));
    forall v | v in m'
      ensures m'[v] == |Preimage(dom + {x}, f, v)| && m'[v] > 0
    {
      if v == f(x) {
        assert Preimage(dom + {x}, f, v) == Preimage(dom, f, v) + {x};
        if v !in m { assert Preimage(dom, f, v) == {}; }
      } else {
        assert Preimage(dom + {x}, f, v) == Preimage(dom, f, v);
      }
    }
  }

  ghost function Pick<K>(s: set<K>): (k: K)
    requires s != {}
    ensures k in s
  {
    var k :| k in s; k
  }

  /** The sum of g over a finite set. */
  ghost function SumOver<K(!new)>(s: set<K>, g: K -> int): int
  {
    if s == {} then 0 else g(Pick(s)) + SumOver(s - {Pick(s)}, g)
  }

  /** The sum over the buckets of weight times count. */
  ghost function Weighted<V(!new)>(m: map<V, int>, w: V -> int): int
    decreases m.Keys
  {
    if m.Keys == {} then 0
    else var v := Pick(m.Keys); w(v) * m[v] + Weighted(m - {v}, w)
  }

  lemma {:induction false} SumExtract<K(!new)>(s: set<K>, g: K -> int, x: K)
    requires x in s
    ensures SumOver(s, g) == g(x) + SumOver(s - {x}, g)
    decreases s
  {
    var y := Pick(s);
    if x != y {
      SumExtract(s - {y}, g, x);
      SumExtract(s - {x}, g, y);
      assert s - {y} - {x} == s - {x} - {y};
    }
  }

  lemma {:induction false} SumDisjoint<K(!new)>(a: set<K>, b: set<K>, g: K -> int)
    requires a !! b
    ensures SumOver(a + b, g) == SumOver(a, g) + SumOver(b, g)
    decreases a
  {
    if a == {} {
      assert a + b == b;
    } else {
      var x := Pick(a);
      SumDisjoint(a - {x}, b, g);
      SumExtract(a + b, g, x);
      assert a + b - {x} == (a - {x}) + b;
    }
  }

  lemma {:induction false} SumConstant<K(!new)>(s: set<K>, g: K -> int, c: int)
    requires forall x :: x in s ==> g(x) == c
    ensures SumOver(s, g) == c * |s|
    decreases s
  {
    if s != {} {
      SumConstant(s - {Pick(s)}, g, c);
    }
  }

  lemma {:induction false} SumAgree<K(!new)>(s: set<K>, g: K -> int, h: K -> int)
    requires forall x :: x in s ==> g(x) == h(x)
    ensures SumOver(s, g) == SumOver(s, h)
    decreases s
  {
    if s != {} {
      SumAgree(s - {Pick(s)}, g, h);
    }
  }

  lemma CountWithoutBucket<K, V>(dom: set<K>, f: K -> V, m: map<V, int>, v: V)
    requires CountsOf(dom, f, m) && v in m
    ensures CountsOf(dom - Preimage(dom, f, v), f, m - {v})
    ensures m[v] == |Preimage(dom, f, v)| && Preimage(dom, f, v) <= dom
    ensures forall k :: k in Preimage(dom, f, v) ==> f(k) == v
  {
    forall v' | v' in m - {v}
      ensures Preimage(dom - Preimage(dom, f, v), f, v') == Preimage(dom, f, v')
    {
    }
  }

  /** Counting conserves weight: summing bucket by bucket is summing element by element. */
  lemma {:induction false} CountingConserves<K(!new), V(!new)>(
    dom: set<K>, f: K -> V, m: map<V, int>, w: V -> int, g: K -> int)
    requires CountsOf(dom, f, m)
    requires forall x :: x in dom ==> g(x) == w(f(x))
    ensures Weighted(m, w) == SumOver(dom, g)
    decreases m.Keys
  {
    if m.Keys == {} {
      assert forall k :: k in dom ==> f(k) in m.Keys;
    } else {
      var v := Pick(m.Keys);
      var p := Preimage(dom, f, v);
      var rest := dom - p;
      CountWithoutBucket(dom, f, m, v);
      hide CountsOf, Preimage;
      CountingConserves(rest, f, m - {v}, w, g);
      SumConstant(p, g, w(v));
      SumDisjoint(p, rest, g);
      assert p + rest == dom;
    }
  }

  lemma {:induction false} WeightedIsSum<V(!new)>(m: map<V, int>, w: V -> int, g: V -> int)
    requires forall v :: v in m ==> g(v) == w(v) * m[v]
    ensures Weighted(m, w) == SumOver(m.Keys, g)
    decreases m.Keys
  {
    if m.Keys != {} {
      var v := Pick(m.Keys);
      WeightedIsSum(m - {v}, w, g);
      assert (m - {v}).Keys == m.Keys - {v};
    }
  }

  /** The counts of all buckets add up to the number of elements counted. */
  lemma CountsAddUp<K(!new), V(!new)>(dom: set<K>, f: K -> V, m: map<V, int>)
    requires CountsOf(dom, f, m)
    ensures Weighted(m, (v: V) => 1) == |dom|
  {
    CountingConserves(dom, f, m, (v: V) => 1, (k: K) => 1);
    SumConstant(dom, (k: K) => 1, 1);
  }

  function Identity(): int -> int { n => n }

  /** Counting numbers conserves their sum. */
  lemma CountedNumbersAddUp<K(!new)>(dom: set<K>, f: K -> int, m: map<int, int>)
    requires CountsOf(dom, f, m)
    ensures Weighted(m, Identity()) == SumOver(dom, f)
  {
    CountingConserves(dom, f, m, Identity(), f);
  }

  /** A histogram of counts remembers how many elements were counted in the first place. */
  lemma HistogramRemembers<K(!new), V(!new)>(
    dom: set<K>, f: K -> V, m: map<V, int>, c: V -> int, histogram: map<int, int>)
    requires CountsOf(dom, f, m) && CountsOf(m.Keys, c, histogram)
    requires forall v :: v in m ==> c(v) == m[v]
    ensures Weighted(histogram, Identity()) == |dom|
  {
    CountedNumbersAddUp(m.Keys, c, histogram);
    CountsAddUp(dom, f, m);
    WeightedIsSum(m, (v: V) => 1, c);
  }
}
