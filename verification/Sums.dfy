// Finite sums of real weights over sets.
module Sums {

  ghost function Sum<T(!new)>(f: T -> real, s: set<T>): real
    decreases |s|
  {
    if s == {} then 0.0
    else
      var x :| x in s;
      f(x) + Sum(f, s - {x})
  }

  // Any element may be taken first.
  lemma {:induction false} TakeOut<T(!new)>(f: T -> real, s: set<T>, x: T)
    requires x in s
    ensures Sum(f, s) == f(x) + Sum(f, s - {x})
    decreases |s|
  {
    var y :| y in s && Sum(f, s) == f(y) + Sum(f, s - {y});
    if x != y {
      TakeOut(f, s - {y}, x);
      TakeOut(f, s - {x}, y);
      assert s - {y} - {x} == s - {x} - {y};
    }
  }

  lemma PutIn<T(!new)>(f: T -> real, s: set<T>, x: T)
    requires x !in s
    ensures Sum(f, s + {x}) == f(x) + Sum(f, s)
  {
    TakeOut(f, s + {x}, x);
    assert s + {x} - {x} == s;
  }

  lemma {:induction false} SumOfEqual<T(!new)>(f: T -> real, g: T -> real, s: set<T>)
    requires forall x :: x in s ==> f(x) == g(x)
    ensures Sum(f, s) == Sum(g, s)
    decreases |s|
  {
    if s != {} {
      var x :| x in s;
      TakeOut(f, s, x);
      TakeOut(g, s, x);
      SumOfEqual(f, g, s - {x});
    }
  }

  // A larger set of non-negative terms has a larger sum, strictly so exactly when it
  // has another term that is not zero.
  lemma {:induction false} Larger<T(!new)>(f: T -> real, a: set<T>, b: set<T>)
    requires a <= b && forall x :: x in b ==> f(x) > 0.0
    ensures Sum(f, a) <= Sum(f, b)
    ensures Sum(f, a) == Sum(f, b) <==> a == b
    decreases |b|
  {
    if a != b {
      var x :| x in b && x !in a;
      TakeOut(f, b, x);
      Larger(f, a, b - {x});
    }
  }

  lemma {:induction false} Disjoint<T(!new)>(f: T -> real, a: set<T>, b: set<T>)
    requires a !! b
    ensures Sum(f, a + b) == Sum(f, a) + Sum(f, b)
    decreases |b|
  {
    if b == {} {
      assert a + b == a;
    } else {
      var x :| x in b;
      TakeOut(f, b, x);
      TakeOut(f, a + b, x);
      assert a + b - {x} == a + (b - {x});
      Disjoint(f, a, b - {x});
    }
  }

  ghost function Fiber<T(!new), K(!new)>(key: T -> K, s: set<T>, i: K): set<T> {
    set x | x in s && key(x) == i
  }

  ghost function Buckets<T(!new), K(!new)>(f: T -> real, key: T -> K, s: set<T>): K -> real {
    (i: K) => Sum(f, Fiber(key, s, i))
  }

  ghost function Within<T(!new), K(!new)>(key: T -> K, s: set<T>, k: set<K>): set<T> {
    set x | x in s && key(x) in k
  }

  lemma OneBucketMore<T(!new), K(!new)>(f: T -> real, key: T -> K, s: set<T>, k: set<K>, i: K)
    requires i in k
    ensures Sum(f, Within(key, s, k)) == Sum(f, Within(key, s, k - {i})) + Sum(f, Fiber(key, s, i))
  {
    var rest := Within(key, s, k - {i});
    Disjoint(f, rest, Fiber(key, s, i));
    assert rest + Fiber(key, s, i) == Within(key, s, k);
  }

  // Summing bucket by bucket, over the buckets in k only.
  lemma {:induction false} ByBucket<T(!new), K(!new)>(f: T -> real, key: T -> K, s: set<T>, k: set<K>)
    ensures Sum(Buckets(f, key, s), k) == Sum(f, Within(key, s, k))
    decreases |k|
  {
    if k == {} {
      assert Within(key, s, k) == {};
    } else {
      var i :| i in k;
      TakeOut(Buckets(f, key, s), k, i);
      ByBucket(f, key, s, k - {i});
      OneBucketMore(f, key, s, k, i);
    }
  }
}
