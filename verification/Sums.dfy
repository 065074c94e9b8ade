/** Sums over finite sets of accounts. */
module Sums {
  import opened Arithmetic
  import opened Evm

  ghost function Sum(d: set<Address>, f: Address -> int): int
  {
    if d == {} then 0 else var x :| x in d; f(x) + Sum(d - {x}, f)
  }

  lemma {:induction false} SumSplit(d: set<Address>, f: Address -> int, x: Address)
    requires x in d
    ensures Sum(d, f) == f(x) + Sum(d - {x}, f)
    decreases d
  {
    var y :| y in d && Sum(d, f) == f(y) + Sum(d - {y}, f);
    if y == x {
    } else {
      SumSplit(d - {y}, f, x);
      SumSplit(d - {x}, f, y);
      assert d - {x} - {y} == d - {y} - {x};
    }
  }

  lemma {:induction false} SumSame(d: set<Address>, f: Address -> int, g: Address -> int)
    requires forall a :: a in d ==> f(a) == g(a)
    ensures Sum(d, f) == Sum(d, g)
    decreases d
  {
    if d == {} {
    } else {
      var x :| x in d;
      SumSplit(d, f, x);
      SumSplit(d, g, x);
      SumSame(d - {x}, f, g);
    }
  }

  /** Changing one term changes the sum by the difference of the two terms. The changed
      account may be new to the domain, provided its old term was zero. */
  lemma {:induction false} SumPoint(d: set<Address>, f: Address -> int, g: Address -> int, x: Address)
    requires forall a :: a in d && a != x ==> f(a) == g(a)
    requires x !in d ==> f(x) == 0
    ensures Sum(d + {x}, g) == Sum(d, f) - f(x) + g(x)
  {
    SumSplit(d + {x}, g, x);
    assert d + {x} - {x} == d - {x};
    SumSame(d - {x}, f, g);
    if x in d {
      SumSplit(d, f, x);
    } else {
      assert d - {x} == d;
    }
  }

  lemma {:induction false} SumLe(d: set<Address>, f: Address -> int, g: Address -> int)
    requires forall a :: a in d ==> f(a) <= g(a)
    ensures Sum(d, f) <= Sum(d, g)
    decreases d
  {
    if d == {} {
    } else {
      var x :| x in d;
      SumSplit(d, f, x);
      SumSplit(d, g, x);
      SumLe(d - {x}, f, g);
    }
  }

  /** If every term of h is f plus k times g, so is the sum. */
  lemma {:induction false} SumLinear(d: set<Address>, f: Address -> int, g: Address -> int, k: int, h: Address -> int)
    requires forall a :: a in d ==> h(a) == f(a) + k * g(a)
    ensures Sum(d, h) == Sum(d, f) + k * Sum(d, g)
    decreases d
  {
    if d == {} {
    } else {
      var x :| x in d;
      SumSplit(d, f, x);
      SumSplit(d, g, x);
      SumSplit(d, h, x);
      SumLinear(d - {x}, f, g, k, h);
    }
  }

  /** Rounding each term down to a multiple of k loses less than k for each account. */
  lemma {:induction false} SumFloors(d: set<Address>, f: Address -> int, k: int, g: Address -> int)
    requires forall a :: a in d ==> k * g(a) <= f(a) < k * g(a) + k
    ensures k * Sum(d, g) <= Sum(d, f) <= k * Sum(d, g) + k * |d|
    decreases d
  {
    if d == {} {
    } else {
      var x :| x in d;
      SumSplit(d, f, x);
      SumSplit(d, g, x);
      SumFloors(d - {x}, f, k, g);
      Distribute(k, g(x), Sum(d - {x}, g));
      Distribute(k, |d - {x}|, 1);
    }
  }

  /** A sum of a function that is zero off one account is that account's term. */
  lemma {:induction false} SumSingle(d: set<Address>, f: Address -> int, x: Address)
    requires forall a :: a in d && a != x ==> f(a) == 0
    requires x !in d ==> f(x) == 0
    ensures Sum(d, f) == f(x)
    decreases d
  {
    if d == {} {
    } else {
      var y :| y in d;
      SumSplit(d, f, y);
      if y == x {
        SumZero(d - {y}, f);
      } else {
        SumSingle(d - {y}, f, x);
      }
    }
  }

  lemma {:induction false} SumZero(d: set<Address>, f: Address -> int)
    requires forall a :: a in d ==> f(a) == 0
    ensures Sum(d, f) == 0
    decreases d
  {
    if d == {} {
    } else {
      var x :| x in d;
      SumSplit(d, f, x);
      SumZero(d - {x}, f);
    }
  }

  /** Accounts whose term is zero do not matter. */
  lemma {:induction false} SumSupport(d: set<Address>, e: set<Address>, f: Address -> int)
    requires e <= d && forall a :: a in d - e ==> f(a) == 0
    ensures Sum(d, f) == Sum(e, f)
    decreases d
  {
    if x :| x in d && x !in e {
      SumSplit(d, f, x);
      SumSupport(d - {x}, e, f);
    } else {
      assert d == e;
    }
  }

  /** The whole of a mapping from accounts to amounts. */
  function Amounts(m: map<Address, nat>): Address -> int {
    (a: Address) => Get(m, a)
  }

  ghost function Total(m: map<Address, nat>): int {
    Sum(m.Keys, Amounts(m))
  }

  lemma TotalUpdate(m: map<Address, nat>, a: Address, v: nat)
    ensures Total(m[a := v]) == Total(m) - Get(m, a) + v
  {
    SumPoint(m.Keys, Amounts(m), Amounts(m[a := v]), a);
    assert m[a := v].Keys == m.Keys + {a};
  }

  /** One term of a sum without negative terms. */
  lemma SumAtLeast(d: set<Address>, f: Address -> int, x: Address)
    requires forall a :: a in d ==> 0 <= f(a)
    ensures 0 <= Sum(d, f) && (x in d ==> f(x) <= Sum(d, f))
  {
    var z: Address -> int := (a: Address) => 0;
    SumZero(d, z);
    SumLe(d, z, f);
    if x in d {
      SumSplit(d, f, x);
      SumZero(d - {x}, z);
      SumLe(d - {x}, z, f);
    }
  }

  lemma TotalAtLeast(m: map<Address, nat>, a: Address)
    ensures 0 <= Get(m, a) <= Total(m)
  {
    SumAtLeast(m.Keys, Amounts(m), a);
  }
}
