/**
Sums over finite sets, independent of the order in which the elements come.
*/
module Sums {

  ghost function Sum<T(!new)>(s: set<T>, f: T -> nat): nat {
    if s == {} then 0 else var x :| x in s; f(x) + Sum(s - {x}, f)
  }

  lemma {:induction false} SumRemove<T(!new)>(s: set<T>, f: T -> nat, x: T)
    requires x in s
    ensures Sum(s, f) == f(x) + Sum(s - {x}, f)
    decreases s
  {
    var y :| y in s && Sum(s, f) == f(y) + Sum(s - {y}, f);
    if y != x {
      SumRemove(s - {y}, f, x);
      SumRemove(s - {x}, f, y);
      assert s - {x} - {y} == s - {y} - {x};
    }
  }

  lemma SumInsert<T(!new)>(s: set<T>, f: T -> nat, x: T)
    requires x !in s
    ensures Sum(s + {x}, f) == f(x) + Sum(s, f)
  {
    SumRemove(s + {x}, f, x);
    assert s + {x} - {x} == s;
  }

  lemma {:induction false} SumMonotone<T(!new)>(s: set<T>, f: T -> nat, g: T -> nat)
    requires forall x :: x in s ==> f(x) <= g(x)
    ensures Sum(s, f) <= Sum(s, g)
    decreases s
  {
    if s != {} {
      var x :| x in s;
      SumRemove(s, f, x);
      SumRemove(s, g, x);
      SumMonotone(s - {x}, f, g);
    }
  }

  lemma SumCongruent<T(!new)>(s: set<T>, f: T -> nat, g: T -> nat)
    requires forall x :: x in s ==> f(x) == g(x)
    ensures Sum(s, f) == Sum(s, g)
  {
    SumMonotone(s, f, g);
    SumMonotone(s, g, f);
  }

  lemma {:induction false} SumAdds<T(!new)>(s: set<T>, f: T -> nat, g: T -> nat, h: T -> nat)
    requires forall x :: x in s ==> h(x) == f(x) + g(x)
    ensures Sum(s, h) == Sum(s, f) + Sum(s, g)
    decreases s
  {
    if s != {} {
      var x :| x in s;
      SumRemove(s, f, x);
      SumRemove(s, g, x);
      SumRemove(s, h, x);
      SumAdds(s - {x}, f, g, h);
    }
  }

  /** Changing one value changes the sum by the difference. */
  lemma SumChange<T(!new)>(s: set<T>, f: T -> nat, g: T -> nat, x: T, d: nat)
    requires x in s && g(x) == f(x) + d && forall y :: y in s && y != x ==> g(y) == f(y)
    ensures Sum(s, g) == Sum(s, f) + d
  {
    SumRemove(s, f, x);
    SumRemove(s, g, x);
    SumCongruent(s - {x}, f, g);
  }

  /** The size of a subset as a sum of ones. */
  lemma {:induction false} SumOnes<T(!new)>(s: set<T>, part: set<T>, f: T -> nat)
    requires part <= s && forall x :: x in s ==> f(x) == if x in part then 1 else 0
    ensures Sum(s, f) == |part|
    decreases s
  {
    if s != {} {
      var x :| x in s;
      SumRemove(s, f, x);
      SumOnes(s - {x}, part - {x}, f);
    }
  }

  /** Elements of value zero do not matter. */
  lemma {:induction false} SumWiden<T(!new)>(part: set<T>, s: set<T>, f: T -> nat)
    requires part <= s && forall x :: x in s - part ==> f(x) == 0
    ensures Sum(part, f) == Sum(s, f)
    decreases s
  {
    if x :| x in s && x !in part {
      SumRemove(s, f, x);
      SumWiden(part, s - {x}, f);
    } else {
      assert part == s;
    }
  }

  /** Of two ordered functions the sums are equal exactly if all values are. */
  lemma {:induction false} SumEqualIff<T(!new)>(s: set<T>, f: T -> nat, g: T -> nat)
    requires forall x :: x in s ==> f(x) <= g(x)
    ensures Sum(s, f) == Sum(s, g) <==> forall x :: x in s ==> f(x) == g(x)
  {
    if x :| x in s && f(x) != g(x) {
      SumRemove(s, f, x);
      SumRemove(s, g, x);
      SumMonotone(s - {x}, f, g);
    } else {
      SumCongruent(s, f, g);
    }
  }
}
