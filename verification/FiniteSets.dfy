/** Facts about finite sets and their sizes. */
module FiniteSets {

  function Range(lo: nat, hi: nat): (r: set<nat>)
    requires lo <= hi
    ensures forall p: nat :: p in r <==> lo <= p < hi
    ensures |r| == hi - lo
    decreases hi
  {
    if lo == hi then {} else Range(lo, hi - 1) + {hi - 1}
  }

  function Elements<T>(list: seq<T>): set<T> {
    set x | x in list
  }

  lemma {:induction false} ElementsSize<T>(list: seq<T>)
    ensures |Elements(list)| <= |list|
    ensures (forall i, j :: 0 <= i < j < |list| ==> list[i] != list[j]) ==> |Elements(list)| == |list|
  {
    if list == [] {
      assert Elements(list) == {};
    } else {
      var front, last := list[..|list| - 1], list[|list| - 1];
      ElementsSize(front);
      assert list == front + [last];
      assert Elements(list) == Elements(front) + {last};
    }
  }

  lemma SameMembers(a: set<nat>, b: set<nat>)
    requires forall q: nat :: q in a <==> q in b
    ensures a == b
  {}

  lemma {:induction false} SubsetSize<T>(small: set<T>, big: set<T>)
    requires small <= big
    ensures |small| <= |big|
    decreases small
  {
    if x :| x in small {
      SubsetSize(small - {x}, big - {x});
    }
  }

  lemma MissingMember(part: set<nat>, n: nat, x: nat)
    requires part <= Range(0, n) && x < n && x !in part
    ensures |part| < n
  {
    SubsetSize(part, Range(0, n) - {x});
  }

  lemma {:induction false} SurjectionSize<A(!new), B(!new)>(xs: set<A>, ys: set<B>, f: A -> B)
    requires forall y :: y in ys ==> exists x :: x in xs && f(x) == y
    ensures |ys| <= |xs|
    decreases ys
  {
    if y :| y in ys {
      var x :| x in xs && f(x) == y;
      forall other | other in ys - {y}
        ensures exists z :: z in xs - {x} && f(z) == other
      {
        var z :| z in xs && f(z) == other;
        assert z in xs - {x};
      }
      SurjectionSize(xs - {x}, ys - {y}, f);
    }
  }

  lemma {:induction false} InjectionSize<A(!new), B(!new)>(xs: set<A>, ys: set<B>, f: A -> B)
    requires forall x :: x in xs ==> f(x) in ys
    requires forall x, y :: x in xs && y in xs && f(x) == f(y) ==> x == y
    ensures |xs| <= |ys|
    decreases xs
  {
    if x :| x in xs {
      InjectionSize(xs - {x}, ys - {f(x)}, f);
    }
  }
}
