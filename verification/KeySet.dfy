/** A set of message keys as one windowed set of numbers per originator. */
module KeySet {
  import opened Messages
  import RollingSet

  class KeySet {
    const sets: seq<RollingSet.RollingBitset>
    ghost var Keys: set<Key>
    ghost var Repr: set<object>

    ghost predicate Valid()
      reads this, Repr
      ensures Valid() ==> this in Repr
    {
      && this in Repr
      && (forall i :: 0 <= i < |sets| ==> sets[i] in Repr && sets[i].Repr <= Repr && this !in sets[i].Repr)
      && (forall i :: 0 <= i < |sets| ==> sets[i].Valid())
      && (forall i, j :: 0 <= i < j < |sets| ==> sets[i].Repr !! sets[j].Repr)
      && forall k :: k in Keys <==> k.originator < |sets| && k.seqNum in sets[k.originator].Elems
    }

    constructor (n: nat)
      ensures Valid() && fresh(Repr) && Keys == {} && |sets| == n
    {
      var made: seq<RollingSet.RollingBitset> := [];
      while |made| < n
        invariant |made| <= n
        invariant forall i :: 0 <= i < |made| ==> fresh(made[i]) && made[i].Valid()
        invariant forall i :: 0 <= i < |made| ==> made[i].Repr == {made[i]} && made[i].Elems == {}
        invariant forall i, j :: 0 <= i < j < |made| ==> made[i] != made[j]
      {
        var s := new RollingSet.RollingBitset();
        made := made + [s];
      }
      sets, Keys := made, {};
      Repr := {this} + (set s | s in made :: s as object);
      new;
      assert forall i :: 0 <= i < |sets| ==> sets[i] in sets;
    }

    method Contains(k: Key) returns (found: bool)
      requires Valid() && k.originator < |sets|
      ensures found <==> k in Keys
    {
      found := sets[k.originator].Contains(k.seqNum);
    }

    method Insert(k: Key)
      requires Valid() && k.originator < |sets|
      modifies Repr
      ensures Valid() && Keys == old(Keys) + {k} && fresh(Repr - old(Repr))
    {
      ghost var o := k.originator;
      sets[k.originator].Insert(k.seqNum);
      forall i | 0 <= i < |sets| && i != o
        ensures sets[i].Valid() && sets[i].Repr == old(sets[i].Repr) && sets[i].Elems == old(sets[i].Elems)
      {
        assert old(sets[i].Repr) !! old(sets[o].Repr);
      }
      Keys := Keys + {k};
      Repr := Repr + sets[o].Repr;
    }
  }
}
