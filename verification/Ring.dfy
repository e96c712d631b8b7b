/** The topology of best-effort broadcast: every process sends to the `ceil(n/4)` processes on each
    side of it on a ring, instead of to everyone. */
module Ring {
  import opened FiniteSets

  /** `ceil(n/4)`, the number of neighbours on each side. */
  function PerSide(n: nat): nat {
    (n + 3) / 4
  }

  /** The i-th neighbour added: alternately on the right and on the left, moving outwards. */
  function Neighbor(id: nat, n: nat, i: nat): nat
    requires id < n && i < 2 * PerSide(n)
  {
    if i % 2 == 0 then (id + (i / 2 + 1)) % n else (id + n - (i / 2 + 1)) % n
  }

  /** The processes that `id` sends to, in sending order. */
  function Connections(id: nat, n: nat): (r: seq<nat>)
    requires id < n
    ensures forall i :: 0 <= i < |r| ==> r[i] < n
  {
    if n == 1 then []
    else if n == 2 then [1 - id]
    else seq(2 * PerSide(n), i requires 0 <= i < 2 * PerSide(n) => Neighbor(id, n, i))
  }

  predicate Adjacent(p: nat, q: nat, n: nat)
    requires p < n
  {
    q in Connections(p, n)
  }

  lemma SidesFit(n: nat)
    requires n >= 2
    ensures n <= 4 * PerSide(n)
    ensures n >= 3 ==> 2 * PerSide(n) < n
  {}

  /** The two neighbours at a given distance. */
  lemma NeighborsAt(id: nat, n: nat, offset: nat)
    requires id < n && 3 <= n && 1 <= offset <= PerSide(n)
    ensures |Connections(id, n)| == 2 * PerSide(n)
    ensures Connections(id, n)[2 * (offset - 1)] == (id + offset) % n
    ensures Connections(id, n)[2 * (offset - 1) + 1] == (id + n - offset) % n
  {
    var i := 2 * (offset - 1);
    assert i % 2 == 0 && i / 2 + 1 == offset && (i + 1) % 2 == 1 && (i + 1) / 2 + 1 == offset;
  }

  method CreateNConnectedRing(id: nat, n: nat) returns (connections: seq<nat>)
    requires id < n
    ensures connections == Connections(id, n)
  {
    if n == 1 {
      return [];
    }
    if n == 2 {
      return [1 - id];
    }
    SidesFit(n);
    connections := [];
    var neighborsPerSide := (n + 3) / 4;
    var offset := 1;
    while offset <= neighborsPerSide
      invariant 1 <= offset <= neighborsPerSide + 1
      invariant connections == Connections(id, n)[..2 * (offset - 1)]
    {
      var right := (id + offset) % n;
      var left := (id + n - offset) % n;
      NeighborsAt(id, n, offset);
      connections := connections + [right];
      connections := connections + [left];
      offset := offset + 1;
    }
  }

  /** `x` mod `n` when `x` is less than one turn away. */
  lemma Wrap(x: nat, n: nat)
    requires 0 < n
    requires x < 2 * n
    ensures x % n == if x < n then x else x - n
  {}

  /** At most `PerSide(n)` steps apart, one way round or the other. */
  predicate Close(p: nat, q: nat, n: nat) {
    var d := if p < q then q - p else p - q;
    p < n && q < n && 1 <= d && (d <= PerSide(n) || n - d <= PerSide(n))
  }

  /** The neighbours are exactly the processes at most `PerSide(n)` steps away. */
  lemma AdjacentIffClose(p: nat, q: nat, n: nat)
    requires p < n && 2 <= n
    ensures Adjacent(p, q, n) <==> Close(p, q, n)
  {
    SidesFit(n);
    if n > 2 {
      if Adjacent(p, q, n) {
        var i :| 0 <= i < 2 * PerSide(n) && Connections(p, n)[i] == q;
        Wrap(p + (i / 2 + 1), n);
        Wrap(p + n - (i / 2 + 1), n);
      }
      if Close(p, q, n) {
        AdjacentIfClose(p, q, n);
      }
    }
  }

  lemma AdjacentIfClose(p: nat, q: nat, n: nat)
    requires 3 <= n && Close(p, q, n)
    ensures Adjacent(p, q, n)
  {
    SidesFit(n);
    var right := if p < q then q - p else q + n - p;
    var left := n - right;
    if right <= PerSide(n) {
      Wrap(p + right, n);
      NeighborsAt(p, n, right);
    } else {
      Wrap(p + n - left, n);
      NeighborsAt(p, n, left);
    }
  }

  /** Links go both ways: whoever sends to `q` also hears from `q`. */
  lemma Symmetric(p: nat, q: nat, n: nat)
    requires p < n && q < n && 2 <= n
    ensures Adjacent(p, q, n) <==> Adjacent(q, p, n)
  {
    AdjacentIffClose(p, q, n);
    AdjacentIffClose(q, p, n);
  }

  /** The i-th neighbour without the division. */
  function Unwrapped(p: nat, n: nat, i: nat): int {
    var d := i / 2 + 1;
    if i % 2 == 0 then (if p + d < n then p + d else p + d - n) else if p < d then p + n - d else p - d
  }

  lemma NeighborUnwrapped(p: nat, n: nat, i: nat)
    requires p < n && 3 <= n && i < 2 * PerSide(n)
    ensures Neighbor(p, n, i) == Unwrapped(p, n, i)
  {
    SidesFit(n);
    Wrap(p + (i / 2 + 1), n);
    Wrap(p + n - (i / 2 + 1), n);
  }

  /** The list is a set of real other processes, and it is exactly as long as the code reserves. */
  lemma Degree(p: nat, n: nat)
    requires p < n
    ensures forall q :: q in Connections(p, n) ==> q < n && q != p
    ensures forall i, j :: 0 <= i < j < |Connections(p, n)| ==> Connections(p, n)[i] != Connections(p, n)[j]
    ensures |Connections(p, n)| == if n <= 2 then n - 1 else 2 * PerSide(n)
    ensures |Connections(p, n)| + 1 > n / 2
  {
    if n > 2 {
      SidesFit(n);
      forall i | 0 <= i < 2 * PerSide(n)
        ensures Connections(p, n)[i] == Unwrapped(p, n, i)
      {
        NeighborUnwrapped(p, n, i);
      }
    }
  }

  /** The neighbours as a set. */
  function Around(p: nat, n: nat): set<nat> {
    set a | a in Everyone(n) && Close(p, a, n)
  }

  /** Each closed neighbourhood is a majority: the quorum fits inside it. */
  lemma AroundSize(p: nat, n: nat)
    requires p < n && 2 <= n
    ensures |Around(p, n)| == if n == 2 then 1 else 2 * PerSide(n)
    ensures p !in Around(p, n) && |Around(p, n)| + 1 > n / 2
  {
    var list := Connections(p, n);
    Degree(p, n);
    ElementsSize(list);
    SameAsAround(p, n, list);
  }

  lemma SameAsAround(p: nat, n: nat, list: seq<nat>)
    requires p < n && 2 <= n && list == Connections(p, n)
    ensures Elements(list) == Around(p, n)
  {
    forall a: nat
      ensures a in Elements(list) <==> a in Around(p, n)
    {
      AdjacentIffClose(p, a, n);
    }
  }

  // ------------------------------------------------------------------------------------------
  // Survivability: removing a minority of the processes leaves the ring connected.
  // ------------------------------------------------------------------------------------------

  function Everyone(n: nat): set<nat> {
    Range(0, n)
  }

  /** No survivor outside `part` has a neighbour in it. */
  ghost predicate ClosedIn(part: set<nat>, survivors: set<nat>, n: nat)
    requires survivors <= Everyone(n)
  {
    && part <= survivors
    && forall p, q :: p in part && q in survivors && Adjacent(p, q, n) ==> q in part
  }

  ghost predicate ClosedRegion(part: set<nat>, survivors: set<nat>, n: nat) {
    && part <= survivors
    && forall p, q :: p in part && q in survivors && Close(p, q, n) ==> q in part
  }

  /** The process at position `x` when counting on past the end of the ring. */
  function At(x: nat, n: nat): nat {
    if x < n then x else x - n
  }

  /** The `len` processes after position `x`. */
  ghost function Block(x: nat, len: nat, n: nat): set<nat> {
    set q | q in Everyone(n) && (x < q <= x + len || x < q + n <= x + len)
  }

  lemma BlockSize(x: nat, len: nat, n: nat)
    requires len <= n && x + len < 2 * n
    ensures |Block(x, len, n)| == len
  {
    if x + len < n {
      SameMembers(Block(x, len, n), Range(x + 1, x + len + 1));
    } else if x >= n {
      SameMembers(Block(x, len, n), Range(x + 1 - n, x + len + 1 - n));
    } else {
      WrappedBlock(x, len, n);
      RangesSize(x + 1, n, x + len + 1 - n);
    }
  }

  /** A block across the end of the ring. */
  lemma WrappedBlock(x: nat, len: nat, n: nat)
    requires len <= n && x < n <= x + len
    ensures Block(x, len, n) == Range(x + 1, n) + Range(0, x + len + 1 - n)
  {
    var high, low := Range(x + 1, n), Range(0, x + len + 1 - n);
    forall q: nat
      ensures q in Block(x, len, n) <==> q in high + low
    {}
    SameMembers(Block(x, len, n), high + low);
  }

  lemma RangesSize(lo: nat, hi: nat, end: nat)
    requires end <= lo <= hi
    ensures |Range(lo, hi) + Range(0, end)| == hi - lo + end
  {
    assert Range(lo, hi) !! Range(0, end);
  }

  /** Between a member of a closed part and the next survivor outside it lie at least `PerSide(n)`
      consecutive removed processes. */
  lemma {:induction false} Gap(part: set<nat>, survivors: set<nat>, n: nat, lo: nat, hi: nat) returns (x: nat)
    requires 2 <= n && survivors <= Everyone(n) && ClosedRegion(part, survivors, n)
    requires lo < hi < 2 * n && hi < lo + n
    requires At(lo, n) in part && At(hi, n) in survivors - part
    ensures lo <= x && x + PerSide(n) < hi
    ensures Block(x, PerSide(n), n) !! survivors
    decreases hi - lo
  {
    if next: nat :| lo < next <= lo + PerSide(n) && next <= hi && At(next, n) in survivors {
      assert Close(At(lo, n), At(next, n), n);
      x := Gap(part, survivors, n, next, hi);
    } else {
      x := lo;
      assert hi > lo + PerSide(n);
      forall q | q in Block(x, PerSide(n), n)
        ensures q !in survivors
      {
        var next := if q <= x then q + n else q;
        assert At(next, n) == q;
      }
    }
  }

  lemma TwoBlocksSize(a: nat, x: nat, b: nat, y: nat, len: nat, n: nat)
    requires a < n && a <= x && x + len < b <= y && y + len < a + n
    ensures Block(x, len, n) !! Block(y, len, n)
    ensures |Block(x, len, n)| == |Block(y, len, n)| == len
    ensures |Block(x, len, n) + Block(y, len, n)| == 2 * len
  {
    BlockSize(x, len, n);
    BlockSize(y, len, n);
    assert Block(x, len, n) !! Block(y, len, n);
  }

  lemma OutsideIsClosed(part: set<nat>, survivors: set<nat>, n: nat)
    requires ClosedRegion(part, survivors, n)
    ensures ClosedRegion(survivors - part, survivors, n)
  {
    forall p, q | p in survivors - part && q in survivors && Close(p, q, n)
      ensures q in survivors - part
    {
      assert Close(q, p, n);
    }
  }

  lemma RemovedSize(removed: set<nat>, survivors: set<nat>, n: nat)
    requires survivors <= Everyone(n) && removed <= Everyone(n) && removed !! survivors
    ensures |removed| + |survivors| <= n
  {
    SubsetSize(removed + survivors, Everyone(n));
  }

  /** Every cut of the ring needs two disjoint runs of `ceil(n/4)` consecutive removed processes. */
  lemma CutSize(part: set<nat>, survivors: set<nat>, n: nat, a: nat, b: nat) returns (x: nat, y: nat)
    requires 2 <= n && survivors <= Everyone(n)
    requires ClosedRegion(part, survivors, n) && a in part && b in survivors - part
    ensures Block(x, PerSide(n), n) !! survivors && Block(y, PerSide(n), n) !! survivors
    ensures Block(x, PerSide(n), n) !! Block(y, PerSide(n), n)
    ensures |Block(x, PerSide(n), n)| == |Block(y, PerSide(n), n)| == PerSide(n)
    ensures n - |survivors| >= 2 * PerSide(n)
  {
    var b' := if a < b then b else b + n;
    x, y := TwoGaps(part, survivors, n, a, b');
    TwoBlocksSize(a, x, b', y, PerSide(n), n);
    RemovedSize(Block(x, PerSide(n), n) + Block(y, PerSide(n), n), survivors, n);
  }

  /** One gap on the way from the part to the rest, and one on the way back. */
  lemma TwoGaps(part: set<nat>, survivors: set<nat>, n: nat, a: nat, b: nat) returns (x: nat, y: nat)
    requires 2 <= n && survivors <= Everyone(n) && ClosedRegion(part, survivors, n)
    requires a < n && a < b < a + n && a in part && At(b, n) in survivors - part
    ensures a <= x && x + PerSide(n) < b <= y && y + PerSide(n) < a + n
    ensures Block(x, PerSide(n), n) !! survivors && Block(y, PerSide(n), n) !! survivors
  {
    OutsideIsClosed(part, survivors, n);
    var rest := survivors - part;
    assert survivors - rest == part;
    x := Gap(part, survivors, n, a, b);
    y := Gap(rest, survivors, n, b, a + n);
  }

  lemma MinorityIsNoCut(n: nat, left: nat)
    requires 2 <= n && 2 * (n - left) < n
    ensures n - left < 2 * PerSide(n)
  {
    SidesFit(n);
  }

  /** While fewer than `2 * ceil(n/4)` are removed, a nonempty closed part holds all survivors. */
  lemma NoCut(part: set<nat>, survivors: set<nat>, n: nat)
    requires 2 <= n && survivors <= Everyone(n)
    requires n - |survivors| < 2 * PerSide(n)
    requires ClosedIn(part, survivors, n) && part != {}
    ensures part == survivors
  {
    forall p, q | p in part && q in survivors && Close(p, q, n)
      ensures q in part
    {
      AdjacentIffClose(p, q, n);
    }
    var a :| a in part;
    if b :| b in survivors && b !in part {
      var x, y := CutSize(part, survivors, n, a, b);
    }
  }

  /** A path through survivors only, every step between neighbours. */
  ghost predicate IsPath(path: seq<nat>, survivors: set<nat>, n: nat)
    requires survivors <= Everyone(n)
  {
    && path != []
    && (forall i :: 0 <= i < |path| ==> path[i] in survivors)
    && forall i :: 0 <= i < |path| - 1 ==> path[i] < n && Adjacent(path[i], path[i + 1], n)
  }

  ghost predicate Reaches(p: nat, q: nat, survivors: set<nat>, n: nat)
    requires survivors <= Everyone(n)
  {
    exists path :: IsPath(path, survivors, n) && path[0] == p && path[|path| - 1] == q
  }

  lemma Step(p: nat, r: nat, t: nat, survivors: set<nat>, n: nat)
    requires survivors <= Everyone(n) && Reaches(p, r, survivors, n)
    requires r < n && t in survivors && Adjacent(r, t, n)
    ensures Reaches(p, t, survivors, n)
  {
    var path :| IsPath(path, survivors, n) && path[0] == p && path[|path| - 1] == r;
    var longer := path + [t];
    forall i | 0 <= i < |longer| - 1
      ensures longer[i] < n && Adjacent(longer[i], longer[i + 1], n)
    {
      assert longer[i] == path[i];
      assert i + 1 < |path| ==> longer[i + 1] == path[i + 1];
    }
    assert IsPath(longer, survivors, n) && longer[0] == p && longer[|longer| - 1] == t;
  }

  /** Any two survivors are joined by a path of survivors while fewer than `2 * ceil(n/4)` processes are
      removed, in particular while a minority is. */
  lemma SurvivorsConnected(p: nat, q: nat, survivors: set<nat>, n: nat)
    requires 2 <= n && survivors <= Everyone(n)
    requires n - |survivors| < 2 * PerSide(n)
    requires p in survivors && q in survivors
    ensures Reaches(p, q, survivors, n)
  {
    var part := set r | r in survivors && Reaches(p, r, survivors, n);
    assert IsPath([p], survivors, n);
    assert p in part;
    forall r, t | r in part && t in survivors && Adjacent(r, t, n)
      ensures t in part
    {
      Step(p, r, t, survivors, n);
    }
    NoCut(part, survivors, n);
  }

  /** Removing `r` processes can leave survivors that fall into two parts without a link between them. */
  ghost predicate CanBeCut(n: nat, r: nat) {
    exists part, survivors :: IsCut(part, survivors, n, r)
  }

  ghost predicate IsCut(part: set<nat>, survivors: set<nat>, n: nat, r: nat) {
    && survivors <= Everyone(n) && n - |survivors| == r
    && ClosedIn(part, survivors, n) && part != {} && part != survivors
  }

  lemma CloseIsAdjacent(part: set<nat>, survivors: set<nat>, n: nat)
    requires 2 <= n && survivors <= Everyone(n) && part <= survivors
    ensures ClosedIn(part, survivors, n) <==> ClosedRegion(part, survivors, n)
  {
    forall p, q | p in part && q in survivors
      ensures Adjacent(p, q, n) <==> Close(p, q, n)
    {
      AdjacentIffClose(p, q, n);
    }
  }

  /** Process 0 and a run of others, `ceil(n/4)` removed on one side and the rest on the other. */
  lemma CutOff(n: nat, r: nat)
    requires 2 <= n && 2 * PerSide(n) <= r && r + 2 <= n
    ensures CanBeCut(n, r)
  {
    var m := PerSide(n);
    var part, others := Range(0, 1), Range(m + 1, n - r + m);
    var survivors := part + others;
    assert part !! others;
    assert 0 in part && m + 1 in others;
    forall q | q in others
      ensures !Close(0, q, n)
    {}
    assert ClosedRegion(part, survivors, n);
    CloseIsAdjacent(part, survivors, n);
    assert IsCut(part, survivors, n, r);
  }

  /** Exactly when removing `r` of `n` processes can disconnect the ring. */
  lemma CutIff(n: nat, r: nat)
    requires 2 <= n
    ensures CanBeCut(n, r) <==> 2 * PerSide(n) <= r && r + 2 <= n
  {
    if CanBeCut(n, r) {
      var part, survivors :| IsCut(part, survivors, n, r);
      CutNeeds(part, survivors, n, r);
    }
    if 2 * PerSide(n) <= r && r + 2 <= n {
      CutOff(n, r);
    }
  }

  lemma CutNeeds(part: set<nat>, survivors: set<nat>, n: nat, r: nat)
    requires 2 <= n && IsCut(part, survivors, n, r)
    ensures 2 * PerSide(n) <= r && r + 2 <= n
  {
    CloseIsAdjacent(part, survivors, n);
    var a :| a in part;
    var b :| b in survivors && b !in part;
    var x, y := CutSize(part, survivors, n, a, b);
    SubsetSize({a, b}, survivors);
  }

  /** Half of the processes can disconnect the ring exactly when their number is a multiple of four. */
  lemma HalfCuts(m: nat)
    requires 1 <= m
    ensures CanBeCut(2 * m, m) <==> m % 2 == 0
  {
    CutIff(2 * m, m);
  }
}
