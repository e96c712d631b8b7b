/** A set of numbers that mostly arrive in order. Fixed-size bitmaps cover a window that starts at
    `offset`; once the first bitmap is full it is dropped, and every number before the window counts
    as present. */
module RollingSet {
  import FiniteSets

  newtype uint16 = x: int | 0 <= x < 0x1_0000

  const CHUNK_SIZE: nat := 512

  /** All numbers of chunk `k` are there. */
  ghost predicate ChunkFull(k: nat, elems: set<nat>) {
    forall x: nat :: x / CHUNK_SIZE == k ==> x in elems
  }

  /** Where the window starts after `x` was inserted: one chunk further exactly when `x` fell into the first
      chunk and that chunk is full. */
  ghost function Moved(offset: nat, elems: set<nat>, x: nat): nat {
    if x / CHUNK_SIZE == offset && ChunkFull(offset, elems + {x}) then offset + 1 else offset
  }

  class Chunk {
    const bits: array<bool>
    var count: uint16

    ghost function Ones(): set<nat>
      reads this, bits
    {
      set i: nat | i < bits.Length && bits[i]
    }

    ghost predicate Valid()
      reads this, bits
    {
      bits.Length == CHUNK_SIZE && count as nat == |Ones()|
    }

    constructor ()
      ensures Valid() && fresh(bits)
      ensures forall i :: 0 <= i < CHUNK_SIZE ==> !bits[i]
    {
      bits := new bool[CHUNK_SIZE](_ => false);
      count := 0;
      new;
      assert Ones() == {};
    }

    method Set(idx: nat)
      requires Valid() && idx < CHUNK_SIZE
      modifies this`count, bits
      ensures Valid() && Ones() == old(Ones()) + {idx}
    {
      ghost var before := Ones();
      Bounded();
      if !bits[idx] {
        OneMore(idx);
        count := count + 1;
      }
      bits[idx] := true;
      assert Ones() == before + {idx};
    }

    predicate Test(idx: nat)
      requires idx < bits.Length
      reads bits
    {
      bits[idx]
    }

    /** The 16-bit counter cannot overflow. */
    lemma Bounded()
      requires Valid()
      ensures count as nat <= CHUNK_SIZE
    {
      FiniteSets.SubsetSize(Ones(), FiniteSets.Range(0, bits.Length));
    }

    lemma OneMore(idx: nat)
      requires Valid() && idx < CHUNK_SIZE && !bits[idx]
      ensures count as nat < CHUNK_SIZE
    {
      FiniteSets.MissingMember(Ones(), bits.Length, idx);
    }

    /** The counter reaches the chunk size exactly when no bit is missing. */
    lemma FullIffAllSet()
      requires Valid()
      ensures count == 512 <==> forall i: nat :: i < 512 ==> bits[i]
    {
      var all := FiniteSets.Range(0, bits.Length);
      if forall i: nat :: i < CHUNK_SIZE ==> bits[i] {
        forall i: nat
          ensures i in Ones() <==> i in all
        {}
        assert Ones() == all;
      } else {
        var i: nat :| i < CHUNK_SIZE && !bits[i];
        OneMore(i);
      }
    }
  }

  class RollingBitset {
    var offset: nat
    var chunks: seq<Chunk>
    /** Every number inserted so far. */
    ghost var Elems: set<nat>
    ghost var Repr: set<object>

    ghost predicate Separate()
      reads this
    {
      forall i, j :: 0 <= i < j < |chunks| ==> chunks[i] != chunks[j] && chunks[i].bits != chunks[j].bits
    }

    ghost predicate Valid()
      reads this, Repr
      ensures Valid() ==> this in Repr
    {
      && this in Repr
      && (forall i :: 0 <= i < |chunks| ==> chunks[i] in Repr && chunks[i].bits in Repr)
      && Separate()
      && (forall i :: 0 <= i < |chunks| ==> chunks[i].Valid())
      && forall x :: x in Elems <==> Holds(x)
    }

    /** Membership as the representation has it: passed by the window, or a set bit inside it. */
    ghost predicate Holds(x: nat)
      requires forall i :: 0 <= i < |chunks| ==> chunks[i] in Repr && chunks[i].bits in Repr
      requires forall i :: 0 <= i < |chunks| ==> chunks[i].bits.Length == CHUNK_SIZE
      reads this, Repr
    {
      || x / CHUNK_SIZE < offset
      || (x / CHUNK_SIZE - offset < |chunks| && chunks[x / CHUNK_SIZE - offset].bits[x % CHUNK_SIZE])
    }

    constructor ()
      ensures Valid() && Elems == {} && Repr == {this}
    {
      offset, chunks, Elems, Repr := 0, [], {}, {this};
    }

    predicate HasPassed(elem: nat)
      reads this
    {
      elem / CHUNK_SIZE < offset
    }

    /** The subtraction is unsigned; it is only reached for numbers the window has not passed. */
    function ChunkIndex(elem: nat): nat
      requires !HasPassed(elem)
      reads this
    {
      elem / CHUNK_SIZE - offset
    }

    method Contains(elem: nat) returns (found: bool)
      requires Valid()
      ensures found <==> elem in Elems
    {
      if HasPassed(elem) {
        return true;
      }
      var chunkIdx := ChunkIndex(elem);
      if chunkIdx >= |chunks| {
        return false;
      }
      found := chunks[chunkIdx].Test(elem % CHUNK_SIZE);
    }

    method AddChunk()
      requires Valid()
      modifies this`chunks, this`Repr
      ensures Valid() && |chunks| == |old(chunks)| + 1 && old(chunks) <= chunks
      ensures fresh(Repr - old(Repr)) && old(Repr) <= Repr
    {
      var c := new Chunk();
      chunks := chunks + [c];
      Repr := Repr + {c, c.bits};
    }

    method Grow(size: nat)
      requires Valid()
      modifies this`chunks, this`Repr
      ensures Valid() && |chunks| == (if size > |old(chunks)| then size else |old(chunks)|) && old(chunks) <= chunks
      ensures fresh(Repr - old(Repr)) && old(Repr) <= Repr
    {
      while size > |chunks|
        invariant Valid() && old(chunks) <= chunks && (chunks == old(chunks) || |chunks| <= size)
        invariant fresh(Repr - old(Repr)) && old(Repr) <= Repr
      {
        AddChunk();
      }
    }

    /** Drops the first chunk. This keeps the set only because the chunk is full. */
    method RotateChunks()
      requires Valid() && chunks != [] && chunks[0].count as nat == CHUNK_SIZE
      modifies this`chunks, this`offset
      ensures Valid() && offset == old(offset) + 1 && chunks == old(chunks)[1..]
    {
      chunks[0].FullIffAllSet();
      ghost var first := chunks[0];
      ghost var was := offset;
      chunks := chunks[1..];
      offset := offset + 1;
      forall x: nat
        ensures x in Elems <==> Holds(x)
      {
        if x / CHUNK_SIZE == was {
          assert first.bits[x % CHUNK_SIZE];
        }
      }
    }

    /** Insertion is set insertion, across growth of the window and rotation. */
    method Insert(elem: nat)
      requires Valid()
      modifies Repr
      ensures Valid() && Elems == old(Elems) + {elem}
      ensures fresh(Repr - old(Repr)) && old(Repr) <= Repr
      ensures offset == Moved(old(offset), old(Elems), elem)
      ensures offset + |chunks| == if elem / CHUNK_SIZE < old(offset) + |old(chunks)| then old(offset) + |old(chunks)|
                                   else elem / CHUNK_SIZE + 1
    {
      if HasPassed(elem) {
        assert Holds(elem);
        return;
      }
      var chunkIdx := ChunkIndex(elem);
      Grow(chunkIdx + 1);
      SetBit(chunkIdx, elem);
      if chunkIdx == 0 {
        FirstChunkFull();
        if chunks[chunkIdx].count as nat == CHUNK_SIZE {
          RotateChunks();
        }
      }
    }

    /** The counter of the first chunk tells whether all its numbers are there. */
    lemma FirstChunkFull()
      requires Valid() && chunks != []
      ensures chunks[0].count as nat == CHUNK_SIZE <==> ChunkFull(offset, Elems)
    {
      chunks[0].FullIffAllSet();
      forall x: nat | x / CHUNK_SIZE == offset
        ensures x in Elems <==> chunks[0].bits[x % CHUNK_SIZE]
      {
        assert x in Elems <==> Holds(x);
      }
      forall i: nat | i < CHUNK_SIZE && !chunks[0].bits[i]
        ensures !ChunkFull(offset, Elems)
      {
        assert (offset * CHUNK_SIZE + i) / CHUNK_SIZE == offset && (offset * CHUNK_SIZE + i) % CHUNK_SIZE == i;
      }
    }

    method SetBit(chunkIdx: nat, elem: nat)
      requires Valid() && !HasPassed(elem) && chunkIdx == ChunkIndex(elem) < |chunks|
      modifies this`Elems, chunks[chunkIdx], chunks[chunkIdx].bits
      ensures Valid() && Elems == old(Elems) + {elem}
    {
      SetInChunk(chunkIdx, elem % CHUNK_SIZE);
      Elems := Elems + {elem};
      forall x: nat
        ensures x in Elems <==> Holds(x)
      {
        SamePlace(x, elem);
        assert x in old(Elems) <==> old(Holds(x));
      }
    }

    method SetInChunk(chunkIdx: nat, bitIdx: nat)
      requires Valid() && chunkIdx < |chunks| && bitIdx < CHUNK_SIZE
      modifies chunks[chunkIdx], chunks[chunkIdx].bits
      ensures forall i :: 0 <= i < |chunks| ==> chunks[i].Valid()
      ensures forall i, j: nat :: 0 <= i < |chunks| && j < CHUNK_SIZE ==>
                (chunks[i].bits[j] <==> old(chunks[i].bits[j]) || (i == chunkIdx && j == bitIdx))
    {
      ghost var before := chunks[chunkIdx].Ones();
      chunks[chunkIdx].Set(bitIdx);
      forall i | 0 <= i < |chunks| && i != chunkIdx
        ensures chunks[i].Valid() && chunks[i].bits[..] == old(chunks[i].bits[..])
      {
        assert chunks[i].bits != chunks[chunkIdx].bits;
      }
      forall j: nat | j < CHUNK_SIZE
        ensures chunks[chunkIdx].bits[j] <==> old(chunks[chunkIdx].bits[j]) || j == bitIdx
      {
        assert j in chunks[chunkIdx].Ones() <==> j in before || j == bitIdx;
      }
    }

    static lemma SamePlace(x: nat, y: nat)
      ensures x / CHUNK_SIZE == y / CHUNK_SIZE && x % CHUNK_SIZE == y % CHUNK_SIZE ==> x == y
    {}

    /** Everything behind the window was inserted: a chunk is dropped only when it is full. */
    lemma PassedAllInserted()
      requires Valid()
      ensures forall x: nat :: x / CHUNK_SIZE < offset ==> x in Elems
    {
      forall x: nat | x / CHUNK_SIZE < offset
        ensures x in Elems
      {
        assert Holds(x);
      }
    }
  }

  // ------------------------------------------------------------------------------------------
  // The window over a run of insertions
  // ------------------------------------------------------------------------------------------

  /** Where the window starts after these insertions into an empty set. */
  ghost function WindowAfter(inserted: seq<nat>): nat {
    if inserted == [] then 0
    else
      var front := inserted[..|inserted| - 1];
      Moved(WindowAfter(front), FiniteSets.Elements(front), inserted[|inserted| - 1])
  }

  /** No number is inserted twice: the link inserts a number only after it was not found. */
  ghost predicate AllNew(inserted: seq<nat>) {
    forall i, j :: 0 <= i < j < |inserted| ==> inserted[i] != inserted[j]
  }

  ghost predicate FullAfter(inserted: seq<nat>, i: nat, k: nat)
    requires i <= |inserted|
  {
    ChunkFull(k, FiniteSets.Elements(inserted[..i]))
  }

  lemma WindowStep(inserted: seq<nat>, j: nat)
    requires j < |inserted| && AllNew(inserted)
    ensures var x, k := inserted[j], WindowAfter(inserted[..j]);
      && WindowAfter(inserted[..j + 1]) == (if x / CHUNK_SIZE == k && FullAfter(inserted, j + 1, k) then k + 1 else k)
      && (x / CHUNK_SIZE == k ==> !FullAfter(inserted, j, k))
      && (x / CHUNK_SIZE != k ==> (FullAfter(inserted, j + 1, k) <==> FullAfter(inserted, j, k)))
  {
    var before, after := inserted[..j], inserted[..j + 1];
    assert after[..j] == before && after == before + [inserted[j]];
    assert FiniteSets.Elements(after) == FiniteSets.Elements(before) + {inserted[j]};
    assert inserted[j] !in FiniteSets.Elements(before);
  }

  /** Main result: once the window has come to a chunk, it leaves it exactly when the chunk is filled after
      that. A chunk that is full when the window comes to it is never left. */
  lemma {:induction false} WindowLeavesIff(inserted: seq<nat>, i: nat, j: nat, k: nat)
    requires AllNew(inserted) && i <= j <= |inserted| && WindowAfter(inserted[..i]) == k
    ensures WindowAfter(inserted[..j]) >= k
    ensures WindowAfter(inserted[..j]) > k <==> !FullAfter(inserted, i, k) && FullAfter(inserted, j, k)
    decreases j
  {
    if i < j {
      WindowLeavesIff(inserted, i, j - 1, k);
      if WindowAfter(inserted[..j - 1]) == k {
        StepFrom(inserted, i, j - 1, k);
      } else {
        StepBeyond(inserted, j - 1, k);
      }
    }
  }

  lemma StepBeyond(inserted: seq<nat>, j: nat, k: nat)
    requires AllNew(inserted) && j < |inserted| && WindowAfter(inserted[..j]) > k && FullAfter(inserted, j, k)
    ensures WindowAfter(inserted[..j + 1]) > k && FullAfter(inserted, j + 1, k)
  {
    WindowStep(inserted, j);
    FullStays(inserted, j, j + 1, k);
  }

  /** The window is still at chunk `k`, so that chunk was not filled since time `i`. */
  lemma StepFrom(inserted: seq<nat>, i: nat, j: nat, k: nat)
    requires AllNew(inserted) && i <= j < |inserted| && WindowAfter(inserted[..j]) == k
    requires FullAfter(inserted, i, k) || !FullAfter(inserted, j, k)
    ensures WindowAfter(inserted[..j + 1]) >= k
    ensures WindowAfter(inserted[..j + 1]) > k <==> !FullAfter(inserted, i, k) && FullAfter(inserted, j + 1, k)
  {
    WindowStep(inserted, j);
    FullStays(inserted, i, j, k);
  }

  lemma FullStays(inserted: seq<nat>, i: nat, j: nat, k: nat)
    requires i <= j <= |inserted|
    ensures FullAfter(inserted, i, k) ==> FullAfter(inserted, j, k)
  {
    assert inserted[..j][..i] == inserted[..i];
    assert FiniteSets.Elements(inserted[..i]) <= FiniteSets.Elements(inserted[..j]);
  }

  /** The window has passed full chunks only. */
  lemma {:induction false} PassedIsFull(inserted: seq<nat>, j: nat, k: nat)
    requires AllNew(inserted) && j <= |inserted| && k < WindowAfter(inserted[..j])
    ensures FullAfter(inserted, j, k)
  {
    if j > 0 {
      WindowStep(inserted, j - 1);
      if k < WindowAfter(inserted[..j - 1]) {
        PassedIsFull(inserted, j - 1, k);
        FullStays(inserted, j - 1, j, k);
      }
    }
  }

  /** Main result: a chunk that was full before the one in front of it is where the window stops for ever. */
  lemma {:induction false} OvertakenStops(inserted: seq<nat>, i: nat, j: nat, k: nat)
    requires AllNew(inserted) && i <= j <= |inserted|
    requires FullAfter(inserted, i, k + 1) && !FullAfter(inserted, i, k)
    ensures WindowAfter(inserted[..j]) <= k + 1
    decreases j
  {
    if i == j {
      if k < WindowAfter(inserted[..j]) {
        PassedIsFull(inserted, j, k);
      }
    } else {
      OvertakenStops(inserted, i, j - 1, k);
      WindowStep(inserted, j - 1);
      FullStays(inserted, i, j - 1, k + 1);
    }
  }

  /** The numbers from `lo` on, as many as fill a chunk. */
  function Ascending(lo: nat): (r: seq<nat>)
    ensures |r| == CHUNK_SIZE && forall i :: 0 <= i < CHUNK_SIZE ==> r[i] == lo + i
  {
    seq(CHUNK_SIZE, i requires 0 <= i => lo + i)
  }

  /** It does happen: the second chunk arrives before the first. Whatever new numbers follow, the window
      stops behind the first chunk. */
  lemma WindowStops(more: seq<nat>)
    requires AllNew(Ascending(CHUNK_SIZE) + Ascending(0) + more)
    ensures WindowAfter(Ascending(CHUNK_SIZE) + Ascending(0) + more) == 1
  {
    var inserted := Ascending(CHUNK_SIZE) + Ascending(0) + more;
    assert inserted[..CHUNK_SIZE] == Ascending(CHUNK_SIZE);
    assert inserted[..2 * CHUNK_SIZE] == Ascending(CHUNK_SIZE) + Ascending(0);
    assert inserted[..|inserted|] == inserted && inserted[..0] == [];
    forall x: nat | x / CHUNK_SIZE == 1
      ensures x in inserted[..CHUNK_SIZE]
    {
      assert Ascending(CHUNK_SIZE)[x - CHUNK_SIZE] == x;
    }
    assert !FullAfter(inserted, CHUNK_SIZE, 0) by {
      assert 0 !in FiniteSets.Elements(inserted[..CHUNK_SIZE]) && 0 / CHUNK_SIZE == 0;
    }
    forall x: nat | x / CHUNK_SIZE == 0
      ensures x in inserted[..2 * CHUNK_SIZE]
    {
      assert Ascending(0)[x] == x && (Ascending(CHUNK_SIZE) + Ascending(0))[CHUNK_SIZE + x] == x;
    }
    assert !FullAfter(inserted, 0, 0) by {
      assert 0 !in FiniteSets.Elements(inserted[..0]) && 0 / CHUNK_SIZE == 0;
    }
    FullStays(inserted, 2 * CHUNK_SIZE, |inserted|, 0);
    WindowLeavesIff(inserted, 0, |inserted|, 0);
    OvertakenStops(inserted, CHUNK_SIZE, |inserted|, 0);
  }
}
