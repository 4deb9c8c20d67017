/**
 * Identity generators for particles: a pool of released identities on top of
 * a monotonic counter, and a generator that derives an identity from a cell of
 * a four-dimensional (longitude, latitude, depth, time) grid.
 */
module IdGenerators {
  import opened Wrappers

  // ---------------------------------------------------------------------------
  // Pool-based generator: the abstract state and its operations
  // ---------------------------------------------------------------------------

  /** The state of an `IdGenerator`: the released identities (the last one is
      the next to be reused) and the counter of never-issued identities. */
  datatype Pool = Pool(released: seq<int>, next: int)

  /** A freshly constructed generator. */
  function Fresh(): Pool {
    Pool([], 0)
  }

  /** `nextID`: reuse the most recently released identity, or issue the counter. */
  function Next(p: Pool): (Pool, int) {
    if |p.released| == 0 then (Pool([], p.next + 1), p.next)
    else (Pool(p.released[..|p.released| - 1], p.next), p.released[|p.released| - 1])
  }

  /** `releaseID`: push an identity back for reuse. */
  function Release(p: Pool, id: int): Pool {
    Pool(p.released + [id], p.next)
  }

  /** `0, 1, ..., n - 1`, which is Python's `range(0, n)` (empty when `n <= 0`). */
  function Range(n: int): (r: seq<int>)
    ensures |r| == if n <= 0 then 0 else n
    ensures forall i :: 0 <= i < |r| ==> r[i] == i
  {
    if n <= 0 then [] else Range(n - 1) + [n - 1]
  }

  /** `preGenerateIDs`: the pool becomes `range(0, n)` and the counter `n`. */
  function PreGenerate(n: int): Pool {
    Pool(Range(n), n)
  }

  /** One step of `permuteIDs`: `pop(i)` followed by `append` of the popped id. */
  function PopAppend(s: seq<int>, i: nat): (r: seq<int>)
    requires i < |s|
  {
    s[..i] + s[i + 1..] + [s[i]]
  }

  /** Every index lies inside a list of length `n`. */
  predicate IndicesBelow(indices: seq<int>, n: nat) {
    forall k :: 0 <= k < |indices| ==> 0 <= indices[k] < n
  }

  /** `permuteIDs` with its random draws given as `indices`: one pop/append
      cycle per index, in order. The pool keeps its length and its elements. */
  function Permute(s: seq<int>, indices: seq<int>): (r: seq<int>)
    requires IndicesBelow(indices, |s|)
    ensures |r| == |s|
    ensures multiset(r) == multiset(s)
  {
    if |indices| == 0 then s
    else
      var prev := Permute(s, indices[..|indices| - 1]);
      var i := indices[|indices| - 1];
      PopAppendKeeps(prev, i);
      PopAppend(prev, i)
  }

  /** One pop/append cycle keeps the length and the elements. */
  lemma PopAppendKeeps(s: seq<int>, i: nat)
    requires i < |s|
    ensures |PopAppend(s, i)| == |s|
    ensures multiset(PopAppend(s, i)) == multiset(s)
  {
    assert s == s[..i] + [s[i]] + s[i + 1..];
  }

  /** The identities returned by `k` successive `nextID` calls, and the state after. */
  function Drain(p: Pool, k: nat): (Pool, seq<int>)
    decreases k
  {
    if k == 0 then (p, [])
    else
      var (p1, id) := Next(p);
      var (p2, ids) := Drain(p1, k - 1);
      (p2, [id] + ids)
  }

  /** The elements of `s` from last to first. */
  function Reverse(s: seq<int>): (r: seq<int>)
    ensures |r| == |s|
  {
    if |s| == 0 then [] else [s[|s| - 1]] + Reverse(s[..|s| - 1])
  }

  // ---------------------------------------------------------------------------
  // Properties of the pool
  // ---------------------------------------------------------------------------

  /** `nextID` on an empty pool returns the counter and raises it by one; on a
      non-empty pool it removes and returns the last element and keeps the counter. */
  lemma NextSpec(p: Pool)
    ensures |p.released| == 0 ==> Next(p) == (Pool([], p.next + 1), p.next)
    ensures |p.released| > 0 ==>
      Next(p).1 == p.released[|p.released| - 1] &&
      Next(p).0.released + [Next(p).1] == p.released &&
      Next(p).0.next == p.next
  {
  }

  /** The pool is LIFO: an identity released just before `nextID` comes straight back. */
  lemma ReleaseThenNext(p: Pool, id: int)
    ensures Next(Release(p, id)) == (p, id)
  {
    assert (p.released + [id])[..|p.released|] == p.released;
  }

  /** Draining a pool of `n` released identities returns them last-released first
      and leaves the counter untouched. */
  lemma {:induction false} DrainReleased(p: Pool)
    ensures Drain(p, |p.released|) == (Pool([], p.next), Reverse(p.released))
    decreases |p.released|
  {
    if |p.released| > 0 {
      var p1 := Pool(p.released[..|p.released| - 1], p.next);
      assert Next(p) == (p1, p.released[|p.released| - 1]);
      DrainReleased(p1);
    }
  }

  /** From a fresh generator, `k` calls of `nextID` issue `0, ..., k - 1`
      and leave `k` as the counter (the value of `__len__`). */
  lemma {:induction false} DrainFresh(k: nat)
    ensures Drain(Fresh(), k) == (Pool([], k), Range(k))
  {
    DrainCounter(0, k);
    assert Drain(Fresh(), k).1 == Range(k);
  }

  /** With no released identities, `k` calls issue `c, ..., c + k - 1`. */
  lemma {:induction false} DrainCounter(c: int, k: nat)
    ensures Drain(Pool([], c), k).0 == Pool([], c + k)
    ensures |Drain(Pool([], c), k).1| == k
    ensures forall i :: 0 <= i < k ==> Drain(Pool([], c), k).1[i] == c + i
    decreases k
  {
    if k > 0 {
      DrainCounter(c + 1, k - 1);
    }
  }

  /** Reversing `range(0, n)` gives `n - 1, ..., 0`. */
  lemma {:induction false} ReverseRange(n: nat)
    ensures forall i :: 0 <= i < n ==> Reverse(Range(n))[i] == n - 1 - i
  {
    if n > 0 {
      ReverseRange(n - 1);
      assert Range(n)[..n - 1] == Range(n - 1);
    }
  }

  /** After `preGenerateIDs(n)`, the next `n` calls of `nextID` return
      `n - 1, ..., 0` and the call after them returns `n`. */
  lemma PreGenerateOrder(n: nat)
    ensures var ids := Drain(PreGenerate(n), n + 1).1;
      |ids| == n + 1 &&
      (forall i :: 0 <= i < n ==> ids[i] == n - 1 - i) &&
      ids[n] == n
  {
    var p := PreGenerate(n);
    DrainReleased(p);
    ReverseRange(n);
    DrainSplit(p, n, 1);
  }

  /** Draining `j + k` identities is draining `j` and then `k` more. */
  lemma {:induction false} DrainSplit(p: Pool, j: nat, k: nat)
    ensures Drain(p, j + k).0 == Drain(Drain(p, j).0, k).0
    ensures Drain(p, j + k).1 == Drain(p, j).1 + Drain(Drain(p, j).0, k).1
    decreases j
  {
    if j > 0 {
      DrainSplit(Next(p).0, j - 1, k);
    }
  }

  /** Reversal keeps the multiset of elements. */
  lemma {:induction false} ReversePreservesElements(s: seq<int>)
    ensures multiset(Reverse(s)) == multiset(s)
  {
    if |s| > 0 {
      var init, last := s[..|s| - 1], s[|s| - 1];
      ReversePreservesElements(init);
      assert Reverse(s) == [last] + Reverse(init);
      assert s == init + [last];
      assert multiset(s) == multiset(init) + multiset{last};
    }
  }

  /** After `preGenerateIDs(n)` and a shuffle with any draws, the next `n`
      calls of `nextID` return each of `0, ..., n - 1` exactly once. */
  lemma ShuffledPoolIssuesEachOnce(n: nat, indices: seq<int>)
    requires IndicesBelow(indices, n)
    ensures var ids := Drain(Pool(Permute(Range(n), indices), n), n).1;
      |ids| == n &&
      forall i :: 0 <= i < n ==> multiset(ids)[i] == 1
  {
    var s := Permute(Range(n), indices);
    DrainReleased(Pool(s, n));
    ReversePreservesElements(s);
    forall i | 0 <= i < n
      ensures multiset(Range(n))[i] == 1
    {
      RangeCount(n, i);
    }
  }

  /** Each of `0, ..., n - 1` occurs once in `range(0, n)`. */
  lemma {:induction false} RangeCount(n: nat, i: int)
    requires 0 <= i < n
    ensures multiset(Range(n))[i] == 1
  {
    var prefix := Range(n - 1);
    assert Range(n) == prefix + [n - 1];
    assert multiset(Range(n)) == multiset(prefix) + multiset{n - 1};
    if i < n - 1 {
      RangeCount(n - 1, i);
    } else {
      assert forall j :: 0 <= j < |prefix| ==> prefix[j] != n - 1;
      assert n - 1 !in prefix;
      assert multiset(prefix)[n - 1] == 0;
    }
  }

  // ---------------------------------------------------------------------------
  // The pool-based generator as a mutable object
  // ---------------------------------------------------------------------------

  /** Issues particle identities; released ones are reused last-in first-out. */
  class IdGenerator {
    var releasedIds: seq<int>
    var nextId: int

    /** The generator's abstract state. */
    function State(): Pool
      reads this
    {
      Pool(releasedIds, nextId)
    }

    constructor ()
      ensures State() == Fresh()
    {
      releasedIds := [];
      nextId := 0;
    }

    method NextID() returns (id: int)
      modifies this
      ensures (State(), id) == Next(old(State()))
    {
      var n := |releasedIds|;
      if n == 0 {
        id := nextId;
        nextId := nextId + 1;
      } else {
        id := releasedIds[n - 1];
        releasedIds := releasedIds[..n - 1];
      }
    }

    method ReleaseID(id: int)
      modifies this
      ensures State() == Release(old(State()), id)
    {
      releasedIds := releasedIds + [id];
    }

    method PreGenerateIDs(highValue: int)
      modifies this
      ensures State() == PreGenerate(highValue)
    {
      if |releasedIds| > 0 {
        releasedIds := [];
      }
      releasedIds := Range(highValue);
      nextId := highValue;
    }

    /** `permuteIDs`, with the random indices (each in `[0, n)` for a pool of
        size `n`) passed in. */
    method PermuteIDs(indices: seq<int>)
      requires IndicesBelow(indices, |releasedIds|)
      modifies this
      ensures State() == Pool(Permute(old(releasedIds), indices), old(nextId))
    {
      ghost var pool := releasedIds;
      var k := 0;
      while k < |indices|
        invariant 0 <= k <= |indices|
        invariant releasedIds == Permute(pool, indices[..k])
        invariant nextId == old(nextId)
      {
        ghost var prev := releasedIds;
        assert indices[..k + 1][..k] == indices[..k];
        var index := indices[k];
        var id := releasedIds[index];
        releasedIds := releasedIds[..index] + releasedIds[index + 1..];
        releasedIds := releasedIds + [id];
        assert releasedIds == PopAppend(prev, index);
        k := k + 1;
      }
      assert indices[..k] == indices;
    }

    /** `__len__`: the number of identities the counter has issued. */
    method Length() returns (n: int)
      ensures n == State().next
    {
      n := nextId;
    }
  }

  // ---------------------------------------------------------------------------
  // Coordinate-based generator
  // ---------------------------------------------------------------------------

  /** Dimensions of the counting grid: longitude, latitude, depth and time buckets. */
  const LonCells: bv32 := 360
  const LatCells: bv32 := 180
  const DepthCells: bv32 := 128
  const TimeCells: bv32 := 256

  /** A cell of the grid, as array indices. */
  datatype Cell = Cell(lon: bv32, lat: bv32, depth: bv32, time: bv32)

  /** The per-cell `int32` counters, kept as their 32 bits (so `+ 1` wraps as
      NumPy's does); a cell absent from the map holds 0. */
  type Grid = map<Cell, bv32>

  /** A 64-bit identity, kept as its upper and lower 32-bit halves. */
  datatype Word64 = Word64(high: bv32, low: bv32)

  datatype GridError = IndexOutOfBounds

  /** Whether an `int32` (as its bits) is a valid NumPy index on an axis of
      length `dim`, that is, lies in `[-dim, dim)`. */
  predicate OnAxis(i: bv32, dim: bv32) {
    i < dim || i >= 0 - dim
  }

  /** NumPy indexing along one axis: a negative index counts from the end. */
  function AxisIndex(i: bv32, dim: bv32): bv32 {
    if i < dim then i else i + dim
  }

  /** All four indices are valid on their axes. */
  predicate OnGrid(lon: bv32, lat: bv32, depth: bv32, timeIndex: bv32) {
    OnAxis(lon, LonCells) && OnAxis(lat, LatCells) &&
    OnAxis(depth, DepthCells) && OnAxis(timeIndex, TimeCells)
  }

  /** The cell that NumPy indexing with the four indices selects. */
  function CellAt(lon: bv32, lat: bv32, depth: bv32, timeIndex: bv32): Cell {
    Cell(AxisIndex(lon, LonCells), AxisIndex(lat, LatCells),
         AxisIndex(depth, DepthCells), AxisIndex(timeIndex, TimeCells))
  }

  function Count(g: Grid, c: Cell): bv32 {
    if c in g then g[c] else 0
  }

  /** The high word of an identity: the shifted indices and the time term
      added in 32-bit arithmetic (line 83 uses `+`, not `|`). */
  function HighWord(lon: bv32, lat: bv32, depth: bv32, time: bv32): bv32 {
    (lon << 23) + (lat << 15) + (depth << 8) + time
  }

  /** The upper half of `np.int64(x)` for an `int32` `x`: its sign, repeated. */
  function SignFill(x: bv32): bv32 {
    if x < 0x8000_0000 then 0 else 0xFFFF_FFFF
  }

  /** `(np.int64(high) << 32) | np.int64(local)`, half by half: the shift leaves
      the lower half zero, and sign extension of `local` fills the upper half. */
  function PackId(high: bv32, local: bv32): Word64 {
    Word64(high | SignFill(local), local)
  }

  /** The 64-bit successor of an identity. */
  function Succ(w: Word64): Word64 {
    if w.low == 0xFFFF_FFFF then Word64(w.high + 1, 0) else Word64(w.high, w.low + 1)
  }

  /** `getID` on the discretised indices and an integer time term: the new
      grid and the identity, or the `IndexError` of an index off the grid. */
  function GetId(g: Grid, lon: bv32, lat: bv32, depth: bv32, timeIndex: bv32, time: bv32)
    : (r: Result<(Grid, Word64), GridError>)
    ensures r.Ok? <==> OnGrid(lon, lat, depth, timeIndex)
  {
    if !OnGrid(lon, lat, depth, timeIndex) then Err(IndexOutOfBounds)
    else
      var c := CellAt(lon, lat, depth, timeIndex);
      var local := Count(g, c);
      Ok((g[c := local + 1], PackId(HighWord(lon, lat, depth, time), local)))
  }

  // ---------------------------------------------------------------------------
  // Properties of the coordinate-based generator
  // ---------------------------------------------------------------------------

  /** Every index accepted by NumPy lands on a cell inside the grid. */
  lemma AxisIndexInside(i: bv32, dim: bv32)
    requires dim == LonCells || dim == LatCells || dim == DepthCells || dim == TimeCells
    requires OnAxis(i, dim)
    ensures AxisIndex(i, dim) < dim
  {
    if i >= dim {
      if dim == LonCells {
        assert i + 360 < 360;
      } else if dim == LatCells {
        assert i + 180 < 180;
      } else if dim == DepthCells {
        assert i + 128 < 128;
      } else {
        assert i + 256 < 256;
      }
    }
  }

  /** `getID` raises exactly one cell's counter by one (wrapping as `int32`),
      leaves every other cell as it was, and the low 32 bits of the identity are
      that cell's previous count. */
  lemma GetIdUpdatesOneCell(g: Grid, lon: bv32, lat: bv32, depth: bv32, timeIndex: bv32, time: bv32)
    requires OnGrid(lon, lat, depth, timeIndex)
    ensures var c := CellAt(lon, lat, depth, timeIndex);
      var r := GetId(g, lon, lat, depth, timeIndex, time);
      r.Ok? &&
      Count(r.value.0, c) == Count(g, c) + 1 &&
      (forall d :: d != c ==> Count(r.value.0, d) == Count(g, d)) &&
      r.value.1.low == Count(g, c)
  {
  }

  /** While the cell's count is non-negative as an `int32`, the high 32 bits of
      the identity are exactly the high word built from the indices and time term. */
  lemma GetIdHighWord(g: Grid, lon: bv32, lat: bv32, depth: bv32, timeIndex: bv32, time: bv32)
    requires GetId(g, lon, lat, depth, timeIndex, time).Ok?
    requires GetId(g, lon, lat, depth, timeIndex, time).value.1.low < 0x8000_0000
    ensures GetId(g, lon, lat, depth, timeIndex, time).value.1.high == HighWord(lon, lat, depth, time)
  {
    var local := GetId(g, lon, lat, depth, timeIndex, time).value.1.low;
    assert SignFill(local) == 0;
  }

  /** Two successive `getID` calls with the same arguments return identities that
      differ by exactly one, while the cell's count stays below `2^31 - 1`. */
  lemma SuccessiveIdsDifferByOne(g: Grid, lon: bv32, lat: bv32, depth: bv32, timeIndex: bv32, time: bv32)
    requires GetId(g, lon, lat, depth, timeIndex, time).Ok?
    requires GetId(g, lon, lat, depth, timeIndex, time).value.1.low < 0x7FFF_FFFF
    ensures var r1 := GetId(g, lon, lat, depth, timeIndex, time).value;
      var r2 := GetId(r1.0, lon, lat, depth, timeIndex, time);
      r2.Ok? && r2.value.1 == Succ(r1.1)
  {
    var c := CellAt(lon, lat, depth, timeIndex);
    var high := HighWord(lon, lat, depth, time);
    var local := Count(g, c);
    var g1 := g[c := local + 1];
    assert GetId(g, lon, lat, depth, timeIndex, time) == Ok((g1, PackId(high, local)));
    assert PackId(high, local).low == local;
    assert Count(g1, c) == local + 1;
    assert GetId(g1, lon, lat, depth, timeIndex, time).value.1 == PackId(high, local + 1);
    PackSuccessor(high, local);
  }

  /** Raising a non-negative count that stays below `2^31` raises the identity by one. */
  lemma PackSuccessor(high: bv32, local: bv32)
    requires local < 0x7FFF_FFFF
    ensures PackId(high, local + 1) == Succ(PackId(high, local))
  {
    PackNonNegative(high, local);
    PackNonNegative(high, local + 1);
  }

  /** A count that is non-negative as an `int32` leaves the high word untouched. */
  lemma PackNonNegative(high: bv32, local: bv32)
    requires local < 0x8000_0000
    ensures PackId(high, local) == Word64(high, local)
  {
    assert SignFill(local) == 0;
  }

  /** For in-grid indices and a time term below 256, the shifted fields occupy
      disjoint bit ranges: the sum at line 83 equals the bitwise-or form, and
      each field can be read back from its own bits. */
  lemma FieldsDisjoint(lon: bv32, lat: bv32, depth: bv32, time: bv32)
    requires lon < LonCells && lat < LatCells && depth < DepthCells && time < 256
    ensures HighWord(lon, lat, depth, time) == (lon << 23) | (lat << 15) | (depth << 8) | time
    ensures HighWord(lon, lat, depth, time) >> 23 == lon
    ensures (HighWord(lon, lat, depth, time) >> 15) & 0xFF == lat
    ensures (HighWord(lon, lat, depth, time) >> 8) & 0x7F == depth
    ensures HighWord(lon, lat, depth, time) & 0xFF == time
  {
  }

  /** Generates identities from grid coordinates; one counter per grid cell. */
  class SpecialIdGenerator {
    var localIds: Grid

    constructor ()
      ensures localIds == map[]
    {
      localIds := map[];
    }

    /** `getID`, with the discretised `int32` indices and the time term given as bits. */
    method GetID(lon: bv32, lat: bv32, depth: bv32, timeIndex: bv32, time: bv32)
      returns (r: Result<Word64, GridError>)
      modifies this
      ensures match GetId(old(localIds), lon, lat, depth, timeIndex, time)
        case Ok((grid, id)) => r == Ok(id) && localIds == grid
        case Err(e) => r == Err(e) && localIds == old(localIds)
    {
      if !OnGrid(lon, lat, depth, timeIndex) {
        return Err(IndexOutOfBounds);
      }
      var c := CellAt(lon, lat, depth, timeIndex);
      var localIndex := Count(localIds, c);
      var id := PackId(HighWord(lon, lat, depth, time), localIndex);
      assert GetId(localIds, lon, lat, depth, timeIndex, time) == Ok((localIds[c := localIndex + 1], id));
      localIds := localIds[c := localIndex + 1];
      r := Ok(id);
    }
  }
}
