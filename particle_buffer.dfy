/**
 * `ParticleBuffer`: a list of particles, for a JIT particle class the parallel
 * list of their C records, and the indices marked for removal by the next
 * `compact`.
 */
module ParticleBuffers {
  import opened Wrappers

  // ---------------------------------------------------------------------------
  // Removing a set of indices
  // ---------------------------------------------------------------------------

  /** `np.delete(s, drop)`: the elements whose index is not in `drop`, in order. */
  function RemoveIndices<T>(s: seq<T>, drop: set<int>): seq<T> {
    if |s| == 0 then []
    else RemoveIndices(s[..|s| - 1], drop) + (if |s| - 1 in drop then [] else [s[|s| - 1]])
  }

  /** The indices below `n` that are not in `drop`, ascending. */
  function Survivors(n: nat, drop: set<int>): seq<nat> {
    if n == 0 then []
    else Survivors(n - 1, drop) + (if n - 1 in drop then [] else [n - 1])
  }

  /** The survivors are exactly the indices below `n` outside `drop`, each once, ascending. */
  lemma {:induction false} SurvivorsSpec(n: nat, drop: set<int>)
    ensures forall i :: i in Survivors(n, drop) <==> 0 <= i < n && i !in drop
    ensures forall a, b :: 0 <= a < b < |Survivors(n, drop)| ==> Survivors(n, drop)[a] < Survivors(n, drop)[b]
  {
    if n > 0 {
      SurvivorsSpec(n - 1, drop);
      var prev, cur := Survivors(n - 1, drop), Survivors(n, drop);
      forall a, b | 0 <= a < b < |cur|
        ensures cur[a] < cur[b]
      {
        if b >= |prev| {
          assert cur[a] == prev[a] && prev[a] in prev;
        }
      }
    }
  }

  /** After removal, element `k` is the original element at the `k`-th surviving index. */
  lemma {:induction false} RemoveIndicesSpec<T>(s: seq<T>, drop: set<int>)
    ensures |RemoveIndices(s, drop)| == |Survivors(|s|, drop)|
    ensures forall k :: 0 <= k < |RemoveIndices(s, drop)| ==>
      Survivors(|s|, drop)[k] < |s| && RemoveIndices(s, drop)[k] == s[Survivors(|s|, drop)[k]]
  {
    if |s| > 0 {
      var init := s[..|s| - 1];
      RemoveIndicesSpec(init, drop);
      SurvivorsSpec(|s| - 1, drop);
      assert |init| == |s| - 1;
      forall k | 0 <= k < |RemoveIndices(init, drop)|
        ensures init[Survivors(|init|, drop)[k]] == s[Survivors(|init|, drop)[k]]
      {
      }
    }
  }

  /** Removal keeps the survivors' relative order: every pair of kept elements
      appears in the same order as before. */
  lemma KeepsOrder<T>(s: seq<T>, drop: set<int>, a: nat, b: nat)
    requires a < b < |RemoveIndices(s, drop)|
    ensures exists i, j ::
      0 <= i < j < |s| && i !in drop && j !in drop &&
      RemoveIndices(s, drop)[a] == s[i] && RemoveIndices(s, drop)[b] == s[j]
  {
    RemoveIndicesSpec(s, drop);
    SurvivorsSpec(|s|, drop);
    var surv := Survivors(|s|, drop);
    assert surv[a] in surv && surv[b] in surv;
    assert surv[a] < surv[b];
  }

  /** The removed count is the number of recorded indices that are in range. */
  lemma {:induction false} RemovedCount(n: nat, drop: set<int>)
    ensures |Survivors(n, drop)| == n - |set i | i in drop && 0 <= i < n|
  {
    if n > 0 {
      RemovedCount(n - 1, drop);
      var below := set i | i in drop && 0 <= i < n - 1;
      var upTo := set i | i in drop && 0 <= i < n;
      if n - 1 in drop {
        assert upTo == below + {n - 1};
      } else {
        assert upTo == below;
      }
    }
  }

  /** Two lists of equal length lose the same positions, so the particle at
      position `k` keeps the record it had. */
  lemma RemovalKeepsPairs<T, U>(s: seq<T>, t: seq<U>, drop: set<int>, k: nat)
    requires |s| == |t|
    requires k < |RemoveIndices(s, drop)|
    ensures |RemoveIndices(t, drop)| == |RemoveIndices(s, drop)|
    ensures exists i ::
      0 <= i < |s| && i !in drop &&
      RemoveIndices(s, drop)[k] == s[i] && RemoveIndices(t, drop)[k] == t[i]
  {
    RemoveIndicesSpec(s, drop);
    RemoveIndicesSpec(t, drop);
    SurvivorsSpec(|s|, drop);
    var i := Survivors(|s|, drop)[k];
    assert i in Survivors(|s|, drop);
  }

  // ---------------------------------------------------------------------------
  // The buffer
  // ---------------------------------------------------------------------------

  /** `np.where(s == x)[0][0]`: the first position holding `x`, if any. */
  function FirstIndex<T(==)>(s: seq<T>, x: T): (r: Option<nat>)
    ensures r.None? <==> x !in s
    ensures r.Some? ==>
      r.value < |s| && s[r.value] == x && forall j :: 0 <= j < r.value ==> s[j] != x
  {
    if |s| == 0 then None
    else if s[0] == x then Some(0)
    else match FirstIndex(s[1..], x)
      case None => None
      case Some(i) => Some(i + 1)
  }

  datatype BufferError = NotInBuffer   // `np.where(...)[0][0]` on an empty match

  /** A particle buffer over particles `P` and, for a JIT class, records `R`. */
  class ParticleBuffer<P(==), R> {
    var particles: seq<P>
    var particleData: seq<R>
    var invalidIndices: seq<int>
    const usesJit: bool

    /** Records line up with particles, and every marked index is a valid position. */
    ghost predicate Valid()
      reads this
    {
      (usesJit ==> |particleData| == |particles|) &&
      (!usesJit ==> particleData == []) &&
      forall k :: 0 <= k < |invalidIndices| ==> 0 <= invalidIndices[k] < |particles|
    }

    constructor (usesJit: bool)
      ensures Valid() && this.usesJit == usesJit
      ensures particles == [] && particleData == [] && invalidIndices == []
    {
      this.usesJit := usesJit;
      particles := [];
      particleData := [];
      invalidIndices := [];
    }

    /** `add`: appends the particle (and, for a JIT class, its record) and returns it. */
    method Add(p: P, record: R) returns (added: P)
      requires Valid()
      modifies this
      ensures Valid()
      ensures particles == old(particles) + [p] && added == p
      ensures particleData == if usesJit then old(particleData) + [record] else old(particleData)
      ensures invalidIndices == old(invalidIndices)
    {
      particles := particles + [p];
      if usesJit {
        particleData := particleData + [record];
      }
      added := particles[|particles| - 1];
    }

    /** `invalidate(index)`: records an index only when it is a valid position. */
    method Invalidate(index: int)
      requires Valid()
      modifies this`invalidIndices
      ensures Valid()
      ensures invalidIndices ==
        if 0 <= index < |particles| then old(invalidIndices) + [index] else old(invalidIndices)
    {
      if index >= 0 && index < |particles| {
        invalidIndices := invalidIndices + [index];
      }
    }

    /** `invalidate(particle)`: records the first position holding the particle;
        a particle that is not in the buffer raises. */
    method InvalidateParticle(p: P) returns (r: Outcome<BufferError>)
      requires Valid()
      modifies this`invalidIndices
      ensures Valid()
      ensures r.Fail? <==> p !in particles
      ensures r.Pass? ==>
        exists i ::
          0 <= i < |particles| && particles[i] == p &&
          (forall j :: 0 <= j < i ==> particles[j] != p) &&
          invalidIndices == old(invalidIndices) + [i]
      ensures r.Fail? ==> invalidIndices == old(invalidIndices)
    {
      match FirstIndex(particles, p)
      case None =>
        r := Fail(NotInBuffer);
      case Some(i) =>
        invalidIndices := invalidIndices + [i];
        r := Pass;
    }

    /** The indices `compact` removes. */
    ghost function Marked(): set<int>
      reads this
    {
      set k | 0 <= k < |invalidIndices| :: invalidIndices[k]
    }

    /** `compact`: removes every marked position from the particles (and the
        records) and clears the marks. */
    method Compact()
      requires Valid()
      modifies this
      ensures Valid()
      ensures particles == RemoveIndices(old(particles), old(Marked()))
      ensures particleData ==
        if usesJit then RemoveIndices(old(particleData), old(Marked())) else old(particleData)
      ensures invalidIndices == []
    {
      var removals := set k | 0 <= k < |invalidIndices| :: invalidIndices[k];
      particles := RemoveIndices(particles, removals);
      if usesJit {
        RemoveIndicesSpec(old(particles), removals);
        RemoveIndicesSpec(particleData, removals);
        particleData := RemoveIndices(particleData, removals);
      }
      invalidIndices := [];
    }

    /** `get`: the particle at a valid position, `None` elsewhere. */
    method Get(index: int) returns (r: Option<P>)
      ensures r.Some? <==> 0 <= index < |particles|
      ensures r.Some? ==> r.value == particles[index]
    {
      if index >= 0 && index < |particles| {
        return Some(particles[index]);
      }
      return None;
    }
  }
}
