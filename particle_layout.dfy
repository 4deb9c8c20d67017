/**
 * The particle record layout: typed `Variable` descriptors, and the
 * `ParticleType` that merges a class's own variables with its ancestors',
 * orders them 64-bit first, sizes the record, pads it to 8 bytes and names
 * it with a cache key.
 */
module ParticleLayout {
  import opened Wrappers
  import Strings

  /** The scalar types a variable may declare. `np.double` is `np.float64`;
      every other NumPy or ctypes type is `Unsupported`, carrying its name. */
  datatype DType = Int32 | Int64 | Float32 | Float64 | CVoidP | Unsupported(name: string)

  /** Status codes a particle's `state` variable can hold. */
  datatype StatusCode = Success | Delete

  /** The Python values a variable can hold or default to. `FieldRef` is a
      sampled field object, resolved at the particle's position. */
  datatype Value = NoneValue | Number(x: real) | Code(status: StatusCode) | FieldRef(field: nat)

  /** A particle variable descriptor: name, type, initial value and whether it is written out. */
  datatype Variable = Variable(name: string, dtype: DType, initial: Value, toWrite: bool)

  datatype ConfigError = ReservedName | UnsupportedDType(dtype: DType)

  /** `Variable.__init__`: the name `z` is refused; any other is stored as given. */
  function NewVariable(name: string, dtype: DType, initial: Value, toWrite: bool)
    : (r: Result<Variable, ConfigError>)
    ensures r.Err? <==> name == "z"
    ensures r.Err? ==> r.error == ReservedName
    ensures r.Ok? ==>
      r.value.name == name && r.value.dtype == dtype &&
      r.value.initial == initial && r.value.toWrite == toWrite
  {
    if name == "z" then Err(ReservedName) else Ok(Variable(name, dtype, initial, toWrite))
  }

  /** `is64bit`: membership in `[np.float64, np.int64, c_void_p]`. */
  predicate Is64Bit(d: DType) {
    d in [Float64, Int64, CVoidP]
  }

  /** `supported_dtypes`: `[np.int32, np.int64, np.float32, np.double, np.float64, c_void_p]`. */
  const SupportedDTypes: seq<DType> := [Int32, Int64, Float32, Float64, Float64, CVoidP]

  predicate Supported(d: DType) {
    d in SupportedDTypes
  }

  /** Bytes a variable occupies in `size`: 8 for a 64-bit type, 4 otherwise. */
  function Width(d: DType): (w: nat)
    ensures w == 8 || w == 4
  {
    if Is64Bit(d) then 8 else 4
  }

  // ---------------------------------------------------------------------------
  // Merging and ordering the variables
  // ---------------------------------------------------------------------------

  /** The variable list after the loop over `__bases__` has visited `bases` in
      order: each base's list is put in front of what was gathered so far. */
  function Merged(own: seq<Variable>, bases: seq<seq<Variable>>): seq<Variable> {
    if |bases| == 0 then own
    else bases[|bases| - 1] + Merged(own, bases[..|bases| - 1])
  }

  /** The 64-bit variables, in their order. */
  function Wide(vs: seq<Variable>): (r: seq<Variable>)
    ensures forall k :: 0 <= k < |r| ==> Is64Bit(r[k].dtype)
  {
    if |vs| == 0 then []
    else (if Is64Bit(vs[0].dtype) then [vs[0]] else []) + Wide(vs[1..])
  }

  /** The other variables, in their order. */
  function Narrow(vs: seq<Variable>): (r: seq<Variable>)
    ensures forall k :: 0 <= k < |r| ==> !Is64Bit(r[k].dtype)
  {
    if |vs| == 0 then []
    else (if Is64Bit(vs[0].dtype) then [] else [vs[0]]) + Narrow(vs[1..])
  }

  /** The two list comprehensions at lines 85-86: 64-bit variables first. */
  function WideFirst(vs: seq<Variable>): seq<Variable> {
    Wide(vs) + Narrow(vs)
  }

  /** Every 64-bit variable precedes every other one. */
  predicate WideBeforeNarrow(vs: seq<Variable>) {
    forall i, j :: 0 <= i < j < |vs| && Is64Bit(vs[j].dtype) ==> Is64Bit(vs[i].dtype)
  }

  /** A particle type: its class name, whether it is a JIT class, and its variables. */
  datatype ParticleType = ParticleType(name: string, usesJit: bool, variables: seq<Variable>)

  /** `ParticleType.__init__` for a class with its own variables `own` and, for
      each particle base class in `__bases__` order, that base's variables. */
  method NewParticleType(name: string, usesJit: bool, own: seq<Variable>, bases: seq<seq<Variable>>)
    returns (pt: ParticleType)
    ensures pt.name == name && pt.usesJit == usesJit
    ensures pt.variables == WideFirst(Merged(own, bases))
  {
    var variables := own;
    for i := 0 to |bases|
      invariant variables == Merged(own, bases[..i])
    {
      assert bases[..i + 1][..i] == bases[..i];
      variables := bases[i] + variables;
    }
    assert bases[..|bases|] == bases;
    variables := Wide(variables) + Narrow(variables);
    pt := ParticleType(name, usesJit, variables);
  }

  // ---------------------------------------------------------------------------
  // Properties of the ordering
  // ---------------------------------------------------------------------------

  lemma {:induction false} WideAppend(a: seq<Variable>, b: seq<Variable>)
    ensures Wide(a + b) == Wide(a) + Wide(b)
    ensures Narrow(a + b) == Narrow(a) + Narrow(b)
  {
    if |a| > 0 {
      WideAppend(a[1..], b);
      assert (a + b)[1..] == a[1..] + b;
    } else {
      assert a + b == b;
    }
  }

  /** Filtering a filtered list changes nothing more. */
  lemma {:induction false} FilterTwice(vs: seq<Variable>)
    ensures Wide(Wide(vs)) == Wide(vs) && Narrow(Wide(vs)) == []
    ensures Narrow(Narrow(vs)) == Narrow(vs) && Wide(Narrow(vs)) == []
  {
    if |vs| > 0 {
      FilterTwice(vs[1..]);
      var head := if Is64Bit(vs[0].dtype) then [vs[0]] else [];
      var tail := if Is64Bit(vs[0].dtype) then [] else [vs[0]];
      WideAppend(head, Wide(vs[1..]));
      WideAppend(tail, Narrow(vs[1..]));
    }
  }

  /** The reordered list is a permutation of the merged one. */
  lemma {:induction false} WideFirstPermutes(vs: seq<Variable>)
    ensures multiset(WideFirst(vs)) == multiset(vs)
  {
    if |vs| > 0 {
      var rest := vs[1..];
      WideFirstPermutes(rest);
      var head := if Is64Bit(vs[0].dtype) then [vs[0]] else [];
      var tail := if Is64Bit(vs[0].dtype) then [] else [vs[0]];
      assert WideFirst(vs) == head + Wide(rest) + (tail + Narrow(rest));
      assert multiset(head) + multiset(tail) == multiset{vs[0]};
      assert vs == [vs[0]] + rest;
    }
  }

  /** The reordered list has every 64-bit variable before every other one. */
  lemma WideFirstOrdered(vs: seq<Variable>)
    ensures WideBeforeNarrow(WideFirst(vs))
  {
    var w, n := Wide(vs), Narrow(vs);
    var r := w + n;
    forall i, j | 0 <= i < j < |r|
      ensures Is64Bit(r[j].dtype) ==> Is64Bit(r[i].dtype)
    {
      if i >= |w| {
        assert r[j] == n[j - |w|];
      }
    }
  }

  /** Within each group the relative order is kept: the reordering is stable. */
  lemma WideFirstStable(vs: seq<Variable>)
    ensures Wide(WideFirst(vs)) == Wide(vs)
    ensures Narrow(WideFirst(vs)) == Narrow(vs)
  {
    WideAppend(Wide(vs), Narrow(vs));
    FilterTwice(vs);
  }

  /** The final list of a particle type is a permutation of the inherited
      variables followed by its own, 64-bit first, stable within each group. */
  lemma ParticleTypeOrder(own: seq<Variable>, bases: seq<seq<Variable>>)
    ensures var vs := WideFirst(Merged(own, bases));
      multiset(vs) == multiset(Merged(own, bases)) &&
      WideBeforeNarrow(vs) &&
      Wide(vs) == Wide(Merged(own, bases)) &&
      Narrow(vs) == Narrow(Merged(own, bases))
  {
    WideFirstPermutes(Merged(own, bases));
    WideFirstOrdered(Merged(own, bases));
    WideFirstStable(Merged(own, bases));
  }

  /** With one particle base, inherited variables come before the class's own. */
  lemma MergedSingleBase(own: seq<Variable>, base: seq<Variable>)
    ensures Merged(own, [base]) == base + own
  {
    assert [base][..0] == [];
  }

  // ---------------------------------------------------------------------------
  // Size, padding and offsets
  // ---------------------------------------------------------------------------

  /** `size`: 8 bytes per 64-bit variable and 4 per other one. */
  function Size(vs: seq<Variable>): nat {
    if |vs| == 0 then 0 else Width(vs[0].dtype) + Size(vs[1..])
  }

  /** `size` counts each 64-bit variable as 8 bytes and every other one as 4. */
  lemma {:induction false} SizeByGroups(vs: seq<Variable>)
    ensures Size(vs) == 8 * |Wide(vs)| + 4 * |Narrow(vs)|
  {
    if |vs| > 0 {
      SizeByGroups(vs[1..]);
    }
  }

  /** A field of the generated C struct: its name and type. */
  datatype Field = Field(name: string, dtype: DType)

  function Fields(vs: seq<Variable>): (r: seq<Field>)
    ensures |r| == |vs|
    ensures forall k :: 0 <= k < |vs| ==> r[k] == Field(vs[k].name, vs[k].dtype)
  {
    if |vs| == 0 then [] else [Field(vs[0].name, vs[0].dtype)] + Fields(vs[1..])
  }

  /** The first variable whose type is not supported, if any. */
  function FirstUnsupported(vs: seq<Variable>): (r: Option<nat>)
    ensures r.None? <==> forall k :: 0 <= k < |vs| ==> Supported(vs[k].dtype)
    ensures r.Some? ==>
      r.value < |vs| && !Supported(vs[r.value].dtype) &&
      forall k :: 0 <= k < r.value ==> Supported(vs[k].dtype)
  {
    if |vs| == 0 then None
    else if !Supported(vs[0].dtype) then Some(0)
    else match FirstUnsupported(vs[1..])
      case None => None
      case Some(k) => Some(k + 1)
  }

  /** The padding field appended to reach a multiple of 8 bytes. */
  const Pad := Field("pad", Float32)

  /** `dtype`: the C struct's fields, or the error for the first unsupported type. */
  function StructFields(vs: seq<Variable>): (r: Result<seq<Field>, ConfigError>)
    ensures r.Err? <==> exists k :: 0 <= k < |vs| && !Supported(vs[k].dtype)
  {
    match FirstUnsupported(vs)
    case Some(k) => Err(UnsupportedDType(vs[k].dtype))
    case None => Ok(Fields(vs) + if Size(vs) % 8 > 0 then [Pad] else [])
  }

  /** Bytes taken by a list of struct fields. */
  function RecordSize(fs: seq<Field>): nat {
    if |fs| == 0 then 0 else Width(fs[0].dtype) + RecordSize(fs[1..])
  }

  /** The packed byte offset of field `i`: the space of the fields before it. */
  function Offset(fs: seq<Field>, i: nat): nat
    requires i <= |fs|
  {
    RecordSize(fs[..i])
  }

  lemma {:induction false} RecordSizeAppend(a: seq<Field>, b: seq<Field>)
    ensures RecordSize(a + b) == RecordSize(a) + RecordSize(b)
  {
    if |a| > 0 {
      RecordSizeAppend(a[1..], b);
      assert (a + b)[1..] == a[1..] + b;
    } else {
      assert a + b == b;
    }
  }

  lemma {:induction false} RecordSizeOfFields(vs: seq<Variable>)
    ensures RecordSize(Fields(vs)) == Size(vs)
  {
    if |vs| > 0 {
      RecordSizeOfFields(vs[1..]);
    }
  }

  lemma {:induction false} SizeMultipleOf4(vs: seq<Variable>)
    ensures Size(vs) % 4 == 0
  {
    if |vs| > 0 {
      SizeMultipleOf4(vs[1..]);
    }
  }

  /** The pad is added exactly when `size % 8 != 0`, and the padded struct
      always takes a multiple of 8 bytes. */
  lemma PaddedSizeMultipleOf8(vs: seq<Variable>)
    requires StructFields(vs).Ok?
    ensures var fs := StructFields(vs).value;
      (|fs| == |vs| + 1 <==> Size(vs) % 8 != 0) &&
      RecordSize(fs) % 8 == 0
  {
    RecordSizeOfFields(vs);
    SizeMultipleOf4(vs);
    if Size(vs) % 8 > 0 {
      assert StructFields(vs).value == Fields(vs) + [Pad];
      PaddedRecordSize(Fields(vs));
      assert Size(vs) % 8 == 4;
    } else {
      assert StructFields(vs).value == Fields(vs) + [] == Fields(vs);
    }
  }

  /** Appending the pad adds 4 bytes. */
  lemma PaddedRecordSize(fs: seq<Field>)
    ensures RecordSize(fs + [Pad]) == RecordSize(fs) + 4
  {
    RecordSizeAppend(fs, [Pad]);
    assert RecordSize([Pad]) == 4 + RecordSize([]);
  }

  /** When the fields before `i` are all 8 bytes wide, field `i` starts at `8 * i`. */
  lemma {:induction false} OffsetOfWidePrefix(fs: seq<Field>, i: nat)
    requires i <= |fs|
    requires forall k :: 0 <= k < i ==> Is64Bit(fs[k].dtype)
    ensures Offset(fs, i) == 8 * i
  {
    if i > 0 {
      OffsetOfWidePrefix(fs, i - 1);
      assert fs[..i] == fs[..i - 1] + [fs[i - 1]];
      RecordSizeAppend(fs[..i - 1], [fs[i - 1]]);
    }
  }

  lemma {:induction false} OffsetMultipleOf4(fs: seq<Field>, i: nat)
    requires i <= |fs|
    ensures Offset(fs, i) % 4 == 0
  {
    if i > 0 {
      OffsetMultipleOf4(fs, i - 1);
      assert fs[..i] == fs[..i - 1] + [fs[i - 1]];
      RecordSizeAppend(fs[..i - 1], [fs[i - 1]]);
    }
  }

  /** In the struct of a particle type, with packed offsets, every 64-bit field
      sits at a multiple of 8 and every field at a multiple of 4. */
  lemma FieldsAligned(vs: seq<Variable>)
    requires StructFields(WideFirst(vs)).Ok?
    ensures var fs := StructFields(WideFirst(vs)).value;
      forall i :: 0 <= i < |fs| ==>
        Offset(fs, i) % 4 == 0 &&
        (Is64Bit(fs[i].dtype) ==> Offset(fs, i) % 8 == 0)
  {
    var sorted := WideFirst(vs);
    var fs := StructFields(sorted).value;
    WideFirstOrdered(vs);
    forall i | 0 <= i < |fs|
      ensures Offset(fs, i) % 4 == 0
      ensures Is64Bit(fs[i].dtype) ==> Offset(fs, i) % 8 == 0
    {
      OffsetMultipleOf4(fs, i);
      if i >= |sorted| {
        assert fs[i] == Pad;
      } else if Is64Bit(sorted[i].dtype) {
        forall k | 0 <= k < i
          ensures Is64Bit(fs[k].dtype)
        {
          assert fs[k] == Field(sorted[k].name, sorted[k].dtype);
        }
        OffsetOfWidePrefix(fs, i);
      } else {
        assert fs[i] == Field(sorted[i].name, sorted[i].dtype);
      }
    }
  }

  // ---------------------------------------------------------------------------
  // The cache key
  // ---------------------------------------------------------------------------

  /** The text of a type in the cache key: `str()` of the NumPy type class; pointer
      fields are declared as `np.dtype(c_void_p)`, whose text is `uint64`. */
  function TypeName(d: DType): string {
    match d
    case Int32 => "<class 'numpy.int32'>"
    case Int64 => "<class 'numpy.int64'>"
    case Float32 => "<class 'numpy.float32'>"
    case Float64 => "<class 'numpy.float64'>"
    case CVoidP => "uint64"
    case Unsupported(n) => n
  }

  /** One entry of the cache key: `"%s:%s" % (name, dtype)`. */
  function KeyEntry(v: Variable): string {
    v.name + ":" + TypeName(v.dtype)
  }

  function KeyEntries(vs: seq<Variable>): (r: seq<string>)
    ensures |r| == |vs|
    ensures forall k :: 0 <= k < |vs| ==> r[k] == KeyEntry(vs[k])
  {
    if |vs| == 0 then [] else [KeyEntry(vs[0])] + KeyEntries(vs[1..])
  }

  /** `_cache_key`: the entries joined with `-`. */
  function CacheKey(vs: seq<Variable>): string {
    Strings.Join(KeyEntries(vs), "-")
  }

  /** A name or type text that cannot be confused with the key's separators. */
  predicate PlainText(s: string) {
    '-' !in s && ':' !in s
  }

  /** The (name, type text) pairs a cache key stands for. */
  function KeyPairs(vs: seq<Variable>): (r: seq<(string, string)>)
    ensures |r| == |vs|
    ensures forall k :: 0 <= k < |vs| ==> r[k] == (vs[k].name, TypeName(vs[k].dtype))
  {
    if |vs| == 0 then [] else [(vs[0].name, TypeName(vs[0].dtype))] + KeyPairs(vs[1..])
  }

  /** Reads the (name, type text) pairs back from a cache key. */
  function ParseKey(key: string): seq<(string, string)> {
    if key == "" then []
    else
      var entries := Strings.Split(key, '-');
      seq(|entries|, k requires 0 <= k < |entries| =>
        var parts := Strings.Split(entries[k], ':');
        (parts[0], if |parts| > 1 then parts[1] else ""))
  }

  lemma KeyEntryParses(v: Variable)
    requires PlainText(v.name) && PlainText(TypeName(v.dtype))
    ensures Strings.Split(KeyEntry(v), ':') == [v.name, TypeName(v.dtype)]
  {
    Strings.SplitJoin([v.name, TypeName(v.dtype)], ':');
    assert Strings.Join([v.name, TypeName(v.dtype)], ":") == KeyEntry(v);
  }

  /** No entry of a key built from plain texts contains the entry separator,
      and each entry splits at `:` into its name and type text. */
  lemma KeyEntriesPlain(vs: seq<Variable>)
    requires forall k :: 0 <= k < |vs| ==> PlainText(vs[k].name) && PlainText(TypeName(vs[k].dtype))
    ensures forall k :: 0 <= k < |vs| ==> '-' !in KeyEntries(vs)[k]
    ensures forall k :: 0 <= k < |vs| ==>
      Strings.Split(KeyEntries(vs)[k], ':') == [vs[k].name, TypeName(vs[k].dtype)]
  {
    forall k | 0 <= k < |vs|
      ensures '-' !in KeyEntries(vs)[k]
      ensures Strings.Split(KeyEntries(vs)[k], ':') == [vs[k].name, TypeName(vs[k].dtype)]
    {
      KeyEntryParses(vs[k]);
    }
  }

  /** When names and type texts avoid `-` and `:`, the cache key can be read
      back into the variables' (name, type) pairs, so shapes with equal keys
      have the same names and types in the same order. */
  lemma CacheKeyRoundTrip(vs: seq<Variable>)
    requires forall k :: 0 <= k < |vs| ==> PlainText(vs[k].name) && PlainText(TypeName(vs[k].dtype))
    ensures ParseKey(CacheKey(vs)) == KeyPairs(vs)
  {
    if |vs| > 0 {
      var entries := KeyEntries(vs);
      JoinLength(entries, "-");
      KeyEntriesPlain(vs);
      Strings.SplitJoin(entries, '-');
      assert Strings.Split(CacheKey(vs), '-') == entries;
    }
  }

  lemma {:induction false} JoinLength(parts: seq<string>, sep: string)
    requires |parts| > 0
    ensures |Strings.Join(parts, sep)| >= |parts[0]|
  {
  }

  /** Particle types whose cache keys are equal have the same variable names
      and types, in the same order. */
  lemma CacheKeyInjective(a: seq<Variable>, b: seq<Variable>)
    requires forall k :: 0 <= k < |a| ==> PlainText(a[k].name) && PlainText(TypeName(a[k].dtype))
    requires forall k :: 0 <= k < |b| ==> PlainText(b[k].name) && PlainText(TypeName(b[k].dtype))
    requires CacheKey(a) == CacheKey(b)
    ensures KeyPairs(a) == KeyPairs(b)
  {
    CacheKeyRoundTrip(a);
    CacheKeyRoundTrip(b);
  }
}
