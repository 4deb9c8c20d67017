/**
 * Particle state: where a particle's variables are stored (Python attributes
 * for a SciPy particle, one C record for a JIT particle), how a `Variable`
 * descriptor reads and writes them, the class-wide `lastID` high-water mark,
 * the initialisation loop of `_Particle.__init__`, and the `state`/`dt`
 * updates of `ScipyParticle`.
 */
module Particles {
  import opened Wrappers
  import opened ParticleLayout

  // ---------------------------------------------------------------------------
  // The two storage variants and the Variable descriptor
  // ---------------------------------------------------------------------------

  /** A SciPy particle keeps each variable in an instance attribute `_<name>`;
      a JIT particle keeps them in the fields of its C record. */
  datatype Storage = Interpreted(attrs: map<string, Value>) | Compiled(record: map<string, Value>)

  /** Reading or writing a record field the record does not have. */
  datatype AccessError = NoSuchField(name: string)

  /** The attribute a SciPy particle stores variable `name` under. */
  function AttrName(name: string): string {
    "_" + name
  }

  /** `Variable.__get__`: an interpreted particle that never set the variable
      reads its initial value; a compiled one reads the record field. */
  function Get(s: Storage, v: Variable): (r: Result<Value, AccessError>)
    ensures r.Err? <==> s.Compiled? && v.name !in s.record
    ensures r.Err? ==> r.error == NoSuchField(v.name)
  {
    match s
    case Interpreted(attrs) =>
      Ok(if AttrName(v.name) in attrs then attrs[AttrName(v.name)] else v.initial)
    case Compiled(record) =>
      if v.name in record then Ok(record[v.name]) else Err(NoSuchField(v.name))
  }

  /** `Variable.__set__`: an interpreted particle always accepts the write; a
      compiled one only for a field its record has, and keeps its field set. */
  function Set(s: Storage, name: string, x: Value): (r: Result<Storage, AccessError>)
    ensures r.Err? <==> s.Compiled? && name !in s.record
    ensures r.Ok? ==> r.value.Compiled? == s.Compiled?
    ensures r.Ok? && s.Compiled? ==> r.value.record.Keys == s.record.Keys
  {
    match s
    case Interpreted(attrs) => Ok(Interpreted(attrs[AttrName(name) := x]))
    case Compiled(record) =>
      if name in record then Ok(Compiled(record[name := x])) else Err(NoSuchField(name))
  }

  /** Distinct variable names are stored under distinct attributes. */
  lemma AttrNameInjective(a: string, b: string)
    requires a != b
    ensures AttrName(a) != AttrName(b)
  {
    assert AttrName(a)[1..] == a && AttrName(b)[1..] == b;
  }

  /** After a write, reading the same variable gives the written value, in both variants. */
  lemma ReadAfterWrite(s: Storage, v: Variable, x: Value)
    requires Set(s, v.name, x).Ok?
    ensures Get(Set(s, v.name, x).value, v) == Ok(x)
  {
  }

  /** A write leaves every variable of another name as it read before. */
  lemma WriteLeavesOthers(s: Storage, v: Variable, w: Variable, x: Value)
    requires Set(s, v.name, x).Ok?
    requires v.name != w.name
    ensures Get(Set(s, v.name, x).value, w) == Get(s, w)
  {
    AttrNameInjective(v.name, w.name);
  }

  /** A variable an interpreted particle never wrote reads as its initial value. */
  lemma UnsetReadsInitial(attrs: map<string, Value>, v: Variable)
    requires AttrName(v.name) !in attrs
    ensures Get(Interpreted(attrs), v) == Ok(v.initial)
  {
  }

  // ---------------------------------------------------------------------------
  // Initial values
  // ---------------------------------------------------------------------------

  /** `getInitialValue`: the initial value of the first variable called `name`, or `None`. */
  function InitialValueOf(vs: seq<Variable>, name: string): (r: Value)
    ensures (forall k :: 0 <= k < |vs| ==> vs[k].name != name) ==> r == NoneValue
    ensures forall k ::
      (0 <= k < |vs| && vs[k].name == name && forall j :: 0 <= j < k ==> vs[j].name != name) ==>
      r == vs[k].initial
  {
    if |vs| == 0 then NoneValue
    else if vs[0].name == name then vs[0].initial
    else InitialValueOf(vs[1..], name)
  }

  /** The names of a list of variables. */
  function Names(vs: seq<Variable>): (r: seq<string>)
    ensures |r| == |vs|
    ensures forall k :: 0 <= k < |vs| ==> r[k] == vs[k].name
  {
    if |vs| == 0 then [] else [vs[0].name] + Names(vs[1..])
  }

  /** `ScipyParticle.__init__` overwrites the initial values of `lon`, `lat`,
      `depth`, `time` and `id` with its arguments and that of `dt` with `None`. */
  function WithArguments(v: Variable, lon: Value, lat: Value, depth: Value, time: Value, pid: int)
    : (r: Variable)
    ensures r.name == v.name && r.dtype == v.dtype && r.toWrite == v.toWrite
    ensures v.name == "lon" ==> r.initial == lon
    ensures v.name == "lat" ==> r.initial == lat
    ensures v.name == "depth" ==> r.initial == depth
    ensures v.name == "time" ==> r.initial == time
    ensures v.name == "id" ==> r.initial == Number(pid as real)
    ensures v.name == "dt" ==> r.initial == NoneValue
    ensures v.name !in ["lon", "lat", "depth", "time", "id", "dt"] ==> r == v
  {
    var initial :=
      if v.name == "lon" then lon
      else if v.name == "lat" then lat
      else if v.name == "depth" then depth
      else if v.name == "time" then time
      else if v.name == "id" then Number(pid as real)
      else if v.name == "dt" then NoneValue
      else v.initial;
    Variable(v.name, v.dtype, initial, v.toWrite)
  }

  function BindArguments(vs: seq<Variable>, lon: Value, lat: Value, depth: Value, time: Value, pid: int)
    : (r: seq<Variable>)
    ensures |r| == |vs|
    ensures forall k :: 0 <= k < |vs| ==> r[k] == WithArguments(vs[k], lon, lat, depth, time, pid)
  {
    if |vs| == 0 then []
    else [WithArguments(vs[0], lon, lat, depth, time, pid)] + BindArguments(vs[1..], lon, lat, depth, time, pid)
  }

  /** Why constructing a particle fails. */
  datatype InitError =
    | Layout(error: ConfigError)    // `ptype.dtype` rejected a variable type
    | NoTimeForField                // a Field-valued initial value but no `time`
    | Access(access: AccessError)   // a write to a field the record lacks

  /** Samples field `f` at `[time, depth, lat, lon]`; the field set lies outside this model. */
  type Sampler = (nat, Value, Value, Value, Value) -> Value

  /** The value `_Particle.__init__` computes for variable `v` of the list `all`. */
  function InitValue(all: seq<Variable>, v: Variable, sample: Sampler): (r: Result<Value, InitError>)
    ensures !v.initial.FieldRef? ==> r == Ok(v.initial)
    ensures v.initial.FieldRef? ==> (r.Err? <==> InitialValueOf(all, "time") == NoneValue)
    ensures v.initial.FieldRef? && r.Ok? ==>
      r.value == sample(v.initial.field, InitialValueOf(all, "time"), InitialValueOf(all, "depth"),
                        InitialValueOf(all, "lat"), InitialValueOf(all, "lon"))
    ensures r.Err? ==> r.error == NoTimeForField
  {
    match v.initial
    case FieldRef(f) =>
      var time := InitialValueOf(all, "time");
      if time == NoneValue then Err(NoTimeForField)
      else
        Ok(sample(f, time, InitialValueOf(all, "depth"), InitialValueOf(all, "lat"), InitialValueOf(all, "lon")))
    case _ => Ok(v.initial)
  }

  /** One iteration of the loop: compute the initial value, then store it
      unless the variable is a pointer. */
  function InitStep(all: seq<Variable>, v: Variable, s: Storage, sample: Sampler): Result<Storage, InitError> {
    match InitValue(all, v, sample)
    case Err(e) => Err(e)
    case Ok(x) =>
      if v.dtype == CVoidP then Ok(s)
      else
        match Set(s, v.name, x)
        case Err(e) => Err(Access(e))
        case Ok(s') => Ok(s')
  }

  /** The storage after the loop has visited the first `n` variables of `all`. */
  function InitPrefix(all: seq<Variable>, n: nat, s: Storage, sample: Sampler): Result<Storage, InitError>
    requires n <= |all|
  {
    if n == 0 then Ok(s)
    else
      match InitPrefix(all, n - 1, s, sample)
      case Err(e) => Err(e)
      case Ok(s') => InitStep(all, all[n - 1], s', sample)
  }

  /** The loop of `_Particle.__init__` over the particle type's variables. */
  method InitVariables(all: seq<Variable>, s: Storage, sample: Sampler) returns (r: Result<Storage, InitError>)
    ensures r == InitPrefix(all, |all|, s, sample)
  {
    var storage := s;
    for i := 0 to |all|
      invariant InitPrefix(all, i, s, sample) == Ok(storage)
    {
      var v := all[i];
      var x := InitValue(all, v, sample);
      if x.Err? {
        ErrorPersists(all, i + 1, |all|, s, sample);
        return Err(x.error);
      }
      if v.dtype != CVoidP {
        var written := Set(storage, v.name, x.value);
        if written.Err? {
          ErrorPersists(all, i + 1, |all|, s, sample);
          return Err(Access(written.error));
        }
        storage := written.value;
      }
    }
    r := Ok(storage);
  }

  /** Once the loop has failed it stays failed, with the same error. */
  lemma {:induction false} ErrorPersists(all: seq<Variable>, m: nat, n: nat, s: Storage, sample: Sampler)
    requires m <= n <= |all|
    requires InitPrefix(all, m, s, sample).Err?
    ensures InitPrefix(all, n, s, sample) == InitPrefix(all, m, s, sample)
  {
    if n > m {
      ErrorPersists(all, m, n - 1, s, sample);
    }
  }

  /** A step for a variable of another name leaves `w`'s reading unchanged. */
  lemma StepLeavesOthers(all: seq<Variable>, v: Variable, w: Variable, s: Storage, sample: Sampler)
    requires v.name != w.name
    requires InitStep(all, v, s, sample).Ok?
    ensures Get(InitStep(all, v, s, sample).value, w) == Get(s, w)
  {
    if v.dtype != CVoidP {
      WriteLeavesOthers(s, v, w, InitValue(all, v, sample).value);
    }
  }

  /** A variable whose name no other variable shares, which is not a pointer
      and whose initial value is a plain value, reads back that value once the
      loop has succeeded. */
  lemma InitReadsInitial(all: seq<Variable>, k: nat, s: Storage, sample: Sampler)
    requires k < |all|
    requires forall j :: 0 <= j < |all| && j != k ==> all[j].name != all[k].name
    requires all[k].dtype != CVoidP && !all[k].initial.FieldRef?
    requires InitPrefix(all, |all|, s, sample).Ok?
    ensures Get(InitPrefix(all, |all|, s, sample).value, all[k]) == Ok(all[k].initial)
  {
    InitReadsFrom(all, k, |all|, s, sample);
  }

  lemma {:induction false} InitReadsFrom(all: seq<Variable>, k: nat, n: nat, s: Storage, sample: Sampler)
    requires k < n <= |all|
    requires forall j :: 0 <= j < |all| && j != k ==> all[j].name != all[k].name
    requires all[k].dtype != CVoidP && !all[k].initial.FieldRef?
    requires InitPrefix(all, n, s, sample).Ok?
    ensures Get(InitPrefix(all, n, s, sample).value, all[k]) == Ok(all[k].initial)
  {
    var before := InitPrefix(all, n - 1, s, sample);
    if before.Ok? {
      if n - 1 == k {
        ReadAfterWrite(before.value, all[k], all[k].initial);
      } else {
        InitReadsFrom(all, k, n - 1, s, sample);
        StepLeavesOthers(all, all[n - 1], all[k], before.value, sample);
      }
    }
  }

  /** After a successful initialisation with the constructor's arguments bound,
      a non-pointer `lon`, `lat`, `depth`, `time` or `id` variable whose name no
      other variable shares reads back the argument given for it. */
  lemma InitReadsArguments(vs: seq<Variable>, k: nat, lon: Value, lat: Value, depth: Value, time: Value,
                           pid: int, s: Storage, sample: Sampler)
    requires k < |vs|
    requires forall j :: 0 <= j < |vs| && j != k ==> vs[j].name != vs[k].name
    requires vs[k].dtype != CVoidP
    requires !lon.FieldRef? && !lat.FieldRef? && !depth.FieldRef? && !time.FieldRef?
    requires InitPrefix(BindArguments(vs, lon, lat, depth, time, pid), |vs|, s, sample).Ok?
    ensures var all := BindArguments(vs, lon, lat, depth, time, pid);
      var r := InitPrefix(all, |vs|, s, sample).value;
      (vs[k].name == "lon" ==> Get(r, all[k]) == Ok(lon)) &&
      (vs[k].name == "lat" ==> Get(r, all[k]) == Ok(lat)) &&
      (vs[k].name == "depth" ==> Get(r, all[k]) == Ok(depth)) &&
      (vs[k].name == "time" ==> Get(r, all[k]) == Ok(time)) &&
      (vs[k].name == "id" ==> Get(r, all[k]) == Ok(Number(pid as real)))
  {
    var all := BindArguments(vs, lon, lat, depth, time, pid);
    if vs[k].name in ["lon", "lat", "depth", "time", "id"] {
      assert !all[k].initial.FieldRef?;
      InitReadsInitial(all, k, s, sample);
    }
  }

  /** With no `time`, any Field-valued initial value makes the loop fail. */
  lemma InitFailsWithoutTime(all: seq<Variable>, k: nat, s: Storage, sample: Sampler)
    requires k < |all| && all[k].initial.FieldRef?
    requires InitialValueOf(all, "time") == NoneValue
    ensures InitPrefix(all, |all|, s, sample).Err?
  {
    if InitPrefix(all, k, s, sample).Err? {
      ErrorPersists(all, k, k + 1, s, sample);
    }
    ErrorPersists(all, k + 1, |all|, s, sample);
  }

  // ---------------------------------------------------------------------------
  // The class-wide id high-water mark
  // ---------------------------------------------------------------------------

  /** `lastID = max(lastID, pid)`: never lowered, at least `pid`, and one of the two. */
  function AdvanceLastId(last: int, pid: int): (r: int)
    ensures r >= last && r >= pid
    ensures r == last || r == pid
  {
    if pid > last then pid else last
  }

  /** `_Particle.lastID`, shared by every particle class. */
  class IdLedger {
    var lastID: int

    constructor ()
      ensures lastID == 0
    {
      lastID := 0;
    }

    /** `setLastID`: overwrites the mark unconditionally. */
    method SetLastID(offset: int)
      modifies this
      ensures lastID == offset
    {
      lastID := offset;
    }

    /** The update made by `ScipyParticle.__init__`. */
    method Advance(pid: int)
      modifies this
      ensures lastID == AdvanceLastId(old(lastID), pid)
    {
      lastID := AdvanceLastId(lastID, pid);
    }
  }

  // ---------------------------------------------------------------------------
  // Particles
  // ---------------------------------------------------------------------------

  /** Every particle class derives from `ScipyParticle`, so its type declares these. */
  predicate HasCoreVariables(vs: seq<Variable>) {
    "state" in Names(vs) && "dt" in Names(vs)
  }

  /** The zero record of a type that declares `state` and `dt` has both fields. */
  lemma ZeroRecordHasCoreFields(vs: seq<Variable>)
    requires HasCoreVariables(vs) && StructFields(vs).Ok?
    ensures "state" in ZeroRecord(StructFields(vs).value) && "dt" in ZeroRecord(StructFields(vs).value)
  {
    var fs := StructFields(vs).value;
    assert fs[..|vs|] == Fields(vs);
    var i :| 0 <= i < |vs| && Names(vs)[i] == "state";
    var j :| 0 <= j < |vs| && Names(vs)[j] == "dt";
    assert fs[i].name == "state" && fs[j].name == "dt";
  }

  /** The C record `np.zeros(1, dtype=ptype.dtype)`: every field zero. */
  function ZeroRecord(fs: seq<Field>): (r: map<string, Value>)
    ensures forall n :: n in r <==> exists k :: 0 <= k < |fs| && fs[k].name == n
    ensures forall n :: n in r ==> r[n] == Number(0.0)
  {
    if |fs| == 0 then map[]
    else ZeroRecord(fs[..|fs| - 1])[fs[|fs| - 1].name := Number(0.0)]
  }

  /** The storage a new particle starts from: no attributes for a SciPy
      particle; for a JIT particle a zeroed record of `ptype.dtype`, or the
      error `dtype` raises. */
  function InitialStorage(ptype: ParticleType): (r: Result<Storage, InitError>)
    ensures r.Err? <==> ptype.usesJit && StructFields(ptype.variables).Err?
    ensures !ptype.usesJit ==> r == Ok(Interpreted(map[]))
    ensures ptype.usesJit && r.Ok? ==> r.value == Compiled(ZeroRecord(StructFields(ptype.variables).value))
  {
    if !ptype.usesJit then Ok(Interpreted(map[]))
    else
      match StructFields(ptype.variables)
      case Err(e) => Err(Layout(e))
      case Ok(fs) => Ok(Compiled(ZeroRecord(fs)))
  }

  /** The `dt` update of `update_next_dt`: a value is parked as pending; `None`
      moves a pending value into `dt` and clears it; otherwise nothing changes. */
  function UpdateNextDtSpec(s: Storage, pending: Value, next: Value): Result<(Storage, Value), AccessError> {
    if next != NoneValue then Ok((s, next))
    else if pending == NoneValue then Ok((s, pending))
    else
      match Set(s, "dt", pending)
      case Err(e) => Err(e)
      case Ok(s') => Ok((s', NoneValue))
  }

  /** With an argument, the value is stored as pending and `dt` is untouched. */
  lemma UpdateWithValue(s: Storage, pending: Value, next: Value)
    requires next != NoneValue
    ensures UpdateNextDtSpec(s, pending, next) == Ok((s, next))
  {
  }

  /** With `None` and a pending value, `dt` reads the pending value and nothing is pending. */
  lemma UpdateAppliesPending(s: Storage, pending: Value, dt: Variable)
    requires pending != NoneValue && dt.name == "dt"
    requires s.Compiled? ==> "dt" in s.record
    ensures var r := UpdateNextDtSpec(s, pending, NoneValue);
      r.Ok? && r.value.1 == NoneValue && Get(r.value.0, dt) == Ok(pending)
  {
    ReadAfterWrite(s, dt, pending);
  }

  /** With `None` and nothing pending, nothing changes. */
  lemma UpdateWithNothingPending(s: Storage)
    ensures UpdateNextDtSpec(s, NoneValue, NoneValue) == Ok((s, NoneValue))
  {
  }

  /** Parking a value and then calling with `None` sets `dt` to it, leaves
      every other variable as it was, and leaves nothing pending. */
  lemma UpdateTwoSteps(s: Storage, pending: Value, x: Value, dt: Variable, w: Variable)
    requires x != NoneValue && dt.name == "dt" && w.name != "dt"
    requires s.Compiled? ==> "dt" in s.record
    ensures var first := UpdateNextDtSpec(s, pending, x);
      first.Ok? &&
      var second := UpdateNextDtSpec(first.value.0, first.value.1, NoneValue);
      second.Ok? && second.value.1 == NoneValue &&
      Get(second.value.0, dt) == Ok(x) && Get(second.value.0, w) == Get(s, w)
  {
    ReadAfterWrite(s, dt, x);
    WriteLeavesOthers(s, dt, w, x);
  }

  /** A constructed particle: its type, its storage and its pending timestep. */
  class Particle {
    const ptype: ParticleType
    var storage: Storage
    var nextDt: Value

    /** A compiled particle's record holds the `state` and `dt` fields. */
    ghost predicate Valid()
      reads this
    {
      (storage.Compiled? <==> ptype.usesJit) &&
      (storage.Compiled? ==> "state" in storage.record && "dt" in storage.record)
    }

    /** Wraps storage of the kind the type calls for; `Create` is the
        constructor that computes that storage. */
    constructor (ptype: ParticleType, storage: Storage)
      requires storage.Compiled? <==> ptype.usesJit
      requires storage.Compiled? ==> "state" in storage.record && "dt" in storage.record
      ensures Valid()
      ensures this.ptype == ptype && this.storage == storage && nextDt == NoneValue
    {
      this.ptype := ptype;
      this.storage := storage;
      nextDt := NoneValue;
    }

    /** `ScipyParticle.__init__` (and `JITParticle.__init__` for a JIT type):
        the JIT record is laid out first, so an unsupported type fails before
        `lastID` moves; then `lastID` advances; then every variable is
        initialised, which may still fail. */
    static method Create(ptype: ParticleType, lon: Value, lat: Value, pid: int, depth: Value, time: Value,
                         sample: Sampler, ledger: IdLedger)
      returns (r: Result<Particle, InitError>)
      requires HasCoreVariables(ptype.variables)
      modifies ledger
      ensures InitialStorage(ptype).Err? ==>
        r == Err(InitialStorage(ptype).error) && ledger.lastID == old(ledger.lastID)
      ensures InitialStorage(ptype).Ok? ==>
        ledger.lastID == AdvanceLastId(old(ledger.lastID), pid) &&
        var res := InitPrefix(BindArguments(ptype.variables, lon, lat, depth, time, pid),
                              |ptype.variables|, InitialStorage(ptype).value, sample);
        (r.Err? <==> res.Err?) &&
        (r.Err? ==> r.error == res.error) &&
        (r.Ok? ==> fresh(r.value) && r.value.Valid() && r.value.ptype == ptype &&
                   r.value.nextDt == NoneValue && r.value.storage == res.value)
    {
      var s := Interpreted(map[]);
      if ptype.usesJit {
        var layout := StructFields(ptype.variables);
        if layout.Err? {
          return Err(Layout(layout.error));
        }
        s := Compiled(ZeroRecord(layout.value));
        ZeroRecordHasCoreFields(ptype.variables);
      }
      ledger.Advance(pid);
      var vars := BindArguments(ptype.variables, lon, lat, depth, time, pid);
      var init := InitVariables(vars, s, sample);
      if init.Err? {
        return Err(init.error);
      }
      KeysKept(vars, |vars|, s, sample);
      var p := new Particle(ptype, init.value);
      r := Ok(p);
    }

    /** `delete`: the state becomes `Delete`; nothing else changes. */
    method Delete()
      requires Valid()
      modifies this
      ensures Valid() && storage == Set(old(storage), "state", Code(StatusCode.Delete)).value
      ensures nextDt == old(nextDt)
    {
      storage := Set(storage, "state", Code(StatusCode.Delete)).value;
    }

    /** `reset_state`: the state becomes `Success`; nothing else changes. */
    method ResetState()
      requires Valid()
      modifies this
      ensures Valid() && storage == Set(old(storage), "state", Code(Success)).value
      ensures nextDt == old(nextDt)
    {
      storage := Set(storage, "state", Code(Success)).value;
    }

    /** `update_next_dt(next_dt)`, with `NoneValue` for a missing argument. */
    method UpdateNextDt(next: Value)
      requires Valid()
      modifies this
      ensures Valid()
      ensures UpdateNextDtSpec(old(storage), old(nextDt), next) == Ok((storage, nextDt))
    {
      if next == NoneValue {
        if nextDt != NoneValue {
          storage := Set(storage, "dt", nextDt).value;
          nextDt := NoneValue;
        }
      } else {
        nextDt := next;
      }
    }
  }

  /** A successful initialisation keeps a compiled record's field set, so the
      record still holds `state` and `dt`. */
  lemma {:induction false} KeysKept(all: seq<Variable>, n: nat, s: Storage, sample: Sampler)
    requires n <= |all|
    requires InitPrefix(all, n, s, sample).Ok?
    ensures InitPrefix(all, n, s, sample).value.Compiled? == s.Compiled?
    ensures s.Compiled? ==> InitPrefix(all, n, s, sample).value.record.Keys == s.record.Keys
  {
    if n > 0 {
      if InitPrefix(all, n - 1, s, sample).Ok? {
        KeysKept(all, n - 1, s, sample);
      }
    }
  }
}
