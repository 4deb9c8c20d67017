# Particle records, native kernel libraries and particle identities

This project models, in Dafny, the lowest layer of a Lagrangian
particle-tracking package:

- **Particle layout** (`particle_layout.dfy`, module `ParticleLayout`): the
  `Variable` descriptor (name, type, initial value, write flag; the name `z`
  is refused), and `ParticleType`, which merges a particle class's own
  variables with those of its particle base classes, reorders them with
  every 64-bit variable first, sizes the record (8 bytes per 64-bit variable,
  4 per other one), builds the C struct's field list with a trailing `pad`
  field when the size is not a multiple of 8, rejects unsupported types, and
  names the layout with a `name:type` cache key.
- **Particles** (`particles.dfy`, module `Particles`): a SciPy particle keeps
  each variable in an attribute `_<name>` and falls back to the variable's
  initial value; a JIT particle keeps them in the fields of one zero-filled C
  record. The model covers the descriptor's read and write, the
  initialisation loop of `_Particle.__init__` (including field-sampled
  initial values and the missing-`time` error), the class-wide `lastID`
  high-water mark, and `delete`, `reset_state` and `update_next_dt`.
- **Particle buffer** (`particle_buffer.dfy`, module `ParticleBuffers`): the
  parallel lists of particles and C records, marking positions for removal,
  and `compact`, which removes the marked positions from both lists.
- **Native libraries** (`code_compiler.dfy`, module `CodeCompiler`): the GNU
  compiler's executable choice and flags, the compile command line and the
  texts of its two errors, the compile/load/unload/register life cycle of
  one library (`InterfaceC`), the symbol table `load_functions` builds, and
  the name-to-library registry (`LibraryRegisterC`).
- **Identity generators** (`id_generators.dfy`, module `IdGenerators`): a
  counter with a last-in first-out pool of released identities,
  pre-generation and shuffling of the pool, and a generator that packs a
  grid cell's coordinates and a per-cell counter into a 64-bit identity.

`wrappers.dfy` (`Option`, `Result`, `Outcome`) and `strings.dfy` (joining
and splitting strings) are shared helpers.

Objects whose fields the Python code updates in place are Dafny classes
(`IdGenerator`, `SpecialIdGenerator`, `IdLedger`, `Particle`,
`ParticleBuffer`, `InterfaceC`, `LibraryRegisterC`). Each method's
postcondition ties the new state to a pure function of the old state, and
the properties are proved as lemmas about those functions. The compiler
run, the contents of the log file, opening a shared library, the random
draws of `permuteIDs` and the sampling of a field are not computed by the
model: their outcomes are parameters.

Where the code departs from its apparent intent (its docstrings and
comments), the model follows the code:

- `load_functions` evaluates its condition at
  `wrapping/code_compiler.py:134-137` as Python parses it:
  `(dict and str-name and type-return) or (return-is-None and list-arguments)`,
  left to right with short circuits. A record that satisfies neither operand
  is skipped silently. Examples are a dict whose name is a string and whose
  return is neither a type nor `None`, and `{"name": "f", "return": 5}`,
  which has no `"arguments"` key at all. Other malformed records raise. A
  record that is not a dict raises `TypeError`, because the right operand
  indexes it. A missing key raises `KeyError` only when evaluation reaches
  it. `"name"` is always read from a dict. `"return"` is read when the name
  is a string, and again by the right operand. `"arguments"` is read when the
  return is `None`, or when the record is taken. A record with a `None`
  return and a list of arguments is taken even when its name is not a
  string. `CodeCompiler.Selected` and `CodeCompiler.AddRecord` model this;
  `CodeCompiler.SelectedSkipsUntypedReturn` states the silent skip.
- The registry's `load(name)` always creates `InterfaceC("node")`, whatever
  the name. Every entry therefore compiles `node.c` into the same library
  file.
- The compiler is `mpicc` whenever `mpi4py` imports, even when `CC` is set.

## Model

| member | source | states |
|---|---|---|
| ParticleLayout.NewVariable | particle.py:25-31 | construction fails exactly when the name is `z`, with the reserved-name error; otherwise name, type, initial value and write flag are kept as given |
| ParticleLayout.NewParticleType | particle.py:75-86 | the type keeps the class name and JIT flag; its variables are each base's list put in front of what was gathered, in `__bases__` order, then reordered 64-bit first |
| ParticleLayout.WideAppend | particle.py:85-86 | both halves of the reordering distribute over concatenation |
| ParticleLayout.FilterTwice | particle.py:85-86 | taking the 64-bit (or the other) variables is idempotent, and the two groups are disjoint |
| ParticleLayout.WideFirstPermutes | particle.py:85-86 | the reordered list is a permutation of the merged list (same multiset) |
| ParticleLayout.WideFirstOrdered | particle.py:84-86 | in the reordered list every 64-bit variable precedes every other one |
| ParticleLayout.WideFirstStable | particle.py:85-86 | the reordering is stable: within each group the merged order is kept |
| ParticleLayout.ParticleTypeOrder | particle.py:77-86 | a particle type's variables are a permutation of the inherited-then-own list, 64-bit first, stable within each group |
| ParticleLayout.MergedSingleBase | particle.py:79-83 | with one particle base, the base's variables come before the class's own |
| ParticleLayout.SizeByGroups | particle.py:107-110 | the size is 8 bytes per 64-bit variable plus 4 per other variable |
| ParticleLayout.FirstUnsupported | particle.py:99-101 | finds the first variable whose type is outside the supported list, or none when every type is supported |
| ParticleLayout.StructFields | particle.py:95-105 | building the struct fails exactly when some variable has an unsupported type |
| ParticleLayout.RecordSizeOfFields | particle.py:98-110 | the struct's fields take exactly the bytes `size` counts |
| ParticleLayout.SizeMultipleOf4 | particle.py:107-110 | the size is always a multiple of 4 |
| ParticleLayout.PaddedSizeMultipleOf8 | particle.py:102-105 | the struct has one field more than there are variables (the `pad`) exactly when the size is not a multiple of 8, and the padded struct's size is a multiple of 8 |
| ParticleLayout.PaddedRecordSize | particle.py:104 | the `pad` field adds 4 bytes |
| ParticleLayout.OffsetOfWidePrefix | particle.py:84-86 | a field preceded only by 64-bit fields sits at 8 bytes per preceding field |
| ParticleLayout.OffsetMultipleOf4 | particle.py:107-110 | every field offset is a multiple of 4 |
| ParticleLayout.FieldsAligned | particle.py:84-105 | in the struct of a particle type every field is 4-byte aligned and every 64-bit field is 8-byte aligned |
| ParticleLayout.KeyEntryParses | particle.py:93 | one `name:type` entry splits back into its name and type text |
| ParticleLayout.KeyEntriesPlain | particle.py:93 | no cache-key entry contains the `-` separator, and each splits back into its pair |
| ParticleLayout.CacheKeyRoundTrip | particle.py:91-93 | when names and type texts contain neither `-` nor `:`, the (name, type) pairs can be read back from the cache key |
| ParticleLayout.CacheKeyInjective | particle.py:91-93 | for such names, two variable lists with the same cache key have the same (name, type) pairs in the same order |
| Particles.Get | particle.py:33-39 | a SciPy particle reads its attribute or, if never set, the initial value; a JIT particle reads the record field and fails exactly when the record lacks it |
| Particles.Set | particle.py:41-45 | a SciPy particle always accepts the write; a JIT particle fails exactly when the record lacks the field, and keeps the storage kind and the record's field set |
| Particles.AttrNameInjective | particle.py:39-45 | different variable names are stored under different attributes |
| Particles.ReadAfterWrite | particle.py:33-45 | after a write, reading the same variable gives the written value, in both storage kinds |
| Particles.WriteLeavesOthers | particle.py:33-45 | a write leaves every variable of another name reading as before |
| Particles.UnsetReadsInitial | particle.py:39 | a SciPy particle that never wrote a variable reads its initial value |
| Particles.InitialValueOf | particle.py:155-157 | the initial value of the first variable with that name, or `None` when no variable has it |
| Particles.WithArguments | particle.py:188-194 | the constructor's arguments replace the initial values: `lon`, `lat`, `depth`, `time` take their arguments, `id` the particle id and `dt` `None`; every other variable is unchanged |
| Particles.BindArguments | particle.py:188-194 | the arguments are bound to every variable of the type, position by position |
| Particles.InitValue | particle.py:130-143 | a plain initial value is used as is; a field-valued one fails exactly when there is no `time`, and otherwise is the field sampled at the initial `time`, `depth`, `lat` and `lon` |
| Particles.InitVariables | particle.py:129-146 | the loop returns the storage after every variable is stored (pointers skipped), or the first error |
| Particles.ErrorPersists | particle.py:137-139 | once a step of the loop raises, the loop's result is that error |
| Particles.StepLeavesOthers | particle.py:144-146 | storing one variable leaves variables of other names reading as before |
| Particles.InitReadsInitial | particle.py:142-146 | after a successful initialisation, a non-pointer variable with a unique name and a plain initial value reads back that value |
| Particles.InitReadsArguments | particle.py:185-196 | after a successful construction, `lon`, `lat`, `depth`, `time` and `id` (with unique names, not pointers, plain arguments) read back the constructor's arguments |
| Particles.InitFailsWithoutTime | particle.py:132-139 | any field-valued initial value without a `time` makes the construction fail |
| Particles.AdvanceLastId | particle.py:193 | the new mark is the larger of the old mark and the particle id |
| Particles.IdLedger.constructor | particle.py:124 | the mark starts at 0 |
| Particles.IdLedger.SetLastID | particle.py:159-161 | the mark becomes the given offset |
| Particles.IdLedger.Advance | particle.py:193 | the mark becomes the maximum of itself and the id |
| Particles.ZeroRecord | particle.py:261 | the new record has a field for each struct field name, each holding zero |
| Particles.InitialStorage | particle.py:254-262 | a SciPy particle starts with no attributes; a JIT particle starts with the zero record of its type's struct, and fails exactly when that struct cannot be built |
| Particles.UpdateWithValue | particle.py:231-232 | `update_next_dt(x)` parks `x` and leaves the storage alone |
| Particles.UpdateAppliesPending | particle.py:227-230 | `update_next_dt()` with a parked value sets `dt` to it and clears the parked value |
| Particles.UpdateWithNothingPending | particle.py:226-228 | `update_next_dt()` with nothing parked changes nothing |
| Particles.UpdateTwoSteps | particle.py:226-232 | parking a value then calling with none sets `dt` to that value, clears the parked value and leaves every other variable alone |
| Particles.KeysKept | particle.py:129-146 | initialisation keeps the storage kind and a record's field set |
| Particles.Particle.constructor | particle.py:196 | a particle made from storage of the kind its type uses, holding `state` and `dt`, is valid and has nothing parked |
| Particles.Particle.Create | particle.py:185-196 | an unsupported JIT layout fails before `lastID` moves; otherwise `lastID` advances and the particle holds the storage the initialisation loop computes from the bound arguments, or the loop's error is returned |
| Particles.Particle.Delete | particle.py:214-215 | the state becomes `Delete`; the parked timestep is untouched |
| Particles.Particle.ResetState | particle.py:217-218 | the state becomes `Success`; the parked timestep is untouched |
| Particles.Particle.UpdateNextDt | particle.py:226-232 | the new storage and parked timestep are those the `update_next_dt` rules give |
| ParticleBuffers.SurvivorsSpec | particle.py:339-340 | the surviving positions are exactly the positions outside the removal set, ascending |
| ParticleBuffers.RemoveIndicesSpec | particle.py:340 | after removal, element k is the original element at the k-th surviving position |
| ParticleBuffers.KeepsOrder | particle.py:340 | any two kept elements appear in their original relative order |
| ParticleBuffers.RemovedCount | particle.py:339-340 | the new length is the old one minus the number of distinct marked positions in range |
| ParticleBuffers.RemovalKeepsPairs | particle.py:340-342 | after compaction each particle is still paired with its own record |
| ParticleBuffers.FirstIndex | particle.py:331 | the first position holding the particle, or none exactly when it is absent |
| ParticleBuffers.ParticleBuffer.constructor | particle.py:304-317 | the buffer starts with no particles, no records and no marks |
| ParticleBuffers.ParticleBuffer.Add | particle.py:319-327 | the particle is appended and returned; for a JIT class its record is appended too |
| ParticleBuffers.ParticleBuffer.Invalidate | particle.py:334-336 | an index is recorded exactly when it is a valid position |
| ParticleBuffers.ParticleBuffer.InvalidateParticle | particle.py:330-333 | the first position of the particle is recorded; a particle not in the buffer fails and records nothing |
| ParticleBuffers.ParticleBuffer.Compact | particle.py:338-343 | the marked positions are removed from the particles and, for a JIT class, from the records; the marks are cleared |
| ParticleBuffers.ParticleBuffer.Get | particle.py:348-351 | the particle at a valid position, none elsewhere |
| IdGenerators.Range | package_globals/IdGenerator.py:31 | `range(0, n)`: the integers `0..n-1` in order, empty when `n <= 0` |
| IdGenerators.Permute | package_globals/IdGenerator.py:34-39 | the pop/append cycles keep the pool's length and its multiset of identities |
| IdGenerators.PopAppendKeeps | package_globals/IdGenerator.py:37-38 | one pop/append cycle keeps the pool's length and its multiset of identities |
| IdGenerators.NextSpec | package_globals/IdGenerator.py:13-21 | an empty pool issues the counter and raises it by one; otherwise the last released identity is removed and returned and the counter kept |
| IdGenerators.ReleaseThenNext | package_globals/IdGenerator.py:13-24 | releasing an identity and asking for the next one returns it and restores the state |
| IdGenerators.DrainReleased | package_globals/IdGenerator.py:19-21 | the released identities come back last-released first, and the counter does not move |
| IdGenerators.DrainFresh | package_globals/IdGenerator.py:9-18 | a fresh generator issues `0, 1, ..., k-1` and its counter becomes `k` |
| IdGenerators.DrainCounter | package_globals/IdGenerator.py:15-18 | with an empty pool, `k` calls issue `c, ..., c+k-1` and leave the counter at `c+k` |
| IdGenerators.ReverseRange | package_globals/IdGenerator.py:31 | `range(0, n)` read from the end is `n-1, ..., 0` |
| IdGenerators.DrainSplit | package_globals/IdGenerator.py:13-21 | `j+k` successive calls are `j` calls followed by `k` calls |
| IdGenerators.PreGenerateOrder | package_globals/IdGenerator.py:26-32 | after `preGenerateIDs(n)` the next `n` calls return `n-1, ..., 0` and the one after returns `n` |
| IdGenerators.ReversePreservesElements | package_globals/IdGenerator.py:20 | taking identities from the end keeps the multiset of identities |
| IdGenerators.ShuffledPoolIssuesEachOnce | package_globals/IdGenerator.py:26-39 | after pre-generating `n` and any shuffle, the next `n` calls return each of `0..n-1` exactly once |
| IdGenerators.RangeCount | package_globals/IdGenerator.py:31 | each of `0..n-1` occurs once in `range(0, n)` |
| IdGenerators.IdGenerator.constructor | package_globals/IdGenerator.py:9-11 | an empty pool and a zero counter |
| IdGenerators.IdGenerator.NextID | package_globals/IdGenerator.py:13-21 | the new state and the identity are those of `nextID` on the pool |
| IdGenerators.IdGenerator.ReleaseID | package_globals/IdGenerator.py:23-24 | the identity is appended to the pool |
| IdGenerators.IdGenerator.PreGenerateIDs | package_globals/IdGenerator.py:26-32 | the pool becomes `range(0, n)` and the counter `n` |
| IdGenerators.IdGenerator.PermuteIDs | package_globals/IdGenerator.py:34-39 | the pool becomes the given draws' pop/append shuffle of itself; the counter is kept |
| IdGenerators.IdGenerator.Length | package_globals/IdGenerator.py:46-47 | the length is the counter |
| IdGenerators.GetId | package_globals/IdGenerator.py:65-86 | the call succeeds exactly when all four indices are valid NumPy indices on their axes |
| IdGenerators.AxisIndexInside | package_globals/IdGenerator.py:76-80 | every index NumPy accepts, negative ones included, selects a cell inside the grid |
| IdGenerators.GetIdUpdatesOneCell | package_globals/IdGenerator.py:80-81 | exactly one cell's counter goes up by one (wrapping as `int32`), and the identity's low 32 bits are that cell's previous count |
| IdGenerators.GetIdHighWord | package_globals/IdGenerator.py:83-85 | while the count is non-negative as an `int32`, the identity's high 32 bits are the packed coordinates |
| IdGenerators.SuccessiveIdsDifferByOne | package_globals/IdGenerator.py:80-85 | two calls for the same cell return consecutive identities, while the count stays below `2^31 - 1` |
| IdGenerators.PackSuccessor | package_globals/IdGenerator.py:85 | raising a small non-negative count raises the packed identity by one |
| IdGenerators.PackNonNegative | package_globals/IdGenerator.py:84-85 | a non-negative count leaves the high word untouched by sign extension |
| IdGenerators.FieldsDisjoint | package_globals/IdGenerator.py:82-83 | for in-grid indices and a time term below 256, the sum equals the bitwise-or form and each coordinate can be read back from its bits |
| IdGenerators.SpecialIdGenerator.constructor | package_globals/IdGenerator.py:54-57 | every cell counter starts at 0 |
| IdGenerators.SpecialIdGenerator.GetID | package_globals/IdGenerator.py:65-86 | the identity and the new counters are those `getID` gives; an off-grid index fails and changes nothing |
| CodeCompiler.CompilerName | wrapping/code_compiler.py:206-208 | `mpicc` under MPI, otherwise `CC` when set, otherwise `gcc` |
| CodeCompiler.GNUCompilerFlags | wrapping/code_compiler.py:195-209 | compiler flags are the five fixed ones, the user's, then the architecture flag (`-m64` exactly for 8-byte pointers); linker flags are `-shared`, the user's, then the same architecture flag |
| CodeCompiler.GNUCompilerDefaults | wrapping/code_compiler.py:196-199 | leaving out an argument list is the same as passing an empty one |
| CodeCompiler.CommandLineShape | wrapping/code_compiler.py:169 | the command is the executable, the compiler flags, `-o`, the output, the source, then the linker flags |
| CodeCompiler.Compile | wrapping/code_compiler.py:168-186 | compiling succeeds exactly when the compiler exits normally |
| CodeCompiler.MissingExeNamesCompiler | wrapping/code_compiler.py:174-177 | a missing executable fails with a text that names the compiler and depends on nothing else |
| CodeCompiler.ExitFailureReport | wrapping/code_compiler.py:178-186 | a failing run's error contains the joined command line, the source file, the log file and the log's text |
| CodeCompiler.CompileOnlyOnce | wrapping/code_compiler.py:91-97 | a compiled library is never compiled again; otherwise it ends compiled exactly when the compile succeeds, and nothing else changes |
| CodeCompiler.LoadGuard | wrapping/code_compiler.py:110-114 | opening happens exactly under its guard and when it succeeds; then the handle is stored and the library marked loaded |
| CodeCompiler.UnloadGuard | wrapping/code_compiler.py:103-108 | unloading happens exactly under its guard; it drops the handle and clears the loaded flag |
| CodeCompiler.StepsKeepConsistent | wrapping/code_compiler.py:91-121 | every life-cycle step keeps "loaded exactly while a handle is held, and only once compiled" |
| CodeCompiler.LoadAfterCompile | wrapping/code_compiler.py:110-114 | a compiled library whose opening succeeds ends loaded with a handle |
| CodeCompiler.SelectedOnCompleteRecords | wrapping/code_compiler.py:134-137 | for a dict with all three keys, a record is taken exactly when it has a string name and a type return, or a `None` return and a list of arguments |
| CodeCompiler.SelectedSkipsUntypedReturn | wrapping/code_compiler.py:134-137 | a dict with a string name and a return that is neither a type nor `None` is skipped without error, even without an `"arguments"` key |
| CodeCompiler.AddRecordEffect | wrapping/code_compiler.py:133-140 | one pass of the loop adds exactly the name of a selected record, bound to its symbol, and keeps every other binding |
| CodeCompiler.LoadedKeys | wrapping/code_compiler.py:130-141 | on success, the result's names are exactly those of the selected records, each bound to its library symbol |
| CodeCompiler.LoadErrorPersists | wrapping/code_compiler.py:133-141 | once a record raises, the call raises that error |
| CodeCompiler.RegistryLoadEffect | wrapping/code_compiler.py:32-38 | after `load` the name has an entry, no other entry changed, all entries stay consistent, and a successful compile and open leave it compiled and loaded |
| CodeCompiler.SecondLoadIsIdle | wrapping/code_compiler.py:32-38 | whatever the prior state, after a successful `load` loading the same name again changes nothing, compiles nothing and succeeds, whatever the compiler would do |
| CodeCompiler.RegistryKeepsEntries | wrapping/code_compiler.py:40-65 | `unload`, `register` and `deregister` never add or remove entries and ignore unknown names; `unload` of a consistent entry leaves it not loaded; all three keep every entry consistent |
| CodeCompiler.InterfaceC.constructor | wrapping/code_compiler.py:69-79 | the source, library and log files are named after the base name (`.dll` on Windows, `.so` elsewhere), the compiler is the default GNU one, nothing is compiled or loaded and the count is 0 |
| CodeCompiler.InterfaceC.CompileLibrary | wrapping/code_compiler.py:91-97 | the new state and result are those of the compile step |
| CodeCompiler.InterfaceC.LoadLibrary | wrapping/code_compiler.py:110-114 | the new state and result are those of the open step |
| CodeCompiler.InterfaceC.CompileAndLoad | wrapping/code_compiler.py:35-38 | compile unless compiled, then open unless loaded; a compile failure stops before opening |
| CodeCompiler.InterfaceC.UnloadLibrary | wrapping/code_compiler.py:103-108 | the new state is that of the unload step |
| CodeCompiler.InterfaceC.Register | wrapping/code_compiler.py:116-117 | the count goes up by one; nothing else changes |
| CodeCompiler.InterfaceC.Unregister | wrapping/code_compiler.py:120-121 | the count goes down by one, with no lower bound; nothing else changes |
| CodeCompiler.InterfaceC.LoadFunctions | wrapping/code_compiler.py:124-141 | nothing unless compiled and loaded with a handle; otherwise the symbol table the records give, or the first error |
| CodeCompiler.LibraryRegisterC.constructor | wrapping/code_compiler.py:22-23 | the registry starts empty |
| CodeCompiler.LibraryRegisterC.Entry | wrapping/code_compiler.py:33-34 | a known name keeps its entry; an unknown one gets a new `node` entry in its initial state; no other entry changes |
| CodeCompiler.LibraryRegisterC.AddEntry | wrapping/code_compiler.py:33-34 | a missing name gets a new `InterfaceC("node")` object in its initial state; the other entries and their states are kept |
| CodeCompiler.LibraryRegisterC.Load | wrapping/code_compiler.py:32-38 | the entries' new states and the result are those of `load` on the registry's states; the keys gain exactly `name`, a missing entry is a new object, existing entries stay the same objects, and every entry stays consistent |
| CodeCompiler.LibraryRegisterC.LoadEntry | wrapping/code_compiler.py:35-38 | compiling and opening one existing entry changes only that entry, as `load` prescribes |
| CodeCompiler.LibraryRegisterC.Unload | wrapping/code_compiler.py:40-43 | the entries' new states are those of `unload` on the registry's states |
| CodeCompiler.LibraryRegisterC.Get | wrapping/code_compiler.py:48-53 | the entry for a known name, none for an unknown one |
| CodeCompiler.LibraryRegisterC.Register | wrapping/code_compiler.py:55-59 | a known entry's count goes up by one; an unknown name changes nothing |
| CodeCompiler.LibraryRegisterC.Deregister | wrapping/code_compiler.py:61-65 | a known entry's count goes down by one; an unknown name changes nothing |
| CodeCompiler.LoadTwice | wrapping/code_compiler.py:32-38 | on a registry object, a second `load` of a name whose first `load` succeeded returns success and leaves the entries' states as the first call left them |

## Left out

- File and process I/O: writing the log, running the compiler, reading the
  log back, opening and closing shared libraries (`dlopen`/`dlclose`,
  `FreeLibrary`) and `cleanup_files`. Their outcomes are parameters
  (`RunOutcome`, the log text, the result of opening a library).
- Teardown: `LibraryRegisterC.__del__` and `InterfaceC.__del__`.
  Finalisers are outside a sequential model. `LibraryRegisterC.__del__`
  (wrapping/code_compiler.py:25-30) is written to poll `register_count`
  with `sleep` and then unload each library. But its loop runs over the
  dict's keys, which are library-name strings. So on a non-empty registry
  it raises `AttributeError` at the first key and unloads nothing; Python
  reports and ignores an exception raised in a finaliser. On an empty
  registry it does nothing.
- The `Compiling: ...` header that `compile` writes to the log before the
  run (wrapping/code_compiler.py:171) is taken to be part of the log text
  parameter; whether it is still buffered when the log is read back is not
  modelled.
- `wrap_function`: a small ctypes helper that the core does not call.
- The MPI import, `CC` lookup, `calcsize("P")`, `sys.platform` and the
  package directory are the fields of `Env`.
- `CodeCompiler.LibraryRegisterC.Load`: the state it is proved against is
  each entry's life-cycle state; the library objects themselves (handles to
  loaded code) are abstract `Handle` numbers.
- `CodeCompiler.InterfaceC.LoadFunctions`: `restype`/`argtypes` are
  recorded, not validated by ctypes; a selected record whose name is not a
  string is reported as an error, where Python would look the symbol up by
  ordinal or fail in ctypes.
- `CodeCompiler.IncludeDir` follows POSIX `os.path.join` only.
- `getID` discretisation: the float arithmetic that turns longitude,
  latitude, depth and time into `int32` indices (and `setTimeLine`,
  `setDepthLimits`) is not modelled; the indices and the time term are
  given as 32-bit values. The time term at line 83 is the raw `time`
  argument; the model takes it as an integer, so a fractional time's
  truncation by `np.int64` is not modelled.
- `IdGenerators.IdGenerator.NextID`: the counter is an unbounded integer;
  `int64` wrap-around after `2^63` calls is not modelled.
- `permuteIDs`: the random draws are a parameter (`indices`), each in
  `[0, n)` as `random.randint(0, n, 2*n)` guarantees; the number of draws is
  not fixed to `2n`.
- `Variable.random`, `ScipyParticle.random`, `__repr__`,
  `set_lonlatdepth_dtype` and the buffer's `lonlatdepth_dtype`: random
  values, text rendering and type changes of class attributes.
- `Particles.Get`, `Particles.Set`, `Particles.ReadAfterWrite`: a JIT read
  `_cptr[name]` of a one-element record array returns a length-1 array, not
  a scalar, and a JIT write converts the value to the field's type (a
  `float32` field rounds, an integer field truncates). The model's record
  holds values exactly as written and reads them back as scalars.
- Default arguments: `depth=0.` and `time=0.` of the particle constructor
  (particle.py:185) and `dtype=np.float32, initial=0, to_write=True` of
  `Variable` (particle.py:25) are not modelled as defaults; callers of
  `Particles.Particle.Create` and `ParticleLayout.NewVariable` pass every
  argument.
- Type coercion of initial values (`v.dtype(initial)`, for example
  `np.float32(None)` giving NaN for `dt`, or `np.int32` truncating a float)
  is not modelled: values are stored as given.
- `Particles.InitialValueOf`: the source compares names with `is`; the
  model compares them with `==`, which agrees for the interned literal
  names the constructor uses.
- `Particles.Particle.Create`: the class-level mutation of the `lon`, `lat`,
  `depth`, `time`, `id` and `dt` descriptors' initial values is modelled by
  binding the arguments to every variable of those names in the particle
  type; its effect on later particles of the same class is not modelled.
- Initial values given as `attrgetter` objects are not modelled; field
  sampling is a parameter (`Sampler`), and `computeTimeChunk` is left out.
- JIT-only extras: the `xi`/`yi`/`zi`/`ti` index arrays and their
  pointers, `cdata`, `set_cptr`, `get_cptr`, `reset_cptr`, and a `cptr`
  passed in by the caller. In particular the aliasing between a particle
  and its row of the buffer's record array is not modelled: the buffer
  keeps records as values.
- `ParticleLayout.TypeName`: pointer fields are declared as
  `np.dtype(c_void_p)`, whose text in the cache key is `uint64` on a 64-bit
  platform; the `uint32` text of a 32-bit platform and the text of a bare
  `c_void_p` class are not modelled.
- NumPy specifics of the type checks: `np.dtype(c_void_p)` and `c_void_p`
  are both `CVoidP`; `np.double` is `np.float64`; duplicate field names in
  `np.dtype` (which NumPy rejects) are not checked; the text of an
  unsupported type in the cache key is carried by the type itself.
- `ParticleBuffers.ParticleBuffer.Add`: the model is the intended append.
  As written, `np.concatenate((self.particles, pdata), 0)` at
  particle.py:321 is given a bare particle, a zero-dimensional array, and
  raises on every call.
- `ParticleBuffer.__init__` starts the NumPy arrays with
  `np.empty([])`, a zero-dimensional array; the model starts with empty
  lists. `autocompact` has an empty body.
- The `exception` attribute set to `None` at the end of `_Particle.__init__`.
- `ParticleType.__init__`'s checks that its argument is a particle class
  (`TypeError`): the model takes the class's own variables and the bases'
  variable lists directly.
