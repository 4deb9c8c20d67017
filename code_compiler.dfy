/**
 * The native-library side of the particle kernels: the GNU compiler's command
 * line and error texts, the compile/load/unload/register life cycle of one
 * library (`InterfaceC`), the symbol table `load_functions` builds, and the
 * name-to-library registry (`LibraryRegisterC`).
 *
 * The compiler run, the log file's contents and `dlopen` are outside the
 * model: their outcomes are parameters.
 */
module CodeCompiler {
  import opened Wrappers
  import Strings

  // ---------------------------------------------------------------------------
  // Compiler selection and command line
  // ---------------------------------------------------------------------------

  /** What the process environment tells the compiler setup: whether `mpi4py`
      imported, the `CC` variable, `calcsize("P")`, the package directory, and
      whether `sys.platform` is `win32`. */
  datatype Env = Env(mpi: bool, ccVar: Option<string>, pointerSize: nat, packageDir: string, win32: bool)

  /** A configured compiler: executable, compiler flags and linker flags. */
  datatype CCompiler = CCompiler(cc: string, cppargs: seq<string>, ldargs: seq<string>)

  /** `os.path.join(dir, "include")` on a POSIX path. */
  function IncludeDir(dir: string): string {
    if dir == "" || dir[|dir| - 1] == '/' then dir + "include" else dir + "/include"
  }

  function ArchFlag(env: Env): string {
    if env.pointerSize == 8 then "-m64" else "-m32"
  }

  /** `"mpicc" if MPI else "gcc" if cc_env is None else cc_env`. */
  function CompilerName(env: Env): (cc: string)
    ensures env.mpi ==> cc == "mpicc"
    ensures !env.mpi && env.ccVar.None? ==> cc == "gcc"
    ensures !env.mpi && env.ccVar.Some? ==> cc == env.ccVar.value
  {
    if env.mpi then "mpicc" else if env.ccVar.None? then "gcc" else env.ccVar.value
  }

  /** The fixed flags in front of the user's compiler flags. */
  function BaseFlags(env: Env): seq<string> {
    ["-Wall", "-fPIC", "-I" + IncludeDir(env.packageDir), "-g", "-O3"]
  }

  /** `GNUCompiler.__init__`; a missing argument list is `None`. */
  function GNUCompiler(env: Env, cppargs: Option<seq<string>>, ldargs: Option<seq<string>>): CCompiler {
    var userCpp := if cppargs.Some? then cppargs.value else [];
    var userLd := if ldargs.Some? then ldargs.value else [];
    CCompiler(CompilerName(env), BaseFlags(env) + userCpp + [ArchFlag(env)], ["-shared"] + userLd + [ArchFlag(env)])
  }

  /** The compiler flags are the five fixed ones, the user's, then the
      architecture flag; the linker flags are `-shared`, the user's, then the
      architecture flag; MPI wins over `CC`. */
  lemma GNUCompilerFlags(env: Env, cppargs: seq<string>, ldargs: seq<string>)
    ensures var c := GNUCompiler(env, Some(cppargs), Some(ldargs));
      |c.cppargs| == |cppargs| + 6 &&
      c.cppargs[..5] == ["-Wall", "-fPIC", "-I" + IncludeDir(env.packageDir), "-g", "-O3"] &&
      c.cppargs[5..|c.cppargs| - 1] == cppargs &&
      c.cppargs[|c.cppargs| - 1] in ["-m64", "-m32"] &&
      (c.cppargs[|c.cppargs| - 1] == "-m64" <==> env.pointerSize == 8) &&
      |c.ldargs| == |ldargs| + 2 &&
      c.ldargs[0] == "-shared" && c.ldargs[1..|c.ldargs| - 1] == ldargs &&
      c.ldargs[|c.ldargs| - 1] == c.cppargs[|c.cppargs| - 1] &&
      (env.mpi ==> c.cc == "mpicc")
  {
    var c := GNUCompiler(env, Some(cppargs), Some(ldargs));
    assert c.cppargs == BaseFlags(env) + cppargs + [ArchFlag(env)];
    assert c.cppargs[5..|c.cppargs| - 1] == cppargs;
  }

  /** Leaving an argument list out is the same as passing an empty one. */
  lemma GNUCompilerDefaults(env: Env)
    ensures GNUCompiler(env, None, None) == GNUCompiler(env, Some([]), Some([]))
  {
  }

  /** `[cc] + cppargs + ['-o', obj, src] + ldargs`. */
  function CommandLine(c: CCompiler, src: string, obj: string): seq<string> {
    [c.cc] + c.cppargs + ["-o", obj, src] + c.ldargs
  }

  /** The command line starts with the executable, has the output and source
      right after the compiler flags, and ends with the linker flags. */
  lemma CommandLineShape(c: CCompiler, src: string, obj: string)
    ensures var cmd := CommandLine(c, src, obj);
      |cmd| == |c.cppargs| + |c.ldargs| + 4 &&
      cmd[0] == c.cc &&
      cmd[1..|c.cppargs| + 1] == c.cppargs &&
      cmd[|c.cppargs| + 1..|c.cppargs| + 4] == ["-o", obj, src] &&
      cmd[|c.cppargs| + 4..] == c.ldargs
  {
    var cmd := CommandLine(c, src, obj);
    assert cmd == [c.cc] + (c.cppargs + (["-o", obj, src] + c.ldargs));
  }

  // ---------------------------------------------------------------------------
  // CCompiler.compile
  // ---------------------------------------------------------------------------

  /** How the compiler process ended. */
  datatype RunOutcome = Exited0 | MissingExe | ExitFailure

  const OSErrorText: string := "OSError during compilation\nPlease check if compiler exists: "

  /** `CCompiler.compile(src, obj, log)`: success, or the text of the
      `RuntimeError` it raises. `logText` is what reading the log file back returns. */
  function Compile(c: CCompiler, src: string, obj: string, log: string, run: RunOutcome, logText: string)
    : (r: Outcome<string>)
    ensures r.Pass? <==> run.Exited0?
  {
    match run
    case Exited0 => Pass
    case MissingExe => Fail(OSErrorText + c.cc)
    case ExitFailure =>
      Fail("Error during compilation:\nCompilation command: " + Strings.Join(CommandLine(c, src, obj), " ") +
           "\nSource file: " + src + "\nLog file: " + log + "\n\nLog output: " + logText)
  }

  /** A missing executable is reported by naming the compiler and nothing
      else: the text does not depend on the files or the log. */
  lemma MissingExeNamesCompiler(c: CCompiler, src: string, obj: string, log: string, logText: string,
                                src': string, obj': string, log': string, logText': string)
    ensures Compile(c, src, obj, log, MissingExe, logText).Fail?
    ensures Compile(c, src, obj, log, MissingExe, logText) == Compile(c, src', obj', log', MissingExe, logText')
    ensures Strings.Contains(Compile(c, src, obj, log, MissingExe, logText).error, c.cc)
  {
    Strings.ContainsPiece(OSErrorText, c.cc, "");
    assert OSErrorText + c.cc + "" == OSErrorText + c.cc;
  }

  /** A failing compiler run is reported with the space-joined command line,
      the source file, the log file and the log's text. */
  lemma ExitFailureReport(c: CCompiler, src: string, obj: string, log: string, logText: string)
    ensures var r := Compile(c, src, obj, log, ExitFailure, logText);
      r.Fail? &&
      Strings.Contains(r.error, Strings.Join(CommandLine(c, src, obj), " ")) &&
      Strings.Contains(r.error, src) &&
      Strings.Contains(r.error, log) &&
      Strings.Contains(r.error, logText)
  {
    var cmd := Strings.Join(CommandLine(c, src, obj), " ");
    var head := "Error during compilation:\nCompilation command: ";
    var msg := Compile(c, src, obj, log, ExitFailure, logText).error;
    var afterCmd := "\nSource file: " + src + "\nLog file: " + log + "\n\nLog output: " + logText;
    assert msg == head + cmd + afterCmd;
    Strings.ContainsPiece(head, cmd, afterCmd);
    var beforeSrc := head + cmd + "\nSource file: ";
    var afterSrc := "\nLog file: " + log + "\n\nLog output: " + logText;
    assert msg == beforeSrc + src + afterSrc;
    Strings.ContainsPiece(beforeSrc, src, afterSrc);
    var beforeLog := beforeSrc + src + "\nLog file: ";
    var afterLog := "\n\nLog output: " + logText;
    assert msg == beforeLog + log + afterLog;
    Strings.ContainsPiece(beforeLog, log, afterLog);
    var beforeText := beforeLog + log + "\n\nLog output: ";
    assert msg == beforeText + logText + "";
    Strings.ContainsPiece(beforeText, logText, "");
  }

  // ---------------------------------------------------------------------------
  // The life cycle of one library
  // ---------------------------------------------------------------------------

  /** An open library handle. */
  type Handle = nat

  /** The mutable part of an `InterfaceC`. */
  datatype LibState = LibState(compiled: bool, loaded: bool, libc: Option<Handle>, registerCount: int)

  const Initial := LibState(false, false, None, 0)

  /** The states the life cycle reaches: a handle exactly while loaded, and
      loaded only once compiled. */
  predicate Consistent(st: LibState) {
    (st.loaded <==> st.libc.Some?) && (st.loaded ==> st.compiled)
  }

  /** `compile_library`, given what `compile` would do: a compiled library is
      left alone; otherwise a successful compile sets `compiled` and a failing
      one raises and leaves it unset. */
  function CompileStep(st: LibState, result: Outcome<string>): (LibState, Outcome<string>) {
    if st.compiled then (st, Pass)
    else match result
      case Pass => (st.(compiled := true), Pass)
      case Fail(e) => (st, Fail(e))
  }

  /** `load_library`, given what opening the file would do. */
  function LoadStep(st: LibState, opening: Result<Handle, string>): (LibState, Outcome<string>) {
    if st.libc.None? && st.compiled && !st.loaded then
      match opening
      case Ok(h) => (st.(libc := Some(h), loaded := true), Pass)
      case Err(e) => (st, Fail(e))
    else (st, Pass)
  }

  /** `unload_library`. */
  function UnloadStep(st: LibState): LibState {
    if st.libc.Some? && st.compiled && st.loaded then st.(libc := None, loaded := false) else st
  }

  /** A compiled library is never compiled again, whatever the compiler would
      do; an uncompiled one ends compiled exactly when the compile succeeded,
      and nothing else changes. */
  lemma CompileOnlyOnce(st: LibState, result: Outcome<string>)
    ensures st.compiled ==> CompileStep(st, result) == (st, Pass)
    ensures !st.compiled ==>
      (CompileStep(st, result).0.compiled <==> result.Pass?) &&
      CompileStep(st, result).0.(compiled := false) == st &&
      CompileStep(st, result).1 == result
  {
  }

  /** `load_library` acts exactly under its guard: then it stores the handle
      and sets `loaded`; otherwise (or if opening fails) nothing changes. */
  lemma LoadGuard(st: LibState, opening: Result<Handle, string>)
    ensures var r := LoadStep(st, opening).0;
      (r != st <==> st.libc.None? && st.compiled && !st.loaded && opening.Ok?) &&
      (r != st ==> r == st.(libc := Some(opening.value), loaded := true))
  {
  }

  /** `unload_library` acts exactly under its guard: it drops the handle and clears `loaded`. */
  lemma UnloadGuard(st: LibState)
    ensures (UnloadStep(st) != st <==> st.libc.Some? && st.compiled && st.loaded)
    ensures UnloadStep(st) != st ==> UnloadStep(st) == st.(libc := None, loaded := false)
  {
  }

  /** Every step keeps a consistent state consistent. */
  lemma StepsKeepConsistent(st: LibState, result: Outcome<string>, opening: Result<Handle, string>, delta: int)
    requires Consistent(st)
    ensures Consistent(CompileStep(st, result).0)
    ensures Consistent(LoadStep(st, opening).0)
    ensures Consistent(UnloadStep(st))
    ensures Consistent(st.(registerCount := st.registerCount + delta))
  {
  }

  /** A library that is compiled and consistent ends loaded when opening succeeds. */
  lemma LoadAfterCompile(st: LibState, h: Handle)
    requires Consistent(st) && st.compiled
    ensures LoadStep(st, Ok(h)).0.loaded && LoadStep(st, Ok(h)).0.libc.Some?
  {
  }

  // ---------------------------------------------------------------------------
  // load_functions
  // ---------------------------------------------------------------------------

  /** The Python values a signature record can hold. */
  datatype PyObj = PyStr(s: string) | PyType(typeName: string) | PyNone | PyList(items: seq<PyObj>) | PyOther

  /** An element of `function_param_array`: a dict with string keys, or something else. */
  datatype Record = Dict(entries: map<string, PyObj>) | NotDict(obj: PyObj)

  /** An exception `load_functions` lets through. */
  datatype CallError =
    | KeyMissing(key: string)     // `KeyError`
    | NotSubscriptable            // `TypeError` from indexing a non-dict
    | NonStringName(name: PyObj)  // a selected record whose name is not a string
    | SymbolMissing(symbol: string) // `AttributeError` from the library lookup

  function Lookup(r: Record, key: string): Result<PyObj, CallError> {
    match r
    case NotDict(_) => Err(NotSubscriptable)
    case Dict(entries) => if key in entries then Ok(entries[key]) else Err(KeyMissing(key))
  }

  /** The condition at lines 134-137 as Python parses and evaluates it:
      `(A and B and C) or (D and E)`, left to right with short circuits,
      raising on a missing key or a non-dict. */
  function Selected(r: Record): Result<bool, CallError> {
    var left: Result<bool, CallError> :=
      if !r.Dict? then Ok(false)
      else match Lookup(r, "name")
        case Err(e) => Err(e)
        case Ok(name) =>
          if !name.PyStr? then Ok(false)
          else match Lookup(r, "return")
            case Err(e) => Err(e)
            case Ok(ret) => Ok(ret.PyType?);
    match left
    case Err(e) => Err(e)
    case Ok(true) => Ok(true)
    case Ok(false) =>
      match Lookup(r, "return")
      case Err(e) => Err(e)
      case Ok(ret) =>
        if !ret.PyNone? then Ok(false)
        else match Lookup(r, "arguments")
          case Err(e) => Err(e)
          case Ok(args) => Ok(args.PyList?)
  }

  /** For a dict that has all three keys, the condition is
      `(str name and type return) or (return is None and list arguments)`;
      in particular a `None` return with a list of arguments is taken even
      when the name is not a string. */
  lemma SelectedOnCompleteRecords(entries: map<string, PyObj>)
    requires "name" in entries && "return" in entries && "arguments" in entries
    ensures Selected(Dict(entries)) == Ok(
      (entries["name"].PyStr? && entries["return"].PyType?) ||
      (entries["return"].PyNone? && entries["arguments"].PyList?))
  {
  }

  /** A dict with a string name and a return that is neither a type nor `None`
      is skipped without an error, whatever its arguments are and even when it
      has no `"arguments"` key. */
  lemma SelectedSkipsUntypedReturn(entries: map<string, PyObj>)
    requires "name" in entries && entries["name"].PyStr?
    requires "return" in entries && !entries["return"].PyType? && !entries["return"].PyNone?
    ensures Selected(Dict(entries)) == Ok(false)
    ensures forall acc, lookup :: AddRecord(acc, Dict(entries), lookup) == Ok(acc)
  {
  }

  /** A library symbol, with the `restype` and `argtypes` set on it. */
  datatype CFunction = CFunction(symbol: nat, restype: PyObj, argtypes: PyObj)

  /** The body of the loop for one record: a selected record adds its name,
      bound to the library's symbol with the record's types. */
  function AddRecord(acc: map<string, CFunction>, r: Record, lookup: string -> Option<nat>)
    : Result<map<string, CFunction>, CallError>
  {
    match Selected(r)
    case Err(e) => Err(e)
    case Ok(false) => Ok(acc)
    case Ok(true) =>
      match Lookup(r, "name")
      case Err(e) => Err(e)
      case Ok(name) =>
        if !name.PyStr? then Err(NonStringName(name))
        else if lookup(name.s).None? then Err(SymbolMissing(name.s))
        else match Lookup(r, "return")
          case Err(e) => Err(e)
          case Ok(ret) =>
            match Lookup(r, "arguments")
            case Err(e) => Err(e)
            case Ok(args) => Ok(acc[name.s := CFunction(lookup(name.s).value, ret, args)])
  }

  /** The map after the loop has visited the first `n` records. */
  function LoadPrefix(records: seq<Record>, n: nat, lookup: string -> Option<nat>)
    : Result<map<string, CFunction>, CallError>
    requires n <= |records|
  {
    if n == 0 then Ok(map[])
    else match LoadPrefix(records, n - 1, lookup)
      case Err(e) => Err(e)
      case Ok(acc) => AddRecord(acc, records[n - 1], lookup)
  }

  /** The name a selected record is filed under. */
  predicate SelectedWithName(r: Record, name: string) {
    Selected(r) == Ok(true) && Lookup(r, "name") == Ok(PyStr(name))
  }

  /** One pass of the loop adds exactly the name of a selected record, bound to
      its symbol, and keeps every other binding. */
  lemma AddRecordEffect(acc: map<string, CFunction>, r: Record, lookup: string -> Option<nat>)
    requires AddRecord(acc, r, lookup).Ok?
    ensures forall name :: name in AddRecord(acc, r, lookup).value <==> name in acc || SelectedWithName(r, name)
    ensures forall name :: SelectedWithName(r, name) ==>
      lookup(name).Some? && AddRecord(acc, r, lookup).value[name].symbol == lookup(name).value
    ensures forall name :: name in acc && !SelectedWithName(r, name) ==>
      AddRecord(acc, r, lookup).value[name] == acc[name]
  {
  }

  /** When `load_functions` returns, its keys are exactly the names of the
      records the condition selects, each bound to that name's symbol. */
  lemma {:induction false} LoadedKeys(records: seq<Record>, n: nat, lookup: string -> Option<nat>)
    requires n <= |records|
    requires LoadPrefix(records, n, lookup).Ok?
    ensures forall name :: name in LoadPrefix(records, n, lookup).value <==>
      exists k :: 0 <= k < n && SelectedWithName(records[k], name)
    ensures forall name :: name in LoadPrefix(records, n, lookup).value ==>
      lookup(name).Some? && LoadPrefix(records, n, lookup).value[name].symbol == lookup(name).value
  {
    if n > 0 {
      var before := LoadPrefix(records, n - 1, lookup);
      if before.Ok? {
        LoadedKeys(records, n - 1, lookup);
        AddRecordEffect(before.value, records[n - 1], lookup);
        var after := LoadPrefix(records, n, lookup).value;
        forall name
          ensures name in after <==> exists k :: 0 <= k < n && SelectedWithName(records[k], name)
        {
          if name in after && name !in before.value {
            assert SelectedWithName(records[n - 1], name);
          }
          if exists k :: 0 <= k < n && SelectedWithName(records[k], name) {
            var k :| 0 <= k < n && SelectedWithName(records[k], name);
            if k < n - 1 {
              assert name in before.value;
            }
          }
        }
      }
    }
  }

  /** Once a record raises, the call raises that error. */
  lemma {:induction false} LoadErrorPersists(records: seq<Record>, m: nat, n: nat, lookup: string -> Option<nat>)
    requires m <= n <= |records|
    requires LoadPrefix(records, m, lookup).Err?
    ensures LoadPrefix(records, n, lookup) == LoadPrefix(records, m, lookup)
  {
    if n > m {
      LoadErrorPersists(records, m, n - 1, lookup);
    }
  }

  // ---------------------------------------------------------------------------
  // InterfaceC
  // ---------------------------------------------------------------------------

  function LibFileName(base: string, env: Env): string {
    base + "." + (if env.win32 then "dll" else "so")
  }

  /** One native library: its files, its compiler and its life-cycle state. */
  class InterfaceC {
    const srcFile: string
    const libFile: string
    const logFile: string
    const compiler: CCompiler
    var compiled: bool
    var loaded: bool
    var libc: Option<Handle>
    var registerCount: int

    function State(): LibState
      reads this
    {
      LibState(compiled, loaded, libc, registerCount)
    }

    /** `InterfaceC(c_file_name)`: files named after the base name, a default
        GNU compiler, nothing compiled or loaded, no registrations. */
    constructor (cFileName: string, env: Env)
      ensures srcFile == cFileName + ".c" && libFile == LibFileName(cFileName, env)
      ensures logFile == cFileName + ".log"
      ensures compiler == GNUCompiler(env, None, None)
      ensures State() == Initial
    {
      srcFile := cFileName + ".c";
      libFile := LibFileName(cFileName, env);
      logFile := cFileName + ".log";
      compiler := GNUCompiler(env, None, None);
      compiled, loaded, libc, registerCount := false, false, None, 0;
    }

    /** What compiling this library's files would give. */
    function CompileResult(run: RunOutcome, logText: string): Outcome<string> {
      Compile(compiler, srcFile, libFile, logFile, run, logText)
    }

    method CompileLibrary(run: RunOutcome, logText: string) returns (r: Outcome<string>)
      modifies this
      ensures (State(), r) == CompileStep(old(State()), CompileResult(run, logText))
    {
      r := Pass;
      if !compiled {
        r := CompileResult(run, logText);
        if r.Pass? {
          compiled := true;
        }
      }
    }

    method LoadLibrary(opening: Result<Handle, string>) returns (r: Outcome<string>)
      modifies this
      ensures (State(), r) == LoadStep(old(State()), opening)
    {
      r := Pass;
      if libc.None? && compiled && !loaded {
        match opening
        case Err(e) =>
          r := Fail(e);
        case Ok(h) =>
          libc := Some(h);
          loaded := true;
      }
    }

    /** The part of the registry's `load` that works on one entry: compile
        unless compiled, then open unless loaded. */
    method CompileAndLoad(run: RunOutcome, logText: string, opening: Result<Handle, string>)
      returns (r: Outcome<LibError>)
      modifies this
      ensures (State(), r) == EntryLoad(old(State()), CompileResult(run, logText), opening)
    {
      if !compiled {
        var c := CompileLibrary(run, logText);
        if c.Fail? {
          return Fail(CompileFailed(c.error));
        }
      }
      r := Pass;
      if !loaded {
        var l := LoadLibrary(opening);
        if l.Fail? {
          r := Fail(LoadFailed(l.error));
        }
      }
    }

    method UnloadLibrary()
      modifies this
      ensures State() == UnloadStep(old(State()))
    {
      if libc.Some? && compiled && loaded {
        libc := None;
        loaded := false;
      }
    }

    method Register()
      modifies this
      ensures State() == old(State()).(registerCount := old(registerCount) + 1)
    {
      registerCount := registerCount + 1;
    }

    method Unregister()
      modifies this
      ensures State() == old(State()).(registerCount := old(registerCount) - 1)
    {
      registerCount := registerCount - 1;
    }

    /** `load_functions(records)`: nothing unless the library is compiled and
        loaded; otherwise the selected records' names bound to their symbols,
        or the first exception a record raises. */
    method LoadFunctions(records: seq<Record>, lookup: string -> Option<nat>)
      returns (r: Result<map<string, CFunction>, CallError>)
      ensures libc.None? || !compiled || !loaded ==> r == Ok(map[])
      ensures libc.Some? && compiled && loaded ==> r == LoadPrefix(records, |records|, lookup)
    {
      if libc.None? || !compiled || !loaded {
        return Ok(map[]);
      }
      var result: map<string, CFunction> := map[];
      for i := 0 to |records|
        invariant LoadPrefix(records, i, lookup) == Ok(result)
      {
        var step := AddRecord(result, records[i], lookup);
        if step.Err? {
          LoadErrorPersists(records, i + 1, |records|, lookup);
          return Err(step.error);
        }
        result := step.value;
      }
      r := Ok(result);
    }
  }

  // ---------------------------------------------------------------------------
  // LibraryRegisterC
  // ---------------------------------------------------------------------------

  /** An error `load` lets through: from the compiler or from opening the library. */
  datatype LibError = CompileFailed(message: string) | LoadFailed(message: string)

  /** What compiling the shared `node` library would give. */
  function NodeCompile(env: Env, run: RunOutcome, logText: string): Outcome<string> {
    Compile(GNUCompiler(env, None, None), "node.c", LibFileName("node", env), "node.log", run, logText)
  }

  /** `load(name)` on the registry's states: create a fresh `node` entry when
      the name is new, compile it unless compiled, open it unless loaded. A
      failure leaves the entry in the map as far as it got. */
  function RegistryLoad(m: map<string, LibState>, name: string, compiled: Outcome<string>,
                        opening: Result<Handle, string>)
    : (map<string, LibState>, Outcome<LibError>)
  {
    var entry := EntryLoad(if name in m then m[name] else Initial, compiled, opening);
    (m[name := entry.0], entry.1)
  }

  /** `load` on one entry: compile unless compiled, then open unless loaded. */
  function EntryLoad(st: LibState, compiled: Outcome<string>, opening: Result<Handle, string>)
    : (LibState, Outcome<LibError>)
  {
    var (st1, c) := if !st.compiled then CompileStep(st, compiled) else (st, Pass);
    if c.Fail? then (st1, Fail(CompileFailed(c.error)))
    else
      var (st2, l) := if !st1.loaded then LoadStep(st1, opening) else (st1, Pass);
      (st2, if l.Fail? then Fail(LoadFailed(l.error)) else Pass)
  }

  /** `unload(name)`: unloads a known entry and keeps it; ignores an unknown name. */
  function RegistryUnload(m: map<string, LibState>, name: string): map<string, LibState> {
    if name in m then m[name := UnloadStep(m[name])] else m
  }

  /** `register`/`deregister(name)`: move a known entry's count; ignore an unknown name. */
  function RegistryCount(m: map<string, LibState>, name: string, delta: int): map<string, LibState> {
    if name in m then m[name := m[name].(registerCount := m[name].registerCount + delta)] else m
  }

  predicate AllConsistent(m: map<string, LibState>) {
    forall n :: n in m ==> Consistent(m[n])
  }

  /** After `load` the name has an entry and no other entry changed; when the
      compiler and the loader succeed, the entry is compiled and loaded. */
  lemma RegistryLoadEffect(m: map<string, LibState>, name: string, compiled: Outcome<string>,
                           opening: Result<Handle, string>)
    requires AllConsistent(m)
    ensures var (m', r) := RegistryLoad(m, name, compiled, opening);
      m'.Keys == m.Keys + {name} &&
      (forall n :: n in m && n != name ==> m'[n] == m[n]) &&
      AllConsistent(m') &&
      (compiled.Pass? && opening.Ok? ==> r.Pass? && m'[name].compiled && m'[name].loaded)
  {
    var st := if name in m then m[name] else Initial;
    assert Consistent(st);
    var (st1, c) := if !st.compiled then CompileStep(st, compiled) else (st, Pass);
    StepsKeepConsistent(st, compiled, opening, 0);
    if c.Pass? {
      StepsKeepConsistent(st1, compiled, opening, 0);
    }
  }

  /** A second `load` of a loaded name neither compiles nor opens anything:
      whatever the compiler and loader would do, nothing changes. */
  lemma SecondLoadIsIdle(m: map<string, LibState>, name: string, compiled: Outcome<string>,
                         opening: Result<Handle, string>, compiled2: Outcome<string>, opening2: Result<Handle, string>)
    requires RegistryLoad(m, name, compiled, opening).1.Pass?
    ensures var m1 := RegistryLoad(m, name, compiled, opening).0;
      RegistryLoad(m1, name, compiled2, opening2) == (m1, Pass)
  {
    var m1 := RegistryLoad(m, name, compiled, opening).0;
    var st := if name in m then m[name] else Initial;
    assert m1[name] == EntryLoad(st, compiled, opening).0;
    assert m1[name].compiled;
    assert m1[name := m1[name]] == m1;
  }

  /** `unload` and the counters never add or remove entries. */
  lemma RegistryKeepsEntries(m: map<string, LibState>, name: string, delta: int)
    ensures RegistryUnload(m, name).Keys == m.Keys
    ensures RegistryCount(m, name, delta).Keys == m.Keys
    ensures name !in m ==> RegistryUnload(m, name) == m && RegistryCount(m, name, delta) == m
    ensures name in m ==> !RegistryUnload(m, name)[name].loaded || !m[name].compiled || m[name].libc.None?
    ensures name in m && Consistent(m[name]) ==> !RegistryUnload(m, name)[name].loaded
    ensures AllConsistent(m) ==> AllConsistent(RegistryUnload(m, name)) && AllConsistent(RegistryCount(m, name, delta))
  {
    if name in m && Consistent(m[name]) {
      StepsKeepConsistent(m[name], Pass, Err(""), delta);
    }
  }

  /** `load` on the registry's states is `load` on the named entry's state. */
  lemma RegistryLoadFromEntry(m: map<string, LibState>, name: string, compiled: Outcome<string>,
                              opening: Result<Handle, string>, st: LibState, r: Outcome<LibError>)
    requires (st, r) == EntryLoad(if name in m then m[name] else Initial, compiled, opening)
    ensures RegistryLoad(m, name, compiled, opening) == (m[name := st], r)
  {
  }

  /** Creating the missing entry first does not change what `load` does. */
  lemma RegistryLoadAfterEntry(m: map<string, LibState>, name: string, compiled: Outcome<string>,
                               opening: Result<Handle, string>)
    ensures var m' := m[name := if name in m then m[name] else Initial];
      RegistryLoad(m', name, compiled, opening) == RegistryLoad(m, name, compiled, opening)
  {
    var m' := m[name := if name in m then m[name] else Initial];
    assert m'[name := RegistryLoad(m, name, compiled, opening).0[name]] == RegistryLoad(m, name, compiled, opening).0;
  }

  /** Setting one entry to a consistent state keeps the whole map consistent. */
  lemma AllConsistentUpdate(m: map<string, LibState>, name: string, st: LibState)
    requires AllConsistent(m) && Consistent(st)
    ensures AllConsistent(m[name := st])
  {
  }

  /** The registry: library name to its `InterfaceC`. */
  class LibraryRegisterC {
    var data: map<string, InterfaceC>
    const env: Env

    /** Every entry is its own object and was made as `InterfaceC("node")`. */
    ghost predicate WellFormed()
      reads this
    {
      (forall a, b :: a in data && b in data && a != b ==> data[a] != data[b]) &&
      (forall n :: n in data ==>
        data[n].srcFile == "node.c" && data[n].libFile == LibFileName("node", env) &&
        data[n].logFile == "node.log" && data[n].compiler == GNUCompiler(env, None, None))
    }

    /** Well formed, and every entry's life-cycle state is consistent. */
    ghost predicate Valid()
      reads this, data.Values
    {
      WellFormed() && AllConsistent(Snapshot())
    }

    /** The entries' states. */
    ghost function Snapshot(): map<string, LibState>
      reads this, data.Values
    {
      map n | n in data :: data[n].State()
    }

    constructor (env: Env)
      ensures Valid() && this.env == env && data == map[]
    {
      this.env := env;
      data := map[];
    }

    /** Lines 33-34: the entry for `name`, created as `InterfaceC("node")` when missing. */
    method Entry(name: string) returns (e: InterfaceC)
      requires Valid()
      modifies this
      ensures Valid() && name in data && e == data[name]
      ensures name in old(data) ==> e.State() == old(Snapshot())[name]
      ensures name !in old(data) ==> e.State() == Initial
      ensures Snapshot() == old(Snapshot())[name := e.State()]
      ensures forall n :: n in old(data) ==> n in data && data[n] == old(data[n])
      ensures data.Keys == old(data).Keys + {name}
      ensures name in old(data) ==> e == old(data)[name]
      ensures name !in old(data) ==> fresh(e)
      ensures e.srcFile == "node.c" && e.libFile == LibFileName("node", env) && e.logFile == "node.log"
      ensures e.compiler == GNUCompiler(env, None, None)
    {
      if name !in data {
        e := AddEntry(name);
      } else {
        e := data[name];
        assert old(Snapshot())[name := e.State()] == old(Snapshot());
      }
    }

    /** Line 34 for a missing name: a new `InterfaceC("node")` is stored under it. */
    method AddEntry(name: string) returns (e: InterfaceC)
      requires Valid() && name !in data
      modifies this
      ensures Valid() && fresh(e) && data == old(data)[name := e]
      ensures e.State() == Initial && Snapshot() == old(Snapshot())[name := Initial]
      ensures e.srcFile == "node.c" && e.libFile == LibFileName("node", env) && e.logFile == "node.log"
      ensures e.compiler == GNUCompiler(env, None, None)
    {
      ghost var before := Snapshot();
      e := new InterfaceC("node", env);
      assert e.srcFile == "node.c" && e.logFile == "node.log";
      data := data[name := e];
      assert Snapshot() == before[name := Initial] by {
        forall n | n in data
          ensures Snapshot()[n] == before[name := Initial][n]
        {
          if n != name {
            assert data[n] == old(data)[n];
          }
        }
      }
      AllConsistentUpdate(before, name, Initial);
    }

    method Load(name: string, run: RunOutcome, logText: string, opening: Result<Handle, string>)
      returns (r: Outcome<LibError>)
      requires Valid()
      modifies this, data.Values
      ensures Valid()
      ensures (Snapshot(), r) == RegistryLoad(old(Snapshot()), name, NodeCompile(env, run, logText), opening)
      ensures forall n :: n in old(data) ==> n in data && data[n] == old(data[n])
      ensures data.Keys == old(data).Keys + {name}
      ensures name !in old(data) ==> fresh(data[name])
    {
      ghost var before := Snapshot();
      var e := Entry(name);
      r := LoadEntry(name, run, logText, opening);
      RegistryLoadAfterEntry(before, name, NodeCompile(env, run, logText), opening);
    }

    /** Lines 35-38: compile the entry unless compiled, then open it unless loaded. */
    method LoadEntry(name: string, run: RunOutcome, logText: string, opening: Result<Handle, string>)
      returns (r: Outcome<LibError>)
      requires Valid() && name in data
      modifies data[name]
      ensures Valid() && data == old(data)
      ensures (Snapshot(), r) == RegistryLoad(old(Snapshot()), name, NodeCompile(env, run, logText), opening)
    {
      ghost var before := Snapshot();
      var e := data[name];
      assert before[name] == e.State();
      assert e.CompileResult(run, logText) == NodeCompile(env, run, logText);
      r := e.CompileAndLoad(run, logText, opening);
      assert Snapshot() == before[name := e.State()] by {
        forall n | n in data
          ensures Snapshot()[n] == before[name := e.State()][n]
        {
          if n != name {
            assert data[n] != e;
          }
        }
      }
      AllConsistentUpdate(before, name, e.State());
      RegistryLoadFromEntry(before, name, NodeCompile(env, run, logText), opening, e.State(), r);
    }

    method Unload(name: string)
      requires Valid()
      modifies data.Values
      ensures Valid()
      ensures Snapshot() == RegistryUnload(old(Snapshot()), name)
    {
      ghost var before := Snapshot();
      if name in data {
        var e := data[name];
        e.UnloadLibrary();
        assert Snapshot() == before[name := e.State()];
      }
    }

    /** `get(name)`: the entry, or `None` for an unknown name. */
    method Get(name: string) returns (r: Option<InterfaceC>)
      ensures r.Some? <==> name in data
      ensures r.Some? ==> r.value == data[name]
    {
      if name in data {
        return Some(data[name]);
      }
      return None;
    }

    method Register(name: string)
      requires Valid()
      modifies data.Values
      ensures Valid()
      ensures Snapshot() == RegistryCount(old(Snapshot()), name, 1)
    {
      ghost var before := Snapshot();
      if name in data {
        var e := data[name];
        e.Register();
        assert Snapshot() == before[name := e.State()];
      }
    }

    method Deregister(name: string)
      requires Valid()
      modifies data.Values
      ensures Valid()
      ensures Snapshot() == RegistryCount(old(Snapshot()), name, -1)
    {
      ghost var before := Snapshot();
      if name in data {
        var e := data[name];
        e.Unregister();
        assert Snapshot() == before[name := e.State()];
      }
    }
  }

  /** Two `load` calls of one name in a row: once the first has succeeded,
      the second succeeds without compiling or opening anything, whatever the
      compiler and the loader would do. */
  method LoadTwice(reg: LibraryRegisterC, name: string,
                   run: RunOutcome, logText: string, opening: Result<Handle, string>,
                   run2: RunOutcome, logText2: string, opening2: Result<Handle, string>)
    returns (r1: Outcome<LibError>, r2: Outcome<LibError>)
    requires reg.Valid()
    modifies reg, reg.data.Values
    ensures reg.Valid()
    ensures r1 == RegistryLoad(old(reg.Snapshot()), name, NodeCompile(reg.env, run, logText), opening).1
    ensures r1.Pass? ==>
      r2 == Pass &&
      reg.Snapshot() == RegistryLoad(old(reg.Snapshot()), name, NodeCompile(reg.env, run, logText), opening).0
  {
    r1 := reg.Load(name, run, logText, opening);
    r2 := reg.Load(name, run2, logText2, opening2);
    if r1.Pass? {
      SecondLoadIsIdle(old(reg.Snapshot()), name, NodeCompile(reg.env, run, logText), opening,
                       NodeCompile(reg.env, run2, logText2), opening2);
    }
  }
}
