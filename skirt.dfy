/** `pts.simulation.skirt`: the command line with which a SKIRT executable is launched, and the
    remembered process of an asynchronous run. Path resolution (`pts.utils.path`), the file system
    and the operating system's processes are parameters: the resolved paths, whether a file exists,
    the handle a launch returns and whether a process has exited. */
module SkirtRuns {
  import opened Wrappers
  import opened PyStrings

  /** A launched SKIRT process (`subprocess.Popen`). */
  datatype Process = Process(id: nat)

  /** `numProcesses`: a number of MPI processes, or the name of a batch queueing system. */
  datatype ProcessCount = Count(n: int) | Queue(name: string)

  /** The path helpers the code calls: `absolute`, `.parent` and the `/` join. */
  datatype Paths = Paths(absolute: string -> string, parent: string -> string, join: (string, string) -> string)

  /** The `Simulation` returned by `execute`, with the command line that was launched. */
  datatype Run = Run(skiFile: string, inPath: string, outPath: string, process: Option<Process>, arguments: seq<string>)

  datatype SkirtError =
    | NoDefaultExecutable  // "Cannot locate default SKIRT executable ..."
    | NoSuchExecutable     // "Specified SKIRT executable does not exist"
    | StillRunning         // "Calling execute on SKIRT object that is still executing"
    | UnsupportedQueue     // "Unsupported string value for numProcesses"

  /** The MPI launcher in front of the executable. */
  function MpiPrefix(procs: ProcessCount): (r: Result<seq<string>, SkirtError>)
    ensures procs == Queue("lsf") ==> r == Ok(["mpirun", "-lsf"])
    ensures procs == Queue("srun") ==> r == Ok(["mpirun", "-srun"])
    ensures r.Err? <==> procs.Queue? && procs.name != "lsf" && procs.name != "srun"
    ensures r.Err? ==> r.error == UnsupportedQueue
    ensures procs.Count? && procs.n > 1 ==> r == Ok(["mpirun", "-np", IntToString(procs.n)])
    ensures procs.Count? && procs.n <= 1 ==> r == Ok([])
  {
    match procs
    case Queue(name) =>
      if name == "lsf" then Ok(["mpirun", "-lsf"])
      else if name == "srun" then Ok(["mpirun", "-srun"])
      else Err(UnsupportedQueue)
    case Count(n) =>
      if n > 1 then Ok(["mpirun", "-np", IntToString(n)]) else Ok([])
  }

  /** The MPI launcher is "mpirun" or nothing at all. */
  lemma MpiLauncher(procs: ProcessCount)
    requires MpiPrefix(procs).Ok?
    ensures var p := MpiPrefix(procs).value;
      (|p| == 0 <==> procs.Count? && procs.n <= 1) && (|p| > 0 ==> p[0] == "mpirun" && 2 <= |p| <= 3)
  {
  }

  /** The input and output directories: relative to the ski file's directory with `skiRelative`,
      else to the current directory. */
  function IoPaths(ski: string, inDir: string, outDir: string, skiRelative: bool, paths: Paths): (string, string) {
    if skiRelative then
      var base := paths.parent(paths.absolute(ski));
      (paths.absolute(paths.join(base, inDir)), paths.absolute(paths.join(base, outDir)))
    else
      (paths.absolute(inDir), paths.absolute(outDir))
  }

  /** Without `skiRelative` the directories do not depend on the ski file; with it they depend on
      the ski file's directory only. */
  lemma IoPathsDependence(ski1: string, ski2: string, inDir: string, outDir: string, skiRelative: bool, paths: Paths)
    requires skiRelative ==> paths.parent(paths.absolute(ski1)) == paths.parent(paths.absolute(ski2))
    ensures IoPaths(ski1, inDir, outDir, skiRelative, paths) == IoPaths(ski2, inDir, outDir, skiRelative, paths)
  {
  }

  /** The parallelization and logging options, in this order: "-t" n, "-v", "-b". */
  function OptionFlags(threads: int, verbose: bool, console: string, wait: bool): seq<string> {
    (if threads > 0 then ["-t", IntToString(threads)] else [])
      + (if verbose then ["-v"] else [])
      + (if console != "regular" || !wait then ["-b"] else [])
  }

  /** Each flag is present exactly under its condition, the thread count follows "-t", and the
      flags come in the order "-t", "-v", "-b". */
  lemma OptionFlagsSpec(threads: int, verbose: bool, console: string, wait: bool)
    ensures var f := OptionFlags(threads, verbose, console, wait);
      && ("-t" in f <==> threads > 0)
      && ("-v" in f <==> verbose)
      && ("-b" in f <==> console != "regular" || !wait)
      && (threads > 0 ==> f[0] == "-t" && f[1] == IntToString(threads) && ParseInt(f[1]) == Some(threads))
      && (verbose ==> f[if threads > 0 then 2 else 0] == "-v")
      && ((console != "regular" || !wait) ==> f[|f| - 1] == "-b")
      && |f| == (if threads > 0 then 2 else 0) + (if verbose then 1 else 0) + (if console != "regular" || !wait then 1 else 0)
  {
    if threads > 0 {
      IntRoundTrip(threads);
      NotAFlag(threads);
    }
  }

  /** The printed thread count is not one of the flags. */
  lemma NotAFlag(n: int)
    requires n > 0
    ensures IntToString(n) != "-t" && IntToString(n) != "-v" && IntToString(n) != "-b"
  {
    var s := IntToString(n);
    assert IsDigit(s[0]);
  }

  /** A SKIRT executable, and the process of the latest asynchronous run while it is remembered. */
  class Skirt {
    var path: string
    var process: Option<Process>

    constructor Init(path: string)
      ensures this.path == path && process.None?
    {
      this.path := path;
      process := None;
    }

    /** The constructor: without a path, the executable located in the project structure (if
        any); with a path, that path made absolute, which must be an existing file. */
    static method Create(path: Option<string>, located: Option<string>, paths: Paths, isFile: string -> bool)
      returns (r: Result<Skirt, SkirtError>)
      ensures path.None? ==> (r.Ok? <==> located.Some?) && (r.Err? ==> r.error == NoDefaultExecutable)
      ensures path.None? && r.Ok? ==> r.value.path == located.value
      ensures path.Some? ==> (r.Ok? <==> isFile(paths.absolute(path.value))) && (r.Err? ==> r.error == NoSuchExecutable)
      ensures path.Some? && r.Ok? ==> r.value.path == paths.absolute(path.value)
      ensures r.Ok? ==> fresh(r.value) && r.value.process.None?
    {
      var exe: string;
      if path.None? {
        if located.None? {
          return Err(NoDefaultExecutable);
        }
        exe := located.value;
      } else {
        exe := paths.absolute(path.value);
        if !isFile(exe) {
          return Err(NoSuchExecutable);
        }
      }
      var s := new Skirt.Init(exe);
      return Ok(s);
    }

    /** `isRunning`, given whether the remembered process has exited (`poll()` is not None): true
        while it runs; once it has exited it is forgotten. */
    method IsRunning(exited: bool) returns (running: bool)
      modifies this
      ensures path == old(path)
      ensures running <==> old(process).Some? && !exited
      ensures process == (if running then old(process) else None)
    {
      if process.Some? {
        if !exited {
          return true;
        }
        process := None;
      }
      return false;
    }

    /** `execute`: refuses while a remembered process still runs; otherwise builds the command line
        (MPI launcher, executable, ski file, "-i" and "-o" directories, then the options), and
        remembers the launched process only for an asynchronous run. */
    method Execute(ski: string, inDir: string, outDir: string, skiRelative: bool, threads: int,
                   procs: ProcessCount, verbose: bool, wait: bool, console: string,
                   paths: Paths, exited: bool, launched: Process)
      returns (r: Result<Run, SkirtError>)
      modifies this
      ensures path == old(path)
      ensures old(process).Some? && !exited ==> r == Err(StillRunning) && process == old(process)
      ensures !(old(process).Some? && !exited) && MpiPrefix(procs).Err? ==> r == Err(UnsupportedQueue) && process.None?
      ensures r.Ok? <==> !(old(process).Some? && !exited) && MpiPrefix(procs).Ok?
      ensures r.Ok? ==>
        var io := IoPaths(ski, inDir, outDir, skiRelative, paths);
        && r.value == Run(ski, io.0, io.1, process, r.value.arguments)
        && r.value.arguments == MpiPrefix(procs).value + [path, paths.absolute(ski), "-i", io.0, "-o", io.1]
                                + OptionFlags(threads, verbose, console, wait)
        && process == (if wait then None else Some(launched))
    {
      var running := IsRunning(exited);
      if running {
        return Err(StillRunning);
      }
      var prefix := MpiPrefix(procs);
      if prefix.Err? {
        return Err(prefix.error);
      }
      var arguments := prefix.value;
      arguments := arguments + [path];
      arguments := arguments + [paths.absolute(ski)];
      var io := IoPaths(ski, inDir, outDir, skiRelative, paths);
      arguments := arguments + ["-i", io.0];
      arguments := arguments + ["-o", io.1];
      ghost var fixed := arguments;
      assert fixed == prefix.value + [path, paths.absolute(ski), "-i", io.0, "-o", io.1];
      if threads > 0 {
        arguments := arguments + ["-t", IntToString(threads)];
      }
      if verbose {
        arguments := arguments + ["-v"];
      }
      if console != "regular" || !wait {
        arguments := arguments + ["-b"];
      }
      assert arguments == fixed + OptionFlags(threads, verbose, console, wait);
      if wait {
        process := None;
      } else {
        process := Some(launched);
      }
      return Ok(Run(ski, io.0, io.1, process, arguments));
    }
  }

  /** Where the parts of a launched command line sit: the executable right after the MPI launcher,
      then the ski file, "-i" with the input directory and "-o" with the output directory, and the
      options after them. */
  lemma ArgumentLayout(prefix: seq<string>, exe: string, ski: string, inPath: string, outPath: string, flags: seq<string>)
    ensures var a := prefix + [exe, ski, "-i", inPath, "-o", outPath] + flags;
      var k := |prefix|;
      && |a| == k + 6 + |flags|
      && a[..k] == prefix && a[k] == exe && a[k + 1] == ski
      && a[k + 2] == "-i" && a[k + 3] == inPath && a[k + 4] == "-o" && a[k + 5] == outPath
      && a[k + 6..] == flags
  {
  }
}
