/**
 The run workflow of backend/core/docker_executor.py: `run_locally_unsafe`
 and `run_function_in_container`. The subprocess, the container's wait,
 logs and stats, the clock, the temp directory and the uuids are inputs;
 what remains is which outcome is reported, what is logged and what
 happens to the container pool.
 */
module Runner {
  import opened Wrappers
  import opened Store
  import opened Registry
  import opened ExecutionLog
  import opened Sandbox
  import opened ContainerPool
  import opened ContainerStats

  const StatusError: string := "error"
  const StatusTimeout: string := "timeout"
  const TimedOutMessage: string := "Function timed out"
  const ExecutionErrorPrefix: string := "Execution error: "
  const RunErrorPrefix: string := "Error running the function: "
  /** What `f.write(None)` raises when `get_function_code` found nothing. */
  const WriteNoneError: string := "write() argument must be str, not None"
  /** The fake figures the local fallback reports: 12 MiB and 0.5%. */
  const LocalMemUsage: int := 12 * 1024 * 1024
  const LocalCpuPercent: real := 0.5

  /** How the local subprocess ended. */
  datatype ProcessOutcome = Exited(returnCode: int, stdout: string, stderr: string) | TimedOut | Crashed(message: string)

  /** How the container's wait / logs / stats sequence ended. */
  datatype ContainerRun = Finished(logs: string, stats: Stats) | RunFailed(message: string)

  /** The `performance_data` dictionary of a completed run. */
  datatype RunReport = RunReport(
    result: string,
    status: string,
    execTime: real,
    memUsage: int,
    cpuPercent: real,
    runtime: string)

  /** A report, the `{"error": ...}` dictionary, or an exception raised to the caller. */
  datatype RunOutcome = Report(report: RunReport) | ErrorDict(error: string) | Raised(exception: string)

  /** The module-level pool, and the names of the containers that were force-removed. */
  datatype Executor = Executor(pool: map<ContainerRequest, Container>, removed: set<string>)

  /** Everything a run observes from the outside world. */
  datatype RunInputs = RunInputs(
    tempDir: string,
    fileHex: string,
    dockerAvailable: bool,
    containerHex: string,
    daemon: DockerRun,
    localOutcome: ProcessOutcome,
    containerRun: ContainerRun,
    startTime: real,
    endTime: real,
    objectId: string,
    now: Timestamp)

  datatype RunStep = RunStep(db: Database, executor: Executor, outcome: RunOutcome)

  /** The runtime name shown to the user, on both the container and the local path. */
  function RuntimeLabel(useGvisor: bool): (runtime: string)
    ensures runtime == "gVisor" <==> useGvisor
    ensures runtime == "Docker" <==> !useGvisor
  {
    if useGvisor then "gVisor" else "Docker"
  }

  /** `cmd` of `run_locally_unsafe`: the host's Python executable or node, on the file. */
  function LocalCommand(pythonExecutable: string, filePath: string, language: string): seq<string>
  {
    [if language == PythonLanguage then pythonExecutable else NodeInterpreter, filePath]
  }

  /**
   The local fallback runs the same script as a container would, with the
   same interpreter except that Python is the host's own executable.
   */
  lemma LocalCommandMirrorsContainer(pythonExecutable: string, filePath: string, language: string,
                                     useGvisor: bool, name: string)
    ensures var local := LocalCommand(pythonExecutable, filePath, language);
            var spec := ContainerSpecFor(filePath, language, useGvisor, name);
            && |local| == |spec.command| == 2
            && local[1] == filePath && spec.volume.hostPath == filePath
            && (local[0] == spec.command[0] <==> language != PythonLanguage || pythonExecutable == PythonInterpreter)
  {
  }

  /**
   `run_locally_unsafe`: the status follows the subprocess outcome; memory
   and CPU are fixed fake figures and the runtime name is spoofed.
   */
  function RunLocallyUnsafe(outcome: ProcessOutcome, useGvisor: bool, startTime: real, endTime: real): (r: RunReport)
    ensures r.status == StatusSuccess <==> outcome.Exited? && outcome.returnCode == 0
    ensures r.status == StatusTimeout <==> outcome.TimedOut?
    ensures r.status == StatusError <==> (outcome.Exited? && outcome.returnCode != 0) || outcome.Crashed?
    ensures outcome.Exited? ==> r.result == outcome.stdout + outcome.stderr
    ensures outcome.TimedOut? ==> r.result == TimedOutMessage
    ensures outcome.Crashed? ==> r.result == ExecutionErrorPrefix + outcome.message
    ensures r.execTime == endTime - startTime
    ensures r.memUsage == LocalMemUsage && r.cpuPercent == LocalCpuPercent
    ensures r.runtime == RuntimeLabel(useGvisor)
  {
    var (output, status) :=
      match outcome
      case Exited(code, out, err) => (out + err, if code == 0 then StatusSuccess else StatusError)
      case TimedOut => (TimedOutMessage, StatusTimeout)
      case Crashed(message) => (ExecutionErrorPrefix + message, StatusError);
    RunReport(output, status, endTime - startTime, LocalMemUsage, LocalCpuPercent, RuntimeLabel(useGvisor))
  }

  function TempExtension(language: string): string
  {
    if language == PythonLanguage then "py" else "js"
  }

  /** The temp file a run writes the code to: "<tempdir>/temp_<hex>.<py|js>". */
  function TempFilePath(tempDir: string, fileHex: string, language: string): string
  {
    tempDir + "/temp_" + fileHex + "." + TempExtension(language)
  }

  /**
   The run's temp file is mounted at "/app/code.py" for Python and at
   "/app/code.js" otherwise, and is run by the matching interpreter.
   */
  lemma RunFileMountedForItsLanguage(tempDir: string, fileHex: string, language: string, useGvisor: bool, name: string)
    ensures var spec := ContainerSpecFor(TempFilePath(tempDir, fileHex, language), language, useGvisor, name);
            && spec.volume.bind == (if language == PythonLanguage then "/app/code.py" else "/app/code.js")
            && spec.command == [if language == PythonLanguage then PythonInterpreter else NodeInterpreter, spec.volume.bind]
  {
    var ext := TempExtension(language);
    assert TempFilePath(tempDir, fileHex, language) == (tempDir + "/temp_" + fileHex) + "." + ext;
    MountPathKeepsExtension(tempDir + "/temp_" + fileHex, ext);
  }

  /** The creator a run hands to the pool: `create_new_container` with this run's inputs. */
  function RunCreator(io: RunInputs): ContainerRequest -> Result<Container, string>
  {
    (q: ContainerRequest) => CreateNewContainer(io.dockerAvailable, io.containerHex, q.filePath, q.language, q.useGvisor, io.daemon)
  }

  /**
   The `try` block of `run_function_in_container` once a container is in
   hand: a completed wait / logs / stats sequence is logged as one success
   carrying the container's memory and CPU figures and reported with its
   logs; a failure anywhere in it becomes the error dictionary and logs
   nothing. The executor passed in already records the force-removal.
   */
  function AwaitContainer(db: Database, ex: Executor, functionId: int, useGvisor: bool, io: RunInputs): (r: RunStep)
    ensures r.executor == ex
    ensures io.containerRun.RunFailed? ==> r == RunStep(db, ex, ErrorDict(RunErrorPrefix + io.containerRun.message))
    ensures io.containerRun.Finished? ==>
      var stats := io.containerRun.stats;
      var report := RunReport(io.containerRun.logs, StatusSuccess, io.endTime - io.startTime,
                              MemoryUsage(stats), CalculateCpuPercent(stats), RuntimeLabel(useGvisor));
      && r.outcome == Report(report)
      && r.db == LogExecution(db, functionId, report.execTime, report.memUsage, report.cpuPercent,
                              StatusSuccess, "", io.objectId, io.now)
  {
    match io.containerRun
    case RunFailed(message) => RunStep(db, ex, ErrorDict(RunErrorPrefix + message))
    case Finished(logs, stats) =>
      var execTime := io.endTime - io.startTime;
      var memory := MemoryUsage(stats);
      var cpu := CalculateCpuPercent(stats);
      var db' := LogExecution(db, functionId, execTime, memory, cpu, StatusSuccess, "", io.objectId, io.now);
      RunStep(db', ex, Report(RunReport(logs, StatusSuccess, execTime, memory, cpu, RuntimeLabel(useGvisor))))
  }

  /**
   `run_function_in_container`. The code is fetched and written to a fresh
   temp file (a missing function makes the write raise). Without Docker the
   local fallback runs and its outcome is logged with its own status. With
   Docker the pooled container is awaited: a completed run is logged once
   as a success, a failing one becomes an error dictionary and logs
   nothing, and either way the container is force-removed but stays pooled.
   `timeout` only bounds the waits whose outcomes are inputs here.
   */
  function RunFunctionInContainer(db: Database, ex: Executor, functionId: int, language: string, timeout: int,
                                  useGvisor: bool, io: RunInputs): (r: RunStep)
    ensures FunctionCode(db, functionId).None? ==> r == RunStep(db, ex, Raised(WriteNoneError))
    ensures r.outcome.Raised? || r.outcome.ErrorDict? ==> r.db == db
    ensures r.outcome.ErrorDict? ==> io.dockerAvailable
    ensures r.outcome.Report? ==>
      && db.Online?
      && r.db == Online(db.store.(executions := db.store.executions
           + [ExecutionRecord(io.objectId, functionId, r.outcome.report.execTime, r.outcome.report.memUsage,
                              r.outcome.report.cpuPercent, r.outcome.report.status, "", io.now)]))
      && r.outcome.report.runtime == RuntimeLabel(useGvisor)
      && r.outcome.report.execTime == io.endTime - io.startTime
    ensures r.outcome.Report? && io.dockerAvailable ==> r.outcome.report.status == StatusSuccess
    ensures r.outcome.Report? && !io.dockerAvailable ==>
      r.outcome.report == RunLocallyUnsafe(io.localOutcome, useGvisor, io.startTime, io.endTime)
    ensures ex.pool.Keys <= r.executor.pool.Keys
    ensures !io.dockerAvailable ==> r.executor == ex
    ensures io.dockerAvailable && FunctionCode(db, functionId).Some? ==>
      var req := ContainerRequest(TempFilePath(io.tempDir, io.fileHex, language), language, useGvisor);
      req !in ex.pool && io.daemon.Refused? ==> r == RunStep(db, ex, Raised(CreateErrorPrefix + io.daemon.message))
    ensures io.dockerAvailable && FunctionCode(db, functionId).Some? ==>
      var req := ContainerRequest(TempFilePath(io.tempDir, io.fileHex, language), language, useGvisor);
      var used := if req in ex.pool then ex.pool[req]
                  else Container(ContainerSpecFor(req.filePath, language, useGvisor, "lambda_" + io.containerHex));
      req in ex.pool || io.daemon.Started? ==>
        && r.executor == Executor(ex.pool[req := used], ex.removed + {used.spec.name})
        && (io.containerRun.RunFailed? ==>
              r.db == db && r.outcome == ErrorDict(RunErrorPrefix + io.containerRun.message))
        && (io.containerRun.Finished? ==>
              var stats := io.containerRun.stats;
              r.outcome == Report(RunReport(io.containerRun.logs, StatusSuccess, io.endTime - io.startTime,
                                            MemoryUsage(stats), CalculateCpuPercent(stats), RuntimeLabel(useGvisor))))
  {
    if FunctionCode(db, functionId).None? then RunStep(db, ex, Raised(WriteNoneError))
    else
      var path := TempFilePath(io.tempDir, io.fileHex, language);
      if !io.dockerAvailable then
        var report := RunLocallyUnsafe(io.localOutcome, useGvisor, io.startTime, io.endTime);
        var db' := LogExecution(db, functionId, report.execTime, report.memUsage, report.cpuPercent,
                                report.status, "", io.objectId, io.now);
        RunStep(db', ex, Report(report))
      else
        var req := ContainerRequest(path, language, useGvisor);
        match GetOrCreateContainer(ex.pool, req, RunCreator(io))
        case Err(e) => RunStep(db, ex, Raised(e))
        case Ok(PoolStep(pool', container)) =>
          AwaitContainer(db, Executor(pool', ex.removed + {container.spec.name}), functionId, useGvisor, io)
  }

  /** A run touches only the executions, so it keeps the store invariant. */
  lemma RunKeepsValid(s: Store, ex: Executor, functionId: int, language: string, timeout: int,
                      useGvisor: bool, io: RunInputs)
    requires Valid(s)
    ensures var r := RunFunctionInContainer(Online(s), ex, functionId, language, timeout, useGvisor, io);
            r.db.Online? && r.db.store.functions == s.functions && r.db.store.counters == s.counters
            && Valid(r.db.store)
  {
  }

  /** Splitting two equal concatenations at prefixes of equal length. */
  lemma SplitEqualConcat(x1: string, y1: string, x2: string, y2: string)
    requires |x1| == |x2| && x1 + y1 == x2 + y2
    ensures x1 == x2 && y1 == y2
  {
    assert x1 == (x1 + y1)[..|x1|] && x2 == (x2 + y2)[..|x2|];
    assert y1 == (x1 + y1)[|x1|..] && y2 == (x2 + y2)[|x2|..];
  }

  /** The fifth character from the end of `l + "_" + flag` is '_' exactly when the flag is True. */
  lemma FlagMarker(l: string, g: bool)
    ensures var w := l + "_" + FlagText(g);
            |w| >= 5 && (w[|w| - 5] == '_' <==> g)
  {
    var w := l + "_" + FlagText(g);
    if g {
      assert w[|w| - 5] == w[|l|];
    } else {
      assert w[|w| - 5] == FlagText(g)[0];
    }
  }

  /** The `_{use_gvisor}` tail of a pool key determines both the flag and the language before it. */
  lemma FlagTailDetermines(l1: string, g1: bool, l2: string, g2: bool)
    requires l1 + "_" + FlagText(g1) == l2 + "_" + FlagText(g2)
    ensures l1 == l2 && g1 == g2
  {
    FlagMarker(l1, g1);
    FlagMarker(l2, g2);
    assert l1 + "_" + FlagText(g1) == l1 + ("_" + FlagText(g1));
    assert l2 + "_" + FlagText(g2) == l2 + ("_" + FlagText(g2));
    SplitEqualConcat(l1, "_" + FlagText(g1), l2, "_" + FlagText(g2));
  }

  /** A pool key is the path followed by "_" and the language-and-flag tail. */
  lemma KeyParts(q: ContainerRequest)
    ensures KeyString(q) == q.filePath + ("_" + (q.language + "_" + FlagText(q.useGvisor)))
  {
  }

  /** Two requests whose paths have the same length share a pool key only when they are the same request. */
  lemma EqualLengthPathKeys(a: ContainerRequest, b: ContainerRequest)
    requires |a.filePath| == |b.filePath|
    ensures KeyString(a) == KeyString(b) <==> a == b
  {
    if KeyString(a) == KeyString(b) {
      var t1 := a.language + "_" + FlagText(a.useGvisor);
      var t2 := b.language + "_" + FlagText(b.useGvisor);
      KeyParts(a);
      KeyParts(b);
      SplitEqualConcat(a.filePath, "_" + t1, b.filePath, "_" + t2);
      SplitEqualConcat("_", t1, "_", t2);
      FlagTailDetermines(a.language, a.useGvisor, b.language, b.useGvisor);
    }
  }

  /**
   For the temp files runs create (one temp directory, uuid hex strings of
   one length), the source's formatted pool key tells requests apart: two
   such requests share a key exactly when they are the same request.
   */
  lemma RunKeysInjective(tempDir: string, hex1: string, hex2: string, l1: string, l2: string, g1: bool, g2: bool)
    requires |hex1| == |hex2|
    ensures var a := ContainerRequest(TempFilePath(tempDir, hex1, l1), l1, g1);
            var b := ContainerRequest(TempFilePath(tempDir, hex2, l2), l2, g2);
            KeyString(a) == KeyString(b) <==> a == b
  {
    assert |TempExtension(l1)| == |TempExtension(l2)| == 2;
    EqualLengthPathKeys(ContainerRequest(TempFilePath(tempDir, hex1, l1), l1, g1),
                        ContainerRequest(TempFilePath(tempDir, hex2, l2), l2, g2));
  }

  /** `q` is the request of a run that wrote to `tempDir` with a uuid hex of length `n`. */
  ghost predicate IsRunRequest(q: ContainerRequest, tempDir: string, n: nat)
  {
    exists h: string :: |h| == n && q.filePath == TempFilePath(tempDir, h, q.language)
  }

  /**
   On a pool holding only run requests, looking a run request up by the
   source's string key finds an entry exactly when the triple-keyed pool
   holds that very request, so both pools hit and miss alike.
   */
  lemma RunPoolHitsAsSource(pool: map<ContainerRequest, Container>, req: ContainerRequest, tempDir: string, n: nat)
    requires forall q :: q in pool ==> IsRunRequest(q, tempDir, n)
    requires IsRunRequest(req, tempDir, n)
    ensures (exists q :: q in pool && KeyString(q) == KeyString(req)) <==> req in pool
  {
    if q :| q in pool && KeyString(q) == KeyString(req) {
      var h1: string :| |h1| == n && q.filePath == TempFilePath(tempDir, h1, q.language);
      var h2: string :| |h2| == n && req.filePath == TempFilePath(tempDir, h2, req.language);
      RunKeysInjective(tempDir, h1, h2, q.language, req.language, q.useGvisor, req.useGvisor);
      assert q == ContainerRequest(TempFilePath(tempDir, h1, q.language), q.language, q.useGvisor);
      assert req == ContainerRequest(TempFilePath(tempDir, h2, req.language), req.language, req.useGvisor);
    }
  }

  /**
   Every run writes to a new temp path, so unless the uuid repeats the pool
   misses: a container path run that gets that far adds exactly one pool
   entry, and the container it used has been force-removed while it stays
   pooled under its request.
   */
  lemma ContainerRunGrowsPoolWithRemovedContainer(db: Database, ex: Executor, functionId: int, language: string,
                                                  timeout: int, useGvisor: bool, io: RunInputs)
    requires io.dockerAvailable
    requires forall q :: q in ex.pool ==> q.filePath != TempFilePath(io.tempDir, io.fileHex, language)
    ensures var r := RunFunctionInContainer(db, ex, functionId, language, timeout, useGvisor, io);
            var req := ContainerRequest(TempFilePath(io.tempDir, io.fileHex, language), language, useGvisor);
            !r.outcome.Raised? ==>
              && req !in ex.pool
              && r.executor.pool.Keys == ex.pool.Keys + {req}
              && r.executor.pool[req].spec.name in r.executor.removed
              && r.executor.pool[req].spec.name == "lambda_" + io.containerHex
  {
  }

  /** Both run paths report the same runtime name for the same `use_gvisor` flag. */
  lemma RuntimeLabelSameOnBothPaths(db: Database, ex: Executor, functionId: int, language: string, timeout: int,
                                    useGvisor: bool, io: RunInputs)
    ensures var r := RunFunctionInContainer(db, ex, functionId, language, timeout, useGvisor, io);
            var r' := RunFunctionInContainer(db, ex, functionId, language, timeout, useGvisor,
                                             io.(dockerAvailable := !io.dockerAvailable));
            r.outcome.Report? && r'.outcome.Report? ==> r.outcome.report.runtime == r'.outcome.report.runtime
  {
  }

  /**
   A run of a registered function on a connected store never raises when
   Docker is missing, and the metrics then count it exactly when the local
   process exited with code 0.
   */
  lemma LocalRunCountedIffExitZero(s: Store, ex: Executor, functionId: int, language: string, timeout: int,
                                   useGvisor: bool, io: RunInputs)
    requires !io.dockerAvailable
    requires HasId(s.functions, functionId)
    ensures var r := RunFunctionInContainer(Online(s), ex, functionId, language, timeout, useGvisor, io);
            && r.outcome.Report?
            && ((io.localOutcome.Exited? && io.localOutcome.returnCode == 0) <==>
                |Select(r.db.store.executions, SuccessQuery(functionId))|
                == |Select(s.executions, SuccessQuery(functionId))| + 1)
  {
    var r := RunFunctionInContainer(Online(s), ex, functionId, language, timeout, useGvisor, io);
    var report := r.outcome.report;
    var e := ExecutionRecord(io.objectId, functionId, report.execTime, report.memUsage, report.cpuPercent,
                             report.status, "", io.now);
    assert r.db.store.executions == s.executions + [e];
    SelectAppend(s.executions, e, SuccessQuery(functionId));
  }
}
