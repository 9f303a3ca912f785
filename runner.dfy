/**
 * The code runner service (`code-runner/runner.py`): one POST /execute runs the submitted
 * source as a Python script in a temporary file and answers with a `CodeResponse`.
 *
 * The subprocess, the clock and the filesystem are not modelled; what happened to one
 * invocation is an `Execution` value supplied by the caller, the measured duration is an
 * opaque `elapsed`, and the host is a `Host` object holding the live temporary files, the
 * process environment and the existing paths.
 */
module Runner {
  import opened Base

  /** `CodeRequest.timeout` when the body omits it. */
  const DefaultTimeout: int := 30

  /** Working directory of every run; HOME and TMPDIR of the service. */
  const ExecDir: string := "/tmp/execution"

  const TimeoutPrefix: string := "코드 실행이 시간 초과되었습니다 ("
  const TimeoutSuffix: string := "초)"
  const FailurePrefix: string := "코드 실행 중 오류가 발생했습니다: "

  datatype CodeRequest = CodeRequest(code: string, timeout: int)

  datatype CodeResponse = CodeResponse(success: bool, output: string, error: Option<string>, executionTime: real)

  /** What `subprocess.run` did, once the script file exists and its name is recorded. */
  datatype ProcessOutcome =
    | Exited(returnCode: int, stdout: string, stderr: string)
    | TimedOut                          // subprocess.TimeoutExpired
    | Raised(message: string)           // any other exception, e.g. the interpreter is missing

  /** One invocation, from the creation of the temporary file on. */
  datatype Execution =
    | CreateRaised(message: string)     // NamedTemporaryFile(...) raised: no file exists
    | WriteRaised(message: string)      // the file exists but f.write(code) raised
    | Ran(process: ProcessOutcome)

  /** Request body validation: an omitted `timeout` is 30 seconds. */
  function NewRequest(code: string, timeout: Option<int>): (r: CodeRequest)
    ensures r.code == code
    ensures timeout.None? ==> r.timeout == DefaultTimeout
    ensures timeout.Some? ==> r.timeout == timeout.value
  {
    CodeRequest(code, timeout.GetOr(DefaultTimeout))
  }

  function TimeoutMessage(timeout: int): string {
    TimeoutPrefix + IntToString(timeout) + TimeoutSuffix
  }

  function FailureMessage(message: string): string {
    FailurePrefix + message
  }

  predicate ExitedWith(e: Execution, code: int) {
    e.Ran? && e.process.Exited? && e.process.returnCode == code
  }

  /** An infrastructure failure: the program never produced an exit status nor timed out. */
  predicate InfrastructureFailure(e: Execution) {
    !e.Ran? || e.process.Raised?
  }

  /** The message carried by an infrastructure failure (`str(e)`). */
  function FaultMessage(e: Execution): string
    requires InfrastructureFailure(e)
  {
    if e.Ran? then e.process.message else e.message
  }

  /** The response `execute_code` returns for an invocation; it is always returned, never raised. */
  function Respond(request: CodeRequest, e: Execution, elapsed: real): (r: CodeResponse)
    ensures r.success <==> ExitedWith(e, 0)
    ensures e.Ran? && e.process.Exited? ==> r.output == e.process.stdout && r.executionTime == elapsed
    ensures ExitedWith(e, 0) ==> (r.error.None? <==> e.process.stderr == "")
    ensures ExitedWith(e, 0) && e.process.stderr != "" ==> r.error == Some(e.process.stderr)
    ensures e.Ran? && e.process.Exited? && e.process.returnCode != 0 ==> r.error == Some(e.process.stderr)
    ensures e.Ran? && e.process.TimedOut? ==>
              r.output == "" && r.error == Some(TimeoutMessage(request.timeout))
              && r.executionTime == request.timeout as real
    ensures InfrastructureFailure(e) ==>
              r.output == "" && r.executionTime == 0.0 && r.error == Some(FailureMessage(FaultMessage(e)))
  {
    match e
    case CreateRaised(m) => CodeResponse(false, "", Some(FailureMessage(m)), 0.0)
    case WriteRaised(m) => CodeResponse(false, "", Some(FailureMessage(m)), 0.0)
    case Ran(Raised(m)) => CodeResponse(false, "", Some(FailureMessage(m)), 0.0)
    case Ran(TimedOut) =>
      CodeResponse(false, "", Some(TimeoutMessage(request.timeout)), request.timeout as real)
    case Ran(Exited(rc, out, err)) =>
      if rc == 0 then CodeResponse(true, out, if err != "" then Some(err) else None, elapsed)
      else CodeResponse(false, out, Some(err), elapsed)
  }

  /** The requested budget can be read back from the error of a timed-out run. */
  lemma TimeoutMessageNamesBudget(request: CodeRequest, elapsed: real)
    ensures var r := Respond(request, Ran(TimedOut), elapsed);
            r.error.Some? && StartsWith(r.error.value, TimeoutPrefix)
            && r.error.value[|TimeoutPrefix|..|r.error.value| - |TimeoutSuffix|] == IntToString(request.timeout)
  {
    var msg := TimeoutMessage(request.timeout);
    assert msg[..|TimeoutPrefix|] == TimeoutPrefix;
    assert msg[|TimeoutPrefix|..|msg| - |TimeoutSuffix|] == IntToString(request.timeout);
  }

  /** A timed-out run and an infrastructure failure never carry the same error text. */
  lemma TimeoutDistinctFromFailure(request: CodeRequest, e: Execution, elapsed: real)
    requires InfrastructureFailure(e)
    ensures Respond(request, Ran(TimedOut), elapsed).error != Respond(request, e, elapsed).error
  {
    var t := TimeoutMessage(request.timeout);
    var f := FailureMessage(FaultMessage(e));
    assert t[5] == '이' && f[5] == ' ';
  }

  /** The temporary file of an invocation is still on disk after `execute_code` as written. */
  predicate LeftBehindAsWritten(e: Execution, unlinkOk: bool) {
    e.WriteRaised? || (e.Ran? && !unlinkOk)
  }

  /** The same, once the file name is recorded as soon as the file exists. */
  predicate LeftBehind(e: Execution, unlinkOk: bool) {
    !e.CreateRaised? && !unlinkOk
  }

  /** The environment variables `setup_restricted_environment` assigns, in assignment order. */
  const RestrictedEntries: seq<(string, string)> := [
    ("PATH", "/usr/local/bin:/usr/bin:/bin"),
    ("PYTHONPATH", ""),
    ("HOME", ExecDir),
    ("TMPDIR", ExecDir)
  ]

  /** The map obtained by assigning `entries` one after the other. */
  function Assigned(entries: seq<(string, string)>): map<string, string> {
    if entries == [] then map[]
    else
      var last := entries[|entries| - 1];
      Assigned(entries[..|entries| - 1])[last.0 := last.1]
  }

  /** Exactly PATH, PYTHONPATH, HOME and TMPDIR; HOME and TMPDIR are the execution directory. */
  lemma RestrictedEnvironmentContents()
    ensures var env := Assigned(RestrictedEntries);
            && env.Keys == {"PATH", "PYTHONPATH", "HOME", "TMPDIR"}
            && env["PATH"] == "/usr/local/bin:/usr/bin:/bin"
            && env["PYTHONPATH"] == ""
            && env["HOME"] == ExecDir && env["TMPDIR"] == ExecDir
  {
    var e := RestrictedEntries;
    assert e[..0] == [] && e[..1][..0] == e[..0] && e[..2][..1] == e[..1];
    assert e[..3][..2] == e[..2] && e[..4][..3] == e[..3] && e[..4] == e;
    assert Assigned(e[..1]) == map["PATH" := "/usr/local/bin:/usr/bin:/bin"];
    assert Assigned(e[..2]) == Assigned(e[..1])["PYTHONPATH" := ""];
    assert Assigned(e[..3]) == Assigned(e[..2])["HOME" := ExecDir];
    assert Assigned(e) == Assigned(e[..3])["TMPDIR" := ExecDir];
  }

  class Host {
    /** `os.environ` of the runner process. */
    var environ: map<string, string>
    /** Paths that exist on the host filesystem (only their existence is modelled). */
    var paths: set<string>
    /** Temporary script files still on disk, by creation number. */
    var temps: set<nat>
    /** `tempfile` never reuses a name: every file created so far is numbered below this. */
    var nextTemp: nat

    ghost predicate Valid()
      reads this
    {
      forall t :: t in temps ==> t < nextTemp
    }

    constructor (environ: map<string, string>, paths: set<string>)
      ensures Valid()
      ensures this.environ == environ && this.paths == paths
      ensures temps == {} && nextTemp == 0
    {
      this.environ := environ;
      this.paths := paths;
      temps := {};
      nextTemp := 0;
    }

    /**
     * `setup_restricted_environment`: creates the execution directory if absent and assigns
     * the four restricted variables; every other variable is left as it was.
     */
    method SetupRestrictedEnvironment()
      modifies this`environ, this`paths
      ensures paths == old(paths) + {ExecDir}
      ensures environ == old(environ) + Assigned(RestrictedEntries)
    {
      if ExecDir !in paths {
        paths := paths + {ExecDir};
      }
      for i := 0 to |RestrictedEntries|
        invariant environ == old(environ) + Assigned(RestrictedEntries[..i])
        invariant paths == old(paths) + {ExecDir}
      {
        var (key, value) := RestrictedEntries[i];
        assert RestrictedEntries[..i + 1][..i] == RestrictedEntries[..i];
        environ := environ[key := value];
      }
      assert RestrictedEntries[..|RestrictedEntries|] == RestrictedEntries;
    }

    /**
     * `execute_code` as written: the file name is bound to `temp_file` only after the
     * source has been written, and the `finally` that unlinks it covers only the run.
     * A failed unlink is swallowed (`unlinkOk` false leaves the file on disk).
     */
    method ExecuteCodeAsWritten(request: CodeRequest, e: Execution, unlinkOk: bool, elapsed: real)
      returns (response: CodeResponse)
      requires Valid()
      modifies this`temps, this`nextTemp
      ensures Valid()
      ensures response == Respond(request, e, elapsed)
      ensures nextTemp == old(nextTemp) + (if e.CreateRaised? then 0 else 1)
      ensures temps == old(temps) + (if LeftBehindAsWritten(e, unlinkOk) then {old(nextTemp)} else {})
    {
      if e.CreateRaised? {
        return CodeResponse(false, "", Some(FailureMessage(e.message)), 0.0);
      }
      var file := nextTemp;
      nextTemp := nextTemp + 1;
      temps := temps + {file};
      if e.WriteRaised? {
        // the exception leaves the `with` block before `temp_file = f.name` runs
        return CodeResponse(false, "", Some(FailureMessage(e.message)), 0.0);
      }
      var tempFile := file;
      response := Respond(request, e, elapsed);
      // finally: os.unlink(temp_file), any failure swallowed
      if unlinkOk {
        temps := temps - {tempFile};
      }
    }

    /**
     * `execute_code` with the file name recorded as soon as the file exists, so that the
     * cleanup also runs when writing the source fails.
     */
    method ExecuteCode(request: CodeRequest, e: Execution, unlinkOk: bool, elapsed: real)
      returns (response: CodeResponse)
      requires Valid()
      modifies this`temps, this`nextTemp
      ensures Valid()
      ensures response == Respond(request, e, elapsed)
      ensures nextTemp == old(nextTemp) + (if e.CreateRaised? then 0 else 1)
      ensures temps == old(temps) + (if LeftBehind(e, unlinkOk) then {old(nextTemp)} else {})
      ensures unlinkOk ==> temps == old(temps)
    {
      if e.CreateRaised? {
        return CodeResponse(false, "", Some(FailureMessage(e.message)), 0.0);
      }
      var tempFile := nextTemp;
      nextTemp := nextTemp + 1;
      temps := temps + {tempFile};
      response := Respond(request, e, elapsed);
      if unlinkOk {
        temps := temps - {tempFile};
      }
    }
  }

  /** The discrepancy: a failed write leaves the file behind as written, and not once corrected. */
  lemma WriteFailureLeaksTempFile(message: string)
    ensures LeftBehindAsWritten(WriteRaised(message), true)
    ensures !LeftBehind(WriteRaised(message), true)
  {
  }

  /** Both versions agree whenever the source was written. */
  lemma CorrectionOnlyAffectsWriteFailure(e: Execution, unlinkOk: bool)
    requires !e.WriteRaised?
    ensures LeftBehindAsWritten(e, unlinkOk) == LeftBehind(e, unlinkOk)
  {
  }
}
