/** The run state factory for an Aspire host run configuration: it picks
    the solution's one Aspire host project at the configured path, takes
    its first output, and builds the process environment (the project's
    variables plus the debug-session token and address and, when telemetry
    is collected, the OTLP endpoint). */
module AspireHostExecutorFactory {
  import opened Common
  import opened Text

  const DebugSessionToken: string := "DEBUG_SESSION_TOKEN"
  const DebugSessionPort: string := "DEBUG_SESSION_PORT"
  const DotnetDashboardOtlpEndpointUrl: string := "DOTNET_DASHBOARD_OTLP_ENDPOINT_URL"

  /** The IDE's run and debug executor ids. */
  const RunExecutorId: string := "Run"
  const DebugExecutorId: string := "Debug"

  datatype ProjectKind = AspireHostKind | OtherKind

  datatype ProjectOutput = ProjectOutput(exePath: string, tfm: string, workingDirectory: string, defaultArguments: seq<string>)

  datatype EnvironmentVariable = EnvironmentVariable(key: string, value: string)

  datatype RunnableProject = RunnableProject(
    kind: ProjectKind,
    projectFilePath: string,
    projectOutputs: seq<ProjectOutput>,
    environmentVariables: seq<EnvironmentVariable>)

  datatype DotNetExecutable = DotNetExecutable(
    exePath: string,
    tfm: string,
    workingDirectory: string,
    arguments: seq<string>,
    environmentVariables: map<string, string>,
    startBrowserAction: string)

  /** The state both executors get: a run of the executable. */
  datatype RunState = RunState(executable: DotNetExecutable)

  /** The `CantRunException`s `create` raises. */
  datatype FactoryError =
    | NoRuntime
    | SolutionIsLoading
    | ProjectNotSpecified
    | NoProjectOutput
    | UnsupportedExecutor(executorId: string)

  /** `associate { it.key to it.value }`: a map in which a repeated key
      keeps its last value. */
  function Associate(vars: seq<EnvironmentVariable>): map<string, string>
  {
    if vars == [] then map[]
    else Associate(vars[..|vars| - 1])[vars[|vars| - 1].key := vars[|vars| - 1].value]
  }

  /** Exactly the listed keys are present, each with the value of its last
      occurrence. */
  lemma {:induction false} AssociateKeys(vars: seq<EnvironmentVariable>, key: string)
    ensures key in Associate(vars) <==> exists i :: 0 <= i < |vars| && vars[i].key == key
  {
    if vars != [] {
      var n := |vars| - 1;
      AssociateKeys(vars[..n], key);
      if exists i :: 0 <= i < n && vars[i].key == key {
        var i :| 0 <= i < n && vars[i].key == key;
        assert vars[..n][i].key == key;
      }
      if key in Associate(vars[..n]) {
        var i :| 0 <= i < n && vars[..n][i].key == key;
        assert vars[i].key == key;
      }
    }
  }

  lemma {:induction false} AssociateLastWins(vars: seq<EnvironmentVariable>, i: nat)
    requires i < |vars|
    requires forall j :: i < j < |vars| ==> vars[j].key != vars[i].key
    ensures vars[i].key in Associate(vars) && Associate(vars)[vars[i].key] == vars[i].value
  {
    var n := |vars| - 1;
    if i < n {
      assert vars[..n][i] == vars[i];
      AssociateLastWins(vars[..n], i);
    }
  }

  predicate IsAspireHostAt(p: RunnableProject, projectFilePath: string)
  {
    p.kind == AspireHostKind && p.projectFilePath == projectFilePath
  }

  /** The number of Aspire host projects at the path. */
  function MatchCount(projects: seq<RunnableProject>, projectFilePath: string): nat
  {
    if projects == [] then 0
    else
      var last := projects[|projects| - 1];
      MatchCount(projects[..|projects| - 1], projectFilePath) + (if IsAspireHostAt(last, projectFilePath) then 1 else 0)
  }

  /** `singleOrNull`: the one matching project, or nothing when there are
      none or several. */
  function SingleMatching(projects: seq<RunnableProject>, projectFilePath: string): (r: Option<RunnableProject>)
    ensures r.Some? <==> MatchCount(projects, projectFilePath) == 1
    ensures r.Some? ==> r.value in projects && IsAspireHostAt(r.value, projectFilePath)
  {
    if projects == [] then None
    else
      var n := |projects| - 1;
      var last := projects[n];
      var prior := SingleMatching(projects[..n], projectFilePath);
      if IsAspireHostAt(last, projectFilePath) then
        (if MatchCount(projects[..n], projectFilePath) == 0 then Some(last) else None)
      else prior
  }

  /** The environment of the host process: the project's variables, then
      the token, the debug-session address and, when telemetry is
      collected, the OTLP endpoint written over them. */
  function BuildEnvironment(vars: seq<EnvironmentVariable>, debugSessionToken: string, debugSessionPort: int,
                            otlpEndpointPort: int, collectTelemetry: bool): (envs: map<string, string>)
    ensures DebugSessionToken in envs && envs[DebugSessionToken] == debugSessionToken
    ensures DebugSessionPort in envs && envs[DebugSessionPort] == "localhost:" + IntToDecimal(debugSessionPort)
    ensures collectTelemetry ==>
      DotnetDashboardOtlpEndpointUrl in envs &&
      envs[DotnetDashboardOtlpEndpointUrl] == "http://localhost:" + IntToDecimal(otlpEndpointPort)
    ensures !collectTelemetry ==> (DotnetDashboardOtlpEndpointUrl in envs <==> DotnetDashboardOtlpEndpointUrl in Associate(vars))
    ensures forall k :: k != DebugSessionToken && k != DebugSessionPort && (k != DotnetDashboardOtlpEndpointUrl || !collectTelemetry) ==>
      (k in envs <==> k in Associate(vars)) && (k in envs ==> envs[k] == Associate(vars)[k])
  {
    var envs := Associate(vars)[DebugSessionToken := debugSessionToken]
                               [DebugSessionPort := "localhost:" + IntToDecimal(debugSessionPort)];
    if collectTelemetry then
      envs[DotnetDashboardOtlpEndpointUrl := "http://localhost:" + IntToDecimal(otlpEndpointPort)]
    else envs
  }

  /** `getDotNetExecutable`: the first output of the project, run with the
      built environment; an error when the project has no output. */
  method GetDotNetExecutable(runnableProject: RunnableProject, startBrowserAction: string, debugSessionToken: string,
                             debugSessionPort: int, otlpEndpointPort: int, collectTelemetry: bool)
    returns (r: Result<DotNetExecutable, FactoryError>)
    ensures runnableProject.projectOutputs == [] <==> r == Err(NoProjectOutput)
    ensures runnableProject.projectOutputs != [] <==> r.Ok?
    ensures r.Ok? ==> r.value.exePath == runnableProject.projectOutputs[0].exePath
    ensures r.Ok? ==> r.value.tfm == runnableProject.projectOutputs[0].tfm
    ensures r.Ok? ==> r.value.workingDirectory == runnableProject.projectOutputs[0].workingDirectory
    ensures r.Ok? ==> r.value.arguments == runnableProject.projectOutputs[0].defaultArguments
    ensures r.Ok? ==> r.value.startBrowserAction == startBrowserAction
    ensures r.Ok? ==>
      DebugSessionToken in r.value.environmentVariables &&
      r.value.environmentVariables[DebugSessionToken] == debugSessionToken
    ensures r.Ok? ==>
      DebugSessionPort in r.value.environmentVariables &&
      r.value.environmentVariables[DebugSessionPort] == "localhost:" + IntToDecimal(debugSessionPort)
    ensures r.Ok? ==>
      r.value.environmentVariables == BuildEnvironment(runnableProject.environmentVariables, debugSessionToken,
                                                       debugSessionPort, otlpEndpointPort, collectTelemetry)
  {
    if runnableProject.projectOutputs == [] {
      return Err(NoProjectOutput);
    }
    var projectOutput := runnableProject.projectOutputs[0];
    var envs := BuildEnvironment(runnableProject.environmentVariables, debugSessionToken, debugSessionPort,
                                otlpEndpointPort, collectTelemetry);
    r := Ok(DotNetExecutable(projectOutput.exePath, projectOutput.tfm, projectOutput.workingDirectory,
                             projectOutput.defaultArguments, envs, startBrowserAction));
  }

  /** `create`: the checks in order (runtime, loaded solution, the single
      Aspire host project at the configured path, its output, the
      executor), then a run state for the executable. The token and the
      ports, drawn at random or probed by the IDE, are parameters. */
  method Create(executorId: string, runtimeAvailable: bool, projects: Option<seq<RunnableProject>>,
                projectFilePath: string, startBrowserAction: string, debugSessionToken: string,
                debugSessionPort: int, otlpEndpointPort: int, collectTelemetry: bool)
    returns (r: Result<RunState, FactoryError>)
    ensures !runtimeAvailable ==> r == Err(NoRuntime)
    ensures runtimeAvailable && projects.None? ==> r == Err(SolutionIsLoading)
    ensures runtimeAvailable && projects.Some? && MatchCount(projects.value, projectFilePath) != 1 ==>
      r == Err(ProjectNotSpecified)
    ensures (runtimeAvailable && projects.Some? && MatchCount(projects.value, projectFilePath) == 1 &&
             SingleMatching(projects.value, projectFilePath).value.projectOutputs == []) ==> r == Err(NoProjectOutput)
    ensures r.Ok? ==> executorId == RunExecutorId || executorId == DebugExecutorId
    ensures (runtimeAvailable && projects.Some? && MatchCount(projects.value, projectFilePath) == 1 &&
             SingleMatching(projects.value, projectFilePath).value.projectOutputs != [] &&
             executorId != RunExecutorId && executorId != DebugExecutorId) ==> r == Err(UnsupportedExecutor(executorId))
    ensures r.Ok? ==> runtimeAvailable && projects.Some? && MatchCount(projects.value, projectFilePath) == 1
    ensures r.Ok? ==> var p := SingleMatching(projects.value, projectFilePath).value;
      p.projectOutputs != [] && r.value.executable.exePath == p.projectOutputs[0].exePath &&
      DebugSessionPort in r.value.executable.environmentVariables &&
      DebugSessionToken in r.value.executable.environmentVariables &&
      r.value.executable.environmentVariables[DebugSessionPort] == "localhost:" + IntToDecimal(debugSessionPort) &&
      r.value.executable.environmentVariables[DebugSessionToken] == debugSessionToken
    ensures (runtimeAvailable && projects.Some? && MatchCount(projects.value, projectFilePath) == 1 &&
             SingleMatching(projects.value, projectFilePath).value.projectOutputs != [] &&
             (executorId == RunExecutorId || executorId == DebugExecutorId)) ==>
      var p := SingleMatching(projects.value, projectFilePath).value;
      var output := p.projectOutputs[0];
      r == Ok(RunState(DotNetExecutable(output.exePath, output.tfm, output.workingDirectory, output.defaultArguments,
                                        BuildEnvironment(p.environmentVariables, debugSessionToken, debugSessionPort,
                                                         otlpEndpointPort, collectTelemetry),
                                        startBrowserAction)))
  {
    if !runtimeAvailable {
      return Err(NoRuntime);
    }
    if projects.None? {
      return Err(SolutionIsLoading);
    }
    var runnableProject := SingleMatching(projects.value, projectFilePath);
    if runnableProject.None? {
      return Err(ProjectNotSpecified);
    }
    var executable := GetDotNetExecutable(runnableProject.value, startBrowserAction, debugSessionToken,
                                          debugSessionPort, otlpEndpointPort, collectTelemetry);
    if executable.Err? {
      return Err(executable.error);
    }
    if executorId == DebugExecutorId || executorId == RunExecutorId {
      r := Ok(RunState(executable.value));
    } else {
      r := Err(UnsupportedExecutor(executorId));
    }
  }
}
