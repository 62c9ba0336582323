/** The part of the Aspire host program runner that reads the run's
    environment back: the debug-session token and port the factory put
    there, the two optional endpoint urls, whether the run is a debug run,
    and the configuration's parameters, gathered into the session host's
    configuration. */
module AspireHostProgramRunner {
  import opened Common
  import opened Text
  import opened AspireHostExecutorFactory

  const DotnetResourceServiceEndpointUrl: string := "DOTNET_RESOURCE_SERVICE_ENDPOINT_URL"

  /** Why the runner refuses to run: a `CantRunException` with its message,
      or the `NumberFormatException` of a port text that is not an `Int`. */
  datatype RunnerError = CantRun(message: string) | NumberFormat

  /** The parameters of an Aspire host run configuration that the runner uses. */
  datatype ConfigurationParameters = ConfigurationParameters(projectFilePath: string, startBrowserUrl: string)

  datatype AspireHostProjectConfig = AspireHostProjectConfig(
    debugSessionToken: string,
    debugSessionPort: int,
    aspireHostProjectPath: string,
    aspireHostProjectUrl: string,
    isDebug: bool,
    resourceServiceEndpointUrl: Option<string>,
    openTelemetryProtocolEndpointUrl: Option<string>,
    openTelemetryProtocolServerPort: int)

  function Lookup(envs: map<string, string>, key: string): (r: Option<string>)
    ensures r.Some? <==> key in envs
    ensures r.Some? ==> r.value == envs[key]
  {
    if key in envs then Some(envs[key]) else None
  }

  /** The port of a `host:port` text: the text after the first ':' (all of
      it when there is none), read as an `Int`. */
  function ParsePort(address: string): (r: Option<int>)
    ensures r.Some? ==> IntMin <= r.value <= IntMax
  {
    ParseInt(SubstringAfter(address, ':'))
  }

  /** The configuration the runner builds from a run's environment, or why
      it cannot: a port text that is present but not an `Int` fails first,
      then a missing token or port, then missing parameters. The free port
      for the telemetry server is a parameter. */
  function Execute(envs: map<string, string>, executorId: string, parameters: Option<ConfigurationParameters>,
                   openTelemetryProtocolServerPort: int): (r: Result<AspireHostProjectConfig, RunnerError>)
    ensures DebugSessionPort in envs && ParsePort(envs[DebugSessionPort]).None? ==> r == Err(NumberFormat)
    ensures (DebugSessionToken !in envs || DebugSessionPort !in envs) &&
            (DebugSessionPort in envs ==> ParsePort(envs[DebugSessionPort]).Some?) ==>
      r == Err(CantRun("Unable to find token or port"))
    ensures r.Ok? <==>
      DebugSessionToken in envs && DebugSessionPort in envs &&
      ParsePort(envs[DebugSessionPort]).Some? && parameters.Some?
    ensures r.Ok? ==>
      r.value.debugSessionToken == envs[DebugSessionToken] &&
      Some(r.value.debugSessionPort) == ParsePort(envs[DebugSessionPort]) &&
      r.value.aspireHostProjectPath == parameters.value.projectFilePath &&
      r.value.aspireHostProjectUrl == parameters.value.startBrowserUrl &&
      r.value.openTelemetryProtocolServerPort == openTelemetryProtocolServerPort
    ensures r.Ok? ==> (r.value.isDebug <==> executorId == DebugExecutorId)
    ensures r.Ok? ==>
      r.value.resourceServiceEndpointUrl == Lookup(envs, DotnetResourceServiceEndpointUrl) &&
      r.value.openTelemetryProtocolEndpointUrl == Lookup(envs, DotnetDashboardOtlpEndpointUrl)
  {
    var port := if DebugSessionPort in envs then Some(ParsePort(envs[DebugSessionPort])) else None;
    if port.Some? && port.value.None? then Err(NumberFormat)
    else if DebugSessionToken !in envs || port.None? then Err(CantRun("Unable to find token or port"))
    else if parameters.None? then Err(CantRun("Unable to find AspireHostConfiguration parameters"))
    else
      Ok(AspireHostProjectConfig(
        envs[DebugSessionToken],
        port.value.value,
        parameters.value.projectFilePath,
        parameters.value.startBrowserUrl,
        executorId == DebugExecutorId,
        Lookup(envs, DotnetResourceServiceEndpointUrl),
        Lookup(envs, DotnetDashboardOtlpEndpointUrl),
        openTelemetryProtocolServerPort))
  }

  /** The port the factory writes as `localhost:<port>` reads back as the
      same port. */
  lemma PortRoundTrip(port: int)
    requires 0 <= port <= IntMax
    ensures ParsePort("localhost:" + IntToDecimal(port)) == Some(port)
  {
    var host := "localhost";
    assert forall j :: 0 <= j < |host| ==> host[j] != ':';
    SubstringAfterFirst(host, ':', IntToDecimal(port));
    assert "localhost:" + IntToDecimal(port) == host + [':'] + IntToDecimal(port);
    ParseIntOfIntToDecimal(port);
  }

  /** Whatever the project's own variables, a run state the factory built
      gives the runner its token and port back; the runner then succeeds
      exactly when the configuration's parameters are there. */
  lemma FactoryThenRunner(executable: DotNetExecutable, debugSessionToken: string, debugSessionPort: int,
                          executorId: string, parameters: Option<ConfigurationParameters>, serverPort: int)
    requires 0 <= debugSessionPort <= IntMax
    requires DebugSessionToken in executable.environmentVariables
    requires executable.environmentVariables[DebugSessionToken] == debugSessionToken
    requires DebugSessionPort in executable.environmentVariables
    requires executable.environmentVariables[DebugSessionPort] == "localhost:" + IntToDecimal(debugSessionPort)
    ensures var r := Execute(executable.environmentVariables, executorId, parameters, serverPort);
      (r.Ok? <==> parameters.Some?) &&
      (r.Ok? ==> r.value.debugSessionToken == debugSessionToken && r.value.debugSessionPort == debugSessionPort)
  {
    PortRoundTrip(debugSessionPort);
  }
}
