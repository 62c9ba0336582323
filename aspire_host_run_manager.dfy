/** The IDE's memory of how each Aspire host was last run (the run
    configuration's name and the run's lifetime, by host path) and the rule
    that picks which run configuration to execute for a host. */
module AspireHostRunManager {
  import opened Common

  /** The two executors a host can be run with. */
  datatype Executor = RunExecutor | DebugExecutor

  /** A run configuration: its name and, for an Aspire host configuration,
      the host project's path. */
  datatype ConfigurationKind = AspireHostConfiguration(projectFilePath: string) | OtherConfiguration
  datatype RunConfiguration = RunConfiguration(name: string, kind: ConfigurationKind)

  /** A run's lifetime, which can be terminated once. */
  class LifetimeDefinition {
    var isAlive: bool

    constructor ()
      ensures isAlive
    {
      isAlive := true;
    }

    method Terminate()
      modifies this
      ensures !isAlive
    {
      isAlive := false;
    }
  }

  function ExecutorFor(underDebug: bool): (e: Executor)
    ensures e == DebugExecutor <==> underDebug
  {
    if underDebug then DebugExecutor else RunExecutor
  }

  /** Whether a configuration is an Aspire host configuration for `hostPath`. */
  predicate IsForHost(c: RunConfiguration, hostPath: string)
  {
    c.kind.AspireHostConfiguration? && c.kind.projectFilePath == hostPath
  }

  /** The Aspire host configurations for `hostPath`, in list order. */
  function Candidates(configurations: seq<RunConfiguration>, hostPath: string): seq<RunConfiguration>
  {
    if configurations == [] then []
    else
      var last := configurations[|configurations| - 1];
      Candidates(configurations[..|configurations| - 1], hostPath) + (if IsForHost(last, hostPath) then [last] else [])
  }

  /** A configuration is a candidate iff it is listed and is for the host,
      and every candidate is for the host. */
  lemma {:induction false} CandidatesMembers(configurations: seq<RunConfiguration>, hostPath: string, c: RunConfiguration)
    ensures c in Candidates(configurations, hostPath) <==> c in configurations && IsForHost(c, hostPath)
    ensures forall k :: 0 <= k < |Candidates(configurations, hostPath)| ==>
      IsForHost(Candidates(configurations, hostPath)[k], hostPath)
  {
    if configurations != [] {
      var n := |configurations| - 1;
      CandidatesMembers(configurations[..n], hostPath, c);
      assert configurations == configurations[..n] + [configurations[n]];
    }
  }

  class AspireHostRunManager {
    var configurationNames: map<string, string>
    var configurationLifetimes: map<string, LifetimeDefinition>

    constructor ()
      ensures configurationNames == map[] && configurationLifetimes == map[]
    {
      configurationNames := map[];
      configurationLifetimes := map[];
    }

    /** Remembers the configuration name and the lifetime of a host's run,
        overwriting what was stored for that path. */
    method SaveRunConfiguration(aspireHostProjectPath: string, aspireHostLifetime: LifetimeDefinition, configurationName: string)
      modifies this
      ensures configurationNames == old(configurationNames)[aspireHostProjectPath := configurationName]
      ensures configurationLifetimes == old(configurationLifetimes)[aspireHostProjectPath := aspireHostLifetime]
    {
      configurationNames := configurationNames[aspireHostProjectPath := configurationName];
      configurationLifetimes := configurationLifetimes[aspireHostProjectPath := aspireHostLifetime];
    }

    /** The configuration executed for a host, if any: the selected one when
        it is an Aspire host configuration for the host; otherwise, among
        the host's configurations, the first with the remembered name, or
        else the first; nothing when the host has none. */
    function ConfigurationForHost(hostPath: string, selected: Option<RunConfiguration>, configurations: seq<RunConfiguration>)
      : (r: Option<RunConfiguration>)
      reads this
      ensures selected.Some? && IsForHost(selected.value, hostPath) ==> r == selected
      ensures r.Some? ==> IsForHost(r.value, hostPath)
      ensures r.Some? ==> r == selected || r.value in configurations
      ensures r.None? <==>
        (selected.None? || !IsForHost(selected.value, hostPath)) && Candidates(configurations, hostPath) == []
      ensures ((selected.None? || !IsForHost(selected.value, hostPath)) && hostPath in configurationNames &&
               IndexOf(Project(Candidates(configurations, hostPath), (c: RunConfiguration) => c.name), configurationNames[hostPath]).Some?) ==>
        r == Some(Candidates(configurations, hostPath)[
          IndexOf(Project(Candidates(configurations, hostPath), (c: RunConfiguration) => c.name), configurationNames[hostPath]).value])
      ensures ((selected.None? || !IsForHost(selected.value, hostPath)) && Candidates(configurations, hostPath) != [] &&
               (hostPath !in configurationNames ||
                IndexOf(Project(Candidates(configurations, hostPath), (c: RunConfiguration) => c.name), configurationNames[hostPath]).None?)) ==>
        r == Some(Candidates(configurations, hostPath)[0])
    {
      if selected.Some? && IsForHost(selected.value, hostPath) then selected
      else
        var candidates := Candidates(configurations, hostPath);
        CandidatesMembers(configurations, hostPath, if candidates == [] then RunConfiguration("", OtherConfiguration) else candidates[0]);
        if candidates == [] then None
        else if hostPath in configurationNames && IndexOf(Project(candidates, (c: RunConfiguration) => c.name), configurationNames[hostPath]).Some? then
          var k := IndexOf(Project(candidates, (c: RunConfiguration) => c.name), configurationNames[hostPath]).value;
          CandidatesMembers(configurations, hostPath, candidates[k]);
          Some(candidates[k])
        else Some(candidates[0])
    }

    /** Terminates the remembered lifetime of a host's run; does nothing
        when none is remembered or it has already ended. */
    method StopConfigurationForHost(hostPath: string) returns (stopped: bool)
      modifies configurationLifetimes.Values
      ensures stopped <==> hostPath in configurationLifetimes && old(configurationLifetimes[hostPath].isAlive)
      ensures stopped ==> !configurationLifetimes[hostPath].isAlive
      ensures forall l :: l in configurationLifetimes.Values && (!stopped || l != configurationLifetimes[hostPath]) ==>
        unchanged(l)
    {
      if hostPath !in configurationLifetimes || !configurationLifetimes[hostPath].isAlive {
        return false;
      }
      var lifetime := configurationLifetimes[hostPath];
      lifetime.Terminate();
      stopped := true;
    }
  }
}
