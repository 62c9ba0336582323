/** One resource of a running Aspire host, as the IDE keeps it: the fields
    of the protocol's resource model, the fields read from its named
    properties (null values and unknown names skipped, the last value of a
    name winning), and the latest metric per (scope, name). */
module AspireResourceService {
  import opened Common
  import opened Text
  import opened AspireServiceManager

  datatype ResourceEndpoint = ResourceEndpoint(endpointUrl: string, proxyUrl: string)

  datatype ResourceServiceEntry = ResourceServiceEntry(name: string, allocatedAddress: Option<string>, allocatedPort: Option<int>)

  datatype ResourceEnvironmentVariable = ResourceEnvironmentVariable(key: string, value: Option<string>)

  /** A named property; its value may be null. */
  datatype ResourceProperty = ResourceProperty(name: string, value: Option<string>)

  /** The protocol's resource model. */
  datatype ResourceModel = ResourceModel(
    name: string,
    resourceType: ResourceType,
    displayName: string,
    state: Option<string>,
    endpoints: seq<ResourceEndpoint>,
    services: seq<ResourceServiceEntry>,
    environment: seq<ResourceEnvironmentVariable>,
    properties: seq<ResourceProperty>)

  /** A received metric; only its scope and name are inspected here. */
  datatype ResourceMetric = ResourceMetric(scope: string, name: string, payload: seq<int>)

  datatype AspireResourceMetricKey = AspireResourceMetricKey(scope: string, name: string)

  /** `isRunning`: the state is "running", ignoring case; a null state is
      not running. */
  predicate IsRunning(state: Option<string>)
  {
    state.Some? && EqualsIgnoreCase(state.value, "running")
  }

  lemma IsRunningCases()
    ensures IsRunning(Some("running")) && IsRunning(Some("Running")) && IsRunning(Some("RUNNING"))
    ensures !IsRunning(None) && !IsRunning(Some("runnin")) && !IsRunning(Some("Exited"))
  {
    assert EqualsIgnoreCase("running", "running");
    assert EqualsIgnoreCase("Running", "running");
    assert EqualsIgnoreCase("RUNNING", "running");
  }

  /** The fields read from properties. The process id is parsed as a
      32-bit integer; the paths are kept as text. */
  datatype PropertyFields = PropertyFields(
    pid: Option<int>,
    projectPath: Option<string>,
    executablePath: Option<string>,
    executableWorkDir: Option<string>,
    args: Option<string>,
    containerImage: Option<string>,
    containerId: Option<string>,
    containerPorts: Option<string>,
    containerCommand: Option<string>,
    containerArgs: Option<string>)

  const NoPropertyFields := PropertyFields(None, None, None, None, None, None, None, None, None, None)

  const PidName: string := "executable.pid"

  /** The property names whose value is stored as text. */
  predicate IsTextName(name: string)
  {
    name == "project.path" || name == "executable.path" || name == "executable.workDir" ||
    name == "executable.args" || name == "container.image" || name == "container.id" ||
    name == "container.ports" || name == "container.command" || name == "container.args"
  }

  /** The field a text property name is stored in. */
  function TextField(f: PropertyFields, name: string): Option<string>
    requires IsTextName(name)
  {
    if name == "project.path" then f.projectPath
    else if name == "executable.path" then f.executablePath
    else if name == "executable.workDir" then f.executableWorkDir
    else if name == "executable.args" then f.args
    else if name == "container.image" then f.containerImage
    else if name == "container.id" then f.containerId
    else if name == "container.ports" then f.containerPorts
    else if name == "container.command" then f.containerCommand
    else f.containerArgs
  }

  /** One property applied to the fields: a null value or an unrecognised
      name changes nothing; an unparsable process id fails. */
  function Apply(f: PropertyFields, p: ResourceProperty): Option<PropertyFields>
  {
    if p.value.None? then Some(f)
    else
      var v := p.value.value;
      if p.name == "project.path" then Some(f.(projectPath := Some(v)))
      else if p.name == PidName then
        (match ParseInt(v)
         case None => None
         case Some(i) => Some(f.(pid := Some(i))))
      else if p.name == "executable.path" then Some(f.(executablePath := Some(v)))
      else if p.name == "executable.workDir" then Some(f.(executableWorkDir := Some(v)))
      else if p.name == "executable.args" then Some(f.(args := Some(v)))
      else if p.name == "container.image" then Some(f.(containerImage := Some(v)))
      else if p.name == "container.id" then Some(f.(containerId := Some(v)))
      else if p.name == "container.ports" then Some(f.(containerPorts := Some(v)))
      else if p.name == "container.command" then Some(f.(containerCommand := Some(v)))
      else if p.name == "container.args" then Some(f.(containerArgs := Some(v)))
      else Some(f)
  }

  /** The fields after reading a property list, and whether reading stopped
      at an unparsable process id (whose exception leaves the fields read so
      far in place). */
  datatype FillResult = FillResult(fields: PropertyFields, failed: bool)

  function FillAll(f: PropertyFields, properties: seq<ResourceProperty>): FillResult
  {
    if properties == [] then FillResult(f, false)
    else
      var prev := FillAll(f, properties[..|properties| - 1]);
      if prev.failed then prev
      else
        match Apply(prev.fields, properties[|properties| - 1])
        case None => FillResult(prev.fields, true)
        case Some(g) => FillResult(g, false)
  }

  /** A property with a null value or an unrecognised name. */
  predicate IsNoOp(p: ResourceProperty)
  {
    p.value.None? || (!IsTextName(p.name) && p.name != PidName)
  }

  /** Properties with null values and unrecognised names change nothing. */
  lemma {:induction false} FillAllNoOps(f: PropertyFields, properties: seq<ResourceProperty>)
    requires forall i :: 0 <= i < |properties| ==> IsNoOp(properties[i])
    ensures FillAll(f, properties) == FillResult(f, false)
  {
    if properties != [] {
      FillAllNoOps(f, properties[..|properties| - 1]);
    }
  }

  /** A property under another name, or with a null value, leaves a text
      field alone. */
  lemma ApplyKeepsTextField(f: PropertyFields, p: ResourceProperty, name: string)
    requires IsTextName(name) && (p.name != name || p.value.None?)
    requires Apply(f, p).Some?
    ensures TextField(Apply(f, p).value, name) == TextField(f, name)
  {
  }

  /** A field that no property of the list sets (every property carrying
      its name has a null value) keeps its old value, whatever else the list
      holds and whether or not reading stops early. */
  lemma {:induction false} FillAllKeepsUnnamed(f: PropertyFields, properties: seq<ResourceProperty>, name: string)
    requires IsTextName(name) || name == PidName
    requires forall i :: 0 <= i < |properties| ==> properties[i].name != name || properties[i].value.None?
    ensures IsTextName(name) ==> TextField(FillAll(f, properties).fields, name) == TextField(f, name)
    ensures name == PidName ==> FillAll(f, properties).fields.pid == f.pid
  {
    if properties != [] {
      var n := |properties| - 1;
      var prev := FillAll(f, properties[..n]);
      FillAllKeepsUnnamed(f, properties[..n], name);
      if !prev.failed && Apply(prev.fields, properties[n]).Some? && IsTextName(name) {
        ApplyKeepsTextField(prev.fields, properties[n], name);
      }
    }
  }

  /** A process-id property whose value is not a 32-bit integer. */
  predicate BadPid(p: ResourceProperty)
  {
    p.name == PidName && p.value.Some? && ParseInt(p.value.value).None?
  }

  /** Reading fails exactly when some process-id property has a value that
      is not a 32-bit integer. */
  lemma {:induction false} FillAllFails(f: PropertyFields, properties: seq<ResourceProperty>)
    ensures FillAll(f, properties).failed <==> exists i :: 0 <= i < |properties| && BadPid(properties[i])
  {
    if properties != [] {
      var n := |properties| - 1;
      FillAllFails(f, properties[..n]);
      if exists i :: 0 <= i < n && BadPid(properties[i]) {
        var i :| 0 <= i < n && BadPid(properties[i]);
        assert properties[..n][i] == properties[i];
      }
      if exists i :: 0 <= i < |properties| && BadPid(properties[i]) {
        var i :| 0 <= i < |properties| && BadPid(properties[i]);
        if i < n {
          assert properties[..n][i] == properties[i];
        }
      }
    }
  }

  /** Among same-named properties the last one with a value wins. */
  lemma {:induction false} TextFieldLastWins(f: PropertyFields, properties: seq<ResourceProperty>, i: nat, v: string)
    requires i < |properties| && IsTextName(properties[i].name) && properties[i].value == Some(v)
    requires forall j :: i < j < |properties| ==> properties[j].name != properties[i].name || properties[j].value.None?
    requires !FillAll(f, properties).failed
    ensures TextField(FillAll(f, properties).fields, properties[i].name) == Some(v)
  {
    var n := |properties| - 1;
    var prefix := properties[..n];
    assert !FillAll(f, prefix).failed;
    if i < n {
      assert prefix[i] == properties[i];
      TextFieldLastWins(f, prefix, i, v);
      ApplyKeepsTextField(FillAll(f, prefix).fields, properties[n], properties[i].name);
    }
  }

  /** The last process-id property with a value sets the process id. */
  lemma {:induction false} PidLastWins(f: PropertyFields, properties: seq<ResourceProperty>, i: nat, pid: int)
    requires i < |properties| && properties[i].name == PidName && properties[i].value.Some?
    requires ParseInt(properties[i].value.value) == Some(pid)
    requires forall j :: i < j < |properties| ==> properties[j].name != PidName || properties[j].value.None?
    requires !FillAll(f, properties).failed
    ensures FillAll(f, properties).fields.pid == Some(pid)
  {
    var n := |properties| - 1;
    var prefix := properties[..n];
    assert !FillAll(f, prefix).failed;
    if i < n {
      assert prefix[i] == properties[i];
      PidLastWins(f, prefix, i, pid);
    }
  }

  class AspireResourceService {
    var name: string
    var resourceType: ResourceType
    var displayName: string
    var state: Option<string>
    var isRunning: bool
    var endpoints: seq<ResourceEndpoint>
    var services: seq<ResourceServiceEntry>
    var environment: seq<ResourceEnvironmentVariable>

    var pid: Option<int>
    var projectPath: Option<string>
    var executablePath: Option<string>
    var executableWorkDir: Option<string>
    var args: Option<string>
    var containerImage: Option<string>
    var containerId: Option<string>
    var containerPorts: Option<string>
    var containerCommand: Option<string>
    var containerArgs: Option<string>

    /** Whether the last property list read stopped at an unparsable
        process id. */
    var fillFailed: bool

    var metrics: map<AspireResourceMetricKey, ResourceMetric>

    /** The running flag always agrees with the state. */
    ghost predicate Valid()
      reads this
    {
      isRunning == IsRunning(state)
    }

    /** The fields read from properties, as one record. */
    function Fields(): PropertyFields
      reads this
    {
      PropertyFields(pid, projectPath, executablePath, executableWorkDir, args,
                     containerImage, containerId, containerPorts, containerCommand, containerArgs)
    }

    /** Starts from the wrapper's model, if it has one: its fields, or "" and
        Unknown and empty lists without one; then reads its properties. */
    constructor (model: Option<ResourceModel>)
      ensures Valid()
      ensures model.None? ==>
        name == "" && displayName == "" && resourceType == Unknown && state.None? && !isRunning &&
        endpoints == [] && services == [] && environment == [] && Fields() == NoPropertyFields && !fillFailed
      ensures model.Some? ==>
        name == model.value.name && resourceType == model.value.resourceType &&
        displayName == model.value.displayName && state == model.value.state &&
        endpoints == model.value.endpoints && services == model.value.services &&
        environment == model.value.environment &&
        FillResult(Fields(), fillFailed) == FillAll(NoPropertyFields, model.value.properties)
      ensures metrics == map[]
    {
      name := if model.Some? then model.value.name else "";
      resourceType := if model.Some? then model.value.resourceType else Unknown;
      displayName := if model.Some? then model.value.displayName else "";
      state := if model.Some? then model.value.state else None;
      isRunning := model.Some? && IsRunning(model.value.state);
      endpoints := if model.Some? then model.value.endpoints else [];
      services := if model.Some? then model.value.services else [];
      environment := if model.Some? then model.value.environment else [];
      pid, projectPath, executablePath, executableWorkDir, args := None, None, None, None, None;
      containerImage, containerId, containerPorts, containerCommand, containerArgs := None, None, None, None, None;
      metrics := map[];
      fillFailed := false;
      new;
      FillFromProperties(if model.Some? then model.value.properties else []);
      if model.None? {
        FillAllNoOps(NoPropertyFields, []);
      }
    }

    /** Reads a property list in order, dispatching on the name; stops at a
        process id that does not parse. */
    method FillFromProperties(properties: seq<ResourceProperty>)
      modifies this`pid, this`projectPath, this`executablePath, this`executableWorkDir, this`args,
        this`containerImage, this`containerId, this`containerPorts, this`containerCommand, this`containerArgs,
        this`fillFailed
      ensures FillResult(Fields(), fillFailed) == FillAll(old(Fields()), properties)
    {
      ghost var f0 := Fields();
      var i := 0;
      while i < |properties|
        invariant 0 <= i <= |properties|
        invariant FillAll(f0, properties[..i]) == FillResult(Fields(), false)
      {
        var property := properties[i];
        assert properties[..i + 1][..i] == properties[..i];
        if property.value.Some? {
          var v := property.value.value;
          if property.name == "project.path" {
            projectPath := Some(v);
          } else if property.name == PidName {
            var parsed := ParseInt(v);
            if parsed.None? {
              fillFailed := true;
              FillAllStops(f0, properties, i);
              return;
            }
            pid := Some(parsed.value);
          } else if property.name == "executable.path" {
            executablePath := Some(v);
          } else if property.name == "executable.workDir" {
            executableWorkDir := Some(v);
          } else if property.name == "executable.args" {
            args := Some(v);
          } else if property.name == "container.image" {
            containerImage := Some(v);
          } else if property.name == "container.id" {
            containerId := Some(v);
          } else if property.name == "container.ports" {
            containerPorts := Some(v);
          } else if property.name == "container.command" {
            containerCommand := Some(v);
          } else if property.name == "container.args" {
            containerArgs := Some(v);
          }
        }
        i := i + 1;
      }
      assert properties[..i] == properties;
      fillFailed := false;
    }

    /** Takes the seven model fields of `resourceModel` and the running
        flag derived from its state. */
    method SetModel(resourceModel: ResourceModel)
      modifies this`name, this`resourceType, this`displayName, this`state, this`isRunning,
        this`endpoints, this`services, this`environment
      ensures Valid()
      ensures name == resourceModel.name && resourceType == resourceModel.resourceType
      ensures displayName == resourceModel.displayName && state == resourceModel.state
      ensures endpoints == resourceModel.endpoints && services == resourceModel.services
      ensures environment == resourceModel.environment
    {
      name := resourceModel.name;
      resourceType := resourceModel.resourceType;
      displayName := resourceModel.displayName;
      state := resourceModel.state;
      isRunning := IsRunning(resourceModel.state);
      endpoints := resourceModel.endpoints;
      services := resourceModel.services;
      environment := resourceModel.environment;
    }

    /** Replaces the model fields with a new model's and reads its
        properties over the current property fields, so fields its
        properties do not mention keep their values. */
    method Update(resourceModel: ResourceModel)
      modifies this
      ensures Valid()
      ensures name == resourceModel.name && resourceType == resourceModel.resourceType
      ensures displayName == resourceModel.displayName && state == resourceModel.state
      ensures endpoints == resourceModel.endpoints && services == resourceModel.services
      ensures environment == resourceModel.environment
      ensures FillResult(Fields(), fillFailed) == FillAll(old(Fields()), resourceModel.properties)
      ensures metrics == old(metrics)
    {
      SetModel(resourceModel);
      FillFromProperties(resourceModel.properties);
    }

    /** Stores a metric under its (scope, name), replacing any earlier one. */
    method MetricReceived(metric: ResourceMetric)
      modifies this`metrics
      ensures metrics == old(metrics)[AspireResourceMetricKey(metric.scope, metric.name) := metric]
    {
      var key := AspireResourceMetricKey(metric.scope, metric.name);
      metrics := metrics[key := metric];
    }

    /** A copy of the stored metrics. */
    function GetMetrics(): (r: map<AspireResourceMetricKey, ResourceMetric>)
      reads this
      ensures r == metrics
    {
      metrics
    }
  }

  /** Once a property fails, the rest of the list is not read. */
  lemma {:induction false} FillAllStops(f: PropertyFields, properties: seq<ResourceProperty>, i: nat)
    requires i < |properties| && !FillAll(f, properties[..i]).failed
    requires Apply(FillAll(f, properties[..i]).fields, properties[i]).None?
    ensures FillAll(f, properties) == FillResult(FillAll(f, properties[..i]).fields, true)
    decreases |properties| - i
  {
    assert properties[..i + 1][..i] == properties[..i];
    if i + 1 < |properties| {
      FillAllFailedStays(f, properties, i + 1);
    } else {
      assert properties[..i + 1] == properties;
    }
  }

  lemma {:induction false} FillAllFailedStays(f: PropertyFields, properties: seq<ResourceProperty>, k: nat)
    requires 0 < k <= |properties| && FillAll(f, properties[..k]).failed
    ensures FillAll(f, properties) == FillAll(f, properties[..k])
    decreases |properties| - k
  {
    if k == |properties| {
      assert properties[..k] == properties;
    } else {
      assert properties[..k + 1][..k] == properties[..k];
      FillAllFailedStays(f, properties, k + 1);
    }
  }
}
