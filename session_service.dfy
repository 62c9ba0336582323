/** The session host's session registry: `Create` builds a session model
    from a launch request (the environment without its null-valued
    variables, the telemetry service name taken from `OTEL_SERVICE_NAME`)
    and stores it under the string form of a fresh id unless that key is
    taken; `Delete` removes the entry stored under an id's string form. */
module SessionService {
  import opened Common
  import opened OTelUtils

  const TelemetryServiceName: string := "OTEL_SERVICE_NAME"

  /** A 128-bit id, as its 16 bytes in the order its "D" format prints
      them. The id is drawn at random by the caller. */
  type Guid = b: seq<bv8> | |b| == 16 witness [0, 0, 0, 0, 0, 0, 0, 0, 0, 0, 0, 0, 0, 0, 0, 0]

  /** The "D" format: 32 lowercase hex digits in groups of 8-4-4-4-12,
      separated by dashes. */
  function GuidText(id: Guid): (s: string)
    ensures |s| == 36
    ensures s[8] == '-' && s[13] == '-' && s[18] == '-' && s[23] == '-'
  {
    HexEncode(id[..4]) + "-" + HexEncode(id[4..6]) + "-" + HexEncode(id[6..8]) + "-" +
    HexEncode(id[8..10]) + "-" + HexEncode(id[10..])
  }

  /** Reads the id back from its "D" text, group by group. */
  function GuidOfText(s: string): seq<bv8>
    requires |s| == 36
  {
    HexDecode(s[..8]) + HexDecode(s[9..13]) + HexDecode(s[14..18]) + HexDecode(s[19..23]) + HexDecode(s[24..])
  }

  lemma GuidTextRoundTrip(id: Guid)
    ensures GuidOfText(GuidText(id)) == id
  {
    var s := GuidText(id);
    assert s[..8] == HexEncode(id[..4]);
    assert s[9..13] == HexEncode(id[4..6]);
    assert s[14..18] == HexEncode(id[6..8]);
    assert s[19..23] == HexEncode(id[8..10]);
    assert s[24..] == HexEncode(id[10..]);
    HexRoundTrip(id[..4]);
    HexRoundTrip(id[4..6]);
    HexRoundTrip(id[6..8]);
    HexRoundTrip(id[8..10]);
    HexRoundTrip(id[10..]);
    GroupsJoin(id);
  }

  lemma GroupsJoin(id: Guid)
    ensures id[..4] + id[4..6] + id[6..8] + id[8..10] + id[10..] == id
  {
    assert id[..4] + id[4..6] == id[..6];
    assert id[..6] + id[6..8] == id[..8];
    assert id[..8] + id[8..10] == id[..10];
    assert id[..10] + id[10..] == id;
  }

  /** Distinct ids have distinct string forms, so the key `Create` stores
      under and the key `Delete` removes are the same exactly when the ids
      are. */
  lemma GuidTextInjective(a: Guid, b: Guid)
    ensures GuidText(a) == GuidText(b) <==> a == b
  {
    if GuidText(a) == GuidText(b) {
      GuidTextRoundTrip(a);
      GuidTextRoundTrip(b);
    }
  }

  /** A variable of the launch request; its value may be null. */
  datatype EnvironmentVariable = EnvironmentVariable(name: string, value: Option<string>)

  datatype Session = Session(
    projectPath: string,
    debug: bool,
    env: Option<seq<EnvironmentVariable>>,
    args: Option<seq<string>>)

  datatype EnvironmentVariableModel = EnvironmentVariableModel(name: string, value: string)

  datatype SessionModel = SessionModel(
    id: string,
    projectPath: string,
    debug: bool,
    envs: Option<seq<EnvironmentVariableModel>>,
    args: Option<seq<string>>,
    telemetryServiceName: Option<string>)

  /** One variable as kept by the filter: none when its value is null. */
  function FilterOne(v: EnvironmentVariable): seq<EnvironmentVariableModel>
  {
    if v.value.Some? then [EnvironmentVariableModel(v.name, v.value.value)] else []
  }

  /** The variables with a value, in order, as transport models. */
  function FilterEnvs(env: seq<EnvironmentVariable>): seq<EnvironmentVariableModel>
  {
    if env == [] then [] else FilterEnvs(env[..|env| - 1]) + FilterOne(env[|env| - 1])
  }

  /** Filtering distributes over concatenation: the kept variables of a
      list are those of its parts, in order. */
  lemma {:induction false} FilterEnvsAppend(first: seq<EnvironmentVariable>, second: seq<EnvironmentVariable>)
    ensures FilterEnvs(first + second) == FilterEnvs(first) + FilterEnvs(second)
    decreases |second|
  {
    if second != [] {
      var n := |second| - 1;
      assert (first + second)[..|first + second| - 1] == first + second[..n];
      assert (first + second)[|first + second| - 1] == second[n];
      FilterEnvsAppend(first, second[..n]);
      assert FilterEnvs(first + second) == FilterEnvs(first + second[..n]) + FilterOne(second[n]);
      assert FilterEnvs(second) == FilterEnvs(second[..n]) + FilterOne(second[n]);
      assert FilterEnvs(first) + FilterEnvs(second[..n]) + FilterOne(second[n]) ==
             FilterEnvs(first) + (FilterEnvs(second[..n]) + FilterOne(second[n]));
    } else {
      assert first + second == first;
    }
  }

  /** When every variable has a value, all of them are kept, in order, with
      their names and values. */
  lemma {:induction false} FilterEnvsKeepsValued(env: seq<EnvironmentVariable>)
    requires forall i :: 0 <= i < |env| ==> env[i].value.Some?
    ensures |FilterEnvs(env)| == |env|
    ensures forall i :: 0 <= i < |env| ==>
      FilterEnvs(env)[i] == EnvironmentVariableModel(env[i].name, env[i].value.value)
  {
    if env != [] {
      FilterEnvsKeepsValued(env[..|env| - 1]);
    }
  }

  /** Null-valued variables are dropped. */
  lemma {:induction false} FilterEnvsDropsNull(env: seq<EnvironmentVariable>)
    requires forall i :: 0 <= i < |env| ==> env[i].value.None?
    ensures FilterEnvs(env) == []
  {
    if env != [] {
      FilterEnvsDropsNull(env[..|env| - 1]);
    }
  }

  /** The telemetry service name: the value of the first `OTEL_SERVICE_NAME`
      variable, null when there is none, when its value is null, or when the
      request carries no environment. */
  function ServiceNameOf(env: Option<seq<EnvironmentVariable>>): (r: Option<string>)
    ensures env.None? ==> r.None?
    ensures env.Some? && IndexOf(Project(env.value, (v: EnvironmentVariable) => v.name), TelemetryServiceName).None? ==> r.None?
    ensures env.Some? && IndexOf(Project(env.value, (v: EnvironmentVariable) => v.name), TelemetryServiceName).Some? ==>
      r == env.value[IndexOf(Project(env.value, (v: EnvironmentVariable) => v.name), TelemetryServiceName).value].value
  {
    match env
    case None => None
    case Some(vars) =>
      match IndexOf(Project(vars, (v: EnvironmentVariable) => v.name), TelemetryServiceName)
      case None => None
      case Some(i) => vars[i].value
  }

  /** The session model stored for a request under `key`. */
  function BuildModel(session: Session, key: string): (m: SessionModel)
    ensures m.id == key && m.projectPath == session.projectPath && m.debug == session.debug && m.args == session.args
    ensures session.env.None? <==> m.envs.None?
    ensures session.env.Some? ==> m.envs == Some(FilterEnvs(session.env.value))
    ensures session.env.None? ==> m.telemetryServiceName.None?
    ensures m.telemetryServiceName == ServiceNameOf(session.env)
  {
    SessionModel(
      key,
      session.projectPath,
      session.debug,
      match session.env
        case None => None
        case Some(vars) => Some(FilterEnvs(vars)),
      session.args,
      ServiceNameOf(session.env))
  }

  class SessionService {
    /** The protocol model's session map, keyed by id text. */
    var sessions: map<string, SessionModel>

    /** Every session is stored under its own id. */
    ghost predicate Valid()
      reads this
    {
      forall k :: k in sessions ==> sessions[k].id == k
    }

    constructor ()
      ensures Valid() && sessions == map[]
    {
      sessions := map[];
    }

    /** Stores the request's model under the string form of `id` (the fresh
        random id) if that key is free, returning the id; returns null and
        changes nothing if the key is taken. */
    method Create(session: Session, id: Guid) returns (r: Option<Guid>)
      requires Valid()
      modifies this
      ensures Valid()
      ensures r.Some? <==> GuidText(id) !in old(sessions)
      ensures r.Some? ==> r.value == id && sessions == old(sessions)[GuidText(id) := BuildModel(session, GuidText(id))]
      ensures r.None? ==> sessions == old(sessions)
    {
      var stringId := GuidText(id);
      var sessionModel := BuildModel(session, stringId);
      if stringId !in sessions {
        sessions := sessions[stringId := sessionModel];
        r := Some(id);
      } else {
        r := None;
      }
    }

    /** Removes the session stored under the string form of `id`, returning
        whether there was one. */
    method Delete(id: Guid) returns (removed: bool)
      requires Valid()
      modifies this
      ensures Valid()
      ensures removed <==> GuidText(id) in old(sessions)
      ensures sessions == old(sessions) - {GuidText(id)}
    {
      var key := GuidText(id);
      removed := key in sessions;
      sessions := sessions - {key};
    }
  }
}
