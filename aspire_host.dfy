/** An Aspire host as the IDE's service view shows it: a project path fixed
    at construction, a display name, and the run state (active flag,
    dashboard url, protocol model and lifetime) set by `start` and cleared
    by `stop`. */
module AspireHost {
  import opened Common

  /** The session host's protocol model, by identity. */
  datatype ModelHandle = ModelHandle(id: nat)

  /** A run lifetime, by identity. */
  datatype LifetimeHandle = LifetimeHandle(id: nat)

  /** A console created for a run, by identity. */
  datatype ConsoleHandle = ConsoleHandle(id: nat)

  class AspireHost {
    /** The host project's path, as an absolute path string. */
    const projectPath: string
    const projectPathString: string
    var displayName: string
    var isActive: bool
    var dashboardUrl: Option<string>
    var model: Option<ModelHandle>
    var lifetime: Option<LifetimeHandle>
    var consoleView: Option<ConsoleHandle>

    /** The run state is all-or-nothing: an active host has a dashboard url,
        a model and a lifetime, an inactive one has none of them. */
    ghost predicate Valid()
      reads this
    {
      projectPathString == projectPath &&
      (isActive <==> dashboardUrl.Some?) &&
      (isActive <==> model.Some?) &&
      (isActive <==> lifetime.Some?)
    }

    /** A new host is inactive, with no url, model, lifetime or console. */
    constructor (name: string, projectPath: string)
      ensures Valid()
      ensures this.projectPath == projectPath && displayName == name
      ensures !isActive && dashboardUrl.None? && model.None? && lifetime.None? && consoleView.None?
    {
      this.projectPath := projectPath;
      projectPathString := projectPath;
      displayName := name;
      isActive := false;
      dashboardUrl := None;
      model := None;
      lifetime := None;
      consoleView := None;
    }

    /** Marks the host active with the given url, model and lifetime; the
        name and console are kept. */
    method Start(aspireHostDashboardUrl: string, sessionHostModel: ModelHandle, aspireHostServiceLifetime: LifetimeHandle)
      requires Valid()
      modifies this
      ensures Valid()
      ensures isActive && dashboardUrl == Some(aspireHostDashboardUrl)
      ensures model == Some(sessionHostModel) && lifetime == Some(aspireHostServiceLifetime)
      ensures displayName == old(displayName) && consoleView == old(consoleView)
    {
      isActive := true;
      dashboardUrl := Some(aspireHostDashboardUrl);
      model := Some(sessionHostModel);
      lifetime := Some(aspireHostServiceLifetime);
    }

    /** Marks the host inactive and clears the url, model and lifetime,
        whatever the prior state; the name and console are kept. */
    method Stop()
      requires Valid()
      modifies this
      ensures Valid()
      ensures !isActive && dashboardUrl.None? && model.None? && lifetime.None?
      ensures displayName == old(displayName) && consoleView == old(consoleView)
    {
      isActive := false;
      dashboardUrl := None;
      model := None;
      lifetime := None;
    }

    /** Renames the host; nothing else changes. */
    method UpdateName(name: string)
      requires Valid()
      modifies this`displayName
      ensures Valid()
      ensures displayName == name
    {
      displayName := name;
    }

    /** Attaches the console created for a run's process; nothing else
        changes. */
    method UpdateConsole(console: ConsoleHandle)
      requires Valid()
      modifies this`consoleView
      ensures Valid()
      ensures consoleView == Some(console)
    {
      consoleView := Some(console);
    }
  }
}
