/**
 What the run service and the schedule service look up before they create anything: suites, artifacts,
 configurations and runner profiles, and the checks both services make on them, in order.
 */
module Catalog {
  import opened Text

  datatype Error = ErrValidation | ErrEmptyName | ErrInvalidCronExpression | ErrNotFound | ErrInvalidStateTransition
                 | ErrTerminalState | ErrConflict | ErrRepository | ErrOrchestrator

  datatype Artifact = Artifact(suiteId: string, ready: bool)

  /** Suites with their active flag, artifacts, the suite each configuration belongs to, and profiles. */
  datatype Catalog = Catalog(suites: map<string, bool>, artifacts: map<string, Artifact>, configs: map<string, string>,
                             profiles: set<string>)

  datatype Request = Request(suiteId: string, artifactId: string, configurationId: Option<string>,
                             runnerProfileId: string)

  function Trimmed(request: Request): Request {
    Request(TrimSpace(request.suiteId), TrimSpace(request.artifactId), Present(request.configurationId),
            TrimSpace(request.runnerProfileId))
  }

  function MissingId(request: Request): Option<Error> {
    if "" in {TrimSpace(request.suiteId), TrimSpace(request.artifactId), TrimSpace(request.runnerProfileId)}
    then Some(ErrValidation) else None
  }

  datatype Table = Suites | Artifacts | Configs | Profiles

  /** The first lookup that fails, because its table cannot be read or because of what it finds. */
  function LookupError(c: Catalog, unreadable: set<Table>, request: Request): Option<Error> {
    var suiteId, artifactId, profileId :=
      TrimSpace(request.suiteId), TrimSpace(request.artifactId), TrimSpace(request.runnerProfileId);
    var configId := if request.configurationId.Some? then TrimSpace(request.configurationId.value) else "";
    if Suites in unreadable then Some(ErrRepository)
    else if suiteId !in c.suites then Some(ErrNotFound)
    else if !c.suites[suiteId] then Some(ErrInvalidStateTransition)
    else if Artifacts in unreadable then Some(ErrRepository)
    else if artifactId !in c.artifacts then Some(ErrNotFound)
    else if c.artifacts[artifactId].suiteId != suiteId then Some(ErrValidation)
    else if !c.artifacts[artifactId].ready then Some(ErrInvalidStateTransition)
    else if configId != "" && Configs in unreadable then Some(ErrRepository)
    else if configId != "" && configId !in c.configs then Some(ErrNotFound)
    else if configId != "" && c.configs[configId] != suiteId then Some(ErrValidation)
    else if Profiles in unreadable then Some(ErrRepository)
    else if profileId !in c.profiles then Some(ErrNotFound)
    else None
  }

  /**
   What is asked for can be run: all ids are given; the suite exists and is active; the artifact exists, belongs to
   the suite and is ready; the configuration, if any, exists and belongs to the suite; the profile exists; and the
   tables that say so can be read.
   */
  predicate Runnable(c: Catalog, unreadable: set<Table>, request: Request) {
    var suite, artifact := TrimSpace(request.suiteId), TrimSpace(request.artifactId);
    var profile := TrimSpace(request.runnerProfileId);
    && suite != "" && artifact != "" && profile != ""
    && suite in c.suites && c.suites[suite]
    && artifact in c.artifacts && c.artifacts[artifact] == Artifact(suite, true)
    && profile in c.profiles
    && Suites !in unreadable && Artifacts !in unreadable && Profiles !in unreadable
    && match Present(request.configurationId)
       case Some(config) => config in c.configs && c.configs[config] == suite && Configs !in unreadable
       case None => true
  }

  lemma LookupsSucceed(c: Catalog, unreadable: set<Table>, request: Request)
    ensures MissingId(request).None? && LookupError(c, unreadable, request).None? <==> Runnable(c, unreadable, request)
  {
    hide TrimSpace;
  }

  /** What a failed lookup has found. */
  lemma LookupErrorMeans(c: Catalog, unreadable: set<Table>, request: Request)
    ensures var suite, artifact := TrimSpace(request.suiteId), TrimSpace(request.artifactId);
            var config, profile := Present(request.configurationId), TrimSpace(request.runnerProfileId);
            match LookupError(c, unreadable, request)
            case None => true
            case Some(ErrRepository) => unreadable != {}
            case Some(ErrNotFound) =>
              || suite !in c.suites || artifact !in c.artifacts || profile !in c.profiles
              || (config.Some? && config.value !in c.configs)
            case Some(ErrInvalidStateTransition) =>
              (suite in c.suites && !c.suites[suite]) || (artifact in c.artifacts && !c.artifacts[artifact].ready)
            case Some(ErrValidation) =>
              || (artifact in c.artifacts && c.artifacts[artifact].suiteId != suite)
              || (config.Some? && config.value in c.configs && c.configs[config.value] != suite)
            case Some(_) => false
  {
    hide TrimSpace;
  }
}
