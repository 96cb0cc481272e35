/**
 The run service. Every operation loads a copy of a run, changes it and saves it back. What the outside answers
 only matters by what it is, and each operation takes it as an input.
 */
module RunService {
  import opened Text
  import opened Catalog
  import opened RunStore
  import R = TestRuns

  /** A parsed summary: opaque to the service but for what it passes on. */
  datatype Report = Report(metrics: R.RunMetrics, slaPassed: bool, rawJson: string)

  /**
   What stays the same: what there is to run, the summary parser, the namespaces the service and the
   orchestrator are set to.
   */
  datatype Setting = Setting(catalog: Catalog, parse: string -> Option<Report>, runnerNamespace: string,
                             clusterNamespace: string)

  datatype CompleteCommand = CompleteCommand(
    runId: string,
    finishedAt: Option<int>,
    reportKey: string,
    logsKey: string,
    exitCode: Option<int>,
    summaryJson: string)

  /**
   One call with the answers it gets: which tables and whether the run can be read, whether each save, delete or
   abort of a job works, the job name the orchestrator dispatched, the run found by job name, what the storage
   holds under the report key.
   */
  datatype Call =
    | TriggerRun(request: Request, unreadable: set<Table>, namespace: Option<string>, id: string, now: int, saved: bool,
                 dispatched: Option<string>, savedAgain: bool)
    | AbortRun(runId: string, reason: string, now: int, read: bool, jobAborted: bool, saved: bool)
    | CompleteRun(command: CompleteCommand, byJobName: Option<string>, stored: Option<string>, now: int, read: bool,
                  saved: bool)
    | CleanupRun(runId: string, now: int, read: bool, jobAborted: bool, saved: bool)
    | DeleteRun(runId: string, read: bool, jobAborted: bool, deleted: bool)

  datatype Reply = Run(run: R.RunState) | Done | Rejected(error: Error)

  function Saved(s: State, run: R.RunState, works: bool): (State, Reply) {
    (s.(runs := Save(s.runs, run, works)), if works then Run(run) else Rejected(ErrRepository))
  }

  /** The run a trigger creates. */
  function Triggered(e: Setting, call: Call): R.RunState
    requires call.TriggerRun?
  {
    var q := call.request;
    var namespace := Present(call.namespace);
    R.NewRun(call.id, q.suiteId, q.artifactId, q.configurationId, q.runnerProfileId, None,
             if namespace.Some? then namespace.value else e.runnerNamespace, call.now)
  }

  function AfterTrigger(e: Setting, s: State, call: Call): (State, Reply)
    requires call.TriggerRun?
  {
    var q := call.request;
    if MissingId(q).Some? then (s, Rejected(MissingId(q).value))
    else if LookupError(e.catalog, call.unreadable, q).Some? then
      (s, Rejected(LookupError(e.catalog, call.unreadable, q).value))
    else if !call.saved then (s, Rejected(ErrRepository))
    else
      var run := Triggered(e, call);
      var queued := s.(runs := Save(s.runs, run, true));
      match call.dispatched
      case None =>
        (Saved(queued, R.Step(run, R.Op.Fail(1, "", call.now)).0, call.savedAgain).0, Rejected(ErrOrchestrator))
      case Some(jobName) =>
        var made := Made(DispatchPlace(e.clusterNamespace, run.k8sNamespace), run.identity.id, "");
        Saved(WithJob(queued, jobName, made), R.Step(run, R.Op.SetK8sJobName(jobName)).0, call.savedAgain)
  }

  /** The errors of finding the run a call names, before anything is done. */
  function FindError(runs: Runs, id: string, read: bool): Option<Error> {
    if id == "" then Some(ErrValidation)
    else if !read then Some(ErrRepository)
    else if id !in runs then Some(ErrNotFound)
    else None
  }

  function AfterAbort(e: Setting, s: State, call: Call): (State, Reply)
    requires call.AbortRun?
  {
    var id := TrimSpace(call.runId);
    var why := if TrimSpace(call.reason) == "" then "manual cancellation" else TrimSpace(call.reason);
    if FindError(s.runs, id, call.read).Some? then (s, Rejected(FindError(s.runs, id, call.read).value))
    else if R.IsTerminal(s.runs[id].status) then (s, Rejected(ErrTerminalState))
    else
      var purged := WithoutJob(e.clusterNamespace, s, s.runs[id], call.jobAborted);
      Saved(purged, R.Step(s.runs[id], R.Op.Abort(why, call.now)).0, call.saved)
  }

  function AfterCleanup(e: Setting, s: State, call: Call): (State, Reply)
    requires call.CleanupRun?
  {
    var id := TrimSpace(call.runId);
    if FindError(s.runs, id, call.read).Some? then (s, Rejected(FindError(s.runs, id, call.read).value))
    else
      var cleaned := WithoutJob(e.clusterNamespace, s, s.runs[id], call.jobAborted);
      if R.IsTerminal(s.runs[id].status) then (cleaned, Run(s.runs[id]))
      else Saved(cleaned, R.Step(s.runs[id], R.Op.Abort("runtime cleaned", call.now)).0, call.saved)
  }

  function AfterDelete(e: Setting, s: State, call: Call): (State, Reply)
    requires call.DeleteRun?
  {
    var id := TrimSpace(call.runId);
    if FindError(s.runs, id, call.read).Some? then (s, Rejected(FindError(s.runs, id, call.read).value))
    else if !R.IsTerminal(s.runs[id].status) then (s, Rejected(ErrConflict))
    else
      var purged := WithoutJob(e.clusterNamespace, s, s.runs[id], call.jobAborted);
      if call.deleted then (purged.(runs := s.runs - {id}), Done) else (purged, Rejected(ErrRepository))
  }

  function FirstPresent(first: string, second: string, third: string): string {
    if first != "" then first else if second != "" then second else third
  }

  /** The summary the service goes by: the command's, or the stored one when the command's is blank. */
  function ResolvedSummary(command: CompleteCommand, stored: Option<string>): string {
    if TrimSpace(command.summaryJson) == "" && stored.Some? then stored.value else command.summaryJson
  }

  /** The run a completion names: by id, or else by job name. */
  function Named(runs: Runs, call: Call): Option<string>
    requires call.CompleteRun?
  {
    if TrimSpace(call.command.runId) in runs then Some(TrimSpace(call.command.runId)) else call.byJobName
  }

  /** A run without a report has failed; one with a report is complete. */
  function Concluded(run: R.RunState, report: Option<Report>, reportKey: string, logsKey: string, exitCode: Option<int>,
                     finishTime: int)
    : (R.RunState, Option<Error>)
  {
    match report
    case None =>
      var (failed, error) := R.Step(run, R.Op.Fail(if exitCode.Some? then exitCode.value else 0, logsKey, finishTime));
      (failed, if error.Some? then Some(TransitionError(error.value)) else None)
    case Some(parsed) =>
      var (completed, error) :=
        R.Step(run,
               R.Op.Complete(parsed.metrics, reportKey, logsKey, Some(parsed.rawJson), parsed.slaPassed, finishTime));
      if error.Some? then (completed, Some(TransitionError(error.value)))
      else if exitCode.Some? then (R.Step(completed, R.Op.SetExitCode(exitCode.value)).0, None)
      else (completed, None)
  }

  /** The run that completing makes of an active one. */
  function Ended(parse: string -> Option<Report>, run: R.RunState, command: CompleteCommand, stored: Option<string>,
                 now: int)
    : (R.RunState, Option<Error>)
  {
    var finishTime := if command.finishedAt.Some? then command.finishedAt.value else now;
    var started := if run.status == R.Queued then R.Step(run, R.Op.Start(run.k8sJobName, finishTime)).0 else run;
    var reportKey :=
      FirstPresent(TrimSpace(command.reportKey), started.s3ReportKey, "runs/" + started.identity.id + "/summary.json");
    var logsKey :=
      FirstPresent(TrimSpace(command.logsKey), started.s3LogsKey, "runs/" + started.identity.id + "/run.log");
    var summary := ResolvedSummary(command, stored);
    var report := if TrimSpace(summary) == "" then None else parse(summary);
    Concluded(started, report, reportKey, logsKey, command.exitCode, finishTime)
  }

  /** What a repository can answer. */
  ghost predicate LegalAnswer(runs: Runs, call: Call) {
    call.CompleteRun? ==> IsNamed(runs, TrimSpace(call.command.runId), call.byJobName)
  }

  function AfterComplete(e: Setting, s: State, call: Call): (State, Reply)
    requires call.CompleteRun? && LegalAnswer(s.runs, call)
  {
    var named := Named(s.runs, call);
    if TrimSpace(call.command.runId) == "" then (s, Rejected(ErrValidation))
    else if !call.read then (s, Rejected(ErrRepository))
    else if named.None? then (s, Rejected(ErrNotFound))
    else if R.IsTerminal(s.runs[named.value].status) then (s, Rejected(ErrTerminalState))
    else
      var (run, error) := Ended(e.parse, s.runs[named.value], call.command, call.stored, call.now);
      if error.Some? then (s, Rejected(error.value)) else Saved(s, run, call.saved)
  }

  function AfterCall(e: Setting, s: State, call: Call): (State, Reply)
    requires LegalAnswer(s.runs, call)
  {
    match call
    case TriggerRun(_, _, _, _, _, _, _, _) => AfterTrigger(e, s, call)
    case AbortRun(_, _, _, _, _, _) => AfterAbort(e, s, call)
    case CompleteRun(_, _, _, _, _, _) => AfterComplete(e, s, call)
    case CleanupRun(_, _, _, _, _) => AfterCleanup(e, s, call)
    case DeleteRun(_, _, _, _) => AfterDelete(e, s, call)
  }

  // The service.

  class RunService {
    const setting: Setting
    const store: Store

    constructor (setting: Setting, store: Store)
      requires store.clusterNamespace == setting.clusterNamespace
      ensures this.setting == setting && this.store == store
    {
      this.setting, this.store := setting, store;
    }

    /** The service and the store it works on are set to the same cluster. */
    predicate Valid() {
      store.clusterNamespace == setting.clusterNamespace
    }

    method TriggerRun(request: Request, unreadable: set<Table>, namespace: Option<string>, id: string, now: int,
                      saved: bool, dispatched: Option<string>,
                      savedAgain: bool)
      returns (reply: Reply)
      requires Valid()
      modifies store
      ensures (store.View(), reply) == AfterTrigger(setting, old(store.View()),
                                              Call.TriggerRun(request, unreadable, namespace, id, now, saved,
                                                              dispatched, savedAgain))
    {
      hide TrimSpace, LookupError, DispatchPlace, R.OrDefault;
      var missing := MissingId(request);
      if missing.Some? {
        return Rejected(missing.value);
      }
      var lookup := LookupError(setting.catalog, unreadable, request);
      if lookup.Some? {
        return Rejected(lookup.value);
      }
      var targetNamespace := setting.runnerNamespace;
      if Present(namespace).Some? {
        targetNamespace := Present(namespace).value;
      }
      var run, invalid := R.NewTestRun(id, request.suiteId, request.artifactId, request.configurationId,
                                       request.runnerProfileId, None, targetNamespace, now);
      if invalid.Some? {
        return Rejected(ErrValidation);
      }
      hide MissingId;
      var error := store.SaveRun(run, saved);
      if error.Some? {
        return Rejected(error.value);
      }
      store.DispatchJob(run, dispatched);
      if dispatched.None? {
        var _ := run.Fail(1, "", now);
        var _ := store.SaveRun(run, savedAgain);
        return Rejected(ErrOrchestrator);
      }
      run.SetK8sJobName(dispatched.value);
      error := store.SaveRun(run, savedAgain);
      if error.Some? {
        return Rejected(error.value);
      }
      var state := run.Stored();
      return Run(state);
    }

    method AbortRun(runId: string, reason: string, now: int, read: bool, jobAborted: bool, saved: bool)
      returns (reply: Reply)
      requires Valid()
      modifies store
      ensures (store.View(), reply)
              == AfterAbort(setting, old(store.View()), Call.AbortRun(runId, reason, now, read, jobAborted, saved))
    {
      hide TrimSpace, AbortPlace, JobOf;
      var trimmedId := TrimSpace(runId);
      if trimmedId == "" {
        return Rejected(ErrValidation);
      }
      var trimmedReason := TrimSpace(reason);
      if trimmedReason == "" {
        trimmedReason := "manual cancellation";
      }
      if !read {
        return Rejected(ErrRepository);
      }
      if trimmedId !in store.runs {
        return Rejected(ErrNotFound);
      }
      var run := new R.TestRun(store.runs[trimmedId]);
      if R.IsTerminal(run.status) {
        return Rejected(ErrTerminalState);
      }
      store.AbortJob(run, jobAborted);
      var transition := run.Abort(trimmedReason, now);
      var error := store.SaveRun(run, saved);
      if error.Some? {
        return Rejected(error.value);
      }
      var state := run.Stored();
      return Run(state);
    }

    method CompleteRun(command: CompleteCommand, byJobName: Option<string>, stored: Option<string>, now: int,
                       read: bool, saved: bool)
      returns (reply: Reply)
      requires LegalAnswer(store.runs, Call.CompleteRun(command, byJobName, stored, now, read, saved))
      requires Valid()
      modifies store
      ensures (store.View(), reply)
              == AfterComplete(setting, old(store.View()),
                               Call.CompleteRun(command, byJobName, stored, now, read, saved))
    {
      hide TrimSpace, Ended;
      var runId := TrimSpace(command.runId);
      if runId == "" {
        return Rejected(ErrValidation);
      }
      if !read {
        return Rejected(ErrRepository);
      }
      if runId !in store.runs {
        if byJobName.None? {
          return Rejected(ErrNotFound);
        }
        runId := byJobName.value;
      }
      var run := new R.TestRun(store.runs[runId]);
      if R.IsTerminal(run.status) {
        return Rejected(ErrTerminalState);
      }
      var transition := EndRun(run, command, stored, now);
      if transition.Some? {
        return Rejected(transition.value);
      }
      var error := store.SaveRun(run, saved);
      if error.Some? {
        return Rejected(error.value);
      }
      var state := run.Stored();
      return Run(state);
    }

    method EndRun(run: R.TestRun, command: CompleteCommand, stored: Option<string>, now: int)
      returns (error: Option<Error>)
      modifies run
      ensures (run.View(), error) == Ended(setting.parse, old(run.View()), command, stored, now)
    {
      hide TrimSpace, Concluded;
      var finishTime := now;
      if command.finishedAt.Some? {
        finishTime := command.finishedAt.value;
      }
      if run.status == R.Queued {
        var _ := run.Start(run.k8sJobName, finishTime);
      }
      var reportKey := TrimSpace(command.reportKey);
      if reportKey == "" {
        reportKey := run.s3ReportKey;
      }
      if reportKey == "" {
        reportKey := "runs/" + run.identity.id + "/summary.json";
      }
      var logsKey := TrimSpace(command.logsKey);
      if logsKey == "" {
        logsKey := run.s3LogsKey;
      }
      if logsKey == "" {
        logsKey := "runs/" + run.identity.id + "/run.log";
      }
      var summaryData := command.summaryJson;
      if TrimSpace(summaryData) == "" && stored.Some? {
        summaryData := stored.value;
      }
      var report := None;
      if TrimSpace(summaryData) != "" {
        report := setting.parse(summaryData);
      }
      error := Conclude(run, report, reportKey, logsKey, command.exitCode, finishTime);
    }

    method Conclude(run: R.TestRun, report: Option<Report>, reportKey: string, logsKey: string, exitCode: Option<int>,
                    finishTime: int)
      returns (error: Option<Error>)
      modifies run
      ensures (run.View(), error) == Concluded(old(run.View()), report, reportKey, logsKey, exitCode, finishTime)
    {
      hide TrimSpace;
      if report.None? {
        var transition := run.Fail(if exitCode.Some? then exitCode.value else 0, logsKey, finishTime);
        if transition.Some? {
          return Some(TransitionError(transition.value));
        }
        return None;
      }
      var parsed := report.value;
      var transition :=
        run.Complete(parsed.metrics, reportKey, logsKey, Some(parsed.rawJson), parsed.slaPassed, finishTime);
      if transition.Some? {
        return Some(TransitionError(transition.value));
      }
      if exitCode.Some? {
        run.SetExitCode(exitCode.value);
      }
      return None;
    }

    method CleanupRun(runId: string, now: int, read: bool, jobAborted: bool, saved: bool) returns (reply: Reply)
      requires Valid()
      modifies store
      ensures (store.View(), reply)
              == AfterCleanup(setting, old(store.View()), Call.CleanupRun(runId, now, read, jobAborted, saved))
    {
      hide TrimSpace, AbortPlace, JobOf;
      var trimmedId := TrimSpace(runId);
      if trimmedId == "" {
        return Rejected(ErrValidation);
      }
      if !read {
        return Rejected(ErrRepository);
      }
      if trimmedId !in store.runs {
        return Rejected(ErrNotFound);
      }
      var run := new R.TestRun(store.runs[trimmedId]);
      store.AbortJob(run, jobAborted);
      if !R.IsTerminal(run.status) {
        var transition := run.Abort("runtime cleaned", now);
        var error := store.SaveRun(run, saved);
        if error.Some? {
          return Rejected(error.value);
        }
      }
      var state := run.Stored();
      return Run(state);
    }

    /** The storage's answers are only logged, so they are no inputs. */
    method DeleteRun(runId: string, read: bool, jobAborted: bool, deleted: bool) returns (reply: Reply)
      requires Valid()
      modifies store
      ensures (store.View(), reply)
              == AfterDelete(setting, old(store.View()), Call.DeleteRun(runId, read, jobAborted, deleted))
    {
      hide TrimSpace, AbortPlace, JobOf;
      var trimmedId := TrimSpace(runId);
      if trimmedId == "" {
        return Rejected(ErrValidation);
      }
      if !read {
        return Rejected(ErrRepository);
      }
      if trimmedId !in store.runs {
        return Rejected(ErrNotFound);
      }
      var run := new R.TestRun(store.runs[trimmedId]);
      if !R.IsTerminal(run.status) {
        return Rejected(ErrConflict);
      }
      store.AbortJob(run, jobAborted);
      if !deleted {
        return Rejected(ErrRepository);
      }
      store.runs := store.runs - {trimmedId};
      return Done;
    }
  }
}
