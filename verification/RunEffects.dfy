/** What completing a run, and an event of its job, make of each field of an active run. */
module RunEffects {
  import opened Text
  import opened RunStore
  import opened RunService
  import opened RunWatcher
  import R = TestRuns

  lemma ActiveMeans(run: R.RunState)
    ensures run.status in {R.Queued, R.Running} <==> !R.IsTerminal(run.status)
  {
    match run.status
    case Queued =>
    case Running =>
    case Completed =>
    case Failed =>
    case Aborted =>
    case Archived =>
  }

  /** The report a completion goes by: what the summary parses to, the stored one if the command's is blank. */
  function ReportOf(parse: string -> Option<Report>, command: CompleteCommand, stored: Option<string>): Option<Report> {
    if TrimSpace(command.summaryJson) != "" then parse(command.summaryJson)
    else if stored.Some? && TrimSpace(stored.value) != "" then parse(stored.value)
    else None
  }

  /** The key a completion stores: the command's, else the run's own, else the standard one of the run. */
  function KeyFor(given: string, own: string, standard: string): string {
    if TrimSpace(given) != "" then TrimSpace(given) else if own != "" then TrimSpace(own) else standard
  }

  lemma StandardKey(id: string)
    ensures TrimSpace("runs/" + id + "/summary.json") == "runs/" + id + "/summary.json"
    ensures TrimSpace("runs/" + id + "/run.log") == "runs/" + id + "/run.log"
  {
    TrimSpaceKeeps("runs/" + id + "/summary.json");
    TrimSpaceKeeps("runs/" + id + "/run.log");
  }

  lemma FirstKey(given: string, own: string, standard: string)
    requires TrimSpace(standard) == standard
    ensures TrimSpace(FirstPresent(TrimSpace(given), own, standard)) == KeyFor(given, own, standard)
  {
    TrimSpaceOnce(given);
    hide TrimSpace;
  }

  lemma ConcludedFields(run: R.RunState, report: Option<Report>, reportKey: string, logsKey: string,
                        exitCode: Option<int>, finishTime: int)
    requires run.status == R.Running
    ensures Concluded(run, report, reportKey, logsKey, exitCode, finishTime) ==
            (match report
             case None =>
               run.(status := R.Failed, finishedAt := Some(finishTime), slaPassed := Some(false),
                    exitCode := if exitCode.Some? then exitCode else Some(0), s3LogsKey := TrimSpace(logsKey))
             case Some(Report(metrics, slaPassed, rawJson)) =>
               run.(status := R.Completed, finishedAt := Some(finishTime), slaPassed := Some(slaPassed),
                    exitCode := if exitCode.Some? then exitCode else Some(0), s3LogsKey := TrimSpace(logsKey),
                    s3ReportKey := TrimSpace(reportKey), metrics := metrics, summaryJson := Some(rawJson)),
             None)
  {
    hide TrimSpace;
  }

  lemma StartFields(run: R.RunState, time: int)
    requires run.status == R.Queued && R.Named(run)
    ensures R.Step(run, R.Op.Start(run.k8sJobName, time)).0 == run.(status := R.Running, startedAt := Some(time))
  {
    hide TrimSpace;
  }

  /**
   An active run after its completion. With a report it is COMPLETED and has the report's metrics, SLA result and
   text, and the key of the report; without one it is FAILED and its SLA not met. Either way it has a finish time,
   an exit code and the key of its log, and counts as started when it finished if nothing said that it started.
   */
  function CompletedRun(parse: string -> Option<Report>, run: R.RunState, command: CompleteCommand,
                        stored: Option<string>, now: int): R.RunState {
    var id := run.identity.id;
    var finish := if command.finishedAt.Some? then command.finishedAt.value else now;
    var ended := run.(
      finishedAt := Some(finish),
      startedAt := if run.status == R.Queued then Some(finish) else run.startedAt,
      exitCode := if command.exitCode.Some? then command.exitCode else Some(0),
      s3LogsKey := KeyFor(command.logsKey, run.s3LogsKey, "runs/" + id + "/run.log"));
    match ReportOf(parse, command, stored)
    case None => ended.(status := R.Failed, slaPassed := Some(false))
    case Some(Report(metrics, slaPassed, rawJson)) =>
      ended.(status := R.Completed, slaPassed := Some(slaPassed), metrics := metrics, summaryJson := Some(rawJson),
             s3ReportKey := KeyFor(command.reportKey, run.s3ReportKey, "runs/" + id + "/summary.json"))
  }

  /** Completing an active run meets no transition error and makes exactly this of its fields. */
  lemma EndedFields(parse: string -> Option<Report>, run: R.RunState, command: CompleteCommand,
                    stored: Option<string>, now: int)
    requires R.Named(run) && run.status in {R.Queued, R.Running}
    ensures Ended(parse, run, command, stored, now) == (CompletedRun(parse, run, command, stored, now), None)
  {
    hide TrimSpace, Concluded, FirstPresent, KeyFor, R.Step;
    var id := run.identity.id;
    var finish := if command.finishedAt.Some? then command.finishedAt.value else now;
    if run.status == R.Queued {
      StartFields(run, finish);
    }
    var started := if run.status == R.Queued then run.(status := R.Running, startedAt := Some(finish)) else run;
    var reportKey := FirstPresent(TrimSpace(command.reportKey), run.s3ReportKey, "runs/" + id + "/summary.json");
    var logsKey := FirstPresent(TrimSpace(command.logsKey), run.s3LogsKey, "runs/" + id + "/run.log");
    StandardKey(id);
    FirstKey(command.reportKey, run.s3ReportKey, "runs/" + id + "/summary.json");
    FirstKey(command.logsKey, run.s3LogsKey, "runs/" + id + "/run.log");
    ConcludedFields(started, ReportOf(parse, command, stored), reportKey, logsKey, command.exitCode, finish);
  }

  // Events.

  /** The key of a file of a run, for runs that have an id. */
  function FileOf(run: R.RunState, file: string): string {
    var id := TrimSpace(run.identity.id);
    if id == "" then "" else "runs/" + id + "/" + file
  }

  lemma FileKey(run: R.RunState)
    ensures TrimSpace(RunKey(run.identity.id, "/summary.json")) == FileOf(run, "summary.json")
    ensures TrimSpace(RunKey(run.identity.id, "/run.log")) == FileOf(run, "run.log")
  {
    var id := TrimSpace(run.identity.id);
    StandardKey(id);
    TrimSpaceKeeps("");
    hide TrimSpace;
    assert "runs/" + id + "/" + "summary.json" == "runs/" + id + "/summary.json";
    assert "runs/" + id + "/" + "run.log" == "runs/" + id + "/run.log";
  }

  /** A queued run that an event shows at work: it is RUNNING, has the job's name and the time the job started. */
  function AtWork(run: R.RunState, event: JobEvent, otherwise: int): R.RunState {
    if run.status != R.Queued then run
    else
      run.(status := R.Running,
           startedAt := Some(if event.startTime.Some? then event.startTime.value else otherwise),
           k8sJobName := if TrimSpace(event.name) != "" then TrimSpace(event.name) else run.k8sJobName)
  }

  lemma StartedAtWork(run: R.RunState, event: JobEvent, otherwise: int)
    requires run.status in {R.Queued, R.Running}
    ensures StartedFor(run, event, otherwise) == AtWork(run, event, otherwise)
    ensures AtWork(run, event, otherwise).status == R.Running
    ensures AtWork(run, event, otherwise).identity == run.identity
  {
    hide TrimSpace;
  }

  lemma CompletedWithoutReport(run: R.RunState, finish: int)
    requires run.status == R.Running
    ensures var reportKey, logsKey := RunKey(run.identity.id, "/summary.json"), RunKey(run.identity.id, "/run.log");
            R.Step(run, R.Op.Complete(R.NO_METRICS, reportKey, logsKey, None, true, finish)).0 ==
            run.(status := R.Completed, finishedAt := Some(finish), exitCode := Some(0), slaPassed := Some(true),
                 metrics := R.RunMetrics(0, 0, 0.0, 0.0, 0.0, 0.0, 0.0, 0.0), summaryJson := None,
                 s3ReportKey := FileOf(run, "summary.json"), s3LogsKey := FileOf(run, "run.log"))
  {
    FileKey(run);
    hide TrimSpace, FileOf, RunKey;
  }

  lemma FailedAs(run: R.RunState, finish: int)
    requires run.status == R.Running
    ensures R.Step(run, R.Op.Fail(1, RunKey(run.identity.id, "/run.log"), finish)).0 ==
            run.(status := R.Failed, finishedAt := Some(finish), exitCode := Some(1), slaPassed := Some(false),
                 s3LogsKey := FileOf(run, "run.log"))
  {
    FileKey(run);
    hide TrimSpace, FileOf, RunKey;
  }

  lemma AbortedAs(run: R.RunState, reason: string, time: int)
    requires run.status in {R.Queued, R.Running} && TrimSpace(reason) == reason
    ensures R.Step(run, R.Op.Abort(reason, time)) ==
            (run.(status := R.Aborted, finishedAt := Some(time), abortReason := reason), None)
  {
    hide TrimSpace;
  }

  lemma SameFiles(run: R.RunState, other: R.RunState)
    requires other.identity == run.identity
    ensures forall file :: FileOf(other, file) == FileOf(run, file)
  {
  }

  /**
   An active run after an event, by what it shows of the job. Deleted: ABORTED. Succeeded: COMPLETED, SLA met,
   without metrics and summary. Failed: FAILED with exit code 1, SLA not met. Active: RUNNING, if it was queued.
   Otherwise the event has nothing to say.
   */
  function EventRun(run: R.RunState, sync: Sync): Option<R.RunState> {
    var event := sync.event;
    var finish := if event.completionTime.Some? then event.completionTime.value else sync.now;
    match event.phase
    case BeingDeleted(at) =>
      Some(run.(status := R.Aborted, finishedAt := Some(if at.Some? then at.value else sync.now),
                abortReason := "job deleted in kubernetes"))
    case Succeeded =>
      Some(AtWork(run, event, finish).(
        status := R.Completed, finishedAt := Some(finish), exitCode := Some(0), slaPassed := Some(true),
        metrics := R.RunMetrics(0, 0, 0.0, 0.0, 0.0, 0.0, 0.0, 0.0), summaryJson := None,
        s3ReportKey := FileOf(run, "summary.json"), s3LogsKey := FileOf(run, "run.log")))
    case Broken =>
      Some(AtWork(run, event, sync.now).(
        status := R.Failed, finishedAt := Some(sync.now), exitCode := Some(1), slaPassed := Some(false),
        s3LogsKey := FileOf(run, "run.log")))
    case Active => if run.status == R.Queued then Some(AtWork(run, event, sync.now)) else None
    case Idle => None
  }

  /** The transitions an event makes succeed and have exactly this effect on the fields of an active run. */
  lemma AdvancedFields(run: R.RunState, sync: Sync)
    requires run.status in {R.Queued, R.Running}
    ensures Advanced(run, sync) == EventRun(run, sync)
  {
    var event := sync.event;
    var finish := if event.completionTime.Some? then event.completionTime.value else sync.now;
    hide TrimSpace, FileOf, RunKey, R.Step, StartedFor, AtWork;
    match event.phase
    case BeingDeleted(at) =>
      TrimSpaceKeeps("job deleted in kubernetes");
      AbortedAs(run, "job deleted in kubernetes", if at.Some? then at.value else sync.now);
    case Succeeded =>
      StartedAtWork(run, event, finish);
      CompletedWithoutReport(AtWork(run, event, finish), finish);
      SameFiles(run, AtWork(run, event, finish));
    case Broken =>
      StartedAtWork(run, event, sync.now);
      FailedAs(AtWork(run, event, sync.now), sync.now);
      SameFiles(run, AtWork(run, event, sync.now));
    case Active =>
      StartedAtWork(run, event, sync.now);
    case Idle =>
  }

  /** The run stored for the job of a schedule. */
  function ScheduledRun(sync: Sync): R.RunState
    requires sync.schedule.Some?
  {
    var q := sync.schedule.value;
    var namespace := TrimSpace(sync.event.made.namespace);
    R.RunState(R.RunIdentity(sync.newId, TrimSpace(q.suiteId), TrimSpace(q.artifactId), Present(q.configurationId),
                             TrimSpace(q.runnerProfileId), Present(Some(TrimSpace(sync.event.made.scheduleId))),
                             sync.now),
               R.Queued, TrimSpace(sync.event.name), if namespace == "" then "vuhive-runners" else namespace,
               None, None, None, None, R.RunMetrics(0, 0, 0.0, 0.0, 0.0, 0.0, 0.0, 0.0), "", "", None, "")
  }

  lemma CreatedFields(sync: Sync)
    requires sync.schedule.Some?
    ensures CreatedRun(sync) == ScheduledRun(sync)
  {
    hide TrimSpace;
  }

  /** The run a trigger stores first: in the namespace asked for, else the service's, else the default one. */
  function QueuedRun(e: Setting, call: Call): R.RunState
    requires call.TriggerRun?
  {
    var q := call.request;
    var asked, own := Present(call.namespace), TrimSpace(e.runnerNamespace);
    R.RunState(R.RunIdentity(call.id, TrimSpace(q.suiteId), TrimSpace(q.artifactId), Present(q.configurationId),
                             TrimSpace(q.runnerProfileId), None, call.now),
               R.Queued, "", if asked.Some? then asked.value else if own != "" then own else "vuhive-runners",
               None, None, None, None, R.RunMetrics(0, 0, 0.0, 0.0, 0.0, 0.0, 0.0, 0.0), "", "", None, "")
  }

  /** What is stored after a trigger that got its run stored at first. */
  lemma StoredTwice(runs: Runs, run: R.RunState, again: R.RunState, works: bool)
    requires again.identity == run.identity
    ensures Save(Save(runs, run, true), again, works) == runs[run.identity.id := if works then again else run]
  {
  }

  lemma TriggeredFields(e: Setting, call: Call)
    requires call.TriggerRun?
    ensures Triggered(e, call) == QueuedRun(e, call)
  {
    if call.namespace.Some? {
      TrimSpaceOnce(call.namespace.value);
    }
    hide TrimSpace;
  }
}
