/**
 A test run's lifecycle: the aggregate's methods in place, and what holds in every run of them.
 */
module TestRuns {
  import opened Text

  datatype RunStatus = Queued | Running | Completed | Failed | Aborted | Archived

  datatype RunMetrics = RunMetrics(totalIterations: int, totalRequests: int, avgTps: real, p50DurationMs: real,
                                   p90DurationMs: real, p95DurationMs: real, p99DurationMs: real, errorRatePct: real)

  const NO_METRICS := RunMetrics(0, 0, 0.0, 0.0, 0.0, 0.0, 0.0, 0.0)
  const DEFAULT_NAMESPACE := "vuhive-runners"

  datatype Error = ErrValidation | ErrTerminalState | ErrInvalidStateTransition

  /** What a run is created with and keeps. Times are instants. */
  datatype RunIdentity = RunIdentity(id: string, suiteId: string, artifactId: string, configurationId: Option<string>,
                                     runnerProfileId: string, scheduleId: Option<string>, createdAt: int)

  /** A run as a value: what a repository stores. */
  datatype RunState = RunState(
    identity: RunIdentity,
    status: RunStatus,
    k8sJobName: string,
    k8sNamespace: string,
    startedAt: Option<int>,
    finishedAt: Option<int>,
    exitCode: Option<int>,
    slaPassed: Option<bool>,
    metrics: RunMetrics,
    s3ReportKey: string,
    s3LogsKey: string,
    summaryJson: Option<string>,
    abortReason: string)

  datatype Op =
    | SetK8sJobName(jobName: string)
    | SetK8sNamespace(namespace: string)
    | Start(jobName: string, startTime: int)
    | Complete(metrics: RunMetrics, s3ReportKey: string, s3LogsKey: string, summaryJson: Option<string>,
               slaPassed: bool, finishTime: int)
    | SetExitCode(code: int)
    | Fail(exitCode: int, s3LogsKey: string, finishTime: int)
    | FailWithMetrics(exitCode: int, metrics: RunMetrics, s3ReportKey: string, s3LogsKey: string,
                      summaryJson: Option<string>, finishTime: int)
    | Abort(reason: string, abortTime: int)
    | Archive(archiveTime: int)
    | ClearS3LogsKey
    | ClearS3ReportKey

  predicate IsTerminal(status: RunStatus) {
    status in {Completed, Failed, Aborted, Archived}
  }

  function OrDefault(namespace: string): string {
    if TrimSpace(namespace) == "" then DEFAULT_NAMESPACE else TrimSpace(namespace)
  }

  /** What a call makes of a run, and the error it answers, if any. */
  function Step(r: RunState, op: Op): (RunState, Option<Error>) {
    match op
    case SetK8sJobName(jobName) => (r.(k8sJobName := TrimSpace(jobName)), None)
    case SetK8sNamespace(namespace) => (r.(k8sNamespace := OrDefault(namespace)), None)
    case Start(jobName, startTime) =>
      if IsTerminal(r.status) then (r, Some(ErrTerminalState))
      else if r.status != Queued then (r, Some(ErrInvalidStateTransition))
      else
        var name := TrimSpace(jobName);
        (r.(k8sJobName := if name != "" then name else r.k8sJobName, startedAt := Some(startTime), status := Running),
         None)
    case Complete(metrics, reportKey, logsKey, summary, sla, finishTime) =>
      if IsTerminal(r.status) then (r, Some(ErrTerminalState))
      else if r.status != Running then (r, Some(ErrInvalidStateTransition))
      else (r.(exitCode := Some(0), slaPassed := Some(sla), metrics := metrics, s3ReportKey := TrimSpace(reportKey),
               s3LogsKey := TrimSpace(logsKey), summaryJson := summary, finishedAt := Some(finishTime),
               status := Completed), None)
    case SetExitCode(code) => (r.(exitCode := Some(code)), None)
    case Fail(code, logsKey, finishTime) =>
      if IsTerminal(r.status) then (r, Some(ErrTerminalState))
      else (r.(exitCode := Some(code), slaPassed := Some(false), s3LogsKey := TrimSpace(logsKey),
               finishedAt := Some(finishTime), status := Failed), None)
    case FailWithMetrics(code, metrics, reportKey, logsKey, summary, finishTime) =>
      if IsTerminal(r.status) then (r, Some(ErrTerminalState))
      else (r.(exitCode := Some(code), slaPassed := Some(false), metrics := metrics,
               s3ReportKey := TrimSpace(reportKey), s3LogsKey := TrimSpace(logsKey),
               summaryJson := summary, finishedAt := Some(finishTime), status := Failed), None)
    case Abort(reason, abortTime) =>
      if IsTerminal(r.status) then (r, Some(ErrTerminalState))
      else (r.(abortReason := TrimSpace(reason), finishedAt := Some(abortTime), status := Aborted), None)
    case Archive(_) =>
      if r.status == Archived then (r, Some(ErrTerminalState))
      else if !IsTerminal(r.status) then (r, Some(ErrInvalidStateTransition))
      else (r.(summaryJson := None, status := Archived), None)
    case ClearS3LogsKey => (r.(s3LogsKey := ""), None)
    case ClearS3ReportKey => (r.(s3ReportKey := ""), None)
  }

  /** NewTestRun, for ids that are not blank. */
  function NewRun(id: string, suiteId: string, artifactId: string, configurationId: Option<string>,
                  runnerProfileId: string, scheduleId: Option<string>, namespace: string, now: int): RunState
  {
    RunState(RunIdentity(id, TrimSpace(suiteId), TrimSpace(artifactId), Present(configurationId),
                         TrimSpace(runnerProfileId), Present(scheduleId), now),
             Queued, "", OrDefault(namespace), None, None, None, None, NO_METRICS, "", "", None, "")
  }

  class TestRun {
    const identity: RunIdentity
    var status: RunStatus
    var k8sJobName: string
    var k8sNamespace: string
    var startedAt: Option<int>
    var finishedAt: Option<int>
    var exitCode: Option<int>
    var slaPassed: Option<bool>
    var metrics: RunMetrics
    var s3ReportKey: string
    var s3LogsKey: string
    var summaryJson: Option<string>
    var abortReason: string

    ghost function View(): RunState
      reads this
    {
      RunState(identity, status, k8sJobName, k8sNamespace, startedAt, finishedAt, exitCode, slaPassed, metrics,
               s3ReportKey, s3LogsKey, summaryJson, abortReason)
    }

    /** The object a repository hands out for a stored value, and the one a new run starts as. */
    constructor (state: RunState)
      ensures View() == state
    {
      identity := state.identity;
      status, k8sJobName, k8sNamespace, startedAt :=
        state.status, state.k8sJobName, state.k8sNamespace, state.startedAt;
      finishedAt, exitCode, slaPassed, metrics := state.finishedAt, state.exitCode, state.slaPassed, state.metrics;
      s3ReportKey, s3LogsKey, summaryJson, abortReason :=
        state.s3ReportKey, state.s3LogsKey, state.summaryJson, state.abortReason;
    }

    /** What the repository stores of the object. */
    method Stored() returns (state: RunState)
      ensures state == View()
    {
      state := RunState(identity, status, k8sJobName, k8sNamespace, startedAt, finishedAt, exitCode, slaPassed, metrics,
                        s3ReportKey, s3LogsKey, summaryJson, abortReason);
    }

    method SetK8sJobName(jobName: string)
      modifies this
      ensures View() == Step(old(View()), Op.SetK8sJobName(jobName)).0
    {
      k8sJobName := TrimSpace(jobName);
    }

    method SetK8sNamespace(namespace: string)
      modifies this
      ensures View() == Step(old(View()), Op.SetK8sNamespace(namespace)).0
    {
      hide TrimSpace;
      var ns := TrimSpace(namespace);
      if ns == "" {
        ns := DEFAULT_NAMESPACE;
      }
      k8sNamespace := ns;
    }

    method Start(jobName: string, startTime: int) returns (error: Option<Error>)
      modifies this
      ensures (View(), error) == Step(old(View()), Op.Start(jobName, startTime))
    {
      hide TrimSpace;
      if IsTerminal(status) {
        return Some(ErrTerminalState);
      }
      if status != Queued {
        return Some(ErrInvalidStateTransition);
      }
      var trimmedName := TrimSpace(jobName);
      if trimmedName != "" {
        k8sJobName := trimmedName;
      }
      startedAt := Some(startTime);
      status := Running;
      return None;
    }

    method Complete(metrics: RunMetrics, s3ReportKey: string, s3LogsKey: string, summaryJson: Option<string>,
                    slaPassed: bool, finishTime: int)
      returns (error: Option<Error>)
      modifies this
      ensures (View(), error)
              == Step(old(View()), Op.Complete(metrics, s3ReportKey, s3LogsKey, summaryJson, slaPassed, finishTime))
    {
      hide TrimSpace;
      if IsTerminal(status) {
        return Some(ErrTerminalState);
      }
      if status != Running {
        return Some(ErrInvalidStateTransition);
      }
      exitCode := Some(0);
      this.slaPassed := Some(slaPassed);
      this.metrics := metrics;
      this.s3ReportKey := TrimSpace(s3ReportKey);
      this.s3LogsKey := TrimSpace(s3LogsKey);
      this.summaryJson := summaryJson;
      finishedAt := Some(finishTime);
      status := Completed;
      return None;
    }

    method SetExitCode(code: int)
      modifies this
      ensures View() == Step(old(View()), Op.SetExitCode(code)).0
    {
      exitCode := Some(code);
    }

    method Fail(exitCode: int, s3LogsKey: string, finishTime: int) returns (error: Option<Error>)
      modifies this
      ensures (View(), error) == Step(old(View()), Op.Fail(exitCode, s3LogsKey, finishTime))
    {
      hide TrimSpace;
      if IsTerminal(status) {
        return Some(ErrTerminalState);
      }
      this.exitCode := Some(exitCode);
      slaPassed := Some(false);
      this.s3LogsKey := TrimSpace(s3LogsKey);
      finishedAt := Some(finishTime);
      status := Failed;
      return None;
    }

    method FailWithMetrics(exitCode: int, metrics: RunMetrics, s3ReportKey: string, s3LogsKey: string,
                           summaryJson: Option<string>, finishTime: int)
      returns (error: Option<Error>)
      modifies this
      ensures (View(), error)
              == Step(old(View()),
                      Op.FailWithMetrics(exitCode, metrics, s3ReportKey, s3LogsKey, summaryJson, finishTime))
    {
      hide TrimSpace;
      if IsTerminal(status) {
        return Some(ErrTerminalState);
      }
      this.exitCode := Some(exitCode);
      slaPassed := Some(false);
      this.metrics := metrics;
      this.s3ReportKey := TrimSpace(s3ReportKey);
      this.s3LogsKey := TrimSpace(s3LogsKey);
      this.summaryJson := summaryJson;
      finishedAt := Some(finishTime);
      status := Failed;
      return None;
    }

    method Abort(reason: string, abortTime: int) returns (error: Option<Error>)
      modifies this
      ensures (View(), error) == Step(old(View()), Op.Abort(reason, abortTime))
    {
      hide TrimSpace;
      if IsTerminal(status) {
        return Some(ErrTerminalState);
      }
      abortReason := TrimSpace(reason);
      finishedAt := Some(abortTime);
      status := Aborted;
      return None;
    }

    method Archive(archiveTime: int) returns (error: Option<Error>)
      modifies this
      ensures (View(), error) == Step(old(View()), Op.Archive(archiveTime))
    {
      if status == Archived {
        return Some(ErrTerminalState);
      }
      if !IsTerminal(status) {
        return Some(ErrInvalidStateTransition);
      }
      summaryJson := None;
      status := Archived;
      return None;
    }

    method ClearS3LogsKey()
      modifies this
      ensures View() == Step(old(View()), Op.ClearS3LogsKey).0
    {
      s3LogsKey := "";
    }

    method ClearS3ReportKey()
      modifies this
      ensures View() == Step(old(View()), Op.ClearS3ReportKey).0
    {
      s3ReportKey := "";
    }
  }

  /** NewTestRun: refused without suite, artifact or profile, otherwise a new run. */
  method NewTestRun(id: string, suiteId: string, artifactId: string, configurationId: Option<string>,
                    runnerProfileId: string, scheduleId: Option<string>, namespace: string, now: int)
    returns (run: TestRun?, error: Option<Error>)
    ensures error == if TrimSpace(suiteId) == "" || TrimSpace(artifactId) == "" || TrimSpace(runnerProfileId) == ""
                     then Some(ErrValidation) else None
    ensures error.Some? ==> run == null
    ensures error.None? ==>
              && run != null && fresh(run)
              && run.View()
                 == NewRun(id, suiteId, artifactId, configurationId, runnerProfileId, scheduleId, namespace, now)
  {
    if TrimSpace(suiteId) == "" || TrimSpace(artifactId) == "" || TrimSpace(runnerProfileId) == "" {
      return null, Some(ErrValidation);
    }
    run := new TestRun(NewRun(id, suiteId, artifactId, configurationId, runnerProfileId, scheduleId, namespace, now));
    return run, None;
  }

  // Restoring stored runs.

  function StatusText(status: RunStatus): string {
    match status
    case Queued => "QUEUED"
    case Running => "RUNNING"
    case Completed => "COMPLETED"
    case Failed => "FAILED"
    case Aborted => "ABORTED"
    case Archived => "ARCHIVED"
  }

  function StatusOf(text: string): Option<RunStatus> {
    if text == "QUEUED" then Some(Queued)
    else if text == "RUNNING" then Some(Running)
    else if text == "COMPLETED" then Some(Completed)
    else if text == "FAILED" then Some(Failed)
    else if text == "ABORTED" then Some(Aborted)
    else if text == "ARCHIVED" then Some(Archived)
    else None
  }

  /** NewTestRunWithID: the run made of stored fields; the status is given as text, and `fields` has the others. */
  function Restored(fields: RunState, statusText: string): (run: Option<RunState>)
    ensures run.Some? <==> exists status :: statusText == StatusText(status)
    ensures run.Some? ==>
              var namespace := TrimSpace(fields.k8sNamespace);
              && statusText == StatusText(run.value.status)
              && run.value == fields.(status := run.value.status,
                                      k8sNamespace := if namespace == "" then "vuhive-runners" else namespace)
  {
    match StatusOf(statusText)
    case Some(status) =>
      assert statusText == StatusText(status);
      Some(fields.(status := status, k8sNamespace := OrDefault(fields.k8sNamespace)))
    case None =>
      assert forall status :: statusText != StatusText(status);
      None
  }

  method NewTestRunWithID(fields: RunState, statusText: string) returns (run: TestRun?, error: Option<Error>)
    ensures Restored(fields, statusText).None? ==> run == null && error == Some(ErrInvalidStateTransition)
    ensures Restored(fields, statusText).Some? ==>
              run != null && fresh(run) && error.None? && run.View() == Restored(fields, statusText).value
  {
    var status := StatusOf(statusText);
    if status.None? {
      return null, Some(ErrInvalidStateTransition);
    }
    run := new TestRun(fields.(status := status.value, k8sNamespace := OrDefault(fields.k8sNamespace)));
    return run, None;
  }

  lemma StatusRead(status: RunStatus)
    ensures StatusOf(StatusText(status)) == Some(status)
  {
  }

  lemma RestoredFields(r: RunState)
    requires OrDefault(r.k8sNamespace) == r.k8sNamespace
    ensures Restored(r, StatusText(r.status)) == Some(r)
  {
    StatusRead(r.status);
    hide OrDefault, StatusOf, StatusText;
  }

  lemma OrDefaultOnce(namespace: string)
    ensures OrDefault(OrDefault(namespace)) == OrDefault(namespace)
  {
    TrimSpaceOnce(namespace);
    TrimSpaceKeeps(DEFAULT_NAMESPACE);
    hide TrimSpace;
  }

  /** The state before call `i` of a sequence of calls. */
  function Before(r: RunState, ops: seq<Op>, i: nat): RunState
    requires i <= |ops|
  {
    if i == 0 then r else Step(Before(r, ops, i - 1), ops[i - 1]).0
  }

  lemma {:induction false} NamespaceStays(r: RunState, ops: seq<Op>, i: nat)
    requires OrDefault(r.k8sNamespace) == r.k8sNamespace && i <= |ops|
    ensures OrDefault(Before(r, ops, i).k8sNamespace) == Before(r, ops, i).k8sNamespace
  {
    hide OrDefault, TrimSpace;
    if i == 0 {
    } else {
      NamespaceStays(r, ops, i - 1);
      if ops[i - 1].SetK8sNamespace? {
        OrDefaultOnce(ops[i - 1].namespace);
      }
    }
  }

  /** A run that was created and changed by calls is restored from what was stored of it. */
  lemma RestoredSame(id: string, suiteId: string, artifactId: string, configurationId: Option<string>,
                     runnerProfileId: string, scheduleId: Option<string>, namespace: string, now: int, ops: seq<Op>)
    ensures var start := NewRun(id, suiteId, artifactId, configurationId, runnerProfileId, scheduleId, namespace, now);
            var run := Before(start, ops, |ops|);
            Restored(run, StatusText(run.status)) == Some(run)
  {
    var start := NewRun(id, suiteId, artifactId, configurationId, runnerProfileId, scheduleId, namespace, now);
    OrDefaultOnce(namespace);
    assert start.k8sNamespace == OrDefault(namespace);
    hide *;
    NamespaceStays(start, ops, |ops|);
    RestoredFields(Before(start, ops, |ops|));
  }

  // What calls do, field by field.

  /** The statuses in which a call is accepted. */
  function AcceptedIn(op: Op): set<RunStatus> {
    match op
    case Start(_, _) => {Queued}
    case Complete(_, _, _, _, _, _) => {Running}
    case Fail(_, _, _) => {Queued, Running}
    case FailWithMetrics(_, _, _, _, _, _) => {Queued, Running}
    case Abort(_, _) => {Queued, Running}
    case Archive(_) => {Completed, Failed, Aborted}
    case _ => {Queued, Running, Completed, Failed, Aborted, Archived}
  }

  /** Which calls succeed, and with which error the others are refused. */
  lemma Accepted(r: RunState, op: Op)
    ensures Step(r, op).1.None? <==> r.status in AcceptedIn(op)
    ensures Step(r, op).1.Some? ==>
              && Step(r, op).0 == r
              && Step(r, op).1.value ==
                 if r.status == Archived || (r.status in {Completed, Failed, Aborted} && !op.Archive?)
                 then ErrTerminalState else ErrInvalidStateTransition
  {
    hide TrimSpace, OrDefault;
    match r.status
    case Queued =>
    case Running =>
    case Completed =>
    case Failed =>
    case Aborted =>
    case Archived =>
  }

  /** What a call that succeeds makes of the fields that hold keys of the storage and names of the cluster. */
  lemma KeysAndNames(r: RunState, op: Op)
    requires Step(r, op).1.None?
    ensures var t := Step(r, op).0;
            && t.s3ReportKey == (if op.Complete? || op.FailWithMetrics? then TrimSpace(op.s3ReportKey)
                                 else if op.ClearS3ReportKey? then "" else r.s3ReportKey)
            && t.s3LogsKey == (if op.Complete? || op.Fail? || op.FailWithMetrics? then TrimSpace(op.s3LogsKey)
                               else if op.ClearS3LogsKey? then "" else r.s3LogsKey)
            && t.k8sJobName == (if op.SetK8sJobName? then TrimSpace(op.jobName)
                                else if op.Start? && TrimSpace(op.jobName) != "" then TrimSpace(op.jobName)
                                else r.k8sJobName)
            && t.k8sNamespace == (if !op.SetK8sNamespace? then r.k8sNamespace
                                  else if TrimSpace(op.namespace) == "" then "vuhive-runners"
                                  else TrimSpace(op.namespace))
  {
    hide TrimSpace;
  }

  /** What a call that succeeds makes of each other field. */
  lemma Fields(r: RunState, op: Op)
    requires Step(r, op).1.None?
    ensures var t := Step(r, op).0;
            && t.identity == r.identity
            && t.status == (if op.Start? then Running else if op.Complete? then Completed
                            else if op.Fail? || op.FailWithMetrics? then Failed
                            else if op.Abort? then Aborted else if op.Archive? then Archived else r.status)
            && t.startedAt == (if op.Start? then Some(op.startTime) else r.startedAt)
            && t.finishedAt == (if op.Complete? || op.Fail? || op.FailWithMetrics? then Some(op.finishTime)
                                else if op.Abort? then Some(op.abortTime) else r.finishedAt)
            && t.exitCode == (if op.Complete? then Some(0)
                              else if op.Fail? || op.FailWithMetrics? then Some(op.exitCode)
                              else if op.SetExitCode? then Some(op.code) else r.exitCode)
            && t.slaPassed == (if op.Complete? then Some(op.slaPassed)
                               else if op.Fail? || op.FailWithMetrics? then Some(false) else r.slaPassed)
            && t.metrics == (if op.Complete? || op.FailWithMetrics? then op.metrics else r.metrics)
            && t.summaryJson == (if op.Complete? || op.FailWithMetrics? then op.summaryJson
                                 else if op.Archive? then None else r.summaryJson)
            && t.abortReason == (if op.Abort? then TrimSpace(op.reason) else r.abortReason)
  {
    hide TrimSpace, OrDefault;
  }

  /** What a new run starts with. */
  lemma NewRunFields(id: string, suiteId: string, artifactId: string, configurationId: Option<string>,
                     runnerProfileId: string, scheduleId: Option<string>, namespace: string, now: int)
    ensures var r := NewRun(id, suiteId, artifactId, configurationId, runnerProfileId, scheduleId, namespace, now);
            && r.identity.id == id && r.identity.createdAt == now
            && r.identity.suiteId == TrimSpace(suiteId) && r.identity.artifactId == TrimSpace(artifactId)
            && r.identity.runnerProfileId == TrimSpace(runnerProfileId)
            && r.identity.configurationId == Present(configurationId) && r.identity.scheduleId == Present(scheduleId)
            && r.status == Queued && r.k8sJobName == ""
            && r.k8sNamespace == (if TrimSpace(namespace) == "" then "vuhive-runners" else TrimSpace(namespace))
            && r.startedAt.None? && r.finishedAt.None? && r.exitCode.None? && r.slaPassed.None?
            && r.metrics == RunMetrics(0, 0, 0.0, 0.0, 0.0, 0.0, 0.0, 0.0) && r.summaryJson.None?
            && r.s3ReportKey == r.s3LogsKey == r.abortReason == ""
  {
    hide TrimSpace;
  }

  // Runs of calls.

  /** The names of the run's job and namespace have no space around them, and there is a namespace. */
  ghost predicate Named(r: RunState) {
    TrimSpace(r.k8sJobName) == r.k8sJobName && TrimSpace(r.k8sNamespace) == r.k8sNamespace != ""
  }

  lemma OrDefaultNamed(namespace: string)
    ensures TrimSpace(OrDefault(namespace)) == OrDefault(namespace) != ""
  {
    TrimSpaceOnce(namespace);
    TrimSpaceKeeps(DEFAULT_NAMESPACE);
    hide TrimSpace;
  }

  lemma StepNamed(r: RunState, op: Op)
    requires Named(r)
    ensures Named(Step(r, op).0)
  {
    TrimSpaceKeeps("");
    if op.SetK8sJobName? || op.Start? {
      TrimSpaceOnce(op.jobName);
    } else if op.SetK8sNamespace? {
      OrDefaultNamed(op.namespace);
    }
    hide TrimSpace, OrDefault;
  }

  lemma NewNamed(id: string, suiteId: string, artifactId: string, configurationId: Option<string>,
                 runnerProfileId: string, scheduleId: Option<string>, namespace: string, now: int)
    ensures Named(NewRun(id, suiteId, artifactId, configurationId, runnerProfileId, scheduleId, namespace, now))
  {
    TrimSpaceKeeps("");
    OrDefaultNamed(namespace);
    hide TrimSpace, OrDefault;
  }

  ghost predicate Consistent(r: RunState) {
    && Named(r)
    && (r.finishedAt.Some? <==> IsTerminal(r.status))
    && (r.status in {Running, Completed} ==> r.startedAt.Some?)
    && (r.status == Queued ==> r.startedAt.None?)
    && (r.status in {Completed, Failed} ==> r.exitCode.Some? && r.slaPassed.Some?)
    && (r.status == Failed ==> r.slaPassed == Some(false))
    && (!IsTerminal(r.status) ==> r.metrics == NO_METRICS && r.summaryJson.None? && r.slaPassed.None?)
    && (r.status in {Aborted, Archived} ==> r.summaryJson.None?)
    && (r.status == Aborted ==> r.metrics == NO_METRICS && r.slaPassed.None?)
  }

  /** What stays of a run that has ended: its outcome; the status can only become ARCHIVED, which drops the summary. */
  ghost predicate SameOutcome(r: RunState, t: RunState) {
    && t.finishedAt == r.finishedAt && t.startedAt == r.startedAt
    && t.slaPassed == r.slaPassed && t.metrics == r.metrics
    && t.abortReason == r.abortReason
    && (t.status == r.status || t.status == Archived)
    && (t.status == r.status ==> t.summaryJson == r.summaryJson)
    && (t.status == Archived ==> t.summaryJson.None?)
  }

  lemma OutcomeStays(r: RunState, op: Op)
    requires Consistent(r) && IsTerminal(r.status)
    ensures IsTerminal(Step(r, op).0.status) && SameOutcome(r, Step(r, op).0)
  {
    hide TrimSpace, OrDefault, Named;
  }

  lemma StepConsistent(r: RunState, op: Op)
    requires Consistent(r)
    ensures Consistent(Step(r, op).0)
    ensures IsTerminal(r.status) ==> IsTerminal(Step(r, op).0.status) && SameOutcome(r, Step(r, op).0)
  {
    StepNamed(r, op);
    hide TrimSpace, OrDefault, Named, SameOutcome;
    if IsTerminal(r.status) {
      OutcomeStays(r, op);
    }
  }

  /** In every sequence of calls on a new run: see Consistent. */
  lemma {:induction false} CallsConsistent(r: RunState, ops: seq<Op>, i: nat)
    requires Consistent(r) && i <= |ops|
    ensures Consistent(Before(r, ops, i))
  {
    hide Step, Consistent;
    if i == 0 {
    } else {
      CallsConsistent(r, ops, i - 1);
      StepConsistent(Before(r, ops, i - 1), ops[i - 1]);
    }
  }

  lemma NewRunConsistent(id: string, suiteId: string, artifactId: string, configurationId: Option<string>,
                         runnerProfileId: string,
                         scheduleId: Option<string>, namespace: string, now: int, ops: seq<Op>)
    ensures var start := NewRun(id, suiteId, artifactId, configurationId, runnerProfileId, scheduleId, namespace, now);
            Consistent(Before(start, ops, |ops|))
  {
    var start := NewRun(id, suiteId, artifactId, configurationId, runnerProfileId, scheduleId, namespace, now);
    NewNamed(id, suiteId, artifactId, configurationId, runnerProfileId, scheduleId, namespace, now);
    hide Named, Step;
    CallsConsistent(start, ops, |ops|);
  }

  lemma ConsistentOutcome(r: RunState)
    requires Consistent(r)
    ensures SameOutcome(r, r)
  {
  }

  /** Once a run has ended, no call changes its outcome. */
  lemma {:induction false} EndedStays(r: RunState, ops: seq<Op>, i: nat, j: nat)
    requires Consistent(r) && i <= j <= |ops| && IsTerminal(Before(r, ops, i).status)
    ensures IsTerminal(Before(r, ops, j).status) && SameOutcome(Before(r, ops, i), Before(r, ops, j))
    decreases j
  {
    hide Step, Consistent;
    CallsConsistent(r, ops, j);
    if i < j {
      CallsConsistent(r, ops, j - 1);
      EndedStays(r, ops, i, j - 1);
      StepConsistent(Before(r, ops, j - 1), ops[j - 1]);
    } else {
      ConsistentOutcome(Before(r, ops, i));
    }
  }

  /** The calls that end a run, when they succeed. */
  predicate Ends(r: RunState, op: Op) {
    (op.Complete? || op.Fail? || op.FailWithMetrics? || op.Abort?) && Step(r, op).1.None?
  }

  lemma OnlyEndsWrite(r: RunState, op: Op)
    requires Consistent(r)
    ensures Step(r, op).0.metrics != r.metrics ==> Ends(r, op) && (op.Complete? || op.FailWithMetrics?)
    ensures Step(r, op).0.finishedAt != r.finishedAt ==> Ends(r, op)
    ensures IsTerminal(Step(r, op).0.status) && !IsTerminal(r.status) <==> Ends(r, op)
  {
    hide TrimSpace, OrDefault;
  }

  /**
   After a call that ends the run, no later call does; so at most one writes metrics, and at most one a finish
   time.
   */
  lemma OneEnd(r: RunState, ops: seq<Op>, i: nat, j: nat)
    requires Consistent(r) && i < j < |ops|
    requires Ends(Before(r, ops, i), ops[i])
    ensures !Ends(Before(r, ops, j), ops[j])
  {
    hide Step, Consistent, Ends;
    CallsConsistent(r, ops, i);
    CallsConsistent(r, ops, j);
    OnlyEndsWrite(Before(r, ops, i), ops[i]);
    OnlyEndsWrite(Before(r, ops, j), ops[j]);
    EndedStays(r, ops, i + 1, j);
  }
}
