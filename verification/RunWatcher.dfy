/**
 The watcher that carries over to the stored runs what happens to their jobs: it starts, completes, fails and
 aborts runs, and creates the runs of jobs that schedules started.
 */
module RunWatcher {
  import opened Text
  import opened Catalog
  import opened RunStore
  import R = TestRuns

  /** What a job shows: the first of these checks that applies. */
  datatype Phase = BeingDeleted(at: Option<int>) | Succeeded | Broken | Active | Idle

  /** A job as an event shows it. */
  datatype JobEvent = JobEvent(name: string, made: Made, phase: Phase, startTime: Option<int>,
                               completionTime: Option<int>)

  /**
   An event with the answers its handling gets: whether what it looks up can be read, the run found by job name,
   the suite, artifact, configuration and profile of the schedule if there is one, the id of a new run, whether
   the new run and the moved run can be saved.
   */
  datatype Sync = Sync(event: JobEvent, read: bool, byJobName: Option<string>, schedule: Option<Request>, newId: string,
                       now: int, created: bool, saved: bool)

  const DELETED := "job deleted in kubernetes"

  /** The event shows a job that was made, with its labels, in the namespace that is watched. */
  ghost predicate LegalEvent(clusterNamespace: string, s: State, event: JobEvent) {
    && event.name in s.made && s.made[event.name] == event.made
    && event.made.namespace == WatchPlace(clusterNamespace)
  }

  ghost predicate LegalSync(clusterNamespace: string, s: State, sync: Sync) {
    LegalEvent(clusterNamespace, s, sync.event) && IsNamed(s.runs, sync.event.name, sync.byJobName)
  }

  function RunLabel(sync: Sync): string {
    TrimSpace(sync.event.made.runId)
  }

  function ScheduleLabel(sync: Sync): string {
    TrimSpace(sync.event.made.scheduleId)
  }

  /** The stored run of the job: by its label, or else by its name. */
  function Found(runs: Runs, sync: Sync): Option<string> {
    if RunLabel(sync) != "" && RunLabel(sync) in runs then Some(RunLabel(sync)) else sync.byJobName
  }

  /** The run created for the job of a schedule. */
  function CreatedRun(sync: Sync): R.RunState
    requires sync.schedule.Some?
  {
    var q := sync.schedule.value;
    var run := R.NewRun(sync.newId, q.suiteId, q.artifactId, q.configurationId, q.runnerProfileId,
                        Some(ScheduleLabel(sync)), "", sync.now);
    var named := R.Step(run, R.Op.SetK8sJobName(sync.event.name)).0;
    R.Step(named, R.Op.SetK8sNamespace(sync.event.made.namespace)).0
  }

  function RunKey(id: string, file: string): string {
    if TrimSpace(id) == "" then "" else "runs/" + TrimSpace(id) + file
  }

  function OrTime(time: Option<int>, otherwise: int): int {
    if time.Some? then time.value else otherwise
  }

  function StartedFor(run: R.RunState, event: JobEvent, otherwise: int): R.RunState {
    if run.status == R.Queued then R.Step(run, R.Op.Start(event.name, OrTime(event.startTime, otherwise))).0 else run
  }

  /** What the event makes of an active run, if anything. */
  function Advanced(run: R.RunState, sync: Sync): Option<R.RunState>
    requires !R.IsTerminal(run.status)
  {
    var event := sync.event;
    var id := run.identity.id;
    match event.phase
    case BeingDeleted(at) => Some(R.Step(run, R.Op.Abort(DELETED, OrTime(at, sync.now))).0)
    case Succeeded =>
      var finishTime := OrTime(event.completionTime, sync.now);
      Some(R.Step(StartedFor(run, event, finishTime),
                  R.Op.Complete(R.NO_METRICS, RunKey(id, "/summary.json"), RunKey(id, "/run.log"), None, true,
                                finishTime)).0)
    case Broken =>
      Some(R.Step(StartedFor(run, event, sync.now), R.Op.Fail(1, RunKey(id, "/run.log"), sync.now)).0)
    case Active => if run.status == R.Queued then Some(StartedFor(run, event, sync.now)) else None
    case Idle => None
  }

  /** Carrying an event over to a stored run. */
  function AfterAdvance(s: State, run: R.RunState, sync: Sync): (State, Option<Error>) {
    if R.IsTerminal(run.status) || Advanced(run, sync).None? then (s, None)
    else
      (s.(runs := Save(s.runs, Advanced(run, sync).value, sync.saved)),
       if sync.saved then None else Some(ErrRepository))
  }

  function AfterSync(s: State, sync: Sync): (State, Option<Error>)
    requires Found(s.runs, sync).Some? ==> Found(s.runs, sync).value in s.runs
  {
    var found := Found(s.runs, sync);
    if RunLabel(sync) == "" && ScheduleLabel(sync) == "" then (s, None)
    else if !sync.read then (s, Some(ErrRepository))
    else if found.Some? then AfterAdvance(s, s.runs[found.value], sync)
    else if ScheduleLabel(sync) == "" || sync.schedule.None? then (s, None)
    else if MissingId(sync.schedule.value).Some? then (s, MissingId(sync.schedule.value))
    else if !sync.created then (s, Some(ErrRepository))
    else AfterAdvance(s.(runs := Save(s.runs, CreatedRun(sync), true)), CreatedRun(sync), sync)
  }

  /** HandleJobDeletion, when an event says that the job is gone. */
  function AfterDeletion(s: State, event: JobEvent, now: int, read: bool, saved: bool): (State, Option<Error>) {
    var id := TrimSpace(event.made.runId);
    if id == "" then (s, None)
    else if !read then (s, Some(ErrRepository))
    else if id !in s.runs || R.IsTerminal(s.runs[id].status) then (s, None)
    else
      (s.(runs := Save(s.runs, R.Step(s.runs[id], R.Op.Abort(DELETED, now)).0, saved)),
       if saved then None else Some(ErrRepository))
  }

  class RunnerJobWatcher {
    const store: Store

    constructor (store: Store)
      ensures this.store == store
    {
      this.store := store;
    }

    method SyncJob(sync: Sync) returns (error: Option<Error>)
      requires LegalSync(store.clusterNamespace, store.View(), sync)
      modifies store
      ensures (store.View(), error) == AfterSync(old(store.View()), sync)
    {
      hide TrimSpace, R.OrDefault, Advanced, MissingId;
      var runId, scheduleId := TrimSpace(sync.event.made.runId), TrimSpace(sync.event.made.scheduleId);
      if runId == "" && scheduleId == "" {
        return None;
      }
      if !sync.read {
        return Some(ErrRepository);
      }
      var run: R.TestRun?;
      run := null;
      if runId != "" && runId in store.runs {
        run := new R.TestRun(store.runs[runId]);
      } else if sync.byJobName.Some? {
        run := new R.TestRun(store.runs[sync.byJobName.value]);
      } else if scheduleId != "" {
        if sync.schedule.None? {
          return None;
        }
        var invalid;
        run, invalid := NewScheduledRun(sync);
        if invalid.Some? {
          return invalid;
        }
        error := store.SaveRun(run, sync.created);
        if error.Some? {
          return error;
        }
      }
      if run == null || R.IsTerminal(run.status) {
        return None;
      }
      var moved := Advance(run, sync);
      if moved {
        error := store.SaveRun(run, sync.saved);
        return error;
      }
      return None;
    }

    method NewScheduledRun(sync: Sync) returns (run: R.TestRun?, error: Option<Error>)
      requires sync.schedule.Some?
      ensures error == MissingId(sync.schedule.value)
      ensures error.Some? ==> run == null
      ensures error.None? ==> run != null && fresh(run) && run.View() == CreatedRun(sync)
    {
      var q := sync.schedule.value;
      hide TrimSpace, R.OrDefault;
      var created, invalid := R.NewTestRun(sync.newId, q.suiteId, q.artifactId, q.configurationId, q.runnerProfileId,
                                           Some(TrimSpace(sync.event.made.scheduleId)), "", sync.now);
      if invalid.Some? {
        return null, Some(ErrValidation);
      }
      created.SetK8sJobName(sync.event.name);
      created.SetK8sNamespace(sync.event.made.namespace);
      return created, None;
    }

    /** The transitions of SyncJob on an active run; whether there is something to save. */
    method Advance(run: R.TestRun, sync: Sync) returns (moved: bool)
      requires !R.IsTerminal(run.status)
      modifies run
      ensures moved <==> Advanced(old(run.View()), sync).Some?
      ensures run.View() == if moved then Advanced(old(run.View()), sync).value else old(run.View())
    {
      hide TrimSpace;
      var event := sync.event;
      match event.phase
      case BeingDeleted(at) =>
        var _ := run.Abort(DELETED, OrTime(at, sync.now));
        return true;
      case Succeeded =>
        var finishTime := OrTime(event.completionTime, sync.now);
        if run.status == R.Queued {
          var _ := run.Start(event.name, OrTime(event.startTime, finishTime));
        }
        var reportKey, logsKey := RunKey(run.identity.id, "/summary.json"), RunKey(run.identity.id, "/run.log");
        var _ := run.Complete(R.NO_METRICS, reportKey, logsKey, None, true, finishTime);
        return true;
      case Broken =>
        if run.status == R.Queued {
          var _ := run.Start(event.name, OrTime(event.startTime, sync.now));
        }
        var _ := run.Fail(1, RunKey(run.identity.id, "/run.log"), sync.now);
        return true;
      case Active =>
        if run.status == R.Queued {
          var _ := run.Start(event.name, OrTime(event.startTime, sync.now));
          return true;
        }
        return false;
      case Idle =>
        return false;
    }

    method HandleJobDeletion(event: JobEvent, now: int, read: bool, saved: bool) returns (error: Option<Error>)
      modifies store
      ensures (store.View(), error) == AfterDeletion(old(store.View()), event, now, read, saved)
    {
      hide TrimSpace;
      var runId := TrimSpace(event.made.runId);
      if runId == "" {
        return None;
      }
      if !read {
        return Some(ErrRepository);
      }
      if runId !in store.runs {
        return None;
      }
      var run := new R.TestRun(store.runs[runId]);
      if R.IsTerminal(run.status) {
        return None;
      }
      var _ := run.Abort(DELETED, now);
      error := store.SaveRun(run, saved);
    }
  }
}
