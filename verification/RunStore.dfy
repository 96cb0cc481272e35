/**
 What the run service and the job watcher work on: the stored runs and the jobs of the cluster. Both load a
 copy of a run, change it and save it back; a save may fail, and then nothing is stored. Calls to the
 orchestrator work or have no effect.
 */
module RunStore {
  import opened Text
  import opened Catalog
  import R = TestRuns

  type Runs = map<string, R.RunState>

  datatype Job = Job(namespace: string, name: string)

  /** Where a job was created, and its labels: the run it was dispatched for, or the schedule it was created for. */
  datatype Made = Made(namespace: string, runId: string, scheduleId: string)

  /** The stored runs, the jobs there are, and how each job that ever was has been made, by its name. */
  datatype State = State(runs: Runs, jobs: set<Job>, made: map<string, Made>)

  function Save(runs: Runs, run: R.RunState, works: bool): Runs {
    if works then runs[run.identity.id := run] else runs
  }

  function TransitionError(error: R.Error): Error {
    match error
    case ErrValidation => ErrValidation
    case ErrTerminalState => ErrTerminalState
    case ErrInvalidStateTransition => ErrInvalidStateTransition
  }

  /** FindByK8sJobName answers the newest run with the job name, or nothing if there is none. */
  ghost predicate IsNamed(runs: Runs, jobName: string, answer: Option<string>) {
    match answer
    case Some(id) =>
      && id in runs && runs[id].k8sJobName == jobName
      && forall k :: k in runs && runs[k].k8sJobName == jobName ==>
           runs[k].identity.createdAt <= runs[id].identity.createdAt
    case None => forall k :: k in runs ==> runs[k].k8sJobName != jobName
  }

  /** Where the orchestrator creates the job of a run, and where it looks for it to abort it. */
  function DispatchPlace(clusterNamespace: string, namespace: string): string {
    var own := TrimSpace(namespace);
    if (own == "" || own == R.DEFAULT_NAMESPACE) && TrimSpace(clusterNamespace) != "" then TrimSpace(clusterNamespace)
    else if own == "" then R.DEFAULT_NAMESPACE
    else own
  }

  function AbortPlace(clusterNamespace: string, namespace: string): string {
    var own := TrimSpace(namespace);
    if own != "" then own
    else if TrimSpace(clusterNamespace) != "" then TrimSpace(clusterNamespace)
    else R.DEFAULT_NAMESPACE
  }

  /** The namespace the watcher watches, and in which schedules create their jobs. */
  function WatchPlace(clusterNamespace: string): string {
    if TrimSpace(clusterNamespace) != "" then TrimSpace(clusterNamespace) else R.DEFAULT_NAMESPACE
  }

  /** The job that is aborted for a run. */
  function JobOf(clusterNamespace: string, run: R.RunState): Job {
    Job(AbortPlace(clusterNamespace, run.k8sNamespace), TrimSpace(run.k8sJobName))
  }

  function WithoutJob(clusterNamespace: string, s: State, run: R.RunState, works: bool): State {
    if run.k8sJobName != "" && works then s.(jobs := s.jobs - {JobOf(clusterNamespace, run)}) else s
  }

  function WithJob(s: State, name: string, made: Made): State {
    s.(jobs := s.jobs + {Job(made.namespace, name)}, made := s.made[name := made])
  }

  class Store {
    /** The namespace the orchestrator and the watcher are set to. */
    const clusterNamespace: string
    var runs: Runs
    var jobs: set<Job>
    var made: map<string, Made>

    ghost function View(): State
      reads this
    {
      State(runs, jobs, made)
    }

    constructor (clusterNamespace: string)
      ensures this.clusterNamespace == clusterNamespace && View() == State(map[], {}, map[])
    {
      this.clusterNamespace, runs, jobs, made := clusterNamespace, map[], {}, map[];
    }

    method SaveRun(run: R.TestRun, works: bool) returns (error: Option<Error>)
      modifies this`runs
      ensures runs == Save(old(runs), run.View(), works)
      ensures error == if works then None else Some(ErrRepository)
    {
      if !works {
        return Some(ErrRepository);
      }
      var state := run.Stored();
      runs := runs[state.identity.id := state];
      return None;
    }

    /** The orchestrator's DispatchJob, with its answer. */
    method DispatchJob(run: R.TestRun, answer: Option<string>)
      modifies this`jobs, this`made
      ensures View() == match answer
                        case Some(name) =>
                          WithJob(old(View()), name,
                                  Made(DispatchPlace(clusterNamespace, run.k8sNamespace), run.identity.id, ""))
                        case None => old(View())
    {
      if answer.Some? {
        var namespace := DispatchPlace(clusterNamespace, run.k8sNamespace);
        jobs := jobs + {Job(namespace, answer.value)};
        made := made[answer.value := Made(namespace, run.identity.id, "")];
      }
    }

    /** The orchestrator's AbortJob, for runs that have a job; its error is only logged. */
    method AbortJob(run: R.TestRun, works: bool)
      modifies this`jobs
      ensures View() == WithoutJob(clusterNamespace, old(View()), run.View(), works)
    {
      if run.k8sJobName != "" && works {
        jobs := jobs - {Job(AbortPlace(clusterNamespace, run.k8sNamespace), TrimSpace(run.k8sJobName))};
      }
    }
  }
}
