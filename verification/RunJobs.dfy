/**
 The jobs of the cluster beside the stored runs: exactly which jobs no stored run leads to, after any history of
 calls, events, and what happens by itself in the cluster and the database.
 */
module RunJobs {
  import opened Text
  import opened Catalog
  import opened RunStore
  import opened RunService
  import opened RunWatcher
  import opened RunEffects
  import opened RunHistory
  import R = TestRuns
  // What new ids and names are assumed to be.

  /** An id no stored run has and no job is labelled with. */
  ghost predicate FreshId(s: State, id: string) {
    id !in s.runs && forall name :: name in s.made ==> s.made[name].runId != id
  }

  ghost predicate FreshName(s: State, name: string) {
    name !in s.made && name != "" && TrimSpace(name) == name
  }

  /** The ids of new runs and the names of new jobs have not been used before. */
  ghost predicate Fresh(s: State, op: Op) {
    match op
    case Called(call) =>
      call.TriggerRun? ==>
        && FreshId(s, call.id) && call.id != "" && TrimSpace(call.id) == call.id
        && (call.dispatched.Some? ==> FreshName(s, call.dispatched.value))
    case Synced(sync) => FreshId(s, sync.newId)
    case JobScheduled(name, _) => FreshName(s, name)
    case _ => true
  }

  // What a history keeps.

  /** Job names and run labels have no space around them, and no two jobs are labelled with the same run. */
  ghost predicate JobsMade(made: map<string, Made>) {
    && (forall name :: name in made ==>
          name != "" && TrimSpace(name) == name && TrimSpace(made[name].runId) == made[name].runId)
    && (forall name :: name in made && made[name].runId != "" ==> made[name].scheduleId == "")
    && forall name, other :: name in made && other in made && made[name].runId == made[other].runId != "" ==>
         name == other
  }

  /** The job the run `id` has the name of: the one labelled with the run, or one that is labelled with no run. */
  ghost predicate NameFits(made: map<string, Made>, id: string, name: string) {
    && name in made
    && (made[name].runId == id || (made[name].runId == "" && forall other :: other in made ==> made[other].runId != id))
  }

  ghost predicate RunsTracked(runs: Runs, made: map<string, Made>) {
    && (forall id :: id in runs ==> runs[id].identity.id == id)
    && (forall id :: id in runs && runs[id].k8sJobName != "" ==> NameFits(made, id, runs[id].k8sJobName))
    && forall id, other :: id in runs && other in runs && runs[id].k8sJobName == runs[other].k8sJobName != "" ==>
         id == other
  }

  ghost predicate Tracked(s: State) {
    && JobsMade(s.made)
    && RunsTracked(s.runs, s.made)
    && forall job :: job in s.jobs ==> job.name in s.made && s.made[job.name].namespace == job.namespace
  }

  // The jobs no stored run leads to.

  /** Aborting the job of the stored run `id` would remove this one. */
  predicate Leads(home: string, runs: Runs, id: string, job: Job) {
    id in runs && runs[id].k8sJobName != "" && JobOf(home, runs[id]) == job
  }

  ghost function Unclaimed(home: string, s: State): set<Job> {
    set job | job in s.jobs && forall id :: id in s.runs ==> !Leads(home, s.runs, id, job)
  }

  /** The orchestrator looks for the job of a run where it created it. */
  predicate Reaches(home: string, run: R.RunState) {
    AbortPlace(home, run.k8sNamespace) == DispatchPlace(home, run.k8sNamespace)
  }

  /** A trigger gets as far as its job. */
  predicate Dispatches(e: Setting, call: Call) {
    && call.TriggerRun? && call.saved && call.dispatched.Some?
    && MissingId(call.request).None? && LookupError(e.catalog, call.unreadable, call.request).None?
  }

  /** A delete gets as far as the run's job. */
  predicate Deletes(s: State, call: Call) {
    && call.DeleteRun?
    && FindError(s.runs, TrimSpace(call.runId), call.read).None?
    && R.IsTerminal(s.runs[TrimSpace(call.runId)].status)
  }

  /** The job of a run that goes without it, if the job is there. */
  function Dropped(home: string, s: State, id: string): set<Job> {
    if id in s.runs && s.runs[id].k8sJobName != "" && JobOf(home, s.runs[id]) in s.jobs then {JobOf(home, s.runs[id])}
    else {}
  }

  /**
   The job a step leaves behind: that of a trigger whose job name is not saved, or whose job is created where it
   will not be looked for; that of a run which is deleted while its job is not aborted, or dropped from the
   database; and the new job of a schedule, which no run leads to yet.
   */
  function LeftBehind(e: Setting, s: State, op: Op): set<Job> {
    match op
    case Called(call) =>
      if Dispatches(e, call) && !(call.savedAgain && Reaches(e.clusterNamespace, Triggered(e, call))) then
        {Job(DispatchPlace(e.clusterNamespace, Triggered(e, call).k8sNamespace), call.dispatched.value)}
      else if Deletes(s, call) && call.deleted && !call.jobAborted then
        Dropped(e.clusterNamespace, s, TrimSpace(call.runId))
      else {}
    case JobScheduled(name, _) => {Job(WatchPlace(e.clusterNamespace), name)}
    case RunPruned(id) => Dropped(e.clusterNamespace, s, id)
    case _ => {}
  }

  /** The event starts the queued run, which takes the job's name. */
  predicate Starts(run: R.RunState, sync: Sync) {
    run.status == R.Queued && (sync.event.phase.Succeeded? || sync.event.phase.Broken? || sync.event.phase.Active?)
  }

  /** The event stores a new run for the job. */
  predicate Creates(runs: Runs, sync: Sync) {
    && sync.read && sync.created && Found(runs, sync).None?
    && ScheduleLabel(sync) != "" && sync.schedule.Some? && MissingId(sync.schedule.value).None?
  }

  /**
   The job an event leads the way to: of a stored run that has no job name yet and is started with it, or of a
   run it creates.
   */
  function Adopted(e: Setting, s: State, sync: Sync): set<Job> {
    var found := Found(s.runs, sync);
    if RunLabel(sync) == "" && ScheduleLabel(sync) == "" then {}
    else if Creates(s.runs, sync) then {Job(sync.event.made.namespace, sync.event.name)}
    else if sync.read && sync.saved && found.Some? && found.value in s.runs
            && s.runs[found.value].k8sJobName == "" && Starts(s.runs[found.value], sync) then
      {Job(AbortPlace(e.clusterNamespace, s.runs[found.value].k8sNamespace), sync.event.name)}
    else {}
  }

  /** The job a step takes away from those no run leads to. */
  function TakenUp(e: Setting, s: State, op: Op): set<Job> {
    match op
    case Synced(sync) => Adopted(e, s, sync)
    case JobRemoved(job) => {job}
    case _ => {}
  }

  // Steps on one run.

  /** A run that changes, but not its job. */
  ghost predicate SameJob(run: R.RunState, other: R.RunState) {
    other.identity == run.identity && other.k8sJobName == run.k8sJobName && other.k8sNamespace == run.k8sNamespace
  }

  lemma SavedSame(home: string, s: State, run: R.RunState, works: bool)
    requires Tracked(s) && run.identity.id in s.runs && SameJob(s.runs[run.identity.id], run)
    ensures var after := s.(runs := Save(s.runs, run, works));
            Tracked(after) && Unclaimed(home, after) == Unclaimed(home, s)
  {
    hide TrimSpace, AbortPlace, JobsMade, NameFits;
    var after := s.(runs := Save(s.runs, run, works));
    assert forall id, job :: id in s.runs ==> (Leads(home, after.runs, id, job) <==> Leads(home, s.runs, id, job));
  }

  /** Removing the job of a stored run takes nothing from the unclaimed ones. */
  lemma ClaimedRemoved(home: string, s: State, id: string, works: bool)
    requires Tracked(s) && id in s.runs
    ensures var after := WithoutJob(home, s, s.runs[id], works);
            Tracked(after) && after.runs == s.runs && Unclaimed(home, after) == Unclaimed(home, s)
  {
    hide AbortPlace, TrimSpace, JobsMade, RunsTracked;
    var after := WithoutJob(home, s, s.runs[id], works);
    if after != s {
      assert Leads(home, s.runs, id, JobOf(home, s.runs[id]));
    }
  }

  /** At most one stored run leads to a job, and it has the job's name. */
  lemma NamesLead(home: string, s: State)
    requires Tracked(s)
    ensures forall id, job :: Leads(home, s.runs, id, job) ==> s.runs[id].k8sJobName == job.name
    ensures forall id, other, job :: Leads(home, s.runs, id, job) && Leads(home, s.runs, other, job) ==> id == other
  {
    hide AbortPlace;
    forall id, job | Leads(home, s.runs, id, job) ensures s.runs[id].k8sJobName == job.name {
      assert NameFits(s.made, id, s.runs[id].k8sJobName);
    }
    hide TrimSpace, JobsMade, NameFits;
  }

  /** Dropping a stored run leaves its job behind, if that is still there. */
  lemma RunDropped(home: string, s: State, id: string)
    requires Tracked(s)
    ensures var after := s.(runs := s.runs - {id});
            Tracked(after) && Unclaimed(home, after) == Unclaimed(home, s) + Dropped(home, s, id)
  {
    hide TrimSpace, AbortPlace, JobsMade, NameFits;
    var after := s.(runs := s.runs - {id});
    assert forall job, k :: k in after.runs ==> (Leads(home, after.runs, k, job) <==> Leads(home, s.runs, k, job));
    NamesLead(home, s);
    forall job | job in s.jobs
      ensures job in Unclaimed(home, after) <==> job in Unclaimed(home, s) || Leads(home, s.runs, id, job)
    {
    }
  }

  /** Storing a new run, or an old one under a job name of its own, takes up the job it leads to and no other. */
  lemma RunStored(home: string, s: State, run: R.RunState)
    requires Tracked(s)
    requires run.identity.id in s.runs ==> s.runs[run.identity.id].k8sJobName == ""
    requires run.k8sJobName != "" ==>
               && NameFits(s.made, run.identity.id, run.k8sJobName)
               && forall other :: other in s.runs ==> s.runs[other].k8sJobName != run.k8sJobName
    ensures var after := s.(runs := s.runs[run.identity.id := run]);
            && Tracked(after)
            && Unclaimed(home, after) == Unclaimed(home, s) - (if run.k8sJobName == "" then {} else {JobOf(home, run)})
  {
    hide TrimSpace, AbortPlace, JobsMade, NameFits;
    var id := run.identity.id;
    var after := s.(runs := s.runs[id := run]);
    assert forall k, job :: k in s.runs && k != id ==>
        (Leads(home, after.runs, k, job) <==> Leads(home, s.runs, k, job));
    assert forall job :: !Leads(home, s.runs, id, job);
    forall job | job in s.jobs
      ensures job in Unclaimed(home, after) <==> job in Unclaimed(home, s) && !Leads(home, after.runs, id, job)
    {
    }
  }

  /** A new job that no run leads to. */
  lemma JobAdded(home: string, s: State, name: string, made: Made)
    requires Tracked(s) && FreshName(s, name)
    requires TrimSpace(made.runId) == made.runId && (made.runId == "" || made.scheduleId == "")
    requires made.runId != "" ==> forall other :: other in s.made ==> s.made[other].runId != made.runId
    requires made.runId != "" && made.runId in s.runs ==> s.runs[made.runId].k8sJobName == ""
    ensures var after := WithJob(s, name, made);
            Tracked(after) && Unclaimed(home, after) == Unclaimed(home, s) + {Job(made.namespace, name)}
  {
    hide AbortPlace, TrimSpace;
    var after := WithJob(s, name, made);
    forall id | id in s.runs && s.runs[id].k8sJobName != "" ensures NameFits(after.made, id, s.runs[id].k8sJobName) {
      assert NameFits(s.made, id, s.runs[id].k8sJobName);
    }
    NamesLead(home, s);
    forall id, job | Leads(home, s.runs, id, job) ensures job.name != name {
      assert NameFits(s.made, id, s.runs[id].k8sJobName);
    }
  }

  // Steps of a history.

  lemma AbortKeepsJob(run: R.RunState, reason: string, now: int)
    ensures SameJob(run, R.Step(run, R.Op.Abort(reason, now)).0)
  {
    hide TrimSpace;
  }

  lemma AbortMoved(home: string, s: State, id: string, reason: string, now: int, jobAborted: bool, saved: bool)
    requires Tracked(s) && id in s.runs
    ensures var purged := WithoutJob(home, s, s.runs[id], jobAborted);
            var after := purged.(runs := Save(purged.runs, R.Step(s.runs[id], R.Op.Abort(reason, now)).0, saved));
            && Tracked(purged) && Unclaimed(home, purged) == Unclaimed(home, s)
            && Tracked(after) && Unclaimed(home, after) == Unclaimed(home, s)
  {
    assert s.runs[id].identity.id == id;
    hide Unclaimed, WithoutJob, Save, TrimSpace, R.Step, Tracked;
    AbortKeepsJob(s.runs[id], reason, now);
    ClaimedRemoved(home, s, id, jobAborted);
    SavedSame(home, WithoutJob(home, s, s.runs[id], jobAborted), R.Step(s.runs[id], R.Op.Abort(reason, now)).0, saved);
  }

  lemma RunsOnly(e: Setting)
    ensures forall s, run, works :: WithoutJob(e.clusterNamespace, s, run, works).runs == s.runs
  {
  }

  /** Aborting and cleaning up leave no job behind. */
  lemma AbortUnclaimed(e: Setting, s: State, call: Call)
    requires Tracked(s) && (call.AbortRun? || call.CleanupRun?)
    ensures var after := (if call.AbortRun? then AfterAbort(e, s, call) else AfterCleanup(e, s, call)).0;
            Tracked(after) && Unclaimed(e.clusterNamespace, after) == Unclaimed(e.clusterNamespace, s)
  {
    hide Tracked, Unclaimed, WithoutJob, Save, TrimSpace, R.Step;
    var id := TrimSpace(call.runId);
    RunsOnly(e);
    if id in s.runs {
      var why := if call.CleanupRun? then "runtime cleaned"
                 else if TrimSpace(call.reason) == "" then "manual cancellation" else TrimSpace(call.reason);
      AbortMoved(e.clusterNamespace, s, id, why, call.now, call.jobAborted, call.saved);
    }
  }

  lemma EndedKeepsJob(e: Setting, run: R.RunState, command: CompleteCommand, stored: Option<string>, now: int)
    requires TrimSpace(run.k8sJobName) == run.k8sJobName
    ensures SameJob(run, Ended(e.parse, run, command, stored, now).0)
  {
    hide TrimSpace;
  }

  lemma BlankTrimmed()
    ensures TrimSpace("") == ""
  {
  }

  lemma NameTrimmed(s: State, id: string)
    requires Tracked(s) && id in s.runs
    ensures s.runs[id].identity.id == id && TrimSpace(s.runs[id].k8sJobName) == s.runs[id].k8sJobName
  {
    BlankTrimmed();
    hide TrimSpace;
    if s.runs[id].k8sJobName != "" {
      assert NameFits(s.made, id, s.runs[id].k8sJobName);
    }
  }

  lemma CompleteUnclaimed(e: Setting, s: State, call: Call)
    requires Tracked(s) && call.CompleteRun? && LegalAnswer(s.runs, call)
    ensures var after := AfterComplete(e, s, call).0;
            Tracked(after) && Unclaimed(e.clusterNamespace, after) == Unclaimed(e.clusterNamespace, s)
  {
    hide Ended, Save, Tracked, Unclaimed, TrimSpace;
    var named := Named(s.runs, call);
    if named.Some? {
      var run := s.runs[named.value];
      NameTrimmed(s, named.value);
      EndedKeepsJob(e, run, call.command, call.stored, call.now);
      SavedSame(e.clusterNamespace, s, Ended(e.parse, run, call.command, call.stored, call.now).0, call.saved);
    }
  }

  lemma DeleteUnclaimed(e: Setting, s: State, call: Call)
    requires Tracked(s) && call.DeleteRun?
    ensures var after := AfterDelete(e, s, call).0;
            && Tracked(after)
            && Unclaimed(e.clusterNamespace, after) == Unclaimed(e.clusterNamespace, s) + LeftBehind(e, s, Called(call))
  {
    hide Tracked, Unclaimed, TrimSpace, AbortPlace;
    var id := TrimSpace(call.runId);
    if id in s.runs {
      ClaimedRemoved(e.clusterNamespace, s, id, call.jobAborted);
      RunDropped(e.clusterNamespace, WithoutJob(e.clusterNamespace, s, s.runs[id], call.jobAborted), id);
    }
  }

  // Triggers.

  lemma TriggeredName(e: Setting, call: Call)
    requires call.TriggerRun?
    ensures var run := Triggered(e, call);
            && run.identity.id == call.id && run.k8sJobName == ""
            && var failed := R.Step(run, R.Op.Fail(1, "", call.now)).0;
               failed.identity == run.identity && failed.k8sJobName == ""
  {
    hide TrimSpace, R.OrDefault;
  }

  lemma NamedRun(home: string, run: R.RunState, name: string)
    requires TrimSpace(name) == name
    ensures var named := R.Step(run, R.Op.SetK8sJobName(name)).0;
            && named.identity == run.identity && named.k8sJobName == name
            && JobOf(home, named) == Job(AbortPlace(home, run.k8sNamespace), name)
  {
    hide TrimSpace, AbortPlace;
  }

  lemma UndispatchedUnclaimed(e: Setting, s: State, call: Call)
    requires Tracked(s) && call.TriggerRun? && Fresh(s, Called(call)) && call.dispatched.None?
    requires MissingId(call.request).None? && LookupError(e.catalog, call.unreadable, call.request).None? && call.saved
    ensures var after := AfterTrigger(e, s, call).0;
            Tracked(after) && Unclaimed(e.clusterNamespace, after) == Unclaimed(e.clusterNamespace, s)
  {
    TriggeredName(e, call);
    hide TrimSpace, MissingId, LookupError, R.Step, Tracked, Unclaimed, Triggered, Save;
    var run := Triggered(e, call);
    var failed := R.Step(run, R.Op.Fail(1, "", call.now)).0;
    StoredTwice(s.runs, run, failed, call.savedAgain);
    RunStored(e.clusterNamespace, s, if call.savedAgain then failed else run);
  }

  /** How a trigger that dispatches its job makes it. */
  function MadeFor(e: Setting, call: Call): Made
    requires Dispatches(e, call)
  {
    Made(DispatchPlace(e.clusterNamespace, Triggered(e, call).k8sNamespace), Triggered(e, call).identity.id, "")
  }

  /** The state of such a trigger before the job's name is saved. */
  function DispatchedState(e: Setting, s: State, call: Call): State
    requires Dispatches(e, call)
  {
    WithJob(s.(runs := s.runs[call.id := Triggered(e, call)]), call.dispatched.value, MadeFor(e, call))
  }

  lemma DispatchedTracked(e: Setting, s: State, call: Call)
    requires Tracked(s) && Dispatches(e, call) && Fresh(s, Called(call))
    ensures var dispatched := DispatchedState(e, s, call);
            && Tracked(dispatched)
            && Unclaimed(e.clusterNamespace, dispatched) ==
               Unclaimed(e.clusterNamespace, s) + {Job(MadeFor(e, call).namespace, call.dispatched.value)}
  {
    TriggeredName(e, call);
    hide TrimSpace, DispatchPlace, MissingId, LookupError, Tracked, Unclaimed, Triggered;
    var queued := s.(runs := s.runs[call.id := Triggered(e, call)]);
    RunStored(e.clusterNamespace, s, Triggered(e, call));
    JobAdded(e.clusterNamespace, queued, call.dispatched.value, MadeFor(e, call));
  }

  lemma UnusedName(home: string, s: State, name: string)
    requires Tracked(s) && name !in s.made
    ensures forall id :: id in s.runs ==> s.runs[id].k8sJobName == "" || s.runs[id].k8sJobName != name
    ensures forall job :: job in Unclaimed(home, s) ==> job.name != name
  {
    hide AbortPlace, TrimSpace, JobsMade;
    forall id | id in s.runs && s.runs[id].k8sJobName != "" ensures s.runs[id].k8sJobName != name {
      assert NameFits(s.made, id, s.runs[id].k8sJobName);
    }
  }

  /** The run of such a trigger, with its job's name. */
  function NamedAs(e: Setting, call: Call): R.RunState
    requires Dispatches(e, call)
  {
    R.Step(Triggered(e, call), R.Op.SetK8sJobName(call.dispatched.value)).0
  }

  lemma DispatchedAfter(e: Setting, s: State, call: Call)
    requires Dispatches(e, call) && Fresh(s, Called(call))
    ensures var dispatched := DispatchedState(e, s, call);
            AfterTrigger(e, s, call).0 ==
            if call.savedAgain then dispatched.(runs := dispatched.runs[call.id := NamedAs(e, call)]) else dispatched
    ensures NamedAs(e, call).identity.id == call.id && NamedAs(e, call).k8sJobName == call.dispatched.value
    ensures JobOf(e.clusterNamespace, NamedAs(e, call))
            == Job(AbortPlace(e.clusterNamespace, Triggered(e, call).k8sNamespace), call.dispatched.value)
  {
    TriggeredName(e, call);
    NamedRun(e.clusterNamespace, Triggered(e, call), call.dispatched.value);
    hide TrimSpace, DispatchPlace, AbortPlace, MissingId, LookupError, R.Step, Triggered, JobOf;
  }

  lemma DispatchedLeaves(e: Setting, s: State, call: Call)
    requires Dispatches(e, call)
    ensures var home, namespace := e.clusterNamespace, Triggered(e, call).k8sNamespace;
            var created := {Job(DispatchPlace(home, namespace), call.dispatched.value)};
            LeftBehind(e, s, Called(call)) ==
            if call.savedAgain then created - {Job(AbortPlace(home, namespace), call.dispatched.value)} else created
  {
    hide TrimSpace, AbortPlace, DispatchPlace, Triggered;
  }

  lemma TakenBack<T>(old': set<T>, more: T, less: T)
    requires less !in old'
    ensures old' + {more} - {less} == old' + ({more} - {less})
  {
  }

  lemma DispatchedName(e: Setting, s: State, call: Call)
    requires Tracked(s) && Dispatches(e, call) && Fresh(s, Called(call))
    ensures var name, runs := call.dispatched.value, DispatchedState(e, s, call).runs;
            && NameFits(DispatchedState(e, s, call).made, call.id, name)
            && MadeFor(e, call).namespace == DispatchPlace(e.clusterNamespace, Triggered(e, call).k8sNamespace)
            && name != "" && call.id in runs && runs[call.id].k8sJobName == ""
            && (forall other :: other in runs ==> runs[other].k8sJobName != name)
            && forall job :: job in Unclaimed(e.clusterNamespace, s) ==> job.name != name
  {
    UnusedName(e.clusterNamespace, s, call.dispatched.value);
    TriggeredName(e, call);
    hide TrimSpace, DispatchPlace, Triggered, Tracked, Unclaimed, MissingId, LookupError, FreshId;
  }

  /** Saving the job's name takes the job up again, if it is where it will be looked for. */
  lemma DispatchedUnclaimed(e: Setting, s: State, call: Call)
    requires Tracked(s) && Dispatches(e, call) && Fresh(s, Called(call))
    ensures var after := AfterTrigger(e, s, call).0;
            && Tracked(after)
            && Unclaimed(e.clusterNamespace, after) == Unclaimed(e.clusterNamespace, s) + LeftBehind(e, s, Called(call))
  {
    var home, name, dispatched := e.clusterNamespace, call.dispatched.value, DispatchedState(e, s, call);
    hide *;
    DispatchedTracked(e, s, call);
    DispatchedAfter(e, s, call);
    DispatchedLeaves(e, s, call);
    DispatchedName(e, s, call);
    if call.savedAgain {
      RunStored(home, dispatched, NamedAs(e, call));
      TakenBack(Unclaimed(home, s), Job(MadeFor(e, call).namespace, name), JobOf(home, NamedAs(e, call)));
    }
  }

  lemma TriggerUnclaimed(e: Setting, s: State, call: Call)
    requires Tracked(s) && call.TriggerRun? && Fresh(s, Called(call))
    ensures var after := AfterTrigger(e, s, call).0;
            && Tracked(after)
            && Unclaimed(e.clusterNamespace, after) == Unclaimed(e.clusterNamespace, s) + LeftBehind(e, s, Called(call))
  {
    hide TrimSpace, AbortPlace, DispatchPlace, MissingId, LookupError, Tracked, Unclaimed, Triggered, R.Step;
    if MissingId(call.request).None? && LookupError(e.catalog, call.unreadable, call.request).None? && call.saved {
      if call.dispatched.None? {
        UndispatchedUnclaimed(e, s, call);
      } else {
        DispatchedUnclaimed(e, s, call);
      }
    }
  }

  // Events.

  /** A started run has the job's name, and other events leave the name alone. */
  lemma AdvancedJob(run: R.RunState, sync: Sync)
    requires !R.IsTerminal(run.status) && Advanced(run, sync).Some?
    requires TrimSpace(sync.event.name) == sync.event.name != ""
    ensures var moved := Advanced(run, sync).value;
            && moved.identity == run.identity && moved.k8sNamespace == run.k8sNamespace
            && moved.k8sJobName == if Starts(run, sync) then sync.event.name else run.k8sJobName
  {
    hide TrimSpace, RunKey;
  }

  /** The job of a stored run's event is the one the run has the name of, if it has one. */
  lemma EventFits(e: Setting, s: State, sync: Sync)
    requires Tracked(s) && LegalSync(e.clusterNamespace, s, sync) && Found(s.runs, sync).Some?
    ensures var id, name := Found(s.runs, sync).value, sync.event.name;
            && id in s.runs && s.runs[id].identity.id == id
            && TrimSpace(name) == name != ""
            && (s.runs[id].k8sJobName != "" ==> s.runs[id].k8sJobName == name)
            && (s.runs[id].k8sJobName == "" ==> s.made[name].runId == id)
  {
    hide TrimSpace, WatchPlace;
    var id, name := Found(s.runs, sync).value, sync.event.name;
    if RunLabel(sync) != "" && RunLabel(sync) in s.runs && s.runs[id].k8sJobName != "" {
      assert NameFits(s.made, id, s.runs[id].k8sJobName);
    }
  }

  lemma OthersNamed(s: State, id: string, name: string)
    requires Tracked(s) && name in s.made && name != "" && s.made[name].runId == id != ""
    ensures forall other :: other in s.runs && other != id ==> s.runs[other].k8sJobName != name
  {
    forall other | other in s.runs && other != id ensures s.runs[other].k8sJobName != name {
      assert s.runs[other].k8sJobName != "" ==> NameFits(s.made, other, s.runs[other].k8sJobName);
    }
  }

  lemma SaveMeans(runs: Runs, run: R.RunState)
    ensures Save(runs, run, true) == runs[run.identity.id := run] && Save(runs, run, false) == runs
  {
  }

  lemma NoStart(run: R.RunState, sync: Sync)
    requires R.IsTerminal(run.status) || Advanced(run, sync).None?
    ensures !Starts(run, sync)
  {
    hide TrimSpace;
  }

  lemma AdvanceUnclaimed(e: Setting, s: State, run: R.RunState, sync: Sync)
    requires Tracked(s) && LegalEvent(e.clusterNamespace, s, sync.event)
    requires run.identity.id in s.runs && s.runs[run.identity.id] == run
    requires TrimSpace(sync.event.name) == sync.event.name != ""
    requires run.k8sJobName != "" ==> run.k8sJobName == sync.event.name
    requires run.k8sJobName == "" ==> s.made[sync.event.name].runId == run.identity.id != ""
    ensures var after := AfterAdvance(s, run, sync).0;
            && Tracked(after)
            && Unclaimed(e.clusterNamespace, after) ==
               Unclaimed(e.clusterNamespace, s)
               - (if sync.saved && run.k8sJobName == "" && Starts(run, sync) then
                    {Job(AbortPlace(e.clusterNamespace, run.k8sNamespace), sync.event.name)}
                  else {})
  {
    hide Tracked, Unclaimed, Advanced, TrimSpace, WatchPlace, AbortPlace, Save;
    if !R.IsTerminal(run.status) && Advanced(run, sync).Some? {
      var moved := Advanced(run, sync).value;
      AdvancedJob(run, sync);
      if run.k8sJobName == "" && Starts(run, sync) {
        if sync.saved {
          OthersNamed(s, run.identity.id, sync.event.name);
          assert Save(s.runs, moved, true) == s.runs[run.identity.id := moved] by { SaveMeans(s.runs, moved); }
          RunStored(e.clusterNamespace, s, moved);
        } else {
          SaveMeans(s.runs, moved);
        }
      } else {
        SavedSame(e.clusterNamespace, s, moved, sync.saved);
      }
    } else {
      NoStart(run, sync);
    }
  }

  lemma PlaceTrimmed(home: string)
    ensures WatchPlace(home) != "" && TrimSpace(WatchPlace(home)) == WatchPlace(home)
  {
    TrimSpaceOnce(home);
    TrimSpaceKeeps(R.DEFAULT_NAMESPACE);
    hide TrimSpace;
  }

  /** The run created for a job leads to it. */
  lemma CreatedJob(e: Setting, s: State, sync: Sync)
    requires Tracked(s) && LegalSync(e.clusterNamespace, s, sync) && FreshId(s, sync.newId)
    requires sync.byJobName.None? && ScheduleLabel(sync) != "" && sync.schedule.Some?
    ensures var run, name := CreatedRun(sync), sync.event.name;
            && TrimSpace(name) == name != ""
            && run.identity.id == sync.newId && run.k8sJobName == name && run.status == R.Queued
            && NameFits(s.made, sync.newId, name)
            && (forall other :: other in s.runs ==> s.runs[other].k8sJobName != name)
            && JobOf(e.clusterNamespace, run) == Job(sync.event.made.namespace, name)
  {
    var namespace := sync.event.made.namespace;
    BlankTrimmed();
    PlaceTrimmed(e.clusterNamespace);
    hide TrimSpace, WatchPlace;
  }

  lemma CreatedUnclaimed(e: Setting, s: State, sync: Sync)
    requires Tracked(s) && LegalSync(e.clusterNamespace, s, sync) && FreshId(s, sync.newId)
    requires sync.byJobName.None? && ScheduleLabel(sync) != "" && sync.schedule.Some?
    ensures var run := CreatedRun(sync);
            var after := AfterAdvance(s.(runs := Save(s.runs, run, true)), run, sync).0;
            && Tracked(after)
            && Unclaimed(e.clusterNamespace, after) ==
               Unclaimed(e.clusterNamespace, s) - {Job(sync.event.made.namespace, sync.event.name)}
  {
    hide Tracked, Unclaimed, CreatedRun, AfterAdvance, Save, TrimSpace, WatchPlace, AbortPlace, JobOf, IsNamed;
    var run := CreatedRun(sync);
    CreatedJob(e, s, sync);
    SaveMeans(s.runs, run);
    RunStored(e.clusterNamespace, s, run);
    AdvanceUnclaimed(e, s.(runs := Save(s.runs, run, true)), run, sync);
  }

  lemma FoundLabel(e: Setting, s: State, sync: Sync)
    requires Tracked(s) && LegalSync(e.clusterNamespace, s, sync) && Found(s.runs, sync).Some?
    ensures var id := Found(s.runs, sync).value;
            id in s.runs && (s.runs[id].k8sJobName == "" ==> id != "")
  {
    EventFits(e, s, sync);
    hide WatchPlace;
  }

  lemma SyncUnclaimed(e: Setting, s: State, sync: Sync)
    requires Tracked(s) && LegalSync(e.clusterNamespace, s, sync) && FreshId(s, sync.newId)
    ensures var after := AfterSync(s, sync).0;
            && Tracked(after)
            && Unclaimed(e.clusterNamespace, after) == Unclaimed(e.clusterNamespace, s) - Adopted(e, s, sync)
  {
    hide Tracked, Unclaimed, AfterAdvance, TrimSpace, CreatedRun, MissingId, AbortPlace, WatchPlace, IsNamed, Starts;
    var found := Found(s.runs, sync);
    if found.Some? {
      EventFits(e, s, sync);
      if RunLabel(sync) != "" || ScheduleLabel(sync) != "" {
        FoundLabel(e, s, sync);
        AdvanceUnclaimed(e, s, s.runs[found.value], sync);
      }
    } else if ScheduleLabel(sync) != "" && sync.schedule.Some? {
      CreatedUnclaimed(e, s, sync);
    }
  }

  lemma DeletionUnclaimed(home: string, s: State, event: JobEvent, now: int, read: bool, saved: bool)
    requires Tracked(s)
    ensures var after := AfterDeletion(s, event, now, read, saved).0;
            Tracked(after) && Unclaimed(home, after) == Unclaimed(home, s)
  {
    hide Unclaimed, TrimSpace, R.Step, Save;
    var id := TrimSpace(event.made.runId);
    if id in s.runs {
      assert s.runs[id].identity.id == id;
      hide Tracked;
      AbortKeepsJob(s.runs[id], DELETED, now);
      SavedSame(home, s, R.Step(s.runs[id], R.Op.Abort(DELETED, now)).0, saved);
    }
  }

  lemma JobGone(home: string, s: State, job: Job)
    requires Tracked(s)
    ensures var after := s.(jobs := s.jobs - {job});
            Tracked(after) && Unclaimed(home, after) == Unclaimed(home, s) - {job}
  {
    hide TrimSpace, AbortPlace, JobsMade, RunsTracked;
  }

  lemma ScheduledUnclaimed(home: string, s: State, name: string, scheduleId: string)
    requires Tracked(s) && FreshName(s, name)
    ensures var after := WithJob(s, name, Made(WatchPlace(home), "", scheduleId));
            Tracked(after) && Unclaimed(home, after) == Unclaimed(home, s) + {Job(WatchPlace(home), name)}
  {
    BlankTrimmed();
    hide Tracked, Unclaimed, TrimSpace, WatchPlace;
    JobAdded(home, s, name, Made(WatchPlace(home), "", scheduleId));
  }

  // All steps.

  lemma CallUnclaimed(e: Setting, s: State, call: Call)
    requires Tracked(s) && Fresh(s, Called(call)) && LegalAnswer(s.runs, call)
    ensures var after := AfterCall(e, s, call).0;
            && Tracked(after)
            && Unclaimed(e.clusterNamespace, after) == Unclaimed(e.clusterNamespace, s) + LeftBehind(e, s, Called(call))
  {
    hide Tracked, Unclaimed, AfterTrigger, AfterAbort, AfterComplete, AfterCleanup, AfterDelete, LegalAnswer, Dropped;
    if call.TriggerRun? {
      TriggerUnclaimed(e, s, call);
    } else if call.DeleteRun? {
      DeleteUnclaimed(e, s, call);
    } else if call.CompleteRun? {
      CompleteUnclaimed(e, s, call);
    } else {
      AbortUnclaimed(e, s, call);
    }
  }

  /**
   One step: the jobs no stored run leads to are those from before and the one the step leaves behind, without the
   one the step takes up.
   */
  lemma StepUnclaimed(e: Setting, s: State, op: Op)
    requires Tracked(s) && Fresh(s, op) && Legal(e, s, op)
    ensures var after := Step(e, s, op);
            && Tracked(after)
            && Unclaimed(e.clusterNamespace, after) ==
               Unclaimed(e.clusterNamespace, s) + LeftBehind(e, s, op) - TakenUp(e, s, op)
  {
    hide Tracked, Unclaimed, AfterTrigger, AfterAbort, AfterComplete, AfterCleanup, AfterDelete, AfterSync,
         AfterDeletion;
    hide LegalSync, LegalEvent, LegalAnswer, Adopted, Dropped, FreshId, FreshName, WithJob, WatchPlace;
    var home := e.clusterNamespace;
    match op
    case Called(call) => CallUnclaimed(e, s, call);
    case Synced(sync) => SyncUnclaimed(e, s, sync);
    case JobDeleted(event, now, read, saved) => DeletionUnclaimed(home, s, event, now, read, saved);
    case JobScheduled(name, scheduleId) => ScheduledUnclaimed(home, s, name, scheduleId);
    case JobRemoved(job) => JobGone(home, s, job);
    case RunPruned(id) => RunDropped(home, s, id);
  }

  /** The jobs that steps up to `i` left behind and no step has taken up since. */
  function LeftBehindBy(e: Setting, states: seq<State>, ops: seq<Op>, i: nat): set<Job>
    requires i <= |ops| && |states| == |ops| + 1
  {
    if i == 0 then {}
    else
      var s, op := states[i - 1], ops[i - 1];
      LeftBehindBy(e, states, ops, i - 1) + LeftBehind(e, s, op) - TakenUp(e, s, op)
  }

  /**
   In every history, whatever fails in it, the jobs no stored run leads to are exactly those that steps left behind,
   as LeftBehind says, and that since then neither an event led a run to nor the cluster removed, as TakenUp says.
   */
  lemma {:induction false} JobsLeftBehind(e: Setting, states: seq<State>, ops: seq<Op>, i: nat)
    requires IsHistory(e, states, ops) && i <= |ops|
    requires forall k :: 0 <= k < |ops| ==> Fresh(states[k], ops[k])
    ensures Tracked(states[i])
    ensures Unclaimed(e.clusterNamespace, states[i]) == LeftBehindBy(e, states, ops, i)
  {
    hide Step, Legal, Fresh, LeftBehind, TakenUp, Leads;
    if i == 0 {
    } else {
      JobsLeftBehind(e, states, ops, i - 1);
      hide Tracked, Unclaimed;
      StepUnclaimed(e, states[i - 1], ops[i - 1]);
    }
  }

  // A job that is created in one namespace and looked for in another.

  /**
   The job of a run is looked for where it is created unless the orchestrator is set to a namespace of its own and
   the run is in the default one.
   */
  lemma MisplacedJob(home: string, run: R.RunState)
    ensures Reaches(home, run) <==>
            TrimSpace(home) in {"", R.DEFAULT_NAMESPACE} || TrimSpace(run.k8sNamespace) != R.DEFAULT_NAMESPACE
  {
    hide TrimSpace;
  }

  lemma OneStep(e: Setting, op: Op)
    requires Legal(e, START, op)
    ensures IsHistory(e, [START, Step(e, START, op)], [op])
  {
  }

  lemma TriggerStep(e: Setting, call: Call)
    requires call.TriggerRun?
    ensures Legal(e, START, Called(call)) && Step(e, START, Called(call)) == AfterTrigger(e, START, call).0
  {
    hide AfterTrigger;
  }

  lemma TriggeredNamespace(e: Setting, call: Call)
    requires call.TriggerRun? && Present(call.namespace) == Some(R.DEFAULT_NAMESPACE)
    ensures TrimSpace(Triggered(e, call).k8sNamespace) == R.DEFAULT_NAMESPACE
  {
    TrimSpaceKeeps(R.DEFAULT_NAMESPACE);
    hide TrimSpace;
  }

  lemma OutOfReach(e: Setting, s: State, call: Call)
    requires Dispatches(e, call) && call.savedAgain
    requires TrimSpace(e.clusterNamespace) !in {"", R.DEFAULT_NAMESPACE}
    requires Present(call.namespace) == Some(R.DEFAULT_NAMESPACE)
    ensures LeftBehind(e, s, Called(call)) == {Job(TrimSpace(e.clusterNamespace), call.dispatched.value)}
    ensures TakenUp(e, s, Called(call)) == {}
  {
    TriggeredNamespace(e, call);
    MisplacedJob(e.clusterNamespace, Triggered(e, call));
    hide TrimSpace, Reaches, Triggered, MissingId, LookupError;
  }

  /**
   The server sets service and orchestrator to the same namespace, so such a run comes from a request that names
   the default one. Then nothing has to fail for its job to be out of reach.
   */
  lemma MisplacedHistory(e: Setting, call: Call)
    requires Dispatches(e, call) && call.savedAgain && Fresh(START, Called(call))
    requires TrimSpace(e.clusterNamespace) !in {"", R.DEFAULT_NAMESPACE}
    requires Present(call.namespace) == Some(R.DEFAULT_NAMESPACE)
    ensures var states, ops := [START, AfterTrigger(e, START, call).0], [Called(call)];
            && IsHistory(e, states, ops)
            && Unclaimed(e.clusterNamespace, states[1]) == {Job(TrimSpace(e.clusterNamespace), call.dispatched.value)}
            && call.id in states[1].runs && states[1].runs[call.id].k8sJobName == call.dispatched.value
  {
    hide Reaches, Fresh, AfterCall, Triggered, AfterTrigger, Tracked, Unclaimed;
    hide MissingId, LookupError, TrimSpace;
    TriggerStep(e, call);
    OneStep(e, Called(call));
    var states, ops := [START, AfterTrigger(e, START, call).0], [Called(call)];
    DispatchedAfter(e, START, call);
    OutOfReach(e, START, call);
    JobsLeftBehind(e, states, ops, 1);
    assert LeftBehindBy(e, states, ops, 0) == {};
    hide *;
  }

  lemma Lookups(catalog: Catalog, request: Request)
    requires catalog == Catalog(map["suite" := true], map["artifact" := Artifact("suite", true)], map[], {"profile"})
    requires request == Request("suite", "artifact", None, "profile")
    ensures MissingId(request).None? && LookupError(catalog, {}, request).None?
  {
    TrimSpaceKeeps("suite");
    TrimSpaceKeeps("artifact");
    TrimSpaceKeeps("profile");
    hide TrimSpace;
  }

  lemma Literals()
    ensures TrimSpace("team") == "team" && "team" !in {"", R.DEFAULT_NAMESPACE}
    ensures TrimSpace("run-1") == "run-1" != "" && TrimSpace("vuhive-run-run-1") == "vuhive-run-run-1" != ""
    ensures Present(Some(R.DEFAULT_NAMESPACE)) == Some(R.DEFAULT_NAMESPACE)
  {
    TrimSpaceKeeps("team");
    TrimSpaceKeeps("run-1");
    TrimSpaceKeeps("vuhive-run-run-1");
    TrimSpaceKeeps(R.DEFAULT_NAMESPACE);
    hide TrimSpace;
  }

  lemma NothingUsed(id: string, name: string)
    requires name != "" && TrimSpace(name) == name
    ensures FreshId(START, id) && FreshName(START, name)
  {
    hide TrimSpace;
  }

  /** There are such requests: one to a server that is set to the namespace "team". */
  lemma MisplacedRequest() returns (e: Setting, call: Call)
    ensures Dispatches(e, call) && call.savedAgain && Fresh(START, Called(call))
    ensures e.runnerNamespace == e.clusterNamespace && TrimSpace(e.clusterNamespace) !in {"", R.DEFAULT_NAMESPACE}
    ensures Present(call.namespace) == Some(R.DEFAULT_NAMESPACE)
  {
    var catalog := Catalog(map["suite" := true], map["artifact" := Artifact("suite", true)], map[], {"profile"});
    e := Setting(catalog, _ => None, "team", "team");
    var request := Request("suite", "artifact", None, "profile");
    call := Call.TriggerRun(request, {}, Some(R.DEFAULT_NAMESPACE), "run-1", 0, true, Some("vuhive-run-run-1"), true);
    hide TrimSpace, Present, MissingId, LookupError, FreshId, FreshName;
    Lookups(catalog, request);
    Literals();
    NothingUsed("run-1", "vuhive-run-run-1");
  }
}
