/**
 Histories of the stored runs: calls of the run service, events the watcher handles, and what happens by itself
 in the cluster and the database, in any order. What every run keeps in all of them.
 */
module RunHistory {
  import opened Text
  import opened Catalog
  import opened RunStore
  import opened RunService
  import opened RunWatcher
  import opened RunEffects
  import R = TestRuns

  /**
   A step of a history. By themselves, a schedule's CronJob creates a job, the cluster removes a job, and old runs
   that have ended are dropped from the database; dropping many at once is dropping one after another.
   */
  datatype Op =
    | Called(call: Call)
    | Synced(sync: Sync)
    | JobDeleted(event: JobEvent, now: int, read: bool, saved: bool)
    | JobScheduled(name: string, scheduleId: string)
    | JobRemoved(job: Job)
    | RunPruned(id: string)

  /** What the outside can answer, and which events and drops there can be. */
  ghost predicate Legal(e: Setting, s: State, op: Op) {
    match op
    case Called(call) => LegalAnswer(s.runs, call)
    case Synced(sync) => LegalSync(e.clusterNamespace, s, sync)
    case JobDeleted(event, _, _, _) => LegalEvent(e.clusterNamespace, s, event)
    case JobScheduled(_, _) => true
    case JobRemoved(_) => true
    case RunPruned(id) => id in s.runs ==> R.IsTerminal(s.runs[id].status)
  }

  function Step(e: Setting, s: State, op: Op): State
    requires Legal(e, s, op)
  {
    match op
    case Called(call) => AfterCall(e, s, call).0
    case Synced(sync) => AfterSync(s, sync).0
    case JobDeleted(event, now, read, saved) => AfterDeletion(s, event, now, read, saved).0
    case JobScheduled(name, scheduleId) => WithJob(s, name, Made(WatchPlace(e.clusterNamespace), "", scheduleId))
    case JobRemoved(job) => s.(jobs := s.jobs - {job})
    case RunPruned(id) => s.(runs := s.runs - {id})
  }

  /** The id a step may give to a new run. */
  function NewIds(op: Op): set<string> {
    match op
    case Called(call) => if call.TriggerRun? then {call.id} else {}
    case Synced(sync) => if ScheduleLabel(sync) != "" then {sync.newId} else {}
    case _ => {}
  }

  const START := State(map[], {}, map[])

  /** The states before and after each step of a history that starts with no runs and no jobs. */
  ghost predicate IsHistory(e: Setting, states: seq<State>, ops: seq<Op>) {
    && |states| == |ops| + 1
    && states[0] == START
    && forall i :: 0 <= i < |ops| ==> Legal(e, states[i], ops[i]) && states[i + 1] == Step(e, states[i], ops[i])
  }

  /** No two new runs get the same id. */
  ghost predicate DistinctIds(ops: seq<Op>) {
    forall i, j :: 0 <= i < j < |ops| ==> NewIds(ops[i]) !! NewIds(ops[j])
  }

  /** Runs are stored under their ids, in states a run's lifecycle can reach. */
  ghost predicate WellStored(runs: Runs) {
    forall id :: id in runs ==> runs[id].identity.id == id && R.Consistent(runs[id])
  }

  /** What one step may do to the stored run `id`. */
  ghost predicate Moves(runs: Runs, after: Runs, id: string)
    requires id in runs
  {
    id in after ==> after[id] == runs[id] || !R.IsTerminal(runs[id].status)
  }

  /**
   All a step does to the stored runs: it keeps them well-formed, adds at most some new ones, changes no ended
   one.
   */
  ghost predicate StepsWell(runs: Runs, after: Runs, newIds: set<string>) {
    && WellStored(after)
    && after.Keys <= runs.Keys + newIds
    && forall id :: id in runs && id !in newIds ==> Moves(runs, after, id)
  }

  // Calls of the service.

  lemma CompletedConsistent(parse: string -> Option<Report>, run: R.RunState, command: CompleteCommand,
                            stored: Option<string>, now: int)
    requires R.Consistent(run) && !R.IsTerminal(run.status)
    ensures var ended := CompletedRun(parse, run, command, stored, now);
            && R.Consistent(ended) && ended.identity == run.identity
            && ended.status == if ReportOf(parse, command, stored).Some? then R.Completed else R.Failed
  {
    hide TrimSpace, KeyFor, ReportOf;
  }

  lemma EndedConsistent(parse: string -> Option<Report>, run: R.RunState, command: CompleteCommand,
                        stored: Option<string>, now: int)
    requires R.Consistent(run) && !R.IsTerminal(run.status)
    ensures var (ended, error) := Ended(parse, run, command, stored, now);
            var summary := ResolvedSummary(command, stored);
            && error.None?
            && R.Consistent(ended) && ended.identity == run.identity
            && (ended.status == R.Completed || ended.status == R.Failed)
            && (ended.status == R.Completed <==> TrimSpace(summary) != "" && parse(summary).Some?)
            && (ended.status == R.Completed ==>
                  && ended.metrics == parse(summary).value.metrics
                  && ended.summaryJson == Some(parse(summary).value.rawJson))
            && (command.exitCode.Some? ==> ended.exitCode == command.exitCode)
  {
    ActiveMeans(run);
    EndedFields(parse, run, command, stored, now);
    CompletedConsistent(parse, run, command, stored, now);
    hide TrimSpace, Ended, KeyFor, R.Consistent;
  }

  lemma NothingMoved(runs: Runs, newIds: set<string>)
    requires WellStored(runs)
    ensures StepsWell(runs, runs, newIds)
  {
  }

  /** Saving a run that is new, or the next state of an active one. */
  lemma RunSaved(runs: Runs, run: R.RunState, works: bool, newIds: set<string>)
    requires WellStored(runs) && R.Consistent(run)
    requires var id := run.identity.id; id in newIds || (id in runs && !R.IsTerminal(runs[id].status))
    ensures StepsWell(runs, Save(runs, run, works), newIds)
  {
    hide R.Consistent;
  }

  /** Saving a run twice, the second time in a later state. */
  lemma RunSavedTwice(runs: Runs, run: R.RunState, again: R.RunState, works: bool, newIds: set<string>)
    requires WellStored(runs) && R.Consistent(run) && R.Consistent(again)
    requires again.identity == run.identity && run.identity.id in newIds
    ensures StepsWell(runs, Save(runs, run, true), newIds)
    ensures StepsWell(runs, Save(Save(runs, run, true), again, works), newIds)
  {
    hide R.Consistent;
  }

  lemma NewRunStarts(e: Setting, call: Call)
    requires call.TriggerRun?
    ensures var run := Triggered(e, call);
            && R.Consistent(run) && run.identity.id == call.id && run.k8sJobName == ""
            && forall step :: R.Step(run, step).0.identity == run.identity
  {
    var q := call.request;
    R.NewNamed(call.id, q.suiteId, q.artifactId, q.configurationId, q.runnerProfileId, None,
               if Present(call.namespace).Some? then Present(call.namespace).value else e.runnerNamespace, call.now);
    hide TrimSpace, R.OrDefault, R.Named;
  }

  lemma TriggerWell(e: Setting, s: State, call: Call)
    requires call.TriggerRun? && WellStored(s.runs)
    ensures StepsWell(s.runs, AfterTrigger(e, s, call).0.runs, {call.id})
  {
    var run := Triggered(e, call);
    NewRunStarts(e, call);
    hide TrimSpace, LookupError, MissingId, DispatchPlace, Triggered, WellStored, StepsWell, R.Consistent, R.Step, Save;
    R.StepConsistent(run, R.Op.Fail(1, "", call.now));
    RunSavedTwice(s.runs, run, R.Step(run, R.Op.Fail(1, "", call.now)).0, call.savedAgain, {call.id});
    if call.dispatched.Some? {
      R.StepConsistent(run, R.Op.SetK8sJobName(call.dispatched.value));
      RunSavedTwice(s.runs, run, R.Step(run, R.Op.SetK8sJobName(call.dispatched.value)).0, call.savedAgain, {call.id});
    }
    NothingMoved(s.runs, {call.id});
  }

  lemma AbortMoves(run: R.RunState, reason: string, now: int)
    requires R.Consistent(run)
    ensures var aborted := R.Step(run, R.Op.Abort(reason, now)).0;
            R.Consistent(aborted) && aborted.identity == run.identity
  {
    R.StepConsistent(run, R.Op.Abort(reason, now));
    hide R.Consistent, TrimSpace;
  }

  lemma JobsOnly(e: Setting)
    ensures forall s, run, works :: WithoutJob(e.clusterNamespace, s, run, works).runs == s.runs
  {
  }

  lemma AbortWell(e: Setting, s: State, call: Call)
    requires (call.AbortRun? || call.CleanupRun?) && WellStored(s.runs)
    ensures StepsWell(s.runs, (if call.AbortRun? then AfterAbort(e, s, call) else AfterCleanup(e, s, call)).0.runs, {})
  {
    var id := TrimSpace(call.runId);
    hide TrimSpace, R.Consistent, R.Step, WithoutJob, StepsWell;
    if id in s.runs && !R.IsTerminal(s.runs[id].status) {
      var why := if call.CleanupRun? then "runtime cleaned"
                 else if TrimSpace(call.reason) == "" then "manual cancellation" else TrimSpace(call.reason);
      AbortMoves(s.runs[id], why, call.now);
      RunSaved(s.runs, R.Step(s.runs[id], R.Op.Abort(why, call.now)).0, call.saved, {});
    }
    NothingMoved(s.runs, {});
    JobsOnly(e);
    hide WellStored, Save;
  }

  lemma CompleteWell(e: Setting, s: State, call: Call)
    requires call.CompleteRun? && WellStored(s.runs) && LegalAnswer(s.runs, call)
    ensures StepsWell(s.runs, AfterComplete(e, s, call).0.runs, {})
  {
    hide TrimSpace, R.Consistent, Ended, StepsWell;
    var named := Named(s.runs, call);
    if named.Some? && !R.IsTerminal(s.runs[named.value].status) {
      var run := s.runs[named.value];
      EndedConsistent(e.parse, run, call.command, call.stored, call.now);
      RunSaved(s.runs, Ended(e.parse, run, call.command, call.stored, call.now).0, call.saved, {});
    }
    NothingMoved(s.runs, {});
    hide WellStored, Save;
  }

  lemma DropWell(runs: Runs, id: string)
    requires WellStored(runs)
    ensures StepsWell(runs, runs - {id}, {})
  {
    hide R.Consistent;
  }

  lemma DeleteWell(e: Setting, s: State, call: Call)
    requires call.DeleteRun? && WellStored(s.runs)
    ensures StepsWell(s.runs, AfterDelete(e, s, call).0.runs, {})
  {
    hide TrimSpace, StepsWell, WellStored, WithoutJob;
    JobsOnly(e);
    DropWell(s.runs, TrimSpace(call.runId));
    NothingMoved(s.runs, {});
  }

  lemma CallWell(e: Setting, s: State, call: Call)
    requires WellStored(s.runs) && LegalAnswer(s.runs, call)
    ensures StepsWell(s.runs, AfterCall(e, s, call).0.runs, NewIds(Called(call)))
  {
    hide WellStored, StepsWell, AfterTrigger, AfterAbort, AfterComplete, AfterCleanup, AfterDelete;
    if call.TriggerRun? {
      TriggerWell(e, s, call);
    } else if call.CompleteRun? {
      CompleteWell(e, s, call);
    } else if call.DeleteRun? {
      DeleteWell(e, s, call);
    } else {
      AbortWell(e, s, call);
    }
  }

  // Events.

  /**
   What an event makes of an active run: the transitions succeed, and a job that succeeded completes it
   without a summary.
   */
  lemma AdvancedConsistent(run: R.RunState, sync: Sync)
    requires R.Consistent(run) && !R.IsTerminal(run.status) && Advanced(run, sync).Some?
    ensures var moved := Advanced(run, sync).value;
            && R.Consistent(moved) && moved.identity == run.identity
            && moved.status == (match sync.event.phase
                                case BeingDeleted(_) => R.Aborted
                                case Succeeded => R.Completed
                                case Broken => R.Failed
                                case _ => R.Running)
            && (moved.status == R.Completed ==>
                  moved.summaryJson.None? && moved.slaPassed == Some(true) && moved.metrics == R.NO_METRICS)
  {
    AdvancedFields(run, sync);
    TrimSpaceOnce(sync.event.name);
    hide TrimSpace, FileOf, Advanced;
  }

  lemma CreatedConsistent(sync: Sync)
    requires sync.schedule.Some?
    ensures var run := CreatedRun(sync); R.Consistent(run) && run.identity.id == sync.newId && run.status == R.Queued
  {
    var q := sync.schedule.value;
    var run := R.NewRun(sync.newId, q.suiteId, q.artifactId, q.configurationId, q.runnerProfileId,
                        Some(ScheduleLabel(sync)), "", sync.now);
    var named := R.Op.SetK8sJobName(sync.event.name);
    R.NewNamed(sync.newId, q.suiteId, q.artifactId, q.configurationId, q.runnerProfileId, Some(ScheduleLabel(sync)), "",
               sync.now);
    R.StepNamed(run, named);
    R.StepNamed(R.Step(run, named).0, R.Op.SetK8sNamespace(sync.event.made.namespace));
    hide TrimSpace, R.OrDefault, R.Named;
  }

  lemma AdvanceWell(s: State, run: R.RunState, sync: Sync)
    requires WellStored(s.runs) && run.identity.id in s.runs && s.runs[run.identity.id] == run
    ensures StepsWell(s.runs, AfterAdvance(s, run, sync).0.runs, {})
  {
    hide Advanced, R.Consistent, StepsWell, Save;
    if !R.IsTerminal(run.status) && Advanced(run, sync).Some? {
      AdvancedConsistent(run, sync);
      RunSaved(s.runs, Advanced(run, sync).value, sync.saved, {});
    } else {
      NothingMoved(s.runs, {});
    }
  }

  lemma CreatedWell(s: State, sync: Sync)
    requires WellStored(s.runs) && sync.schedule.Some?
    ensures var stored := s.(runs := Save(s.runs, CreatedRun(sync), true));
            StepsWell(s.runs, AfterAdvance(stored, CreatedRun(sync), sync).0.runs, {sync.newId})
  {
    hide Advanced, R.Consistent, StepsWell, Save, CreatedRun;
    var run := CreatedRun(sync);
    CreatedConsistent(sync);
    RunSaved(s.runs, run, true, {sync.newId});
    if Advanced(run, sync).Some? {
      AdvancedConsistent(run, sync);
      RunSavedTwice(s.runs, run, Advanced(run, sync).value, sync.saved, {sync.newId});
    }
  }

  lemma MoreIds(runs: Runs, after: Runs, newIds: set<string>, more: set<string>)
    requires StepsWell(runs, after, newIds) && newIds <= more
    ensures StepsWell(runs, after, more)
  {
  }

  lemma SyncWell(e: Setting, s: State, sync: Sync)
    requires WellStored(s.runs) && LegalSync(e.clusterNamespace, s, sync)
    ensures StepsWell(s.runs, AfterSync(s, sync).0.runs, NewIds(Synced(sync)))
  {
    hide StepsWell, AfterAdvance, TrimSpace, R.Consistent, CreatedRun, MissingId, LegalEvent;
    NothingMoved(s.runs, {});
    NothingMoved(s.runs, {sync.newId});
    var found := Found(s.runs, sync);
    if found.Some? {
      AdvanceWell(s, s.runs[found.value], sync);
      MoreIds(s.runs, AfterAdvance(s, s.runs[found.value], sync).0.runs, {}, NewIds(Synced(sync)));
    } else if sync.schedule.Some? {
      CreatedWell(s, sync);
    }
  }

  lemma DeletionWell(s: State, event: JobEvent, now: int, read: bool, saved: bool)
    requires WellStored(s.runs)
    ensures StepsWell(s.runs, AfterDeletion(s, event, now, read, saved).0.runs, {})
  {
    hide StepsWell, TrimSpace, R.Consistent, R.Step, Save;
    NothingMoved(s.runs, {});
    var id := TrimSpace(event.made.runId);
    if id in s.runs && !R.IsTerminal(s.runs[id].status) {
      AbortMoves(s.runs[id], DELETED, now);
      RunSaved(s.runs, R.Step(s.runs[id], R.Op.Abort(DELETED, now)).0, saved, {});
    }
  }

  // All steps.

  /** A step keeps the store well-formed, adds at most the run it creates, and changes no run that has ended. */
  lemma StepWell(e: Setting, s: State, op: Op)
    requires WellStored(s.runs) && Legal(e, s, op)
    ensures StepsWell(s.runs, Step(e, s, op).runs, NewIds(op))
  {
    hide WellStored, StepsWell, AfterCall, AfterSync, AfterDeletion, LegalAnswer, LegalSync, LegalEvent;
    match op
    case Called(call) => CallWell(e, s, call);
    case Synced(sync) => SyncWell(e, s, sync);
    case JobDeleted(event, now, read, saved) => DeletionWell(s, event, now, read, saved);
    case JobScheduled(_, _) => NothingMoved(s.runs, {});
    case JobRemoved(_) => NothingMoved(s.runs, {});
    case RunPruned(id) => DropWell(s.runs, id);
  }

  lemma {:induction false} HistoryWell(e: Setting, states: seq<State>, ops: seq<Op>, i: nat)
    requires IsHistory(e, states, ops) && i <= |ops|
    ensures WellStored(states[i].runs)
  {
    hide Step, Legal;
    if i == 0 {
    } else {
      HistoryWell(e, states, ops, i - 1);
      StepWell(e, states[i - 1], ops[i - 1]);
    }
  }

  /** A stored run was created by an earlier step: a trigger, or the event of a job with a schedule. */
  lemma {:induction false} WasCreated(e: Setting, states: seq<State>, ops: seq<Op>, i: nat, id: string)
    requires IsHistory(e, states, ops) && i <= |ops| && id in states[i].runs
    ensures exists k :: 0 <= k < i && id in NewIds(ops[k])
  {
    hide Step, Legal, NewIds;
    if i == 0 {
      assert false;
    } else {
      HistoryWell(e, states, ops, i - 1);
      StepWell(e, states[i - 1], ops[i - 1]);
      if id in states[i - 1].runs {
        WasCreated(e, states, ops, i - 1, id);
      }
    }
  }

  /** The record stored under the id of a run that has ended is, in every later state, the same one or gone. */
  lemma {:induction false} EndedRunStays(e: Setting, states: seq<State>, ops: seq<Op>, i: nat, j: nat, id: string)
    requires IsHistory(e, states, ops) && DistinctIds(ops) && i <= j <= |ops|
    requires id in states[i].runs && R.IsTerminal(states[i].runs[id].status)
    ensures id in states[j].runs ==> states[j].runs[id] == states[i].runs[id]
    decreases j
  {
    hide Step, Legal, NewIds;
    if i == j {
    } else {
      EndedRunStays(e, states, ops, i, j - 1, id);
      HistoryWell(e, states, ops, j - 1);
      StepWell(e, states[j - 1], ops[j - 1]);
      WasCreated(e, states, ops, i, id);
      if id in states[j - 1].runs {
        assert Moves(states[j - 1].runs, states[j].runs, id);
      }
    }
  }

  /** The step at `k` takes the stored run `id` out of QUEUED and RUNNING. */
  ghost predicate Leaves(states: seq<State>, k: nat, id: string)
    requires k + 1 < |states|
  {
    && id in states[k].runs && !R.IsTerminal(states[k].runs[id].status)
    && id in states[k + 1].runs && R.IsTerminal(states[k + 1].runs[id].status)
  }

  /** In every history each run leaves QUEUED and RUNNING at most once. */
  lemma LeavesOnce(e: Setting, states: seq<State>, ops: seq<Op>, i: nat, j: nat, id: string)
    requires IsHistory(e, states, ops) && DistinctIds(ops) && i < j < |ops|
    requires Leaves(states, i, id)
    ensures !Leaves(states, j, id)
  {
    hide Step, Legal;
    EndedRunStays(e, states, ops, i + 1, j, id);
  }

  /**
   Completing an active run with a repository that works always ends it: COMPLETED exactly when a summary
   that is not blank parses, FAILED otherwise; the branches for refused transitions are never taken.
   */
  lemma CompletionEnds(e: Setting, states: seq<State>, ops: seq<Op>, i: nat, call: Call)
    requires IsHistory(e, states, ops) && i < |ops|
    requires ops[i] == Called(call) && call.CompleteRun? && call.read && call.saved
    requires TrimSpace(call.command.runId) != "" && Named(states[i].runs, call).Some?
    requires !R.IsTerminal(states[i].runs[Named(states[i].runs, call).value].status)
    ensures var id := Named(states[i].runs, call).value;
            var summary := ResolvedSummary(call.command, call.stored);
            && id in states[i + 1].runs
            && AfterCall(e, states[i], call).1 == Run(states[i + 1].runs[id])
            && Leaves(states, i, id)
            && states[i + 1].runs[id].status ==
               if TrimSpace(summary) != "" && e.parse(summary).Some? then R.Completed else R.Failed
  {
    hide TrimSpace, R.Consistent, Ended;
    assert Legal(e, states[i], ops[i]);
    HistoryWell(e, states, ops, i);
    var id := Named(states[i].runs, call).value;
    EndedConsistent(e.parse, states[i].runs[id], call.command, call.stored, call.now);
  }

  lemma SuccessAdvances(run: R.RunState, sync: Sync)
    requires !R.IsTerminal(run.status) && sync.event.phase == Succeeded
    ensures Advanced(run, sync).Some?
    ensures Advanced(run, sync).value.exitCode == Some(0)
  {
    ActiveMeans(run);
    AdvancedFields(run, sync);
    hide TrimSpace, FileOf, Advanced;
  }

  /**
   An event that shows an active run's job succeeded, with a repository that works, completes the run without a
   summary and without metrics.
   */
  lemma SuccessCompletes(e: Setting, states: seq<State>, ops: seq<Op>, i: nat, sync: Sync)
    requires IsHistory(e, states, ops) && i < |ops|
    requires ops[i] == Synced(sync) && sync.event.phase == Succeeded && sync.read && sync.saved
    requires (RunLabel(sync) != "" || ScheduleLabel(sync) != "") && Found(states[i].runs, sync).Some?
    requires Found(states[i].runs, sync).value in states[i].runs
    requires !R.IsTerminal(states[i].runs[Found(states[i].runs, sync).value].status)
    ensures var id := Found(states[i].runs, sync).value;
            && Leaves(states, i, id)
            && states[i + 1].runs[id].status == R.Completed
            && states[i + 1].runs[id].summaryJson.None? && states[i + 1].runs[id].metrics == R.NO_METRICS
            && states[i + 1].runs[id].slaPassed == Some(true) && states[i + 1].runs[id].exitCode == Some(0)
  {
    hide TrimSpace, R.Consistent, Advanced, LegalEvent;
    assert Legal(e, states[i], ops[i]);
    HistoryWell(e, states, ops, i);
    var run := states[i].runs[Found(states[i].runs, sync).value];
    SuccessAdvances(run, sync);
    AdvancedConsistent(run, sync);
  }

  lemma FailureAdvances(run: R.RunState, sync: Sync)
    requires !R.IsTerminal(run.status) && sync.event.phase == Broken
    ensures Advanced(run, sync).Some?
    ensures var failed := Advanced(run, sync).value;
            failed.exitCode == Some(1) && failed.slaPassed == Some(false) && failed.finishedAt == Some(sync.now)
  {
    ActiveMeans(run);
    AdvancedFields(run, sync);
    hide TrimSpace, FileOf, Advanced;
  }

  /**
   An event that shows an active run's job failed, with a repository that works, fails the run with exit code 1,
   whether the run was queued or running.
   */
  lemma FailureFails(e: Setting, states: seq<State>, ops: seq<Op>, i: nat, sync: Sync)
    requires IsHistory(e, states, ops) && i < |ops|
    requires ops[i] == Synced(sync) && sync.event.phase == Broken && sync.read && sync.saved
    requires (RunLabel(sync) != "" || ScheduleLabel(sync) != "") && Found(states[i].runs, sync).Some?
    requires Found(states[i].runs, sync).value in states[i].runs
    requires !R.IsTerminal(states[i].runs[Found(states[i].runs, sync).value].status)
    ensures var id := Found(states[i].runs, sync).value;
            && Leaves(states, i, id)
            && states[i + 1].runs[id].status == R.Failed
            && states[i + 1].runs[id].exitCode == Some(1) && states[i + 1].runs[id].slaPassed == Some(false)
            && states[i + 1].runs[id].finishedAt == Some(sync.now)
  {
    hide TrimSpace, R.Consistent, Advanced, LegalEvent;
    assert Legal(e, states[i], ops[i]);
    HistoryWell(e, states, ops, i);
    var run := states[i].runs[Found(states[i].runs, sync).value];
    FailureAdvances(run, sync);
    AdvancedConsistent(run, sync);
  }

  /**
   A report that comes after the run has ended is refused and changes nothing. So when the watcher has completed a
   run first, it stays without summary and metrics.
   */
  lemma LateReport(e: Setting, states: seq<State>, ops: seq<Op>, i: nat, j: nat, id: string, call: Call)
    requires IsHistory(e, states, ops) && DistinctIds(ops) && i < j < |ops| && Leaves(states, i, id)
    requires ops[j] == Called(call) && call.CompleteRun? && call.read && TrimSpace(call.command.runId) != ""
    requires Named(states[j].runs, call) == Some(id) && id in states[j].runs
    ensures LegalAnswer(states[j].runs, call) && AfterCall(e, states[j], call).1 == Rejected(ErrTerminalState)
    ensures states[j + 1] == states[j] && states[j].runs[id] == states[i + 1].runs[id]
  {
    hide TrimSpace, Ended;
    EndedRunStays(e, states, ops, i + 1, j, id);
    assert Legal(e, states[j], ops[j]);
  }
}
