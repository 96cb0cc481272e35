/**
 What calls and events do in every history: which answer they get, the exact record that is stored then, and what
 becomes of the job. A call that is refused changes no run.
 */
module RunLaws {
  import opened Text
  import opened Catalog
  import opened RunStore
  import opened RunService
  import opened RunWatcher
  import opened RunEffects
  import opened RunHistory
  import R = TestRuns

  /** Step `i` of a history is `op`. */
  ghost predicate Happens(e: Setting, states: seq<State>, ops: seq<Op>, i: nat, op: Op) {
    IsHistory(e, states, ops) && i < |ops| && ops[i] == op
  }

  predicate IsActive(runs: Runs, id: string) {
    id in runs && runs[id].status in {R.Queued, R.Running}
  }

  /** The job a stored run has, by name and namespace. */
  function OwnJob(run: R.RunState): set<Job> {
    if run.k8sJobName == "" then {} else {Job(run.k8sNamespace, run.k8sJobName)}
  }

  lemma Purged(home: string, s: State, run: R.RunState, works: bool)
    requires R.Named(run)
    ensures WithoutJob(home, s, run, works) == s.(jobs := s.jobs - if works then OwnJob(run) else {})
  {
    hide TrimSpace;
    assert s.jobs - {} == s.jobs;
  }

  lemma StoredNamed(e: Setting, states: seq<State>, ops: seq<Op>, i: nat, id: string)
    requires IsHistory(e, states, ops) && i < |ops| && id in states[i].runs
    ensures R.Named(states[i].runs[id]) && states[i].runs[id].identity.id == id
    ensures IsActive(states[i].runs, id) <==> !R.IsTerminal(states[i].runs[id].status)
  {
    ActiveMeans(states[i].runs[id]);
    hide Step, Legal, R.Named;
    HistoryWell(e, states, ops, i);
  }

  lemma AbortFields(run: R.RunState, reason: string, time: int)
    requires run.status in {R.Queued, R.Running}
    ensures R.Step(run, R.Op.Abort(reason, time)).0 ==
            run.(status := R.Aborted, finishedAt := Some(time), abortReason := TrimSpace(reason))
  {
    hide TrimSpace;
  }

  /**
   An abort answers a run exactly when it names an active run that can be read, and the save works. Then that run
   is stored ABORTED, at the time of the call and with the given or the standard reason, and the answer is what is
   stored. Otherwise no run changes. The run's job is gone once the run was reached and the abort of the job works.
   */
  lemma AbortLaw(e: Setting, states: seq<State>, ops: seq<Op>, i: nat, call: Call)
    requires Happens(e, states, ops, i, Called(call)) && call.AbortRun?
    ensures var s, t, id := states[i], states[i + 1], TrimSpace(call.runId);
            var answer := AfterCall(e, s, call).1;
            var reason := TrimSpace(call.reason);
            var reached := id != "" && call.read && IsActive(s.runs, id);
            && (answer.Run? <==> reached && call.saved)
            && (answer.Run? ==>
                  && t.runs == s.runs[id := s.runs[id].(
                       status := R.Aborted, finishedAt := Some(call.now),
                       abortReason := if reason == "" then "manual cancellation" else reason)]
                  && answer.run == t.runs[id])
            && (!answer.Run? ==> t.runs == s.runs)
            && (reached && !call.saved ==> answer == Rejected(ErrRepository))
            && t.jobs == s.jobs - (if reached && call.jobAborted then OwnJob(s.runs[id]) else {})
  {
    var s, id := states[i], TrimSpace(call.runId);
    TrimSpaceOnce(call.reason);
    TrimSpaceKeeps("manual cancellation");
    assert s.jobs - {} == s.jobs;
    hide TrimSpace, R.Step, OwnJob, WithoutJob;
    if id in s.runs {
      StoredNamed(e, states, ops, i, id);
      Purged(e.clusterNamespace, s, s.runs[id], call.jobAborted);
      if IsActive(s.runs, id) {
        var why := if TrimSpace(call.reason) == "" then "manual cancellation" else TrimSpace(call.reason);
        AbortFields(s.runs[id], why, call.now);
      }
    }
  }

  /**
   A clean-up answers a run exactly when it names one that can be read, and the save, which only an active run
   needs, works. An active run is then stored ABORTED with the reason "runtime cleaned"; an ended one is answered as
   it is. The job is gone once the run was reached and the abort of the job works, in any status.
   */
  lemma CleanupLaw(e: Setting, states: seq<State>, ops: seq<Op>, i: nat, call: Call)
    requires Happens(e, states, ops, i, Called(call)) && call.CleanupRun?
    ensures var s, t, id := states[i], states[i + 1], TrimSpace(call.runId);
            var answer := AfterCall(e, s, call).1;
            var reached := id != "" && call.read && id in s.runs;
            && (answer.Run? <==> reached && (call.saved || !IsActive(s.runs, id)))
            && (answer.Run? && IsActive(s.runs, id) ==>
                  t.runs == s.runs[id := s.runs[id].(
                    status := R.Aborted, finishedAt := Some(call.now), abortReason := "runtime cleaned")])
            && (answer.Run? ==> id in t.runs && answer.run == t.runs[id])
            && (!answer.Run? || !IsActive(s.runs, id) ==> t.runs == s.runs)
            && (reached && !answer.Run? ==> answer == Rejected(ErrRepository))
            && t.jobs == s.jobs - (if reached && call.jobAborted then OwnJob(s.runs[id]) else {})
  {
    var s, id := states[i], TrimSpace(call.runId);
    TrimSpaceKeeps("runtime cleaned");
    assert s.jobs - {} == s.jobs;
    hide TrimSpace, R.Step, OwnJob, WithoutJob;
    if id in s.runs {
      StoredNamed(e, states, ops, i, id);
      Purged(e.clusterNamespace, s, s.runs[id], call.jobAborted);
      if IsActive(s.runs, id) {
        AbortFields(s.runs[id], "runtime cleaned", call.now);
      }
    }
  }

  /**
   A delete removes exactly the run it names, and does so exactly when that run can be read, has ended, and the
   repository works. The job is gone before that, if aborting it works.
   */
  lemma DeleteLaw(e: Setting, states: seq<State>, ops: seq<Op>, i: nat, call: Call)
    requires Happens(e, states, ops, i, Called(call)) && call.DeleteRun?
    ensures var s, t, id := states[i], states[i + 1], TrimSpace(call.runId);
            var answer := AfterCall(e, s, call).1;
            var reached := id != "" && call.read && id in s.runs && !IsActive(s.runs, id);
            && (answer == Done <==> reached && call.deleted)
            && t.runs == (if answer == Done then s.runs - {id} else s.runs)
            && (reached && !call.deleted ==> answer == Rejected(ErrRepository))
            && (id != "" && call.read && IsActive(s.runs, id) ==> answer == Rejected(ErrConflict))
            && t.jobs == s.jobs - (if reached && call.jobAborted then OwnJob(s.runs[id]) else {})
  {
    var s, id := states[i], TrimSpace(call.runId);
    assert s.jobs - {} == s.jobs;
    hide TrimSpace, R.Step, OwnJob, WithoutJob;
    if id in s.runs {
      StoredNamed(e, states, ops, i, id);
      Purged(e.clusterNamespace, s, s.runs[id], call.jobAborted);
    }
  }

  /** Why a call that names a run by its id does not reach it. Such a call changes nothing. */
  lemma NotReached(e: Setting, states: seq<State>, ops: seq<Op>, i: nat, call: Call)
    requires Happens(e, states, ops, i, Called(call)) && (call.AbortRun? || call.CleanupRun? || call.DeleteRun?)
    ensures var s, id := states[i], TrimSpace(call.runId);
            var answer := AfterCall(e, s, call).1;
            var ended := id in s.runs && s.runs[id].status in {R.Completed, R.Failed, R.Aborted, R.Archived};
            && (id == "" ==> answer == Rejected(ErrValidation))
            && (id != "" && !call.read ==> answer == Rejected(ErrRepository))
            && (id != "" && call.read && id !in s.runs ==> answer == Rejected(ErrNotFound))
            && (id != "" && call.read && ended && call.AbortRun? ==> answer == Rejected(ErrTerminalState))
            && (id == "" || !call.read || id !in s.runs || (ended && call.AbortRun?) ==> states[i + 1] == s)
  {
    hide TrimSpace, R.Step, WithoutJob;
  }

  /** The run a completion names: by id, or else the newest one with that job name. */
  ghost predicate Names(runs: Runs, call: Call, id: string)
    requires call.CompleteRun?
  {
    var given := TrimSpace(call.command.runId);
    && given != "" && id in runs
    && (id == given || (given !in runs && call.byJobName == Some(id) && IsNamed(runs, given, call.byJobName)))
  }

  lemma CompletedId(parse: string -> Option<Report>, run: R.RunState, command: CompleteCommand,
                    stored: Option<string>, now: int)
    ensures CompletedRun(parse, run, command, stored, now).identity == run.identity
  {
    hide TrimSpace;
  }

  /**
   A completion answers a run exactly when it names an active run that can be read, and the save works. Then
   the stored run is the completed one, field by field, and the answer is what is stored; nothing else changes.
   Otherwise nothing changes at all.
   */
  lemma CompletionLaw(e: Setting, states: seq<State>, ops: seq<Op>, i: nat, call: Call, id: string)
    requires Happens(e, states, ops, i, Called(call)) && call.CompleteRun? && Names(states[i].runs, call, id)
    ensures var s, t := states[i], states[i + 1];
            LegalAnswer(s.runs, call) &&
            var answer := AfterCall(e, s, call).1;
            && (answer.Run? <==> call.read && IsActive(s.runs, id) && call.saved)
            && (answer.Run? ==>
                  && t == s.(runs := s.runs[id := CompletedRun(e.parse, s.runs[id], call.command, call.stored,
                                                               call.now)])
                  && answer.run == t.runs[id])
            && (!answer.Run? ==>
                  && t == s
                  && answer == Rejected(if call.read && !IsActive(s.runs, id) then ErrTerminalState else ErrRepository))
  {
    var s := states[i];
    assert Legal(e, s, ops[i]);
    hide TrimSpace, Ended, CompletedRun, R.Named;
    StoredNamed(e, states, ops, i, id);
    if IsActive(s.runs, id) {
      EndedFields(e.parse, s.runs[id], call.command, call.stored, call.now);
      CompletedId(e.parse, s.runs[id], call.command, call.stored, call.now);
    }
  }

  /** A completion that names no run changes nothing. */
  lemma NotCompleted(e: Setting, states: seq<State>, ops: seq<Op>, i: nat, call: Call)
    requires Happens(e, states, ops, i, Called(call)) && call.CompleteRun?
    requires forall id :: !Names(states[i].runs, call, id)
    ensures LegalAnswer(states[i].runs, call) && states[i + 1] == states[i]
    ensures AfterCall(e, states[i], call).1 ==
            Rejected(if TrimSpace(call.command.runId) == "" then ErrValidation
                     else if !call.read then ErrRepository else ErrNotFound)
  {
    var s := states[i];
    assert Legal(e, s, ops[i]);
    hide TrimSpace, Ended;
    assert !Names(s.runs, call, TrimSpace(call.command.runId));
    if call.byJobName.Some? {
      assert !Names(s.runs, call, call.byJobName.value);
    }
  }

  /** Where a run's job is created: in the cluster's own namespace instead of the default one, if it has one. */
  function JobPlace(e: Setting, run: R.RunState): string {
    if run.k8sNamespace == "vuhive-runners" && TrimSpace(e.clusterNamespace) != "" then TrimSpace(e.clusterNamespace)
    else run.k8sNamespace
  }

  lemma QueuedPlace(e: Setting, call: Call)
    requires call.TriggerRun?
    ensures DispatchPlace(e.clusterNamespace, QueuedRun(e, call).k8sNamespace) == JobPlace(e, QueuedRun(e, call))
  {
    if call.namespace.Some? {
      TrimSpaceOnce(call.namespace.value);
    }
    TrimSpaceOnce(e.runnerNamespace);
    TrimSpaceKeeps("vuhive-runners");
    hide TrimSpace;
  }

  lemma QueuedMoves(run: R.RunState, jobName: string, now: int)
    requires run.status == R.Queued && run.s3LogsKey == ""
    ensures R.Step(run, R.Op.SetK8sJobName(jobName)).0 == run.(k8sJobName := TrimSpace(jobName))
    ensures R.Step(run, R.Op.Fail(1, "", now)).0 ==
            run.(status := R.Failed, finishedAt := Some(now), exitCode := Some(1), slaPassed := Some(false))
  {
    TrimSpaceKeeps("");
    hide TrimSpace;
  }

  lemma TriggerRuns(e: Setting, s: State, call: Call)
    requires call.TriggerRun? && Runnable(e.catalog, call.unreadable, call.request) && call.saved
    ensures var (t, answer) := AfterTrigger(e, s, call);
            var run := QueuedRun(e, call);
            && (answer.Run? <==> call.dispatched.Some? && call.savedAgain)
            && t.runs == s.runs[call.id :=
                 if !call.savedAgain then run
                 else if call.dispatched.Some? then run.(k8sJobName := TrimSpace(call.dispatched.value))
                 else run.(status := R.Failed, finishedAt := Some(call.now), exitCode := Some(1),
                           slaPassed := Some(false))]
            && (answer.Run? ==> answer.run == t.runs[call.id])
            && (!answer.Run? ==>
                  answer == Rejected(if call.dispatched.None? then ErrOrchestrator else ErrRepository))
  {
    LookupsSucceed(e.catalog, call.unreadable, call.request);
    TriggeredFields(e, call);
    QueuedMoves(QueuedRun(e, call), if call.dispatched.Some? then call.dispatched.value else "", call.now);
    var run := QueuedRun(e, call);
    assert run.identity.id == call.id;
    hide TrimSpace, MissingId, LookupError, Runnable, DispatchPlace, Triggered, R.Step, QueuedRun, Save;
    StoredTwice(s.runs, run, run.(status := R.Failed, finishedAt := Some(call.now), exitCode := Some(1),
                                  slaPassed := Some(false)), call.savedAgain);
    if call.dispatched.Some? {
      StoredTwice(s.runs, run, run.(k8sJobName := TrimSpace(call.dispatched.value)), call.savedAgain);
    }
  }

  lemma TriggerJobs(e: Setting, s: State, call: Call)
    requires call.TriggerRun? && Runnable(e.catalog, call.unreadable, call.request) && call.saved
    ensures var t, run := AfterTrigger(e, s, call).0, QueuedRun(e, call);
            match call.dispatched
            case Some(name) =>
              && t.jobs == s.jobs + {Job(JobPlace(e, run), name)}
              && t.made == s.made[name := Made(JobPlace(e, run), call.id, "")]
            case None => t.jobs == s.jobs && t.made == s.made
  {
    LookupsSucceed(e.catalog, call.unreadable, call.request);
    TriggeredFields(e, call);
    QueuedPlace(e, call);
    hide TrimSpace, MissingId, LookupError, Runnable, DispatchPlace, Triggered, JobPlace, R.Step, Present;
  }

  lemma TriggerRefused(e: Setting, s: State, call: Call)
    requires call.TriggerRun? && !(Runnable(e.catalog, call.unreadable, call.request) && call.saved)
    ensures AfterTrigger(e, s, call).0 == s && AfterTrigger(e, s, call).1.Rejected?
    ensures Runnable(e.catalog, call.unreadable, call.request) ==>
              AfterTrigger(e, s, call).1 == Rejected(ErrRepository)
  {
    LookupsSucceed(e.catalog, call.unreadable, call.request);
    hide TrimSpace, MissingId, LookupError, Runnable, DispatchPlace, Triggered;
  }

  /**
   A trigger answers a run exactly when what is asked for can be run, both saves work and a job is dispatched; that
   run is stored QUEUED with the name of its job. When the job is not dispatched, the run is stored FAILED with
   exit code 1; when a later save fails, it stays stored as it was before. A job that is dispatched is there, labelled
   with the run; a trigger that is refused before has no effect.
   */
  lemma TriggerLaw(e: Setting, states: seq<State>, ops: seq<Op>, i: nat, call: Call)
    requires Happens(e, states, ops, i, Called(call)) && call.TriggerRun?
    ensures var s, t, run := states[i], states[i + 1], QueuedRun(e, call);
            var answer := AfterCall(e, s, call).1;
            var runnable := Runnable(e.catalog, call.unreadable, call.request);
            var stored := runnable && call.saved;
            && (answer.Run? <==> stored && call.dispatched.Some? && call.savedAgain)
            && (answer.Run? ==> call.id in t.runs && answer.run == t.runs[call.id])
            && (stored ==>
                  t.runs == s.runs[call.id :=
                    if !call.savedAgain then run
                    else if call.dispatched.Some? then run.(k8sJobName := TrimSpace(call.dispatched.value))
                    else run.(status := R.Failed, finishedAt := Some(call.now), exitCode := Some(1),
                              slaPassed := Some(false))])
            && (stored && call.dispatched.Some? ==>
                  && t.jobs == s.jobs + {Job(JobPlace(e, run), call.dispatched.value)}
                  && t.made == s.made[call.dispatched.value := Made(JobPlace(e, run), call.id, "")]
                  && (!call.savedAgain ==> answer == Rejected(ErrRepository)))
            && (stored && call.dispatched.None? ==>
                  answer == Rejected(ErrOrchestrator) && t.jobs == s.jobs && t.made == s.made)
            && (!stored ==> t == s && answer.Rejected? && (runnable ==> answer == Rejected(ErrRepository)))
  {
    hide TrimSpace, Runnable, JobPlace, QueuedRun, AfterTrigger;
    if Runnable(e.catalog, call.unreadable, call.request) && call.saved {
      TriggerRuns(e, states[i], call);
      TriggerJobs(e, states[i], call);
    } else {
      TriggerRefused(e, states[i], call);
    }
  }

  // Events.

  /** The job of the event is labelled with a run or a schedule. */
  predicate Labelled(sync: Sync) {
    TrimSpace(sync.event.made.runId) != "" || TrimSpace(sync.event.made.scheduleId) != ""
  }

  /** The stored run of the event's job: the one on its label, else the newest one with the job's name. */
  ghost predicate RunOf(runs: Runs, sync: Sync, id: string) {
    var given := TrimSpace(sync.event.made.runId);
    id in runs && if given != "" && given in runs then id == given else sync.byJobName == Some(id)
  }

  /** The event has something to say about an active run. */
  predicate Matters(run: R.RunState, phase: Phase) {
    phase.BeingDeleted? || phase.Succeeded? || phase.Broken? || (phase.Active? && run.status == R.Queued)
  }

  lemma EventChanges(run: R.RunState, sync: Sync)
    requires run.status in {R.Queued, R.Running}
    ensures EventRun(run, sync).Some? <==> Matters(run, sync.event.phase)
    ensures EventRun(run, sync).Some? ==>
              EventRun(run, sync).value.identity == run.identity && EventRun(run, sync).value.status != run.status
  {
    hide TrimSpace, FileOf;
  }

  /**
   An event of a stored run's job changes the run exactly when it can be read, is active, the save works, and the
   event shows the job deleted, succeeded, failed, or, for a queued run, active. The stored run is then the moved
   one, field by field; nothing else changes.
   */
  lemma SyncLaw(e: Setting, states: seq<State>, ops: seq<Op>, i: nat, sync: Sync, id: string)
    requires Happens(e, states, ops, i, Synced(sync)) && Labelled(sync) && RunOf(states[i].runs, sync, id)
    ensures var s, t := states[i], states[i + 1];
            var matters := sync.read && IsActive(s.runs, id) && Matters(s.runs[id], sync.event.phase);
            && (t != s <==> matters && sync.saved)
            && (matters ==> EventRun(s.runs[id], sync).Some?)
            && (t != s ==> t == s.(runs := s.runs[id := EventRun(s.runs[id], sync).value]))
            && (Found(s.runs, sync).Some? ==> Found(s.runs, sync).value in s.runs)
            && AfterSync(s, sync).1 ==
               if !sync.read || (matters && !sync.saved) then Some(ErrRepository) else None
  {
    var s := states[i];
    assert Legal(e, s, ops[i]);
    hide TrimSpace, Advanced, EventRun, R.Named, LegalEvent;
    StoredNamed(e, states, ops, i, id);
    assert Found(s.runs, sync) == Some(id);
    if IsActive(s.runs, id) {
      AdvancedFields(s.runs[id], sync);
      EventChanges(s.runs[id], sync);
    }
  }

  lemma FoundIsRun(runs: Runs, sync: Sync)
    requires Found(runs, sync).Some? && Found(runs, sync).value in runs
    ensures RunOf(runs, sync, Found(runs, sync).value)
  {
    hide TrimSpace;
  }

  lemma CreatedStored(s: State, sync: Sync)
    requires sync.schedule.Some?
    ensures var run := ScheduledRun(sync);
            var matters := Matters(run, sync.event.phase);
            && (matters ==> EventRun(run, sync).Some?)
            && AfterAdvance(s.(runs := Save(s.runs, CreatedRun(sync), true)), CreatedRun(sync), sync).0
               == s.(runs := s.runs[sync.newId := if matters && sync.saved then EventRun(run, sync).value else run])
  {
    CreatedFields(sync);
    AdvancedFields(ScheduledRun(sync), sync);
    EventChanges(ScheduledRun(sync), sync);
    hide TrimSpace, Advanced, EventRun, CreatedRun, Present;
  }

  lemma Unknown(s: State, sync: Sync)
    requires Labelled(sync) && Found(s.runs, sync).None?
    ensures AfterSync(s, sync).0 ==
            if sync.read && sync.created && ScheduleLabel(sync) != "" && sync.schedule.Some?
               && MissingId(sync.schedule.value).None?
            then AfterAdvance(s.(runs := Save(s.runs, CreatedRun(sync), true)), CreatedRun(sync), sync).0
            else s
  {
    hide TrimSpace, MissingId, CreatedRun, AfterAdvance, Save;
  }

  lemma NothingMissing(request: Request)
    ensures MissingId(request).None? <==>
            TrimSpace(request.suiteId) != "" && TrimSpace(request.artifactId) != ""
            && TrimSpace(request.runnerProfileId) != ""
  {
    hide TrimSpace;
  }

  /** An event of a job that no stored run has stores one exactly when the job is that of a schedule which is known. */
  lemma ScheduledLaw(e: Setting, states: seq<State>, ops: seq<Op>, i: nat, sync: Sync)
    requires Happens(e, states, ops, i, Synced(sync)) && Labelled(sync)
    requires forall id :: !RunOf(states[i].runs, sync, id)
    ensures var s, t := states[i], states[i + 1];
            var stored :=
              && sync.read && sync.created && TrimSpace(sync.event.made.scheduleId) != "" && sync.schedule.Some?
              && TrimSpace(sync.schedule.value.suiteId) != "" && TrimSpace(sync.schedule.value.artifactId) != ""
              && TrimSpace(sync.schedule.value.runnerProfileId) != "";
            && (stored ==>
                  var run := ScheduledRun(sync);
                  var matters := Matters(run, sync.event.phase);
                  && (matters ==> EventRun(run, sync).Some?)
                  && t == s.(runs := s.runs[sync.newId :=
                                      if matters && sync.saved then EventRun(run, sync).value else run]))
            && (!stored ==> t == s)
  {
    var s := states[i];
    assert Legal(e, s, ops[i]);
    hide TrimSpace, EventRun, LegalEvent, ScheduledRun, CreatedRun, AfterAdvance, Save, Matters, RunOf, AfterSync,
         MissingId, Labelled;
    if Found(s.runs, sync).Some? {
      FoundIsRun(s.runs, sync);
    } else {
      Unknown(s, sync);
      if sync.schedule.Some? {
        CreatedStored(s, sync);
        NothingMissing(sync.schedule.value);
      }
    }
  }

  lemma Unlabelled(e: Setting, states: seq<State>, ops: seq<Op>, i: nat, sync: Sync)
    requires Happens(e, states, ops, i, Synced(sync)) && !Labelled(sync)
    ensures states[i + 1] == states[i]
  {
    assert Legal(e, states[i], ops[i]);
    hide TrimSpace, LegalEvent;
  }

  /** When a job is gone, the active run on its label is stored ABORTED; nothing else changes. */
  lemma GoneLaw(e: Setting, states: seq<State>, ops: seq<Op>, i: nat, event: JobEvent, now: int, read: bool,
                saved: bool)
    requires Happens(e, states, ops, i, JobDeleted(event, now, read, saved))
    ensures var s, t, id := states[i], states[i + 1], TrimSpace(event.made.runId);
            var reached := id != "" && read && IsActive(s.runs, id);
            && t == (if reached && saved then
                       s.(runs := s.runs[id := s.runs[id].(
                         status := R.Aborted, finishedAt := Some(now), abortReason := "job deleted in kubernetes")])
                     else s)
            && AfterDeletion(s, event, now, read, saved).1 ==
               if id != "" && (!read || (reached && !saved)) then Some(ErrRepository) else None
  {
    var s, id := states[i], TrimSpace(event.made.runId);
    TrimSpaceKeeps("job deleted in kubernetes");
    hide TrimSpace, R.Step;
    if id in s.runs {
      StoredNamed(e, states, ops, i, id);
      if IsActive(s.runs, id) {
        AbortFields(s.runs[id], "job deleted in kubernetes", now);
      }
    }
  }
}
