/**
 The schedule service over a repository of schedules and a cluster of CronJobs, either of which may
 refuse a call without effect: when the two stay in step, exactly which failures set them apart, and
 which CronJobs are left with no schedule.
 */
module ScheduleService {
  import opened Text
  import opened Catalog
  import opened Schedules

  datatype CronJob = CronJob(schedule: string, active: bool)

  datatype State = State(repo: map<string, ScheduleState>, cluster: map<string, CronJob>)

  /** One call, with whether the orchestrator and the repository do what they are asked. */
  datatype Op =
    | CreateSchedule(request: Request, name: string, cronExpr: string, unreadable: set<Table>, id: string, now: int,
                     saved: bool, clusterWorks: bool, rolledBack: bool)
    | UpdateSchedule(scheduleId: string, newExpr: Option<string>, newActive: Option<bool>, now: int, read: bool,
                     clusterWorks: bool, saved: bool)
    | DeleteSchedule(scheduleId: string, read: bool, clusterWorks: bool, deleted: bool)

  datatype Reply = Scheduled(schedule: ScheduleState) | Done | Rejected(error: Error)

  function JobOf(s: ScheduleState): CronJob {
    CronJob(s.cronExpression, s.isActive)
  }

  /** A cluster does not create a job under a name in use, and cannot update a job it does not have. */
  predicate Creates(cluster: map<string, CronJob>, name: string, works: bool) {
    works && name !in cluster
  }

  predicate Updates(cluster: map<string, CronJob>, name: string, works: bool) {
    works && name in cluster
  }

  function CreateError(c: Catalog, parses: string -> bool, unreadable: set<Table>, request: Request, name: string,
                       cronExpr: string)
    : Option<Error> {
    if MissingId(request).Some? then MissingId(request)
    else if TrimSpace(name) == "" then Some(ErrEmptyName)
    else if !ValidCron(parses, TrimSpace(cronExpr)) then Some(ErrInvalidCronExpression)
    else LookupError(c, unreadable, request)
  }

  function AfterCreate(c: Catalog, parses: string -> bool, s: State, op: Op): (State, Reply)
    requires op.CreateSchedule?
  {
    var error := CreateError(c, parses, op.unreadable, op.request, op.name, op.cronExpr);
    var schedule := NewState(op.id, op.request, op.name, op.cronExpr, op.now);
    var jobName := schedule.identity.k8sCronJobName;
    if error.Some? then (s, Rejected(error.value))
    else if !op.saved then (s, Rejected(ErrRepository))
    else
      var saved := s.(repo := s.repo[op.id := schedule]);
      if Creates(s.cluster, jobName, op.clusterWorks) then
        (saved.(cluster := s.cluster[jobName := JobOf(schedule)]), Scheduled(schedule))
      else
        (if op.rolledBack then saved.(repo := saved.repo - {op.id}) else saved, Rejected(ErrOrchestrator))
  }

  function IsGiven(newExpr: Option<string>): bool {
    newExpr.Some? && TrimSpace(newExpr.value) != ""
  }

  /** What an update makes of a schedule in memory. */
  function Changed(parses: string -> bool, s: ScheduleState, newExpr: Option<string>, newActive: Option<bool>, now: int)
    : (ScheduleState, Option<Error>) {
    var (withExpr, error) :=
      if IsGiven(newExpr) then WithExpression(parses, s, TrimSpace(newExpr.value), now) else (s, None);
    if error.Some? then (withExpr, error)
    else if newActive == Some(true) && !withExpr.isActive then Activated(withExpr, now)
    else if newActive == Some(false) && withExpr.isActive then Deactivated(withExpr, now)
    else (withExpr, None)
  }

  function AfterUpdate(parses: string -> bool, s: State, op: Op): (State, Reply)
    requires op.UpdateSchedule?
  {
    var id := TrimSpace(op.scheduleId);
    if id == "" then (s, Rejected(ErrValidation))
    else if !IsGiven(op.newExpr) && op.newActive.None? then (s, Rejected(ErrValidation))
    else if !op.read then (s, Rejected(ErrRepository))
    else if id !in s.repo then (s, Rejected(ErrNotFound))
    else
      var (schedule, error) := Changed(parses, s.repo[id], op.newExpr, op.newActive, op.now);
      var jobName := schedule.identity.k8sCronJobName;
      if error.Some? then (s, Rejected(error.value))
      else if !Updates(s.cluster, jobName, op.clusterWorks) then (s, Rejected(ErrOrchestrator))
      else
        var updated := s.(cluster := s.cluster[jobName := JobOf(schedule)]);
        if op.saved then (updated.(repo := s.repo[schedule.identity.id := schedule]), Scheduled(schedule))
        else (updated, Rejected(ErrRepository))
  }

  function AfterDelete(s: State, op: Op): (State, Reply)
    requires op.DeleteSchedule?
  {
    var id := TrimSpace(op.scheduleId);
    if id == "" then (s, Rejected(ErrValidation))
    else if !op.read then (s, Rejected(ErrRepository))
    else if id !in s.repo then (s, Rejected(ErrNotFound))
    else
      var cluster := if op.clusterWorks then s.cluster - {s.repo[id].identity.k8sCronJobName} else s.cluster;
      if op.deleted then (State(s.repo - {id}, cluster), Done) else (s.(cluster := cluster), Rejected(ErrRepository))
  }

  function Step(c: Catalog, parses: string -> bool, s: State, op: Op): (State, Reply) {
    match op
    case CreateSchedule(_, _, _, _, _, _, _, _, _) => AfterCreate(c, parses, s, op)
    case UpdateSchedule(_, _, _, _, _, _, _) => AfterUpdate(parses, s, op)
    case DeleteSchedule(_, _, _, _) => AfterDelete(s, op)
  }

  // The service.

  class ScheduleService {
    const catalog: Catalog
    const parses: string -> bool
    var repo: map<string, ScheduleState>
    var cluster: map<string, CronJob>

    ghost function View(): State
      reads this
    {
      State(repo, cluster)
    }

    constructor (catalog: Catalog, parses: string -> bool)
      ensures this.catalog == catalog && this.parses == parses && View() == State(map[], map[])
    {
      this.catalog, this.parses, repo, cluster := catalog, parses, map[], map[];
    }

    method SaveSchedule(schedule: Schedule, works: bool) returns (error: Option<Error>)
      modifies this`repo
      ensures repo == if works then old(repo)[schedule.identity.id := schedule.View()] else old(repo)
      ensures error == if works then None else Some(ErrRepository)
    {
      if !works {
        return Some(ErrRepository);
      }
      var state := schedule.Stored();
      repo := repo[schedule.identity.id := state];
      return None;
    }

    method CreateCronJob(schedule: Schedule, works: bool) returns (error: Option<Error>)
      modifies this`cluster
      ensures var name := schedule.identity.k8sCronJobName;
              if Creates(old(cluster), name, works) then
                cluster == old(cluster)[name := JobOf(schedule.View())] && error.None?
              else cluster == old(cluster) && error == Some(ErrOrchestrator)
    {
      if !works || schedule.identity.k8sCronJobName in cluster {
        return Some(ErrOrchestrator);
      }
      cluster := cluster[schedule.identity.k8sCronJobName := CronJob(schedule.cronExpression, schedule.isActive)];
      return None;
    }

    method UpdateCronJob(schedule: Schedule, works: bool) returns (error: Option<Error>)
      modifies this`cluster
      ensures var name := schedule.identity.k8sCronJobName;
              if Updates(old(cluster), name, works) then
                cluster == old(cluster)[name := JobOf(schedule.View())] && error.None?
              else cluster == old(cluster) && error == Some(ErrOrchestrator)
    {
      if !works || schedule.identity.k8sCronJobName !in cluster {
        return Some(ErrOrchestrator);
      }
      cluster := cluster[schedule.identity.k8sCronJobName := CronJob(schedule.cronExpression, schedule.isActive)];
      return None;
    }

    method CreateSchedule(request: Request, name: string, cronExpr: string, unreadable: set<Table>, id: string,
                          now: int, saved: bool,
                          clusterWorks: bool, rolledBack: bool)
      returns (reply: Reply)
      modifies this
      ensures (View(), reply)
              == AfterCreate(catalog, parses, old(View()),
                             Op.CreateSchedule(request, name, cronExpr, unreadable, id, now, saved, clusterWorks,
                                               rolledBack))
    {
      hide TrimSpace, LookupError, MissingId, ValidCron, JobName;
      var missing := MissingId(request);
      if missing.Some? {
        return Rejected(missing.value);
      }
      if TrimSpace(name) == "" {
        return Rejected(ErrEmptyName);
      }
      if !ValidCron(parses, TrimSpace(cronExpr)) {
        return Rejected(ErrInvalidCronExpression);
      }
      var lookup := LookupError(catalog, unreadable, request);
      if lookup.Some? {
        return Rejected(lookup.value);
      }
      TrimSpaceOnce(cronExpr);
      var schedule, invalid := NewSchedule(parses, id, request, name, TrimSpace(cronExpr), now);
      if invalid.Some? {
        return Rejected(ErrInvalidCronExpression);
      }
      var error := SaveSchedule(schedule, saved);
      if error.Some? {
        return Rejected(error.value);
      }
      error := CreateCronJob(schedule, clusterWorks);
      if error.Some? {
        if rolledBack {
          repo := repo - {id};
        }
        return Rejected(error.value);
      }
      var state := schedule.Stored();
      return Scheduled(state);
    }

    method UpdateSchedule(scheduleId: string, newExpr: Option<string>, newActive: Option<bool>, now: int,
                          read: bool, clusterWorks: bool, saved: bool)
      returns (reply: Reply)
      modifies this
      ensures (View(), reply)
              == AfterUpdate(parses, old(View()),
                             Op.UpdateSchedule(scheduleId, newExpr, newActive, now, read, clusterWorks, saved))
    {
      hide TrimSpace, ValidCron;
      var trimmedId := TrimSpace(scheduleId);
      if trimmedId == "" {
        return Rejected(ErrValidation);
      }
      if (newExpr.None? || TrimSpace(newExpr.value) == "") && newActive.None? {
        return Rejected(ErrValidation);
      }
      if !read {
        return Rejected(ErrRepository);
      }
      if trimmedId !in repo {
        return Rejected(ErrNotFound);
      }
      var schedule := new Schedule(repo[trimmedId]);
      var error := Change(schedule, newExpr, newActive, now);
      if error.Some? {
        return Rejected(error.value);
      }
      error := UpdateCronJob(schedule, clusterWorks);
      if error.Some? {
        return Rejected(error.value);
      }
      error := SaveSchedule(schedule, saved);
      if error.Some? {
        return Rejected(error.value);
      }
      var state := schedule.Stored();
      return Scheduled(state);
    }

    method Change(schedule: Schedule, newExpr: Option<string>, newActive: Option<bool>, now: int)
      returns (error: Option<Error>)
      modifies schedule
      ensures (schedule.View(), error) == Changed(parses, old(schedule.View()), newExpr, newActive, now)
    {
      hide TrimSpace, ValidCron;
      error := None;
      if newExpr.Some? && TrimSpace(newExpr.value) != "" {
        error := schedule.UpdateCronExpression(parses, TrimSpace(newExpr.value), now);
        if error.Some? {
          return;
        }
      }
      if newActive.Some? {
        if newActive.value && !schedule.isActive {
          error := schedule.Activate(now);
        } else if !newActive.value && schedule.isActive {
          error := schedule.Deactivate(now);
        }
      }
    }

    method DeleteSchedule(scheduleId: string, read: bool, clusterWorks: bool, deleted: bool) returns (reply: Reply)
      modifies this
      ensures (View(), reply) == AfterDelete(old(View()), Op.DeleteSchedule(scheduleId, read, clusterWorks, deleted))
    {
      hide TrimSpace;
      var trimmedId := TrimSpace(scheduleId);
      if trimmedId == "" {
        return Rejected(ErrValidation);
      }
      if !read {
        return Rejected(ErrRepository);
      }
      if trimmedId !in repo {
        return Rejected(ErrNotFound);
      }
      if clusterWorks {
        cluster := cluster - {repo[trimmedId].identity.k8sCronJobName};
      }
      if !deleted {
        return Rejected(ErrRepository);
      }
      repo := repo - {trimmedId};
      return Done;
    }
  }

  // Staying in step.

  /** Schedules are stored under their ids, with job names of their own. */
  ghost predicate WellStored(s: State) {
    && (forall id :: id in s.repo ==> s.repo[id].identity.id == id)
    && forall id, other ::
         && id in s.repo && other in s.repo
         && s.repo[id].identity.k8sCronJobName == s.repo[other].identity.k8sCronJobName
         ==> id == other
  }

  ghost predicate InStepAt(s: State, id: string)
    requires id in s.repo
  {
    var jobName := s.repo[id].identity.k8sCronJobName;
    jobName in s.cluster && s.cluster[jobName] == JobOf(s.repo[id])
  }

  /** Every stored schedule has a CronJob with its expression and its flag. */
  ghost predicate InStep(s: State) {
    forall id :: id in s.repo ==> InStepAt(s, id)
  }

  /** A new schedule's id and job name are not in use. */
  ghost predicate Fresh(s: State, op: Op) {
    op.CreateSchedule? ==>
      && op.id !in s.repo && JobName(op.id) !in s.cluster
      && forall id :: id in s.repo ==> s.repo[id].identity.k8sCronJobName != JobName(op.id)
  }

  /**
   The failures that set repository and cluster apart: a roll-back that fails after the cluster refused a
   new job; a save that fails after the cluster took a real change; a repository delete that fails after
   the cluster deleted the job.
   */
  predicate SetsApart(c: Catalog, parses: string -> bool, s: State, op: Op) {
    match op
    case CreateSchedule(request, name, cronExpr, unreadable, _, _, saved, clusterWorks, rolledBack) =>
      CreateError(c, parses, unreadable, request, name, cronExpr).None? && saved && !clusterWorks && !rolledBack
    case UpdateSchedule(scheduleId, newExpr, newActive, now, read, clusterWorks, saved) =>
      var id := TrimSpace(scheduleId);
      && id != "" && (IsGiven(newExpr) || newActive.Some?) && read && id in s.repo && clusterWorks && !saved
      && var (changed, error) := Changed(parses, s.repo[id], newExpr, newActive, now);
         error.None? && JobOf(changed) != JobOf(s.repo[id])
    case DeleteSchedule(scheduleId, read, clusterWorks, deleted) =>
      TrimSpace(scheduleId) != "" && read && TrimSpace(scheduleId) in s.repo && clusterWorks && !deleted
  }

  lemma ChangedKeeps(parses: string -> bool, s: ScheduleState, newExpr: Option<string>, newActive: Option<bool>,
                     now: int)
    ensures Changed(parses, s, newExpr, newActive, now).0.identity == s.identity
  {
    hide TrimSpace, ValidCron;
  }

  /** All schedules but one stay in step when only that one and its job change. */
  lemma OthersInStep(s: State, after: State, id: string, jobName: string)
    requires WellStored(s) && InStep(s)
    requires forall k :: k in after.repo && k != id ==>
               k in s.repo && after.repo[k] == s.repo[k] && s.repo[k].identity.k8sCronJobName != jobName
    requires forall name :: name in s.cluster && name != jobName ==>
               name in after.cluster && after.cluster[name] == s.cluster[name]
    ensures InStep(after) <==> id in after.repo ==> InStepAt(after, id)
  {
    forall k | k in after.repo && k != id ensures InStepAt(after, k) {
      assert InStepAt(s, k);
    }
  }

  lemma CreateInStep(c: Catalog, parses: string -> bool, s: State, op: Op)
    requires op.CreateSchedule? && WellStored(s) && InStep(s) && Fresh(s, op)
    ensures var after := AfterCreate(c, parses, s, op).0;
            WellStored(after) && (InStep(after) <==> !SetsApart(c, parses, s, op))
  {
    hide TrimSpace, CreateError, JobName, InStep, Trimmed;
    OthersInStep(s, AfterCreate(c, parses, s, op).0, op.id, JobName(op.id));
  }

  lemma InStepMeans(s: State, id: string)
    requires InStep(s) && id in s.repo
    ensures InStepAt(s, id)
  {
  }

  lemma UpdateInStep(c: Catalog, parses: string -> bool, s: State, op: Op)
    requires op.UpdateSchedule? && WellStored(s) && InStep(s)
    ensures var after := AfterUpdate(parses, s, op).0;
            WellStored(after) && (InStep(after) <==> !SetsApart(c, parses, s, op))
  {
    hide TrimSpace, Changed, InStep, IsGiven;
    var id := TrimSpace(op.scheduleId);
    if id in s.repo {
      ChangedKeeps(parses, s.repo[id], op.newExpr, op.newActive, op.now);
      assert InStepAt(s, id) by { InStepMeans(s, id); }
      OthersInStep(s, AfterUpdate(parses, s, op).0, id, s.repo[id].identity.k8sCronJobName);
    }
  }

  lemma DeleteInStep(c: Catalog, parses: string -> bool, s: State, op: Op)
    requires op.DeleteSchedule? && WellStored(s) && InStep(s)
    ensures var after := AfterDelete(s, op).0; WellStored(after) && (InStep(after) <==> !SetsApart(c, parses, s, op))
  {
    hide TrimSpace, InStep;
    var id := TrimSpace(op.scheduleId);
    if id in s.repo {
      assert InStepAt(s, id) by { InStepMeans(s, id); }
      OthersInStep(s, AfterDelete(s, op).0, id, s.repo[id].identity.k8sCronJobName);
    }
  }

  /** From a state in step a call leads to a state in step exactly when it does not set the two apart. */
  lemma StepInStep(c: Catalog, parses: string -> bool, s: State, op: Op)
    requires WellStored(s) && InStep(s) && Fresh(s, op)
    ensures WellStored(Step(c, parses, s, op).0)
    ensures InStep(Step(c, parses, s, op).0) <==> !SetsApart(c, parses, s, op)
  {
    hide WellStored, InStep, Fresh, SetsApart, AfterCreate, AfterUpdate, AfterDelete;
    match op
    case CreateSchedule(_, _, _, _, _, _, _, _, _) => CreateInStep(c, parses, s, op);
    case UpdateSchedule(_, _, _, _, _, _, _) => UpdateInStep(c, parses, s, op);
    case DeleteSchedule(_, _, _, _) => DeleteInStep(c, parses, s, op);
  }

  ghost predicate IsHistory(c: Catalog, parses: string -> bool, states: seq<State>, ops: seq<Op>) {
    && |states| == |ops| + 1
    && states[0] == State(map[], map[])
    && forall i :: 0 <= i < |ops| ==> Fresh(states[i], ops[i]) && states[i + 1] == Step(c, parses, states[i], ops[i]).0
  }

  /** In every history, repository and cluster are in step as long as no call has set them apart. */
  lemma {:induction false} HistoryInStep(c: Catalog, parses: string -> bool, states: seq<State>, ops: seq<Op>, i: nat)
    requires IsHistory(c, parses, states, ops) && i <= |ops|
    requires forall k :: 0 <= k < i ==> !SetsApart(c, parses, states[k], ops[k])
    ensures WellStored(states[i]) && InStep(states[i])
  {
    hide Step, SetsApart, Fresh;
    if i == 0 {
    } else {
      HistoryInStep(c, parses, states, ops, i - 1);
      StepInStep(c, parses, states[i - 1], ops[i - 1]);
    }
  }

  predicate RepositoryWorks(op: Op) {
    match op
    case CreateSchedule(_, _, _, _, _, _, saved, _, rolledBack) => saved && rolledBack
    case UpdateSchedule(_, _, _, _, _, _, saved) => saved
    case DeleteSchedule(_, _, _, deleted) => deleted
  }

  lemma NotApart(c: Catalog, parses: string -> bool, s: State, op: Op)
    requires RepositoryWorks(op)
    ensures !SetsApart(c, parses, s, op)
  {
    hide TrimSpace, CreateError, Changed;
  }

  /** With a repository that does not fail, the orchestrator may fail any call and the two stay in step. */
  lemma ReliableRepository(c: Catalog, parses: string -> bool, states: seq<State>, ops: seq<Op>, i: nat)
    requires IsHistory(c, parses, states, ops) && i <= |ops|
    requires forall k :: 0 <= k < i ==> RepositoryWorks(ops[k])
    ensures WellStored(states[i]) && InStep(states[i])
  {
    forall k | 0 <= k < i ensures !SetsApart(c, parses, states[k], ops[k]) {
      NotApart(c, parses, states[k], ops[k]);
    }
    HistoryInStep(c, parses, states, ops, i);
  }

  // CronJobs without a schedule.

  function JobNames(repo: map<string, ScheduleState>): set<string> {
    set id | id in repo :: repo[id].identity.k8sCronJobName
  }

  /** CronJobs that no stored schedule names. */
  function Unclaimed(s: State): set<string> {
    s.cluster.Keys - JobNames(s.repo)
  }

  /** The job left behind by a call: that of a schedule deleted while the cluster refused to delete the job. */
  function LeftBehind(s: State, op: Op): set<string> {
    if op.DeleteSchedule? && op.read && !op.clusterWorks && op.deleted
       && TrimSpace(op.scheduleId) != "" && TrimSpace(op.scheduleId) in s.repo
    then {s.repo[TrimSpace(op.scheduleId)].identity.k8sCronJobName} else {}
  }

  lemma NamesWith(repo: map<string, ScheduleState>, id: string, schedule: ScheduleState)
    requires id !in repo
    ensures JobNames(repo[id := schedule]) == JobNames(repo) + {schedule.identity.k8sCronJobName}
  {
    var with := repo[id := schedule];
    forall n | n in JobNames(repo) ensures n in JobNames(with) {
      var k :| k in repo && repo[k].identity.k8sCronJobName == n;
      assert k in with && with[k] == repo[k];
    }
    assert id in with && with[id] == schedule;
  }

  lemma CreateUnclaimed(c: Catalog, parses: string -> bool, s: State, op: Op)
    requires op.CreateSchedule? && WellStored(s) && Fresh(s, op) && !SetsApart(c, parses, s, op)
    ensures Unclaimed(AfterCreate(c, parses, s, op).0) == Unclaimed(s)
  {
    hide TrimSpace, CreateError, JobName;
    var after := AfterCreate(c, parses, s, op).0;
    if after.repo != s.repo {
      var schedule := after.repo[op.id];
      assert after.repo == s.repo[op.id := schedule];
      NamesWith(s.repo, op.id, schedule);
    }
  }

  lemma NamesWithout(s: State, id: string)
    requires WellStored(s) && id in s.repo
    ensures JobNames(s.repo - {id}) == JobNames(s.repo) - {s.repo[id].identity.k8sCronJobName}
  {
    var rest := s.repo - {id};
    forall n ensures n in JobNames(rest) <==> n in JobNames(s.repo) && n != s.repo[id].identity.k8sCronJobName {
      if n in JobNames(rest) {
        var k :| k in rest && rest[k].identity.k8sCronJobName == n;
        assert k in s.repo && s.repo[k] == rest[k];
      }
      if n in JobNames(s.repo) {
        var k :| k in s.repo && s.repo[k].identity.k8sCronJobName == n;
        assert k != id ==> k in rest && rest[k] == s.repo[k];
      }
    }
  }

  lemma DeleteUnclaimed(c: Catalog, parses: string -> bool, s: State, op: Op, id: string)
    requires op.DeleteSchedule? && id == TrimSpace(op.scheduleId) && id != "" && id in s.repo
    requires WellStored(s) && InStep(s) && !SetsApart(c, parses, s, op)
    ensures Unclaimed(AfterDelete(s, op).0) == Unclaimed(s) + LeftBehind(s, op)
  {
    hide TrimSpace;
    assert InStepAt(s, id);
    NamesWithout(s, id);
  }

  lemma SameNames(repo: map<string, ScheduleState>, after: map<string, ScheduleState>)
    requires repo.Keys == after.Keys && forall k :: k in repo ==> after[k].identity == repo[k].identity
    ensures JobNames(repo) == JobNames(after)
  {
    forall n ensures n in JobNames(repo) <==> n in JobNames(after) {
      if n in JobNames(repo) {
        var k :| k in repo && repo[k].identity.k8sCronJobName == n;
        assert after[k].identity.k8sCronJobName == n;
      }
      if n in JobNames(after) {
        var k :| k in after && after[k].identity.k8sCronJobName == n;
        assert repo[k].identity.k8sCronJobName == n;
      }
    }
  }

  lemma UpdateUnclaimed(c: Catalog, parses: string -> bool, s: State, op: Op)
    requires op.UpdateSchedule? && WellStored(s) && InStep(s)
    ensures Unclaimed(AfterUpdate(parses, s, op).0) == Unclaimed(s)
  {
    hide TrimSpace, Changed, IsGiven, InStep;
    var id := TrimSpace(op.scheduleId);
    if id in s.repo {
      ChangedKeeps(parses, s.repo[id], op.newExpr, op.newActive, op.now);
      InStepMeans(s, id);
    }
    SameNames(s.repo, AfterUpdate(parses, s, op).0.repo);
    hide JobNames;
  }

  /**
   A call that does not set the two apart leaves behind what LeftBehind says and claims nothing left behind
   before.
   */
  lemma StepUnclaimed(c: Catalog, parses: string -> bool, s: State, op: Op)
    requires WellStored(s) && InStep(s) && Fresh(s, op) && !SetsApart(c, parses, s, op)
    ensures Unclaimed(Step(c, parses, s, op).0) == Unclaimed(s) + LeftBehind(s, op)
  {
    hide TrimSpace, SetsApart, Fresh, Unclaimed, WellStored, InStep, AfterCreate, AfterUpdate;
    match op
    case CreateSchedule(_, _, _, _, _, _, _, _, _) => CreateUnclaimed(c, parses, s, op);
    case UpdateSchedule(_, _, _, _, _, _, _) => UpdateUnclaimed(c, parses, s, op);
    case DeleteSchedule(scheduleId, _, _, _) =>
      if TrimSpace(scheduleId) != "" && TrimSpace(scheduleId) in s.repo {
        DeleteUnclaimed(c, parses, s, op, TrimSpace(scheduleId));
      }
  }

  function LeftBehindBy(states: seq<State>, ops: seq<Op>, i: nat): set<string>
    requires i <= |ops| && |states| == |ops| + 1
  {
    if i == 0 then {} else LeftBehindBy(states, ops, i - 1) + LeftBehind(states[i - 1], ops[i - 1])
  }

  lemma NothingUnclaimed()
    ensures Unclaimed(State(map[], map[])) == {}
  {
  }

  /**
   With a repository that does not fail, the CronJobs without a schedule are exactly those left by refused
   cluster deletes.
   */
  lemma {:induction false} OnlyRefusedDeletesLeak(c: Catalog, parses: string -> bool, states: seq<State>, ops: seq<Op>,
                                                  i: nat)
    requires IsHistory(c, parses, states, ops) && i <= |ops|
    requires forall k :: 0 <= k < i ==> RepositoryWorks(ops[k])
    ensures Unclaimed(states[i]) == LeftBehindBy(states, ops, i)
  {
    hide Step, Fresh, Unclaimed, LeftBehind;
    if i > 0 {
      OnlyRefusedDeletesLeak(c, parses, states, ops, i - 1);
      ReliableRepository(c, parses, states, ops, i - 1);
      NotApart(c, parses, states[i - 1], ops[i - 1]);
      StepUnclaimed(c, parses, states[i - 1], ops[i - 1]);
    } else {
      NothingUnclaimed();
    }
  }

  // Restoring stored schedules.

  lemma ChangedRestorable(parses: string -> bool, s: ScheduleState, newExpr: Option<string>, newActive: Option<bool>,
                          now: int)
    requires Restorable(parses, s)
    ensures Restorable(parses, Changed(parses, s, newExpr, newActive, now).0)
  {
    hide TrimSpace, Restorable, WithExpression, Activated, Deactivated;
    var expr := if IsGiven(newExpr) then TrimSpace(newExpr.value) else "";
    ChangesRestorable(parses, s, expr, now);
    ChangesRestorable(parses, WithExpression(parses, s, expr, now).0, expr, now);
  }

  lemma CreatedRestorable(c: Catalog, parses: string -> bool, op: Op)
    requires op.CreateSchedule? && CreateError(c, parses, op.unreadable, op.request, op.name, op.cronExpr).None?
    ensures Restorable(parses, NewState(op.id, op.request, op.name, op.cronExpr, op.now))
  {
    TrimSpaceOnce(op.cronExpr);
    hide TrimSpace, LookupError, MissingId, Restorable;
    NewRestorable(parses, op.id, op.request, op.name, op.cronExpr, op.now);
  }

  /** In every history, whatever fails in it, every stored schedule passes the checks made when it is restored. */
  lemma {:induction false} StoredRestorable(c: Catalog, parses: string -> bool, states: seq<State>, ops: seq<Op>,
                                            i: nat, id: string)
    requires IsHistory(c, parses, states, ops) && i <= |ops| && id in states[i].repo
    ensures Restorable(parses, states[i].repo[id])
  {
    hide TrimSpace, CreateError, Changed, NewState, Restorable;
    if i == 0 {
    } else {
      var s, op := states[i - 1], ops[i - 1];
      if id in s.repo {
        StoredRestorable(c, parses, states, ops, i - 1, id);
      }
      match op
      case CreateSchedule(request, name, cronExpr, unreadable, _, _, _, _, _) =>
        if CreateError(c, parses, unreadable, request, name, cronExpr).None? {
          CreatedRestorable(c, parses, op);
        }
      case UpdateSchedule(scheduleId, newExpr, newActive, now, _, _, _) =>
        if TrimSpace(scheduleId) in s.repo {
          StoredRestorable(c, parses, states, ops, i - 1, TrimSpace(scheduleId));
          ChangedRestorable(parses, s.repo[TrimSpace(scheduleId)], newExpr, newActive, now);
        }
      case DeleteSchedule(_, _, _, _) =>
    }
  }
}
