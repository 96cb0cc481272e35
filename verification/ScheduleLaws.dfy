/**
 What each call of the schedule service does in every history: which answer it gets, the exact record that is
 stored then, and what the cluster has.
 */
module ScheduleLaws {
  import opened Text
  import opened Catalog
  import opened Schedules
  import opened ScheduleService

  /** Call `i` of a history is `op`. */
  ghost predicate Happens(c: Catalog, parses: string -> bool, states: seq<State>, ops: seq<Op>, i: nat, op: Op) {
    IsHistory(c, parses, states, ops) && i < |ops| && ops[i] == op
  }

  predicate NotBlank(text: Option<string>) {
    text.Some? && TrimSpace(text.value) != ""
  }

  /** Every stored schedule is stored under its id. */
  lemma {:induction false} StoredUnderId(c: Catalog, parses: string -> bool, states: seq<State>, ops: seq<Op>, i: nat,
                                         id: string)
    requires IsHistory(c, parses, states, ops) && i <= |ops| && id in states[i].repo
    ensures states[i].repo[id].identity.id == id
  {
    hide TrimSpace, CreateError, Changed, Creates, JobName;
    if i == 0 {
    } else {
      var s, op := states[i - 1], ops[i - 1];
      if id in s.repo {
        StoredUnderId(c, parses, states, ops, i - 1, id);
      }
      if op.UpdateSchedule? && TrimSpace(op.scheduleId) in s.repo {
        ChangedKeeps(parses, s.repo[TrimSpace(op.scheduleId)], op.newExpr, op.newActive, op.now);
      }
    }
  }

  /** What an update asks for, and what it makes of a schedule. */
  lemma ChangedFields(parses: string -> bool, s: ScheduleState, newExpr: Option<string>, newActive: Option<bool>,
                      now: int)
    ensures var (t, error) := Changed(parses, s, newExpr, newActive, now);
            var given := NotBlank(newExpr);
            && error == (if given && !parses(TrimSpace(newExpr.value)) then Some(ErrInvalidCronExpression) else None)
            && (error.None? ==>
                  && t.identity == s.identity
                  && t.cronExpression == (if given then TrimSpace(newExpr.value) else s.cronExpression)
                  && t.isActive == (if newActive.Some? then newActive.value else s.isActive)
                  && t.updatedAt == if given || t.isActive != s.isActive then now else s.updatedAt)
  {
    if newExpr.Some? {
      TrimSpaceOnce(newExpr.value);
    }
    hide TrimSpace;
  }

  /**
   An update answers a schedule exactly when it asks for something that is valid, of a schedule that can be read,
   and cluster and repository take it. Then the stored schedule is the one answered: the old one with the new
   expression, if one is given, and the new flag, if one is given. The cluster's job has both, also when only the
   repository refuses.
   */
  lemma UpdateLaw(c: Catalog, parses: string -> bool, states: seq<State>, ops: seq<Op>, i: nat, op: Op)
    requires Happens(c, parses, states, ops, i, op) && op.UpdateSchedule?
    ensures var s, t, id := states[i], states[i + 1], TrimSpace(op.scheduleId);
            var answer := Step(c, parses, s, op).1;
            var given := NotBlank(op.newExpr);
            if id == "" || !(given || op.newActive.Some?) then t == s && answer == Rejected(ErrValidation)
            else if !op.read || id !in s.repo then
              t == s && answer == Rejected(if op.read then ErrNotFound else ErrRepository)
            else
              var old' := s.repo[id];
              var jobName := old'.identity.k8sCronJobName;
              var expression := if given then TrimSpace(op.newExpr.value) else old'.cronExpression;
              var active := if op.newActive.Some? then op.newActive.value else old'.isActive;
              var valid := given ==> parses(expression);
              var taken := valid && op.clusterWorks && jobName in s.cluster;
              && (answer.Scheduled? <==> taken && op.saved)
              && (answer.Scheduled? ==>
                    && answer.schedule.identity == old'.identity
                    && answer.schedule.cronExpression == expression && answer.schedule.isActive == active)
              && t.repo == (if answer.Scheduled? then s.repo[id := answer.schedule] else s.repo)
              && t.cluster == (if taken then s.cluster[jobName := CronJob(expression, active)] else s.cluster)
              && (answer.Rejected? ==>
                    answer.error == if !valid then ErrInvalidCronExpression
                                    else if !taken then ErrOrchestrator else ErrRepository)
  {
    var s, id := states[i], TrimSpace(op.scheduleId);
    hide TrimSpace, Changed;
    if id in s.repo {
      StoredUnderId(c, parses, states, ops, i, id);
      ChangedFields(parses, s.repo[id], op.newExpr, op.newActive, op.now);
    }
  }

  /** The schedule a request makes: active, under a job name made of its id. */
  function NewRecord(op: Op): ScheduleState
    requires op.CreateSchedule?
  {
    var q := op.request;
    ScheduleState(
      ScheduleIdentity(op.id,
                       Request(TrimSpace(q.suiteId), TrimSpace(q.artifactId), Present(q.configurationId),
                               TrimSpace(q.runnerProfileId)),
                       TrimSpace(op.name), "vuhive-sched-" + op.id[..if |op.id| > 8 then 8 else |op.id|], op.now),
      TrimSpace(op.cronExpr), true, op.now)
  }

  lemma NewRecordMade(op: Op)
    requires op.CreateSchedule?
    ensures NewState(op.id, op.request, op.name, op.cronExpr, op.now) == NewRecord(op)
  {
    assert |op.id| <= 8 ==> op.id[..|op.id|] == op.id;
    hide TrimSpace;
  }

  /** What can be asked for: a name, a valid expression, and something that can be run. */
  predicate Creatable(c: Catalog, parses: string -> bool, op: Op)
    requires op.CreateSchedule?
  {
    && TrimSpace(op.name) != "" && TrimSpace(op.cronExpr) != "" && parses(TrimSpace(op.cronExpr))
    && Runnable(c, op.unreadable, op.request)
  }

  lemma CreateErrors(c: Catalog, parses: string -> bool, op: Op)
    requires op.CreateSchedule?
    ensures var error := CreateError(c, parses, op.unreadable, op.request, op.name, op.cronExpr);
            var q := op.request;
            && (error.None? <==> Creatable(c, parses, op))
            && (error == Some(ErrEmptyName) <==>
                  && TrimSpace(q.suiteId) != "" && TrimSpace(q.artifactId) != "" && TrimSpace(q.runnerProfileId) != ""
                  && TrimSpace(op.name) == "")
  {
    LookupsSucceed(c, op.unreadable, op.request);
    TrimSpaceOnce(op.cronExpr);
    hide TrimSpace, Runnable;
  }

  /**
   A creation answers a schedule exactly when what is asked for can be run on that expression, and repository and
   cluster take it. Then the record and its job are there. When the cluster refuses, the record is gone again if the
   roll-back works, and stays otherwise; nothing else has an effect.
   */
  lemma CreateLaw(c: Catalog, parses: string -> bool, states: seq<State>, ops: seq<Op>, i: nat, op: Op)
    requires Happens(c, parses, states, ops, i, op) && op.CreateSchedule?
    ensures var s, t, record := states[i], states[i + 1], NewRecord(op);
            var answer := Step(c, parses, s, op).1;
            var stored := Creatable(c, parses, op) && op.saved;
            && (answer == Scheduled(record) <==> stored && op.clusterWorks)
            && (answer.Scheduled? ==> answer == Scheduled(record))
            && (stored && op.clusterWorks ==>
                  && t.repo == s.repo[op.id := record]
                  && t.cluster == s.cluster[record.identity.k8sCronJobName := CronJob(record.cronExpression, true)])
            && (stored && !op.clusterWorks ==>
                  && answer == Rejected(ErrOrchestrator) && t.cluster == s.cluster
                  && t.repo == if op.rolledBack then s.repo else s.repo[op.id := record])
            && (!stored ==> t == s && (Creatable(c, parses, op) ==> answer == Rejected(ErrRepository)))
  {
    CreateErrors(c, parses, op);
    NewRecordMade(op);
    assert Fresh(states[i], op);
    assert states[i].repo[op.id := NewRecord(op)] - {op.id} == states[i].repo;
    hide TrimSpace, CreateError, Creatable, NewState;
    hide Trimmed, Present;
  }

  /**
   A delete removes exactly the schedule it names, and exactly when that can be read and the repository works. The
   job is gone if the cluster works, whether or not the repository does.
   */
  lemma DeleteLaw(c: Catalog, parses: string -> bool, states: seq<State>, ops: seq<Op>, i: nat, op: Op)
    requires Happens(c, parses, states, ops, i, op) && op.DeleteSchedule?
    ensures var s, t, id := states[i], states[i + 1], TrimSpace(op.scheduleId);
            var answer := Step(c, parses, s, op).1;
            var reached := id != "" && op.read && id in s.repo;
            && (answer == Done <==> reached && op.deleted)
            && t.repo == (if answer == Done then s.repo - {id} else s.repo)
            && t.cluster == s.cluster
                            - (if reached && op.clusterWorks then {s.repo[id].identity.k8sCronJobName} else {})
            && (answer != Done ==>
                  answer == Rejected(if id == "" then ErrValidation
                                     else if op.read && id !in s.repo then ErrNotFound else ErrRepository))
  {
    assert states[i].cluster - {} == states[i].cluster;
    hide TrimSpace;
  }
}
