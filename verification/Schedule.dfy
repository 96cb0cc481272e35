/** The schedule aggregate: a cron expression and a flag, with guarded changes. */
module Schedules {
  import opened Text
  import opened Catalog

  /** What a schedule is created with and keeps. */
  datatype ScheduleIdentity = ScheduleIdentity(id: string, request: Request, name: string, k8sCronJobName: string,
                                               createdAt: int)

  /** A schedule as a value: what a repository stores. */
  datatype ScheduleState = ScheduleState(identity: ScheduleIdentity, cronExpression: string, isActive: bool,
                                         updatedAt: int)

  /** ValidateCronExpression; `parses` is the cron parser. */
  predicate ValidCron(parses: string -> bool, expr: string) {
    TrimSpace(expr) != "" && parses(TrimSpace(expr))
  }

  function JobName(id: string): string {
    "vuhive-sched-" + if |id| >= 8 then id[..8] else id
  }

  /** What is wrong with the arguments of a new schedule, or with the fields of a stored one. */
  function FieldError(parses: string -> bool, request: Request, name: string, cronExpression: string): Option<Error> {
    if MissingId(request).Some? then MissingId(request)
    else if TrimSpace(name) == "" then Some(ErrEmptyName)
    else if !ValidCron(parses, cronExpression) then Some(ErrInvalidCronExpression)
    else None
  }

  /** The state of a new schedule, once its arguments have been checked. */
  function NewState(id: string, request: Request, name: string, cronExpression: string, now: int): ScheduleState {
    var identity := ScheduleIdentity(id, Trimmed(request), TrimSpace(name), JobName(id), now);
    ScheduleState(identity, TrimSpace(cronExpression), true, now)
  }

  function Activated(s: ScheduleState, now: int): (ScheduleState, Option<Error>) {
    if s.isActive then (s, Some(ErrInvalidStateTransition)) else (s.(isActive := true, updatedAt := now), None)
  }

  function Deactivated(s: ScheduleState, now: int): (ScheduleState, Option<Error>) {
    if !s.isActive then (s, Some(ErrInvalidStateTransition)) else (s.(isActive := false, updatedAt := now), None)
  }

  function WithExpression(parses: string -> bool, s: ScheduleState, expr: string, now: int)
    : (ScheduleState, Option<Error>) {
    if ValidCron(parses, expr) then (s.(cronExpression := TrimSpace(expr), updatedAt := now), None)
    else (s, Some(ErrInvalidCronExpression))
  }

  class Schedule {
    const identity: ScheduleIdentity
    var cronExpression: string
    var isActive: bool
    var updatedAt: int

    ghost function View(): ScheduleState
      reads this
    {
      ScheduleState(identity, cronExpression, isActive, updatedAt)
    }

    /** The object a repository hands out for a stored value, and the one a new schedule starts as. */
    constructor (state: ScheduleState)
      ensures View() == state
    {
      identity, cronExpression, isActive, updatedAt :=
        state.identity, state.cronExpression, state.isActive, state.updatedAt;
    }

    method Stored() returns (state: ScheduleState)
      ensures state == View()
    {
      state := ScheduleState(identity, cronExpression, isActive, updatedAt);
    }

    method Activate(now: int) returns (error: Option<Error>)
      modifies this
      ensures (View(), error) == Activated(old(View()), now)
      ensures isActive && (error.None? <==> !old(isActive))
      ensures updatedAt == (if error.None? then now else old(updatedAt)) && cronExpression == old(cronExpression)
    {
      if isActive {
        return Some(ErrInvalidStateTransition);
      }
      isActive := true;
      updatedAt := now;
      return None;
    }

    method Deactivate(now: int) returns (error: Option<Error>)
      modifies this
      ensures (View(), error) == Deactivated(old(View()), now)
      ensures !isActive && (error.None? <==> old(isActive))
      ensures updatedAt == (if error.None? then now else old(updatedAt)) && cronExpression == old(cronExpression)
    {
      if !isActive {
        return Some(ErrInvalidStateTransition);
      }
      isActive := false;
      updatedAt := now;
      return None;
    }

    method UpdateCronExpression(parses: string -> bool, expr: string, now: int) returns (error: Option<Error>)
      modifies this
      ensures (View(), error) == WithExpression(parses, old(View()), expr, now)
      ensures error.None? <==> TrimSpace(expr) != "" && parses(TrimSpace(expr))
      ensures error.None? ==> cronExpression == TrimSpace(expr) && updatedAt == now && isActive == old(isActive)
    {
      if !ValidCron(parses, expr) {
        return Some(ErrInvalidCronExpression);
      }
      cronExpression := TrimSpace(expr);
      updatedAt := now;
      return None;
    }
  }

  method NewSchedule(parses: string -> bool, id: string, request: Request, name: string, cronExpression: string,
                     now: int)
    returns (schedule: Schedule?, error: Option<Error>)
    ensures error == FieldError(parses, request, name, cronExpression)
    ensures error.Some? ==> schedule == null
    ensures error.None? ==>
              schedule != null && fresh(schedule) && schedule.View() == NewState(id, request, name, cronExpression, now)
  {
    hide TrimSpace, ValidCron, JobName, Trimmed;
    if MissingId(request).Some? {
      return null, MissingId(request);
    }
    if TrimSpace(name) == "" {
      return null, Some(ErrEmptyName);
    }
    if !ValidCron(parses, cronExpression) {
      return null, Some(ErrInvalidCronExpression);
    }
    schedule := new Schedule(NewState(id, request, name, cronExpression, now));
    return schedule, None;
  }

  /** NewScheduleWithID: the schedule made of stored fields. */
  method NewScheduleWithID(parses: string -> bool, fields: ScheduleState)
    returns (schedule: Schedule?, error: Option<Error>)
    ensures error == FieldError(parses, fields.identity.request, fields.identity.name, fields.cronExpression)
    ensures error.Some? ==> schedule == null
    ensures error.None? ==> schedule != null && fresh(schedule) && schedule.View() == fields
  {
    hide TrimSpace, ValidCron;
    error := FieldError(parses, fields.identity.request, fields.identity.name, fields.cronExpression);
    if error.Some? {
      return null, error;
    }
    schedule := new Schedule(fields);
  }

  /** A schedule that can be restored from what is stored of it. */
  predicate Restorable(parses: string -> bool, s: ScheduleState) {
    FieldError(parses, s.identity.request, s.identity.name, s.cronExpression).None?
  }

  /** Every new schedule can be restored, and stays so through every change. */
  lemma NewRestorable(parses: string -> bool, id: string, request: Request, name: string, cronExpression: string,
                      now: int)
    requires FieldError(parses, request, name, cronExpression).None?
    ensures Restorable(parses, NewState(id, request, name, cronExpression, now))
  {
    TrimSpaceOnce(request.suiteId);
    TrimSpaceOnce(request.artifactId);
    TrimSpaceOnce(request.runnerProfileId);
    TrimSpaceOnce(name);
    TrimSpaceOnce(cronExpression);
    hide TrimSpace;
  }

  lemma ChangesRestorable(parses: string -> bool, s: ScheduleState, expr: string, now: int)
    requires Restorable(parses, s)
    ensures Restorable(parses, Activated(s, now).0) && Restorable(parses, Deactivated(s, now).0)
    ensures Restorable(parses, WithExpression(parses, s, expr, now).0)
  {
    TrimSpaceOnce(expr);
    hide TrimSpace;
  }
}
