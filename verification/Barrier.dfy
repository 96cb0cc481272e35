/**
 The distributed start barrier: one session object driven by any interleaving of its workers' calls.
 Step says what each call does; the class does it in place; the theorems are about every run.
 */
module Barrier {
  import opened Text

  datatype BarrierStatus = Pending | Ready | Released | Aborted | TimedOut

  datatype WorkerStatus = WorkerWaiting | WorkerReady | WorkerAborted

  datatype WorkerParticipant = WorkerParticipant(workerId: string, status: WorkerStatus, joinedAt: int,
                                                 readyAt: Option<int>, errorReason: string)

  datatype Error = ErrValidation | ErrInvalidWorkerCount | ErrBarrierAborted | ErrBarrierTimeout | ErrBarrierReleased
                 | ErrWorkerAlreadyRegistered | ErrNotFound | ErrTerminalState

  const DEFAULT_TIMEOUT_MS := 60000
  const DEFAULT_RELEASE_DELAY_MS := 300
  const MAX_WORKERS := 10000
  const DEFAULT_ABORT_REASON := "worker aborted rendezvous"

  /** The state of a session. Times are instants and durations in milliseconds. */
  datatype Session = Session(
    runId: string,
    totalWorkers: int,
    status: BarrierStatus,
    timeout: int,
    releaseDelay: int,
    targetStartTime: Option<int>,
    abortReason: string,
    createdAt: int,
    participants: map<string, WorkerParticipant>)

  /** The calls that change a session, with the time the clock showed. */
  datatype Op =
    | RegisterWorker(workerId: string, now: int)
    | MarkWorkerReady(workerId: string, now: int)
    | MarkWorkerAborted(workerId: string, reason: string)
    | Release(now: int)
    | TimeoutSession

  datatype Reply = Done | AllReady(all: bool) | Started(target: int) | Refused(error: Error)

  predicate IsTerminal(status: BarrierStatus) {
    status == Released || status == Aborted || status == TimedOut
  }

  /** Why a call that needs an open session is refused. */
  function ClosedError(status: BarrierStatus): Option<Error> {
    match status
    case Aborted => Some(ErrBarrierAborted)
    case TimedOut => Some(ErrBarrierTimeout)
    case Released => Some(ErrBarrierReleased)
    case _ => None
  }

  function ReadyWorkers(participants: map<string, WorkerParticipant>): set<string> {
    set id | id in participants && participants[id].status == WorkerReady
  }

  function Step(s: Session, op: Op): (Session, Reply) {
    match op
    case RegisterWorker(workerId, now) =>
      var id := TrimSpace(workerId);
      if id == "" then (s, Refused(ErrValidation))
      else if ClosedError(s.status).Some? then (s, Refused(ClosedError(s.status).value))
      else if id in s.participants then (s, Refused(ErrWorkerAlreadyRegistered))
      else (s.(participants := s.participants[id := WorkerParticipant(id, WorkerWaiting, now, None, "")]), Done)
    case MarkWorkerReady(workerId, now) =>
      var id := TrimSpace(workerId);
      if ClosedError(s.status).Some? then (s, Refused(ClosedError(s.status).value))
      else if id !in s.participants then (s, Refused(ErrNotFound))
      else
        var participants := s.participants[id := s.participants[id].(status := WorkerReady, readyAt := Some(now))];
        var all := |ReadyWorkers(participants)| >= s.totalWorkers;
        (s.(participants := participants, status := if all then Ready else s.status), AllReady(all))
    case MarkWorkerAborted(workerId, reason) =>
      var id := TrimSpace(workerId);
      var why := if TrimSpace(reason) == "" then DEFAULT_ABORT_REASON else TrimSpace(reason);
      var participants :=
        if id in s.participants then
          s.participants[id := s.participants[id].(status := WorkerAborted, errorReason := why)]
        else s.participants;
      (s.(participants := participants, status := Aborted, abortReason := why), Done)
    case Release(now) =>
      if ClosedError(s.status).Some? then (s, Refused(ClosedError(s.status).value))
      else (s.(targetStartTime := Some(now + s.releaseDelay), status := Released), Started(now + s.releaseDelay))
    case TimeoutSession =>
      if IsTerminal(s.status) then (s, Refused(ErrTerminalState))
      else (s.(status := TimedOut), Done)
  }

  function Start(runId: string, totalWorkers: int, timeout: int, releaseDelay: int, now: int): Session {
    Session(TrimSpace(runId), totalWorkers, Pending, if timeout <= 0 then DEFAULT_TIMEOUT_MS else timeout,
            if releaseDelay <= 0 then DEFAULT_RELEASE_DELAY_MS else releaseDelay, None, "", now, map[])
  }

  function StartError(runId: string, totalWorkers: int): Option<Error> {
    if TrimSpace(runId) == "" then Some(ErrValidation)
    else if totalWorkers < 1 || totalWorkers > MAX_WORKERS then Some(ErrInvalidWorkerCount)
    else None
  }

  // The object.

  class BarrierSession {
    var runId: string
    var totalWorkers: int
    var status: BarrierStatus
    var timeout: int
    var releaseDelay: int
    var targetStartTime: Option<int>
    var abortReason: string
    var createdAt: int
    var participants: map<string, WorkerParticipant>

    ghost function View(): Session
      reads this
    {
      Session(runId, totalWorkers, status, timeout, releaseDelay, targetStartTime, abortReason, createdAt, participants)
    }

    constructor (runId: string, totalWorkers: int, timeout: int, releaseDelay: int, now: int)
      requires StartError(runId, totalWorkers).None?
      ensures View() == Start(runId, totalWorkers, timeout, releaseDelay, now)
    {
      this.runId := TrimSpace(runId);
      this.totalWorkers := totalWorkers;
      this.status := Pending;
      this.timeout := if timeout <= 0 then DEFAULT_TIMEOUT_MS else timeout;
      this.releaseDelay := if releaseDelay <= 0 then DEFAULT_RELEASE_DELAY_MS else releaseDelay;
      this.targetStartTime := None;
      this.abortReason := "";
      this.createdAt := now;
      this.participants := map[];
    }

    method ReadyCount() returns (count: nat)
      ensures count == |ReadyWorkers(participants)|
    {
      count := 0;
      var left := participants.Keys;
      ghost var seen: set<string> := {};
      while left != {}
        invariant left <= participants.Keys
        invariant seen == ReadyWorkers(participants) - left
        invariant count == |seen|
        decreases left
      {
        var id :| id in left;
        left := left - {id};
        if participants[id].status == WorkerReady {
          count := count + 1;
          seen := seen + {id};
        }
      }
      assert seen == ReadyWorkers(participants);
    }

    method RegisterWorker(workerId: string, now: int) returns (reply: Reply)
      modifies this
      ensures (View(), reply) == Step(old(View()), Op.RegisterWorker(workerId, now))
    {
      var trimmedId := TrimSpace(workerId);
      if trimmedId == "" {
        return Refused(ErrValidation);
      }
      if status == Aborted {
        return Refused(ErrBarrierAborted);
      }
      if status == TimedOut {
        return Refused(ErrBarrierTimeout);
      }
      if status == Released {
        return Refused(ErrBarrierReleased);
      }
      if trimmedId in participants {
        return Refused(ErrWorkerAlreadyRegistered);
      }
      participants := participants[trimmedId := WorkerParticipant(trimmedId, WorkerWaiting, now, None, "")];
      return Done;
    }

    method MarkWorkerReady(workerId: string, now: int) returns (reply: Reply)
      modifies this
      ensures (View(), reply) == Step(old(View()), Op.MarkWorkerReady(workerId, now))
    {
      var trimmedId := TrimSpace(workerId);
      if status == Aborted {
        return Refused(ErrBarrierAborted);
      }
      if status == TimedOut {
        return Refused(ErrBarrierTimeout);
      }
      if status == Released {
        return Refused(ErrBarrierReleased);
      }
      if trimmedId !in participants {
        return Refused(ErrNotFound);
      }
      participants := participants[trimmedId := participants[trimmedId].(status := WorkerReady, readyAt := Some(now))];
      var count := ReadyCount();
      var allReady := count >= totalWorkers;
      if allReady {
        status := Ready;
      }
      return AllReady(allReady);
    }

    method MarkWorkerAborted(workerId: string, reason: string) returns (reply: Reply)
      modifies this
      ensures (View(), reply) == Step(old(View()), Op.MarkWorkerAborted(workerId, reason))
    {
      var trimmedId := TrimSpace(workerId);
      var trimmedReason := TrimSpace(reason);
      if trimmedReason == "" {
        trimmedReason := DEFAULT_ABORT_REASON;
      }
      if trimmedId in participants {
        participants :=
          participants[trimmedId := participants[trimmedId].(status := WorkerAborted, errorReason := trimmedReason)];
      }
      status := Aborted;
      abortReason := trimmedReason;
      return Done;
    }

    method Release(now: int) returns (reply: Reply)
      modifies this
      ensures (View(), reply) == Step(old(View()), Op.Release(now))
    {
      if status == Released {
        return Refused(ErrBarrierReleased);
      }
      if status == Aborted {
        return Refused(ErrBarrierAborted);
      }
      if status == TimedOut {
        return Refused(ErrBarrierTimeout);
      }
      var target := now + releaseDelay;
      targetStartTime := Some(target);
      status := Released;
      return Started(target);
    }

    method TimeoutSession() returns (reply: Reply)
      modifies this
      ensures (View(), reply) == Step(old(View()), Op.TimeoutSession)
    {
      if IsTerminal(status) {
        return Refused(ErrTerminalState);
      }
      status := TimedOut;
      return Done;
    }
  }

  /** NewBarrierSession: the error cases, or a new object. */
  method NewBarrierSession(runId: string, totalWorkers: int, timeout: int, releaseDelay: int, now: int)
    returns (session: BarrierSession?, error: Option<Error>)
    ensures error == StartError(runId, totalWorkers)
    ensures error.Some? ==> session == null
    ensures error.None? ==>
              && session != null && fresh(session)
              && session.View() == Start(runId, totalWorkers, timeout, releaseDelay, now)
  {
    error := StartError(runId, totalWorkers);
    session := null;
    if error.None? {
      session := new BarrierSession(runId, totalWorkers, timeout, releaseDelay, now);
    }
  }

  // Runs.

  function After(s: Session, ops: seq<Op>): Session {
    if ops == [] then s else Step(After(s, ops[..|ops| - 1]), ops[|ops| - 1]).0
  }

  /** The state before call `i` of a run, and what the call answered. */
  function Before(s: Session, ops: seq<Op>, i: nat): Session
    requires i <= |ops|
  {
    After(s, ops[..i])
  }

  function ReplyTo(s: Session, ops: seq<Op>, i: nat): Reply
    requires i < |ops|
  {
    Step(Before(s, ops, i), ops[i]).1
  }

  lemma FirstState(s: Session, ops: seq<Op>)
    ensures Before(s, ops, 0) == s
  {
    assert ops[..0] == [];
  }

  lemma NextState(s: Session, ops: seq<Op>, i: nat)
    requires i < |ops|
    ensures Before(s, ops, i + 1) == Step(Before(s, ops, i), ops[i]).0
  {
    assert ops[..i + 1][..i] == ops[..i];
  }

  ghost predicate Consistent(s: Session) {
    && 1 <= s.totalWorkers <= MAX_WORKERS
    && (forall id :: id in s.participants ==> id != "" && s.participants[id].workerId == id)
    && (forall id :: id in s.participants && s.participants[id].status == WorkerReady ==>
        s.participants[id].readyAt.Some?)
    && (s.status == Pending ==> |ReadyWorkers(s.participants)| < s.totalWorkers)
    && (s.status == Ready ==> |ReadyWorkers(s.participants)| >= s.totalWorkers)
    && ((exists id :: id in s.participants && s.participants[id].status == WorkerAborted) ==> s.status == Aborted)
    && (s.status == Released ==> s.targetStartTime.Some?)
    && (s.targetStartTime.Some? ==> s.status == Released || s.status == Aborted)
    && (s.abortReason != "" <==> s.status == Aborted)
  }

  lemma RegisterConsistent(s: Session, op: Op)
    requires Consistent(s) && op.RegisterWorker?
    ensures Consistent(Step(s, op).0)
  {
    assert ReadyWorkers(Step(s, op).0.participants) == ReadyWorkers(s.participants);
    hide ReadyWorkers;
  }

  lemma {:induction false} MoreIsMore(a: set<string>, b: set<string>)
    requires a <= b
    ensures |a| <= |b|
    decreases a
  {
    if a == {} {
    } else {
      var x :| x in a;
      MoreIsMore(a - {x}, b - {x});
    }
  }

  lemma ReadyConsistent(s: Session, op: Op)
    requires Consistent(s) && op.MarkWorkerReady?
    ensures Consistent(Step(s, op).0)
  {
    var t := Step(s, op).0;
    assert ReadyWorkers(s.participants) <= ReadyWorkers(t.participants);
    hide ReadyWorkers;
    MoreIsMore(ReadyWorkers(s.participants), ReadyWorkers(t.participants));
  }

  lemma StepConsistent(s: Session, op: Op)
    requires Consistent(s)
    ensures Consistent(Step(s, op).0)
  {
    match op
    case RegisterWorker(_, _) => RegisterConsistent(s, op);
    case MarkWorkerReady(_, _) => ReadyConsistent(s, op);
    case MarkWorkerAborted(_, _) =>
      hide ReadyWorkers;
    case Release(_) =>
      hide ReadyWorkers;
    case TimeoutSession =>
      hide ReadyWorkers;
  }

  /** In every run: see Consistent. */
  lemma {:induction false} RunConsistent(runId: string, totalWorkers: int, timeout: int, releaseDelay: int, now: int,
                                         ops: seq<Op>)
    requires StartError(runId, totalWorkers).None?
    ensures Consistent(After(Start(runId, totalWorkers, timeout, releaseDelay, now), ops))
    decreases |ops|
  {
    if ops == [] {
    } else {
      RunConsistent(runId, totalWorkers, timeout, releaseDelay, now, ops[..|ops| - 1]);
      StepConsistent(After(Start(runId, totalWorkers, timeout, releaseDelay, now), ops[..|ops| - 1]), ops[|ops| - 1]);
    }
  }

  function Rank(status: BarrierStatus): nat {
    match status
    case Pending => 0
    case Ready => 1
    case Released => 2
    case TimedOut => 2
    case Aborted => 3
  }

  /** What later states keep of earlier ones. */
  ghost predicate Follows(s: Session, t: Session) {
    && Rank(s.status) <= Rank(t.status)
    && (Rank(s.status) == Rank(t.status) ==> s.status == t.status)
    && (s.targetStartTime.Some? ==> t.targetStartTime == s.targetStartTime)
    && s.participants.Keys <= t.participants.Keys
    && s.totalWorkers == t.totalWorkers && s.releaseDelay == t.releaseDelay && s.createdAt == t.createdAt
  }

  lemma StepFollows(s: Session, op: Op)
    requires Consistent(s)
    ensures Follows(s, Step(s, op).0)
  {
    var t := Step(s, op).0;
    if op.MarkWorkerReady? && s.status == Ready {
      StepConsistent(s, op);
      assert ReadyWorkers(s.participants) <= ReadyWorkers(t.participants);
    }
  }

  /**
   Over any stretch of a run the status rank never drops, a status of the same rank is the same status, and
   the target, once set, stays.
   */
  lemma {:induction false} RunFollows(s: Session, ops: seq<Op>, i: nat, j: nat)
    requires Consistent(s) && i <= j <= |ops|
    ensures Consistent(Before(s, ops, i)) && Consistent(Before(s, ops, j))
    ensures Follows(Before(s, ops, i), Before(s, ops, j))
    decreases j
  {
    if j == 0 {
    } else {
      NextState(s, ops, j - 1);
      if i == j {
        RunFollows(s, ops, i - 1, j - 1);
      } else {
        RunFollows(s, ops, i, j - 1);
      }
      StepConsistent(Before(s, ops, j - 1), ops[j - 1]);
      StepFollows(Before(s, ops, j - 1), ops[j - 1]);
    }
  }

  lemma StartedMeans(s: Session, op: Op)
    requires Step(s, op).1.Started?
    ensures Rank(s.status) < 2 && Step(s, op).0.status == Released
    ensures Step(s, op).0.targetStartTime == Some(Step(s, op).1.target)
  {
  }

  /** At most one Release of a run succeeds. */
  lemma OneRelease(s: Session, ops: seq<Op>, i: nat, j: nat)
    requires Consistent(s) && i < |ops| && j < |ops|
    requires ReplyTo(s, ops, i).Started? && ReplyTo(s, ops, j).Started?
    ensures i == j
  {
    hide Step, Before, Consistent;
    StartedMeans(Before(s, ops, i), ops[i]);
    StartedMeans(Before(s, ops, j), ops[j]);
    if i < j {
      NextState(s, ops, i);
      RunFollows(s, ops, i + 1, j);
    } else if j < i {
      NextState(s, ops, j);
      RunFollows(s, ops, j + 1, i);
    }
  }

  /** Every state after a successful Release shows the target it answered: all workers read the same instant. */
  lemma OneTarget(s: Session, ops: seq<Op>, i: nat, j: nat)
    requires Consistent(s) && i < j <= |ops| && ReplyTo(s, ops, i).Started?
    ensures Before(s, ops, j).targetStartTime == Some(ReplyTo(s, ops, i).target)
  {
    hide Step, Before, Consistent;
    StartedMeans(Before(s, ops, i), ops[i]);
    NextState(s, ops, i);
    RunFollows(s, ops, i + 1, j);
  }

  lemma AllReadyMeans(s: Session, op: Op)
    requires Step(s, op).1 == AllReady(true)
    ensures Step(s, op).0.status == Ready
  {
  }

  lemma ReadyMeans(u: Session, t: Session)
    requires u.status == Ready && Rank(u.status) <= Rank(t.status) < 2 && Consistent(t)
    ensures t.status == Ready && |ReadyWorkers(t.participants)| >= t.totalWorkers
    ensures forall id :: id in ReadyWorkers(t.participants) ==> t.participants[id].workerId == id
  {
  }

  lemma FollowsMeans(s: Session, t: Session)
    requires Follows(s, t)
    ensures Rank(s.status) <= Rank(t.status) && s.totalWorkers == t.totalWorkers
  {
  }

  /**
   A Release that succeeds after some MarkWorkerReady answered that all are ready has at least totalWorkers
   ready workers.
   */
  lemma ReleaseAfterAllReady(s: Session, ops: seq<Op>, i: nat, j: nat)
    requires Consistent(s) && i < j < |ops|
    requires ReplyTo(s, ops, i) == AllReady(true) && ReplyTo(s, ops, j).Started?
    ensures var t := Before(s, ops, j);
            && t.status == Ready
            && |ReadyWorkers(t.participants)| >= s.totalWorkers
            && forall id :: id in ReadyWorkers(t.participants) ==> t.participants[id].workerId == id
  {
    hide Step, Before, Follows, Consistent, ReadyWorkers, Rank;
    var u, t := Before(s, ops, i + 1), Before(s, ops, j);
    FirstState(s, ops);
    NextState(s, ops, i);
    AllReadyMeans(Before(s, ops, i), ops[i]);
    StartedMeans(t, ops[j]);
    RunFollows(s, ops, i + 1, j);
    RunFollows(s, ops, 0, j);
    FollowsMeans(u, t);
    FollowsMeans(s, t);
    ReadyMeans(u, t);
  }

  lemma BecomesReady(s: Session, op: Op)
    requires s.status != Ready && Step(s, op).0.status == Ready
    ensures Step(s, op).1 == AllReady(true)
  {
    hide ReadyWorkers;
  }

  /** A session that was pending is ready only after some MarkWorkerReady answered that all are ready. */
  lemma {:induction false} ReadyWasAnswered(s: Session, ops: seq<Op>, j: nat) returns (i: nat)
    requires s.status == Pending && j <= |ops| && Before(s, ops, j).status == Ready
    ensures i < j && ReplyTo(s, ops, i) == AllReady(true)
    decreases j
  {
    hide Step, Before;
    FirstState(s, ops);
    NextState(s, ops, j - 1);
    if Before(s, ops, j - 1).status == Ready {
      i := ReadyWasAnswered(s, ops, j - 1);
    } else {
      BecomesReady(Before(s, ops, j - 1), ops[j - 1]);
      i := j - 1;
    }
  }

  lemma OpenRelease(s: Session, ops: seq<Op>, j: nat)
    requires j < |ops| && ReplyTo(s, ops, j).Started?
    ensures Before(s, ops, j).status == Pending || Before(s, ops, j).status == Ready
  {
    hide Before, Step;
    StartedMeans(Before(s, ops, j), ops[j]);
  }

  /**
   When a Release is backed by enough workers: one that succeeds in a run of a session that was pending has at
   least totalWorkers ready workers if and only if some MarkWorkerReady before it answered that all are ready.
   */
  lemma BackedRelease(s: Session, ops: seq<Op>, j: nat)
    requires Consistent(s) && s.status == Pending && j < |ops| && ReplyTo(s, ops, j).Started?
    ensures |ReadyWorkers(Before(s, ops, j).participants)| >= s.totalWorkers <==>
            exists i :: 0 <= i < j && ReplyTo(s, ops, i) == AllReady(true)
  {
    hide Step, Before, ReplyTo, Follows, ReadyWorkers;
    var t := Before(s, ops, j);
    FirstState(s, ops);
    RunFollows(s, ops, 0, j);
    FollowsMeans(s, t);
    OpenRelease(s, ops, j);
    if i :| 0 <= i < j && ReplyTo(s, ops, i) == AllReady(true) {
      ReleaseAfterAllReady(s, ops, i, j);
    } else if t.status == Ready {
      var i := ReadyWasAnswered(s, ops, j);
    }
  }

  predicate Closes(op: Op) {
    op.Release? || op.MarkWorkerAborted? || op.TimeoutSession?
  }

  /** A call leaves an open session open exactly when it is none of release, abort and time-out. */
  lemma StepOpen(s: Session, op: Op)
    requires !IsTerminal(s.status)
    ensures IsTerminal(Step(s, op).0.status) <==> Closes(op)
  {
    hide ReadyWorkers;
  }

  /** What a call makes of a terminal session. */
  lemma TerminalStep(s: Session, op: Op)
    requires IsTerminal(s.status)
    ensures IsTerminal(Step(s, op).0.status)
    ensures op.MarkWorkerAborted? ==> Step(s, op).0.status == Aborted
    ensures !op.MarkWorkerAborted? ==> Step(s, op).0 == s && Step(s, op).1.Refused?
  {
    hide ReadyWorkers;
  }

  /**
   Over any stretch of a run that starts open, the session is open exactly until the first release, abort or
   time-out.
   */
  lemma {:induction false} OpenUntilClosed(s: Session, ops: seq<Op>, i: nat, j: nat)
    requires i <= j <= |ops| && !IsTerminal(Before(s, ops, i).status)
    ensures !IsTerminal(Before(s, ops, j).status) <==> forall k :: i <= k < j ==> !Closes(ops[k])
    decreases j
  {
    hide Step, Before;
    if i == j {
    } else {
      OpenUntilClosed(s, ops, i, j - 1);
      NextState(s, ops, j - 1);
      if !IsTerminal(Before(s, ops, j - 1).status) {
        StepOpen(Before(s, ops, j - 1), ops[j - 1]);
      } else {
        TerminalStep(Before(s, ops, j - 1), ops[j - 1]);
      }
    }
  }

  lemma ReleaseAnswer(s: Session, op: Op)
    ensures Step(s, op).1.Started? <==> op.Release? && !IsTerminal(s.status)
  {
    hide ReadyWorkers;
  }

  /**
   Release does not ask for READY: in a run of a new session, the call at `j` is a Release that succeeds exactly
   when it is a Release and no release, abort or time-out came before it, however many workers are ready.
   */
  lemma ReleaseNeedsNoReady(runId: string, totalWorkers: int, timeout: int, releaseDelay: int, now: int, ops: seq<Op>,
                            j: nat)
    requires StartError(runId, totalWorkers).None? && j < |ops|
    ensures ReplyTo(Start(runId, totalWorkers, timeout, releaseDelay, now), ops, j).Started? <==>
            ops[j].Release? && forall k :: 0 <= k < j ==> !Closes(ops[k])
  {
    hide Before, Step;
    var s := Start(runId, totalWorkers, timeout, releaseDelay, now);
    FirstState(s, ops);
    OpenUntilClosed(s, ops, 0, j);
    ReleaseAnswer(Before(s, ops, j), ops[j]);
  }

  /**
   A terminal status is called final, but a worker's abort still changes it: over any stretch of a run that
   starts terminal, the status stays exactly when there is no abort in it or the session was aborted already.
   Without an abort nothing changes at all.
   */
  lemma {:induction false} TerminalUntilAbort(s: Session, ops: seq<Op>, i: nat, j: nat)
    requires i <= j <= |ops| && IsTerminal(Before(s, ops, i).status)
    ensures var t, u := Before(s, ops, i), Before(s, ops, j);
            && IsTerminal(u.status)
            && (u.status == t.status <==> t.status == Aborted || forall k :: i <= k < j ==> !ops[k].MarkWorkerAborted?)
            && (u.status == t.status || u.status == Aborted)
            && ((forall k :: i <= k < j ==> !ops[k].MarkWorkerAborted?) ==> u == t)
    decreases j
  {
    hide Step, Before;
    if i == j {
    } else {
      TerminalUntilAbort(s, ops, i, j - 1);
      NextState(s, ops, j - 1);
      TerminalStep(Before(s, ops, j - 1), ops[j - 1]);
    }
  }

  /** The shortest such run: a new session is released with no worker at all. */
  lemma ReleasedWithoutWorkers(runId: string, totalWorkers: int, timeout: int, releaseDelay: int, now: int, later: int)
    requires StartError(runId, totalWorkers).None?
    ensures var s := Start(runId, totalWorkers, timeout, releaseDelay, now);
            && ReplyTo(s, [Op.Release(later)], 0).Started?
            && |ReadyWorkers(Before(s, [Op.Release(later)], 0).participants)| == 0 < totalWorkers
  {
    var s := Start(runId, totalWorkers, timeout, releaseDelay, now);
    FirstState(s, [Op.Release(later)]);
    assert ReadyWorkers(s.participants) == {};
  }
}
