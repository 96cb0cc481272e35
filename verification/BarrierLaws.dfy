/**
 What the calls of the workers come to, read off the sequence of calls alone: who takes part, who is ready, the
 status, and the answer to each call of a new session.
 */
module BarrierLaws {
  import opened Text
  import opened Barrier

  /** A new session and the calls made to it. */
  datatype Run = Run(runId: string, totalWorkers: int, timeout: int, releaseDelay: int, createdAt: int, ops: seq<Op>)

  ghost predicate IsRun(r: Run) {
    TrimSpace(r.runId) != "" && 1 <= r.totalWorkers <= 10000
  }

  function First(r: Run): Session {
    Start(r.runId, r.totalWorkers, r.timeout, r.releaseDelay, r.createdAt)
  }

  /** The session before call `j`, and what the call answers. */
  function At(r: Run, j: nat): Session
    requires j <= |r.ops|
  {
    Before(First(r), r.ops, j)
  }

  function Answer(r: Run, j: nat): Reply
    requires j < |r.ops|
  {
    ReplyTo(First(r), r.ops, j)
  }

  /** No release, abort or time-out has been called before call `j`. */
  predicate OpenUntil(ops: seq<Op>, j: nat)
    requires j <= |ops|
  {
    forall k :: 0 <= k < j ==> !ops[k].Release? && !ops[k].MarkWorkerAborted? && !ops[k].TimeoutSession?
  }

  /** The ids of the workers that were registered before call `j`. */
  function Registered(ops: seq<Op>, j: nat): set<string>
    requires j <= |ops|
  {
    set k | 0 <= k < j && ops[k].RegisterWorker? && TrimSpace(ops[k].workerId) != "" :: TrimSpace(ops[k].workerId)
  }

  /** Of these, the ones that were said to be ready after they were registered. */
  function SaidReady(ops: seq<Op>, j: nat): set<string>
    requires j <= |ops|
  {
    set k | 0 <= k < j && ops[k].MarkWorkerReady? && TrimSpace(ops[k].workerId) in Registered(ops, k) ::
      TrimSpace(ops[k].workerId)
  }

  lemma NewSession(r: Run)
    ensures StartError(r.runId, r.totalWorkers) ==
            if TrimSpace(r.runId) == "" then Some(ErrValidation)
            else if 1 <= r.totalWorkers <= 10000 then None else Some(ErrInvalidWorkerCount)
    ensures First(r).status == Pending && First(r).participants == map[] && First(r).targetStartTime.None?
    ensures First(r).totalWorkers == r.totalWorkers && First(r).runId == TrimSpace(r.runId)
    ensures First(r).timeout == if r.timeout > 0 then r.timeout else 60000
    ensures First(r).releaseDelay == if r.releaseDelay > 0 then r.releaseDelay else 300
    ensures First(r).abortReason == "" && First(r).createdAt == r.createdAt
  {
    hide TrimSpace;
  }

  lemma RegisteredStep(ops: seq<Op>, j: nat)
    requires j < |ops|
    ensures Registered(ops, j + 1) ==
            Registered(ops, j) +
            if ops[j].RegisterWorker? && TrimSpace(ops[j].workerId) != "" then {TrimSpace(ops[j].workerId)} else {}
  {
    hide TrimSpace;
  }

  lemma SaidReadyStep(ops: seq<Op>, j: nat)
    requires j < |ops|
    ensures SaidReady(ops, j + 1) ==
            SaidReady(ops, j) +
            if ops[j].MarkWorkerReady? && TrimSpace(ops[j].workerId) in Registered(ops, j)
            then {TrimSpace(ops[j].workerId)} else {}
  {
    hide TrimSpace, Registered;
  }

  /** The participants of a session that is open, and how it stands. */
  ghost predicate OpenAs(s: Session, total: int, registered: set<string>, ready: set<string>) {
    && s.totalWorkers == total
    && s.participants.Keys == registered && ReadyWorkers(s.participants) == ready
    && s.status == if |ready| >= total then Ready else Pending
  }

  lemma RegisterOpen(s: Session, total: int, registered: set<string>, ready: set<string>, op: Op)
    requires OpenAs(s, total, registered, ready) && op.RegisterWorker?
    ensures var id := TrimSpace(op.workerId);
            && OpenAs(Step(s, op).0, total, registered + (if id == "" then {} else {id}), ready)
            && Step(s, op).1 == if id == "" then Refused(ErrValidation)
                                else if id in registered then Refused(ErrWorkerAlreadyRegistered) else Done
  {
    hide TrimSpace;
    var id := TrimSpace(op.workerId);
    var t := Step(s, op).0;
    assert t.participants.Keys == registered + if id == "" then {} else {id};
    assert ReadyWorkers(t.participants) == ready;
  }

  lemma ReadyOpen(s: Session, total: int, registered: set<string>, ready: set<string>, op: Op)
    requires OpenAs(s, total, registered, ready) && op.MarkWorkerReady?
    ensures var id := TrimSpace(op.workerId);
            var nowReady := ready + if id in registered then {id} else {};
            && OpenAs(Step(s, op).0, total, registered, nowReady)
            && Step(s, op).1 == if id in registered then AllReady(|nowReady| >= total) else Refused(ErrNotFound)
  {
    hide TrimSpace;
    var id := TrimSpace(op.workerId);
    var nowReady := ready + if id in registered then {id} else {};
    var t := Step(s, op).0;
    assert t.participants.Keys == registered;
    assert ReadyWorkers(t.participants) == nowReady;
    MoreIsMore(ready, nowReady);
  }

  lemma NothingSaid(r: Run)
    requires IsRun(r)
    ensures OpenAs(First(r), r.totalWorkers, Registered(r.ops, 0), SaidReady(r.ops, 0))
  {
    NewSession(r);
    assert ReadyWorkers(map[]) == {};
  }

  /** As long as nothing closes the session, its participants are the registered workers, and so on. */
  lemma {:induction false} OpenLaw(r: Run, j: nat)
    requires IsRun(r) && j <= |r.ops| && OpenUntil(r.ops, j)
    ensures OpenAs(At(r, j), r.totalWorkers, Registered(r.ops, j), SaidReady(r.ops, j))
  {
    hide Step, Before, OpenAs, Registered, SaidReady;
    if j == 0 {
      FirstState(First(r), r.ops);
      NothingSaid(r);
    } else {
      var s, op := At(r, j - 1), r.ops[j - 1];
      OpenLaw(r, j - 1);
      NextState(First(r), r.ops, j - 1);
      RegisteredStep(r.ops, j - 1);
      SaidReadyStep(r.ops, j - 1);
      if op.RegisterWorker? {
        assert SaidReady(r.ops, j) == SaidReady(r.ops, j - 1);
        RegisterOpen(s, r.totalWorkers, Registered(r.ops, j - 1), SaidReady(r.ops, j - 1), op);
      } else {
        assert Registered(r.ops, j) == Registered(r.ops, j - 1);
        ReadyOpen(s, r.totalWorkers, Registered(r.ops, j - 1), SaidReady(r.ops, j - 1), op);
      }
    }
  }

  lemma SameOpen(r: Run, j: nat)
    requires j <= |r.ops|
    ensures OpenUntil(r.ops, j) <==> forall k :: 0 <= k < j ==> !Closes(r.ops[k])
    ensures OpenUntil(r.ops, j) <==> !IsTerminal(At(r, j).status)
  {
    hide Step, Before;
    FirstState(First(r), r.ops);
    NewSession(r);
    OpenUntilClosed(First(r), r.ops, 0, j);
  }

  /** The first call that closed the session, if one did before call `j`. */
  ghost predicate FirstCloses(ops: seq<Op>, k: nat, j: nat)
    requires j <= |ops|
  {
    k < j && OpenUntil(ops, k) && (ops[k].Release? || ops[k].MarkWorkerAborted? || ops[k].TimeoutSession?)
  }

  predicate AbortedBefore(ops: seq<Op>, j: nat)
    requires j <= |ops|
  {
    exists k :: 0 <= k < j && ops[k].MarkWorkerAborted?
  }

  lemma ClosesAs(s: Session, op: Op)
    ensures op.MarkWorkerAborted? ==>
              && Step(s, op).0.status == Aborted && Step(s, op).1 == Done
              && Step(s, op).0.abortReason ==
                 if TrimSpace(op.reason) == "" then "worker aborted rendezvous" else TrimSpace(op.reason)
    ensures !op.MarkWorkerAborted? ==> Step(s, op).0.abortReason == s.abortReason
    ensures !IsTerminal(s.status) && op.Release? ==> Step(s, op).0.status == Released
    ensures !IsTerminal(s.status) && op.TimeoutSession? ==> Step(s, op).0.status == TimedOut
    ensures IsTerminal(s.status) && !op.MarkWorkerAborted? ==> Step(s, op).0 == s
  {
    hide TrimSpace, ReadyWorkers;
  }

  /**
   The status, off the calls: ABORTED exactly when there was an abort; before any release, abort or time-out, READY
   exactly when enough registered workers were said to be ready; otherwise what the first closing call made it.
   */
  lemma {:induction false} StatusLaw(r: Run, j: nat)
    requires IsRun(r) && j <= |r.ops|
    ensures var status := At(r, j).status;
            && (status == Aborted <==> AbortedBefore(r.ops, j))
            && (OpenUntil(r.ops, j) ==>
                  status == if |SaidReady(r.ops, j)| >= r.totalWorkers then Ready else Pending)
            && (!AbortedBefore(r.ops, j) ==>
                  forall k: nat :: FirstCloses(r.ops, k, j) ==>
                    status == if r.ops[k].Release? then Released else TimedOut)
  {
    hide Step, Before, SaidReady, Registered, TrimSpace;
    SameOpen(r, j);
    if OpenUntil(r.ops, j) {
      OpenLaw(r, j);
    } else {
      var s, op := At(r, j - 1), r.ops[j - 1];
      StatusLaw(r, j - 1);
      SameOpen(r, j - 1);
      NextState(First(r), r.ops, j - 1);
      ClosesAs(s, op);
      if OpenUntil(r.ops, j - 1) {
        StepOpen(s, op);
      }
    }
  }

  lemma DelayStays(r: Run, j: nat)
    requires IsRun(r) && j <= |r.ops|
    ensures At(r, j).releaseDelay == if r.releaseDelay > 0 then r.releaseDelay else 300
  {
    hide Step, Before;
    NewSession(r);
    FirstState(First(r), r.ops);
    RunConsistent(r.runId, r.totalWorkers, r.timeout, r.releaseDelay, r.createdAt, []);
    RunFollows(First(r), r.ops, 0, j);
  }

  /** The refusal that goes with the status of a session that is not open any more. */
  function Closed(status: BarrierStatus): Reply {
    Refused(if status == Aborted then ErrBarrierAborted
            else if status == Released then ErrBarrierReleased
            else ErrBarrierTimeout)
  }

  lemma ClosedAnswer(s: Session, op: Op)
    requires s.status in {Released, Aborted, TimedOut}
    ensures Step(s, op).1 ==
            match op
            case RegisterWorker(id, _) => if TrimSpace(id) == "" then Refused(ErrValidation) else Closed(s.status)
            case MarkWorkerReady(_, _) => Closed(s.status)
            case MarkWorkerAborted(_, _) => Done
            case Release(_) => Closed(s.status)
            case TimeoutSession => Refused(ErrTerminalState)
  {
    hide TrimSpace, ReadyWorkers;
  }

  lemma ClosingAnswer(s: Session, op: Op)
    requires s.status in {Pending, Ready} && (op.Release? || op.MarkWorkerAborted? || op.TimeoutSession?)
    ensures Step(s, op).1 == if op.Release? then Started(op.now + s.releaseDelay) else Done
  {
    hide TrimSpace, ReadyWorkers;
  }

  /**
   Every answer, off the calls. While nothing has closed the session: a worker is registered once; one that is
   registered and says that it is ready learns whether enough have; a release answers its own time plus the delay
   the session was created with. After that, calls are refused with the status's error, but for aborts.
   */
  lemma AnswerLaw(r: Run, j: nat)
    requires IsRun(r) && j < |r.ops|
    ensures var ops, op, closed := r.ops, r.ops[j], Closed(At(r, j).status);
            Answer(r, j) ==
            match op
            case RegisterWorker(workerId, _) =>
              if TrimSpace(workerId) == "" then Refused(ErrValidation)
              else if !OpenUntil(ops, j) then closed
              else if TrimSpace(workerId) in Registered(ops, j) then Refused(ErrWorkerAlreadyRegistered)
              else Done
            case MarkWorkerReady(workerId, _) =>
              if !OpenUntil(ops, j) then closed
              else if TrimSpace(workerId) !in Registered(ops, j) then Refused(ErrNotFound)
              else AllReady(|SaidReady(ops, j + 1)| >= r.totalWorkers)
            case MarkWorkerAborted(_, _) => Done
            case Release(now) =>
              if OpenUntil(ops, j) then Started(now + if r.releaseDelay > 0 then r.releaseDelay else 300) else closed
            case TimeoutSession => if OpenUntil(ops, j) then Done else Refused(ErrTerminalState)
  {
    hide Step, Before, SaidReady, Registered, TrimSpace, OpenAs;
    var s, op := At(r, j), r.ops[j];
    SameOpen(r, j);
    DelayStays(r, j);
    if !OpenUntil(r.ops, j) {
      ClosedAnswer(s, op);
    } else {
      OpenLaw(r, j);
      SaidReadyStep(r.ops, j);
      if op.RegisterWorker? {
        RegisterOpen(s, r.totalWorkers, Registered(r.ops, j), SaidReady(r.ops, j), op);
      } else if op.MarkWorkerReady? {
        ReadyOpen(s, r.totalWorkers, Registered(r.ops, j), SaidReady(r.ops, j), op);
      } else {
        ClosingAnswer(s, op);
      }
    }
  }

  /** The reason on record is that of the last abort, or the standard one when that gave none. */
  lemma {:induction false} ReasonLaw(r: Run, k: nat, j: nat)
    requires IsRun(r) && k < j <= |r.ops| && r.ops[k].MarkWorkerAborted?
    requires forall i :: k < i < j ==> !r.ops[i].MarkWorkerAborted?
    ensures At(r, j).abortReason ==
            if TrimSpace(r.ops[k].reason) == "" then "worker aborted rendezvous" else TrimSpace(r.ops[k].reason)
    decreases j
  {
    hide Step, Before, TrimSpace;
    NextState(First(r), r.ops, j - 1);
    ClosesAs(At(r, j - 1), r.ops[j - 1]);
    if j == k + 1 {
    } else {
      ReasonLaw(r, k, j - 1);
    }
  }

  /** What a call makes of the workers: it changes only the one it names. */
  lemma WorkerFields(s: Session, op: Op, id: string)
    ensures var t := Step(s, op).0;
            var named := !op.Release? && !op.TimeoutSession? && TrimSpace(op.workerId) == id;
            && (id in s.participants ==>
                  && id in t.participants
                  && t.participants[id].joinedAt == s.participants[id].joinedAt
                  && (!named ==> t.participants[id] == s.participants[id]))
            && (named && op.RegisterWorker? && Step(s, op).1 == Done ==>
                  id in t.participants && t.participants[id] == WorkerParticipant(id, WorkerWaiting, op.now, None, ""))
            && (named && op.MarkWorkerReady? && Step(s, op).1.AllReady? ==>
                  && id in t.participants && t.participants[id].status == WorkerReady
                  && t.participants[id].readyAt == Some(op.now))
            && (named && op.MarkWorkerAborted? && id in s.participants ==>
                  && t.participants[id].status == WorkerAborted
                  && t.participants[id].errorReason == t.abortReason)
  {
    hide TrimSpace, ReadyWorkers;
  }

  /** A worker that registered stays, with the time of its registration. */
  lemma {:induction false} JoinedLaw(r: Run, k: nat, j: nat)
    requires IsRun(r) && k < j <= |r.ops| && r.ops[k].RegisterWorker? && Answer(r, k) == Done
    ensures var id := TrimSpace(r.ops[k].workerId);
            id in At(r, j).participants && At(r, j).participants[id].joinedAt == r.ops[k].now
    decreases j
  {
    hide Step, Before, TrimSpace;
    NextState(First(r), r.ops, j - 1);
    WorkerFields(At(r, j - 1), r.ops[j - 1], TrimSpace(r.ops[k].workerId));
    if j == k + 1 {
    } else {
      JoinedLaw(r, k, j - 1);
    }
  }
}
