/**
 The lifecycle of a compiled artifact: the transitions in place, and what holds in every run of them,
 retries included.
 */
module Artifact {
  import opened Text

  datatype ArtifactStatus = Pending | Building | Ready | Failed | Cancelled

  datatype Platform = LinuxAmd64 | LinuxArm64 | OtherPlatform(name: string)

  datatype Error = ErrValidation | ErrInvalidPlatform | ErrTerminalState | ErrInvalidStateTransition
                 | ErrEmptyS3Key | ErrInvalidChecksum

  datatype State = State(
    id: string,
    suiteId: string,
    platform: Platform,
    description: string,
    s3BinaryKey: string,
    sha256Checksum: string,
    buildLogsS3Key: string,
    status: ArtifactStatus,
    errorMessage: string)

  datatype Op =
    | MarkBuilding
    | MarkReady(s3BinaryKey: string, sha256Checksum: string)
    | MarkFailed(errorMessage: string, buildLogsS3Key: string)
    | Cancel(reason: string)
    | RetryBuild
    | SetDescription(description: string)

  predicate IsHex(c: char) {
    '0' <= c <= '9' || 'a' <= c <= 'f' || 'A' <= c <= 'F'
  }

  lemma HexDigits(c: char)
    ensures IsHex(c) <==> c in "0123456789abcdefABCDEF"
  {
    var digits := "0123456789abcdefABCDEF";
    if '0' <= c <= '9' {
      assert digits[c as int - '0' as int] == c;
    } else if 'a' <= c <= 'f' {
      assert digits[10 + c as int - 'a' as int] == c;
    } else if 'A' <= c <= 'F' {
      assert digits[16 + c as int - 'A' as int] == c;
    }
  }

  ghost predicate IsSHA256(s: string) {
    |s| == 64 && forall i :: 0 <= i < 64 ==> IsHex(s[i])
  }

  method IsValidSHA256(s: string) returns (valid: bool)
    ensures valid <==> IsSHA256(s)
    ensures valid <==> |s| == 64 && forall i :: 0 <= i < 64 ==> s[i] in "0123456789abcdefABCDEF"
  {
    forall c ensures IsHex(c) <==> c in "0123456789abcdefABCDEF" {
      HexDigits(c);
    }
    if |s| != 64 {
      return false;
    }
    for i := 0 to |s|
      invariant forall j :: 0 <= j < i ==> IsHex(s[j])
    {
      if !IsHex(s[i]) {
        return false;
      }
    }
    return true;
  }

  predicate Ended(status: ArtifactStatus) {
    status == Ready || status == Failed || status == Cancelled
  }

  /** What a transition makes of the state, and the error it answers, if any. */
  ghost function Step(s: State, op: Op): (State, Option<Error>) {
    match op
    case MarkBuilding =>
      if Ended(s.status) then (s, Some(ErrTerminalState))
      else if s.status != Pending then (s, Some(ErrInvalidStateTransition))
      else (s.(status := Building), None)
    case MarkReady(key, checksum) =>
      if Ended(s.status) then (s, Some(ErrTerminalState))
      else if s.status != Building then (s, Some(ErrInvalidStateTransition))
      else if TrimSpace(key) == "" then (s, Some(ErrEmptyS3Key))
      else if !IsSHA256(TrimSpace(checksum)) then (s, Some(ErrInvalidChecksum))
      else (s.(s3BinaryKey := TrimSpace(key), sha256Checksum := TrimSpace(checksum), status := Ready), None)
    case MarkFailed(message, logsKey) =>
      if Ended(s.status) then (s, Some(ErrTerminalState))
      else (s.(errorMessage := message, buildLogsS3Key := logsKey, status := Failed), None)
    case Cancel(reason) =>
      if Ended(s.status) then (s, Some(ErrTerminalState))
      else
        var message := if TrimSpace(reason) == "" then "manual cancellation" else TrimSpace(reason);
        (s.(errorMessage := message, status := Cancelled), None)
    case RetryBuild =>
      if s.status != Failed && s.status != Cancelled then (s, Some(ErrInvalidStateTransition))
      else (s.(status := Pending, errorMessage := "", buildLogsS3Key := ""), None)
    case SetDescription(description) => (s.(description := TrimSpace(description)), None)
  }

  function NewState(id: string, suiteId: string, platform: Platform, description: string): State {
    State(id, TrimSpace(suiteId), platform, TrimSpace(description), "", "", "", Pending, "")
  }

  function NewError(suiteId: string, platform: Platform): Option<Error> {
    if TrimSpace(suiteId) == "" then Some(ErrValidation)
    else if platform.OtherPlatform? then Some(ErrInvalidPlatform)
    else None
  }

  class Artifact {
    var id: string
    var suiteId: string
    var platform: Platform
    var description: string
    var s3BinaryKey: string
    var sha256Checksum: string
    var buildLogsS3Key: string
    var status: ArtifactStatus
    var errorMessage: string

    ghost function View(): State
      reads this
    {
      State(id, suiteId, platform, description, s3BinaryKey, sha256Checksum, buildLogsS3Key, status, errorMessage)
    }

    constructor (id: string, suiteId: string, platform: Platform, description: string)
      requires NewError(suiteId, platform).None?
      ensures View() == NewState(id, suiteId, platform, description)
    {
      this.id, this.suiteId, this.platform, this.description :=
        id, TrimSpace(suiteId), platform, TrimSpace(description);
      s3BinaryKey, sha256Checksum, buildLogsS3Key, status, errorMessage := "", "", "", Pending, "";
    }

    method SetDescription(description: string)
      modifies this`description
      ensures View() == Step(old(View()), Op.SetDescription(description)).0
    {
      this.description := TrimSpace(description);
    }

    method MarkBuilding() returns (error: Option<Error>)
      modifies this`status
      ensures (View(), error) == Step(old(View()), Op.MarkBuilding)
    {
      if status == Ready || status == Failed || status == Cancelled {
        return Some(ErrTerminalState);
      }
      if status != Pending {
        return Some(ErrInvalidStateTransition);
      }
      status := Building;
      return None;
    }

    method MarkReady(s3BinaryKey: string, sha256Checksum: string) returns (error: Option<Error>)
      modifies this
      ensures (View(), error) == Step(old(View()), Op.MarkReady(s3BinaryKey, sha256Checksum))
    {
      if status == Ready || status == Failed || status == Cancelled {
        return Some(ErrTerminalState);
      }
      if status != Building {
        return Some(ErrInvalidStateTransition);
      }
      var trimmedKey := TrimSpace(s3BinaryKey);
      if trimmedKey == "" {
        return Some(ErrEmptyS3Key);
      }
      var trimmedChecksum := TrimSpace(sha256Checksum);
      var valid := IsValidSHA256(trimmedChecksum);
      if !valid {
        return Some(ErrInvalidChecksum);
      }
      this.s3BinaryKey := trimmedKey;
      this.sha256Checksum := trimmedChecksum;
      status := Ready;
      return None;
    }

    method MarkFailed(errorMessage: string, buildLogsS3Key: string) returns (error: Option<Error>)
      modifies this
      ensures (View(), error) == Step(old(View()), Op.MarkFailed(errorMessage, buildLogsS3Key))
    {
      if status == Ready || status == Failed || status == Cancelled {
        return Some(ErrTerminalState);
      }
      this.errorMessage := errorMessage;
      this.buildLogsS3Key := buildLogsS3Key;
      status := Failed;
      return None;
    }

    method Cancel(reason: string) returns (error: Option<Error>)
      modifies this
      ensures (View(), error) == Step(old(View()), Op.Cancel(reason))
    {
      if status == Ready || status == Failed || status == Cancelled {
        return Some(ErrTerminalState);
      }
      var trimmedReason := TrimSpace(reason);
      if trimmedReason == "" {
        trimmedReason := "manual cancellation";
      }
      errorMessage := trimmedReason;
      status := Cancelled;
      return None;
    }

    method RetryBuild() returns (error: Option<Error>)
      modifies this
      ensures (View(), error) == Step(old(View()), Op.RetryBuild)
    {
      if status != Failed && status != Cancelled {
        return Some(ErrInvalidStateTransition);
      }
      status := Pending;
      errorMessage := "";
      buildLogsS3Key := "";
      return None;
    }
  }

  method NewArtifact(id: string, suiteId: string, platform: Platform, description: string)
    returns (artifact: Artifact?, error: Option<Error>)
    ensures error == NewError(suiteId, platform)
    ensures error.Some? ==> artifact == null
    ensures error.None? ==>
              artifact != null && fresh(artifact) && artifact.View() == NewState(id, suiteId, platform, description)
    ensures error.None? ==>
              && artifact.status == Pending && artifact.id == id && artifact.suiteId == TrimSpace(suiteId)
              && artifact.platform == platform && artifact.description == TrimSpace(description)
              && artifact.s3BinaryKey == artifact.sha256Checksum == artifact.buildLogsS3Key == artifact.errorMessage
                 == ""
    ensures error.None? <==> TrimSpace(suiteId) != "" && !platform.OtherPlatform?
  {
    artifact, error := null, NewError(suiteId, platform);
    if error.None? {
      artifact := new Artifact(id, suiteId, platform, description);
    }
  }

  // What calls do, field by field.

  /** Which calls succeed, and with which error the others are refused; those change nothing. */
  lemma Accepted(s: State, op: Op)
    ensures Step(s, op).1 ==
            if op.SetDescription? then None
            else if op.RetryBuild? then
              if s.status in {Failed, Cancelled} then None else Some(ErrInvalidStateTransition)
            else if s.status in {Ready, Failed, Cancelled} then Some(ErrTerminalState)
            else if op.MarkFailed? || op.Cancel? then None
            else if (s.status == Pending) != op.MarkBuilding? then Some(ErrInvalidStateTransition)
            else if op.MarkBuilding? then None
            else if TrimSpace(op.s3BinaryKey) == "" then Some(ErrEmptyS3Key)
            else if IsSHA256(TrimSpace(op.sha256Checksum)) then None
            else Some(ErrInvalidChecksum)
    ensures Step(s, op).1.Some? ==> Step(s, op).0 == s
  {
    hide TrimSpace, IsSHA256;
  }

  /** What a call that succeeds makes of each field. */
  lemma Fields(s: State, op: Op)
    requires Step(s, op).1.None?
    ensures var t := Step(s, op).0;
            && t.id == s.id && t.suiteId == s.suiteId && t.platform == s.platform
            && t.status == (match op
                            case MarkBuilding => Building
                            case MarkReady(_, _) => Ready
                            case MarkFailed(_, _) => Failed
                            case Cancel(_) => Cancelled
                            case RetryBuild => Pending
                            case SetDescription(_) => s.status)
            && t.description == (if op.SetDescription? then TrimSpace(op.description) else s.description)
            && t.s3BinaryKey == (if op.MarkReady? then TrimSpace(op.s3BinaryKey) else s.s3BinaryKey)
            && t.sha256Checksum == (if op.MarkReady? then TrimSpace(op.sha256Checksum) else s.sha256Checksum)
            && t.buildLogsS3Key == (if op.MarkFailed? then op.buildLogsS3Key
                                    else if op.RetryBuild? then "" else s.buildLogsS3Key)
            && t.errorMessage == if op.MarkFailed? then op.errorMessage
                                 else if op.RetryBuild? then ""
                                 else if !op.Cancel? then s.errorMessage
                                 else if TrimSpace(op.reason) == "" then "manual cancellation" else TrimSpace(op.reason)
  {
    hide TrimSpace, IsSHA256;
  }

  // Runs.

  ghost function After(s: State, ops: seq<Op>): State
    decreases |ops|
  {
    if ops == [] then s else After(Step(s, ops[0]).0, ops[1..])
  }

  ghost predicate Consistent(s: State) {
    && (s.s3BinaryKey != "" <==> s.status == Ready)
    && (s.sha256Checksum != "" <==> s.status == Ready)
    && (s.status == Ready ==> IsSHA256(s.sha256Checksum))
    && (s.buildLogsS3Key != "" ==> s.status == Failed)
    && (s.status in {Pending, Building, Ready} ==> s.errorMessage == "")
    && (s.status == Cancelled ==> s.errorMessage != "")
  }

  /**
   In every run, retries included: see Consistent; and once READY, the status, the key and the checksum never
   change.
   */
  lemma {:induction false} RunConsistent(s: State, ops: seq<Op>)
    requires Consistent(s)
    ensures Consistent(After(s, ops))
    ensures s.status == Ready ==>
              var t := After(s, ops);
              t.status == Ready && t.s3BinaryKey == s.s3BinaryKey && t.sha256Checksum == s.sha256Checksum
    decreases |ops|
  {
    if ops == [] {
    } else {
      RunConsistent(Step(s, ops[0]).0, ops[1..]);
    }
  }

  lemma NewRunConsistent(id: string, suiteId: string, platform: Platform, description: string, ops: seq<Op>)
    ensures Consistent(After(NewState(id, suiteId, platform, description), ops))
  {
    RunConsistent(NewState(id, suiteId, platform, description), ops);
  }

  /** A refused transition changes nothing, and READY refuses every transition. */
  lemma RefusedChangesNothing(s: State, op: Op)
    ensures Step(s, op).1.Some? ==> Step(s, op).0 == s
    ensures s.status == Ready && !op.SetDescription? ==> Step(s, op).1.Some?
    ensures Step(s, op).1.None? && s.status in {Failed, Cancelled} && !op.SetDescription? ==> op.RetryBuild?
  {
  }
}
