/** Lifecycle tables of operations and artifacts, and the order every run moves along. */
module OperationStates {

  datatype OperationType = Export | Import

  datatype OperationStatus =
    | Created | Validating | Running | Packaging | Verifying
    | Uploaded | Discovered | Ready | Importing | VerifyingTarget
    | Completed | Failed | Rejected | Cancelled

  datatype ArtifactStatus = Pending | ArtifactRunning | Imported | Verified | Skipped | Conflict | ArtifactFailed

  const TERMINAL_STATES: set<OperationStatus> := {Completed, Failed, Rejected, Cancelled}

  const EXPORT_TRANSITIONS: map<OperationStatus, set<OperationStatus>> := map[
    Created := {Validating, Failed, Cancelled},
    Validating := {Running, Failed, Cancelled},
    Running := {Packaging, Failed, Cancelled},
    Packaging := {Verifying, Failed, Cancelled},
    Verifying := {Completed, Failed, Cancelled}
  ]

  const IMPORT_TRANSITIONS: map<OperationStatus, set<OperationStatus>> := map[
    Uploaded := {Verifying, Failed, Rejected, Cancelled},
    Discovered := {Verifying, Failed, Rejected, Cancelled},
    Verifying := {Ready, Failed, Rejected, Cancelled},
    Ready := {Importing, Failed, Cancelled},
    Importing := {VerifyingTarget, Failed, Cancelled},
    VerifyingTarget := {Completed, Failed, Cancelled}
  ]

  const ARTIFACT_TRANSITIONS: map<ArtifactStatus, set<ArtifactStatus>> := map[
    Pending := {ArtifactRunning, Skipped, Conflict, ArtifactFailed},
    ArtifactRunning := {Imported, Skipped, Conflict, ArtifactFailed, Verified},
    Imported := {Verified, ArtifactFailed}
  ]

  /** validate_transition raises nothing. */
  predicate Allowed(kind: OperationType, current: OperationStatus, target: OperationStatus) {
    var transitions := if kind.Export? then EXPORT_TRANSITIONS else IMPORT_TRANSITIONS;
    current !in TERMINAL_STATES && current in transitions && target in transitions[current]
  }

  predicate ArtifactAllowed(current: ArtifactStatus, target: ArtifactStatus) {
    current in ARTIFACT_TRANSITIONS && target in ARTIFACT_TRANSITIONS[current]
  }

  /** Distance travelled: every legal step moves strictly forward. */
  function Rank(kind: OperationType, s: OperationStatus): (r: nat)
    ensures r <= 6
  {
    match s
    case Created => 0
    case Uploaded => 0
    case Discovered => 0
    case Validating => 1
    case Running => 2
    case Packaging => 3
    case Verifying => if kind.Export? then 4 else 1
    case Ready => 2
    case Importing => 3
    case VerifyingTarget => 4
    case _ => 6
  }

  ghost predicate LegalRun(kind: OperationType, trace: seq<OperationStatus>) {
    trace != [] && forall i :: 0 <= i < |trace| - 1 ==> Allowed(kind, trace[i], trace[i + 1])
  }

  /** Along any legal run the rank rises by at least one per step, so no status repeats. */
  lemma {:induction false} RankRises(kind: OperationType, trace: seq<OperationStatus>, i: nat, j: nat)
    requires LegalRun(kind, trace) && i < j < |trace|
    ensures Rank(kind, trace[i]) + (j - i) <= Rank(kind, trace[j])
    ensures trace[i] != trace[j]
    decreases j
  {
    assert Allowed(kind, trace[j - 1], trace[j]);
    if i < j - 1 {
      RankRises(kind, trace, i, j - 1);
    }
  }

  /** A terminal status is final, and no run is longer than seven statuses. */
  lemma RunsEnd(kind: OperationType, trace: seq<OperationStatus>)
    requires LegalRun(kind, trace)
    ensures |trace| <= 7
    ensures forall i :: 0 <= i < |trace| && trace[i] in TERMINAL_STATES ==> i == |trace| - 1
  {
    if |trace| > 1 {
      RankRises(kind, trace, 0, |trace| - 1);
    }
    forall i | 0 <= i < |trace| && trace[i] in TERMINAL_STATES
      ensures i == |trace| - 1
    {
      assert i < |trace| - 1 ==> Allowed(kind, trace[i], trace[i + 1]);
    }
  }

  lemma ExtendRun(kind: OperationType, trace: seq<OperationStatus>, next: OperationStatus)
    requires LegalRun(kind, trace) && Allowed(kind, trace[|trace| - 1], next)
    ensures LegalRun(kind, trace + [next])
  {
  }

  /** Whoever completed passed its target check: the last working status comes right before. */
  lemma CompletedThroughVerification(kind: OperationType, trace: seq<OperationStatus>)
    requires LegalRun(kind, trace) && |trace| > 1 && trace[|trace| - 1] == Completed
    ensures trace[|trace| - 2] == if kind.Export? then Verifying else VerifyingTarget
  {
    assert Allowed(kind, trace[|trace| - 2], trace[|trace| - 1]);
  }
}
