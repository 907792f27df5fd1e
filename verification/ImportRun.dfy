/** The import worker: one artifact after another against a live registry, continuing on error. */
module ImportRun {
  import opened BundleManifest
  import opened BundleNames
  import opened DestinationPlan
  import opened PosixPath
  import OperationStates

  type Registry = map<Coordinate, string>

  /** An artifact row of a past or current operation, as the digest-pair query sees it. */
  datatype HistoryRow = HistoryRow(
    chart: bool, repository: string, name: string, version: string,
    sourceDigest: Option<string>, targetDigest: Option<string>, status: OperationStates.ArtifactStatus)

  datatype ReceiptItem = ReceiptItem(row: HistoryRow, targetRepository: string)

  datatype PastOperation = PastOperation(rows: seq<HistoryRow>, receipt: Option<seq<ReceiptItem>>)

  datatype RowError = TargetInspectionFailed | ConflictSkipped | StateUnresolved | PushFailed | Interrupted

  datatype Row = Row(status: OperationStates.ArtifactStatus, targetDigest: Option<string>, error: Option<RowError>)

  /** What a push does; it writes at most its own coordinate. */
  datatype PushOutcome =
    | Denied
    | Wrote(digest: string, confirmed: bool)
    | Aborted(written: Option<string>, byCancel: bool)

  /** An inspection answers, fails with an error the loop catches, or ends the worker with one it does not. */
  datatype Inspecting = Answers | Fails | Escapes(byCancel: bool)

  /** What happens around one artifact: a cancellation before it, its inspection, its push. */
  datatype World = World(cancelled: bool, inspecting: Inspecting, push: PushOutcome)

  datatype Hashing = Hashed(sha: string) | HashingBroken(byCancel: bool)

  /** verify_bundle with extraction, on the stored archive. */
  datatype Verification =
    | Passed(archiveSha: string, deliveryId: string, artifacts: nat, extracted: bool)
    | BundleRefused
    | VerificationBroken(byCancel: bool)

  /** What the worker consults before its loop, and what the operation and its preview recorded. */
  datatype Delivery = Delivery(
    stateLoads: bool, operationSha: string, previewSha: string, previewDelivery: string,
    hashing: Hashing, verification: Verification)

  datatype OpenError = BundleChanged | VerificationRefused | ExtractFailed | ArtifactsChanged

  /** An import about to start: projected descriptors, source repositories of the rows, policy, world. */
  datatype Import = Import(
    descriptors: seq<Artifact>, sources: seq<string>, history: seq<PastOperation>,
    overwrite: bool, skipConflicts: bool, worlds: seq<World>, receiptWritable: bool, delivery: Delivery)

  datatype Stop = CancelRequested | WorkerFailed | NotOpened(error: OpenError)

  datatype State = State(
    registry: Registry, rows: seq<Row>, failures: nat, progress: nat, stopped: Option<Stop>)

  predicate WellFormed(a: Import) {
    |a.sources| == |a.descriptors| == |a.worlds|
  }

  function Lookup(registry: Registry, c: Coordinate): Option<string> {
    if c in registry then Some(registry[c]) else None
  }

  /** The reference the clients are built with is accepted. */
  predicate ReferenceOk(d: Artifact) {
    match d
    case ContainerImage(repository, reference, _, _, _, _) => ImageReferenceOk(repository, reference)
    case HelmChart(repository, name, version, _, _, _, _) => ChartReferenceOk(repository, name, version)
  }

  /**
    What TARGET shows when asked for an artifact: it is asked for the reference or version as spelled, and
    nothing is stored under a reference with a "+", which is no tag character.
   */
  function Shown(registry: Registry, d: Artifact): Option<string> {
    var asked := WrittenAt(d);
    if '+' in asked.reference then None else Lookup(registry, asked)
  }

  /** An artifact is seen where it lands, but for a chart with a "+" in its version, which is never seen. */
  lemma ShownWhereItLands(registry: Registry, d: Artifact)
    requires ReferenceOk(d)
    ensures Shown(registry, d) == if RespelledChart(d) then None else Lookup(registry, LandsAt(d))
  {
    hide IsRepository;
    hide IsComponent;
    if !RespelledChart(d) {
      PlainVersionLandsWhereWritten(d);
    }
    if d.ContainerImage? && IsOciDigest(d.reference) {
      DigestHasNoPlus(d.reference);
    }
  }

  lemma DigestHasNoPlus(digest: string)
    requires IsOciDigest(digest)
    ensures '+' !in digest
  {
    assert digest == digest[..7] + digest[7..];
    assert forall i :: 0 <= i < |digest[7..]| ==> IsHex(digest[7..][i]);
  }

  /** A VERIFIED chart row with this name, version and digest pair. */
  predicate Candidate(r: HistoryRow, name: string, version: string, source: string, target: string) {
    && r.chart && r.name == name && r.version == version && r.sourceDigest == Some(source)
    && r.targetDigest == Some(target) && r.status.Verified?
  }

  predicate ReceiptNames(
    items: seq<ReceiptItem>, origin: string, repository: string, name: string, version: string, source: string,
    target: string)
  {
    exists m :: 0 <= m < |items| && Candidate(items[m].row, name, version, source, target) &&
                items[m].row.repository == origin && items[m].targetRepository == repository
  }

  predicate Authorises(
    op: PastOperation, j: nat, repository: string, name: string, version: string, source: string, target: string)
    requires j < |op.rows|
  {
    && Candidate(op.rows[j], name, version, source, target)
    && (|| op.rows[j].repository == repository
        || (op.receipt.Some? &&
            ReceiptNames(op.receipt.value, op.rows[j].repository, repository, name, version, source, target)))
  }

  /** _verified_digest_pair_matches_target */
  predicate PairMatches(
    history: seq<PastOperation>, repository: string, name: string, version: string, source: string, target: string)
  {
    exists i, j :: 0 <= i < |history| && 0 <= j < |history[i].rows| &&
                   Authorises(history[i], j, repository, name, version, source, target)
  }

  /** _preflight_target, from the digest TARGET shows at the artifact's coordinate. */
  function Preflight(d: Artifact, seen: Option<string>, history: seq<PastOperation>): Classification {
    match seen
    case None => New
    case Some(digest) =>
      match SourceDigest(d)
      case None => Unknown
      case Some(expected) =>
        if digest == expected then Same
        else if d.HelmChart? && PairMatches(history, d.repository, d.name, d.version, expected, digest) then Same
        else Conflict
  }

  function HistoryRowOf(d: Artifact, origin: string, row: Row): HistoryRow {
    match d
    case ContainerImage(_, _, _, _, _, _) =>
      HistoryRow(false, origin, "", "", SourceDigest(d), row.targetDigest, row.status)
    case HelmChart(_, name, version, digest, _, _, _) =>
      HistoryRow(true, origin, name, version, digest, row.targetDigest, row.status)
  }

  /** The operation's own rows, as later queries find them. */
  function OwnRows(a: Import, rows: seq<Row>): seq<HistoryRow>
    requires WellFormed(a) && |rows| == |a.descriptors|
  {
    seq(|rows|, i requires 0 <= i < |rows| => HistoryRowOf(a.descriptors[i], a.sources[i], rows[i]))
  }

  function ReceiptOf(a: Import, rows: seq<Row>): seq<ReceiptItem>
    requires WellFormed(a) && |rows| == |a.descriptors|
  {
    seq(|rows|, i requires 0 <= i < |rows| =>
      ReceiptItem(HistoryRowOf(a.descriptors[i], a.sources[i], rows[i]), a.descriptors[i].repository))
  }

  function HistoryDuring(a: Import, rows: seq<Row>): seq<PastOperation>
    requires WellFormed(a) && |rows| == |a.descriptors|
  {
    a.history + [PastOperation(OwnRows(a, rows), None)]
  }

  predicate Ok(a: Import, s: State) {
    WellFormed(a) && |s.rows| == |a.descriptors| && s.progress <= |s.rows|
  }

  const RUNNING: Row := Row(OperationStates.ArtifactRunning, None, None)

  function Failure(error: RowError): Row {
    Row(OperationStates.ArtifactFailed, None, Some(error))
  }

  /** The outcome of a push, once the artifact is RUNNING: its row, and what its coordinate shows after. */
  datatype Pushed = Pushed(written: Option<string>, row: Row, stopped: Option<Stop>)

  /**
    import_image, or push_chart with its own second look at TARGET. A push counts as VERIFIED only if TARGET
    shows it afterwards.
   */
  function Push(
    d: Artifact, registry: Registry, history: seq<PastOperation>, overwriting: bool, push: PushOutcome): Pushed {
    if d.HelmChart? && !Preflight(d, Shown(registry, d), history).New? && !overwriting then
      Pushed(None, Failure(PushFailed), None)
    else
      match push
      case Denied => Pushed(None, Failure(PushFailed), None)
      case Wrote(digest, confirmed) =>
        var found := Shown(registry[LandsAt(d) := digest], d);
        if confirmed && found.Some? && (d.ContainerImage? ==> found == SourceDigest(d)) then
          Pushed(Some(digest), Row(OperationStates.Verified, found, None), None)
        else
          Pushed(Some(digest), Failure(PushFailed), None)
      case Aborted(written, byCancel) =>
        Pushed(written, Failure(Interrupted), Some(Interruption(byCancel)))
  }

  /** The row of an artifact that is decided without a push. */
  function Unpushed(a: Import, classification: Classification, seen: Option<string>): Option<Row> {
    match classification
    case Same => Some(Row(OperationStates.Skipped, seen, None))
    case Conflict =>
      if a.overwrite then None
      else if a.skipConflicts then Some(Row(OperationStates.Skipped, seen, Some(ConflictSkipped)))
      else Some(Row(OperationStates.Conflict, seen, None))
    case Unknown => Some(Failure(StateUnresolved))
    case Error => Some(Failure(StateUnresolved))
    case New => None
  }

  predicate CountsAsFailure(r: Row) {
    r.status.ArtifactFailed? || r.status.Conflict?
  }

  function Settle(s: State, k: nat, row: Row): State
    requires k < |s.rows|
  {
    s.(rows := s.rows[k := row], failures := s.failures + (if CountsAsFailure(row) then 1 else 0), progress := k + 1)
  }

  function Written(registry: Registry, c: Coordinate, digest: Option<string>): Registry {
    if digest.Some? then registry[c := digest.value] else registry
  }

  /** The rest of a turn that pushes: RUNNING, the push, and what it leaves. */
  function PushTurn(a: Import, s: State, k: nat, overwriting: bool): (r: State)
    requires Ok(a, s) && k < |a.descriptors|
    ensures Ok(a, r)
  {
    var d := a.descriptors[k];
    var pushed := Push(d, s.registry, HistoryDuring(a, s.rows[k := RUNNING]), overwriting, a.worlds[k].push);
    var after := s.(registry := Written(s.registry, LandsAt(d), pushed.written));
    if pushed.stopped.Some? then
      after.(rows := s.rows[k := pushed.row], stopped := pushed.stopped)
    else Settle(after, k, pushed.row)
  }

  /** One turn of the worker's loop. */
  function Turn(a: Import, s: State, k: nat): (r: State)
    requires Ok(a, s) && k < |a.descriptors|
    ensures Ok(a, r)
  {
    var d, world := a.descriptors[k], a.worlds[k];
    if s.stopped.Some? then s
    else if world.cancelled then s.(stopped := Some(CancelRequested))
    else if !ReferenceOk(d) || world.inspecting.Fails? then Settle(s, k, Failure(TargetInspectionFailed))
    else if world.inspecting.Escapes? then s.(stopped := Some(Interruption(world.inspecting.byCancel)))
    else
      var seen := Shown(s.registry, d);
      var classification := Preflight(d, seen, HistoryDuring(a, s.rows));
      match Unpushed(a, classification, seen)
      case Some(row) => Settle(s, k, row)
      case None => PushTurn(a, s, k, a.overwrite && classification.Conflict?)
  }

  /** Everything but the k-th row, the artifact's own place, the counts and the stop stays as it was. */
  ghost predicate OnlyOwn(a: Import, before: State, k: nat, after: State)
    requires Ok(a, before) && k < |a.descriptors|
  {
    && |after.rows| == |before.rows|
    && (forall i :: 0 <= i < |before.rows| && i != k ==> after.rows[i] == before.rows[i])
    && (forall c :: c != LandsAt(a.descriptors[k]) ==>
          (c in after.registry <==> c in before.registry) &&
          (c in before.registry ==> after.registry[c] == before.registry[c]))
  }

  /** The artifact is settled with this row, counted as a failure or not; its place shows this. */
  ghost predicate SettledAs(
    a: Import, before: State, k: nat, after: State, row: Row, counted: bool, place: Option<string>)
    requires Ok(a, before) && k < |a.descriptors|
  {
    && OnlyOwn(a, before, k, after) && after.rows[k] == row
    && after.failures == (if counted then before.failures + 1 else before.failures)
    && after.progress == k + 1 && after.stopped.None?
    && Lookup(after.registry, LandsAt(a.descriptors[k])) == place
  }

  /** What a push does: an image counts only with the signed digest, a chart only if TARGET can show it. */
  ghost predicate PushedByRule(a: Import, before: State, k: nat, after: State)
    requires Ok(a, before) && k < |a.descriptors|
  {
    var d, push := a.descriptors[k], a.worlds[k].push;
    var own := Lookup(before.registry, LandsAt(d));
    var failed := Row(OperationStates.ArtifactFailed, None, Some(PushFailed));
    && (push == Denied ==> SettledAs(a, before, k, after, failed, true, own))
    && (push.Wrote? ==>
          var fits := if d.ContainerImage? then push.digest == d.imageDigest else '+' !in d.version;
          var counts := push.confirmed && fits;
          && (counts ==> SettledAs(a, before, k, after, Row(OperationStates.Verified, Some(push.digest), None), false,
                                   Some(push.digest)))
          && (!counts ==> SettledAs(a, before, k, after, failed, true, Some(push.digest))))
    && (push.Aborted? ==>
          && OnlyOwn(a, before, k, after)
          && after.rows[k] == Row(OperationStates.ArtifactFailed, None, Some(Interrupted))
          && after.failures == before.failures && after.progress == before.progress
          && after.stopped == Some(if push.byCancel then CancelRequested else WorkerFailed)
          && Lookup(after.registry, LandsAt(d)) == if push.written.Some? then push.written else own)
  }

  /** What a digest other than the signed one leads to: the conflict policy. */
  ghost predicate ConflictByRule(a: Import, before: State, k: nat, after: State, seen: string)
    requires Ok(a, before) && k < |a.descriptors|
  {
    && (a.overwrite ==> PushedByRule(a, before, k, after))
    && (!a.overwrite && a.skipConflicts ==>
          SettledAs(a, before, k, after, Row(OperationStates.Skipped, Some(seen), Some(ConflictSkipped)), false,
                    Some(seen)))
    && (!a.overwrite && !a.skipConflicts ==>
          SettledAs(a, before, k, after, Row(OperationStates.Conflict, Some(seen), None), true, Some(seen)))
  }

  /** An artifact TARGET answered about: absent, already there, unresolvable, or in conflict. */
  ghost predicate InspectedByRule(a: Import, before: State, k: nat, after: State)
    requires Ok(a, before) && k < |a.descriptors|
  {
    var d := a.descriptors[k];
    var seen := if d.HelmChart? && '+' in d.version then None else Lookup(before.registry, LandsAt(d));
    var signed := if d.ContainerImage? then Some(d.imageDigest) else d.chartDigest;
    && (seen.None? ==> PushedByRule(a, before, k, after))
    && (seen.Some? && signed == seen ==>
          SettledAs(a, before, k, after, Row(OperationStates.Skipped, seen, None), false, seen))
    && (seen.Some? && signed.None? ==>
          SettledAs(a, before, k, after, Row(OperationStates.ArtifactFailed, None, Some(StateUnresolved)), true, seen))
    && (seen.Some? && signed.Some? && signed != seen ==>
          var known := d.HelmChart? &&
            PairMatches(a.history + [PastOperation(OwnRows(a, before.rows), None)],
                        d.repository, d.name, d.version, signed.value, seen.value);
          && (known ==> SettledAs(a, before, k, after, Row(OperationStates.Skipped, seen, None), false, seen))
          && (!known ==> ConflictByRule(a, before, k, after, seen.value)))
  }

  /** One turn of the loop, rule by rule. */
  ghost predicate TurnByRule(a: Import, before: State, k: nat, after: State)
    requires Ok(a, before) && k < |a.descriptors|
  {
    var d, world := a.descriptors[k], a.worlds[k];
    && (world.cancelled ==> after == before.(stopped := Some(CancelRequested)))
    && (!world.cancelled && (!ReferenceOk(d) || world.inspecting == Fails) ==>
          SettledAs(a, before, k, after, Row(OperationStates.ArtifactFailed, None, Some(TargetInspectionFailed)), true,
                    Lookup(before.registry, LandsAt(d))))
    && (!world.cancelled && ReferenceOk(d) && world.inspecting.Escapes? ==>
          after == before.(stopped := Some(if world.inspecting.byCancel then CancelRequested else WorkerFailed)))
    && (!world.cancelled && ReferenceOk(d) && world.inspecting == Answers ==> InspectedByRule(a, before, k, after))
  }

  /** A row as later queries find it: under its source repository, with the digests and the status it ended with. */
  ghost predicate RecordedAs(h: HistoryRow, d: Artifact, origin: string, row: Row) {
    && h.repository == origin && h.targetDigest == row.targetDigest && h.status == row.status
    && (d.ContainerImage? ==> !h.chart && h.sourceDigest == Some(d.imageDigest))
    && (d.HelmChart? ==> h.chart && h.name == d.name && h.version == d.version && h.sourceDigest == d.chartDigest)
  }

  /** The operation's rows and its receipt record every artifact, the receipt with the repository it went to. */
  lemma RowsAreRecorded(a: Import, rows: seq<Row>)
    requires WellFormed(a) && |rows| == |a.descriptors|
    ensures |OwnRows(a, rows)| == |ReceiptOf(a, rows)| == |rows|
    ensures forall i :: 0 <= i < |rows| ==>
              && RecordedAs(OwnRows(a, rows)[i], a.descriptors[i], a.sources[i], rows[i])
              && RecordedAs(ReceiptOf(a, rows)[i].row, a.descriptors[i], a.sources[i], rows[i])
              && ReceiptOf(a, rows)[i].targetRepository == a.descriptors[i].repository
  {
  }

  function Start(a: Import, registry: Registry): State {
    State(registry, seq(|a.descriptors|, _ => Row(OperationStates.Pending, None, None)), 0, 0, None)
  }

  function Interruption(byCancel: bool): Stop {
    if byCancel then CancelRequested else WorkerFailed
  }

  /** The checks between IMPORTING and the first artifact: None when the loop is entered. */
  function GateStop(d: Delivery, rows: nat): Option<Stop> {
    if !d.stateLoads then Some(WorkerFailed)
    else if d.hashing.HashingBroken? then Some(Interruption(d.hashing.byCancel))
    else if d.hashing.sha != d.operationSha || d.hashing.sha != d.previewSha then Some(NotOpened(BundleChanged))
    else
      match d.verification
      case BundleRefused => Some(NotOpened(VerificationRefused))
      case VerificationBroken(byCancel) => Some(Interruption(byCancel))
      case Passed(archiveSha, deliveryId, artifacts, extracted) =>
        if archiveSha != d.previewSha || deliveryId != d.previewDelivery then Some(NotOpened(BundleChanged))
        else if !extracted then Some(NotOpened(ExtractFailed))
        else if artifacts != rows then Some(NotOpened(ArtifactsChanged))
        else None
  }

  /** The state after the gate and the first k turns. */
  function After(a: Import, registry: Registry, k: nat): (s: State)
    requires WellFormed(a) && k <= |a.descriptors|
    ensures Ok(a, s)
  {
    if k == 0 then Start(a, registry).(stopped := GateStop(a.delivery, |a.sources|))
    else Turn(a, After(a, registry, k - 1), k - 1)
  }

  function Final(a: Import, registry: Registry): (s: State)
    requires WellFormed(a)
    ensures Ok(a, s)
  {
    After(a, registry, |a.descriptors|)
  }

  function FinalStatus(a: Import, s: State): OperationStates.OperationStatus {
    match s.stopped
    case Some(CancelRequested) => OperationStates.Cancelled
    case Some(WorkerFailed) => OperationStates.Failed
    case Some(NotOpened(_)) => OperationStates.Failed
    case None => if !a.receiptWritable || s.failures > 0 then OperationStates.Failed else OperationStates.Completed
  }

  function Trace(a: Import, s: State): seq<OperationStates.OperationStatus> {
    [OperationStates.Ready, OperationStates.Importing] +
    (if s.stopped.Some? then [] else [OperationStates.VerifyingTarget]) + [FinalStatus(a, s)]
  }

  lemma TraceShape(a: Import, s: State)
    ensures Trace(a, s) ==
            if s.stopped.Some? then [OperationStates.Ready, OperationStates.Importing, FinalStatus(a, s)]
            else [OperationStates.Ready, OperationStates.Importing, OperationStates.VerifyingTarget, FinalStatus(a, s)]
    ensures s.stopped.Some? ==>
              FinalStatus(a, s) == OperationStates.Cancelled || FinalStatus(a, s) == OperationStates.Failed
    ensures s.stopped.None? ==>
              FinalStatus(a, s) == OperationStates.Completed || FinalStatus(a, s) == OperationStates.Failed
  {
  }

  /** The worker's records: database rows, registry, progress and status history. */
  class ImportWorker {
    var registry: Registry
    var rows: seq<Row>
    var failures: nat
    var progress: nat
    var stopped: Option<Stop>
    var trace: seq<OperationStates.OperationStatus>
    var receipt: Option<seq<ReceiptItem>>

    constructor (a: Import, initial: Registry)
      ensures Snapshot() == Start(a, initial)
      ensures trace == [OperationStates.Ready] && receipt.None?
    {
      registry, failures, progress, stopped, receipt := initial, 0, 0, None, None;
      rows := seq(|a.descriptors|, _ => Row(OperationStates.Pending, None, None));
      trace := [OperationStates.Ready];
    }

    ghost function Snapshot(): State
      reads this
    {
      State(registry, rows, failures, progress, stopped)
    }

    /** transition: validate_transition, then the new status. */
    method MoveTo(next: OperationStates.OperationStatus)
      requires OperationStates.LegalRun(OperationStates.Import, trace)
      requires OperationStates.Allowed(OperationStates.Import, trace[|trace| - 1], next)
      modifies this`trace
      ensures trace == old(trace) + [next] && OperationStates.LegalRun(OperationStates.Import, trace)
    {
      OperationStates.ExtendRun(OperationStates.Import, trace, next);
      trace := trace + [next];
    }

    /** set_artifact_status: only along the artifact lifecycle. */
    method SetRow(k: nat, row: Row)
      requires k < |rows| && OperationStates.ArtifactAllowed(rows[k].status, row.status)
      modifies this`rows
      ensures rows == old(rows)[k := row]
    {
      rows := rows[k := row];
    }

    /** Hash, verify and unpack the stored archive against what the preview recorded. */
    method OpenBundle(d: Delivery, count: nat)
      requires stopped.None?
      modifies this`stopped
      ensures stopped == GateStop(d, count)
    {
      if !d.stateLoads {
        stopped := Some(WorkerFailed);
        return;
      }
      match d.hashing
      case HashingBroken(byCancel) =>
        stopped := Some(Interruption(byCancel));
      case Hashed(observed) =>
        if observed != d.operationSha || observed != d.previewSha {
          stopped := Some(NotOpened(BundleChanged));
          return;
        }
        match d.verification {
          case BundleRefused =>
            stopped := Some(NotOpened(VerificationRefused));
          case VerificationBroken(byCancel) =>
            stopped := Some(Interruption(byCancel));
          case Passed(archiveSha, deliveryId, artifacts, extracted) =>
            if archiveSha != d.previewSha || deliveryId != d.previewDelivery {
              stopped := Some(NotOpened(BundleChanged));
            } else if !extracted {
              stopped := Some(NotOpened(ExtractFailed));
            } else if artifacts != count {
              stopped := Some(NotOpened(ArtifactsChanged));
            }
        }
    }

    /** One artifact; returns with stopped set when the worker must not go on. */
    method ImportArtifact(a: Import, k: nat)
      requires Ok(a, Snapshot()) && k < |a.descriptors| && stopped.None?
      requires rows[k].status.Pending?
      modifies this`registry, this`rows, this`failures, this`progress, this`stopped
      ensures Snapshot() == Turn(a, old(Snapshot()), k)
      ensures TurnByRule(a, old(Snapshot()), k, Snapshot())
    {
      TurnFollowsRules(a, Snapshot(), k);
      hide TurnByRule;
      hide Preflight;
      hide ReferenceOk;
      hide Shown;
      hide PushTurn;
      var d, world := a.descriptors[k], a.worlds[k];
      if world.cancelled {
        stopped := Some(CancelRequested);
        return;
      }
      if !ReferenceOk(d) || world.inspecting.Fails? {
        SetRow(k, Failure(TargetInspectionFailed));
        failures := failures + 1;
        progress := k + 1;
        return;
      }
      if world.inspecting.Escapes? {
        stopped := Some(Interruption(world.inspecting.byCancel));
        return;
      }
      var seen := Shown(registry, d);
      var outcome := Preflight(d, seen, HistoryDuring(a, rows));
      if outcome.Same? {
        SetRow(k, Row(OperationStates.Skipped, seen, None));
        progress := k + 1;
        return;
      }
      if outcome.Conflict? && !a.overwrite {
        if a.skipConflicts {
          SetRow(k, Row(OperationStates.Skipped, seen, Some(ConflictSkipped)));
        } else {
          SetRow(k, Row(OperationStates.Conflict, seen, None));
          failures := failures + 1;
        }
        progress := k + 1;
        return;
      }
      if outcome.Unknown? || outcome.Error? {
        SetRow(k, Failure(StateUnresolved));
        failures := failures + 1;
        progress := k + 1;
        return;
      }
      PushArtifact(a, k, a.overwrite && outcome.Conflict?);
    }

    /** RUNNING, import_image or push_chart, and the row and counts it leaves. */
    method PushArtifact(a: Import, k: nat, overwriting: bool)
      requires Ok(a, Snapshot()) && k < |a.descriptors| && stopped.None?
      requires rows[k].status.Pending?
      modifies this`registry, this`rows, this`failures, this`progress, this`stopped
      ensures Snapshot() == PushTurn(a, old(Snapshot()), k, overwriting)
    {
      hide Preflight;
      hide Shown;
      hide LandsAt;
      var d := a.descriptors[k];
      ghost var before := Snapshot();
      SetRow(k, RUNNING);
      assert rows == before.rows[k := RUNNING];
      var pushed := Push(d, registry, HistoryDuring(a, rows), overwriting, a.worlds[k].push);
      registry := Written(registry, LandsAt(d), pushed.written);
      SetRow(k, pushed.row);
      assert before.rows[k := RUNNING][k := pushed.row] == before.rows[k := pushed.row];
      if pushed.stopped.Some? {
        stopped := pushed.stopped;
        return;
      }
      if pushed.row.status.ArtifactFailed? {
        failures := failures + 1;
      }
      progress := k + 1;
    }

    /** The checks before the loop, and the loop. */
    method ImportAll(a: Import)
      requires WellFormed(a) && Snapshot() == Start(a, registry)
      modifies this`registry, this`rows, this`failures, this`progress, this`stopped
      ensures Snapshot() == After(a, old(registry), |a.descriptors|)
    {
      hide Turn;
      hide After;
      hide WellFormed;
      ghost var initial := registry;
      AfterSteps(a, initial);
      OpenBundle(a.delivery, |a.sources|);
      hide GateStop;
      var k := 0;
      while k < |a.descriptors| && stopped.None?
        invariant 0 <= k <= |a.descriptors|
        invariant Snapshot() == After(a, initial, k)
        invariant stopped.None? ==> forall i :: k <= i < |rows| ==> rows[i].status.Pending?
      {
        ghost var before := Snapshot();
        ImportArtifact(a, k);
        TurnLeavesOthers(a, before, k);
        k := k + 1;
      }
      StoppedStays(a, initial, k, |a.descriptors|);
    }

    /** _import_worker, from READY to the end the operation manager records. */
    method Run(a: Import)
      requires WellFormed(a) && Snapshot() == Start(a, registry)
      requires trace == [OperationStates.Ready] && receipt.None?
      modifies this
      ensures Snapshot() == Final(a, old(registry))
      ensures trace == Trace(a, Snapshot()) && OperationStates.LegalRun(OperationStates.Import, trace)
      ensures receipt == if stopped.Some? then None else Some(ReceiptOf(a, rows))
      ensures |rows| == |a.descriptors|
      ensures receipt.Some? ==>
                |receipt.value| == |rows| &&
                forall i :: 0 <= i < |rows| ==>
                  RecordedAs(receipt.value[i].row, a.descriptors[i], a.sources[i], rows[i]) &&
                  receipt.value[i].targetRepository == a.descriptors[i].repository
      ensures trace[|trace| - 1] ==
              if stopped == Some(CancelRequested) then OperationStates.Cancelled
              else if stopped.None? && failures == 0 && a.receiptWritable then OperationStates.Completed
              else OperationStates.Failed
    {
      hide Final;
      hide ReceiptOf;
      hide WellFormed;
      hide OperationStates.LegalRun;
      LegalMoves();
      hide OperationStates.Allowed;
      ghost var initial := registry;
      MoveTo(OperationStates.Importing);
      ImportAll(a);
      FinalIsLast(a, initial);
      if stopped.Some? {
        var final := if stopped == Some(CancelRequested) then OperationStates.Cancelled else OperationStates.Failed;
        MoveTo(final);
        TraceShape(a, Snapshot());
        return;
      }
      MoveTo(OperationStates.VerifyingTarget);
      receipt := Some(ReceiptOf(a, rows));
      RowsAreRecorded(a, rows);
      hide RecordedAs;
      TraceShape(a, Snapshot());
      if !a.receiptWritable || failures > 0 {
        MoveTo(OperationStates.Failed);
        return;
      }
      MoveTo(OperationStates.Completed);
    }
  }

  /** A push that is not refused by the second look at TARGET. */
  lemma PushedIs(
    d: Artifact, registry: Registry, history: seq<PastOperation>, overwriting: bool, push: PushOutcome)
    requires ReferenceOk(d) && (overwriting || Shown(registry, d).None?)
    ensures var failed := Row(OperationStates.ArtifactFailed, None, Some(PushFailed));
            Push(d, registry, history, overwriting, push) ==
            match push
            case Denied => Pushed(None, failed, None)
            case Wrote(digest, confirmed) =>
              var fits := if d.ContainerImage? then digest == d.imageDigest else '+' !in d.version;
              if confirmed && fits then
                Pushed(Some(digest), Row(OperationStates.Verified, Some(digest), None), None)
              else Pushed(Some(digest), failed, None)
            case Aborted(written, byCancel) =>
              Pushed(written, Row(OperationStates.ArtifactFailed, None, Some(Interrupted)),
                     Some(if byCancel then CancelRequested else WorkerFailed))
  {
    if push.Wrote? {
      ShownWhereItLands(registry[LandsAt(d) := push.digest], d);
    }
    hide PairMatches;
    hide Shown;
    hide ReferenceOk;
    hide LandsAt;
  }

  lemma PushTurnFollowsRule(a: Import, s: State, k: nat, overwriting: bool)
    requires Ok(a, s) && k < |a.descriptors| && s.stopped.None? && ReferenceOk(a.descriptors[k])
    requires overwriting || Shown(s.registry, a.descriptors[k]).None?
    ensures PushedByRule(a, s, k, PushTurn(a, s, k, overwriting))
  {
    PushedIs(a.descriptors[k], s.registry, HistoryDuring(a, s.rows[k := RUNNING]), overwriting, a.worlds[k].push);
    hide Push;
    hide HistoryDuring;
    hide Shown;
    hide ReferenceOk;
    hide LandsAt;
    hide WellFormed;
  }

  lemma PushFollowsRule(a: Import, s: State, k: nat)
    requires Ok(a, s) && k < |a.descriptors| && s.stopped.None? && !a.worlds[k].cancelled
    requires ReferenceOk(a.descriptors[k]) && a.worlds[k].inspecting.Answers?
    requires var d := a.descriptors[k];
             var seen := Shown(s.registry, d);
             seen.None? || (a.overwrite && Preflight(d, seen, HistoryDuring(a, s.rows)).Conflict?)
    ensures PushedByRule(a, s, k, Turn(a, s, k))
  {
    var d := a.descriptors[k];
    var seen := Shown(s.registry, d);
    hide PairMatches;
    hide HistoryDuring;
    hide Shown;
    hide ReferenceOk;
    hide LandsAt;
    hide PushTurn;
    hide PushedByRule;
    PushTurnFollowsRule(a, s, k, a.overwrite && Preflight(d, seen, HistoryDuring(a, s.rows)).Conflict?);
  }

  lemma AnswerFollowsRule(a: Import, s: State, k: nat)
    requires Ok(a, s) && k < |a.descriptors| && s.stopped.None? && !a.worlds[k].cancelled
    requires ReferenceOk(a.descriptors[k]) && a.worlds[k].inspecting.Answers?
    ensures InspectedByRule(a, s, k, Turn(a, s, k))
  {
    var d := a.descriptors[k];
    var seen := Shown(s.registry, d);
    ShownWhereItLands(s.registry, d);
    if seen.None? || (a.overwrite && Preflight(d, seen, HistoryDuring(a, s.rows)).Conflict?) {
      PushFollowsRule(a, s, k);
    }
    hide PushedByRule;
    hide PairMatches;
    hide HistoryDuring;
    hide Shown;
    hide ReferenceOk;
    hide LandsAt;
    hide RespelledChart;
  }

  /** The worker's turn follows the rules. */
  lemma TurnFollowsRules(a: Import, s: State, k: nat)
    requires Ok(a, s) && k < |a.descriptors| && s.stopped.None?
    ensures TurnByRule(a, s, k, Turn(a, s, k))
  {
    if !a.worlds[k].cancelled && ReferenceOk(a.descriptors[k]) && a.worlds[k].inspecting.Answers? {
      AnswerFollowsRule(a, s, k);
    }
    hide InspectedByRule;
    hide Preflight;
    hide Push;
    hide ReferenceOk;
    hide LandsAt;
  }

  lemma LegalMoves()
    ensures OperationStates.Allowed(OperationStates.Import, OperationStates.Ready, OperationStates.Importing)
    ensures forall next ::
              next in {OperationStates.VerifyingTarget, OperationStates.Failed, OperationStates.Cancelled} ==>
              OperationStates.Allowed(OperationStates.Import, OperationStates.Importing, next)
    ensures forall next :: next in {OperationStates.Failed, OperationStates.Completed} ==>
              OperationStates.Allowed(OperationStates.Import, OperationStates.VerifyingTarget, next)
  {
  }

  lemma FinalIsLast(a: Import, registry: Registry)
    requires WellFormed(a)
    ensures Final(a, registry) == After(a, registry, |a.descriptors|)
  {
    hide After;
  }

  lemma AfterSteps(a: Import, registry: Registry)
    requires WellFormed(a)
    ensures After(a, registry, 0) == Start(a, registry).(stopped := GateStop(a.delivery, |a.sources|))
    ensures forall k :: 0 <= k < |a.descriptors| ==> After(a, registry, k + 1) == Turn(a, After(a, registry, k), k)
  {
    hide Turn;
    hide GateStop;
  }

  /**
    Nothing happens to TARGET, and no artifact is started, unless the stored archive hashed to the digest
    the operation and its preview recorded, verified and unpacked as that very archive and delivery, and
    holds as many artifacts as the operation has rows. Otherwise the run ends FAILED or CANCELLED.
   */
  lemma MutationNeedsPreviewedBundle(a: Import, registry: Registry)
    requires WellFormed(a)
    ensures var d, s := a.delivery, Final(a, registry);
            || (&& d.stateLoads && d.hashing == Hashed(d.previewSha) && d.operationSha == d.previewSha
                && d.verification == Passed(d.previewSha, d.previewDelivery, |a.descriptors|, true))
            || (&& s.registry == registry && s.progress == 0 && s.stopped.Some?
                && (forall i :: 0 <= i < |s.rows| ==> s.rows[i].status.Pending?)
                && (FinalStatus(a, s).Failed? || FinalStatus(a, s).Cancelled?))
  {
    if GateStop(a.delivery, |a.sources|).Some? {
      StoppedStays(a, registry, 0, |a.descriptors|);
      hide Turn;
      assert Final(a, registry) == After(a, registry, 0);
    }
  }

  lemma TurnLeavesOthers(a: Import, s: State, k: nat)
    requires Ok(a, s) && k < |a.descriptors|
    ensures forall i :: 0 <= i < |s.rows| && i != k ==> Turn(a, s, k).rows[i] == s.rows[i]
  {
    hide Preflight;
    hide Push;
  }

  lemma {:induction false} StoppedStays(a: Import, registry: Registry, k: nat, n: nat)
    requires WellFormed(a) && k <= n <= |a.descriptors|
    requires k == n || After(a, registry, k).stopped.Some?
    ensures After(a, registry, n) == After(a, registry, k)
    decreases n - k
  {
    hide Preflight;
    hide Push;
    if k < n {
      StoppedStays(a, registry, k, n - 1);
    }
  }

  /**
    What one turn may do to the registry: nothing, or one write at its own place, which replaces a digest only
    with overwrite on a CONFLICT, or for a chart TARGET never shows.
   */
  lemma TurnWritesOwnCoordinate(a: Import, s: State, k: nat)
    requires Ok(a, s) && k < |a.descriptors|
    ensures var own, after := LandsAt(a.descriptors[k]), Turn(a, s, k).registry;
            && s.registry.Keys <= after.Keys
            && (forall c :: c != own ==> Lookup(after, c) == Lookup(s.registry, c))
            && (Lookup(after, own) != Lookup(s.registry, own) && own in s.registry ==>
                var d := a.descriptors[k];
                ReferenceOk(d) &&
                (RespelledChart(d) ||
                 (a.overwrite && Preflight(d, Lookup(s.registry, own), HistoryDuring(a, s.rows)).Conflict?)))
  {
    if ReferenceOk(a.descriptors[k]) {
      ShownWhereItLands(s.registry, a.descriptors[k]);
    }
    hide PairMatches;
    hide Push;
    hide LandsAt;
    hide Shown;
    hide ReferenceOk;
    hide RespelledChart;
    hide HistoryDuring;
  }

  /** Before its own turn an artifact's coordinate is as it was at the start. */
  lemma {:induction false} UntouchedBefore(a: Import, registry: Registry, c: Coordinate, k: nat)
    requires WellFormed(a) && k <= |a.descriptors|
    requires forall i :: 0 <= i < k ==> LandsAt(a.descriptors[i]) != c
    ensures Lookup(After(a, registry, k).registry, c) == Lookup(registry, c)
  {
    hide Turn;
    hide LandsAt;
    hide Lookup;
    if k > 0 {
      UntouchedBefore(a, registry, c, k - 1);
      TurnWritesOwnCoordinate(a, After(a, registry, k - 1), k - 1);
    }
  }

  /** A row is settled in its own turn. */
  lemma {:induction false} RowAfter(a: Import, registry: Registry, k: nat, n: nat)
    requires WellFormed(a) && k < n <= |a.descriptors|
    ensures After(a, registry, n).rows[k] == After(a, registry, k + 1).rows[k]
    decreases n
  {
    hide Turn;
    if k + 1 < n {
      RowAfter(a, registry, k, n - 1);
      TurnLeavesOthers(a, After(a, registry, n - 1), n - 1);
    }
  }

  /** After its own turn nothing else writes an artifact's place, if no two land on one. */
  lemma {:induction false} UntouchedAfter(a: Import, registry: Registry, k: nat, n: nat)
    requires WellFormed(a) && LandsApart(a.descriptors) && k < n <= |a.descriptors|
    ensures Lookup(After(a, registry, n).registry, LandsAt(a.descriptors[k])) ==
            Lookup(After(a, registry, k + 1).registry, LandsAt(a.descriptors[k]))
    ensures After(a, registry, n).rows[k] == After(a, registry, k + 1).rows[k]
    decreases n
  {
    hide Turn;
    hide LandsAt;
    hide Lookup;
    if k + 1 < n {
      UntouchedAfter(a, registry, k, n - 1);
      TurnWritesOwnCoordinate(a, After(a, registry, n - 1), n - 1);
      TurnLeavesOthers(a, After(a, registry, n - 1), n - 1);
    }
  }

  /** An artifact decides on the TARGET state its coordinate had when the import started. */
  lemma SeesInitialState(a: Import, registry: Registry, k: nat)
    requires WellFormed(a) && LandsApart(a.descriptors) && k < |a.descriptors|
    ensures Lookup(After(a, registry, k).registry, LandsAt(a.descriptors[k])) ==
            Lookup(registry, LandsAt(a.descriptors[k]))
  {
    hide LandsAt;
    UntouchedBefore(a, registry, LandsAt(a.descriptors[k]), k);
  }

  /** A coordinate found in CONFLICT by its own artifact, judged on the initial registry. */
  ghost predicate ConflictsAtStart(a: Import, registry: Registry, k: nat)
    requires WellFormed(a) && k < |a.descriptors|
  {
    Preflight(a.descriptors[k], Lookup(registry, LandsAt(a.descriptors[k])),
              HistoryDuring(a, After(a, registry, k).rows)).Conflict?
  }

  ghost predicate MayChange(a: Import, registry: Registry, c: Coordinate)
    requires WellFormed(a)
  {
    exists k :: 0 <= k < |a.descriptors| && LandsAt(a.descriptors[k]) == c &&
                (RespelledChart(a.descriptors[k]) || (a.overwrite && ConflictsAtStart(a, registry, k)))
  }

  /** A chart with a "+" in its version lands here. */
  predicate RespelledLandsOn(a: Import, c: Coordinate) {
    exists k :: 0 <= k < |a.descriptors| && ReferenceOk(a.descriptors[k]) && RespelledChart(a.descriptors[k]) &&
                LandsAt(a.descriptors[k]) == c
  }

  /** A digest one turn changes is at the turn's own place, with overwrite or for a chart TARGET never shows. */
  lemma TurnMayChange(a: Import, registry: Registry, c: Coordinate, k: nat)
    requires WellFormed(a) && k < |a.descriptors| && c in After(a, registry, k).registry
    ensures c in After(a, registry, k + 1).registry
    ensures After(a, registry, k + 1).registry[c] != After(a, registry, k).registry[c] ==>
              (a.overwrite || RespelledLandsOn(a, c)) && (LandsApart(a.descriptors) ==> MayChange(a, registry, c))
  {
    hide Turn;
    hide LandsAt;
    hide LandsApart;
    hide Preflight;
    hide ReferenceOk;
    hide RespelledChart;
    hide HistoryDuring;
    TurnWritesOwnCoordinate(a, After(a, registry, k), k);
    if LandsApart(a.descriptors) {
      SeesInitialState(a, registry, k);
    }
    assert Lookup(After(a, registry, k + 1).registry, c) != Lookup(After(a, registry, k).registry, c) ==>
        LandsAt(a.descriptors[k]) == c;
  }

  lemma {:induction false} OnlyConflictsChange(a: Import, registry: Registry, c: Coordinate, n: nat)
    requires WellFormed(a) && n <= |a.descriptors| && c in registry
    ensures c in After(a, registry, n).registry
    ensures After(a, registry, n).registry[c] != registry[c] ==> a.overwrite || RespelledLandsOn(a, c)
    ensures After(a, registry, n).registry[c] != registry[c] && LandsApart(a.descriptors) ==> MayChange(a, registry, c)
  {
    if n == 0 {
      hide GateStop;
    } else {
      hide *;
      OnlyConflictsChange(a, registry, c, n - 1);
      TurnMayChange(a, registry, c, n - 1);
    }
  }

  /**
    Default deny. For every bundle, registry and pattern of failures: nothing is ever deleted; without
    overwrite no digest present before the run changes, but where a chart with a "+" in its version lands;
    with overwrite, and no two artifacts landing on one tag, only there and at places whose own artifact found
    a CONFLICT.
   */
  lemma DefaultDeny(a: Import, registry: Registry)
    requires WellFormed(a)
    ensures var final := Final(a, registry).registry;
            && registry.Keys <= final.Keys
            && (!a.overwrite ==> forall c :: c in registry && !RespelledLandsOn(a, c) ==> final[c] == registry[c])
            && (LandsApart(a.descriptors) ==>
                forall c :: c in registry && final[c] != registry[c] ==> MayChange(a, registry, c))
  {
    hide LandsApart;
    hide After;
    hide MayChange;
    hide RespelledLandsOn;
    forall c | c in registry
      ensures c in Final(a, registry).registry
      ensures Final(a, registry).registry[c] != registry[c] ==> a.overwrite || RespelledLandsOn(a, c)
      ensures Final(a, registry).registry[c] != registry[c] && LandsApart(a.descriptors) ==> MayChange(a, registry, c)
    {
      OnlyConflictsChange(a, registry, c, |a.descriptors|);
    }
  }

  /** Every digest present before the run is there after it, when the run meets these circumstances. */
  ghost predicate KeepsUnder(a: Import, registry: Registry, worlds: seq<World>)
    requires |a.sources| == |a.descriptors|
  {
    |worlds| == |a.descriptors| ==>
      var final := Final(a.(worlds := worlds), registry).registry;
      forall c :: c in registry ==> c in final && final[c] == registry[c]
  }

  /** Every inspection before the k-th fails; the k-th push writes; then the run is cancelled. */
  function Reaching(n: nat, k: nat, digest: string): (worlds: seq<World>)
    ensures |worlds| == n
  {
    seq(n, i => World(i > k, if i < k then Fails else Answers, Wrote(digest, false)))
  }

  lemma {:induction false} FailingInspections(a: Import, registry: Registry, k: nat)
    requires WellFormed(a) && k <= |a.descriptors| && GateStop(a.delivery, |a.sources|).None?
    requires forall i :: 0 <= i < k ==> !a.worlds[i].cancelled && a.worlds[i].inspecting.Fails?
    ensures After(a, registry, k).registry == registry && After(a, registry, k).stopped.None?
  {
    hide GateStop;
    hide ReferenceOk;
    hide Preflight;
    hide Push;
    if k > 0 {
      FailingInspections(a, registry, k - 1);
    }
  }

  /** A chart TARGET never shows is pushed whatever is at its tag. */
  lemma UnseenIsPushed(a: Import, s: State, k: nat, digest: string)
    requires Ok(a, s) && k < |a.descriptors| && s.stopped.None?
    requires ReferenceOk(a.descriptors[k]) && RespelledChart(a.descriptors[k])
    requires a.worlds[k] == World(false, Answers, Wrote(digest, false))
    ensures Turn(a, s, k).registry == s.registry[LandsAt(a.descriptors[k]) := digest]
  {
    ShownWhereItLands(s.registry, a.descriptors[k]);
    hide Shown;
    hide ReferenceOk;
    hide LandsAt;
    hide HistoryDuring;
  }

  /** The digests of a state survive the k-th turn in these circumstances. */
  ghost predicate TurnKeeps(a: Import, s: State, k: nat, world: World)
    requires Ok(a, s) && k < |a.descriptors|
  {
    var after := Turn(a.(worlds := a.worlds[k := world]), s, k).registry;
    forall c :: c in s.registry ==> c in after && after[c] == s.registry[c]
  }

  /** The same for one turn: digests the run itself put there included. */
  lemma TurnDeniesIff(a: Import, s: State, k: nat)
    requires Ok(a, s) && k < |a.descriptors| && s.stopped.None? && !a.overwrite
    ensures (forall world: World :: TurnKeeps(a, s, k, world)) <==>
            !(&& ReferenceOk(a.descriptors[k]) && RespelledChart(a.descriptors[k])
              && LandsAt(a.descriptors[k]) in s.registry)
  {
    var d, own := a.descriptors[k], LandsAt(a.descriptors[k]);
    if ReferenceOk(d) && RespelledChart(d) && own in s.registry {
      var world := World(false, Answers, Wrote(s.registry[own] + "x", false));
      UnseenIsPushed(a.(worlds := a.worlds[k := world]), s, k, s.registry[own] + "x");
      hide Turn;
      assert !TurnKeeps(a, s, k, world);
    } else {
      hide Turn;
      hide LandsAt;
      hide ReferenceOk;
      hide RespelledChart;
      forall world: World
        ensures TurnKeeps(a, s, k, world)
      {
        TurnWritesOwnCoordinate(a.(worlds := a.worlds[k := world]), s, k);
      }
    }
  }

  lemma CancelledStops(a: Import, s: State, k: nat)
    requires Ok(a, s) && k < |a.descriptors| && a.worlds[k].cancelled
    ensures Turn(a, s, k).registry == s.registry && Turn(a, s, k).stopped.Some?
  {
    hide Preflight;
    hide Push;
  }

  /** Where a chart with a "+" lands on a digest present, some run without overwrite replaces it. */
  lemma RespelledReplaces(a: Import, registry: Registry, k: nat)
    requires |a.sources| == |a.descriptors| && GateStop(a.delivery, |a.sources|).None? && k < |a.descriptors|
    requires ReferenceOk(a.descriptors[k]) && RespelledChart(a.descriptors[k]) && LandsAt(a.descriptors[k]) in registry
    ensures exists worlds: seq<World> :: !KeepsUnder(a, registry, worlds)
  {
    var n, c := |a.descriptors|, LandsAt(a.descriptors[k]);
    var digest := registry[c] + "x";
    var worlds := Reaching(n, k, digest);
    var b := a.(worlds := worlds);
    hide LandsAt;
    hide GateStop;
    hide Turn;
    FailingInspections(b, registry, k);
    UnseenIsPushed(b, After(b, registry, k), k, digest);
    AfterSteps(b, registry);
    hide After;
    assert After(b, registry, k + 1).registry[c] == digest != registry[c];
    if k + 1 < n {
      CancelledStops(b, After(b, registry, k + 1), k + 1);
      StoppedStays(b, registry, k + 2, n);
    }
    assert Final(b, registry).registry[c] != registry[c];
    assert !KeepsUnder(a, registry, worlds);
  }

  /**
    The exact condition of default deny: without overwrite no circumstances can change a digest present before
    the run, if and only if the bundle is not opened or no chart with a "+" in its version lands on one.
   */
  lemma DefaultDenyIff(a: Import, registry: Registry)
    requires WellFormed(a) && !a.overwrite
    ensures (forall worlds: seq<World> :: KeepsUnder(a, registry, worlds)) <==>
            (GateStop(a.delivery, |a.sources|).Some? || forall c :: c in registry ==> !RespelledLandsOn(a, c))
  {
    if GateStop(a.delivery, |a.sources|).Some? || forall c :: c in registry ==> !RespelledLandsOn(a, c) {
      forall worlds: seq<World>
        ensures KeepsUnder(a, registry, worlds)
      {
        KeptWhenUnopenedOrPlain(a, registry, worlds);
      }
    } else {
      var c :| c in registry && RespelledLandsOn(a, c);
      var k :| 0 <= k < |a.descriptors| && ReferenceOk(a.descriptors[k]) && RespelledChart(a.descriptors[k]) &&
               LandsAt(a.descriptors[k]) == c;
      hide *;
      RespelledReplaces(a, registry, k);
    }
  }

  lemma KeptWhenUnopenedOrPlain(a: Import, registry: Registry, worlds: seq<World>)
    requires |a.sources| == |a.descriptors| && !a.overwrite
    requires GateStop(a.delivery, |a.sources|).Some? || forall c :: c in registry ==> !RespelledLandsOn(a, c)
    ensures KeepsUnder(a, registry, worlds)
  {
    var b := a.(worlds := worlds);
    if |worlds| == |a.descriptors| {
      assert forall c :: RespelledLandsOn(b, c) ==> RespelledLandsOn(a, c) by {
        hide ReferenceOk;
        hide RespelledChart;
        hide LandsAt;
      }
      hide Final;
      hide RespelledLandsOn;
      DefaultDeny(b, registry);
      if GateStop(a.delivery, |a.sources|).Some? {
        MutationNeedsPreviewedBundle(b, registry);
        GateExplains(a.delivery, |a.sources|);
      }
      hide GateStop;
    }
  }

  /** The stored archive hashes to what the operation and its preview recorded. */
  predicate HashesAsRecorded(d: Delivery) {
    d.stateLoads && d.hashing == Hashed(d.previewSha) && d.operationSha == d.previewSha
  }

  /** The gate opens exactly for the archive its preview recorded; otherwise the stop says why. */
  lemma GateExplains(d: Delivery, rows: nat)
    ensures GateStop(d, rows).None? <==>
            && d.stateLoads && d.hashing == Hashed(d.previewSha) && d.operationSha == d.previewSha
            && d.verification == Passed(d.previewSha, d.previewDelivery, rows, true)
    ensures GateStop(d, rows) == Some(CancelRequested) <==>
            d.stateLoads && (d.hashing == HashingBroken(true) ||
                             (HashesAsRecorded(d) && d.verification == VerificationBroken(true)))
    ensures GateStop(d, rows) == Some(WorkerFailed) <==>
            !d.stateLoads || d.hashing == HashingBroken(false) ||
            (HashesAsRecorded(d) && d.verification == VerificationBroken(false))
    ensures GateStop(d, rows) == Some(NotOpened(VerificationRefused)) <==>
            HashesAsRecorded(d) && d.verification == BundleRefused
    ensures GateStop(d, rows) == Some(NotOpened(ExtractFailed)) <==>
            HashesAsRecorded(d) && exists n ::
              d.verification == Passed(d.previewSha, d.previewDelivery, n, false)
    ensures GateStop(d, rows) == Some(NotOpened(ArtifactsChanged)) <==>
            HashesAsRecorded(d) && exists n ::
              n != rows && d.verification == Passed(d.previewSha, d.previewDelivery, n, true)
  {
  }

  /** Coordinates outside the plan are exactly as before. */
  lemma OutsidePlanUntouched(a: Import, registry: Registry, c: Coordinate)
    requires WellFormed(a) && forall i :: 0 <= i < |a.descriptors| ==> LandsAt(a.descriptors[i]) != c
    ensures Lookup(Final(a, registry).registry, c) == Lookup(registry, c)
  {
    hide LandsAt;
    hide After;
    hide Lookup;
    UntouchedBefore(a, registry, c, |a.descriptors|);
  }

  ghost predicate Settled(r: Row) {
    r.status.Verified? || r.status.Skipped? || r.status.ArtifactFailed? || r.status.Conflict?
  }

  /** Rows that count as failures, among the first n. */
  function FailureCount(rows: seq<Row>): nat {
    if rows == [] then 0
    else FailureCount(rows[..|rows| - 1]) + if CountsAsFailure(rows[|rows| - 1]) then 1 else 0
  }

  /** The books after n turns that were not stopped. */
  ghost predicate Balanced(a: Import, s: State, n: nat)
    requires Ok(a, s) && n <= |s.rows|
  {
    && s.progress == n && s.failures == FailureCount(s.rows[..n])
    && (forall i :: 0 <= i < n ==> Settled(s.rows[i]))
    && forall i :: n <= i < |s.rows| ==> s.rows[i].status.Pending?
  }

  lemma TurnSettles(a: Import, s: State, k: nat)
    requires Ok(a, s) && k < |a.descriptors| && s.stopped.None?
    ensures Turn(a, s, k).stopped.None? ==>
              && Settled(Turn(a, s, k).rows[k]) && Turn(a, s, k).progress == k + 1
              && Turn(a, s, k).failures == s.failures + if CountsAsFailure(Turn(a, s, k).rows[k]) then 1 else 0
  {
    hide PairMatches;
    hide HistoryDuring;
  }

  lemma BalanceOneMore(a: Import, s: State, k: nat)
    requires Ok(a, s) && k < |a.descriptors| && s.stopped.None? && Balanced(a, s, k)
    ensures Turn(a, s, k).stopped.None? ==> Balanced(a, Turn(a, s, k), k + 1)
  {
    TurnSettles(a, s, k);
    TurnLeavesOthers(a, s, k);
    hide Turn;
    hide Settled;
    hide CountsAsFailure;
    var t := Turn(a, s, k);
    assert t.rows[..k + 1][..k] == s.rows[..k];
    assert t.rows[..k + 1][k] == t.rows[k];
  }

  lemma {:induction false} BooksBalance(a: Import, registry: Registry, n: nat)
    requires WellFormed(a) && n <= |a.descriptors| && After(a, registry, n).stopped.None?
    ensures Balanced(a, After(a, registry, n), n)
  {
    if n == 0 {
      hide GateStop;
    } else {
      hide *;
      AfterSteps(a, registry);
      StoppedEarlier(a, registry, n);
      BooksBalance(a, registry, n - 1);
      BalanceOneMore(a, After(a, registry, n - 1), n - 1);
    }
  }

  lemma StoppedEarlier(a: Import, registry: Registry, n: nat)
    requires WellFormed(a) && 0 < n <= |a.descriptors| && After(a, registry, n).stopped.None?
    ensures After(a, registry, n - 1).stopped.None?
  {
    hide Preflight;
    hide Push;
  }

  /**
    Import accounting: a run that was not stopped has settled every row, counted exactly the FAILED and
    CONFLICT rows, and reported all its progress; it is COMPLETED exactly when that count is zero and the
    receipt was stored.
   */
  lemma Accounting(a: Import, registry: Registry)
    requires WellFormed(a) && Final(a, registry).stopped.None?
    ensures var s := Final(a, registry);
            && s.progress == |s.rows| && s.failures == FailureCount(s.rows)
            && (forall i :: 0 <= i < |s.rows| ==> Settled(s.rows[i]))
            && (FinalStatus(a, s).Completed? <==>
                a.receiptWritable && forall i :: 0 <= i < |s.rows| ==>
                  s.rows[i].status.Verified? || s.rows[i].status.Skipped?)
  {
    var s := Final(a, registry);
    hide Turn;
    BooksBalance(a, registry, |a.descriptors|);
    assert s.rows[..|s.rows|] == s.rows;
    NoFailures(s.rows);
  }

  lemma {:induction false} NoFailures(rows: seq<Row>)
    ensures FailureCount(rows) == 0 <==> forall i :: 0 <= i < |rows| ==> !CountsAsFailure(rows[i])
  {
    if rows != [] {
      var n := |rows| - 1;
      NoFailures(rows[..n]);
      assert rows == rows[..n] + [rows[n]];
    }
  }

  /** Every run, stopped or not, moves legally and strictly forward and ends in a terminal status. */
  lemma RunsForward(a: Import, s: State)
    ensures OperationStates.LegalRun(OperationStates.Import, Trace(a, s))
    ensures FinalStatus(a, s) in OperationStates.TERMINAL_STATES
    ensures forall i, j :: 0 <= i < j < |Trace(a, s)| ==>
              OperationStates.Rank(OperationStates.Import, Trace(a, s)[i]) <
              OperationStates.Rank(OperationStates.Import, Trace(a, s)[j])
  {
    var trace := Trace(a, s);
    TraceShape(a, s);
    hide Trace;
    hide FinalStatus;
    assert OperationStates.LegalRun(OperationStates.Import, trace);
    forall i, j | 0 <= i < j < |trace|
      ensures OperationStates.Rank(OperationStates.Import, trace[i]) <
              OperationStates.Rank(OperationStates.Import, trace[j])
    {
      OperationStates.RankRises(OperationStates.Import, trace, i, j);
    }
  }

  /** A VERIFIED or plainly SKIPPED row tells the truth about its coordinate right after its turn. */
  lemma TurnTellsTheTruth(a: Import, s: State, k: nat)
    requires Ok(a, s) && k < |a.descriptors| && s.rows[k].status.Pending?
    ensures var r, d := Turn(a, s, k), a.descriptors[k];
            && (r.rows[k].status.Verified? || r.rows[k].status.Skipped? ==>
                r.rows[k].targetDigest.Some? && Lookup(r.registry, LandsAt(d)) == r.rows[k].targetDigest)
            && (d.ContainerImage? &&
                (r.rows[k].status.Verified? || (r.rows[k].status.Skipped? && r.rows[k].error.None?)) ==>
                r.rows[k].targetDigest == SourceDigest(d))
            && (r.rows[k].status.Verified? || r.rows[k].status.Skipped? ==> ReferenceOk(d) && !RespelledChart(d))
  {
    var d, world := a.descriptors[k], a.worlds[k];
    if ReferenceOk(d) {
      ShownWhereItLands(s.registry, d);
      if world.push.Wrote? {
        ShownWhereItLands(s.registry[LandsAt(d) := world.push.digest], d);
      }
    }
    hide PairMatches;
    hide HistoryDuring;
    hide LandsAt;
    hide Shown;
    hide ReferenceOk;
    hide RespelledChart;
  }

  lemma {:induction false} PendingUntilTurn(a: Import, registry: Registry, k: nat)
    requires WellFormed(a) && k < |a.descriptors|
    ensures forall i :: k <= i < |a.descriptors| ==> After(a, registry, k).rows[i].status.Pending?
  {
    hide Turn;
    if k > 0 {
      PendingUntilTurn(a, registry, k - 1);
      TurnLeavesOthers(a, After(a, registry, k - 1), k - 1);
    }
  }

  /**
    What the rows say at the end is what the registry holds at the end: the recorded digest, and for an
    image that was imported or found in place, the signed source digest.
   */
  lemma RowsMatchRegistry(a: Import, registry: Registry, k: nat)
    requires WellFormed(a) && LandsApart(a.descriptors) && k < |a.descriptors|
    ensures var s, d := Final(a, registry), a.descriptors[k];
            && (s.rows[k].status.Verified? || s.rows[k].status.Skipped? ==>
                s.rows[k].targetDigest.Some? && Lookup(s.registry, LandsAt(d)) == s.rows[k].targetDigest)
            && (d.ContainerImage? &&
                (s.rows[k].status.Verified? || (s.rows[k].status.Skipped? && s.rows[k].error.None?)) ==>
                s.rows[k].targetDigest == SourceDigest(d))
            && (s.rows[k].status.Verified? || s.rows[k].status.Skipped? ==> ReferenceOk(d) && !RespelledChart(d))
  {
    hide Turn;
    hide LandsAt;
    hide Lookup;
    hide ReferenceOk;
    hide RespelledChart;
    PendingUntilTurn(a, registry, k);
    TurnTellsTheTruth(a, After(a, registry, k), k);
    UntouchedAfter(a, registry, k, |a.descriptors|);
  }

  /** How an image ends in a run that was not stopped, from what TARGET held at its place before the run. */
  ghost predicate ImageEndsByRule(a: Import, registry: Registry, k: nat, s: State)
    requires Ok(a, s) && k < |a.descriptors| && a.descriptors[k].ContainerImage?
  {
    var d, world, row := a.descriptors[k], a.worlds[k], s.rows[k];
    var there, place := Lookup(registry, LandsAt(d)), Lookup(s.registry, LandsAt(d));
    if !ReferenceOk(d) || world.inspecting == Fails then
      row == Row(OperationStates.ArtifactFailed, None, Some(TargetInspectionFailed)) && place == there
    else if there == Some(d.imageDigest) then
      row == Row(OperationStates.Skipped, there, None) && place == there
    else if there.Some? && !a.overwrite && a.skipConflicts then
      row == Row(OperationStates.Skipped, there, Some(ConflictSkipped)) && place == there
    else if there.Some? && !a.overwrite then
      row == Row(OperationStates.Conflict, there, None) && place == there
    else if world.push == Wrote(d.imageDigest, true) then
      row == Row(OperationStates.Verified, Some(d.imageDigest), None) && place == Some(d.imageDigest)
    else
      && row == Row(OperationStates.ArtifactFailed, None, Some(PushFailed))
      && place == if world.push.Wrote? then Some(world.push.digest) else there
  }

  /** A turn that goes on leaves the image as the rule says, seen from the turn's own start. */
  lemma ImageTurnByRule(a: Import, before: State, k: nat, after: State)
    requires Ok(a, before) && Ok(a, after) && k < |a.descriptors| && a.descriptors[k].ContainerImage?
    requires TurnByRule(a, before, k, after) && after.stopped.None?
    ensures ImageEndsByRule(a, before.registry, k, after)
  {
    hide LandsAt;
    hide ReferenceOk;
    hide HistoryDuring;
    hide OnlyOwn;
  }

  /** The rule speaks of the image's own row and place alone. */
  lemma SameRowSamePlace(a: Import, start: Registry, later: Registry, k: nat, s: State, t: State)
    requires Ok(a, s) && Ok(a, t) && k < |a.descriptors| && a.descriptors[k].ContainerImage?
    requires ImageEndsByRule(a, later, k, s)
    requires Lookup(start, LandsAt(a.descriptors[k])) == Lookup(later, LandsAt(a.descriptors[k]))
    requires t.rows[k] == s.rows[k]
    requires Lookup(t.registry, LandsAt(a.descriptors[k])) == Lookup(s.registry, LandsAt(a.descriptors[k]))
    ensures ImageEndsByRule(a, start, k, t)
  {
    hide LandsAt;
    hide Lookup;
    hide ReferenceOk;
  }

  /**
    The conflict policy, over a whole run: where the registry holds another digest than the signed one, the
    image ends CONFLICT, or SKIPPED if conflicts are to be skipped, and the digest stays; with overwrite, or
    where nothing was there, it ends VERIFIED exactly if the push wrote the signed digest and saw it confirmed.
   */
  lemma ImageEnds(a: Import, registry: Registry, k: nat)
    requires WellFormed(a) && LandsApart(a.descriptors) && k < |a.descriptors| && a.descriptors[k].ContainerImage?
    requires Final(a, registry).stopped.None?
    ensures ImageEndsByRule(a, registry, k, Final(a, registry))
  {
    hide *;
    FinalIsLast(a, registry);
    AfterSteps(a, registry);
    NeverStopped(a, registry, k);
    NeverStopped(a, registry, k + 1);
    TurnFollowsRules(a, After(a, registry, k), k);
    ImageTurnByRule(a, After(a, registry, k), k, After(a, registry, k + 1));
    SeesInitialState(a, registry, k);
    UntouchedAfter(a, registry, k, |a.descriptors|);
    SameRowSamePlace(a, registry, After(a, registry, k).registry, k, After(a, registry, k + 1), Final(a, registry));
  }

  lemma NeverStopped(a: Import, registry: Registry, k: nat)
    requires WellFormed(a) && k <= |a.descriptors| && Final(a, registry).stopped.None?
    ensures After(a, registry, k).stopped.None?
  {
    hide *;
    FinalIsLast(a, registry);
    if After(a, registry, k).stopped.Some? {
      StoppedStays(a, registry, k, |a.descriptors|);
    }
  }

  /** What has to hold of an image for its import to succeed. */
  predicate ImageSucceeds(a: Import, registry: Registry, k: nat)
    requires WellFormed(a) && k < |a.descriptors| && a.descriptors[k].ContainerImage?
  {
    var d := a.descriptors[k];
    var there := Lookup(registry, LandsAt(d));
    && ReferenceOk(d) && a.worlds[k].inspecting != Fails
    && (|| there == Some(d.imageDigest)
        || (there.Some? && !a.overwrite && a.skipConflicts)
        || ((there.None? || a.overwrite) && a.worlds[k].push == Wrote(d.imageDigest, true)))
  }

  /**
    An import of images that was not stopped is COMPLETED exactly if its receipt was stored and every image was
    there already, or in conflict with conflicts to be skipped, or pushed where nothing or overwrite stood in
    the way and then confirmed; otherwise it is FAILED.
   */
  lemma ImagesCompleteIff(a: Import, registry: Registry)
    requires WellFormed(a) && LandsApart(a.descriptors)
    requires forall k :: 0 <= k < |a.descriptors| ==> a.descriptors[k].ContainerImage?
    requires Final(a, registry).stopped.None?
    ensures FinalStatus(a, Final(a, registry)).Completed? <==>
            a.receiptWritable && forall k :: 0 <= k < |a.descriptors| ==> ImageSucceeds(a, registry, k)
    ensures !FinalStatus(a, Final(a, registry)).Completed? ==> FinalStatus(a, Final(a, registry)).Failed?
  {
    var s := Final(a, registry);
    hide Final;
    hide LandsApart;
    hide ImageSucceeds;
    Accounting(a, registry);
    forall k | 0 <= k < |a.descriptors|
      ensures ImageSucceeds(a, registry, k) <==> s.rows[k].status.Verified? || s.rows[k].status.Skipped?
    {
      ImageEnds(a, registry, k);
      SuccessIsRow(a, registry, k, s);
    }
  }

  lemma SuccessIsRow(a: Import, registry: Registry, k: nat, s: State)
    requires Ok(a, s) && k < |a.descriptors| && a.descriptors[k].ContainerImage?
    requires ImageEndsByRule(a, registry, k, s)
    ensures ImageSucceeds(a, registry, k) <==> s.rows[k].status.Verified? || s.rows[k].status.Skipped?
  {
    hide LandsAt;
    hide Lookup;
    hide ReferenceOk;
  }

  /** A conflict nobody decided about fails the run. */
  lemma ConflictFailsRun(a: Import, registry: Registry, k: nat)
    requires WellFormed(a) && LandsApart(a.descriptors) && k < |a.descriptors| && a.descriptors[k].ContainerImage?
    requires !a.overwrite && !a.skipConflicts && LandsAt(a.descriptors[k]) in registry
    requires registry[LandsAt(a.descriptors[k])] != a.descriptors[k].imageDigest
    requires Final(a, registry).stopped.None?
    ensures FinalStatus(a, Final(a, registry)).Failed?
    ensures Final(a, registry).rows[k].status.Conflict? || Final(a, registry).rows[k].status.ArtifactFailed?
    ensures Final(a, registry).failures > 0
  {
    var s := Final(a, registry);
    hide Final;
    hide LandsApart;
    hide LandsAt;
    hide ReferenceOk;
    Accounting(a, registry);
    ImageEnds(a, registry, k);
    NoFailures(s.rows);
  }

  /** A chart with a "+" in its version is never VERIFIED, nor SKIPPED: its row ends PENDING or FAILED. */
  lemma RespelledNeverVerified(a: Import, registry: Registry, k: nat)
    requires WellFormed(a) && k < |a.descriptors| && RespelledChart(a.descriptors[k])
    ensures var status := Final(a, registry).rows[k].status;
            status.Pending? || status.ArtifactFailed?
  {
    var s := After(a, registry, k);
    PendingUntilTurn(a, registry, k);
    RowAfter(a, registry, k, |a.descriptors|);
    AfterSteps(a, registry);
    if ReferenceOk(a.descriptors[k]) {
      ShownWhereItLands(s.registry, a.descriptors[k]);
      if a.worlds[k].push.Wrote? {
        ShownWhereItLands(s.registry[LandsAt(a.descriptors[k]) := a.worlds[k].push.digest], a.descriptors[k]);
      }
    }
    hide After;
    hide Shown;
    hide ReferenceOk;
    hide LandsAt;
    hide HistoryDuring;
    hide PairMatches;
  }

  /** So no import of a bundle with such a chart ever completes. */
  lemma RespelledNeverCompletes(a: Import, registry: Registry, k: nat)
    requires WellFormed(a) && k < |a.descriptors| && RespelledChart(a.descriptors[k])
    ensures !FinalStatus(a, Final(a, registry)).Completed?
  {
    RespelledNeverVerified(a, registry, k);
    hide Final;
    if Final(a, registry).stopped.None? {
      Accounting(a, registry);
    }
  }

  /** The turn comes to a push. */
  predicate Pushes(a: Import, s: State, k: nat)
    requires Ok(a, s) && k < |a.descriptors|
  {
    var d := a.descriptors[k];
    && ReferenceOk(d) && a.worlds[k].inspecting.Answers?
    && Unpushed(a, Preflight(d, Shown(s.registry, d), HistoryDuring(a, s.rows)), Shown(s.registry, d)).None?
  }

  /** What ends the worker at an artifact: a cancellation, or an error the loop does not catch. */
  predicate Ends(a: Import, s: State, k: nat)
    requires Ok(a, s) && k < |a.descriptors|
  {
    var world := a.worlds[k];
    || world.cancelled
    || (ReferenceOk(a.descriptors[k]) && world.inspecting.Escapes?)
    || (Pushes(a, s, k) && world.push.Aborted?)
  }

  /** The loop goes on after an artifact exactly if nothing ended it there; an inspection that does leaves the row. */
  lemma TurnGoesOnIff(a: Import, s: State, k: nat)
    requires Ok(a, s) && k < |a.descriptors| && s.stopped.None?
    ensures Turn(a, s, k).stopped.None? <==> !Ends(a, s, k)
    ensures !a.worlds[k].cancelled && ReferenceOk(a.descriptors[k]) && a.worlds[k].inspecting.Escapes? ==>
              Turn(a, s, k) == s.(stopped := Some(Interruption(a.worlds[k].inspecting.byCancel)))
  {
    hide PairMatches;
    hide HistoryDuring;
    hide Shown;
    hide ReferenceOk;
    hide LandsAt;
  }

  lemma {:induction false} GoesOnUpTo(a: Import, registry: Registry, n: nat)
    requires WellFormed(a) && n <= |a.descriptors|
    ensures After(a, registry, n).stopped.None? <==>
            && GateStop(a.delivery, |a.sources|).None?
            && forall k :: 0 <= k < n ==> !Ends(a, After(a, registry, k), k)
  {
    AfterSteps(a, registry);
    if n > 0 {
      GoesOnUpTo(a, registry, n - 1);
      if After(a, registry, n - 1).stopped.None? {
        TurnGoesOnIff(a, After(a, registry, n - 1), n - 1);
      } else {
        StoppedStays(a, registry, n - 1, n);
      }
    }
    hide *;
  }

  /**
    Continue on error, exactly: the loop reaches its end if and only if the bundle was opened and no artifact
    met a cancellation, an escaping inspection or an aborted push.
   */
  lemma RunGoesOnIff(a: Import, registry: Registry)
    requires WellFormed(a)
    ensures Final(a, registry).stopped.None? <==>
            && GateStop(a.delivery, |a.sources|).None?
            && forall k :: 0 <= k < |a.descriptors| ==> !Ends(a, After(a, registry, k), k)
  {
    GoesOnUpTo(a, registry, |a.descriptors|);
    hide After;
    hide Ends;
    hide GateStop;
  }

  /** What a finished run leaves for later queries: its rows and its receipt. */
  function Recorded(a: Import, s: State): PastOperation
    requires Ok(a, s)
  {
    PastOperation(OwnRows(a, s.rows), Some(ReceiptOf(a, s.rows)))
  }

  /** The second run: same bundle and plan, the first run among its history, registry left alone between. */
  ghost predicate Replays(a: Import, first: State, b: Import)
    requires Ok(a, first)
  {
    && WellFormed(b) && b.descriptors == a.descriptors && b.sources == a.sources
    && Recorded(a, first) in b.history
  }

  lemma RecordedPairMatches(a: Import, first: State, history: seq<PastOperation>, k: nat)
    requires Ok(a, first) && k < |a.descriptors| && Recorded(a, first) in history
    requires a.descriptors[k].HelmChart? && first.rows[k].status.Verified?
    requires SourceDigest(a.descriptors[k]).Some? && first.rows[k].targetDigest.Some?
    ensures var d := a.descriptors[k];
            PairMatches(
              history, d.repository, d.name, d.version, SourceDigest(d).value, first.rows[k].targetDigest.value)
  {
    var d, past := a.descriptors[k], Recorded(a, first);
    var source, target := SourceDigest(d).value, first.rows[k].targetDigest.value;
    var i :| 0 <= i < |history| && history[i] == past;
    assert past.receipt.value[k].targetRepository == d.repository;
    assert Candidate(past.receipt.value[k].row, d.name, d.version, source, target);
    assert ReceiptNames(past.receipt.value, past.rows[k].repository, d.repository, d.name, d.version, source, target);
    assert Authorises(history[i], k, d.repository, d.name, d.version, source, target);
  }

  /** The classification a replay gives an artifact the first run VERIFIED. */
  lemma ReplayClassifies(a: Import, registry: Registry, b: Import, k: nat, rows: seq<Row>)
    requires WellFormed(a) && LandsApart(a.descriptors) && k < |a.descriptors|
    requires Replays(a, Final(a, registry), b) && |rows| == |a.descriptors|
    requires Final(a, registry).rows[k].status.Verified?
    ensures var d, first := a.descriptors[k], Final(a, registry);
            Preflight(d, Shown(first.registry, d), HistoryDuring(b, rows)) ==
            if SourceDigest(d).Some? then Same else Unknown
  {
    RowsMatchRegistry(a, registry, k);
    ShownWhereItLands(Final(a, registry).registry, a.descriptors[k]);
    hide After;
    hide LandsAt;
    hide Shown;
    hide ReferenceOk;
    hide RespelledChart;
    var d, first := a.descriptors[k], Final(a, registry);
    hide Final;
    var i :| 0 <= i < |b.history| && b.history[i] == Recorded(a, first);
    assert HistoryDuring(b, rows)[i] == Recorded(a, first);
    if d.HelmChart? && SourceDigest(d).Some? {
      RecordedPairMatches(a, first, HistoryDuring(b, rows), k);
    }
    hide HistoryDuring;
    hide PairMatches;
  }

  /**
    Replay converges: rerunning the same bundle and plan, an artifact the first run VERIFIED keeps its
    coordinate, and once its turn is over it is SKIPPED, unless its inspection fails or its manifest carries
    no source digest; then it is FAILED. This covers charts whose TARGET digest is not the source digest.
   */
  lemma ReplayConverges(a: Import, registry: Registry, b: Import, k: nat)
    requires WellFormed(a) && LandsApart(a.descriptors) && k < |a.descriptors|
    requires Replays(a, Final(a, registry), b)
    requires Final(a, registry).rows[k].status.Verified?
    ensures var d, first, second := a.descriptors[k], Final(a, registry), Final(b, Final(a, registry).registry);
            && Lookup(second.registry, LandsAt(d)) == Lookup(first.registry, LandsAt(d))
            && (k < second.progress ==>
                second.rows[k] ==
                (if b.worlds[k].inspecting.Fails? then Failure(TargetInspectionFailed)
                 else if SourceDigest(d).Some? then Row(OperationStates.Skipped, first.rows[k].targetDigest, None)
                 else Failure(StateUnresolved)))
  {
    var d, left := a.descriptors[k], Final(a, registry).registry;
    var before := After(b, left, k);
    SeesInitialState(b, left, k);
    ReplayClassifies(a, registry, b, k, before.rows);
    RowsMatchRegistry(a, registry, k);
    UntouchedAfter(b, left, k, |b.descriptors|);
    StopKeepsProgress(b, left, k);
    ShownWhereItLands(left, d);
    ShownWhereItLands(before.registry, d);
    assert Shown(before.registry, d) == Shown(left, d);
    DecidedWithoutPush(b, before, k);
    hide Turn;
    hide LandsAt;
    hide Shown;
    hide ReferenceOk;
    hide RespelledChart;
    hide Preflight;
    hide Lookup;
    hide HistoryDuring;
    hide Unpushed;
    assert After(b, left, k + 1) == Turn(b, before, k);
  }

  /** A stopped run reports no progress past the artifact it stopped at. */
  lemma {:induction false} ProgressIsTurns(a: Import, registry: Registry, n: nat)
    requires WellFormed(a) && n <= |a.descriptors|
    ensures After(a, registry, n).progress <= n
    ensures After(a, registry, n).stopped.None? ==> After(a, registry, n).progress == n
    ensures After(a, registry, n).stopped.Some? && n > 0 ==> After(a, registry, n).progress < n
  {
    hide PairMatches;
    hide HistoryDuring;
    hide Push;
    if n > 0 {
      ProgressIsTurns(a, registry, n - 1);
    }
  }

  lemma StopKeepsProgress(a: Import, registry: Registry, k: nat)
    requires WellFormed(a) && k < |a.descriptors|
    ensures k < Final(a, registry).progress ==>
              After(a, registry, k).stopped.None? && After(a, registry, k + 1).stopped.None?
  {
    ProgressIsTurns(a, registry, k);
    ProgressIsTurns(a, registry, k + 1);
    hide Preflight;
    hide Push;
    assert After(a, registry, k).stopped.Some? ==> After(a, registry, k + 1).stopped.Some?;
    hide Turn;
    if After(a, registry, k + 1).stopped.Some? {
      StoppedStays(a, registry, k + 1, |a.descriptors|);
    }
  }

  /** An artifact found SAME or unresolvable is settled without touching the registry. */
  lemma DecidedWithoutPush(a: Import, s: State, k: nat)
    requires Ok(a, s) && k < |a.descriptors|
    requires var d := a.descriptors[k];
             var c := Preflight(d, Shown(s.registry, d), HistoryDuring(a, s.rows));
             c.Same? || c.Unknown?
    ensures Turn(a, s, k).registry == s.registry
    ensures s.stopped.None? && Turn(a, s, k).stopped.None? ==>
              var d := a.descriptors[k];
              var seen := Shown(s.registry, d);
              Turn(a, s, k).rows[k] ==
              if !ReferenceOk(d) || a.worlds[k].inspecting.Fails? then Failure(TargetInspectionFailed)
              else if Preflight(d, seen, HistoryDuring(a, s.rows)).Same? then Row(OperationStates.Skipped, seen, None)
              else Failure(StateUnresolved)
  {
    hide Preflight;
    hide HistoryDuring;
    hide LandsAt;
    hide Shown;
    hide ReferenceOk;
  }

  /** The row of a verified chart of this name and version, from this source digest to this target digest. */
  ghost predicate VerifiedPair(r: HistoryRow, name: string, version: string, source: string, target: string) {
    && r.chart && r.name == name && r.version == version && r.status == OperationStates.Verified
    && r.sourceDigest == Some(source) && r.targetDigest == Some(target)
  }

  /** A verified row whose own repository is the target, or whose receipt lists it, verified, under the target. */
  ghost predicate KnownAt(
    op: PastOperation, row: HistoryRow, repository: string, name: string, version: string, source: string,
    target: string)
  {
    && row in op.rows && VerifiedPair(row, name, version, source, target)
    && (|| row.repository == repository
        || (op.receipt.Some? &&
            exists item :: item in op.receipt.value && item.targetRepository == repository &&
                           item.row.repository == row.repository &&
                           VerifiedPair(item.row, name, version, source, target)))
  }

  lemma AuthorisesMeans(
    op: PastOperation, j: nat, repository: string, name: string, version: string, source: string, target: string)
    requires j < |op.rows|
    ensures Authorises(op, j, repository, name, version, source, target) <==>
            KnownAt(op, op.rows[j], repository, name, version, source, target)
  {
    assert forall r :: Candidate(r, name, version, source, target) <==> VerifiedPair(r, name, version, source, target);
    hide Candidate;
    hide VerifiedPair;
  }

  /** A digest pair is known for a target exactly if some past operation knows it there. */
  lemma PairMatchesMeans(
    history: seq<PastOperation>, repository: string, name: string, version: string, source: string, target: string)
    ensures PairMatches(history, repository, name, version, source, target) <==>
            exists op, row :: op in history && KnownAt(op, row, repository, name, version, source, target)
  {
    forall i, j | 0 <= i < |history| && 0 <= j < |history[i].rows| {
      AuthorisesMeans(history[i], j, repository, name, version, source, target);
    }
    hide Authorises;
    if op, row :| op in history && KnownAt(op, row, repository, name, version, source, target) {
      var i :| 0 <= i < |history| && history[i] == op;
      var j :| 0 <= j < |op.rows| && op.rows[j] == row;
      assert Authorises(history[i], j, repository, name, version, source, target);
    }
    hide KnownAt;
  }

  /** Some receipt says the pair was verified at this very target. */
  predicate VerifiedHere(
    history: seq<PastOperation>, repository: string, name: string, version: string, source: string, target: string)
  {
    exists i, m :: 0 <= i < |history| && history[i].receipt.Some? && 0 <= m < |history[i].receipt.value| &&
                   Candidate(history[i].receipt.value[m].row, name, version, source, target) &&
                   history[i].receipt.value[m].targetRepository == repository
  }

  /** A verified row whose SOURCE repository is spelled like the target asked about. */
  predicate NamedLikeTarget(
    history: seq<PastOperation>, repository: string, name: string, version: string, source: string, target: string)
  {
    exists i, j :: 0 <= i < |history| && 0 <= j < |history[i].rows| &&
                   Candidate(history[i].rows[j], name, version, source, target) &&
                   history[i].rows[j].repository == repository
  }

  /**
    The documented rule, "a pair from another project cannot authorize replay", holds for a history exactly
    when no verified row is named like the target, unless the pair was verified at the target as well.
   */
  lemma PairBoundToTargetIff(
    history: seq<PastOperation>, repository: string, name: string, version: string, source: string, target: string)
    ensures (PairMatches(history, repository, name, version, source, target) ==>
             VerifiedHere(history, repository, name, version, source, target)) <==>
            (NamedLikeTarget(history, repository, name, version, source, target) ==>
             VerifiedHere(history, repository, name, version, source, target))
  {
    hide Candidate;
    if PairMatches(history, repository, name, version, source, target) &&
       !NamedLikeTarget(history, repository, name, version, source, target) {
      var i, j :| 0 <= i < |history| && 0 <= j < |history[i].rows| &&
                  Authorises(history[i], j, repository, name, version, source, target);
      assert ReceiptNames(
          history[i].receipt.value, history[i].rows[j].repository, repository, name, version, source, target);
    }
    if NamedLikeTarget(history, repository, name, version, source, target) {
      var i, j :| 0 <= i < |history| && 0 <= j < |history[i].rows| &&
                  Candidate(history[i].rows[j], name, version, source, target) &&
                  history[i].rows[j].repository == repository;
      assert Authorises(history[i], j, repository, name, version, source, target);
    }
  }

  /** An archive that is what its preview recorded, with one artifact. */
  const INTACT := Delivery(true, "sha", "sha", "id", Hashed("sha"), Passed("sha", "id", 1, true))

  /** A chart of one project, imported into another and verified there. */
  function MovedChart(from: string, to: string, source: string, target: string): PastOperation {
    var row := HistoryRow(true, from, "app", "1.0.0", Some(source), Some(target), OperationStates.Verified);
    PastOperation([row], Some([ReceiptItem(row, to)]))
  }

  /**
    The rule fails in a whole run: a chart was imported from one project into another; TARGET holds foreign
    content with that digest under the first project's own name; importing the chart there, without
    overwrite, ends COMPLETED with the row SKIPPED, though the pair was never verified at that target.
   */
  lemma ForeignChartTakenForSame(from: string, to: string, source: string, target: string, payload: Artifact)
    requires from != to && source != target
    requires payload.HelmChart? && payload.repository == from && payload.name == "app" && payload.version == "1.0.0"
    requires payload.chartDigest == Some(source) && IsRepository(from)
    ensures var a := Import([payload], [from], [MovedChart(from, to, source, target)], false, false,
                            [World(false, Answers, Denied)], true, INTACT);
            var s := Final(a, map[LandsAt(payload) := target]);
            && FinalStatus(a, s).Completed?
            && s.rows == [Row(OperationStates.Skipped, Some(target), None)]
            && !VerifiedHere(a.history, from, "app", "1.0.0", source, target)
  {
    var past := MovedChart(from, to, source, target);
    var a := Import([payload], [from], [past], false, false, [World(false, Answers, Denied)], true, INTACT);
    var registry := map[LandsAt(payload) := target];
    var start := Start(a, registry);
    var history := HistoryDuring(a, start.rows);
    assert history[0] == past;
    assert Candidate(past.rows[0], "app", "1.0.0", source, target);
    assert Authorises(history[0], 0, from, "app", "1.0.0", source, target);
    assert Preflight(payload, Some(target), history).Same?;
    PlainChartIsShown(payload, registry);
    hide IsRepository;
    hide IsComponent;
    hide ReferenceOk;
    hide Shown;
    hide LandsAt;
    hide PairMatches;
    assert After(a, registry, 0) == start;
    assert Final(a, registry) == Turn(a, start, 0);
  }

  lemma PlainChartIsShown(d: Artifact, registry: Registry)
    requires d.HelmChart? && IsRepository(d.repository) && d.name == "app" && d.version == "1.0.0"
    ensures ReferenceOk(d) && Shown(registry, d) == Lookup(registry, LandsAt(d))
  {
    hide IsRepository;
    assert IsComponent("app") && IsVersion("1.0.0") && '+' !in "1.0.0";
    ShownWhereItLands(registry, d);
  }

  /** A chart whose manifest has no source digest imports once, and never converges on replay. */
  lemma NoSourceDigestNoReplay(chart: Artifact, target: string)
    requires chart.HelmChart? && chart.chartDigest.None? && ReferenceOk(chart) && !RespelledChart(chart)
    ensures var a := Import([chart], [chart.repository], [], false, false,
                            [World(false, Answers, Wrote(target, true))], true, INTACT);
            var first := Final(a, map[]);
            var again := a.(history := [Recorded(a, first)]);
            && FinalStatus(a, first).Completed? && first.rows[0].status.Verified?
            && FinalStatus(again, Final(again, first.registry)).Failed?
  {
    var a := Import([chart], [chart.repository], [], false, false,
                    [World(false, Answers, Wrote(target, true))], true, INTACT);
    var start := Start(a, map[]);
    assert After(a, map[], 0) == start;
    assert Final(a, map[]) == Turn(a, start, 0);
    ShownWhereItLands(map[], chart);
    ShownWhereItLands(map[LandsAt(chart) := target], chart);
    hide Shown;
    hide ReferenceOk;
    hide RespelledChart;
    var first := Final(a, map[]);
    var again := a.(history := [Recorded(a, first)]);
    assert again.history[0] == Recorded(a, first);
    hide Turn;
    ReplayConverges(a, map[], again, 0);
    ProgressIsTurns(again, first.registry, 0);
    BooksBalanceUnlessStopped(again, first.registry);
  }

  /** One artifact, no cancellation, found unresolvable: the run is not stopped and counts one failure. */
  lemma BooksBalanceUnlessStopped(a: Import, registry: Registry)
    requires WellFormed(a) && |a.descriptors| == 1 && !a.worlds[0].cancelled && a.worlds[0].inspecting.Answers?
    requires SourceDigest(a.descriptors[0]).None? && LandsAt(a.descriptors[0]) in registry
    requires GateStop(a.delivery, |a.sources|).None?
    requires ReferenceOk(a.descriptors[0]) && !RespelledChart(a.descriptors[0])
    ensures Final(a, registry).stopped.None? && Final(a, registry).failures == 1
  {
    ShownWhereItLands(registry, a.descriptors[0]);
    hide PairMatches;
    hide Shown;
    hide ReferenceOk;
    hide RespelledChart;
    hide LandsAt;
    assert After(a, registry, 0) == Start(a, registry);
    assert Final(a, registry) == Turn(a, Start(a, registry), 0);
  }

  /** An image and a chart of a bundle; every inspection answers and every push is taken. */
  function ImageThenChart(image: Artifact, chart: Artifact, pushed: string, overwrite: bool): Import
    requires image.ContainerImage? && chart.HelmChart?
  {
    Import([image, chart], [image.repository, chart.repository], [], overwrite, false,
           [World(false, Answers, Wrote(image.imageDigest, true)), World(false, Answers, Wrote(pushed, true))], true,
           INTACT.(verification := Passed("sha", "id", 2, true)))
  }

  /** The chart alone. */
  function ChartAlone(chart: Artifact, pushed: string): Import
    requires chart.HelmChart?
  {
    Import([chart], [chart.repository], [], false, false, [World(false, Answers, Wrote(pushed, true))], true, INTACT)
  }

  /** The turn of a chart TARGET never shows, when its push is taken: the tag is replaced, and the row FAILED. */
  lemma RespelledTurn(a: Import, s: State, k: nat, pushed: string)
    requires Ok(a, s) && k < |a.descriptors| && s.stopped.None?
    requires ReferenceOk(a.descriptors[k]) && RespelledChart(a.descriptors[k])
    requires a.worlds[k] == World(false, Answers, Wrote(pushed, true))
    ensures var t := Turn(a, s, k);
            && t.registry == s.registry[LandsAt(a.descriptors[k]) := pushed]
            && t.rows == s.rows[k := Failure(PushFailed)] && t.stopped.None? && t.failures == s.failures + 1
  {
    ShownWhereItLands(s.registry, a.descriptors[k]);
    ShownWhereItLands(s.registry[LandsAt(a.descriptors[k]) := pushed], a.descriptors[k]);
    hide Shown;
    hide ReferenceOk;
    hide RespelledChart;
    hide LandsAt;
    hide HistoryDuring;
  }

  lemma ImageLands(a: Import, image: Artifact, chart: Artifact, pushed: string, overwrite: bool)
    requires image.ContainerImage? && chart.HelmChart? && a == ImageThenChart(image, chart, pushed, overwrite)
    requires ReferenceOk(image)
    ensures var s := After(a, map[], 1);
            && s.registry == map[LandsAt(image) := image.imageDigest] && s.stopped.None? && s.failures == 0
            && s.rows == [Row(OperationStates.Verified, Some(image.imageDigest), None),
                          Row(OperationStates.Pending, None, None)]
  {
    ShownWhereItLands(map[], image);
    ShownWhereItLands(map[LandsAt(image) := image.imageDigest], image);
    hide LandsAt;
    hide Shown;
    hide ReferenceOk;
    hide PairMatches;
    hide HistoryDuring;
    var start := After(a, map[], 0);
    assert After(a, map[], 1) == Turn(a, start, 0);
    assert start.rows[0 := RUNNING][0].status.ArtifactRunning?;
  }

  lemma ExampleReferences(image: Artifact, chart: Artifact)
    requires image.ContainerImage? && image.repository == "p/app" && image.reference == "1.0.0_b"
    requires chart.HelmChart? && chart.repository == "p" && chart.name == "app" && chart.version == "1.0.0+b"
    ensures ReferenceOk(image) && ReferenceOk(chart) && RespelledChart(chart)
    ensures LandsAt(image) == LandsAt(chart) && WrittenAt(image) != WrittenAt(chart)
  {
    assert OciTag("1.0.0+b") == "1.0.0_b";
    assert "p" + "/" + "app" == "p/app";
    assert "1.0.0+b"[5] == '+' && "1.0.0_b"[5] == '_';
    RepositoryOfTwo();
  }

  lemma RepositoryOfTwo()
    ensures IsRepository("p") && IsRepository("p/app")
  {
    SplitPlain("p");
    SplitPlain("app");
    SplitAppend("p", "app");
    assert "p" + "/" + "app" == "p/app";
    assert IsComponent("p") && IsComponent("app");
    hide IsComponent;
    hide Split;
  }

  /**
    The pair the plan cannot see: chart p/app 1.0.0+b and image p/app:1.0.0_b have different coordinates and
    one registry tag. Imported together, with overwrite or without, the chart replaces the VERIFIED image, and
    the run ends FAILED with the chart's row FAILED.
   */
  lemma RespelledChartReplacesImage(image: Artifact, chart: Artifact, pushed: string, overwrite: bool)
    requires image.ContainerImage? && image.repository == "p/app" && image.reference == "1.0.0_b"
    requires chart.HelmChart? && chart.repository == "p" && chart.name == "app" && chart.version == "1.0.0+b"
    requires pushed != image.imageDigest
    ensures WritesApart([image, chart]) && TagClash([image, chart])
    ensures var a := ImageThenChart(image, chart, pushed, overwrite);
            var s := Final(a, map[]);
            && FinalStatus(a, s).Failed?
            && s.rows == [Row(OperationStates.Verified, Some(image.imageDigest), None), Failure(PushFailed)]
            && Lookup(s.registry, LandsAt(image)) == Some(pushed) != s.rows[0].targetDigest
  {
    var a := ImageThenChart(image, chart, pushed, overwrite);
    ExampleReferences(image, chart);
    assert RespelledChart([image, chart][1]) && LandsAt([image, chart][1]) == LandsAt([image, chart][0]);
    ImageLands(a, image, chart, pushed, overwrite);
    AfterSteps(a, map[]);
    RespelledTurn(a, After(a, map[], 1), 1, pushed);
    assert Final(a, map[]) == After(a, map[], 1 + 1);
    hide After;
    hide Turn;
    hide LandsAt;
    hide WrittenAt;
    hide ReferenceOk;
    hide RespelledChart;
  }

  /**
    Default deny fails in a whole run: without overwrite, on a registry that holds another digest at the tag,
    importing the chart alone replaces that digest, and the run ends FAILED.
   */
  lemma RespelledChartBreaksDefaultDeny(chart: Artifact, there: string, pushed: string)
    requires chart.HelmChart? && ReferenceOk(chart) && RespelledChart(chart) && pushed != there
    ensures var a, registry := ChartAlone(chart, pushed), map[LandsAt(chart) := there];
            var s := Final(a, registry);
            && !a.overwrite && LandsApart(a.descriptors)
            && Lookup(s.registry, LandsAt(chart)) == Some(pushed) != Lookup(registry, LandsAt(chart))
            && s.rows == [Failure(PushFailed)] && FinalStatus(a, s).Failed?
  {
    var a, registry := ChartAlone(chart, pushed), map[LandsAt(chart) := there];
    AfterSteps(a, registry);
    RespelledTurn(a, After(a, registry, 0), 0, pushed);
    assert Final(a, registry) == After(a, registry, 0 + 1);
    hide After;
    hide Turn;
    hide LandsAt;
    hide ReferenceOk;
    hide RespelledChart;
  }

  /**
    From a valid plan to the engine: the projected bundle of a valid plan writes every coordinate once, and no
    two artifacts land on one registry tag, if and only if no chart version with a "+" takes another's place.
   */
  lemma ValidPlanWritesApart(
    plan: Plan, items: seq<PreviewItem>, mapping: Mapping, host: string, seen: seq<Observation>, mapped: seq<Artifact>)
    requires |items| == |seen| && IsPlan(plan, Planned(items, mapping, host, seen)) && plan.valid
    requires |mapped| == |plan.artifacts|
    requires forall i :: 0 <= i < |mapped| ==> CoordinateOf(plan.artifacts[i]) == Some(WrittenAt(mapped[i]))
    ensures WritesApart(mapped) && (LandsApart(mapped) <==> !TagClash(mapped))
  {
    hide CoordinateOf;
    hide WrittenAt;
    hide DistinctCoordinates;
    hide Planned;
    hide TagClash;
    hide LandsApart;
    ValidIffDistinct(plan, items, mapping, host, seen);
    ProjectionWritesApart(plan, mapped);
    LandsApartIff(mapped);
  }
}
