/** The mapping snapshot written on artifact rows before an import, and the retry check that reads it back. */
module MappingSnapshot {
  import opened BundleManifest
  import opened DestinationPlan

  datatype Snapshot = Snapshot(
    sourceProject: string, sourceRepository: string, sourceReference: Option<string>, sourceVersion: Option<string>,
    targetProject: string, targetRepository: string, targetReference: string, targetVersion: Option<string>,
    planId: string, planHash: string, overwriteApproved: bool)

  datatype ArtifactRow = ArtifactRow(
    kind: ArtifactType, repository: string, sourceDigest: Option<string>, name: Option<string>,
    reference: Option<string>, version: Option<string>, snapshot: Option<Snapshot>)

  /** The plan and the operation it must belong to, with the plan's artifacts in index order. */
  datatype Request = Request(
    planned: seq<PlannedArtifact>, planId: string, planHash: string, valid: bool, linked: bool, overwriteApproved: bool)

  /** _validate_source_row and _validate_target raise nothing. */
  predicate PairValid(index: nat, row: ArtifactRow, p: PlannedArtifact) {
    var id := p.identity;
    && id.index == index && row.kind == id.kind && row.repository == id.sourceRepository
    && row.sourceDigest == id.expectedDigest && row.name == id.name && row.reference == id.reference
    && row.version == id.version
    && id.targetProject.Some? && id.targetRepository.Some? && id.finalReference.Some?
  }

  /** The plan is good for these rows: valid, of this operation, and pair by pair the same source with a full target. */
  ghost predicate Acceptable(rows: seq<ArtifactRow>, q: Request) {
    && q.valid && q.linked && |rows| == |q.planned|
    && forall i :: 0 <= i < |rows| ==>
         var row, id := rows[i], q.planned[i].identity;
         && id.index == i && id.kind == row.kind && id.sourceRepository == row.repository
         && id.expectedDigest == row.sourceDigest && id.name == row.name && id.reference == row.reference
         && id.version == row.version
         && id.targetProject != None && id.targetRepository != None && id.finalReference != None
  }

  /** The snapshot of one row, field by field; the rest of the row stays. */
  ghost predicate StampedByRule(before: ArtifactRow, after: ArtifactRow, p: PlannedArtifact, q: Request) {
    && after.(snapshot := before.snapshot) == before && after.snapshot.Some?
    && var s, id := after.snapshot.value, p.identity;
    && s.sourceProject == id.sourceProject && s.sourceRepository == id.sourceRepository
    && s.sourceReference == id.reference && s.sourceVersion == id.version && s.targetVersion == id.version
    && Some(s.targetProject) == id.targetProject && Some(s.targetRepository) == id.targetRepository
    && Some(s.targetReference) == id.finalReference
    && s.planId == q.planId && s.planHash == q.planHash && s.overwriteApproved == q.overwriteApproved
  }

  function Stamped(row: ArtifactRow, p: PlannedArtifact, q: Request): ArtifactRow
    requires p.identity.targetProject.Some? && p.identity.targetRepository.Some? && p.identity.finalReference.Some?
  {
    var id := p.identity;
    row.(snapshot := Some(Snapshot(
      id.sourceProject, id.sourceRepository, id.reference, id.version, id.targetProject.value,
      id.targetRepository.value, id.finalReference.value, id.version, q.planId, q.planHash, q.overwriteApproved)))
  }

  /** What prepare_retry demands of one row of the original operation. */
  predicate RetryRowMatches(row: ArtifactRow, p: PlannedArtifact, planId: string, planHash: string) {
    && row.snapshot.Some?
    && var s := row.snapshot.value;
    && s.planId == planId && s.planHash == planHash && s.sourceRepository == p.identity.sourceRepository
    && Some(s.targetRepository) == p.identity.targetRepository && Some(s.targetReference) == p.identity.finalReference
  }

  class ArtifactRows {
    var rows: seq<ArtifactRow>

    constructor (initial: seq<ArtifactRow>)
      ensures rows == initial
    {
      rows := initial;
    }

    /** persist_artifact_mapping_snapshot: every pair is validated before any row is written. */
    method Persist(q: Request) returns (ok: bool)
      modifies this
      ensures ok <==> Acceptable(old(rows), q)
      ensures !ok ==> rows == old(rows)
      ensures ok ==>
                |rows| == |old(rows)| &&
                forall i :: 0 <= i < |rows| ==> StampedByRule(old(rows)[i], rows[i], q.planned[i], q)
    {
      if !q.valid || !q.linked || |rows| != |q.planned| {
        return false;
      }
      for k := 0 to |rows|
        invariant rows == old(rows) && forall i :: 0 <= i < k ==> PairValid(i, rows[i], q.planned[i])
      {
        if !PairValid(k, rows[k], q.planned[k]) {
          return false;
        }
      }
      ghost var before := rows;
      for k := 0 to |rows|
        invariant |rows| == |before|
        invariant forall i :: 0 <= i < k ==>
                    StampedByRule(before[i], rows[i], q.planned[i], q)
        invariant forall i :: k <= i < |rows| ==> rows[i] == before[i]
      {
        ValidPairHasTarget(k, before[k], q.planned[k]);
        rows := rows[k := Stamped(rows[k], q.planned[k], q)];
      }
      return true;
    }

    /** The row check of prepare_retry */
    method RetryRowsMatch(planned: seq<PlannedArtifact>, planId: string, planHash: string) returns (ok: bool)
      ensures ok <==>
              |rows| == |planned| &&
              forall i :: 0 <= i < |rows| ==> RetryRowMatches(rows[i], planned[i], planId, planHash)
    {
      if |rows| != |planned| {
        return false;
      }
      for k := 0 to |rows|
        invariant forall i :: 0 <= i < k ==> RetryRowMatches(rows[i], planned[i], planId, planHash)
      {
        if !RetryRowMatches(rows[k], planned[k], planId, planHash) {
          return false;
        }
      }
      return true;
    }
  }

  predicate PairHasTarget(p: PlannedArtifact) {
    p.identity.targetProject.Some? && p.identity.targetRepository.Some? && p.identity.finalReference.Some?
  }

  lemma ValidPairHasTarget(index: nat, row: ArtifactRow, p: PlannedArtifact)
    requires PairValid(index, row, p)
    ensures PairHasTarget(p)
  {
  }

  /**
    What a snapshot persisted is what a retry of the same plan demands; and two plans both accepted against
    the same stamped rows name the same plan, sources and final targets.
   */
  lemma RetryReadsSnapshotBack(
    row: ArtifactRow, p: PlannedArtifact, q: Request, other: PlannedArtifact, planId: string, planHash: string)
    requires PairHasTarget(p)
    ensures RetryRowMatches(Stamped(row, p, q), p, q.planId, q.planHash)
    ensures RetryRowMatches(Stamped(row, p, q), other, planId, planHash) <==>
            && planId == q.planId && planHash == q.planHash
            && other.identity.sourceRepository == p.identity.sourceRepository
            && other.identity.targetRepository == p.identity.targetRepository
            && other.identity.finalReference == p.identity.finalReference
  {
  }

  /** Every valid plan can be stamped: an importable artifact has its whole target. */
  lemma ImportableIsStampable(item: PreviewItem, mapping: Mapping, host: string, seen: Observation)
    requires Importable(PlanArtifact(item, mapping, host, seen))
    ensures PairHasTarget(PlanArtifact(item, mapping, host, seen))
  {
    hide IsRepository;
    hide ImageReferenceOk;
    hide ChartReferenceOk;
    hide IsComponent;
  }
}
