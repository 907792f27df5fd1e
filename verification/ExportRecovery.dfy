/** Start-up recovery of exports that never completed: what it removes, and what it must not. */
module ExportRecovery {
  import opened BundleManifest
  import opened BundleNames
  import LoneBuilder
  import opened OperationStates
  import Publication

  datatype Record = Record(
    kind: OperationType, status: OperationStatus, deliveryId: Option<string>,
    bundleName: Option<string>, bundleSha256: Option<string>, bundleSize: Option<int>)

  function ArchiveName(id: string): string {
    id + ".htp.tar.gz"
  }

  function SidecarName(id: string): string {
    id + ".htp.tar.gz.sha256"
  }

  predicate Incomplete(r: Record) {
    r.kind.Export? && r.status != Completed
  }

  /** _has_persisted_publication_ownership */
  predicate PersistedOwnership(r: Record) {
    && r.deliveryId.Some? && r.bundleName == Some(ArchiveName(r.deliveryId.value))
    && r.bundleSha256.Some? && IsDigest(r.bundleSha256.value)
    && r.bundleSize.Some? && r.bundleSize.value >= 0
  }

  /** _has_any_bundle_metadata */
  predicate AnyMetadata(r: Record) {
    r.bundleName.Some? || r.bundleSha256.Some? || r.bundleSize.Some?
  }

  function Cleared(r: Record): Record {
    r.(bundleName := None, bundleSha256 := None, bundleSize := None)
  }

  function Reconciled(r: Record): Record {
    if Incomplete(r) && AnyMetadata(r) then Cleared(r) else r
  }

  /** The outgoing names one record's recovery removes; an empty delivery id counts as none. */
  function Swept(r: Record): set<string> {
    if Incomplete(r) && PersistedOwnership(r) && r.deliveryId.value != "" then
      {SidecarName(r.deliveryId.value), ArchiveName(r.deliveryId.value)}
    else {}
  }

  function SweptBy(records: seq<Record>): set<string> {
    if records == [] then {} else SweptBy(records[..|records| - 1]) + Swept(records[|records| - 1])
  }

  lemma {:induction false} SweptByMember(records: seq<Record>, name: string)
    ensures name in SweptBy(records) <==> exists i :: 0 <= i < |records| && name in Swept(records[i])
  {
    hide Swept;
    if records != [] {
      var n := |records| - 1;
      SweptByMember(records[..n], name);
      if i :| 0 <= i < |records| && name in Swept(records[i]) {
        assert i < n ==> records[..n][i] == records[i];
      }
    }
  }

  /** Recovery of this record removes this name: an export that did not complete and whose files its row names. */
  ghost predicate RemovesByRule(r: Record, name: string) {
    && r.kind == Export && r.status != Completed
    && r.deliveryId.Some? && r.deliveryId.value != "" && r.bundleName == Some(r.deliveryId.value + ".htp.tar.gz")
    && r.bundleSha256.Some? && |r.bundleSha256.value| == 64
    && (forall i :: 0 <= i < 64 ==> '0' <= r.bundleSha256.value[i] <= '9' || 'a' <= r.bundleSha256.value[i] <= 'f')
    && r.bundleSize.Some? && r.bundleSize.value >= 0
    && (name == r.deliveryId.value + ".htp.tar.gz" || name == r.deliveryId.value + ".htp.tar.gz.sha256")
  }

  /** The row after recovery: an export that did not complete names no bundle any more; nothing else changes. */
  ghost predicate RecoveredByRule(r: Record, after: Record) {
    && after.kind == r.kind && after.status == r.status && after.deliveryId == r.deliveryId
    && (r.kind == Export && r.status != Completed ==>
          after.bundleName == None && after.bundleSha256 == None && after.bundleSize == None)
    && (r.kind != Export || r.status == Completed ==> after == r)
  }

  lemma RecoveryFollowsRules(r: Record)
    ensures RecoveredByRule(r, Reconciled(r))
    ensures forall name :: name in Swept(r) <==> RemovesByRule(r, name)
  {
    assert forall id: string :: ArchiveName(id) == id + ".htp.tar.gz";
    assert forall id: string :: SidecarName(id) == id + ".htp.tar.gz.sha256";
    hide ArchiveName;
    hide SidecarName;
  }

  lemma SweepFollowsRules(records: seq<Record>)
    ensures forall name :: name in SweptBy(records) <==>
              exists i :: 0 <= i < |records| && RemovesByRule(records[i], name)
  {
    hide *;
    forall name
      ensures name in SweptBy(records) <==> exists i :: 0 <= i < |records| && RemovesByRule(records[i], name)
    {
      SweptByMember(records, name);
      forall i | 0 <= i < |records| {
        RecoveryFollowsRules(records[i]);
      }
    }
  }

  /** reconcile_incomplete_export_publications */
  method Reconcile(records: seq<Record>, outgoing: set<string>)
    returns (after: seq<Record>, left: set<string>, cleaned: nat)
    ensures |after| == |records| && forall i :: 0 <= i < |records| ==> after[i] == Reconciled(records[i])
    ensures left == outgoing - SweptBy(records)
    ensures forall i :: 0 <= i < |records| ==> RecoveredByRule(records[i], after[i])
    ensures forall name :: name in left <==>
              name in outgoing && !exists i :: 0 <= i < |records| && RemovesByRule(records[i], name)
    ensures cleaned == 0 <==> forall i :: 0 <= i < |records| ==> Reconciled(records[i]) == records[i]
    ensures cleaned <= |records|
  {
    SweepFollowsRules(records);
    forall i | 0 <= i < |records| {
      RecoveryFollowsRules(records[i]);
    }
    hide RemovesByRule;
    hide RecoveredByRule;
    hide IsDigest;
    hide ArchiveName;
    hide SidecarName;
    after, left, cleaned := [], outgoing, 0;
    for k := 0 to |records|
      invariant |after| == k && forall i :: 0 <= i < k ==> after[i] == Reconciled(records[i])
      invariant left == outgoing - SweptBy(records[..k])
      invariant cleaned <= k
      invariant cleaned == 0 <==> forall i :: 0 <= i < k ==> Reconciled(records[i]) == records[i]
    {
      var r := records[k];
      assert records[..k + 1][..k] == records[..k];
      var changed := false;
      if Incomplete(r) {
        var owned := PersistedOwnership(r);
        if owned && r.deliveryId.value != "" {
          changed := SidecarName(r.deliveryId.value) in left || ArchiveName(r.deliveryId.value) in left;
          left := left - {SidecarName(r.deliveryId.value)} - {ArchiveName(r.deliveryId.value)};
        }
        if owned || AnyMetadata(r) {
          r := Cleared(r);
          changed := true;
        }
      }
      after := after + [r];
      if changed {
        cleaned := cleaned + 1;
      }
    }
    assert records[..|records|] == records;
  }

  /** The delivery id of this record belongs to no other record. */
  ghost predicate UniqueId(records: seq<Record>, i: nat)
    requires i < |records|
  {
    records[i].deliveryId.Some? &&
    forall j :: 0 <= j < |records| && j != i ==> records[j].deliveryId != records[i].deliveryId
  }

  lemma NamesTellIds(a: string, b: string)
    ensures ArchiveName(a) == ArchiveName(b) ==> a == b
    ensures SidecarName(a) == SidecarName(b) ==> a == b
    ensures SidecarName(a) != ArchiveName(b)
  {
    assert ArchiveName(a)[..|a|] == a && ArchiveName(b)[..|b|] == b;
    assert SidecarName(a)[..|a|] == a && SidecarName(b)[..|b|] == b;
    assert SidecarName(a)[|SidecarName(a)| - 1] == '6' && ArchiveName(b)[|ArchiveName(b)| - 1] == 'z';
  }

  /**
    With unique delivery ids, recovery removes a delivery's archive and sidecar exactly when its own export
    did not complete and its ownership was persisted; a completed delivery, and a publication that never
    reached its record, stay.
   */
  lemma RemovesExactlyOwnIncomplete(records: seq<Record>, i: nat)
    requires i < |records| && UniqueId(records, i) && records[i].deliveryId.value != ""
    ensures ArchiveName(records[i].deliveryId.value) in SweptBy(records) <==>
            Incomplete(records[i]) && PersistedOwnership(records[i])
    ensures SidecarName(records[i].deliveryId.value) in SweptBy(records) <==>
            Incomplete(records[i]) && PersistedOwnership(records[i])
  {
    var id := records[i].deliveryId.value;
    SweptByMember(records, ArchiveName(id));
    SweptByMember(records, SidecarName(id));
    hide PersistedOwnership;
    hide Incomplete;
    forall j, name |
        0 <= j < |records| && name in Swept(records[j]) && (name == ArchiveName(id) || name == SidecarName(id))
      ensures j == i
    {
      OwnershipHasId(records[j]);
      NamesTellIds(records[j].deliveryId.value, id);
      NamesTellIds(id, records[j].deliveryId.value);
      hide ArchiveName;
      hide SidecarName;
    }
    hide ArchiveName;
    hide SidecarName;
    if Incomplete(records[i]) && PersistedOwnership(records[i]) {
      assert ArchiveName(id) in Swept(records[i]) && SidecarName(id) in Swept(records[i]);
    }
  }

  lemma OwnershipHasId(r: Record)
    ensures PersistedOwnership(r) ==> r.deliveryId.Some? && AnyMetadata(r)
  {
  }

  /** A second recovery finds nothing to do. */
  lemma RecoveryIsIdempotent(r: Record)
    ensures Reconciled(Reconciled(r)) == Reconciled(r) && Swept(Reconciled(r)) == {}
    ensures !Incomplete(r) ==> Reconciled(r) == r && Swept(r) == {}
  {
    OwnershipHasId(r);
    hide IsDigest;
  }

  function HandoffName(id: string): string {
    id + ".htp-handoff.json"
  }

  /** The outgoing names of one delivery's files. */
  function NamesOf(f: Publication.Files, id: string): set<string> {
    (if f.archive.Some? then {ArchiveName(id)} else {}) +
    (if f.sidecar.Some? then {SidecarName(id)} else {}) +
    if f.handoff.Some? then {HandoffName(id)} else {}
  }

  /** The export's row as a dead process leaves it: its bundle columns were committed together, or not at all. */
  function RowOf(id: string, status: OperationStatus, persisted: Option<Digest>, size: nat): Record {
    Record(Export, status, Some(id), if persisted.Some? then Some(ArchiveName(id)) else None,
           if persisted.Some? then Some(persisted.value) else None, if persisted.Some? then Some(size) else None)
  }

  lemma HandoffIsNeitherName(a: string, b: string)
    ensures HandoffName(a) != ArchiveName(b) && HandoffName(a) != SidecarName(b)
  {
    assert HandoffName(a)[|HandoffName(a)| - 1] == 'n';
    assert ArchiveName(b)[|ArchiveName(b)| - 1] == 'z' && SidecarName(b)[|SidecarName(b)| - 1] == '6';
  }

  lemma HandoffIsNeverSwept(records: seq<Record>, id: string)
    ensures HandoffName(id) !in SweptBy(records)
  {
    SweptByMember(records, HandoffName(id));
    hide PersistedOwnership;
    forall j | 0 <= j < |records|
      ensures HandoffName(id) !in Swept(records[j])
    {
      OwnershipHasId(records[j]);
      if records[j].deliveryId.Some? {
        HandoffIsNeitherName(id, records[j].deliveryId.value);
      }
      hide HandoffName;
      hide ArchiveName;
      hide SidecarName;
    }
  }

  lemma PersistedRow(id: string, status: OperationStatus, persisted: Option<Digest>, size: nat)
    ensures PersistedOwnership(RowOf(id, status, persisted, size)) <==> persisted.Some?
  {
    hide IsDigest;
  }

  /**
    The process dies at any moment of an export, leaving any of its files, and start-up recovery runs. With a
    delivery id of its own, archive and sidecar stay where they were if and only if the record was not persisted
    or the export had completed; the handoff always stays.
   */
  lemma DeathThenRecovery(
    records: seq<Record>, i: nat, f: Publication.Files, id: string, status: OperationStatus,
    persisted: Option<Digest>, size: nat)
    requires i < |records| && records[i] == RowOf(id, status, persisted, size) && id != "" && UniqueId(records, i)
    ensures var left := NamesOf(f, id) - SweptBy(records);
            && (ArchiveName(id) in left <==> f.archive.Some? && (persisted.None? || status == Completed))
            && (SidecarName(id) in left <==> f.sidecar.Some? && (persisted.None? || status == Completed))
            && (HandoffName(id) in left <==> f.handoff.Some?)
  {
    RemovesExactlyOwnIncomplete(records, i);
    PersistedRow(id, status, persisted, size);
    HandoffIsNeverSwept(records, id);
    HandoffIsNeitherName(id, id);
    NamesTellIds(id, id);
    hide PersistedOwnership;
    hide ArchiveName;
    hide SidecarName;
    hide HandoffName;
    hide SweptBy;
    hide UniqueId;
    hide IsDigest;
  }

  /**
    In particular a builder that dies at any of its steps has persisted nothing: after recovery its archive is
    there if and only if it had been put in place and not taken down again.
   */
  lemma BuilderDeathThenRecovery(
    records: seq<Record>, i: nat, f: Publication.Files, own: Publication.Published, schedule: seq<Publication.Luck>,
    id: string, status: OperationStatus)
    requires i < |records| && records[i] == RowOf(id, status, None, 0) && id != "" && UniqueId(records, i)
    requires LoneBuilder.Free(f) && !f.owned && LoneBuilder.Build(f, own, schedule).phase.Crashed?
    ensures var b := LoneBuilder.Build(f, own, schedule);
            ArchiveName(id) in NamesOf(b.files, id) - SweptBy(records) <==> LoneBuilder.InPlace(b.events)
  {
    LoneBuilder.BuildIsExplained(f, own, schedule);
    var b := LoneBuilder.Build(f, own, schedule);
    DeathThenRecovery(records, i, b.files, id, status, None, 0);
    hide LoneBuilder.Build;
    hide LoneBuilder.InPlace;
    hide NamesOf;
    hide SweptBy;
    hide ArchiveName;
  }
}
