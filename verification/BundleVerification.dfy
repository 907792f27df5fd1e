/** Verification of an untrusted bundle: what is accepted, and what acceptance implies. */
module BundleVerification {
  import opened BundleManifest
  import opened BundleNames
  import opened PosixPath
  import opened Text
  import ChecksumFile
  import opened BundleArchive

  /**
    What the verifier is given: SHA-256 of a text or file, the canonical JSON reader of
    manifest.json, and the trusted key (by fingerprint) that confirms a signature.
   */
  datatype Codec = Codec(
    sha256: string -> Digest,
    parse: string -> Option<Manifest>,
    signer: (string, string) -> Option<string>)

  datatype Archive = Archive(members: seq<Member>, size: nat)

  datatype VerifyError =
    | ArchiveSizeExceeded
    | Uninspectable(inspection: InspectError)
    | MetadataTooLarge
    | ManifestInvalid
    | SchemaInvalid
    | SignatureUntrusted
    | BadChecksums(parsing: ChecksumFile.ParseError)
    | PayloadLayoutMismatch
    | PayloadOverlap
    | PayloadMissing
    | ImagePayloadInvalid
    | ChartPayloadInvalid
    | PayloadUndeclared
    | PayloadChecksumMismatch
    | PayloadMetadataMismatch

  type Checksums = map<string, Digest>

  datatype Stats = Stats(sha256: Digest, size: nat)

  /** The checksum paths an artifact root selects. */
  function Matches(root: string, checksums: Checksums): set<string> {
    set p | p in checksums && Under(root, p)
  }

  function Restrict(checksums: Checksums, paths: set<string>): Checksums {
    map p | p in checksums && p in paths :: checksums[p]
  }

  /** Total size of some files. */
  function Weight(paths: set<string>, files: map<string, string>): nat
    requires paths <= files.Keys
  {
    if paths == {} then 0 else |files[Least(paths)]| + Weight(paths - {Least(paths)}, files)
  }

  /** The canonical text a payload tree is hashed from. */
  function TreeText(root: string, checksums: Checksums): string {
    ChecksumFile.Serialize(ChecksumFile.SortedEntries(Restrict(checksums, Matches(root, checksums))))
  }

  /** _payload_stats */
  function PayloadStats(
    sha256: string -> Digest, payloadPath: string, checksums: Checksums, files: map<string, string>): Option<Stats>
    requires checksums.Keys <= files.Keys
  {
    var matches := Matches(payloadPath, checksums);
    if matches == {} then None
    else if matches == {payloadPath} then Some(Stats(checksums[payloadPath], Weight(matches, files)))
    else Some(Stats(sha256(TreeText(payloadPath, checksums)), Weight(matches, files)))
  }

  function RootName(a: Artifact): string {
    AsPosix(a.payloadPath)
  }

  /** The shape of one payload: a directory inside images/, or a .tgz file inside charts/. */
  predicate ShapeOk(a: Artifact, files: map<string, string>) {
    var root := RootName(a);
    && Parts(a.payloadPath) != []
    && match a {
         case ContainerImage(_, _, _, _, _, _) => Parts(a.payloadPath)[0] == "images" && root !in files
         case HelmChart(_, _, _, _, _, _, _) =>
           && Parts(a.payloadPath)[0] == "charts"
           && |root| >= 4 && root[|root| - 4..] == ".tgz"
           && root in files
       }
  }

  predicate NoOverlap(artifacts: seq<Artifact>) {
    forall i, j :: 0 <= i < j < |artifacts| ==> !PathsOverlap(artifacts[j].payloadPath, artifacts[i].payloadPath)
  }

  predicate RootOk(a: Artifact, files: map<string, string>, checksums: Checksums) {
    Matches(RootName(a), checksums) != {} && ShapeOk(a, files)
  }

  predicate Covered(artifacts: seq<Artifact>, path: string) {
    exists i :: 0 <= i < |artifacts| && Under(RootName(artifacts[i]), path)
  }

  /** _validate_payload_layout raises nothing. */
  predicate LayoutOk(artifacts: seq<Artifact>, files: map<string, string>, checksums: Checksums) {
    && files.Keys - CRITICAL_FILES == checksums.Keys
    && NoOverlap(artifacts)
    && (forall i :: 0 <= i < |artifacts| ==> RootOk(artifacts[i], files, checksums))
    && (forall p :: p in checksums ==> Covered(artifacts, p))
  }

  predicate ChecksumsOk(sha256: string -> Digest, files: map<string, string>, checksums: Checksums) {
    forall p :: p in checksums ==> p in files && sha256(files[p]) == checksums[p]
  }

  predicate DescriptorOk(sha256: string -> Digest, a: Artifact, checksums: Checksums, files: map<string, string>)
    requires checksums.Keys <= files.Keys
  {
    PayloadStats(sha256, a.payloadPath, checksums, files) == Some(Stats(a.payloadSha256, a.payloadSize))
  }

  predicate DescriptorsOk(
    sha256: string -> Digest, artifacts: seq<Artifact>, checksums: Checksums, files: map<string, string>)
  {
    && checksums.Keys <= files.Keys
    && forall i :: 0 <= i < |artifacts| ==> DescriptorOk(sha256, artifacts[i], checksums, files)
  }

  function Content(files: map<string, string>, name: string): string {
    if name in files then files[name] else ""
  }

  predicate MetadataSmall(files: map<string, string>, limits: Limits) {
    forall name :: name in CRITICAL_FILES ==> |Content(files, name)| <= limits.maxMetadataBytes
  }

  /** The payload checks, once manifest and checksum file are read. */
  predicate PayloadAccepted(
    sha256: string -> Digest, artifacts: seq<Artifact>, files: map<string, string>, checksums: Checksums)
  {
    && LayoutOk(artifacts, files, checksums)
    && ChecksumsOk(sha256, files, checksums)
    && DescriptorsOk(sha256, artifacts, checksums, files)
  }

  function ChecksumsOf(archive: Archive, limits: Limits): ChecksumFile.Parsed {
    ChecksumFile.Read(Content(Files(archive.members), "checksums.sha256"), limits.maxPathBytes)
  }

  function ManifestText(archive: Archive): string {
    Content(Files(archive.members), "manifest.json")
  }

  function SignatureText(archive: Archive): string {
    Content(Files(archive.members), "manifest.sig")
  }

  /** _verify_bundle raises nothing. */
  predicate Accepts(c: Codec, limits: Limits, archive: Archive) {
    var files := Files(archive.members);
    && 0 < archive.size <= limits.maxArchiveBytes
    && Inspectable(archive.members, archive.size, limits)
    && MetadataSmall(files, limits)
    && c.parse(ManifestText(archive)).Some? && SchemaOk(c.parse(ManifestText(archive)).value)
    && |SignatureText(archive)| == 64
    && c.signer(ManifestText(archive), SignatureText(archive)).Some?
    && var m := c.parse(ManifestText(archive)).value;
    && ManifestValid(m)
    && var read := ChecksumsOf(archive, limits);
    && read.Entries?
    && PayloadAccepted(c.sha256, m.artifacts, files, read.entries)
  }

  datatype Verdict = Verified(manifest: Manifest, fingerprint: string) | Refused(error: VerifyError)

  /** The checksum paths below the roots of some artifacts. */
  function CoveredBy(artifacts: seq<Artifact>, checksums: Checksums): set<string> {
    set p | p in checksums && Covered(artifacts, p)
  }

  lemma CoverOneMore(artifacts: seq<Artifact>, k: nat, checksums: Checksums)
    requires k < |artifacts|
    ensures CoveredBy(artifacts[..k + 1], checksums) ==
            CoveredBy(artifacts[..k], checksums) + Matches(RootName(artifacts[k]), checksums)
  {
    hide RootName;
    hide Under;
    hide IsDigest;
    var before, after := artifacts[..k], artifacts[..k + 1];
    assert forall i :: 0 <= i < k ==> after[i] == before[i] == artifacts[i];
    forall p | p in CoveredBy(after, checksums)
      ensures p in CoveredBy(before, checksums) + Matches(RootName(artifacts[k]), checksums)
    {
      var i :| 0 <= i < |after| && Under(RootName(after[i]), p);
      assert i < k ==> Under(RootName(before[i]), p);
    }
    forall p | p in CoveredBy(before, checksums) + Matches(RootName(artifacts[k]), checksums)
      ensures p in CoveredBy(after, checksums)
    {
      if p in CoveredBy(before, checksums) {
        var i :| 0 <= i < |before| && Under(RootName(before[i]), p);
        assert Under(RootName(after[i]), p);
      } else {
        assert Under(RootName(after[k]), p);
      }
    }
  }

  lemma EverythingCovered(artifacts: seq<Artifact>, checksums: Checksums)
    ensures CoveredBy(artifacts, checksums) == checksums.Keys <==> forall p :: p in checksums ==> Covered(artifacts, p)
    ensures CoveredBy(artifacts[..0], checksums) == {}
  {
    hide RootName;
    hide Under;
  }

  /** The first k roots do not overlap one another. */
  predicate DisjointUpTo(artifacts: seq<Artifact>, k: nat)
    requires k <= |artifacts|
  {
    forall i, j :: 0 <= i < j < k ==> !PathsOverlap(artifacts[j].payloadPath, artifacts[i].payloadPath)
  }

  lemma DisjointOneMore(artifacts: seq<Artifact>, k: nat, roots: seq<string>)
    requires k < |artifacts| && DisjointUpTo(artifacts, k)
    requires |roots| == k && forall i :: 0 <= i < k ==> roots[i] == artifacts[i].payloadPath
    ensures DisjointUpTo(artifacts, k + 1) <==>
            forall i :: 0 <= i < k ==> !PathsOverlap(artifacts[k].payloadPath, roots[i])
    ensures NoOverlap(artifacts) ==> DisjointUpTo(artifacts, k + 1)
    ensures NoOverlap(artifacts) <==> DisjointUpTo(artifacts, |artifacts|)
  {
    hide PathsOverlap;
  }

  /** What only the payload checks answer. */
  ghost predicate PayloadError(e: VerifyError) {
    || e.PayloadLayoutMismatch? || e.PayloadOverlap? || e.PayloadMissing? || e.ImagePayloadInvalid?
    || e.ChartPayloadInvalid? || e.PayloadUndeclared? || e.PayloadChecksumMismatch? || e.PayloadMetadataMismatch?
  }

  method ValidatePayloadLayout(artifacts: seq<Artifact>, files: map<string, string>, checksums: Checksums)
    returns (r: Option<VerifyError>)
    ensures r.None? <==> LayoutOk(artifacts, files, checksums)
    ensures r.Some? ==>
              PayloadError(r.value) && !r.value.PayloadChecksumMismatch? && !r.value.PayloadMetadataMismatch?
    ensures r == Some(PayloadLayoutMismatch) <==> files.Keys - CRITICAL_FILES != checksums.Keys
    ensures r == Some(PayloadOverlap) ==> !NoOverlap(artifacts)
    ensures r == Some(PayloadMissing) ==>
              exists i :: 0 <= i < |artifacts| && Matches(RootName(artifacts[i]), checksums) == {}
    ensures r == Some(ImagePayloadInvalid) ==>
              exists i :: 0 <= i < |artifacts| && artifacts[i].ContainerImage? && !ShapeOk(artifacts[i], files)
    ensures r == Some(ChartPayloadInvalid) ==>
              exists i :: 0 <= i < |artifacts| && artifacts[i].HelmChart? && !ShapeOk(artifacts[i], files)
    ensures r == Some(PayloadUndeclared) ==> exists p :: p in checksums && !Covered(artifacts, p)
  {
    hide PathsOverlap;
    hide ShapeOk;
    hide RootName;
    hide Matches;
    hide Covered;
    hide CoveredBy;
    hide DisjointUpTo;
    hide NoOverlap;
    hide IsDigest;
    EverythingCovered(artifacts, checksums);
    if files.Keys - CRITICAL_FILES != checksums.Keys {
      return Some(PayloadLayoutMismatch);
    }
    var roots: seq<string> := [];
    var covered: set<string> := {};
    NothingYet(artifacts);
    for k := 0 to |artifacts|
      invariant |roots| == k && forall i :: 0 <= i < k ==> roots[i] == artifacts[i].payloadPath
      invariant DisjointUpTo(artifacts, k)
      invariant forall i :: 0 <= i < k ==> RootOk(artifacts[i], files, checksums)
      invariant covered == CoveredBy(artifacts[..k], checksums)
      invariant k == |artifacts| ==> NoOverlap(artifacts)
    {
      var artifact := artifacts[k];
      DisjointOneMore(artifacts, k, roots);
      CoverOneMore(artifacts, k, checksums);
      if exists i :: 0 <= i < |roots| && PathsOverlap(artifact.payloadPath, roots[i]) {
        return Some(PayloadOverlap);
      }
      roots := roots + [artifact.payloadPath];
      var matches := Matches(RootName(artifact), checksums);
      if matches == {} {
        return Some(PayloadMissing);
      }
      covered := covered + matches;
      if !ShapeOk(artifact, files) {
        return Some(if artifact.ContainerImage? then ImagePayloadInvalid else ChartPayloadInvalid);
      }
    }
    assert artifacts[..|artifacts|] == artifacts;
    if covered != checksums.Keys {
      return Some(PayloadUndeclared);
    }
    return None;
  }

  lemma NothingYet(artifacts: seq<Artifact>)
    ensures DisjointUpTo(artifacts, 0) && (|artifacts| == 0 ==> NoOverlap(artifacts))
  {
  }

  method VerifyPayloadChecksums(sha256: string -> Digest, files: map<string, string>, checksums: Checksums)
    returns (ok: bool)
    requires checksums.Keys <= files.Keys
    ensures ok <==> ChecksumsOk(sha256, files, checksums)
  {
    var pending := checksums.Keys;
    while pending != {}
      invariant pending <= checksums.Keys
      invariant forall p :: p in checksums && p !in pending ==> sha256(files[p]) == checksums[p]
      decreases |pending|
    {
      var path :| path in pending;
      if sha256(files[path]) != checksums[path] {
        return false;
      }
      pending := pending - {path};
    }
    return true;
  }

  method VerifyDescriptorMetadata(
    sha256: string -> Digest, artifacts: seq<Artifact>, checksums: Checksums, files: map<string, string>)
    returns (r: Option<VerifyError>)
    requires checksums.Keys <= files.Keys
    ensures r.None? <==> DescriptorsOk(sha256, artifacts, checksums, files)
    ensures r.Some? ==> r.value == PayloadMissing || r.value == PayloadMetadataMismatch
  {
    hide PayloadStats;
    for k := 0 to |artifacts|
      invariant forall i :: 0 <= i < k ==> DescriptorOk(sha256, artifacts[i], checksums, files)
    {
      var stats := PayloadStats(sha256, artifacts[k].payloadPath, checksums, files);
      if stats.None? {
        return Some(PayloadMissing);
      }
      if stats.value.sha256 != artifacts[k].payloadSha256 || stats.value.size != artifacts[k].payloadSize {
        return Some(PayloadMetadataMismatch);
      }
    }
    return None;
  }

  method VerifyPayload(
    sha256: string -> Digest, artifacts: seq<Artifact>, files: map<string, string>, checksums: Checksums)
    returns (r: Option<VerifyError>)
    ensures r.None? <==> PayloadAccepted(sha256, artifacts, files, checksums)
    ensures r.Some? ==> PayloadError(r.value)
    ensures r == Some(PayloadChecksumMismatch) ==>
              LayoutOk(artifacts, files, checksums) && !ChecksumsOk(sha256, files, checksums)
    ensures r == Some(PayloadMetadataMismatch) ==>
              && LayoutOk(artifacts, files, checksums) && ChecksumsOk(sha256, files, checksums)
              && !DescriptorsOk(sha256, artifacts, checksums, files)
  {
    hide LayoutOk;
    hide ChecksumsOk;
    hide DescriptorsOk;
    LayoutNamesFiles(artifacts, files, checksums);
    r := ValidatePayloadLayout(artifacts, files, checksums);
    if r.Some? {
      return;
    }
    var intact := VerifyPayloadChecksums(sha256, files, checksums);
    if !intact {
      return Some(PayloadChecksumMismatch);
    }
    r := VerifyDescriptorMetadata(sha256, artifacts, checksums, files);
  }

  lemma LayoutNamesFiles(artifacts: seq<Artifact>, files: map<string, string>, checksums: Checksums)
    ensures LayoutOk(artifacts, files, checksums) ==> checksums.Keys <= files.Keys
  {
  }

  lemma TextsRead(archive: Archive, limits: Limits)
    ensures ManifestText(archive) == Content(Files(archive.members), "manifest.json")
    ensures SignatureText(archive) == Content(Files(archive.members), "manifest.sig")
    ensures ChecksumsOf(archive, limits) ==
            ChecksumFile.Read(Content(Files(archive.members), "checksums.sha256"), limits.maxPathBytes)
  {
  }

  /** The checks of the verifier, in its order. */
  datatype Check =
    | SizeCheck | MemberCheck | MetadataCheck | ParseCheck | SchemaCheck | SignatureCheck | ModelCheck | ChecksumCheck
    | PayloadCheck

  /** The first check the archive fails, if any. */
  ghost function FirstFailing(c: Codec, limits: Limits, archive: Archive): Option<Check> {
    var files := Files(archive.members);
    var parsed := c.parse(ManifestText(archive));
    if archive.size == 0 || archive.size > limits.maxArchiveBytes then Some(SizeCheck)
    else if !Inspectable(archive.members, archive.size, limits) then Some(MemberCheck)
    else if !MetadataSmall(files, limits) then Some(MetadataCheck)
    else if parsed.None? then Some(ParseCheck)
    else if !SchemaOk(parsed.value) then Some(SchemaCheck)
    else if |SignatureText(archive)| != 64 || c.signer(ManifestText(archive), SignatureText(archive)).None? then
      Some(SignatureCheck)
    else if !ManifestValid(parsed.value) then Some(ModelCheck)
    else if ChecksumsOf(archive, limits).Malformed? then Some(ChecksumCheck)
    else if !PayloadAccepted(c.sha256, parsed.value.artifacts, files, ChecksumsOf(archive, limits).entries) then
      Some(PayloadCheck)
    else None
  }

  /** The error each check answers with. */
  ghost predicate Answers(check: Check, error: VerifyError) {
    match check
    case SizeCheck => error.ArchiveSizeExceeded?
    case MemberCheck => error.Uninspectable?
    case MetadataCheck => error.MetadataTooLarge?
    case ParseCheck => error.ManifestInvalid?
    case SchemaCheck => error.SchemaInvalid?
    case SignatureCheck => error.SignatureUntrusted?
    case ModelCheck => error.ManifestInvalid?
    case ChecksumCheck => error.BadChecksums?
    case PayloadCheck => PayloadError(error)
  }

  lemma AcceptsWhenNoneFails(c: Codec, limits: Limits, archive: Archive)
    ensures Accepts(c, limits, archive) <==> FirstFailing(c, limits, archive).None?
  {
    hide Inspectable;
    hide Files;
    hide ManifestText;
    hide SignatureText;
    hide ChecksumsOf;
    hide MetadataSmall;
    hide ManifestValid;
    hide SchemaOk;
    hide PayloadAccepted;
  }

  method VerifyBundle(c: Codec, limits: Limits, archive: Archive) returns (v: Verdict)
    ensures v.Verified? <==> Accepts(c, limits, archive)
    ensures v.Verified? ==>
              && Some(v.manifest) == c.parse(ManifestText(archive))
              && Some(v.fingerprint) == c.signer(ManifestText(archive), SignatureText(archive))
    ensures v.Refused? <==> FirstFailing(c, limits, archive).Some?
    ensures v.Refused? ==> Answers(FirstFailing(c, limits, archive).value, v.error)
    ensures v.Refused? && v.error.BadChecksums? ==>
              ChecksumsOf(archive, limits) == ChecksumFile.Malformed(v.error.parsing)
  {
    AcceptsWhenNoneFails(c, limits, archive);
    hide Accepts;
    TextsRead(archive, limits);
    hide Files;
    hide Content;
    hide ManifestText;
    hide SignatureText;
    hide ChecksumsOf;
    hide ChecksumFile.Read;
    hide ChecksumFile.WellFormed;
    hide ChecksumFile.Names;
    hide MetadataSmall;
    hide Inspectable;
    hide MembersAllowed;
    hide NamesWithinLimit;
    hide RatioAllowed;
    hide ManifestValid;
    hide SchemaOk;
    hide PayloadAccepted;
    if archive.size <= 0 || archive.size > limits.maxArchiveBytes {
      return Refused(ArchiveSizeExceeded);
    }
    var inspection := InspectArchive(archive.members, archive.size, limits);
    if inspection.Rejected? {
      return Refused(Uninspectable(inspection.error));
    }
    var files := inspection.files;
    if !MetadataSmall(files, limits) {
      return Refused(MetadataTooLarge);
    }
    var manifestText, signature := Content(files, "manifest.json"), Content(files, "manifest.sig");
    var parsed := c.parse(manifestText);
    if parsed.None? {
      return Refused(ManifestInvalid);
    }
    if !SchemaOk(parsed.value) {
      return Refused(SchemaInvalid);
    }
    var signer := c.signer(manifestText, signature);
    if |signature| != 64 || signer.None? {
      return Refused(SignatureUntrusted);
    }
    if !ManifestValid(parsed.value) {
      return Refused(ManifestInvalid);
    }
    var read := ChecksumFile.ParseChecksums(Content(files, "checksums.sha256"), limits.maxPathBytes);
    if read.Malformed? {
      return Refused(BadChecksums(read.error));
    }
    var problem := VerifyPayload(c.sha256, parsed.value.artifacts, files, read.entries);
    if problem.Some? {
      return Refused(problem.value);
    }
    return Verified(parsed.value, signer.value);
  }
}
