/** Typed manifest v1 as domain/bundle.py declares it. */
module BundleManifest {
  import opened BundleNames
  import opened PosixPath

  datatype Option<+T> = None | Some(value: T)

  datatype Artifact =
    | ContainerImage(
        repository: string,
        reference: string,
        imageDigest: string,
        payloadPath: string,
        payloadSha256: Digest,
        payloadSize: nat)
    | HelmChart(
        repository: string,
        name: string,
        version: string,
        chartDigest: Option<string>,
        payloadPath: string,
        payloadSha256: Digest,
        payloadSize: nat)

  /** source_digest: always present for an image, optional for a chart. */
  function SourceDigest(a: Artifact): Option<string> {
    match a
    case ContainerImage(_, _, digest, _, _, _) => Some(digest)
    case HelmChart(_, _, _, digest, _, _, _) => digest
  }

  /** The fields beside the artifacts: utc is the offset of created_at, rest what no check here looks at. */
  datatype Header = Header(createdBy: string, harbor: string, comment: Option<string>, utc: bool, rest: string)

  datatype Manifest = Manifest(deliveryId: string, header: Header, artifacts: seq<Artifact>)

  predicate IsOciDigest(s: string) {
    |s| == 71 && s[..7] == "sha256:" && IsDigest(s[7..])
  }

  /** validate_relative_payload_path */
  predicate PayloadPathAccepted(value: string) {
    && !IsAbsolute(value) && value != "" && ".." !in Parts(value) && "." !in Parts(value)
    && '\\' !in value && '\0' !in value
  }

  predicate ArtifactValid(a: Artifact) {
    && PayloadPathAccepted(a.payloadPath)
    && (SourceDigest(a).Some? ==> IsOciDigest(SourceDigest(a).value))
  }

  predicate HeaderValid(h: Header) {
    h.utc && (h.comment.Some? ==> |h.comment.value| <= 2000)
  }

  /** Validation by the manifest model, which builder and verifier share. */
  predicate ManifestValid(m: Manifest) {
    HeaderValid(m.header) && m.artifacts != [] && forall i :: 0 <= i < |m.artifacts| ==> ArtifactValid(m.artifacts[i])
  }

  predicate ArtifactNamed(a: Artifact) {
    && a.repository != ""
    && if a.ContainerImage? then a.reference != "" else a.name != "" && a.version != ""
  }

  /** What the JSON Schema asks beyond the manifest model: texts that are not empty. Only the verifier applies it. */
  predicate SchemaOk(m: Manifest) {
    && m.header.createdBy != "" && m.header.harbor != ""
    && forall i :: 0 <= i < |m.artifacts| ==> ArtifactNamed(m.artifacts[i])
  }
}
