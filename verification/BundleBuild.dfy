/** Building a bundle from staged payloads, and exactly when the build passes its own verifier. */
module BundleBuild {
  import opened BundleManifest
  import opened BundleNames
  import opened PosixPath
  import opened Text
  import ChecksumFile
  import opened BundleArchive
  import opened BundleVerification

  /** A copied directory snapshot: paths relative to its root. */
  datatype Tree = Tree(files: map<string, string>, directories: set<string>)

  predicate ProperRelative(p: string) {
    Canonical(p) && ".." !in Parts(p)
  }

  /** What any file system guarantees about a directory. */
  ghost predicate IsFileTree(t: Tree) {
    && (forall p :: p in t.files.Keys + t.directories ==> ProperRelative(p))
    && t.files.Keys !! t.directories
    && (forall p, d :: p in t.files.Keys + t.directories && ProperRelative(d) && d + "/" <= p ==> d in t.directories)
  }

  type FileTree = t: Tree | IsFileTree(t) ghost witness Tree(map[], {})

  datatype SourceKind = RegularFile | DirectoryTree | OtherKind

  /** The source path of a payload once links are resolved; plainInside: below it only files and directories. */
  datatype Source = Source(underPayloadRoot: bool, kind: SourceKind, endsInTgz: bool, plainInside: bool)

  datatype PackageInput =
    | ImageInput(
        repository: string, reference: string, imageDigest: string, payloadPath: string, source: Source, tree: FileTree)
    | ChartInput(
        repository: string, name: string, version: string, chartDigest: Option<string>, payloadPath: string,
        source: Source, content: string)

  /** _validate_payload_destination raises nothing. */
  predicate DestinationOk(a: PackageInput, limits: Limits) {
    var path := a.payloadPath;
    && SafeName(AsPosix(path), limits.maxPathBytes)
    && AsPosix(path) == path && |Parts(path)| >= 2
    && match a {
         case ImageInput(_, _, _, _, _, _) => Parts(path)[0] == "images"
         case ChartInput(_, _, _, _, _, _, _) =>
           Parts(path)[0] == "charts" && EndsWithTgz(Parts(path)[|Parts(path)| - 1])
       }
  }

  predicate EndsWithTgz(s: string) {
    |s| >= 4 && s[|s| - 4..] == ".tgz"
  }

  function Inside(root: string, relative: string): string {
    root + "/" + relative
  }

  function FilePaths(a: PackageInput): set<string> {
    match a
    case ImageInput(_, _, _, root, _, tree) => set f | f in tree.files :: Inside(root, f)
    case ChartInput(_, _, _, _, root, _, _) => {root}
  }

  /** The regular files one artifact stages, by archive path. */
  function FilesOf(a: PackageInput): (files: map<string, string>)
    ensures files.Keys == FilePaths(a)
    ensures a.ChartInput? ==> files == map[a.payloadPath := a.content]
    ensures a.ImageInput? ==> forall f :: f in a.tree.files ==>
              Inside(a.payloadPath, f) in files && files[Inside(a.payloadPath, f)] == a.tree.files[f]
  {
    match a
    case ImageInput(_, _, _, root, _, tree) =>
      assert forall f :: f in tree.files ==> Inside(root, f)[|root| + 1..] == f;
      map p | p in FilePaths(a) :: tree.files[p[|root| + 1..]]
    case ChartInput(_, _, _, _, root, _, content) => map[root := content]
  }

  function DirectoriesOf(a: PackageInput): set<string> {
    Ancestors(a.payloadPath) +
    match a {
      case ImageInput(_, _, _, root, _, tree) => {root} + set d | d in tree.directories :: Inside(root, d)
      case ChartInput(_, _, _, _, _, _, _) => {}
    }
  }

  datatype Workspace = Workspace(files: map<string, string>, directories: set<string>)

  /** The files hold the inputs: each chart and each file of an image at its own path, byte for byte, and no more. */
  ghost predicate HoldsInputs(inputs: seq<PackageInput>, files: map<string, string>) {
    && (forall i :: 0 <= i < |inputs| && inputs[i].ChartInput? ==>
          inputs[i].payloadPath in files && files[inputs[i].payloadPath] == inputs[i].content)
    && (forall i, f :: 0 <= i < |inputs| && inputs[i].ImageInput? && f in inputs[i].tree.files ==>
          var p := inputs[i].payloadPath + "/" + f;
          p in files && files[p] == inputs[i].tree.files[f])
    && forall p :: p in files ==> exists i :: 0 <= i < |inputs| && OfInput(inputs[i], p)
  }

  /** The path is one the input stages. */
  predicate OfInput(a: PackageInput, p: string) {
    || (a.ChartInput? && p == a.payloadPath)
    || (a.ImageInput? && exists f :: f in a.tree.files && p == a.payloadPath + "/" + f)
  }

  function Staged(inputs: seq<PackageInput>): Workspace {
    if inputs == [] then Workspace(map[], {})
    else
      var before, last := Staged(inputs[..|inputs| - 1]), inputs[|inputs| - 1];
      Workspace(before.files + FilesOf(last), before.directories + DirectoriesOf(last))
  }

  predicate RootsDisjoint(inputs: seq<PackageInput>) {
    forall i, j :: 0 <= i < j < |inputs| ==> !PathsOverlap(inputs[j].payloadPath, inputs[i].payloadPath)
  }

  /** The source checks, and the snapshot limits; a chart file is only limited later, by the archive check. */
  predicate SourceOk(a: PackageInput, limits: Limits) {
    && a.source.underPayloadRoot
    && if a.ChartInput? then a.source.kind.RegularFile? && a.source.endsInTgz
       else
         && a.source.kind.DirectoryTree? && a.source.plainInside
         && |a.tree.files| <= limits.maxMembers && Weight(a.tree.files.Keys, a.tree.files) <= limits.maxExtractedBytes
  }

  /** _stage_payloads raises nothing. */
  predicate Stageable(inputs: seq<PackageInput>, limits: Limits) {
    && (forall i :: 0 <= i < |inputs| ==> DestinationOk(inputs[i], limits) && SourceOk(inputs[i], limits))
    && RootsDisjoint(inputs)
  }

  method StagePayloads(inputs: seq<PackageInput>, limits: Limits) returns (r: Option<Workspace>)
    ensures r.Some? <==> Stageable(inputs, limits)
    ensures r.Some? ==> r.value == Staged(inputs)
  {
    hide DestinationOk;
    hide SourceOk;
    hide PathsOverlap;
    hide FilesOf;
    hide DirectoriesOf;
    hide Staged;
    hide DisjointUpTo;
    hide RootsDisjoint;
    var roots: seq<string> := [];
    var workspace := Workspace(map[], {});
    StagedSteps(inputs);
    for k := 0 to |inputs|
      invariant |roots| == k && forall i :: 0 <= i < k ==> roots[i] == inputs[i].payloadPath
      invariant forall i :: 0 <= i < k ==> DestinationOk(inputs[i], limits) && SourceOk(inputs[i], limits)
      invariant DisjointUpTo(inputs, k)
      invariant workspace == Staged(inputs[..k])
    {
      var artifact := inputs[k];
      DisjointOneMore(inputs, k, roots);
      if !DestinationOk(artifact, limits) {
        return None;
      }
      if exists i :: 0 <= i < |roots| && PathsOverlap(artifact.payloadPath, roots[i]) {
        return None;
      }
      roots := roots + [artifact.payloadPath];
      if !SourceOk(artifact, limits) {
        return None;
      }
      workspace := Workspace(workspace.files + FilesOf(artifact), workspace.directories + DirectoriesOf(artifact));
    }
    return Some(workspace);
  }

  /** The first k destinations do not overlap one another. */
  predicate DisjointUpTo(inputs: seq<PackageInput>, k: nat)
    requires k <= |inputs|
  {
    forall i, j :: 0 <= i < j < k ==> !PathsOverlap(inputs[j].payloadPath, inputs[i].payloadPath)
  }

  lemma DisjointOneMore(inputs: seq<PackageInput>, k: nat, roots: seq<string>)
    requires k < |inputs| && DisjointUpTo(inputs, k)
    requires |roots| == k && forall i :: 0 <= i < k ==> roots[i] == inputs[i].payloadPath
    ensures DisjointUpTo(inputs, k + 1) <==>
            !(exists i :: 0 <= i < |roots| && PathsOverlap(inputs[k].payloadPath, roots[i]))
    ensures RootsDisjoint(inputs) ==> DisjointUpTo(inputs, k + 1)
  {
    hide PathsOverlap;
  }

  lemma StagedSteps(inputs: seq<PackageInput>)
    ensures Staged(inputs[..0]) == Workspace(map[], {}) && inputs[..|inputs|] == inputs
    ensures forall k :: 0 <= k < |inputs| ==>
              Staged(inputs[..k + 1]) ==
              Workspace(Staged(inputs[..k]).files + FilesOf(inputs[k]),
                        Staged(inputs[..k]).directories + DirectoriesOf(inputs[k]))
    ensures DisjointUpTo(inputs, 0) && (DisjointUpTo(inputs, |inputs|) <==> RootsDisjoint(inputs))
  {
    hide FilesOf;
    hide DirectoriesOf;
    hide PathsOverlap;
    forall k | 0 <= k < |inputs|
      ensures inputs[..k + 1][..k] == inputs[..k] && inputs[..k + 1][k] == inputs[k]
    {
    }
  }

  /** One artifact's share of the checksum file. */
  predicate ArtifactChecksummable(a: PackageInput, limits: Limits) {
    FilePaths(a) != {} && forall p :: p in FilePaths(a) ==> SafeName(p, limits.maxPathBytes)
  }

  /** _checksum_payload_files raises nothing: no artifact is empty, every file name is safe. */
  predicate Checksummable(inputs: seq<PackageInput>, limits: Limits) {
    forall i :: 0 <= i < |inputs| ==> ArtifactChecksummable(inputs[i], limits)
  }

  function Digests(sha256: string -> Digest, files: map<string, string>): Checksums {
    map p | p in files :: sha256(files[p])
  }

  function AddDigests(
    entries: Checksums, candidates: set<string>, sha256: string -> Digest, files: map<string, string>): (r: Checksums)
    requires candidates <= files.Keys
    ensures r.Keys == entries.Keys + candidates
    ensures forall p :: p in r ==> r[p] == if p in candidates then sha256(files[p]) else entries[p]
  {
    entries + map p | p in candidates :: sha256(files[p])
  }

  method ChecksumPayloadFiles(
    sha256: string -> Digest, inputs: seq<PackageInput>, files: map<string, string>, limits: Limits)
    returns (r: Option<Checksums>)
    requires files == Staged(inputs).files
    ensures r.Some? <==> Checksummable(inputs, limits)
    ensures r.Some? ==> r.value == Digests(sha256, files)
  {
    hide SafeName;
    hide FilePaths;
    hide Staged;
    hide IsDigest;
    hide ArtifactChecksummable;
    hide AddDigests;
    var entries: Checksums := map[];
    NothingStaged(inputs);
    for k := 0 to |inputs|
      invariant forall i :: 0 <= i < k ==> ArtifactChecksummable(inputs[i], limits)
      invariant entries.Keys == Staged(inputs[..k]).files.Keys <= files.Keys
      invariant forall p :: p in entries ==> entries[p] == sha256(files[p])
    {
      StagedGrow(inputs, k);
      SafeOrNot(inputs[k], limits);
      var candidates := FilePaths(inputs[k]);
      if candidates == {} {
        return None;
      }
      if exists p :: p in candidates && !SafeName(p, limits.maxPathBytes) {
        return None;
      }
      entries := AddDigests(entries, candidates, sha256, files);
    }
    assert inputs[..|inputs|] == inputs;
    return Some(entries);
  }

  lemma SafeOrNot(a: PackageInput, limits: Limits)
    ensures ArtifactChecksummable(a, limits) <==>
            FilePaths(a) != {} && !(exists p :: p in FilePaths(a) && !SafeName(p, limits.maxPathBytes))
  {
    hide SafeName;
    hide FilePaths;
  }

  lemma NothingStaged(inputs: seq<PackageInput>)
    ensures Staged(inputs[..0]).files == map[]
  {
  }

  lemma {:induction false} StagedGrow(inputs: seq<PackageInput>, k: nat)
    requires k < |inputs|
    ensures Staged(inputs[..k + 1]).files.Keys == Staged(inputs[..k]).files.Keys + FilePaths(inputs[k])
    ensures Staged(inputs[..k]).files.Keys <= Staged(inputs).files.Keys
    ensures FilePaths(inputs[k]) <= Staged(inputs).files.Keys
    decreases |inputs| - k
  {
    assert inputs[..k + 1][..k] == inputs[..k];
    if k + 1 < |inputs| {
      StagedGrow(inputs, k + 1);
    } else {
      assert inputs[..k + 1] == inputs;
    }
  }

  function Describe(a: PackageInput, stats: Stats): Artifact {
    match a
    case ImageInput(repository, reference, digest, root, _, _) =>
      ContainerImage(repository, reference, digest, root, stats.sha256, stats.size)
    case ChartInput(repository, name, version, digest, root, _, _) =>
      HelmChart(repository, name, version, digest, root, stats.sha256, stats.size)
  }

  /** The descriptor records exactly what the input says and what the payload measures. */
  ghost predicate DescribesInput(
    sha256: string -> Digest, a: PackageInput, d: Artifact, checksums: Checksums, files: map<string, string>)
    requires checksums.Keys <= files.Keys
  {
    && d.payloadPath == a.payloadPath
    && DescriptorOk(sha256, d, checksums, files)
    && d == Describe(a, Stats(d.payloadSha256, d.payloadSize))
  }

  /**
    The manifest names the inputs, in their order: each field from its own input, a chart measured by its
    bytes, an image by its files and the listing of their digests.
   */
  ghost predicate NamesInputs(sha256: string -> Digest, inputs: seq<PackageInput>, artifacts: seq<Artifact>) {
    && |artifacts| == |inputs|
    && (forall i :: 0 <= i < |inputs| && inputs[i].ChartInput? ==>
          var a, d := inputs[i], artifacts[i];
          && d.HelmChart? && d.repository == a.repository && d.name == a.name && d.version == a.version
          && d.chartDigest == a.chartDigest && d.payloadPath == a.payloadPath
          && d.payloadSha256 == sha256(a.content) && d.payloadSize == |a.content|)
    && forall i :: 0 <= i < |inputs| && inputs[i].ImageInput? ==>
         var a, d := inputs[i], artifacts[i];
         && d.ContainerImage? && d.repository == a.repository && d.reference == a.reference
         && d.imageDigest == a.imageDigest && d.payloadPath == a.payloadPath
         && d.payloadSha256 ==
            sha256(ChecksumFile.Serialize(ChecksumFile.SortedEntries(Digests(sha256, FilesOf(a)))))
         && d.payloadSize == Weight(a.tree.files.Keys, a.tree.files)
  }

  method BuildDescriptors(
    sha256: string -> Digest, inputs: seq<PackageInput>, checksums: Checksums, files: map<string, string>)
    returns (r: Option<seq<Artifact>>)
    requires checksums.Keys <= files.Keys
    ensures r.Some? <==> forall i :: 0 <= i < |inputs| ==> Matches(inputs[i].payloadPath, checksums) != {}
    ensures r.Some? ==> |r.value| == |inputs|
    ensures r.Some? ==> forall i :: 0 <= i < |inputs| ==>
              DescribesInput(sha256, inputs[i], r.value[i], checksums, files)
  {
    hide TreeText;
    hide Weight;
    var descriptors: seq<Artifact> := [];
    for k := 0 to |inputs|
      invariant |descriptors| == k
      invariant forall i :: 0 <= i < k ==> Matches(inputs[i].payloadPath, checksums) != {}
      invariant forall i :: 0 <= i < k ==> DescribesInput(sha256, inputs[i], descriptors[i], checksums, files)
    {
      var stats := PayloadStats(sha256, inputs[k].payloadPath, checksums, files);
      if stats.None? {
        return None;
      }
      descriptors := descriptors + [Describe(inputs[k], stats.value)];
    }
    return Some(descriptors);
  }

  /** One member per file and per directory, directories with a trailing slash. */
  function MemberAt(w: Workspace, path: string): Member {
    if path in w.files then Member(path, File(w.files[path])) else Member(path + "/", Directory)
  }

  /** _write_deterministic_archive */
  function Pack(w: Workspace): seq<Member> {
    var paths := Sorted(w.files.Keys + w.directories);
    seq(|paths|, i requires 0 <= i < |paths| => MemberAt(w, paths[i]))
  }

  predicate NamesSafe(w: Workspace, limits: Limits) {
    forall p :: p in w.files.Keys + w.directories ==> SafeName(p, limits.maxPathBytes)
  }

  /** The signer's side of the codec: canonical JSON and an Ed25519 signature over it. */
  datatype Signing = Signing(encode: Manifest -> string, sign: string -> string)

  /** Canonical JSON reads back as the manifest, and the public half confirms the signature. */
  ghost predicate SignsFor(s: Signing, c: Codec, m: Manifest) {
    && c.parse(s.encode(m)) == Some(m)
    && |s.sign(s.encode(m))| == 64
    && c.signer(s.encode(m), s.sign(s.encode(m))).Some?
  }

  function ChecksumText(checksums: Checksums): string {
    ChecksumFile.Serialize(ChecksumFile.SortedEntries(checksums))
  }

  function WithMetadata(w: Workspace, manifestText: string, signature: string, checksums: Checksums): Workspace {
    w.(files := w.files[
      "manifest.json" := manifestText]["manifest.sig" := signature]["checksums.sha256" := ChecksumText(checksums)])
  }
}
