/** What an accepted bundle guarantees: an exact partition of its payload, pinned by the signed manifest. */
module BundleSafety {
  import opened BundleManifest
  import opened BundleNames
  import opened PosixPath
  import opened Text
  import ChecksumFile
  import opened BundleArchive
  import opened BundleVerification

  function TotalSize(artifacts: seq<Artifact>): nat {
    if artifacts == [] then 0 else TotalSize(artifacts[..|artifacts| - 1]) + artifacts[|artifacts| - 1].payloadSize
  }

  /** Everything under the roots of some artifacts. */
  function UnderAny(artifacts: seq<Artifact>, checksums: Checksums): set<string> {
    set p | p in checksums && exists i :: 0 <= i < |artifacts| && Under(artifacts[i].payloadPath, p)
  }

  lemma {:induction false} WeightRemove(paths: set<string>, x: string, files: map<string, string>)
    requires paths <= files.Keys && x in paths
    ensures Weight(paths, files) == |files[x]| + Weight(paths - {x}, files)
    decreases |paths|
  {
    var l := Least(paths);
    if x != l {
      WeightRemove(paths - {l}, x, files);
      WeightRemove(paths - {x}, l, files);
      assert paths - {l} - {x} == paths - {x} - {l};
    }
  }

  lemma {:induction false} WeightAgrees(paths: set<string>, f1: map<string, string>, f2: map<string, string>)
    requires paths <= f1.Keys && paths <= f2.Keys
    requires forall p :: p in paths ==> f1[p] == f2[p]
    ensures Weight(paths, f1) == Weight(paths, f2)
    decreases |paths|
  {
    if paths != {} {
      WeightAgrees(paths - {Least(paths)}, f1, f2);
    }
  }

  /** What a running total over distinct members measures is the total size of the files. */
  lemma {:induction false} ExtractedIsWeight(members: seq<Member>)
    requires DistinctNames(members)
    ensures ExtractedBytes(members) == Weight(Files(members).Keys, Files(members))
  {
    if members != [] {
      var n := |members| - 1;
      var m, before, after := members[n], Files(members[..n]), Files(members);
      ExtractedIsWeight(members[..n]);
      if m.kind.File? {
        NewName(members);
        assert after == before[m.name := m.kind.content];
        assert after.Keys - {m.name} == before.Keys;
        WeightRemove(after.Keys, m.name, after);
        WeightAgrees(before.Keys, before, after);
      }
      hide Normalized;
    }
  }

  lemma NewName(members: seq<Member>)
    requires DistinctNames(members) && members != [] && members[|members| - 1].kind.File?
    ensures members[|members| - 1].name !in Files(members[..|members| - 1])
  {
    var n := |members| - 1;
    FileNameIsNormalized(members[n]);
    forall i | 0 <= i < n && members[i].kind.File?
      ensures members[i].name != members[n].name && members[..n][i] == members[i]
    {
      FileNameIsNormalized(members[i]);
    }
    hide Normalized;
  }

  lemma RatioMeans(extracted: nat, size: nat, ratio: real)
    requires size > 0
    ensures extracted as real / size as real <= ratio <==> extracted as real <= ratio * size as real
  {
    var q := extracted as real / size as real;
    assert q * size as real == extracted as real;
    if q <= ratio {
      assert q * size as real <= ratio * size as real;
    }
  }

  lemma InspectableLimits(members: seq<Member>, size: nat, limits: Limits)
    requires Inspectable(members, size, limits) && MetadataSmall(Files(members), limits) && size > 0
    ensures var files := Files(members);
            && |members| <= limits.maxMembers
            && Weight(files.Keys, files) <= limits.maxExtractedBytes
            && Weight(files.Keys, files) as real <= limits.maxCompressionRatio * size as real
            && (forall name :: name in {"manifest.json", "manifest.sig", "checksums.sha256"} ==>
                  name in files && |files[name]| <= limits.maxMetadataBytes)
            && forall i :: 0 <= i < |members| ==> Utf8Length(Normalized(members[i])) <= limits.maxPathBytes
  {
    hide *;
    InspectableMeans(members, size, limits);
    ExtractedIsWeight(members);
    RatioMeans(ExtractedBytes(members), size, limits.maxCompressionRatio);
    MetadataThere(members);
    MetadataMeasured(Files(members), limits);
  }

  lemma InspectableMeans(members: seq<Member>, size: nat, limits: Limits)
    requires Inspectable(members, size, limits) && size > 0
    ensures MembersAllowed(members) && DistinctNames(members) && |members| <= limits.maxMembers
    ensures ExtractedBytes(members) <= limits.maxExtractedBytes
    ensures ExtractedBytes(members) as real / size as real <= limits.maxCompressionRatio
    ensures forall i :: 0 <= i < |members| ==> Utf8Length(Normalized(members[i])) <= limits.maxPathBytes
  {
    hide MemberAllowed;
    hide DistinctNames;
    hide ExtractedBytes;
    hide Confined;
    hide Parts;
    hide Utf8Length;
    hide Normalized;
  }

  lemma MetadataMeasured(files: map<string, string>, limits: Limits)
    requires MetadataSmall(files, limits) && CRITICAL_FILES <= files.Keys
    ensures forall name :: name in {"manifest.json", "manifest.sig", "checksums.sha256"} ==>
              name in files && |files[name]| <= limits.maxMetadataBytes
  {
  }

  /**
    The limits an accepted archive keeps, measured on its files: how large it is, how many members it has,
    what it extracts to in all and in proportion to its size, its metadata and its names.
   */
  lemma AcceptedKeepsLimits(c: Codec, limits: Limits, archive: Archive)
    requires Accepts(c, limits, archive)
    ensures var files := Files(archive.members);
            && 0 < archive.size <= limits.maxArchiveBytes && |archive.members| <= limits.maxMembers
            && Weight(files.Keys, files) <= limits.maxExtractedBytes
            && Weight(files.Keys, files) as real <= limits.maxCompressionRatio * archive.size as real
            && (forall name :: name in {"manifest.json", "manifest.sig", "checksums.sha256"} ==>
                  name in files && |files[name]| <= limits.maxMetadataBytes)
            && "manifest.sig" in files && |files["manifest.sig"]| == 64
            && forall i :: 0 <= i < |archive.members| ==>
                 Utf8Length(Normalized(archive.members[i])) <= limits.maxPathBytes
  {
    hide *;
    AcceptedInspection(c, limits, archive);
    InspectableLimits(archive.members, archive.size, limits);
    ContentIs(Files(archive.members), "manifest.sig");
  }

  lemma ContentIs(files: map<string, string>, name: string)
    ensures name in files ==> Content(files, name) == files[name]
  {
  }

  lemma AcceptedInspection(c: Codec, limits: Limits, archive: Archive)
    requires Accepts(c, limits, archive)
    ensures 0 < archive.size <= limits.maxArchiveBytes
    ensures Inspectable(archive.members, archive.size, limits) && MetadataSmall(Files(archive.members), limits)
    ensures MembersAllowed(archive.members) && DistinctNames(archive.members)
    ensures |Content(Files(archive.members), "manifest.sig")| == 64
  {
    hide MemberAllowed;
    hide NamesWithinLimit;
    hide ExtractedBytes;
    hide RatioAllowed;
    hide MetadataSmall;
    hide ManifestText;
    hide ManifestValid;
    hide SchemaOk;
    hide PayloadAccepted;
    hide ChecksumsOf;
    hide Files;
    hide DistinctNames;
  }

  lemma MetadataThere(members: seq<Member>)
    requires MembersAllowed(members)
    ensures CRITICAL_FILES <= Files(members).Keys
  {
    forall name | name in CRITICAL_FILES
      ensures name in Files(members)
    {
      var m :| m in members && Normalized(m) == name;
      var i :| 0 <= i < |members| && members[i] == m;
      assert MemberAllowed(members[i]);
      FileNameIsNormalized(m);
    }
  }

  /**
    What an archive may hold: regular files and directories only, each under a plain relative name of its own,
    metadata by its three names, everything else below images/ or charts/, no directory without a file.
   */
  ghost predicate SafeMember(members: seq<Member>, i: nat)
    requires i < |members|
  {
    var m := members[i];
    var name := Normalized(m);
    var parts := Split(name);
    && (m.kind.File? || m.kind.Directory?)
    && '\\' !in m.name && '\0' !in m.name && '\n' !in m.name && '\r' !in m.name
    && name != "" && name[0] != '/'
    && (forall j :: 0 <= j < |parts| ==> parts[j] != "" && parts[j] != "." && parts[j] != "..")
    && (name in {"manifest.json", "manifest.sig", "checksums.sha256"} ==> m.kind.File?)
    && (name !in {"manifest.json", "manifest.sig", "checksums.sha256"} ==> parts[0] in {"images", "charts"})
    && (forall j :: 0 <= j < |members| && j != i ==> Normalized(members[j]) != name)
    && (m.kind.Directory? ==> exists p :: p in Files(members) && name + "/" <= p)
  }

  lemma DirectoryIsUsed(members: seq<Member>, m: Member)
    requires MembersAllowed(members) && m in members && IsPayloadDirectory(m)
    ensures exists p :: p in Files(members) && Normalized(m) + "/" <= p
  {
    hide MemberAllowed;
    hide DistinctNames;
    hide Normalized;
    hide Names;
    hide PayloadFiles;
    hide IsPayloadDirectory;
    assert Normalized(m) in PayloadDirectories(members);
    hide PayloadDirectories;
    PayloadFileMembers(members);
    hide Files;
    var p :| p in PayloadFiles(members) && Normalized(m) + "/" <= p;
    assert p in Files(members);
  }

  lemma NameIsOwn(members: seq<Member>, i: nat)
    requires MembersAllowed(members) && i < |members|
    ensures MemberAllowed(members[i])
    ensures forall j :: 0 <= j < |members| && j != i ==> Normalized(members[j]) != Normalized(members[i])
  {
    hide MemberAllowed;
    hide Normalized;
    hide Names;
    hide PayloadDirectories;
  }

  lemma SafeFromFacts(members: seq<Member>, i: nat)
    requires i < |members|
    requires var m, name := members[i], Normalized(members[i]);
             && (m.kind.File? || m.kind.Directory?) && !HasForbiddenChar(m.name)
             && name != "" && name[0] != '/' && Proper(Split(name)) && ".." !in Split(name)
             && (name in CRITICAL_FILES ==> m.kind.File?)
             && (name !in CRITICAL_FILES ==> Split(name)[0] in PAYLOAD_ROOTS)
             && (m.kind.Directory? ==> exists p :: p in Files(members) && name + "/" <= p)
    requires forall j :: 0 <= j < |members| && j != i ==> Normalized(members[j]) != Normalized(members[i])
    ensures SafeMember(members, i)
  {
    hide Normalized;
    hide Split;
    hide Files;
  }

  lemma AllowedMemberIsSafe(members: seq<Member>, i: nat)
    requires MembersAllowed(members) && i < |members|
    ensures SafeMember(members, i)
  {
    hide *;
    NameIsOwn(members, i);
    NameIsPlain(members[i]);
    if members[i].kind.Directory? {
      DirectoryIsUsed(members, members[i]);
    }
    SafeFromFacts(members, i);
  }

  /** Every member of an accepted archive is safe. */
  lemma AcceptedMembersAreSafe(c: Codec, limits: Limits, archive: Archive)
    requires Accepts(c, limits, archive)
    ensures forall i :: 0 <= i < |archive.members| ==> SafeMember(archive.members, i)
  {
    hide *;
    AcceptedInspection(c, limits, archive);
    forall i | 0 <= i < |archive.members|
      ensures SafeMember(archive.members, i)
    {
      AllowedMemberIsSafe(archive.members, i);
    }
  }

  lemma NameIsPlain(m: Member)
    requires MemberAllowed(m)
    ensures var name := Normalized(m);
            && (m.kind.File? || m.kind.Directory?) && !HasForbiddenChar(m.name)
            && name != "" && name[0] != '/' && Proper(Split(name)) && ".." !in Split(name)
            && (name in CRITICAL_FILES ==> m.kind.File?)
            && (name !in CRITICAL_FILES ==> Split(name)[0] in PAYLOAD_ROOTS)
            && (m.kind.Directory? ==> IsPayloadDirectory(m))
  {
    var name := Normalized(m);
    AllowedIsCanonical(m);
    CanonicalComponents(name);
    hide Canonical;
    hide Split;
    hide Normalized;
  }

  lemma AllowedIsCanonical(m: Member)
    requires MemberAllowed(m)
    ensures Canonical(Normalized(m))
  {
    hide Normalized;
    var name := Normalized(m);
    if name in CRITICAL_FILES {
      PartsOfMetadata(name);
    }
  }

  lemma PartsOfMetadata(name: string)
    requires name in CRITICAL_FILES
    ensures Parts(name) != []
  {
    assert '/' !in name && name != "" && name != ".";
    SplitPlain(name);
    hide Split;
    assert Kept([name]) == [name] + Kept([name][1..]);
  }

  lemma {:induction false} WeightUnion(a: set<string>, b: set<string>, files: map<string, string>)
    requires a + b <= files.Keys && a !! b
    ensures Weight(a + b, files) == Weight(a, files) + Weight(b, files)
    decreases |a|
  {
    if a == {} {
      assert a + b == b;
    } else {
      var x :| x in a;
      WeightRemove(a, x, files);
      WeightRemove(a + b, x, files);
      WeightUnion(a - {x}, b, files);
      assert a + b - {x} == (a - {x}) + b;
    }
  }

  /** The verifier's premises once manifest, files and checksums are in hand. */
  ghost predicate Accepted(
    sha256: string -> Digest, artifacts: seq<Artifact>, files: map<string, string>, checksums: Checksums)
  {
    && PayloadAccepted(sha256, artifacts, files, checksums)
    && (forall p :: p in checksums ==> Canonical(p))
    && (forall i :: 0 <= i < |artifacts| ==> PayloadPathAccepted(artifacts[i].payloadPath))
  }

  /** The parts of acceptance the payload theorems start from. */
  lemma AcceptedParts(c: Codec, limits: Limits, archive: Archive)
    requires Accepts(c, limits, archive)
    ensures c.parse(ManifestText(archive)).Some? && ChecksumsOf(archive, limits).Entries?
    ensures MembersAllowed(archive.members) && ManifestValid(c.parse(ManifestText(archive)).value)
    ensures PayloadAccepted(c.sha256, c.parse(ManifestText(archive)).value.artifacts,
                            Files(archive.members), ChecksumsOf(archive, limits).entries)
  {
    hide MembersAllowed;
    hide NamesWithinLimit;
    hide ExtractedBytes;
    hide RatioAllowed;
    hide MetadataSmall;
    hide ManifestText;
    hide ManifestValid;
    hide PayloadAccepted;
    hide ChecksumsOf;
    hide Files;
  }

  lemma PayloadNamesAreCanonical(
    sha256: string -> Digest, artifacts: seq<Artifact>, members: seq<Member>, checksums: Checksums)
    requires MembersAllowed(members) && PayloadAccepted(sha256, artifacts, Files(members), checksums)
    ensures forall p :: p in checksums ==> Canonical(p)
  {
    FilesAreCanonical(members);
    hide MembersAllowed;
    hide Files;
    hide Canonical;
    hide InPayloadLayout;
    hide NoOverlap;
    hide RootOk;
    hide Covered;
    hide ChecksumsOk;
    hide DescriptorsOk;
    hide IsDigest;
  }

  lemma ValidPaths(m: Manifest)
    requires ManifestValid(m)
    ensures forall i :: 0 <= i < |m.artifacts| ==> PayloadPathAccepted(m.artifacts[i].payloadPath)
  {
    hide PayloadPathAccepted;
    hide IsOciDigest;
  }

  lemma AcceptedFromParts(
    sha256: string -> Digest, artifacts: seq<Artifact>, files: map<string, string>, checksums: Checksums)
    requires PayloadAccepted(sha256, artifacts, files, checksums)
    requires forall p :: p in checksums ==> Canonical(p)
    requires forall i :: 0 <= i < |artifacts| ==> PayloadPathAccepted(artifacts[i].payloadPath)
    ensures Accepted(sha256, artifacts, files, checksums)
  {
    hide Canonical;
    hide PayloadAccepted;
    hide PayloadPathAccepted;
  }

  lemma AcceptsGivesAccepted(c: Codec, limits: Limits, archive: Archive)
    requires Accepts(c, limits, archive)
    ensures Accepted(c.sha256, c.parse(ManifestText(archive)).value.artifacts,
                     Files(archive.members), ChecksumsOf(archive, limits).entries)
  {
    hide *;
    AcceptedParts(c, limits, archive);
    var m := c.parse(ManifestText(archive)).value;
    ValidPaths(m);
    PayloadNamesAreCanonical(c.sha256, m.artifacts, archive.members, ChecksumsOf(archive, limits).entries);
    AcceptedFromParts(c.sha256, m.artifacts, Files(archive.members), ChecksumsOf(archive, limits).entries);
  }

  /** Every accepted payload_path is its own normal form, though nothing compares the two. */
  lemma RootsAreNormal(
    sha256: string -> Digest, artifacts: seq<Artifact>, files: map<string, string>, checksums: Checksums, i: nat)
    requires Accepted(sha256, artifacts, files, checksums) && i < |artifacts|
    ensures Canonical(artifacts[i].payloadPath)
    ensures RootName(artifacts[i]) == artifacts[i].payloadPath
  {
    hide Canonical;
    hide AsPosix;
    assert DescriptorOk(sha256, artifacts[i], checksums, files);
    var p :| p in Matches(artifacts[i].payloadPath, checksums);
    RootOfCanonicalIsCanonical(artifacts[i].payloadPath, p);
    CanonicalIsOwnForm(artifacts[i].payloadPath);
  }

  lemma CanonicalIsOwnForm(path: string)
    requires Canonical(path)
    ensures AsPosix(path) == path
  {
  }

  /** "sha256:" and 64 lower-case hexadecimal digits. */
  ghost predicate PlainOciDigest(s: string) {
    && |s| == 71 && s[..7] == "sha256:"
    && forall i :: 7 <= i < 71 ==> '0' <= s[i] <= '9' || 'a' <= s[i] <= 'f'
  }

  /** A descriptor in full: nothing empty, digests well formed, an image a directory, a chart a .tgz file. */
  ghost predicate TypedPayload(a: Artifact, files: map<string, string>) {
    && a.repository != ""
    && match a
       case ContainerImage(_, reference, digest, path, _, _) =>
         && reference != "" && PlainOciDigest(digest)
         && Split(path)[0] == "images" && path !in files && (exists p :: p in files && path + "/" <= p)
       case HelmChart(_, name, version, digest, path, _, _) =>
         && name != "" && version != "" && (digest.Some? ==> PlainOciDigest(digest.value))
         && Split(path)[0] == "charts" && |path| >= 4 && path[|path| - 4..] == ".tgz" && path in files
  }

  ghost predicate HeaderInFull(h: Header) {
    h.utc && h.createdBy != "" && h.harbor != "" && (h.comment.Some? ==> |h.comment.value| <= 2000)
  }

  lemma DigestIsPlain(s: string)
    ensures IsOciDigest(s) <==> PlainOciDigest(s)
  {
    if |s| == 71 {
      assert forall i :: 7 <= i < 71 ==> s[i] == s[7..][i - 7];
      assert forall k :: 0 <= k < 64 ==> s[7..][k] == s[k + 7];
    }
  }

  lemma ShapeInFull(a: Artifact, files: map<string, string>, checksums: Checksums)
    requires RootOk(a, files, checksums) && checksums.Keys <= files.Keys
    requires Canonical(a.payloadPath) && RootName(a) == a.payloadPath
    ensures var path := a.payloadPath;
            if a.ContainerImage? then
              Split(path)[0] == "images" && path !in files && exists p :: p in files && path + "/" <= p
            else Split(path)[0] == "charts" && |path| >= 4 && path[|path| - 4..] == ".tgz" && path in files
  {
    CanonicalComponents(a.payloadPath);
    hide Canonical;
    hide Split;
    hide RootName;
    var p :| p in Matches(a.payloadPath, checksums);
    assert p in files;
  }

  /** A descriptor before its payload is looked at: nothing empty, digests well formed, a plain relative path. */
  ghost predicate DescriptorInFull(a: Artifact) {
    && a.repository != ""
    && (a.ContainerImage? ==> a.reference != "" && PlainOciDigest(a.imageDigest))
    && (a.HelmChart? ==>
          a.name != "" && a.version != "" && (a.chartDigest.Some? ==> PlainOciDigest(a.chartDigest.value)))
    && a.payloadPath != "" && a.payloadPath[0] != '/' && ".." !in Split(a.payloadPath)
    && '\\' !in a.payloadPath && '\0' !in a.payloadPath
  }

  lemma {:induction false} KeptHas(parts: seq<string>, part: string)
    requires part != "" && part != "."
    ensures part in Kept(parts) <==> part in parts
  {
    if parts != [] {
      KeptHas(parts[1..], part);
      assert parts == [parts[0]] + parts[1..];
    }
  }

  lemma DescriptorInFullIff(a: Artifact)
    ensures ArtifactValid(a) && ArtifactNamed(a) <==> DescriptorInFull(a)
  {
    KeptHas(Split(a.payloadPath), "..");
    if SourceDigest(a).Some? {
      DigestIsPlain(SourceDigest(a).value);
    }
    hide PlainOciDigest;
    hide IsOciDigest;
    hide Split;
  }

  /** The manifest model and the schema together ask for exactly this. */
  lemma ManifestInFull(m: Manifest)
    ensures ManifestValid(m) && SchemaOk(m) <==>
            && HeaderInFull(m.header) && m.artifacts != []
            && forall i :: 0 <= i < |m.artifacts| ==> DescriptorInFull(m.artifacts[i])
  {
    forall i | 0 <= i < |m.artifacts|
      ensures ArtifactValid(m.artifacts[i]) && ArtifactNamed(m.artifacts[i]) <==> DescriptorInFull(m.artifacts[i])
    {
      DescriptorInFullIff(m.artifacts[i]);
    }
    hide ArtifactValid;
    hide ArtifactNamed;
    hide DescriptorInFull;
  }

  lemma AcceptedManifest(c: Codec, limits: Limits, archive: Archive)
    requires Accepts(c, limits, archive)
    ensures c.parse(ManifestText(archive)).Some?
    ensures SchemaOk(c.parse(ManifestText(archive)).value) && ManifestValid(c.parse(ManifestText(archive)).value)
    ensures c.signer(ManifestText(archive), SignatureText(archive)).Some? && |SignatureText(archive)| == 64
  {
    hide Inspectable;
    hide MetadataSmall;
    hide ManifestText;
    hide SignatureText;
    hide ManifestValid;
    hide SchemaOk;
    hide PayloadAccepted;
    hide ChecksumsOf;
    hide Files;
  }

  lemma PayloadInFull(
    sha256: string -> Digest, artifacts: seq<Artifact>, files: map<string, string>, checksums: Checksums, i: nat)
    requires Accepted(sha256, artifacts, files, checksums) && i < |artifacts|
    requires DescriptorInFull(artifacts[i])
    ensures TypedPayload(artifacts[i], files)
  {
    RootsAreNormal(sha256, artifacts, files, checksums, i);
    assert RootOk(artifacts[i], files, checksums) && checksums.Keys <= files.Keys;
    hide Canonical;
    hide Accepted;
    hide RootName;
    hide RootOk;
    hide PlainOciDigest;
    ShapeInFull(artifacts[i], files, checksums);
    hide Split;
  }

  lemma ListedInFull(
    sha256: string -> Digest, artifacts: seq<Artifact>, files: map<string, string>, checksums: Checksums)
    requires PayloadAccepted(sha256, artifacts, files, checksums)
    ensures checksums.Keys == files.Keys - {"manifest.json", "manifest.sig", "checksums.sha256"}
    ensures forall p :: p in checksums ==> p in files && checksums[p] == sha256(files[p])
  {
    hide DescriptorsOk;
    hide NoOverlap;
    hide RootOk;
    hide Covered;
  }

  /**
    What acceptance says of the manifest, its signature and the checksum file, read off the archive's own files:
    the trusted key signed this very manifest, its header is complete, every descriptor is one its payload has the
    shape of, and the checksum file lists exactly the payload files, each with its digest.
   */
  lemma AcceptedManifestIsTyped(c: Codec, limits: Limits, archive: Archive)
    requires Accepts(c, limits, archive)
    ensures var files := Files(archive.members);
            && {"manifest.json", "manifest.sig", "checksums.sha256"} <= files.Keys
            && |files["manifest.sig"]| == 64 && c.signer(files["manifest.json"], files["manifest.sig"]).Some?
            && c.parse(files["manifest.json"]).Some?
            && (var m := c.parse(files["manifest.json"]).value;
                && HeaderInFull(m.header) && m.artifacts != []
                && forall i :: 0 <= i < |m.artifacts| ==> TypedPayload(m.artifacts[i], files))
            && var read := ChecksumFile.Read(files["checksums.sha256"], limits.maxPathBytes);
               && read.Entries?
               && read.entries.Keys == files.Keys - {"manifest.json", "manifest.sig", "checksums.sha256"}
               && forall p :: p in read.entries ==> p in files && read.entries[p] == c.sha256(files[p])
  {
    hide *;
    var files := Files(archive.members);
    AcceptedInspection(c, limits, archive);
    MetadataThere(archive.members);
    TextsAreFiles(archive, limits);
    AcceptedManifest(c, limits, archive);
    AcceptedParts(c, limits, archive);
    AcceptsGivesAccepted(c, limits, archive);
    var m := c.parse(ManifestText(archive)).value;
    ManifestInFull(m);
    var read := ChecksumsOf(archive, limits);
    ListedInFull(c.sha256, m.artifacts, files, read.entries);
    forall i | 0 <= i < |m.artifacts|
      ensures TypedPayload(m.artifacts[i], files)
    {
      PayloadInFull(c.sha256, m.artifacts, files, read.entries, i);
    }
  }

  lemma TextsAreFiles(archive: Archive, limits: Limits)
    ensures var files := Files(archive.members);
            && (CRITICAL_FILES <= files.Keys <==> {"manifest.json", "manifest.sig", "checksums.sha256"} <= files.Keys)
            && ("manifest.json" in files ==> ManifestText(archive) == files["manifest.json"])
            && ("manifest.sig" in files ==> SignatureText(archive) == files["manifest.sig"])
            && ("checksums.sha256" in files ==>
                ChecksumsOf(archive, limits) == ChecksumFile.Read(files["checksums.sha256"], limits.maxPathBytes))
  {
    hide Files;
    hide ChecksumFile.Read;
  }

  /** Each payload file lies under exactly one artifact root. */
  lemma ExactlyOneRoot(
    sha256: string -> Digest, artifacts: seq<Artifact>, files: map<string, string>, checksums: Checksums, p: string)
    requires Accepted(sha256, artifacts, files, checksums) && p in checksums
    ensures exists i :: 0 <= i < |artifacts| && Under(artifacts[i].payloadPath, p)
    ensures forall i, j :: 0 <= i < j < |artifacts| ==>
              !(Under(artifacts[i].payloadPath, p) && Under(artifacts[j].payloadPath, p))
  {
    hide Canonical;
    hide RootName;
    hide PathsOverlap;
    hide ShapeOk;
    assert Covered(artifacts, p);
    var k :| 0 <= k < |artifacts| && Under(RootName(artifacts[k]), p);
    RootsAreNormal(sha256, artifacts, files, checksums, k);
    forall i, j | 0 <= i < j < |artifacts| && Under(artifacts[i].payloadPath, p) && Under(artifacts[j].payloadPath, p)
      ensures false
    {
      RootsAreNormal(sha256, artifacts, files, checksums, i);
      RootsAreNormal(sha256, artifacts, files, checksums, j);
      SharedPathMeansOverlap(artifacts[j].payloadPath, artifacts[i].payloadPath, p);
    }
  }

  lemma NextRootIsNew(
    sha256: string -> Digest, artifacts: seq<Artifact>, files: map<string, string>, checksums: Checksums, k: nat)
    requires Accepted(sha256, artifacts, files, checksums) && k < |artifacts|
    ensures UnderAny(artifacts[..k], checksums) !! Matches(artifacts[k].payloadPath, checksums)
    ensures UnderAny(artifacts[..k + 1], checksums) ==
            UnderAny(artifacts[..k], checksums) + Matches(artifacts[k].payloadPath, checksums)
  {
    hide Accepted;
    hide Under;
    forall p | p in UnderAny(artifacts[..k], checksums)
      ensures p !in Matches(artifacts[k].payloadPath, checksums)
    {
      var i :| 0 <= i < k && Under(artifacts[..k][i].payloadPath, p);
      ExactlyOneRoot(sha256, artifacts, files, checksums, p);
      assert Under(artifacts[i].payloadPath, p);
    }
    assert artifacts[..k + 1] == artifacts[..k] + [artifacts[k]];
    assert forall i :: 0 <= i < k ==> artifacts[..k + 1][i] == artifacts[..k][i];
  }

  lemma DescriptorGivesSize(
    sha256: string -> Digest, artifacts: seq<Artifact>, files: map<string, string>, checksums: Checksums, k: nat)
    requires Accepted(sha256, artifacts, files, checksums) && k < |artifacts|
    ensures checksums.Keys <= files.Keys
    ensures Weight(Matches(artifacts[k].payloadPath, checksums), files) == artifacts[k].payloadSize
  {
    hide Canonical;
    hide Weight;
    hide LayoutOk;
    assert DescriptorOk(sha256, artifacts[k], checksums, files);
  }

  lemma {:induction false} PrefixWeight(
    sha256: string -> Digest, artifacts: seq<Artifact>, files: map<string, string>, checksums: Checksums, k: nat)
    requires Accepted(sha256, artifacts, files, checksums) && k <= |artifacts|
    requires checksums.Keys <= files.Keys
    ensures Weight(UnderAny(artifacts[..k], checksums), files) == TotalSize(artifacts[..k])
  {
    hide Accepted;
    hide Weight;
    hide Under;
    if k == 0 {
      assert UnderAny(artifacts[..0], checksums) == {};
      NoWeight(files);
    } else {
      PrefixWeight(sha256, artifacts, files, checksums, k - 1);
      assert artifacts[..k][..k - 1] == artifacts[..k - 1];
      NextRootIsNew(sha256, artifacts, files, checksums, k - 1);
      WeightUnion(
        UnderAny(artifacts[..k - 1], checksums), Matches(artifacts[k - 1].payloadPath, checksums), files);
      DescriptorGivesSize(sha256, artifacts, files, checksums, k - 1);
    }
  }

  lemma NoWeight(files: map<string, string>)
    ensures Weight({}, files) == 0
  {
  }

  /** The signed artifact sizes add up to the size of the whole payload: nothing unsigned, nothing twice. */
  lemma SizesAddUp(
    sha256: string -> Digest, artifacts: seq<Artifact>, files: map<string, string>, checksums: Checksums)
    requires Accepted(sha256, artifacts, files, checksums)
    ensures checksums.Keys == files.Keys - CRITICAL_FILES
    ensures TotalSize(artifacts) == Weight(files.Keys - CRITICAL_FILES, files)
  {
    hide Canonical;
    hide RootOk;
    hide NoOverlap;
    hide Covered;
    hide Weight;
    hide ChecksumsOk;
    hide DescriptorOk;
    PrefixWeight(sha256, artifacts, files, checksums, |artifacts|);
    assert artifacts[..|artifacts|] == artifacts;
    forall p | p in checksums
      ensures p in UnderAny(artifacts, checksums)
    {
      ExactlyOneRoot(sha256, artifacts, files, checksums, p);
    }
    assert UnderAny(artifacts, checksums) == checksums.Keys;
  }

  /** SHA-256 separates the finitely many texts at hand. */
  ghost predicate CollisionFree(sha256: string -> Digest, texts: set<string>) {
    forall x, y :: x in texts && y in texts && sha256(x) == sha256(y) ==> x == y
  }

  /** All that is hashed while verifying one archive: file contents and payload tree texts. */
  ghost function Hashed(artifacts: seq<Artifact>, files: map<string, string>, checksums: Checksums): set<string> {
    files.Values + set i | 0 <= i < |artifacts| :: TreeText(artifacts[i].payloadPath, checksums)
  }

  /** The payload is one file, so its digest is that file's digest and not a tree digest. */
  predicate SingleFile(root: string, checksums: Checksums) {
    Matches(root, checksums) == {root}
  }

  /** Both archives digest every payload in the same way. */
  predicate SameForms(artifacts: seq<Artifact>, a: Checksums, b: Checksums) {
    forall i :: 0 <= i < |artifacts| ==>
      (SingleFile(artifacts[i].payloadPath, a) <==> SingleFile(artifacts[i].payloadPath, b))
  }

  /** No file has another file below it, as extraction to disk requires. */
  predicate PrefixFree(files: map<string, string>) {
    forall p, q :: p in files && q in files && Under(p, q) ==> p == q
  }

  function Payload(files: map<string, string>): map<string, string> {
    files - CRITICAL_FILES
  }

  /** An image is always digested as a tree: its root is never itself a file. */
  lemma ImagesAreTrees(
    sha256: string -> Digest, artifacts: seq<Artifact>, files: map<string, string>, checksums: Checksums, i: nat)
    requires Accepted(sha256, artifacts, files, checksums)
    requires i < |artifacts| && artifacts[i].ContainerImage?
    ensures !SingleFile(artifacts[i].payloadPath, checksums)
  {
    hide Canonical;
    hide RootName;
    RootsAreNormal(sha256, artifacts, files, checksums, i);
    assert RootOk(artifacts[i], files, checksums);
    assert artifacts[i].payloadPath !in files;
    assert artifacts[i].payloadPath !in Matches(artifacts[i].payloadPath, checksums);
  }

  /** One root: equal signed digests in the same form give equal checksum entries. */
  lemma PinnedRoot(
    sha256: string -> Digest, a: Artifact,
    files1: map<string, string>, checksums1: Checksums, files2: map<string, string>, checksums2: Checksums)
    requires checksums1.Keys <= files1.Keys && checksums2.Keys <= files2.Keys
    requires DescriptorOk(sha256, a, checksums1, files1) && DescriptorOk(sha256, a, checksums2, files2)
    requires SingleFile(a.payloadPath, checksums1) <==> SingleFile(a.payloadPath, checksums2)
    requires CollisionFree(sha256, {TreeText(a.payloadPath, checksums1), TreeText(a.payloadPath, checksums2)})
    requires forall p :: p in checksums1 || p in checksums2 ==> '\n' !in p
    ensures Restrict(checksums1, Matches(a.payloadPath, checksums1)) ==
            Restrict(checksums2, Matches(a.payloadPath, checksums2))
  {
    hide ChecksumFile.SortedEntries;
    hide ChecksumFile.Serialize;
    hide Weight;
    var r1 := Restrict(checksums1, Matches(a.payloadPath, checksums1));
    var r2 := Restrict(checksums2, Matches(a.payloadPath, checksums2));
    if SingleFile(a.payloadPath, checksums1) {
      assert r1.Keys == {a.payloadPath} == r2.Keys;
      assert a.payloadPath in r1 && a.payloadPath in r2;
    } else {
      assert sha256(TreeText(a.payloadPath, checksums1)) == sha256(TreeText(a.payloadPath, checksums2));
      ChecksumFile.AggregateIsInjective(r1, r2);
    }
  }

  /** What one accepted archive offers the pinning argument about root i. */
  lemma RootOfAccepted(
    sha256: string -> Digest, artifacts: seq<Artifact>, files: map<string, string>, checksums: Checksums, i: nat)
    requires Accepted(sha256, artifacts, files, checksums) && i < |artifacts|
    ensures checksums.Keys <= files.Keys && DescriptorOk(sha256, artifacts[i], checksums, files)
    ensures TreeText(artifacts[i].payloadPath, checksums) in Hashed(artifacts, files, checksums)
  {
    LayoutNamesFiles(artifacts, files, checksums);
    hide Canonical;
    hide LayoutOk;
    hide TreeText;
    hide PayloadStats;
  }

  lemma CollisionFreePart(sha256: string -> Digest, all: set<string>, a: string, b: string)
    requires CollisionFree(sha256, all) && a in all && b in all
    ensures CollisionFree(sha256, {a, b})
  {
  }

  lemma RootEntriesAgree(
    sha256: string -> Digest, artifacts: seq<Artifact>,
    files1: map<string, string>, checksums1: Checksums, files2: map<string, string>, checksums2: Checksums, i: nat)
    requires Accepted(sha256, artifacts, files1, checksums1) && Accepted(sha256, artifacts, files2, checksums2)
    requires CollisionFree(sha256, Hashed(artifacts, files1, checksums1) + Hashed(artifacts, files2, checksums2))
    requires SameForms(artifacts, checksums1, checksums2) && i < |artifacts|
    requires forall p :: p in checksums1 || p in checksums2 ==> '\n' !in p
    ensures Restrict(checksums1, Matches(artifacts[i].payloadPath, checksums1)) ==
            Restrict(checksums2, Matches(artifacts[i].payloadPath, checksums2))
  {
    var root := artifacts[i].payloadPath;
    assert SingleFile(root, checksums1) <==> SingleFile(root, checksums2);
    hide SingleFile;
    hide Accepted;
    hide TreeText;
    hide Hashed;
    hide CollisionFree;
    hide DescriptorOk;
    hide Restrict;
    hide Matches;
    RootOfAccepted(sha256, artifacts, files1, checksums1, i);
    RootOfAccepted(sha256, artifacts, files2, checksums2, i);
    CollisionFreePart(sha256, Hashed(artifacts, files1, checksums1) + Hashed(artifacts, files2, checksums2),
                      TreeText(root, checksums1), TreeText(root, checksums2));
    PinnedRoot(sha256, artifacts[i], files1, checksums1, files2, checksums2);
  }

  lemma PinnedChecksums(
    sha256: string -> Digest, artifacts: seq<Artifact>,
    files1: map<string, string>, checksums1: Checksums, files2: map<string, string>, checksums2: Checksums)
    requires Accepted(sha256, artifacts, files1, checksums1) && Accepted(sha256, artifacts, files2, checksums2)
    requires CollisionFree(sha256, Hashed(artifacts, files1, checksums1) + Hashed(artifacts, files2, checksums2))
    requires SameForms(artifacts, checksums1, checksums2)
    requires forall p :: p in checksums1 || p in checksums2 ==> '\n' !in p
    ensures forall p :: p in checksums1 ==> p in checksums2 && checksums2[p] == checksums1[p]
  {
    hide Accepted;
    hide Hashed;
    hide CollisionFree;
    hide SameForms;
    hide IsDigest;
    forall p | p in checksums1
      ensures p in checksums2 && checksums2[p] == checksums1[p]
    {
      ExactlyOneRoot(sha256, artifacts, files1, checksums1, p);
      var i :| 0 <= i < |artifacts| && Under(artifacts[i].payloadPath, p);
      var root := artifacts[i].payloadPath;
      RootEntriesAgree(sha256, artifacts, files1, checksums1, files2, checksums2, i);
      SharedEntry(root, checksums1, checksums2, p);
    }
  }

  lemma SharedEntry(root: string, checksums1: Checksums, checksums2: Checksums, p: string)
    requires Restrict(checksums1, Matches(root, checksums1)) == Restrict(checksums2, Matches(root, checksums2))
    requires p in checksums1 && Under(root, p)
    ensures p in checksums2 && checksums2[p] == checksums1[p]
  {
    hide IsDigest;
    hide Under;
    var r1, r2 := Restrict(checksums1, Matches(root, checksums1)), Restrict(checksums2, Matches(root, checksums2));
    assert p in r1 && p in r2 && r1[p] == r2[p];
  }

  lemma PayloadFilesAreChecksummed(
    sha256: string -> Digest, artifacts: seq<Artifact>, files: map<string, string>, checksums: Checksums)
    requires Accepted(sha256, artifacts, files, checksums)
    ensures Payload(files).Keys == checksums.Keys
    ensures forall p :: p in checksums ==> sha256(files[p]) == checksums[p]
  {
    hide Canonical;
    hide RootOk;
    hide NoOverlap;
    hide Covered;
    hide DescriptorOk;
  }

  lemma PinnedBytes(
    sha256: string -> Digest, artifacts: seq<Artifact>,
    files1: map<string, string>, checksums1: Checksums, files2: map<string, string>, checksums2: Checksums)
    requires Accepted(sha256, artifacts, files1, checksums1) && Accepted(sha256, artifacts, files2, checksums2)
    requires CollisionFree(sha256, Hashed(artifacts, files1, checksums1) + Hashed(artifacts, files2, checksums2))
    requires SameForms(artifacts, checksums1, checksums2)
    requires forall p :: p in checksums1 || p in checksums2 ==> '\n' !in p
    ensures Payload(files1) == Payload(files2)
  {
    hide Accepted;
    hide TreeText;
    PayloadFilesAreChecksummed(sha256, artifacts, files1, checksums1);
    PayloadFilesAreChecksummed(sha256, artifacts, files2, checksums2);
    PinnedChecksums(sha256, artifacts, files1, checksums1, files2, checksums2);
    PinnedChecksums(sha256, artifacts, files2, checksums2, files1, checksums1);
    assert Payload(files1).Keys == Payload(files2).Keys;
    forall p | p in Payload(files1)
      ensures files1[p] == files2[p]
    {
      assert files1[p] in Hashed(artifacts, files1, checksums1);
      assert files2[p] in Hashed(artifacts, files2, checksums2);
    }
  }

  /**
    The manifest pins the payload. Two archives accepted under the same manifest have the same paths
    and the same bytes exactly when they digest every payload in the same form. checksums.sha256
    itself is unsigned and need not agree in any other way.
   */
  lemma ManifestPinsPayload(
    sha256: string -> Digest, artifacts: seq<Artifact>,
    files1: map<string, string>, checksums1: Checksums, files2: map<string, string>, checksums2: Checksums)
    requires Accepted(sha256, artifacts, files1, checksums1) && Accepted(sha256, artifacts, files2, checksums2)
    requires CollisionFree(sha256, Hashed(artifacts, files1, checksums1) + Hashed(artifacts, files2, checksums2))
    requires forall p :: p in checksums1 || p in checksums2 ==> '\n' !in p
    ensures Payload(files1) == Payload(files2) <==> SameForms(artifacts, checksums1, checksums2)
  {
    hide Accepted;
    hide TreeText;
    hide Hashed;
    hide CollisionFree;
    if SameForms(artifacts, checksums1, checksums2) {
      PinnedBytes(sha256, artifacts, files1, checksums1, files2, checksums2);
    }
    if Payload(files1) == Payload(files2) {
      PayloadFilesAreChecksummed(sha256, artifacts, files1, checksums1);
      PayloadFilesAreChecksummed(sha256, artifacts, files2, checksums2);
      assert forall root :: Matches(root, checksums1) == Matches(root, checksums2);
    }
  }

  /** Archives that can be extracted always agree in form, so for them the manifest pins everything. */
  lemma ExtractableMeansSameForms(
    sha256: string -> Digest, artifacts: seq<Artifact>,
    files1: map<string, string>, checksums1: Checksums, files2: map<string, string>, checksums2: Checksums)
    requires Accepted(sha256, artifacts, files1, checksums1) && Accepted(sha256, artifacts, files2, checksums2)
    requires PrefixFree(files1) && PrefixFree(files2)
    ensures SameForms(artifacts, checksums1, checksums2)
  {
    hide Canonical;
    hide RootName;
    forall i | 0 <= i < |artifacts|
      ensures SingleFile(artifacts[i].payloadPath, checksums1) <==> SingleFile(artifacts[i].payloadPath, checksums2)
    {
      RootsAreNormal(sha256, artifacts, files1, checksums1, i);
      if artifacts[i].ContainerImage? {
        ImagesAreTrees(sha256, artifacts, files1, checksums1, i);
        ImagesAreTrees(sha256, artifacts, files2, checksums2, i);
      } else {
        ChartIsOneFile(artifacts[i], files1, checksums1);
        ChartIsOneFile(artifacts[i], files2, checksums2);
      }
    }
  }

  lemma ChartIsOneFile(a: Artifact, files: map<string, string>, checksums: Checksums)
    requires a.HelmChart? && RootName(a) == a.payloadPath
    requires RootOk(a, files, checksums) && checksums.Keys <= files.Keys && PrefixFree(files)
    ensures SingleFile(a.payloadPath, checksums)
  {
    hide RootName;
    var matches := Matches(a.payloadPath, checksums);
    assert forall p :: p in matches ==> p == a.payloadPath;
    assert matches != {};
    assert a.payloadPath in matches;
  }

  /** The verified root an archive is unpacked to, or None when a path is wanted as file and directory. */
  predicate NoFileAbove(members: seq<Member>) {
    forall i, j :: 0 <= i < |members| && 0 <= j < |members| && i != j && members[i].kind.File? ==>
      !Under(Normalized(members[i]), Normalized(members[j]))
  }

  predicate BlockedBy(files: set<string>, path: string) {
    exists f :: f in files && Under(f, path)
  }

  predicate IsDirectoryNow(made: set<string>, path: string) {
    exists n :: n in made && Under(path, n)
  }

  /** No clash among the first k members. */
  predicate FreeUpTo(members: seq<Member>, k: nat)
    requires k <= |members|
  {
    forall i, j :: 0 <= i < k && 0 <= j < k && i != j && members[i].kind.File? ==>
      !Under(Normalized(members[i]), Normalized(members[j]))
  }

  /** The paths of the first k members, and of the files among them. */
  function MadeBy(members: seq<Member>, k: nat): set<string>
    requires k <= |members|
  {
    set i | 0 <= i < k :: Normalized(members[i])
  }

  function FilesBy(members: seq<Member>, k: nat): set<string>
    requires k <= |members|
  {
    set i | 0 <= i < k && members[i].kind.File? :: Normalized(members[i])
  }

  lemma ExtractStep(members: seq<Member>, k: nat)
    requires k < |members| && FreeUpTo(members, k)
    ensures var path := Normalized(members[k]);
            FreeUpTo(members, k + 1) <==>
            && !BlockedBy(FilesBy(members, k), path)
            && (members[k].kind.File? ==> !IsDirectoryNow(MadeBy(members, k), path))
    ensures MadeBy(members, k + 1) == MadeBy(members, k) + {Normalized(members[k])}
    ensures FilesBy(members, k + 1) ==
            FilesBy(members, k) + if members[k].kind.File? then {Normalized(members[k])} else {}
  {
    hide Under;
    hide Normalized;
    forall i | 0 <= i < k
      ensures Normalized(members[i]) in MadeBy(members, k)
      ensures members[i].kind.File? ==> Normalized(members[i]) in FilesBy(members, k)
    {
    }
  }

  lemma ClashStays(members: seq<Member>, k: nat)
    requires k <= |members| && !FreeUpTo(members, k)
    ensures !NoFileAbove(members)
  {
    hide Under;
    hide Normalized;
  }

  /** The directories one member makes: those above it, and itself if it is one. */
  function DirectoriesFor(m: Member): set<string> {
    Ancestors(Normalized(m)) + if m.kind.Directory? then {Normalized(m)} else {}
  }

  function DirectoriesMade(members: seq<Member>): set<string> {
    if members == [] then {}
    else DirectoriesMade(members[..|members| - 1]) + DirectoriesFor(members[|members| - 1])
  }

  /** What unpacking leaves on disk. */
  datatype Unpacked = Unpacked(files: map<string, string>, directories: set<string>)

  /** _extract_verified_members into an empty directory: mkdir -p for parents, exclusive create for files. */
  method ExtractMembers(members: seq<Member>) returns (r: Option<Unpacked>)
    requires MembersAllowed(members)
    ensures r.Some? <==> NoFileAbove(members)
    ensures r.Some? ==> r.value == Unpacked(Files(members), DirectoriesMade(members))
  {
    hide DirectoriesFor;
    hide MembersAllowed;
    hide BlockedBy;
    hide IsDirectoryNow;
    hide Normalized;
    hide Under;
    hide MadeBy;
    hide FilesBy;
    var files: map<string, string> := map[];
    var made: set<string> := {};
    var directories: set<string> := {};
    NothingMade(members);
    for k := 0 to |members|
      invariant FreeUpTo(members, k)
      invariant directories == DirectoriesMade(members[..k])
      invariant files == Files(members[..k]) && files.Keys == FilesBy(members, k) && made == MadeBy(members, k)
    {
      var member := members[k];
      assert members[..k + 1][..k] == members[..k];
      FileNameIsNormalized(member);
      ExtractStep(members, k);
      hide FreeUpTo;
      hide NoFileAbove;
      var path := Normalized(member);
      if BlockedBy(files.Keys, path) {
        ClashStays(members, k + 1);
        return None;
      }
      if member.kind.File? {
        if IsDirectoryNow(made, path) {
          ClashStays(members, k + 1);
          return None;
        }
        files := files[path := member.kind.content];
      }
      directories := directories + DirectoriesFor(member);
      made := made + {path};
    }
    assert members[..|members|] == members;
    return Some(Unpacked(files, directories));
  }

  lemma NothingMade(members: seq<Member>)
    ensures MadeBy(members, 0) == {} && FilesBy(members, 0) == {} && Files(members[..0]) == map[]
    ensures DirectoriesMade(members[..0]) == {}
  {
  }

  lemma {:induction false} MadeByMember(members: seq<Member>, d: string)
    ensures d in DirectoriesMade(members) <==> exists i :: 0 <= i < |members| && d in DirectoriesFor(members[i])
  {
    hide DirectoriesFor;
    if members != [] {
      var n := |members| - 1;
      MadeByMember(members[..n], d);
      if i :| 0 <= i < |members| && d in DirectoriesFor(members[i]) {
        assert i < n ==> members[..n][i] == members[i];
      }
    }
  }

  /** Every directory above some file. */
  predicate AboveSome(files: set<string>, d: string) {
    exists p :: p in files && d in Ancestors(p)
  }

  lemma AboveAbove(d: string, path: string, file: string)
    requires d == path || d in Ancestors(path)
    requires path + "/" <= file
    ensures d in Ancestors(file)
  {
    assert file[|path|] == (path + "/")[|path|] == '/' && file[..|path|] == path;
    if d != path {
      var i :| 0 <= i < |path| && path[i] == '/' && path[..i] == d;
      assert file[i] == path[i] && file[..i] == path[..i];
    }
  }

  lemma NothingAboveCritical(p: string)
    requires p in CRITICAL_FILES
    ensures Ancestors(p) == {}
  {
    assert forall i :: 0 <= i < |p| ==> p[i] != '/';
  }

  lemma MemberDirectories(members: seq<Member>, i: nat, d: string)
    requires MembersAllowed(members) && i < |members| && d in DirectoriesFor(members[i])
    ensures AboveSome(PayloadFiles(members), d)
  {
    hide Normalized;
    hide HasCanonicalName;
    hide InPayloadLayout;
    hide DistinctNames;
    hide Names;
    hide Ancestors;
    hide CRITICAL_FILES;
    var m := members[i];
    var path := Normalized(m);
    assert MemberAllowed(m) && m in members;
    if path in CRITICAL_FILES {
      NothingAboveCritical(path);
    } else if m.kind.File? {
      assert IsPayloadFile(m);
      assert path in PayloadFiles(members) && d in Ancestors(path);
    } else {
      assert IsPayloadDirectory(m);
      assert path in PayloadDirectories(members);
      var file :| file in PayloadFiles(members) && path + "/" <= file;
      AboveAbove(d, path, file);
    }
  }

  lemma PayloadFileMembers(members: seq<Member>)
    ensures PayloadFiles(members) == Payload(Files(members)).Keys
  {
    forall p | p in PayloadFiles(members)
      ensures p in Payload(Files(members))
    {
      var m :| m in members && IsPayloadFile(m) && Normalized(m) == p;
      var i :| 0 <= i < |members| && members[i] == m;
      FileNameIsNormalized(m);
    }
    forall p | p in Payload(Files(members))
      ensures p in PayloadFiles(members)
    {
      var i :| 0 <= i < |members| && members[i].kind.File? && members[i].name == p;
      FileNameIsNormalized(members[i]);
      assert members[i] in members && IsPayloadFile(members[i]);
    }
  }

  /** The unpacked directories are exactly those above the payload files: directory members add nothing. */
  lemma UnpackedDirectories(members: seq<Member>)
    requires MembersAllowed(members)
    ensures forall d :: d in DirectoriesMade(members) <==> AboveSome(Payload(Files(members)).Keys, d)
  {
    PayloadFileMembers(members);
    hide *;
    forall d
      ensures d in DirectoriesMade(members) <==> AboveSome(PayloadFiles(members), d)
    {
      MadeByMember(members, d);
      if i :| 0 <= i < |members| && d in DirectoriesFor(members[i]) {
        MemberDirectories(members, i, d);
      }
      if AboveSome(PayloadFiles(members), d) {
        AboveIsMade(members, d);
      }
    }
  }

  lemma AboveIsMade(members: seq<Member>, d: string)
    requires AboveSome(PayloadFiles(members), d)
    ensures exists i :: 0 <= i < |members| && d in DirectoriesFor(members[i])
  {
    hide Normalized;
    hide Ancestors;
    var p :| p in PayloadFiles(members) && d in Ancestors(p);
    var m :| m in members && IsPayloadFile(m) && Normalized(m) == p;
    var i :| 0 <= i < |members| && members[i] == m;
    assert d in DirectoriesFor(members[i]);
  }

  /** What extraction needs is that no file lies below a file. */
  lemma ExtractionNeedsPrefixFree(members: seq<Member>)
    requires MembersAllowed(members)
    ensures NoFileAbove(members) ==> PrefixFree(Files(members))
  {
    hide MemberAllowed;
    hide Under;
    if NoFileAbove(members) {
      forall p, q | p in Files(members) && q in Files(members) && Under(p, q)
        ensures p == q
      {
        var i :| 0 <= i < |members| && members[i].kind.File? && members[i].name == p;
        var j :| 0 <= j < |members| && members[j].kind.File? && members[j].name == q;
        FileNameIsNormalized(members[i]);
        FileNameIsNormalized(members[j]);
      }
    }
  }

  function ArtifactsOf(c: Codec, archive: Archive): seq<Artifact>
    requires c.parse(ManifestText(archive)).Some?
  {
    c.parse(ManifestText(archive)).value.artifacts
  }

  /** The texts hashed when an archive is verified. */
  ghost function HashedIn(c: Codec, limits: Limits, archive: Archive): set<string>
    requires Accepts(c, limits, archive)
  {
    Hashed(ArtifactsOf(c, archive), Files(archive.members), ChecksumsOf(archive, limits).entries)
  }

  /** An accepted archive is partitioned by its signed roots, byte for byte accounted for. */
  lemma AcceptedArchiveIsPartitioned(c: Codec, limits: Limits, archive: Archive)
    requires Accepts(c, limits, archive)
    ensures var artifacts, payload := ArtifactsOf(c, archive), Files(archive.members).Keys - CRITICAL_FILES;
            && TotalSize(artifacts) == Weight(payload, Files(archive.members))
            && (forall i :: 0 <= i < |artifacts| ==> Canonical(artifacts[i].payloadPath))
            && (forall p :: p in payload ==>
                  && (exists i :: 0 <= i < |artifacts| && Under(artifacts[i].payloadPath, p))
                  && forall i, j :: 0 <= i < j < |artifacts| ==>
                       !(Under(artifacts[i].payloadPath, p) && Under(artifacts[j].payloadPath, p)))
  {
    AcceptsGivesAccepted(c, limits, archive);
    hide Accepts;
    hide Accepted;
    hide Under;
    hide Canonical;
    hide ManifestText;
    hide Files;
    hide ChecksumsOf;
    hide Weight;
    var artifacts, files := ArtifactsOf(c, archive), Files(archive.members);
    var checksums := ChecksumsOf(archive, limits).entries;
    SizesAddUp(c.sha256, artifacts, files, checksums);
    forall i | 0 <= i < |artifacts|
      ensures Canonical(artifacts[i].payloadPath)
    {
      RootsAreNormal(c.sha256, artifacts, files, checksums, i);
    }
    forall p | p in files.Keys - CRITICAL_FILES
      ensures exists i :: 0 <= i < |artifacts| && Under(artifacts[i].payloadPath, p)
      ensures forall i, j :: 0 <= i < j < |artifacts| ==>
                !(Under(artifacts[i].payloadPath, p) && Under(artifacts[j].payloadPath, p))
    {
      ExactlyOneRoot(c.sha256, artifacts, files, checksums, p);
    }
  }

  /**
    Two accepted archives with the same manifest bytes carry the same payload if and only if they
    digest each payload in the same form; archives that unpack always do.
   */
  lemma ManifestPinsArchive(c: Codec, limits: Limits, a: Archive, b: Archive)
    requires Accepts(c, limits, a) && Accepts(c, limits, b)
    requires ManifestText(a) == ManifestText(b)
    requires CollisionFree(c.sha256, HashedIn(c, limits, a) + HashedIn(c, limits, b))
    ensures Payload(Files(a.members)) == Payload(Files(b.members)) <==>
            SameForms(ArtifactsOf(c, a), ChecksumsOf(a, limits).entries, ChecksumsOf(b, limits).entries)
    ensures NoFileAbove(a.members) && NoFileAbove(b.members) ==>
              Payload(Files(a.members)) == Payload(Files(b.members))
  {
    AcceptsGivesAccepted(c, limits, a);
    AcceptsGivesAccepted(c, limits, b);
    ReadNamesHaveNoNewline(a, limits);
    ReadNamesHaveNoNewline(b, limits);
    if NoFileAbove(a.members) && NoFileAbove(b.members) {
      ExtractionNeedsPrefixFree(a.members);
      ExtractionNeedsPrefixFree(b.members);
    }
    hide Accepts;
    hide Accepted;
    hide Files;
    hide ChecksumsOf;
    hide NoFileAbove;
    hide ManifestText;
    hide SameForms;
    hide CollisionFree;
    hide Payload;
    var artifacts := ArtifactsOf(c, a);
    var fa, fb := Files(a.members), Files(b.members);
    var ca, cb := ChecksumsOf(a, limits).entries, ChecksumsOf(b, limits).entries;
    ManifestPinsPayload(c.sha256, artifacts, fa, ca, fb, cb);
    if NoFileAbove(a.members) && NoFileAbove(b.members) {
      ExtractableMeansSameForms(c.sha256, artifacts, fa, ca, fb, cb);
    }
  }

  lemma ReadNamesHaveNoNewline(archive: Archive, limits: Limits)
    requires ChecksumsOf(archive, limits).Entries?
    ensures forall p :: p in ChecksumsOf(archive, limits).entries ==> '\n' !in p
  {
    hide ChecksumFile.Read;
    hide Utf8Length;
    ChecksumFile.ReadPathsAreBoundaryFree(Content(Files(archive.members), "checksums.sha256"), limits.maxPathBytes);
  }

  predicate IsChartRoot(root: string) {
    && PayloadPathAccepted(root) && Canonical(root)
    && Parts(root)[0] == "charts"
    && |root| >= 4 && root[|root| - 4..] == ".tgz"
  }

  function Below(root: string): (below: string)
    ensures Under(root, below) && root != below && root <= below
  {
    root + "/b"
  }

  lemma BelowIsCanonical(root: string)
    requires Canonical(root)
    ensures Canonical(Below(root))
  {
    assert root + "/b" == root + "/" + "b";
    SplitAppend(root, "b");
    SplitPlain("b");
    CanonicalComponents(root);
    CanonicalComponents(Below(root));
  }

  lemma SortedPair(a: string, b: string)
    requires a != b && Leq(a, b)
    ensures Sorted({a, b}) == [a, b]
  {
    LeqReflexive(a);
    LeastUnique({a, b});
    assert IsLeast(a, {a, b});
    assert {a, b} - {a} == {b};
    SortedSingle(b);
  }

  lemma SortedSingle(a: string)
    ensures Sorted({a}) == [a]
  {
    assert {a} - {a} == {};
  }

  lemma {:induction false} PrefixLeq(a: string, b: string)
    requires a <= b
    ensures Leq(a, b)
  {
    if a != [] {
      PrefixLeq(a[1..], b[1..]);
    }
  }

  function Listing(sha256: string -> Digest, root: string, hidden: string): seq<ChecksumFile.Entry> {
    [ChecksumFile.Entry(root, sha256("")), ChecksumFile.Entry(Below(root), sha256(hidden))]
  }

  /** The tree text of a chart with one file hidden below it; its length ignores the digests. */
  lemma ListingLength(sha256: string -> Digest, root: string, hidden: string)
    ensures |ChecksumFile.Serialize(Listing(sha256, root, hidden))| == 2 * |root| + 136
  {
    hide ChecksumFile.Line;
    var l := Listing(sha256, root, hidden);
    var lines := ChecksumFile.Lines(l);
    ChecksumFile.LineFields(l[0]);
    ChecksumFile.LineFields(l[1]);
    assert lines == [ChecksumFile.Line(l[0]), ChecksumFile.Line(l[1])];
    assert lines[1..] == [ChecksumFile.Line(l[1])];
    assert lines[1..][1..] == [];
    assert ChecksumFile.Terminated(lines[1..]) == ChecksumFile.Line(l[1]) + "\n" + "";
  }

  lemma RootIsNotCritical(root: string)
    requires IsChartRoot(root)
    ensures root !in CRITICAL_FILES && Below(root) !in CRITICAL_FILES
    ensures {root, Below(root)} !! CRITICAL_FILES
  {
    hide Canonical;
    hide Parts;
    hide PayloadPathAccepted;
    assert root[|root| - 1] == root[|root| - 4..][3] == 'z';
    assert Below(root)[|Below(root)| - 1] == 'b';
  }

  lemma ShapeOfChart(a: Artifact, files: map<string, string>)
    requires a.HelmChart? && IsChartRoot(a.payloadPath) && a.payloadPath in files
    ensures ShapeOk(a, files) && RootName(a) == a.payloadPath
    ensures Canonical(a.payloadPath) && PayloadPathAccepted(a.payloadPath)
  {
    CanonicalIsOwnForm(a.payloadPath);
  }

  lemma PlainFileStats(sha256: string -> Digest, root: string, text: string)
    ensures PayloadStats(sha256, root, map[root := sha256(text)], map[root := text]) ==
            Some(Stats(sha256(text), |text|))
  {
    var files, checksums: Checksums := map[root := text], map[root := sha256(text)];
    assert root in Matches(root, checksums);
    assert Matches(root, checksums) == {root};
    WeightRemove({root}, root, files);
    assert {root} - {root} == {};
    hide TreeText;
    hide IsDigest;
  }

  lemma PlainFileAccepted(sha256: string -> Digest, a: Artifact, text: string)
    requires a.HelmChart? && IsChartRoot(a.payloadPath)
    requires a.payloadSha256 == sha256(text) && a.payloadSize == |text|
    ensures Accepted(sha256, [a], map[a.payloadPath := text], map[a.payloadPath := sha256(text)])
  {
    hide Canonical;
    hide ShapeOk;
    hide RootName;
    hide PayloadPathAccepted;
    hide IsChartRoot;
    hide PayloadStats;
    hide LayoutOk;
    hide IsDigest;
    var root := a.payloadPath;
    var files, checksums: Checksums := map[root := text], map[root := sha256(text)];
    ShapeOfChart(a, files);
    RootIsNotCritical(root);
    PlainFileStats(sha256, root, text);
    assert files.Keys == {root} == checksums.Keys;
    TreeLayout(a, files, checksums);
    assert DescriptorOk(sha256, [a][0], checksums, files);
  }

  lemma TreeAccepted(sha256: string -> Digest, a: Artifact, hidden: string)
    requires a.HelmChart? && IsChartRoot(a.payloadPath)
    requires a.payloadSha256 == sha256(ChecksumFile.Serialize(Listing(sha256, a.payloadPath, hidden)))
    requires a.payloadSize == |hidden|
    ensures Accepted(sha256, [a], map[a.payloadPath := "", Below(a.payloadPath) := hidden],
                     map[a.payloadPath := sha256(""), Below(a.payloadPath) := sha256(hidden)])
  {
    hide Canonical;
    hide ShapeOk;
    hide RootName;
    hide PayloadPathAccepted;
    hide IsChartRoot;
    hide PathsOverlap;
    hide Below;
    hide PayloadStats;
    hide LayoutOk;
    hide ChecksumFile.Serialize;
    var root, below := a.payloadPath, Below(a.payloadPath);
    var files := map[root := "", below := hidden];
    var checksums: Checksums := map[root := sha256(""), below := sha256(hidden)];
    ShapeOfChart(a, files);
    RootIsNotCritical(root);
    BelowIsCanonical(root);
    TreeStats(sha256, root, below, hidden);
    assert files.Keys == {root, below} == checksums.Keys;
    TreeLayout(a, files, checksums);
    assert files[root] == "" && files[below] == hidden;
    assert ChecksumsOk(sha256, files, checksums);
    assert DescriptorOk(sha256, [a][0], checksums, files);
    assert DescriptorsOk(sha256, [a], checksums, files);
  }

  lemma TreeLayout(a: Artifact, files: map<string, string>, checksums: Checksums)
    requires ShapeOk(a, files) && RootName(a) == a.payloadPath
    requires files.Keys == checksums.Keys && files.Keys !! CRITICAL_FILES
    requires a.payloadPath in checksums && forall p :: p in checksums ==> Under(a.payloadPath, p)
    ensures LayoutOk([a], files, checksums)
  {
    hide ShapeOk;
    hide RootName;
    hide PathsOverlap;
    assert a.payloadPath in Matches(a.payloadPath, checksums);
    forall p | p in checksums
      ensures Covered([a], p)
    {
      assert Under(RootName([a][0]), p);
    }
  }

  lemma PairMatches(root: string, below: string, checksums: Checksums)
    requires below == Below(root) && checksums.Keys == {root, below}
    ensures Matches(root, checksums) == {root, below} && {root, below} != {root}
    ensures Restrict(checksums, Matches(root, checksums)) == checksums
  {
    hide IsDigest;
    assert |below| > |root|;
  }

  lemma PairWeight(root: string, below: string, hidden: string)
    requires root != below
    ensures Weight({root, below}, map[root := "", below := hidden]) == |hidden|
  {
    var files := map[root := "", below := hidden];
    WeightRemove({root, below}, root, files);
    assert {root, below} - {root} == {below};
    WeightRemove({below}, below, files);
    assert {below} - {below} == {};
  }

  lemma SortedTwo(root: string, below: string)
    requires below == Below(root)
    ensures root != below && Sorted({root, below}) == [root, below]
  {
    assert |below| > |root|;
    PrefixLeq(root, below);
    hide Below;
    SortedPair(root, below);
  }

  lemma PairListing(sha256: string -> Digest, root: string, hidden: string)
    ensures var checksums: Checksums := map[root := sha256(""), Below(root) := sha256(hidden)];
            ChecksumFile.SortedEntries(checksums) == Listing(sha256, root, hidden)
  {
    SortedTwo(root, Below(root));
    EntriesOfTwo(map[root := sha256(""), Below(root) := sha256(hidden)], root, Below(root));
    hide Sorted;
    hide Below;
    hide IsDigest;
    hide ChecksumFile.SortedEntries;
  }

  lemma EntriesOfTwo(checksums: Checksums, a: string, b: string)
    requires checksums.Keys == {a, b} && Sorted({a, b}) == [a, b]
    ensures ChecksumFile.SortedEntries(checksums) ==
            [ChecksumFile.Entry(a, checksums[a]), ChecksumFile.Entry(b, checksums[b])]
  {
    hide Sorted;
    hide IsDigest;
  }

  lemma TreeStats(sha256: string -> Digest, root: string, below: string, hidden: string)
    requires below == Below(root)
    ensures PayloadStats(
              sha256, root, map[root := sha256(""), below := sha256(hidden)], map[root := "", below := hidden]) ==
            Some(Stats(sha256(ChecksumFile.Serialize(Listing(sha256, root, hidden))), |hidden|))
  {
    var checksums: Checksums := map[root := sha256(""), below := sha256(hidden)];
    assert |below| > |root|;
    assert checksums.Keys == {root, below};
    PairMatches(root, below, checksums);
    PairWeight(root, below, hidden);
    PairListing(sha256, root, hidden);
    hide Below;
    hide IsDigest;
    hide Weight;
    hide Matches;
    hide Restrict;
    hide Listing;
    hide ChecksumFile.Serialize;
    hide ChecksumFile.SortedEntries;
  }
}
