/** Concrete bundles: inputs a build stages and then refuses, and two archives under one manifest. */
module BundleExamples {
  import opened BundleManifest
  import opened BundleNames
  import opened PosixPath
  import ChecksumFile
  import opened BundleArchive
  import opened BundleVerification
  import opened BundleBuild
  import opened BundleSafety
  import opened BundleSelfCheck

  const ROOT := "images/app"

  function ZeroDigest(): (digest: string)
    ensures IsOciDigest(digest)
  {
    var zeros := seq(64, _ => '0');
    assert ("sha256:" + zeros)[7..] == zeros;
    "sha256:" + zeros
  }

  predicate Ascii(s: string) {
    forall i :: 0 <= i < |s| ==> s[i] as int < 0x80
  }

  lemma {:induction false} AsciiLength(s: string)
    requires Ascii(s)
    ensures Utf8Length(s) == |s|
  {
    if s != [] {
      AsciiLength(s[1..]);
    }
  }

  /** Characters and length as the name check wants them. */
  predicate Plain(s: string) {
    !HasForbiddenChar(s) && Ascii(s) && |s| <= 16
  }

  /** A short name the name check accepts; line boundaries other than "\n" and "\r" are allowed. */
  predicate PlainName(name: string) {
    && '/' !in name && name != "" && name != "." && name != ".."
    && !HasForbiddenChar(name) && Ascii(name) && |name| <= 5
  }

  lemma PlainTree(file: string, directories: set<string>)
    requires PlainName(file) && forall d :: d in directories ==> PlainName(d)
    requires file !in directories
    ensures IsFileTree(Tree(map[file := ""], directories))
  {
    var t := Tree(map[file := ""], directories);
    forall p | p in t.files.Keys + t.directories
      ensures ProperRelative(p)
      ensures forall d :: !(d + "/" <= p)
    {
      PlainNameIsCanonical(p);
      NothingAbovePlain(p);
    }
    hide ProperRelative;
  }

  lemma NothingAbovePlain(p: string)
    requires '/' !in p
    ensures forall d :: !(d + "/" <= p)
  {
    forall d
      ensures !(d + "/" <= p)
    {
      assert (d + "/")[|d|] == '/';
      assert |d| < |p| ==> p[|d|] != '/';
    }
  }

  /** One image whose snapshot holds one empty file and some directories, all at its top level. */
  function OneFile(file: string, directories: set<string>): PackageInput
    requires PlainName(file) && file !in directories
    requires forall d :: d in directories ==> PlainName(d)
  {
    PlainTree(file, directories);
    ImageInput("library/app", "1.0", ZeroDigest(), ROOT, Source(true, DirectoryTree, false, true),
               Tree(map[file := ""], directories))
  }

  lemma TwoComponents(a: string, b: string)
    requires '/' !in a && a != "" && a != "." && '/' !in b && b != "" && b != "."
    ensures Split(a + "/" + b) == Parts(a + "/" + b) == [a, b] && Canonical(a + "/" + b)
  {
    SplitAppend(a, b);
    SplitPlain(a);
    SplitPlain(b);
    hide Split;
    hide Canonical;
    CanonicalComponents(a + "/" + b);
  }

  lemma RootFacts()
    ensures Split(ROOT) == Parts(ROOT) == ["images", "app"] && Canonical(ROOT)
  {
    assert ROOT == "images" + "/" + "app";
    hide *;
    TwoComponents("images", "app");
  }

  lemma AboveRoot()
    ensures Ancestors(ROOT) == {"images"}
  {
    assert ROOT[6] == '/' && ROOT[..6] == "images";
    assert forall i :: 0 <= i < |ROOT| && ROOT[i] == '/' ==> i == 6;
  }

  lemma OneDeeper(root: string, name: string)
    requires Canonical(root) && PlainName(name)
    ensures Split(Inside(root, name)) == Split(root) + [name]
    ensures Canonical(Inside(root, name)) && Parts(Inside(root, name)) == Split(Inside(root, name))
  {
    SplitPlain(name);
    SplitAppend(root, name);
    CanonicalComponents(root);
    hide Split;
    hide Canonical;
    hide Parts;
    CanonicalComponents(Inside(root, name));
  }

  lemma InRootFacts(name: string)
    requires PlainName(name)
    ensures Split(Inside(ROOT, name)) == ["images", "app", name]
    ensures Canonical(Inside(ROOT, name)) && Parts(Inside(ROOT, name)) == ["images", "app", name]
  {
    hide *;
    RootFacts();
    OneDeeper(ROOT, name);
  }

  /** Proper components, plain characters and few of them: a safe name. */
  lemma ShortIsSafe(name: string, limits: Limits)
    requires Canonical(name) && Parts(name) == Split(name) && ".." !in Split(name)
    requires Plain(name) && limits.maxPathBytes >= 16
    ensures SafeName(name, limits.maxPathBytes)
  {
    CanonicalComponents(name);
    AsciiLength(name);
    hide Split;
    hide Parts;
    hide AsPosix;
  }

  /** Letters and dots only. */
  predicate LettersAndDots(s: string) {
    forall i :: 0 <= i < |s| ==> 'a' <= s[i] <= 'z' || s[i] == '.' || '0' <= s[i] <= '9'
  }

  lemma LettersArePlain(s: string)
    requires LettersAndDots(s) && |s| <= 16
    ensures Plain(s) && '/' !in s
  {
  }

  lemma FixedNamesArePlain(name: string)
    requires name in CRITICAL_FILES || name == "images"
    ensures Plain(name) && '/' !in name && name != "" && name != "." && name != ".."
  {
    hide Plain;
    assert LettersAndDots("images") && LettersAndDots("manifest.json");
    assert LettersAndDots("manifest.sig") && LettersAndDots("checksums.sha256");
    assert 6 <= |name| <= 16;
    assert LettersAndDots(name);
    LettersArePlain(name);
  }

  lemma InRootIsPlain(name: string)
    requires PlainName(name)
    ensures Plain(Inside(ROOT, name))
  {
    assert LettersAndDots("images") && LettersAndDots("app");
    LettersArePlain("images");
    LettersArePlain("app");
    assert Inside(ROOT, name) == "images" + "/" + "app" + "/" + name;
  }

  lemma InRootIsSafe(name: string, limits: Limits)
    requires PlainName(name) && limits.maxPathBytes >= 16
    ensures SafeName(Inside(ROOT, name), limits.maxPathBytes)
  {
    InRootFacts(name);
    InRootIsPlain(name);
    assert ".." !in ["images", "app", name];
    hide *;
    ShortIsSafe(Inside(ROOT, name), limits);
  }

  lemma FixedNamesAreSafe(name: string, limits: Limits)
    requires name in CRITICAL_FILES || name == "images"
    requires limits.maxPathBytes >= 16
    ensures SafeName(name, limits.maxPathBytes)
  {
    FixedNamesArePlain(name);
    hide CRITICAL_FILES;
    PlainNameIsCanonical(name);
    SplitPlain(name);
    hide Split;
    hide Canonical;
    hide Parts;
    ShortIsSafe(name, limits);
  }

  lemma RootIsSafe(limits: Limits)
    requires limits.maxPathBytes >= 16
    ensures SafeName(ROOT, limits.maxPathBytes)
  {
    RootFacts();
    hide Split;
    hide Canonical;
    hide Parts;
    ShortIsSafe(ROOT, limits);
  }

  lemma OneFileLands(file: string, directories: set<string>, limits: Limits)
    requires PlainName(file) && file !in directories && forall d :: d in directories ==> PlainName(d)
    requires limits.maxPathBytes >= 16
    ensures DestinationOk(OneFile(file, directories), limits)
  {
    RootFacts();
    RootIsSafe(limits);
    CanonicalIsOwnForm(ROOT);
    var a := OneFile(file, directories);
    assert a.ImageInput? && a.payloadPath == ROOT;
    hide OneFile;
    hide SafeName;
    hide AsPosix;
    hide Parts;
    hide Canonical;
  }

  lemma OneFilePaths(file: string, directories: set<string>)
    requires PlainName(file) && file !in directories && forall d :: d in directories ==> PlainName(d)
    ensures FilePaths(OneFile(file, directories)) == {Inside(ROOT, file)}
    ensures DirectoriesOf(OneFile(file, directories)) == {"images", ROOT} + set d | d in directories :: Inside(ROOT, d)
  {
    var a := OneFile(file, directories);
    AboveRoot();
    assert file in a.tree.files && a.tree.files.Keys == {file};
    hide IsFileTree;
    hide Inside;
    hide Ancestors;
  }

  lemma OneIsStaged(a: PackageInput)
    ensures Staged([a]).files.Keys == FilePaths(a) && Staged([a]).directories == DirectoriesOf(a)
  {
    hide FilePaths;
    hide DirectoriesOf;
    assert [a][..0] == [];
    assert Staged([]) == Workspace(map[], {});
  }

  lemma OneFileIsSmall(file: string, directories: set<string>, limits: Limits)
    requires PlainName(file) && file !in directories && forall d :: d in directories ==> PlainName(d)
    requires limits.maxMembers >= 1
    ensures SourceOk(OneFile(file, directories), limits)
  {
    var files := map[file := ""];
    assert OneFile(file, directories).tree.files == files && files.Keys == {file};
    assert OneFile(file, directories).source == Source(true, DirectoryTree, false, true);
    hide IsFileTree;
    WeightRemove({file}, file, files);
    assert {file} - {file} == {};
    assert |files| == |files.Keys|;
  }

  lemma SingletonStages(a: PackageInput, p: string, limits: Limits)
    requires DestinationOk(a, limits) && SourceOk(a, limits)
    requires FilePaths(a) == {p} && SafeName(p, limits.maxPathBytes)
    ensures Stageable([a], limits) && Checksummable([a], limits)
  {
    hide FilePaths;
    hide DestinationOk;
    hide SourceOk;
    hide SafeName;
    hide PathsOverlap;
    assert p in FilePaths(a);
    assert forall i :: 0 <= i < |[a]| ==> [a][i] == a;
  }

  lemma OneFileStages(file: string, directories: set<string>, limits: Limits)
    requires PlainName(file) && file !in directories && forall d :: d in directories ==> PlainName(d)
    requires limits.maxMembers >= 1 && limits.maxPathBytes >= 16
    ensures Stageable([OneFile(file, directories)], limits) && Checksummable([OneFile(file, directories)], limits)
  {
    hide *;
    OneFilePaths(file, directories);
    OneFileIsSmall(file, directories, limits);
    OneFileLands(file, directories, limits);
    InRootIsSafe(file, limits);
    SingletonStages(OneFile(file, directories), Inside(ROOT, file), limits);
  }

  lemma SafeIsAccepted(path: string, maxPathBytes: nat)
    requires SafeName(path, maxPathBytes)
    ensures PayloadPathAccepted(path)
  {
    hide Parts;
  }

  /** The manifest of a one-image build needs a valid header and the image's own path and digest to be valid. */
  lemma OneManifestIsValid(
    sha256: string -> Digest, limits: Limits, deliveryId: string, header: Header, a: PackageInput)
    requires Stageable([a], limits) && Checksummable([a], limits)
    requires a.ImageInput? && IsOciDigest(a.imageDigest) && SafeName(a.payloadPath, limits.maxPathBytes)
    requires a.repository != "" && a.reference != ""
    ensures ManifestValid(BuiltManifest(sha256, limits, deliveryId, header, [a])) <==> HeaderValid(header)
    ensures SchemaOk(BuiltManifest(sha256, limits, deliveryId, header, [a])) <==>
            header.createdBy != "" && header.harbor != ""
  {
    SafeIsAccepted(a.payloadPath, limits.maxPathBytes);
    hide HeaderValid;
    hide IsOciDigest;
    hide PayloadPathAccepted;
    hide Stageable;
    hide Checksummable;
    hide SafeName;
    hide PayloadStats;
    hide Staged;
    hide Digests;
  }

  lemma BuiltNames(c: Codec, s: Signing, m: Manifest, inputs: seq<PackageInput>)
    ensures var w, staged := BuiltWorkspace(c, s, m, inputs), Staged(inputs);
            w.files.Keys == staged.files.Keys + CRITICAL_FILES && w.directories == staged.directories
  {
    hide Staged;
    hide ChecksumText;
    hide Digests;
  }

  lemma ExampleNameIsSafe(p: string, file: string, directories: set<string>, limits: Limits)
    requires PlainName(file) && forall d :: d in directories ==> PlainName(d)
    requires limits.maxPathBytes >= 16
    requires p in CRITICAL_FILES + {Inside(ROOT, file), "images", ROOT} + set d | d in directories :: Inside(ROOT, d)
    ensures SafeName(p, limits.maxPathBytes)
  {
    hide *;
    if p in CRITICAL_FILES || p == "images" {
      FixedNamesAreSafe(p, limits);
    } else if p == ROOT {
      RootIsSafe(limits);
    } else if p == Inside(ROOT, file) {
      InRootIsSafe(file, limits);
    } else {
      var d :| d in directories && p == Inside(ROOT, d);
      InRootIsSafe(d, limits);
    }
  }

  lemma OneFileNamesSafe(c: Codec, s: Signing, m: Manifest, file: string, directories: set<string>, limits: Limits)
    requires PlainName(file) && file !in directories && forall d :: d in directories ==> PlainName(d)
    requires limits.maxPathBytes >= 16
    ensures NamesSafe(BuiltWorkspace(c, s, m, [OneFile(file, directories)]), limits)
  {
    hide BuiltWorkspace;
    hide OneFile;
    hide PlainName;
    hide Inside;
    hide CRITICAL_FILES;
    hide SafeName;
    hide Staged;
    hide FilePaths;
    hide DirectoriesOf;
    OneFilePaths(file, directories);
    OneIsStaged(OneFile(file, directories));
    BuiltNames(c, s, m, [OneFile(file, directories)]);
    var w := BuiltWorkspace(c, s, m, [OneFile(file, directories)]);
    forall p | p in w.files.Keys + w.directories
      ensures SafeName(p, limits.maxPathBytes)
    {
      ExampleNameIsSafe(p, file, directories, limits);
    }
  }

  /** Everything up to self-verification goes through for such an input. */
  lemma OneFileIsPrepared(
    c: Codec, s: Signing, limits: Limits, deliveryId: string, header: Header, file: string, directories: set<string>)
    requires PlainName(file) && file !in directories && forall d :: d in directories ==> PlainName(d)
    requires limits.maxMembers >= 1 && limits.maxPathBytes >= 16 && HeaderValid(header)
    requires SignsBuild(c, s, limits, deliveryId, header, [OneFile(file, directories)])
    ensures var inputs := [OneFile(file, directories)];
            && Stageable(inputs, limits) && Checksummable(inputs, limits)
            && var m := BuiltManifest(c.sha256, limits, deliveryId, header, inputs);
            && Prepared(c, s, limits, inputs, m, BuiltWorkspace(c, s, m, inputs))
            && (SchemaOk(m) <==> header.createdBy != "" && header.harbor != "")
  {
    var a := OneFile(file, directories);
    assert a.ImageInput? && a.payloadPath == ROOT && a.imageDigest == ZeroDigest();
    assert a.repository != "" && a.reference != "";
    hide *;
    OneFileStages(file, directories, limits);
    RootIsSafe(limits);
    OneManifestIsValid(c.sha256, limits, deliveryId, header, a);
    OneFileNamesSafe(c, s, BuiltManifest(c.sha256, limits, deliveryId, header, [a]), file, directories, limits);
    BuildIsPrepared(c, s, limits, deliveryId, header, [a]);
  }

  lemma OneFileIsClean(file: string, directories: set<string>)
    requires PlainName(file) && file !in directories && forall d :: d in directories ==> PlainName(d)
    ensures CleanInputs([OneFile(file, directories)]) <==> directories == {}
  {
    var a := OneFile(file, directories);
    assert a.ImageInput? && a.tree.directories == directories && a.tree.files.Keys == {file};
    hide IsFileTree;
    hide OneFile;
    NothingAbovePlain(file);
    assert [a][0] == a;
    if directories != {} {
      var d :| d in directories;
      assert !CleanTree(a.tree);
    }
  }

  lemma BoundariesAddUp(prefix: string, name: string)
    requires ChecksumFile.BoundaryFree(prefix)
    ensures ChecksumFile.BoundaryFree(prefix + name) <==> ChecksumFile.BoundaryFree(name)
  {
    hide ChecksumFile.IsBoundary;
    assert forall i :: 0 <= i < |name| ==> (prefix + name)[|prefix| + i] == name[i];
    assert forall i :: 0 <= i < |prefix| ==> (prefix + name)[i] == prefix[i];
  }

  lemma RootIsOnOneLine(name: string)
    ensures ChecksumFile.BoundaryFree(Inside(ROOT, name)) <==> ChecksumFile.BoundaryFree(name)
  {
    assert Inside(ROOT, name) == "images/app/" + name;
    BoundariesAddUp("images/app/", name);
  }

  lemma OneFileIsOnOneLine(file: string, directories: set<string>)
    requires PlainName(file) && file !in directories && forall d :: d in directories ==> PlainName(d)
    ensures NamesOnOneLine([OneFile(file, directories)]) <==> ChecksumFile.BoundaryFree(file)
  {
    OneFilePaths(file, directories);
    OneIsStaged(OneFile(file, directories));
    RootIsOnOneLine(file);
    hide OneFile;
    hide Staged;
    hide FilePaths;
    hide Inside;
    hide PlainName;
    hide ROOT;
    hide ChecksumFile.BoundaryFree;
    assert Inside(ROOT, file) in Staged([OneFile(file, directories)]).files;
  }

  /**
    An empty directory, a line boundary in the file name, or an empty author or SOURCE address decides
    whether such a build verifies.
   */
  lemma OneFileVerifiesIff(
    c: Codec, s: Signing, limits: Limits, deliveryId: string, header: Header,
    file: string, directories: set<string>, size: nat)
    requires PlainName(file) && file !in directories && forall d :: d in directories ==> PlainName(d)
    requires limits.maxMembers >= 1 && limits.maxPathBytes >= 16 && HeaderValid(header)
    requires SignsBuild(c, s, limits, deliveryId, header, [OneFile(file, directories)])
    ensures var inputs := [OneFile(file, directories)];
            && ReachesVerifier(c, s, limits, deliveryId, header, inputs)
            && var w := BuiltWorkspace(c, s, BuiltManifest(c.sha256, limits, deliveryId, header, inputs), inputs);
            Accepts(c, limits, Archive(Pack(w), size)) <==>
            && Fits(w, size, limits) && directories == {} && ChecksumFile.BoundaryFree(file)
            && header.createdBy != "" && header.harbor != ""
  {
    var inputs := [OneFile(file, directories)];
    OneFileIsPrepared(c, s, limits, deliveryId, header, file, directories);
    OneFileIsClean(file, directories);
    OneFileIsOnOneLine(file, directories);
    var m := BuiltManifest(c.sha256, limits, deliveryId, header, inputs);
    PreparedReaches(c, s, limits, deliveryId, header, inputs);
    hide *;
    SelfVerificationIff(c, s, limits, inputs, m, BuiltWorkspace(c, s, m, inputs), size);
  }

  const TABBED := "a\U{000B}b"

  lemma ExampleNamesArePlain()
    ensures PlainName("f") && PlainName("d") && PlainName(TABBED)
    ensures ChecksumFile.BoundaryFree("f") && !ChecksumFile.BoundaryFree(TABBED)
  {
    assert ChecksumFile.IsBoundary(TABBED[1]);
  }

  function EmptyDirectory(): PackageInput {
    ExampleNamesArePlain();
    OneFile("f", {"d"})
  }

  function VerticalTab(): PackageInput {
    ExampleNamesArePlain();
    OneFile(TABBED, {})
  }

  function Harmless(): PackageInput {
    ExampleNamesArePlain();
    OneFile("f", {})
  }

  /** The packed archive of a one-artifact build, for a compressed size. */
  ghost function BuiltArchive(
    c: Codec, s: Signing, limits: Limits, deliveryId: string, header: Header, a: PackageInput, size: nat): Archive
    requires ReachesVerifier(c, s, limits, deliveryId, header, [a])
  {
    Archive(Pack(BuiltWorkspace(c, s, BuiltManifest(c.sha256, limits, deliveryId, header, [a]), [a])), size)
  }

  /** The build gets as far as verification and is refused there, whatever the archive's size. */
  ghost predicate AlwaysRefused(
    c: Codec, s: Signing, limits: Limits, deliveryId: string, header: Header, a: PackageInput)
  {
    && ReachesVerifier(c, s, limits, deliveryId, header, [a])
    && forall size: nat :: !Accepts(c, limits, BuiltArchive(c, s, limits, deliveryId, header, a, size))
  }

  lemma OneFileIsRefused(
    c: Codec, s: Signing, limits: Limits, deliveryId: string, header: Header, file: string, directories: set<string>)
    requires PlainName(file) && file !in directories && forall d :: d in directories ==> PlainName(d)
    requires limits.maxMembers >= 1 && limits.maxPathBytes >= 16 && HeaderValid(header)
    requires SignsBuild(c, s, limits, deliveryId, header, [OneFile(file, directories)])
    requires directories != {} || !ChecksumFile.BoundaryFree(file) || header.createdBy == "" || header.harbor == ""
    ensures AlwaysRefused(c, s, limits, deliveryId, header, OneFile(file, directories))
  {
    var a := OneFile(file, directories);
    OneFileVerifiesIff(c, s, limits, deliveryId, header, file, directories, 0);
    hide *;
    forall size: nat
      ensures !Accepts(c, limits, BuiltArchive(c, s, limits, deliveryId, header, a, size))
    {
      OneFileVerifiesIff(c, s, limits, deliveryId, header, file, directories, size);
    }
  }

  lemma HarmlessIsAccepted(c: Codec, s: Signing, limits: Limits, deliveryId: string, header: Header)
    requires limits.maxMembers >= 1 && limits.maxPathBytes >= 16
    requires HeaderValid(header) && header.createdBy != "" && header.harbor != ""
    requires SignsBuild(c, s, limits, deliveryId, header, [Harmless()])
    ensures ReachesVerifier(c, s, limits, deliveryId, header, [Harmless()])
    ensures exists more: Limits :: more.maxPathBytes == limits.maxPathBytes &&
              Accepts(c, more, BuiltArchive(c, s, limits, deliveryId, header, Harmless(), 1))
  {
    ExampleNamesArePlain();
    assert Harmless() == OneFile("f", {});
    OneFileIsPrepared(c, s, limits, deliveryId, header, "f", {});
    OneFileIsClean("f", {});
    OneFileIsOnOneLine("f", {});
    var m := BuiltManifest(c.sha256, limits, deliveryId, header, [Harmless()]);
    var w := BuiltWorkspace(c, s, m, [Harmless()]);
    assert BuiltArchive.requires(c, s, limits, deliveryId, header, Harmless(), 1) ==>
           BuiltArchive(c, s, limits, deliveryId, header, Harmless(), 1) == Archive(Pack(w), 1) by {
      hide ReachesVerifier;
      hide BuiltWorkspace;
      hide BuiltManifest;
      hide Pack;
    }
    assert Roomy(limits, w).maxPathBytes == limits.maxPathBytes by {
      hide Pack;
    }
    hide *;
    PreparedReaches(c, s, limits, deliveryId, header, [Harmless()]);
    RoomyAccepts(c, s, limits, [Harmless()], m, w);
  }

  /**
    Three builds that every step before verification takes and that no archive size lets verify, within
    any limits: an empty directory "d" beside the file "f", a file name with a vertical tab, and an empty
    created_by, which only the JSON Schema refuses. The file "f" alone verifies once the limits have room.
   */
  lemma StageableButRefused(c: Codec, s: Signing, limits: Limits, deliveryId: string, header: Header)
    requires limits.maxMembers >= 1 && limits.maxPathBytes >= 16
    requires HeaderValid(header) && header.createdBy != "" && header.harbor != ""
    requires SignsBuild(c, s, limits, deliveryId, header.(createdBy := ""), [Harmless()])
    requires SignsBuild(c, s, limits, deliveryId, header, [EmptyDirectory()])
    requires SignsBuild(c, s, limits, deliveryId, header, [VerticalTab()])
    requires SignsBuild(c, s, limits, deliveryId, header, [Harmless()])
    ensures AlwaysRefused(c, s, limits, deliveryId, header, EmptyDirectory())
    ensures AlwaysRefused(c, s, limits, deliveryId, header, VerticalTab())
    ensures AlwaysRefused(c, s, limits, deliveryId, header.(createdBy := ""), Harmless())
    ensures ReachesVerifier(c, s, limits, deliveryId, header, [Harmless()])
    ensures exists more: Limits :: more.maxPathBytes == limits.maxPathBytes &&
              Accepts(c, more, BuiltArchive(c, s, limits, deliveryId, header, Harmless(), 1))
  {
    ExampleNamesArePlain();
    assert {"d"} != {} && "f" !in {"d"};
    assert EmptyDirectory() == OneFile("f", {"d"}) && VerticalTab() == OneFile(TABBED, {});
    assert Harmless() == OneFile("f", {}) && HeaderValid(header.(createdBy := ""));
    hide *;
    OneFileIsRefused(c, s, limits, deliveryId, header, "f", {"d"});
    OneFileIsRefused(c, s, limits, deliveryId, header, TABBED, {});
    OneFileIsRefused(c, s, limits, deliveryId, header.(createdBy := ""), "f", {});
    HarmlessIsAccepted(c, s, limits, deliveryId, header);
  }

  /** Payload names an archive may hold and its checksum file can list. */
  ghost predicate Listable(payload: map<string, string>, limits: Limits) {
    forall p :: p in payload ==>
      Canonical(p) && InPayloadLayout(p) && SafeName(p, limits.maxPathBytes) && ChecksumFile.BoundaryFree(p)
  }

  /** Payload files with the three metadata files beside them, whoever wrote them. */
  function Written(payload: map<string, string>, text: string, signature: string, checksums: Checksums): Workspace {
    WithMetadata(Workspace(payload, {}), text, signature, checksums)
  }

  lemma WrittenIsPacked(
    payload: map<string, string>, text: string, signature: string, checksums: Checksums, limits: Limits)
    requires Listable(payload, limits) && limits.maxPathBytes >= 16
    ensures var w := Written(payload, text, signature, checksums);
            && PackedOk(w, Workspace(payload, {}), limits)
            && w.files["manifest.json"] == text && w.files["manifest.sig"] == signature
            && w.files["checksums.sha256"] == ChecksumText(checksums)
            && Payload(w.files) == payload && SameContents(payload, w.files)
  {
    hide Canonical;
    hide InPayloadLayout;
    hide SafeName;
    hide ChecksumText;
    hide ChecksumFile.BoundaryFree;
    hide CRITICAL_FILES;
    var w, staged := Written(payload, text, signature, checksums), Workspace(payload, {});
    forall p | p in payload
      ensures p !in CRITICAL_FILES
    {
      LayoutIsNotCritical(p);
    }
    MetadataFiles(staged, text, signature, checksums);
    CompleteIsCanonical(w, staged);
    hide Written;
    forall p | p in w.files.Keys + w.directories
      ensures SafeName(p, limits.maxPathBytes)
    {
      if p in CRITICAL_FILES {
        FixedNamesAreSafe(p, limits);
      }
    }
  }

  lemma ChartLayoutWithMetadata(
    a: Artifact, payload: map<string, string>, files: map<string, string>, checksums: Checksums)
    requires a.HelmChart? && LayoutOk([a], payload, checksums) && checksums.Keys == payload.Keys
    requires Payload(files) == payload
    ensures LayoutOk([a], files, checksums)
  {
    hide RootName;
    hide Parts;
    hide Matches;
    hide Covered;
    hide NoOverlap;
    hide IsDigest;
    assert files.Keys - CRITICAL_FILES == Payload(files).Keys;
    assert RootOk([a][0], payload, checksums);
    assert RootName(a) in files;
  }

  lemma ChecksWithMetadata(
    sha256: string -> Digest, a: Artifact, payload: map<string, string>, files: map<string, string>,
    checksums: Checksums)
    requires checksums.Keys == payload.Keys && SameContents(payload, files)
    requires ChecksumsOk(sha256, payload, checksums) && DescriptorsOk(sha256, [a], checksums, payload)
    ensures ChecksumsOk(sha256, files, checksums) && DescriptorsOk(sha256, [a], checksums, files)
  {
    StatsAgree(sha256, a.payloadPath, checksums, payload, files);
    hide PayloadStats;
    hide IsDigest;
    assert DescriptorOk(sha256, [a][0], checksums, payload);
    assert DescriptorOk(sha256, [a][0], checksums, files);
  }

  /** Metadata files beside a payload change nothing for its checks. */
  lemma PayloadWithMetadata(
    sha256: string -> Digest, a: Artifact, payload: map<string, string>, files: map<string, string>,
    checksums: Checksums)
    requires a.HelmChart? && PayloadAccepted(sha256, [a], payload, checksums) && checksums.Keys == payload.Keys
    requires Payload(files) == payload && SameContents(payload, files)
    ensures PayloadAccepted(sha256, [a], files, checksums)
  {
    hide LayoutOk;
    hide ChecksumsOk;
    hide DescriptorsOk;
    hide SameContents;
    hide Payload;
    hide IsDigest;
    ChartLayoutWithMetadata(a, payload, files, checksums);
    ChecksWithMetadata(sha256, a, payload, files, checksums);
  }

  /** A signed one-chart manifest over a payload that passes its checks is accepted, within the limits. */
  lemma WrittenIsAccepted(
    c: Codec, s: Signing, limits: Limits, m: Manifest, payload: map<string, string>, checksums: Checksums, size: nat)
    requires |m.artifacts| == 1 && m.artifacts[0].HelmChart? && ManifestValid(m) && SignsFor(s, c, m)
    requires SchemaOk(m)
    requires PayloadAccepted(c.sha256, m.artifacts, payload, checksums)
    requires checksums.Keys == payload.Keys && payload != map[]
    requires Listable(payload, limits) && limits.maxPathBytes >= 16
    requires WithinLimits(Written(payload, s.encode(m), s.sign(s.encode(m)), checksums), size, limits)
    ensures var w := Written(payload, s.encode(m), s.sign(s.encode(m)), checksums);
            && Accepts(c, limits, Archive(Pack(w), size))
            && ManifestText(Archive(Pack(w), size)) == s.encode(m)
            && Payload(Files(Pack(w))) == payload
  {
    var text, signature := s.encode(m), s.sign(s.encode(m));
    var w, staged := Written(payload, text, signature, checksums), Workspace(payload, {});
    var archive := Archive(Pack(w), size);
    hide *;
    assert m.artifacts == [m.artifacts[0]] && staged.directories == {};
    SizesWithin(w, size, limits);
    SignerConfirms(c, s, m);
    WrittenIsPacked(payload, text, signature, checksums, limits);
    WrittenInspection(w, staged, size, limits);
    WrittenChecksums(payload, checksums, limits);
    PayloadWithMetadata(c.sha256, m.artifacts[0], payload, w.files, checksums);
    WrittenTexts(w, archive, limits);
    SignedParts(c, limits, archive, m);
    AcceptanceOfSigned(c, limits, archive, m);
  }

  lemma SizesWithin(w: Workspace, size: nat, limits: Limits)
    requires WithinLimits(w, size, limits)
    ensures 0 < size <= limits.maxArchiveBytes && MetadataSmall(w.files, limits)
  {
    hide Pack;
    hide MetadataSmall;
  }

  lemma SignerConfirms(c: Codec, s: Signing, m: Manifest)
    requires SignsFor(s, c, m)
    ensures c.parse(s.encode(m)) == Some(m) && |s.sign(s.encode(m))| == 64
    ensures c.signer(s.encode(m), s.sign(s.encode(m))).Some?
  {
  }

  lemma WrittenTexts(w: Workspace, archive: Archive, limits: Limits)
    requires Files(archive.members) == w.files
    requires "manifest.json" in w.files && "manifest.sig" in w.files && "checksums.sha256" in w.files
    ensures ManifestText(archive) == w.files["manifest.json"] && SignatureText(archive) == w.files["manifest.sig"]
    ensures ChecksumsOf(archive, limits) == ChecksumFile.Read(w.files["checksums.sha256"], limits.maxPathBytes)
  {
    hide ChecksumFile.Read;
    hide Files;
  }

  lemma SignedParts(c: Codec, limits: Limits, archive: Archive, m: Manifest)
    requires 0 < archive.size <= limits.maxArchiveBytes
    requires Inspectable(archive.members, archive.size, limits) && MetadataSmall(Files(archive.members), limits)
    requires ChecksumsOf(archive, limits).Entries? && SchemaOk(m)
    requires PayloadAccepted(c.sha256, m.artifacts, Files(archive.members), ChecksumsOf(archive, limits).entries)
    ensures AcceptsSigned(c, limits, archive, m)
  {
    hide Inspectable;
    hide MetadataSmall;
    hide ChecksumsOf;
    hide Files;
    hide PayloadAccepted;
  }

  lemma WrittenInspection(w: Workspace, staged: Workspace, size: nat, limits: Limits)
    requires PackedOk(w, staged, limits) && staged.directories == {}
    requires WithinLimits(w, size, limits)
    ensures Inspectable(Pack(w), size, limits) && Files(Pack(w)) == w.files
    ensures "manifest.json" in w.files && "manifest.sig" in w.files && "checksums.sha256" in w.files
  {
    assert BundleSelfCheck.NoEmptyDirectory(staged);
    assert AllCanonical(w);
    hide *;
    PackedHasMetadata(w, staged, limits);
    PackedMembersAllowed(w, staged, limits);
    EveryPackedMemberAllowed(w, staged, limits);
    PackedFiles(w);
    InspectableParts(w, size, limits);
  }

  lemma InspectableParts(w: Workspace, size: nat, limits: Limits)
    requires WithinLimits(w, size, limits) && MembersAllowed(Pack(w)) && NamesWithinLimit(Pack(w), limits)
    ensures Inspectable(Pack(w), size, limits)
  {
    hide Pack;
    hide MembersAllowed;
    hide NamesWithinLimit;
    hide ExtractedBytes;
    hide RatioAllowed;
    hide MetadataSmall;
  }

  lemma WrittenChecksums(payload: map<string, string>, checksums: Checksums, limits: Limits)
    requires Listable(payload, limits) && checksums.Keys == payload.Keys && payload != map[]
    ensures ChecksumFile.Read(ChecksumText(checksums), limits.maxPathBytes) == ChecksumFile.Entries(checksums)
  {
    hide Canonical;
    hide InPayloadLayout;
    hide SafeName;
    hide ChecksumText;
    hide IsDigest;
    hide ChecksumFile.Read;
    hide ChecksumFile.BoundaryFree;
    hide CRITICAL_FILES;
    forall p | p in checksums
      ensures SafeName(p, limits.maxPathBytes) && p !in CRITICAL_FILES && ChecksumFile.BoundaryFree(p)
    {
      assert p in payload;
      LayoutIsNotCritical(p);
    }
    var p :| p in payload;
    assert p in checksums;
    WrittenChecksumsReadBack(checksums, limits);
  }

  function Hidden(root: string): string {
    seq(2 * |root| + 136, _ => 'x')
  }

  /** The tree listing of a chart with one file hidden below it: text a plain chart file may as well hold. */
  function ListingText(sha256: string -> Digest, root: string): string {
    ChecksumFile.Serialize(Listing(sha256, root, Hidden(root)))
  }

  /** One chart whose signed digest and size fit both the listing as a file and the tree it lists. */
  function ListedChart(sha256: string -> Digest, root: string): Artifact {
    HelmChart("library", "a", "1.0.0", None, root, sha256(ListingText(sha256, root)), |ListingText(sha256, root)|)
  }

  function ListedManifest(sha256: string -> Digest, deliveryId: string, header: Header, root: string): Manifest {
    Manifest(deliveryId, header, [ListedChart(sha256, root)])
  }

  function AsFile(sha256: string -> Digest, root: string): map<string, string> {
    map[root := ListingText(sha256, root)]
  }

  function AsTree(root: string): map<string, string> {
    map[root := "", Below(root) := Hidden(root)]
  }

  lemma ListedIsValid(sha256: string -> Digest, deliveryId: string, header: Header, root: string)
    requires IsChartRoot(root) && HeaderValid(header) && header.createdBy != "" && header.harbor != ""
    ensures ManifestValid(ListedManifest(sha256, deliveryId, header, root))
    ensures SchemaOk(ListedManifest(sha256, deliveryId, header, root))
    ensures ListedManifest(sha256, deliveryId, header, root).artifacts == [ListedChart(sha256, root)]
    ensures ListedChart(sha256, root).HelmChart?
  {
    hide PayloadPathAccepted;
    hide ListingText;
    hide Canonical;
    hide Parts;
  }

  lemma FilePayload(sha256: string -> Digest, root: string)
    requires IsChartRoot(root)
    ensures PayloadAccepted(
              sha256, [ListedChart(sha256, root)], AsFile(sha256, root), Digests(sha256, AsFile(sha256, root)))
  {
    hide ListingText;
    hide IsChartRoot;
    hide PayloadAccepted;
    hide IsDigest;
    PlainFileAccepted(sha256, ListedChart(sha256, root), ListingText(sha256, root));
    assert Digests(sha256, AsFile(sha256, root)) == map[root := sha256(ListingText(sha256, root))];
  }

  lemma TreePayload(sha256: string -> Digest, root: string)
    requires IsChartRoot(root)
    ensures PayloadAccepted(sha256, [ListedChart(sha256, root)], AsTree(root), Digests(sha256, AsTree(root)))
  {
    hide IsChartRoot;
    hide PayloadAccepted;
    hide IsDigest;
    hide Listing;
    hide Below;
    hide ChecksumFile.Serialize;
    ListingLength(sha256, root, Hidden(root));
    TreeAccepted(sha256, ListedChart(sha256, root), Hidden(root));
    assert Digests(sha256, AsTree(root)) == map[root := sha256(""), Below(root) := sha256(Hidden(root))];
  }

  lemma PartsBelow(root: string)
    requires Canonical(root)
    ensures Canonical(Below(root)) && Parts(Below(root)) == Parts(root) + ["b"] && Parts(root) != []
  {
    BelowIsCanonical(root);
    assert Below(root) == root + "/" + "b";
    SplitAppend(root, "b");
    SplitPlain("b");
    CanonicalComponents(root);
    CanonicalComponents(Below(root));
    hide Canonical;
    hide Split;
    hide Parts;
  }

  lemma SafeFromParts(name: string, limits: Limits)
    requires Canonical(name) && ".." !in Parts(name) && "." !in Parts(name)
    requires !HasForbiddenChar(name) && Utf8Length(name) <= limits.maxPathBytes
    ensures SafeName(name, limits.maxPathBytes)
  {
    hide Parts;
    hide AsPosix;
  }

  lemma LayoutFromFirst(name: string)
    requires Parts(name) != [] && Parts(name)[0] == "charts"
    ensures InPayloadLayout(name)
  {
    hide Parts;
  }

  lemma ChartRootParts(root: string)
    requires IsChartRoot(root)
    ensures Canonical(root) && Parts(root) != [] && Parts(root)[0] == "charts"
    ensures ".." !in Parts(root) && "." !in Parts(root) && '\\' !in root && '\0' !in root
  {
    CanonicalHasParts(root);
    hide Canonical;
    hide Parts;
  }

  lemma ConfusedNamesAreSafe(root: string, limits: Limits)
    requires IsChartRoot(root) && ChecksumFile.BoundaryFree(root)
    requires Utf8Length(root) <= limits.maxPathBytes && Utf8Length(Below(root)) <= limits.maxPathBytes
    ensures SafeName(root, limits.maxPathBytes) && SafeName(Below(root), limits.maxPathBytes)
    ensures ChecksumFile.BoundaryFree(Below(root)) && Canonical(root) && Canonical(Below(root))
    ensures InPayloadLayout(root) && InPayloadLayout(Below(root))
  {
    hide *;
    ChartRootParts(root);
    PartsBelow(root);
    NoForbiddenBelow(root);
    SafeFromParts(root, limits);
    SafeFromParts(Below(root), limits);
    LayoutFromFirst(root);
    LayoutFromFirst(Below(root));
  }

  lemma NoForbiddenBelow(root: string)
    requires '\\' !in root && '\0' !in root && ChecksumFile.BoundaryFree(root)
    ensures !HasForbiddenChar(root) && !HasForbiddenChar(Below(root)) && ChecksumFile.BoundaryFree(Below(root))
  {
    assert !ChecksumFile.IsBoundary('/') && !ChecksumFile.IsBoundary('b');
    assert ChecksumFile.IsBoundary('\n') && ChecksumFile.IsBoundary('\r');
    hide ChecksumFile.IsBoundary;
  }

  /** Limits both archives keep, with room for the names. */
  function RoomForBoth(v: Workspace, w: Workspace, maxPathBytes: nat): Limits {
    var a, b := Roomy(Limits(0, 0, 0, 0, 0, 0.0), v), Roomy(Limits(0, 0, 0, 0, 0, 0.0), w);
    Limits(a.maxMembers + b.maxMembers, a.maxExtractedBytes + b.maxExtractedBytes, 1,
           a.maxMetadataBytes + b.maxMetadataBytes, maxPathBytes, a.maxCompressionRatio + b.maxCompressionRatio)
  }

  lemma BothFit(v: Workspace, w: Workspace, maxPathBytes: nat)
    ensures WithinLimits(v, 1, RoomForBoth(v, w, maxPathBytes))
    ensures WithinLimits(w, 1, RoomForBoth(v, w, maxPathBytes))
    ensures RoomForBoth(v, w, maxPathBytes).maxPathBytes == maxPathBytes
  {
    hide Pack;
    hide ExtractedBytes;
    hide Content;
  }

  lemma ConfusedKeys(sha256: string -> Digest, root: string)
    ensures AsFile(sha256, root).Keys == {root} && AsTree(root).Keys == {root, Below(root)}
    ensures AsFile(sha256, root) != AsTree(root)
  {
    assert root != Below(root);
    hide Below;
    hide ListingText;
    hide Hidden;
    hide IsDigest;
  }

  lemma ConfusedTables(sha256: string -> Digest, root: string, limits: Limits)
    requires IsChartRoot(root) && ChecksumFile.BoundaryFree(root)
    requires Utf8Length(root) <= limits.maxPathBytes && Utf8Length(Below(root)) <= limits.maxPathBytes
    ensures AsFile(sha256, root).Keys == {root} && AsTree(root).Keys == {root, Below(root)}
    ensures Listable(AsFile(sha256, root), limits) && Listable(AsTree(root), limits)
    ensures AsFile(sha256, root) != AsTree(root)
  {
    hide *;
    ConfusedNamesAreSafe(root, limits);
    ConfusedKeys(sha256, root);
    ListableByName(AsFile(sha256, root), limits);
    ListableByName(AsTree(root), limits);
  }

  lemma ListableByName(payload: map<string, string>, limits: Limits)
    requires forall p :: p in payload.Keys ==>
               Canonical(p) && InPayloadLayout(p) && SafeName(p, limits.maxPathBytes) && ChecksumFile.BoundaryFree(p)
    ensures Listable(payload, limits)
  {
    hide Canonical;
    hide InPayloadLayout;
    hide SafeName;
    hide ChecksumFile.BoundaryFree;
  }

  lemma NeverUnder(root: string, p: string, q: string)
    requires Canonical(root) && Parts(root) != [] && Parts(root)[0] == "charts"
    requires p in {root} + CRITICAL_FILES && q in {root} + CRITICAL_FILES && p != q
    ensures !Under(p, q)
  {
    CriticalNamesAreCanonical();
    RootsAreNotCritical();
    assert "charts" in PAYLOAD_ROOTS;
    hide CRITICAL_FILES;
    hide PAYLOAD_ROOTS;
    hide Canonical;
    hide Parts;
    UnderIsComponentPrefix(p, q);
    CanonicalHasParts(p);
    CanonicalHasParts(q);
    assert Parts(p)[0] != Parts(q)[0];
  }

  lemma NamesOfOneFile(w: Workspace, staged: Workspace, limits: Limits, root: string)
    requires PackedOk(w, staged, limits) && staged.files.Keys == {root} && staged.directories == {}
    ensures AllCanonical(w) && Paths(w) == {root} + CRITICAL_FILES
  {
    hide AllCanonical;
    hide NamesSafe;
    hide InPayloadLayout;
    hide CRITICAL_FILES;
  }

  lemma FileIsExtractable(w: Workspace, staged: Workspace, limits: Limits, root: string)
    requires PackedOk(w, staged, limits) && staged.files.Keys == {root} && staged.directories == {}
    requires IsChartRoot(root)
    ensures NoFileAbove(Pack(w))
  {
    hide *;
    NamesOfOneFile(w, staged, limits, root);
    ChartRootParts(root);
    PackedDistinct(w);
    forall i, j | 0 <= i < |Pack(w)| && 0 <= j < |Pack(w)| && i != j
      ensures !Under(Normalized(Pack(w)[i]), Normalized(Pack(w)[j]))
    {
      PackedMember(w, Pack(w)[i]);
      PackedMember(w, Pack(w)[j]);
      NamesDiffer(Pack(w), i, j);
      NeverUnder(root, Normalized(Pack(w)[i]), Normalized(Pack(w)[j]));
    }
    NothingIsAbove(Pack(w));
  }

  lemma NamesDiffer(members: seq<Member>, i: nat, j: nat)
    requires DistinctNames(members) && i < |members| && j < |members| && i != j
    ensures Normalized(members[i]) != Normalized(members[j])
  {
    hide Normalized;
  }

  lemma NothingIsAbove(members: seq<Member>)
    requires forall i, j :: 0 <= i < |members| && 0 <= j < |members| && i != j ==>
               !Under(Normalized(members[i]), Normalized(members[j]))
    ensures NoFileAbove(members)
  {
    hide Under;
    hide Normalized;
  }

  lemma TreeIsNotExtractable(w: Workspace, staged: Workspace, limits: Limits, root: string)
    requires PackedOk(w, staged, limits) && staged.directories == {}
    requires root in staged.files && Below(root) in staged.files
    ensures !NoFileAbove(Pack(w))
  {
    assert root in w.files && Below(root) in w.files && Under(root, Below(root)) && root != Below(root);
    assert AllCanonical(w) && BundleSelfCheck.NoEmptyDirectory(staged);
    assert !PrefixFree(w.files);
    hide *;
    PackedFiles(w);
    PackedMembersAllowed(w, staged, limits);
    ExtractionNeedsPrefixFree(Pack(w));
  }

  /**
    The form condition is not idle. For every hash function and every one-line chart root, two
    archives that the verifier accepts carry the same signed manifest and different payloads: in one
    the chart is a file whose text is a tree listing, in the other it is that tree, with a file below
    the chart. Only the second cannot be unpacked.
   */
  lemma FormConfusion(c: Codec, s: Signing, deliveryId: string, header: Header, root: string)
    requires IsChartRoot(root) && ChecksumFile.BoundaryFree(root)
    requires HeaderValid(header) && header.createdBy != "" && header.harbor != ""
    requires SignsFor(s, c, ListedManifest(c.sha256, deliveryId, header, root))
    ensures exists limits: Limits, a: Archive, b: Archive ::
              && Accepts(c, limits, a) && Accepts(c, limits, b)
              && ManifestText(a) == ManifestText(b)
              && Payload(Files(a.members)) != Payload(Files(b.members))
              && NoFileAbove(a.members) && !NoFileAbove(b.members)
  {
    hide *;
    var m := ListedManifest(c.sha256, deliveryId, header, root);
    var text, signature := s.encode(m), s.sign(s.encode(m));
    var f, g := AsFile(c.sha256, root), AsTree(root);
    var cf, cg := Digests(c.sha256, f), Digests(c.sha256, g);
    var v, w := Written(f, text, signature, cf), Written(g, text, signature, cg);
    var limits := RoomForBoth(v, w, 16 + Utf8Length(root) + Utf8Length(Below(root)));
    BothFit(v, w, 16 + Utf8Length(root) + Utf8Length(Below(root)));
    ListedIsValid(c.sha256, deliveryId, header, root);
    FilePayload(c.sha256, root);
    TreePayload(c.sha256, root);
    DigestsCover(c.sha256, f);
    DigestsCover(c.sha256, g);
    ConfusedTables(c.sha256, root, limits);
    WrittenIsAccepted(c, s, limits, m, f, cf, 1);
    WrittenIsAccepted(c, s, limits, m, g, cg, 1);
    WrittenIsPacked(f, text, signature, cf, limits);
    WrittenIsPacked(g, text, signature, cg, limits);
    FileIsExtractable(v, Workspace(f, {}), limits, root);
    TreeIsNotExtractable(w, Workspace(g, {}), limits, root);
    assert Accepts(c, limits, Archive(Pack(v), 1)) && Accepts(c, limits, Archive(Pack(w), 1));
  }
}
