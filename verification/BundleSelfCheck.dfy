/** A built bundle against the verifier: which staged payloads survive their own verification. */
module BundleSelfCheck {
  import opened BundleManifest
  import opened BundleNames
  import opened PosixPath
  import opened Text
  import ChecksumFile
  import opened BundleArchive
  import opened BundleVerification
  import opened BundleBuild
  import BundleSafety

  lemma NoTrailingSlash(p: string)
    requires Canonical(p)
    ensures p != "" && p[|p| - 1] != '/'
  {
    CanonicalComponents(p);
    var q := p[..|p| - 1];
    SplitAppend(q, "");
    assert Split(q + "/" + "")[|Split(q)|] == "";
    assert q + "/" + "" == q + ['/'];
    assert p == q + [p[|p| - 1]];
  }

  lemma InsideIsCanonical(root: string, relative: string)
    requires Canonical(root) && Canonical(relative)
    ensures Canonical(Inside(root, relative)) && Parts(Inside(root, relative))[0] == Parts(root)[0]
  {
    CanonicalComponents(root);
    CanonicalComponents(relative);
    SplitAppend(root, relative);
    CanonicalComponents(Inside(root, relative));
  }

  lemma AncestorIsCanonical(path: string, d: string)
    requires Canonical(path) && d in Ancestors(path)
    ensures Under(d, path) && d != path
    ensures Canonical(d) && Parts(d)[0] == Parts(path)[0]
  {
    var i :| 0 <= i < |path| && path[i] == '/' && path[..i] == d;
    assert d + "/" == path[..i + 1];
    assert d + "/" <= path;
    RootOfCanonicalIsCanonical(d, path);
    UnderIsComponentPrefix(d, path);
  }

  lemma PlainNameIsCanonical(name: string)
    requires '/' !in name && name != "" && name != "."
    ensures Canonical(name) && Parts(name) == [name]
  {
    SplitPlain(name);
    CanonicalComponents(name);
  }

  lemma CriticalNamesAreCanonical()
    ensures forall p :: p in CRITICAL_FILES ==> Canonical(p) && Parts(p) == [p]
  {
    hide Canonical;
    forall p | p in CRITICAL_FILES
      ensures Canonical(p) && Parts(p) == [p]
    {
      PlainNameIsCanonical(p);
    }
  }

  lemma DestinationIsCanonical(a: PackageInput, limits: Limits)
    requires DestinationOk(a, limits)
    ensures Canonical(a.payloadPath) && |Parts(a.payloadPath)| >= 2 && Parts(a.payloadPath)[0] in PAYLOAD_ROOTS
  {
  }

  /** What staging asks of one artifact: a plain destination of the right kind, and a source of that kind. */
  ghost predicate StagesAlone(a: PackageInput, limits: Limits) {
    var path, parts := a.payloadPath, Split(a.payloadPath);
    && |parts| >= 2 && (forall j :: 0 <= j < |parts| ==> parts[j] != "" && parts[j] != "." && parts[j] != "..")
    && '\\' !in path && '\0' !in path && '\n' !in path && '\r' !in path && Utf8Length(path) <= limits.maxPathBytes
    && a.source.underPayloadRoot
    && (a.ImageInput? ==>
          && parts[0] == "images" && a.source.kind == DirectoryTree && a.source.plainInside
          && |a.tree.files| <= limits.maxMembers && Weight(a.tree.files.Keys, a.tree.files) <= limits.maxExtractedBytes)
    && (a.ChartInput? ==>
          && parts[0] == "charts" && a.source.kind == RegularFile && a.source.endsInTgz
          && var last := parts[|parts| - 1]; |last| >= 4 && last[|last| - 4..] == ".tgz")
  }

  lemma StagesAloneIff(a: PackageInput, limits: Limits)
    ensures DestinationOk(a, limits) && SourceOk(a, limits) <==> StagesAlone(a, limits)
  {
    var path := a.payloadPath;
    CanonicalComponents(path);
    if Proper(Split(path)) {
      SplitStarts(path);
    }
    hide Split;
    hide Parts;
    hide Root;
    hide Join;
    hide Utf8Length;
    hide Weight;
    hide IsFileTree;
  }

  lemma SplitStarts(path: string)
    ensures path != "" && path[0] == '/' ==> Split(path)[0] == ""
  {
  }

  /** Neither destination is or lies below the other. */
  ghost predicate Apart(a: string, b: string) {
    a != b && !(a + "/" <= b) && !(b + "/" <= a)
  }

  lemma ApartIff(a: PackageInput, b: PackageInput, limits: Limits)
    requires DestinationOk(a, limits) && DestinationOk(b, limits)
    ensures PathsOverlap(b.payloadPath, a.payloadPath) <==> !Apart(a.payloadPath, b.payloadPath)
  {
    DestinationIsCanonical(a, limits);
    DestinationIsCanonical(b, limits);
    OverlapIsMutualUnder(b.payloadPath, a.payloadPath);
    hide Canonical;
    hide DestinationOk;
    hide PathsOverlap;
  }

  /** Staging goes through exactly when every artifact does alone and no destination is or lies below another. */
  lemma StageableIff(inputs: seq<PackageInput>, limits: Limits)
    ensures Stageable(inputs, limits) <==>
            && (forall i :: 0 <= i < |inputs| ==> StagesAlone(inputs[i], limits))
            && forall i, j :: 0 <= i < j < |inputs| ==> Apart(inputs[i].payloadPath, inputs[j].payloadPath)
  {
    hide DestinationOk;
    hide SourceOk;
    hide StagesAlone;
    hide PathsOverlap;
    hide Apart;
    forall i | 0 <= i < |inputs|
      ensures DestinationOk(inputs[i], limits) && SourceOk(inputs[i], limits) <==> StagesAlone(inputs[i], limits)
    {
      StagesAloneIff(inputs[i], limits);
    }
    if forall i :: 0 <= i < |inputs| ==> DestinationOk(inputs[i], limits) {
      forall i, j | 0 <= i < j < |inputs|
        ensures PathsOverlap(inputs[j].payloadPath, inputs[i].payloadPath) <==>
                !Apart(inputs[i].payloadPath, inputs[j].payloadPath)
      {
        ApartIff(inputs[i], inputs[j], limits);
      }
    }
  }

  lemma FileTreeFacts(t: FileTree)
    ensures forall p :: p in t.files.Keys + t.directories ==> Canonical(p)
    ensures t.files.Keys !! t.directories
  {
  }

  lemma TreeName(a: PackageInput, r: string)
    requires a.ImageInput? && Canonical(a.payloadPath) && InPayloadLayout(a.payloadPath)
    requires r in a.tree.files.Keys + a.tree.directories
    ensures Canonical(Inside(a.payloadPath, r)) && InPayloadLayout(Inside(a.payloadPath, r))
  {
    FileTreeFacts(a.tree);
    hide IsFileTree;
    hide Canonical;
    InsideIsCanonical(a.payloadPath, r);
    CanonicalHasParts(Inside(a.payloadPath, r));
    hide Parts;
  }

  lemma AncestorName(path: string, d: string)
    requires Canonical(path) && InPayloadLayout(path) && d in Ancestors(path)
    ensures Canonical(d) && InPayloadLayout(d)
  {
    hide Canonical;
    hide Ancestors;
    AncestorIsCanonical(path, d);
    CanonicalHasParts(d);
    hide Parts;
  }

  lemma NamesOfInput(a: PackageInput, p: string)
    requires p in FilePaths(a) + DirectoriesOf(a)
    ensures || p == a.payloadPath || p in Ancestors(a.payloadPath)
            || (a.ImageInput? &&
                exists r :: r in a.tree.files.Keys + a.tree.directories && p == Inside(a.payloadPath, r))
    ensures p in FilePaths(a) ==> Under(a.payloadPath, p)
  {
    hide Ancestors;
    hide IsFileTree;
  }

  /** Everything one artifact stages has a canonical name inside the payload layout. */
  lemma StagedNames(a: PackageInput, limits: Limits)
    requires DestinationOk(a, limits)
    ensures forall p :: p in FilePaths(a) + DirectoriesOf(a) ==> Canonical(p) && InPayloadLayout(p)
    ensures forall p :: p in FilePaths(a) ==> Under(a.payloadPath, p)
  {
    DestinationIsCanonical(a, limits);
    assert InPayloadLayout(a.payloadPath);
    hide *;
    forall p | p in FilePaths(a) + DirectoriesOf(a)
      ensures Canonical(p) && InPayloadLayout(p)
      ensures p in FilePaths(a) ==> Under(a.payloadPath, p)
    {
      NamesOfInput(a, p);
      if p in Ancestors(a.payloadPath) {
        AncestorName(a.payloadPath, p);
      } else if p != a.payloadPath {
        var r :| r in a.tree.files.Keys + a.tree.directories && p == Inside(a.payloadPath, r);
        TreeName(a, r);
      }
    }
  }

  lemma CanonicalHasParts(p: string)
    requires Canonical(p)
    ensures Parts(p) != []
  {
  }

  lemma StagedLast(inputs: seq<PackageInput>)
    requires inputs != []
    ensures var n := |inputs| - 1;
            && Staged(inputs).files.Keys == Staged(inputs[..n]).files.Keys + FilePaths(inputs[n])
            && Staged(inputs).directories == Staged(inputs[..n]).directories + DirectoriesOf(inputs[n])
  {
    hide FilePaths;
    hide DirectoriesOf;
  }

  predicate StagesFile(inputs: seq<PackageInput>, p: string) {
    exists i :: 0 <= i < |inputs| && p in FilePaths(inputs[i])
  }

  predicate StagesDirectory(inputs: seq<PackageInput>, d: string) {
    exists i :: 0 <= i < |inputs| && d in DirectoriesOf(inputs[i])
  }

  lemma StagesOneMore(inputs: seq<PackageInput>, p: string)
    requires inputs != []
    ensures StagesFile(inputs, p) <==> StagesFile(inputs[..|inputs| - 1], p) || p in FilePaths(inputs[|inputs| - 1])
    ensures StagesDirectory(inputs, p) <==>
            StagesDirectory(inputs[..|inputs| - 1], p) || p in DirectoriesOf(inputs[|inputs| - 1])
  {
    hide FilePaths;
    hide DirectoriesOf;
    var n := |inputs| - 1;
    assert forall i :: 0 <= i < n ==> inputs[..n][i] == inputs[i];
  }

  lemma {:induction false} StagedMember(inputs: seq<PackageInput>, p: string)
    ensures p in Staged(inputs).files.Keys <==> StagesFile(inputs, p)
    ensures p in Staged(inputs).directories <==> StagesDirectory(inputs, p)
  {
    if inputs != [] {
      StagedMember(inputs[..|inputs| - 1], p);
      StagedLast(inputs);
      StagesOneMore(inputs, p);
      hide *;
    }
  }

  /** A staged path belongs to one of the inputs, and each input's files are all there, unchanged. */
  lemma StagedMembers(inputs: seq<PackageInput>)
    ensures forall p :: p in Staged(inputs).files <==> exists i :: 0 <= i < |inputs| && p in FilePaths(inputs[i])
    ensures forall d :: d in Staged(inputs).directories <==>
            exists i :: 0 <= i < |inputs| && d in DirectoriesOf(inputs[i])
  {
    hide Staged;
    hide FilePaths;
    hide DirectoriesOf;
    forall p
      ensures p in Staged(inputs).files <==> exists i :: 0 <= i < |inputs| && p in FilePaths(inputs[i])
      ensures p in Staged(inputs).directories <==> exists i :: 0 <= i < |inputs| && p in DirectoriesOf(inputs[i])
    {
      StagedMember(inputs, p);
    }
  }

  lemma AllStagedNames(inputs: seq<PackageInput>, limits: Limits)
    requires Stageable(inputs, limits)
    ensures forall p :: p in Staged(inputs).files.Keys + Staged(inputs).directories ==>
              Canonical(p) && InPayloadLayout(p)
  {
    StagedMembers(inputs);
    hide Canonical;
    hide DestinationOk;
    hide InPayloadLayout;
    hide FilePaths;
    hide DirectoriesOf;
    hide Staged;
    hide PathsOverlap;
    forall p | p in Staged(inputs).files.Keys + Staged(inputs).directories
      ensures Canonical(p) && InPayloadLayout(p)
    {
      var i :| 0 <= i < |inputs| && p in FilePaths(inputs[i]) + DirectoriesOf(inputs[i]);
      StagedNames(inputs[i], limits);
    }
  }

  /** Files of different artifacts never meet: a file under root i was staged by artifact i. */
  lemma OwnerOfFile(inputs: seq<PackageInput>, limits: Limits, i: nat, j: nat, p: string)
    requires Stageable(inputs, limits) && i < |inputs| && j < |inputs|
    requires Under(inputs[i].payloadPath, p) && p in FilePaths(inputs[j])
    ensures i == j
  {
    hide FilePaths;
    hide Canonical;
    hide DestinationOk;
    hide PathsOverlap;
    assert DestinationOk(inputs[i], limits) && DestinationOk(inputs[j], limits);
    StagedNames(inputs[j], limits);
    DestinationIsCanonical(inputs[i], limits);
    DestinationIsCanonical(inputs[j], limits);
    SharedPathMeansOverlap(inputs[i].payloadPath, inputs[j].payloadPath, p);
    SharedPathMeansOverlap(inputs[j].payloadPath, inputs[i].payloadPath, p);
  }

  lemma StageablePart(inputs: seq<PackageInput>, limits: Limits)
    requires Stageable(inputs, limits) && inputs != []
    ensures Stageable(inputs[..|inputs| - 1], limits)
  {
    hide DestinationOk;
    hide SourceOk;
    hide PathsOverlap;
  }

  lemma StagedAt(inputs: seq<PackageInput>, p: string)
    requires inputs != []
    ensures var n := |inputs| - 1;
            && (p in FilePaths(inputs[n]) ==>
                p in Staged(inputs).files && Staged(inputs).files[p] == FilesOf(inputs[n])[p])
            && (p !in FilePaths(inputs[n]) && p in Staged(inputs[..n]).files ==>
                p in Staged(inputs).files && Staged(inputs).files[p] == Staged(inputs[..n]).files[p])
  {
    hide FilePaths;
    hide FilesOf;
    hide DirectoriesOf;
  }

  lemma OwnUnder(inputs: seq<PackageInput>, limits: Limits, i: nat, j: nat, p: string)
    requires Stageable(inputs, limits) && i < |inputs| && j < |inputs|
    requires p in FilePaths(inputs[i]) && p in FilePaths(inputs[j])
    ensures i == j
  {
    StagedNames(inputs[i], limits);
    hide FilePaths;
    hide DestinationOk;
    hide Under;
    hide Canonical;
    hide PathsOverlap;
    OwnerOfFile(inputs, limits, i, j, p);
  }

  /** Staging later inputs never touches an earlier one's file. */
  lemma {:induction false} StagedContent(inputs: seq<PackageInput>, limits: Limits, i: nat, p: string)
    requires Stageable(inputs, limits) && i < |inputs| && p in FilePaths(inputs[i])
    ensures p in Staged(inputs).files && Staged(inputs).files[p] == FilesOf(inputs[i])[p]
  {
    hide *;
    var n := |inputs| - 1;
    StagedAt(inputs, p);
    if i < n {
      StageablePart(inputs, limits);
      assert inputs[..n][i] == inputs[i];
      StagedContent(inputs[..n], limits, i, p);
      if p in FilePaths(inputs[n]) {
        OwnUnder(inputs, limits, i, n, p);
      }
    }
  }

  lemma OwnPath(a: PackageInput, p: string)
    ensures p in FilePaths(a) <==> OfInput(a, p)
  {
    hide IsFileTree;
  }

  lemma InsideIsJoined(root: string, f: string)
    ensures Inside(root, f) == root + "/" + f
  {
  }

  /** What is staged are the inputs. */
  lemma StagedHolds(inputs: seq<PackageInput>, limits: Limits)
    requires Stageable(inputs, limits)
    ensures HoldsInputs(inputs, Staged(inputs).files)
  {
    StagedMembers(inputs);
    hide *;
    forall i | 0 <= i < |inputs| && inputs[i].ChartInput?
      ensures inputs[i].payloadPath in Staged(inputs).files
      ensures Staged(inputs).files[inputs[i].payloadPath] == inputs[i].content
    {
      ChartPath(inputs[i]);
      StagedContent(inputs, limits, i, inputs[i].payloadPath);
    }
    forall i, f | 0 <= i < |inputs| && inputs[i].ImageInput? && f in inputs[i].tree.files
      ensures var p := inputs[i].payloadPath + "/" + f;
              p in Staged(inputs).files && Staged(inputs).files[p] == inputs[i].tree.files[f]
    {
      InsideIsJoined(inputs[i].payloadPath, f);
      ImagePath(inputs[i], f);
      StagedContent(inputs, limits, i, Inside(inputs[i].payloadPath, f));
    }
    forall p | p in Staged(inputs).files
      ensures exists i :: 0 <= i < |inputs| && OfInput(inputs[i], p)
    {
      var i :| 0 <= i < |inputs| && p in FilePaths(inputs[i]);
      OwnPath(inputs[i], p);
    }
    HoldsFromParts(inputs, Staged(inputs).files);
  }

  lemma ChartPath(a: PackageInput)
    requires a.ChartInput?
    ensures FilePaths(a) == {a.payloadPath} && a.payloadPath in FilesOf(a) && FilesOf(a)[a.payloadPath] == a.content
  {
  }

  lemma ImagePath(a: PackageInput, f: string)
    requires a.ImageInput? && f in a.tree.files
    ensures Inside(a.payloadPath, f) in FilePaths(a) && Inside(a.payloadPath, f) in FilesOf(a)
    ensures FilesOf(a)[Inside(a.payloadPath, f)] == a.tree.files[f]
  {
    hide IsFileTree;
  }

  lemma HoldsFromParts(inputs: seq<PackageInput>, files: map<string, string>)
    requires forall i :: 0 <= i < |inputs| && inputs[i].ChartInput? ==>
               inputs[i].payloadPath in files && files[inputs[i].payloadPath] == inputs[i].content
    requires forall i, f :: 0 <= i < |inputs| && inputs[i].ImageInput? && f in inputs[i].tree.files ==>
               var p := inputs[i].payloadPath + "/" + f;
               p in files && files[p] == inputs[i].tree.files[f]
    requires forall p :: p in files ==> exists i :: 0 <= i < |inputs| && OfInput(inputs[i], p)
    ensures HoldsInputs(inputs, files)
  {
    hide IsFileTree;
    hide OfInput;
  }

  /** The checksum entries under an artifact's root are exactly the files it staged. */
  lemma MatchesAreOwnFiles(inputs: seq<PackageInput>, limits: Limits, checksums: Checksums, i: nat)
    requires Stageable(inputs, limits) && i < |inputs|
    requires checksums.Keys == Staged(inputs).files.Keys
    ensures Matches(inputs[i].payloadPath, checksums) == FilePaths(inputs[i])
  {
    StagedMembers(inputs);
    hide FilePaths;
    hide Staged;
    hide Under;
    assert DestinationOk(inputs[i], limits);
    StagedNames(inputs[i], limits);
    hide DestinationOk;
    hide Canonical;
    hide InPayloadLayout;
    forall p | p in Matches(inputs[i].payloadPath, checksums)
      ensures p in FilePaths(inputs[i])
    {
      var j :| 0 <= j < |inputs| && p in FilePaths(inputs[j]);
      OwnerOfFile(inputs, limits, i, j, p);
    }
  }

  lemma StripsOneSlash(p: string)
    requires p != "" && p[|p| - 1] != '/'
    ensures StripSlashes(p + "/") == p
  {
    assert (p + "/")[..|p + "/"| - 1] == p;
  }

  /** A packed member goes by its workspace path. */
  lemma PackedName(w: Workspace, p: string)
    requires Canonical(p)
    ensures Normalized(MemberAt(w, p)) == p
  {
    NoTrailingSlash(p);
    StripsOneSlash(p);
  }

  ghost predicate AllCanonical(w: Workspace) {
    forall p :: p in w.files.Keys + w.directories ==> Canonical(p)
  }

  function Paths(w: Workspace): set<string> {
    w.files.Keys + w.directories
  }

  lemma PackedAt(w: Workspace, i: nat)
    requires AllCanonical(w) && i < |Pack(w)|
    ensures |Pack(w)| == |Sorted(Paths(w))|
    ensures Sorted(Paths(w))[i] in Paths(w)
    ensures Pack(w)[i] == MemberAt(w, Sorted(Paths(w))[i])
    ensures Normalized(Pack(w)[i]) == Sorted(Paths(w))[i]
  {
    hide Canonical;
    hide Leq;
    hide MemberAt;
    hide Normalized;
    PackedName(w, Sorted(Paths(w))[i]);
  }

  /** The members of a packed workspace, by path. */
  lemma PackedMember(w: Workspace, m: Member)
    requires AllCanonical(w) && m in Pack(w)
    ensures Normalized(m) in Paths(w) && m == MemberAt(w, Normalized(m))
  {
    hide AllCanonical;
    hide MemberAt;
    hide Normalized;
    hide Sorted;
    hide Paths;
    var i :| 0 <= i < |Pack(w)| && Pack(w)[i] == m;
    hide Pack;
    PackedAt(w, i);
  }

  lemma PackedHas(w: Workspace, p: string)
    requires AllCanonical(w) && p in Paths(w)
    ensures MemberAt(w, p) in Pack(w)
  {
    hide AllCanonical;
    hide MemberAt;
    hide Normalized;
    assert p in Sorted(Paths(w));
    assert |Pack(w)| == |Sorted(Paths(w))|;
    hide Pack;
    hide Sorted;
    hide Paths;
    var i :| 0 <= i < |Sorted(Paths(w))| && Sorted(Paths(w))[i] == p;
    PackedAt(w, i);
    assert Pack(w)[i] == MemberAt(w, p);
  }

  lemma PackedDistinct(w: Workspace)
    requires AllCanonical(w)
    ensures DistinctNames(Pack(w))
  {
    hide AllCanonical;
    hide MemberAt;
    hide Normalized;
    hide Pack;
    hide Sorted;
    hide Paths;
    hide Leq;
    SortedAscends(Paths(w));
    forall i, j | 0 <= i < j < |Pack(w)|
      ensures Normalized(Pack(w)[i]) != Normalized(Pack(w)[j])
    {
      PackedAt(w, i);
      PackedAt(w, j);
    }
  }

  lemma MemberAtKind(w: Workspace, p: string)
    ensures MemberAt(w, p).kind.File? <==> p in w.files
    ensures MemberAt(w, p).kind.Directory? <==> p !in w.files
    ensures p in w.files ==> MemberAt(w, p) == Member(p, File(w.files[p]))
  {
  }

  /** Packing keeps every file and its content: the archive's file table is the workspace's. */
  lemma PackedFiles(w: Workspace)
    requires AllCanonical(w)
    ensures Files(Pack(w)) == w.files
  {
    hide AllCanonical;
    hide Pack;
    var packed := Pack(w);
    PackedDistinct(w);
    FileContents(packed);
    hide Normalized;
    hide DistinctNames;
    hide MemberAt;
    forall p | p in w.files
      ensures p in Files(packed) && Files(packed)[p] == w.files[p]
    {
      MemberAtKind(w, p);
      PackedHas(w, p);
      var i :| 0 <= i < |packed| && packed[i] == MemberAt(w, p);
      assert packed[i].kind.File?;
    }
    forall p | p in Files(packed)
      ensures p in w.files
    {
      var i :| 0 <= i < |packed| && packed[i].kind.File? && packed[i].name == p;
      FileNameIsNormalized(packed[i]);
      PackedMember(w, packed[i]);
      MemberAtKind(w, Normalized(packed[i]));
    }
  }

  /** A staged workspace with its three metadata files. */
  ghost predicate Complete(w: Workspace, staged: Workspace) {
    && w.directories == staged.directories
    && w.files.Keys == staged.files.Keys + CRITICAL_FILES
    && forall p :: p in staged.files ==> w.files[p] == staged.files[p]
  }

  lemma SafeNamesHaveNoForbiddenChar(p: string, maxPathBytes: nat)
    requires SafeName(p, maxPathBytes)
    ensures p != "" && !IsAbsolute(p) && ".." !in Parts(p)
    ensures !HasForbiddenChar(p) && !HasForbiddenChar(p + "/")
  {
  }

  lemma PackedMemberAllowed(w: Workspace, p: string, maxPathBytes: nat)
    requires Canonical(p) && SafeName(p, maxPathBytes)
    requires if p in CRITICAL_FILES then p in w.files else InPayloadLayout(p)
    ensures MemberAllowed(MemberAt(w, p))
  {
    PackedName(w, p);
    SafeNamesHaveNoForbiddenChar(p, maxPathBytes);
    MemberAtKind(w, p);
    BundleSafety.CanonicalIsOwnForm(p);
    hide SafeName;
    hide Canonical;
    hide Parts;
    hide Normalized;
    hide AsPosix;
  }

  lemma RootsAreNotCritical()
    ensures PAYLOAD_ROOTS !! CRITICAL_FILES
  {
    forall r | r in PAYLOAD_ROOTS
      ensures |r| == 6
    {
    }
    forall p | p in CRITICAL_FILES
      ensures |p| > 6
    {
    }
  }

  /** A payload name is never one of the three metadata files. */
  lemma LayoutIsNotCritical(p: string)
    requires InPayloadLayout(p)
    ensures p !in CRITICAL_FILES
  {
    CriticalNamesAreCanonical();
    RootsAreNotCritical();
    hide Canonical;
    hide Parts;
  }

  ghost predicate PackedOk(w: Workspace, staged: Workspace, limits: Limits) {
    && Complete(w, staged) && AllCanonical(w) && NamesSafe(w, limits)
    && forall p :: p in Paths(staged) ==> InPayloadLayout(p)
  }

  lemma EveryPackedMemberAllowed(w: Workspace, staged: Workspace, limits: Limits)
    requires PackedOk(w, staged, limits)
    ensures forall i :: 0 <= i < |Pack(w)| ==> MemberAllowed(Pack(w)[i])
    ensures NamesWithinLimit(Pack(w), limits)
  {
    hide MemberAllowed;
    hide SafeName;
    hide Pack;
    hide Canonical;
    hide InPayloadLayout;
    hide MemberAt;
    hide Normalized;
    forall i | 0 <= i < |Pack(w)|
      ensures MemberAllowed(Pack(w)[i])
      ensures SafeName(Normalized(Pack(w)[i]), limits.maxPathBytes)
    {
      var m := Pack(w)[i];
      PackedMember(w, m);
      PackedMemberAllowed(w, Normalized(m), limits.maxPathBytes);
    }
  }

  lemma PackedByName(w: Workspace, p: string)
    requires AllCanonical(w) && p in Paths(w)
    ensures MemberAt(w, p) in Pack(w) && Normalized(MemberAt(w, p)) == p
    ensures IsPayloadFile(MemberAt(w, p)) <==> p in w.files && p !in CRITICAL_FILES
    ensures IsPayloadDirectory(MemberAt(w, p)) <==> p !in w.files && p !in CRITICAL_FILES
  {
    hide Pack;
    hide Canonical;
    PackedHas(w, p);
    PackedName(w, p);
  }

  lemma PackedNameSets(w: Workspace)
    requires AllCanonical(w)
    ensures Names(Pack(w)) == Paths(w)
    ensures PayloadFiles(Pack(w)) == w.files.Keys - CRITICAL_FILES
    ensures PayloadDirectories(Pack(w)) == w.directories - w.files.Keys - CRITICAL_FILES
  {
    hide AllCanonical;
    hide Pack;
    hide MemberAt;
    hide Normalized;
    hide IsPayloadFile;
    hide IsPayloadDirectory;
    forall p | p in Paths(w)
      ensures p in Names(Pack(w))
      ensures p in PayloadFiles(Pack(w)) <== p in w.files && p !in CRITICAL_FILES
      ensures p in PayloadDirectories(Pack(w)) <== p !in w.files && p !in CRITICAL_FILES
    {
      PackedByName(w, p);
      assert MemberAt(w, p) in Pack(w);
    }
    forall m | m in Pack(w)
      ensures Normalized(m) in Paths(w)
      ensures IsPayloadFile(m) <==> Normalized(m) in w.files && Normalized(m) !in CRITICAL_FILES
      ensures IsPayloadDirectory(m) <==> Normalized(m) !in w.files && Normalized(m) !in CRITICAL_FILES
    {
      PackedMember(w, m);
      PackedByName(w, Normalized(m));
    }
  }

  lemma CompleteNames(w: Workspace, staged: Workspace, limits: Limits)
    requires PackedOk(w, staged, limits)
    ensures w.files.Keys - CRITICAL_FILES == staged.files.Keys
    ensures w.directories - w.files.Keys - CRITICAL_FILES == staged.directories - staged.files.Keys
    ensures CRITICAL_FILES <= Paths(w)
  {
    forall p | p in Paths(staged)
      ensures p !in CRITICAL_FILES
    {
      LayoutIsNotCritical(p);
    }
    hide InPayloadLayout;
    hide NamesSafe;
    hide AllCanonical;
    assert w.files.Keys == staged.files.Keys + CRITICAL_FILES;
  }

  ghost predicate NoEmptyDirectory(staged: Workspace) {
    forall d :: d in staged.directories - staged.files.Keys ==> HasFileInside(staged.files.Keys, d)
  }

  /** A packed workspace passes the member checks exactly when no staged directory is empty. */
  lemma PackedMembersAllowed(w: Workspace, staged: Workspace, limits: Limits)
    requires PackedOk(w, staged, limits)
    ensures MembersAllowed(Pack(w)) <==> NoEmptyDirectory(staged)
  {
    assert AllCanonical(w) by {
      hide AllCanonical;
      hide NamesSafe;
      hide InPayloadLayout;
    }
    hide *;
    EveryPackedMemberAllowed(w, staged, limits);
    PackedDistinct(w);
    PackedNameSets(w);
    CompleteNames(w, staged, limits);
    AllowedByNames(Pack(w), staged);
  }

  lemma AllowedByNames(members: seq<Member>, staged: Workspace)
    requires forall i :: 0 <= i < |members| ==> MemberAllowed(members[i])
    requires DistinctNames(members) && CRITICAL_FILES <= Names(members)
    requires PayloadFiles(members) == staged.files.Keys
    requires PayloadDirectories(members) == staged.directories - staged.files.Keys
    ensures MembersAllowed(members) <==> NoEmptyDirectory(staged)
  {
    hide MemberAllowed;
    hide DistinctNames;
    hide Names;
    hide PayloadFiles;
    hide PayloadDirectories;
    hide HasFileInside;
  }

  /** Every directory of a snapshot has a file somewhere below it. */
  predicate CleanTree(t: Tree) {
    forall d :: d in t.directories ==> exists f :: f in t.files && d + "/" <= f
  }

  predicate CleanInputs(inputs: seq<PackageInput>) {
    forall i :: 0 <= i < |inputs| && inputs[i].ImageInput? ==> CleanTree(inputs[i].tree)
  }

  lemma OwnDirectoryIsUsed(a: PackageInput, d: string)
    requires d in DirectoriesOf(a) && FilePaths(a) != {}
    requires a.ImageInput? ==> CleanTree(a.tree)
    ensures HasFileInside(FilePaths(a), d)
  {
    hide IsFileTree;
    var root := a.payloadPath;
    if d in Ancestors(root) {
      var i :| 0 <= i < |root| && root[i] == '/' && root[..i] == d;
      assert d + "/" == root[..i + 1];
      var p :| p in FilePaths(a);
      assert root <= p;
      assert d + "/" == p[..i + 1];
    } else if d == root {
      var p :| p in FilePaths(a);
      assert d + "/" <= p;
    } else {
      var r :| r in a.tree.directories && d == Inside(root, r);
      var f :| f in a.tree.files && r + "/" <= f;
      assert Inside(root, f) in FilePaths(a);
      assert Inside(root, f)[..|d| + 1] == d + "/";
    }
  }

  lemma UsedDirectoryIsClean(a: PackageInput, r: string)
    requires a.ImageInput? && r in a.tree.directories
    requires HasFileInside(FilePaths(a), Inside(a.payloadPath, r))
    ensures exists f :: f in a.tree.files && r + "/" <= f
  {
    hide IsFileTree;
    var root := a.payloadPath;
    var p :| p in FilePaths(a) && Inside(root, r) + "/" <= p;
    var f :| f in a.tree.files && p == Inside(root, f);
    assert p[|root| + 1..] == f;
    assert (Inside(root, r) + "/")[|root| + 1..] == r + "/";
    assert p[|root| + 1..][..|r| + 1] == r + "/";
  }

  lemma OwnDirectoryIsNoFile(a: PackageInput, r: string)
    requires a.ImageInput? && r in a.tree.directories
    ensures Inside(a.payloadPath, r) in DirectoriesOf(a) && Under(a.payloadPath, Inside(a.payloadPath, r))
    ensures Inside(a.payloadPath, r) !in FilePaths(a)
  {
    FileTreeFacts(a.tree);
    hide IsFileTree;
    hide Canonical;
    forall f | f in a.tree.files
      ensures Inside(a.payloadPath, f) != Inside(a.payloadPath, r)
    {
      if Inside(a.payloadPath, f) == Inside(a.payloadPath, r) {
        SameInside(a.payloadPath, f, r);
      }
    }
  }

  /** A tree's directory is never another artifact's file, nor one of its own. */
  lemma TreeDirectoryIsNoFile(inputs: seq<PackageInput>, limits: Limits, i: nat, r: string)
    requires Stageable(inputs, limits) && i < |inputs| && inputs[i].ImageInput? && r in inputs[i].tree.directories
    ensures Inside(inputs[i].payloadPath, r) !in Staged(inputs).files
    ensures Inside(inputs[i].payloadPath, r) in Staged(inputs).directories
  {
    hide *;
    var d := Inside(inputs[i].payloadPath, r);
    StagedMembers(inputs);
    OwnDirectoryIsNoFile(inputs[i], r);
    if d in Staged(inputs).files {
      var j :| 0 <= j < |inputs| && d in FilePaths(inputs[j]);
      OwnerOfFile(inputs, limits, i, j, d);
    }
  }

  lemma SameInside(root: string, a: string, b: string)
    requires Inside(root, a) == Inside(root, b)
    ensures a == b
  {
    assert Inside(root, a)[|root| + 1..] == a;
    assert Inside(root, b)[|root| + 1..] == b;
  }

  /** The staged workspace has no empty directory exactly when no snapshot had one. */
  lemma EmptyDirectoriesComeFromTrees(inputs: seq<PackageInput>, limits: Limits)
    requires Stageable(inputs, limits) && Checksummable(inputs, limits)
    ensures CleanInputs(inputs) <==> NoEmptyDirectory(Staged(inputs))
  {
    if CleanInputs(inputs) {
      CleanTreesFillDirectories(inputs, limits);
    }
    if NoEmptyDirectory(Staged(inputs)) {
      hide NoEmptyDirectory;
      hide Stageable;
      hide Staged;
      hide CleanTree;
      forall i | 0 <= i < |inputs| && inputs[i].ImageInput?
        ensures CleanTree(inputs[i].tree)
      {
        UsedTreesAreClean(inputs, limits, i);
      }
    }
  }

  lemma CleanTreesFillDirectories(inputs: seq<PackageInput>, limits: Limits)
    requires Checksummable(inputs, limits) && CleanInputs(inputs)
    ensures NoEmptyDirectory(Staged(inputs))
  {
    StagedMembers(inputs);
    hide Staged;
    hide FilePaths;
    hide DirectoriesOf;
    hide CleanTree;
    hide Inside;
    hide SafeName;
    hide IsFileTree;
    var staged := Staged(inputs);
    forall d | d in staged.directories
      ensures HasFileInside(staged.files.Keys, d)
    {
      var i :| 0 <= i < |inputs| && d in DirectoriesOf(inputs[i]);
      OwnDirectoryIsUsed(inputs[i], d);
      var p :| p in FilePaths(inputs[i]) && d + "/" <= p;
      assert p in staged.files.Keys;
    }
  }

  lemma UsedTreesAreClean(inputs: seq<PackageInput>, limits: Limits, i: nat)
    requires Stageable(inputs, limits) && i < |inputs| && inputs[i].ImageInput?
    requires NoEmptyDirectory(Staged(inputs))
    ensures CleanTree(inputs[i].tree)
  {
    StagedMembers(inputs);
    hide Staged;
    hide Stageable;
    hide FilePaths;
    hide DirectoriesOf;
    hide IsFileTree;
    var root := inputs[i].payloadPath;
    forall r | r in inputs[i].tree.directories
      ensures exists f :: f in inputs[i].tree.files && r + "/" <= f
    {
      TreeDirectoryIsNoFile(inputs, limits, i, r);
      var d := Inside(root, r);
      assert HasFileInside(Staged(inputs).files.Keys, d);
      var p :| p in Staged(inputs).files.Keys && d + "/" <= p;
      var j :| 0 <= j < |inputs| && p in FilePaths(inputs[j]);
      assert root + "/" <= d;
      assert root + "/" <= p;
      OwnerOfFile(inputs, limits, i, j, p);
      assert HasFileInside(FilePaths(inputs[i]), d);
      UsedDirectoryIsClean(inputs[i], r);
    }
  }

  /** Everything build_bundle has established when it turns to its own verifier. */
  ghost predicate Prepared(
    c: Codec, s: Signing, limits: Limits, inputs: seq<PackageInput>, m: Manifest, w: Workspace)
  {
    var staged := Staged(inputs);
    var checksums := Digests(c.sha256, staged.files);
    && inputs != [] && Stageable(inputs, limits) && Checksummable(inputs, limits)
    && |m.artifacts| == |inputs|
    && (forall i :: 0 <= i < |inputs| ==> DescribesInput(c.sha256, inputs[i], m.artifacts[i], checksums, staged.files))
    && ManifestValid(m) && SignsFor(s, c, m)
    && w == WithMetadata(staged, s.encode(m), s.sign(s.encode(m)), checksums)
    && NamesSafe(w, limits)
  }

  /** The configured limits, measured on the packed archive. */
  predicate WithinLimits(w: Workspace, size: nat, limits: Limits) {
    && 0 < size <= limits.maxArchiveBytes
    && |Pack(w)| <= limits.maxMembers
    && ExtractedBytes(Pack(w)) <= limits.maxExtractedBytes
    && RatioAllowed(Pack(w), size, limits)
    && MetadataSmall(w.files, limits)
  }

  /** The same limits on the workspace itself, by what its files weigh. */
  predicate Fits(w: Workspace, size: nat, limits: Limits) {
    var files := w.files;
    && 0 < size <= limits.maxArchiveBytes
    && |files.Keys + w.directories| <= limits.maxMembers
    && Weight(files.Keys, files) <= limits.maxExtractedBytes
    && Weight(files.Keys, files) as real <= limits.maxCompressionRatio * size as real
    && "manifest.json" in files && |files["manifest.json"]| <= limits.maxMetadataBytes
    && "manifest.sig" in files && |files["manifest.sig"]| <= limits.maxMetadataBytes
    && "checksums.sha256" in files && |files["checksums.sha256"]| <= limits.maxMetadataBytes
  }

  lemma PackedMeasures(w: Workspace)
    requires AllCanonical(w)
    ensures |Pack(w)| == |w.files.Keys + w.directories|
    ensures ExtractedBytes(Pack(w)) == Weight(w.files.Keys, w.files)
  {
    hide AllCanonical;
    hide MemberAt;
    assert |Pack(w)| == |Sorted(w.files.Keys + w.directories)|;
    hide *;
    PackedDistinct(w);
    PackedFiles(w);
    BundleSafety.ExtractedIsWeight(Pack(w));
  }

  lemma RatioIff(members: seq<Member>, size: nat, limits: Limits)
    requires size > 0
    ensures RatioAllowed(members, size, limits) <==>
            ExtractedBytes(members) as real <= limits.maxCompressionRatio * size as real
  {
    hide ExtractedBytes;
    BundleSafety.RatioMeans(ExtractedBytes(members), size, limits.maxCompressionRatio);
  }

  lemma MetadataIff(files: map<string, string>, limits: Limits)
    requires "manifest.json" in files && "manifest.sig" in files && "checksums.sha256" in files
    ensures MetadataSmall(files, limits) <==>
            && |files["manifest.json"]| <= limits.maxMetadataBytes && |files["manifest.sig"]| <= limits.maxMetadataBytes
            && |files["checksums.sha256"]| <= limits.maxMetadataBytes
  {
    BundleSafety.ContentIs(files, "manifest.json");
    BundleSafety.ContentIs(files, "manifest.sig");
    BundleSafety.ContentIs(files, "checksums.sha256");
    hide Content;
  }

  /** Fits with the measures taken as numbers. */
  lemma FitsByNumbers(w: Workspace, size: nat, limits: Limits, weight: nat, count: nat, small: bool, thin: bool)
    requires "manifest.json" in w.files && "manifest.sig" in w.files && "checksums.sha256" in w.files
    requires weight == Weight(w.files.Keys, w.files) && count == |w.files.Keys + w.directories|
    requires small <==>
             && |w.files["manifest.json"]| <= limits.maxMetadataBytes
             && |w.files["manifest.sig"]| <= limits.maxMetadataBytes
             && |w.files["checksums.sha256"]| <= limits.maxMetadataBytes
    requires size > 0 ==> (thin <==> weight as real <= limits.maxCompressionRatio * size as real)
    ensures Fits(w, size, limits) <==>
            && 0 < size <= limits.maxArchiveBytes && count <= limits.maxMembers
            && weight <= limits.maxExtractedBytes && thin && small
  {
    hide Weight;
  }

  lemma WithinByNumbers(w: Workspace, size: nat, limits: Limits)
    ensures WithinLimits(w, size, limits) <==>
            && 0 < size <= limits.maxArchiveBytes && |Pack(w)| <= limits.maxMembers
            && ExtractedBytes(Pack(w)) <= limits.maxExtractedBytes && RatioAllowed(Pack(w), size, limits)
            && MetadataSmall(w.files, limits)
  {
    hide Pack;
    hide ExtractedBytes;
    hide RatioAllowed;
    hide MetadataSmall;
  }

  lemma FitsIff(w: Workspace, size: nat, limits: Limits)
    requires AllCanonical(w)
    requires "manifest.json" in w.files && "manifest.sig" in w.files && "checksums.sha256" in w.files
    ensures WithinLimits(w, size, limits) <==> Fits(w, size, limits)
  {
    hide *;
    PackedMeasures(w);
    MetadataIff(w.files, limits);
    if size > 0 {
      RatioIff(Pack(w), size, limits);
    }
    WithinByNumbers(w, size, limits);
    FitsByNumbers(w, size, limits, ExtractedBytes(Pack(w)), |Pack(w)|, MetadataSmall(w.files, limits),
                  RatioAllowed(Pack(w), size, limits));
  }

  /** No staged file name holds a line boundary. */
  predicate NamesOnOneLine(inputs: seq<PackageInput>) {
    forall p :: p in Staged(inputs).files ==> ChecksumFile.BoundaryFree(p)
  }

  lemma PreparedIsPacked(
    c: Codec, s: Signing, limits: Limits, inputs: seq<PackageInput>, m: Manifest, w: Workspace)
    requires Prepared(c, s, limits, inputs, m, w)
    ensures PackedOk(w, Staged(inputs), limits)
    ensures Files(Pack(w)) == w.files
    ensures w.files["manifest.json"] == s.encode(m)
    ensures w.files["manifest.sig"] == s.sign(s.encode(m))
    ensures w.files["checksums.sha256"] == ChecksumText(Digests(c.sha256, Staged(inputs).files))
  {
    hide Stageable;
    hide Checksummable;
    hide NamesSafe;
    hide Staged;
    hide WithMetadata;
    hide ChecksumText;
    hide Pack;
    var staged := Staged(inputs);
    StagedIsPayload(inputs, limits);
    MetadataFiles(staged, s.encode(m), s.sign(s.encode(m)), Digests(c.sha256, staged.files));
    CompleteIsCanonical(w, staged);
    PackedFiles(w);
  }

  lemma StagedIsPayload(inputs: seq<PackageInput>, limits: Limits)
    requires Stageable(inputs, limits)
    ensures forall p :: p in Paths(Staged(inputs)) ==> Canonical(p) && InPayloadLayout(p) && p !in CRITICAL_FILES
  {
    AllStagedNames(inputs, limits);
    hide Stageable;
    hide Staged;
    hide Canonical;
    hide InPayloadLayout;
    forall p | p in Paths(Staged(inputs))
      ensures p !in CRITICAL_FILES
    {
      LayoutIsNotCritical(p);
    }
  }

  lemma MetadataFiles(staged: Workspace, text: string, signature: string, checksums: Checksums)
    requires forall p :: p in staged.files ==> p !in CRITICAL_FILES
    ensures var w := WithMetadata(staged, text, signature, checksums);
            && Complete(w, staged)
            && w.files["manifest.json"] == text && w.files["manifest.sig"] == signature
            && w.files["checksums.sha256"] == ChecksumText(checksums)
  {
    hide ChecksumText;
    assert "manifest.json" != "manifest.sig";
    assert |"manifest.json"| != |"checksums.sha256"| && |"manifest.sig"| != |"checksums.sha256"|;
  }

  lemma CompleteIsCanonical(w: Workspace, staged: Workspace)
    requires Complete(w, staged)
    requires forall p :: p in Paths(staged) ==> Canonical(p)
    ensures AllCanonical(w)
  {
    CriticalNamesAreCanonical();
    hide Canonical;
    hide Parts;
  }

  /** The checksum file a build writes reads back exactly when every name fits on one line. */
  lemma WrittenChecksumsReadBack(checksums: Checksums, limits: Limits)
    requires checksums != map[]
    requires forall p :: p in checksums ==> SafeName(p, limits.maxPathBytes) && p !in CRITICAL_FILES
    ensures ChecksumFile.Read(ChecksumText(checksums), limits.maxPathBytes) == ChecksumFile.Entries(checksums) <==>
            forall p :: p in checksums ==> ChecksumFile.BoundaryFree(p)
  {
    hide SafeName;
    hide ChecksumFile.BoundaryFree;
    hide ChecksumFile.Read;
    hide ChecksumFile.SortedEntries;
    var entries := ChecksumFile.SortedEntries(checksums);
    ChecksumFile.SortedEntriesDistinct(checksums);
    ChecksumFile.SortedEntriesRepresent(checksums);
    assert |entries| == |checksums| > 0;
    ChecksumFile.RoundTrip(entries, limits.maxPathBytes);
    hide ChecksumFile.OneLine;
    forall i | 0 <= i < |entries| {
      ChecksumFile.OneLineIff(entries[i].path);
    }
  }

  lemma StatsAgree(
    sha256: string -> Digest, root: string, checksums: Checksums, f1: map<string, string>, f2: map<string, string>)
    requires checksums.Keys <= f1.Keys && checksums.Keys <= f2.Keys
    requires forall p :: p in checksums ==> f1[p] == f2[p]
    ensures PayloadStats(sha256, root, checksums, f1) == PayloadStats(sha256, root, checksums, f2)
  {
    hide TreeText;
    hide Weight;
    BundleSafety.WeightAgrees(Matches(root, checksums), f1, f2);
  }

  lemma DescriptorSurvives(
    sha256: string -> Digest, a: PackageInput, d: Artifact, checksums: Checksums,
    staged: map<string, string>, packed: map<string, string>)
    requires checksums.Keys == staged.Keys && SameContents(staged, packed)
    requires DescribesInput(sha256, a, d, checksums, staged)
    ensures checksums.Keys <= packed.Keys && DescriptorOk(sha256, d, checksums, packed)
  {
    StatsAgree(sha256, d.payloadPath, checksums, staged, packed);
    hide PayloadStats;
  }

  /** The checksum table covers the packed payload files, whose contents are the staged ones. */
  ghost predicate TablesAgree(checksums: Checksums, staged: map<string, string>, files: map<string, string>) {
    && checksums.Keys == staged.Keys
    && staged.Keys == files.Keys - CRITICAL_FILES
    && SameContents(staged, files)
  }

  ghost predicate SameContents(staged: map<string, string>, files: map<string, string>) {
    forall p :: p in staged ==> p in files && staged[p] == files[p]
  }

  lemma DigestsCover(sha256: string -> Digest, files: map<string, string>)
    ensures Digests(sha256, files).Keys == files.Keys
  {
  }

  lemma CompleteKeepsContents(w: Workspace, staged: Workspace)
    requires Complete(w, staged)
    ensures SameContents(staged.files, w.files)
  {
  }

  lemma PackedTables(sha256: string -> Digest, w: Workspace, staged: Workspace, limits: Limits)
    requires PackedOk(w, staged, limits)
    ensures TablesAgree(Digests(sha256, staged.files), staged.files, w.files)
  {
    CompleteNames(w, staged, limits);
    DigestsCover(sha256, staged.files);
    CompleteKeepsContents(w, staged);
    hide PackedOk;
    hide Digests;
    hide SameContents;
  }

  lemma PreparedTables(
    c: Codec, s: Signing, limits: Limits, inputs: seq<PackageInput>, m: Manifest, w: Workspace)
    requires Prepared(c, s, limits, inputs, m, w)
    ensures TablesAgree(Digests(c.sha256, Staged(inputs).files), Staged(inputs).files, w.files)
  {
    hide TablesAgree;
    PreparedIsPacked(c, s, limits, inputs, m, w);
    hide PackedOk;
    hide Prepared;
    hide Staged;
    PackedTables(c.sha256, w, Staged(inputs), limits);
  }

  lemma PreparedDescriptor(
    c: Codec, s: Signing, limits: Limits, inputs: seq<PackageInput>, m: Manifest, w: Workspace, i: nat)
    requires Prepared(c, s, limits, inputs, m, w) && i < |inputs|
    ensures |m.artifacts| == |inputs| && DestinationOk(inputs[i], limits)
    ensures DescribesInput(
              c.sha256, inputs[i], m.artifacts[i], Digests(c.sha256, Staged(inputs).files), Staged(inputs).files)
  {
    hide Checksummable;
    hide NamesSafe;
    hide Staged;
    hide WithMetadata;
    hide ManifestValid;
    hide SchemaOk;
    hide DestinationOk;
    hide DescribesInput;
    hide PathsOverlap;
    hide IsDigest;
  }

  lemma PackedDescriptor(
    c: Codec, s: Signing, limits: Limits, inputs: seq<PackageInput>, m: Manifest, w: Workspace, i: nat)
    requires Prepared(c, s, limits, inputs, m, w) && i < |inputs|
    ensures |m.artifacts| == |inputs| && Digests(c.sha256, Staged(inputs).files).Keys <= w.files.Keys
    ensures DescriptorOk(c.sha256, m.artifacts[i], Digests(c.sha256, Staged(inputs).files), w.files)
  {
    PreparedTables(c, s, limits, inputs, m, w);
    PreparedDescriptor(c, s, limits, inputs, m, w, i);
    hide Prepared;
    hide Staged;
    hide DestinationOk;
    hide DescribesInput;
    hide DescriptorOk;
    hide Digests;
    hide SameContents;
    DescriptorSurvives(c.sha256, inputs[i], m.artifacts[i], Digests(c.sha256, Staged(inputs).files),
                       Staged(inputs).files, w.files);
  }

  /** Descriptors measured on the staged files measure the same on the packed archive. */
  lemma DescriptorsSurvivePacking(
    c: Codec, s: Signing, limits: Limits, inputs: seq<PackageInput>, m: Manifest, w: Workspace)
    requires Prepared(c, s, limits, inputs, m, w)
    ensures DescriptorsOk(c.sha256, m.artifacts, Digests(c.sha256, Staged(inputs).files), w.files)
  {
    PreparedInputs(c, s, limits, inputs, m, w);
    PackedDescriptor(c, s, limits, inputs, m, w, 0);
    hide Prepared;
    hide Staged;
    hide DescriptorOk;
    hide Digests;
    forall i | 0 <= i < |m.artifacts|
      ensures DescriptorOk(c.sha256, m.artifacts[i], Digests(c.sha256, Staged(inputs).files), w.files)
    {
      PackedDescriptor(c, s, limits, inputs, m, w, i);
    }
  }

  lemma PathEndsWithLast(path: string)
    requires Canonical(path) && |Parts(path)| >= 2
    ensures var last := Parts(path)[|Parts(path)| - 1]; |last| <= |path| && path[|path| - |last|..] == last
  {
    CanonicalComponents(path);
    JoinSplit(path);
    var parts := Split(path);
    var n := |parts| - 1;
    hide Canonical;
    hide Split;
    hide Parts;
    assert parts == parts[..n] + [parts[n]];
    JoinAppend(parts[..n], [parts[n]]);
    assert Join([parts[n]]) == parts[n];
    hide Join;
    assert path == (Join(parts[..n]) + "/") + parts[n];
  }

  lemma TgzNameEndsPath(path: string)
    requires Canonical(path) && |Parts(path)| >= 2 && EndsWithTgz(Parts(path)[|Parts(path)| - 1])
    ensures EndsWithTgz(path)
  {
    PathEndsWithLast(path);
    hide Canonical;
    hide Parts;
    var last := Parts(path)[|Parts(path)| - 1];
    assert path[|path| - 4..] == path[|path| - |last|..][|last| - 4..];
  }

  lemma ShapeFromDestination(a: PackageInput, d: Artifact, files: map<string, string>, limits: Limits)
    requires DestinationOk(a, limits) && d == Describe(a, Stats(d.payloadSha256, d.payloadSize))
    requires a.payloadPath in files <==> a.ChartInput?
    ensures ShapeOk(d, files) && RootName(d) == a.payloadPath
  {
    if a.ChartInput? {
      TgzNameEndsPath(a.payloadPath);
    }
    hide Parts;
    hide SafeName;
  }

  /** An image root is a directory of the archive, a chart root is one of its files. */
  lemma RootFileness(inputs: seq<PackageInput>, limits: Limits, i: nat)
    requires Stageable(inputs, limits) && i < |inputs|
    ensures inputs[i].payloadPath in Staged(inputs).files <==> inputs[i].ChartInput?
    ensures inputs[i].payloadPath !in CRITICAL_FILES
  {
    StagedMembers(inputs);
    DestinationIsCanonical(inputs[i], limits);
    LayoutIsNotCritical(inputs[i].payloadPath);
    hide Stageable;
    hide Staged;
    hide Canonical;
    hide Parts;
    hide IsFileTree;
    var root := inputs[i].payloadPath;
    if root in Staged(inputs).files {
      var j :| 0 <= j < |inputs| && root in FilePaths(inputs[j]);
      OwnerOfFile(inputs, limits, i, j, root);
    }
    if inputs[i].ChartInput? {
      assert root in FilePaths(inputs[i]);
    }
  }

  /** One artifact of a prepared build: its root matches its own files and has the declared shape. */
  lemma BuiltRoot(
    c: Codec, s: Signing, limits: Limits, inputs: seq<PackageInput>, m: Manifest, w: Workspace, i: nat)
    requires Prepared(c, s, limits, inputs, m, w) && i < |inputs|
    ensures |m.artifacts| == |inputs|
    ensures m.artifacts[i].payloadPath == inputs[i].payloadPath == RootName(m.artifacts[i])
    ensures RootOk(m.artifacts[i], w.files, Digests(c.sha256, Staged(inputs).files))
    ensures Matches(inputs[i].payloadPath, Digests(c.sha256, Staged(inputs).files)) == FilePaths(inputs[i])
  {
    var checksums := Digests(c.sha256, Staged(inputs).files);
    PreparedTables(c, s, limits, inputs, m, w);
    PreparedDescriptor(c, s, limits, inputs, m, w, i);
    PreparedInputs(c, s, limits, inputs, m, w);
    hide Prepared;
    RootFileness(inputs, limits, i);
    MatchesAreOwnFiles(inputs, limits, checksums, i);
    hide Stageable;
    hide DestinationOk;
    hide Staged;
    hide FilePaths;
    hide DescriptorOk;
    assert inputs[i].payloadPath in w.files <==> inputs[i].ChartInput?;
    hide Digests;
    ShapeFromDestination(inputs[i], m.artifacts[i], w.files, limits);
    hide ShapeOk;
    hide RootName;
    hide Matches;
    hide Describe;
  }

  lemma PreparedInputs(
    c: Codec, s: Signing, limits: Limits, inputs: seq<PackageInput>, m: Manifest, w: Workspace)
    requires Prepared(c, s, limits, inputs, m, w)
    ensures inputs != [] && Stageable(inputs, limits) && Checksummable(inputs, limits)
    ensures forall i :: 0 <= i < |inputs| ==> FilePaths(inputs[i]) != {}
  {
    hide Stageable;
    hide NamesSafe;
    hide Staged;
    hide WithMetadata;
    hide ManifestValid;
    hide SchemaOk;
    hide FilePaths;
    hide SafeName;
    hide DescribesInput;
    hide IsDigest;
  }

  lemma BuiltRootsDisjoint(inputs: seq<PackageInput>, limits: Limits, artifacts: seq<Artifact>)
    requires Stageable(inputs, limits) && |artifacts| == |inputs|
    requires forall i :: 0 <= i < |inputs| ==> artifacts[i].payloadPath == inputs[i].payloadPath
    ensures NoOverlap(artifacts)
  {
    hide DestinationOk;
    hide SourceOk;
    hide PathsOverlap;
  }

  lemma EveryPathCovered(
    c: Codec, s: Signing, limits: Limits, inputs: seq<PackageInput>, m: Manifest, w: Workspace, p: string)
    requires Prepared(c, s, limits, inputs, m, w) && p in Staged(inputs).files
    ensures Covered(m.artifacts, p)
  {
    StagedMembers(inputs);
    hide Staged;
    hide FilePaths;
    var i :| 0 <= i < |inputs| && p in FilePaths(inputs[i]);
    BuiltRoot(c, s, limits, inputs, m, w, i);
    hide Prepared;
    hide RootOk;
    hide RootName;
    hide Digests;
    assert p in Matches(inputs[i].payloadPath, Digests(c.sha256, Staged(inputs).files));
  }

  lemma EveryRootBuilt(
    c: Codec, s: Signing, limits: Limits, inputs: seq<PackageInput>, m: Manifest, w: Workspace)
    requires Prepared(c, s, limits, inputs, m, w)
    ensures |m.artifacts| == |inputs| && NoOverlap(m.artifacts)
    ensures forall i :: 0 <= i < |m.artifacts| ==>
              RootOk(m.artifacts[i], w.files, Digests(c.sha256, Staged(inputs).files))
  {
    PreparedInputs(c, s, limits, inputs, m, w);
    PreparedDescriptor(c, s, limits, inputs, m, w, 0);
    hide *;
    forall i | 0 <= i < |m.artifacts|
      ensures m.artifacts[i].payloadPath == inputs[i].payloadPath
      ensures RootOk(m.artifacts[i], w.files, Digests(c.sha256, Staged(inputs).files))
    {
      BuiltRoot(c, s, limits, inputs, m, w, i);
    }
    BuiltRootsDisjoint(inputs, limits, m.artifacts);
  }

  lemma EveryPathBuilt(
    c: Codec, s: Signing, limits: Limits, inputs: seq<PackageInput>, m: Manifest, w: Workspace)
    requires Prepared(c, s, limits, inputs, m, w)
    ensures forall p :: p in Staged(inputs).files.Keys ==> Covered(m.artifacts, p)
  {
    hide *;
    forall p | p in Staged(inputs).files.Keys
      ensures Covered(m.artifacts, p)
    {
      EveryPathCovered(c, s, limits, inputs, m, w, p);
    }
  }

  lemma LayoutFromParts(
    artifacts: seq<Artifact>, files: map<string, string>, checksums: Checksums, staged: map<string, string>)
    requires TablesAgree(checksums, staged, files) && NoOverlap(artifacts)
    requires forall i :: 0 <= i < |artifacts| ==> RootOk(artifacts[i], files, checksums)
    requires forall p :: p in staged.Keys ==> Covered(artifacts, p)
    ensures LayoutOk(artifacts, files, checksums)
  {
    hide NoOverlap;
    hide RootOk;
    hide Covered;
    hide SameContents;
    hide IsDigest;
  }

  /** The built archive has the layout its own manifest declares. */
  lemma BuiltLayout(
    c: Codec, s: Signing, limits: Limits, inputs: seq<PackageInput>, m: Manifest, w: Workspace)
    requires Prepared(c, s, limits, inputs, m, w)
    ensures LayoutOk(m.artifacts, w.files, Digests(c.sha256, Staged(inputs).files))
  {
    hide *;
    PreparedTables(c, s, limits, inputs, m, w);
    EveryRootBuilt(c, s, limits, inputs, m, w);
    EveryPathBuilt(c, s, limits, inputs, m, w);
    LayoutFromParts(m.artifacts, w.files, Digests(c.sha256, Staged(inputs).files), Staged(inputs).files);
  }

  /** The parts of acceptance a build settles on its own. */
  lemma PreparedReads(
    c: Codec, s: Signing, limits: Limits, inputs: seq<PackageInput>, m: Manifest, w: Workspace, size: nat)
    requires Prepared(c, s, limits, inputs, m, w)
    ensures var archive := Archive(Pack(w), size);
            && Files(archive.members) == w.files
            && c.parse(ManifestText(archive)) == Some(m) && ManifestValid(m)
            && |SignatureText(archive)| == 64 && c.signer(ManifestText(archive), SignatureText(archive)).Some?
            && ChecksumsOf(archive, limits) ==
               ChecksumFile.Read(ChecksumText(Digests(c.sha256, Staged(inputs).files)), limits.maxPathBytes)
  {
    PreparedIsPacked(c, s, limits, inputs, m, w);
    hide Stageable;
    hide Checksummable;
    hide NamesSafe;
    hide Staged;
    hide WithMetadata;
    hide ChecksumText;
    hide Pack;
    hide Files;
    hide PackedOk;
    hide DescribesInput;
    hide ManifestValid;
    hide SchemaOk;
    hide ChecksumFile.Read;
    PackedHasMetadata(w, Staged(inputs), limits);
  }

  lemma PackedHasMetadata(w: Workspace, staged: Workspace, limits: Limits)
    requires PackedOk(w, staged, limits)
    ensures "manifest.json" in w.files && "manifest.sig" in w.files && "checksums.sha256" in w.files
  {
    hide AllCanonical;
    hide NamesSafe;
    hide InPayloadLayout;
  }

  /** Reading the built archive's checksum file gives the digests of the staged files, or layout fails. */
  lemma OnlyOwnChecksums(
    c: Codec, s: Signing, limits: Limits, inputs: seq<PackageInput>, m: Manifest, w: Workspace, read: Checksums)
    requires Prepared(c, s, limits, inputs, m, w)
    requires LayoutOk(m.artifacts, w.files, read)
    requires forall p :: p in read ==> ChecksumFile.BoundaryFree(p)
    ensures NamesOnOneLine(inputs)
  {
    PreparedTables(c, s, limits, inputs, m, w);
    hide Prepared;
    hide Staged;
    hide Digests;
    hide SameContents;
    hide NoOverlap;
    hide RootOk;
    hide Covered;
    hide ChecksumFile.BoundaryFree;
  }

  /** What a build writes into its checksum file: at least one entry, every name writable. */
  ghost predicate AllWritable(checksums: Checksums, limits: Limits) {
    checksums != map[] && forall p :: p in checksums ==> SafeName(p, limits.maxPathBytes) && p !in CRITICAL_FILES
  }

  lemma InputNamesAreSafe(inputs: seq<PackageInput>, limits: Limits, i: nat, p: string)
    requires Checksummable(inputs, limits) && i < |inputs| && p in FilePaths(inputs[i])
    ensures SafeName(p, limits.maxPathBytes)
  {
    hide SafeName;
    hide FilePaths;
  }

  lemma StagedAreSafe(inputs: seq<PackageInput>, limits: Limits, p: string)
    requires Stageable(inputs, limits) && Checksummable(inputs, limits)
    requires p in Staged(inputs).files
    ensures SafeName(p, limits.maxPathBytes) && p !in CRITICAL_FILES
  {
    StagedIsPayload(inputs, limits);
    assert p in Paths(Staged(inputs));
    StagedMembers(inputs);
    hide *;
    var i :| 0 <= i < |inputs| && p in FilePaths(inputs[i]);
    InputNamesAreSafe(inputs, limits, i, p);
  }

  lemma SomethingStaged(inputs: seq<PackageInput>, limits: Limits)
    requires inputs != [] && Checksummable(inputs, limits)
    ensures Staged(inputs).files.Keys != {}
  {
    StagedMembers(inputs);
    assert FilePaths(inputs[0]) != {};
    hide *;
    var p :| p in FilePaths(inputs[0]);
    assert p in Staged(inputs).files.Keys;
  }

  lemma StagedAreWritable(sha256: string -> Digest, inputs: seq<PackageInput>, limits: Limits)
    requires inputs != [] && Stageable(inputs, limits) && Checksummable(inputs, limits)
    ensures AllWritable(Digests(sha256, Staged(inputs).files), limits)
  {
    SomethingStaged(inputs, limits);
    DigestsCover(sha256, Staged(inputs).files);
    hide Stageable;
    hide Checksummable;
    hide Staged;
    hide Digests;
    hide SafeName;
    hide IsDigest;
    forall p | p in Digests(sha256, Staged(inputs).files)
      ensures SafeName(p, limits.maxPathBytes) && p !in CRITICAL_FILES
    {
      StagedAreSafe(inputs, limits, p);
    }
  }

  /** The checksum file reads back as written exactly when every name fits on one line. */
  lemma ReadBackOnOneLine(
    c: Codec, s: Signing, limits: Limits, inputs: seq<PackageInput>, m: Manifest, w: Workspace)
    requires Prepared(c, s, limits, inputs, m, w)
    ensures var checksums := Digests(c.sha256, Staged(inputs).files);
            ChecksumFile.Read(ChecksumText(checksums), limits.maxPathBytes) == ChecksumFile.Entries(checksums) <==>
            NamesOnOneLine(inputs)
  {
    PreparedInputs(c, s, limits, inputs, m, w);
    hide Prepared;
    StagedAreWritable(c.sha256, inputs, limits);
    DigestsCover(c.sha256, Staged(inputs).files);
    hide Stageable;
    hide Checksummable;
    hide Staged;
    hide Digests;
    hide SafeName;
    hide ChecksumText;
    hide ChecksumFile.Read;
    hide ChecksumFile.BoundaryFree;
    WrittenChecksumsReadBack(Digests(c.sha256, Staged(inputs).files), limits);
  }

  lemma DigestsVerify(sha256: string -> Digest, staged: map<string, string>, files: map<string, string>)
    requires SameContents(staged, files)
    ensures ChecksumsOk(sha256, files, Digests(sha256, staged))
  {
  }

  /** The payload of a prepared build passes layout, checksum and descriptor checks. */
  lemma PreparedPayload(
    c: Codec, s: Signing, limits: Limits, inputs: seq<PackageInput>, m: Manifest, w: Workspace)
    requires Prepared(c, s, limits, inputs, m, w)
    ensures PayloadAccepted(c.sha256, m.artifacts, w.files, Digests(c.sha256, Staged(inputs).files))
  {
    BuiltLayout(c, s, limits, inputs, m, w);
    DescriptorsSurvivePacking(c, s, limits, inputs, m, w);
    PreparedTables(c, s, limits, inputs, m, w);
    hide Prepared;
    hide Staged;
    hide LayoutOk;
    hide DescriptorsOk;
    hide ChecksumsOk;
    hide Digests;
    hide SameContents;
    DigestsVerify(c.sha256, Staged(inputs).files, w.files);
  }

  lemma PreparedInspection(
    c: Codec, s: Signing, limits: Limits, inputs: seq<PackageInput>, m: Manifest, w: Workspace)
    requires Prepared(c, s, limits, inputs, m, w)
    ensures MembersAllowed(Pack(w)) <==> CleanInputs(inputs)
    ensures NamesWithinLimit(Pack(w), limits)
  {
    hide *;
    PreparedIsPacked(c, s, limits, inputs, m, w);
    PreparedInputs(c, s, limits, inputs, m, w);
    EmptyDirectoriesComeFromTrees(inputs, limits);
    PackedMembersAllowed(w, Staged(inputs), limits);
    EveryPackedMemberAllowed(w, Staged(inputs), limits);
  }

  /** Acceptance of an archive whose signed manifest reads as m. */
  ghost predicate AcceptsSigned(c: Codec, limits: Limits, archive: Archive, m: Manifest) {
    && 0 < archive.size <= limits.maxArchiveBytes
    && Inspectable(archive.members, archive.size, limits)
    && MetadataSmall(Files(archive.members), limits)
    && SchemaOk(m)
    && ChecksumsOf(archive, limits).Entries?
    && PayloadAccepted(c.sha256, m.artifacts, Files(archive.members), ChecksumsOf(archive, limits).entries)
  }

  lemma AcceptanceOfSigned(c: Codec, limits: Limits, archive: Archive, m: Manifest)
    requires c.parse(ManifestText(archive)) == Some(m) && ManifestValid(m)
    requires |SignatureText(archive)| == 64 && c.signer(ManifestText(archive), SignatureText(archive)).Some?
    ensures Accepts(c, limits, archive) <==> AcceptsSigned(c, limits, archive, m)
  {
    hide ManifestText;
    hide SignatureText;
    hide ManifestValid;
    hide SchemaOk;
    hide Inspectable;
    hide MetadataSmall;
    hide ChecksumsOf;
    hide PayloadAccepted;
    hide Files;
  }

  lemma AcceptedHasLayout(
    sha256: string -> Digest, artifacts: seq<Artifact>, files: map<string, string>, checksums: Checksums)
    requires PayloadAccepted(sha256, artifacts, files, checksums)
    ensures LayoutOk(artifacts, files, checksums)
  {
    hide LayoutOk;
    hide ChecksumsOk;
    hide DescriptorsOk;
  }

  lemma OnlyOneLineNamesAreAccepted(
    c: Codec, s: Signing, limits: Limits, inputs: seq<PackageInput>, m: Manifest, w: Workspace, text: string)
    requires Prepared(c, s, limits, inputs, m, w)
    requires ChecksumFile.Read(text, limits.maxPathBytes).Entries?
    requires PayloadAccepted(c.sha256, m.artifacts, w.files, ChecksumFile.Read(text, limits.maxPathBytes).entries)
    ensures NamesOnOneLine(inputs)
  {
    hide *;
    var read := ChecksumFile.Read(text, limits.maxPathBytes).entries;
    AcceptedHasLayout(c.sha256, m.artifacts, w.files, read);
    ChecksumFile.ReadPathsAreBoundaryFree(text, limits.maxPathBytes);
    OnlyOwnChecksums(c, s, limits, inputs, m, w, read);
  }

  /** Reading the checksum file of the built archive: only its own digests fit the layout. */
  lemma PreparedChecksums(
    c: Codec, s: Signing, limits: Limits, inputs: seq<PackageInput>, m: Manifest, w: Workspace,
    read: ChecksumFile.Parsed)
    requires Prepared(c, s, limits, inputs, m, w)
    requires read == ChecksumFile.Read(ChecksumText(Digests(c.sha256, Staged(inputs).files)), limits.maxPathBytes)
    ensures read.Entries? && PayloadAccepted(c.sha256, m.artifacts, w.files, read.entries) <==> NamesOnOneLine(inputs)
  {
    hide *;
    ReadBackOnOneLine(c, s, limits, inputs, m, w);
    PreparedPayload(c, s, limits, inputs, m, w);
    if read.Entries? && PayloadAccepted(c.sha256, m.artifacts, w.files, read.entries) {
      OnlyOneLineNamesAreAccepted(c, s, limits, inputs, m, w, ChecksumText(Digests(c.sha256, Staged(inputs).files)));
    }
  }

  /**
    A build passes its own verification exactly when the archive is within the limits, no image
    snapshot holds an empty directory, no file name holds a line boundary, and no text the JSON Schema
    wants non-empty is empty.
   */
  lemma SelfVerificationIff(
    c: Codec, s: Signing, limits: Limits, inputs: seq<PackageInput>, m: Manifest, w: Workspace, size: nat)
    requires Prepared(c, s, limits, inputs, m, w)
    ensures Accepts(c, limits, Archive(Pack(w), size)) <==>
            Fits(w, size, limits) && CleanInputs(inputs) && NamesOnOneLine(inputs) && SchemaOk(m)
  {
    hide *;
    VerifiesWithin(c, s, limits, inputs, m, w, size);
    PreparedIsPacked(c, s, limits, inputs, m, w);
    PackedHasMetadata(w, Staged(inputs), limits);
    PackedIsCanonical(w, Staged(inputs), limits);
    FitsIff(w, size, limits);
  }

  lemma PackedIsCanonical(w: Workspace, staged: Workspace, limits: Limits)
    requires PackedOk(w, staged, limits)
    ensures AllCanonical(w)
  {
    hide AllCanonical;
    hide NamesSafe;
    hide InPayloadLayout;
  }

  lemma InspectableByParts(
    c: Codec, s: Signing, limits: Limits, inputs: seq<PackageInput>, m: Manifest, w: Workspace, size: nat)
    requires Prepared(c, s, limits, inputs, m, w)
    ensures Inspectable(Pack(w), size, limits) <==>
            && |Pack(w)| <= limits.maxMembers && CleanInputs(inputs)
            && ExtractedBytes(Pack(w)) <= limits.maxExtractedBytes && RatioAllowed(Pack(w), size, limits)
  {
    PreparedInspection(c, s, limits, inputs, m, w);
    hide Prepared;
    hide Pack;
    hide MembersAllowed;
    hide NamesWithinLimit;
    hide ExtractedBytes;
    hide RatioAllowed;
    hide CleanInputs;
  }

  lemma VerifiesWithin(
    c: Codec, s: Signing, limits: Limits, inputs: seq<PackageInput>, m: Manifest, w: Workspace, size: nat)
    requires Prepared(c, s, limits, inputs, m, w)
    ensures Accepts(c, limits, Archive(Pack(w), size)) <==>
            WithinLimits(w, size, limits) && CleanInputs(inputs) && NamesOnOneLine(inputs) && SchemaOk(m)
  {
    hide Prepared;
    hide Accepts;
    hide Inspectable;
    hide MembersAllowed;
    hide ExtractedBytes;
    hide RatioAllowed;
    hide MetadataSmall;
    hide Pack;
    hide Files;
    hide ManifestText;
    hide SignatureText;
    hide ChecksumsOf;
    hide ChecksumText;
    hide ManifestValid;
    hide SchemaOk;
    hide PayloadAccepted;
    hide CleanInputs;
    hide NamesOnOneLine;
    hide WithinLimits;
    var archive := Archive(Pack(w), size);
    PreparedReads(c, s, limits, inputs, m, w, size);
    PreparedChecksums(c, s, limits, inputs, m, w, ChecksumsOf(archive, limits));
    InspectableByParts(c, s, limits, inputs, m, w, size);
    WithinByNumbers(w, size, limits);
    AcceptanceOfSigned(c, limits, archive, m);
  }

  function Larger(a: nat, b: nat): nat {
    if a < b then b else a
  }

  /** Limits that leave room for this workspace; names keep their bound. */
  function Roomy(limits: Limits, w: Workspace): Limits {
    Limits(Larger(limits.maxMembers, |Pack(w)|), Larger(limits.maxExtractedBytes, ExtractedBytes(Pack(w))), 1,
           |Content(w.files, "manifest.json")| + |Content(w.files, "manifest.sig")| +
           |Content(w.files, "checksums.sha256")|,
           limits.maxPathBytes, ExtractedBytes(Pack(w)) as real)
  }

  lemma RoomyIsEnough(limits: Limits, w: Workspace)
    ensures WithinLimits(w, 1, Roomy(limits, w))
  {
    hide Pack;
    hide ExtractedBytes;
    hide Content;
  }

  lemma StageableInMoreRoom(inputs: seq<PackageInput>, limits: Limits, more: Limits)
    requires more.maxPathBytes == limits.maxPathBytes
    requires more.maxMembers >= limits.maxMembers && more.maxExtractedBytes >= limits.maxExtractedBytes
    ensures Stageable(inputs, limits) ==> Stageable(inputs, more)
    ensures Checksummable(inputs, limits) ==> Checksummable(inputs, more)
  {
    hide SafeName;
    hide PathsOverlap;
    hide Weight;
    hide FilePaths;
    hide IsFileTree;
  }

  lemma PreparedInMoreRoom(
    c: Codec, s: Signing, limits: Limits, more: Limits, inputs: seq<PackageInput>, m: Manifest, w: Workspace)
    requires Prepared(c, s, limits, inputs, m, w)
    requires more.maxPathBytes == limits.maxPathBytes
    requires more.maxMembers >= limits.maxMembers && more.maxExtractedBytes >= limits.maxExtractedBytes
    ensures Prepared(c, s, more, inputs, m, w)
  {
    StageableInMoreRoom(inputs, limits, more);
    hide Stageable;
    hide Checksummable;
    hide Staged;
    hide SafeName;
    hide DescribesInput;
    hide WithMetadata;
    hide Digests;
    hide ManifestValid;
    hide SchemaOk;
  }

  lemma RoomyAccepts(
    c: Codec, s: Signing, limits: Limits, inputs: seq<PackageInput>, m: Manifest, w: Workspace)
    requires Prepared(c, s, limits, inputs, m, w) && CleanInputs(inputs) && NamesOnOneLine(inputs) && SchemaOk(m)
    ensures Prepared(c, s, Roomy(limits, w), inputs, m, w)
    ensures Accepts(c, Roomy(limits, w), Archive(Pack(w), 1))
  {
    var more := Roomy(limits, w);
    assert more.maxPathBytes == limits.maxPathBytes && more.maxMembers >= limits.maxMembers &&
           more.maxExtractedBytes >= limits.maxExtractedBytes by {
      hide Pack;
      hide ExtractedBytes;
      hide Content;
    }
    hide *;
    RoomyIsEnough(limits, w);
    PreparedInMoreRoom(c, s, limits, more, inputs, m, w);
    VerifiesWithin(c, s, more, inputs, m, w, 1);
  }

  /** Apart from the limits, clean snapshots, one-line names and the schema are all a prepared build needs. */
  lemma OnlyLimitsRemain(
    c: Codec, s: Signing, limits: Limits, inputs: seq<PackageInput>, m: Manifest, w: Workspace)
    requires Prepared(c, s, limits, inputs, m, w) && CleanInputs(inputs) && NamesOnOneLine(inputs) && SchemaOk(m)
    ensures exists more: Limits, size: nat ::
              more.maxPathBytes == limits.maxPathBytes && Prepared(c, s, more, inputs, m, w) &&
              Accepts(c, more, Archive(Pack(w), size))
  {
    assert Roomy(limits, w).maxPathBytes == limits.maxPathBytes by {
      hide Pack;
    }
    hide *;
    RoomyAccepts(c, s, limits, inputs, m, w);
    assert Accepts(c, Roomy(limits, w), Archive(Pack(w), 1));
  }

  /** Every input of a checksummed staging has a payload to measure. */
  lemma StatsPresent(sha256: string -> Digest, inputs: seq<PackageInput>, limits: Limits)
    requires Stageable(inputs, limits) && Checksummable(inputs, limits)
    ensures var files := Staged(inputs).files;
            && Digests(sha256, files).Keys == files.Keys
            && forall i :: 0 <= i < |inputs| ==> Matches(inputs[i].payloadPath, Digests(sha256, files)) != {}
  {
    DigestsCover(sha256, Staged(inputs).files);
    forall i | 0 <= i < |inputs|
      ensures Matches(inputs[i].payloadPath, Digests(sha256, Staged(inputs).files)) != {}
    {
      assert FilePaths(inputs[i]) != {};
      hide *;
      MatchesAreOwnFiles(inputs, limits, Digests(sha256, Staged(inputs).files), i);
    }
  }

  ghost function MeasuredInput(sha256: string -> Digest, inputs: seq<PackageInput>, limits: Limits, i: nat): Artifact
    requires Stageable(inputs, limits) && Checksummable(inputs, limits) && i < |inputs|
  {
    StatsPresent(sha256, inputs, limits);
    var files := Staged(inputs).files;
    Describe(inputs[i], PayloadStats(sha256, inputs[i].payloadPath, Digests(sha256, files), files).value)
  }

  ghost function BuiltManifest(
    sha256: string -> Digest, limits: Limits, deliveryId: string, header: Header, inputs: seq<PackageInput>): Manifest
    requires Stageable(inputs, limits) && Checksummable(inputs, limits)
  {
    Manifest(deliveryId, header,
             seq(|inputs|, i requires 0 <= i < |inputs| => MeasuredInput(sha256, inputs, limits, i)))
  }

  function BuiltWorkspace(c: Codec, s: Signing, m: Manifest, inputs: seq<PackageInput>): Workspace {
    var staged := Staged(inputs);
    WithMetadata(staged, s.encode(m), s.sign(s.encode(m)), Digests(c.sha256, staged.files))
  }

  /** The conditions on which a build with a coherent signer succeeds. */
  ghost predicate Buildable(
    c: Codec, s: Signing, limits: Limits, size: seq<Member> -> nat,
    deliveryId: string, header: Header, inputs: seq<PackageInput>)
  {
    && inputs != [] && Stageable(inputs, limits) && Checksummable(inputs, limits)
    && var m := BuiltManifest(c.sha256, limits, deliveryId, header, inputs);
    && var w := BuiltWorkspace(c, s, m, inputs);
    && ManifestValid(m) && NamesSafe(w, limits)
    && Fits(w, size(Pack(w)), limits) && CleanInputs(inputs) && NamesOnOneLine(inputs) && SchemaOk(m)
  }

  /** Every step before self-verification goes through. */
  ghost predicate ReachesVerifier(
    c: Codec, s: Signing, limits: Limits, deliveryId: string, header: Header, inputs: seq<PackageInput>)
  {
    && inputs != [] && Stageable(inputs, limits) && Checksummable(inputs, limits)
    && var m := BuiltManifest(c.sha256, limits, deliveryId, header, inputs);
    ManifestValid(m) && NamesSafe(BuiltWorkspace(c, s, m, inputs), limits)
  }

  lemma PreparedReaches(
    c: Codec, s: Signing, limits: Limits, deliveryId: string, header: Header, inputs: seq<PackageInput>)
    requires Stageable(inputs, limits) && Checksummable(inputs, limits)
    requires var m := BuiltManifest(c.sha256, limits, deliveryId, header, inputs);
             Prepared(c, s, limits, inputs, m, BuiltWorkspace(c, s, m, inputs))
    ensures ReachesVerifier(c, s, limits, deliveryId, header, inputs)
  {
    hide Stageable;
    hide Checksummable;
    hide BuiltManifest;
    hide BuiltWorkspace;
    hide ManifestValid;
    hide SchemaOk;
    hide NamesSafe;
    hide DescribesInput;
    hide SignsFor;
    hide WithMetadata;
    hide Digests;
    hide Staged;
  }

  /** The signer's text reads back, and its signature confirms, for the manifest this build writes. */
  ghost predicate SignsBuild(
    c: Codec, s: Signing, limits: Limits, deliveryId: string, header: Header, inputs: seq<PackageInput>)
  {
    Stageable(inputs, limits) && Checksummable(inputs, limits) ==>
      SignsFor(s, c, BuiltManifest(c.sha256, limits, deliveryId, header, inputs))
  }

  lemma MeasuredDescribes(sha256: string -> Digest, inputs: seq<PackageInput>, limits: Limits, i: nat)
    requires Stageable(inputs, limits) && Checksummable(inputs, limits) && i < |inputs|
    ensures Digests(sha256, Staged(inputs).files).Keys == Staged(inputs).files.Keys
    ensures DescribesInput(sha256, inputs[i], MeasuredInput(sha256, inputs, limits, i),
                           Digests(sha256, Staged(inputs).files), Staged(inputs).files)
  {
    StatsPresent(sha256, inputs, limits);
    hide Stageable;
    hide Checksummable;
    hide Staged;
    hide Digests;
    hide TreeText;
    hide Weight;
    hide Matches;
    hide IsDigest;
  }

  lemma DescriptionIsUnique(
    sha256: string -> Digest, a: PackageInput, d1: Artifact, d2: Artifact, checksums: Checksums,
    files: map<string, string>)
    requires checksums.Keys <= files.Keys
    requires DescribesInput(sha256, a, d1, checksums, files) && DescribesInput(sha256, a, d2, checksums, files)
    ensures d1 == d2
  {
    hide PayloadStats;
  }

  lemma MeasuredManifest(
    sha256: string -> Digest, limits: Limits, inputs: seq<PackageInput>, m: Manifest)
    requires Stageable(inputs, limits) && Checksummable(inputs, limits) && |m.artifacts| == |inputs|
    requires Digests(sha256, Staged(inputs).files).Keys == Staged(inputs).files.Keys
    requires forall i :: 0 <= i < |inputs| ==>
               DescribesInput(
                 sha256, inputs[i], m.artifacts[i], Digests(sha256, Staged(inputs).files), Staged(inputs).files)
    ensures m == BuiltManifest(sha256, limits, m.deliveryId, m.header, inputs)
  {
    hide Stageable;
    hide Checksummable;
    hide Staged;
    hide Digests;
    hide DescribesInput;
    hide MeasuredInput;
    forall i | 0 <= i < |inputs|
      ensures m.artifacts[i] == MeasuredInput(sha256, inputs, limits, i)
    {
      MeasuredDescribes(sha256, inputs, limits, i);
      DescriptionIsUnique(sha256, inputs[i], m.artifacts[i], MeasuredInput(sha256, inputs, limits, i),
                          Digests(sha256, Staged(inputs).files), Staged(inputs).files);
    }
  }

  lemma BuildIsPrepared(
    c: Codec, s: Signing, limits: Limits, deliveryId: string, header: Header, inputs: seq<PackageInput>)
    requires inputs != [] && Stageable(inputs, limits) && Checksummable(inputs, limits)
    requires SignsBuild(c, s, limits, deliveryId, header, inputs)
    ensures var m := BuiltManifest(c.sha256, limits, deliveryId, header, inputs);
            var w := BuiltWorkspace(c, s, m, inputs);
            ManifestValid(m) && NamesSafe(w, limits) ==> Prepared(c, s, limits, inputs, m, w)
  {
    var m := BuiltManifest(c.sha256, limits, deliveryId, header, inputs);
    assert SignsFor(s, c, m);
    hide Stageable;
    hide Checksummable;
    hide Staged;
    hide Digests;
    hide DescribesInput;
    hide MeasuredInput;
    hide SignsFor;
    hide ManifestValid;
    hide SchemaOk;
    hide NamesSafe;
    hide WithMetadata;
    forall i | 0 <= i < |inputs|
      ensures DescribesInput(
                c.sha256, inputs[i], m.artifacts[i], Digests(c.sha256, Staged(inputs).files), Staged(inputs).files)
    {
      MeasuredDescribes(c.sha256, inputs, limits, i);
    }
    DigestsCover(c.sha256, Staged(inputs).files);
  }

  lemma {:induction false} MovedWeight(
    root: string, names: set<string>, tree: map<string, string>, files: map<string, string>)
    requires names <= tree.Keys
    requires forall f :: f in names ==> Inside(root, f) in files && files[Inside(root, f)] == tree[f]
    ensures var moved := set f | f in names :: Inside(root, f);
            moved <= files.Keys && Weight(moved, files) == Weight(names, tree)
    decreases |names|
  {
    hide Inside;
    var moved := set f | f in names :: Inside(root, f);
    if names == {} {
      assert moved == {};
    } else {
      var f :| f in names;
      MovedWeight(root, names - {f}, tree, files);
      BundleSafety.WeightRemove(names, f, tree);
      BundleSafety.WeightRemove(moved, Inside(root, f), files);
      forall g | g in names - {f}
        ensures Inside(root, g) != Inside(root, f)
      {
        if Inside(root, g) == Inside(root, f) {
          SameInside(root, g, f);
        }
      }
      assert moved - {Inside(root, f)} == set g | g in names - {f} :: Inside(root, g);
    }
  }

  lemma RestrictDigests(sha256: string -> Digest, files: map<string, string>, own: map<string, string>)
    requires forall p :: p in own ==> p in files && files[p] == own[p]
    ensures Restrict(Digests(sha256, files), own.Keys) == Digests(sha256, own)
  {
    hide IsDigest;
  }

  lemma OwnContents(inputs: seq<PackageInput>, limits: Limits, i: nat)
    requires Stageable(inputs, limits) && i < |inputs|
    ensures forall p :: p in FilesOf(inputs[i]) ==>
              p in Staged(inputs).files && Staged(inputs).files[p] == FilesOf(inputs[i])[p]
  {
    hide *;
    forall p | p in FilesOf(inputs[i])
      ensures p in Staged(inputs).files && Staged(inputs).files[p] == FilesOf(inputs[i])[p]
    {
      StagedContent(inputs, limits, i, p);
    }
  }

  lemma OwnDigests(sha256: string -> Digest, inputs: seq<PackageInput>, limits: Limits, i: nat)
    requires Stageable(inputs, limits) && i < |inputs|
    ensures var checksums := Digests(sha256, Staged(inputs).files);
            && Matches(inputs[i].payloadPath, checksums) == FilePaths(inputs[i])
            && Restrict(checksums, FilePaths(inputs[i])) == Digests(sha256, FilesOf(inputs[i]))
  {
    hide *;
    DigestsCover(sha256, Staged(inputs).files);
    MatchesAreOwnFiles(inputs, limits, Digests(sha256, Staged(inputs).files), i);
    OwnContents(inputs, limits, i);
    RestrictDigests(sha256, Staged(inputs).files, FilesOf(inputs[i]));
  }

  lemma ImageMeasured(sha256: string -> Digest, inputs: seq<PackageInput>, limits: Limits, i: nat)
    requires Stageable(inputs, limits) && i < |inputs| && inputs[i].ImageInput? && FilePaths(inputs[i]) != {}
    ensures var a, files := inputs[i], Staged(inputs).files;
            && Digests(sha256, files).Keys == files.Keys
            && PayloadStats(sha256, a.payloadPath, Digests(sha256, files), files) ==
               Some(Stats(sha256(ChecksumFile.Serialize(ChecksumFile.SortedEntries(Digests(sha256, FilesOf(a))))),
                          Weight(a.tree.files.Keys, a.tree.files)))
  {
    var a, files := inputs[i], Staged(inputs).files;
    DigestsCover(sha256, files);
    OwnDigests(sha256, inputs, limits, i);
    forall f | f in a.tree.files
      ensures Inside(a.payloadPath, f) in files && files[Inside(a.payloadPath, f)] == a.tree.files[f]
    {
      ImagePath(a, f);
      StagedContent(inputs, limits, i, Inside(a.payloadPath, f));
    }
    MovedWeight(a.payloadPath, a.tree.files.Keys, a.tree.files, files);
    assert FilePaths(a) == set f | f in a.tree.files.Keys :: Inside(a.payloadPath, f);
    assert FilePaths(a) != {a.payloadPath} by {
      var p :| p in FilePaths(a);
      assert |p| > |a.payloadPath|;
    }
    hide Stageable;
    hide Staged;
    hide FilePaths;
    hide IsDigest;
    hide Digests;
    hide Matches;
    hide Weight;
    hide Restrict;
    hide IsFileTree;
    hide ChecksumFile.Serialize;
    hide ChecksumFile.SortedEntries;
  }

  lemma SingleFileStats(
    sha256: string -> Digest, root: string, content: string, checksums: Checksums, files: map<string, string>)
    requires checksums.Keys <= files.Keys && Matches(root, checksums) == {root}
    requires root in files && files[root] == content && checksums[root] == sha256(content)
    ensures PayloadStats(sha256, root, checksums, files) == Some(Stats(sha256(content), |content|))
  {
    BundleSafety.WeightRemove({root}, root, files);
    assert {root} - {root} == {};
    hide Matches;
    hide TreeText;
    hide IsDigest;
  }

  lemma ChartMeasured(sha256: string -> Digest, inputs: seq<PackageInput>, limits: Limits, i: nat)
    requires Stageable(inputs, limits) && i < |inputs| && inputs[i].ChartInput?
    ensures var a, files := inputs[i], Staged(inputs).files;
            && Digests(sha256, files).Keys == files.Keys
            && PayloadStats(sha256, a.payloadPath, Digests(sha256, files), files) ==
               Some(Stats(sha256(a.content), |a.content|))
  {
    hide *;
    var a, files := inputs[i], Staged(inputs).files;
    DigestsCover(sha256, files);
    OwnDigests(sha256, inputs, limits, i);
    ChartPath(a);
    StagedContent(inputs, limits, i, a.payloadPath);
    DigestAt(sha256, files, a.payloadPath);
    SingleFileStats(sha256, a.payloadPath, a.content, Digests(sha256, files), files);
  }

  lemma DigestAt(sha256: string -> Digest, files: map<string, string>, p: string)
    requires p in files
    ensures p in Digests(sha256, files) && Digests(sha256, files)[p] == sha256(files[p])
  {
  }

  lemma DescribedAsGiven(
    sha256: string -> Digest, a: PackageInput, d: Artifact, stats: Stats, checksums: Checksums,
    files: map<string, string>)
    requires checksums.Keys <= files.Keys && DescribesInput(sha256, a, d, checksums, files)
    requires PayloadStats(sha256, a.payloadPath, checksums, files) == Some(stats)
    ensures a.ChartInput? ==> d == HelmChart(
              a.repository, a.name, a.version, a.chartDigest, a.payloadPath, stats.sha256, stats.size)
    ensures a.ImageInput? ==> d == ContainerImage(
              a.repository, a.reference, a.imageDigest, a.payloadPath, stats.sha256, stats.size)
  {
    hide PayloadStats;
    hide IsFileTree;
  }

  lemma InputMeasured(
    sha256: string -> Digest, limits: Limits, inputs: seq<PackageInput>, d: Artifact, i: nat)
    requires Stageable(inputs, limits) && Checksummable(inputs, limits) && i < |inputs|
    requires d == MeasuredInput(sha256, inputs, limits, i) && FilePaths(inputs[i]) != {}
    ensures inputs[i].ChartInput? ==> d == HelmChart(
              inputs[i].repository, inputs[i].name, inputs[i].version, inputs[i].chartDigest, inputs[i].payloadPath,
              sha256(inputs[i].content), |inputs[i].content|)
    ensures inputs[i].ImageInput? ==> d == ContainerImage(
              inputs[i].repository, inputs[i].reference, inputs[i].imageDigest, inputs[i].payloadPath,
              sha256(ChecksumFile.Serialize(ChecksumFile.SortedEntries(Digests(sha256, FilesOf(inputs[i]))))),
              Weight(inputs[i].tree.files.Keys, inputs[i].tree.files))
  {
    hide *;
    var files := Staged(inputs).files;
    MeasuredDescribes(sha256, inputs, limits, i);
    if inputs[i].ChartInput? {
      ChartMeasured(sha256, inputs, limits, i);
      DescribedAsGiven(sha256, inputs[i], d, Stats(sha256(inputs[i].content), |inputs[i].content|),
                       Digests(sha256, files), files);
    } else {
      ImageMeasured(sha256, inputs, limits, i);
      DescribedAsGiven(
        sha256, inputs[i], d,
        Stats(sha256(ChecksumFile.Serialize(ChecksumFile.SortedEntries(Digests(sha256, FilesOf(inputs[i]))))),
              Weight(inputs[i].tree.files.Keys, inputs[i].tree.files)),
        Digests(sha256, files), files);
    }
  }

  lemma NamesFromParts(sha256: string -> Digest, inputs: seq<PackageInput>, artifacts: seq<Artifact>)
    requires |artifacts| == |inputs|
    requires forall i :: 0 <= i < |inputs| && inputs[i].ChartInput? ==> artifacts[i] == HelmChart(
               inputs[i].repository, inputs[i].name, inputs[i].version, inputs[i].chartDigest, inputs[i].payloadPath,
               sha256(inputs[i].content), |inputs[i].content|)
    requires forall i :: 0 <= i < |inputs| && inputs[i].ImageInput? ==> artifacts[i] == ContainerImage(
               inputs[i].repository, inputs[i].reference, inputs[i].imageDigest, inputs[i].payloadPath,
               sha256(ChecksumFile.Serialize(ChecksumFile.SortedEntries(Digests(sha256, FilesOf(inputs[i]))))),
               Weight(inputs[i].tree.files.Keys, inputs[i].tree.files))
    ensures NamesInputs(sha256, inputs, artifacts)
  {
    hide IsFileTree;
    hide IsDigest;
    hide Weight;
    hide FilesOf;
    hide Digests;
    hide ChecksumFile.Serialize;
    hide ChecksumFile.SortedEntries;
  }

  lemma BuiltArtifacts(
    sha256: string -> Digest, limits: Limits, deliveryId: string, header: Header, inputs: seq<PackageInput>)
    requires Stageable(inputs, limits) && Checksummable(inputs, limits)
    ensures var m := BuiltManifest(sha256, limits, deliveryId, header, inputs);
            && m.deliveryId == deliveryId && m.header == header && |m.artifacts| == |inputs|
            && forall i :: 0 <= i < |inputs| ==> m.artifacts[i] == MeasuredInput(sha256, inputs, limits, i)
  {
    hide Stageable;
    hide Checksummable;
    hide MeasuredInput;
  }

  lemma NoneIsEmpty(inputs: seq<PackageInput>, limits: Limits)
    requires Checksummable(inputs, limits)
    ensures forall i :: 0 <= i < |inputs| ==> FilePaths(inputs[i]) != {}
  {
    hide FilePaths;
    hide SafeName;
  }

  /** The manifest of a build names its inputs. */
  lemma BuiltNamesInputs(
    sha256: string -> Digest, limits: Limits, deliveryId: string, header: Header, inputs: seq<PackageInput>)
    requires Stageable(inputs, limits) && Checksummable(inputs, limits)
    ensures var m := BuiltManifest(sha256, limits, deliveryId, header, inputs);
            m.deliveryId == deliveryId && m.header == header && NamesInputs(sha256, inputs, m.artifacts)
  {
    hide *;
    var m := BuiltManifest(sha256, limits, deliveryId, header, inputs);
    BuiltArtifacts(sha256, limits, deliveryId, header, inputs);
    NoneIsEmpty(inputs, limits);
    forall i | 0 <= i < |inputs|
      ensures inputs[i].ChartInput? ==> m.artifacts[i] == HelmChart(
                inputs[i].repository, inputs[i].name, inputs[i].version, inputs[i].chartDigest, inputs[i].payloadPath,
                sha256(inputs[i].content), |inputs[i].content|)
      ensures inputs[i].ImageInput? ==> m.artifacts[i] == ContainerImage(
                inputs[i].repository, inputs[i].reference, inputs[i].imageDigest, inputs[i].payloadPath,
                sha256(ChecksumFile.Serialize(ChecksumFile.SortedEntries(Digests(sha256, FilesOf(inputs[i]))))),
                Weight(inputs[i].tree.files.Keys, inputs[i].tree.files))
    {
      InputMeasured(sha256, limits, inputs, m.artifacts[i], i);
    }
    NamesFromParts(sha256, inputs, m.artifacts);
  }

  /** The payload of a built archive is the inputs; beside it stand the three metadata files alone. */
  lemma BuiltArchiveHoldsInputs(
    c: Codec, s: Signing, limits: Limits, inputs: seq<PackageInput>, m: Manifest, w: Workspace)
    requires Prepared(c, s, limits, inputs, m, w)
    ensures HoldsInputs(inputs, Files(Pack(w)) - {"manifest.json", "manifest.sig", "checksums.sha256"})
    ensures {"manifest.json", "manifest.sig", "checksums.sha256"} <= Files(Pack(w)).Keys
  {
    hide *;
    PreparedIsPacked(c, s, limits, inputs, m, w);
    PreparedTables(c, s, limits, inputs, m, w);
    PreparedInputs(c, s, limits, inputs, m, w);
    PackedHasMetadata(w, Staged(inputs), limits);
    StagedHolds(inputs, limits);
    PayloadIsStaged(Digests(c.sha256, Staged(inputs).files), Staged(inputs).files, w.files);
  }

  lemma PayloadIsStaged(checksums: Checksums, staged: map<string, string>, files: map<string, string>)
    requires TablesAgree(checksums, staged, files)
    ensures files - {"manifest.json", "manifest.sig", "checksums.sha256"} == staged
  {
    hide IsDigest;
  }

  /** The same for a workspace whose manifest need not be one the codec reads back. */
  lemma AnyBuildHoldsInputs(
    limits: Limits, inputs: seq<PackageInput>, text: string, signature: string, checksums: Checksums)
    requires Stageable(inputs, limits)
    ensures var w := WithMetadata(Staged(inputs), text, signature, checksums);
            HoldsInputs(inputs, Files(Pack(w)) - {"manifest.json", "manifest.sig", "checksums.sha256"})
  {
    hide *;
    var staged := Staged(inputs);
    var w := WithMetadata(staged, text, signature, checksums);
    StagedIsPayload(inputs, limits);
    PathsHaveFiles(staged);
    MetadataFiles(staged, text, signature, checksums);
    CompleteIsCanonical(w, staged);
    PackedFiles(w);
    StagedHolds(inputs, limits);
    CompletePayload(w, staged);
  }

  lemma PathsHaveFiles(staged: Workspace)
    ensures forall p :: p in staged.files ==> p in Paths(staged)
  {
  }

  lemma CompletePayload(w: Workspace, staged: Workspace)
    requires Complete(w, staged) && forall p :: p in staged.files ==> p !in CRITICAL_FILES
    ensures w.files - {"manifest.json", "manifest.sig", "checksums.sha256"} == staged.files
  {
  }

  datatype BuildError =
    | ArtifactsEmpty | StagingRefused | ChecksumRefused | PayloadVanished | ManifestRefused | UnsafeName
    | SelfVerification(error: VerifyError)

  datatype BuildResult = Built(archive: Archive, manifest: Manifest) | BuildFailed(error: BuildError)

  lemma VerdictOnBuild(
    c: Codec, s: Signing, limits: Limits, size: seq<Member> -> nat,
    deliveryId: string, header: Header, inputs: seq<PackageInput>)
    requires inputs != [] && Stageable(inputs, limits) && Checksummable(inputs, limits)
    requires SignsBuild(c, s, limits, deliveryId, header, inputs)
    ensures var m := BuiltManifest(c.sha256, limits, deliveryId, header, inputs);
            var w := BuiltWorkspace(c, s, m, inputs);
            && (Buildable(c, s, limits, size, deliveryId, header, inputs) <==>
                ManifestValid(m) && NamesSafe(w, limits) && Accepts(c, limits, Archive(Pack(w), size(Pack(w)))))
            && (ManifestValid(m) && NamesSafe(w, limits) ==>
                c.parse(ManifestText(Archive(Pack(w), size(Pack(w))))) == Some(m))
  {
    var m := BuiltManifest(c.sha256, limits, deliveryId, header, inputs);
    var w := BuiltWorkspace(c, s, m, inputs);
    BuildIsPrepared(c, s, limits, deliveryId, header, inputs);
    hide Prepared;
    hide Stageable;
    hide Checksummable;
    hide BuiltManifest;
    hide BuiltWorkspace;
    hide SignsBuild;
    hide Pack;
    hide Staged;
    hide Accepts;
    hide ManifestText;
    hide ManifestValid;
    hide SchemaOk;
    hide NamesSafe;
    hide Fits;
    hide CleanInputs;
    hide NamesOnOneLine;
    if ManifestValid(m) && NamesSafe(w, limits) {
      SelfVerificationIff(c, s, limits, inputs, m, w, size(Pack(w)));
      PreparedReads(c, s, limits, inputs, m, w, size(Pack(w)));
    }
  }

  /** build_bundle up to publication; size measures the compressed archive. */
  method BuildBundle(
    c: Codec, s: Signing, limits: Limits, size: seq<Member> -> nat,
    deliveryId: string, header: Header, inputs: seq<PackageInput>)
    returns (r: BuildResult)
    ensures SignsBuild(c, s, limits, deliveryId, header, inputs) ==>
              (r.Built? <==> Buildable(c, s, limits, size, deliveryId, header, inputs))
    ensures r.Built? ==> Accepts(c, limits, r.archive) && c.parse(ManifestText(r.archive)) == Some(r.manifest)
    ensures r.Built? ==> ReachesVerifier(c, s, limits, deliveryId, header, inputs)
    ensures r.Built? && SignsBuild(c, s, limits, deliveryId, header, inputs) ==>
              && r.manifest == BuiltManifest(c.sha256, limits, deliveryId, header, inputs)
              && r.archive.members == Pack(BuiltWorkspace(c, s, r.manifest, inputs))
              && r.manifest.deliveryId == deliveryId && r.manifest.header == header
              && NamesInputs(c.sha256, inputs, r.manifest.artifacts)
    ensures r.Built? ==>
              HoldsInputs(inputs, Files(r.archive.members) - {"manifest.json", "manifest.sig", "checksums.sha256"})
    ensures inputs == [] <==> r == BuildFailed(ArtifactsEmpty)
    ensures r == BuildFailed(StagingRefused) <==> inputs != [] && !Stageable(inputs, limits)
    ensures r == BuildFailed(ChecksumRefused) <==>
            inputs != [] && Stageable(inputs, limits) && !Checksummable(inputs, limits)
    ensures r == BuildFailed(ManifestRefused) <==>
            && inputs != [] && Stageable(inputs, limits) && Checksummable(inputs, limits)
            && !ManifestValid(BuiltManifest(c.sha256, limits, deliveryId, header, inputs))
    ensures r == BuildFailed(UnsafeName) <==>
            && inputs != [] && Stageable(inputs, limits) && Checksummable(inputs, limits)
            && var m := BuiltManifest(c.sha256, limits, deliveryId, header, inputs);
            ManifestValid(m) && !NamesSafe(BuiltWorkspace(c, s, m, inputs), limits)
    ensures r.BuildFailed? && r.error.SelfVerification? <==>
            && ReachesVerifier(c, s, limits, deliveryId, header, inputs)
            && var w := BuiltWorkspace(c, s, BuiltManifest(c.sha256, limits, deliveryId, header, inputs), inputs);
            !Accepts(c, limits, Archive(Pack(w), size(Pack(w))))
    ensures r != BuildFailed(PayloadVanished)
  {
    hide Stageable;
    hide Checksummable;
    hide Accepts;
    hide ManifestValid;
    hide SchemaOk;
    hide NamesSafe;
    hide Staged;
    hide Pack;
    hide ManifestText;
    hide SignatureText;
    hide SignsBuild;
    hide Digests;
    hide DescribesInput;
    hide IsDigest;
    hide Matches;
    hide WithMetadata;
    hide BuiltManifest;
    if inputs == [] {
      return BuildFailed(ArtifactsEmpty);
    }
    var staged := StagePayloads(inputs, limits);
    if staged.None? {
      return BuildFailed(StagingRefused);
    }
    var workspace := staged.value;
    var checksums := ChecksumPayloadFiles(c.sha256, inputs, workspace.files, limits);
    if checksums.None? {
      return BuildFailed(ChecksumRefused);
    }
    StatsPresent(c.sha256, inputs, limits);
    var descriptors := BuildDescriptors(c.sha256, inputs, checksums.value, workspace.files);
    if descriptors.None? {
      return BuildFailed(PayloadVanished);
    }
    var manifest := Manifest(deliveryId, header, descriptors.value);
    MeasuredManifest(c.sha256, limits, inputs, manifest);
    if SignsBuild(c, s, limits, deliveryId, header, inputs) {
      VerdictOnBuild(c, s, limits, size, deliveryId, header, inputs);
    }
    hide Buildable;
    if !ManifestValid(manifest) {
      return BuildFailed(ManifestRefused);
    }
    var text := s.encode(manifest);
    var full := WithMetadata(workspace, text, s.sign(text), checksums.value);
    assert full == BuiltWorkspace(c, s, manifest, inputs);
    AnyBuildHoldsInputs(limits, inputs, text, s.sign(text), checksums.value);
    BuiltNamesInputs(c.sha256, limits, deliveryId, header, inputs);
    hide NamesInputs;
    hide HoldsInputs;
    hide Files;
    hide BuiltWorkspace;
    if !NamesSafe(full, limits) {
      return BuildFailed(UnsafeName);
    }
    var archive := Archive(Pack(full), size(Pack(full)));
    var verdict := VerifyBundle(c, limits, archive);
    match verdict
    case Refused(error) => return BuildFailed(SelfVerification(error));
    case Verified(m, _) => return Built(archive, m);
  }
}
