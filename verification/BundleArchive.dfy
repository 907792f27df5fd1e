/** The tar members of a bundle and the checks made before any of them is read. */
module BundleArchive {
  import opened BundleNames
  import opened PosixPath

  datatype Kind = File(content: string) | Directory | SymbolicLink | HardLink | Special

  datatype Member = Member(name: string, kind: Kind)

  datatype Limits = Limits(
    maxMembers: nat,
    maxExtractedBytes: nat,
    maxArchiveBytes: nat,
    maxMetadataBytes: nat,
    maxPathBytes: nat,
    maxCompressionRatio: real)

  const PAYLOAD_ROOTS: set<string> := {"images", "charts"}

  /** name.rstrip("/") */
  function StripSlashes(name: string): string {
    if name != [] && name[|name| - 1] == '/' then StripSlashes(name[..|name| - 1]) else name
  }

  function Normalized(m: Member): string {
    if m.kind.Directory? then StripSlashes(m.name) else m.name
  }

  /** _canonical_member_name raises nothing. */
  predicate HasCanonicalName(m: Member) {
    var name := Normalized(m);
    && name != "" && !IsAbsolute(name) && ".." !in Parts(name)
    && !HasForbiddenChar(m.name)
    && AsPosix(name) == name
  }

  predicate InPayloadLayout(name: string) {
    Parts(name) != [] && Parts(name)[0] in PAYLOAD_ROOTS
  }

  predicate MemberAllowed(m: Member) {
    && HasCanonicalName(m)
    && (m.kind.File? || m.kind.Directory?)
    && (if Normalized(m) in CRITICAL_FILES then m.kind.File? else InPayloadLayout(Normalized(m)))
  }

  predicate IsPayloadFile(m: Member) {
    m.kind.File? && Normalized(m) !in CRITICAL_FILES
  }

  predicate IsPayloadDirectory(m: Member) {
    m.kind.Directory? && Normalized(m) !in CRITICAL_FILES
  }

  predicate DistinctNames(members: seq<Member>) {
    forall i, j :: 0 <= i < j < |members| ==> Normalized(members[i]) != Normalized(members[j])
  }

  function Names(members: seq<Member>): set<string> {
    set m | m in members :: Normalized(m)
  }

  function PayloadFiles(members: seq<Member>): set<string> {
    set m | m in members && IsPayloadFile(m) :: Normalized(m)
  }

  function PayloadDirectories(members: seq<Member>): set<string> {
    set m | m in members && IsPayloadDirectory(m) :: Normalized(m)
  }

  /** Some payload file lies strictly inside the directory. */
  predicate HasFileInside(files: set<string>, directory: string) {
    exists p :: p in files && directory + "/" <= p
  }

  /** validate_archive_members raises nothing. */
  predicate MembersAllowed(members: seq<Member>) {
    && (forall i :: 0 <= i < |members| ==> MemberAllowed(members[i]))
    && DistinctNames(members)
    && CRITICAL_FILES <= Names(members)
    && (forall d :: d in PayloadDirectories(members) ==> HasFileInside(PayloadFiles(members), d))
  }

  lemma OneMore(members: seq<Member>, k: nat)
    requires k < |members|
    ensures members[..k + 1] == members[..k] + [members[k]]
    ensures Names(members[..k + 1]) == Names(members[..k]) + {Normalized(members[k])}
    ensures PayloadFiles(members[..k + 1]) ==
            PayloadFiles(members[..k]) + if IsPayloadFile(members[k]) then {Normalized(members[k])} else {}
    ensures PayloadDirectories(members[..k + 1]) ==
            PayloadDirectories(members[..k]) + if IsPayloadDirectory(members[k]) then {Normalized(members[k])} else {}
    ensures DistinctNames(members[..k + 1]) <==>
            DistinctNames(members[..k]) && Normalized(members[k]) !in Names(members[..k])
  {
    hide Normalized;
    var before, after := members[..k], members[..k + 1];
    assert after == before + [members[k]];
    assert forall i :: 0 <= i < k ==> before[i] in before && before[i] == after[i];
    assert after[k] == members[k];
  }

  method ValidateArchiveMembers(members: seq<Member>) returns (ok: bool)
    ensures ok <==> MembersAllowed(members)
  {
    hide HasCanonicalName;
    hide InPayloadLayout;
    hide Normalized;
    var seen: set<string> := {};
    var payloadFiles: set<string> := {};
    var payloadDirectories: set<string> := {};
    for k := 0 to |members|
      invariant forall i :: 0 <= i < k ==> MemberAllowed(members[i])
      invariant DistinctNames(members[..k])
      invariant seen == Names(members[..k])
      invariant payloadFiles == PayloadFiles(members[..k])
      invariant payloadDirectories == PayloadDirectories(members[..k])
    {
      var member := members[k];
      OneMore(members, k);
      if !HasCanonicalName(member) {
        return false;
      }
      var normalized := Normalized(member);
      if normalized in seen {
        NotDistinct(members, k);
        return false;
      }
      seen := seen + {normalized};
      if !(member.kind.File? || member.kind.Directory?) {
        return false;
      }
      if normalized in CRITICAL_FILES {
        if !member.kind.File? {
          return false;
        }
      } else {
        if !InPayloadLayout(normalized) {
          return false;
        }
        if member.kind.File? {
          payloadFiles := payloadFiles + {normalized};
        } else {
          payloadDirectories := payloadDirectories + {normalized};
        }
      }
    }
    assert members[..|members|] == members;
    if !(CRITICAL_FILES <= seen) {
      return false;
    }
    ok := NoEmptyDirectory(payloadFiles, payloadDirectories);
  }

  lemma NotDistinct(members: seq<Member>, k: nat)
    requires k < |members| && Normalized(members[k]) in Names(members[..k])
    ensures !DistinctNames(members)
  {
    var m :| m in members[..k] && Normalized(m) == Normalized(members[k]);
    var i :| 0 <= i < k && members[..k][i] == m;
    assert Normalized(members[i]) == Normalized(members[k]);
  }

  method NoEmptyDirectory(files: set<string>, directories: set<string>) returns (ok: bool)
    ensures ok <==> forall d :: d in directories ==> HasFileInside(files, d)
  {
    var pending := directories;
    while pending != {}
      invariant pending <= directories
      invariant forall d :: d in directories && d !in pending ==> HasFileInside(files, d)
      decreases |pending|
    {
      var directory :| directory in pending;
      if !(exists p :: p in files && directory + "/" <= p) {
        return false;
      }
      pending := pending - {directory};
    }
    return true;
  }

  /** The regular files by name; the names of an allowed archive are distinct. */
  function Files(members: seq<Member>): (files: map<string, string>)
    ensures forall p :: p in files <==>
              exists i :: 0 <= i < |members| && members[i].kind.File? && members[i].name == p
  {
    if members == [] then map[]
    else
      var m := members[|members| - 1];
      var before := Files(members[..|members| - 1]);
      if m.kind.File? then before[m.name := m.kind.content] else before
  }

  function ExtractedBytes(members: seq<Member>): nat {
    if members == [] then 0
    else
      var m := members[|members| - 1];
      ExtractedBytes(members[..|members| - 1]) + if m.kind.File? then |m.kind.content| else 0
  }

  lemma {:induction false} ExtractedBytesGrow(members: seq<Member>, k: nat)
    requires k <= |members|
    ensures ExtractedBytes(members[..k]) <= ExtractedBytes(members)
    decreases |members| - k
  {
    if k < |members| {
      assert members[..k + 1][..k] == members[..k];
      ExtractedBytesGrow(members, k + 1);
    } else {
      assert members[..k] == members;
    }
  }

  datatype InspectError =
    MemberLimitExceeded | ArchiveUnsafe | ExtractedSizeExceeded | CompressionRatioExceeded

  datatype Inspection = Inspected(files: map<string, string>) | Rejected(error: InspectError)

  predicate NamesWithinLimit(members: seq<Member>, limits: Limits) {
    forall i :: 0 <= i < |members| ==> SafeName(Normalized(members[i]), limits.maxPathBytes)
  }

  predicate RatioAllowed(members: seq<Member>, archiveSize: nat, limits: Limits) {
    archiveSize > 0 ==>
      ExtractedBytes(members) as real / archiveSize as real <= limits.maxCompressionRatio
  }

  /** _inspect_archive raises nothing. */
  predicate Inspectable(members: seq<Member>, archiveSize: nat, limits: Limits) {
    && |members| <= limits.maxMembers
    && MembersAllowed(members)
    && NamesWithinLimit(members, limits)
    && ExtractedBytes(members) <= limits.maxExtractedBytes
    && RatioAllowed(members, archiveSize, limits)
  }

  method InspectArchive(members: seq<Member>, archiveSize: nat, limits: Limits) returns (r: Inspection)
    ensures r.Inspected? <==> Inspectable(members, archiveSize, limits)
    ensures r.Inspected? ==> r.files == Files(members)
    ensures r == Rejected(MemberLimitExceeded) <==> |members| > limits.maxMembers
    ensures r == Rejected(ArchiveUnsafe) ==> !MembersAllowed(members) || !NamesWithinLimit(members, limits)
    ensures r == Rejected(ExtractedSizeExceeded) ==> ExtractedBytes(members) > limits.maxExtractedBytes
    ensures r == Rejected(CompressionRatioExceeded) <==>
            && |members| <= limits.maxMembers && MembersAllowed(members) && NamesWithinLimit(members, limits)
            && ExtractedBytes(members) <= limits.maxExtractedBytes && !RatioAllowed(members, archiveSize, limits)
  {
    hide MembersAllowed;
    hide NamesWithinLimit;
    hide ExtractedBytes;
    hide Files;
    if |members| > limits.maxMembers {
      return Rejected(MemberLimitExceeded);
    }
    var allowed := ValidateArchiveMembers(members);
    if !allowed {
      return Rejected(ArchiveUnsafe);
    }
    r := ReadMembers(members, limits);
    if r.Inspected? && archiveSize > 0
       && ExtractedBytes(members) as real / archiveSize as real > limits.maxCompressionRatio {
      return Rejected(CompressionRatioExceeded);
    }
  }

  lemma FileNameIsNormalized(m: Member)
    ensures m.kind.File? ==> Normalized(m) == m.name
  {
  }

  lemma OneMoreRead(members: seq<Member>, k: nat)
    requires k < |members|
    ensures var m := members[k];
            && Files(members[..k + 1]) ==
               (if m.kind.File? then Files(members[..k])[m.name := m.kind.content] else Files(members[..k]))
            && ExtractedBytes(members[..k + 1]) ==
               ExtractedBytes(members[..k]) + (if m.kind.File? then |m.kind.content| else 0)
            && ExtractedBytes(members[..k + 1]) <= ExtractedBytes(members)
  {
    assert members[..k + 1][..k] == members[..k];
    ExtractedBytesGrow(members, k + 1);
  }

  lemma NothingRead(members: seq<Member>)
    ensures Files(members[..0]) == map[] && ExtractedBytes(members[..0]) == 0
    ensures members[..|members|] == members
  {
  }

  /** The second pass of _inspect_archive: full name check, running size limit, file table. */
  method ReadMembers(members: seq<Member>, limits: Limits) returns (r: Inspection)
    requires MembersAllowed(members)
    ensures r.Inspected? <==>
            NamesWithinLimit(members, limits) && ExtractedBytes(members) <= limits.maxExtractedBytes
    ensures r.Inspected? ==> r.files == Files(members)
    ensures r.Rejected? ==> r.error == ArchiveUnsafe || r.error == ExtractedSizeExceeded
    ensures r == Rejected(ArchiveUnsafe) ==> !NamesWithinLimit(members, limits)
    ensures r == Rejected(ExtractedSizeExceeded) ==> ExtractedBytes(members) > limits.maxExtractedBytes
  {
    hide SafeName;
    hide MembersAllowed;
    hide Normalized;
    hide Files;
    hide ExtractedBytes;
    NothingRead(members);
    var files: map<string, string> := map[];
    var total := 0;
    for k := 0 to |members|
      invariant forall i :: 0 <= i < k ==> SafeName(Normalized(members[i]), limits.maxPathBytes)
      invariant files == Files(members[..k])
      invariant total == ExtractedBytes(members[..k]) <= limits.maxExtractedBytes
    {
      var member := members[k];
      OneMoreRead(members, k);
      FileNameIsNormalized(member);
      var normalized := Normalized(member);
      if !SafeName(normalized, limits.maxPathBytes) {
        return Rejected(ArchiveUnsafe);
      }
      if member.kind.File? {
        total := total + |member.kind.content|;
        if total > limits.maxExtractedBytes {
          return Rejected(ExtractedSizeExceeded);
        }
        files := files[normalized := member.kind.content];
      }
    }
    return Inspected(files);
  }

  /** Every file of an allowed archive has a canonical name, and payload files lie in the layout. */
  lemma FilesAreCanonical(members: seq<Member>)
    requires MembersAllowed(members)
    ensures forall p :: p in Files(members) && p !in CRITICAL_FILES ==> Canonical(p) && InPayloadLayout(p)
  {
  }

  /** Distinct names make the file map exact: each file keeps its own content. */
  lemma {:induction false} FileContents(members: seq<Member>)
    requires DistinctNames(members)
    ensures forall i :: 0 <= i < |members| && members[i].kind.File? ==>
              members[i].name in Files(members) && Files(members)[members[i].name] == members[i].kind.content
  {
    if members != [] {
      var n := |members| - 1;
      FileContents(members[..n]);
      forall i | 0 <= i < |members| && members[i].kind.File?
        ensures members[i].name in Files(members) && Files(members)[members[i].name] == members[i].kind.content
      {
        if i < n {
          assert members[..n][i] == members[i];
          assert Normalized(members[i]) == members[i].name;
        }
      }
    }
  }
}
