/** Mapping a verified manifest to TARGET coordinates: planning, collisions, identity, projection. */
module DestinationPlan {
  import opened BundleManifest
  import opened PosixPath

  datatype ArtifactType = ImageType | ChartType | OtherType

  /** One artifact of the verified preview. */
  datatype PreviewItem = PreviewItem(
    index: nat, kind: ArtifactType, repository: string, name: Option<string>, reference: Option<string>,
    version: Option<string>, expectedDigest: Option<string>, payloadSize: nat)

  datatype Mapping = Mapping(
    overrides: map<nat, string>, projects: map<string, string>,
    imageProject: Option<string>, chartProject: Option<string>)

  datatype TargetState = Absent | SameDigest | ConflictingDigest | Present

  /** What TARGET answers about one destination; an inspection error has no inspection. */
  datatype Inspection = Inspection(state: TargetState, digest: Option<string>)
  datatype Observation = Observation(projectExists: bool, writeAllowed: bool, inspection: Option<Inspection>)

  datatype Classification = New | Same | Conflict | Unknown | Error

  datatype PlanError =
    | RepositoryInvalid | Unmapped | ProjectInvalid | ReferenceInvalid | ValidationFailed | InspectionFailed | Collision

  /** What the plan decides about an artifact, whatever TARGET answers. */
  datatype Identity = Identity(
    index: nat, kind: ArtifactType, sourceRepository: string, sourceProject: string, name: Option<string>,
    reference: Option<string>, version: Option<string>, expectedDigest: Option<string>,
    targetProject: Option<string>, targetRepository: Option<string>, finalReference: Option<string>)

  datatype PlannedArtifact = PlannedArtifact(
    identity: Identity, payloadSize: nat, projectExists: bool, writeAllowed: bool,
    targetDigest: Option<string>, classification: Classification, error: Option<PlanError>)

  predicate IsLowerAlnum(c: char) {
    'a' <= c <= 'z' || '0' <= c <= '9'
  }

  predicate IsSeparator(c: char) {
    c == '.' || c == '_' || c == '-'
  }

  /** [a-z0-9]+(?:[._-][a-z0-9]+)* */
  predicate IsComponent(s: string) {
    && s != "" && IsLowerAlnum(s[0]) && IsLowerAlnum(s[|s| - 1])
    && (forall i :: 0 <= i < |s| ==> IsLowerAlnum(s[i]) || IsSeparator(s[i]))
    && forall i :: 0 <= i < |s| - 1 ==> !(IsSeparator(s[i]) && IsSeparator(s[i + 1]))
  }

  /** A normalized repository path: components joined by "/". */
  predicate IsRepository(s: string) {
    forall i :: 0 <= i < |Split(s)| ==> IsComponent(Split(s)[i])
  }

  predicate IsTagChar(c: char) {
    'a' <= c <= 'z' || 'A' <= c <= 'Z' || '0' <= c <= '9' || c == '_' || c == '.' || c == '-'
  }

  predicate IsTag(s: string) {
    && 1 <= |s| <= 128 && s[0] != '.' && s[0] != '-'
    && forall i :: 0 <= i < |s| ==> IsTagChar(s[i])
  }

  predicate IsVersion(s: string) {
    && 1 <= |s| <= 128 && IsTagChar(s[0]) && s[0] != '.' && s[0] != '-' && s[0] != '_'
    && forall i :: 0 <= i < |s| ==> IsTagChar(s[i]) || s[i] == '+'
  }

  /** ImageReference accepts the pair. */
  predicate ImageReferenceOk(repository: string, reference: string) {
    IsRepository(repository) && (IsTag(reference) || IsOciDigest(reference))
  }

  /** HelmChartReference accepts the triple. */
  predicate ChartReferenceOk(repository: string, name: string, version: string) {
    IsRepository(repository) && IsComponent(name) && IsVersion(version)
  }

  function SourceProject(repository: string): string {
    Split(repository)[0]
  }

  /** "/".join(components[1:]) */
  function Suffix(repository: string): string {
    Join(Split(repository)[1..])
  }

  function TargetRepository(project: string, repository: string): string {
    project + if Suffix(repository) == "" then "" else "/" + Suffix(repository)
  }

  /** overrides.get(index) or project_mappings.get(source) or the default for the artifact type. */
  function TargetProject(item: PreviewItem, mapping: Mapping): Option<string> {
    var source := SourceProject(item.repository);
    if item.index in mapping.overrides && mapping.overrides[item.index] != "" then Some(mapping.overrides[item.index])
    else if source in mapping.projects then Some(mapping.projects[source])
    else
      match item.kind
      case ImageType => mapping.imageProject
      case ChartType => mapping.chartProject
      case OtherType => None
  }

  function ImageDisplay(host: string, repository: string, reference: string): string {
    var separator := if |reference| >= 7 && reference[..7] == "sha256:" then "@" else ":";
    host + "/" + repository + separator + reference
  }

  function ChartDisplay(host: string, repository: string, name: string, version: string): string {
    "oci://" + host + "/" + repository + "/" + name + ":" + version
  }

  function Classify(state: TargetState): Classification {
    match state
    case Absent => New
    case SameDigest => Same
    case ConflictingDigest => Conflict
    case Present => Unknown
  }

  /** The last steps of _plan_image and _plan_chart: capability, then inspection. */
  function Observed(identity: Identity, size: nat, seen: Observation): (p: PlannedArtifact)
    ensures p.identity == identity && p.payloadSize == size
  {
    if !(seen.projectExists && seen.writeAllowed) then
      PlannedArtifact(identity, size, seen.projectExists, seen.writeAllowed, None, Error, Some(ValidationFailed))
    else
      match seen.inspection
      case None => PlannedArtifact(identity, size, true, true, None, Error, Some(InspectionFailed))
      case Some(Inspection(state, digest)) =>
        PlannedArtifact(identity, size, true, true, digest, Classify(state), None)
  }

  function Refused(identity: Identity, size: nat, error: PlanError): (p: PlannedArtifact)
    ensures p.identity == identity && p.payloadSize == size
  {
    PlannedArtifact(identity, size, false, false, None, Error, Some(error))
  }

  /** _plan_artifact */
  function PlanArtifact(item: PreviewItem, mapping: Mapping, host: string, seen: Observation): PlannedArtifact {
    var base := Identity(
      item.index, item.kind, item.repository, SourceProject(item.repository), item.name, item.reference,
      item.version, item.expectedDigest, None, None, None);
    if !IsRepository(item.repository) then Refused(base, item.payloadSize, RepositoryInvalid)
    else
      match TargetProject(item, mapping)
      case None => Refused(base, item.payloadSize, Unmapped)
      case Some(project) =>
        var mapped := base.(targetProject := Some(project));
        if !IsComponent(project) then Refused(mapped, item.payloadSize, ProjectInvalid)
        else
          var repository := TargetRepository(project, item.repository);
          var placed := mapped.(targetRepository := Some(repository));
          match item.kind
          case ImageType =>
            if item.reference.None? || !ImageReferenceOk(repository, item.reference.value) then
              Refused(placed, item.payloadSize, ReferenceInvalid)
            else
              Observed(placed.(finalReference := Some(ImageDisplay(host, repository, item.reference.value))),
                       item.payloadSize, seen)
          case ChartType =>
            if item.name.None? || item.version.None? ||
               !ChartReferenceOk(repository, item.name.value, item.version.value) then
              Refused(placed, item.payloadSize, ReferenceInvalid)
            else
              Observed(
                placed.(finalReference := Some(ChartDisplay(host, repository, item.name.value, item.version.value))),
                item.payloadSize, seen)
          case OtherType => Refused(placed, item.payloadSize, ReferenceInvalid)
  }

  /** The registry repository and reference an artifact's import writes. */
  datatype Coordinate = Coordinate(repository: string, reference: string)

  /** _registry_coordinate */
  function CoordinateOf(a: PlannedArtifact): Option<Coordinate> {
    var id := a.identity;
    if id.targetRepository.None? then None
    else
      match id.kind
      case ImageType =>
        if id.reference.None? then None else Some(Coordinate(id.targetRepository.value, id.reference.value))
      case ChartType =>
        if id.name.None? || id.version.None? then None
        else Some(Coordinate(id.targetRepository.value + "/" + id.name.value, id.version.value))
      case OtherType => None
  }

  /** Two different positions of the plan share a coordinate. */
  ghost predicate SharesCoordinate(artifacts: seq<PlannedArtifact>, i: nat)
    requires i < |artifacts|
  {
    CoordinateOf(artifacts[i]).Some? &&
    exists j :: 0 <= j < |artifacts| && j != i && CoordinateOf(artifacts[j]) == CoordinateOf(artifacts[i])
  }

  /** The indices listed under a coordinate after the first k artifacts, in order. */
  ghost function Listed(artifacts: seq<PlannedArtifact>, c: Coordinate): seq<nat> {
    if artifacts == [] then []
    else
      var last := artifacts[|artifacts| - 1];
      Listed(artifacts[..|artifacts| - 1], c) +
      if CoordinateOf(last) == Some(c) then [last.identity.index] else []
  }

  lemma {:induction false} ListedHas(artifacts: seq<PlannedArtifact>, c: Coordinate, i: nat)
    requires i < |artifacts| && CoordinateOf(artifacts[i]) == Some(c)
    ensures |Listed(artifacts, c)| >= 1 && artifacts[i].identity.index in Listed(artifacts, c)
  {
    var n := |artifacts| - 1;
    if i < n {
      ListedHas(artifacts[..n], c, i);
    }
  }

  lemma {:induction false} ListedComesFrom(artifacts: seq<PlannedArtifact>, c: Coordinate, index: nat)
    requires index in Listed(artifacts, c)
    ensures exists i ::
              0 <= i < |artifacts| && CoordinateOf(artifacts[i]) == Some(c) && artifacts[i].identity.index == index
  {
    var n := |artifacts| - 1;
    if index in Listed(artifacts[..n], c) {
      ListedComesFrom(artifacts[..n], c, index);
      var i :| 0 <= i < n && CoordinateOf(artifacts[..n][i]) == Some(c) && artifacts[..n][i].identity.index == index;
      assert artifacts[i].identity.index == index;
    } else {
      assert artifacts[n].identity.index == index;
    }
  }

  /** Two positions write this coordinate. */
  ghost predicate WrittenTwice(artifacts: seq<PlannedArtifact>, c: Coordinate) {
    exists i, j :: 0 <= i < j < |artifacts| && CoordinateOf(artifacts[i]) == CoordinateOf(artifacts[j]) == Some(c)
  }

  ghost predicate WrittenOnce(artifacts: seq<PlannedArtifact>, c: Coordinate) {
    exists i :: 0 <= i < |artifacts| && CoordinateOf(artifacts[i]) == Some(c)
  }

  lemma WrittenLast(artifacts: seq<PlannedArtifact>, c: Coordinate)
    requires artifacts != []
    ensures var n := |artifacts| - 1;
            WrittenTwice(artifacts, c) <==>
            WrittenTwice(artifacts[..n], c) || (WrittenOnce(artifacts[..n], c) && CoordinateOf(artifacts[n]) == Some(c))
  {
    hide CoordinateOf;
    var n := |artifacts| - 1;
    var before := artifacts[..n];
    if WrittenTwice(artifacts, c) {
      var i, j :| 0 <= i < j < |artifacts| && CoordinateOf(artifacts[i]) == CoordinateOf(artifacts[j]) == Some(c);
      assert before[i] == artifacts[i];
      assert j < n ==> before[j] == artifacts[j];
    }
    if WrittenTwice(before, c) {
      var i, j :| 0 <= i < j < |before| && CoordinateOf(before[i]) == CoordinateOf(before[j]) == Some(c);
      assert CoordinateOf(artifacts[i]) == CoordinateOf(artifacts[j]) == Some(c);
    }
    if WrittenOnce(before, c) && CoordinateOf(artifacts[n]) == Some(c) {
      var i :| 0 <= i < n && CoordinateOf(before[i]) == Some(c);
      assert CoordinateOf(artifacts[i]) == CoordinateOf(artifacts[n]) == Some(c);
    }
  }

  lemma ListedOnce(artifacts: seq<PlannedArtifact>, c: Coordinate)
    ensures |Listed(artifacts, c)| >= 1 <==> WrittenOnce(artifacts, c)
  {
    hide CoordinateOf;
    if WrittenOnce(artifacts, c) {
      var i :| 0 <= i < |artifacts| && CoordinateOf(artifacts[i]) == Some(c);
      ListedHas(artifacts, c, i);
    }
    if |Listed(artifacts, c)| >= 1 {
      ListedComesFrom(artifacts, c, Listed(artifacts, c)[0]);
    }
  }

  /** Two are listed under a coordinate exactly when two positions write it. */
  lemma {:induction false} ListedTwice(artifacts: seq<PlannedArtifact>, c: Coordinate)
    ensures |Listed(artifacts, c)| > 1 <==> WrittenTwice(artifacts, c)
  {
    if artifacts != [] {
      hide CoordinateOf;
      hide WrittenTwice;
      hide WrittenOnce;
      ListedTwice(artifacts[..|artifacts| - 1], c);
      ListedOnce(artifacts[..|artifacts| - 1], c);
      WrittenLast(artifacts, c);
    }
  }

  /** colliding_artifact_indices */
  method CollidingIndices(artifacts: seq<PlannedArtifact>) returns (r: set<nat>)
    ensures forall index :: index in r <==>
              exists i :: 0 <= i < |artifacts| && SharesCoordinate(artifacts, i) && artifacts[i].identity.index == index
  {
    hide CoordinateOf;
    var destinations: map<Coordinate, seq<nat>> := map[];
    for k := 0 to |artifacts|
      invariant forall c :: c in destinations <==> Listed(artifacts[..k], c) != []
      invariant forall c :: c in destinations ==> destinations[c] == Listed(artifacts[..k], c)
    {
      assert artifacts[..k + 1][..k] == artifacts[..k];
      var coordinate := CoordinateOf(artifacts[k]);
      if coordinate.Some? {
        var before := if coordinate.value in destinations then destinations[coordinate.value] else [];
        destinations := destinations[coordinate.value := before + [artifacts[k].identity.index]];
      }
    }
    assert artifacts[..|artifacts|] == artifacts;
    r := set c, index | c in destinations && |destinations[c]| > 1 && index in destinations[c] :: index;
    forall index
      ensures index in r <==>
              exists i :: 0 <= i < |artifacts| && SharesCoordinate(artifacts, i) && artifacts[i].identity.index == index
    {
      if index in r {
        var c :| c in destinations && |destinations[c]| > 1 && index in destinations[c];
        SharedWhenListedTwice(artifacts, c, index);
      }
      if i :| 0 <= i < |artifacts| && SharesCoordinate(artifacts, i) && artifacts[i].identity.index == index {
        var c := CoordinateOf(artifacts[i]).value;
        ListedHas(artifacts, c, i);
        ListedTwice(artifacts, c);
        var j :| 0 <= j < |artifacts| && j != i && CoordinateOf(artifacts[j]) == CoordinateOf(artifacts[i]);
        var low, high := if i < j then i else j, if i < j then j else i;
        assert CoordinateOf(artifacts[low]) == CoordinateOf(artifacts[high]) == Some(c);
      }
    }
  }

  lemma SharedWhenListedTwice(artifacts: seq<PlannedArtifact>, c: Coordinate, index: nat)
    requires |Listed(artifacts, c)| > 1 && index in Listed(artifacts, c)
    ensures exists i :: 0 <= i < |artifacts| && SharesCoordinate(artifacts, i) && artifacts[i].identity.index == index
  {
    hide CoordinateOf;
    ListedComesFrom(artifacts, c, index);
    ListedTwice(artifacts, c);
    var i :| 0 <= i < |artifacts| && CoordinateOf(artifacts[i]) == Some(c) && artifacts[i].identity.index == index;
    var a, b :| 0 <= a < b < |artifacts| && CoordinateOf(artifacts[a]) == CoordinateOf(artifacts[b]) == Some(c);
    var j := if i == a then b else a;
    assert CoordinateOf(artifacts[j]) == CoordinateOf(artifacts[i]);
  }

  datatype Plan = Plan(bundleSha256: string, artifacts: seq<PlannedArtifact>, valid: bool)

  /** The plan before collisions are marked. */
  function Planned(
    items: seq<PreviewItem>, mapping: Mapping, host: string, seen: seq<Observation>): (r: seq<PlannedArtifact>)
    requires |items| == |seen|
    ensures |r| == |items|
  {
    seq(|items|, i requires 0 <= i < |items| => PlanArtifact(items[i], mapping, host, seen[i]))
  }

  function WithCollision(a: PlannedArtifact): PlannedArtifact {
    a.(classification := Error, error := Some(Collision))
  }

  /** Some artifact that shares a coordinate carries this artifact's index. */
  ghost predicate Marked(artifacts: seq<PlannedArtifact>, i: nat)
    requires i < |artifacts|
  {
    exists j :: 0 <= j < |artifacts| && SharesCoordinate(artifacts, j) &&
                artifacts[j].identity.index == artifacts[i].identity.index
  }

  predicate Importable(a: PlannedArtifact) {
    a.projectExists && a.writeAllowed && (a.classification.New? || a.classification.Same? || a.classification.Conflict?)
  }

  ghost predicate IsPlan(plan: Plan, planned: seq<PlannedArtifact>) {
    && |plan.artifacts| == |planned|
    && (forall i :: 0 <= i < |planned| ==>
          plan.artifacts[i] == if Marked(planned, i) then WithCollision(planned[i]) else planned[i])
    && (plan.valid <==> forall i :: 0 <= i < |planned| ==> Importable(plan.artifacts[i]))
  }

  /**
    The project an artifact goes to, rule by rule: a non-empty override for its index; else what its source
    project is mapped to; else the default for its type.
   */
  ghost predicate ProjectByRule(item: PreviewItem, mapping: Mapping, project: Option<string>) {
    var overridden := item.index in mapping.overrides && mapping.overrides[item.index] != "";
    var source := Split(item.repository)[0];
    && (overridden ==> project == Some(mapping.overrides[item.index]))
    && (!overridden && source in mapping.projects ==> project == Some(mapping.projects[source]))
    && (!overridden && source !in mapping.projects ==>
        && (item.kind == ImageType ==> project == mapping.imageProject)
        && (item.kind == ChartType ==> project == mapping.chartProject)
        && (item.kind == OtherType ==> project == None))
  }

  /** What the plan copies from the preview. */
  ghost predicate CopiesItem(item: PreviewItem, p: PlannedArtifact) {
    && p.identity.index == item.index && p.identity.kind == item.kind
    && p.identity.sourceRepository == item.repository && p.identity.sourceProject == Split(item.repository)[0]
    && p.identity.name == item.name && p.identity.reference == item.reference && p.identity.version == item.version
    && p.identity.expectedDigest == item.expectedDigest && p.payloadSize == item.payloadSize
  }

  /** Where the plan puts an artifact: no project without a valid source, no repository without a valid project. */
  ghost predicate PlacedByRule(item: PreviewItem, mapping: Mapping, p: PlannedArtifact) {
    var id := p.identity;
    && (!IsRepository(item.repository) ==> id.targetProject == None)
    && (IsRepository(item.repository) ==> ProjectByRule(item, mapping, id.targetProject))
    && (id.targetRepository.Some? <==> id.targetProject.Some? && IsComponent(id.targetProject.value))
    && (id.targetRepository.Some? ==>
        Split(id.targetRepository.value) == [id.targetProject.value] + Split(item.repository)[1..])
  }

  /** The reference under which TARGET is asked, when there is one. */
  ghost predicate Referable(item: PreviewItem, p: PlannedArtifact) {
    && p.identity.targetRepository.Some?
    && ((&& item.kind == ImageType && item.reference.Some?
         && ImageReferenceOk(p.identity.targetRepository.value, item.reference.value))
        || (&& item.kind == ChartType && item.name.Some? && item.version.Some?
            && ChartReferenceOk(p.identity.targetRepository.value, item.name.value, item.version.value)))
  }

  /** The displayed reference; a digest reference is joined with "@". */
  ghost predicate DisplayedByRule(item: PreviewItem, host: string, p: PlannedArtifact) {
    && (p.identity.finalReference.Some? <==> Referable(item, p))
    && (Referable(item, p) ==>
          var at := p.identity.targetRepository.value;
          && (item.kind == ChartType ==>
                p.identity.finalReference.value ==
                "oci://" + host + "/" + at + "/" + item.name.value + ":" + item.version.value)
          && (item.kind == ImageType && "sha256:" <= item.reference.value ==>
                p.identity.finalReference.value == host + "/" + at + "@" + item.reference.value)
          && (item.kind == ImageType && !("sha256:" <= item.reference.value) ==>
                p.identity.finalReference.value == host + "/" + at + ":" + item.reference.value))
  }

  /** What TARGET's answers make of it; only an artifact that can be referred to is asked about. */
  ghost predicate AnsweredByRule(item: PreviewItem, seen: Observation, p: PlannedArtifact) {
    var allowed := Referable(item, p) && seen.projectExists && seen.writeAllowed;
    && (!Referable(item, p) ==> !p.projectExists && !p.writeAllowed)
    && (Referable(item, p) ==> p.projectExists == seen.projectExists && p.writeAllowed == seen.writeAllowed)
    && (p.targetDigest == if allowed && seen.inspection.Some? then seen.inspection.value.digest else None)
    && (p.classification == New <==> allowed && seen.inspection.Some? && seen.inspection.value.state == Absent)
    && (p.classification == Same <==> allowed && seen.inspection.Some? && seen.inspection.value.state == SameDigest)
    && (p.classification == Conflict <==>
          allowed && seen.inspection.Some? && seen.inspection.value.state == ConflictingDigest)
    && (p.classification == Unknown <==> allowed && seen.inspection.Some? && seen.inspection.value.state == Present)
  }

  /** The error names the first check that failed, and there is one exactly when the classification is ERROR. */
  ghost predicate ErrorByRule(item: PreviewItem, seen: Observation, p: PlannedArtifact) {
    && (p.error.None? <==> p.classification != Error)
    && (p.error == Some(RepositoryInvalid) <==> !IsRepository(item.repository))
    && (p.error == Some(Unmapped) <==> IsRepository(item.repository) && p.identity.targetProject.None?)
    && (p.error == Some(ProjectInvalid) <==> p.identity.targetProject.Some? && p.identity.targetRepository.None?)
    && (p.error == Some(ReferenceInvalid) <==> p.identity.targetRepository.Some? && !Referable(item, p))
    && (p.error == Some(ValidationFailed) <==> Referable(item, p) && !(seen.projectExists && seen.writeAllowed))
    && (p.error == Some(InspectionFailed) <==>
          Referable(item, p) && seen.projectExists && seen.writeAllowed && seen.inspection.None?)
    && p.error != Some(Collision)
  }

  /** One artifact planned by the rules, collisions apart. */
  ghost predicate PlannedByRule(
    item: PreviewItem, mapping: Mapping, host: string, seen: Observation, p: PlannedArtifact)
  {
    && CopiesItem(item, p) && PlacedByRule(item, mapping, p) && DisplayedByRule(item, host, p)
    && AnsweredByRule(item, seen, p) && ErrorByRule(item, seen, p)
  }

  lemma PrefixOfDigest(s: string)
    ensures "sha256:" <= s <==> |s| >= 7 && s[..7] == "sha256:"
  {
  }

  lemma FollowsCopy(item: PreviewItem, mapping: Mapping, host: string, seen: Observation)
    ensures CopiesItem(item, PlanArtifact(item, mapping, host, seen))
  {
    hide Observed;
    hide Refused;
    hide IsRepository;
    hide ImageReferenceOk;
    hide ChartReferenceOk;
    hide IsComponent;
    hide TargetRepository;
    hide TargetProject;
    hide Split;
  }

  lemma PlanPlaces(item: PreviewItem, mapping: Mapping, host: string, seen: Observation)
    ensures var id, project := PlanArtifact(item, mapping, host, seen).identity, TargetProject(item, mapping);
            && id.targetProject == (if IsRepository(item.repository) then project else None)
            && id.targetRepository == (if id.targetProject.Some? && IsComponent(id.targetProject.value) then
                                         Some(TargetRepository(id.targetProject.value, item.repository)) else None)
  {
    hide Observed;
    hide Refused;
    hide IsRepository;
    hide ImageReferenceOk;
    hide ChartReferenceOk;
    hide IsComponent;
    hide TargetRepository;
    hide TargetProject;
    hide ImageDisplay;
    hide ChartDisplay;
    hide Split;
  }

  lemma FollowsPlace(item: PreviewItem, mapping: Mapping, host: string, seen: Observation)
    ensures PlacedByRule(item, mapping, PlanArtifact(item, mapping, host, seen))
  {
    var p := PlanArtifact(item, mapping, host, seen);
    PlanPlaces(item, mapping, host, seen);
    TargetFollowsRule(item, mapping);
    hide PlanArtifact;
    hide IsRepository;
    hide IsComponent;
    hide TargetProject;
    hide ProjectByRule;
    if p.identity.targetRepository.Some? {
      TargetSplits(p.identity.targetProject.value, item.repository);
    }
    hide TargetRepository;
    hide Split;
  }

  lemma TargetFollowsRule(item: PreviewItem, mapping: Mapping)
    ensures ProjectByRule(item, mapping, TargetProject(item, mapping))
  {
    hide Split;
  }

  lemma PlanDisplays(item: PreviewItem, mapping: Mapping, host: string, seen: Observation)
    ensures var p := PlanArtifact(item, mapping, host, seen);
            p.identity.finalReference ==
            if !Referable(item, p) then None
            else if item.kind == ImageType then
              Some(ImageDisplay(host, p.identity.targetRepository.value, item.reference.value))
            else Some(ChartDisplay(host, p.identity.targetRepository.value, item.name.value, item.version.value))
  {
    hide Observed;
    hide Refused;
    hide IsRepository;
    hide ImageReferenceOk;
    hide ChartReferenceOk;
    hide IsComponent;
    hide TargetRepository;
    hide TargetProject;
    hide ImageDisplay;
    hide ChartDisplay;
    hide Split;
  }

  lemma FollowsDisplay(item: PreviewItem, mapping: Mapping, host: string, seen: Observation)
    ensures DisplayedByRule(item, host, PlanArtifact(item, mapping, host, seen))
  {
    PlanDisplays(item, mapping, host, seen);
    hide PlanArtifact;
    hide ImageReferenceOk;
    hide ChartReferenceOk;
    if item.reference.Some? {
      PrefixOfDigest(item.reference.value);
    }
  }

  lemma FollowsAnswer(item: PreviewItem, mapping: Mapping, host: string, seen: Observation)
    ensures AnsweredByRule(item, seen, PlanArtifact(item, mapping, host, seen))
  {
    hide IsRepository;
    hide ImageReferenceOk;
    hide ChartReferenceOk;
    hide IsComponent;
    hide TargetRepository;
    hide TargetProject;
    hide Split;
    hide ImageDisplay;
    hide ChartDisplay;
  }

  lemma FollowsError(item: PreviewItem, mapping: Mapping, host: string, seen: Observation)
    ensures ErrorByRule(item, seen, PlanArtifact(item, mapping, host, seen))
  {
    hide IsRepository;
    hide ImageReferenceOk;
    hide ChartReferenceOk;
    hide IsComponent;
    hide TargetRepository;
    hide TargetProject;
    hide Split;
    hide ImageDisplay;
    hide ChartDisplay;
  }

  /** The planner follows the rules. */
  lemma FollowsRules(item: PreviewItem, mapping: Mapping, host: string, seen: Observation)
    ensures PlannedByRule(item, mapping, host, seen, PlanArtifact(item, mapping, host, seen))
  {
    FollowsCopy(item, mapping, host, seen);
    FollowsPlace(item, mapping, host, seen);
    FollowsDisplay(item, mapping, host, seen);
    FollowsAnswer(item, mapping, host, seen);
    FollowsError(item, mapping, host, seen);
    hide PlanArtifact;
    hide CopiesItem;
    hide PlacedByRule;
    hide DisplayedByRule;
    hide AnsweredByRule;
    hide ErrorByRule;
  }

  /** What a collision leaves of the rules: everything but classification and error. */
  ghost predicate CollidedByRule(item: PreviewItem, mapping: Mapping, host: string, p: PlannedArtifact) {
    && CopiesItem(item, p) && PlacedByRule(item, mapping, p) && DisplayedByRule(item, host, p)
    && p.classification == Error && p.error == Some(Collision)
  }

  lemma CollisionKeepsPlace(item: PreviewItem, mapping: Mapping, host: string, seen: Observation, p: PlannedArtifact)
    requires PlannedByRule(item, mapping, host, seen, p)
    ensures p.error != Some(Collision) && CollidedByRule(item, mapping, host, WithCollision(p))
  {
    hide IsRepository;
    hide ImageReferenceOk;
    hide ChartReferenceOk;
    hide IsComponent;
    hide ProjectByRule;
    hide Split;
  }

  /** The default for charts is no concern of an image's, nor the other way round. */
  lemma DefaultsAreApart(item: PreviewItem, mapping: Mapping, host: string, seen: Observation, other: Option<string>)
    ensures item.kind == ImageType ==>
              PlanArtifact(item, mapping.(chartProject := other), host, seen) == PlanArtifact(item, mapping, host, seen)
    ensures item.kind == ChartType ==>
              PlanArtifact(item, mapping.(imageProject := other), host, seen) == PlanArtifact(item, mapping, host, seen)
  {
    hide IsRepository;
    hide ImageReferenceOk;
    hide ChartReferenceOk;
    hide IsComponent;
    hide TargetRepository;
  }

  /** An override moves the artifact of its index and no other. */
  lemma OverrideIsLocal(
    item: PreviewItem, mapping: Mapping, host: string, seen: Observation, index: nat, project: string)
    ensures var moved := PlanArtifact(item, mapping.(overrides := mapping.overrides[index := project]), host, seen);
            && (item.index != index ==> moved == PlanArtifact(item, mapping, host, seen))
            && (item.index == index && project != "" && IsRepository(item.repository) ==>
                moved.identity.targetProject == Some(project))
  {
    hide IsRepository;
    hide ImageReferenceOk;
    hide ChartReferenceOk;
    hide IsComponent;
    hide TargetRepository;
  }

  /** _build_destination_plan, from the answers TARGET gave */
  method BuildPlan(
    bundleSha256: string, items: seq<PreviewItem>, mapping: Mapping, host: string, seen: seq<Observation>)
    returns (plan: Plan)
    requires |items| == |seen|
    ensures plan.bundleSha256 == bundleSha256 && IsPlan(plan, Planned(items, mapping, host, seen))
    ensures |plan.artifacts| == |items|
    ensures forall i :: 0 <= i < |items| ==>
              if plan.artifacts[i].error == Some(Collision) then
                CollidedByRule(items[i], mapping, host, plan.artifacts[i])
              else PlannedByRule(items[i], mapping, host, seen[i], plan.artifacts[i])
    ensures plan.valid <==> forall i :: 0 <= i < |items| ==>
              && plan.artifacts[i].projectExists && plan.artifacts[i].writeAllowed
              && plan.artifacts[i].classification in {New, Same, Conflict}
  {
    hide PlanArtifact;
    hide SharesCoordinate;
    var planned: seq<PlannedArtifact> := [];
    for k := 0 to |items|
      invariant |planned| == k
      invariant forall i :: 0 <= i < k ==> planned[i] == PlanArtifact(items[i], mapping, host, seen[i])
    {
      planned := planned + [PlanArtifact(items[k], mapping, host, seen[k])];
    }
    assert planned == Planned(items, mapping, host, seen);
    var collisions := CollidingIndices(planned);
    var artifacts := seq(|planned|, i requires 0 <= i < |planned| =>
      if planned[i].identity.index in collisions then WithCollision(planned[i]) else planned[i]);
    forall i | 0 <= i < |planned|
      ensures planned[i].identity.index in collisions <==> Marked(planned, i)
    {
    }
    var valid := forall i :: 0 <= i < |artifacts| ==> Importable(artifacts[i]);
    plan := Plan(bundleSha256, artifacts, valid);
    forall i | 0 <= i < |items|
      ensures if plan.artifacts[i].error == Some(Collision) then
                CollidedByRule(items[i], mapping, host, plan.artifacts[i])
              else PlannedByRule(items[i], mapping, host, seen[i], plan.artifacts[i])
    {
      FollowsRules(items[i], mapping, host, seen[i]);
      CollisionKeepsPlace(items[i], mapping, host, seen[i], planned[i]);
    }
  }

  lemma IndexAndError(item: PreviewItem, mapping: Mapping, host: string, seen: Observation)
    ensures var p := PlanArtifact(item, mapping, host, seen);
            && p.identity.index == item.index && p.error != Some(Collision)
            && CoordinateOf(WithCollision(p)) == CoordinateOf(p)
  {
    FollowsCopy(item, mapping, host, seen);
    FollowsError(item, mapping, host, seen);
    hide PlanArtifact;
    hide IsRepository;
    hide Referable;
    hide Split;
  }

  /** With indices as given by the preview, exactly the artifacts that share a coordinate are collisions. */
  lemma CollisionIff(
    plan: Plan, items: seq<PreviewItem>, mapping: Mapping, host: string, seen: seq<Observation>, i: nat)
    requires |items| == |seen| && IsPlan(plan, Planned(items, mapping, host, seen)) && i < |items|
    requires forall j :: 0 <= j < |items| ==> items[j].index == j
    ensures |plan.artifacts| == |items|
    ensures plan.artifacts[i].error == Some(Collision) <==>
            exists j :: 0 <= j < |items| && j != i && CoordinateOf(plan.artifacts[i]).Some? &&
                        CoordinateOf(plan.artifacts[j]) == CoordinateOf(plan.artifacts[i])
  {
    var planned := Planned(items, mapping, host, seen);
    hide PlanArtifact;
    hide CoordinateOf;
    forall j | 0 <= j < |items|
      ensures planned[j].identity.index == j && planned[j].error != Some(Collision)
      ensures CoordinateOf(plan.artifacts[j]) == CoordinateOf(planned[j])
    {
      IndexAndError(items[j], mapping, host, seen[j]);
    }
  }

  ghost predicate DistinctCoordinates(artifacts: seq<PlannedArtifact>) {
    && (forall i :: 0 <= i < |artifacts| ==> CoordinateOf(artifacts[i]).Some?)
    && forall i, j :: 0 <= i < j < |artifacts| ==> CoordinateOf(artifacts[i]) != CoordinateOf(artifacts[j])
  }

  lemma ImportableHasCoordinate(item: PreviewItem, mapping: Mapping, host: string, seen: Observation)
    requires Importable(PlanArtifact(item, mapping, host, seen))
    ensures CoordinateOf(PlanArtifact(item, mapping, host, seen)).Some?
  {
    hide IsRepository;
    hide ImageReferenceOk;
    hide ChartReferenceOk;
    hide IsComponent;
  }

  /** Nothing shared, nothing marked; something shared, at least that one marked. */
  lemma SharedAreMarked(planned: seq<PlannedArtifact>)
    ensures (forall i :: 0 <= i < |planned| ==> !Marked(planned, i)) <==>
            forall i :: 0 <= i < |planned| ==> !SharesCoordinate(planned, i)
  {
    hide CoordinateOf;
    forall i | 0 <= i < |planned|
      ensures SharesCoordinate(planned, i) ==> Marked(planned, i)
    {
    }
  }

  lemma NothingShared(planned: seq<PlannedArtifact>)
    requires forall i :: 0 <= i < |planned| ==> CoordinateOf(planned[i]).Some?
    ensures DistinctCoordinates(planned) <==> forall i :: 0 <= i < |planned| ==> !SharesCoordinate(planned, i)
  {
    hide CoordinateOf;
    if forall i :: 0 <= i < |planned| ==> !SharesCoordinate(planned, i) {
      forall i, j | 0 <= i < j < |planned|
        ensures CoordinateOf(planned[i]) != CoordinateOf(planned[j])
      {
        assert !SharesCoordinate(planned, i);
      }
    }
  }

  lemma MarkingKeepsCoordinates(plan: Plan, planned: seq<PlannedArtifact>)
    requires IsPlan(plan, planned)
    ensures DistinctCoordinates(plan.artifacts) <==> DistinctCoordinates(planned)
  {
    hide Marked;
    assert forall i :: 0 <= i < |planned| ==> CoordinateOf(plan.artifacts[i]) == CoordinateOf(planned[i]);
    hide CoordinateOf;
  }

  lemma ValidIffUnmarked(plan: Plan, planned: seq<PlannedArtifact>)
    requires IsPlan(plan, planned)
    ensures plan.valid <==> forall i :: 0 <= i < |planned| ==> Importable(planned[i]) && !Marked(planned, i)
  {
    hide Marked;
    forall i | 0 <= i < |planned|
      ensures Importable(plan.artifacts[i]) <==> Importable(planned[i]) && !Marked(planned, i)
    {
    }
  }

  /**
    A plan is valid exactly when every artifact is importable on its own and all registry coordinates
    are pairwise different, across images and charts.
   */
  lemma ValidIffDistinct(
    plan: Plan, items: seq<PreviewItem>, mapping: Mapping, host: string, seen: seq<Observation>)
    requires |items| == |seen| && IsPlan(plan, Planned(items, mapping, host, seen))
    ensures plan.valid <==>
            && DistinctCoordinates(plan.artifacts)
            && forall i :: 0 <= i < |items| ==> Importable(PlanArtifact(items[i], mapping, host, seen[i]))
  {
    hide IsPlan;
    hide PlanArtifact;
    hide DistinctCoordinates;
    hide SharesCoordinate;
    hide Marked;
    hide CoordinateOf;
    hide Importable;
    var planned := Planned(items, mapping, host, seen);
    ValidIffUnmarked(plan, planned);
    MarkingKeepsCoordinates(plan, planned);
    SharedAreMarked(planned);
    if forall i :: 0 <= i < |items| ==> Importable(PlanArtifact(items[i], mapping, host, seen[i])) {
      forall i | 0 <= i < |planned|
        ensures CoordinateOf(planned[i]).Some? && Importable(planned[i])
      {
        ImportableHasCoordinate(items[i], mapping, host, seen[i]);
      }
      NothingShared(planned);
    } else {
      var i :| 0 <= i < |items| && !Importable(PlanArtifact(items[i], mapping, host, seen[i]));
      assert planned[i] == PlanArtifact(items[i], mapping, host, seen[i]);
    }
  }

  /** The part of PlanArtifact that no TARGET answer can change. */
  ghost function IdentityOf(item: PreviewItem, mapping: Mapping, host: string): Identity {
    PlanArtifact(item, mapping, host, Observation(false, false, None)).identity
  }

  lemma IdentityIgnoresTarget(item: PreviewItem, mapping: Mapping, host: string, seen: Observation)
    ensures PlanArtifact(item, mapping, host, seen).identity == IdentityOf(item, mapping, host)
  {
    hide IsRepository;
    hide ImageReferenceOk;
    hide ChartReferenceOk;
    hide IsComponent;
  }

  function Identities(artifacts: seq<PlannedArtifact>): (r: seq<Identity>)
    ensures |r| == |artifacts| && forall i :: 0 <= i < |r| ==> r[i] == artifacts[i].identity
  {
    seq(|artifacts|, i requires 0 <= i < |artifacts| => artifacts[i].identity)
  }

  function Insert(id: Identity, sorted: seq<Identity>): seq<Identity> {
    if sorted == [] || id.index < sorted[0].index then [id] + sorted else [sorted[0]] + Insert(id, sorted[1..])
  }

  /** sorted(artifacts, key=index): a stable sort. */
  function ByIndex(ids: seq<Identity>): seq<Identity> {
    if ids == [] then [] else Insert(ids[|ids| - 1], ByIndex(ids[..|ids| - 1]))
  }

  lemma {:induction false} InsertLast(id: Identity, sorted: seq<Identity>)
    requires forall i :: 0 <= i < |sorted| ==> sorted[i].index <= id.index
    ensures Insert(id, sorted) == sorted + [id]
  {
    if sorted != [] {
      InsertLast(id, sorted[1..]);
      assert sorted == [sorted[0]] + sorted[1..];
    }
  }

  lemma {:induction false} ByIndexOfOrdered(ids: seq<Identity>)
    requires forall i, j :: 0 <= i < j < |ids| ==> ids[i].index <= ids[j].index
    ensures ByIndex(ids) == ids
  {
    if ids != [] {
      var n := |ids| - 1;
      ByIndexOfOrdered(ids[..n]);
      InsertLast(ids[n], ids[..n]);
    }
  }

  /** destination_plan_id: a hash over the bundle and the identities only. */
  function PlanId(hash: (string, seq<Identity>) -> string, plan: Plan): string {
    hash(plan.bundleSha256, ByIndex(Identities(plan.artifacts)))
  }

  lemma PlanIdentities(
    plan: Plan, items: seq<PreviewItem>, mapping: Mapping, host: string, seen: seq<Observation>)
    requires |items| == |seen| && IsPlan(plan, Planned(items, mapping, host, seen))
    ensures |plan.artifacts| == |items|
    ensures forall i :: 0 <= i < |items| ==> plan.artifacts[i].identity == IdentityOf(items[i], mapping, host)
  {
    hide PlanArtifact;
    hide Marked;
    forall i | 0 <= i < |items|
      ensures plan.artifacts[i].identity == IdentityOf(items[i], mapping, host)
    {
      IdentityIgnoresTarget(items[i], mapping, host, seen[i]);
    }
  }

  /** Missing project, denied push, inspection error, collision: no TARGET answer changes the plan id. */
  lemma PlanIdIgnoresTarget(
    hash: (string, seq<Identity>) -> string, items: seq<PreviewItem>, mapping: Mapping, host: string,
    seen1: seq<Observation>, plan1: Plan, seen2: seq<Observation>, plan2: Plan)
    requires |items| == |seen1| == |seen2| && plan1.bundleSha256 == plan2.bundleSha256
    requires IsPlan(plan1, Planned(items, mapping, host, seen1))
    requires IsPlan(plan2, Planned(items, mapping, host, seen2))
    ensures PlanId(hash, plan1) == PlanId(hash, plan2)
  {
    PlanIdentities(plan1, items, mapping, host, seen1);
    PlanIdentities(plan2, items, mapping, host, seen2);
    hide IsPlan;
    assert Identities(plan1.artifacts) == Identities(plan2.artifacts);
  }

  ghost predicate IndexedInOrder(items: seq<PreviewItem>) {
    forall i :: 0 <= i < |items| ==> items[i].index == i
  }

  /** The hash tells the two plans' identities apart. */
  ghost predicate Separates(hash: (string, seq<Identity>) -> string, plan1: Plan, plan2: Plan) {
    PlanId(hash, plan1) == PlanId(hash, plan2) ==>
      && plan1.bundleSha256 == plan2.bundleSha256
      && ByIndex(Identities(plan1.artifacts)) == ByIndex(Identities(plan2.artifacts))
  }

  lemma IdentityIndex(item: PreviewItem, mapping: Mapping, host: string)
    ensures IdentityOf(item, mapping, host).index == item.index
  {
    hide IsRepository;
    hide ImageReferenceOk;
    hide ChartReferenceOk;
    hide IsComponent;
  }

  /** Only the displayed reference mentions the registry host, and it names the host in full. */
  lemma IdentityAcrossHosts(item: PreviewItem, mapping: Mapping, host1: string, host2: string)
    ensures IdentityOf(item, mapping, host1) == IdentityOf(item, mapping, host2) <==>
            host1 == host2 || IdentityOf(item, mapping, host1).finalReference.None?
    ensures CoordinateOf(PlanArtifact(item, mapping, host1, Observation(false, false, None))) ==
            CoordinateOf(PlanArtifact(item, mapping, host2, Observation(false, false, None)))
  {
    hide IsRepository;
    hide ImageReferenceOk;
    hide ChartReferenceOk;
    hide IsComponent;
    hide TargetRepository;
    hide TargetProject;
    hide ImageDisplay;
    hide ChartDisplay;
    forall r, t
      ensures ImageDisplay(host1, r, t) == ImageDisplay(host2, r, t) <==> host1 == host2
    {
      DisplayNamesHost(host1, host2, r, "", t);
    }
    forall r, n, v
      ensures ChartDisplay(host1, r, n, v) == ChartDisplay(host2, r, n, v) <==> host1 == host2
    {
      DisplayNamesHost(host1, host2, r, n, v);
    }
  }

  lemma SameTail(a: string, b: string, tail: string)
    requires a + tail == b + tail
    ensures a == b
  {
    assert |a| == |b|;
    assert a == (a + tail)[..|a|];
    assert b == (b + tail)[..|b|];
  }

  lemma DisplayNamesHost(host1: string, host2: string, repository: string, name: string, reference: string)
    ensures ImageDisplay(host1, repository, reference) == ImageDisplay(host2, repository, reference) <==> host1 == host2
    ensures ChartDisplay(host1, repository, name, reference) == ChartDisplay(host2, repository, name, reference) <==>
            host1 == host2
  {
    var separator := if |reference| >= 7 && reference[..7] == "sha256:" then "@" else ":";
    var tail := "/" + repository + separator + reference;
    assert ImageDisplay(host1, repository, reference) == host1 + tail;
    assert ImageDisplay(host2, repository, reference) == host2 + tail;
    var rest := "/" + repository + "/" + name + ":" + reference;
    assert ChartDisplay(host1, repository, name, reference) == "oci://" + (host1 + rest);
    assert ChartDisplay(host2, repository, name, reference) == "oci://" + (host2 + rest);
    if host1 + tail == host2 + tail {
      SameTail(host1, host2, tail);
    }
    if "oci://" + (host1 + rest) == "oci://" + (host2 + rest) {
      assert ("oci://" + (host1 + rest))[6..] == host1 + rest;
      assert ("oci://" + (host2 + rest))[6..] == host2 + rest;
      SameTail(host1, host2, rest);
    }
  }

  /**
    A retry re-plans the frozen mapping: the original plan id comes back exactly when the registry host
    is the same, or no artifact got as far as a displayed reference.
   */
  lemma RetryReproducesPlanId(
    hash: (string, seq<Identity>) -> string, items: seq<PreviewItem>, mapping: Mapping,
    host1: string, seen1: seq<Observation>, plan1: Plan, host2: string, seen2: seq<Observation>, plan2: Plan)
    requires |items| == |seen1| == |seen2| && plan1.bundleSha256 == plan2.bundleSha256 && IndexedInOrder(items)
    requires IsPlan(plan1, Planned(items, mapping, host1, seen1))
    requires IsPlan(plan2, Planned(items, mapping, host2, seen2))
    requires Separates(hash, plan1, plan2)
    ensures PlanId(hash, plan1) == PlanId(hash, plan2) <==>
            host1 == host2 || forall i :: 0 <= i < |items| ==> plan1.artifacts[i].identity.finalReference.None?
  {
    PlanIdentities(plan1, items, mapping, host1, seen1);
    PlanIdentities(plan2, items, mapping, host2, seen2);
    hide IsPlan;
    hide IdentityOf;
    forall i | 0 <= i < |items|
      ensures IdentityOf(items[i], mapping, host1) == IdentityOf(items[i], mapping, host2) <==>
              host1 == host2 || IdentityOf(items[i], mapping, host1).finalReference.None?
      ensures IdentityOf(items[i], mapping, host1).index == IdentityOf(items[i], mapping, host2).index == i
    {
      IdentityAcrossHosts(items[i], mapping, host1, host2);
      IdentityIndex(items[i], mapping, host1);
      IdentityIndex(items[i], mapping, host2);
    }
    var ids1, ids2 := Identities(plan1.artifacts), Identities(plan2.artifacts);
    ByIndexOfOrdered(ids1);
    ByIndexOfOrdered(ids2);
    assert ids1 == ids2 <==> forall i :: 0 <= i < |items| ==> ids1[i] == ids2[i];
  }

  /** A target repository is the target project followed by the source path below its project. */
  lemma TargetSplits(project: string, repository: string)
    requires IsComponent(project) && IsRepository(repository)
    ensures Split(TargetRepository(project, repository)) == [project] + Split(repository)[1..]
    ensures IsRepository(TargetRepository(project, repository))
  {
    var parts := Split(repository);
    var rest := parts[1..];
    NoSlashInComponent(project);
    SplitPlain(project);
    if rest == [] {
      assert Suffix(repository) == "" && project + "" == project;
    } else {
      assert IsComponent(parts[1]) && rest[0] == parts[1];
      SplitJoin(rest);
      hide IsComponent;
      SplitAppend(project, Suffix(repository));
      assert TargetRepository(project, repository) == project + "/" + Suffix(repository);
      var whole := [project] + rest;
      assert forall i :: 1 <= i < |whole| ==> whole[i] == parts[i];
    }
  }

  lemma NoSlashInComponent(s: string)
    requires IsComponent(s)
    ensures '/' !in s
  {
  }

  /** Under one mapping, two artifacts of the same kind meet only when everything but the source project agrees. */
  lemma MappedRepositoriesAgree(p1: string, r1: string, p2: string, r2: string)
    requires IsComponent(p1) && IsComponent(p2) && IsRepository(r1) && IsRepository(r2)
    ensures TargetRepository(p1, r1) == TargetRepository(p2, r2) <==> p1 == p2 && Split(r1)[1..] == Split(r2)[1..]
    ensures TargetRepository(p1, r1) == TargetRepository(p2, r2) && SourceProject(r1) == SourceProject(r2) ==> r1 == r2
  {
    TargetSplits(p1, r1);
    TargetSplits(p2, r2);
    JoinSplit(r1);
    JoinSplit(r2);
    hide IsRepository;
    hide IsComponent;
    var s1, s2 := Split(r1), Split(r2);
    assert s1 == [s1[0]] + s1[1..] && s2 == [s2[0]] + s2[1..];
    assert ([p1] + s1[1..])[1..] == s1[1..] && ([p2] + s2[1..])[1..] == s2[1..];
    assert ([p1] + s1[1..])[0] == p1 && ([p2] + s2[1..])[0] == p2;
  }

  lemma PlacedOn(item: PreviewItem, mapping: Mapping, host: string, seen: Observation)
    requires CoordinateOf(PlanArtifact(item, mapping, host, seen)).Some?
    ensures IsRepository(item.repository) && TargetProject(item, mapping).Some?
    ensures IsComponent(TargetProject(item, mapping).value)
    ensures item.kind.ImageType? ==> item.reference.Some?
    ensures item.kind.ChartType? ==> item.name.Some? && item.version.Some?
    ensures var repository := TargetRepository(TargetProject(item, mapping).value, item.repository);
            var at := CoordinateOf(PlanArtifact(item, mapping, host, seen)).value;
            && (item.kind.ImageType? ==> at == Coordinate(repository, item.reference.value))
            && (item.kind.ChartType? ==> at == Coordinate(repository + "/" + item.name.value, item.version.value))
    ensures !item.kind.OtherType?
  {
    hide IsRepository;
    hide ImageReferenceOk;
    hide ChartReferenceOk;
    hide IsComponent;
    hide TargetRepository;
    hide TargetProject;
  }

  /**
    Images collide only by merging projects: if two images from different source references share a
    TARGET coordinate, their source projects differ and were mapped to one target project.
   */
  lemma ImagesCollideByMerging(
    a: PreviewItem, b: PreviewItem, mapping: Mapping, host: string, seenA: Observation, seenB: Observation)
    requires a.kind.ImageType? && b.kind.ImageType?
    requires CoordinateOf(PlanArtifact(a, mapping, host, seenA)).Some?
    requires CoordinateOf(PlanArtifact(a, mapping, host, seenA)) == CoordinateOf(PlanArtifact(b, mapping, host, seenB))
    requires a.repository != b.repository || a.reference != b.reference
    ensures SourceProject(a.repository) != SourceProject(b.repository)
    ensures TargetProject(a, mapping) == TargetProject(b, mapping)
  {
    PlacedOn(a, mapping, host, seenA);
    PlacedOn(b, mapping, host, seenB);
    hide PlanArtifact;
    hide TargetProject;
    MappedRepositoriesAgree(
      TargetProject(a, mapping).value, a.repository, TargetProject(b, mapping).value, b.repository);
    hide TargetRepository;
    hide SourceProject;
    hide IsRepository;
    hide IsComponent;
  }

  /** The coordinate the import engine writes for a projected descriptor. */
  function WrittenAt(d: Artifact): Coordinate {
    match d
    case ContainerImage(repository, reference, _, _, _, _) => Coordinate(repository, reference)
    case HelmChart(repository, name, version, _, _, _, _) => Coordinate(repository + "/" + name, version)
  }

  /** _assert_plan_matches_descriptor raises nothing. */
  predicate MatchesDescriptor(index: nat, d: Artifact, p: PlannedArtifact) {
    var id := p.identity;
    && id.index == index && id.kind == (if d.ContainerImage? then ImageType else ChartType)
    && id.sourceRepository == d.repository && id.expectedDigest == SourceDigest(d)
    && match d
       case ContainerImage(_, reference, _, _, _, _) => id.reference == Some(reference) && id.name.None?
       case HelmChart(_, name, version, _, _, _, _) =>
         id.name == Some(name) && id.version == Some(version) && id.reference.None?
  }

  /** The plan is one of this bundle: artifact by artifact in order the same source, each with a target. */
  ghost predicate Projectable(descriptors: seq<Artifact>, plan: Plan) {
    && |plan.artifacts| == |descriptors|
    && forall i :: 0 <= i < |descriptors| ==>
         var d, id := descriptors[i], plan.artifacts[i].identity;
         && id.index == i && id.sourceRepository == d.repository && id.targetRepository != None
         && (d.ContainerImage? ==>
               && id.kind == ImageType && id.reference == Some(d.reference) && id.name == None
               && id.expectedDigest == Some(d.imageDigest))
         && (d.HelmChart? ==>
               && id.kind == ChartType && id.name == Some(d.name) && id.version == Some(d.version)
               && id.reference == None && id.expectedDigest == d.chartDigest)
  }

  /** The same payload under another repository. */
  predicate SamePayload(d: Artifact, mapped: Artifact) {
    && d.ContainerImage? == mapped.ContainerImage?
    && SourceDigest(mapped) == SourceDigest(d) && mapped.payloadPath == d.payloadPath
    && mapped.payloadSha256 == d.payloadSha256 && mapped.payloadSize == d.payloadSize
    && (d.ContainerImage? ==> mapped.reference == d.reference)
    && (d.HelmChart? ==> mapped.name == d.name && mapped.version == d.version)
  }

  /** _project_verified_bundle, for a plan of this bundle */
  method ProjectVerifiedBundle(descriptors: seq<Artifact>, plan: Plan) returns (r: Option<seq<Artifact>>)
    ensures r.Some? <==> Projectable(descriptors, plan)
    ensures r.Some? ==> |r.value| == |descriptors|
    ensures r.Some? ==> forall i :: 0 <= i < |descriptors| ==>
              && CoordinateOf(plan.artifacts[i]) == Some(WrittenAt(r.value[i]))
              && SamePayload(descriptors[i], r.value[i])
              && Some(r.value[i].repository) == plan.artifacts[i].identity.targetRepository
  {
    if |plan.artifacts| != |descriptors| {
      return None;
    }
    var mapped: seq<Artifact> := [];
    for k := 0 to |descriptors|
      invariant |mapped| == k
      invariant forall i :: 0 <= i < k ==>
                  MatchesDescriptor(i, descriptors[i], plan.artifacts[i]) &&
                  plan.artifacts[i].identity.targetRepository.Some?
      invariant forall i :: 0 <= i < k ==>
                  CoordinateOf(plan.artifacts[i]) == Some(WrittenAt(mapped[i])) &&
                  SamePayload(descriptors[i], mapped[i]) &&
                  Some(mapped[i].repository) == plan.artifacts[i].identity.targetRepository
    {
      var d, p := descriptors[k], plan.artifacts[k];
      if !MatchesDescriptor(k, d, p) || p.identity.targetRepository.None? {
        return None;
      }
      mapped := mapped + [d.(repository := p.identity.targetRepository.value)];
    }
    return Some(mapped);
  }

  ghost predicate WritesApart(descriptors: seq<Artifact>) {
    forall i, j :: 0 <= i < j < |descriptors| ==> WrittenAt(descriptors[i]) != WrittenAt(descriptors[j])
  }

  /** One import of a valid plan never writes a coordinate twice. */
  lemma ProjectionWritesApart(plan: Plan, mapped: seq<Artifact>)
    requires DistinctCoordinates(plan.artifacts) && |mapped| == |plan.artifacts|
    requires forall i :: 0 <= i < |mapped| ==> CoordinateOf(plan.artifacts[i]) == Some(WrittenAt(mapped[i]))
    ensures WritesApart(mapped)
  {
    hide CoordinateOf;
    hide WrittenAt;
    assert forall i :: 0 <= i < |mapped| ==> CoordinateOf(plan.artifacts[i]) == Some(WrittenAt(mapped[i]));
  }

  /** The OCI tag Helm stores a chart version under: "+" is no tag character and becomes "_". */
  function OciTag(version: string): (tag: string)
    ensures |tag| == |version|
    ensures forall i :: 0 <= i < |version| ==> tag[i] == if version[i] == '+' then '_' else version[i]
  {
    seq(|version|, i requires 0 <= i < |version| => if version[i] == '+' then '_' else version[i])
  }

  /** Where the registry keeps what is pushed for a descriptor: the coordinate, with the tag for the version. */
  function LandsAt(d: Artifact): Coordinate {
    match d
    case ContainerImage(_, _, _, _, _, _) => WrittenAt(d)
    case HelmChart(repository, name, version, _, _, _, _) => Coordinate(repository + "/" + name, OciTag(version))
  }

  ghost predicate LandsApart(descriptors: seq<Artifact>) {
    forall i, j :: 0 <= i < j < |descriptors| ==> LandsAt(descriptors[i]) != LandsAt(descriptors[j])
  }

  /** A chart version with a "+", so its tag is not spelled like it. */
  predicate RespelledChart(d: Artifact) {
    d.HelmChart? && '+' in d.version
  }

  /** A chart with a "+" in its version shares its place in the registry with another artifact of the bundle. */
  predicate TagClash(descriptors: seq<Artifact>) {
    exists i, j :: 0 <= i < |descriptors| && 0 <= j < |descriptors| && i != j &&
                   RespelledChart(descriptors[i]) && LandsAt(descriptors[i]) == LandsAt(descriptors[j])
  }

  lemma PlainVersionLandsWhereWritten(d: Artifact)
    requires !RespelledChart(d)
    ensures LandsAt(d) == WrittenAt(d)
  {
    if d.HelmChart? {
      assert OciTag(d.version) == d.version;
    }
  }

  /**
    What is apart in the plan is apart in the registry if and only if no chart version with a "+" takes the
    place of another artifact there; in particular whenever no version has one.
   */
  lemma LandsApartIff(descriptors: seq<Artifact>)
    requires WritesApart(descriptors)
    ensures LandsApart(descriptors) <==> !TagClash(descriptors)
    ensures (forall i :: 0 <= i < |descriptors| ==> !RespelledChart(descriptors[i])) ==> LandsApart(descriptors)
  {
    hide WrittenAt;
    hide RespelledChart;
    hide LandsAt;
    forall i, j | 0 <= i < j < |descriptors| && LandsAt(descriptors[i]) == LandsAt(descriptors[j])
      ensures RespelledChart(descriptors[i]) || RespelledChart(descriptors[j])
    {
      if !RespelledChart(descriptors[i]) && !RespelledChart(descriptors[j]) {
        PlainVersionLandsWhereWritten(descriptors[i]);
        PlainVersionLandsWhereWritten(descriptors[j]);
        assert false;
      }
    }
    if TagClash(descriptors) {
      var i, j :| 0 <= i < |descriptors| && 0 <= j < |descriptors| && i != j &&
                  RespelledChart(descriptors[i]) && LandsAt(descriptors[i]) == LandsAt(descriptors[j]);
      assert i < j || j < i;
    }
  }
}
