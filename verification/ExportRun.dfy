/** The export worker: materialise every artifact, build and publish once, then verify or take it all back. */
module ExportRun {
  import opened BundleManifest
  import opened LoneBuilder
  import opened OperationStates
  import Publication

  /** What happens around one artifact. */
  datatype Materialising = Done | CancelBefore | TypedError | CancelDuring | Unexpected

  /**
    Cancellation while the build runs: never, once, or again while the worker waits for the build to end. The
    second one ends the worker at once and leaves the build thread running behind it; what is said about the
    directory then holds once that thread is through. While it runs, `BuildIsExplained` says what is there.
   */
  datatype Interruption = Uninterrupted | Once | Twice

  /** Where the steps after a returned build break, if they do. */
  datatype AfterBuild = Clean | CancelSeen | WrongDelivery | PersistFails | VerifyFails(at: nat) | CompletionFails

  /**
    Everything outside the worker: disk, artifacts, how each step of the build goes, the digest it produces, the
    interruption, what breaks afterwards, how many files a cleanup manages to unlink, and whether clearing the
    record fails.
   */
  datatype World = World(
    diskOk: bool, materialising: seq<Materialising>, schedule: seq<Publication.Luck>, digest: string,
    interruption: Interruption, after: AfterBuild, unlinks: nat, clearingFails: bool)

  /** The schedule of the build's steps, with enough of them to end it. */
  function Schedule(w: World): (r: seq<Publication.Luck>)
    ensures |r| >= 12
    ensures Publication.Dies !in w.schedule ==> Publication.Dies !in r
  {
    w.schedule + seq(12, _ => Publication.Works)
  }

  function Own(w: World, me: nat): Publication.Published {
    Publication.Published(me, w.digest)
  }

  /** The build as the publication protocol defines it. */
  function Built(w: World, f: Publication.Files, me: nat): Progress {
    Build(f, Own(w, me), Schedule(w))
  }

  /** Every artifact is materialised. */
  predicate AllDone(w: World) {
    w.diskOk && forall i :: 0 <= i < |w.materialising| ==> w.materialising[i].Done?
  }

  /** The first artifact that is not. */
  predicate StopsAt(w: World, k: nat) {
    && w.diskOk && k < |w.materialising| && !w.materialising[k].Done?
    && forall i :: 0 <= i < k ==> w.materialising[i].Done?
  }

  /** Nothing goes wrong after the build returned. */
  predicate Undisturbed(w: World) {
    w.after.Clean? || (w.after.VerifyFails? && w.after.at >= |w.materialising|)
  }

  /** The record of the published files was committed before the trouble came. */
  predicate Persisted(w: World) {
    !w.after.CancelSeen? && !w.after.WrongDelivery? && !w.after.PersistFails?
  }

  /**
    The worker gets to a cleanup of the delivery: after an error the build service announced as its own, after a
    single cancellation, or after trouble behind a returned build once its record is cleared.
   */
  predicate CleanupReached(w: World, exit: Publication.Exit) {
    match w.interruption
    case Once => true
    case Twice => false
    case Uninterrupted =>
      match exit
      case Refused => true
      case Escaped => false
      case Returned => !Undisturbed(w) && !w.clearingFails
  }

  function Cleanup(w: World, exit: Publication.Exit): Option<nat> {
    if CleanupReached(w, exit) then Some(w.unlinks) else None
  }

  /** What the directory holds when the worker is through with a build. */
  function LeftBy(w: World, b: Progress): Publication.Files
    requires b.phase.Finished?
  {
    if CleanupReached(w, b.phase.exit) then Sweep(b.files, w.unlinks) else b.files
  }

  /** Nothing of this operation's is left in the outgoing directory. */
  predicate NothingOf(f: Publication.Files, me: nat) {
    && (f.archive.Some? ==> f.archive.value.owner != me)
    && (f.sidecar.Some? ==> f.sidecar.value.owner != me)
    && (f.handoff.Some? ==> f.handoff.value.owner != me)
  }

  predicate AllOf(f: Publication.Files, own: Publication.Published) {
    f.archive == f.sidecar == f.handoff == Some(own)
  }

  /** The export completes. */
  predicate Succeeds(w: World, b: Progress) {
    && AllDone(w) && w.interruption.Uninterrupted?
    && b.phase == Publication.Finished(Publication.Returned) && Undisturbed(w)
  }

  /**
    A failed export leaves its archive behind: orphaned by the build, or standing with the cleanup not reached
    or not finished.
   */
  predicate Strands(w: World, b: Progress) {
    && AllDone(w) && b.phase.Finished?
    && (|| Orphaned(b.events)
        || (Standing(b.events) && !(CleanupReached(w, b.phase.exit) && w.unlinks >= 3)))
  }

  /** The status an export ends in, case by case. */
  ghost predicate EndsByRule(w: World, exit: Publication.Exit, last: OperationStatus) {
    && (!w.diskOk ==> last == Failed)
    && (forall k: nat :: StopsAt(w, k) ==>
          last == if w.materialising[k] in {CancelBefore, CancelDuring} then Cancelled else Failed)
    && (AllDone(w) && w.interruption != Uninterrupted ==> last == Cancelled)
    && (AllDone(w) && w.interruption == Uninterrupted && exit != Publication.Returned ==> last == Failed)
    && (AllDone(w) && w.interruption == Uninterrupted && exit == Publication.Returned ==>
          match w.after
          case Clean => last == Completed
          case CancelSeen => last == Cancelled
          case VerifyFails(at) => last == if at < |w.materialising| then Failed else Completed
          case _ => last == Failed)
  }

  /** The rows of an export whose artifacts were all materialised. */
  ghost predicate RowsByRule(w: World, exit: Publication.Exit, rows: seq<ArtifactStatus>) {
    && |rows| == |w.materialising|
    && (w.interruption == Uninterrupted && exit == Publication.Returned ==>
          match w.after
          case VerifyFails(at) => forall i :: 0 <= i < |rows| ==> rows[i] == if i < at then Verified else ArtifactFailed
          case CancelSeen => forall i :: 0 <= i < |rows| ==> rows[i] == ArtifactFailed
          case WrongDelivery => forall i :: 0 <= i < |rows| ==> rows[i] == ArtifactFailed
          case PersistFails => forall i :: 0 <= i < |rows| ==> rows[i] == ArtifactFailed
          case Clean => forall i :: 0 <= i < |rows| ==> rows[i] == Verified
          case CompletionFails => forall i :: 0 <= i < |rows| ==> rows[i] == Verified)
    && (w.interruption != Uninterrupted || exit != Publication.Returned ==>
          forall i :: 0 <= i < |rows| ==> rows[i] == ArtifactFailed)
  }

  /** The record names the published digest exactly when it was committed and then not cleared. */
  ghost predicate RecordByRule(w: World, exit: Publication.Exit, record: Option<string>) {
    && (record.Some? ==> record == Some(w.digest))
    && (record.Some? <==>
        && AllDone(w) && w.interruption == Uninterrupted && exit == Publication.Returned
        && (w.after == Clean || w.after.VerifyFails? || w.after == CompletionFails)
        && (w.clearingFails || w.after == Clean || (w.after.VerifyFails? && w.after.at >= |w.materialising|)))
  }

  /** Whether an export that has ended after its build left anything of its own, in the world's terms. */
  ghost predicate LeavesByRule(w: World, b: Progress, left: Publication.Files, me: nat)
    requires b.phase.Finished?
  {
    && (Orphaned(b.events) ==> !NothingOf(left, me))
    && (!Orphaned(b.events) && !Standing(b.events) ==> NothingOf(left, me))
    && (!Orphaned(b.events) && Standing(b.events) ==>
          (NothingOf(left, me) <==>
            && w.unlinks >= 3 && w.interruption != Twice
            && (w.interruption == Uninterrupted ==> b.phase.exit != Publication.Escaped)
            && (w.interruption == Uninterrupted && b.phase.exit == Publication.Returned ==>
                  && !w.clearingFails && w.after != Clean
                  && (w.after.VerifyFails? ==> w.after.at < |w.materialising|))))
  }

  function FailRunning(rows: seq<ArtifactStatus>): (r: seq<ArtifactStatus>)
    ensures |r| == |rows|
    ensures forall i :: 0 <= i < |rows| ==> r[i] == if rows[i].ArtifactRunning? then ArtifactFailed else rows[i]
  {
    seq(|rows|, i requires 0 <= i < |rows| => if rows[i].ArtifactRunning? then ArtifactFailed else rows[i])
  }

  lemma BuiltEnds(w: World, f: Publication.Files, me: nat)
    requires Publication.Dies !in w.schedule
    ensures Built(w, f, me).phase.Finished?
  {
    BuildEnds(f, Own(w, me), Schedule(w));
    hide Build;
  }

  /** A build on an id that is taken leaves everything as it was and never returns. */
  lemma TakenIdUntouched(w: World, f: Publication.Files, me: nat)
    requires !Free(f) && !f.owned && Publication.Dies !in w.schedule
    ensures var b := Built(w, f, me);
            && b.files == f && b.phase.Finished? && !b.phase.exit.Returned? && LeftBy(w, b) == f
            && !Orphaned(b.events) && !Standing(b.events)
  {
    BuildKeepsForeign(f, Own(w, me), Schedule(w));
    BuildEnds(f, Own(w, me), Schedule(w));
    hide Build;
  }

  /** A build on a free id: what is left, and when it returned with all three files in place. */
  lemma FreeIdOutcome(w: World, f: Publication.Files, me: nat)
    requires Free(f) && !f.owned && Publication.Dies !in w.schedule
    ensures var b := Built(w, f, me);
            && b.phase.Finished?
            && (NothingOf(LeftBy(w, b), me) <==>
                !(Orphaned(b.events) || (Standing(b.events) && !(CleanupReached(w, b.phase.exit) && w.unlinks >= 3))))
  {
    var b := Built(w, f, me);
    BuildEnds(f, Own(w, me), Schedule(w));
    WhatRemains(f, Own(w, me), Schedule(w), Cleanup(w, b.phase.exit));
    BuildIsExplained(f, Own(w, me), Schedule(w));
    hide Build;
    hide Orphaned;
    hide Standing;
    hide CleanupReached;
    hide AtPhase;
    assert LeftBy(w, b).archive == None || LeftBy(w, b).archive == Some(Own(w, me));
  }

  /** The worker's statement about any build, on a free id or not. */
  lemma Outcome(w: World, f: Publication.Files, me: nat)
    requires NothingOf(f, me) && !f.owned && Publication.Dies !in w.schedule && AllDone(w)
    ensures var b := Built(w, f, me);
            && b.phase.Finished?
            && (NothingOf(LeftBy(w, b), me) <==> !Strands(w, b))
            && LeavesByRule(w, b, LeftBy(w, b), me)
            && (!Free(f) ==> LeftBy(w, b) == f && !b.phase.exit.Returned?)
  {
    hide Built;
    hide LeftBy;
    hide Orphaned;
    hide Standing;
    if Free(f) {
      FreeIdOutcome(w, f, me);
    } else {
      TakenIdUntouched(w, f, me);
    }
  }

  /** A returned build has all three files in place, claimed. */
  lemma ReturnedHasAll(w: World, f: Publication.Files, me: nat)
    requires NothingOf(f, me) && !f.owned && Publication.Dies !in w.schedule
    requires Built(w, f, me).phase == Publication.Finished(Publication.Returned)
    ensures var b := Built(w, f, me);
            AllOf(b.files, Own(w, me)) && b.files.owned
  {
    if Free(f) {
      BuildIsExplained(f, Own(w, me), Schedule(w));
    } else {
      TakenIdUntouched(w, f, me);
    }
    hide Build;
    hide AtPhase;
  }

  /** Trouble behind a returned build, after the record was committed, with the record impossible to clear. */
  predicate RecordStays(w: World, b: Progress) {
    && AllDone(w) && w.interruption.Uninterrupted? && b.phase == Publication.Finished(Publication.Returned)
    && !Undisturbed(w) && Persisted(w) && w.clearingFails
  }

  class ExportWorker {
    /** The operation: owner of what it publishes; unique per delivery id. */
    const me: nat
    var files: Publication.Files
    var rows: seq<ArtifactStatus>
    /** The digest the operation record names, once persisted. */
    var metadata: Option<string>
    var trace: seq<OperationStatus>

    constructor (id: nat, artifacts: nat, outgoing: Publication.Files)
      ensures me == id && files == outgoing && metadata.None? && trace == [Created]
      ensures rows == seq(artifacts, _ => Pending)
    {
      me, files, metadata, trace := id, outgoing, None, [Created];
      rows := seq(artifacts, _ => Pending);
    }

    method MoveTo(next: OperationStatus)
      requires LegalRun(Export, trace) && Allowed(Export, trace[|trace| - 1], next)
      modifies this`trace
      ensures trace == old(trace) + [next] && LegalRun(Export, trace)
    {
      ExtendRun(Export, trace, next);
      trace := trace + [next];
    }

    /** The operation manager's ending: running artifacts fail with the operation. */
    method End(final: OperationStatus)
      requires final == Failed || final == Cancelled
      requires LegalRun(Export, trace) && Allowed(Export, trace[|trace| - 1], final)
      modifies this`trace, this`rows
      ensures trace == old(trace) + [final] && LegalRun(Export, trace)
      ensures rows == FailRunning(old(rows))
    {
      MoveTo(final);
      rows := FailRunning(rows);
    }

    /** build_bundle: one step of the publication protocol after the other, until the build is over. */
    method RunBuild(w: World) returns (exit: Publication.Exit)
      requires Publication.Dies !in w.schedule
      modifies this`files
      ensures Built(w, old(files), me).phase == Publication.Finished(exit)
      ensures files == Built(w, old(files), me).files
    {
      hide Publication.Next;
      var schedule, own := Schedule(w), Own(w, me);
      ghost var before := files;
      var phase := Publication.Idle;
      var k := 0;
      ghost var b := Progress(files, Publication.Idle, {});
      BuildOfNothing(before, own);
      while !phase.Finished?
        invariant 0 <= k <= |schedule|
        invariant b == Build(before, own, schedule[..k]) && files == b.files && phase == b.phase
        decreases 12 - Publication.Rank(phase)
      {
        BuildEnds(before, own, schedule[..k]);
        var effect := Publication.Next(Publication.Guarded, files, phase, own, schedule[k]);
        Publication.NextMovesOn(Publication.Guarded, files, phase, own, schedule[k]);
        BuildGrows(before, own, schedule[..k], schedule[k]);
        assert schedule[..k] + [schedule[k]] == schedule[..k + 1];
        b := Took(b, own, schedule[k]);
        files, phase := effect.files, effect.phase;
        k := k + 1;
      }
      BuildRests(before, own, schedule, k);
      exit := phase.exit;
    }

    /** _cleanup_published_delivery: only what this process recorded, handoff first, archive last. */
    method CleanUp(unlinks: nat)
      modifies this`files, this`metadata
      ensures files == Sweep(old(files), unlinks)
      ensures files.reserved == old(files).reserved
      ensures files.handoff == (if old(files).owned && unlinks >= 1 then None else old(files).handoff)
      ensures files.sidecar == (if old(files).owned && unlinks >= 2 then None else old(files).sidecar)
      ensures files.archive == (if old(files).owned && unlinks >= 3 then None else old(files).archive)
      ensures files.owned <==> old(files).owned && unlinks < 3
      ensures unlinks >= 3 ==> files == Publication.CleanUp(old(files))
      ensures metadata == if old(files).owned && unlinks >= 3 then None else old(metadata)
    {
      if unlinks >= 3 {
        FullSweepIsCleanUp(files, unlinks);
      }
      if !files.owned || unlinks == 0 {
        return;
      }
      files := files.(handoff := None);
      if unlinks == 1 {
        return;
      }
      files := files.(sidecar := None);
      if unlinks == 2 {
        return;
      }
      files := files.(archive := None);
      files := files.(owned := false);
      metadata := None;
    }

    /** The handler behind a returned build: clear the record, then the files; an error in between skips the rest. */
    method TakeBack(w: World)
      modifies this`files, this`metadata
      ensures files == if w.clearingFails then old(files) else Sweep(old(files), w.unlinks)
      ensures metadata == if w.clearingFails then old(metadata) else None
    {
      if w.clearingFails {
        return;
      }
      metadata := None;
      CleanUp(w.unlinks);
    }

    /** The loop over artifacts; false when it ended the operation. */
    method Materialise(w: World) returns (ok: bool)
      requires |rows| == |w.materialising| && w.diskOk && forall i :: 0 <= i < |rows| ==> rows[i].Pending?
      requires trace == [Created, Validating, Running] && LegalRun(Export, trace)
      modifies this`rows, this`trace
      ensures ok <==> AllDone(w)
      ensures |rows| == |old(rows)|
      ensures ok ==> trace == old(trace) && forall i :: 0 <= i < |rows| ==> rows[i].ArtifactRunning?
      ensures !ok ==> LegalRun(Export, trace) && trace[|trace| - 1] in {Failed, Cancelled}
      ensures forall k: nat :: StopsAt(w, k) ==>
                (trace[|trace| - 1] == Cancelled <==>
                  w.materialising[k] == CancelBefore || w.materialising[k] == CancelDuring)
      ensures forall k: nat :: StopsAt(w, k) ==>
                if w.materialising[k].TypedError? then forall i :: 0 <= i < |rows| ==> rows[i].ArtifactFailed?
                else forall i :: 0 <= i < |rows| ==>
                  if i < k || (i == k && !w.materialising[k].CancelBefore?) then rows[i].ArtifactFailed?
                  else rows[i].Pending?
    {
      LegalMoves();
      hide Allowed;
      hide LegalRun;
      for k := 0 to |w.materialising|
        invariant |rows| == |w.materialising| && trace == [Created, Validating, Running] && LegalRun(Export, trace)
        invariant forall i :: 0 <= i < k ==> w.materialising[i].Done?
        invariant forall i :: 0 <= i < |rows| ==> if i < k then rows[i].ArtifactRunning? else rows[i].Pending?
      {
        if w.materialising[k].CancelBefore? {
          End(Cancelled);
          return false;
        }
        rows := rows[k := ArtifactRunning];
        match w.materialising[k]
        case Done =>
        case TypedError =>
          rows := seq(|rows|, i => ArtifactFailed);
          End(Failed);
          return false;
        case CancelDuring =>
          End(Cancelled);
          return false;
        case Unexpected =>
          End(Failed);
          return false;
      }
      return true;
    }

    /** The steps after a returned build; any trouble takes the delivery back as far as it can. */
    method VerifyAndComplete(w: World)
      requires |rows| == |w.materialising| && forall i :: 0 <= i < |rows| ==> rows[i].ArtifactRunning?
      requires trace == [Created, Validating, Running, Packaging] && LegalRun(Export, trace) && metadata.None?
      modifies this
      ensures LegalRun(Export, trace) && trace[|trace| - 1] in {Completed, Failed, Cancelled}
      ensures trace[|trace| - 1] == Completed <==> Undisturbed(w)
      ensures trace[|trace| - 1] == Cancelled <==> w.after == CancelSeen
      ensures |rows| == |w.materialising|
      ensures w.after.VerifyFails? ==>
                forall i :: 0 <= i < |rows| ==> rows[i] == if i < w.after.at then Verified else ArtifactFailed
      ensures w.after in {CancelSeen, WrongDelivery, PersistFails} ==>
                forall i :: 0 <= i < |rows| ==> rows[i].ArtifactFailed?
      ensures w.after.CompletionFails? ==> forall i :: 0 <= i < |rows| ==> rows[i].Verified?
      ensures Undisturbed(w) ==>
                (forall i :: 0 <= i < |rows| ==> rows[i].Verified?) && metadata == Some(w.digest) && files == old(files)
      ensures !Undisturbed(w) ==>
                && files == (if w.clearingFails then old(files) else Sweep(old(files), w.unlinks))
                && metadata == if w.clearingFails && Persisted(w) then Some(w.digest) else None
    {
      LegalMoves();
      hide Allowed;
      hide LegalRun;
      if w.after.CancelSeen? {
        TakeBack(w);
        End(Cancelled);
        return;
      }
      MoveTo(Verifying);
      if w.after.WrongDelivery? || w.after.PersistFails? {
        TakeBack(w);
        End(Failed);
        return;
      }
      metadata := Some(w.digest);
      for k := 0 to |rows|
        invariant |rows| == |w.materialising| && metadata == Some(w.digest) && files == old(files)
        invariant trace == [Created, Validating, Running, Packaging, Verifying] && LegalRun(Export, trace)
        invariant forall i :: 0 <= i < |rows| ==> if i < k then rows[i].Verified? else rows[i].ArtifactRunning?
        invariant w.after.VerifyFails? ==> k <= w.after.at
      {
        if w.after == VerifyFails(k) {
          TakeBack(w);
          End(Failed);
          return;
        }
        rows := rows[k := Verified];
      }
      if w.after.CompletionFails? {
        TakeBack(w);
        End(Failed);
        return;
      }
      MoveTo(Completed);
    }

    /** From PACKAGING on: the build, and what each of its ends makes the worker do. */
    method BuildPhase(w: World)
      requires |rows| == |w.materialising| && forall i :: 0 <= i < |rows| ==> rows[i].ArtifactRunning?
      requires trace == [Created, Validating, Running, Packaging] && LegalRun(Export, trace)
      requires AllDone(w) && metadata.None? && Publication.Dies !in w.schedule
      modifies this
      ensures LegalRun(Export, trace) && trace[|trace| - 1] in TERMINAL_STATES
      ensures Built(w, old(files), me).phase.Finished? && files == LeftBy(w, Built(w, old(files), me))
      ensures EndsByRule(w, Built(w, old(files), me).phase.exit, trace[|trace| - 1])
      ensures RowsByRule(w, Built(w, old(files), me).phase.exit, rows)
      ensures RecordByRule(w, Built(w, old(files), me).phase.exit, metadata)
      ensures trace[|trace| - 1] == Completed <==> Succeeds(w, Built(w, old(files), me))
      ensures trace[|trace| - 1] == Completed ==>
                (forall i :: 0 <= i < |rows| ==> rows[i].Verified?) && metadata == Some(w.digest)
      ensures trace[|trace| - 1] != Completed ==>
                metadata == if RecordStays(w, Built(w, old(files), me)) then Some(w.digest) else None
    {
      LegalMoves();
      hide Allowed;
      hide LegalRun;
      hide Built;
      NeverStops(w);
      hide StopsAt;
      var exit := RunBuild(w);
      match w.interruption
      case Once =>
        CleanUp(w.unlinks);
        End(Cancelled);
      case Twice =>
        End(Cancelled);
      case Uninterrupted =>
        match exit
        case Refused =>
          CleanUp(w.unlinks);
          End(Failed);
        case Escaped =>
          End(Failed);
        case Returned =>
          VerifyAndComplete(w);
    }

    /**
      _run_export over every schedule of the build. It ends COMPLETED exactly when everything worked, and then
      every artifact is VERIFIED and the record names the published files. Otherwise nothing of its own is left
      if and only if the build orphaned nothing and its claimed archive, if it still stands, was completely
      cleaned up. Files that were there before are untouched. After a second cancellation the files are those
      the build thread leaves when it is through, which may be after the worker has ended.
     */
    method Run(w: World)
      requires |rows| == |w.materialising| && forall i :: 0 <= i < |rows| ==> rows[i].Pending?
      requires trace == [Created] && metadata.None?
      requires NothingOf(files, me) && !files.owned && Publication.Dies !in w.schedule
      modifies this
      ensures LegalRun(Export, trace) && trace[|trace| - 1] in TERMINAL_STATES
      ensures trace[|trace| - 1] == Completed <==> Succeeds(w, Built(w, old(files), me))
      ensures trace[|trace| - 1] == Completed ==>
                && (forall i :: 0 <= i < |rows| ==> rows[i].Verified?)
                && metadata == Some(w.digest) && AllOf(files, Own(w, me))
      ensures trace[|trace| - 1] != Completed ==>
                && (NothingOf(files, me) <==> !Strands(w, Built(w, old(files), me)))
                && metadata == if RecordStays(w, Built(w, old(files), me)) then Some(w.digest) else None
      ensures !Free(old(files)) || !AllDone(w) ==> files == old(files)
      ensures Built(w, old(files), me).phase.Finished?
      ensures EndsByRule(w, Built(w, old(files), me).phase.exit, trace[|trace| - 1])
      ensures RecordByRule(w, Built(w, old(files), me).phase.exit, metadata)
      ensures AllDone(w) ==>
                && LeavesByRule(w, Built(w, old(files), me), files, me)
                && RowsByRule(w, Built(w, old(files), me).phase.exit, rows)
      ensures |rows| == |w.materialising|
      ensures forall k: nat :: StopsAt(w, k) ==>
                if w.materialising[k].TypedError? then forall i :: 0 <= i < |rows| ==> rows[i].ArtifactFailed?
                else forall i :: 0 <= i < |rows| ==>
                  if i < k || (i == k && !w.materialising[k].CancelBefore?) then rows[i].ArtifactFailed?
                  else rows[i].Pending?
      ensures !w.diskOk ==> forall i :: 0 <= i < |rows| ==> rows[i].ArtifactFailed?
    {
      LegalMoves();
      hide Allowed;
      hide LegalRun;
      hide Built;
      BuiltEnds(w, files, me);
      hide Succeeds;
      hide RecordStays;
      hide Strands;
      hide NothingOf;
      hide Free;
      hide AllOf;
      hide LeavesByRule;
      hide RowsByRule;
      MoveTo(Validating);
      if !w.diskOk {
        rows := seq(|rows|, i => ArtifactFailed);
        End(Failed);
        return;
      }
      MoveTo(Running);
      var ok := Materialise(w);
      if !ok {
        return;
      }
      NeverStops(w);
      hide StopsAt;
      MoveTo(Packaging);
      Outcome(w, files, me);
      if Built(w, files, me).phase == Publication.Finished(Publication.Returned) {
        ReturnedHasAll(w, files, me);
      }
      BuildPhase(w);
    }
  }

  lemma LegalMoves()
    ensures Allowed(Export, Created, Validating) && Allowed(Export, Validating, Running)
    ensures Allowed(Export, Running, Packaging) && Allowed(Export, Packaging, Verifying)
    ensures Allowed(Export, Verifying, Completed)
    ensures forall last, final ::
              last in {Validating, Running, Packaging, Verifying} && final in {Failed, Cancelled} ==>
              Allowed(Export, last, final)
  {
  }

  /** Once ended, further steps of the schedule change nothing. */
  lemma {:induction false} BuildRests(
    f: Publication.Files, own: Publication.Published, schedule: seq<Publication.Luck>, k: nat)
    requires k <= |schedule| && Publication.Ended(Build(f, own, schedule[..k]).phase)
    ensures Build(f, own, schedule) == Build(f, own, schedule[..k])
    decreases |schedule| - k
  {
    if k < |schedule| {
      assert schedule[..k] + [schedule[k]] == schedule[..k + 1];
      BuildGrows(f, own, schedule[..k], schedule[k]);
      EndStays(Build(f, own, schedule[..k]), own, schedule[k]);
      BuildRests(f, own, schedule, k + 1);
    } else {
      assert schedule[..k] == schedule;
    }
  }

  lemma NeverStops(w: World)
    ensures AllDone(w) ==> forall k: nat :: !StopsAt(w, k)
  {
  }
}
