/** One builder of a delivery id on its own: where each failing step leaves its files. */
module LoneBuilder {
  import opened BundleManifest
  import opened Publication

  /** A step the builder took, and how it went. */
  datatype Event = Event(phase: Phase, luck: Luck)

  datatype Progress = Progress(files: Files, phase: Phase, events: set<Event>)

  function Took(b: Progress, own: Published, luck: Luck): Progress {
    var effect := Next(Guarded, b.files, b.phase, own, luck);
    Progress(effect.files, effect.phase, if Ended(b.phase) then b.events else b.events + {Event(b.phase, luck)})
  }

  /** The builder alone, its steps going as the schedule says. */
  function Build(f: Files, own: Published, schedule: seq<Luck>): Progress {
    if schedule == [] then Progress(f, Idle, {})
    else Took(Build(f, own, schedule[..|schedule| - 1]), own, schedule[|schedule| - 1])
  }

  function TurnsOf(b: nat, schedule: seq<Luck>): seq<Turn> {
    seq(|schedule|, i requires 0 <= i < |schedule| => Turn(b, schedule[i]))
  }

  /** It is the publication protocol, with turns of this builder only. */
  lemma {:induction false} BuildIsRun(f: Files, digests: nat -> string, b: nat, schedule: seq<Luck>)
    ensures var s := Run(Guarded, Outgoing(f, map[]), digests, TurnsOf(b, schedule));
            var p := Build(f, Published(b, digests(b)), schedule);
            s.files == p.files && PhaseOf(s, b) == p.phase
  {
    hide Next;
    if schedule != [] {
      var n := |schedule| - 1;
      BuildIsRun(f, digests, b, schedule[..n]);
      var turns := TurnsOf(b, schedule);
      assert turns[..|turns| - 1] == TurnsOf(b, schedule[..n]) && turns[|turns| - 1] == Turn(b, schedule[n]);
    }
  }

  /** A schedule of twelve steps without a death ends the build. */
  lemma {:induction false} BuildEnds(f: Files, own: Published, schedule: seq<Luck>)
    requires Dies !in schedule
    ensures var p := Build(f, own, schedule).phase;
            !p.Crashed? && (p.Finished? || |schedule| <= Rank(p))
    ensures |schedule| >= 12 ==> Build(f, own, schedule).phase.Finished?
  {
    if schedule != [] {
      var n := |schedule| - 1;
      BuildEnds(f, own, schedule[..n]);
      var before := Build(f, own, schedule[..n]);
      NextMovesOn(Guarded, before.files, before.phase, own, schedule[n]);
      hide Next;
    }
  }

  lemma EndStays(b: Progress, own: Published, luck: Luck)
    requires Ended(b.phase)
    ensures Took(b, own, luck) == b
  {
  }

  predicate Free(f: Files) {
    f.archive.None? && f.sidecar.None? && f.handoff.None?
  }

  /** The archive was put in place and an error followed before ownership was claimed. */
  predicate LinkedUnclaimed(events: set<Event>) {
    Event(Reserved, RaisesLate) in events || Event(Reserved, EscapesLate) in events
  }

  predicate Claimed(events: set<Event>) {
    Event(Linked, Works) in events
  }

  predicate ClaimFailed(events: set<Event>) {
    exists e :: e in events && e.phase.Linked? && !e.luck.Works? && !e.luck.Dies?
  }

  /** The rollback could not remove the archive. */
  predicate RollbackRaised(events: set<Event>) {
    exists e :: e in events && e.phase.RollingBack? && (e.luck.Raises? || e.luck.Escapes?)
  }

  /** The rollback, or the last step of the handoff error path, removed the archive. */
  predicate TakenDown(events: set<Event>) {
    exists e :: e in events && (e.phase.RollingBack? || e.phase.UnwindingArchive?) && (e.luck.Works? || Late(e.luck))
  }

  /** Left without an owner: nobody's cleanup will look at it. */
  predicate Orphaned(events: set<Event>) {
    LinkedUnclaimed(events) || (ClaimFailed(events) && RollbackRaised(events))
  }

  /** Claimed and not taken down by the build itself. */
  predicate Standing(events: set<Event>) {
    Claimed(events) && !TakenDown(events)
  }

  predicate Placed(events: set<Event>) {
    Event(Reserved, Works) in events || LinkedUnclaimed(events)
  }

  predicate InPlace(events: set<Event>) {
    Placed(events) && !TakenDown(events)
  }

  predicate AllWorked(events: set<Event>) {
    forall e :: e in events ==> e.luck.Works?
  }

  /** Only steps before this phase have been taken. */
  predicate Past(events: set<Event>, p: Phase) {
    forall e :: e in events ==> Rank(e.phase) < Rank(p)
  }

  /** Phases on the way up, before anything can have failed. */
  predicate Climbing(p: Phase) {
    p.Idle? || p.Checked? || p.Reserved? || p.Linked? || p.Recorded? || p.SidecarOut?
  }

  /** What the events say about a build that started on a free, unmarked id; blocked if it was reserved already. */
  ghost predicate Explained(b: Progress, own: Published, blocked: bool) {
    && Past(b.events, b.phase)
    && Consistent(b.files) && Holds(b.files, b.phase, own)
    && b.files.archive == (if InPlace(b.events) then Some(own) else None)
    && (InPlace(b.events) ==> (b.files.owned <==> Claimed(b.events)))
    && (Claimed(b.events) ==> Placed(b.events))
    && AtPhase(b.events, b.phase)
    && (Delivered(b.phase) ==> AllWorked(b.events) && Standing(b.events) && !blocked)
    && (Climbing(b.phase) ==> AllWorked(b.events))
    && (b.phase.Idle? || b.phase.Checked? ==> b.files.reserved == blocked)
    && (b.phase.Idle? || b.phase.Checked? || b.phase.Reserved? ==> !b.files.owned)
    && (Climbing(b.phase) && !b.phase.Idle? && !b.phase.Checked? ==> !blocked)
    && (AllWorked(b.events) ==> Climbing(b.phase) || Delivered(b.phase) || blocked)
  }

  /** What has happened when a builder stands at a phase. */
  predicate AtPhase(events: set<Event>, p: Phase) {
    && (p.Idle? || p.Checked? || p.Reserved? ==> !Placed(events))
    && (p.Linked? ==> InPlace(events) && !Claimed(events) && !LinkedUnclaimed(events))
    && (p.Recorded? || p.SidecarOut? || p.Unwinding? || p.UnwindingSidecar? || p.UnwindingArchive? ==>
          Standing(events) && !LinkedUnclaimed(events) && !ClaimFailed(events))
    && (p.RollingBack? ==> InPlace(events) && !LinkedUnclaimed(events) && (Claimed(events) <==> !ClaimFailed(events)))
    && (p.Closing? || p.Releasing? || p.Finished? ==> (InPlace(events) && !Claimed(events) <==> Orphaned(events)))
  }

  /** What one more event adds to each fact. */
  lemma OneMoreEvent(events: set<Event>, e: Event)
    ensures var more := events + {e};
            && (LinkedUnclaimed(more) <==> LinkedUnclaimed(events) || (e.phase.Reserved? && Late(e.luck)))
            && (Placed(more) <==> Placed(events) || (e.phase.Reserved? && (e.luck.Works? || Late(e.luck))))
            && (Claimed(more) <==> Claimed(events) || (e.phase.Linked? && e.luck.Works?))
            && (ClaimFailed(more) <==> ClaimFailed(events) || (e.phase.Linked? && !e.luck.Works? && !e.luck.Dies?))
            && (RollbackRaised(more) <==>
                RollbackRaised(events) || (e.phase.RollingBack? && (e.luck.Raises? || e.luck.Escapes?)))
            && (TakenDown(more) <==>
                TakenDown(events) ||
                ((e.phase.RollingBack? || e.phase.UnwindingArchive?) && (e.luck.Works? || Late(e.luck))))
            && (AllWorked(more) <==> AllWorked(events) && e.luck.Works?)
  {
    assert e in events + {e};
    assert forall x :: x in events ==> x in events + {e};
  }

  /** What cannot have happened yet. */
  lemma NotYet(events: set<Event>, p: Phase)
    requires Past(events, p)
    ensures Rank(p) <= 2 ==> !Placed(events) && !LinkedUnclaimed(events)
    ensures Rank(p) <= 3 ==> !Claimed(events) && !ClaimFailed(events)
    ensures Rank(p) <= 6 ==> !RollbackRaised(events) && !TakenDown(events)
  {
  }

  lemma PastGrows(events: set<Event>, p: Phase, q: Phase, luck: Luck)
    requires Past(events, p) && Rank(p) < Rank(q)
    ensures Past(events + {Event(p, luck)}, q)
  {
  }

  /** The facts after one step. */
  lemma StepFacts(b: Progress, own: Published, blocked: bool, luck: Luck)
    requires Explained(b, own, blocked) && !Ended(b.phase) && !luck.Dies?
    ensures AtPhase(Took(b, own, luck).events, Took(b, own, luck).phase)
  {
    OneMoreEvent(b.events, Event(b.phase, luck));
    NotYet(b.events, b.phase);
    hide LinkedUnclaimed;
    hide Claimed;
    hide ClaimFailed;
    hide RollbackRaised;
    hide TakenDown;
    hide Placed;
    hide AllWorked;
    hide Past;
    hide Consistent;
    hide Delivered;
    hide Climbing;
  }

  /** The archive and its mark after one step. */
  lemma StepFiles(b: Progress, own: Published, blocked: bool, luck: Luck)
    requires Explained(b, own, blocked) && !Ended(b.phase) && !luck.Dies?
    ensures var t := Took(b, own, luck);
            && t.files.archive == (if InPlace(t.events) then Some(own) else None)
            && (InPlace(t.events) ==> (t.files.owned <==> Claimed(t.events)))
            && (Claimed(t.events) ==> Placed(t.events))
  {
    OneMoreEvent(b.events, Event(b.phase, luck));
    NotYet(b.events, b.phase);
    hide LinkedUnclaimed;
    hide Claimed;
    hide ClaimFailed;
    hide RollbackRaised;
    hide TakenDown;
    hide Placed;
    hide AllWorked;
    hide Past;
    hide Consistent;
    hide Delivered;
    hide Climbing;
  }

  lemma StepWins(b: Progress, own: Published, blocked: bool, luck: Luck)
    requires Explained(b, own, blocked) && !Ended(b.phase) && !luck.Dies?
    ensures var t := Took(b, own, luck);
            && (Delivered(t.phase) ==> AllWorked(t.events) && Standing(t.events) && !blocked)
            && (Climbing(t.phase) ==> AllWorked(t.events))
            && (t.phase.Idle? || t.phase.Checked? ==> t.files.reserved == blocked)
            && (t.phase.Idle? || t.phase.Checked? || t.phase.Reserved? ==> !t.files.owned)
            && (Climbing(t.phase) && !t.phase.Idle? && !t.phase.Checked? ==> !blocked)
            && (AllWorked(t.events) ==> Climbing(t.phase) || Delivered(t.phase) || blocked)
  {
    OneMoreEvent(b.events, Event(b.phase, luck));
    NotYet(b.events, b.phase);
    hide LinkedUnclaimed;
    hide Claimed;
    hide ClaimFailed;
    hide RollbackRaised;
    hide TakenDown;
    hide Placed;
    hide AllWorked;
    hide Past;
  }

  /** A death leaves everything as it stands. */
  lemma DeathExplained(b: Progress, own: Published, blocked: bool)
    requires Explained(b, own, blocked) && !Ended(b.phase)
    ensures Explained(Took(b, own, Dies), own, blocked)
  {
    OneMoreEvent(b.events, Event(b.phase, Dies));
    PastGrows(b.events, b.phase, Crashed, Dies);
    hide LinkedUnclaimed;
    hide Claimed;
    hide ClaimFailed;
    hide RollbackRaised;
    hide TakenDown;
    hide Placed;
    hide AllWorked;
    hide Past;
  }

  /** A build on a free id stays explained by its events. */
  lemma {:induction false} BuildIsExplained(f: Files, own: Published, schedule: seq<Luck>)
    requires Free(f) && !f.owned
    ensures Explained(Build(f, own, schedule), own, f.reserved)
  {
    if schedule != [] {
      var n := |schedule| - 1;
      BuildIsExplained(f, own, schedule[..n]);
      var b := Build(f, own, schedule[..n]);
      if Ended(b.phase) {
        EndStays(b, own, schedule[n]);
      } else if schedule[n].Dies? {
        hide Explained;
        DeathExplained(b, own, f.reserved);
      } else {
        NextIsSafe(b.files, b.phase, own, schedule[n]);
        NextMovesOn(Guarded, b.files, b.phase, own, schedule[n]);
        PastGrows(b.events, b.phase, Took(b, own, schedule[n]).phase, schedule[n]);
        StepFacts(b, own, f.reserved, schedule[n]);
        StepFiles(b, own, f.reserved, schedule[n]);
        StepWins(b, own, f.reserved, schedule[n]);
      }
      hide Next;
      hide Holds;
      hide Consistent;
    }
  }

  /** On an id that is not free nothing is touched and nothing is claimed. */
  lemma {:induction false} BuildKeepsForeign(f: Files, own: Published, schedule: seq<Luck>)
    requires !Free(f)
    ensures var b := Build(f, own, schedule);
            && b.files == f && (b.phase.Idle? || b.phase.Crashed? || (b.phase.Finished? && !b.phase.exit.Returned?))
            && forall e :: e in b.events ==> e.phase.Idle?
  {
    if schedule != [] {
      BuildKeepsForeign(f, own, schedule[..|schedule| - 1]);
    }
  }

  /** _cleanup_published_delivery as far as it gets: handoff, sidecar, archive, then the ownership mark. */
  function Sweep(f: Files, unlinks: nat): Files {
    if !f.owned then f
    else
      Files(if unlinks >= 3 then None else f.archive, if unlinks >= 2 then None else f.sidecar,
            if unlinks >= 1 then None else f.handoff, f.reserved, unlinks < 3)
  }

  /** Three unlinks are the whole cleanup. */
  lemma FullSweepIsCleanUp(f: Files, unlinks: nat)
    requires unlinks >= 3
    ensures Sweep(f, unlinks) == CleanUp(f)
  {
  }

  /** A complete cleanup after a build that has ended is the cleanup move of the publication protocol. */
  lemma FullSweepIsMove(f: Files, digests: nat -> string, b: nat, schedule: seq<Luck>, unlinks: nat)
    requires Build(f, Published(b, digests(b)), schedule).phase.Finished? && unlinks >= 3
    ensures var s := Run(Guarded, Outgoing(f, map[]), digests, TurnsOf(b, schedule));
            Make(s, digests, Clean(b)).files == Sweep(Build(f, Published(b, digests(b)), schedule).files, unlinks)
  {
    BuildIsRun(f, digests, b, schedule);
    FullSweepIsCleanUp(Build(f, Published(b, digests(b)), schedule).files, unlinks);
    hide Run;
    hide Build;
    hide Sweep;
  }

  /**
    Over every schedule of a lone builder on a free id: once the build has ended, and a cleanup has got as far
    as it did or was never made, the builder's archive is still there if and only if it was orphaned - linked
    and not claimed, or not claimed and not rolled back - or it stands claimed and the cleanup was not completed.
    When the archive is gone, so is everything else; a completed cleanup is that of `Publication`. The build
    returns exactly when every step worked and the id was not reserved.
   */
  lemma WhatRemains(f: Files, own: Published, schedule: seq<Luck>, cleanup: Option<nat>)
    requires Free(f) && !f.owned && Dies !in schedule && |schedule| >= 12
    ensures var b := Build(f, own, schedule);
            var left := if cleanup.Some? then Sweep(b.files, cleanup.value) else b.files;
            && b.phase.Finished?
            && (left.archive == Some(own) <==>
                Orphaned(b.events) || (Standing(b.events) && !(cleanup.Some? && cleanup.value >= 3)))
            && (left.archive != Some(own) ==> Free(left))
            && (cleanup.Some? && cleanup.value >= 3 ==> left == CleanUp(b.files))
            && (b.phase == Finished(Returned) <==> AllWorked(b.events) && !f.reserved)
  {
    BuildEnds(f, own, schedule);
    BuildIsExplained(f, own, schedule);
    hide Build;
    hide AllWorked;
    var b := Build(f, own, schedule);
    if cleanup.Some? && cleanup.value >= 3 {
      FullSweepIsCleanUp(b.files, cleanup.value);
    }
    hide Orphaned;
    hide Claimed;
    hide Placed;
    hide TakenDown;
  }

  lemma BuildGrows(f: Files, own: Published, schedule: seq<Luck>, luck: Luck)
    ensures Build(f, own, schedule + [luck]) == Took(Build(f, own, schedule), own, luck)
  {
    assert (schedule + [luck])[..|schedule|] == schedule;
    hide Took;
  }

  lemma BuildOfNothing(f: Files, own: Published)
    ensures Build(f, own, []) == Progress(f, Idle, {})
  {
  }

  /** Two good steps, and an error behind the link. */
  lemma LinkRaisesLate(own: Published)
    ensures var b := Build(NOTHING, own, [Works, Works, RaisesLate]);
            && b.files == NOTHING.(archive := Some(own), reserved := true)
            && b.phase == Closing(Refused) && Event(Reserved, RaisesLate) in b.events
  {
    BuildOfNothing(NOTHING, own);
    BuildGrows(NOTHING, own, [], Works);
    BuildGrows(NOTHING, own, [Works], Works);
    BuildGrows(NOTHING, own, [Works, Works], RaisesLate);
    hide Build;
    assert [] + [Works] == [Works];
    assert [Works] + [Works] == [Works, Works];
    assert [Works, Works] + [RaisesLate] == [Works, Works, RaisesLate];
  }

  lemma ClosesAndReleases(b: Progress, own: Published)
    requires b.phase == Closing(Refused)
    ensures var t := Took(Took(b, own, Works), own, Works);
            t.phase == Finished(Refused) && t.files == b.files.(reserved := false) && b.events <= t.events
  {
  }

  /** The build that put its archive in place and then failed to set its mode: no cleanup ever finds it. */
  lemma OrphanOccurs(own: Published)
    ensures var b := Build(NOTHING, own, [Works, Works, RaisesLate, Works, Works]);
            && b.phase == Finished(Refused) && Orphaned(b.events)
            && forall n: nat :: Sweep(b.files, n).archive == Some(own)
  {
    var three := [Works, Works, RaisesLate];
    LinkRaisesLate(own);
    BuildGrows(NOTHING, own, three, Works);
    BuildGrows(NOTHING, own, three + [Works], Works);
    ClosesAndReleases(Build(NOTHING, own, three), own);
    assert three + [Works] + [Works] == [Works, Works, RaisesLate, Works, Works];
    hide Build;
    hide Took;
  }
}
