/** Publishing one delivery id: interleaved builders, each step able to fail, any builder able to die. */
module Publication {
  import opened BundleManifest

  /** A file in the outgoing directory: who created it and the archive digest it holds or names. */
  datatype Published = Published(owner: nat, digest: string)

  /** The outgoing files of one delivery id, its reservation, and the process's ownership mark for it. */
  datatype Files = Files(
    archive: Option<Published>, sidecar: Option<Published>, handoff: Option<Published>, reserved: bool, owned: bool)

  /** How build_bundle ends: it returns, it raises its own error type, or some other exception gets out. */
  datatype Exit = Returned | Refused | Escaped

  /** Where one builder stands; every phase names the step it takes next. */
  datatype Phase =
    | Idle | Checked | Reserved | Linked | Recorded | SidecarOut
    | RollingBack(escaping: bool) | Unwinding | UnwindingSidecar | UnwindingArchive
    | Closing(exit: Exit) | Releasing(exit: Exit) | Finished(exit: Exit) | Crashed

  /**
    How the next step goes: it works; it raises an error the service turns into its own type, or one it lets
    through, each before or after the step took effect; or the process dies before it.
   */
  datatype Luck = Works | Raises | RaisesLate | Escapes | EscapesLate | Dies

  predicate Late(luck: Luck) {
    luck.RaisesLate? || luck.EscapesLate?
  }

  function ExitOf(luck: Luck): Exit {
    if luck.Escapes? || luck.EscapesLate? then Escaped else Refused
  }

  /** Link without replacing, or the base class's os.replace. */
  datatype Publisher = Guarded | Base

  datatype Effect = Effect(files: Files, phase: Phase)

  function Reserve(f: Files, luck: Luck): Effect {
    if f.reserved then Effect(f, Finished(Refused))
    else if luck.Works? then Effect(f.(reserved := true), Reserved)
    else Effect(f.(reserved := Late(luck)), Finished(ExitOf(luck)))
  }

  /**
    _atomic_publish, first step: put the archive in place. In the guarded service an error after the link
    leaves it there unowned; the base class sweeps the sidecar on any error.
   */
  function PutArchive(how: Publisher, f: Files, own: Published, luck: Luck): Effect {
    if how.Guarded? then
      if f.archive.Some? && luck.Works? then Effect(f, Closing(Refused))
      else if f.archive.Some? || luck.Raises? || luck.Escapes? then Effect(f, Closing(ExitOf(luck)))
      else Effect(f.(archive := Some(own)), if luck.Works? then Linked else Closing(ExitOf(luck)))
    else if luck.Works? then Effect(f.(archive := Some(own)), Linked)
    else if Late(luck) then Effect(f.(archive := Some(own)), RollingBack(ExitOf(luck).Escaped?))
    else Effect(f.(sidecar := None), Closing(ExitOf(luck)))
  }

  /** The guarded service records ownership per delivery id; the base class has no such step. */
  function RecordOwnership(how: Publisher, f: Files, luck: Luck): Effect {
    if how.Base? then Effect(f, Recorded)
    else if !luck.Works? then Effect(f, RollingBack(ExitOf(luck).Escaped?))
    else if f.owned then Effect(f, RollingBack(false))
    else Effect(f.(owned := true), Recorded)
  }

  function PutSidecar(how: Publisher, f: Files, own: Published, luck: Luck): Effect {
    if luck.Raises? || luck.Escapes? then Effect(f, RollingBack(ExitOf(luck).Escaped?))
    else if how.Guarded? && f.sidecar.Some? then Effect(f, RollingBack(false))
    else Effect(f.(sidecar := Some(own)), if luck.Works? then SidecarOut else Closing(ExitOf(luck)))
  }

  /** The guarded rollback drops its archive and the ownership mark; the base class drops the sidecar first. */
  function RollBack(how: Publisher, f: Files, escaping: bool, luck: Luck): Effect {
    var swept := if how.Base? then f.(sidecar := None) else f;
    if luck.Raises? || luck.Escapes? then Effect(swept, Closing(ExitOf(luck)))
    else if Late(luck) then Effect(swept.(archive := None), Closing(ExitOf(luck)))
    else
      Effect(swept.(archive := None, owned := if how.Guarded? then false else f.owned),
             Closing(if escaping then Escaped else Refused))
  }

  /**
    Handoff: an existing one is a plain refusal; a known error takes the files back down; any other exception
    leaves everything as it stands.
   */
  function PutHandoff(how: Publisher, f: Files, own: Published, luck: Luck): Effect {
    if luck.Raises? then Effect(f, Unwinding)
    else if luck.Escapes? then Effect(f, Closing(Escaped))
    else if how.Guarded? && f.handoff.Some? then Effect(f, Closing(Refused))
    else
      Effect(f.(handoff := Some(own)),
             if luck.Works? then Closing(Returned) else if luck.RaisesLate? then Unwinding else Closing(Escaped))
  }

  /** One unlink of the handoff error path; an error ends the path there. */
  function Unlinked(f: Files, without: Files, luck: Luck, next: Phase): Effect {
    if luck.Works? then Effect(without, next)
    else Effect(if Late(luck) then without else f, Closing(ExitOf(luck)))
  }

  /** Leaving the temporary directory: an error there replaces whatever was under way. */
  function Close(f: Files, exit: Exit, luck: Luck): Effect {
    Effect(f, Releasing(if luck.Works? then exit else ExitOf(luck)))
  }

  /** The finally clause: an error in it gets out as it is. */
  function Release(f: Files, exit: Exit, luck: Luck): Effect {
    Effect(if luck.Works? || Late(luck) then f.(reserved := false) else f,
           Finished(if luck.Works? then exit else Escaped))
  }

  /** The next step of a builder standing at a phase. */
  function Next(how: Publisher, f: Files, phase: Phase, own: Published, luck: Luck): Effect {
    if phase.Finished? || phase.Crashed? then Effect(f, phase)
    else if luck.Dies? then Effect(f, Crashed)
    else
      match phase
      case Idle =>
        if !luck.Works? then Effect(f, Finished(ExitOf(luck)))
        else Effect(f, if f.archive.Some? || f.sidecar.Some? || f.handoff.Some? then Finished(Refused) else Checked)
      case Checked => Reserve(f, luck)
      case Reserved => PutArchive(how, f, own, luck)
      case Linked => RecordOwnership(how, f, luck)
      case Recorded => PutSidecar(how, f, own, luck)
      case SidecarOut => PutHandoff(how, f, own, luck)
      case RollingBack(escaping) => RollBack(how, f, escaping, luck)
      case Unwinding => Unlinked(f, f.(handoff := None), luck, UnwindingSidecar)
      case UnwindingSidecar => Unlinked(f, f.(sidecar := None), luck, UnwindingArchive)
      case UnwindingArchive => Unlinked(f, f.(archive := None), luck, Closing(Refused))
      case Closing(exit) => Close(f, exit, luck)
      case Releasing(exit) => Release(f, exit, luck)
      case _ => Effect(f, phase)
  }

  /** Every step moves a builder strictly on, so it takes each at most once. */
  function Rank(p: Phase): (r: nat)
    ensures r <= 11
  {
    match p
    case Idle => 0
    case Checked => 1
    case Reserved => 2
    case Linked => 3
    case Recorded => 4
    case SidecarOut => 5
    case RollingBack(_) => 6
    case Unwinding => 6
    case UnwindingSidecar => 7
    case UnwindingArchive => 8
    case Closing(_) => 9
    case Releasing(_) => 10
    case Finished(_) => 11
    case Crashed => 11
  }

  predicate Ended(p: Phase) {
    p.Finished? || p.Crashed?
  }

  lemma NextMovesOn(how: Publisher, f: Files, phase: Phase, own: Published, luck: Luck)
    ensures var q := Next(how, f, phase, own, luck).phase;
            && (if Ended(phase) then q == phase else Rank(phase) < Rank(q))
            && (q.Crashed? <==> phase.Crashed? || (luck.Dies? && !phase.Finished?))
  {
  }

  /** The directory and every builder of the delivery id; a builder not heard of yet is idle. */
  datatype Outgoing = Outgoing(files: Files, phases: map<nat, Phase>)

  function PhaseOf(s: Outgoing, b: nat): Phase {
    if b in s.phases then s.phases[b] else Idle
  }

  /** One turn of a schedule: whose step, with what luck. */
  datatype Turn = Turn(builder: nat, luck: Luck)

  function Step(how: Publisher, s: Outgoing, digests: nat -> string, turn: Turn): Outgoing {
    var b := turn.builder;
    var effect := Next(how, s.files, PhaseOf(s, b), Published(b, digests(b)), turn.luck);
    Outgoing(effect.files, s.phases[b := effect.phase])
  }

  function Run(how: Publisher, s: Outgoing, digests: nat -> string, turns: seq<Turn>): Outgoing {
    if turns == [] then s
    else Step(how, Run(how, s, digests, turns[..|turns| - 1]), digests, turns[|turns| - 1])
  }

  predicate HoldsArchive(p: Phase) {
    p.Linked? || p.Recorded? || p.RollingBack? || p.UnwindingArchive?
  }

  /** Everything is published; only the ways out of the build remain. */
  predicate Delivered(p: Phase) {
    p == Closing(Returned) || p == Releasing(Returned) || p == Finished(Returned)
  }

  predicate HoldsPair(p: Phase) {
    p.SidecarOut? || p.Unwinding? || p.UnwindingSidecar? || Delivered(p)
  }

  predicate BeforeHandoff(p: Phase) {
    HoldsArchive(p) || p.SidecarOut? || p.UnwindingSidecar?
  }

  /** What a builder at this phase can count on. */
  predicate Holds(f: Files, p: Phase, own: Published) {
    && (HoldsArchive(p) ==> f.archive == Some(own) && f.sidecar.None?)
    && (HoldsPair(p) ==> f.archive == f.sidecar == Some(own))
    && (BeforeHandoff(p) ==> f.handoff.None?)
    && (Delivered(p) ==> f.handoff == Some(own))
  }

  /** What a reader of the outgoing directory can rely on: sidecar and handoff name the archive that is there. */
  predicate Consistent(f: Files) {
    && (f.sidecar.Some? ==> f.archive == f.sidecar)
    && (f.handoff.Some? ==> f.sidecar == f.handoff)
  }

  ghost predicate Inv(s: Outgoing, digests: nat -> string) {
    Consistent(s.files) && forall b: nat :: Holds(s.files, PhaseOf(s, b), Published(b, digests(b)))
  }

  /** Only this owner's files came, and only its own went; nothing was replaced. */
  predicate TouchesOwn(f: Files, g: Files, owner: nat) {
    && (g.archive != f.archive ==> f.archive.None? || f.archive.value.owner == owner)
    && (f.archive.Some? && g.archive.Some? ==> g.archive == f.archive)
    && (g.sidecar != f.sidecar ==> f.sidecar.None? || f.sidecar.value.owner == owner)
    && (f.sidecar.Some? && g.sidecar.Some? ==> g.sidecar == f.sidecar)
    && (g.sidecar != f.sidecar && g.sidecar.Some? ==> g.sidecar.value.owner == owner)
    && (g.handoff != f.handoff && g.handoff.Some? ==> g.handoff.value.owner == owner)
    && (g.handoff != f.handoff ==> f.handoff.None? || f.handoff.value.owner == owner)
  }

  lemma NextIsSafe(f: Files, phase: Phase, own: Published, luck: Luck)
    requires Consistent(f) && Holds(f, phase, own)
    ensures var effect := Next(Guarded, f, phase, own, luck);
            Consistent(effect.files) && Holds(effect.files, effect.phase, own) && TouchesOwn(f, effect.files, own.owner)
  {
  }

  lemma OthersKeepHold(f: Files, g: Files, owner: nat, p: Phase, other: Published)
    requires other.owner != owner && Holds(f, p, other) && Consistent(g) && TouchesOwn(f, g, owner)
    ensures Holds(g, p, other)
  {
  }

  /** Whatever is there before the first builder starts, as long as sidecar and handoff name the archive. */
  lemma InvInitially(s: Outgoing, digests: nat -> string)
    requires Consistent(s.files) && s.phases == map[]
    ensures Inv(s, digests)
  {
  }

  /** Every step of every builder keeps the directory consistent, each builder's holdings, and others' files. */
  lemma StepIsSafe(s: Outgoing, digests: nat -> string, turn: Turn)
    requires Inv(s, digests)
    ensures Inv(Step(Guarded, s, digests, turn), digests)
    ensures TouchesOwn(s.files, Step(Guarded, s, digests, turn).files, turn.builder)
  {
    var t := Step(Guarded, s, digests, turn);
    var b := turn.builder;
    assert Holds(s.files, PhaseOf(s, b), Published(b, digests(b)));
    hide Next;
    hide Holds;
    hide Consistent;
    hide TouchesOwn;
    NextIsSafe(s.files, PhaseOf(s, b), Published(b, digests(b)), turn.luck);
    forall c: nat
      ensures Holds(t.files, PhaseOf(t, c), Published(c, digests(c)))
    {
      assert Holds(s.files, PhaseOf(s, c), Published(c, digests(c)));
      if c != b {
        OthersKeepHold(s.files, t.files, b, PhaseOf(s, c), Published(c, digests(c)));
      }
    }
  }

  /**
    From any directory, consistent or not: no step puts one file in the place of another, no reservation is made
    where there is one, and no id is claimed that is claimed already.
   */
  lemma AnyStepReplacesNothing(s: Outgoing, digests: nat -> string, turn: Turn)
    ensures var t := Step(Guarded, s, digests, turn);
            && (s.files.archive.Some? && t.files.archive.Some? ==> t.files.archive == s.files.archive)
            && (s.files.sidecar.Some? && t.files.sidecar.Some? ==> t.files.sidecar == s.files.sidecar)
            && (s.files.handoff.Some? && t.files.handoff.Some? ==> t.files.handoff == s.files.handoff)
            && (PhaseOf(s, turn.builder) == Checked && PhaseOf(t, turn.builder) == Reserved ==>
                !s.files.reserved && t.files.reserved)
            && (PhaseOf(s, turn.builder) == Linked && PhaseOf(t, turn.builder) == Recorded ==>
                !s.files.owned && t.files.owned)
  {
  }

  /**
    Under any interleaving of builders of one delivery id, with failure or death at any step: a visible
    sidecar, and a visible handoff, name the visible archive.
   */
  lemma {:induction false} RunIsConsistent(s: Outgoing, digests: nat -> string, turns: seq<Turn>)
    requires Inv(s, digests)
    ensures Inv(Run(Guarded, s, digests, turns), digests)
  {
    hide Step;
    hide Inv;
    if turns != [] {
      var n := |turns| - 1;
      RunIsConsistent(s, digests, turns[..n]);
      StepIsSafe(Run(Guarded, s, digests, turns[..n]), digests, turns[n]);
    }
  }

  /** No turn of the archive's owner. */
  predicate WithoutOwner(turns: seq<Turn>, owner: nat) {
    forall i :: 0 <= i < |turns| ==> turns[i].builder != owner
  }

  /** An archive in place, and the sidecar beside it, stay as they are while only others take turns. */
  lemma {:induction false} NeverReplaced(s: Outgoing, digests: nat -> string, turns: seq<Turn>)
    requires Inv(s, digests) && s.files.archive.Some? && WithoutOwner(turns, s.files.archive.value.owner)
    ensures var f := Run(Guarded, s, digests, turns).files;
            f.archive == s.files.archive && (s.files.sidecar.Some? ==> f.sidecar == s.files.sidecar)
  {
    hide Step;
    if turns != [] {
      var n := |turns| - 1;
      NeverReplaced(s, digests, turns[..n]);
      RunIsConsistent(s, digests, turns[..n]);
      hide Holds;
      StepIsSafe(Run(Guarded, s, digests, turns[..n]), digests, turns[n]);
    }
  }

  lemma {:induction false} FinishedStays(s: Outgoing, digests: nat -> string, b: nat, turns: seq<Turn>)
    requires PhaseOf(s, b).Finished?
    ensures PhaseOf(Run(Guarded, s, digests, turns), b) == PhaseOf(s, b)
  {
    if turns != [] {
      FinishedStays(s, digests, b, turns[..|turns| - 1]);
    }
  }

  /** What a builder reported as published stays published, whatever every builder does afterwards. */
  lemma PublishedForGood(s: Outgoing, digests: nat -> string, b: nat, turns: seq<Turn>)
    requires Inv(s, digests) && PhaseOf(s, b) == Finished(Returned)
    ensures var f := Run(Guarded, s, digests, turns).files;
            f.archive == f.sidecar == f.handoff == Some(Published(b, digests(b)))
  {
    FinishedStays(s, digests, b, turns);
    RunIsConsistent(s, digests, turns);
    assert Holds(Run(Guarded, s, digests, turns).files, Finished(Returned), Published(b, digests(b)));
    hide Run;
  }

  /**
    From any consistent start, whatever the schedule: the directory is consistent at every moment, and an
    archive and sidecar once in place stay while their owner takes no further turn.
   */
  lemma FromConsistentStart(f: Files, digests: nat -> string, turns: seq<Turn>, others: seq<Turn>)
    requires Consistent(f)
    ensures var now := Run(Guarded, Outgoing(f, map[]), digests, turns).files;
            var after := Run(Guarded, Outgoing(f, map[]), digests, turns + others).files;
            && Consistent(now)
            && (now.archive.Some? && WithoutOwner(others, now.archive.value.owner) ==>
                after.archive == now.archive && (now.sidecar.Some? ==> after.sidecar == now.sidecar))
  {
    var start := Outgoing(f, map[]);
    InvInitially(start, digests);
    RunIsConsistent(start, digests, turns);
    RunSplits(Guarded, start, digests, turns, others);
    var s := Run(Guarded, start, digests, turns);
    hide Run;
    hide Holds;
    if s.files.archive.Some? && WithoutOwner(others, s.files.archive.value.owner) {
      NeverReplaced(s, digests, others);
    }
  }

  const NOTHING: Files := Files(None, None, None, false, false)

  function Steps(b: nat, n: nat): seq<Turn> {
    seq(n, _ => Turn(b, Works))
  }

  lemma {:induction false} RunSplits(how: Publisher, s: Outgoing, digests: nat -> string, a: seq<Turn>, b: seq<Turn>)
    ensures Run(how, s, digests, a + b) == Run(how, Run(how, s, digests, a), digests, b)
  {
    hide Step;
    if b == [] {
      assert a + b == a;
    } else {
      var n := |b| - 1;
      assert (a + b)[..|a + b| - 1] == a + b[..n];
      RunSplits(how, s, digests, a, b[..n]);
    }
  }

  lemma OneMore(how: Publisher, s: Outgoing, digests: nat -> string, b: nat, n: nat)
    ensures Run(how, s, digests, Steps(b, n + 1)) ==
            Step(how, Run(how, s, digests, Steps(b, n)), digests, Turn(b, Works))
    ensures Run(how, s, digests, Steps(b, 0)) == s
  {
    hide Step;
    assert Steps(b, n + 1)[..n] == Steps(b, n);
  }

  /** After n undisturbed turns of builder b. */
  predicate At(how: Publisher, s: Outgoing, digests: nat -> string, b: nat, n: nat, f: Files, p: Phase) {
    Run(how, s, digests, Steps(b, n)) == Outgoing(f, s.phases[b := p])
  }

  lemma Advance(
    how: Publisher, s: Outgoing, digests: nat -> string, b: nat, n: nat, f: Files, p: Phase, g: Files, q: Phase)
    requires At(how, s, digests, b, n, f, p)
    requires Next(how, f, p, Published(b, digests(b)), Works) == Effect(g, q)
    ensures At(how, s, digests, b, n + 1, g, q)
  {
    OneMore(how, s, digests, b, n);
    hide Next;
    hide Run;
    hide Steps;
    assert s.phases[b := p][b := q] == s.phases[b := q];
  }

  lemma FirstStep(how: Publisher, s: Outgoing, digests: nat -> string, b: nat)
    requires s.files == NOTHING && PhaseOf(s, b) == Idle
    ensures At(how, s, digests, b, 1, NOTHING, Checked)
  {
    OneMore(how, s, digests, b, 0);
    hide Run;
    hide Steps;
  }

  /** Eight undisturbed turns publish a delivery when nothing is in its way. */
  lemma PublishesAlone(how: Publisher, s: Outgoing, digests: nat -> string, b: nat)
    requires s.files == NOTHING && PhaseOf(s, b) == Idle
    ensures var own := Some(Published(b, digests(b)));
            Run(how, s, digests, Steps(b, 8)) ==
            Outgoing(Files(own, own, own, false, how.Guarded?), s.phases[b := Finished(Returned)])
  {
    var own := Some(Published(b, digests(b)));
    FirstStep(how, s, digests, b);
    var f2, f3 := NOTHING.(reserved := true), Files(own, None, None, true, false);
    var f4, f5 := Files(own, None, None, true, how.Guarded?), Files(own, own, None, true, how.Guarded?);
    var f6, f7 := Files(own, own, own, true, how.Guarded?), Files(own, own, own, false, how.Guarded?);
    NextUndisturbed(how, Published(b, digests(b)));
    assert At(how, s, digests, b, 8, f7, Finished(Returned)) by {
      hide *;
      Advance(how, s, digests, b, 1, NOTHING, Checked, f2, Reserved);
      Advance(how, s, digests, b, 2, f2, Reserved, f3, Linked);
      Advance(how, s, digests, b, 3, f3, Linked, f4, Recorded);
      Advance(how, s, digests, b, 4, f4, Recorded, f5, SidecarOut);
      Advance(how, s, digests, b, 5, f5, SidecarOut, f6, Closing(Returned));
      Advance(how, s, digests, b, 6, f6, Closing(Returned), f6, Releasing(Returned));
      Advance(how, s, digests, b, 7, f6, Releasing(Returned), f7, Finished(Returned));
    }
    hide Run;
    hide Steps;
    hide Next;
  }

  /** The seven steps after the existence check, each from the state the one before leaves. */
  lemma NextUndisturbed(how: Publisher, own: Published)
    ensures var put := Some(own);
            var mine := how.Guarded?;
            && Next(how, NOTHING, Checked, own, Works) == Effect(NOTHING.(reserved := true), Reserved)
            && Next(how, NOTHING.(reserved := true), Reserved, own, Works) ==
               Effect(Files(put, None, None, true, false), Linked)
            && Next(how, Files(put, None, None, true, false), Linked, own, Works) ==
               Effect(Files(put, None, None, true, mine), Recorded)
            && Next(how, Files(put, None, None, true, mine), Recorded, own, Works) ==
               Effect(Files(put, put, None, true, mine), SidecarOut)
            && Next(how, Files(put, put, None, true, mine), SidecarOut, own, Works) ==
               Effect(Files(put, put, put, true, mine), Closing(Returned))
            && Next(how, Files(put, put, put, true, mine), Closing(Returned), own, Works) ==
               Effect(Files(put, put, put, true, mine), Releasing(Returned))
            && Next(how, Files(put, put, put, true, mine), Releasing(Returned), own, Works) ==
               Effect(Files(put, put, put, false, mine), Finished(Returned))
  {
  }

  /** Builder 1 checks; builder 0 publishes from start to end; builder 1 goes on to reserve and publish. */
  function LateSecondBuilder(): seq<Turn> {
    Steps(1, 1) + Steps(0, 8) + Steps(1, 2)
  }

  lemma LateSecondState(how: Publisher, digests: nat -> string)
    ensures var own := Some(Published(0, digests(0)));
            var s := Outgoing(Files(own, own, own, false, how.Guarded?), map[1 := Checked, 0 := Finished(Returned)]);
            Run(how, Outgoing(NOTHING, map[]), digests, LateSecondBuilder()) ==
            Step(how, Step(how, s, digests, Turn(1, Works)), digests, Turn(1, Works))
  {
    var start := Outgoing(NOTHING, map[]);
    RunSplits(how, start, digests, Steps(1, 1) + Steps(0, 8), Steps(1, 2));
    RunSplits(how, start, digests, Steps(1, 1), Steps(0, 8));
    OneMore(how, start, digests, 1, 0);
    var first := Outgoing(NOTHING, map[1 := Checked]);
    assert Step(how, start, digests, Turn(1, Works)) == first;
    PublishesAlone(how, first, digests, 0);
    var own := Some(Published(0, digests(0)));
    var s := Outgoing(Files(own, own, own, false, how.Guarded?), map[1 := Checked, 0 := Finished(Returned)]);
    assert first.phases[0 := Finished(Returned)] == s.phases;
    OneMore(how, s, digests, 1, 0);
    OneMore(how, s, digests, 1, 1);
    hide Step;
    hide Run;
  }

  /**
    The base class's os.replace gives this up: the second builder, whose existence check came before the
    first one's reservation, replaces a published archive, and the first builder's sidecar then names
    content that is gone. Linking without replacing stops the same schedule.
   */
  lemma BaseReplacesPublished(digests: nat -> string)
    requires digests(0) != digests(1)
    ensures var t := Run(Base, Outgoing(NOTHING, map[]), digests, LateSecondBuilder());
            && PhaseOf(t, 0) == Finished(Returned)
            && t.files.archive == Some(Published(1, digests(1))) && t.files.sidecar == Some(Published(0, digests(0)))
            && !Consistent(t.files)
    ensures var t := Run(Guarded, Outgoing(NOTHING, map[]), digests, LateSecondBuilder());
            && PhaseOf(t, 0) == Finished(Returned)
            && t.files.archive == t.files.sidecar == Some(Published(0, digests(0)))
  {
    LateSecondState(Base, digests);
    LateSecondState(Guarded, digests);
    hide Run;
  }

  /** _cleanup_published_delivery: what is recorded under the delivery id goes. */
  function CleanUp(f: Files): Files {
    if f.owned then f.(handoff := None, sidecar := None, archive := None, owned := false) else f
  }

  /** The export worker of one builder: its build steps, and the cleanup of its failure handlers after the build. */
  datatype Move = Build(turn: Turn) | Clean(builder: nat)

  function Make(s: Outgoing, digests: nat -> string, move: Move): Outgoing {
    match move
    case Build(turn) => Step(Guarded, s, digests, turn)
    case Clean(b) => if PhaseOf(s, b).Finished? then s.(files := CleanUp(s.files)) else s
  }

  function Moves(s: Outgoing, digests: nat -> string, moves: seq<Move>): Outgoing {
    if moves == [] then s else Make(Moves(s, digests, moves[..|moves| - 1]), digests, moves[|moves| - 1])
  }

  function BuilderOf(move: Move): nat {
    match move
    case Build(turn) => turn.builder
    case Clean(b) => b
  }

  /** A lone builder among what was there before: foreign files untouched, or nothing but its own. */
  ghost predicate Alone(before: Files, s: Outgoing, b: nat, own: Published) {
    && Consistent(s.files)
    && (s.files.owned ==> s.files.archive.Some? ==> s.files.archive == Some(own))
    && (if before.archive.Some? then
          && s.files == before
          && (|| PhaseOf(s, b).Idle? || PhaseOf(s, b).Crashed?
              || (PhaseOf(s, b).Finished? && !PhaseOf(s, b).exit.Returned?))
        else
          && (s.files.archive.Some? ==> s.files.archive == Some(own))
          && (PhaseOf(s, b) != Finished(Returned) ==> Holds(s.files, PhaseOf(s, b), own)))
  }

  lemma AloneStep(before: Files, s: Outgoing, digests: nat -> string, b: nat, move: Move)
    requires BuilderOf(move) == b && Alone(before, s, b, Published(b, digests(b))) && !before.owned
    ensures Alone(before, Make(s, digests, move), b, Published(b, digests(b)))
  {
    var own := Published(b, digests(b));
    match move
    case Clean(_) =>
    case Build(turn) =>
      if PhaseOf(s, b) != Finished(Returned) && Holds(s.files, PhaseOf(s, b), own) {
        NextIsSafe(s.files, PhaseOf(s, b), own, turn.luck);
      }
  }

  lemma {:induction false} StaysAlone(s: Outgoing, digests: nat -> string, b: nat, moves: seq<Move>)
    requires Consistent(s.files) && !s.files.owned && PhaseOf(s, b) == Idle
    requires forall i :: 0 <= i < |moves| ==> BuilderOf(moves[i]) == b
    ensures Alone(s.files, Moves(s, digests, moves), b, Published(b, digests(b)))
  {
    hide Make;
    if moves != [] {
      var n := |moves| - 1;
      StaysAlone(s, digests, b, moves[..n]);
      hide Alone;
      AloneStep(s.files, Moves(s, digests, moves[..n]), digests, b, moves[n]);
    }
  }

  /**
    One builder per delivery id: an archive that was there before, with its sidecar and handoff, survives
    everything that builder and its cleanup do; otherwise the only archive that can be there is the builder's own.
   */
  lemma ForeignFilesSurvive(s: Outgoing, digests: nat -> string, b: nat, moves: seq<Move>)
    requires Consistent(s.files) && !s.files.owned && PhaseOf(s, b) == Idle
    requires forall i :: 0 <= i < |moves| ==> BuilderOf(moves[i]) == b
    ensures var f := Moves(s, digests, moves).files;
            && Consistent(f)
            && (s.files.archive.Some? ==> f == s.files)
            && (s.files.archive.None? && f.archive.Some? ==> f.archive == Some(Published(b, digests(b))))
  {
    StaysAlone(s, digests, b, moves);
    hide Moves;
  }

  /** A cleanup changes the directory exactly when its builder is through, the id is marked, and a file is there. */
  lemma CleanupTouchesIff(s: Outgoing, digests: nat -> string, b: nat)
    ensures var f := Make(s, digests, Clean(b)).files;
            (f.archive != s.files.archive || f.sidecar != s.files.sidecar || f.handoff != s.files.handoff) <==>
            && PhaseOf(s, b).Finished? && s.files.owned
            && (s.files.archive.Some? || s.files.sidecar.Some? || s.files.handoff.Some?)
  {
  }

  /**
    With a second builder of the same id, its failed existence check makes its cleanup delete the first one's
    delivery.
   */
  lemma CleanupNeedsUniqueId(digests: nat -> string)
    ensures var t := Run(Guarded, Outgoing(NOTHING, map[]), digests, Steps(0, 8));
            var late := Make(t, digests, Build(Turn(1, Works)));
            && PhaseOf(t, 0) == Finished(Returned) && t.files.archive.Some?
            && PhaseOf(late, 1) == Finished(Refused) && late.files == t.files
            && Make(late, digests, Clean(1)).files == NOTHING
  {
    PublishesAlone(Guarded, Outgoing(NOTHING, map[]), digests, 0);
    hide Run;
  }
}
