/** Trusted-key requests cut short: what any stop between two file operations leaves, over whole runs. */
module TrustedKeyCrashes {
  import opened BundleNames
  import opened TrustedKeys

  /** The file operations of a request, in order; the store's methods perform exactly these. */
  function OpsOf(dir: Directory, q: Request, limit: nat): seq<Op> {
    match q
    case AddKey(fp) => AddOps(dir, fp, limit)
    case ReplaceKey(previous, replacement, renameFails) => ReplaceOps(dir, previous, replacement, renameFails)
    case EnableKey(fp, enabled) => SetEnabledOps(dir, fp, enabled)
    case RemoveKey(fp) => RemoveOps(dir, fp)
  }

  /** A request and how many of its file operations it performs before an error or a death; all of them if fewer. */
  datatype Attempt = Attempt(request: Request, operations: nat)

  predicate CutShort(dir: Directory, t: Attempt, limit: nat) {
    t.operations < |OpsOf(dir, t.request, limit)|
  }

  function Attempted(dir: Directory, t: Attempt, limit: nat): Directory {
    var ops := OpsOf(dir, t.request, limit);
    Performed(dir, if t.operations < |ops| then ops[..t.operations] else ops)
  }

  function CutRun(dir: Directory, attempts: seq<Attempt>, limit: nat): Directory {
    if attempts == [] then dir
    else Attempted(CutRun(dir, attempts[..|attempts| - 1], limit), attempts[|attempts| - 1], limit)
  }

  lemma SettleReach(dir: Directory, fp: Fingerprint, matches: seq<string>, enabled: bool)
    requires forall name :: name in matches <==> name in MatchSet(dir, fp)
    ensures Performed(dir, SettleOps(fp, matches, enabled)) ==
            Rewritten(dir, MatchSet(dir, fp) + CanonicalNames(fp), PathFor(fp, enabled), fp)
  {
    PathPair(fp, enabled);
    hide MatchSet;
    hide PathFor;
    hide CanonicalNames;
    hide Rewritten;
    hide Performed;
    hide States;
    hide Drops;
    hide Others;
    var target, opposite := PathFor(fp, enabled), PathFor(fp, !enabled);
    WriteThenDrop(dir, target, fp, matches);
    var both := [Write(target, fp)] + Drops(Others(matches, target));
    OpsAppend(dir, both, [Drop(opposite)]);
    SingleOp(Performed(dir, both), Drop(opposite));
    RewriteShape(dir, MatchSet(dir, fp), matches, target, opposite, fp);
  }

  lemma WriteThenDrop(dir: Directory, name: string, fp: Fingerprint, paths: seq<string>)
    ensures Performed(dir, [Write(name, fp)] + Drops(Others(paths, name))) ==
            dir[name := Key(fp)] - set p | p in paths && p != name
  {
    hide Performed;
    hide States;
    hide Drops;
    hide Others;
    OpsAppend(dir, [Write(name, fp)], Drops(Others(paths, name)));
    SingleOp(dir, Write(name, fp));
    DropsAll(dir[name := Key(fp)], Others(paths, name));
    assert (set p | p in Others(paths, name)) == set p | p in paths && p != name;
  }

  lemma DropReach(dir: Directory, fp: Fingerprint, paths: seq<string>)
    ensures Performed(dir, DropOps(fp, paths)) == dir - (set p | p in paths) - CanonicalNames(fp)
  {
    hide Performed;
    hide States;
    hide EnabledPath;
    hide DisabledPath;
    var names := [EnabledPath(fp), DisabledPath(fp)];
    assert Drops(names) == [Drop(EnabledPath(fp)), Drop(DisabledPath(fp))];
    OpsAppend(dir, Drops(paths), Drops(names));
    DropsAll(dir, paths);
    DropsAll(dir - (set p | p in paths), names);
    hide Drops;
    assert (set n | n in names) == CanonicalNames(fp);
  }

  lemma RemoveReach(dir: Directory, fp: Fingerprint)
    ensures Performed(dir, RemoveOps(dir, fp)) == AfterRemove(dir, fp)
  {
    hide IsDigest;
    hide IsPem;
    hide Performed;
    hide MatchSet;
    hide CanonicalNames;
    hide DropOps;
    hide Held;
    DropReach(dir, fp, Matches(dir, fp));
    SingleOp(dir, Drop(""));
    assert (set p | p in Matches(dir, fp)) == MatchSet(dir, fp);
    hide Matches;
    assert dir - MatchSet(dir, fp) - CanonicalNames(fp) == dir - (MatchSet(dir, fp) + CanonicalNames(fp));
  }

  lemma KnownReach(dir: Directory, previous: Fingerprint, replacement: Fingerprint, renameFails: bool)
    requires Held(dir, previous) && !TargetTaken(dir, previous, replacement) && HasSlot(dir, previous, replacement)
    ensures Performed(dir, KnownOps(dir, previous, replacement)) ==
            AfterReplace(dir, previous, replacement, renameFails)
  {
    hide Held;
    hide Enabled;
    hide MatchSet;
    hide TargetTaken;
    hide Rewritten;
    hide Performed;
    hide States;
    hide SettleOps;
    hide DropOps;
    hide Others;
    var enabled := Enabled(dir, previous) || Enabled(dir, replacement);
    var mine, theirs := Matches(dir, replacement), Matches(dir, previous);
    hide Matches;
    var target := PathFor(replacement, enabled);
    var settle := SettleOps(replacement, mine, enabled);
    var settled := Performed(dir, settle);
    SettleReach(dir, replacement, mine, enabled);
    if replacement == previous {
      KnownSelf(MatchSet(dir, replacement), CanonicalNames(replacement));
      assert settle + [] == settle;
      hide CanonicalNames;
      hide PathFor;
    } else {
      TargetIsForeign(previous, replacement, enabled);
      hide PathFor;
      OpsAppend(dir, settle, DropOps(previous, Others(theirs, target)));
      DropReach(settled, previous, Others(theirs, target));
      assert (set p | p in Others(theirs, target)) == set p | p in theirs && p != target;
      KnownShape(dir, MatchSet(dir, replacement), MatchSet(dir, previous), theirs, target,
                 CanonicalNames(replacement), CanonicalNames(previous), replacement);
      hide CanonicalNames;
    }
  }

  lemma CanonicalReach(
    dir: Directory, slot: string, target: string, opposite: string, fp: Fingerprint, renameFails: bool)
    requires slot in dir && dir[slot] == Key(fp)
    ensures var at := if renameFails then slot else target;
            var settled := if at != slot then (dir - {slot})[target := Key(fp)] else dir;
            Performed(dir, CanonicalOps(slot, target, opposite, renameFails)) ==
            if opposite != at then settled - {opposite} else settled
  {
    var at := if renameFails then slot else target;
    var move := if slot != target && !renameFails then [Move(slot, target)] else [];
    var drop := if opposite != at then [Drop(opposite)] else [];
    OpsAppend(dir, move, drop);
    SingleOp(dir, Move(slot, target));
    SingleOp(Performed(dir, move), Drop(opposite));
    hide Performed;
    hide States;
  }

  lemma SlotPlanReach(
    dir: Directory, own: set<string>, paths: seq<string>, slot: string, target: string, opposite: string,
    fp: Fingerprint, renameFails: bool)
    requires forall name :: name in paths <==> name in own
    requires slot in own && target != opposite && (target in dir ==> target in own)
    ensures Performed(dir, TakeOverOps(slot, paths, fp) + CanonicalOps(slot, target, opposite, renameFails)) ==
            Rewritten(dir, own + {} + {target, opposite}, if renameFails then slot else target, fp)
  {
    hide Rewritten;
    hide Performed;
    hide States;
    hide Others;
    hide Drops;
    hide CanonicalOps;
    hide IsDigest;
    WriteThenDrop(dir, slot, fp, paths);
    OpsAppend(dir, TakeOverOps(slot, paths, fp), CanonicalOps(slot, target, opposite, renameFails));
    CanonicalReach(Performed(dir, TakeOverOps(slot, paths, fp)), slot, target, opposite, fp, renameFails);
    SlotShape(dir, own, paths, slot, target, opposite, fp, if renameFails then slot else target);
  }

  lemma SlotReach(dir: Directory, previous: Fingerprint, replacement: Fingerprint, renameFails: bool)
    requires Held(dir, previous) && !TargetTaken(dir, previous, replacement) && !HasSlot(dir, previous, replacement)
    ensures Performed(dir, SlotOps(dir, previous, replacement, renameFails)) ==
            AfterReplace(dir, previous, replacement, renameFails)
  {
    SlotFacts(dir, previous, replacement);
    NewSlot(dir, previous, replacement);
    hide IsDigest;
    hide Held;
    hide Enabled;
    hide MatchSet;
    hide TargetTaken;
    hide HasSlot;
    hide Rewritten;
    hide Performed;
    hide TakeOverOps;
    hide CanonicalOps;
    hide ReplaceCanonical;
    hide IsPem;
    hide Counted;
    var enabled := Enabled(dir, previous) || Enabled(dir, replacement);
    PathPair(replacement, enabled);
    var theirs := Matches(dir, previous);
    hide Matches;
    hide CanonicalNames;
    SlotPlanReach(dir, MatchSet(dir, previous), theirs, theirs[0], PathFor(replacement, enabled),
                  PathFor(replacement, !enabled), replacement, renameFails);
    hide PathFor;
  }

  /** All its operations performed, a request has its specified effect. */
  lemma OpsReach(dir: Directory, q: Request, limit: nat)
    ensures Performed(dir, OpsOf(dir, q, limit)) == Next(dir, q, limit)
  {
    hide Held;
    hide HeldKeys;
    hide MatchSet;
    hide Matches;
    hide TargetTaken;
    hide HasSlot;
    hide Readable;
    hide Rewritten;
    hide SettleOps;
    hide KnownOps;
    hide SlotOps;
    hide EnabledPath;
    hide DisabledPath;
    hide CanonicalNames;
    SingleOp(dir, Drop(""));
    match q
    case AddKey(fp) =>
      SettleReach(dir, fp, Matches(dir, fp), true);
    case EnableKey(fp, enabled) =>
      SettleReach(dir, fp, Matches(dir, fp), enabled);
    case RemoveKey(fp) =>
      RemoveReach(dir, fp);
    case ReplaceKey(previous, replacement, renameFails) =>
      NothingReplaced(dir, previous, replacement, renameFails);
      hide AfterReplace;
      if Held(dir, previous) && !TargetTaken(dir, previous, replacement) {
        if HasSlot(dir, previous, replacement) {
          KnownReach(dir, previous, replacement, renameFails);
        } else {
          SlotReach(dir, previous, replacement, renameFails);
        }
      }
  }

  /** A request cut short leaves the state after one of its operations, or what was there before. */
  lemma AttemptIsState(dir: Directory, t: Attempt, limit: nat)
    ensures t.operations == 0 ==> Attempted(dir, t, limit) == dir
    ensures 0 < t.operations && CutShort(dir, t, limit) ==>
              Attempted(dir, t, limit) == States(dir, OpsOf(dir, t.request, limit))[t.operations - 1]
    ensures !CutShort(dir, t, limit) ==> Attempted(dir, t, limit) == Next(dir, t.request, limit)
  {
    var ops := OpsOf(dir, t.request, limit);
    OpsReach(dir, t.request, limit);
    SingleOp(dir, Drop(""));
    hide OpsOf;
    hide Next;
    hide Performed;
    hide States;
    if 0 < t.operations < |ops| {
      StateAfter(dir, ops, t.operations);
    }
    assert t.operations == 0 ==> ops == [] || ops[..t.operations] == [];
  }

  /** An operation that writes no key but x, and moves no file but the one x was first written to. */
  predicate Tame(op: Op, slot: string, x: Fingerprint) {
    match op
    case Write(_, fp) => fp == x
    case Drop(_) => true
    case Move(from, _) => from == slot
  }

  predicate AllTame(ops: seq<Op>, slot: string, x: Fingerprint) {
    forall i :: 0 <= i < |ops| ==> Tame(ops[i], slot, x)
  }

  /** A request that first writes its key. */
  predicate WritesFirst(ops: seq<Op>, slot: string, x: Fingerprint) {
    ops != [] && ops[0] == Write(slot, x) && AllTame(ops, slot, x)
  }

  lemma OneTame(before: Directory, d: Directory, op: Op, slot: string, x: Fingerprint)
    requires SlotDerived(before, d, slot, x) && Tame(op, slot, x)
    ensures SlotDerived(before, Perform(d, op), slot, x)
  {
    hide IsDigest;
  }

  lemma {:induction false} TameDerives(before: Directory, d: Directory, ops: seq<Op>, slot: string, x: Fingerprint)
    requires SlotDerived(before, d, slot, x) && AllTame(ops, slot, x)
    ensures SlotDerived(before, Performed(d, ops), slot, x)
    decreases ops
  {
    hide SlotDerived;
    hide Tame;
    hide Perform;
    if ops != [] {
      OneTame(before, d, ops[0], slot, x);
      TameDerives(before, Perform(d, ops[0]), ops[1..], slot, x);
    }
  }

  lemma FirstWriteDerives(dir: Directory, ops: seq<Op>, n: nat, slot: string, x: Fingerprint)
    requires WritesFirst(ops, slot, x) && 0 < n <= |ops|
    ensures SlotDerived(dir, Performed(dir, ops[..n]), slot, x)
  {
    WriteDerives(dir, dir[slot := Key(x)], slot, x);
    hide SlotDerived;
    hide Tame;
    assert ops[..n] == [ops[0]] + ops[1..n];
    OpsAppend(dir, [ops[0]], ops[1..n]);
    SingleOp(dir, ops[0]);
    TameDerives(dir, dir[slot := Key(x)], ops[1..n], slot, x);
    hide Performed;
    hide States;
  }

  lemma SettleWritesFirst(fp: Fingerprint, matches: seq<string>, enabled: bool)
    ensures WritesFirst(SettleOps(fp, matches, enabled), PathFor(fp, enabled), fp)
  {
    hide PathFor;
    hide Others;
  }

  lemma DropsAreTame(fp: Fingerprint, paths: seq<string>, slot: string, x: Fingerprint)
    ensures AllTame(DropOps(fp, paths), slot, x)
  {
    hide EnabledPath;
    hide DisabledPath;
  }

  lemma KnownWritesFirst(dir: Directory, previous: Fingerprint, replacement: Fingerprint)
    ensures var target := ReplaceTarget(dir, previous, replacement);
            WritesFirst(KnownOps(dir, previous, replacement), target, replacement)
  {
    var enabled := Enabled(dir, previous) || Enabled(dir, replacement);
    var target := PathFor(replacement, enabled);
    SettleWritesFirst(replacement, Matches(dir, replacement), enabled);
    DropsAreTame(previous, Others(Matches(dir, previous), target), target, replacement);
    hide Enabled;
    hide Matches;
    hide Others;
    hide PathFor;
    hide SettleOps;
    hide DropOps;
    hide Tame;
  }

  lemma TakeOverWritesFirst(
    slot: string, paths: seq<string>, target: string, opposite: string, x: Fingerprint, fails: bool)
    ensures WritesFirst(TakeOverOps(slot, paths, x) + CanonicalOps(slot, target, opposite, fails), slot, x)
  {
    hide Others;
  }

  lemma SlotWritesFirst(dir: Directory, previous: Fingerprint, replacement: Fingerprint, renameFails: bool)
    requires Held(dir, previous)
    ensures WritesFirst(SlotOps(dir, previous, replacement, renameFails), Matches(dir, previous)[0], replacement)
    ensures Matches(dir, previous)[0] in MatchSet(dir, previous)
  {
    assert Matches(dir, previous)[0] in Matches(dir, previous);
    hide Held;
    hide Enabled;
    hide MatchSet;
    hide PathFor;
    hide WritesFirst;
    hide TakeOverOps;
    hide CanonicalOps;
    var enabled := Enabled(dir, previous) || Enabled(dir, replacement);
    TakeOverWritesFirst(Matches(dir, previous)[0], Matches(dir, previous), PathFor(replacement, enabled),
                        PathFor(replacement, !enabled), replacement, renameFails);
    hide Matches;
  }

  /** A replacement stopped on its way holds one key more than before only while two share the old identity's files. */
  predicate CutOverlap(dir: Directory, t: Attempt, limit: nat) {
    CutShort(dir, t, limit) && t.request.ReplaceKey? && Overlaps(dir, t.request.previous, t.request.replacement)
  }

  lemma CutReplaceCount(dir: Directory, previous: Fingerprint, replacement: Fingerprint, renameFails: bool, n: nat)
    requires 0 < n < |ReplaceOps(dir, previous, replacement, renameFails)|
    ensures |HeldKeys(Performed(dir, ReplaceOps(dir, previous, replacement, renameFails)[..n]))| <=
            |HeldKeys(dir)| + if Overlaps(dir, previous, replacement) then 1 else 0
  {
    var ops := ReplaceOps(dir, previous, replacement, renameFails);
    var d := Performed(dir, ops[..n]);
    if HasSlot(dir, previous, replacement) {
      KnownWritesFirst(dir, previous, replacement);
      FirstWriteDerives(dir, ops, n, ReplaceTarget(dir, previous, replacement), replacement);
      KeysWithin(dir, d, replacement);
    } else {
      SlotWritesFirst(dir, previous, replacement, renameFails);
      FirstWriteDerives(dir, ops, n, Matches(dir, previous)[0], replacement);
      SlotKeys(dir, d, Matches(dir, previous)[0], previous, replacement);
    }
    hide HeldKeys;
    hide Held;
    hide Performed;
    hide KnownOps;
    hide SlotOps;
    hide TargetTaken;
    hide WritesFirst;
    hide Derived;
    hide SeveralFiles;
    hide MatchSet;
    hide Matches;
  }

  lemma CutSettleCount(dir: Directory, fp: Fingerprint, enabled: bool, n: nat)
    requires 0 < n <= |SettleOps(fp, Matches(dir, fp), enabled)|
    ensures var d := Performed(dir, SettleOps(fp, Matches(dir, fp), enabled)[..n]);
            |HeldKeys(d)| <= |HeldKeys(dir)| + if Held(dir, fp) then 0 else 1
  {
    SettleWritesFirst(fp, Matches(dir, fp), enabled);
    FirstWriteDerives(dir, SettleOps(fp, Matches(dir, fp), enabled), n, PathFor(fp, enabled), fp);
    hide SettleOps;
    hide Performed;
    hide HeldKeys;
    hide Held;
    hide Derived;
    KeysWithin(dir, Performed(dir, SettleOps(fp, Matches(dir, fp), enabled)[..n]), fp);
  }

  lemma CutRemoveCount(dir: Directory, fp: Fingerprint, n: nat)
    requires Held(dir, fp) && n <= |RemoveOps(dir, fp)|
    ensures |HeldKeys(Performed(dir, RemoveOps(dir, fp)[..n]))| <= |HeldKeys(dir)|
  {
    var slot := Matches(dir, fp)[0];
    assert slot in Matches(dir, fp);
    assert slot in MatchSet(dir, fp) && dir[slot] == Key(fp);
    hide Matches;
    hide MatchSet;
    hide Held;
    hide HeldKeys;
    hide IsDigest;
    DropsAreTame(fp, Matches(dir, fp), slot, fp);
    assert SlotDerived(dir, dir, slot, fp);
    TameDerives(dir, dir, RemoveOps(dir, fp)[..n], slot, fp);
    KeysWithin(dir, Performed(dir, RemoveOps(dir, fp)[..n]), fp);
  }

  /** However far it gets, a request leaves no more keys than the limit or than there were, but for an overlap. */
  lemma AttemptCount(dir: Directory, t: Attempt, limit: nat)
    ensures |HeldKeys(Attempted(dir, t, limit))| <=
            Larger(|HeldKeys(dir)|, limit) + if CutOverlap(dir, t, limit) then 1 else 0
  {
    AttemptIsState(dir, t, limit);
    NextKeepsLimit(dir, t.request, limit);
    var n := t.operations;
    if CutShort(dir, t, limit) && n > 0 {
      assert Attempted(dir, t, limit) == Performed(dir, OpsOf(dir, t.request, limit)[..n]);
      hide Attempted;
      hide Next;
      hide Performed;
      hide States;
      hide HeldKeys;
      hide Held;
      hide SettleOps;
      hide Overlaps;
      hide Matches;
      match t.request
      case AddKey(fp) =>
        CutSettleCount(dir, fp, true, n);
      case EnableKey(fp, enabled) =>
        CutSettleCount(dir, fp, enabled, n);
      case RemoveKey(fp) =>
        hide DropOps;
        CutRemoveCount(dir, fp, n);
      case ReplaceKey(previous, replacement, renameFails) =>
        hide ReplaceOps;
        CutReplaceCount(dir, previous, replacement, renameFails, n);
    }
  }

  /** How many attempts of a run were cut short, and how many of those while two identities overlapped. */
  function Cuts(dir: Directory, attempts: seq<Attempt>, limit: nat): nat {
    if attempts == [] then 0
    else
      var n := |attempts| - 1;
      Cuts(dir, attempts[..n], limit) + if CutShort(CutRun(dir, attempts[..n], limit), attempts[n], limit) then 1 else 0
  }

  function CutOverlaps(dir: Directory, attempts: seq<Attempt>, limit: nat): nat {
    if attempts == [] then 0
    else
      var n := |attempts| - 1;
      CutOverlaps(dir, attempts[..n], limit) +
      if CutOverlap(CutRun(dir, attempts[..n], limit), attempts[n], limit) then 1 else 0
  }

  /**
    Over every run in which any request may stop after any of its file operations: the unique keys exceed the
    limit by no more than the replacements cut short while two identities overlapped, and so by no more than
    the requests cut short.
   */
  lemma {:induction false} CutRunKeepsLimit(dir: Directory, attempts: seq<Attempt>, limit: nat)
    requires |HeldKeys(dir)| <= limit
    ensures |HeldKeys(CutRun(dir, attempts, limit))| <= limit + CutOverlaps(dir, attempts, limit)
    ensures CutOverlaps(dir, attempts, limit) <= Cuts(dir, attempts, limit) <= |attempts|
  {
    hide HeldKeys;
    hide Attempted;
    hide CutShort;
    if attempts != [] {
      var n := |attempts| - 1;
      CutRunKeepsLimit(dir, attempts[..n], limit);
      AttemptCount(CutRun(dir, attempts[..n], limit), attempts[n], limit);
    }
  }

  function Requests(attempts: seq<Attempt>): seq<Request> {
    seq(|attempts|, i requires 0 <= i < |attempts| => attempts[i].request)
  }

  /** With nothing cut short it is the run of finished requests. */
  lemma {:induction false} UncutRunIsRun(dir: Directory, attempts: seq<Attempt>, limit: nat)
    requires Cuts(dir, attempts, limit) == 0
    ensures CutRun(dir, attempts, limit) == Run(dir, Requests(attempts), limit)
  {
    hide Attempted;
    hide CutShort;
    hide Next;
    if attempts != [] {
      var n := |attempts| - 1;
      UncutRunIsRun(dir, attempts[..n], limit);
      AttemptIsState(CutRun(dir, attempts[..n], limit), attempts[n], limit);
      assert Requests(attempts)[..n] == Requests(attempts[..n]);
    }
  }

  lemma TwoFiles(dir: Directory, a: string, b: string, fp: Fingerprint)
    requires a != b && Counted(a) && Counted(b) && dir == map[a := Key(fp), b := Key(fp)]
    ensures |HeldKeys(dir)| == 1 && SeveralFiles(dir, fp) && MatchSet(dir, fp) == {a, b}
    ensures forall x: Fingerprint :: Held(dir, x) <==> x == fp
  {
    hide Counted;
    hide IsDigest;
    assert HoldsAt(dir, a, fp) && HoldsAt(dir, b, fp);
    forall x: Fingerprint | Held(dir, x)
      ensures x == fp
    {
      var name :| name in dir && HoldsAt(dir, name, x);
    }
    assert HeldKeys(dir) == {fp};
    assert MatchSet(dir, fp) == {a, b};
  }

  lemma SettleGoesOn(fp: Fingerprint, matches: seq<string>, enabled: bool)
    ensures |SettleOps(fp, matches, enabled)| >= 2
    ensures SettleOps(fp, matches, enabled)[..1] == [Write(PathFor(fp, enabled), fp)]
  {
    hide PathFor;
    hide Others;
  }

  lemma FirstOfDisable(dir: Directory, fp: Fingerprint, limit: nat)
    requires Held(dir, fp)
    ensures CutShort(dir, Attempt(EnableKey(fp, false), 1), limit)
    ensures Attempted(dir, Attempt(EnableKey(fp, false), 1), limit) == dir[DisabledPath(fp) := Key(fp)]
  {
    SettleGoesOn(fp, Matches(dir, fp), false);
    SingleOp(dir, Write(DisabledPath(fp), fp));
    hide Held;
    hide Matches;
    hide SettleOps;
    hide Performed;
    hide DisabledPath;
    hide EnabledPath;
    hide IsDigest;
  }

  /** One enabled file, and a disable request stopped after its first operation. */
  lemma DisableCutShort(fp: Fingerprint, limit: nat)
    ensures var start, t := map[EnabledPath(fp) := Key(fp)], Attempt(EnableKey(fp, false), 1);
            && |HeldKeys(start)| == 1 && CutShort(start, t, limit)
            && Attempted(start, t, limit) == start[DisabledPath(fp) := Key(fp)]
  {
    hide *;
    OneFile(map[EnabledPath(fp) := Key(fp)], EnabledPath(fp), fp);
    FirstOfDisable(map[EnabledPath(fp) := Key(fp)], fp, limit);
  }

  lemma TakeOverGoesOn(
    slot: string, paths: seq<string>, other: string, target: string, opposite: string, x: Fingerprint, fails: bool)
    requires other in paths && other != slot
    ensures var ops := TakeOverOps(slot, paths, x) + CanonicalOps(slot, target, opposite, fails);
            |ops| >= 2 && ops[..1] == [Write(slot, x)]
  {
    assert other in Others(paths, slot);
    hide Others;
    hide CanonicalOps;
  }

  /** With a second file of the old key, the first operation is not the last. */
  lemma SlotOpsGoOn(dir: Directory, fp: Fingerprint, other: string, newer: Fingerprint, fails: bool)
    requires Held(dir, fp) && other in Matches(dir, fp) && other != Matches(dir, fp)[0]
    ensures |SlotOps(dir, fp, newer, fails)| >= 2
    ensures SlotOps(dir, fp, newer, fails)[..1] == [Write(Matches(dir, fp)[0], newer)]
  {
    var enabled := Enabled(dir, fp) || Enabled(dir, newer);
    TakeOverGoesOn(Matches(dir, fp)[0], Matches(dir, fp), other, PathFor(newer, enabled), PathFor(newer, !enabled),
                   newer, fails);
    hide Matches;
    hide Held;
    hide Enabled;
    hide PathFor;
    hide TakeOverOps;
    hide CanonicalOps;
  }

  lemma FirstOfReplace(dir: Directory, fp: Fingerprint, newer: Fingerprint, slot: string, limit: nat)
    requires Held(dir, fp) && !TargetTaken(dir, fp, newer) && !HasSlot(dir, fp, newer)
    requires |SlotOps(dir, fp, newer, false)| >= 2 && SlotOps(dir, fp, newer, false)[..1] == [Write(slot, newer)]
    ensures CutShort(dir, Attempt(ReplaceKey(fp, newer, false), 1), limit)
    ensures Attempted(dir, Attempt(ReplaceKey(fp, newer, false), 1), limit) == dir[slot := Key(newer)]
  {
    SingleOp(dir, Write(slot, newer));
    hide Held;
    hide TargetTaken;
    hide HasSlot;
    hide SlotOps;
    hide Performed;
  }

  /** A key with several files has a first one, and another. */
  lemma FirstAndOther(dir: Directory, fp: Fingerprint) returns (other: string)
    requires SeveralFiles(dir, fp)
    ensures Held(dir, fp) && Matches(dir, fp) != [] && Matches(dir, fp)[0] in MatchSet(dir, fp)
    ensures other in Matches(dir, fp) && other != Matches(dir, fp)[0]
  {
    assert MatchSet(dir, fp) != {} by {
      hide MatchSet;
    }
    hide *;
    MatchGroups(dir, fp);
    assert Matches(dir, fp)[0] in Matches(dir, fp);
    SecondFile(MatchSet(dir, fp), Matches(dir, fp)[0]);
    other :| other in MatchSet(dir, fp) - {Matches(dir, fp)[0]};
  }

  /** A key with several files, and its replacement by a new one stopped after its first operation. */
  lemma ReplaceCutShort(dir: Directory, fp: Fingerprint, newer: Fingerprint, limit: nat)
    requires SeveralFiles(dir, fp) && !TargetTaken(dir, fp, newer) && !HasSlot(dir, fp, newer)
    ensures var t := Attempt(ReplaceKey(fp, newer, false), 1);
            CutOverlap(dir, t, limit) && |HeldKeys(Attempted(dir, t, limit))| == |HeldKeys(dir)| + 1
  {
    assert CutOverlap(dir, Attempt(ReplaceKey(fp, newer, false), 1), limit) <==>
           CutShort(dir, Attempt(ReplaceKey(fp, newer, false), 1), limit) by {
      hide CutShort;
      hide SeveralFiles;
      hide HasSlot;
    }
    hide *;
    var other := FirstAndOther(dir, fp);
    var slot := Matches(dir, fp)[0];
    NewSlot(dir, fp, newer);
    SlotIsCounted(dir, slot, fp);
    SlotOpsGoOn(dir, fp, other, newer, false);
    FirstOfReplace(dir, fp, newer, slot, limit);
    BothThere(dir, slot, fp, newer);
  }

  lemma SlotIsCounted(dir: Directory, slot: string, fp: Fingerprint)
    requires slot in MatchSet(dir, fp)
    ensures Counted(slot)
  {
    hide Counted;
  }

  lemma TwoAttempts(dir: Directory, a: Attempt, b: Attempt, limit: nat)
    ensures var middle := Attempted(dir, a, limit);
            && CutRun(dir, [a, b][..1], limit) == middle && CutRun(dir, [a, b], limit) == Attempted(middle, b, limit)
            && CutOverlaps(dir, [a, b], limit) ==
               (if CutOverlap(dir, a, limit) then 1 else 0) + if CutOverlap(middle, b, limit) then 1 else 0
  {
    hide Attempted;
    hide CutOverlap;
    assert [a, b][..1] == [a] && [a][..0] == [];
    assert CutRun(dir, [a], limit) == Attempted(dir, a, limit);
    assert CutOverlaps(dir, [a], limit) == if CutOverlap(dir, a, limit) then 1 else 0;
  }

  lemma DisableIsNoOverlap(dir: Directory, fp: Fingerprint, limit: nat)
    ensures !CutOverlap(dir, Attempt(EnableKey(fp, false), 1), limit)
  {
    hide CutShort;
  }

  lemma NewNameIsFree(dir: Directory, fp: Fingerprint, newer: Fingerprint)
    requires fp != newer && dir.Keys == {EnabledPath(fp), DisabledPath(fp)}
    ensures !TargetTaken(dir, fp, newer)
  {
    PathNamesKey(newer, true, fp, true);
    PathNamesKey(newer, true, fp, false);
    PathNamesKey(newer, false, fp, true);
    PathNamesKey(newer, false, fp, false);
    hide Enabled;
    hide EnabledPath;
    hide DisabledPath;
    hide MatchSet;
    hide IsDigest;
  }

  /**
    The bound is met. With a limit of one, a disable request cut short after its write leaves two files of
    the one key, and replacing that key by a new one, cut short after its write, leaves two keys.
   */
  lemma OverlapAfterCrash(fp: Fingerprint, newer: Fingerprint)
    requires fp != newer
    ensures var start := map[EnabledPath(fp) := Key(fp)];
            var attempts := [Attempt(EnableKey(fp, false), 1), Attempt(ReplaceKey(fp, newer, false), 1)];
            && |HeldKeys(start)| == 1
            && CutRun(start, attempts[..1], 1) == start[DisabledPath(fp) := Key(fp)]
            && CutOverlaps(start, attempts, 1) == 1 && |HeldKeys(CutRun(start, attempts, 1))| == 2
  {
    var start := map[EnabledPath(fp) := Key(fp)];
    var crashed := start[DisabledPath(fp) := Key(fp)];
    PathPair(fp, true);
    assert crashed == map[EnabledPath(fp) := Key(fp), DisabledPath(fp) := Key(fp)];
    assert crashed.Keys == {EnabledPath(fp), DisabledPath(fp)} && EnabledPath(fp) != DisabledPath(fp);
    hide *;
    DisableCutShort(fp, 1);
    TwoFiles(crashed, EnabledPath(fp), DisabledPath(fp), fp);
    NewNameIsFree(crashed, fp, newer);
    NoSlotYet(crashed, fp, newer);
    ReplaceCutShort(crashed, fp, newer, 1);
    TwoAttempts(start, Attempt(EnableKey(fp, false), 1), Attempt(ReplaceKey(fp, newer, false), 1), 1);
    DisableIsNoOverlap(start, fp, 1);
  }

  lemma NoSlotYet(dir: Directory, fp: Fingerprint, newer: Fingerprint)
    requires fp != newer && !Held(dir, newer)
    ensures !HasSlot(dir, fp, newer)
  {
    hide Held;
  }
}
