/** The trusted SOURCE key directory: files on disk against the map of fingerprints they stand for. */
module TrustedKeys {
  import opened BundleNames
  import opened Text

  /** A fingerprint without its "sha256:" prefix: the stem of a canonical file name. */
  type Fingerprint = Digest

  datatype Content = Key(fingerprint: Fingerprint) | Unreadable

  type Directory = map<string, Content>

  predicate IsPem(name: string) {
    |name| >= 4 && name[|name| - 4..] == ".pem"
  }

  predicate IsDisabledName(name: string) {
    |name| >= 9 && name[|name| - 9..] == ".disabled"
  }

  /** Names the store looks at. */
  predicate Counted(name: string) {
    IsPem(name) || IsDisabledName(name)
  }

  function EnabledPath(fp: Fingerprint): (name: string)
    ensures IsPem(name) && !IsDisabledName(name) && Counted(name)
  {
    var name := fp + ".pem";
    assert name[|name| - 4..] == ".pem";
    assert name[|name| - 1] == 'm';
    name
  }

  function DisabledPath(fp: Fingerprint): (name: string)
    ensures IsDisabledName(name) && !IsPem(name) && Counted(name)
  {
    var name := fp + ".disabled";
    assert name[|name| - 9..] == ".disabled";
    assert name[|name| - 1] == 'd';
    name
  }

  function PathFor(fp: Fingerprint, enabled: bool): (name: string)
    ensures Counted(name) && (IsPem(name) <==> enabled)
  {
    if enabled then EnabledPath(fp) else DisabledPath(fp)
  }

  lemma PathsAreDistinct(fp: Fingerprint, other: Fingerprint, enabled: bool)
    requires fp != other
    ensures PathFor(fp, enabled) != PathFor(other, enabled)
  {
    hide IsDigest;
    assert EnabledPath(fp)[..|fp|] == fp && EnabledPath(other)[..|other|] == other;
    assert DisabledPath(fp)[..|fp|] == fp && DisabledPath(other)[..|other|] == other;
    assert |EnabledPath(fp)| == |fp| + 4 && |EnabledPath(other)| == |other| + 4;
    assert |DisabledPath(fp)| == |fp| + 9 && |DisabledPath(other)| == |other| + 9;
  }

  predicate HoldsAt(dir: Directory, name: string, fp: Fingerprint) {
    name in dir && dir[name] == Key(fp) && Counted(name)
  }

  predicate Held(dir: Directory, fp: Fingerprint) {
    exists name :: name in dir && HoldsAt(dir, name, fp)
  }

  predicate Enabled(dir: Directory, fp: Fingerprint) {
    exists name :: name in dir && HoldsAt(dir, name, fp) && IsPem(name)
  }

  function HeldKeys(dir: Directory): (r: set<Fingerprint>)
    ensures forall fp :: fp in r <==> Held(dir, fp)
  {
    var r := set name | name in dir && Counted(name) && dir[name].Key? :: dir[name].fingerprint;
    assert forall fp: Fingerprint, name :: name in dir && HoldsAt(dir, name, fp) ==> dir[name].fingerprint in r;
    r
  }

  /** list_trusted_keys: each key once, enabled if any of its files is. */
  function View(dir: Directory): map<Fingerprint, bool> {
    map fp | fp in HeldKeys(dir) :: Enabled(dir, fp)
  }

  predicate Readable(dir: Directory) {
    forall name :: name in dir && Counted(name) ==> dir[name].Key?
  }

  function PemMatches(dir: Directory, fp: Fingerprint): set<string> {
    set name | name in dir && HoldsAt(dir, name, fp) && IsPem(name)
  }

  function OtherMatches(dir: Directory, fp: Fingerprint): set<string> {
    set name | name in dir && HoldsAt(dir, name, fp) && !IsPem(name)
  }

  /** Two groups of names, each in name order, one after the other. */
  function Grouped(first: set<string>, second: set<string>): (r: seq<string>)
    ensures forall name :: name in r <==> name in first || name in second
    ensures r == [] <==> first == {} && second == {}
    ensures first != {} ==> r != [] && r[0] in first
    ensures first == {} && second != {} ==> r != [] && r[0] in second
  {
    Sorted(first) + Sorted(second)
  }

  lemma MatchGroups(dir: Directory, fp: Fingerprint)
    ensures MatchSet(dir, fp) == PemMatches(dir, fp) + OtherMatches(dir, fp)
    ensures MatchSet(dir, fp) == {} <==> !Held(dir, fp)
    ensures PemMatches(dir, fp) == {} <==> !Enabled(dir, fp)
    ensures forall name :: name in PemMatches(dir, fp) ==> IsPem(name)
    ensures forall name :: name in OtherMatches(dir, fp) ==> !IsPem(name)
  {
    hide HoldsAt;
    hide IsPem;
    hide IsDigest;
    if Held(dir, fp) {
      var name :| name in dir && HoldsAt(dir, name, fp);
      assert name in MatchSet(dir, fp);
    }
    if Enabled(dir, fp) {
      var name :| name in dir && HoldsAt(dir, name, fp) && IsPem(name);
      assert name in PemMatches(dir, fp);
    }
    assert forall name :: name in MatchSet(dir, fp) ==> name in dir && HoldsAt(dir, name, fp);
    assert forall name :: name in PemMatches(dir, fp) ==> name in dir && HoldsAt(dir, name, fp) && IsPem(name);
  }

  /** _find_trusted_key_files: enabled files first, each group by name. */
  function Matches(dir: Directory, fp: Fingerprint): (r: seq<string>)
    ensures forall name :: name in r <==> name in MatchSet(dir, fp)
    ensures r == [] <==> !Held(dir, fp)
    ensures Enabled(dir, fp) <==> r != [] && IsPem(r[0])
  {
    MatchGroups(dir, fp);
    hide *;
    Grouped(PemMatches(dir, fp), OtherMatches(dir, fp))
  }

  function MatchSet(dir: Directory, fp: Fingerprint): set<string> {
    set name | name in dir && HoldsAt(dir, name, fp)
  }

  /** Every canonically named file holds the key it is named after. */
  ghost predicate Named(dir: Directory) {
    forall fp: Fingerprint, enabled ::
      PathFor(fp, enabled) in dir ==> dir[PathFor(fp, enabled)] == Key(fp)
  }

  /** What a finished operation leaves: some names gone, one written. */
  function Rewritten(dir: Directory, gone: set<string>, written: string, fp: Fingerprint): Directory {
    (dir - gone)[written := Key(fp)]
  }

  /** Dropping these files would not change how any other key is shown. */
  ghost predicate Spare(dir: Directory, names: set<string>, exempt: set<Fingerprint>) {
    forall fp: Fingerprint :: fp !in exempt ==>
      Held(dir - names, fp) == Held(dir, fp) && Enabled(dir - names, fp) == Enabled(dir, fp)
  }

  lemma RewrittenOthers(dir: Directory, gone: set<string>, written: string, x: Fingerprint, fp: Fingerprint)
    requires fp != x && Counted(written)
    ensures Held(Rewritten(dir, gone, written, x), fp) == Held(dir - (gone + {written}), fp)
    ensures Enabled(Rewritten(dir, gone, written, x), fp) == Enabled(dir - (gone + {written}), fp)
  {
    hide IsPem;
    hide IsDisabledName;
    hide IsDigest;
    var after, rest := Rewritten(dir, gone, written, x), dir - (gone + {written});
    forall name
      ensures name in after && HoldsAt(after, name, fp) <==> name in rest && HoldsAt(rest, name, fp)
    {
    }
  }

  lemma RewrittenOwn(dir: Directory, gone: set<string>, written: string, x: Fingerprint, exempt: set<Fingerprint>)
    requires x in exempt && Counted(written)
    requires forall name, e :: name in dir && e in exempt && HoldsAt(dir, name, e) ==> name in gone || name == written
    ensures var after := Rewritten(dir, gone, written, x);
            && Held(after, x) && (Enabled(after, x) <==> IsPem(written))
            && forall e :: e in exempt && e != x ==> !Held(after, e)
  {
    hide IsPem;
    hide IsDisabledName;
    hide IsDigest;
    var after := Rewritten(dir, gone, written, x);
    assert HoldsAt(after, written, x);
    forall e, name | e in exempt && name in after && HoldsAt(after, name, e)
      ensures name == written && e == x
    {
      assert name != written ==> name in dir && HoldsAt(dir, name, e);
    }
  }

  lemma DropOwnFiles(dir: Directory, names: set<string>, own: set<string>, exempt: set<Fingerprint>, fp: Fingerprint)
    requires fp !in exempt
    requires forall name :: name in own && name in dir ==> exists e :: e in exempt && dir[name] == Key(e)
    ensures Held(dir - (names + own), fp) == Held(dir - names, fp)
    ensures Enabled(dir - (names + own), fp) == Enabled(dir - names, fp)
  {
    hide IsPem;
    hide IsDisabledName;
    hide IsDigest;
    var less, more := dir - (names + own), dir - names;
    forall name
      ensures name in less && HoldsAt(less, name, fp) <==> name in more && HoldsAt(more, name, fp)
    {
    }
  }

  /**
    One rewrite is the obvious map update exactly when the touched names that are not the operation's own
    files were spare.
   */
  lemma ViewUpdateIff(
    dir: Directory, own: set<string>, canonical: set<string>, written: string, x: Fingerprint, exempt: set<Fingerprint>)
    requires x in exempt && Counted(written) && written in own + canonical
    requires forall name, e :: name in dir && e in exempt && HoldsAt(dir, name, e) ==> name in own
    requires forall name :: name in own && name in dir ==> exists e :: e in exempt && dir[name] == Key(e)
    ensures View(Rewritten(dir, own + canonical, written, x)) == (View(dir) - exempt)[x := IsPem(written)] <==>
            Spare(dir, canonical, exempt)
  {
    hide IsPem;
    hide IsDigest;
    hide HoldsAt;
    var gone := own + canonical;
    var after := Rewritten(dir, gone, written, x);
    RewrittenOwn(dir, gone, written, x, exempt);
    forall fp: Fingerprint | fp !in exempt
      ensures Held(after, fp) == Held(dir - canonical, fp)
      ensures Enabled(after, fp) == Enabled(dir - canonical, fp)
    {
      RewrittenOthers(dir, gone, written, x, fp);
      assert gone + {written} == canonical + own;
      DropOwnFiles(dir, canonical, own, exempt, fp);
    }
    hide Rewritten;
    hide Held;
    hide Enabled;
    hide Counted;
    var expected := (View(dir) - exempt)[x := IsPem(written)];
    forall fp: Fingerprint | fp in exempt
      ensures fp in View(after) <==> fp in expected
      ensures fp in View(after) ==> View(after)[fp] == expected[fp]
    {
    }
    if View(after) == expected {
      forall fp: Fingerprint | fp !in exempt
        ensures Held(dir - canonical, fp) == Held(dir, fp) && Enabled(dir - canonical, fp) == Enabled(dir, fp)
      {
        assert fp in View(after) <==> fp in expected;
        EnabledIsHeld(dir, fp);
        EnabledIsHeld(dir - canonical, fp);
      }
    }
    if Spare(dir, canonical, exempt) {
      forall fp: Fingerprint | fp !in exempt
        ensures fp in View(after) <==> fp in expected
        ensures fp in View(after) ==> View(after)[fp] == expected[fp]
      {
      }
      assert View(after).Keys == expected.Keys;
    }
  }

  lemma EnabledIsHeld(dir: Directory, fp: Fingerprint)
    ensures Enabled(dir, fp) ==> Held(dir, fp)
  {
    hide HoldsAt;
    hide IsPem;
  }

  function CanonicalNames(fp: Fingerprint): set<string> {
    {EnabledPath(fp), DisabledPath(fp)}
  }

  function AfterAdd(dir: Directory, fp: Fingerprint, limit: nat): Directory {
    if !Readable(dir) || (!Held(dir, fp) && |HeldKeys(dir)| >= limit) then dir
    else Rewritten(dir, MatchSet(dir, fp) + CanonicalNames(fp), EnabledPath(fp), fp)
  }

  function AfterSetEnabled(dir: Directory, fp: Fingerprint, enabled: bool): Directory {
    if !Held(dir, fp) then dir
    else Rewritten(dir, MatchSet(dir, fp) + CanonicalNames(fp), PathFor(fp, enabled), fp)
  }

  function AfterRemove(dir: Directory, fp: Fingerprint): Directory {
    if !Held(dir, fp) then dir else dir - (MatchSet(dir, fp) + CanonicalNames(fp))
  }

  function ReplaceTarget(dir: Directory, previous: Fingerprint, replacement: Fingerprint): string {
    PathFor(replacement, Enabled(dir, previous) || Enabled(dir, replacement))
  }

  predicate TargetTaken(dir: Directory, previous: Fingerprint, replacement: Fingerprint) {
    var target := ReplaceTarget(dir, previous, replacement);
    target in dir && target !in MatchSet(dir, previous) && target !in MatchSet(dir, replacement)
  }

  /** The replacement already has a slot of its own. */
  predicate HasSlot(dir: Directory, previous: Fingerprint, replacement: Fingerprint) {
    replacement == previous || Held(dir, replacement)
  }

  function ReplaceCanonical(dir: Directory, previous: Fingerprint, replacement: Fingerprint): set<string> {
    CanonicalNames(replacement) + if HasSlot(dir, previous, replacement) then CanonicalNames(previous) else {}
  }

  /** The file that ends up holding the replacement; a failed final rename leaves it in the old slot. */
  function ReplaceWritten(dir: Directory, previous: Fingerprint, replacement: Fingerprint, renameFails: bool): string
    requires Held(dir, previous)
  {
    if !HasSlot(dir, previous, replacement) && renameFails then Matches(dir, previous)[0]
    else ReplaceTarget(dir, previous, replacement)
  }

  function AfterReplace(dir: Directory, previous: Fingerprint, replacement: Fingerprint, renameFails: bool): Directory {
    if !Held(dir, previous) || TargetTaken(dir, previous, replacement) then dir
    else
      Rewritten(
        dir, MatchSet(dir, previous) + MatchSet(dir, replacement) + ReplaceCanonical(dir, previous, replacement),
        ReplaceWritten(dir, previous, replacement, renameFails), replacement)
  }

  function ActiveFiles(dir: Directory): set<string> {
    set name | name in dir && IsPem(name)
  }

  /** The files that can be trusted right now include the old or the new identity. */
  predicate TrustsOneOf(dir: Directory, previous: Fingerprint, replacement: Fingerprint) {
    Enabled(dir, previous) || Enabled(dir, replacement)
  }

  /** Every file of d holds x, or is as it was. */
  ghost predicate Derived(before: Directory, d: Directory, x: Fingerprint) {
    forall name :: name in d ==> d[name] == Key(x) || (name in before && d[name] == before[name])
  }

  predicate Within(d: Directory, whole: Directory) {
    forall name :: name in d ==> name in whole && d[name] == whole[name]
  }

  lemma DerivedWithin(before: Directory, whole: Directory, d: Directory, x: Fingerprint)
    requires Derived(before, whole, x) && Within(d, whole)
    ensures Derived(before, d, x)
  {
    hide IsDigest;
  }

  lemma DerivedKeys(before: Directory, d: Directory, x: Fingerprint)
    requires Derived(before, d, x)
    ensures HeldKeys(d) <= HeldKeys(before) + {x}
  {
    hide Counted;
    hide IsDigest;
    forall fp: Fingerprint | Held(d, fp)
      ensures Held(before, fp) || fp == x
    {
      var name :| name in d && HoldsAt(d, name, fp);
      assert name in before && before[name] == d[name] ==> HoldsAt(before, name, fp);
    }
  }

  /** A state on the way to one more key: no key appears but that one. */
  lemma KeysWithin(before: Directory, d: Directory, x: Fingerprint)
    requires Derived(before, d, x)
    ensures |HeldKeys(d)| <= |HeldKeys(before)| + 1
    ensures Held(before, x) ==> |HeldKeys(d)| <= |HeldKeys(before)|
  {
    DerivedKeys(before, d, x);
    hide Held;
    SmallerSet(HeldKeys(d), HeldKeys(before), x);
  }

  /** The old identity's slot holds the new one, or is gone; every other file is as it was or new. */
  ghost predicate SlotDerived(before: Directory, d: Directory, slot: string, x: Fingerprint) {
    Derived(before, d, x) && (slot in d ==> d[slot] == Key(x))
  }

  lemma WriteDerives(before: Directory, d: Directory, slot: string, x: Fingerprint)
    requires Within(d, before[slot := Key(x)])
    ensures SlotDerived(before, d, slot, x)
  {
    hide IsDigest;
  }

  lemma RenameDerives(before: Directory, cleaned: Directory, slot: string, target: string, x: Fingerprint)
    requires SlotDerived(before, cleaned, slot, x) && slot in cleaned
    ensures SlotDerived(before, (cleaned - {slot})[target := cleaned[slot]], slot, x)
  {
    hide IsDigest;
  }

  lemma FewerDerives(before: Directory, whole: Directory, d: Directory, slot: string, x: Fingerprint)
    requires SlotDerived(before, whole, slot, x) && Within(d, whole)
    ensures SlotDerived(before, d, slot, x)
  {
    hide IsDigest;
  }

  /** While a slot changes hands, the number of keys grows by one at most, and only over spare files of the old one. */
  lemma SlotKeys(before: Directory, d: Directory, slot: string, previous: Fingerprint, x: Fingerprint)
    requires SlotDerived(before, d, slot, x) && slot in MatchSet(before, previous) && previous != x
    ensures |HeldKeys(d)| <= |HeldKeys(before)| + if SeveralFiles(before, previous) then 1 else 0
  {
    DerivedKeys(before, d, x);
    assert Held(before, previous) by {
      hide IsPem;
      assert HoldsAt(before, slot, previous);
    }
    if !SeveralFiles(before, previous) {
      OldIsGone(before, d, slot, previous, x);
      hide *;
      var others := HeldKeys(before) - {previous};
      SmallerSet(HeldKeys(d), others, x);
      assert HeldKeys(before) == others + {previous};
    } else {
      hide *;
      SmallerSet(HeldKeys(d), HeldKeys(before), x);
    }
  }

  lemma OldIsGone(before: Directory, d: Directory, slot: string, previous: Fingerprint, x: Fingerprint)
    requires SlotDerived(before, d, slot, x) && slot in MatchSet(before, previous) && previous != x
    requires !SeveralFiles(before, previous)
    ensures !Held(d, previous)
  {
    hide IsDigest;
    hide Counted;
    OnlyFile(before, slot, previous);
    forall name | name in d && name in before
      ensures !HoldsAt(d, name, previous)
    {
      assert d[name] == before[name] && HoldsAt(before, name, previous) ==> name == slot;
    }
  }

  lemma OnlyFile(before: Directory, slot: string, previous: Fingerprint)
    requires slot in MatchSet(before, previous) && !SeveralFiles(before, previous)
    ensures forall name :: name in before && HoldsAt(before, name, previous) ==> name == slot
  {
    hide HoldsAt;
    forall name | name in before && HoldsAt(before, name, previous)
      ensures name == slot
    {
      if name != slot {
        FewerFiles({slot, name}, MatchSet(before, previous));
      }
    }
  }

  /** Right after the slot is overwritten, an old identity with a second file is still there. */
  lemma BothThere(before: Directory, slot: string, previous: Fingerprint, x: Fingerprint)
    requires slot in MatchSet(before, previous) && SeveralFiles(before, previous) && !Held(before, x) && Counted(slot)
    ensures |HeldKeys(before[slot := Key(x)])| == |HeldKeys(before)| + 1
  {
    hide IsDigest;
    hide Counted;
    var d := before[slot := Key(x)];
    assert HoldsAt(d, slot, x);
    var other := AnotherFile(before, slot, previous);
    forall fp: Fingerprint | Held(before, fp)
      ensures Held(d, fp)
    {
      var name :| name in before && HoldsAt(before, name, fp);
      assert HoldsAt(d, if name == slot then other else name, fp);
    }
    assert Derived(before, d, x);
    DerivedKeys(before, d, x);
    assert HeldKeys(d) == HeldKeys(before) + {x};
  }

  lemma SecondFile(names: set<string>, slot: string)
    requires |names| >= 2
    ensures names - {slot} != {}
  {
    if names - {slot} == {} {
      FewerFiles(names, {slot});
    }
  }

  ghost function AnotherFile(before: Directory, slot: string, fp: Fingerprint): (name: string)
    requires slot in MatchSet(before, fp) && SeveralFiles(before, fp)
    ensures name != slot && name in before && HoldsAt(before, name, fp)
  {
    SecondFile(MatchSet(before, fp), slot);
    var name :| name in MatchSet(before, fp) - {slot};
    name
  }

  /** The key has more than one file, as after a crash between the write and the clean-up of a request. */
  predicate SeveralFiles(dir: Directory, fp: Fingerprint) {
    |MatchSet(dir, fp)| >= 2
  }

  /** A new identity takes over one of several files of the old one, so both are there for a moment. */
  predicate Overlaps(dir: Directory, previous: Fingerprint, replacement: Fingerprint) {
    !HasSlot(dir, previous, replacement) && SeveralFiles(dir, previous)
  }

  datatype Outcome = Done | KeyNotFound | LimitExceeded | StoreInvalid

  lemma RewriteShape(
    before: Directory, own: set<string>, paths: seq<string>, target: string, opposite: string, fp: Fingerprint)
    requires target != opposite && forall name :: name in paths <==> name in own
    ensures before[target := Key(fp)] - (set p | p in paths && p != target) - {opposite} ==
            Rewritten(before, own + {target, opposite}, target, fp)
  {
    hide IsDigest;
  }

  lemma RemoveShape(before: Directory, own: set<string>, paths: seq<string>, enabled: string, disabled: string)
    requires forall name :: name in paths <==> name in own
    ensures before - (set p | p in paths) - {enabled} - {disabled} == before - (own + {enabled, disabled})
  {
    hide IsDigest;
  }

  /** One file operation; each is atomic, and a request is a sequence of them. */
  datatype Op = Write(name: string, fp: Fingerprint) | Drop(name: string) | Move(slot: string, target: string)

  function Perform(dir: Directory, op: Op): Directory {
    match op
    case Write(name, fp) => dir[name := Key(fp)]
    case Drop(name) => dir - {name}
    case Move(slot, target) => if slot in dir then (dir - {slot})[target := dir[slot]] else dir
  }

  function Performed(dir: Directory, ops: seq<Op>): Directory
    decreases ops
  {
    if ops == [] then dir else Performed(Perform(dir, ops[0]), ops[1..])
  }

  /** The directory after each of the operations. */
  function States(dir: Directory, ops: seq<Op>): (r: seq<Directory>)
    ensures |r| == |ops|
    decreases ops
  {
    if ops == [] then [] else [Perform(dir, ops[0])] + States(Perform(dir, ops[0]), ops[1..])
  }

  lemma SingleOp(dir: Directory, op: Op)
    ensures Performed(dir, [op]) == Perform(dir, op) && States(dir, [op]) == [Perform(dir, op)]
    ensures Performed(dir, []) == dir && States(dir, []) == []
  {
    assert [op][1..] == [];
    hide Perform;
  }

  lemma {:induction false} OpsAppend(dir: Directory, a: seq<Op>, b: seq<Op>)
    ensures Performed(dir, a + b) == Performed(Performed(dir, a), b)
    ensures States(dir, a + b) == States(dir, a) + States(Performed(dir, a), b)
    decreases a
  {
    hide Perform;
    if a == [] {
      assert a + b == b;
    } else {
      assert (a + b)[0] == a[0] && (a + b)[1..] == a[1..] + b;
      OpsAppend(Perform(dir, a[0]), a[1..], b);
    }
  }

  /** The state after n operations is the n-th of the states. */
  lemma StateAfter(dir: Directory, ops: seq<Op>, n: nat)
    requires 0 < n <= |ops|
    ensures States(dir, ops)[n - 1] == Performed(dir, ops[..n])
  {
    var before, last, rest := ops[..n - 1], ops[n - 1], ops[n..];
    assert ops == before + ([last] + rest) && ops[..n] == before + [last];
    OpsAppend(dir, before, [last] + rest);
    OpsAppend(dir, before, [last]);
    OpsAppend(Performed(dir, before), [last], rest);
    SingleOp(Performed(dir, before), last);
    hide Perform;
    hide Performed;
    hide States;
  }

  function Drops(names: seq<string>): (r: seq<Op>)
    ensures |r| == |names| && forall i :: 0 <= i < |r| ==> r[i] == Drop(names[i])
  {
    seq(|names|, i requires 0 <= i < |names| => Drop(names[i]))
  }

  /** The paths other than the one to keep. */
  function Others(paths: seq<string>, keep: string): (r: seq<string>)
    ensures forall p :: p in r <==> p in paths && p != keep
  {
    if paths == [] then []
    else
      var before, last := Others(paths[..|paths| - 1], keep), paths[|paths| - 1];
      if last != keep then before + [last] else before
  }

  lemma {:induction false} DropsAll(dir: Directory, names: seq<string>)
    ensures Performed(dir, Drops(names)) == dir - set n | n in names
  {
    hide IsDigest;
    if names != [] {
      assert Drops(names)[1..] == Drops(names[1..]);
      DropsAll(dir - {names[0]}, names[1..]);
      assert names == [names[0]] + names[1..];
      assert (set n | n in names) == {names[0]} + set n | n in names[1..];
    }
  }

  /** Write the key under its canonical name, then drop its other files and the opposite name. */
  function SettleOps(fp: Fingerprint, matches: seq<string>, enabled: bool): seq<Op> {
    [Write(PathFor(fp, enabled), fp)] + Drops(Others(matches, PathFor(fp, enabled))) + [Drop(PathFor(fp, !enabled))]
  }

  /** Drop every listed file but one, and both canonical names. */
  function DropOps(fp: Fingerprint, paths: seq<string>): seq<Op> {
    Drops(paths) + [Drop(EnabledPath(fp)), Drop(DisabledPath(fp))]
  }

  /** The replacement has a slot already: settle it, then drop the previous identity. */
  function KnownOps(dir: Directory, previous: Fingerprint, replacement: Fingerprint): seq<Op> {
    var enabled := Enabled(dir, previous) || Enabled(dir, replacement);
    SettleOps(replacement, Matches(dir, replacement), enabled) +
    if replacement == previous then []
    else DropOps(previous, Others(Matches(dir, previous), PathFor(replacement, enabled)))
  }

  function TakeOverOps(slot: string, paths: seq<string>, fp: Fingerprint): seq<Op> {
    [Write(slot, fp)] + Drops(Others(paths, slot))
  }

  function CanonicalOps(slot: string, target: string, opposite: string, renameFails: bool): seq<Op> {
    (if slot != target && !renameFails then [Move(slot, target)] else []) +
    if opposite != (if renameFails then slot else target) then [Drop(opposite)] else []
  }

  /** The replacement is new: it takes over the previous identity's slot. */
  function SlotOps(dir: Directory, previous: Fingerprint, replacement: Fingerprint, renameFails: bool): seq<Op>
    requires Held(dir, previous)
  {
    var enabled := Enabled(dir, previous) || Enabled(dir, replacement);
    var slot := Matches(dir, previous)[0];
    TakeOverOps(slot, Matches(dir, previous), replacement) +
    CanonicalOps(slot, PathFor(replacement, enabled), PathFor(replacement, !enabled), renameFails)
  }

  /** From a directory and its history, exactly these operations lead to another. */
  ghost predicate Traced(
    before: Directory, history: seq<Directory>, ops: seq<Op>, after: Directory, longer: seq<Directory>)
  {
    after == Performed(before, ops) && longer == history + States(before, ops)
  }

  lemma TracedOne(before: Directory, history: seq<Directory>, op: Op)
    ensures Traced(before, history, [op], Perform(before, op), history + [Perform(before, op)])
    ensures Traced(before, history, [], before, history)
  {
    SingleOp(before, op);
    hide Perform;
    hide Performed;
    hide States;
  }

  lemma NothingDone(dir: Directory, history: seq<Directory>)
    ensures Traced(dir, history, [], dir, history)
  {
  }

  lemma DropsMore(names: seq<string>, name: string)
    ensures Drops(names + [name]) == Drops(names) + [Drop(name)]
  {
  }

  lemma TracedBoth(
    before: Directory, history: seq<Directory>, a: seq<Op>, middle: Directory, longer: seq<Directory>, b: seq<Op>,
    after: Directory, longest: seq<Directory>)
    requires Traced(before, history, a, middle, longer) && Traced(middle, longer, b, after, longest)
    ensures Traced(before, history, a + b, after, longest)
  {
    OpsAppend(before, a, b);
    hide Performed;
    hide States;
  }

  lemma NoOthers(dir: Directory, keep: string)
    ensures Drops(Others([], keep)) == [] && Performed(dir, []) == dir && States(dir, []) == []
  {
  }

  lemma OneMoreOther(dir: Directory, paths: seq<string>, path: string, keep: string)
    ensures var before, after := Drops(Others(paths, keep)), Drops(Others(paths + [path], keep));
            if path == keep then after == before
            else
              && Performed(dir, after) == Performed(dir, before) - {path}
              && States(dir, after) == States(dir, before) + [Performed(dir, before) - {path}]
  {
    var before, after := Drops(Others(paths, keep)), Drops(Others(paths + [path], keep));
    assert (paths + [path])[..|paths|] == paths;
    if path != keep {
      assert after == before + [Drop(path)];
      OpsAppend(dir, before, [Drop(path)]);
      SingleOp(Performed(dir, before), Drop(path));
    }
  }

  function AddOps(dir: Directory, fp: Fingerprint, limit: nat): seq<Op> {
    if !Readable(dir) || (!Held(dir, fp) && |HeldKeys(dir)| >= limit) then [] else SettleOps(fp, Matches(dir, fp), true)
  }

  function SetEnabledOps(dir: Directory, fp: Fingerprint, enabled: bool): seq<Op> {
    if !Held(dir, fp) then [] else SettleOps(fp, Matches(dir, fp), enabled)
  }

  function RemoveOps(dir: Directory, fp: Fingerprint): seq<Op> {
    if !Held(dir, fp) then [] else DropOps(fp, Matches(dir, fp))
  }

  function ReplaceOps(dir: Directory, previous: Fingerprint, replacement: Fingerprint, renameFails: bool): seq<Op> {
    if !Held(dir, previous) || TargetTaken(dir, previous, replacement) then []
    else if HasSlot(dir, previous, replacement) then KnownOps(dir, previous, replacement)
    else SlotOps(dir, previous, replacement, renameFails)
  }

  class TrustedKeyStore {
    var dir: Directory
    const limit: nat
    /** Every state the directory has gone through: a crash leaves one of these. */
    ghost var steps: seq<Directory>

    constructor (initial: Directory, max: nat)
      ensures dir == initial && limit == max && steps == [initial]
    {
      dir, limit, steps := initial, max, [initial];
    }

    /** os.replace of a complete temporary file. */
    method AtomicWrite(name: string, fp: Fingerprint)
      modifies this
      ensures dir == old(dir)[name := Key(fp)] && steps == old(steps) + [dir]
      ensures Traced(old(dir), old(steps), [Write(name, fp)], dir, steps)
    {
      ghost var before, from := dir, steps;
      dir := dir[name := Key(fp)];
      steps := steps + [dir];
      TracedOne(before, from, Write(name, fp));
    }

    method Unlink(name: string)
      modifies this
      ensures dir == old(dir) - {name} && steps == old(steps) + [dir]
      ensures Traced(old(dir), old(steps), [Drop(name)], dir, steps)
    {
      ghost var before, from := dir, steps;
      dir := dir - {name};
      steps := steps + [dir];
      TracedOne(before, from, Drop(name));
    }

    /** os.replace(slot, target), whose failure is swallowed. */
    method Rename(slot: string, target: string, fails: bool) returns (at: string)
      requires slot in dir
      modifies this
      ensures at == if fails then slot else target
      ensures fails ==> dir == old(dir) && steps == old(steps)
      ensures !fails ==> dir == (old(dir) - {slot})[target := old(dir)[slot]] && steps == old(steps) + [dir]
      ensures !fails ==> Traced(old(dir), old(steps), [Move(slot, target)], dir, steps)
    {
      ghost var before, from := dir, steps;
      if fails {
        return slot;
      }
      dir := (dir - {slot})[target := dir[slot]];
      steps := steps + [dir];
      TracedOne(before, from, Move(slot, target));
      return target;
    }

    /** New states differ from the old one only by files among some names being gone. */
    ghost predicate OnlyDropped(from: nat, before: Directory, names: set<string>)
      reads this
    {
      && from <= |steps|
      && forall i :: from <= i < |steps| ==>
           (before - names).Keys <= steps[i].Keys <= before.Keys &&
           forall n :: n in steps[i] ==> steps[i][n] == before[n]
    }

    /** _remove_other_matches */
    method RemoveOtherMatches(paths: seq<string>, keep: string)
      modifies this
      ensures dir == old(dir) - (set p | p in paths && p != keep)
      ensures old(steps) <= steps
      ensures OnlyDropped(|old(steps)|, old(dir), set p | p in paths && p != keep)
      ensures Traced(old(dir), old(steps), Drops(Others(paths, keep)), dir, steps)
    {
      hide Performed;
      hide States;
      hide Others;
      ghost var before, from := dir, |steps|;
      NoOthers(before, keep);
      for k := 0 to |paths|
        invariant dir == before - (set p | p in paths[..k] && p != keep)
        invariant old(steps) <= steps
        invariant OnlyDropped(from, before, set p | p in paths && p != keep)
        invariant Traced(before, old(steps), Drops(Others(paths[..k], keep)), dir, steps)
      {
        assert paths[..k + 1] == paths[..k] + [paths[k]];
        OneMoreOther(before, paths[..k], paths[k], keep);
        if paths[k] != keep {
          Unlink(paths[k]);
        }
      }
      assert paths[..|paths|] == paths;
    }

    /** Write a key under its canonical name, then drop its other files and the opposite name. */
    method SettleAt(fp: Fingerprint, matches: seq<string>, enabled: bool)
      requires forall name :: name in matches <==> name in MatchSet(dir, fp)
      modifies this
      ensures dir == Rewritten(old(dir), MatchSet(old(dir), fp) + CanonicalNames(fp), PathFor(fp, enabled), fp)
      ensures old(steps) <= steps
      ensures forall i :: |old(steps)| <= i < |steps| ==>
                PathFor(fp, enabled) in steps[i] && steps[i][PathFor(fp, enabled)] == Key(fp)
      ensures Derived(old(dir), dir, fp) && forall i :: |old(steps)| <= i < |steps| ==> Derived(old(dir), steps[i], fp)
      ensures Traced(old(dir), old(steps), SettleOps(fp, matches, enabled), dir, steps)
    {
      hide Performed;
      hide States;
      hide Drops;
      hide Others;
      hide Traced;
      hide MatchSet;
      hide IsPem;
      hide IsDigest;
      hide EnabledPath;
      hide DisabledPath;
      ghost var before := dir;
      PathPair(fp, enabled);
      hide Rewritten;
      hide PathFor;
      hide CanonicalNames;
      var target, opposite := PathFor(fp, enabled), PathFor(fp, !enabled);
      ghost var history := steps;
      AtomicWrite(target, fp);
      ghost var written, from, first := dir, |steps|, steps;
      RemoveOtherMatches(matches, target);
      ghost var cleaned, second := dir, steps;
      TracedBoth(before, history, [Write(target, fp)], written, first, Drops(Others(matches, target)), dir, steps);
      Unlink(opposite);
      TracedBoth(before, history, [Write(target, fp)] + Drops(Others(matches, target)), cleaned, second,
                 [Drop(opposite)], dir, steps);
      forall i | from <= i < |steps|
        ensures Derived(before, steps[i], fp)
      {
        DerivedWithin(before, written, steps[i], fp);
      }
      DerivedWithin(before, written, dir, fp);
      RewriteShape(before, MatchSet(before, fp), matches, target, opposite, fp);
    }

    lemma SettledStepsHold(from: nat, fp: Fingerprint, enabled: bool)
      requires forall i :: from <= i < |steps| ==>
                 PathFor(fp, enabled) in steps[i] && steps[i][PathFor(fp, enabled)] == Key(fp)
      ensures forall i :: from <= i < |steps| ==> Held(steps[i], fp) && (enabled ==> Enabled(steps[i], fp))
    {
      hide Held;
      hide Enabled;
      hide PathFor;
      hide IsPem;
      forall i | from <= i < |steps|
        ensures Held(steps[i], fp) && (enabled ==> Enabled(steps[i], fp))
      {
        WrittenIsHeld(steps[i], PathFor(fp, enabled), fp);
      }
    }

    lemma DerivedSteps(from: nat, before: Directory, x: Fingerprint)
      requires forall i :: from <= i < |steps| ==> Derived(before, steps[i], x)
      ensures forall i :: from <= i < |steps| ==>
                |HeldKeys(steps[i])| <= |HeldKeys(before)| + if Held(before, x) then 0 else 1
    {
      hide Derived;
      hide Held;
      hide HeldKeys;
      forall i | from <= i < |steps|
        ensures |HeldKeys(steps[i])| <= |HeldKeys(before)| + if Held(before, x) then 0 else 1
      {
        KeysWithin(before, steps[i], x);
      }
    }

    /** add_trusted_public_key, for a key that parses */
    method Add(fp: Fingerprint) returns (r: Outcome)
      modifies this
      ensures dir == AfterAdd(old(dir), fp, limit) && old(steps) <= steps
      ensures r.Done? <==> Readable(old(dir)) && (Held(old(dir), fp) || |HeldKeys(old(dir))| < limit)
      ensures forall i :: |old(steps)| <= i < |steps| ==> Enabled(steps[i], fp)
      ensures |HeldKeys(old(dir))| <= limit ==>
                forall i :: |old(steps)| <= i < |steps| ==> |HeldKeys(steps[i])| <= limit
      ensures Traced(old(dir), old(steps), AddOps(old(dir), fp, limit), dir, steps)
    {
      hide Traced;
      hide SettleOps;
      NothingDone(dir, steps);
      hide MatchSet;
      hide IsDigest;
      hide HeldKeys;
      hide Held;
      hide Enabled;
      hide Rewritten;
      hide Readable;
      var existing := Matches(dir, fp);
      hide Matches;
      if !Readable(dir) {
        return StoreInvalid;
      }
      if existing == [] && |HeldKeys(dir)| >= limit {
        return LimitExceeded;
      }
      ghost var before := dir;
      SettleAt(fp, existing, true);
      SettledStepsHold(|old(steps)|, fp, true);
      DerivedSteps(|old(steps)|, before, fp);
      return Done;
    }

    /** set_trusted_key_enabled */
    method SetEnabled(fp: Fingerprint, enabled: bool) returns (r: Outcome)
      modifies this
      ensures dir == AfterSetEnabled(old(dir), fp, enabled) && old(steps) <= steps
      ensures r.Done? <==> Held(old(dir), fp)
      ensures forall i :: |old(steps)| <= i < |steps| ==> Held(steps[i], fp) && (enabled ==> Enabled(steps[i], fp))
      ensures forall i :: |old(steps)| <= i < |steps| ==> |HeldKeys(steps[i])| <= |HeldKeys(old(dir))|
      ensures Traced(old(dir), old(steps), SetEnabledOps(old(dir), fp, enabled), dir, steps)
    {
      hide Traced;
      hide SettleOps;
      NothingDone(dir, steps);
      hide MatchSet;
      hide HeldKeys;
      hide IsDigest;
      hide Held;
      hide Enabled;
      hide Rewritten;
      var matches := Matches(dir, fp);
      hide Matches;
      if matches == [] {
        return KeyNotFound;
      }
      ghost var before := dir;
      SettleAt(fp, matches, enabled);
      SettledStepsHold(|old(steps)|, fp, enabled);
      DerivedSteps(|old(steps)|, before, fp);
      return Done;
    }

    lemma FewerSteps(from: nat, before: Directory, x: Fingerprint)
      requires Held(before, x) && forall i :: from <= i < |steps| ==> Within(steps[i], before)
      ensures forall i :: from <= i < |steps| ==> |HeldKeys(steps[i])| <= |HeldKeys(before)|
    {
      hide Held;
      hide HeldKeys;
      DerivedSteps(from, before, x);
    }

    /** Drop both canonical names of a key. */
    method DropBothNames(fp: Fingerprint)
      modifies this
      ensures dir == old(dir) - {EnabledPath(fp)} - {DisabledPath(fp)} && old(steps) <= steps
      ensures forall i :: |old(steps)| <= i < |steps| ==> (old(dir) - CanonicalNames(fp)).Keys <= steps[i].Keys
      ensures forall i :: |old(steps)| <= i < |steps| ==> Within(steps[i], old(dir))
      ensures Traced(old(dir), old(steps), [Drop(EnabledPath(fp)), Drop(DisabledPath(fp))], dir, steps)
    {
      hide Traced;
      hide EnabledPath;
      hide DisabledPath;
      hide IsDigest;
      ghost var before, history := dir, steps;
      Unlink(EnabledPath(fp));
      ghost var reached, longer := dir, steps;
      Unlink(DisabledPath(fp));
      TracedBoth(before, history, [Drop(EnabledPath(fp))], reached, longer, [Drop(DisabledPath(fp))], dir, steps);
      assert [Drop(EnabledPath(fp))] + [Drop(DisabledPath(fp))] == [Drop(EnabledPath(fp)), Drop(DisabledPath(fp))];
    }

    /** remove_trusted_key */
    method Remove(fp: Fingerprint) returns (r: Outcome)
      modifies this
      ensures dir == AfterRemove(old(dir), fp) && old(steps) <= steps
      ensures r.Done? <==> Held(old(dir), fp)
      ensures forall i :: |old(steps)| <= i < |steps| ==> |HeldKeys(steps[i])| <= |HeldKeys(old(dir))|
      ensures Traced(old(dir), old(steps), RemoveOps(old(dir), fp), dir, steps)
    {
      hide Traced;
      hide Drops;
      NothingDone(dir, steps);
      hide HeldKeys;
      hide HoldsAt;
      hide IsPem;
      hide IsDigest;
      hide EnabledPath;
      hide DisabledPath;
      hide Held;
      hide MatchSet;
      ghost var before := dir;
      var matches := Matches(dir, fp);
      hide Matches;
      if matches == [] {
        return KeyNotFound;
      }
      for k := 0 to |matches|
        invariant dir == before - (set p | p in matches[..k]) && old(steps) <= steps
        invariant forall i :: |old(steps)| <= i < |steps| ==> Within(steps[i], before)
        invariant Traced(before, old(steps), Drops(matches[..k]), dir, steps)
      {
        assert matches[..k + 1] == matches[..k] + [matches[k]];
        ghost var reached, history := dir, steps;
        Unlink(matches[k]);
        TracedBoth(before, old(steps), Drops(matches[..k]), reached, history, [Drop(matches[k])], dir, steps);
        DropsMore(matches[..k], matches[k]);
      }
      assert matches[..|matches|] == matches;
      ghost var reached, history := dir, steps;
      DropBothNames(fp);
      TracedBoth(before, old(steps), Drops(matches), reached, history,
                 [Drop(EnabledPath(fp)), Drop(DisabledPath(fp))], dir, steps);
      FewerSteps(|old(steps)|, before, fp);
      RemoveShape(before, MatchSet(before, fp), matches, EnabledPath(fp), DisabledPath(fp));
      return Done;
    }

    /** Drop every file of an identity and both its canonical names, except the file to keep. */
    method DropIdentity(fp: Fingerprint, paths: seq<string>, keep: string)
      requires keep !in CanonicalNames(fp)
      modifies this
      ensures dir == old(dir) - (set p | p in paths && p != keep) - CanonicalNames(fp) && old(steps) <= steps
      ensures keep in old(dir) ==>
                forall i :: |old(steps)| <= i < |steps| ==> keep in steps[i] && steps[i][keep] == old(dir)[keep]
      ensures forall i :: |old(steps)| <= i < |steps| ==> Within(steps[i], old(dir))
      ensures Traced(old(dir), old(steps), DropOps(fp, Others(paths, keep)), dir, steps)
    {
      hide Traced;
      hide Drops;
      hide Others;
      hide IsPem;
      hide IsDigest;
      hide EnabledPath;
      hide DisabledPath;
      ghost var before, history := dir, steps;
      RemoveOtherMatches(paths, keep);
      ghost var others, longer := dir, steps;
      DropBothNames(fp);
      TracedBoth(before, history, Drops(Others(paths, keep)), others, longer,
                 [Drop(EnabledPath(fp)), Drop(DisabledPath(fp))], dir, steps);
      assert dir == others - CanonicalNames(fp);
    }

    /** The replacement already has a slot: settle it there, then drop the previous identity. */
    method ReplaceWithKnown(previous: Fingerprint, replacement: Fingerprint)
      requires Held(dir, previous) && !TargetTaken(dir, previous, replacement) && HasSlot(dir, previous, replacement)
      modifies this
      ensures dir == AfterReplace(old(dir), previous, replacement, false) && old(steps) <= steps
      ensures forall i :: |old(steps)| <= i < |steps| ==>
                && Held(steps[i], replacement)
                && (TrustsOneOf(old(dir), previous, replacement) ==> Enabled(steps[i], replacement))
                && |HeldKeys(steps[i])| <= |HeldKeys(old(dir))|
      ensures Traced(old(dir), old(steps), KnownOps(old(dir), previous, replacement), dir, steps)
    {
      hide Traced;
      hide SettleOps;
      hide DropOps;
      hide Others;
      hide HeldKeys;
      hide HoldsAt;
      hide IsPem;
      hide IsDigest;
      hide Held;
      hide Enabled;
      hide MatchSet;
      hide TargetTaken;
      hide Rewritten;
      ghost var before, from, history := dir, |steps|, steps;
      var previousMatches, replacementMatches := Matches(dir, previous), Matches(dir, replacement);
      var enabled := Enabled(dir, previous) || Enabled(dir, replacement);
      hide Matches;
      var target := PathFor(replacement, enabled);
      SettleAt(replacement, replacementMatches, enabled);
      if replacement != previous {
        TargetIsForeign(previous, replacement, enabled);
        hide PathFor;
        KnownShape(before, MatchSet(before, replacement), MatchSet(before, previous), previousMatches, target,
                   CanonicalNames(replacement), CanonicalNames(previous), replacement);
        hide CanonicalNames;
        RewrittenHas(before, MatchSet(before, replacement) + CanonicalNames(replacement), target, replacement);
        ghost var settled, next, longer := dir, |steps|, steps;
        DropIdentity(previous, previousMatches, target);
        TracedBoth(before, history, SettleOps(replacement, replacementMatches, enabled), settled, longer,
                   DropOps(previous, Others(previousMatches, target)), dir, steps);
        DroppedSteps(next, before, settled, replacement);
      } else {
        KnownSelf(MatchSet(before, replacement), CanonicalNames(replacement));
        hide CanonicalNames;
        assert SettleOps(replacement, replacementMatches, enabled) + [] ==
               SettleOps(replacement, replacementMatches, enabled);
      }
      SettledStepsHold(from, replacement, enabled);
      DerivedSteps(from, before, replacement);
    }

    lemma DroppedSteps(from: nat, before: Directory, settled: Directory, x: Fingerprint)
      requires Derived(before, settled, x)
      requires forall i :: from <= i < |steps| ==> Within(steps[i], settled)
      ensures forall i :: from <= i < |steps| ==> Derived(before, steps[i], x)
    {
      hide Derived;
      hide Within;
      forall i | from <= i < |steps|
        ensures Derived(before, steps[i], x)
      {
        DerivedWithin(before, settled, steps[i], x);
      }
    }

    /** Write the new key into an existing slot and drop the other files listed. */
    method TakeOver(slot: string, paths: seq<string>, fp: Fingerprint)
      requires slot in dir && Counted(slot)
      modifies this
      ensures dir == old(dir)[slot := Key(fp)] - (set p | p in paths && p != slot) && old(steps) <= steps
      ensures forall i :: |old(steps)| <= i < |steps| ==> SlotOk(old(dir), steps[i], fp, IsPem(slot))
      ensures forall i :: |old(steps)| <= i < |steps| ==> SlotDerived(old(dir), steps[i], slot, fp)
      ensures |steps| > |old(steps)| && steps[|old(steps)|] == old(dir)[slot := Key(fp)]
      ensures slot in dir && dir[slot] == Key(fp) && |ActiveFiles(dir)| <= |ActiveFiles(old(dir))|
      ensures SlotDerived(old(dir), dir, slot, fp)
      ensures Traced(old(dir), old(steps), TakeOverOps(slot, paths, fp), dir, steps)
    {
      hide Traced;
      hide Drops;
      hide Others;
      hide IsPem;
      hide IsDigest;
      hide SlotDerived;
      ghost var before, from, history := dir, |steps|, steps;
      AtomicWrite(slot, fp);
      ghost var written, longer := dir, steps;
      RemoveOtherMatches(paths, slot);
      TracedBoth(before, history, [Write(slot, fp)], written, longer, Drops(Others(paths, slot)), dir, steps);
      forall i | from <= i < |steps|
        ensures SlotOk(before, steps[i], fp, IsPem(slot)) && SlotDerived(before, steps[i], slot, fp)
      {
        SlotStep(before, steps[i], before, slot, fp);
        WriteDerives(before, steps[i], slot, fp);
      }
      SlotStep(before, dir, before, slot, fp);
      WriteDerives(before, dir, slot, fp);
    }

    /** Rename the slot to its canonical name if that works, then drop the opposite name. */
    method Canonicalize(
      slot: string, target: string, opposite: string, fp: Fingerprint, renameFails: bool, ghost before: Directory)
      returns (at: string)
      requires slot in dir && dir[slot] == Key(fp) && Counted(slot) && Counted(target)
      requires IsPem(slot) <==> IsPem(target)
      requires target != opposite && |ActiveFiles(dir)| <= |ActiveFiles(before)|
      requires SlotDerived(before, dir, slot, fp)
      modifies this
      ensures at == if renameFails then slot else target
      ensures var settled := if at != slot then (old(dir) - {slot})[target := Key(fp)] else old(dir);
              dir == if opposite != at then settled - {opposite} else settled
      ensures old(steps) <= steps
      ensures forall i :: |old(steps)| <= i < |steps| ==> SlotOk(before, steps[i], fp, IsPem(slot))
      ensures forall i :: |old(steps)| <= i < |steps| ==> SlotDerived(before, steps[i], slot, fp)
      ensures Traced(old(dir), old(steps), CanonicalOps(slot, target, opposite, renameFails), dir, steps)
    {
      hide Traced;
      ghost var start, history := dir, steps;
      NothingDone(dir, steps);
      hide IsPem;
      hide IsDigest;
      hide Counted;
      hide Derived;
      at := slot;
      if slot != target {
        RenameStep(before, dir, slot, target, fp);
        RenameDerives(before, dir, slot, target, fp);
        at := Rename(slot, target, renameFails);
      }
      ghost var settled, longer := dir, steps;
      ghost var moved := if slot != target && !renameFails then [Move(slot, target)] else [];
      NothingDone(dir, steps);
      TracedBoth(start, history, moved, settled, longer, [], settled, longer);
      if opposite != at {
        Unlink(opposite);
        TracedBoth(start, history, moved, settled, longer, [Drop(opposite)], dir, steps);
        SlotStep(before, dir, settled, at, fp);
        FewerDerives(before, settled, dir, slot, fp);
      }
    }

    /** A new identity takes over the previous identity's file, which is then renamed if that works. */
    method ReplaceInSlot(previous: Fingerprint, replacement: Fingerprint, renameFails: bool)
      requires Held(dir, previous) && !TargetTaken(dir, previous, replacement) && !HasSlot(dir, previous, replacement)
      modifies this
      ensures dir == AfterReplace(old(dir), previous, replacement, renameFails) && old(steps) <= steps
      ensures forall i :: |old(steps)| <= i < |steps| ==>
                && SlotOk(old(dir), steps[i], replacement, Enabled(old(dir), previous))
                && |HeldKeys(steps[i])| <= |HeldKeys(old(dir))| + if SeveralFiles(old(dir), previous) then 1 else 0
      ensures SeveralFiles(old(dir), previous) ==>
                |steps| > |old(steps)| && |HeldKeys(steps[|old(steps)|])| == |HeldKeys(old(dir))| + 1
      ensures Traced(old(dir), old(steps), SlotOps(old(dir), previous, replacement, renameFails), dir, steps)
    {
      hide Traced;
      hide TakeOverOps;
      hide CanonicalOps;
      hide HeldKeys;
      hide SlotDerived;
      hide SeveralFiles;
      hide IsPem;
      hide IsDigest;
      hide EnabledPath;
      hide DisabledPath;
      hide Rewritten;
      hide HoldsAt;
      hide Held;
      hide Enabled;
      hide MatchSet;
      hide Counted;
      SlotFacts(dir, previous, replacement);
      ghost var before, from := dir, |steps|;
      hide HasSlot;
      NewSlot(before, previous, replacement);
      var enabled := Enabled(dir, previous) || Enabled(dir, replacement);
      var previousMatches := Matches(dir, previous);
      hide Matches;
      PathPair(replacement, enabled);
      var target, opposite := PathFor(replacement, enabled), PathFor(replacement, !enabled);
      var slot := previousMatches[0];
      hide PathFor;
      hide CanonicalNames;
      hide SlotOk;
      hide ActiveFiles;
      ghost var history := steps;
      TakeOver(slot, previousMatches, replacement);
      ghost var taken, longer := dir, steps;
      var at := Canonicalize(slot, target, opposite, replacement, renameFails, before);
      TracedBoth(before, history, TakeOverOps(slot, previousMatches, replacement), taken, longer,
                 CanonicalOps(slot, target, opposite, renameFails), dir, steps);
      SlotShape(before, MatchSet(before, previous), previousMatches, slot, target, opposite, replacement, at);
      SlotSteps(from, before, slot, previous, replacement);
      if SeveralFiles(before, previous) {
        BothThere(before, slot, previous, replacement);
      }
    }

    lemma SlotSteps(from: nat, before: Directory, slot: string, previous: Fingerprint, x: Fingerprint)
      requires forall i :: from <= i < |steps| ==> SlotDerived(before, steps[i], slot, x)
      requires slot in MatchSet(before, previous) && previous != x
      ensures forall i :: from <= i < |steps| ==>
                |HeldKeys(steps[i])| <= |HeldKeys(before)| + if SeveralFiles(before, previous) then 1 else 0
    {
      hide HeldKeys;
      hide SlotDerived;
      hide SeveralFiles;
      hide MatchSet;
      forall i | from <= i < |steps|
        ensures |HeldKeys(steps[i])| <= |HeldKeys(before)| + if SeveralFiles(before, previous) then 1 else 0
      {
        SlotKeys(before, steps[i], slot, previous, x);
      }
    }

    /** replace_trusted_public_key, for a key that parses */
    method Replace(previous: Fingerprint, replacement: Fingerprint, renameFails: bool) returns (r: Outcome)
      modifies this
      ensures dir == AfterReplace(old(dir), previous, replacement, renameFails) && old(steps) <= steps
      ensures r == if !Held(old(dir), previous) then KeyNotFound
                   else if TargetTaken(old(dir), previous, replacement) then StoreInvalid else Done
      ensures forall i :: |old(steps)| <= i < |steps| ==>
                && Held(steps[i], replacement)
                && (TrustsOneOf(old(dir), previous, replacement) ==> Enabled(steps[i], replacement))
                && |HeldKeys(steps[i])| <=
                   |HeldKeys(old(dir))| + if Overlaps(old(dir), previous, replacement) then 1 else 0
      ensures r.Done? && Overlaps(old(dir), previous, replacement) ==>
                |steps| > |old(steps)| && |HeldKeys(steps[|old(steps)|])| == |HeldKeys(old(dir))| + 1
      ensures !HasSlot(old(dir), previous, replacement) ==>
                forall i :: |old(steps)| <= i < |steps| ==> |ActiveFiles(steps[i])| <= |ActiveFiles(old(dir))|
      ensures Traced(old(dir), old(steps), ReplaceOps(old(dir), previous, replacement, renameFails), dir, steps)
    {
      hide Traced;
      hide KnownOps;
      hide SlotOps;
      NothingDone(dir, steps);
      hide HeldKeys;
      hide SeveralFiles;
      hide AfterReplace;
      hide Held;
      hide Enabled;
      hide TargetTaken;
      hide HasSlot;
      hide ActiveFiles;
      hide IsDigest;
      NothingReplaced(dir, previous, replacement, renameFails);
      var matches := Matches(dir, previous);
      if matches == [] {
        return KeyNotFound;
      }
      if TargetTaken(dir, previous, replacement) {
        return StoreInvalid;
      }
      if HasSlot(dir, previous, replacement) {
        KnownIgnoresRename(dir, previous, replacement, renameFails);
        ReplaceWithKnown(previous, replacement);
      } else {
        NotYetEnabled(dir, previous, replacement);
        ReplaceInSlot(previous, replacement, renameFails);
      }
      return Done;
    }
  }

  lemma NotYetEnabled(dir: Directory, previous: Fingerprint, replacement: Fingerprint)
    requires !HasSlot(dir, previous, replacement)
    ensures TrustsOneOf(dir, previous, replacement) <==> Enabled(dir, previous)
  {
    EnabledIsHeld(dir, replacement);
    hide Held;
    hide Enabled;
  }

  lemma NewSlot(dir: Directory, previous: Fingerprint, replacement: Fingerprint)
    requires !HasSlot(dir, previous, replacement)
    ensures !Held(dir, replacement) && previous != replacement
    ensures CanonicalNames(replacement) == ReplaceCanonical(dir, previous, replacement)
  {
    hide Held;
  }

  lemma NothingReplaced(dir: Directory, previous: Fingerprint, replacement: Fingerprint, renameFails: bool)
    ensures !Held(dir, previous) || TargetTaken(dir, previous, replacement) ==>
              AfterReplace(dir, previous, replacement, renameFails) == dir
  {
    hide Held;
    hide TargetTaken;
    hide Rewritten;
    hide MatchSet;
    hide Matches;
  }

  lemma KnownIgnoresRename(dir: Directory, previous: Fingerprint, replacement: Fingerprint, renameFails: bool)
    requires HasSlot(dir, previous, replacement)
    ensures AfterReplace(dir, previous, replacement, renameFails) == AfterReplace(dir, previous, replacement, false)
  {
    hide HasSlot;
    hide Held;
    hide TargetTaken;
    hide Rewritten;
    hide MatchSet;
    hide Matches;
  }

  lemma PathPair(fp: Fingerprint, enabled: bool)
    ensures {PathFor(fp, enabled), PathFor(fp, !enabled)} == CanonicalNames(fp)
    ensures PathFor(fp, enabled) != PathFor(fp, !enabled)
  {
    hide EnabledPath;
    hide DisabledPath;
    hide IsPem;
  }

  /** The slot a new identity takes over: a file of the previous one, enabled whenever any of its files is. */
  lemma SlotFacts(dir: Directory, previous: Fingerprint, replacement: Fingerprint)
    requires Held(dir, previous) && !HasSlot(dir, previous, replacement) && !TargetTaken(dir, previous, replacement)
    ensures var slot, target := Matches(dir, previous)[0], ReplaceTarget(dir, previous, replacement);
            && slot in Matches(dir, previous) && slot in dir && Counted(slot) && Counted(target)
            && !Enabled(dir, replacement)
            && (IsPem(slot) <==> Enabled(dir, previous)) && (IsPem(target) <==> Enabled(dir, previous))
            && (target in dir ==> target in Matches(dir, previous))
            && PathFor(replacement, Enabled(dir, previous)) != PathFor(replacement, !Enabled(dir, previous))
    ensures forall name :: name in Matches(dir, previous) <==> name in MatchSet(dir, previous)
    ensures MatchSet(dir, replacement) == {}
  {
    EnabledIsHeld(dir, replacement);
    MatchGroups(dir, replacement);
    PathPair(replacement, Enabled(dir, previous));
    hide Enabled;
    hide Held;
    hide IsPem;
    hide IsDigest;
    hide PathFor;
    var slot := Matches(dir, previous)[0];
    hide Matches;
    assert slot in Matches(dir, previous);
    assert slot in MatchSet(dir, previous);
  }

  /** A state between the first write and the end: the new key is there, no active file was added. */
  ghost predicate SlotOk(before: Directory, d: Directory, replacement: Fingerprint, enabled: bool) {
    && Held(d, replacement) && (enabled ==> Enabled(d, replacement))
    && |ActiveFiles(d)| <= |ActiveFiles(before)|
  }

  lemma FewerFiles(a: set<string>, b: set<string>)
    requires a <= b
    ensures |a| <= |b|
  {
    assert b == a + (b - a);
  }

  lemma SlotStep(before: Directory, d: Directory, previous: Directory, slot: string, replacement: Fingerprint)
    requires slot in d && d[slot] == Key(replacement) && Counted(slot)
    requires d.Keys <= previous.Keys && |ActiveFiles(previous)| <= |ActiveFiles(before)|
    ensures SlotOk(before, d, replacement, IsPem(slot))
  {
    WrittenIsHeld(d, slot, replacement);
    FewerFiles(ActiveFiles(d), ActiveFiles(previous));
    hide Held;
    hide Enabled;
  }

  lemma RenameStep(before: Directory, cleaned: Directory, slot: string, target: string, replacement: Fingerprint)
    requires slot in cleaned && cleaned[slot] == Key(replacement) && slot != target
    requires Counted(target) && (IsPem(slot) <==> IsPem(target))
    requires |ActiveFiles(cleaned)| <= |ActiveFiles(before)|
    ensures SlotOk(before, (cleaned - {slot})[target := cleaned[slot]], replacement, IsPem(target))
  {
    var d := (cleaned - {slot})[target := cleaned[slot]];
    WrittenIsHeld(d, target, replacement);
    hide Held;
    hide Enabled;
    hide IsPem;
    var rest := ActiveFiles(cleaned) - {slot};
    if IsPem(slot) {
      assert ActiveFiles(d) == rest + {target};
      assert slot in ActiveFiles(cleaned);
    } else {
      assert ActiveFiles(d) == rest - {target};
      FewerFiles(ActiveFiles(d), ActiveFiles(cleaned));
    }
  }

  lemma TargetIsForeign(previous: Fingerprint, replacement: Fingerprint, enabled: bool)
    requires previous != replacement
    ensures PathFor(replacement, enabled) !in CanonicalNames(previous)
  {
    hide IsPem;
    hide IsDisabledName;
    PathsAreDistinct(replacement, previous, enabled);
    PathEndings(replacement, previous, enabled);
    PathPair(previous, enabled);
    hide PathFor;
    hide CanonicalNames;
  }

  lemma PathEndings(fp: Fingerprint, other: Fingerprint, enabled: bool)
    ensures PathFor(fp, enabled) != PathFor(other, !enabled)
  {
    hide IsPem;
    hide EnabledPath;
    hide DisabledPath;
  }

  lemma RewrittenHas(dir: Directory, gone: set<string>, written: string, fp: Fingerprint)
    ensures written in Rewritten(dir, gone, written, fp) && Rewritten(dir, gone, written, fp)[written] == Key(fp)
  {
  }

  lemma KnownSelf(own: set<string>, canonical: set<string>)
    ensures own + own + (canonical + canonical) == own + canonical
  {
  }

  lemma KnownShape(
    before: Directory, mine: set<string>, theirs: set<string>, theirPaths: seq<string>, target: string,
    mineNames: set<string>, theirNames: set<string>, fp: Fingerprint)
    requires target !in theirNames && forall name :: name in theirPaths <==> name in theirs
    ensures Rewritten(before, mine + mineNames, target, fp) - (set p | p in theirPaths && p != target) - theirNames ==
            Rewritten(before, theirs + mine + (mineNames + theirNames), target, fp)
  {
    hide IsDigest;
  }

  lemma SlotShape(
    before: Directory, own: set<string>, paths: seq<string>, slot: string, target: string, opposite: string,
    fp: Fingerprint, at: string)
    requires forall name :: name in paths <==> name in own
    requires slot in own && target != opposite && (target in before ==> target in own) && (at == slot || at == target)
    ensures var cleaned := before[slot := Key(fp)] - (set p | p in paths && p != slot);
            var settled := if at != slot then (cleaned - {slot})[target := Key(fp)] else cleaned;
            (if opposite != at then settled - {opposite} else settled) ==
            Rewritten(before, own + {} + {target, opposite}, at, fp)
  {
    hide IsDigest;
  }

  lemma WrittenIsHeld(dir: Directory, name: string, fp: Fingerprint)
    requires name in dir && dir[name] == Key(fp) && Counted(name)
    ensures Held(dir, fp) && (IsPem(name) ==> Enabled(dir, fp))
  {
    hide IsPem;
    assert HoldsAt(dir, name, fp);
  }

  lemma OwnFiles(dir: Directory, fp: Fingerprint)
    ensures forall name :: name in dir && HoldsAt(dir, name, fp) ==> name in MatchSet(dir, fp)
    ensures forall name :: name in MatchSet(dir, fp) && name in dir ==> dir[name] == Key(fp)
  {
    hide Counted;
  }

  /** Settling one key: exactly the obvious map update, as long as its canonical names held no other key's last file. */
  lemma SettledView(dir: Directory, fp: Fingerprint, enabled: bool)
    ensures (View(Rewritten(dir, MatchSet(dir, fp) + CanonicalNames(fp), PathFor(fp, enabled), fp)) ==
             View(dir)[fp := enabled]) <==> Spare(dir, CanonicalNames(fp), {fp})
  {
    PathPair(fp, enabled);
    hide *;
    OwnFiles(dir, fp);
    ViewUpdateIff(dir, MatchSet(dir, fp), CanonicalNames(fp), PathFor(fp, enabled), fp, {fp});
    assert (View(dir) - {fp})[fp := enabled] == View(dir)[fp := enabled];
  }

  lemma AddView(dir: Directory, fp: Fingerprint, limit: nat)
    requires Readable(dir) && (Held(dir, fp) || |HeldKeys(dir)| < limit)
    ensures View(AfterAdd(dir, fp, limit)) == View(dir)[fp := true] <==> Spare(dir, CanonicalNames(fp), {fp})
  {
    hide Readable;
    hide Held;
    hide HeldKeys;
    hide Rewritten;
    hide MatchSet;
    hide View;
    hide Spare;
    SettledView(dir, fp, true);
  }

  lemma SetEnabledView(dir: Directory, fp: Fingerprint, enabled: bool)
    requires Held(dir, fp)
    ensures View(AfterSetEnabled(dir, fp, enabled)) == View(dir)[fp := enabled] <==>
            Spare(dir, CanonicalNames(fp), {fp})
  {
    hide Held;
    hide Rewritten;
    hide MatchSet;
    hide View;
    hide Spare;
    SettledView(dir, fp, enabled);
  }

  lemma RemoveView(dir: Directory, fp: Fingerprint)
    requires Held(dir, fp)
    ensures View(AfterRemove(dir, fp)) == View(dir) - {fp} <==> Spare(dir, CanonicalNames(fp), {fp})
  {
    OwnFiles(dir, fp);
    hide CanonicalNames;
    var names := CanonicalNames(fp);
    var after := dir - (names + MatchSet(dir, fp));
    assert names + MatchSet(dir, fp) == MatchSet(dir, fp) + names;
    assert AfterRemove(dir, fp) == after;
    assert !Held(after, fp) by {
      hide IsPem;
      hide IsDisabledName;
    }
    hide MatchSet;
    hide HoldsAt;
    forall other: Fingerprint | other != fp
      ensures Held(after, other) == Held(dir - names, other) && Enabled(after, other) == Enabled(dir - names, other)
    {
      DropOwnFiles(dir, names, MatchSet(dir, fp), {fp}, other);
    }
    hide AfterRemove;
    SameView(dir, after, names, fp);
  }

  lemma SameView(dir: Directory, after: Directory, names: set<string>, fp: Fingerprint)
    requires !Held(after, fp)
    requires forall other: Fingerprint :: other != fp ==>
               Held(after, other) == Held(dir - names, other) && Enabled(after, other) == Enabled(dir - names, other)
    ensures View(after) == View(dir) - {fp} <==> Spare(dir, names, {fp})
  {
    hide Held;
    hide Enabled;
    hide IsDigest;
    var expected := View(dir) - {fp};
    if View(after) == expected {
      forall other: Fingerprint | other != fp
        ensures Held(dir - names, other) == Held(dir, other) && Enabled(dir - names, other) == Enabled(dir, other)
      {
        assert other in View(after) <==> other in expected;
        EnabledIsHeld(dir, other);
        EnabledIsHeld(dir - names, other);
      }
    }
    if Spare(dir, names, {fp}) {
      forall other: Fingerprint
        ensures other in View(after) <==> other in expected
        ensures other in View(after) ==> View(after)[other] == expected[other]
      {
      }
      assert View(after).Keys == expected.Keys;
    }
  }

  /**
    A replacement carries "previous or replacement" enabledness, whether or not the final rename works,
    exactly when the canonical names it clears held no third key's last file.
   */
  lemma ReplaceView(dir: Directory, previous: Fingerprint, replacement: Fingerprint, renameFails: bool)
    requires Held(dir, previous) && !TargetTaken(dir, previous, replacement)
    ensures View(AfterReplace(dir, previous, replacement, renameFails)) ==
            (View(dir) - {previous, replacement})[
              replacement := Enabled(dir, previous) || Enabled(dir, replacement)] <==>
            Spare(dir, ReplaceCanonical(dir, previous, replacement), {previous, replacement})
  {
    OwnFiles(dir, previous);
    OwnFiles(dir, replacement);
    ReplaceWritesWhere(dir, previous, replacement, renameFails);
    hide HoldsAt;
    hide MatchSet;
    hide Held;
    hide Enabled;
    hide TargetTaken;
    hide HasSlot;
    hide ReplaceCanonical;
    hide ReplaceWritten;
    hide Matches;
    hide Spare;
    hide Rewritten;
    hide IsPem;
    hide View;
    ViewUpdateIff(dir, MatchSet(dir, previous) + MatchSet(dir, replacement),
                  ReplaceCanonical(dir, previous, replacement),
                  ReplaceWritten(dir, previous, replacement, renameFails), replacement, {previous, replacement});
  }

  lemma ReplaceWritesWhere(dir: Directory, previous: Fingerprint, replacement: Fingerprint, renameFails: bool)
    requires Held(dir, previous)
    ensures var written := ReplaceWritten(dir, previous, replacement, renameFails);
            && Counted(written) && (IsPem(written) <==> Enabled(dir, previous) || Enabled(dir, replacement))
            && written in
               MatchSet(dir, previous) + MatchSet(dir, replacement) + ReplaceCanonical(dir, previous, replacement)
  {
    EnabledIsHeld(dir, replacement);
    PathPair(replacement, Enabled(dir, previous) || Enabled(dir, replacement));
    hide Held;
    hide Enabled;
    hide IsPem;
    hide PathFor;
    hide EnabledPath;
    hide DisabledPath;
    hide IsDigest;
    var first := Matches(dir, previous)[0];
    assert first in Matches(dir, previous);
    hide Matches;
    assert first in MatchSet(dir, previous);
    hide MatchSet;
    assert ReplaceTarget(dir, previous, replacement) in CanonicalNames(replacement);
    hide CanonicalNames;
  }

  /** Under canonical naming no operation can clear another key's file. */
  lemma NamedIsSpare(dir: Directory, names: set<string>, exempt: set<Fingerprint>)
    requires Named(dir)
    requires forall name :: name in names ==>
               exists fp: Fingerprint, enabled :: fp in exempt && name == PathFor(fp, enabled)
    ensures Spare(dir, names, exempt)
  {
    hide IsPem;
    hide IsDisabledName;
    forall other: Fingerprint | other !in exempt
      ensures Held(dir - names, other) == Held(dir, other) && Enabled(dir - names, other) == Enabled(dir, other)
    {
      forall name
        ensures name in dir - names && HoldsAt(dir - names, name, other) <==> name in dir && HoldsAt(dir, name, other)
      {
        if name in names && name in dir {
          var fp: Fingerprint, enabled :| fp in exempt && name == PathFor(fp, enabled);
          assert dir[name] == Key(fp);
        }
      }
    }
  }

  lemma NamesOf(fp: Fingerprint, name: string)
    ensures name in CanonicalNames(fp) <==> name == PathFor(fp, true) || name == PathFor(fp, false)
  {
    hide EnabledPath;
    hide DisabledPath;
  }

  lemma OwnNamesSpare(dir: Directory, fp: Fingerprint)
    requires Named(dir)
    ensures Spare(dir, CanonicalNames(fp), {fp})
  {
    forall name | name in CanonicalNames(fp)
      ensures exists other: Fingerprint, enabled :: other in {fp} && name == PathFor(other, enabled)
    {
      NamesOf(fp, name);
    }
    hide CanonicalNames;
    hide Named;
    hide Spare;
    hide PathFor;
    NamedIsSpare(dir, CanonicalNames(fp), {fp});
  }

  lemma ReplaceNamesSpare(dir: Directory, previous: Fingerprint, replacement: Fingerprint)
    requires Named(dir)
    ensures Spare(dir, ReplaceCanonical(dir, previous, replacement), {previous, replacement})
    ensures !TargetTaken(dir, previous, replacement)
  {
    var names := ReplaceCanonical(dir, previous, replacement);
    forall name | name in names
      ensures exists other: Fingerprint, enabled :: other in {previous, replacement} && name == PathFor(other, enabled)
    {
      NamesOf(previous, name);
      NamesOf(replacement, name);
      hide CanonicalNames;
      hide PathFor;
      hide HasSlot;
    }
    assert !TargetTaken(dir, previous, replacement) by {
      hide Enabled;
      hide IsPem;
      hide IsDisabledName;
      hide PathFor;
    }
    hide CanonicalNames;
    hide Named;
    hide Spare;
    hide PathFor;
    hide ReplaceCanonical;
    NamedIsSpare(dir, names, {previous, replacement});
  }

  lemma PathNamesKey(fp: Fingerprint, b: bool, other: Fingerprint, c: bool)
    ensures PathFor(fp, b) == PathFor(other, c) ==> fp == other
  {
    if fp != other {
      PathsAreDistinct(fp, other, b);
    }
    PathEndings(fp, other, b);
    hide PathFor;
    hide IsDigest;
  }

  /** The written name is nobody else's canonical name. */
  ghost predicate NamesOnly(written: string, x: Fingerprint) {
    forall fp: Fingerprint, enabled :: written == PathFor(fp, enabled) ==> fp == x
  }

  lemma CanonicalNamesOnly(fp: Fingerprint, enabled: bool)
    ensures NamesOnly(PathFor(fp, enabled), fp)
  {
    forall other: Fingerprint, b | PathFor(fp, enabled) == PathFor(other, b)
      ensures other == fp
    {
      PathNamesKey(fp, enabled, other, b);
    }
    hide PathFor;
  }

  /** Canonical naming survives a rewrite exactly when the written name is nobody else's. */
  lemma RewriteKeepsNaming(dir: Directory, gone: set<string>, written: string, x: Fingerprint)
    requires Named(dir)
    ensures Named(Rewritten(dir, gone, written, x)) <==> NamesOnly(written, x)
  {
    hide PathFor;
    hide IsDigest;
    var after := Rewritten(dir, gone, written, x);
    if Named(after) {
      forall fp: Fingerprint, enabled | written == PathFor(fp, enabled)
        ensures fp == x
      {
        assert PathFor(fp, enabled) in after;
      }
    }
  }

  lemma DropKeepsNaming(dir: Directory, gone: set<string>)
    requires Named(dir)
    ensures Named(dir - gone)
  {
    hide PathFor;
  }

  /**
    A swallowed rename failure keeps the view but leaves the new key in the old slot: naming survives
    exactly when that slot was not the previous key's canonical file.
   */
  lemma FailedRenameBreaksNaming(dir: Directory, previous: Fingerprint, replacement: Fingerprint)
    requires Named(dir) && Held(dir, previous) && !HasSlot(dir, previous, replacement)
    ensures Named(AfterReplace(dir, previous, replacement, true)) <==>
            Matches(dir, previous)[0] !in CanonicalNames(previous)
  {
    ReplaceNamesSpare(dir, previous, replacement);
    var slot := Matches(dir, previous)[0];
    assert slot in Matches(dir, previous);
    hide Matches;
    OwnFiles(dir, previous);
    NamesOf(previous, slot);
    hide CanonicalNames;
    hide PathFor;
    hide IsPem;
    hide Held;
    hide Rewritten;
    hide Spare;
    hide TargetTaken;
    hide MatchSet;
    RewriteKeepsNaming(
      dir, MatchSet(dir, previous) + MatchSet(dir, replacement) + ReplaceCanonical(dir, previous, replacement),
      slot, replacement);
    hide Counted;
    hide ReplaceCanonical;
    assert slot in dir && dir[slot] == Key(previous);
  }

  /** What the broken naming costs: adding the old key back wipes out the key that replaced it. */
  lemma ReAddWipesReplacement(former: Fingerprint, newer: Fingerprint, limit: nat)
    requires former != newer && limit >= 2
    ensures var dir := map[EnabledPath(former) := Key(former)];
            var replaced := AfterReplace(dir, former, newer, true);
            && View(replaced) == map[newer := true]
            && View(AfterAdd(replaced, former, limit)) == map[former := true]
  {
    var name := EnabledPath(former);
    var dir := map[name := Key(former)];
    hide EnabledPath;
    hide DisabledPath;
    hide IsPem;
    hide IsDisabledName;
    hide IsDigest;
    OneFile(dir, name, former);
    PathPair(newer, true);
    PathNamesKey(former, true, newer, true);
    PathEndings(former, newer, true);
    assert name !in CanonicalNames(newer);
    OneFileReplaced(name, former, newer);
    var replaced := map[name := Key(newer)];
    OneFile(replaced, name, newer);
    OneFileReadded(name, former, newer, limit);
    OneFile(dir, name, former);
  }

  lemma OneFile(dir: Directory, name: string, fp: Fingerprint)
    requires dir == map[name := Key(fp)] && IsPem(name)
    ensures View(dir) == map[fp := true] && HeldKeys(dir) == {fp} && Readable(dir)
    ensures forall other: Fingerprint :: Held(dir, other) == Enabled(dir, other) == (other == fp)
    ensures MatchSet(dir, fp) == {name} && Matches(dir, fp)[0] == name
    ensures forall other: Fingerprint :: other != fp ==> MatchSet(dir, other) == {}
  {
    hide IsPem;
    hide IsDigest;
    assert HoldsAt(dir, name, fp);
    assert forall other: Fingerprint :: Held(dir, other) <==> other == fp;
    assert forall other: Fingerprint :: Enabled(dir, other) <==> other == fp;
    assert HeldKeys(dir) == {fp};
    assert MatchSet(dir, fp) == {name};
    assert Matches(dir, fp)[0] in Matches(dir, fp);
  }

  lemma OneFileFree(name: string, former: Fingerprint, newer: Fingerprint)
    requires former != newer && IsPem(name) && name !in CanonicalNames(newer)
    ensures var dir := map[name := Key(former)];
            && Held(dir, former) && !HasSlot(dir, former, newer) && !TargetTaken(dir, former, newer)
            && ReplaceWritten(dir, former, newer, true) == name
            && MatchSet(dir, former) + MatchSet(dir, newer) == {name}
  {
    var dir := map[name := Key(former)];
    OneFile(dir, name, former);
    NamesOf(newer, ReplaceTarget(dir, former, newer));
    hide Held;
    hide Enabled;
    hide MatchSet;
    hide Matches;
    hide CanonicalNames;
    hide PathFor;
    hide IsPem;
    hide IsDigest;
  }

  lemma OneFileReplaced(name: string, former: Fingerprint, newer: Fingerprint)
    requires former != newer && IsPem(name) && name !in CanonicalNames(newer)
    ensures AfterReplace(map[name := Key(former)], former, newer, true) == map[name := Key(newer)]
  {
    var dir := map[name := Key(former)];
    OneFileFree(name, former, newer);
    hide Held;
    hide HasSlot;
    hide TargetTaken;
    hide ReplaceWritten;
    hide ReplaceCanonical;
    hide MatchSet;
    hide CanonicalNames;
    hide IsPem;
    hide IsDigest;
    OneNameRewritten(name, former, newer, ReplaceCanonical(dir, former, newer));
  }

  lemma OneNameRewritten(name: string, former: Fingerprint, newer: Fingerprint, names: set<string>)
    ensures Rewritten(map[name := Key(former)], {name} + names, name, newer) == map[name := Key(newer)]
  {
    hide IsDigest;
  }

  lemma OneFileReadded(name: string, former: Fingerprint, newer: Fingerprint, limit: nat)
    requires former != newer && limit >= 2 && name == EnabledPath(former)
    ensures AfterAdd(map[name := Key(newer)], former, limit) == map[name := Key(former)]
  {
    var dir := map[name := Key(newer)];
    OneFile(dir, name, newer);
    assert Readable(dir) && MatchSet(dir, former) == {} && |HeldKeys(dir)| == 1;
    AddWhere(dir, former, limit);
    hide *;
    NameOnly(name, former);
    OneNameReadded(name, former, newer, CanonicalNames(former));
  }

  lemma AddWhere(dir: Directory, fp: Fingerprint, limit: nat)
    requires Readable(dir) && |HeldKeys(dir)| < limit
    ensures AfterAdd(dir, fp, limit) == Rewritten(dir, MatchSet(dir, fp) + CanonicalNames(fp), EnabledPath(fp), fp)
  {
    hide Held;
    hide HeldKeys;
    hide MatchSet;
    hide Readable;
    hide Rewritten;
  }

  lemma NameOnly(name: string, fp: Fingerprint)
    requires name == EnabledPath(fp)
    ensures name in CanonicalNames(fp)
  {
  }

  lemma OneNameReadded(name: string, former: Fingerprint, newer: Fingerprint, names: set<string>)
    requires name in names
    ensures Rewritten(map[name := Key(newer)], {} + names, name, former) == map[name := Key(former)]
  {
    hide IsDigest;
  }

  /** One administrative request. */
  datatype Request =
    | AddKey(fp: Fingerprint)
    | ReplaceKey(previous: Fingerprint, replacement: Fingerprint, renameFails: bool)
    | EnableKey(fp: Fingerprint, enabled: bool)
    | RemoveKey(fp: Fingerprint)

  function Next(dir: Directory, q: Request, limit: nat): Directory {
    match q
    case AddKey(fp) => AfterAdd(dir, fp, limit)
    case ReplaceKey(previous, replacement, renameFails) => AfterReplace(dir, previous, replacement, renameFails)
    case EnableKey(fp, enabled) => AfterSetEnabled(dir, fp, enabled)
    case RemoveKey(fp) => AfterRemove(dir, fp)
  }

  /** The same request on the map the directory stands for. */
  function NextView(view: map<Fingerprint, bool>, q: Request, limit: nat): map<Fingerprint, bool> {
    match q
    case AddKey(fp) => if fp !in view && |view| >= limit then view else view[fp := true]
    case ReplaceKey(previous, replacement, _) =>
      if previous !in view then view
      else (view - {previous, replacement})[
        replacement := view[previous] || (replacement in view && view[replacement])]
    case EnableKey(fp, enabled) => if fp !in view then view else view[fp := enabled]
    case RemoveKey(fp) => view - {fp}
  }

  ghost predicate Sound(dir: Directory) {
    Named(dir) && Readable(dir)
  }

  lemma ViewLookups(dir: Directory, fp: Fingerprint)
    ensures fp in View(dir) <==> Held(dir, fp)
    ensures Enabled(dir, fp) <==> fp in View(dir) && View(dir)[fp]
    ensures |View(dir)| == |HeldKeys(dir)|
  {
    EnabledIsHeld(dir, fp);
    assert View(dir).Keys == HeldKeys(dir);
    hide Held;
    hide Enabled;
  }

  lemma NextReadable(dir: Directory, q: Request, limit: nat)
    requires Readable(dir)
    ensures Readable(Next(dir, q, limit))
  {
    hide Held;
    hide Enabled;
    hide MatchSet;
    hide Matches;
    hide CanonicalNames;
    hide ReplaceCanonical;
    hide ReplaceWritten;
    hide TargetTaken;
    hide HeldKeys;
    hide PathFor;
    hide EnabledPath;
  }

  lemma NextNamed(dir: Directory, q: Request, limit: nat)
    requires Named(dir) && !(q.ReplaceKey? && q.renameFails)
    ensures Named(Next(dir, q, limit))
  {
    hide Held;
    hide MatchSet;
    hide Matches;
    hide ReplaceCanonical;
    hide TargetTaken;
    hide HeldKeys;
    hide Rewritten;
    hide Readable;
    hide Enabled;
    match q
    case AddKey(fp) =>
      CanonicalNamesOnly(fp, true);
      RewriteKeepsNaming(dir, MatchSet(dir, fp) + CanonicalNames(fp), PathFor(fp, true), fp);
      hide Named;
      hide EnabledPath;
    case EnableKey(fp, enabled) =>
      CanonicalNamesOnly(fp, enabled);
      RewriteKeepsNaming(dir, MatchSet(dir, fp) + CanonicalNames(fp), PathFor(fp, enabled), fp);
      hide Named;
      hide PathFor;
    case RemoveKey(fp) =>
      DropKeepsNaming(dir, MatchSet(dir, fp) + CanonicalNames(fp));
      hide Named;
    case ReplaceKey(previous, replacement, _) =>
      CanonicalNamesOnly(replacement, Enabled(dir, previous) || Enabled(dir, replacement));
      RewriteKeepsNaming(
        dir, MatchSet(dir, previous) + MatchSet(dir, replacement) + ReplaceCanonical(dir, previous, replacement),
        ReplaceTarget(dir, previous, replacement), replacement);
      hide Named;
      hide PathFor;
  }

  /** One request on a soundly named directory is the request on its map, failed final rename or not. */
  lemma NextRefines(dir: Directory, q: Request, limit: nat)
    requires Sound(dir)
    ensures View(Next(dir, q, limit)) == NextView(View(dir), q, limit)
  {
    hide View;
    hide Held;
    hide Enabled;
    hide HeldKeys;
    hide Spare;
    hide CanonicalNames;
    hide ReplaceCanonical;
    hide TargetTaken;
    hide Rewritten;
    hide MatchSet;
    hide Readable;
    hide Named;
    match q
    case AddKey(fp) =>
      ViewLookups(dir, fp);
      OwnNamesSpare(dir, fp);
      if Held(dir, fp) || |HeldKeys(dir)| < limit {
        AddView(dir, fp, limit);
      }
      hide AfterAdd;
    case EnableKey(fp, enabled) =>
      ViewLookups(dir, fp);
      OwnNamesSpare(dir, fp);
      if Held(dir, fp) {
        SetEnabledView(dir, fp, enabled);
      }
    case RemoveKey(fp) =>
      ViewLookups(dir, fp);
      OwnNamesSpare(dir, fp);
      if Held(dir, fp) {
        RemoveView(dir, fp);
      }
    case ReplaceKey(previous, replacement, renameFails) =>
      ViewLookups(dir, previous);
      ViewLookups(dir, replacement);
      ReplaceNamesSpare(dir, previous, replacement);
      if Held(dir, previous) {
        ReplaceView(dir, previous, replacement, renameFails);
      }
  }

  function Run(dir: Directory, requests: seq<Request>, limit: nat): Directory {
    if requests == [] then dir
    else Next(Run(dir, requests[..|requests| - 1], limit), requests[|requests| - 1], limit)
  }

  function RunView(view: map<Fingerprint, bool>, requests: seq<Request>, limit: nat): map<Fingerprint, bool> {
    if requests == [] then view
    else NextView(RunView(view, requests[..|requests| - 1], limit), requests[|requests| - 1], limit)
  }

  ghost predicate NoFailedRename(requests: seq<Request>) {
    forall i :: 0 <= i < |requests| && requests[i].ReplaceKey? ==> !requests[i].renameFails
  }

  /** The directory behaves like a map of fingerprints over every run without a failed final rename. */
  lemma {:induction false} RunRefines(dir: Directory, requests: seq<Request>, limit: nat)
    requires Sound(dir) && NoFailedRename(requests)
    ensures View(Run(dir, requests, limit)) == RunView(View(dir), requests, limit) && Sound(Run(dir, requests, limit))
  {
    hide View;
    hide Named;
    hide Readable;
    hide Next;
    hide NextView;
    if requests != [] {
      var n := |requests| - 1;
      RunRefines(dir, requests[..n], limit);
      var before := Run(dir, requests[..n], limit);
      NextRefines(before, requests[n], limit);
      NextNamed(before, requests[n], limit);
      NextReadable(before, requests[n], limit);
    }
  }

  /** No request, on any directory however named, invents a key: at most one comes in, and only in a free place. */
  lemma KeysComeFrom(dir: Directory, gone: set<string>, written: string, x: Fingerprint)
    requires Counted(written)
    ensures HeldKeys(Rewritten(dir, gone, written, x)) <= HeldKeys(dir) + {x}
    ensures HeldKeys(dir - gone) <= HeldKeys(dir)
  {
    hide IsPem;
    hide IsDisabledName;
    hide IsDigest;
    forall fp: Fingerprint | Held(Rewritten(dir, gone, written, x), fp)
      ensures Held(dir, fp) || fp == x
    {
      var name :| name in Rewritten(dir, gone, written, x) && HoldsAt(Rewritten(dir, gone, written, x), name, fp);
      assert name != written ==> HoldsAt(dir, name, fp);
    }
    forall fp: Fingerprint | Held(dir - gone, fp)
      ensures Held(dir, fp)
    {
      var name :| name in dir - gone && HoldsAt(dir - gone, name, fp);
      assert HoldsAt(dir, name, fp);
    }
  }

  function Larger(a: nat, b: nat): nat {
    if a < b then b else a
  }

  /** A finished request leaves no more keys than the limit, or than there were. */
  lemma NextKeepsLimit(dir: Directory, q: Request, limit: nat)
    ensures |HeldKeys(Next(dir, q, limit))| <= Larger(|HeldKeys(dir)|, limit)
  {
    hide HeldKeys;
    hide Held;
    hide Enabled;
    hide MatchSet;
    hide CanonicalNames;
    hide ReplaceCanonical;
    hide TargetTaken;
    hide Rewritten;
    hide Readable;
    hide IsPem;
    match q
    case AddKey(fp) =>
      KeysComeFrom(dir, MatchSet(dir, fp) + CanonicalNames(fp), EnabledPath(fp), fp);
      SmallerSet(HeldKeys(Next(dir, q, limit)), HeldKeys(dir), fp);
    case EnableKey(fp, enabled) =>
      KeysComeFrom(dir, MatchSet(dir, fp) + CanonicalNames(fp), PathFor(fp, enabled), fp);
      SmallerSet(HeldKeys(Next(dir, q, limit)), HeldKeys(dir), fp);
    case RemoveKey(fp) =>
      KeysComeFrom(dir, MatchSet(dir, fp) + CanonicalNames(fp), EnabledPath(fp), fp);
      SmallerSet(HeldKeys(Next(dir, q, limit)), HeldKeys(dir), fp);
    case ReplaceKey(previous, replacement, renameFails) =>
      ReplaceKeepsCount(dir, previous, replacement, renameFails);
  }

  lemma SmallerSet(a: set<Fingerprint>, b: set<Fingerprint>, x: Fingerprint)
    requires a <= b + {x}
    ensures |a| <= |b| + 1 && (x in b ==> |a| <= |b|) && (a <= b ==> |a| <= |b|)
  {
    hide IsDigest;
    assert b + {x} == a + ((b + {x}) - a);
    assert x in b ==> b + {x} == b;
    if a <= b {
      assert b == a + (b - a);
    }
  }

  lemma ReplaceKeepsCount(dir: Directory, previous: Fingerprint, replacement: Fingerprint, renameFails: bool)
    ensures |HeldKeys(AfterReplace(dir, previous, replacement, renameFails))| <= |HeldKeys(dir)|
  {
    var after := AfterReplace(dir, previous, replacement, renameFails);
    if Held(dir, previous) && !TargetTaken(dir, previous, replacement) {
      ReplaceWritesWhere(dir, previous, replacement, renameFails);
      OwnFiles(dir, previous);
      OwnFiles(dir, replacement);
      hide HeldKeys;
      hide Held;
      hide Enabled;
      hide MatchSet;
      hide HoldsAt;
      hide ReplaceCanonical;
      hide ReplaceWritten;
      hide TargetTaken;
      hide IsPem;
      hide IsDigest;
      var gone := MatchSet(dir, previous) + MatchSet(dir, replacement) + ReplaceCanonical(dir, previous, replacement);
      var written := ReplaceWritten(dir, previous, replacement, renameFails);
      KeysComeFrom(dir, gone, written, replacement);
      RewrittenOwn(dir, gone, written, replacement, {previous, replacement});
      hide Rewritten;
      var others := HeldKeys(dir) - {previous};
      assert HeldKeys(after) <= others + {replacement};
      SmallerSet(HeldKeys(after), others, replacement);
      assert HeldKeys(dir) == others + {previous};
    }
  }

  /** Over every run, failed renames and odd names included, the unique keys stay within the limit. */
  lemma {:induction false} RunKeepsLimit(dir: Directory, requests: seq<Request>, limit: nat)
    requires |HeldKeys(dir)| <= limit
    ensures |HeldKeys(Run(dir, requests, limit))| <= limit
  {
    hide HeldKeys;
    hide Next;
    if requests != [] {
      RunKeepsLimit(dir, requests[..|requests| - 1], limit);
      NextKeepsLimit(Run(dir, requests[..|requests| - 1], limit), requests[|requests| - 1], limit);
    }
  }

  /** _load_trusted_public_keys: what the verifier loads is exactly what the view shows as enabled. */
  method LoadTrustedKeys(dir: Directory, limit: nat) returns (keys: seq<Fingerprint>, ok: bool)
    ensures ok <==>
            0 < |ActiveFiles(dir)| <= limit && forall name :: name in ActiveFiles(dir) ==> dir[name].Key?
    ensures ok ==> forall fp: Fingerprint :: fp in keys <==> fp in View(dir) && View(dir)[fp]
  {
    hide IsPem;
    hide IsDigest;
    hide IsDisabledName;
    var files := Sorted(ActiveFiles(dir));
    keys := [];
    if files == [] || |files| > limit {
      return [], false;
    }
    for k := 0 to |files|
      invariant forall i :: 0 <= i < k ==> files[i] in dir && IsPem(files[i]) && dir[files[i]].Key?
      invariant forall fp: Fingerprint :: fp in keys <==> exists i :: 0 <= i < k && dir[files[i]] == Key(fp)
    {
      assert files[k] in ActiveFiles(dir);
      if dir[files[k]].Unreadable? {
        return [], false;
      }
      keys := keys + [dir[files[k]].fingerprint];
    }
    hide Sorted;
    forall fp: Fingerprint
      ensures fp in keys <==> fp in View(dir) && View(dir)[fp]
    {
      ViewLookups(dir, fp);
      hide View;
      if fp in keys {
        var i :| 0 <= i < |files| && dir[files[i]] == Key(fp);
        assert HoldsAt(dir, files[i], fp);
      }
      if Enabled(dir, fp) {
        var name :| name in dir && HoldsAt(dir, name, fp) && IsPem(name);
        assert name in ActiveFiles(dir);
        var i :| 0 <= i < |files| && files[i] == name;
      }
    }
    return keys, true;
  }

  datatype Lookup = Found(name: string) | Missing | KeyDisabled

  /** trusted_public_key: the first matching file of the right kind. */
  method TrustedPublicKey(dir: Directory, fp: Fingerprint, requireEnabled: bool) returns (r: Lookup)
    ensures r.Found? <==> fp in View(dir) && (requireEnabled ==> View(dir)[fp])
    ensures r.Found? ==> r.name in dir && dir[r.name] == Key(fp) && (requireEnabled ==> IsPem(r.name))
    ensures r.Missing? <==> fp !in View(dir)
  {
    ViewLookups(dir, fp);
    hide View;
    hide Held;
    hide IsPem;
    hide IsDigest;
    var matches := Matches(dir, fp);
    hide Matches;
    if matches == [] {
      return Missing;
    }
    for k := 0 to |matches|
      invariant requireEnabled ==> forall i :: 0 <= i < k ==> !IsPem(matches[i])
      invariant !requireEnabled ==> k == 0
    {
      assert matches[k] in matches;
      assert matches[k] in MatchSet(dir, fp);
      if !requireEnabled || IsPem(matches[k]) {
        WrittenIsHeld(dir, matches[k], fp);
        return Found(matches[k]);
      }
    }
    return KeyDisabled;
  }
}
