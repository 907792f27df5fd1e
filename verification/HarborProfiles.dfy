/** Harbor profiles and the operations pinned to them. */
module HarborProfiles {
  import opened BundleManifest
  import opened OperationStates

  datatype Profile = Profile(id: string, name: string, url: string, enabled: bool)

  /** The snapshot columns of an operation, written together. */
  datatype Binding = Binding(id: string, name: string, url: string)

  datatype Operation = Operation(kind: OperationType, status: OperationStatus, binding: Option<Binding>)

  /** Stored profiles, the default profile's URL, the active selector and every operation row. */
  datatype Store = Store(
    profiles: map<string, Profile>, defaultUrl: Option<string>, active: string, operations: map<nat, Operation>)

  const DEFAULT_ID := "default"
  const DEFAULT_NAME := "Default Harbor"

  /** get */
  function Get(s: Store, id: string): Option<Profile> {
    if id == DEFAULT_ID then
      Some(Profile(DEFAULT_ID, DEFAULT_NAME, if s.defaultUrl.Some? then s.defaultUrl.value else "", s.defaultUrl.Some?))
    else if id in s.profiles then Some(s.profiles[id])
    else None
  }

  /** operation_snapshot: the chosen or the active profile, if an operation may use it. */
  function SnapshotOf(s: Store, choice: Option<string>): Option<Profile> {
    var p := Get(s, if choice.Some? then choice.value else s.active);
    if p.Some? && p.value.url != "" && p.value.enabled then p else None
  }

  function BindingTo(p: Profile): Binding {
    Binding(p.id, p.name, p.url)
  }

  /** assert_operation_binding raises nothing. */
  predicate BindingHolds(s: Store, op: Operation) {
    match op.binding
    case None => SnapshotOf(s, None).Some?
    case Some(b) => SnapshotOf(s, Some(b.id)).Some? && BindingTo(SnapshotOf(s, Some(b.id)).value) == b
  }

  predicate Open(op: Operation) {
    op.status !in TERMINAL_STATES
  }

  /** require_mutation_safe raises: an open operation is pinned here, or follows the active profile this is. */
  predicate Busy(s: Store, id: string) {
    exists o :: o in s.operations && Open(s.operations[o]) &&
      (|| (s.operations[o].binding.Some? && s.operations[o].binding.value.id == id)
       || (id == s.active && s.operations[o].binding.None?))
  }

  predicate LegacyOpen(s: Store) {
    exists o :: o in s.operations && Open(s.operations[o]) && s.operations[o].binding.None?
  }

  predicate Referenced(s: Store, id: string) {
    exists o :: o in s.operations && s.operations[o].binding.Some? && s.operations[o].binding.value.id == id
  }

  /** Names are compared caseless; the default profile's name is taken. */
  predicate NameTaken(s: Store, fold: string -> string, name: string, except: Option<string>) {
    || fold(name) == fold(DEFAULT_NAME)
    || exists id :: id in s.profiles && Some(id) != except && fold(s.profiles[id].name) == fold(name)
  }

  datatype Request =
    | Create(id: string, name: string, url: string, enabled: bool)
    | Update(id: string, newName: Option<string>, newUrl: Option<string>, newEnabled: Option<bool>)
    | Delete(id: string)
    | Activate(id: string)
    | SetDefaultUrl(defaultUrl: Option<string>)
    | StartOperation(op: nat, kind: OperationType, initial: OperationStatus, choice: Option<string>)
    | BindOperation(op: nat, choice: Option<string>)
    | Transition(op: nat, target: OperationStatus)
    | CreateRetry(op: nat, original: nat)

  function OrElse<T>(value: Option<T>, fallback: T): T {
    if value.Some? then value.value else fallback
  }

  function Changed(p: Profile, q: Request): Profile
    requires q.Update?
  {
    Profile(p.id, OrElse(q.newName, p.name), OrElse(q.newUrl, p.url), OrElse(q.newEnabled, p.enabled))
  }

  predicate UpdateRefused(s: Store, fold: string -> string, q: Request)
    requires q.Update?
  {
    || q.id == DEFAULT_ID || q.id !in s.profiles || Busy(s, q.id)
    || NameTaken(s, fold, OrElse(q.newName, s.profiles[q.id].name), Some(q.id))
    || OrElse(q.newUrl, s.profiles[q.id].url) == ""
    || (q.id == s.active && !OrElse(q.newEnabled, s.profiles[q.id].enabled))
  }

  predicate ActivateRefused(s: Store, id: string) {
    || Get(s, id).None? || !Get(s, id).value.enabled
    || (id != s.active && LegacyOpen(s))
  }

  /** What bind_operation_profile writes; None when it raises. */
  function Rebound(s: Store, op: Operation, choice: Option<string>): Option<Operation> {
    if op.binding.Some? && choice.None? then if BindingHolds(s, op) then Some(op) else None
    else
      var selected := SnapshotOf(s, choice);
      if selected.None? then None
      else if op.binding.None? then Some(op.(binding := Some(BindingTo(selected.value))))
      else if op.binding.value.id != selected.value.id then None
      else if BindingHolds(s, op) then Some(op) else None
  }

  predicate Retryable(s: Store, original: nat) {
    original in s.operations && s.operations[original].kind.Import? && s.operations[original].status.Failed?
  }

  /** One request; a refused one changes nothing. Fresh ids stand for uuid4 and the row counter. */
  function Step(s: Store, fold: string -> string, q: Request): Store {
    match q
    case Create(id, name, url, enabled) =>
      if id == DEFAULT_ID || id in s.profiles || url == "" || NameTaken(s, fold, name, None) then s
      else s.(profiles := s.profiles[id := Profile(id, name, url, enabled)])
    case Update(id, _, _, _) =>
      if UpdateRefused(s, fold, q) then s else s.(profiles := s.profiles[id := Changed(s.profiles[id], q)])
    case Delete(id) =>
      if id == DEFAULT_ID || id !in s.profiles || id == s.active || Referenced(s, id) then s
      else s.(profiles := s.profiles - {id})
    case Activate(id) => if ActivateRefused(s, id) then s else s.(active := id)
    case SetDefaultUrl(url) => if Busy(s, DEFAULT_ID) then s else s.(defaultUrl := url)
    case StartOperation(op, kind, initial, choice) =>
      if op in s.operations || SnapshotOf(s, choice).None? then s
      else s.(operations := s.operations[op := Operation(kind, initial, Some(BindingTo(SnapshotOf(s, choice).value)))])
    case BindOperation(op, choice) =>
      if op !in s.operations || Rebound(s, s.operations[op], choice).None? then s
      else s.(operations := s.operations[op := Rebound(s, s.operations[op], choice).value])
    case Transition(op, target) =>
      if op !in s.operations || !Allowed(s.operations[op].kind, s.operations[op].status, target) then s
      else s.(operations := s.operations[op := s.operations[op].(status := target)])
    case CreateRetry(op, original) =>
      if op in s.operations || !Retryable(s, original) then s
      else s.(operations := s.operations[op := Operation(Import, Ready, s.operations[original].binding)])
  }

  ghost predicate ProfilesSound(s: Store) {
    DEFAULT_ID !in s.profiles && forall id :: id in s.profiles ==> s.profiles[id].id == id && s.profiles[id].url != ""
  }

  /** The active selector names the default profile or an existing enabled one. */
  ghost predicate ActiveSound(s: Store) {
    s.active == DEFAULT_ID || (s.active in s.profiles && s.profiles[s.active].enabled)
  }

  /** No operation, open or closed, refers to a profile that is gone. */
  ghost predicate ReferencesSound(s: Store) {
    forall o :: o in s.operations && s.operations[o].binding.Some? ==>
      s.operations[o].binding.value.id == DEFAULT_ID || s.operations[o].binding.value.id in s.profiles
  }

  /** Every open pinned operation would pass its own binding check. */
  ghost predicate BindingsHold(s: Store) {
    forall o :: o in s.operations && s.operations[o].binding.Some? && Open(s.operations[o]) ==>
      BindingHolds(s, s.operations[o])
  }

  ghost predicate Valid(s: Store) {
    ProfilesSound(s) && ActiveSound(s) && ReferencesSound(s) && BindingsHold(s)
  }

  /** Names stay pairwise different, caseless, and different from the default profile's. */
  ghost predicate NamesDistinct(s: Store, fold: string -> string) {
    && (forall id :: id in s.profiles ==> fold(s.profiles[id].name) != fold(DEFAULT_NAME))
    && forall i, j :: i in s.profiles && j in s.profiles && i != j ==>
       fold(s.profiles[i].name) != fold(s.profiles[j].name)
  }

  /**
    A retry copies the original's snapshot. The original's binding is checked first, but not in the critical
    section that creates the retry: by then the profile may read differently.
   */
  predicate Stale(s: Store, q: Request) {
    && q.CreateRetry? && q.op !in s.operations && Retryable(s, q.original)
    && s.operations[q.original].binding.Some? && !BindingHolds(s, s.operations[q.original])
  }

  ghost predicate NotPinned(s: Store, id: string) {
    forall o :: o in s.operations && s.operations[o].binding.Some? && Open(s.operations[o]) ==>
      s.operations[o].binding.value.id != id
  }

  lemma IdleIsNotPinned(s: Store, id: string)
    ensures !Busy(s, id) ==> NotPinned(s, id)
    ensures ReferencesSound(s) && id != DEFAULT_ID && id !in s.profiles ==> NotPinned(s, id)
    ensures !Referenced(s, id) ==> NotPinned(s, id)
  {
  }

  /** Changing one profile leaves every operation pinned elsewhere with an unchanged view. */
  lemma ProfileStep(s: Store, t: Store, changed: string)
    requires BindingsHold(s) && t.operations == s.operations && NotPinned(s, changed)
    requires forall id :: id != changed ==> Get(t, id) == Get(s, id)
    ensures BindingsHold(t)
  {
    hide Get;
    hide Open;
  }

  lemma SameProfilesSameBinding(s: Store, t: Store, op: Operation)
    requires t.profiles == s.profiles && t.defaultUrl == s.defaultUrl && op.binding.Some?
    ensures BindingHolds(t, op) == BindingHolds(s, op)
  {
  }

  lemma OperationStep(s: Store, o: nat, op: Operation)
    requires BindingsHold(s) && (op.binding.Some? && Open(op) ==> BindingHolds(s, op))
    ensures BindingsHold(s.(operations := s.operations[o := op]))
  {
    var t := s.(operations := s.operations[o := op]);
    hide BindingHolds;
    hide Open;
    forall x | x in t.operations && t.operations[x].binding.Some? && Open(t.operations[x])
      ensures BindingHolds(t, t.operations[x])
    {
      SameProfilesSameBinding(s, t, t.operations[x]);
    }
  }

  lemma SnapshotIsKnown(s: Store, choice: Option<string>)
    requires ProfilesSound(s) && SnapshotOf(s, choice).Some?
    ensures var p := SnapshotOf(s, choice).value;
            && (p.id == DEFAULT_ID || p.id in s.profiles)
            && SnapshotOf(s, Some(p.id)) == Some(p)
  {
  }

  lemma ReboundKeeps(s: Store, op: Operation, choice: Option<string>)
    requires ProfilesSound(s) && Rebound(s, op, choice).Some?
    ensures var r := Rebound(s, op, choice).value;
            && r.status == op.status && r.binding.Some? && BindingHolds(s, r)
            && (op.binding.Some? ==> r == op)
            && (op.binding.None? ==> r.binding.value.id == DEFAULT_ID || r.binding.value.id in s.profiles)
  {
    if op.binding.None? {
      SnapshotIsKnown(s, choice);
    }
  }

  lemma OperationWritten(s: Store, o: nat, op: Operation)
    requires Valid(s) && (op.binding.Some? && Open(op) ==> BindingHolds(s, op))
    requires op.binding.Some? ==> op.binding.value.id == DEFAULT_ID || op.binding.value.id in s.profiles
    ensures Valid(s.(operations := s.operations[o := op]))
  {
    OperationStep(s, o, op);
    hide BindingsHold;
    hide BindingHolds;
    hide Open;
  }

  lemma OperationRequest(s: Store, fold: string -> string, q: Request)
    requires Valid(s) && !Stale(s, q)
    requires q.StartOperation? || q.BindOperation? || q.Transition? || q.CreateRetry?
    ensures Valid(Step(s, fold, q))
  {
    var t := Step(s, fold, q);
    if t != s {
      var op := t.operations[q.op];
      assert t == s.(operations := s.operations[q.op := op]);
      hide NameTaken;
      match q
      case StartOperation(_, _, _, choice) =>
        SnapshotIsKnown(s, choice);
        hide SnapshotOf;
        hide Open;
        hide BindingsHold;
        OperationWritten(s, q.op, op);
      case BindOperation(o, choice) =>
        ReboundKeeps(s, s.operations[o], choice);
        hide Rebound;
        hide BindingHolds;
        hide BindingsHold;
        OperationWritten(s, q.op, op);
      case Transition(o, _) =>
        TransitionKeepsBinding(s, o, op);
        hide BindingHolds;
        hide BindingsHold;
        hide Allowed;
        OperationWritten(s, q.op, op);
      case CreateRetry(_, _) =>
        assert op.binding == s.operations[q.original].binding;
        SameBinding(s, s.operations[q.original], op);
        hide BindingHolds;
        hide BindingsHold;
        OperationWritten(s, q.op, op);
    }
  }

  lemma SameBinding(s: Store, a: Operation, b: Operation)
    requires a.binding == b.binding
    ensures BindingHolds(s, a) == BindingHolds(s, b)
  {
  }

  lemma TransitionKeepsBinding(s: Store, o: nat, op: Operation)
    requires BindingsHold(s) && o in s.operations && op.binding == s.operations[o].binding
    requires Open(s.operations[o])
    ensures op.binding.Some? ==> BindingHolds(s, op)
  {
    SameBinding(s, s.operations[o], op);
    hide BindingHolds;
    hide Open;
  }

  lemma ProfileRequest(s: Store, fold: string -> string, q: Request)
    requires Valid(s)
    requires q.Create? || q.Update? || q.Delete? || q.SetDefaultUrl?
    ensures Valid(Step(s, fold, q))
  {
    var t := Step(s, fold, q);
    hide NameTaken;
    if t != s {
      var changed := if q.SetDefaultUrl? then DEFAULT_ID else q.id;
      IdleIsNotPinned(s, changed);
      assert forall id :: id != changed ==> Get(t, id) == Get(s, id);
      assert NotPinned(s, changed);
      ProfileStep(s, t, changed);
      hide BindingsHold;
      hide Busy;
    }
  }

  lemma ActivateRequest(s: Store, fold: string -> string, id: string)
    requires Valid(s)
    ensures Valid(Step(s, fold, Activate(id)))
  {
    var t := Step(s, fold, Activate(id));
    hide Open;
    forall o | o in t.operations && t.operations[o].binding.Some? && Open(t.operations[o])
      ensures BindingHolds(t, t.operations[o])
    {
      SameProfilesSameBinding(s, t, t.operations[o]);
    }
    hide BindingHolds;
  }

  /** Every request keeps the store valid, except a retry created from a snapshot gone stale. */
  lemma StepKeepsValid(s: Store, fold: string -> string, q: Request)
    requires Valid(s) && !Stale(s, q)
    ensures Valid(Step(s, fold, q))
  {
    hide Step;
    hide Valid;
    match q
    case Create(_, _, _, _) => ProfileRequest(s, fold, q);
    case Update(_, _, _, _) => ProfileRequest(s, fold, q);
    case Delete(_) => ProfileRequest(s, fold, q);
    case SetDefaultUrl(_) => ProfileRequest(s, fold, q);
    case Activate(id) => ActivateRequest(s, fold, id);
    case StartOperation(_, _, _, _) => OperationRequest(s, fold, q);
    case BindOperation(_, _) => OperationRequest(s, fold, q);
    case Transition(_, _) => OperationRequest(s, fold, q);
    case CreateRetry(_, _) => OperationRequest(s, fold, q);
  }

  /** A request keeps every open operation's binding good if and only if it is not a stale retry. */
  lemma ValidIffNotStale(s: Store, fold: string -> string, q: Request)
    requires Valid(s)
    ensures Valid(Step(s, fold, q)) <==> !Stale(s, q)
  {
    if Stale(s, q) {
      var t := Step(s, fold, q);
      SameProfilesSameBinding(s, t, t.operations[q.op]);
      SameProfilesSameBinding(s, s, s.operations[q.original]);
      assert !BindingHolds(t, t.operations[q.op]);
      assert q.op in t.operations;
    } else {
      hide Step;
      StepKeepsValid(s, fold, q);
    }
  }

  /** A pinned operation keeps its pin, and its row, through every request; only its status moves on. */
  lemma PinIsForGood(s: Store, fold: string -> string, q: Request, o: nat)
    requires ProfilesSound(s) && o in s.operations
    ensures o in Step(s, fold, q).operations
    ensures s.operations[o].binding.Some? ==> Step(s, fold, q).operations[o].binding == s.operations[o].binding
    ensures !Open(s.operations[o]) ==> Step(s, fold, q).operations[o].status == s.operations[o].status
  {
    hide NameTaken;
    hide UpdateRefused;
    hide ActivateRefused;
    hide Busy;
    hide Referenced;
    if q.BindOperation? && q.op == o && Rebound(s, s.operations[o], q.choice).Some? {
      ReboundKeeps(s, s.operations[o], q.choice);
    }
    hide Rebound;
  }

  /** Names stay pairwise different through every request. */
  lemma NamesStayDistinct(s: Store, fold: string -> string, q: Request)
    requires NamesDistinct(s, fold)
    ensures NamesDistinct(Step(s, fold, q), fold)
  {
    hide Busy;
    hide Referenced;
    hide Rebound;
    hide SnapshotOf;
    hide ActivateRefused;
  }

  function Run(s: Store, fold: string -> string, requests: seq<Request>): Store {
    if requests == [] then s
    else Step(Run(s, fold, requests[..|requests| - 1]), fold, requests[|requests| - 1])
  }

  /** No retry along the run was created from a stale snapshot. */
  ghost predicate NeverStale(s: Store, fold: string -> string, requests: seq<Request>) {
    forall k :: 0 <= k < |requests| ==> !Stale(Run(s, fold, requests[..k]), requests[k])
  }

  /**
    Over all runs of create, update, delete, activate, bind, start, transition and retry: an open pinned
    operation always passes its binding check, its profile always exists, its pin never changes, and the
    active profile is the default or an existing enabled one.
   */
  lemma {:induction false} RunIsSafe(s: Store, fold: string -> string, requests: seq<Request>)
    requires Valid(s) && NeverStale(s, fold, requests)
    ensures Valid(Run(s, fold, requests))
    ensures forall o :: o in s.operations && s.operations[o].binding.Some? ==>
              o in Run(s, fold, requests).operations &&
              Run(s, fold, requests).operations[o].binding == s.operations[o].binding
  {
    hide Step;
    hide Stale;
    if requests != [] {
      var n := |requests| - 1;
      assert forall k :: 0 <= k < n ==> requests[..n][..k] == requests[..k];
      RunIsSafe(s, fold, requests[..n]);
      var before := Run(s, fold, requests[..n]);
      assert !Stale(before, requests[n]);
      StepKeepsValid(before, fold, requests[n]);
      forall o | o in s.operations && s.operations[o].binding.Some?
        ensures o in Run(s, fold, requests).operations
        ensures Run(s, fold, requests).operations[o].binding == s.operations[o].binding
      {
        PinIsForGood(before, fold, requests[n], o);
      }
    }
    hide ProfilesSound;
    hide ActiveSound;
    hide ReferencesSound;
    hide BindingsHold;
  }

  /** The race: fail an import, rename its profile, then create the retry checked before the rename. */
  lemma StaleRetryReachable(id: string, before: string, after: string)
    requires id != DEFAULT_ID && before != after && before != DEFAULT_NAME && after != DEFAULT_NAME
    ensures var p := Profile(id, before, "https://registry", true);
            var original := Operation(Import, Failed, Some(BindingTo(p)));
            var s := Store(map[id := p], None, DEFAULT_ID, map[1 := original]);
            var renamed := Step(s, x => x, Update(id, Some(after), None, None));
            && Valid(s) && BindingHolds(s, original)
            && Stale(renamed, CreateRetry(2, 1))
            && !Valid(Step(renamed, x => x, CreateRetry(2, 1)))
  {
    var p := Profile(id, before, "https://registry", true);
    var original := Operation(Import, Failed, Some(BindingTo(p)));
    var s := Store(map[id := p], None, DEFAULT_ID, map[1 := original]);
    var q := Update(id, Some(after), None, None);
    assert !Open(original);
    assert !Busy(s, id);
    assert !UpdateRefused(s, x => x, q);
    var renamed := Step(s, x => x, q);
    assert renamed.profiles[id] == Profile(id, after, "https://registry", true);
    assert Valid(s);
    StepKeepsValid(s, x => x, q);
    assert !BindingHolds(renamed, original);
    hide Valid;
    ValidIffNotStale(renamed, x => x, CreateRetry(2, 1));
  }

  /** The profile an operation may use under this id reads so. */
  ghost predicate Reads(s: Store, b: Binding) {
    && b.url != ""
    && (if b.id == "default" then b.name == "Default Harbor" && s.defaultUrl == Some(b.url)
        else b.id in s.profiles && s.profiles[b.id].enabled && s.profiles[b.id].name == b.name &&
             s.profiles[b.id].url == b.url)
  }

  /** An open operation uses this profile: pinned to it, or unpinned while it is the active one. */
  ghost predicate Uses(s: Store, o: nat, id: string)
    requires o in s.operations
  {
    var op := s.operations[o];
    && op.status !in TERMINAL_STATES
    && if op.binding.Some? then op.binding.value.id == id else id == s.active
  }

  /** Only this profile may have changed. */
  ghost predicate OthersKept(s: Store, t: Store, id: string) {
    && t.defaultUrl == s.defaultUrl && t.active == s.active && t.operations == s.operations
    && forall other :: other != id ==>
         (other in t.profiles <==> other in s.profiles) &&
         (other in s.profiles ==> t.profiles[other] == s.profiles[other])
  }

  /** A name no other profile bears, caseless, the default one included. */
  ghost predicate NameFree(s: Store, fold: string -> string, name: string, id: string) {
    && fold(name) != fold("Default Harbor")
    && forall other :: other in s.profiles && other != id ==> fold(s.profiles[other].name) != fold(name)
  }

  /** An update that was done: every given field new, every missing one as before, and nothing in its way. */
  ghost predicate UpdatedByRule(
    s: Store, t: Store, fold: string -> string, id: string, name: Option<string>, url: Option<string>,
    enabled: Option<bool>)
  {
    && id != "default" && id in s.profiles && id in t.profiles && OthersKept(s, t, id)
    && t.profiles[id].id == s.profiles[id].id
    && t.profiles[id].name == (if name.Some? then name.value else s.profiles[id].name)
    && t.profiles[id].url == (if url.Some? then url.value else s.profiles[id].url)
    && t.profiles[id].enabled == (if enabled.Some? then enabled.value else s.profiles[id].enabled)
    && (forall o :: o in s.operations ==> !Uses(s, o, id))
    && NameFree(s, fold, t.profiles[id].name, id) && t.profiles[id].url != ""
    && (id == s.active ==> t.profiles[id].enabled)
  }

  /** What a bind does to a sound store: it pins what was not pinned, and confirms a pin that still reads the same. */
  ghost predicate BoundByRule(s: Store, t: Store, op: nat, choice: Option<string>, done: bool)
    requires op in s.operations
  {
    var was := s.operations[op];
    if was.binding.Some? then
      t == s && (done <==> Reads(s, was.binding.value) && (choice.Some? ==> choice == Some(was.binding.value.id)))
    else
      var id := if choice.Some? then choice.value else s.active;
      && (!done ==> t == s && forall name, url :: !Reads(s, Binding(id, name, url)))
      && (done ==>
            && op in t.operations && t.operations[op].binding.Some? && t.operations[op].binding.value.id == id
            && Reads(s, t.operations[op].binding.value)
            && t == s.(operations := s.operations[op := was.(binding := t.operations[op].binding)]))
  }

  lemma GuardsMean(s: Store, fold: string -> string, id: string)
    ensures Busy(s, id) <==> exists o :: o in s.operations && Uses(s, o, id)
    ensures forall name :: NameTaken(s, fold, name, Some(id)) <==> !NameFree(s, fold, name, id)
  {
    if Busy(s, id) {
      var o :| o in s.operations && Open(s.operations[o]) &&
        (|| (s.operations[o].binding.Some? && s.operations[o].binding.value.id == id)
         || (id == s.active && s.operations[o].binding.None?));
      assert Uses(s, o, id);
    }
  }

  lemma UpdateFollowsRule(s: Store, fold: string -> string, q: Request)
    requires q.Update? && !UpdateRefused(s, fold, q)
    ensures UpdatedByRule(s, Step(s, fold, q), fold, q.id, q.newName, q.newUrl, q.newEnabled)
  {
    GuardsMean(s, fold, q.id);
    hide Busy;
    hide NameTaken;
    hide Uses;
    hide NameFree;
  }

  lemma SnapshotReads(s: Store, choice: Option<string>)
    requires ProfilesSound(s)
    ensures var id := if choice.Some? then choice.value else s.active;
            && (SnapshotOf(s, choice).Some? ==>
                SnapshotOf(s, choice).value.id == id && Reads(s, BindingTo(SnapshotOf(s, choice).value)))
            && forall name, url :: Reads(s, Binding(id, name, url)) ==>
                 SnapshotOf(s, choice).Some? && BindingTo(SnapshotOf(s, choice).value) == Binding(id, name, url)
  {
  }

  lemma HoldsIsReads(s: Store, op: Operation)
    requires ProfilesSound(s) && op.binding.Some?
    ensures BindingHolds(s, op) <==> Reads(s, op.binding.value)
  {
    SnapshotReads(s, Some(op.binding.value.id));
    var b := op.binding.value;
    assert b == Binding(b.id, b.name, b.url);
  }

  /** Creating adds exactly the given profile, if it has an address and its name is free. */
  lemma CreateMeans(s: Store, fold: string -> string, p: Profile)
    requires p.id != "default" && p.id !in s.profiles
    ensures var t := Step(s, fold, Create(p.id, p.name, p.url, p.enabled));
            && OthersKept(s, t, p.id)
            && (p.id in t.profiles <==> p.url != "" && NameFree(s, fold, p.name, p.id))
            && (p.id in t.profiles ==> t.profiles[p.id] == p)
  {
  }

  /** The default address changes exactly when no open operation uses the default profile, and nothing else does. */
  lemma DefaultUrlMeans(s: Store, fold: string -> string, url: Option<string>)
    ensures var t := Step(s, fold, SetDefaultUrl(url));
            && t == s.(defaultUrl := t.defaultUrl)
            && t.defaultUrl == if forall o :: o in s.operations ==> !Uses(s, o, "default") then url else s.defaultUrl
  {
    GuardsMean(s, fold, "default");
    hide Busy;
    hide Uses;
  }

  /** A retry takes over the pin of a failed import and starts READY; nothing else may be retried. */
  lemma RetryMeans(s: Store, fold: string -> string, op: nat, original: nat)
    requires op !in s.operations
    ensures var t := Step(s, fold, CreateRetry(op, original));
            && (op in t.operations <==>
                && original in s.operations && s.operations[original].kind == Import
                && s.operations[original].status == Failed)
            && (op in t.operations ==>
                t == s.(operations := s.operations[op := Operation(Import, Ready, s.operations[original].binding)]))
            && (op !in t.operations ==> t == s)
  {
  }

  /** Binding follows the rule. */
  lemma BindFollowsRule(s: Store, fold: string -> string, op: nat, choice: Option<string>)
    requires ProfilesSound(s) && op in s.operations
    ensures BoundByRule(
              s, Step(s, fold, BindOperation(op, choice)), op, choice, Rebound(s, s.operations[op], choice).Some?)
  {
    var was := s.operations[op];
    SnapshotReads(s, choice);
    if was.binding.Some? {
      HoldsIsReads(s, was);
      var b := was.binding.value;
      assert b == Binding(b.id, b.name, b.url);
      assert s.operations[op := was] == s.operations;
    }
    hide SnapshotOf;
    hide BindingHolds;
    hide Reads;
  }

  /** Starting an operation pins it to the profile asked for, or the active one, as it reads then. */
  lemma StartPins(s: Store, fold: string -> string, op: nat, kind: OperationType, initial: OperationStatus,
                  choice: Option<string>)
    requires ProfilesSound(s) && op !in s.operations
    ensures var t := Step(s, fold, StartOperation(op, kind, initial, choice));
            var id := if choice.Some? then choice.value else s.active;
            && (op in t.operations <==> exists name, url :: Reads(s, Binding(id, name, url)))
            && (op in t.operations ==>
                && t.operations[op].binding.Some? && t.operations[op].binding.value.id == id
                && Reads(s, t.operations[op].binding.value)
                && t.operations[op].kind == kind && t.operations[op].status == initial)
  {
    SnapshotReads(s, choice);
    if SnapshotOf(s, choice).Some? {
      var p := SnapshotOf(s, choice).value;
      assert Reads(s, Binding(p.id, p.name, p.url));
    }
    hide SnapshotOf;
    hide Reads;
  }

  datatype Outcome = Done | DefaultProtected | NotFound | ActiveProtected | InUse | ProfileBusy | NameConflict
    | ConfigurationInvalid | Disabled | BindingInvalid

  /** The service over its stored state: each call does one request, in the order of its checks. */
  class HarborProfileService {
    var profiles: map<string, Profile>
    var defaultUrl: Option<string>
    var active: string
    var operations: map<nat, Operation>
    const fold: string -> string

    constructor (s: Store, caseless: string -> string)
      ensures Stored() == s && fold == caseless
    {
      profiles, defaultUrl, active, operations, fold := s.profiles, s.defaultUrl, s.active, s.operations, caseless;
    }

    function Stored(): Store
      reads this
    {
      Store(profiles, defaultUrl, active, operations)
    }

    method UpdateProfile(id: string, name: Option<string>, url: Option<string>, enabled: Option<bool>)
      returns (r: Outcome)
      modifies this`profiles
      ensures Stored() == Step(old(Stored()), fold, Update(id, name, url, enabled))
      ensures r.Done? <==> !UpdateRefused(old(Stored()), fold, Update(id, name, url, enabled))
      ensures r.Done? ==> UpdatedByRule(old(Stored()), Stored(), fold, id, name, url, enabled)
      ensures !r.Done? ==> profiles == old(profiles)
      ensures r.DefaultProtected? <==> id == "default"
      ensures r.NotFound? ==> id !in profiles
      ensures r.ProfileBusy? ==> exists o :: o in operations && Uses(Stored(), o, id)
      ensures r.NameConflict? ==>
                id in profiles &&
                !NameFree(Stored(), fold, if name.Some? then name.value else profiles[id].name, id)
      ensures r.ConfigurationInvalid? ==>
                id in profiles && (if url.Some? then url.value else profiles[id].url) == ""
      ensures r.ActiveProtected? ==>
                id == active && id in profiles && !(if enabled.Some? then enabled.value else profiles[id].enabled)
    {
      ghost var q := Update(id, name, url, enabled);
      if !UpdateRefused(Stored(), fold, q) {
        UpdateFollowsRule(Stored(), fold, q);
      }
      hide UpdatedByRule;
      GuardsMean(Stored(), fold, id);
      hide Busy;
      hide NameTaken;
      hide Uses;
      hide NameFree;
      if id == DEFAULT_ID {
        return DefaultProtected;
      }
      if id !in profiles {
        return NotFound;
      }
      var current := profiles[id];
      if Busy(Stored(), id) {
        return ProfileBusy;
      }
      var nextName := OrElse(name, current.name);
      if NameTaken(Stored(), fold, nextName, Some(id)) {
        return NameConflict;
      }
      var nextUrl := OrElse(url, current.url);
      if nextUrl == "" {
        return ConfigurationInvalid;
      }
      var nextEnabled := OrElse(enabled, current.enabled);
      if id == active && !nextEnabled {
        return ActiveProtected;
      }
      profiles := profiles[id := Profile(current.id, nextName, nextUrl, nextEnabled)];
      return Done;
    }

    method DeleteProfile(id: string) returns (r: Outcome)
      modifies this`profiles
      ensures Stored() == Step(old(Stored()), fold, Delete(id))
      ensures r.Done? <==>
              id != DEFAULT_ID && id in old(profiles) && id != active && !Referenced(old(Stored()), id)
      ensures r.Done? ==>
                && id != "default" && id in old(profiles) && id !in profiles && id != active
                && OthersKept(old(Stored()), Stored(), id)
                && forall o :: o in operations && operations[o].binding.Some? ==> operations[o].binding.value.id != id
      ensures !r.Done? ==> profiles == old(profiles)
      ensures r.InUse? ==>
                exists o :: o in operations && operations[o].binding.Some? && operations[o].binding.value.id == id
      ensures r.ActiveProtected? ==> id == active
      ensures r.NotFound? ==> id !in profiles
    {
      if id == DEFAULT_ID {
        return DefaultProtected;
      }
      if id !in profiles {
        return NotFound;
      }
      if id == active {
        return ActiveProtected;
      }
      if Referenced(Stored(), id) {
        return InUse;
      }
      profiles := profiles - {id};
      return Done;
    }

    method ActivateProfile(id: string) returns (r: Outcome)
      modifies this`active
      ensures Stored() == Step(old(Stored()), fold, Activate(id))
      ensures r.Done? <==> !ActivateRefused(old(Stored()), id)
      ensures r.Done? ==>
                && active == id
                && (if id == "default" then defaultUrl.Some? else id in profiles && profiles[id].enabled)
      ensures r.Done? && id != old(active) ==>
                forall o :: o in operations && operations[o].binding.None? ==> operations[o].status in TERMINAL_STATES
      ensures !r.Done? ==> active == old(active)
      ensures r.NotFound? <==> id != "default" && id !in profiles
      ensures r.Disabled? <==>
                if id == "default" then defaultUrl.None? else id in profiles && !profiles[id].enabled
      ensures r.ProfileBusy? ==>
                id != active &&
                exists o :: o in operations && operations[o].binding.None? && operations[o].status !in TERMINAL_STATES
    {
      var target := Get(Stored(), id);
      if target.None? {
        return NotFound;
      }
      if !target.value.enabled {
        return Disabled;
      }
      if id == active {
        return Done;
      }
      if LegacyOpen(Stored()) {
        return ProfileBusy;
      }
      active := id;
      return Done;
    }

    method Bind(op: nat, choice: Option<string>) returns (r: Outcome)
      requires op in operations
      modifies this`operations
      ensures Stored() == Step(old(Stored()), fold, BindOperation(op, choice))
      ensures r.Done? <==> Rebound(old(Stored()), old(operations[op]), choice).Some?
      ensures r.Done? && ProfilesSound(old(Stored())) ==> BindingHolds(Stored(), operations[op])
      ensures r.Disabled? ==> SnapshotOf(old(Stored()), choice).None?
      ensures r.BindingInvalid? ==> operations[op].binding.Some?
      ensures ProfilesSound(old(Stored())) ==> BoundByRule(old(Stored()), Stored(), op, choice, r.Done?)
    {
      hide SnapshotOf;
      hide BoundByRule;
      var operation := operations[op];
      ghost var before := Stored();
      if ProfilesSound(before) {
        BindFollowsRule(before, fold, op, choice);
      }
      if Rebound(before, operation, choice).Some? && ProfilesSound(before) {
        ReboundKeeps(before, operation, choice);
      }
      if operation.binding.Some? && choice.None? {
        assert operations[op := operation] == operations;
        return if BindingHolds(Stored(), operation) then Done else BindingInvalid;
      }
      var selected := SnapshotOf(Stored(), choice);
      if selected.None? {
        return Disabled;
      }
      if operation.binding.None? {
        operations := operations[op := operation.(binding := Some(BindingTo(selected.value)))];
        SameProfilesSameBinding(before, Stored(), operations[op]);
        return Done;
      }
      assert operations[op := operation] == operations;
      if operation.binding.value.id != selected.value.id {
        return BindingInvalid;
      }
      return if BindingHolds(Stored(), operation) then Done else BindingInvalid;
    }
  }
}
