/** The login limiter: how many failures of one subject a sliding window can ever count. */
module LoginThrottle {
  import opened BundleManifest

  /** Times and spans are whole microseconds; all three settings are positive. */
  datatype Settings = Settings(window: int, lockout: int, threshold: nat)

  predicate Valid(c: Settings) {
    c.window >= 1 && c.lockout >= 1 && c.threshold >= 1
  }

  datatype Row = Row(failures: nat, windowStart: int, lockedUntil: Option<int>)

  /** max(1, ceil(seconds)) */
  function RetrySeconds(span: int): int {
    var seconds := (span + 999_999) / 1_000_000;
    if seconds < 1 then 1 else seconds
  }

  datatype Decision = Allowed | Blocked(retryAfter: int)

  predicate LockedAt(row: Option<Row>, now: int) {
    row.Some? && row.value.lockedUntil.Some? && row.value.lockedUntil.value > now
  }

  /** _decision_for */
  function DecisionFor(row: Option<Row>, now: int): Decision {
    if LockedAt(row, now) then Blocked(RetrySeconds(row.value.lockedUntil.value - now)) else Allowed
  }

  /** What one failure does to a subject's row, unless the subject is locked. */
  function Counted(c: Settings, row: Option<Row>, now: int): Row {
    var before := if row.Some? then row.value else Row(0, now, None);
    var expired := now - before.windowStart >= c.window;
    var failures := if expired then 1 else before.failures + 1;
    var start := if expired then now else before.windowStart;
    Row(failures, start, if failures < c.threshold then None else Some(now + c.lockout))
  }

  function AfterFailure(c: Settings, row: Option<Row>, now: int): Option<Row> {
    if LockedAt(row, now) then row else Some(Counted(c, row, now))
  }

  function FailureDecision(c: Settings, row: Option<Row>, now: int): Decision {
    if LockedAt(row, now) then DecisionFor(row, now)
    else if Counted(c, row, now).failures < c.threshold then Allowed
    else Blocked(RetrySeconds(c.lockout))
  }

  /** Blocked from a failure on exactly until its lock ends, and always for at least a second. */
  lemma BlocksExactlyUntil(c: Settings, row: Option<Row>, failedAt: int, now: int)
    requires Valid(c) && failedAt <= now
    ensures var after := AfterFailure(c, row, failedAt);
            && (DecisionFor(after, now).Blocked? <==>
                after.value.lockedUntil.Some? && now < after.value.lockedUntil.value)
            && (DecisionFor(after, now).Blocked? ==>
                var wait := DecisionFor(after, now).retryAfter;
                wait >= 1 && now + wait * 1_000_000 >= after.value.lockedUntil.value > now + (wait - 1) * 1_000_000)
            && (FailureDecision(c, row, failedAt).Blocked? <==> DecisionFor(after, failedAt).Blocked?)
            && (FailureDecision(c, row, failedAt) == DecisionFor(after, failedAt))
  {
    var after := AfterFailure(c, row, failedAt);
    if DecisionFor(after, now).Blocked? {
      RetryCovers(after.value.lockedUntil.value - now);
    }
  }

  lemma RetryCovers(span: int)
    requires span > 0
    ensures RetrySeconds(span) >= 1 && (RetrySeconds(span) - 1) * 1_000_000 < span <= RetrySeconds(span) * 1_000_000
  {
  }

  /** The least number of whole seconds, and at least one, that cover a span. */
  predicate Covers(wait: int, span: int) {
    wait >= 1 && span <= wait * 1_000_000 && (wait > 1 ==> (wait - 1) * 1_000_000 < span)
  }

  /** One failure of a subject, rule by rule: its row before and after, and the answer. */
  predicate FailureByRule(c: Settings, before: Option<Row>, now: int, after: Option<Row>, d: Decision) {
    if before.Some? && before.value.lockedUntil.Some? && before.value.lockedUntil.value > now then
      after == before && d.Blocked? && Covers(d.retryAfter, before.value.lockedUntil.value - now)
    else
      var opens := before.None? || now - before.value.windowStart >= c.window;
      && after.Some?
      && after.value.failures == (if opens then 1 else before.value.failures + 1)
      && after.value.windowStart == (if opens then now else before.value.windowStart)
      && (after.value.failures < c.threshold ==> after.value.lockedUntil == None && d == Allowed)
      && (after.value.failures >= c.threshold ==>
            after.value.lockedUntil == Some(now + c.lockout) && d.Blocked? && Covers(d.retryAfter, c.lockout))
  }

  lemma FailureFollowsRule(c: Settings, row: Option<Row>, now: int)
    ensures FailureByRule(c, row, now, AfterFailure(c, row, now), FailureDecision(c, row, now))
  {
  }

  datatype Scope = Username | Address

  /** One throttled subject: its scope and the fingerprint of the normalized name or address. */
  datatype Subject = Subject(scope: Scope, fingerprint: string)

  /** The throttle table, and the limiter's answers. */
  class LoginRateLimiter {
    var rows: map<Subject, Row>
    const username: Settings
    const address: Settings

    constructor (usernameSettings: Settings, addressSettings: Settings)
      ensures rows == map[] && username == usernameSettings && address == addressSettings
    {
      rows, username, address := map[], usernameSettings, addressSettings;
    }

    function SettingsOf(s: Subject): Settings {
      if s.scope.Username? then username else address
    }

    function RowOf(s: Subject): Option<Row>
      reads this
    {
      if s in rows then Some(rows[s]) else None
    }

    /** _record_failure: the fields of one row, in the order the code assigns them. */
    method RecordFailure(s: Subject, now: int) returns (d: Decision)
      modifies this`rows
      ensures RowOf(s) == AfterFailure(SettingsOf(s), old(RowOf(s)), now)
      ensures d == FailureDecision(SettingsOf(s), old(RowOf(s)), now)
      ensures FailureByRule(if s.scope.Username? then username else address, old(RowOf(s)), now, RowOf(s), d)
      ensures forall other :: other != s ==> RowOf(other) == old(RowOf(other))
    {
      var c := SettingsOf(s);
      var row := if s in rows then rows[s] else Row(0, now, None);
      if row.lockedUntil.Some? {
        if row.lockedUntil.value > now {
          return Blocked(RetrySeconds(row.lockedUntil.value - now));
        }
      }
      if now - row.windowStart >= c.window {
        row := Row(0, now, None);
      } else if row.lockedUntil.Some? && row.lockedUntil.value <= now {
        row := row.(lockedUntil := None);
      }
      row := row.(failures := row.failures + 1);
      if row.failures < c.threshold {
        rows := rows[s := row];
        return Allowed;
      }
      row := row.(lockedUntil := Some(now + c.lockout));
      rows := rows[s := row];
      return Blocked(RetrySeconds(c.lockout));
    }

    static function Longer(a: Decision, b: Decision): Decision {
      if b.Allowed? then a
      else if a.Allowed? || a.retryAfter < b.retryAfter then b else a
    }

    /** check: the username, and the address when there is one; the longest block wins. */
    method Check(user: Subject, client: Option<Subject>, now: int) returns (d: Decision)
      ensures d.Blocked? <==> LockedAt(RowOf(user), now) || (client.Some? && LockedAt(RowOf(client.value), now))
      ensures d.Blocked? ==>
                && (d == DecisionFor(RowOf(user), now) || (client.Some? && d == DecisionFor(RowOf(client.value), now)))
                && (LockedAt(RowOf(user), now) ==> d.retryAfter >= DecisionFor(RowOf(user), now).retryAfter)
                && (client.Some? && LockedAt(RowOf(client.value), now) ==>
                    d.retryAfter >= DecisionFor(RowOf(client.value), now).retryAfter)
    {
      hide RetrySeconds;
      d := DecisionFor(RowOf(user), now);
      if client.Some? {
        d := Longer(d, DecisionFor(RowOf(client.value), now));
      }
    }

    /** register_failure */
    method RegisterFailure(user: Subject, client: Option<Subject>, now: int) returns (d: Decision)
      requires user.scope.Username? && (client.Some? ==> client.value.scope.Address?)
      modifies this`rows
      ensures RowOf(user) == AfterFailure(username, old(RowOf(user)), now)
      ensures client.Some? ==> RowOf(client.value) == AfterFailure(address, old(RowOf(client.value)), now)
      ensures forall other :: other != user && Some(other) != client ==> RowOf(other) == old(RowOf(other))
      ensures d.Blocked? <==>
              FailureDecision(username, old(RowOf(user)), now).Blocked? ||
              (client.Some? && FailureDecision(address, old(RowOf(client.value)), now).Blocked?)
      ensures d.Blocked? ==>
                var first := FailureDecision(username, old(RowOf(user)), now);
                && (first.Blocked? ==> d.retryAfter >= first.retryAfter)
                && (client.None? ==> d == first)
                && (client.Some? ==>
                      var second := FailureDecision(address, old(RowOf(client.value)), now);
                      && (d == first || d == second)
                      && (second.Blocked? ==> d.retryAfter >= second.retryAfter))
    {
      hide RetrySeconds;
      hide AfterFailure;
      hide FailureDecision;
      d := RecordFailure(user, now);
      if client.Some? {
        var second := RecordFailure(client.value, now);
        d := Longer(d, second);
      }
    }

    /** register_success: only the username's row goes. */
    method RegisterSuccess(user: Subject)
      modifies this`rows
      ensures RowOf(user).None? && forall other :: other != user ==> RowOf(other) == old(RowOf(other))
    {
      rows := rows - {user};
    }
  }

  /** A subject's history between successes: its row, and the times of the failures that were counted. */
  datatype History = History(row: Option<Row>, times: seq<int>)

  const BEGINNING: History := History(None, [])

  function Fail(c: Settings, h: History, now: int): History {
    if LockedAt(h.row, now) then h else History(Some(Counted(c, h.row, now)), h.times + [now])
  }

  function Failures(c: Settings, attempts: seq<int>): History {
    if attempts == [] then BEGINNING
    else Fail(c, Failures(c, attempts[..|attempts| - 1]), attempts[|attempts| - 1])
  }

  predicate Ascending(times: seq<int>) {
    forall i, j :: 0 <= i < j < |times| ==> times[i] <= times[j]
  }

  /** max(T, 2T - 2) */
  function Bound(c: Settings): nat
    requires Valid(c)
  {
    if c.threshold <= 2 then c.threshold else 2 * c.threshold - 2
  }

  function CountedIn(times: seq<int>, from: int, span: int): nat {
    |set i | 0 <= i < |times| && from <= times[i] < from + span|
  }

  predicate Spaced(times: seq<int>, n: nat, span: int) {
    forall i :: 0 <= i && i + n < |times| ==> times[i + n] - times[i] >= span
  }

  /** start and previous are the positions where the current and the last window opened. */
  predicate Shaped(c: Settings, h: History, start: nat, previous: nat)
    requires Valid(c)
  {
    var n := |h.times|;
    && Ascending(h.times)
    && (h.row.None? <==> n == 0)
    && (h.row.Some? ==>
          var row := h.row.value;
          && previous <= start < n && row.failures == n - start && row.windowStart == h.times[start]
          && 1 <= row.failures <= c.threshold
          && (row.failures < c.threshold ==> row.lockedUntil.None?)
          && (row.failures == c.threshold ==> row.lockedUntil == Some(h.times[n - 1] + c.lockout))
          && (start == 0 ==> previous == 0)
          && (start > 0 ==>
                && previous < start && start - previous <= c.threshold
                && h.times[start] - h.times[previous] >= c.window
                && (start - previous == c.threshold ==> h.times[start] - h.times[start - 1] >= c.window)))
  }

  lemma FreshKeepsShape(c: Settings, h: History, start: nat, previous: nat, now: int)
    requires Valid(c) && c.lockout >= c.window && !LockedAt(h.row, now)
    requires Shaped(c, h, start, previous)
    requires |h.times| > 0 ==> h.times[|h.times| - 1] <= now
    requires h.row.Some? ==> now - h.row.value.windowStart >= c.window
    ensures Shaped(c, Fail(c, h, now), |h.times|, if h.row.None? then 0 else start)
  {
  }

  lemma SameWindowKeepsShape(c: Settings, h: History, start: nat, previous: nat, now: int)
    requires Valid(c) && c.lockout >= c.window && !LockedAt(h.row, now)
    requires Shaped(c, h, start, previous)
    requires |h.times| > 0 ==> h.times[|h.times| - 1] <= now
    requires h.row.Some? && now - h.row.value.windowStart < c.window
    ensures Shaped(c, Fail(c, h, now), start, previous)
  {
    var n := |h.times|;
    var row := h.row.value;
    assert h.times[start] <= h.times[n - 1];
    assert row.failures < c.threshold;
    var after := Fail(c, h, now);
    assert after.times[start] == h.times[start] && after.times[previous] == h.times[previous];
    assert start > 0 ==> after.times[start - 1] == h.times[start - 1];
  }

  lemma AppendSpaced(times: seq<int>, n: nat, span: int, now: int)
    requires Spaced(times, n, span) && n > 0
    requires |times| >= n ==> now - times[|times| - n] >= span
    ensures Spaced(times + [now], n, span)
  {
  }

  lemma FailKeepsShape(c: Settings, h: History, start: nat, previous: nat, now: int)
    returns (start': nat, previous': nat)
    requires Valid(c) && c.lockout >= c.window
    requires Shaped(c, h, start, previous) && Spaced(h.times, Bound(c), c.window)
    requires |h.times| > 0 ==> h.times[|h.times| - 1] <= now
    ensures Shaped(c, Fail(c, h, now), start', previous') && Spaced(Fail(c, h, now).times, Bound(c), c.window)
  {
    hide Shaped;
    hide Spaced;
    hide Counted;
    start', previous' := start, previous;
    if !LockedAt(h.row, now) {
      NewestIsSpaced(c, h, start, previous, now);
      AppendSpaced(h.times, Bound(c), c.window, now);
      if h.row.Some? && now - h.row.value.windowStart < c.window {
        SameWindowKeepsShape(c, h, start, previous, now);
      } else {
        FreshKeepsShape(c, h, start, previous, now);
        start', previous' := |h.times|, if h.row.None? then 0 else start;
      }
    }
  }

  /** The newest counted failure is a full window after the one Bound positions before it. */
  lemma NewestIsSpaced(c: Settings, h: History, start: nat, previous: nat, now: int)
    requires Valid(c) && c.lockout >= c.window && !LockedAt(h.row, now)
    requires Shaped(c, h, start, previous)
    requires |h.times| > 0 ==> h.times[|h.times| - 1] <= now
    ensures |h.times| >= Bound(c) ==> now - h.times[|h.times| - Bound(c)] >= c.window
  {
    var n := |h.times|;
    if n >= Bound(c) && h.row.Some? {
      var i := n - Bound(c);
      if i <= start && now - h.times[start] >= c.window {
        assert h.times[i] <= h.times[start];
      } else if i <= previous {
        assert h.times[i] <= h.times[previous];
      } else {
        assert i <= start - 1;
      }
    }
  }

  lemma {:induction false} RunIsShaped(c: Settings, attempts: seq<int>) returns (start: nat, previous: nat)
    requires Valid(c) && c.lockout >= c.window && Ascending(attempts)
    ensures Shaped(c, Failures(c, attempts), start, previous)
    ensures Spaced(Failures(c, attempts).times, Bound(c), c.window)
    ensures forall t :: t in Failures(c, attempts).times ==> t in attempts
  {
    if attempts == [] {
      start, previous := 0, 0;
    } else {
      var n := |attempts| - 1;
      var start0, previous0 := RunIsShaped(c, attempts[..n]);
      var before := Failures(c, attempts[..n]);
      assert |before.times| > 0 ==> before.times[|before.times| - 1] in before.times;
      assert forall t :: t in attempts[..n] ==> t <= attempts[n];
      start, previous := FailKeepsShape(c, before, start0, previous0, attempts[n]);
    }
  }

  /** The n indices from first on. */
  function Interval(first: int, n: nat): (r: set<int>)
    ensures |r| == n && forall i :: i in r <==> first <= i < first + n
  {
    if n == 0 then {} else Interval(first, n - 1) + {first + n - 1}
  }

  lemma InsideIsNear(times: seq<int>, n: nat, from: int, span: int, first: nat, i: nat)
    requires Ascending(times) && Spaced(times, n, span) && first < |times| && i < |times|
    requires from <= times[first] && times[i] < from + span
    ensures i < first + n
  {
    if first + n < |times| {
      assert times[first + n] - times[first] >= span;
      EarlierIsSmaller(times, i, first + n);
    }
  }

  lemma EarlierIsSmaller(times: seq<int>, i: nat, j: nat)
    requires Ascending(times) && i < |times| && j < |times| && times[i] < times[j]
    ensures i < j
  {
  }

  lemma SpacedLimitsCount(times: seq<int>, n: nat, from: int, span: int)
    requires Ascending(times) && Spaced(times, n, span)
    ensures CountedIn(times, from, span) <= n
  {
    var inside := set i | 0 <= i < |times| && from <= times[i] < from + span;
    if some :| some in inside {
      var first := FirstOf(inside, some);
      forall i | i in inside
        ensures i in Interval(first, n)
      {
        InsideIsNear(times, n, from, span, first, i);
      }
      assert Interval(first, n) == inside + (Interval(first, n) - inside);
    } else {
      assert inside == {};
    }
  }

  lemma FirstOf(s: set<int>, some: int) returns (m: int)
    requires some in s
    requires forall i :: i in s ==> i >= 0
    ensures m in s && forall i :: i in s ==> m <= i
  {
    m := some;
    while exists i :: i in s && i < m
      invariant m in s
      decreases m
    {
      var i :| i in s && i < m;
      m := i;
    }
  }

  /**
    With a lockout at least as long as the window, no half-open interval of the window's length counts
    more than max(T, 2T - 2) failures of one subject, whatever the attempts.
   */
  lemma WindowBound(c: Settings, attempts: seq<int>, from: int)
    requires Valid(c) && c.lockout >= c.window && Ascending(attempts)
    ensures CountedIn(Failures(c, attempts).times, from, c.window) <= Bound(c)
  {
    var start, previous := RunIsShaped(c, attempts);
    hide Failures;
    SpacedLimitsCount(Failures(c, attempts).times, Bound(c), from, c.window);
  }

  function Repeated(now: int, k: nat): seq<int> {
    seq(k, _ => now)
  }

  lemma FailOnceMore(c: Settings, attempts: seq<int>, now: int)
    requires Valid(c) && Failures(c, attempts).row.Some?
    requires var row := Failures(c, attempts).row.value;
             row.lockedUntil.None? && now - row.windowStart < c.window
    ensures var before, after := Failures(c, attempts), Failures(c, attempts + [now]);
            var failures := before.row.value.failures + 1;
            && after.times == before.times + [now]
            && after.row == Some(Row(failures, before.row.value.windowStart,
                                     if failures < c.threshold then None else Some(now + c.lockout)))
  {
    assert (attempts + [now])[..|attempts|] == attempts;
  }

  /** k more failures at one moment inside an open window, up to the threshold. */
  lemma {:induction false} FailRepeatedly(c: Settings, attempts: seq<int>, now: int, k: nat)
    requires Valid(c) && Failures(c, attempts).row.Some?
    requires var row := Failures(c, attempts).row.value;
             row.lockedUntil.None? && now - row.windowStart < c.window && row.failures < c.threshold &&
             row.failures + k <= c.threshold
    ensures var before, after := Failures(c, attempts), Failures(c, attempts + Repeated(now, k));
            var failures := before.row.value.failures + k;
            && after.times == before.times + Repeated(now, k)
            && after.row == Some(Row(failures, before.row.value.windowStart,
                                     if failures == c.threshold then Some(now + c.lockout) else None))
  {
    hide Failures;
    if k == 0 {
      assert attempts + Repeated(now, 0) == attempts;
      assert Failures(c, attempts).times + Repeated(now, 0) == Failures(c, attempts).times;
    } else {
      FailRepeatedly(c, attempts, now, k - 1);
      RepeatedGrows(attempts, now, k);
      RepeatedGrows(Failures(c, attempts).times, now, k);
      hide Repeated;
      FailOnceMore(c, attempts + Repeated(now, k - 1), now);
    }
  }

  lemma RepeatedGrows(before: seq<int>, now: int, k: nat)
    requires k > 0
    ensures before + Repeated(now, k) == before + Repeated(now, k - 1) + [now]
  {
  }

  /** The first failure of a fresh window. */
  lemma FailFresh(c: Settings, attempts: seq<int>, now: int)
    requires Valid(c) && !LockedAt(Failures(c, attempts).row, now)
    requires Failures(c, attempts).row.Some? ==> now - Failures(c, attempts).row.value.windowStart >= c.window
    ensures var after := Failures(c, attempts + [now]);
            && after.times == Failures(c, attempts).times + [now]
            && after.row == Some(Row(1, now, if 1 == c.threshold then Some(now + c.lockout) else None))
  {
    assert (attempts + [now])[..|attempts|] == attempts;
  }

  lemma FirstFailure(c: Settings, now: int)
    requires Valid(c)
    ensures Failures(c, [now]) ==
            History(Some(Row(1, now, if 1 == c.threshold then Some(now + c.lockout) else None)), [now])
  {
    FailFresh(c, [], now);
    assert [] + [now] == [now];
  }

  /**
    One early failure, the rest of the threshold just before a second window opens, a full window's worth at
    its start.
   */
  lemma TwoWindows(c: Settings, early: int, late: int, k: nat, next: int)
    requires Valid(c) && c.threshold >= 2 && 1 + k <= c.threshold
    requires early <= late < early + c.window <= next
    requires 1 + k == c.threshold ==> late + c.lockout <= next
    ensures var attempts := [early] + Repeated(late, k) + [next] + Repeated(next, c.threshold - 1);
            Ascending(attempts) && Failures(c, attempts).times == attempts
  {
    var first, second := [early] + Repeated(late, k), [early] + Repeated(late, k) + [next];
    FirstFailure(c, early);
    FailRepeatedly(c, [early], late, k);
    hide Counted;
    assert Failures(c, first).times == first && Failures(c, first).row.Some?;
    hide Repeated;
    hide Failures;
    FailFresh(c, first, next);
    FailRepeatedly(c, second, next, c.threshold - 1);
    TwoWindowsAscend(early, late, k, next, c.threshold - 1);
  }

  lemma TwoWindowsAscend(early: int, late: int, k: nat, next: int, m: nat)
    requires early <= late <= next
    ensures Ascending([early] + Repeated(late, k) + [next] + Repeated(next, m))
  {
  }

  /** A run of equal entries inside an interval counts in full. */
  lemma CountBlock(times: seq<int>, at: nat, k: nat, from: int, span: int)
    requires at + k <= |times| && forall i :: at <= i < at + k ==> from <= times[i] < from + span
    ensures CountedIn(times, from, span) >= k
  {
    var inside := set i | 0 <= i < |times| && from <= times[i] < from + span;
    assert Interval(at, k) <= inside;
    assert inside == Interval(at, k) + (inside - Interval(at, k));
  }

  /** A run whose counted failures are all its attempts, with a block of them inside one interval. */
  lemma BlockIsCounted(c: Settings, attempts: seq<int>, at: nat, k: nat, from: int)
    requires Valid(c) && Ascending(attempts) && Failures(c, attempts).times == attempts
    requires at + k <= |attempts| && forall i :: at <= i < at + k ==> from <= attempts[i] < from + c.window
    ensures exists attempts, from :: Ascending(attempts) && CountedIn(Failures(c, attempts).times, from, c.window) >= k
  {
    hide Failures;
    CountBlock(attempts, at, k, from, c.window);
  }

  /** The schedule of TwoWindows, laid out. */
  lemma TwoWindowsLayout(early: int, late: int, k: nat, next: int, m: nat, i: nat)
    requires 1 <= i < 2 + k + m
    ensures var attempts := [early] + Repeated(late, k) + [next] + Repeated(next, m);
            |attempts| == 2 + k + m && attempts[i] == if i <= k then late else next
  {
  }

  lemma LateBlock(c: Settings, late: int, k: nat, size: nat)
    requires Valid(c) && c.threshold >= 2 && 1 + k <= c.threshold && size <= k + c.threshold
    requires 0 <= late < c.window < late + c.window
    requires 1 + k == c.threshold ==> late + c.lockout <= c.window
    ensures exists attempts, from ::
              Ascending(attempts) && CountedIn(Failures(c, attempts).times, from, c.window) >= size
  {
    var m := c.threshold - 1;
    var attempts := [0] + Repeated(late, k) + [c.window] + Repeated(c.window, m);
    TwoWindows(c, 0, late, k, c.window);
    forall i | 1 <= i < 1 + size
      ensures late <= attempts[i] < late + c.window
    {
      TwoWindowsLayout(0, late, k, c.window, m, i);
    }
    hide Repeated;
    TwoWindowsLayout(0, late, k, c.window, m, 1);
    BlockIsCounted(c, attempts, 1, size, late);
  }

  /** The bound is attained, so it cannot be lowered. */
  lemma BoundIsAttained(c: Settings)
    requires Valid(c) && c.window >= 2
    ensures exists attempts, from :: Ascending(attempts) &&
              CountedIn(Failures(c, attempts).times, from, c.window) >= Bound(c)
  {
    if c.threshold == 1 {
      FirstFailure(c, 0);
      BlockIsCounted(c, [0], 0, 1, 0);
    } else {
      LateBlock(c, c.window - 1, c.threshold - 2, Bound(c));
    }
  }

  lemma TwoLocks(c: Settings)
    requires Valid(c) && c.threshold == 1
    ensures Failures(c, [0, c.lockout]).times == [0, c.lockout]
  {
    FirstFailure(c, 0);
    assert [0, c.lockout][..1] == [0];
  }

  /** A shorter lockout lets a subject fail once more than the bound. */
  lemma ShortLockoutExceeds(c: Settings)
    requires Valid(c) && c.lockout < c.window
    ensures exists attempts, from :: Ascending(attempts) &&
              CountedIn(Failures(c, attempts).times, from, c.window) >= Bound(c) + 1
  {
    if c.threshold == 1 {
      TwoLocks(c);
      BlockIsCounted(c, [0, c.lockout], 0, 2, 0);
    } else {
      LateBlock(c, c.window - c.lockout, c.threshold - 1, Bound(c) + 1);
    }
  }

  ghost predicate NeverExceeds(c: Settings)
    requires Valid(c)
  {
    forall attempts, from :: Ascending(attempts) ==> CountedIn(Failures(c, attempts).times, from, c.window) <= Bound(c)
  }

  /** Over all runs with a nondecreasing clock: the bound holds exactly when the lockout covers the window. */
  lemma BoundHoldsIff(c: Settings)
    requires Valid(c)
    ensures NeverExceeds(c) <==> c.lockout >= c.window
  {
    if c.lockout >= c.window {
      forall attempts, from | Ascending(attempts)
        ensures CountedIn(Failures(c, attempts).times, from, c.window) <= Bound(c)
      {
        WindowBound(c, attempts, from);
      }
    } else {
      ShortLockoutExceeds(c);
      hide Failures;
      hide CountedIn;
    }
  }
}
