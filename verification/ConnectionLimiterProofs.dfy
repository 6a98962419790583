/** How many connections the limiter admits in any window, how far apart, and when eviction changes nothing. */
module ConnectionLimiterProofs {
  import opened Bounds
  import opened Options
  import opened ConnectionLimiter

  /** The windows that eviction after an hour cannot disturb. */
  predicate Roomy(c: Config) {
    c.limit >= 1 ==> c.window <= HOUR + 1 + (c.limit - 1) * c.spacing
  }

  // ----- Sorted logs -----

  ghost predicate Sorted(log: seq<Time>) {
    forall i, j :: 0 <= i < j < |log| ==> log[i] <= log[j]
  }

  /** `j` separates the entries up to the cutoff from the later ones. */
  ghost predicate Splits(log: seq<Time>, cutoff: Time, j: nat) {
    && j <= |log|
    && (forall i :: 0 <= i < j ==> log[i] <= cutoff)
    && (forall i :: j <= i < |log| ==> log[i] > cutoff)
  }

  predicate Leaves(log: seq<Time>, cutoff: Time, rest: seq<Time>) {
    Recent(log, cutoff) == rest
  }

  /** Dropping the old entries of a sorted log leaves a suffix of it. */
  lemma {:induction false} RecentSuffix(log: seq<Time>, cutoff: Time) returns (j: nat)
    requires Sorted(log)
    ensures Splits(log, cutoff, j) && Leaves(log, cutoff, log[j..])
  {
    if log == [] {
      j := 0;
    } else {
      var front, last := log[..|log| - 1], log[|log| - 1];
      j := RecentSuffix(front, cutoff);
      if last > cutoff {
        assert front[j..] + [last] == log[j..];
      } else {
        assert j == |front|;
        j := |log|;
      }
    }
  }

  lemma OneSplit(log: seq<Time>, cutoff: Time, i: nat, j: nat)
    requires Splits(log, cutoff, i) && Splits(log, cutoff, j)
    ensures i == j
  {
    var earlier := if i < j then i else j;
    assert earlier < |log| ==> (log[earlier] <= cutoff <==> earlier < i) && (log[earlier] <= cutoff <==> earlier < j);
  }

  lemma RecentOfSuffix(log: seq<Time>, k: nat, cutoff: Time) returns (j: nat, kept: nat)
    requires Sorted(log) && k <= |log|
    ensures Splits(log, cutoff, j) && Leaves(log, cutoff, log[j..])
    ensures kept == Max(j, k) && Leaves(log[k..], cutoff, log[kept..])
  {
    j := RecentSuffix(log, cutoff);
    var i := RecentSuffix(log[k..], cutoff);
    kept := Max(j, k);
    assert Splits(log[k..], cutoff, kept - k);
    OneSplit(log[k..], cutoff, i, kept - k);
    assert log[k..][i..] == log[k + i..];
  }

  ghost predicate Spaced(c: Config, log: seq<Time>) {
    forall i, j :: 0 <= i < j < |log| ==> log[j] - log[i] >= Min(c.spacing, c.window)
  }

  lemma {:induction false} Span(c: Config, log: seq<Time>, i: nat, j: nat)
    requires Sane(c) && c.window >= SECOND && Spaced(c, log) && i <= j < |log|
    ensures log[j] - log[i] >= (j - i) * c.spacing
  {
    if i < j {
      Span(c, log, i, j - 1);
      assert (j - i) * c.spacing == (j - 1 - i) * c.spacing + c.spacing;
    }
  }

  // ----- What a tracker knows of the log of admissions -----

  /** The first `k` admissions were dropped because of their age, or all at once after an hour of silence. */
  ghost predicate Forgotten(c: Config, log: seq<Time>, k: nat, now: Time)
    requires k <= |log|
  {
    || k == 0
    || log[k - 1] <= now - c.window
    || (if k < |log| then log[k] else now) - log[k - 1] > HOUR
  }

  /** A tracker that holds the log from `k` on, and the latest admission unless the log was evicted. */
  ghost predicate Knows(c: Config, log: seq<Time>, k: nat, last: Option<Time>, now: Time) {
    && Sorted(log) && Spaced(c, log)
    && (log != [] ==> c.limit >= 1 && log[|log| - 1] <= now)
    && k <= |log| && Forgotten(c, log, k, now)
    && (last == Last(log) || (last == None && k == |log| && log[k - 1] < now - HOUR))
  }

  ghost predicate Tracks(c: Config, t: Tracker, log: seq<Time>, k: nat, now: Time) {
    Knows(c, log, k, t.lastConnection, now) && t.connections == log[k..]
  }

  lemma Pruned(c: Config, log: seq<Time>, k: nat, last: Option<Time>, before: Time, now: Time, j: nat)
    requires Knows(c, log, k, last, before) && before <= now && Splits(log, now - c.window, j)
    ensures Knows(c, log, Max(j, k), last, now)
  {
  }

  lemma Longer(c: Config, log: seq<Time>, k: nat, last: Option<Time>, now: Time)
    requires Knows(c, log, k, last, now) && c.limit >= 1
    requires log != [] ==> now - log[|log| - 1] >= Min(c.spacing, c.window)
    ensures Knows(c, log + [now], k, Some(now), now)
  {
    var longer := log + [now];
    forall i, j | 0 <= i < j < |longer|
      ensures longer[j] - longer[i] >= Min(c.spacing, c.window) && longer[i] <= longer[j]
    {
      if j == |log| {
        assert log[i] <= log[|log| - 1];
      }
    }
  }

  /** An admission is spaced from the one before it, even when the tracker forgot that one. */
  lemma Distance(c: Config, log: seq<Time>, k: nat, last: Option<Time>, now: Time, j: nat)
    requires Knows(c, log, k, last, now) && Splits(log, now - c.window, j) && j <= k
    requires Sane(c) && Admissible(c, log[k..], last, now) && log != []
    ensures now - log[|log| - 1] >= Min(c.spacing, c.window)
  {
  }

  lemma Grown(c: Config, log: seq<Time>, k: nat, last: Option<Time>, now: Time, j: nat)
    requires Sane(c) && Knows(c, log, k, last, now) && Splits(log, now - c.window, j) && j <= k
    requires Admissible(c, log[k..], last, now)
    ensures Knows(c, log + [now], k, Some(now), now) && (log + [now])[k..] == log[k..] + [now]
  {
    if log != [] {
      Distance(c, log, k, last, now, j);
    }
    Longer(c, log, k, last, now);
  }

  lemma Cut(c: Config, log: seq<Time>, k: nat, last: Option<Time>, before: Time, now: Time) returns (j: nat, kept: nat)
    requires Knows(c, log, k, last, before) && before <= now
    ensures Splits(log, now - c.window, j) && Leaves(log, now - c.window, log[j..])
    ensures kept <= |log| && Leaves(log[k..], now - c.window, log[kept..])
    ensures j <= kept && Knows(c, log, kept, last, now)
  {
    j, kept := RecentOfSuffix(log, k, now - c.window);
    Pruned(c, log, k, last, before, now, j);
  }

  lemma Tracked(c: Config, t: Tracker, log: seq<Time>, k: nat, before: Time, now: Time) returns (kept: nat)
    requires Sane(c) && Tracks(c, t, log, k, before) && before <= now
    ensures Checked(c, t, now).0 ==> Tracks(c, Checked(c, t, now).1, log + [now], kept, now)
    ensures !Checked(c, t, now).0 ==> Tracks(c, Checked(c, t, now).1, log, kept, now)
  {
    var j;
    j, kept := Cut(c, log, k, t.lastConnection, before, now);
    if Checked(c, t, now).0 {
      Grown(c, log, kept, t.lastConnection, now, j);
    }
  }

  lemma Evicted(c: Config, rates: map<string, Tracker>, ip: string, log: seq<Time>, k: nat, before: Time, now: Time)
    returns (kept: nat)
    requires Tracks(c, TrackerOf(rates, ip), log, k, before) && before <= now
    ensures Tracks(c, TrackerOf(Kept(rates, now), ip), log, kept, now)
  {
    kept := if ip in Kept(rates, now) then k else |log|;
  }

  lemma Later(c: Config, t: Tracker, log: seq<Time>, k: nat, before: Time, now: Time)
    requires Tracks(c, t, log, k, before) && before <= now
    ensures Tracks(c, t, log, k, now)
  {
  }

  /** One event, seen from one address. */
  lemma TracksStep(c: Config, rates: map<string, Tracker>, e: Event, ip: string, log: seq<Time>, k: nat, before: Time)
    returns (kept: nat)
    requires Sane(c) && Tracks(c, TrackerOf(rates, ip), log, k, before) && before <= e.at
    ensures e.kind == Check(ip) && Checked(c, TrackerOf(rates, ip), e.at).0 ==>
              Tracks(c, TrackerOf(Next(c, rates, e), ip), log + [e.at], kept, e.at)
    ensures !(e.kind == Check(ip) && Checked(c, TrackerOf(rates, ip), e.at).0) ==>
              Tracks(c, TrackerOf(Next(c, rates, e), ip), log, kept, e.at)
  {
    if e.kind == Check(ip) {
      kept := Tracked(c, TrackerOf(rates, ip), log, k, before, e.at);
    } else if e.kind == Cleanup {
      kept := Evicted(c, rates, ip, log, k, before, e.at);
    } else {
      Later(c, TrackerOf(rates, ip), log, k, before, e.at);
      kept := k;
    }
  }

  lemma {:induction false} TracksRun(c: Config, events: seq<Event>, ip: string, now: Time) returns (k: nat)
    requires Sane(c) && InOrder(events) && NotAfter(events, now)
    ensures Tracks(c, TrackerOf(After(c, events), ip), Admissions(c, events, ip), k, now)
    decreases |events|
  {
    if events == [] {
      k := 0;
    } else {
      var front, last := events[..|events| - 1], events[|events| - 1];
      k := TracksRun(c, front, ip, last.at);
      k := TracksStep(c, After(c, front), last, ip, Admissions(c, front, ip), k, last.at);
      assert || Admissions(c, events, ip) == Admissions(c, front, ip) + [last.at]
             || Admissions(c, events, ip) == Admissions(c, front, ip);
      Later(c, TrackerOf(After(c, events), ip), Admissions(c, events, ip), k, last.at, now);
    }
  }

  // ----- Agreement with the limiter that never forgets -----

  /** Products of the spacing are kept inside these two lemmas. */
  lemma Stretch(a: nat, b: nat, g: nat)
    ensures a * g + b * g == (a + b) * g
  {
  }

  lemma MoreIsFarther(a: nat, b: nat, g: nat)
    ensures a <= b ==> a * g <= b * g
  {
    if a <= b {
      Stretch(a, b - a, g);
    }
  }

  /** How far back the entry after the cutoff lies when a silence of an hour follows it. */
  lemma FarBack(c: Config, log: seq<Time>, k: nat, now: Time, j: nat)
    requires Sane(c) && c.window >= SECOND && Spaced(c, log) && j < k <= |log|
    requires (if k < |log| then log[k] else now) - log[k - 1] > HOUR
    requires k < |log| ==> now - log[|log| - 1] >= c.spacing
    ensures now - log[j] > HOUR + (|log| - j - 1) * c.spacing
  {
    Span(c, log, j, k - 1);
    if k < |log| {
      Span(c, log, k, |log| - 1);
      Stretch(|log| - 1 - k, 1, c.spacing);
      Stretch(k - 1 - j, |log| - k, c.spacing);
    }
  }

  /** Entries forgotten although they are recent leave fewer than the limit. */
  lemma Harmless(c: Config, log: seq<Time>, k: nat, last: Option<Time>, now: Time, j: nat)
    requires Sane(c) && c.limit >= 1 && Roomy(c) && c.window >= SECOND
    requires Knows(c, log, k, last, now) && Splits(log, now - c.window, j) && j < k
    requires k < |log| ==> now - log[|log| - 1] >= c.spacing
    ensures |log| - j < c.limit
  {
    FarBack(c, log, k, now, j);
    MoreIsFarther(c.limit - 1, |log| - j - 1, c.spacing);
  }

  /** Deciding on the entries from `k` on is deciding on all recent ones, those from `j` on. */
  lemma SameDecision(c: Config, log: seq<Time>, k: nat, last: Option<Time>, now: Time, j: nat)
    requires Sane(c) && Roomy(c) && Knows(c, log, k, last, now) && Splits(log, now - c.window, j) && j <= k
    ensures Admissible(c, log[k..], last, now) == Admissible(c, log[j..], Last(log), now)
  {
    if j < k && c.limit >= 1 && (k < |log| ==> now - log[|log| - 1] >= c.spacing) {
      Harmless(c, log, k, last, now, j);
    }
  }

  lemma Agree(c: Config, t: Tracker, log: seq<Time>, k: nat, now: Time)
    requires Sane(c) && Roomy(c) && Tracks(c, t, log, k, now)
    ensures Checked(c, t, now).0 == Allowed(c, log, now)
  {
    var j, kept := Cut(c, log, k, t.lastConnection, now, now);
    SameDecision(c, log, kept, t.lastConnection, now, j);
  }

  /**
   The limiter decides as if it never forgot an admission, for every run with cleanups anywhere.
   */
  lemma Faithful(c: Config, events: seq<Event>, ip: string, now: Time)
    requires Sane(c) && Roomy(c) && InOrder(events) && NotAfter(events, now)
    ensures Admits(c, events, ip, now) == Allowed(c, Admissions(c, events, ip), now)
  {
    var k := TracksRun(c, events, ip, now);
    Agree(c, TrackerOf(After(c, events), ip), Admissions(c, events, ip), k, now);
  }

  function WithoutCleanups(events: seq<Event>): seq<Event> {
    if events == [] then [] else
      var front, last := events[..|events| - 1], events[|events| - 1];
      if last.kind == Cleanup then WithoutCleanups(front) else WithoutCleanups(front) + [last]
  }

  lemma {:induction false} ChecksInOrder(events: seq<Event>, now: Time)
    requires InOrder(events) && NotAfter(events, now)
    ensures InOrder(WithoutCleanups(events)) && NotAfter(WithoutCleanups(events), now)
    decreases |events|
  {
    if events != [] {
      ChecksInOrder(events[..|events| - 1], events[|events| - 1].at);
    }
  }

  lemma {:induction false} SameAdmissions(c: Config, events: seq<Event>, ip: string, now: Time)
    requires Sane(c) && Roomy(c) && InOrder(events) && NotAfter(events, now)
    ensures Admissions(c, WithoutCleanups(events), ip) == Admissions(c, events, ip)
    decreases |events|
  {
    if events != [] {
      var front, last := events[..|events| - 1], events[|events| - 1];
      SameAdmissions(c, front, ip, last.at);
      var checks := WithoutCleanups(front);
      ChecksInOrder(front, last.at);
      if last.kind != Cleanup {
        assert (checks + [last])[..|checks|] == checks;
        Faithful(c, front, ip, last.at);
        Faithful(c, checks, ip, last.at);
      }
    }
  }

  /** Cleanups change no decision: the limiter answers as it would have without them. */
  lemma EvictionTransparent(c: Config, events: seq<Event>, ip: string, now: Time)
    requires Sane(c) && Roomy(c) && InOrder(events) && NotAfter(events, now)
    ensures Admits(c, events, ip, now) == Admits(c, WithoutCleanups(events), ip, now)
  {
    ChecksInOrder(events, now);
    SameAdmissions(c, events, ip, now);
    Faithful(c, events, ip, now);
    Faithful(c, WithoutCleanups(events), ip, now);
  }

  // ----- Runs without cleanups -----

  ghost predicate OnlyChecks(events: seq<Event>) {
    forall i :: 0 <= i < |events| ==> events[i].kind.Check?
  }

  /** A tracker that was never evicted has forgotten only what is too old, and knows the latest admission. */
  ghost predicate Pristine(c: Config, t: Tracker, log: seq<Time>, k: nat, now: Time) {
    && Tracks(c, t, log, k, now) && t.lastConnection == Last(log)
    && (k > 0 ==> log[k - 1] <= now - c.window)
  }

  lemma PristineCut(c: Config, log: seq<Time>, k: nat, last: Option<Time>, before: Time, now: Time) returns (j: nat)
    requires Knows(c, log, k, last, before) && before <= now && (k > 0 ==> log[k - 1] <= now - c.window)
    ensures Splits(log, now - c.window, j) && Leaves(log, now - c.window, log[j..])
    ensures Leaves(log[k..], now - c.window, log[j..]) && Knows(c, log, j, last, now)
  {
    var kept;
    j, kept := RecentOfSuffix(log, k, now - c.window);
    if k > 0 {
      var i := k - 1;
      assert log[i] <= now - c.window;
    }
    Pruned(c, log, k, last, before, now, j);
  }

  lemma PristineDecides(c: Config, t: Tracker, log: seq<Time>, k: nat, before: Time, now: Time)
    requires Pristine(c, t, log, k, before) && before <= now
    ensures Checked(c, t, now).0 == Allowed(c, log, now)
  {
    var j := PristineCut(c, log, k, t.lastConnection, before, now);
  }

  lemma PristineChecked(c: Config, t: Tracker, log: seq<Time>, k: nat, before: Time, now: Time) returns (j: nat)
    requires Sane(c) && Pristine(c, t, log, k, before) && before <= now
    ensures Checked(c, t, now).0 ==> Pristine(c, Checked(c, t, now).1, log + [now], j, now)
    ensures !Checked(c, t, now).0 ==> Pristine(c, Checked(c, t, now).1, log, j, now)
  {
    j := PristineCut(c, log, k, t.lastConnection, before, now);
    if Checked(c, t, now).0 {
      Grown(c, log, j, t.lastConnection, now, j);
    }
  }

  lemma PristineLater(c: Config, t: Tracker, log: seq<Time>, k: nat, before: Time, now: Time)
    requires Pristine(c, t, log, k, before) && before <= now
    ensures Pristine(c, t, log, k, now)
  {
    Later(c, t, log, k, before, now);
  }

  lemma PristineStep(c: Config, rates: map<string, Tracker>, e: Event, ip: string, log: seq<Time>, k: nat)
    returns (kept: nat)
    requires Sane(c) && Pristine(c, TrackerOf(rates, ip), log, k, e.at) && e.kind.Check?
    ensures e.kind == Check(ip) && Checked(c, TrackerOf(rates, ip), e.at).0 ==>
              Pristine(c, TrackerOf(Next(c, rates, e), ip), log + [e.at], kept, e.at)
    ensures !(e.kind == Check(ip) && Checked(c, TrackerOf(rates, ip), e.at).0) ==>
              Pristine(c, TrackerOf(Next(c, rates, e), ip), log, kept, e.at)
  {
    kept := k;
    if e.kind == Check(ip) {
      kept := PristineChecked(c, TrackerOf(rates, ip), log, k, e.at, e.at);
    }
  }

  lemma {:induction false} PristineRun(c: Config, events: seq<Event>, ip: string, now: Time) returns (k: nat)
    requires Sane(c) && InOrder(events) && NotAfter(events, now) && OnlyChecks(events)
    ensures Pristine(c, TrackerOf(After(c, events), ip), Admissions(c, events, ip), k, now)
    decreases |events|
  {
    if events == [] {
      k := 0;
    } else {
      var front, last := events[..|events| - 1], events[|events| - 1];
      k := PristineRun(c, front, ip, last.at);
      var log := Admissions(c, front, ip);
      k := PristineStep(c, After(c, front), last, ip, log, k);
      assert Admissions(c, events, ip) == log + [last.at] || Admissions(c, events, ip) == log;
      PristineLater(c, TrackerOf(After(c, events), ip), Admissions(c, events, ip), k, last.at, now);
    }
  }

  /** Without cleanups every decision is the one on the full log, for every window. */
  lemma FaithfulWithoutCleanups(c: Config, events: seq<Event>, ip: string, now: Time)
    requires Sane(c) && InOrder(events) && NotAfter(events, now) && OnlyChecks(events)
    ensures Admits(c, events, ip, now) == Allowed(c, Admissions(c, events, ip), now)
  {
    var k := PristineRun(c, events, ip, now);
    PristineDecides(c, TrackerOf(After(c, events), ip), Admissions(c, events, ip), k, now, now);
  }

  // ----- The bound -----

  /** How many entries lie in the half-open interval (a, a + width]. */
  function Inside(log: seq<Time>, a: Time, width: int): nat {
    if log == [] then 0 else
      Inside(log[..|log| - 1], a, width) + (if a < log[|log| - 1] <= a + width then 1 else 0)
  }

  lemma {:induction false} InsideRecent(log: seq<Time>, a: Time, width: int, cutoff: Time)
    requires cutoff <= a
    ensures Inside(log, a, width) <= |Recent(log, cutoff)|
  {
    if log != [] {
      InsideRecent(log[..|log| - 1], a, width, cutoff);
    }
  }

  lemma OneMore(c: Config, log: seq<Time>, now: Time, a: Time)
    requires Allowed(c, log, now) && Inside(log, a, c.window) <= Max(0, c.limit)
    ensures Inside(log + [now], a, c.window) <= Max(0, c.limit)
  {
    assert (log + [now])[..|log|] == log;
    if now <= a + c.window {
      InsideRecent(log, a, c.window, now - c.window);
    }
  }

  /** No half-open interval of one window holds more admissions of one address than the limit. */
  lemma {:induction false} WindowBound(c: Config, events: seq<Event>, ip: string, a: Time)
    requires Sane(c) && Roomy(c) && InOrder(events)
    ensures Inside(Admissions(c, events, ip), a, c.window) <= Max(0, c.limit)
    decreases |events|
  {
    if events != [] {
      var front, last := events[..|events| - 1], events[|events| - 1];
      var log := Admissions(c, front, ip);
      WindowBound(c, front, ip, a);
      if last.kind == Check(ip) && Admits(c, front, ip, last.at) {
        Faithful(c, front, ip, last.at);
        OneMore(c, log, last.at, a);
        assert Admissions(c, events, ip) == log + [last.at];
      } else {
        assert Admissions(c, events, ip) == log;
      }
    }
  }

  /** Any two admissions of one address are at least the spacing, or a whole window, apart; in every configuration. */
  lemma AdmissionsSpaced(c: Config, events: seq<Event>, ip: string, i: nat, j: nat)
    requires Sane(c) && InOrder(events) && i < j < |Admissions(c, events, ip)|
    ensures Admissions(c, events, ip)[j] - Admissions(c, events, ip)[i] >= Min(c.spacing, c.window)
  {
    var now := if events == [] then 0 else events[|events| - 1].at;
    var k := TracksRun(c, events, ip, now);
  }

  // ----- Larger windows -----

  /** A run that admits `n` connections of one address, one spacing apart, from time zero on. */
  ghost predicate Steady(c: Config, events: seq<Event>, ip: string, n: nat) {
    && InOrder(events) && NotAfter(events, n * c.spacing) && OnlyChecks(events)
    && Admissions(c, events, ip) == Beats(n, c.spacing)
    && TrackerOf(After(c, events), ip).connections == Beats(n, c.spacing)
    && TrackerOf(After(c, events), ip).lastConnection == Last(Beats(n, c.spacing))
  }

  function Beats(n: nat, spacing: int): (log: seq<Time>)
    ensures |log| == n
  {
    if n == 0 then [] else Beats(n - 1, spacing) + [(n - 1) * spacing]
  }

  lemma {:induction false} BeatsRange(n: nat, spacing: nat, i: nat)
    requires i < n
    ensures 0 <= Beats(n, spacing)[i] <= (n - 1) * spacing
  {
    if i < n - 1 {
      BeatsRange(n - 1, spacing, i);
      Stretch(n - 2, 1, spacing);
    }
  }

  lemma {:induction false} AllRecent(log: seq<Time>, cutoff: Time)
    requires forall i :: 0 <= i < |log| ==> log[i] > cutoff
    ensures Recent(log, cutoff) == log
  {
    if log != [] {
      AllRecent(log[..|log| - 1], cutoff);
    }
  }

  lemma BeatsRecent(n: nat, spacing: nat, cutoff: Time)
    requires cutoff < 0
    ensures Recent(Beats(n, spacing), cutoff) == Beats(n, spacing)
  {
    forall i | 0 <= i < n ensures Beats(n, spacing)[i] > cutoff {
      BeatsRange(n, spacing, i);
    }
    AllRecent(Beats(n, spacing), cutoff);
  }

  lemma Beat(c: Config, t: Tracker, n: nat)
    requires Sane(c) && n < c.limit && n * c.spacing < c.window
    requires t.connections == Beats(n, c.spacing) && t.lastConnection == Last(Beats(n, c.spacing))
    ensures Checked(c, t, n * c.spacing).0 && Checked(c, t, n * c.spacing).1.connections == Beats(n + 1, c.spacing)
    ensures Checked(c, t, n * c.spacing).1.lastConnection == Last(Beats(n + 1, c.spacing))
  {
    BeatsRecent(n, c.spacing, n * c.spacing - c.window);
    if n > 0 {
      Stretch(n - 1, 1, c.spacing);
    }
  }

  lemma SteadyStep(c: Config, events: seq<Event>, ip: string, n: nat)
    requires Sane(c) && Steady(c, events, ip, n) && n < c.limit && n * c.spacing < c.window
    ensures Steady(c, events + [Event(n * c.spacing, Check(ip))], ip, n + 1)
  {
    Beat(c, TrackerOf(After(c, events), ip), n);
    Stretch(n, 1, c.spacing);
    assert (events + [Event(n * c.spacing, Check(ip))])[..|events|] == events;
  }

  lemma {:induction false} SteadyRun(c: Config, ip: string, n: nat) returns (events: seq<Event>)
    requires Sane(c) && n <= c.limit && (c.limit - 1) * c.spacing < c.window
    ensures Steady(c, events, ip, n)
  {
    events := [];
    if n > 0 {
      events := SteadyRun(c, ip, n - 1);
      MoreIsFarther(n - 1, c.limit - 1, c.spacing);
      SteadyStep(c, events, ip, n - 1);
      events := events + [Event((n - 1) * c.spacing, Check(ip))];
    }
  }

  lemma {:induction false} AllInside(log: seq<Time>, a: Time, width: int)
    requires forall i :: 0 <= i < |log| ==> a < log[i] <= a + width
    ensures Inside(log, a, width) == |log|
  {
    if log != [] {
      AllInside(log[..|log| - 1], a, width);
    }
  }

  lemma Crowded(n: nat, g: nat, now: Time, width: int)
    requires now < width && (n > 0 ==> (n - 1) * g <= now) && 0 <= now
    ensures Inside(Beats(n, g) + [now], now - width, width) == n + 1
    ensures Leaves(Beats(n, g), now - width, Beats(n, g))
  {
    BeatsRecent(n, g, now - width);
    var log := Beats(n, g) + [now];
    forall i | 0 <= i < |log| ensures now - width < log[i] <= now {
      if i < n {
        BeatsRange(n, g, i);
      }
    }
    AllInside(log, now - width, width);
  }

  /** An hour of silence and a cleanup leave nothing of the tracker. */
  lemma Vacated(c: Config, events: seq<Event>, ip: string, now: Time)
    requires InOrder(events) && NotAfter(events, now)
    requires Idle(TrackerOf(After(c, events), ip), now)
    ensures InOrder(events + [Event(now, Cleanup)]) && NotAfter(events + [Event(now, Cleanup)], now)
    ensures TrackerOf(After(c, events + [Event(now, Cleanup)]), ip) == UNSEEN
    ensures Admissions(c, events + [Event(now, Cleanup)], ip) == Admissions(c, events, ip)
  {
    assert (events + [Event(now, Cleanup)])[..|events|] == events;
  }

  lemma {:induction false} NothingToRemove(events: seq<Event>)
    requires OnlyChecks(events)
    ensures WithoutCleanups(events) == events
    decreases |events|
  {
    if events != [] {
      NothingToRemove(events[..|events| - 1]);
    }
  }

  lemma LastRemoved(events: seq<Event>, now: Time)
    ensures WithoutCleanups(events + [Event(now, Cleanup)]) == WithoutCleanups(events)
  {
    assert (events + [Event(now, Cleanup)])[..|events|] == events;
  }

  /** The limit is used up, an hour passes, and a cleanup follows. */
  lemma Silence(c: Config, ip: string, now: Time) returns (events: seq<Event>)
    requires Sane(c) && 1 <= c.limit && now == (c.limit - 1) * c.spacing + HOUR + 1 < c.window
    ensures InOrder(events) && NotAfter(events, now)
    ensures TrackerOf(After(c, events), ip) == UNSEEN && Admissions(c, events, ip) == Beats(c.limit, c.spacing)
    ensures OnlyChecks(WithoutCleanups(events))
    ensures Admissions(c, WithoutCleanups(events), ip) == Admissions(c, events, ip)
  {
    events := SteadyRun(c, ip, c.limit);
    NothingToRemove(events);
    LastRemoved(events, now);
    Stretch(c.limit - 1, 1, c.spacing);
    Vacated(c, events, ip, now);
    events := events + [Event(now, Cleanup)];
  }

  lemma Unhindered(c: Config, events: seq<Event>, ip: string, now: Time)
    requires c.limit >= 1 && TrackerOf(After(c, events), ip) == UNSEEN
    ensures Admits(c, events, ip, now)
    ensures Admissions(c, events + [Event(now, Check(ip))], ip) == Admissions(c, events, ip) + [now]
  {
    assert (events + [Event(now, Check(ip))])[..|events|] == events;
  }

  lemma Full(c: Config, log: seq<Time>, now: Time)
    requires Leaves(log, now - c.window, log) && |log| == c.limit
    ensures !Allowed(c, log, now)
  {
  }

  /** In a window that is not roomy, a cleanup makes room for one admission too many. */
  lemma Overadmitted(c: Config, ip: string) returns (events: seq<Event>, now: Time)
    requires Sane(c) && !Roomy(c)
    ensures InOrder(events) && NotAfter(events, now)
    ensures Admits(c, events, ip, now) && !Allowed(c, Admissions(c, events, ip), now)
    ensures !Admits(c, WithoutCleanups(events), ip, now)
    ensures Inside(Admissions(c, events + [Event(now, Check(ip))], ip), now - c.window, c.window) == c.limit + 1
  {
    now := (c.limit - 1) * c.spacing + HOUR + 1;
    events := Silence(c, ip, now);
    Unhindered(c, events, ip, now);
    Crowded(c.limit, c.spacing, now, c.window);
    Full(c, Beats(c.limit, c.spacing), now);
    ChecksInOrder(events, now);
    FaithfulWithoutCleanups(c, WithoutCleanups(events), ip, now);
  }

  /** Exactly the roomy windows make the limiter faithful to its log, in every run. */
  lemma FaithfulExactly(c: Config)
    requires Sane(c)
    ensures Roomy(c) <==>
            (forall events, ip, now :: InOrder(events) && NotAfter(events, now) ==>
               Admits(c, events, ip, now) == Allowed(c, Admissions(c, events, ip), now))
  {
    if Roomy(c) {
      forall events, ip, now | InOrder(events) && NotAfter(events, now)
        ensures Admits(c, events, ip, now) == Allowed(c, Admissions(c, events, ip), now)
      {
        Faithful(c, events, ip, now);
      }
    } else {
      var events, now := Overadmitted(c, "");
    }
  }

  /** Exactly the roomy windows make cleanups invisible, in every run. */
  lemma TransparentExactly(c: Config)
    requires Sane(c)
    ensures Roomy(c) <==>
            (forall events, ip, now :: InOrder(events) && NotAfter(events, now) ==>
               Admits(c, events, ip, now) == Admits(c, WithoutCleanups(events), ip, now))
  {
    if Roomy(c) {
      forall events, ip, now | InOrder(events) && NotAfter(events, now)
        ensures Admits(c, events, ip, now) == Admits(c, WithoutCleanups(events), ip, now)
      {
        EvictionTransparent(c, events, ip, now);
      }
    } else {
      var events, now := Overadmitted(c, "");
    }
  }

  /** Exactly the roomy windows keep every interval of one window within the limit, in every run. */
  lemma WindowBoundExactly(c: Config)
    requires Sane(c)
    ensures Roomy(c) <==>
            (forall events, ip, a :: InOrder(events) ==>
               Inside(Admissions(c, events, ip), a, c.window) <= Max(0, c.limit))
  {
    if Roomy(c) {
      forall events, ip, a | InOrder(events) ensures Inside(Admissions(c, events, ip), a, c.window) <= Max(0, c.limit) {
        WindowBound(c, events, ip, a);
      }
    } else {
      var events, now := Overadmitted(c, "");
      assert InOrder(events + [Event(now, Check(""))]);
    }
  }

  // ----- A limiter built from its limit and window -----

  lemma Scaled(x: int, y: int, n: nat)
    requires x <= y
    ensures x * n <= y * n
  {
  }

  lemma Share(g: int, n: nat, total: int, d: int)
    requires g * n <= total < (g + 1) * n
    ensures d >= g <==> (d + 1) * n > total
  {
    if d >= g {
      Scaled(g + 1, d + 1, n);
    } else {
      Scaled(d + 1, g, n);
    }
  }

  /** A distance reaches the spacing if and only if one nanosecond more, `limit` times over, exceeds a second. */
  lemma FarEnough(limit: int, window: int, d: int)
    requires limit >= 1
    ensures d >= Configured(limit, window).spacing <==> (d + 1) * limit > 1_000_000_000
  {
    Share(Configured(limit, window).spacing, limit, SECOND, d);
  }

  /** Two admissions of one address are a second's share apart, or a whole window when that is less. */
  lemma ConfiguredSpacing(limit: int, window: int, events: seq<Event>, ip: string, i: nat, j: nat) returns (d: int)
    requires InOrder(events) && i < j < |Admissions(Configured(limit, window), events, ip)|
    ensures d == Admissions(Configured(limit, window), events, ip)[j]
                 - Admissions(Configured(limit, window), events, ip)[i]
    ensures limit >= 1 && ((d + 1) * limit > 1_000_000_000 || d >= window)
    ensures window >= 1_000_000_000 ==> (d + 1) * limit > 1_000_000_000
  {
    var c := Configured(limit, window);
    d := Admissions(c, events, ip)[j] - Admissions(c, events, ip)[i];
    SomeAdmitted(c, events, ip);
    AdmissionsSpaced(c, events, ip, i, j);
    FarEnough(limit, window, d);
  }

  lemma SomeAdmitted(c: Config, events: seq<Event>, ip: string)
    requires Sane(c) && InOrder(events) && Admissions(c, events, ip) != []
    ensures c.limit >= 1
  {
    var k := TracksRun(c, events, ip, events[|events| - 1].at);
  }

  lemma {:induction false} InsideAll(log: seq<Time>, now: Time, width: int)
    requires forall i :: 0 <= i < |log| ==> log[i] <= now
    ensures Inside(log, now - width, width) == |Recent(log, now - width)|
  {
    if log != [] {
      InsideAll(log[..|log| - 1], now, width);
    }
  }

  lemma AdmissionsPast(c: Config, events: seq<Event>, ip: string, now: Time)
    requires Sane(c) && InOrder(events) && NotAfter(events, now)
    ensures forall i :: 0 <= i < |Admissions(c, events, ip)| ==> Admissions(c, events, ip)[i] <= now
  {
    var k := TracksRun(c, events, ip, now);
  }

  lemma AllowedBySpacing(c: Config, log: seq<Time>, now: Time) returns (n: nat)
    requires forall i :: 0 <= i < |log| ==> log[i] <= now
    ensures n == Inside(log, now - c.window, c.window) && (n > 0 ==> log != [])
    ensures Allowed(c, log, now) <==> n < c.limit && (n > 0 ==> now - log[|log| - 1] >= c.spacing)
  {
    n := Inside(log, now - c.window, c.window);
    InsideAll(log, now, c.window);
  }

  lemma ConfiguredRoomy(limit: int, window: int)
    ensures Roomy(Configured(limit, window))
       <==> limit < 1 || window <= 3_600_000_000_001 + (limit - 1) * (1_000_000_000 / limit)
  {
  }

  lemma Decides(c: Config, events: seq<Event>, ip: string, now: Time)
    requires Sane(c) && InOrder(events) && NotAfter(events, now) && (OnlyChecks(events) || Roomy(c))
    ensures Admits(c, events, ip, now) == Allowed(c, Admissions(c, events, ip), now)
  {
    if OnlyChecks(events) {
      FaithfulWithoutCleanups(c, events, ip, now);
    } else {
      Faithful(c, events, ip, now);
    }
  }

  lemma AllowedInNumbers(limit: int, window: int, log: seq<Time>, now: Time) returns (n: nat)
    requires forall i :: 0 <= i < |log| ==> log[i] <= now
    ensures n == Inside(log, now - window, window) && (n > 0 ==> log != [])
    ensures Allowed(Configured(limit, window), log, now)
       <==> n < limit && (n > 0 ==> (now - log[|log| - 1] + 1) * limit > 1_000_000_000)
  {
    n := AllowedBySpacing(Configured(limit, window), log, now);
    if limit >= 1 && n > 0 {
      FarEnough(limit, window, now - log[|log| - 1]);
    }
  }

  /**
   The decision, in numbers: fewer admissions than the limit lie in the window that ends now, and the latest of
   them, if there is any, is a second's share old.
   */
  lemma ConfiguredDecision(limit: int, window: int, events: seq<Event>, ip: string, now: Time)
    returns (log: seq<Time>, n: nat)
    requires InOrder(events) && NotAfter(events, now)
    requires OnlyChecks(events) || limit < 1 || window <= 3_600_000_000_001 + (limit - 1) * (1_000_000_000 / limit)
    ensures log == Admissions(Configured(limit, window), events, ip)
    ensures n == Inside(log, now - window, window) && (n > 0 ==> log != [])
    ensures Admits(Configured(limit, window), events, ip, now)
       <==> n < limit && (n > 0 ==> (now - log[|log| - 1] + 1) * limit > 1_000_000_000)
  {
    var c := Configured(limit, window);
    ConfiguredRoomy(limit, window);
    Decides(c, events, ip, now);
    AdmissionsPast(c, events, ip, now);
    log := Admissions(c, events, ip);
    n := AllowedInNumbers(limit, window, log, now);
  }

  /** The windows in which a limiter never admits more than its limit, in every run with cleanups anywhere. */
  lemma ConfiguredBound(limit: int, window: int)
    ensures limit < 1 || window <= 3_600_000_000_001 + (limit - 1) * (1_000_000_000 / limit)
       <==> (forall events, ip, a :: InOrder(events) ==>
               Inside(Admissions(Configured(limit, window), events, ip), a, window) <= Max(0, limit))
  {
    ConfiguredRoomy(limit, window);
    WindowBoundExactly(Configured(limit, window));
  }

  /** A tracker that was never evicted has counted every admission. */
  lemma {:induction false} AttemptsCounted(c: Config, events: seq<Event>, ip: string)
    requires OnlyChecks(events)
    ensures TrackerOf(After(c, events), ip).totalAttempts == |Admissions(c, events, ip)|
    decreases |events|
  {
    if events != [] {
      AttemptsCounted(c, events[..|events| - 1], ip);
    }
  }

  /** After a cleanup exactly the addresses admitted in the past hour are tracked. */
  lemma TrackedAfterCleanup(c: Config, events: seq<Event>, ip: string, now: Time)
    requires Sane(c) && InOrder(events) && NotAfter(events, now)
    ensures var log := Admissions(c, events, ip);
            ip in Next(c, After(c, events), Event(now, Cleanup))
            <==> log != [] && now - log[|log| - 1] <= 3_600_000_000_000
  {
    var k := TracksRun(c, events, ip, now);
  }
}
