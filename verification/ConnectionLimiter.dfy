/**
 The per-address connection limiter: a log of recent admissions, a least distance between them, and
 an eviction of logs whose latest admission is older than an hour. Times are nanoseconds on a clock
 that never goes back; an address that was never admitted has no latest admission.
 */
module ConnectionLimiter {
  import opened Options

  type Time = int

  const SECOND := 1_000_000_000
  const HOUR := 3600 * SECOND

  /** `spacing` is the least distance between two admissions in a window, derived from the limit. */
  datatype Config = Config(limit: int, window: int, spacing: int)

  lemma Quotient(limit: int)
    requires limit > 0
    ensures SECOND / limit * limit <= SECOND < (SECOND / limit + 1) * limit
  {
  }

  /** A limit that is not positive admits nothing before its spacing is looked at. */
  function Configured(limit: int, window: int): (c: Config)
    ensures Sane(c) && c.limit == limit && c.window == window
    ensures limit > 0 ==> c.spacing * limit <= SECOND < (c.spacing + 1) * limit
  {
    Config(limit, window, if limit > 0 then SECOND / limit else 0)
  }

  predicate Sane(c: Config) {
    0 <= c.spacing <= SECOND
  }

  datatype Tracker = Tracker(connections: seq<Time>, lastConnection: Option<Time>, totalAttempts: nat)

  const UNSEEN := Tracker([], None, 0)

  // ----- One decision -----

  /** The times after the cutoff, in order. */
  function Recent(times: seq<Time>, cutoff: Time): seq<Time> {
    if times == [] then [] else
      var front, last := times[..|times| - 1], times[|times| - 1];
      if last > cutoff then Recent(front, cutoff) + [last] else Recent(front, cutoff)
  }

  predicate Admissible(c: Config, recent: seq<Time>, last: Option<Time>, now: Time) {
    |recent| < c.limit && (recent != [] && last.Some? ==> now - last.value >= c.spacing)
  }

  /** The decision on a new connection and the tracker it leaves. */
  function Checked(c: Config, t: Tracker, now: Time): (bool, Tracker) {
    var recent := Recent(t.connections, now - c.window);
    if Admissible(c, recent, t.lastConnection, now)
    then (true, Tracker(recent + [now], Some(now), t.totalAttempts + 1))
    else (false, t.(connections := recent))
  }

  predicate Idle(t: Tracker, now: Time) {
    t.lastConnection.None? || t.lastConnection.value < now - HOUR
  }

  function TrackerOf(rates: map<string, Tracker>, ip: string): Tracker {
    if ip in rates then rates[ip] else UNSEEN
  }

  // ----- The limiter -----

  class Limiter {
    const config: Config
    var rates: map<string, Tracker>

    constructor (limit: int, window: int)
      ensures config == Configured(limit, window) && rates == map[]
    {
      config := Configured(limit, window);
      rates := map[];
    }

    method CheckConnectionRate(ip: string, now: Time) returns (admitted: bool)
      modifies this
      ensures var (a, tracker) := Checked(config, TrackerOf(old(rates), ip), now);
              admitted == a && rates == old(rates)[ip := tracker]
    {
      if ip !in rates {
        rates := rates[ip := UNSEEN];
      }
      var tracker := rates[ip];
      var cutoff := now - config.window;
      var valid: seq<Time> := [];
      for i := 0 to |tracker.connections|
        invariant valid == Recent(tracker.connections[..i], cutoff)
      {
        assert tracker.connections[..i + 1][..i] == tracker.connections[..i];
        if tracker.connections[i] > cutoff {
          valid := valid + [tracker.connections[i]];
        }
      }
      assert tracker.connections[..|tracker.connections|] == tracker.connections;
      rates := rates[ip := tracker.(connections := valid)];
      if |valid| >= config.limit {
        return false;
      }
      if |valid| > 0 && tracker.lastConnection.Some? && now - tracker.lastConnection.value < config.spacing {
        return false;
      }
      rates := rates[ip := Tracker(valid + [now], Some(now), tracker.totalAttempts + 1)];
      return true;
    }

    method Cleanup(now: Time)
      modifies this
      ensures rates == Kept(old(rates), now)
    {
      var addresses := rates.Keys;
      while addresses != {}
        invariant addresses <= old(rates).Keys
        invariant rates == map ip | ip in old(rates) && (ip in addresses || !Idle(old(rates)[ip], now)) ::
                             old(rates)[ip]
        decreases addresses
      {
        var ip :| ip in addresses;
        addresses := addresses - {ip};
        if Idle(rates[ip], now) {
          rates := rates - {ip};
        }
      }
    }
  }

  function Kept(rates: map<string, Tracker>, now: Time): map<string, Tracker> {
    map ip | ip in rates && !Idle(rates[ip], now) :: rates[ip]
  }

  // ----- Runs -----

  datatype Kind = Check(ip: string) | Cleanup

  datatype Event = Event(at: Time, kind: Kind)

  function Next(c: Config, rates: map<string, Tracker>, e: Event): map<string, Tracker> {
    match e.kind
    case Check(ip) => rates[ip := Checked(c, TrackerOf(rates, ip), e.at).1]
    case Cleanup => Kept(rates, e.at)
  }

  function After(c: Config, events: seq<Event>): map<string, Tracker> {
    if events == [] then map[] else Next(c, After(c, events[..|events| - 1]), events[|events| - 1])
  }

  /** Whether the limiter, after these events, admits a connection. */
  predicate Admits(c: Config, events: seq<Event>, ip: string, now: Time) {
    Checked(c, TrackerOf(After(c, events), ip), now).0
  }

  /** The admissions of one address. */
  function Admissions(c: Config, events: seq<Event>, ip: string): seq<Time> {
    if events == [] then [] else
      var front, last := events[..|events| - 1], events[|events| - 1];
      if last.kind == Check(ip) && Admits(c, front, ip, last.at)
      then Admissions(c, front, ip) + [last.at]
      else Admissions(c, front, ip)
  }

  ghost predicate InOrder(events: seq<Event>) {
    forall i, j :: 0 <= i < j < |events| ==> events[i].at <= events[j].at
  }

  ghost predicate NotAfter(events: seq<Event>, now: Time) {
    forall i :: 0 <= i < |events| ==> events[i].at <= now
  }

  // ----- A limiter that never forgets -----

  function Last(log: seq<Time>): Option<Time> {
    if log == [] then None else Some(log[|log| - 1])
  }

  /** The same rule applied to the whole log of admissions. */
  predicate Allowed(c: Config, log: seq<Time>, now: Time) {
    Admissible(c, Recent(log, now - c.window), Last(log), now)
  }
}
