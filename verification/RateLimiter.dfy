/**
 The authentication rate limiter: per client key a fixed window of attempts, a block of two windows
 for exceeding it, a block of three windows for failing at the limit, and an eviction of records idle
 for ten windows. Times are integers on a clock that never goes back.
 */
module RateLimiter {
  import opened Options

  type Time = int

  datatype Config = Config(maxAttempts: int, window: int)

  datatype Record = Record(count: int, firstTime: Time, lastTime: Time, blocked: bool, blockUntil: Time)

  // ----- One key's record -----

  function Fresh(now: Time, blockUntil: Time): Record {
    Record(1, now, now, false, blockUntil)
  }

  /** The decision of `Allow` and the record it leaves. */
  function Attempt(c: Config, r: Option<Record>, now: Time): (bool, Record) {
    if r.None? then (true, Fresh(now, 0))
    else
      var record := r.value;
      if record.blocked && now < record.blockUntil then (false, record)
      else if now - record.firstTime > c.window then (true, Fresh(now, record.blockUntil))
      else
        var counted := record.(count := record.count + 1, lastTime := now);
        if counted.count > c.maxAttempts then (false, counted.(blocked := true, blockUntil := now + c.window * 2))
        else (true, counted)
  }

  function Penalize(c: Config, r: Option<Record>, now: Time): Option<Record> {
    if r.Some? && r.value.count >= c.maxAttempts
    then Some(r.value.(blocked := true, blockUntil := now + c.window * 3))
    else r
  }

  predicate Stale(c: Config, record: Record, now: Time) {
    now - record.lastTime > c.window * 10
  }

  // ----- The limiter -----

  class Limiter {
    const config: Config
    var attempts: map<string, Record>

    constructor (maxAttempts: int, window: int)
      ensures config == Config(maxAttempts, window) && attempts == map[]
    {
      config := Config(maxAttempts, window);
      attempts := map[];
    }

    method Allow(client: string, now: Time) returns (granted: bool)
      modifies this
      ensures var (g, record) := Attempt(config, Lookup(old(attempts), client), now);
              granted == g && attempts == old(attempts)[client := record]
    {
      if client !in attempts {
        attempts := attempts[client := Record(1, now, now, false, 0)];
        return true;
      }
      var record := attempts[client];
      if record.blocked && now < record.blockUntil {
        assert attempts == attempts[client := record];
        return false;
      }
      if now - record.firstTime > config.window {
        attempts := attempts[client := record.(count := 1, firstTime := now, lastTime := now, blocked := false)];
        return true;
      }
      record := record.(count := record.count + 1, lastTime := now);
      granted := record.count <= config.maxAttempts;
      if !granted {
        record := record.(blocked := true, blockUntil := now + config.window * 2);
      }
      attempts := attempts[client := record];
    }

    method RecordFailure(client: string, now: Time)
      modifies this
      ensures attempts == Update(old(attempts), client, Penalize(config, Lookup(old(attempts), client), now))
    {
      if client !in attempts {
        return;
      }
      var record := attempts[client];
      if record.count >= config.maxAttempts {
        attempts := attempts[client := record.(blocked := true, blockUntil := now + config.window * 3)];
      }
    }

    method Reset(client: string)
      modifies this
      ensures attempts == Update(old(attempts), client, None)
    {
      attempts := attempts - {client};
    }

    /** One tick of the cleanup loop. */
    method Cleanup(now: Time)
      modifies this
      ensures attempts == Kept(config, old(attempts), now)
    {
      var keys := attempts.Keys;
      while keys != {}
        invariant keys <= old(attempts).Keys
        invariant attempts == map k | k in old(attempts) && (k in keys || !Stale(config, old(attempts)[k], now)) ::
                                old(attempts)[k]
        decreases keys
      {
        var client :| client in keys;
        keys := keys - {client};
        if Stale(config, attempts[client], now) {
          attempts := attempts - {client};
        }
      }
    }
  }

  function Lookup(attempts: map<string, Record>, client: string): Option<Record> {
    if client in attempts then Some(attempts[client]) else None
  }

  function Update(attempts: map<string, Record>, client: string, r: Option<Record>): map<string, Record> {
    match r
    case None => attempts - {client}
    case Some(record) => attempts[client := record]
  }

  function Kept(c: Config, attempts: map<string, Record>, now: Time): map<string, Record> {
    map k | k in attempts && !Stale(c, attempts[k], now) :: attempts[k]
  }

  // ----- Runs -----

  datatype Kind = Allow(client: string) | RecordFailure(client: string) | Reset(client: string) | Cleanup

  datatype Event = Event(at: Time, kind: Kind)

  function Next(c: Config, attempts: map<string, Record>, e: Event): map<string, Record> {
    match e.kind
    case Allow(k) => attempts[k := Attempt(c, Lookup(attempts, k), e.at).1]
    case RecordFailure(k) => Update(attempts, k, Penalize(c, Lookup(attempts, k), e.at))
    case Reset(k) => Update(attempts, k, None)
    case Cleanup => Kept(c, attempts, e.at)
  }

  predicate Grants(c: Config, attempts: map<string, Record>, e: Event, client: string) {
    e.kind == Allow(client) && Attempt(c, Lookup(attempts, client), e.at).0
  }

  function After(c: Config, attempts: map<string, Record>, events: seq<Event>): map<string, Record> {
    if events == [] then attempts else Next(c, After(c, attempts, events[..|events| - 1]), events[|events| - 1])
  }

  /** How many attempts of one client between two times, both included, were granted. */
  function GrantsIn(c: Config, attempts: map<string, Record>, events: seq<Event>, client: string,
                    from: Time, to: Time): nat
  {
    if events == [] then 0 else
      var front, last := events[..|events| - 1], events[|events| - 1];
      GrantsIn(c, attempts, front, client, from, to)
      + (if from <= last.at <= to && Grants(c, After(c, attempts, front), last, client) then 1 else 0)
  }

  ghost predicate InOrder(events: seq<Event>) {
    forall i, j :: 0 <= i < j < |events| ==> events[i].at <= events[j].at
  }

  ghost predicate NoReset(events: seq<Event>, client: string) {
    forall i :: 0 <= i < |events| ==> events[i].kind != Reset(client)
  }

  /** What one event does to one client's record, whatever the others' are. */
  function Own(c: Config, r: Option<Record>, e: Event, client: string): Option<Record> {
    match e.kind
    case Allow(k) => if k == client then Some(Attempt(c, r, e.at).1) else r
    case RecordFailure(k) => if k == client then Penalize(c, r, e.at) else r
    case Reset(k) => if k == client then None else r
    case Cleanup => if r.Some? && Stale(c, r.value, e.at) then None else r
  }

  /** Clients do not influence each other. */
  lemma Independent(c: Config, attempts: map<string, Record>, e: Event, client: string)
    ensures Lookup(Next(c, attempts, e), client) == Own(c, Lookup(attempts, client), e, client)
  {
  }
}
