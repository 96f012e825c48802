/**
 The expiry sweep (internal/controller/agentgatewaysession_expiry.go): the backstop
 that revokes keys no teardown ever reached.
 */
module Expiry {
  import opened Common
  import opened Budget
  import opened Registration

  /** The data of one registration ConfigMap. */
  type Data = map<string, Payload>

  /** An entry that reads, is dated, and whose date has passed. */
  predicate EntryExpired(p: Payload, now: nat) {
    && p.Json?
    && EXPIRES_AT_KEY in p.entry.metadata
    && var at := ParseTime(p.entry.metadata[EXPIRES_AT_KEY]);
       at.Some? && now >= at.value
  }

  /** Every entry has expired, and there is one. */
  predicate Expired(data: Data, now: nat) {
    data != map[] && forall k | k in data :: EntryExpired(data[k], now)
  }

  method IsExpired(data: Data, now: nat) returns (expired: bool)
    ensures expired <==> Expired(data, now)
  {
    if |data| == 0 {
      return false;
    }
    var left := data.Keys;
    while left != {}
      invariant left <= data.Keys
      invariant forall k | k in data.Keys - left :: EntryExpired(data[k], now)
      decreases |left|
    {
      var k :| k in left;
      if data[k].Garbage? {
        return false;
      }
      var entry := data[k].entry;
      if EXPIRES_AT_KEY !in entry.metadata {
        return false;
      }
      var at := ParseTime(entry.metadata[EXPIRES_AT_KEY]);
      if at.None? || now < at.value {
        return false;
      }
      left := left - {k};
    }
    return true;
  }

  /** The registrations a sweep deletes by name. */
  function Revoked(listed: map<string, Data>, now: nat, stubborn: set<string>): set<string> {
    set n | n in listed && Expired(listed[n], now) && n !in stubborn
  }

  /** A sweep of a whole namespace; deleting some of the objects may fail. */
  function SweepAfter(registrations: map<string, Data>, now: nat, stubborn: set<string>): map<string, Data> {
    registrations - Revoked(registrations, now, stubborn)
  }

  /** What others did to single registrations after the listing: rewrote them, or removed them. */
  type Rewrites = map<string, Option<Data>>

  function Rewritten(registrations: map<string, Data>, others: Rewrites): map<string, Data> {
    map n | n in registrations.Keys + others.Keys && (n in others ==> others[n].Some?) ::
      if n in others then others[n].value else registrations[n]
  }

  /** A sweep judges what it listed and deletes by name, whatever is stored there by then. */
  function RacedSweepAfter(listed: map<string, Data>, others: Rewrites, now: nat, stubborn: set<string>)
    : map<string, Data>
  {
    Rewritten(listed, others) - Revoked(listed, now, stubborn)
  }

  class Sweeper {
    var registrations: map<string, Data>

    constructor (initial: map<string, Data>)
      ensures registrations == initial
    {
      registrations := initial;
    }

    /**
     One stubborn registration does not stop the others being swept. `others` happens
     between the listing and the deletions.
     */
    method Sweep(namespace: Result<string, ()>, now: nat, others: Rewrites, stubborn: set<string>) returns (ok: bool)
      modifies this
      ensures ok <==> namespace.Ok?
      ensures registrations ==
              if namespace.Ok? && namespace.value != "" then RacedSweepAfter(old(registrations), others, now, stubborn)
              else old(registrations)
    {
      if namespace.Err? {
        return false;
      }
      if namespace.value == "" {
        return true;
      }
      var listed := registrations;
      registrations := Rewritten(registrations, others);
      DeleteExpired(listed, now, stubborn);
      return true;
    }

    method DeleteExpired(listed: map<string, Data>, now: nat, stubborn: set<string>)
      modifies this
      ensures registrations == old(registrations) - Revoked(listed, now, stubborn)
    {
      var left := listed.Keys;
      ghost var stored := registrations;
      ghost var gone: set<string> := {};
      assert stored - gone == stored;
      while left != {}
        invariant left <= listed.Keys
        invariant gone == Revoked(listed, now, stubborn) - left
        invariant registrations == stored - gone
        decreases |left|
      {
        var n :| n in left;
        left := left - {n};
        var expired := IsExpired(listed[n], now);
        if !expired {
          continue;
        }
        if n in stubborn {
          continue;
        }
        registrations := registrations - {n};
        MinusTwice(stored, gone, {n});
        gone := gone + {n};
      }
    }
  }

  /** Left alone between listing and deleting, a sweep takes exactly what has expired. */
  lemma UnracedSweep(registrations: map<string, Data>, now: nat, stubborn: set<string>)
    ensures RacedSweepAfter(registrations, map[], now, stubborn) == SweepAfter(registrations, now, stubborn)
  {
  }

  // ----- What a sweep leaves -----

  /**
   Without delete errors, a registration is left exactly when it is empty or some entry
   is unreadable, undated or live.
   */
  lemma SweepLeaves(registrations: map<string, Data>, now: nat, n: string)
    requires n in registrations
    ensures n in SweepAfter(registrations, now, {}) <==>
            || registrations[n] == map[]
            || exists k :: k in registrations[n] &&
                 match registrations[n][k]
                 case Garbage(_) => true
                 case Json(entry) =>
                   || EXPIRES_AT_KEY !in entry.metadata
                   || ParseTime(entry.metadata[EXPIRES_AT_KEY]).None?
                   || now < ParseTime(entry.metadata[EXPIRES_AT_KEY]).value
    ensures n in SweepAfter(registrations, now, {}) ==> SweepAfter(registrations, now, {})[n] == registrations[n]
  {
    var data := registrations[n];
    if data != map[] && !Expired(data, now) {
      var k :| k in data && !EntryExpired(data[k], now);
    }
  }

  /**
   The date a pass writes is creation plus lifetime in every pass, under every
   catalog and with every key, so re-reconciling never moves the moment a
   registration is swept.
   */
  lemma DateNeverMoves(grant: Grant, key: string, c: Catalog, now: nat)
    ensures Expired(map[grant.name := Json(DesiredEntry(grant, key, c))], now) <==>
            now >= grant.created + (match grant.ttl case Seconds(n) => n case _ => 14_400)
  {
    DesiredFields(grant, key, c);
    var data := map[grant.name := Json(DesiredEntry(grant, key, c))];
    assert grant.name in data;
  }

  // ----- What a sweep may take by mistake -----

  /** A registration that is there and not fully expired at the deletions is taken. */
  ghost predicate TakesLive(listed: map<string, Data>, others: Rewrites, now: nat, stubborn: set<string>, n: string) {
    var stored := Rewritten(listed, others);
    && n in stored && !Expired(stored[n], now)
    && n !in RacedSweepAfter(listed, others, now, stubborn)
  }

  /** Only what was rewritten after an expired listing is taken by mistake, and all of it that can be deleted. */
  lemma TakesLiveIff(listed: map<string, Data>, others: Rewrites, now: nat, stubborn: set<string>, n: string)
    ensures TakesLive(listed, others, now, stubborn, n) <==>
            && n in listed && Expired(listed[n], now) && n !in stubborn
            && n in others && others[n].Some? && !Expired(others[n].value, now)
  {
  }

  /**
   A pass that rewrites an expired registration between the listing and the deletion
   loses it while live exactly when its grant's own expiry is still to come. So a
   grant that stayed as it was never does: its date does not move.
   */
  lemma RewriteTakenIff(listed: map<string, Data>, now: nat, grant: Grant, key: string, c: Catalog)
    requires grant.name in listed && Expired(listed[grant.name], now)
    ensures var rewrite := map[grant.name := Json(DesiredEntry(grant, key, c))];
            TakesLive(listed, map[grant.name := Some(rewrite)], now, {}, grant.name) <==> now < grant.Expiry()
  {
    var rewrite := map[grant.name := Json(DesiredEntry(grant, key, c))];
    DateNeverMoves(grant, key, c, now);
    TakesLiveIff(listed, map[grant.name := Some(rewrite)], now, {}, grant.name);
  }

  lemma UnchangedGrantIsSafe(listed: map<string, Data>, now: nat, grant: Grant,
                             key: string, c: Catalog, newKey: string, newer: Catalog)
    requires grant.name in listed && listed[grant.name] == map[grant.name := Json(DesiredEntry(grant, key, c))]
    ensures var rewrite := map[grant.name := Json(DesiredEntry(grant, newKey, newer))];
            !TakesLive(listed, map[grant.name := Some(rewrite)], now, {}, grant.name)
  {
    var rewrite := map[grant.name := Json(DesiredEntry(grant, newKey, newer))];
    DateNeverMoves(grant, key, c, now);
    DateNeverMoves(grant, newKey, newer, now);
    TakesLiveIff(listed, map[grant.name := Some(rewrite)], now, {}, grant.name);
  }

  /** How it happens: a grant of the same name is created anew just as the old one's registration is swept. */
  lemma RecreatedGrantIsTaken(key: string, c: Catalog, newKey: string, now: nat)
    requires DEFAULT_TTL_SECONDS <= now
    ensures var first := Grant("s1", "workshop", "", None, "", "", Unset, 0);
            var second := first.(created := now);
            var listed := map["s1" := map["s1" := Json(DesiredEntry(first, key, c))]];
            TakesLive(listed, map["s1" := Some(map["s1" := Json(DesiredEntry(second, newKey, c))])], now, {}, "s1")
  {
    var first := Grant("s1", "workshop", "", None, "", "", Unset, 0);
    var listed := map["s1" := map["s1" := Json(DesiredEntry(first, key, c))]];
    DateNeverMoves(first, key, c, now);
    RewriteTakenIff(listed, now, first.(created := now), newKey, c);
  }

  lemma ExpiredStays(data: Data, now: nat, later: nat)
    requires Expired(data, now) && now <= later
    ensures Expired(data, later)
  {
  }

  lemma NotYetExpired(data: Data, now: nat, later: nat)
    requires !Expired(data, now) && Expired(data, later)
    ensures now < later
  {
    if later <= now {
      ExpiredStays(data, later, now);
    }
  }

  // ----- Exposure over a run -----

  datatype Registered = Registered(data: Data, since: nat)

  /** Registrations with the time each was last written, the clock, and the last complete sweep. */
  datatype Timeline = Timeline(registrations: map<string, Registered>, now: nat, lastSweep: nat)

  datatype Event =
    | Elapse(seconds: nat)                       // time passes
    | Write(name: string, data: Data)     // created or rewritten, by anyone
    | Remove(name: string)
    | SweepRuns

  function Happen(t: Timeline, e: Event): Timeline {
    match e
    case Elapse(seconds) => t.(now := t.now + seconds)
    case Write(name, data) => t.(registrations := t.registrations[name := Registered(data, t.now)])
    case Remove(name) => t.(registrations := t.registrations - {name})
    case SweepRuns =>
      var plain := map n | n in t.registrations :: t.registrations[n].data;
      var kept := SweepAfter(plain, t.now, {});
      t.(registrations := map n | n in t.registrations && n in kept :: t.registrations[n], lastSweep := t.now)
  }

  /** Complete sweeps are never more than `gap` apart. */
  ghost predicate Punctual(t: Timeline, events: seq<Event>, gap: nat)
    decreases |events|
  {
    t.now - t.lastSweep <= gap && (events != [] ==> Punctual(Happen(t, events[0]), events[1..], gap))
  }

  function After(t: Timeline, events: seq<Event>): Timeline
    decreases |events|
  {
    if events == [] then t else After(Happen(t, events[0]), events[1..])
  }

  function Max(a: nat, b: nat): nat {
    if a < b then b else a
  }

  /** Whatever is there was written after the last sweep, or had not expired by then. */
  ghost predicate Swept(t: Timeline) {
    && t.lastSweep <= t.now
    && (forall n | n in t.registrations :: t.registrations[n].since <= t.now)
    && (forall n, e: nat | n in t.registrations && Expired(t.registrations[n].data, e) ::
          t.lastSweep <= Max(e, t.registrations[n].since))
  }

  lemma EventKeepsSwept(t: Timeline, e: Event)
    requires Swept(t)
    ensures Swept(Happen(t, e))
  {
    var u := Happen(t, e);
    if e.SweepRuns? {
      forall n, at: nat | n in u.registrations && Expired(u.registrations[n].data, at)
        ensures u.lastSweep <= Max(at, u.registrations[n].since)
      {
        NotYetExpired(u.registrations[n].data, t.now, at);
      }
    }
  }

  ghost predicate Bounded(t: Timeline, gap: nat) {
    forall n, e: nat | n in t.registrations && Expired(t.registrations[n].data, e) ::
      t.now <= Max(e, t.registrations[n].since) + gap
  }

  /**
   Bounded exposure. With sweeps at most `gap` apart, over any run of writes,
   removals and time, no readable and fully expired registration is still there
   more than `gap` past the later of its expiry and its last writing.
   */
  lemma {:induction false} ExposureBounded(t: Timeline, events: seq<Event>, gap: nat)
    requires Swept(t) && Punctual(t, events, gap)
    ensures Bounded(After(t, events), gap)
    decreases |events|
  {
    if events != [] {
      EventKeepsSwept(t, events[0]);
      ExposureBounded(Happen(t, events[0]), events[1..], gap);
    } else {
      forall n, e: nat | n in t.registrations && Expired(t.registrations[n].data, e)
        ensures t.now <= Max(e, t.registrations[n].since) + gap
      {
        assert t.lastSweep <= Max(e, t.registrations[n].since);
      }
    }
  }
}
