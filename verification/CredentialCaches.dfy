/**
  The credential cache (src/credential_cache.cpp): one load at a time per key, and invalidation
  racing loads. Every step below is one critical section of its mutex; the loads happen between
  them, and any interleaving of steps is a run. `clock` numbers the steps.
*/
module CredentialCaches {
  import opened Numbers
  import opened Configs

  /** `kind` stands for the provider; `scope` is Configs.Key, and the path of a custom key is a
      requested path for loads and a cache prefix for entries. */
  datatype CacheKey = Native(kind: nat, scope: string) | Custom(kind: nat, path: string)

  /** `present` says that some field is not empty; `expiresAt` is 0 when there is no expiry. */
  datatype Credentials = Credentials(secret: string, present: bool, expiresAt: int, cachePrefix: string)

  datatype Loaded = Loaded(credentials: Credentials) | Failed

  /** `flight` remembers which load an entry came from. */
  datatype Entry = Entry(credentials: Credentials, refreshAt: int, flight: nat)

  datatype Flight = Flight(key: CacheKey, started: nat, invalidated: bool, result: Option<Loaded>)

  /** `flights` maps to indices of `records`, which stand for the shared flight objects. */
  datatype Cache = Cache(entries: map<CacheKey, Entry>, flights: map<CacheKey, nat>, records: seq<Flight>, clock: nat)

  /** What a caller finds: credentials, a load to wait for, or the duty to load. */
  datatype Answer = Hit(credentials: Credentials, from: nat) | Join(flight: nat) | Lead(flight: nat)

  // ------------------------------------------------------------------ reuse

  const STATIC_TTL: int := 60
  const NEVER: int := 0x7FFF_FFFF_FFFF_FFFF

  function RefreshTime(credentials: Credentials, now: int, refreshStatic: bool): int
  {
    if credentials.expiresAt == 0 then if refreshStatic then now + STATIC_TTL else NEVER
    else if credentials.expiresAt <= now then now
    else
      var lifetime := credentials.expiresAt - now;
      var margin := Max(1, Min(lifetime / 10, 60));
      if credentials.expiresAt - margin > now + 1 then credentials.expiresAt - margin else now + 1
  }

  predicate Reusable(entry: Entry, now: int)
  {
    now < entry.refreshAt && (entry.credentials.expiresAt == 0 || now < entry.credentials.expiresAt)
  }

  /** Credentials that expire are refreshed between one second and one minute ahead, or a tenth of
      their lifetime ahead in between; they are always reusable right away and never once expired. */
  lemma RefreshIsTimely(credentials: Credentials, now: int, later: int, refreshStatic: bool, flight: nat)
    requires credentials.expiresAt > now && credentials.expiresAt != 0 && later >= now
    ensures
      var entry := Entry(credentials, RefreshTime(credentials, now, refreshStatic), flight);
      var lifetime, ahead := credentials.expiresAt - now, credentials.expiresAt - entry.refreshAt;
      && Reusable(entry, now)
      && (Reusable(entry, later) <==> later < entry.refreshAt)
      && (lifetime == 1 ==> ahead == 0)
      && (1 < lifetime < 20 ==> ahead == 1)
      && (20 <= lifetime < 600 ==> ahead == lifetime / 10)
      && (600 <= lifetime ==> ahead == 60)
  {}

  /** A load that returns expired credentials counts as failed. */
  function Checked(loaded: Loaded, at: int): Loaded
  {
    if loaded.Loaded? && loaded.credentials.expiresAt != 0 && loaded.credentials.expiresAt <= at then Failed else loaded
  }

  /** A custom provider may choose the scope of what it returns, but must cover the path. */
  function Scoped(loaded: Loaded, path: string): Loaded
  {
    if loaded.Failed? || loaded.credentials.cachePrefix == "" then loaded
    else
      var prefix := CanonicalPath(loaded.credentials.cachePrefix);
      if PrefixMatches(path, prefix) then Loaded(loaded.credentials.(cachePrefix := prefix)) else Failed
  }

  // ------------------------------------------------------------------ the critical sections

  predicate InFlight(s: Cache, f: nat) { f < |s.records| && s.records[f].result.None? }

  /** Nobody may reuse the entry found, if any: wait for the current load or lead a new one. */
  function JoinOrLead(s: Cache, key: CacheKey): (Cache, Answer)
  {
    if key in s.flights then (s.(clock := s.clock + 1), Join(s.flights[key]))
    else
      (s.(flights := s.flights[key := |s.records|], records := s.records + [Flight(key, s.clock, false, None)],
          clock := s.clock + 1),
       Lead(|s.records|))
  }

  function NativeEnter(s: Cache, key: CacheKey, now: int): (Cache, Answer)
  {
    if key in s.entries && Reusable(s.entries[key], now) then
      (s.(clock := s.clock + 1), Hit(s.entries[key].credentials, s.entries[key].flight))
    else JoinOrLead(s, key)
  }

  predicate Usable(s: Cache, kind: nat, path: string, now: int, key: CacheKey)
  {
    && key in s.entries && key.Custom? && key.kind == kind
    && PrefixMatches(path, s.entries[key].credentials.cachePrefix) && Reusable(s.entries[key], now)
  }

  /** The usable entry with the longest prefix. */
  ghost predicate IsBest(s: Cache, kind: nat, path: string, now: int, key: CacheKey)
  {
    && Usable(s, kind, path, now, key)
    && forall other | Usable(s, kind, path, now, other) ::
         |s.entries[other].credentials.cachePrefix| <= |s.entries[key].credentials.cachePrefix|
  }

  ghost predicate CustomEnter(s: Cache, s': Cache, answer: Answer, kind: nat, path: string, now: int)
  {
    if exists key :: Usable(s, kind, path, now, key) then
      exists key :: IsBest(s, kind, path, now, key)
                 && s' == s.(clock := s.clock + 1) && answer == Hit(s.entries[key].credentials, s.entries[key].flight)
    else (s', answer) == JoinOrLead(s, Custom(kind, path))
  }

  /** The end of a load: wake the waiters, and drop the flight only if it is still the current one. */
  function Land(s: Cache, f: nat, result: Loaded): Cache
    requires f < |s.records|
  {
    var key := s.records[f].key;
    s.(records := s.records[f := s.records[f].(result := Some(result))],
       flights := if key in s.flights && s.flights[key] == f then s.flights - {key} else s.flights,
       clock := s.clock + 1)
  }

  function NativePublish(s: Cache, f: nat, loaded: Loaded, at: int): Cache
    requires f < |s.records|
  {
    var result, flight := Checked(loaded, at), s.records[f];
    var stored := result.Loaded? && result.credentials.present && !flight.invalidated;
    Land(if stored then
           s.(entries :=
              s.entries[flight.key := Entry(result.credentials, RefreshTime(result.credentials, at, true), f)])
         else s, f, result)
  }

  function CustomPublish(s: Cache, f: nat, loaded: Loaded, at: int): Cache
    requires f < |s.records| && s.records[f].key.Custom?
  {
    var flight := s.records[f];
    var result := Checked(Scoped(loaded, flight.key.path), at);
    var stored := result.Loaded? && result.credentials.cachePrefix != "" && !flight.invalidated;
    Land(if stored then
           s.(entries := s.entries[Custom(flight.key.kind, result.credentials.cachePrefix) :=
                                     Entry(result.credentials, RefreshTime(result.credentials, at, false), f)])
         else s, f, result)
  }

  /** Marks the current load of `key` and forgets it, so that the next caller starts another. */
  function Supersede(s: Cache, key: CacheKey): Cache
  {
    var marked := s.(clock := s.clock + 1);
    if key in s.flights && s.flights[key] < |s.records| then
      var f := s.flights[key];
      marked.(flights := s.flights - {key}, records := s.records[f := s.records[f].(invalidated := true)])
    else marked
  }

  function InvalidateNative(s: Cache, key: CacheKey): Cache
  {
    Supersede(s.(entries := s.entries - {key}), key)
  }

  /** Every entry whose prefix covers the path goes, but only the load of this very path is marked. */
  function InvalidateCustom(s: Cache, kind: nat, path: string): Cache
  {
    var kept := map key | key in s.entries
                          && !(key.Custom? && key.kind == kind
                               && PrefixMatches(path, s.entries[key].credentials.cachePrefix))
                :: s.entries[key];
    Supersede(s, Custom(kind, path)).(entries := kept)
  }

  // ------------------------------------------------------------------ runs

  datatype Event =
    | EnterNative(key: CacheKey, now: int)
    | EnterCustom(kind: nat, path: string, now: int)
    | Publish(f: nat, loaded: Loaded, at: int)
    | Invalidate(key: CacheKey)

  ghost predicate Step(s: Cache, s': Cache, e: Event)
  {
    match e
    case EnterNative(key, now) => key.Native? && s' == NativeEnter(s, key, now).0
    case EnterCustom(kind, path, now) => exists answer :: CustomEnter(s, s', answer, kind, path, now)
    case Publish(f, loaded, at) =>
      InFlight(s, f)
      && s' == if s.records[f].key.Native? then NativePublish(s, f, loaded, at) else CustomPublish(s, f, loaded, at)
    case Invalidate(key) =>
      s' == if key.Native? then InvalidateNative(s, key) else InvalidateCustom(s, key.kind, key.path)
  }

  ghost predicate IsRunFrom(s: Cache, states: seq<Cache>, events: seq<Event>)
  {
    && |states| == |events| + 1 && states[0] == s
    && forall i {:trigger events[i]} | 0 <= i < |events| :: Step(states[i], states[i + 1], events[i])
  }

  const EMPTY: Cache := Cache(map[], map[], [], 0)

  // ------------------------------------------------------------------ the invariant

  /** The table of current loads holds exactly the loads that are neither finished nor invalidated,
      so there is at most one of them per key. */
  ghost predicate FlightsInv(s: Cache)
  {
    && (forall key | key in s.flights :: InFlight(s, s.flights[key]) && s.records[s.flights[key]].key == key
                                      && !s.records[s.flights[key]].invalidated)
    && (forall f | 0 <= f < |s.records| && InFlight(s, f) && !s.records[f].invalidated ::
          s.records[f].key in s.flights && s.flights[s.records[f].key] == f)
    && (forall f | 0 <= f < |s.records| :: s.records[f].started < s.clock)
  }

  ghost predicate EntriesInv(s: Cache)
  {
    forall key | key in s.entries ::
      && s.entries[key].flight < |s.records|
      && (key.Custom? ==> s.entries[key].credentials.cachePrefix == key.path)
      && (key.Native? ==> s.records[s.entries[key].flight].key == key)
  }

  ghost predicate Inv(s: Cache) { FlightsInv(s) && EntriesInv(s) }

  lemma JoinOrLeadKeepsInv(s: Cache, key: CacheKey)
    requires Inv(s)
    ensures Inv(JoinOrLead(s, key).0)
  {}

  lemma LandKeepsInv(s: Cache, f: nat, result: Loaded)
    requires Inv(s) && InFlight(s, f)
    ensures Inv(Land(s, f, result))
  {}

  lemma StoreKeepsInv(s: Cache, key: CacheKey, entry: Entry)
    requires Inv(s) && entry.flight < |s.records| && (key.Custom? ==> entry.credentials.cachePrefix == key.path)
    requires key.Native? ==> s.records[entry.flight].key == key
    ensures Inv(s.(entries := s.entries[key := entry]))
  {}

  lemma PublishKeepsInv(s: Cache, f: nat, loaded: Loaded, at: int)
    requires Inv(s) && InFlight(s, f)
    ensures s.records[f].key.Native? ==> Inv(NativePublish(s, f, loaded, at))
    ensures s.records[f].key.Custom? ==> Inv(CustomPublish(s, f, loaded, at))
  {
    hide Inv, Land, Scoped, RefreshTime;
    var flight := s.records[f];
    if flight.key.Native? {
      var result := Checked(loaded, at);
      LandKeepsInv(s, f, result);
      if result.Loaded? {
        var entry := Entry(result.credentials, RefreshTime(result.credentials, at, true), f);
        StoreKeepsInv(s, flight.key, entry);
        LandKeepsInv(s.(entries := s.entries[flight.key := entry]), f, result);
      }
    } else {
      var result := Checked(Scoped(loaded, flight.key.path), at);
      LandKeepsInv(s, f, result);
      if result.Loaded? {
        var entry := Entry(result.credentials, RefreshTime(result.credentials, at, false), f);
        var key := Custom(flight.key.kind, result.credentials.cachePrefix);
        StoreKeepsInv(s, key, entry);
        LandKeepsInv(s.(entries := s.entries[key := entry]), f, result);
      }
    }
  }

  lemma SupersedeKeepsInv(s: Cache, key: CacheKey)
    requires Inv(s)
    ensures Inv(Supersede(s, key)) && Supersede(s, key).entries == s.entries
  {}

  lemma FewerKeepsInv(s: Cache, kept: map<CacheKey, Entry>)
    requires Inv(s) && forall key | key in kept :: key in s.entries && kept[key] == s.entries[key]
    ensures Inv(s.(entries := kept))
  {}

  lemma InvalidateKeepsInv(s: Cache, key: CacheKey)
    requires Inv(s)
    ensures key.Native? ==> Inv(InvalidateNative(s, key))
    ensures key.Custom? ==> Inv(InvalidateCustom(s, key.kind, key.path))
  {
    hide Inv, Supersede, PrefixMatches;
    SupersedeKeepsInv(s, key);
    if key.Native? {
      FewerKeepsInv(s, s.entries - {key});
      SupersedeKeepsInv(s.(entries := s.entries - {key}), key);
    } else {
      FewerKeepsInv(Supersede(s, key), InvalidateCustom(s, key.kind, key.path).entries);
    }
  }

  lemma StepKeepsInv(s: Cache, s': Cache, e: Event)
    requires Inv(s) && Step(s, s', e)
    ensures Inv(s')
  {
    hide Inv, JoinOrLead;
    match e
    case EnterNative(key, now) => JoinOrLeadKeepsInv(s, key); TickKeepsInv(s);
    case EnterCustom(kind, path, now) => JoinOrLeadKeepsInv(s, Custom(kind, path)); TickKeepsInv(s);
    case Publish(f, loaded, at) => PublishKeepsInv(s, f, loaded, at);
    case Invalidate(key) => InvalidateKeepsInv(s, key);
  }

  lemma TickKeepsInv(s: Cache)
    requires Inv(s)
    ensures Inv(s.(clock := s.clock + 1))
  {}

  lemma {:induction false} RunKeepsInv(s: Cache, states: seq<Cache>, events: seq<Event>, n: nat)
    requires Inv(s) && IsRunFrom(s, states, events) && n < |states|
    ensures Inv(states[n])
  {
    hide Inv, Step;
    if n > 0 {
      RunKeepsInv(s, states, events, n - 1);
      var e := events[n - 1];
      StepKeepsInv(states[n - 1], states[n], e);
    }
  }

  /** At most one load per key that has not been invalidated is under way. */
  lemma SingleFlight(s: Cache, f: nat, g: nat)
    requires Inv(s) && InFlight(s, f) && InFlight(s, g) && s.records[f].key == s.records[g].key
    requires !s.records[f].invalidated && !s.records[g].invalidated
    ensures f == g
  {}

  /** So at any time of every run from the empty cache. */
  lemma RunIsSingleFlight(states: seq<Cache>, events: seq<Event>, n: nat, f: nat, g: nat)
    requires IsRunFrom(EMPTY, states, events) && n < |states|
    ensures Inv(states[n])
    ensures InFlight(states[n], f) && InFlight(states[n], g) && f != g ==>
              var x, y := states[n].records[f], states[n].records[g];
              x.key != y.key || x.invalidated || y.invalidated
  {
    EmptyIsInv();
    RunKeepsInv(EMPTY, states, events, n);
  }

  lemma EmptyIsInv()
    ensures Inv(EMPTY)
  {}

  /** A load that was superseded leaves its successor, and every entry, alone when it lands. */
  lemma SupersededFlightIsHarmless(s: Cache, f: nat, loaded: Loaded, at: int)
    requires Inv(s) && InFlight(s, f) && s.records[f].invalidated
    ensures
      var s' := if s.records[f].key.Native? then NativePublish(s, f, loaded, at) else CustomPublish(s, f, loaded, at);
      s'.flights == s.flights && s'.entries == s.entries
  {}

  // ------------------------------------------------------------------ invalidation of native keys

  /** The step in which a load began, that is, in which its leader left the first critical section. */
  function StartedBy(s: Cache, f: nat): nat { if f < |s.records| then s.records[f].started else 0 }

  function LoadOf(answer: Answer): nat { if answer.Hit? then answer.from else answer.flight }

  /** Nothing a caller of `key` can get comes from a load that began before step `since`. */
  ghost predicate FreshNative(s: Cache, key: CacheKey, since: nat)
  {
    && since <= s.clock
    && (key in s.entries ==> StartedBy(s, s.entries[key].flight) >= since)
    && (key in s.flights ==> StartedBy(s, s.flights[key]) >= since)
  }

  lemma LandKeepsFreshNative(s: Cache, f: nat, result: Loaded, key: CacheKey, since: nat)
    requires f < |s.records| && FreshNative(s, key, since)
    ensures FreshNative(Land(s, f, result), key, since)
  {}

  lemma StoreKeepsFreshNative(s: Cache, stored: CacheKey, entry: Entry, key: CacheKey, since: nat)
    requires FreshNative(s, key, since) && (stored == key ==> StartedBy(s, entry.flight) >= since)
    ensures FreshNative(s.(entries := s.entries[stored := entry]), key, since)
  {}

  /** The current load of a fresh key is fresh. */
  lemma CurrentIsFreshNative(s: Cache, f: nat, key: CacheKey, since: nat)
    requires FlightsInv(s) && InFlight(s, f) && FreshNative(s, key, since)
    ensures s.records[f].key == key && !s.records[f].invalidated ==> StartedBy(s, f) >= since
  {}

  lemma PublishKeepsFreshNative(s: Cache, f: nat, loaded: Loaded, at: int, key: CacheKey, since: nat)
    requires Inv(s) && InFlight(s, f) && key.Native? && FreshNative(s, key, since)
    ensures s.records[f].key.Native? ==> FreshNative(NativePublish(s, f, loaded, at), key, since)
    ensures s.records[f].key.Custom? ==> FreshNative(CustomPublish(s, f, loaded, at), key, since)
  {
    CurrentIsFreshNative(s, f, key, since);
    hide FlightsInv, EntriesInv, FreshNative, Land, Scoped, RefreshTime, Checked, StartedBy;
    var flight := s.records[f];
    var custom := flight.key.Custom?;
    var result := Checked(if custom then Scoped(loaded, flight.key.path) else loaded, at);
    LandKeepsFreshNative(s, f, result, key, since);
    if result.Loaded? && !flight.invalidated {
      var entry := Entry(result.credentials, RefreshTime(result.credentials, at, !custom), f);
      var stored := if custom then Custom(flight.key.kind, result.credentials.cachePrefix) else flight.key;
      StoreKeepsFreshNative(s, stored, entry, key, since);
      LandKeepsFreshNative(s.(entries := s.entries[stored := entry]), f, result, key, since);
    }
  }

  lemma InvalidateKeepsFreshNative(s: Cache, other: CacheKey, key: CacheKey, since: nat)
    requires Inv(s) && key.Native? && FreshNative(s, key, since)
    ensures other.Native? ==> FreshNative(InvalidateNative(s, other), key, since)
    ensures other.Custom? ==> FreshNative(InvalidateCustom(s, other.kind, other.path), key, since)
  {}

  lemma StepKeepsFreshNative(s: Cache, s': Cache, e: Event, key: CacheKey, since: nat)
    requires Inv(s) && Step(s, s', e) && key.Native? && FreshNative(s, key, since)
    ensures FreshNative(s', key, since)
  {
    hide NativePublish, CustomPublish, InvalidateNative, InvalidateCustom;
    if e.Publish? {
      PublishKeepsFreshNative(s, e.f, e.loaded, e.at, key, since);
    } else if e.Invalidate? {
      InvalidateKeepsFreshNative(s, e.key, key, since);
    }
  }

  lemma {:induction false} RunKeepsFreshNative(
      s: Cache, states: seq<Cache>, events: seq<Event>, n: nat, key: CacheKey, since: nat)
    requires Inv(s) && IsRunFrom(s, states, events) && n < |states| && key.Native? && FreshNative(s, key, since)
    ensures FreshNative(states[n], key, since)
  {
    hide Inv, Step, FreshNative;
    if n > 0 {
      RunKeepsFreshNative(s, states, events, n - 1, key, since);
      RunKeepsInv(s, states, events, n - 1);
      var e := events[n - 1];
      StepKeepsFreshNative(states[n - 1], states[n], e, key, since);
    }
  }

  /** Invalidation is final: whatever happens after it, a caller that enters later gets nothing from
      a load that began before it. */
  lemma NativeInvalidationIsFinal(
      s: Cache, key: CacheKey, states: seq<Cache>, events: seq<Event>, n: nat, now: int)
    requires Inv(s) && key.Native? && IsRunFrom(InvalidateNative(s, key), states, events) && n < |states|
    ensures var (after, answer) := NativeEnter(states[n], key, now); StartedBy(after, LoadOf(answer)) > s.clock
  {
    InvalidateKeepsInv(s, key);
    assert FreshNative(InvalidateNative(s, key), key, s.clock + 1);
    RunKeepsFreshNative(InvalidateNative(s, key), states, events, n, key, s.clock + 1);
    RunKeepsInv(InvalidateNative(s, key), states, events, n);
    hide IsRunFrom, InvalidateNative;
  }

  // ------------------------------------------------------------------ invalidation of custom paths

  predicate IsFamily(key: CacheKey, kind: nat) { key.Custom? && key.kind == kind }

  /** Nothing usable for `path` comes from a load that began before step `since`, nor can a load of
      any path of the family still bring it. */
  ghost predicate FreshCustom(s: Cache, kind: nat, path: string, since: nat)
  {
    && since <= s.clock
    && (forall key | key in s.entries && IsFamily(key, kind)
                     && PrefixMatches(path, s.entries[key].credentials.cachePrefix) ::
          StartedBy(s, s.entries[key].flight) >= since)
    && (forall f: nat | InFlight(s, f) && IsFamily(s.records[f].key, kind) && !s.records[f].invalidated ::
          StartedBy(s, f) >= since)
  }

  lemma LandKeepsFreshCustom(s: Cache, f: nat, result: Loaded, kind: nat, path: string, since: nat)
    requires f < |s.records| && FreshCustom(s, kind, path, since)
    ensures FreshCustom(Land(s, f, result), kind, path, since)
  {
    hide PrefixMatches;
  }

  lemma StoreKeepsFreshCustom(s: Cache, stored: CacheKey, entry: Entry, kind: nat, path: string, since: nat)
    requires FreshCustom(s, kind, path, since) && (IsFamily(stored, kind) ==> StartedBy(s, entry.flight) >= since)
    ensures FreshCustom(s.(entries := s.entries[stored := entry]), kind, path, since)
  {
    hide PrefixMatches;
  }

  lemma CurrentIsFreshCustom(s: Cache, f: nat, kind: nat, path: string, since: nat)
    requires InFlight(s, f) && FreshCustom(s, kind, path, since)
    ensures IsFamily(s.records[f].key, kind) && !s.records[f].invalidated ==> StartedBy(s, f) >= since
  {}

  lemma PublishKeepsFreshCustom(s: Cache, f: nat, loaded: Loaded, at: int, kind: nat, path: string, since: nat)
    requires Inv(s) && InFlight(s, f) && FreshCustom(s, kind, path, since)
    ensures s.records[f].key.Native? ==> FreshCustom(NativePublish(s, f, loaded, at), kind, path, since)
    ensures s.records[f].key.Custom? ==> FreshCustom(CustomPublish(s, f, loaded, at), kind, path, since)
  {
    CurrentIsFreshCustom(s, f, kind, path, since);
    hide Inv, FreshCustom, Land, Scoped, RefreshTime, Checked, StartedBy;
    var flight := s.records[f];
    var custom := flight.key.Custom?;
    var result := Checked(if custom then Scoped(loaded, flight.key.path) else loaded, at);
    LandKeepsFreshCustom(s, f, result, kind, path, since);
    if result.Loaded? && !flight.invalidated {
      var entry := Entry(result.credentials, RefreshTime(result.credentials, at, !custom), f);
      var stored := if custom then Custom(flight.key.kind, result.credentials.cachePrefix) else flight.key;
      StoreKeepsFreshCustom(s, stored, entry, kind, path, since);
      LandKeepsFreshCustom(s.(entries := s.entries[stored := entry]), f, result, kind, path, since);
    }
  }

  lemma EnterKeepsFreshCustom(s: Cache, key: CacheKey, kind: nat, path: string, since: nat)
    requires Inv(s) && FreshCustom(s, kind, path, since)
    ensures FreshCustom(JoinOrLead(s, key).0, kind, path, since)
    ensures FreshCustom(s.(clock := s.clock + 1), kind, path, since)
  {}

  lemma InvalidateKeepsFreshCustom(s: Cache, key: CacheKey, kind: nat, path: string, since: nat)
    requires Inv(s) && FreshCustom(s, kind, path, since)
    ensures key.Native? ==> FreshCustom(InvalidateNative(s, key), kind, path, since)
    ensures key.Custom? ==> FreshCustom(InvalidateCustom(s, key.kind, key.path), kind, path, since)
  {
    hide Inv, FreshCustom, Supersede, PrefixMatches;
    SupersedeKeepsFreshCustom(s, key, kind, path, since);
    SupersedeLeavesEntries(s, key);
    if key.Native? {
      FewerKeepsFreshCustom(s, s.entries - {key}, kind, path, since);
      SupersedeKeepsFreshCustom(s.(entries := s.entries - {key}), key, kind, path, since);
    } else {
      FewerKeepsFreshCustom(Supersede(s, key), InvalidateCustom(s, key.kind, key.path).entries, kind, path, since);
    }
  }

  lemma SupersedeKeepsFreshCustom(s: Cache, key: CacheKey, kind: nat, path: string, since: nat)
    requires FreshCustom(s, kind, path, since)
    ensures FreshCustom(Supersede(s, key), kind, path, since)
  {
    hide PrefixMatches;
  }

  lemma SupersedeLeavesEntries(s: Cache, key: CacheKey)
    ensures Supersede(s, key).entries == s.entries
  {}

  lemma FewerKeepsFreshCustom(s: Cache, kept: map<CacheKey, Entry>, kind: nat, path: string, since: nat)
    requires FreshCustom(s, kind, path, since)
    requires forall key | key in kept :: key in s.entries && kept[key] == s.entries[key]
    ensures FreshCustom(s.(entries := kept), kind, path, since)
  {
    hide PrefixMatches;
  }

  lemma StepKeepsFreshCustom(s: Cache, s': Cache, e: Event, kind: nat, path: string, since: nat)
    requires Inv(s) && Step(s, s', e) && FreshCustom(s, kind, path, since)
    ensures FreshCustom(s', kind, path, since)
  {
    hide FreshCustom, Inv, JoinOrLead, InvalidateNative, InvalidateCustom, NativePublish, CustomPublish;
    match e
    case EnterNative(key, _) => EnterKeepsFreshCustom(s, key, kind, path, since);
    case EnterCustom(other, q, _) => EnterKeepsFreshCustom(s, Custom(other, q), kind, path, since);
    case Publish(f, loaded, at) => PublishKeepsFreshCustom(s, f, loaded, at, kind, path, since);
    case Invalidate(key) => InvalidateKeepsFreshCustom(s, key, kind, path, since);
  }

  lemma {:induction false} RunKeepsFreshCustom(
      s: Cache, states: seq<Cache>, events: seq<Event>, n: nat, kind: nat, path: string, since: nat)
    requires Inv(s) && IsRunFrom(s, states, events) && n < |states| && FreshCustom(s, kind, path, since)
    ensures FreshCustom(states[n], kind, path, since)
  {
    hide Inv, Step, FreshCustom;
    if n > 0 {
      RunKeepsFreshCustom(s, states, events, n - 1, kind, path, since);
      RunKeepsInv(s, states, events, n - 1);
      var e := events[n - 1];
      StepKeepsFreshCustom(states[n - 1], states[n], e, kind, path, since);
    }
  }

  /** A load of another path of the family is under way, and nobody has invalidated it. */
  ghost predicate SiblingLoads(s: Cache, kind: nat, path: string)
  {
    exists f :: IsSibling(s, kind, path, f)
  }

  predicate IsSibling(s: Cache, kind: nat, path: string, f: nat)
  {
    InFlight(s, f) && !s.records[f].invalidated && IsFamily(s.records[f].key, kind) && s.records[f].key.path != path
  }

  lemma CustomInvalidateFreshens(s: Cache, kind: nat, path: string)
    requires Inv(s) && !SiblingLoads(s, kind, path)
    ensures FreshCustom(InvalidateCustom(s, kind, path), kind, path, s.clock + 1)
  {
    var t := InvalidateCustom(s, kind, path);
    assert forall f: nat | InFlight(t, f) && IsFamily(t.records[f].key, kind) && !t.records[f].invalidated ::
        IsSibling(s, kind, path, f);
  }

  /** Without such a sibling, invalidation is final for custom paths as well. */
  lemma CustomInvalidationIsFinal(
      s: Cache, kind: nat, path: string, states: seq<Cache>, events: seq<Event>, n: nat, after: Cache, answer: Answer,
      now: int)
    requires Inv(s) && !SiblingLoads(s, kind, path)
    requires IsRunFrom(InvalidateCustom(s, kind, path), states, events) && n < |states|
    requires CustomEnter(states[n], after, answer, kind, path, now)
    ensures StartedBy(after, LoadOf(answer)) > s.clock
  {
    var t := InvalidateCustom(s, kind, path);
    InvalidateKeepsInv(s, Custom(kind, path));
    CustomInvalidateFreshens(s, kind, path);
    RunKeepsFreshCustom(t, states, events, n, kind, path, s.clock + 1);
    RunKeepsInv(t, states, events, n);
    hide IsRunFrom, InvalidateCustom;
  }

  /** A later caller of `path` gets credentials from a load that began before the invalidation. */
  ghost predicate StaleLater(s: Cache, kind: nat, path: string)
  {
    exists states, events, after, answer, now :: GetsStale(s, kind, path, states, events, after, answer, now)
  }

  ghost predicate GetsStale(
      s: Cache, kind: nat, path: string, states: seq<Cache>, events: seq<Event>, after: Cache, answer: Answer, now: int)
  {
    && IsRunFrom(InvalidateCustom(s, kind, path), states, events)
    && CustomEnter(states[|events|], after, answer, kind, path, now)
    && StartedBy(after, LoadOf(answer)) <= s.clock
  }

  /** Credentials scoped to everything. */
  const WIDE: Credentials := Credentials("", true, 0, "/")

  lemma WideIsStored(t: Cache, kind: nat, f: nat)
    requires InFlight(t, f) && !t.records[f].invalidated && IsFamily(t.records[f].key, kind)
    requires IsRooted(t.records[f].key.path)
    ensures CustomPublish(t, f, Loaded(WIDE), 0).entries == t.entries[Custom(kind, "/") := Entry(WIDE, NEVER, f)]
    ensures StartedBy(CustomPublish(t, f, Loaded(WIDE), 0), f) == StartedBy(t, f)
  {
    assert CanonicalPath("/") == "/";
    assert Checked(Scoped(Loaded(WIDE), t.records[f].key.path), 0) == Loaded(WIDE);
    hide Scoped, Checked, PrefixMatches;
  }

  /** It is the only entry that covers the invalidated path. */
  lemma WideIsBest(s: Cache, u: Cache, kind: nat, path: string, f: nat)
    requires IsRooted(path)
    requires u.entries == InvalidateCustom(s, kind, path).entries[Custom(kind, "/") := Entry(WIDE, NEVER, f)]
    ensures IsBest(u, kind, path, 0, Custom(kind, "/"))
  {}

  /** With a sibling under way it is not: the sibling's credentials may be scoped to cover the
      path too, and they refill what was invalidated. */
  lemma SiblingBringsStale(s: Cache, kind: nat, path: string, f: nat)
    requires Inv(s) && IsRooted(path) && IsSibling(s, kind, path, f) && IsRooted(s.records[f].key.path)
    ensures StaleLater(s, kind, path)
  {
    var t := InvalidateCustom(s, kind, path);
    SiblingSurvives(s, kind, path, f);
    hide InvalidateCustom, Inv, IsBest, CanonicalPath;
    var u := CustomPublish(t, f, Loaded(WIDE), 0);
    WideIsStored(t, kind, f);
    WideIsBest(s, u, kind, path, f);
    assert Step(t, u, Publish(f, Loaded(WIDE), 0));
    hide CustomPublish, Step, StaleLater;
    StaleFromStep(s, kind, path, f, u, Publish(f, Loaded(WIDE), 0));
  }

  lemma StaleFromStep(s: Cache, kind: nat, path: string, f: nat, u: Cache, e: Event)
    requires Step(InvalidateCustom(s, kind, path), u, e) && IsBest(u, kind, path, 0, Custom(kind, "/"))
    requires Custom(kind, "/") in u.entries && u.entries[Custom(kind, "/")] == Entry(WIDE, NEVER, f)
    requires StartedBy(u, f) <= s.clock
    ensures StaleLater(s, kind, path)
  {
    hide InvalidateCustom, IsBest, Step, CustomEnter, IsRunFrom;
    var t := InvalidateCustom(s, kind, path);
    OneStepRun(t, u, e);
    var after, answer := u.(clock := u.clock + 1), Hit(WIDE, f);
    BestIsHit(u, after, answer, kind, path, 0, Custom(kind, "/"));
    assert GetsStale(s, kind, path, [t, u], [e], after, answer, 0);
  }

  lemma SiblingSurvives(s: Cache, kind: nat, path: string, f: nat)
    requires Inv(s) && IsSibling(s, kind, path, f)
    ensures var t := InvalidateCustom(s, kind, path); InFlight(t, f) && t.records[f] == s.records[f]
    ensures StartedBy(s, f) < s.clock
  {}

  lemma OneStepRun(t: Cache, u: Cache, e: Event)
    requires Step(t, u, e)
    ensures IsRunFrom(t, [t, u], [e])
  {}

  lemma BestIsHit(s: Cache, after: Cache, answer: Answer, kind: nat, path: string, now: int, key: CacheKey)
    requires IsBest(s, kind, path, now, key)
    requires after == s.(clock := s.clock + 1) && answer == Hit(s.entries[key].credentials, s.entries[key].flight)
    ensures CustomEnter(s, after, answer, kind, path, now)
  {
    assert Usable(s, kind, path, now, key);
  }

  /** For custom providers, invalidation of a path is final exactly when no load of another path of
      the family is under way. */
  lemma CustomInvalidationIsFinalIff(s: Cache, kind: nat, path: string)
    requires Inv(s) && IsRooted(path)
    requires forall f | 0 <= f < |s.records| && s.records[f].key.Custom? :: IsRooted(s.records[f].key.path)
    ensures StaleLater(s, kind, path) <==> SiblingLoads(s, kind, path)
  {
    if SiblingLoads(s, kind, path) {
      var f :| IsSibling(s, kind, path, f);
      SiblingBringsStale(s, kind, path, f);
    } else if StaleLater(s, kind, path) {
      var states, events, after, answer, now :| GetsStale(s, kind, path, states, events, after, answer, now);
      CustomInvalidationIsFinal(s, kind, path, states, events, |events|, after, answer, now);
    }
  }

  // ------------------------------------------------------------------ the code

  class CredentialCache {
    var entries: map<CacheKey, Entry>
    var flights: map<CacheKey, nat>
    var records: seq<Flight>
    var clock: nat

    constructor ()
      ensures State() == EMPTY
    {
      entries, flights, records, clock := map[], map[], [], 0;
    }

    ghost function State(): Cache
      reads this
    {
      Cache(entries, flights, records, clock)
    }

    /** The first critical section of `native`. */
    method EnterNative(key: CacheKey, now: int) returns (answer: Answer)
      modifies this
      ensures (State(), answer) == NativeEnter(old(State()), key, now)
    {
      if key in entries && Reusable(entries[key], now) {
        clock := clock + 1;
        return Hit(entries[key].credentials, entries[key].flight);
      }
      answer := Start(key);
    }

    method Start(key: CacheKey) returns (answer: Answer)
      modifies this
      ensures (State(), answer) == JoinOrLead(old(State()), key)
    {
      if key in flights {
        answer := Join(flights[key]);
      } else {
        answer := Lead(|records|);
        flights, records := flights[key := |records|], records + [Flight(key, clock, false, None)];
      }
      clock := clock + 1;
    }

    /** find_reusable: the entries come in no particular order. */
    method FindReusable(kind: nat, path: string, now: int) returns (best: Option<CacheKey>)
      ensures best.None? <==> !exists key :: Usable(State(), kind, path, now, key)
      ensures best.Some? ==> IsBest(State(), kind, path, now, best.value)
    {
      best := None;
      var remaining := entries.Keys;
      while remaining != {}
        invariant remaining <= entries.Keys
        invariant best.None? ==> forall key :: Usable(State(), kind, path, now, key) ==> key in remaining
        invariant best.Some? ==> Usable(State(), kind, path, now, best.value)
        invariant best.Some? ==> forall key :: Usable(State(), kind, path, now, key) && key !in remaining ==>
                    |entries[key].credentials.cachePrefix| <= |entries[best.value].credentials.cachePrefix|
      {
        var key :| key in remaining;
        var entry := entries[key];
        if key.Custom? && key.kind == kind && PrefixMatches(path, entry.credentials.cachePrefix) && Reusable(entry, now)
           && (best.None? || |entry.credentials.cachePrefix| > |entries[best.value].credentials.cachePrefix|) {
          best := Some(key);
        }
        remaining := remaining - {key};
      }
    }

    /** The first critical section of `custom`. */
    method EnterCustom(kind: nat, path: string, now: int) returns (answer: Answer)
      modifies this
      ensures CustomEnter(old(State()), State(), answer, kind, path, now)
    {
      var found := FindReusable(kind, path, now);
      if found.Some? {
        BestIsHit(State(), State().(clock := clock + 1),
                  Hit(entries[found.value].credentials, entries[found.value].flight),
                  kind, path, now, found.value);
        clock := clock + 1;
        answer := Hit(entries[found.value].credentials, entries[found.value].flight);
      } else {
        answer := Start(Custom(kind, path));
      }
    }

    method Finish(f: nat, result: Loaded)
      requires f < |records|
      modifies this
      ensures State() == Land(old(State()), f, result)
    {
      var key := records[f].key;
      records := records[f := records[f].(result := Some(result))];
      if key in flights && flights[key] == f { flights := flights - {key}; }
      clock := clock + 1;
    }

    /** The second critical sections of `native` and `custom`. */
    method PublishResult(f: nat, loaded: Loaded, at: int)
      requires f < |records|
      modifies this
      ensures State() == if old(records[f].key).Native? then NativePublish(old(State()), f, loaded, at)
                         else CustomPublish(old(State()), f, loaded, at)
    {
      var flight := records[f];
      var result := Checked(if flight.key.Custom? then Scoped(loaded, flight.key.path) else loaded, at);
      if result.Loaded? && !flight.invalidated {
        var credentials := result.credentials;
        if flight.key.Native? {
          if credentials.present {
            entries := entries[flight.key := Entry(credentials, RefreshTime(credentials, at, true), f)];
          }
        } else if credentials.cachePrefix != "" {
          var key := Custom(flight.key.kind, credentials.cachePrefix);
          entries := entries[key := Entry(credentials, RefreshTime(credentials, at, false), f)];
        }
      }
      Finish(f, result);
    }

    method Invalidate(key: CacheKey)
      modifies this
      ensures State() == if key.Native? then InvalidateNative(old(State()), key)
                         else InvalidateCustom(old(State()), key.kind, key.path)
    {
      if key in flights && flights[key] < |records| {
        records := records[flights[key] := records[flights[key]].(invalidated := true)];
        flights := flights - {key};
      }
      clock := clock + 1;
      if key.Native? {
        entries := entries - {key};
        return;
      }
      var remaining := entries.Keys;
      while remaining != {}
        invariant remaining <= old(entries).Keys && State() == old(Supersede(State(), key)).(entries := entries)
        invariant entries == map other | other in old(entries)
                                         && (other in remaining || !Covered(old(entries), key, other)) ::
                                             old(entries)[other]
      {
        var other :| other in remaining;
        if Covered(entries, key, other) { entries := entries - {other}; }
        remaining := remaining - {other};
      }
    }
  }

  /** Does invalidating `key` reach the custom entry `other`? */
  predicate Covered(entries: map<CacheKey, Entry>, key: CacheKey, other: CacheKey)
    requires key.Custom?
  {
    other in entries && other.Custom? && other.kind == key.kind
        && PrefixMatches(key.path, entries[other].credentials.cachePrefix)
  }
}
