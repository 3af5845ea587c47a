/**
  What the credential cache is for: credentials that a load has brought are found by whoever asks next, until
  it is time to refresh them or somebody invalidates them (src/credential_cache.cpp).
*/
module CredentialReuse {
  import opened Numbers
  import opened Configs
  import opened CredentialCaches

  /** Credentials loaded at `at` are still good at `now`: those without an expiry for a minute, others until a
      tenth of their lifetime, at least a second and at most a minute, is left; and at first in any case. */
  predicate StillFresh(c: Credentials, at: int, now: int)
  {
    && at <= now
    && if c.expiresAt == 0 then now < at + 60
       else now < c.expiresAt && (now == at || now < c.expiresAt - Max(1, Min((c.expiresAt - at) / 10, 60)))
  }

  lemma FreshIsReusable(c: Credentials, at: int, now: int, f: nat)
    requires at <= now && (c.expiresAt == 0 || c.expiresAt > at)
    ensures Reusable(Entry(c, RefreshTime(c, at, true), f), now) <==> StillFresh(c, at, now)
    ensures c.expiresAt != 0 ==> (Reusable(Entry(c, RefreshTime(c, at, false), f), now) <==> StillFresh(c, at, now))
  {}

  /** A load whose credentials are worth keeping. */
  predicate Brings(s: Cache, f: nat, loaded: Loaded, at: int)
  {
    && InFlight(s, f) && !s.records[f].invalidated && loaded.Loaded?
    && (loaded.credentials.expiresAt == 0 || loaded.credentials.expiresAt > at)
  }

  /** Whoever asks next finds what was loaded, and waits or loads again only when it is no longer fresh and
      nobody else has. */
  lemma PublishedIsFound(s: Cache, f: nat, loaded: Loaded, at: int, now: int)
    requires Brings(s, f, loaded, at) && s.records[f].key.Native? && loaded.credentials.present && at <= now
    ensures
      var key, after := s.records[f].key, NativePublish(s, f, loaded, at);
      && key in after.entries && after.entries[key].credentials == loaded.credentials
      && (StillFresh(loaded.credentials, at, now) <==> NativeEnter(after, key, now).1 == Hit(loaded.credentials, f))
  {
    FreshIsReusable(loaded.credentials, at, now, f);
    hide RefreshTime, StillFresh, Reusable;
  }

  /** Does the event store or remove the entry of `key`? */
  predicate Touches(s: Cache, e: Event, key: CacheKey)
  {
    e == Invalidate(key) || (e.Publish? && e.f < |s.records| && s.records[e.f].key == key)
  }

  lemma UntouchedStays(s: Cache, s': Cache, e: Event, key: CacheKey)
    requires Step(s, s', e) && key.Native? && key in s.entries && !Touches(s, e, key)
    ensures key in s'.entries && s'.entries[key] == s.entries[key]
  {
    hide RefreshTime, Reusable, PrefixMatches, Checked, Scoped;
  }

  lemma {:induction false} RunLeavesEntry(s: Cache, states: seq<Cache>, events: seq<Event>, n: nat, key: CacheKey)
    requires IsRunFrom(s, states, events) && n < |states| && key.Native? && key in s.entries
    requires forall i | 0 <= i < n :: !Touches(states[i], events[i], key)
    ensures key in states[n].entries && states[n].entries[key] == s.entries[key]
  {
    hide Step, Touches;
    if n > 0 {
      RunLeavesEntry(s, states, events, n - 1, key);
      var e := events[n - 1];
      UntouchedStays(states[n - 1], states[n], e, key);
    }
  }

  /** In every continuation, whatever other keys go through, they are found as long as they are fresh. */
  lemma PublishedIsFoundLater(s: Cache, f: nat, loaded: Loaded, at: int, states: seq<Cache>, events: seq<Event>,
                              n: nat, now: int)
    requires Brings(s, f, loaded, at) && s.records[f].key.Native? && loaded.credentials.present
    requires IsRunFrom(NativePublish(s, f, loaded, at), states, events) && n < |states|
    requires forall i | 0 <= i < n :: !Touches(states[i], events[i], s.records[f].key)
    requires StillFresh(loaded.credentials, at, now)
    ensures NativeEnter(states[n], s.records[f].key, now).1 == Hit(loaded.credentials, f)
  {
    var key, after := s.records[f].key, NativePublish(s, f, loaded, at);
    PublishedIsFound(s, f, loaded, at, now);
    hide IsRunFrom, NativePublish, StillFresh, Reusable, Touches;
    RunLeavesEntry(after, states, events, n, key);
  }

  /** Custom credentials serve every path below the prefix they came with: nobody there loads again. */
  lemma PublishedServesSubtree(s: Cache, f: nat, loaded: Loaded, at: int, path: string, now: int, next: Cache,
                               answer: Answer)
    requires Brings(s, f, loaded, at) && s.records[f].key.Custom? && loaded.credentials.cachePrefix != ""
    requires
      var prefix := CanonicalPath(loaded.credentials.cachePrefix);
      prefix != "" && PrefixMatches(s.records[f].key.path, prefix) && PrefixMatches(path, prefix)
    requires if loaded.credentials.expiresAt == 0 then now < NEVER else StillFresh(loaded.credentials, at, now)
    requires CustomEnter(CustomPublish(s, f, loaded, at), next, answer, s.records[f].key.kind, path, now)
    ensures answer.Hit? && next.records == CustomPublish(s, f, loaded, at).records
  {
    var prefix := CanonicalPath(loaded.credentials.cachePrefix);
    var scoped := loaded.credentials.(cachePrefix := prefix);
    var after, kind := CustomPublish(s, f, loaded, at), s.records[f].key.kind;
    if loaded.credentials.expiresAt != 0 { FreshIsReusable(scoped, at, now, f); }
    hide PrefixMatches, CanonicalPath;
    assert Usable(after, kind, path, now, Custom(kind, prefix));
  }

  /** A load stores nothing but credentials that cover the path they were asked for and have not expired. */
  lemma StoredCoversPath(s: Cache, f: nat, loaded: Loaded, at: int, key: CacheKey)
    requires f < |s.records| && s.records[f].key.Custom? && key in CustomPublish(s, f, loaded, at).entries
    ensures
      var entry := CustomPublish(s, f, loaded, at).entries[key];
      || (key in s.entries && entry == s.entries[key])
      || (&& key.Custom? && key.kind == s.records[f].key.kind && key.path == entry.credentials.cachePrefix != ""
          && PrefixMatches(s.records[f].key.path, key.path) && !s.records[f].invalidated
          && (entry.credentials.expiresAt == 0 || entry.credentials.expiresAt > at))
  {
    hide PrefixMatches, RefreshTime;
  }

  /** What a caller is given for a path was stored under a prefix that covers it, by a provider of its kind, and
      is not yet to be refreshed. */
  lemma HitServesPath(s: Cache, next: Cache, answer: Answer, kind: nat, path: string, now: int)
    requires CustomEnter(s, next, answer, kind, path, now) && answer.Hit?
    ensures exists key | key in s.entries ::
      && key.Custom? && key.kind == kind && PrefixMatches(path, s.entries[key].credentials.cachePrefix)
      && s.entries[key].credentials == answer.credentials && now < s.entries[key].refreshAt
  {
    hide PrefixMatches;
    var key :| IsBest(s, kind, path, now, key) && answer == Hit(s.entries[key].credentials, s.entries[key].flight);
    assert key in s.entries;
  }
}
