/** The freshness cache of content.js (`getCachedData`, `setCachedData`):
    entries live in the extension's local key/value storage under
    `faceit_<steamId>` as `{data, timestamp}`, and an entry is served only
    while it is younger than 24 hours. Expired entries are evicted lazily, by
    the read that finds them. */
module FaceitCache {
  import opened Wrappers

  /** `24 * 60 * 60 * 1000`: the freshness window in milliseconds. */
  const TTL_MILLIS: int := 86_400_000

  const KEY_PREFIX := "faceit_"

  /** The JSON body of the lookup service, as far as the extension looks into
      it. `Falsy` stands for a body that parses to a falsy value (`null`,
      `false`, `0`, `""`); `Player` for any truthy value, with the two fields
      the badge needs: `faceit_url` and `games.cs2.skill_level` (`None` when
      the field, or an object on the path to it, is absent). */
  datatype Payload =
    | Falsy
    | Player(faceitUrl: Option<string>, skillLevel: Option<int>)

  predicate Truthy(p: Payload)
  {
    p.Player?
  }

  /** The stored value `{data, timestamp}`; `timestamp` is `Date.now()` at write time. */
  datatype Entry = Entry(data: Payload, timestamp: int)

  /** Which call into the storage API rejects, sending its caller into its `catch`. */
  datatype StorageFaults = StorageFaults(getFails: bool, removeFails: bool, setFails: bool)

  const NO_FAULTS := StorageFaults(false, false, false)

  /** The storage key of a Steam ID, the same for read, remove and write. */
  function CacheKey(steamId: string): (key: string)
    ensures |key| == |KEY_PREFIX| + |steamId|
    ensures key[..|KEY_PREFIX|] == KEY_PREFIX && key[|KEY_PREFIX|..] == steamId
  {
    KEY_PREFIX + steamId
  }

  /** Distinct Steam IDs never share a storage entry. */
  lemma CacheKeyInjective(a: string, b: string)
    ensures CacheKey(a) == CacheKey(b) <==> a == b
  {
  }

  /** The entry's age is strictly below the window; at exactly 24 hours it is stale. */
  predicate IsFresh(e: Entry, now: int)
  {
    now - e.timestamp < TTL_MILLIS
  }

  /** What a read returns, and the storage it leaves behind. */
  datatype ReadResult = ReadResult(value: Option<Payload>, entries: map<string, Entry>)

  /** getCachedData: the stored data when the entry exists and is fresh;
      otherwise `None` (JavaScript's `null`), having removed a stale entry. */
  function CachedRead(entries: map<string, Entry>, steamId: string, now: int, faults: StorageFaults): (r: ReadResult)
    ensures r.value.Some? <==>
              !faults.getFails && CacheKey(steamId) in entries && IsFresh(entries[CacheKey(steamId)], now)
    ensures r.value.Some? ==> r.value.value == entries[CacheKey(steamId)].data
    ensures forall k :: k in r.entries ==> k in entries && r.entries[k] == entries[k]
    ensures forall k :: k in entries && k != CacheKey(steamId) ==> k in r.entries
    ensures (CacheKey(steamId) in entries && CacheKey(steamId) !in r.entries) <==>
              && !faults.getFails && !faults.removeFails
              && CacheKey(steamId) in entries && !IsFresh(entries[CacheKey(steamId)], now)
  {
    var key := CacheKey(steamId);
    if faults.getFails || key !in entries then ReadResult(None, entries)
    else if IsFresh(entries[key], now) then ReadResult(Some(entries[key].data), entries)
    else if faults.removeFails then ReadResult(None, entries)
    else ReadResult(None, entries - {key})
  }

  /** setCachedData: the entry for the ID becomes `{data, timestamp: now}`,
      whatever was there, unless the storage write rejects. */
  function CachedWrite(entries: map<string, Entry>, steamId: string, data: Payload, now: int, faults: StorageFaults)
    : (m: map<string, Entry>)
    ensures faults.setFails ==> m == entries
    ensures !faults.setFails ==> CacheKey(steamId) in m && m[CacheKey(steamId)] == Entry(data, now)
    ensures forall k :: k != CacheKey(steamId) ==> (k in m <==> k in entries)
    ensures forall k :: k in m && k != CacheKey(steamId) ==> m[k] == entries[k]
  {
    if faults.setFails then entries else entries[CacheKey(steamId) := Entry(data, now)]
  }

  /** An entry written at `t0` is served at `t0 + TTL - 1` and stale at
      `t0 + TTL`, where the read also drops it. */
  lemma TtlBoundary(entries: map<string, Entry>, steamId: string, data: Payload, t0: int)
    ensures var stored := CachedWrite(entries, steamId, data, t0, NO_FAULTS);
            && CachedRead(stored, steamId, t0 + TTL_MILLIS - 1, NO_FAULTS).value == Some(data)
            && CachedRead(stored, steamId, t0 + TTL_MILLIS, NO_FAULTS).value == None
            && CacheKey(steamId) !in CachedRead(stored, steamId, t0 + TTL_MILLIS, NO_FAULTS).entries
  {
  }

  /** A read at the moment of writing returns what was written. */
  lemma ReadYourWrite(entries: map<string, Entry>, steamId: string, data: Payload, now: int)
    ensures CachedRead(CachedWrite(entries, steamId, data, now, NO_FAULTS), steamId, now, NO_FAULTS)
            == ReadResult(Some(data), CachedWrite(entries, steamId, data, now, NO_FAULTS))
  {
  }

  /** A second write replaces the first wholesale: nothing of it survives. */
  lemma SecondWriteReplacesFirst(entries: map<string, Entry>, steamId: string, d1: Payload, t1: int, d2: Payload, t2: int)
    ensures CachedWrite(CachedWrite(entries, steamId, d1, t1, NO_FAULTS), steamId, d2, t2, NO_FAULTS)
            == CachedWrite(entries, steamId, d2, t2, NO_FAULTS)
  {
  }

  /** Reads and writes for one Steam ID leave every other ID's cached answer as it was. */
  lemma OtherIdsUnaffected(entries: map<string, Entry>, a: string, b: string, data: Payload, t: int, now: int, faults: StorageFaults)
    requires a != b
    ensures CachedRead(CachedWrite(entries, a, data, t, faults), b, now, faults).value
            == CachedRead(entries, b, now, faults).value
    ensures CachedRead(CachedRead(entries, a, t, faults).entries, b, now, faults).value
            == CachedRead(entries, b, now, faults).value
  {
    CacheKeyInjective(a, b);
  }

  /** `chrome.storage.local`: one key/value store shared by every page the
      extension runs on, persisted across browser sessions. */
  class LocalStorage {
    var entries: map<string, Entry>

    constructor (entries: map<string, Entry>)
      ensures this.entries == entries
    {
      this.entries := entries;
    }

    /** `get([key])`: the entry stored under the key, if any. */
    method Get(key: string) returns (e: Option<Entry>)
      ensures e.Some? <==> key in entries
      ensures e.Some? ==> e.value == entries[key]
    {
      e := if key in entries then Some(entries[key]) else None;
    }

    /** `remove([key])`: no-op when the key is absent. */
    method Remove(key: string)
      modifies this
      ensures entries == old(entries) - {key}
    {
      entries := entries - {key};
    }

    /** `set({[key]: entry})`: overwrites unconditionally. */
    method Set(key: string, e: Entry)
      modifies this
      ensures entries == old(entries)[key := e]
    {
      entries := entries[key := e];
    }
  }

  /** getCachedData, step by step: look the key up, serve a fresh entry,
      remove a stale one; a rejected storage call ends in `null`. */
  method GetCachedData(storage: LocalStorage, steamId: string, now: int, faults: StorageFaults)
    returns (data: Option<Payload>)
    modifies storage
    ensures ReadResult(data, storage.entries) == CachedRead(old(storage.entries), steamId, now, faults)
  {
    var key := CacheKey(steamId);
    if faults.getFails {
      return None;
    }
    var cachedEntry := storage.Get(key);
    if cachedEntry.Some? {
      var cacheAge := now - cachedEntry.value.timestamp;
      if cacheAge < TTL_MILLIS {
        return Some(cachedEntry.value.data);
      }
      if !faults.removeFails {
        storage.Remove(key);
      }
    }
    return None;
  }

  /** setCachedData: store `{data, timestamp: now}`; a rejected write changes nothing. */
  method SetCachedData(storage: LocalStorage, steamId: string, data: Payload, now: int, faults: StorageFaults)
    modifies storage
    ensures storage.entries == CachedWrite(old(storage.entries), steamId, data, now, faults)
  {
    var key := CacheKey(steamId);
    if !faults.setFails {
      storage.Set(key, Entry(data, now));
    }
  }
}
