/** The cache-then-fetch orchestrator of content.js (`getFaceitData`): a fresh,
    truthy cached answer is served without touching the network; otherwise the
    proxy API is asked once, and a truthy answer is written through to the
    cache. Every failure ends in `null`. */
module FaceitLookup {
  import opened Wrappers
  import opened FaceitCache

  /** How `response.json()` turns out. */
  datatype Body = Malformed | Json(payload: Payload)

  /** How the one `fetch` of the proxy URL turns out: it rejects (DNS, refused,
      offline), or it yields a response with an HTTP status and a body. */
  datatype FetchReply = TransportFailure | Response(status: int, body: Body)

  /** `response.ok`: the status is in the range 200-299. */
  predicate ResponseOk(status: int)
  {
    200 <= status <= 299
  }

  /** What getFaceitData returns, whether it called `fetch`, and the storage after it. */
  datatype Resolution = Resolution(value: Option<Payload>, fetched: bool, entries: map<string, Entry>)

  /** A cache hit in the sense of getFaceitData: a fresh entry whose data is truthy. */
  predicate CacheHit(entries: map<string, Entry>, steamId: string, now: int, faults: StorageFaults)
  {
    var read := CachedRead(entries, steamId, now, faults);
    read.value.Some? && Truthy(read.value.value)
  }

  /** getFaceitData. The read happens at `now`, the write-through stamps the
      entry with `writeNow`, the second `Date.now()` of the run. */
  function Resolve(entries: map<string, Entry>, steamId: string, now: int, writeNow: int,
                   faults: StorageFaults, reply: FetchReply): (r: Resolution)
    ensures r.fetched <==> !CacheHit(entries, steamId, now, faults)
    ensures !r.fetched ==>
              r.value == Some(entries[CacheKey(steamId)].data) && r.entries == entries
    ensures r.fetched && r.value.Some? ==>
              reply.Response? && ResponseOk(reply.status) && reply.body == Json(r.value.value)
    ensures r.fetched && !(reply.Response? && ResponseOk(reply.status) && reply.body.Json?) ==>
              r.value == None
    ensures r.fetched && reply.Response? && ResponseOk(reply.status) && reply.body.Json? ==>
              r.value == Some(reply.body.payload)
    ensures r.fetched && r.value.Some? && Truthy(r.value.value) ==>
              r.entries == CachedWrite(CachedRead(entries, steamId, now, faults).entries,
                                       steamId, r.value.value, writeNow, faults)
    ensures r.fetched && (r.value.None? || !Truthy(r.value.value)) ==>
              r.entries == CachedRead(entries, steamId, now, faults).entries
  {
    var read := CachedRead(entries, steamId, now, faults);
    if read.value.Some? && Truthy(read.value.value) then
      Resolution(read.value, false, read.entries)
    else
      match reply
      case TransportFailure => Resolution(None, true, read.entries)
      case Response(status, body) =>
        if !ResponseOk(status) then Resolution(None, true, read.entries)
        else
          match body
          case Malformed => Resolution(None, true, read.entries)
          case Json(playerData) =>
            var stored :=
              if Truthy(playerData) then CachedWrite(read.entries, steamId, playerData, writeNow, faults)
              else read.entries;
            Resolution(Some(playerData), true, stored)
  }

  /** A fresh, truthy cached answer is returned as it is, with no fetch and no write. */
  lemma HitSkipsNetwork(entries: map<string, Entry>, steamId: string, now: int, writeNow: int,
                        faults: StorageFaults, reply: FetchReply)
    requires CacheKey(steamId) in entries && IsFresh(entries[CacheKey(steamId)], now)
    requires Truthy(entries[CacheKey(steamId)].data) && !faults.getFails
    ensures Resolve(entries, steamId, now, writeNow, faults, reply)
            == Resolution(Some(entries[CacheKey(steamId)].data), false, entries)
  {
  }

  /** On a miss (no entry, a stale one, a falsy one, or a rejected read), a
      failed fetch (rejected, not ok, or unparsable) yields `null` and writes
      nothing: the storage is what the read left behind. */
  lemma FailedFetchWritesNothing(entries: map<string, Entry>, steamId: string, now: int, writeNow: int,
                                 faults: StorageFaults, reply: FetchReply)
    requires !CacheHit(entries, steamId, now, faults)
    requires !(reply.Response? && ResponseOk(reply.status) && reply.body.Json?)
    ensures Resolve(entries, steamId, now, writeNow, faults, reply)
            == Resolution(None, true, CachedRead(entries, steamId, now, faults).entries)
  {
  }

  /** On a miss, an ok reply's body is returned; a truthy body is written
      through with the write time, a falsy one is not written. */
  lemma OkReplyWritesThrough(entries: map<string, Entry>, steamId: string, now: int, writeNow: int,
                             faults: StorageFaults, status: int, playerData: Payload)
    requires !CacheHit(entries, steamId, now, faults) && ResponseOk(status)
    ensures var r := Resolve(entries, steamId, now, writeNow, faults, Response(status, Json(playerData)));
            var afterRead := CachedRead(entries, steamId, now, faults).entries;
            && r.value == Some(playerData) && r.fetched
            && (Truthy(playerData) ==> r.entries == CachedWrite(afterRead, steamId, playerData, writeNow, faults))
            && (!Truthy(playerData) ==> r.entries == afterRead)
  {
  }

  /** An entry 24 hours old or more is evicted and replaced: with working
      storage, an ok truthy reply leaves the storage as it was except that the
      ID's entry now holds the new payload stamped with the write time. */
  lemma StaleEntryRefreshed(entries: map<string, Entry>, steamId: string, now: int, writeNow: int,
                            status: int, playerData: Payload)
    requires CacheKey(steamId) in entries && !IsFresh(entries[CacheKey(steamId)], now)
    requires ResponseOk(status) && Truthy(playerData)
    ensures Resolve(entries, steamId, now, writeNow, NO_FAULTS, Response(status, Json(playerData)))
            == Resolution(Some(playerData), true, entries[CacheKey(steamId) := Entry(playerData, writeNow)])
  {
    var key := CacheKey(steamId);
    assert (entries - {key})[key := Entry(playerData, writeNow)] == entries[key := Entry(playerData, writeNow)];
  }

  /** A lookup that wrote through is answered from the cache by the next
      lookup within 24 hours of the write, whatever the network would say then. */
  lemma {:induction false} SecondLookupHitsCache(entries: map<string, Entry>, steamId: string, now: int, writeNow: int,
                                                 reply: FetchReply, later: int, laterWrite: int, laterReply: FetchReply)
    requires later - writeNow < TTL_MILLIS
    ensures var first := Resolve(entries, steamId, now, writeNow, NO_FAULTS, reply);
            first.fetched && first.value.Some? && Truthy(first.value.value) ==>
              Resolve(first.entries, steamId, later, laterWrite, NO_FAULTS, laterReply)
              == Resolution(first.value, false, first.entries)
  {
    var first := Resolve(entries, steamId, now, writeNow, NO_FAULTS, reply);
    if first.fetched && first.value.Some? && Truthy(first.value.value) {
      var read := CachedRead(entries, steamId, now, NO_FAULTS);
      assert first.entries == CachedWrite(read.entries, steamId, first.value.value, writeNow, NO_FAULTS);
      assert first.entries[CacheKey(steamId)] == Entry(first.value.value, writeNow);
      HitSkipsNetwork(first.entries, steamId, later, laterWrite, NO_FAULTS, laterReply);
    }
  }

  /** getFaceitData, step by step, over the extension's storage. `fetched`
      reports whether the proxy API was called. */
  method GetFaceitData(storage: LocalStorage, steamId: string, now: int, writeNow: int,
                       faults: StorageFaults, reply: FetchReply)
    returns (data: Option<Payload>, fetched: bool)
    modifies storage
    ensures Resolution(data, fetched, storage.entries)
            == Resolve(old(storage.entries), steamId, now, writeNow, faults, reply)
  {
    var cachedData := GetCachedData(storage, steamId, now, faults);
    if cachedData.Some? && Truthy(cachedData.value) {
      return cachedData, false;
    }
    fetched := true;
    if reply.TransportFailure? {
      return None, fetched;
    }
    if !ResponseOk(reply.status) {
      return None, fetched;
    }
    if reply.body.Malformed? {
      return None, fetched;
    }
    var playerData := reply.body.payload;
    if Truthy(playerData) {
      SetCachedData(storage, steamId, playerData, writeNow, faults);
    }
    data := Some(playerData);
  }
}
