# FACEIT level badge for Steam profiles, modelled in Dafny

The extension shows a player's FACEIT CS2 skill level next to the persona name
on a Steam Community profile page. Its content script (content.js) does four things:

- It extracts the 64-bit Steam ID. The ID comes from the profile URL when the URL has one. Otherwise it comes from the `"steamid":"…"` field in the page HTML.
- It looks the player up through a proxy API.
- It keeps each answer for 24 hours in the extension's local storage, under `faceit_<steamId>` as `{data, timestamp}`.
- It inserts one badge link after the persona name.

The popup (popup.js) has one "manual update" button. Its `disabled` flag and its text follow the content script's replies.

Modules:

- `Wrappers`: `Option`, which stands for JavaScript's `null`.
- `Text`: the first-occurrence search behind `String.prototype.replace` with a string pattern.
- `SteamId`: `getSteamID64`. Each regex is a leftmost search for a literal prefix, 17 ASCII digits and a literal suffix.
- `FaceitCache`: the storage as a class `LocalStorage` holding a `map` from key to `{data, timestamp}`. `getCachedData` and `setCachedData` are methods over it, each specified by a pure function (`CachedRead`, `CachedWrite`).
- `FaceitLookup`: `getFaceitData` as a method, specified by the function `Resolve`.
- `Badge`: the badge decision (`RenderDecision`). The page is a class `ProfilePage`, and the main block is the method `RunContentScript`.
- `Popup`: the button as a class `UpdateButton` with one method per event handler. Each handler is specified by a function on `ButtonView`.

The environment is passed in as parameters:

- The clock is a parameter. The read uses `now`. The write-through uses `writeNow`, because `setCachedData` calls `Date.now()` again.
- The network is an input `FetchReply`: the fetch rejects, or a response arrives with a status and a body that parses or does not. `ok` means status 200-299.
- A rejecting storage call is an input `StorageFaults`. Each flag sends the corresponding `try` to its `catch`.
- Message replies to the popup are event inputs `Delivery<T>`: unreachable (`chrome.runtime.lastError`), or delivered with a response that may be `undefined`.

JavaScript truthiness is kept where the code tests it:

- A JSON body is `Falsy` (`null`, `false`, `0`, `""`) or a `Player`.
- A cached entry whose data is falsy does not count as a hit.
- A skill level of 0 or none means no badge.

Three behaviours of the code that the model keeps as written:

- The popup tests for the status `'HAS_STEAM_ID'` (popup.js:19).
- `getFaceitData` writes a fetched payload to the cache only when it is truthy, and still returns a falsy one (content.js:80-84).
- The main block inserts nothing when an element `faceit-link-<id>` already exists (content.js:108).

## Model

| member | source | states |
|---|---|---|
| Text.IndexOf | content.js:103 | the result is the first position at or after `from` where the pattern occurs, and `None` exactly when it occurs nowhere from there |
| Text.ReplaceFirst | content.js:103 | the string is unchanged when the pattern does not occur; otherwise its first occurrence, and only that one, is replaced |
| SteamId.FirstMatch | content.js:6 | the leftmost index at or after `from` where `prefix`, 17 digits and `suffix` match; `None` exactly when there is none |
| SteamId.Capture | content.js:6-14 | a captured ID is 17 ASCII digits taken from the leftmost match; `None` exactly when the pattern matches nowhere |
| SteamId.SteamId64 | content.js:4-16 | a result is 17 digits; the URL's profile ID is preferred over the page source's `"steamid"`; `null` exactly when neither pattern matches |
| SteamId.ProfileUrlWins | content.js:5-9 | an `https://steamcommunity.com/profiles/<17 digits>…` URL yields that ID whatever the page source embeds |
| FaceitCache.CacheKey | content.js:21 | the key is `faceit_` followed by the Steam ID; the one key function serves read, remove and write |
| FaceitCache.CacheKeyInjective | content.js:48 | two IDs share a storage key exactly when they are equal |
| FaceitCache.CachedRead | content.js:19-43 | data comes back exactly when the entry exists, the read succeeds and the age is below 86400000 ms; the entry is removed exactly when it is stale and removal succeeds; no other key changes and nothing is added |
| FaceitCache.CachedWrite | content.js:46-58 | the key is overwritten with `{data, timestamp: now}` unless the write rejects; every other key is untouched |
| FaceitCache.TtlBoundary | content.js:26-30 | an entry written at t0 is served at t0 + 24h - 1 ms and is stale and evicted at t0 + 24h |
| FaceitCache.ReadYourWrite | content.js:46-53 | a read at the write's own time returns the written data and changes nothing |
| FaceitCache.SecondWriteReplacesFirst | content.js:49-53 | two writes to one ID leave exactly what the second wrote, with nothing merged |
| FaceitCache.OtherIdsUnaffected | content.js:19-58 | a write or a read for one ID never changes what a read for another ID returns |
| FaceitCache.LocalStorage.Get | content.js:22-23 | `get` returns the stored entry exactly when the key is present |
| FaceitCache.LocalStorage.Remove | content.js:36 | `remove` deletes the key and nothing else |
| FaceitCache.LocalStorage.Set | content.js:53 | `set` overwrites the key and nothing else |
| FaceitCache.GetCachedData | content.js:19-43 | the value returned and the storage left behind are those of `CachedRead` |
| FaceitCache.SetCachedData | content.js:46-58 | the storage left behind is that of `CachedWrite` |
| FaceitLookup.Resolve | content.js:61-89 | a fetch happens exactly when there is no fresh truthy cached data; a hit returns the cached data with storage unchanged; after a fetch the value is the parsed body exactly when the response is ok and parses, and `null` otherwise; only a truthy fetched value is written through, stamped with the write time, on top of what the read left |
| FaceitLookup.HitSkipsNetwork | content.js:63-66 | a fresh truthy entry is returned with no fetch and no storage change, whatever the network would answer |
| FaceitLookup.FailedFetchWritesNothing | content.js:72-76 | on any miss, a rejected fetch, a non-ok status or an unparsable body yields `null` and leaves the storage as the read left it |
| FaceitLookup.OkReplyWritesThrough | content.js:77-84 | on any miss, an ok body is returned; if truthy it is written on top of what the read left, stamped with the write time, and if falsy nothing is written |
| FaceitLookup.StaleEntryRefreshed | content.js:33-37 | with working storage, a stale entry and an ok truthy reply leave the storage unchanged except that the ID's entry holds the new payload with the write time |
| FaceitLookup.SecondLookupHitsCache | content.js:61-84 | after a lookup that wrote through, any lookup within 24 h of the write is answered from the cache without a fetch |
| FaceitLookup.GetFaceitData | content.js:61-89 | the value, the fetch flag and the storage left behind are those of `Resolve` |
| Badge.LinkId | content.js:121 | the badge's element id is `faceit-link-` followed by the Steam ID |
| Badge.RenderDecision | content.js:100-125 | a link is inserted exactly when the data is truthy, the CS2 skill level is truthy, `faceit_url` is present, the persona name exists and no `faceit-link-<id>` element exists; the link carries that id, the level, and the URL with its first `{lang}` replaced by `en` |
| Badge.HrefFillsLanguage | content.js:103 | in `base + "{lang}" + rest` with no `{lang}` in `base`, the placeholder becomes `en` and the rest is kept |
| Badge.RankedPlayerGetsBadge | content.js:100-121 | a ranked player with a `{lang}` URL template gets a badge linking to the English profile with the player's level |
| Badge.ProfilePage.HasElement | content.js:108 | `getElementById` finds the id exactly when an element has it |
| Badge.ProfilePage.InsertAfterTarget | content.js:124 | the link is placed right after the persona name, and the page keeps one link per id |
| Badge.RunContentScript | content.js:92-128 | with no Steam ID nothing changes; otherwise storage follows `Resolve`, at most one link is added and it is the `RenderDecision` link, and no id gets two links |
| Badge.AtMostOneLinkPerId | content.js:106-108 | a page holds at most one badge for any Steam ID |
| Popup.StatusView | popup.js:10-33 | the button is enabled exactly when the page reports `HAS_STEAM_ID` with `isCached`, and then reads `Refresh Cached Data`; `Data is Up-to-Date` exactly for a Steam ID that is not cached; `Go to a Steam Profile` for an unreachable page, a missing reply or any other status |
| Popup.ClickView | popup.js:37-41 | a click on a disabled button changes nothing; on an enabled one it disables the button and shows `Updating...` |
| Popup.RefreshLabel | popup.js:44-53 | `Error: Refresh page` exactly when the page is unreachable; `Updated!` exactly on a truthy `success`; `Update Failed` for any other reply |
| Popup.RefreshView | popup.js:44-53 | the refresh reply changes the text only, never `disabled` |
| Popup.HandlersKeepClickableOnlyToRefresh | popup.js:12-53 | the status reply makes the button enabled only while it reads `Refresh Cached Data`, a click keeps that, and so does a refresh reply that directly follows a click on an enabled button |
| Popup.ClickDisablesForGood | popup.js:38-53 | after a click on an enabled button and any refresh reply, the button is disabled and shows one of the three outcomes |
| Popup.UpdateButton.OnPageStatus | popup.js:10-33 | the button's fields become `StatusView` of the reply |
| Popup.UpdateButton.OnClick | popup.js:37-43 | the fields become `ClickView` of the old ones; a refresh is sent exactly when the button was enabled |
| Popup.UpdateButton.OnRefreshReply | popup.js:44-54 | the fields become `RefreshView` of the old ones and the reply |

## Left out

- Console logging, and the asynchronous nature of `chrome.storage.local` and `fetch`: each call is one atomic step.
- Races between page contexts and the popup sharing the storage. Every operation runs to completion before the next one starts.
- The proxy URL and the HTTP request itself. The reply is an input. Only the fields `faceit_url` and `games.cs2.skill_level` of the JSON body are kept, and `games`, `cs2` and `skill_level` being absent collapse into one `None`.
- Entries of any other shape in storage (a non-object value, a non-numeric timestamp). A stored entry is always `{data, timestamp}` with an integer timestamp.
- Badge.Link: the icon's image path and tooltip (`images/faceit<level>.png`, `FACEIT Level <level> (<nickname>)`) and its styling are not modelled, since they format numbers as text and set CSS. The nickname is therefore not part of `Payload`.
- DOM querying is reduced to a flag for the `.actual_persona_name` element and the set of element ids.
- SteamId: regular expressions are modelled only as the two fixed patterns, as literal-prefix searches. `window.location.href` and `document.documentElement.innerHTML` are plain string inputs.
- Popup: `chrome.tabs.query` is not modelled. When there is no active tab, the status handler never runs and the button keeps its initial markup. That markup lives in popup.html, which is not part of this model. On a click with no active tab, `tabs[0].id` throws, so no refresh is sent and the text stays `Updating...`. The model only says that a refresh is sent, via `OnClick`'s result.
- Popup: the `setTimeout(() => window.close(), 1200)` after a successful update is left out, because it is a timer.
- The content script's side of the `GET_PAGE_STATUS` and `FORCE_REFRESH` messages (popup.js:10, popup.js:44). content.js has no message listener, so the popup model takes the replies as event inputs.
- Popup.HandlersKeepClickableOnlyToRefresh: does not cover a status reply that arrives between a click and its refresh reply. In that order (possible when the markup starts enabled and the user clicks before the status reply), the status reply re-enables the button as `Refresh Cached Data`, and the refresh reply then leaves it enabled while reading `Updated!`, `Update Failed` or `Error: Refresh page`.
