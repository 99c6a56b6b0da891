/** The main block of content.js: find the Steam ID, look the player up, and
    put at most one level badge, linking to the player's FACEIT profile, right
    after the profile's persona name. */
module Badge {
  import opened Wrappers
  import opened Text
  import opened SteamId
  import opened FaceitCache
  import opened FaceitLookup

  const LANG_PLACEHOLDER := "{lang}"
  const LANG := "en"
  const LINK_ID_PREFIX := "faceit-link-"

  /** The element id that marks the badge of a Steam ID. */
  function LinkId(steamId: string): (id: string)
    ensures |id| == |LINK_ID_PREFIX| + |steamId| && id[|LINK_ID_PREFIX|..] == steamId
  {
    LINK_ID_PREFIX + steamId
  }

  /** The inserted `<a id=... href=...>` with its level icon. */
  datatype Link = Link(elementId: string, href: string, level: int)

  /** Why the main block stopped, or the link it inserts. */
  datatype RenderOutcome =
    | NoRankedData   // no data, or `games.cs2.skill_level` missing or 0
    | UrlMissing     // `faceit_url` absent: `.replace` throws and the script stops
    | NoTarget       // no `.actual_persona_name` element on the page
    | AlreadyShown   // an element `faceit-link-<id>` already exists
    | Insert(link: Link)

  /** The guard on line 100: truthy data with a truthy CS2 skill level. */
  predicate HasRankedData(data: Option<Payload>)
  {
    data.Some? && data.value.Player? && data.value.skillLevel.Some? && data.value.skillLevel.value != 0
  }

  /** The badge decision of the main block, over the ids of the page's elements. */
  function RenderDecision(steamId: string, data: Option<Payload>, targetExists: bool, elementIds: set<string>)
    : (o: RenderOutcome)
    ensures o.Insert? <==>
              HasRankedData(data) && data.value.faceitUrl.Some? && targetExists && LinkId(steamId) !in elementIds
    ensures o.Insert? ==>
              && o.link.elementId == LinkId(steamId)
              && o.link.level == data.value.skillLevel.value
              && o.link.href == ReplaceFirst(data.value.faceitUrl.value, LANG_PLACEHOLDER, LANG)
    ensures o == NoRankedData <==> !HasRankedData(data)
  {
    if !HasRankedData(data) then NoRankedData
    else if data.value.faceitUrl.None? then UrlMissing
    else if !targetExists then NoTarget
    else if LinkId(steamId) in elementIds then AlreadyShown
    else
      var faceitUrl := ReplaceFirst(data.value.faceitUrl.value, LANG_PLACEHOLDER, LANG);
      Insert(Link(LinkId(steamId), faceitUrl, data.value.skillLevel.value))
  }

  /** The profile URL template's `{lang}` becomes `en`; the rest is kept. */
  lemma {:induction false} HrefFillsLanguage(base: string, rest: string)
    requires forall k: nat :: !OccursAt(base, LANG_PLACEHOLDER, k)
    ensures ReplaceFirst(base + LANG_PLACEHOLDER + rest, LANG_PLACEHOLDER, LANG) == base + LANG + rest
  {
    var s := base + LANG_PLACEHOLDER + rest;
    var i := |base|;
    assert s[i..i + |LANG_PLACEHOLDER|] == LANG_PLACEHOLDER;
    forall k: nat | k < i ensures !OccursAt(s, LANG_PLACEHOLDER, k) {
      if k + |LANG_PLACEHOLDER| <= i {
        assert s[k..k + |LANG_PLACEHOLDER|] == base[k..k + |LANG_PLACEHOLDER|];
        assert !OccursAt(base, LANG_PLACEHOLDER, k);
      } else {
        // An occurrence straddling the end of `base` would put a '{' inside
        // `{lang}` past its first character.
        var j := i - k;
        assert 0 < j < |LANG_PLACEHOLDER|;
        assert s[k..k + |LANG_PLACEHOLDER|][j] == s[i] == '{';
        assert LANG_PLACEHOLDER[j] != '{';
      }
    }
    assert s[..i] == base && s[i + |LANG_PLACEHOLDER|..] == rest;
  }

  /** A ranked player whose profile URL is a `{lang}` template gets a badge,
      on a page with the persona name and no badge for the ID yet, that links
      to the English profile page and shows the player's level. */
  lemma RankedPlayerGetsBadge(steamId: string, base: string, rest: string, level: int, elementIds: set<string>)
    requires forall k: nat :: !OccursAt(base, LANG_PLACEHOLDER, k)
    requires level != 0 && LinkId(steamId) !in elementIds
    ensures RenderDecision(steamId, Some(Player(Some(base + LANG_PLACEHOLDER + rest), Some(level))), true, elementIds)
            == Insert(Link(LinkId(steamId), base + LANG + rest, level))
  {
    HrefFillsLanguage(base, rest);
  }

  /** The Steam profile page, reduced to what the main block touches: whether
      the persona-name element exists, the ids of all elements, and the links
      inserted after the persona name, nearest first. */
  class ProfilePage {
    const targetExists: bool
    var elementIds: set<string>
    var links: seq<Link>

    /** Every inserted link is in the document under its own id, and no two share one. */
    ghost predicate Valid()
      reads this
    {
      && (forall i :: 0 <= i < |links| ==> links[i].elementId in elementIds)
      && (forall i, j :: 0 <= i < j < |links| ==> links[i].elementId != links[j].elementId)
    }

    constructor (targetExists: bool, elementIds: set<string>)
      ensures this.targetExists == targetExists && this.elementIds == elementIds && links == []
      ensures Valid()
    {
      this.targetExists := targetExists;
      this.elementIds := elementIds;
      links := [];
    }

    /** `getElementById`: is there an element with this id? */
    method HasElement(id: string) returns (b: bool)
      ensures b <==> id in elementIds
    {
      b := id in elementIds;
    }

    /** `insertAdjacentElement('afterend', link)` on the persona name. */
    method InsertAfterTarget(link: Link)
      requires Valid() && targetExists && link.elementId !in elementIds
      modifies this
      ensures Valid()
      ensures links == [link] + old(links) && elementIds == old(elementIds) + {link.elementId}
    {
      links := [link] + links;
      elementIds := elementIds + {link.elementId};
    }
  }

  /** The main block over the browser's state: extract the ID, resolve the
      player's data, then insert the badge when the guard allows. The page is
      left with at most one link for the ID. */
  method RunContentScript(storage: LocalStorage, page: ProfilePage, url: string, pageSource: string,
                          now: int, writeNow: int, faults: StorageFaults, reply: FetchReply)
    returns (outcome: Option<RenderOutcome>)
    requires page.Valid()
    modifies storage, page
    ensures page.Valid()
    ensures SteamId64(url, pageSource).None? ==>
              outcome.None? && storage.entries == old(storage.entries)
              && page.links == old(page.links) && page.elementIds == old(page.elementIds)
    ensures SteamId64(url, pageSource).Some? ==>
              var steamId := SteamId64(url, pageSource).value;
              var resolved := Resolve(old(storage.entries), steamId, now, writeNow, faults, reply);
              && storage.entries == resolved.entries
              && outcome == Some(RenderDecision(steamId, resolved.value, page.targetExists, old(page.elementIds)))
              && (outcome.value.Insert? ==>
                    page.links == [outcome.value.link] + old(page.links)
                    && page.elementIds == old(page.elementIds) + {LinkId(steamId)})
              && (!outcome.value.Insert? ==>
                    page.links == old(page.links) && page.elementIds == old(page.elementIds))
  {
    var steamId := SteamId64(url, pageSource);
    if steamId.None? {
      return None;
    }
    var playerData, _ := GetFaceitData(storage, steamId.value, now, writeNow, faults, reply);
    if !HasRankedData(playerData) {
      return Some(NoRankedData);
    }
    var player := playerData.value;
    if player.faceitUrl.None? {
      return Some(UrlMissing);
    }
    var faceitUrl := ReplaceFirst(player.faceitUrl.value, LANG_PLACEHOLDER, LANG);
    if !page.targetExists {
      return Some(NoTarget);
    }
    var shown := page.HasElement(LinkId(steamId.value));
    if shown {
      return Some(AlreadyShown);
    }
    var link := Link(LinkId(steamId.value), faceitUrl, player.skillLevel.value);
    page.InsertAfterTarget(link);
    outcome := Some(Insert(link));
  }

  /** However often the main block runs on a page, the page holds at most
      one badge for a Steam ID. */
  lemma AtMostOneLinkPerId(page: ProfilePage, steamId: string)
    requires page.Valid()
    ensures forall i, j ::
              0 <= i < |page.links| && 0 <= j < |page.links|
              && page.links[i].elementId == LinkId(steamId) && page.links[j].elementId == LinkId(steamId)
              ==> i == j
  {
  }
}
