/** The identifier extractor of content.js (`getSteamID64`): a 64-bit Steam ID
    is a run of 17 decimal digits, read from the profile URL when the URL has
    the form `steamcommunity.com/profiles/<id>`, and otherwise from the
    `"steamid":"<id>"` field embedded in the page's HTML. */
module SteamId {
  import opened Wrappers
  import opened Text

  const ID_LENGTH: nat := 17

  /** `/steamcommunity\.com\/profiles\/(\d{17})/`: prefix, digits, nothing after. */
  const PROFILE_PREFIX := "steamcommunity.com/profiles/"
  const PROFILE_SUFFIX := ""

  /** `/"steamid":"(\d{17})"/`: prefix, digits, closing quote. */
  const EMBEDDED_PREFIX := "\"steamid\":\""
  const EMBEDDED_SUFFIX := "\""

  /** The pattern `prefix (\d{17}) suffix` matches `s` at index `i`. */
  predicate MatchesAt(s: string, prefix: string, suffix: string, i: nat)
  {
    var start := i + |prefix|;
    && start + ID_LENGTH + |suffix| <= |s|
    && s[i..start] == prefix
    && AllDigits(s[start..start + ID_LENGTH])
    && s[start + ID_LENGTH..start + ID_LENGTH + |suffix|] == suffix
  }

  /** The 17 characters captured by the group of a match at `i`. */
  function CapturedAt(s: string, prefix: string, suffix: string, i: nat): string
    requires MatchesAt(s, prefix, suffix, i)
  {
    s[i + |prefix|..i + |prefix| + ID_LENGTH]
  }

  /** Where the regex engine finds the leftmost match at or after `from`. */
  function FirstMatch(s: string, prefix: string, suffix: string, from: nat): (r: Option<nat>)
    decreases |s| + 1 - from
    ensures r.Some? ==> from <= r.value && MatchesAt(s, prefix, suffix, r.value)
    ensures r.Some? ==> forall k: nat :: from <= k < r.value ==> !MatchesAt(s, prefix, suffix, k)
    ensures r.None? ==> forall k: nat :: from <= k ==> !MatchesAt(s, prefix, suffix, k)
  {
    if from + |prefix| + ID_LENGTH + |suffix| > |s| then None
    else if MatchesAt(s, prefix, suffix, from) then Some(from)
    else FirstMatch(s, prefix, suffix, from + 1)
  }

  /** `s.match(/prefix(\d{17})suffix/)?.[1]`: the captured group of the
      leftmost match, or `None` when the pattern matches nowhere. */
  function Capture(s: string, prefix: string, suffix: string): (r: Option<string>)
    ensures r.Some? ==> |r.value| == ID_LENGTH && AllDigits(r.value)
    ensures r.None? <==> forall k: nat :: !MatchesAt(s, prefix, suffix, k)
    ensures r.Some? ==>
              exists i: nat :: MatchesAt(s, prefix, suffix, i) && r.value == CapturedAt(s, prefix, suffix, i)
                               && forall k: nat :: k < i ==> !MatchesAt(s, prefix, suffix, k)
  {
    match FirstMatch(s, prefix, suffix, 0)
    case None => None
    case Some(i) => Some(CapturedAt(s, prefix, suffix, i))
  }

  /** getSteamID64: the URL's profile ID wins over the ID embedded in the page
      source; `None` stands for the `null` returned when neither matches. */
  function SteamId64(url: string, pageSource: string): (r: Option<string>)
    ensures r.Some? ==> |r.value| == ID_LENGTH && AllDigits(r.value)
    ensures Capture(url, PROFILE_PREFIX, PROFILE_SUFFIX).Some? ==>
              r == Capture(url, PROFILE_PREFIX, PROFILE_SUFFIX)
    ensures Capture(url, PROFILE_PREFIX, PROFILE_SUFFIX).None? ==>
              r == Capture(pageSource, EMBEDDED_PREFIX, EMBEDDED_SUFFIX)
    ensures r.None? <==>
              (forall k: nat :: !MatchesAt(url, PROFILE_PREFIX, PROFILE_SUFFIX, k))
              && (forall k: nat :: !MatchesAt(pageSource, EMBEDDED_PREFIX, EMBEDDED_SUFFIX, k))
  {
    var fromUrl := Capture(url, PROFILE_PREFIX, PROFILE_SUFFIX);
    if fromUrl.Some? then fromUrl else Capture(pageSource, EMBEDDED_PREFIX, EMBEDDED_SUFFIX)
  }

  /** An `https://` profile URL yields its ID, whatever follows the ID and
      whatever ID the page source embeds. */
  lemma {:induction false} ProfileUrlWins(id: string, rest: string, pageSource: string)
    requires |id| == ID_LENGTH && AllDigits(id)
    ensures SteamId64("https://" + PROFILE_PREFIX + id + rest, pageSource) == Some(id)
  {
    var scheme := "https://";
    var url := scheme + PROFILE_PREFIX + id + rest;
    assert url[8..8 + |PROFILE_PREFIX|] == PROFILE_PREFIX;
    assert url[8 + |PROFILE_PREFIX|..8 + |PROFILE_PREFIX| + ID_LENGTH] == id;
    assert MatchesAt(url, PROFILE_PREFIX, PROFILE_SUFFIX, 8);
    forall k: nat | k < 8 ensures !MatchesAt(url, PROFILE_PREFIX, PROFILE_SUFFIX, k) {
      assert url[k] == scheme[k] && url[5] == scheme[5];
      assert url[k..k + |PROFILE_PREFIX|][0] == url[k];
      assert url[k..k + |PROFILE_PREFIX|][1] == url[k + 1];
    }
  }
}
