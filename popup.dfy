/** The popup of the extension (popup.js): one "manual update" button whose
    `disabled` flag and label follow the content script's replies. The popup
    asks the page for its status when it opens, and a click on an enabled
    button asks the page for a forced refresh. Replies arrive as events. */
module Popup {
  import opened Wrappers

  const GO_TO_PROFILE := "Go to a Steam Profile"
  const REFRESH_CACHED := "Refresh Cached Data"
  const UP_TO_DATE := "Data is Up-to-Date"
  const UPDATING := "Updating..."
  const REFRESH_ERROR := "Error: Refresh page"
  const UPDATED := "Updated!"
  const UPDATE_FAILED := "Update Failed"

  const HAS_STEAM_ID := "HAS_STEAM_ID"

  /** The outcome of `chrome.tabs.sendMessage`: the content script could not
      be reached (`chrome.runtime.lastError` is set), or the callback got a
      response, possibly `undefined`. */
  datatype Delivery<T> = Unreachable | Delivered(response: Option<T>)

  /** The reply to `GET_PAGE_STATUS`; `isCached` is its truthiness. */
  datatype PageStatus = PageStatus(status: string, isCached: bool)

  /** The reply to `FORCE_REFRESH`; `success` is its truthiness. */
  datatype RefreshResult = RefreshResult(success: bool)

  /** What the user sees of the button. */
  datatype ButtonView = ButtonView(disabled: bool, text: string)

  /** The page reported a Steam ID. */
  predicate ReportsSteamId(reply: Delivery<PageStatus>)
  {
    reply.Delivered? && reply.response.Some? && reply.response.value.status == HAS_STEAM_ID
  }

  /** The button after the `GET_PAGE_STATUS` reply. */
  function StatusView(reply: Delivery<PageStatus>): (v: ButtonView)
    ensures !v.disabled <==> ReportsSteamId(reply) && reply.response.value.isCached
    ensures !v.disabled <==> v.text == REFRESH_CACHED
    ensures v.text == UP_TO_DATE <==> ReportsSteamId(reply) && !reply.response.value.isCached
    ensures v.text == GO_TO_PROFILE <==> !ReportsSteamId(reply)
  {
    if reply.Unreachable? then ButtonView(true, GO_TO_PROFILE)
    else if ReportsSteamId(reply) then
      if reply.response.value.isCached then ButtonView(false, REFRESH_CACHED)
      else ButtonView(true, UP_TO_DATE)
    else ButtonView(true, GO_TO_PROFILE)
  }

  /** The button right after a click, before any reply: a disabled button
      ignores the click. */
  function ClickView(v: ButtonView): (w: ButtonView)
    ensures v.disabled ==> w == v
    ensures !v.disabled ==> w.disabled && w.text == UPDATING
  {
    if v.disabled then v else ButtonView(true, UPDATING)
  }

  /** The label after the `FORCE_REFRESH` reply. */
  function RefreshLabel(reply: Delivery<RefreshResult>): (caption: string)
    ensures caption == REFRESH_ERROR <==> reply.Unreachable?
    ensures caption == UPDATED <==> reply.Delivered? && reply.response.Some? && reply.response.value.success
    ensures caption == UPDATE_FAILED <==>
              reply.Delivered? && (reply.response.None? || !reply.response.value.success)
  {
    if reply.Unreachable? then REFRESH_ERROR
    else if reply.response.Some? && reply.response.value.success then UPDATED
    else UPDATE_FAILED
  }

  /** The button after the `FORCE_REFRESH` reply: only the label changes. */
  function RefreshView(v: ButtonView, reply: Delivery<RefreshResult>): (w: ButtonView)
    ensures w.disabled == v.disabled && w.text == RefreshLabel(reply)
  {
    ButtonView(v.disabled, RefreshLabel(reply))
  }

  /** The button is enabled only while it offers to refresh cached data. */
  predicate ClickableOnlyToRefresh(v: ButtonView)
  {
    !v.disabled ==> v.text == REFRESH_CACHED
  }

  /** Every handler keeps the button enabled only while it offers a refresh:
      the status reply establishes it from any state, a click preserves it,
      and the refresh reply, which follows only a click, preserves it. */
  lemma HandlersKeepClickableOnlyToRefresh(v: ButtonView, status: Delivery<PageStatus>, refresh: Delivery<RefreshResult>)
    ensures ClickableOnlyToRefresh(StatusView(status))
    ensures ClickableOnlyToRefresh(v) ==> ClickableOnlyToRefresh(ClickView(v))
    ensures !v.disabled ==> ClickableOnlyToRefresh(RefreshView(ClickView(v), refresh))
  {
  }

  /** A click on an enabled button disables it for good: whatever the refresh
      reply, the button stays disabled and shows one of the three outcomes. */
  lemma ClickDisablesForGood(v: ButtonView, refresh: Delivery<RefreshResult>)
    requires !v.disabled
    ensures var w := RefreshView(ClickView(v), refresh);
            w.disabled && w.text in {REFRESH_ERROR, UPDATED, UPDATE_FAILED}
  {
  }

  /** The `manual-update-btn` element. Its state before the first reply is
      whatever the popup's markup gives it. */
  class UpdateButton {
    var disabled: bool
    var textContent: string

    constructor (disabled: bool, textContent: string)
      ensures this.disabled == disabled && this.textContent == textContent
    {
      this.disabled := disabled;
      this.textContent := textContent;
    }

    function View(): ButtonView
      reads this
    {
      ButtonView(disabled, textContent)
    }

    /** The callback of the `GET_PAGE_STATUS` message. */
    method OnPageStatus(reply: Delivery<PageStatus>)
      modifies this
      ensures View() == StatusView(reply)
    {
      if reply.Unreachable? {
        disabled := true;
        textContent := GO_TO_PROFILE;
        return;
      }
      var response := reply.response;
      if response.Some? && response.value.status == HAS_STEAM_ID {
        disabled := false;
        if response.value.isCached {
          textContent := REFRESH_CACHED;
        } else {
          textContent := UP_TO_DATE;
          disabled := true;
        }
      } else {
        disabled := true;
        textContent := GO_TO_PROFILE;
      }
    }

    /** The click listener. `sendsRefresh` says whether a `FORCE_REFRESH`
        message goes out, whose reply is then delivered to OnRefreshReply. */
    method OnClick() returns (sendsRefresh: bool)
      modifies this
      ensures sendsRefresh == !old(disabled)
      ensures View() == ClickView(old(View()))
    {
      if disabled {
        return false;
      }
      disabled := true;
      textContent := UPDATING;
      sendsRefresh := true;
    }

    /** The callback of the `FORCE_REFRESH` message. */
    method OnRefreshReply(reply: Delivery<RefreshResult>)
      modifies this
      ensures View() == RefreshView(old(View()), reply)
    {
      if reply.Unreachable? {
        textContent := REFRESH_ERROR;
      } else if reply.response.Some? && reply.response.value.success {
        textContent := UPDATED;
      } else {
        textContent := UPDATE_FAILED;
      }
    }
  }
}
