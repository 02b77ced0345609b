/** The per-pinboard toggle shown in Workflow's inline mode
    (client/src/inlinePinboardToggle.tsx): a click selects or deselects the
    pinboard, the panel is shown for the selected one, and the label shows
    the unread badge and the total count. */
module InlinePinboardToggle {
  import opened Shared

  /** `PinboardIdWithItemCounts`. */
  datatype ItemCounts = ItemCounts(pinboardId: PinboardId, unreadCount: int, totalCount: int)

  /** The id handed to `setMaybeSelectedPinboardId` on a click. */
  function ToggleTarget(isSelected: bool, pinboardId: PinboardId): (r: Option<PinboardId>)
    ensures isSelected ==> r.None?
    ensures !isSelected ==> r == Some(pinboardId)
  {
    if isSelected then None else Some(pinboardId)
  }

  /** With `isSelected` read from the selection, a click flips whether this pinboard is selected, and two
      clicks on an unselected pinboard leave nothing selected. */
  lemma ClickFlipsSelection(selected: Option<PinboardId>, pinboardId: PinboardId)
    ensures var after := ToggleTarget(selected == Some(pinboardId), pinboardId);
      (after == Some(pinboardId)) <==> selected != Some(pinboardId)
    ensures selected != Some(pinboardId) ==>
      var once := ToggleTarget(false, pinboardId);
      ToggleTarget(once == Some(pinboardId), pinboardId).None?
  {
  }

  /** The unread badge is shown when the pinboard has a non-zero unread count and the local unread flag
      is not an explicit `false`. */
  function ShowsUnreadBadge(counts: Option<ItemCounts>, unreadFlags: UnreadFlags, pinboardId: PinboardId): (r: bool)
    ensures r <==> counts.Some? && counts.value.unreadCount != 0 && !(pinboardId in unreadFlags && unreadFlags[pinboardId] == Some(false))
  {
    var flag := if pinboardId in unreadFlags then unreadFlags[pinboardId] else None;
    counts.Some? && counts.value.unreadCount != 0 && flag != Some(false)
  }

  /** A local `false` flag (the user has read the pinboard here) hides the badge whatever the count says. */
  lemma LocalReadHidesBadge(counts: Option<ItemCounts>, unreadFlags: UnreadFlags, pinboardId: PinboardId)
    ensures !ShowsUnreadBadge(counts, unreadFlags[pinboardId := Some(false)], pinboardId)
    ensures counts.Some? && counts.value.unreadCount != 0 ==> ShowsUnreadBadge(counts, unreadFlags[pinboardId := Some(true)], pinboardId)
  {
  }

  /** `counts?.totalCount || 0`. */
  function TotalShown(counts: Option<ItemCounts>): (r: int)
    ensures r == if counts.Some? then counts.value.totalCount else 0
  {
    if counts.Some? && counts.value.totalCount != 0 then counts.value.totalCount else 0
  }

  /** The toggle's label. */
  datatype Label = LoadingLabel | CountsLabel(unreadBadge: Option<int>, total: int)

  /** What the toggle renders: whether the panel is shown, and the label. */
  datatype ToggleView = ToggleView(panelShown: bool, caption: Label)

  function RenderToggle(isSelected: bool, isLoading: bool, counts: Option<ItemCounts>, unreadFlags: UnreadFlags, pinboardId: PinboardId): (r: ToggleView)
    ensures r.panelShown <==> isSelected
    ensures r.caption == LoadingLabel <==> isLoading
    ensures !isLoading ==> r.caption.total == TotalShown(counts)
    ensures !isLoading ==> (r.caption.unreadBadge.Some? <==> ShowsUnreadBadge(counts, unreadFlags, pinboardId))
    ensures !isLoading && r.caption.unreadBadge.Some? ==> r.caption.unreadBadge.value == counts.value.unreadCount
  {
    ToggleView(
      isSelected,
      if isLoading then LoadingLabel
      else CountsLabel(
        if ShowsUnreadBadge(counts, unreadFlags, pinboardId) then Some(counts.value.unreadCount) else None,
        TotalShown(counts)))
  }
}
