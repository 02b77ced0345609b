/** The floaty: the collapsible panel that keeps track of the pinboards the
    user has open (client/src/floaty.tsx). Its React state is the list of
    manually opened pinboards, the optional preselected pinboard (the one the
    host page's Composer id resolves to), the selected pinboard id and two
    per-pinboard maps, for errors and for unread flags. The transitions are
    pure functions of that state; `FloatyState` holds the state and applies
    them. */
module Floaty {
  import opened Seqs
  import opened Shared

  /** The pinboards that are mounted: only the preselected one when there is one, otherwise the manual list. */
  function ActivePinboards(preselected: Option<PinboardData>, manual: seq<PinboardData>): seq<PinboardData> {
    if preselected.Some? then [preselected.value] else manual
  }

  function ActivePinboardIds(preselected: Option<PinboardData>, manual: seq<PinboardData>): seq<PinboardId> {
    Ids(ActivePinboards(preselected, manual))
  }

  /** The active pinboards never repeat an id while the manual list does not. */
  lemma ActiveIdsUnique(preselected: Option<PinboardData>, manual: seq<PinboardData>)
    requires UniqueIds(manual)
    ensures UniqueIds(ActivePinboards(preselected, manual))
  {
  }

  /** The manual list after `openPinboard(p)`: appended only when there is no preselected pinboard and `p` is not active. */
  function ManualAfterOpen(preselected: Option<PinboardData>, manual: seq<PinboardData>, p: PinboardData): (r: seq<PinboardData>)
    ensures preselected.Some? || p.id in Ids(manual) ==> r == manual
    ensures preselected.None? && p.id !in Ids(manual) ==> r == manual + [p]
    ensures preselected.None? ==> p.id in ActivePinboardIds(preselected, r)
  {
    if p.id !in ActivePinboardIds(preselected, manual) && preselected.None? then
      IdsAppend(manual, [p]);
      manual + [p]
    else manual
  }

  /** Opening keeps the ids of the manual list unique. */
  lemma OpenKeepsUniqueIds(preselected: Option<PinboardData>, manual: seq<PinboardData>, p: PinboardData)
    requires UniqueIds(manual)
    ensures UniqueIds(ManualAfterOpen(preselected, manual, p))
  {
    if preselected.None? && p.id !in Ids(manual) {
      AppendNewKeepsUnique(manual, p);
    }
  }

  /** The selection after `openPinboard(p)`: `p` is selected unless a different pinboard is preselected. */
  function SelectionAfterOpen(preselected: Option<PinboardData>, selected: Option<PinboardId>, p: PinboardData): Option<PinboardId> {
    if preselected.None? || preselected.value.id == p.id then Some(p.id) else selected
  }

  /** `openPinboard(p)` asks for a new browser window exactly when `p` is not active and a pinboard is preselected. */
  function OpenRequestsWindow(preselected: Option<PinboardData>, manual: seq<PinboardData>, p: PinboardData): (r: bool)
    ensures r <==> preselected.Some? && preselected.value.id != p.id
  {
    p.id !in ActivePinboardIds(preselected, manual) && preselected.Some?
  }

  /** With a preselected pinboard, opening another one only asks for a window: the manual list, the
      active list and the selection stay as they were. */
  lemma OpenWithPreselection(q: PinboardData, manual: seq<PinboardData>, selected: Option<PinboardId>, p: PinboardData)
    requires p.id != q.id
    ensures ManualAfterOpen(Some(q), manual, p) == manual
    ensures ActivePinboards(Some(q), ManualAfterOpen(Some(q), manual, p)) == [q]
    ensures SelectionAfterOpen(Some(q), selected, p) == selected
    ensures OpenRequestsWindow(Some(q), manual, p)
  {
  }

  /** The Composer domain: the code domain for local, code and test hosts, the production one otherwise. */
  function ComposerDomain(hostname: string): (r: string)
    ensures r == "code.dev-gutools.co.uk" <==> Includes(hostname, ".local.") || Includes(hostname, ".code.") || Includes(hostname, ".test.")
    ensures r == "code.dev-gutools.co.uk" || r == "gutools.co.uk"
  {
    if Includes(hostname, ".local.") || Includes(hostname, ".code.") || Includes(hostname, ".test.")
    then "code.dev-gutools.co.uk"
    else "gutools.co.uk"
  }

  /** The URL opened in a new window: the pinboard's Composer page, asking it to expand the floaty
      (`..` stands in for a missing or empty Composer id). */
  function ComposerUrl(hostname: string, p: PinboardData, expandQueryParam: string): string {
    "https://composer." + ComposerDomain(hostname) + "/content/"
      + (if TruthyString(p.composerId) then p.composerId.value else "..")
      + "?" + expandQueryParam + "=true"
  }

  /** A pinboard without a Composer id opens the Composer content root with the expand parameter. */
  lemma ComposerUrlWithoutComposerId(hostname: string, p: PinboardData, expandQueryParam: string)
    requires p.composerId == None || p.composerId == Some("")
    ensures var prefix := "https://composer." + ComposerDomain(hostname);
      ComposerUrl(hostname, p, expandQueryParam) == prefix + "/content/..?" + expandQueryParam + "=true"
  {
  }

  /** The manual list after `closePinboard(id)`: the id is filtered out when it is active. */
  function ManualAfterClose(preselected: Option<PinboardData>, manual: seq<PinboardData>, id: PinboardId): (r: seq<PinboardData>)
    ensures id in ActivePinboardIds(preselected, manual) ==> r == RemoveId(manual, id)
    ensures id !in ActivePinboardIds(preselected, manual) ==> r == manual
  {
    if id in ActivePinboardIds(preselected, manual) then RemoveId(manual, id) else manual
  }

  /** Without a preselected pinboard, closing filters the id out of the manual list whether or not it
      was there, so it is no longer active; the ids stay unique. */
  lemma CloseWithoutPreselection(manual: seq<PinboardData>, id: PinboardId)
    requires UniqueIds(manual)
    ensures ManualAfterClose(None, manual, id) == RemoveId(manual, id)
    ensures id !in ActivePinboardIds(None, ManualAfterClose(None, manual, id))
    ensures UniqueIds(ManualAfterClose(None, manual, id))
  {
    if id !in Ids(manual) {
      RemoveIdAbsent(manual, id);
    }
    RemoveIdKeepsUnique(manual, id);
  }

  /** Closing keeps the ids of the manual list unique. */
  lemma CloseKeepsUniqueIds(preselected: Option<PinboardData>, manual: seq<PinboardData>, id: PinboardId)
    requires UniqueIds(manual)
    ensures UniqueIds(ManualAfterClose(preselected, manual, id))
  {
    RemoveIdKeepsUnique(manual, id);
  }

  /** `setUnreadFlag(id)(flag)` asks to clear the desktop notifications exactly when the flag is falsy. */
  predicate ClearsNotifications(flag: Option<bool>) {
    !TruthyFlag(flag)
  }

  /** The pinboard counts as open for a new item when the floaty is expanded and it is the selected one. */
  predicate PinboardIsOpen(isExpanded: bool, selected: Option<PinboardId>, id: PinboardId) {
    isExpanded && selected == Some(id)
  }

  /** The unread flags after a created-item event. */
  function UnreadAfterCreatedItem(flags: UnreadFlags, item: Item, userEmail: Email, isExpanded: bool, selected: Option<PinboardId>): UnreadFlags {
    if userEmail in item.mentions && !PinboardIsOpen(isExpanded, selected, item.pinboardId)
    then flags[item.pinboardId := Some(true)]
    else flags
  }

  /** A created item marks its pinboard unread if and only if the user is mentioned and that pinboard is
      not open; no other pinboard's flag changes. */
  lemma CreatedItemUnread(flags: UnreadFlags, item: Item, userEmail: Email, isExpanded: bool, selected: Option<PinboardId>)
    ensures var r := UnreadAfterCreatedItem(flags, item, userEmail, isExpanded, selected);
      var pid := item.pinboardId;
      && ((pid in r && r[pid] == Some(true))
          <==> (userEmail in item.mentions && !PinboardIsOpen(isExpanded, selected, pid)) || (pid in flags && flags[pid] == Some(true)))
      && (!(userEmail in item.mentions) || PinboardIsOpen(isExpanded, selected, pid) ==> r == flags)
      && (forall id :: id != pid ==> (id in r <==> id in flags) && (id in r ==> r[id] == flags[id]))
  {
  }

  /** Some flag anywhere is true (`hasUnread`), whether or not its pinboard is active. */
  predicate HasUnread(flags: UnreadFlags) {
    exists id :: id in flags && TruthyFlag(flags[id])
  }

  /** Some active pinboard has an error (`hasError`). */
  predicate HasError(errors: ErrorsByPinboard, preselected: Option<PinboardData>, manual: seq<PinboardData>) {
    HasErrorAmong(errors, ActivePinboardIds(preselected, manual))
  }

  /** An error recorded for a pinboard that is not active does not change `hasError`. */
  lemma HasErrorIgnoresInactive(errors: ErrorsByPinboard, preselected: Option<PinboardData>, manual: seq<PinboardData>, id: PinboardId, e: Option<ApolloError>)
    requires id !in ActivePinboardIds(preselected, manual)
    ensures HasError(errors[id := e], preselected, manual) == HasError(errors, preselected, manual)
  {
    var ids := ActivePinboardIds(preselected, manual);
    if HasError(errors[id := e], preselected, manual) {
      var k :| k in errors[id := e] && k in ids && errors[id := e][k].Some?;
      assert k in errors && errors[k].Some?;
    }
    if HasError(errors, preselected, manual) {
      var k :| k in errors && k in ids && errors[k].Some?;
      assert k in errors[id := e] && errors[id := e][k].Some?;
    }
  }

  /** `hasUnreadOnOtherPinboard` for the pinboard `id`: some different pinboard's flag is true. */
  function HasUnreadOnOtherPinboard(flags: UnreadFlags, id: PinboardId): (r: bool)
    ensures r <==> exists other :: other in flags && other != id && TruthyFlag(flags[other])
  {
    HasUnread(flags) && exists other :: other in flags && TruthyFlag(flags[other]) && other != id
  }

  /** `hasErrorOnOtherPinboard` for the pinboard `id`: some active pinboard has an error, and so does a
      pinboard other than `id` (active or not). */
  predicate HasErrorOnOtherPinboard(errors: ErrorsByPinboard, preselected: Option<PinboardData>, manual: seq<PinboardData>, id: PinboardId) {
    HasError(errors, preselected, manual) && exists other :: other in errors && errors[other].Some? && other != id
  }

  /** What a pinboard sees of the others' errors: its own error alone never lights its "error on another
      pinboard" indicator, an error on another active pinboard always does, and once its own pinboard has
      an error, an error kept for a pinboard that was closed lights it too. */
  lemma ErrorOnOtherPinboardCases(errors: ErrorsByPinboard, preselected: Option<PinboardData>, manual: seq<PinboardData>, id: PinboardId, other: PinboardId)
    ensures (forall k :: k in errors && errors[k].Some? ==> k == id) ==> !HasErrorOnOtherPinboard(errors, preselected, manual, id)
    ensures other != id && other in ActivePinboardIds(preselected, manual) && other in errors && errors[other].Some?
            ==> HasErrorOnOtherPinboard(errors, preselected, manual, id)
    ensures id in ActivePinboardIds(preselected, manual) && id in errors && errors[id].Some? && other != id && other in errors && errors[other].Some?
            ==> HasErrorOnOtherPinboard(errors, preselected, manual, id)
  {
  }

  /** A mounted pinboard is shown expanded when it is the selected one and the floaty is expanded. */
  predicate PinboardIsExpanded(selected: Option<PinboardId>, isExpanded: bool, id: PinboardId) {
    selected == Some(id) && isExpanded
  }

  /** At most one pinboard is shown expanded. */
  lemma AtMostOneExpanded(selected: Option<PinboardId>, isExpanded: bool, a: PinboardId, b: PinboardId)
    requires PinboardIsExpanded(selected, isExpanded, a) && PinboardIsExpanded(selected, isExpanded, b)
    ensures a == b
  {
  }

  /** The notification bubble shows when a preset count is given or some flag is unread. */
  predicate ShowsNotificationsBubble(presetUnreadNotifications: Option<int>, flags: UnreadFlags) {
    presetUnreadNotifications.Some? || HasUnread(flags)
  }

  /** `setUnreadFlag(id)(flag)` clears the pinboard's desktop notifications exactly when the pinboard is
      left not unread; a cleared pinboard then leaves `hasUnread` to the other pinboards, and a pinboard
      marked unread makes it true. */
  lemma ClearedPinboardIsNotUnread(flags: UnreadFlags, id: PinboardId, flag: Option<bool>)
    ensures ClearsNotifications(flag) <==> !TruthyFlag(flags[id := flag][id])
    ensures ClearsNotifications(flag) ==> (HasUnread(flags[id := flag]) <==> HasUnreadOnOtherPinboard(flags, id))
    ensures !ClearsNotifications(flag) ==> HasUnread(flags[id := flag])
  {
    var r := flags[id := flag];
    if ClearsNotifications(flag) && HasUnread(r) {
      var k :| k in r && TruthyFlag(r[k]);
      assert k != id && k in flags && TruthyFlag(flags[k]);
    }
    if ClearsNotifications(flag) && HasUnreadOnOtherPinboard(flags, id) {
      var k :| k in flags && k != id && TruthyFlag(flags[k]);
      assert k in r && TruthyFlag(r[k]);
    }
    if !ClearsNotifications(flag) {
      assert id in r && TruthyFlag(r[id]);
    }
  }

  /** The bubble follows the unread flags: a created item that marks its pinboard unread shows it, and
      without a preset count it goes once the last unread pinboard is cleared. */
  lemma BubbleFollowsUnreadFlags(
    presetUnreadNotifications: Option<int>, flags: UnreadFlags, item: Item, userEmail: Email, isExpanded: bool,
    selected: Option<PinboardId>, id: PinboardId, flag: Option<bool>)
    ensures userEmail in item.mentions && !PinboardIsOpen(isExpanded, selected, item.pinboardId)
            ==> ShowsNotificationsBubble(presetUnreadNotifications, UnreadAfterCreatedItem(flags, item, userEmail, isExpanded, selected))
    ensures presetUnreadNotifications.Some? ==> ShowsNotificationsBubble(presetUnreadNotifications, flags)
    ensures ClearsNotifications(flag) && !HasUnreadOnOtherPinboard(flags, id) ==> !ShowsNotificationsBubble(None, flags[id := flag])
  {
    if userEmail in item.mentions && !PinboardIsOpen(isExpanded, selected, item.pinboardId) {
      var r := UnreadAfterCreatedItem(flags, item, userEmail, isExpanded, selected);
      assert item.pinboardId in r && r[item.pinboardId] == Some(true);
    }
    ClearedPinboardIsNotUnread(flags, id, flag);
  }

  /** The floaty's component state, together with the requests it makes of the browser
      (`window.open`) and of the service worker (clearing a pinboard's desktop notifications). */
  class FloatyState {
    const userEmail: Email
    const hostname: string
    const expandQueryParam: string

    var manuallyOpenedPinboards: seq<PinboardData>
    var preselectedPinboard: Option<PinboardData>
    var selectedPinboardId: Option<PinboardId>
    var isExpanded: bool
    var errors: ErrorsByPinboard
    var unreadFlags: UnreadFlags

    /** URLs handed to `window.open`, oldest first. */
    var openedWindows: seq<string>
    /** Pinboard ids handed to `clearDesktopNotificationsForPinboardId`, oldest first. */
    var clearedNotifications: seq<PinboardId>

    ghost predicate Valid()
      reads this
    {
      UniqueIds(manuallyOpenedPinboards)
    }

    constructor (userEmail: Email, hostname: string, expandQueryParam: string, isExpanded: bool)
      ensures Valid()
      ensures this.userEmail == userEmail && this.hostname == hostname && this.expandQueryParam == expandQueryParam
      ensures manuallyOpenedPinboards == [] && preselectedPinboard == None && selectedPinboardId == None
      ensures this.isExpanded == isExpanded && errors == map[] && unreadFlags == map[]
      ensures openedWindows == [] && clearedNotifications == []
    {
      this.userEmail, this.hostname, this.expandQueryParam := userEmail, hostname, expandQueryParam;
      manuallyOpenedPinboards, preselectedPinboard, selectedPinboardId := [], None, None;
      this.isExpanded, errors, unreadFlags := isExpanded, map[], map[];
      openedWindows, clearedNotifications := [], [];
    }

    /** The preselected-pinboard query resolved (or was cleared): the selection follows it. */
    method SetPreselectedPinboard(p: Option<PinboardData>)
      requires Valid()
      modifies this
      ensures Valid()
      ensures preselectedPinboard == p
      ensures selectedPinboardId == (if p.Some? then Some(p.value.id) else None)
      ensures manuallyOpenedPinboards == old(manuallyOpenedPinboards) && isExpanded == old(isExpanded)
      ensures errors == old(errors) && unreadFlags == old(unreadFlags)
      ensures openedWindows == old(openedWindows) && clearedNotifications == old(clearedNotifications)
    {
      preselectedPinboard := p;
      selectedPinboardId := if p.Some? then Some(p.value.id) else None;
    }

    method OpenPinboard(p: PinboardData)
      requires Valid()
      modifies this
      ensures Valid()
      ensures manuallyOpenedPinboards == ManualAfterOpen(old(preselectedPinboard), old(manuallyOpenedPinboards), p)
      ensures selectedPinboardId == SelectionAfterOpen(old(preselectedPinboard), old(selectedPinboardId), p)
      ensures openedWindows == old(openedWindows)
        + (if OpenRequestsWindow(old(preselectedPinboard), old(manuallyOpenedPinboards), p) then [ComposerUrl(hostname, p, expandQueryParam)] else [])
      ensures preselectedPinboard == old(preselectedPinboard) && isExpanded == old(isExpanded)
      ensures errors == old(errors) && unreadFlags == old(unreadFlags) && clearedNotifications == old(clearedNotifications)
    {
      OpenKeepsUniqueIds(preselectedPinboard, manuallyOpenedPinboards, p);
      if p.id !in ActivePinboardIds(preselectedPinboard, manuallyOpenedPinboards) {
        if preselectedPinboard.Some? {
          openedWindows := openedWindows + [ComposerUrl(hostname, p, expandQueryParam)];
        } else {
          manuallyOpenedPinboards := ManualAfterOpen(preselectedPinboard, manuallyOpenedPinboards, p);
        }
      }
      if preselectedPinboard.None? || preselectedPinboard.value.id == p.id {
        selectedPinboardId := Some(p.id);
      }
    }

    method SetError(id: PinboardId, e: Option<ApolloError>)
      requires Valid()
      modifies this
      ensures Valid()
      ensures errors == old(errors)[id := e]
      ensures manuallyOpenedPinboards == old(manuallyOpenedPinboards) && preselectedPinboard == old(preselectedPinboard)
      ensures selectedPinboardId == old(selectedPinboardId) && isExpanded == old(isExpanded)
      ensures unreadFlags == old(unreadFlags)
      ensures openedWindows == old(openedWindows) && clearedNotifications == old(clearedNotifications)
    {
      errors := errors[id := e];
    }

    method SetUnreadFlag(id: PinboardId, flag: Option<bool>)
      requires Valid()
      modifies this
      ensures Valid()
      ensures unreadFlags == old(unreadFlags)[id := flag]
      ensures clearedNotifications == old(clearedNotifications) + (if ClearsNotifications(flag) then [id] else [])
      ensures manuallyOpenedPinboards == old(manuallyOpenedPinboards) && preselectedPinboard == old(preselectedPinboard)
      ensures selectedPinboardId == old(selectedPinboardId) && isExpanded == old(isExpanded)
      ensures errors == old(errors) && openedWindows == old(openedWindows)
    {
      unreadFlags := unreadFlags[id := flag];
      if !TruthyFlag(flag) {
        clearedNotifications := clearedNotifications + [id];
      }
    }

    method ClosePinboard(id: PinboardId)
      requires Valid()
      modifies this
      ensures Valid()
      ensures manuallyOpenedPinboards == ManualAfterClose(old(preselectedPinboard), old(manuallyOpenedPinboards), id)
      ensures selectedPinboardId == None
      ensures unreadFlags == old(unreadFlags)[id := None] && errors == old(errors)[id := None]
      ensures clearedNotifications == old(clearedNotifications) + [id]
      ensures preselectedPinboard == old(preselectedPinboard) && isExpanded == old(isExpanded)
      ensures openedWindows == old(openedWindows)
    {
      CloseKeepsUniqueIds(preselectedPinboard, manuallyOpenedPinboards, id);
      manuallyOpenedPinboards := ManualAfterClose(preselectedPinboard, manuallyOpenedPinboards, id);
      selectedPinboardId := None;
      SetUnreadFlag(id, None);
      SetError(id, None);
    }

    /** The subscription to every created item. */
    method OnCreateItem(item: Item)
      requires Valid()
      modifies this
      ensures Valid()
      ensures unreadFlags == UnreadAfterCreatedItem(old(unreadFlags), item, userEmail, isExpanded, selectedPinboardId)
      ensures manuallyOpenedPinboards == old(manuallyOpenedPinboards) && preselectedPinboard == old(preselectedPinboard)
      ensures selectedPinboardId == old(selectedPinboardId) && isExpanded == old(isExpanded)
      ensures errors == old(errors)
      ensures openedWindows == old(openedWindows) && clearedNotifications == old(clearedNotifications)
    {
      var isMentioned := userEmail in item.mentions;
      var pinboardIsOpen := isExpanded && selectedPinboardId == Some(item.pinboardId);
      if isMentioned && !pinboardIsOpen {
        SetUnreadFlag(item.pinboardId, Some(true));
      }
    }

    /** A click on the floaty button. */
    method ToggleExpanded()
      requires Valid()
      modifies this
      ensures Valid()
      ensures isExpanded == !old(isExpanded)
      ensures manuallyOpenedPinboards == old(manuallyOpenedPinboards) && preselectedPinboard == old(preselectedPinboard)
      ensures selectedPinboardId == old(selectedPinboardId)
      ensures errors == old(errors) && unreadFlags == old(unreadFlags)
      ensures openedWindows == old(openedWindows) && clearedNotifications == old(clearedNotifications)
    {
      isExpanded := !isExpanded;
    }

    /** A `message` event from another window carrying an item (a click on a desktop notification):
        expand the floaty and select the item's pinboard. */
    method OnItemMessage(fromOtherWindow: bool, itemPinboardId: PinboardId)
      requires Valid()
      modifies this
      ensures Valid()
      ensures isExpanded == (fromOtherWindow || old(isExpanded))
      ensures selectedPinboardId == (if fromOtherWindow then Some(itemPinboardId) else old(selectedPinboardId))
      ensures manuallyOpenedPinboards == old(manuallyOpenedPinboards) && preselectedPinboard == old(preselectedPinboard)
      ensures errors == old(errors) && unreadFlags == old(unreadFlags)
      ensures openedWindows == old(openedWindows) && clearedNotifications == old(clearedNotifications)
    {
      if fromOtherWindow {
        isExpanded := true;
        selectedPinboardId := Some(itemPinboardId);
      }
    }
  }
}
