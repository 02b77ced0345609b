/** The state of one mounted pinboard (client/src/pinboard.tsx): the items
    delivered by the created-item subscription, the sends the server has
    confirmed, and the lookup of the last item each user has seen, fed both
    by the initial query and by the seen-item subscription. */
module Pinboard {
  import opened Shared

  type SeenLookup = map<Email, LastItemSeenByUser>

  /** One seen-item event folded into the lookup: the user's entry is replaced when there is none or the
      new `seenAt` is strictly later. The guard and the write read the same state (see
      `SeenStepAsWritten` for the code, which guards against an older state). */
  function SeenStep(lookup: SeenLookup, e: LastItemSeenByUser): (r: SeenLookup)
    ensures r.Keys == lookup.Keys + {e.userEmail}
    ensures forall u :: u in lookup && u != e.userEmail ==> r[u] == lookup[u]
    ensures e.userEmail in lookup ==> r[e.userEmail].seenAt == if lookup[e.userEmail].seenAt < e.seenAt then e.seenAt else lookup[e.userEmail].seenAt
    ensures r[e.userEmail] == e || (e.userEmail in lookup && r[e.userEmail] == lookup[e.userEmail])
  {
    var u := e.userEmail;
    if u !in lookup || lookup[u].seenAt < e.seenAt then lookup[u := e] else lookup
  }

  /** The handler as written: it tests the event against `renderLookup`, the lookup of the render in
      which the handler was created, but writes into `prevState`, the state the functional update
      receives. */
  function SeenStepAsWritten(renderLookup: SeenLookup, prevState: SeenLookup, e: LastItemSeenByUser): SeenLookup {
    var u := e.userEmail;
    if u !in renderLookup || renderLookup[u].seenAt < e.seenAt then prevState[u := e] else prevState
  }

  /** Two seen-item events for one user delivered before a re-render: both pass the guard against the
      empty render-time lookup, so the older second event overwrites the newer first, and the user's
      `seenAt` goes down from 5 to 3. */
  lemma SeenStepAsWrittenCanGoBack()
    ensures var newer := LastItemSeenByUser("p", "a@example.com", "item-2", 5);
      var older := LastItemSeenByUser("p", "a@example.com", "item-1", 3);
      var afterFirst := SeenStepAsWritten(map[], map[], newer);
      var afterSecond := SeenStepAsWritten(map[], afterFirst, older);
      afterSecond["a@example.com"].seenAt < afterFirst["a@example.com"].seenAt
  {
  }

  /** When the render-time lookup is the state being updated, the code agrees with `SeenStep`. */
  lemma SeenStepAsWrittenWhenCurrent(lookup: SeenLookup, e: LastItemSeenByUser)
    ensures SeenStepAsWritten(lookup, lookup, e) == SeenStep(lookup, e)
  {
  }

  /** The `reduce` over the initial list, starting from the current lookup. */
  function FoldSeen(prior: SeenLookup, list: seq<LastItemSeenByUser>): SeenLookup
    decreases |list|
  {
    if list == [] then prior else SeenStep(FoldSeen(prior, list[..|list| - 1]), list[|list| - 1])
  }

  /** The candidates for a user's entry, in the order the fold meets them: the entry already present,
      then that user's events in list order. */
  function Candidates(prior: SeenLookup, list: seq<LastItemSeenByUser>, u: Email): (r: seq<LastItemSeenByUser>)
    ensures forall c :: c in r ==> c.userEmail == u || (u in prior && c == prior[u])
    decreases |list|
  {
    if list == [] then (if u in prior then [prior[u]] else [])
    else Candidates(prior, list[..|list| - 1], u) + (if list[|list| - 1].userEmail == u then [list[|list| - 1]] else [])
  }

  /** `x` is the first candidate with the latest `seenAt`. */
  ghost predicate IsFirstLatest(cands: seq<LastItemSeenByUser>, x: LastItemSeenByUser) {
    exists i :: 0 <= i < |cands| && cands[i] == x
      && (forall j :: 0 <= j < |cands| ==> cands[j].seenAt <= x.seenAt)
      && (forall j :: 0 <= j < i ==> cands[j].seenAt < x.seenAt)
  }

  /** One event of user `u` keeps the entry the first candidate with the latest `seenAt`. */
  lemma StepKeepsFirstLatest(acc: SeenLookup, c: seq<LastItemSeenByUser>, e: LastItemSeenByUser)
    requires e.userEmail in acc <==> |c| > 0
    requires e.userEmail in acc ==> IsFirstLatest(c, acc[e.userEmail])
    ensures e.userEmail in SeenStep(acc, e) && IsFirstLatest(c + [e], SeenStep(acc, e)[e.userEmail])
  {
    var u, r, c' := e.userEmail, SeenStep(acc, e), c + [e];
    if u !in acc {
      assert c'[0] == e;
    } else {
      var i :| 0 <= i < |c| && c[i] == acc[u]
        && (forall j :: 0 <= j < |c| ==> c[j].seenAt <= acc[u].seenAt)
        && (forall j :: 0 <= j < i ==> c[j].seenAt < acc[u].seenAt);
      if acc[u].seenAt < e.seenAt {
        assert c'[|c|] == e;
        assert forall j :: 0 <= j < |c| ==> c'[j].seenAt < e.seenAt;
      } else {
        assert c'[i] == acc[u];
        assert forall j :: 0 <= j < |c'| ==> c'[j].seenAt <= acc[u].seenAt;
        assert forall j :: 0 <= j < i ==> c'[j].seenAt < acc[u].seenAt;
      }
    }
  }

  /** After folding, a user has an entry exactly when they had one or appear in the list, and that entry
      is the first one with the latest `seenAt` among the candidates: the maximum wins, and on a tie the
      entry met first (the one already present, then the earlier event) stays. */
  lemma {:induction false} FoldSeenKeepsFirstLatest(prior: SeenLookup, list: seq<LastItemSeenByUser>, u: Email)
    ensures var r := FoldSeen(prior, list);
      && (u in r <==> |Candidates(prior, list, u)| > 0)
      && (u in r ==> IsFirstLatest(Candidates(prior, list, u), r[u]))
    decreases |list|
  {
    if list != [] {
      var init, e := list[..|list| - 1], list[|list| - 1];
      FoldSeenKeepsFirstLatest(prior, init, u);
      var acc := FoldSeen(prior, init);
      var c := Candidates(prior, init, u);
      assert FoldSeen(prior, list) == SeenStep(acc, e);
      if e.userEmail == u {
        assert Candidates(prior, list, u) == c + [e];
        StepKeepsFirstLatest(acc, c, e);
      } else {
        assert Candidates(prior, list, u) == c;
      }
    } else if u in prior {
      assert Candidates(prior, list, u)[0] == prior[u];
    }
  }

  /** A user's `seenAt` never goes down, whether the lookup takes one event or the whole initial list. */
  lemma {:induction false} SeenNeverGoesBack(prior: SeenLookup, list: seq<LastItemSeenByUser>, e: LastItemSeenByUser, u: Email)
    requires u in prior
    ensures u in SeenStep(prior, e) && SeenStep(prior, e)[u].seenAt >= prior[u].seenAt
    ensures u in FoldSeen(prior, list) && FoldSeen(prior, list)[u].seenAt >= prior[u].seenAt
    decreases |list|
  {
    if list != [] {
      SeenNeverGoesBack(prior, list[..|list| - 1], list[|list| - 1], u);
      var acc := FoldSeen(prior, list[..|list| - 1]);
      assert FoldSeen(prior, list) == SeenStep(acc, list[|list| - 1]);
    }
  }

  /** The error reported for the pinboard: the initial query's error if any, else the subscription's. */
  function ReportedError(initialItemsError: Option<ApolloError>, subscriptionError: Option<ApolloError>): (r: Option<ApolloError>)
    ensures r.None? <==> initialItemsError.None? && subscriptionError.None?
    ensures initialItemsError.Some? ==> r == initialItemsError
    ensures initialItemsError.None? ==> r == subscriptionError
  {
    if initialItemsError.Some? then initialItemsError else subscriptionError
  }

  /** The pinboard component's state, together with the notifications it shows and the unread flags it
      reports to the floaty through `setUnreadFlag`. */
  class PinboardState {
    const pinboardId: PinboardId
    var subscriptionItems: seq<Item>
    var successfulSends: seq<PendingItem>
    var lastItemSeenByUserLookup: SeenLookup
    /** Items handed to `showNotification`, oldest first. */
    var notificationsShown: seq<Item>
    /** Values handed to `setUnreadFlag(pinboardId)`, oldest first. */
    var unreadFlagsReported: seq<bool>

    constructor (pinboardId: PinboardId)
      ensures this.pinboardId == pinboardId
      ensures subscriptionItems == [] && successfulSends == [] && lastItemSeenByUserLookup == map[]
      ensures notificationsShown == [] && unreadFlagsReported == []
    {
      this.pinboardId := pinboardId;
      subscriptionItems, successfulSends, lastItemSeenByUserLookup := [], [], map[];
      notificationsShown, unreadFlagsReported := [], [];
    }

    /** A created-item event: appended to the subscription items; when the pinboard is not expanded it
        also raises a notification and marks the pinboard unread. */
    method OnCreateItem(item: Item, isExpanded: bool)
      modifies this
      ensures subscriptionItems == old(subscriptionItems) + [item]
      ensures notificationsShown == old(notificationsShown) + (if isExpanded then [] else [item])
      ensures unreadFlagsReported == old(unreadFlagsReported) + (if isExpanded then [] else [true])
      ensures successfulSends == old(successfulSends) && lastItemSeenByUserLookup == old(lastItemSeenByUserLookup)
    {
      subscriptionItems := subscriptionItems + [item];
      if !isExpanded {
        notificationsShown := notificationsShown + [item];
        unreadFlagsReported := unreadFlagsReported + [true];
      }
    }

    /** A seen-item event. */
    method OnSeenItem(e: LastItemSeenByUser)
      modifies this
      ensures lastItemSeenByUserLookup == SeenStep(old(lastItemSeenByUserLookup), e)
      ensures subscriptionItems == old(subscriptionItems) && successfulSends == old(successfulSends)
      ensures notificationsShown == old(notificationsShown) && unreadFlagsReported == old(unreadFlagsReported)
    {
      var previous := lastItemSeenByUserLookup;
      if e.userEmail !in previous || previous[e.userEmail].seenAt < e.seenAt {
        lastItemSeenByUserLookup := previous[e.userEmail := e];
      }
    }

    /** The initial last-seen query returned `list`. */
    method OnInitialLastItemSeenByUsers(list: seq<LastItemSeenByUser>)
      modifies this
      ensures lastItemSeenByUserLookup == FoldSeen(old(lastItemSeenByUserLookup), list)
      ensures subscriptionItems == old(subscriptionItems) && successfulSends == old(successfulSends)
      ensures notificationsShown == old(notificationsShown) && unreadFlagsReported == old(unreadFlagsReported)
    {
      lastItemSeenByUserLookup := FoldSeen(lastItemSeenByUserLookup, list);
    }

    /** The send area reported a confirmed send. */
    method OnSuccessfulSend(pending: PendingItem)
      modifies this
      ensures successfulSends == old(successfulSends) + [pending]
      ensures subscriptionItems == old(subscriptionItems) && lastItemSeenByUserLookup == old(lastItemSeenByUserLookup)
      ensures notificationsShown == old(notificationsShown) && unreadFlagsReported == old(unreadFlagsReported)
    {
      successfulSends := successfulSends + [pending];
    }
  }
}
