/** The timeline of one pinboard (client/src/items.tsx): the initial items and
    the subscription items merged and sorted by timestamp, and the decisions
    the component's effects and scroll handler take about scrolling to the
    last item and about the unread flag. DOM measurements are inputs. */
module Items {
  import opened Shared

  /** The timestamps never decrease along the sequence. */
  predicate SortedByTimestamp(s: seq<Item>) {
    forall i, j :: 0 <= i < j < |s| ==> s[i].timestamp <= s[j].timestamp
  }

  /** The items of `s` with timestamp `t`, in their order in `s`. */
  function WithTimestamp(s: seq<Item>, t: int): (r: seq<Item>)
    ensures forall x :: x in r ==> x.timestamp == t
  {
    if s == [] then []
    else WithTimestamp(s[..|s| - 1], t) + (if s[|s| - 1].timestamp == t then [s[|s| - 1]] else [])
  }

  lemma {:induction false} WithTimestampAppend(a: seq<Item>, b: seq<Item>, t: int)
    ensures WithTimestamp(a + b, t) == WithTimestamp(a, t) + WithTimestamp(b, t)
    decreases |b|
  {
    if b == [] {
      assert a + b == a;
    } else {
      var b' := b[..|b| - 1];
      assert (a + b)[..|a + b| - 1] == a + b';
      WithTimestampAppend(a, b', t);
    }
  }

  /** Places `x` after every item of `sorted` whose timestamp is not later than its own. */
  function Insert(sorted: seq<Item>, x: Item): seq<Item>
    decreases |sorted|
  {
    if sorted == [] || sorted[|sorted| - 1].timestamp <= x.timestamp then sorted + [x]
    else Insert(sorted[..|sorted| - 1], x) + [sorted[|sorted| - 1]]
  }

  /** Inserting adds exactly `x`. */
  lemma {:induction false} InsertPermutes(sorted: seq<Item>, x: Item)
    ensures multiset(Insert(sorted, x)) == multiset(sorted) + multiset{x}
    decreases |sorted|
  {
    if !(sorted == [] || sorted[|sorted| - 1].timestamp <= x.timestamp) {
      var init, last := sorted[..|sorted| - 1], sorted[|sorted| - 1];
      assert sorted == init + [last];
      InsertPermutes(init, x);
    }
  }

  lemma WithTimestampSnoc(a: seq<Item>, y: Item, t: int)
    ensures WithTimestamp(a + [y], t) == WithTimestamp(a, t) + (if y.timestamp == t then [y] else [])
  {
    assert (a + [y])[..|a|] == a;
  }

  /** Inserting keeps the items with any one timestamp in their order, `x` last among its own. */
  lemma {:induction false} InsertIsStable(sorted: seq<Item>, x: Item, t: int)
    ensures WithTimestamp(Insert(sorted, x), t) == WithTimestamp(sorted, t) + (if x.timestamp == t then [x] else [])
    decreases |sorted|
  {
    if sorted == [] || sorted[|sorted| - 1].timestamp <= x.timestamp {
      WithTimestampSnoc(sorted, x, t);
    } else {
      var init, last := sorted[..|sorted| - 1], sorted[|sorted| - 1];
      assert sorted == init + [last];
      var ins := Insert(init, x);
      assert Insert(sorted, x) == ins + [last];
      InsertIsStable(init, x, t);
      WithTimestampSnoc(ins, last, t);
      WithTimestampSnoc(init, last, t);
      // `last` is later than `x`, so at most one of them has timestamp `t`
      assert x.timestamp != t || last.timestamp != t;
    }
  }

  /** Inserting into a sorted sequence keeps it sorted. */
  lemma {:induction false} InsertKeepsSorted(sorted: seq<Item>, x: Item)
    requires SortedByTimestamp(sorted)
    ensures SortedByTimestamp(Insert(sorted, x))
    decreases |sorted|
  {
    if !(sorted == [] || sorted[|sorted| - 1].timestamp <= x.timestamp) {
      var init, last := sorted[..|sorted| - 1], sorted[|sorted| - 1];
      InsertKeepsSorted(init, x);
      InsertPermutes(init, x);
      var ins := Insert(init, x);
      var r := ins + [last];
      forall i, j | 0 <= i < j < |r| ensures r[i].timestamp <= r[j].timestamp {
        if j == |r| - 1 {
          assert r[i] in multiset(ins);
          assert r[i] in multiset(init) || r[i] == x;
          assert r[i] in init || r[i] == x;
        }
      }
    }
  }

  /** `s.sort((a, b) => a.timestamp - b.timestamp)`: a stable insertion sort by timestamp. */
  function SortByTimestamp(s: seq<Item>): seq<Item>
    decreases |s|
  {
    if s == [] then [] else Insert(SortByTimestamp(s[..|s| - 1]), s[|s| - 1])
  }

  /** The sort yields a sorted permutation of its input that keeps items with equal timestamps in their
      input order. */
  lemma {:induction false} SortIsStablePermutation(s: seq<Item>, t: int)
    ensures SortedByTimestamp(SortByTimestamp(s))
    ensures multiset(SortByTimestamp(s)) == multiset(s)
    ensures WithTimestamp(SortByTimestamp(s), t) == WithTimestamp(s, t)
    decreases |s|
  {
    if s != [] {
      var init := s[..|s| - 1];
      assert s == init + [s[|s| - 1]];
      SortIsStablePermutation(init, t);
      InsertKeepsSorted(SortByTimestamp(init), s[|s| - 1]);
      InsertPermutes(SortByTimestamp(init), s[|s| - 1]);
      InsertIsStable(SortByTimestamp(init), s[|s| - 1], t);
    }
  }

  /** The displayed items: initial items then subscription items, stably sorted by timestamp. */
  function MergedItems(initialItems: seq<Item>, subscriptionItems: seq<Item>): seq<Item> {
    SortByTimestamp(initialItems + subscriptionItems)
  }

  /** The displayed items are a sorted permutation of initial ++ subscription items, and items with equal
      timestamps appear initial ones first, each group in its own order. */
  lemma MergedItemsSpec(initialItems: seq<Item>, subscriptionItems: seq<Item>, t: int)
    ensures var r := MergedItems(initialItems, subscriptionItems);
      && SortedByTimestamp(r)
      && multiset(r) == multiset(initialItems) + multiset(subscriptionItems)
      && WithTimestamp(r, t) == WithTimestamp(initialItems, t) + WithTimestamp(subscriptionItems, t)
  {
    SortIsStablePermutation(initialItems + subscriptionItems, t);
    WithTimestampAppend(initialItems, subscriptionItems, t);
  }

  /** Only the item at the last index receives the last-item ref. */
  predicate ReceivesLastItemRef(items: seq<Item>, index: nat) {
    index == |items| - 1
  }

  /** The displayed items are as many as the initial and subscription items together. */
  lemma MergedLength(initialItems: seq<Item>, subscriptionItems: seq<Item>)
    ensures |MergedItems(initialItems, subscriptionItems)| == |initialItems| + |subscriptionItems|
  {
    var r, all := MergedItems(initialItems, subscriptionItems), initialItems + subscriptionItems;
    SortIsStablePermutation(all, 0);
    assert |r| == |multiset(r)| == |multiset(all)| == |all|;
  }

  /** The last item of a sorted permutation of `s` is not earlier than any item of `s`. */
  lemma LastIsLatest(r: seq<Item>, s: seq<Item>)
    requires SortedByTimestamp(r) && multiset(r) == multiset(s) && |r| > 0
    ensures forall x :: x in s ==> x.timestamp <= r[|r| - 1].timestamp
  {
    forall x | x in s ensures x.timestamp <= r[|r| - 1].timestamp {
      assert x in multiset(s);
      assert x in multiset(r);
      var k :| 0 <= k < |r| && r[k] == x;
    }
  }

  /** The last item is the last of those sharing its timestamp. */
  lemma LastOfItsTimestamp(r: seq<Item>)
    requires |r| > 0
    ensures var same := WithTimestamp(r, r[|r| - 1].timestamp); |same| > 0 && same[|same| - 1] == r[|r| - 1]
  {
    assert r == r[..|r| - 1] + [r[|r| - 1]];
    WithTimestampSnoc(r[..|r| - 1], r[|r| - 1], r[|r| - 1].timestamp);
  }

  /** The last-item ref, which the scroll decisions measure, goes to the latest item: exactly the last
      index of all initial and subscription items receives it, no item is later, and among the items
      sharing its timestamp it is the last one, subscription items coming after initial ones. */
  lemma LastItemRefGoesToLatest(initialItems: seq<Item>, subscriptionItems: seq<Item>, index: nat)
    ensures var r := MergedItems(initialItems, subscriptionItems);
      && (ReceivesLastItemRef(r, index) <==> index + 1 == |initialItems| + |subscriptionItems|)
      && (ReceivesLastItemRef(r, index) ==>
            var t := r[index].timestamp;
            && (forall x :: x in initialItems + subscriptionItems ==> x.timestamp <= t)
            && var same := WithTimestamp(initialItems, t) + WithTimestamp(subscriptionItems, t);
               |same| > 0 && same[|same| - 1] == r[index])
  {
    var r := MergedItems(initialItems, subscriptionItems);
    var all := initialItems + subscriptionItems;
    MergedLength(initialItems, subscriptionItems);
    if ReceivesLastItemRef(r, index) {
      var t := r[index].timestamp;
      SortIsStablePermutation(all, t);
      WithTimestampAppend(initialItems, subscriptionItems, t);
      LastIsLatest(r, all);
      LastOfItsTimestamp(r);
    }
  }

  /** The DOM measurements of the scrollable area. */
  datatype ScrollableArea = ScrollableArea(scrollHeight: int, clientHeight: int, scrollTop: int, offsetTop: int)

  /** `isScrollbarVisible`: despite its name, it holds when the content fits, i.e. when there is no
      scrollbar. */
  predicate IsScrollbarVisible(area: ScrollableArea) {
    area.scrollHeight <= area.clientHeight
  }

  /** `elementIsVisible`: the element's top, measured from the top of the area, lies above the bottom of
      the visible window plus 10 pixels. */
  function ElementIsVisible(area: ScrollableArea, elementOffsetTop: int): (r: bool)
    ensures r <==> elementOffsetTop - area.offsetTop < area.scrollTop + area.clientHeight + 10
  {
    var elementTopRelativeToScrollableArea := elementOffsetTop - area.offsetTop;
    var scrollTopThreshold := elementTopRelativeToScrollableArea - area.clientHeight - 10;
    area.scrollTop > scrollTopThreshold
  }

  /** `isLastItemVisible`: both refs are attached and either the content fits or the last item is in view. */
  predicate IsLastItemVisible(area: Option<ScrollableArea>, lastItemOffsetTop: Option<int>) {
    area.Some? && lastItemOffsetTop.Some?
    && (IsScrollbarVisible(area.value) || ElementIsVisible(area.value, lastItemOffsetTop.value))
  }

  /** `isLastItemVisible` is false while a ref is not attached; once both are, a reader scrolled to the
      bottom sees the last item when it starts inside the content. */
  lemma LastItemVisibleCases(area: Option<ScrollableArea>, lastItemOffsetTop: Option<int>)
    ensures area.None? || lastItemOffsetTop.None? ==> !IsLastItemVisible(area, lastItemOffsetTop)
    ensures area.Some? && lastItemOffsetTop.Some?
            && area.value.scrollTop + area.value.clientHeight >= area.value.scrollHeight
            && lastItemOffsetTop.value - area.value.offsetTop <= area.value.scrollHeight
            ==> IsLastItemVisible(area, lastItemOffsetTop)
    ensures area.Some? && lastItemOffsetTop.Some? && area.value.scrollHeight > area.value.clientHeight
            && lastItemOffsetTop.value - area.value.offsetTop >= area.value.scrollTop + area.value.clientHeight + 10
            ==> !IsLastItemVisible(area, lastItemOffsetTop)
  {
  }

  /** When the content fits, the last item counts as visible wherever it sits. */
  lemma ContentThatFitsIsVisible(area: ScrollableArea, lastItemOffsetTop: int)
    requires area.scrollHeight <= area.clientHeight
    ensures IsLastItemVisible(Some(area), Some(lastItemOffsetTop))
  {
  }

  /** What an effect or handler does. */
  datatype Action = ScrollToLastItem | SetHasUnread(hasUnread: bool) | NoAction

  /** The effect run when the subscription items change. */
  function OnSubscriptionItemsChanged(lastItemVisible: bool, isExpanded: bool): (r: Action)
    ensures r == ScrollToLastItem <==> lastItemVisible
    ensures r == SetHasUnread(true) <==> !lastItemVisible && isExpanded
    ensures r.SetHasUnread? ==> r.hasUnread
  {
    if lastItemVisible then ScrollToLastItem
    else if isExpanded then SetHasUnread(true)
    else NoAction
  }

  /** The effect run when the expanded flag changes. */
  function OnExpandedChanged(isExpanded: bool, lastItemVisible: bool): (r: Action)
    ensures r == SetHasUnread(false) <==> isExpanded && lastItemVisible
    ensures r != ScrollToLastItem && r != SetHasUnread(true)
  {
    if isExpanded && lastItemVisible then SetHasUnread(false) else NoAction
  }

  /** The scroll handler. */
  function OnScroll(lastItemVisible: bool): (r: Action)
    ensures r == SetHasUnread(false) <==> lastItemVisible
    ensures r != ScrollToLastItem && r != SetHasUnread(true)
  {
    if lastItemVisible then SetHasUnread(false) else NoAction
  }

  /** Unread is only ever cleared while the last item is visible, and only set when it is not. */
  lemma UnreadFollowsVisibility(lastItemVisible: bool, isExpanded: bool)
    ensures OnSubscriptionItemsChanged(lastItemVisible, isExpanded) == SetHasUnread(true) ==> !lastItemVisible
    ensures OnExpandedChanged(isExpanded, lastItemVisible) == SetHasUnread(false) ==> lastItemVisible
    ensures OnScroll(lastItemVisible) == SetHasUnread(false) ==> lastItemVisible
  {
  }
}
