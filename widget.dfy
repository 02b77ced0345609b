/** The older widget shell (client/src/widget.tsx): the same bookkeeping as the
    floaty, except that the preselected pinboard is listed in front of the
    manual list instead of replacing it, opening always selects, and the
    error and unread indicators only look at listed pinboards. */
module Widget {
  import opened Seqs
  import opened Shared

  /** The listed pinboards: the preselected one, if any, followed by the manual list. */
  function Pinboards(preselected: Option<PinboardData>, manual: seq<PinboardData>): (r: seq<PinboardData>)
    ensures Ids(r) == (if preselected.Some? then [preselected.value.id] else []) + Ids(manual)
  {
    if preselected.Some? then
      IdsAppend([preselected.value], manual);
      [preselected.value] + manual
    else manual
  }

  /** The manual list after `openPinboard(p)`: `p` is appended only when it is not listed yet. */
  function ManualAfterOpen(preselected: Option<PinboardData>, manual: seq<PinboardData>, p: PinboardData): (r: seq<PinboardData>)
    ensures p.id in Ids(Pinboards(preselected, r))
    ensures r == manual || r == manual + [p]
    ensures r == manual + [p] <==> p.id !in Ids(Pinboards(preselected, manual))
  {
    if p.id !in Ids(Pinboards(preselected, manual)) then
      IdsAppend(manual, [p]);
      manual + [p]
    else manual
  }

  /** Opening a pinboard that is not listed lists it at the end and never removes anything; when the
      listed ids were unique they stay unique. */
  lemma OpenKeepsListedIdsUnique(preselected: Option<PinboardData>, manual: seq<PinboardData>, p: PinboardData)
    requires UniqueIds(Pinboards(preselected, manual))
    ensures UniqueIds(Pinboards(preselected, ManualAfterOpen(preselected, manual, p)))
  {
    var r := ManualAfterOpen(preselected, manual, p);
    if r != manual {
      PinboardsAppend(preselected, manual, p);
      AppendNewKeepsUnique(Pinboards(preselected, manual), p);
    }
  }

  /** Appending to the manual list appends to the listed pinboards. */
  lemma PinboardsAppend(preselected: Option<PinboardData>, manual: seq<PinboardData>, p: PinboardData)
    ensures Pinboards(preselected, manual + [p]) == Pinboards(preselected, manual) + [p]
  {
    if preselected.Some? {
      assert [preselected.value] + (manual + [p]) == [preselected.value] + manual + [p];
    }
  }

  /** The manual list after `closePinboard(p)`: `p` is filtered out when it is listed. */
  function ManualAfterClose(preselected: Option<PinboardData>, manual: seq<PinboardData>, p: PinboardData): (r: seq<PinboardData>)
    ensures p.id !in Ids(r)
    ensures forall q :: q in manual && q.id != p.id ==> q in r
    ensures forall q :: q in r ==> q in manual
  {
    if p.id in Ids(Pinboards(preselected, manual)) then RemoveId(manual, p.id)
    else
      assert p.id !in Ids(manual);
      manual
  }

  /** After closing, only the preselected pinboard can still carry the closed id. */
  lemma CloseUnlists(preselected: Option<PinboardData>, manual: seq<PinboardData>, p: PinboardData)
    requires preselected.None? || preselected.value.id != p.id
    ensures p.id !in Ids(Pinboards(preselected, ManualAfterClose(preselected, manual, p)))
  {
  }

  /** Some listed pinboard has a truthy unread flag (`hasUnread`). */
  predicate HasUnreadAmong(flags: UnreadFlags, ids: seq<PinboardId>) {
    exists id :: id in flags && id in ids && TruthyFlag(flags[id])
  }

  /** Both indicators only look at listed pinboards: entries for pinboards that are not listed are ignored. */
  lemma IndicatorsIgnoreUnlisted(errors: ErrorsByPinboard, flags: UnreadFlags, ids: seq<PinboardId>, id: PinboardId, e: Option<ApolloError>, f: Option<bool>)
    requires id !in ids
    ensures HasErrorAmong(errors[id := e], ids) == HasErrorAmong(errors, ids)
    ensures HasUnreadAmong(flags[id := f], ids) == HasUnreadAmong(flags, ids)
  {
    if HasErrorAmong(errors[id := e], ids) {
      var k :| k in errors[id := e] && k in ids && errors[id := e][k].Some?;
      assert k in errors && errors[k].Some?;
    }
    if HasErrorAmong(errors, ids) {
      var k :| k in errors && k in ids && errors[k].Some?;
      assert k in errors[id := e] && errors[id := e][k].Some?;
    }
    if HasUnreadAmong(flags[id := f], ids) {
      var k :| k in flags[id := f] && k in ids && TruthyFlag(flags[id := f][k]);
      assert k in flags && TruthyFlag(flags[k]);
    }
    if HasUnreadAmong(flags, ids) {
      var k :| k in flags && k in ids && TruthyFlag(flags[k]);
      assert k in flags[id := f] && TruthyFlag(flags[id := f][k]);
    }
  }

  /** Once a pinboard that is not the preselected one is closed, an error or unread flag it reports later
      changes neither of the widget's indicators. */
  lemma ClosedPinboardDoesNotIndicate(
    errors: ErrorsByPinboard, flags: UnreadFlags, preselected: Option<PinboardData>, manual: seq<PinboardData>,
    p: PinboardData, e: Option<ApolloError>, f: Option<bool>)
    requires preselected.None? || preselected.value.id != p.id
    ensures var ids := Ids(Pinboards(preselected, ManualAfterClose(preselected, manual, p)));
      && HasErrorAmong(errors[p.id := e], ids) == HasErrorAmong(errors, ids)
      && HasUnreadAmong(flags[p.id := f], ids) == HasUnreadAmong(flags, ids)
  {
    CloseUnlists(preselected, manual, p);
    IndicatorsIgnoreUnlisted(errors, flags, Ids(Pinboards(preselected, ManualAfterClose(preselected, manual, p))), p.id, e, f);
  }

  /** The widget's `setErrors({ ...errors, [id]: e })` and `setUnreadFlags({ ...unreadFlags, [id]: f })`
      spread the map of the render they were created in. Several calls before the next render each start
      from that `rendered` map, so the state is whatever the last call wrote over it. */
  function SnapshotSets<V>(rendered: map<PinboardId, V>, calls: seq<(PinboardId, V)>, current: map<PinboardId, V>): map<PinboardId, V>
    decreases |calls|
  {
    if calls == [] then current
    else SnapshotSets(rendered, calls[1..], rendered[calls[0].0 := calls[0].1])
  }

  /** Only the last of a batch of snapshot writes survives. */
  lemma {:induction false} SnapshotSetsKeepLastOnly<V>(rendered: map<PinboardId, V>, calls: seq<(PinboardId, V)>, current: map<PinboardId, V>)
    ensures calls == [] ==> SnapshotSets(rendered, calls, current) == current
    ensures calls != [] ==> SnapshotSets(rendered, calls, current) == rendered[calls[|calls| - 1].0 := calls[|calls| - 1].1]
    decreases |calls|
  {
    if calls != [] {
      SnapshotSetsKeepLastOnly(rendered, calls[1..], rendered[calls[0].0 := calls[0].1]);
    }
  }

  /** Two pinboards reporting an error before the widget re-renders: the first report is lost, and the
      first pinboard keeps the entry it had when the widget last rendered. */
  lemma SecondErrorReportLosesFirst(rendered: ErrorsByPinboard, a: PinboardId, ea: Option<ApolloError>, b: PinboardId, eb: Option<ApolloError>)
    requires a != b
    ensures var r := SnapshotSets(rendered, [(a, ea), (b, eb)], rendered);
      && b in r && r[b] == eb
      && (a in r <==> a in rendered)
      && (a in rendered ==> r[a] == rendered[a])
  {
    SnapshotSetsKeepLastOnly(rendered, [(a, ea), (b, eb)], rendered);
  }

  /** A listed pinboard is shown expanded when it is the selected one and the widget is expanded. */
  predicate PinboardIsExpanded(selected: Option<PinboardId>, isExpanded: bool, id: PinboardId) {
    selected == Some(id) && isExpanded
  }

  /** At most one pinboard is selected, and an expanded pinboard is the selected one. */
  lemma AtMostOneSelected(selected: Option<PinboardId>, isExpanded: bool, a: PinboardId, b: PinboardId)
    ensures selected == Some(a) && selected == Some(b) ==> a == b
    ensures PinboardIsExpanded(selected, isExpanded, a) ==> selected == Some(a)
  {
  }

  /** The widget's component state. */
  class WidgetState {
    var isExpanded: bool
    var manuallyOpenedPinboards: seq<PinboardData>
    var preselectedPinboard: Option<PinboardData>
    var selectedPinboardId: Option<PinboardId>
    var errors: ErrorsByPinboard
    var unreadFlags: UnreadFlags

    constructor ()
      ensures !isExpanded && manuallyOpenedPinboards == [] && preselectedPinboard == None
      ensures selectedPinboardId == None && errors == map[] && unreadFlags == map[]
    {
      isExpanded, manuallyOpenedPinboards, preselectedPinboard := false, [], None;
      selectedPinboardId, errors, unreadFlags := None, map[], map[];
    }

    /** The preselected-pinboard query resolved: the selection follows it. */
    method SetPreselectedPinboard(p: Option<PinboardData>)
      modifies this
      ensures preselectedPinboard == p
      ensures selectedPinboardId == (if p.Some? then Some(p.value.id) else None)
      ensures isExpanded == old(isExpanded) && manuallyOpenedPinboards == old(manuallyOpenedPinboards)
      ensures errors == old(errors) && unreadFlags == old(unreadFlags)
    {
      preselectedPinboard := p;
      selectedPinboardId := if p.Some? then Some(p.value.id) else None;
    }

    method OpenPinboard(p: PinboardData)
      modifies this
      ensures manuallyOpenedPinboards == ManualAfterOpen(old(preselectedPinboard), old(manuallyOpenedPinboards), p)
      ensures selectedPinboardId == Some(p.id)
      ensures isExpanded == old(isExpanded) && preselectedPinboard == old(preselectedPinboard)
      ensures errors == old(errors) && unreadFlags == old(unreadFlags)
    {
      if p.id !in Ids(Pinboards(preselectedPinboard, manuallyOpenedPinboards)) {
        manuallyOpenedPinboards := manuallyOpenedPinboards + [p];
      }
      selectedPinboardId := Some(p.id);
    }

    method ClosePinboard(p: PinboardData)
      modifies this
      ensures manuallyOpenedPinboards == ManualAfterClose(old(preselectedPinboard), old(manuallyOpenedPinboards), p)
      ensures selectedPinboardId == None
      ensures isExpanded == old(isExpanded) && preselectedPinboard == old(preselectedPinboard)
      ensures errors == old(errors) && unreadFlags == old(unreadFlags)
    {
      if p.id in Ids(Pinboards(preselectedPinboard, manuallyOpenedPinboards)) {
        manuallyOpenedPinboards := RemoveId(manuallyOpenedPinboards, p.id);
      }
      selectedPinboardId := None;
    }

    /** One `setError` per render; `SnapshotSets` gives the outcome of several. */
    method SetError(id: PinboardId, e: Option<ApolloError>)
      modifies this
      ensures errors == old(errors)[id := e]
      ensures isExpanded == old(isExpanded) && manuallyOpenedPinboards == old(manuallyOpenedPinboards)
      ensures preselectedPinboard == old(preselectedPinboard) && selectedPinboardId == old(selectedPinboardId)
      ensures unreadFlags == old(unreadFlags)
    {
      errors := errors[id := e];
    }

    /** One `setUnreadFlag` per render; `SnapshotSets` gives the outcome of several. */
    method SetUnreadFlag(id: PinboardId, flag: Option<bool>)
      modifies this
      ensures unreadFlags == old(unreadFlags)[id := flag]
      ensures isExpanded == old(isExpanded) && manuallyOpenedPinboards == old(manuallyOpenedPinboards)
      ensures preselectedPinboard == old(preselectedPinboard) && selectedPinboardId == old(selectedPinboardId)
      ensures errors == old(errors)
    {
      unreadFlags := unreadFlags[id := flag];
    }

    /** A click on the widget button. */
    method ToggleExpanded()
      modifies this
      ensures isExpanded == !old(isExpanded)
      ensures manuallyOpenedPinboards == old(manuallyOpenedPinboards) && preselectedPinboard == old(preselectedPinboard)
      ensures selectedPinboardId == old(selectedPinboardId) && errors == old(errors) && unreadFlags == old(unreadFlags)
    {
      isExpanded := !isExpanded;
    }
  }
}
