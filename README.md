# Pinboard in Dafny

A model of the core of Pinboard, the Guardian's editorial chat tool. A pinboard
is attached to a Workflow stub or Composer piece. The model covers the
following parts.

- **Client.**
  - The floaty and the older widget shell track which pinboards are open, selected and expanded, and which have errors or unread items.
  - Each mounted pinboard keeps its subscription items, its confirmed sends and the last item each user has seen.
  - The timeline merges and sorts items and decides when to scroll and when to mark the pinboard unread.
  - The send area verifies mentions, builds the `createItem` input and reports telemetry.
  - The root component handles the initial expanded flag, the preset unread count (including JavaScript's `parseInt`), the user lookup, desktop notifications and telemetry tags.
  - The inline toggle is used in Workflow.
- **Lambdas.**
  - The workflow bridge flattens grouped stubs.
  - The imaging-request callout extracts the Grid id and builds the request body.
  - The Octopus imaging handler classifies a callback and builds the item input.

Each source file becomes one module. `Shared` holds the GraphQL records and the
`Option`/`Result` types. `Seqs` holds generic sequence facts: duplicate
removal, `includes`, `join` and `split`.

The two kinds of state are modelled differently:

- **React state.** Its transitions are pure functions, and lemmas are proved about them. A class per component holds the state, and its methods apply those functions. The methods say exactly what changes and what stays the same.
- **Side effects.** Calls to `window.open`, `showNotification`, `setUnreadFlag`, the service worker and telemetry are recorded as sequences of outputs.

DOM measurements, URLs, query results, subscription events, `window.confirm` answers and Lambda or AppSync responses are inputs.

## Model

| member | source | states |
|---|---|---|
| Floaty.ActiveIdsUnique | client/src/floaty.tsx:105-109 | the active pinboards are the preselected one alone or the manual list, and their ids are unique while the manual list's are |
| Floaty.ManualAfterOpen | client/src/floaty.tsx:130-137 | opening appends the pinboard only when nothing is preselected and it is not open yet; without a preselection it is active afterwards |
| Floaty.OpenKeepsUniqueIds | client/src/floaty.tsx:130-137 | opening never introduces a duplicate id into the manual list |
| Floaty.OpenRequestsWindow | client/src/floaty.tsx:130-132 | a new Composer window is requested exactly when a different pinboard is preselected |
| Floaty.OpenWithPreselection | client/src/floaty.tsx:119-141 | with another pinboard preselected, opening changes neither the manual list, the active list nor the selection, and only requests a window |
| Floaty.ComposerDomain | client/src/floaty.tsx:120-126 | the code Composer domain is chosen exactly when the hostname contains ".local.", ".code." or ".test.", the production domain otherwise |
| Floaty.ComposerUrlWithoutComposerId | client/src/floaty.tsx:127-129 | a pinboard without a Composer id opens `/content/..` with the expand query parameter set to true |
| Floaty.ManualAfterClose | client/src/floaty.tsx:167-174 | closing an active pinboard filters its id out of the manual list; closing an inactive one changes nothing |
| Floaty.CloseWithoutPreselection | client/src/floaty.tsx:167-174 | without a preselection, the closed id is no longer active and the ids stay unique |
| Floaty.CloseKeepsUniqueIds | client/src/floaty.tsx:168-174 | closing keeps the manual list's ids unique |
| Floaty.ClearedPinboardIsNotUnread | client/src/floaty.tsx:155-165 | setting a flag clears the pinboard's desktop notifications exactly when it leaves the pinboard not unread; `hasUnread` is then up to the other pinboards, and a `true` flag makes it hold |
| Floaty.CreatedItemUnread | client/src/floaty.tsx:180-191 | a created item marks its pinboard unread exactly when the user is mentioned and that pinboard is not open and expanded; no other flag changes |
| Floaty.HasErrorIgnoresInactive | client/src/floaty.tsx:149-151 | an error recorded for an inactive pinboard does not change the error indicator |
| Floaty.HasUnreadOnOtherPinboard | client/src/floaty.tsx:321-327 | true exactly when some other pinboard's unread flag is true |
| Floaty.ErrorOnOtherPinboardCases | client/src/floaty.tsx:328-334 | a pinboard's own error never lights its "error elsewhere" indicator; an error on another active pinboard does; with its own error, an error kept for a closed pinboard lights it too |
| Floaty.AtMostOneExpanded | client/src/floaty.tsx:335 | at most one mounted pinboard is shown expanded |
| Floaty.BubbleFollowsUnreadFlags | client/src/floaty.tsx:269-273 | a created item that marks its pinboard unread shows the bubble, a preset count always shows it, and without one clearing the last unread pinboard hides it |
| Floaty.FloatyState.constructor | client/src/floaty.tsx:85-87 | nothing open, preselected, selected, erroneous or unread |
| Floaty.FloatyState.SetPreselectedPinboard | client/src/floaty.tsx:101-115 | the selection follows the preselected pinboard |
| Floaty.FloatyState.OpenPinboard | client/src/floaty.tsx:119-142 | the manual list, the selection and the requested windows change as the opening functions say, and the ids stay unique |
| Floaty.FloatyState.SetError | client/src/floaty.tsx:146-147 | only that pinboard's error entry changes |
| Floaty.FloatyState.SetUnreadFlag | client/src/floaty.tsx:155-163 | only that pinboard's flag changes; a falsy flag also clears its notifications |
| Floaty.FloatyState.ClosePinboard | client/src/floaty.tsx:167-178 | filters the manual list, clears the selection, that pinboard's flag and its error, and clears its notifications |
| Floaty.FloatyState.OnCreateItem | client/src/floaty.tsx:180-192 | the unread flags become `UnreadAfterCreatedItem` of the old flags; nothing else changes |
| Floaty.FloatyState.ToggleExpanded | client/src/floaty.tsx:239 | flips the expanded flag only |
| Floaty.FloatyState.OnItemMessage | client/src/floaty.tsx:199-212 | a message from another window expands the floaty and selects the item's pinboard |
| Widget.Pinboards | client/src/widget.tsx:37-41 | the listed ids are the preselected id, if any, followed by the manual ids |
| Widget.ManualAfterOpen | client/src/widget.tsx:51-55 | after opening, the pinboard is listed; it is appended exactly when it was not listed, and nothing else changes |
| Widget.OpenKeepsListedIdsUnique | client/src/widget.tsx:51-55 | opening keeps the listed ids unique |
| Widget.ManualAfterClose | client/src/widget.tsx:59-66 | after closing, the id is not in the manual list, every other pinboard stays and nothing is added |
| Widget.CloseUnlists | client/src/widget.tsx:59-66 | unless it is the preselected one, the closed pinboard is no longer listed |
| Widget.IndicatorsIgnoreUnlisted | client/src/widget.tsx:77-90 | entries for unlisted pinboards change neither the error nor the unread indicator |
| Widget.ClosedPinboardDoesNotIndicate | client/src/widget.tsx:59-90 | after closing a pinboard that is not preselected, an error or unread flag it reports changes neither indicator |
| Widget.SnapshotSetsKeepLastOnly | client/src/widget.tsx:74-86 | several `setError` or `setUnreadFlag` calls in one render leave only the last call's entry over the rendered map |
| Widget.SecondErrorReportLosesFirst | client/src/widget.tsx:74-75 | of two error reports from different pinboards in one render, the first is lost |
| Widget.AtMostOneSelected | client/src/widget.tsx:178-179 | at most one pinboard is selected, and an expanded one is the selected one |
| Widget.WidgetState.constructor | client/src/widget.tsx:20-24 | collapsed, with nothing open or selected |
| Widget.WidgetState.SetPreselectedPinboard | client/src/widget.tsx:45-47 | the selection follows the preselected pinboard |
| Widget.WidgetState.OpenPinboard | client/src/widget.tsx:51-57 | one call per render: lists the pinboard and always selects it |
| Widget.WidgetState.ClosePinboard | client/src/widget.tsx:59-68 | one call per render: filters the manual list and clears the selection |
| Widget.WidgetState.SetError | client/src/widget.tsx:74-75 | one call per render: only that pinboard's error entry changes |
| Widget.WidgetState.SetUnreadFlag | client/src/widget.tsx:85-86 | one call per render: only that pinboard's flag changes |
| Widget.WidgetState.ToggleExpanded | client/src/widget.tsx:107 | flips the expanded flag only |
| Pinboard.SeenStep | client/src/pinboard.tsx:86-102 | adds the user's key; the user's `seenAt` becomes the maximum of the old and new; other users are untouched |
| Pinboard.SeenStepAsWrittenCanGoBack | client/src/pinboard.tsx:90-99 | two events for one user before a re-render make that user's `seenAt` go down |
| Pinboard.SeenStepAsWrittenWhenCurrent | client/src/pinboard.tsx:90-99 | when the render-time lookup is the current state, the code agrees with `SeenStep` |
| Pinboard.FoldSeenKeepsFirstLatest | client/src/pinboard.tsx:104-130 | after the initial reduce, a user has an entry exactly when they had one or appear in the list, and it is the first candidate with the latest `seenAt` |
| Pinboard.SeenNeverGoesBack | client/src/pinboard.tsx:104-130 | neither one event nor the initial list lowers a user's `seenAt` |
| Pinboard.ReportedError | client/src/pinboard.tsx:132-135 | the initial query's error wins over the subscription's, and there is no error only when neither has one |
| Pinboard.PinboardState.constructor | client/src/pinboard.tsx:71-84 | empty items, sends and lookup |
| Pinboard.PinboardState.OnCreateItem | client/src/pinboard.tsx:57-69 | appends the item; when the pinboard is not expanded it also shows a notification and reports unread |
| Pinboard.PinboardState.OnSeenItem | client/src/pinboard.tsx:86-102 | the lookup becomes `SeenStep` of the old lookup |
| Pinboard.PinboardState.OnInitialLastItemSeenByUsers | client/src/pinboard.tsx:104-130 | the lookup becomes the fold of the list over the old lookup |
| Pinboard.PinboardState.OnSuccessfulSend | client/src/pinboard.tsx:169-171 | appends the confirmed send only |
| Items.SortIsStablePermutation | client/src/items.tsx:71-73 | the sort yields a sorted permutation that keeps items with equal timestamps in input order |
| Items.MergedItemsSpec | client/src/items.tsx:71-73 | the displayed items are a sorted permutation of the initial items followed by the subscription items, and among equal timestamps initial items come first, each group in its own order |
| Items.InsertKeepsSorted | client/src/items.tsx:71-73 | one insertion step of the stable sort keeps the sequence sorted |
| Items.LastItemRefGoesToLatest | client/src/items.tsx:124-130 | exactly the last index of all initial and subscription items gets the last-item ref; no item is later, and it is the last of the items sharing its timestamp |
| Items.ElementIsVisible | client/src/items.tsx:52-63 | the element counts as visible exactly when its top, relative to the area, is above the visible bottom plus 10 pixels |
| Items.ContentThatFitsIsVisible | client/src/items.tsx:49-50 | `isScrollbarVisible` holds when the content fits, and then the last item counts as visible wherever it sits |
| Items.LastItemVisibleCases | client/src/items.tsx:95-99 | not visible while a ref is missing; visible when scrolled to the bottom with the item inside the content; hidden when it starts below the window plus 10 pixels and the content does not fit |
| Items.OnSubscriptionItemsChanged | client/src/items.tsx:101-107 | new items scroll to the end when the last item is visible; otherwise an expanded timeline is marked unread |
| Items.OnExpandedChanged | client/src/items.tsx:109-113 | expanding with the last item visible clears unread; nothing else is done |
| Items.OnScroll | client/src/items.tsx:122 | scrolling clears unread exactly when the last item is visible |
| Items.UnreadFollowsVisibility | client/src/items.tsx:101-122 | unread is only set while the last item is hidden, and only cleared while it is visible |
| SendMessageArea.VerifiedIndividualMentions | client/src/sendMessageArea.tsx:43-50 | the verified user emails have no duplicates, are exactly the emails of the mentioned users whose handle is in the message, and keep the order of first mention |
| SendMessageArea.VerifiedGroupMentions | client/src/sendMessageArea.tsx:52-59 | the verified group shorthands have no duplicates, are exactly the shorthands of the mentioned groups whose handle is in the message, and keep the order of first mention |
| SendMessageArea.MentionedUsers | client/src/sendMessageArea.tsx:45-48 | a user is kept exactly when they were mentioned and their handle occurs in the message; their emails are the individual mentions sent |
| SendMessageArea.MentionedGroups | client/src/sendMessageArea.tsx:54-57 | the same for groups, whose shorthands are the group mentions sent |
| SendMessageArea.MessageType | client/src/sendMessageArea.tsx:99 | the payload's type when it is non-empty, otherwise "message-only" |
| SendMessageArea.SendInput | client/src/sendMessageArea.tsx:97-111 | the input carries the type, the message, the stringified payload, the pinboard and the given mentions; it is claimable exactly when a group is mentioned and the user confirmed |
| SendMessageArea.NoGroupNotClaimable | client/src/sendMessageArea.tsx:105-109 | without a group mention the item is never claimable |
| SendMessageArea.SendButtonGuardsEmptySends | client/src/sendMessageArea.tsx:157 | a click the button lets through is not during a send and sends text or a payload; the cleared composer disables it; text or a payload while idle enables it |
| SendMessageArea.HasGridUrl | client/src/sendMessageArea.tsx:63-66 | corrected rule: true exactly when the message contains "https://media.gutools.co.uk" |
| SendMessageArea.GridLinkIsDetected | client/src/sendMessageArea.tsx:63-66 | a message containing a Grid link is detected |
| SendMessageArea.HasGridUrlAsWritten | client/src/sendMessageArea.tsx:63-66 | the regular expression as written accepts every message that contains the Grid origin |
| SendMessageArea.IncludesImpliesRegexFound | client/src/sendMessageArea.tsx:64-65 | a regular expression whose source occurs in the text is found there |
| SendMessageArea.HasGridUrlAsWrittenAcceptsAnyFirstDot | client/src/sendMessageArea.tsx:64 | the regular expression as written accepts any single-code-unit character but a line terminator in place of the first dot |
| SendMessageArea.AstralCharDoesNotTakeADot | client/src/sendMessageArea.tsx:64-65 | a character above U+FFFF in place of the first dot is not accepted, since the `.` takes only one UTF-16 code unit |
| SendMessageArea.NotGridOrigin | client/src/sendMessageArea.tsx:64 | such a lookalike string is not the Grid origin, so the corrected rule rejects it |
| SendMessageArea.SourceMatchesItself | client/src/sendMessageArea.tsx:64 | the pattern made from a source string matches that string |
| SendMessageArea.DotMatchesAnyChar | client/src/sendMessageArea.tsx:64 | an unescaped dot in the pattern matches any single-code-unit character but a line terminator |
| SendMessageArea.CompletionTelemetry | client/src/sendMessageArea.tsx:79-88 | decided by the corrected Grid rule (see Findings): a Grid-link event precedes the sent event exactly when the message contains the Grid origin; the sent event carries the created item's pinboard, the message type and whether anyone was mentioned |
| SendMessageArea.SendMessageAreaState.constructor | client/src/sendMessageArea.tsx:36-39 | an empty message and no mentions |
| SendMessageArea.SendMessageAreaState.AddUnverifiedMention | client/src/sendMessageArea.tsx:40-41 | appends the mention, duplicates included |
| SendMessageArea.SendMessageAreaState.SetMessage | client/src/sendMessageArea.tsx:128-129 | replaces the message only |
| SendMessageArea.SendMessageAreaState.SendItem | client/src/sendMessageArea.tsx:95-112 | the mutation input is `SendInput` of the current state with the verified mentions; it mentions exactly the emails of the picked users whose handle is in the text, and is claimable exactly when the user confirms and some picked group's handle is in the text |
| SendMessageArea.SendMessageAreaState.OnSendCompleted | client/src/sendMessageArea.tsx:71-92 | reports the pending item with the verified emails, records the completion telemetry (corrected Grid rule), and clears the message, the payload and the mentions |
| App.IsInlineMode | client/src/app.tsx:66-69 | inline mode exactly when the hostname starts with "workflow." |
| App.InitialIsExpanded | client/src/app.tsx:92-95 | expanded when an open-pinboard parameter is given or the expand parameter reads "true" in any case, and collapsed when neither can hold |
| App.ExpandParamIgnoresCase | client/src/app.tsx:94 | "TRUE" and "True" expand; "yes" and empty values do not |
| App.TrimStart | client/src/app.tsx:133 | drops exactly the leading JavaScript whitespace |
| App.DigitPrefix | client/src/app.tsx:133 | the longest prefix of digits in the radix |
| App.NatToDecimal | client/src/app.tsx:133 | the decimal numeral, made of digits, that denotes the number |
| App.ParseIntReadsNumeral | client/src/app.tsx:133 | `parseInt` reads a decimal numeral after whitespace, ignoring what follows it |
| App.ParseSignedReadsNegativeNumeral | client/src/app.tsx:133 | a leading "-" negates the numeral |
| App.ParseIntSkipsWhitespace | client/src/app.tsx:133 | leading whitespace does not change the result |
| App.ParseIntOfNonNumeral | client/src/app.tsx:133-134 | a first non-blank character that cannot start a number gives `NaN` |
| App.PresetUnreadCount | client/src/app.tsx:125-138 | no count attribute gives undefined, an unparsable one gives 0, and a parsable one gives its value |
| App.MergeUsersEntry | client/src/app.tsx:194-202 | after the reduce, an email is present exactly when it was present or some fetched user has it; the last such user wins, and other entries are untouched |
| App.MergeUsersKeyedByEmail | client/src/app.tsx:194-202 | every user stays stored under their own email |
| App.InitialUserLookupSpec | client/src/app.tsx:171-177 | the initial lookup holds exactly the demo user and the demo mentionable users under their emails; the last demo mentionable user with an email wins, and the demo user stays only when none shares their email |
| App.AddEmailsIsUnion | client/src/app.tsx:207-211 | the set stays duplicate-free, holds exactly the old and new emails, and keeps the waiting ones first in their order |
| App.EmailsToQuery | client/src/app.tsx:184-187 | exactly the waiting emails without a user in the lookup, in order |
| App.NothingToQueryOnceFetched | client/src/app.tsx:184-202 | once every waiting email has been fetched, nothing is queried again |
| App.MergeTelemetryTags | client/src/app.tsx:345-352 | with both composer id and section, they are added and the caller's tags override them; otherwise the caller's tags pass through |
| App.LoadedEventTags | client/src/app.tsx:356-366 | the composer pair when both are truthy, otherwise no tags |
| App.LoadedEventTagsAreStable | client/src/app.tsx:345-366 | merging the loaded event's own tags changes nothing |
| App.SectionIsLastOneRead | client/src/app.tsx:117-120 | after any series of DOM refreshes the section is the last one read, or the earlier one when none was read; once read, a section is never cleared |
| App.StaleSectionTagsLaterEvents | client/src/app.tsx:117-120 | after a piece with section "news" is replaced by one without a section, events for the new id are still tagged "news" |
| App.AppState.constructor | client/src/app.tsx:92-95 | the initial expanded flag and the initial user lookup, with the lookup keyed by email |
| App.AppState.RefreshPresetUnreadNotifications | client/src/app.tsx:125-138 | the preset count becomes `PresetUnreadCount` of the attribute |
| App.AppState.RefreshPreselectedPinboard | client/src/app.tsx:110-121 | registered once at mount, its guards compare with the first render's values: the composer id is always taken over, and a missing section leaves the previous one |
| App.AppState.AddEmailsToLookup | client/src/app.tsx:207-211 | the waiting emails become their union with the new ones |
| App.AppState.OnUsersFetched | client/src/app.tsx:193-203 | the lookup becomes the merge of the fetched users into the current lookup, still keyed by email |
| App.AppState.ShowDesktopNotification | client/src/app.tsx:294-310 | posts the item only when it is by someone else |
| App.AppState.SendTelemetryEvent | client/src/app.tsx:340-354 | records the event with the merged tags and the value, `true` when none is given |
| App.AppState.SendPinboardLoaded | client/src/app.tsx:356-366 | records a `PINBOARD_LOADED` event tagged with the composer pair when both are truthy and with no tags otherwise |
| App.AppState.SetIsExpanded | client/src/app.tsx:92 | sets the expanded flag only |
| InlinePinboardToggle.ToggleTarget | client/src/inlinePinboardToggle.tsx:47 | a click deselects a selected pinboard and selects an unselected one |
| InlinePinboardToggle.ClickFlipsSelection | client/src/inlinePinboardToggle.tsx:47 | a click flips whether this pinboard is selected |
| InlinePinboardToggle.ShowsUnreadBadge | client/src/inlinePinboardToggle.tsx:74 | the badge shows exactly when the unread count is non-zero and the local flag is not an explicit `false` |
| InlinePinboardToggle.LocalReadHidesBadge | client/src/inlinePinboardToggle.tsx:74 | a local `false` flag hides the badge; a `true` flag never hides a non-zero count |
| InlinePinboardToggle.TotalShown | client/src/inlinePinboardToggle.tsx:101 | the total count when counts are present, otherwise 0 |
| InlinePinboardToggle.RenderToggle | client/src/inlinePinboardToggle.tsx:36-101 | the panel is shown exactly when selected; loading replaces the counts; the badge holds the unread count |
| WorkflowBridge.FieldFilterIsCommaSeparated | workflow-bridge-lambda/src/index.ts:10 | the field filter is "id,title,composerId" |
| WorkflowBridge.StubsUrl | workflow-bridge-lambda/src/index.ts:12-14 | the API URL, then "/stubs?fieldFilter=", then the field filter |
| WorkflowBridge.WithStatus | workflow-bridge-lambda/src/index.ts:22 | every stub gets its group's status, overriding one it had, and its other fields unchanged |
| WorkflowBridge.FlattenLength | workflow-bridge-lambda/src/index.ts:19-25 | the output length is the sum of the group sizes, so an empty grouping yields an empty list |
| WorkflowBridge.FlattenPlacesStub | workflow-bridge-lambda/src/index.ts:19-25 | stub `j` of group `g` sits right after all stubs of earlier groups, at offset `j`, with group `g`'s status |
| WorkflowBridge.FlattenedStubsHaveStatus | workflow-bridge-lambda/src/index.ts:19-25 | every output stub carries a string status |
| ImagingRequestCallout.LastSegment | database-bridge-lambda/src/imagingRequestCallout.ts:11 | the popped piece has no "/", is a suffix of the URL, and is either the whole URL or preceded by "/" |
| ImagingRequestCallout.GridIdOf | database-bridge-lambda/src/imagingRequestCallout.ts:11-14 | a grid id is non-empty and is the last segment of a string `embeddableUrl`; only a number or boolean URL throws the not-a-string error |
| ImagingRequestCallout.GridIdIsLastSegment | database-bridge-lambda/src/imagingRequestCallout.ts:11 | a URL made of a prefix, "/" and an id without "/" yields that id |
| ImagingRequestCallout.BareGridId | database-bridge-lambda/src/imagingRequestCallout.ts:11 | a URL without "/" is the grid id itself |
| ImagingRequestCallout.TrailingSlashHasNoGridId | database-bridge-lambda/src/imagingRequestCallout.ts:11-14 | a trailing "/" leaves no grid id, which raises the error |
| ImagingRequestCallout.PayloadField | database-bridge-lambda/src/imagingRequestCallout.ts:20 | `payload?.key` is present exactly when the payload has the key |
| ImagingRequestCallout.ImagingRequest | database-bridge-lambda/src/imagingRequestCallout.ts:11-26 | the body maps pinboard id, item id, author, message, request type and grid id; a missing grid id fails before any invocation |
| ImagingRequestCallout.PerformImagingRequest | database-bridge-lambda/src/imagingRequestCallout.ts:10-52 | an earlier error stands whatever the response; otherwise it fails with the message when `FunctionError` is a non-empty string, then fails when the logged result payload is not JSON, and succeeds with the body it sent otherwise |
| OctopusImagingHandler.ImagingCallRecognition | bootstrapping-lambda/src/octopusImagingHandler.ts:39-41 | an absent detail is not a callback; a detail with a `pinboardItemId` key is one whatever its value and other keys; one without it is not |
| OctopusImagingHandler.HandleImagingCall | bootstrapping-lambda/src/octopusImagingHandler.ts:48-68 | an `originalGridId` takes the pre-signed-URL branch; otherwise one item is created as the worker; its pinboard is the workflow id, it relates to the request item, it is not claimable, and its mentions, message and payload are null; its type is "imaging-completed" exactly when `newGridId` is present, else "imaging-picked-up" |
| OctopusImagingHandler.ProgressItemIsNotARequest | shared/octopusImaging.ts:1-3 | a progress item never has the imaging-request type |
| OctopusImagingHandler.CheckCreateItemResponse | bootstrapping-lambda/src/octopusImagingHandler.ts:71-76 | a response that is not ok raises an error carrying its status |
| Seqs.Dedupe | client/src/sendMessageArea.tsx:43-50 | `Array.from(new Set(s))` has no duplicates, the same elements as `s`, and first-occurrence order |
| Seqs.Includes | client/src/floaty.tsx:122-124 | `includes` holds exactly when the needle occurs at some position |
| Seqs.JoinSplit | database-bridge-lambda/src/imagingRequestCallout.ts:11 | joining the pieces of a split with the separator gives the string back |
| Seqs.SplitPiecesAvoidSeparator | database-bridge-lambda/src/imagingRequestCallout.ts:11 | no piece of a split contains the separator |
| Seqs.SplitLastIsSuffix | database-bridge-lambda/src/imagingRequestCallout.ts:11 | the last piece of a split is the whole string or what follows the last separator |

## Left out

- Apollo queries, subscriptions and mutations, `MutationObserver`, `setTimeout`/`setInterval`, `postMessage`, `window.open`/`focus`/`confirm`, and the DOM are not modelled. Their results are method parameters and their requests are recorded outputs.
- `JSON.parse` and `JSON.stringify` are opaque: the stringified payload is a parameter of `SendInput`, and whether a response parses is a parameter of `PerformImagingRequest`.
- `userToMentionHandle` and `groupToMentionHandle` (client/src/util.ts) are parameters; client/src/util.ts is not part of this model.
- Strings are sequences of Unicode scalar values, while JavaScript strings are sequences of UTF-16 code units. Lengths and positions differ for characters above U+FFFF, but the modelled code observes neither. The results of `includes`, `startsWith`, `split("/")`, `trimStart` and `parseInt` agree on both views. The regular expression's `.` is the one place where the two views differ, so `SendMessageArea.CharMatches` lets a `.` match only a character of one code unit.
- `Object.entries`, `Object.values` and object spreads use JavaScript's key order. The model uses maps, and an ordered list of entries where the order matters (the workflow stub groups, the users returned by `getUsers`).
- App.AsciiLower: `toLowerCase` is modelled for ASCII letters only, without Unicode case mapping.
- App.ParseUnsigned: it models `parseInt`'s digits exactly, but returns an unbounded integer. It leaves out the double-precision rounding of very long numerals and the `-0` result.
- ImagingRequestCallout.GridIdOf: an object or array `embeddableUrl` is not modelled. Payload values are strings, numbers, booleans or `null`.
- OctopusImagingHandler.IsImagingCallFromOctopus: the detail is present or absent. A truthy non-object detail, for which `in` throws, is not modelled.
- The Grid pre-signing, S3 configuration, AppSync request, Lambda invocation, the `octopusApiLambdaFunctionName` environment lookup and logging are calls into code outside the model. Only their inputs and outcomes are modelled.
- ImagingRequestCallout.PerformImagingRequest: whether the decoded result payload parses as JSON is a parameter. The parsed value is only logged by the source and is not modelled.
- SendMessageArea.CompletionTelemetry: the Grid-link event is decided by the corrected rule `HasGridUrl`. A lookalike such as "https://mediaXgutools.co.uk" sends no `GRID_LINK_PASTED` event here, although the code as written sends one (see Findings and `HasGridUrlAsWritten`).
- SendMessageArea.SendMessageAreaState.OnSendCompleted: the telemetry it records uses `CompletionTelemetry`, and so the corrected Grid rule.
- Floaty.FloatyState.OpenPinboard: the method models one call per render. Its snapshot `setManuallyOpenedPinboards([...manuallyOpenedPinboards, p])` (client/src/floaty.tsx:133-136) would lose an earlier open made in the same render, which the method does not capture.
- Floaty.FloatyState.ClosePinboard: the method models one call per render. Filtering the rendered list (client/src/floaty.tsx:169-173) would likewise undo an open or close made earlier in the same render.
- Widget.WidgetState.OpenPinboard: the method models one call per render. Its snapshot `setManuallyOpenedPinboards([...manuallyOpenedPinboards, p])` loses an earlier open made in the same render, which the method does not capture.
- Widget.WidgetState.ClosePinboard: the method models one call per render. Filtering the rendered list likewise undoes an open or close made earlier in the same render.
- Widget.WidgetState.SetError: the method models one call per render. Batched calls lose all but the last write, as `SnapshotSets` and `SecondErrorReportLosesFirst` state.
- Widget.WidgetState.SetUnreadFlag: the method models one call per render. Batched calls behave as `SnapshotSets` states.
- InlinePinboardToggle.RenderToggle: `closePanel` always sets the selection to `null`, which is not a separate member. Styling, portals and the panel's own contents are not modelled.
- Rendering and styling of all components, the tour, web-push subscription, asset handles and Workflow element discovery are outside the modelled core.

## Findings

| source | as written | input that shows it | evidently intended | confidence | as-written member | corrected member |
|---|---|---|---|---|---|---|
| client/src/pinboard.tsx:90-99 | the seen-item handler compares the new `seenAt` with the lookup captured at render time but writes into the newest state | two events for one user, `seenAt` 5 then 3, delivered before a re-render: both pass the guard and the entry ends at 3 | a user's last-seen entry only moves forward, as the initial reduce ensures | not executed | Pinboard.SeenStepAsWrittenCanGoBack | Pinboard.SeenStep |
| client/src/sendMessageArea.tsx:64 | `/https:\/\/media.gutools.co.uk/` leaves the dots unescaped, so each matches any character | "https://mediaXgutools.co.uk" is reported as a Grid link | detect the literal origin "https://media.gutools.co.uk" | not executed | SendMessageArea.HasGridUrlAsWrittenAcceptsAnyFirstDot | SendMessageArea.HasGridUrl |
