/** The message composer of a pinboard (client/src/sendMessageArea.tsx): the
    mentions picked while typing, the ones that survive because their handle
    is still in the message, the input of the create-item mutation, the send
    button's disabled rule, and what happens once a send is confirmed.
    Mention handles, `JSON.stringify` and the answer of `window.confirm` are
    parameters. */
module SendMessageArea {
  import opened Seqs
  import opened Shared

  /** An entry of `unverifiedMentions`: a user or a group chosen from the mention picker. */
  datatype Mention = UserMention(user: User) | GroupMention(group: Group)

  /** The attachment waiting to be sent; `payload` is the JSON object before serialisation. */
  datatype PayloadAndType = PayloadAndType(payloadType: string, payload: map<string, Value>)

  /** `unverifiedMentions.filter(isUser).filter((user) => message.includes(userToMentionHandle(user)))`:
      the picked users whose handle occurs in the message, in pick order, duplicates kept. */
  function MentionedUsers(mentions: seq<Mention>, message: string, handle: User -> string): (r: seq<User>)
    ensures forall u :: u in r <==> UserMention(u) in mentions && Includes(message, handle(u))
  {
    if mentions == [] then []
    else
      assert mentions == [mentions[0]] + mentions[1..];
      var rest := MentionedUsers(mentions[1..], message, handle);
      match mentions[0]
      case UserMention(u) => if Includes(message, handle(u)) then [u] + rest else rest
      case GroupMention(_) => rest
  }

  /** The same filter for groups. */
  function MentionedGroups(mentions: seq<Mention>, message: string, handle: Group -> string): (r: seq<Group>)
    ensures forall g :: g in r <==> GroupMention(g) in mentions && Includes(message, handle(g))
  {
    if mentions == [] then []
    else
      assert mentions == [mentions[0]] + mentions[1..];
      var rest := MentionedGroups(mentions[1..], message, handle);
      match mentions[0]
      case GroupMention(g) => if Includes(message, handle(g)) then [g] + rest else rest
      case UserMention(_) => rest
  }

  /** `.map((user) => user.email)` over the mentioned users. */
  function MentionedUserEmails(mentions: seq<Mention>, message: string, handle: User -> string): seq<Email> {
    var users := MentionedUsers(mentions, message, handle);
    seq(|users|, i requires 0 <= i < |users| => users[i].email)
  }

  /** `.map((group) => group.shorthand)` over the mentioned groups. */
  function MentionedGroupShorthands(mentions: seq<Mention>, message: string, handle: Group -> string): seq<string> {
    var groups := MentionedGroups(mentions, message, handle);
    seq(|groups|, i requires 0 <= i < |groups| => groups[i].shorthand)
  }

  /** `verifiedIndividualMentionEmails`. */
  function VerifiedIndividualMentionEmails(mentions: seq<Mention>, message: string, handle: User -> string): seq<Email> {
    Dedupe(MentionedUserEmails(mentions, message, handle))
  }

  /** `verifiedGroupMentionShorthands`. */
  function VerifiedGroupMentionShorthands(mentions: seq<Mention>, message: string, handle: Group -> string): seq<string> {
    Dedupe(MentionedGroupShorthands(mentions, message, handle))
  }

  /** The verified individual mentions are the distinct emails of the picked users whose handle occurs in
      the message, in the order of their first occurrence. */
  lemma VerifiedIndividualMentions(mentions: seq<Mention>, message: string, handle: User -> string, e: Email)
    ensures var r := VerifiedIndividualMentionEmails(mentions, message, handle);
      && NoDup(r)
      && (e in r <==> exists u :: UserMention(u) in mentions && Includes(message, handle(u)) && u.email == e)
      && (forall i, j :: 0 <= i < j < |r| ==>
            FirstIndex(MentionedUserEmails(mentions, message, handle), r[i]) < FirstIndex(MentionedUserEmails(mentions, message, handle), r[j]))
  {
    var users := MentionedUsers(mentions, message, handle);
    var m := MentionedUserEmails(mentions, message, handle);
    if e in Dedupe(m) {
      var i :| 0 <= i < |m| && m[i] == e;
      assert users[i] in users;
    }
    if exists u :: UserMention(u) in mentions && Includes(message, handle(u)) && u.email == e {
      var u :| UserMention(u) in mentions && Includes(message, handle(u)) && u.email == e;
      var i :| 0 <= i < |users| && users[i] == u;
      assert m[i] == e;
    }
  }

  /** The verified group mentions are the distinct shorthands of the picked groups whose handle occurs in
      the message, in the order of their first occurrence. */
  lemma VerifiedGroupMentions(mentions: seq<Mention>, message: string, handle: Group -> string, s: string)
    ensures var r := VerifiedGroupMentionShorthands(mentions, message, handle);
      && NoDup(r)
      && (s in r <==> exists g :: GroupMention(g) in mentions && Includes(message, handle(g)) && g.shorthand == s)
      && (forall i, j :: 0 <= i < j < |r| ==>
            FirstIndex(MentionedGroupShorthands(mentions, message, handle), r[i]) < FirstIndex(MentionedGroupShorthands(mentions, message, handle), r[j]))
  {
    var groups := MentionedGroups(mentions, message, handle);
    var m := MentionedGroupShorthands(mentions, message, handle);
    if s in Dedupe(m) {
      var i :| 0 <= i < |m| && m[i] == s;
      assert groups[i] in groups;
    }
    if exists g :: GroupMention(g) in mentions && Includes(message, handle(g)) && g.shorthand == s {
      var g :| GroupMention(g) in mentions && Includes(message, handle(g)) && g.shorthand == s;
      var i :| 0 <= i < |groups| && groups[i] == g;
      assert m[i] == s;
    }
  }

  /** `payloadToBeSent?.type || "message-only"`: an absent payload or an empty type gives "message-only". */
  function MessageType(payloadToBeSent: Option<PayloadAndType>): (r: string)
    ensures r == "message-only" || (payloadToBeSent.Some? && r == payloadToBeSent.value.payloadType)
    ensures payloadToBeSent.Some? && payloadToBeSent.value.payloadType != "" ==> r == payloadToBeSent.value.payloadType
    ensures payloadToBeSent.None? ==> r == "message-only"
  {
    if payloadToBeSent.Some? && payloadToBeSent.value.payloadType != "" then payloadToBeSent.value.payloadType
    else "message-only"
  }

  /** The `input` of the create-item mutation. `confirmed` is the answer `window.confirm` would give;
      the `&&` short-circuits, so the question is only asked when some group is mentioned. */
  function SendInput(
    payloadToBeSent: Option<PayloadAndType>, message: string, pinboardId: PinboardId,
    mentions: seq<Email>, groupMentions: seq<string>, confirmed: bool,
    stringify: map<string, Value> -> string): (r: CreateItemInput)
    ensures r.itemType == MessageType(payloadToBeSent)
    ensures r.message == Some(message) && r.pinboardId == pinboardId
    ensures r.payload.Some? <==> payloadToBeSent.Some?
    ensures payloadToBeSent.Some? ==> r.payload == Some(stringify(payloadToBeSent.value.payload))
    ensures r.mentions == Some(mentions) && r.groupMentions == Some(groupMentions)
    ensures r.claimable <==> groupMentions != [] && confirmed
    ensures r.relatedItemId.None?
  {
    CreateItemInput(
      itemType := MessageType(payloadToBeSent),
      message := Some(message),
      payload := if payloadToBeSent.Some? then Some(stringify(payloadToBeSent.value.payload)) else None,
      pinboardId := pinboardId,
      mentions := Some(mentions),
      groupMentions := Some(groupMentions),
      claimable := |groupMentions| > 0 && confirmed,
      relatedItemId := None)
  }

  /** Without a group mention nothing is claimable, whatever the confirmation would have said. */
  lemma NoGroupNotClaimable(
    payloadToBeSent: Option<PayloadAndType>, message: string, pinboardId: PinboardId,
    mentions: seq<Email>, confirmed: bool, stringify: map<string, Value> -> string)
    ensures !SendInput(payloadToBeSent, message, pinboardId, mentions, [], confirmed, stringify).claimable
    ensures SendInput(payloadToBeSent, message, pinboardId, mentions, [], confirmed, stringify)
         == SendInput(payloadToBeSent, message, pinboardId, mentions, [], !confirmed, stringify)
  {
  }

  /** The send button is disabled while a send is in flight, or when there is neither text nor payload. */
  predicate SendButtonDisabled(isItemSending: bool, message: string, payloadToBeSent: Option<PayloadAndType>) {
    isItemSending || !(message != "" || payloadToBeSent.Some?)
  }

  /** The button's rule keeps empty sends out: whatever it lets through carries text or a payload, it is
      disabled again once a completed send has cleared the composer, and typing while idle enables it. */
  lemma SendButtonGuardsEmptySends(
    isItemSending: bool, message: string, payloadToBeSent: Option<PayloadAndType>, pinboardId: PinboardId,
    mentions: seq<Email>, groupMentions: seq<string>, confirmed: bool, stringify: map<string, Value> -> string)
    ensures !SendButtonDisabled(isItemSending, message, payloadToBeSent) ==>
      var r := SendInput(payloadToBeSent, message, pinboardId, mentions, groupMentions, confirmed, stringify);
      && !isItemSending
      && (r.message != Some("") || r.payload.Some?)
    ensures SendButtonDisabled(isItemSending, "", None)
    ensures message != "" ==> !SendButtonDisabled(false, message, payloadToBeSent)
    ensures payloadToBeSent.Some? ==> !SendButtonDisabled(false, message, payloadToBeSent)
  {
  }

  /** One element of a regular expression made only of characters: a literal, or `.`. */
  datatype PatternChar = Literal(c: char) | AnyButLineTerminator

  /** The characters a JavaScript `.` does not match without the `s` flag. */
  predicate IsLineTerminator(c: char) {
    c == '\n' || c == '\r' || c == '\U{2028}' || c == '\U{2029}'
  }

  /** A character JavaScript stores as one UTF-16 code unit. Without the `u` flag a `.` consumes one code
      unit, so a character above U+FFFF, stored as a surrogate pair, is only half matched; the literal
      after the `.` then meets the low surrogate. Every literal here is ASCII, so such a character cannot
      take a `.`'s place. */
  predicate IsSingleCodeUnit(c: char) {
    c < '\U{10000}'
  }

  /** One pattern element matches one character: a literal itself, a `.` any single code unit that is not
      a line terminator. */
  predicate CharMatches(p: PatternChar, c: char) {
    match p
    case Literal(l) => c == l
    case AnyButLineTerminator => !IsLineTerminator(c) && IsSingleCodeUnit(c)
  }

  /** A regular expression source where every `.` is unescaped: each `.` becomes a wildcard. */
  function UnescapedDots(source: string): (r: seq<PatternChar>)
    ensures |r| == |source|
    ensures forall k :: 0 <= k < |source| ==> r[k] == if source[k] == '.' then AnyButLineTerminator else Literal(source[k])
  {
    if source == [] then []
    else [if source[0] == '.' then AnyButLineTerminator else Literal(source[0])] + UnescapedDots(source[1..])
  }

  /** `s` starts with a match of `pattern`. */
  predicate MatchesAtStart(s: string, pattern: seq<PatternChar>) {
    |pattern| <= |s| && forall k :: 0 <= k < |pattern| ==> CharMatches(pattern[k], s[k])
  }

  /** `!!s.match(regex)` for a regular expression without anchors, groups or quantifiers. */
  predicate RegexFound(s: string, pattern: seq<PatternChar>) {
    exists i :: 0 <= i <= |s| - |pattern| && MatchesAtStart(s[i..], pattern)
  }

  /** The Grid origin the telemetry looks for. */
  const GridOrigin: string := "https://media.gutools.co.uk"

  /** Wherever a string occurs, a regular expression with that source is found: each `.` matches itself. */
  lemma IncludesImpliesRegexFound(s: string, source: string)
    ensures Includes(s, source) ==> RegexFound(s, UnescapedDots(source))
  {
    if Includes(s, source) {
      var i :| 0 <= i <= |s| - |source| && StartsWith(s[i..], source);
      SourceMatchesItself(s[i..], source);
    }
  }

  /** `hasGridUrl` as written: `/https:\/\/media.gutools.co.uk/`, whose dots are wildcards. Every message
      that contains the Grid origin is accepted, and more (`HasGridUrlAsWrittenAcceptsAnyFirstDot`). */
  function HasGridUrlAsWritten(message: string): (r: bool)
    ensures Includes(message, GridOrigin) ==> r
  {
    IncludesImpliesRegexFound(message, GridOrigin);
    RegexFound(message, UnescapedDots(GridOrigin))
  }

  /** The evidently intended `hasGridUrl`: the message contains the Grid origin literally. */
  function HasGridUrl(message: string): (r: bool)
    ensures r <==> exists i :: 0 <= i <= |message| - |GridOrigin| && StartsWith(message[i..], GridOrigin)
  {
    Includes(message, GridOrigin)
  }

  /** Any message that quotes a Grid link is detected by the intended test. */
  lemma GridLinkIsDetected(before: string, path: string)
    ensures HasGridUrl(before + GridOrigin + path)
  {
    IncludesInfix(before, GridOrigin, path);
  }

  /** Text equal to a regular expression's source matches it: a `.` matches itself. */
  lemma {:induction false} SourceMatchesItself(s: string, source: string)
    requires StartsWith(s, source)
    ensures MatchesAtStart(s, UnescapedDots(source))
  {
    var pattern := UnescapedDots(source);
    forall k | 0 <= k < |pattern| ensures CharMatches(pattern[k], s[k]) {
      assert s[k] == s[..|source|][k] == source[k];
    }
  }

  /** Replacing one `.` of the source by any single-code-unit character other than a line terminator
      still matches. */
  lemma {:induction false} DotMatchesAnyChar(before: string, c: char, after: string)
    requires !IsLineTerminator(c) && IsSingleCodeUnit(c)
    ensures MatchesAtStart(before + [c] + after, UnescapedDots(before + "." + after))
  {
    var s, source := before + [c] + after, before + "." + after;
    var pattern := UnescapedDots(source);
    forall k | 0 <= k < |pattern| ensures CharMatches(pattern[k], s[k]) {
      if k != |before| {
        assert s[k] == source[k];
      }
    }
  }

  /** As written, any single-code-unit character other than a line terminator in place of the first dot
      still counts as a Grid link: "https://mediaXgutools.co.uk" (`c` = 'X') is reported although `NotGridOrigin` shows
      that the intended test rejects it. */
  lemma HasGridUrlAsWrittenAcceptsAnyFirstDot(c: char)
    requires !IsLineTerminator(c) && IsSingleCodeUnit(c)
    ensures HasGridUrlAsWritten(FirstDotReplaced(c))
  {
    var s := "https://media" + [c] + "gutools.co.uk";
    assert s == FirstDotReplaced(c);
    assert GridOrigin == "https://media" + "." + "gutools.co.uk";
    DotMatchesAnyChar("https://media", c, "gutools.co.uk");
    assert s[0..] == s;
  }

  /** A pattern as long as the text is not found there once one of its elements fails to match. */
  lemma MismatchSameLength(s: string, pattern: seq<PatternChar>, k: nat)
    requires |s| == |pattern| && k < |s| && !CharMatches(pattern[k], s[k])
    ensures !RegexFound(s, pattern)
  {
    if RegexFound(s, pattern) {
      var i :| 0 <= i <= |s| - |pattern| && MatchesAtStart(s[i..], pattern);
    }
  }

  /** The Grid origin's first dot, at index 13, becomes a wildcard. */
  lemma GridOriginFirstDot()
    ensures |UnescapedDots(GridOrigin)| == 27 && UnescapedDots(GridOrigin)[13] == AnyButLineTerminator
  {
    assert GridOrigin[13] == '.';
  }

  /** A lookalike of the Grid origin whose first dot is replaced by `c`. */
  function FirstDotReplaced(c: char): (s: string)
    ensures |s| == 27 && s[13] == c
  {
    var before := "https://media";
    assert |before| == 13;
    assert (before + [c])[13] == c;
    before + [c] + "gutools.co.uk"
  }

  /** A character above U+FFFF in place of the first dot is not accepted as written: the `.` takes only
      its high surrogate. */
  lemma AstralCharDoesNotTakeADot(c: char)
    requires !IsSingleCodeUnit(c)
    ensures !HasGridUrlAsWritten(FirstDotReplaced(c))
  {
    GridOriginFirstDot();
    MismatchSameLength(FirstDotReplaced(c), UnescapedDots(GridOrigin), 13);
  }

  /** A string of the Grid origin's length whose character in place of the first dot differs is not a
      Grid link. */
  lemma NotGridOrigin(s: string)
    requires |s| == |GridOrigin| && s[13] != '.'
    ensures !HasGridUrl(s)
  {
    assert GridOrigin[13] == '.';
    assert s[0..] == s;
  }

  /** A telemetry event sent once a send completes. */
  datatype TelemetryEvent = GridLinkPasted | MessageSent(pinboardId: PinboardId, messageType: string, hasMentions: bool)

  /** The events of `onCompleted`: the Grid-link event when the message quotes a Grid link, then the
      message-sent event. */
  function CompletionTelemetry(message: string, createdPinboardId: PinboardId, payloadToBeSent: Option<PayloadAndType>,
                               mentions: seq<Email>, groupMentions: seq<string>): (r: seq<TelemetryEvent>)
    ensures |r| == if HasGridUrl(message) then 2 else 1
    ensures r[|r| - 1] == MessageSent(createdPinboardId, MessageType(payloadToBeSent), mentions != [] || groupMentions != [])
    ensures r[0] == GridLinkPasted <==> HasGridUrl(message)
  {
    (if HasGridUrl(message) then [GridLinkPasted] else [])
    + [MessageSent(createdPinboardId, MessageType(payloadToBeSent), |mentions| > 0 || |groupMentions| > 0)]
  }

  /** The composer's state, with the payload the parent holds and what the composer reports. */
  class SendMessageAreaState {
    const pinboardId: PinboardId
    var message: string
    var unverifiedMentions: seq<Mention>
    var payloadToBeSent: Option<PayloadAndType>
    /** Calls of `onSuccessfulSend`, oldest first. */
    var successfulSends: seq<(PendingItem, seq<Email>)>
    /** Telemetry events sent, oldest first. */
    var telemetry: seq<TelemetryEvent>

    constructor (pinboardId: PinboardId, payloadToBeSent: Option<PayloadAndType>)
      ensures this.pinboardId == pinboardId && this.payloadToBeSent == payloadToBeSent
      ensures message == "" && unverifiedMentions == [] && successfulSends == [] && telemetry == []
    {
      this.pinboardId := pinboardId;
      this.payloadToBeSent := payloadToBeSent;
      message, unverifiedMentions, successfulSends, telemetry := "", [], [], [];
    }

    /** `addUnverifiedMention`: appends, even when the mention is already listed. */
    method AddUnverifiedMention(m: Mention)
      modifies this
      ensures unverifiedMentions == old(unverifiedMentions) + [m]
      ensures message == old(message) && payloadToBeSent == old(payloadToBeSent)
      ensures successfulSends == old(successfulSends) && telemetry == old(telemetry)
    {
      unverifiedMentions := unverifiedMentions + [m];
    }

    method SetMessage(s: string)
      modifies this
      ensures message == s
      ensures unverifiedMentions == old(unverifiedMentions) && payloadToBeSent == old(payloadToBeSent)
      ensures successfulSends == old(successfulSends) && telemetry == old(telemetry)
    {
      message := s;
    }

    /** `sendItem`: the input of the create-item mutation. Its mentions are the verified ones, and the
        item is claimable exactly when the user confirms and some picked group's handle is in the text. */
    method SendItem(userHandle: User -> string, groupHandle: Group -> string, confirmed: bool,
                    stringify: map<string, Value> -> string) returns (input: CreateItemInput)
      ensures input == SendInput(payloadToBeSent, message, pinboardId,
                                 VerifiedIndividualMentionEmails(unverifiedMentions, message, userHandle),
                                 VerifiedGroupMentionShorthands(unverifiedMentions, message, groupHandle),
                                 confirmed, stringify)
      ensures input.claimable <==> confirmed && exists g :: GroupMention(g) in unverifiedMentions && Includes(message, groupHandle(g))
      ensures forall e :: e in input.mentions.value <==>
        exists u :: UserMention(u) in unverifiedMentions && Includes(message, userHandle(u)) && u.email == e
    {
      var emails := VerifiedIndividualMentionEmails(unverifiedMentions, message, userHandle);
      var groups := VerifiedGroupMentionShorthands(unverifiedMentions, message, groupHandle);
      input := SendInput(payloadToBeSent, message, pinboardId, emails, groups, confirmed, stringify);
      if exists g :: GroupMention(g) in unverifiedMentions && Includes(message, groupHandle(g)) {
        var g :| GroupMention(g) in unverifiedMentions && Includes(message, groupHandle(g));
        VerifiedGroupMentions(unverifiedMentions, message, groupHandle, g.shorthand);
      }
      if groups != [] {
        VerifiedGroupMentions(unverifiedMentions, message, groupHandle, groups[0]);
      }
      forall e | true
        ensures e in emails <==> exists u :: UserMention(u) in unverifiedMentions && Includes(message, userHandle(u)) && u.email == e
      {
        VerifiedIndividualMentions(unverifiedMentions, message, userHandle, e);
      }
    }

    /** The mutation's `onCompleted` with the item the server created: report the pending item with the
        verified individual mentions, send the telemetry, then clear the message, the payload and the
        picked mentions. */
    method OnSendCompleted(created: Item, userHandle: User -> string, groupHandle: Group -> string)
      modifies this
      ensures var emails := VerifiedIndividualMentionEmails(old(unverifiedMentions), old(message), userHandle);
        var groups := VerifiedGroupMentionShorthands(old(unverifiedMentions), old(message), groupHandle);
        && successfulSends == old(successfulSends) + [(PendingItem(created), emails)]
        && telemetry == old(telemetry) + CompletionTelemetry(old(message), created.pinboardId, old(payloadToBeSent), emails, groups)
      ensures message == "" && payloadToBeSent == None && unverifiedMentions == []
    {
      var emails := VerifiedIndividualMentionEmails(unverifiedMentions, message, userHandle);
      var groups := VerifiedGroupMentionShorthands(unverifiedMentions, message, groupHandle);
      successfulSends := successfulSends + [(PendingItem(created), emails)];
      telemetry := telemetry + CompletionTelemetry(message, created.pinboardId, payloadToBeSent, emails, groups);
      message := "";
      payloadToBeSent := None;
      unverifiedMentions := [];
    }
  }
}
