/** The root component (client/src/app.tsx): the initial expanded flag, the
    preset unread count read from the host page, the user lookup and the set
    of emails still to be looked up, the desktop-notification guard and the
    composer tags added to every telemetry event. The DOM, the URL and the
    GraphQL client are inputs. */
module App {
  import opened Seqs
  import opened Shared

  /** `window.location.hostname.startsWith("workflow.")`: the app runs inline inside Workflow. */
  function IsInlineMode(hostname: string): (r: bool)
    ensures r <==> exists rest :: hostname == "workflow." + rest
  {
    if StartsWith(hostname, "workflow.") then
      assert hostname == "workflow." + hostname[9..];
      true
    else false
  }

  /** ASCII upper-case letters mapped to lower case, everything else unchanged. */
  function AsciiLower(c: char): (r: char)
    ensures 'A' <= c <= 'Z' ==> r as int == c as int + 32
    ensures !('A' <= c <= 'Z') ==> r == c
  {
    if 'A' <= c <= 'Z' then (c as int + 32) as char else c
  }

  /** `s.toLowerCase() === target` for a lower-case ASCII target. */
  predicate EqualsIgnoringCase(s: string, target: string) {
    |s| == |target| && forall k :: 0 <= k < |s| ==> AsciiLower(s[k]) == target[k]
  }

  /** The initial `isExpanded`: a truthy open-pinboard query parameter, or an expand parameter that reads
      "true" in any case. */
  function InitialIsExpanded(openPinboardParam: Option<string>, expandParam: Option<string>): (r: bool)
    ensures r <==> (|| TruthyString(openPinboardParam)
                    || (&& expandParam.Some? && |expandParam.value| == 4
                        && AsciiLower(expandParam.value[0]) == 't' && AsciiLower(expandParam.value[1]) == 'r'
                        && AsciiLower(expandParam.value[2]) == 'u' && AsciiLower(expandParam.value[3]) == 'e'))
  {
    TruthyString(openPinboardParam) || (expandParam.Some? && EqualsIgnoringCase(expandParam.value, "true"))
  }

  /** Upper-case spellings of "true" expand the app; other values of the expand parameter do not. */
  lemma ExpandParamIgnoresCase()
    ensures InitialIsExpanded(None, Some("TRUE")) && InitialIsExpanded(None, Some("True"))
    ensures !InitialIsExpanded(None, Some("yes")) && !InitialIsExpanded(None, Some("")) && !InitialIsExpanded(Some(""), None)
  {
    assert !EqualsIgnoringCase("yes", "true");
  }

  /** `StrWhiteSpaceChar` of ECMAScript: the characters `parseInt` skips at the start. */
  predicate IsJsWhitespace(c: char) {
    c == '\t' || c == '\n' || c == '\U{000B}' || c == '\U{000C}' || c == '\r' || c == ' '
    || c == '\U{00A0}' || c == '\U{1680}' || ('\U{2000}' <= c <= '\U{200A}')
    || c == '\U{2028}' || c == '\U{2029}' || c == '\U{202F}' || c == '\U{205F}' || c == '\U{3000}' || c == '\U{FEFF}'
  }

  /** `s` without its leading whitespace. */
  function TrimStart(s: string): (r: string)
    ensures |r| <= |s| && r == s[|s| - |r|..]
    ensures r == [] || !IsJsWhitespace(r[0])
    ensures forall k :: 0 <= k < |s| - |r| ==> IsJsWhitespace(s[k])
  {
    if s != [] && IsJsWhitespace(s[0]) then TrimStart(s[1..]) else s
  }

  /** The value of `c` as a digit in base `radix`, or `radix` itself when it is not such a digit. */
  function DigitValue(c: char, radix: nat): (r: nat)
    requires radix == 10 || radix == 16
    ensures r <= radix
  {
    if '0' <= c <= '9' then (if (c as int - '0' as int) < radix then c as int - '0' as int else radix)
    else if radix == 16 && 'a' <= c <= 'f' then c as int - 'a' as int + 10
    else if radix == 16 && 'A' <= c <= 'F' then c as int - 'A' as int + 10
    else radix
  }

  predicate IsDigit(c: char, radix: nat)
    requires radix == 10 || radix == 16
  {
    DigitValue(c, radix) < radix
  }

  /** The longest prefix of `s` made of digits in base `radix`. */
  function DigitPrefix(s: string, radix: nat): (r: string)
    requires radix == 10 || radix == 16
    ensures r <= s
    ensures forall k :: 0 <= k < |r| ==> IsDigit(r[k], radix)
    ensures |r| == |s| || !IsDigit(s[|r|], radix)
  {
    if s != [] && IsDigit(s[0], radix) then [s[0]] + DigitPrefix(s[1..], radix) else []
  }

  /** The number that the digits denote, most significant first. */
  function DigitsValue(digits: string, radix: nat): nat
    requires radix == 10 || radix == 16
  {
    if digits == [] then 0
    else DigitsValue(digits[..|digits| - 1], radix) * radix + DigitValue(digits[|digits| - 1], radix) % radix
  }

  /** The unsigned part of `parseInt`: a "0x" or "0X" prefix selects base 16; the longest run of digits
      that follows is the value, and no digit at all gives `None` (`NaN`). */
  function ParseUnsigned(u: string): (r: Option<int>)
    ensures r.Some? ==> r.value >= 0
  {
    var hex := StartsWith(u, "0x") || StartsWith(u, "0X");
    var radix := if hex then 16 else 10;
    var digits := DigitPrefix(if hex then u[2..] else u, radix);
    if digits == [] then None else Some(DigitsValue(digits, radix))
  }

  /** The sign of `parseInt`: a leading "-" negates, a leading "+" is skipped. */
  function ParseSigned(t: string): Option<int> {
    if t != [] && t[0] == '-' then
      match ParseUnsigned(t[1..])
      case None => None
      case Some(v) => Some(-v)
    else if t != [] && t[0] == '+' then ParseUnsigned(t[1..])
    else ParseUnsigned(t)
  }

  /** `parseInt(s)` with no radix argument, `None` standing for `NaN`: leading whitespace is skipped, then
      a sign and the digits are read. */
  function ParseInt(s: string): Option<int> {
    ParseSigned(TrimStart(s))
  }

  /** The decimal numeral of `n`, without leading zeros. */
  function NatToDecimal(n: nat): (r: string)
    ensures |r| > 0
    ensures forall k :: 0 <= k < |r| ==> '0' <= r[k] <= '9'
    ensures DigitsValue(r, 10) == n
  {
    if n < 10 then [('0' as int + n) as char]
    else
      var r := NatToDecimal(n / 10) + [('0' as int + n % 10) as char];
      assert r[..|r| - 1] == NatToDecimal(n / 10);
      r
  }

  /** The decimal digits of a numeral are the whole numeral when nothing that is a digit follows. */
  lemma {:induction false} DecimalPrefixOfNumeral(numeral: string, rest: string)
    requires forall k :: 0 <= k < |numeral| ==> '0' <= numeral[k] <= '9'
    requires rest == [] || !IsDigit(rest[0], 10)
    ensures DigitPrefix(numeral + rest, 10) == numeral
  {
    if numeral != [] {
      assert (numeral + rest)[1..] == numeral[1..] + rest;
      DecimalPrefixOfNumeral(numeral[1..], rest);
    } else {
      assert numeral + rest == rest;
    }
  }

  /** A string that does not begin with "0x" or "0X" is read in base 10. */
  lemma NotHexPrefix(u: string)
    requires |u| < 2 || u[0] != '0' || (u[1] != 'x' && u[1] != 'X')
    ensures !StartsWith(u, "0x") && !StartsWith(u, "0X")
  {
    if |u| >= 2 {
      assert u[..2][0] == u[0] && u[..2][1] == u[1];
    }
  }

  /** The unsigned part reads back a numeral when nothing after it extends it. */
  lemma ParseUnsignedNumeral(n: nat, rest: string)
    requires rest == [] || (!IsDigit(rest[0], 10) && rest[0] != 'x' && rest[0] != 'X')
    ensures ParseUnsigned(NatToDecimal(n) + rest) == Some(n)
  {
    var numeral := NatToDecimal(n);
    var u := numeral + rest;
    assert |numeral| >= 2 ==> u[1] == numeral[1];
    assert |numeral| == 1 && rest != [] ==> u[1] == rest[0];
    NotHexPrefix(u);
    DecimalPrefixOfNumeral(numeral, rest);
  }

  /** `parseInt` reads back the decimal numeral of a natural number, ignoring leading whitespace and
      anything after the numeral that is neither a digit nor the `x` of a hexadecimal prefix. */
  lemma ParseIntReadsNumeral(ws: string, n: nat, rest: string)
    requires forall k :: 0 <= k < |ws| ==> IsJsWhitespace(ws[k])
    requires rest == [] || (!IsDigit(rest[0], 10) && rest[0] != 'x' && rest[0] != 'X')
    ensures ParseInt(ws + NatToDecimal(n) + rest) == Some(n)
  {
    var numeral := NatToDecimal(n);
    var u := numeral + rest;
    assert ws + numeral + rest == ws + u;
    assert u[0] == numeral[0] && '0' <= u[0] <= '9';
    ParseIntSkipsWhitespace(ws, u);
    UnsignedWithoutSign(u);
    ParseUnsignedNumeral(n, rest);
  }

  lemma UnsignedWithoutSign(t: string)
    requires t != [] && '0' <= t[0] <= '9'
    ensures ParseSigned(t) == ParseUnsigned(t)
  {
  }

  /** The same for a negative numeral once the whitespace is skipped (`ParseIntSkipsWhitespace`): the
      minus sign negates the value read. */
  lemma ParseSignedReadsNegativeNumeral(n: nat, rest: string)
    requires rest == [] || (!IsDigit(rest[0], 10) && rest[0] != 'x' && rest[0] != 'X')
    ensures ParseSigned("-" + (NatToDecimal(n) + rest)) == Some(-(n as int))
  {
    ParseUnsignedNumeral(n, rest);
    MinusNegates(NatToDecimal(n) + rest, n);
  }

  lemma MinusNegates(u: string, v: nat)
    requires ParseUnsigned(u) == Some(v)
    ensures ParseSigned("-" + u) == Some(-(v as int))
  {
    assert ("-" + u)[1..] == u;
  }

  /** `parseInt` ignores leading whitespace. */
  lemma ParseIntSkipsWhitespace(ws: string, t: string)
    requires forall k :: 0 <= k < |ws| ==> IsJsWhitespace(ws[k])
    requires t == [] || !IsJsWhitespace(t[0])
    ensures ParseInt(ws + t) == ParseSigned(t)
  {
    TrimStartSkips(ws, t);
  }

  /** Leading whitespace is skipped. */
  lemma {:induction false} TrimStartSkips(ws: string, s: string)
    requires forall k :: 0 <= k < |ws| ==> IsJsWhitespace(ws[k])
    requires s == [] || !IsJsWhitespace(s[0])
    ensures TrimStart(ws + s) == s
  {
    if ws != [] {
      assert (ws + s)[1..] == ws[1..] + s;
      TrimStartSkips(ws[1..], s);
    } else {
      assert ws + s == s;
    }
  }

  /** A string whose first non-blank character is not a sign, a digit or the start of a numeral is `NaN`. */
  lemma ParseIntOfNonNumeral(ws: string, c: char, rest: string)
    requires forall k :: 0 <= k < |ws| ==> IsJsWhitespace(ws[k])
    requires !IsJsWhitespace(c) && c != '-' && c != '+' && !IsDigit(c, 10)
    ensures ParseInt(ws + [c] + rest) == None
  {
    assert ws + [c] + rest == ws + ([c] + rest);
    ParseIntSkipsWhitespace(ws, [c] + rest);
    NotHexPrefix([c] + rest);
  }

  /** `refreshPresetUnreadNotifications`: no `data-count` gives `undefined`, otherwise the parsed integer,
      with 0 for a value that does not parse. */
  function PresetUnreadCount(rawCount: Option<string>): (r: Option<int>)
    ensures rawCount.None? <==> r.None?
    ensures rawCount.Some? && ParseInt(rawCount.value).Some? ==> r == ParseInt(rawCount.value)
    ensures rawCount.Some? && ParseInt(rawCount.value).None? ==> r == Some(0)
  {
    match rawCount
    case None => None
    case Some(raw) => Some(ParseInt(raw).GetOr(0))
  }

  /** Emails mapped to the users already fetched (`UserLookup`). */
  type UserLookup = map<Email, User>

  /** Every user is stored under their own email. */
  predicate KeyedByEmail(lookup: UserLookup) {
    forall e :: e in lookup ==> lookup[e].email == e
  }

  /** `users.map(user => user.email)`. */
  function EmailsOf(users: seq<User>): (r: seq<Email>)
    ensures |r| == |users|
    ensures forall i :: 0 <= i < |users| ==> r[i] == users[i].email
  {
    if users == [] then [] else EmailsOf(users[..|users| - 1]) + [users[|users| - 1].email]
  }

  /** `users.reduce((acc, user) => ({...acc, [user.email]: user}), acc)`. */
  function MergeUsers(acc: UserLookup, users: seq<User>): UserLookup
    decreases |users|
  {
    if users == [] then acc
    else MergeUsers(acc, users[..|users| - 1])[users[|users| - 1].email := users[|users| - 1]]
  }

  /** The last position in `users` of a user with email `e`. */
  function LastIndexOfEmail(users: seq<User>, e: Email): (r: nat)
    requires e in EmailsOf(users)
    ensures r < |users| && users[r].email == e
    ensures forall j :: r < j < |users| ==> users[j].email != e
  {
    var init := users[..|users| - 1];
    if users[|users| - 1].email == e then |users| - 1
    else
      assert EmailsOf(users) == EmailsOf(init) + [users[|users| - 1].email];
      LastIndexOfEmail(init, e)
  }

  /** After merging, an email is in the lookup exactly when it was already there or some fetched user has
      it; an email no fetched user has keeps its entry, and one that fetched users have maps to the last
      of them. */
  lemma {:induction false} MergeUsersEntry(acc: UserLookup, users: seq<User>, e: Email)
    ensures e in MergeUsers(acc, users) <==> e in acc || e in EmailsOf(users)
    ensures e !in EmailsOf(users) && e in acc ==> MergeUsers(acc, users)[e] == acc[e]
    ensures e in EmailsOf(users) ==> MergeUsers(acc, users)[e] == users[LastIndexOfEmail(users, e)]
    decreases |users|
  {
    if users != [] {
      var init, last := users[..|users| - 1], users[|users| - 1];
      MergeUsersEntry(acc, init, e);
      assert EmailsOf(users) == EmailsOf(init) + [last.email];
    }
  }

  /** Merging keeps every user stored under their own email. */
  lemma {:induction false} MergeUsersKeyedByEmail(acc: UserLookup, users: seq<User>)
    requires KeyedByEmail(acc)
    ensures KeyedByEmail(MergeUsers(acc, users))
    decreases |users|
  {
    if users != [] {
      MergeUsersKeyedByEmail(acc, users[..|users| - 1]);
    }
  }

  /** The initial lookup: the demo user, then every demo mentionable user, keyed by email. */
  function InitialUserLookup(demoUser: User, demoMentionableUsers: seq<User>): UserLookup {
    MergeUsers(map[demoUser.email := demoUser], demoMentionableUsers)
  }

  /** The initial lookup holds exactly the demo user and the demo mentionable users, each under their
      own email: the last demo mentionable user with an email wins, and the demo user stays only when no
      demo mentionable user shares their email. */
  lemma InitialUserLookupSpec(demoUser: User, demoMentionableUsers: seq<User>, e: Email)
    ensures e in InitialUserLookup(demoUser, demoMentionableUsers) <==> e == demoUser.email || e in EmailsOf(demoMentionableUsers)
    ensures KeyedByEmail(InitialUserLookup(demoUser, demoMentionableUsers))
    ensures e in EmailsOf(demoMentionableUsers) ==>
      InitialUserLookup(demoUser, demoMentionableUsers)[e] == demoMentionableUsers[LastIndexOfEmail(demoMentionableUsers, e)]
    ensures e == demoUser.email && e !in EmailsOf(demoMentionableUsers) ==> InitialUserLookup(demoUser, demoMentionableUsers)[e] == demoUser
  {
    MergeUsersEntry(map[demoUser.email := demoUser], demoMentionableUsers, e);
    MergeUsersKeyedByEmail(map[demoUser.email := demoUser], demoMentionableUsers);
  }

  /** `new Set([...existingEmails, ...emails])`, kept in insertion order. */
  function AddEmails(existing: seq<Email>, emails: seq<Email>): seq<Email> {
    Dedupe(existing + emails)
  }

  /** Adding emails is a set union that never reorders or drops the emails already waiting. */
  lemma AddEmailsIsUnion(existing: seq<Email>, emails: seq<Email>, e: Email)
    requires NoDup(existing)
    ensures NoDup(AddEmails(existing, emails))
    ensures e in AddEmails(existing, emails) <==> e in existing || e in emails
    ensures existing <= AddEmails(existing, emails)
  {
    DedupeExtends(existing, emails);
  }

  lemma {:induction false} DedupeExtends(existing: seq<Email>, emails: seq<Email>)
    requires NoDup(existing)
    ensures existing <= Dedupe(existing + emails)
    decreases |emails|
  {
    if emails == [] {
      assert existing + emails == existing;
      DedupeOfNoDup(existing);
    } else {
      var init := emails[..|emails| - 1];
      DedupeExtends(existing, init);
      assert (existing + emails)[..|existing + emails| - 1] == existing + init;
    }
  }

  /** The emails sent to `getUsers`: the waiting ones that are not in the lookup yet, in order. */
  function EmailsToQuery(waiting: seq<Email>, lookup: UserLookup): (r: seq<Email>)
    ensures forall e :: e in r <==> e in waiting && e !in lookup
    ensures |r| <= |waiting|
  {
    if waiting == [] then []
    else (if waiting[0] !in lookup then [waiting[0]] else []) + EmailsToQuery(waiting[1..], lookup)
  }

  /** Once every waiting email has been fetched nothing more is queried. */
  lemma NothingToQueryOnceFetched(waiting: seq<Email>, lookup: UserLookup, fetched: seq<User>)
    requires forall e :: e in waiting ==> e in EmailsOf(fetched)
    ensures EmailsToQuery(waiting, MergeUsers(lookup, fetched)) == []
  {
    var r := EmailsToQuery(waiting, MergeUsers(lookup, fetched));
    if r != [] {
      MergeUsersEntry(lookup, fetched, r[0]);
    }
  }

  /** A telemetry tag value. */
  datatype TagValue = TagString(s: string) | TagNumber(n: int) | TagBool(b: bool)

  type Tags = map<string, TagValue>

  /** The tags `sendTelemetryEvent` passes on: when both the preselected composer id and the composer
      section are truthy they are added, and a caller tag with the same key overrides them; otherwise the
      caller's tags go through unchanged. */
  function MergeTelemetryTags(composerId: Option<string>, composerSection: Option<string>, tags: Option<Tags>): (r: Option<Tags>)
    ensures !(TruthyString(composerId) && TruthyString(composerSection)) ==> r == tags
    ensures TruthyString(composerId) && TruthyString(composerSection) ==>
      && r.Some?
      && r.value.Keys == {"composerId", "composerSection"} + tags.GetOr(map[]).Keys
      && (forall k :: k in tags.GetOr(map[]) ==> r.value[k] == tags.GetOr(map[])[k])
      && ("composerId" !in tags.GetOr(map[]) ==> r.value["composerId"] == TagString(composerId.value))
      && ("composerSection" !in tags.GetOr(map[]) ==> r.value["composerSection"] == TagString(composerSection.value))
  {
    if TruthyString(composerId) && TruthyString(composerSection) then
      Some(map["composerId" := TagString(composerId.value), "composerSection" := TagString(composerSection.value)] + tags.GetOr(map[]))
    else tags
  }

  /** The tags of the pinboard-loaded event: the composer pair when both are truthy, otherwise none. */
  function LoadedEventTags(composerId: Option<string>, composerSection: Option<string>): (r: Tags)
    ensures TruthyString(composerId) && TruthyString(composerSection) ==>
      r == map["composerId" := TagString(composerId.value), "composerSection" := TagString(composerSection.value)]
    ensures !(TruthyString(composerId) && TruthyString(composerSection)) ==> r == map[]
  {
    if TruthyString(composerId) && TruthyString(composerSection) then
      map["composerId" := TagString(composerId.value), "composerSection" := TagString(composerSection.value)]
    else map[]
  }

  /** The loaded event's own tags agree with what the merge adds, so merging them changes nothing. */
  lemma LoadedEventTagsAreStable(composerId: Option<string>, composerSection: Option<string>)
    ensures MergeTelemetryTags(composerId, composerSection, Some(LoadedEventTags(composerId, composerSection)))
         == Some(LoadedEventTags(composerId, composerSection))
  {
    var m := LoadedEventTags(composerId, composerSection);
    if TruthyString(composerId) && TruthyString(composerSection) {
      assert Some(m).GetOr(map[]) == m;
      assert m + m == m;
    }
  }

  /** The composer section after `refreshPreselectedPinboard`. The function is registered once, at mount,
      so its guard compares the value read with the first render's `undefined` rather than with the
      current section: a section that is read is taken over, and a missing one writes nothing. */
  function SectionAfterRefresh(current: Option<string>, observed: Option<string>): (r: Option<string>)
    ensures r == observed || r == current
    ensures observed.Some? ==> r == observed
  {
    if observed.Some? then observed else current
  }

  /** The composer sections after a series of refreshes. */
  function SectionAfterRefreshes(current: Option<string>, observed: seq<Option<string>>): Option<string>
    decreases |observed|
  {
    if observed == [] then current
    else SectionAfterRefresh(SectionAfterRefreshes(current, observed[..|observed| - 1]), observed[|observed| - 1])
  }

  /** After any series of refreshes the section is the last one read, or the one before the series if
      none was read: once read, a section is never cleared. */
  lemma {:induction false} SectionIsLastOneRead(current: Option<string>, observed: seq<Option<string>>)
    ensures var r := SectionAfterRefreshes(current, observed);
      && (forall k :: 0 <= k < |observed| ==> observed[k].None?) ==> r == current
    ensures forall k :: (0 <= k < |observed| && observed[k].Some? && (forall j :: k < j < |observed| ==> observed[j].None?))
                   ==> SectionAfterRefreshes(current, observed) == observed[k]
    ensures current.Some? ==> SectionAfterRefreshes(current, observed).Some?
    decreases |observed|
  {
    if observed != [] {
      var init, last := observed[..|observed| - 1], observed[|observed| - 1];
      SectionIsLastOneRead(current, init);
      assert SectionAfterRefreshes(current, observed) == SectionAfterRefresh(SectionAfterRefreshes(current, init), last);
      if forall k :: 0 <= k < |observed| ==> observed[k].None? {
        assert forall k :: 0 <= k < |init| ==> init[k] == observed[k];
      }
      forall k | 0 <= k < |observed| && observed[k].Some? && (forall j :: k < j < |observed| ==> observed[j].None?)
        ensures SectionAfterRefreshes(current, observed) == observed[k]
      {
        if k < |init| {
          assert init[k] == observed[k];
          assert forall j :: k < j < |init| ==> init[j] == observed[j];
        }
      }
    }
  }

  /** A removed `data-composer-section` is not cleared, so later events keep the old section beside the
      new id: a piece with section "news" followed by one without a section still tags "news". */
  lemma StaleSectionTagsLaterEvents(oldId: string, newId: string, section: string)
    requires oldId != "" && newId != "" && section != ""
    ensures var s := SectionAfterRefresh(Some(section), None);
      && s == Some(section)
      && MergeTelemetryTags(Some(newId), s, None) == Some(map["composerId" := TagString(newId), "composerSection" := TagString(section)])
  {
    var none: Option<Tags> := None;
    var pair := map["composerId" := TagString(newId), "composerSection" := TagString(section)];
    assert TruthyString(Some(newId)) && TruthyString(Some(section));
    assert none.GetOr(map[]) == map[];
    assert pair + map[] == pair;
  }

  /** A telemetry event as handed to the base telemetry sender. */
  datatype TelemetryEvent = TelemetryEvent(eventType: string, tags: Option<Tags>, value: TagValue)

  /** The root component's state. */
  class AppState {
    const userEmail: Email
    var isExpanded: bool
    var presetUnreadNotificationCount: Option<int>
    var preselectedComposerId: Option<string>
    var composerSection: Option<string>
    var userLookup: UserLookup
    var userEmailsToLookup: seq<Email>
    /** Items posted to the service worker, oldest first. */
    var desktopNotifications: seq<Item>
    /** Events handed to the base telemetry sender, oldest first. */
    var telemetry: seq<TelemetryEvent>

    ghost predicate Valid()
      reads this
    {
      NoDup(userEmailsToLookup) && KeyedByEmail(userLookup)
    }

    constructor (userEmail: Email, openPinboardParam: Option<string>, expandParam: Option<string>,
                 demoUser: User, demoMentionableUsers: seq<User>)
      ensures Valid()
      ensures this.userEmail == userEmail
      ensures isExpanded == InitialIsExpanded(openPinboardParam, expandParam)
      ensures userLookup == InitialUserLookup(demoUser, demoMentionableUsers)
      ensures presetUnreadNotificationCount == None && preselectedComposerId == None && composerSection == None
      ensures userEmailsToLookup == [] && desktopNotifications == [] && telemetry == []
    {
      this.userEmail := userEmail;
      isExpanded := InitialIsExpanded(openPinboardParam, expandParam);
      MergeUsersKeyedByEmail(map[demoUser.email := demoUser], demoMentionableUsers);
      userLookup := InitialUserLookup(demoUser, demoMentionableUsers);
      presetUnreadNotificationCount, preselectedComposerId, composerSection := None, None, None;
      userEmailsToLookup, desktopNotifications, telemetry := [], [], [];
    }

    /** A DOM change: re-read the preset unread count. */
    method RefreshPresetUnreadNotifications(rawCount: Option<string>)
      modifies this
      ensures presetUnreadNotificationCount == PresetUnreadCount(rawCount)
      ensures isExpanded == old(isExpanded) && preselectedComposerId == old(preselectedComposerId)
      ensures composerSection == old(composerSection) && userLookup == old(userLookup)
      ensures userEmailsToLookup == old(userEmailsToLookup) && desktopNotifications == old(desktopNotifications)
      ensures telemetry == old(telemetry)
    {
      if rawCount.Some? {
        var count := ParseInt(rawCount.value);
        presetUnreadNotificationCount := Some(if count.None? then 0 else count.value);
      } else {
        presetUnreadNotificationCount := None;
      }
    }

    /** A DOM change: re-read the preselected composer id and section. The id is always taken over; a
        missing section keeps the one read before (`SectionAfterRefresh`). */
    method RefreshPreselectedPinboard(newComposerId: Option<string>, newComposerSection: Option<string>)
      modifies this
      ensures preselectedComposerId == newComposerId
      ensures composerSection == SectionAfterRefresh(old(composerSection), newComposerSection)
      ensures isExpanded == old(isExpanded) && presetUnreadNotificationCount == old(presetUnreadNotificationCount)
      ensures userLookup == old(userLookup) && userEmailsToLookup == old(userEmailsToLookup)
      ensures desktopNotifications == old(desktopNotifications) && telemetry == old(telemetry)
    {
      // the guards compare with the first render's `null` id and `undefined` section
      preselectedComposerId := newComposerId;
      if newComposerSection.Some? {
        composerSection := newComposerSection;
      }
    }

    /** `addEmailsToLookup`. */
    method AddEmailsToLookup(emails: seq<Email>)
      requires Valid()
      modifies this
      ensures Valid()
      ensures userEmailsToLookup == AddEmails(old(userEmailsToLookup), emails)
      ensures isExpanded == old(isExpanded) && presetUnreadNotificationCount == old(presetUnreadNotificationCount)
      ensures preselectedComposerId == old(preselectedComposerId) && composerSection == old(composerSection)
      ensures userLookup == old(userLookup) && desktopNotifications == old(desktopNotifications) && telemetry == old(telemetry)
    {
      userEmailsToLookup := AddEmails(userEmailsToLookup, emails);
    }

    /** The `getUsers` query for `EmailsToQuery(userEmailsToLookup, userLookup)` returned `users`: they
        are merged into the lookup as it is when the answer arrives. */
    method OnUsersFetched(users: seq<User>)
      requires Valid()
      modifies this
      ensures Valid()
      ensures userLookup == MergeUsers(old(userLookup), users)
      ensures isExpanded == old(isExpanded) && presetUnreadNotificationCount == old(presetUnreadNotificationCount)
      ensures preselectedComposerId == old(preselectedComposerId) && composerSection == old(composerSection)
      ensures userEmailsToLookup == old(userEmailsToLookup) && desktopNotifications == old(desktopNotifications)
      ensures telemetry == old(telemetry)
    {
      MergeUsersKeyedByEmail(userLookup, users);
      userLookup := MergeUsers(userLookup, users);
    }

    /** `showDesktopNotification(item)`: only an item by someone else is posted to the service worker. */
    method ShowDesktopNotification(item: Option<Item>)
      modifies this
      ensures desktopNotifications == old(desktopNotifications) + (if item.Some? && item.value.userEmail != userEmail then [item.value] else [])
      ensures isExpanded == old(isExpanded) && presetUnreadNotificationCount == old(presetUnreadNotificationCount)
      ensures preselectedComposerId == old(preselectedComposerId) && composerSection == old(composerSection)
      ensures userLookup == old(userLookup) && userEmailsToLookup == old(userEmailsToLookup) && telemetry == old(telemetry)
    {
      if item.Some? && item.value.userEmail != userEmail {
        desktopNotifications := desktopNotifications + [item.value];
      }
    }

    /** `sendTelemetryEvent(type, tags, value)`; an omitted `value` is `true`. */
    method SendTelemetryEvent(eventType: string, tags: Option<Tags>, value: Option<TagValue>)
      modifies this
      ensures telemetry == old(telemetry) + [TelemetryEvent(eventType, MergeTelemetryTags(preselectedComposerId, composerSection, tags), value.GetOr(TagBool(true)))]
      ensures isExpanded == old(isExpanded) && presetUnreadNotificationCount == old(presetUnreadNotificationCount)
      ensures preselectedComposerId == old(preselectedComposerId) && composerSection == old(composerSection)
      ensures userLookup == old(userLookup) && userEmailsToLookup == old(userEmailsToLookup)
      ensures desktopNotifications == old(desktopNotifications)
    {
      telemetry := telemetry + [TelemetryEvent(eventType, MergeTelemetryTags(preselectedComposerId, composerSection, tags), value.GetOr(TagBool(true)))];
    }

    /** The effect run whenever the composer id or section changes: a `PINBOARD_LOADED` event whose tags
        are the composer pair when both are truthy and empty otherwise, with the default value. */
    method SendPinboardLoaded()
      modifies this
      ensures telemetry == old(telemetry) + [TelemetryEvent("PINBOARD_LOADED", Some(LoadedEventTags(preselectedComposerId, composerSection)), TagBool(true))]
      ensures isExpanded == old(isExpanded) && presetUnreadNotificationCount == old(presetUnreadNotificationCount)
      ensures preselectedComposerId == old(preselectedComposerId) && composerSection == old(composerSection)
      ensures userLookup == old(userLookup) && userEmailsToLookup == old(userEmailsToLookup)
      ensures desktopNotifications == old(desktopNotifications)
    {
      LoadedEventTagsAreStable(preselectedComposerId, composerSection);
      SendTelemetryEvent("PINBOARD_LOADED", Some(LoadedEventTags(preselectedComposerId, composerSection)), None);
    }

    method SetIsExpanded(value: bool)
      modifies this
      ensures isExpanded == value
      ensures presetUnreadNotificationCount == old(presetUnreadNotificationCount)
      ensures preselectedComposerId == old(preselectedComposerId) && composerSection == old(composerSection)
      ensures userLookup == old(userLookup) && userEmailsToLookup == old(userEmailsToLookup)
      ensures desktopNotifications == old(desktopNotifications) && telemetry == old(telemetry)
    {
      isExpanded := value;
    }
  }
}
