/** Records shared by the client and the lambdas (the GraphQL schema's
    Pinboard, Item, User, Group and LastItemSeenByUser), the optional and
    error-carrying wrappers that stand for `undefined`/`null` and thrown
    errors, and the pinboard-list helpers that floaty.tsx and widget.tsx
    both use. */
module Shared {
  import opened Seqs

  datatype Option<T> = None | Some(value: T) {
    function GetOr(default: T): T {
      match this
      case Some(v) => v
      case None => default
    }
  }

  /** A JavaScript function that either returns a value or throws an error. */
  datatype Result<T, E> = Ok(value: T) | Err(error: E)

  type PinboardId = string
  type Email = string

  /** JavaScript truthiness of an optional string: present and non-empty. */
  predicate TruthyString(s: Option<string>) {
    s.Some? && s.value != ""
  }

  /** JavaScript truthiness of `boolean | undefined`. */
  predicate TruthyFlag(b: Option<bool>) {
    b == Some(true)
  }

  /** A scalar JSON value as it arrives in a lambda event or a stub from the workflow datastore. */
  datatype Value = Str(s: string) | Num(n: int) | Bool(b: bool) | Null

  /** A Workflow stub as the client sees it (`PinboardData = WorkflowStub`). */
  datatype PinboardData = PinboardData(id: PinboardId, composerId: Option<string>, title: Option<string>)

  /** A pinboard item; `mentions` are the emails of the mentioned users. */
  datatype Item = Item(
    id: string,
    itemType: string,
    userEmail: Email,
    timestamp: int,
    pinboardId: PinboardId,
    message: Option<string>,
    payload: Option<string>,
    mentions: seq<Email>)

  /** An item confirmed by the server after a send, shown as pending until the subscription delivers it. */
  datatype PendingItem = PendingItem(item: Item)

  datatype LastItemSeenByUser = LastItemSeenByUser(pinboardId: PinboardId, userEmail: Email, itemId: string, seenAt: int)

  datatype User = User(email: Email, firstName: string, lastName: string)

  datatype Group = Group(shorthand: string, name: string)

  /** The GraphQL `CreateItemInput`; `None` stands for `null`. */
  datatype CreateItemInput = CreateItemInput(
    itemType: string,
    message: Option<string>,
    payload: Option<string>,
    pinboardId: PinboardId,
    mentions: Option<seq<Email>>,
    groupMentions: Option<seq<string>>,
    claimable: bool,
    relatedItemId: Option<string>)

  /** An Apollo client error, opaque apart from its message. */
  datatype ApolloError = ApolloError(message: string)

  /** Per-pinboard maps (`PerPinboard<T>`): a key may be present with the value `undefined`. */
  type ErrorsByPinboard = map<PinboardId, Option<ApolloError>>
  type UnreadFlags = map<PinboardId, Option<bool>>

  /** `pinboards.map(_ => _.id)`. */
  function Ids(ps: seq<PinboardData>): (r: seq<PinboardId>)
    ensures |r| == |ps|
    ensures forall i :: 0 <= i < |ps| ==> r[i] == ps[i].id
  {
    if ps == [] then [] else [ps[0].id] + Ids(ps[1..])
  }

  lemma IdsAppend(a: seq<PinboardData>, b: seq<PinboardData>)
    ensures Ids(a + b) == Ids(a) + Ids(b)
  {
    assert forall i :: 0 <= i < |a + b| ==> Ids(a + b)[i] == (Ids(a) + Ids(b))[i];
  }

  /** No two pinboards in the list share an id. */
  predicate UniqueIds(ps: seq<PinboardData>) {
    NoDup(Ids(ps))
  }

  /** `ps.filter(pinboard => pinboard.id !== id)`. */
  function RemoveId(ps: seq<PinboardData>, id: PinboardId): (r: seq<PinboardData>)
    ensures forall q :: q in r ==> q in ps && q.id != id
    ensures forall q :: q in ps && q.id != id ==> q in r
    ensures id !in Ids(r)
    ensures |r| <= |ps|
  {
    if ps == [] then []
    else if ps[0].id == id then RemoveId(ps[1..], id)
    else [ps[0]] + RemoveId(ps[1..], id)
  }

  /** The filter keeps the other pinboards in their order: it distributes over concatenation. */
  lemma {:induction false} RemoveIdAppend(a: seq<PinboardData>, b: seq<PinboardData>, id: PinboardId)
    ensures RemoveId(a + b, id) == RemoveId(a, id) + RemoveId(b, id)
  {
    if a != [] {
      assert (a + b)[1..] == a[1..] + b;
      RemoveIdAppend(a[1..], b, id);
    } else {
      assert a + b == b;
    }
  }

  /** A list without the id is left unchanged. */
  lemma {:induction false} RemoveIdAbsent(ps: seq<PinboardData>, id: PinboardId)
    requires id !in Ids(ps)
    ensures RemoveId(ps, id) == ps
  {
    if ps != [] {
      assert Ids(ps[1..]) == Ids(ps)[1..];
      RemoveIdAbsent(ps[1..], id);
    }
  }

  /** In a list with unique ids, removing a present id removes exactly one pinboard. */
  lemma {:induction false} RemoveIdUnique(ps: seq<PinboardData>, id: PinboardId)
    requires UniqueIds(ps) && id in Ids(ps)
    ensures |RemoveId(ps, id)| == |ps| - 1
  {
    assert Ids(ps[1..]) == Ids(ps)[1..];
    if ps[0].id == id {
      assert id !in Ids(ps[1..]);
      RemoveIdAbsent(ps[1..], id);
    } else {
      RemoveIdUnique(ps[1..], id);
    }
  }

  /** An id occurs in `Ids(ps)` exactly when some pinboard of `ps` has it. */
  lemma IdsMembership(ps: seq<PinboardData>, x: PinboardId)
    ensures x in Ids(ps) <==> exists q :: q in ps && q.id == x
  {
    if x in Ids(ps) {
      var k :| 0 <= k < |ps| && Ids(ps)[k] == x;
      assert ps[k] in ps;
    }
  }

  /** Removing an id keeps the ids unique. */
  lemma {:induction false} RemoveIdKeepsUnique(ps: seq<PinboardData>, id: PinboardId)
    requires UniqueIds(ps)
    ensures UniqueIds(RemoveId(ps, id))
  {
    if ps != [] {
      var tail := ps[1..];
      assert Ids(ps) == [ps[0].id] + Ids(tail);
      RemoveIdKeepsUnique(tail, id);
      var rest := RemoveId(tail, id);
      if ps[0].id != id {
        IdsMembership(rest, ps[0].id);
        IdsMembership(tail, ps[0].id);
        assert ps[0].id !in Ids(rest);
        assert RemoveId(ps, id) == [ps[0]] + rest;
        IdsAppend([ps[0]], rest);
        ConsKeepsNoDup(ps[0].id, Ids(rest));
      }
    }
  }

  lemma ConsKeepsNoDup(x: PinboardId, s: seq<PinboardId>)
    requires NoDup(s) && x !in s
    ensures NoDup([x] + s)
  {
    var t := [x] + s;
    forall i, j | 0 <= i < j < |t| ensures t[i] != t[j] {
      assert t[j] == s[j - 1];
      if i > 0 {
        assert t[i] == s[i - 1];
      }
    }
  }

  /** Appending a pinboard whose id is new keeps the ids unique. */
  lemma AppendNewKeepsUnique(ps: seq<PinboardData>, p: PinboardData)
    requires UniqueIds(ps) && p.id !in Ids(ps)
    ensures UniqueIds(ps + [p])
  {
    IdsAppend(ps, [p]);
  }

  /** Some pinboard among `ids` has an error: the `hasError` expression of floaty.tsx and widget.tsx. */
  predicate HasErrorAmong(errors: ErrorsByPinboard, ids: seq<PinboardId>) {
    exists id :: id in errors && id in ids && errors[id].Some?
  }
}
