/** The conversation handlers over an in-memory document store. Each handler
    answers with an HTTP status and, where the source sends one, a record. */
module ConversationController {
  import opened Common
  import opened ConversationSchema

  /** The statuses the handlers answer with. */
  datatype Status = Ok | BadRequest | NotFound | ServerError {
    function Code(): int {
      match this
      case Ok => 200
      case BadRequest => 400
      case NotFound => 404
      case ServerError => 500
    }
  }

  // ---------------------------------------------------------------------
  // Unread counters and the list effect of $push / $pull
  // ---------------------------------------------------------------------

  /** The user ids of a list of counters, in order. */
  function UserIds(cs: seq<UnreadCount>): (r: seq<UserId>)
    ensures |r| == |cs|
    ensures forall k :: 0 <= k < |cs| ==> r[k] == cs[k].userId
  {
    if cs == [] then [] else [cs[0].userId] + UserIds(cs[1..])
  }

  /** The counters a handler hands to the store: `{userId, count: 0}` per id. */
  function Seeded(ids: seq<UserId>): (r: seq<CountDraft>)
    ensures |r| == |ids|
    ensures forall k :: 0 <= k < |ids| ==> r[k] == CountDraft(ids[k], Some(0))
  {
    if ids == [] then [] else [CountDraft(ids[0], Some(0))] + Seeded(ids[1..])
  }

  /** The stored counters of a new record: one zero counter per member, in
      request order. */
  function ZeroCounts(ids: seq<UserId>): (r: seq<UnreadCount>)
    ensures |r| == |ids|
    ensures forall k :: 0 <= k < |ids| ==> r[k] == UnreadCount(ids[k], 0)
    ensures UserIds(r) == ids
  {
    CountsWithDefaults(Seeded(ids))
  }

  /** The central invariant: the multiset of counter ids is the multiset of members. */
  predicate CountersInSync(c: Conversation) {
    multiset(UserIds(c.unreadCounts)) == multiset(c.members)
  }

  /** In-sync counters are exactly as many as the members. */
  lemma InSyncSameLength(c: Conversation)
    requires CountersInSync(c)
    ensures |c.unreadCounts| == |c.members|
  {
    assert |multiset(UserIds(c.unreadCounts))| == |UserIds(c.unreadCounts)|;
  }

  /** `$pull: { unreadCounts: { userId } }`: every counter for `u` goes. */
  function CountsWithout(cs: seq<UnreadCount>, u: UserId): (r: seq<UnreadCount>)
    ensures forall e :: e in r <==> e in cs && e.userId != u
    ensures |r| <= |cs|
  {
    if cs == [] then []
    else if cs[0].userId == u then CountsWithout(cs[1..], u)
    else [cs[0]] + CountsWithout(cs[1..], u)
  }

  /** Pulling the counters of `u` pulls `u` from their id list. */
  lemma {:induction false} UserIdsCountsWithout(cs: seq<UnreadCount>, u: UserId)
    ensures UserIds(CountsWithout(cs, u)) == Without(UserIds(cs), u)
  {
    if cs != [] {
      UserIdsCountsWithout(cs[1..], u);
      assert UserIds(cs)[1..] == UserIds(cs[1..]);
    }
  }

  /** Pulling counters distributes over concatenation. */
  lemma {:induction false} CountsWithoutAppend(cs: seq<UnreadCount>, ds: seq<UnreadCount>, u: UserId)
    ensures CountsWithout(cs + ds, u) == CountsWithout(cs, u) + CountsWithout(ds, u)
  {
    if cs == [] {
      assert cs + ds == ds;
    } else {
      assert (cs + ds)[1..] == cs[1..] + ds;
      CountsWithoutAppend(cs[1..], ds, u);
    }
  }

  /** Pulling counters for a user who has none changes nothing. */
  lemma {:induction false} CountsWithoutAbsent(cs: seq<UnreadCount>, u: UserId)
    requires u !in UserIds(cs)
    ensures CountsWithout(cs, u) == cs
  {
    if cs != [] {
      assert UserIds(cs)[1..] == UserIds(cs[1..]);
      CountsWithoutAbsent(cs[1..], u);
    }
  }

  /** The update of `addToGroup`: `$push` of the user and of a zero counter. */
  function PushMember(c: Conversation, u: UserId): Conversation {
    c.(members := c.members + [u], unreadCounts := c.unreadCounts + [UnreadCount(u, 0)])
  }

  /** The update of `removeFromGroup`: `$pull` of the user and of their counters. */
  function PullMember(c: Conversation, u: UserId): Conversation {
    c.(members := Without(c.members, u), unreadCounts := CountsWithout(c.unreadCounts, u))
  }

  /** Adding a member keeps the counters in sync, even when `u` is already a member. */
  lemma PushKeepsSync(c: Conversation, u: UserId)
    requires CountersInSync(c)
    ensures CountersInSync(PushMember(c, u))
    ensures multiset(PushMember(c, u).members)[u] == multiset(c.members)[u] + 1
  {
    var cs := c.unreadCounts + [UnreadCount(u, 0)];
    assert UserIds(cs) == UserIds(c.unreadCounts) + [u];
  }

  /** Removing a member keeps the counters in sync and leaves no trace of `u`. */
  lemma PullKeepsSync(c: Conversation, u: UserId)
    requires CountersInSync(c)
    ensures CountersInSync(PullMember(c, u))
    ensures u !in PullMember(c, u).members
    ensures forall e :: e in PullMember(c, u).unreadCounts ==> e.userId != u
  {
    UserIdsCountsWithout(c.unreadCounts, u);
    MultisetWithout(UserIds(c.unreadCounts), u);
    MultisetWithout(c.members, u);
  }

  /** Adding a user who was absent and then removing them restores the record. */
  lemma PushPullRoundTrip(c: Conversation, u: UserId)
    requires CountersInSync(c)
    requires u !in c.members
    ensures PullMember(PushMember(c, u), u) == c
  {
    WithoutAppend(c.members, [u], u);
    WithoutAbsent(c.members, u);
    assert Without([u], u) == [];
    assert u !in multiset(UserIds(c.unreadCounts));
    CountsWithoutAppend(c.unreadCounts, [UnreadCount(u, 0)], u);
    CountsWithoutAbsent(c.unreadCounts, u);
    assert CountsWithout([UnreadCount(u, 0)], u) == [];
  }

  // ---------------------------------------------------------------------
  // Lookups
  // ---------------------------------------------------------------------

  /** `$all`: every requested id is a member. MongoDB's `$all` with an empty
      list matches nothing. */
  predicate ContainsAll(members: seq<UserId>, ids: seq<UserId>) {
    |ids| > 0 && forall k :: 0 <= k < |ids| ==> ids[k] in members
  }

  /** `findOne({members: {$all: ids}})`: the first record, in store order,
      whose members include every requested id. */
  function FirstSuperset(records: seq<Conversation>, ids: seq<UserId>): (r: Option<nat>)
    ensures r.Some? ==> r.value < |records| && ContainsAll(records[r.value].members, ids)
    ensures r.Some? ==> forall k :: 0 <= k < r.value ==> !ContainsAll(records[k].members, ids)
    ensures r.None? ==> forall k :: 0 <= k < |records| ==> !ContainsAll(records[k].members, ids)
  {
    if records == [] then None
    else if ContainsAll(records[0].members, ids) then Some(0)
    else match FirstSuperset(records[1..], ids)
      case Some(k) => Some(k + 1)
      case None => None
  }

  /** The lookup depends on the requested ids as a set: order and repeats do not matter. */
  lemma LookupIgnoresOrder(records: seq<Conversation>, a: seq<UserId>, b: seq<UserId>)
    requires forall x :: x in a <==> x in b
    ensures FirstSuperset(records, a) == FirstSuperset(records, b)
  {
    forall ms: seq<UserId> ensures ContainsAll(ms, a) <==> ContainsAll(ms, b) {
      if |a| > 0 {
        assert a[0] in b;
      }
      if |b| > 0 {
        assert b[0] in a;
      }
      if ContainsAll(ms, a) {
        forall k | 0 <= k < |b| ensures b[k] in ms {
          assert b[k] in a;
          var j :| 0 <= j < |a| && a[j] == b[k];
        }
      }
      if ContainsAll(ms, b) {
        forall k | 0 <= k < |a| ensures a[k] in ms {
          assert a[k] in b;
          var j :| 0 <= j < |b| && b[j] == a[k];
        }
      }
    }
    FirstSupersetAgree(records, a, b);
  }

  /** Two id lists that every record matches alike find the same record. */
  lemma {:induction false} FirstSupersetAgree(records: seq<Conversation>, a: seq<UserId>, b: seq<UserId>)
    requires forall ms: seq<UserId> :: ContainsAll(ms, a) <==> ContainsAll(ms, b)
    ensures FirstSuperset(records, a) == FirstSuperset(records, b)
  {
    if records != [] {
      FirstSupersetAgree(records[1..], a, b);
    }
  }

  /** The lookup matches supersets: a 1:1 request finds any earlier record,
      a group included, whose members contain both ids. */
  lemma LookupMatchesSuperset(records: seq<Conversation>, ids: seq<UserId>, k: nat)
    requires k < |records| && |ids| > 0
    requires forall j :: 0 <= j < |ids| ==> ids[j] in records[k].members
    ensures FirstSuperset(records, ids).Some?
    ensures FirstSuperset(records, ids).value <= k
  {
  }

  /** `findById`: the position of the record with this id. */
  function IndexOfId(records: seq<Conversation>, id: ConvId): (r: Option<nat>)
    ensures r.Some? ==> r.value < |records| && records[r.value].id == id
    ensures r.None? ==> forall k :: 0 <= k < |records| ==> records[k].id != id
  {
    if records == [] then None
    else if records[0].id == id then Some(0)
    else match IndexOfId(records[1..], id)
      case Some(k) => Some(k + 1)
      case None => None
  }

  /** The record `createConversation` stores for a new 1:1 chat. */
  function DirectRecord(id: ConvId, ids: seq<UserId>, now: int): Conversation {
    Conversation(id, ids, "", false, None, None, GroupPicPlaceholder, ZeroCounts(ids), now)
  }

  /** A second request for the same pair, in either order, finds the record
      the first request created, when no earlier record matched. */
  lemma SecondRequestFindsCreated(records: seq<Conversation>, a: seq<UserId>, b: seq<UserId>, id: ConvId, now: int)
    requires |a| > 0
    requires forall x :: x in a <==> x in b
    requires FirstSuperset(records, a).None?
    ensures FirstSuperset(records + [DirectRecord(id, a, now)], b) == Some(|records|)
  {
    var all := records + [DirectRecord(id, a, now)];
    LookupIgnoresOrder(all, a, b);
    assert ContainsAll(all[|records|].members, a);
    assert forall k :: 0 <= k < |records| ==> all[k] == records[k];
  }

  // ---------------------------------------------------------------------
  // The list view
  // ---------------------------------------------------------------------

  /** `conv.members.filter(member => member.id !== caller)` on one record. */
  function Strip(c: Conversation, caller: UserId): Conversation {
    c.(members := Without(c.members, caller))
  }

  /** `find({members: {$in: caller}})`: the records the caller belongs to, in store order. */
  function Involving(records: seq<Conversation>, caller: UserId): (r: seq<Conversation>)
    ensures forall c :: c in r <==> c in records && caller in c.members
    ensures |r| <= |records|
  {
    if records == [] then []
    else if caller in records[0].members then [records[0]] + Involving(records[1..], caller)
    else Involving(records[1..], caller)
  }

  /** The `$in` filter keeps store order and multiplicity: it maps
      concatenation to concatenation. */
  lemma {:induction false} InvolvingAppend(a: seq<Conversation>, b: seq<Conversation>, caller: UserId)
    ensures Involving(a + b, caller) == Involving(a, caller) + Involving(b, caller)
  {
    if a == [] {
      assert a + b == b;
    } else {
      assert (a + b)[1..] == a[1..] + b;
      InvolvingAppend(a[1..], b, caller);
    }
  }

  /** A single record is kept exactly when the caller is one of its members. */
  lemma InvolvingOne(c: Conversation, caller: UserId)
    ensures Involving([c], caller) == if caller in c.members then [c] else []
  {
    assert [c][1..] == [];
  }

  /** Every record of `s` with the caller taken out of its members. */
  function StripAll(s: seq<Conversation>, caller: UserId): (r: seq<Conversation>)
    ensures |r| == |s|
    ensures forall k :: 0 <= k < |s| ==> r[k] == Strip(s[k], caller)
  {
    if s == [] then [] else [Strip(s[0], caller)] + StripAll(s[1..], caller)
  }

  /** Any rearrangement of the caller's stripped records no longer names the
      caller, and is empty exactly when the caller is in no record. */
  lemma StrippedListFacts(records: seq<Conversation>, caller: UserId, list: seq<Conversation>)
    requires multiset(list) == multiset(StripAll(Involving(records, caller), caller))
    ensures forall c :: c in list ==> caller !in c.members
    ensures list == [] <==> forall c :: c in records ==> caller !in c.members
  {
    var found := Involving(records, caller);
    var stripped := StripAll(found, caller);
    forall c | c in list ensures caller !in c.members {
      assert c in multiset(stripped);
      var k :| 0 <= k < |stripped| && stripped[k] == c;
    }
    if list == [] {
      assert |stripped| == |multiset(stripped)| == 0;
    } else {
      assert list[0] in multiset(stripped);
      assert found != [];
      assert found[0] in found;
    }
  }

  /** Most recently updated first. */
  predicate NewestFirst(s: seq<Conversation>) {
    forall p, q :: 0 <= p < q < |s| ==> s[p].updatedAt >= s[q].updatedAt
  }

  /** `list.map(conv => ...filter...)`, in place: the caller is taken out of
      every record's members. */
  method StripEach(a: array<Conversation>, caller: UserId)
    modifies a
    ensures a[..] == StripAll(old(a[..]), caller)
  {
    ghost var before := a[..];
    var i := 0;
    while i < a.Length
      invariant 0 <= i <= a.Length
      invariant forall k :: 0 <= k < i ==> a[k] == Strip(before[k], caller)
      invariant forall k :: i <= k < a.Length ==> a[k] == before[k]
    {
      a[i] := Strip(a[i], caller);
      i := i + 1;
    }
  }

  /** Exchanges two neighbouring elements of `a`. */
  method SwapDown(a: array<Conversation>, j: nat)
    requires 0 < j < a.Length
    modifies a
    ensures a[..] == old(a[..])[j - 1 := old(a[j])][j := old(a[j - 1])]
    ensures multiset(a[..]) == old(multiset(a[..]))
  {
    a[j - 1], a[j] := a[j], a[j - 1];
  }

  /** `list.sort((a, b) => b.updatedAt - a.updatedAt)`, in place: an insertion
      sort that moves an element left only past older ones. */
  method SortNewestFirst(a: array<Conversation>)
    modifies a
    ensures NewestFirst(a[..])
    ensures multiset(a[..]) == old(multiset(a[..]))
  {
    var i := 0;
    while i < a.Length
      invariant 0 <= i <= a.Length
      invariant forall p, q :: 0 <= p < q < i ==> a[p].updatedAt >= a[q].updatedAt
      invariant multiset(a[..]) == old(multiset(a[..]))
    {
      var j := i;
      while j > 0 && a[j - 1].updatedAt < a[j].updatedAt
        invariant 0 <= j <= i
        invariant forall p, q :: 0 <= p < q <= i && p != j && q != j ==> a[p].updatedAt >= a[q].updatedAt
        invariant forall q :: j < q <= i ==> a[j].updatedAt > a[q].updatedAt
        invariant multiset(a[..]) == old(multiset(a[..]))
      {
        SwapDown(a, j);
        j := j - 1;
      }
      i := i + 1;
    }
    assert a[..] == a[..a.Length];
  }

  /** `findByIdAndUpdate` does not run the schema's validators, so renaming
      a valid group keeps it valid only if the new name is not empty. */
  lemma RenameSkipsValidation(c: Conversation, name: string, now: int)
    requires c.isGroup && ConversationSchema.Valid(c)
    ensures ConversationSchema.Valid(c.(name := Some(name), updatedAt := now)) <==> name != ""
  {
  }

  // ---------------------------------------------------------------------
  // The request body of createGroupChat, which the handler updates in place
  // ---------------------------------------------------------------------

  /** `req.body` of `POST /conversation/group`. */
  class GroupRequest {
    var name: Option<string>
    var members: Option<seq<UserId>>

    constructor (name: Option<string>, members: Option<seq<UserId>>)
      ensures this.name == name && this.members == members
    {
      this.name := name;
      this.members := members;
    }
  }

  // ---------------------------------------------------------------------
  // The store and its handlers
  // ---------------------------------------------------------------------

  /** The conversation collection: records in insertion order. */
  class ConversationStore {
    var records: seq<Conversation>
    /** The id the next created record gets (ObjectId generation). */
    var nextId: ConvId

    /** Ids are unique and below `nextId`; every record's counters are in sync. */
    ghost predicate Valid()
      reads this
    {
      && (forall k :: 0 <= k < |records| ==> records[k].id < nextId)
      && (forall j, k :: 0 <= j < k < |records| ==> records[j].id != records[k].id)
      && (forall k :: 0 <= k < |records| ==> CountersInSync(records[k]))
    }

    constructor ()
      ensures Valid() && records == [] && nextId == 0
    {
      records := [];
      nextId := 0;
    }

    /** `Conversation.create(d)`: apply the defaults, validate, store. */
    method Insert(d: Draft, now: int) returns (created: Option<Conversation>)
      requires Valid()
      requires CountersInSync(WithDefaults(d, nextId, now))
      modifies this
      ensures Valid()
      ensures created == Validate(d, old(nextId), now)
      ensures created.Some? ==> records == old(records) + [created.value] && nextId == old(nextId) + 1
      ensures created.None? ==> records == old(records) && nextId == old(nextId)
    {
      created := Validate(d, nextId, now);
      if created.Some? {
        records := records + [created.value];
        nextId := nextId + 1;
      }
    }

    /** `POST /conversation/`: find-or-create a 1:1 chat for `memberIds`. */
    method CreateConversation(caller: UserId, memberIds: Option<seq<UserId>>, now: int)
      returns (status: Status, body: Option<Conversation>)
      requires Valid()
      modifies this
      ensures Valid()
      ensures memberIds.None? ==>
        status == BadRequest && body.None? && records == old(records) && nextId == old(nextId)
      ensures memberIds.Some? && FirstSuperset(old(records), memberIds.value).Some? ==>
        && status == Ok && records == old(records) && nextId == old(nextId)
        && body == Some(old(records)[FirstSuperset(old(records), memberIds.value).value])
        && (caller in memberIds.value ==> caller in body.value.members)
      ensures memberIds.Some? && FirstSuperset(old(records), memberIds.value).None? ==>
        var created := DirectRecord(old(nextId), memberIds.value, now);
        && status == Ok && records == old(records) + [created] && nextId == old(nextId) + 1
        && body == Some(created.(members := Without(memberIds.value, caller)))
    {
      if memberIds.None? {
        return BadRequest, None;
      }
      var ids := memberIds.value;
      var found := FirstSuperset(records, ids);
      if found.Some? {
        // The filter compares a populated member document with an id
        // string, so it never removes anything.
        return Ok, Some(records[found.value]);
      }
      ghost var created := DirectRecord(nextId, ids, now);
      var draft := Draft(ids, None, None, None, None, None, Seeded(ids));
      assert WithDefaults(draft, nextId, now) == created;
      var stored := Insert(draft, now);
      if stored.None? {
        return ServerError, None;
      }
      var conv := stored.value;
      return Ok, Some(conv.(members := Without(conv.members, caller)));
    }

    /** `GET /conversation/:id`. */
    method GetConversation(id: ConvId) returns (status: Status, body: Option<Conversation>)
      ensures IndexOfId(records, id).Some? ==>
        status == Ok && body == Some(records[IndexOfId(records, id).value])
      ensures IndexOfId(records, id).None? ==> status == NotFound && body.None?
      ensures body.Some? ==> body.value in records && body.value.id == id
    {
      var i := IndexOfId(records, id);
      if i.None? {
        return NotFound, None;
      }
      return Ok, Some(records[i.value]);
    }

    /** `GET /conversation/`: the caller's chats, caller removed from each
        member list, most recently updated first. Nothing is written back. */
    method GetConversationList(caller: UserId) returns (status: Status, list: seq<Conversation>)
      ensures status == Ok
      ensures multiset(list) == multiset(StripAll(Involving(records, caller), caller))
      ensures NewestFirst(list)
      ensures forall c :: c in list ==> caller !in c.members
      ensures list == [] <==> forall c :: c in records ==> caller !in c.members
    {
      var found := Involving(records, caller);
      var a := new Conversation[|found|](k requires 0 <= k < |found| => found[k]);
      assert a[..] == found;
      StripEach(a, caller);
      SortNewestFirst(a);
      list := a[..];
      status := Ok;
      StrippedListFacts(records, caller, list);
    }

    /** `POST /conversation/group`: create a group; the caller is appended to
        the request's members, becomes admin and gets a counter. */
    method CreateGroupChat(caller: UserId, req: GroupRequest, now: int)
      returns (status: Status, body: Option<Conversation>)
      requires Valid()
      modifies this, req
      ensures Valid()
      ensures req.name == old(req.name)
      ensures (!NamePresent(old(req.name)) || old(req.members).None?) ==>
        && status == BadRequest && body.None?
        && records == old(records) && nextId == old(nextId) && req.members == old(req.members)
      ensures NamePresent(old(req.name)) && old(req.members).Some? ==>
        var ms := old(req.members).value + [caller];
        var group := Conversation(old(nextId), ms, "", true, Some(caller), old(req.name),
                                  GroupPicPlaceholder, ZeroCounts(ms), now);
        && req.members == Some(ms)
        && status == Ok && body == Some(group)
        && records == old(records) + [group] && nextId == old(nextId) + 1
    {
      if !NamePresent(req.name) || req.members.None? {
        return BadRequest, None;
      }
      req.members := Some(req.members.value + [caller]);
      var ms := req.members.value;
      var draft := Draft(ms, None, Some(true), Some(caller), req.name, None, Seeded(ms));
      assert WithDefaults(draft, nextId, now)
        == Conversation(nextId, ms, "", true, Some(caller), req.name, GroupPicPlaceholder, ZeroCounts(ms), now);
      var stored := Insert(draft, now);
      if stored.None? {
        return ServerError, None;
      }
      // `findOne({_id})` reads back the record just stored.
      return Ok, stored;
    }

    /** `PUT /conversation/rename`: set `name`, group or not; an unknown id
        answers 200 with no body. */
    method RenameGroup(chatId: ConvId, name: string, now: int)
      returns (status: Status, body: Option<Conversation>)
      requires Valid()
      modifies this
      ensures Valid() && nextId == old(nextId)
      ensures status == Ok
      ensures IndexOfId(old(records), chatId).None? ==> body.None? && records == old(records)
      ensures IndexOfId(old(records), chatId).Some? ==>
        var i := IndexOfId(old(records), chatId).value;
        && records == old(records)[i := old(records)[i].(name := Some(name), updatedAt := now)]
        && body == Some(records[i])
    {
      var i := IndexOfId(records, chatId);
      if i.None? {
        return Ok, None;
      }
      var k := i.value;
      records := records[k := records[k].(name := Some(name), updatedAt := now)];
      return Ok, Some(records[k]);
    }

    /** `PUT /conversation/groupadd`: push the user and a zero counter, for
        group chats only; an unknown id fails with 500 (null dereference). */
    method AddToGroup(chatId: ConvId, userId: UserId, now: int)
      returns (status: Status, body: Option<Conversation>)
      requires Valid()
      modifies this
      ensures Valid() && nextId == old(nextId)
      ensures IndexOfId(old(records), chatId).None? ==>
        status == ServerError && body.None? && records == old(records)
      ensures IndexOfId(old(records), chatId).Some? && !old(records)[IndexOfId(old(records), chatId).value].isGroup ==>
        status == BadRequest && body.None? && records == old(records)
      ensures IndexOfId(old(records), chatId).Some? && old(records)[IndexOfId(old(records), chatId).value].isGroup ==>
        var i := IndexOfId(old(records), chatId).value;
        && status == Ok
        && records == old(records)[i := PushMember(old(records)[i], userId).(updatedAt := now)]
        && body == Some(records[i])
    {
      var i := IndexOfId(records, chatId);
      if i.None? {
        return ServerError, None;
      }
      var k := i.value;
      if !records[k].isGroup {
        return BadRequest, None;
      }
      PushKeepsSync(records[k], userId);
      records := records[k := PushMember(records[k], userId).(updatedAt := now)];
      return Ok, Some(records[k]);
    }

    /** `PUT /conversation/groupremove`: pull every occurrence of the user and
        their counters, with no group check; an unknown id answers 200 with no body. */
    method RemoveFromGroup(chatId: ConvId, userId: UserId, now: int)
      returns (status: Status, body: Option<Conversation>)
      requires Valid()
      modifies this
      ensures Valid() && nextId == old(nextId)
      ensures status == Ok
      ensures IndexOfId(old(records), chatId).None? ==> body.None? && records == old(records)
      ensures IndexOfId(old(records), chatId).Some? ==>
        var i := IndexOfId(old(records), chatId).value;
        && records == old(records)[i := PullMember(old(records)[i], userId).(updatedAt := now)]
        && body == Some(records[i])
    {
      var i := IndexOfId(records, chatId);
      if i.None? {
        return Ok, None;
      }
      var k := i.value;
      PullKeepsSync(records[k], userId);
      records := records[k := PullMember(records[k], userId).(updatedAt := now)];
      return Ok, Some(records[k]);
    }
  }
}
