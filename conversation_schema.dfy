/** The Conversation document: its fields, the defaults the schema fills in,
    and the conditional `required` rule for group fields. */
module ConversationSchema {
  import opened Common

  /** The placeholder image every conversation starts with. */
  const GroupPicPlaceholder: string :=
    "https://icon-library.com/images/anonymous-avatar-icon/anonymous-avatar-icon-25.jpg"

  /** One entry of `unreadCounts`. */
  datatype UnreadCount = UnreadCount(userId: UserId, count: int)

  /** A stored conversation, with every default already applied.
      `latestMessage` stands for the schema key `latestmessage`; `updatedAt`
      is the store's timestamp, taken as an integer. */
  datatype Conversation = Conversation(
    id: ConvId,
    members: seq<UserId>,
    latestMessage: string,
    isGroup: bool,
    groupAdmin: Option<UserId>,
    name: Option<string>,
    groupPic: string,
    unreadCounts: seq<UnreadCount>,
    updatedAt: int)

  /** An `unreadCounts` entry as handed to the store; `count` may be left out. */
  datatype CountDraft = CountDraft(userId: UserId, count: Option<int>)

  /** The fields handed to `Conversation.create`; `None` means not given.
      `latestMessage` is the key `latestmessage`. */
  datatype Draft = Draft(
    members: seq<UserId>,
    latestMessage: Option<string>,
    isGroup: Option<bool>,
    groupAdmin: Option<UserId>,
    name: Option<string>,
    groupPic: Option<string>,
    unreadCounts: seq<CountDraft>)

  /** Mongoose's `required` check on a String: present and not empty. */
  predicate NamePresent(name: Option<string>) {
    name.Some? && name.value != ""
  }

  /** The schema's validity rule: `groupAdmin` and `name` are required
      exactly when `isGroup` holds; nothing else is required. */
  predicate Valid(c: Conversation) {
    c.isGroup ==> c.groupAdmin.Some? && NamePresent(c.name)
  }

  /** Each counter's `count` defaults to 0. */
  function CountsWithDefaults(cs: seq<CountDraft>): (r: seq<UnreadCount>)
    ensures |r| == |cs|
    ensures forall k :: 0 <= k < |cs| ==> r[k].userId == cs[k].userId
    ensures forall k :: 0 <= k < |cs| ==> (cs[k].count.None? ==> r[k].count == 0)
    ensures forall k :: 0 <= k < |cs| ==> (cs[k].count.Some? ==> r[k].count == cs[k].count.value)
  {
    if cs == [] then []
    else [UnreadCount(cs[0].userId, cs[0].count.GetOr(0))] + CountsWithDefaults(cs[1..])
  }

  /** The document the store builds from `d`: `isGroup` defaults to false,
      `latestmessage` to "", `groupPic` to the placeholder and every counter
      to 0; given fields are kept. */
  function WithDefaults(d: Draft, id: ConvId, now: int): (c: Conversation)
    ensures c.id == id && c.updatedAt == now && c.members == d.members
    ensures c.isGroup <==> d.isGroup == Some(true)
    ensures c.latestMessage == (if d.latestMessage.None? then "" else d.latestMessage.value)
    ensures c.groupPic == (if d.groupPic.None? then GroupPicPlaceholder else d.groupPic.value)
    ensures c.groupAdmin == d.groupAdmin && c.name == d.name
    ensures c.unreadCounts == CountsWithDefaults(d.unreadCounts)
  {
    Conversation(id, d.members, d.latestMessage.GetOr(""), d.isGroup.GetOr(false),
                 d.groupAdmin, d.name, d.groupPic.GetOr(GroupPicPlaceholder),
                 CountsWithDefaults(d.unreadCounts), now)
  }

  /** Validation as `Conversation.create` runs it, after the defaults. The
      draft is accepted exactly when it is not a group or names both an admin
      and a non-empty name. */
  function Validate(d: Draft, id: ConvId, now: int): (r: Option<Conversation>)
    ensures r.Some? <==> (d.isGroup == Some(true) ==> d.groupAdmin.Some? && NamePresent(d.name))
    ensures r.Some? ==> r.value == WithDefaults(d, id, now) && Valid(r.value)
  {
    var c := WithDefaults(d, id, now);
    if Valid(c) then Some(c) else None
  }

  /** A group without an admin is rejected, whatever else it holds. */
  lemma GroupNeedsAdmin(d: Draft, id: ConvId, now: int)
    requires d.isGroup == Some(true) && d.groupAdmin.None?
    ensures Validate(d, id, now).None?
  {
  }

  /** A group without a (non-empty) name is rejected, whatever else it holds. */
  lemma GroupNeedsName(d: Draft, id: ConvId, now: int)
    requires d.isGroup == Some(true) && !NamePresent(d.name)
    ensures Validate(d, id, now).None?
  {
  }

  /** A conversation that is not a group (including one that leaves `isGroup`
      out) is accepted with neither a name nor an admin. */
  lemma DirectNeedsNoGroupFields(d: Draft, id: ConvId, now: int)
    requires d.isGroup != Some(true)
    ensures Validate(d, id, now).Some?
    ensures !Validate(d, id, now).value.isGroup
  {
  }
}
