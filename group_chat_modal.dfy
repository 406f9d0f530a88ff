/** The group-chat dialog of the client: the friend list it derives from the
    cached chat list, the search over it, the selection of members, the
    request it sends to create a group, and the broadcast fan-out. */
module GroupChatModal {
  import opened Common
  import opened JsText

  /** The image shown for a friend without one. */
  const ProfilePlaceholder: string := "https://via.placeholder.com/150"

  /** A populated member of a cached chat. */
  datatype Person = Person(id: UserId, name: string, email: string, profilePic: Option<string>)

  /** A chat of the cached chat list; a member may be `null`. */
  datatype Chat = Chat(id: ConvId, isGroup: bool, members: seq<Option<Person>>)

  /** An entry of the friend list and of the selection. */
  datatype Friend = Friend(id: UserId, name: string, email: string, profilePic: string)

  /** A direct chat together with the participant found in it. */
  datatype FriendLink = FriendLink(chatId: ConvId, person: Person)

  /** The payload of one `new-message` emit. */
  datatype Event = NewMessage(conversationId: ConvId, sender: UserId, text: string, receiver: UserId)

  /** The body of `POST /conversation/group`. */
  datatype GroupRequestBody = GroupRequestBody(name: string, members: seq<UserId>)

  // ---------------------------------------------------------------------
  // The friend projection
  // ---------------------------------------------------------------------

  /** The position `members.find(m => m?._id !== self)` stops at: the first
      member that is `null` or not the current user, or `|members|`. */
  function FindOtherIndex(members: seq<Option<Person>>, self: UserId): (r: nat)
    ensures r <= |members|
    ensures forall j :: 0 <= j < r ==> members[j].Some? && members[j].value.id == self
    ensures r < |members| ==> members[r].None? || members[r].value.id != self
  {
    if members == [] then 0
    else if members[0].None? || members[0].value.id != self then 0
    else FindOtherIndex(members[1..], self) + 1
  }

  /** The friend of a chat: the member `find` returns, when it is a person.
      A chat whose `find` yields nothing or `null` has no friend. */
  function OtherParticipant(members: seq<Option<Person>>, self: UserId): (r: Option<Person>)
    ensures r.Some? ==> r.value.id != self
    ensures r.Some? <==> exists k :: 0 <= k < |members| && members[k].Some? && members[k].value.id != self
                                  && forall j :: 0 <= j < k ==> members[j].Some? && members[j].value.id == self
    ensures forall k :: 0 <= k < |members| && (members[k].None? || members[k].value.id != self)
                        && (forall j :: 0 <= j < k ==> members[j].Some? && members[j].value.id == self)
                        ==> r == members[k]
  {
    var k := FindOtherIndex(members, self);
    if k < |members| then members[k] else None
  }

  /** A chat that yields a friend: not a group, and `find` returns a person
      whose `_id` is truthy (not empty). */
  predicate HasFriend(c: Chat, self: UserId) {
    var other := OtherParticipant(c.members, self);
    !c.isGroup && other.Some? && other.value.id != ""
  }

  /** The direct chats of `chats` with a friend, in chat-list order. */
  function FriendLinks(chats: seq<Chat>, self: UserId): (r: seq<FriendLink>)
    ensures |r| <= |chats|
    ensures forall l :: l in r ==> l.person.id != self && l.person.id != ""
  {
    if chats == [] then []
    else if HasFriend(chats[0], self) then
      [FriendLink(chats[0].id, OtherParticipant(chats[0].members, self).value)] + FriendLinks(chats[1..], self)
    else FriendLinks(chats[1..], self)
  }

  /** A link comes from a direct chat of the list and names its participant. */
  lemma {:induction false} FriendLinksFromDirectChats(chats: seq<Chat>, self: UserId)
    ensures forall l :: l in FriendLinks(chats, self) <==>
      exists c :: c in chats && HasFriend(c, self) && c.id == l.chatId && OtherParticipant(c.members, self) == Some(l.person)
  {
    if chats != [] {
      FriendLinksFromDirectChats(chats[1..], self);
      assert forall c :: c in chats <==> c == chats[0] || c in chats[1..];
    }
  }

  /** The projection keeps chat-list order: it maps concatenation to concatenation. */
  lemma {:induction false} FriendLinksAppend(a: seq<Chat>, b: seq<Chat>, self: UserId)
    ensures FriendLinks(a + b, self) == FriendLinks(a, self) + FriendLinks(b, self)
  {
    if a == [] {
      assert a + b == b;
    } else {
      assert (a + b)[1..] == a[1..] + b;
      FriendLinksAppend(a[1..], b, self);
    }
  }

  /** When every chat is direct and has a friend, there is one link per chat, in chat order. */
  lemma {:induction false} OneLinkPerDirectChat(chats: seq<Chat>, self: UserId)
    requires forall k :: 0 <= k < |chats| ==> HasFriend(chats[k], self)
    ensures |FriendLinks(chats, self)| == |chats|
    ensures forall k :: 0 <= k < |chats| ==> FriendLinks(chats, self)[k].chatId == chats[k].id
  {
    if chats != [] {
      OneLinkPerDirectChat(chats[1..], self);
    }
  }

  /** `friend?.profilePic || placeholder`. */
  function PicOrPlaceholder(pic: Option<string>): (r: string)
    ensures pic.None? || pic == Some("") ==> r == ProfilePlaceholder
    ensures pic.Some? && pic.value != "" ==> r == pic.value
  {
    if pic.Some? && pic.value != "" then pic.value else ProfilePlaceholder
  }

  /** The friend-list entry of a participant. */
  function ToFriend(p: Person): Friend {
    Friend(p.id, p.name, p.email, PicOrPlaceholder(p.profilePic))
  }

  /** The entries of a list of links. */
  function LinkFriends(links: seq<FriendLink>): (r: seq<Friend>)
    ensures |r| == |links|
    ensures forall k :: 0 <= k < |links| ==> r[k] == ToFriend(links[k].person)
  {
    if links == [] then [] else [ToFriend(links[0].person)] + LinkFriends(links[1..])
  }

  /** The friend list of `handleSearch`. */
  function Friends(chats: seq<Chat>, self: UserId): (r: seq<Friend>)
    ensures |r| == |FriendLinks(chats, self)|
    ensures forall f :: f in r ==> f.id != self
  {
    LinkFriends(FriendLinks(chats, self))
  }

  // ---------------------------------------------------------------------
  // Search and selection
  // ---------------------------------------------------------------------

  /** `selected.some(sel => sel._id === id)`. */
  predicate IsSelected(selected: seq<Friend>, id: UserId) {
    exists s :: s in selected && s.id == id
  }

  /** The case-insensitive name test of a non-empty query. */
  predicate NameMatches(f: Friend, query: string) {
    Includes(Lower(f.name), Lower(query))
  }

  /** The filter of `handleSearch`: with a non-empty query, names that
      contain it; in every case, friends not selected yet. */
  function SearchResult(friends: seq<Friend>, selected: seq<Friend>, query: string): (r: seq<Friend>)
    ensures |r| <= |friends|
    ensures forall f :: f in r <==>
      f in friends && !IsSelected(selected, f.id) && (query != "" ==> NameMatches(f, query))
  {
    if friends == [] then []
    else
      var f := friends[0];
      var keep := (query != "" ==> NameMatches(f, query)) && !IsSelected(selected, f.id);
      if keep then [f] + SearchResult(friends[1..], selected, query)
      else SearchResult(friends[1..], selected, query)
  }

  /** Whatever the query, the search keeps friend-list order: it maps
      concatenation to concatenation. */
  lemma {:induction false} SearchKeepsOrder(a: seq<Friend>, b: seq<Friend>, selected: seq<Friend>, query: string)
    ensures SearchResult(a + b, selected, query) == SearchResult(a, selected, query) + SearchResult(b, selected, query)
  {
    if a == [] {
      assert a + b == b;
    } else {
      assert (a + b)[1..] == a[1..] + b;
      SearchKeepsOrder(a[1..], b, selected, query);
    }
  }

  /** With nothing selected and an empty query, every friend is offered, in order. */
  lemma {:induction false} EmptySearchIsFriendList(friends: seq<Friend>)
    ensures SearchResult(friends, [], "") == friends
  {
    if friends != [] {
      EmptySearchIsFriendList(friends[1..]);
    }
  }

  /** `selected.filter(sel => sel._id !== id)`. */
  function WithoutId(selected: seq<Friend>, id: UserId): (r: seq<Friend>)
    ensures |r| <= |selected|
    ensures forall f :: f in r <==> f in selected && f.id != id
  {
    if selected == [] then []
    else if selected[0].id == id then WithoutId(selected[1..], id)
    else [selected[0]] + WithoutId(selected[1..], id)
  }

  /** `WithoutId` keeps the order of the entries it keeps. */
  lemma {:induction false} WithoutIdAppend(a: seq<Friend>, b: seq<Friend>, id: UserId)
    ensures WithoutId(a + b, id) == WithoutId(a, id) + WithoutId(b, id)
  {
    if a == [] {
      assert a + b == b;
    } else {
      assert (a + b)[1..] == a[1..] + b;
      WithoutIdAppend(a[1..], b, id);
    }
  }

  /** The ids of the selection, in order. */
  function SelectedIds(selected: seq<Friend>): (r: seq<UserId>)
    ensures |r| == |selected|
    ensures forall k :: 0 <= k < |selected| ==> r[k] == selected[k].id
  {
    if selected == [] then [] else [selected[0].id] + SelectedIds(selected[1..])
  }

  /** The request `handleSubmit` sends: none without a name or with fewer than
      two selected users; otherwise the name and the selected ids followed by
      the current user's id. */
  function SubmitRequest(name: string, selected: seq<Friend>, self: UserId): (r: Option<GroupRequestBody>)
    ensures r.None? <==> name == "" || |selected| < 2
    ensures r.Some? ==> r.value.name == name
    ensures r.Some? ==> |r.value.members| == |selected| + 1 && r.value.members[|selected|] == self
    ensures r.Some? ==> forall k :: 0 <= k < |selected| ==> r.value.members[k] == selected[k].id
  {
    if name == "" || |selected| < 2 then None
    else Some(GroupRequestBody(name, SelectedIds(selected) + [self]))
  }

  // ---------------------------------------------------------------------
  // Broadcast
  // ---------------------------------------------------------------------

  /** `friends.forEach(friend => socket.emit("new-message", …))`, collecting
      the payloads instead of emitting them. */
  method Fanout(links: seq<FriendLink>, self: UserId, text: string) returns (events: seq<Event>)
    ensures |events| == |links|
    ensures forall k :: 0 <= k < |links| ==>
      events[k] == NewMessage(links[k].chatId, self, text, links[k].person.id)
  {
    events := [];
    var i := 0;
    while i < |links|
      invariant 0 <= i <= |links|
      invariant |events| == i
      invariant forall k :: 0 <= k < i ==> events[k] == NewMessage(links[k].chatId, self, text, links[k].person.id)
    {
      events := events + [NewMessage(links[i].chatId, self, text, links[i].person.id)];
      i := i + 1;
    }
  }

  // ---------------------------------------------------------------------
  // The dialog's state
  // ---------------------------------------------------------------------

  /** The dialog's component state, with the context it reads. */
  class GroupChatDialog {
    /** `user._id` of the chat context. */
    const self: UserId
    /** `myChatList` of the chat context. */
    var myChatList: seq<Chat>
    var groupChatName: string
    var selectedUsers: seq<Friend>
    var search: string
    var searchResult: seq<Friend>
    var broadcastMessage: string

    constructor (self: UserId, chats: seq<Chat>)
      ensures this.self == self && myChatList == chats
      ensures groupChatName == "" && selectedUsers == [] && search == ""
      ensures searchResult == [] && broadcastMessage == ""
    {
      this.self := self;
      myChatList := chats;
      groupChatName := "";
      selectedUsers := [];
      search := "";
      searchResult := [];
      broadcastMessage := "";
    }

    /** `handleSearch(query)`. */
    method HandleSearch(query: string)
      modifies this
      ensures search == query
      ensures searchResult == SearchResult(Friends(myChatList, self), selectedUsers, query)
      ensures myChatList == old(myChatList) && selectedUsers == old(selectedUsers)
      ensures groupChatName == old(groupChatName) && broadcastMessage == old(broadcastMessage)
    {
      search := query;
      var friends := Friends(myChatList, self);
      searchResult := SearchResult(friends, selectedUsers, query);
    }

    /** `handleGroup(user)`: append unless already selected. */
    method HandleGroup(user: Friend)
      modifies this
      ensures selectedUsers == if user in old(selectedUsers) then old(selectedUsers) else old(selectedUsers) + [user]
      ensures myChatList == old(myChatList) && searchResult == old(searchResult) && search == old(search)
      ensures groupChatName == old(groupChatName) && broadcastMessage == old(broadcastMessage)
    {
      if user in selectedUsers {
        return;
      }
      selectedUsers := selectedUsers + [user];
    }

    /** `handleDelete(user)`: drop every selected entry with the user's id. */
    method HandleDelete(user: Friend)
      modifies this
      ensures selectedUsers == WithoutId(old(selectedUsers), user.id)
      ensures myChatList == old(myChatList) && searchResult == old(searchResult) && search == old(search)
      ensures groupChatName == old(groupChatName) && broadcastMessage == old(broadcastMessage)
    {
      selectedUsers := WithoutId(selectedUsers, user.id);
    }

    /** `handleSubmit()`. The server's answer is the parameter `response`
        (`None` when the request fails). Returns the request it sends. */
    method HandleSubmit(response: Option<Chat>) returns (request: Option<GroupRequestBody>)
      modifies this
      ensures request == SubmitRequest(old(groupChatName), old(selectedUsers), self)
      ensures request.None? || response.None? ==>
        && myChatList == old(myChatList) && groupChatName == old(groupChatName)
        && selectedUsers == old(selectedUsers) && searchResult == old(searchResult)
      ensures request.Some? && response.Some? ==>
        && myChatList == [response.value] + old(myChatList)
        && groupChatName == "" && selectedUsers == [] && searchResult == []
      ensures search == old(search) && broadcastMessage == old(broadcastMessage)
    {
      request := SubmitRequest(groupChatName, selectedUsers, self);
      if request.None? || response.None? {
        return;
      }
      myChatList := [response.value] + myChatList;
      groupChatName := "";
      selectedUsers := [];
      searchResult := [];
    }

    /** `handleBroadcast()`: nothing for a blank message; otherwise one event
        per friend, and the message box is cleared. */
    method HandleBroadcast() returns (events: seq<Event>)
      modifies this
      ensures IsBlank(old(broadcastMessage)) ==> events == [] && broadcastMessage == old(broadcastMessage)
      ensures !IsBlank(old(broadcastMessage)) ==>
        var links := FriendLinks(old(myChatList), self);
        && |events| == |links| && broadcastMessage == ""
        && forall k :: 0 <= k < |links| ==>
             events[k] == NewMessage(links[k].chatId, self, old(broadcastMessage), links[k].person.id)
      ensures forall e :: e in events ==> e.sender == self && e.receiver != self
      ensures myChatList == old(myChatList) && selectedUsers == old(selectedUsers)
      ensures searchResult == old(searchResult) && groupChatName == old(groupChatName) && search == old(search)
    {
      TrimEmptyIffBlank(broadcastMessage);
      if Trim(broadcastMessage) == "" {
        return [];
      }
      var links := FriendLinks(myChatList, self);
      events := Fanout(links, self, broadcastMessage);
      broadcastMessage := "";
      forall e | e in events ensures e.sender == self && e.receiver != self {
        var k :| 0 <= k < |events| && events[k] == e;
        assert links[k] in links;
      }
    }
  }
}
