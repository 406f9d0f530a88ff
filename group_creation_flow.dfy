/** Creating a group from the dialog: the dialog already lists the current
    user among the members it sends, and the handler appends the creator
    again, so the stored group lists its creator twice. */
module GroupCreationFlow {
  import opened Common
  import opened ConversationSchema
  import opened ConversationController
  import opened GroupChatModal

  /** The members the handler stores for a request built by the dialog: the
      selected ids, then the creator twice, each with a zero counter. */
  lemma DialogGroupListsCreatorTwice(name: string, selected: seq<Friend>, self: UserId)
    requires SubmitRequest(name, selected, self).Some?
    ensures var ms := SubmitRequest(name, selected, self).value.members + [self];
      && ms == SelectedIds(selected) + [self, self]
      && multiset(ms)[self] >= 2
      && ZeroCounts(ms)[|ms| - 2] == UnreadCount(self, 0)
      && ZeroCounts(ms)[|ms| - 1] == UnreadCount(self, 0)
    ensures self !in SelectedIds(selected) ==>
      multiset(SubmitRequest(name, selected, self).value.members + [self])[self] == 2
  {
    var ids := SelectedIds(selected);
    var ms := SubmitRequest(name, selected, self).value.members + [self];
    assert SubmitRequest(name, selected, self).value.members == ids + [self];
    assert ms == ids + [self, self];
    assert multiset(ms) == multiset(ids) + multiset([self, self]);
  }

  /** The dialog's request handed to the group handler. */
  method CreateFromDialog(store: ConversationStore, name: string, selected: seq<Friend>, self: UserId, now: int)
    returns (status: Status, body: Option<Conversation>)
    requires store.Valid()
    requires SubmitRequest(name, selected, self).Some?
    modifies store
    ensures store.Valid()
    ensures status == Ok && body.Some?
    ensures body.value.isGroup && body.value.groupAdmin == Some(self) && body.value.name == Some(name)
    ensures body.value.members == SelectedIds(selected) + [self, self]
    ensures body.value.unreadCounts == ZeroCounts(SelectedIds(selected) + [self, self])
    ensures body.value.id == old(store.nextId)
    ensures store.records == old(store.records) + [body.value] && store.nextId == old(store.nextId) + 1
  {
    var request := SubmitRequest(name, selected, self).value;
    var req := new GroupRequest(Some(request.name), Some(request.members));
    DialogGroupListsCreatorTwice(name, selected, self);
    status, body := store.CreateGroupChat(self, req, now);
  }
}
