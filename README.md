# Conversations, groups and the group-chat dialog — a Dafny model

This project models three parts of a chat application. All three are
about conversations between users.

- **The conversation handlers** (`backend/Controllers/conversation_controller.js`).
  They find or create one-to-one chats, fetch a chat by id, list a user's
  chats, and create, rename, add to and remove from group chats. They work
  over a document store. Here the store is the class
  `ConversationController.ConversationStore`. It holds a sequence of records
  in insertion order and hands out increasing ids. Each handler is a method
  that returns an HTTP status (`Status.Code()` gives 200/400/404/500) and the
  record it sends, if any. The store's invariant `Valid()` says ids are
  unique. It also states the central rule: for every record, the multiset of
  user ids in `unreadCounts` equals the multiset of `members`. Every mutating
  handler requires and ensures it. `AddToGroup` keeps it through the lemma
  `PushKeepsSync` and `RemoveFromGroup` through `PullKeepsSync`.
  `PushPullRoundTrip` is a separate property of the two updates: adding an
  absent user and then removing them gives back the same record.
- **The Conversation document** (`backend/Models/Conversation.js`). It defines
  the fields and their defaults: `isGroup` false, `latestmessage` (the field `latestMessage` here) "", the
  placeholder `groupPic`, and each counter's `count` 0. It also has a
  conditional rule: `name` and `groupAdmin` are required exactly when
  `isGroup` holds. `WithDefaults` applies the defaults and `Valid` is the
  rule. `Validate` is what `Conversation.create` runs. Mongoose's `required`
  check on a String also rejects the empty string, so `NamePresent` means
  "given and not empty".
- **The group-chat dialog** (`frontend/src/components/miscellaneous/GroupChatModal.js`).
  It computes a *friend projection* from the cached chat list: the other
  participant of every non-group chat. It also covers the search over that
  list, the selection with its duplicate guard and delete-by-id, the submit
  guard and request body, and the broadcast fan-out. The broadcast produces
  one `new-message` payload per friend, returned as a list instead of
  emitted. The component state is the class `GroupChatModal.GroupChatDialog`.

`GroupCreationFlow` connects the dialog and the handler. The dialog already
puts the current user into `members`, and `createGroupChat` appends the
creator again. So a group created through the dialog lists its creator twice,
with two zero counters.

The model follows the code as it behaves, including the cases below. The exceptions are listed under "## Left out".

- **Superset lookup.** The 1:1 lookup uses `$all`. It matches any record whose
  members *include* the requested ids, which can be a group (`LookupMatchesSuperset`).
  It is not an exact match. MongoDB's `$all` with an empty list matches nothing.
- **Found path keeps the caller.** When an existing chat is found, its members
  come back as stored, caller included. The filter there compares a populated
  member document with an id string, so it removes nothing. Only a newly
  created chat comes back without the caller.
- **List answers 404 never.** `getConversationList`'s 404 branch cannot be
  reached: `find` always returns a list. An empty result is a 200 with an
  empty list.
- **Creator appended again.** `createGroupChat` appends the creator even when
  they are already present: `members.push` adds a second copy.
- **No existence checks.** `renameGroup` and `removeFromGroup` on an unknown id
  answer 200 with a `null` body. `addToGroup` on an unknown id dereferences null and
  answers 500. `renameGroup` and `removeFromGroup` do not check `isGroup`.
- **Rename skips validation.** The handlers' updates stamp `updatedAt` with the
  store's clock, because the schema has `timestamps`. `findByIdAndUpdate`
  does not run validators, so renaming a group to "" makes it invalid under
  the schema (`RenameSkipsValidation`).

The store's clock is the `now` parameter of each mutating handler. The
server's answer to the dialog's request is the `response` parameter of
`HandleSubmit`. The authenticated caller is the `caller` parameter or the
dialog's `self`.

## Model

| member | source | states |
|---|---|---|
| `Common.Without` | backend/Controllers/conversation_controller.js:182-183 | `$pull` of a member and the caller filter: the value is gone, every other element is kept, nothing is added |
| `Common.MultisetWithout` | backend/Controllers/conversation_controller.js:182-183 | pulling a value sets its multiplicity to zero and leaves every other multiplicity alone |
| `Common.WithoutAppend` | backend/Controllers/conversation_controller.js:80-84 | the filter keeps order: it distributes over concatenation |
| `Common.WithoutAbsent` | backend/Controllers/conversation_controller.js:179-187 | pulling an absent user changes nothing |
| `JsText.LowerChar` | frontend/src/components/miscellaneous/GroupChatModal.js:62 | ASCII upper-case letters map to their lower-case letters; every other character is unchanged |
| `JsText.Lower` | frontend/src/components/miscellaneous/GroupChatModal.js:62 | `toLowerCase` keeps the length and lower-cases each character |
| `JsText.LowerIdempotent` | frontend/src/components/miscellaneous/GroupChatModal.js:62 | lower-casing twice equals lower-casing once |
| `JsText.LowerIgnoresCase` | frontend/src/components/miscellaneous/GroupChatModal.js:62 | strings that differ only in letter case lower-case to the same string, which makes the name match case-insensitive |
| `JsText.IncludesAt` | frontend/src/components/miscellaneous/GroupChatModal.js:62 | `includes` holds exactly when some window of the string equals the query |
| `JsText.Includes` | frontend/src/components/miscellaneous/GroupChatModal.js:62 | `s.includes(t)`: `t` is a prefix of `s` or of some suffix of `s` |
| `JsText.TrimStart` | frontend/src/components/miscellaneous/GroupChatModal.js:168 | the result is a suffix of the input and does not start with whitespace |
| `JsText.TrimEnd` | frontend/src/components/miscellaneous/GroupChatModal.js:168 | the result is a prefix of the input, does not end with whitespace, and what it drops is all whitespace |
| `JsText.TrimStartDropsBlank` | frontend/src/components/miscellaneous/GroupChatModal.js:168 | everything `TrimStart` drops from the front is whitespace, which together with its contract fixes the result |
| `JsText.IsJsWhitespace` | frontend/src/components/miscellaneous/GroupChatModal.js:168 | the characters `trim` removes: the WhiteSpace and LineTerminator code points of ECMAScript |
| `JsText.Trim` | frontend/src/components/miscellaneous/GroupChatModal.js:168 | `trim()`: leading whitespace dropped, then trailing whitespace dropped |
| `JsText.TrimEmptyIffBlank` | frontend/src/components/miscellaneous/GroupChatModal.js:168 | `trim()` gives "" exactly when the message is empty or all whitespace |
| `ConversationSchema.CountsWithDefaults` | backend/Models/Conversation.js:31-42 | one stored counter per given counter, same user id, `count` 0 when not given and kept when given |
| `ConversationSchema.NamePresent` | backend/Models/Conversation.js:21-26 | Mongoose's `required` check on a String: the value is given and not empty |
| `ConversationSchema.Valid` | backend/Models/Conversation.js:14-26 | a stored record is valid when, if it is a group, it has an admin and a present name; nothing else is required |
| `ConversationSchema.WithDefaults` | backend/Models/Conversation.js:5-42 | `isGroup` defaults to false, `latestmessage` to "", `groupPic` to the placeholder URL and counters to 0; given fields are kept; the id and timestamp are the store's |
| `ConversationSchema.Validate` | backend/Models/Conversation.js:14-26 | a draft is accepted exactly when it is not a group or has both an admin and a non-empty name; an accepted draft is stored with its defaults and is valid |
| `ConversationSchema.GroupNeedsAdmin` | backend/Models/Conversation.js:14-20 | a group without `groupAdmin` is rejected |
| `ConversationSchema.GroupNeedsName` | backend/Models/Conversation.js:21-26 | a group without a non-empty `name` is rejected |
| `ConversationSchema.DirectNeedsNoGroupFields` | backend/Models/Conversation.js:10-26 | a record that is not a group, or leaves `isGroup` out, is accepted with neither name nor admin and is stored as not a group |
| `ConversationController.UserIds` | backend/Models/Conversation.js:31-42 | the ids of the counters, one per counter, in order |
| `ConversationController.Seeded` | backend/Controllers/conversation_controller.js:26-29 | the seeding map: one `{userId, count: 0}` per id, in request order |
| `ConversationController.ZeroCounts` | backend/Controllers/conversation_controller.js:24-30 | a new record's counters: one zero counter per member, in request order, whose ids are the members |
| `ConversationController.CountersInSync` | backend/Controllers/conversation_controller.js:24-30 | the central rule every handler keeps: the multiset of counter user ids equals the multiset of members |
| `ConversationController.InSyncSameLength` | backend/Controllers/conversation_controller.js:157-187 | counters in sync with members are exactly as many as the members |
| `ConversationController.CountsWithout` | backend/Controllers/conversation_controller.js:184 | `$pull` of `{userId}` keeps exactly the counters of other users |
| `ConversationController.UserIdsCountsWithout` | backend/Controllers/conversation_controller.js:182-185 | pulling a user's counters pulls that user from the counters' ids, the same effect as pulling them from `members` |
| `ConversationController.CountsWithoutAppend` | backend/Controllers/conversation_controller.js:184 | pulling counters distributes over concatenation |
| `ConversationController.CountsWithoutAbsent` | backend/Controllers/conversation_controller.js:184 | pulling counters of a user who has none changes nothing |
| `ConversationController.PushMember` | backend/Controllers/conversation_controller.js:157-166 | `$push` of the user onto `members` and of `{userId, count: 0}` onto `unreadCounts`, both at the end |
| `ConversationController.PullMember` | backend/Controllers/conversation_controller.js:179-187 | `$pull` of every occurrence of the user from `members` and of every counter with that `userId` |
| `ConversationController.PushKeepsSync` | backend/Controllers/conversation_controller.js:160-163 | pushing a user and a zero counter keeps the invariant and adds one to the user's multiplicity with no duplicate check |
| `ConversationController.PullKeepsSync` | backend/Controllers/conversation_controller.js:182-185 | pulling a user keeps the invariant and leaves neither the user nor any counter for them |
| `ConversationController.PushPullRoundTrip` | backend/Controllers/conversation_controller.js:157-187 | adding a user who was absent and then removing them restores both lists, so the record is the same again |
| `ConversationController.ContainsAll` | backend/Controllers/conversation_controller.js:14 | `$all`: a non-empty request whose every id is a member; an empty request matches nothing |
| `ConversationController.FirstSuperset` | backend/Controllers/conversation_controller.js:13-15 | `findOne` with `$all`: the first record in store order whose members include every requested id; none for an empty request |
| `ConversationController.LookupIgnoresOrder` | backend/Controllers/conversation_controller.js:13-15 | the lookup depends only on the set of requested ids, not their order or repeats |
| `ConversationController.FirstSupersetAgree` | backend/Controllers/conversation_controller.js:13-15 | two requests that every record matches alike find the same record |
| `ConversationController.LookupMatchesSuperset` | backend/Controllers/conversation_controller.js:14 | a record whose members include all requested ids, a group included, is found, either itself or an earlier match |
| `ConversationController.SecondRequestFindsCreated` | backend/Controllers/conversation_controller.js:13-30 | after a miss created a record, a request for the same ids in any order finds that record |
| `ConversationController.DirectRecord` | backend/Controllers/conversation_controller.js:24-30 | the record `Conversation.create` stores for a 1:1 request: the given members, not a group, no name or admin, the defaults, and one zero counter per member |
| `ConversationController.IndexOfId` | backend/Controllers/conversation_controller.js:151 | `findById`: the position of a record with that id, or none when no record has it |
| `ConversationController.Involving` | backend/Controllers/conversation_controller.js:69-71 | `$in`: exactly the records whose members include the caller |
| `ConversationController.InvolvingAppend` | backend/Controllers/conversation_controller.js:69-71 | the `$in` filter keeps store order and multiplicity: it maps concatenation to concatenation |
| `ConversationController.InvolvingOne` | backend/Controllers/conversation_controller.js:69-71 | a single record is kept exactly when the caller is one of its members |
| `ConversationController.Strip` | backend/Controllers/conversation_controller.js:81-83 | one record with every occurrence of the caller filtered out of its members, all else kept |
| `ConversationController.StripAll` | backend/Controllers/conversation_controller.js:80-84 | each record of the list with the caller filtered out of its members, in order |
| `ConversationController.StripEach` | backend/Controllers/conversation_controller.js:80-84 | the in-place map takes the caller out of every record's members, index by index |
| `ConversationController.StrippedListFacts` | backend/Controllers/conversation_controller.js:69-95 | any rearrangement of the caller's stripped records never names the caller, and is empty exactly when the caller is in no record |
| `ConversationController.NewestFirst` | backend/Controllers/conversation_controller.js:86-88 | the order the sort comparator asks for: `updatedAt` non-increasing along the list |
| `ConversationController.SwapDown` | backend/Controllers/conversation_controller.js:86-88 | exchanging two neighbours changes only those two positions and preserves the multiset |
| `ConversationController.SortNewestFirst` | backend/Controllers/conversation_controller.js:86-88 | the in-place sort leaves the list ordered non-increasing by `updatedAt` and is a permutation |
| `ConversationController.RenameSkipsValidation` | backend/Controllers/conversation_controller.js:134-138 | a valid group stays valid after a rename exactly when the new name is not empty |
| `ConversationController.ConversationStore.Valid` | backend/Controllers/conversation_controller.js:3-196 | the store's invariant every handler requires and keeps: ids are unique and below the next id, and every record's counters are in sync with its members |
| `ConversationController.ConversationStore.Insert` | backend/Controllers/conversation_controller.js:24-30 | `Conversation.create`: a draft that passes validation is stored with defaults under a fresh id; a rejected one changes nothing |
| `ConversationController.ConversationStore.CreateConversation` | backend/Controllers/conversation_controller.js:3-43 | missing members give 400 and no change; a found record is returned as stored, with the caller still in it, and nothing is created; otherwise exactly one non-group record with zero counters is added and returned without the caller |
| `ConversationController.ConversationStore.GetConversation` | backend/Controllers/conversation_controller.js:45-63 | the record with that id and 200, assuming its `populate` succeeds, or 404 with an error body and no record |
| `ConversationController.ConversationStore.GetConversationList` | backend/Controllers/conversation_controller.js:65-95 | always 200; the result is a permutation of the caller's records with the caller removed from each, ordered non-increasing by `updatedAt`, and empty exactly when the caller is in no record |
| `ConversationController.ConversationStore.CreateGroupChat` | backend/Controllers/conversation_controller.js:99-129 | a missing or empty name or missing members give 400 and no change; otherwise the caller is appended to the request's members in place, and one group is stored and returned with that admin and name and a zero counter per member, creator included |
| `ConversationController.ConversationStore.RenameGroup` | backend/Controllers/conversation_controller.js:131-146 | always 200; only `name` (and the timestamp) of the record changes, group or not; an unknown id gives a `null` body and no change |
| `ConversationController.ConversationStore.AddToGroup` | backend/Controllers/conversation_controller.js:148-174 | an unknown id gives 500 and a non-group gives 400, both with no change; a group gets the user and a zero counter appended |
| `ConversationController.ConversationStore.RemoveFromGroup` | backend/Controllers/conversation_controller.js:176-196 | always 200; with no group check, every occurrence of the user and every counter for them is removed; an unknown id gives a `null` body and no change |
| `GroupChatModal.FindOtherIndex` | frontend/src/components/miscellaneous/GroupChatModal.js:49 | `find` stops at the first member that is null or not the current user; every member before it is the current user |
| `GroupChatModal.OtherParticipant` | frontend/src/components/miscellaneous/GroupChatModal.js:49-57 | a chat has a friend exactly when, before any null member, some member is not the current user; the result is the member at the first position that is null or not the current user |
| `GroupChatModal.HasFriend` | frontend/src/components/miscellaneous/GroupChatModal.js:47-57 | a chat yields a friend when it is not a group, `find` returns a person, and that person's `_id` is not empty |
| `GroupChatModal.FriendLinks` | frontend/src/components/miscellaneous/GroupChatModal.js:46-57 | at most one entry per chat, never the current user and never an empty id |
| `GroupChatModal.FriendLinksFromDirectChats` | frontend/src/components/miscellaneous/GroupChatModal.js:46-57 | an entry is in the friend list exactly when some non-group chat of the list has it as its friend and that friend's `_id` is not empty |
| `GroupChatModal.FriendLinksAppend` | frontend/src/components/miscellaneous/GroupChatModal.js:46-57 | the friend list follows chat-list order |
| `GroupChatModal.OneLinkPerDirectChat` | frontend/src/components/miscellaneous/GroupChatModal.js:46-57 | when every chat is direct and has a friend, there is one entry per chat, in chat order |
| `GroupChatModal.PicOrPlaceholder` | frontend/src/components/miscellaneous/GroupChatModal.js:54 | a friend with no or an empty profile picture gets the placeholder URL; otherwise their own |
| `GroupChatModal.ToFriend` | frontend/src/components/miscellaneous/GroupChatModal.js:50-55 | the friend entry of a participant: its id, name and email, and its picture or the placeholder |
| `GroupChatModal.LinkFriends` | frontend/src/components/miscellaneous/GroupChatModal.js:48-56 | one friend entry per link, in order, built from that link's participant |
| `GroupChatModal.Friends` | frontend/src/components/miscellaneous/GroupChatModal.js:46-57 | the friend list has one entry per link and never includes the current user |
| `GroupChatModal.IsSelected` | frontend/src/components/miscellaneous/GroupChatModal.js:63 | `selectedUsers.some(sel => sel._id === id)`: some selected entry has that id |
| `GroupChatModal.NameMatches` | frontend/src/components/miscellaneous/GroupChatModal.js:62 | the friend's name, lower-cased, includes the lower-cased query |
| `GroupChatModal.SearchResult` | frontend/src/components/miscellaneous/GroupChatModal.js:60-67 | exactly the friends not already selected by `_id` whose name, when the query is not empty, contains the query case-insensitively |
| `GroupChatModal.SearchKeepsOrder` | frontend/src/components/miscellaneous/GroupChatModal.js:60-67 | whatever the query, the result keeps friend-list order: the filter maps concatenation to concatenation |
| `GroupChatModal.EmptySearchIsFriendList` | frontend/src/components/miscellaneous/GroupChatModal.js:65-67 | with an empty query and nothing selected the result is the whole friend list |
| `GroupChatModal.WithoutId` | frontend/src/components/miscellaneous/GroupChatModal.js:107 | keeps exactly the selected entries with another `_id` |
| `GroupChatModal.WithoutIdAppend` | frontend/src/components/miscellaneous/GroupChatModal.js:107 | delete keeps the order of the remaining entries |
| `GroupChatModal.SelectedIds` | frontend/src/components/miscellaneous/GroupChatModal.js:132 | the selected users' ids, one per user, in order |
| `GroupChatModal.SubmitRequest` | frontend/src/components/miscellaneous/GroupChatModal.js:111-133 | no request exactly when the name is empty or fewer than 2 users are selected; otherwise the name, the selected ids in order, then the current user's id |
| `GroupChatModal.Fanout` | frontend/src/components/miscellaneous/GroupChatModal.js:194-201 | exactly one payload per friend, in order, with that chat's id, sender the current user, the text, and receiver the friend |
| `GroupChatModal.GroupChatDialog.HandleSearch` | frontend/src/components/miscellaneous/GroupChatModal.js:41-69 | the search result becomes the search over the friend list of the cached chats; the selection and the chat list are untouched |
| `GroupChatModal.GroupChatDialog.HandleGroup` | frontend/src/components/miscellaneous/GroupChatModal.js:91-104 | an already selected user leaves the selection unchanged; otherwise the user is appended at the end |
| `GroupChatModal.GroupChatDialog.HandleDelete` | frontend/src/components/miscellaneous/GroupChatModal.js:106-108 | the selection loses every entry with the user's `_id` |
| `GroupChatModal.GroupChatDialog.HandleSubmit` | frontend/src/components/miscellaneous/GroupChatModal.js:110-165 | the guard sends nothing and changes nothing; on success the new group is prepended to the chat list and the name, selection and search result are reset; on failure nothing changes |
| `GroupChatModal.GroupChatDialog.HandleBroadcast` | frontend/src/components/miscellaneous/GroupChatModal.js:167-225 | a blank message produces no events and no change; otherwise one event per friend of a direct chat, each from the current user to someone else, and the message box is cleared |
| `GroupCreationFlow.DialogGroupListsCreatorTwice` | frontend/src/components/miscellaneous/GroupChatModal.js:132 | with the handler's append (conversation_controller.js line 107), a group made by the dialog lists the creator twice with two zero counters, and exactly twice when the creator was not selected |
| `GroupCreationFlow.CreateFromDialog` | backend/Controllers/conversation_controller.js:103-118 | the dialog's request passes the handler's guard; exactly one record is added to the store under the next id, and it is the returned group, whose members are the selected ids then the creator twice, with zero counters |

## Left out

- Mongoose and MongoDB internals are not modelled: query execution, `populate`, the `password`/`phoneNum` redaction, and the `_id` of counter subdocuments. Members and responses are user ids. ObjectId generation is a counter (`nextId`).
- A malformed id (a cast error answered with 500) and request fields of the wrong JSON type are not modelled. Ids are opaque and fields have their declared types.
- `createdAt` is not modelled. `updatedAt` is the integer `now` each mutating handler receives, and `new Date(...)` parsing is not modelled.
- Authentication (`backend/middleware/fetchUser.js`) and routing (`backend/Routes/conversation_routes.js`) are external. The handlers take the authenticated caller id as a parameter.
- Concurrency is left out: it is a timing issue, not a sequential rule. This covers the check-then-act race that can duplicate a 1:1 chat and interleaved add/remove requests.
- Console logging and the exact error-body texts are left out. Only statuses are kept.
- The dialog's rendering is left out: the JSX, the display cap of four results, toasts, `useDisclosure`/`useEffect`, `onClose`, and the `loading`/`isBroadcasting` flags.
- The dialog's I/O is left out. `fetch` and `localStorage` become the `response` parameter of `HandleSubmit`. The `socket.emit` calls become the returned list of events.
- JsText.Lower: `toLowerCase` is Unicode-aware; the model lower-cases ASCII letters only.
- JsText: a Dafny `char` is a Unicode scalar value, while JavaScript's `includes`, `toLowerCase` and `trim` work on UTF-16 code units. Strings holding a lone surrogate, and matches that split a surrogate pair, are not modelled.
- GroupChatModal.GroupChatDialog.HandleGroup: `includes` compares object identity, and the model compares values. A friend who appears in two direct chats therefore shows up as two equal entries, which the model counts as one already-selected user.
- GroupChatModal.GroupChatDialog.HandleSearch: with a non-empty query, a friend with no `name` makes `toLowerCase` throw, and the dialog then keeps its old results. With an empty query the name is never read. The model gives every person a name.
- ConversationController.ConversationStore.GetConversation: the model assumes the population of `members` succeeds. At conversation_controller.js:47-51 the third argument of `populate` is Mongoose's model parameter, and `"-phoneNum"` names no registered model. The population then most likely fails, and the handler answers 500 for every existing id. Mongoose's behaviour here is not modelled.
- ConversationController.ConversationStore.RenameGroup: the request's `name` is taken as a given string. Mongoose drops an `undefined` field from an update, and that case is not modelled.
- ConversationController.ConversationStore.GetConversationList: does not state that ties keep store order, although `SortNewestFirst` only moves an element past strictly older ones.
