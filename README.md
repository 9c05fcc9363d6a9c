# collabo-app messaging and search core, in Dafny

This project models the messaging layer of collabo-app's FastAPI backend and
proves properties of it. The layer covers:

- the registry of live websockets by user;
- the deliver-or-queue rule of `send_message`;
- the receive-and-send loop of the `/messages/` websocket;
- the `conversations` collection that every message is stored in.

It also models four smaller parts of the backend:

- the friend-request store: duplicate suppression, friendships created on acceptance, and the friend list;
- the query builders of `search_projects` and `search_users`;
- the result clean-up of `search_users`, the field partition of `update_user`, and the `_id` renaming of `get_user_by_id`;
- the truthy-parameter pruning of the two search endpoints.

Python values are modelled as follows:

- Python dicts are insertion-ordered lists of items (`PyValues.Dict`). `d[k] = v` is `Put`, `d.pop(k)` is `Remove`, and `d.get(k)` is `Get`.
- A MongoDB collection is a sequence of documents in natural order.
- `update_one` and `find_one` act on the first document that matches.
- Times, uuid4 values, database-assigned ids and the counts the database reports are parameters.

Modules, one per file:

| file | module | source |
|---|---|---|
| wrappers.dfy | Wrappers | Option / Result / Outcome |
| py_values.dfy | PyValues | Python values, dicts, `str.split(", ")`, MongoDB conditions |
| messages.dfy | Messages | backend/app/models/messages.py |
| conversation_store.dfy | ConversationStore | the `conversations` collection as messaging_service.py uses it |
| messaging_service.dfy | MessagingService | backend/app/services/messaging_service.py |
| message_routes.dfy | MessageRoutes | backend/app/routes/message_routes.py |
| friend_services.dfy | FriendServices | backend/app/services/friend_services.py |
| project_services.dfy | ProjectServices | backend/app/services/project_services.py |
| user_services.dfy | UserServices | backend/app/services/user_services.py |
| search_routes.dfy | SearchRoutes | backend/app/routes/search_routes.py |

Some source code is evidently wrong: a missing argument, a missing `await`, a missing `return`, and a type test on the wrong thing. In those places the main model follows what the surrounding code and its comments describe. The code as written is modelled beside it, and the difference is proved (see "## Findings").

## Model

| member | source | states |
|---|---|---|
| PyValues.Put | backend/app/services/project_services.py:243 | `query[key] = v`: the key then maps to v, no other key changes, an existing key keeps its place and a new key goes last |
| PyValues.Remove | backend/app/services/user_services.py:145 | `pop` removes the key and leaves every other key's value as it was |
| PyValues.Get | backend/app/services/messaging_service.py:82-83 | `message.get(k)` finds a value exactly when the key is present, and that value is one of the dict's items |
| PyValues.Split | backend/app/services/project_services.py:266 | `value.split(', ')` always yields at least one piece |
| PyValues.JoinSplit | backend/app/services/project_services.py:266 | joining the pieces of `split(", ")` with ", " gives back the original string |
| PyValues.SplitPiecesHaveNoSeparator | backend/app/services/user_services.py:119 | no piece of `split(", ")` contains ", " |
| PyValues.InCond | backend/app/services/project_services.py:264-268 | the `$in` condition: a string becomes pieces that join back to it, and anything else (a list) is used as it is |
| PyValues.BuildDictEntry | backend/app/services/project_services.py:241-284 | for a dict with no key twice, the query entry of each key depends on that key's item alone, whatever the order of the items |
| PyValues.UpdateResult | backend/app/services/user_services.py:89-92 | None exactly when no document matched, otherwise the modified count |
| Messages.ValidateCreate | backend/app/models/messages.py:21-35 | MessageCreate accepts exactly the dicts with receiver and text; conversation_id may be null; a missing timestamp takes the import-time default |
| Messages.ToResponse | backend/app/models/messages.py:38-53 | MessageResponse validates exactly when all five fields are present; the status is dropped and every other field is kept |
| Messages.ToResponses | backend/app/models/messages.py:67 | a message list validates only if every message does, and the order is kept |
| Messages.ToConversationResponse | backend/app/models/messages.py:56-68 | a conversation validates when its messages do; the id, creation time and message order are kept, and `users` is not part of the record |
| ConversationStore.FindPair | backend/app/services/messaging_service.py:128-131 | the `$all [sender, receiver]` filter picks the first conversation involving both users, or none if no conversation does |
| ConversationStore.FindPairSymmetric | backend/app/services/messaging_service.py:129 | the pair filter does not depend on who is the sender |
| ConversationStore.PairMessagesSymmetric | backend/app/services/messaging_service.py:129 | the pair's messages are the same whichever of the two users is named first |
| ConversationStore.FindPairUsersOnly | backend/app/services/messaging_service.py:129 | which conversation matches depends only on the users of each conversation |
| ConversationStore.FindPairAppend | backend/app/services/messaging_service.py:129 | appending a conversation never changes an existing match |
| ConversationStore.Store | backend/app/services/messaging_service.py:122-143 | store_message: KeyError for a missing sender or receiver; a message with sender, receiver and timestamp is always stored; other errors only for a missing timestamp when a new conversation is needed |
| ConversationStore.StoreAppendsToPairConversation | backend/app/services/messaging_service.py:128-131 | when the pair has a conversation, the message goes last in it and nothing else changes |
| ConversationStore.StoreInsertsNewConversation | backend/app/services/messaging_service.py:134-143 | otherwise exactly one conversation "conv"+uuid is added for the two users, holding the message, created at its timestamp |
| ConversationStore.StoreIsAppendOnly | backend/app/services/messaging_service.py:122-143 | storing never removes or reorders a conversation or an earlier message |
| ConversationStore.StorePairMessages | backend/app/services/messaging_service.py:122-143 | after storing, the pair's messages are the earlier ones followed by this one |
| ConversationStore.StoreAllKeepsOrder | backend/app/services/messaging_service.py:122-143 | messages between two users are kept in the order they were stored |
| ConversationStore.StoreBetweenStep | backend/app/services/messaging_service.py:122-131 | storing a message between a and b appends it to their messages, whichever of them sent it |
| ConversationStore.Among | backend/app/services/messaging_service.py:128-131 | the messages of a sequence that pass between two given users, and only those |
| ConversationStore.StorePairStep | backend/app/services/messaging_service.py:122-143 | storing one message appends it to a pair's messages when it is between that pair, and leaves them alone otherwise |
| ConversationStore.StoreAllPairOrder | backend/app/services/messaging_service.py:122-143 | after any run of stores, each pair's messages are its earlier ones followed by the stored messages between that pair, in order |
| ConversationStore.StorePreservesWellFormed | backend/app/services/messaging_service.py:128-143 | storing keeps every conversation between two users and at most one per pair |
| ConversationStore.StoreLeavesOtherPairs | backend/app/services/messaging_service.py:128-131 | a message between two users leaves every other pair's messages untouched |
| ConversationStore.TwoUsersFixTheirPair | backend/app/services/messaging_service.py:139 | a two-user conversation involves exactly its own pair |
| ConversationStore.History | backend/app/services/messaging_service.py:171-172 | `find({"users": u})` returns exactly the conversations that u takes part in |
| ConversationStore.StoredMessageInHistory | backend/app/services/messaging_service.py:122-143 | a stored message shows in the history of both its sender and its receiver |
| ConversationStore.Lookup | backend/app/services/messaging_service.py:157-158 | the pair lookup finds a conversation exactly when one involves both users |
| ConversationStore.LookupFindsThePair | backend/app/services/messaging_service.py:157-158 | in a well-formed collection the lookup returns the pair's single conversation, whichever user asks |
| ConversationStore.StoreAsWritten | backend/app/services/messaging_service.py:134-143 | as written: a new conversation needs a message valid as MessageResponse, otherwise ValidationError; it is inserted without users and the message loses its status |
| ConversationStore.AsWrittenLosesOpeningMessage | backend/app/services/messaging_service.py:140 | as written, an opening message (conversation_id null) raises ValidationError; the intended store keeps it |
| ConversationStore.AsWrittenConversationsAreUnreachable | backend/app/services/messaging_service.py:137-143 | as written, conversations have no users: each store adds another conversation and every history stays empty |
| ConversationStore.NoUsersNoHistory | backend/app/services/messaging_service.py:172 | a user in no conversation has an empty history |
| ConversationStore.GetConversationAsWritten | backend/app/services/messaging_service.py:157-158 | as written get_conversation returns None |
| ConversationStore.AsWrittenGetConversationMissesThePair | backend/app/services/messaging_service.py:158 | as written, None is returned even when the pair's conversation exists |
| MessagingService.ReceiveMessage | backend/app/services/messaging_service.py:103-112 | a JSON frame is returned stamped "delivered" at the receive time, other fields untouched; an undecodable frame is a decode error; a closed connection or protocol error surfaces as a disconnect |
| MessagingService.DeliveryStatus | backend/app/services/messaging_service.py:85-90 | "delivered" exactly when the text is non-empty and the receiver has a live socket, otherwise "sent" |
| MessagingService.Stamped | backend/app/services/messaging_service.py:80-90 | the sender is the caller whatever the payload said, the status follows the delivery rule, and every other field is kept |
| MessagingService.Pushes | backend/app/services/messaging_service.py:85-88 | at most one push, exactly when delivered: the text goes to the receiver's current socket |
| MessagingService.StatusMatchesPush | backend/app/services/messaging_service.py:85-91 | a message is stamped "delivered" exactly when its text is pushed |
| MessagingService.Service.constructor | backend/app/services/messaging_service.py:44-46 | no live connections; the model's collection and push log start empty |
| MessagingService.Service.Connect | backend/app/services/messaging_service.py:57-58 | the user now maps to this socket, replacing any earlier one; nothing else changes |
| MessagingService.Service.Disconnect | backend/app/services/messaging_service.py:68 | the user's entry is removed, with no error if absent; nothing else changes |
| MessagingService.Service.StoreMessage | backend/app/services/messaging_service.py:122-143 | the collection becomes Store's result, or stays unchanged with Store's error; the collection stays well formed |
| MessagingService.Service.SendMessage | backend/app/services/messaging_service.py:80-91 | the stamped message is stored; it is pushed after a successful store only when delivered; a failing store pushes nothing |
| MessagingService.Service.GetConversation | backend/app/services/messaging_service.py:157-158 | get_conversation (returning what it looks up) gives a conversation of both users exactly when one exists |
| MessagingService.Service.GetUserConversationHistory | backend/app/services/messaging_service.py:171-172 | exactly the user's conversations |
| MessageRoutes.HandledCount | backend/app/routes/message_routes.py:38-43 | the loop gets through exactly the leading JSON frames that name a receiver |
| MessageRoutes.Docs | backend/app/routes/message_routes.py:40-43 | every handled message is stored with the session's user as sender and its own receiver |
| MessageRoutes.MessagingWebsocket | backend/app/routes/message_routes.py:35-45 | with no "sub" claim nothing changes; otherwise the user is registered and the handled frames are stored and pushed in order; a close unregisters the user, and an uncaught error leaves them registered |
| MessageRoutes.ServeFrames | backend/app/routes/message_routes.py:37-45 | the loop stores and pushes each handled frame in order, and the session end follows from the first frame it cannot handle |
| MessageRoutes.ServeStep | backend/app/routes/message_routes.py:40-43 | a frame without a receiver raises KeyError("receiver_id"); any other frame extends the store and the pushes by its own message |
| MessageRoutes.SessionKeepsOrder | backend/app/routes/message_routes.py:38-43 | a session that writes to a single receiver stores its messages in the order received, after the pair's earlier ones, for any store |
| MessageRoutes.SentTo | backend/app/routes/message_routes.py:38-43 | the messages of a sequence addressed to one receiver, and only those |
| MessageRoutes.AmongIsSentTo | backend/app/routes/message_routes.py:38-43 | of one sender's messages, those between the sender and r are those addressed to r |
| MessageRoutes.SessionKeepsOrderPerReceiver | backend/app/routes/message_routes.py:38-43 | a session that switches receivers stores, for every receiver, exactly the messages sent to it, in the order received, after the pair's earlier ones |
| MessageRoutes.NoPushToOfflineReceivers | backend/app/services/messaging_service.py:85-91 | nothing is pushed for receivers with no live socket |
| MessageRoutes.PushesGoToRegisteredSockets | backend/app/services/messaging_service.py:85-88 | every push carries a non-empty text to the receiver's registered socket |
| MessageRoutes.SessionAsWritten | backend/app/routes/message_routes.py:35-45 | as written: nothing is ever stored, and a user with a "sub" claim stays registered however the session ends |
| MessageRoutes.AsWrittenLosesTheFirstMessage | backend/app/routes/message_routes.py:43 | as written, one message crashes the session with TypeError and is lost; the corrected handler stores it last for the pair |
| MessageRoutes.AsWrittenCloseKeepsRegistration | backend/app/routes/message_routes.py:44-45 | as written, a closed socket leaves the user registered; the corrected handler ends as Closed |
| FriendServices.Canonical | backend/app/services/friend_services.py:70 | `ObjectId(id)` gives a valid id of the same length with no upper-case letter, each digit kept or lowered from A-F |
| FriendServices.CanonicalIdentifies | backend/app/services/friend_services.py:70 | two spellings convert to the same id exactly when they differ only in the case of their letters |
| FriendServices.CanonicalIsCanonical | backend/app/services/friend_services.py:70 | converting an id twice changes nothing |
| FriendServices.FindRequest | backend/app/services/friend_services.py:46 | the lookup finds the first request from this sender to this recipient, or none if there is none |
| FriendServices.IndexOfId | backend/app/services/friend_services.py:70 | the first request with the id, or none if there is none |
| FriendServices.SetStatus | backend/app/services/friend_services.py:99-102 | only the matching request's status changes, to the new status; the count is 1 exactly when something changed |
| FriendServices.FriendsOf | backend/app/services/friend_services.py:117-121 | exactly the friendships the user is part of, as either user |
| FriendServices.FriendServices.constructor | backend/app/services/friend_services.py:29-32 | both collections start empty |
| FriendServices.FriendServices.SendFriendRequest | backend/app/services/friend_services.py:45-53 | a duplicate from the same sender to the same recipient returns None and inserts nothing; otherwise one pending request is inserted and its id returned |
| FriendServices.FriendServices.GetRequestById | backend/app/services/friend_services.py:66-71 | None for a malformed id; otherwise the request with that ObjectId, which is found whenever it exists |
| FriendServices.FriendServices.UpdateFriendRequestStatus | backend/app/services/friend_services.py:86-103 | None and no change for an unknown request; otherwise accepting adds the friendship sender-recipient, the status is set on that request alone, and the modified count (0 when unchanged) is returned |
| FriendServices.FriendServices.GetFriendList | backend/app/services/friend_services.py:117-121 | exactly the user's friendships |
| FriendServices.SetStatusKeepsIds | backend/app/services/friend_services.py:99-102 | a status update keeps every request's id |
| FriendServices.SentRequestIsDuplicate | backend/app/services/friend_services.py:46-48 | once a request is sent, sending the same pair again is a duplicate |
| FriendServices.ReverseIsNotDuplicate | backend/app/services/friend_services.py:46 | the duplicate check is direction-sensitive: a request from t to s is not blocked by one from s to t |
| FriendServices.SentRequestIsFound | backend/app/services/friend_services.py:51-53 | the returned id finds the inserted request |
| FriendServices.UpdatedRequestHasStatus | backend/app/services/friend_services.py:99-102 | the updated request has the new status and all other requests are unchanged |
| FriendServices.SetStatusIdempotent | backend/app/services/friend_services.py:99-103 | setting the same status again modifies nothing |
| FriendServices.IndexOfIdStatusBlind | backend/app/services/friend_services.py:100 | finding by id does not depend on statuses |
| FriendServices.AcceptedPairAreFriends | backend/app/services/friend_services.py:90-97 | after acceptance each user is in the other's friend list |
| FriendServices.UpdateStatusAsWritten | backend/app/services/friend_services.py:86-103 | as written: TypeError when accepting, NameError otherwise, and never a result |
| FriendServices.AsWrittenNeverUpdates | backend/app/services/friend_services.py:86-103 | as written, even an existing request is never updated |
| ProjectServices.ProjectCond | backend/app/services/project_services.py:242-284 | title and location become case-insensitive regexes; deadline and ending use `$lte`; created_at and starting use `$gte`; created_by and type are copied; the list keys use `$in`; any other key gives nothing |
| ProjectServices.SearchProjects | backend/app/services/project_services.py:240-285 | the loop builds the query of ProjectCond item by item |
| ProjectServices.ProjectQueryKeys | backend/app/services/project_services.py:241-284 | the query has an entry exactly for the recognised filter keys |
| ProjectServices.ToolKeysStaySeparate | backend/app/services/project_services.py:280-284 | tools and skills each get their own `$in` of their split string |
| ProjectServices.DeleteResult | backend/app/services/project_services.py:156-158 | delete_project gives a result exactly when one project was deleted, and that result is 1 |
| ProjectServices.UpdateProject | backend/app/services/project_services.py:134-143 | `$set` carries the update with updated_at set to now and every other field unchanged; None when nothing matched, otherwise the modified count |
| ProjectServices.UpdateProjectAsWritten | backend/app/services/project_services.py:135 | as written, `update_one` is read off the un-awaited coroutine: AttributeError, whatever the update |
| ProjectServices.DeleteProjectAsWritten | backend/app/services/project_services.py:156 | as written, `delete_one` is read off the un-awaited coroutine: AttributeError, whatever the id |
| ProjectServices.SearchProjectsAsWritten | backend/app/services/project_services.py:286 | as written, the query is built and then `find` is read off the un-awaited coroutine: AttributeError, whatever the filters |
| ProjectServices.AsWrittenUpdateNeverReports | backend/app/services/project_services.py:135-143 | as written, an update that matches reports nothing, where the awaited call gives the modified count |
| ProjectServices.AsWrittenDeleteNeverReports | backend/app/services/project_services.py:156-158 | as written, deleting an existing project reports nothing, where the awaited call gives 1 |
| ProjectServices.AsWrittenSearchNeverRuns | backend/app/services/project_services.py:240-287 | as written, even a recognised filter never reaches the database, where the awaited call runs the query that holds it |
| UserServices.UserCond | backend/app/services/user_services.py:113-139 | name, location, language and timezone give a case-insensitive regex only when truthy; skills and interests use `$in`; other keys give nothing |
| UserServices.SearchUsers | backend/app/services/user_services.py:108-139 | an empty filter returns without a query; otherwise the loop builds the query of UserCond |
| UserServices.FalsyRegexFiltersAreDropped | backend/app/services/user_services.py:113-139 | a falsy regex filter adds no entry and a truthy one adds its regex |
| UserServices.RenameId | backend/app/services/user_services.py:145 | `_id` moves to `user_id` and every other key is unchanged; KeyError without `_id` |
| UserServices.StripUser | backend/app/services/user_services.py:144-145 | the password is removed (KeyError first if it is missing), then the id is renamed; other fields are kept |
| UserServices.StripUsers | backend/app/services/user_services.py:143-145 | every found user is cleaned up, in order, or the first user that cannot be raises |
| UserServices.FindById | backend/app/services/user_services.py:47 | the first user with that `_id`, or none if there is none |
| UserServices.GetUserById | backend/app/services/user_services.py:47-51 | None exactly for an unknown id; otherwise that user without password or `_id`, with `user_id` set to the id and other fields kept |
| UserServices.PartitionFields | backend/app/services/user_services.py:72-78 | list values go to `$addToSet` and all others to `$set` (corrected partition) |
| UserServices.PartitionIsExact | backend/app/services/user_services.py:72-78 | each set field lands on exactly one side, with its value |
| UserServices.UpdateUser | backend/app/services/user_services.py:70-92 | partitioned update document; None when nothing matched, otherwise the modified count |
| UserServices.PartitionFieldsAsWritten | backend/app/services/user_services.py:72-78 | as written, `$addToSet` stays empty and every field goes to `$set` |
| UserServices.AsWrittenSetsEverything | backend/app/services/user_services.py:74-78 | as written, `$set` is the whole update |
| UserServices.ListFieldGoesToSetAsWritten | backend/app/services/user_services.py:75 | a list field goes to `$set` as written and to `$addToSet` when partitioned by value |
| SearchRoutes.KeepTruthy | backend/app/routes/search_routes.py:78-79 | a parameter is kept exactly when truthy, unchanged |
| SearchRoutes.FilterTruthy | backend/app/routes/search_routes.py:77-79 | the reference filter: exactly the truthy items |
| SearchRoutes.PruneIsFilter | backend/app/routes/search_routes.py:77-79 | the `query.update` loop keeps exactly the truthy parameters, in order |
| SearchRoutes.FilterKeepsKeys | backend/app/routes/search_routes.py:77-79 | pruning adds no key |
| SearchRoutes.PruneParams | backend/app/routes/search_routes.py:140-142 | the loop builds the truthy-parameter dict |
| SearchRoutes.SearchUsers | backend/app/routes/search_routes.py:62-82 | 401 UNAUTHORIZED exactly for a token that does not verify; otherwise the truthy parameters go unchanged to search_users, which returns without a query when none is left |
| SearchRoutes.SearchProjectsAsWritten | backend/app/routes/search_routes.py:123-145 | as written, 401 for a token that does not verify and 500 for every other request, so no project is ever returned |
| SearchRoutes.SearchProjects | backend/app/routes/search_routes.py:123-145 | 401 UNAUTHORIZED exactly for a token that does not verify; otherwise the truthy parameters go unchanged, in the source's order, to search_projects, which builds its query from them |
| SearchRoutes.UserRouteKeys | backend/app/routes/search_routes.py:70-73 | the user search passes only name, skills, interests, location and timezone |
| SearchRoutes.NoUserParamsNoQuery | backend/app/routes/search_routes.py:70-81 | with every parameter at its falsy default the service gets an empty dict |

## Left out

- Websocket transport is not modelled: accept, close, the delivery of `send_json`, and JSON decoding beyond the six message fields. Keys other than the six travel unmodelled.
- Concurrency is not modelled. Each session runs alone against the shared service, so two sessions racing on one pair, or on one user's registry entry, are not captured.
- Whatever the database itself does is left out. This covers query matching and the results of `find(query)` for the searches, and the documents written by update_project and update_user. The counts the database reports and the documents it returns are parameters.
- Ids and times are parameters: uuid4, `datetime.now()`, `insert_one`'s ids, and class-level defaults evaluated at import.
- Token verification is left out; its result is the `Claims` parameter.
- Pydantic validation is not modelled for UserResponse, ProjectResponse, ProjectUpdate and the friend records.
- Messages.ValidateCreate: does not tell a missing key from a null value. The route only annotates the received dict as MessageCreate and never validates it, so the difference reaches the store through `receiver_id` (see below) as well as `conversation_id`.
- ConversationStore.Store: a null `receiver_id` is treated like a missing one, as KeyError. The source raises KeyError only for an absent key; with a null one the intended store inserts a conversation for users [sender, None] and the session goes on.
- ConversationStore.StoreAsWritten: a null `receiver_id` is treated like a missing one, as KeyError. As written, a null one instead reaches `MessageResponse(**message)` and raises ValidationError (messaging_service.py:140).
- MessageRoutes.HandledCount: a frame with a null `receiver_id` counts as unhandled, like one without the key, so the model ends the session there where the source would store the message and go on.
- MessageRoutes.ServeStep: a frame with a null `receiver_id` crashes the step with KeyError, like one without the key; the source would store the message for the pair [sender, None].
- MessageRoutes.ServeFrames: inherits the null `receiver_id` case of ServeStep. It also takes every push as delivered: in the source, `send_json` to a dead socket (one left registered by a crashed session) raises after the message is stored, that error is outside the except tuple at message_routes.py:44, and the sender's session ends. The model records the push and serves the next frame.
- MessageRoutes.MessagingWebsocket: the same two gaps as ServeFrames, a null `receiver_id` taken as missing and every push taken as delivered, so a failed push does not end the session here.
- MessagingService.Service.SendMessage: every push is taken as delivered. In the source a push to a dead socket raises after the store, so the caller sees an error although the message is stored; the model records the push and returns normally.
- MessagingService.Service.SendMessage: the message dict is stamped in place in the source. The model passes it by value, so aliasing between the caller's dict and the stored one is not captured.
- ProjectServices.UpdateProject: the source sets `updated_at` on the caller's ProjectUpdate object. The model returns the resulting `$set` dict instead. It takes the dumped update as given: `model_dump()` is called without `exclude_unset`, so every field the client left unset (projects.py lines 102-110) enters `$set` as None or [] and overwrites the stored value. That dump is not modelled.
- The first `search_projects` (project_services.py lines 160-226) is left out: the second definition rebinds the name, so it never runs.
- The `pass` stubs `submit_friend_request` and `update_friend_request_status` in user_services.py are left out.
- FriendServices.FriendServices.SendFriendRequest: models/friends.py defines no `FriendResponse` and never imports `Literal`, so the module cannot be imported as written. The model stores the request record that the module describes: sender, recipient, status "pending" and an import-time `created_at`.
- ObjectId values stored in documents are compared by their lower-case hex spelling. User and project ids are compared as plain strings, as the source does.
- A message a user sends to themselves matches, through `$all [A, A]`, the first conversation A takes part in. The model keeps this behaviour. These lemmas require two distinct users, so they say nothing about such messages: ConversationStore.StoreLeavesOtherPairs, ConversationStore.StorePairStep, ConversationStore.StoreAllPairOrder, ConversationStore.TwoUsersFixTheirPair, ConversationStore.LookupFindsThePair, MessageRoutes.AmongIsSentTo and MessageRoutes.SessionKeepsOrderPerReceiver (which excludes frames a user addresses to themselves).

## Findings

| source | as written | input that shows it | evidently intended | confidence | as-written member | corrected member |
|---|---|---|---|---|---|---|
| backend/app/routes/message_routes.py:43 | `send_message(message)` omits `user_id`; the TypeError escapes the except clause | any JSON frame | `send_message(message, user_id)` | high; not executed | MessageRoutes.AsWrittenLosesTheFirstMessage | MessageRoutes.MessagingWebsocket |
| backend/app/routes/message_routes.py:45 | `disconnect(...)` is never awaited, so the user stays in `active_connections` | a client that closes its socket | `await messaging_service.disconnect(...)` | high; not executed | MessageRoutes.AsWrittenCloseKeepsRegistration | MessageRoutes.ServeFrames |
| backend/app/services/messaging_service.py:158 | the looked-up conversation is never returned | any pair with a stored conversation | `return conversation` | high; not executed | ConversationStore.AsWrittenGetConversationMissesThePair | MessagingService.Service.GetConversation |
| backend/app/services/messaging_service.py:137-143 | ConversationResponse has no `users` field, so pydantic drops the users and no pair or history query matches again | two messages between the same pair | store the conversation with its users | high; not executed | ConversationStore.AsWrittenConversationsAreUnreachable | ConversationStore.StoredMessageInHistory |
| backend/app/services/messaging_service.py:140 | `MessageResponse(**message)` requires `conversation_id`, which an opening message leaves null | the first message between two users | store the message in the new conversation | high; not executed | ConversationStore.AsWrittenLosesOpeningMessage | ConversationStore.StoreInsertsNewConversation |
| backend/app/services/friend_services.py:86-103 | lookup not awaited, `collection` unbound unless accepting, and `update` used for `updated` | any existing request id with any status | await the lookup, and update the status with `update_one` on the requests collection (not `collection.update`, whose `collection` is the friendships collection and is bound only when accepting), returning `updated.modified_count` | high; not executed | FriendServices.AsWrittenNeverUpdates | FriendServices.FriendServices.UpdateFriendRequestStatus |
| backend/app/services/project_services.py:135 | `self.projects_collection()` is a coroutine (line 43 is `async def`) and is not awaited, so `.update_one` raises AttributeError | any project id and update | `(await self.projects_collection()).update_one(...)` | high; not executed | ProjectServices.AsWrittenUpdateNeverReports | ProjectServices.UpdateProject |
| backend/app/services/project_services.py:156 | the same un-awaited coroutine, so `.delete_one` raises AttributeError | any project id | `(await self.projects_collection()).delete_one(...)` | high; not executed | ProjectServices.AsWrittenDeleteNeverReports | ProjectServices.DeleteResult |
| backend/app/services/project_services.py:286 | the same un-awaited coroutine, so `.find` raises AttributeError after the query is built and the search route answers 500 | any authorized `GET /projects/` | `(await self.projects_collection()).find(query)` | high; not executed | ProjectServices.AsWrittenSearchNeverRuns | SearchRoutes.SearchProjects |
| backend/app/services/user_services.py:75 | `isinstance(key, list)` tests the str key, so no field goes to `$addToSet` | `{"skills": ["go"]}` | `isinstance(value, list)` | medium; not executed | UserServices.ListFieldGoesToSetAsWritten | UserServices.PartitionFields |
