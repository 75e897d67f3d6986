# Live-chat room merge

This is a Dafny model of the live-chat room methods in
`packages/reisebuddy-livechat/server/methods/mergeRooms.js`. It covers three pieces:

- **`getLiveRoomFromId`** is the guarded room lookup. It refuses a caller without a current user or without the `view-l-room` permission, then fails not-found for an unknown room id.
- **`livechat:getPreviousRoom`** returns the newest room of the same visitor that is not open. The lookup accepts rooms of every kind, so a room without a visitor makes the query throw a TypeError.
- **`livechat:mergeRooms`** merges a closing room into a target room. It derives the subscription settings, re-points the closing room's messages, and bumps the target's message counter. It deletes the closing room with its subscriptions, inquiries and external-message records. It reopens the target and clears its closure annotations, writes the settings onto the target's subscriptions, and opens the requester's subscription.

Three things are passed in as parameters instead of being read from the environment:

- the current user id, as an `Option` (none when nobody is logged in);
- the permission check, as a function `(UserId, string) -> bool`;
- the current time, as an integer.

Layout:

- `types.dfy` (`LivechatTypes`): the entities. Rooms (whose visitor is optional, since only live-chat rooms have one), messages, subscriptions keyed by (room, user), and the inquiry and external-message collections, each record holding its room id. `StoreState` holds all of them as one value.
- `lookup.dfy` (`RoomLookup`): the guarded lookup and the specification of the previous-room query.
- `merge.dfy` (`RoomMerge`): the settings derivation and one function per store call the merge makes. `MergeStore` is the whole mutation sequence and `Merge` adds the guards. The lemmas state what a merge guarantees.
- `store.dfy` (`LivechatStore`): a `Store` class holding the collections as mutable fields. `GetPreviousRoom` scans the rooms and changes nothing. `MergeRooms` updates the fields in place, call by call, and is proved to end in the state `Merge` describes.
- `finding.dfy` (`SettingsFinding`): the settings write as written (see Findings).

The model follows the code, and the merge method's doc comment (mergeRooms.js:33-37) where the code says less. Points a reader might expect otherwise:

- The previous-room query does not exclude the room it started from. It filters only on the visitor and on `open` not being true. A room that is no longer open can therefore be returned as its own previous room (`RoomLookup.CurrentRoomIsItsOwnPrevious`).
- The query sorts on the room's creation timestamp `ts`, not on a last-activity time.
- Both methods check only `view-l-room`. No separate write permission guards the merge.
- Nothing requires the two merged rooms to differ, or to belong to the same visitor. Merging a room into itself deletes it and leaves its messages orphaned (`RoomMerge.SelfMergeOrphansMessages`).
- The check that both rooms exist, after the two lookups, can never fire, because each lookup already throws. `Merge` has no branch for it.
- One exception: the settings write at mergeRooms.js:90-93 is modelled as the all-subscriptions write its room-id filter evidently intends, not as the single-document update it is as written (see Findings and Left out).

## Model

| member | source | states |
|---|---|---|
| RoomLookup.GetLiveRoomFromId | packages/reisebuddy-livechat/server/methods/mergeRooms.js:5-14 | No user, an empty user id or a missing `view-l-room` permission gives not-authorized whatever the store holds. Otherwise an unknown id gives not-found, and a known id gives exactly the stored room. |
| RoomLookup.CurrentRoomIsItsOwnPrevious | packages/reisebuddy-livechat/server/methods/mergeRooms.js:24-27 | A visitor's only room, once not open, is its own previous room, and the only answer the query can give. |
| LivechatStore.Store.GetPreviousRoom | packages/reisebuddy-livechat/server/methods/mergeRooms.js:22-31 | Authorization is checked first, then the current room must exist. A current room without a visitor gives a TypeError. A result is a stored room of the same visitor that is not open and has the greatest `ts` of all such rooms. Not-found means no such room exists. The store is not modified. |
| RoomMerge.SubscriptionOf | packages/reisebuddy-livechat/server/methods/mergeRooms.js:48 | Finds the requester's subscription on a room exactly when one exists. |
| RoomMerge.DeriveSettings | packages/reisebuddy-livechat/server/methods/mergeRooms.js:46-63 | `answered` is true only when the old subscription exists and was answered. Each activity time is present only when the old subscription has it, and then is equal to it. `rbInfo` is the closing room's, absent when it has none. |
| RoomMerge.ApplySettings | packages/reisebuddy-livechat/server/methods/mergeRooms.js:90-93 | `$set` of the settings on one subscription. `answered` is overwritten. Each optional field is overwritten only when the settings carry it and is kept otherwise. `open` is untouched. |
| RoomMerge.UpdateAllRoomIds | packages/reisebuddy-livechat/server/methods/mergeRooms.js:65 | The same message ids. Each message of `from` now names `to`, every other keeps its room, and no other field changes. |
| RoomMerge.IncMsgCountAndSetLastMessage | packages/reisebuddy-livechat/server/methods/mergeRooms.js:66 | The room's counter grows by `n` and its last-message time becomes `now`, with nothing else changed. Other rooms are unchanged and an unknown id matches nothing. |
| RoomMerge.RemoveSubscriptionsByRoom | packages/reisebuddy-livechat/server/methods/mergeRooms.js:68 | Exactly the subscriptions of the room are removed. The rest are kept unchanged. |
| RoomMerge.RemoveByRoom | packages/reisebuddy-livechat/server/methods/mergeRooms.js:70-71 | Exactly the inquiry or external-message records of the room are removed. The rest are kept unchanged. |
| RoomMerge.ReopenRoom | packages/reisebuddy-livechat/server/methods/mergeRooms.js:85-88 | The room is open with no comment and no duration, its other fields are kept, and other rooms are unchanged. An unknown id matches nothing. |
| RoomMerge.SetSettingsByRoom | packages/reisebuddy-livechat/server/methods/mergeRooms.js:90-93 | The all-subscriptions settings write. Every subscription of the room gets the settings' `answered`, each optional field the settings carry, and keeps its `open`. Other subscriptions are unchanged and none are added or removed. |
| RoomMerge.OpenSubscription | packages/reisebuddy-livechat/server/methods/mergeRooms.js:95 | The requester's subscription on the room, if there is one, is open and otherwise unchanged. Every other subscription is unchanged. |
| RoomMerge.MergeStore | packages/reisebuddy-livechat/server/methods/mergeRooms.js:46-95 | After the mutation sequence, the closing room is gone and every other room is kept. The message ids are the same and no message names the closing room, unless both ids are the same. For distinct ids the target is open. No subscription of the closing room remains. |
| RoomMerge.Merge | packages/reisebuddy-livechat/server/methods/mergeRooms.js:38-44 | Not-authorized when the requester is refused, not-found when either room is missing, and otherwise the store after the mutation sequence. |
| RoomMerge.MergeConservesMessages | packages/reisebuddy-livechat/server/methods/mergeRooms.js:64-65 | The same message ids before and after. Each message of the closing room now has the target's id and is otherwise unchanged. Every other message is untouched. |
| RoomMerge.MergeMovesVisibleMessages | packages/reisebuddy-livechat/server/methods/mergeRooms.js:64-65 | For distinct rooms, the target's visible messages afterwards are its own plus the closing room's, their counts add up, and the closing id owns none. |
| RoomMerge.MergeBumpsCounter | packages/reisebuddy-livechat/server/methods/mergeRooms.js:64-66 | The target's `msgCount` grows by exactly the closing room's visible-message count taken before the move. Its last-message time becomes the supplied time. |
| RoomMerge.MergeKeepsCounterAccurate | packages/reisebuddy-livechat/server/methods/mergeRooms.js:64-66 | If both counters equalled their rooms' visible-message counts before, the target's counter equals its visible-message count after. |
| RoomMerge.MergeRetiresClosedRoom | packages/reisebuddy-livechat/server/methods/mergeRooms.js:68-71 | No room, subscription, inquiry or external-message record refers to the closing id afterwards. Every other room and every subscription of another room survives, possibly rewritten when it belongs to the target. Inquiry and external-message records of other rooms survive unchanged. |
| RoomMerge.MergeReopensTarget | packages/reisebuddy-livechat/server/methods/mergeRooms.js:85-88 | For distinct rooms, the target is open with no comment and no duration, whatever its prior state. Its visitor, `ts` and `rbInfo` are kept. |
| RoomMerge.MergeAppliesSettings | packages/reisebuddy-livechat/server/methods/mergeRooms.js:46-95 | For distinct rooms, every subscription of the target survives and carries the settings by the precedence rules: `answered` only if the requester's old subscription had it, activity times from that subscription when present, and the closing room's `rbInfo` when present. The requester's subscription is open and the other subscriptions keep their open flag. |
| RoomMerge.MergeLeavesOtherRoomsAlone | packages/reisebuddy-livechat/server/methods/mergeRooms.js:65-95 | Rooms and subscriptions of every third room are unchanged. The subscriptions afterwards are exactly those not of the closing room. |
| RoomMerge.SecondMergeFails | packages/reisebuddy-livechat/server/methods/mergeRooms.js:38-71 | Repeating a successful merge with the same arguments fails with not-found. |
| RoomMerge.SelfMergeOrphansMessages | packages/reisebuddy-livechat/server/methods/mergeRooms.js:38-95 | Merging a room into itself deletes the room and its subscriptions and leaves every message as it was. Those messages then name a room that no longer exists. |
| RoomMerge.MergeKeepsOneOpenRoom | packages/reisebuddy-livechat/server/methods/mergeRooms.js:85-88 | "At most one open room per visitor" still holds after the merge when the target's visitor had no open room other than the two merged ones. |
| RoomMerge.MergeCanBreakOneOpenRoom | packages/reisebuddy-livechat/server/methods/mergeRooms.js:85-88 | The reopen is unconditional. A store that keeps the invariant, where the target's visitor has a third room open, breaks it after the merge. |
| LivechatStore.Store.MergeRooms | packages/reisebuddy-livechat/server/methods/mergeRooms.js:38-96 | On a failed lookup it returns that error and the store is unchanged. Otherwise the fields end as `Merge` describes. In particular the closing room is gone and the message ids are the same. For distinct rooms the target is open and its counter grew by the moved visible count. |
| SettingsFinding.SetSettingsOnFirstMatch | packages/reisebuddy-livechat/server/methods/mergeRooms.js:90-93 | As written, the settings update writes only the subscription the store matches first, which is one of the room's subscriptions when it has any. Every other subscription, of the target too, is unchanged. |
| SettingsFinding.SingleUpdateLeavesSecondAgentStale | packages/reisebuddy-livechat/server/methods/mergeRooms.js:90-93 | When two agents are subscribed to the target, the as-written update leaves one of them with a stale `answered`, whichever is matched first. The intended update writes both. |
| SettingsFinding.FirstMatchAgreesForSingleSubscriber | packages/reisebuddy-livechat/server/methods/mergeRooms.js:90-93 | When the matched subscription is the room's only one, the as-written and the intended write give the same subscriptions. The two differ only for rooms with two or more subscriptions. |

## Findings

| source | as written | input that shows it | evidently intended | confidence | as-written member | corrected member |
|---|---|---|---|---|---|---|
| packages/reisebuddy-livechat/server/methods/mergeRooms.js:90-93 | `Subscriptions.update({rid: newRoomId}, {$set: settings})` passes no multi-document option, so the collection's default update writes only the first matching subscription | a target room with subscriptions of two agents, both `answered: true`, and no requester subscription on the closing room, so the settings carry `answered: false` | the settings are written onto every subscription of the target, which matches the filter on the room id alone and the method's doc comment "attaches subscriptions to newRoom" | medium, not executed; it depends on the persistence layer's update defaulting to a single document, and that layer is not part of this model | SettingsFinding.SetSettingsOnFirstMatch, SettingsFinding.SingleUpdateLeavesSecondAgentStale | RoomMerge.SetSettingsByRoom, SettingsFinding.FirstMatchAgreesForSingleSubscriber |

## Left out

- RoomMerge.MergeStore: the settings step is the corrected all-subscriptions write (`SetSettingsByRoom`), not the single-document update of mergeRooms.js:90-93 as written. `RoomMerge.Merge`, `RoomMerge.MergeAppliesSettings` and `LivechatStore.Store.MergeRooms` inherit this. For a target with two or more subscriptions, the model's settings write is therefore stronger than the source's. `SettingsFinding.FirstMatchAgreesForSingleSubscriber` shows the two agree for a target with a single subscription.

- The knowledge-adapter notification deferred at mergeRooms.js:74-83 is left out. It is a fire-and-forget call into a foreign adapter that swallows its own errors. That adapter is not part of this model, so whatever it does to the store is not modelled; only the method's own transition is.
- Concurrency, per-room locking and rollback are left out. The source has none, and the model runs each method as one sequential step.
- Dates are integers supplied by the caller. No date arithmetic is modelled.
- The persistence layer's query methods (`findVisibleByRoomId`, `updateAllRoomIds`, `removeByRoomId`, `openByRoomIdAndUserId`, and the others) are not part of this model. Each is modelled by what its name and call site say: for example, "visible" is a flag on the message, and `updateAllRoomIds` rewrites every matching message.
- Fields of rooms, messages and subscriptions that the merge neither reads nor writes are not modelled.
- `reisebuddyIncommingApi.js` is left out: the inbound webhook route. It consists of HTTP plumbing, calls into foreign service objects, random ids, and guest registration and message sending inside the framework.
- `rocketchat-reactions/client/init.js` and `rocketchat-livechat/client/views/app/livechatCurrentChats.js` are left out. They hold client-side template helpers and event handlers.
- LivechatStore.Store.GetPreviousRoom: the order among rooms with equal `ts` is unspecified. Any one of them may be returned, so no particular tie-break is stated.
