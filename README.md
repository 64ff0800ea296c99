# Curb: a model of the NEAR messaging contract

`Curb` is a NEAR smart contract for group and one-to-one messaging. Accounts
join the contract. The first account to join creates the public channel
"general". Members create, join, leave and invite others to channels, and they
send messages to a channel, to a two-party chat, or to the thread of an
earlier message. The contract also records how far each reader has read in
each conversation, and reactions, which are labels toggled on message ids.
Queries return pages of decorated messages, unread counts, a member's
channels and a channel's metadata.

The model has one module per concern:

- `Types`: the integer widths (`u64`, and `usize` at 32 bits for the wasm
  target), the records, the error kinds and `Outcome`/`Result`.
- `Ordering`: Rust string order, the derived `Ord` of `Message`, and
  `order_accounts`, the canonical key of a chat.
- `MessageIds`: `get_message_id`. It builds the byte string that is digested
  (UTF-8 target, sender and text, then the big-endian timestamp) and renders
  the digest as lower-case hex. SHA-256 itself is a function parameter.
- `MessageLog`: every log (channel, chat or thread) is kept sorted by
  inserting at the `binary_search` position, checked against a reference
  insertion. This module also holds `find_message_pos`, `find_last_seen_pos`
  and the unread count.
- `Reactions`: the reaction index and `toggle_reaction`'s flip.
- `Membership`: the two mirrored membership maps (`channel_members` and
  `member_channels`) and their joint updates.
- `Contract`: the class `Curb`. Its fields are the contract's persistent
  maps, and its methods are the entry points. Every method checks each
  `require!` and each panic of the source, in source order, before changing
  anything. A failed call returns `Fail(kind)` with the state unchanged, as
  the host rolls back a panicking call. A successful call returns `Pass`
  together with its new state. Every entry point preserves `Valid()`:
  - channels and member sets have the same keys;
  - the two membership views mirror each other;
  - only registered accounts have a view;
  - channels are public and chats private;
  - chats sit under canonical keys;
  - every log is sorted.
  The caller and the block time are parameters.
- `Scenarios`: short call sequences on a fresh contract.

Behaviours of the source that the model keeps:

- `toggle_reaction` registers its caller as a member whether or not that
  caller ever joined, and so does `ping`. When this happens before the first
  `join`, "general" is never created, and every later `join` fails with
  "Group does not exist" (`Scenarios.ReactionBeforeFirstJoin`).
  `group_invite` cannot do the same: before the first `join` there is no
  channel, so it fails and its registration is rolled back
  (`Scenarios.InviteBeforeFirstJoin`).
- An account registered this way has no channel view, because only `join`
  creates one. It can never enter a channel afterwards: `join` fails with
  "Already a member", and `join_group`, `create_group` and an invitation all
  panic when they look up its channel view (`Scenarios.ReactorLockedOut`).
- `get_messages` without a `length` ends the slice at `len - start`, not at
  `len`. A page that starts at a positive offset therefore drops the last
  `start` messages. It panics once `start > len - start`.
- `unread_messages` computes `len - find_last_seen_pos` in `usize`. That
  subtraction traps when a reader's cursor sits on an empty log. This can
  happen because `read_message` accepts any id, even in an empty channel.
- `find_message_pos` returns 0 for an id it cannot find. A stale cursor
  therefore counts as "the first message was read".
- The message id concatenates its fields with no separator. Moving
  characters from the front of the sender to the end of the target gives the
  same id.
- `send_message` ends with a call to `read_message` on the conversation it
  posted to. The model gives that call's effect directly: the sender's
  cursor moves to the new message. That call's own checks always pass at
  that point. A reply to a thread moves no cursor.

## Model

| member | source | states |
|---|---|---|
| Ordering.StrTrichotomy | Contract/src/lib.rs:190 | `StrLess`, the `str` comparison of `order_accounts`, is total and antisymmetric: equality holds exactly when neither string is less |
| Ordering.StrLessTransitive | Contract/src/lib.rs:190 | string order is transitive |
| Ordering.MessageTrichotomy | Contract/src/lib.rs:49-58 | `MessageLess`, the derived `Ord` of `Message` (lexicographic over timestamp, sender, id, text), is a strict total order: two messages are equal iff neither is less |
| Ordering.MessageLessTransitive | Contract/src/lib.rs:49-58 | the derived message order is transitive |
| Ordering.MessageLeTransitive | Contract/src/lib.rs:49-58 | the non-strict message order is transitive |
| Ordering.OrderAccounts | Contract/src/lib.rs:189-203 | the chat key is the two given accounts in some order, with the smaller first |
| Ordering.OrderAccountsSymmetric | Contract/src/lib.rs:189-203 | both argument orders give the same chat key |
| Ordering.OrderAccountsCanonical | Contract/src/lib.rs:189-203 | a pair already in order is its own key |
| MessageIds.Utf8Char | Contract/src/lib.rs:313-322 | one character of `as_bytes` takes one to four bytes, and exactly one when it is ASCII |
| MessageIds.Utf8Length | Contract/src/lib.rs:313-322 | a string's `as_bytes` has between one and four bytes per character, so only the empty string encodes to nothing |
| MessageIds.Utf8Append | Contract/src/lib.rs:318-325 | the byte encoding of a concatenation is the concatenation of the encodings |
| MessageIds.BigEndian | Contract/src/lib.rs:323 | the big-endian rendering has exactly the requested width |
| MessageIds.BigEndianRoundTrip | Contract/src/lib.rs:323 | a number below 256^width is read back from its big-endian bytes |
| MessageIds.ToBeBytes | Contract/src/lib.rs:323 | a timestamp is rendered as exactly eight bytes |
| MessageIds.ToBeBytesRoundTrip | Contract/src/lib.rs:323 | the eight bytes give the timestamp back |
| MessageIds.HexDigit | Contract/src/lib.rs:330 | each nibble renders as a lower-case hex digit |
| MessageIds.Hex | Contract/src/lib.rs:327-332 | the rendering has two lower-case hex digits per byte |
| MessageIds.HexRoundTrip | Contract/src/lib.rs:327-332 | the hex rendering decodes back to the digest, so it is injective |
| MessageIds.HexEncode | Contract/src/lib.rs:327-332 | the formatting loop yields the hex rendering of the digest |
| MessageIds.PreimageEndsWithTimestamp | Contract/src/lib.rs:318-325 | the digested bytes (`Preimage`) are the three encoded fields followed by eight bytes that give the timestamp back |
| MessageIds.MessageIdDecodes | Contract/src/lib.rs:304-333 | an id (`MessageIdOf`) has two lower-case hex digits per digest byte and decodes back to the digest of its fields |
| MessageIds.GetMessageId | Contract/src/lib.rs:304-333 | the id is `MessageIdOf` the target, sender, text and timestamp, where the target (`Target`) is the other account if given, else the group; with neither it panics |
| MessageIds.MessageIdsEqualIffDigestsEqual | Contract/src/lib.rs:304-333 | two ids are equal exactly when their digests are |
| MessageIds.BoundaryShiftSameId | Contract/src/lib.rs:318-325 | moving characters across the target/sender boundary keeps the id, whatever the digest |
| MessageIds.BoundaryShiftSamePreimage | Contract/src/lib.rs:318-325 | such a shift digests the same bytes |
| MessageLog.Insert | Contract/src/lib.rs:390-391 | reference insertion: the result holds exactly the old messages plus the new one |
| MessageLog.InsertShape | Contract/src/lib.rs:390-391 | insertion splices in exactly one message and keeps the others in order |
| MessageLog.InsertSorted | Contract/src/lib.rs:390-391 | insertion keeps a log sorted |
| MessageLog.SpliceIsInsert | Contract/src/lib.rs:390-391 | splicing at any place between smaller and larger messages equals the reference insertion |
| MessageLog.BinarySearch | Contract/src/lib.rs:390 | on a sorted log, either the index of an equal message, or the index with all smaller messages before and all larger after |
| MessageLog.InsertMessage | Contract/src/lib.rs:390-391 | the binary-search insert equals the reference insertion and leaves the log sorted |
| MessageLog.InsertNewest | Contract/src/lib.rs:404-405 | a message not older than the log is appended at the end |
| MessageLog.FindMessagePos | Contract/src/lib.rs:335-343 | the index of the last message with the id; 0 when none has it or the log is empty |
| MessageLog.FindLastSeenPos | Contract/src/lib.rs:345-350 | 0 exactly when the reader has no cursor; otherwise one past the cursor's position, at most the log length on a non-empty log and 1 on an empty one |
| MessageLog.UnreadCount | Contract/src/lib.rs:491 | the subtraction of `unread_messages` (here for channels, and the same at line 511 for chats): the count traps exactly when a cursor sits on an empty log; with no cursor it is the log length; it never exceeds the log length |
| MessageLog.ReadToEndNothingUnread | Contract/src/lib.rs:345-350 | a cursor on the last message leaves nothing unread |
| MessageLog.UnreadAfterCursor | Contract/src/lib.rs:345-350 | with a cursor on a message, the count is the number of messages after its last occurrence |
| MessageLog.StaleCursorUndercounts | Contract/src/lib.rs:335-343 | a cursor naming no message counts one fewer than the log |
| Reactions.Toggled | Contract/src/lib.rs:464-482 | the toggler is in the set after exactly when not before; no other account, label or message changes; the containers are created when absent |
| Reactions.ToggleFrame | Contract/src/lib.rs:464-482 | a toggle changes only the set it names |
| Reactions.ToggleTwiceRestores | Contract/src/lib.rs:464-482 | toggling twice restores every reactor set, and the whole index when the set existed |
| Membership.AddMember | Contract/src/lib.rs:245-253 | both views gain the membership, keys are kept, and the mirror holds |
| Membership.RemoveMember | Contract/src/lib.rs:267-280 | both views lose the membership; the channel is dropped iff nobody else is left and it is not "general"; the mirror holds |
| Membership.GeneralSurvivesLeave | Contract/src/lib.rs:276 | leaving never deletes "general" |
| Contract.PostNewestLeavesNothingUnread | Contract/src/lib.rs:402-407 | after `Posted` (the ordered insert plus the closing `read_message`) of a message not older than the log, its sender has nothing unread there |
| Contract.SliceEnd | Contract/src/lib.rs:579-584 | with a length, the page has min(length, total - start) messages, and the sum must fit in usize; without one, the end is total - start and it fails unless 2*start <= total |
| Contract.PageWithoutLengthDropsTail | Contract/src/lib.rs:583 | without a length, a page from a positive offset ends before the last message |
| Contract.RegisterKeepsDirectory | Contract/src/lib.rs:174-180 | a newcomer's empty channel view keeps the directory invariant |
| Contract.NewChannelKeepsDirectory | Contract/src/lib.rs:219-232 | a new channel with an empty member set keeps the directory invariant |
| Contract.ChannelsOkUpdate | Contract/src/lib.rs:219-228 | storing a public sorted channel keeps the channel invariant |
| Contract.ChannelsOkRemove | Contract/src/lib.rs:279 | removing a channel keeps the channel invariant |
| Contract.ChatsOkUpdate | Contract/src/lib.rs:393-405 | storing a private sorted chat under an ordered key keeps the chat invariant |
| Contract.ThreadsOkUpdate | Contract/src/lib.rs:389-391 | storing a sorted thread keeps the thread invariant |
| Contract.Curb.constructor | Contract/src/lib.rs:137-150 | an empty contract with the given name and creation time, satisfying the invariant |
| Contract.Curb.Ping | Contract/src/lib.rs:184-187 | any caller becomes a registered member, and the invariant holds |
| Contract.Curb.RegisterActivity | Contract/src/lib.rs:158-164 | the caller is a registered member afterwards |
| Contract.Curb.Join | Contract/src/lib.rs:167-182 | fails if already a member, if "general" exists before the first member, or if it is missing afterwards; otherwise registers the caller, creates "general" for the first member, and puts the caller in it |
| Contract.Curb.EnterGeneral | Contract/src/lib.rs:174-181 | registers the caller with a view holding only "general" and adds it to "general"'s members |
| Contract.Curb.CreateGroup | Contract/src/lib.rs:205-210 | fails on an empty name, an existing channel or a non-member; otherwise adds a public channel whose only member is the creator |
| Contract.Curb.InternalCreateGroup | Contract/src/lib.rs:212-236 | the error cases in source order; on success a new empty public channel stamped with creator and time, joined by the creator iff membership is required |
| Contract.Curb.AddChannel | Contract/src/lib.rs:219-235 | the inserts of a new channel keep the invariant |
| Contract.Curb.JoinGroup | Contract/src/lib.rs:238-257 | fails on a missing channel or non-member; otherwise the caller is added in both views and nothing else changes |
| Contract.Curb.Admit | Contract/src/lib.rs:245-253 | the account is added to the channel in both views; the invariant holds |
| Contract.Curb.LeaveGroup | Contract/src/lib.rs:259-284 | fails on a missing channel or non-member; otherwise removes the caller from both views and deletes an emptied channel other than "general" |
| Contract.Curb.Withdraw | Contract/src/lib.rs:267-280 | the removals and the clean-up keep the invariant |
| Contract.Curb.GroupInvite | Contract/src/lib.rs:286-302 | fails on a missing channel or non-member invitee; otherwise adds the invitee and registers the caller, with no check on the caller |
| Contract.Curb.SendMessage | Contract/src/lib.rs:352-435 | the error cases in source order; on success the message `Outgoing` (caller's timestamp, caller as sender, the id `get_message_id` derives) is inserted in order into the thread, chat (created private on first use) or channel, and the sender's cursor moves to it outside threads |
| Contract.Curb.PostReply | Contract/src/lib.rs:388-391 | the reply is inserted in order into the parent's thread, which is created when absent |
| Contract.Curb.PostToChat | Contract/src/lib.rs:392-407 | the message is inserted into the chat under the canonical key, and the sender's cursor moves to it |
| Contract.Curb.PostToChannel | Contract/src/lib.rs:422-428 | the channel becomes `Posted` of itself: the message is inserted in order and the sender's cursor moves to it |
| Contract.Curb.ReadMessage | Contract/src/lib.rs:437-462 | fails on a missing chat or channel or no target; otherwise overwrites only the caller's cursor |
| Contract.Curb.ToggleReaction | Contract/src/lib.rs:464-482 | the index is the toggled index and the caller becomes a member |
| Contract.Curb.AddReactions | Contract/src/lib.rs:525-544 | the message's fields are copied; reactions are present iff any were toggled, with each label mapping to its reactors |
| Contract.Curb.AddReactionsToAll | Contract/src/lib.rs:546-565 | every reply is decorated, in order |
| Contract.Curb.AddThread | Contract/src/lib.rs:546-565 | the message keeps its fields and gains its decorated replies, empty when there is no thread |
| Contract.Curb.DecorateAll | Contract/src/lib.rs:586-590 | every message of the slice is decorated, in order |
| Contract.Curb.Page | Contract/src/lib.rs:579-590 | a page exists iff the slice bounds hold; it holds the decorated messages from the offset on |
| Contract.Curb.GetMessages | Contract/src/lib.rs:567-613 | panics iff no target; an unknown chat or channel (`Conversation`: the chat under the ordered key, else the channel) gives an empty page; otherwise the page of its log from the offset (0 if absent) |
| Contract.Curb.GetMessagesSymmetric | Contract/src/lib.rs:576 | the two accounts of a chat may be given in either order |
| Contract.Curb.PartnerKeysPresent | Contract/src/lib.rs:392-393 | every chat of an account is stored under the key ordering it with the other party |
| Contract.Curb.ChannelSummaries | Contract/src/lib.rs:490-499 | one entry per channel, by name, with the reader's count and cursor |
| Contract.Curb.ChatSummaries | Contract/src/lib.rs:501-520 | one entry per chat of the account, keyed by the other party (`Other`), with count and cursor; an entry exists iff the chat does |
| Contract.Curb.PartnersHaveChats | Contract/src/lib.rs:501-509 | the account's chat partners are exactly those it has a chat with |
| Contract.Curb.UnreadMessages | Contract/src/lib.rs:484-523 | traps iff some channel or chat of the account has its cursor on an empty log; otherwise the channel and chat summaries and no thread entries |
| Contract.Curb.GetGroups | Contract/src/lib.rs:642-651 | all channels without an account; otherwise exactly the channels listing the account as member |
| Contract.Curb.ChannelInfoOf | Contract/src/lib.rs:660-662 | the channel's metadata iff the channel exists |
| Scenarios.TwoMembersJoin | Contract/src/lib.rs:167-182 | after two joins, both are in "general", the only channel |
| Scenarios.ReactionBeforeFirstJoin | Contract/src/lib.rs:464-482 | a reaction before any join makes the next join fail with "Group does not exist" |
| Scenarios.InviteBeforeFirstJoin | Contract/src/lib.rs:286-302 | before any join, an invitation fails with "Group does not exist" and registers nobody |
| Scenarios.ReactorLockedOut | Contract/src/lib.rs:167-302 | an account registered by a reaction fails to join, to join "general", to create a channel and to be invited, and has no channel |
| Scenarios.FirstPost | Contract/src/lib.rs:404-405 | the first message of an empty log is the whole log |
| Scenarios.PostToGeneral | Contract/src/lib.rs:352-435 | after two joins and a post, "general" holds one message with the poster's cursor on it and no cursor for the reader |
| Scenarios.PosterHasNothingUnread | Contract/src/lib.rs:484-523 | the poster has zero unread in "general" |
| Scenarios.ReaderHasOneUnread | Contract/src/lib.rs:484-523 | the other member has one unread in "general" |

## Left out

- `ping`'s attached deposit is not modelled; its registration is (`Contract.Curb.Ping`).
- `register_activity`'s timestamps (the values of `members`) and the signer keys in `member_keys` are left out. So are the queries built on them, `get_keys`, `get_members` and `is_active` with its 30-second threshold, because they depend on the host clock and keys only.
- `created_at` and `get_name` return two constructor fields, which `Contract.Curb.constructor` states.
- SHA-256 is an uninterpreted parameter. Only the bytes it digests and the rendering of its output are modelled.
- Borsh and JSON serialization, storage prefixes, and `env::value_return` of the channel or account are left out. They are host I/O.
- The iteration order of `UnorderedMap`/`UnorderedSet` is left out. Query results that are vectors in the source are sets or maps here, for example `get_groups`.
- Reactor lists are collected from a set into a vector in the source. Here they are sets.
- Account ids are not validated. Any string is an account.
- Storage payments (`#[payable]`, the TODO in `join`) are left out.
- The web front end `Components/src/Main.jsx` is not part of this model.
