/** The `Curb` contract: its persistent state and its entry points. Every
    entry point runs to completion; a failed `require!` or a panic rejects
    the call and the host discards its writes, so a method here either
    returns `Pass` with the new state or `Fail` with the state unchanged.
    The caller (`env::predecessor_account_id`) and the block time
    (`env::block_timestamp_ms`) are parameters. */
module Contract {
  import opened Types
  import opened Ordering
  import opened MessageIds
  import opened MessageLog
  import opened Reactions
  import opened Membership

  /** A channel or chat after `m` is posted to it: the message is inserted in
      order and the sender's cursor moves to its id (`send_message` followed
      by its own `read_message`). */
  function Posted(info: ChannelInfo, m: Message): ChannelInfo
  {
    info.(messages := Insert(info.messages, m), lastRead := info.lastRead[m.sender := m.id])
  }

  /** Whoever posts a message not older than anything in the log has nothing
      unread there afterwards. */
  lemma PostNewestLeavesNothingUnread(info: ChannelInfo, m: Message)
    requires Sorted(info.messages)
    requires forall i :: 0 <= i < |info.messages| ==> MessageLe(info.messages[i], m)
    ensures UnreadCount(Posted(info, m), m.sender) == Ok(0)
  {
    InsertNewest(info.messages, m);
    ReadToEndNothingUnread(Posted(info, m), m.sender);
  }

  function Min(a: nat, b: nat): nat
  {
    if a <= b then a else b
  }

  /** The end of the page `get_messages` slices, from the log's length, the
      start offset and the optional length. With a length the end is
      `min(length + start, total)`; the `usize` addition traps on overflow.
      Without one the end is `total - start`, not `total`: the page holds
      `total - 2 * start` messages and the subtraction traps when
      `start > total`. `messages[start..end]` panics when `start > end`. */
  function SliceEnd(total: nat, start: nat, length: Option<usize>): (r: Result<nat>)
    requires start < USIZE_LIMIT
    ensures r.Ok? ==> start <= r.value <= total
    ensures length.Some? ==> (r.Ok? <==> start <= total && start + length.value as nat < USIZE_LIMIT)
    ensures length.Some? && r.Ok? ==> r.value - start == Min(length.value as nat, total - start)
    ensures length.None? ==> (r.Ok? <==> 2 * start <= total)
    ensures length.None? && r.Ok? ==> r.value == total - start
  {
    if length.Some? then
      if length.value as nat + start >= USIZE_LIMIT then Err(ArithmeticOverflow)
      else
        var end := Min(length.value as nat + start, total);
        if start <= end then Ok(end) else Err(SliceOutOfRange)
    else
      if start > total then Err(ArithmeticOverflow)
      else
        var end := total - start;
        if start <= end then Ok(end) else Err(SliceOutOfRange)
  }

  /** Without a length, a page that starts past the first message stops
      `start` messages short of the end of the log. */
  lemma PageWithoutLengthDropsTail(total: nat, start: nat)
    requires 0 < start < USIZE_LIMIT && 2 * start <= total
    ensures SliceEnd(total, start, None) == Ok(total - start)
    ensures total - start < total
  {
  }

  /** The other party of a chat key that involves `account`. */
  function Other(key: (AccountId, AccountId), account: AccountId): AccountId
  {
    if key.0 == account then key.1 else key.0
  }

  /** A cursor on an empty log: the unread count of this reader traps. */
  predicate CursorOnEmpty(info: ChannelInfo, account: AccountId)
  {
    account in info.lastRead && info.messages == []
  }

  /** The unread entry of one conversation for a reader whose count does not
      underflow. */
  function Summary(info: ChannelInfo, account: AccountId): UnreadMessage
    requires !CursorOnEmpty(info, account)
  {
    UnreadMessage(UnreadCount(info, account).value,
                  if account in info.lastRead then Some(info.lastRead[account]) else None)
  }

  /** Every channel has a member set and nothing else has one; the two
      membership views are mirrored; only registered accounts have a view. */
  ghost predicate DirectoryOk(channelKeys: set<Channel>, cm: ChannelMembers, mc: MemberChannels,
                              members: set<AccountId>)
  {
    cm.Keys == channelKeys && Mirrored(cm, mc) && mc.Keys <= members
  }

  ghost predicate ChannelsOk(channels: map<Channel, ChannelInfo>)
  {
    forall g :: g in channels ==> channels[g].isPublic && Sorted(channels[g].messages)
  }

  ghost predicate ChatsOk(chats: map<(AccountId, AccountId), ChannelInfo>)
  {
    forall k :: k in chats ==> !StrLess(k.1, k.0) && !chats[k].isPublic && Sorted(chats[k].messages)
  }

  ghost predicate ThreadsOk(threads: map<MessageId, seq<Message>>)
  {
    forall p :: p in threads ==> Sorted(threads[p])
  }

  /** A newcomer gets an empty channel view; nobody's membership changes. */
  lemma RegisterKeepsDirectory(keys: set<Channel>, cm: ChannelMembers, mc: MemberChannels,
                               members: set<AccountId>, a: AccountId)
    requires DirectoryOk(keys, cm, mc, members) && a !in members
    ensures DirectoryOk(keys, cm, mc[a := {}], members + {a})
    ensures forall g :: g in cm ==> a !in cm[g]
  {
  }

  /** A new channel starts with an empty member set. */
  lemma NewChannelKeepsDirectory(keys: set<Channel>, cm: ChannelMembers, mc: MemberChannels,
                                 members: set<AccountId>, g: Channel)
    requires DirectoryOk(keys, cm, mc, members) && g !in keys
    ensures DirectoryOk(keys + {g}, cm[g := {}], mc, members)
  {
  }

  lemma ChannelsOkUpdate(channels: map<Channel, ChannelInfo>, g: Channel, info: ChannelInfo)
    requires ChannelsOk(channels) && info.isPublic && Sorted(info.messages)
    ensures ChannelsOk(channels[g := info])
  {
  }

  lemma ChannelsOkRemove(channels: map<Channel, ChannelInfo>, g: Channel)
    requires ChannelsOk(channels)
    ensures ChannelsOk(channels - {g})
  {
  }

  lemma ChatsOkUpdate(chats: map<(AccountId, AccountId), ChannelInfo>, k: (AccountId, AccountId),
                      info: ChannelInfo)
    requires ChatsOk(chats) && !StrLess(k.1, k.0) && !info.isPublic && Sorted(info.messages)
    ensures ChatsOk(chats[k := info])
  {
  }

  lemma ThreadsOkUpdate(threads: map<MessageId, seq<Message>>, p: MessageId, log: seq<Message>)
    requires ThreadsOk(threads) && Sorted(log)
    ensures ThreadsOk(threads[p := log])
  {
  }

  /** The message `send_message` stores: stamped with the caller's time, sent
      by the caller, under the id `get_message_id` derives. */
  function Outgoing(sha256: Bytes -> Bytes, caller: AccountId, account: Option<AccountId>,
                    group: Option<Channel>, message: string, timestamp: u64): Message
    requires account.Some? || group.Some?
  {
    Message(timestamp, caller, MessageIdOf(sha256, Target(account, group), caller, message, timestamp), message)
  }

  class Curb {
    const name: string
    const createdAt: u64
    /** The host's `env::sha256`, left uninterpreted. */
    const sha256: Bytes -> Bytes

    /** Registered accounts (the keys of `members`; their activity times are
        not modelled). */
    var members: set<AccountId>
    var channels: map<Channel, ChannelInfo>
    var channelMembers: ChannelMembers
    var memberChannels: MemberChannels
    /** Two-party chats, keyed by `order_accounts` of the two parties. */
    var chats: map<(AccountId, AccountId), ChannelInfo>
    /** Replies, keyed by the id of the message they answer. */
    var threads: map<MessageId, seq<Message>>
    var reactions: ReactionIndex

    /** What every entry point keeps: one member set per channel, the two
        membership views mirrored, views only for registered accounts,
        channels public, chats private and under canonical keys, every log
        sorted. */
    ghost predicate Valid()
      reads this
    {
      && DirectoryOk(channels.Keys, channelMembers, memberChannels, members)
      && ChannelsOk(channels)
      && ChatsOk(chats)
      && ThreadsOk(threads)
    }

    /** `new`: an empty contract. */
    constructor (name: string, now: u64, sha256: Bytes -> Bytes)
      ensures Valid()
      ensures this.name == name && createdAt == now && this.sha256 == sha256
      ensures members == {} && channels == map[] && channelMembers == map[] && memberChannels == map[]
      ensures chats == map[] && threads == map[] && reactions == map[]
    {
      this.name, createdAt, this.sha256 := name, now, sha256;
      members, channels, channelMembers, memberChannels := {}, map[], map[], map[];
      chats, threads, reactions := map[], map[], map[];
    }

    /** The replies to `parent`, empty when there are none. */
    function ThreadOf(parent: MessageId): seq<Message>
      reads this
    {
      if parent in threads then threads[parent] else []
    }

    /** The part of `register_activity` the model keeps: the caller is a
        registered member from now on. */
    method RegisterActivity(caller: AccountId)
      modifies this`members
      ensures members == old(members) + {caller}
    {
      members := members + {caller};
    }

    /** `ping`: records the caller's activity, which makes any caller a
        registered member, whether or not it ever joined. */
    method Ping(caller: AccountId)
      requires Valid()
      modifies this`members
      ensures Valid()
      ensures members == old(members) + {caller}
    {
      RegisterActivity(caller);
    }

    /** `join`: register the caller and put them in "general", creating that
        channel when the contract has no member yet. */
    method Join(caller: AccountId, now: u64) returns (r: Outcome)
      requires Valid()
      modifies this`members, this`channels, this`channelMembers, this`memberChannels
      ensures Valid()
      ensures r == (if caller in old(members) then Fail(AlreadyMember)
                    else if old(members) == {} && General in old(channels) then Fail(GroupExists)
                    else if old(members) != {} && General !in old(channels) then Fail(GroupDoesNotExist)
                    else Pass)
      ensures r.Fail? ==> unchanged(this)
      ensures r.Pass? ==> members == old(members) + {caller}
      ensures r.Pass? ==> channels == if old(members) == {}
                                      then old(channels)[General := NewChannelInfo(true, now, caller)]
                                      else old(channels)
      ensures r.Pass? && old(members) == {} ==> channelMembers == old(channelMembers)[General := {caller}]
      ensures r.Pass? && old(members) != {} ==>
                channelMembers == old(channelMembers)[General := old(channelMembers)[General] + {caller}]
      ensures r.Pass? ==> memberChannels == old(memberChannels)[caller := {General}]
    {
      if caller in members {
        return Fail(AlreadyMember);
      }
      if members == {} && General in channels {
        return Fail(GroupExists);
      }
      if members != {} && General !in channels {
        return Fail(GroupDoesNotExist);
      }
      if members == {} {
        var created := InternalCreateGroup(caller, General, false, now);
        assert created == Pass;
      }
      ghost var first := members == {};
      EnterGeneral(caller);
      if first {
        assert {} + {caller} == {caller};
      }
      r := Pass;
    }

    /** The second half of `join`: register the caller, give them an empty
        channel view and put them in "general" (the closing `join_group`,
        whose checks pass). */
    method EnterGeneral(caller: AccountId)
      requires Valid() && caller !in members && General in channels
      modifies this`members, this`channelMembers, this`memberChannels
      ensures Valid()
      ensures members == old(members) + {caller}
      ensures channelMembers == old(channelMembers)[General := old(channelMembers)[General] + {caller}]
      ensures memberChannels == old(memberChannels)[caller := {General}]
    {
      RegisterKeepsDirectory(channels.Keys, channelMembers, memberChannels, members, caller);
      RegisterActivity(caller);
      ghost var mc0 := memberChannels;
      memberChannels := memberChannels[caller := {}];
      Admit(caller, General);
      RegisterActivity(caller);
      assert {} + {General} == {General};
      assert memberChannels == mc0[caller := {General}];
    }

    /** `create_group`: a new public channel whose creator is its first
        member. */
    method CreateGroup(caller: AccountId, group: Channel, now: u64) returns (r: Outcome)
      requires Valid()
      modifies this`members, this`channels, this`channelMembers, this`memberChannels
      ensures Valid()
      ensures r == (if |group.name| == 0 then Fail(NameTooShort)
                    else if group in old(channels) then Fail(GroupExists)
                    else if caller !in old(members) then Fail(NotAMember)
                    else if caller !in old(memberChannels) then Fail(MissingEntry)
                    else Pass)
      ensures r.Fail? ==> unchanged(this)
      ensures r.Pass? ==> members == old(members)
      ensures r.Pass? ==> channels == old(channels)[group := NewChannelInfo(true, now, caller)]
      ensures r.Pass? ==> channelMembers == old(channelMembers)[group := {caller}]
      ensures r.Pass? ==> memberChannels == old(memberChannels)[caller := old(memberChannels)[caller] + {group}]
    {
      r := InternalCreateGroup(caller, group, true, now);
      if r.Pass? {
        RegisterActivity(caller);
      }
    }

    /** `internal_create_group`: a new public channel with no messages and an
        empty member set; the creator joins it when membership is required. */
    method InternalCreateGroup(caller: AccountId, group: Channel, membershipRequired: bool, now: u64)
      returns (r: Outcome)
      requires Valid()
      modifies this`members, this`channels, this`channelMembers, this`memberChannels
      ensures Valid()
      ensures r == (if |group.name| == 0 then Fail(NameTooShort)
                    else if group in old(channels) then Fail(GroupExists)
                    else if membershipRequired && caller !in old(members) then Fail(NotAMember)
                    else if membershipRequired && caller !in old(memberChannels) then Fail(MissingEntry)
                    else Pass)
      ensures r.Fail? ==> unchanged(this)
      ensures r.Pass? ==> members == old(members)
      ensures r.Pass? ==> channels == old(channels)[group := NewChannelInfo(true, now, caller)]
      ensures r.Pass? ==> channelMembers == old(channelMembers)[group := if membershipRequired then {caller} else {}]
      ensures r.Pass? ==> memberChannels == if membershipRequired
                                            then old(memberChannels)[caller := old(memberChannels)[caller] + {group}]
                                            else old(memberChannels)
    {
      if |group.name| == 0 {
        return Fail(NameTooShort);
      }
      if group in channels {
        return Fail(GroupExists);
      }
      if membershipRequired && caller !in members {
        return Fail(NotAMember);
      }
      // join_group would panic on this unwrap after the inserts; the host
      // then discards them
      if membershipRequired && caller !in memberChannels {
        return Fail(MissingEntry);
      }
      AddChannel(caller, group, membershipRequired, now);
      r := Pass;
    }

    /** The inserts of `internal_create_group` once its checks pass. */
    method AddChannel(caller: AccountId, group: Channel, membershipRequired: bool, now: u64)
      requires Valid() && group !in channels
      requires membershipRequired ==> caller in memberChannels
      modifies this`members, this`channels, this`channelMembers, this`memberChannels
      ensures Valid()
      ensures members == old(members)
      ensures channels == old(channels)[group := NewChannelInfo(true, now, caller)]
      ensures channelMembers == old(channelMembers)[group := if membershipRequired then {caller} else {}]
      ensures memberChannels == if membershipRequired
                                then old(memberChannels)[caller := old(memberChannels)[caller] + {group}]
                                else old(memberChannels)
    {
      NewChannelKeepsDirectory(channels.Keys, channelMembers, memberChannels, members, group);
      ChannelsOkUpdate(channels, group, NewChannelInfo(true, now, caller));
      channels := channels[group := NewChannelInfo(true, now, caller)];
      channelMembers := channelMembers[group := {}];
      if membershipRequired {
        // the closing `join_group`, whose checks pass
        Admit(caller, group);
        RegisterActivity(caller);
        assert {} + {caller} == {caller};
        assert channelMembers == old(channelMembers)[group := {caller}];
      }
    }

    /** `join_group`: the caller enters an existing channel. */
    method JoinGroup(caller: AccountId, group: Channel) returns (r: Outcome)
      requires Valid()
      modifies this`members, this`channelMembers, this`memberChannels
      ensures Valid()
      ensures r == (if group !in old(channels) then Fail(GroupDoesNotExist)
                    else if caller !in old(members) then Fail(NotAMember)
                    else if caller !in old(memberChannels) then Fail(MissingEntry)
                    else Pass)
      ensures r.Fail? ==> unchanged(this)
      ensures r.Pass? ==> members == old(members)
      ensures r.Pass? ==> channelMembers == old(channelMembers)[group := old(channelMembers)[group] + {caller}]
      ensures r.Pass? ==> memberChannels == old(memberChannels)[caller := old(memberChannels)[caller] + {group}]
    {
      if group !in channels {
        return Fail(GroupDoesNotExist);
      }
      if caller !in members {
        return Fail(NotAMember);
      }
      if caller !in memberChannels {
        return Fail(MissingEntry);
      }
      Admit(caller, group);
      RegisterActivity(caller);
      r := Pass;
    }

    /** The two inserts of `join_group` and `group_invite`: `account` enters
        `group` in both membership views. */
    method Admit(account: AccountId, group: Channel)
      requires Valid() && group in channels && account in memberChannels
      modifies this`channelMembers, this`memberChannels
      ensures Valid()
      ensures channelMembers == old(channelMembers)[group := old(channelMembers)[group] + {account}]
      ensures memberChannels == old(memberChannels)[account := old(memberChannels)[account] + {group}]
    {
      var (cm, mc) := AddMember(channelMembers, memberChannels, group, account);
      channelMembers, memberChannels := cm, mc;
    }

    /** `leave_group`: the caller leaves a channel, which is deleted with its
        member set once nobody is left, unless it is "general". */
    method LeaveGroup(caller: AccountId, group: Channel) returns (r: Outcome)
      requires Valid()
      modifies this`members, this`channels, this`channelMembers, this`memberChannels
      ensures Valid()
      ensures r == (if group !in old(channels) then Fail(GroupDoesNotExist)
                    else if caller !in old(members) then Fail(NotAMember)
                    else if caller !in old(memberChannels) then Fail(MissingEntry)
                    else Pass)
      ensures r.Fail? ==> unchanged(this)
      ensures r.Pass? ==> members == old(members)
      ensures r.Pass? ==> (channelMembers, memberChannels)
                          == RemoveMember(old(channelMembers), old(memberChannels), group, caller)
      ensures r.Pass? ==> channels == if group in channelMembers then old(channels) else old(channels) - {group}
      ensures r.Pass? ==> (group !in channels <==> old(channelMembers)[group] <= {caller} && group != General)
      ensures General in old(channels) ==> General in channels
    {
      if group !in channels {
        return Fail(GroupDoesNotExist);
      }
      if caller !in members {
        return Fail(NotAMember);
      }
      if caller !in memberChannels {
        return Fail(MissingEntry);
      }
      Withdraw(caller, group);
      RegisterActivity(caller);
      r := Pass;
    }

    /** The removals of `leave_group` and the clean-up of an empty channel. */
    method Withdraw(account: AccountId, group: Channel)
      requires Valid() && group in channels && account in memberChannels
      modifies this`channels, this`channelMembers, this`memberChannels
      ensures Valid()
      ensures (channelMembers, memberChannels)
              == RemoveMember(old(channelMembers), old(memberChannels), group, account)
      ensures channels == if group in channelMembers then old(channels) else old(channels) - {group}
    {
      var (cm, mc) := RemoveMember(channelMembers, memberChannels, group, account);
      channelMembers, memberChannels := cm, mc;
      if group !in cm {
        ChannelsOkRemove(channels, group);
        channels := channels - {group};
      }
    }

    /** `group_invite`: puts `account` in a channel. Nothing checks that the
        caller is a member or in the channel, and the caller is registered as
        a member by the activity bookkeeping. */
    method GroupInvite(caller: AccountId, group: Channel, account: AccountId) returns (r: Outcome)
      requires Valid()
      modifies this`members, this`channelMembers, this`memberChannels
      ensures Valid()
      ensures r == (if group !in old(channels) then Fail(GroupDoesNotExist)
                    else if account !in old(members) then Fail(NotAMember)
                    else if account !in old(memberChannels) then Fail(MissingEntry)
                    else Pass)
      ensures r.Fail? ==> unchanged(this)
      ensures r.Pass? ==> members == old(members) + {caller}
      ensures r.Pass? ==> channelMembers == old(channelMembers)[group := old(channelMembers)[group] + {account}]
      ensures r.Pass? ==> memberChannels == old(memberChannels)[account := old(memberChannels)[account] + {group}]
    {
      if group !in channels {
        return Fail(GroupDoesNotExist);
      }
      if account !in members {
        return Fail(NotAMember);
      }
      if account !in memberChannels {
        return Fail(MissingEntry);
      }
      Admit(account, group);
      RegisterActivity(caller);
      r := Pass;
    }

    /** `send_message`: to the chat with `account` when one is given (created
        on first use, private), otherwise to the channel `group`; with a
        parent id the message goes to that parent's thread instead, and no
        cursor moves. The parent is never looked up. */
    method SendMessage(caller: AccountId, now: u64, account: Option<AccountId>, group: Option<Channel>,
                       message: string, timestamp: u64, parentMessage: Option<MessageId>)
      returns (r: Outcome)
      requires Valid()
      modifies this`members, this`channels, this`chats, this`threads
      ensures Valid()
      ensures r == (if caller !in old(members) then Fail(NotAMember)
                    else if account.None? && group.None? then Fail(MissingTarget)
                    else if account.Some? && account.value !in old(members) then Fail(OtherNotAMember)
                    else if account.None? && group.value !in old(channels) then Fail(GroupDoesNotExist)
                    else if account.None? && caller !in old(channelMembers)[group.value] then Fail(NotAGroupMember)
                    else Pass)
      ensures r.Fail? ==> unchanged(this)
      ensures r.Pass? ==> members == old(members)
      ensures r.Pass? && parentMessage.Some? ==>
                && threads == old(threads)[parentMessage.value :=
                     Insert(old(ThreadOf(parentMessage.value)), Outgoing(sha256, caller, account, group, message, timestamp))]
                && channels == old(channels) && chats == old(chats)
      ensures r.Pass? && parentMessage.None? && account.Some? ==>
                var key := OrderAccounts(caller, account.value);
                && chats == old(chats)[key := Posted(if key in old(chats) then old(chats)[key]
                                                     else NewChannelInfo(false, now, caller),
                                                     Outgoing(sha256, caller, account, group, message, timestamp))]
                && channels == old(channels) && threads == old(threads)
      ensures r.Pass? && parentMessage.None? && account.None? ==>
                && channels == old(channels)[group.value := Posted(old(channels)[group.value],
                                                                   Outgoing(sha256, caller, account, group, message, timestamp))]
                && chats == old(chats) && threads == old(threads)
    {
      if caller !in members {
        return Fail(NotAMember);
      }
      var id := GetMessageId(sha256, caller, account, group, message, timestamp);
      if id.Err? {
        return Fail(id.error);
      }
      if account.Some? && account.value !in members {
        return Fail(OtherNotAMember);
      }
      if account.None? && group.value !in channels {
        return Fail(GroupDoesNotExist);
      }
      if account.None? && caller !in channelMembers[group.value] {
        return Fail(NotAGroupMember);
      }
      RegisterActivity(caller);
      var m := Message(timestamp, caller, id.value, message);
      if parentMessage.Some? {
        PostReply(parentMessage.value, m);
      } else if account.Some? {
        PostToChat(account.value, now, m);
      } else {
        PostToChannel(group.value, m);
      }
      r := Pass;
    }

    /** The reply branch of `send_message`: `m` joins the thread of `parent`,
        which is created when it has no reply yet. */
    method PostReply(parent: MessageId, m: Message)
      requires Valid()
      modifies this`threads
      ensures Valid()
      ensures threads == old(threads)[parent := Insert(old(ThreadOf(parent)), m)]
    {
      var replies := InsertMessage(ThreadOf(parent), m);
      ThreadsOkUpdate(threads, parent, replies);
      threads := threads[parent := replies];
    }

    /** The chat branch of `send_message`: `m` goes to the chat between its
        sender and `other`, created private on first use, and the sender's
        cursor moves to it. */
    method PostToChat(other: AccountId, now: u64, m: Message)
      requires Valid()
      modifies this`chats
      ensures Valid()
      ensures var key := OrderAccounts(m.sender, other);
        chats == old(chats)[key := Posted(if key in old(chats) then old(chats)[key]
                                          else NewChannelInfo(false, now, m.sender), m)]
    {
      var key := OrderAccounts(m.sender, other);
      var chat := if key in chats then chats[key] else NewChannelInfo(false, now, m.sender);
      var log := InsertMessage(chat.messages, m);
      // the closing `read_message`, whose chat now exists
      var posted := chat.(messages := log, lastRead := chat.lastRead[m.sender := m.id]);
      ChatsOkUpdate(chats, key, posted);
      chats := chats[key := posted];
    }

    /** The channel branch of `send_message`: `m` goes to channel `g` and the
        sender's cursor moves to it. */
    method PostToChannel(g: Channel, m: Message)
      requires Valid() && g in channels
      modifies this`channels
      ensures Valid()
      ensures channels == old(channels)[g := Posted(old(channels)[g], m)]
    {
      var info := channels[g];
      var log := InsertMessage(info.messages, m);
      // the closing `read_message`, whose channel exists
      var posted := info.(messages := log, lastRead := info.lastRead[m.sender := m.id]);
      ChannelsOkUpdate(channels, g, posted);
      channels := channels[g := posted];
    }

    /** `read_message`: overwrites the caller's cursor in a chat or channel,
        whether or not the id is later than the old cursor, or names a
        message at all. */
    method ReadMessage(caller: AccountId, account: Option<AccountId>, group: Option<Channel>,
                       messageId: MessageId) returns (r: Outcome)
      requires Valid()
      modifies this`channels, this`chats
      ensures Valid()
      ensures r == (if account.Some? then
                      (if OrderAccounts(caller, account.value) in old(chats) then Pass else Fail(MissingEntry))
                    else if group.Some? then
                      (if group.value in old(channels) then Pass else Fail(MissingEntry))
                    else Fail(MissingTarget))
      ensures r.Fail? ==> unchanged(this)
      ensures r.Pass? && account.Some? ==>
        var key := OrderAccounts(caller, account.value);
        && chats == old(chats)[key := old(chats)[key].(lastRead := old(chats)[key].lastRead[caller := messageId])]
        && channels == old(channels)
      ensures r.Pass? && account.None? ==>
        && channels == old(channels)[group.value :=
             old(channels)[group.value].(lastRead := old(channels)[group.value].lastRead[caller := messageId])]
        && chats == old(chats)
    {
      if account.Some? {
        var key := OrderAccounts(caller, account.value);
        if key !in chats {
          return Fail(MissingEntry);
        }
        var info := chats[key];
        chats := chats[key := info.(lastRead := info.lastRead[caller := messageId])];
      } else if group.Some? {
        if group.value !in channels {
          return Fail(MissingEntry);
        }
        var info := channels[group.value];
        channels := channels[group.value := info.(lastRead := info.lastRead[caller := messageId])];
      } else {
        return Fail(MissingTarget);
      }
      r := Pass;
    }

    /** `toggle_reaction`: flips the caller in the reactor set of one label on
        one message id. No membership is checked and the id is not looked up;
        the caller is registered as a member by the activity bookkeeping. */
    method ToggleReaction(caller: AccountId, messageId: MessageId, reaction: string)
      requires Valid()
      modifies this`reactions, this`members
      ensures Valid()
      ensures reactions == Toggled(old(reactions), messageId, reaction, caller)
      ensures members == old(members) + {caller}
    {
      reactions := Toggled(reactions, messageId, reaction, caller);
      RegisterActivity(caller);
    }
    /** `add_reactions_to_message`: the message with every reaction label it
        has and the accounts behind each, or no reaction map at all when
        nobody ever toggled a reaction on its id. */
    function AddReactions(m: Message): (r: MessageWithReactions)
      reads this
      ensures r.id == m.id && r.text == m.text && r.timestamp == m.timestamp && r.sender == m.sender
      ensures r.reactions.Some? <==> m.id in reactions
      ensures r.reactions.Some? ==> r.reactions.value.Keys == reactions[m.id].Keys
      ensures r.reactions.Some? ==>
                forall l :: l in r.reactions.value ==> r.reactions.value[l] == Reactors(reactions, m.id, l)
    {
      MessageWithReactions(m.id, m.text, m.timestamp, m.sender,
                           if m.id in reactions then Some(reactions[m.id]) else None)
    }

    /** Every message of a log decorated with its reactions, in order. */
    function AddReactionsToAll(log: seq<Message>): (r: seq<MessageWithReactions>)
      reads this
      ensures |r| == |log|
      ensures forall i :: 0 <= i < |log| ==> r[i] == AddReactions(log[i])
    {
      if log == [] then [] else [AddReactions(log[0])] + AddReactionsToAll(log[1..])
    }

    /** `add_thread_to_message`: attaches the decorated replies to the
        message's id, none when it has no thread. */
    function AddThread(m: MessageWithReactions): (r: MessageWithReactionsAndThread)
      reads this
      ensures r.id == m.id && r.text == m.text && r.timestamp == m.timestamp && r.sender == m.sender
      ensures r.reactions == m.reactions
      ensures |r.thread| == |ThreadOf(m.id)|
      ensures forall i :: 0 <= i < |r.thread| ==> r.thread[i] == AddReactions(ThreadOf(m.id)[i])
    {
      MessageWithReactionsAndThread(m.id, m.text, m.timestamp, m.sender, m.reactions,
                                    AddReactionsToAll(ThreadOf(m.id)))
    }

    /** A message of a page as `get_messages` returns it. */
    function Decorate(m: Message): MessageWithReactionsAndThread
      reads this
    {
      AddThread(AddReactions(m))
    }

    /** Every message of a slice decorated, in order. */
    function DecorateAll(log: seq<Message>): (r: seq<MessageWithReactionsAndThread>)
      reads this
      ensures |r| == |log|
      ensures forall i :: 0 <= i < |log| ==> r[i] == Decorate(log[i])
    {
      if log == [] then [] else [Decorate(log[0])] + DecorateAll(log[1..])
    }

    /** The conversation `get_messages` reads: the chat of the two accounts
        when they are given, otherwise the channel; `None` when it does not
        exist or no target is given. */
    function Conversation(accounts: Option<(AccountId, AccountId)>, group: Option<Channel>): Option<ChannelInfo>
      reads this
    {
      if accounts.Some? then
        var key := OrderAccounts(accounts.value.0, accounts.value.1);
        if key in chats then Some(chats[key]) else None
      else if group.Some? && group.value in channels then Some(channels[group.value])
      else None
    }

    /** One page of a log: `messages[start..end]` with the end `SliceEnd`
        computes, every message decorated. */
    function Page(log: seq<Message>, start: usize, length: Option<usize>)
      : (r: Result<seq<MessageWithReactionsAndThread>>)
      reads this
      ensures r.Ok? <==> SliceEnd(|log|, start as nat, length).Ok?
      ensures r.Ok? ==> |r.value| == SliceEnd(|log|, start as nat, length).value - start as nat
      ensures r.Ok? ==> forall i :: 0 <= i < |r.value| ==> r.value[i] == Decorate(log[start as nat + i])
    {
      match SliceEnd(|log|, start as nat, length)
      case Err(e) => Err(e)
      case Ok(end) => Ok(DecorateAll(log[start..end]))
    }

    /** `get_messages`: a page of the chat between two accounts (in either
        order), or else of a channel, starting at `offset` (0 when absent).
        An unknown chat or channel gives an empty page; no target at all
        panics. */
    function GetMessages(accounts: Option<(AccountId, AccountId)>, group: Option<Channel>,
                         offset: Option<usize>, length: Option<usize>)
      : (r: Result<seq<MessageWithReactionsAndThread>>)
      reads this
      ensures r == Err(MissingTarget) <==> accounts.None? && group.None?
      ensures (accounts.Some? || group.Some?) && Conversation(accounts, group).None? ==> r == Ok([])
      ensures Conversation(accounts, group).Some? ==>
                r == Page(Conversation(accounts, group).value.messages, if offset.Some? then offset.value else 0, length)
    {
      var start := if offset.Some? then offset.value else 0;
      if accounts.None? && group.None? then Err(MissingTarget)
      else
        match Conversation(accounts, group)
        case None => Ok([])
        case Some(info) => Page(info.messages, start, length)
    }

    /** Either party may ask for their chat: the order of the two accounts
        does not matter. */
    lemma GetMessagesSymmetric(a: AccountId, b: AccountId, group: Option<Channel>,
                               offset: Option<usize>, length: Option<usize>)
      ensures GetMessages(Some((a, b)), group, offset, length) == GetMessages(Some((b, a)), group, offset, length)
    {
      OrderAccountsSymmetric(a, b);
    }

    /** Under the invariant every chat is stored under the key
        `order_accounts` gives its two parties, so either party finds it
        from the other's id. */
    lemma PartnerKeysPresent(account: AccountId)
      requires Valid()
      ensures forall k :: k in chats && (k.0 == account || k.1 == account) ==>
                OrderAccounts(account, Other(k, account)) == k
    {
      forall k | k in chats && (k.0 == account || k.1 == account)
        ensures OrderAccounts(account, Other(k, account)) == k
      {
        OrderAccountsCanonical(k.0, k.1);
        OrderAccountsSymmetric(k.0, k.1);
      }
    }

    /** The other parties of the chats `account` takes part in. */
    function Partners(account: AccountId): set<AccountId>
      reads this
    {
      set k | k in chats && (k.0 == account || k.1 == account) :: Other(k, account)
    }

    /** The channel half of `unread_messages`: every channel by name. */
    function ChannelSummaries(account: AccountId): (r: map<string, UnreadMessage>)
      requires forall g :: g in channels ==> !CursorOnEmpty(channels[g], account)
      reads this
      ensures forall g :: g in channels ==> g.name in r && r[g.name] == Summary(channels[g], account)
      ensures forall n :: n in r ==> Channel(n) in channels
    {
      map g | g in channels :: g.name := Summary(channels[g], account)
    }

    /** The chat half of `unread_messages`: every chat of `account`, by the
        other party. */
    function ChatSummaries(account: AccountId): (r: map<AccountId, UnreadMessage>)
      requires Valid()
      requires forall k :: k in chats && (k.0 == account || k.1 == account) ==> !CursorOnEmpty(chats[k], account)
      reads this
      ensures forall o :: o in r <==> OrderAccounts(account, o) in chats
      ensures forall k :: k in chats && (k.0 == account || k.1 == account) ==>
                Other(k, account) in r && r[Other(k, account)] == Summary(chats[k], account)
    {
      PartnerKeysPresent(account);
      PartnersHaveChats(account);
      map o | o in Partners(account) :: Summary(chats[OrderAccounts(account, o)], account)
    }

    /** Whoever `account` could chat with has a chat exactly when they are
        among its partners. */
    lemma PartnersHaveChats(account: AccountId)
      requires Valid()
      ensures forall o :: o in Partners(account) <==> OrderAccounts(account, o) in chats
    {
      PartnerKeysPresent(account);
      forall o | OrderAccounts(account, o) in chats ensures o in Partners(account) {
        var k := OrderAccounts(account, o);
        assert Other(k, account) == o;
      }
    }

    /** `unread_messages`: per channel (by name) and per chat of `account`
        (by the other party) how many messages lie past the account's cursor
        and what the cursor is; thread entries are never produced. The
        count's `usize` subtraction traps when a cursor sits on an empty
        log, in any channel or in a chat of the account. */
    function UnreadMessages(account: AccountId): (r: Result<UnreadMessageInfo>)
      requires Valid()
      reads this
      ensures r.Err? <==>
                || (exists g :: g in channels && CursorOnEmpty(channels[g], account))
                || (exists k :: k in chats && (k.0 == account || k.1 == account) && CursorOnEmpty(chats[k], account))
      ensures r.Ok? ==> r.value.channels == ChannelSummaries(account)
      ensures r.Ok? ==> r.value.chats == ChatSummaries(account)
      ensures r.Ok? ==> r.value.threads == map[]
    {
      if exists g :: g in channels && CursorOnEmpty(channels[g], account) then Err(ArithmeticOverflow)
      else if exists k :: k in chats && (k.0 == account || k.1 == account) && CursorOnEmpty(chats[k], account)
      then Err(ArithmeticOverflow)
      else Ok(UnreadMessageInfo(ChannelSummaries(account), ChatSummaries(account), map[]))
    }

    /** `get_groups`: the channels of an account (none when it has no
        channel view), or every channel. */
    function GetGroups(account: Option<AccountId>): (r: set<Channel>)
      requires Valid()
      reads this
      ensures account.None? ==> r == channels.Keys
      ensures r <= channels.Keys
      ensures account.Some? ==> forall g :: g in r <==> g in channelMembers && account.value in channelMembers[g]
    {
      if account.None? then channels.Keys
      else if account.value in memberChannels then memberChannels[account.value]
      else {}
    }

    /** `channel_info`: who created a channel and when. */
    function ChannelInfoOf(group: Channel): (r: Option<ChannelMetadata>)
      reads this
      ensures r.Some? <==> group in channels
      ensures r.Some? ==> r.value == channels[group].meta
    {
      if group in channels then Some(channels[group].meta) else None
    }
  }
}
