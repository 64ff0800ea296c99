/** Short call sequences on a fresh contract, with what each one ends in. */
module Scenarios {
  import opened Types
  import opened MessageIds
  import opened MessageLog
  import opened Contract

  /** The first `join` creates "general"; both joiners end up in it and it is
      the only channel either of them has. */
  method TwoMembersJoin(sha256: Bytes -> Bytes) returns (groups: set<Channel>, inGeneral: set<AccountId>)
    ensures groups == {General}
    ensures inGeneral == {"alice", "bob"}
  {
    var c := new Curb("curb", 0, sha256);
    var first := c.Join("alice", 1);
    assert first == Pass;
    var second := c.Join("bob", 2);
    assert second == Pass;
    groups := c.GetGroups(Some("bob"));
    inGeneral := c.channelMembers[General];
  }

  /** A reaction toggled before anybody joined registers its author as a
      member, so the next `join` no longer creates "general" and fails: no
      account can join this contract any more. */
  method ReactionBeforeFirstJoin(sha256: Bytes -> Bytes) returns (r: Outcome)
    ensures r == Fail(GroupDoesNotExist)
  {
    var c := new Curb("curb", 0, sha256);
    c.ToggleReaction("alice", "00", "+1");
    r := c.Join("bob", 1);
  }

  /** Before any `join` there is no channel, so an invitation fails and
      its caller is not registered. */
  method InviteBeforeFirstJoin(sha256: Bytes -> Bytes) returns (r: Outcome, registered: set<AccountId>)
    ensures r == Fail(GroupDoesNotExist)
    ensures registered == {}
  {
    var c := new Curb("curb", 0, sha256);
    r := c.GroupInvite("alice", General, "bob");
    registered := c.members;
  }

  /** An account that reacted before joining is registered without a channel
      view. From then on it can neither join, nor enter a channel, nor create
      one, nor be invited: it never gets into any channel. */
  method ReactorLockedOut(sha256: Bytes -> Bytes, member: AccountId, reactor: AccountId, now: u64)
    returns (join: Outcome, joinGroup: Outcome, create: Outcome, invited: Outcome, groups: set<Channel>)
    requires member != reactor
    ensures join == Fail(AlreadyMember)
    ensures joinGroup == Fail(MissingEntry)
    ensures create == Fail(MissingEntry)
    ensures invited == Fail(MissingEntry)
    ensures groups == {}
  {
    var c := new Curb("curb", now, sha256);
    var first := c.Join(member, now);
    assert first == Pass;
    c.ToggleReaction(reactor, "00", "+1");
    assert reactor in c.members && reactor !in c.memberChannels;
    join := c.Join(reactor, now);
    joinGroup := c.JoinGroup(reactor, General);
    create := c.CreateGroup(reactor, Channel("side"), now);
    invited := c.GroupInvite(member, General, reactor);
    groups := c.GetGroups(Some(reactor));
  }

  /** The first message of an empty log is the whole log. */
  lemma FirstPost(info: ChannelInfo, m: Message)
    requires info.messages == []
    ensures Posted(info, m).messages == [m]
  {
  }

  /** Two accounts join, then the first posts `text` to "general". */
  method PostToGeneral(sha256: Bytes -> Bytes, poster: AccountId, reader: AccountId, text: string, now: u64)
    returns (c: Curb, ghost posted: ChannelInfo)
    requires poster != reader
    ensures fresh(c) && c.Valid()
    ensures c.channels.Keys == {General} && c.channels[General] == posted && c.chats == map[]
    ensures |posted.messages| == 1
    ensures poster in posted.lastRead && posted.lastRead[poster] == posted.messages[0].id
    ensures reader !in posted.lastRead
  {
    c := new Curb("curb", 0, sha256);
    var first := c.Join(poster, now);
    var second := c.Join(reader, now);
    assert second == Pass;
    ghost var before := c.channels[General];
    assert before.messages == [] && reader !in before.lastRead;
    assert c.channels.Keys == {General} && c.chats == map[];
    var sent := c.SendMessage(poster, now, None, Some(General), text, now, None);
    assert sent == Pass;
    ghost var m := Outgoing(sha256, poster, None, Some(General), text, now);
    posted := Posted(before, m);
    FirstPost(before, m);
  }

  /** Posting moves the poster's cursor to the new message, so the poster
      has nothing unread in "general". */
  method PosterHasNothingUnread(sha256: Bytes -> Bytes, poster: AccountId, reader: AccountId, text: string, now: u64)
    returns (count: nat)
    requires poster != reader
    ensures count == 0
  {
    var c, posted := PostToGeneral(sha256, poster, reader, text, now);
    assert !CursorOnEmpty(posted, poster);
    var unread := c.UnreadMessages(poster);
    assert unread.Ok?;
    assert unread.value.channels[General.name] == Summary(posted, poster);
    count := unread.value.channels[General.name].count;
  }

  /** A member who never read "general" has its one message unread. */
  method ReaderHasOneUnread(sha256: Bytes -> Bytes, poster: AccountId, reader: AccountId, text: string, now: u64)
    returns (count: nat)
    requires poster != reader
    ensures count == 1
  {
    var c, posted := PostToGeneral(sha256, poster, reader, text, now);
    assert !CursorOnEmpty(posted, reader);
    var unread := c.UnreadMessages(reader);
    assert unread.Ok?;
    assert unread.value.channels[General.name] == Summary(posted, reader);
    count := unread.value.channels[General.name].count;
  }
}
