/** Value types of the `Curb` messaging contract: integer widths, account and
    message identifiers, channels, messages, per-conversation state and the
    query result records. */
module Types {

  /** Rust `u64`: message timestamps and block times in milliseconds. */
  newtype u64 = x: int | 0 <= x < 0x1_0000_0000_0000_0000

  /** One past the largest Rust `usize` on the 32-bit wasm target a NEAR
      contract is compiled for. */
  const USIZE_LIMIT: nat := 0x1_0000_0000

  /** Rust `usize` on that target: the `offset` and `length` of a page. */
  newtype usize = x: int | 0 <= x < 0x1_0000_0000

  /** One byte of a UTF-8 encoding or of a digest. */
  newtype u8 = x: int | 0 <= x < 256

  type Bytes = seq<u8>

  /** NEAR account ids; compared like Rust strings. */
  type AccountId = string

  /** Lower-case hex rendering of a message digest. */
  type MessageId = string

  datatype Option<T> = None | Some(value: T)

  /** A named group conversation (the Rust struct `Channel { name }`). */
  datatype Channel = Channel(name: string)

  /** The default channel every member joins. */
  const General: Channel := Channel("general")

  /** Field order matters: the derived `Ord` compares these lexicographically
      in this order. */
  datatype Message = Message(timestamp: u64, sender: AccountId, id: MessageId, text: string)

  datatype ChannelMetadata = ChannelMetadata(createdAt: u64, createdBy: AccountId)

  /** The state of one channel or one two-party chat: its ordered message log,
      its visibility, who created it and when, and each reader's cursor. */
  datatype ChannelInfo = ChannelInfo(
    messages: seq<Message>,
    isPublic: bool,
    meta: ChannelMetadata,
    lastRead: map<AccountId, MessageId>)

  /** The state a freshly created channel (`isPublic`) or chat starts in. */
  function NewChannelInfo(isPublic: bool, now: u64, creator: AccountId): ChannelInfo
  {
    ChannelInfo([], isPublic, ChannelMetadata(now, creator), map[])
  }

  /** Why a call was rejected. Every failure aborts the whole call and the host
      discards all of its writes. */
  datatype ErrorKind =
    | AlreadyMember       // "Already a member"
    | NameTooShort        // "Group name too short!"
    | GroupExists         // "Group already exists"
    | GroupDoesNotExist   // "Group does not exist"
    | NotAMember          // "Not a member"
    | OtherNotAMember     // "Other account is not a member"
    | NotAGroupMember     // "Not a group member"
    | MissingTarget       // neither an account nor a group was given
    | MissingEntry        // `unwrap()` on a map lookup that found nothing
    | ArithmeticOverflow  // an unsigned add or subtract that traps
    | SliceOutOfRange     // `messages[start..end]` with start > end

  /** The result of an entry point that returns nothing on success. */
  datatype Outcome = Pass | Fail(error: ErrorKind)

  datatype Result<T> = Ok(value: T) | Err(error: ErrorKind)

  /** A message decorated with its reactions: label to the set of reactors,
      absent when the message has no reaction entry at all. */
  datatype MessageWithReactions = MessageWithReactions(
    id: MessageId,
    text: string,
    timestamp: u64,
    sender: AccountId,
    reactions: Option<map<string, set<AccountId>>>)

  /** A message decorated with its reactions and its (decorated) thread replies. */
  datatype MessageWithReactionsAndThread = MessageWithReactionsAndThread(
    id: MessageId,
    text: string,
    timestamp: u64,
    sender: AccountId,
    reactions: Option<map<string, set<AccountId>>>,
    thread: seq<MessageWithReactions>)

  datatype UnreadMessage = UnreadMessage(count: nat, lastSeen: Option<MessageId>)

  /** Unread summary of one account: channels by name, chats by the other
      party, threads by parent id. */
  datatype UnreadMessageInfo = UnreadMessageInfo(
    channels: map<string, UnreadMessage>,
    chats: map<AccountId, UnreadMessage>,
    threads: map<MessageId, UnreadMessage>)
}
