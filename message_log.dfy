/** The ordered message log of a channel, a chat or a thread: insertion at the
    `binary_search` position, the reverse scan `find_message_pos`, and the
    unread count `unread_messages` derives from a reader's cursor. */
module MessageLog {
  import opened Types
  import opened Ordering

  /** Non-decreasing under the derived `Ord` of `Message`. */
  ghost predicate Sorted(s: seq<Message>)
  {
    forall i, j :: 0 <= i < j < |s| ==> MessageLe(s[i], s[j])
  }

  /** Where a sorted log receives `m`: before the first message not less than
      it. The reference definition every insertion is checked against. */
  function Insert(s: seq<Message>, m: Message): (r: seq<Message>)
    ensures multiset(r) == multiset(s) + multiset{m}
  {
    if s == [] then [m]
    else if MessageLess(s[0], m) then
      assert s == [s[0]] + s[1..];
      [s[0]] + Insert(s[1..], m)
    else [m] + s
  }

  /** The old messages keep their relative order: exactly one message is
      spliced in. */
  lemma {:induction false} InsertShape(s: seq<Message>, m: Message)
    ensures exists k :: 0 <= k <= |s| && Insert(s, m) == s[..k] + [m] + s[k..]
  {
    if s == [] {
      assert Insert(s, m) == s[..0] + [m] + s[0..];
    } else if MessageLess(s[0], m) {
      InsertShape(s[1..], m);
      var k :| 0 <= k <= |s[1..]| && Insert(s[1..], m) == s[1..][..k] + [m] + s[1..][k..];
      assert Insert(s, m) == s[..k + 1] + [m] + s[k + 1..];
    } else {
      assert Insert(s, m) == s[..0] + [m] + s[0..];
    }
  }

  /** Insertion keeps a log sorted. */
  lemma {:induction false} InsertSorted(s: seq<Message>, m: Message)
    requires Sorted(s)
    ensures Sorted(Insert(s, m))
  {
    if s != [] {
      MessageTrichotomy(s[0], m);
      if MessageLess(s[0], m) {
        InsertSorted(s[1..], m);
        var r := Insert(s, m);
        forall i, j | 0 <= i < j < |r| ensures MessageLe(r[i], r[j]) {
          if i == 0 {
            var x := r[j];
            assert x == Insert(s[1..], m)[j - 1];
            assert x in multiset(Insert(s[1..], m));
            if x != m {
              assert x in multiset(s[1..]);
              var k :| 0 <= k < |s[1..]| && s[1..][k] == x;
              assert s[k + 1] == x;
            }
          }
        }
      } else {
        forall j | 0 <= j < |s| ensures MessageLe(m, s[j]) {
          MessageLeTransitive(m, s[0], s[j]);
        }
      }
    }
  }

  /** Splicing `m` in anywhere between the messages below it and the messages
      above it gives the reference insertion: all such places differ only
      among messages equal to `m`. */
  lemma {:induction false} SpliceIsInsert(s: seq<Message>, m: Message, pos: nat)
    requires Sorted(s) && pos <= |s|
    requires forall i :: 0 <= i < pos ==> MessageLe(s[i], m)
    requires forall i :: pos <= i < |s| ==> MessageLe(m, s[i])
    ensures s[..pos] + [m] + s[pos..] == Insert(s, m)
  {
    if s == [] {
    } else if 0 < pos && MessageLess(s[0], m) {
      SpliceIsInsert(s[1..], m, pos - 1);
      SpliceCons(s, m, pos);
    } else {
      SpliceAtFront(s, m, pos);
    }
  }

  /** Splicing past the first message keeps that message in front. */
  lemma SpliceCons(s: seq<Message>, m: Message, pos: nat)
    requires 0 < pos <= |s|
    ensures s[..pos] + [m] + s[pos..] == [s[0]] + (s[1..][..pos - 1] + [m] + s[1..][pos - 1..])
  {
    assert s[..pos] == [s[0]] + s[1..][..pos - 1];
    assert s[pos..] == s[1..][pos - 1..];
  }

  /** When the first message is not below `m`, every message before the
      splice point equals `m`, so the splice is `m` in front. */
  lemma SpliceAtFront(s: seq<Message>, m: Message, pos: nat)
    requires Sorted(s) && 0 < |s| && pos <= |s|
    requires forall i :: 0 <= i < pos ==> MessageLe(s[i], m)
    requires forall i :: pos <= i < |s| ==> MessageLe(m, s[i])
    requires !(0 < pos && MessageLess(s[0], m))
    ensures !MessageLess(s[0], m)
    ensures s[..pos] + [m] + s[pos..] == [m] + s
  {
    if pos == 0 {
      MessageTrichotomy(s[0], m);
      assert s[..pos] == [];
    } else {
      forall i | 0 <= i < pos ensures s[i] == m {
        MessageLeTransitive(m, s[0], s[i]);
        MessageTrichotomy(s[i], m);
      }
      assert s[..pos] + [m] == [m] + s[..pos];
      assert s == s[..pos] + s[pos..];
    }
  }

  /** `slice::binary_search` on a sorted log: `found` with the index of an
      equal message (`Ok`), or the index where `m` belongs (`Err`). */
  method BinarySearch(s: seq<Message>, m: Message) returns (found: bool, pos: nat)
    requires Sorted(s)
    ensures pos <= |s|
    ensures found ==> pos < |s| && s[pos] == m
    ensures !found ==> forall i :: 0 <= i < pos ==> MessageLess(s[i], m)
    ensures !found ==> forall i :: pos <= i < |s| ==> MessageLess(m, s[i])
  {
    var lo, hi := 0, |s|;
    while lo < hi
      invariant 0 <= lo <= hi <= |s|
      invariant forall i :: 0 <= i < lo ==> MessageLess(s[i], m)
      invariant forall i :: hi <= i < |s| ==> MessageLess(m, s[i])
    {
      var mid := (lo + hi) / 2;
      MessageTrichotomy(s[mid], m);
      if MessageLess(s[mid], m) {
        forall i | 0 <= i <= mid ensures MessageLess(s[i], m) {
          if i < mid && s[i] != s[mid] { MessageLessTransitive(s[i], s[mid], m); }
        }
        lo := mid + 1;
      } else if MessageLess(m, s[mid]) {
        forall i | mid <= i < |s| ensures MessageLess(m, s[i]) {
          if mid < i && s[mid] != s[i] { MessageLessTransitive(m, s[mid], s[i]); }
        }
        hi := mid;
      } else {
        return true, mid;
      }
    }
    return false, lo;
  }

  /** `let pos = log.binary_search(&m).unwrap_or_else(|e| e); log.insert(pos, m)`,
      on either outcome of the search. */
  method InsertMessage(s: seq<Message>, m: Message) returns (r: seq<Message>)
    requires Sorted(s)
    ensures r == Insert(s, m)
    ensures Sorted(r)
  {
    var found, pos := BinarySearch(s, m);
    if found {
      forall i | 0 <= i < pos ensures MessageLe(s[i], m) { }
      forall i | pos <= i < |s| ensures MessageLe(m, s[i]) { }
    } else {
      forall i | 0 <= i < pos ensures MessageLe(s[i], m) { }
    }
    SpliceIsInsert(s, m, pos);
    r := s[..pos] + [m] + s[pos..];
    InsertSorted(s, m);
  }

  /** When `m` is not older than anything in the log it lands at the end. */
  lemma {:induction false} InsertNewest(s: seq<Message>, m: Message)
    requires Sorted(s)
    requires forall i :: 0 <= i < |s| ==> MessageLe(s[i], m)
    ensures Insert(s, m) == s + [m]
  {
    SpliceIsInsert(s, m, |s|);
    assert s[|s|..] == [];
  }

  /** `find_message_pos`: scanning from the end, the index of the last message
      with this id, or 0 when none has it. */
  function FindMessagePos(messages: seq<Message>, id: MessageId): (pos: nat)
    ensures messages == [] ==> pos == 0
    ensures messages != [] ==> pos < |messages|
    ensures (exists i :: 0 <= i < |messages| && messages[i].id == id) ==>
              messages[pos].id == id && forall j :: pos < j < |messages| ==> messages[j].id != id
    ensures (forall i :: 0 <= i < |messages| ==> messages[i].id != id) ==> pos == 0
  {
    if messages == [] then 0
    else if messages[|messages| - 1].id == id then |messages| - 1
    else FindMessagePos(messages[..|messages| - 1], id)
  }

  /** `find_last_seen_pos`: one past the reader's cursor, 0 without one. */
  function FindLastSeenPos(info: ChannelInfo, account: AccountId): (r: nat)
    ensures r == 0 <==> account !in info.lastRead
    ensures info.messages != [] ==> r <= |info.messages|
    ensures account in info.lastRead && info.messages == [] ==> r == 1
  {
    if account in info.lastRead then FindMessagePos(info.messages, info.lastRead[account]) + 1 else 0
  }

  /** `messages.len() - find_last_seen_pos(..)`: the reader's unread count. The
      `usize` subtraction traps when a cursor exists on an empty log. */
  function UnreadCount(info: ChannelInfo, account: AccountId): (r: Result<nat>)
    ensures r.Err? <==> account in info.lastRead && info.messages == []
    ensures account !in info.lastRead ==> r == Ok(|info.messages|)
    ensures r.Ok? ==> r.value <= |info.messages|
  {
    var seen := FindLastSeenPos(info, account);
    if seen <= |info.messages| then Ok(|info.messages| - seen) else Err(ArithmeticOverflow)
  }

  /** A reader whose cursor is on the last message has nothing unread. */
  lemma ReadToEndNothingUnread(info: ChannelInfo, account: AccountId)
    requires info.messages != []
    requires account in info.lastRead && info.lastRead[account] == info.messages[|info.messages| - 1].id
    ensures UnreadCount(info, account) == Ok(0)
  {
  }

  /** With a cursor on a message of the log, the count is the number of
      messages after the last one with that id. */
  lemma UnreadAfterCursor(info: ChannelInfo, account: AccountId, k: nat)
    requires k < |info.messages| && account in info.lastRead
    requires info.messages[k].id == info.lastRead[account]
    requires forall j :: k < j < |info.messages| ==> info.messages[j].id != info.lastRead[account]
    ensures UnreadCount(info, account) == Ok(|info.messages| - 1 - k)
  {
  }

  /** A cursor naming no message of a non-empty log reads as "the first
      message was read": one message fewer than the log is counted. */
  lemma StaleCursorUndercounts(info: ChannelInfo, account: AccountId)
    requires info.messages != [] && account in info.lastRead
    requires forall i :: 0 <= i < |info.messages| ==> info.messages[i].id != info.lastRead[account]
    ensures UnreadCount(info, account) == Ok(|info.messages| - 1)
  {
  }
}
