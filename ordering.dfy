/** The orders the contract relies on: Rust's string comparison, the derived
    `Ord` on `Message`, and the canonical key of a two-party chat
    (`order_accounts`). */
module Ordering {
  import opened Types

  /** Strict lexicographic order on strings, character by character. Rust
      compares `str` by UTF-8 bytes, and UTF-8 preserves the order of code
      points, so this is the same order. A proper prefix comes first. */
  predicate StrLess(a: string, b: string)
  {
    if |a| == 0 then |b| > 0
    else if |b| == 0 then false
    else if a[0] != b[0] then a[0] < b[0]
    else StrLess(a[1..], b[1..])
  }

  /** Exactly one of a < b, a == b, b < a holds. */
  lemma {:induction false} StrTrichotomy(a: string, b: string)
    ensures !(StrLess(a, b) && StrLess(b, a))
    ensures a == b <==> !StrLess(a, b) && !StrLess(b, a)
  {
    if |a| > 0 && |b| > 0 && a[0] == b[0] {
      StrTrichotomy(a[1..], b[1..]);
      if a[1..] == b[1..] {
        assert a == [a[0]] + a[1..] && b == [b[0]] + b[1..];
      }
    }
  }

  lemma {:induction false} StrLessTransitive(a: string, b: string, c: string)
    requires StrLess(a, b) && StrLess(b, c)
    ensures StrLess(a, c)
  {
    if |a| > 0 && a[0] == b[0] && b[0] == c[0] {
      StrLessTransitive(a[1..], b[1..], c[1..]);
    }
  }

  /** The derived `Ord` of the Rust struct `Message`: lexicographic over
      (timestamp, sender, id, text), strict. */
  predicate MessageLess(m: Message, n: Message)
  {
    || m.timestamp < n.timestamp
    || (m.timestamp == n.timestamp && StrLess(m.sender, n.sender))
    || (m.timestamp == n.timestamp && m.sender == n.sender && StrLess(m.id, n.id))
    || (m.timestamp == n.timestamp && m.sender == n.sender && m.id == n.id && StrLess(m.text, n.text))
  }

  predicate MessageLe(m: Message, n: Message)
  {
    m == n || MessageLess(m, n)
  }

  /** `MessageLess` is a strict total order: two messages compare equal only
      when every field is equal. */
  lemma MessageTrichotomy(m: Message, n: Message)
    ensures !(MessageLess(m, n) && MessageLess(n, m))
    ensures m == n <==> !MessageLess(m, n) && !MessageLess(n, m)
  {
    StrTrichotomy(m.sender, n.sender);
    StrTrichotomy(m.id, n.id);
    StrTrichotomy(m.text, n.text);
  }

  lemma MessageLessTransitive(m: Message, n: Message, o: Message)
    requires MessageLess(m, n) && MessageLess(n, o)
    ensures MessageLess(m, o)
  {
    StrTrichotomy(m.sender, n.sender);
    StrTrichotomy(n.sender, o.sender);
    StrTrichotomy(m.id, n.id);
    StrTrichotomy(n.id, o.id);
    if StrLess(m.sender, n.sender) && StrLess(n.sender, o.sender) {
      StrLessTransitive(m.sender, n.sender, o.sender);
    }
    if StrLess(m.id, n.id) && StrLess(n.id, o.id) {
      StrLessTransitive(m.id, n.id, o.id);
    }
    if StrLess(m.text, n.text) && StrLess(n.text, o.text) {
      StrLessTransitive(m.text, n.text, o.text);
    }
  }

  lemma MessageLeTransitive(m: Message, n: Message, o: Message)
    requires MessageLe(m, n) && MessageLe(n, o)
    ensures MessageLe(m, o)
  {
    if MessageLess(m, n) && MessageLess(n, o) {
      MessageLessTransitive(m, n, o);
    }
  }

  /** `order_accounts`: the key under which the chat between two accounts is
      stored. The first component is the smaller account, the pair is the two
      accounts given. */
  function OrderAccounts(account: AccountId, other: AccountId): (key: (AccountId, AccountId))
    ensures key == (account, other) || key == (other, account)
    ensures !StrLess(key.1, key.0)
  {
    StrTrichotomy(account, other);
    var first := if StrLess(account, other) then account else other;
    var second := if first == other then account else other;
    (first, second)
  }

  /** Either party may open the chat: both orders give the same key. */
  lemma OrderAccountsSymmetric(a: AccountId, b: AccountId)
    ensures OrderAccounts(a, b) == OrderAccounts(b, a)
  {
    StrTrichotomy(a, b);
  }

  /** A key already in canonical order is its own key. */
  lemma OrderAccountsCanonical(a: AccountId, b: AccountId)
    requires !StrLess(b, a)
    ensures OrderAccounts(a, b) == (a, b)
  {
    StrTrichotomy(a, b);
  }
}
