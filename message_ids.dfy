/** `get_message_id`: a message id is the lower-case hex rendering of the
    SHA-256 digest of target, sender, text and big-endian timestamp, in that
    order. The digest is the host function `env::sha256`, passed in as an
    arbitrary function; the byte string it digests and the hex rendering are
    modelled exactly. */
module MessageIds {
  import opened Types

  /** UTF-8 encoding of one character (Rust `as_bytes` on a `str`). */
  function Utf8Char(c: char): (b: Bytes)
    ensures 1 <= |b| <= 4
    ensures |b| == 1 <==> (c as int) < 0x80
  {
    var n := c as int;
    if n < 0x80 then [n as u8]
    else if n < 0x800 then [(0xC0 + n / 0x40) as u8, (0x80 + n % 0x40) as u8]
    else if n < 0x1_0000 then
      [(0xE0 + n / 0x1000) as u8, (0x80 + n / 0x40 % 0x40) as u8, (0x80 + n % 0x40) as u8]
    else
      [(0xF0 + n / 0x4_0000) as u8, (0x80 + n / 0x1000 % 0x40) as u8,
       (0x80 + n / 0x40 % 0x40) as u8, (0x80 + n % 0x40) as u8]
  }

  /** UTF-8 encoding of a string. */
  function Utf8(s: string): Bytes
  {
    if s == [] then [] else Utf8Char(s[0]) + Utf8(s[1..])
  }

  /** Every character takes one to four bytes, so only the empty string
      encodes to nothing. */
  lemma {:induction false} Utf8Length(s: string)
    ensures |s| <= |Utf8(s)| <= 4 * |s|
    ensures Utf8(s) == [] <==> s == []
  {
    if s != [] {
      Utf8Length(s[1..]);
    }
  }

  /** Encoding a concatenation encodes the parts one after the other. */
  lemma {:induction false} Utf8Append(s: string, t: string)
    ensures Utf8(s + t) == Utf8(s) + Utf8(t)
  {
    if s == [] {
      assert s + t == t;
    } else {
      assert (s + t)[0] == s[0] && (s + t)[1..] == s[1..] + t;
      Utf8Append(s[1..], t);
      calc {
        Utf8(s + t);
        Utf8Char(s[0]) + Utf8(s[1..] + t);
        Utf8Char(s[0]) + (Utf8(s[1..]) + Utf8(t));
        (Utf8Char(s[0]) + Utf8(s[1..])) + Utf8(t);
      }
    }
  }

  function Pow256(n: nat): (p: nat)
    ensures p > 0
  {
    if n == 0 then 1 else 256 * Pow256(n - 1)
  }

  /** The `width` low-order bytes of `x`, most significant first. */
  function BigEndian(x: nat, width: nat): (b: Bytes)
    ensures |b| == width
  {
    if width == 0 then [] else BigEndian(x / 256, width - 1) + [(x % 256) as u8]
  }

  /** The number a big-endian byte string denotes. */
  function FromBigEndian(b: Bytes): nat
  {
    if b == [] then 0 else FromBigEndian(b[..|b| - 1]) * 256 + b[|b| - 1] as nat
  }

  lemma {:induction false} BigEndianRoundTrip(x: nat, width: nat)
    requires x < Pow256(width)
    ensures FromBigEndian(BigEndian(x, width)) == x
  {
    if width > 0 {
      var b := BigEndian(x, width);
      assert b[..|b| - 1] == BigEndian(x / 256, width - 1);
      assert x / 256 < Pow256(width - 1);
      BigEndianRoundTrip(x / 256, width - 1);
    }
  }

  /** `u64::to_be_bytes`. */
  function ToBeBytes(t: u64): (b: Bytes)
    ensures |b| == 8
  {
    BigEndian(t as nat, 8)
  }

  /** The eight bytes give the timestamp back. */
  lemma ToBeBytesRoundTrip(t: u64)
    ensures FromBigEndian(ToBeBytes(t)) == t as nat
  {
    assert Pow256(1) == 0x100;
    assert Pow256(2) == 0x1_0000;
    assert Pow256(3) == 0x100_0000;
    assert Pow256(4) == 0x1_0000_0000;
    assert Pow256(5) == 0x100_0000_0000;
    assert Pow256(6) == 0x1_0000_0000_0000;
    assert Pow256(7) == 0x100_0000_0000_0000;
    assert Pow256(8) == 0x1_0000_0000_0000_0000;
    BigEndianRoundTrip(t as nat, 8);
  }

  predicate IsLowerHex(c: char)
  {
    '0' <= c <= '9' || 'a' <= c <= 'f'
  }

  /** The `{:x}` digit of a nibble. */
  function HexDigit(d: nat): (c: char)
    requires d < 16
    ensures IsLowerHex(c)
  {
    if d < 10 then ('0' as int + d) as char else ('a' as int + d - 10) as char
  }

  /** `{:02x}` of one byte: two digits, high nibble first. */
  function HexByte(b: u8): string
  {
    [HexDigit(b as nat / 16), HexDigit(b as nat % 16)]
  }

  /** The rendering `get_message_id` builds: every byte as two lower-case hex
      digits, in order. */
  function Hex(b: Bytes): (s: string)
    ensures |s| == 2 * |b|
    ensures forall i :: 0 <= i < |s| ==> IsLowerHex(s[i])
  {
    if b == [] then "" else Hex(b[..|b| - 1]) + HexByte(b[|b| - 1])
  }

  /** The nibble a lower-case hex digit stands for. */
  function HexValue(c: char): Option<nat>
  {
    if '0' <= c <= '9' then Some(c as int - '0' as int)
    else if 'a' <= c <= 'f' then Some(c as int - 'a' as int + 10)
    else None
  }

  /** Reads a hex rendering back; `None` on an odd length or a foreign digit. */
  function HexDecode(s: string): Option<Bytes>
  {
    if |s| == 0 then Some([])
    else if |s| == 1 then None
    else
      match (HexDecode(s[..|s| - 2]), HexValue(s[|s| - 2]), HexValue(s[|s| - 1]))
      case (Some(prefix), Some(hi), Some(lo)) =>
        if hi < 16 && lo < 16 then Some(prefix + [(hi * 16 + lo) as u8]) else None
      case _ => None
  }

  /** The rendering loses nothing: distinct digests give distinct ids. */
  lemma {:induction false} HexRoundTrip(b: Bytes)
    ensures HexDecode(Hex(b)) == Some(b)
  {
    if b != [] {
      var s := Hex(b);
      var last := b[|b| - 1];
      assert s[..|s| - 2] == Hex(b[..|b| - 1]);
      HexRoundTrip(b[..|b| - 1]);
      assert HexValue(s[|s| - 2]) == Some(last as nat / 16);
      assert HexValue(s[|s| - 1]) == Some(last as nat % 16);
      assert b[..|b| - 1] + [last] == b;
    }
  }

  /** The loop of `get_message_id`: `write!(s, "{:02x}", b)` for each byte. */
  method HexEncode(bytes: Bytes) returns (s: string)
    ensures s == Hex(bytes)
  {
    s := "";
    for i := 0 to |bytes|
      invariant s == Hex(bytes[..i])
    {
      assert bytes[..i + 1][..i] == bytes[..i];
      s := s + HexByte(bytes[i]);
    }
    assert bytes[..|bytes|] == bytes;
  }

  /** The byte string that is digested: target, sender, text, then the
      timestamp as eight big-endian bytes, with no separators. */
  function Preimage(target: string, sender: AccountId, text: string, timestamp: u64): Bytes
  {
    Utf8(target) + Utf8(sender) + Utf8(text) + ToBeBytes(timestamp)
  }

  /** The digested bytes end with the eight timestamp bytes, which give the
      timestamp back; everything before them is the three encoded fields. */
  lemma PreimageEndsWithTimestamp(target: string, sender: AccountId, text: string, timestamp: u64)
    ensures var b := Preimage(target, sender, text, timestamp);
      && |b| >= 8 && FromBigEndian(b[|b| - 8..]) == timestamp as nat
      && b[..|b| - 8] == Utf8(target) + Utf8(sender) + Utf8(text)
  {
    var fields := Utf8(target) + Utf8(sender) + Utf8(text);
    ToBeBytesRoundTrip(timestamp);
    assert (fields + ToBeBytes(timestamp))[|fields|..] == ToBeBytes(timestamp);
    assert (fields + ToBeBytes(timestamp))[..|fields|] == fields;
  }

  /** The id of a message, as a function of what it hashes. */
  function MessageIdOf(sha256: Bytes -> Bytes, target: string, sender: AccountId, text: string, timestamp: u64): MessageId
  {
    Hex(sha256(Preimage(target, sender, text, timestamp)))
  }

  /** An id is two lower-case hex digits per digest byte and decodes back to
      the digest of its fields. */
  lemma MessageIdDecodes(sha256: Bytes -> Bytes, target: string, sender: AccountId, text: string, timestamp: u64)
    ensures var id := MessageIdOf(sha256, target, sender, text, timestamp);
      && |id| == 2 * |sha256(Preimage(target, sender, text, timestamp))|
      && (forall i :: 0 <= i < |id| ==> IsLowerHex(id[i]))
      && HexDecode(id) == Some(sha256(Preimage(target, sender, text, timestamp)))
  {
    HexRoundTrip(sha256(Preimage(target, sender, text, timestamp)));
  }

  /** What is hashed as the target: the other account when one is given,
      otherwise the group's name. */
  function Target(account: Option<AccountId>, group: Option<Channel>): string
    requires account.Some? || group.Some?
  {
    if account.Some? then account.value else group.value.name
  }

  /** `get_message_id`. The source unwraps the group when no account is given,
      so a call with neither panics. */
  method GetMessageId(sha256: Bytes -> Bytes, account: AccountId, other: Option<AccountId>,
                      group: Option<Channel>, message: string, timestamp: u64)
    returns (r: Result<MessageId>)
    ensures r == if other.None? && group.None? then Err(MissingTarget)
                 else Ok(MessageIdOf(sha256, Target(other, group), account, message, timestamp))
    ensures r.Ok? ==> |r.value| == 2 * |sha256(Preimage(Target(other, group), account, message, timestamp))|
    ensures r.Ok? ==> forall i :: 0 <= i < |r.value| ==> IsLowerHex(r.value[i])
  {
    var targetBytes: Bytes;
    if other.Some? {
      targetBytes := Utf8(other.value);
    } else if group.Some? {
      targetBytes := Utf8(group.value.name);
    } else {
      return Err(MissingTarget);
    }
    var bytes := sha256(targetBytes + Utf8(account) + Utf8(message) + ToBeBytes(timestamp));
    var s := HexEncode(bytes);
    r := Ok(s);
  }

  /** Two ids are equal exactly when the two digests are: the hex rendering
      neither merges nor splits ids. */
  lemma MessageIdsEqualIffDigestsEqual(sha256: Bytes -> Bytes,
                                       t1: string, s1: AccountId, x1: string, ts1: u64,
                                       t2: string, s2: AccountId, x2: string, ts2: u64)
    ensures MessageIdOf(sha256, t1, s1, x1, ts1) == MessageIdOf(sha256, t2, s2, x2, ts2)
        <==> sha256(Preimage(t1, s1, x1, ts1)) == sha256(Preimage(t2, s2, x2, ts2))
  {
    HexRoundTrip(sha256(Preimage(t1, s1, x1, ts1)));
    HexRoundTrip(sha256(Preimage(t2, s2, x2, ts2)));
  }

  /** The fields are concatenated without separators, so moving characters
      from the front of the sender to the end of the target hashes the same
      bytes: such two messages get the same id whatever the digest. */
  lemma BoundaryShiftSameId(sha256: Bytes -> Bytes, target: string, shifted: string,
                            sender: AccountId, text: string, timestamp: u64)
    ensures MessageIdOf(sha256, target + shifted, sender, text, timestamp)
         == MessageIdOf(sha256, target, shifted + sender, text, timestamp)
  {
    BoundaryShiftSamePreimage(target, shifted, sender, text, timestamp);
  }

  lemma BoundaryShiftSamePreimage(target: string, shifted: string, sender: AccountId, text: string,
                                  timestamp: u64)
    ensures Preimage(target + shifted, sender, text, timestamp)
         == Preimage(target, shifted + sender, text, timestamp)
  {
    var t, m, s := Utf8(target), Utf8(shifted), Utf8(sender);
    Utf8Append(target, shifted);
    Utf8Append(shifted, sender);
    RegroupFields(t, m, s, Utf8(text), ToBeBytes(timestamp));
  }

  /** Moving the middle piece across the first boundary of a five-piece
      concatenation. */
  lemma RegroupFields(t: Bytes, m: Bytes, s: Bytes, x: Bytes, d: Bytes)
    ensures (t + m) + s + x + d == t + (m + s) + x + d
  {
    assert (t + m) + s == t + (m + s);
  }
}
