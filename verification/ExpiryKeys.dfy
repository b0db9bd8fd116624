/** The keys of an expiry index, which put the time in front of a suffix so that byte order is time
    order. */
module ExpiryKeys {
  import opened Wrappers
  import opened Bytes

  const U64_MAX: nat := 0xFFFF_FFFF_FFFF_FFFF

  function Power256(w: nat): (p: nat)
    ensures p > 0
  {
    if w == 0 then 1 else 256 * Power256(w - 1)
  }

  /** The low `w` bytes of a number, most significant first. */
  function BigEndian(n: nat, w: nat): (bytes: Key)
    ensures |bytes| == w
  {
    if w == 0 then [] else BigEndian(n / 256, w - 1) + [n % 256]
  }

  function FromBigEndian(bytes: Key): nat {
    if bytes == [] then 0 else FromBigEndian(bytes[..|bytes| - 1]) * 256 + bytes[|bytes| - 1]
  }

  lemma {:induction false} BigEndianRoundTrip(n: nat, w: nat)
    requires n < Power256(w)
    ensures FromBigEndian(BigEndian(n, w)) == n
  {
    if w != 0 {
      var high, low := n / 256, n % 256;
      assert n == high * 256 + low;
      BigEndianRoundTrip(high, w - 1);
      var bytes := BigEndian(n, w);
      assert bytes[..w - 1] == BigEndian(high, w - 1) && bytes[w - 1] == low;
    }
  }

  lemma {:induction false} FromBigEndianRoundTrip(bytes: Key)
    ensures FromBigEndian(bytes) < Power256(|bytes|)
    ensures BigEndian(FromBigEndian(bytes), |bytes|) == bytes
  {
    if bytes != [] {
      var w := |bytes| - 1;
      FromBigEndianRoundTrip(bytes[..w]);
      assert bytes == bytes[..w] + [bytes[w]];
    }
  }

  /** Big-endian bytes sort as the numbers do. */
  lemma {:induction false} BigEndianOrder(a: nat, b: nat, w: nat)
    requires a < Power256(w) && b < Power256(w)
    ensures Less(BigEndian(a, w), BigEndian(b, w)) <==> a < b
  {
    if w != 0 {
      var x, y := BigEndian(a / 256, w - 1), BigEndian(b / 256, w - 1);
      BigEndianOrder(a / 256, b / 256, w - 1);
      BigEndianRoundTrip(a / 256, w - 1);
      BigEndianRoundTrip(b / 256, w - 1);
      if a / 256 == b / 256 {
        LessCommonPrefix(x, [a % 256], [b % 256]);
      } else {
        LessByPrefix(x, y, [a % 256], [b % 256]);
      }
    }
  }

  lemma U64Width()
    ensures Power256(8) == U64_MAX + 1
  {
    assert Power256(4) == 0x1_0000_0000 by {
      assert Power256(2) == 0x1_0000;
    }
    assert Power256(8) == 256 * (256 * (256 * (256 * Power256(4)))) by {
      assert Power256(6) == 256 * (256 * Power256(4));
    }
  }

  function EntryKey(prefix: Key, at: nat, suffix: Key): Key {
    prefix + BigEndian(at, 8) + suffix
  }

  function Parse(prefix: Key, key: Key): Option<(nat, Key)> {
    if !StartsWith(key, prefix) then None
    else
      var rest := key[|prefix|..];
      if |rest| < 8 then None else Some((FromBigEndian(rest[..8]), rest[8..]))
  }

  lemma ParseInvertsEntryKey(prefix: Key, at: nat, suffix: Key)
    requires at <= U64_MAX
    ensures Parse(prefix, EntryKey(prefix, at, suffix)) == Some((at, suffix))
  {
    var key := EntryKey(prefix, at, suffix);
    assert key[|prefix|..] == BigEndian(at, 8) + suffix;
    assert (BigEndian(at, 8) + suffix)[..8] == BigEndian(at, 8);
    U64Width();
    BigEndianRoundTrip(at, 8);
  }

  /** A key parses exactly when it is the key of some entry, and to that entry alone. */
  lemma EntryKeyInvertsParse(prefix: Key, key: Key, at: nat, suffix: Key)
    ensures Parse(prefix, key) == Some((at, suffix)) <==> at <= U64_MAX && key == EntryKey(prefix, at, suffix)
  {
    if Parse(prefix, key) == Some((at, suffix)) {
      var rest := key[|prefix|..];
      FromBigEndianRoundTrip(rest[..8]);
      U64Width();
      assert rest == rest[..8] + rest[8..];
      assert key == prefix + rest;
    } else if at <= U64_MAX && key == EntryKey(prefix, at, suffix) {
      ParseInvertsEntryKey(prefix, at, suffix);
    }
  }

  /** Entry keys sort by time and then by suffix. */
  lemma EntryKeyOrder(prefix: Key, a: nat, s: Key, b: nat, t: Key)
    requires a <= U64_MAX && b <= U64_MAX
    ensures Less(EntryKey(prefix, a, s), EntryKey(prefix, b, t)) <==> a < b || (a == b && Less(s, t))
  {
    var x, y := BigEndian(a, 8), BigEndian(b, 8);
    assert EntryKey(prefix, a, s) == prefix + (x + s) && EntryKey(prefix, b, t) == prefix + (y + t);
    LessCommonPrefix(prefix, x + s, y + t);
    U64Width();
    BigEndianOrder(a, b, 8);
    if a == b {
      LessCommonPrefix(x, s, t);
    } else {
      BigEndianRoundTrip(a, 8);
      BigEndianRoundTrip(b, 8);
      LessByPrefix(x, y, s, t);
    }
  }

  /** A scan from the key of a time has exactly the entries at that time or later. */
  lemma ScanStart(prefix: Key, from: nat, at: nat, suffix: Key)
    requires from <= U64_MAX && at <= U64_MAX
    ensures AtMost(EntryKey(prefix, from, []), EntryKey(prefix, at, suffix)) <==> from <= at
  {
    EntryKeyOrder(prefix, from, [], at, suffix);
    if from == at && suffix == [] {
      assert EntryKey(prefix, from, []) == EntryKey(prefix, at, suffix);
    } else if EntryKey(prefix, from, []) == EntryKey(prefix, at, suffix) {
      ParseInvertsEntryKey(prefix, from, []);
      ParseInvertsEntryKey(prefix, at, suffix);
    }
  }
}
