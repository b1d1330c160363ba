/**
 `internal/ids/ids.go`: ULIDs. 48 bits of milliseconds and 80 bits of entropy, encoded as 26
 Crockford base32 characters by shifting two 64-bit words, with a counter that keeps ids
 increasing inside one millisecond.
 */
module Ids {
  import opened Options
  import opened GoStrings

  newtype byte = x: int | 0 <= x < 256
  type Word = x: nat | x < 0x1_0000_0000_0000_0000

  const CROCKFORD := "0123456789ABCDEFGHJKMNPQRSTVWXYZ"
  const ENCODED_LEN: nat := 26
  const TWO48: nat := 0x1_0000_0000_0000
  const TWO64: nat := 0x1_0000_0000_0000_0000
  const TWO80: nat := 0x1_0000_0000_0000_0000_0000

  /** One letter of the alphabet. */
  function Letter(d: nat): char
    requires d < 32
  {
    CROCKFORD[d]
  }

  // ---- Go's word operators ----

  function Or(a: nat, b: nat): nat {
    if a == 0 && b == 0 then 0
    else (if a % 2 == 1 || b % 2 == 1 then 1 else 0) + 2 * Or(a / 2, b / 2)
  }

  function And(a: nat, b: nat): nat {
    if a == 0 || b == 0 then 0
    else (if a % 2 == 1 && b % 2 == 1 then 1 else 0) + 2 * And(a / 2, b / 2)
  }

  ghost function Doubled(x: nat, k: nat): nat {
    if k == 0 then x else 2 * Doubled(x, k - 1)
  }

  /** Or-ing a low part into a value whose low bits are clear adds them. */
  lemma {:induction false} OrAddsDisjoint(low: nat, high: nat, k: nat)
    requires low < Doubled(1, k)
    ensures Or(low, Doubled(high, k)) == low + Doubled(high, k)
    decreases k
  {
    if k == 0 {
      OrZero(high);
    } else {
      OrAddsDisjoint(low / 2, high, k - 1);
    }
  }

  lemma {:induction false} OrZero(b: nat)
    ensures Or(0, b) == b
  {
    if b > 0 {
      OrZero(b / 2);
    }
  }

  lemma DoubledTwelve(x: nat, k: nat)
    ensures Doubled(x, k + 12) == 4096 * Doubled(x, k)
  {
    assert Doubled(x, k + 2) == 4 * Doubled(x, k);
    assert Doubled(x, k + 4) == 4 * Doubled(x, k + 2);
    assert Doubled(x, k + 6) == 4 * Doubled(x, k + 4);
    assert Doubled(x, k + 8) == 4 * Doubled(x, k + 6);
    assert Doubled(x, k + 10) == 4 * Doubled(x, k + 8);
    assert Doubled(x, k + 12) == 4 * Doubled(x, k + 10);
  }

  lemma Doubled59(x: nat)
    ensures Doubled(x, 59) == x * 0x800_0000_0000_0000
  {
    DoubledTwelve(2048 * x, 36);
    DoubledTwelve(2048 * x, 24);
    DoubledTwelve(2048 * x, 12);
    DoubledTwelve(2048 * x, 0);
    DoubledEleven(x, 48);
  }

  lemma {:induction false} DoubledEleven(x: nat, k: nat)
    ensures Doubled(x, k + 11) == Doubled(2048 * x, k)
  {
    if k == 0 {
      assert Doubled(x, 3) == 8 * Doubled(x, 0) by {
        assert Doubled(x, 1) == 2 * x;
      }
      assert Doubled(x, 5) == 4 * Doubled(x, 3);
      assert Doubled(x, 7) == 4 * Doubled(x, 5);
      assert Doubled(x, 9) == 4 * Doubled(x, 7);
      assert Doubled(x, 11) == 4 * Doubled(x, 9);
    } else {
      DoubledEleven(x, k - 1);
    }
  }

  lemma AndHalf(x: nat, m: nat)
    ensures And(x, 2 * m + 1) == x % 2 + 2 * And(x / 2, m)
  {
  }

  /** Masking with 0x1f keeps the low five bits. */
  lemma AndMask(x: nat)
    ensures And(x, 0x1f) == x % 32
  {
    AndHalf(x / 2 / 2 / 2 / 2, 0);
    AndHalf(x / 2 / 2 / 2, 1);
    AndHalf(x / 2 / 2, 3);
    AndHalf(x / 2, 7);
    AndHalf(x, 15);
  }

  // x >> 5 and x << 59 on a 64-bit word: Go drops what is shifted out.
  function Shr5(x: Word): Word {
    x / 32
  }

  function Shl59(x: Word): Word {
    (x * 0x800_0000_0000_0000) % TWO64
  }

  /** One step of the two-word shift divides the 128-bit value by 32. */
  lemma ShiftStep(hi: Word, lo: Word)
    ensures Or(Shr5(lo), Shl59(hi)) < TWO64
    ensures Shr5(hi) * TWO64 + Or(Shr5(lo), Shl59(hi)) == (hi * TWO64 + lo) / 32
    ensures (hi * TWO64 + lo) % 32 == And(lo, 0x1f)
  {
    assert Shl59(hi) == (hi % 32) * 0x800_0000_0000_0000;
    Doubled59(1);
    Doubled59(hi % 32);
    OrAddsDisjoint(Shr5(lo), hi % 32, 59);
    AndMask(lo);
  }

  // ---- numbers, bytes and digits ----

  /** The big-endian value of some bytes. */
  function BigEndian(s: seq<byte>): nat {
    if s == [] then 0 else BigEndian(s[..|s| - 1]) * 256 + s[|s| - 1] as nat
  }

  ghost function Pow(base: nat, k: nat): nat {
    if k == 0 then 1 else base * Pow(base, k - 1)
  }

  /** The low `k` base-32 digits of `n`, most significant first. */
  ghost function Digits(n: nat, k: nat): (ds: seq<nat>)
    ensures |ds| == k && forall i :: 0 <= i < k ==> ds[i] < 32
  {
    if k == 0 then [] else Digits(n / 32, k - 1) + [n % 32]
  }

  ghost function ValueOf(ds: seq<nat>): nat {
    if ds == [] then 0 else ValueOf(ds[..|ds| - 1]) * 32 + ds[|ds| - 1]
  }

  ghost predicate AreDigits(ds: seq<nat>) {
    forall i :: 0 <= i < |ds| ==> ds[i] < 32
  }

  ghost function Chars(ds: seq<nat>): string
    requires AreDigits(ds)
  {
    seq(|ds|, i requires 0 <= i < |ds| => Letter(ds[i]))
  }

  /** The 26 characters that stand for a 128-bit value. */
  ghost function Body(n: nat): string {
    Chars(Digits(n, ENCODED_LEN))
  }

  lemma {:induction false} BigEndianAppend(a: seq<byte>, b: seq<byte>)
    ensures BigEndian(a + b) == BigEndian(a) * Pow(256, |b|) + BigEndian(b)
  {
    if b == [] {
      assert a + b == a;
    } else {
      var b' := b[..|b| - 1];
      assert (a + b)[..|a + b| - 1] == a + b';
      BigEndianAppend(a, b');
      assert BigEndian(a) * Pow(256, |b|) == BigEndian(a) * Pow(256, |b'|) * 256;
    }
  }

  lemma {:induction false} BigEndianBound(s: seq<byte>)
    ensures BigEndian(s) < Pow(256, |s|)
  {
    if s != [] {
      BigEndianBound(s[..|s| - 1]);
    }
  }

  lemma Pow256()
    ensures Pow(256, 8) == TWO64 && Pow(256, 10) == TWO80
  {
    assert Pow(256, 2) == 65536 by {
      assert Pow(256, 1) == 256;
    }
    assert Pow(256, 4) == 65536 * Pow(256, 2);
    assert Pow(256, 6) == 65536 * Pow(256, 4);
    assert Pow(256, 8) == 65536 * Pow(256, 6);
    assert Pow(256, 10) == 65536 * Pow(256, 8);
  }

  lemma {:induction false} DigitsHoldLowPart(n: nat, k: nat)
    ensures ValueOf(Digits(n, k)) < Pow(32, k)
    ensures n < Pow(32, k) ==> ValueOf(Digits(n, k)) == n
  {
    if k > 0 {
      DigitsHoldLowPart(n / 32, k - 1);
      assert Digits(n, k)[..k - 1] == Digits(n / 32, k - 1);
    }
  }

  lemma Pow32()
    ensures Pow(32, 26) == 4 * TWO64 * TWO64 && Pow(32, 16) == TWO80
  {
    assert Pow(32, 2) == 1024 by {
      assert Pow(32, 1) == 32;
    }
    assert Pow(32, 4) == 1024 * Pow(32, 2);
    assert Pow(32, 6) == 1024 * Pow(32, 4);
    assert Pow(32, 8) == 1024 * Pow(32, 6);
    assert Pow(32, 10) == 1024 * Pow(32, 8);
    assert Pow(32, 12) == 1024 * Pow(32, 10);
    assert Pow(32, 14) == 1024 * Pow(32, 12);
    assert Pow(32, 16) == 1024 * Pow(32, 14);
    assert Pow(32, 18) == 1024 * Pow(32, 16);
    assert Pow(32, 20) == 1024 * Pow(32, 18);
    assert Pow(32, 22) == 1024 * Pow(32, 20);
    assert Pow(32, 24) == 1024 * Pow(32, 22);
    assert Pow(32, 26) == 1024 * Pow(32, 24);
  }

  lemma {:induction false} TimesIsMonotone(x: nat, y: nat, p: nat)
    ensures x < y ==> x * p + p <= y * p
    decreases y
  {
    if x < y {
      assert y * p == (y - 1) * p + p;
      TimesIsMonotone(x, y - 1, p);
    }
  }

  // ---- encode ----

  lemma NoDigitsLeft(n: nat)
    ensures Digits(n, 0) == []
  {
  }

  // What one turn of the loop takes off the value.
  lemma PeelDigit(hi: Word, lo: Word, i: nat)
    requires i > 0
    ensures And(lo, 0x1f) < 32 && Or(Shr5(lo), Shl59(hi)) < TWO64
    ensures Digits(hi * TWO64 + lo, i)
            == Digits(Shr5(hi) * TWO64 + Or(Shr5(lo), Shl59(hi)), i - 1) + [And(lo, 0x1f)]
  {
    ShiftStep(hi, lo);
  }

  lemma CharsPrepend(d: nat, ds: seq<nat>)
    requires d < 32 && AreDigits(ds)
    ensures Chars([d] + ds) == [Letter(d)] + Chars(ds)
  {
  }

  /** Encodes 128 bits by peeling five bits at a time off the two-word value. */
  method Encode(raw: seq<byte>) returns (out: string)
    requires |raw| == 16
    ensures out == Body(BigEndian(raw))
  {
    BigEndianBound(raw[..8]);
    BigEndianBound(raw[8..]);
    Pow256();
    var hi: Word := BigEndian(raw[..8]);
    var lo: Word := BigEndian(raw[8..]);
    BigEndianAppend(raw[..8], raw[8..]);
    assert raw[..8] + raw[8..] == raw;
    out := PeelDigits(hi, lo);
  }

  method PeelDigits(hi0: Word, lo0: Word) returns (out: string)
    ensures out == Body(hi0 * TWO64 + lo0)
  {
    hide Or, And, Shl59, Shr5, Letter, Digits, Chars;
    var hi: Word, lo: Word := hi0, lo0;
    var chars := new char[ENCODED_LEN];
    ghost var n, tail: seq<nat> := hi * TWO64 + lo, [];
    var i := ENCODED_LEN;
    assert chars[i..] == Chars(tail) by {
      NoChars();
    }
    while i > 0
      invariant 0 <= i <= ENCODED_LEN && AreDigits(tail)
      invariant Digits(n, ENCODED_LEN) == Digits(hi * TWO64 + lo, i) + tail
      invariant chars[i..] == Chars(tail)
    {
      PeelDigit(hi, lo, i);
      CharsPrepend(And(lo, 0x1f), tail);
      i := i - 1;
      chars[i] := Letter(And(lo, 0x1f));
      tail := [And(lo, 0x1f)] + tail;
      lo := Or(Shr5(lo), Shl59(hi));
      hi := Shr5(hi);
    }
    NoDigitsLeft(hi * TWO64 + lo);
    assert Digits(n, ENCODED_LEN) == tail;
    out := chars[..];
    assert chars[0..] == chars[..];
  }

  lemma NoChars()
    ensures Chars([]) == []
  {
  }

  /** The encoding is the 128-bit value in base 32, and its first digit is at most 7. */
  lemma BodyIsTheValue(n: nat)
    requires n < TWO64 * TWO64
    ensures |Body(n)| == ENCODED_LEN
    ensures ValueOf(Digits(n, ENCODED_LEN)) == n
    ensures Digits(n, ENCODED_LEN)[0] <= 7
  {
    Pow32();
    DigitsHoldLowPart(n, ENCODED_LEN);
    var ds := Digits(n, ENCODED_LEN);
    ValueFromFront(ds);
    assert Pow(32, 26) == 32 * Pow(32, 25);
    TimesIsMonotone(7, ds[0], Pow(32, 25));
  }

  lemma {:induction false} ValueFromFront(ds: seq<nat>)
    requires ds != [] && AreDigits(ds)
    ensures ValueOf(ds) == ds[0] * Pow(32, |ds| - 1) + ValueOf(ds[1..])
    ensures ValueOf(ds[1..]) < Pow(32, |ds| - 1)
    decreases |ds|
  {
    if |ds| > 1 {
      var front := ds[..|ds| - 1];
      ValueFromFront(front);
      assert front[1..] == ds[1..][..|ds| - 2];
      assert ds[0] * Pow(32, |ds| - 1) == ds[0] * Pow(32, |ds| - 2) * 32;
    }
  }

  // ---- order ----

  lemma {:induction false} AlphabetAscends(i: nat, j: nat)
    requires i < j < 32
    ensures Letter(i) < Letter(j)
    decreases j - i
  {
    if i + 1 < j {
      AlphabetAscends(i + 1, j);
    }
    NextLetter(i);
  }

  lemma NextLetter(i: nat)
    requires i < 31
    ensures Letter(i) < Letter(i + 1)
  {
  }

  /** Strings of digits of one length compare as the numbers they stand for. */
  lemma {:induction false} LexicographicIsNumeric(a: seq<nat>, b: seq<nat>)
    requires |a| == |b| && AreDigits(a) && AreDigits(b)
    ensures Before(Chars(a), Chars(b)) <==> ValueOf(a) < ValueOf(b)
    ensures Chars(a) == Chars(b) <==> ValueOf(a) == ValueOf(b)
    decreases |a|
  {
    if a != [] {
      ValueFromFront(a);
      ValueFromFront(b);
      CharsHead(a);
      CharsHead(b);
      CompareHeads(Chars(a), Chars(b));
      LexicographicIsNumeric(a[1..], b[1..]);
      if a[0] < b[0] {
        AlphabetAscends(a[0], b[0]);
      } else if b[0] < a[0] {
        AlphabetAscends(b[0], a[0]);
      }
      CompareLeading(a[0], ValueOf(a[1..]), b[0], ValueOf(b[1..]), Pow(32, |a| - 1));
      hide Pow, ValueOf, Chars, Before, Letter;
    }
  }

  lemma CharsHead(a: seq<nat>)
    requires AreDigits(a) && a != []
    ensures |Chars(a)| == |a| && Chars(a)[0] == Letter(a[0]) && Chars(a)[1..] == Chars(a[1..])
  {
  }

  lemma CompareHeads(x: string, y: string)
    requires |x| == |y| > 0
    ensures Before(x, y) <==> x[0] < y[0] || (x[0] == y[0] && Before(x[1..], y[1..]))
    ensures x == y <==> x[0] == y[0] && x[1..] == y[1..]
  {
    assert x == [x[0]] + x[1..] && y == [y[0]] + y[1..];
  }

  lemma CompareLeading(a: nat, r: nat, b: nat, s: nat, p: nat)
    requires r < p && s < p
    ensures a * p + r < b * p + s <==> a < b || (a == b && r < s)
    ensures a * p + r == b * p + s <==> a == b && r == s
  {
    TimesIsMonotone(a, b, p);
    TimesIsMonotone(b, a, p);
  }

  /** Encodings sort as the 128-bit values do, and different values encode differently. */
  lemma EncodingKeepsOrder(m: nat, n: nat)
    requires m < TWO64 * TWO64 && n < TWO64 * TWO64
    ensures Before(Body(m), Body(n)) <==> m < n
    ensures Body(m) == Body(n) <==> m == n
  {
    BodyIsTheValue(m);
    BodyIsTheValue(n);
    LexicographicIsNumeric(Digits(m, ENCODED_LEN), Digits(n, ENCODED_LEN));
  }

  // ---- the generator ----

  /** The entropy counter plus one, carrying from the last byte; all-ones wraps to zero. */
  ghost function Increment(s: seq<byte>): (r: seq<byte>)
    ensures |r| == |s|
  {
    if s == [] then []
    else if s[|s| - 1] == 255 then Increment(s[..|s| - 1]) + [0]
    else s[..|s| - 1] + [s[|s| - 1] + 1]
  }

  ghost predicate AllOnes(s: seq<byte>) {
    forall i :: 0 <= i < |s| ==> s[i] == 255
  }

  /** The carry loop is exactly +1 on the big-endian counter, and wraps exactly from all-ones. */
  lemma {:induction false} IncrementIsPlusOne(s: seq<byte>)
    ensures AllOnes(s) ==> BigEndian(Increment(s)) == 0 && BigEndian(s) + 1 == Pow(256, |s|)
    ensures !AllOnes(s) ==> BigEndian(Increment(s)) == BigEndian(s) + 1
  {
    if s != [] {
      var front := s[..|s| - 1];
      IncrementIsPlusOne(front);
      if s[|s| - 1] == 255 {
        assert Increment(s)[..|s| - 1] == Increment(front);
        assert AllOnes(s) <==> AllOnes(front);
        assert BigEndian(s) == BigEndian(front) * 256 + 255;
        assert BigEndian(Increment(s)) == BigEndian(Increment(front)) * 256;
      } else {
        assert Increment(s)[..|s| - 1] == front;
        assert BigEndian(Increment(s)) == BigEndian(front) * 256 + (s[|s| - 1] as nat + 1);
      }
    }
  }

  method IncrementInPlace(entropy: array<byte>)
    modifies entropy
    ensures entropy[..] == Increment(old(entropy[..]))
  {
    ghost var was := entropy[..];
    var i := entropy.Length;
    assert was[..i] == was && entropy[i..] == [];
    while i > 0
      invariant 0 <= i <= entropy.Length
      invariant entropy[..i] == was[..i]
      invariant Increment(was) == Increment(was[..i]) + entropy[i..]
    {
      i := i - 1;
      assert was[..i + 1][..i] == was[..i] && was[..i + 1][i] == was[i];
      entropy[i] := if entropy[i] == 255 then 0 else entropy[i] + 1;
      if entropy[i] != 0 {
        assert Increment(was[..i + 1]) == was[..i] + [entropy[i]];
        assert entropy[..] == entropy[..i] + [entropy[i]] + entropy[i + 1..];
        return;
      }
      assert Increment(was[..i + 1]) == Increment(was[..i]) + [0];
      assert entropy[i..] == [entropy[i]] + entropy[i + 1..];
    }
    assert entropy[0..] == entropy[..];
  }

  datatype Clocked = Clocked(lastMS: nat, lastRand: seq<byte>)
  {
    ghost predicate Valid() {
      |lastRand| == 10
    }

    // The 128-bit value of the last id; only 48 bits of the time are kept.
    ghost function Key(): nat {
      (lastMS % TWO48) * TWO80 + BigEndian(lastRand)
    }
  }

  /** The generator after one id at time `ms`, when fresh entropy would be `drawn`. */
  ghost function Next(g: Clocked, ms: nat, drawn: seq<byte>): Clocked {
    Clocked(ms, if ms == g.lastMS then Increment(g.lastRand) else drawn)
  }

  function TimeBytes(ms: nat): (b: seq<byte>)
    ensures |b| == 6
  {
    [(ms / 0x100_0000_0000 % 256) as byte, (ms / 0x1_0000_0000 % 256) as byte, (ms / 0x100_0000 % 256) as byte,
     (ms / 0x1_0000 % 256) as byte, (ms / 0x100 % 256) as byte, (ms % 256) as byte]
  }

  lemma TimeBytesAreTheTime(ms: nat)
    ensures BigEndian(TimeBytes(ms)) == ms % TWO48
  {
    hide Byte, TimeBytes;
    var b := TimeBytes(ms);
    BytesAgree(ms);
    BigEndianStep(b, 0);
    BigEndianStep(b, 1);
    BigEndianStep(b, 2);
    BigEndianStep(b, 3);
    BigEndianStep(b, 4);
    BigEndianStep(b, 5);
    assert b[..6] == b && b[..0] == [];
    JoinBytes(ms);
  }

  // `byte(x)` of a repeated shift by eight.
  ghost function Byte(ms: nat, k: nat): nat {
    Shifted(ms, k) % 0x100
  }

  ghost function Shifted(ms: nat, k: nat): nat {
    if k == 0 then ms else Shifted(ms, k - 1) / 0x100
  }

  lemma BytesAgree(ms: nat)
    ensures var b := TimeBytes(ms);
            && b[0] as nat == Byte(ms, 5) && b[1] as nat == Byte(ms, 4) && b[2] as nat == Byte(ms, 3)
            && b[3] as nat == Byte(ms, 2) && b[4] as nat == Byte(ms, 1) && b[5] as nat == Byte(ms, 0)
  {
    ShiftsAgree(ms);
    assert Shifted(ms, 1) == ms / 0x100;
    assert Shifted(ms, 2) == ms / 0x1_0000;
    assert Shifted(ms, 3) == ms / 0x100_0000;
    assert Shifted(ms, 4) == ms / 0x1_0000_0000;
    assert Shifted(ms, 5) == ms / 0x100_0000_0000;
  }

  lemma JoinBytes(ms: nat)
    ensures ((((Byte(ms, 5) * 256 + Byte(ms, 4)) * 256 + Byte(ms, 3)) * 256 + Byte(ms, 2)) * 256 + Byte(ms, 1)) * 256
            + Byte(ms, 0) == ms % TWO48
  {
    var m1, m2, m3, m4 := Shifted(ms, 1), Shifted(ms, 2), Shifted(ms, 3), Shifted(ms, 4);
    ModJoin16(m4);
    assert Byte(ms, 5) * 256 + Byte(ms, 4) == m4 % 0x1_0000;
    ModJoin24(m3);
    assert (m4 % 0x1_0000) * 256 + Byte(ms, 3) == m3 % 0x100_0000;
    ModJoin32(m2);
    assert (m3 % 0x100_0000) * 256 + Byte(ms, 2) == m2 % 0x1_0000_0000;
    ModJoin40(m1);
    assert (m2 % 0x1_0000_0000) * 256 + Byte(ms, 1) == m1 % 0x100_0000_0000;
    ModJoin48(ms);
  }

  lemma BigEndianStep(s: seq<byte>, k: nat)
    requires k < |s|
    ensures BigEndian(s[..k + 1]) == BigEndian(s[..k]) * 256 + s[k] as nat
  {
    assert s[..k + 1][..k] == s[..k];
  }

  lemma ShiftsAgree(ms: nat)
    ensures ms / 0x1_0000 == ms / 0x100 / 0x100
    ensures ms / 0x100_0000 == ms / 0x100 / 0x100 / 0x100
    ensures ms / 0x1_0000_0000 == ms / 0x100 / 0x100 / 0x100 / 0x100
    ensures ms / 0x100_0000_0000 == ms / 0x100 / 0x100 / 0x100 / 0x100 / 0x100
  {
  }

  lemma ModJoin16(m: nat)
    ensures m / 0x100 % 0x100 * 0x100 + m % 0x100 == m % 0x1_0000
  {
  }

  lemma ModJoin24(m: nat)
    ensures m / 0x100 % 0x1_0000 * 0x100 + m % 0x100 == m % 0x100_0000
  {
  }

  lemma ModJoin32(m: nat)
    ensures m / 0x100 % 0x100_0000 * 0x100 + m % 0x100 == m % 0x1_0000_0000
  {
  }

  lemma ModJoin40(m: nat)
    ensures m / 0x100 % 0x1_0000_0000 * 0x100 + m % 0x100 == m % 0x100_0000_0000
  {
  }

  lemma ModJoin48(m: nat)
    ensures m / 0x100 % 0x100_0000_0000 * 0x100 + m % 0x100 == m % TWO48
  {
  }

  /** The process-wide generator. */
  class Generator {
    var lastMS: nat
    var lastRand: array<byte>

    ghost function State(): Clocked
      reads this, lastRand
    {
      Clocked(lastMS, lastRand[..])
    }

    constructor ()
      ensures State().Valid() && lastMS == 0 && fresh(lastRand)
    {
      lastMS := 0;
      lastRand := new byte[10](_ => 0);
    }

    /**
     A fresh id. `drawn` is what the random source yields; `None` is the source failing, and
     the time stands in for it.
     */
    method New(prefix: string, ms: nat, drawn: Option<seq<byte>>) returns (id: string)
      requires State().Valid() && ms < TWO64
      requires drawn.Some? ==> |drawn.value| == 10
      modifies this
      ensures State().Valid() && fresh(lastRand)
      ensures State() == Next(old(State()), ms, Drawn(ms, drawn))
      ensures id == prefix + "_" + Body(State().Key())
      // Within a millisecond the counter goes up by one, modulo 80 bits; in a new one the drawn bytes start it.
      ensures lastMS == ms
      ensures ms == old(lastMS) ==> BigEndian(lastRand[..]) == (BigEndian(old(lastRand[..])) + 1) % TWO80
      ensures ms != old(lastMS) && drawn.Some? ==> lastRand[..] == drawn.value
      ensures ms != old(lastMS) && drawn.None? ==> BigEndian(lastRand[..]) == ms * 0x1_0000
      ensures id == prefix + "_" + Body((ms % 0x1_0000_0000_0000) * TWO80 + BigEndian(lastRand[..]))
    {
      hide BigEndian, Increment, Body, Pow, Drawn;
      ghost var was := State();
      DrawnIsTen(ms, drawn);
      var entropy := new byte[10];
      if ms == lastMS {
        forall i | 0 <= i < 10 {
          entropy[i] := lastRand[i];
        }
        assert entropy[..] == lastRand[..];
        assert entropy[..] == was.lastRand;
        IncrementInPlace(entropy);
        assert entropy[..] == Next(was, ms, Drawn(ms, drawn)).lastRand;
      } else {
        var fresh10 := Drawn(ms, drawn);
        forall i | 0 <= i < 10 {
          entropy[i] := fresh10[i];
        }
        assert entropy[..] == fresh10 == Next(was, ms, Drawn(ms, drawn)).lastRand;
        lastMS := ms;
      }
      lastRand := entropy;
      var raw := TimeBytes(ms) + entropy[..];
      var body := Encode(raw);
      assert State().lastRand == entropy[..];
      RawIsTheKey(ms, entropy[..]);
      id := prefix + "_" + body;
      NextCounts(was, ms, drawn);
    }
  }

  lemma DrawnIsTen(ms: nat, drawn: Option<seq<byte>>)
    requires drawn.Some? ==> |drawn.value| == 10
    ensures |Drawn(ms, drawn)| == 10
  {
  }

  lemma RawIsTheKey(ms: nat, entropy: seq<byte>)
    requires |entropy| == 10
    ensures BigEndian(TimeBytes(ms) + entropy) == Clocked(ms, entropy).Key()
  {
    BigEndianAppend(TimeBytes(ms), entropy);
    TimeBytesAreTheTime(ms);
    Pow256();
  }

  // Ten random bytes, or the time in eight bytes and two zero bytes.
  function Drawn(ms: nat, drawn: Option<seq<byte>>): seq<byte>
  {
    match drawn
    case Some(bytes) => bytes
    case None =>
      [(ms / 0x100_0000_0000_0000 % 256) as byte, (ms / 0x1_0000_0000_0000 % 256) as byte] + TimeBytes(ms) + [0, 0]
  }

  lemma NextCounts(g: Clocked, ms: nat, drawn: Option<seq<byte>>)
    requires g.Valid() && ms < TWO64
    ensures var h := Next(g, ms, Drawn(ms, drawn));
            && h.lastMS == ms && h.Key() == (ms % 0x1_0000_0000_0000) * TWO80 + BigEndian(h.lastRand)
            && (ms == g.lastMS ==> BigEndian(h.lastRand) == (BigEndian(g.lastRand) + 1) % TWO80)
            && (ms != g.lastMS && drawn.Some? ==> h.lastRand == drawn.value)
            && (ms != g.lastMS && drawn.None? ==> BigEndian(h.lastRand) == ms * 0x1_0000)
  {
    hide BigEndian, Increment, Pow, Drawn;
    Pow256();
    IncrementIsPlusOne(g.lastRand);
    BigEndianBound(Increment(g.lastRand));
    DrawnCounts(ms);
  }

  lemma DrawnCounts(ms: nat)
    requires ms < TWO64
    ensures BigEndian(Drawn(ms, None)) == ms * 0x1_0000
    ensures forall bytes :: Drawn(ms, Some(bytes)) == bytes
  {
    hide BigEndian, TimeBytes;
    var hi, lo := [(ms / 0x100_0000_0000_0000 % 256) as byte, (ms / 0x1_0000_0000_0000 % 256) as byte], TimeBytes(ms);
    TimeBytesAreTheTime(ms);
    BigEndianAppend(hi + lo, [0, 0]);
    BigEndianAppend(hi, lo);
    TwoBytes(hi);
    TwoBytes([0, 0]);
    PowSix();
    JoinHigh(ms);
  }

  lemma TwoBytes(b: seq<byte>)
    requires |b| == 2
    ensures BigEndian(b) == b[0] as nat * 256 + b[1] as nat
  {
    BigEndianStep(b, 0);
    BigEndianStep(b, 1);
    assert b[..2] == b && b[..0] == [];
  }

  lemma PowSix()
    ensures Pow(256, 2) == 0x1_0000 && Pow(256, 6) == TWO48
  {
    assert Pow(256, 1) == 256;
    assert Pow(256, 2) == 0x1_0000;
    assert Pow(256, 4) == 0x1_0000 * Pow(256, 2);
    assert Pow(256, 6) == 0x1_0000 * Pow(256, 4);
  }

  lemma JoinHigh(ms: nat)
    requires ms < TWO64
    ensures (ms / 0x100_0000_0000_0000 % 256 * 256 + ms / 0x1_0000_0000_0000 % 256) * TWO48 + ms % TWO48 == ms
  {
    var top := ms / TWO48;
    assert ms / 0x100_0000_0000_0000 == top / 256;
    assert top < 0x1_0000 && top / 256 % 256 == top / 256;
  }

  // ---- ids over whole runs ----

  /**
   One id after another: the second is greater exactly when the clock moved on, or stayed and
   the counter had room. A clock that went back, or a wrap, breaks the order.
   */
  lemma NextIsGreater(g: Clocked, ms: nat, drawn: seq<byte>)
    requires g.Valid() && |drawn| == 10 && g.lastMS < TWO48 && ms < TWO48
    ensures Before(Body(g.Key()), Body(Next(g, ms, drawn).Key()))
            <==> ms > g.lastMS || (ms == g.lastMS && !AllOnes(g.lastRand))
  {
    hide Body, Before, BigEndian, Increment, Pow, AllOnes;
    var h := Next(g, ms, drawn);
    Pow256();
    BigEndianBound(g.lastRand);
    BigEndianBound(h.lastRand);
    IncrementIsPlusOne(g.lastRand);
    KeyOrder(g.lastMS, BigEndian(g.lastRand), ms, BigEndian(h.lastRand));
    EncodingKeepsOrder(g.Key(), h.Key());
  }

  lemma KeyOrder(m: nat, r: nat, n: nat, s: nat)
    requires m < TWO48 && n < TWO48 && r < TWO80 && s < TWO80
    ensures m % TWO48 * TWO80 + r < n % TWO48 * TWO80 + s <==> m < n || (m == n && r < s)
    ensures m % TWO48 * TWO80 + r < TWO64 * TWO64
    ensures n % TWO48 * TWO80 + s < TWO64 * TWO64
  {
  }

  datatype Request = Request(ms: nat, drawn: seq<byte>)

  /** The generator after `i` requests of a run. */
  ghost function After(g: Clocked, rs: seq<Request>, i: nat): Clocked
    requires i <= |rs|
  {
    if i == 0 then g else Next(After(g, rs, i - 1), rs[i - 1].ms, rs[i - 1].drawn)
  }

  // A clock that never goes back, and no 80-bit wrap inside one millisecond.
  ghost predicate Orderly(g: Clocked, rs: seq<Request>) {
    && g.Valid() && g.lastMS < TWO48
    && (forall i :: 0 <= i < |rs| ==> MovesOn(After(g, rs, i), rs[i]))
  }

  // The clock moved on, or stayed and the counter has room.
  ghost predicate MovesOn(now: Clocked, r: Request) {
    && |r.drawn| == 10 && r.ms < TWO48
    && (r.ms > now.lastMS || (r.ms == now.lastMS && !AllOnes(now.lastRand)))
  }

  lemma {:induction false} AfterIsValid(g: Clocked, rs: seq<Request>, i: nat)
    requires Orderly(g, rs) && i <= |rs|
    ensures After(g, rs, i).Valid() && After(g, rs, i).lastMS < TWO48
    ensures After(g, rs, i).Key() < TWO64 * TWO64
  {
    hide BigEndian, AllOnes, Increment, Pow;
    if i > 0 {
      AfterIsValid(g, rs, i - 1);
    }
    var now := After(g, rs, i);
    Pow256();
    BigEndianBound(now.lastRand);
    KeyOrder(now.lastMS, BigEndian(now.lastRand), 0, 0);
  }

  /** Over any orderly run every later id of a prefix sorts strictly after every earlier one. */
  lemma {:induction false} IdsStrictlyIncrease(g: Clocked, rs: seq<Request>, prefix: string, i: nat, j: nat)
    requires Orderly(g, rs) && i < j <= |rs|
    ensures Before(prefix + "_" + Body(After(g, rs, i).Key()), prefix + "_" + Body(After(g, rs, j).Key()))
    decreases j
  {
    hide Body, Before, BigEndian, AllOnes, Increment, Next;
    AfterIsValid(g, rs, i);
    AfterIsValid(g, rs, j);
    AfterIsValid(g, rs, j - 1);
    var a, b, c := After(g, rs, i).Key(), After(g, rs, j - 1).Key(), After(g, rs, j).Key();
    NextIsGreater(After(g, rs, j - 1), rs[j - 1].ms, rs[j - 1].drawn);
    EncodingKeepsOrder(b, c);
    if i < j - 1 {
      IdsStrictlyIncrease(g, rs, prefix, i, j - 1);
      BeforeAfterPrefix(prefix + "_", Body(a), Body(b));
      EncodingKeepsOrder(a, b);
    }
    EncodingKeepsOrder(a, c);
    BeforeAfterPrefix(prefix + "_", Body(a), Body(c));
  }

  // The ids of a run of requests, in the order in which the generator served them.
  ghost function IdAfter(g: Clocked, rs: seq<Request>, prefix: string, i: nat): string
    requires i <= |rs|
  {
    prefix + "_" + Body(After(g, rs, i).Key())
  }

  // ---- calls that overlap ----

  /**
   The generator shared by concurrent calls. A call reads the clock, and only then waits for the lock;
   `reading` holds what the calls in between have read. `served` lists the locked sections in order.
   */
  datatype Shared = Shared(clock: nat, gen: Clocked, reading: map<nat, nat>, served: seq<Request>)

  datatype CallEvent =
    // The clock goes on, never back.
    | Tick(d: nat)
    | ReadClock(call: nat)
    // The locked section of a call, with what the random source yields, if it does.
    | Locked(call: nat, drawn: Option<seq<byte>>)

  // The generator of a process that has made no id.
  ghost function Start(clock: nat): Shared {
    Shared(clock, Clocked(0, ZEROS), map[], [])
  }

  const ZEROS: seq<byte> := [0, 0, 0, 0, 0, 0, 0, 0, 0, 0]

  ghost function StepCall(s: Shared, e: CallEvent): Shared {
    match e
    case Tick(d) => s.(clock := s.clock + d)
    case ReadClock(p) => if p in s.reading then s else s.(reading := s.reading[p := s.clock])
    case Locked(p, drawn) =>
      if p !in s.reading then s
      else
        var r := Request(s.reading[p], Drawn(s.reading[p], drawn));
        s.(gen := Next(s.gen, r.ms, r.drawn), reading := s.reading - {p}, served := s.served + [r])
  }

  ghost function RunCalls(s: Shared, es: seq<CallEvent>): Shared
    decreases |es|
  {
    if es == [] then s else RunCalls(StepCall(s, es[0]), es[1..])
  }

  // A call enters the lock after one that read a later millisecond.
  ghost predicate Overtaken(s: Shared, e: CallEvent) {
    e.Locked? && e.call in s.reading && s.reading[e.call] < s.gen.lastMS
  }

  // A call enters the lock in the last call's millisecond when its counter is used up.
  ghost predicate Wraps(s: Shared, e: CallEvent) {
    e.Locked? && e.call in s.reading && s.reading[e.call] == s.gen.lastMS && AllOnes(s.gen.lastRand)
  }

  /** No call of the run is overtaken, and no counter is used up. */
  ghost predicate InLockOrder(s: Shared, es: seq<CallEvent>)
    decreases |es|
  {
    es == [] || (!Overtaken(s, es[0]) && !Wraps(s, es[0]) && InLockOrder(StepCall(s, es[0]), es[1..]))
  }

  // Ten random bytes at a time.
  ghost predicate DrawsTen(es: seq<CallEvent>) {
    forall i :: 0 <= i < |es| && es[i].Locked? && es[i].drawn.Some? ==> |es[i].drawn.value| == 10
  }

  // The generator is where its requests took it, and nobody has read more than the clock shows.
  ghost predicate Consistent(s: Shared) {
    && (forall i :: 0 <= i < |s.served| ==> |s.served[i].drawn| == 10 && s.served[i].ms <= s.clock)
    && (forall p :: p in s.reading ==> s.reading[p] <= s.clock)
    && s.gen == After(Clocked(0, ZEROS), s.served, |s.served|)
  }

  lemma {:induction false} AfterOfPrefix(g: Clocked, rs: seq<Request>, r: Request, i: nat)
    requires i <= |rs|
    ensures After(g, rs + [r], i) == After(g, rs, i)
  {
    if i > 0 {
      AfterOfPrefix(g, rs, r, i - 1);
    }
  }

  // One more request is orderly exactly when it is neither overtaken nor a wrap.
  lemma OrderlyNext(g: Clocked, rs: seq<Request>, r: Request)
    requires g.Valid() && g.lastMS < TWO48 && |r.drawn| == 10 && r.ms < TWO48
    ensures Orderly(g, rs + [r]) <==> Orderly(g, rs) && MovesOn(After(g, rs, |rs|), r)
  {
    hide Next, After, MovesOn;
    var all := rs + [r];
    forall i: nat | i <= |rs| ensures After(g, all, i) == After(g, rs, i) {
      AfterOfPrefix(g, rs, r, i);
    }
    assert all[|rs|] == r;
    if Orderly(g, all) {
      forall i | 0 <= i < |rs| ensures MovesOn(After(g, rs, i), rs[i]) {
        assert MovesOn(After(g, all, i), all[i]);
      }
      assert MovesOn(After(g, all, |rs|), all[|rs|]);
    }
    if Orderly(g, rs) && MovesOn(After(g, rs, |rs|), r) {
      forall i | 0 <= i < |all| ensures MovesOn(After(g, all, i), all[i]) {
        assert i < |rs| ==> all[i] == rs[i] && MovesOn(After(g, rs, i), rs[i]);
      }
    }
  }

  lemma StepCallConsistent(s: Shared, e: CallEvent)
    requires Consistent(s) && (e.Locked? && e.drawn.Some? ==> |e.drawn.value| == 10)
    ensures Consistent(StepCall(s, e))
    ensures s.clock <= StepCall(s, e).clock
  {
    hide Next, Drawn;
    if e.Locked? && e.call in s.reading {
      var g, r := Clocked(0, ZEROS), Request(s.reading[e.call], Drawn(s.reading[e.call], e.drawn));
      DrawnIsTen(r.ms, e.drawn);
      AfterOfPrefix(g, s.served, r, |s.served|);
    }
  }

  lemma {:induction false} ClockOnlyAdvances(s: Shared, es: seq<CallEvent>)
    ensures s.clock <= RunCalls(s, es).clock
    decreases |es|
  {
    if es != [] {
      ClockOnlyAdvances(StepCall(s, es[0]), es[1..]);
    }
  }

  lemma OrderlyStep(s: Shared, e: CallEvent)
    requires Consistent(s) && s.clock < TWO48 && (e.Locked? && e.drawn.Some? ==> |e.drawn.value| == 10)
    ensures Orderly(Clocked(0, ZEROS), StepCall(s, e).served)
            <==> Orderly(Clocked(0, ZEROS), s.served) && !Overtaken(s, e) && !Wraps(s, e)
  {
    hide Orderly, Next, Drawn, AllOnes, After;
    if e.Locked? && e.call in s.reading {
      var r := Request(s.reading[e.call], Drawn(s.reading[e.call], e.drawn));
      DrawnIsTen(r.ms, e.drawn);
      OrderlyNext(Clocked(0, ZEROS), s.served, r);
    }
  }

  lemma {:induction false} OrderlyIffInLockOrder(s: Shared, es: seq<CallEvent>)
    requires Consistent(s) && DrawsTen(es) && RunCalls(s, es).clock < TWO48
    ensures Consistent(RunCalls(s, es))
    ensures Orderly(Clocked(0, ZEROS), RunCalls(s, es).served)
            <==> Orderly(Clocked(0, ZEROS), s.served) && InLockOrder(s, es)
    decreases |es|
  {
    hide Orderly, StepCall, Consistent, Overtaken, Wraps;
    if es != [] {
      assert es[0].Locked? && es[0].drawn.Some? ==> |es[0].drawn.value| == 10;
      ClockOnlyAdvances(s, es);
      StepCallConsistent(s, es[0]);
      OrderlyStep(s, es[0]);
      OrderlyIffInLockOrder(StepCall(s, es[0]), es[1..]);
    }
  }

  // A sorted list of ids is the work of an orderly run.
  lemma {:induction false} SortedIsOrderly(rs: seq<Request>, prefix: string, n: nat)
    requires forall i :: 0 <= i < |rs| ==> |rs[i].drawn| == 10 && rs[i].ms < TWO48
    requires n <= |rs|
    requires forall i, j :: 0 < i < j <= n ==>
               Before(IdAfter(Clocked(0, ZEROS), rs, prefix, i), IdAfter(Clocked(0, ZEROS), rs, prefix, j))
    ensures Orderly(Clocked(0, ZEROS), rs[..n])
    ensures forall i: nat :: i <= n ==> After(Clocked(0, ZEROS), rs[..n], i) == After(Clocked(0, ZEROS), rs, i)
  {
    hide Next, AllOnes, Body, Before;
    var g := Clocked(0, ZEROS);
    if n == 0 {
      assert rs[..0] == [];
    } else {
      SortedIsOrderly(rs, prefix, n - 1);
      var front, r := rs[..n - 1], rs[n - 1];
      assert front + [r] == rs[..n];
      var now := After(g, front, |front|);
      AfterIsValid(g, front, |front|);
      if n == 1 {
        ZerosHaveRoom();
      } else {
        assert Before(IdAfter(g, rs, prefix, n - 1), IdAfter(g, rs, prefix, n));
        BeforeAfterPrefix(prefix + "_", Body(now.Key()), Body(Next(now, r.ms, r.drawn).Key()));
        NextIsGreater(now, r.ms, r.drawn);
      }
      OrderlyNext(g, front, r);
      forall i: nat | i <= n - 1 ensures After(g, rs[..n], i) == After(g, rs, i) {
        AfterOfPrefix(g, front, r, i);
      }
    }
  }

  lemma ZerosHaveRoom()
    ensures !AllOnes(ZEROS)
  {
    assert ZEROS[0] == 0;
  }

  /**
   Exactly when ids are made in order. Under a clock that never goes back, with any number of calls at
   once, every later id of a prefix sorts strictly after every earlier one if and only if no call
   enters the lock after one that read a later millisecond, and no millisecond's counter is used up.
   */
  lemma ConcurrentIdsIncreaseIff(clock: nat, es: seq<CallEvent>, prefix: string)
    requires DrawsTen(es) && RunCalls(Start(clock), es).clock < TWO48
    ensures var rs := RunCalls(Start(clock), es).served;
            (forall i, j :: 0 < i < j <= |rs| ==>
               Before(IdAfter(Start(clock).gen, rs, prefix, i), IdAfter(Start(clock).gen, rs, prefix, j)))
            <==> InLockOrder(Start(clock), es)
  {
    hide Orderly, StepCall, InLockOrder, RunCalls, DrawsTen, Body, Before, After, Next;
    var g, s' := Clocked(0, ZEROS), RunCalls(Start(clock), es);
    var rs := s'.served;
    NothingServed(clock);
    OrderlyIffInLockOrder(Start(clock), es);
    if Orderly(g, rs) {
      forall i, j | 0 < i < j <= |rs| ensures Before(IdAfter(g, rs, prefix, i), IdAfter(g, rs, prefix, j)) {
        IdsStrictlyIncrease(g, rs, prefix, i, j);
      }
    }
    if forall i, j :: 0 < i < j <= |rs| ==> Before(IdAfter(g, rs, prefix, i), IdAfter(g, rs, prefix, j)) {
      SortedIsOrderly(rs, prefix, |rs|);
      assert rs[..|rs|] == rs;
    }
  }

  /** The clock ticks between two reads, the later reader enters first: the ids come out in the wrong order. */
  lemma OvertakenIdSortsBefore(clock: nat, p: nat, q: nat, d: nat, prefix: string, x: seq<byte>, y: seq<byte>)
    requires p != q && d > 0 && clock + d < TWO48 && |x| == |y| == 10
    ensures var es := [ReadClock(p), Tick(d), ReadClock(q), Locked(q, Some(x)), Locked(p, Some(y))];
            var g, rs := Start(clock).gen, RunCalls(Start(clock), es).served;
            |rs| == 2 && !Before(IdAfter(g, rs, prefix, 1), IdAfter(g, rs, prefix, 2))
  {
    hide Before, Body, After, Increment;
    var e1, e2, e3, e4, e5 := ReadClock(p), Tick(d), ReadClock(q), Locked(q, Some(x)), Locked(p, Some(y));
    var s1 := StepCall(Start(clock), e1);
    var s2 := StepCall(s1, e2);
    var s3 := StepCall(s2, e3);
    var s4 := StepCall(s3, e4);
    assert Overtaken(s4, e5) && StepCall(s4, e5).served == [Request(clock + d, x), Request(clock, y)];
    hide StepCall, Overtaken;
    RunsOn(Start(clock), e1, [e2, e3, e4, e5]);
    RunsOn(s1, e2, [e3, e4, e5]);
    RunsOn(s2, e3, [e4, e5]);
    RunsOn(s3, e4, [e5]);
    RunsOn(s4, e5, []);
    ConcurrentIdsIncreaseIff(clock, [e1, e2, e3, e4, e5], prefix);
  }

  lemma RunsOn(s: Shared, e: CallEvent, rest: seq<CallEvent>)
    ensures RunCalls(s, [e] + rest) == RunCalls(StepCall(s, e), rest)
    ensures InLockOrder(s, [e] + rest) ==> !Overtaken(s, e) && InLockOrder(StepCall(s, e), rest)
  {
    hide StepCall, Overtaken, Wraps;
    assert ([e] + rest)[1..] == rest;
  }

  lemma NothingServed(clock: nat)
    ensures Consistent(Start(clock)) && Orderly(Clocked(0, ZEROS), [])
  {
  }

  // ---- reading ids back ----

  /** The position of the first underscore, or -1. */
  function IndexOfUnderscore(id: string): (i: int)
    ensures -1 <= i < |id|
    ensures i >= 0 ==> id[i] == '_' && forall k :: 0 <= k < i ==> id[k] != '_'
    ensures i < 0 ==> forall k :: 0 <= k < |id| ==> id[k] != '_'
  {
    if id == "" then -1
    else if id[0] == '_' then 0
    else
      var rest := IndexOfUnderscore(id[1..]);
      if rest < 0 then -1 else rest + 1
  }

  /** The digit a character stands for, or -1: the decode table. */
  function Decode(c: char): (d: int)
    ensures -1 <= d < 32
    ensures d >= 0 ==> Letter(d) == c
    ensures d < 0 ==> forall k: nat :: k < 32 ==> Letter(k) != c
  {
    DecodeFrom(c, 0)
  }

  function DecodeFrom(c: char, from: nat): (d: int)
    requires from <= 32
    ensures d == -1 || from <= d < 32
    ensures d >= 0 ==> Letter(d) == c
    ensures d < 0 ==> forall k: nat :: from <= k < 32 ==> Letter(k) != c
    decreases 32 - from
  {
    if from == 32 then -1 else if Letter(from) == c then from else DecodeFrom(c, from + 1)
  }

  lemma DecodeLetter(d: nat)
    requires d < 32
    ensures Decode(Letter(d)) == d
  {
    var e := Decode(Letter(d));
    if e < d {
      AlphabetAscends(e, d);
    } else if d < e {
      AlphabetAscends(d, e);
    }
  }

  predicate ValidBody(body: string) {
    |body| == ENCODED_LEN && forall i :: 0 <= i < |body| ==> Decode(body[i]) >= 0
  }

  /** The type prefix of an id, or "" when it is not well formed. */
  function Prefix(id: string): string {
    var i := IndexOfUnderscore(id);
    if i <= 0 || |id| - i - 1 != ENCODED_LEN then ""
    else if !ValidBody(id[i + 1..]) then ""
    else id[..i]
  }

  predicate Valid(id: string, prefix: string) {
    Prefix(id) == prefix
  }

  ghost predicate InAlphabet(c: char) {
    exists d: nat :: d < 32 && Letter(d) == c
  }

  /** What an id looks like: a prefix without an underscore, one underscore, 26 characters of the alphabet. */
  ghost predicate WellFormed(id: string, prefix: string) {
    && prefix != "" && '_' !in prefix
    && |id| == |prefix| + 1 + ENCODED_LEN && prefix + "_" <= id
    && forall i :: |prefix| < i < |id| ==> InAlphabet(id[i])
  }

  /** The alphabet: the digits and the capital letters without I, L, O and U, in ascending order. */
  lemma Alphabet(c: char, i: nat, j: nat)
    ensures InAlphabet(c) <==> ('0' <= c <= '9' || 'A' <= c <= 'Z') && c !in "ILOU"
    ensures i < j < 32 ==> Letter(i) < Letter(j)
  {
    if i < j < 32 {
      AlphabetAscends(i, j);
    }
    var d := if c <= '9' then c as int - '0' as int
             else if c < 'I' then c as int - 'A' as int + 10
             else if c < 'L' then c as int - 'J' as int + 18
             else if c < 'O' then c as int - 'M' as int + 20
             else if c < 'U' then c as int - 'P' as int + 22
             else c as int - 'V' as int + 27;
    if 0 <= d < 32 {
      assert ('0' <= c <= '9' || 'A' <= c <= 'Z') && c !in "ILOU" ==> Letter(d) == c;
    }
  }

  lemma DecodesIff(c: char)
    ensures Decode(c) >= 0 <==> InAlphabet(c)
  {
    var d := Decode(c);
    if d >= 0 {
      assert Letter(d) == c;
    }
  }

  lemma WellFormedHasPrefix(id: string, prefix: string)
    requires WellFormed(id, prefix)
    ensures Prefix(id) == prefix
  {
    hide Decode, InAlphabet;
    var body := id[|prefix| + 1..];
    forall k | 0 <= k < |body| ensures Decode(body[k]) >= 0 {
      DecodesIff(id[|prefix| + 1 + k]);
    }
    assert id[|prefix|] == (prefix + "_")[|prefix|] == '_';
    assert forall k :: 0 <= k < |prefix| ==> id[k] == (prefix + "_")[k] == prefix[k];
    assert id[..|prefix|] == prefix;
  }

  lemma PrefixIsWellFormed(id: string)
    requires Prefix(id) != ""
    ensures WellFormed(id, Prefix(id))
  {
    hide Decode, InAlphabet;
    var i := IndexOfUnderscore(id);
    var body := id[i + 1..];
    assert id == id[..i] + "_" + body;
    forall k | i < k < |id| ensures InAlphabet(id[k]) {
      assert id[k] == body[k - i - 1];
      DecodesIff(id[k]);
    }
  }

  /**
   What `Valid` is worth. For a real prefix it accepts exactly the well-formed ids that carry it; asked
   for the empty prefix it accepts exactly the strings that are no id at all.
   */
  lemma ValidIff(id: string, prefix: string)
    ensures prefix != "" ==> (Valid(id, prefix) <==> WellFormed(id, prefix))
    ensures Valid(id, "") <==> forall p :: !WellFormed(id, p)
  {
    hide WellFormed, Prefix;
    forall p | WellFormed(id, p) ensures p != "" && Prefix(id) == p {
      NoEmptyPrefix(id);
      WellFormedHasPrefix(id, p);
    }
    if Prefix(id) != "" {
      PrefixIsWellFormed(id);
    }
  }

  lemma NoEmptyPrefix(id: string)
    ensures !WellFormed(id, "")
  {
  }

  ghost function Decoded(body: string): (ds: seq<nat>)
    requires forall i :: 0 <= i < |body| ==> Decode(body[i]) >= 0
  {
    seq(|body|, i requires 0 <= i < |body| => Decode(body[i]))
  }

  /** The value of an id's first ten digits: 50 bits, of which the top two are padding. */
  ghost function TimeOf(id: string): Option<nat> {
    if Prefix(id) == "" then None
    else
      var body := id[IndexOfUnderscore(id) + 1..];
      assert ValidBody(body);
      Some(ValueOf(Decoded(body[..10])))
  }

  /** The milliseconds an id encodes; `None` for a malformed id. */
  method Time(id: string) returns (t: Option<nat>)
    ensures t == TimeOf(id)
  {
    if Prefix(id) == "" {
      return None;
    }
    hide Or, Decode, Letter, Pow, ValueOf, Decoded;
    var body := id[IndexOfUnderscore(id) + 1..];
    assert ValidBody(body);
    var ms: Word := 0;
    NothingDecoded(body);
    for i := 0 to 10
      invariant ms == ValueOf(Decoded(body[..i])) && ms < Pow(32, i)
    {
      DecodedNext(body, i);
      var d: nat := Decode(body[i]);
      PushDigit(ms, d, i);
      ms := Or(d, (ms * 32) % TWO64);
    }
    t := Some(ms);
  }

  lemma NothingDecoded(body: string)
    ensures Pow(32, 0) == 1 && ValueOf(Decoded(body[..0])) == 0
  {
  }

  // `ms<<5 | d` appends a digit while the value fits in 50 bits.
  lemma PushDigit(ms: Word, d: nat, i: nat)
    requires i < 10 && d < 32 && ms < Pow(32, i)
    ensures Or(d, (ms * 32) % TWO64) == ms * 32 + d
    ensures ms * 32 + d < Pow(32, i + 1) && ms * 32 + d < TWO64
  {
    hide Pow, Doubled, Or;
    PowGrows(i, 9);
    Pow32Small();
    DoubledFive(1);
    DoubledFive(ms);
    OrAddsDisjoint(d, ms, 5);
    PowNext(i);
  }

  lemma PowNext(i: nat)
    ensures Pow(32, i + 1) == 32 * Pow(32, i)
  {
  }

  // One more decoded digit.
  lemma DecodedNext(body: string, i: nat)
    requires ValidBody(body) && i < |body|
    ensures Decode(body[i]) >= 0
    ensures ValueOf(Decoded(body[..i + 1])) == ValueOf(Decoded(body[..i])) * 32 + Decode(body[i])
  {
    assert Decoded(body[..i + 1]) == Decoded(body[..i]) + [Decode(body[i])];
  }

  lemma DoubledFive(x: nat)
    ensures Doubled(x, 5) == 32 * x
  {
    assert Doubled(x, 1) == 2 * x;
    assert Doubled(x, 3) == 4 * Doubled(x, 1);
    assert Doubled(x, 5) == 4 * Doubled(x, 3);
  }

  lemma Pow32Small()
    ensures Pow(32, 9) == 0x2000_0000_0000 && Pow(32, 10) == 0x4_0000_0000_0000
  {
    assert Pow(32, 1) == 32;
    assert Pow(32, 3) == 1024 * Pow(32, 1);
    assert Pow(32, 5) == 1024 * Pow(32, 3);
    assert Pow(32, 7) == 1024 * Pow(32, 5);
    assert Pow(32, 9) == 1024 * Pow(32, 7);
  }

  lemma {:induction false} PowGrows(i: nat, j: nat)
    requires i <= j
    ensures Pow(32, i) <= Pow(32, j)
    decreases j
  {
    if i < j {
      PowGrows(i, j - 1);
    }
  }

  // The leading digits of `high * 32^m + low` are the digits of `high`.
  lemma {:induction false} LeadingDigits(high: nat, low: nat, k: nat, m: nat)
    requires low < Pow(32, m)
    ensures Digits(high * Pow(32, m) + low, k + m)[..k] == Digits(high, k)
    decreases m
  {
    if m > 0 {
      DropDigit(high, low, m);
      hide Pow;
      LeadingDigits(high, low / 32, k, m - 1);
    }
  }

  lemma DropDigit(high: nat, low: nat, m: nat)
    requires m > 0 && low < Pow(32, m)
    ensures (high * Pow(32, m) + low) / 32 == high * Pow(32, m - 1) + low / 32
    ensures low / 32 < Pow(32, m - 1)
  {
    var p := Pow(32, m - 1);
    PowNext(m - 1);
    hide Pow;
    TimesThirtyTwo(high, p);
  }

  lemma TimesThirtyTwo(a: nat, b: nat)
    ensures a * (32 * b) == 32 * (a * b)
  {
  }

  /**
   Round trip. An id made from a prefix without an underscore is well formed, carries exactly
   that prefix, and gives back the millisecond it was made in. An underscore in the prefix is
   what breaks it: such an id is never well formed.
   */
  lemma IdRoundTrip(prefix: string, ms: nat, entropy: nat)
    requires prefix != "" && ms < TWO48 && entropy < TWO80
    ensures var id := prefix + "_" + Body(ms * TWO80 + entropy);
            && (Prefix(id) == prefix <==> '_' !in prefix)
            && (TimeOf(id) == Some(ms) <==> '_' !in prefix)
  {
    hide Body, Prefix, TimeOf, Valid;
    var key := ms * TWO80 + entropy;
    PrefixRoundTrip(prefix, key);
    if '_' !in prefix {
      TimeRoundTrip(prefix, ms, entropy);
    } else {
      NoTimeWithoutPrefix(prefix + "_" + Body(key));
    }
  }

  lemma NoTimeWithoutPrefix(id: string)
    ensures TimeOf(id).None? <==> Prefix(id) == ""
  {
  }

  lemma BodyDecodes(key: nat)
    ensures ValidBody(Body(key)) && Decoded(Body(key)) == Digits(key, ENCODED_LEN)
  {
    hide Letter;
    var ds := Digits(key, ENCODED_LEN);
    forall i | 0 <= i < ENCODED_LEN ensures Decode(Body(key)[i]) == ds[i] {
      DecodeLetter(ds[i]);
    }
  }

  lemma PrefixRoundTrip(prefix: string, key: nat)
    requires prefix != ""
    ensures var id := prefix + "_" + Body(key);
            Prefix(id) == if '_' in prefix then "" else prefix
    ensures '_' !in prefix ==> var id := prefix + "_" + Body(key);
                               IndexOfUnderscore(id) == |prefix| && id[|prefix| + 1..] == Body(key)
  {
    BodyDecodes(key);
    hide Letter, Digits, Decode;
    var id := prefix + "_" + Body(key);
    var i := IndexOfUnderscore(id);
    assert id[|prefix|] == '_';
    assert id[..|prefix|] == prefix;
    if '_' in prefix {
      var k :| 0 <= k < |prefix| && prefix[k] == '_';
      assert id[k] == '_';
    } else {
      assert forall k :: 0 <= k < |prefix| ==> id[k] == prefix[k];
      assert id[|prefix| + 1..] == Body(key);
    }
  }

  lemma TimeRoundTrip(prefix: string, ms: nat, entropy: nat)
    requires prefix != "" && '_' !in prefix && ms < TWO48 && entropy < TWO80
    ensures TimeOf(prefix + "_" + Body(ms * TWO80 + entropy)) == Some(ms)
  {
    hide Letter, Decode, IndexOfUnderscore, Prefix;
    var key := ms * TWO80 + entropy;
    PrefixRoundTrip(prefix, key);
    BodyDecodes(key);
    Pow32();
    LeadingDigits(ms, entropy, 10, 16);
    Pow32Small();
    DigitsHoldLowPart(ms, 10);
    assert Decoded(Body(key)[..10]) == Decoded(Body(key))[..10];
  }
}
