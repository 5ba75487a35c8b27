/** Nix's base32: the digits of the bytes read as one little-endian number, most
    significant digit first, in Nix's own alphabet. */
module Base32 {
  import opened Wrappers

  type Byte = b: nat | b < 256

  const ALPHABET := "0123456789abcdfghijklmnpqrsvwxyz"

  // ---- Bits of machine words, as numbers

  /** The bitwise or of two words. */
  function BitOr(a: nat, b: nat): nat
    decreases a
  {
    if a == 0 then b
    else (if a % 2 == 1 || b % 2 == 1 then 1 else 0) + 2 * BitOr(a / 2, b / 2)
  }

  function Shr(a: nat, n: nat): nat { if n == 0 then a else Shr(a / 2, n - 1) }

  /** No bit is lost: a byte shifted by at most 8 fits the 32-bit word. */
  function Shl(a: nat, n: nat): nat { if n == 0 then a else 2 * Shl(a, n - 1) }

  /** Or of words with no common bit is their sum. */
  lemma {:induction false} OrOfDisjoint(a: nat, b: nat, n: nat)
    requires Shr(a, n) == 0
    ensures BitOr(a, Shl(b, n)) == a + Shl(b, n)
    decreases n
  {
    if a != 0 { OrOfDisjoint(a / 2, b, n - 1); }
  }

  lemma {:induction false} ShrTwice(a: nat, m: nat, n: nat)
    ensures Shr(a, m + n) == Shr(Shr(a, m), n)
    decreases m
  {
    if m > 0 { ShrTwice(a / 2, m - 1, n); }
  }

  lemma {:induction false} ShrOfSum(a: nat, b: nat, n: nat, j: nat)
    requires j <= n
    ensures Shr(a + Shl(b, n), j) == Shr(a, j) + Shl(b, n - j)
    decreases j
  {
    if j > 0 {
      assert (a + Shl(b, n)) / 2 == a / 2 + Shl(b, n - 1);
      ShrOfSum(a / 2, b, n - 1, j - 1);
    }
  }

  lemma {:induction false} ShlOfSum(a: nat, b: nat, n: nat)
    ensures Shl(a + 32 * b, n) == Shl(a, n) + 32 * Shl(b, n)
    decreases n
  {
    if n > 0 { ShlOfSum(a, b, n - 1); }
  }

  lemma {:induction false} ShrOfZero(n: nat)
    ensures Shr(0, n) == 0
  {
    if n > 0 { ShrOfZero(n - 1); }
  }

  lemma {:induction false} ShrNext(a: nat, n: nat)
    ensures Shr(a, n + 1) == Shr(a, n) / 2
    decreases n
  {
    if n > 0 { ShrNext(a / 2, n - 1); }
  }

  lemma ShrByFive(a: nat)
    ensures Shr(a, 5) == a / 32
  {
    ShrNext(a, 0);
    ShrNext(a, 1);
    ShrNext(a, 2);
    ShrNext(a, 3);
    ShrNext(a, 4);
  }

  lemma ShrByEight(a: nat)
    ensures Shr(a, 8) == a / 256
  {
    ShrByFive(a);
    ShrNext(a, 5);
    ShrNext(a, 6);
    ShrNext(a, 7);
  }

  lemma ShlByEight(a: nat)
    ensures Shl(a, 8) == 256 * a
  {
    assert Shl(a, 4) == 2 * Shl(a, 3) == 4 * Shl(a, 2) == 8 * Shl(a, 1) == 16 * Shl(a, 0);
    assert Shl(a, 8) == 2 * Shl(a, 7) == 4 * Shl(a, 6) == 8 * Shl(a, 5) == 16 * Shl(a, 4);
  }

  /** One step of the encoder's loop: the five bits at bit 5n. */
  function Digit(bytes: seq<Byte>, n: nat): nat
    requires n * 5 / 8 < |bytes|
  {
    var i := n * 5 / 8;
    var j := n * 5 % 8;
    var next := if i + 1 < |bytes| then Shl(bytes[i + 1], 8 - j) else 0;
    BitOr(Shr(bytes[i], j), next) % 32
  }

  // ---- Numbers

  /** The bytes as a little-endian number. */
  function Value(bytes: seq<Byte>): nat {
    if bytes == [] then 0 else bytes[0] + 256 * Value(bytes[1..])
  }

  function Index(c: char): Option<nat> {
    IndexFrom(c, 0)
  }

  function IndexFrom(c: char, i: nat): (r: Option<nat>)
    requires i <= 32
    ensures r.Some? ==> i <= r.value < 32 && ALPHABET[r.value] == c
    decreases 32 - i
  {
    if i == 32 then None else if ALPHABET[i] == c then Some(i) else IndexFrom(c, i + 1)
  }

  /** A text read as a number in base 32, most significant digit first. */
  function Reading(text: string): Option<nat> {
    if text == [] then Some(0)
    else
      var high := Reading(text[..|text| - 1]);
      var low := Index(text[|text| - 1]);
      if high.None? || low.None? then None else Some(32 * high.value + low.value)
  }

  lemma ReadingSnoc(high: string, c: char)
    ensures Reading(high + [c]) == if Reading(high).None? || Index(c).None? then None
                                   else Some(32 * Reading(high).value + Index(c).value)
  {
    assert (high + [c])[..|high + [c]| - 1] == high;
  }

  function EncodedLength(n: nat): nat {
    if n == 0 then 0 else (n * 8 - 1) / 5 + 1
  }

  /** The digits from the most significant one down to digit `n`. */
  function DigitsDownTo(bytes: seq<Byte>, n: nat): (r: string)
    requires n <= EncodedLength(|bytes|)
    ensures |r| == EncodedLength(|bytes|) - n
    decreases EncodedLength(|bytes|) - n
  {
    if n == EncodedLength(|bytes|) then []
    else DigitsDownTo(bytes, n + 1) + [ALPHABET[Digit(bytes, n)]]
  }

  function Encoded(bytes: seq<Byte>): string { DigitsDownTo(bytes, 0) }

  /** The loop of nix_base32_encode. */
  method Encode(bytes: seq<Byte>) returns (out: string)
    ensures out == Encoded(bytes)
  {
    if bytes == [] { return []; }
    var len := (|bytes| * 8 - 1) / 5 + 1;
    out := [];
    var n := len;
    while n > 0
      invariant 0 <= n <= len && out == DigitsDownTo(bytes, n)
    {
      n := n - 1;
      out := out + [ALPHABET[Digit(bytes, n)]];
    }
  }

  // ---- The digits of the number

  lemma LowByte(b: Byte, v: nat)
    ensures (b + 256 * v) % 256 == b && (b + 256 * v) / 256 == v
  {
  }

  lemma ValueOverByte(bytes: seq<Byte>)
    requires bytes != []
    ensures Value(bytes) / 256 == Value(bytes[1..]) && Value(bytes) % 256 == bytes[0]
  {
    LowByte(bytes[0], Value(bytes[1..]));
  }

  lemma DropByte(bytes: seq<Byte>, n: nat)
    requires bytes != []
    ensures Shr(Value(bytes), 8 + n) == Shr(Value(bytes[1..]), n)
  {
    ShrTwice(Value(bytes), 8, n);
    ShrByEight(Value(bytes));
    ValueOverByte(bytes);
  }

  /** Shifting out 8i bits drops the first i bytes. */
  lemma {:induction false} DropBytes(bytes: seq<Byte>, i: nat, n: nat)
    requires i <= |bytes|
    ensures Shr(Value(bytes), 8 * i + n) == Shr(Value(bytes[i..]), n)
    decreases i
  {
    if i == 0 {
      assert bytes[0..] == bytes;
    } else {
      DropBytes(bytes, i - 1, 8 + n);
      DropByte(bytes[i - 1..], n);
      assert bytes[i - 1..][1..] == bytes[i..];
    }
  }

  lemma NoBitsAbove(bytes: seq<Byte>, n: nat)
    requires n >= 8 * |bytes|
    ensures Shr(Value(bytes), n) == 0
  {
    DropBytes(bytes, |bytes|, n - 8 * |bytes|);
    ShrOfZero(n - 8 * |bytes|);
  }

  function ByteAt(bytes: seq<Byte>, i: nat): Byte { if i < |bytes| then bytes[i] else 0 }

  lemma TwoBytes(bytes: seq<Byte>, i: nat) returns (rest: nat)
    requires i < |bytes|
    ensures Value(bytes[i..]) == bytes[i] + 256 * (ByteAt(bytes, i + 1) + 256 * rest)
  {
    assert bytes[i..][1..] == bytes[i + 1..];
    rest := 0;
    if i + 1 < |bytes| {
      assert bytes[i + 1..][1..] == bytes[i + 2..];
      rest := Value(bytes[i + 2..]);
    }
  }

  lemma TopBitsOfByte(low: Byte, j: nat)
    requires j < 8
    ensures Shr(Shr(low, j), 8 - j) == 0
  {
    ShrTwice(low, j, 8 - j);
    ShrByEight(low);
  }

  /** Of two higher bytes only the lower one reaches the five bits. */
  lemma OnlyNextMatters(x: nat, next: Byte, rest: nat, k: nat)
    ensures (x + Shl(next + 256 * rest, k)) % 32 == (x + Shl(next, k)) % 32
  {
    assert next + 256 * rest == next + 32 * (8 * rest);
    ShlOfSum(next, 8 * rest, k);
    MultipleOf32(x + Shl(next, k), Shl(8 * rest, k));
  }

  lemma MultipleOf32(x: nat, m: nat)
    ensures (x + 32 * m) % 32 == x % 32
  {
  }

  lemma ShrOfTwo(low: Byte, above: nat, j: nat)
    requires j < 8
    ensures Shr(low + 256 * above, j) == Shr(low, j) + Shl(above, 8 - j)
  {
    ShlByEight(above);
    ShrOfSum(low, above, 8, j);
  }

  lemma SameLowBits(x: nat, next: Byte, rest: nat, k: nat, a: nat, b: nat)
    requires a == x + Shl(next, k) && b == x + Shl(next + 256 * rest, k)
    ensures a % 32 == b % 32
  {
    OnlyNextMatters(x, next, rest, k);
  }

  /** The five bits at bit j of a little-endian number of at least two bytes. */
  lemma FiveBits(low: Byte, next: Byte, rest: nat, j: nat)
    requires j < 8
    ensures BitOr(Shr(low, j), Shl(next, 8 - j)) % 32 == Shr(low + 256 * (next + 256 * rest), j) % 32
  {
    var x, k, above := Shr(low, j), 8 - j, next + 256 * rest;
    assert BitOr(x, Shl(next, k)) == x + Shl(next, k) by {
      TopBitsOfByte(low, j);
      OrOfDisjoint(x, next, k);
    }
    assert Shr(low + 256 * above, j) == x + Shl(above, k) by { ShrOfTwo(low, above, j); }
    SameLowBits(x, next, rest, k, BitOr(x, Shl(next, k)), Shr(low + 256 * above, j));
  }

  lemma {:induction false} ShlOfZero(n: nat)
    ensures Shl(0, n) == 0
  {
    if n > 0 { ShlOfZero(n - 1); }
  }

  /** The loop's digit is the one at that position of the number. */
  lemma DigitIsPositional(bytes: seq<Byte>, n: nat)
    requires n * 5 / 8 < |bytes|
    ensures Digit(bytes, n) == Shr(Value(bytes), 5 * n) % 32
  {
    var i, j := n * 5 / 8, n * 5 % 8;
    DropBytes(bytes, i, j);
    assert 8 * i + j == 5 * n;
    var rest := TwoBytes(bytes, i);
    FiveBits(bytes[i], ByteAt(bytes, i + 1), rest, j);
    ShlOfZero(8 - j);
  }

  // ---- The whole text

  lemma {:induction false} IndexOfDigit(d: nat, i: nat)
    requires i <= d < 32
    ensures IndexFrom(ALPHABET[d], i) == Some(d)
    decreases d - i
  {
    if i < d {
      Ascending(i, d);
      IndexOfDigit(d, i + 1);
    }
  }

  lemma {:induction false} Ascending(i: nat, d: nat)
    requires i < d < 32
    ensures ALPHABET[i] < ALPHABET[d]
    decreases d
  {
    assert forall k | 0 <= k < 31 :: ALPHABET[k] < ALPHABET[k + 1];
    if i + 1 < d { Ascending(i, d - 1); }
  }

  lemma NextDigit(value: nat, n: nat)
    ensures Shr(value, 5 * n) == 32 * Shr(value, 5 * (n + 1)) + Shr(value, 5 * n) % 32
  {
    ShrTwice(value, 5 * n, 5);
    ShrByFive(Shr(value, 5 * n));
  }

  lemma DigitsSuffice(n: nat)
    ensures 8 * n <= 5 * EncodedLength(n)
  {
  }

  lemma DigitInRange(n: nat, count: nat)
    requires n < EncodedLength(count)
    ensures n * 5 / 8 < count
  {
  }

  lemma ReadingOfNoDigits(bytes: seq<Byte>)
    ensures var n := EncodedLength(|bytes|);
            Reading(DigitsDownTo(bytes, n)) == Some(Shr(Value(bytes), 5 * n))
  {
    DigitsSuffice(|bytes|);
    NoBitsAbove(bytes, 5 * EncodedLength(|bytes|));
  }

  lemma DigitRecurrence(bytes: seq<Byte>, n: nat)
    requires n * 5 / 8 < |bytes|
    ensures Shr(Value(bytes), 5 * n) == 32 * Shr(Value(bytes), 5 * (n + 1)) + Digit(bytes, n)
  {
    DigitIsPositional(bytes, n);
    NextDigit(Value(bytes), n);
  }

  lemma ReadingDigit(high: string, d: nat)
    requires d < 32 && Reading(high).Some?
    ensures Reading(high + [ALPHABET[d]]) == Some(32 * Reading(high).value + d)
  {
    IndexOfDigit(d, 0);
    ReadingSnoc(high, ALPHABET[d]);
  }

  /** One more digit on a text that reads as `high`. */
  lemma ReadingStep(more: string, text: string, high: nat, low: nat, d: nat)
    requires Reading(more) == Some(high) && d < 32 && text == more + [ALPHABET[d]] && low == 32 * high + d
    ensures Reading(text) == Some(low)
  {
    ReadingDigit(more, d);
  }

  /** Reading the digits down to digit n gives the number without its n lowest. */
  lemma {:induction false} ReadingOfDigits(bytes: seq<Byte>, n: nat)
    requires n <= EncodedLength(|bytes|)
    ensures Reading(DigitsDownTo(bytes, n)) == Some(Shr(Value(bytes), 5 * n))
    decreases EncodedLength(|bytes|) - n
  {
    if n == EncodedLength(|bytes|) {
      ReadingOfNoDigits(bytes);
    } else {
      ReadingOfDigits(bytes, n + 1);
      DigitInRange(n, |bytes|);
      DigitRecurrence(bytes, n);
      ReadingStep(DigitsDownTo(bytes, n + 1), DigitsDownTo(bytes, n),
                  Shr(Value(bytes), 5 * (n + 1)), Shr(Value(bytes), 5 * n), Digit(bytes, n));
    }
  }

  /** Base 32 is positional: the text has ceil(8n/5) digits, and read as a number
      it is the bytes as a little-endian number. */
  lemma EncodedIsPositional(bytes: seq<Byte>)
    ensures |Encoded(bytes)| == (8 * |bytes| + 4) / 5
    ensures Reading(Encoded(bytes)) == Some(Value(bytes))
  {
    ReadingOfDigits(bytes, 0);
  }

  // ---- A decoder

  function LittleEndian(value: nat, n: nat): seq<Byte> {
    if n == 0 then [] else [value % 256] + LittleEndian(value / 256, n - 1)
  }

  /** The bytes that a text stands for: None for a foreign character, for a length
      that no byte string has, and for padding bits that are not zero. */
  function Decode(text: string): Option<seq<Byte>> {
    var n := |text| * 5 / 8;
    var value := Reading(text);
    if |text| != EncodedLength(n) || value.None? || Shr(value.value, 8 * n) != 0 then None
    else Some(LittleEndian(value.value, n))
  }

  lemma {:induction false} LittleEndianOfValue(bytes: seq<Byte>)
    ensures LittleEndian(Value(bytes), |bytes|) == bytes
  {
    if bytes != [] {
      ValueOverByte(bytes);
      LittleEndianOfValue(bytes[1..]);
    }
  }

  lemma {:induction false} ValueOfLittleEndian(value: nat, n: nat)
    requires Shr(value, 8 * n) == 0
    ensures |LittleEndian(value, n)| == n && Value(LittleEndian(value, n)) == value
    decreases n
  {
    if n > 0 {
      ShrTwice(value, 8, 8 * (n - 1));
      ShrByEight(value);
      ValueOfLittleEndian(value / 256, n - 1);
    }
  }

  lemma SameDigit(a: char, b: char)
    ensures Index(a).Some? && Index(a) == Index(b) ==> a == b
  {
  }

  lemma LastDigits(a: nat, b: nat, x: nat, y: nat)
    requires 32 * a + x == 32 * b + y && x < 32 && y < 32
    ensures a == b && x == y
  {
  }

  lemma {:induction false} ReadingIsInjective(a: string, b: string)
    requires |a| == |b| && Reading(a).Some? && Reading(a) == Reading(b)
    ensures a == b
    decreases |a|
  {
    if a != [] {
      var m := |a| - 1;
      assert a == a[..m] + [a[m]] && b == b[..m] + [b[m]];
      ReadingSnoc(a[..m], a[m]);
      ReadingSnoc(b[..m], b[m]);
      LastDigits(Reading(a[..m]).value, Reading(b[..m]).value, Index(a[m]).value, Index(b[m]).value);
      SameDigit(a[m], b[m]);
      ReadingIsInjective(a[..m], b[..m]);
    }
  }

  /** The decoder inverts the encoder, and accepts nothing else. */
  lemma DecodeInverts(text: string, bytes: seq<Byte>)
    ensures Decode(text) == Some(bytes) <==> text == Encoded(bytes)
  {
    EncodedIsPositional(bytes);
    if text == Encoded(bytes) {
      assert |text| * 5 / 8 == |bytes|;
      NoBitsAbove(bytes, 8 * |bytes|);
      LittleEndianOfValue(bytes);
    }
    if Decode(text) == Some(bytes) {
      ValueOfLittleEndian(Reading(text).value, |text| * 5 / 8);
      ReadingIsInjective(text, Encoded(bytes));
    }
  }

  /** Different byte strings have different texts. */
  lemma EncodedIsInjective(a: seq<Byte>, b: seq<Byte>)
    requires Encoded(a) == Encoded(b)
    ensures a == b
  {
    DecodeInverts(Encoded(a), a);
    DecodeInverts(Encoded(a), b);
  }
}
