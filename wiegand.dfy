/**
 * The 26-bit Wiegand frame (the HID H10301 layout) as `validate_bits` in
 * access.py reads it: bit 0 is even parity over bits 1-12, bits 1-8 are the
 * facility code, bits 9-24 the card (user) number, both most significant bit
 * first, and bit 25 is odd parity over bits 13-24.
 */
module Wiegand {
  import opened Wrappers
  import opened Formats

  /** A bit as `int()` reads a '0' or '1' character. */
  type Bit = b: int | 0 <= b <= 1

  const FrameLength := 26

  /** Streams hold only the characters data_pulse appends. */
  predicate IsBits(s: string)
  {
    forall i | 0 <= i < |s| :: s[i] == '0' || s[i] == '1'
  }

  function BitOf(c: char): Bit { if c == '1' then 1 else 0 }

  function BitChar(b: Bit): char { if b == 1 then '1' else '0' }

  function Xor(a: Bit, b: Bit): Bit { if a == b then 0 else 1 }

  /** XOR of every bit of s. */
  function Parity(s: string): Bit
  {
    if s == [] then 0 else Xor(Parity(s[..|s| - 1]), BitOf(s[|s| - 1]))
  }

  /** `int(s, 2)`: s read as a binary numeral, most significant bit first; it fits in |s| bits. */
  function Value(s: string): (n: nat)
    ensures n < Pow(2, |s|)
  {
    if s == [] then 0 else 2 * Value(s[..|s| - 1]) + BitOf(s[|s| - 1])
  }

  datatype Credential = Credential(facility: nat, userId: nat, cardId: string)

  datatype DecodeError = LengthError | ParityError

  /**
   * What validate_bits decides about a completed stream: a length error, a
   * parity error, or the decoded credential, whose card id is the whole
   * frame as 8 lowercase hex digits (`"%08x" % int(bstr, 2)`).
   */
  function Validate(bstr: string): (r: Result<Credential, DecodeError>)
    requires IsBits(bstr)
    ensures r.Success? ==> r.value.facility < 256 && r.value.userId < 65536
  {
    if |bstr| != FrameLength then Failure(LengthError)
    else if Parity(bstr[1..13]) != BitOf(bstr[0]) || Xor(1, Parity(bstr[13..25])) != BitOf(bstr[25]) then
      Failure(ParityError)
    else
      Success(Credential(Value(bstr[1..9]), Value(bstr[9..25]), Hex(Value(bstr), 8)))
  }

  /**
   * validate_bits as written: the length test first, then the field reads,
   * then one loop accumulating both parities, starting from 0 and 1.
   */
  method ValidateBits(bstr: string) returns (r: Result<Credential, DecodeError>)
    requires IsBits(bstr)
    ensures |bstr| != FrameLength ==> r == Failure(LengthError)
    ensures r == Validate(bstr)
  {
    if |bstr| != FrameLength {
      return Failure(LengthError);
    }
    var lparity := BitOf(bstr[0]);
    var facility := Value(bstr[1..9]);
    var userId := Value(bstr[9..25]);
    var rparity := BitOf(bstr[25]);

    var calculatedL: Bit := 0;
    var calculatedR: Bit := 1;
    for i := 0 to 12
      invariant calculatedL == Parity(bstr[1..i + 1])
      invariant calculatedR == Xor(1, Parity(bstr[13..i + 13]))
    {
      assert bstr[1..i + 2][..i] == bstr[1..i + 1];
      assert bstr[13..i + 14][..i] == bstr[13..i + 13];
      calculatedL := Xor(calculatedL, BitOf(bstr[i + 1]));
      calculatedR := Xor(calculatedR, BitOf(bstr[i + 13]));
    }
    if calculatedL != lparity || calculatedR != rparity {
      return Failure(ParityError);
    }
    r := Success(Credential(facility, userId, Hex(Value(bstr), 8)));
  }

  // ----- single-bit errors -----

  function Flip(s: string, i: nat): string
    requires i < |s|
  {
    s[i := if s[i] == '1' then '0' else '1']
  }

  /** Changing any one bit changes the parity. */
  lemma {:induction false} ParityFlip(s: string, i: nat)
    requires IsBits(s) && i < |s|
    ensures Parity(Flip(s, i)) == Xor(1, Parity(s))
  {
    var n := |s|;
    var t := Flip(s, i);
    if i < n - 1 {
      assert t[..n - 1] == Flip(s[..n - 1], i);
      ParityFlip(s[..n - 1], i);
    } else {
      assert t[..n - 1] == s[..n - 1];
    }
  }

  /** Flipping any single bit of an accepted frame makes it fail the parity check. */
  lemma SingleBitErrorDetected(s: string, i: nat)
    requires IsBits(s) && Validate(s).Success? && i < |s|
    ensures IsBits(Flip(s, i)) && Validate(Flip(s, i)) == Failure(ParityError)
  {
    var t := Flip(s, i);
    if i == 0 || i == 25 {
      assert t[1..13] == s[1..13];
      assert t[13..25] == s[13..25];
    } else if i < 13 {
      assert t[1..13] == Flip(s[1..13], i - 1);
      assert t[13..25] == s[13..25];
      ParityFlip(s[1..13], i - 1);
    } else {
      assert t[1..13] == s[1..13];
      assert t[13..25] == Flip(s[13..25], i - 13);
      ParityFlip(s[13..25], i - 13);
    }
  }

  // ----- encoding -----

  /** The `width` low-order bits of n as a binary numeral, most significant first. */
  function Bits(n: nat, width: nat): (s: string)
    ensures |s| == width
  {
    if width == 0 then "" else Bits(n / 2, width - 1) + [BitChar(n % 2)]
  }

  lemma {:induction false} BitsValue(n: nat, width: nat)
    requires n < Pow(2, width)
    ensures var s := Bits(n, width); |s| == width && IsBits(s) && Value(s) == n
  {
    if width > 0 {
      BitsValue(n / 2, width - 1);
      var s := Bits(n, width);
      assert s[..width - 1] == Bits(n / 2, width - 1);
    }
  }

  lemma {:induction false} ValueBits(s: string)
    requires IsBits(s)
    ensures Bits(Value(s), |s|) == s
  {
    if s != [] {
      var n := |s|;
      ValueBits(s[..n - 1]);
      assert Value(s) / 2 == Value(s[..n - 1]);
      assert s == s[..n - 1] + [s[n - 1]];
    }
  }

  /** The frame a reader sends for (facility, userId), with both parity bits computed. */
  function Encode(facility: nat, userId: nat): string
    requires facility < 256 && userId < 65536
  {
    var payload := Bits(facility, 8) + Bits(userId, 16);
    [BitChar(Parity(payload[..12]))] + payload + [BitChar(Xor(1, Parity(payload[12..])))]
  }

  /** Where the fields and the parity bits sit in an encoded frame. */
  lemma EncodeLayout(facility: nat, userId: nat)
    requires facility < 256 && userId < 65536
    ensures var s := Encode(facility, userId);
      var payload := Bits(facility, 8) + Bits(userId, 16);
      && |s| == FrameLength
      && s[0] == BitChar(Parity(payload[..12]))
      && s[25] == BitChar(Xor(1, Parity(payload[12..])))
      && s[1..9] == Bits(facility, 8)
      && s[9..25] == Bits(userId, 16)
      && s[1..13] == payload[..12]
      && s[13..25] == payload[12..]
  {
    var payload := Bits(facility, 8) + Bits(userId, 16);
    var s := Encode(facility, userId);
    assert s[1..25] == payload;
  }

  /** A correctly encoded frame is accepted and decodes back to exactly its facility and user. */
  lemma EncodeDecode(facility: nat, userId: nat)
    requires facility < 256 && userId < 65536
    ensures IsBits(Encode(facility, userId))
    ensures Validate(Encode(facility, userId)).Success?
    ensures Validate(Encode(facility, userId)).value.facility == facility
    ensures Validate(Encode(facility, userId)).value.userId == userId
  {
    BitsValue(facility, 8);
    BitsValue(userId, 16);
    EncodeLayout(facility, userId);
    var s := Encode(facility, userId);
    assert IsBits(s) by {
      forall i | 0 <= i < |s|
        ensures s[i] == '0' || s[i] == '1'
      {
        if 1 <= i < 9 {
          assert s[i] == s[1..9][i - 1];
        } else if 9 <= i < 25 {
          assert s[i] == s[9..25][i - 9];
        }
      }
    }
  }

  /** Every accepted frame is the encoding of the facility and user it decodes to. */
  lemma DecodeEncode(s: string)
    requires IsBits(s) && Validate(s).Success?
    ensures s == Encode(Validate(s).value.facility, Validate(s).value.userId)
  {
    var c := Validate(s).value;
    ValueBits(s[1..9]);
    ValueBits(s[9..25]);
    var payload := Bits(c.facility, 8) + Bits(c.userId, 16);
    assert payload == s[1..25];
    assert payload[..12] == s[1..13];
    assert payload[12..] == s[13..25];
    var e := Encode(c.facility, c.userId);
    assert e[0] == s[0];
    assert e[25] == s[25];
    assert e[1..25] == s[1..25];
    assert e == [e[0]] + e[1..25] + [e[25]];
    assert s == [s[0]] + s[1..25] + [s[25]];
  }

  // ----- the canonical card id -----

  lemma ShiftLeft(high: nat, scale: nat, low: nat, bit: nat)
    ensures 2 * (high * scale + low) + bit == high * (2 * scale) + (2 * low + bit)
  {
  }

  /** Reading a + b in binary: a shifted left by |b| bits, plus b. */
  lemma {:induction false} ValueConcat(a: string, b: string)
    ensures Value(a + b) == Value(a) * Pow(2, |b|) + Value(b)
  {
    if b != [] {
      var n := |b|;
      var b' := b[..n - 1];
      var bit := BitOf(b[n - 1]);
      ValueConcat(a, b');
      assert (a + b)[..|a + b| - 1] == a + b';
      assert (a + b)[|a + b| - 1] == b[n - 1];
      ShiftLeft(Value(a), Pow(2, n - 1), Value(b'), bit);
    } else {
      assert a + b == a;
    }
  }

  lemma FrameArithmetic(lead: int, facility: int, userId: int, trail: int)
    ensures ((lead * 256 + facility) * 65536 + userId) * 2 + trail
      == lead * 33554432 + facility * 131072 + userId * 2 + trail
  {
  }

  lemma SingleValue(c: char)
    ensures Value([c]) == BitOf(c)
  {
    assert [c][..0] == [];
  }

  /** Reading four fields of 1, 8, 16 and 1 bits as one 26-bit numeral. */
  lemma ValueOfFields(lead: string, facility: string, userId: string, trail: string)
    requires |lead| == 1 && |facility| == 8 && |userId| == 16 && |trail| == 1
    ensures Value(lead + facility + userId + trail)
      == Value(lead) * 33554432 + Value(facility) * 131072 + Value(userId) * 2 + Value(trail)
  {
    ValueConcat(lead, facility);
    ValueConcat(lead + facility, userId);
    ValueConcat(lead + facility + userId, trail);
    assert Pow(2, 1) == 2 && Pow(2, 8) == 256 && Pow(2, 16) == 65536;
    FrameArithmetic(Value(lead), Value(facility), Value(userId), Value(trail));
  }

  /** The frame value is the leading parity bit, the facility, the user number and the trailing parity bit in their bit positions. */
  lemma FrameValue(s: string)
    requires |s| == FrameLength
    ensures Value(s) == BitOf(s[0]) * 33554432 + Value(s[1..9]) * 131072 + Value(s[9..25]) * 2 + BitOf(s[25])
  {
    assert s == [s[0]] + s[1..9] + s[9..25] + [s[25]];
    ValueOfFields([s[0]], s[1..9], s[9..25], [s[25]]);
    SingleValue(s[0]);
    SingleValue(s[25]);
  }

  /** A 26-bit frame value fits the 8 hex digits of `%08x`. */
  lemma FrameFitsCardId(s: string)
    requires |s| == FrameLength
    ensures Value(s) < Pow(16, 8)
  {
    assert Pow(2, 8) == 256;
    assert Pow(2, 16) == 65536;
    assert Pow(2, 26) == 67108864;
    assert Pow(16, 4) == 65536;
    assert Pow(16, 8) == 4294967296;
  }

  /**
   * The card id of an accepted frame is the whole 26-bit frame value, printed
   * as 8 lowercase hex digits with nothing cut off: its value is the leading
   * parity bit, the facility code, the user number and the trailing parity bit
   * in their bit positions.
   */
  lemma CardIdIsFrameValue(s: string)
    requires IsBits(s) && Validate(s).Success?
    ensures var c := Validate(s).value;
      && |c.cardId| == 8
      && (forall i | 0 <= i < 8 :: IsLowerHex(c.cardId[i]))
      && HexValue(c.cardId) == Value(s)
      && Value(s) == BitOf(s[0]) * 33554432 + c.facility * 131072 + c.userId * 2 + BitOf(s[25])
  {
    FrameFitsCardId(s);
    HexRoundTrip(Value(s), 8);
    FrameValue(s);
  }
}
