/** The byte-level helpers of the Moonlight pairing handshake: base-16 text
  * in both directions, array concatenation, salting the PIN, zero padding to
  * the AES block, the fixed splits of the server's decrypted answers and the
  * PIN itself. AES, SHA-1 and RSA stay outside the model; where their output
  * is used it is a parameter. */
module PairingCrypto {
  import opened Common
  import opened HexText
  import opened Decimal

  /** `BytesToHex` as a value: two upper-case digits per byte, high nibble
    * first, bytes in order. */
  function Hex(bytes: seq<byte>): (s: string)
  {
    seq(2 * |bytes|, i requires 0 <= i < 2 * |bytes| =>
      if i % 2 == 0 then HexDigit(bytes[i / 2] / 16) else HexDigit(bytes[i / 2] % 16))
  }

  /** Fills a `2n`-character array, `v >> 4` and `v & 0x0F` of byte `j` at
    * positions `2j` and `2j+1`. */
  method BytesToHex(bytes: seq<byte>) returns (s: string)
    ensures s == Hex(bytes)
    ensures |s| == 2 * |bytes| && IsUpperHex(s)
  {
    var hexChars := new char[2 * |bytes|](_ => '0');
    var j := 0;
    while j < |bytes|
      invariant 0 <= j <= |bytes|
      invariant forall i :: 0 <= i < 2 * j ==> hexChars[i] == Hex(bytes)[i]
    {
      var v := bytes[j];
      hexChars[j * 2] := HEX_ALPHABET[v / 16];
      hexChars[j * 2 + 1] := HEX_ALPHABET[v % 16];
      j := j + 1;
    }
    s := hexChars[..];
  }

  /** `Convert.ToByte(pair, 16)` of a two-character string. The sign comes
    * first: a leading `-` throws `ArgumentException` (base 16 has no negative
    * values) and a leading `+` is skipped, leaving the second character as the
    * only digit. Otherwise both characters must be hex digits of either case;
    * anything else throws `FormatException`, "0x" included, whose prefix
    * leaves no digits. */
  function PairToByte(c0: char, c1: char): (r: Result<byte>)
    ensures r.Ok? <==> (c0 == '+' || IsHexChar(c0)) && IsHexChar(c1)
    ensures r.Err? ==> (r.error == Argument <==> c0 == '-')
    ensures r.Err? ==> r.error in {Argument, FormatError}
    ensures IsHexChar(c0) && IsHexChar(c1) ==> r == Ok(16 * HexCharValue(c0) + HexCharValue(c1))
    ensures c0 == '+' && IsHexChar(c1) ==> r == Ok(HexCharValue(c1))
  {
    if c0 == '-' then Err(Argument)
    else if c0 == '+' then
      if IsHexChar(c1) then Ok(HexCharValue(c1)) else Err(FormatError)
    else if IsHexChar(c0) && IsHexChar(c1) then Ok(16 * HexCharValue(c0) + HexCharValue(c1))
    else Err(FormatError)
  }

  /** Every complete pair of `hex`, front to back, converts; a last single
    * character is not a pair. */
  predicate PairsConvert(hex: string)
    decreases |hex|
  {
    |hex| < 2 || (PairToByte(hex[0], hex[1]).Ok? && PairsConvert(hex[2..]))
  }

  /** `HexToBytes`: every even index `x` yields `Convert.ToByte(hex.Substring(x, 2), 16)`,
    * evaluated in order, so the first pair that does not convert throws, and an
    * odd length reaches `Substring(len - 1, 2)`, which throws
    * `ArgumentOutOfRangeException`. */
  function HexToBytes(hex: string): (r: Result<seq<byte>>)
    ensures r.Ok? ==> 2 * |r.value| == |hex|
    decreases |hex|
  {
    if |hex| == 0 then Ok([])
    else if |hex| == 1 then Err(ArgumentOutOfRange)
    else
      match PairToByte(hex[0], hex[1])
      case Err(e) => Err(e)
      case Ok(b) =>
        match HexToBytes(hex[2..])
        case Err(e) => Err(e)
        case Ok(rest) => Ok([b] + rest)
  }

  /** Byte `k` of a successful decoding is the conversion of characters `2k`
    * and `2k+1`; for two hex digits that is the first as the high nibble and
    * the second as the low one. */
  lemma {:induction false} HexToBytesValues(hex: string, k: nat)
    requires HexToBytes(hex).Ok? && k < |HexToBytes(hex).value|
    ensures PairToByte(hex[2 * k], hex[2 * k + 1]) == Ok(HexToBytes(hex).value[k])
    ensures IsHexChar(hex[2 * k]) && IsHexChar(hex[2 * k + 1]) ==>
              HexToBytes(hex).value[k] == 16 * HexCharValue(hex[2 * k]) + HexCharValue(hex[2 * k + 1])
    decreases k
  {
    if k > 0 {
      HexToBytesValues(hex[2..], k - 1);
      assert hex[2..][2 * (k - 1)] == hex[2 * k];
      assert hex[2..][2 * (k - 1) + 1] == hex[2 * k + 1];
    }
  }

  /** Decoding succeeds exactly on even-length text whose every pair converts;
    * odd-length text whose pairs convert fails in `Substring`, and text whose
    * first pair starts with `-` fails with `ArgumentException`. */
  lemma {:induction false} HexToBytesSucceeds(hex: string)
    ensures HexToBytes(hex).Ok? <==> |hex| % 2 == 0 && PairsConvert(hex)
    ensures |hex| % 2 == 1 && PairsConvert(hex) ==> HexToBytes(hex) == Err(ArgumentOutOfRange)
    ensures |hex| >= 2 && hex[0] == '-' ==> HexToBytes(hex) == Err(Argument)
    decreases |hex|
  {
    if |hex| >= 2 {
      var tail := hex[2..];
      HexToBytesSucceeds(tail);
      assert |tail| % 2 == |hex| % 2;
      assert PairsConvert(hex) == (PairToByte(hex[0], hex[1]).Ok? && PairsConvert(tail));
    }
  }

  /** Text of hex digits has only convertible pairs, so even-length hex text
    * always decodes. */
  lemma {:induction false} HexPairsConvert(hex: string)
    requires IsHex(hex)
    ensures PairsConvert(hex)
    ensures |hex| % 2 == 0 ==> HexToBytes(hex).Ok?
    decreases |hex|
  {
    if |hex| >= 2 {
      IsHexSplit(hex);
      HexPairsConvert(hex[2..]);
    }
    HexToBytesSucceeds(hex);
  }

  /** Text that is not all hex digits can still decode: a pair may carry a
    * `+` sign, as in "+F". */
  lemma SignedPairDecodes()
    ensures var hex := ['+', 'F'];
            !IsHex(hex) && HexToBytes(hex) == Ok([15 as byte])
  {
    var hex := ['+', 'F'];
    assert !IsHexChar(hex[0]);
    assert HexCharValue('F') == 15;
    assert PairToByte(hex[0], hex[1]) == Ok(15);
    assert HexToBytes(hex[2..]) == Ok([]);
    var decoded: seq<byte> := [15];
    assert [15 as byte] + [] == decoded;
  }

  /** Text of two or more characters is hex exactly when its first two
    * characters and the rest are. */
  lemma IsHexSplit(hex: string)
    requires |hex| >= 2
    ensures IsHex(hex) <==> IsHexChar(hex[0]) && IsHexChar(hex[1]) && IsHex(hex[2..])
  {
    if IsHex(hex) {
      forall i | 0 <= i < |hex| - 2 ensures IsHexChar(hex[2..][i]) {
        assert hex[2..][i] == hex[i + 2];
      }
    }
    if IsHexChar(hex[0]) && IsHexChar(hex[1]) && IsHex(hex[2..]) {
      forall i | 0 <= i < |hex| ensures IsHexChar(hex[i]) {
        if i >= 2 { assert hex[i] == hex[2..][i - 2]; }
      }
    }
  }

  lemma HexTail(bytes: seq<byte>)
    requires |bytes| > 0
    ensures Hex(bytes)[2..] == Hex(bytes[1..])
  {
  }

  /** Decoding what `BytesToHex` produced gives the bytes back. */
  lemma {:induction false} HexRoundTrip(bytes: seq<byte>)
    ensures HexToBytes(Hex(bytes)) == Ok(bytes)
    decreases |bytes|
  {
    var s := Hex(bytes);
    if |bytes| > 0 {
      HexTail(bytes);
      HexRoundTrip(bytes[1..]);
      assert s[..2] == [HexDigit(bytes[0] / 16), HexDigit(bytes[0] % 16)];
      assert [bytes[0]] + bytes[1..] == bytes;
    }
  }

  /** Different bytes have different hex forms. */
  lemma HexInjective(bytes1: seq<byte>, bytes2: seq<byte>)
    requires Hex(bytes1) == Hex(bytes2)
    ensures bytes1 == bytes2
  {
    HexRoundTrip(bytes1);
    HexRoundTrip(bytes2);
  }

  lemma UpperHexDigitRoundTrip(c: char)
    requires IsUpperHexChar(c)
    ensures IsHexChar(c) && HexDigit(HexCharValue(c)) == c
  {
  }

  /** Encoding the decoded bytes of upper-case text gives the text back, so on
    * upper-case text the two directions are inverse. */
  lemma HexOfDecoded(hex: string, bytes: seq<byte>)
    requires HexToBytes(hex) == Ok(bytes) && IsUpperHex(hex)
    ensures Hex(bytes) == hex
  {
    forall i | 0 <= i < |hex|
      ensures Hex(bytes)[i] == hex[i]
    {
      var k := i / 2;
      HexToBytesValues(hex, k);
      UpperHexDigitRoundTrip(hex[2 * k]);
      UpperHexDigitRoundTrip(hex[2 * k + 1]);
      var hi, lo := HexCharValue(hex[2 * k]), HexCharValue(hex[2 * k + 1]);
      assert bytes[k] == 16 * hi + lo;
      assert bytes[k] / 16 == hi && bytes[k] % 16 == lo;
      if i % 2 == 0 {
        assert i == 2 * k;
      } else {
        assert i == 2 * k + 1;
      }
    }
  }

  /** `concatBytes`: a fresh array with `a` at offset 0 and `b` at offset `|a|`. */
  method ConcatBytes(a: seq<byte>, b: seq<byte>) returns (c: seq<byte>)
    ensures |c| == |a| + |b|
    ensures c[..|a|] == a && c[|a|..] == b
  {
    var arr := new byte[|a| + |b|](_ => 0);
    forall i | 0 <= i < |a| {
      arr[i] := a[i];
    }
    forall i | 0 <= i < |b| {
      arr[|a| + i] := b[i];
    }
    c := arr[..];
  }

  predicate IsAscii(s: string) { forall i :: 0 <= i < |s| ==> s[i] as int < 0x80 }

  /** UTF-8 of ASCII text: one byte per character, its code. */
  function AsciiBytes(s: string): (r: seq<byte>)
    requires IsAscii(s)
    ensures |r| == |s|
  {
    seq(|s|, i requires 0 <= i < |s| => s[i] as int)
  }

  /** `SaltPin`: the salt followed by the first `|pin|` bytes of the PIN's UTF-8
    * form, in a buffer of `|salt| + |pin|` bytes. */
  method SaltPin(salt: seq<byte>, pin: string) returns (saltedPin: seq<byte>)
    requires IsAscii(pin)
    ensures |saltedPin| == |salt| + |pin|
    ensures saltedPin[..|salt|] == salt
    ensures forall i :: 0 <= i < |pin| ==> saltedPin[|salt| + i] == pin[i] as int
  {
    var arr := new byte[|salt| + |pin|](_ => 0);
    forall i | 0 <= i < |salt| {
      arr[i] := salt[i];
    }
    var utf8 := AsciiBytes(pin);
    forall i | 0 <= i < |pin| {
      arr[|salt| + i] := utf8[i];
    }
    saltedPin := arr[..];
  }

  const AES_BLOCK: nat := 16

  /** `((n + 15) / 16) * 16`: the least multiple of the block size not below `n`. */
  function BlockRoundedSize(n: nat): (r: nat)
    ensures r % AES_BLOCK == 0 && n <= r < n + AES_BLOCK
    ensures n % AES_BLOCK == 0 ==> r == n
  {
    ((n + 15) / 16) * 16
  }

  /** The padding applied before AES-ECB encryption and decryption: a fresh
    * zeroed block-rounded array with the message copied to its front. */
  method PadToBlock(message: seq<byte>) returns (padded: seq<byte>)
    ensures |padded| == BlockRoundedSize(|message|)
    ensures padded[..|message|] == message
    ensures forall i :: |message| <= i < |padded| ==> padded[i] == 0
  {
    var arr := new byte[BlockRoundedSize(|message|)](_ => 0);
    forall i | 0 <= i < |message| {
      arr[i] := message[i];
    }
    padded := arr[..];
  }

  /** A message already a whole number of blocks is passed through unchanged. */
  lemma PaddingOfAligned(message: seq<byte>, padded: seq<byte>)
    requires |message| % AES_BLOCK == 0
    requires |padded| == BlockRoundedSize(|message|) && padded[..|message|] == message
    ensures padded == message
  {
  }

  const RESPONSE_BYTES: nat := 20
  const CHALLENGE_BYTES: nat := 16
  const SECRET_BYTES: nat := 16
  const SIGNATURE_BYTES: nat := 256

  /** Splits the decrypted challenge response into the 20-byte server response
    * and the 16-byte server challenge after it. `Array.Copy` throws
    * `ArgumentException` when the source is shorter than what it copies;
    * bytes after the 36th are ignored. */
  function SplitChallengeResponse(decrypted: seq<byte>): (r: Result<(seq<byte>, seq<byte>)>)
    ensures r.Ok? <==> |decrypted| >= RESPONSE_BYTES + CHALLENGE_BYTES
    ensures r.Err? ==> r.error == Argument
    ensures r.Ok? ==> |r.value.0| == RESPONSE_BYTES && |r.value.1| == CHALLENGE_BYTES &&
                      r.value.0 + r.value.1 == decrypted[..RESPONSE_BYTES + CHALLENGE_BYTES]
  {
    if |decrypted| < RESPONSE_BYTES + CHALLENGE_BYTES then Err(Argument)
    else Ok((decrypted[..RESPONSE_BYTES], decrypted[RESPONSE_BYTES..RESPONSE_BYTES + CHALLENGE_BYTES]))
  }

  /** Splits the server's pairing secret into the 16-byte secret and the
    * 256-byte signature after it. */
  function SplitPairingSecret(secretResp: seq<byte>): (r: Result<(seq<byte>, seq<byte>)>)
    ensures r.Ok? <==> |secretResp| >= SECRET_BYTES + SIGNATURE_BYTES
    ensures r.Err? ==> r.error == Argument
    ensures r.Ok? ==> |r.value.0| == SECRET_BYTES && |r.value.1| == SIGNATURE_BYTES &&
                      r.value.0 + r.value.1 == secretResp[..SECRET_BYTES + SIGNATURE_BYTES]
  {
    if |secretResp| < SECRET_BYTES + SIGNATURE_BYTES then Err(Argument)
    else Ok((secretResp[..SECRET_BYTES], secretResp[SECRET_BYTES..SECRET_BYTES + SIGNATURE_BYTES]))
  }

  lemma DecimalValueOfFour(s: string)
    requires |s| == 4 && forall i :: 0 <= i < 4 ==> IsDigit(s[i])
    ensures DecimalValue(s) == ((DigitValue(s[0]) * 10 + DigitValue(s[1])) * 10 + DigitValue(s[2])) * 10 + DigitValue(s[3])
  {
    var s3, s2, s1 := s[..3], s[..2], s[..1];
    assert s3[..2] == s2 && s3[2] == s[2];
    assert s2[..1] == s1 && s2[1] == s[1];
    assert s1[..0] == [] && s1[0] == s[0];
    assert DecimalValue(s1) == DigitValue(s[0]);
    assert DecimalValue(s2) == DigitValue(s[0]) * 10 + DigitValue(s[1]);
    assert DecimalValue(s3) == DecimalValue(s2) * 10 + DigitValue(s[2]);
  }

  /** `new Random().Next(9999).ToString("D4")`: the draw is below 9999 and is
    * written as exactly four decimal digits, zero-padded. */
  function RandomPin(draw: nat): (pin: string)
    requires draw < 9999
    ensures |pin| == 4 && (forall i :: 0 <= i < 4 ==> IsDigit(pin[i]))
    ensures DecimalValue(pin) == draw
    ensures IsAscii(pin)
  {
    var tens := draw / 10;
    var hundreds := tens / 10;
    var pin := [DigitChar(hundreds / 10), DigitChar(hundreds % 10), DigitChar(tens % 10), DigitChar(draw % 10)];
    DecimalValueOfFour(pin);
    pin
  }

  /** Every four-digit text but "9999" is the PIN of exactly the draw it spells. */
  lemma RandomPinCovers(pin: string)
    requires |pin| == 4 && forall i :: 0 <= i < 4 ==> IsDigit(pin[i])
    requires DecimalValue(pin) < 9999
    ensures RandomPin(DecimalValue(pin)) == pin
  {
    var d0, d1, d2, d3 := DigitValue(pin[0]), DigitValue(pin[1]), DigitValue(pin[2]), DigitValue(pin[3]);
    var hundreds := d0 * 10 + d1;
    var tens := hundreds * 10 + d2;
    DecimalValueOfFour(pin);
    DivMod10(tens, d3);
    DivMod10(hundreds, d2);
    DivMod10(d0, d1);
    DigitRoundTrip(pin[0]);
    DigitRoundTrip(pin[1]);
    DigitRoundTrip(pin[2]);
    DigitRoundTrip(pin[3]);
    assert RandomPin(DecimalValue(pin)) == [DigitChar(d0), DigitChar(d1), DigitChar(d2), DigitChar(d3)];
  }

  /** The AES key material: the first 16 bytes of the 20-byte SHA-1 digest of
    * the salted PIN. */
  function AesKeyMaterial(digest: seq<byte>): (key: seq<byte>)
    requires |digest| == 20
    ensures |key| == AES_BLOCK && key + digest[AES_BLOCK..] == digest
  {
    digest[..AES_BLOCK]
  }
}
