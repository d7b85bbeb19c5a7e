/** The earlier Limelight pairing helpers. `bytesToHex` and `concatBytes` are
  * the same code as in the Moonlight handshake and are modelled there
  * (`PairingCrypto.BytesToHex`, `PairingCrypto.ConcatBytes`); what differs is
  * an unfinished `HexToBytes` and a `SaltPin` whose copy of the PIN's
  * characters into a byte array always throws. */
module LimelightPairing {
  import opened Common
  import PairingCrypto

  /** What the unfinished decoder returns: `|s| / 2` bytes, all zero, whatever
    * the text says. */
  function StubDecoding(s: string): (r: seq<byte>)
    ensures |r| == |s| / 2
  {
    seq(|s| / 2, _ => 0)
  }

  /** `HexToBytes` as written: a zeroed `len / 2`-byte array and a loop over
    * the even indices whose conversion is commented out. */
  method HexToBytes(s: string) returns (data: seq<byte>)
    ensures data == StubDecoding(s)
    ensures forall k :: 0 <= k < |data| ==> data[k] == 0
  {
    var arr := new byte[|s| / 2](_ => 0);
    var i := 0;
    while i < |s|
      decreases |s| - i
    {
      i := i + 2;
    }
    data := arr[..];
  }

  /** The stub loses every byte that is not zero: decoding the hex form of any
    * such input gives something else, where the finished decoder gives the
    * input back. */
  lemma StubDecodingLosesBytes(bytes: seq<byte>, k: nat)
    requires k < |bytes| && bytes[k] != 0
    ensures StubDecoding(PairingCrypto.Hex(bytes)) != bytes
    ensures PairingCrypto.HexToBytes(PairingCrypto.Hex(bytes)) == Ok(bytes)
  {
    var d := StubDecoding(PairingCrypto.Hex(bytes));
    assert d[k] == 0;
    PairingCrypto.HexRoundTrip(bytes);
  }

  /** `SaltPin` here copies the salt, then hands the PIN's `char[]` to
    * `Array.Copy` with the byte array as destination. `Array.Copy` converts
    * elements only along widening primitive conversions and `char` to `byte`
    * is not one, so that call throws `ArrayTypeMismatchException`: for every
    * salt and every PIN, the empty PIN included, no salted PIN comes back. */
  method SaltPin(salt: seq<byte>, pin: string) returns (r: Result<seq<byte>>)
    ensures r == Err(ArrayTypeMismatch)
  {
    var saltedPin := new byte[|salt| + |pin|](_ => 0);
    forall i | 0 <= i < |salt| {
      saltedPin[i] := salt[i];
    }
    // The copy of `pin.ToCharArray()` into `saltedPin` rejects the element types.
    r := Err(ArrayTypeMismatch);
  }

  /** Where the Moonlight handshake salts an ASCII PIN into `|salt| + |pin|`
    * bytes that end in the PIN's character codes, this `SaltPin` fails on the
    * same input. */
  method SaltPinDiscrepancy(salt: seq<byte>, pin: string) returns (asWritten: Result<seq<byte>>, intended: seq<byte>)
    requires PairingCrypto.IsAscii(pin)
    ensures asWritten.Err? && asWritten.error == ArrayTypeMismatch
    ensures |intended| == |salt| + |pin| && intended[..|salt|] == salt
    ensures forall i :: 0 <= i < |pin| ==> intended[|salt| + i] == pin[i] as int
  {
    asWritten := SaltPin(salt, pin);
    intended := PairingCrypto.SaltPin(salt, pin);
  }
}
