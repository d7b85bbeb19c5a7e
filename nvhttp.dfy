/** The `NvHttp` helper of the three front-ends: the base URL of the streaming
  * server's HTTP interface, the IPv4-literal test that decides whether a
  * hostname needs resolving, the client's unique id and the string `Truncate`
  * helper. Name resolution over a socket is a parameter: the address the
  * socket reports. */
module NvHttp {
  import opened Common
  import opened HexText
  import opened Decimal
  import opened PairingCrypto
  import opened RoamingSettings
  import AppLaunch

  /** `PORT` of Moonlight and of the shared Limelight project. */
  const HTTPS_PORT: nat := 47984
  /** `PORT` of the early Limelight project, which talks plain HTTP. */
  const HTTP_PORT: nat := 47989

  /** `scheme + "://" + host + ":" + port`. */
  function BaseUrl(scheme: string, host: string, port: nat): (url: string)
    ensures |url| == |scheme| + 3 + |host| + 1 + |NatToString(port)|
    ensures url[..|scheme| + 3] == scheme + "://"
    ensures url[|scheme| + 3..|scheme| + 3 + |host|] == host
    ensures url[|scheme| + 3 + |host|..] == ":" + NatToString(port)
  {
    var head := scheme + "://";
    var tail := ":" + NatToString(port);
    assert (head + (host + tail))[|head|..] == host + tail;
    head + (host + tail)
  }

  /** The host can be read back from the base URL: two servers never share one. */
  lemma BaseUrlInjective(scheme: string, host1: string, host2: string, port: nat)
    requires BaseUrl(scheme, host1, port) == BaseUrl(scheme, host2, port)
    ensures host1 == host2
  {
    var url := BaseUrl(scheme, host1, port);
    assert |host1| == |host2|;
    assert host1 == url[|scheme| + 3..|scheme| + 3 + |host1|] == host2;
  }

  // ----- The IPv4-literal pattern -----

  /** One alternative of `[0-9]|[1-9][0-9]|1[0-9]{2}|2[0-4][0-9]|25[0-5]`. */
  predicate OctetText(t: string)
  {
    (|t| == 1 && IsDigit(t[0])) ||
    (|t| == 2 && '1' <= t[0] <= '9' && IsDigit(t[1])) ||
    (|t| == 3 && t[0] == '1' && IsDigit(t[1]) && IsDigit(t[2])) ||
    (|t| == 3 && t[0] == '2' && '0' <= t[1] <= '4' && IsDigit(t[2])) ||
    (|t| == 3 && t[0] == '2' && t[1] == '5' && '0' <= t[2] <= '5')
  }

  function Quad(a: string, b: string, c: string, d: string): string
  {
    a + "." + b + "." + c + "." + d
  }

  /** The strings the anchored pattern `^((octet)\.){3}(octet)$` matches. Without
    * the multiline option `$` matches at the end and also before one final
    * newline. */
  ghost predicate PatternAccepts(s: string)
  {
    exists a, b, c, d :: OctetText(a) && OctetText(b) && OctetText(c) && OctetText(d) &&
      (s == Quad(a, b, c, d) || s == Quad(a, b, c, d) + "\n")
  }

  /** The text between the dots, in order; a text without dots is one part. */
  function SplitDots(s: string): (parts: seq<string>)
    ensures |parts| >= 1
    decreases |s|
  {
    if |s| == 0 then [""]
    else
      var rest := SplitDots(s[1..]);
      if s[0] == '.' then [""] + rest else [[s[0]] + rest[0]] + rest[1..]
  }

  lemma {:induction false} SplitNoDot(a: string)
    requires '.' !in a
    ensures SplitDots(a) == [a]
    decreases |a|
  {
    if |a| > 0 {
      SplitNoDot(a[1..]);
      assert [a[0]] + a[1..] == a;
    }
  }

  lemma {:induction false} SplitAtDot(a: string, rest: string)
    requires '.' !in a
    ensures SplitDots(a + "." + rest) == [a] + SplitDots(rest)
    decreases |a|
  {
    var s := a + "." + rest;
    if |a| == 0 {
      assert s[1..] == rest;
    } else {
      assert s[1..] == a[1..] + "." + rest;
      SplitAtDot(a[1..], rest);
      assert [a[0]] + a[1..] == a;
    }
  }

  lemma SplitQuad(a: string, b: string, c: string, d: string)
    requires '.' !in a && '.' !in b && '.' !in c && '.' !in d
    ensures SplitDots(Quad(a, b, c, d)) == [a, b, c, d]
  {
    var r3 := c + "." + d;
    var r2 := b + "." + r3;
    SplitNoDot(d);
    SplitAtDot(c, d);
    SplitAtDot(b, r3);
    SplitAtDot(a, r2);
    assert Quad(a, b, c, d) == a + "." + r2;
  }

  /** Parts joined with dots between them. */
  function JoinDots(parts: seq<string>): (s: string)
    requires |parts| >= 1
    decreases |parts|
  {
    if |parts| == 1 then parts[0] else parts[0] + "." + JoinDots(parts[1..])
  }

  lemma JoinFour(p: seq<string>)
    requires |p| == 4
    ensures JoinDots(p) == Quad(p[0], p[1], p[2], p[3])
  {
    assert p[1..][1..][1..] == [p[3]];
    assert p[1..][1..][0] == p[2] && p[1..][0] == p[1];
    var r3 := p[2] + "." + p[3];
    var r2 := p[1] + "." + r3;
    assert JoinDots(p[1..][1..]) == r3;
    assert JoinDots(p[1..]) == r2;
    assert Quad(p[0], p[1], p[2], p[3]) == p[0] + "." + r2;
  }

  lemma {:induction false} JoinSplit(s: string)
    ensures JoinDots(SplitDots(s)) == s
    decreases |s|
  {
    if |s| > 0 {
      JoinSplit(s[1..]);
      var rest := SplitDots(s[1..]);
      if s[0] == '.' {
        assert ([""] + rest)[1..] == rest;
      } else {
        var parts := [[s[0]] + rest[0]] + rest[1..];
        assert parts[0] == [s[0]] + rest[0] && parts[1..] == rest[1..];
        assert [s[0]] + s[1..] == s;
        if |rest| > 1 {
          var j := JoinDots(rest[1..]);
          assert JoinDots(parts) == ([s[0]] + rest[0]) + "." + j;
          assert s[1..] == rest[0] + "." + j;
          assert ([s[0]] + rest[0]) + "." + j == [s[0]] + (rest[0] + "." + j);
        }
      }
    }
  }

  /** The input without the one final newline `$` tolerates. */
  function DropFinalNewline(s: string): (t: string)
    ensures s == t || s == t + "\n"
  {
    if |s| > 0 && s[|s| - 1] == '\n' then s[..|s| - 1] else s
  }

  /** The regular-expression test as a function: at most one final newline
    * dropped, then exactly four dot-separated parts, each an octet. */
  function IsIPv4Literal(hostname: string): (b: bool)
  {
    var parts := SplitDots(DropFinalNewline(hostname));
    |parts| == 4 && OctetText(parts[0]) && OctetText(parts[1]) && OctetText(parts[2]) && OctetText(parts[3])
  }

  lemma OctetShape(t: string)
    requires OctetText(t)
    ensures 1 <= |t| <= 3 && AllDigits(t) && '.' !in t && t[|t| - 1] != '\n'
  {
  }

  /** Whatever the function accepts, the pattern matches. */
  lemma IPv4LiteralMatches(s: string)
    requires IsIPv4Literal(s)
    ensures PatternAccepts(s)
  {
    var t := DropFinalNewline(s);
    var p := SplitDots(t);
    JoinSplit(t);
    JoinFour(p);
    assert OctetText(p[0]) && OctetText(p[1]) && OctetText(p[2]) && OctetText(p[3]);
  }

  /** Whatever the pattern matches, the function accepts. */
  lemma MatchIsIPv4Literal(s: string, a: string, b: string, c: string, d: string)
    requires OctetText(a) && OctetText(b) && OctetText(c) && OctetText(d)
    requires s == Quad(a, b, c, d) || s == Quad(a, b, c, d) + "\n"
    ensures IsIPv4Literal(s)
  {
    OctetShape(a);
    OctetShape(b);
    OctetShape(c);
    OctetShape(d);
    var q := Quad(a, b, c, d);
    assert q[|q| - 1] == d[|d| - 1];
    assert DropFinalNewline(s) == q by {
      if s == q + "\n" {
        assert s[..|s| - 1] == q;
      }
    }
    SplitQuad(a, b, c, d);
  }

  /** The function accepts exactly the strings the pattern matches. */
  lemma IPv4LiteralIsPattern(s: string)
    ensures IsIPv4Literal(s) <==> PatternAccepts(s)
  {
    if IsIPv4Literal(s) {
      IPv4LiteralMatches(s);
    }
    if PatternAccepts(s) {
      var a, b, c, d :| OctetText(a) && OctetText(b) && OctetText(c) && OctetText(d) &&
                        (s == Quad(a, b, c, d) || s == Quad(a, b, c, d) + "\n");
      MatchIsIPv4Literal(s, a, b, c, d);
    }
  }

  lemma DecimalValueOfThree(t: string)
    requires |t| == 3 && AllDigits(t)
    ensures DecimalValue(t) == (DigitValue(t[0]) * 10 + DigitValue(t[1])) * 10 + DigitValue(t[2])
  {
    var t2, t1 := t[..2], t[..1];
    assert t2[..1] == t1 && t2[1] == t[1];
    assert t1[..0] == [] && t1[0] == t[0];
    assert DecimalValue(t1) == DigitValue(t[0]);
    assert DecimalValue(t2) == DigitValue(t[0]) * 10 + DigitValue(t[1]);
  }

  /** An octet is the canonical decimal form of a byte. */
  lemma OctetIsByte(t: string)
    requires OctetText(t)
    ensures AllDigits(t) && DecimalValue(t) < 256 && NatToString(DecimalValue(t)) == t
  {
    OctetShape(t);
    NatToStringOfDecimal(t);
    if |t| == 2 {
      assert t[..1][..0] == [] && t[..1][0] == t[0];
    } else if |t| == 3 {
      DecimalValueOfThree(t);
    }
  }

  /** Every byte printed in decimal is an octet. */
  lemma ByteIsOctet(b: byte)
    ensures OctetText(NatToString(b))
  {
    var s := NatToString(b);
    if b >= 10 {
      var h := b / 10;
      if h >= 10 {
        assert NatToString(h) == [DigitChar(h / 10), DigitChar(h % 10)];
        assert s == [DigitChar(h / 10), DigitChar(h % 10), DigitChar(b % 10)];
      } else {
        assert s == [DigitChar(h), DigitChar(b % 10)];
      }
    }
  }

  /** A hostname that passes the test always packs into an address without an
    * exception, octet by octet. */
  lemma IPv4LiteralPacks(hostname: string)
    requires IsIPv4Literal(hostname)
    ensures AppLaunch.ServerAddress(hostname).Ok?
    ensures var p := SplitDots(DropFinalNewline(hostname));
            forall k :: 0 <= k < 4 ==> AppLaunch.AddressOctet(AppLaunch.ServerAddress(hostname).value, k) == DecimalValue(p[k])
  {
    var t := DropFinalNewline(hostname);
    var p := SplitDots(t);
    OctetIsByte(p[0]);
    OctetIsByte(p[1]);
    OctetIsByte(p[2]);
    OctetIsByte(p[3]);
    OctetShape(p[0]);
    OctetShape(p[1]);
    OctetShape(p[2]);
    OctetShape(p[3]);
    JoinSplit(t);
    JoinFour(p);
    var rest := if t == hostname then "" else "\n";
    assert hostname == p[0] + ['.'] + p[1] + ['.'] + p[2] + ['.'] + p[3] + rest;
    AppLaunch.QuadMatches(p[0], p[1], p[2], p[3], '.', '.', '.', rest);
  }

  // ----- Truncate -----

  /** `Truncate(value, maxLength)` of a non-null string: the empty string and
    * a string within the limit come back unchanged, a longer one is cut to
    * `maxLength` characters, and a negative limit on a non-empty string makes
    * `Substring` throw. */
  function Truncate(value: string, maxLength: int): (r: Result<string>)
    ensures r.Err? <==> |value| > 0 && maxLength < 0
    ensures r.Err? ==> r.error == ArgumentOutOfRange
    ensures r.Ok? ==> |r.value| <= |value| && r.value == value[..|r.value|]
    ensures r.Ok? && |value| > 0 ==> |r.value| == Min(|value|, maxLength)
    ensures |value| == 0 ==> r == Ok(value)
  {
    if |value| == 0 then Ok(value)
    else if |value| <= maxLength then Ok(value)
    else if maxLength < 0 then Err(ArgumentOutOfRange)
    else Ok(value[..maxLength])
  }

  /** Truncating twice to the same limit is truncating once. */
  lemma TruncateIdempotent(value: string, maxLength: int)
    requires Truncate(value, maxLength).Ok?
    ensures Truncate(Truncate(value, maxLength).value, maxLength) == Truncate(value, maxLength)
  {
  }

  // ----- Hostname validation -----

  /** `Char.IsWhiteSpace`: the Unicode separators, tab to carriage return,
    * next-line and the no-break spaces. */
  predicate IsWhiteSpace(c: char)
  {
    c == ' ' || '\t' <= c <= '\r' || c as int == 0x85 || c as int == 0xA0 || c as int == 0x1680 ||
    (0x2000 <= c as int <= 0x200A) || c as int == 0x2028 || c as int == 0x2029 ||
    c as int == 0x202F || c as int == 0x205F || c as int == 0x3000
  }

  /** `String.IsNullOrWhiteSpace` of a non-null string. */
  predicate IsNullOrWhiteSpace(s: string)
  {
    forall i :: 0 <= i < |s| ==> IsWhiteSpace(s[i])
  }

  /** The hex id of the 8 bytes `GetUniqueId` reads from the hardware token of
    * the shared project; a token shorter than 8 bytes makes the read fail. */
  function SharedUniqueId(token: seq<byte>): (r: Result<string>)
    ensures r.Ok? <==> |token| >= 8
    ensures r.Ok? ==> |r.value| == 16 && IsUpperHex(r.value)
    ensures r.Ok? ==> HexToBytes(r.value) == Ok(token[..8])
  {
    if |token| < 8 then Err(ArgumentOutOfRange)
    else
      HexRoundTrip(token[..8]);
      HexIsUpper(token[..8]);
      Ok(Hex(token[..8]))
  }

  lemma HexIsUpper(bytes: seq<byte>)
    ensures |Hex(bytes)| == 2 * |bytes| && IsUpperHex(Hex(bytes))
  {
  }

  /** The roaming-settings key of Moonlight's client id. */
  const UNIQUE_ID_KEY: string := "uniqueid"

  /** The id a call of `GetUniqueId` returns without generating a new one. */
  function StoredUniqueId(values: map<string, SettingValue>): (id: Option<Result<string>>)
    ensures id.None? <==> UNIQUE_ID_KEY !in values
    ensures id.Some? ==> (id.value.Ok? <==> values[UNIQUE_ID_KEY].Bytes?)
  {
    if UNIQUE_ID_KEY !in values then None
    else match values[UNIQUE_ID_KEY]
      case Bytes(b) => Some(Ok(Hex(b)))
      case Text(_) => Some(Err(InvalidCast))
  }

  /** The store holds an 8-byte id or none. */
  predicate UniqueIdWellFormed(values: map<string, SettingValue>)
  {
    UNIQUE_ID_KEY in values ==> values[UNIQUE_ID_KEY].Bytes? && |values[UNIQUE_ID_KEY].bytes| == 8
  }

  /** Moonlight's `NvHttp`: no validation, HTTPS on 47984. */
  class MoonlightNvHttp {
    const hostname: string
    var baseUrl: string

    constructor (hostnameString: string)
      ensures hostname == hostnameString
      ensures baseUrl == BaseUrl("https", hostnameString, HTTPS_PORT)
    {
      hostname := hostnameString;
      baseUrl := BaseUrl("https", hostnameString, HTTPS_PORT);
    }

    /** Reuses the stored id, or stores the 8 freshly generated bytes first;
      * either way the next call returns the same text. */
    method GetUniqueId(settings: SettingsStore, generated: seq<byte>) returns (id: Result<string>)
      requires |generated| == 8
      modifies settings
      ensures old(UNIQUE_ID_KEY in settings.values) ==>
                settings.values == old(settings.values) && id == old(StoredUniqueId(settings.values)).value
      ensures !old(UNIQUE_ID_KEY in settings.values) ==>
                settings.values == old(settings.values)[UNIQUE_ID_KEY := Bytes(generated)] && id == Ok(Hex(generated))
      ensures StoredUniqueId(settings.values) == Some(id)
      ensures old(UniqueIdWellFormed(settings.values)) ==>
                UniqueIdWellFormed(settings.values) && id.Ok? && |id.value| == 16 && IsUpperHex(id.value)
    {
      var bytes: seq<byte>;
      if UNIQUE_ID_KEY in settings.values {
        var stored := settings.values[UNIQUE_ID_KEY];
        if stored.Text? {
          return Err(InvalidCast);
        }
        bytes := stored.bytes;
      } else {
        bytes := generated;
        settings.values := settings.values[UNIQUE_ID_KEY := Bytes(generated)];
      }
      HexIsUpper(bytes);
      id := Ok(Hex(bytes));
    }

    /** A literal IPv4 hostname is its own address; any other is resolved, and
      * a failed connection gives `null`. */
    function ResolveServerIPAddress(resolved: Option<string>): (ip: Option<string>)
      ensures IsIPv4Literal(hostname) ==> ip == Some(hostname)
      ensures !IsIPv4Literal(hostname) ==> ip == resolved
    {
      if IsIPv4Literal(hostname) then Some(hostname) else resolved
    }
  }

  /** The shared Limelight project's `NvHttp`: a blank hostname is refused;
    * the address and the HTTPS base URL are set by `ServerIPAddress`. */
  class SharedNvHttp {
    const hostname: string
    var serverIP: Option<string>
    var baseUrl: Option<string>

    constructor (hostnameString: string)
      requires !IsNullOrWhiteSpace(hostnameString)
      ensures hostname == hostnameString && serverIP.None? && baseUrl.None?
    {
      hostname := hostnameString;
      serverIP := None;
      baseUrl := None;
    }

    /** `new NvHttp(hostname)`, which throws `ArgumentNullException` for a blank hostname. */
    static method Create(hostnameString: string) returns (r: Result<SharedNvHttp>)
      ensures r.Err? <==> IsNullOrWhiteSpace(hostnameString)
      ensures r.Err? ==> r.error == ArgumentNull
      ensures r.Ok? ==> fresh(r.value) && r.value.hostname == hostnameString &&
                        r.value.serverIP.None? && r.value.baseUrl.None?
    {
      if IsNullOrWhiteSpace(hostnameString) {
        return Err(ArgumentNull);
      }
      var nv := new SharedNvHttp(hostnameString);
      r := Ok(nv);
    }

    /** `ServerIPAddress`: a literal IPv4 hostname is its own address; for any other
      * the socket's connect failure is swallowed and `resolved` is the remote
      * address it then reports, `None` when it never connected, whose
      * `ToString()` throws before the address or the base URL is set. */
    method ServerIPAddress(resolved: Option<string>) returns (r: Result<()>)
      modifies this
      ensures r.Err? <==> !IsIPv4Literal(hostname) && resolved.None?
      ensures r.Err? ==> r.error == NullReference && serverIP == old(serverIP) && baseUrl == old(baseUrl)
      ensures r.Ok? ==> serverIP == Some(if IsIPv4Literal(hostname) then hostname else resolved.value)
      ensures r.Ok? ==> baseUrl == Some(BaseUrl("https", serverIP.value, HTTPS_PORT))
    {
      if IsIPv4Literal(hostname) {
        serverIP := Some(hostname);
      } else if resolved.None? {
        return Err(NullReference);
      } else {
        serverIP := Some(resolved.value);
      }
      baseUrl := Some(BaseUrl("https", serverIP.value, HTTPS_PORT));
      r := Ok(());
    }
  }

  /** The early Limelight `NvHttp`: the same checks, plain HTTP on 47989. */
  class LimelightNvHttp {
    const hostname: string
    var serverIP: Option<string>
    var baseUrl: Option<string>

    constructor (hostnameString: string)
      requires !IsNullOrWhiteSpace(hostnameString)
      ensures hostname == hostnameString && serverIP.None? && baseUrl.None?
    {
      hostname := hostnameString;
      serverIP := None;
      baseUrl := None;
    }

    /** `new NvHttp(hostname)`, which throws `ArgumentNullException` for a blank hostname. */
    static method Create(hostnameString: string) returns (r: Result<LimelightNvHttp>)
      ensures r.Err? <==> IsNullOrWhiteSpace(hostnameString)
      ensures r.Err? ==> r.error == ArgumentNull
      ensures r.Ok? ==> fresh(r.value) && r.value.hostname == hostnameString &&
                        r.value.serverIP.None? && r.value.baseUrl.None?
    {
      if IsNullOrWhiteSpace(hostnameString) {
        return Err(ArgumentNull);
      }
      var nv := new LimelightNvHttp(hostnameString);
      r := Ok(nv);
    }

    /** `GetServerIPAddress`: a literal IPv4 hostname is its own address; for any other
      * the socket's connect failure is swallowed and `resolved` is the remote
      * address it then reports, `None` when it never connected, whose
      * `ToString()` throws before the address or the base URL is set. */
    method GetServerIPAddress(resolved: Option<string>) returns (r: Result<()>)
      modifies this
      ensures r.Err? <==> !IsIPv4Literal(hostname) && resolved.None?
      ensures r.Err? ==> r.error == NullReference && serverIP == old(serverIP) && baseUrl == old(baseUrl)
      ensures r.Ok? ==> serverIP == Some(if IsIPv4Literal(hostname) then hostname else resolved.value)
      ensures r.Ok? ==> baseUrl == Some(BaseUrl("http", serverIP.value, HTTP_PORT))
    {
      if IsIPv4Literal(hostname) {
        serverIP := Some(hostname);
      } else if resolved.None? {
        return Err(NullReference);
      } else {
        serverIP := Some(resolved.value);
      }
      baseUrl := Some(BaseUrl("http", serverIP.value, HTTP_PORT));
      r := Ok(());
    }
  }
}
