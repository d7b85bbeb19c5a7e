/** Starting or resuming the streamed application on the server, as both the
  * Moonlight and the shared Limelight connection pages do it: a server-info
  * query, the remote-input key and key id appended to the request, a launch
  * or a resume request depending on whether a game is already running, and
  * (Limelight only) the packing of the dotted server address into the 32-bit
  * value the native library takes. The answers of the HTTP queries are
  * parameters. */
module AppLaunch {
  import opened Common
  import opened HexText
  import opened Decimal
  import opened PairingCrypto

  const TWO_8: nat := 0x100
  const TWO_16: nat := 0x1_0000
  const TWO_24: nat := 0x100_0000
  const TWO_32: nat := 0x1_0000_0000

  /** The first four IV bytes read big-endian, as the masked shifts combine them. */
  function BigEndian32(iv: seq<byte>): (u: nat)
    requires |iv| >= 4
    ensures u < TWO_32
    ensures u / TWO_24 == iv[0]
  {
    ((iv[0] * TWO_8 + iv[1]) * TWO_8 + iv[2]) * TWO_8 + iv[3]
  }

  /** `riKeyId`: the 32-bit big-endian value of `aesIv[0..4]`, cast to `int`. */
  function RiKeyId(iv: seq<byte>): (id: int)
    requires |iv| >= 4
    ensures INT_MIN <= id <= INT_MAX
    ensures id < 0 <==> iv[0] >= 0x80
  {
    ToInt32(BigEndian32(iv))
  }

  /** The four bytes of an `int`'s two's-complement form, most significant first. */
  function Int32Bytes(id: int): (b: seq<byte>)
    ensures |b| == 4
  {
    var u := id % TWO_32;
    var v1 := u / TWO_8;
    var v2 := v1 / TWO_8;
    [v2 / TWO_8 % TWO_8, v2 % TWO_8, v1 % TWO_8, u % TWO_8]
  }

  lemma DivMod256(q: nat, r: nat)
    requires r < TWO_8
    ensures (q * TWO_8 + r) / TWO_8 == q && (q * TWO_8 + r) % TWO_8 == r
  {
  }

  /** The key id carries the first four IV bytes without loss: writing it back
    * big-endian gives them again. */
  lemma RiKeyIdBytes(iv: seq<byte>)
    requires |iv| >= 4
    ensures Int32Bytes(RiKeyId(iv)) == iv[..4]
  {
    var u := BigEndian32(iv);
    assert RiKeyId(iv) % TWO_32 == u;
    var hi := (iv[0] * TWO_8 + iv[1]) * TWO_8 + iv[2];
    DivMod256(hi, iv[3]);
    DivMod256(iv[0] * TWO_8 + iv[1], iv[2]);
    DivMod256(iv[0], iv[1]);
    assert u / TWO_8 == hi;
  }

  /** Different key ids come from IVs that differ in their first four bytes. */
  lemma RiKeyIdInjective(iv1: seq<byte>, iv2: seq<byte>)
    requires |iv1| >= 4 && |iv2| >= 4
    requires RiKeyId(iv1) == RiKeyId(iv2)
    ensures iv1[..4] == iv2[..4]
  {
    RiKeyIdBytes(iv1);
    RiKeyIdBytes(iv2);
  }

  const RIKEY_FIELD: string := "&rikey="
  const RIKEYID_FIELD: string := "&rikeyid="

  /** `riConfigString`: the key in upper-case hex and the key id in decimal. */
  function RiConfigString(key: seq<byte>, iv: seq<byte>): (s: string)
    requires |iv| >= 4
    ensures |s| == 16 + 2 * |key| + |IntToString(RiKeyId(iv))|
    ensures s[..7] == RIKEY_FIELD
    ensures s[7..7 + 2 * |key|] == Hex(key)
    ensures s[7 + 2 * |key|..16 + 2 * |key|] == RIKEYID_FIELD
    ensures s[16 + 2 * |key|..] == IntToString(RiKeyId(iv))
  {
    var hex, id := Hex(key), IntToString(RiKeyId(iv));
    var tail := RIKEYID_FIELD + id;
    var body := hex + tail;
    assert |hex| == 2 * |key| && |RIKEY_FIELD| == 7 && |RIKEYID_FIELD| == 9;
    assert body[..|hex|] == hex && body[|hex|..] == tail;
    assert tail[..9] == RIKEYID_FIELD && tail[9..] == id;
    RIKEY_FIELD + body
  }

  /** A key of a different length gives a different string: where the shorter
    * key's `&rikeyid=` begins, the longer key still has a hex digit. */
  lemma RiConfigKeyLength(key1: seq<byte>, iv1: seq<byte>, key2: seq<byte>, iv2: seq<byte>)
    requires |iv1| >= 4 && |iv2| >= 4 && |key1| < |key2|
    ensures RiConfigString(key1, iv1) != RiConfigString(key2, iv2)
  {
    var s1, s2 := RiConfigString(key1, iv1), RiConfigString(key2, iv2);
    var i := 7 + 2 * |key1|;
    assert s1[i] == RIKEYID_FIELD[0];
    assert s2[i] == Hex(key2)[i - 7];
    assert IsHexChar(s2[i]);
    assert s1[i] != s2[i];
  }

  /** The server can take the string apart again: the first `&` after the key
    * field ends the hex key, so key and key-id bytes are both determined. */
  lemma RiConfigStringInjective(key1: seq<byte>, iv1: seq<byte>, key2: seq<byte>, iv2: seq<byte>)
    requires |iv1| >= 4 && |iv2| >= 4
    requires RiConfigString(key1, iv1) == RiConfigString(key2, iv2)
    ensures key1 == key2 && iv1[..4] == iv2[..4]
  {
    if |key1| < |key2| {
      RiConfigKeyLength(key1, iv1, key2, iv2);
    } else if |key2| < |key1| {
      RiConfigKeyLength(key2, iv2, key1, iv1);
    }
    HexInjective(key1, key2);
    IntToStringInjective(RiKeyId(iv1), RiKeyId(iv2));
    RiKeyIdInjective(iv1, iv2);
  }

  /** What a start request needs besides the server's answers. */
  datatype LaunchRequest = LaunchRequest(baseUrl: string, uniqueId: string, appId: int,
                                         width: int, height: int, fps: int,
                                         riAesKey: seq<byte>, riAesIv: seq<byte>)

  function ServerInfoUrl(req: LaunchRequest): (url: string)
    ensures |url| > |req.baseUrl|
    ensures url[..|req.baseUrl|] == req.baseUrl
    ensures url[|req.baseUrl|..] == "/serverinfo?uniqueid=" + req.uniqueId
  {
    req.baseUrl + ("/serverinfo?uniqueid=" + req.uniqueId)
  }

  const LAUNCH_PREFIX: string := "/launch?uniqueid="
  const RESUME_PREFIX: string := "/resume?uniqueid="

  function LaunchQuery(req: LaunchRequest): string
  {
    req.uniqueId + "&appid=" + IntToString(req.appId) +
    "&mode=" + IntToString(req.width) + "x" + IntToString(req.height) + "x" + IntToString(req.fps) +
    "&additionalStates=1&sops=1"
  }

  /** Everything of the launch URL before the remote-input fields. */
  function LaunchHead(req: LaunchRequest): (head: string)
    ensures |head| >= |req.baseUrl| + |LAUNCH_PREFIX|
    ensures head[..|req.baseUrl|] == req.baseUrl
    ensures head[|req.baseUrl|..|req.baseUrl| + |LAUNCH_PREFIX|] == LAUNCH_PREFIX
  {
    req.baseUrl + (LAUNCH_PREFIX + LaunchQuery(req))
  }

  /** Everything of the resume URL before the remote-input fields. */
  function ResumeHead(req: LaunchRequest): (head: string)
    ensures |head| >= |req.baseUrl| + |RESUME_PREFIX|
    ensures head[..|req.baseUrl|] == req.baseUrl
    ensures head[|req.baseUrl|..|req.baseUrl| + |RESUME_PREFIX|] == RESUME_PREFIX
  {
    req.baseUrl + (RESUME_PREFIX + req.uniqueId)
  }

  /** `/launch` with the unique id, app id, `W x H x FPS` mode, the two fixed
    * flags and the remote-input fields. */
  function LaunchUrl(req: LaunchRequest): (url: string)
    requires |req.riAesIv| >= 4
  {
    LaunchHead(req) + RiConfigString(req.riAesKey, req.riAesIv)
  }

  /** `/resume` with the unique id and the remote-input fields. */
  function ResumeUrl(req: LaunchRequest): (url: string)
    requires |req.riAesIv| >= 4
  {
    ResumeHead(req) + RiConfigString(req.riAesKey, req.riAesIv)
  }

  lemma SuffixOfConcat(a: string, b: string)
    ensures (a + b)[|a|..] == b
  {
  }

  /** Both requests go to the server's base URL and carry the remote-input
    * fields at their very end. */
  lemma RequestsFrame(req: LaunchRequest)
    requires |req.riAesIv| >= 4
    ensures var ri, n := RiConfigString(req.riAesKey, req.riAesIv), |req.baseUrl|;
            |LaunchUrl(req)| >= n + |ri| && LaunchUrl(req)[..n] == req.baseUrl &&
            LaunchUrl(req)[|LaunchUrl(req)| - |ri|..] == ri &&
            |ResumeUrl(req)| >= n + |ri| && ResumeUrl(req)[..n] == req.baseUrl &&
            ResumeUrl(req)[|ResumeUrl(req)| - |ri|..] == ri
  {
    var ri := RiConfigString(req.riAesKey, req.riAesIv);
    SuffixOfConcat(LaunchHead(req), ri);
    SuffixOfConcat(ResumeHead(req), ri);
    assert LaunchUrl(req)[..|req.baseUrl|] == LaunchHead(req)[..|req.baseUrl|];
    assert ResumeUrl(req)[..|req.baseUrl|] == ResumeHead(req)[..|req.baseUrl|];
  }

  /** The second query of a start is either a launch or a resume, never both. */
  lemma LaunchIsNotResume(req: LaunchRequest)
    requires |req.riAesIv| >= 4
    ensures LaunchUrl(req) != ResumeUrl(req)
  {
    var n := |req.baseUrl|;
    assert LaunchUrl(req)[n + 1] == LaunchHead(req)[n + 1] == LAUNCH_PREFIX[1];
    assert ResumeUrl(req)[n + 1] == ResumeHead(req)[n + 1] == RESUME_PREFIX[1];
  }

  /** The answer element (`gamesession` or `resume`) counts as success unless
    * it is missing or exactly `"0"`. */
  predicate Accepted(answer: Option<string>)
  {
    answer.Some? && answer.value != "0"
  }

  /** `Int32.Parse` of a single character: a digit gives its value, anything
    * else (white space trims to nothing, a lone sign has no digits) fails. */
  lemma ParseOneChar(c: char)
    ensures IsDigit(c) ==> ParseInt32([c]) == Ok(DigitValue(c))
    ensures !IsDigit(c) ==> ParseInt32([c]) == Err(FormatError)
  {
    if IsAsciiWhiteSpace(c) {
      assert [c][1..] == [];
      assert TrimSpaces([c]) == [];
    } else {
      assert TrimSpaces([c]) == [c];
      if c == '-' || c == '+' {
        assert [c][1..] == [];
      } else if IsDigit(c) {
        assert [c][..0] == [];
        assert DecimalValue([c]) == DigitValue(c);
      } else {
        assert !AllDigits([c]) by { assert !IsDigit([c][0]); }
      }
    }
  }

  /** `Convert.ToInt32(versionString.Substring(0, 1))`: the empty string fails
    * in `Substring`, a first character other than a digit in the parse. */
  function MajorVersion(version: string): (r: Result<int>)
    ensures r.Ok? <==> |version| > 0 && IsDigit(version[0])
    ensures r.Ok? ==> r.value == DigitValue(version[0])
    ensures |version| == 0 ==> r == Err(ArgumentOutOfRange)
    ensures |version| > 0 && !IsDigit(version[0]) ==> r == Err(FormatError)
  {
    if |version| == 0 then Err(ArgumentOutOfRange)
    else
      ParseOneChar(version[0]);
      assert version[..1] == [version[0]];
      ParseInt32(version[..1])
  }

  /** What starting the application did: the URLs queried, in order, whether
    * the app is running, and the server major version when it was read. */
  datatype AppStart = AppStart(queries: seq<string>, started: bool, serverMajorVersion: Option<int>)

  /** The second request: launch when nothing runs (`currentgame` is `"0"`), resume otherwise. */
  function SecondQuery(req: LaunchRequest, currentGame: string): (url: string)
    requires |req.riAesIv| >= 4
    ensures currentGame == "0" ==> url == LaunchUrl(req)
    ensures currentGame != "0" ==> url == ResumeUrl(req)
  {
    if currentGame == "0" then LaunchUrl(req) else ResumeUrl(req)
  }

  /** Moonlight's `StartOrResumeApp`. `currentGame` and `appVersion` are the
    * two elements of the server-info document and `answer` the element of the
    * second request; a version without a leading digit throws out of the
    * method. */
  function MoonlightStartOrResumeApp(req: LaunchRequest, currentGame: Option<string>,
                                     appVersion: Option<string>, answer: Option<string>): (r: Result<AppStart>)
    requires |req.riAesIv| >= 4
    ensures r.Err? <==> currentGame.Some? && appVersion.Some? && MajorVersion(appVersion.value).Err?
    ensures r.Ok? && r.value.started <==>
              currentGame.Some? && appVersion.Some? && MajorVersion(appVersion.value).Ok? && Accepted(answer)
    ensures r.Ok? ==> |r.value.queries| >= 1 && r.value.queries[0] == ServerInfoUrl(req)
    ensures r.Ok? && r.value.serverMajorVersion.Some? ==>
              currentGame.Some? && appVersion.Some? && |appVersion.value| > 0 &&
              r.value.queries == [ServerInfoUrl(req), SecondQuery(req, currentGame.value)] &&
              r.value.serverMajorVersion == Some(DigitValue(appVersion.value[0]))
    ensures r.Ok? && r.value.serverMajorVersion.None? ==> r.value.queries == [ServerInfoUrl(req)] && !r.value.started
  {
    var info := ServerInfoUrl(req);
    if currentGame.None? || appVersion.None? then Ok(AppStart([info], false, None))
    else
      match MajorVersion(appVersion.value)
      case Err(e) => Err(e)
      case Ok(major) => Ok(AppStart([info, SecondQuery(req, currentGame.value)], Accepted(answer), Some(major)))
  }

  /** The shared Limelight `StartOrResumeApp`: the same decision without the
    * version read, so it cannot throw. */
  function SharedStartOrResumeApp(req: LaunchRequest, currentGame: Option<string>, answer: Option<string>): (r: AppStart)
    requires |req.riAesIv| >= 4
    ensures r.started <==> currentGame.Some? && Accepted(answer)
    ensures currentGame.None? ==> r.queries == [ServerInfoUrl(req)]
    ensures currentGame.Some? ==> r.queries == [ServerInfoUrl(req), SecondQuery(req, currentGame.value)]
    ensures r.serverMajorVersion.None?
  {
    var info := ServerInfoUrl(req);
    if currentGame.None? then AppStart([info], false, None)
    else AppStart([info, SecondQuery(req, currentGame.value)], Accepted(answer), None)
  }

  /** On a server whose version starts with a digit the two front-ends send the
    * same requests and reach the same verdict. */
  lemma FrontEndsAgree(req: LaunchRequest, currentGame: Option<string>, version: string, answer: Option<string>)
    requires |req.riAesIv| >= 4
    requires |version| > 0 && IsDigit(version[0])
    ensures var m := MoonlightStartOrResumeApp(req, currentGame, Some(version), answer);
            var s := SharedStartOrResumeApp(req, currentGame, answer);
            m.Ok? && m.value.queries == s.queries && m.value.started == s.started
  {
  }

  // ----- Packing the server address (shared Limelight page) -----

  /** The length of the run of ASCII digits starting at `i`; the run is maximal. */
  function DigitRun(s: string, i: nat): (n: nat)
    requires i <= |s|
    ensures i + n <= |s|
    ensures forall k :: i <= k < i + n ==> IsDigit(s[k])
    ensures i + n == |s| || !IsDigit(s[i + n])
    decreases |s| - i
  {
    if i < |s| && IsDigit(s[i]) then 1 + DigitRun(s, i + 1) else 0
  }

  /** Matches `groups` occurrences of `(\d+)` separated by `.` (any character
    * but a newline) from position `pos`, the way a backtracking matcher does:
    * the last group takes the whole digit run, every earlier group tries its
    * longest length first. */
  function MatchGroups(s: string, pos: nat, groups: nat): (m: Option<seq<string>>)
    requires pos <= |s| && groups >= 1
    ensures m.Some? ==> |m.value| == groups
    ensures m.Some? ==> forall g :: 0 <= g < groups ==> |m.value[g]| >= 1 && AllDigits(m.value[g])
    decreases groups, 1, 0
  {
    var run := DigitRun(s, pos);
    if groups == 1 then (if run == 0 then None else Some([s[pos..pos + run]]))
    else TryLength(s, pos, run, groups)
  }

  function TryLength(s: string, pos: nat, len: nat, groups: nat): (m: Option<seq<string>>)
    requires pos + len <= |s| && groups >= 2
    requires forall k :: pos <= k < pos + len ==> IsDigit(s[k])
    ensures m.Some? ==> |m.value| == groups
    ensures m.Some? ==> forall g :: 0 <= g < groups ==> |m.value[g]| >= 1 && AllDigits(m.value[g])
    decreases groups, 0, len
  {
    if len == 0 then None
    else
      var sep := pos + len;
      var rest := if sep < |s| && s[sep] != '\n' then MatchGroups(s, sep + 1, groups - 1) else None;
      if rest.Some? then Some([s[pos..sep]] + rest.value) else TryLength(s, pos, len - 1, groups)
  }

  /** `^(?<octet1>\d+).(?<octet2>\d+).(?<octet3>\d+).(?<octet4>\d+)`: anchored at
    * the start only, so anything may follow the fourth group. */
  function MatchOctets(serverIp: string): (m: Option<seq<string>>)
    ensures m.Some? ==> |m.value| == 4
  {
    MatchGroups(serverIp, 0, 4)
  }

  /** Groups written one after the other with a separator character between
    * consecutive ones. */
  function Joined(groups: seq<string>, seps: seq<char>): (s: string)
    requires |groups| >= 1 && |seps| == |groups| - 1
    ensures |s| >= |groups[0]|
    ensures s[..|groups[0]|] == groups[0]
    decreases |groups|
  {
    if |groups| == 1 then groups[0] else groups[0] + [seps[0]] + Joined(groups[1..], seps[1..])
  }

  /** A group of digits written at `pos` and not followed by a digit is
    * exactly the digit run there. */
  lemma RunOfGroup(s: string, pos: nat, g: string)
    requires |g| >= 1 && AllDigits(g)
    requires pos + |g| <= |s| && s[pos..pos + |g|] == g
    requires pos + |g| == |s| || !IsDigit(s[pos + |g|])
    ensures DigitRun(s, pos) == |g|
  {
  }

  /** Text that starts with `g + [sep] + rest` has `g`, then `sep`, then `rest`. */
  lemma SplitJoined(s: string, pos: nat, g: string, sep: char, rest: string)
    requires pos + |g| + 1 + |rest| <= |s|
    requires s[pos..pos + |g| + 1 + |rest|] == g + [sep] + rest
    ensures s[pos..pos + |g|] == g && s[pos + |g|] == sep
    ensures s[pos + |g| + 1..pos + |g| + 1 + |rest|] == rest
  {
    var j := g + [sep] + rest;
    assert s[pos..pos + |g|] == j[..|g|];
    assert s[pos + |g|] == j[|g|];
    assert s[pos + |g| + 1..pos + |g| + 1 + |rest|] == j[|g| + 1..];
  }

  /** Once the rest matches after the separator, the first group takes the
    * whole digit run. */
  lemma MatchGroupsTakesRun(s: string, pos: nat, n: nat, tail: seq<string>)
    requires n >= 1 && pos + n < |s| && s[pos + n] != '\n' && DigitRun(s, pos) == n
    requires |tail| >= 1 && MatchGroups(s, pos + n + 1, |tail|) == Some(tail)
    ensures MatchGroups(s, pos, |tail| + 1) == Some([s[pos..pos + n]] + tail)
  {
    assert TryLength(s, pos, n, |tail| + 1) == Some([s[pos..pos + n]] + tail);
  }

  /** Text that holds joined groups holds the first group, its separator and
    * the joined rest, one after the other. */
  lemma JoinedSplit(s: string, pos: nat, groups: seq<string>, seps: seq<char>)
    requires |groups| >= 2 && |seps| == |groups| - 1
    requires pos + |Joined(groups, seps)| <= |s|
    requires s[pos..pos + |Joined(groups, seps)|] == Joined(groups, seps)
    ensures var n, rest := |groups[0]|, Joined(groups[1..], seps[1..]);
            pos + n + 1 + |rest| == pos + |Joined(groups, seps)| &&
            s[pos..pos + n] == groups[0] && s[pos + n] == seps[0] &&
            s[pos + n + 1..pos + n + 1 + |rest|] == rest
  {
    var rest := Joined(groups[1..], seps[1..]);
    assert Joined(groups, seps) == groups[0] + [seps[0]] + rest;
    SplitJoined(s, pos, groups[0], seps[0], rest);
  }

  /** Text that is digit groups joined by non-digit, non-newline separators and
    * not followed by another digit matches group by group. */
  lemma {:induction false} MatchSeparated(s: string, pos: nat, groups: seq<string>, seps: seq<char>)
    requires |groups| >= 1 && |seps| == |groups| - 1
    requires forall g :: 0 <= g < |groups| ==> |groups[g]| >= 1 && AllDigits(groups[g])
    requires forall k :: 0 <= k < |seps| ==> !IsDigit(seps[k]) && seps[k] != '\n'
    requires pos + |Joined(groups, seps)| <= |s|
    requires s[pos..pos + |Joined(groups, seps)|] == Joined(groups, seps)
    requires pos + |Joined(groups, seps)| == |s| || !IsDigit(s[pos + |Joined(groups, seps)|])
    ensures MatchGroups(s, pos, |groups|) == Some(groups)
    decreases |groups|
  {
    var g0 := groups[0];
    if |groups| == 1 {
      assert Joined(groups, seps) == g0;
      RunOfGroup(s, pos, g0);
      assert MatchGroups(s, pos, 1) == Some([g0]);
      assert groups == [g0];
    } else {
      var n := |g0|;
      var tail, tailSeps := groups[1..], seps[1..];
      JoinedSplit(s, pos, groups, seps);
      var sep := seps[0];
      assert !IsDigit(sep) && sep != '\n';
      RunOfGroup(s, pos, g0);
      forall g | 0 <= g < |tail|
        ensures |tail[g]| >= 1 && AllDigits(tail[g])
      {
        assert tail[g] == groups[g + 1];
      }
      forall k | 0 <= k < |tailSeps|
        ensures !IsDigit(tailSeps[k]) && tailSeps[k] != '\n'
      {
        assert tailSeps[k] == seps[k + 1];
      }
      MatchSeparated(s, pos + n + 1, tail, tailSeps);
      MatchGroupsTakesRun(s, pos, n, tail);
      assert [g0] + tail == groups;
    }
  }

  /** Four digit groups with a separator character between consecutive ones. */
  lemma JoinedQuad(a: string, b: string, c: string, d: string, x: char, y: char, z: char)
    ensures Joined([a, b, c, d], [x, y, z]) == a + [x] + b + [y] + c + [z] + d
  {
    assert [a, b, c, d][1..] == [b, c, d] && [x, y, z][1..] == [y, z];
    assert [b, c, d][1..] == [c, d] && [y, z][1..] == [z];
    assert [c, d][1..] == [d] && [z][1..] == [];
    assert Joined([c, d], [z]) == c + [z] + d;
    assert Joined([b, c, d], [y, z]) == b + [y] + (c + [z] + d);
  }

  /** Four digit groups separated by any characters other than digits and
    * newlines, followed by anything that does not start with a digit, match as
    * those four groups. */
  lemma QuadMatches(a: string, b: string, c: string, d: string, x: char, y: char, z: char, rest: string)
    requires |a| >= 1 && |b| >= 1 && |c| >= 1 && |d| >= 1
    requires AllDigits(a) && AllDigits(b) && AllDigits(c) && AllDigits(d)
    requires !IsDigit(x) && !IsDigit(y) && !IsDigit(z) && x != '\n' && y != '\n' && z != '\n'
    requires rest == [] || !IsDigit(rest[0])
    ensures MatchOctets(a + [x] + b + [y] + c + [z] + d + rest) == Some([a, b, c, d])
  {
    var j := a + [x] + b + [y] + c + [z] + d;
    var s := j + rest;
    JoinedQuad(a, b, c, d, x, y, z);
    assert s[0..|j|] == j;
    var groups := [a, b, c, d];
    assert forall g :: 0 <= g < 4 ==> |groups[g]| >= 1 && AllDigits(groups[g]);
    MatchSeparated(s, 0, groups, [x, y, z]);
  }

  /** The usual dotted quad matches as its four numbers. */
  lemma DottedQuadMatches(a: string, b: string, c: string, d: string)
    requires |a| >= 1 && |b| >= 1 && |c| >= 1 && |d| >= 1
    requires AllDigits(a) && AllDigits(b) && AllDigits(c) && AllDigits(d)
    ensures MatchOctets(a + "." + b + "." + c + "." + d) == Some([a, b, c, d])
  {
    QuadMatches(a, b, c, d, '.', '.', '.', []);
    assert a + "." + b + "." + c + "." + d == a + ['.'] + b + ['.'] + c + ['.'] + d + [];
  }

  /** The unescaped dot admits any separator: `1x2y3z4` is read as an address. */
  lemma AnySeparatorMatches()
    ensures MatchOctets("1x2y3z4") == Some(["1", "2", "3", "4"])
  {
    QuadMatches("1", "2", "3", "4", 'x', 'y', 'z', []);
    assert "1" + ['x'] + "2" + ['y'] + "3" + ['z'] + "4" + [] == "1x2y3z4";
  }

  /** Nothing anchors the end: text after the fourth group is ignored. */
  lemma TrailingTextIgnored()
    ensures MatchOctets("10.0.0.1:47984") == Some(["10", "0", "0", "1"])
  {
    QuadMatches("10", "0", "0", "1", '.', '.', '.', ":47984");
    assert "10" + ['.'] + "0" + ['.'] + "0" + ['.'] + "1" + ":47984" == "10.0.0.1:47984";
  }

  /** `Convert.ToByte` of a group's text: `""` (the value of a group of a failed
    * match) is a format error, a number above 255 an overflow. */
  function GroupByte(g: string): (r: Result<byte>)
    requires AllDigits(g)
    ensures r.Ok? <==> |g| >= 1 && DecimalValue(g) < 256
    ensures r.Ok? ==> r.value == DecimalValue(g)
    ensures |g| == 0 ==> r == Err(FormatError)
    ensures |g| >= 1 && DecimalValue(g) >= 256 ==> r == Err(OverflowError)
  {
    if |g| == 0 then Err(FormatError)
    else if DecimalValue(g) >= 256 then Err(OverflowError)
    else Ok(DecimalValue(g))
  }

  /** `octet4 << 24 | octet3 << 16 | octet2 << 8 | octet1` read as `uint`: the
    * first octet of the text ends up in the low byte. */
  function PackAddress(o1: byte, o2: byte, o3: byte, o4: byte): (addr: nat)
    ensures addr < TWO_32
  {
    o4 * TWO_24 + o3 * TWO_16 + o2 * TWO_8 + o1
  }

  /** Byte `k` of a 32-bit value, counting from the low end. */
  function AddressOctet(addr: nat, k: nat): (b: byte)
    requires k < 4
  {
    if k == 0 then addr % TWO_8 else AddressOctet(addr / TWO_8, k - 1)
  }

  /** Unpacking gives the four octets back in text order. */
  lemma PackAddressOctets(o1: byte, o2: byte, o3: byte, o4: byte)
    ensures var addr := PackAddress(o1, o2, o3, o4);
            AddressOctet(addr, 0) == o1 && AddressOctet(addr, 1) == o2 &&
            AddressOctet(addr, 2) == o3 && AddressOctet(addr, 3) == o4
  {
    var addr := PackAddress(o1, o2, o3, o4);
    var v1, v2 := (o4 * TWO_8 + o3) * TWO_8 + o2, o4 * TWO_8 + o3;
    assert addr == v1 * TWO_8 + o1;
    DivMod256(v1, o1);
    DivMod256(v2, o2);
    DivMod256(o4, o3);
    assert AddressOctet(addr, 1) == AddressOctet(v1, 0);
    assert AddressOctet(addr, 2) == AddressOctet(v1, 1) == AddressOctet(v2, 0);
    assert AddressOctet(addr, 3) == AddressOctet(v1, 2) == AddressOctet(v2, 1) == AddressOctet(o4, 0);
  }

  /** The value handed to the native `StartConnection`. A failed match leaves
    * every group empty, so the first conversion (of `octet4`) throws a format
    * error; an octet above 255 throws an overflow. */
  function ServerAddress(serverIp: string): (r: Result<nat>)
    ensures r.Ok? ==> r.value < TWO_32
    ensures r.Ok? <==> MatchOctets(serverIp).Some? &&
                       forall k :: 0 <= k < 4 ==> DecimalValue(MatchOctets(serverIp).value[k]) < 256
    ensures MatchOctets(serverIp).None? ==> r == Err(FormatError)
    ensures r.Ok? ==> forall k :: 0 <= k < 4 ==> AddressOctet(r.value, k) == DecimalValue(MatchOctets(serverIp).value[k])
  {
    match MatchOctets(serverIp)
    case None => Err(FormatError)
    case Some(g) =>
      var o4, o3, o2, o1 := GroupByte(g[3]), GroupByte(g[2]), GroupByte(g[1]), GroupByte(g[0]);
      if o4.Err? then Err(o4.error)
      else if o3.Err? then Err(o3.error)
      else if o2.Err? then Err(o2.error)
      else if o1.Err? then Err(o1.error)
      else
        PackAddressOctets(o1.value, o2.value, o3.value, o4.value);
        Ok(PackAddress(o1.value, o2.value, o3.value, o4.value))
  }

  /** A dotted quad of bytes printed in decimal packs to those bytes. */
  lemma DottedQuadAddress(a: byte, b: byte, c: byte, d: byte)
    ensures ServerAddress(NatToString(a) + "." + NatToString(b) + "." + NatToString(c) + "." + NatToString(d))
            == Ok(PackAddress(a, b, c, d))
  {
    var sa, sb, sc, sd := NatToString(a), NatToString(b), NatToString(c), NatToString(d);
    DottedQuadMatches(sa, sb, sc, sd);
    DecimalOfNatToString(a);
    DecimalOfNatToString(b);
    DecimalOfNatToString(c);
    DecimalOfNatToString(d);
  }
}
