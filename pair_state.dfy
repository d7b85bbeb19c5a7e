/** Moonlight's `PairingManager`: asking the server whether this client is
  * already paired, and the pairing flow around the handshake. The handshake
  * itself and the dialogs it shows are not part of this module: the
  * handshake reaches `Pair` as its boolean outcome. */
module PairState {
  import opened Common
  import opened Decimal
  import opened XmlTree
  import opened XmlQuery
  import opened RoamingSettings
  import opened NvHttp
  import opened Discovery

  const STATUS_CODE_ATTRIBUTE: string := "status_code"
  const PAIR_STATUS_TAG: string := "PairStatus"

  /** The status code that tells this client is not paired. */
  const UNAUTHORIZED: int := 401

  /** The pair state the server-info page reports: `Some(true)` when paired,
    * `Some(false)` when not, `None` when the page is missing or does not
    * say; a status code that is not a 32-bit integer throws. */
  function PairStateOf(doc: Option<Document>): (r: Result<Option<bool>>)
    ensures var status := ReadXmlRootAttributeIn(STATUS_CODE_ATTRIBUTE, Container(doc));
            r.Err? <==> status.Some? && ParseInt32(status.value).Err?
    ensures var status := ReadXmlRootAttributeIn(STATUS_CODE_ATTRIBUTE, Container(doc));
            r == Ok(Some(true)) <==>
              (status.Some? && ParseInt32(status.value).Ok? && ParseInt32(status.value).value != UNAUTHORIZED &&
               ReadXmlElementIn(PAIR_STATUS_TAG, Container(doc)) == Some("1"))
    ensures doc.None? ==> r == Ok(None)
  {
    var container := Container(doc);
    var status := ReadXmlRootAttributeIn(STATUS_CODE_ATTRIBUTE, container);
    if status.None? then Ok(None)
    else
      var code := ParseInt32(status.value);
      if code.Err? then Err(code.error)
      else if code.value == UNAUTHORIZED then Ok(Some(false))
      else
        var pairStatus := ReadXmlElementIn(PAIR_STATUS_TAG, container);
        if pairStatus.None? then Ok(None) else Ok(Some(pairStatus.value == "1"))
  }

  /** A page whose `root` element carries status 401 says "not paired",
    * whatever else it holds. */
  lemma UnauthorizedMeansUnpaired(doc: Document)
    requires HasName(doc.root, "root")
    requires STATUS_CODE_ATTRIBUTE in doc.root.attributes
    requires doc.root.attributes[STATUS_CODE_ATTRIBUTE] == NatToString(UNAUTHORIZED)
    ensures PairStateOf(Some(doc)) == Ok(Some(false))
  {
    RootAttributeOfDocument(STATUS_CODE_ATTRIBUTE, doc);
    ParseInt32OfToString(UNAUTHORIZED);
  }

  /** Without a `root` element carrying a status code the state is unknown. */
  lemma NoStatusMeansUnknown(doc: Document)
    requires !HasName(doc.root, "root") || STATUS_CODE_ATTRIBUTE !in doc.root.attributes
    ensures PairStateOf(Some(doc)) == Ok(None)
  {
    RootAttributeOfDocument(STATUS_CODE_ATTRIBUTE, doc);
  }

  /** A page with a non-401 numeric status reports "paired" exactly when its
    * first `PairStatus` element reads `1`. */
  lemma PairedIffPairStatusOne(doc: Document, code: nat)
    requires HasName(doc.root, "root")
    requires STATUS_CODE_ATTRIBUTE in doc.root.attributes
    requires doc.root.attributes[STATUS_CODE_ATTRIBUTE] == NatToString(code)
    requires code <= INT_MAX && code != UNAUTHORIZED
    ensures PairStateOf(Some(doc)) == Ok(Some(true)) <==>
            ReadXmlElementIn(PAIR_STATUS_TAG, Container(Some(doc))) == Some("1")
    ensures PairStateOf(Some(doc)) == Ok(None) <==>
            ReadXmlElementIn(PAIR_STATUS_TAG, Container(Some(doc))).None?
  {
    RootAttributeOfDocument(STATUS_CODE_ATTRIBUTE, doc);
    ParseInt32OfToString(code);
  }

  /** What the fetch and the parse give the query: no document when the
    * fetch failed, a parse error as an error. */
  function FetchedDocument(fetched: Option<string>, parse: string -> Result<Document>): (r: Result<Option<Document>>)
    ensures r.Err? <==> fetched.Some? && parse(fetched.value).Err?
    ensures r.Ok? && r.value.Some? ==> fetched.Some? && parse(fetched.value) == Ok(r.value.value)
  {
    if fetched.None? then Ok(None)
    else match parse(fetched.value)
      case Err(e) => Err(e)
      case Ok(doc) => Ok(Some(doc))
  }

  /** The settings once `GetUniqueId` has run: a missing id is stored. */
  function WithUniqueId(values: map<string, SettingValue>, generated: seq<byte>): (r: map<string, SettingValue>)
    ensures UNIQUE_ID_KEY in r
    ensures forall k :: k in values ==> k in r && r[k] == values[k]
  {
    if UNIQUE_ID_KEY in values then values else values[UNIQUE_ID_KEY := Bytes(generated)]
  }

  /** The outcome of a pairing attempt when no exception escapes it. */
  datatype PairOutcome = AlreadyPaired | QueryFailed | HandshakeFailed | Paired

  /** How `Pair` decides from the pair state and the handshake's outcome. */
  function PairOutcomeOf(state: Result<Option<bool>>, handshake: bool): (r: Result<PairOutcome>)
    ensures r == Ok(Paired) <==> state == Ok(Some(false)) && handshake
    ensures r == Ok(AlreadyPaired) <==> state == Ok(Some(true))
    ensures r.Err? <==> state.Err?
  {
    match state
    case Err(e) => Err(e)
    case Ok(None) => Ok(QueryFailed)
    case Ok(Some(true)) => Ok(AlreadyPaired)
    case Ok(Some(false)) => if handshake then Ok(Paired) else Ok(HandshakeFailed)
  }

  class PairingManager {
    const nv: MoonlightNvHttp

    constructor (nvHttp: MoonlightNvHttp)
      ensures nv == nvHttp
    {
      nv := nvHttp;
    }

    /** `QueryPairState`: one query of the server-info page for this client's
      * id, read for its status code and then, unless that already decides,
      * for its `PairStatus`. */
    method QueryPairState(settings: SettingsStore, generated: seq<byte>,
                          fetched: Option<string>, parse: string -> Result<Document>)
      returns (url: string, r: Result<Option<bool>>)
      requires |generated| == 8
      modifies settings
      ensures settings.values == WithUniqueId(old(settings.values), generated)
      ensures var id := StoredUniqueId(settings.values).value;
              id.Err? ==> r == Err(id.error)
      ensures var id := StoredUniqueId(settings.values).value;
              id.Ok? ==> url == nv.baseUrl + ("/serverinfo?uniqueid=" + id.value)
      ensures var id := StoredUniqueId(settings.values).value;
              var doc := FetchedDocument(fetched, parse);
              id.Ok? ==> r == (if doc.Err? then Err(doc.error) else PairStateOf(doc.value))
    {
      var id := nv.GetUniqueId(settings, generated);
      if id.Err? {
        return "", Err(id.error);
      }
      url := nv.baseUrl + ("/serverinfo?uniqueid=" + id.value);
      var query := new MoonlightXmlQuery(url);
      var status := query.ReadXmlRootAttribute(STATUS_CODE_ATTRIBUTE, fetched, parse);
      if status.Err? {
        return url, Err(status.error);
      }
      if status.value.None? {
        return url, Ok(None);
      }
      var code := ParseInt32(status.value.value);
      if code.Err? {
        return url, Err(code.error);
      }
      if code.value == UNAUTHORIZED {
        return url, Ok(Some(false));
      }
      // The page is already held, so this second read fetches nothing.
      var pairStatus := query.ReadXmlElement(PAIR_STATUS_TAG, fetched, parse);
      assert pairStatus.Ok?;
      if pairStatus.value.None? {
        return url, Ok(None);
      }
      r := Ok(Some(pairStatus.value.value == "1"));
    }

    /** `Pair`: stop when already paired or when the state is unknown; else
      * run the handshake and, when it succeeds, save the computer as the
      * last paired one. */
    method Pair(settings: SettingsStore, generated: seq<byte>,
                fetched: Option<string>, parse: string -> Result<Document>,
                handshake: bool, c: Computer)
      returns (r: Result<PairOutcome>)
      requires |generated| == 8
      requires c.name.Some? && c.ipAddress.Some?
      modifies settings
      ensures var id := StoredUniqueId(WithUniqueId(old(settings.values), generated)).value;
              var doc := FetchedDocument(fetched, parse);
              var state := if id.Err? then Err(id.error) else if doc.Err? then Err(doc.error) else PairStateOf(doc.value);
              r == PairOutcomeOf(state, handshake)
      ensures r == Ok(Paired) ==>
                settings.values == SavedComputer(WithUniqueId(old(settings.values), generated), c) &&
                LoadComputer(settings.values) == Some(c)
      ensures r != Ok(Paired) ==> settings.values == WithUniqueId(old(settings.values), generated)
    {
      var _, state := QueryPairState(settings, generated, fetched, parse);
      if state.Err? {
        return Err(state.error);
      }
      if state.value == Some(true) {
        return Ok(AlreadyPaired);
      }
      if state.value.None? {
        return Ok(QueryFailed);
      }
      if !handshake {
        return Ok(HandshakeFailed);
      }
      SaveComputer(settings, c);
      r := Ok(Paired);
    }
  }
}
