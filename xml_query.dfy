/** The three `XmlQuery` classes, which fetch an XML page from the streaming
  * server and read values out of it. The network fetch is a parameter: the
  * page text, or `None` when `GetStringAsync` throws. `XDocument.Parse` is a
  * parameter too: a function from that text to a document or an error. The
  * certificate setup before the fetch is left out. */
module XmlQuery {
  import opened Common
  import opened XmlTree

  /** `null` for a missing document, else the nodes its queries start from. */
  function Container(doc: Option<Document>): (c: Option<seq<Node>>)
    ensures c.Some? <==> doc.Some?
    ensures c.Some? ==> c.value == DocumentNodes(doc.value)
  {
    if doc.None? then None else Some(DocumentNodes(doc.value))
  }

  // ----- Moonlight: missing data reads as null -----

  /** Moonlight's `ReadXmlElement(tag, element)`: the text of the first
    * element named `tag` below the container, in document order; `null` when
    * the container is null or holds no such element. */
  function ReadXmlElementIn(tag: string, container: Option<seq<Node>>): (r: Option<string>)
    ensures r.None? <==> container.None? || NoneNamed(tag, Descendants(container.value))
    ensures r.Some? ==> exists i :: IsFirstNamed(tag, Descendants(container.value), i) &&
                                    r.value == InnerText(Descendants(container.value)[i])
  {
    if container.None? then None
    else
      var q := DescendantsNamed(tag, container.value);
      if |q| == 0 then None else Some(InnerText(q[0]))
  }

  /** Moonlight's `ReadXmlRootAttribute(attribute, element)`: the attribute of
    * the first child element called `root`; `null` when the container, that
    * child or the attribute is missing. */
  function ReadXmlRootAttributeIn(attribute: string, container: Option<seq<Node>>): (r: Option<string>)
    ensures r.Some? <==> (container.Some? &&
              exists i :: IsFirstNamed("root", container.value, i) && attribute in container.value[i].attributes)
    ensures r.Some? ==> exists i :: IsFirstNamed("root", container.value, i) &&
                                    r.value == container.value[i].attributes[attribute]
  {
    if container.None? then None
    else
      var roots := Named("root", container.value);
      if |roots| == 0 then None
      else if attribute !in roots[0].attributes then None
      else Some(roots[0].attributes[attribute])
  }

  /** Read from a document, the root attribute is an attribute of the
    * document element, present only when that element is called `root`. */
  lemma RootAttributeOfDocument(attribute: string, doc: Document)
    ensures ReadXmlRootAttributeIn(attribute, Container(Some(doc))) ==
            if HasName(doc.root, "root") && attribute in doc.root.attributes
            then Some(doc.root.attributes[attribute]) else None
  {
    var r := ReadXmlRootAttributeIn(attribute, Container(Some(doc)));
    if HasName(doc.root, "root") {
      assert IsFirstNamed("root", [doc.root], 0);
    }
  }

  /** The inner element of `x` carries the value searched for. */
  predicate InnerMatches(x: Node, innerTag: string, attribute: string)
  {
    x.Element? && ReadXmlElementIn(innerTag, Some(x.content)) == Some(attribute)
  }

  /** What Moonlight's `SearchElement` finds among the `outerTag` elements
    * `q`: the `tagToFind` text of the first one whose `innerTag` text is
    * `attribute`, or `null` when none is. */
  function SearchElementResult(q: seq<Node>, innerTag: string, attribute: string, tagToFind: string): Option<string>
    requires forall i :: 0 <= i < |q| ==> q[i].Element?
    decreases |q|
  {
    if |q| == 0 then None
    else if ReadXmlElementIn(innerTag, Some(q[0].content)) == Some(attribute) then
      ReadXmlElementIn(tagToFind, Some(q[0].content))
    else SearchElementResult(q[1..], innerTag, attribute, tagToFind)
  }

  /** With no element whose inner text matches, the search finds nothing. */
  lemma {:induction false} SearchElementNoMatch(q: seq<Node>, innerTag: string, attribute: string, tagToFind: string)
    requires forall i :: 0 <= i < |q| ==> q[i].Element?
    requires forall i :: 0 <= i < |q| ==> !InnerMatches(q[i], innerTag, attribute)
    ensures SearchElementResult(q, innerTag, attribute, tagToFind).None?
    decreases |q|
  {
    if |q| > 0 {
      assert !InnerMatches(q[0], innerTag, attribute);
      forall k | 0 <= k < |q| - 1
        ensures q[1..][k].Element? && !InnerMatches(q[1..][k], innerTag, attribute)
      {
        assert q[1..][k] == q[k + 1];
      }
      SearchElementNoMatch(q[1..], innerTag, attribute, tagToFind);
    }
  }

  /** A head without the searched inner value is skipped. */
  lemma SearchElementSkipsHead(q: seq<Node>, innerTag: string, attribute: string, tagToFind: string)
    requires forall k :: 0 <= k < |q| ==> q[k].Element?
    requires |q| > 0 && !InnerMatches(q[0], innerTag, attribute)
    ensures forall k :: 0 <= k < |q| - 1 ==> q[1..][k].Element?
    ensures SearchElementResult(q, innerTag, attribute, tagToFind) == SearchElementResult(q[1..], innerTag, attribute, tagToFind)
  {
    forall k | 0 <= k < |q| - 1
      ensures q[1..][k].Element?
    {
      assert q[1..][k] == q[k + 1];
    }
  }

  /** The search result belongs to the first element whose inner text matches. */
  lemma {:induction false} SearchElementFindsFirst(q: seq<Node>, innerTag: string, attribute: string, tagToFind: string, i: nat)
    requires forall k :: 0 <= k < |q| ==> q[k].Element?
    requires i < |q| && InnerMatches(q[i], innerTag, attribute)
    requires forall j :: 0 <= j < i ==> !InnerMatches(q[j], innerTag, attribute)
    ensures SearchElementResult(q, innerTag, attribute, tagToFind) == ReadXmlElementIn(tagToFind, Some(q[i].content))
    decreases i
  {
    if i == 0 {
      assert InnerMatches(q[0], innerTag, attribute);
    } else {
      assert !InnerMatches(q[0], innerTag, attribute);
      SearchElementSkipsHead(q, innerTag, attribute, tagToFind);
      var tail := q[1..];
      forall j | 0 <= j < i - 1
        ensures !InnerMatches(tail[j], innerTag, attribute)
      {
        assert tail[j] == q[j + 1];
      }
      assert tail[i - 1] == q[i];
      SearchElementFindsFirst(tail, innerTag, attribute, tagToFind, i - 1);
    }
  }

  /** Moonlight's `SearchElement` loop over the `outerTag` elements `q` of a document. */
  method SearchElementIn(q: seq<Node>, innerTag: string, attribute: string, tagToFind: string)
    returns (r: Option<string>)
    requires forall i :: 0 <= i < |q| ==> q[i].Element?
    ensures r == SearchElementResult(q, innerTag, attribute, tagToFind)
  {
    var k := 0;
    while k < |q|
      invariant 0 <= k <= |q|
      invariant SearchElementResult(q[k..], innerTag, attribute, tagToFind) == SearchElementResult(q, innerTag, attribute, tagToFind)
    {
      if ReadXmlElementIn(innerTag, Some(q[k].content)) == Some(attribute) {
        return ReadXmlElementIn(tagToFind, Some(q[k].content));
      }
      assert q[k..][1..] == q[k + 1..];
      k := k + 1;
    }
    return None;
  }

  /** Moonlight's `XmlQuery`: the page is fetched by the first public call
    * only, because `ranQuery` is set before the fetch whatever its outcome. */
  class MoonlightXmlQuery {
    const uri: string
    var ranQuery: bool
    var rawXmlString: Option<string>
    var rawXml: Option<Document>

    /** Nothing is held before the first fetch. */
    predicate Valid()
      reads this
    {
      !ranQuery ==> rawXmlString.None? && rawXml.None?
    }

    constructor (url: string)
      ensures uri == url && !ranQuery && rawXmlString.None? && rawXml.None? && Valid()
    {
      uri := url;
      ranQuery := false;
      rawXmlString := None;
      rawXml := None;
    }

    /** `GetXml`. A failed fetch leaves the document null; a parse error
      * propagates to the caller. */
    method GetXml(fetched: Option<string>, parse: string -> Result<Document>) returns (r: Result<()>)
      requires Valid()
      modifies this
      ensures Valid() && ranQuery
      ensures old(ranQuery) || fetched.None? ==>
                r.Ok? && rawXmlString == old(rawXmlString) && rawXml == old(rawXml)
      ensures !old(ranQuery) && fetched.Some? ==> rawXmlString == fetched
      ensures !old(ranQuery) && fetched.Some? && parse(fetched.value).Ok? ==>
                r.Ok? && rawXml == Some(parse(fetched.value).value)
      ensures !old(ranQuery) && fetched.Some? && parse(fetched.value).Err? ==>
                r == Err(parse(fetched.value).error) && rawXml == old(rawXml)
    {
      if ranQuery {
        return Ok(());
      }
      ranQuery := true;
      if fetched.None? {
        return Ok(());
      }
      rawXmlString := fetched;
      var parsed := parse(fetched.value);
      if parsed.Err? {
        return Err(parsed.error);
      }
      rawXml := Some(parsed.value);
      r := Ok(());
    }

    method ReadXmlElement(tag: string, fetched: Option<string>, parse: string -> Result<Document>)
      returns (r: Result<Option<string>>)
      requires Valid()
      modifies this
      ensures Valid() && ranQuery
      ensures old(ranQuery) ==> rawXml == old(rawXml)
      ensures r.Ok? ==> r.value == ReadXmlElementIn(tag, Container(rawXml))
      ensures r.Err? <==> !old(ranQuery) && fetched.Some? && parse(fetched.value).Err?
      ensures r.Err? ==> r.error == parse(fetched.value).error
      ensures !old(ranQuery) && fetched.Some? && parse(fetched.value).Ok? ==> rawXml == Some(parse(fetched.value).value)
      ensures !old(ranQuery) && fetched.None? ==> rawXml.None?
    {
      var fetch := GetXml(fetched, parse);
      if fetch.Err? {
        return Err(fetch.error);
      }
      r := Ok(ReadXmlElementIn(tag, Container(rawXml)));
    }

    method ReadXmlRootAttribute(attribute: string, fetched: Option<string>, parse: string -> Result<Document>)
      returns (r: Result<Option<string>>)
      requires Valid()
      modifies this
      ensures Valid() && ranQuery
      ensures old(ranQuery) ==> rawXml == old(rawXml)
      ensures r.Ok? ==> r.value == ReadXmlRootAttributeIn(attribute, Container(rawXml))
      ensures r.Err? <==> !old(ranQuery) && fetched.Some? && parse(fetched.value).Err?
      ensures r.Err? ==> r.error == parse(fetched.value).error
      ensures !old(ranQuery) && fetched.Some? && parse(fetched.value).Ok? ==> rawXml == Some(parse(fetched.value).value)
      ensures !old(ranQuery) && fetched.None? ==> rawXml.None?
    {
      var fetch := GetXml(fetched, parse);
      if fetch.Err? {
        return Err(fetch.error);
      }
      r := Ok(ReadXmlRootAttributeIn(attribute, Container(rawXml)));
    }

    /** `SearchElement`: with no document the query dereferences null. */
    method SearchElement(outerTag: string, innerTag: string, attribute: string, tagToFind: string,
                         fetched: Option<string>, parse: string -> Result<Document>)
      returns (r: Result<Option<string>>)
      requires Valid()
      modifies this
      ensures Valid() && ranQuery
      ensures old(ranQuery) ==> rawXml == old(rawXml)
      ensures r.Ok? ==> rawXml.Some?
      ensures rawXml.Some? ==>
                r == Ok(SearchElementResult(DescendantsNamed(outerTag, DocumentNodes(rawXml.value)), innerTag, attribute, tagToFind))
      ensures (old(ranQuery) || fetched.None?) && rawXml.None? ==> r == Err(NullReference)
      ensures !old(ranQuery) && fetched.Some? && parse(fetched.value).Err? ==> r == Err(parse(fetched.value).error)
      ensures !old(ranQuery) && fetched.Some? && parse(fetched.value).Ok? ==> rawXml == Some(parse(fetched.value).value)
      ensures !old(ranQuery) && fetched.None? ==> rawXml.None?
    {
      var fetch := GetXml(fetched, parse);
      if fetch.Err? {
        return Err(fetch.error);
      }
      if rawXml.None? {
        return Err(NullReference);
      }
      var found := SearchElementIn(DescendantsNamed(outerTag, DocumentNodes(rawXml.value)), innerTag, attribute, tagToFind);
      r := Ok(found);
    }

    /** `Run`: true when a document is held. */
    method Run(fetched: Option<string>, parse: string -> Result<Document>) returns (r: Result<bool>)
      requires Valid()
      modifies this
      ensures Valid() && ranQuery
      ensures old(ranQuery) ==> rawXml == old(rawXml)
      ensures r.Ok? ==> r.value == rawXml.Some?
      ensures r.Err? <==> !old(ranQuery) && fetched.Some? && parse(fetched.value).Err?
      ensures r.Err? ==> r.error == parse(fetched.value).error
      ensures !old(ranQuery) && fetched.Some? && parse(fetched.value).Ok? ==> rawXml == Some(parse(fetched.value).value)
      ensures !old(ranQuery) && fetched.None? ==> rawXml.None?
      ensures !old(ranQuery) && fetched.None? ==> r == Ok(false)
    {
      var fetch := GetXml(fetched, parse);
      if fetch.Err? {
        return Err(fetch.error);
      }
      r := Ok(rawXml.Some?);
    }
  }

  /** A query whose fetch fails reports failure and reads every value as null,
    * and a later successful fetch is never attempted. */
  method MoonlightFailedFetch(url: string, tag: string, attribute: string, page: string,
                              parse: string -> Result<Document>)
    returns (ran: Result<bool>, element: Result<Option<string>>, rootAttribute: Result<Option<string>>)
    ensures ran == Ok(false)
    ensures element == Ok(None) && rootAttribute == Ok(None)
  {
    var query := new MoonlightXmlQuery(url);
    ran := query.Run(None, parse);
    element := query.ReadXmlElement(tag, Some(page), parse);
    rootAttribute := query.ReadXmlRootAttribute(attribute, Some(page), parse);
  }

  /** The first page fetched is the one every later call reads. */
  method MoonlightFetchOnce(url: string, tag: string, first: string, second: string,
                            parse: string -> Result<Document>)
    returns (r1: Result<Option<string>>, r2: Result<Option<string>>)
    requires parse(first).Ok?
    ensures r1 == r2 == Ok(ReadXmlElementIn(tag, Container(Some(parse(first).value))))
  {
    var query := new MoonlightXmlQuery(url);
    r1 := query.ReadXmlElement(tag, Some(first), parse);
    r2 := query.ReadXmlElement(tag, Some(second), parse);
  }

  // ----- Limelight (shared project): a missing tag throws -----

  /** `ReadXmlAttribute(tag, element)` of the shared project, also its
    * `XmlAttribute(tag, element)`: null for a null container, else the text
    * of the first element named `tag`. `query == null` never holds, so a
    * missing tag reads `Value` of the null `FirstOrDefault()` and throws. */
  function ReadXmlAttributeIn(tag: string, container: Option<seq<Node>>): (r: Result<Option<string>>)
    ensures container.None? ==> r == Ok(None)
    ensures container.Some? && NoneNamed(tag, Descendants(container.value)) ==> r == Err(NullReference)
    ensures container.Some? && !NoneNamed(tag, Descendants(container.value)) ==>
              r == Ok(ReadXmlElementIn(tag, container)) && r.value.Some?
  {
    if container.None? then Ok(None)
    else
      var q := DescendantsNamed(tag, container.value);
      if |q| == 0 then Err(NullReference) else Ok(Some(InnerText(q[0])))
  }

  /** Where the loop of `SearchAttribute` stops at `x`: its inner read throws
    * or finds `attribute`. */
  predicate InnerStops(x: Node, innerTag: string, attribute: string)
  {
    x.Element? &&
    (NoneNamed(innerTag, Descendants(x.content)) || ReadXmlElementIn(innerTag, Some(x.content)) == Some(attribute))
  }

  /** What `SearchAttribute` of the shared project gives over the `outerTag`
    * elements `q`: an element without `innerTag` throws; the first one whose
    * `innerTag` text is `attribute` gives its `tagToFind` read; otherwise null. */
  function SearchAttributeResult(q: seq<Node>, innerTag: string, attribute: string, tagToFind: string)
    : Result<Option<string>>
    requires forall i :: 0 <= i < |q| ==> q[i].Element?
    decreases |q|
  {
    if |q| == 0 then Ok(None)
    else
      var inner := ReadXmlAttributeIn(innerTag, Some(q[0].content));
      if inner.Err? then Err(inner.error)
      else if inner.value == Some(attribute) then ReadXmlAttributeIn(tagToFind, Some(q[0].content))
      else SearchAttributeResult(q[1..], innerTag, attribute, tagToFind)
  }

  /** When every element has `innerTag` and none matches, the search finds nothing. */
  lemma {:induction false} SearchAttributeNoStop(q: seq<Node>, innerTag: string, attribute: string, tagToFind: string)
    requires forall i :: 0 <= i < |q| ==> q[i].Element?
    requires forall i :: 0 <= i < |q| ==> !InnerStops(q[i], innerTag, attribute)
    ensures SearchAttributeResult(q, innerTag, attribute, tagToFind) == Ok(None)
    decreases |q|
  {
    if |q| > 0 {
      assert !InnerStops(q[0], innerTag, attribute);
      forall k | 0 <= k < |q| - 1
        ensures q[1..][k].Element? && !InnerStops(q[1..][k], innerTag, attribute)
      {
        assert q[1..][k] == q[k + 1];
      }
      SearchAttributeNoStop(q[1..], innerTag, attribute, tagToFind);
    }
  }

  /** Dropping the first element of a search that goes past it. */
  lemma StopsShift(q: seq<Node>, innerTag: string, attribute: string, i: nat)
    requires forall k :: 0 <= k < |q| ==> q[k].Element?
    requires 0 < i < |q| && InnerStops(q[i], innerTag, attribute)
    requires forall j :: 0 <= j < i ==> !InnerStops(q[j], innerTag, attribute)
    ensures !InnerStops(q[0], innerTag, attribute)
    ensures forall k :: 0 <= k < |q[1..]| ==> q[1..][k].Element?
    ensures q[1..][i - 1] == q[i]
    ensures forall j :: 0 <= j < i - 1 ==> !InnerStops(q[1..][j], innerTag, attribute)
  {
    forall k | 0 <= k < |q| - 1
      ensures q[1..][k] == q[k + 1]
    {
    }
  }

  /** The first element that lacks `innerTag`, with none matching before it,
    * makes the search throw. */
  lemma {:induction false} SearchAttributeThrows(q: seq<Node>, innerTag: string, attribute: string, tagToFind: string, i: nat)
    requires forall k :: 0 <= k < |q| ==> q[k].Element?
    requires i < |q| && NoneNamed(innerTag, Descendants(q[i].content))
    requires forall j :: 0 <= j < i ==> !InnerStops(q[j], innerTag, attribute)
    ensures SearchAttributeResult(q, innerTag, attribute, tagToFind) == Err(NullReference)
    decreases i
  {
    assert InnerStops(q[i], innerTag, attribute);
    if i > 0 {
      StopsShift(q, innerTag, attribute, i);
      SearchAttributeThrows(q[1..], innerTag, attribute, tagToFind, i - 1);
      SearchAttributeSkipsHead(q, innerTag, attribute, tagToFind);
    } else {
      SearchAttributeStopsAtHead(q, innerTag, attribute, tagToFind);
    }
  }

  /** The first element whose `innerTag` text is `attribute`, with every
    * earlier one carrying a different `innerTag` text, gives the result. */
  lemma {:induction false} SearchAttributeFindsFirst(q: seq<Node>, innerTag: string, attribute: string, tagToFind: string, i: nat)
    requires forall k :: 0 <= k < |q| ==> q[k].Element?
    requires i < |q| && ReadXmlElementIn(innerTag, Some(q[i].content)) == Some(attribute)
    requires forall j :: 0 <= j < i ==> !InnerStops(q[j], innerTag, attribute)
    ensures SearchAttributeResult(q, innerTag, attribute, tagToFind) == ReadXmlAttributeIn(tagToFind, Some(q[i].content))
    decreases i
  {
    assert InnerStops(q[i], innerTag, attribute);
    if i > 0 {
      StopsShift(q, innerTag, attribute, i);
      SearchAttributeFindsFirst(q[1..], innerTag, attribute, tagToFind, i - 1);
      SearchAttributeSkipsHead(q, innerTag, attribute, tagToFind);
    } else {
      SearchAttributeStopsAtHead(q, innerTag, attribute, tagToFind);
    }
  }

  lemma SearchAttributeSkipsHead(q: seq<Node>, innerTag: string, attribute: string, tagToFind: string)
    requires forall k :: 0 <= k < |q| ==> q[k].Element?
    requires 0 < |q| && !InnerStops(q[0], innerTag, attribute)
    ensures SearchAttributeResult(q, innerTag, attribute, tagToFind) == SearchAttributeResult(q[1..], innerTag, attribute, tagToFind)
  {
    var inner := ReadXmlAttributeIn(innerTag, Some(q[0].content));
    assert inner.Ok? && inner.value != Some(attribute);
  }

  lemma SearchAttributeStopsAtHead(q: seq<Node>, innerTag: string, attribute: string, tagToFind: string)
    requires forall k :: 0 <= k < |q| ==> q[k].Element?
    requires 0 < |q| && InnerStops(q[0], innerTag, attribute)
    ensures SearchAttributeResult(q, innerTag, attribute, tagToFind) ==
            if NoneNamed(innerTag, Descendants(q[0].content)) then Err(NullReference)
            else ReadXmlAttributeIn(tagToFind, Some(q[0].content))
  {
    var inner := ReadXmlAttributeIn(innerTag, Some(q[0].content));
    if NoneNamed(innerTag, Descendants(q[0].content)) {
      assert inner == Err(NullReference);
    } else {
      assert inner == Ok(Some(attribute));
    }
  }

  /** The `SearchAttribute` loop of the shared project over the `outerTag`
    * elements `q` of a document. */
  method SearchAttributeIn(q: seq<Node>, innerTag: string, attribute: string, tagToFind: string)
    returns (r: Result<Option<string>>)
    requires forall i :: 0 <= i < |q| ==> q[i].Element?
    ensures r == SearchAttributeResult(q, innerTag, attribute, tagToFind)
  {
    var k := 0;
    while k < |q|
      invariant 0 <= k <= |q|
      invariant SearchAttributeResult(q[k..], innerTag, attribute, tagToFind) == SearchAttributeResult(q, innerTag, attribute, tagToFind)
    {
      var inner := ReadXmlAttributeIn(innerTag, Some(q[k].content));
      if inner.Err? {
        return Err(inner.error);
      }
      if inner.value == Some(attribute) {
        return ReadXmlAttributeIn(tagToFind, Some(q[k].content));
      }
      assert q[k..][1..] == q[k + 1..];
      k := k + 1;
    }
    return Ok(None);
  }

  /** The streaming `XmlQuery` of the shared project: the same one-shot fetch
    * as Moonlight's. */
  class SharedStreamingXmlQuery {
    const uri: string
    var ranQuery: bool
    var rawXmlString: Option<string>
    var rawXml: Option<Document>

    predicate Valid()
      reads this
    {
      !ranQuery ==> rawXmlString.None? && rawXml.None?
    }

    constructor (url: string)
      ensures uri == url && !ranQuery && rawXmlString.None? && rawXml.None? && Valid()
    {
      uri := url;
      ranQuery := false;
      rawXmlString := None;
      rawXml := None;
    }

    method GetXml(fetched: Option<string>, parse: string -> Result<Document>) returns (r: Result<()>)
      requires Valid()
      modifies this
      ensures Valid() && ranQuery
      ensures old(ranQuery) || fetched.None? ==>
                r.Ok? && rawXmlString == old(rawXmlString) && rawXml == old(rawXml)
      ensures !old(ranQuery) && fetched.Some? ==> rawXmlString == fetched
      ensures !old(ranQuery) && fetched.Some? && parse(fetched.value).Ok? ==>
                r.Ok? && rawXml == Some(parse(fetched.value).value)
      ensures !old(ranQuery) && fetched.Some? && parse(fetched.value).Err? ==>
                r == Err(parse(fetched.value).error) && rawXml == old(rawXml)
    {
      if ranQuery {
        return Ok(());
      }
      ranQuery := true;
      if fetched.None? {
        return Ok(());
      }
      rawXmlString := fetched;
      var parsed := parse(fetched.value);
      if parsed.Err? {
        return Err(parsed.error);
      }
      rawXml := Some(parsed.value);
      r := Ok(());
    }

    method ReadXmlAttribute(tag: string, fetched: Option<string>, parse: string -> Result<Document>)
      returns (r: Result<Option<string>>)
      requires Valid()
      modifies this
      ensures Valid() && ranQuery
      ensures old(ranQuery) ==> rawXml == old(rawXml)
      ensures !old(ranQuery) && fetched.Some? && parse(fetched.value).Err? ==> r == Err(parse(fetched.value).error)
      ensures !(!old(ranQuery) && fetched.Some? && parse(fetched.value).Err?) ==>
                r == ReadXmlAttributeIn(tag, Container(rawXml))
      ensures !old(ranQuery) && fetched.Some? && parse(fetched.value).Ok? ==> rawXml == Some(parse(fetched.value).value)
      ensures !old(ranQuery) && fetched.None? ==> rawXml.None?
      ensures rawXml.None? ==> r.Err? || r == Ok(None)
    {
      var fetch := GetXml(fetched, parse);
      if fetch.Err? {
        return Err(fetch.error);
      }
      r := ReadXmlAttributeIn(tag, Container(rawXml));
    }

    /** `SearchAttribute`: after a failed fetch the query dereferences the null document. */
    method SearchAttribute(outerTag: string, innerTag: string, attribute: string, tagToFind: string,
                           fetched: Option<string>, parse: string -> Result<Document>)
      returns (r: Result<Option<string>>)
      requires Valid()
      modifies this
      ensures Valid() && ranQuery
      ensures old(ranQuery) ==> rawXml == old(rawXml)
      ensures rawXml.Some? && (old(ranQuery) || fetched.Some?) ==>
                r == SearchAttributeResult(DescendantsNamed(outerTag, DocumentNodes(rawXml.value)), innerTag, attribute, tagToFind)
      ensures (old(ranQuery) || fetched.None?) && rawXml.None? ==> r == Err(NullReference)
      ensures !old(ranQuery) && fetched.Some? && parse(fetched.value).Err? ==> r == Err(parse(fetched.value).error)
    {
      var fetch := GetXml(fetched, parse);
      if fetch.Err? {
        return Err(fetch.error);
      }
      if rawXml.None? {
        return Err(NullReference);
      }
      r := SearchAttributeIn(DescendantsNamed(outerTag, DocumentNodes(rawXml.value)), innerTag, attribute, tagToFind);
    }

    /** `Run`: only the fetch. */
    method Run(fetched: Option<string>, parse: string -> Result<Document>) returns (r: Result<()>)
      requires Valid()
      modifies this
      ensures Valid() && ranQuery
      ensures old(ranQuery) || fetched.None? ==>
                r.Ok? && rawXmlString == old(rawXmlString) && rawXml == old(rawXml)
      ensures !old(ranQuery) && fetched.Some? ==> rawXmlString == fetched
      ensures !old(ranQuery) && fetched.Some? && parse(fetched.value).Ok? ==>
                r.Ok? && rawXml == Some(parse(fetched.value).value)
      ensures !old(ranQuery) && fetched.Some? && parse(fetched.value).Err? ==>
                r == Err(parse(fetched.value).error) && rawXml == old(rawXml)
    {
      r := GetXml(fetched, parse);
    }
  }

  /** The main-page `XmlQuery` of the shared project: the constructor fetches
    * and parses the page; a failed fetch leaves the text null and
    * `XDocument.Parse(null)` throws, so no query object comes out. */
  class MainPageXmlQuery {
    const uri: string
    const rawXmlString: string
    const rawXml: Document

    constructor (url: string, page: string, doc: Document)
      ensures uri == url && rawXmlString == page && rawXml == doc
    {
      uri := url;
      rawXmlString := page;
      rawXml := doc;
    }

    /** `new XmlQuery(url)`. */
    static method Create(url: string, fetched: Option<string>, parse: string -> Result<Document>)
      returns (r: Result<MainPageXmlQuery>)
      ensures fetched.None? ==> r == Err(ArgumentNull)
      ensures fetched.Some? && parse(fetched.value).Err? ==> r == Err(parse(fetched.value).error)
      ensures r.Err? <==> fetched.None? || parse(fetched.value).Err?
      ensures r.Ok? ==> fresh(r.value) && r.value.uri == url && r.value.rawXmlString == fetched.value &&
                        r.value.rawXml == parse(fetched.value).value
    {
      if fetched.None? {
        return Err(ArgumentNull);
      }
      var parsed := parse(fetched.value);
      if parsed.Err? {
        return Err(parsed.error);
      }
      var query := new MainPageXmlQuery(url, fetched.value, parsed.value);
      r := Ok(query);
    }

    /** `XmlAttribute(tag)`: the text of the first element named `tag`; a
      * missing tag throws. */
    function XmlAttribute(tag: string): (r: Result<string>)
      ensures r.Err? <==> NoneNamed(tag, Descendants(DocumentNodes(rawXml)))
      ensures r.Ok? ==> Some(r.value) == ReadXmlElementIn(tag, Container(Some(rawXml)))
    {
      var q := DescendantsNamed(tag, DocumentNodes(rawXml));
      if |q| == 0 then Err(NullReference) else Ok(InnerText(q[0]))
    }

    /** `SearchAttribute`, over the document held since construction. */
    method SearchAttribute(outerTag: string, innerTag: string, attribute: string, tagToFind: string)
      returns (r: Result<Option<string>>)
      ensures r == SearchAttributeResult(DescendantsNamed(outerTag, DocumentNodes(rawXml)), innerTag, attribute, tagToFind)
    {
      r := SearchAttributeIn(DescendantsNamed(outerTag, DocumentNodes(rawXml)), innerTag, attribute, tagToFind);
    }

    /** `XmlAttributeElement(tag)`: the first element named `tag`, or null. */
    function XmlAttributeElement(tag: string): (r: Option<Node>)
      ensures r.None? <==> NoneNamed(tag, Descendants(DocumentNodes(rawXml)))
      ensures r.Some? ==> exists i :: IsFirstNamed(tag, Descendants(DocumentNodes(rawXml)), i) &&
                                      r.value == Descendants(DocumentNodes(rawXml))[i]
    {
      var q := DescendantsNamed(tag, DocumentNodes(rawXml));
      if |q| == 0 then None else Some(q[0])
    }
  }

  /** The element `XmlAttributeElement` returns carries the text `XmlAttribute` reads. */
  lemma ElementCarriesAttribute(query: MainPageXmlQuery, tag: string)
    ensures query.XmlAttributeElement(tag).Some? <==> query.XmlAttribute(tag).Ok?
    ensures query.XmlAttribute(tag).Ok? ==>
              query.XmlAttribute(tag).value == InnerText(query.XmlAttributeElement(tag).value)
  {
  }
}
