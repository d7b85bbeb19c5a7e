/** The part of LINQ to XML the `XmlQuery` classes use: a parsed document as a
  * tree of elements and text, `Descendants(tag)` in document order, the text
  * `Value` of an element, and a child element or attribute by name. Parsing
  * itself is not modelled: it reaches the queries as a function from the
  * fetched text to a document or an error. */
module XmlTree {
  import opened Common

  datatype Node =
    | Text(text: string)
    | Element(name: string, attributes: map<string, string>, content: seq<Node>)

  /** An `XDocument`: one top-level element (declarations and comments carry no data here). */
  datatype Document = Document(root: Node)

  /** The nodes directly under the document, where `XDocument.Descendants` starts. */
  function DocumentNodes(doc: Document): seq<Node>
  {
    [doc.root]
  }

  predicate HasName(n: Node, tag: string)
  {
    n.Element? && n.name == tag
  }

  /** Index `i` holds the first element of `s` named `tag`. */
  predicate IsFirstNamed(tag: string, s: seq<Node>, i: int)
  {
    0 <= i < |s| && HasName(s[i], tag) && forall j :: 0 <= j < i ==> !HasName(s[j], tag)
  }

  predicate NoneNamed(tag: string, s: seq<Node>)
  {
    forall j :: 0 <= j < |s| ==> !HasName(s[j], tag)
  }

  /** Two first occurrences are the same occurrence. */
  lemma FirstNamedUnique(tag: string, s: seq<Node>, i: int, k: int)
    requires IsFirstNamed(tag, s, i) && IsFirstNamed(tag, s, k)
    ensures i == k
  {
  }

  /** `Descendants()`: every element among `nodes` or below them, each before
    * its own content and after everything that precedes it in the text. */
  function Descendants(nodes: seq<Node>): (d: seq<Node>)
    ensures forall i :: 0 <= i < |d| ==> d[i].Element?
    decreases nodes
  {
    if |nodes| == 0 then []
    else
      var below := if nodes[0].Element? then [nodes[0]] + Descendants(nodes[0].content) else [];
      below + Descendants(nodes[1..])
  }

  /** Document order composes: the descendants of two runs of siblings are
    * those of the first run followed by those of the second. */
  lemma {:induction false} DescendantsAppend(a: seq<Node>, b: seq<Node>)
    ensures Descendants(a + b) == Descendants(a) + Descendants(b)
    decreases a
  {
    if |a| > 0 {
      assert (a + b)[0] == a[0] && (a + b)[1..] == a[1..] + b;
      DescendantsAppend(a[1..], b);
    } else {
      assert a + b == b;
    }
  }

  /** A search inside a descendant stays inside the document: whatever lies
    * below an element found by `Descendants` is found by it too. */
  lemma {:induction false} NestedDescendants(nodes: seq<Node>, x: Node)
    requires x in Descendants(nodes)
    ensures forall y :: y in Descendants(x.content) ==> y in Descendants(nodes)
    decreases nodes
  {
    var head := nodes[0];
    var rest := Descendants(nodes[1..]);
    if x in rest {
      NestedDescendants(nodes[1..], x);
    } else if x != head {
      assert x in Descendants(head.content);
      NestedDescendants(head.content, x);
    }
  }

  /** `from c in s where c.Name == tag select c`, order kept. */
  function Named(tag: string, s: seq<Node>): (r: seq<Node>)
    ensures forall n :: n in r <==> n in s && HasName(n, tag)
    ensures |r| == 0 <==> NoneNamed(tag, s)
    ensures forall i :: IsFirstNamed(tag, s, i) ==> |r| > 0 && r[0] == s[i]
    ensures |r| > 0 ==> exists i :: IsFirstNamed(tag, s, i)
    decreases |s|
  {
    if |s| == 0 then []
    else
      var rest := Named(tag, s[1..]);
      if HasName(s[0], tag) then
        assert IsFirstNamed(tag, s, 0);
        [s[0]] + rest
      else
        assert forall i :: IsFirstNamed(tag, s, i) ==> IsFirstNamed(tag, s[1..], i - 1);
        assert |rest| > 0 ==> exists i :: IsFirstNamed(tag, s, i) by {
          if |rest| > 0 {
            var k :| IsFirstNamed(tag, s[1..], k);
            assert IsFirstNamed(tag, s, k + 1);
          }
        }
        rest
  }

  /** `container.Descendants(tag)`. */
  function DescendantsNamed(tag: string, nodes: seq<Node>): (d: seq<Node>)
    ensures forall i :: 0 <= i < |d| ==> HasName(d[i], tag)
  {
    var r := Named(tag, Descendants(nodes));
    assert forall i :: 0 <= i < |r| ==> r[i] in r;
    r
  }

  /** The concatenated text of `nodes` and everything below them, in order. */
  function TextOf(nodes: seq<Node>): (s: string)
    decreases nodes
  {
    if |nodes| == 0 then ""
    else
      var first := match nodes[0]
        case Text(t) => t
        case Element(_, _, content) => TextOf(content);
      first + TextOf(nodes[1..])
  }

  /** The text of a run of siblings is the text of its parts, in order. */
  lemma {:induction false} TextOfAppend(a: seq<Node>, b: seq<Node>)
    ensures TextOf(a + b) == TextOf(a) + TextOf(b)
    decreases a
  {
    if |a| > 0 {
      assert (a + b)[0] == a[0] && (a + b)[1..] == a[1..] + b;
      TextOfAppend(a[1..], b);
    } else {
      assert a + b == b;
    }
  }

  /** `XElement.Value`. */
  function InnerText(n: Node): (s: string)
    ensures s == TextOf([n])
  {
    assert [n][1..] == [];
    match n
    case Text(t) => t
    case Element(_, _, content) => TextOf(content)
  }
}
