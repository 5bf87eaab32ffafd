/**
 * The parsed HTML document, as far as the resolver looks at it: a sequence of
 * elements in document order, each with its tag name and its attribute map.
 * `querySelector` with a simple attribute selector is "the first element in
 * document order that matches".
 */
module Dom {
  import opened Wrappers

  /** An element after parsing: lower-case tag name and attribute values by attribute name. */
  datatype Element = Element(tag: string, attrs: map<string, string>)

  type Document = seq<Element>

  /** A selector of the form `tag[attr='value']`. */
  datatype Selector = Selector(tag: string, attr: string, value: string)

  predicate Matches(e: Element, s: Selector) {
    e.tag == s.tag && s.attr in e.attrs && e.attrs[s.attr] == s.value
  }

  /** `element.getAttribute(name)`: null when the attribute is missing. */
  function GetAttribute(e: Element, name: string): Option<string> {
    if name in e.attrs then Some(e.attrs[name]) else None
  }

  /** Position of the first element of `doc` matching `s`, if any. */
  function IndexOfFirst(doc: Document, s: Selector): (r: Option<nat>)
    ensures r.Some? ==> r.value < |doc| && Matches(doc[r.value], s)
    ensures r.Some? ==> forall j :: 0 <= j < r.value ==> !Matches(doc[j], s)
    ensures r.None? ==> forall j :: 0 <= j < |doc| ==> !Matches(doc[j], s)
  {
    if doc == [] then None
    else if Matches(doc[0], s) then Some(0)
    else match IndexOfFirst(doc[1..], s)
      case None => None
      case Some(i) => Some(i + 1)
  }

  /** `doc.querySelector(s)`. */
  function QuerySelector(doc: Document, s: Selector): (r: Option<Element>)
    ensures r.None? <==> forall j :: 0 <= j < |doc| ==> !Matches(doc[j], s)
    ensures r.Some? ==> Matches(r.value, s) && r.value in doc
  {
    match IndexOfFirst(doc, s)
    case None => None
    case Some(i) => Some(doc[i])
  }

  /** All elements of `doc` matching `s`, in document order. */
  function Filter(doc: Document, s: Selector): (r: seq<Element>)
    ensures forall e :: e in r ==> Matches(e, s) && e in doc
    ensures forall j :: 0 <= j < |doc| && Matches(doc[j], s) ==> doc[j] in r
  {
    if doc == [] then []
    else if Matches(doc[0], s) then [doc[0]] + Filter(doc[1..], s)
    else Filter(doc[1..], s)
  }

  /** `querySelector` returns the head of the list of all matches, and null when there is none. */
  lemma {:induction false} QuerySelectorIsFirstOfFilter(doc: Document, s: Selector)
    ensures QuerySelector(doc, s) == if Filter(doc, s) == [] then None else Some(Filter(doc, s)[0])
  {
    if doc != [] && !Matches(doc[0], s) {
      QuerySelectorIsFirstOfFilter(doc[1..], s);
      match IndexOfFirst(doc[1..], s)
      case None =>
      case Some(i) => assert doc[1..][i] == doc[i + 1];
    }
  }

  /** The element at `i` is the answer when it matches and nothing before it does. */
  lemma QuerySelectorFirst(doc: Document, s: Selector, i: nat)
    requires i < |doc| && Matches(doc[i], s)
    requires forall j :: 0 <= j < i ==> !Matches(doc[j], s)
    ensures QuerySelector(doc, s) == Some(doc[i])
  {
    assert IndexOfFirst(doc, s) == Some(i);
  }

  /** An element placed before every match does not change the answer unless it matches itself. */
  lemma QuerySelectorUnaffectedByNonMatching(e: Element, doc: Document, s: Selector)
    requires !Matches(e, s)
    ensures QuerySelector([e] + doc, s) == QuerySelector(doc, s)
  {
  }
}
