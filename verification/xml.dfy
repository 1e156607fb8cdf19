/**
 * An already-parsed XML document, as `System.Xml.Linq` presents it to the
 * decoder: element names, attributes (unique per element) and child elements.
 * Text nodes, namespaces and entity decoding play no part in the decoder.
 */
module Xml {
  import opened Wrappers

  datatype Element = Element(name: string, attributes: map<string, string>, children: seq<Element>)

  /** `el.Attribute(name)?.Value`. */
  function Attribute(el: Element, name: string): (r: Option<string>)
    ensures r.Some? <==> name in el.attributes
    ensures r.Some? ==> r.value == el.attributes[name]
  {
    if name in el.attributes then Some(el.attributes[name]) else None
  }

  /** `el.Element(name)`: the first child element with that name. */
  function FirstChild(el: Element, name: string): (r: Option<Element>)
    ensures r.Some? ==> exists i :: 0 <= i < |el.children| && el.children[i] == r.value && IsFirstNamed(el.children, name, i)
    ensures r.None? <==> forall i :: 0 <= i < |el.children| ==> el.children[i].name != name
    ensures r.Some? ==> r.value.name == name
  {
    FirstNamed(el.children, name)
  }

  predicate IsFirstNamed(cs: seq<Element>, name: string, i: int)
    requires 0 <= i < |cs|
  {
    cs[i].name == name && forall k :: 0 <= k < i ==> cs[k].name != name
  }

  function FirstNamed(cs: seq<Element>, name: string): (r: Option<Element>)
    ensures r.Some? ==> exists i :: 0 <= i < |cs| && cs[i] == r.value && IsFirstNamed(cs, name, i)
    ensures r.None? <==> forall i :: 0 <= i < |cs| ==> cs[i].name != name
  {
    if |cs| == 0 then None
    else if cs[0].name == name then
      assert IsFirstNamed(cs, name, 0);
      Some(cs[0])
    else
      var r := FirstNamed(cs[1..], name);
      if r.Some? then
        var i :| 0 <= i < |cs[1..]| && cs[1..][i] == r.value && IsFirstNamed(cs[1..], name, i);
        assert IsFirstNamed(cs, name, i + 1);
        r
      else r
  }

  /**
   * The platform services the decoder calls but whose workings lie outside
   * the model: `XDocument.Parse` (yielding the root element, or None where
   * it throws), `int.TryParse` and `double.TryParse`.
   */
  datatype Parsers = Parsers(
    document: string -> Option<Element>,
    int32: string -> Option<int>,
    float64: string -> Option<real>)

  /** `int.TryParse(text, out n)` where `text` may be null. */
  function TryParseInt(p: Parsers, text: Option<string>): Option<int> {
    match text
    case None => None
    case Some(t) => p.int32(t)
  }
}
