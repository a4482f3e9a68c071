/** The part of LINQ to XML the codec relies on, over an element tree.
    An element has a name, its own text and its child elements; documents
    are represented by their root element. */
module Xml {
  import opened Wrappers

  datatype Element = Element(name: string, text: string, children: seq<Element>)

  /** `new XElement(name, text)`: an element holding only text. */
  function Leaf(name: string, text: string): Element {
    Element(name, text, [])
  }

  /** `XElement.Value`: the text of the element and of all its descendants,
      in document order (own text first). */
  function Value(e: Element): (r: string)
    ensures |e.text| <= |r| && r[..|e.text|] == e.text
    ensures e.children == [] ==> r == e.text
    decreases e
  {
    e.text + Concat(seq(|e.children|, i requires 0 <= i < |e.children| => Value(e.children[i])))
  }

  function Concat(parts: seq<string>): string {
    if parts == [] then "" else parts[0] + Concat(parts[1..])
  }

  lemma LeafValue(name: string, text: string)
    ensures Value(Leaf(name, text)) == text
  {
    assert Leaf(name, text).children == [];
  }

  lemma {:induction false} ConcatAppend(parts: seq<string>, last: string)
    ensures Concat(parts + [last]) == Concat(parts) + last
  {
    if parts == [] {
      assert Concat([last]) == last + Concat([]);
    } else {
      assert (parts + [last])[1..] == parts[1..] + [last];
      ConcatAppend(parts[1..], last);
    }
  }

  /** Adding a child appends its text to the element's value. */
  lemma ValueAdd(e: Element, child: Element)
    ensures Value(Add(e, child)) == Value(e) + Value(child)
  {
    var a := Add(e, child);
    var before := seq(|e.children|, i requires 0 <= i < |e.children| => Value(e.children[i]));
    var after := seq(|a.children|, i requires 0 <= i < |a.children| => Value(a.children[i]));
    assert after == before + [Value(child)];
    ConcatAppend(before, Value(child));
  }

  /** `XContainer.Element(name)` over a list of children: the first one with that name. */
  function FirstNamed(es: seq<Element>, name: string): (r: Option<Element>)
    ensures r.None? <==> forall i :: 0 <= i < |es| ==> es[i].name != name
    ensures r.Some? ==> r.value in es && r.value.name == name
  {
    if es == [] then None
    else if es[0].name == name then Some(es[0])
    else FirstNamed(es[1..], name)
  }

  /** `XContainer.Element(name)`: the first child element with that name, or null. */
  function Child(e: Element, name: string): Option<Element> {
    FirstNamed(e.children, name)
  }

  /** `XContainer.Elements(name)` over a list of children: those with that name, in order. */
  function Named(es: seq<Element>, name: string): (r: seq<Element>)
    ensures |r| <= |es|
    ensures forall i :: 0 <= i < |r| ==> r[i].name == name
    ensures (forall i :: 0 <= i < |es| ==> es[i].name == name) ==> r == es
  {
    if es == [] then []
    else if es[0].name == name then [es[0]] + Named(es[1..], name)
    else Named(es[1..], name)
  }

  /** `XContainer.Elements(name)`: the child elements with that name, in document order. */
  function Children(e: Element, name: string): seq<Element> {
    Named(e.children, name)
  }

  /** `XContainer.Add(child)`: the child goes after the existing ones. */
  function Add(e: Element, child: Element): (r: Element)
    ensures r.name == e.name && r.text == e.text && r.children == e.children + [child]
  {
    e.(children := e.children + [child])
  }

  /** Looking up by name in two runs of children: the first run wins. */
  lemma {:induction false} FirstNamedAppend(a: seq<Element>, b: seq<Element>, name: string)
    ensures FirstNamed(a + b, name) == if FirstNamed(a, name).Some? then FirstNamed(a, name) else FirstNamed(b, name)
  {
    if a == [] {
      assert a + b == b;
    } else {
      assert (a + b)[0] == a[0];
      assert (a + b)[1..] == a[1..] + b;
      FirstNamedAppend(a[1..], b, name);
    }
  }

  /** Filtering by name distributes over concatenation. */
  lemma {:induction false} NamedAppend(a: seq<Element>, b: seq<Element>, name: string)
    ensures Named(a + b, name) == Named(a, name) + Named(b, name)
  {
    if a == [] {
      assert a + b == b;
    } else {
      assert (a + b)[0] == a[0];
      assert (a + b)[1..] == a[1..] + b;
      NamedAppend(a[1..], b, name);
    }
  }

  /** Filtering keeps nothing when no element carries the name. */
  lemma {:induction false} NamedNone(es: seq<Element>, name: string)
    requires forall i :: 0 <= i < |es| ==> es[i].name != name
    ensures Named(es, name) == []
  {
    if es != [] {
      NamedNone(es[1..], name);
    }
  }

  /** Elements of other names between two runs drop out of the filter. */
  lemma NamedSkipsOthers(a: seq<Element>, others: seq<Element>, b: seq<Element>, name: string)
    requires forall i :: 0 <= i < |others| ==> others[i].name != name
    ensures Named(a + others + b, name) == Named(a + b, name)
  {
    calc {
      Named(a + others + b, name);
      { NamedAppend(a + others, b, name); }
      Named(a + others, name) + Named(b, name);
      { NamedAppend(a, others, name); NamedNone(others, name); }
      Named(a, name) + [] + Named(b, name);
      { assert Named(a, name) + [] == Named(a, name); }
      Named(a, name) + Named(b, name);
      { NamedAppend(a, b, name); }
      Named(a + b, name);
    }
  }

  /** Elements of other names between two runs do not change the first match. */
  lemma FirstNamedSkipsOthers(a: seq<Element>, others: seq<Element>, b: seq<Element>, name: string)
    requires forall i :: 0 <= i < |others| ==> others[i].name != name
    ensures FirstNamed(a + others + b, name) == FirstNamed(a + b, name)
  {
    calc {
      FirstNamed(a + others + b, name);
      { assert a + others + b == a + (others + b); FirstNamedAppend(a, others + b, name); }
      if FirstNamed(a, name).Some? then FirstNamed(a, name) else FirstNamed(others + b, name);
      { FirstNamedAppend(others, b, name); }
      if FirstNamed(a, name).Some? then FirstNamed(a, name) else FirstNamed(b, name);
      { FirstNamedAppend(a, b, name); }
      FirstNamed(a + b, name);
    }
  }

  /** At most one element with the name, between runs of other names: that
      element is the first match. */
  lemma FirstNamedOfParts(a: seq<Element>, m: seq<Element>, b: seq<Element>, name: string)
    requires forall i :: 0 <= i < |a| ==> a[i].name != name
    requires |m| <= 1 && forall i :: 0 <= i < |m| ==> m[i].name == name
    requires forall i :: 0 <= i < |b| ==> b[i].name != name
    ensures FirstNamed(a + m + b, name) == if m == [] then None else Some(m[0])
  {
    assert a + m + b == a + (m + b);
    FirstNamedSkip(a, m + b, name);
    if m == [] {
      assert m + b == b;
    } else {
      assert (m + b)[0] == m[0];
    }
  }

  /** Children before the first match that carry other names do not matter. */
  lemma FirstNamedSkip(a: seq<Element>, b: seq<Element>, name: string)
    requires forall i :: 0 <= i < |a| ==> a[i].name != name
    ensures FirstNamed(a + b, name) == FirstNamed(b, name)
  {
    FirstNamedAppend(a, b, name);
  }
}
