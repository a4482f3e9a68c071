/** The codec every wrapper collection shares (`VersionCustomCollection<T>` in
    VersionChecker/src/VersionChecker/VersionCustomCollection.cs): a wrapper
    element whose children of one name are the items. The item codec is a
    parameter: `encodeItem` stands for `T.ToXElement`, `decodeItem` for
    `T.FromXElement`. */
module CustomCollection {
  import opened Wrappers
  import opened Utilities
  import opened Xml

  /** The `foreach` of the decoding constructor: items decoded in document
      order, the first failure ending the decoding. Written from the back, the
      way the loop grows the collection. */
  function DecodeAll<V>(elements: seq<Element>, decodeItem: Element -> Result<V, Error>): Result<seq<V>, Error>
    decreases |elements|
  {
    if elements == [] then Success([])
    else
      var n := |elements| - 1;
      match DecodeAll(elements[..n], decodeItem)
      case Failure(e) => Failure(e)
      case Success(vs) =>
        match decodeItem(elements[n])
        case Failure(e) => Failure(e)
        case Success(v) => Success(vs + [v])
  }

  /** What the decoding loop computes: it succeeds exactly when every item
      decodes, and then holds one value per element in document order;
      otherwise its error is that of the first element that fails. */
  lemma {:induction false} DecodeAllMeaning<V>(elements: seq<Element>, decodeItem: Element -> Result<V, Error>)
    ensures DecodeAll(elements, decodeItem).Success? <==>
              forall i :: 0 <= i < |elements| ==> decodeItem(elements[i]).Success?
    ensures DecodeAll(elements, decodeItem).Success? ==>
              |DecodeAll(elements, decodeItem).value| == |elements| &&
              forall i :: 0 <= i < |elements| ==> decodeItem(elements[i]) == Success(DecodeAll(elements, decodeItem).value[i])
    ensures DecodeAll(elements, decodeItem).Failure? ==>
              exists k :: 0 <= k < |elements| && decodeItem(elements[k]) == Failure(DecodeAll(elements, decodeItem).error) &&
                          forall j :: 0 <= j < k ==> decodeItem(elements[j]).Success?
    decreases |elements|
  {
    if elements != [] {
      var n := |elements| - 1;
      var front := elements[..n];
      assert forall i :: 0 <= i < n ==> front[i] == elements[i];
      DecodeAllMeaning(front, decodeItem);
      var r := DecodeAll(elements, decodeItem);
      match DecodeAll(front, decodeItem)
      case Failure(e) =>
        var k :| 0 <= k < n && decodeItem(front[k]) == Failure(e) &&
                 forall j :: 0 <= j < k ==> decodeItem(front[j]).Success?;
        assert decodeItem(elements[k]) == Failure(r.error);
      case Success(vs) =>
        match decodeItem(elements[n])
        case Failure(e) =>
          assert decodeItem(elements[n]) == Failure(r.error);
        case Success(v) =>
          assert r.value == vs + [v];
    }
  }

  /** The children the `foreach` of `ToXElement` appends: one encoded item per
      item, in collection order. */
  function EncodeAll<V>(items: seq<V>, encodeItem: V -> Element): (r: seq<Element>)
    ensures |r| == |items| && forall i :: 0 <= i < |items| ==> r[i] == encodeItem(items[i])
    decreases |items|
  {
    if items == [] then []
    else EncodeAll(items[..|items| - 1], encodeItem) + [encodeItem(items[|items| - 1])]
  }

  /** `ToXElement`: a text-less wrapper with one child per item, in order. */
  function Encode<V>(wrapperName: string, items: seq<V>, encodeItem: V -> Element): (r: Element)
    ensures r.name == wrapperName && r.text == ""
    ensures |r.children| == |items| && forall i :: 0 <= i < |items| ==> r.children[i] == encodeItem(items[i])
  {
    Element(wrapperName, "", EncodeAll(items, encodeItem))
  }

  /** The decoding constructor: the first wrapper under `parent`, then its
      children named `itemName`. */
  function Decode<V>(parent: Option<Element>, wrapperName: string, itemName: string,
                     decodeItem: Element -> Result<V, Error>): (r: Result<seq<V>, Error>)
    ensures parent.None? ==> r == Failure(ArgumentNull("parent"))
    ensures parent.Some? && Child(parent.value, wrapperName).None? ==> r == Success([])
    ensures r.Success? && r.value != [] ==>
              Child(parent.value, wrapperName).Some? &&
              |r.value| == |Children(Child(parent.value, wrapperName).value, itemName)|
  {
    match CheckParameter(parent, "parent")
    case Fail(e) => Failure(e)
    case Pass =>
      match Child(parent.value, wrapperName)
      case None => Success([])
      case Some(container) =>
        DecodeAllMeaning(Children(container, itemName), decodeItem);
        DecodeAll(Children(container, itemName), decodeItem)
  }

  /** Decoding the children of an encoded list gives the list back, when the
      item codec round-trips. */
  lemma DecodeAllEncodeAll<V>(items: seq<V>, encodeItem: V -> Element, decodeItem: Element -> Result<V, Error>)
    requires forall x :: x in items ==> decodeItem(encodeItem(x)) == Success(x)
    ensures DecodeAll(EncodeAll(items, encodeItem), decodeItem) == Success(items)
  {
    var es := EncodeAll(items, encodeItem);
    forall i | 0 <= i < |items|
      ensures decodeItem(es[i]) == Success(items[i])
    {
      assert items[i] in items;
    }
    AllDecoded(es, items, decodeItem);
  }

  /** A parent whose first wrapper is `Encode(items)` decodes to `items`. */
  lemma EncodeDecode<V>(parent: Element, wrapperName: string, itemName: string, items: seq<V>,
                        encodeItem: V -> Element, decodeItem: Element -> Result<V, Error>)
    requires forall x :: x in items ==> encodeItem(x).name == itemName && decodeItem(encodeItem(x)) == Success(x)
    requires Child(parent, wrapperName) == Some(Encode(wrapperName, items, encodeItem))
    ensures Decode(Some(parent), wrapperName, itemName, decodeItem) == Success(items)
  {
    var w := Encode(wrapperName, items, encodeItem);
    assert forall i :: 0 <= i < |w.children| ==> w.children[i].name == itemName by {
      forall i | 0 <= i < |w.children|
        ensures w.children[i].name == itemName
      {
        assert items[i] in items;
      }
    }
    assert Children(w, itemName) == EncodeAll(items, encodeItem);
    DecodeAllEncodeAll(items, encodeItem, decodeItem);
  }

  /** Only the first wrapper counts: whatever follows it is not read. */
  lemma FirstWrapperOnly<V>(name: string, text: string, before: seq<Element>, wrapper: Element, after: seq<Element>,
                            itemName: string, decodeItem: Element -> Result<V, Error>)
    requires forall i :: 0 <= i < |before| ==> before[i].name != wrapper.name
    ensures Decode(Some(Element(name, text, before + [wrapper] + after)), wrapper.name, itemName, decodeItem) ==
            DecodeAll(Children(wrapper, itemName), decodeItem)
  {
    FirstNamedAppend(before, [wrapper] + after, wrapper.name);
    assert before + [wrapper] + after == before + ([wrapper] + after);
  }

  /** Children of the wrapper with another name are skipped wherever they are. */
  lemma OtherChildrenIgnored<V>(parent: Element, wrapperName: string, text: string,
                                a: seq<Element>, others: seq<Element>, b: seq<Element>,
                                itemName: string, decodeItem: Element -> Result<V, Error>)
    requires forall i :: 0 <= i < |others| ==> others[i].name != itemName
    requires Child(parent, wrapperName) == Some(Element(wrapperName, text, a + others + b))
    ensures Decode(Some(parent), wrapperName, itemName, decodeItem) == DecodeAll(Named(a + b, itemName), decodeItem)
  {
    NamedSkipsOthers(a, others, b, itemName);
  }

  /** The decoding loop, step by step: a failing item after a decoded prefix
      is the error of the whole decoding, and no collection is built. */
  lemma FirstFailureDecides<V>(elements: seq<Element>, i: nat, decodeItem: Element -> Result<V, Error>)
    requires i < |elements|
    requires DecodeAll(elements[..i], decodeItem).Success?
    requires decodeItem(elements[i]).Failure?
    ensures DecodeAll(elements, decodeItem) == Failure(decodeItem(elements[i]).error)
  {
    var prefix := elements[..i];
    DecodeAllMeaning(prefix, decodeItem);
    assert forall j :: 0 <= j < i ==> prefix[j] == elements[j];
    DecodeAllMeaning(elements, decodeItem);
    var r := DecodeAll(elements, decodeItem);
    var k :| 0 <= k < |elements| && decodeItem(elements[k]) == Failure(r.error) &&
             forall j :: 0 <= j < k ==> decodeItem(elements[j]).Success?;
    assert k == i;
  }

  /** The decoding loop, step by step: a decoded item extends the decoded prefix. */
  lemma NextItemDecoded<V>(elements: seq<Element>, i: nat, decodeItem: Element -> Result<V, Error>)
    requires i < |elements|
    requires DecodeAll(elements[..i], decodeItem).Success?
    requires decodeItem(elements[i]).Success?
    ensures DecodeAll(elements[..i + 1], decodeItem) ==
            Success(DecodeAll(elements[..i], decodeItem).value + [decodeItem(elements[i]).value])
  {
    assert elements[..i + 1][..i] == elements[..i];
  }

  /** The decoding loop, at its end: when every item decoded, the collection
      is their values in document order. */
  lemma AllDecoded<V>(elements: seq<Element>, values: seq<V>, decodeItem: Element -> Result<V, Error>)
    requires |values| == |elements|
    requires forall i :: 0 <= i < |elements| ==> decodeItem(elements[i]) == Success(values[i])
    ensures DecodeAll(elements, decodeItem) == Success(values)
  {
    DecodeAllMeaning(elements, decodeItem);
    var r := DecodeAll(elements, decodeItem);
    assert r.Success?;
    assert r.value == values;
  }
}
