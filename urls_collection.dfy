/** `VersionUrlCollection` (VersionChecker/src/VersionChecker/VersionUrlCollection.cs):
    the shared wrapper codec instantiated with `Urls` around `Url` items. */
module UrlsCollection {
  import opened Wrappers
  import opened Utilities
  import opened Xml
  import Urls
  import CustomCollection

  /** `XmlIdentifier`: the wrapper element name. */
  const XmlIdentifier := "Urls"

  /** `VersionUrl.FromXElement` on an element that is there. */
  function DecodeUrl(e: Element): Result<Urls.Url, Error> {
    Urls.Decode(Some(e))
  }

  /** The urls the element constructor reads from under `parent`. */
  function Decode(parent: Option<Element>): (r: Result<seq<Urls.Url>, Error>)
    ensures r.Success? ==> forall i :: 0 <= i < |r.value| ==> Urls.ValidUrl(r.value[i])
  {
    var r := CustomCollection.Decode(parent, XmlIdentifier, Urls.XmlIdentifier, DecodeUrl);
    if r.Success? && parent.Some? && Child(parent.value, XmlIdentifier).Some? then
      var es := Children(Child(parent.value, XmlIdentifier).value, Urls.XmlIdentifier);
      assert r == CustomCollection.DecodeAll(es, DecodeUrl);
      CustomCollection.DecodeAllMeaning(es, DecodeUrl);
      assert forall i :: 0 <= i < |r.value| ==> DecodeUrl(es[i]) == Success(r.value[i]);
      r
    else r
  }

  /** The wrapper `ToXElement` builds. */
  function Encode(urls: seq<Urls.Url>): (r: Element)
    ensures r.name == XmlIdentifier && r.text == "" && |r.children| == |urls|
    ensures forall i :: 0 <= i < |urls| ==> r.children[i] == Urls.Encode(urls[i])
  {
    CustomCollection.Encode(XmlIdentifier, urls, Urls.Encode)
  }

  /** A `Urls` wrapper of valid urls, found first under its parent, reads
      back as the same urls in the same order. */
  lemma DecodeEncode(parent: Element, urls: seq<Urls.Url>)
    requires forall n :: n in urls ==> Urls.ValidUrl(n)
    requires Child(parent, XmlIdentifier) == Some(Encode(urls))
    ensures Decode(Some(parent)) == Success(urls)
  {
    forall n | n in urls
      ensures Urls.Encode(n).name == Urls.XmlIdentifier && DecodeUrl(Urls.Encode(n)) == Success(n)
    {
      Urls.DecodeEncode(n);
    }
    CustomCollection.EncodeDecode(parent, XmlIdentifier, Urls.XmlIdentifier, urls, Urls.Encode, DecodeUrl);
  }

  /** The encoded shape: a text-less `Urls` element with one `Url` child per url. */
  lemma EncodeShape(urls: seq<Urls.Url>)
    ensures Encode(urls).name == "Urls" && Encode(urls).text == ""
    ensures |Encode(urls).children| == |urls|
    ensures forall i :: 0 <= i < |urls| ==> Encode(urls).children[i].name == "Url"
  {
  }

  /** The values held by a list of url objects. */
  function FieldsOf(urls: seq<Urls.VersionUrl>): (r: seq<Urls.Url>)
    reads urls
    ensures |r| == |urls| && forall i :: 0 <= i < |urls| ==> r[i] == urls[i].Fields()
  {
    if urls == [] then [] else [urls[0].Fields()] + FieldsOf(urls[1..])
  }

  /** A `Collection<VersionUrl>`: the urls it holds, in order. */
  class VersionUrlCollection {
    var items: seq<Urls.VersionUrl>

    ghost predicate Valid()
      reads this, items
    {
      forall i :: 0 <= i < |items| ==> items[i].Valid()
    }

    function Values(): seq<Urls.Url>
      reads this, items
    {
      FieldsOf(items)
    }

    /** The parameterless constructor: an empty collection. */
    constructor Empty()
      ensures items == [] && Valid()
    {
      items := [];
    }

    /** The list constructor: exactly the given urls, in order. */
    constructor FromList(list: seq<Urls.VersionUrl>)
      ensures items == list
    {
      items := list;
    }

    /** `Collection<T>.Add`: the url goes at the end. */
    method Add(item: Urls.VersionUrl)
      modifies this
      ensures items == old(items) + [item]
      ensures Values() == old(Values()) + [item.Fields()]
      ensures old(Valid()) && item.Valid() ==> Valid()
    {
      items := items + [item];
    }

    /** The element constructor: every `Url` child of the first `Urls`
        wrapper, decoded into a new url, or the first error. */
    static method FromParent(parent: Option<Element>) returns (r: Result<VersionUrlCollection, Error>)
      ensures r.Failure? <==> Decode(parent).Failure?
      ensures r.Failure? ==> r.error == Decode(parent).error
      ensures r.Success? ==> fresh(r.value) && r.value.Valid() && r.value.Values() == Decode(parent).value
    {
      var check := CheckParameter(parent, "parent");
      if check.Fail? {
        return Failure(check.error);
      }
      var container := Child(parent.value, XmlIdentifier);
      if container.None? {
        var empty := new VersionUrlCollection.Empty();
        return Success(empty);
      }
      r := DecodeElements(Children(container.value, Urls.XmlIdentifier));
    }

    /** The `foreach` of the element constructor: each element decoded into a
        new url and added in turn; the first failure ends it. */
    static method DecodeElements(elements: seq<Element>) returns (r: Result<VersionUrlCollection, Error>)
      ensures r.Failure? <==> CustomCollection.DecodeAll(elements, DecodeUrl).Failure?
      ensures r.Failure? ==> r.error == CustomCollection.DecodeAll(elements, DecodeUrl).error
      ensures r.Success? ==>
                fresh(r.value) && r.value.Valid() && r.value.Values() == CustomCollection.DecodeAll(elements, DecodeUrl).value
    {
      var c := new VersionUrlCollection.Empty();
      var i := 0;
      ghost var decoded: seq<Urls.Url> := [];
      while i < |elements|
        invariant 0 <= i <= |elements|
        invariant fresh(c) && c.Valid() && c.Values() == decoded
        invariant CustomCollection.DecodeAll(elements[..i], DecodeUrl) == Success(decoded)
      {
        var obj := Urls.VersionUrl.FromXElement(Some(elements[i]));
        ghost var item := DecodeUrl(elements[i]);
        if obj.Failure? {
          assert item == Failure(obj.error);
          CustomCollection.FirstFailureDecides(elements, i, DecodeUrl);
          return Failure(obj.error);
        }
        ghost var value := obj.value.Fields();
        assert item == Success(value);
        CustomCollection.NextItemDecoded(elements, i, DecodeUrl);
        c.Add(obj.value);
        decoded := decoded + [value];
        i := i + 1;
      }
      assert elements[..i] == elements;
      return Success(c);
    }

    /** `ToXElement`: a `Urls` wrapper with each url's element appended in turn. */
    method ToXElement() returns (e: Element)
      ensures e == Encode(Values())
    {
      e := Element(XmlIdentifier, "", []);
      var i := 0;
      while i < |items|
        invariant 0 <= i <= |items|
        invariant e == Encode(Values()[..i])
      {
        assert Values()[..i + 1][..i] == Values()[..i];
        e := Xml.Add(e, Urls.Encode(items[i].Fields()));
        i := i + 1;
      }
      assert Values()[..i] == Values();
    }
  }
}
