/** A reference link: a validated title/url pair and its `Url` element
    (VersionChecker/src/VersionChecker/VersionUrl.cs), with the value equality
    and hash of src/VersionChecker/VersionUrl.cs. The copies in
    VersionChecker/tests/VersionChecker/VersionUrl.cs and
    src/VersionChecker/VersionUrl.cs have the same constructor and setters. */
module Urls {
  import opened Wrappers
  import opened Utilities
  import opened Xml

  /** `XmlIdentifier`: the element name of a url. */
  const XmlIdentifier := "Url"

  /** The value a `VersionUrl` holds. */
  datatype Url = Url(title: string, url: string)

  predicate ValidUrl(n: Url) {
    n.title != "" && n.url != ""
  }

  /** The checks the two-argument constructor makes: the title, then the url. */
  function CheckArguments(title: Option<string>, url: Option<string>): (r: Outcome<Error>)
    ensures r.Pass? <==> title.Some? && title.value != "" && url.Some? && url.value != ""
    ensures title.None? ==> r == Fail(ArgumentNull("title"))
    ensures title == Some("") ==> r == Fail(Argument(VersionUrlTitleEmpty, Some("title")))
    ensures title.Some? && title.value != "" && url.None? ==> r == Fail(ArgumentNull("url"))
    ensures title.Some? && title.value != "" && url == Some("") ==>
              r == Fail(Argument(VersionUrlEmpty, Some("url")))
  {
    match CheckStringParam(title, VersionUrlTitleEmpty, "title")
    case Fail(e) => Fail(e)
    case Pass => CheckStringParam(url, VersionUrlEmpty, "url")
  }

  /** The element `ToXElement` builds: `Url` with a `Title` child, then a `Url` child. */
  function Encode(n: Url): (r: Element)
    ensures r.name == XmlIdentifier && r.text == "" && |r.children| == 2
    ensures r.children == [Leaf("Title", n.title), Leaf("Url", n.url)]
    ensures Child(r, "Title") == Some(Leaf("Title", n.title))
    ensures Child(r, "Url") == Some(Leaf("Url", n.url))
  {
    var r := Add(Add(Element(XmlIdentifier, "", []), Leaf("Title", n.title)), Leaf("Url", n.url));
    assert r.children == [Leaf("Title", n.title), Leaf("Url", n.url)];
    assert r.children[1..] == [Leaf("Url", n.url)];
    assert "Title"[0] != "Url"[0];
    assert r.children[0].name == "Title";
    assert FirstNamed(r.children[1..], "Url") == Some(Leaf("Url", n.url));
    r
  }

  /** The url `FromXElement` reads: only the first `Title` and the first
      `Url` child matter; then the constructor's checks apply. */
  function Decode(element: Option<Element>): (r: Result<Url, Error>)
    ensures r.Success? ==> ValidUrl(r.value)
    ensures r.Success? <==> element.Some? && Child(element.value, "Title").Some? && Child(element.value, "Url").Some? &&
                            Value(Child(element.value, "Title").value) != "" && Value(Child(element.value, "Url").value) != ""
    ensures r.Success? ==> r.value == Url(Value(Child(element.value, "Title").value), Value(Child(element.value, "Url").value))
  {
    match CheckParameter(element, "element")
    case Fail(e) => Failure(e)
    case Pass =>
      var title := Child(element.value, "Title");
      var url := Child(element.value, "Url");
      if title.None? then Failure(Argument(VersionUrlTitleMissing, None))
      else if url.None? then Failure(Argument(VersionUrlMissing, None))
      else
        match CheckArguments(Some(Value(title.value)), Some(Value(url.value)))
        case Fail(e) => Failure(e)
        case Pass => Success(Url(Value(title.value), Value(url.value)))
  }

  /** Reading back an encoded valid url gives the same url. */
  lemma DecodeEncode(n: Url)
    requires ValidUrl(n)
    ensures Decode(Some(Encode(n))) == Success(n)
  {
    LeafValue("Title", n.title);
    LeafValue("Url", n.url);
  }

  /** The errors of `FromXElement`, in the order it raises them. */
  lemma DecodeErrors(e: Element)
    ensures Decode(None) == Failure(ArgumentNull("element"))
    ensures Child(e, "Title").None? ==> Decode(Some(e)) == Failure(Argument(VersionUrlTitleMissing, None))
    ensures Child(e, "Title").Some? && Child(e, "Url").None? ==>
              Decode(Some(e)) == Failure(Argument(VersionUrlMissing, None))
    ensures Child(e, "Title").Some? && Value(Child(e, "Title").value) == "" ==>
              Decode(Some(e)).Failure?
    ensures Child(e, "Title").Some? && Child(e, "Url").Some? && Value(Child(e, "Title").value) == "" ==>
              Decode(Some(e)) == Failure(Argument(VersionUrlTitleEmpty, Some("title")))
    ensures Child(e, "Title").Some? && Child(e, "Url").Some? && Value(Child(e, "Title").value) != "" &&
            Value(Child(e, "Url").value) == "" ==>
              Decode(Some(e)) == Failure(Argument(VersionUrlEmpty, Some("url")))
  {
  }

  /** The element's own name and text are not looked at, and children other
      than `Title` and `Url` placed anywhere are ignored. */
  lemma {:induction false} DecodeIgnoresOtherChildren(e: Element, name: string, text: string, before: seq<Element>, others: seq<Element>)
    requires forall i :: 0 <= i < |others| ==> others[i].name != "Title" && others[i].name != "Url"
    ensures Decode(Some(Element(name, text, before + others + e.children))) ==
            Decode(Some(Element(e.name, e.text, before + e.children)))
  {
    FirstNamedSkipsOthers(before, others, e.children, "Title");
    FirstNamedSkipsOthers(before, others, e.children, "Url");
  }

  /** A `VersionUrl` object; its title and url are non-empty as long as
      they are set only through the constructor and the setters. */
  class VersionUrl {
    var title: string
    var url: string

    ghost predicate Valid()
      reads this
    {
      title != "" && url != ""
    }

    function Fields(): Url
      reads this
    {
      Url(title, url)
    }

    constructor Init(title: string, url: string)
      requires title != "" && url != ""
      ensures Valid() && this.title == title && this.url == url
    {
      this.title := title;
      this.url := url;
    }

    /** The two-argument constructor: a url, or the first failed check. */
    static method Create(title: Option<string>, url: Option<string>) returns (r: Result<VersionUrl, Error>)
      ensures r.Failure? <==> CheckArguments(title, url).Fail?
      ensures r.Failure? ==> r.error == CheckArguments(title, url).error
      ensures r.Success? ==> fresh(r.value) && r.value.Valid() &&
                             r.value.title == title.value && r.value.url == url.value
    {
      var check := CheckStringParam(title, VersionUrlTitleEmpty, "title");
      if check.Fail? {
        return Failure(check.error);
      }
      check := CheckStringParam(url, VersionUrlEmpty, "url");
      if check.Fail? {
        return Failure(check.error);
      }
      var link := new VersionUrl.Init(title.value, url.value);
      return Success(link);
    }

    /** The `Title` setter: a null or empty value is refused and the title kept. */
    method SetTitle(value: Option<string>) returns (r: Outcome<Error>)
      modifies this
      ensures r == CheckStringParam(value, VersionUrlTitleEmpty, "value")
      ensures title == (if r.Pass? then value.value else old(title))
      ensures url == old(url)
      ensures old(Valid()) ==> Valid()
    {
      r := CheckStringParam(value, VersionUrlTitleEmpty, "value");
      if r.Pass? {
        title := value.value;
      }
    }

    /** The `Url` setter: a null or empty value is refused and the url kept. */
    method SetUrl(value: Option<string>) returns (r: Outcome<Error>)
      modifies this
      ensures r == CheckStringParam(value, VersionUrlEmpty, "value")
      ensures url == (if r.Pass? then value.value else old(url))
      ensures title == old(title)
      ensures old(Valid()) ==> Valid()
    {
      r := CheckStringParam(value, VersionUrlEmpty, "value");
      if r.Pass? {
        url := value.value;
      }
    }

    /** `FromXElement`: a new url read from the element, or the error `Decode` gives. */
    static method FromXElement(element: Option<Element>) returns (r: Result<VersionUrl, Error>)
      ensures r.Failure? <==> Decode(element).Failure?
      ensures r.Failure? ==> r.error == Decode(element).error
      ensures r.Success? ==> fresh(r.value) && r.value.Valid() && r.value.Fields() == Decode(element).value
    {
      var check := CheckParameter(element, "element");
      if check.Fail? {
        return Failure(check.error);
      }
      var title := Child(element.value, "Title");
      var url := Child(element.value, "Url");
      if title.None? {
        return Failure(Argument(VersionUrlTitleMissing, None));
      }
      if url.None? {
        return Failure(Argument(VersionUrlMissing, None));
      }
      r := Create(Some(Value(title.value)), Some(Value(url.value)));
    }

    /** `Equals(VersionUrl)`: false for null, otherwise ordinal equality of both fields. */
    predicate Equals(other: VersionUrl?)
      reads this, other
    {
      other != null && title == other.title && url == other.url
    }

    /** `Equals(object)`: `obj as VersionUrl` is null for any other kind of object. */
    predicate EqualsObject(obj: object?)
      reads this, obj
    {
      Equals(if obj is VersionUrl then obj as VersionUrl else null)
    }

    /** `GetHashCode`: the hashes of the two fields combined with XOR; the string
        hash of the runtime is a parameter. */
    function GetHashCode(stringHash: string -> bv32): bv32
      reads this
    {
      stringHash(title) ^ stringHash(url)
    }
  }

  /** Typed equality is equality of the held values, and symmetric. */
  lemma EqualsIsValueEquality(a: VersionUrl, b: VersionUrl?)
    ensures a.Equals(b) <==> b != null && a.Fields() == b.Fields()
    ensures b != null ==> (a.Equals(b) <==> b.Equals(a))
    ensures !a.Equals(null)
  {
  }

  /** Untyped equality agrees with typed equality on urls and is false on anything else. */
  lemma EqualsObjectAgrees(a: VersionUrl, obj: object?)
    ensures obj is VersionUrl ==> (a.EqualsObject(obj) <==> a.Equals(obj as VersionUrl))
    ensures !(obj is VersionUrl) ==> !a.EqualsObject(obj)
  {
  }

  /** Equal urls have equal hashes, whatever the string hash is. */
  lemma EqualUrlsHashAlike(a: VersionUrl, b: VersionUrl, stringHash: string -> bv32)
    requires a.Equals(b)
    ensures a.GetHashCode(stringHash) == b.GetHashCode(stringHash)
  {
  }

  /** The hash does not depend on which field holds which string's hash. */
  lemma HashIsSymmetricInFields(a: VersionUrl, stringHash: string -> bv32)
    ensures a.GetHashCode(stringHash) == stringHash(a.url) ^ stringHash(a.title)
  {
  }
}
