/** The application-version descriptor with its own element-tree codec
    (VersionChecker/src/VersionChecker/ApplicationVersion.cs). A document is
    represented by its root element. */
module VersionDescriptor {
  import opened Wrappers
  import opened Utilities
  import opened Xml
  import opened Identifiers
  import opened Dates
  import Notes
  import Urls
  import NotesCollection
  import UrlsCollection

  /** What a descriptor holds; `None` is a null collection. */
  datatype VersionData = VersionData(id: string, date: DateTime,
                                     notes: Option<seq<Notes.Note>>, urls: Option<seq<Urls.Url>>)

  /** `SerializeCollection`'s guard: non-null and non-empty. */
  predicate HasItems<T>(items: Option<seq<T>>) {
    items.Some? && |items.value| > 0
  }

  /** The `Date` child, present only for a date other than `MinValue`. */
  function DatePart(date: DateTime): seq<Element> {
    if date != MinValue then [Leaf("Date", FormatDate(date))] else []
  }

  /** The `Notes` wrapper, present only for a non-empty collection. */
  function NotesPart(notes: Option<seq<Notes.Note>>): seq<Element> {
    if HasItems(notes) then [NotesCollection.Encode(notes.value)] else []
  }

  /** The `Urls` wrapper, present only for a non-empty collection. */
  function UrlsPart(urls: Option<seq<Urls.Url>>): seq<Element> {
    if HasItems(urls) then [UrlsCollection.Encode(urls.value)] else []
  }

  /** The `Date` step of `ToXDocument`. */
  function WithDate(container: Element, date: DateTime): (r: Element)
    ensures r.name == container.name && r.text == container.text
    ensures r.children == container.children + DatePart(date)
  {
    if date != MinValue then Add(container, Leaf("Date", FormatDate(date))) else container
  }

  /** `SerializeCollection(Notes, container)`. */
  function WithNotes(container: Element, notes: Option<seq<Notes.Note>>): (r: Element)
    ensures r.name == container.name && r.text == container.text
    ensures r.children == container.children + NotesPart(notes)
  {
    if HasItems(notes) then Add(container, NotesCollection.Encode(notes.value)) else container
  }

  /** `SerializeCollection(Urls, container)`. */
  function WithUrls(container: Element, urls: Option<seq<Urls.Url>>): (r: Element)
    ensures r.name == container.name && r.text == container.text
    ensures r.children == container.children + UrlsPart(urls)
  {
    if HasItems(urls) then Add(container, UrlsCollection.Encode(urls.value)) else container
  }

  /** `ToXDocument`: the `Version` root built child by child. */
  function Encode(v: VersionData): (r: Element)
    ensures r.name == "Version" && r.text == ""
  {
    WithUrls(WithNotes(WithDate(Add(Element("Version", "", []), Leaf("Id", v.id)), v.date), v.notes), v.urls)
  }

  /** The children come in a fixed order: `Id`, then `Date` unless the date is
      `MinValue`, then `Notes` and `Urls`, each only when non-null and non-empty. */
  lemma EncodeLayout(v: VersionData)
    ensures Encode(v).children == [Leaf("Id", v.id)] + DatePart(v.date) + NotesPart(v.notes) + UrlsPart(v.urls)
  {
    var withId := Add(Element("Version", "", []), Leaf("Id", v.id));
    assert withId.children == [Leaf("Id", v.id)];
  }

  /** The four parts of a descriptor's children: an `Id` element, then at
      most one element of each optional kind. */
  predicate Layout(id: Element, d: seq<Element>, n: seq<Element>, u: seq<Element>) {
    id.name == "Id" && |d| <= 1 && |n| <= 1 && |u| <= 1 &&
    (forall i :: 0 <= i < |d| ==> d[i].name == "Date") &&
    (forall i :: 0 <= i < |n| ==> n[i].name == "Notes") &&
    (forall i :: 0 <= i < |u| ==> u[i].name == "Urls")
  }

  lemma IdLookup(id: Element, d: seq<Element>, n: seq<Element>, u: seq<Element>)
    requires Layout(id, d, n, u)
    ensures FirstNamed([id] + d + n + u, "Id") == Some(id)
  {
    assert ([id] + d + n + u)[0] == id;
  }

  lemma DateLookup(id: Element, d: seq<Element>, n: seq<Element>, u: seq<Element>)
    requires Layout(id, d, n, u)
    ensures FirstNamed([id] + d + n + u, "Date") == if d == [] then None else Some(d[0])
  {
    var rest := n + u;
    assert forall i :: 0 <= i < |rest| ==> rest[i].name == "Notes" || rest[i].name == "Urls";
    assert "Urls"[0] != "Date"[0];
    assert [id] + d + n + u == [id] + d + rest;
    FirstNamedOfParts([id], d, rest, "Date");
  }

  lemma NotesLookup(id: Element, d: seq<Element>, n: seq<Element>, u: seq<Element>)
    requires Layout(id, d, n, u)
    ensures FirstNamed([id] + d + n + u, "Notes") == if n == [] then None else Some(n[0])
  {
    var head := [id] + d;
    assert forall i :: 0 <= i < |head| ==> head[i].name == "Id" || head[i].name == "Date";
    FirstNamedOfParts(head, n, u, "Notes");
  }

  lemma UrlsLookup(id: Element, d: seq<Element>, n: seq<Element>, u: seq<Element>)
    requires Layout(id, d, n, u)
    ensures FirstNamed([id] + d + n + u, "Urls") == if u == [] then None else Some(u[0])
  {
    var head := [id] + d + n;
    assert forall i :: 0 <= i < |head| ==> head[i].name in {"Id", "Date", "Notes"};
    assert "Urls"[0] != "Date"[0];
    assert head + u == head + u + [];
    FirstNamedOfParts(head, u, [], "Urls");
  }

  /** What `FromXml` finds when it looks up each child of an encoded descriptor. */
  lemma EncodeLookups(v: VersionData)
    ensures Child(Encode(v), "Id") == Some(Leaf("Id", v.id))
    ensures Child(Encode(v), "Date") == if v.date != MinValue then Some(Leaf("Date", FormatDate(v.date))) else None
    ensures Child(Encode(v), "Notes") == if HasItems(v.notes) then Some(NotesCollection.Encode(v.notes.value)) else None
    ensures Child(Encode(v), "Urls") == if HasItems(v.urls) then Some(UrlsCollection.Encode(v.urls.value)) else None
  {
    var id, d, n, u := Leaf("Id", v.id), DatePart(v.date), NotesPart(v.notes), UrlsPart(v.urls);
    EncodeLayout(v);
    assert Layout(id, d, n, u);
    IdLookup(id, d, n, u);
    DateLookup(id, d, n, u);
    NotesLookup(id, d, n, u);
    UrlsLookup(id, d, n, u);
  }

  /** The date `FromXml` reads: `MinValue` without a `Date` child, otherwise
      what the date parser makes of its text (`None` when it refuses it). */
  function ReadDate(document: Element, parseDate: string -> Option<DateTime>): (r: Option<DateTime>)
    ensures Child(document, "Date").None? ==> r == Some(MinValue)
    ensures Child(document, "Date").Some? ==> r == parseDate(Value(Child(document, "Date").value))
  {
    var dateElement := Child(document, "Date");
    if dateElement.None? then Some(MinValue) else parseDate(Value(dateElement.value))
  }

  /** The decoding half of `FromXml`: no `Version` root or no `Id` child gives
      no descriptor; otherwise the date, the notes and the urls are read in that
      order, each failure ending the read, and the constructor's check on the
      raw id comes last. */
  function Decode(document: Element, parseDate: string -> Option<DateTime>): (r: Result<Option<VersionData>, Error>)
    ensures r == Success(None) <==> document.name != "Version" || Child(document, "Id").None?
    ensures document.name == "Version" && Child(document, "Id").Some? ==>
              var id := Value(Child(document, "Id").value);
              var date := ReadDate(document, parseDate);
              var notes := NotesCollection.Decode(Some(document));
              var urls := UrlsCollection.Decode(Some(document));
              (date.None? ==> r == Failure(DateFormat)) &&
              (date.Some? && notes.Failure? ==> r == Failure(notes.error)) &&
              (date.Some? && notes.Success? && urls.Failure? ==> r == Failure(urls.error)) &&
              (date.Some? && notes.Success? && urls.Success? && id == "" ==>
                 r == Failure(Argument(VersionIdEmpty, Some("id")))) &&
              (date.Some? && notes.Success? && urls.Success? && id != "" ==>
                 r == Success(Some(VersionData(StandardizedString(id), date.value, Some(notes.value), Some(urls.value)))))
    ensures r.Success? && r.value.Some? ==>
              r.value.value.notes.Some? && r.value.value.urls.Some? &&
              (forall i :: 0 <= i < |r.value.value.id| ==> !Removed(r.value.value.id[i])) &&
              (forall i :: 0 <= i < |r.value.value.notes.value| ==> Notes.ValidNote(r.value.value.notes.value[i])) &&
              (forall i :: 0 <= i < |r.value.value.urls.value| ==> Urls.ValidUrl(r.value.value.urls.value[i]))
  {
    if document.name != "Version" then Success(None)
    else
      match Child(document, "Id")
      case None => Success(None)
      case Some(idElement) =>
        var id := Value(idElement);
        var date := ReadDate(document, parseDate);
        if date.None? then Failure(DateFormat)
        else
          match NotesCollection.Decode(Some(document))
          case Failure(e) => Failure(e)
          case Success(notes) =>
            match UrlsCollection.Decode(Some(document))
            case Failure(e) => Failure(e)
            case Success(urls) =>
              match CheckStringParam(Some(id), VersionIdEmpty, "id")
              case Fail(e) => Failure(e)
              case Pass => Success(Some(VersionData(StandardizedString(id), date.value, Some(notes), Some(urls))))
  }

  /** `FromXml`: the text check, the parser (a parameter here), then `Decode`. */
  function FromXmlSpec(xml: Option<string>, parse: string -> Option<Element>,
                       parseDate: string -> Option<DateTime>): (r: Result<Option<VersionData>, Error>)
    ensures xml.None? ==> r == Failure(ArgumentNull("xml"))
    ensures xml == Some("") ==> r == Failure(Argument(XmlEmpty, Some("xml")))
    ensures xml.Some? && xml.value != "" && parse(xml.value).None? ==> r == Failure(MalformedXml)
    ensures xml.Some? && xml.value != "" && parse(xml.value).Some? ==> r == Decode(parse(xml.value).value, parseDate)
  {
    match CheckStringParam(xml, XmlEmpty, "xml")
    case Fail(e) => Failure(e)
    case Pass =>
      match parse(xml.value)
      case None => Failure(MalformedXml)
      case Some(document) => Decode(document, parseDate)
  }

  /** A null collection reads back as an empty one. */
  function OrEmpty<T>(items: Option<seq<T>>): seq<T> {
    if items.Some? then items.value else []
  }

  /** What decoding gives back: the same descriptor with null collections empty. */
  function Normalized(v: VersionData): VersionData {
    v.(notes := Some(OrEmpty(v.notes)), urls := Some(OrEmpty(v.urls)))
  }

  /** Round trip: a descriptor with a normalised non-empty id and valid items,
      whose date text the date parser reads back, decodes to itself with null
      collections turned into empty ones. */
  lemma DecodeEncode(v: VersionData, parseDate: string -> Option<DateTime>)
    requires v.id != "" && StandardizedString(v.id) == v.id
    requires v.notes.Some? ==> forall n :: n in v.notes.value ==> Notes.ValidNote(n)
    requires v.urls.Some? ==> forall u :: u in v.urls.value ==> Urls.ValidUrl(u)
    requires v.date != MinValue ==> parseDate(FormatDate(v.date)) == Some(v.date)
    ensures Decode(Encode(v), parseDate) == Success(Some(Normalized(v)))
  {
    IdAndDateReadBack(v, parseDate);
    NotesReadBack(v);
    UrlsReadBack(v);
  }

  /** The root, the id and the date of an encoded descriptor read back. */
  lemma IdAndDateReadBack(v: VersionData, parseDate: string -> Option<DateTime>)
    requires v.date != MinValue ==> parseDate(FormatDate(v.date)) == Some(v.date)
    ensures Encode(v).name == "Version" && Child(Encode(v), "Id").Some?
    ensures Value(Child(Encode(v), "Id").value) == v.id
    ensures ReadDate(Encode(v), parseDate) == Some(v.date)
  {
    EncodeLookups(v);
    LeafValue("Id", v.id);
    LeafValue("Date", FormatDate(v.date));
  }

  /** The notes of an encoded descriptor read back, a null collection as an empty one. */
  lemma NotesReadBack(v: VersionData)
    requires v.notes.Some? ==> forall n :: n in v.notes.value ==> Notes.ValidNote(n)
    ensures NotesCollection.Decode(Some(Encode(v))) == Success(OrEmpty(v.notes))
  {
    EncodeLookups(v);
    if HasItems(v.notes) {
      NotesCollection.DecodeEncode(Encode(v), v.notes.value);
    }
  }

  /** The urls of an encoded descriptor read back, a null collection as an empty one. */
  lemma UrlsReadBack(v: VersionData)
    requires v.urls.Some? ==> forall u :: u in v.urls.value ==> Urls.ValidUrl(u)
    ensures UrlsCollection.Decode(Some(Encode(v))) == Success(OrEmpty(v.urls))
  {
    EncodeLookups(v);
    if HasItems(v.urls) {
      UrlsCollection.DecodeEncode(Encode(v), v.urls.value);
    }
  }

  /** Encoding cannot tell a null collection from an empty one. */
  lemma EncodeNormalized(v: VersionData)
    ensures Encode(Normalized(v)) == Encode(v)
  {
  }

  /** Encoding what was decoded from an encoding gives the same document. */
  lemma EncodeDecodeEncode(v: VersionData, parseDate: string -> Option<DateTime>)
    requires v.id != "" && StandardizedString(v.id) == v.id
    requires v.notes.Some? ==> forall n :: n in v.notes.value ==> Notes.ValidNote(n)
    requires v.urls.Some? ==> forall u :: u in v.urls.value ==> Urls.ValidUrl(u)
    requires v.date != MinValue ==> parseDate(FormatDate(v.date)) == Some(v.date)
    ensures Decode(Encode(v), parseDate).Success? && Decode(Encode(v), parseDate).value.Some?
    ensures Encode(Decode(Encode(v), parseDate).value.value) == Encode(v)
  {
    DecodeEncode(v, parseDate);
    EncodeNormalized(v);
  }

  /** A document holding only `Version` and `Id`: date `MinValue`, and notes
      and urls empty rather than null. */
  lemma MinimalDocument(id: string, text: string, parseDate: string -> Option<DateTime>)
    requires id != ""
    ensures Decode(Element("Version", text, [Leaf("Id", id)]), parseDate) ==
            Success(Some(VersionData(StandardizedString(id), MinValue, Some([]), Some([]))))
  {
    LeafValue("Id", id);
  }

  /** The id is checked before it is normalised: an id of one space is accepted
      and stored as "", and the document written for it does not read back. */
  lemma BlankIdRoundTripFails(parseDate: string -> Option<DateTime>)
    ensures CheckStringParam(Some(" "), VersionIdEmpty, "id").Pass?
    ensures StandardizedString(" ") == ""
    ensures Decode(Encode(VersionData("", MinValue, None, None)), parseDate) ==
            Failure(Argument(VersionIdEmpty, Some("id")))
  {
    var e := Encode(VersionData("", MinValue, None, None));
    assert e.children == [Leaf("Id", "")];
    LeafValue("Id", "");
  }

  /** The sub-second part of a date is not written, so it never reads back. */
  lemma SubSecondsDropped(v: VersionData)
    requires v.date.(subSecondTicks := 0) != MinValue
    ensures Encode(v) == Encode(v.(date := v.date.(subSecondTicks := 0)))
  {
  }

  /** Dates that differ in more than their sub-second part give different documents. */
  lemma EncodeDistinguishesDates(a: VersionData, b: VersionData)
    requires a.date != MinValue && b.date != MinValue
    ensures Encode(a) == Encode(b) ==> a.date.(subSecondTicks := 0) == b.date.(subSecondTicks := 0)
  {
    if Encode(a) == Encode(b) {
      EncodeLookups(a);
      EncodeLookups(b);
      LeafValue("Date", FormatDate(a.date));
      LeafValue("Date", FormatDate(b.date));
      FormatDateInjective(a.date, b.date);
    }
  }

  /** An `ApplicationVersion` object. `Id`, `Date`, `Notes` and `Urls` are
      settable properties, so they are plain fields. */
  class ApplicationVersion {
    var id: string
    var date: DateTime
    var notes: NotesCollection.VersionNotesCollection?
    var urls: UrlsCollection.VersionUrlCollection?

    /** The descriptor this object currently holds. */
    function Data(): VersionData
      reads this, notes, urls, (if notes == null then [] else notes.items),
            (if urls == null then [] else urls.items)
    {
      VersionData(id, date,
                  if notes == null then None else Some(notes.Values()),
                  if urls == null then None else Some(urls.Values()))
    }

    constructor Init(id: string, date: DateTime, notes: NotesCollection.VersionNotesCollection?,
                     urls: UrlsCollection.VersionUrlCollection?)
      ensures this.id == id && this.date == date && this.notes == notes && this.urls == urls
    {
      this.id := id;
      this.date := date;
      this.notes := notes;
      this.urls := urls;
    }

    /** The four-argument constructor: the raw id is checked, then stored
        normalised; the collections are the caller's own objects. */
    static method Create(id: Option<string>, date: DateTime, notes: NotesCollection.VersionNotesCollection?,
                         urls: UrlsCollection.VersionUrlCollection?) returns (r: Result<ApplicationVersion, Error>)
      ensures r.Failure? <==> CheckStringParam(id, VersionIdEmpty, "id").Fail?
      ensures r.Failure? ==> r.error == CheckStringParam(id, VersionIdEmpty, "id").error
      ensures r.Success? ==> fresh(r.value) && r.value.id == StandardizedString(id.value) &&
                             r.value.date == date && r.value.notes == notes && r.value.urls == urls
    {
      var check := CheckStringParam(id, VersionIdEmpty, "id");
      if check.Fail? {
        return Failure(check.error);
      }
      var version := new ApplicationVersion.Init(StandardizedString(id.value), date, notes, urls);
      return Success(version);
    }

    /** The one-argument constructor: date `MinValue`, null collections. */
    static method CreateWithId(id: Option<string>) returns (r: Result<ApplicationVersion, Error>)
      ensures r.Failure? <==> CheckStringParam(id, VersionIdEmpty, "id").Fail?
      ensures r.Failure? ==> r.error == CheckStringParam(id, VersionIdEmpty, "id").error
      ensures r.Success? ==> fresh(r.value) && r.value.Data() == VersionData(StandardizedString(id.value), MinValue, None, None)
    {
      r := Create(id, MinValue, null, null);
    }

    /** `SerializeCollection` for the notes: appends `ToXElement()` of a
        non-null, non-empty collection. */
    static method SerializeNotes(collection: NotesCollection.VersionNotesCollection?, container: Element) returns (r: Element)
      ensures r == WithNotes(container, if collection == null then None else Some(collection.Values()))
    {
      r := container;
      if collection != null && |collection.items| > 0 {
        var wrapper := collection.ToXElement();
        r := Add(container, wrapper);
      }
    }

    /** `SerializeCollection` for the urls. */
    static method SerializeUrls(collection: UrlsCollection.VersionUrlCollection?, container: Element) returns (r: Element)
      ensures r == WithUrls(container, if collection == null then None else Some(collection.Values()))
    {
      r := container;
      if collection != null && |collection.items| > 0 {
        var wrapper := collection.ToXElement();
        r := Add(container, wrapper);
      }
    }

    /** `ToXDocument`: the document for the descriptor this object holds. */
    method ToXDocument() returns (document: Element)
      ensures document == Encode(Data())
    {
      var container := Element("Version", "", []);
      container := Add(container, Leaf("Id", id));
      if date != MinValue {
        container := Add(container, Leaf("Date", FormatDate(date)));
      }
      container := SerializeNotes(notes, container);
      container := SerializeUrls(urls, container);
      document := container;
    }

    /** `FromXml`: a new descriptor with new collections, null when the
        document has no `Version` root or no `Id`, or the first error. */
    static method FromXml(xml: Option<string>, parse: string -> Option<Element>,
                          parseDate: string -> Option<DateTime>) returns (r: Result<ApplicationVersion?, Error>)
      ensures r.Failure? <==> FromXmlSpec(xml, parse, parseDate).Failure?
      ensures r.Failure? ==> r.error == FromXmlSpec(xml, parse, parseDate).error
      ensures r.Success? ==> (r.value == null <==> FromXmlSpec(xml, parse, parseDate).value.None?)
      ensures r.Success? && r.value != null ==>
                fresh(r.value) && fresh(r.value.notes) && fresh(r.value.urls) &&
                r.value.Data() == FromXmlSpec(xml, parse, parseDate).value.value
    {
      var check := CheckStringParam(xml, XmlEmpty, "xml");
      if check.Fail? {
        return Failure(check.error);
      }
      var document := parse(xml.value);
      if document.None? {
        return Failure(MalformedXml);
      }
      var info := document.value;
      if info.name != "Version" {
        return Success(null);
      }
      var idElement := Child(info, "Id");
      if idElement.None? {
        return Success(null);
      }
      var id := Value(idElement.value);
      var date := MinValue;
      var dateElement := Child(info, "Date");
      if dateElement.Some? {
        var parsed := parseDate(Value(dateElement.value));
        if parsed.None? {
          return Failure(DateFormat);
        }
        date := parsed.value;
      }
      var versionNotes := NotesCollection.VersionNotesCollection.FromParent(Some(info));
      if versionNotes.Failure? {
        return Failure(versionNotes.error);
      }
      var versionUrls := UrlsCollection.VersionUrlCollection.FromParent(Some(info));
      if versionUrls.Failure? {
        return Failure(versionUrls.error);
      }
      var created := Create(Some(id), date, versionNotes.value, versionUrls.value);
      if created.Failure? {
        return Failure(created.error);
      }
      return Success(created.value);
    }

    /** `Equals`: false for null, otherwise ordinal equality of the ids. */
    predicate Equals(other: ApplicationVersion?)
      reads this, other
    {
      other != null && id == other.id
    }
  }

  /** Equality looks at the id alone, and is an equivalence on descriptors. */
  lemma EqualsById(a: ApplicationVersion, b: ApplicationVersion, c: ApplicationVersion)
    ensures !a.Equals(null)
    ensures a.Equals(a)
    ensures a.Equals(b) <==> b.Equals(a)
    ensures a.Equals(b) && b.Equals(c) ==> a.Equals(c)
    ensures a.Equals(b) <==> a.id == b.id
  {
  }
}
