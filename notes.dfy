/** A release note: a validated title/content pair and its `Note` element
    (VersionChecker/src/VersionChecker/VersionNote.cs; the copy in
    VersionChecker/tests/VersionChecker/VersionNote.cs has the same
    constructor and setters and no element codec). */
module Notes {
  import opened Wrappers
  import opened Utilities
  import opened Xml

  /** `XmlIdentifier`: the element name of a note. */
  const XmlIdentifier := "Note"

  /** The value a `VersionNote` holds. */
  datatype Note = Note(title: string, content: string)

  predicate ValidNote(n: Note) {
    n.title != "" && n.content != ""
  }

  /** The checks the two-argument constructor makes: the title, then the content. */
  function CheckArguments(title: Option<string>, content: Option<string>): (r: Outcome<Error>)
    ensures r.Pass? <==> title.Some? && title.value != "" && content.Some? && content.value != ""
    ensures title.None? ==> r == Fail(ArgumentNull("title"))
    ensures title == Some("") ==> r == Fail(Argument(VersionNoteTitleEmpty, Some("title")))
    ensures title.Some? && title.value != "" && content.None? ==> r == Fail(ArgumentNull("content"))
    ensures title.Some? && title.value != "" && content == Some("") ==>
              r == Fail(Argument(VersionNoteContentEmpty, Some("content")))
  {
    match CheckStringParam(title, VersionNoteTitleEmpty, "title")
    case Fail(e) => Fail(e)
    case Pass => CheckStringParam(content, VersionNoteContentEmpty, "content")
  }

  /** The element `ToXElement` builds: `Note` with a `Title` child, then a `Content` child. */
  function Encode(n: Note): (r: Element)
    ensures r.name == XmlIdentifier && r.text == "" && |r.children| == 2
    ensures r.children == [Leaf("Title", n.title), Leaf("Content", n.content)]
    ensures Child(r, "Title") == Some(Leaf("Title", n.title))
    ensures Child(r, "Content") == Some(Leaf("Content", n.content))
  {
    var r := Add(Add(Element(XmlIdentifier, "", []), Leaf("Title", n.title)), Leaf("Content", n.content));
    assert r.children == [Leaf("Title", n.title), Leaf("Content", n.content)];
    assert r.children[1..] == [Leaf("Content", n.content)];
    assert "Title"[0] != "Content"[0];
    assert r.children[0].name == "Title";
    assert FirstNamed(r.children[1..], "Content") == Some(Leaf("Content", n.content));
    r
  }

  /** The note `FromXElement` reads: only the first `Title` and the first
      `Content` child matter; then the constructor's checks apply. */
  function Decode(element: Option<Element>): (r: Result<Note, Error>)
    ensures r.Success? ==> ValidNote(r.value)
    ensures r.Success? <==> element.Some? && Child(element.value, "Title").Some? && Child(element.value, "Content").Some? &&
                            Value(Child(element.value, "Title").value) != "" && Value(Child(element.value, "Content").value) != ""
    ensures r.Success? ==> r.value == Note(Value(Child(element.value, "Title").value), Value(Child(element.value, "Content").value))
  {
    match CheckParameter(element, "element")
    case Fail(e) => Failure(e)
    case Pass =>
      var title := Child(element.value, "Title");
      var content := Child(element.value, "Content");
      if title.None? then Failure(Argument(VersionNoteTitleMissing, None))
      else if content.None? then Failure(Argument(VersionNoteContentMissing, None))
      else
        match CheckArguments(Some(Value(title.value)), Some(Value(content.value)))
        case Fail(e) => Failure(e)
        case Pass => Success(Note(Value(title.value), Value(content.value)))
  }

  /** Reading back an encoded valid note gives the same note. */
  lemma DecodeEncode(n: Note)
    requires ValidNote(n)
    ensures Decode(Some(Encode(n))) == Success(n)
  {
    LeafValue("Title", n.title);
    LeafValue("Content", n.content);
  }

  /** The errors of `FromXElement`, in the order it raises them. */
  lemma DecodeErrors(e: Element)
    ensures Decode(None) == Failure(ArgumentNull("element"))
    ensures Child(e, "Title").None? ==> Decode(Some(e)) == Failure(Argument(VersionNoteTitleMissing, None))
    ensures Child(e, "Title").Some? && Child(e, "Content").None? ==>
              Decode(Some(e)) == Failure(Argument(VersionNoteContentMissing, None))
    ensures Child(e, "Title").Some? && Value(Child(e, "Title").value) == "" ==>
              Decode(Some(e)).Failure?
    ensures Child(e, "Title").Some? && Child(e, "Content").Some? && Value(Child(e, "Title").value) == "" ==>
              Decode(Some(e)) == Failure(Argument(VersionNoteTitleEmpty, Some("title")))
    ensures Child(e, "Title").Some? && Child(e, "Content").Some? && Value(Child(e, "Title").value) != "" &&
            Value(Child(e, "Content").value) == "" ==>
              Decode(Some(e)) == Failure(Argument(VersionNoteContentEmpty, Some("content")))
  {
  }

  /** The element's own name and text are not looked at, and children other
      than `Title` and `Content` placed anywhere are ignored. */
  lemma {:induction false} DecodeIgnoresOtherChildren(e: Element, name: string, text: string, before: seq<Element>, others: seq<Element>)
    requires forall i :: 0 <= i < |others| ==> others[i].name != "Title" && others[i].name != "Content"
    ensures Decode(Some(Element(name, text, before + others + e.children))) ==
            Decode(Some(Element(e.name, e.text, before + e.children)))
  {
    FirstNamedSkipsOthers(before, others, e.children, "Title");
    FirstNamedSkipsOthers(before, others, e.children, "Content");
  }

  /** A `VersionNote` object; its title and content are non-empty as long as
      they are set only through the constructor and the setters. */
  class VersionNote {
    var title: string
    var content: string

    ghost predicate Valid()
      reads this
    {
      title != "" && content != ""
    }

    function Fields(): Note
      reads this
    {
      Note(title, content)
    }

    constructor Init(title: string, content: string)
      requires title != "" && content != ""
      ensures Valid() && this.title == title && this.content == content
    {
      this.title := title;
      this.content := content;
    }

    /** The two-argument constructor: a note, or the first failed check. */
    static method Create(title: Option<string>, content: Option<string>) returns (r: Result<VersionNote, Error>)
      ensures r.Failure? <==> CheckArguments(title, content).Fail?
      ensures r.Failure? ==> r.error == CheckArguments(title, content).error
      ensures r.Success? ==> fresh(r.value) && r.value.Valid() &&
                             r.value.title == title.value && r.value.content == content.value
    {
      var check := CheckStringParam(title, VersionNoteTitleEmpty, "title");
      if check.Fail? {
        return Failure(check.error);
      }
      check := CheckStringParam(content, VersionNoteContentEmpty, "content");
      if check.Fail? {
        return Failure(check.error);
      }
      var note := new VersionNote.Init(title.value, content.value);
      return Success(note);
    }

    /** The `Title` setter: a null or empty value is refused and the title kept. */
    method SetTitle(value: Option<string>) returns (r: Outcome<Error>)
      modifies this
      ensures r == CheckStringParam(value, VersionNoteTitleEmpty, "value")
      ensures title == (if r.Pass? then value.value else old(title))
      ensures content == old(content)
      ensures old(Valid()) ==> Valid()
    {
      r := CheckStringParam(value, VersionNoteTitleEmpty, "value");
      if r.Pass? {
        title := value.value;
      }
    }

    /** The `Content` setter: a null or empty value is refused and the content kept. */
    method SetContent(value: Option<string>) returns (r: Outcome<Error>)
      modifies this
      ensures r == CheckStringParam(value, VersionNoteContentEmpty, "value")
      ensures content == (if r.Pass? then value.value else old(content))
      ensures title == old(title)
      ensures old(Valid()) ==> Valid()
    {
      r := CheckStringParam(value, VersionNoteContentEmpty, "value");
      if r.Pass? {
        content := value.value;
      }
    }

    /** `FromXElement`: a new note read from the element, or the error `Decode` gives. */
    static method FromXElement(element: Option<Element>) returns (r: Result<VersionNote, Error>)
      ensures r.Failure? <==> Decode(element).Failure?
      ensures r.Failure? ==> r.error == Decode(element).error
      ensures r.Success? ==> fresh(r.value) && r.value.Valid() && r.value.Fields() == Decode(element).value
    {
      var check := CheckParameter(element, "element");
      if check.Fail? {
        return Failure(check.error);
      }
      var title := Child(element.value, "Title");
      var content := Child(element.value, "Content");
      if title.None? {
        return Failure(Argument(VersionNoteTitleMissing, None));
      }
      if content.None? {
        return Failure(Argument(VersionNoteContentMissing, None));
      }
      r := Create(Some(Value(title.value)), Some(Value(content.value)));
    }
  }
}
