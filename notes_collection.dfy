/** `VersionNotesCollection` (VersionChecker/src/VersionChecker/VersionNotesCollection.cs):
    the shared wrapper codec instantiated with `Notes` around `Note` items. */
module NotesCollection {
  import opened Wrappers
  import opened Utilities
  import opened Xml
  import Notes
  import CustomCollection

  /** `XmlIdentifier`: the wrapper element name. */
  const XmlIdentifier := "Notes"

  /** `VersionNote.FromXElement` on an element that is there. */
  function DecodeNote(e: Element): Result<Notes.Note, Error> {
    Notes.Decode(Some(e))
  }

  /** The notes the element constructor reads from under `parent`. */
  function Decode(parent: Option<Element>): (r: Result<seq<Notes.Note>, Error>)
    ensures r.Success? ==> forall i :: 0 <= i < |r.value| ==> Notes.ValidNote(r.value[i])
  {
    var r := CustomCollection.Decode(parent, XmlIdentifier, Notes.XmlIdentifier, DecodeNote);
    if r.Success? && parent.Some? && Child(parent.value, XmlIdentifier).Some? then
      var es := Children(Child(parent.value, XmlIdentifier).value, Notes.XmlIdentifier);
      assert r == CustomCollection.DecodeAll(es, DecodeNote);
      CustomCollection.DecodeAllMeaning(es, DecodeNote);
      assert forall i :: 0 <= i < |r.value| ==> DecodeNote(es[i]) == Success(r.value[i]);
      r
    else r
  }

  /** The wrapper `ToXElement` builds. */
  function Encode(notes: seq<Notes.Note>): (r: Element)
    ensures r.name == XmlIdentifier && r.text == "" && |r.children| == |notes|
    ensures forall i :: 0 <= i < |notes| ==> r.children[i] == Notes.Encode(notes[i])
  {
    CustomCollection.Encode(XmlIdentifier, notes, Notes.Encode)
  }

  /** A `Notes` wrapper of valid notes, found first under its parent, reads
      back as the same notes in the same order. */
  lemma DecodeEncode(parent: Element, notes: seq<Notes.Note>)
    requires forall n :: n in notes ==> Notes.ValidNote(n)
    requires Child(parent, XmlIdentifier) == Some(Encode(notes))
    ensures Decode(Some(parent)) == Success(notes)
  {
    forall n | n in notes
      ensures Notes.Encode(n).name == Notes.XmlIdentifier && DecodeNote(Notes.Encode(n)) == Success(n)
    {
      Notes.DecodeEncode(n);
    }
    CustomCollection.EncodeDecode(parent, XmlIdentifier, Notes.XmlIdentifier, notes, Notes.Encode, DecodeNote);
  }

  /** The encoded shape: a text-less `Notes` element with one `Note` child per note. */
  lemma EncodeShape(notes: seq<Notes.Note>)
    ensures Encode(notes).name == "Notes" && Encode(notes).text == ""
    ensures |Encode(notes).children| == |notes|
    ensures forall i :: 0 <= i < |notes| ==> Encode(notes).children[i].name == "Note"
  {
  }

  /** The values held by a list of note objects. */
  function FieldsOf(notes: seq<Notes.VersionNote>): (r: seq<Notes.Note>)
    reads notes
    ensures |r| == |notes| && forall i :: 0 <= i < |notes| ==> r[i] == notes[i].Fields()
  {
    if notes == [] then [] else [notes[0].Fields()] + FieldsOf(notes[1..])
  }

  /** A `Collection<VersionNote>`: the notes it holds, in order. */
  class VersionNotesCollection {
    var items: seq<Notes.VersionNote>

    ghost predicate Valid()
      reads this, items
    {
      forall i :: 0 <= i < |items| ==> items[i].Valid()
    }

    function Values(): seq<Notes.Note>
      reads this, items
    {
      FieldsOf(items)
    }

    /** The parameterless constructor: an empty collection. */
    constructor Empty()
      ensures items == [] && Valid()
    {
      items := [];
    }

    /** The list constructor: exactly the given notes, in order. */
    constructor FromList(list: seq<Notes.VersionNote>)
      ensures items == list
    {
      items := list;
    }

    /** `Collection<T>.Add`: the note goes at the end. */
    method Add(item: Notes.VersionNote)
      modifies this
      ensures items == old(items) + [item]
      ensures Values() == old(Values()) + [item.Fields()]
      ensures old(Valid()) && item.Valid() ==> Valid()
    {
      items := items + [item];
    }

    /** The element constructor: every `Note` child of the first `Notes`
        wrapper, decoded into a new note, or the first error. */
    static method FromParent(parent: Option<Element>) returns (r: Result<VersionNotesCollection, Error>)
      ensures r.Failure? <==> Decode(parent).Failure?
      ensures r.Failure? ==> r.error == Decode(parent).error
      ensures r.Success? ==> fresh(r.value) && r.value.Valid() && r.value.Values() == Decode(parent).value
    {
      var check := CheckParameter(parent, "parent");
      if check.Fail? {
        return Failure(check.error);
      }
      var container := Child(parent.value, XmlIdentifier);
      if container.None? {
        var empty := new VersionNotesCollection.Empty();
        return Success(empty);
      }
      r := DecodeElements(Children(container.value, Notes.XmlIdentifier));
    }

    /** The `foreach` of the element constructor: each element decoded into a
        new note and added in turn; the first failure ends it. */
    static method DecodeElements(elements: seq<Element>) returns (r: Result<VersionNotesCollection, Error>)
      ensures r.Failure? <==> CustomCollection.DecodeAll(elements, DecodeNote).Failure?
      ensures r.Failure? ==> r.error == CustomCollection.DecodeAll(elements, DecodeNote).error
      ensures r.Success? ==>
                fresh(r.value) && r.value.Valid() && r.value.Values() == CustomCollection.DecodeAll(elements, DecodeNote).value
    {
      var c := new VersionNotesCollection.Empty();
      var i := 0;
      ghost var decoded: seq<Notes.Note> := [];
      while i < |elements|
        invariant 0 <= i <= |elements|
        invariant fresh(c) && c.Valid() && c.Values() == decoded
        invariant CustomCollection.DecodeAll(elements[..i], DecodeNote) == Success(decoded)
      {
        var obj := Notes.VersionNote.FromXElement(Some(elements[i]));
        ghost var item := DecodeNote(elements[i]);
        if obj.Failure? {
          assert item == Failure(obj.error);
          CustomCollection.FirstFailureDecides(elements, i, DecodeNote);
          return Failure(obj.error);
        }
        ghost var value := obj.value.Fields();
        assert item == Success(value);
        CustomCollection.NextItemDecoded(elements, i, DecodeNote);
        c.Add(obj.value);
        decoded := decoded + [value];
        i := i + 1;
      }
      assert elements[..i] == elements;
      return Success(c);
    }

    /** `ToXElement`: a `Notes` wrapper with each note's element appended in turn. */
    method ToXElement() returns (e: Element)
      ensures e == Encode(Values())
    {
      e := Element(XmlIdentifier, "", []);
      var i := 0;
      while i < |items|
        invariant 0 <= i <= |items|
        invariant e == Encode(Values()[..i])
      {
        assert Values()[..i + 1][..i] == Values()[..i];
        e := Xml.Add(e, Notes.Encode(items[i].Fields()));
        i := i + 1;
      }
      assert Values()[..i] == Values();
    }
  }
}
