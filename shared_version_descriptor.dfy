/** The descriptor of src/src/VersionChecker/ApplicationVersion.cs: the same
    properties as the list-copying descriptor, but notes and urls are the
    caller's own collection objects. Its XML form is written by an external
    serializer and is not part of this model. */
module SharedVersionDescriptor {
  import opened Wrappers
  import opened Utilities
  import opened Identifiers
  import opened Dates
  import opened Lists
  import Notes
  import Urls

  class ApplicationVersion {
    var id: string
    var shortDescription: Option<string>
    var longDescription: Option<string>
    var date: DateTime
    var notes: ItemList?<Notes.VersionNote>
    var urls: ItemList?<Urls.VersionUrl>
    var copyright: Option<string>

    constructor Init(id: string, shortDescription: Option<string>, longDescription: Option<string>, date: DateTime,
                     notes: ItemList?<Notes.VersionNote>, urls: ItemList?<Urls.VersionUrl>, copyright: Option<string>)
      ensures this.id == id && this.shortDescription == shortDescription && this.longDescription == longDescription
      ensures this.date == date && this.notes == notes && this.urls == urls && this.copyright == copyright
    {
      this.id := id;
      this.shortDescription := shortDescription;
      this.longDescription := longDescription;
      this.date := date;
      this.notes := notes;
      this.urls := urls;
      this.copyright := copyright;
    }

    /** The seven-argument constructor: the raw id is checked, then stored
        normalised; everything else, the collections included, is stored as given. */
    static method Create(id: Option<string>, shortDescription: Option<string>, longDescription: Option<string>,
                         date: DateTime, notes: ItemList?<Notes.VersionNote>, urls: ItemList?<Urls.VersionUrl>,
                         copyright: Option<string>) returns (r: Result<ApplicationVersion, Error>)
      ensures r.Failure? <==> CheckStringParam(id, VersionIdEmpty, "id").Fail?
      ensures r.Failure? ==> r.error == CheckStringParam(id, VersionIdEmpty, "id").error
      ensures r.Success? ==> fresh(r.value) && r.value.id == StandardizedString(id.value)
      ensures r.Success? ==> r.value.shortDescription == shortDescription && r.value.longDescription == longDescription &&
                             r.value.date == date && r.value.copyright == copyright
      ensures r.Success? ==> r.value.notes == notes && r.value.urls == urls
    {
      var check := CheckStringParam(id, VersionIdEmpty, "id");
      if check.Fail? {
        return Failure(check.error);
      }
      var version := new ApplicationVersion.Init(StandardizedString(id.value), shortDescription, longDescription,
                                                 date, notes, urls, copyright);
      return Success(version);
    }

    /** The one-argument constructor: null strings and collections, date `MinValue`. */
    static method CreateWithId(id: Option<string>) returns (r: Result<ApplicationVersion, Error>)
      ensures r.Failure? <==> CheckStringParam(id, VersionIdEmpty, "id").Fail?
      ensures r.Failure? ==> r.error == CheckStringParam(id, VersionIdEmpty, "id").error
      ensures r.Success? ==> fresh(r.value) && r.value.id == StandardizedString(id.value) && r.value.date == MinValue
      ensures r.Success? ==> r.value.shortDescription.None? && r.value.longDescription.None? && r.value.copyright.None?
      ensures r.Success? ==> r.value.notes == null && r.value.urls == null
    {
      r := Create(id, None, None, MinValue, null, null, None);
    }

    /** `Equals`: false for null, otherwise ordinal equality of the ids. */
    predicate Equals(other: ApplicationVersion?)
      reads this, other
    {
      other != null && id == other.id
    }
  }

  /** Equality looks at the id alone, and is an equivalence on descriptors. */
  lemma EqualsById(a: ApplicationVersion, b: ApplicationVersion, c: ApplicationVersion)
    ensures !a.Equals(null)
    ensures a.Equals(a)
    ensures a.Equals(b) <==> b.Equals(a)
    ensures a.Equals(b) && b.Equals(c) ==> a.Equals(c)
    ensures a.Equals(b) <==> a.id == b.id
  {
  }

  /** A caller that adds a note to its own collection after constructing a
      descriptor from it: the descriptor sees the new note. */
  method AddAfterCreate(list: ItemList<Notes.VersionNote>, extra: Notes.VersionNote) returns (v: ApplicationVersion)
    modifies list
    ensures list.items == old(list.items) + [extra]
    ensures v.notes == list && v.notes.items == old(list.items) + [extra]
  {
    var r := ApplicationVersion.Create(Some("1.0"), None, None, MinValue, list, null, None);
    v := r.value;
    list.Add(extra);
  }
}
