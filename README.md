# VersionChecker in Dafny

This is a model of the core of the VersionChecker library. The library describes a released application version and reads it back:

- **Descriptor.** An `ApplicationVersion` holds an id, a date, release notes and reference urls.
- **XML form.** The descriptor is written as a `Version` document and read back from one.
- **Checkers.** An `ApplicationVersionChecker` fetches the latest descriptor from a location and compares its id with the id of the running version.

The repository holds three generations of the library, and each is modelled in the form its code takes.

- **`VersionChecker/src/VersionChecker`: the hand-written element codec.**
  - Utilities guards: `utilities.dfy`. The identical copy in `src/src/VersionChecker/Utilities.cs` is covered by the same module.
  - Notes and urls: `notes.dfy` and `urls.dfy`. Each has a value type with an element codec, and a class with validating constructor and setters and `FromXElement`.
  - The generic wrapper-collection codec: `custom_collection.dfy`.
  - The two collection classes: `notes_collection.dfy` and `urls_collection.dfy`. Their decoding constructor is a loop that calls `Add`, and so is `ToXElement`.
  - The descriptor: `version_descriptor.dfy`. This covers id normalisation (`identifiers.dfy`), the date text (`dates.dfy`), `ToXDocument` with `SerializeCollection`, `FromXml` and `Equals`.
- **`src/VersionChecker` and `src/src/VersionChecker`: two later descriptors.**
  - `list_version_descriptor.dfy` copies the caller's lists into new ones.
  - `shared_version_descriptor.dfy` keeps the caller's collections.
  - `src/VersionChecker/VersionUrl.cs` adds url equality and a hash. These are in `urls.dfy`.
  - The validating note and url classes of `VersionChecker/tests/VersionChecker` are the classes in `notes.dfy` and `urls.dfy`.
- **The two checkers.**
  - `latest_version_checker.dfy` (`src/src`) fetches on every `IsUpToDate`.
  - `caching_version_checker.dfy` (`VersionChecker/tests`) fetches once and then answers from the cached result.
  - Both receive the download and `ApplicationVersion.FromXml` as parameters.

**How the model represents .NET concepts.**

- **XML.** A tree of `Element(name, text, children)` (`xml.dfy`). A document is its root element.
  - `Element(name)` is the first child with that name.
  - `Elements(name)` is the children with that name, in order.
  - `Value` is the text of the element followed by that of its descendants.
- **Null and exceptions.** A null reference is `None`. An exception is the `Failure`/`Fail` side of a result, carrying an `Error` with the parameter name.
- **Classes.** A class whose properties are updated in place is a Dafny `class`. Its validating constructor is a static `Create` method that returns the new object or the error. Each method is proved against the pure function that specifies it.

The code differs from two expectations a reader of the tests might have. The model follows the code:

- **Empty collections are omitted on encode.** An empty collection is never written, exactly like a null one (`VersionChecker/src/VersionChecker/ApplicationVersion.cs:60`, `VersionDescriptor.EncodeLayout`, `VersionDescriptor.EncodeNormalized`).
- **Absent wrappers decode to empty, not null.** A document without a `Notes` or `Urls` wrapper reads back with empty collections (`VersionChecker/src/VersionChecker/ApplicationVersion.cs:88-89`, `VersionDescriptor.MinimalDocument`). So the round trip holds only up to null-versus-empty (`VersionDescriptor.DecodeEncode`).

The id is checked before it is normalised. An id made only of spaces is therefore accepted and stored as "", and the document written for it is refused when read back (`VersionDescriptor.BlankIdRoundTripFails`).

## Model

| member | source | states |
|---|---|---|
| Utilities.CheckParameter | VersionChecker/src/VersionChecker/Utilities.cs:24-27 | Fails with ArgumentNull naming the parameter exactly when the argument is null (the same in src/src/VersionChecker/Utilities.cs) |
| Utilities.CheckStringParam | VersionChecker/src/VersionChecker/Utilities.cs:29-33 | Passes exactly on non-null non-empty strings; null gives ArgumentNull before the length is looked at, "" gives Argument with the description and the parameter name |
| Identifiers.StandardizedString | VersionChecker/src/VersionChecker/ApplicationVersion.cs:29-33 | The normalised id equals the reference filter that drops CR, LF and space and keeps every other character in order; it holds none of them and is no longer than the input |
| Identifiers.StandardizedIsKeepOthers | VersionChecker/src/VersionChecker/ApplicationVersion.cs:31 | Removing `\r\n?` and `\n` matches left to right, then spaces, is the same as dropping every CR, LF and space |
| Identifiers.KeepOthersClean | VersionChecker/src/VersionChecker/ApplicationVersion.cs:31 | The filtered string holds no CR, LF or space and is no longer than its input |
| Identifiers.KeepOthersIdentity | VersionChecker/src/VersionChecker/ApplicationVersion.cs:31 | A string without CR, LF and space is unchanged |
| Identifiers.StandardizedIdentity | VersionChecker/src/VersionChecker/ApplicationVersion.cs:29-33 | Normalisation leaves a string unchanged if and only if it has no CR, LF or space |
| Identifiers.StandardizedIdempotent | VersionChecker/src/VersionChecker/ApplicationVersion.cs:29-33 | Normalising twice is normalising once |
| Identifiers.KeepOthersAppend | VersionChecker/src/VersionChecker/ApplicationVersion.cs:31 | Normalising a concatenation normalises each part |
| Identifiers.StandardizedExampleSpaces | VersionChecker/src/VersionChecker/ApplicationVersion.cs:29-33 | " 1. 2" normalises to "1.2" |
| Identifiers.StandardizedExampleLineFeed | VersionChecker/src/VersionChecker/ApplicationVersion.cs:31 | A line feed inside an id is removed: "1\n.2" normalises to "1.2" |
| Identifiers.StandardizedExampleCarriageReturn | VersionChecker/src/VersionChecker/ApplicationVersion.cs:31 | A CR LF pair and a lone CR are removed, a tab is kept |
| Dates.NatToString | VersionChecker/src/VersionChecker/ApplicationVersion.cs:46 | Decimal text without padding: non-empty, digits only, whose value read left to right (`DecimalValue`) is the number; one digit exactly below ten, no leading zero except for 0 |
| Dates.NatToStringInjective | VersionChecker/src/VersionChecker/ApplicationVersion.cs:46 | Different numbers have different texts |
| Dates.FormatDate | VersionChecker/src/VersionChecker/ApplicationVersion.cs:46 | Read back by an independent reader as digit runs and the characters between them, the text gives day, month, year, hour, minute and second in that order, separated by `/`, `/`, a space, `:` and `:`; each run is exactly `NatToString` of its field, so no field has a leading zero |
| Dates.FormatDateExample | VersionChecker/VersionCheckerTests/VersionTests.cs:132-142 | 9 December 2009 9:45:30 is written "9/12/2009 9:45:30" |
| Dates.FormatDateInjective | VersionChecker/src/VersionChecker/ApplicationVersion.cs:46 | Dates with the same text agree on everything but the sub-second part |
| Xml.Value | VersionChecker/src/VersionChecker/VersionNote.cs:35-36 | `Value` starts with the element's own text, and is exactly that text for an element without children |
| Xml.ValueAdd | VersionChecker/src/VersionChecker/VersionNote.cs:25-26 | Adding a child appends the child's value to the element's value |
| Xml.FirstNamed | VersionChecker/src/VersionChecker/VersionNote.cs:35-36 | `Element(name)` is null exactly when no child has the name, and otherwise is a child with that name |
| Xml.Named | VersionChecker/src/VersionChecker/VersionCustomCollection.cs:22 | `Elements(name)` keeps only children with that name, and keeps all of them when all carry it |
| Xml.Add | VersionChecker/src/VersionChecker/VersionNote.cs:25-26 | `Add` appends the child after the existing ones and changes nothing else |
| Xml.FirstNamedAppend | VersionChecker/src/VersionChecker/VersionNote.cs:35-36 | Looking up in two runs of children: a match in the first run wins |
| Xml.NamedAppend | VersionChecker/src/VersionChecker/VersionCustomCollection.cs:22 | Filtering by name distributes over concatenation |
| Xml.NamedSkipsOthers | VersionChecker/src/VersionChecker/VersionCustomCollection.cs:22 | Elements of other names anywhere among the children do not change `Elements(name)` |
| Xml.FirstNamedSkipsOthers | VersionChecker/src/VersionChecker/VersionNote.cs:35-36 | Elements of other names anywhere among the children do not change `Element(name)` |
| Xml.FirstNamedOfParts | VersionChecker/src/VersionChecker/ApplicationVersion.cs:72-86 | The only element with a name, among elements of other names, is what `Element(name)` finds, and none means null |
| Notes.CheckArguments | VersionChecker/src/VersionChecker/VersionNote.cs:12-15 | Passes exactly when title and content are both non-null and non-empty; the title is checked first, each error names "title" or "content" |
| Notes.Encode | VersionChecker/src/VersionChecker/VersionNote.cs:21-29 | A text-less `Note` element whose children are a `Title` leaf with the title, then a `Content` leaf with the content, in that order; its `Title` lookup gives the title and whose `Content` lookup gives the content |
| Notes.Decode | VersionChecker/src/VersionChecker/VersionNote.cs:31-42 | Succeeds exactly when the element is there with a `Title` and a `Content` child whose values are non-empty, and then gives the note of those two values; a decoded note is always valid |
| Notes.DecodeEncode | VersionChecker/src/VersionChecker/VersionNote.cs:21-42 | Round trip: reading the element written for a valid note gives the same note |
| Notes.DecodeErrors | VersionChecker/src/VersionChecker/VersionNote.cs:33-41 | Null element gives ArgumentNull("element"); a missing `Title` fails before a missing `Content`; empty title or content text gives the constructor's errors |
| Notes.DecodeIgnoresOtherChildren | VersionChecker/src/VersionChecker/VersionNote.cs:35-36 | The element's name and text and children other than `Title` and `Content` do not change the result |
| Notes.VersionNote.Create | VersionChecker/src/VersionChecker/VersionNote.cs:12-19 | Fails exactly as the checks do, with the same error; otherwise a new valid note holding exactly the arguments (same in VersionChecker/tests/VersionChecker/VersionNote.cs:12-19) |
| Notes.VersionNote.SetTitle | VersionChecker/src/VersionChecker/VersionNote.cs:44-54 | Null or empty is refused, naming "value", and the title kept; otherwise the title is replaced; the content is untouched and validity is preserved |
| Notes.VersionNote.SetContent | VersionChecker/src/VersionChecker/VersionNote.cs:56-65 | Null or empty is refused and the content kept; otherwise replaced; the title is untouched and validity is preserved |
| Notes.VersionNote.FromXElement | VersionChecker/src/VersionChecker/VersionNote.cs:31-42 | Fails exactly when `Notes.Decode` does, with its error; otherwise a new valid note holding the decoded value |
| Urls.CheckArguments | VersionChecker/src/VersionChecker/VersionUrl.cs:12-15 | Passes exactly when title and url are both non-null and non-empty; the title is checked first, each error names "title" or "url" |
| Urls.Encode | VersionChecker/src/VersionChecker/VersionUrl.cs:21-29 | A text-less `Url` element whose children are a `Title` leaf with the title, then a `Url` leaf with the url, in that order; its `Title` lookup gives the title and whose `Url` lookup gives the url |
| Urls.Decode | VersionChecker/src/VersionChecker/VersionUrl.cs:31-42 | Succeeds exactly when the element is there with a `Title` and a `Url` child whose values are non-empty, and then gives the url of those two values; a decoded url is always valid |
| Urls.DecodeEncode | VersionChecker/src/VersionChecker/VersionUrl.cs:21-42 | Round trip: reading the element written for a valid url gives the same url |
| Urls.DecodeErrors | VersionChecker/src/VersionChecker/VersionUrl.cs:33-41 | Null element gives ArgumentNull("element"); a missing `Title` fails before a missing `Url`; empty texts give the constructor's errors |
| Urls.DecodeIgnoresOtherChildren | VersionChecker/src/VersionChecker/VersionUrl.cs:35-36 | The element's name and text and children other than `Title` and `Url` do not change the result |
| Urls.VersionUrl.Create | VersionChecker/src/VersionChecker/VersionUrl.cs:12-19 | Fails exactly as the checks do, with the same error; otherwise a new valid url holding exactly the arguments (same in src/VersionChecker/VersionUrl.cs:13-20 and VersionChecker/tests/VersionChecker/VersionUrl.cs:12-19) |
| Urls.VersionUrl.SetTitle | VersionChecker/src/VersionChecker/VersionUrl.cs:44-54 | Null or empty is refused and the title kept; otherwise replaced; the url is untouched and validity is preserved |
| Urls.VersionUrl.SetUrl | VersionChecker/src/VersionChecker/VersionUrl.cs:56-65 | Null or empty is refused and the url kept; otherwise replaced; the title is untouched and validity is preserved |
| Urls.VersionUrl.FromXElement | VersionChecker/src/VersionChecker/VersionUrl.cs:31-42 | Fails exactly when `Urls.Decode` does, with its error; otherwise a new valid url holding the decoded value |
| Urls.EqualsIsValueEquality | src/VersionChecker/VersionUrl.cs:50-55 | Typed equality is false for null and otherwise holds exactly when title and url are equal; it is symmetric |
| Urls.EqualsObjectAgrees | src/VersionChecker/VersionUrl.cs:45-48 | Untyped equality agrees with typed equality on urls and is false on every other object |
| Urls.EqualUrlsHashAlike | src/VersionChecker/VersionUrl.cs:57-60 | Equal urls have equal hashes, for any string hash |
| Urls.HashIsSymmetricInFields | src/VersionChecker/VersionUrl.cs:57-60 | The hash is the XOR of the two field hashes in either order |
| CustomCollection.DecodeAllMeaning | VersionChecker/src/VersionChecker/VersionCustomCollection.cs:25-32 | Decoding the items succeeds exactly when every item decodes, with one value per element in document order; otherwise the error is that of the first failing element, all before it having decoded |
| CustomCollection.EncodeAll | VersionChecker/src/VersionChecker/VersionCustomCollection.cs:39-42 | One encoded element per item, in collection order |
| CustomCollection.Encode | VersionChecker/src/VersionChecker/VersionCustomCollection.cs:35-45 | A text-less wrapper named by the identifier whose children are the encoded items in order |
| CustomCollection.Decode | VersionChecker/src/VersionChecker/VersionCustomCollection.cs:12-33 | Null parent gives ArgumentNull("parent"); no wrapper gives an empty collection; a non-empty result has one item per matching child of the wrapper |
| CustomCollection.DecodeAllEncodeAll | VersionChecker/src/VersionChecker/VersionCustomCollection.cs:25-42 | Decoding encoded items gives the items back when the item codec round-trips |
| CustomCollection.EncodeDecode | VersionChecker/src/VersionChecker/VersionCustomCollection.cs:12-45 | A parent whose first wrapper is the encoding of a list decodes to that list |
| CustomCollection.FirstWrapperOnly | VersionChecker/src/VersionChecker/VersionCustomCollection.cs:16-22 | Only the first wrapper is read; what follows it is ignored |
| CustomCollection.OtherChildrenIgnored | VersionChecker/src/VersionChecker/VersionCustomCollection.cs:22 | Children of the wrapper with another name are skipped wherever they are |
| CustomCollection.FirstFailureDecides | VersionChecker/src/VersionChecker/VersionCustomCollection.cs:25-32 | A failing item after a decoded prefix is the error of the whole decoding: no partial collection |
| CustomCollection.NextItemDecoded | VersionChecker/src/VersionChecker/VersionCustomCollection.cs:25-32 | A decoded item extends the decoded prefix by its value |
| CustomCollection.AllDecoded | VersionChecker/src/VersionChecker/VersionCustomCollection.cs:25-32 | When every element decodes to the matching value, the decoding is exactly those values in order |
| NotesCollection.Decode | VersionChecker/src/VersionChecker/VersionNotesCollection.cs:11-13 | Every decoded note is valid |
| NotesCollection.Encode | VersionChecker/src/VersionChecker/VersionCustomCollection.cs:35-45 | A text-less `Notes` wrapper holding, in order, the `Note` element of each note and nothing else |
| NotesCollection.DecodeEncode | VersionChecker/src/VersionChecker/VersionNotesCollection.cs:11-15 | A first `Notes` wrapper written for valid notes reads back as the same notes in order |
| NotesCollection.EncodeShape | VersionChecker/src/VersionChecker/VersionNotesCollection.cs:15 | The wrapper is a text-less `Notes` element with one `Note` child per note |
| NotesCollection.VersionNotesCollection.Empty | VersionChecker/src/VersionChecker/VersionNotesCollection.cs:8 | The parameterless constructor gives an empty, valid collection |
| NotesCollection.VersionNotesCollection.FromList | VersionChecker/src/VersionChecker/VersionNotesCollection.cs:9 | The list constructor holds exactly the given notes in order |
| NotesCollection.VersionNotesCollection.Add | VersionChecker/src/VersionChecker/VersionCustomCollection.cs:30 | The note is appended, its value appended to the values, and validity kept for a valid note |
| NotesCollection.VersionNotesCollection.FromParent | VersionChecker/src/VersionChecker/VersionCustomCollection.cs:12-33 | Fails exactly when `NotesCollection.Decode` does, with its error (ArgumentNull("parent") for null); no `Notes` wrapper gives a new empty collection; otherwise a new valid collection whose values are the decoded notes |
| NotesCollection.VersionNotesCollection.DecodeElements | VersionChecker/src/VersionChecker/VersionCustomCollection.cs:25-32 | The loop that decodes and adds element by element fails exactly when decoding the items does, with the first error; otherwise its new valid collection holds the decoded values in document order |
| NotesCollection.VersionNotesCollection.ToXElement | VersionChecker/src/VersionChecker/VersionCustomCollection.cs:35-45 | The appending loop builds exactly the wrapper for the collection's values |
| UrlsCollection.Decode | VersionChecker/src/VersionChecker/VersionUrlCollection.cs:11-13 | Every decoded url is valid |
| UrlsCollection.Encode | VersionChecker/src/VersionChecker/VersionCustomCollection.cs:35-45 | A text-less `Urls` wrapper holding, in order, the `Url` element of each url and nothing else |
| UrlsCollection.DecodeEncode | VersionChecker/src/VersionChecker/VersionUrlCollection.cs:11-15 | A first `Urls` wrapper written for valid urls reads back as the same urls in order |
| UrlsCollection.EncodeShape | VersionChecker/src/VersionChecker/VersionUrlCollection.cs:15 | The wrapper is a text-less `Urls` element with one `Url` child per url |
| UrlsCollection.VersionUrlCollection.Empty | VersionChecker/src/VersionChecker/VersionUrlCollection.cs:8 | The parameterless constructor gives an empty, valid collection |
| UrlsCollection.VersionUrlCollection.FromList | VersionChecker/src/VersionChecker/VersionUrlCollection.cs:9 | The list constructor holds exactly the given urls in order |
| UrlsCollection.VersionUrlCollection.Add | VersionChecker/src/VersionChecker/VersionCustomCollection.cs:30 | The url is appended, its value appended to the values, and validity kept for a valid url |
| UrlsCollection.VersionUrlCollection.FromParent | VersionChecker/src/VersionChecker/VersionCustomCollection.cs:12-33 | Fails exactly when `UrlsCollection.Decode` does, with its error (ArgumentNull("parent") for null); no `Urls` wrapper gives a new empty collection; otherwise a new valid collection whose values are the decoded urls |
| UrlsCollection.VersionUrlCollection.DecodeElements | VersionChecker/src/VersionChecker/VersionCustomCollection.cs:25-32 | The loop that decodes and adds element by element fails exactly when decoding the items does, with the first error; otherwise its new valid collection holds the decoded values in document order |
| UrlsCollection.VersionUrlCollection.ToXElement | VersionChecker/src/VersionChecker/VersionCustomCollection.cs:35-45 | The appending loop builds exactly the wrapper for the collection's values |
| VersionDescriptor.Encode | VersionChecker/src/VersionChecker/ApplicationVersion.cs:35-54 | The document root is a text-less `Version` element |
| VersionDescriptor.WithDate | VersionChecker/src/VersionChecker/ApplicationVersion.cs:44-48 | The container keeps its name and text and gains a `Date` child holding `FormatDate` of the date at the end, unless the date is MinValue, when it is unchanged |
| VersionDescriptor.WithNotes | VersionChecker/src/VersionChecker/ApplicationVersion.cs:50-64 | The container keeps its name and text and gains the `Notes` wrapper at the end only for a non-null, non-empty collection |
| VersionDescriptor.WithUrls | VersionChecker/src/VersionChecker/ApplicationVersion.cs:51-64 | The container keeps its name and text and gains the `Urls` wrapper at the end only for a non-null, non-empty collection |
| VersionDescriptor.EncodeLayout | VersionChecker/src/VersionChecker/ApplicationVersion.cs:39-64 | Children in fixed order: `Id`, then `Date` only if the date is not MinValue, then `Notes` and `Urls` only when non-null and non-empty |
| VersionDescriptor.EncodeLookups | VersionChecker/src/VersionChecker/ApplicationVersion.cs:39-64 | In a written document, `Id` is the id, `Date` is there exactly for a date other than MinValue, and each wrapper exactly for a non-empty collection |
| VersionDescriptor.Decode | VersionChecker/src/VersionChecker/ApplicationVersion.cs:72-91 | No descriptor exactly when there is no `Version` root or no `Id`. Otherwise, in order: a `Date` text the parser refuses gives DateFormat; a notes or urls failure is passed through; an empty `Id` text gives Argument naming "id"; else the descriptor holds the normalised `Id` text, the parsed date (MinValue without `Date`) and the decoded notes and urls, never null, all valid |
| VersionDescriptor.FromXmlSpec | VersionChecker/src/VersionChecker/ApplicationVersion.cs:66-92 | Null text gives ArgumentNull("xml"), "" gives Argument with "xml", text the parser refuses gives MalformedXml; any other text gives what `Decode` makes of the parsed document |
| VersionDescriptor.DecodeEncode | VersionChecker/src/VersionChecker/ApplicationVersion.cs:35-91 | Round trip for a normalised non-empty id, valid items and a date the parser reads back: the same descriptor with null collections made empty |
| VersionDescriptor.EncodeNormalized | VersionChecker/src/VersionChecker/ApplicationVersion.cs:58-64 | Writing cannot tell a null collection from an empty one |
| VersionDescriptor.EncodeDecodeEncode | VersionChecker/src/VersionChecker/ApplicationVersion.cs:35-91 | Writing what was read from a written document gives the same document |
| VersionDescriptor.MinimalDocument | VersionChecker/src/VersionChecker/ApplicationVersion.cs:72-91 | A document with only `Id` reads back with date MinValue and empty, not null, notes and urls |
| VersionDescriptor.BlankIdRoundTripFails | VersionChecker/src/VersionChecker/ApplicationVersion.cs:15-17 | An id of one space passes the check and is stored as ""; the document written for it is refused with Argument(id) |
| VersionDescriptor.SubSecondsDropped | VersionChecker/src/VersionChecker/ApplicationVersion.cs:44-47 | The sub-second part of a date is not written |
| VersionDescriptor.EncodeDistinguishesDates | VersionChecker/src/VersionChecker/ApplicationVersion.cs:44-47 | Dates written alike agree on everything but the sub-second part |
| VersionDescriptor.ApplicationVersion.Create | VersionChecker/src/VersionChecker/ApplicationVersion.cs:13-21 | The raw id is checked (null, then empty, naming "id"); a new descriptor stores the normalised id, the date and the caller's own collection objects |
| VersionDescriptor.ApplicationVersion.CreateWithId | VersionChecker/src/VersionChecker/ApplicationVersion.cs:9-11 | Same check; the new descriptor holds the normalised id, date MinValue and null collections |
| VersionDescriptor.ApplicationVersion.SerializeNotes | VersionChecker/src/VersionChecker/ApplicationVersion.cs:58-64 | Appends the notes wrapper only for a non-null, non-empty collection |
| VersionDescriptor.ApplicationVersion.SerializeUrls | VersionChecker/src/VersionChecker/ApplicationVersion.cs:58-64 | Appends the urls wrapper only for a non-null, non-empty collection |
| VersionDescriptor.ApplicationVersion.ToXDocument | VersionChecker/src/VersionChecker/ApplicationVersion.cs:35-54 | The document built step by step is `VersionDescriptor.Encode` of the descriptor the object holds |
| VersionDescriptor.ApplicationVersion.FromXml | VersionChecker/src/VersionChecker/ApplicationVersion.cs:66-92 | Fails exactly when `FromXmlSpec` does, with its error; null exactly when it gives no descriptor; otherwise a new descriptor with new collections holding its value |
| VersionDescriptor.EqualsById | VersionChecker/src/VersionChecker/ApplicationVersion.cs:94-102 | Equality is false for null and is an equivalence; two descriptors are equal exactly when their ids are, whatever the date and collections |
| Lists.ItemList.Copy | src/VersionChecker/ApplicationVersion.cs:31 | A new list holds the same elements in the same order |
| Lists.ItemList.Add | src/VersionChecker/ApplicationVersion.cs:48-49 | `Add` on a `List<T>` property appends the element after the existing ones |
| ListVersionDescriptor.ApplicationVersion.Create | src/VersionChecker/ApplicationVersion.cs:18-39 | Raw id checked, then stored normalised; descriptions, date and copyright stored as given; non-null notes and urls copied into new lists with the same elements, null kept null |
| ListVersionDescriptor.ApplicationVersion.CreateWithId | src/VersionChecker/ApplicationVersion.cs:14-16 | Normalised id, null descriptions, copyright and collections, date MinValue |
| ListVersionDescriptor.EqualsById | src/VersionChecker/ApplicationVersion.cs:63-71 | Equality is false for null, is an equivalence, and holds exactly when the ids are equal |
| ListVersionDescriptor.AddAfterCreate | src/VersionChecker/ApplicationVersion.cs:29-36 | A note the caller adds to its list afterwards does not reach the descriptor |
| SharedVersionDescriptor.ApplicationVersion.Create | src/src/VersionChecker/ApplicationVersion.cs:19-34 | Raw id checked, then stored normalised; everything else, the collection objects included, stored as given |
| SharedVersionDescriptor.ApplicationVersion.CreateWithId | src/src/VersionChecker/ApplicationVersion.cs:15-17 | Normalised id, null descriptions, copyright and collections, date MinValue |
| SharedVersionDescriptor.EqualsById | src/src/VersionChecker/ApplicationVersion.cs:58-66 | Equality is false for null, is an equivalence, and holds exactly when the ids are equal |
| SharedVersionDescriptor.AddAfterCreate | src/src/VersionChecker/ApplicationVersion.cs:30-31 | A note the caller adds to its collection afterwards is seen by the descriptor |
| LatestVersionChecker.Request | src/src/VersionChecker/ApplicationVersionChecker.cs:48-57 | Null id gives ArgumentNull("versionId"), empty id gives Argument naming "versionId"; a failed download of `<id>.xml` under the location is passed through |
| LatestVersionChecker.RequestChecksBeforeFetch | src/src/VersionChecker/ApplicationVersionChecker.cs:48-57 | A null or empty id fails the same whatever the remote answers; otherwise the result is what `FromXml` makes of the downloaded `<id>.xml` |
| LatestVersionChecker.ApplicationVersionChecker.Create | src/src/VersionChecker/ApplicationVersionChecker.cs:10-19 | Location null, then empty, then current version null are refused in that order; otherwise a checker with both stored and the default name |
| LatestVersionChecker.ApplicationVersionChecker.SetLatestVersionName | src/src/VersionChecker/ApplicationVersionChecker.cs:26-36 | Null or empty is refused and the name kept; otherwise replaced |
| LatestVersionChecker.ApplicationVersionChecker.ResetLatestVersionName | src/src/VersionChecker/ApplicationVersionChecker.cs:38-41 | The name is "latestversion" again |
| LatestVersionChecker.ApplicationVersionChecker.GetVersion | src/src/VersionChecker/ApplicationVersionChecker.cs:48-57 | The answer is the request for that id under the checker's location |
| LatestVersionChecker.ApplicationVersionChecker.GetLatestVersion | src/src/VersionChecker/ApplicationVersionChecker.cs:43-46 | The request for the current latest-version name, which is never refused as null or empty |
| LatestVersionChecker.ApplicationVersionChecker.IsUpToDate | src/src/VersionChecker/ApplicationVersionChecker.cs:59-63 | Fetches every time and stores the answer; a null answer fails with NullReference; otherwise the result is equality of the ids |
| CachingVersionChecker.Request | VersionChecker/tests/VersionChecker/ApplicationVersionChecker.cs:50-59 | Null id gives ArgumentNull("versionId"), empty id gives Argument naming "versionId"; a failed download of `<id>.xml` under the location is passed through |
| CachingVersionChecker.RequestChecksBeforeFetch | VersionChecker/tests/VersionChecker/ApplicationVersionChecker.cs:50-59 | A null or empty id fails the same whatever the remote answers; otherwise the result is what `FromXml` makes of the downloaded `<id>.xml` |
| CachingVersionChecker.ApplicationVersionChecker.Create | VersionChecker/tests/VersionChecker/ApplicationVersionChecker.cs:10-19 | Location null, then empty, then current version null are refused in that order; otherwise a checker with the default name and no update yet |
| CachingVersionChecker.ApplicationVersionChecker.SetCurrentVersionName | VersionChecker/tests/VersionChecker/ApplicationVersionChecker.cs:26-36 | Null or empty is refused and the name kept; otherwise replaced; nothing else changes |
| CachingVersionChecker.ApplicationVersionChecker.ResetCurrentVersionName | VersionChecker/tests/VersionChecker/ApplicationVersionChecker.cs:38-41 | The name is "currentversion" again |
| CachingVersionChecker.ApplicationVersionChecker.GetVersion | VersionChecker/tests/VersionChecker/ApplicationVersionChecker.cs:50-59 | The answer is the request for that id under the checker's location |
| CachingVersionChecker.ApplicationVersionChecker.UpdateLatestVersion | VersionChecker/tests/VersionChecker/ApplicationVersionChecker.cs:43-48 | Always requests "currentversion", whatever the name property holds; on failure nothing changes, otherwise the answer is stored and the update marked done |
| CachingVersionChecker.ApplicationVersionChecker.IsUpToDate | VersionChecker/tests/VersionChecker/ApplicationVersionChecker.cs:61-70 | An update that left no version gives InvalidOperation; before the first update it fetches, failing as the update does or with NullReference; afterwards it reuses the stored version; the answer is equality of the ids |
| CachingVersionChecker.NullLatestVersionSticks | VersionChecker/tests/VersionChecker/ApplicationVersionChecker.cs:61-70 | After a fetch that brought back no version, the next call fails with InvalidOperation whatever the remote would answer |

## Left out

- XML text is not parsed or printed. `XDocument.Parse` is a parameter (`parse`) that returns the root element or refuses the text, and `XDocument.ToString`/`ToXml` are not modelled. A document is its root element; attributes, comments and namespaces are not represented.
- `Convert.ToDateTime` is culture-dependent library parsing, so it is a parameter (`parseDate`). The round-trip lemmas assume it reads back the text `FormatDate` writes.
- The Xml.Net serializer behind `ToXml`/`FromXml` of the two later descriptors is not part of this model. So is its attribute on `src/VersionChecker/VersionUrl.cs`. The latest-version checker receives its `FromXml` as a parameter.
- The download is a parameter (`fetch(location, file)`). This covers `HttpClient.GetStringAsync`, `Path.Combine` and async/`Task.Run`. Every call is given its own remote, so answers may change between calls; concurrency is not modelled.
- `string.GetHashCode` is a parameter of `GetHashCode`.
- The `SR` texts are the constructors of `Utilities.Message`, not strings.
- The parameterless constructors of notes, urls and descriptors leave fields null. The model has no objects with null fields, so they are not modelled.
- Properties set directly to null are not modelled, because fields are non-null strings. This covers `Id`, the collection-element setters, and a `Notes`/`Urls` property reassigned after construction.
- Collections:
  - `VersionCustomCollection(IList<T>)` wraps the caller's list without copying. `FromList` copies the sequence, so later changes to that list through the caller's reference are not modelled.
  - A null list argument, which .NET refuses, is not representable.
  - `if (obj != null)` in the decoding loop is always true, because `FromXElement` never returns null.
  - `elements == null` never happens, because `Elements` never returns null.
- `VersionChecker/tests/VersionChecker/ApplicationVersion.cs` is not part of this model. The caching checker built against it receives its `FromXml` as a parameter, as the latest-version checker does. The descriptor class of `VersionChecker/src/VersionChecker/ApplicationVersion.cs`, whose `Equals` also compares ids, stands for the objects it returns. Its tests expect behaviour that the element codec here does not have: `FromXml("")` raising an XML error, and null notes for a document without notes.
- Xml.Value: the element's own text comes before all its children's values. For mixed content, such as text after a child element, this is not document order. The codec writes no mixed content, but a document it reads may hold some.
- The `XmlConvertible` base class has no behaviour. Each item type's codec is a pair of functions passed to the generic collection codec.
- VersionDescriptor.DecodeEncode: stated only for dates the date parameter reads back, and only up to null-versus-empty collections, which is all the code allows.
