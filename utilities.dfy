/** Argument guards shared by every constructor and setter of the library
    (VersionChecker/src/VersionChecker/Utilities.cs; the copy in
    src/src/VersionChecker/Utilities.cs has the same two guards). */
module Utilities {
  import opened Wrappers

  /** The message texts of the `SR` class and the inline literals, by name. */
  datatype Message =
    | VersionUrlMissing | VersionUrlTitleMissing
    | VersionUrlEmpty | VersionUrlTitleEmpty
    | VersionNoteTitleMissing | VersionNoteContentMissing
    | VersionNoteTitleEmpty | VersionNoteContentEmpty
    | CurrentVersionNameEmpty | LatestVersionNameEmpty
    | VersionIdEmpty           // "The version id cannot be empty"
    | XmlEmpty                 // "The xml to parse cannot be empty"
    | VersionLocationEmpty     // "The version location is empty"
    | RequestedVersionIdEmpty  // "Version Id cannot be empty"
    | LatestVersionUnavailable // "Version checker could not get the latest version"

  /** The exceptions the library throws or lets through. */
  datatype Error =
    | ArgumentNull(paramName: string)                        // ArgumentNullException
    | Argument(message: Message, param: Option<string>)      // ArgumentException
    | InvalidOperation(message: Message)                     // InvalidOperationException
    | NullReference                                          // a member access on null
    | MalformedXml                                           // XmlException from the parser
    | DateFormat                                             // FormatException from the date parser
    | Fetch(reason: string)                                  // HttpRequestException and the like

  /** `CheckParameter`: throws ArgumentNullException naming the parameter exactly when it is null. */
  function CheckParameter<T>(parameter: Option<T>, parameterName: string): (r: Outcome<Error>)
    ensures r.Fail? <==> parameter.None?
    ensures r.Fail? ==> r.error == ArgumentNull(parameterName)
  {
    if parameter.None? then Fail(ArgumentNull(parameterName)) else Pass
  }

  /** `CheckStringParam`: the null check first, then the length check; nothing else is rejected. */
  function CheckStringParam(parameter: Option<string>, description: Message, parameterName: string): (r: Outcome<Error>)
    ensures r.Pass? <==> parameter.Some? && parameter.value != ""
    ensures parameter.None? ==> r == Fail(ArgumentNull(parameterName))
    ensures parameter == Some("") ==> r == Fail(Argument(description, Some(parameterName)))
  {
    match CheckParameter(parameter, parameterName)
    case Fail(e) => Fail(e)
    case Pass => if |parameter.value| == 0 then Fail(Argument(description, Some(parameterName))) else Pass
  }
}
