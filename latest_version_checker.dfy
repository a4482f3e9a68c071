/** The version checker of src/src/VersionChecker/ApplicationVersionChecker.cs:
    it asks for the latest version on every `IsUpToDate`. The download and the
    deserializer are not part of this model; they are the `Remote` each call is
    given. */
module LatestVersionChecker {
  import opened Wrappers
  import opened Utilities
  import opened SharedVersionDescriptor

  /** The initial and reset value of `LatestVersionName`. */
  const DefaultLatestVersionName := "latestversion"

  /** `fetch(location, file)` stands for `GetStringAsync(Path.Combine(location, file))`;
      `fromXml` for `ApplicationVersion.FromXml`. */
  datatype Remote = Remote(fetch: (string, string) -> Result<string, Error>,
                           fromXml: string -> Result<ApplicationVersion?, Error>)

  /** `GetVersion`: the id is checked before anything is fetched, then the
      file `<id>.xml` under the location is fetched and deserialized. The
      source's `GetVersion` in VersionChecker/tests/VersionChecker/ApplicationVersionChecker.cs:50-59 is the same code, so `CachingVersionChecker.Request` and its
      `RequestChecksBeforeFetch` read the same; they differ only in the
      descriptor type `fromXml` returns. */
  function Request(remote: Remote, location: string, versionId: Option<string>): (r: Result<ApplicationVersion?, Error>)
    ensures versionId.None? ==> r == Failure(ArgumentNull("versionId"))
    ensures versionId == Some("") ==> r == Failure(Argument(RequestedVersionIdEmpty, Some("versionId")))
    ensures versionId.Some? && versionId.value != "" && remote.fetch(location, versionId.value + ".xml").Failure? ==>
              r == Failure(remote.fetch(location, versionId.value + ".xml").error)
  {
    if versionId.None? then Failure(ArgumentNull("versionId"))
    else if versionId.value == "" then Failure(Argument(RequestedVersionIdEmpty, Some("versionId")))
    else
      match remote.fetch(location, versionId.value + ".xml")
      case Failure(e) => Failure(e)
      case Success(xml) => remote.fromXml(xml)
  }

  /** A null or empty id fails the same way whatever the remote would answer,
      so nothing is fetched for it; any other id fetches its own `.xml` file. */
  lemma RequestChecksBeforeFetch(a: Remote, b: Remote, location: string, versionId: Option<string>)
    ensures (versionId.None? || versionId == Some("")) ==> Request(a, location, versionId) == Request(b, location, versionId)
    ensures versionId.Some? && versionId.value != "" && a.fetch(location, versionId.value + ".xml").Success? ==>
              Request(a, location, versionId) == a.fromXml(a.fetch(location, versionId.value + ".xml").value)
  {
  }

  class ApplicationVersionChecker {
    const versionsLocation: string
    const currentVersion: ApplicationVersion
    var latestVersion: ApplicationVersion?
    var latestVersionName: string

    /** The location and the name are never empty. */
    ghost predicate Valid()
      reads this
    {
      versionsLocation != "" && latestVersionName != ""
    }

    constructor Init(versionsLocation: string, currentVersion: ApplicationVersion)
      requires versionsLocation != ""
      ensures this.versionsLocation == versionsLocation && this.currentVersion == currentVersion
      ensures latestVersion == null && latestVersionName == DefaultLatestVersionName && Valid()
    {
      this.versionsLocation := versionsLocation;
      this.currentVersion := currentVersion;
      latestVersion := null;
      latestVersionName := DefaultLatestVersionName;
    }

    /** The constructor: the location is checked (null, then empty) before the
        current version. */
    static method Create(versionsLocation: Option<string>, currentVersion: ApplicationVersion?)
      returns (r: Result<ApplicationVersionChecker, Error>)
      ensures r.Success? <==> versionsLocation.Some? && versionsLocation.value != "" && currentVersion != null
      ensures versionsLocation.None? ==> r == Failure(ArgumentNull("versionsLocation"))
      ensures versionsLocation == Some("") ==> r == Failure(Argument(VersionLocationEmpty, Some("versionsLocation")))
      ensures versionsLocation.Some? && versionsLocation.value != "" && currentVersion == null ==>
                r == Failure(ArgumentNull("currentVersion"))
      ensures r.Success? ==> fresh(r.value) && r.value.Valid() && r.value.versionsLocation == versionsLocation.value &&
                             r.value.currentVersion == currentVersion && r.value.latestVersion == null &&
                             r.value.latestVersionName == DefaultLatestVersionName
    {
      var check := CheckStringParam(versionsLocation, VersionLocationEmpty, "versionsLocation");
      if check.Fail? {
        return Failure(check.error);
      }
      if currentVersion == null {
        return Failure(ArgumentNull("currentVersion"));
      }
      var checker := new ApplicationVersionChecker.Init(versionsLocation.value, currentVersion);
      return Success(checker);
    }

    /** The `LatestVersionName` setter: null or empty is refused and the name kept. */
    method SetLatestVersionName(value: Option<string>) returns (r: Outcome<Error>)
      modifies this
      ensures r == CheckStringParam(value, LatestVersionNameEmpty, "value")
      ensures latestVersionName == (if r.Pass? then value.value else old(latestVersionName))
      ensures latestVersion == old(latestVersion)
      ensures old(Valid()) ==> Valid()
    {
      r := CheckStringParam(value, LatestVersionNameEmpty, "value");
      if r.Pass? {
        latestVersionName := value.value;
      }
    }

    /** `ResetLatestVersionName`: back to the default name. */
    method ResetLatestVersionName()
      modifies this
      ensures latestVersionName == DefaultLatestVersionName
      ensures latestVersion == old(latestVersion)
      ensures old(Valid()) ==> Valid()
    {
      var r := SetLatestVersionName(Some(DefaultLatestVersionName));
    }

    /** `GetVersion`: the version of the given id, fetched from the location. */
    method GetVersion(remote: Remote, versionId: Option<string>) returns (r: Result<ApplicationVersion?, Error>)
      ensures r == Request(remote, versionsLocation, versionId)
    {
      if versionId.None? {
        return Failure(ArgumentNull("versionId"));
      }
      if versionId.value == "" {
        return Failure(Argument(RequestedVersionIdEmpty, Some("versionId")));
      }
      var xml := remote.fetch(versionsLocation, versionId.value + ".xml");
      if xml.Failure? {
        return Failure(xml.error);
      }
      r := remote.fromXml(xml.value);
    }

    /** `GetLatestVersion`: `GetVersion` of the current latest-version name,
        which is never refused as null or empty. */
    method GetLatestVersion(remote: Remote) returns (r: Result<ApplicationVersion?, Error>)
      requires Valid()
      ensures r == Request(remote, versionsLocation, Some(latestVersionName))
      ensures remote.fetch(versionsLocation, latestVersionName + ".xml").Failure? ==>
                r == Failure(remote.fetch(versionsLocation, latestVersionName + ".xml").error)
      ensures remote.fetch(versionsLocation, latestVersionName + ".xml").Success? ==>
                r == remote.fromXml(remote.fetch(versionsLocation, latestVersionName + ".xml").value)
    {
      r := GetVersion(remote, Some(latestVersionName));
    }

    /** `IsUpToDate`: fetches the latest version every time and keeps it;
        a null answer makes the comparison fail, otherwise the ids are compared. */
    method IsUpToDate(remote: Remote) returns (r: Result<bool, Error>)
      requires Valid()
      modifies this
      ensures latestVersionName == old(latestVersionName) && Valid()
      ensures var req := Request(remote, versionsLocation, Some(old(latestVersionName)));
              (req.Failure? ==> r == Failure(req.error) && latestVersion == old(latestVersion)) &&
              (req.Success? ==> latestVersion == req.value) &&
              (req.Success? && req.value == null ==> r == Failure(NullReference)) &&
              (req.Success? && req.value != null ==> r == Success(req.value.id == currentVersion.id))
    {
      var latest := GetLatestVersion(remote);
      if latest.Failure? {
        return Failure(latest.error);
      }
      latestVersion := latest.value;
      if latestVersion == null {
        return Failure(NullReference);
      }
      return Success(latestVersion.Equals(currentVersion));
    }
  }
}
