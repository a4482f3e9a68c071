/** The version checker of VersionChecker/tests/VersionChecker/ApplicationVersionChecker.cs:
    it fetches the latest version once and answers later `IsUpToDate` calls
    from that result. The `ApplicationVersion` that file is built against is
    not part of this model: its `FromXml` is a parameter, and the descriptor
    class of the descriptor module, whose `Equals` compares ids, stands for
    the objects it returns. The download is a parameter too; both make up the
    `Remote` each call is given. */
module CachingVersionChecker {
  import opened Wrappers
  import opened Utilities
  import opened VersionDescriptor

  /** The initial and reset value of `CurrentVersionName`. */
  const DefaultCurrentVersionName := "currentversion"

  /** The id `UpdateLatestVersion` always requests. */
  const UpdateVersionId := "currentversion"

  /** `fetch(location, file)` stands for `GetStringAsync(Path.Combine(location, file))`;
      `fromXml` for `ApplicationVersion.FromXml`. */
  datatype Remote = Remote(fetch: (string, string) -> Result<string, Error>,
                           fromXml: string -> Result<ApplicationVersion?, Error>)

  /** `GetVersion`: the id is checked before anything is fetched, then the
      file `<id>.xml` under the location is fetched and deserialized. The
      source's `GetVersion` in src/src/VersionChecker/ApplicationVersionChecker.cs:48-57 is the same code, so `LatestVersionChecker.Request` and its
      `RequestChecksBeforeFetch` read the same; they differ only in the
      descriptor type `fromXml` returns. */
  function Request(remote: Remote, location: string, versionId: Option<string>): (r: Result<ApplicationVersion?, Error>)
    ensures versionId.None? ==> r == Failure(ArgumentNull("versionId"))
    ensures versionId == Some("") ==> r == Failure(Argument(RequestedVersionIdEmpty, Some("versionId")))
    ensures versionId.Some? && versionId.value != "" && remote.fetch(location, versionId.value + ".xml").Failure? ==>
              r == Failure(remote.fetch(location, versionId.value + ".xml").error)
  {
    if versionId.None? then Failure(ArgumentNull("versionId"))
    else if versionId.value == "" then Failure(Argument(RequestedVersionIdEmpty, Some("versionId")))
    else
      match remote.fetch(location, versionId.value + ".xml")
      case Failure(e) => Failure(e)
      case Success(xml) => remote.fromXml(xml)
  }

  /** A null or empty id fails the same way whatever the remote would answer,
      so nothing is fetched for it; any other id gets what the deserializer
      makes of its own `.xml` file. */
  lemma RequestChecksBeforeFetch(a: Remote, b: Remote, location: string, versionId: Option<string>)
    ensures (versionId.None? || versionId == Some("")) ==> Request(a, location, versionId) == Request(b, location, versionId)
    ensures versionId.Some? && versionId.value != "" && a.fetch(location, versionId.value + ".xml").Success? ==>
              Request(a, location, versionId) == a.fromXml(a.fetch(location, versionId.value + ".xml").value)
  {
  }

  class ApplicationVersionChecker {
    const versionsLocation: string
    const currentVersion: ApplicationVersion
    var latestVersion: ApplicationVersion?
    var currentVersionName: string
    var hasUpdatedLatestVersion: bool

    /** The location and the name are never empty. */
    ghost predicate Valid()
      reads this
    {
      versionsLocation != "" && currentVersionName != ""
    }

    constructor Init(versionsLocation: string, currentVersion: ApplicationVersion)
      requires versionsLocation != ""
      ensures this.versionsLocation == versionsLocation && this.currentVersion == currentVersion
      ensures latestVersion == null && currentVersionName == DefaultCurrentVersionName
      ensures !hasUpdatedLatestVersion && Valid()
    {
      this.versionsLocation := versionsLocation;
      this.currentVersion := currentVersion;
      latestVersion := null;
      currentVersionName := DefaultCurrentVersionName;
      hasUpdatedLatestVersion := false;
    }

    /** The constructor: the location is checked (null, then empty) before the
        current version. */
    static method Create(versionsLocation: Option<string>, currentVersion: ApplicationVersion?)
      returns (r: Result<ApplicationVersionChecker, Error>)
      ensures r.Success? <==> versionsLocation.Some? && versionsLocation.value != "" && currentVersion != null
      ensures versionsLocation.None? ==> r == Failure(ArgumentNull("versionsLocation"))
      ensures versionsLocation == Some("") ==> r == Failure(Argument(VersionLocationEmpty, Some("versionsLocation")))
      ensures versionsLocation.Some? && versionsLocation.value != "" && currentVersion == null ==>
                r == Failure(ArgumentNull("currentVersion"))
      ensures r.Success? ==> fresh(r.value) && r.value.Valid() && r.value.versionsLocation == versionsLocation.value &&
                             r.value.currentVersion == currentVersion && r.value.latestVersion == null &&
                             r.value.currentVersionName == DefaultCurrentVersionName && !r.value.hasUpdatedLatestVersion
    {
      var check := CheckStringParam(versionsLocation, VersionLocationEmpty, "versionsLocation");
      if check.Fail? {
        return Failure(check.error);
      }
      if currentVersion == null {
        return Failure(ArgumentNull("currentVersion"));
      }
      var checker := new ApplicationVersionChecker.Init(versionsLocation.value, currentVersion);
      return Success(checker);
    }

    /** The `CurrentVersionName` setter: null or empty is refused and the name kept. */
    method SetCurrentVersionName(value: Option<string>) returns (r: Outcome<Error>)
      modifies this
      ensures r == CheckStringParam(value, CurrentVersionNameEmpty, "value")
      ensures currentVersionName == (if r.Pass? then value.value else old(currentVersionName))
      ensures latestVersion == old(latestVersion) && hasUpdatedLatestVersion == old(hasUpdatedLatestVersion)
      ensures old(Valid()) ==> Valid()
    {
      r := CheckStringParam(value, CurrentVersionNameEmpty, "value");
      if r.Pass? {
        currentVersionName := value.value;
      }
    }

    /** `ResetCurrentVersionName`: back to the default name. */
    method ResetCurrentVersionName()
      modifies this
      ensures currentVersionName == DefaultCurrentVersionName
      ensures latestVersion == old(latestVersion) && hasUpdatedLatestVersion == old(hasUpdatedLatestVersion)
      ensures old(Valid()) ==> Valid()
    {
      var r := SetCurrentVersionName(Some(DefaultCurrentVersionName));
    }

    /** `GetVersion`: the version of the given id, fetched from the location. */
    method GetVersion(remote: Remote, versionId: Option<string>) returns (r: Result<ApplicationVersion?, Error>)
      ensures r == Request(remote, versionsLocation, versionId)
    {
      if versionId.None? {
        return Failure(ArgumentNull("versionId"));
      }
      if versionId.value == "" {
        return Failure(Argument(RequestedVersionIdEmpty, Some("versionId")));
      }
      var xml := remote.fetch(versionsLocation, versionId.value + ".xml");
      if xml.Failure? {
        return Failure(xml.error);
      }
      r := remote.fromXml(xml.value);
    }

    /** `UpdateLatestVersion`: fetches the version named "currentversion",
        whatever `CurrentVersionName` holds, and marks the update done only
        when the fetch returned. */
    method UpdateLatestVersion(remote: Remote) returns (r: Outcome<Error>)
      modifies this
      ensures currentVersionName == old(currentVersionName)
      ensures var req := Request(remote, versionsLocation, Some(UpdateVersionId));
              (r.Fail? <==> req.Failure?) &&
              (req.Failure? ==> r.error == req.error && latestVersion == old(latestVersion) &&
                                hasUpdatedLatestVersion == old(hasUpdatedLatestVersion)) &&
              (req.Success? ==> hasUpdatedLatestVersion && latestVersion == req.value)
    {
      ghost var req := Request(remote, versionsLocation, Some(UpdateVersionId));
      var latest := GetVersion(remote, Some(UpdateVersionId));
      if latest.Failure? {
        assert req.Failure? && latest.error == req.error;
        return Fail(latest.error);
      }
      assert req.Success?;
      latestVersion := latest.value;
      hasUpdatedLatestVersion := true;
      return Pass;
    }

    /** `IsUpToDate`: an update that left no latest version is an error; the
        first call fetches, later calls reuse what was fetched; the answer is
        equality of the ids. */
    method IsUpToDate(remote: Remote) returns (r: Result<bool, Error>)
      modifies this
      ensures currentVersionName == old(currentVersionName)
      ensures old(hasUpdatedLatestVersion) && old(latestVersion) == null ==>
                r == Failure(InvalidOperation(LatestVersionUnavailable)) && latestVersion == null && hasUpdatedLatestVersion
      ensures old(hasUpdatedLatestVersion) && old(latestVersion) != null ==>
                latestVersion == old(latestVersion) && hasUpdatedLatestVersion &&
                r == Success(latestVersion.id == currentVersion.id)
      ensures !old(hasUpdatedLatestVersion) ==>
                var req := Request(remote, versionsLocation, Some(UpdateVersionId));
                (req.Failure? ==> r == Failure(req.error) && !hasUpdatedLatestVersion && latestVersion == old(latestVersion)) &&
                (req.Success? ==> hasUpdatedLatestVersion && latestVersion == req.value) &&
                (req.Success? && req.value == null ==> r == Failure(NullReference)) &&
                (req.Success? && req.value != null ==> r == Success(req.value.id == currentVersion.id))
    {
      if latestVersion == null && hasUpdatedLatestVersion {
        return Failure(InvalidOperation(LatestVersionUnavailable));
      }
      if !hasUpdatedLatestVersion {
        var update := UpdateLatestVersion(remote);
        if update.Fail? {
          return Failure(update.error);
        }
      }
      if latestVersion == null {
        return Failure(NullReference);
      }
      return Success(latestVersion.Equals(currentVersion));
    }
  }

  /** Once an update has brought back no version, every later `IsUpToDate`
      fails without fetching. */
  method NullLatestVersionSticks(checker: ApplicationVersionChecker, first: Remote, second: Remote)
    returns (r1: Result<bool, Error>, r2: Result<bool, Error>)
    requires !checker.hasUpdatedLatestVersion
    requires Request(first, checker.versionsLocation, Some(UpdateVersionId)) == Success(null)
    modifies checker
    ensures r1 == Failure(NullReference)
    ensures r2 == Failure(InvalidOperation(LatestVersionUnavailable))
  {
    r1 := checker.IsUpToDate(first);
    r2 := checker.IsUpToDate(second);
  }
}
