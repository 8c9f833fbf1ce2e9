/** The manifest lookup of vmlist/chunk_files.go, from the decoded records
    onwards: OS entry, then software entry, then the browser entry with the
    wanted version and OS version; each stage takes the first entry that
    matches. A Go slice that may be nil is an `Option<seq<_>>`: `None` is a
    nil (absent) list, `Some([])` an empty one. */
module VmList {
  import opened Wrappers
  import opened GoLib

  datatype BrowserSpec = BrowserSpec(osName: string, softwareName: string, version: string, osVersion: string)

  /** One chunk of a download: the URL of its MD5 text and the URL of its content. */
  datatype ChunkFile = ChunkFile(md5Url: string, url: string)

  datatype BrowserData = BrowserData(version: string, osVersion: string, files: Option<seq<ChunkFile>>)

  datatype SoftwareData = SoftwareData(softwareName: string, browsers: Option<seq<BrowserData>>)

  datatype OsData = OsData(osName: string, softwareList: Option<seq<SoftwareData>>)

  /** The local file a chunk is stored in: the base name of its content URL. */
  function GetLocalFileName(f: ChunkFile): (name: string)
    ensures name != [] && (name == "/" || '/' !in name)
  {
    Base(f.url)
  }

  /** A chunk whose URL ends in `/name` is stored as `name`. */
  lemma LocalFileNameOfUrl(f: ChunkFile, dir: string, name: string)
    requires f.url == dir + "/" + name && name != "" && '/' !in name
    ensures GetLocalFileName(f) == name
  {
    BaseOfPlainName(dir, name);
  }

  // ---------------------------------------------------------------------
  // first-match predicates

  /** Entry `i` is the first OS entry named `osName`. */
  predicate FirstOsMatch(osList: seq<OsData>, osName: string, i: int)
  {
    0 <= i < |osList| && osList[i].osName == osName &&
    forall j :: 0 <= j < i ==> osList[j].osName != osName
  }

  predicate FirstSoftwareMatch(softwareList: seq<SoftwareData>, softwareName: string, i: int)
  {
    0 <= i < |softwareList| && softwareList[i].softwareName == softwareName &&
    forall j :: 0 <= j < i ==> softwareList[j].softwareName != softwareName
  }

  predicate BrowserMatches(b: BrowserData, version: string, osVersion: string)
  {
    b.version == version && b.osVersion == osVersion
  }

  predicate FirstBrowserMatch(browsers: seq<BrowserData>, version: string, osVersion: string, i: int)
  {
    0 <= i < |browsers| && BrowserMatches(browsers[i], version, osVersion) &&
    forall j :: 0 <= j < i ==> !BrowserMatches(browsers[j], version, osVersion)
  }

  // ---------------------------------------------------------------------
  // the three searches

  /** `getSoftwareListForOsName`: the software list of the first entry named
      `osName` (which may itself be nil), or nil when none is. */
  function GetSoftwareListForOsName(osList: seq<OsData>, osName: string): (r: Option<seq<SoftwareData>>)
    ensures forall i :: FirstOsMatch(osList, osName, i) ==> r == osList[i].softwareList
    ensures (forall i :: 0 <= i < |osList| ==> osList[i].osName != osName) ==> r == None
    decreases |osList|
  {
    if osList == [] then None
    else if osList[0].osName == osName then osList[0].softwareList
    else
      var r := GetSoftwareListForOsName(osList[1..], osName);
      assert forall i :: FirstOsMatch(osList, osName, i) ==> FirstOsMatch(osList[1..], osName, i - 1);
      r
  }

  /** `getBrowsersForSoftwareName`: the same search over software entries. */
  function GetBrowsersForSoftwareName(softwareList: seq<SoftwareData>, softwareName: string): (r: Option<seq<BrowserData>>)
    ensures forall i :: FirstSoftwareMatch(softwareList, softwareName, i) ==> r == softwareList[i].browsers
    ensures (forall i :: 0 <= i < |softwareList| ==> softwareList[i].softwareName != softwareName) ==> r == None
    decreases |softwareList|
  {
    if softwareList == [] then None
    else if softwareList[0].softwareName == softwareName then softwareList[0].browsers
    else
      var r := GetBrowsersForSoftwareName(softwareList[1..], softwareName);
      assert forall i :: FirstSoftwareMatch(softwareList, softwareName, i) ==>
                          FirstSoftwareMatch(softwareList[1..], softwareName, i - 1);
      r
  }

  /** `getFilesForVersionAndOsVersion`: the files of the first browser entry
      whose version and OS version are both equal to those asked for. */
  function GetFilesForVersionAndOsVersion(browsers: seq<BrowserData>, version: string, osVersion: string): (r: Option<seq<ChunkFile>>)
    ensures forall i :: FirstBrowserMatch(browsers, version, osVersion, i) ==> r == browsers[i].files
    ensures (forall i :: 0 <= i < |browsers| ==> !BrowserMatches(browsers[i], version, osVersion)) ==> r == None
    decreases |browsers|
  {
    if browsers == [] then None
    else if browsers[0].version == version && browsers[0].osVersion == osVersion then browsers[0].files
    else
      var r := GetFilesForVersionAndOsVersion(browsers[1..], version, osVersion);
      assert forall i :: FirstBrowserMatch(browsers, version, osVersion, i) ==>
                          FirstBrowserMatch(browsers[1..], version, osVersion, i - 1);
      r
  }

  // ---------------------------------------------------------------------
  // GetFilesForBrowser

  function OsNotFound(spec: BrowserSpec): Error
  {
    Errorf("softwareList not found for os: " + spec.osName)
  }

  function SoftwareNotFound(spec: BrowserSpec): Error
  {
    Errorf("browsers not found for softwareName: " + spec.softwareName)
  }

  function FilesNotFound(spec: BrowserSpec): Error
  {
    Errorf("files not found for version: " + spec.version + ", osVersion: " + spec.osVersion)
  }

  /** `GetFilesForBrowser` on an already decoded manifest. */
  function GetFilesForBrowser(osList: seq<OsData>, spec: BrowserSpec): (r: Result<seq<ChunkFile>, Error>)
    ensures r.Failure? ==> r.error in {OsNotFound(spec), SoftwareNotFound(spec), FilesNotFound(spec)}
  {
    match GetSoftwareListForOsName(osList, spec.osName)
    case None => Failure(OsNotFound(spec))
    case Some(softwareList) =>
      match GetBrowsersForSoftwareName(softwareList, spec.softwareName)
      case None => Failure(SoftwareNotFound(spec))
      case Some(browsers) =>
        match GetFilesForVersionAndOsVersion(browsers, spec.version, spec.osVersion)
        case None => Failure(FilesNotFound(spec))
        case Some(files) => Success(files)
  }

  /** When the first OS entry, its first software entry and its first
      browser entry that match all carry lists, the result is exactly that
      browser entry's file list, in manifest order. */
  lemma FilesOfFirstMatches(osList: seq<OsData>, spec: BrowserSpec, i: int, j: int, k: int)
    requires FirstOsMatch(osList, spec.osName, i) && osList[i].softwareList.Some?
    requires FirstSoftwareMatch(osList[i].softwareList.value, spec.softwareName, j)
    requires osList[i].softwareList.value[j].browsers.Some?
    requires FirstBrowserMatch(osList[i].softwareList.value[j].browsers.value, spec.version, spec.osVersion, k)
    requires osList[i].softwareList.value[j].browsers.value[k].files.Some?
    ensures GetFilesForBrowser(osList, spec) == Success(osList[i].softwareList.value[j].browsers.value[k].files.value)
  {
  }

  /** Conversely, a successful lookup always comes from such a chain of first
      matches. */
  lemma FilesOnlyFromFirstMatches(osList: seq<OsData>, spec: BrowserSpec) returns (i: int, j: int, k: int)
    requires GetFilesForBrowser(osList, spec).Success?
    ensures FirstOsMatch(osList, spec.osName, i) && osList[i].softwareList.Some?
    ensures FirstSoftwareMatch(osList[i].softwareList.value, spec.softwareName, j)
    ensures osList[i].softwareList.value[j].browsers.Some?
    ensures FirstBrowserMatch(osList[i].softwareList.value[j].browsers.value, spec.version, spec.osVersion, k)
    ensures GetFilesForBrowser(osList, spec) == Success(osList[i].softwareList.value[j].browsers.value[k].files.value)
  {
    i := FirstOsIndex(osList, spec.osName);
    var sl := osList[i].softwareList.value;
    j := FirstSoftwareIndex(sl, spec.softwareName);
    var bs := sl[j].browsers.value;
    k := FirstBrowserIndex(bs, spec.version, spec.osVersion);
  }

  lemma {:induction false} FirstOsIndex(osList: seq<OsData>, osName: string) returns (i: int)
    requires GetSoftwareListForOsName(osList, osName).Some?
    ensures FirstOsMatch(osList, osName, i)
    decreases |osList|
  {
    if osList[0].osName == osName {
      i := 0;
    } else {
      var rest := osList[1..];
      var j := FirstOsIndex(rest, osName);
      i := j + 1;
      forall t | 0 < t < i ensures osList[t].osName != osName {
        assert osList[t] == rest[t - 1];
      }
    }
  }

  lemma {:induction false} FirstSoftwareIndex(softwareList: seq<SoftwareData>, softwareName: string) returns (i: int)
    requires GetBrowsersForSoftwareName(softwareList, softwareName).Some?
    ensures FirstSoftwareMatch(softwareList, softwareName, i)
    decreases |softwareList|
  {
    if softwareList[0].softwareName == softwareName {
      i := 0;
    } else {
      var rest := softwareList[1..];
      var j := FirstSoftwareIndex(rest, softwareName);
      i := j + 1;
      forall t | 0 < t < i ensures softwareList[t].softwareName != softwareName {
        assert softwareList[t] == rest[t - 1];
      }
    }
  }

  lemma {:induction false} FirstBrowserIndex(browsers: seq<BrowserData>, version: string, osVersion: string) returns (i: int)
    requires GetFilesForVersionAndOsVersion(browsers, version, osVersion).Some?
    ensures FirstBrowserMatch(browsers, version, osVersion, i)
    decreases |browsers|
  {
    if BrowserMatches(browsers[0], version, osVersion) {
      i := 0;
    } else {
      var rest := browsers[1..];
      var j := FirstBrowserIndex(rest, version, osVersion);
      i := j + 1;
      forall t | 0 < t < i ensures !BrowserMatches(browsers[t], version, osVersion) {
        assert browsers[t] == rest[t - 1];
      }
    }
  }

  /** The first stage that finds nothing decides the error, and the later
      stages are never consulted: without a usable OS entry the software
      name, version and OS version asked for make no difference. */
  lemma MissingOsDecides(osList: seq<OsData>, spec: BrowserSpec, other: BrowserSpec)
    requires GetSoftwareListForOsName(osList, spec.osName).None?
    requires other.osName == spec.osName
    ensures GetFilesForBrowser(osList, spec) == Failure(OsNotFound(spec))
    ensures GetFilesForBrowser(osList, other) == GetFilesForBrowser(osList, spec)
  {
  }

  lemma MissingSoftwareDecides(osList: seq<OsData>, spec: BrowserSpec, other: BrowserSpec)
    requires GetSoftwareListForOsName(osList, spec.osName).Some?
    requires GetBrowsersForSoftwareName(GetSoftwareListForOsName(osList, spec.osName).value, spec.softwareName).None?
    requires other.osName == spec.osName && other.softwareName == spec.softwareName
    ensures GetFilesForBrowser(osList, spec) == Failure(SoftwareNotFound(spec))
    ensures GetFilesForBrowser(osList, other) == GetFilesForBrowser(osList, spec)
  {
  }

  /** A first-matching OS entry whose software list is nil is reported like
      a missing OS, even if a later entry of the same name has a list. */
  lemma NilSoftwareListReportedAsMissing(osList: seq<OsData>, spec: BrowserSpec, i: int)
    requires FirstOsMatch(osList, spec.osName, i) && osList[i].softwareList.None?
    ensures GetFilesForBrowser(osList, spec) == GetFilesForBrowser([], spec) == Failure(OsNotFound(spec))
  {
  }

  /** A first-matching software entry whose browser list is nil is reported
      like a missing software name, in any manifest. */
  lemma NilBrowsersReportedAsMissing(osList: seq<OsData>, spec: BrowserSpec, j: int)
    requires GetSoftwareListForOsName(osList, spec.osName).Some?
    requires FirstSoftwareMatch(GetSoftwareListForOsName(osList, spec.osName).value, spec.softwareName, j)
    requires GetSoftwareListForOsName(osList, spec.osName).value[j].browsers.None?
    ensures GetFilesForBrowser(osList, spec) == Failure(SoftwareNotFound(spec))
  {
  }

  /** A first-matching browser entry whose file list is nil is reported like
      a missing version pair, in any manifest. */
  lemma NilFilesReportedAsMissing(osList: seq<OsData>, spec: BrowserSpec, k: int)
    requires GetSoftwareListForOsName(osList, spec.osName).Some?
    requires GetBrowsersForSoftwareName(GetSoftwareListForOsName(osList, spec.osName).value, spec.softwareName).Some?
    requires FirstBrowserMatch(GetBrowsersForSoftwareName(GetSoftwareListForOsName(osList, spec.osName).value, spec.softwareName).value,
                               spec.version, spec.osVersion, k)
    requires GetBrowsersForSoftwareName(GetSoftwareListForOsName(osList, spec.osName).value, spec.softwareName).value[k].files.None?
    ensures GetFilesForBrowser(osList, spec) == Failure(FilesNotFound(spec))
  {
  }
}
