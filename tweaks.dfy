/** `fetchers/tweaks.py`: tweaks (client DLLs fetched from a direct link or
    from a repository's newest release), their update check and install, the
    manifest loader and the `dlls.txt` module list. */
module Tweaks {
  import opened Wrappers
  import opened Text
  import opened Host
  import opened Manifest

  /** A downloadable file attached to a release. */
  datatype Asset = Asset(name: string, downloadUrl: string)

  /** A tagged release of the tweak's repository. */
  datatype Release = Release(tag: string, assets: seq<Asset>)

  /** Listing the repository's releases: the exception text when the lookup
      fails, or the releases newest first. */
  datatype ReleaseQuery = QueryFailed(error: string) | Listed(releases: seq<Release>)

  /** Every field of a tweak object. */
  datatype TweakState = TweakState(
    name: string,
    description: string,
    gitUrl: string,
    directUrl: string,
    dllName: string,
    extractAll: bool,
    zip: bool,
    zipName: string,
    release: bool,
    defaultEnabled: bool,
    hasUpdate: bool,
    downloadUrl: string,
    newVersion: string)

  /** What an install returns, together with the version record and the set
      of present paths it leaves behind. */
  datatype InstallOutcome = InstallOutcome(
    ok: bool, messages: Messages, record: map<string, string>, present: set<string>)

  const DllListHeader := "twdiscord.dll"
  const DllListDenied := "Permission error when trying to write dlls.txt"
  const DllListWritten := "Success"
  /** The text of the `IndexError` raised when a repository has no release. */
  const NoReleaseError := "list index out of range"

  function AlreadyLatest(name: string): string
  {
    name + " is already the latest version."
  }

  function DirectInstalled(name: string): string
  {
    "Successfully downloaded and installed " + name
  }

  function ReleaseInstalled(name: string, version: string): string
  {
    "Successfully downloaded and installed " + name + " (version " + version + ")"
  }

  function ReleaseFailed(name: string, version: string, error: string): string
  {
    "Failed to download " + name + " (version " + version + "): " + error
  }

  // ----- the pure rules -----

  /** A tweak built from a manifest object: fields the object lacks take
      their defaults (`zip`, `release`, `default_enabled` true, `extractall`
      false, strings empty); no update is known yet. */
  function TweakFromEntry(e: Entry): (t: TweakState)
    ensures t.zip <==> e.zip != Some(false)
    ensures t.release <==> e.release != Some(false)
    ensures t.defaultEnabled <==> e.defaultEnabled != Some(false)
    ensures t.extractAll <==> e.extractAll == Some(true)
    ensures e.name.None? ==> t.name == ""
    ensures e.name.Some? ==> t.name == e.name.value
    ensures e.description.None? ==> t.description == ""
    ensures e.description.Some? ==> t.description == e.description.value
    ensures e.gitUrl.None? ==> t.gitUrl == ""
    ensures e.gitUrl.Some? ==> t.gitUrl == e.gitUrl.value
    ensures e.directUrl.None? ==> t.directUrl == ""
    ensures e.directUrl.Some? ==> t.directUrl == e.directUrl.value
    ensures e.dllName.None? ==> t.dllName == ""
    ensures e.dllName.Some? ==> t.dllName == e.dllName.value
    ensures e.zipName.None? ==> t.zipName == ""
    ensures e.zipName.Some? ==> t.zipName == e.zipName.value
    ensures !t.hasUpdate && t.downloadUrl == "" && t.newVersion == ""
  {
    TweakState(
      name := GetOr(e.name, ""),
      description := GetOr(e.description, ""),
      gitUrl := GetOr(e.gitUrl, ""),
      directUrl := GetOr(e.directUrl, ""),
      dllName := GetOr(e.dllName, ""),
      extractAll := GetOr(e.extractAll, false),
      zip := GetOr(e.zip, true),
      zipName := GetOr(e.zipName, ""),
      release := GetOr(e.release, true),
      defaultEnabled := GetOr(e.defaultEnabled, true),
      hasUpdate := false,
      downloadUrl := "",
      newVersion := "")
  }

  /** The version recorded for a tweak, `""` when there is none. */
  function InstalledVersion(record: map<string, string>, name: string): (v: string)
    ensures name !in record ==> v == ""
    ensures name in record ==> v == record[name]
  {
    if name in record then record[name] else ""
  }

  /** The asset name a release must offer: the archive's name for a zipped
      tweak, the DLL's name otherwise. */
  function ExpectedAsset(t: TweakState): (a: string)
    ensures t.zip ==> a == t.zipName
    ensures !t.zip ==> a == t.dllName
  {
    if t.zip then t.zipName else t.dllName
  }

  /** The index of the last asset named `expected`, `None` when no asset is. */
  function LastMatch(assets: seq<Asset>, expected: string): (r: Option<nat>)
    ensures r.Some? ==> r.value < |assets| && assets[r.value].name == expected
    ensures forall j :: 0 <= j < |assets| && (r.None? || j > r.value) ==> assets[j].name != expected
  {
    if assets == [] then None
    else if assets[|assets| - 1].name == expected then Some(|assets| - 1)
    else LastMatch(assets[..|assets| - 1], expected)
  }

  /** The download URL after scanning `assets`: that of the last asset named
      `expected`, or `current` when none is. */
  function LastMatchUrl(assets: seq<Asset>, expected: string, current: string): (url: string)
    ensures (forall i :: 0 <= i < |assets| ==> assets[i].name != expected) ==> url == current
    ensures (exists i :: 0 <= i < |assets| && assets[i].name == expected) ==>
      exists i :: 0 <= i < |assets| && assets[i].name == expected && url == assets[i].downloadUrl
        && forall j :: i < j < |assets| ==> assets[j].name != expected
  {
    match LastMatch(assets, expected)
    case None => current
    case Some(i) => assets[i].downloadUrl
  }

  /** The version a check compares with the record: the last segment of the
      direct URL, else (for a release tweak) the newest release's tag; `None`
      when the check has no candidate. */
  function Candidate(t: TweakState, query: ReleaseQuery): (v: Option<string>)
    ensures t.directUrl != "" ==> v == Some(LastSegment(t.directUrl))
    ensures t.directUrl == "" && !t.release ==> v == None
    ensures t.directUrl == "" && t.release ==>
      (v.Some? <==> query.Listed? && query.releases != [])
      && (v.Some? ==> v.value == query.releases[0].tag)
  {
    if t.directUrl != "" then Some(LastSegment(t.directUrl))
    else if t.release && query.Listed? && query.releases != [] then Some(query.releases[0].tag)
    else None
  }

  /** The update decision both sources make: the tweak is up to date iff
      `candidate` is the recorded version and its DLL is present; otherwise
      it has an update and `new_version` becomes `candidate`. */
  function Decided(t: TweakState, candidate: string, record: map<string, string>,
                   present: set<string>, path: string): (d: TweakState)
    ensures d == t.(hasUpdate := d.hasUpdate, newVersion := d.newVersion)
    ensures !d.hasUpdate <==> candidate == InstalledVersion(record, t.name) && Join(path, t.dllName) in present
    ensures d.newVersion == if d.hasUpdate then candidate else t.newVersion
  {
    if candidate == InstalledVersion(record, t.name) && Join(path, t.dllName) in present then
      t.(hasUpdate := false)
    else
      t.(hasUpdate := true, newVersion := candidate)
  }

  /** `Tweak.check_update` on a tweak with fields `t`, the version record,
      the present paths and the game directory `path`: what it returns (or the
      exception it raises) and the tweak's fields afterwards. */
  function CheckedTweak(t: TweakState, record: map<string, string>, present: set<string>,
                        path: string, query: ReleaseQuery): (r: (Result<bool>, TweakState))
    ensures r.0.Ok? ==> r.0.value == r.1.hasUpdate
    // the release lookup fails, or finds no release: the exception escapes and nothing changes
    ensures r.0.Err? <==> t.directUrl == "" && t.release && (query.QueryFailed? || query.releases == [])
    ensures r.0.Err? ==> r.1 == t
    // with a candidate version, the decision is made on it
    ensures Candidate(t, query).Some? ==>
      r.1.(downloadUrl := t.downloadUrl) == Decided(t, Candidate(t, query).value, record, present, path)
    // asset matching: release tweaks only, whatever the decision was
    ensures t.directUrl != "" ==> r.1.downloadUrl == t.downloadUrl
    ensures t.directUrl == "" && t.release && r.0.Ok? ==>
      r.1.downloadUrl == LastMatchUrl(query.releases[0].assets, ExpectedAsset(t), t.downloadUrl)
    // neither source: nothing changes and the old flag is returned
    ensures t.directUrl == "" && !t.release ==> r == (Ok(t.hasUpdate), t)
  {
    if t.directUrl != "" then
      var d := Decided(t, LastSegment(t.directUrl), record, present, path);
      (Ok(d.hasUpdate), d)
    else if t.release then
      match query
      case QueryFailed(e) => (Err(e), t)
      case Listed(releases) =>
        if releases == [] then (Err(NoReleaseError), t)
        else
          var latest := releases[0];
          var d := Decided(t, latest.tag, record, present, path);
          (Ok(d.hasUpdate), d.(downloadUrl := LastMatchUrl(latest.assets, ExpectedAsset(t), t.downloadUrl)))
    else (Ok(t.hasUpdate), t)
  }

  /** The version an install records: the direct URL's last segment, or the
      release tag found by the last check. */
  function CommittedVersion(t: TweakState): (v: string)
    // a direct URL's whole last segment: no `/`, the URL ends with it, and
    // it is the whole URL or follows a `/`
    ensures t.directUrl != "" ==>
      '/' !in v && |v| <= |t.directUrl| && t.directUrl[|t.directUrl| - |v|..] == v
    ensures t.directUrl != "" ==>
      |v| == |t.directUrl| || t.directUrl[|t.directUrl| - |v| - 1] == '/'
    ensures t.directUrl == "" ==> v == t.newVersion
  {
    if t.directUrl != "" then LastSegment(t.directUrl) else t.newVersion
  }

  /** The paths an extraction of every member of an archive into `path` creates. */
  function ExtractedPaths(path: string, members: set<string>): (paths: set<string>)
    ensures forall m :: m in members ==> Join(path, m) in paths
    ensures forall p :: p in paths ==> exists m :: m in members && p == Join(path, m)
  {
    set m | m in members :: Join(path, m)
  }

  /** The direct-link branch of `Tweak.install`, for a tweak with an update.
      The download goes to a temporary file, so only an extraction writes
      into the game directory. */
  function InstalledDirect(t: TweakState, record: map<string, string>, present: set<string>,
                           path: string, fetch: Fetch): (r: InstallOutcome)
    requires t.directUrl != "" && t.hasUpdate
    // it succeeds iff the download succeeded and, for an archive, held the DLL
    ensures r.ok <==> fetch.Fetched? && (t.zip ==> t.dllName in fetch.members)
    ensures r.ok ==> r.record == record[t.name := LastSegment(t.directUrl)]
    // a failure leaves the record and returns the exception as a one-item list
    ensures !r.ok ==> r.record == record
    ensures !r.ok ==>
      r.messages == MessageList([if fetch.Fetched? then MissingMember(t.dllName) else fetch.error])
    ensures r.ok ==> r.messages.MessageList? && |r.messages.items| == (if t.zip then 1 else 0)
    // an archive's DLL lands in the game directory, also when its extraction
    // breaks off; a raw download lands nowhere
    ensures r.ok && t.zip ==> r.present == present + {Join(path, t.dllName)}
                              && r.messages.items == [DirectInstalled(t.name)]
    ensures fetch.Interrupted? && t.zip ==> r.present == present + {Join(path, t.dllName)}
    ensures !(t.zip && (r.ok || fetch.Interrupted?)) ==> r.present == present
  {
    match fetch
    case Failed(e) => InstallOutcome(false, MessageList([e]), record, present)
    case Interrupted(e, _) =>
      InstallOutcome(false, MessageList([e]), record,
                     if t.zip then present + {Join(path, t.dllName)} else present)
    case Fetched(members) =>
      var committed := record[t.name := LastSegment(t.directUrl)];
      if !t.zip then InstallOutcome(true, MessageList([]), committed, present)
      else if t.dllName !in members then
        InstallOutcome(false, MessageList([MissingMember(t.dllName)]), record, present)
      else
        InstallOutcome(true, MessageList([DirectInstalled(t.name)]), committed,
                       present + {Join(path, t.dllName)})
  }

  /** What a release install writes into the game directory: every member
      of the archive for `extractall`, otherwise the DLL. */
  function ReleaseTargets(t: TweakState, path: string, members: set<string>): (paths: set<string>)
    ensures t.zip && t.extractAll ==> paths == ExtractedPaths(path, members)
    ensures !(t.zip && t.extractAll) ==> paths == {Join(path, t.dllName)}
  {
    if t.zip && t.extractAll then ExtractedPaths(path, members) else {Join(path, t.dllName)}
  }

  /** The release branch of `Tweak.install`, for a tweak with an update and
      a matched asset. */
  function InstalledRelease(t: TweakState, record: map<string, string>, present: set<string>,
                            path: string, fetch: Fetch): (r: InstallOutcome)
    requires t.hasUpdate && t.downloadUrl != ""
    // it succeeds iff the download succeeded and, when one DLL is extracted,
    // the archive held it
    ensures r.ok <==> fetch.Fetched? && (t.zip && !t.extractAll ==> t.dllName in fetch.members)
    ensures r.ok ==> r.record == record[t.name := t.newVersion]
                     && r.messages == MessageList([ReleaseInstalled(t.name, t.newVersion)])
    // failures leave the record and come back as one bare string naming the
    // tweak, the version and the exception
    ensures !r.ok ==> r.record == record
    ensures !r.ok ==>
      var cause := if fetch.Fetched? then MissingMember(t.dllName) else fetch.error;
      r.messages == MessageText(ReleaseFailed(t.name, t.newVersion, cause))
    ensures r.ok ==> r.present == present + ReleaseTargets(t, path, fetch.members)
    // an interrupted write leaves what it had started writing
    ensures fetch.Interrupted? ==> r.present == present + ReleaseTargets(t, path, fetch.written)
    ensures !r.ok && !fetch.Interrupted? ==> r.present == present
  {
    match fetch
    case Failed(e) =>
      InstallOutcome(false, MessageText(ReleaseFailed(t.name, t.newVersion, e)), record, present)
    case Interrupted(e, written) =>
      InstallOutcome(false, MessageText(ReleaseFailed(t.name, t.newVersion, e)), record,
                     present + ReleaseTargets(t, path, written))
    case Fetched(members) =>
      var committed := record[t.name := t.newVersion];
      var done := MessageList([ReleaseInstalled(t.name, t.newVersion)]);
      if t.zip && !t.extractAll && t.dllName !in members then
        InstallOutcome(false, MessageText(ReleaseFailed(t.name, t.newVersion, MissingMember(t.dllName))),
                       record, present)
      else
        InstallOutcome(true, done, committed, present + ReleaseTargets(t, path, members))
  }

  /** `Tweak.install` on a tweak with fields `t`: `fetch` is what downloading
      (and opening the archive) gave; the outcome holds the returned flag and
      messages, and the version record and present paths afterwards. */
  function InstalledTweak(t: TweakState, record: map<string, string>, present: set<string>,
                          path: string, fetch: Fetch): (r: InstallOutcome)
    // the record changes only by committing this tweak's version, and only
    // after the download (and the extraction of the DLL, when there is one)
    // succeeded; a failure changes nothing
    ensures r.record == record || r.record == record[t.name := CommittedVersion(t)]
    ensures r.record != record ==> r.ok && fetch.Fetched?
    ensures !r.ok ==> r.record == record
    // files are only added, and a failure adds some only when it broke off
    // while writing into the game directory
    ensures present <= r.present
    ensures !r.ok && !fetch.Interrupted? ==> r.present == present
    // nothing to do
    ensures t.directUrl != "" && !t.hasUpdate ==>
      r == InstallOutcome(true, MessageList([AlreadyLatest(t.name)]), record, present)
    ensures t.directUrl == "" && (!t.release || !t.hasUpdate || t.downloadUrl == "") ==>
      r == InstallOutcome(true, MessageList([]), record, present)
  {
    if t.directUrl != "" then
      if !t.hasUpdate then InstallOutcome(true, MessageList([AlreadyLatest(t.name)]), record, present)
      else InstalledDirect(t, record, present, path, fetch)
    else if t.release && t.hasUpdate && t.downloadUrl != "" then
      InstalledRelease(t, record, present, path, fetch)
    else InstallOutcome(true, MessageList([]), record, present)
  }

  /** The asset loop of `check_update`: walk the newest release's assets and
      take the URL of each one named like the archive (zipped tweak) or the
      DLL (raw tweak); the last such asset wins, and with none the URL stays
      `current`. */
  method ScanAssets(assets: seq<Asset>, zip: bool, zipName: string, dllName: string, current: string)
    returns (url: string)
    ensures url == LastMatchUrl(assets, if zip then zipName else dllName, current)
  {
    url := current;
    for i := 0 to |assets|
      invariant url == LastMatchUrl(assets[..i], if zip then zipName else dllName, current)
    {
      var asset := assets[i];
      if zip {
        if asset.name == zipName {
          url := asset.downloadUrl;
        }
      } else {
        if asset.name == dllName {
          url := asset.downloadUrl;
        }
      }
      assert assets[..i + 1][..i] == assets[..i];
    }
    assert assets[..|assets|] == assets;
  }

  // ----- the tweak object -----

  class Tweak {
    var name: string
    var description: string
    var gitUrl: string
    var directUrl: string
    var dllName: string
    var extractAll: bool
    var zip: bool
    var zipName: string
    var release: bool
    var defaultEnabled: bool
    var hasUpdate: bool
    var downloadUrl: string
    var newVersion: string

    function State(): TweakState
      reads this
    {
      TweakState(name, description, gitUrl, directUrl, dllName, extractAll, zip, zipName,
                 release, defaultEnabled, hasUpdate, downloadUrl, newVersion)
    }

    /** `Tweak(release_data)`: one field at a time, each from the object or
        its default. */
    constructor (data: Entry)
      ensures State() == TweakFromEntry(data)
    {
      name := GetOr(data.name, "");
      description := GetOr(data.description, "");
      extractAll := GetOr(data.extractAll, false);
      gitUrl := GetOr(data.gitUrl, "");
      directUrl := GetOr(data.directUrl, "");
      dllName := GetOr(data.dllName, "");
      zip := GetOr(data.zip, true);
      zipName := GetOr(data.zipName, "");
      release := GetOr(data.release, true);
      defaultEnabled := GetOr(data.defaultEnabled, true);
      hasUpdate := false;
      downloadUrl := "";
      newVersion := "";
    }

    /** The `if` both branches of `check_update` share: the tweak is up to
        date iff `candidate` is the recorded version and the DLL is present;
        otherwise it has an update, to version `candidate`. */
    method Decide(candidate: string, record: map<string, string>, present: set<string>, path: string)
      modifies this
      ensures State() == Decided(old(State()), candidate, record, present, path)
    {
      var installed := if name in record then record[name] else "";
      if candidate == installed && Join(path, dllName) in present {
        hasUpdate := false;
      } else {
        newVersion := candidate;
        hasUpdate := true;
      }
    }

    /** `check_update`: decide `has_update` (setting `new_version` when there
        is one) and, for a release tweak, pick the download URL. `query` is
        what listing the repository's releases gives. */
    method CheckUpdate(config: Config, fs: FileSystem, query: ReleaseQuery) returns (r: Result<bool>)
      modifies this
      ensures (r, State()) == CheckedTweak(old(State()), config.tweaks, fs.present, config.turtlePath, query)
    {
      if directUrl != "" {
        Decide(LastSegment(directUrl), config.tweaks, fs.present, config.turtlePath);
      } else if release {
        if query.QueryFailed? {
          return Err(query.error);
        }
        if query.releases == [] {
          return Err(NoReleaseError);
        }
        var latest := query.releases[0];
        Decide(latest.tag, config.tweaks, fs.present, config.turtlePath);
        downloadUrl := ScanAssets(latest.assets, zip, zipName, dllName, downloadUrl);
      }
      return Ok(hasUpdate);
    }

    /** `install`: fetch and place the tweak and record its version. `fetch`
        is what downloading the direct URL or the release asset (and opening
        the archive) gives. */
    method Install(config: Config, fs: FileSystem, fetch: Fetch) returns (ok: bool, messages: Messages)
      modifies config, fs
      ensures InstallOutcome(ok, messages, config.tweaks, fs.present)
        == InstalledTweak(State(), old(config.tweaks), old(fs.present), old(config.turtlePath), fetch)
      ensures config.turtlePath == old(config.turtlePath)
    {
      var path := config.turtlePath;
      if directUrl != "" {
        if !hasUpdate {
          return true, MessageList([AlreadyLatest(name)]);
        }
        if fetch.Failed? {
          return false, MessageList([fetch.error]);
        }
        var lines := [];
        if zip {
          if fetch.Interrupted? {
            fs.present := fs.present + {Join(path, dllName)};
            return false, MessageList([fetch.error]);
          }
          if dllName !in fetch.members {
            return false, MessageList([MissingMember(dllName)]);
          }
          fs.present := fs.present + {Join(path, dllName)};
          lines := lines + [DirectInstalled(name)];
        } else if fetch.Interrupted? {
          // the raw download went to a temporary file
          return false, MessageList([fetch.error]);
        }
        config.tweaks := config.tweaks[name := LastSegment(directUrl)];
        return true, MessageList(lines);
      } else if release {
        if hasUpdate && downloadUrl != "" {
          if fetch.Failed? {
            return false, MessageText(ReleaseFailed(name, newVersion, fetch.error));
          }
          if zip {
            if extractAll {
              if fetch.Interrupted? {
                fs.present := fs.present + ExtractedPaths(path, fetch.written);
                return false, MessageText(ReleaseFailed(name, newVersion, fetch.error));
              }
              fs.present := fs.present + ExtractedPaths(path, fetch.members);
            } else {
              if fetch.Interrupted? {
                fs.present := fs.present + {Join(path, dllName)};
                return false, MessageText(ReleaseFailed(name, newVersion, fetch.error));
              }
              if dllName !in fetch.members {
                return false, MessageText(ReleaseFailed(name, newVersion, MissingMember(dllName)));
              }
              fs.present := fs.present + {Join(path, dllName)};
            }
            config.tweaks := config.tweaks[name := newVersion];
          } else {
            fs.present := fs.present + {Join(path, dllName)};
            if fetch.Interrupted? {
              return false, MessageText(ReleaseFailed(name, newVersion, fetch.error));
            }
            config.tweaks := config.tweaks[name := newVersion];
          }
          return true, MessageList([ReleaseInstalled(name, newVersion)]);
        }
      }
      return true, MessageList([]);
    }
  }

  // ----- module-level operations -----

  /** `load_tweaks_from_json`: one new tweak per object under `"tweaks"`, in
      order; none when the document has no such key. */
  method LoadTweaksFromJson(data: Document) returns (tweaks: seq<Tweak>)
    ensures "tweaks" !in data ==> tweaks == []
    ensures "tweaks" in data ==> |tweaks| == |data["tweaks"]|
    ensures forall i :: 0 <= i < |tweaks| ==>
      fresh(tweaks[i]) && tweaks[i].State() == TweakFromEntry(data["tweaks"][i])
    ensures forall i, j :: 0 <= i < j < |tweaks| ==> tweaks[i] != tweaks[j]
  {
    tweaks := [];
    if "tweaks" in data {
      var entries := data["tweaks"];
      var k := 0;
      while k < |entries|
        invariant 0 <= k <= |entries| && |tweaks| == k
        invariant forall i :: 0 <= i < k ==>
          fresh(tweaks[i]) && tweaks[i].State() == TweakFromEntry(entries[i])
        invariant forall i, j :: 0 <= i < j < k ==> tweaks[i] != tweaks[j]
      {
        var tweak := new Tweak(entries[k]);
        tweaks := tweaks + [tweak];
        k := k + 1;
      }
    }
  }

  /** `update_dll_txt`: the lines written to `dlls.txt` (each followed by a
      newline), which replace its contents; `writable` says whether opening it
      for writing is permitted (`None`: nothing is written). */
  method UpdateDllTxt(tweaks: seq<Tweak>, writable: bool)
    returns (ok: bool, message: string, written: Option<seq<string>>)
    ensures !writable ==> !ok && message == DllListDenied && written == None
    ensures writable ==> ok && message == DllListWritten && written.Some?
    ensures written.Some? ==>
      |written.value| == |tweaks| + 1 && written.value[0] == DllListHeader
      && forall i :: 0 <= i < |tweaks| ==> written.value[i + 1] == tweaks[i].dllName
  {
    if !writable {
      return false, DllListDenied, None;
    }
    var lines := [DllListHeader];
    for k := 0 to |tweaks|
      invariant |lines| == k + 1 && lines[0] == DllListHeader
      invariant forall i :: 0 <= i < k ==> lines[i + 1] == tweaks[i].dllName
    {
      lines := lines + [tweaks[k].dllName];
    }
    return true, DllListWritten, Some(lines);
  }

  // ----- check and install together -----

  /** After a check that finds an update, an install whose download brings
      the DLL (a direct source must be an archive for that) makes the next
      check, against the same releases, find the tweak up to date. */
  lemma InstallSettlesCheck(t: TweakState, record: map<string, string>, present: set<string>,
                            path: string, query: ReleaseQuery, fetch: Fetch)
    requires t.directUrl != "" || t.release
    requires CheckedTweak(t, record, present, path, query).0 == Ok(true)
    requires t.directUrl == "" ==> CheckedTweak(t, record, present, path, query).1.downloadUrl != ""
    requires fetch.Fetched? && (t.zip ==> t.dllName in fetch.members)
    requires t.directUrl != "" ==> t.zip
    ensures var t1 := CheckedTweak(t, record, present, path, query).1;
      var installed := InstalledTweak(t1, record, present, path, fetch);
      installed.ok && CheckedTweak(t1, installed.record, installed.present, path, query).0 == Ok(false)
  {
    var t1 := CheckedTweak(t, record, present, path, query).1;
    var installed := InstalledTweak(t1, record, present, path, fetch);
    assert Join(path, t1.dllName) in installed.present;
  }

  /** A direct tweak that is not an archive is recorded as installed, yet no
      DLL is placed, so every later check still finds an update. */
  lemma DirectRawInstallKeepsUpdate(t: TweakState, record: map<string, string>, present: set<string>,
                                    path: string, query: ReleaseQuery, members: set<string>)
    requires t.directUrl != "" && !t.zip && t.hasUpdate && Join(path, t.dllName) !in present
    ensures var installed := InstalledTweak(t, record, present, path, Fetched(members));
      installed.ok && installed.record == record[t.name := LastSegment(t.directUrl)]
      && Join(path, t.dllName) !in installed.present
      && CheckedTweak(t, installed.record, installed.present, path, query).0 == Ok(true)
  {
  }

  /** A check against a release that offers no matching asset keeps the
      download URL an earlier check found; the install that follows then
      fetches that old asset and records the new release's tag. */
  lemma StaleUrlInstall(t: TweakState, record: map<string, string>, present: set<string>,
                        path: string, tag: string, fetch: Fetch)
    requires t.directUrl == "" && t.release && !t.zip && t.downloadUrl != ""
    requires InstalledVersion(record, t.name) != tag
    requires fetch.Fetched?
    ensures var checked := CheckedTweak(t, record, present, path, Listed([Release(tag, [])]));
      checked.0 == Ok(true) && checked.1.downloadUrl == t.downloadUrl && checked.1.newVersion == tag
      && var installed := InstalledTweak(checked.1, record, present, path, fetch);
         installed.ok && installed.record == record[t.name := tag]
  {
  }

  /** Installing again with the same download leaves the record and the
      present paths as the first successful install left them. */
  lemma InstallRepeatKeepsRecord(t: TweakState, record: map<string, string>, present: set<string>,
                                 path: string, fetch: Fetch)
    requires InstalledTweak(t, record, present, path, fetch).ok
    ensures var once := InstalledTweak(t, record, present, path, fetch);
      var twice := InstalledTweak(t, once.record, once.present, path, fetch);
      twice.ok && twice.record == once.record && twice.present == once.present
  {
    if t.directUrl != "" && t.hasUpdate {
      DirectRepeat(t, record, present, path, fetch);
    } else if t.directUrl == "" && t.release && t.hasUpdate && t.downloadUrl != "" {
      ReleaseRepeat(t, record, present, path, fetch);
    }
  }

  /** The direct branch of `InstallRepeatKeepsRecord`. */
  lemma DirectRepeat(t: TweakState, record: map<string, string>, present: set<string>,
                     path: string, fetch: Fetch)
    requires t.directUrl != "" && t.hasUpdate
    requires InstalledDirect(t, record, present, path, fetch).ok
    ensures var once := InstalledDirect(t, record, present, path, fetch);
      var twice := InstalledDirect(t, once.record, once.present, path, fetch);
      twice.ok && twice.record == once.record && twice.present == once.present
  {
    var once := InstalledDirect(t, record, present, path, fetch);
    assert once.record[t.name := LastSegment(t.directUrl)] == once.record;
    assert t.zip ==> once.present + {Join(path, t.dllName)} == once.present;
  }

  /** The release branch of `InstallRepeatKeepsRecord`. */
  lemma ReleaseRepeat(t: TweakState, record: map<string, string>, present: set<string>,
                      path: string, fetch: Fetch)
    requires t.hasUpdate && t.downloadUrl != ""
    requires InstalledRelease(t, record, present, path, fetch).ok
    ensures var once := InstalledRelease(t, record, present, path, fetch);
      var twice := InstalledRelease(t, once.record, once.present, path, fetch);
      twice.ok && twice.record == once.record && twice.present == once.present
  {
    var once := InstalledRelease(t, record, present, path, fetch);
    assert once.record[t.name := t.newVersion] == once.record;
    assert once.present + ReleaseTargets(t, path, fetch.members) == once.present;
  }
}
