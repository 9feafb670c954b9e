/** `fetchers/mods.py`: mods (archive files placed under a destination
    folder of the game directory), whose presence alone decides whether they
    need installing; only direct links are supported. */
module Mods {
  import opened Wrappers
  import opened Text
  import opened Host
  import opened Manifest

  /** Every field of a mod object. */
  datatype ModState = ModState(
    name: string,
    description: string,
    destPath: string,
    gitUrl: string,
    directUrl: string,
    mpqName: string,
    zip: bool,
    zipName: string,
    release: bool,
    defaultEnabled: bool,
    hasUpdate: bool)

  /** What an install returns, with the mod's `has_update` flag and the
      present paths afterwards. */
  datatype ModInstallOutcome = ModInstallOutcome(
    ok: bool, messages: Messages, hasUpdate: bool, present: set<string>)

  function ModInstalled(name: string): string
  {
    "Successfully downloaded and installed " + name
  }

  function DirectOnly(name: string): string
  {
    name + " was not installed. (Only direct links are supported for mods)"
  }

  /** A mod built from a manifest object: `zip` and `default_enabled`
      default to true and the strings to empty; `release` and `zip_name` are
      never read and keep their class defaults, false and empty. */
  function ModFromEntry(e: Entry): (m: ModState)
    ensures m.zip <==> e.zip != Some(false)
    ensures m.defaultEnabled <==> e.defaultEnabled != Some(false)
    ensures !m.release && m.zipName == "" && !m.hasUpdate
    ensures e.name.None? ==> m.name == ""
    ensures e.name.Some? ==> m.name == e.name.value
    ensures e.description.None? ==> m.description == ""
    ensures e.description.Some? ==> m.description == e.description.value
    ensures e.destPath.None? ==> m.destPath == ""
    ensures e.destPath.Some? ==> m.destPath == e.destPath.value
    ensures e.gitUrl.None? ==> m.gitUrl == ""
    ensures e.gitUrl.Some? ==> m.gitUrl == e.gitUrl.value
    ensures e.directUrl.None? ==> m.directUrl == ""
    ensures e.directUrl.Some? ==> m.directUrl == e.directUrl.value
    ensures e.mpqName.None? ==> m.mpqName == ""
    ensures e.mpqName.Some? ==> m.mpqName == e.mpqName.value
  {
    ModState(
      name := GetOr(e.name, ""),
      description := GetOr(e.description, ""),
      destPath := GetOr(e.destPath, ""),
      gitUrl := GetOr(e.gitUrl, ""),
      directUrl := GetOr(e.directUrl, ""),
      mpqName := GetOr(e.mpqName, ""),
      zip := GetOr(e.zip, true),
      zipName := "",
      release := false,
      defaultEnabled := GetOr(e.defaultEnabled, true),
      hasUpdate := false)
  }

  /** Where the mod's file lives: `path / dest_path / mpq_name`. */
  function ModTarget(m: ModState, path: string): (target: string)
    // the target ends with the file name, under the destination folder
    ensures m.mpqName != "" ==>
      |m.mpqName| <= |target| && target[|target| - |m.mpqName|..] == m.mpqName
    ensures path != "" && m.destPath != "" && m.mpqName != "" ==>
      target == path + "/" + m.destPath + "/" + m.mpqName
  {
    Join(Join(path, m.destPath), m.mpqName)
  }

  /** `Mod.check_update`: the mod needs installing iff its file is absent;
      no version record is consulted and nothing else changes. */
  function CheckedMod(m: ModState, present: set<string>, path: string): (r: ModState)
    ensures r == m.(hasUpdate := r.hasUpdate)
    ensures r.hasUpdate <==> ModTarget(m, path) !in present
  {
    m.(hasUpdate := ModTarget(m, path) !in present)
  }

  /** `Mod.install`: `fetch` is what downloading the direct link (and, for an
      archive, opening and extracting it) gave. A raw download is streamed
      straight to the target, and an extraction writes it too, so a transfer
      that breaks off leaves the target behind. */
  function InstalledMod(m: ModState, present: set<string>, path: string, fetch: Fetch): (r: ModInstallOutcome)
    // no direct link: refused, nothing changes
    ensures m.directUrl == "" ==>
      r == ModInstallOutcome(false, MessageList([DirectOnly(m.name)]), m.hasUpdate, present)
    // success iff there is a link, the download succeeded and an archive held the file
    ensures r.ok <==> m.directUrl != "" && fetch.Fetched? && (m.zip ==> m.mpqName in fetch.members)
    ensures r.ok ==> !r.hasUpdate && r.messages == MessageList([ModInstalled(m.name)])
                     && r.present == present + {ModTarget(m, path)}
    ensures !r.ok ==> r.hasUpdate == m.hasUpdate && r.messages.MessageList? && |r.messages.items| == 1
    ensures m.directUrl != "" && !r.ok ==>
      r.messages == MessageList([if fetch.Fetched? then MissingMember(m.mpqName) else fetch.error])
    ensures !r.ok && !(m.directUrl != "" && fetch.Interrupted?) ==> r.present == present
    // a transfer that breaks off leaves the (partial) target in place
    ensures m.directUrl != "" && fetch.Interrupted? ==> r.present == present + {ModTarget(m, path)}
  {
    if m.directUrl == "" then
      ModInstallOutcome(false, MessageList([DirectOnly(m.name)]), m.hasUpdate, present)
    else
      match fetch
      case Failed(e) => ModInstallOutcome(false, MessageList([e]), m.hasUpdate, present)
      case Interrupted(e, _) =>
        ModInstallOutcome(false, MessageList([e]), m.hasUpdate, present + {ModTarget(m, path)})
      case Fetched(members) =>
        var folder := Join(path, m.destPath);
        if m.zip && m.mpqName !in members then
          ModInstallOutcome(false, MessageList([MissingMember(m.mpqName)]), m.hasUpdate, present)
        else
          ModInstallOutcome(true, MessageList([ModInstalled(m.name)]), false,
                            present + {Join(folder, m.mpqName)})
  }

  /** A successful install makes the next check find nothing to install. */
  lemma InstallSettlesModCheck(m: ModState, present: set<string>, path: string, fetch: Fetch)
    requires InstalledMod(m, present, path, fetch).ok
    ensures !CheckedMod(m, InstalledMod(m, present, path, fetch).present, path).hasUpdate
  {
  }

  /** A transfer that breaks off fails, yet leaves the target in place, so
      the next check finds nothing to install. */
  lemma InterruptedModLooksInstalled(m: ModState, present: set<string>, path: string,
                                     error: string, written: set<string>)
    requires m.directUrl != ""
    ensures var r := InstalledMod(m, present, path, Interrupted(error, written));
      !r.ok && !CheckedMod(m, r.present, path).hasUpdate
  {
  }

  class Mod {
    var name: string
    var description: string
    var destPath: string
    var gitUrl: string
    var directUrl: string
    var mpqName: string
    var zip: bool
    var zipName: string
    var release: bool
    var defaultEnabled: bool
    var hasUpdate: bool

    function State(): ModState
      reads this
    {
      ModState(name, description, destPath, gitUrl, directUrl, mpqName, zip, zipName,
               release, defaultEnabled, hasUpdate)
    }

    /** `Mod(release_data)`: one field at a time, each from the object or its
        default; `zip_name`, `release` and `has_update` keep the class's. */
    constructor (data: Entry)
      ensures State() == ModFromEntry(data)
    {
      zipName := "";
      release := false;
      hasUpdate := false;
      name := GetOr(data.name, "");
      description := GetOr(data.description, "");
      destPath := GetOr(data.destPath, "");
      gitUrl := GetOr(data.gitUrl, "");
      directUrl := GetOr(data.directUrl, "");
      mpqName := GetOr(data.mpqName, "");
      zip := GetOr(data.zip, true);
      defaultEnabled := GetOr(data.defaultEnabled, true);
    }

    /** `check_update`: set and return `has_update` from the file's presence. */
    method CheckUpdate(config: Config, fs: FileSystem) returns (r: bool)
      modifies this
      ensures State() == CheckedMod(old(State()), fs.present, config.turtlePath)
      ensures r == hasUpdate
    {
      var path := config.turtlePath;
      if ModTarget(State(), path) in fs.present {
        hasUpdate := false;
      } else {
        hasUpdate := true;
      }
      return hasUpdate;
    }

    /** `install`: download the mod from its direct link into place. The
        version record is neither read nor written. */
    method Install(config: Config, fs: FileSystem, fetch: Fetch) returns (ok: bool, messages: Messages)
      modifies this, fs
      ensures ModInstallOutcome(ok, messages, hasUpdate, fs.present)
        == InstalledMod(old(State()), old(fs.present), config.turtlePath, fetch)
      ensures State() == old(State()).(hasUpdate := hasUpdate)
      ensures config.tweaks == old(config.tweaks)
    {
      var path := config.turtlePath;
      ok := false;
      if directUrl == "" {
        messages := MessageList([DirectOnly(name)]);
      } else if fetch.Failed? {
        messages := MessageList([fetch.error]);
      } else if fetch.Interrupted? {
        fs.present := fs.present + {ModTarget(State(), path)};
        messages := MessageList([fetch.error]);
      } else {
        if zip && mpqName !in fetch.members {
          messages := MessageList([MissingMember(mpqName)]);
        } else {
          // extracted into the folder, or downloaded straight to the same path
          fs.present := fs.present + {ModTarget(State(), path)};
          hasUpdate := false;
          ok, messages := true, MessageList([ModInstalled(name)]);
        }
      }
    }
  }

  /** `load_mods_from_json`: one new mod per object under `"mods"`, in order;
      none when the document has no such key. */
  method LoadModsFromJson(data: Document) returns (mods: seq<Mod>)
    ensures "mods" !in data ==> mods == []
    ensures "mods" in data ==> |mods| == |data["mods"]|
    ensures forall i :: 0 <= i < |mods| ==>
      fresh(mods[i]) && mods[i].State() == ModFromEntry(data["mods"][i])
    ensures forall i, j :: 0 <= i < j < |mods| ==> mods[i] != mods[j]
  {
    mods := [];
    if "mods" in data {
      var entries := data["mods"];
      var k := 0;
      while k < |entries|
        invariant 0 <= k <= |entries| && |mods| == k
        invariant forall i :: 0 <= i < k ==>
          fresh(mods[i]) && mods[i].State() == ModFromEntry(entries[i])
        invariant forall i, j :: 0 <= i < j < k ==> mods[i] != mods[j]
      {
        var mod := new Mod(entries[k]);
        mods := mods + [mod];
        k := k + 1;
      }
    }
  }
}
