# Koopa add-on fetchers in Dafny

Koopa installs and updates optional add-ons for a TurtleWoW game directory:
*tweaks* (client DLLs listed in `dlls.txt`, fetched from a direct link or
from the newest release of a hosted repository) and *mods* (archive files
placed under a folder of the game directory, from direct links only). It
tracks the installed version of each tweak in a version record (the
`[tweaks]` section of its configuration) and also merges a fixed table of
settings into the game's `WTF/Config.wtf`.

This project models `fetchers/tweaks.py` and `fetchers/mods.py`:

- `wrappers.dfy` (`Wrappers`): `Option`, `Result` and `GetOr`.
- `text.dfy` (`Text`): the string operations the code relies on. These are
  `str.startswith`, `str.rstrip`, the last `/`-segment of a URL
  (`url.split("/")[-1]`) and joining paths with `/`.
- `host.dfy` (`Host`): what the fetchers see of their surroundings.
  - `Config` holds the game directory `turtle_path` and the version record, a `map<string, string>`.
  - `FileSystem` holds the set of paths present on disk.
  - `Fetch` is the outcome of a download, optionally followed by opening and extracting the archive. It is one of three things:
    - `Failed`: an exception raised before anything was written into the game directory.
    - `Fetched`: the download arrived, with the archive's member names.
    - `Interrupted`: an exception raised while a file was being written into the game directory. This happens to a raw download streamed straight to its target, or to an extraction that breaks off. The target is left behind.
  - `Messages` is what an operation returns: a list of messages or one bare string.
- `manifest.dfy` (`Manifest`): a manifest object with every key optional.
- `tweaks.dfy` (`Tweaks`): the `Tweak` class and its `check_update` and `install`, plus `load_tweaks_from_json` and `update_dll_txt`. Each method is tied by its `ensures` to a pure function of the state before the call (`CheckedTweak`, `InstalledTweak`); the promised properties are proved about those functions.
- `mods.dfy` (`Mods`): the `Mod` class, `load_mods_from_json`, and the functions `CheckedMod` and `InstalledMod` behind the methods.
- `settings.dfy` (`WtfSettings`): `set_wtf_config` with its `WTF_CONFIG` table.
  - `MergeSettings` runs `set_wtf_config`'s nested replace-or-append loops and is proved equal to the fold `Merged`.
  - For a *separated* key table, one where no setting's line starts with another setting's key, `Merged` is proved equal to a direct description, `MergedRef` (`MergedIsOverlay`). In that description each key's first matching line is replaced in place, every other line is kept, and the unmatched keys are appended in table order. `WtfConfigSeparated` proves that `WTF_CONFIG` is separated.
  - From these follow the length accounting, the preservation of other lines and the idempotence of the merge.

Quirks of the code that the model keeps:

- The asset loop in `check_update` has no `break`, so when several assets
  carry the expected name, the URL of the *last* one is kept.
- `set_wtf_config` replaces only the *first* line starting with a key. Two
  lines for the same key both survive a merge
  (`WtfSettings.DuplicateKeyLinesSurvive`).
- A release tweak with no update, or whose download URL is still empty (no
  check so far matched an asset), installs nothing and returns success with
  an empty message list.
- A check that matches no asset keeps the download URL an earlier check
  found, so the install then downloads that old asset and records the new
  tag (`Tweaks.StaleUrlInstall`).
- A direct tweak that is not an archive records its version but places no
  file (`Tweaks.DirectRawInstallKeepsUpdate`).
- An install whose download or extraction breaks off after creating its
  target returns failure but leaves the partial file. For a mod, the next
  check then finds nothing to install (`Mods.InterruptedModLooksInstalled`).

## Model

| member | source | states |
|---|---|---|
| WtfSettings.SetWtfConfig | fetchers/tweaks.py:207-233 | A missing file gives a one-item list with the "Could not find Config.wtf" message; a read permission error gives a one-item list with its message. Neither writes anything. A write permission error gives failure with a bare string and writes nothing. Otherwise the lines written are the right-stripped file lines merged with `WTF_CONFIG` by `MergeSettings`, and the message is "Wrote some settings". |
| WtfSettings.MergeSettings | fetchers/tweaks.py:218-224 | The nested search-and-replace-or-append loops produce exactly `Merged` of the lines and the key table. |
| WtfSettings.SettingLine | fetchers/tweaks.py:221 | The line `KEY "value"` written for a setting starts with its key, so a later merge finds it. |
| WtfSettings.SettingLines | fetchers/tweaks.py:224 | One appended line per unmatched setting, in order. |
| WtfSettings.FirstMatch | fetchers/tweaks.py:219-222 | The index the search loop stops at: the first line that starts with the key, with no earlier line doing so; `None` when no line does. |
| WtfSettings.FirstMatchAgrees | fetchers/tweaks.py:219-222 | Two line lists that agree on which lines start with a key give the same first match. |
| WtfSettings.MergeOne | fetchers/tweaks.py:219-224 | Replacing or appending one setting grows the list by at most one line. |
| WtfSettings.Merged | fetchers/tweaks.py:218-224 | Merging a table adds at most one line per setting. |
| WtfSettings.Replacement | fetchers/tweaks.py:219-222 | A line is replaced exactly when it is the first match of some key of the table. |
| WtfSettings.Unmatched | fetchers/tweaks.py:223-224 | The settings appended are exactly those whose key no original line starts with. |
| WtfSettings.MergedRefAt | fetchers/tweaks.py:218-224 | In the direct description, an original line is its replacement or itself; a line past the end is an unmatched setting's line. |
| WtfSettings.ApartKeysExclusive | fetchers/tweaks.py:219-220 | A line starting with one key of a separated pair does not start with the other. |
| WtfSettings.SeparatedInit | fetchers/tweaks.py:19-28 | Separation of the key table is kept by its prefixes. |
| WtfSettings.OverlayHidesKey | fetchers/tweaks.py:219-224 | Lines written for settings whose keys are apart from `e` never start with `e`'s key. So `e`'s first match is the same in the merged list as in the original. |
| WtfSettings.UnmatchedStep | fetchers/tweaks.py:223-224 | Adding a setting to the table extends the unmatched list by it exactly when its key has no match. |
| WtfSettings.ReplacementStep | fetchers/tweaks.py:221 | Adding a setting to the table changes only the replacement of its own first match. |
| WtfSettings.OverlayStep | fetchers/tweaks.py:219-224 | One more replace-or-append step on the direct description gives the direct description of the longer table. |
| WtfSettings.MergedIsOverlay | fetchers/tweaks.py:218-224 | For a separated key table, the step-by-step merge equals the direct description: first matches replaced in place, all other lines kept in order, unmatched keys appended in table order. |
| WtfSettings.WtfConfigSeparated | fetchers/tweaks.py:19-28 | No `WTF_CONFIG` line starts with another entry's key, including the `NP_*QueueWindowMs` keys. |
| WtfSettings.MergedLength | fetchers/tweaks.py:218-224 | The output length is the input length plus the number of unmatched keys, and the tail is exactly those keys' lines. |
| WtfSettings.MergedLineAt | fetchers/tweaks.py:219-222 | Each original line is either replaced by the setting of the key it first matches or kept unchanged. |
| WtfSettings.MergeOnePlacesKey | fetchers/tweaks.py:219-224 | After one step, the first line with the key is that setting's line. |
| WtfSettings.MergeOneKeepsKeyLine | fetchers/tweaks.py:219-224 | A later step for a separated key does not disturb an earlier key's line. |
| WtfSettings.MergedPlacesKeys | fetchers/tweaks.py:218-224 | After a merge, every key's first matching line holds its configured value. |
| WtfSettings.MergedFixedPoint | fetchers/tweaks.py:218-224 | A list whose key lines already hold their settings is left unchanged by a merge. |
| WtfSettings.MergedIdempotent | fetchers/tweaks.py:218-224 | Merging twice gives the same lines as merging once. |
| WtfSettings.Stripped | fetchers/tweaks.py:212 | One line per line read, each right-stripped. |
| WtfSettings.Terminated | fetchers/tweaks.py:228-229 | Each line is written followed by a newline. |
| WtfSettings.ConfigAfterMerge | fetchers/tweaks.py:212-224 | The lines written number the lines read plus one per setting whose key no line read starts with, and end with exactly those settings' lines in table order. |
| WtfSettings.RereadMergeIdempotent | fetchers/tweaks.py:212-229 | For a separated table, lines merged, written and read back are left unchanged by a second merge. |
| WtfSettings.RStripTerminated | fetchers/tweaks.py:210-229 | Reading back a written line that ends without whitespace gives that line. |
| WtfSettings.MergedTrimmed | fetchers/tweaks.py:212-224 | Merging keeps every line free of trailing whitespace. |
| WtfSettings.ConfigAfterMergeIdempotent | fetchers/tweaks.py:207-233 | Running `set_wtf_config` on the file it wrote writes the same lines again. |
| WtfSettings.DuplicateKeyLinesSurvive | fetchers/tweaks.py:219-222 | Two `SET farclip` lines both still start with that key after a merge: the first becomes the configured `SET farclip "777"` line and the second is kept as it was. |
| Text.StartsWithExtend | fetchers/tweaks.py:220 | Appending text keeps a prefix match. |
| Text.StartsWithSelf | fetchers/tweaks.py:220 | A string starts with each of its prefixes. |
| Text.PrefixesComparable | fetchers/tweaks.py:220 | Two keys that prefix the same line are prefixes of one another. |
| Text.NotStartsWithAt | fetchers/tweaks.py:220 | A mismatch inside the key rules out a prefix match. |
| Text.StartsWithCharwise | fetchers/tweaks.py:220 | `startswith` holds iff the prefix is no longer than the line and agrees with it character by character. |
| Text.RStrip | fetchers/tweaks.py:212 | The result is a prefix of the line, does not end in whitespace, and only whitespace was removed. |
| Text.LastSegment | fetchers/tweaks.py:68 | The segment holds no `/`, ends the URL, and is the whole URL or preceded by `/`. |
| Text.Join | fetchers/mods.py:33 | `Path(a) / b`: an empty part adds nothing, an empty base gives the part, otherwise the parts are joined by one `/`. |
| Tweaks.TweakFromEntry | fetchers/tweaks.py:32-57 | Each field comes from the object when present. Otherwise `zip`, `release` and `default_enabled` are true, `extractall` false and the strings empty. No update is known yet. |
| Tweaks.Tweak.constructor | fetchers/tweaks.py:47-57 | The new tweak's fields are `TweakFromEntry` of the manifest object. |
| Tweaks.LoadTweaksFromJson | fetchers/tweaks.py:198-204 | No `"tweaks"` key gives no tweaks. Otherwise there is one new, distinct tweak per object, in order, each built by the constructor. |
| Tweaks.InstalledVersion | fetchers/tweaks.py:62-65 | The recorded version, or `""` without a record. |
| Tweaks.ExpectedAsset | fetchers/tweaks.py:86-91 | The asset name looked for is `zip_name` for an archive and `dll_name` otherwise. |
| Tweaks.Candidate | fetchers/tweaks.py:67-79 | A direct URL gives its last segment. Otherwise a release tweak gives the newest tag, present exactly when the lookup listed at least one release. A tweak with neither source gives none. |
| Tweaks.Decided | fetchers/tweaks.py:67-83 | Up to date iff the candidate equals the recorded version and `path/dll_name` exists. Otherwise there is an update and `new_version` is the candidate. No other field changes. |
| Tweaks.LastMatch | fetchers/tweaks.py:85-91 | The index found names the expected asset and no later asset does; `None` means no asset does. |
| Tweaks.LastMatchUrl | fetchers/tweaks.py:85-91 | No asset named as expected leaves the URL unchanged. Otherwise the URL is that of the last asset named as expected. |
| Tweaks.ScanAssets | fetchers/tweaks.py:85-91 | The loop over the assets yields `LastMatchUrl` with the archive name for a zipped tweak and the DLL name otherwise. |
| Tweaks.CheckedTweak | fetchers/tweaks.py:59-93 | The result is the new `has_update`. A failed lookup or an empty release list raises and changes nothing. With a candidate, the decision is `Decided`. Asset matching runs for release tweaks whatever was decided. With neither source, nothing changes and the old flag is returned. |
| Tweaks.Tweak.Decide | fetchers/tweaks.py:67-83 | The shared `if` updates the fields as `Decided` says. |
| Tweaks.Tweak.CheckUpdate | fetchers/tweaks.py:59-93 | The returned result and the tweak's new fields are `CheckedTweak` of the old fields, the record, the present paths and the release query. |
| Tweaks.ExtractedPaths | fetchers/tweaks.py:121 | `extractall` places exactly the archive's members under the game directory. |
| Tweaks.CommittedVersion | fetchers/tweaks.py:109 | A direct tweak records the URL's whole last segment (`split("/")[-1]`): it holds no `/`, ends the URL, and is the whole URL or follows a `/`. A release tweak records `new_version`. |
| Tweaks.ReleaseTargets | fetchers/tweaks.py:120-132 | A release install writes every member for `extractall`, otherwise just the DLL. |
| Tweaks.InstalledDirect | fetchers/tweaks.py:99-111 | Success iff the download succeeded and, for an archive, it held the DLL. On success the record gets the URL's last segment. An archive's DLL is placed with one message; a raw download places nothing and gives no message. A failure leaves the record unchanged and returns the exception text (or the missing-member text) as a one-item list. An archive whose extraction breaks off leaves its DLL; no other failure places anything. |
| Tweaks.InstalledRelease | fetchers/tweaks.py:113-138 | Success iff the download succeeded and, when one DLL is extracted, the archive held it. On success the record gets `new_version`, one message is returned, and `ReleaseTargets` are placed. A failure leaves the record unchanged and returns the bare string "Failed to download NAME (version V): ERROR". A transfer that breaks off leaves what it had started writing; no other failure places anything. |
| Tweaks.InstalledTweak | fetchers/tweaks.py:95-140 | The record changes only by committing this tweak's version after a successful download, and a failure leaves it unchanged. Present paths only grow, and a failure adds some only when the transfer broke off while writing into the game directory. A direct tweak with no update gives success with "already the latest version". A release tweak with no update or no URL, or a tweak with no source, gives `(True, [])`. |
| Tweaks.Tweak.Install | fetchers/tweaks.py:95-140 | The result, the new record and the present paths are `InstalledTweak` of the tweak and the old state. `turtle_path` is unchanged. |
| Tweaks.UpdateDllTxt | fetchers/tweaks.py:186-195 | A permission error gives failure with its message and nothing written. Otherwise "Success", with `twdiscord.dll` first and then each tweak's `dll_name`, in order. |
| Tweaks.InstallSettlesCheck | fetchers/tweaks.py:59-140 | After a check finds an update, an install whose download brings the DLL succeeds, and the next check finds the tweak up to date. |
| Tweaks.DirectRawInstallKeepsUpdate | fetchers/tweaks.py:99-111 | A direct non-archive install records the version but places no DLL, so the next check still reports an update. |
| Tweaks.StaleUrlInstall | fetchers/tweaks.py:85-138 | When the newest release offers no matching asset, the check still reports an update and keeps the old download URL. The install then succeeds and records the new tag. |
| Tweaks.InstallRepeatKeepsRecord | fetchers/tweaks.py:95-140 | A second install with the same download leaves the record and the present paths as the first left them. |
| Tweaks.DirectRepeat | fetchers/tweaks.py:99-111 | A repeated successful direct install changes neither the record nor the present paths. |
| Tweaks.ReleaseRepeat | fetchers/tweaks.py:113-138 | A repeated successful release install changes neither the record nor the present paths. |
| Mods.ModFromEntry | fetchers/mods.py:8-29 | Each field comes from the object when present. Otherwise `zip` and `default_enabled` are true and the strings empty. `release` and `zip_name` are never read and stay false and `""`. |
| Mods.Mod.constructor | fetchers/mods.py:21-29 | The new mod's fields are `ModFromEntry` of the manifest object. |
| Mods.LoadModsFromJson | fetchers/mods.py:62-68 | No `"mods"` key gives no mods. Otherwise there is one new, distinct mod per object, in order, each built by the constructor. |
| Mods.CheckedMod | fetchers/mods.py:31-37 | `has_update` is true iff `path/dest_path/mpq_name` is absent; no other field changes and no record is consulted. |
| Mods.ModTarget | fetchers/mods.py:33 | The mod's file ends with `mpq_name` and, with every part non-empty, is `path/dest_path/mpq_name`. |
| Mods.Mod.CheckUpdate | fetchers/mods.py:31-37 | The mod's new fields are `CheckedMod` of the old ones, and the flag is returned. |
| Mods.InstalledMod | fetchers/mods.py:39-57 | No direct link: refused with the "Only direct links" message, and nothing changes. Success iff the download succeeded and, for an archive, it held `mpq_name`. On success, `has_update` is cleared, one success message is returned and the file is placed at `path/dest_path/mpq_name`. On failure, `has_update` is kept and the exception text (or, for an archive lacking `mpq_name`, the missing-member text) comes back as a one-item list. A transfer that breaks off leaves the target file; no other failure places anything. |
| Mods.Mod.Install | fetchers/mods.py:39-57 | The result, `has_update` and the present paths are `InstalledMod` of the old state; no other field of the mod changes and the version record is untouched. |
| Mods.InstallSettlesModCheck | fetchers/mods.py:31-57 | After a successful install, the next check finds nothing to install. |
| Mods.InterruptedModLooksInstalled | fetchers/mods.py:31-57 | A transfer that breaks off fails, yet the next check finds nothing to install. |

## Left out

- `main.py` (the Qt window, event loop, logging, launching the game, reading and writing the configuration file) is not part of this model. That includes its rule of installing only checked items that have an update (main.py:338-347): `install` is modelled for every state.
- `apply_vanilla_tweaks` (fetchers/tweaks.py:143-183) runs an external patcher process and decodes its output; it is not modelled.
- The hosted-repository client (fetchers/tweaks.py:13-17, 75-77) becomes the input `ReleaseQuery`: the releases newest first, or the text of the exception the lookup raised.
- Downloads, temporary files and archive reading become the input `Fetch`. Which members an `extractall` that breaks off had started writing is part of that input. Temporary files are never removed by the code, so no cleanup is modelled. Extracting a member the archive lacks fails with the `KeyError` text, as `zipfile` does.
- Only the messages' contents are modelled for exceptions: the code returns the exception object itself in a list (fetchers/tweaks.py:111, fetchers/mods.py:55), and the model returns its text.
- Exceptions the code does not catch are not modelled, such as an `OSError` other than a permission error when writing `dlls.txt` or `Config.wtf`. The one exception modelled as escaping is a failed or empty release lookup in `check_update`, returned as `Err` with nothing changed.
- InstalledDirect: does not model the `ValueError` that `configparser`'s default interpolation raises when the recorded version holds a lone `%` (a direct URL ending in `Foo%20v2.zip`). The code then returns failure after the DLL was extracted and leaves the record unchanged; the model commits the version and succeeds.
- InstalledRelease: does not model the same `ValueError` for a release tag holding a lone `%`. The code then returns failure after the file was placed; the model commits the tag and succeeds.
- The configuration's missing `[tweaks]` section and `configparser`'s lower-casing of option names are not modelled. The version record is a plain map keyed by the tweak's name.
- Text.Join: models `pathlib` joining only by dropping empty parts; absolute parts, `..` and separator normalisation are not modelled.
- Text.RStrip: removes only the six ASCII whitespace characters; Python's `str.rstrip` also removes `\x1c`–`\x1f` and Unicode spaces.
- Manifest values of the wrong JSON type are not modelled; each key is either absent or of the type the code expects.
- The class attribute `version` is never read or written by the code and is not modelled.
- The files are modelled by their lines, not their bytes: `Config.wtf` is read as the lines `readlines()` returns and written as `Terminated` lines, and `dlls.txt` as its lines, each followed by a newline.
- Tweaks.Tweak.Decide and Tweaks.ScanAssets: these are the two halves of `check_update`'s body, written as helper methods; the code has them inline.
