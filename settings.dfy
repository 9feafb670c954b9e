/** `set_wtf_config` and its key table: merging the required `SET key "value"`
    lines into the game's `WTF/Config.wtf`. */
module WtfSettings {
  import opened Wrappers
  import opened Text
  import opened Host

  /** A required setting: the key `set_wtf_config` matches lines against, and its value. */
  type Setting = (string, string)

  /** `WTF_CONFIG`, in its declared order. */
  const WtfConfig: seq<Setting> := [
    ("SET scriptMemory", "0"),
    ("SET cameraWaterCollision", "0"),
    ("SET NP_SpellQueueWindowMs", "150"),
    ("SET NP_ChannelQueueWindowMs", "750"),
    ("SET NP_CooldownQueueWindowMs", "150"),
    ("SET UncapSounds", "1"),
    ("SET checkAddonVersion", "0"),
    ("SET farclip", "777")
  ]

  const MissingConfigMessage := "Could not find Config.wtf in TurtleWoW directory, aborting."
  const ReadDeniedMessage := "Permission error when reading from Config.wtf"
  const WriteDeniedMessage := "Permission error when trying to write to Config.wtf"
  const WroteMessage := "Wrote some settings to Config.wtf"

  /** The line written for a setting: `KEY "value"`. */
  function SettingLine(e: Setting): (line: string)
    ensures StartsWith(line, e.0)
  {
    StartsWithSelf(e.0, " \"" + e.1 + "\"");
    e.0 + " \"" + e.1 + "\""
  }

  function SettingLines(u: seq<Setting>): (lines: seq<string>)
    ensures |lines| == |u|
    ensures forall k :: 0 <= k < |u| ==> lines[k] == SettingLine(u[k])
  {
    seq(|u|, k requires 0 <= k < |u| => SettingLine(u[k]))
  }

  /** The index of the first line that starts with `key`, if any. */
  function FirstMatch(lines: seq<string>, key: string): (r: Option<nat>)
    ensures r.Some? ==> r.value < |lines| && StartsWith(lines[r.value], key)
    ensures forall j :: 0 <= j < |lines| && (r.None? || j < r.value) ==> !StartsWith(lines[j], key)
  {
    if lines == [] then None
    else if StartsWith(lines[0], key) then Some(0)
    else match FirstMatch(lines[1..], key)
      case None => None
      case Some(i) => Some(i + 1)
  }

  /** Two line lists that agree, index by index, on which lines start with
      `key` (the longer one's extra lines never do) have the same first match. */
  lemma FirstMatchAgrees(a: seq<string>, b: seq<string>, key: string)
    requires |a| <= |b|
    requires forall j :: 0 <= j < |b| ==> (StartsWith(b[j], key) <==> j < |a| && StartsWith(a[j], key))
    ensures FirstMatch(b, key) == FirstMatch(a, key)
  {
    var fa, fb := FirstMatch(a, key), FirstMatch(b, key);
    if fa.Some? {
      assert StartsWith(b[fa.value], key);
    }
    if fb.Some? {
      assert StartsWith(a[fb.value], key);
    }
  }

  /** One round of the outer loop: replace the first line starting with the
      key, or append the setting's line when there is none. */
  function MergeOne(lines: seq<string>, e: Setting): (r: seq<string>)
    ensures |lines| <= |r| <= |lines| + 1
  {
    match FirstMatch(lines, e.0)
    case Some(i) => lines[i := SettingLine(e)]
    case None => lines + [SettingLine(e)]
  }

  /** The outer loop run over every setting of `table`, in order. */
  function Merged(lines: seq<string>, table: seq<Setting>): (r: seq<string>)
    ensures |lines| <= |r| <= |lines| + |table|
  {
    if table == [] then lines
    else MergeOne(Merged(lines, table[..|table| - 1]), table[|table| - 1])
  }

  /** No setting's line starts with another setting's key (so no key is a
      prefix of another, and keys are distinct). */
  ghost predicate Separated(table: seq<Setting>)
  {
    forall i, j :: 0 <= i < |table| && 0 <= j < |table| && i != j ==>
      !StartsWith(SettingLine(table[i]), table[j].0)
  }

  /** The line a merge puts at index `j` of the original lines: that of the
      setting whose key first matches line `j`, if there is one. */
  function Replacement(lines: seq<string>, table: seq<Setting>, j: nat): (r: Option<string>)
    ensures r.None? ==> forall i :: 0 <= i < |table| ==> FirstMatch(lines, table[i].0) != Some(j)
    ensures r.Some? ==> exists i :: 0 <= i < |table| && FirstMatch(lines, table[i].0) == Some(j)
                                    && r.value == SettingLine(table[i])
  {
    if table == [] then None
    else
      var init, e := table[..|table| - 1], table[|table| - 1];
      if FirstMatch(lines, e.0) == Some(j) then Some(SettingLine(e))
      else
        assert forall i :: 0 <= i < |init| ==> init[i] == table[i];
        Replacement(lines, init, j)
  }

  /** The settings of `table`, in order, whose key starts no line of `lines`. */
  function Unmatched(lines: seq<string>, table: seq<Setting>): (u: seq<Setting>)
    ensures |u| <= |table|
    ensures forall e :: e in u <==> e in table && FirstMatch(lines, e.0).None?
  {
    if table == [] then []
    else
      var init, e := table[..|table| - 1], table[|table| - 1];
      assert table == init + [e];
      Unmatched(lines, init) + (if FirstMatch(lines, e.0).None? then [e] else [])
  }

  /** What a merge produces, stated line by line: each original line is kept
      unless it is the first match of a key, in which case it becomes that
      key's setting line; then the lines of the unmatched settings follow, in
      table order. */
  function MergedRef(lines: seq<string>, table: seq<Setting>): (r: seq<string>)
  {
    seq(|lines|, j requires 0 <= j < |lines| => GetOr(Replacement(lines, table, j), lines[j]))
      + SettingLines(Unmatched(lines, table))
  }

  lemma SeparatedInit(table: seq<Setting>)
    requires Separated(table) && table != []
    ensures Separated(table[..|table| - 1])
  {
    var init := table[..|table| - 1];
    forall i, j | 0 <= i < |init| && 0 <= j < |init| && i != j
      ensures !StartsWith(SettingLine(init[i]), init[j].0)
    {
      assert init[i] == table[i] && init[j] == table[j];
    }
  }

  /** Where `MergedRef` takes each of its lines from. */
  lemma MergedRefAt(lines: seq<string>, table: seq<Setting>, j: nat)
    requires j < |MergedRef(lines, table)|
    ensures j < |lines| ==> MergedRef(lines, table)[j] == GetOr(Replacement(lines, table, j), lines[j])
    ensures j >= |lines| ==>
      (j - |lines| < |Unmatched(lines, table)|
       && MergedRef(lines, table)[j] == SettingLine(Unmatched(lines, table)[j - |lines|]))
  {
  }

  /** A setting whose key and line are apart from `e`'s. */
  predicate Apart(d: Setting, e: Setting)
  {
    !StartsWith(SettingLine(d), e.0) && !StartsWith(SettingLine(e), d.0)
  }

  /** A line that starts with `d`'s key does not start with the key of a
      setting apart from `d`. */
  lemma ApartKeysExclusive(line: string, d: Setting, e: Setting)
    requires Apart(d, e) && StartsWith(line, d.0)
    ensures !StartsWith(line, e.0)
  {
    if StartsWith(line, e.0) {
      PrefixesComparable(line, d.0, e.0);
      if StartsWith(d.0, e.0) {
        StartsWithExtend(d.0, " \"" + d.1 + "\"", e.0);
      } else {
        StartsWithExtend(e.0, " \"" + e.1 + "\"", d.0);
      }
    }
  }

  /** After merging settings apart from `e`, a line starts with `e`'s key
      exactly when it is an original line that did. */
  lemma {:induction false} OverlayHidesKey(lines: seq<string>, init: seq<Setting>, e: Setting)
    requires forall i :: 0 <= i < |init| ==> Apart(init[i], e)
    ensures var m := MergedRef(lines, init);
      forall j :: 0 <= j < |m| ==> (StartsWith(m[j], e.0) <==> j < |lines| && StartsWith(lines[j], e.0))
  {
    var m := MergedRef(lines, init);
    forall j | 0 <= j < |m|
      ensures StartsWith(m[j], e.0) <==> j < |lines| && StartsWith(lines[j], e.0)
    {
      MergedRefAt(lines, init, j);
      if j < |lines| {
        var rep := Replacement(lines, init, j);
        if rep.Some? {
          var i :| 0 <= i < |init| && FirstMatch(lines, init[i].0) == Some(j)
                   && rep.value == SettingLine(init[i]);
          ApartKeysExclusive(lines[j], init[i], e);
        }
      } else {
        var u := Unmatched(lines, init);
        assert u[j - |lines|] in init;
      }
    }
  }

  lemma UnmatchedStep(lines: seq<string>, table: seq<Setting>)
    requires table != []
    ensures var e := table[|table| - 1];
      Unmatched(lines, table)
        == Unmatched(lines, table[..|table| - 1]) + (if FirstMatch(lines, e.0).None? then [e] else [])
  {
  }

  lemma ReplacementStep(lines: seq<string>, table: seq<Setting>, j: nat)
    requires table != []
    ensures var e := table[|table| - 1];
      Replacement(lines, table, j)
        == if FirstMatch(lines, e.0) == Some(j) then Some(SettingLine(e))
           else Replacement(lines, table[..|table| - 1], j)
  {
  }

  /** One outer-loop round applied to the description of the earlier
      rounds gives the description of all of them, provided the new key's
      first match is where it was in the original lines. */
  lemma OverlayStep(lines: seq<string>, table: seq<Setting>)
    requires table != []
    requires FirstMatch(MergedRef(lines, table[..|table| - 1]), table[|table| - 1].0)
          == FirstMatch(lines, table[|table| - 1].0)
    ensures MergeOne(MergedRef(lines, table[..|table| - 1]), table[|table| - 1]) == MergedRef(lines, table)
  {
    var init, e := table[..|table| - 1], table[|table| - 1];
    var m := MergedRef(lines, init);
    var r := MergedRef(lines, table);
    var merged := MergeOne(m, e);
    UnmatchedStep(lines, table);
    assert |r| == |merged|;
    forall j | 0 <= j < |r| ensures r[j] == merged[j] {
      MergedRefAt(lines, table, j);
      if j < |m| {
        MergedRefAt(lines, init, j);
      }
      if j < |lines| {
        ReplacementStep(lines, table, j);
      }
    }
  }

  /** Merging a table whose keys are separated gives the line-by-line
      description: the fold of `set_wtf_config`'s loop and `MergedRef` agree. */
  lemma {:induction false} MergedIsOverlay(lines: seq<string>, table: seq<Setting>)
    requires Separated(table)
    ensures Merged(lines, table) == MergedRef(lines, table)
  {
    if table == [] {
      assert MergedRef(lines, table) == lines;
    } else {
      var init, e := table[..|table| - 1], table[|table| - 1];
      SeparatedInit(table);
      MergedIsOverlay(lines, init);
      forall i | 0 <= i < |init| ensures Apart(init[i], e) {
        assert init[i] == table[i];
      }
      OverlayHidesKey(lines, init, e);
      FirstMatchAgrees(lines, MergedRef(lines, init), e.0);
      OverlayStep(lines, table);
    }
  }

  /** The line read back for each line of a file: `l.rstrip()`. */
  function Stripped(raw: seq<string>): (lines: seq<string>)
    ensures |lines| == |raw|
    ensures forall i :: 0 <= i < |raw| ==> lines[i] == RStrip(raw[i])
  {
    seq(|raw|, i requires 0 <= i < |raw| => RStrip(raw[i]))
  }

  /** What `readlines()` gives back for a file written as `l + "\n"` per line. */
  function Terminated(lines: seq<string>): (raw: seq<string>)
    ensures |raw| == |lines|
    ensures forall i :: 0 <= i < |lines| ==> raw[i] == lines[i] + "\n"
  {
    seq(|lines|, i requires 0 <= i < |lines| => lines[i] + "\n")
  }

  /** The lines `set_wtf_config` writes back for a file that read as `raw`. */
  function ConfigAfterMerge(raw: seq<string>): (lines: seq<string>)
    // one line per line read, then one per setting no line read matched
    ensures |lines| == |raw| + |Unmatched(Stripped(raw), WtfConfig)|
    ensures lines[|raw|..] == SettingLines(Unmatched(Stripped(raw), WtfConfig))
  {
    WtfConfigSeparated();
    MergedLength(Stripped(raw), WtfConfig);
    Merged(Stripped(raw), WtfConfig)
  }

  // ----- properties of the merge -----

  /** `WTF_CONFIG`'s keys are separated: no setting line starts with another
      setting's key. */
  lemma WtfConfigSeparated()
    ensures Separated(WtfConfig)
  {
    forall i, j | 0 <= i < |WtfConfig| && 0 <= j < |WtfConfig| && i != j
      ensures !StartsWith(SettingLine(WtfConfig[i]), WtfConfig[j].0)
    {
      var a, b := WtfConfig[i].0, WtfConfig[j].0;
      var rest := " \"" + WtfConfig[i].1 + "\"";
      // the keys first differ at one of these positions
      var d := if a[4] != b[4] then 4 else if a[5] != b[5] then 5 else if a[7] != b[7] then 7 else 8;
      NotStartsWithAt(a, rest, b, d);
    }
  }

  /** The merged lines number the original lines plus one per unmatched
      setting, and end with the unmatched settings' lines in table order. */
  lemma MergedLength(lines: seq<string>, table: seq<Setting>)
    requires Separated(table)
    ensures |Merged(lines, table)| == |lines| + |Unmatched(lines, table)|
    ensures Merged(lines, table)[|lines|..] == SettingLines(Unmatched(lines, table))
  {
    MergedIsOverlay(lines, table);
  }

  /** Each original line stays where it was: it becomes the setting line of
      the key whose first match it is, and is otherwise unchanged. */
  lemma MergedLineAt(lines: seq<string>, table: seq<Setting>, j: nat)
    requires Separated(table) && j < |lines|
    ensures forall i :: 0 <= i < |table| && FirstMatch(lines, table[i].0) == Some(j) ==>
      Merged(lines, table)[j] == SettingLine(table[i])
    ensures (forall i :: 0 <= i < |table| ==> FirstMatch(lines, table[i].0) != Some(j)) ==>
      Merged(lines, table)[j] == lines[j]
  {
    MergedIsOverlay(lines, table);
    MergedRefAt(lines, table, j);
    forall i | 0 <= i < |table| && FirstMatch(lines, table[i].0) == Some(j)
      ensures Merged(lines, table)[j] == SettingLine(table[i])
    {
      var rep := Replacement(lines, table, j);
      var k :| 0 <= k < |table| && FirstMatch(lines, table[k].0) == Some(j)
               && rep.value == SettingLine(table[k]);
      if k != i {
        ApartKeysExclusive(lines[j], table[i], table[k]);
      }
    }
  }

  /** `m` holds each setting's line at that key's first match. */
  ghost predicate KeyLineAt(m: seq<string>, e: Setting)
  {
    FirstMatch(m, e.0).Some? && m[FirstMatch(m, e.0).value] == SettingLine(e)
  }

  lemma MergeOnePlacesKey(m: seq<string>, e: Setting)
    ensures KeyLineAt(MergeOne(m, e), e)
  {
    var r := MergeOne(m, e);
    match FirstMatch(m, e.0)
    case Some(p) =>
      assert StartsWith(r[p], e.0);
    case None =>
      assert StartsWith(r[|m|], e.0);
  }

  lemma MergeOneKeepsKeyLine(m: seq<string>, e: Setting, d: Setting)
    requires KeyLineAt(m, d) && Apart(d, e)
    ensures KeyLineAt(MergeOne(m, e), d)
  {
    var r := MergeOne(m, e);
    forall j | 0 <= j < |r|
      ensures StartsWith(r[j], d.0) <==> j < |m| && StartsWith(m[j], d.0)
    {
      if FirstMatch(m, e.0) == Some(j) {
        ApartKeysExclusive(m[j], e, d);
      }
    }
    FirstMatchAgrees(m, r, d.0);
  }

  lemma {:induction false} MergedPlacesKeys(lines: seq<string>, table: seq<Setting>)
    requires Separated(table)
    ensures forall i :: 0 <= i < |table| ==> KeyLineAt(Merged(lines, table), table[i])
  {
    if table != [] {
      var init, e := table[..|table| - 1], table[|table| - 1];
      SeparatedInit(table);
      MergedPlacesKeys(lines, init);
      var m := Merged(lines, init);
      MergeOnePlacesKey(m, e);
      forall i | 0 <= i < |init| ensures KeyLineAt(Merged(lines, table), table[i]) {
        assert init[i] == table[i];
        MergeOneKeepsKeyLine(m, e, init[i]);
      }
    }
  }

  lemma {:induction false} MergedFixedPoint(m: seq<string>, table: seq<Setting>)
    requires forall i :: 0 <= i < |table| ==> KeyLineAt(m, table[i])
    ensures Merged(m, table) == m
  {
    if table != [] {
      var init := table[..|table| - 1];
      assert forall i :: 0 <= i < |init| ==> init[i] == table[i];
      MergedFixedPoint(m, init);
    }
  }

  /** Merging twice gives the lines of merging once. */
  lemma MergedIdempotent(lines: seq<string>, table: seq<Setting>)
    requires Separated(table)
    ensures Merged(Merged(lines, table), table) == Merged(lines, table)
  {
    MergedPlacesKeys(lines, table);
    MergedFixedPoint(Merged(lines, table), table);
  }

  /** A line `rstrip()` leaves as it is. */
  predicate Trimmed(l: string)
  {
    l == [] || !IsSpace(l[|l| - 1])
  }

  lemma RStripTerminated(l: string)
    requires Trimmed(l)
    ensures RStrip(l + "\n") == l
  {
    assert (l + "\n")[..|l|] == l;
  }

  lemma {:induction false} MergedTrimmed(lines: seq<string>, table: seq<Setting>)
    requires forall j :: 0 <= j < |lines| ==> Trimmed(lines[j])
    ensures forall j :: 0 <= j < |Merged(lines, table)| ==> Trimmed(Merged(lines, table)[j])
  {
    if table != [] {
      var init, e := table[..|table| - 1], table[|table| - 1];
      MergedTrimmed(lines, init);
      var line := SettingLine(e);
      assert line[|line| - 1] == '"';
    }
  }

  /** Running `set_wtf_config` on the file it has just written writes the
      same lines again. */
  lemma ConfigAfterMergeIdempotent(raw: seq<string>)
    ensures ConfigAfterMerge(Terminated(ConfigAfterMerge(raw))) == ConfigAfterMerge(raw)
  {
    var stripped := Stripped(raw);
    assert forall j :: 0 <= j < |stripped| ==> Trimmed(stripped[j]);
    WtfConfigSeparated();
    RereadMergeIdempotent(stripped, WtfConfig);
  }

  /** Merging trimmed lines with a separated table, writing them and reading
      them back gives lines that a second merge leaves as they are. */
  lemma RereadMergeIdempotent(stripped: seq<string>, table: seq<Setting>)
    requires Separated(table)
    requires forall j :: 0 <= j < |stripped| ==> Trimmed(stripped[j])
    ensures var once := Merged(stripped, table);
      Merged(Stripped(Terminated(once)), table) == once
  {
    var once := Merged(stripped, table);
    MergedTrimmed(stripped, table);
    forall j | 0 <= j < |once| ensures RStrip(once[j] + "\n") == once[j] {
      RStripTerminated(once[j]);
    }
    assert Stripped(Terminated(once)) == once;
    MergedIdempotent(stripped, table);
  }


  /** One merge pass does not remove a second line that starts with a
      required key: only the first such line is rewritten. */
  lemma DuplicateKeyLinesSurvive()
    ensures var lines := ["SET farclip \"100\"", "SET farclip \"200\""];
      var merged := Merged(lines, WtfConfig);
      |merged| > 1 && StartsWith(merged[0], "SET farclip") && StartsWith(merged[1], "SET farclip")
      && merged[0] == SettingLine(WtfConfig[7]) && merged[1] == lines[1]
  {
    var lines := ["SET farclip \"100\"", "SET farclip \"200\""];
    var farclip := WtfConfig[7];
    assert StartsWith(lines[0], farclip.0) && StartsWith(lines[1], farclip.0);
    WtfConfigSeparated();
    MergedLength(lines, WtfConfig);
    forall i | 0 <= i < |WtfConfig| ensures FirstMatch(lines, WtfConfig[i].0) != Some(1) {
      if i != 7 {
        ApartKeysExclusive(lines[1], farclip, WtfConfig[i]);
      }
    }
    MergedLineAt(lines, WtfConfig, 0);
    MergedLineAt(lines, WtfConfig, 1);
  }

  // ----- the operation -----

  /** What reading `<game>/WTF/Config.wtf` gives: the file is missing, reading
      it is not permitted, or its lines as `readlines()` returns them. */
  datatype ConfigRead = NotFound | ReadDenied | Read(raw: seq<string>)

  /** The loops of `set_wtf_config` over a key table (`WTF_CONFIG` there):
      for each setting in table order, search for the first line starting
      with its key and replace that line, or append the setting's line when
      there is none. */
  method MergeSettings(lines: seq<string>, table: seq<Setting>) returns (existing: seq<string>)
    ensures existing == Merged(lines, table)
  {
    existing := lines;
    var k := 0;
    while k < |table|
      invariant 0 <= k <= |table|
      invariant existing == Merged(lines, table[..k])
    {
      var key, value := table[k].0, table[k].1;
      var line := SettingLine((key, value));
      var i := 0;
      while i < |existing| && !StartsWith(existing[i], key)
        invariant 0 <= i <= |existing|
        invariant forall j :: 0 <= j < i ==> !StartsWith(existing[j], key)
      {
        i := i + 1;
      }
      assert table[..k + 1][..k] == table[..k];
      if i < |existing| {
        assert FirstMatch(existing, key) == Some(i);
        existing := existing[i := line];
      } else {
        assert FirstMatch(existing, key) == None;
        existing := existing + [line];
      }
      k := k + 1;
    }
    assert table[..k] == table;
  }

  /** `set_wtf_config`: read the settings file, merge every `WTF_CONFIG`
      setting into it and write it back. `writable` says whether opening the
      file for writing is permitted; `written` is the list of lines written,
      each followed by a newline (`None`: the file is left as it was). */
  method SetWtfConfig(file: ConfigRead, writable: bool)
    returns (ok: bool, messages: Messages, written: Option<seq<string>>)
    ensures file.NotFound? ==>
      !ok && messages == MessageList([MissingConfigMessage]) && written == None
    ensures file.ReadDenied? ==>
      !ok && messages == MessageList([ReadDeniedMessage]) && written == None
    ensures file.Read? && !writable ==>
      !ok && messages == MessageText(WriteDeniedMessage) && written == None
    ensures file.Read? && writable ==>
      ok && messages == MessageText(WroteMessage) && written == Some(ConfigAfterMerge(file.raw))
  {
    var existing: seq<string>;
    match file {
      case NotFound =>
        return false, MessageList([MissingConfigMessage]), None;
      case ReadDenied =>
        return false, MessageList([ReadDeniedMessage]), None;
      case Read(raw) =>
        existing := MergeSettings(Stripped(raw), WtfConfig);
    }
    if !writable {
      return false, MessageText(WriteDeniedMessage), None;
    }
    return true, MessageText(WroteMessage), Some(existing);
  }
}
