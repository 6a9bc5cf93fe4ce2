/** Theme bookkeeping: discovering theme files in the bundled and user folders, the
    dropdown of display names, resolving a display name back to a theme name, and
    the current-theme setting. Theme files are given as (file name, parsed content)
    pairs; drawing the themes is not modelled. */
module Themes {
  import opened Strings

  const DefaultTheme: string := "dark_theme"

  /** Which folder a theme was found in (the source records a bundle or a user path). */
  datatype Location = Bundled | User

  /** One theme entry; an empty display name is the source's missing or falsy one. */
  datatype ThemeInfo = ThemeInfo(file: string, displayName: string, location: Location)

  /** One item of the theme dictionary. */
  datatype Theme = Theme(name: string, info: ThemeInfo)

  /** The theme dictionary as its items in insertion order. */
  type ThemeDict = seq<Theme>

  /** Dictionary keys are distinct. */
  predicate Distinct(d: ThemeDict) {
    forall i, j :: 0 <= i < j < |d| ==> d[i].name != d[j].name
  }

  function Names(d: ThemeDict): (r: seq<string>)
    ensures |r| == |d| && forall i :: 0 <= i < |d| ==> r[i] == d[i].name
  {
    seq(|d|, i requires 0 <= i < |d| => d[i].name)
  }

  /** The position of `name` in the dictionary, if it is a key. */
  function IndexOf(d: ThemeDict, name: string, from: nat): (r: Option<nat>)
    requires from <= |d|
    ensures r.Some? ==> from <= r.value < |d| && d[r.value].name == name
                        && forall j :: from <= j < r.value ==> d[j].name != name
    ensures r.None? ==> forall j :: from <= j < |d| ==> d[j].name != name
    decreases |d| - from
  {
    if from == |d| then None
    else if d[from].name == name then Some(from)
    else IndexOf(d, name, from + 1)
  }

  /** `themes.get(name)`. */
  function Get(d: ThemeDict, name: string): Option<ThemeInfo> {
    var i := IndexOf(d, name, 0);
    if i.Some? then Some(d[i.value].info) else None
  }

  /** In a dictionary with distinct keys, the item at `i` is the one for its name. */
  lemma GetAt(d: ThemeDict, i: nat)
    requires Distinct(d) && i < |d|
    ensures Get(d, d[i].name) == Some(d[i].info)
  {
  }

  /** `themes[name] = info`: a new name goes to the end, an existing one keeps its place. */
  function Put(d: ThemeDict, name: string, info: ThemeInfo): (r: ThemeDict)
    requires Distinct(d)
    ensures Distinct(r) && Names(d) <= Names(r)
    ensures Get(d, name).Some? ==> |r| == |d|
    ensures Get(d, name).None? ==> |r| == |d| + 1 && r[|d|] == Theme(name, info)
    ensures forall j :: 0 <= j < |d| && d[j].name != name ==> r[j] == d[j]
    ensures forall j :: 0 <= j < |d| && d[j].name == name ==> r[j] == Theme(name, info)
  {
    var i := IndexOf(d, name, 0);
    if i.Some? then d[i.value := Theme(name, info)] else d + [Theme(name, info)]
  }

  /** After `Put`, the name maps to the new entry and every other name to its old one. */
  lemma PutGet(d: ThemeDict, name: string, info: ThemeInfo, k: string)
    requires Distinct(d)
    ensures Get(Put(d, name, info), k) == if k == name then Some(info) else Get(d, k)
  {
    var r := Put(d, name, info);
    if k == name {
      var i :| 0 <= i < |r| && r[i] == Theme(name, info);
      GetAt(r, i);
    } else {
      var i := IndexOf(d, k, 0);
      if i.Some? {
        GetAt(r, i.value);
      }
    }
  }

  // ---------------------------------------------------------------------------
  // Display names
  // ---------------------------------------------------------------------------

  /** The display name made from a theme name: underscores to spaces, then title case. */
  function DefaultDisplay(name: string): string {
    Title(ReplaceChar(name, '_', ' '))
  }

  /** The display name shown for an entry: its own when non-empty, else the default one. */
  function DisplayOf(t: Theme): string {
    if t.info.displayName != "" then t.info.displayName else DefaultDisplay(t.name)
  }

  /** The item with its display name filled in, as both lookups store it back. */
  function Filled(t: Theme): (r: Theme)
    ensures r.name == t.name && r.info.file == t.info.file && r.info.location == t.info.location
    ensures r.info.displayName == DisplayOf(t)
    ensures DisplayOf(r) == DisplayOf(t)
    ensures t.info.displayName != "" ==> r == t
  {
    t.(info := t.info.(displayName := DisplayOf(t)))
  }

  /** The dictionary with its first `n` items filled in. */
  function FillUpTo(d: ThemeDict, n: nat): (r: ThemeDict)
    ensures |r| == |d| && Names(r) == Names(d)
    ensures forall i :: 0 <= i < |d| ==> r[i] == if i < n then Filled(d[i]) else d[i]
  {
    seq(|d|, i requires 0 <= i < |d| => if i < n then Filled(d[i]) else d[i])
  }

  /** One step of the fill loops: filling item `n` of the dictionary filled up to `n`
      gives the dictionary filled up to `n + 1`. */
  lemma FillStep(d: ThemeDict, n: nat)
    requires n < |d|
    ensures FillUpTo(d, n)[n] == d[n]
    ensures FillUpTo(d, n)[n := Filled(d[n])] == FillUpTo(d, n + 1)
  {
  }

  /** Filling display names keeps the keys distinct. */
  lemma FillKeepsDistinct(d: ThemeDict, n: nat)
    requires Distinct(d)
    ensures Distinct(FillUpTo(d, n))
  {
    var r := FillUpTo(d, n);
    assert forall i :: 0 <= i < |d| ==> r[i].name == d[i].name;
  }

  /** The display names of all themes, in dictionary order. */
  function Displays(d: ThemeDict): (r: seq<string>)
    ensures |r| == |d| && forall i :: 0 <= i < |d| ==> r[i] == DisplayOf(d[i])
  {
    seq(|d|, i requires 0 <= i < |d| => DisplayOf(d[i]))
  }

  /** The position of the first theme, in dictionary order, showing `display`. */
  function FirstWithDisplay(d: ThemeDict, display: string, from: nat): (r: Option<nat>)
    requires from <= |d|
    ensures r.Some? ==> from <= r.value < |d| && Displays(d)[r.value] == display
                        && forall j :: from <= j < r.value ==> Displays(d)[j] != display
    ensures r.None? ==> forall j :: from <= j < |d| ==> Displays(d)[j] != display
    decreases |d| - from
  {
    if from == |d| then None
    else if DisplayOf(d[from]) == display then Some(from)
    else FirstWithDisplay(d, display, from + 1)
  }

  /** The blank test of both setters: no value, or nothing left after `strip()`. */
  function Blank(s: Option<string>): (r: bool)
    ensures r <==> s.None? || AllSpace(s.value)
  {
    if s.None? then true
    else
      StripProperties(s.value);
      Strip(s.value) == ""
  }

  /** The first theme name, or the default theme when there are none. */
  function Fallback(d: ThemeDict): string {
    if |d| > 0 then d[0].name else DefaultTheme
  }

  /** What `get_theme_name_from_display` answers: the fallback for a missing or blank
      display name or one no theme shows, else the first theme showing it. */
  function ThemeForDisplay(d: ThemeDict, display: Option<string>): (r: string)
    ensures r in Names(d) || (d == [] && r == DefaultTheme)
    ensures display.None? || AllSpace(display.value) || display.value !in Displays(d) ==>
            r == if d != [] then d[0].name else DefaultTheme
    ensures display.Some? && !AllSpace(display.value) && display.value in Displays(d) ==>
            exists j :: && 0 <= j < |d| && r == d[j].name && Displays(d)[j] == display.value
                        && forall k :: 0 <= k < j ==> Displays(d)[k] != display.value
  {
    if display.None? || AllSpace(display.value) then Fallback(d)
    else
      var i := FirstWithDisplay(d, display.value, 0);
      if i.Some? then d[i.value].name else Fallback(d)
  }

  /** How many items the lookup fills in before it answers. */
  function Scanned(d: ThemeDict, display: Option<string>): (n: nat)
    ensures n <= |d|
  {
    if display.None? || AllSpace(display.value) then 0
    else
      var i := FirstWithDisplay(d, display.value, 0);
      if i.Some? then i.value + 1 else |d|
  }

  /** Looking up a dropdown item gives back a theme showing that item, no later in the
      order than the item's own theme; with distinct display names, that very theme.
      A blank item is the exception: it resolves to the fallback. */
  lemma DropdownLookupRoundTrip(d: ThemeDict, i: nat)
    requires i < |d| && !AllSpace(Displays(d)[i])
    ensures exists j :: 0 <= j <= i && ThemeForDisplay(d, Some(Displays(d)[i])) == d[j].name
                        && Displays(d)[j] == Displays(d)[i]
    ensures (forall j :: 0 <= j < i ==> Displays(d)[j] != Displays(d)[i]) ==>
            ThemeForDisplay(d, Some(Displays(d)[i])) == d[i].name
  {
    var r := FirstWithDisplay(d, Displays(d)[i], 0);
    assert r.Some? && r.value <= i;
  }

  /** A blank display name resolves as a missing one does: to the first theme, or to
      the default theme when there are none. */
  lemma BlankDisplayFallsBack(d: ThemeDict, s: string)
    requires AllSpace(s)
    ensures ThemeForDisplay(d, Some(s)) == ThemeForDisplay(d, None)
    ensures d != [] ==> ThemeForDisplay(d, None) == d[0].name
    ensures d == [] ==> ThemeForDisplay(d, None) == DefaultTheme
  {
  }

  // ---------------------------------------------------------------------------
  // Discovery
  // ---------------------------------------------------------------------------

  /** What reading a theme file gives. */
  datatype Content =
    | Unreadable   // opening or reading fails (`IOError`), or the UTF-8 text is not JSON: skipped
    | Uncaught     // an error the per-file handler lets through, which abandons the rest of the
                   // folder: JSON without `.get` (a list, a number, ...), or bytes that are not UTF-8
    | Object(nameField: Option<string>)

  datatype ThemeFile = ThemeFile(filename: string, content: Content)

  predicate EndsWith(s: string, suffix: string) {
    |suffix| <= |s| && s[|s| - |suffix|..] == suffix
  }

  /** The theme name of a `.json` file: its file name without the extension. */
  function Stem(filename: string): (r: string)
    requires EndsWith(filename, ".json")
    ensures r + ".json" == filename
  {
    filename[..|filename| - 5]
  }

  /** A `.json` file that loads as an object: it becomes a theme. */
  predicate Loads(f: ThemeFile) {
    EndsWith(f.filename, ".json") && f.content.Object?
  }

  /** A `.json` file whose content has no `.get`: the folder's loop stops there. */
  predicate Abandons(f: ThemeFile) {
    EndsWith(f.filename, ".json") && f.content.Uncaught?
  }

  /** The entry of a loaded theme file: its `name` field, else the default display name. */
  function EntryOf(f: ThemeFile, loc: Location): ThemeInfo
    requires Loads(f)
  {
    var name := Stem(f.filename);
    var display := if f.content.nameField.Some? then f.content.nameField.value else DefaultDisplay(name);
    ThemeInfo(f.filename, display, loc)
  }

  /** One iteration of a folder's loop, for a file that does not abandon it. */
  function Step(d: ThemeDict, f: ThemeFile, loc: Location): (r: ThemeDict)
    requires Distinct(d)
    ensures Distinct(r) && Names(d) <= Names(r)
  {
    if Loads(f) then Put(d, Stem(f.filename), EntryOf(f, loc)) else d
  }

  /** One folder's loop of `discover_themes`, over the files in listing order. */
  function ScanFolder(d: ThemeDict, files: seq<ThemeFile>, loc: Location): (r: ThemeDict)
    requires Distinct(d)
    ensures Distinct(r)
    decreases |files|
  {
    if files == [] || Abandons(files[0]) then d
    else ScanFolder(Step(d, files[0], loc), files[1..], loc)
  }

  /** The loop over one folder. */
  method ScanFolderLoop(d: ThemeDict, files: seq<ThemeFile>, loc: Location) returns (r: ThemeDict)
    requires Distinct(d)
    ensures r == ScanFolder(d, files, loc)
  {
    r := d;
    var i := 0;
    while i < |files|
      invariant 0 <= i <= |files| && Distinct(r)
      invariant ScanFolder(r, files[i..], loc) == ScanFolder(d, files, loc)
    {
      var f := files[i];
      assert files[i..][0] == f && files[i..][1..] == files[i + 1..];
      if EndsWith(f.filename, ".json") {
        match f.content {
          case Unreadable =>
          case Uncaught =>
            return;
          case Object(nameField) =>
            var name := Stem(f.filename);
            var display := if nameField.Some? then nameField.value else DefaultDisplay(name);
            r := Put(r, name, ThemeInfo(f.filename, display, loc));
        }
      }
      i := i + 1;
    }
  }

  /** `discover_themes`: the bundled folder first (empty when there is none), then the
      user folder, whose entries override bundled ones of the same name. */
  method Discover(bundled: seq<ThemeFile>, user: seq<ThemeFile>) returns (themes: ThemeDict)
    ensures Distinct(themes)
    ensures themes == ScanFolder(ScanFolder([], bundled, Bundled), user, User)
  {
    themes := ScanFolderLoop([], bundled, Bundled);
    themes := ScanFolderLoop(themes, user, User);
  }

  /** The entry `e` under `k` came from a loaded `.json` file of this folder. */
  predicate FromFolder(k: string, e: ThemeInfo, files: seq<ThemeFile>, loc: Location) {
    e.location == loc && exists f :: f in files && Loads(f) && k == Stem(f.filename)
  }

  /** Scanning only adds: the keys found so far keep their positions, and every entry
      is either the one from before or comes from a loaded file of this folder. */
  lemma {:induction false} ScanExtends(d: ThemeDict, files: seq<ThemeFile>, loc: Location, k: string)
    requires Distinct(d)
    ensures var r := ScanFolder(d, files, loc);
      && Names(d) <= Names(r)
      && (Get(r, k).Some? ==> Get(r, k) == Get(d, k) || FromFolder(k, Get(r, k).value, files, loc))
    decreases |files|
  {
    if files != [] && !Abandons(files[0]) {
      var f := files[0];
      var d' := Step(d, f, loc);
      var r := ScanFolder(d', files[1..], loc);
      ScanExtends(d', files[1..], loc, k);
      if Loads(f) {
        PutGet(d, Stem(f.filename), EntryOf(f, loc), k);
      }
      if Get(r, k).Some? && Get(r, k) != Get(d', k) {
        var g :| g in files[1..] && Loads(g) && k == Stem(g.filename);
        assert g in files;
      } else if Get(r, k).Some? && Loads(f) && k == Stem(f.filename) {
        assert f in files;
      }
    }
  }

  /** An entry from this folder stays an entry from this folder. */
  lemma {:induction false} ScanKeepsLocation(d: ThemeDict, files: seq<ThemeFile>, loc: Location, k: string)
    requires Distinct(d) && Get(d, k).Some? && Get(d, k).value.location == loc
    ensures var r := ScanFolder(d, files, loc); Get(r, k).Some? && Get(r, k).value.location == loc
    decreases |files|
  {
    if files != [] && !Abandons(files[0]) {
      var f := files[0];
      if Loads(f) {
        PutGet(d, Stem(f.filename), EntryOf(f, loc), k);
      }
      ScanKeepsLocation(Step(d, f, loc), files[1..], loc, k);
    }
  }

  /** A loaded theme file that the scan reaches (no earlier file abandoned the folder)
      ends up as an entry from this folder under its stem. */
  lemma {:induction false} ScanReaches(d: ThemeDict, files: seq<ThemeFile>, loc: Location, i: nat)
    requires Distinct(d) && i < |files| && Loads(files[i])
    requires forall j :: 0 <= j < i ==> !Abandons(files[j])
    ensures var r := ScanFolder(d, files, loc); var k := Stem(files[i].filename);
      Get(r, k).Some? && Get(r, k).value.location == loc
    decreases |files|
  {
    var f := files[0];
    var d' := Step(d, f, loc);
    if i == 0 {
      PutGet(d, Stem(f.filename), EntryOf(f, loc), Stem(f.filename));
      ScanKeepsLocation(d', files[1..], loc, Stem(f.filename));
    } else {
      assert files[1..][i - 1] == files[i];
      ScanReaches(d', files[1..], loc, i - 1);
    }
  }

  /** User themes override bundled ones: a loaded user theme file the scan reaches is
      the entry for its name, and the bundled themes keep their positions. */
  lemma UserOverridesBundled(bundled: seq<ThemeFile>, user: seq<ThemeFile>, i: nat)
    requires i < |user| && Loads(user[i])
    requires forall j :: 0 <= j < i ==> !Abandons(user[j])
    ensures var b := ScanFolder([], bundled, Bundled);
            var r := ScanFolder(b, user, User);
            var k := Stem(user[i].filename);
      && Get(r, k).Some? && Get(r, k).value.location == User
      && Names(b) <= Names(r)
  {
    var b := ScanFolder([], bundled, Bundled);
    ScanReaches(b, user, User, i);
    ScanExtends(b, user, User, Stem(user[i].filename));
  }

  /** Every discovered theme is named after a loaded `.json` file of one of the two
      folders, and its entry says which. */
  lemma DiscoveredNamesAreJsonStems(bundled: seq<ThemeFile>, user: seq<ThemeFile>, k: string)
    requires Get(ScanFolder(ScanFolder([], bundled, Bundled), user, User), k).Some?
    ensures var e := Get(ScanFolder(ScanFolder([], bundled, Bundled), user, User), k).value;
      FromFolder(k, e, bundled, Bundled) || FromFolder(k, e, user, User)
  {
    var b := ScanFolder([], bundled, Bundled);
    ScanExtends([], bundled, Bundled, k);
    ScanExtends(b, user, User, k);
  }

  // ---------------------------------------------------------------------------
  // The registry of available themes and the current theme
  // ---------------------------------------------------------------------------

  class Registry {
    var themes: ThemeDict
    var current: string

    predicate Valid()
      reads this
    {
      Distinct(themes)
    }

    constructor (discovered: ThemeDict)
      requires Distinct(discovered)
      ensures Valid() && themes == discovered && current == DefaultTheme
    {
      themes := discovered;
      current := DefaultTheme;
    }

    /** `get_theme_dropdown_items`: one display name per theme in dictionary order;
        every missing display name is filled in on the way. */
    method DropdownItems() returns (items: seq<string>)
      requires Valid()
      modifies this
      ensures Valid()
      ensures items == Displays(old(themes))
      ensures themes == FillUpTo(old(themes), |old(themes)|)
      ensures current == old(current)
    {
      ghost var d := themes;
      items := [];
      var i := 0;
      while i < |themes|
        invariant 0 <= i <= |d| && themes == FillUpTo(d, i)
        invariant items == Displays(d)[..i]
        invariant current == old(current)
      {
        FillStep(d, i);
        var display := themes[i].info.displayName;
        if display == "" {
          display := DefaultDisplay(themes[i].name);
          themes := themes[i := themes[i].(info := themes[i].info.(displayName := display))];
        }
        items := items + [display];
        i := i + 1;
      }
      FillKeepsDistinct(d, i);
    }

    /** `get_theme_name_from_display`: the first theme showing the given display name,
        with the fallbacks of `ThemeForDisplay`; the items looked at are filled in. */
    method ThemeNameFromDisplay(display: Option<string>) returns (name: string)
      requires Valid()
      modifies this
      ensures Valid()
      ensures name == ThemeForDisplay(old(themes), display)
      ensures themes == FillUpTo(old(themes), Scanned(old(themes), display))
      ensures current == old(current)
    {
      if Blank(display) {
        assert themes == FillUpTo(themes, 0);
        return if |themes| > 0 then themes[0].name else DefaultTheme;
      }
      name := SearchDisplay(display.value);
    }

    /** The loop of `get_theme_name_from_display` for a non-blank display name. */
    method SearchDisplay(display: string) returns (name: string)
      requires Valid()
      modifies this
      ensures Valid() && current == old(current)
      ensures var i := FirstWithDisplay(old(themes), display, 0);
        && name == (if i.Some? then old(themes)[i.value].name else Fallback(old(themes)))
        && themes == FillUpTo(old(themes), if i.Some? then i.value + 1 else |old(themes)|)
    {
      ghost var d := themes;
      var i := 0;
      while i < |themes|
        invariant 0 <= i <= |d| && themes == FillUpTo(d, i)
        invariant FirstWithDisplay(d, display, 0) == FirstWithDisplay(d, display, i)
        invariant current == old(current)
      {
        FillStep(d, i);
        var shown := themes[i].info.displayName;
        if shown == "" {
          shown := DefaultDisplay(themes[i].name);
          themes := themes[i := themes[i].(info := themes[i].info.(displayName := shown))];
        }
        assert shown == DisplayOf(d[i]) && themes == FillUpTo(d, i + 1);
        if shown == display {
          assert FirstWithDisplay(d, display, i) == Some(i);
          FillKeepsDistinct(d, i + 1);
          return themes[i].name;
        }
        i := i + 1;
      }
      FillKeepsDistinct(d, i);
      name := if |themes| > 0 then themes[0].name else DefaultTheme;
    }

    /** `set_current_theme`: a missing or blank name selects the default theme. The
        current theme is never blank. */
    method SetCurrentTheme(name: Option<string>)
      requires Valid()
      modifies this
      ensures Valid() && themes == old(themes)
      ensures name.Some? && !AllSpace(name.value) ==> current == name.value
      ensures name.None? || AllSpace(name.value) ==> current == DefaultTheme
      ensures !AllSpace(current)
    {
      if Blank(name) {
        current := DefaultTheme;
        assert !IsSpace(DefaultTheme[0]);
      } else {
        current := name.value;
      }
    }
  }
}
