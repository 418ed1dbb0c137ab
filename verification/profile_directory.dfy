/** The directory behind the profile store: file names, what loading a file gives,
    and the file-system steps of a write. */
module ProfileDirectory {
  import opened Basics
  import opened Migration

  /** What a file holds: text that is not JSON, JSON that is not an object, or an object. */
  datatype Content = Torn | NotJsonObject | Object(raw: Raw)

  type Dir = map<string, Content>

  /** File name to the profile that file loads as. */
  type View = map<string, Profile>

  // ------------------------------------------------------------------ file names

  predicate IdChar(c: char) {
    'A' <= c <= 'Z' || 'a' <= c <= 'z' || '0' <= c <= '9' || c == '_' || c == '-'
  }

  predicate ValidId(id: string) {
    id != "" && forall i :: 0 <= i < |id| ==> IdChar(id[i])
  }

  function FileOf(id: string): string { id + ".json" }

  function TmpOf(id: string): string { FileOf(id) + ".tmp" }

  /** What the glob `*.json` matches. */
  predicate IsJson(file: string) {
    |file| >= 5 && file[|file| - 5..] == ".json"
  }

  /** `Path.stem`: a name that is all suffix keeps it. */
  function StemOf(file: string): string
    requires IsJson(file)
  {
    if |file| == 5 then file else file[..|file| - 5]
  }

  lemma FileNames(id: string)
    ensures IsJson(FileOf(id)) && !IsJson(TmpOf(id))
    ensures id != "" ==> StemOf(FileOf(id)) == id
  {
    assert FileOf(id)[|id|..] == ".json" && FileOf(id)[..|id|] == id;
    var tmp := TmpOf(id);
    assert tmp[|tmp| - 5..][4] == tmp[|tmp| - 1] == 'p';
  }

  /** An id never names a file outside the directory, nor a hidden one. */
  lemma IdsAreNotPaths(id: string)
    requires ValidId(id)
    ensures '/' !in id && '\\' !in id && '.' !in id && ' ' !in id && '\n' !in id
  {
    forall i | 0 <= i < |id| ensures id[i] !in "/\\. \n" { assert IdChar(id[i]); }
  }

  /** Any letters, digits, underscores and hyphens do. */
  lemma WordsAreValid(id: string)
    requires |id| > 0
    requires forall i :: 0 <= i < |id| ==>
      'a' <= id[i] <= 'z' || 'A' <= id[i] <= 'Z' || '0' <= id[i] <= '9' || id[i] == '_' || id[i] == '-'
    ensures ValidId(id)
  {}

  /** The 32 hex digits of a fresh id, for one. */
  lemma HexIsValid(id: string)
    requires |id| == 32 && forall i :: 0 <= i < |id| ==> '0' <= id[i] <= '9' || 'a' <= id[i] <= 'f'
    ensures ValidId(id)
  {}

  /** The stem is the name without its suffix, except that a bare suffix is its own stem. */
  lemma StemMeans(file: string)
    requires IsJson(file)
    ensures file == ".json" ==> StemOf(file) == ".json"
    ensures file != ".json" ==> StemOf(file) != "" && StemOf(file) + ".json" == file
  {
    assert file == file[..|file| - 5] + file[|file| - 5..];
  }

  lemma NamesOfA()
    ensures FileOf("a") == "a.json" && TmpOf("a") == "a.json.tmp" && IsJson(".json") && !IsJson("a.json.tmp")
    ensures !IsJson("a.JSON") && !IsJson("json")
  {
    assert "a.json.tmp"[9] == 'p' && "a.JSON"[5] == 'N';
  }

  /** A file whose stem is a valid id is the one that id names. */
  lemma StemNames(file: string)
    requires IsJson(file) && ValidId(StemOf(file))
    ensures file == FileOf(StemOf(file))
  {
    assert IdChar(StemOf(file)[0]) && file[|file| - 5..][0] == '.';
    assert file == file[..|file| - 5] + file[|file| - 5..];
  }

  // --------------------------------------------------------------------- loading

  /** Validation of a migrated object: the version defaults to 1. */
  function Validated(raw: Raw): Result<Profile, ProfileError> {
    match raw.body
    case None => Err(InvalidProfile)
    case Some(b) =>
      match raw.version
      case Missing => Ok(Profile(1, b))
      case Junk => Err(InvalidProfile)
      case Int(v) => Ok(Profile(v, b))
  }

  /** `_load` of a file with this name and content. */
  function Loaded(file: string, c: Content, table: Table): Result<Profile, ProfileError>
    requires IsJson(file)
  {
    match c
    case Torn => Err(Unreadable)
    case NotJsonObject => Err(NotAnObject)
    case Object(raw) =>
      match Migrated(raw, table)
      case Err(e) => Err(e)
      case Ok(data) =>
        match Validated(data)
        case Err(e) => Err(e)
        case Ok(p) => if p.body.profileId != StemOf(file) then Err(WrongName(p.body.profileId)) else Ok(p)
  }

  /** The JSON text of a profile. */
  function Encode(p: Profile): Content { Object(Raw(Int(p.schemaVersion), Some(p.body))) }

  predicate Loads(d: Dir, file: string, table: Table) {
    file in d && IsJson(file) && Loaded(file, d[file], table).Ok?
  }

  /** The loadable profiles, by file. */
  function ViewOf(d: Dir, table: Table): View {
    map file | file in d && Loads(d, file, table) :: Loaded(file, d[file], table).value
  }

  /** The files that a reader of the store can see at all. */
  function Visible(d: Dir): Dir {
    map file | file in d && IsJson(file) :: d[file]
  }

  /** Loaded profiles are at the supported version and named after their file. */
  lemma LoadedIsCurrent(file: string, c: Content, table: Table)
    requires IsJson(file) && Loaded(file, c, table).Ok?
    ensures Loaded(file, c, table).value.schemaVersion == 1
    ensures Loaded(file, c, table).value.body.profileId == StemOf(file)
  {
    MigrateTwice(c.raw, table);
  }

  /** A file loads as a profile exactly when it holds an object from which a run of
      upgrades reaches the supported version with valid fields, named after the file. */
  lemma LoadsExactly(file: string, c: Content, p: Profile, table: Table)
    requires IsJson(file)
    ensures Loaded(file, c, table) == Ok(p) <==>
      && p.schemaVersion == 1 && p.body.profileId == StemOf(file)
      && c.Object? && exists data :: ReachesCurrent(c.raw, data, table) && data.body == Some(p.body)
  {
    if c.Object? {
      if Migrated(c.raw, table).Ok? {
        var data := Migrated(c.raw, table).value;
        MigrateTwice(c.raw, table);
        MigratedExactly(c.raw, data, TooNew(0), table);
      }
      forall data | ReachesCurrent(c.raw, data, table) ensures Migrated(c.raw, table) == Ok(data) {
        MigratedExactly(c.raw, data, TooNew(0), table);
      }
    }
  }

  /** And it fails to load, with this error, in exactly these ways. */
  ghost predicate LoadFails(file: string, c: Content, e: ProfileError, table: Table)
    requires IsJson(file)
  {
    match c
    case Torn => e == Unreadable
    case NotJsonObject => e == NotAnObject
    case Object(raw) => GetsStuck(raw, e, table) || exists data :: ReachesCurrent(raw, data, table) && Rejected(file, data, e)
  }

  /** Validation rejects the fields, or the id is not the file's. */
  predicate Rejected(file: string, data: Raw, e: ProfileError)
    requires IsJson(file)
  {
    match data.body
    case None => e == InvalidProfile
    case Some(b) => b.profileId != StemOf(file) && e == WrongName(b.profileId)
  }

  lemma FailsExactly(file: string, c: Content, e: ProfileError, table: Table)
    requires IsJson(file)
    ensures Loaded(file, c, table) == Err(e) <==> LoadFails(file, c, e, table)
  {
    if c.Object? {
      var m := Migrated(c.raw, table);
      if m.Ok? {
        MigrateTwice(c.raw, table);
        MigratedExactly(c.raw, m.value, e, table);
      } else {
        MigratedExactly(c.raw, c.raw, e, table);
      }
      forall data | ReachesCurrent(c.raw, data, table) ensures m == Ok(data) {
        MigratedExactly(c.raw, data, e, table);
      }
    }
  }

  /** A file without a version loads as version 1, under its own name. */
  lemma LoadsWithoutVersion(file: string, b: Body, table: Table)
    requires IsJson(file)
    ensures Loaded(file, Object(Raw(Missing, Some(b))), table) == Ok(Profile(1, b)) <==> b.profileId == StemOf(file)
  {}

  /** A saved profile loads back as itself, under any migration table, exactly when it
      carries the supported version. */
  lemma SavedLoadsBack(p: Profile, table: Table)
    requires p.body.profileId != ""
    ensures Reloaded(p, table) == Ok(p) <==> p.schemaVersion == 1
  {
    FileNames(p.body.profileId);
    if Reloaded(p, table) == Ok(p) {
      LoadedIsCurrent(FileOf(p.body.profileId), Encode(p), table);
    }
  }

  /** At any other version the file is refused for its version, or handed to the upgrader of
      that version. */
  lemma OtherVersionsReload(p: Profile, table: Table)
    ensures p.schemaVersion > 1 ==> Reloaded(p, table) == Err(TooNew(p.schemaVersion))
    ensures p.schemaVersion < 1 && p.schemaVersion !in table ==>
      Reloaded(p, table) == Err(NoMigration(p.schemaVersion))
  {
    UntouchedByMigration(Encode(p).raw, table);
  }

  /** What a profile loads as once it is written under its id. */
  function Reloaded(p: Profile, table: Table): Result<Profile, ProfileError> {
    FileNames(p.body.profileId);
    Loaded(FileOf(p.body.profileId), Encode(p), table)
  }

  /** A file's profile depends only on what is visible under its name. */
  lemma SameEntry(d: Dir, e: Dir, f: string, table: Table)
    requires f in Visible(d) <==> f in Visible(e)
    requires f in Visible(d) ==> Visible(d)[f] == Visible(e)[f]
    ensures f in ViewOf(d, table) <==> f in ViewOf(e, table)
    ensures f in ViewOf(d, table) ==> ViewOf(d, table)[f] == ViewOf(e, table)[f]
  {
    if f in ViewOf(d, table) { assert f in Visible(d); }
    if f in ViewOf(e, table) { assert f in Visible(e); }
  }

  lemma VisibleDecides(d: Dir, e: Dir, table: Table)
    requires Visible(d) == Visible(e)
    ensures ViewOf(d, table) == ViewOf(e, table)
  {
    var v, w := ViewOf(d, table), ViewOf(e, table);
    forall f ensures (f in v <==> f in w) && (f in v ==> v[f] == w[f]) {
      SameEntry(d, e, f, table);
    }
  }

  // --------------------------------------------------------------------- writing

  /** The directory after each step of `_write`: the temporary file opened, then
      filled, then moved over the profile. */
  function WriteSteps(d: Dir, p: Profile): seq<Dir> {
    StepsAt(d, TmpOf(p.body.profileId), FileOf(p.body.profileId), Encode(p))
  }

  function StepsAt(d: Dir, tmp: string, file: string, c: Content): seq<Dir> {
    [d[tmp := Torn], d[tmp := c], Moved(d, tmp, file, c)]
  }

  function Moved(d: Dir, tmp: string, file: string, c: Content): Dir { (d - {tmp})[file := c] }

  function Written(d: Dir, p: Profile): Dir {
    Moved(d, TmpOf(p.body.profileId), FileOf(p.body.profileId), Encode(p))
  }

  lemma HiddenFile(d: Dir, tmp: string, c: Content)
    requires !IsJson(tmp)
    ensures Visible(d[tmp := c]) == Visible(d)
  {
  }

  lemma SeenFile(d: Dir, tmp: string, file: string, c: Content)
    requires !IsJson(tmp) && IsJson(file)
    ensures Visible(Moved(d, tmp, file, c)) == Visible(d)[file := c]
  {
  }

  /** The steps one by one: the temporary file is opened empty, filled, and moved over the
      entry, leaving no temporary file behind. No other file is touched. */
  lemma WriteTouchesTwo(d: Dir, p: Profile)
    ensures var steps, file, tmp := WriteSteps(d, p), FileOf(p.body.profileId), TmpOf(p.body.profileId);
      && |steps| == 3 && tmp != file
      && tmp in steps[0] && steps[0][tmp] == Torn && steps[0] - {tmp} == d - {tmp}
      && tmp in steps[1] && steps[1][tmp] == Encode(p) && steps[1] - {tmp} == d - {tmp}
      && tmp !in steps[2] && file in steps[2] && steps[2][file] == Encode(p) && steps[2] - {file} == d - {tmp, file}
  {
    FileNames(p.body.profileId);
    StepsTouchTwo(d, TmpOf(p.body.profileId), FileOf(p.body.profileId), Encode(p));
  }

  lemma StepsTouchTwo(d: Dir, tmp: string, file: string, c: Content)
    requires tmp != file
    ensures var steps := StepsAt(d, tmp, file, c);
      && |steps| == 3
      && tmp in steps[0] && steps[0][tmp] == Torn && steps[0] - {tmp} == d - {tmp}
      && tmp in steps[1] && steps[1][tmp] == c && steps[1] - {tmp} == d - {tmp}
      && tmp !in steps[2] && file in steps[2] && steps[2][file] == c && steps[2] - {file} == d - {tmp, file}
  {}

  lemma StepsAtomic(d: Dir, tmp: string, file: string, c: Content)
    requires !IsJson(tmp) && IsJson(file)
    ensures var steps := StepsAt(d, tmp, file, c);
      && Visible(steps[0]) == Visible(steps[1]) == Visible(d)
      && Visible(steps[2]) == Visible(d)[file := c]
  {
    HiddenFile(d, tmp, Torn);
    HiddenFile(d, tmp, c);
    SeenFile(d, tmp, file, c);
  }

  /** After a crash anywhere in a write, what can be seen is either exactly what was
      there or that with the one entry replaced. */
  lemma WriteIsAtomic(d: Dir, p: Profile)
    ensures var steps := WriteSteps(d, p);
      && |steps| == 3 && steps[2] == Written(d, p)
      && Visible(steps[0]) == Visible(steps[1]) == Visible(d)
      && Visible(steps[2]) == Visible(d)[FileOf(p.body.profileId) := Encode(p)]
  {
    FileNames(p.body.profileId);
    StepsAtomic(d, TmpOf(p.body.profileId), FileOf(p.body.profileId), Encode(p));
  }

  /** A view with one file's entry replaced by what the file now loads as, if anything. */
  function Replaced(v: View, file: string, r: Result<Profile, ProfileError>): View {
    match r
    case Ok(p) => v[file := p]
    case Err(_) => v - {file}
  }

  /** On the loadable profiles a completed write replaces one entry, by what the file loads
      as or by nothing. */
  lemma WriteReplaces(d: Dir, p: Profile, table: Table)
    ensures ViewOf(Written(d, p), table) == Replaced(ViewOf(d, table), FileOf(p.body.profileId), Reloaded(p, table))
  {
    FileNames(p.body.profileId);
    WriteIsAtomic(d, p);
    ViewReplaced(d, Written(d, p), FileOf(p.body.profileId), Encode(p), table);
  }

  lemma ViewReplaced(d: Dir, e: Dir, file: string, c: Content, table: Table)
    requires IsJson(file) && Visible(e) == Visible(d)[file := c]
    ensures ViewOf(e, table) == Replaced(ViewOf(d, table), file, Loaded(file, c, table))
  {
    var v, w := ViewOf(d, table), ViewOf(e, table);
    ViewFrame(d, e, file, c, table);
    EntryOf(e, file, c, table);
    match Loaded(file, c, table)
    case Ok(q) => Patched(v, w, file, q);
    case Err(_) => Dropped(v, w, file);
  }

  lemma EntryOf(e: Dir, file: string, c: Content, table: Table)
    requires IsJson(file) && file in Visible(e) && Visible(e)[file] == c
    ensures match Loaded(file, c, table)
      case Ok(q) => file in ViewOf(e, table) && ViewOf(e, table)[file] == q
      case Err(_) => file !in ViewOf(e, table)
  {
  }

  /** At the supported version it is a map update. */
  lemma WriteUpdatesView(d: Dir, p: Profile, table: Table)
    requires p.body.profileId != "" && p.schemaVersion == SCHEMA_VERSION
    ensures ViewOf(Written(d, p), table) == ViewOf(d, table)[FileOf(p.body.profileId) := p]
  {
    WriteReplaces(d, p, table);
    SavedLoadsBack(p, table);
  }

  lemma Dropped(v: View, w: View, file: string)
    requires w - {file} == v - {file} && file !in w
    ensures w == v - {file}
  {
    assert w - {file} == w;
  }

  lemma Patched(v: View, w: View, file: string, p: Profile)
    requires w - {file} == v - {file} && file in w && w[file] == p
    ensures w == v[file := p]
  {
    forall f | f in w ensures f in v[file := p] && w[f] == v[file := p][f] {
      if f != file { assert f in w - {file} && (w - {file})[f] == (v - {file})[f]; }
    }
    forall f | f in v ensures f in w {
      if f != file { assert f in v - {file}; }
    }
  }

  /** Replacing one visible file leaves every other file's profile alone. */
  lemma ViewFrame(d: Dir, e: Dir, file: string, c: Content, table: Table)
    requires Visible(e) == Visible(d)[file := c]
    ensures ViewOf(e, table) - {file} == ViewOf(d, table) - {file}
  {
    var v, w := ViewOf(d, table), ViewOf(e, table);
    forall f | f != file ensures (f in v <==> f in w) && (f in v ==> v[f] == w[f]) {
      SameEntry(d, e, f, table);
    }
  }

  /** Until its last step a write changes nothing that loads. */
  lemma ViewOfWriteSteps(d: Dir, p: Profile, table: Table)
    ensures var steps := WriteSteps(d, p);
      && |steps| == 3 && steps[2] == Written(d, p)
      && ViewOf(steps[0], table) == ViewOf(d, table) && ViewOf(steps[1], table) == ViewOf(d, table)
  {
    WriteIsAtomic(d, p);
    VisibleDecides(d, WriteSteps(d, p)[0], table);
    VisibleDecides(d, WriteSteps(d, p)[1], table);
  }

  /** So wherever it stops, the view is the old one or the new one. */
  lemma ViewOfWriteStep(d: Dir, p: Profile, c: Dir, table: Table)
    requires c in WriteSteps(d, p)
    ensures ViewOf(c, table) == ViewOf(d, table) || ViewOf(c, table) == ViewOf(Written(d, p), table)
  {
    ViewOfWriteSteps(d, p, table);
    var steps := WriteSteps(d, p);
    assert c == steps[0] || c == steps[1] || c == steps[2];
  }

  // -------------------------------------------------------------------- one entry

  /** `get`. */
  function Found(d: Dir, id: string, table: Table): Result<Profile, ProfileError> {
    if !ValidId(id) then Err(InvalidId(id))
    else if FileOf(id) !in d then Err(NotFound(id))
    else
      FileNames(id);
      Loaded(FileOf(id), d[FileOf(id)], table)
  }

  /** `get` finds exactly the profiles of the view, under their own ids. */
  lemma FoundIsLookup(d: Dir, id: string, p: Profile, table: Table)
    ensures Found(d, id, table) == Ok(p) <==>
      ValidId(id) && FileOf(id) in ViewOf(d, table) && ViewOf(d, table)[FileOf(id)] == p
    ensures Found(d, id, table) == Ok(p) ==> p.body.profileId == id && p.schemaVersion == SCHEMA_VERSION
  {
    FileNames(id);
    if Found(d, id, table) == Ok(p) {
      LoadedIsCurrent(FileOf(id), d[FileOf(id)], table);
    }
  }

  /** And otherwise says why: the id is not valid, there is no such file, or the file does
      not load. */
  lemma FoundFails(d: Dir, id: string, e: ProfileError, table: Table)
    ensures IsJson(FileOf(id))
    ensures Found(d, id, table) == Err(e) <==>
      if !ValidId(id) then e == InvalidId(id)
      else if FileOf(id) !in d then e == NotFound(id)
      else LoadFails(FileOf(id), d[FileOf(id)], e, table)
  {
    FileNames(id);
    if FileOf(id) in d { FailsExactly(FileOf(id), d[FileOf(id)], e, table); }
  }

  /** What the view says of a file. */
  lemma InView(d: Dir, file: string, table: Table)
    requires file in ViewOf(d, table)
    ensures var p := ViewOf(d, table)[file];
      && p.schemaVersion == SCHEMA_VERSION
      && (ValidId(p.body.profileId) ==> file == FileOf(p.body.profileId))
  {
    LoadedIsCurrent(file, d[file], table);
    if ValidId(ViewOf(d, table)[file].body.profileId) { StemNames(file); }
  }

  /** `unlink`. */
  function Removed(d: Dir, id: string): Dir { d - {FileOf(id)} }

  lemma RemoveShrinksView(d: Dir, id: string, table: Table)
    ensures ViewOf(Removed(d, id), table) == ViewOf(d, table) - {FileOf(id)}
  {
  }
}
