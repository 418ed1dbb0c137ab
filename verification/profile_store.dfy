/** `ProfileStore`: the directory and the error list, changed step by step. */
module ProfileStoreObject {
  import opened Basics
  import opened Migration
  import opened NameOrder
  import opened ProfileDirectory
  import opened ProfileDesignation
  import opened ProfileHistory

  class ProfileStore {
    /** The migrations registered for the process. */
    const table: Table
    /** The files under the root. */
    var dir: Dir
    var errors: seq<(string, ProfileError)>
    /** The directory after every file-system step so far. */
    ghost var trail: seq<Dir>

    /** `o` is what happened to the directory, with exactly its steps on the way. */
    twostate predicate Did(o: Outcome)
      reads this
    {
      dir == o.dir && trail == old(trail) + o.steps
    }

    constructor (root: Dir, migrations: Table)
      ensures dir == root && table == migrations && errors == [] && trail == []
    {
      dir, table, errors, trail := root, migrations, [], [];
    }

    method Load(file: string) returns (r: Result<Profile, ProfileError>)
      requires file in dir && IsJson(file)
      ensures r == Loaded(file, dir[file], table)
    {
      match dir[file]
      case Torn => return Err(Unreadable);
      case NotJsonObject => return Err(NotAnObject);
      case Object(raw) =>
        var data := Migrate(raw, table);
        if data.Err? { return Err(data.error); }
        r := Validated(data.value);
        if r.Ok? && r.value.body.profileId != StemOf(file) {
          r := Err(WrongName(r.value.body.profileId));
        }
    }

    /** `sorted(root.glob("*.json"))`. */
    method Names() returns (names: seq<string>)
      ensures names == NamesOf(dir)
    {
      var files := set f | f in dir && IsJson(f);
      names := [];
      ghost var all := files;
      while files != {}
        invariant files <= all && Ascending(names)
        invariant forall f :: f in names <==> f in all - files
        decreases files
      {
        var f :| f in files;
        InsertNameKeeps(f, names);
        names := InsertName(f, names);
        files := files - {f};
      }
      assert forall f :: f in all <==> f in dir && IsJson(f);
      ListingUnique(names, NamesOf(dir));
    }

    method Scan() returns (profiles: seq<Profile>)
      modifies this`errors
      ensures profiles == LoadAll(ViewOf(dir, table), NamesOf(dir))
      ensures errors == Failures(dir, NamesOf(dir), table)
    {
      var names := Names();
      profiles := [];
      var failed: seq<(string, ProfileError)> := [];
      ghost var v := ViewOf(dir, table);
      for i := 0 to |names|
        invariant LoadAll(v, names) == profiles + LoadAll(v, names[i..])
        invariant Failures(dir, names, table) == failed + Failures(dir, names[i..], table)
      {
        ScanStep(dir, names, i, table, profiles, failed);
        var r := Load(names[i]);
        match r
        case Ok(p) => profiles := profiles + [p];
        case Err(e) => failed := failed + [(names[i], e)];
      }
      assert names[|names|..] == [];
      errors := failed;
    }

    method Write(p: Profile) returns (failure: Option<ProfileError>)
      modifies this`dir, this`trail
      ensures Did(WriteOne(old(dir), p)) && failure == WriteOne(old(dir), p).failure
    {
      if !ValidId(p.body.profileId) { return Some(InvalidId(p.body.profileId)); }
      var path := FileOf(p.body.profileId);
      var tmp := path + ".tmp";
      dir := dir[tmp := Torn];
      trail := trail + [dir];
      dir := dir[tmp := Encode(p)];
      trail := trail + [dir];
      assert old(dir)[tmp := Torn][tmp := Encode(p)] == old(dir)[tmp := Encode(p)];
      dir := (dir - {tmp})[path := dir[tmp]];
      assert old(dir)[tmp := Encode(p)] - {tmp} == old(dir) - {tmp};
      trail := trail + [dir];
      return None;
    }

    /** Oldest first, then by id, and as many times each as the scan found it. */
    method List() returns (profiles: seq<Profile>)
      modifies this`errors
      ensures Chronological(profiles)
      ensures multiset(profiles) == multiset(LoadAll(ViewOf(dir, table), NamesOf(dir)))
      ensures profiles == SortProfiles(LoadAll(ViewOf(dir, table), NamesOf(dir)))
      ensures errors == Failures(dir, NamesOf(dir), table)
    {
      var scan := Scan();
      SortedPermutation(scan);
      profiles := SortProfiles(scan);
    }

    method Get(id: string) returns (r: Result<Profile, ProfileError>)
      ensures r == Found(dir, id, table)
    {
      if !ValidId(id) { return Err(InvalidId(id)); }
      if FileOf(id) !in dir { return Err(NotFound(id)); }
      FileNames(id);
      r := Load(FileOf(id));
    }

    method Save(p: Profile, freshId: string, now: string) returns (r: Result<Profile, ProfileError>)
      modifies this`dir, this`trail
      ensures Did(Perform(old(dir), Op.Save(p, freshId, now), table))
      ensures r == Answer(Perform(old(dir), Op.Save(p, freshId, now), table), Assigned(p, freshId, now))
    {
      var q := Assigned(p, freshId, now);
      var failure := Write(q);
      if failure.Some? { return Err(failure.value); }
      return Ok(q);
    }

    method Delete(id: string) returns (failure: Option<ProfileError>)
      modifies this`dir, this`trail
      ensures Did(Perform(old(dir), Op.Delete(id), table))
      ensures failure == Perform(old(dir), Op.Delete(id), table).failure
    {
      var r := Get(id);
      if r.Err? { return Some(r.error); }
      if r.value.body.isInitial { return Some(InitialProtected(id)); }
      dir := dir - {FileOf(id)};
      trail := trail + [dir];
      return None;
    }

    method Rename(id: string, name: string, notes: Option<string>) returns (r: Result<Profile, ProfileError>)
      modifies this`dir, this`trail
      ensures Did(Perform(old(dir), Op.Rename(id, name, notes), table))
      ensures old(Found(dir, id, table)).Err? ==> r == old(Found(dir, id, table))
      ensures old(Found(dir, id, table)).Ok? ==>
        r == Ok(Renamed(old(Found(dir, id, table)).value, name, notes))
    {
      r := Get(id);
      if r.Err? { return; }
      FoundIsLookup(dir, id, r.value, table);
      var q := Renamed(r.value, name, notes);
      var failure := Write(q);
      return Ok(q);
    }

    /** Rivals lose the flag first, the target gains it last; a write that refuses stops
        everything where it is. */
    method SetInitial(id: string) returns (failure: Option<ProfileError>)
      modifies this`dir, this`trail, this`errors
      ensures Did(Perform(old(dir), Op.SetInitial(id), table))
      ensures failure == Perform(old(dir), Op.SetInitial(id), table).failure
    {
      var r := Get(id);
      if r.Err? { return Some(r.error); }
      var target := r.value;
      var others := Scan();
      FoundIsLookup(dir, id, target, table);
      DesignateParts(dir, id, target, table, trail);
      failure := ClearRivals(others, target);
      if failure.Some? { return; }
      failure := Write(Flagged(target, true));
    }

    /** The loop of `set_initial`. */
    method ClearRivals(others: seq<Profile>, target: Profile) returns (failure: Option<ProfileError>)
      modifies this`dir, this`trail
      ensures Did(ClearOthers(old(dir), others, target))
      ensures failure == ClearOthers(old(dir), others, target).failure
    {
      for i := 0 to |others|
        invariant Leads(ClearOthers(old(dir), others, target), old(trail), trail, ClearOthers(dir, others[i..], target))
      {
        ClearStep(dir, others, i, target);
        if MustClear(others[i], target) {
          failure := Write(Flagged(others[i], false));
          if failure.Some? { return; }
        }
      }
      assert others[|others|..] == [];
      return None;
    }

    method InitialFor(kind: Kind) returns (p: Option<Profile>)
      modifies this`errors
      ensures p == InitialOf(dir, kind, table)
    {
      var ps := List();
      for i := 0 to |ps|
        invariant FirstInitial(ps[i..], kind) == FirstInitial(ps, kind)
      {
        assert ps[i..][0] == ps[i] && ps[i..][1..] == ps[i + 1..];
        if ps[i].body.kind == kind && ps[i].body.isInitial { return Some(ps[i]); }
      }
      return None;
    }
  }

  lemma DesignateParts(d: Dir, id: string, target: Profile, table: Table, t: seq<Dir>)
    requires Found(d, id, table) == Ok(target)
    ensures var whole, p := Perform(d, Op.SetInitial(id), table), Flagged(target, true);
      var cleared := ClearOthers(d, LoadAll(ViewOf(d, table), NamesOf(d)), target);
      if cleared.failure.Some? then whole == cleared
      else
        && whole.dir == Written(cleared.dir, p) && whole.failure == None
        && t + whole.steps == (t + cleared.steps) + WriteSteps(cleared.dir, p)
  {
  }

  /** What is done so far, followed by the rest, is the whole. */
  ghost predicate Leads(whole: Outcome, start: seq<Dir>, trail: seq<Dir>, rest: Outcome) {
    trail + rest.steps == start + whole.steps && rest.dir == whole.dir && rest.failure == whole.failure
  }

  lemma ClearStep(d: Dir, others: seq<Profile>, i: nat, target: Profile)
    requires i < |others|
    ensures var now, p := ClearOthers(d, others[i..], target), Flagged(others[i], false);
      if !MustClear(others[i], target) then now == ClearOthers(d, others[i + 1..], target)
      else if !ValidId(p.body.profileId) then now == Outcome([], d, Some(InvalidId(p.body.profileId)))
      else
        var rest := ClearOthers(Written(d, p), others[i + 1..], target);
        && now == rest.(steps := WriteSteps(d, p) + rest.steps)
        && forall t: seq<Dir> :: t + now.steps == (t + WriteSteps(d, p)) + rest.steps
  {
    assert others[i..][0] == others[i] && others[i..][1..] == others[i + 1..];
  }

  lemma ScanStep(d: Dir, names: seq<string>, i: nat, table: Table, ps: seq<Profile>, es: seq<(string, ProfileError)>)
    requires i < |names| && forall f :: f in names ==> f in d && IsJson(f)
    ensures var v, r := ViewOf(d, table), Loaded(names[i], d[names[i]], table);
      match r
      case Ok(p) =>
        && ps + LoadAll(v, names[i..]) == (ps + [p]) + LoadAll(v, names[i + 1..])
        && Failures(d, names[i..], table) == Failures(d, names[i + 1..], table)
      case Err(e) =>
        && LoadAll(v, names[i..]) == LoadAll(v, names[i + 1..])
        && es + Failures(d, names[i..], table) == (es + [(names[i], e)]) + Failures(d, names[i + 1..], table)
  {
    LoadStep(ViewOf(d, table), names, i, ps);
    FailStep(d, names, i, table, es);
  }

  lemma LoadStep(v: View, names: seq<string>, i: nat, ps: seq<Profile>)
    requires i < |names|
    ensures names[i] in v ==> ps + LoadAll(v, names[i..]) == (ps + [v[names[i]]]) + LoadAll(v, names[i + 1..])
    ensures names[i] !in v ==> LoadAll(v, names[i..]) == LoadAll(v, names[i + 1..])
  {
    assert names[i..][0] == names[i] && names[i..][1..] == names[i + 1..];
  }

  lemma FailStep(d: Dir, names: seq<string>, i: nat, table: Table, es: seq<(string, ProfileError)>)
    requires i < |names| && forall f :: f in names ==> f in d && IsJson(f)
    ensures var r := Loaded(names[i], d[names[i]], table);
      && (r.Ok? ==> Failures(d, names[i..], table) == Failures(d, names[i + 1..], table))
      && (r.Err? ==> es + Failures(d, names[i..], table)
                     == (es + [(names[i], r.error)]) + Failures(d, names[i + 1..], table))
  {
    assert names[i..][0] == names[i] && names[i..][1..] == names[i + 1..];
  }

  /** The value a write answers with when it does not fail. */
  ghost function Answer(o: Outcome, p: Profile): Result<Profile, ProfileError> {
    match o.failure
    case None => Ok(p)
    case Some(e) => Err(e)
  }
}
