/** Scanning the directory, and `set_initial`: a write per cleared flag and one for the
    target, with a crash possible after every file-system step. */
module ProfileDesignation {
  import opened Basics
  import opened Migration
  import opened NameOrder
  import opened ProfileDirectory

  // -------------------------------------------------------------------- scanning

  ghost predicate Listing(names: seq<string>, d: Dir) {
    && Ascending(names)
    && forall f :: f in names <==> f in d && IsJson(f)
  }

  lemma {:induction false} ListingExists(files: set<string>)
    ensures exists names :: Ascending(names) && forall f :: f in names <==> f in files
  {
    if files == {} {
      assert Ascending([]) && forall f :: f in [] <==> f in files;
    } else {
      var x :| x in files;
      ListingExists(files - {x});
      var rest :| Ascending(rest) && forall f :: f in rest <==> f in files - {x};
      InsertNameKeeps(x, rest);
    }
  }

  /** The ascending names of the `*.json` files. */
  ghost function NamesOf(d: Dir): (names: seq<string>)
    ensures Listing(names, d)
  {
    var files := set f | f in d && IsJson(f);
    ListingExists(files);
    var names :| Ascending(names) && forall f :: f in names <==> f in files;
    names
  }

  function LoadAll(v: View, names: seq<string>): seq<Profile> {
    if names == [] then []
    else (if names[0] in v then [v[names[0]]] else []) + LoadAll(v, names[1..])
  }

  function Failures(d: Dir, names: seq<string>, table: Table): seq<(string, ProfileError)>
    requires forall f :: f in names ==> f in d && IsJson(f)
  {
    if names == [] then []
    else
      var r := Loaded(names[0], d[names[0]], table);
      (if r.Err? then [(names[0], r.error)] else []) + Failures(d, names[1..], table)
  }

  lemma {:induction false} LoadAllExact(v: View, names: seq<string>, p: Profile)
    ensures p in LoadAll(v, names) <==> exists f :: f in names && f in v && v[f] == p
  {
    if names != [] {
      assert names == [names[0]] + names[1..];
      LoadAllExact(v, names[1..], p);
    }
  }

  lemma {:induction false} FailuresExact(d: Dir, names: seq<string>, table: Table, f: string, e: ProfileError)
    requires forall f :: f in names ==> f in d && IsJson(f)
    ensures (f, e) in Failures(d, names, table) <==> f in names && Loaded(f, d[f], table) == Err(e)
    ensures |LoadAll(ViewOf(d, table), names)| + |Failures(d, names, table)| == |names|
  {
    if names != [] {
      assert names == [names[0]] + names[1..];
      assert names[0] in ViewOf(d, table) <==> Loaded(names[0], d[names[0]], table).Ok?;
      FailuresExact(d, names[1..], table, f, e);
    }
  }

  /** `_scan` splits the `*.json` files exactly: what loads is returned, what does not
      is recorded with its error, and nothing is counted twice or dropped. */
  lemma ScanSplits(d: Dir, table: Table, f: string, p: Profile, e: ProfileError)
    ensures p in LoadAll(ViewOf(d, table), NamesOf(d)) <==> p in ViewOf(d, table).Values
    ensures (f, e) in Failures(d, NamesOf(d), table) <==>
      f in d && IsJson(f) && Loaded(f, d[f], table) == Err(e)
    ensures |LoadAll(ViewOf(d, table), NamesOf(d))| + |Failures(d, NamesOf(d), table)| == |NamesOf(d)|
  {
    LoadAllExact(ViewOf(d, table), NamesOf(d), p);
    FailuresExact(d, NamesOf(d), table, f, e);
  }

  /** The names that load. */
  function Loadable(v: View, names: seq<string>): seq<string> {
    if names == [] then []
    else (if names[0] in v then [names[0]] else []) + Loadable(v, names[1..])
  }

  lemma {:induction false} LoadableExact(v: View, names: seq<string>)
    requires Ascending(names)
    ensures Ascending(Loadable(v, names))
    ensures forall f :: f in Loadable(v, names) <==> f in names && f in v
    ensures LoadAll(v, Loadable(v, names)) == LoadAll(v, names)
    ensures |LoadAll(v, names)| == |Loadable(v, names)|
    ensures forall i :: 0 <= i < |LoadAll(v, names)| ==> LoadAll(v, names)[i] == v[Loadable(v, names)[i]]
  {
    if names != [] {
      assert names == [names[0]] + names[1..];
      var rest := Loadable(v, names[1..]);
      LoadableExact(v, names[1..]);
      if names[0] in v {
        forall j | 0 <= j < |rest| ensures Le(names[0], rest[j]) && names[0] != rest[j] { assert rest[j] in rest; }
        assert Loadable(v, names) == [names[0]] + rest && ([names[0]] + rest)[1..] == rest;
      } else {
        assert Loadable(v, names) == rest;
      }
    }
  }

  function FilesOf(es: seq<(string, ProfileError)>): seq<string> { seq(|es|, i requires 0 <= i < |es| => es[i].0) }

  lemma {:induction false} FailuresAscend(d: Dir, names: seq<string>, table: Table)
    requires Ascending(names) && forall f :: f in names ==> f in d && IsJson(f)
    ensures Ascending(FilesOf(Failures(d, names, table)))
    ensures forall f :: f in FilesOf(Failures(d, names, table)) ==> f in names
  {
    if names != [] {
      assert names == [names[0]] + names[1..];
      FailuresAscend(d, names[1..], table);
      var rest := Failures(d, names[1..], table);
      if Failures(d, names, table) != rest {
        assert FilesOf(Failures(d, names, table)) == [names[0]] + FilesOf(rest);
        forall j | 0 <= j < |FilesOf(rest)| ensures Le(names[0], FilesOf(rest)[j]) && names[0] != FilesOf(rest)[j] {
          assert FilesOf(rest)[j] in names[1..];
        }
      }
    }
  }

  /** Both parts of a scan come in the order of the file names. */
  lemma ScanInOrder(d: Dir, table: Table)
    ensures var v := ViewOf(d, table);
      var names, ps := Loadable(v, NamesOf(d)), LoadAll(v, NamesOf(d));
      && Ascending(names) && (forall f :: f in names <==> f in v)
      && |ps| == |names| && (forall i :: 0 <= i < |ps| ==> ps[i] == v[names[i]])
    ensures Ascending(FilesOf(Failures(d, NamesOf(d), table)))
  {
    LoadableExact(ViewOf(d, table), NamesOf(d));
    FailuresAscend(d, NamesOf(d), table);
  }

  // ----------------------------------------------------------------- set_initial

  function Flagged(p: Profile, on: bool): Profile { p.(body := p.body.(isInitial := on)) }

  /** Another profile of the target's kind that carries the flag. */
  predicate MustClear(other: Profile, target: Profile) {
    && other.body.profileId != target.body.profileId
    && other.body.kind == target.body.kind
    && other.body.isInitial
  }

  /** An operation's file-system steps, the directory it leaves, and its error if any. */
  datatype Outcome = Outcome(steps: seq<Dir>, dir: Dir, failure: Option<ProfileError>)

  function ClearOthers(d: Dir, others: seq<Profile>, target: Profile): Outcome
    decreases |others|
  {
    if others == [] then Outcome([], d, None)
    else if !MustClear(others[0], target) then ClearOthers(d, others[1..], target)
    else if !ValidId(others[0].body.profileId) then
      Outcome([], d, Some(InvalidId(others[0].body.profileId)))
    else
      var p := Flagged(others[0], false);
      var rest := ClearOthers(Written(d, p), others[1..], target);
      rest.(steps := WriteSteps(d, p) + rest.steps)
  }

  ghost function Designate(d: Dir, id: string, table: Table): Outcome {
    match Found(d, id, table)
    case Err(e) => Outcome([], d, Some(e))
    case Ok(target) =>
      var cleared := ClearOthers(d, LoadAll(ViewOf(d, table), NamesOf(d)), target);
      if cleared.failure.Some? then cleared
      else
        var p := Flagged(target, true);
        Outcome(cleared.steps + WriteSteps(cleared.dir, p), Written(cleared.dir, p), None)
  }

  // ---------------------------------------------------------- what holds meanwhile

  predicate SameFlag(p: Profile, q: Profile) {
    p.body.isInitial && q.body.isInitial && p.body.kind == q.body.kind
  }

  /** At most one flagged profile of each kind. */
  ghost predicate AtMostOne(v: View) {
    forall f, g :: f in v && g in v && SameFlag(v[f], v[g]) ==> f == g
  }

  predicate NamedEntry(f: string, p: Profile) {
    && p.schemaVersion == SCHEMA_VERSION
    && (ValidId(p.body.profileId) ==> f == FileOf(p.body.profileId))
  }

  /** Current versions, and each valid id only in its own file. */
  ghost predicate Named(v: View) {
    forall f :: f in v ==> NamedEntry(f, v[f])
  }

  lemma ViewsAreNamed(d: Dir, table: Table)
    ensures Named(ViewOf(d, table))
  {
    forall f | f in ViewOf(d, table) ensures NamedEntry(f, ViewOf(d, table)[f]) {
      InView(d, f, table);
    }
  }

  /** Clearing under way: nothing but flags of the target's rivals has gone. */
  ghost predicate Clearing(was: View, v: View, target: Profile) {
    && v.Keys == was.Keys
    && forall f :: f in v ==> v[f] == was[f] || Cleared(was[f], v[f], target)
  }

  /** A rival without its flag, and otherwise the same. */
  predicate Cleared(was: Profile, now: Profile, target: Profile) {
    MustClear(was, target) && now == was.(body := was.body.(isInitial := false))
  }

  /** Whoever still must be cleared is yet to come. */
  ghost predicate Pending(v: View, target: Profile, others: seq<Profile>) {
    forall f :: f in v && MustClear(v[f], target) ==> v[f] in others
  }

  /** The view that `set_initial` is for: the target flagged, no other of its kind. */
  function Designated(v: View, target: Profile): View {
    map f | f in v ::
      if f == FileOf(target.body.profileId) then Flagged(v[f], true)
      else if v[f].body.kind == target.body.kind then Flagged(v[f], false)
      else v[f]
  }

  lemma ClearOneView(was: View, v: View, target: Profile, others: seq<Profile>)
    requires Named(was) && Clearing(was, v, target) && Pending(v, target, others)
    requires others != [] && MustClear(others[0], target)
    requires others[0] in was.Values && ValidId(others[0].body.profileId)
    ensures var w := v[FileOf(others[0].body.profileId) := Flagged(others[0], false)];
      Clearing(was, w, target) && Pending(w, target, others[1..])
  {
    var o := others[0];
    var file := FileOf(o.body.profileId);
    var at :| at in was && was[at] == o;
    assert NamedEntry(at, was[at]);
    assert at == file;
    var w := v[file := Flagged(o, false)];
    forall f | f in w ensures w[f] == was[f] || Cleared(was[f], w[f], target) {
      assert f in v;
    }
    forall f | f in w && MustClear(w[f], target) ensures w[f] in others[1..] {
      assert f != file && v[f] in others;
      assert v[f] == was[f];
      assert others == [o] + others[1..];
    }
  }

  lemma ClearOne(was: View, d: Dir, others: seq<Profile>, target: Profile, table: Table)
    requires Named(was) && Clearing(was, ViewOf(d, table), target)
    requires Pending(ViewOf(d, table), target, others)
    requires others != [] && MustClear(others[0], target)
    requires others[0] in was.Values && ValidId(others[0].body.profileId)
    ensures var p := Flagged(others[0], false);
      && (forall c :: c in WriteSteps(d, p) ==> Clearing(was, ViewOf(c, table), target))
      && Clearing(was, ViewOf(Written(d, p), table), target)
      && Pending(ViewOf(Written(d, p), table), target, others[1..])
  {
    var p := Flagged(others[0], false);
    var at :| at in was && was[at] == others[0];
    assert NamedEntry(at, was[at]);
    var v := ViewOf(d, table);
    var w := v[FileOf(p.body.profileId) := p];
    ClearOneView(was, v, target, others);
    assert ViewOf(Written(d, p), table) == w by { WriteUpdatesView(d, p, table); }
    forall c | c in WriteSteps(d, p) ensures Clearing(was, ViewOf(c, table), target) {
      ViewOfWriteStep(d, p, c, table);
    }
  }

  /** Every state while flags are being cleared, wherever a crash or an error stops it. */
  lemma {:induction false} ClearStages(was: View, d: Dir, others: seq<Profile>, target: Profile, table: Table)
    requires Named(was) && Clearing(was, ViewOf(d, table), target)
    requires Pending(ViewOf(d, table), target, others)
    requires forall p :: p in others ==> p in was.Values
    ensures var o := ClearOthers(d, others, target);
      && (forall c :: c in o.steps ==> Clearing(was, ViewOf(c, table), target))
      && Clearing(was, ViewOf(o.dir, table), target)
      && (o.failure == None ==> Pending(ViewOf(o.dir, table), target, []))
    decreases |others|
  {
    if others != [] {
      var o := others[0];
      if !MustClear(o, target) {
        assert others == [o] + others[1..];
        ClearStages(was, d, others[1..], target, table);
      } else if ValidId(o.body.profileId) {
        ClearOne(was, d, others, target, table);
        ClearStages(was, Written(d, Flagged(o, false)), others[1..], target, table);
      }
    }
  }

  lemma {:induction false} ClearCompletes(d: Dir, others: seq<Profile>, target: Profile)
    ensures ClearOthers(d, others, target).failure == None <==>
      forall p :: p in others && MustClear(p, target) ==> ValidId(p.body.profileId)
    decreases |others|
  {
    if others != [] {
      assert others == [others[0]] + others[1..];
      if MustClear(others[0], target) {
        ClearCompletes(Written(d, Flagged(others[0], false)), others[1..], target);
      } else {
        ClearCompletes(d, others[1..], target);
      }
    }
  }

  lemma DesignatedFromCleared(was: View, v: View, target: Profile)
    requires Named(was) && Clearing(was, v, target) && Pending(v, target, [])
    requires ValidId(target.body.profileId)
    requires FileOf(target.body.profileId) in was && was[FileOf(target.body.profileId)] == target
    ensures v[FileOf(target.body.profileId) := Flagged(target, true)] == Designated(was, target)
  {
    var file := FileOf(target.body.profileId);
    var w, x := v[file := Flagged(target, true)], Designated(was, target);
    forall f | f in x ensures w[f] == x[f] {
      if f != file {
        assert f in v && !MustClear(v[f], target);
        assert was[f].body.profileId != target.body.profileId;
      }
    }
  }

  /** `set_initial` step by step. Whatever the migrations and however many profiles carry
      the flag, every directory on the way (so every crash) keeps each loadable profile
      as it was except for flags of the target's kind: either some rivals have lost
      theirs and nothing else changed, or the designation is complete. */
  lemma SetInitialStages(d: Dir, id: string, table: Table)
    requires Found(d, id, table).Ok?
    ensures var was, target, o := ViewOf(d, table), Found(d, id, table).value, Designate(d, id, table);
      && (forall c :: c in o.steps ==>
            Clearing(was, ViewOf(c, table), target) || ViewOf(c, table) == Designated(was, target))
      && (o.failure == None ==> ViewOf(o.dir, table) == Designated(was, target))
      && (o.failure != None ==> Clearing(was, ViewOf(o.dir, table), target))
  {
    var was, target := ViewOf(d, table), Found(d, id, table).value;
    var others := LoadAll(was, NamesOf(d));
    FoundIsLookup(d, id, target, table);
    ViewsAreNamed(d, table);
    forall p ensures p in others <==> p in was.Values { LoadAllExact(was, NamesOf(d), p); }
    ClearStages(was, d, others, target, table);
    var cleared := ClearOthers(d, others, target);
    if cleared.failure == None {
      var p := Flagged(target, true);
      DesignatedFromCleared(was, ViewOf(cleared.dir, table), target);
      WriteUpdatesView(cleared.dir, p, table);
      forall c | c in WriteSteps(cleared.dir, p)
        ensures ViewOf(c, table) == ViewOf(cleared.dir, table) || ViewOf(c, table) == Designated(was, target)
      {
        ViewOfWriteStep(cleared.dir, p, c, table);
      }
    }
  }

  /** `set_initial` completes exactly when the target is found and no rival was put in the
      directory under a name that is no valid id; a rival that was makes `_write` refuse
      part-way, after rivals sorted before it have lost their flags. */
  lemma SetInitialCompletes(d: Dir, id: string, table: Table)
    ensures Designate(d, id, table).failure == None <==>
      && Found(d, id, table).Ok?
      && forall p :: p in ViewOf(d, table).Values && MustClear(p, Found(d, id, table).value) ==>
           ValidId(p.body.profileId)
  {
    if Found(d, id, table).Ok? {
      var was, target := ViewOf(d, table), Found(d, id, table).value;
      var others := LoadAll(was, NamesOf(d));
      forall p ensures p in others <==> p in was.Values { LoadAllExact(was, NamesOf(d), p); }
      ClearCompletes(d, others, target);
    }
  }

  /** What the completed designation is. */
  lemma DesignatedMeans(v: View, target: Profile)
    requires Named(v) && ValidId(target.body.profileId)
    requires FileOf(target.body.profileId) in v && v[FileOf(target.body.profileId)] == target
    ensures var w := Designated(v, target);
      && w.Keys == v.Keys
      && (forall f :: f in v ==> w[f] == v[f].(body := v[f].body.(isInitial := w[f].body.isInitial)))
      && (forall f :: f in v && v[f].body.kind != target.body.kind ==> w[f] == v[f])
      && (forall f :: f in v && v[f].body.kind == target.body.kind ==>
            (w[f].body.isInitial <==> f == FileOf(target.body.profileId)))
  {
  }

  /** The flag invariant survives a crash anywhere in `set_initial`, and its errors. */
  lemma SetInitialKeepsOne(d: Dir, id: string, table: Table)
    requires AtMostOne(ViewOf(d, table))
    ensures AtMostOne(ViewOf(Designate(d, id, table).dir, table))
    ensures forall c :: c in Designate(d, id, table).steps ==> AtMostOne(ViewOf(c, table))
  {
    if Found(d, id, table).Ok? {
      var was, target := ViewOf(d, table), Found(d, id, table).value;
      SetInitialStages(d, id, table);
      FoundIsLookup(d, id, target, table);
      ViewsAreNamed(d, table);
      DesignatedKeepsOne(was, target);
      forall v | Clearing(was, v, target) ensures AtMostOne(v) { ClearingKeepsOne(was, v, target); }
    }
  }

  lemma ClearingKeepsOne(was: View, v: View, target: Profile)
    requires AtMostOne(was) && Clearing(was, v, target)
    ensures AtMostOne(v)
  {
  }

  lemma DesignatedKeepsOne(v: View, target: Profile)
    requires AtMostOne(v) && Named(v) && ValidId(target.body.profileId)
    requires FileOf(target.body.profileId) in v && v[FileOf(target.body.profileId)] == target
    ensures AtMostOne(Designated(v, target))
  {
    DesignatedMeans(v, target);
  }
}
