/** The operations of the profile store on the directory: what each one does to every
    id, and what whole histories with crashes keep. */
module ProfileHistory {
  import opened Basics
  import opened Migration
  import opened NameOrder
  import opened ProfileDirectory
  import opened ProfileDesignation

  /** The random id and the clock are parameters of a save. */
  datatype Op =
    | Save(profile: Profile, freshId: string, now: string)
    | Rename(id: string, name: string, notes: Option<string>)
    | Delete(id: string)
    | SetInitial(id: string)

  /** `save` fills an empty id and an empty creation time. */
  function Assigned(p: Profile, freshId: string, now: string): Profile {
    var q := if p.body.profileId == "" then p.(body := p.body.(profileId := freshId)) else p;
    if q.body.createdAt == "" then q.(body := q.body.(createdAt := now)) else q
  }

  function Renamed(p: Profile, name: string, notes: Option<string>): Profile {
    var q := p.(body := p.body.(name := name));
    if notes.Some? then q.(body := q.body.(notes := notes.value)) else q
  }

  function WriteOne(d: Dir, p: Profile): Outcome {
    if !ValidId(p.body.profileId) then Outcome([], d, Some(InvalidId(p.body.profileId)))
    else Outcome(WriteSteps(d, p), Written(d, p), None)
  }

  function DeleteOne(d: Dir, id: string, table: Table): Outcome {
    match Found(d, id, table)
    case Err(e) => Outcome([], d, Some(e))
    case Ok(p) =>
      if p.body.isInitial then Outcome([], d, Some(InitialProtected(id)))
      else Outcome([Removed(d, id)], Removed(d, id), None)
  }

  function RenameOne(d: Dir, id: string, name: string, notes: Option<string>, table: Table): Outcome {
    match Found(d, id, table)
    case Err(e) => Outcome([], d, Some(e))
    case Ok(p) => WriteOne(d, Renamed(p, name, notes))
  }

  ghost function Perform(d: Dir, op: Op, table: Table): Outcome {
    match op
    case Save(p, freshId, now) => WriteOne(d, Assigned(p, freshId, now))
    case Rename(id, name, notes) => RenameOne(d, id, name, notes, table)
    case Delete(id) => DeleteOne(d, id, table)
    case SetInitial(id) => Designate(d, id, table)
  }

  // ------------------------------------------------------------- map id to profile

  /** Every lookup, of any id at all, gives the same in both directories. */
  ghost predicate SameLookups(c: Dir, d: Dir, table: Table) {
    forall id :: Found(c, id, table) == Found(d, id, table)
  }

  /** Every lookup gives the same, but for one id. */
  ghost predicate SameButFor(c: Dir, d: Dir, id: string, table: Table) {
    forall other :: other != id ==> Found(c, other, table) == Found(d, other, table)
  }

  lemma OtherFile(id: string, other: string)
    requires id != other
    ensures FileOf(other) != FileOf(id)
    ensures FileOf(other) != TmpOf(id)
  {
    assert FileOf(id)[..|id|] == id && FileOf(other)[..|other|] == other;
    FileNames(id);
    FileNames(other);
  }

  lemma FoundInFile(c: Dir, d: Dir, id: string, file: string, table: Table)
    requires file == FileOf(id)
    requires file in c <==> file in d
    requires file in c ==> c[file] == d[file]
    ensures Found(c, id, table) == Found(d, id, table)
  {
  }

  /** A write replaces one entry for every reader, at any version and in one step: until
      the last step nothing at all is different. */
  lemma WriteIsMapUpdate(d: Dir, p: Profile, table: Table)
    requires ValidId(p.body.profileId)
    ensures SameLookups(WriteSteps(d, p)[0], d, table)
    ensures SameLookups(WriteSteps(d, p)[1], d, table)
    ensures SameButFor(WriteSteps(d, p)[2], d, p.body.profileId, table)
    ensures Found(WriteSteps(d, p)[2], p.body.profileId, table) == Ok(p) <==> p.schemaVersion == SCHEMA_VERSION
  {
    var id := p.body.profileId;
    var tmp := TmpOf(id);
    forall other ensures FileOf(other) != tmp { FileNames(other); FileNames(id); }
    forall other ensures Found(d[tmp := Torn], other, table) == Found(d, other, table) {
      FoundInFile(d[tmp := Torn], d, other, FileOf(other), table);
    }
    forall other ensures Found(d[tmp := Encode(p)], other, table) == Found(d, other, table) {
      FoundInFile(d[tmp := Encode(p)], d, other, FileOf(other), table);
    }
    forall other | other != id ensures Found(Written(d, p), other, table) == Found(d, other, table) {
      OtherFile(id, other);
      FoundInFile(Written(d, p), d, other, FileOf(other), table);
    }
    SavedLoadsBack(p, table);
  }

  /** `get` after `save` returns what was saved, exactly when it has a valid id (its own
      or the fresh one) and the supported version; every other id is as before. What was
      saved is the profile that was given, but for an empty id or creation time. */
  lemma SaveThenGet(d: Dir, p: Profile, freshId: string, now: string, table: Table)
    ensures var q, o := Assigned(p, freshId, now), Perform(d, Save(p, freshId, now), table);
      && SameButFor(o.dir, d, q.body.profileId, table)
      && (o.failure == None <==> ValidId(q.body.profileId))
      && (Found(o.dir, q.body.profileId, table) == Ok(q) && o.failure == None <==>
            ValidId(q.body.profileId) && q.schemaVersion == 1)
      && (!ValidId(q.body.profileId) ==> o == Outcome([], d, Some(InvalidId(q.body.profileId))))
      && q == p.(body := p.body.(profileId := q.body.profileId, createdAt := q.body.createdAt))
      && q.body.profileId == (if p.body.profileId == "" then freshId else p.body.profileId)
      && q.body.createdAt == (if p.body.createdAt == "" then now else p.body.createdAt)
  {
    var q := Assigned(p, freshId, now);
    if ValidId(q.body.profileId) { WriteIsMapUpdate(d, q, table); }
  }

  /** So a profile without an id is always saved, under the fresh one, and found there. */
  lemma SaveWithoutId(d: Dir, p: Profile, freshId: string, now: string, table: Table)
    requires p.body.profileId == "" && ValidId(freshId) && p.schemaVersion == 1
    ensures var o := Perform(d, Save(p, freshId, now), table);
      && o.failure == None && |o.steps| == 3
      && Found(o.dir, freshId, table).Ok?
      && Found(o.dir, freshId, table).value.body.name == p.body.name
      && (p.body.createdAt == "" ==> Found(o.dir, freshId, table).value.body.createdAt == now)
  {
    SaveThenGet(d, p, freshId, now, table);
  }

  /** Saving again what `save` returned assigns nothing new and leaves all that can be seen
      as it was. */
  lemma SaveAgain(d: Dir, p: Profile, freshId: string, now: string, freshId': string, now': string, table: Table)
    requires Perform(d, Save(p, freshId, now), table).failure == None && now != ""
    ensures var q, e := Assigned(p, freshId, now), Perform(d, Save(p, freshId, now), table).dir;
      && Assigned(q, freshId', now') == q
      && Perform(e, Save(q, freshId', now'), table).failure == None
      && Visible(Perform(e, Save(q, freshId', now'), table).dir) == Visible(e)
  {
    var q := Assigned(p, freshId, now);
    WriteTwice(d, q);
  }

  lemma WriteTwice(d: Dir, p: Profile)
    ensures Visible(Written(Written(d, p), p)) == Visible(Written(d, p))
  {
    WriteIsAtomic(d, p);
    WriteIsAtomic(Written(d, p), p);
  }

  /** `rename` replaces one entry and nothing else, in particular not its flag or kind;
      it fails exactly when `get` does, with the same error and nothing changed. */
  lemma RenameIsMapUpdate(d: Dir, id: string, name: string, notes: Option<string>, table: Table)
    ensures var o := Perform(d, Rename(id, name, notes), table);
      match Found(d, id, table)
      case Err(e) => o == Outcome([], d, Some(e))
      case Ok(p) =>
        && o.failure == None
        && SameButFor(o.dir, d, id, table)
        && Found(o.dir, id, table) == Ok(Renamed(p, name, notes))
        && Found(o.dir, id, table).value.body.name == name
        && Found(o.dir, id, table).value.body.notes == (if notes.Some? then notes.value else p.body.notes)
        && Found(o.dir, id, table).value.body.(name := p.body.name, notes := p.body.notes) == p.body
  {
    if Found(d, id, table).Ok? {
      var p := Found(d, id, table).value;
      FoundIsLookup(d, id, p, table);
      WriteIsMapUpdate(d, Renamed(p, name, notes), table);
    }
  }

  /** `delete` removes one entry, and none that carries the flag. */
  lemma DeleteIsMapRemoval(d: Dir, id: string, table: Table)
    ensures var o := Perform(d, Delete(id), table);
      match Found(d, id, table)
      case Err(e) => o == Outcome([], d, Some(e))
      case Ok(p) =>
        && (p.body.isInitial ==> o == Outcome([], d, Some(InitialProtected(id))))
        && (!p.body.isInitial ==> o.failure == None && Found(o.dir, id, table) == Err(NotFound(id)))
        && SameButFor(o.dir, d, id, table)
  {
    forall other | other != id ensures Found(Removed(d, id), other, table) == Found(d, other, table) {
      OtherFile(id, other);
      FoundInFile(Removed(d, id), d, other, FileOf(other), table);
    }
  }

  // ------------------------------------------------------------- whole histories

  /** The directory when `op` stops after `cut` of its file-system steps. */
  ghost function Stopped(d: Dir, op: Op, cut: nat, table: Table): Dir {
    StopAt(d, Perform(d, op, table), cut)
  }

  function StopAt(d: Dir, o: Outcome, cut: nat): Dir {
    if cut == 0 then d else if cut <= |o.steps| then o.steps[cut - 1] else o.dir
  }

  ghost function History(d: Dir, ops: seq<(Op, nat)>, table: Table): Dir
    decreases |ops|
  {
    if ops == [] then d else History(Stopped(d, ops[0].0, ops[0].1, table), ops[1..], table)
  }

  /** The directory an operation leaves is that of its last step, if it took any. */
  predicate EndsAtLast(d: Dir, o: Outcome) {
    if o.steps == [] then o.dir == d else o.dir == o.steps[|o.steps| - 1]
  }

  lemma WriteEndsAtLast(d: Dir, p: Profile)
    ensures EndsAtLast(d, WriteOne(d, p))
  {
    if ValidId(p.body.profileId) { WriteIsAtomic(d, p); }
  }

  lemma DesignateEndsAtLast(d: Dir, id: string, table: Table)
    ensures EndsAtLast(d, Designate(d, id, table))
  {
    if Found(d, id, table).Ok? {
      var target := Found(d, id, table).value;
      var cleared := ClearOthers(d, LoadAll(ViewOf(d, table), NamesOf(d)), target);
      ClearLast(d, LoadAll(ViewOf(d, table), NamesOf(d)), target);
      WriteIsAtomic(cleared.dir, Flagged(target, true));
    }
  }

  lemma {:induction false} ClearLast(d: Dir, others: seq<Profile>, target: Profile)
    ensures EndsAtLast(d, ClearOthers(d, others, target))
    decreases |others|
  {
    if others != [] {
      if !MustClear(others[0], target) {
        ClearLast(d, others[1..], target);
      } else if ValidId(others[0].body.profileId) {
        var p := Flagged(others[0], false);
        WriteIsAtomic(d, p);
        ClearLast(Written(d, p), others[1..], target);
      }
    }
  }

  lemma LastStepIsOutcome(d: Dir, op: Op, table: Table)
    ensures EndsAtLast(d, Perform(d, op, table))
  {
    match op
    case Save(p, freshId, now) => WriteEndsAtLast(d, Assigned(p, freshId, now));
    case Rename(id, name, notes) =>
      if Found(d, id, table).Ok? { WriteEndsAtLast(d, Renamed(Found(d, id, table).value, name, notes)); }
    case Delete(id) => DeleteOutcomes(d, id, table);
    case SetInitial(id) => DesignateEndsAtLast(d, id, table);
  }

  /** Before its first step an operation has done nothing, after its last it has done all,
      and each step makes one directory of its own. */
  lemma StoppedStepByStep(d: Dir, op: Op, cut: nat, table: Table)
    ensures var o := Perform(d, op, table);
      && Stopped(d, op, 0, table) == d
      && (0 < cut <= |o.steps| ==> Stopped(d, op, cut, table) == o.steps[cut - 1])
      && (cut >= |o.steps| ==> Stopped(d, op, cut, table) == o.dir)
  {
    LastStepIsOutcome(d, op, table);
    StopAtMeans(d, Perform(d, op, table), cut);
  }

  lemma StopAtMeans(d: Dir, o: Outcome, cut: nat)
    requires EndsAtLast(d, o)
    ensures StopAt(d, o, 0) == d
    ensures 0 < cut <= |o.steps| ==> StopAt(d, o, cut) == o.steps[cut - 1]
    ensures cut >= |o.steps| ==> StopAt(d, o, cut) == o.dir
  {}

  /** A longer history is the shorter one with its last operation, stopped where it is. */
  lemma {:induction false} HistoryGrows(d: Dir, ops: seq<(Op, nat)>, op: Op, cut: nat, table: Table)
    ensures History(d, [], table) == d
    ensures History(d, ops + [(op, cut)], table) == Stopped(History(d, ops, table), op, cut, table)
    decreases |ops|
  {
    var more := ops + [(op, cut)];
    if ops == [] {
      assert more == [(op, cut)] && more[1..] == [];
    } else {
      assert more[0] == ops[0] && more[1..] == ops[1..] + [(op, cut)];
      HistoryGrows(Stopped(d, ops[0].0, ops[0].1, table), ops[1..], op, cut, table);
    }
  }

  /** No other profile holds the flag that `p` carries. */
  ghost predicate NoRival(v: View, p: Profile) {
    p.body.isInitial ==>
      forall f :: f in v && v[f].body.isInitial && v[f].body.kind == p.body.kind ==>
        f == FileOf(p.body.profileId)
  }

  /** What a caller of `save` must respect, since `save` clears no other flag: what the
      written file loads as, if it loads, has no flag that another profile of the kind holds. */
  ghost predicate Polite(v: View, op: Op, table: Table) {
    match op
    case Save(p, freshId, now) => FlagFree(v, Assigned(p, freshId, now), table)
    case Rename(_, _, _) => true
    case Delete(_) => true
    case SetInitial(_) => true
  }

  ghost predicate FlagFree(v: View, p: Profile, table: Table) {
    match Reloaded(p, table)
    case Ok(q) => NoRival(v, q)
    case Err(_) => true
  }

  ghost predicate AllPolite(d: Dir, ops: seq<(Op, nat)>, table: Table)
    decreases |ops|
  {
    ops != [] ==>
      && Polite(ViewOf(d, table), ops[0].0, table)
      && AllPolite(Stopped(d, ops[0].0, ops[0].1, table), ops[1..], table)
  }

  /** A save, at any version, keeps the invariant exactly when what it loads as brings no
      flag that another profile of the kind holds. */
  lemma SaveKeepsOneExactly(d: Dir, p: Profile, table: Table)
    requires AtMostOne(ViewOf(d, table)) && p.body.profileId != ""
    ensures AtMostOne(ViewOf(Written(d, p), table)) <==> FlagFree(ViewOf(d, table), p, table)
    ensures FlagFree(ViewOf(d, table), p, table) ==> forall c :: c in WriteSteps(d, p) ==> AtMostOne(ViewOf(c, table))
  {
    var v, file := ViewOf(d, table), FileOf(p.body.profileId);
    FileNames(p.body.profileId);
    WriteReplaces(d, p, table);
    match Reloaded(p, table) {
      case Ok(q) =>
        LoadedIsCurrent(file, Encode(p), table);
        PutKeepsOne(v, file, q);
      case Err(_) =>
        FewerKeepOne(v, file);
    }
    if FlagFree(v, p, table) {
      forall c | c in WriteSteps(d, p) ensures AtMostOne(ViewOf(c, table)) { ViewOfWriteStep(d, p, c, table); }
    }
  }

  /** At the supported version that is the flag of the profile itself. */
  lemma FlagFreeWhenCurrent(v: View, p: Profile, table: Table)
    requires p.body.profileId != "" && p.schemaVersion == SCHEMA_VERSION
    ensures FlagFree(v, p, table) <==> NoRival(v, p)
  {
    SavedLoadsBack(p, table);
  }

  lemma PutKeepsOne(v: View, file: string, p: Profile)
    requires AtMostOne(v) && file == FileOf(p.body.profileId)
    ensures AtMostOne(v[file := p]) <==> NoRival(v, p)
  {
    var w := v[file := p];
    if AtMostOne(w) && p.body.isInitial {
      forall f | f in v && v[f].body.isInitial && v[f].body.kind == p.body.kind ensures f == file {
        assert f == file || SameFlag(w[f], w[file]);
      }
    }
    if NoRival(v, p) {
      forall f, g | f in w && g in w && SameFlag(w[f], w[g]) ensures f == g {
        if f != file && g != file { assert SameFlag(v[f], v[g]); }
      }
    }
  }

  ghost predicate KeepsOne(o: Outcome, table: Table) {
    AtMostOne(ViewOf(o.dir, table)) && forall c :: c in o.steps ==> AtMostOne(ViewOf(c, table))
  }

  lemma RenameKeepsOne(d: Dir, id: string, name: string, notes: Option<string>, table: Table)
    requires AtMostOne(ViewOf(d, table))
    ensures KeepsOne(RenameOne(d, id, name, notes, table), table)
  {
    if Found(d, id, table).Ok? {
      var p := Found(d, id, table).value;
      var q := Renamed(p, name, notes);
      FoundIsLookup(d, id, p, table);
      var v := ViewOf(d, table);
      forall f | f in v && v[f].body.isInitial && v[f].body.kind == q.body.kind && q.body.isInitial
        ensures f == FileOf(id)
      {
        assert SameFlag(v[f], v[FileOf(id)]);
      }
      FlagFreeWhenCurrent(v, q, table);
      SaveKeepsOneExactly(d, q, table);
    }
  }

  lemma DeleteKeepsOne(d: Dir, id: string, table: Table)
    requires AtMostOne(ViewOf(d, table))
    ensures KeepsOne(DeleteOne(d, id, table), table)
  {
    var v, e := ViewOf(d, table), Removed(d, id);
    DeleteOutcomes(d, id, table);
    assert AtMostOne(ViewOf(e, table)) by {
      RemoveShrinksView(d, id, table);
      FewerKeepOne(v, FileOf(id));
    }
  }

  lemma DeleteOutcomes(d: Dir, id: string, table: Table)
    ensures var o := DeleteOne(d, id, table);
      o == Outcome([Removed(d, id)], Removed(d, id), None) || (o.steps == [] && o.dir == d)
  {
  }

  lemma FewerKeepOne(v: View, file: string)
    requires AtMostOne(v)
    ensures AtMostOne(v - {file})
  {
  }

  lemma PerformKeepsOne(d: Dir, op: Op, table: Table)
    requires AtMostOne(ViewOf(d, table)) && Polite(ViewOf(d, table), op, table)
    ensures KeepsOne(Perform(d, op, table), table)
  {
    match op
    case Save(p, freshId, now) =>
      var q := Assigned(p, freshId, now);
      if ValidId(q.body.profileId) { SaveKeepsOneExactly(d, q, table); }
    case Rename(id, name, notes) => RenameKeepsOne(d, id, name, notes, table);
    case Delete(id) => DeleteKeepsOne(d, id, table);
    case SetInitial(id) => SetInitialKeepsOne(d, id, table);
  }

  lemma StoppedSomewhere(d: Dir, op: Op, cut: nat, table: Table)
    ensures var c, o := Stopped(d, op, cut, table), Perform(d, op, table);
      c == d || c in o.steps || c == o.dir
  {
  }

  /** One operation, crashed anywhere or finished. */
  lemma OpKeepsOne(d: Dir, op: Op, cut: nat, table: Table)
    requires AtMostOne(ViewOf(d, table)) && Polite(ViewOf(d, table), op, table)
    ensures AtMostOne(ViewOf(Stopped(d, op, cut, table), table))
  {
    PerformKeepsOne(d, op, table);
    StoppedSomewhere(d, op, cut, table);
  }

  /** Over every history of saves, renames, deletes and designations, each crashed at any
      file-system step or finished, at most one loadable profile per kind is flagged. */
  lemma {:induction false} HistoryKeepsOne(d: Dir, ops: seq<(Op, nat)>, table: Table)
    requires AtMostOne(ViewOf(d, table)) && AllPolite(d, ops, table)
    ensures AtMostOne(ViewOf(History(d, ops, table), table))
    decreases |ops|
  {
    if ops != [] {
      OpKeepsOne(d, ops[0].0, ops[0].1, table);
      HistoryKeepsOne(Stopped(d, ops[0].0, ops[0].1, table), ops[1..], table);
    }
  }

  /** The file holds a flagged profile of the kind. */
  predicate Holds(v: View, f: string, kind: Kind) {
    f in v && v[f].body.isInitial && v[f].body.kind == kind
  }

  /** `op` is not a designation of the kind, nor a save into the file. */
  ghost predicate LeavesFlag(d: Dir, op: Op, f: string, kind: Kind, table: Table) {
    match op
    case Save(p, freshId, now) => FileOf(Assigned(p, freshId, now).body.profileId) != f
    case Rename(_, _, _) => true
    case Delete(_) => true
    case SetInitial(id) => Found(d, id, table).Ok? ==> Found(d, id, table).value.body.kind != kind
  }

  ghost predicate AllHold(o: Outcome, f: string, kind: Kind, table: Table) {
    Holds(ViewOf(o.dir, table), f, kind) && forall c :: c in o.steps ==> Holds(ViewOf(c, table), f, kind)
  }

  lemma WriteLeavesFlag(d: Dir, p: Profile, f: string, kind: Kind, table: Table)
    requires Holds(ViewOf(d, table), f, kind) && Holds(ViewOf(Written(d, p), table), f, kind)
    ensures AllHold(WriteOne(d, p), f, kind, table)
  {
    forall c | c in WriteSteps(d, p) ensures Holds(ViewOf(c, table), f, kind) { ViewOfWriteStep(d, p, c, table); }
  }

  lemma SaveLeavesFlag(d: Dir, p: Profile, f: string, kind: Kind, table: Table)
    requires Holds(ViewOf(d, table), f, kind) && f != FileOf(p.body.profileId)
    ensures AllHold(WriteOne(d, p), f, kind, table)
  {
    WriteReplaces(d, p, table);
    WriteLeavesFlag(d, p, f, kind, table);
  }

  lemma RenameLeavesFlag(d: Dir, id: string, name: string, notes: Option<string>, f: string, kind: Kind, table: Table)
    requires Holds(ViewOf(d, table), f, kind)
    ensures AllHold(RenameOne(d, id, name, notes, table), f, kind, table)
  {
    if Found(d, id, table).Ok? {
      var p := Found(d, id, table).value;
      var q := Renamed(p, name, notes);
      FoundIsLookup(d, id, p, table);
      WriteUpdatesView(d, q, table);
      WriteLeavesFlag(d, q, f, kind, table);
    }
  }

  lemma DeleteLeavesFlag(d: Dir, id: string, f: string, kind: Kind, table: Table)
    requires Holds(ViewOf(d, table), f, kind)
    ensures AllHold(DeleteOne(d, id, table), f, kind, table)
  {
    DeleteOutcomes(d, id, table);
    RemoveShrinksView(d, id, table);
    if Found(d, id, table).Ok? { FoundIsLookup(d, id, Found(d, id, table).value, table); }
  }

  lemma ClearingHolds(was: View, v: View, target: Profile, f: string, kind: Kind)
    requires Clearing(was, v, target) && Holds(was, f, kind) && target.body.kind != kind
    ensures Holds(v, f, kind)
  {
    assert f in v;
  }

  lemma DesignatedHolds(was: View, target: Profile, f: string, kind: Kind)
    requires Holds(was, f, kind) && target.body.kind != kind
    requires FileOf(target.body.profileId) in was && was[FileOf(target.body.profileId)] == target
    ensures Holds(Designated(was, target), f, kind)
  {
  }

  lemma DesignateLeavesFlag(d: Dir, id: string, f: string, kind: Kind, table: Table)
    requires Holds(ViewOf(d, table), f, kind) && LeavesFlag(d, SetInitial(id), f, kind, table)
    ensures AllHold(Designate(d, id, table), f, kind, table)
  {
    if Found(d, id, table).Ok? {
      var was, target := ViewOf(d, table), Found(d, id, table).value;
      SetInitialStages(d, id, table);
      FoundIsLookup(d, id, target, table);
      DesignatedHolds(was, target, f, kind);
      forall v | Clearing(was, v, target) ensures Holds(v, f, kind) { ClearingHolds(was, v, target, f, kind); }
    }
  }

  lemma PerformLeavesFlag(d: Dir, op: Op, f: string, kind: Kind, table: Table)
    requires Holds(ViewOf(d, table), f, kind) && LeavesFlag(d, op, f, kind, table)
    ensures AllHold(Perform(d, op, table), f, kind, table)
  {
    match op
    case Save(p, freshId, now) => SaveLeavesFlag(d, Assigned(p, freshId, now), f, kind, table);
    case Rename(id, name, notes) => RenameLeavesFlag(d, id, name, notes, f, kind, table);
    case Delete(id) => DeleteLeavesFlag(d, id, f, kind, table);
    case SetInitial(id) => DesignateLeavesFlag(d, id, f, kind, table);
  }

  /** A flagged profile keeps its place and flag through every delete, rename and save of
      anything else and every designation of the other kind, crashed or not. */
  lemma FlagStays(d: Dir, op: Op, cut: nat, table: Table, f: string, kind: Kind)
    requires Holds(ViewOf(d, table), f, kind) && LeavesFlag(d, op, f, kind, table)
    ensures Holds(ViewOf(Stopped(d, op, cut, table), table), f, kind)
  {
    PerformLeavesFlag(d, op, f, kind, table);
    StoppedSomewhere(d, op, cut, table);
  }

  ghost predicate AllLeaveFlag(d: Dir, ops: seq<(Op, nat)>, f: string, kind: Kind, table: Table)
    decreases |ops|
  {
    ops != [] ==>
      && LeavesFlag(d, ops[0].0, f, kind, table)
      && AllLeaveFlag(Stopped(d, ops[0].0, ops[0].1, table), ops[1..], f, kind, table)
  }

  lemma {:induction false} HistoryLeavesFlag(d: Dir, ops: seq<(Op, nat)>, f: string, kind: Kind, table: Table)
    requires Holds(ViewOf(d, table), f, kind) && AllLeaveFlag(d, ops, f, kind, table)
    ensures Holds(ViewOf(History(d, ops, table), table), f, kind)
    decreases |ops|
  {
    if ops != [] {
      FlagStays(d, ops[0].0, ops[0].1, table, f, kind);
      HistoryLeavesFlag(Stopped(d, ops[0].0, ops[0].1, table), ops[1..], f, kind, table);
    }
  }

  // ------------------------------------------------------------------ initial_for

  function FirstInitial(ps: seq<Profile>, kind: Kind): Option<Profile> {
    if ps == [] then None
    else if ps[0].body.kind == kind && ps[0].body.isInitial then Some(ps[0])
    else FirstInitial(ps[1..], kind)
  }

  ghost function InitialOf(d: Dir, kind: Kind, table: Table): Option<Profile> {
    FirstInitial(SortProfiles(LoadAll(ViewOf(d, table), NamesOf(d))), kind)
  }

  ghost predicate HoldsFlag(v: View, kind: Kind, p: Profile) {
    p in v.Values && p.body.kind == kind && p.body.isInitial
  }

  predicate FlagOf(p: Profile, kind: Kind) { p.body.kind == kind && p.body.isInitial }

  lemma {:induction false} FirstInitialExact(ps: seq<Profile>, kind: Kind)
    ensures match FirstInitial(ps, kind)
      case Some(p) =>
        exists i :: 0 <= i < |ps| && ps[i] == p && FlagOf(ps[i], kind) && forall j :: 0 <= j < i ==> !FlagOf(ps[j], kind)
      case None => forall p :: p in ps ==> !FlagOf(p, kind)
  {
    if ps != [] {
      assert ps == [ps[0]] + ps[1..];
      FirstInitialExact(ps[1..], kind);
      if FlagOf(ps[0], kind) {
        assert ps[0] == FirstInitial(ps, kind).value;
      } else if FirstInitial(ps, kind).Some? {
        var i :| 0 <= i < |ps[1..]| && ps[1..][i] == FirstInitial(ps, kind).value && FlagOf(ps[1..][i], kind)
          && forall j :: 0 <= j < i ==> !FlagOf(ps[1..][j], kind);
        forall j | 0 <= j < i + 1 ensures !FlagOf(ps[j], kind) {
          if j > 0 { assert ps[j] == ps[1..][j - 1]; }
        }
        assert ps[i + 1] == ps[1..][i];
      }
    }
  }

  /** The first with the flag is the earliest. */
  lemma FirstIsEarliest(ps: seq<Profile>, kind: Kind, q: Profile)
    requires Chronological(ps) && q in ps && FlagOf(q, kind)
    ensures FirstInitial(ps, kind).Some? && (FirstInitial(ps, kind).value == q || Earlier(FirstInitial(ps, kind).value, q))
  {
    FirstInitialExact(ps, kind);
    var p := FirstInitial(ps, kind).value;
    var i :| 0 <= i < |ps| && ps[i] == p && FlagOf(ps[i], kind) && forall j :: 0 <= j < i ==> !FlagOf(ps[j], kind);
    var k :| 0 <= k < |ps| && ps[k] == q;
  }

  /** `initial_for` returns a flagged profile of the kind if there is one, the earliest if
      there are several, otherwise None; and from a directory with at most one it returns
      that one. */
  lemma InitialForExact(d: Dir, kind: Kind, table: Table)
    ensures var v := ViewOf(d, table);
      && (InitialOf(d, kind, table).Some? ==> HoldsFlag(v, kind, InitialOf(d, kind, table).value))
      && (InitialOf(d, kind, table).None? ==> forall p :: !HoldsFlag(v, kind, p))
      && (forall p :: HoldsFlag(v, kind, p) ==> InitialOf(d, kind, table).Some?)
      && (forall p :: HoldsFlag(v, kind, p) ==>
            InitialOf(d, kind, table) == Some(p) || Earlier(InitialOf(d, kind, table).value, p))
      && (AtMostOne(v) ==> forall p :: HoldsFlag(v, kind, p) ==> InitialOf(d, kind, table) == Some(p))
  {
    var v := ViewOf(d, table);
    var ps := SortProfiles(LoadAll(v, NamesOf(d)));
    ListHoldsView(d, table);
    FirstInitialExact(ps, kind);
    forall p | HoldsFlag(v, kind, p)
      ensures InitialOf(d, kind, table).Some?
      ensures InitialOf(d, kind, table) == Some(p) || Earlier(InitialOf(d, kind, table).value, p)
      ensures AtMostOne(v) ==> InitialOf(d, kind, table) == Some(p)
    {
      FirstIsEarliest(ps, kind, p);
      if AtMostOne(v) { OneHolder(v, kind, p, InitialOf(d, kind, table).value); }
    }
  }

  lemma ListHoldsView(d: Dir, table: Table)
    ensures var ps := SortProfiles(LoadAll(ViewOf(d, table), NamesOf(d)));
      Chronological(ps) && forall p :: p in ps <==> p in ViewOf(d, table).Values
  {
    var scan := LoadAll(ViewOf(d, table), NamesOf(d));
    SortedPermutation(scan);
    forall p ensures p in SortProfiles(scan) <==> p in ViewOf(d, table).Values {
      LoadAllExact(ViewOf(d, table), NamesOf(d), p);
      assert p in multiset(SortProfiles(scan)) <==> p in multiset(scan);
    }
  }

  lemma OneHolder(v: View, kind: Kind, p: Profile, q: Profile)
    requires AtMostOne(v) && HoldsFlag(v, kind, p) && HoldsFlag(v, kind, q)
    ensures p == q
  {
    var f :| f in v && v[f] == p;
    var g :| g in v && v[g] == q;
    assert SameFlag(v[f], v[g]);
  }

  /** `initial_for` keeps answering the same file over any history that neither saves into it
      nor designates another of its kind, wherever the operations crash. */
  lemma InitialForStays(d: Dir, ops: seq<(Op, nat)>, f: string, kind: Kind, table: Table)
    requires AtMostOne(ViewOf(d, table)) && AllPolite(d, ops, table)
    requires Holds(ViewOf(d, table), f, kind) && AllLeaveFlag(d, ops, f, kind, table)
    ensures var w := ViewOf(History(d, ops, table), table);
      f in w && InitialOf(History(d, ops, table), kind, table) == Some(w[f])
  {
    HistoryKeepsOne(d, ops, table);
    HistoryLeavesFlag(d, ops, f, kind, table);
    var w := ViewOf(History(d, ops, table), table);
    InitialForExact(History(d, ops, table), kind, table);
    assert HoldsFlag(w, kind, w[f]);
  }

  /** After `set_initial` completes, however many profiles were flagged before,
      `initial_for` returns the target for its kind. */
  lemma DesignatedIsInitial(d: Dir, id: string, table: Table)
    requires Designate(d, id, table).failure == None
    ensures var target, e := Found(d, id, table).value, Designate(d, id, table).dir;
      InitialOf(e, target.body.kind, table) == Some(Flagged(target, true))
  {
    var target, e := Found(d, id, table).value, Designate(d, id, table).dir;
    var v, w, kind := ViewOf(d, table), ViewOf(e, table), target.body.kind;
    assert w == Designated(v, target) by { SetInitialStages(d, id, table); }
    FoundIsLookup(d, id, target, table);
    ViewsAreNamed(d, table);
    DesignatedMeans(v, target);
    InitialForExact(e, kind, table);
    assert w[FileOf(id)] == Flagged(target, true);
    assert HoldsFlag(w, kind, w[FileOf(id)]);
    var p := InitialOf(e, kind, table).value;
    var f :| f in w && w[f] == p;
    assert f in v && v[f].body.kind == kind;
  }

  // ------------------------------------------------- initial_for of the other kind

  /** Equal to the sort and to anyone who looks for this kind. */
  predicate Alike(p: Profile, q: Profile, kind: Kind) {
    SameKey(p, q) && p.body.kind == q.body.kind && (p.body.kind == kind ==> p == q)
  }

  ghost predicate AllAlike(ps: seq<Profile>, qs: seq<Profile>, kind: Kind) {
    |ps| == |qs| && forall i :: 0 <= i < |ps| ==> Alike(ps[i], qs[i], kind)
  }

  lemma {:induction false} LoadedAlike(v: View, w: View, names: seq<string>, kind: Kind)
    requires forall f :: f in names ==> f in v && f in w && Alike(v[f], w[f], kind)
    ensures AllAlike(LoadAll(v, names), LoadAll(w, names), kind)
  {
    if names != [] { LoadedAlike(v, w, names[1..], kind); }
  }

  lemma {:induction false} InsertedAlike(p: Profile, ps: seq<Profile>, q: Profile, qs: seq<Profile>, kind: Kind)
    requires Alike(p, q, kind) && AllAlike(ps, qs, kind)
    ensures AllAlike(InsertProfile(p, ps), InsertProfile(q, qs), kind)
  {
    if ps != [] && !KeyLe(p, ps[0]) { InsertedAlike(p, ps[1..], q, qs[1..], kind); }
  }

  lemma {:induction false} SortedAlike(ps: seq<Profile>, qs: seq<Profile>, kind: Kind)
    requires AllAlike(ps, qs, kind)
    ensures AllAlike(SortProfiles(ps), SortProfiles(qs), kind)
  {
    if ps != [] {
      SortedAlike(ps[1..], qs[1..], kind);
      InsertedAlike(ps[0], SortProfiles(ps[1..]), qs[0], SortProfiles(qs[1..]), kind);
    }
  }

  lemma {:induction false} FirstAlike(ps: seq<Profile>, qs: seq<Profile>, kind: Kind)
    requires AllAlike(ps, qs, kind)
    ensures FirstInitial(ps, kind) == FirstInitial(qs, kind)
  {
    if ps != [] { FirstAlike(ps[1..], qs[1..], kind); }
  }

  /** Two views that agree on the loadable files, on the sort keys and on the profiles of a
      kind. */
  ghost predicate ViewsAlike(v: View, w: View, kind: Kind) {
    w.Keys == v.Keys && forall f :: f in v ==> Alike(v[f], w[f], kind)
  }

  lemma SameInitial(d: Dir, e: Dir, kind: Kind, table: Table)
    requires ViewsAlike(ViewOf(d, table), ViewOf(e, table), kind)
    ensures InitialOf(e, kind, table) == InitialOf(d, kind, table)
  {
    var v, w := ViewOf(d, table), ViewOf(e, table);
    var names := Loadable(v, NamesOf(d));
    LoadableExact(v, NamesOf(d));
    LoadableExact(w, NamesOf(e));
    ListedIfLoadable(d, table);
    ListedIfLoadable(e, table);
    ListingUnique(names, Loadable(w, NamesOf(e)));
    LoadedAlike(v, w, names, kind);
    SortedAlike(LoadAll(v, names), LoadAll(w, names), kind);
    FirstAlike(SortProfiles(LoadAll(v, names)), SortProfiles(LoadAll(w, names)), kind);
  }

  lemma ListedIfLoadable(d: Dir, table: Table)
    ensures forall f :: f in ViewOf(d, table) ==> f in NamesOf(d)
  {
  }

  ghost predicate AlikeAlong(d: Dir, o: Outcome, kind: Kind, table: Table) {
    && ViewsAlike(ViewOf(d, table), ViewOf(o.dir, table), kind)
    && forall c :: c in o.steps ==> ViewsAlike(ViewOf(d, table), ViewOf(c, table), kind)
  }

  lemma DesignateAlike(d: Dir, id: string, kind: Kind, table: Table)
    requires Found(d, id, table).Ok? ==> kind != Found(d, id, table).value.body.kind
    ensures AlikeAlong(d, Designate(d, id, table), kind, table)
  {
    if Found(d, id, table).Ok? {
      var was, target := ViewOf(d, table), Found(d, id, table).value;
      FoundIsLookup(d, id, target, table);
      SetInitialStages(d, id, table);
      DesignatedAlike(was, target, kind);
      forall v | Clearing(was, v, target) ensures ViewsAlike(was, v, kind) { ClearingAlike(was, v, target, kind); }
    }
  }

  /** However many profiles are flagged, and wherever `set_initial` crashes, is refused or
      completes, `initial_for` of the other kind returns what it did. */
  lemma OtherKindKeepsInitial(d: Dir, id: string, cut: nat, kind: Kind, table: Table)
    requires Found(d, id, table).Ok? ==> kind != Found(d, id, table).value.body.kind
    ensures InitialOf(Stopped(d, SetInitial(id), cut, table), kind, table) == InitialOf(d, kind, table)
  {
    DesignateAlike(d, id, kind, table);
    StoppedSomewhere(d, SetInitial(id), cut, table);
    SameInitial(d, Stopped(d, SetInitial(id), cut, table), kind, table);
  }

  lemma ClearingAlike(was: View, v: View, target: Profile, kind: Kind)
    requires Clearing(was, v, target) && kind != target.body.kind
    ensures ViewsAlike(was, v, kind)
  {
    forall f | f in was ensures Alike(was[f], v[f], kind) { assert f in v; }
  }

  lemma DesignatedAlike(was: View, target: Profile, kind: Kind)
    requires kind != target.body.kind
    requires FileOf(target.body.profileId) in was && was[FileOf(target.body.profileId)] == target
    ensures ViewsAlike(was, Designated(was, target), kind)
  {
  }
}
