/** Exactly what a crash in `set_initial` leaves, step by step, and inputs on which the
    promise that it leaves no flag fails. */
module ProfileCrashes {
  import opened Basics
  import opened Migration
  import opened NameOrder
  import opened ProfileDirectory
  import opened ProfileDesignation
  import opened ProfileHistory

  /** The profiles whose flag must go, in the order of the scan. */
  function Rivals(others: seq<Profile>, target: Profile): seq<Profile> {
    if others == [] then []
    else (if MustClear(others[0], target) then [others[0]] else []) + Rivals(others[1..], target)
  }

  /** How many of them are rewritten: all, or those before the first whose id is not valid. */
  function Writable(rivals: seq<Profile>): nat {
    if rivals == [] || !ValidId(rivals[0].body.profileId) then 0 else 1 + Writable(rivals[1..])
  }

  /** The view with the flags of these profiles gone. */
  function WithCleared(v: View, ps: seq<Profile>): View {
    map f | f in v :: if v[f] in ps then Flagged(v[f], false) else v[f]
  }

  /** A profile with a valid id is listed once. */
  ghost predicate Apart(ps: seq<Profile>) {
    forall i, j :: 0 <= i < j < |ps| && ValidId(ps[i].body.profileId) ==> ps[i] != ps[j]
  }

  // ------------------------------------------------------------------- the listing

  lemma {:induction false} ListedApart(v: View, names: seq<string>)
    requires Named(v) && Ascending(names)
    ensures Apart(LoadAll(v, names))
  {
    if names != [] {
      ListedApart(v, names[1..]);
      if names[0] in v {
        var p := v[names[0]];
        assert NamedEntry(names[0], p);
        LoadAllExact(v, names[1..], p);
        forall f | f in names[1..] && f in v ensures v[f] == p ==> !ValidId(p.body.profileId) {
          assert NamedEntry(f, v[f]);
        }
      }
    }
  }

  lemma {:induction false} RivalsExact(others: seq<Profile>, target: Profile, p: Profile)
    ensures p in Rivals(others, target) <==> p in others && MustClear(p, target)
  {
    if others != [] {
      assert others == [others[0]] + others[1..];
      RivalsExact(others[1..], target, p);
    }
  }

  lemma {:induction false} RivalsApart(others: seq<Profile>, target: Profile)
    requires Apart(others)
    ensures Apart(Rivals(others, target))
  {
    if others != [] {
      RivalsApart(others[1..], target);
      RivalsExact(others[1..], target, others[0]);
      if others[0] in others[1..] {
        var j :| 0 <= j < |others[1..]| && others[1..][j] == others[0];
        assert others[j + 1] == others[0];
      }
    }
  }

  // ---------------------------------------------------------------- clearing flags

  /** The directory after `k` steps. */
  function At(d: Dir, steps: seq<Dir>, k: nat): Dir
    requires k <= |steps|
  {
    if k == 0 then d else steps[k - 1]
  }

  lemma AtConcat(d: Dir, a: seq<Dir>, e: Dir, b: seq<Dir>, k: nat)
    requires At(d, a, |a|) == e && k <= |a| + |b|
    ensures At(d, a + b, k) == if k <= |a| then At(d, a, k) else At(e, b, k - |a|)
    ensures k >= |a| ==> At(d, a + b, k) == At(e, b, k - |a|)
  {
  }

  lemma AtThree(d: Dir, steps: seq<Dir>, k: nat)
    requires |steps| == 3 && k <= 3
    ensures At(d, steps, k) == if k == 0 then d else if k == 1 then steps[0] else if k == 2 then steps[1] else steps[2]
  {
  }

  /** The view along one write. */
  lemma AtWrite(d: Dir, p: Profile, k: nat, table: Table)
    requires k <= 3
    ensures |WriteSteps(d, p)| == 3 && At(d, WriteSteps(d, p), 3) == Written(d, p)
    ensures ViewOf(At(d, WriteSteps(d, p), k), table) == ViewOf(if k < 3 then d else Written(d, p), table)
  {
    ViewOfWriteSteps(d, p, table);
    AtThree(d, WriteSteps(d, p), k);
    AtThree(d, WriteSteps(d, p), 3);
  }

  lemma ClearHead(v: View, p: Profile)
    requires Named(v) && p in v.Values && ValidId(p.body.profileId)
    ensures v[FileOf(p.body.profileId) := Flagged(p, false)] == WithCleared(v, [p])
  {
    var file := FileOf(p.body.profileId);
    forall f | f in v ensures v[f] == p <==> f == file {
      assert NamedEntry(f, v[f]);
      var g :| g in v && v[g] == p;
      assert NamedEntry(g, v[g]);
    }
  }

  lemma ClearMore(v: View, p: Profile, ps: seq<Profile>)
    requires forall q :: q in ps ==> q.body.isInitial
    ensures WithCleared(WithCleared(v, [p]), ps) == WithCleared(v, [p] + ps)
  {
  }

  lemma ClearNone(v: View)
    ensures WithCleared(v, []) == v
  {
  }

  /** Clearing keeps what the following steps rely on. */
  ghost predicate Ready(v: View, others: seq<Profile>) {
    Named(v) && Apart(others) && forall p :: p in others ==> p in v.Values
  }

  lemma ReadyAfter(v: View, others: seq<Profile>)
    requires Ready(v, others) && others != [] && ValidId(others[0].body.profileId)
    ensures Ready(WithCleared(v, [others[0]]), others[1..])
  {
    var w := WithCleared(v, [others[0]]);
    forall f | f in w ensures NamedEntry(f, w[f]) { assert NamedEntry(f, v[f]); }
    forall p | p in others[1..] ensures p in w.Values {
      var i :| 0 <= i < |others[1..]| && others[1..][i] == p;
      assert others[i + 1] == p && others[i + 1] in others && p != others[0];
      assert p in v.Values;
      var f :| f in v && v[f] == p;
      assert w[f] == p;
    }
  }

  lemma ReadyTail(v: View, others: seq<Profile>)
    requires Ready(v, others) && others != []
    ensures Ready(v, others[1..])
  {
  }

  /** The loop's steps: three to each rival that can be written, up to the first that cannot.
      Wherever it stops, exactly the rivals written so far have lost their flags. */
  ghost predicate ClearsExactly(d: Dir, o: Outcome, rivals: seq<Profile>, k: nat, table: Table) {
    && k <= |o.steps| == 3 * Writable(rivals) && Writable(rivals) <= |rivals|
    && (o.failure == None <==> Writable(rivals) == |rivals|)
    && o.dir == At(d, o.steps, |o.steps|)
    && ViewOf(At(d, o.steps, k), table) == WithCleared(ViewOf(d, table), rivals[..k / 3])
  }

  lemma {:induction false} ClearExactly(d: Dir, others: seq<Profile>, target: Profile, k: nat, table: Table)
    requires Ready(ViewOf(d, table), others) && k <= |ClearOthers(d, others, target).steps|
    ensures ClearsExactly(d, ClearOthers(d, others, target), Rivals(others, target), k, table)
    decreases |others|
  {
    ClearNone(ViewOf(d, table));
    if others != [] {
      var p, more := others[0], Rivals(others[1..], target);
      if !MustClear(p, target) {
        ReadyTail(ViewOf(d, table), others);
        assert [] + more == more;
        ClearExactly(d, others[1..], target, k, table);
      } else if ValidId(p.body.profileId) {
        var e := Written(d, Flagged(p, false));
        var rest := ClearOthers(e, others[1..], target);
        ReadyWritten(d, others, table);
        ClearUnfolds(d, others, target);
        ClearExactly(e, others[1..], target, if k < 3 then 0 else k - 3, table);
        RivalsFlagged(others[1..], target);
        OneMoreRival(d, p, rest, more, k, table);
      }
    }
  }

  lemma ClearUnfolds(d: Dir, others: seq<Profile>, target: Profile)
    requires others != [] && MustClear(others[0], target) && ValidId(others[0].body.profileId)
    ensures var p := Flagged(others[0], false);
      var rest := ClearOthers(Written(d, p), others[1..], target);
      && ClearOthers(d, others, target) == rest.(steps := WriteSteps(d, p) + rest.steps)
      && |WriteSteps(d, p) + rest.steps| == 3 + |rest.steps|
  {
  }

  lemma RivalsFlagged(others: seq<Profile>, target: Profile)
    ensures forall q :: q in Rivals(others, target) ==> q.body.isInitial
  {
    forall q | q in Rivals(others, target) ensures q.body.isInitial { RivalsExact(others, target, q); }
  }

  lemma ReadyWritten(d: Dir, others: seq<Profile>, table: Table)
    requires Ready(ViewOf(d, table), others) && others != [] && ValidId(others[0].body.profileId)
    ensures var e := Written(d, Flagged(others[0], false));
      && ViewOf(e, table) == WithCleared(ViewOf(d, table), [others[0]])
      && Ready(ViewOf(e, table), others[1..])
  {
    var v, p := ViewOf(d, table), others[0];
    assert p in others && p in v.Values;
    var f :| f in v && v[f] == p;
    assert NamedEntry(f, v[f]);
    WriteUpdatesView(d, Flagged(p, false), table);
    ClearHead(v, p);
    ReadyAfter(v, others);
  }

  /** One rival written in front of the rest. */
  lemma OneMoreRival(d: Dir, p: Profile, rest: Outcome, more: seq<Profile>, k: nat, table: Table)
    requires var e := Written(d, Flagged(p, false));
      && ViewOf(e, table) == WithCleared(ViewOf(d, table), [p])
      && ClearsExactly(e, rest, more, if k < 3 then 0 else k - 3, table)
    requires ValidId(p.body.profileId) && k <= 3 + |rest.steps| && forall q :: q in more ==> q.body.isInitial
    ensures var o := rest.(steps := WriteSteps(d, Flagged(p, false)) + rest.steps);
      ClearsExactly(d, o, [p] + more, k, table)
  {
    var q := Flagged(p, false);
    var e, write := Written(d, q), WriteSteps(d, q);
    assert ([p] + more)[1..] == more;
    if k < 3 { AtWrite(d, q, k, table); } else { AtWrite(d, q, 3, table); }
    AtConcat(d, write, e, rest.steps, k);
    AtConcat(d, write, e, rest.steps, 3 + |rest.steps|);
    OneMoreCleared(ViewOf(d, table), p, more, k);
  }

  lemma OneMoreCleared(v: View, p: Profile, more: seq<Profile>, k: nat)
    requires k / 3 <= 1 + |more| && forall q :: q in more ==> q.body.isInitial
    ensures k < 3 ==> WithCleared(v, ([p] + more)[..k / 3]) == v
    ensures k >= 3 ==>
      WithCleared(v, ([p] + more)[..k / 3]) == WithCleared(WithCleared(v, [p]), more[..(k - 3) / 3])
  {
    if k < 3 {
      ClearNone(v);
    } else {
      assert ([p] + more)[..k / 3] == [p] + more[..(k - 3) / 3];
      ClearMore(v, p, more[..(k - 3) / 3]);
    }
  }

  // -------------------------------------------------------------- the whole call

  ghost function RivalsOf(d: Dir, target: Profile, table: Table): seq<Profile> {
    Rivals(LoadAll(ViewOf(d, table), NamesOf(d)), target)
  }

  lemma RivalsOfExact(d: Dir, target: Profile, table: Table)
    ensures Apart(RivalsOf(d, target, table))
    ensures forall p :: p in RivalsOf(d, target, table) <==> p in ViewOf(d, table).Values && MustClear(p, target)
  {
    var v := ViewOf(d, table);
    var others := LoadAll(v, NamesOf(d));
    ViewsAreNamed(d, table);
    ListedApart(v, NamesOf(d));
    RivalsApart(others, target);
    forall p ensures p in Rivals(others, target) <==> p in v.Values && MustClear(p, target) {
      RivalsExact(others, target, p);
      LoadAllExact(v, NamesOf(d), p);
    }
  }

  lemma ScanReady(d: Dir, table: Table)
    ensures Ready(ViewOf(d, table), LoadAll(ViewOf(d, table), NamesOf(d)))
  {
    var v := ViewOf(d, table);
    ViewsAreNamed(d, table);
    ListedApart(v, NamesOf(d));
    forall p | p in LoadAll(v, NamesOf(d)) ensures p in v.Values { LoadAllExact(v, NamesOf(d), p); }
  }

  /** The first rivals, as many as were written in `k` steps. */
  function Done(rivals: seq<Profile>, k: nat): seq<Profile> {
    if k / 3 <= |rivals| then rivals[..k / 3] else rivals
  }

  /** With R rivals, the first whose id is not valid stops the call; otherwise it takes
      3 R + 3 steps. After k steps exactly the first k / 3 rivals have lost their flags and
      nothing else that loads has changed, until the last step completes the designation. */
  ghost predicate DesignatesExactly(d: Dir, o: Outcome, target: Profile, rivals: seq<Profile>, k: nat, table: Table) {
    && k <= |o.steps| == 3 * Writable(rivals) + (if Writable(rivals) == |rivals| then 3 else 0)
    && (o.failure == None <==> Writable(rivals) == |rivals|)
    && ViewOf(At(d, o.steps, k), table)
       == if k == 3 * |rivals| + 3 then Designated(ViewOf(d, table), target)
          else WithCleared(ViewOf(d, table), Done(rivals, k))
  }

  lemma StoppedExactly(d: Dir, o: Outcome, target: Profile, rivals: seq<Profile>, k: nat, table: Table)
    requires ClearsExactly(d, o, rivals, k, table) && o.failure.Some?
    ensures DesignatesExactly(d, o, target, rivals, k, table)
  {
  }

  /** The target's own write, after the steps of the loop. */
  lemma TargetExactly(d: Dir, cleared: Outcome, target: Profile, rivals: seq<Profile>, k: nat, table: Table)
    requires cleared.failure == None && k <= |cleared.steps| + 3
    requires ClearsExactly(d, cleared, rivals, if k <= |cleared.steps| then k else |cleared.steps|, table)
    requires ViewOf(Written(cleared.dir, Flagged(target, true)), table) == Designated(ViewOf(d, table), target)
    ensures var p := Flagged(target, true);
      var o := Outcome(cleared.steps + WriteSteps(cleared.dir, p), Written(cleared.dir, p), None);
      DesignatesExactly(d, o, target, rivals, k, table)
  {
    var p, n, e := Flagged(target, true), |cleared.steps|, cleared.dir;
    AtWrite(e, p, if k < n then 0 else k - n, table);
    AtConcat(d, cleared.steps, e, WriteSteps(e, p), k);
    if k >= n { assert rivals[..n / 3] == rivals == Done(rivals, k); }
  }

  /** `set_initial`, position by position. */
  lemma SetInitialExactly(d: Dir, id: string, k: nat, table: Table)
    requires Found(d, id, table).Ok? && k <= |Designate(d, id, table).steps|
    ensures var target := Found(d, id, table).value;
      DesignatesExactly(d, Designate(d, id, table), target, RivalsOf(d, target, table), k, table)
  {
    var target := Found(d, id, table).value;
    var others := LoadAll(ViewOf(d, table), NamesOf(d));
    var cleared := ClearOthers(d, others, target);
    ScanReady(d, table);
    if cleared.failure.Some? {
      ClearExactly(d, others, target, k, table);
      StoppedExactly(d, cleared, target, Rivals(others, target), k, table);
    } else {
      ClearExactly(d, others, target, if k <= |cleared.steps| then k else |cleared.steps|, table);
      DesignatedAtEnd(d, id, table);
      TargetExactly(d, cleared, target, Rivals(others, target), k, table);
    }
  }

  lemma DesignatedAtEnd(d: Dir, id: string, table: Table)
    requires Designate(d, id, table).failure == None
    ensures ViewOf(Designate(d, id, table).dir, table) == Designated(ViewOf(d, table), Found(d, id, table).value)
  {
    SetInitialStages(d, id, table);
  }

  lemma WritableStep(p: Profile, more: seq<Profile>)
    ensures Writable([p] + more) == if ValidId(p.body.profileId) then 1 + Writable(more) else 0
    ensures ValidId(p.body.profileId) && Writable(more) < |more| ==>
      ([p] + more)[Writable([p] + more)] == more[Writable(more)]
  {
    assert ([p] + more)[1..] == more;
  }

  lemma {:induction false} ClearRefusal(d: Dir, others: seq<Profile>, target: Profile)
    ensures var rivals := Rivals(others, target);
      Writable(rivals) < |rivals| ==>
        ClearOthers(d, others, target).failure == Some(InvalidId(rivals[Writable(rivals)].body.profileId))
    decreases |others|
  {
    if others != [] {
      var more := Rivals(others[1..], target);
      if !MustClear(others[0], target) {
        assert [] + more == more;
        ClearRefusal(d, others[1..], target);
      } else {
        WritableStep(others[0], more);
        if ValidId(others[0].body.profileId) {
          ClearUnfolds(d, others, target);
          ClearRefusal(Written(d, Flagged(others[0], false)), others[1..], target);
        }
      }
    }
  }

  /** Why a call fails: as `get` does and with nothing changed, or on the id of the first
      rival that cannot be written. */
  lemma SetInitialRefusal(d: Dir, id: string, table: Table)
    ensures match Found(d, id, table)
      case Err(e) => Designate(d, id, table) == Outcome([], d, Some(e))
      case Ok(target) =>
        var rivals := RivalsOf(d, target, table);
        && Writable(rivals) <= |rivals|
        && Designate(d, id, table).failure
           == if Writable(rivals) == |rivals| then None
              else Some(InvalidId(rivals[Writable(rivals)].body.profileId))
  {
    if Found(d, id, table).Ok? {
      var target := Found(d, id, table).value;
      SetInitialExactly(d, id, 0, table);
      WritableValid(RivalsOf(d, target, table));
      ClearRefusal(d, LoadAll(ViewOf(d, table), NamesOf(d)), target);
    }
  }

  /** Until its third step no call changes anything that loads, so a flag that was there
      still is. */
  lemma FirstStepsChangeNothing(d: Dir, id: string, cut: nat, table: Table)
    requires cut < 3
    ensures ViewOf(Stopped(d, SetInitial(id), cut, table), table) == ViewOf(d, table)
  {
    var o := Designate(d, id, table);
    if Found(d, id, table).Ok? {
      var target := Found(d, id, table).value;
      SetInitialExactly(d, id, 0, table);
      StoppedAt(d, id, cut, table);
      if o.steps == [] {
        NothingDone(d, id, table);
      } else {
        SetInitialExactly(d, id, cut, table);
        NothingGone(d, o, target, RivalsOf(d, target, table), cut, table);
      }
    }
  }

  lemma StoppedAt(d: Dir, id: string, cut: nat, table: Table)
    ensures var o := Designate(d, id, table);
      Stopped(d, SetInitial(id), cut, table)
      == if cut == 0 then d else if cut <= |o.steps| then At(d, o.steps, cut) else o.dir
  {
  }

  lemma NothingGone(d: Dir, o: Outcome, target: Profile, rivals: seq<Profile>, k: nat, table: Table)
    requires DesignatesExactly(d, o, target, rivals, k, table) && k < 3
    ensures ViewOf(At(d, o.steps, k), table) == ViewOf(d, table)
  {
    assert Done(rivals, k) == [];
    ClearNone(ViewOf(d, table));
  }

  lemma NothingDone(d: Dir, id: string, table: Table)
    requires Designate(d, id, table).steps == []
    ensures Designate(d, id, table).dir == d
  {
    if Found(d, id, table).Ok? {
      var others := LoadAll(ViewOf(d, table), NamesOf(d));
      ScanReady(d, table);
      if ClearOthers(d, others, Found(d, id, table).value).failure.Some? {
        ClearExactly(d, others, Found(d, id, table).value, 0, table);
      }
    }
  }

  // ------------------------------------------------------------- counting the flags

  ghost predicate NoFlag(v: View, kind: Kind) {
    forall f :: f in v ==> !(v[f].body.isInitial && v[f].body.kind == kind)
  }

  lemma {:induction false} WritableValid(rivals: seq<Profile>)
    ensures Writable(rivals) <= |rivals|
    ensures forall i :: 0 <= i < Writable(rivals) ==> ValidId(rivals[i].body.profileId)
  {
    if rivals != [] && ValidId(rivals[0].body.profileId) {
      WritableValid(rivals[1..]);
      forall i | 0 < i < Writable(rivals) ensures ValidId(rivals[i].body.profileId) {
        assert rivals[i] == rivals[1..][i - 1];
      }
    }
  }

  /** While a rival is still to be written, or never can be, it has its flag. */
  lemma RivalLeft(was: View, rivals: seq<Profile>, target: Profile, n: nat)
    requires n < |rivals| && Apart(rivals) && rivals[n] in was.Values && MustClear(rivals[n], target)
    requires forall i :: 0 <= i < n ==> ValidId(rivals[i].body.profileId)
    ensures !NoFlag(WithCleared(was, rivals[..n]), target.body.kind)
  {
    var p := rivals[n];
    var f :| f in was && was[f] == p;
    assert p !in rivals[..n];
    assert WithCleared(was, rivals[..n])[f] == p;
  }

  /** Once all are written, only the target's own flag can be left. */
  lemma OnlyTargetLeft(was: View, rivals: seq<Profile>, target: Profile, file: string)
    requires Named(was) && ValidId(target.body.profileId) && file == FileOf(target.body.profileId)
    requires file in was && was[file] == target
    requires forall p :: p in rivals <==> p in was.Values && MustClear(p, target)
    ensures NoFlag(WithCleared(was, rivals), target.body.kind) <==> !target.body.isInitial
  {
    var w := WithCleared(was, rivals);
    assert w[file] == target;
    forall f | f in w && w[f].body.isInitial && w[f].body.kind == target.body.kind ensures was[f] == target {
      assert was[f] in was.Values && was[f] !in rivals;
      assert NamedEntry(f, was[f]);
    }
  }

  /** "A crash mid-op leaves zero flags" holds exactly in a call that completes, from the step
      that rewrites the last rival up to the target's own last step, and only if the target
      had no flag. A call that a rival stops never leaves zero. */
  lemma FlaglessExactly(d: Dir, id: string, k: nat, table: Table)
    requires Found(d, id, table).Ok? && k <= |Designate(d, id, table).steps|
    ensures var target, o := Found(d, id, table).value, Designate(d, id, table);
      var r := |RivalsOf(d, target, table)|;
      && (o.failure == None ==> |o.steps| == 3 * r + 3)
      && (NoFlag(ViewOf(At(d, o.steps, k), table), target.body.kind)
          <==> o.failure == None && !target.body.isInitial && 3 * r <= k < 3 * r + 3)
  {
    var target := Found(d, id, table).value;
    SetInitialExactly(d, id, k, table);
    RivalsOfExact(d, target, table);
    FoundIsLookup(d, id, target, table);
    ViewsAreNamed(d, table);
    WritableValid(RivalsOf(d, target, table));
    FlaglessView(ViewOf(d, table), target, RivalsOf(d, target, table), Writable(RivalsOf(d, target, table)), k);
  }

  /** `n` rivals can be written. */
  lemma FlaglessView(was: View, target: Profile, rivals: seq<Profile>, n: nat, k: nat)
    requires Named(was) && ValidId(target.body.profileId) && FileOf(target.body.profileId) in was
    requires was[FileOf(target.body.profileId)] == target
    requires Apart(rivals) && forall p :: p in rivals <==> p in was.Values && MustClear(p, target)
    requires n <= |rivals| && k <= 3 * n + (if n == |rivals| then 3 else 0)
    requires forall i :: 0 <= i < n ==> ValidId(rivals[i].body.profileId)
    ensures var v := if k == 3 * |rivals| + 3 then Designated(was, target) else WithCleared(was, Done(rivals, k));
      NoFlag(v, target.body.kind) <==> !target.body.isInitial && 3 * |rivals| <= k < 3 * |rivals| + 3
  {
    var file := FileOf(target.body.profileId);
    if k == 3 * |rivals| + 3 {
      TargetFlagged(was, target, file);
    } else if k >= 3 * |rivals| {
      assert Done(rivals, k) == rivals;
      OnlyTargetLeft(was, rivals, target, file);
    } else {
      FlaggedMeanwhile(was, target, rivals, n, k);
    }
  }

  lemma FlaggedMeanwhile(was: View, target: Profile, rivals: seq<Profile>, n: nat, k: nat)
    requires Apart(rivals) && forall p :: p in rivals ==> p in was.Values && MustClear(p, target)
    requires k / 3 <= n && k < 3 * |rivals| && n <= |rivals|
    requires forall i :: 0 <= i < n ==> ValidId(rivals[i].body.profileId)
    ensures !NoFlag(WithCleared(was, Done(rivals, k)), target.body.kind)
  {
    assert rivals[k / 3] in rivals && Done(rivals, k) == rivals[..k / 3];
    RivalLeft(was, rivals, target, k / 3);
  }

  lemma TargetFlagged(was: View, target: Profile, file: string)
    requires file == FileOf(target.body.profileId) && file in was && was[file] == target
    ensures !NoFlag(Designated(was, target), target.body.kind)
  {
    assert Designated(was, target)[file] == Flagged(target, true);
  }

  /** "Never two" holds at every crash inside the call exactly when there were not two to
      begin with. */
  lemma NeverTwoExactly(d: Dir, id: string, table: Table)
    ensures (forall cut :: cut >= 1 ==> AtMostOne(ViewOf(Stopped(d, SetInitial(id), cut, table), table)))
       <==> AtMostOne(ViewOf(d, table))
  {
    if AtMostOne(ViewOf(d, table)) {
      forall cut: nat ensures AtMostOne(ViewOf(Stopped(d, SetInitial(id), cut, table), table)) {
        OpKeepsOne(d, SetInitial(id), cut, table);
      }
    }
    FirstStepsChangeNothing(d, id, 1, table);
  }

  // ------------------------------------------------------------------------- inputs

  function Sample(id: string, on: bool): Profile {
    Profile(SCHEMA_VERSION, Body(id, "", "", Sim, map[], "", on))
  }

  function Pair(p: Profile, q: Profile): Dir {
    map[FileOf(p.body.profileId) := Encode(p)][FileOf(q.body.profileId) := Encode(q)]
  }

  lemma PutFile(d: Dir, f: string, p: Profile, table: Table)
    requires IsJson(f) && Loaded(f, Encode(p), table) == Ok(p)
    ensures ViewOf(d[f := Encode(p)], table) == ViewOf(d, table)[f := p]
  {
    PutVisible(d, f, Encode(p));
    ViewReplaced(d, d[f := Encode(p)], f, Encode(p), table);
  }

  lemma PutVisible(d: Dir, f: string, c: Content)
    requires IsJson(f)
    ensures Visible(d[f := c]) == Visible(d)[f := c]
  {
  }

  lemma EmptyView(table: Table)
    ensures ViewOf(map[], table) == map[]
  {
  }

  lemma TwoFiles(f: string, g: string, p: Profile, q: Profile, table: Table)
    requires f != g && IsJson(f) && IsJson(g)
    requires Loaded(f, Encode(p), table) == Ok(p) && Loaded(g, Encode(q), table) == Ok(q)
    ensures ViewOf(map[f := Encode(p)][g := Encode(q)], table) == map[f := p][g := q]
  {
    var d: Dir, v: View := map[], map[];
    EmptyView(table);
    PutFile(d, f, p, table);
    PutFile(d[f := Encode(p)], g, q, table);
    assert d[f := Encode(p)] == map[f := Encode(p)] && v[f := p] == map[f := p];
  }

  lemma PairView(p: Profile, q: Profile, table: Table)
    requires p.body.profileId != "" && q.body.profileId != "" && p.body.profileId != q.body.profileId
    requires p.schemaVersion == SCHEMA_VERSION == q.schemaVersion
    ensures ViewOf(Pair(p, q), table) == map[FileOf(p.body.profileId) := p][FileOf(q.body.profileId) := q]
    ensures FileOf(p.body.profileId) != FileOf(q.body.profileId)
  {
    OtherFile(p.body.profileId, q.body.profileId);
    FileNames(p.body.profileId);
    FileNames(q.body.profileId);
    SavedLoadsBack(p, table);
    SavedLoadsBack(q, table);
    TwoFiles(FileOf(p.body.profileId), FileOf(q.body.profileId), p, q, table);
  }

  /** What there is to know of a target and a flagged rival alone in a directory. */
  lemma PairFacts(p: Profile, q: Profile, table: Table)
    requires ValidId(p.body.profileId) && q.body.profileId != "" && MustClear(q, p)
    requires p.schemaVersion == SCHEMA_VERSION == q.schemaVersion
    ensures var d, f, g := Pair(p, q), FileOf(p.body.profileId), FileOf(q.body.profileId);
      var v := ViewOf(d, table);
      && f != g && v.Keys == {f, g} && v[f] == p && v[g] == q
      && Found(d, p.body.profileId, table) == Ok(p)
      && (Designate(d, p.body.profileId, table).failure == None <==> ValidId(q.body.profileId))
      && (AtMostOne(v) <==> !p.body.isInitial)
      && !NoFlag(v, p.body.kind)
  {
    var d, f, g := Pair(p, q), FileOf(p.body.profileId), FileOf(q.body.profileId);
    PairView(p, q, table);
    PairFlags(map[f := p][g := q], f, g, p, q);
    FoundIsLookup(d, p.body.profileId, p, table);
    PairCompletes(d, p, q, table);
  }

  lemma PairCompletes(d: Dir, p: Profile, q: Profile, table: Table)
    requires Found(d, p.body.profileId, table) == Ok(p) && MustClear(q, p)
    requires forall r :: r in ViewOf(d, table).Values <==> r == p || r == q
    ensures Designate(d, p.body.profileId, table).failure == None <==> ValidId(q.body.profileId)
  {
    SetInitialCompletes(d, p.body.profileId, table);
  }

  lemma PairFlags(v: View, f: string, g: string, p: Profile, q: Profile)
    requires f != g && v == map[f := p][g := q] && MustClear(q, p)
    ensures AtMostOne(v) <==> !p.body.isInitial
    ensures !NoFlag(v, p.body.kind)
    ensures forall r :: r in v.Values <==> r == p || r == q
  {
    assert v[f] == p && v[g] == q;
    assert p.body.isInitial ==> SameFlag(v[f], v[g]);
  }

  lemma SampleIds()
    ensures ValidId("a") && ValidId("b") && !ValidId("b c")
  {
    assert "b c"[1] == ' ';
  }

  /** One flag, and a designation that would complete: after its first step the old flag is
      still there, so the crash does not leave zero. */
  lemma CrashKeepsFlag(table: Table) returns (d: Dir, id: string)
    ensures AtMostOne(ViewOf(d, table)) && Designate(d, id, table).failure == None
    ensures !NoFlag(ViewOf(Stopped(d, SetInitial(id), 1, table), table), Found(d, id, table).value.body.kind)
  {
    var p, q := Sample("a", false), Sample("b", true);
    d, id := Pair(p, q), p.body.profileId;
    SampleIds();
    PairFacts(p, q, table);
    FirstStepsChangeNothing(d, id, 1, table);
  }

  /** Two flags, and a crash that leaves both. */
  lemma CrashKeepsTwo(table: Table) returns (d: Dir, id: string)
    ensures Designate(d, id, table).failure == None
    ensures !AtMostOne(ViewOf(Stopped(d, SetInitial(id), 1, table), table))
  {
    var p, q := Sample("a", true), Sample("b", true);
    d, id := Pair(p, q), p.body.profileId;
    SampleIds();
    PairFacts(p, q, table);
    FirstStepsChangeNothing(d, id, 1, table);
  }

  /** A file put there by hand, whose flagged profile has an id that is not valid: the
      target is found and the flags are in order, but designating it is refused. */
  lemma ForeignRival(table: Table) returns (d: Dir, id: string)
    ensures Found(d, id, table).Ok? && AtMostOne(ViewOf(d, table))
    ensures exists r :: r in ViewOf(d, table).Values && MustClear(r, Found(d, id, table).value) && !ValidId(r.body.profileId)
    ensures Designate(d, id, table).failure != None
  {
    var p, q := Sample("a", false), Sample("b c", true);
    d, id := Pair(p, q), p.body.profileId;
    SampleIds();
    PairFacts(p, q, table);
    assert ViewOf(d, table)[FileOf(q.body.profileId)] == q;
  }
}
