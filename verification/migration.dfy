/** Profiles as stored, and the version migration of `profiles/store.py`. */
module Migration {
  import opened Basics

  const SCHEMA_VERSION := 1

  datatype Kind = Hardware | Sim

  datatype Posture = Posture(q: seq<real>, railPosM: Option<real>, gripperOpenFrac: real)

  /** The postures that validation lets through. */
  type ArmPosture = p: Posture | |p.q| == 7 && 0.0 <= p.gripperOpenFrac <= 1.0
    witness Posture([0.0, 0.0, 0.0, 0.0, 0.0, 0.0, 0.0], None, 1.0)

  datatype Body = Body(
    profileId: string,
    name: string,
    notes: string,
    kind: Kind,
    arms: map<string, ArmPosture>,
    createdAt: string,
    isInitial: bool)

  /** A validated `StateProfile`. */
  datatype Profile = Profile(schemaVersion: int, body: Body)

  /** What `int(data.get("schema_version", default))` finds. */
  datatype VersionField = Missing | Junk | Int(v: int)

  /** A raw profile object; `body` is None when validation would reject its fields. */
  datatype Raw = Raw(version: VersionField, body: Option<Body>)

  datatype ProfileError =
    | InvalidVersion
    | NoMigration(version: int)
    | DidNotAdvance(version: int)
    | TooNew(version: int)
    | Unreadable
    | NotAnObject
    | InvalidProfile
    | WrongName(profileId: string)
    | InvalidId(profileId: string)
    | NotFound(profileId: string)
    | InitialProtected(profileId: string)

  /** From-version to upgrader; any functions at all. */
  type Table = map<int, Raw -> Raw>

  function VersionOf(data: Raw, default: int): Result<int, ProfileError> {
    match data.version
    case Missing => Ok(default)
    case Junk => Err(InvalidVersion)
    case Int(v) => Ok(v)
  }

  /** One turn of the loop: the upgraded data and its version. */
  function Upgrade(data: Raw, version: int, table: Table): Result<(Raw, int), ProfileError> {
    if version !in table then Err(NoMigration(version))
    else
      var d := table[version](data);
      match VersionOf(d, version)
      case Err(e) => Err(e)
      case Ok(v) => if v <= version then Err(DidNotAdvance(version)) else Ok((d, v))
  }

  function MigrateFrom(data: Raw, version: int, table: Table): Result<Raw, ProfileError>
    decreases SCHEMA_VERSION - version
  {
    if version < SCHEMA_VERSION then
      match Upgrade(data, version, table)
      case Err(e) => Err(e)
      case Ok((d, v)) => MigrateFrom(d, v, table)
    else if version > SCHEMA_VERSION then Err(TooNew(version))
    else Ok(data)
  }

  function Migrated(data: Raw, table: Table): Result<Raw, ProfileError> {
    match VersionOf(data, 1)
    case Err(e) => Err(e)
    case Ok(v) => MigrateFrom(data, v, table)
  }

  /** `_migrate`: the loop, terminating for every table. */
  method Migrate(raw: Raw, table: Table) returns (r: Result<Raw, ProfileError>)
    ensures r == Migrated(raw, table)
  {
    var data := raw;
    var version;
    match VersionOf(data, 1) {
      case Err(e) => return Err(e);
      case Ok(v) => version := v;
    }
    while version < SCHEMA_VERSION
      invariant MigrateFrom(data, version, table) == Migrated(raw, table)
      decreases SCHEMA_VERSION - version
    {
      if version !in table { return Err(NoMigration(version)); }
      data := table[version](data);
      match VersionOf(data, version) {
        case Err(e) => return Err(e);
        case Ok(v) =>
          if v <= version { return Err(DidNotAdvance(version)); }
          version := v;
      }
    }
    if version > SCHEMA_VERSION { return Err(TooNew(version)); }
    return Ok(data);
  }

  // ------------------------------------------------- what migrating succeeds means

  /** A run of upgrades from `data`: each version is below the supported one, has an
      upgrader, and the upgrader's result carries a strictly larger version. */
  ghost predicate Chain(data: Raw, ds: seq<Raw>, vs: seq<int>, table: Table) {
    && |ds| == |vs| > 0 && ds[0] == data && VersionOf(data, 1) == Ok(vs[0])
    && (forall i :: 0 <= i < |vs| ==> Linked(ds, vs, i, table))
  }

  ghost predicate Linked(ds: seq<Raw>, vs: seq<int>, i: nat, table: Table)
    requires |ds| == |vs| && i < |vs|
  {
    i > 0 ==>
      && vs[i - 1] < SCHEMA_VERSION && vs[i - 1] in table
      && ds[i] == table[vs[i - 1]](ds[i - 1])
      && VersionOf(ds[i], vs[i - 1]) == Ok(vs[i]) && vs[i - 1] < vs[i]
  }

  /** Why a run cannot be continued to the supported version. */
  predicate Stuck(d: Raw, v: int, e: ProfileError, table: Table) {
    || (v > SCHEMA_VERSION && e == TooNew(v))
    || (v < SCHEMA_VERSION && v !in table && e == NoMigration(v))
    || (v < SCHEMA_VERSION && v in table && VersionOf(table[v](d), v) == Err(e))
    || (v < SCHEMA_VERSION && v in table && VersionOf(table[v](d), v).Ok?
        && VersionOf(table[v](d), v).value <= v && e == DidNotAdvance(v))
  }

  /** No run takes more upgrades than there are versions to climb. */
  lemma {:induction false} ChainLength(data: Raw, ds: seq<Raw>, vs: seq<int>, table: Table)
    requires Chain(data, ds, vs, table)
    ensures vs[0] + |vs| - 1 <= vs[|vs| - 1]
    ensures |vs| == 1 || |vs| - 1 <= SCHEMA_VERSION - vs[0]
  {
    ClimbsTo(data, ds, vs, table, |vs| - 1);
    if |vs| > 1 {
      assert Linked(ds, vs, |vs| - 1, table);
      ClimbsTo(data, ds, vs, table, |vs| - 2);
    }
  }

  lemma {:induction false} ClimbsTo(data: Raw, ds: seq<Raw>, vs: seq<int>, table: Table, i: nat)
    requires Chain(data, ds, vs, table) && i < |vs|
    ensures vs[0] + i <= vs[i]
  {
    assert Linked(ds, vs, i, table);
    if i > 0 { ClimbsTo(data, ds, vs, table, i - 1); }
  }

  lemma {:induction false} AlongChain(data: Raw, ds: seq<Raw>, vs: seq<int>, table: Table, i: nat)
    requires Chain(data, ds, vs, table) && i < |vs|
    ensures MigrateFrom(ds[i], vs[i], table) == Migrated(data, table)
  {
    assert Linked(ds, vs, i, table);
    if i > 0 { AlongChain(data, ds, vs, table, i - 1); }
  }

  /** The longest run from `data`. */
  lemma {:induction false} Follow(data: Raw, ds: seq<Raw>, vs: seq<int>, table: Table)
    returns (es: seq<Raw>, ws: seq<int>)
    requires Chain(data, ds, vs, table)
    ensures Chain(data, es, ws, table)
    ensures ws[|ws| - 1] >= SCHEMA_VERSION || Upgrade(es[|es| - 1], ws[|ws| - 1], table).Err?
    decreases SCHEMA_VERSION - vs[|vs| - 1]
  {
    var d, v := ds[|ds| - 1], vs[|vs| - 1];
    if v < SCHEMA_VERSION && Upgrade(d, v, table).Ok? {
      var next := Upgrade(d, v, table).value;
      var ds', vs' := ds + [next.0], vs + [next.1];
      forall i | 0 <= i < |vs'| ensures Linked(ds', vs', i, table) {
        if i < |vs| { assert Linked(ds, vs, i, table); }
      }
      es, ws := Follow(data, ds', vs', table);
    } else {
      es, ws := ds, vs;
    }
  }

  ghost predicate ReachesCurrent(data: Raw, r: Raw, table: Table) {
    exists ds, vs :: Chain(data, ds, vs, table) && ds[|ds| - 1] == r && vs[|vs| - 1] == SCHEMA_VERSION
  }

  ghost predicate GetsStuck(data: Raw, e: ProfileError, table: Table) {
    || VersionOf(data, 1) == Err(e)
    || exists ds, vs :: Chain(data, ds, vs, table) && Stuck(ds[|ds| - 1], vs[|vs| - 1], e, table)
  }

  lemma StuckFails(d: Raw, v: int, e: ProfileError, table: Table)
    ensures Stuck(d, v, e, table) ==> MigrateFrom(d, v, table) == Err(e)
    ensures v != SCHEMA_VERSION && (v > SCHEMA_VERSION || Upgrade(d, v, table).Err?) ==>
      MigrateFrom(d, v, table).Err? && Stuck(d, v, MigrateFrom(d, v, table).error, table)
  {
  }

  lemma ReachedMigrates(data: Raw, r: Raw, table: Table)
    requires ReachesCurrent(data, r, table)
    ensures Migrated(data, table) == Ok(r)
  {
    var ds, vs :| Chain(data, ds, vs, table) && ds[|ds| - 1] == r && vs[|vs| - 1] == SCHEMA_VERSION;
    AlongChain(data, ds, vs, table, |vs| - 1);
  }

  lemma StuckErrs(data: Raw, e: ProfileError, table: Table)
    requires GetsStuck(data, e, table)
    ensures Migrated(data, table) == Err(e)
  {
    if VersionOf(data, 1).Ok? {
      var ds, vs :| Chain(data, ds, vs, table) && Stuck(ds[|ds| - 1], vs[|vs| - 1], e, table);
      AlongChain(data, ds, vs, table, |vs| - 1);
      StuckFails(ds[|ds| - 1], vs[|vs| - 1], e, table);
    }
  }

  lemma OneOrTheOther(data: Raw, table: Table)
    ensures match Migrated(data, table)
      case Ok(r) => ReachesCurrent(data, r, table)
      case Err(e) => GetsStuck(data, e, table)
  {
    if VersionOf(data, 1).Ok? {
      var v0 := VersionOf(data, 1).value;
      assert Linked([data], [v0], 0, table);
      var ds, vs := Follow(data, [data], [v0], table);
      AlongChain(data, ds, vs, table, |vs| - 1);
      StuckFails(ds[|ds| - 1], vs[|vs| - 1], TooNew(0), table);
    }
  }

  /** Migration succeeds exactly when some run of upgrades ends at the supported
      version, and fails exactly on a junk version, a gap, a step that does not
      advance, or a version past the supported one. */
  lemma MigratedExactly(data: Raw, r: Raw, e: ProfileError, table: Table)
    ensures Migrated(data, table) == Ok(r) <==> ReachesCurrent(data, r, table)
    ensures Migrated(data, table) == Err(e) <==> GetsStuck(data, e, table)
  {
    OneOrTheOther(data, table);
    if ReachesCurrent(data, r, table) { ReachedMigrates(data, r, table); }
    if GetsStuck(data, e, table) { StuckErrs(data, e, table); }
  }

  /** What migration returns carries the supported version and migrates to itself. */
  lemma {:induction false} MigratedFixedPoint(data: Raw, version: int, table: Table)
    requires VersionOf(data, version) == Ok(version)
    requires data.version == Int(version) || version == 1
    requires MigrateFrom(data, version, table).Ok?
    ensures var r := MigrateFrom(data, version, table).value;
      VersionOf(r, 1) == Ok(SCHEMA_VERSION) && Migrated(r, table) == Ok(r)
    decreases SCHEMA_VERSION - version
  {
    if version < SCHEMA_VERSION {
      var next := Upgrade(data, version, table).value;
      MigratedFixedPoint(next.0, next.1, table);
    }
  }

  /** Files that no upgrade touches: without a version or at version 1 they are taken as they
      are, newer ones, older ones without an upgrader and junk versions are refused. */
  lemma UntouchedByMigration(data: Raw, table: Table)
    ensures data.version == Missing || data.version == Int(1) ==> Migrated(data, table) == Ok(data)
    ensures forall v :: data.version == Int(v) && v > 1 ==> Migrated(data, table) == Err(TooNew(v))
    ensures forall v :: data.version == Int(v) && v < 1 && v !in table ==> Migrated(data, table) == Err(NoMigration(v))
    ensures data.version == Junk ==> Migrated(data, table) == Err(InvalidVersion)
  {}

  lemma MigrateTwice(data: Raw, table: Table)
    requires Migrated(data, table).Ok?
    ensures var r := Migrated(data, table).value;
      VersionOf(r, 1) == Ok(SCHEMA_VERSION) && Migrated(r, table) == Ok(r)
  {
    MigratedFixedPoint(data, VersionOf(data, 1).value, table);
  }
}
