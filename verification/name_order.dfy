/** The orders that listings use: file names by code point, profiles by creation
    time and then id. */
module NameOrder {
  import opened Migration

  predicate Le(a: string, b: string) {
    a == "" || (b != "" && (a[0] < b[0] || (a[0] == b[0] && Le(a[1..], b[1..]))))
  }

  /** Code-point order: a prefix, or smaller at the first difference. */
  lemma {:induction false} LeMeans(a: string, b: string)
    ensures Le(a, b) <==> a <= b || exists i :: SmallerAt(a, b, i)
  {
    if a != "" && b != "" {
      LeMeans(a[1..], b[1..]);
      if a[0] == b[0] {
        assert a <= b <==> a[1..] <= b[1..];
        forall i: nat ensures SmallerAt(a, b, i + 1) <==> SmallerAt(a[1..], b[1..], i) {
          if SmallerAt(a, b, i + 1) { assert a[1..][..i] == a[..i + 1][1..] && b[1..][..i] == b[..i + 1][1..]; }
          if SmallerAt(a[1..], b[1..], i) {
            assert a[..i + 1] == [a[0]] + a[1..][..i] && b[..i + 1] == [b[0]] + b[1..][..i];
          }
        }
        forall i | SmallerAt(a, b, i) ensures SmallerAt(a[1..], b[1..], i - 1) { assert i != 0; }
      } else {
        forall i | SmallerAt(a, b, i) ensures i == 0 { SameFirst(a, b, i); }
        assert a[0] < b[0] ==> SmallerAt(a, b, 0);
      }
    }
  }

  /** A prefix, or smaller at the first difference. */
  ghost predicate Precedes(a: string, b: string) { a <= b || exists i :: SmallerAt(a, b, i) }

  lemma SameFirst(a: string, b: string, i: int)
    requires SmallerAt(a, b, i)
    ensures i == 0 || a[0] == b[0]
  {
    if i > 0 { assert a[..i][0] == a[0] && b[..i][0] == b[0]; }
  }

  predicate SmallerAt(a: string, b: string, i: int) {
    0 <= i < |a| && i < |b| && a[..i] == b[..i] && a[i] < b[i]
  }

  lemma {:induction false} LeTotal(a: string, b: string)
    ensures Le(a, b) || Le(b, a)
  {
    if a != "" && b != "" { LeTotal(a[1..], b[1..]); }
  }

  lemma {:induction false} LeAntisymmetric(a: string, b: string)
    requires Le(a, b) && Le(b, a)
    ensures a == b
  {
    if a != "" {
      LeAntisymmetric(a[1..], b[1..]);
      assert a == [a[0]] + a[1..] && b == [b[0]] + b[1..];
    }
  }

  lemma {:induction false} LeTransitive(a: string, b: string, c: string)
    requires Le(a, b) && Le(b, c)
    ensures Le(a, c)
  {
    if a != "" && a[0] == b[0] == c[0] { LeTransitive(a[1..], b[1..], c[1..]); }
  }

  // ---------------------------------------------------------------- sorted names

  ghost predicate Ascending(names: seq<string>) {
    forall i, j :: 0 <= i < j < |names| ==> Le(names[i], names[j]) && names[i] != names[j]
  }

  /** `name` put in its place among ascending names. */
  function InsertName(name: string, names: seq<string>): seq<string> {
    if names == [] || Le(name, names[0]) then [name] + names
    else [names[0]] + InsertName(name, names[1..])
  }

  lemma {:induction false} InsertNameKeeps(name: string, names: seq<string>)
    requires Ascending(names) && name !in names
    ensures Ascending(InsertName(name, names))
    ensures forall x :: x in InsertName(name, names) <==> x == name || x in names
  {
    if names != [] {
      LeTotal(name, names[0]);
      if Le(name, names[0]) {
        forall j | 0 <= j < |names| ensures Le(name, names[j]) {
          if j > 0 { LeTransitive(name, names[0], names[j]); }
        }
      } else {
        assert names == [names[0]] + names[1..];
        InsertNameKeeps(name, names[1..]);
        var rest := InsertName(name, names[1..]);
        forall j | 0 <= j < |rest| ensures Le(names[0], rest[j]) && names[0] != rest[j] {
          assert rest[j] in rest;
        }
      }
    }
  }

  /** There is only one ascending listing of a set of names. */
  lemma {:induction false} ListingUnique(a: seq<string>, b: seq<string>)
    requires Ascending(a) && Ascending(b)
    requires forall x :: x in a <==> x in b
    ensures a == b
  {
    if a != [] { assert a[0] in b; }
    if b != [] { assert b[0] in a; }
    if a != [] {
      var i :| 0 <= i < |b| && b[i] == a[0];
      var j :| 0 <= j < |a| && a[j] == b[0];
      if i > 0 && j > 0 { LeAntisymmetric(a[0], b[0]); }
      assert a[0] == b[0];
      assert a == [a[0]] + a[1..] && b == [b[0]] + b[1..];
      forall x ensures x in a[1..] <==> x in b[1..] {
        if x in a[1..] { assert x in b && x != a[0]; }
        if x in b[1..] { assert x in a && x != b[0]; }
      }
      ListingUnique(a[1..], b[1..]);
    }
  }

  // ------------------------------------------------------------- sorted profiles

  /** The sort key `(created_at, profile_id)`, compared as a tuple. */
  predicate KeyLe(p: Profile, q: Profile) {
    if p.body.createdAt == q.body.createdAt then Le(p.body.profileId, q.body.profileId)
    else Le(p.body.createdAt, q.body.createdAt)
  }

  function InsertProfile(p: Profile, ps: seq<Profile>): seq<Profile> {
    if ps == [] || KeyLe(p, ps[0]) then [p] + ps
    else [ps[0]] + InsertProfile(p, ps[1..])
  }

  /** The stable sort by key. */
  function SortProfiles(ps: seq<Profile>): seq<Profile> {
    if ps == [] then [] else InsertProfile(ps[0], SortProfiles(ps[1..]))
  }

  ghost predicate Ordered(ps: seq<Profile>) {
    forall i, j :: 0 <= i < j < |ps| ==> KeyLe(ps[i], ps[j])
  }

  lemma KeyLeTransitive(p: Profile, q: Profile, r: Profile)
    requires KeyLe(p, q) && KeyLe(q, r)
    ensures KeyLe(p, r)
  {
    var a, b, c := p.body.createdAt, q.body.createdAt, r.body.createdAt;
    if a == b == c {
      LeTransitive(p.body.profileId, q.body.profileId, r.body.profileId);
    } else if a != b && b != c {
      LeTransitive(a, b, c);
      if a == c { LeAntisymmetric(a, b); }
    }
  }

  lemma KeyLeTotal(p: Profile, q: Profile)
    ensures KeyLe(p, q) || KeyLe(q, p)
  {
    LeTotal(p.body.profileId, q.body.profileId);
    LeTotal(p.body.createdAt, q.body.createdAt);
  }

  lemma {:induction false} InsertProfileElements(p: Profile, ps: seq<Profile>)
    ensures multiset(InsertProfile(p, ps)) == multiset([p]) + multiset(ps)
  {
    if ps != [] {
      assert ps == [ps[0]] + ps[1..];
      if !KeyLe(p, ps[0]) { InsertProfileElements(p, ps[1..]); }
    }
  }

  predicate LeAll(p: Profile, ps: seq<Profile>) {
    forall j :: 0 <= j < |ps| ==> KeyLe(p, ps[j])
  }

  lemma PrependOrdered(p: Profile, ps: seq<Profile>)
    requires Ordered(ps) && LeAll(p, ps)
    ensures Ordered([p] + ps)
  {
  }

  lemma {:induction false} InsertProfileOrdered(p: Profile, ps: seq<Profile>)
    requires Ordered(ps)
    ensures Ordered(InsertProfile(p, ps))
  {
    if ps != [] && KeyLe(p, ps[0]) {
      forall j | 0 <= j < |ps| ensures KeyLe(p, ps[j]) {
        if j > 0 { KeyLeTransitive(p, ps[0], ps[j]); }
      }
      PrependOrdered(p, ps);
    } else if ps != [] {
      KeyLeTotal(p, ps[0]);
      InsertProfileOrdered(p, ps[1..]);
      InsertProfileElements(p, ps[1..]);
      var rest := InsertProfile(p, ps[1..]);
      forall j | 0 <= j < |rest| ensures KeyLe(ps[0], rest[j]) {
        assert rest[j] in multiset(rest);
      }
      PrependOrdered(ps[0], rest);
    }
  }

  /** Sorting puts the profiles in order and neither loses nor invents one. */
  lemma {:induction false} SortedPermutation(ps: seq<Profile>)
    ensures Chronological(SortProfiles(ps))
    ensures multiset(SortProfiles(ps)) == multiset(ps)
  {
    SortedOrdered(ps);
    OrderedMeans(SortProfiles(ps));
    SortedElements(ps);
  }

  lemma {:induction false} SortedElements(ps: seq<Profile>)
    ensures multiset(SortProfiles(ps)) == multiset(ps)
  {
    if ps != [] {
      assert ps == [ps[0]] + ps[1..];
      SortedElements(ps[1..]);
      InsertProfileElements(ps[0], SortProfiles(ps[1..]));
    }
  }

  lemma {:induction false} SortedOrdered(ps: seq<Profile>)
    ensures Ordered(SortProfiles(ps))
  {
    if ps != [] {
      SortedOrdered(ps[1..]);
      InsertProfileOrdered(ps[0], SortProfiles(ps[1..]));
    }
  }

  /** Created earlier, or at the same time and with an id that comes first. */
  ghost predicate Earlier(p: Profile, q: Profile) {
    if p.body.createdAt == q.body.createdAt then Precedes(p.body.profileId, q.body.profileId)
    else Precedes(p.body.createdAt, q.body.createdAt)
  }

  /** Oldest first, then by id, both by code point. */
  ghost predicate Chronological(ps: seq<Profile>) {
    forall i, j :: 0 <= i < j < |ps| ==> Earlier(ps[i], ps[j])
  }

  lemma KeyLeMeans(p: Profile, q: Profile)
    ensures KeyLe(p, q) <==> Earlier(p, q)
  {
    LeMeans(p.body.createdAt, q.body.createdAt);
    LeMeans(p.body.profileId, q.body.profileId);
  }

  lemma OrderedMeans(ps: seq<Profile>)
    ensures Ordered(ps) <==> Chronological(ps)
  {
    forall i, j | 0 <= i < j < |ps| ensures KeyLe(ps[i], ps[j]) <==> Earlier(ps[i], ps[j]) {
      KeyLeMeans(ps[i], ps[j]);
    }
  }

  predicate SameKey(p: Profile, q: Profile) {
    p.body.createdAt == q.body.createdAt && p.body.profileId == q.body.profileId
  }

  /** Those of `ps` with the key of `k`, in their order. */
  function WithKey(ps: seq<Profile>, k: Profile): seq<Profile> {
    if ps == [] then []
    else (if SameKey(ps[0], k) then [ps[0]] else []) + WithKey(ps[1..], k)
  }

  lemma {:induction false} InsertStable(p: Profile, ps: seq<Profile>, k: Profile)
    ensures WithKey(InsertProfile(p, ps), k) == WithKey([p] + ps, k)
  {
    assert ([p] + ps)[1..] == ps;
    if ps != [] && !KeyLe(p, ps[0]) {
      InsertStable(p, ps[1..], k);
      assert ([p] + ps[1..])[1..] == ps[1..];
      LeTotal(p.body.profileId, p.body.profileId);
      assert !(SameKey(p, k) && SameKey(ps[0], k));
    }
  }

  /** Profiles with equal keys keep their order. */
  lemma {:induction false} SortStable(ps: seq<Profile>, k: Profile)
    ensures WithKey(SortProfiles(ps), k) == WithKey(ps, k)
  {
    if ps != [] {
      SortStable(ps[1..], k);
      InsertStable(ps[0], SortProfiles(ps[1..]), k);
      assert ([ps[0]] + SortProfiles(ps[1..]))[1..] == SortProfiles(ps[1..]);
    }
  }
}
