/** One consumer whose handler does not call `drain`: order and completeness of what
    the handler sees, and the bound on what can be outstanding. */
module BusSingleConsumer {
  import opened Basics
  import opened Futures
  import opened BusProtocol
  import opened BusInvariant
  import opened BusTheorems

  predicate AllReturned(s: State) {
    forall d :: 0 <= d < |s.drains| ==> s.drains[d].returned
  }

  /** Every snapshot is taken when no other drain is under way. */
  predicate SingleConsumer(m: int, acts: seq<Action>) {
    forall i :: 0 <= i < |acts| && acts[i].Snapshot? ==>
      match Exec(Init(m), acts[..i]) case Some(s) => AllReturned(s) case None => false
  }

  /** The commands of `fs` whose cancel has not succeeded, in order. */
  function Survivors(fs: seq<Id>, futures: map<Id, Future>): seq<Id> {
    if fs == [] then []
    else
      var f := fs[|fs| - 1];
      Survivors(fs[..|fs| - 1], futures)
      + (if f in futures && futures[f].CancelWon() then [] else [f])
  }

  lemma {:induction false} SurvivorsFrame(fs: seq<Id>, m: map<Id, Future>, n: map<Id, Future>)
    requires forall f :: f in fs ==> f in m && f in n && m[f].CancelWon() == n[f].CancelWon()
    ensures Survivors(fs, m) == Survivors(fs, n)
  {
    if fs != [] { SurvivorsFrame(fs[..|fs| - 1], m, n); }
  }

  /** What the drain under way has not reached yet. A command counts as reached once
      its future has been told to run or found cancelled. */
  function Unreached(s: State): seq<Id> {
    if |s.drains| == 0 then [] else Rest(s.drains[|s.drains| - 1])
  }

  function Rest(d: Drain): seq<Id> {
    var k := if d.phase == Ready then d.next else d.next + 1;
    if k <= |d.batch| then d.batch[k..] else []
  }

  function Reached(s: State): seq<Id> {
    var n := |s.accepted| - |Unreached(s)| - |s.queue|;
    if n < 0 then [] else s.accepted[..n]
  }

  ghost predicate InOrder(s: State) {
    && (forall d :: 0 <= d < |s.drains| - 1 ==> s.drains[d].returned)
    && s.accepted == Reached(s) + Unreached(s) + s.queue
    && (forall f :: f in Reached(s) ==> f in s.futures && (s.futures[f].Settled() || s.futures[f] == Running))
    && s.handled == Survivors(Reached(s), s.futures)
  }

  /** What a step that is not a snapshot does to the parts `InOrder` looks at:
      `reached` are the commands it moves from unreached to reached, `called` those
      it hands to the handler. */
  ghost predicate Advances(s: State, t: State, reached: seq<Id>, called: seq<Id>) {
    && (forall d :: 0 <= d < |t.drains| - 1 ==> t.drains[d].returned)
    && t.handled == s.handled + called
    && t.accepted == Reached(s) + reached + Unreached(t) + t.queue
    && (forall f :: f in reached ==> f in t.futures && (t.futures[f].Settled() || t.futures[f] == Running))
    && Survivors(reached, t.futures) == called
    && (forall f :: f in s.futures && (s.futures[f].Settled() || s.futures[f] == Running) ==>
          f in t.futures && (t.futures[f].Settled() || t.futures[f] == Running)
          && t.futures[f].CancelWon() == s.futures[f].CancelWon())
  }

  lemma {:induction false} SurvivorsConcat(a: seq<Id>, b: seq<Id>, m: map<Id, Future>)
    ensures Survivors(a + b, m) == Survivors(a, m) + Survivors(b, m)
  {
    if b == [] {
      assert a + b == a;
    } else {
      assert (a + b)[..|a + b| - 1] == a + b[..|b| - 1];
      SurvivorsConcat(a, b[..|b| - 1], m);
    }
  }

  lemma AdvancesInOrder(s: State, t: State, reached: seq<Id>, called: seq<Id>)
    requires InOrder(s) && Advances(s, t, reached, called)
    ensures InOrder(t)
  {
    var r := Reached(s);
    SurvivorsFrame(r, s.futures, t.futures);
    SurvivorsConcat(r, reached, t.futures);
    assert Reached(t) == r + reached;
  }

  /** Nothing that happens to a reached command changes whether its cancel succeeded. */
  lemma ReachedStay(s: State, a: Action)
    requires Enabled(s, a) && Legal(s, a)
    ensures var t := Apply(s, a);
      forall f :: f in s.futures && (s.futures[f].Settled() || s.futures[f] == Running) ==>
        f in t.futures && (t.futures[f].Settled() || t.futures[f] == Running)
        && t.futures[f].CancelWon() == s.futures[f].CancelWon()
  {}

  lemma RestMoves(a: Action, d: Drain, e: Drain)
    requires DrainMoves(a, d, e) && d.next <= |d.batch|
    requires a.Notify? ==> d.phase == Ready && d.next < |d.batch|
    requires a.HandlerEnds? || a.Resolve? ==> d.phase != Ready
    requires a.Return? ==> d.phase == Ready
    ensures Rest(d) == (if a.Notify? then [d.batch[d.next]] else []) + Rest(e)
  {}

  /** The future a drain's step works on, and what the step does to `handled`. */
  lemma HandledMoves(s: State, a: Action)
    requires DrainStep(a) && Enabled(s, a) && Legal(s, a)
    ensures !a.Notify? ==> Apply(s, a).handled == s.handled
    ensures a.Notify? ==>
      var f, t := s.drains[a.d].batch[s.drains[a.d].next], Apply(s, a);
      f in t.futures && t.handled == s.handled + (if t.futures[f].CancelWon() then [] else [f])
      && (t.futures[f] == Running || t.futures[f].Settled())
  {}

  lemma LastDrainMoves(s: State, t: State, d: nat)
    requires forall i :: 0 <= i < |s.drains| - 1 ==> s.drains[i].returned
    requires d < |s.drains| == |t.drains| && !s.drains[d].returned
    requires forall i :: 0 <= i < |s.drains| && i != d ==> t.drains[i] == s.drains[i]
    ensures Unreached(s) == Rest(s.drains[d]) && Unreached(t) == Rest(t.drains[d])
    ensures forall i :: 0 <= i < |t.drains| - 1 ==> t.drains[i].returned
  {
    assert d == |s.drains| - 1;
  }

  lemma Reassociate(accepted: seq<Id>, r: seq<Id>, x: seq<Id>, y: seq<Id>, q: seq<Id>)
    requires accepted == r + (x + y) + q
    ensures accepted == r + x + y + q
  {}

  /** Telling a command moves it from unreached to reached, and hands it to the handler
      unless its cancel has succeeded. */
  lemma NotifyInOrder(s: State, a: Action)
    requires a.Notify? && DrainsOk(s) && InOrder(s) && Enabled(s, a) && Legal(s, a)
    ensures InOrder(Apply(s, a))
  {
    var t, me := Apply(s, a), s.drains[a.d];
    var f := me.batch[me.next];
    assert DrainOk(s, me);
    DrainFrame(s, a);
    RestMoves(a, me, t.drains[a.d]);
    HandledMoves(s, a);
    ReachedStay(s, a);
    LastDrainMoves(s, t, a.d);
    Reassociate(s.accepted, Reached(s), [f], Unreached(t), s.queue);
    SurvivorsOfOne(f, t.futures);
    AdvancesInOrder(s, t, [f], Survivors([f], t.futures));
  }

  lemma SurvivorsOfOne(f: Id, futures: map<Id, Future>)
    ensures Survivors([f], futures) == if f in futures && futures[f].CancelWon() then [] else [f]
  {
    assert [f][..0] == [];
    assert Survivors([], futures) == [];
  }

  /** No other step of a drain moves any. */
  lemma DrainStepInOrder(s: State, a: Action)
    requires DrainStep(a) && !a.Notify? && DrainsOk(s) && InOrder(s) && Enabled(s, a) && Legal(s, a)
    ensures InOrder(Apply(s, a))
  {
    var t, me := Apply(s, a), s.drains[a.d];
    assert DrainOk(s, me);
    DrainFrame(s, a);
    RestMoves(a, me, t.drains[a.d]);
    HandledMoves(s, a);
    ReachedStay(s, a);
    LastDrainMoves(s, t, a.d);
    Reassociate(s.accepted, Reached(s), [], Unreached(t), s.queue);
    AdvancesInOrder(s, t, [], []);
  }

  lemma OtherInOrder(s: State, a: Action)
    requires !DrainStep(a) && DrainsOk(s) && InOrder(s) && Enabled(s, a) && Legal(s, a)
    requires a.Snapshot? ==> AllReturned(s)
    ensures InOrder(Apply(s, a))
  {
    var t := Apply(s, a);
    UnreachedFrame(s, a);
    ReachedStay(s, a);
    assert Reached(s) + [] == Reached(s);
    AdvancesInOrder(s, t, [], []);
  }

  lemma UnreachedFrame(s: State, a: Action)
    requires !DrainStep(a) && DrainsOk(s) && Enabled(s, a) && Legal(s, a)
    requires forall d :: 0 <= d < |s.drains| - 1 ==> s.drains[d].returned
    requires s.accepted == Reached(s) + Unreached(s) + s.queue
    requires a.Snapshot? ==> AllReturned(s)
    ensures var t := Apply(s, a);
      && t.handled == s.handled
      && (forall d :: 0 <= d < |t.drains| - 1 ==> t.drains[d].returned)
      && t.accepted == Reached(s) + Unreached(t) + t.queue
  {
    var t := Apply(s, a);
    if |s.drains| > 0 { assert DrainOk(s, s.drains[|s.drains| - 1]); }
    if a.Snapshot? {
      assert Unreached(s) == [] && Unreached(t) == s.queue;
    } else {
      assert Unreached(t) == Unreached(s);
    }
  }

  lemma InOrderStep(s: State, a: Action)
    requires Inv(s) && InOrder(s) && Enabled(s, a)
    requires a.Snapshot? ==> AllReturned(s)
    ensures InOrder(Apply(s, a))
  {
    InvLegal(s, a);
    if a.Notify? { NotifyInOrder(s, a); }
    else if DrainStep(a) { DrainStepInOrder(s, a); }
    else { OtherInOrder(s, a); }
  }

  lemma SingleConsumerPrefix(m: int, acts: seq<Action>)
    requires SingleConsumer(m, acts) && acts != []
    ensures SingleConsumer(m, acts[..|acts| - 1])
  {
    assert forall i :: 0 <= i < |acts| ==> acts[..|acts| - 1][..i] == acts[..i];
  }

  lemma {:induction false} InOrderRun(m: int, acts: seq<Action>, t: State)
    requires SingleConsumer(m, acts) && Exec(Init(m), acts) == Some(t)
    ensures Inv(t) && InOrder(t)
  {
    InitInv(m);
    RunInv(Init(m), acts, t);
    if acts != [] {
      var n := |acts| - 1;
      var u := Exec(Init(m), acts[..n]).value;
      SingleConsumerPrefix(m, acts);
      InOrderRun(m, acts[..n], u);
      InOrderStep(u, acts[n]);
    }
  }

  function Elements(fs: seq<Id>): set<Id> { set f | f in fs }

  lemma {:induction false} ElementsCount(fs: seq<Id>)
    ensures |Elements(fs)| <= |fs|
  {
    if fs != [] {
      ElementsCount(fs[1..]);
      assert Elements(fs) == {fs[0]} + Elements(fs[1..]);
    }
  }

  /** Accepted commands nobody has been told the outcome of. */
  function Outstanding(s: State): set<Id> {
    set f | f in s.accepted && f in s.futures && !s.futures[f].Terminal()
  }

  lemma OutstandingMeans(s: State)
    ensures Outstanding(s) == set f | f in s.accepted && f in s.futures && !s.futures[f].Terminal()
  {}

  lemma OutstandingAreHeld(s: State, batch: seq<Id>)
    requires HeldFits(s) && UnsettledHeld(s) && DrainsOk(s) && s.refusing !! Elements(s.accepted)
    requires forall d :: 0 <= d < |s.drains| - 1 ==> s.drains[d].returned
    requires |s.drains| > 0 ==> batch == s.drains[|s.drains| - 1].batch
    ensures Outstanding(s) <= Elements(batch) + Elements(s.queue)
  {
    forall f | f in Outstanding(s) ensures f in Elements(batch) + Elements(s.queue) {
      assert Held(s, f);
      var p :| HeldAt(s, p, f);
      if p.InBatch? { assert DrainOk(s, s.drains[p.d]); }
    }
  }

  /** The commands handled over the whole run are, in order, the accepted commands
      reached so far minus those whose cancel succeeded, each handled once. */
  lemma HandledInOrder(m: int, acts: seq<Action>, t: State)
    requires SingleConsumer(m, acts) && Exec(Init(m), acts) == Some(t)
    ensures Reached(t) <= t.accepted
    ensures t.accepted == Reached(t) + Unreached(t) + t.queue
    ensures t.handled == Survivors(Reached(t), t.futures)
    ensures Distinct(t.handled)
  {
    InOrderRun(m, acts, t);
  }

  /** At most two queues' worth of accepted commands is ever outstanding. */
  lemma OutstandingBound(m: int, acts: seq<Action>, t: State)
    requires SingleConsumer(m, acts) && Exec(Init(m), acts) == Some(t)
    ensures |set f | f in t.accepted && f in t.futures && !t.futures[f].Terminal()| <= 2 * (if m < 0 then 0 else m)
  {
    InOrderRun(m, acts, t);
    MaxsizeFixed(Init(m), acts, t);
    var batch := if |t.drains| == 0 then [] else t.drains[|t.drains| - 1].batch;
    if |t.drains| > 0 { assert DrainOk(t, t.drains[|t.drains| - 1]); }
    OutstandingAreHeld(t, batch);
    ElementsCount(batch);
    ElementsCount(t.queue);
    Subset(Outstanding(t), Elements(batch) + Elements(t.queue));
    OutstandingMeans(t);
  }

  lemma {:induction false} Subset(a: set<Id>, b: set<Id>)
    requires a <= b
    ensures |a| <= |b|
  {
    if a != {} {
      var x :| x in a;
      Subset(a - {x}, b - {x});
    }
  }
}
