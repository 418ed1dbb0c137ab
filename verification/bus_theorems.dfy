/** What every run of the command bus guarantees. */
module BusTheorems {
  import opened Basics
  import opened Futures
  import opened BusProtocol
  import opened BusInvariant

  lemma {:induction false} RunInv(s: State, acts: seq<Action>, t: State)
    requires Inv(s) && Exec(s, acts) == Some(t)
    ensures Inv(t)
  {
    if acts != [] {
      var u := Exec(s, acts[..|acts| - 1]).value;
      RunInv(s, acts[..|acts| - 1], u);
      StepInv(u, acts[|acts| - 1]);
    }
  }

  // ------------------------------------------------------- any interleaving

  /** Any number of producers, clients and consumers: no future operation ever
      raises, the queue stays within its bound, no handler is called twice or on a
      cancelled command, and whoever waits is held in exactly one place. */
  lemma EveryRunIsSafe(m: int, acts: seq<Action>, t: State)
    requires Exec(Init(m), acts) == Some(t)
    ensures !t.fault
    ensures t.maxsize == m && |t.queue| <= (if m < 0 then 0 else m)
    ensures Distinct(t.handled)
    ensures forall f :: f in t.handled ==> f in t.futures && !t.futures[f].CancelWon()
    ensures forall f :: f in t.futures && !t.futures[f].Terminal() ==>
              exists p :: HeldAt(t, p, f) && forall q :: HeldAt(t, q, f) ==> q == p
  {
    InitInv(m);
    RunInv(Init(m), acts, t);
    MaxsizeFixed(Init(m), acts, t);
    forall f | f in t.futures && !t.futures[f].Terminal()
      ensures exists p :: HeldAt(t, p, f) && forall q :: HeldAt(t, q, f) ==> q == p
    {
      assert Held(t, f);
      var p :| HeldAt(t, p, f);
      assert forall q :: HeldAt(t, q, f) ==> q == p;
    }
  }

  /** The same verdict: the same result, or cancelled in both. */
  predicate SameVerdict(a: Future, b: Future) {
    a == b || (a.CancelWon() && b.CancelWon())
  }

  lemma KeysFrame(s: State, a: Action)
    requires Enabled(s, a) && Legal(s, a)
    ensures Apply(s, a).maxsize == s.maxsize
    ensures Apply(s, a).futures.Keys == s.futures.Keys + (if a.Submit? then {a.f} else {})
  {}

  lemma VerdictsFrame(s: State, a: Action)
    requires Enabled(s, a) && Legal(s, a)
    ensures var t := Apply(s, a);
      forall f :: f in s.futures && s.futures[f].Terminal() ==>
        f in t.futures && t.futures[f].Terminal() && SameVerdict(s.futures[f], t.futures[f])
  {}

  lemma AcceptanceFrame(s: State, a: Action)
    requires Enabled(s, a) && Legal(s, a)
    ensures forall f :: f in s.futures ==> (f in Apply(s, a).accepted <==> f in s.accepted)
  {}

  /** One action creates at most the future it submits, and keeps every verdict and
      every acceptance. */
  lemma FuturesFrame(s: State, a: Action)
    requires Enabled(s, a) && Legal(s, a)
    ensures var t := Apply(s, a);
      && t.maxsize == s.maxsize
      && t.futures.Keys == s.futures.Keys + (if a.Submit? then {a.f} else {})
      && (forall f :: f in s.futures && s.futures[f].Terminal() ==>
            f in t.futures && t.futures[f].Terminal() && SameVerdict(s.futures[f], t.futures[f]))
      && (forall f :: f in s.futures ==> (f in t.accepted <==> f in s.accepted))
  {
    KeysFrame(s, a);
    VerdictsFrame(s, a);
    AcceptanceFrame(s, a);
  }

  /** A future becomes terminal at most once: from then on its verdict is fixed. */
  lemma {:induction false} VerdictIsFinal(s: State, acts: seq<Action>, t: State, f: Id)
    requires Inv(s) && Exec(s, acts) == Some(t)
    requires f in s.futures && s.futures[f].Terminal()
    ensures f in t.futures && t.futures[f].Terminal() && SameVerdict(s.futures[f], t.futures[f])
  {
    if acts != [] {
      var a, u := acts[|acts| - 1], Exec(s, acts[..|acts| - 1]).value;
      VerdictIsFinal(s, acts[..|acts| - 1], u, f);
      RunInv(s, acts[..|acts| - 1], u);
      InvLegal(u, a);
      FuturesFrame(u, a);
    }
  }

  /** `cancel()` returning True promises that the command never runs. */
  lemma CancelledNeverRuns(s: State, acts: seq<Action>, t: State, f: Id)
    requires Inv(s) && Exec(s, acts) == Some(t)
    requires f in s.futures && s.futures[f].CancelWon()
    ensures f !in t.handled
  {
    VerdictIsFinal(s, acts, t, f);
    RunInv(s, acts, t);
  }

  /** Once the queue is empty and every call has returned, every future is resolved. */
  lemma QuiescentMeansResolved(s: State)
    requires Inv(s) && s.queue == [] && s.refusing == {}
    requires forall d :: 0 <= d < |s.drains| ==> s.drains[d].returned
    ensures forall f :: f in s.futures ==> s.futures[f].Terminal()
  {
    forall p, f ensures !HeldAt(s, p, f) {
      if p.InBatch? && p.d < |s.drains| { assert DrainOk(s, s.drains[p.d]); }
    }
    assert forall f :: !Held(s, f);
  }

  /** Action `i` of the run submitted `f`, and `room` says whether the queue had room
      inside its locked section. */
  predicate SubmittedAt(m: int, acts: seq<Action>, i: nat, f: Id, room: bool) {
    && i < |acts| && acts[i].Submit? && acts[i].f == f && Exec(Init(m), acts[..i]).Some?
    && room == (|Exec(Init(m), acts[..i]).value.queue| < m)
  }

  lemma SubmittedLonger(m: int, acts: seq<Action>, n: nat, i: nat, f: Id, room: bool)
    requires n <= |acts| && SubmittedAt(m, acts[..n], i, f, room)
    ensures SubmittedAt(m, acts, i, f, room)
  {
    assert acts[..n][..i] == acts[..i];
  }

  /** The step that submits. */
  lemma SubmitsLast(s: State, a: Action, f: Id)
    requires Inv(s) && Enabled(s, a) && f !in s.futures && f in Apply(s, a).futures
    ensures a.Submit? && a.f == f && (f in Apply(s, a).accepted <==> |s.queue| < s.maxsize)
  {
    InvLegal(s, a);
    KeysFrame(s, a);
  }

  /** A submit is accepted exactly when the queue had room inside its locked section. */
  lemma {:induction false} AcceptedIffRoom(m: int, acts: seq<Action>, t: State, f: Id)
    requires Exec(Init(m), acts) == Some(t) && f in t.futures
    ensures exists i :: SubmittedAt(m, acts, i, f, f in t.accepted)
  {
    var n := |acts| - 1;
    var a, u := acts[n], Exec(Init(m), acts[..n]).value;
    InitInv(m);
    RunInv(Init(m), acts[..n], u);
    InvLegal(u, a);
    if f in u.futures {
      AcceptanceFrame(u, a);
      AcceptedIffRoom(m, acts[..n], u, f);
      var i :| SubmittedAt(m, acts[..n], i, f, f in u.accepted);
      SubmittedLonger(m, acts, n, i, f, f in t.accepted);
    } else {
      MaxsizeFixed(Init(m), acts[..n], u);
      SubmitsLast(u, a, f);
      assert SubmittedAt(m, acts, n, f, f in t.accepted);
    }
  }

  /** And whoever was refused holds "bus full" under its own id, or is about to. */
  lemma RefusedHoldBusFull(m: int, acts: seq<Action>, t: State, f: Id)
    requires Exec(Init(m), acts) == Some(t) && f in t.futures && f !in t.accepted
    ensures f in t.commands
    ensures f in t.refusing || t.futures[f] == Finished(CommandResult(t.commands[f].corrId, false, "bus full"))
  {
    InitInv(m);
    RunInv(Init(m), acts, t);
  }

  lemma {:induction false} MaxsizeFixed(s: State, acts: seq<Action>, t: State)
    requires Exec(s, acts) == Some(t)
    ensures t.maxsize == s.maxsize
  {
    if acts != [] {
      MaxsizeFixed(s, acts[..|acts| - 1], Exec(s, acts[..|acts| - 1]).value);
    }
  }

  // ------------------------------------------------------------ one drain call

  function B2N(b: bool): nat { if b then 1 else 0 }

  function PhaseRank(p: Phase): nat { match p case Ready => 0 case InHandler => 1 case HasResult(_) => 2 }

  /** Steps the drain can still take by itself. */
  function Work(d: Drain): int {
    3 * (|d.batch| - d.next) - PhaseRank(d.phase) + B2N(!d.returned)
  }

  function OwnSteps(acts: seq<Action>, d: nat): nat {
    if acts == [] then 0
    else OwnSteps(acts[..|acts| - 1], d)
         + B2N(DrainStep(acts[|acts| - 1]) && acts[|acts| - 1].d == d)
  }

  lemma WorkMoves(a: Action, d: Drain, e: Drain)
    requires DrainMoves(a, d, e)
    requires a.Notify? ==> d.phase == Ready
    requires a.HandlerEnds? ==> d.phase == InHandler
    requires a.Resolve? ==> d.phase.HasResult?
    requires a.Return? ==> !d.returned
    ensures e.batch == d.batch && Work(e) + 1 <= Work(d)
  {}

  /** Whose steps they are, counted as a set. */
  lemma {:induction false} OwnStepsCount(acts: seq<Action>, d: nat)
    ensures OwnSteps(acts, d) == |OwnIndices(acts, d)|
  {
    if acts != [] {
      var n := |acts| - 1;
      OwnStepsCount(acts[..n], d);
      assert OwnIndices(acts, d) == OwnIndices(acts[..n], d) + (if IsStepOf(acts[n], d) then {n} else {});
    }
  }

  predicate IsStepOf(a: Action, d: nat) {
    a == Notify(d) || (a.HandlerEnds? && a.d == d) || a == Resolve(d) || a == Return(d)
  }

  function OwnIndices(acts: seq<Action>, d: nat): set<nat> {
    set i: nat | i < |acts| && IsStepOf(acts[i], d)
  }

  lemma DrainsFrame(s: State, a: Action, d: nat)
    requires Enabled(s, a) && Legal(s, a) && d < |s.drains|
    ensures var t := Apply(s, a);
      && d < |t.drains| && t.drains[d].batch == s.drains[d].batch
      && Work(t.drains[d]) + B2N(DrainStep(a) && a.d == d) <= Work(s.drains[d])
  {
    if DrainStep(a) {
      DrainFrame(s, a);
      WorkMoves(a, s.drains[a.d], Apply(s, a).drains[a.d]);
    }
  }

  /** A drain keeps the batch it took whatever is submitted meanwhile, takes a
      bounded number of steps, and has settled the whole batch when it returns. */
  lemma {:induction false} DrainDecidesItsBatch(s: State, acts: seq<Action>, t: State, d: nat)
    requires Inv(s) && Exec(s, acts) == Some(t) && d < |s.drains|
    ensures d < |t.drains| && t.drains[d].batch == s.drains[d].batch
    ensures OwnSteps(acts, d) + Work(t.drains[d]) <= Work(s.drains[d])
    ensures t.drains[d].returned ==>
              forall f :: f in s.drains[d].batch ==> f in t.futures && t.futures[f].Settled()
  {
    if acts != [] {
      var a, u := acts[|acts| - 1], Exec(s, acts[..|acts| - 1]).value;
      DrainDecidesItsBatch(s, acts[..|acts| - 1], u, d);
      RunInv(s, acts[..|acts| - 1], u);
      InvLegal(u, a);
      DrainsFrame(u, a, d);
    }
    RunInv(s, acts, t);
    assert DrainOk(t, t.drains[d]);
  }

  /** From the locked section that snapshots the queue: at most 3n + 1 steps of its
      own, and exactly the n snapshotted commands decided on return. */
  lemma DrainTerminates(s: State, acts: seq<Action>, t: State)
    requires Inv(s) && Exec(s, [Snapshot] + acts) == Some(t)
    ensures |OwnIndices(acts, |s.drains|)| <= 3 * |s.queue| + 1
    ensures |s.drains| < |t.drains| && t.drains[|s.drains|].batch == s.queue
    ensures t.drains[|s.drains|].returned ==>
              forall f :: f in s.queue ==>
                f in t.futures && (t.futures[f].CancelledAndNotified? || t.futures[f].Finished?)
  {
    ExecConcat(s, [Snapshot], acts);
    assert [Snapshot][..0] == [];
    var u := Apply(s, Snapshot);
    assert Exec(s, [Snapshot]) == Some(u);
    StepInv(s, Snapshot);
    DrainDecidesItsBatch(u, acts, t, |s.drains|);
    OwnStepsCount(acts, |s.drains|);
    RunInv(u, acts, t);
    assert DrainOk(t, t.drains[|s.drains|]);
  }

  /** A drain that has not returned can always take its next step. */
  lemma DrainNeverStuck(s: State, d: nat, o: Outcome)
    requires Inv(s) && d < |s.drains| && !s.drains[d].returned
    ensures exists a :: DrainStep(a) && a.d == d && Enabled(s, a)
  {
    var me := s.drains[d];
    assert DrainOk(s, me);
    var a := if me.phase == InHandler then HandlerEnds(d, o)
             else if me.phase.HasResult? then Resolve(d)
             else if me.next < |me.batch| then Notify(d)
             else Return(d);
    assert Enabled(s, a);
  }
}
