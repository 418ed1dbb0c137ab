/** What a future is resolved with: the outcome of its own command's handler call. */
module BusOutcomes {
  import opened Basics
  import opened Futures
  import opened BusProtocol
  import opened BusInvariant
  import opened BusTheorems

  /** What the handler made of a command: its own result, or, if it raised, a failure under
      the command's id with the exception's text. */
  predicate Tells(o: Outcome, cmd: Command, r: CommandResult) {
    match o
    case Returned(x) => r == x
    case Raised(e) => r.corrId == cmd.corrId && r.ok == false && r.detail == e
  }

  /** Action `i` of the run ended the handler call on `f`, with an outcome that tells `r`. */
  predicate EndedAt(m: int, acts: seq<Action>, i: nat, f: Id, r: CommandResult) {
    && i < |acts| && acts[i].HandlerEnds? && Exec(Init(m), acts[..i]).Some?
    && EndsOn(Exec(Init(m), acts[..i]).value, acts[i], f, r)
  }

  predicate EndsOn(s: State, a: Action, f: Id, r: CommandResult)
    requires a.HandlerEnds?
  {
    && a.d < |s.drains| && s.drains[a.d].next < |s.drains[a.d].batch|
    && s.drains[a.d].batch[s.drains[a.d].next] == f
    && f in s.commands && Tells(a.outcome, s.commands[f], r)
  }

  ghost predicate Explained(m: int, acts: seq<Action>, f: Id, r: CommandResult) {
    exists i: nat :: EndedAt(m, acts, i, f, r)
  }

  lemma ExplainedLonger(m: int, acts: seq<Action>, n: nat, f: Id, r: CommandResult)
    requires n <= |acts| && Explained(m, acts[..n], f, r)
    ensures Explained(m, acts, f, r)
  {
    var i: nat :| EndedAt(m, acts[..n], i, f, r);
    assert acts[..n][..i] == acts[..i];
    assert EndedAt(m, acts, i, f, r);
  }

  /** Drain `d` holds the result `r` for `f`. */
  predicate Holds(s: State, d: nat, f: Id, r: CommandResult) {
    && d < |s.drains| && s.drains[d].phase == HasResult(r)
    && s.drains[d].next < |s.drains[d].batch| && s.drains[d].batch[s.drains[d].next] == f
  }

  /** A result is held because the handler call just ended with it, or it was held before. */
  lemma HeldResult(s: State, a: Action, d: nat, f: Id, r: CommandResult)
    requires Enabled(s, a) && Legal(s, a) && Holds(Apply(s, a), d, f, r)
    ensures Holds(s, d, f, r) || (a.HandlerEnds? && a.d == d && EndsOn(s, a, f, r))
  {
    if DrainStep(a) { DrainsOfDrainStep(s, a); } else { DrainsOfOthers(s, a); }
  }

  /** A future is finished because a drain that held its result just resolved it, or its
      submit was refused, or it was finished before. */
  lemma FinishedResult(s: State, a: Action, f: Id, r: CommandResult)
    requires Enabled(s, a) && Legal(s, a)
    requires f in Apply(s, a).futures && Apply(s, a).futures[f] == Finished(r)
    ensures (f in s.futures && s.futures[f] == Finished(r)) || (a.Resolve? && Holds(s, a.d, f, r)) || a == Refuse(f)
  {}

  ghost predicate AllExplained(m: int, acts: seq<Action>, t: State) {
    && (forall d, f, r :: Holds(t, d, f, r) ==> Explained(m, acts, f, r))
    && (forall f, r :: f in t.accepted && f in t.futures && t.futures[f] == Finished(r) ==> Explained(m, acts, f, r))
  }

  /** Every accepted command that is resolved is resolved with the outcome of a handler call
      on itself, and so is every result a drain is about to deliver. */
  lemma {:induction false} ResultsAreOutcomes(m: int, acts: seq<Action>, t: State)
    requires Exec(Init(m), acts) == Some(t)
    ensures AllExplained(m, acts, t)
  {
    if acts != [] {
      var n := |acts| - 1;
      var a, u := acts[n], Exec(Init(m), acts[..n]).value;
      ResultsAreOutcomes(m, acts[..n], u);
      InitInv(m);
      RunInv(Init(m), acts[..n], u);
      InvLegal(u, a);
      forall d, f, r | Holds(t, d, f, r) ensures Explained(m, acts, f, r) {
        HeldResult(u, a, d, f, r);
        if Holds(u, d, f, r) { ExplainedLonger(m, acts, n, f, r); } else { assert EndedAt(m, acts, n, f, r); }
      }
      forall f, r | f in t.accepted && f in t.futures && t.futures[f] == Finished(r)
        ensures Explained(m, acts, f, r)
      {
        FinishedResult(u, a, f, r);
        StillAccepted(u, a, f);
        ExplainedLonger(m, acts, n, f, r);
      }
    }
  }

  lemma StillAccepted(s: State, a: Action, f: Id)
    requires Inv(s) && Enabled(s, a) && Legal(s, a) && f in Apply(s, a).accepted
    ensures a != Refuse(f) && (f in s.futures ==> f in s.accepted)
  {
    AcceptanceFrame(s, a);
  }

  // ----------------------------------------------------------- and it stays so

  /** The outcome of `f` is being delivered, or has been. */
  ghost predicate Told(s: State, f: Id, r: CommandResult) {
    f in s.futures && (s.futures[f] == Finished(r) || (s.futures[f] == Running && exists d :: Holds(s, d, f, r)))
  }

  lemma EndTells(s: State, a: Action, f: Id, r: CommandResult)
    requires Inv(s) && a.HandlerEnds? && Enabled(s, a) && EndsOn(s, a, f, r)
    ensures Told(Apply(s, a), f, r)
  {
    assert HeldAt(s, InBatch(a.d, s.drains[a.d].next), f);
    assert Holds(Apply(s, a), a.d, f, r);
  }

  lemma StillHolds(s: State, a: Action, d: nat, f: Id, r: CommandResult)
    requires Enabled(s, a) && Legal(s, a) && Holds(s, d, f, r)
    requires !(a.Resolve? && a.d == d)
    ensures Holds(Apply(s, a), d, f, r)
  {
    if DrainStep(a) { DrainsOfDrainStep(s, a); } else { DrainsOfOthers(s, a); }
  }

  /** A running future changes only when its drain resolves it. */
  lemma RunningMoves(s: State, a: Action, d: nat, f: Id, r: CommandResult)
    requires Inv(s) && Enabled(s, a) && Legal(s, a) && Holds(s, d, f, r) && f in s.futures && s.futures[f] == Running
    ensures f in Apply(s, a).futures
    ensures Apply(s, a).futures[f] == if a.Resolve? && a.d == d then Finished(r) else Running
  {
    assert HeldAt(s, InBatch(d, s.drains[d].next), f);
    if a.Resolve? || a.Notify? { assert HeldAt(s, InBatch(a.d, s.drains[a.d].next), s.drains[a.d].batch[s.drains[a.d].next]); }
  }

  lemma StepTold(s: State, a: Action, f: Id, r: CommandResult)
    requires Inv(s) && Enabled(s, a) && Told(s, f, r)
    ensures Told(Apply(s, a), f, r)
  {
    InvLegal(s, a);
    if s.futures[f] == Finished(r) {
      VerdictsFrame(s, a);
    } else {
      var d :| Holds(s, d, f, r);
      RunningMoves(s, a, d, f, r);
      if !(a.Resolve? && a.d == d) { StillHolds(s, a, d, f, r); }
    }
  }

  lemma {:induction false} RunTold(s: State, acts: seq<Action>, t: State, f: Id, r: CommandResult)
    requires Inv(s) && Exec(s, acts) == Some(t) && Told(s, f, r)
    ensures Told(t, f, r)
  {
    if acts != [] {
      var n := |acts| - 1;
      var u := Exec(s, acts[..n]).value;
      RunInv(s, acts[..n], u);
      RunTold(s, acts[..n], u, f, r);
      StepTold(u, acts[n], f, r);
    }
  }

  lemma SplitParts(s: State, c: seq<Action>, a: Action, rest: seq<Action>)
    requires Exec(s, (c + [a]) + rest).Some?
    ensures Exec(s, c).Some? && Enabled(Exec(s, c).value, a)
    ensures Exec(Apply(Exec(s, c).value, a), rest) == Exec(s, (c + [a]) + rest)
  {
    ExecConcat(s, c + [a], rest);
    LastAction(s, c + [a], c, a);
  }

  lemma LastAction(s: State, b: seq<Action>, c: seq<Action>, a: Action)
    requires b == c + [a] && Exec(s, b).Some?
    ensures Exec(s, c).Some? && Enabled(Exec(s, c).value, a)
    ensures Exec(s, b) == Some(Apply(Exec(s, c).value, a))
  {
    assert b[..|b| - 1] == c;
  }

  /** Once a handler call on `f` has ended, `f` is running until it is resolved, and it is
      resolved with that outcome and no other: a result as the handler returned it, an
      exception as `ok=False` under the command's own id with the exception's text. */
  lemma OutcomeIsVerdict(m: int, acts: seq<Action>, i: nat, f: Id, r: CommandResult, t: State)
    requires Exec(Init(m), acts) == Some(t) && EndedAt(m, acts, i, f, r)
    ensures f in t.futures && (t.futures[f] == Running || t.futures[f] == Finished(r))
  {
    var c, a, rest := acts[..i], acts[i], acts[i + 1..];
    assert acts == (c + [a]) + rest;
    OutcomeFrom(m, c, a, rest, f, r, t);
  }

  lemma OutcomeFrom(m: int, c: seq<Action>, a: Action, rest: seq<Action>, f: Id, r: CommandResult, t: State)
    requires Exec(Init(m), (c + [a]) + rest) == Some(t) && Exec(Init(m), c).Some?
    requires a.HandlerEnds? && EndsOn(Exec(Init(m), c).value, a, f, r)
    ensures Told(t, f, r)
  {
    SplitParts(Init(m), c, a, rest);
    var u := Exec(Init(m), c).value;
    InitInv(m);
    RunInv(Init(m), c, u);
    EndTells(u, a, f, r);
    StepInv(u, a);
    RunTold(Apply(u, a), rest, t, f, r);
  }
}
