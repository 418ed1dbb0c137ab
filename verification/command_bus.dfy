/** The command bus as the program writes it: an object whose queue is appended to
    and cleared under a lock, and whose `drain` loops over its batch.

    `Interfere` stands wherever the lock is not held: other threads may take any
    steps there except the steps of the running call itself. `trace` is the run of
    the protocol so far, so everything proved about runs holds of these methods. */
module CommandBusObject {
  import opened Basics
  import opened Futures
  import opened BusProtocol
  import opened BusInvariant
  import opened BusTheorems
  import opened BusOutcomes

  /** The steps of a drain call or of a refused submit belong to that call alone. */
  predicate StepOf(a: Action, drain: Option<nat>, refused: Option<Id>) {
    || (DrainStep(a) && drain == Some(a.d))
    || (a.Refuse? && refused == Some(a.f))
  }

  predicate ByOthers(acts: seq<Action>, drain: Option<nat>, refused: Option<Id>) {
    forall i :: 0 <= i < |acts| ==> !StepOf(acts[i], drain, refused)
  }

  /** So they may submit, cancel, take snapshots, and take every step of every other drain
      and every other refused submit. */
  lemma OthersMayDo(acts: seq<Action>, drain: Option<nat>, refused: Option<Id>)
    ensures ByOthers(acts, drain, refused) <==> forall i :: 0 <= i < |acts| ==>
      match acts[i]
      case Notify(d) => drain != Some(d)
      case HandlerEnds(d, _) => drain != Some(d)
      case Resolve(d) => drain != Some(d)
      case Return(d) => drain != Some(d)
      case Refuse(f) => refused != Some(f)
      case Submit(_, _) => true
      case Cancel(_) => true
      case Snapshot => true
  {}

  /** Commands stay attached to their futures, and verdicts stay as they are. */
  ghost predicate Keeps(s: State, t: State) {
    && (forall f :: f in s.commands ==> f in t.commands && t.commands[f] == s.commands[f])
    && (forall f :: f in s.futures && s.futures[f].Terminal() ==>
          f in t.futures && t.futures[f].Terminal() && SameVerdict(s.futures[f], t.futures[f]))
  }

  ghost predicate Untouched(s: State, t: State, drain: Option<nat>, refused: Option<Id>) {
    && (drain.Some? && drain.value < |s.drains| ==>
          drain.value < |t.drains| && t.drains[drain.value] == s.drains[drain.value])
    && (refused.Some? && refused.value in s.refusing ==> refused.value in t.refusing)
  }

  lemma StepKeeps(s: State, a: Action)
    requires Enabled(s, a) && Legal(s, a) && s.commands.Keys == s.futures.Keys
    ensures Keeps(s, Apply(s, a))
  {
    FuturesFrame(s, a);
    if DrainStep(a) { DrainFrame(s, a); }
  }

  lemma StepUntouched(s: State, a: Action, drain: Option<nat>, refused: Option<Id>)
    requires Enabled(s, a) && Legal(s, a) && !StepOf(a, drain, refused)
    ensures Untouched(s, Apply(s, a), drain, refused)
  {
    if DrainStep(a) { DrainFrame(s, a); }
  }

  lemma KeepsTransitive(s: State, u: State, t: State)
    requires Keeps(s, u) && Keeps(u, t)
    ensures Keeps(s, t)
  {}

  lemma UntouchedTransitive(s: State, u: State, t: State, drain: Option<nat>, refused: Option<Id>)
    requires Untouched(s, u, drain, refused) && Untouched(u, t, drain, refused)
    ensures Untouched(s, t, drain, refused)
  {}

  /** What a call can rely on across any interference. */
  lemma {:induction false} OthersKeep(s: State, acts: seq<Action>, t: State, drain: Option<nat>, refused: Option<Id>)
    requires Inv(s) && Exec(s, acts) == Some(t) && ByOthers(acts, drain, refused)
    ensures Keeps(s, t) && Untouched(s, t, drain, refused)
  {
    if acts != [] {
      var n := |acts| - 1;
      var u := Exec(s, acts[..n]).value;
      OthersKeep(s, acts[..n], u, drain, refused);
      RunInv(s, acts[..n], u);
      InvLegal(u, acts[n]);
      StepKeeps(u, acts[n]);
      StepUntouched(u, acts[n], drain, refused);
      KeepsTransitive(s, u, t);
      UntouchedTransitive(s, u, t, drain, refused);
    }
  }

  /** Cancelled before its turn, or resolved with what the handler made of it. */
  predicate Decided(st: Future, cmd: Command, handler: Command -> Outcome) {
    st.CancelWon() || (st.Finished? && Tells(handler(cmd), cmd, st.result))
  }

  ghost predicate AllDecided(s: State, commands: map<Id, Command>, fs: seq<Id>, handler: Command -> Outcome) {
    forall f :: f in fs ==> f in s.futures && f in commands && Decided(s.futures[f], commands[f], handler)
  }

  lemma DecidedStays(s: State, t: State, commands: map<Id, Command>, fs: seq<Id>, handler: Command -> Outcome)
    requires AllDecided(s, commands, fs, handler) && Keeps(s, t)
    ensures AllDecided(t, commands, fs, handler)
  {}

  lemma DecidedOneMore(s: State, t: State, commands: map<Id, Command>, batch: seq<Id>, i: nat, handler: Command -> Outcome)
    requires i < |batch| && AllDecided(s, commands, batch[..i], handler) && Keeps(s, t)
    requires batch[i] in t.futures && batch[i] in commands && Decided(t.futures[batch[i]], commands[batch[i]], handler)
    ensures AllDecided(t, commands, batch[..i + 1], handler)
  {
    DecidedStays(s, t, commands, batch[..i], handler);
    assert batch[..i + 1] == batch[..i] + [batch[i]];
  }

  /** The handler was called once on each decided command of a drain, except those whose
      cancel succeeded, on which it was never called. */
  ghost predicate CalledOnce(s: State, fs: seq<Id>) {
    && Distinct(s.handled)
    && forall f :: f in fs ==> f in s.futures && (f in s.handled <==> !s.futures[f].CancelWon())
  }

  lemma DecidedCalledOnce(s: State, me: nat, fs: seq<Id>)
    requires Inv(s) && me < |s.drains| && forall f :: f in fs ==> f in s.drains[me].batch
    requires forall f :: f in fs ==> f in s.futures && s.futures[f].Terminal()
    ensures CalledOnce(s, fs)
  {
    assert forall f :: f in s.drains[me].batch ==> f in s.accepted;
  }

  /** Drain `me` is about to work on the future `f`, in the given phase. */
  predicate At(s: State, me: nat, f: Id, phase: Phase) {
    && me < |s.drains| && s.drains[me].phase == phase
    && s.drains[me].next < |s.drains[me].batch| && s.drains[me].batch[s.drains[me].next] == f
  }

  class CommandBus {
    const maxsize: int
    var queue: seq<Id>
    var futures: map<Id, Future>
    var commands: map<Id, Command>
    ghost var sys: State
    ghost var trace: seq<Action>

    ghost predicate Valid()
      reads this
    {
      && sys.maxsize == maxsize && sys.queue == queue
      && sys.futures == futures && sys.commands == commands
      && Exec(Init(maxsize), trace) == Some(sys)
    }

    lemma ValidInv()
      requires Exec(Init(maxsize), trace) == Some(sys)
      ensures Inv(sys)
    {
      InitInv(maxsize);
      RunInv(Init(maxsize), trace, sys);
    }

    lemma CurrentKnown(me: nat, f: Id)
      requires Exec(Init(maxsize), trace) == Some(sys) && me < |sys.drains| && f in sys.drains[me].batch
      ensures f in sys.futures && f in sys.commands
    {
      ValidInv();
      assert DrainOk(sys, sys.drains[me]);
    }

    lemma BatchCalledOnce(me: nat, fs: seq<Id>)
      requires Exec(Init(maxsize), trace) == Some(sys) && me < |sys.drains|
      requires forall f :: f in fs ==> f in sys.drains[me].batch && f in sys.futures && sys.futures[f].Terminal()
      ensures CalledOnce(sys, fs)
    {
      ValidInv();
      DecidedCalledOnce(sys, me, fs);
    }

    constructor (maxsize: int)
      ensures Valid() && this.maxsize == maxsize && queue == [] && futures == map[] && trace == []
    {
      this.maxsize := maxsize;
      queue, futures, commands := [], map[], map[];
      sys, trace := Init(maxsize), [];
    }

    ghost method Record(a: Action)
      requires Exec(Init(maxsize), trace) == Some(sys) && Enabled(sys, a)
      modifies this`sys, this`trace
      ensures trace == old(trace) + [a] && sys == Apply(old(sys), a)
      ensures Exec(Init(maxsize), trace) == Some(sys)
      ensures Legal(old(sys), a) && Keeps(old(sys), sys)
    {
      ValidInv();
      InvLegal(sys, a);
      StepKeeps(sys, a);
      sys, trace := Apply(sys, a), trace + [a];
      assert trace[..|trace| - 1] == old(trace);
    }

    /** Other threads run while this call does not hold the lock. */
    method Interfere(ghost drain: Option<nat>, ghost refused: Option<Id>)
      requires Valid()
      modifies this
      ensures Valid() && old(trace) <= trace
      ensures ByOthers(trace[|old(trace)|..], drain, refused)
      ensures Exec(old(sys), trace[|old(trace)|..]) == Some(sys)
    {
      assert trace[|trace|..] == [];
    }

    method Yield(ghost drain: Option<nat>, ghost refused: Option<Id>)
      requires Valid()
      modifies this
      ensures Valid() && old(trace) <= trace
      ensures Keeps(old(sys), sys) && Untouched(old(sys), sys, drain, refused)
    {
      ValidInv();
      Interfere(drain, refused);
      OthersKeep(old(sys), trace[|old(trace)|..], sys, drain, refused);
    }

    /** The locked section of `submit`. */
    method Enqueue(cmd: Command, f: Id) returns (accepted: bool)
      requires Valid() && f !in futures
      modifies this
      ensures Valid() && trace == old(trace) + [BusProtocol.Submit(f, cmd)] && Keeps(old(sys), sys)
      ensures futures == old(futures)[f := Pending] && commands == old(commands)[f := cmd]
      ensures accepted <==> |old(queue)| < maxsize
      ensures queue == if accepted then old(queue) + [f] else old(queue)
      ensures accepted <==> f in sys.accepted
      ensures !accepted ==> f in sys.refusing
    {
      ValidInv();
      Record(BusProtocol.Submit(f, cmd));
      futures, commands := futures[f := Pending], commands[f := cmd];
      accepted := |queue| < maxsize;
      if accepted { queue := queue + [f]; }
    }

    /** On the accepted path the locked section is all there is, and the contract speaks of
        its end; on the other, other threads run before the refused future is resolved. */
    method Submit(cmd: Command, f: Id)
      requires Valid() && f !in futures
      modifies this
      ensures Valid() && old(trace) + [BusProtocol.Submit(f, cmd)] <= trace
      ensures f in futures && f in commands && commands[f] == cmd
      ensures |old(queue)| < maxsize ==> queue == old(queue) + [f] && futures == old(futures)[f := Pending]
      ensures |old(queue)| >= maxsize ==>
                futures[f] == Finished(CommandResult(cmd.corrId, false, "bus full")) && f !in queue
    {
      var accepted := Enqueue(cmd, f);
      if !accepted {
        Yield(None, Some(f));
        Nack(cmd, f);
      }
    }

    /** The `set_result` of a refused submit. */
    method Nack(cmd: Command, f: Id)
      requires Valid() && f in sys.refusing && f in commands && commands[f] == cmd
      modifies this
      ensures Valid() && trace == old(trace) + [Refuse(f)] && commands == old(commands)
      ensures futures == old(futures)[f := Finished(CommandResult(cmd.corrId, false, "bus full"))]
      ensures f !in queue
    {
      ValidInv();
      Record(Refuse(f));
      var done := futures[f].SetResult(CommandResult(cmd.corrId, false, "bus full"));
      futures := futures[f := done.value];
    }

    /** A client cancels a future it was handed. */
    method CancelFuture(f: Id) returns (ok: bool)
      requires Valid() && f in futures && f !in sys.refusing
      modifies this
      ensures Valid() && trace == old(trace) + [Action.Cancel(f)]
      ensures queue == old(queue) && futures == old(futures)[f := old(futures)[f].Cancel()]
      ensures ok <==> !(old(futures)[f].Running? || old(futures)[f].Finished?)
    {
      Record(Action.Cancel(f));
      futures := futures[f := futures[f].Cancel()];
      ok := futures[f].CancelWon();
    }

    /** The locked section of `drain`, and what happens before its loop starts. */
    method Take(ghost me: nat) returns (batch: seq<Id>)
      requires Valid() && me == |sys.drains|
      modifies this
      ensures Valid() && old(trace) + [Snapshot] <= trace && Keeps(old(sys), sys)
      ensures batch == old(queue) && (forall k :: 0 <= k < |batch| ==> batch[k] in old(commands))
      ensures me < |sys.drains| && sys.drains[me] == BusProtocol.Drain(batch, 0, Ready, false)
    {
      ValidInv();
      batch := queue;
      Record(Snapshot);
      queue := [];
      Yield(Some(me), None);
    }

    /** `set_running_or_notify_cancel` on the current command of drain `me`. */
    method TellNow(ghost me: nat, f: Id) returns (runs: bool)
      requires Valid() && At(sys, me, f, Ready)
      modifies this
      ensures Valid() && trace == old(trace) + [Notify(me)] && Keeps(old(sys), sys)
      ensures me < |sys.drains| && sys.drains[me] ==
                if runs then old(sys).drains[me].(phase := InHandler)
                else old(sys).drains[me].(next := old(sys).drains[me].next + 1)
      ensures !runs ==> f in futures && futures[f].CancelWon()
    {
      CurrentKnown(me, f);
      var told := futures[f].SetRunningOrNotifyCancel();
      Record(Notify(me));
      futures := futures[f := told.value];
      runs := told.value == Running;
    }

    /** And other threads, which cannot cancel a command that is running. */
    method Tell(ghost me: nat, f: Id) returns (runs: bool)
      requires Valid() && At(sys, me, f, Ready)
      modifies this
      ensures Valid() && old(trace) <= trace && Keeps(old(sys), sys)
      ensures me < |sys.drains| && sys.drains[me] ==
                if runs then old(sys).drains[me].(phase := InHandler)
                else old(sys).drains[me].(next := old(sys).drains[me].next + 1)
      ensures f in futures && if runs then futures[f] == Running && f in sys.handled else futures[f].CancelWon()
    {
      runs := TellNow(me, f);
      ghost var s := sys;
      Yield(Some(me), None);
      KeepsTransitive(old(sys), s, sys);
      if runs { RunningHeld(me, f); }
    }

    lemma RunningHeld(me: nat, f: Id)
      requires Exec(Init(maxsize), trace) == Some(sys) && At(sys, me, f, InHandler)
      ensures f in sys.futures && sys.futures[f] == Running && f in sys.handled
    {
      ValidInv();
      assert HeldAt(sys, InBatch(me, sys.drains[me].next), f);
    }

    /** The handler call on the current command of drain `me`. */
    method Handle(ghost me: nat, f: Id, handler: Command -> Outcome) returns (result: CommandResult)
      requires Valid() && At(sys, me, f, InHandler) && f in commands
      modifies this
      ensures Valid() && old(trace) <= trace && Keeps(old(sys), sys)
      ensures Tells(handler(old(commands)[f]), old(commands)[f], result)
      ensures me < |sys.drains| && sys.drains[me] == old(sys).drains[me].(phase := HasResult(result))
    {
      var cmd := commands[f];
      var outcome := handler(cmd);
      Record(HandlerEnds(me, outcome));
      match outcome {
        case Returned(r) => result := r;
        case Raised(e) => result := CommandResult(cmd.corrId, false, e);
      }
      Yield(Some(me), None);
    }

    /** `set_result` on the current command of drain `me`. */
    method FinishNow(ghost me: nat, f: Id, result: CommandResult)
      requires Valid() && At(sys, me, f, HasResult(result))
      modifies this
      ensures Valid() && trace == old(trace) + [Resolve(me)] && Keeps(old(sys), sys)
      ensures me < |sys.drains| && sys.drains[me] ==
                old(sys).drains[me].(phase := Ready, next := old(sys).drains[me].next + 1)
      ensures f in futures && futures[f] == Finished(result)
    {
      CurrentKnown(me, f);
      Record(Resolve(me));
      var done := futures[f].SetResult(result);
      futures := futures[f := done.value];
    }

    method Finish(ghost me: nat, f: Id, result: CommandResult)
      requires Valid() && At(sys, me, f, HasResult(result))
      modifies this
      ensures Valid() && old(trace) <= trace && Keeps(old(sys), sys)
      ensures me < |sys.drains| && sys.drains[me] ==
                old(sys).drains[me].(phase := Ready, next := old(sys).drains[me].next + 1)
      ensures f in futures && futures[f] == Finished(result)
    {
      FinishNow(me, f, result);
      ghost var s := sys;
      Yield(Some(me), None);
      KeepsTransitive(old(sys), s, sys);
    }

    /** One turn of the loop: skip a cancelled command, or run the handler and resolve. */
    method RunOne(ghost me: nat, f: Id, handler: Command -> Outcome)
      requires Valid() && At(sys, me, f, Ready) && f in commands
      modifies this
      ensures Valid() && old(trace) <= trace && Keeps(old(sys), sys)
      ensures me < |sys.drains| && sys.drains[me] == old(sys).drains[me].(next := old(sys).drains[me].next + 1)
      ensures f in futures && Decided(futures[f], old(commands)[f], handler) && CalledOnce(sys, [f])
    {
      var runs := Tell(me, f);
      if runs {
        var result := Handle(me, f, handler);
        Finish(me, f, result);
      }
      BatchCalledOnce(me, [f]);
    }

    /** The loop of `drain` over its batch. */
    method Serve(ghost me: nat, batch: seq<Id>, handler: Command -> Outcome)
      requires Valid() && me < |sys.drains| && sys.drains[me] == BusProtocol.Drain(batch, 0, Ready, false)
      requires forall k :: 0 <= k < |batch| ==> batch[k] in commands
      modifies this
      ensures Valid() && old(trace) <= trace && Keeps(old(sys), sys)
      ensures me < |sys.drains| && sys.drains[me] == BusProtocol.Drain(batch, |batch|, Ready, false)
      ensures AllDecided(sys, old(commands), batch, handler)
    {
      var i := 0;
      while i < |batch|
        invariant i <= |batch|
        invariant Valid() && old(trace) <= trace && Keeps(old(sys), sys)
        invariant me < |sys.drains| && sys.drains[me] == BusProtocol.Drain(batch, i, Ready, false)
        invariant AllDecided(sys, old(commands), batch[..i], handler)
      {
        ghost var s := sys;
        RunOne(me, batch[i], handler);
        KeepsTransitive(old(sys), s, sys);
        DecidedOneMore(s, sys, old(commands), batch, i, handler);
        i := i + 1;
      }
      assert batch[..|batch|] == batch;
    }

    method Drain(handler: Command -> Outcome) returns (n: nat)
      requires Valid()
      modifies this
      ensures Valid() && old(trace) + [Snapshot] <= trace
      ensures n == |old(queue)|
      ensures AllDecided(sys, old(commands), old(queue), handler) && CalledOnce(sys, old(queue))
    {
      ghost var me := |sys.drains|;
      var batch := Take(me);
      Serve(me, batch, handler);
      Record(Return(me));
      BatchCalledOnce(me, batch);
      n := |batch|;
    }
  }
}
