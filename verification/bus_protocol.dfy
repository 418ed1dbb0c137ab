/** The command bus as a labelled transition system.

    One action is one locked section, one operation on a future, the end of one
    handler call, or one client `cancel()`. Every call of `submit` and of `drain`
    is a process of its own, so any number of producers, consumers and clients
    (and handlers that call back into the bus) are interleavings of these actions. */
module BusProtocol {
  import opened Basics
  import opened Futures

  type Id = nat  // identity of a Future object

  datatype Command = Command(op: string, corrId: string)

  /** What the handler does with one command: return a result, or raise. */
  datatype Outcome = Returned(result: CommandResult) | Raised(repr: string)

  datatype Phase = Ready | InHandler | HasResult(result: CommandResult)

  /** One call of `drain`: its snapshot, how far the loop has come, and whether
      the call has returned. */
  datatype Drain = Drain(batch: seq<Id>, next: nat, phase: Phase, returned: bool)

  /** `refusing` holds the futures of submits between the full-queue lock section
      and their `set_result`. `accepted` and `handled` record, in order, what was
      ever enqueued and what a handler was ever called on. `fault` records that a
      future operation was applied in a state where it raises. */
  datatype State = State(
    maxsize: int,
    queue: seq<Id>,
    futures: map<Id, Future>,
    commands: map<Id, Command>,
    refusing: set<Id>,
    drains: seq<Drain>,
    accepted: seq<Id>,
    handled: seq<Id>,
    fault: bool)

  datatype Action =
    | Submit(f: Id, cmd: Command)
    | Refuse(f: Id)
    | Snapshot
    | Notify(d: nat)
    | HandlerEnds(d: nat, outcome: Outcome)
    | Resolve(d: nat)
    | Return(d: nat)
    | Cancel(f: Id)

  function Init(maxsize: int): State {
    State(maxsize, [], map[], map[], {}, [], [], [], false)
  }

  function Capacity(maxsize: int): nat { if maxsize < 0 then 0 else maxsize }

  function BusFull(cmd: Command): CommandResult {
    CommandResult(cmd.corrId, false, "bus full")
  }

  function ResultOf(cmd: Command, o: Outcome): CommandResult {
    match o
    case Returned(r) => r
    case Raised(e) => CommandResult(cmd.corrId, false, e)
  }

  /** A future on the full-queue path is still local to its `submit` call, so no
      client can cancel it before `set_result`. */
  predicate Enabled(s: State, a: Action) {
    match a
    case Submit(f, _) => f !in s.futures
    case Refuse(f) => f in s.refusing && f in s.futures && f in s.commands
    case Snapshot => true
    case Notify(d) =>
      d < |s.drains| && s.drains[d].phase == Ready && s.drains[d].next < |s.drains[d].batch|
      && s.drains[d].batch[s.drains[d].next] in s.futures
    case HandlerEnds(d, _) =>
      d < |s.drains| && s.drains[d].phase == InHandler && s.drains[d].next < |s.drains[d].batch|
      && s.drains[d].batch[s.drains[d].next] in s.commands
    case Resolve(d) =>
      d < |s.drains| && s.drains[d].phase.HasResult? && s.drains[d].next < |s.drains[d].batch|
      && s.drains[d].batch[s.drains[d].next] in s.futures
    case Return(d) =>
      d < |s.drains| && s.drains[d].phase == Ready && s.drains[d].next == |s.drains[d].batch|
      && !s.drains[d].returned
    case Cancel(f) => f in s.futures && f !in s.refusing
  }

  function Apply(s: State, a: Action): State
    requires Enabled(s, a)
  {
    match a
    case Submit(f, cmd) =>
      var s1 := s.(futures := s.futures[f := Pending], commands := s.commands[f := cmd]);
      if |s.queue| < s.maxsize
      then s1.(queue := s.queue + [f], accepted := s.accepted + [f])
      else s1.(refusing := s.refusing + {f})
    case Refuse(f) =>
      (match s.futures[f].SetResult(BusFull(s.commands[f]))
       case None => s.(fault := true)
       case Some(st) => s.(futures := s.futures[f := st], refusing := s.refusing - {f}))
    case Snapshot =>
      s.(queue := [], drains := s.drains + [Drain(s.queue, 0, Ready, false)])
    case Notify(d) =>
      var me := s.drains[d];
      var f := me.batch[me.next];
      (match s.futures[f].SetRunningOrNotifyCancel()
       case None => s.(fault := true)
       case Some(st) =>
         if st == Running
         then s.(futures := s.futures[f := st], handled := s.handled + [f],
                 drains := s.drains[d := me.(phase := InHandler)])
         else s.(futures := s.futures[f := st], drains := s.drains[d := me.(next := me.next + 1)]))
    case HandlerEnds(d, o) =>
      var me := s.drains[d];
      s.(drains := s.drains[d := me.(phase := HasResult(ResultOf(s.commands[me.batch[me.next]], o)))])
    case Resolve(d) =>
      var me := s.drains[d];
      var f := me.batch[me.next];
      (match s.futures[f].SetResult(me.phase.result)
       case None => s.(fault := true)
       case Some(st) =>
         s.(futures := s.futures[f := st],
            drains := s.drains[d := me.(next := me.next + 1, phase := Ready)]))
    case Return(d) => s.(drains := s.drains[d := s.drains[d].(returned := true)])
    case Cancel(f) => s.(futures := s.futures[f := s.futures[f].Cancel()])
  }

  /** The state after the actions, or None when one of them was not enabled. */
  function Exec(s: State, acts: seq<Action>): Option<State> {
    if acts == [] then Some(s)
    else
      match Exec(s, acts[..|acts| - 1])
      case None => None
      case Some(t) =>
        if Enabled(t, acts[|acts| - 1]) then Some(Apply(t, acts[|acts| - 1])) else None
  }

  lemma {:induction false} ExecConcat(s: State, a: seq<Action>, b: seq<Action>)
    ensures Exec(s, a + b) == match Exec(s, a) { case None => None case Some(t) => Exec(t, b) }
  {
    if b == [] {
      assert a + b == a;
    } else {
      assert (a + b)[..|a + b| - 1] == a + b[..|b| - 1];
      ExecConcat(s, a, b[..|b| - 1]);
    }
  }

  // ---------------------------------------------------------------- invariant

  /** The places that may still owe a future an operation. */
  datatype Place = InQueue(i: nat) | InBatch(d: nat, i: nat) | OnFullPath

  predicate HeldAt(s: State, p: Place, f: Id) {
    match p
    case InQueue(i) => i < |s.queue| && s.queue[i] == f
    case InBatch(d, i) =>
      d < |s.drains| && s.drains[d].next <= i < |s.drains[d].batch| && s.drains[d].batch[i] == f
    case OnFullPath => f in s.refusing
  }

  /** The states a held future can be in, place by place. */
  predicate FitsPlace(s: State, p: Place, st: Future) {
    match p
    case InQueue(_) => st == Pending || st == Future.Cancelled
    case InBatch(d, i) =>
      if d < |s.drains| && i == s.drains[d].next && s.drains[d].phase != Ready
      then st == Running
      else st == Pending || st == Future.Cancelled
    case OnFullPath => st == Pending
  }

  predicate DrainsOk(s: State) {
    forall d :: 0 <= d < |s.drains| ==> DrainOk(s, s.drains[d])
  }

  predicate DrainOk(s: State, d: Drain) {
    && d.next <= |d.batch| <= Capacity(s.maxsize)
    && (d.phase != Ready ==> d.next < |d.batch|)
    && (d.returned ==> d.next == |d.batch|)
    && (forall i :: 0 <= i < |d.batch| ==> d.batch[i] in s.futures)
    && (forall i :: 0 <= i < d.next ==> s.futures[d.batch[i]].Settled())
  }

  ghost predicate HeldFits(s: State) {
    forall p, f :: HeldAt(s, p, f) ==> f in s.futures && FitsPlace(s, p, s.futures[f])
  }

  ghost predicate HeldOnce(s: State) {
    forall p, q, f :: HeldAt(s, p, f) && HeldAt(s, q, f) ==> p == q
  }

  ghost predicate Held(s: State, f: Id) { exists p :: HeldAt(s, p, f) }

  /** Whoever has not been told an outcome is held somewhere. */
  ghost predicate UnsettledHeld(s: State) {
    forall f :: f in s.futures && !s.futures[f].Settled() ==> Held(s, f)
  }

  /** What was ever enqueued, and what became of the submits that were refused. */
  ghost predicate AcceptedOk(s: State) {
    && s.commands.Keys == s.futures.Keys
    && s.refusing <= s.futures.Keys
    && Distinct(s.accepted)
    && (forall f :: f in s.accepted ==> f in s.futures && f !in s.refusing)
    && (forall f :: f in s.queue ==> f in s.accepted)
    && (forall d, i :: 0 <= d < |s.drains| && 0 <= i < |s.drains[d].batch| ==> s.drains[d].batch[i] in s.accepted)
    && (forall f :: f in s.futures && f !in s.accepted ==>
          if f in s.refusing then s.futures[f] == Pending
          else s.futures[f] == Finished(BusFull(s.commands[f])))
  }

  /** A handler was called exactly on the accepted futures that are or were running. */
  ghost predicate HandledOk(s: State) {
    && Distinct(s.handled)
    && (forall f :: f in s.handled ==> f in s.accepted)
    && (forall f :: f in s.futures && f in s.accepted ==>
          (f in s.handled <==> s.futures[f] == Running || s.futures[f].Finished?))
  }

  predicate Distinct(fs: seq<Id>) {
    forall i, j :: 0 <= i < j < |fs| ==> fs[i] != fs[j]
  }

  ghost predicate Inv(s: State) {
    && !s.fault
    && |s.queue| <= Capacity(s.maxsize)
    && DrainsOk(s)
    && HeldFits(s)
    && HeldOnce(s)
    && UnsettledHeld(s)
    && AcceptedOk(s)
    && HandledOk(s)
  }
}
