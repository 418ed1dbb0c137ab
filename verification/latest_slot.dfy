/** The latest-value slot as the program writes it. As in the command bus, `Interfere`
    stands wherever the lock is not held, and `trace` is the run of the protocol. */
module LatestSlotObject {
  import opened Basics
  import opened SlotProtocol
  import opened SlotTheorems

  /** The steps of a put or of a waiter belong to that call alone. */
  predicate StepOf<T>(a: Action<T>, putter: Option<nat>, waiter: Option<nat>) {
    match a
    case PutLocked(p, _, _) => putter == Some(p)
    case SetEvent(p) => putter == Some(p)
    case Capture(w) => waiter == Some(w)
    case Wake(w) => waiter == Some(w)
    case Timeout(w) => waiter == Some(w)
    case ReadValue(w) => waiter == Some(w)
  }

  predicate ByOthers<T>(acts: seq<Action<T>>, putter: Option<nat>, waiter: Option<nat>) {
    forall i :: 0 <= i < |acts| ==> !StepOf(acts[i], putter, waiter)
  }

  /** So any number of other puts and waiters may take any of their steps. */
  lemma OthersMayDo<T>(acts: seq<Action<T>>, putter: Option<nat>, waiter: Option<nat>)
    ensures ByOthers(acts, putter, waiter) <==> forall i :: 0 <= i < |acts| ==>
      match acts[i]
      case PutLocked(p, _, _) => putter != Some(p)
      case SetEvent(p) => putter != Some(p)
      case Capture(w) => waiter != Some(w)
      case Wake(w) => waiter != Some(w)
      case Timeout(w) => waiter != Some(w)
      case ReadValue(w) => waiter != Some(w)
  {}

  ghost predicate Untouched<T>(s: State<T>, t: State<T>, putter: Option<nat>, waiter: Option<nat>) {
    && (putter.Some? && putter.value in s.putters ==>
          putter.value in t.putters && t.putters[putter.value] == s.putters[putter.value])
    && (waiter.Some? && waiter.value in s.waiters ==>
          waiter.value in t.waiters && t.waiters[waiter.value] == s.waiters[waiter.value])
  }

  lemma {:induction false} OthersKeep<T>(s: State<T>, acts: seq<Action<T>>, t: State<T>, putter: Option<nat>, waiter: Option<nat>)
    requires Exec(s, acts) == Some(t) && ByOthers(acts, putter, waiter)
    ensures Untouched(s, t, putter, waiter)
  {
    if acts != [] {
      var n := |acts| - 1;
      OthersKeep(s, acts[..n], Exec(s, acts[..n]).value, putter, waiter);
      assert !StepOf(acts[n], putter, waiter);
    }
  }

  class LatestSlot<T> {
    var value: Option<T>
    var putMono: real
    var hasValue: bool
    var event: Event
    var isSet: set<Event>  // the flags of all events created so far
    ghost const start: real
    ghost var sys: State<T>
    ghost var trace: seq<Action<T>>

    ghost predicate Valid()
      reads this
    {
      && sys.value == value && sys.putMono == putMono && sys.hasValue == hasValue
      && sys.event == event && sys.isSet == isSet
      && Exec(Init(start), trace) == Some(sys)
    }

    lemma ValidInv()
      requires Exec(Init(start), trace) == Some(sys)
      ensures Inv(sys)
    {
      SlotTheorems.InitInv<T>(start);
      RunInv(Init(start), trace, sys);
    }

    constructor (ghost clock: real)
      ensures Valid() && trace == [] && sys.log == [] && start == clock
    {
      value, putMono, hasValue, event, isSet := None, 0.0, false, 0, {};
      start := clock;
      sys, trace := Init(clock), [];
    }

    ghost method Record(a: Action<T>)
      requires Exec(Init(start), trace) == Some(sys) && Enabled(sys, a)
      modifies this`sys, this`trace
      ensures trace == old(trace) + [a] && sys == Apply(old(sys), a)
      ensures Exec(Init(start), trace) == Some(sys) && Later(old(sys), sys)
    {
      StepLater(sys, a);
      sys, trace := Apply(sys, a), trace + [a];
      assert trace[..|trace| - 1] == old(trace);
    }

    /** Other threads run while this call does not hold the lock. */
    method Interfere(ghost putter: Option<nat>, ghost waiter: Option<nat>)
      requires Valid()
      modifies this
      ensures Valid() && old(trace) <= trace
      ensures ByOthers(trace[|old(trace)|..], putter, waiter)
      ensures Exec(old(sys), trace[|old(trace)|..]) == Some(sys)
    {
      assert trace[|trace|..] == [];
    }

    method Yield(ghost putter: Option<nat>, ghost waiter: Option<nat>)
      requires Valid()
      modifies this
      ensures Valid() && old(trace) <= trace
      ensures Later(old(sys), sys) && Untouched(old(sys), sys, putter, waiter)
    {
      Interfere(putter, waiter);
      OthersKeep(old(sys), trace[|old(trace)|..], sys, putter, waiter);
      RunLater(old(sys), trace[|old(trace)|..], sys);
    }

    /** The locked section of `put`; `p` is this call and `now` its clock reading. */
    method Swap(ghost p: nat, v: T, now: real) returns (retired: Event)
      requires Valid() && p !in sys.putters && sys.clock <= now
      modifies this
      ensures Valid() && trace == old(trace) + [PutLocked(p, v, now)]
      ensures retired == |old(sys.log)| && p in sys.putters && sys.putters[p] == retired
      ensures sys.log == old(sys.log) + [(v, now)] && Later(old(sys), sys)
    {
      ValidInv();
      Record(PutLocked(p, v, now));
      value, putMono, hasValue := Some(v), now, true;
      retired, event := event, event + 1;
    }

    /** Publishes `v`: from its lock section on it is the newest value or has been
        overwritten, and everybody waiting since before then is free to go. */
    method Put(ghost p: nat, v: T, now: real)
      requires Valid() && p !in sys.putters && sys.clock <= now
      modifies this
      ensures Valid() && old(sys.log) + [(v, now)] <= sys.log
      ensures |old(sys.log)| in isSet && p !in sys.putters
    {
      var retired := Swap(p, v, now);
      Yield(Some(p), None);
      Record(SetEvent(p));
      isSet := isSet + {retired};
    }

    method Get() returns (r: Option<(Option<T>, real)>)
      requires Valid()
      ensures sys.log == [] ==> r == None
      ensures sys.log != [] ==> r == Some((Some(sys.log[|sys.log| - 1].0), sys.log[|sys.log| - 1].1))
    {
      ValidInv();
      if !hasValue { return None; }
      return Some((value, putMono));
    }

    /** The locked section that captures the event. */
    method TakeEvent(ghost w: nat) returns (captured: Event)
      requires Valid() && w !in sys.waiters
      modifies this`sys, this`trace
      ensures Valid() && Later(old(sys), sys) && sys.log == old(sys).log
      ensures captured == |sys.log| && w in sys.waiters && sys.waiters[w] == Waiting(captured)
    {
      ValidInv();
      captured := event;
      Record(Capture(w));
    }

    /** `event.wait`. One that finds the event set returns True; one that blocks returns True
        once it is set, unless the wait's time is up before that (`timesOut`), even if the
        event is set before it reports. */
    method Await(ghost w: nat, captured: Event, timesOut: bool) returns (woke: bool)
      requires Valid() && w in sys.waiters && sys.waiters[w] == Waiting(captured)
      modifies this
      ensures Valid() && Later(old(sys), sys) && w in sys.waiters
      ensures woke <==> captured in old(isSet) || (captured in isSet && !timesOut)
      ensures sys.waiters[w] == if woke then Woken(captured) else GaveUp
    {
      woke := captured in isSet;
      if !woke {
        Yield(None, Some(w));
        woke := captured in isSet && !timesOut;
      }
      Record(if woke then Wake(w) else Timeout(w));
    }

    /** Both, with other threads in between. */
    method Block(ghost w: nat, timesOut: bool) returns (woke: bool)
      requires Valid() && w !in sys.waiters
      modifies this
      ensures Valid() && Later(old(sys), sys) && w in sys.waiters
      ensures woke ==> sys.waiters[w] == Woken(|old(sys.log)|) && |old(sys.log)| in isSet
      ensures !timesOut && |old(sys.log)| in isSet ==> woke
      ensures !woke ==> sys.waiters[w] == GaveUp
    {
      var captured := TakeEvent(w);
      Yield(None, Some(w));
      woke := Await(w, captured, timesOut);
    }

    /** Success means a put locked after this call started, and the newest such value
        is returned; None is returned only by a wait that timed out, or whose event was not
        set. */
    method WaitFresh(ghost w: nat, timesOut: bool) returns (r: Option<(Option<T>, real)>)
      requires Valid() && w !in sys.waiters
      modifies this
      ensures Valid() && old(sys.log) <= sys.log && w in sys.waiters
      ensures r.Some? ==> |old(sys.log)| < |sys.log|
      ensures r.None? ==> timesOut || |old(sys.log)| !in isSet
      ensures r.Some? ==> r == Some((Some(sys.log[|sys.log| - 1].0), sys.log[|sys.log| - 1].1))
      ensures sys.waiters[w] == if r.Some? then Got(r.value.0, r.value.1) else GaveUp
    {
      var woke := Block(w, timesOut);
      if !woke { return None; }
      Yield(None, Some(w));
      r := ReadFresh(w);
    }

    /** The second locked section of `wait_fresh`. */
    method ReadFresh(ghost w: nat) returns (r: Option<(Option<T>, real)>)
      requires Valid() && w in sys.waiters && sys.waiters[w].Woken?
      modifies this`sys, this`trace
      ensures Valid() && sys.log == old(sys).log
      ensures r.Some? && w in sys.waiters && sys.waiters[w] == Got(r.value.0, r.value.1)
      ensures old(sys).waiters[w].event < |sys.log|
      ensures r == Some((Some(sys.log[|sys.log| - 1].0), sys.log[|sys.log| - 1].1))
    {
      ValidInv();
      Record(ReadValue(w));
      r := Some((value, putMono));
    }
  }
}
