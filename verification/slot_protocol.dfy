/** The depth-1 latest-value slot as a labelled transition system. One action is one
    locked section, one `event.set()`, or one waiter waking up or giving up. Every
    call of `put` and `wait_fresh` is a process of its own. */
module SlotProtocol {
  import opened Basics

  /** Events are numbered in the order they are created; the one the slot is born
      with is event 0. */
  type Event = nat

  datatype Waiter<T> =
    | Waiting(event: Event)  // captured the event, blocked on it
    | Woken(event: Event)    // `event.wait` returned True, value not read yet
    | GaveUp                 // timed out: the call returned None
    | Got(value: Option<T>, mono: real)

  /** `putters` are the puts between their locked section and their `event.set()`,
      with the event each one retired. `log` records every locked put. */
  datatype State<T> = State(
    value: Option<T>,
    putMono: real,
    hasValue: bool,
    event: Event,
    nextEvent: Event,
    isSet: set<Event>,
    putters: map<nat, Event>,
    waiters: map<nat, Waiter<T>>,
    clock: real,
    log: seq<(T, real)>)

  datatype Action<T> =
    | PutLocked(p: nat, v: T, now: real)
    | SetEvent(p: nat)
    | Capture(w: nat)
    | Wake(w: nat)
    | Timeout(w: nat)
    | ReadValue(w: nat)

  function Init<T>(clock: real): State<T> {
    State(None, 0.0, false, 0, 1, {}, map[], map[], clock, [])
  }

  /** The clock is monotone, and `event.wait` returns True only on a set event. */
  predicate Enabled<T>(s: State<T>, a: Action<T>) {
    match a
    case PutLocked(p, _, now) => p !in s.putters && s.clock <= now
    case SetEvent(p) => p in s.putters
    case Capture(w) => w !in s.waiters
    case Wake(w) => w in s.waiters && s.waiters[w].Waiting? && s.waiters[w].event in s.isSet
    case Timeout(w) => w in s.waiters && s.waiters[w].Waiting?
    case ReadValue(w) => w in s.waiters && s.waiters[w].Woken?
  }

  function Apply<T>(s: State<T>, a: Action<T>): State<T>
    requires Enabled(s, a)
  {
    match a
    case PutLocked(p, v, now) =>
      s.(value := Some(v), putMono := now, hasValue := true,
         event := s.nextEvent, nextEvent := s.nextEvent + 1,
         putters := s.putters[p := s.event], clock := now, log := s.log + [(v, now)])
    case SetEvent(p) => s.(isSet := s.isSet + {s.putters[p]}, putters := s.putters - {p})
    case Capture(w) => s.(waiters := s.waiters[w := Waiting(s.event)])
    case Wake(w) => s.(waiters := s.waiters[w := Woken(s.waiters[w].event)])
    case Timeout(w) => s.(waiters := s.waiters[w := GaveUp])
    case ReadValue(w) => s.(waiters := s.waiters[w := Got(s.value, s.putMono)])
  }

  /** The locked section of `get`. */
  function Get<T>(s: State<T>): Option<(Option<T>, real)> {
    if !s.hasValue then None else Some((s.value, s.putMono))
  }

  function Exec<T>(s: State<T>, acts: seq<Action<T>>): Option<State<T>> {
    if acts == [] then Some(s)
    else
      match Exec(s, acts[..|acts| - 1])
      case None => None
      case Some(t) =>
        if Enabled(t, acts[|acts| - 1]) then Some(Apply(t, acts[|acts| - 1])) else None
  }

  lemma {:induction false} ExecSplit<T>(s: State<T>, acts: seq<Action<T>>, i: nat)
    requires i <= |acts| && Exec(s, acts).Some?
    ensures Exec(s, acts[..i]).Some?
    ensures Exec(Exec(s, acts[..i]).value, acts[i..]) == Exec(s, acts)
  {
    if i == |acts| {
      assert acts[..i] == acts;
    } else {
      var n := |acts| - 1;
      ExecSplit(s, acts[..n], i);
      assert acts[..n][..i] == acts[..i];
      assert acts[i..][..n - i] == acts[..n][i..];
    }
  }

  // ---------------------------------------------------------------- invariant

  /** Event `e` is retired by the put that became entry `e` of the log, and each
      retired event is either set or about to be set by exactly one put. */
  ghost predicate EventsOk<T>(s: State<T>) {
    && s.event == |s.log| && s.nextEvent == |s.log| + 1
    && (forall e :: e in s.isSet ==> e < |s.log|)
    && (forall p :: p in s.putters ==> s.putters[p] < |s.log| && s.putters[p] !in s.isSet)
    && (forall p, q :: p in s.putters && q in s.putters && s.putters[p] == s.putters[q] ==> p == q)
    && (forall e: nat :: e < |s.log| ==> e in s.isSet || e in s.putters.Values)
  }

  ghost predicate ValueOk<T>(s: State<T>) {
    if s.log == [] then !s.hasValue
    else s.hasValue && s.value == Some(s.log[|s.log| - 1].0) && s.putMono == s.log[|s.log| - 1].1
  }

  predicate ClockOk<T>(s: State<T>) {
    && (forall i :: 0 <= i < |s.log| ==> s.log[i].1 <= s.clock)
    && (forall i, j :: 0 <= i < j < |s.log| ==> s.log[i].1 <= s.log[j].1)
  }

  predicate WaitersOk<T>(s: State<T>) {
    && (forall w :: w in s.waiters && s.waiters[w].Waiting? ==> s.waiters[w].event <= |s.log|)
    && (forall w :: w in s.waiters && s.waiters[w].Woken? ==> s.waiters[w].event in s.isSet)
  }

  ghost predicate Inv<T>(s: State<T>) { EventsOk(s) && ValueOk(s) && ClockOk(s) && WaitersOk(s) }

  lemma EventsAfterPut<T>(s: State<T>, a: Action<T>)
    requires a.PutLocked? && EventsOk(s) && Enabled(s, a)
    ensures EventsOk(Apply(s, a))
  {
    var t := Apply(s, a);
    assert t.putters[a.p] == |s.log|;
    forall e: nat | e < |t.log| ensures e in t.isSet || e in t.putters.Values {
      if e in s.putters.Values {
        var q :| q in s.putters && s.putters[q] == e;
        assert t.putters[q] == e;
      }
    }
  }

  lemma EventsAfterSet<T>(s: State<T>, a: Action<T>)
    requires a.SetEvent? && EventsOk(s) && Enabled(s, a)
    ensures EventsOk(Apply(s, a))
  {
    var t := Apply(s, a);
    forall e: nat | e < |t.log| ensures e in t.isSet || e in t.putters.Values {
      if e in s.putters.Values && e != s.putters[a.p] {
        var q :| q in s.putters && s.putters[q] == e;
        assert t.putters[q] == e;
      }
    }
  }

  lemma LogStep<T>(s: State<T>, a: Action<T>)
    requires ValueOk(s) && ClockOk(s) && Enabled(s, a)
    ensures ValueOk(Apply(s, a)) && ClockOk(Apply(s, a))
  {}

  lemma WaitersStep<T>(s: State<T>, a: Action<T>)
    requires EventsOk(s) && WaitersOk(s) && Enabled(s, a)
    ensures WaitersOk(Apply(s, a))
  {}

  lemma StepInv<T>(s: State<T>, a: Action<T>)
    requires Inv(s) && Enabled(s, a)
    ensures Inv(Apply(s, a))
  {
    if a.PutLocked? { EventsAfterPut(s, a); } else if a.SetEvent? { EventsAfterSet(s, a); }
    LogStep(s, a);
    WaitersStep(s, a);
  }

  lemma {:induction false} RunInv<T>(s: State<T>, acts: seq<Action<T>>, t: State<T>)
    requires Inv(s) && Exec(s, acts) == Some(t)
    ensures Inv(t)
  {
    if acts != [] {
      var u := Exec(s, acts[..|acts| - 1]).value;
      RunInv(s, acts[..|acts| - 1], u);
      StepInv(u, acts[|acts| - 1]);
    }
  }
}
