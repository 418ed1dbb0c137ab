/** Freshness, wake-up and ordering of the latest-value slot over every interleaving. */
module SlotTheorems {
  import opened Basics
  import opened SlotProtocol

  /** The event a waiter holds while its call is under way. */
  function HeldEvent<T>(w: Waiter<T>): Option<Event> {
    match w
    case Waiting(e) => Some(e)
    case Woken(e) => Some(e)
    case _ => None
  }

  /** Along a run: the log only grows, a set event stays set, and a waiter holds the
      event it captured or has returned. */
  ghost predicate Later<T>(s: State<T>, t: State<T>) {
    && s.log <= t.log && s.isSet <= t.isSet && s.waiters.Keys <= t.waiters.Keys
    && (forall w :: w in s.waiters ==>
          (HeldEvent(t.waiters[w]).Some? ==> HeldEvent(t.waiters[w]) == HeldEvent(s.waiters[w])))
    && (forall w :: w in s.waiters && HeldEvent(s.waiters[w]).None? ==> t.waiters[w] == s.waiters[w])
  }

  lemma StepLater<T>(s: State<T>, a: Action<T>)
    requires Enabled(s, a)
    ensures Later(s, Apply(s, a))
  {}

  lemma {:induction false} RunLater<T>(s: State<T>, acts: seq<Action<T>>, t: State<T>)
    requires Exec(s, acts) == Some(t)
    ensures Later(s, t)
  {
    if acts != [] {
      var u := Exec(s, acts[..|acts| - 1]).value;
      RunLater(s, acts[..|acts| - 1], u);
      StepLater(u, acts[|acts| - 1]);
    }
  }

  /** The newest entry of a log that has grown comes from the newest put of the run. */
  lemma {:induction false} NewestPut<T>(s: State<T>, acts: seq<Action<T>>, t: State<T>) returns (k: nat)
    requires Exec(s, acts) == Some(t) && |s.log| < |t.log|
    ensures k < |acts| && acts[k].PutLocked? && t.log[|t.log| - 1] == (acts[k].v, acts[k].now)
    ensures forall l :: k < l < |acts| ==> !acts[l].PutLocked?
  {
    var n := |acts| - 1;
    if acts[n].PutLocked? {
      k := n;
    } else {
      k := NewestPut(s, acts[..n], Exec(s, acts[..n]).value);
    }
  }

  lemma InitInv<T>(c: real)
    ensures Inv(Init<T>(c))
  {}

  /** The state of the run after its first `i` actions. */
  function At<T>(c: real, acts: seq<Action<T>>, i: nat): (s: State<T>)
    requires i <= |acts| && Exec(Init(c), acts).Some?
    ensures Exec(Init(c), acts[..i]) == Some(s)
  {
    ExecSplit(Init(c), acts, i);
    Exec(Init(c), acts[..i]).value
  }

  lemma AtInv<T>(c: real, acts: seq<Action<T>>, i: nat)
    requires i <= |acts| && Exec(Init(c), acts).Some?
    ensures Inv(At(c, acts, i))
  {
    InitInv<T>(c);
    RunInv(Init(c), acts[..i], At(c, acts, i));
  }

  lemma Between<T>(c: real, acts: seq<Action<T>>, i: nat, j: nat)
    requires i <= j <= |acts| && Exec(Init(c), acts).Some?
    ensures Exec(At(c, acts, i), acts[i..j]) == Some(At(c, acts, j))
  {
    ExecSplit(Init(c), acts, j);
    ExecSplit(Init(c), acts[..j], i);
    assert acts[..j][..i] == acts[..i] && acts[..j][i..] == acts[i..j];
  }

  lemma LastStep<T>(s: State<T>, acts: seq<Action<T>>, b: seq<Action<T>>)
    requires acts != [] && b == acts[..|acts| - 1] && Exec(s, acts).Some?
    ensures Exec(s, b).Some? && Enabled(Exec(s, b).value, acts[|acts| - 1])
    ensures Exec(s, acts).value == Apply(Exec(s, b).value, acts[|acts| - 1])
  {}

  lemma NextState<T>(c: real, acts: seq<Action<T>>, i: nat)
    requires i < |acts| && Exec(Init(c), acts).Some?
    ensures Enabled(At(c, acts, i), acts[i])
    ensures At(c, acts, i + 1) == Apply(At(c, acts, i), acts[i])
  {
    var b := acts[..i + 1];
    assert b[..|b| - 1] == acts[..i] && b[|b| - 1] == acts[i];
    assert Exec(Init(c), b) == Some(At(c, acts, i + 1));
    LastStep(Init(c), b, acts[..i]);
  }

  /** A waiter's first step: it waits for the current event. */
  lemma CaptureWaits<T>(c: real, acts: seq<Action<T>>, i: nat, w: nat)
    requires i < |acts| && Exec(Init(c), acts).Some? && acts[i] == Capture(w)
    ensures w in At(c, acts, i + 1).waiters
    ensures At(c, acts, i + 1).waiters[w] == Waiting(At(c, acts, i + 1).event)
  {
    NextState(c, acts, i);
  }

  /** Its last step on success: it reads the newest value. */
  lemma ReadGets<T>(c: real, acts: seq<Action<T>>, j: nat, w: nat)
    requires j < |acts| && Exec(Init(c), acts).Some? && acts[j] == ReadValue(w)
    ensures w in At(c, acts, j).waiters && At(c, acts, j).waiters[w].Woken?
    ensures w in At(c, acts, j + 1).waiters
    ensures At(c, acts, j + 1).waiters[w] == Got(At(c, acts, j).value, At(c, acts, j).putMono)
  {
    NextState(c, acts, j);
  }

  /** What a call returned is not taken back. */
  lemma GotStays<T>(c: real, acts: seq<Action<T>>, j: nat, w: nat)
    requires j <= |acts| && Exec(Init(c), acts).Some?
    requires w in At(c, acts, j).waiters && At(c, acts, j).waiters[w].Got?
    ensures w in At(c, acts, |acts|).waiters
    ensures At(c, acts, |acts|).waiters[w] == At(c, acts, j).waiters[w]
  {
    Between(c, acts, j, |acts|);
    RunLater(At(c, acts, j), acts[j..|acts|], At(c, acts, |acts|));
  }

  /** The newest put of a stretch of the run, by its place in the whole run. */
  predicate NewestIn<T>(acts: seq<Action<T>>, i: nat, j: nat, k: nat) {
    && i <= k < j <= |acts| && acts[k].PutLocked?
    && forall l :: k < l < j ==> !acts[l].PutLocked?
  }

  lemma InWholeRun<T>(acts: seq<Action<T>>, i: nat, j: nat, m: nat)
    requires i <= j <= |acts| && m < j - i && acts[i..j][m].PutLocked?
    requires forall l :: m < l < j - i ==> !acts[i..j][l].PutLocked?
    ensures NewestIn(acts, i, j, i + m) && acts[i + m] == acts[i..j][m]
  {
    forall l | i + m < l < j ensures !acts[l].PutLocked? {
      assert !acts[i..j][l - i].PutLocked?;
    }
  }

  /** A `wait_fresh` that succeeds returns the newest value at the time it reads, and
      that value's put entered its locked section after the waiter captured its
      event - whichever `event.set()` calls, earlier or later, ran in between. */
  lemma Freshness<T>(c: real, acts: seq<Action<T>>, i: nat, j: nat, w: nat) returns (k: nat)
    requires i < j < |acts| && Exec(Init(c), acts).Some?
    requires acts[i] == Capture(w) && acts[j] == ReadValue(w)
    ensures i < k < j && NewestIn(acts, i + 1, j, k)
    ensures w in At(c, acts, |acts|).waiters
    ensures At(c, acts, |acts|).waiters[w] == Got(Some(acts[k].v), acts[k].now)
  {
    CaptureWaits(c, acts, i, w);
    ReadGets(c, acts, j, w);
    var m := FreshWindow(c, acts, i + 1, j, w);
    InWholeRun(acts, i + 1, j, m);
    k := i + 1 + m;
    GotStays(c, acts, j + 1, w);
  }

  lemma FreshWindow<T>(c: real, acts: seq<Action<T>>, i: nat, j: nat, w: nat) returns (m: nat)
    requires i <= j <= |acts| && Exec(Init(c), acts).Some?
    requires w in At(c, acts, i).waiters && At(c, acts, i).waiters[w] == Waiting(At(c, acts, i).event)
    requires w in At(c, acts, j).waiters && At(c, acts, j).waiters[w].Woken?
    ensures m < j - i && acts[i..j][m].PutLocked?
    ensures forall l :: m < l < j - i ==> !acts[i..j][l].PutLocked?
    ensures At(c, acts, j).value == Some(acts[i..j][m].v) && At(c, acts, j).putMono == acts[i..j][m].now
  {
    var s, u := At(c, acts, i), At(c, acts, j);
    AtInv(c, acts, i);
    AtInv(c, acts, j);
    Between(c, acts, i, j);
    WokenMeansPut(s, acts[i..j], u, w);
    m := NewestPut(s, acts[i..j], u);
  }

  /** A waiter blocked on the current event wakes only after another locked put. */
  lemma WokenMeansPut<T>(s: State<T>, acts: seq<Action<T>>, t: State<T>, w: nat)
    requires Inv(s) && Exec(s, acts) == Some(t) && Inv(t)
    requires w in s.waiters && s.waiters[w] == Waiting(s.event)
    requires w in t.waiters && t.waiters[w].Woken?
    ensures |s.log| < |t.log|
  {
    RunLater(s, acts, t);
  }

  /** In every state: the current event is not set, every retired event is set or exactly
      one put is about to set it, and a blocked waiter can wake exactly when its event is
      retired and nobody owes it. So with no put between its swap and its set, whoever
      waits for a retired event can go. */
  lemma NoLostWakeup<T>(c: real, acts: seq<Action<T>>, t: State<T>)
    requires Exec(Init(c), acts) == Some(t)
    ensures t.event !in t.isSet && t.event !in t.putters.Values
    ensures forall p, q :: p in t.putters && q in t.putters && t.putters[p] == t.putters[q] ==> p == q
    ensures forall e: Event :: e < t.event ==> (e in t.isSet <==> e !in t.putters.Values)
    ensures forall w :: w in t.waiters && t.waiters[w].Waiting? ==>
              (Enabled(t, Wake(w)) <==> t.waiters[w].event != t.event && t.waiters[w].event !in t.putters.Values)
  {
    InitInv<T>(c);
    RunInv(Init(c), acts, t);
  }

  /** Every `event.set()` sets, for the first time, the event its own put retired,
      and the event stays set from then on. */
  lemma {:induction false} RetiredSetOnce<T>(c: real, acts: seq<Action<T>>, i: nat, p: nat) returns (k: nat)
    requires i < |acts| && acts[i] == SetEvent(p) && Exec(Init(c), acts).Some?
    ensures k < i && acts[k].PutLocked? && acts[k].p == p
    ensures At(c, acts, k).event !in At(c, acts, i).isSet
    ensures forall j :: i < j <= |acts| ==> At(c, acts, k).event in At(c, acts, j).isSet
  {
    NextState(c, acts, i);
    k := Retirer(c, acts, i, p);
    AtInv(c, acts, i);
    forall j | i < j <= |acts| ensures At(c, acts, k).event in At(c, acts, j).isSet {
      Between(c, acts, i + 1, j);
      RunLater(At(c, acts, i + 1), acts[i + 1..j], At(c, acts, j));
    }
  }

  lemma {:induction false} Retirer<T>(c: real, acts: seq<Action<T>>, i: nat, p: nat) returns (k: nat)
    requires i <= |acts| && Exec(Init(c), acts).Some? && p in At(c, acts, i).putters
    ensures k < i && acts[k].PutLocked? && acts[k].p == p
    ensures At(c, acts, k).event == At(c, acts, i).putters[p]
  {
    assert acts[..0] == [];
    NextState(c, acts, i - 1);
    if acts[i - 1].PutLocked? && acts[i - 1].p == p {
      k := i - 1;
    } else {
      k := Retirer(c, acts, i - 1, p);
    }
  }

  /** `get` returns the last locked put, or nothing before the first; with a monotone
      clock the times it reports never decrease. */
  lemma GetIsLastPut<T>(c: real, before: seq<Action<T>>, s: State<T>, acts: seq<Action<T>>, t: State<T>)
    requires Exec(Init(c), before) == Some(s) && Exec(s, acts) == Some(t)
    ensures Get(t) == if t.log == [] then None
                      else Some((Some(t.log[|t.log| - 1].0), t.log[|t.log| - 1].1))
    ensures Get(s).Some? ==> Get(t).Some? && Get(s).value.1 <= Get(t).value.1
  {
    InitInv<T>(c);
    RunInv(Init(c), before, s);
    RunInv(s, acts, t);
    RunLater(s, acts, t);
  }
}
