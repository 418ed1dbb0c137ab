/** Every action of the command bus keeps the invariant. */
module BusInvariant {
  import opened Futures
  import opened BusProtocol

  lemma InitInv(m: int)
    ensures Inv(Init(m))
  {
    forall p, f ensures !HeldAt(Init(m), p, f) {}
  }

  /** The operation finds its future in a state where it does not raise. */
  predicate Legal(s: State, a: Action)
    requires Enabled(s, a)
  {
    match a
    case Refuse(f) => s.futures[f] == Pending
    case Notify(d) =>
      var f := s.drains[d].batch[s.drains[d].next];
      s.futures[f] == Pending || s.futures[f] == Future.Cancelled
    case Resolve(d) => s.futures[s.drains[d].batch[s.drains[d].next]] == Running
    case _ => true
  }

  lemma InvLegal(s: State, a: Action)
    requires HeldFits(s) && Enabled(s, a)
    ensures Legal(s, a)
  {
    match a
    case Refuse(f) => assert HeldAt(s, OnFullPath, f);
    case Notify(d) => assert HeldAt(s, InBatch(d, s.drains[d].next), s.drains[d].batch[s.drains[d].next]);
    case Resolve(d) => assert HeldAt(s, InBatch(d, s.drains[d].next), s.drains[d].batch[s.drains[d].next]);
    case _ =>
  }

  /** The operation meets a future on which the library raises: setting a result on a
      cancelled or finished one, telling a running, finished or already told one to run. */
  predicate Raises(s: State, a: Action)
    requires Enabled(s, a)
  {
    match a
    case Refuse(f) => !(s.futures[f].Pending? || s.futures[f].Running?)
    case Resolve(d) =>
      var f := s.drains[d].batch[s.drains[d].next];
      !(s.futures[f].Pending? || s.futures[f].Running?)
    case Notify(d) =>
      var f := s.drains[d].batch[s.drains[d].next];
      !(s.futures[f].Pending? || s.futures[f].Cancelled?)
    case _ => false
  }

  /** A fault is recorded exactly then. */
  lemma FaultExactly(s: State, a: Action)
    requires Enabled(s, a)
    ensures Apply(s, a).fault <==> s.fault || Raises(s, a)
  {}

  predicate DrainStep(a: Action) { a.Notify? || a.HandlerEnds? || a.Resolve? || a.Return? }

  /** How a drain's own record can change in one of its steps. */
  predicate DrainMoves(a: Action, d: Drain, e: Drain) {
    match a
    case Notify(_) => e == d.(phase := InHandler) || e == d.(next := d.next + 1)
    case HandlerEnds(_, _) => e.phase.HasResult? && e == d.(phase := e.phase)
    case Resolve(_) => e == d.(next := d.next + 1, phase := Ready)
    case Return(_) => e == d.(returned := true)
    case _ => false
  }

  /** A drain's step changes no other drain and keeps its own batch. */
  lemma DrainsOfDrainStep(s: State, a: Action)
    requires DrainStep(a) && Enabled(s, a) && Legal(s, a)
    ensures var t := Apply(s, a);
      && |t.drains| == |s.drains|
      && (forall d :: 0 <= d < |s.drains| && d != a.d ==> t.drains[d] == s.drains[d])
      && t.drains[a.d].batch == s.drains[a.d].batch
      && DrainMoves(a, s.drains[a.d], t.drains[a.d])
  {}

  lemma FuturesOfDrainStep(s: State, a: Action)
    requires DrainStep(a) && Enabled(s, a) && Legal(s, a)
    ensures a.HandlerEnds? || a.Return? ==> Apply(s, a).futures == s.futures && Apply(s, a).handled == s.handled
    ensures a.Notify? || a.Resolve? ==>
      var f := s.drains[a.d].batch[s.drains[a.d].next];
      f in Apply(s, a).futures && Apply(s, a).futures == s.futures[f := Apply(s, a).futures[f]]
  {}

  lemma RestOfDrainStep(s: State, a: Action)
    requires DrainStep(a) && Enabled(s, a) && Legal(s, a)
    ensures var t := Apply(s, a);
      && t.maxsize == s.maxsize && t.queue == s.queue && t.commands == s.commands
      && t.refusing == s.refusing && t.accepted == s.accepted && t.fault == s.fault
  {}

  /** A drain's step keeps every batch, and changes at most its own bookkeeping and
      the future of its current command. */
  lemma DrainFrame(s: State, a: Action)
    requires DrainStep(a) && Enabled(s, a) && Legal(s, a)
    ensures var t := Apply(s, a);
      && t.maxsize == s.maxsize && t.queue == s.queue && t.commands == s.commands
      && t.refusing == s.refusing && t.accepted == s.accepted && t.fault == s.fault
      && |t.drains| == |s.drains|
      && (forall d :: 0 <= d < |s.drains| ==> t.drains[d].batch == s.drains[d].batch)
      && (forall d :: 0 <= d < |s.drains| && d != a.d ==> t.drains[d] == s.drains[d])
    ensures DrainMoves(a, s.drains[a.d], Apply(s, a).drains[a.d])
    ensures a.HandlerEnds? || a.Return? ==> Apply(s, a).futures == s.futures && Apply(s, a).handled == s.handled
    ensures a.Notify? || a.Resolve? ==>
      var f := s.drains[a.d].batch[s.drains[a.d].next];
      f in Apply(s, a).futures && Apply(s, a).futures == s.futures[f := Apply(s, a).futures[f]]
  {
    RestOfDrainStep(s, a);
    DrainsOfDrainStep(s, a);
    FuturesOfDrainStep(s, a);
  }

  // ------------------------------------------------- accepted, handled, drains

  lemma AcceptedAfterDrainStep(s: State, t: State, a: Action)
    requires DrainStep(a) && AcceptedOk(s) && Enabled(s, a) && Legal(s, a) && t == Apply(s, a)
    ensures AcceptedOk(t)
  {
    DrainFrame(s, a);
    if a.Notify? || a.Resolve? {
      assert s.drains[a.d].batch[s.drains[a.d].next] in s.accepted;
    }
  }

  lemma HandledAfterDrainStep(s: State, t: State, a: Action)
    requires DrainStep(a) && AcceptedOk(s) && HandledOk(s) && Enabled(s, a) && Legal(s, a) && t == Apply(s, a)
    ensures HandledOk(t)
  {
    DrainFrame(s, a);
    if a.Notify? || a.Resolve? {
      assert s.drains[a.d].batch[s.drains[a.d].next] in s.accepted;
    }
  }

  /** A drain's step settles its current future before it goes on to the next. */
  lemma SettledByDrainStep(s: State, a: Action)
    requires DrainStep(a) && Enabled(s, a) && Legal(s, a)
    ensures forall f :: f in s.futures ==>
      f in Apply(s, a).futures && (s.futures[f].Settled() ==> Apply(s, a).futures[f].Settled())
    ensures var me, t := s.drains[a.d], Apply(s, a);
      t.drains[a.d].next > me.next ==>
        me.next < |me.batch| && me.batch[me.next] in t.futures && t.futures[me.batch[me.next]].Settled()
  {}

  lemma OwnDrainOk(s: State, t: State, a: Action, d: Drain, e: Drain)
    requires DrainOk(s, d) && DrainOk(t, d) && DrainMoves(a, d, e)
    requires a.Notify? ==> d.phase == Ready && d.next < |d.batch|
    requires a.HandlerEnds? || a.Resolve? ==> d.phase != Ready
    requires a.Return? ==> d.phase == Ready && d.next == |d.batch|
    requires e.next > d.next ==> d.batch[d.next] in t.futures && t.futures[d.batch[d.next]].Settled() && !d.returned
    ensures DrainOk(t, e)
  {}

  lemma DrainsAfterDrainStep(s: State, t: State, a: Action)
    requires DrainStep(a) && DrainsOk(s) && Enabled(s, a) && Legal(s, a) && t == Apply(s, a)
    ensures DrainsOk(t)
  {
    DrainFrame(s, a);
    SettledByDrainStep(s, a);
    forall d | 0 <= d < |s.drains| ensures DrainOk(t, t.drains[d]) {
      assert DrainOk(s, s.drains[d]);
      DrainOkStays(s, t, s.drains[d]);
      if d == a.d { OwnDrainOk(s, t, a, s.drains[d], t.drains[d]); }
    }
  }

  lemma AcceptedAfterSubmit(s: State, t: State, a: Action)
    requires a.Submit? && AcceptedOk(s) && Enabled(s, a) && t == Apply(s, a)
    ensures AcceptedOk(t)
  {}

  lemma AcceptedAfter(s: State, t: State, a: Action)
    requires !DrainStep(a) && !a.Submit? && AcceptedOk(s) && Enabled(s, a) && Legal(s, a) && t == Apply(s, a)
    ensures AcceptedOk(t)
  {}

  lemma HandledAfter(s: State, t: State, a: Action)
    requires !DrainStep(a) && AcceptedOk(s) && HandledOk(s) && Enabled(s, a) && Legal(s, a) && t == Apply(s, a)
    ensures HandledOk(t)
  {}

  /** Steps of nobody's drain keep what is settled settled. */
  lemma SettledStays(s: State, a: Action)
    requires !DrainStep(a) && Enabled(s, a) && Legal(s, a)
    ensures forall f :: f in s.futures ==>
      f in Apply(s, a).futures && (s.futures[f].Settled() ==> Apply(s, a).futures[f].Settled())
  {}

  lemma DrainsOfOthers(s: State, a: Action)
    requires !DrainStep(a) && Enabled(s, a) && Legal(s, a)
    ensures Apply(s, a).maxsize == s.maxsize
    ensures Apply(s, a).drains == s.drains + (if a.Snapshot? then [Drain(s.queue, 0, Ready, false)] else [])
  {}

  lemma DrainOkStays(s: State, t: State, d: Drain)
    requires DrainOk(s, d) && t.maxsize == s.maxsize
    requires forall f :: f in s.futures ==> f in t.futures && (s.futures[f].Settled() ==> t.futures[f].Settled())
    ensures DrainOk(t, d)
  {}

  lemma DrainsAfter(s: State, t: State, a: Action)
    requires |s.queue| <= Capacity(s.maxsize)
    requires !DrainStep(a) && DrainsOk(s) && AcceptedOk(s) && Enabled(s, a) && Legal(s, a) && t == Apply(s, a)
    ensures DrainsOk(t)
  {
    SettledStays(s, a);
    DrainsOfOthers(s, a);
    forall d | 0 <= d < |t.drains| ensures DrainOk(t, t.drains[d]) {
      if d < |s.drains| {
        assert DrainOk(s, s.drains[d]);
        DrainOkStays(s, t, s.drains[d]);
      }
    }
  }

  // ------------------------------------------------------- who holds a future

  ghost predicate HeldOk(s: State) { HeldFits(s) && HeldOnce(s) && UnsettledHeld(s) }

  lemma HeldAfterSubmit(s: State, f: Id, cmd: Command)
    requires HeldOk(s) && Enabled(s, Submit(f, cmd))
    ensures HeldOk(Apply(s, Submit(f, cmd)))
  {
    var t := Apply(s, Submit(f, cmd));
    var place := if |s.queue| < s.maxsize then InQueue(|s.queue|) else OnFullPath;
    assert HeldAt(t, place, f);
    forall p, g ensures HeldAt(t, p, g) <==> HeldAt(s, p, g) || (p == place && g == f) {}
    forall g | Held(s, g) ensures Held(t, g) {
      var p :| HeldAt(s, p, g);
      assert HeldAt(t, p, g);
    }
  }

  lemma HeldAfterRefuse(s: State, f: Id)
    requires HeldOk(s) && Enabled(s, Refuse(f)) && Legal(s, Refuse(f))
    ensures HeldOk(Apply(s, Refuse(f)))
  {
    var t := Apply(s, Refuse(f));
    assert HeldAt(s, OnFullPath, f);
    forall p, g ensures HeldAt(t, p, g) <==> HeldAt(s, p, g) && g != f {
      assert HeldAt(s, p, f) ==> p == OnFullPath;
    }
    forall g | Held(s, g) && g != f ensures Held(t, g) {
      var p :| HeldAt(s, p, g);
      assert HeldAt(t, p, g);
    }
  }

  /** Taking the snapshot renames the queue's places one to one. */
  lemma HeldAfterSnapshot(s: State)
    requires HeldOk(s)
    ensures HeldOk(Apply(s, Snapshot))
  {
    var t, n := Apply(s, Snapshot), |s.drains|;
    forall p, g | HeldAt(t, p, g)
      ensures HeldAt(s, if p.InBatch? && p.d == n then InQueue(p.i) else p, g)
    {}
    forall g | Held(s, g) ensures Held(t, g) {
      var p :| HeldAt(s, p, g);
      assert HeldAt(t, if p.InQueue? then InBatch(n, p.i) else p, g);
    }
  }

  lemma PlacesAfterDrainStep(s: State, a: Action, p: Place, g: Id)
    requires a.Notify? || a.HandlerEnds? || a.Resolve?
    requires Enabled(s, a) && Legal(s, a)
    ensures var me, t := s.drains[a.d], Apply(s, a);
      HeldAt(t, p, g) <==> HeldAt(s, p, g) && (p == InBatch(a.d, me.next) ==> t.drains[a.d].next == me.next)
  {
    DrainFrame(s, a);
  }

  /** `t` has the places of `s`, but for `here`, which has gone unless it is `kept`. */
  ghost predicate PlacesKept(s: State, t: State, here: Place, kept: bool) {
    forall p, g :: HeldAt(t, p, g) <==> HeldAt(s, p, g) && (p == here ==> kept)
  }

  lemma HolderStays(s: State, t: State, here: Place, f: Id, kept: bool, g: Id)
    requires PlacesKept(s, t, here, kept) && here.InBatch? && HeldAt(s, here, f) && Held(s, g) && (g == f ==> kept)
    ensures Held(t, g)
  {
    var p :| HeldAt(s, p, g);
    assert HeldAt(t, if g == f then here else p, g);
  }

  lemma StillHeld(s: State, t: State, here: Place, f: Id, kept: bool)
    requires PlacesKept(s, t, here, kept) && here.InBatch? && HeldAt(s, here, f) && HeldOnce(s) && UnsettledHeld(s)
    requires forall g :: g in t.futures && g != f ==> g in s.futures && s.futures[g] == t.futures[g]
    requires f in t.futures && f in s.futures && (kept ==> !s.futures[f].Settled())
    requires !kept ==> t.futures[f].Settled()
    ensures HeldOnce(t) && UnsettledHeld(t)
  {
    forall g | g in t.futures && !t.futures[g].Settled() ensures Held(t, g) {
      HolderStays(s, t, here, f, kept, g);
    }
  }

  /** Anywhere else the future is another one, which the step leaves alone. */
  lemma FitsElsewhere(s: State, a: Action, p: Place, g: Id)
    requires a.Notify? || a.HandlerEnds? || a.Resolve?
    requires HeldFits(s) && HeldOnce(s) && Enabled(s, a) && Legal(s, a)
    requires HeldAt(s, p, g) && p != InBatch(a.d, s.drains[a.d].next)
    ensures g in Apply(s, a).futures && FitsPlace(Apply(s, a), p, Apply(s, a).futures[g])
  {
    var me, t := s.drains[a.d], Apply(s, a);
    assert HeldAt(s, InBatch(a.d, me.next), me.batch[me.next]);
    FutureAfterDrainStep(s, a);
    DrainsOfDrainStep(s, a);
    assert g != me.batch[me.next];
    assert t.futures[g] == s.futures[g];
  }

  lemma FitsHere(s: State, a: Action, g: Id)
    requires a.Notify? || a.HandlerEnds? || a.Resolve?
    requires HeldFits(s) && Enabled(s, a) && Legal(s, a) && HeldAt(Apply(s, a), InBatch(a.d, s.drains[a.d].next), g)
    ensures g in Apply(s, a).futures
    ensures FitsPlace(Apply(s, a), InBatch(a.d, s.drains[a.d].next), Apply(s, a).futures[g])
  {
    var me := s.drains[a.d];
    assert HeldAt(s, InBatch(a.d, me.next), me.batch[me.next]);
  }

  lemma FitsAfterDrainStep(s: State, a: Action, p: Place, g: Id)
    requires a.Notify? || a.HandlerEnds? || a.Resolve?
    requires HeldFits(s) && HeldOnce(s) && Enabled(s, a) && Legal(s, a) && HeldAt(Apply(s, a), p, g)
    ensures g in Apply(s, a).futures && FitsPlace(Apply(s, a), p, Apply(s, a).futures[g])
  {
    PlacesAfterDrainStep(s, a, p, g);
    if p == InBatch(a.d, s.drains[a.d].next) { FitsHere(s, a, g); } else { FitsElsewhere(s, a, p, g); }
  }

  /** A drain's step releases at most its current future, once that is settled. */
  lemma HeldAfterDrainStep(s: State, a: Action)
    requires a.Notify? || a.HandlerEnds? || a.Resolve?
    requires HeldOk(s) && Enabled(s, a) && Legal(s, a)
    ensures HeldOk(Apply(s, a))
  {
    var t, me := Apply(s, a), s.drains[a.d];
    var here, f := InBatch(a.d, me.next), me.batch[me.next];
    assert HeldAt(s, here, f);
    forall p, g ensures HeldAt(t, p, g) <==> HeldAt(s, p, g) && (p == here ==> t.drains[a.d].next == me.next) {
      PlacesAfterDrainStep(s, a, p, g);
    }
    forall p, g | HeldAt(t, p, g) ensures g in t.futures && FitsPlace(t, p, t.futures[g]) {
      FitsAfterDrainStep(s, a, p, g);
    }
    FutureAfterDrainStep(s, a);
    StillHeld(s, t, here, f, t.drains[a.d].next == me.next);
  }

  lemma FutureAfterDrainStep(s: State, a: Action)
    requires a.Notify? || a.HandlerEnds? || a.Resolve?
    requires HeldFits(s) && Enabled(s, a) && Legal(s, a)
    ensures var t, me := Apply(s, a), s.drains[a.d];
      var f, kept := me.batch[me.next], t.drains[a.d].next == me.next;
      && f in s.futures && f in t.futures
      && (forall g :: g in t.futures && g != f ==> g in s.futures && s.futures[g] == t.futures[g])
      && (kept ==> !s.futures[f].Settled()) && (!kept ==> t.futures[f].Settled())
  {
    var me := s.drains[a.d];
    assert HeldAt(s, InBatch(a.d, me.next), me.batch[me.next]);
  }

  lemma HeldAfterReturnOrCancel(s: State, a: Action)
    requires a.Return? || a.Cancel?
    requires HeldOk(s) && Enabled(s, a)
    ensures HeldOk(Apply(s, a))
  {
    var t := Apply(s, a);
    forall p, g ensures HeldAt(t, p, g) == HeldAt(s, p, g) {}
    forall g | Held(s, g) ensures Held(t, g) {
      var p :| HeldAt(s, p, g);
      assert HeldAt(t, p, g);
    }
  }

  lemma HeldAfter(s: State, a: Action)
    requires HeldOk(s) && Enabled(s, a) && Legal(s, a)
    ensures HeldOk(Apply(s, a))
  {
    match a
    case Submit(f, cmd) => HeldAfterSubmit(s, f, cmd);
    case Refuse(f) => HeldAfterRefuse(s, f);
    case Snapshot => HeldAfterSnapshot(s);
    case Return(_) => HeldAfterReturnOrCancel(s, a);
    case Cancel(_) => HeldAfterReturnOrCancel(s, a);
    case _ => HeldAfterDrainStep(s, a);
  }

  /** The step lemma of the whole protocol. */
  lemma StepInv(s: State, a: Action)
    requires Inv(s) && Enabled(s, a)
    ensures Inv(Apply(s, a)) && Legal(s, a)
  {
    InvLegal(s, a);
    var t := Apply(s, a);
    HeldAfter(s, a);
    if DrainStep(a) {
      AcceptedAfterDrainStep(s, t, a);
      HandledAfterDrainStep(s, t, a);
      DrainsAfterDrainStep(s, t, a);
      DrainFrame(s, a);
    } else {
      if a.Submit? { AcceptedAfterSubmit(s, t, a); } else { AcceptedAfter(s, t, a); }
      HandledAfter(s, t, a);
      DrainsAfter(s, t, a);
      assert !t.fault && |t.queue| <= Capacity(t.maxsize);
    }
  }
}
