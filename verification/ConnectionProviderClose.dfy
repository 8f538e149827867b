/**
  What one undisturbed `close` does: the pass over the slots without a deadline and the passes with
  one, which differ in what they do about a slot that is in use.
*/
module ConnectionProviderClose {
  import opened Wrappers
  import opened ConnectionProvider
  import opened ConnectionProviderCalls

  // ------------------------------------------------------------------------ the barrier

  lemma ShutsGate(s: State, t: nat, bounded: bool)
    requires Quiet(s, t)
    ensures Step(s, By(t, Close(bounded))) == Goto(s, t, Unlocked(SealEnter(bounded || s.strict))).(closing := true)
  {
  }

  lemma EntersSeal(s: State, t: nat, bounded: bool, op: Op)
    requires t < |s.threads| && s.threads[t] == Unlocked(SealEnter(bounded)) && s.cond == None
    ensures Step(s, By(t, op)) == Goto(s, t, InCond(SealNotify(bounded))).(cond := Some(t))
  {
  }

  /** Where a closer goes from the barrier. */
  function Onward(bounded: bool): Loose { if bounded then DrainEnter else CloseScan(0) }

  lemma NotifiesSealed(s: State, t: nat, bounded: bool, op: Op)
    requires t < |s.threads| && s.threads[t] == InCond(SealNotify(bounded))
    ensures Step(s, By(t, op)) == Goto(s, t, InCond(Leave(Onward(bounded)))).(waiters := {}, sealed := true)
  {
  }

  lemma LeavesSeal(s: State, t: nat, k: Loose, op: Op)
    requires t < |s.threads| && s.threads[t] == InCond(Leave(k))
    ensures Step(s, By(t, op)) == Goto(s, t, Unlocked(k)).(cond := None)
  {
  }

  /** The gate is shut, and the waiters are notified under the Condition. */
  lemma Seals(s: State, t: nat, bounded: bool)
    requires Quiet(s, t)
    ensures Exec(s, Times(4, By(t, Close(bounded))))
            == Goto(s, t, Unlocked(Onward(bounded || s.strict))).(closing := true, waiters := {}, sealed := true)
  {
    hide Step, Exec, Times, Onward;
    var b, op := bounded || s.strict, Close(bounded);
    var s1 := Goto(s, t, Unlocked(SealEnter(b))).(closing := true);
    var s2 := Goto(s, t, InCond(SealNotify(b))).(closing := true, cond := Some(t));
    var s3 := Goto(s, t, InCond(Leave(Onward(b)))).(closing := true, cond := Some(t), waiters := {}, sealed := true);
    var s4 := Goto(s, t, Unlocked(Onward(b))).(closing := true, waiters := {}, sealed := true);
    ShutsGate(s, t, bounded);
    EntersSeal(s1, t, b, op);
    NotifiesSealed(s2, t, b, op);
    LeavesSeal(s3, t, Onward(b), op);
    assert s1.threads[t := InCond(SealNotify(b))] == s2.threads;
    assert s2.threads[t := InCond(Leave(Onward(b)))] == s3.threads;
    assert s3.threads[t := Unlocked(Onward(b))] == s4.threads;
    FourSteps(s, By(t, op), s1, s2, s3, s4);
  }

  // ------------------------------------------------------------------------- one slot

  /** A pass at slot `j`. With a deadline it remembers whether a slot was in use. */
  function At(bounded: bool, j: nat, pending: bool): Loose {
    if bounded then DrainScan(j, pending) else CloseScan(j)
  }

  /** Where a pass goes that finds a quarantined slot. */
  function Stop(bounded: bool): Loose { if bounded then DrainLeave else Outside }

  /** The slot is in use. */
  predicate Busy(slot: Slot) { slot.holder != Free || slot.state in {Acquired, Creating, Closing} }

  predicate AtSlot(s: State, t: nat, bounded: bool, j: nat, pending: bool) {
    t < |s.threads| && s.threads[t] == Unlocked(At(bounded, j, pending)) && j < |s.slots|
  }

  lemma SkipsLocked(s: State, t: nat, bounded: bool, j: nat, pending: bool, op: Op)
    requires AtSlot(s, t, bounded, j, pending) && s.slots[j].holder != Free
    ensures Exec(s, Times(1, By(t, op))) == Goto(s, t, Unlocked(At(bounded, j + 1, true)))
  {
    hide Exec, Times;
    OneStep(s, By(t, op));
  }

  function Looking(bounded: bool, pending: bool): Work { if bounded then DrainLook(pending) else CloseLook }

  lemma Locks(s: State, t: nat, bounded: bool, j: nat, pending: bool, op: Op)
    requires AtSlot(s, t, bounded, j, pending) && s.slots[j].holder == Free
    ensures Step(s, By(t, op))
            == SetSlot(s, t, j, s.slots[j].(holder := ByThread(t)), OnSlot(j, Looking(bounded, pending)))
  {
  }

  /** What is to be done about a slot that has been looked at. */
  function Due(state: SlotState, bounded: bool, j: nat, pending: bool): Work {
    match state
    case Idle => DisposeMark(At(bounded, j + 1, pending), Stop(bounded))
    case Quarantined => Unlock(Stop(bounded))
    case Acquired | Creating | Closing => Unlock(At(bounded, j + 1, true))
    case Empty | Closed => Unlock(At(bounded, j + 1, pending))
  }

  lemma Looks(s: State, t: nat, bounded: bool, j: nat, pending: bool, op: Op)
    requires t < |s.threads| && s.threads[t] == OnSlot(j, Looking(bounded, pending)) && j < |s.slots|
    ensures Step(s, By(t, op)) == Goto(s, t, OnSlot(j, Due(s.slots[j].state, bounded, j, pending)))
  {
  }

  lemma LocksAndLooks(s: State, t: nat, bounded: bool, j: nat, pending: bool, op: Op)
    requires AtSlot(s, t, bounded, j, pending) && s.slots[j].holder == Free
    ensures Exec(s, Times(2, By(t, op)))
            == SetSlot(s, t, j, s.slots[j].(holder := ByThread(t)),
                       OnSlot(j, Due(s.slots[j].state, bounded, j, pending)))
  {
    hide Step, Exec, Times, Goto, SetSlot, Due, Looking;
    var slot, look := s.slots[j].(holder := ByThread(t)), OnSlot(j, Looking(bounded, pending));
    var due := OnSlot(j, Due(s.slots[j].state, bounded, j, pending));
    SlotSet(s, t, j, slot, look, due);
    Locks(s, t, bounded, j, pending, op);
    Looks(SetSlot(s, t, j, slot, look), t, bounded, j, pending, op);
    TwoSteps(s, By(t, op), SetSlot(s, t, j, slot, look), SetSlot(s, t, j, slot, due));
  }

  lemma UnlockStep(s: State, t: nat, j: nat, k: Loose, c: Choice)
    requires t < |s.threads| && s.threads[t] == OnSlot(j, Unlock(k)) && j < |s.slots|
    ensures Step(s, Run(t, c)) == SetSlot(s, t, j, s.slots[j].(holder := Free), Unlocked(k))
  {
  }

  /** An unlocked slot that is not idle is looked at and left. */
  lemma Leaves(s: State, t: nat, bounded: bool, j: nat, pending: bool, k: Loose, op: Op)
    requires AtSlot(s, t, bounded, j, pending) && s.slots[j].holder == Free
    requires Due(s.slots[j].state, bounded, j, pending) == Unlock(k)
    ensures Exec(s, Times(2, By(t, op)) + Times(1, By(t, op))) == Goto(s, t, Unlocked(k))
  {
    hide Step, Exec, Times, Due;
    var e := By(t, op);
    LocksAndLooks(s, t, bounded, j, pending, op);
    var s2 := Exec(s, Times(2, e));
    UnlockStep(s2, t, j, k, Calls(op));
    OneStep(s2, e);
    ExecConcat(s, Times(2, e), Times(1, e));
    assert s2.slots[j := s.slots[j]] == s.slots;
    assert s2.threads[t := Unlocked(k)] == s.threads[t := Unlocked(k)];
  }

  /** An idle one is disposed of. */
  lemma Closes(s: State, t: nat, bounded: bool, j: nat, pending: bool, conn: nat, op: Op)
    requires AtSlot(s, t, bounded, j, pending) && s.slots[j].holder == Free
    requires s.slots[j].state == Idle && s.slots[j].conn == Some(conn)
    ensures Exec(s, Times(2, By(t, op)) + Disposal(By(t, op)))
            == SetSlot(s, t, j, s.slots[j].(state := Closed), Unlocked(At(bounded, j + 1, pending)))
                 .(closed := s.closed + {conn})
  {
    hide Step, Exec, Times, Disposal, At, Stop;
    var e, k := By(t, op), At(bounded, j + 1, pending);
    LocksAndLooks(s, t, bounded, j, pending, op);
    var s2 := Exec(s, Times(2, e));
    DisposesAs(s2, t, j, conn, k, Stop(bounded), Calls(op));
    ExecConcat(s, Times(2, e), Disposal(e));
    assert s2.threads[t := Unlocked(k)] == s.threads[t := Unlocked(k)];
    assert s2.slots[j := s.slots[j].(state := Closed)] == s.slots[j := s.slots[j].(state := Closed)];
  }

  // ------------------------------------------------------------------------- one pass

  /** An unlocked idle slot with this connection. */
  predicate IdleWith(slots: seq<Slot>, k: nat, c: nat) {
    k < |slots| && slots[k].holder == Free && slots[k].state == Idle && slots[k].conn == Some(c)
  }

  /** From slot `j` on below slot `i` every unlocked idle slot has been closed with its connection, and
      no other slot and no other connection is touched. */
  ghost predicate Emptied(s: State, s': State, j: nat, i: nat) {
    && |s'.slots| == |s.slots|
    && (forall k: nat :: k < |s.slots| ==>
          s'.slots[k] == if j <= k < i && s.slots[k].holder == Free && s.slots[k].state == Idle
                         then s.slots[k].(state := Closed) else s.slots[k])
    && (forall c: nat :: c in s'.closed <==> c in s.closed || exists k: nat :: j <= k < i && IdleWith(s.slots, k, c))
  }

  ghost predicate InUse(s: State, j: nat, i: nat) {
    exists k: nat :: j <= k < i && k < |s.slots| && Busy(s.slots[k])
  }

  /** A pass has come from slot `j` to slot `i`. */
  ghost predicate Passed(s: State, s': State, t: nat, bounded: bool, j: nat, i: nat, pending: bool, after: bool) {
    && t < |s.threads| && Emptied(s, s', j, i)
    && s' == s.(threads := s.threads[t := Unlocked(At(bounded, i, after))], slots := s'.slots, closed := s'.closed)
    && (after <==> pending || InUse(s, j, i))
  }

  /** Slots that a pass gets over: every connection it finds idle is there to be closed. */
  predicate Passable(slot: Slot) {
    slot.holder == Free ==> slot.state != Quarantined && (slot.state == Idle ==> slot.conn.Some?)
  }

  lemma OnePassed(s: State, s': State, t: nat, bounded: bool, j: nat, pending: bool)
    requires t < |s.threads| && j < |s.slots| && Passable(s.slots[j])
    requires var closes := s.slots[j].holder == Free && s.slots[j].state == Idle;
             s' == s.(threads := s.threads[t := Unlocked(At(bounded, j + 1, pending || Busy(s.slots[j])))],
                      slots := if closes then s.slots[j := s.slots[j].(state := Closed)] else s.slots,
                      closed := if closes then s.closed + {s.slots[j].conn.value} else s.closed)
    ensures Passed(s, s', t, bounded, j, j + 1, pending, pending || Busy(s.slots[j]))
  {
    assert InUse(s, j, j + 1) <==> Busy(s.slots[j]);
    forall c: nat
      ensures c in s'.closed <==> c in s.closed || exists k: nat :: j <= k < j + 1 && IdleWith(s.slots, k, c) {
      assert c in s'.closed <==> c in s.closed || IdleWith(s.slots, j, c);
    }
  }

  lemma PassesOne(s: State, t: nat, bounded: bool, j: nat, pending: bool, op: Op)
    returns (run: seq<Event>, after: bool)
    requires AtSlot(s, t, bounded, j, pending) && Passable(s.slots[j])
    ensures Alone(run, By(t, op)) && Passed(s, Exec(s, run), t, bounded, j, j + 1, pending, after)
  {
    hide Step, Exec, Passed, At;
    var e, slot := By(t, op), s.slots[j];
    after := pending || Busy(slot);
    if slot.holder != Free {
      SkipsLocked(s, t, bounded, j, pending, op);
      run := Times(1, e);
    } else if slot.state == Idle {
      Closes(s, t, bounded, j, pending, slot.conn.value, op);
      run := Times(2, e) + Disposal(e);
    } else {
      Leaves(s, t, bounded, j, pending, At(bounded, j + 1, after), op);
      run := Times(2, e) + Times(1, e);
    }
    OnePassed(s, Exec(s, run), t, bounded, j, pending);
  }

  lemma EmptiedOn(s: State, s1: State, s2: State, j: nat, i: nat)
    requires Emptied(s, s1, j, j + 1) && Emptied(s1, s2, j + 1, i) && j < i
    ensures Emptied(s, s2, j, i)
  {
    forall c: nat
      ensures c in s2.closed <==> c in s.closed || exists k: nat :: j <= k < i && IdleWith(s.slots, k, c) {
      forall k: nat | j + 1 <= k < i ensures IdleWith(s1.slots, k, c) <==> IdleWith(s.slots, k, c) {
        assert k < |s.slots| ==> s1.slots[k] == s.slots[k];
      }
      assert c in s1.closed <==> c in s.closed || IdleWith(s.slots, j, c);
    }
  }

  lemma PassedOn(s: State, s1: State, s2: State, t: nat, bounded: bool, j: nat, i: nat, p: bool, p1: bool, p2: bool)
    requires Passed(s, s1, t, bounded, j, j + 1, p, p1) && Passed(s1, s2, t, bounded, j + 1, i, p1, p2) && j < i
    ensures Passed(s, s2, t, bounded, j, i, p, p2)
  {
    EmptiedOn(s, s1, s2, j, i);
    assert s1.threads[t := Unlocked(At(bounded, i, p2))] == s.threads[t := Unlocked(At(bounded, i, p2))];
    forall k: nat | j + 1 <= k < |s.slots| ensures s1.slots[k] == s.slots[k] {
    }
    assert InUse(s, j, i) <==> InUse(s, j, j + 1) || InUse(s1, j + 1, i);
  }

  lemma {:induction false} Passes(s: State, t: nat, bounded: bool, j: nat, i: nat, pending: bool, op: Op)
    returns (run: seq<Event>, after: bool)
    requires t < |s.threads| && s.threads[t] == Unlocked(At(bounded, j, pending)) && j <= i <= |s.slots|
    requires forall k: nat :: j <= k < i ==> Passable(s.slots[k])
    ensures Alone(run, By(t, op)) && Passed(s, Exec(s, run), t, bounded, j, i, pending, after)
    decreases i - j
  {
    hide Step, Passable, At, Busy;
    if j == i {
      run, after := [], pending;
      assert s.threads[t := Unlocked(At(bounded, j, pending))] == s.threads;
    } else {
      var first, p1 := PassesOne(s, t, bounded, j, pending, op);
      var s1 := Exec(s, first);
      var rest;
      rest, after := Passes(s1, t, bounded, j + 1, i, p1, op);
      run := first + rest;
      ExecConcat(s, first, rest);
      PassedOn(s, s1, Exec(s, run), t, bounded, j, i, pending, p1, after);
    }
  }

  // ------------------------------------------------------------------- whole closes

  lemma LegacyEnds(s: State, t: nat, op: Op)
    requires t < |s.threads| && s.threads[t] == Unlocked(CloseScan(|s.slots|))
    ensures Exec(s, Times(1, By(t, op))) == Goto(s, t, Unlocked(Outside))
  {
    hide Exec, Times;
    OneStep(s, By(t, op));
  }

  /** `q` is the first slot that ends a pass, or the number of slots. */
  predicate Upto(s: State, q: nat) {
    && q <= |s.slots| && (forall k: nat :: k < q ==> Passable(s.slots[k]))
    && (q < |s.slots| ==> s.slots[q].holder == Free && s.slots[q].state == Quarantined)
  }

  /** `close()` of a legacy provider, alone: every unlocked idle slot below the first unlocked
      quarantined one is closed with its connection, no other slot is touched, the gate is shut and
      nobody waits. */
  lemma LegacyCloseCloses(s: State, t: nat, q: nat) returns (run: seq<Event>)
    requires Quiet(s, t) && !s.strict && Upto(s, q)
    ensures Alone(run, By(t, Close(false)))
    ensures var s' := Exec(s, run);
            && Emptied(s, s', 0, q)
            && s' == s.(slots := s'.slots, closed := s'.closed, closing := true, sealed := true, waiters := {})
  {
    hide Step, Exec, Passable, Emptied;
    var e, op := By(t, Close(false)), Close(false);
    Seals(s, t, false);
    var s4 := Exec(s, Times(4, e));
    var pass, p := Passes(s4, t, false, 0, q, false, op);
    var s5 := Exec(s4, pass);
    var last := if q == |s.slots| then Times(1, e) else Times(2, e) + Times(1, e);
    if q == |s.slots| {
      SameLength(s4, s5, q);
      LegacyEnds(s5, t, op);
    } else {
      SameAt(s4, s5, q);
      Leaves(s5, t, false, q, p, Outside, op);
    }
    run := Times(4, e) + pass + last;
    ExecConcat(s, Times(4, e), pass);
    ExecConcat(s, Times(4, e) + pass, last);
    assert Exec(s5, last).threads == s.threads;
    SameSlots(s, s4, Exec(s, run), s5, q);
  }

  lemma SameLength(s: State, s': State, q: nat)
    requires Emptied(s, s', 0, q)
    ensures |s'.slots| == |s.slots|
  {
  }

  lemma SameAt(s: State, s': State, q: nat)
    requires Emptied(s, s', 0, q) && q < |s.slots|
    ensures |s'.slots| == |s.slots| && s'.slots[q] == s.slots[q]
  {
  }

  lemma SameSlots(s: State, s1: State, s': State, s2: State, q: nat)
    requires Emptied(s1, s2, 0, q) && s1.slots == s.slots && s1.closed == s.closed
    requires s'.slots == s2.slots && s'.closed == s2.closed
    ensures Emptied(s, s', 0, q)
  {
  }

  lemma DrainBegins(s: State, t: nat, op: Op)
    requires t < |s.threads| && s.threads[t] == Unlocked(DrainTop)
    ensures Exec(s, Times(1, By(t, op))) == Goto(s, t, Unlocked(DrainScan(0, false)))
  {
    hide Exec, Times;
    OneStep(s, By(t, op));
  }

  /** After a pass over all slots. */
  lemma DrainEnds(s: State, t: nat, pending: bool, op: Op)
    requires t < |s.threads| && s.threads[t] == Unlocked(DrainScan(|s.slots|, pending))
    ensures Exec(s, Times(2, By(t, op)))
            == if pending then Goto(s, t, Unlocked(DrainTop)) else Goto(s, t, Unlocked(DrainLeave)).(drained := true)
  {
    hide StartStep, WaitStep, EnterStep, BorrowStep, InsideStep, BothStep, FinishStep, DisposeStep, StrictStep,
      LookStep, Exec, Times;
    var s1 := Goto(s, t, Unlocked(DrainEnd(pending)));
    var k := if pending then DrainTop else DrainLeave;
    assert s1.threads[t := Unlocked(k)] == s.threads[t := Unlocked(k)];
    TwoSteps(s, By(t, op), s1, Step(s1, By(t, op)));
  }

  lemma OverStep(s: State, t: nat, c: Choice)
    requires t < |s.threads| && s.threads[t] == Unlocked(DrainLeave)
    ensures Step(s, Run(t, c)) == Goto(s, t, Unlocked(Outside)).(drainLock := false)
  {
  }

  /** At a quarantined slot, or after the last one. */
  lemma PassEnds(s: State, t: nat, q: nat, pending: bool, op: Op) returns (run: seq<Event>)
    requires t < |s.threads| && s.threads[t] == Unlocked(DrainScan(q, pending)) && q <= |s.slots|
    requires q < |s.slots| ==> s.slots[q].holder == Free && s.slots[q].state == Quarantined
    ensures Alone(run, By(t, op))
    ensures Exec(s, run) == Goto(s, t, Unlocked(if q == |s.slots| && pending then DrainTop else DrainLeave))
                              .(drained := s.drained || (q == |s.slots| && !pending))
  {
    hide Step, Exec;
    if q == |s.slots| {
      DrainEnds(s, t, pending, op);
      run := Times(2, By(t, op));
    } else {
      Leaves(s, t, true, q, pending, DrainLeave, op);
      run := Times(2, By(t, op)) + Times(1, By(t, op));
    }
  }

  /** A pass of `_drain`, up to what it decides: a quarantined slot ends the close, a slot in use asks
      for another pass, and otherwise the inventory is drained. */
  lemma DrainOnce(s: State, t: nat, q: nat, op: Op) returns (run: seq<Event>)
    requires t < |s.threads| && s.threads[t] == Unlocked(DrainTop) && Upto(s, q)
    ensures Alone(run, By(t, op))
    ensures var s' := Exec(s, run);
            var whole, used := q == |s.slots|, InUse(s, 0, q);
            && Emptied(s, s', 0, q)
            && s' == s.(threads := s.threads[t := Unlocked(if whole && used then DrainTop else DrainLeave)],
                        slots := s'.slots, closed := s'.closed, drained := s.drained || (whole && !used))
  {
    hide Step, Exec, Passable, Emptied, InUse;
    var e := By(t, op);
    DrainBegins(s, t, op);
    var s1 := Exec(s, Times(1, e));
    var pass, p := Passes(s1, t, true, 0, q, false, op);
    var s2 := Exec(s1, pass);
    SameUse(s, s1, q);
    SameLength(s1, s2, q);
    if q < |s.slots| { SameAt(s1, s2, q); }
    var next := PassEnds(s2, t, q, p, op);
    run := Times(1, e) + pass + next;
    ExecConcat(s, Times(1, e), pass);
    ExecConcat(s, Times(1, e) + pass, next);
    var k := Unlocked(if q == |s.slots| && p then DrainTop else DrainLeave);
    assert s2.threads[t := k] == s.threads[t := k];
    SameSlots(s, s1, Exec(s, run), s2, q);
  }

  lemma SameUse(s: State, s1: State, q: nat)
    requires s1.slots == s.slots
    ensures InUse(s1, 0, q) == InUse(s, 0, q)
  {
  }

  lemma DrainEnters(s: State, t: nat, op: Op)
    requires t < |s.threads| && s.threads[t] == Unlocked(DrainEnter) && !s.drainLock
    ensures Exec(s, Times(1, By(t, op))) == Goto(s, t, Unlocked(DrainTop)).(drainLock := true)
  {
    hide Exec, Times;
    OneStep(s, By(t, op));
  }

  /** One pass, and the end of the close unless another pass is due. */
  lemma DrainPass(s: State, t: nat, q: nat, op: Op) returns (run: seq<Event>)
    requires t < |s.threads| && s.threads[t] == Unlocked(DrainTop) && s.drainLock && Upto(s, q)
    ensures Alone(run, By(t, op))
    ensures var s' := Exec(s, run);
            var whole, used := q == |s.slots|, InUse(s, 0, q);
            && Emptied(s, s', 0, q)
            && s' == s.(threads := s.threads[t := Unlocked(if whole && used then DrainTop else Outside)],
                        slots := s'.slots, closed := s'.closed, drained := s.drained || (whole && !used),
                        drainLock := whole && used)
  {
    hide Step, Exec, Passable, Emptied, InUse;
    var e := By(t, op);
    run := DrainOnce(s, t, q, op);
    if q < |s.slots| || !InUse(s, 0, q) {
      var s1 := Exec(s, run);
      OverStep(s1, t, Calls(op));
      OneStep(s1, e);
      ExecConcat(s, run, Times(1, e));
      run := run + Times(1, e);
      assert s1.threads[t := Unlocked(Outside)] == s.threads[t := Unlocked(Outside)];
      SameSlots(s, s, Exec(s, run), s1, q);
    }
  }

  /** `close(deadline=...)`, and any close of a strict provider, alone and in time: the gate is shut,
      nobody waits, and the slots are gone through. The close is over with the inventory drained when no
      slot is in use, and over without that at a quarantined slot; otherwise it is about to go through
      the slots again. */
  lemma CloseDrains(s: State, t: nat, q: nat, bounded: bool) returns (run: seq<Event>)
    requires Quiet(s, t) && !s.drainLock && (bounded || s.strict) && Upto(s, q)
    ensures Alone(run, By(t, Close(bounded)))
    ensures var s' := Exec(s, run);
            var whole, used := q == |s.slots|, InUse(s, 0, q);
            && Emptied(s, s', 0, q)
            && s' == s.(threads := if whole && used then s.threads[t := Unlocked(DrainTop)] else s.threads,
                        slots := s'.slots, closed := s'.closed, closing := true, sealed := true, waiters := {},
                        drainLock := whole && used, drained := s.drained || (whole && !used))
  {
    hide Step, Exec, Passable, Emptied, InUse;
    var e, op := By(t, Close(bounded)), Close(bounded);
    Seals(s, t, bounded);
    var s4 := Exec(s, Times(4, e));
    DrainEnters(s4, t, op);
    var s5 := Exec(s4, Times(1, e));
    var pass := DrainPass(s5, t, q, op);
    run := Times(4, e) + Times(1, e) + pass;
    ExecConcat(s, Times(4, e), Times(1, e));
    ExecConcat(s, Times(4, e) + Times(1, e), pass);
    SameUse(s, s5, q);
    SameSlots(s, s5, Exec(s, run), Exec(s5, pass), q);
    assert s5.threads[t := Unlocked(Outside)] == s.threads;
    assert s5.threads == s.threads[t := Unlocked(DrainTop)];
  }

  /** A slot whose close is not proved is quarantined, and ends the close. */
  lemma FailedCloseEnds(s: State, t: nat, bounded: bool, j: nat, pending: bool, conn: nat, op: Op, c: Choice)
    returns (a: seq<Event>, b: seq<Event>)
    requires AtSlot(s, t, bounded, j, pending) && s.slots[j].holder == Free
    requires s.slots[j].state == Idle && s.slots[j].conn == Some(conn) && Ending(s.closed, conn, c) == Quarantined
    ensures Alone(a, By(t, op)) && Alone(b, Run(t, c))
    ensures Exec(s, a + b)
            == s.(threads := s.threads[t := Unlocked(Outside)],
                  slots := s.slots[j := s.slots[j].(state := Quarantined)], closed := ClosedBy(s.closed, conn, c),
                  drainLock := s.drainLock && !bounded)
  {
    hide Step, Exec, Disposal, At, Ending, ClosedBy;
    var e, k := Run(t, c), At(bounded, j + 1, pending);
    LocksAndLooks(s, t, bounded, j, pending, op);
    a := Times(2, By(t, op));
    var s2 := Exec(s, a);
    DisposesAs(s2, t, j, conn, k, Stop(bounded), c);
    b := Disposal(e);
    IsDisposal(e);
    ExecConcat(s, a, b);
    var s7 := Exec(s2, b);
    assert s7.slots == s.slots[j := s.slots[j].(state := Quarantined)];
    assert s7.threads == s.threads[t := Unlocked(Stop(bounded))];
    if bounded {
      OverStep(s7, t, c);
      OneStep(s7, e);
      ExecConcat(s2, b, Times(1, e));
      b := b + Times(1, e);
      ExecConcat(s, a, b);
      assert s7.threads[t := Unlocked(Outside)] == s.threads[t := Unlocked(Outside)];
    }
  }

  lemma IsDisposal(e: Event)
    ensures Alone(Disposal(e), e)
  {
  }

  // ------------------------------------------------------------------------- too late

  /** A close that does not get to the barrier in time has shut the gate, and done nothing else. */
  lemma CloseLate(s: State, t: nat, bounded: bool, c: Choice)
    requires Quiet(s, t) && (bounded || s.strict) && c.op == Close(bounded) && c.expired
    ensures Exec(s, Times(2, Run(t, c))) == s.(closing := true)
  {
    hide PassStep, DrainStep, BorrowStep, InsideStep, BothStep, FinishStep, DisposeStep, StrictStep, LookStep, Exec,
      Times;
    var s1 := Goto(s, t, Unlocked(SealEnter(true))).(closing := true);
    assert s1.threads[t := Unlocked(Outside)] == s.threads;
    TwoSteps(s, Run(t, c), s1, s.(closing := true));
  }

  /** While another thread drains a closer stands still, until its time is up. */
  lemma DrainBusy(s: State, t: nat, c: Choice)
    requires t < |s.threads| && s.threads[t] == Unlocked(DrainEnter)
    requires s.drainLock || c.expired
    ensures Step(s, Run(t, c)) == if c.expired then Goto(s, t, Unlocked(Outside)) else s
  {
  }

  /** A drain whose time is up between two passes, or at the end of one, is over. */
  lemma DrainLate(s: State, t: nat, pending: bool, c: Choice)
    requires t < |s.threads| && s.threads[t] in {Unlocked(DrainTop), Unlocked(DrainEnd(pending))} && c.expired
    ensures Exec(s, Times(2, Run(t, c))) == Goto(s, t, Unlocked(Outside)).(drainLock := false)
  {
    hide StartStep, WaitStep, EnterStep, PassStep, BorrowStep, InsideStep, BothStep, FinishStep, DisposeStep,
      StrictStep, LookStep, Exec, Times;
    var s1 := Goto(s, t, Unlocked(DrainLeave));
    assert s1.threads[t := Unlocked(Outside)] == s.threads[t := Unlocked(Outside)];
    TwoSteps(s, Run(t, c), s1, Goto(s, t, Unlocked(Outside)).(drainLock := false));
  }

  lemma LateLook(s: State, t: nat, j: nat, pending: bool, c: Choice)
    requires t < |s.threads| && s.threads[t] == OnSlot(j, DrainLook(pending)) && j < |s.slots| && c.expired
    requires s.slots[j].state == Idle
    ensures Step(s, Run(t, c)) == Goto(s, t, OnSlot(j, Unlock(DrainLeave)))
  {
  }

  /** And one whose time is up at an idle slot leaves that slot as it is. */
  lemma LookLate(s: State, t: nat, j: nat, pending: bool, c: Choice)
    requires t < |s.threads| && s.threads[t] == OnSlot(j, DrainLook(pending)) && j < |s.slots| && c.expired
    requires s.slots[j].state == Idle
    ensures Exec(s, Times(3, Run(t, c)))
            == SetSlot(s, t, j, s.slots[j].(holder := Free), Unlocked(Outside)).(drainLock := false)
  {
    hide Step, Exec, Times;
    var s1 := Goto(s, t, OnSlot(j, Unlock(DrainLeave)));
    var s2 := SetSlot(s, t, j, s.slots[j].(holder := Free), Unlocked(DrainLeave));
    var s3 := SetSlot(s, t, j, s.slots[j].(holder := Free), Unlocked(Outside)).(drainLock := false);
    LateLook(s, t, j, pending, c);
    UnlockStep(s1, t, j, DrainLeave, c);
    OverStep(s2, t, c);
    assert s1.threads[t := Unlocked(DrainLeave)] == s2.threads && s2.threads[t := Unlocked(Outside)] == s3.threads;
    ThreeSteps(s, Run(t, c), s1, s2, s3);
  }
}
