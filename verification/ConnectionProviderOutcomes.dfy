/**
  How an acquire or a release ends that does not simply succeed: it is refused, it waits, its time is
  up, its connection turns out to be lost, or a native call fails.
*/
module ConnectionProviderOutcomes {
  import opened Wrappers
  import opened ConnectionProvider
  import opened ConnectionProviderCalls

  // ------------------------------------------------------------------- refused and waiting

  /** A provider that is closing refuses an acquire. */
  lemma AcquireRefused(s: State, t: nat, c: Choice)
    requires Quiet(s, t) && s.closing && c.op == Borrow
    ensures Exec(s, Times(2, Run(t, c))) == s
  {
    hide EnterStep, PassStep, DrainStep, BorrowStep, InsideStep, BothStep, FinishStep, DisposeStep, StrictStep,
      LookStep, Exec, Times;
    var s1 := Goto(s, t, Unlocked(BorrowTop));
    assert Goto(s1, t, Unlocked(Outside)).threads == s.threads;
    TwoSteps(s, Run(t, c), s1, s);
  }

  /** An acquire that does not get the Condition in time changes nothing. */
  lemma AcquireLate(s: State, t: nat, c: Choice)
    requires Quiet(s, t) && !s.closing && c.op == Borrow && c.expired
    ensures Exec(s, Times(3, Run(t, c))) == s
  {
    hide PassStep, DrainStep, BorrowStep, InsideStep, BothStep, FinishStep, DisposeStep, StrictStep, LookStep, Exec,
      Times;
    var s1, s2 := Goto(s, t, Unlocked(BorrowTop)), Goto(s, t, Unlocked(BorrowEnter));
    assert Goto(s2, t, Unlocked(Outside)).threads == s.threads;
    ThreeSteps(s, Run(t, c), s1, s2, s);
  }

  /** The gate is looked at again under the Condition, and by a strict acquire the time. */
  lemma RefusedInside(s: State, t: nat, c: Choice)
    requires t < |s.threads| && s.threads[t] == InCond(BorrowCheck) && (s.closing || (s.strict && c.expired))
    ensures Exec(s, Times(2, Run(t, c))) == Goto(s, t, Unlocked(Outside)).(cond := None)
  {
    hide StartStep, WaitStep, EnterStep, PassStep, DrainStep, BothStep, FinishStep, DisposeStep, StrictStep,
      LookStep, Exec, Times;
    var s1 := Goto(s, t, InCond(Leave(Outside)));
    assert s1.threads[t := Unlocked(Outside)] == s.threads[t := Unlocked(Outside)];
    TwoSteps(s, Run(t, c), s1, Goto(s, t, Unlocked(Outside)).(cond := None));
  }

  /** Nothing was found by a legacy acquire: it waits, unless its time is up. */
  lemma NothingFound(s: State, t: nat, c: Choice)
    requires t < |s.threads| && s.threads[t] == InCond(BorrowScan(true, |s.slots|)) && !s.strict && !c.expired
    ensures Exec(s, Times(2, Run(t, c)))
            == Goto(s, t, Unlocked(BorrowParked)).(cond := None, waiters := s.waiters + {t})
  {
    hide StartStep, WaitStep, EnterStep, PassStep, DrainStep, InsideStep, BothStep, FinishStep, DisposeStep,
      StrictStep, LookStep, Exec, Times;
    var s1 := Goto(s, t, InCond(BorrowNone));
    assert s1.threads[t := Unlocked(BorrowParked)] == s.threads[t := Unlocked(BorrowParked)];
    TwoSteps(s, Run(t, c), s1, Goto(s, t, Unlocked(BorrowParked)).(cond := None, waiters := s.waiters + {t}));
  }

  lemma NothingInTime(s: State, t: nat, c: Choice)
    requires t < |s.threads| && s.threads[t] == InCond(BorrowScan(true, |s.slots|)) && !s.strict && c.expired
    ensures Exec(s, Times(3, Run(t, c))) == Goto(s, t, Unlocked(Outside)).(cond := None)
  {
    hide StartStep, WaitStep, EnterStep, PassStep, DrainStep, BothStep, FinishStep, DisposeStep, StrictStep,
      LookStep, Exec, Times;
    var s1, s2 := Goto(s, t, InCond(BorrowNone)), Goto(s, t, InCond(Leave(Outside)));
    assert s1.threads[t := InCond(Leave(Outside))] == s2.threads;
    assert s2.threads[t := Unlocked(Outside)] == s.threads[t := Unlocked(Outside)];
    ThreeSteps(s, Run(t, c), s1, s2, Goto(s, t, Unlocked(Outside)).(cond := None));
  }

  /** `acquire`, alone, when no unlocked slot can be lent or opened: the caller waits to be notified, or
      is told that its time is up, and nothing else has changed. */
  lemma AcquireWaits(s: State, t: nat, c: Choice) returns (a: seq<Event>, b: seq<Event>)
    requires Quiet(s, t) && !s.closing && !s.strict
    requires forall k: nat :: k < |s.slots| ==> Skipped(s.slots[k], false) && Skipped(s.slots[k], true)
    ensures Alone(a, By(t, Borrow)) && Alone(b, Run(t, c))
    ensures Exec(s, a + b)
            == if c.expired then s
               else s.(threads := s.threads[t := Unlocked(BorrowParked)], waiters := s.waiters + {t})
  {
    hide Step, Exec, Skipped;
    var s1, first := BothRounds(s, t);
    var second := ScanTo(s1, t, true, 0, |s.slots|);
    a := first + second;
    ExecConcat(s, first, second);
    var s2 := Exec(s, a);
    assert s2.threads == s.threads[t := InCond(BorrowScan(true, |s.slots|))];
    b := if c.expired then Times(3, Run(t, c)) else Times(2, Run(t, c));
    if c.expired { NothingInTime(s2, t, c); } else { NothingFound(s2, t, c); }
    ExecConcat(s, a, b);
    assert s2.threads[t := Unlocked(Outside)] == s.threads;
    assert s2.threads[t := Unlocked(BorrowParked)] == s.threads[t := Unlocked(BorrowParked)];
  }

  /** A waiter that has been notified, or whose time is up, starts over under no lock. */
  lemma Wakes(s: State, t: nat, c: Choice)
    requires t < |s.threads| && s.threads[t] == Unlocked(BorrowParked) && s.cond == None
    requires t !in s.waiters || c.expired
    ensures Exec(s, Times(3, Run(t, c))) == Goto(s, t, Unlocked(BorrowTop)).(waiters := s.waiters - {t})
  {
    hide StartStep, PassStep, DrainStep, BorrowStep, BothStep, FinishStep, DisposeStep, StrictStep, LookStep, Exec,
      Times;
    var s1 := Goto(s, t, Unlocked(BorrowWake)).(waiters := s.waiters - {t});
    var s2 := Goto(s, t, InCond(Leave(BorrowTop))).(waiters := s.waiters - {t}, cond := Some(t));
    var s3 := Goto(s, t, Unlocked(BorrowTop)).(waiters := s.waiters - {t});
    assert s1.threads[t := InCond(Leave(BorrowTop))] == s2.threads;
    assert s2.threads[t := Unlocked(BorrowTop)] == s3.threads;
    ThreeSteps(s, Run(t, c), s1, s2, s3);
  }

  /** A waiter stands still until then. */
  lemma WaitsOn(s: State, t: nat, c: Choice)
    requires t < |s.threads| && s.threads[t] == Unlocked(BorrowParked) && t in s.waiters && !c.expired
    ensures Step(s, Run(t, c)) == s
  {
  }

  /** A waiter that has been notified and finds an idle slot with an open connection is lent it. */
  lemma WaiterLends(s: State, t: nat, i: nat, conn: nat) returns (run: seq<Event>)
    requires t < |s.threads| && s.threads[t] == Unlocked(BorrowParked) && s.cond == None && t !in s.waiters
    requires !s.closing && !s.strict && i < |s.slots|
    requires forall k: nat :: k < i ==> Skipped(s.slots[k], false)
    requires s.slots[i] == Slot(Free, Idle, s.slots[i].generation, Some(conn)) && conn !in s.closed
    ensures Alone(run, By(t, Borrow))
    ensures Exec(s, run)
            == s.(threads := s.threads[t := Unlocked(Outside)],
                  slots := s.slots[i := Slot(ByLegacyLease, Acquired, s.slots[i].generation + 1, Some(conn))],
                  legacy := s.legacy[conn := i])
  {
    hide Step, Exec, Skipped;
    var e := By(t, Borrow);
    Wakes(s, t, Calls(Borrow));
    var top := Exec(s, Times(3, e));
    var out := s.(threads := s.threads[t := Unlocked(Outside)]);
    var lends := AcquireLends(out, t, i, conn);
    Begins(out, t);
    StartsOver(out, lends);
    assert out.threads[t := Unlocked(BorrowTop)] == s.threads[t := Unlocked(BorrowTop)];
    assert s.waiters - {t} == s.waiters;
    run := Times(3, e) + lends[1..];
    ExecConcat(s, Times(3, e), lends[1..]);
  }

  lemma Begins(s: State, t: nat)
    requires Quiet(s, t)
    ensures Step(s, By(t, Borrow)) == Goto(s, t, Unlocked(BorrowTop))
  {
  }

  lemma StartsOver(s: State, run: seq<Event>)
    requires Exec(s, run) != s
    ensures run != [] && Exec(s, run) == Exec(Step(s, run[0]), run[1..])
  {
    hide Step;
  }

  /** A strict acquire that finds no idle slot rests without a lock, and tries again as long as it may. */
  lemma StrictAcquirePauses(s: State, t: nat, c: Choice) returns (a: seq<Event>, b: seq<Event>)
    requires Quiet(s, t) && !s.closing && s.strict
    requires forall k: nat :: k < |s.slots| ==> Skipped(s.slots[k], false)
    ensures Alone(a, By(t, Borrow)) && Alone(b, Run(t, c))
    ensures Exec(s, a + b)
            == s.(threads := s.threads[t := Unlocked(if c.expired then Outside else BorrowTop)])
  {
    hide Step, Exec, Skipped;
    var e := By(t, Borrow);
    BorrowBegins(s, t);
    var s1 := Exec(s, Times(4, e));
    var scan := ScanTo(s1, t, false, 0, |s.slots|);
    var s2 := Exec(s1, scan);
    Pauses(s2, t);
    a := Times(4, e) + scan + Times(3, e);
    ExecConcat(s, Times(4, e), scan);
    ExecConcat(s, Times(4, e) + scan, Times(3, e));
    var s3 := Exec(s, a);
    assert s3 == s.(threads := s.threads[t := Unlocked(BorrowPause)]) by {
      assert s2.threads[t := Unlocked(BorrowPause)] == s.threads[t := Unlocked(BorrowPause)];
    }
    b := Times(1, Run(t, c));
    Resumes(s3, t, c);
    OneStep(s3, Run(t, c));
    ExecConcat(s, a, b);
    assert forall k: Loose :: s3.threads[t := Unlocked(k)] == s.threads[t := Unlocked(k)];
  }

  lemma Pauses(s: State, t: nat)
    requires t < |s.threads| && s.threads[t] == InCond(BorrowScan(false, |s.slots|)) && s.strict
    ensures Exec(s, Times(3, By(t, Borrow))) == Goto(s, t, Unlocked(BorrowPause)).(cond := None)
  {
    hide StartStep, WaitStep, EnterStep, PassStep, DrainStep, BothStep, FinishStep, DisposeStep, StrictStep,
      LookStep, Exec, Times;
    var s1, s2 := Goto(s, t, InCond(BorrowNone)), Goto(s, t, InCond(Leave(BorrowPause)));
    assert s1.threads[t := InCond(Leave(BorrowPause))] == s2.threads;
    assert s2.threads[t := Unlocked(BorrowPause)] == s.threads[t := Unlocked(BorrowPause)];
    ThreeSteps(s, By(t, Borrow), s1, s2, Goto(s, t, Unlocked(BorrowPause)).(cond := None));
  }

  lemma Resumes(s: State, t: nat, c: Choice)
    requires t < |s.threads| && s.threads[t] == Unlocked(BorrowPause)
    ensures Step(s, Run(t, c)) == Goto(s, t, Unlocked(if c.expired then Outside else BorrowTop))
  {
  }

  // ------------------------------------------------------------------ reserved in vain

  lemma FindsLost(s: State, t: nat, i: nat, conn: nat, c: Choice)
    requires t < |s.threads| && s.threads[t] == OnSlot(i, FinishCheck) && i < |s.slots|
    requires s.slots[i].state == Acquired && s.slots[i].conn == Some(conn) && conn in s.closed
    ensures Step(s, Run(t, c))
            == Goto(s, t, OnSlot(i, Publish(Closed, if s.strict then BorrowTop else NotifyEnter(true))))
  {
  }

  /** An acquire whose reserved connection was lost gives the slot up as closed and starts over; a legacy
      one notifies the waiters of the slot. */
  lemma AcquireDropsLost(s: State, t: nat, i: nat, conn: nat) returns (run: seq<Event>)
    requires Quiet(s, t) && !s.closing && i < |s.slots|
    requires forall k: nat :: k < i ==> Skipped(s.slots[k], false)
    requires s.slots[i] == Slot(Free, Idle, s.slots[i].generation, Some(conn)) && conn in s.closed
    ensures Alone(run, By(t, Borrow))
    ensures Exec(s, run)
            == s.(threads := s.threads[t := Unlocked(BorrowTop)],
                  slots := s.slots[i := Slot(Free, Closed, s.slots[i].generation + 1, Some(conn))],
                  waiters := if s.strict then s.waiters else {})
  {
    hide Step, Exec, Skipped;
    var e, k := By(t, Borrow), if s.strict then BorrowTop else NotifyEnter(true);
    var reserve := ReservesIdle(s, t, i);
    var s1 := Exec(s, reserve);
    FindsLost(s1, t, i, conn, Calls(Borrow));
    OneStep(s1, e);
    var s2 := Exec(s1, Times(1, e));
    PublishesSlot(s2, t, i, Closed, k, Calls(Borrow));
    var s4 := Exec(s2, Times(2, e));
    run := reserve + Times(1, e) + Times(2, e);
    ExecConcat(s, reserve, Times(1, e));
    ExecConcat(s, reserve + Times(1, e), Times(2, e));
    assert s4.threads == s.threads[t := Unlocked(k)];
    assert s4.slots == s.slots[i := Slot(Free, Closed, s.slots[i].generation + 1, Some(conn))];
    if !s.strict {
      Tells(s4, t, true, Calls(Borrow));
      ExecConcat(s, run, Times(3, e));
      run := run + Times(3, e);
      assert s4.threads[t := Unlocked(BorrowTop)] == s.threads[t := Unlocked(BorrowTop)];
    }
  }

  lemma CreateFails(s: State, t: nat, i: nat, c: Choice)
    requires t < |s.threads| && s.threads[t] == OnSlot(i, FinishCheck) && i < |s.slots| && s.slots[i].state == Creating
    requires !c.ok
    ensures Exec(s, Times(2, Run(t, c)))
            == SetSlot(s, t, i, s.slots[i].(conn := None), OnSlot(i, Publish(Empty, NotifyEnter(false))))
  {
    hide StartStep, WaitStep, EnterStep, PassStep, DrainStep, BorrowStep, InsideStep, BothStep, DisposeStep,
      StrictStep, LookStep, Exec, Times;
    var s1, fails := Goto(s, t, OnSlot(i, FinishCreate)), OnSlot(i, Publish(Empty, NotifyEnter(false)));
    assert s1.threads[t := fails] == s.threads[t := fails];
    TwoSteps(s, Run(t, c), s1, SetSlot(s, t, i, s.slots[i].(conn := None), fails));
  }

  /** An acquire that cannot open a connection leaves the slot empty and unlocked, and everybody has been
      notified of it. */
  lemma AcquireFails(s: State, t: nat, i: nat, c: Choice) returns (a: seq<Event>, b: seq<Event>)
    requires Quiet(s, t) && !s.closing && !s.strict && i < |s.slots| && !c.ok
    requires forall k: nat :: k < |s.slots| ==> Skipped(s.slots[k], false)
    requires forall k: nat :: k < i ==> Skipped(s.slots[k], true)
    requires s.slots[i].holder == Free && Wanted(true, s.slots[i].state)
    ensures Alone(a, By(t, Borrow)) && Alone(b, Run(t, c))
    ensures Exec(s, a + b)
            == s.(slots := s.slots[i := Slot(Free, Empty, s.slots[i].generation + 1, None)], waiters := {})
  {
    hide Step, Exec, Skipped;
    var e := Run(t, c);
    a := ReservesEmpty(s, t, i);
    var s1 := Exec(s, a);
    CreateFails(s1, t, i, c);
    var s3 := Exec(s1, Times(2, e));
    PublishesSlot(s3, t, i, Empty, NotifyEnter(false), c);
    var s5 := Exec(s3, Times(2, e));
    Tells(s5, t, false, c);
    b := Times(2, e) + Times(2, e) + Times(3, e);
    ExecConcat(s1, Times(2, e), Times(2, e));
    ExecConcat(s1, Times(2, e) + Times(2, e), Times(3, e));
    ExecConcat(s, a, b);
    assert Exec(s5, Times(3, e)).threads == s.threads;
    assert s5.slots == s.slots[i := Slot(Free, Empty, s.slots[i].generation + 1, None)];
  }

  lemma FindsClosing(s: State, t: nat, i: nat, c: Choice)
    requires t < |s.threads| && s.threads[t] == OnSlot(i, FinishEnter) && s.cond == None && i < |s.slots| && s.closing
    ensures Exec(s, Times(3, Run(t, c))) == Goto(s, t, OnSlot(i, DISCARD))
  {
    hide StartStep, WaitStep, EnterStep, PassStep, DrainStep, BorrowStep, InsideStep, DisposeStep, StrictStep,
      LookStep, Exec, Times;
    var s1 := Goto(s, t, InCondOnSlot(i, FinishLend)).(cond := Some(t));
    var s2 := Goto(s, t, InCondOnSlot(i, LeaveWith(DISCARD))).(cond := Some(t));
    assert s1.threads[t := InCondOnSlot(i, LeaveWith(DISCARD))] == s2.threads;
    assert s2.threads[t := OnSlot(i, DISCARD)] == s.threads[t := OnSlot(i, DISCARD)];
    ThreeSteps(s, Run(t, c), s1, s2, Goto(s, t, OnSlot(i, DISCARD)));
  }

  /** A reservation that meets a close under the Condition is not lent: its connection is disposed of. */
  lemma AcquireMeetsClose(s: State, t: nat, i: nat, conn: nat, c: Choice) returns (run: seq<Event>)
    requires t < |s.threads| && s.threads[t] == OnSlot(i, FinishEnter) && s.cond == None && s.closing
    requires i < |s.slots| && s.slots[i].conn == Some(conn)
    ensures Alone(run, Run(t, c))
    ensures Exec(s, run)
            == s.(threads := s.threads[t := Unlocked(Outside)],
                  slots := s.slots[i := s.slots[i].(holder := Free, state := Ending(s.closed, conn, c))],
                  closed := ClosedBy(s.closed, conn, c), waiters := {})
  {
    hide Step, Exec, Ending, ClosedBy;
    var e := Run(t, c);
    FindsClosing(s, t, i, c);
    var s3 := Exec(s, Times(3, e));
    Discards(s3, t, i, conn, c);
    run := Times(3, e) + (Disposal(e) + Times(3, e));
    ExecConcat(s, Times(3, e), Disposal(e) + Times(3, e));
    assert s3.threads[t := Unlocked(Outside)] == s.threads[t := Unlocked(Outside)];
  }

  /** A strict acquire whose time is up once it has reserved a slot makes the slot idle again. */
  lemma StrictAcquireLate(s: State, t: nat, i: nat, conn: nat, c: Choice) returns (a: seq<Event>, b: seq<Event>)
    requires Quiet(s, t) && !s.closing && s.strict && i < |s.slots| && c.expired
    requires forall k: nat :: k < i ==> Skipped(s.slots[k], false)
    requires s.slots[i] == Slot(Free, Idle, s.slots[i].generation, Some(conn)) && conn !in s.closed
    ensures Alone(a, By(t, Borrow)) && Alone(b, Run(t, c))
    ensures Exec(s, a + b) == s.(slots := s.slots[i := s.slots[i].(generation := s.slots[i].generation + 1)])
  {
    hide Step, Exec, Skipped;
    var e := Run(t, c);
    a := ReservesIdle(s, t, i);
    var s1 := Exec(s, a);
    LeaseLate(s1, t, i, conn, c);
    var s3 := Exec(s1, Times(2, e));
    PublishesSlot(s3, t, i, Idle, Outside, c);
    b := Times(2, e) + Times(2, e);
    ExecConcat(s1, Times(2, e), Times(2, e));
    ExecConcat(s, a, b);
    var s5 := Exec(s3, Times(2, e));
    assert s5.threads == s.threads;
    assert s5.slots == s.slots[i := s.slots[i].(generation := s.slots[i].generation + 1)];
  }

  lemma LeaseLate(s: State, t: nat, i: nat, conn: nat, c: Choice)
    requires t < |s.threads| && s.threads[t] == OnSlot(i, FinishCheck) && i < |s.slots| && s.strict && c.expired
    requires s.slots[i].state == Acquired && s.slots[i].conn == Some(conn) && conn !in s.closed
    ensures Exec(s, Times(2, Run(t, c))) == Goto(s, t, OnSlot(i, Publish(Idle, Outside)))
  {
    hide StartStep, WaitStep, EnterStep, PassStep, DrainStep, BorrowStep, InsideStep, BothStep, DisposeStep,
      StrictStep, LookStep, Exec, Times;
    var s1, late := Goto(s, t, OnSlot(i, FinishLease)), OnSlot(i, Publish(Idle, Outside));
    assert s1.threads[t := late] == s.threads[t := late];
    TwoSteps(s, Run(t, c), s1, Goto(s, t, late));
  }

  // ------------------------------------------------------------------------- releases

  /** A connection that is not lent cannot be released. */
  lemma ReleaseRefused(s: State, t: nat, conn: nat)
    requires Quiet(s, t) && conn !in s.legacy
    ensures Exec(s, Times(2, By(t, Release(conn))) + Times(2, By(t, Release(conn)))) == s
  {
    hide WaitStep, PassStep, DrainStep, BorrowStep, BothStep, FinishStep, DisposeStep, StrictStep, LookStep, Exec,
      Times;
    var e := By(t, Release(conn));
    ReleaseEnters(s, t, conn);
    var s2 := Goto(s, t, InCond(ReleasePop(conn))).(cond := Some(t));
    var s3 := Goto(s, t, InCond(Leave(Outside))).(cond := Some(t));
    assert s2.threads[t := InCond(Leave(Outside))] == s3.threads && s3.threads[t := Unlocked(Outside)] == s.threads;
    TwoSteps(s2, e, s3, s);
    ExecConcat(s, Times(2, e), Times(2, e));
  }

  /** Nor can a lease that is over, that has been superseded, or that another thread holds. */
  lemma StrictReleaseRefused(s: State, t: nat, l: nat, reusable: bool)
    requires Quiet(s, t) && !(LeaseValid(s, l) && s.leases[l].thread == t)
    ensures Step(s, By(t, ReleaseLease(l, reusable))) == s
  {
  }

  /** What a strict release makes of the slot: quarantined when the connection cannot be examined, when
      there is no time left to close it and when its close is not proved; idle when it is to be kept and
      open; closed otherwise. */
  function StrictEnding(closed: set<nat>, conn: nat, reusable: bool, c: Choice): SlotState {
    if reusable && !c.ok then Quarantined
    else if reusable && conn !in closed then Idle
    else if c.expired then Quarantined
    else Ending(closed, conn, c)
  }

  predicate StrictDisposes(closed: set<nat>, conn: nat, reusable: bool, c: Choice) {
    (!reusable || (c.ok && conn in closed)) && !c.expired
  }

  lemma LeaseTaken(s: State, t: nat, l: nat, reusable: bool, c: Choice)
    requires Quiet(s, t) && LeaseValid(s, l) && s.leases[l].thread == t && c.op == ReleaseLease(l, reusable)
    ensures var i := s.leases[l].slot;
            Step(s, Run(t, c)) == SetSlot(s, t, i, s.slots[i].(holder := ByThread(t)), OnSlot(i, StrictCheck(reusable)))
                                    .(leases := s.leases[l := s.leases[l].(active := false)])
  {
  }

  lemma LeaseChecked(s: State, t: nat, i: nat, conn: nat, reusable: bool, c: Choice)
    requires t < |s.threads| && s.threads[t] == OnSlot(i, StrictCheck(reusable)) && i < |s.slots|
    requires s.slots[i].conn == Some(conn)
    ensures Step(s, Run(t, c))
            == Goto(s, t, OnSlot(i, if reusable && (!c.ok || conn !in s.closed)
                                    then Publish(StrictEnding(s.closed, conn, reusable, c), Outside)
                                    else StrictBudget))
  {
  }

  lemma BudgetChecked(s: State, t: nat, i: nat, c: Choice)
    requires t < |s.threads| && s.threads[t] == OnSlot(i, StrictBudget) && i < |s.slots|
    ensures Step(s, Run(t, c))
            == Goto(s, t, OnSlot(i, if c.expired then Publish(Quarantined, Outside) else DisposeMark(Outside, Outside)))
  {
  }

  lemma BudgetEnds(s: State, t: nat, i: nat, conn: nat, c: Choice) returns (run: seq<Event>)
    requires t < |s.threads| && s.threads[t] == OnSlot(i, StrictBudget) && i < |s.slots|
    requires s.slots[i].conn == Some(conn)
    ensures Alone(run, Run(t, c))
    ensures var state := if c.expired then Quarantined else Ending(s.closed, conn, c);
            Exec(s, run)
            == s.(threads := s.threads[t := Unlocked(Outside)],
                  slots := s.slots[i := s.slots[i].(holder := Free, state := state)],
                  closed := if c.expired then s.closed else ClosedBy(s.closed, conn, c))
  {
    hide Step, Exec, Ending, ClosedBy;
    var e := Run(t, c);
    BudgetChecked(s, t, i, c);
    OneStep(s, e);
    var s1 := Exec(s, Times(1, e));
    var last := if c.expired then Times(2, e) else Disposal(e);
    if c.expired {
      PublishesSlot(s1, t, i, Quarantined, Outside, c);
    } else {
      DisposesAs(s1, t, i, conn, Outside, Outside, c);
    }
    run := Times(1, e) + last;
    ExecConcat(s, Times(1, e), last);
    assert s1.threads[t := Unlocked(Outside)] == s.threads[t := Unlocked(Outside)];
  }

  lemma DueEnding(closed: set<nat>, conn: nat, reusable: bool, c: Choice)
    ensures if reusable && (!c.ok || conn !in closed) then !StrictDisposes(closed, conn, reusable, c)
            else StrictDisposes(closed, conn, reusable, c) == !c.expired
                 && StrictEnding(closed, conn, reusable, c)
                    == if c.expired then Quarantined else Ending(closed, conn, c)
  {
  }

  /** The end of a strict release, once its slot is in the hands of thread `t`. */
  lemma StrictEnds(s: State, t: nat, i: nat, conn: nat, reusable: bool, c: Choice) returns (run: seq<Event>)
    requires t < |s.threads| && s.threads[t] == OnSlot(i, StrictCheck(reusable)) && i < |s.slots|
    requires s.slots[i].conn == Some(conn)
    ensures Alone(run, Run(t, c))
    ensures Exec(s, run)
            == s.(threads := s.threads[t := Unlocked(Outside)],
                  slots := s.slots[i := s.slots[i].(holder := Free,
                                                    state := StrictEnding(s.closed, conn, reusable, c))],
                  closed := if StrictDisposes(s.closed, conn, reusable, c) then ClosedBy(s.closed, conn, c)
                            else s.closed)
  {
    hide Step, Exec, Ending, ClosedBy, StrictEnding, StrictDisposes;
    var e := Run(t, c);
    DueEnding(s.closed, conn, reusable, c);
    LeaseChecked(s, t, i, conn, reusable, c);
    OneStep(s, e);
    var s1 := Exec(s, Times(1, e));
    if reusable && (!c.ok || conn !in s.closed) {
      PublishesSlot(s1, t, i, StrictEnding(s.closed, conn, reusable, c), Outside, c);
      run := Times(1, e) + Times(2, e);
      ExecConcat(s, Times(1, e), Times(2, e));
      assert s1.threads[t := Unlocked(Outside)] == s.threads[t := Unlocked(Outside)];
    } else {
      var last := BudgetEnds(s1, t, i, conn, c);
      run := Times(1, e) + last;
      ExecConcat(s, Times(1, e), last);
      assert s1.threads[t := Unlocked(Outside)] == s.threads[t := Unlocked(Outside)];
    }
  }

  /** `_release_strict`, alone: the lease is over, and the slot is unlocked in the state that is due. */
  lemma StrictReleaseEnds(s: State, t: nat, l: nat, i: nat, conn: nat, reusable: bool, c: Choice)
    returns (run: seq<Event>)
    requires Quiet(s, t) && LeaseValid(s, l) && s.leases[l].thread == t && s.leases[l].slot == i
    requires s.slots[i].conn == Some(conn) && c.op == ReleaseLease(l, reusable)
    ensures Alone(run, Run(t, c))
    ensures Exec(s, run)
            == s.(slots := s.slots[i := s.slots[i].(holder := Free,
                                                    state := StrictEnding(s.closed, conn, reusable, c))],
                  leases := s.leases[l := s.leases[l].(active := false)],
                  closed := if StrictDisposes(s.closed, conn, reusable, c) then ClosedBy(s.closed, conn, c)
                            else s.closed)
  {
    hide Step, Exec, StrictEnding, StrictDisposes, ClosedBy;
    var e := Run(t, c);
    LeaseTaken(s, t, l, reusable, c);
    OneStep(s, e);
    var s1 := Exec(s, Times(1, e));
    var rest := StrictEnds(s1, t, i, conn, reusable, c);
    run := Times(1, e) + rest;
    ExecConcat(s, Times(1, e), rest);
    var state := StrictEnding(s.closed, conn, reusable, c);
    assert s1.threads[t := Unlocked(Outside)] == s.threads;
    assert s1.slots[i := s.slots[i].(holder := Free, state := state)]
           == s.slots[i := s.slots[i].(holder := Free, state := state)];
  }
}
