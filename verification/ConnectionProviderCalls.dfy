/**
  What one call of the provider does when nobody interferes: a borrow lends the first idle slot or
  opens a connection, and a release gives it back or disposes of it.
*/
module ConnectionProviderCalls {
  import opened ConnectionProvider
  import opened Wrappers

  /** The run consists of one thread's steps, all with the same choice. */
  predicate Alone(run: seq<Event>, e: Event) {
    forall i :: 0 <= i < |run| ==> run[i] == e
  }

  /** A thread outside, and nobody in the Condition. */
  ghost predicate Quiet(s: State, t: nat) {
    t < |s.threads| && s.threads[t] == Unlocked(Outside) && s.cond == None
  }

  function By(t: nat, op: Op): Event { Run(t, Calls(op)) }

  /** `n` times the same step. */
  function Times(n: nat, e: Event): seq<Event> { seq(n, _ => e) }

  lemma FirstOf(s: State, n: nat, e: Event)
    ensures Exec(s, Times(n + 1, e)) == Exec(Step(s, e), Times(n, e))
  {
    hide Step;
    ExecStep(s, Times(n + 1, e));
    assert Times(n + 1, e)[1..] == Times(n, e);
  }

  lemma OneStep(s: State, e: Event)
    ensures Exec(s, Times(1, e)) == Step(s, e)
  {
    hide Step;
    FirstOf(s, 0, e);
  }

  lemma TwoSteps(s: State, e: Event, s1: State, s2: State)
    requires Step(s, e) == s1 && Step(s1, e) == s2
    ensures Exec(s, Times(2, e)) == s2
  {
    hide Step;
    FirstOf(s, 1, e);
    FirstOf(s1, 0, e);
  }

  lemma ThreeSteps(s: State, e: Event, s1: State, s2: State, s3: State)
    requires Step(s, e) == s1 && Step(s1, e) == s2 && Step(s2, e) == s3
    ensures Exec(s, Times(3, e)) == s3
  {
    hide Step;
    TwoSteps(s1, e, s2, s3);
    FirstOf(s, 2, e);
  }

  lemma FourSteps(s: State, e: Event, s1: State, s2: State, s3: State, s4: State)
    requires Step(s, e) == s1 && Step(s1, e) == s2 && Step(s2, e) == s3 && Step(s3, e) == s4
    ensures Exec(s, Times(4, e)) == s4
  {
    hide Step;
    ThreeSteps(s1, e, s2, s3, s4);
    FirstOf(s, 3, e);
  }

  /** What a thread finds that has just locked a slot, and what it leaves when it moves on. */
  lemma SlotSet(s: State, t: nat, i: nat, slot: Slot, th: Thread, next: Thread)
    requires t < |s.threads| && i < |s.slots|
    ensures var s1 := SetSlot(s, t, i, slot, th);
            && |s1.threads| == |s.threads| && |s1.slots| == |s.slots| && s1.threads[t] == th && s1.slots[i] == slot
            && Goto(s1, t, next) == SetSlot(s, t, i, slot, next)
  {
    assert s.threads[t := th][t := next] == s.threads[t := next];
  }

  // ---------------------------------------------------------------------------- borrow

  /** From the call to the first look at the slots. */
  lemma BorrowBegins(s: State, t: nat)
    requires Quiet(s, t) && !s.closing
    ensures Exec(s, Times(4, By(t, Borrow))) == Goto(s, t, InCond(BorrowScan(false, 0))).(cond := Some(t))
  {
    hide PassStep, DrainStep, InsideStep, BothStep, FinishStep, DisposeStep, StrictStep, LookStep, Exec, Times;
    FourSteps(s, By(t, Borrow), Goto(s, t, Unlocked(BorrowTop)), Goto(s, t, Unlocked(BorrowEnter)),
      Goto(s, t, InCond(BorrowCheck)).(cond := Some(t)), Goto(s, t, InCond(BorrowScan(false, 0))).(cond := Some(t)));
  }

  /** A round of the scan passes over a slot that is locked or not wanted. */
  predicate Skipped(slot: Slot, create: bool) { slot.holder != Free || !Wanted(create, slot.state) }

  /** An unlocked slot that is not wanted is locked, looked at and unlocked, and the scan goes on. */
  lemma PassUnlocked(s: State, t: nat, create: bool, j: nat)
    requires t < |s.threads| && s.threads[t] == InCond(BorrowScan(create, j)) && j < |s.slots|
    requires s.slots[j].holder == Free && !Wanted(create, s.slots[j].state)
    ensures Exec(s, Times(2, By(t, Borrow))) == Goto(s, t, InCond(BorrowScan(create, j + 1)))
  {
    hide StartStep, WaitStep, EnterStep, PassStep, DrainStep, InsideStep, FinishStep, DisposeStep, StrictStep,
      LookStep, Exec, Times;
    var s1 := SetSlot(s, t, j, s.slots[j].(holder := ByThread(t)), InCondOnSlot(j, BorrowLook(create)));
    var s2 := Goto(s, t, InCond(BorrowScan(create, j + 1)));
    assert s1.slots[j := s.slots[j]] == s.slots && s1.threads[t := InCond(BorrowScan(create, j + 1))] == s2.threads;
    TwoSteps(s, By(t, Borrow), s1, s2);
  }

  lemma PassOne(s: State, t: nat, create: bool, j: nat) returns (run: seq<Event>)
    requires t < |s.threads| && s.threads[t] == InCond(BorrowScan(create, j)) && j < |s.slots|
    requires Skipped(s.slots[j], create)
    ensures Alone(run, By(t, Borrow)) && Exec(s, run) == Goto(s, t, InCond(BorrowScan(create, j + 1)))
  {
    hide StartStep, WaitStep, EnterStep, PassStep, DrainStep, InsideStep, BothStep, FinishStep, DisposeStep,
      StrictStep, LookStep, Exec;
    if s.slots[j].holder == Free {
      PassUnlocked(s, t, create, j);
      run := Times(2, By(t, Borrow));
    } else {
      OneStep(s, By(t, Borrow));
      run := Times(1, By(t, Borrow));
    }
  }

  lemma {:induction false} ScanTo(s: State, t: nat, create: bool, j: nat, i: nat) returns (run: seq<Event>)
    requires t < |s.threads| && s.threads[t] == InCond(BorrowScan(create, j)) && j <= i <= |s.slots|
    requires forall k: nat :: j <= k < i ==> Skipped(s.slots[k], create)
    ensures Alone(run, By(t, Borrow)) && Exec(s, run) == Goto(s, t, InCond(BorrowScan(create, i)))
    decreases i - j
  {
    hide Step, Skipped;
    if j == i {
      run := [];
      assert s.threads[t := InCond(BorrowScan(create, i))] == s.threads;
    } else {
      var one := PassOne(s, t, create, j);
      var s1 := Goto(s, t, InCond(BorrowScan(create, j + 1)));
      var rest := ScanTo(s1, t, create, j + 1, i);
      run := one + rest;
      ExecConcat(s, one, rest);
      assert Goto(s1, t, InCond(BorrowScan(create, i))).threads == Goto(s, t, InCond(BorrowScan(create, i))).threads;
    }
  }

  /** Without an idle slot there is a second round, for slots that can be opened. */
  lemma SecondRound(s: State, t: nat)
    requires t < |s.threads| && s.threads[t] == InCond(BorrowScan(false, |s.slots|)) && !s.strict
    ensures Exec(s, Times(1, By(t, Borrow))) == Goto(s, t, InCond(BorrowScan(true, 0)))
  {
    hide StartStep, WaitStep, EnterStep, PassStep, DrainStep, InsideStep, BothStep, FinishStep, DisposeStep,
      StrictStep, LookStep, Exec, Times;
    OneStep(s, By(t, Borrow));
  }

  function Reserved(slot: Slot, t: nat, create: bool): Slot {
    slot.(holder := ByThread(t), generation := slot.generation + 1, state := if create then Creating else Acquired)
  }

  lemma Taken(s: State, t: nat, create: bool, i: nat)
    requires t < |s.threads| && s.threads[t] == InCond(BorrowScan(create, i)) && i < |s.slots|
    requires s.slots[i].holder == Free && Wanted(create, s.slots[i].state)
    ensures Exec(s, Times(2, By(t, Borrow)))
            == SetSlot(s, t, i, Reserved(s.slots[i], t, create), InCondOnSlot(i, LeaveWith(FinishCheck)))
  {
    hide StartStep, WaitStep, EnterStep, PassStep, DrainStep, InsideStep, FinishStep, DisposeStep, StrictStep,
      LookStep, Exec, Times;
    var slot := Reserved(s.slots[i], t, create);
    var s1 := SetSlot(s, t, i, s.slots[i].(holder := ByThread(t)), InCondOnSlot(i, BorrowLook(create)));
    var s2 := SetSlot(s, t, i, slot, InCondOnSlot(i, LeaveWith(FinishCheck)));
    assert s1.slots[i := slot] == s2.slots && s1.threads[t := InCondOnSlot(i, LeaveWith(FinishCheck))] == s2.threads;
    TwoSteps(s, By(t, Borrow), s1, s2);
  }

  /** The Condition is left with a slot locked. */
  lemma CondLeft(s: State, t: nat, i: nat, w: Work, op: Op)
    requires t < |s.threads| && s.threads[t] == InCondOnSlot(i, LeaveWith(w)) && i < |s.slots|
    ensures Exec(s, Times(1, By(t, op))) == Goto(s, t, OnSlot(i, w)).(cond := None)
  {
    hide StartStep, WaitStep, EnterStep, PassStep, DrainStep, BorrowStep, InsideStep, FinishStep, DisposeStep,
      StrictStep, LookStep, Exec, Times;
    OneStep(s, By(t, op));
  }

  /** A wanted slot is reserved under the Condition, which is then left. */
  lemma Reserve(s: State, t: nat, create: bool, i: nat)
    requires t < |s.threads| && s.threads[t] == InCond(BorrowScan(create, i)) && i < |s.slots|
    requires s.slots[i].holder == Free && Wanted(create, s.slots[i].state)
    ensures Exec(s, Times(2, By(t, Borrow)) + Times(1, By(t, Borrow)))
            == SetSlot(s, t, i, Reserved(s.slots[i], t, create), OnSlot(i, FinishCheck)).(cond := None)
  {
    hide Step, Exec, Times, Goto, SetSlot;
    var e, slot := By(t, Borrow), Reserved(s.slots[i], t, create);
    SlotSet(s, t, i, slot, InCondOnSlot(i, LeaveWith(FinishCheck)), OnSlot(i, FinishCheck));
    Taken(s, t, create, i);
    CondLeft(SetSlot(s, t, i, slot, InCondOnSlot(i, LeaveWith(FinishCheck))), t, i, FinishCheck, Borrow);
    ExecConcat(s, Times(2, e), Times(1, e));
  }

  /** From the call to the reservation of the first idle slot that is not locked. */
  lemma ReservesIdle(s: State, t: nat, i: nat) returns (run: seq<Event>)
    requires Quiet(s, t) && !s.closing && i < |s.slots|
    requires forall k: nat :: k < i ==> Skipped(s.slots[k], false)
    requires s.slots[i].holder == Free && s.slots[i].state == Idle
    ensures Alone(run, By(t, Borrow))
    ensures Exec(s, run) == SetSlot(s, t, i, Reserved(s.slots[i], t, false), OnSlot(i, FinishCheck))
  {
    hide Step, Exec, Skipped, Reserved;
    var e := By(t, Borrow);
    BorrowBegins(s, t);
    var s1 := Exec(s, Times(4, e));
    var scan := ScanTo(s1, t, false, 0, i);
    var s2 := Exec(s1, scan);
    Reserve(s2, t, false, i);
    run := Times(4, e) + scan + (Times(2, e) + Times(1, e));
    ExecConcat(s, Times(4, e), scan);
    ExecConcat(s, Times(4, e) + scan, Times(2, e) + Times(1, e));
    assert Exec(s, run).threads == s.threads[t := OnSlot(i, FinishCheck)];
  }

  /** And, without an idle slot, of the first one that can be opened. */
  lemma ReservesEmpty(s: State, t: nat, i: nat) returns (run: seq<Event>)
    requires Quiet(s, t) && !s.closing && !s.strict && i < |s.slots|
    requires forall k: nat :: k < |s.slots| ==> Skipped(s.slots[k], false)
    requires forall k: nat :: k < i ==> Skipped(s.slots[k], true)
    requires s.slots[i].holder == Free && Wanted(true, s.slots[i].state)
    ensures Alone(run, By(t, Borrow))
    ensures Exec(s, run) == SetSlot(s, t, i, Reserved(s.slots[i], t, true), OnSlot(i, FinishCheck))
  {
    hide Step, Exec, Skipped, Reserved;
    var e := By(t, Borrow);
    var s3, first := BothRounds(s, t);
    var second := ScanTo(s3, t, true, 0, i);
    var s4 := Exec(s3, second);
    Reserve(s4, t, true, i);
    run := first + second + (Times(2, e) + Times(1, e));
    ExecConcat(s, first, second);
    ExecConcat(s, first + second, Times(2, e) + Times(1, e));
    assert Exec(s, run).threads == s.threads[t := OnSlot(i, FinishCheck)];
  }

  /** Without an idle slot the first round ends, and the second begins. */
  lemma BothRounds(s: State, t: nat) returns (s': State, run: seq<Event>)
    requires Quiet(s, t) && !s.closing && !s.strict
    requires forall k: nat :: k < |s.slots| ==> Skipped(s.slots[k], false)
    ensures Alone(run, By(t, Borrow))
    ensures Exec(s, run) == s' == Goto(s, t, InCond(BorrowScan(true, 0))).(cond := Some(t))
  {
    hide Step, Exec, Skipped;
    var e := By(t, Borrow);
    BorrowBegins(s, t);
    var s1 := Exec(s, Times(4, e));
    var first := ScanTo(s1, t, false, 0, |s.slots|);
    var s2 := Exec(s1, first);
    SecondRound(s2, t);
    s' := Exec(s2, Times(1, e));
    run := Times(4, e) + first + Times(1, e);
    ExecConcat(s, Times(4, e), first);
    ExecConcat(s, Times(4, e) + first, Times(1, e));
    assert s'.threads == s.threads[t := InCond(BorrowScan(true, 0))];
  }

  // ---------------------------------------------------------------------- legacy leases

  lemma LendAndLeave(s: State, t: nat, i: nat, conn: nat)
    requires t < |s.threads| && s.threads[t] == InCondOnSlot(i, FinishLend) && i < |s.slots| && !s.closing
    requires s.slots[i].conn == Some(conn)
    ensures Exec(s, Times(2, By(t, Borrow)))
            == SetSlot(s, t, i, s.slots[i].(holder := ByLegacyLease, state := Acquired), Unlocked(Outside))
                 .(legacy := s.legacy[conn := i], cond := None)
  {
    hide StartStep, WaitStep, EnterStep, PassStep, DrainStep, BorrowStep, FinishStep, DisposeStep, StrictStep,
      LookStep, Exec, Times;
    var slot := s.slots[i].(holder := ByLegacyLease, state := Acquired);
    var s1 := SetSlot(s, t, i, slot, InCond(Leave(Outside))).(legacy := s.legacy[conn := i]);
    assert s1.threads[t := Unlocked(Outside)] == s.threads[t := Unlocked(Outside)];
    TwoSteps(s, By(t, Borrow), s1, SetSlot(s, t, i, slot, Unlocked(Outside)).(legacy := s.legacy[conn := i],
      cond := None));
  }

  /** A reserved slot with a connection is lent. */
  lemma Lend(s: State, t: nat, i: nat, conn: nat)
    requires t < |s.threads| && s.threads[t] == OnSlot(i, FinishEnter) && s.cond == None && i < |s.slots| && !s.closing
    requires s.slots[i].conn == Some(conn)
    ensures Exec(s, Times(3, By(t, Borrow)))
            == SetSlot(s, t, i, s.slots[i].(holder := ByLegacyLease, state := Acquired), Unlocked(Outside))
                 .(legacy := s.legacy[conn := i])
  {
    hide StartStep, WaitStep, EnterStep, PassStep, DrainStep, BorrowStep, InsideStep, BothStep, DisposeStep,
      StrictStep, LookStep, Exec, Times;
    var s1 := Goto(s, t, InCondOnSlot(i, FinishLend)).(cond := Some(t));
    FirstOf(s, 2, By(t, Borrow));
    LendAndLeave(s1, t, i, conn);
    assert s1.threads[t := Unlocked(Outside)] == s.threads[t := Unlocked(Outside)];
  }

  /** A connection is found open, or one is opened. */
  lemma Finish(s: State, t: nat, i: nat, conn: nat)
    requires t < |s.threads| && s.threads[t] == OnSlot(i, FinishCheck) && i < |s.slots| && !s.strict
    requires s.slots[i].state == Acquired && s.slots[i].conn == Some(conn) && conn !in s.closed
    ensures Exec(s, Times(1, By(t, Borrow))) == Goto(s, t, OnSlot(i, FinishEnter))
  {
    hide StartStep, WaitStep, EnterStep, PassStep, DrainStep, BorrowStep, InsideStep, BothStep, DisposeStep,
      StrictStep, LookStep, Exec, Times;
    OneStep(s, By(t, Borrow));
  }

  lemma Create(s: State, t: nat, i: nat)
    requires t < |s.threads| && s.threads[t] == OnSlot(i, FinishCheck) && i < |s.slots| && s.slots[i].state == Creating
    ensures Exec(s, Times(2, By(t, Borrow)))
            == SetSlot(s, t, i, s.slots[i].(conn := Some(s.created)), OnSlot(i, FinishEnter)).(created := s.created + 1)
  {
    hide StartStep, WaitStep, EnterStep, PassStep, DrainStep, BorrowStep, InsideStep, BothStep, DisposeStep,
      StrictStep, LookStep, Exec, Times;
    var s1 := Goto(s, t, OnSlot(i, FinishCreate));
    var s2 := SetSlot(s, t, i, s.slots[i].(conn := Some(s.created)), OnSlot(i, FinishEnter)).(created := s.created + 1);
    assert s1.threads[t := OnSlot(i, FinishEnter)] == s2.threads;
    TwoSteps(s, By(t, Borrow), s1, s2);
  }

  /** `acquire`, alone: the first idle slot that is not locked, if its connection is open, is lent under
      a new generation and nothing else changes. */
  lemma AcquireLends(s: State, t: nat, i: nat, conn: nat) returns (run: seq<Event>)
    requires Quiet(s, t) && !s.closing && !s.strict && i < |s.slots|
    requires forall k: nat :: k < i ==> Skipped(s.slots[k], false)
    requires s.slots[i] == Slot(Free, Idle, s.slots[i].generation, Some(conn)) && conn !in s.closed
    ensures Alone(run, By(t, Borrow))
    ensures Exec(s, run)
            == s.(slots := s.slots[i := Slot(ByLegacyLease, Acquired, s.slots[i].generation + 1, Some(conn))],
                  legacy := s.legacy[conn := i])
  {
    hide Step, Exec;
    var e := By(t, Borrow);
    var reserve := ReservesIdle(s, t, i);
    var s3 := Exec(s, reserve);
    Finish(s3, t, i, conn);
    var s4 := Exec(s3, Times(1, e));
    Lend(s4, t, i, conn);
    run := reserve + Times(1, e) + Times(3, e);
    ExecConcat(s, reserve, Times(1, e));
    ExecConcat(s, reserve + Times(1, e), Times(3, e));
    var s5 := Exec(s4, Times(3, e));
    assert s5.threads == s.threads;
    assert s5.slots == s.slots[i := Slot(ByLegacyLease, Acquired, s.slots[i].generation + 1, Some(conn))];
  }

  /** `acquire`, alone, when no unlocked slot is idle: a new connection is opened in the first unlocked
      slot that is empty or closed, and lent. */
  lemma AcquireCreates(s: State, t: nat, i: nat) returns (run: seq<Event>)
    requires Quiet(s, t) && !s.closing && !s.strict && i < |s.slots|
    requires forall k: nat :: k < |s.slots| ==> Skipped(s.slots[k], false)
    requires forall k: nat :: k < i ==> Skipped(s.slots[k], true)
    requires s.slots[i].holder == Free && Wanted(true, s.slots[i].state)
    ensures Alone(run, By(t, Borrow))
    ensures Exec(s, run)
            == s.(slots := s.slots[i := Slot(ByLegacyLease, Acquired, s.slots[i].generation + 1, Some(s.created))],
                  legacy := s.legacy[s.created := i], created := s.created + 1)
  {
    hide Step, Skipped, Exec;
    var e := By(t, Borrow);
    var reserve := ReservesEmpty(s, t, i);
    var s5 := Exec(s, reserve);
    Create(s5, t, i);
    var s6 := Exec(s5, Times(2, e));
    Lend(s6, t, i, s.created);
    run := reserve + Times(2, e) + Times(3, e);
    ExecConcat(s, reserve, Times(2, e));
    ExecConcat(s, reserve + Times(2, e), Times(3, e));
    var s7 := Exec(s6, Times(3, e));
    assert s7.threads == s.threads;
    assert s7.slots == s.slots[i := Slot(ByLegacyLease, Acquired, s.slots[i].generation + 1, Some(s.created))];
  }

  lemma ReleaseEnters(s: State, t: nat, conn: nat)
    requires Quiet(s, t)
    ensures Exec(s, Times(2, By(t, Release(conn)))) == Goto(s, t, InCond(ReleasePop(conn))).(cond := Some(t))
  {
    hide WaitStep, PassStep, DrainStep, BorrowStep, InsideStep, BothStep, FinishStep, DisposeStep, StrictStep,
      LookStep, Exec, Times;
    TwoSteps(s, By(t, Release(conn)), Goto(s, t, Unlocked(ReleaseEnter(conn))),
      Goto(s, t, InCond(ReleasePop(conn))).(cond := Some(t)));
  }

  /** `release` under the Condition takes the slot back from its lease. */
  lemma ReleasePops(s: State, t: nat, i: nat, conn: nat)
    requires t < |s.threads| && s.threads[t] == InCond(ReleasePop(conn))
    requires conn in s.legacy && s.legacy[conn] == i && i < |s.slots| && s.slots[i].conn == Some(conn)
    ensures var both := if s.closing || conn in s.closed then LeaveWith(DISCARD) else ReturnIdle;
            Exec(s, Times(1, By(t, Release(conn))))
            == SetSlot(s, t, i, s.slots[i].(holder := ByThread(t)), InCondOnSlot(i, both))
                 .(legacy := s.legacy - {conn})
  {
    hide StartStep, WaitStep, EnterStep, PassStep, DrainStep, BorrowStep, BothStep, FinishStep, DisposeStep,
      StrictStep, LookStep, Exec, Times;
    OneStep(s, By(t, Release(conn)));
  }

  /** A slot that is kept is published and unlocked under the Condition. */
  lemma ReleaseUnlocks(s: State, t: nat, i: nat, op: Op)
    requires t < |s.threads| && s.threads[t] == InCondOnSlot(i, ReturnIdle) && i < |s.slots|
    ensures Exec(s, Times(2, By(t, op)))
            == SetSlot(s, t, i, s.slots[i].(holder := Free, state := Idle), InCond(ReleaseNotify))
  {
    hide StartStep, WaitStep, EnterStep, PassStep, DrainStep, BorrowStep, InsideStep, FinishStep, DisposeStep,
      StrictStep, LookStep, Exec, Times;
    var s1 := SetSlot(s, t, i, s.slots[i].(state := Idle), InCondOnSlot(i, ReturnUnlock));
    var s2 := SetSlot(s, t, i, s.slots[i].(holder := Free, state := Idle), InCond(ReleaseNotify));
    assert s1.threads[t := InCond(ReleaseNotify)] == s2.threads;
    assert s1.slots[i := s.slots[i].(holder := Free, state := Idle)] == s2.slots;
    TwoSteps(s, By(t, op), s1, s2);
  }

  /** Everybody is notified, and the Condition is left. */
  lemma ReleaseTells(s: State, t: nat, k: Loose, c: Choice)
    requires t < |s.threads| && s.cond == Some(t)
    requires s.threads[t] in {InCond(ReleaseNotify), InCond(NotifyAll(k == BorrowTop))}
    requires k == Outside || (k == BorrowTop && s.threads[t].inside.NotifyAll?)
    ensures Exec(s, Times(2, Run(t, c))) == Goto(s, t, Unlocked(k)).(waiters := {}, cond := None)
  {
    hide StartStep, WaitStep, EnterStep, PassStep, DrainStep, BorrowStep, BothStep, FinishStep, DisposeStep,
      StrictStep, LookStep, Exec, Times;
    var s1, s2 := Goto(s, t, InCond(Leave(k))).(waiters := {}),
        Goto(s, t, Unlocked(k)).(waiters := {}, cond := None);
    assert s1.threads[t := Unlocked(k)] == s2.threads;
    TwoSteps(s, Run(t, c), s1, s2);
  }

  /** `release`, alone: the slot is idle again, the lease is gone, and everybody has been notified. */
  lemma ReleaseGivesBack(s: State, t: nat, i: nat, conn: nat) returns (run: seq<Event>)
    requires Quiet(s, t) && !s.closing && conn in s.legacy && s.legacy[conn] == i && conn !in s.closed
    requires i < |s.slots| && s.slots[i].conn == Some(conn)
    ensures Alone(run, By(t, Release(conn)))
    ensures Exec(s, run) == s.(slots := s.slots[i := s.slots[i].(holder := Free, state := Idle)],
                               legacy := s.legacy - {conn}, waiters := {})
  {
    hide Step, Exec;
    var e := By(t, Release(conn));
    ReleaseEnters(s, t, conn);
    var s2 := Exec(s, Times(2, e));
    ReleasePops(s2, t, i, conn);
    var s3 := Exec(s2, Times(1, e));
    ReleaseUnlocks(s3, t, i, Release(conn));
    var s5 := Exec(s3, Times(2, e));
    ReleaseTells(s5, t, Outside, Calls(Release(conn)));
    var popped := Times(2, e) + Times(1, e);
    run := popped + Times(2, e) + Times(2, e);
    ExecConcat(s, Times(2, e), Times(1, e));
    ExecConcat(s, popped, Times(2, e));
    ExecConcat(s, popped + Times(2, e), Times(2, e));
    var s7 := Exec(s5, Times(2, e));
    assert s7.threads == s.threads;
    assert s7.slots == s.slots[i := s.slots[i].(holder := Free, state := Idle)];
  }

  // -------------------------------------------------------------------------- disposal

  lemma MarksSlot(s: State, t: nat, j: nat, k: Loose, failed: Loose, c: Choice)
    requires t < |s.threads| && s.threads[t] == OnSlot(j, DisposeMark(k, failed)) && j < |s.slots|
    ensures Step(s, Run(t, c)) == SetSlot(s, t, j, s.slots[j].(state := Closing), OnSlot(j, DisposeClose(k, failed)))
  {
  }

  /** What the native close achieves. */
  function ClosedBy(closed: set<nat>, conn: nat, c: Choice): set<nat> {
    if c.closes then closed + {conn} else closed
  }

  lemma ClosesSlot(s: State, t: nat, j: nat, conn: nat, k: Loose, failed: Loose, c: Choice)
    requires t < |s.threads| && s.threads[t] == OnSlot(j, DisposeClose(k, failed)) && j < |s.slots|
    requires s.slots[j].conn == Some(conn)
    ensures Step(s, Run(t, c)) == Goto(s, t, OnSlot(j, DisposeProve(k, failed))).(closed := ClosedBy(s.closed, conn, c))
  {
    assert conn in s.closed ==> s.closed + {conn} == s.closed;
  }

  /** The proof succeeds exactly when it can be had and the connection is closed. */
  function Proof(closed: set<nat>, conn: nat, k: Loose, failed: Loose, c: Choice): Work {
    if c.ok && conn in closed then Publish(Closed, k) else Publish(Quarantined, failed)
  }

  lemma ProvesSlot(s: State, t: nat, j: nat, conn: nat, k: Loose, failed: Loose, c: Choice)
    requires t < |s.threads| && s.threads[t] == OnSlot(j, DisposeProve(k, failed)) && j < |s.slots|
    requires s.slots[j].conn == Some(conn)
    ensures Step(s, Run(t, c)) == Goto(s, t, OnSlot(j, Proof(s.closed, conn, k, failed, c)))
  {
  }

  lemma PublishesSlot(s: State, t: nat, i: nat, state: SlotState, k: Loose, c: Choice)
    requires t < |s.threads| && s.threads[t] == OnSlot(i, Publish(state, k)) && i < |s.slots|
    ensures Exec(s, Times(2, Run(t, c))) == SetSlot(s, t, i, s.slots[i].(state := state, holder := Free), Unlocked(k))
  {
    hide StartStep, WaitStep, EnterStep, PassStep, DrainStep, BorrowStep, InsideStep, BothStep, FinishStep,
      StrictStep, LookStep, Exec, Times;
    var s1 := SetSlot(s, t, i, s.slots[i].(state := state), OnSlot(i, Unlock(k)));
    var s2 := SetSlot(s, t, i, s.slots[i].(state := state, holder := Free), Unlocked(k));
    assert s1.threads[t := Unlocked(k)] == s2.threads;
    assert s1.slots[i := s.slots[i].(state := state, holder := Free)] == s2.slots;
    TwoSteps(s, Run(t, c), s1, s2);
  }

  function Disposal(e: Event): seq<Event> { Times(3, e) + Times(2, e) }

  /** A slot is closed when the proof succeeds, and quarantined when it does not. */
  function Ending(closed: set<nat>, conn: nat, c: Choice): SlotState {
    if c.ok && (c.closes || conn in closed) then Closed else Quarantined
  }

  lemma ClosesAndProves(s: State, t: nat, j: nat, conn: nat, k: Loose, failed: Loose, c: Choice, proof: Work)
    requires t < |s.threads| && s.threads[t] == OnSlot(j, DisposeMark(k, failed)) && j < |s.slots|
    requires s.slots[j].conn == Some(conn)
    requires proof == Proof(ClosedBy(s.closed, conn, c), conn, k, failed, c)
    ensures Exec(s, Times(3, Run(t, c)))
            == SetSlot(s, t, j, s.slots[j].(state := Closing), OnSlot(j, proof)).(closed := ClosedBy(s.closed, conn, c))
  {
    hide Step, Exec, Times, ClosedBy, Proof;
    var slot := s.slots[j].(state := Closing);
    var s1 := SetSlot(s, t, j, slot, OnSlot(j, DisposeClose(k, failed)));
    var s2 := SetSlot(s, t, j, slot, OnSlot(j, DisposeProve(k, failed))).(closed := ClosedBy(s.closed, conn, c));
    var s3 := SetSlot(s, t, j, slot, OnSlot(j, proof)).(closed := ClosedBy(s.closed, conn, c));
    MarksSlot(s, t, j, k, failed, c);
    ClosesSlot(s1, t, j, conn, k, failed, c);
    ProvesSlot(s2, t, j, conn, k, failed, c);
    assert s1.threads[t := OnSlot(j, DisposeProve(k, failed))] == s2.threads;
    assert s2.threads[t := OnSlot(j, proof)] == s3.threads;
    ThreeSteps(s, Run(t, c), s1, s2, s3);
  }

  lemma EndsAs(closed: set<nat>, conn: nat, k: Loose, failed: Loose, c: Choice)
    ensures var state := Ending(closed, conn, c);
            Proof(ClosedBy(closed, conn, c), conn, k, failed, c)
            == Publish(state, if state == Closed then k else failed)
  {
  }

  /** `_dispose`, whatever the native calls do. */
  lemma DisposesAs(s: State, t: nat, j: nat, conn: nat, k: Loose, failed: Loose, c: Choice)
    requires t < |s.threads| && s.threads[t] == OnSlot(j, DisposeMark(k, failed)) && j < |s.slots|
    requires s.slots[j].conn == Some(conn)
    ensures var state := Ending(s.closed, conn, c);
            Exec(s, Disposal(Run(t, c)))
            == SetSlot(s, t, j, s.slots[j].(state := state, holder := Free),
                       Unlocked(if state == Closed then k else failed))
                 .(closed := ClosedBy(s.closed, conn, c))
  {
    hide Step, Exec, Times, ClosedBy, Proof, Ending;
    var e, closed := Run(t, c), ClosedBy(s.closed, conn, c);
    var proof := Proof(closed, conn, k, failed, c);
    ClosesAndProves(s, t, j, conn, k, failed, c, proof);
    EndsAs(s.closed, conn, k, failed, c);
    var s3 := SetSlot(s, t, j, s.slots[j].(state := Closing), OnSlot(j, proof)).(closed := closed);
    PublishesSlot(s3, t, j, proof.state, proof.k, c);
    ExecConcat(s, Times(3, e), Times(2, e));
    assert s3.threads[t := Unlocked(proof.k)] == s.threads[t := Unlocked(proof.k)];
    assert s3.slots[j := s.slots[j].(state := proof.state, holder := Free)]
           == s.slots[j := s.slots[j].(state := proof.state, holder := Free)];
  }

  lemma EntersToTell(s: State, t: nat, again: bool, c: Choice)
    requires t < |s.threads| && s.threads[t] == Unlocked(NotifyEnter(again)) && s.cond == None
    ensures Step(s, Run(t, c)) == Goto(s, t, InCond(NotifyAll(again))).(cond := Some(t))
  {
  }

  /** The waiters are notified. */
  lemma Tells(s: State, t: nat, again: bool, c: Choice)
    requires t < |s.threads| && s.threads[t] == Unlocked(NotifyEnter(again)) && s.cond == None
    ensures Exec(s, Times(3, Run(t, c)))
            == Goto(s, t, Unlocked(if again then BorrowTop else Outside)).(waiters := {})
  {
    hide Step, Exec, Times;
    var s1 := Goto(s, t, InCond(NotifyAll(again))).(cond := Some(t));
    EntersToTell(s, t, again, c);
    FirstOf(s, 2, Run(t, c));
    ReleaseTells(s1, t, if again then BorrowTop else Outside, c);
    assert s1.threads[t := Unlocked(if again then BorrowTop else Outside)]
      == s.threads[t := Unlocked(if again then BorrowTop else Outside)];
  }

  /** A legacy caller disposes of a slot, and notifies whatever has come of it. */
  lemma Discards(s: State, t: nat, i: nat, conn: nat, c: Choice)
    requires t < |s.threads| && s.threads[t] == OnSlot(i, DISCARD) && s.cond == None
    requires i < |s.slots| && s.slots[i].conn == Some(conn)
    ensures Exec(s, Disposal(Run(t, c)) + Times(3, Run(t, c)))
            == s.(threads := s.threads[t := Unlocked(Outside)],
                  slots := s.slots[i := s.slots[i].(holder := Free, state := Ending(s.closed, conn, c))],
                  closed := ClosedBy(s.closed, conn, c), waiters := {})
  {
    hide Step, Exec, Times, ClosedBy, Ending;
    var e := Run(t, c);
    DisposesAs(s, t, i, conn, NotifyEnter(false), NotifyEnter(false), c);
    var s5 := Exec(s, Disposal(e));
    Tells(s5, t, false, c);
    ExecConcat(s, Disposal(e), Times(3, e));
    assert s5.threads[t := Unlocked(Outside)] == s.threads[t := Unlocked(Outside)];
  }

  /** A connection that is not to be kept is taken back. */
  lemma ReleaseDiscards(s: State, t: nat, i: nat, conn: nat) returns (run: seq<Event>)
    requires Quiet(s, t) && conn in s.legacy && s.legacy[conn] == i && (s.closing || conn in s.closed)
    requires i < |s.slots| && s.slots[i].conn == Some(conn)
    ensures Alone(run, By(t, Release(conn)))
    ensures Exec(s, run) == SetSlot(s, t, i, s.slots[i].(holder := ByThread(t)), OnSlot(i, DISCARD))
                              .(legacy := s.legacy - {conn})
  {
    hide Step, Exec;
    var e := By(t, Release(conn));
    ReleaseEnters(s, t, conn);
    var s2 := Exec(s, Times(2, e));
    ReleasePops(s2, t, i, conn);
    var s3 := Exec(s2, Times(1, e));
    CondLeft(s3, t, i, DISCARD, Release(conn));
    run := Times(2, e) + Times(1, e) + Times(1, e);
    ExecConcat(s, Times(2, e), Times(1, e));
    ExecConcat(s, Times(2, e) + Times(1, e), Times(1, e));
    assert s3.threads[t := OnSlot(i, DISCARD)] == s.threads[t := OnSlot(i, DISCARD)];
  }

  /** `release`, alone, of a connection that was lost, or to a provider that is closing: the slot is
      unlocked, closed when the native close is proved and quarantined when it is not, the lease is gone,
      and everybody has been notified. */
  lemma ReleaseDisposes(s: State, t: nat, i: nat, conn: nat, c: Choice) returns (a: seq<Event>, b: seq<Event>)
    requires Quiet(s, t) && conn in s.legacy && s.legacy[conn] == i && (s.closing || conn in s.closed)
    requires i < |s.slots| && s.slots[i].conn == Some(conn)
    ensures Alone(a, By(t, Release(conn))) && Alone(b, Run(t, c))
    ensures Exec(s, a + b)
            == s.(slots := s.slots[i := s.slots[i].(holder := Free, state := Ending(s.closed, conn, c))],
                  legacy := s.legacy - {conn}, closed := ClosedBy(s.closed, conn, c), waiters := {})
  {
    hide Step, Exec, ClosedBy, Ending;
    a := ReleaseDiscards(s, t, i, conn);
    var s4 := Exec(s, a);
    Discards(s4, t, i, conn, c);
    b := Disposal(Run(t, c)) + Times(3, Run(t, c));
    ExecConcat(s, a, b);
    var s12 := Exec(s4, b);
    assert s12.threads == s.threads;
    assert s12.slots == s.slots[i := s.slots[i].(holder := Free, state := Ending(s.closed, conn, c))];
  }

  lemma ReleaseLost(s: State, t: nat, i: nat, conn: nat) returns (run: seq<Event>)
    requires Quiet(s, t) && conn in s.legacy && s.legacy[conn] == i && conn in s.closed
    requires i < |s.slots| && s.slots[i].conn == Some(conn)
    ensures Alone(run, By(t, Release(conn)))
    ensures Exec(s, run) == s.(slots := s.slots[i := s.slots[i].(holder := Free, state := Closed)],
                               legacy := s.legacy - {conn}, waiters := {})
  {
    hide Step, Exec;
    var a, b := ReleaseDisposes(s, t, i, conn, Calls(Release(conn)));
    run := a + b;
    assert s.closed + {conn} == s.closed;
  }

  /** A borrow and its release leave the inventory as it was, but for the generation. */
  lemma BorrowReleaseRoundTrip(s: State, t: nat, i: nat, conn: nat) returns (a: seq<Event>, b: seq<Event>)
    requires Quiet(s, t) && !s.closing && !s.strict && i < |s.slots| && conn !in s.legacy
    requires forall k: nat :: k < i ==> Skipped(s.slots[k], false)
    requires s.slots[i] == Slot(Free, Idle, s.slots[i].generation, Some(conn)) && conn !in s.closed
    ensures Alone(a, By(t, Borrow)) && Alone(b, By(t, Release(conn)))
    ensures Exec(s, a + b) == s.(slots := s.slots[i := s.slots[i].(generation := s.slots[i].generation + 1)],
        waiters := {})
  {
    a := AcquireLends(s, t, i, conn);
    var s1 := Exec(s, a);
    b := ReleaseGivesBack(s1, t, i, conn);
    ExecConcat(s, a, b);
    assert s.legacy[conn := i] - {conn} == s.legacy;
    assert s1.slots[i := s1.slots[i].(holder := Free, state := Idle)]
           == s.slots[i := s.slots[i].(generation := s.slots[i].generation + 1)];
  }

  // ---------------------------------------------------------------------- strict leases

  lemma LeaseMade(s: State, t: nat, i: nat, conn: nat)
    requires t < |s.threads| && s.threads[t] == OnSlot(i, FinishCheck) && i < |s.slots| && s.strict
    requires s.slots[i].state == Acquired && s.slots[i].conn == Some(conn) && conn !in s.closed
    ensures Exec(s, Times(2, By(t, Borrow)))
            == SetSlot(s, t, i, s.slots[i].(holder := ByStrictLease(|s.leases|)), Unlocked(Outside))
                 .(leases := s.leases + [Lease(i, s.slots[i].generation, t, true)])
  {
    hide StartStep, WaitStep, EnterStep, PassStep, DrainStep, BorrowStep, InsideStep, BothStep, DisposeStep,
      StrictStep, LookStep, Exec, Times;
    var s1 := Goto(s, t, OnSlot(i, FinishLease));
    var s2 := SetSlot(s, t, i, s.slots[i].(holder := ByStrictLease(|s.leases|)), Unlocked(Outside))
                .(leases := s.leases + [Lease(i, s.slots[i].generation, t, true)]);
    assert s1.threads[t := Unlocked(Outside)] == s2.threads;
    TwoSteps(s, By(t, Borrow), s1, s2);
  }

  /** `_acquire_strict`, alone: the first idle slot that is not locked is leased, and the lease validates. */
  lemma StrictAcquireLeases(s: State, t: nat, i: nat, conn: nat) returns (run: seq<Event>)
    requires Quiet(s, t) && !s.closing && s.strict && i < |s.slots|
    requires forall k: nat :: k < i ==> Skipped(s.slots[k], false)
    requires s.slots[i] == Slot(Free, Idle, s.slots[i].generation, Some(conn)) && conn !in s.closed
    ensures Alone(run, By(t, Borrow)) && LeaseValid(Exec(s, run), |s.leases|)
    ensures Exec(s, run)
            == s.(slots := s.slots[i :=
                    Slot(ByStrictLease(|s.leases|), Acquired, s.slots[i].generation + 1, Some(conn))],
                  leases := s.leases + [Lease(i, s.slots[i].generation + 1, t, true)])
  {
    hide Step, Exec;
    var e := By(t, Borrow);
    var reserve := ReservesIdle(s, t, i);
    var s3 := Exec(s, reserve);
    LeaseMade(s3, t, i, conn);
    run := reserve + Times(2, e);
    ExecConcat(s, reserve, Times(2, e));
    var s4 := Exec(s3, Times(2, e));
    assert s4.threads == s.threads;
    assert s4.slots == s.slots[i := Slot(ByStrictLease(|s.leases|), Acquired, s.slots[i].generation + 1, Some(conn))];
  }

  lemma StrictChecked(s: State, t: nat, l: nat, i: nat, conn: nat)
    requires Quiet(s, t) && LeaseValid(s, l) && s.leases[l].thread == t && s.leases[l].slot == i
    requires s.slots[i].conn == Some(conn) && conn !in s.closed
    ensures Exec(s, Times(2, By(t, ReleaseLease(l, true))))
            == SetSlot(s, t, i, s.slots[i].(holder := ByThread(t)), OnSlot(i, Publish(Idle, Outside)))
                 .(leases := s.leases[l := s.leases[l].(active := false)])
  {
    hide WaitStep, EnterStep, PassStep, DrainStep, BorrowStep, InsideStep, BothStep, FinishStep, DisposeStep,
      LookStep, Exec, Times;
    var s1 := SetSlot(s, t, i, s.slots[i].(holder := ByThread(t)), OnSlot(i, StrictCheck(true)))
                .(leases := s.leases[l := s.leases[l].(active := false)]);
    var publish := OnSlot(i, Publish(Idle, Outside));
    assert s1.threads[t := publish] == s.threads[t := publish];
    TwoSteps(s, By(t, ReleaseLease(l, true)), s1, s1.(threads := s.threads[t := publish]));
  }

  /** `_release_strict`, alone, of a clean lease: the slot is idle again and the lease never validates. */
  lemma StrictReleaseGivesBack(s: State, t: nat, l: nat, i: nat, conn: nat) returns (run: seq<Event>)
    requires Quiet(s, t) && LeaseValid(s, l) && s.leases[l].thread == t && s.leases[l].slot == i
    requires s.slots[i].conn == Some(conn) && conn !in s.closed
    ensures Alone(run, By(t, ReleaseLease(l, true))) && !LeaseValid(Exec(s, run), l)
    ensures Exec(s, run) == s.(slots := s.slots[i := s.slots[i].(holder := Free, state := Idle)],
                               leases := s.leases[l := s.leases[l].(active := false)])
  {
    hide Step;
    var e := By(t, ReleaseLease(l, true));
    StrictChecked(s, t, l, i, conn);
    var s2 := Exec(s, Times(2, e));
    PublishesSlot(s2, t, i, Idle, Outside, Calls(ReleaseLease(l, true)));
    run := Times(2, e) + Times(2, e);
    ExecConcat(s, Times(2, e), Times(2, e));
    var s4 := Exec(s, run);
    assert s4.threads == s.threads;
    assert s4.slots == s.slots[i := s.slots[i].(holder := Free, state := Idle)];
  }
}
