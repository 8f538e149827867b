/**
  No lost wake-up for the borrowers of a legacy provider: while one of them is parked on the
  Condition, either no slot can be reserved or some thread is committed to a `notify_all`.
  The charged-count probe breaks the promise, and nothing else does.
*/
module ConnectionProviderWakeup {
  import opened ConnectionProvider
  import opened Wrappers
  import opened ConnectionProviderSafety

  predicate Reservable(state: SlotState) { state == Idle || state == Empty || state == Closed }

  /** A thread whose next steps are to enter the Condition and notify everyone. */
  predicate Committed(th: Thread) {
    match th
    case Unlocked(pc) => pc.NotifyEnter?
    case InCond(pc) => pc.NotifyAll? || pc.ReleaseNotify?
    case _ => false
  }

  ghost predicate SomeCommitted(s: State) {
    exists t: nat :: t < |s.threads| && Committed(s.threads[t])
  }

  /** The promise. */
  ghost predicate WakeOk(s: State) {
    (s.waiters != {} && exists i: nat :: i < |s.slots| && s.slots[i].holder == Free && Reservable(s.slots[i].state))
    ==> SomeCommitted(s)
  }

  // --------------------------------------------------------------------- invariant

  /** The borrower in the Condition is looking at slot `i`. */
  predicate Looking(s: State, i: nat) {
    && s.cond.Some? && s.cond.value < |s.threads| && s.threads[s.cond.value].InCondOnSlot?
    && s.threads[s.cond.value].slot == i && s.threads[s.cond.value].both.BorrowLook?
  }

  ghost predicate Avail(s: State, i: nat) {
    i < |s.slots| && Reservable(s.slots[i].state) && (s.slots[i].holder == Free || Looking(s, i))
  }

  ghost predicate AvailIdle(s: State, i: nat) { Avail(s, i) && s.slots[i].state == Idle }

  /** What a borrower under the Condition knows of the slots its scan has left behind. */
  ghost predicate Claim(s: State, th: Thread) {
    match th
    case InCond(BorrowScan(create, i)) => Passed(s, create, i)
    case InCondOnSlot(i, BorrowLook(create)) => Passed(s, create, i)
    case InCond(BorrowNone) => forall j: nat :: !Avail(s, j)
    case _ => true
  }

  ghost predicate Passed(s: State, create: bool, i: nat) {
    if create then (forall j: nat :: !AvailIdle(s, j)) && (forall j: nat :: j < i ==> !Avail(s, j))
    else forall j: nat :: j < i ==> !AvailIdle(s, j)
  }

  ghost predicate Calm(s: State) {
    && (s.waiters != {} ==> forall j: nat :: !Avail(s, j))
    && (forall t: nat :: t < |s.threads| ==> Claim(s, s.threads[t]))
  }

  /** Whoever is going to unlock a slot notifies, or leaves it quarantined, or runs after a seal. */
  ghost predicate Notifies(slots: seq<Slot>, th: Thread, sealed: bool) {
    match th
    case Unlocked(k) => !k.ProbeScan?
    case InCond(pc) => pc.Leave? ==> !pc.k.ProbeScan?
    case OnSlot(i, pc) => WorkNotifies(slots, i, pc, sealed)
    case _ => true
  }

  ghost predicate WorkNotifies(slots: seq<Slot>, i: nat, pc: Work, sealed: bool) {
    match pc
    case Publish(state, k) => !k.ProbeScan? && (k.NotifyEnter? || state == Quarantined || sealed)
    case Unlock(k) => !k.ProbeScan? && (k.NotifyEnter? || sealed || (i < |slots| && slots[i].state == Quarantined))
    case DisposeMark(k, failed) => !k.ProbeScan? && !failed.ProbeScan? && (k.NotifyEnter? || sealed)
    case DisposeClose(k, failed) => !k.ProbeScan? && !failed.ProbeScan? && (k.NotifyEnter? || sealed)
    case DisposeProve(k, failed) => !k.ProbeScan? && !failed.ProbeScan? && (k.NotifyEnter? || sealed)
    case ProbeLook(_) => false
    case _ => true
  }

  ghost predicate WakeInv(s: State) {
    && Inv(s) && !s.strict && !s.probes
    && (s.sealed ==> s.waiters == {})
    && (forall t: nat :: t < |s.threads| ==> Notifies(s.slots, s.threads[t], s.sealed))
    && (SomeCommitted(s) || Calm(s))
  }

  lemma WakeInvMeans(s: State)
    requires WakeInv(s)
    ensures WakeOk(s)
  {
    if s.waiters != {} && Calm(s) {
      forall i: nat | i < |s.slots| ensures !(s.slots[i].holder == Free && Reservable(s.slots[i].state)) {
        assert !Avail(s, i);
      }
    }
  }

  // ------------------------------------------------------------------ one step of a thread

  predicate Looks(th: Thread) { th.InCondOnSlot? && th.both.BorrowLook? }

  /** Thread `t` moves to `th` and changes at most slot `x`, which nobody else has locked. */
  ghost predicate Local(s: State, s': State, t: nat, th: Thread, x: nat) {
    && t < |s.threads| && s'.threads == s.threads[t := th] && |s.slots| == |s'.slots|
    && (forall i: nat :: i < |s.slots| && i != x ==> s'.slots[i] == s.slots[i])
    && (Held(s.threads[t]).Some? ==> x == Held(s.threads[t]).value)
    && (Held(th).Some? ==> x == Held(th).value)
    && (x < |s.slots| && s.slots[x].holder.ByThread? ==> s.slots[x].holder.thread == t)
    && !s'.strict && !s'.probes && (s.sealed ==> s'.sealed)
    && (s'.sealed ==> s'.waiters == {})
    && Notifies(s'.slots, th, s'.sealed)
  }

  lemma OthersNotify(s: State, s': State, t: nat, th: Thread, x: nat, u: nat)
    requires WakeInv(s) && Local(s, s', t, th, x) && u < |s'.threads|
    ensures Notifies(s'.slots, s'.threads[u], s'.sealed)
  {
    assert Notifies(s.slots, s.threads[u], s.sealed);
    assert ThreadOk(s, u);
  }

  /** An available slot is locked by nobody but the borrower that looks at it. */
  lemma AvailHolder(s: State, i: nat)
    requires Inv(s)
    ensures Avail(s, i) ==> s.slots[i].holder == Free
                            || (s.slots[i].holder == ByThread(s.cond.value) && Looks(s.threads[s.cond.value]))
  {
    if Looking(s, i) { assert ThreadOk(s, s.cond.value); }
  }

  /** No slot becomes available but `x`. */
  lemma AvailOnlyAt(s: State, s': State, t: nat, th: Thread, x: nat, j: nat)
    requires Inv(s) && Inv(s') && Local(s, s', t, th, x) && j != x
    ensures Avail(s', j) ==> Avail(s, j) && s'.slots[j].state == s.slots[j].state
  {
    if Looking(s', j) {
      var u := s'.cond.value;
      assert ThreadOk(s', u);
      assert u != t;
      assert ThreadOk(s, u);
    }
  }

  /** No slot becomes available, or changes its state while it is. */
  ghost predicate NoneFreed(s: State, s': State) {
    forall j: nat :: Avail(s', j) ==> Avail(s, j) && s'.slots[j].state == s.slots[j].state
  }

  lemma NoneFreedBy(s: State, s': State, t: nat, th: Thread, x: nat)
    requires Inv(s) && Inv(s') && Local(s, s', t, th, x)
    requires Avail(s', x) ==> Avail(s, x) && s'.slots[x].state == s.slots[x].state
    ensures NoneFreed(s, s')
  {
    forall j: nat ensures Avail(s', j) ==> Avail(s, j) && s'.slots[j].state == s.slots[j].state {
      if j != x { AvailOnlyAt(s, s', t, th, x, j); }
    }
  }

  lemma ClaimKept(s: State, s': State, th: Thread)
    requires NoneFreed(s, s') && Claim(s, th)
    ensures Claim(s', th)
  {
    forall j: nat ensures AvailIdle(s', j) ==> AvailIdle(s, j) {
      assert Avail(s', j) ==> Avail(s, j);
    }
  }

  lemma CalmKept(s: State, s': State, t: nat, th: Thread, x: nat)
    requires Inv(s) && Inv(s') && Local(s, s', t, th, x) && Calm(s)
    requires Avail(s', x) ==> Avail(s, x) && s'.slots[x].state == s.slots[x].state
    requires s'.waiters <= s.waiters && Claim(s', th)
    ensures Calm(s')
  {
    NoneFreedBy(s, s', t, th, x);
    forall u: nat | u < |s'.threads| ensures Claim(s', s'.threads[u]) {
      if u != t {
        assert Claim(s, s.threads[u]);
        ClaimKept(s, s', s.threads[u]);
      }
    }
  }

  /** After a seal nobody waits and nobody scans. */
  lemma SealedCalm(s: State)
    requires Inv(s) && s.sealed && s.waiters == {}
    ensures Calm(s)
  {
    forall u: nat | u < |s.threads| ensures Claim(s, s.threads[u]) { assert ThreadOk(s, u); }
  }

  lemma SealedWake(s: State, s': State, t: nat, th: Thread, x: nat)
    requires WakeInv(s) && Inv(s') && Local(s, s', t, th, x) && s'.sealed
    ensures WakeInv(s')
  {
    forall u: nat | u < |s'.threads| ensures Notifies(s'.slots, s'.threads[u], s'.sealed) {
      OthersNotify(s, s', t, th, x, u);
    }
    SealedCalm(s');
  }

  /** A thread that commits itself may free whatever it likes. */
  lemma CommitWake(s: State, s': State, t: nat, th: Thread, x: nat)
    requires WakeInv(s) && Inv(s') && Local(s, s', t, th, x) && Committed(th)
    ensures WakeInv(s')
  {
    forall u: nat | u < |s'.threads| ensures Notifies(s'.slots, s'.threads[u], s'.sealed) {
      OthersNotify(s, s', t, th, x, u);
    }
    assert Committed(s'.threads[t]);
  }

  /** A thread that was not committed frees nothing. */
  lemma QuietWake(s: State, s': State, t: nat, th: Thread, x: nat)
    requires WakeInv(s) && Inv(s') && Local(s, s', t, th, x) && !Committed(s.threads[t])
    requires Avail(s', x) ==> Avail(s, x) && s'.slots[x].state == s.slots[x].state
    requires s'.waiters <= s.waiters && (Calm(s) ==> Claim(s', th))
    ensures WakeInv(s')
  {
    forall u: nat | u < |s'.threads| ensures Notifies(s'.slots, s'.threads[u], s'.sealed) {
      OthersNotify(s, s', t, th, x, u);
    }
    if SomeCommitted(s) {
      var u: nat :| u < |s.threads| && Committed(s.threads[u]);
      assert Committed(s'.threads[u]);
    } else {
      CalmKept(s, s', t, th, x);
    }
  }

  /** A thread that has notified everybody leaves nobody waiting. */
  lemma NotifiedWake(s: State, s': State, t: nat, th: Thread)
    requires WakeInv(s) && Inv(s') && Local(s, s', t, th, |s.slots|)
    requires s.threads[t].InCond? && th.InCond? && th.inside.Leave? && s'.waiters == {} && s'.cond == s.cond
    ensures WakeInv(s')
  {
    forall u: nat | u < |s'.threads| ensures Notifies(s'.slots, s'.threads[u], s'.sealed) {
      OthersNotify(s, s', t, th, |s.slots|, u);
    }
    assert ThreadOk(s, t);
    forall u: nat | u < |s'.threads| ensures Claim(s', s'.threads[u]) {
      assert ThreadOk(s, u);
    }
  }

  /** A move that touches no slot, by a thread that neither scans nor is committed. */
  lemma MoveWake(s: State, s': State, t: nat, th: Thread)
    requires WakeInv(s) && Inv(s') && t < |s.threads| && s'.threads == s.threads[t := th] && s'.slots == s.slots
    requires !s'.strict && !s'.probes && s'.sealed == s.sealed && s'.waiters <= s.waiters
    requires Held(th) == Held(s.threads[t]) && !Looks(th) && !Committed(s.threads[t])
    requires Notifies(s.slots, th, s.sealed) && (Calm(s) ==> Claim(s', th))
    ensures WakeInv(s')
  {
    assert ThreadOk(s, t);
    var x := if Held(th).Some? then Held(th).value else |s.slots|;
    if x < |s.slots| { AvailHolder(s', x); }
    QuietWake(s, s', t, th, x);
  }

  /** Slot `i` stays locked, by thread `t` or by a lease. */
  lemma HoldWake(s: State, s': State, t: nat, th: Thread, i: nat)
    requires WakeInv(s) && Inv(s') && Local(s, s', t, th, i) && i < |s.slots| && !Committed(s.threads[t])
    requires s'.slots[i].holder != Free && !Looks(th) && s'.waiters == s.waiters
    requires Calm(s) ==> Claim(s', th)
    ensures WakeInv(s')
  {
    AvailHolder(s', i);
    if Looking(s', i) { assert ThreadOk(s, s'.cond.value); }
    QuietWake(s, s', t, th, i);
  }

  lemma Facts(s: State, t: nat)
    requires WakeInv(s) && t < |s.threads|
    ensures ThreadOk(s, t) && Notifies(s.slots, s.threads[t], s.sealed) && !s.strict && !s.probes
    ensures s.sealed ==> s.waiters == {}
    ensures Calm(s) ==> Claim(s, s.threads[t])
    ensures Held(s.threads[t]).Some? ==> SlotOk(s, Held(s.threads[t]).value)
    ensures forall l: nat :: !LeaseValid(s, l)
  {
    assert ThreadOk(s, t);
    forall l: nat ensures !LeaseValid(s, l) {
      assert l < |s.leases| ==> LeaseOk(s, l);
      assert l < |s.leases| && s.leases[l].slot < |s.slots| ==> SlotOk(s, s.leases[l].slot);
    }
  }

  // ------------------------------------------------------------------- the steps, in turn

  lemma StartWake(s: State, t: nat, c: Choice)
    requires WakeInv(s) && t < |s.threads| && s.threads[t] == Unlocked(Outside) && Inv(StartStep(s, t, c))
    ensures WakeInv(StartStep(s, t, c))
  {
    hide WakeInv, Inv;
    Facts(s, t);
    var s' := StartStep(s, t, c);
    match c.op
    case Borrow => MoveWake(s, s', t, Unlocked(BorrowTop));
    case Release(conn) => MoveWake(s, s', t, Unlocked(ReleaseEnter(conn)));
    case Close(bounded) => MoveWake(s, s', t, Unlocked(SealEnter(bounded)));
    case _ =>
  }

  lemma WaitWake(s: State, t: nat, pc: Loose, c: Choice)
    requires WakeInv(s) && t < |s.threads| && s.threads[t] == Unlocked(pc) && WaitPc(pc) && Inv(WaitStep(s, t, pc, c))
    ensures WakeInv(WaitStep(s, t, pc, c))
  {
    hide WakeInv, Inv;
    Facts(s, t);
    var s' := WaitStep(s, t, pc, c);
    match pc
    case BorrowTop => MoveWake(s, s', t, Unlocked(if s.closing then Outside else BorrowEnter));
    case BorrowParked => if t !in s.waiters || c.expired { MoveWake(s, s', t, Unlocked(BorrowWake)); }
    case BorrowPause => MoveWake(s, s', t, Unlocked(if c.expired then Outside else BorrowTop));
    case _ =>
  }

  lemma EnterWake(s: State, t: nat, pc: Loose, c: Choice)
    requires WakeInv(s) && t < |s.threads| && s.threads[t] == Unlocked(pc) && Inv(EnterStep(s, t, pc, c))
    requires pc.BorrowWake? || pc.NotifyEnter? || pc.ReleaseEnter?
    ensures WakeInv(EnterStep(s, t, pc, c))
  {
    hide WakeInv, Inv;
    Facts(s, t);
    var s' := EnterStep(s, t, pc, c);
    match pc
    case BorrowWake => if s.cond == None { MoveWake(s, s', t, InCond(Leave(BorrowTop))); }
    case NotifyEnter(again) => if s.cond == None { CommitWake(s, s', t, InCond(NotifyAll(again)), |s.slots|); }
    case ReleaseEnter(conn) => if s.cond == None { MoveWake(s, s', t, InCond(ReleasePop(conn))); }
    case _ =>
  }

  /** The two entries that may give up. */
  lemma TimedEnterWake(s: State, t: nat, pc: Loose, c: Choice)
    requires WakeInv(s) && t < |s.threads| && s.threads[t] == Unlocked(pc) && Inv(EnterStep(s, t, pc, c))
    requires pc.BorrowEnter? || pc.SealEnter?
    ensures WakeInv(EnterStep(s, t, pc, c))
  {
    hide WakeInv, Inv;
    Facts(s, t);
    var s' := EnterStep(s, t, pc, c);
    if s' != s { MoveWake(s, s', t, s'.threads[t]); }
  }

  /** A closer that has passed the barrier moves between its passes. */
  lemma CloserWake(s: State, s': State, t: nat, th: Thread)
    requires WakeInv(s) && Inv(s') && s.sealed && t < |s.threads| && s'.threads == s.threads[t := th]
    requires s'.slots == s.slots && s'.strict == s.strict && s'.probes == s.probes && s'.sealed
    requires s'.waiters == s.waiters && Held(th) == Held(s.threads[t]) && Notifies(s.slots, th, true)
    ensures WakeInv(s')
  {
    assert ThreadOk(s, t);
    SealedWake(s, s', t, th, if Held(th).Some? then Held(th).value else |s.slots|);
  }

  lemma TryLockWake(s: State, t: nat, j: nat, look: Thread, skip: Thread)
    requires WakeInv(s) && s.sealed && t < |s.threads| && j < |s.slots|
    requires Inv(TryLock(s, t, j, look, skip)) && Held(s.threads[t]).None? && Held(skip).None? && Held(look) == Some(j)
    requires Notifies(s.slots, skip, true) && look.OnSlot? && LookPc(look.work) && !look.work.ProbeLook?
    ensures WakeInv(TryLock(s, t, j, look, skip))
  {
    if s.slots[j].holder == Free {
      SealedWake(s, TryLock(s, t, j, look, skip), t, look, j);
    } else {
      CloserWake(s, TryLock(s, t, j, look, skip), t, skip);
    }
  }

  lemma PassWake(s: State, t: nat, pc: Loose)
    requires WakeInv(s) && t < |s.threads| && s.threads[t] == Unlocked(pc) && PassPc(pc) && Inv(PassStep(s, t, pc))
    ensures WakeInv(PassStep(s, t, pc))
  {
    hide WakeInv, Inv;
    Facts(s, t);
    var j := pc.j;
    if j >= |s.slots| {
      CloserWake(s, PassStep(s, t, pc), t, Unlocked(if pc.DrainScan? then DrainEnd(pc.pending) else Outside));
    } else if pc.DrainScan? {
      TryLockWake(s, t, j, OnSlot(j, DrainLook(pc.pending)), Unlocked(DrainScan(j + 1, true)));
    } else {
      TryLockWake(s, t, j, OnSlot(j, CloseLook), Unlocked(CloseScan(j + 1)));
    }
  }

  lemma DrainWake(s: State, t: nat, pc: Loose, c: Choice)
    requires WakeInv(s) && t < |s.threads| && s.threads[t] == Unlocked(pc) && Inv(DrainStep(s, t, pc, c))
    requires pc.DrainEnter? || pc.DrainTop? || pc.DrainEnd? || pc.DrainLeave?
    ensures WakeInv(DrainStep(s, t, pc, c))
  {
    hide WakeInv, Inv;
    Facts(s, t);
    var s' := DrainStep(s, t, pc, c);
    if s' != s { MoveWake(s, s', t, s'.threads[t]); }
  }

  /** The borrower locks a slot to look at it. */
  lemma LookWake(s: State, t: nat, create: bool, i: nat, c: Choice)
    requires WakeInv(s) && t < |s.threads| && s.threads[t] == InCond(BorrowScan(create, i)) && i < |s.slots|
    requires s.slots[i].holder == Free && Inv(BorrowStep(s, t, BorrowScan(create, i), c))
    ensures WakeInv(BorrowStep(s, t, BorrowScan(create, i), c))
  {
    Facts(s, t);
    var s' := BorrowStep(s, t, BorrowScan(create, i), c);
    var look := InCondOnSlot(i, BorrowLook(create));
    NoneFreedBy(s, s', t, look, i);
    if Calm(s) { ClaimKept(s, s', s.threads[t]); }
    QuietWake(s, s', t, look, i);
  }

  lemma PassedOn(s: State, create: bool, i: nat)
    requires Passed(s, create, i) && !AvailIdle(s, i) && (create ==> !Avail(s, i))
    ensures Passed(s, create, i + 1)
  {
  }

  /** A slot that somebody else has locked cannot be reserved. */
  lemma SkipWake(s: State, t: nat, create: bool, i: nat, c: Choice)
    requires WakeInv(s) && t < |s.threads| && s.threads[t] == InCond(BorrowScan(create, i)) && i < |s.slots|
    requires s.slots[i].holder != Free && Inv(BorrowStep(s, t, BorrowScan(create, i), c))
    ensures WakeInv(BorrowStep(s, t, BorrowScan(create, i), c))
  {
    Facts(s, t);
    var s' := BorrowStep(s, t, BorrowScan(create, i), c);
    var skip := InCond(BorrowScan(create, i + 1));
    NoneFreedBy(s, s', t, skip, |s.slots|);
    if Calm(s) {
      ClaimKept(s, s', s.threads[t]);
      assert !Avail(s', i);
      PassedOn(s', create, i);
    }
    QuietWake(s, s', t, skip, |s.slots|);
  }

  /** The end of a round: nothing idle is available, or nothing at all. */
  lemma RoundWake(s: State, t: nat, create: bool, i: nat, c: Choice)
    requires WakeInv(s) && t < |s.threads| && s.threads[t] == InCond(BorrowScan(create, i)) && i >= |s.slots|
    requires Inv(BorrowStep(s, t, BorrowScan(create, i), c))
    ensures WakeInv(BorrowStep(s, t, BorrowScan(create, i), c))
  {
    Facts(s, t);
    var s' := BorrowStep(s, t, BorrowScan(create, i), c);
    NoneFreedBy(s, s', t, s'.threads[t], |s.slots|);
    if Calm(s) {
      ClaimKept(s, s', s.threads[t]);
      assert forall j: nat :: !AvailIdle(s', j);
    }
    QuietWake(s, s', t, s'.threads[t], |s.slots|);
  }

  /** A borrower that parks has seen that nothing can be reserved, or somebody will notify it. */
  lemma ParkWake(s: State, t: nat, c: Choice)
    requires WakeInv(s) && t < |s.threads| && s.threads[t] == InCond(BorrowNone) && !c.expired
    requires Inv(BorrowStep(s, t, BorrowNone, c))
    ensures WakeInv(BorrowStep(s, t, BorrowNone, c))
  {
    Facts(s, t);
    var s' := BorrowStep(s, t, BorrowNone, c);
    forall u: nat | u < |s'.threads| ensures Notifies(s'.slots, s'.threads[u], s'.sealed) {
      assert Notifies(s.slots, s.threads[u], s.sealed);
    }
    if SomeCommitted(s) {
      var u: nat :| u < |s.threads| && Committed(s.threads[u]);
      assert Committed(s'.threads[u]);
    } else {
      forall j: nat ensures !Avail(s', j) { assert !Avail(s, j); }
      forall u: nat | u < |s'.threads| ensures Claim(s', s'.threads[u]) { assert ThreadOk(s, u); }
    }
  }

  lemma ScanWake(s: State, t: nat, pc: Inside, c: Choice)
    requires WakeInv(s) && t < |s.threads| && s.threads[t] == InCond(pc) && BorrowPc(pc) && Inv(BorrowStep(s, t, pc, c))
    ensures WakeInv(BorrowStep(s, t, pc, c))
  {
    hide WakeInv, Inv;
    Facts(s, t);
    match pc
    case BorrowCheck => MoveWake(s, BorrowStep(s, t, pc, c), t,
      InCond(if s.closing then Leave(Outside) else BorrowScan(false, 0)));
    case BorrowScan(create, i) =>
      if i >= |s.slots| { RoundWake(s, t, create, i, c); }
      else if s.slots[i].holder == Free { LookWake(s, t, create, i, c); }
      else { SkipWake(s, t, create, i, c); }
    case BorrowNone =>
      if c.expired { MoveWake(s, BorrowStep(s, t, pc, c), t, InCond(Leave(Outside))); } else { ParkWake(s, t, c); }
    case _ =>
  }

  lemma PassOverWake(s: State, t: nat, i: nat, create: bool)
    requires WakeInv(s) && t < |s.threads| && i < |s.slots| && s.threads[t] == InCondOnSlot(i, BorrowLook(create))
    requires !Wanted(create, s.slots[i].state) && Inv(BothStep(s, t, i, BorrowLook(create)))
    ensures WakeInv(BothStep(s, t, i, BorrowLook(create)))
  {
    Facts(s, t);
    var s' := BothStep(s, t, i, BorrowLook(create));
    var scan := InCond(BorrowScan(create, i + 1));
    NoneFreedBy(s, s', t, scan, i);
    if Calm(s) {
      ClaimKept(s, s', s.threads[t]);
      assert create ==> !AvailIdle(s, i);
      PassedOn(s', create, i);
    }
    QuietWake(s, s', t, scan, i);
  }

  lemma BothWake(s: State, t: nat, i: nat, pc: Both)
    requires WakeInv(s) && t < |s.threads| && i < |s.slots| && s.threads[t] == InCondOnSlot(i, pc)
    requires Inv(BothStep(s, t, i, pc)) && (pc.BorrowLook? ==> Wanted(pc.create, s.slots[i].state))
    ensures WakeInv(BothStep(s, t, i, pc))
  {
    hide WakeInv, Inv;
    Facts(s, t);
    var s' := BothStep(s, t, i, pc);
    match pc
    case BorrowLook(create) => HoldWake(s, s', t, InCondOnSlot(i, LeaveWith(FinishCheck)), i);
    case FinishLend =>
      if s.closing { HoldWake(s, s', t, InCondOnSlot(i, LeaveWith(DISCARD)), i); }
      else { HoldWake(s, s', t, InCond(Leave(Outside)), i); }
    case LeaveWith(w) => HoldWake(s, s', t, OnSlot(i, w), i);
    case ReturnIdle => HoldWake(s, s', t, InCondOnSlot(i, ReturnUnlock), i);
    case ReturnUnlock => CommitWake(s, s', t, InCond(ReleaseNotify), i);
  }

  lemma PopWake(s: State, t: nat, conn: nat)
    requires WakeInv(s) && t < |s.threads| && s.threads[t] == InCond(ReleasePop(conn))
    requires Inv(InsideStep(s, t, ReleasePop(conn)))
    ensures WakeInv(InsideStep(s, t, ReleasePop(conn)))
  {
    Facts(s, t);
    var s' := InsideStep(s, t, ReleasePop(conn));
    if conn in s.legacy {
      assert LegacyOk(s, conn);
      HoldWake(s, s', t, s'.threads[t], s.legacy[conn]);
    } else {
      MoveWake(s, s', t, InCond(Leave(Outside)));
    }
  }

  lemma InsideWake(s: State, t: nat, pc: Inside)
    requires WakeInv(s) && t < |s.threads| && s.threads[t] == InCond(pc) && !BorrowPc(pc) && Inv(InsideStep(s, t, pc))
    ensures WakeInv(InsideStep(s, t, pc))
  {
    hide WakeInv, Inv;
    Facts(s, t);
    var s' := InsideStep(s, t, pc);
    match pc
    case NotifyAll(again) => NotifiedWake(s, s', t, InCond(Leave(if again then BorrowTop else Outside)));
    case ReleasePop(conn) => PopWake(s, t, conn);
    case ReleaseNotify => NotifiedWake(s, s', t, InCond(Leave(Outside)));
    case SealNotify(bounded) => SealedWake(s, s', t, InCond(Leave(if bounded then DrainEnter else CloseScan(0))),
      |s.slots|);
    case Leave(k) => if k.NotifyEnter? { CommitWake(s, s', t, Unlocked(k), |s.slots|); } else { MoveWake(s, s', t,
      Unlocked(k)); }
    case _ =>
  }

  lemma FinishWake(s: State, t: nat, i: nat, pc: Work, c: Choice)
    requires WakeInv(s) && t < |s.threads| && i < |s.slots| && s.threads[t] == OnSlot(i, pc)
    requires pc.FinishCheck?
    requires Inv(FinishStep(s, t, i, pc, c))
    ensures WakeInv(FinishStep(s, t, i, pc, c))
  {
    hide WakeInv, Inv;
    Facts(s, t);
    var s' := FinishStep(s, t, i, pc, c);
    match pc
    case FinishCheck =>
      if s.slots[i].state == Creating { HoldWake(s, s', t, OnSlot(i, FinishCreate), i); }
      else if Lost(s.slots[i], s.closed) { HoldWake(s, s', t, OnSlot(i, Publish(Closed, NotifyEnter(true))), i); }
      else { HoldWake(s, s', t, OnSlot(i, FinishEnter), i); }
    case _ =>
  }

  lemma CreateWake(s: State, t: nat, i: nat, c: Choice)
    requires WakeInv(s) && t < |s.threads| && i < |s.slots| && s.threads[t] == OnSlot(i, FinishCreate)
    requires Inv(FinishStep(s, t, i, FinishCreate, c))
    ensures WakeInv(FinishStep(s, t, i, FinishCreate, c))
  {
    hide WakeInv, Inv;
    Facts(s, t);
    var s' := FinishStep(s, t, i, FinishCreate, c);
    HoldWake(s, s', t, if c.ok then OnSlot(i, FinishEnter) else OnSlot(i, Publish(Empty, NotifyEnter(false))), i);
  }

  lemma FinishEnterWake(s: State, t: nat, i: nat, c: Choice)
    requires WakeInv(s) && t < |s.threads| && i < |s.slots| && s.threads[t] == OnSlot(i, FinishEnter)
    requires Inv(FinishStep(s, t, i, FinishEnter, c))
    ensures WakeInv(FinishStep(s, t, i, FinishEnter, c))
  {
    hide WakeInv, Inv;
    Facts(s, t);
    if s.cond == None { HoldWake(s, FinishStep(s, t, i, FinishEnter, c), t, InCondOnSlot(i, FinishLend), i); }
  }

  lemma CloserLookWake(s: State, t: nat, i: nat, pc: Work, c: Choice)
    requires WakeInv(s) && t < |s.threads| && i < |s.slots| && s.threads[t] == OnSlot(i, pc)
    requires LookPc(pc) && Inv(LookStep(s, t, i, pc, c))
    ensures WakeInv(LookStep(s, t, i, pc, c))
  {
    hide WakeInv, Inv;
    Facts(s, t);
    var s' := LookStep(s, t, i, pc, c);
    CloserWake(s, s', t, s'.threads[t]);
  }

  lemma UnlockWake(s: State, t: nat, i: nat, k: Loose, c: Choice)
    requires WakeInv(s) && t < |s.threads| && i < |s.slots| && s.threads[t] == OnSlot(i, Unlock(k))
    requires Inv(DisposeStep(s, t, i, Unlock(k), c))
    ensures WakeInv(DisposeStep(s, t, i, Unlock(k), c))
  {
    hide WakeInv, Inv;
    Facts(s, t);
    var s' := DisposeStep(s, t, i, Unlock(k), c);
    if k.NotifyEnter? { CommitWake(s, s', t, Unlocked(k), i); }
    else if s.sealed { SealedWake(s, s', t, Unlocked(k), i); }
    else { QuietWake(s, s', t, Unlocked(k), i); }
  }

  lemma PublishWake(s: State, t: nat, i: nat, state: SlotState, k: Loose, c: Choice)
    requires WakeInv(s) && t < |s.threads| && i < |s.slots| && s.threads[t] == OnSlot(i, Publish(state, k))
    requires Inv(DisposeStep(s, t, i, Publish(state, k), c))
    ensures WakeInv(DisposeStep(s, t, i, Publish(state, k), c))
  {
    hide WakeInv, Inv;
    Facts(s, t);
    HoldWake(s, DisposeStep(s, t, i, Publish(state, k), c), t, OnSlot(i, Unlock(k)), i);
  }

  lemma DisposeWake(s: State, t: nat, i: nat, pc: Work, c: Choice)
    requires WakeInv(s) && t < |s.threads| && i < |s.slots| && s.threads[t] == OnSlot(i, pc)
    requires (pc.DisposeMark? || pc.DisposeClose? || pc.DisposeProve?) && Inv(DisposeStep(s, t, i, pc, c))
    ensures WakeInv(DisposeStep(s, t, i, pc, c))
  {
    hide WakeInv, Inv;
    Facts(s, t);
    var s' := DisposeStep(s, t, i, pc, c);
    HoldWake(s, s', t, s'.threads[t], i);
  }

  lemma BreakWake(s: State, conn: nat)
    requires WakeInv(s) && Inv(s.(closed := s.closed + {conn}))
    ensures WakeInv(s.(closed := s.closed + {conn}))
  {
    var s' := s.(closed := s.closed + {conn});
    forall t: nat | t < |s'.threads| ensures Notifies(s'.slots, s'.threads[t], s'.sealed) {
      assert Notifies(s.slots, s.threads[t], s.sealed);
    }
    if SomeCommitted(s) {
      var u: nat :| u < |s.threads| && Committed(s.threads[u]);
      assert Committed(s'.threads[u]);
    } else {
      assert NoneFreed(s, s');
      forall u: nat | u < |s'.threads| ensures Claim(s', s'.threads[u]) {
        assert Claim(s, s.threads[u]);
        ClaimKept(s, s', s.threads[u]);
      }
    }
  }

  lemma UnlockedWake(s: State, t: nat, pc: Loose, c: Choice)
    requires WakeInv(s) && t < |s.threads| && s.threads[t] == Unlocked(pc) && Inv(ThreadStep(s, t, c))
    ensures WakeInv(ThreadStep(s, t, c))
  {
    hide WakeInv, Inv;
    if pc == Outside { StartWake(s, t, c); }
    else if WaitPc(pc) { WaitWake(s, t, pc, c); }
    else if pc.BorrowEnter? || pc.SealEnter? { TimedEnterWake(s, t, pc, c); }
    else if EnterPc(pc) { EnterWake(s, t, pc, c); }
    else if PassPc(pc) { PassWake(s, t, pc); }
    else { DrainWake(s, t, pc, c); }
  }

  /** Only strict leases are checked on return, and only strict borrowers build one. */
  lemma NotStrict(s: State, t: nat, i: nat, pc: Work)
    requires WakeInv(s) && t < |s.threads| && s.threads[t] == OnSlot(i, pc)
    ensures !StrictPc(pc) && pc != FinishLease && i < |s.slots|
  {
    assert ThreadOk(s, t);
  }

  lemma OnSlotWake(s: State, t: nat, i: nat, pc: Work, c: Choice)
    requires WakeInv(s) && t < |s.threads| && s.threads[t] == OnSlot(i, pc) && Inv(ThreadStep(s, t, c))
    ensures WakeInv(ThreadStep(s, t, c))
  {
    hide WakeInv, Inv;
    NotStrict(s, t, i, pc);
    if pc == FinishEnter { FinishEnterWake(s, t, i, c); }
    else if pc == FinishCreate { CreateWake(s, t, i, c); }
    else if FinishPc(pc) { FinishWake(s, t, i, pc, c); }
    else if LookPc(pc) { CloserLookWake(s, t, i, pc, c); }
    else if pc.Publish? { PublishWake(s, t, i, pc.state, pc.k, c); }
    else if pc.Unlock? { UnlockWake(s, t, i, pc.k, c); }
    else { DisposeWake(s, t, i, pc, c); }
  }

  lemma StepWake(s: State, e: Event)
    requires WakeInv(s)
    ensures WakeInv(Step(s, e))
  {
    StepSafe(s, e);
    match e
    case Break(conn) => if conn < s.created { BreakWake(s, conn); }
    case Run(t, c) =>
      if t < |s.threads| {
        assert ThreadOk(s, t);
        match s.threads[t]
        case Unlocked(pc) => UnlockedWake(s, t, pc, c);
        case InCond(pc) => if BorrowPc(pc) { ScanWake(s, t, pc, c); } else { InsideWake(s, t, pc); }
        case OnSlot(i, pc) => OnSlotWake(s, t, i, pc, c);
        case InCondOnSlot(i, pc) =>
          if pc.BorrowLook? && !Wanted(pc.create, s.slots[i].state) { PassOverWake(s, t, i, pc.create); }
          else { BothWake(s, t, i, pc); }
      }
  }

  lemma {:induction false} RunWake(s: State, run: seq<Event>)
    requires WakeInv(s)
    ensures WakeInv(Exec(s, run))
    decreases |run|
  {
    if run != [] {
      StepWake(s, run[0]);
      RunWake(Step(s, run[0]), run[1..]);
    }
  }

  lemma InitWake(maxSize: nat, minSize: nat, threads: nat)
    requires minSize <= maxSize
    ensures WakeInv(Init(maxSize, minSize, threads, false, false))
  {
    InitSafe(maxSize, minSize, threads, false, false);
  }

  /** Strict borrowers never park; legacy borrowers are always notified unless the charged
      connections are probed. */
  lemma NoLostWakeup(maxSize: nat, minSize: nat, threads: nat, strict: bool, probes: bool, run: seq<Event>)
    requires minSize <= maxSize && (strict || !probes)
    ensures WakeOk(Exec(Init(maxSize, minSize, threads, strict, probes), run))
  {
    var s := Init(maxSize, minSize, threads, strict, probes);
    if strict {
      InitSafe(maxSize, minSize, threads, strict, probes);
      RunSafe(s, run);
    } else {
      InitWake(maxSize, minSize, threads);
      RunWake(s, run);
      WakeInvMeans(Exec(s, run));
    }
  }

  // ------------------------------------------------------ with the probe a wake-up is lost

  /** Thread 0 is about to try slot `j`, and the probe of thread 1 is about to lock it. */
  ghost predicate Chased(s: State, create: bool, j: nat, charged: nat) {
    && |s.threads| >= 2 && !s.strict && s.cond == Some(0) && j <= |s.slots|
    && s.threads[0] == InCond(BorrowScan(create, j)) && s.threads[1] == Unlocked(ProbeScan(j, charged))
    && (forall i: nat :: i < |s.slots| ==> s.slots[i].holder == Free && Reservable(s.slots[i].state))
  }

  function Meet(s: State, create: bool, j: nat, charged: nat): State
    requires |s.threads| >= 2
  {
    s.(threads := s.threads[0 := InCond(BorrowScan(create, j))][1 := Unlocked(ProbeScan(j, charged))])
  }

  const ONE_SLOT: seq<Event> := [Run(1, Calls(Probe)), Run(0, Calls(Probe)), Run(1, Calls(Probe)), Run(1, Calls(Probe))]

  /** What a probe adds for an unlocked slot. */
  function Charge(slot: Slot, charged: nat): nat { if Settled(slot) then charged else charged + 1 }

  /** The probe locks slot `j`. */
  function Probed(s: State, j: nat, charged: nat): State
    requires |s.threads| >= 2 && j < |s.slots|
  {
    SetSlot(s, 1, j, s.slots[j].(holder := ByThread(1)), OnSlot(j, ProbeLook(charged)))
  }

  lemma LockProbed(s: State, create: bool, j: nat, charged: nat)
    requires Chased(s, create, j, charged) && j < |s.slots|
    ensures Step(s, ONE_SLOT[0]) == Probed(s, j, charged)
  {
  }

  lemma SkipProbed(s: State, create: bool, j: nat, charged: nat)
    requires Chased(s, create, j, charged) && j < |s.slots|
    ensures Step(Probed(s, j, charged), ONE_SLOT[1])
            == Goto(Probed(s, j, charged), 0, InCond(BorrowScan(create, j + 1)))
  {
  }

  lemma LookProbed(s: State, j: nat, charged: nat)
    requires |s.threads| >= 2 && j < |s.slots| && s.threads[1] == OnSlot(j, ProbeLook(charged))
    ensures var s1 := Goto(s, 1, OnSlot(j, Unlock(ProbeScan(j + 1, Charge(s.slots[j], charged)))));
            Step(s, ONE_SLOT[2]) == s1
            && Step(s1, ONE_SLOT[3]) == SetSlot(s, 1, j, s.slots[j].(holder := Free),
                                                Unlocked(ProbeScan(j + 1, Charge(s.slots[j], charged))))
  {
  }

  /** The probe locks slot `j`, the borrower skips it, the probe unlocks it. */
  lemma ChaseOne(s: State, create: bool, j: nat, charged: nat)
    requires Chased(s, create, j, charged) && j < |s.slots|
    ensures Exec(s, ONE_SLOT) == Meet(s, create, j + 1, Charge(s.slots[j], charged))
  {
    hide Step;
    var s1 := Probed(s, j, charged);
    var s2 := Goto(s1, 0, InCond(BorrowScan(create, j + 1)));
    LockProbed(s, create, j, charged);
    SkipProbed(s, create, j, charged);
    LookProbed(s2, j, charged);
    var s3 := Step(s2, ONE_SLOT[2]);
    ExecStep(s, ONE_SLOT);
    ExecStep(s1, ONE_SLOT[1..]);
    ExecStep(s2, ONE_SLOT[2..]);
    ExecStep(s3, ONE_SLOT[3..]);
    var s4 := Step(s3, ONE_SLOT[3]);
    assert s4.slots == s.slots;
    assert s4.threads == Meet(s, create, j + 1, Charge(s.slots[j], charged)).threads;
  }

  /** So the borrower can be led past every slot, although each is unlocked most of the time. */
  lemma {:induction false} ChaseAll(s: State, create: bool, j: nat, charged: nat)
      returns (run: seq<Event>, counted: nat)
    requires Chased(s, create, j, charged)
    ensures Exec(s, run) == Meet(s, create, |s.slots|, counted)
    decreases |s.slots| - j
  {
    hide Step;
    if j == |s.slots| {
      run, counted := [], charged;
      assert s.threads == Meet(s, create, j, charged).threads;
    } else {
      ChaseOne(s, create, j, charged);
      var s1 := Meet(s, create, j + 1, Charge(s.slots[j], charged));
      var rest;
      rest, counted := ChaseAll(s1, create, j + 1, Charge(s.slots[j], charged));
      run := ONE_SLOT + rest;
      ExecConcat(s, ONE_SLOT, rest);
      assert Meet(s1, create, |s.slots|, counted).threads == Meet(s, create, |s.slots|, counted).threads;
    }
  }

  lemma BorrowCalled(s: State)
    requires |s.threads| > 0 && s.threads[0] == Unlocked(Outside) && !s.closing
    ensures Step(Step(s, Run(0, Calls(Borrow))), Run(0, Calls(Borrow))) == Goto(s, 0, Unlocked(BorrowEnter))
  {
  }

  lemma BorrowScans(s: State)
    requires |s.threads| > 0 && s.threads[0] == Unlocked(BorrowEnter) && !s.closing && s.cond == None
    ensures Step(Step(s, Run(0, Calls(Borrow))), Run(0, Calls(Borrow)))
            == Goto(s, 0, InCond(BorrowScan(false, 0))).(cond := Some(0))
  {
  }

  lemma ProbeCalled(s: State)
    requires |s.threads| > 1 && s.threads[1] == Unlocked(Outside) && s.probes
    ensures Step(s, Run(1, Calls(Probe))) == Goto(s, 1, Unlocked(ProbeScan(0, 0)))
  {
  }

  lemma ProbeDone(s: State, charged: nat)
    requires |s.threads| > 1 && s.threads[1] == Unlocked(ProbeScan(|s.slots|, charged))
    ensures Step(s, Run(1, Calls(Probe))) == Goto(s, 1, Unlocked(Outside))
  {
  }

  /** A borrower and a probe set out together. */
  lemma BothStart(maxSize: nat, minSize: nat, threads: nat) returns (run: seq<Event>)
    requires minSize <= maxSize && 2 <= threads
    ensures var s := Init(maxSize, minSize, threads, false, true);
            Exec(s, run) == Meet(s, false, 0, 0).(cond := Some(0))
  {
    var s := Init(maxSize, minSize, threads, false, true);
    var e := Run(0, Calls(Borrow));
    run := [];
    ExecThen(s, run, e);
    run := run + [e];
    ExecThen(s, run, e);
    run := run + [e];
    BorrowCalled(s);
    var s1 := Exec(s, run);
    ExecThen(s, run, e);
    run := run + [e];
    ExecThen(s, run, e);
    run := run + [e];
    BorrowScans(s1);
    ExecThen(s, run, Run(1, Calls(Probe)));
    ProbeCalled(Exec(s, run));
    run := run + [Run(1, Calls(Probe))];
    assert Exec(s, run).threads == Meet(s, false, 0, 0).threads;
  }

  /** Between its two rounds the borrower meets a second probe. */
  lemma SecondRound(s: State, charged: nat) returns (run: seq<Event>)
    requires Chased(s, false, |s.slots|, charged) && s.probes
    ensures Exec(s, run) == Meet(s, true, 0, 0)
  {
    var e := Run(0, Calls(Borrow));
    run := [];
    ExecThen(s, run, e);
    run := run + [e];
    assert Step(s, e) == Goto(s, 0, InCond(BorrowScan(true, 0)));
    var s1 := Exec(s, run);
    var p := Run(1, Calls(Probe));
    ExecThen(s, run, p);
    ProbeDone(s1, charged);
    run := run + [p];
    ExecThen(s, run, p);
    ProbeCalled(Exec(s, run));
    run := run + [p];
    assert Exec(s, run).threads == Meet(s, true, 0, 0).threads;
  }

  /** The borrower that has been led past every slot parks; the probe leaves and tells nobody. */
  lemma ParksUnnoticed(s: State, charged: nat) returns (run: seq<Event>)
    requires Chased(s, true, |s.slots|, charged)
    ensures Exec(s, run) == s.(threads := s.threads[0 := Unlocked(BorrowParked)][1 := Unlocked(Outside)],
                               cond := None, waiters := s.waiters + {0})
  {
    var e := Run(0, Calls(Borrow));
    run := [];
    ExecThen(s, run, e);
    run := run + [e];
    assert Step(s, e) == Goto(s, 0, InCond(BorrowNone));
    var s1 := Exec(s, run);
    ExecThen(s, run, e);
    run := run + [e];
    assert Step(s1, e) == ExitCond(s1, 0, Unlocked(BorrowParked)).(waiters := s.waiters + {0});
    ExecThen(s, run, Run(1, Calls(Probe)));
    ProbeDone(Exec(s, run), charged);
    run := run + [Run(1, Calls(Probe))];
    assert Exec(s, run).threads == s.threads[0 := Unlocked(BorrowParked)][1 := Unlocked(Outside)];
  }

  /** A probe of the charged connections loses a wake-up: every slot is unlocked and can be
      reserved, a borrower is parked, and nobody is going to notify it. */
  lemma ProbeLosesWakeup(maxSize: nat, minSize: nat, threads: nat) returns (run: seq<Event>)
    requires minSize <= maxSize && 1 <= maxSize && 2 <= threads
    ensures !WakeOk(Exec(Init(maxSize, minSize, threads, false, true), run))
  {
    var s0 := Init(maxSize, minSize, threads, false, true);
    run := BothStart(maxSize, minSize, threads);
    var s1 := Exec(s0, run);
    var first, charged := ChaseAll(s1, false, 0, 0);
    ExecConcat(s0, run, first);
    run := run + first;
    var s2 := Exec(s0, run);
    var again := SecondRound(s2, charged);
    ExecConcat(s0, run, again);
    run := run + again;
    var s3 := Exec(s0, run);
    var second, counted := ChaseAll(s3, true, 0, 0);
    ExecConcat(s0, run, second);
    run := run + second;
    var s4 := Exec(s0, run);
    var parks := ParksUnnoticed(s4, counted);
    ExecConcat(s0, run, parks);
    run := run + parks;
    NobodyCommitted(s0, Exec(s0, run));
  }

  lemma NobodyCommitted(s0: State, s: State)
    requires |s0.threads| == |s.threads| >= 2 && |s.slots| >= 1
    requires forall t: nat :: t < |s0.threads| ==> s0.threads[t] == Unlocked(Outside)
    requires forall t: nat :: 2 <= t < |s.threads| ==> s.threads[t] == s0.threads[t]
    requires s.threads[0] == Unlocked(BorrowParked) && s.threads[1] == Unlocked(Outside) && 0 in s.waiters
    requires s.slots[0].holder == Free && Reservable(s.slots[0].state)
    ensures !WakeOk(s)
  {
    forall t: nat | t < |s.threads| ensures !Committed(s.threads[t]) {
      assert 2 <= t ==> s.threads[t] == s0.threads[t];
    }
  }

  /** Exactly the providers that are strict or never probed keep the promise in every run. A
      provider without a slot or without a second thread has no wake-up to lose. */
  lemma WakeupExactly(maxSize: nat, minSize: nat, threads: nat, strict: bool, probes: bool)
    requires minSize <= maxSize && 1 <= maxSize && 2 <= threads
    ensures (forall run :: WakeOk(Exec(Init(maxSize, minSize, threads, strict, probes), run))) <==> strict || !probes
  {
    if strict || !probes {
      forall run ensures WakeOk(Exec(Init(maxSize, minSize, threads, strict, probes), run)) {
        NoLostWakeup(maxSize, minSize, threads, strict, probes, run);
      }
    } else {
      var run := ProbeLosesWakeup(maxSize, minSize, threads);
    }
  }
}
