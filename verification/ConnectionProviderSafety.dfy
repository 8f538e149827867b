/**
  What every step of the provider keeps: who holds which lock, which connection sits in
  which slot, and what a program counter may rely on.
*/
module ConnectionProviderSafety {
  import opened ConnectionProvider
  import opened Wrappers

  predicate Stable(state: SlotState) {
    state == Empty || state == Idle || state == Closed || state == Quarantined
  }

  function Held(th: Thread): Option<nat> {
    match th
    case OnSlot(i, _) => Some(i)
    case InCondOnSlot(i, _) => Some(i)
    case _ => None
  }

  predicate HoldsCond(th: Thread) { th.InCond? || th.InCondOnSlot? }

  /** Only a legacy provider parks borrowers and notifies them. */
  predicate LooseOk(pc: Loose, strict: bool) {
    strict ==> !pc.BorrowParked? && !pc.BorrowWake? && !pc.NotifyEnter?
  }

  predicate InsideOk(pc: Inside, strict: bool) {
    match pc
    case BorrowScan(create, _) => create ==> !strict
    case NotifyAll(_) => !strict
    case ReleaseNotify => !strict
    case Leave(k) => LooseOk(k, strict)
    case _ => true
  }

  predicate Leased(slot: Slot) { slot.state == Acquired && slot.conn.Some? }

  predicate Gone(slot: Slot, closed: set<nat>) { slot.conn.None? || slot.conn.value in closed }

  /** What a thread that holds a slot lock may rely on. */
  predicate WorkOk(slot: Slot, pc: Work, strict: bool, closed: set<nat>) {
    match pc
    case FinishCheck => Leased(slot) || (!strict && slot.state == Creating && Gone(slot, closed))
    case FinishCreate => !strict && slot.state == Creating && Gone(slot, closed)
    case FinishEnter => !strict && (slot.state == Acquired || slot.state == Creating) && slot.conn.Some?
    case FinishLease => strict && Leased(slot)
    case Publish(state, k) =>
      && LooseOk(k, strict) && !Stable(slot.state) && Stable(state)
      && (state == Idle ==> slot.conn.Some?)
      && (state == Closed ==> Lost(slot, closed))
      && (state == Empty ==> slot.conn.None?)
    case Unlock(k) => LooseOk(k, strict) && Stable(slot.state)
    case DisposeMark(k, failed) =>
      && LooseOk(k, strict) && LooseOk(failed, strict)
      && (slot.state == Acquired || slot.state == Creating || slot.state == Idle) && slot.conn.Some?
    case DisposeClose(k, failed) =>
      LooseOk(k, strict) && LooseOk(failed, strict) && slot.state == Closing && slot.conn.Some?
    case DisposeProve(k, failed) =>
      LooseOk(k, strict) && LooseOk(failed, strict) && slot.state == Closing && slot.conn.Some?
    case StrictCheck(_) => strict && Leased(slot)
    case StrictBudget => strict && Leased(slot)
    case _ => Stable(slot.state)
  }

  predicate BothOk(slot: Slot, pc: Both, strict: bool, closed: set<nat>) {
    match pc
    case BorrowLook(create) => Stable(slot.state) && (create ==> !strict)
    case FinishLend => !strict && (slot.state == Acquired || slot.state == Creating) && slot.conn.Some?
    case LeaveWith(w) => WorkOk(slot, w, strict, closed)
    case ReturnIdle => !strict && Leased(slot)
    case ReturnUnlock => !strict && slot.state == Idle && slot.conn.Some?
  }

  /** What a thread may rely on, given the locks it holds. */
  ghost predicate Allowed(slots: seq<Slot>, th: Thread, strict: bool, closed: set<nat>) {
    match th
    case Unlocked(pc) => LooseOk(pc, strict)
    case InCond(pc) => InsideOk(pc, strict)
    case OnSlot(i, pc) => i < |slots| && WorkOk(slots[i], pc, strict, closed)
    case InCondOnSlot(i, pc) => i < |slots| && BothOk(slots[i], pc, strict, closed)
  }

  // ---------------------------------------------------------------------- shutdown

  ghost predicate Clean(slots: seq<Slot>, n: nat) {
    forall i: nat :: i < n && i < |slots| ==> Settled(slots[i])
  }

  /** A closer about to pass the barrier has shut admission; one that drains has passed the
      barrier; a pass that has nothing pending has left only settled slots behind. */
  ghost predicate LooseShut(slots: seq<Slot>, pc: Loose, closing: bool, sealed: bool) {
    match pc
    case SealEnter(_) => closing
    case CloseScan(_) => sealed
    case DrainEnter => sealed
    case DrainTop => sealed
    case DrainScan(j, pending) => sealed && (pending || Clean(slots, j))
    case DrainEnd(pending) => sealed && (pending || Clean(slots, |slots|))
    case _ => true
  }

  /** The same for what follows the disposal of slot `i`. */
  ghost predicate AfterShut(slots: seq<Slot>, pc: Loose, i: nat, sealed: bool) {
    match pc
    case DrainScan(j, pending) => sealed && j <= i + 1 && (pending || Clean(slots, i))
    case CloseScan(_) => sealed
    case _ => Plain(pc)
  }

  predicate Plain(pc: Loose) {
    !pc.SealEnter? && !pc.CloseScan? && !pc.DrainEnter? && !pc.DrainTop? && !pc.DrainScan? && !pc.DrainEnd?
  }

  ghost predicate WorkShut(slots: seq<Slot>, i: nat, pc: Work, closing: bool, sealed: bool) {
    match pc
    case Publish(state, k) => AfterShut(slots, k, i, sealed) && (k.DrainScan? ==> state == Closed)
    case Unlock(k) => LooseShut(slots, k, closing, sealed)
    case DisposeMark(k, failed) => AfterShut(slots, k, i, sealed) && Plain(failed)
    case DisposeClose(k, failed) => AfterShut(slots, k, i, sealed) && Plain(failed)
    case DisposeProve(k, failed) => AfterShut(slots, k, i, sealed) && Plain(failed)
    case CloseLook => sealed
    case DrainLook(pending) => sealed && (pending || Clean(slots, i))
    case _ => true
  }

  ghost predicate ShutOk(slots: seq<Slot>, th: Thread, closing: bool, sealed: bool) {
    match th
    case Unlocked(pc) => LooseShut(slots, pc, closing, sealed)
    case InCond(pc) =>
      && (sealed ==> !pc.BorrowScan? && !pc.BorrowNone?)
      && (pc.SealNotify? ==> closing)
      && (pc.Leave? ==> LooseShut(slots, pc.k, closing, sealed))
    case OnSlot(i, pc) => WorkShut(slots, i, pc, closing, sealed)
    case InCondOnSlot(i, pc) =>
      && (sealed ==> !pc.BorrowLook? && pc != LeaveWith(FinishCheck))
      && (pc.LeaveWith? ==> pc.w == FinishCheck || pc.w == DISCARD)
  }

  // --------------------------------------------------------------------- invariant

  ghost predicate ThreadOk(s: State, t: nat)
    requires t < |s.threads|
  {
    var th := s.threads[t];
    && Allowed(s.slots, th, s.strict, s.closed)
    && ShutOk(s.slots, th, s.closing, s.sealed)
    && (HoldsCond(th) <==> s.cond == Some(t))
    && (Held(th).Some? ==> s.slots[Held(th).value].holder == ByThread(t))
  }

  ghost predicate SlotOk(s: State, i: nat)
    requires i < |s.slots|
  {
    var slot := s.slots[i];
    && (slot.conn.Some? ==> slot.conn.value < s.created)
    && (slot.state == Empty ==> slot.conn.None?)
    && (slot.state == Idle ==> slot.conn.Some?)
    && (slot.state == Closed ==> Lost(slot, s.closed))
    && match slot.holder
       case Free => Stable(slot.state)
       case ByThread(t) => t < |s.threads| && Held(s.threads[t]) == Some(i)
       case ByLegacyLease =>
         !s.strict && Leased(slot) && slot.conn.value in s.legacy && s.legacy[slot.conn.value] == i
       case ByStrictLease(l) =>
         && s.strict && Leased(slot)
         && l < |s.leases| && s.leases[l].active && s.leases[l].slot == i
         && s.leases[l].generation == slot.generation
  }

  ghost predicate LeaseOk(s: State, l: nat)
    requires l < |s.leases|
  {
    var lease := s.leases[l];
    && lease.slot < |s.slots|
    && lease.generation <= s.slots[lease.slot].generation
    && (lease.active ==> s.slots[lease.slot].holder == ByStrictLease(l))
  }

  ghost predicate LegacyOk(s: State, conn: nat)
    requires conn in s.legacy
  {
    && s.legacy[conn] < |s.slots|
    && s.slots[s.legacy[conn]].holder == ByLegacyLease
    && s.slots[s.legacy[conn]].conn == Some(conn)
  }

  ghost predicate InSlot(s: State, c: nat) {
    exists i :: 0 <= i < |s.slots| && s.slots[i].conn == Some(c)
  }

  /** Every connection that is still open sits in a slot, and no two slots share one. */
  ghost predicate ConnectionsOk(s: State) {
    && (forall c: nat :: c < s.created && c !in s.closed ==> InSlot(s, c))
    && (forall i, j :: 0 <= i < |s.slots| && 0 <= j < |s.slots| ==>
          s.slots[i].conn.Some? && s.slots[i].conn == s.slots[j].conn ==> i == j)
  }

  ghost predicate Inv(s: State) {
    && (forall t: nat :: t < |s.threads| ==> ThreadOk(s, t))
    && (forall i: nat :: i < |s.slots| ==> SlotOk(s, i))
    && (forall l: nat :: l < |s.leases| ==> LeaseOk(s, l))
    && (forall c: nat :: c in s.legacy ==> LegacyOk(s, c))
    && (s.strict ==> s.legacy == map[] && s.waiters == {})
    && (s.cond.Some? ==> s.cond.value < |s.threads|)
    && (s.sealed ==> s.closing)
    && (s.drained ==> s.sealed && Clean(s.slots, |s.slots|))
    && ConnectionsOk(s)
  }

  /** What only grows: generations and leases; a returned lease stays returned, quarantine is
      final, and after the barrier of a close nothing is reserved and no settled slot is opened
      again. */
  ghost predicate Grows(s: State, s': State) {
    && |s.slots| == |s'.slots| && |s.threads| == |s'.threads| && |s.leases| <= |s'.leases| && s.strict == s'.strict
    && (s.closing ==> s'.closing) && (s.sealed ==> s'.sealed)
    && (forall i: nat :: i < |s.slots| ==> s.slots[i].generation <= s'.slots[i].generation)
    && (forall i: nat :: i < |s.slots| && s.slots[i].state == Quarantined ==> s'.slots[i].state == Quarantined)
    && (s.sealed ==> forall i: nat :: i < |s.slots| ==>
          s'.slots[i].generation == s.slots[i].generation && (Settled(s.slots[i]) ==> Settled(s'.slots[i])))
    && (forall l: nat :: l < |s.leases| ==>
          s'.leases[l] == s.leases[l] || s'.leases[l] == s.leases[l].(active := false))
  }

  /** What a step must do. */
  ghost predicate Kept(s: State, s': State) {
    Inv(s') && Grows(s, s')
  }

  lemma InitSafe(maxSize: nat, minSize: nat, threads: nat, strict: bool, probes: bool)
    requires minSize <= maxSize
    ensures Inv(Init(maxSize, minSize, threads, strict, probes))
  {
    var s := Init(maxSize, minSize, threads, strict, probes);
    forall t: nat | t < |s.threads| ensures ThreadOk(s, t) {}
    forall i: nat | i < |s.slots| ensures SlotOk(s, i) {}
    forall c: nat | c < s.created ensures InSlot(s, c) {
      assert s.slots[c].conn == Some(c);
    }
  }

  // ------------------------------------------------------------------------- frames

  /** A step of thread `t` leaves everything alone but its own record, its own locks and slot `x`. */
  ghost predicate Frame(s: State, s': State, t: nat, x: Option<nat>) {
    && t < |s.threads| == |s'.threads| && |s.slots| == |s'.slots| && s.strict == s'.strict
    && (forall u: nat :: u < |s.threads| && u != t ==> s'.threads[u] == s.threads[u])
    && (forall i: nat :: i < |s.slots| && Some(i) != x ==> s'.slots[i] == s.slots[i])
    && (s'.cond == s.cond || (s.cond in {None, Some(t)} && s'.cond in {None, Some(t)}))
    && s.created <= s'.created && s.closed <= s'.closed && Grows(s, s')
    && (s'.sealed && !s.sealed ==> s.cond == Some(t))
    && (Held(s.threads[t]).Some? ==> x == Held(s.threads[t]))
    && (x.Some? ==> x.value < |s.slots|
                    && (s.slots[x.value].holder.ByThread? ==> s.slots[x.value].holder == ByThread(t)))
  }

  lemma ShutKept(s: State, s': State, t: nat, x: Option<nat>, u: nat)
    requires Frame(s, s', t, x) && u < |s.threads| && u != t && ThreadOk(s, u)
    ensures ShutOk(s'.slots, s'.threads[u], s'.closing, s'.sealed)
  {
    hide WorkOk, BothOk, LooseOk, InsideOk;
  }

  lemma ThreadKept(s: State, s': State, t: nat, x: Option<nat>, u: nat)
    requires Frame(s, s', t, x) && u < |s.threads| && u != t && ThreadOk(s, u)
    ensures ThreadOk(s', u)
  {
    hide ShutOk, Grows;
    ShutKept(s, s', t, x, u);
  }

  lemma ThreadsKept(s: State, s': State, t: nat, x: Option<nat>)
    requires Frame(s, s', t, x) && ThreadOk(s', t)
    requires forall u: nat :: u < |s.threads| ==> ThreadOk(s, u)
    ensures forall u: nat :: u < |s'.threads| ==> ThreadOk(s', u)
  {
    forall u: nat | u < |s'.threads| ensures ThreadOk(s', u) {
      if u != t { ThreadKept(s, s', t, x, u); }
    }
  }

  /** Leases on slots other than `x` are as before. */
  ghost predicate LeasesFrame(s: State, s': State, x: nat) {
    && |s.leases| <= |s'.leases|
    && (forall l: nat :: l < |s.leases| && s.leases[l].slot != x ==> s'.leases[l] == s.leases[l])
    && (forall l: nat :: l < |s'.leases| && s'.leases[l].slot != x ==> l < |s.leases| && s'.leases[l] == s.leases[l])
    && (forall l: nat :: l < |s'.leases| && s'.leases[l].slot == x ==> LeaseOk(s', l))
    && (forall c: nat :: c in s.legacy && s.legacy[c] != x ==> c in s'.legacy && s'.legacy[c] == s.legacy[c])
    && (forall c: nat :: c in s'.legacy && s'.legacy[c] != x ==> c in s.legacy && s'.legacy[c] == s.legacy[c])
    && (forall c: nat :: c in s'.legacy && s'.legacy[c] == x ==> LegacyOk(s', c))
  }

  lemma SlotKept(s: State, s': State, t: nat, x: nat, i: nat)
    requires Frame(s, s', t, Some(x)) && LeasesFrame(s, s', x)
    requires i < |s.slots| && i != x && SlotOk(s, i)
    ensures SlotOk(s', i)
  {
  }

  /** A step on slot `x` that respects the frame and is right locally keeps the invariant. */
  lemma StepKept(s: State, s': State, t: nat, x: nat)
    requires Inv(s) && Frame(s, s', t, Some(x)) && LeasesFrame(s, s', x)
    requires ThreadOk(s', t) && SlotOk(s', x) && s'.cond == s.cond
    requires s.strict ==> s'.legacy == map[]
    requires s'.closing == s.closing && s'.sealed == s.sealed && s'.drained == s.drained
    requires s'.waiters == s.waiters
    requires ConnectionsOk(s')
    ensures Kept(s, s')
  {
    ThreadsKept(s, s', t, Some(x));
    forall i: nat | i < |s'.slots| ensures SlotOk(s', i) {
      if i != x { SlotKept(s, s', t, x, i); }
    }
    forall l: nat | l < |s'.leases| ensures LeaseOk(s', l) {
      if s'.leases[l].slot != x { assert LeaseOk(s, l); }
    }
    forall c: nat | c in s'.legacy ensures LegacyOk(s', c) {
      if s'.legacy[c] != x { assert LegacyOk(s, c); }
    }
  }

  /** A step that loses no open connection keeps the accounting. */
  lemma ConnectionsKept(s: State, s': State)
    requires ConnectionsOk(s)
    requires |s.slots| == |s'.slots| && s.created == s'.created && s.closed <= s'.closed
    requires forall i: nat :: i < |s.slots| ==>
      s'.slots[i].conn == s.slots[i].conn || (s'.slots[i].conn.None? && Gone(s.slots[i], s.closed))
    ensures ConnectionsOk(s')
  {
    forall c: nat | c < s'.created && c !in s'.closed ensures InSlot(s', c) {
      assert InSlot(s, c);
      var i :| 0 <= i < |s.slots| && s.slots[i].conn == Some(c);
      assert s'.slots[i].conn == Some(c);
    }
  }

  /** Nothing has changed but the thread's record, the Condition and the flags. */
  predicate SameSlots(s: State, s': State) {
    && s.strict == s'.strict && s.slots == s'.slots && |s.threads| == |s'.threads|
    && s.legacy == s'.legacy && s.leases == s'.leases && s.created == s'.created && s.closed == s'.closed
  }

  /** A thread that moves, perhaps into or out of the Condition, and changes no slot. */
  lemma MoveKept(s: State, s': State, t: nat, th: Thread)
    requires Inv(s) && t < |s.threads| && SameSlots(s, s') && s'.threads == s.threads[t := th]
    requires Held(th) == Held(s.threads[t]) && Allowed(s.slots, th, s.strict, s.closed)
    requires s'.cond == if HoldsCond(th) then Some(t) else if HoldsCond(s.threads[t]) then None else s.cond
    requires HoldsCond(th) ==> s.cond in {None, Some(t)}
    requires ShutOk(s.slots, th, s'.closing, s'.sealed) && (s.closing ==> s'.closing) && (s.sealed ==> s'.sealed)
    requires s'.sealed ==> s.sealed || (s.closing && HoldsCond(s.threads[t]))
    requires s.strict ==> s'.waiters <= s.waiters
    requires s'.drained ==> s.drained || (s.sealed && Clean(s.slots, |s.slots|))
    ensures Kept(s, s')
  {
    assert ThreadOk(s, t);
    ThreadsKept(s, s', t, Held(th));
    forall i: nat | i < |s'.slots| ensures SlotOk(s', i) { assert SlotOk(s, i); }
    forall l: nat | l < |s'.leases| ensures LeaseOk(s', l) { assert LeaseOk(s, l); }
    forall c: nat | c in s'.legacy ensures LegacyOk(s', c) { assert LegacyOk(s, c); }
    ConnectionsKept(s, s');
  }

  lemma StutterKept(s: State)
    requires Inv(s)
    ensures Kept(s, s)
  {
  }

  lemma GotoKept(s: State, t: nat, th: Thread)
    requires Inv(s) && t < |s.threads| && Allowed(s.slots, th, s.strict, s.closed)
    requires Held(th) == Held(s.threads[t]) && HoldsCond(th) == HoldsCond(s.threads[t])
    requires ShutOk(s.slots, th, s.closing, s.sealed)
    ensures Kept(s, Goto(s, t, th))
  {
    hide Kept;
    assert ThreadOk(s, t);
    MoveKept(s, Goto(s, t, th), t, th);
  }

  lemma EnterKept(s: State, t: nat, th: Thread)
    requires Inv(s) && t < |s.threads| && Allowed(s.slots, th, s.strict, s.closed)
    requires Held(th) == Held(s.threads[t]) && HoldsCond(th)
    requires ShutOk(s.slots, th, s.closing, s.sealed)
    ensures Kept(s, EnterCond(s, t, th))
  {
    if s.cond == None { MoveKept(s, EnterCond(s, t, th), t, th); } else { StutterKept(s); }
  }

  // ---------------------------------------------------------------- slots change hands

  /** No lease is on a slot that a thread holds, or that nobody holds. */
  lemma LeasesSame(s: State, s': State, i: nat)
    requires Inv(s) && i < |s.slots| == |s'.slots| && s'.leases == s.leases && s'.legacy == s.legacy
    requires s.slots[i].holder == Free || s.slots[i].holder.ByThread?
    requires s'.slots[i].generation >= s.slots[i].generation
    ensures LeasesFrame(s, s', i)
  {
    forall l: nat | l < |s'.leases| && s'.leases[l].slot == i ensures LeaseOk(s', l) { assert LeaseOk(s, l); }
    forall c: nat | c in s.legacy ensures s.legacy[c] != i { assert LegacyOk(s, c); }
  }

  /** Slot `i` is rewritten by the thread that holds its lock, or locked or unlocked by it. */
  lemma SlotStepKept(s: State, s': State, t: nat, i: nat, th: Thread)
    requires Inv(s) && t < |s.threads| && i < |s.slots|
    requires |s'.slots| == |s.slots| && s.closed <= s'.closed
    requires s' == s.(threads := s.threads[t := th], slots := s.slots[i := s'.slots[i]], closed := s'.closed)
    requires Held(s.threads[t]) in {None, Some(i)} && Held(th) in {None, Some(i)}
    requires HoldsCond(th) == HoldsCond(s.threads[t])
    requires s.slots[i].holder == if Held(s.threads[t]).Some? then ByThread(t) else Free
    requires s'.slots[i].holder == if Held(th).Some? then ByThread(t) else Free
    requires Allowed(s'.slots, th, s'.strict, s'.closed) && ShutOk(s'.slots, th, s.closing, s.sealed)
    requires s'.slots[i].generation >= s.slots[i].generation
    requires s.slots[i].state == Quarantined ==> s'.slots[i].state == Quarantined
    requires s.sealed ==>
      s'.slots[i].generation == s.slots[i].generation && (Settled(s.slots[i]) ==> Settled(s'.slots[i]))
    requires s'.slots[i].conn == s.slots[i].conn || (s'.slots[i].conn.None? && Gone(s.slots[i], s.closed))
    requires SlotOk(s', i)
    ensures Kept(s, s')
  {
    hide Kept;
    assert ThreadOk(s, t);
    LeasesSame(s, s', i);
    ConnectionsKept(s, s');
    StepKept(s, s', t, i);
  }

  lemma TryLockKept(s: State, t: nat, i: nat, look: Thread, skip: Thread)
    requires Inv(s) && t < |s.threads| && i < |s.slots| && Held(s.threads[t]).None?
    requires HoldsCond(look) == HoldsCond(skip) == HoldsCond(s.threads[t])
    requires Held(skip).None? && Allowed(s.slots, skip, s.strict, s.closed)
    requires Held(look) == Some(i) && ShutOk(s.slots, skip, s.closing, s.sealed)
    requires ShutOk(s.slots[i := s.slots[i].(holder := ByThread(t))], look, s.closing, s.sealed)
    requires Stable(s.slots[i].state) ==>
        Allowed(s.slots[i := s.slots[i].(holder := ByThread(t))], look, s.strict, s.closed)
    ensures Kept(s, TryLock(s, t, i, look, skip))
  {
    assert SlotOk(s, i);
    if s.slots[i].holder == Free {
      SlotStepKept(s, TryLock(s, t, i, look, skip), t, i, look);
    } else {
      GotoKept(s, t, skip);
    }
  }

  /** A lease gives slot `i` back to thread `t`. */
  lemma TakeBackKept(s: State, s': State, t: nat, i: nat, th: Thread)
    requires Inv(s) && t < |s.threads| && i < |s.slots|
    requires Held(s.threads[t]).None? && Held(th) == Some(i) && HoldsCond(th) == HoldsCond(s.threads[t])
    requires s' == s.(threads := s.threads[t := th], slots := s.slots[i := s.slots[i].(holder := ByThread(t))],
                      legacy := s'.legacy, leases := s'.leases)
    requires s.slots[i].holder == ByLegacyLease || s.slots[i].holder.ByStrictLease?
    requires Allowed(s'.slots, th, s.strict, s.closed) && ShutOk(s'.slots, th, s.closing, s.sealed)
    requires |s.leases| == |s'.leases| && forall l: nat :: l < |s.leases| ==>
      s'.leases[l] == s.leases[l] || s'.leases[l] == s.leases[l].(active := false)
    requires LeasesFrame(s, s', i) && (s.strict ==> s'.legacy == map[])
    ensures Kept(s, s')
  {
    hide Kept;
    assert ThreadOk(s, t);
    assert SlotOk(s, i);
    ConnectionsKept(s, s');
    StepKept(s, s', t, i);
  }

  lemma StrictReturnKept(s: State, t: nat, l: nat, reusable: bool, s': State)
    requires Inv(s) && t < |s.threads| && s.threads[t].Unlocked? && LeaseValid(s, l)
    requires var i := s.leases[l].slot;
             s' == SetSlot(s, t, i, s.slots[i].(holder := ByThread(t)), OnSlot(i, StrictCheck(reusable)))
                     .(leases := s.leases[l := s.leases[l].(active := false)])
    ensures Kept(s, s')
  {
    var i := s.leases[l].slot;
    assert LeaseOk(s, l);
    assert SlotOk(s, i);
    assert LeasesFrame(s, s', i) by {
      forall k: nat | k < |s'.leases| && s'.leases[k].slot == i ensures LeaseOk(s', k) { assert LeaseOk(s, k); }
    }
    TakeBackKept(s, s', t, i, OnSlot(i, StrictCheck(reusable)));
  }

  lemma LegacyReturnKept(s: State, t: nat, conn: nat, both: Both, s': State)
    requires Inv(s) && t < |s.threads| && s.threads[t].InCond? && conn in s.legacy && s.legacy[conn] < |s.slots|
    requires both == ReturnIdle || both == LeaveWith(DISCARD)
    requires var i := s.legacy[conn];
             s' == SetSlot(s, t, i, s.slots[i].(holder := ByThread(t)), InCondOnSlot(i, both))
                     .(legacy := s.legacy - {conn})
    ensures Kept(s, s')
  {
    var i := s.legacy[conn];
    assert LegacyOk(s, conn);
    assert SlotOk(s, i);
    assert LeasesFrame(s, s', i) by {
      forall l: nat | l < |s'.leases| && s'.leases[l].slot == i ensures LeaseOk(s', l) { assert LeaseOk(s, l); }
      forall c: nat | c in s.legacy && c != conn ensures s.legacy[c] != i { assert LegacyOk(s, c); }
    }
    TakeBackKept(s, s', t, i, InCondOnSlot(i, both));
  }

  // ------------------------------------------------------------------------- steps

  lemma InsideKept(s: State, t: nat, pc: Inside)
    requires Inv(s) && t < |s.threads| && s.threads[t] == InCond(pc) && !BorrowPc(pc)
    ensures Kept(s, InsideStep(s, t, pc))
  {
    hide Kept;
    assert ThreadOk(s, t);
    var s' := InsideStep(s, t, pc);
    if pc.ReleasePop? { PopKept(s, t, pc); } else { MoveKept(s, s', t, s'.threads[t]); }
  }

  lemma BorrowKept(s: State, t: nat, pc: Inside, c: Choice)
    requires Inv(s) && t < |s.threads| && s.threads[t] == InCond(pc) && BorrowPc(pc)
    ensures Kept(s, BorrowStep(s, t, pc, c))
  {
    hide Kept;
    assert ThreadOk(s, t);
    var s' := BorrowStep(s, t, pc, c);
    if pc.BorrowScan? { ScanKept(s, t, pc, c); } else { MoveKept(s, s', t, s'.threads[t]); }
  }

  lemma ScanKept(s: State, t: nat, pc: Inside, c: Choice)
    requires Inv(s) && t < |s.threads| && s.threads[t] == InCond(pc) && pc.BorrowScan?
    ensures Kept(s, BorrowStep(s, t, pc, c))
  {
    hide Kept;
    assert ThreadOk(s, t);
    if pc.i < |s.slots| {
      TryLockKept(s, t, pc.i, InCondOnSlot(pc.i, BorrowLook(pc.create)), InCond(BorrowScan(pc.create, pc.i + 1)));
    } else if !pc.create && !s.strict {
      GotoKept(s, t, InCond(BorrowScan(true, 0)));
    } else {
      GotoKept(s, t, InCond(BorrowNone));
    }
  }

  lemma PopKept(s: State, t: nat, pc: Inside)
    requires Inv(s) && t < |s.threads| && s.threads[t] == InCond(pc) && pc.ReleasePop?
    ensures Kept(s, InsideStep(s, t, pc))
  {
    hide Kept;
    assert ThreadOk(s, t);
    if pc.conn in s.legacy {
      assert LegacyOk(s, pc.conn);
      LegacyReturnKept(s, t, pc.conn, if s.closing || pc.conn in s.closed then LeaveWith(DISCARD) else ReturnIdle,
                       InsideStep(s, t, pc));
    } else {
      GotoKept(s, t, InCond(Leave(Outside)));
    }
  }

  lemma StartKept(s: State, t: nat, c: Choice)
    requires Inv(s) && t < |s.threads| && s.threads[t] == Unlocked(Outside)
    requires !c.op.ReleaseLease?
    ensures Kept(s, StartStep(s, t, c))
  {
    hide Kept;
    assert ThreadOk(s, t);
    match c.op
    case Borrow => GotoKept(s, t, Unlocked(BorrowTop));
    case Release(conn) => GotoKept(s, t, Unlocked(ReleaseEnter(conn)));
    case Close(bounded) => MoveKept(s, StartStep(s, t, c), t, Unlocked(SealEnter(bounded || s.strict)));
    case Probe => if s.probes { GotoKept(s, t, Unlocked(ProbeScan(0, 0))); } else { StutterKept(s); }
  }

  lemma StartStrictReturnKept(s: State, t: nat, c: Choice)
    requires Inv(s) && t < |s.threads| && s.threads[t] == Unlocked(Outside)
    requires c.op.ReleaseLease?
    ensures Kept(s, StartStep(s, t, c))
  {
    var l := c.op.lease;
    if LeaseValid(s, l) && s.leases[l].thread == t { StrictReturnKept(s, t, l, c.op.reusable, StartStep(s, t, c)); }
    else { StutterKept(s); }
  }

  lemma WaitKept(s: State, t: nat, pc: Loose, c: Choice)
    requires Inv(s) && t < |s.threads| && s.threads[t] == Unlocked(pc) && WaitPc(pc)
    ensures Kept(s, WaitStep(s, t, pc, c))
  {
    hide Kept;
    assert ThreadOk(s, t);
    if pc.BorrowParked? && t in s.waiters && !c.expired { StutterKept(s); }
    else if pc.BorrowParked? { MoveKept(s, WaitStep(s, t, pc, c), t, Unlocked(BorrowWake)); }
    else if pc.BorrowTop? { GotoKept(s, t, Unlocked(if s.closing then Outside else BorrowEnter)); }
    else { GotoKept(s, t, Unlocked(if c.expired then Outside else BorrowTop)); }
  }

  lemma EnterStepKept(s: State, t: nat, pc: Loose, c: Choice)
    requires Inv(s) && t < |s.threads| && s.threads[t] == Unlocked(pc)
    requires pc.BorrowWake? || pc.NotifyEnter? || pc.ReleaseEnter?
    ensures Kept(s, EnterStep(s, t, pc, c))
  {
    hide Kept;
    assert ThreadOk(s, t);
    match pc
    case BorrowWake => EnterKept(s, t, InCond(Leave(BorrowTop)));
    case NotifyEnter(again) => EnterKept(s, t, InCond(NotifyAll(again)));
    case ReleaseEnter(conn) => EnterKept(s, t, InCond(ReleasePop(conn)));
    case _ =>
  }

  /** The two entries that may give up. */
  lemma TimedEnterKept(s: State, t: nat, pc: Loose, c: Choice)
    requires Inv(s) && t < |s.threads| && s.threads[t] == Unlocked(pc)
    requires pc.BorrowEnter? || pc.SealEnter?
    ensures Kept(s, EnterStep(s, t, pc, c))
  {
    hide Kept;
    assert ThreadOk(s, t);
    if c.expired && (pc.BorrowEnter? || pc.bounded) {
      GotoKept(s, t, Unlocked(Outside));
    } else {
      EnterKept(s, t, InCond(if pc.BorrowEnter? then BorrowCheck else SealNotify(pc.bounded)));
    }
  }

  lemma PassEndKept(s: State, t: nat, pc: Loose)
    requires Inv(s) && t < |s.threads| && s.threads[t] == Unlocked(pc) && PassPc(pc) && pc.j >= |s.slots|
    ensures Kept(s, PassStep(s, t, pc))
  {
    hide Kept;
    assert ThreadOk(s, t);
    if pc.DrainScan? { GotoKept(s, t, Unlocked(DrainEnd(pc.pending))); } else { GotoKept(s, t, Unlocked(Outside)); }
  }

  lemma CloseScanKept(s: State, t: nat, j: nat)
    requires Inv(s) && t < |s.threads| && s.threads[t] == Unlocked(CloseScan(j)) && j < |s.slots|
    ensures Kept(s, PassStep(s, t, CloseScan(j)))
  {
    hide Kept;
    assert ThreadOk(s, t);
    TryLockKept(s, t, j, OnSlot(j, CloseLook), Unlocked(CloseScan(j + 1)));
  }

  lemma ProbeScanKept(s: State, t: nat, j: nat, charged: nat)
    requires Inv(s) && t < |s.threads| && s.threads[t] == Unlocked(ProbeScan(j, charged)) && j < |s.slots|
    ensures Kept(s, PassStep(s, t, ProbeScan(j, charged)))
  {
    hide Kept;
    assert ThreadOk(s, t);
    TryLockKept(s, t, j, OnSlot(j, ProbeLook(charged)), Unlocked(ProbeScan(j + 1, charged + 1)));
  }

  lemma DrainScanKept(s: State, t: nat, j: nat, pending: bool)
    requires Inv(s) && t < |s.threads| && s.threads[t] == Unlocked(DrainScan(j, pending)) && j < |s.slots|
    ensures Kept(s, PassStep(s, t, DrainScan(j, pending)))
  {
    hide Kept;
    assert ThreadOk(s, t);
    TryLockKept(s, t, j, OnSlot(j, DrainLook(pending)), Unlocked(DrainScan(j + 1, true)));
  }

  lemma DrainEndKept(s: State, t: nat, pending: bool, c: Choice)
    requires Inv(s) && t < |s.threads| && s.threads[t] == Unlocked(DrainEnd(pending))
    ensures Kept(s, DrainStep(s, t, DrainEnd(pending), c))
  {
    hide Kept;
    assert ThreadOk(s, t);
    if c.expired { GotoKept(s, t, Unlocked(DrainLeave)); }
    else if !pending { MoveKept(s, DrainStep(s, t, DrainEnd(pending), c), t, Unlocked(DrainLeave)); }
    else { GotoKept(s, t, Unlocked(DrainTop)); }
  }

  lemma DrainKept(s: State, t: nat, pc: Loose, c: Choice)
    requires Inv(s) && t < |s.threads| && s.threads[t] == Unlocked(pc)
    requires pc.DrainEnter? || pc.DrainTop? || pc.DrainLeave?
    ensures Kept(s, DrainStep(s, t, pc, c))
  {
    hide Kept;
    assert ThreadOk(s, t);
    match pc
    case DrainEnter =>
      if c.expired { GotoKept(s, t, Unlocked(Outside)); }
      else if s.drainLock { StutterKept(s); }
      else { MoveKept(s, DrainStep(s, t, pc, c), t, Unlocked(DrainTop)); }
    case DrainTop => GotoKept(s, t, Unlocked(if c.expired then DrainLeave else DrainScan(0, false)));
    case DrainLeave => MoveKept(s, DrainStep(s, t, pc, c), t, Unlocked(Outside));
    case _ =>
  }

  lemma ReserveKept(s: State, t: nat, i: nat, create: bool)
    requires Inv(s) && t < |s.threads| && i < |s.slots| && s.threads[t] == InCondOnSlot(i, BorrowLook(create))
    requires Wanted(create, s.slots[i].state)
    ensures Kept(s, BothStep(s, t, i, BorrowLook(create)))
  {
    hide Kept;
    assert ThreadOk(s, t);
    assert SlotOk(s, i);
    SlotStepKept(s, BothStep(s, t, i, BorrowLook(create)), t, i, InCondOnSlot(i, LeaveWith(FinishCheck)));
  }

  lemma PassOverKept(s: State, t: nat, i: nat, create: bool)
    requires Inv(s) && t < |s.threads| && i < |s.slots| && s.threads[t] == InCondOnSlot(i, BorrowLook(create))
    requires !Wanted(create, s.slots[i].state)
    ensures Kept(s, BothStep(s, t, i, BorrowLook(create)))
  {
    hide Kept;
    assert ThreadOk(s, t);
    assert SlotOk(s, i);
    SlotStepKept(s, BothStep(s, t, i, BorrowLook(create)), t, i, InCond(BorrowScan(create, i + 1)));
  }

  lemma BothKept(s: State, t: nat, i: nat, pc: Both)
    requires Inv(s) && t < |s.threads| && i < |s.slots| && s.threads[t] == InCondOnSlot(i, pc)
    requires pc.LeaveWith? || pc.ReturnIdle? || pc.ReturnUnlock?
    ensures Kept(s, BothStep(s, t, i, pc))
  {
    hide Kept;
    assert ThreadOk(s, t);
    assert SlotOk(s, i);
    match pc
    case LeaveWith(w) => MoveKept(s, BothStep(s, t, i, pc), t, OnSlot(i, w));
    case ReturnIdle => SlotStepKept(s, BothStep(s, t, i, pc), t, i, InCondOnSlot(i, ReturnUnlock));
    case ReturnUnlock => SlotStepKept(s, BothStep(s, t, i, pc), t, i, InCond(ReleaseNotify));
    case _ =>
  }

  /** A legacy lease is on a slot of its own. */
  lemma LegacyElsewhere(s: State, c: nat, i: nat)
    requires Inv(s) && c in s.legacy && i < |s.slots| && s.slots[i].holder != ByLegacyLease
    ensures s.legacy[c] != i && s.slots[i].conn != Some(c)
  {
    assert LegacyOk(s, c);
    var j := s.legacy[c];
    assert s.slots[j].conn == Some(c) && s.slots[j].holder == ByLegacyLease;
  }

  lemma LendFrame(s: State, s': State, t: nat, i: nat)
    requires Inv(s) && i < |s.slots| && s.slots[i].holder == ByThread(t) && s.slots[i].conn.Some?
    requires s'.slots == s.slots[i := s.slots[i].(state := Acquired, holder := ByLegacyLease)]
    requires s'.legacy == s.legacy[s.slots[i].conn.value := i] && s'.leases == s.leases
    ensures LeasesFrame(s, s', i)
  {
    forall l: nat | l < |s'.leases| && s'.leases[l].slot == i ensures LeaseOk(s', l) { assert LeaseOk(s, l); }
    forall c: nat | c in s.legacy ensures s.legacy[c] != i && s.slots[i].conn != Some(c) { LegacyElsewhere(s, c, i); }
  }

  lemma LendKept(s: State, t: nat, i: nat)
    requires Inv(s) && t < |s.threads| && i < |s.slots| && s.threads[t] == InCondOnSlot(i, FinishLend)
    ensures Kept(s, BothStep(s, t, i, FinishLend))
  {
    hide Kept;
    assert ThreadOk(s, t);
    assert SlotOk(s, i);
    var s' := BothStep(s, t, i, FinishLend);
    if s.closing {
      GotoKept(s, t, InCondOnSlot(i, LeaveWith(DISCARD)));
    } else {
      LendFrame(s, s', t, i);
      ConnectionsKept(s, s');
      StepKept(s, s', t, i);
    }
  }

  lemma CreateKept(s: State, t: nat, i: nat, c: Choice)
    requires Inv(s) && t < |s.threads| && i < |s.slots| && s.threads[t] == OnSlot(i, FinishCreate) && c.ok
    ensures Kept(s, FinishStep(s, t, i, FinishCreate, c))
  {
    hide Kept;
    assert ThreadOk(s, t);
    assert SlotOk(s, i);
    var s' := FinishStep(s, t, i, FinishCreate, c);
    OpenAccounted(s, s', i);
    LeasesSame(s, s', i);
    StepKept(s, s', t, i);
  }

  lemma CreateFailedKept(s: State, t: nat, i: nat, c: Choice)
    requires Inv(s) && t < |s.threads| && i < |s.slots| && s.threads[t] == OnSlot(i, FinishCreate) && !c.ok
    ensures Kept(s, FinishStep(s, t, i, FinishCreate, c))
  {
    hide Kept;
    assert ThreadOk(s, t);
    assert SlotOk(s, i);
    SlotStepKept(s, FinishStep(s, t, i, FinishCreate, c), t, i, OnSlot(i, Publish(Empty, NotifyEnter(false))));
  }

  /** A new connection in slot `i` replaces none that was open. */
  lemma OpenAccounted(s: State, s': State, i: nat)
    requires Inv(s) && i < |s.slots| == |s'.slots| && s'.closed == s.closed && s'.created == s.created + 1
    requires Gone(s.slots[i], s.closed) && s'.slots[i].conn == Some(s.created)
    requires forall j: nat :: j < |s.slots| && j != i ==> s'.slots[j] == s.slots[j]
    ensures ConnectionsOk(s')
  {
    forall c: nat | c < s'.created && c !in s'.closed ensures InSlot(s', c) {
      if c == s.created {
        assert s'.slots[i].conn == Some(c);
      } else {
        assert InSlot(s, c);
        var j :| 0 <= j < |s.slots| && s.slots[j].conn == Some(c);
        assert s'.slots[j].conn == Some(c);
      }
    }
    forall j: nat | j < |s.slots| ensures s.slots[j].conn != Some(s.created) { assert SlotOk(s, j); }
  }

  lemma LeaseFrame(s: State, s': State, t: nat, i: nat)
    requires Inv(s) && i < |s.slots| && s.strict && s.slots[i].holder == ByThread(t)
    requires s'.slots == s.slots[i := s.slots[i].(holder := ByStrictLease(|s.leases|))] && s'.legacy == s.legacy
    requires s'.leases == s.leases + [Lease(i, s.slots[i].generation, t, true)]
    ensures LeasesFrame(s, s', i)
  {
    forall l: nat | l < |s'.leases| && s'.leases[l].slot == i ensures LeaseOk(s', l) {
      assert l < |s.leases| ==> LeaseOk(s, l);
    }
  }

  lemma LeaseExpiredKept(s: State, t: nat, i: nat, c: Choice)
    requires Inv(s) && t < |s.threads| && i < |s.slots| && s.threads[t] == OnSlot(i, FinishLease) && c.expired
    ensures Kept(s, FinishStep(s, t, i, FinishLease, c))
  {
    hide Kept;
    assert ThreadOk(s, t);
    GotoKept(s, t, OnSlot(i, Publish(Idle, Outside)));
  }

  lemma LeaseKept(s: State, t: nat, i: nat, c: Choice)
    requires Inv(s) && t < |s.threads| && i < |s.slots| && s.threads[t] == OnSlot(i, FinishLease) && !c.expired
    ensures Kept(s, FinishStep(s, t, i, FinishLease, c))
  {
    hide Kept;
    assert ThreadOk(s, t);
    assert SlotOk(s, i);
    var s' := FinishStep(s, t, i, FinishLease, c);
    LeaseFrame(s, s', t, i);
    ConnectionsKept(s, s');
    StepKept(s, s', t, i);
  }

  lemma FinishKept(s: State, t: nat, i: nat, pc: Work, c: Choice)
    requires Inv(s) && t < |s.threads| && i < |s.slots| && s.threads[t] == OnSlot(i, pc) && FinishPc(pc)
    ensures Kept(s, FinishStep(s, t, i, pc, c))
  {
    hide Kept;
    assert ThreadOk(s, t);
    assert SlotOk(s, i);
    match pc
    case FinishCheck =>
      if s.slots[i].state == Creating { GotoKept(s, t, OnSlot(i, FinishCreate)); }
      else if Lost(s.slots[i], s.closed) {
        GotoKept(s, t, OnSlot(i, Publish(Closed, if s.strict then BorrowTop else NotifyEnter(true))));
      } else { GotoKept(s, t, OnSlot(i, if s.strict then FinishLease else FinishEnter)); }
    case FinishCreate => if c.ok { CreateKept(s, t, i, c); } else { CreateFailedKept(s, t, i, c); }
    case FinishEnter => EnterKept(s, t, InCondOnSlot(i, FinishLend));
    case FinishLease => if c.expired { LeaseExpiredKept(s, t, i, c); } else { LeaseKept(s, t, i, c); }
    case _ =>
  }

  lemma PublishKept(s: State, t: nat, i: nat, pc: Work, c: Choice)
    requires Inv(s) && t < |s.threads| && i < |s.slots| && s.threads[t] == OnSlot(i, pc)
    requires pc.Publish? || pc.Unlock?
    ensures Kept(s, DisposeStep(s, t, i, pc, c))
  {
    hide Kept;
    assert ThreadOk(s, t);
    assert SlotOk(s, i);
    var s' := DisposeStep(s, t, i, pc, c);
    SlotStepKept(s, s', t, i, if pc.Publish? then OnSlot(i, Unlock(pc.k)) else Unlocked(pc.k));
  }

  lemma CloseConnKept(s: State, t: nat, i: nat, pc: Work, c: Choice)
    requires Inv(s) && t < |s.threads| && i < |s.slots| && s.threads[t] == OnSlot(i, pc) && pc.DisposeClose?
    ensures Kept(s, DisposeStep(s, t, i, pc, c))
  {
    hide Kept;
    assert ThreadOk(s, t);
    assert SlotOk(s, i);
    SlotStepKept(s, DisposeStep(s, t, i, pc, c), t, i, OnSlot(i, DisposeProve(pc.k, pc.failed)));
  }

  lemma DisposeKept(s: State, t: nat, i: nat, pc: Work, c: Choice)
    requires Inv(s) && t < |s.threads| && i < |s.slots| && s.threads[t] == OnSlot(i, pc)
    requires !FinishPc(pc) && !StrictPc(pc) && !LookPc(pc)
    ensures Kept(s, DisposeStep(s, t, i, pc, c))
  {
    hide Kept;
    assert ThreadOk(s, t);
    assert SlotOk(s, i);
    match pc
    case DisposeMark(k, failed) => SlotStepKept(s, DisposeStep(s, t, i, pc, c), t, i, OnSlot(i, DisposeClose(k,
      failed)));
    case DisposeClose(k, failed) => CloseConnKept(s, t, i, pc, c);
    case DisposeProve(k, failed) =>
      if c.ok && Lost(s.slots[i], s.closed) { GotoKept(s, t, OnSlot(i, Publish(Closed, k))); }
      else { GotoKept(s, t, OnSlot(i, Publish(Quarantined, failed))); }
    case _ => PublishKept(s, t, i, pc, c);
  }

  lemma StrictKept(s: State, t: nat, i: nat, pc: Work, c: Choice)
    requires Inv(s) && t < |s.threads| && i < |s.slots| && s.threads[t] == OnSlot(i, pc)
    requires StrictPc(pc)
    ensures Kept(s, StrictStep(s, t, i, pc, c))
  {
    hide Kept;
    assert ThreadOk(s, t);
    if pc == StrictBudget {
      if c.expired { GotoKept(s, t, OnSlot(i, Publish(Quarantined, Outside))); }
      else { GotoKept(s, t, OnSlot(i, DisposeMark(Outside, Outside))); }
    }
    else if pc.reusable && !c.ok { GotoKept(s, t, OnSlot(i, Publish(Quarantined, Outside))); }
    else if pc.reusable && !Lost(s.slots[i], s.closed) { GotoKept(s, t, OnSlot(i, Publish(Idle, Outside))); }
    else { GotoKept(s, t, OnSlot(i, StrictBudget)); }
  }

  lemma DrainLookKept(s: State, t: nat, i: nat, pending: bool, c: Choice)
    requires Inv(s) && t < |s.threads| && i < |s.slots| && s.threads[t] == OnSlot(i, DrainLook(pending))
    ensures Kept(s, LookStep(s, t, i, DrainLook(pending), c))
  {
    hide Kept;
    assert ThreadOk(s, t);
    assert SlotOk(s, i);
    var state := s.slots[i].state;
    if state == Idle && !c.expired { GotoKept(s, t, OnSlot(i, DisposeMark(DrainScan(i + 1, pending), DrainLeave))); }
    else if state == Idle || state == Quarantined { GotoKept(s, t, OnSlot(i, Unlock(DrainLeave))); }
    else { GotoKept(s, t, OnSlot(i, Unlock(DrainScan(i + 1, pending)))); }
  }

  lemma LookKept(s: State, t: nat, i: nat, pc: Work, c: Choice)
    requires Inv(s) && t < |s.threads| && i < |s.slots| && s.threads[t] == OnSlot(i, pc)
    requires pc.CloseLook? || pc.ProbeLook?
    ensures Kept(s, LookStep(s, t, i, pc, c))
  {
    hide Kept;
    assert ThreadOk(s, t);
    assert SlotOk(s, i);
    var state := s.slots[i].state;
    if pc.ProbeLook? {
      GotoKept(s, t, OnSlot(i, Unlock(ProbeScan(i + 1, if Settled(s.slots[i]) then pc.charged else pc.charged + 1))));
    }
    else if state == Idle { GotoKept(s, t, OnSlot(i, DisposeMark(CloseScan(i + 1), Outside))); }
    else if state == Quarantined { GotoKept(s, t, OnSlot(i, Unlock(Outside))); }
    else { GotoKept(s, t, OnSlot(i, Unlock(CloseScan(i + 1)))); }
  }

  lemma BreakKept(s: State, conn: nat)
    requires Inv(s)
    ensures Kept(s, s.(closed := s.closed + {conn}))
  {
    var s' := s.(closed := s.closed + {conn});
    forall t: nat | t < |s'.threads| ensures ThreadOk(s', t) { assert ThreadOk(s, t); }
    forall i: nat | i < |s'.slots| ensures SlotOk(s', i) { assert SlotOk(s, i); }
    forall l: nat | l < |s'.leases| ensures LeaseOk(s', l) { assert LeaseOk(s, l); }
    forall c: nat | c in s'.legacy ensures LegacyOk(s', c) { assert LegacyOk(s, c); }
    ConnectionsKept(s, s');
  }

  lemma UnlockedKept(s: State, t: nat, pc: Loose, c: Choice)
    requires Inv(s) && t < |s.threads| && s.threads[t] == Unlocked(pc)
    ensures Kept(s, ThreadStep(s, t, c))
  {
    hide Kept, Inv;
    if pc == Outside && c.op.ReleaseLease? { StartStrictReturnKept(s, t, c); }
    else if pc == Outside { StartKept(s, t, c); }
    else if WaitPc(pc) { WaitKept(s, t, pc, c); }
    else if pc.BorrowEnter? || pc.SealEnter? { TimedEnterKept(s, t, pc, c); }
    else if EnterPc(pc) { EnterStepKept(s, t, pc, c); }
    else if PassPc(pc) && pc.j >= |s.slots| { PassEndKept(s, t, pc); }
    else if pc.DrainScan? { DrainScanKept(s, t, pc.j, pc.pending); }
    else if pc.CloseScan? { CloseScanKept(s, t, pc.j); }
    else if pc.ProbeScan? { ProbeScanKept(s, t, pc.j, pc.charged); }
    else if pc.DrainEnd? { DrainEndKept(s, t, pc.pending, c); }
    else { DrainKept(s, t, pc, c); }
  }

  lemma OnSlotKept(s: State, t: nat, i: nat, pc: Work, c: Choice)
    requires Inv(s) && t < |s.threads| && s.threads[t] == OnSlot(i, pc) && i < |s.slots|
    ensures Kept(s, ThreadStep(s, t, c))
  {
    hide Kept, Inv;
    if FinishPc(pc) { FinishKept(s, t, i, pc, c); }
    else if StrictPc(pc) { StrictKept(s, t, i, pc, c); }
    else if pc.DrainLook? { DrainLookKept(s, t, i, pc.pending, c); }
    else if LookPc(pc) { LookKept(s, t, i, pc, c); }
    else { DisposeKept(s, t, i, pc, c); }
  }

  lemma CondOnSlotKept(s: State, t: nat, i: nat, pc: Both, c: Choice)
    requires Inv(s) && t < |s.threads| && s.threads[t] == InCondOnSlot(i, pc) && i < |s.slots|
    ensures Kept(s, ThreadStep(s, t, c))
  {
    hide Kept, Inv;
    if pc == FinishLend { LendKept(s, t, i); }
    else if pc.BorrowLook? && Wanted(pc.create, s.slots[i].state) { ReserveKept(s, t, i, pc.create); }
    else if pc.BorrowLook? { PassOverKept(s, t, i, pc.create); }
    else { BothKept(s, t, i, pc); }
  }

  /** Every step of every thread, and every lost connection, keeps the invariant. */
  lemma StepSafe(s: State, e: Event)
    requires Inv(s)
    ensures Kept(s, Step(s, e))
  {
    hide Kept;
    match e
    case Break(conn) => if conn < s.created { BreakKept(s, conn); } else { StutterKept(s); }
    case Run(t, c) =>
      if t >= |s.threads| {
        StutterKept(s);
      } else {
        assert ThreadOk(s, t);
        match s.threads[t]
        case Unlocked(pc) => UnlockedKept(s, t, pc, c);
        case InCond(pc) => if BorrowPc(pc) { BorrowKept(s, t, pc, c); } else { InsideKept(s, t, pc); }
        case OnSlot(i, pc) => OnSlotKept(s, t, i, pc, c);
        case InCondOnSlot(i, pc) => CondOnSlotKept(s, t, i, pc, c);
      }
  }

  lemma GrowsTransitive(a: State, b: State, c: State)
    requires Grows(a, b) && Grows(b, c)
    ensures Grows(a, c)
  {
  }

  /** And so does every run. */
  lemma {:induction false} RunSafe(s: State, run: seq<Event>)
    requires Inv(s)
    ensures Kept(s, Exec(s, run))
    decreases |run|
  {
    if run == [] {
      StutterKept(s);
    } else {
      var s1 := Step(s, run[0]);
      StepSafe(s, run[0]);
      RunSafe(s1, run[1..]);
      GrowsTransitive(s, s1, Exec(s, run));
    }
  }
}
