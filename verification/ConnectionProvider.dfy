/**
  The PostgreSQL connection provider of src/app/postgres.py as a transition system.

  Any number of threads run the provider's operations. Every acquisition or release of
  a lock, every publication of a slot state and every native connection call is one step
  of one thread; a step is decided by what the thread is doing and by a `Choice` that
  resolves what the program cannot control: whether a deadline has passed, whether a
  native call succeeds, which operation an idle thread starts.
*/
module ConnectionProvider {
  import opened Wrappers

  datatype SlotState = Empty | Idle | Acquired | Creating | Closing | Closed | Quarantined

  /** The slot lock. The program only knows locked and unlocked; who is going to unlock it
      (a running thread, or whoever returns a lease) is bookkeeping of the model. */
  datatype Holder = Free | ByThread(thread: nat) | ByLegacyLease | ByStrictLease(lease: nat)

  datatype Slot = Slot(holder: Holder, state: SlotState, generation: nat, conn: Option<nat>)

  datatype Lease = Lease(slot: nat, generation: nat, thread: nat, active: bool)

  /** Program counters at which a thread holds neither the Condition nor a slot lock. */
  datatype Loose =
    | Outside
    | BorrowTop
    | BorrowEnter
    | BorrowParked
    | BorrowWake
    | BorrowPause
    | NotifyEnter(again: bool)
    | ReleaseEnter(conn: nat)
    | SealEnter(bounded: bool)
    | CloseScan(j: nat)
    | DrainEnter
    | DrainTop
    | DrainScan(j: nat, pending: bool)
    | DrainEnd(pending: bool)
    | DrainLeave
    | ProbeScan(j: nat, charged: nat)

  /** Program counters at which a thread holds the Condition and no slot lock. */
  datatype Inside =
    | BorrowCheck
    | BorrowScan(create: bool, i: nat)
    | BorrowNone
    | NotifyAll(again: bool)
    | ReleasePop(conn: nat)
    | ReleaseNotify
    | SealNotify(bounded: bool)
    | Leave(k: Loose)

  /** Program counters at which a thread holds a slot lock and not the Condition. */
  datatype Work =
    | FinishCheck
    | FinishCreate
    | FinishEnter
    | FinishLease
    | Publish(state: SlotState, k: Loose)
    | Unlock(k: Loose)
    | DisposeMark(k: Loose, failed: Loose)
    | DisposeClose(k: Loose, failed: Loose)
    | DisposeProve(k: Loose, failed: Loose)
    | StrictCheck(reusable: bool)
    | StrictBudget
    | CloseLook
    | DrainLook(pending: bool)
    | ProbeLook(charged: nat)

  /** Program counters at which a thread holds the Condition and a slot lock. */
  datatype Both =
    | BorrowLook(create: bool)
    | FinishLend
    | LeaveWith(w: Work)
    | ReturnIdle
    | ReturnUnlock

  /** A thread, by the locks it holds. */
  datatype Thread =
    | Unlocked(loose: Loose)
    | InCond(inside: Inside)
    | OnSlot(slot: nat, work: Work)
    | InCondOnSlot(slot: nat, both: Both)

  /** `sealed` and `drained` are history: some close has passed the Condition barrier,
      and some deadline-bound close has completed a pass without a pending slot. */
  datatype State = State(
    strict: bool,
    probes: bool,
    slots: seq<Slot>,
    threads: seq<Thread>,
    cond: Option<nat>,
    waiters: set<nat>,
    closing: bool,
    sealed: bool,
    drainLock: bool,
    drained: bool,
    legacy: map<nat, nat>,
    leases: seq<Lease>,
    created: nat,
    closed: set<nat>)

  datatype Op =
    | Borrow
    | Release(conn: nat)
    | ReleaseLease(lease: nat, reusable: bool)
    | Close(bounded: bool)
    | Probe

  datatype Choice = Choice(op: Op, expired: bool, ok: bool, closes: bool)

  /** A step of a thread, or a connection lost by the server. */
  datatype Event = Run(thread: nat, choice: Choice) | Break(conn: nat)

  // ------------------------------------------------------------------------- moves

  function Goto(s: State, t: nat, th: Thread): State
    requires t < |s.threads|
  {
    s.(threads := s.threads[t := th])
  }

  /** A blocking acquisition of the Condition: without it the thread stays where it is. */
  function EnterCond(s: State, t: nat, th: Thread): State
    requires t < |s.threads|
  {
    if s.cond == None then Goto(s, t, th).(cond := Some(t)) else s
  }

  function ExitCond(s: State, t: nat, th: Thread): State
    requires t < |s.threads|
  {
    Goto(s, t, th).(cond := None)
  }

  function SetSlot(s: State, t: nat, i: nat, slot: Slot, th: Thread): State
    requires t < |s.threads| && i < |s.slots|
  {
    Goto(s, t, th).(slots := s.slots[i := slot])
  }

  /** `slot.lock.acquire(blocking=False)` by a scan: look at the slot or skip it. */
  function TryLock(s: State, t: nat, i: nat, look: Thread, skip: Thread): State
    requires t < |s.threads| && i < |s.slots|
  {
    if s.slots[i].holder == Free then SetSlot(s, t, i, s.slots[i].(holder := ByThread(t)), look)
    else Goto(s, t, skip)
  }

  predicate Lost(slot: Slot, closed: set<nat>) {
    slot.conn.Some? && slot.conn.value in closed
  }

  /** The slot counts for nothing: it is closed or empty. */
  predicate Settled(slot: Slot) { slot.state == Closed || slot.state == Empty }

  /** The states `_reserve_slot` wants in its first and in its second round. */
  predicate Wanted(create: bool, state: SlotState) {
    if create then state == Empty || state == Closed else state == Idle
  }

  /** `_validate_strict` without the thread identity. */
  predicate LeaseValid(s: State, l: nat) {
    && l < |s.leases|
    && s.leases[l].active
    && s.leases[l].slot < |s.slots|
    && s.leases[l].generation == s.slots[s.leases[l].slot].generation
  }

  // ------------------------------------------------------------------------- steps

  /** An idle thread calls the provider. */
  function StartStep(s: State, t: nat, c: Choice): State
    requires t < |s.threads|
  {
    match c.op
    case Borrow => Goto(s, t, Unlocked(BorrowTop))
    case Release(conn) => Goto(s, t, Unlocked(ReleaseEnter(conn)))
    case ReleaseLease(l, reusable) =>
      if LeaseValid(s, l) && s.leases[l].thread == t then
        var i := s.leases[l].slot;
        SetSlot(s, t, i, s.slots[i].(holder := ByThread(t)), OnSlot(i, StrictCheck(reusable)))
          .(leases := s.leases[l := s.leases[l].(active := false)])
      else s
    case Close(bounded) => Goto(s, t, Unlocked(SealEnter(bounded || s.strict))).(closing := true)
    case Probe => if s.probes then Goto(s, t, Unlocked(ProbeScan(0, 0))) else s
  }

  /** The waits of `_borrow`. */
  function WaitStep(s: State, t: nat, pc: Loose, c: Choice): State
    requires t < |s.threads|
  {
    match pc
    case BorrowTop => Goto(s, t, Unlocked(if s.closing then Outside else BorrowEnter))
    case BorrowParked =>
      if t in s.waiters && !c.expired then s
      else Goto(s, t, Unlocked(BorrowWake)).(waiters := s.waiters - {t})
    case BorrowPause => Goto(s, t, Unlocked(if c.expired then Outside else BorrowTop))
    case _ => s
  }

  /** Entering the Condition. */
  function EnterStep(s: State, t: nat, pc: Loose, c: Choice): State
    requires t < |s.threads|
  {
    match pc
    case BorrowEnter =>
      if c.expired then Goto(s, t, Unlocked(Outside)) else EnterCond(s, t, InCond(BorrowCheck))
    case BorrowWake => EnterCond(s, t, InCond(Leave(BorrowTop)))
    case NotifyEnter(again) => EnterCond(s, t, InCond(NotifyAll(again)))
    case ReleaseEnter(conn) => EnterCond(s, t, InCond(ReleasePop(conn)))
    case SealEnter(bounded) =>
      if bounded && c.expired then Goto(s, t, Unlocked(Outside)) else EnterCond(s, t, InCond(SealNotify(bounded)))
    case _ => s
  }

  /** The passes over the slots that need no Condition: `_close_idle_legacy`, `_drain` and
      `charged_connections`, which counts a slot that it cannot lock. */
  function PassStep(s: State, t: nat, pc: Loose): State
    requires t < |s.threads|
  {
    var n := |s.slots|;
    match pc
    case CloseScan(j) =>
      if j < n then TryLock(s, t, j, OnSlot(j, CloseLook), Unlocked(CloseScan(j + 1)))
      else Goto(s, t, Unlocked(Outside))
    case ProbeScan(j, charged) =>
      if j < n then TryLock(s, t, j, OnSlot(j, ProbeLook(charged)), Unlocked(ProbeScan(j + 1, charged + 1)))
      else Goto(s, t, Unlocked(Outside))
    case DrainScan(j, pending) =>
      if j < n then TryLock(s, t, j, OnSlot(j, DrainLook(pending)), Unlocked(DrainScan(j + 1, true)))
      else Goto(s, t, Unlocked(DrainEnd(pending)))
    case _ => s
  }

  /** Before, between and after the passes of `_drain`. */
  function DrainStep(s: State, t: nat, pc: Loose, c: Choice): State
    requires t < |s.threads|
  {
    match pc
    case DrainEnter =>
      if c.expired then Goto(s, t, Unlocked(Outside))
      else if s.drainLock then s
      else Goto(s, t, Unlocked(DrainTop)).(drainLock := true)
    case DrainTop => Goto(s, t, Unlocked(if c.expired then DrainLeave else DrainScan(0, false)))
    case DrainEnd(pending) =>
      if c.expired then Goto(s, t, Unlocked(DrainLeave))
      else if !pending then Goto(s, t, Unlocked(DrainLeave)).(drained := true)
      else Goto(s, t, Unlocked(DrainTop))
    case DrainLeave => Goto(s, t, Unlocked(Outside)).(drainLock := false)
    case _ => s
  }

  /** `_borrow` under the Condition, with the rounds of `_reserve_slot`. */
  function BorrowStep(s: State, t: nat, pc: Inside, c: Choice): State
    requires t < |s.threads|
  {
    match pc
    case BorrowCheck =>
      if (s.strict && c.expired) || s.closing then Goto(s, t, InCond(Leave(Outside)))
      else Goto(s, t, InCond(BorrowScan(false, 0)))
    case BorrowScan(create, i) =>
      if i < |s.slots| then
        TryLock(s, t, i, InCondOnSlot(i, BorrowLook(create)), InCond(BorrowScan(create, i + 1)))
      else if !create && !s.strict then Goto(s, t, InCond(BorrowScan(true, 0)))
      else Goto(s, t, InCond(BorrowNone))
    case BorrowNone =>
      if s.strict then Goto(s, t, InCond(Leave(BorrowPause)))
      else if c.expired then Goto(s, t, InCond(Leave(Outside)))
      else ExitCond(s, t, Unlocked(BorrowParked)).(waiters := s.waiters + {t})
    case _ => s
  }

  /** `_seal`, `_notify_legacy_waiters` and `release` under the Condition. */
  function InsideStep(s: State, t: nat, pc: Inside): State
    requires t < |s.threads|
  {
    match pc
    case NotifyAll(again) =>
      Goto(s, t, InCond(Leave(if again then BorrowTop else Outside))).(waiters := {})
    case ReleasePop(conn) =>
      // A key of `_legacy` always names the slot that holds it, so the second refusal is not reachable.
      if conn !in s.legacy || s.legacy[conn] >= |s.slots| || s.slots[s.legacy[conn]].conn != Some(conn) then
        Goto(s, t, InCond(Leave(Outside)))
      else
        var i := s.legacy[conn];
        SetSlot(s, t, i, s.slots[i].(holder := ByThread(t)),
                InCondOnSlot(i, if s.closing || conn in s.closed then LeaveWith(DISCARD) else ReturnIdle))
          .(legacy := s.legacy - {conn})
    case ReleaseNotify => Goto(s, t, InCond(Leave(Outside))).(waiters := {})
    case SealNotify(bounded) =>
      Goto(s, t, InCond(Leave(if bounded then DrainEnter else CloseScan(0)))).(waiters := {}, sealed := true)
    case Leave(k) => ExitCond(s, t, Unlocked(k))
    case _ => s
  }

  /** `_dispose` by a legacy caller, who notifies the waiters whatever happens. */
  const DISCARD: Work := DisposeMark(NotifyEnter(false), NotifyEnter(false))

  /** Steps under the Condition on a locked slot. */
  function BothStep(s: State, t: nat, i: nat, pc: Both): State
    requires t < |s.threads| && i < |s.slots|
  {
    var slot := s.slots[i];
    match pc
    case BorrowLook(create) =>
      if Wanted(create, slot.state) then
        SetSlot(s, t, i,
                slot.(generation := slot.generation + 1, state := if create then Creating else Acquired),
                InCondOnSlot(i, LeaveWith(FinishCheck)))
      else
        SetSlot(s, t, i, slot.(holder := Free), InCond(BorrowScan(create, i + 1)))
    case FinishLend =>
      if s.closing then Goto(s, t, InCondOnSlot(i, LeaveWith(DISCARD)))
      else if slot.conn.None? then s  // not reachable: the slot has just been given a connection
      else
        SetSlot(s, t, i, slot.(state := Acquired, holder := ByLegacyLease), InCond(Leave(Outside)))
          .(legacy := s.legacy[slot.conn.value := i])
    case LeaveWith(w) => ExitCond(s, t, OnSlot(i, w))
    case ReturnIdle => SetSlot(s, t, i, slot.(state := Idle), InCondOnSlot(i, ReturnUnlock))
    case ReturnUnlock => SetSlot(s, t, i, slot.(holder := Free), InCond(ReleaseNotify))
  }

  /** `_finish_borrow`, and the lease construction of `_acquire_strict`. */
  function FinishStep(s: State, t: nat, i: nat, pc: Work, c: Choice): State
    requires t < |s.threads| && i < |s.slots|
  {
    var slot := s.slots[i];
    match pc
    case FinishCheck =>  // a reserved slot that is not being created has a connection
      if slot.state == Creating then Goto(s, t, OnSlot(i, FinishCreate))
      else if Lost(slot, s.closed) then
        Goto(s, t, OnSlot(i, Publish(Closed, if s.strict then BorrowTop else NotifyEnter(true))))
      else Goto(s, t, OnSlot(i, if s.strict then FinishLease else FinishEnter))
    case FinishCreate =>
      if c.ok then
        SetSlot(s, t, i, slot.(conn := Some(s.created)), OnSlot(i, FinishEnter)).(created := s.created + 1)
      else
        SetSlot(s, t, i, slot.(conn := None), OnSlot(i, Publish(Empty, NotifyEnter(false))))
    case FinishEnter => EnterCond(s, t, InCondOnSlot(i, FinishLend))
    case FinishLease =>
      if c.expired then Goto(s, t, OnSlot(i, Publish(Idle, Outside)))
      else
        SetSlot(s, t, i, slot.(holder := ByStrictLease(|s.leases|)), Unlocked(Outside))
          .(leases := s.leases + [Lease(i, slot.generation, t, true)])
    case _ => s
  }

  /** `_terminal` and `_dispose`. */
  function DisposeStep(s: State, t: nat, i: nat, pc: Work, c: Choice): State
    requires t < |s.threads| && i < |s.slots|
  {
    var slot := s.slots[i];
    match pc
    case Publish(state, k) => SetSlot(s, t, i, slot.(state := state), OnSlot(i, Unlock(k)))
    case Unlock(k) => SetSlot(s, t, i, slot.(holder := Free), Unlocked(k))
    case DisposeMark(k, failed) => SetSlot(s, t, i, slot.(state := Closing), OnSlot(i, DisposeClose(k, failed)))
    case DisposeClose(k, failed) =>
      var s1 := Goto(s, t, OnSlot(i, DisposeProve(k, failed)));
      if slot.conn.Some? && !Lost(slot, s.closed) && c.closes then
        s1.(closed := s.closed + {slot.conn.value})
      else s1
    case DisposeProve(k, failed) =>
      if c.ok && Lost(slot, s.closed) then Goto(s, t, OnSlot(i, Publish(Closed, k)))
      else Goto(s, t, OnSlot(i, Publish(Quarantined, failed)))
    case _ => s
  }

  /** The checks of `_release_strict`. */
  function StrictStep(s: State, t: nat, i: nat, pc: Work, c: Choice): State
    requires t < |s.threads| && i < |s.slots|
  {
    match pc
    case StrictCheck(reusable) =>
      if reusable && !c.ok then Goto(s, t, OnSlot(i, Publish(Quarantined, Outside)))
      else if reusable && !Lost(s.slots[i], s.closed) then Goto(s, t, OnSlot(i, Publish(Idle, Outside)))
      else Goto(s, t, OnSlot(i, StrictBudget))
    case StrictBudget =>
      if c.expired then Goto(s, t, OnSlot(i, Publish(Quarantined, Outside)))
      else Goto(s, t, OnSlot(i, DisposeMark(Outside, Outside)))
    case _ => s
  }

  /** What the passes over the slots do with a slot they have locked. */
  function LookStep(s: State, t: nat, i: nat, pc: Work, c: Choice): State
    requires t < |s.threads| && i < |s.slots|
  {
    var slot := s.slots[i];
    match pc
    case CloseLook =>
      if slot.state == Idle then Goto(s, t, OnSlot(i, DisposeMark(CloseScan(i + 1), Outside)))
      else if slot.state == Quarantined then Goto(s, t, OnSlot(i, Unlock(Outside)))
      else Goto(s, t, OnSlot(i, Unlock(CloseScan(i + 1))))
    case DrainLook(pending) =>
      if slot.state == Idle && c.expired then Goto(s, t, OnSlot(i, Unlock(DrainLeave)))
      else if slot.state == Idle then Goto(s, t, OnSlot(i, DisposeMark(DrainScan(i + 1, pending), DrainLeave)))
      else if slot.state == Quarantined then Goto(s, t, OnSlot(i, Unlock(DrainLeave)))
      else if Settled(slot) then
        Goto(s, t, OnSlot(i, Unlock(DrainScan(i + 1, pending))))
      else Goto(s, t, OnSlot(i, Unlock(DrainScan(i + 1, true))))
    case ProbeLook(charged) =>
      Goto(s, t, OnSlot(i, Unlock(ProbeScan(i + 1, if Settled(slot) then charged else charged + 1))))
    case _ => s
  }

  predicate WaitPc(pc: Loose) { pc.BorrowTop? || pc.BorrowParked? || pc.BorrowPause? }

  predicate EnterPc(pc: Loose) {
    pc.BorrowEnter? || pc.BorrowWake? || pc.NotifyEnter? || pc.ReleaseEnter? || pc.SealEnter?
  }

  predicate PassPc(pc: Loose) { pc.CloseScan? || pc.ProbeScan? || pc.DrainScan? }

  predicate BorrowPc(pc: Inside) { pc.BorrowCheck? || pc.BorrowScan? || pc.BorrowNone? }

  predicate FinishPc(pc: Work) {
    pc.FinishCheck? || pc.FinishCreate? || pc.FinishEnter? || pc.FinishLease?
  }

  predicate StrictPc(pc: Work) { pc.StrictCheck? || pc.StrictBudget? }

  predicate LookPc(pc: Work) { pc.CloseLook? || pc.DrainLook? || pc.ProbeLook? }

  function ThreadStep(s: State, t: nat, c: Choice): State
    requires t < |s.threads|
  {
    match s.threads[t]
    case Unlocked(pc) =>
      if pc == Outside then StartStep(s, t, c)
      else if WaitPc(pc) then WaitStep(s, t, pc, c)
      else if EnterPc(pc) then EnterStep(s, t, pc, c)
      else if PassPc(pc) then PassStep(s, t, pc)
      else DrainStep(s, t, pc, c)
    case InCond(pc) =>
      if BorrowPc(pc) then BorrowStep(s, t, pc, c) else InsideStep(s, t, pc)
    case OnSlot(i, pc) =>
      if i >= |s.slots| then s
      else if FinishPc(pc) then FinishStep(s, t, i, pc, c)
      else if StrictPc(pc) then StrictStep(s, t, i, pc, c)
      else if LookPc(pc) then LookStep(s, t, i, pc, c)
      else DisposeStep(s, t, i, pc, c)
    case InCondOnSlot(i, pc) => if i >= |s.slots| then s else BothStep(s, t, i, pc)
  }

  function Step(s: State, e: Event): State {
    match e
    case Break(conn) => if conn < s.created then s.(closed := s.closed + {conn}) else s
    case Run(t, c) => if t < |s.threads| then ThreadStep(s, t, c) else s
  }

  /** A run from a state. */
  function Exec(s: State, run: seq<Event>): State
    decreases |run|
  {
    if run == [] then s else Exec(Step(s, run[0]), run[1..])
  }

  lemma {:induction false} ExecConcat(s: State, a: seq<Event>, b: seq<Event>)
    ensures Exec(s, a + b) == Exec(Exec(s, a), b)
    decreases |a|
  {
    if a == [] {
      assert a + b == b;
    } else {
      assert (a + b)[0] == a[0] && (a + b)[1..] == a[1..] + b;
      ExecConcat(Step(s, a[0]), a[1..], b);
    }
  }

  lemma ExecStep(s: State, run: seq<Event>)
    requires run != []
    ensures Exec(s, run) == Exec(Step(s, run[0]), run[1..])
  {
  }

  lemma ExecThen(s: State, run: seq<Event>, e: Event)
    ensures Exec(s, run + [e]) == Step(Exec(s, run), e)
  {
    ExecConcat(s, run, [e]);
    ExecStep(Exec(s, run), [e]);
  }

  /** A choice under which nothing expires and every native call succeeds. */
  function Calls(op: Op): Choice { Choice(op, false, true, true) }

  /** A constructed provider: `minSize` idle connections, no lease, every thread outside. */
  function Init(maxSize: nat, minSize: nat, threads: nat, strict: bool, probes: bool): State
    requires minSize <= maxSize
  {
    State(
      strict, probes,
      seq(maxSize, (i: int) requires 0 <= i =>
        if i < minSize then Slot(Free, Idle, 0, Some(i)) else Slot(Free, Empty, 0, None)),
      seq(threads, _ => Unlocked(Outside)),
      None, {}, false, false, false, false, map[], [], minSize, {})
  }
}
