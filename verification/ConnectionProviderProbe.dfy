/**
  What a probe of the charged connections counts. It goes from slot to slot while other threads
  run, so its sum belongs to no single state. It bounds the connections that stay open throughout;
  it bounds what is open in some state of its run exactly when the provider is strict.
*/
module ConnectionProviderProbe {
  import opened Wrappers
  import opened ConnectionProvider
  import opened ConnectionProviderSafety
  import opened ConnectionProviderInventory
  import opened ConnectionProviderCalls

  predicate InProbe(th: Thread) {
    match th
    case Unlocked(pc) => pc.ProbeScan?
    case OnSlot(_, pc) => pc.ProbeLook? || (pc.Unlock? && pc.k.ProbeScan?)
    case _ => false
  }

  /** Thread `t` is in one probe in every state of the run. */
  ghost predicate Probing(s: State, run: seq<Event>, t: nat)
    decreases |run|
  {
    t < |s.threads| && InProbe(s.threads[t]) && (run != [] ==> Probing(Step(s, run[0]), run[1..], t))
  }

  /** The probe of thread `t` has been to every slot, and is about to return `charged`. */
  ghost predicate Returns(s: State, t: nat, charged: nat) {
    t < |s.threads| && s.threads[t] == Unlocked(ProbeScan(|s.slots|, charged))
  }

  /** A run from the start of a probe of thread `t` to its return. */
  ghost predicate ProbeRun(s: State, run: seq<Event>, t: nat, charged: nat) {
    && t < |s.threads| && s.threads[t] == Unlocked(ProbeScan(0, 0))
    && Probing(s, run, t) && Returns(Exec(s, run), t, charged)
  }

  /** The connection is open in every state of the run. */
  ghost predicate OpenAlways(s: State, run: seq<Event>, c: nat)
    decreases |run|
  {
    c in OpenConnections(s) && (run != [] ==> OpenAlways(Step(s, run[0]), run[1..], c))
  }

  ghost function OpenThroughout(s: State, run: seq<Event>): set<nat> {
    set c: nat | 0 <= c < s.created && OpenAlways(s, run, c)
  }

  // -------------------------------------------------------- what a step does to connections

  /** A slot keeps its connection, drops it, or gets a new one. */
  predicate SameOrNew(slot: Slot, slot': Slot, created: nat) {
    slot'.conn == slot.conn || slot'.conn.None? || slot'.conn.value >= created
  }

  ghost predicate OthersStay(s: State, threads: seq<Thread>, t: nat) {
    |threads| == |s.threads| && forall u: nat :: u < |s.threads| && u != t ==> threads[u] == s.threads[u]
  }

  ghost predicate NoneOld(s: State, slots: seq<Slot>) {
    |slots| == |s.slots| && forall i: nat :: i < |s.slots| ==> SameOrNew(s.slots[i], slots[i], s.created)
  }

  /** Only thread `t` moves, no connection is reopened, no slot gets an old one, and a new one is
      opened only by a step that `creates`. */
  ghost predicate Mild(s: State, s': State, t: nat, creates: bool) {
    && OthersStay(s, s'.threads, t) && NoneOld(s, s'.slots) && s.created <= s'.created && s.closed <= s'.closed
    && (s'.created == s.created || creates) && s'.strict == s.strict
  }

  lemma MovesMild(s: State, t: nat)
    requires t < |s.threads|
    ensures Mild(s, s, t, false)
    ensures forall th {:trigger Goto(s, t, th)} ::
      && Mild(s, Goto(s, t, th), t, false)
      && Goto(s, t, th).closed == s.closed && Goto(s, t, th).created == s.created && Goto(s, t, th).slots == s.slots
      && Goto(s, t, th).strict == s.strict
    ensures forall i: nat, slot, th {:trigger SetSlot(s, t, i, slot, th)} :: i < |s.slots| ==>
      && SetSlot(s, t, i, slot, th).closed == s.closed && SetSlot(s, t, i, slot, th).created == s.created
      && SetSlot(s, t, i, slot, th).strict == s.strict
      && (SameOrNew(s.slots[i], slot, s.created) ==> Mild(s, SetSlot(s, t, i, slot, th), t, false))
  {
  }

  lemma CallMild(s: State, t: nat, pc: Loose, c: Choice)
    requires t < |s.threads|
    ensures Mild(s, StartStep(s, t, c), t, false) && Mild(s, WaitStep(s, t, pc, c), t, false)
    ensures Mild(s, EnterStep(s, t, pc, c), t, false)
  {
    hide OthersStay, NoneOld, Goto, SetSlot;
    MovesMild(s, t);
  }

  lemma PassMild(s: State, t: nat, pc: Loose, c: Choice)
    requires t < |s.threads|
    ensures Mild(s, PassStep(s, t, pc), t, false) && Mild(s, DrainStep(s, t, pc, c), t, false)
  {
    hide OthersStay, NoneOld, Goto, SetSlot;
    MovesMild(s, t);
  }

  lemma InsideMild(s: State, t: nat, pc: Inside, c: Choice)
    requires t < |s.threads|
    ensures Mild(s, BorrowStep(s, t, pc, c), t, false) && Mild(s, InsideStep(s, t, pc), t, false)
  {
    hide OthersStay, NoneOld, Goto, SetSlot;
    MovesMild(s, t);
  }

  lemma WorkMild(s: State, t: nat, i: nat, pc: Work, c: Choice)
    requires t < |s.threads| && i < |s.slots|
    ensures Mild(s, FinishStep(s, t, i, pc, c), t, pc == FinishCreate)
    ensures Mild(s, DisposeStep(s, t, i, pc, c), t, false)
    ensures Mild(s, StrictStep(s, t, i, pc, c), t, false) && Mild(s, LookStep(s, t, i, pc, c), t, false)
  {
    hide OthersStay, NoneOld, Goto, SetSlot;
    MovesMild(s, t);
  }

  lemma BothMild(s: State, t: nat, i: nat, pc: Both)
    requires t < |s.threads| && i < |s.slots|
    ensures Mild(s, BothStep(s, t, i, pc), t, false)
  {
    hide OthersStay, NoneOld, Goto, SetSlot;
    MovesMild(s, t);
  }

  predicate Creates(th: Thread) { th.OnSlot? && th.work == FinishCreate }

  lemma ThreadMild(s: State, t: nat, c: Choice)
    requires t < |s.threads|
    ensures Mild(s, ThreadStep(s, t, c), t, Creates(s.threads[t]))
  {
    hide OthersStay, NoneOld, StartStep, WaitStep, EnterStep, PassStep, DrainStep, BorrowStep, InsideStep, BothStep,
      FinishStep, DisposeStep, StrictStep, LookStep;
    MovesMild(s, t);
    match s.threads[t]
    case Unlocked(pc) => CallMild(s, t, pc, c); PassMild(s, t, pc, c);
    case InCond(pc) => InsideMild(s, t, pc, c);
    case OnSlot(i, pc) => if i < |s.slots| { WorkMild(s, t, i, pc, c); }
    case InCondOnSlot(i, pc) => if i < |s.slots| { BothMild(s, t, i, pc); }
  }

  /** What holds of every event. */
  ghost predicate Onward(s: State, s': State) {
    && |s.threads| == |s'.threads| && NoneOld(s, s'.slots) && s.created <= s'.created && s.closed <= s'.closed
  }

  lemma StepOnward(s: State, e: Event)
    ensures Onward(s, Step(s, e))
    ensures forall u: nat :: u < |s.threads| && (e.Run? ==> e.thread != u) ==> Step(s, e).threads[u] == s.threads[u]
  {
    hide ThreadStep;
    if e.Run? && e.thread < |s.threads| { ThreadMild(s, e.thread, e.choice); }
  }

  /** A strict provider opens no connection after its construction. */
  lemma StrictOnward(s: State, e: Event)
    requires Inv(s) && s.strict
    ensures Step(s, e).created == s.created && Step(s, e).strict
  {
    hide ThreadStep;
    if e.Run? && e.thread < |s.threads| {
      assert ThreadOk(s, e.thread);
      ThreadMild(s, e.thread, e.choice);
    }
  }

  // ------------------------------------------------------------------------ the count

  /** Slot `i` has a connection that was opened before the probe and is still open. */
  predicate Old(s: State, before: nat, i: nat)
    requires i < |s.slots|
  {
    s.slots[i].conn.Some? && s.slots[i].conn.value < before && s.slots[i].conn.value !in s.closed
  }

  function OldSlots(s: State, before: nat, n: nat): set<nat> {
    set i: nat | i < n && i < |s.slots| && Old(s, before, i)
  }

  /** The slots behind the probe that still have an old connection have all been charged. */
  ghost predicate Counts(s: State, before: nat, t: nat) {
    && before <= s.created && t < |s.threads|
    && match s.threads[t]
       case Unlocked(ProbeScan(j, charged)) => j <= |s.slots| && |OldSlots(s, before, j)| <= charged <= j
       case OnSlot(i, ProbeLook(charged)) => i < |s.slots| && |OldSlots(s, before, i)| <= charged <= i
       case OnSlot(i, Unlock(ProbeScan(j, charged))) =>
         i + 1 == j <= |s.slots| && |OldSlots(s, before, j)| <= charged <= j
       case _ => false
  }

  lemma FewerOld(s: State, s': State, before: nat, n: nat)
    requires Onward(s, s') && before <= s.created
    ensures |OldSlots(s', before, n)| <= |OldSlots(s, before, n)|
  {
    forall i | i in OldSlots(s', before, n) ensures i in OldSlots(s, before, n) {
      assert SameOrNew(s.slots[i], s'.slots[i], s.created);
    }
    var same := map i: nat | i in OldSlots(s', before, n) :: i;
    SmallerDomain(OldSlots(s', before, n), same, OldSlots(s, before, n));
  }

  /** One slot more is at most one more, and none if the slot is settled. */
  lemma NextOld(s: State, before: nat, j: nat)
    requires j < |s.slots|
    ensures |OldSlots(s, before, j + 1)| <= |OldSlots(s, before, j)| + if Old(s, before, j) then 1 else 0
  {
    assert OldSlots(s, before, j + 1) == OldSlots(s, before, j) + if Old(s, before, j) then {j} else {};
  }

  /** A step of somebody else. */
  lemma OtherCounts(s: State, e: Event, before: nat, t: nat)
    requires Counts(s, before, t) && (e.Run? ==> e.thread != t)
    ensures Counts(Step(s, e), before, t)
  {
    hide Step;
    StepOnward(s, e);
    forall n: nat ensures |OldSlots(Step(s, e), before, n)| <= |OldSlots(s, before, n)| {
      FewerOld(s, Step(s, e), before, n);
    }
  }

  lemma LockCounts(s: State, before: nat, t: nat, j: nat, charged: nat)
    requires Counts(s, before, t) && s.threads[t] == Unlocked(ProbeScan(j, charged)) && j < |s.slots|
    ensures Counts(SetSlot(s, t, j, s.slots[j].(holder := ByThread(t)), OnSlot(j, ProbeLook(charged))), before, t)
  {
    hide StartStep, WaitStep, EnterStep, PassStep, DrainStep, BorrowStep, InsideStep, BothStep, FinishStep,
      DisposeStep, StrictStep, LookStep;
    MovesMild(s, t);
    FewerOld(s, SetSlot(s, t, j, s.slots[j].(holder := ByThread(t)), OnSlot(j, ProbeLook(charged))), before, j);
  }

  lemma SkipCounts(s: State, before: nat, t: nat, j: nat, charged: nat)
    requires Counts(s, before, t) && s.threads[t] == Unlocked(ProbeScan(j, charged)) && j < |s.slots|
    ensures Counts(Goto(s, t, Unlocked(ProbeScan(j + 1, charged + 1))), before, t)
  {
    NextOld(s, before, j);
    MovesMild(s, t);
    FewerOld(s, Goto(s, t, Unlocked(ProbeScan(j + 1, charged + 1))), before, j + 1);
  }

  lemma LookCounts(s: State, before: nat, t: nat, i: nat, charged: nat, c: Choice)
    requires Inv(s) && Counts(s, before, t) && s.threads[t] == OnSlot(i, ProbeLook(charged))
    ensures Counts(LookStep(s, t, i, ProbeLook(charged), c), before, t)
  {
    hide StartStep, WaitStep, EnterStep, PassStep, DrainStep, BorrowStep, InsideStep, BothStep, FinishStep,
      DisposeStep, StrictStep;
    var s' := LookStep(s, t, i, ProbeLook(charged), c);
    assert SlotOk(s, i);
    NextOld(s, before, i);
    MovesMild(s, t);
    FewerOld(s, s', before, i + 1);
  }

  lemma UnlockCounts(s: State, before: nat, t: nat, i: nat, k: Loose, c: Choice)
    requires Counts(s, before, t) && s.threads[t] == OnSlot(i, Unlock(k))
    ensures Counts(DisposeStep(s, t, i, Unlock(k), c), before, t)
  {
    var s' := DisposeStep(s, t, i, Unlock(k), c);
    MovesMild(s, t);
    FewerOld(s, s', before, i + 1);
  }

  /** The probe's own steps; after the last slot it leaves. */
  lemma ScanCounts(s: State, before: nat, t: nat, j: nat, charged: nat, c: Choice)
    requires Counts(s, before, t) && s.threads[t] == Unlocked(ProbeScan(j, charged))
    ensures var s' := Step(s, Run(t, c));
            |s'.threads| == |s.threads| && (InProbe(s'.threads[t]) ==> Counts(s', before, t))
  {
    hide OldSlots, StartStep, WaitStep, EnterStep, DrainStep, BorrowStep, InsideStep, BothStep, FinishStep,
      DisposeStep, StrictStep, LookStep;
    if j < |s.slots| && s.slots[j].holder == Free { LockCounts(s, before, t, j, charged); }
    else if j < |s.slots| { SkipCounts(s, before, t, j, charged); }
  }

  lemma HeldCounts(s: State, before: nat, t: nat, i: nat, pc: Work, c: Choice)
    requires Inv(s) && Counts(s, before, t) && s.threads[t] == OnSlot(i, pc)
    ensures Counts(Step(s, Run(t, c)), before, t)
  {
    hide Inv, OldSlots, StartStep, WaitStep, EnterStep, PassStep, DrainStep, BorrowStep, InsideStep, BothStep,
      FinishStep, DisposeStep, StrictStep, LookStep;
    if pc.ProbeLook? { LookCounts(s, before, t, i, pc.charged, c); } else { UnlockCounts(s, before, t, i, pc.k, c); }
  }

  lemma StepCounts(s: State, e: Event, before: nat, t: nat)
    requires Inv(s) && Counts(s, before, t) && t < |Step(s, e).threads| && InProbe(Step(s, e).threads[t])
    ensures Counts(Step(s, e), before, t)
  {
    hide Inv, OldSlots, Step, InProbe;
    if e.Run? && e.thread == t {
      match s.threads[t]
      case Unlocked(ProbeScan(j, charged)) => ScanCounts(s, before, t, j, charged, e.choice);
      case OnSlot(i, pc) => HeldCounts(s, before, t, i, pc, e.choice);
      case _ =>
    } else {
      OtherCounts(s, e, before, t);
    }
  }

  lemma {:induction false} RunCounts(s: State, run: seq<Event>, before: nat, t: nat)
    requires Inv(s) && Counts(s, before, t) && Probing(s, run, t)
    ensures Counts(Exec(s, run), before, t) && Inv(Exec(s, run))
    decreases |run|
  {
    hide Inv, Counts, Step, InProbe;
    if run != [] {
      var s1 := Step(s, run[0]);
      StepSafe(s, run[0]);
      assert Probing(s1, run[1..], t);
      StepCounts(s, run[0], before, t);
      RunCounts(s1, run[1..], before, t);
    }
  }

  lemma {:induction false} OpenAtEnd(s: State, run: seq<Event>, c: nat)
    requires OpenAlways(s, run, c)
    ensures c in OpenConnections(Exec(s, run))
    decreases |run|
  {
    hide Step;
    if run != [] { OpenAtEnd(Step(s, run[0]), run[1..], c); }
  }

  /** Whatever else runs while a probe goes round: it returns at least the number of connections
      that are open from its start to its end, and at most the maximum size. */
  lemma ProbeCharges(maxSize: nat, minSize: nat, threads: nat, strict: bool, run: seq<Event>, probe: seq<Event>,
      t: nat, charged: nat)
    requires minSize <= maxSize
    requires ProbeRun(Exec(Init(maxSize, minSize, threads, strict, true), run), probe, t, charged)
    ensures var s := Exec(Init(maxSize, minSize, threads, strict, true), run);
            |OpenThroughout(s, probe)| <= charged <= maxSize
  {
    hide Step;
    Reachable(maxSize, minSize, threads, strict, true, run);
    var s := Exec(Init(maxSize, minSize, threads, strict, true), run);
    assert OldSlots(s, s.created, 0) == {};
    RunCounts(s, probe, s.created, t);
    var s' := Exec(s, probe);
    Reachable(maxSize, minSize, threads, strict, true, run + probe);
    ExecConcat(Init(maxSize, minSize, threads, strict, true), run, probe);
    ChargedOld(s, probe, s.created, maxSize);
  }

  lemma ChargedOld(s: State, run: seq<Event>, before: nat, n: nat)
    requires Inv(Exec(s, run)) && before == s.created && n == |Exec(s, run).slots|
    ensures |OpenThroughout(s, run)| <= |OldSlots(Exec(s, run), before, n)|
  {
    hide Step, Inv;
    var s' := Exec(s, run);
    forall c | c in OpenThroughout(s, run) ensures c in OpenConnections(s') { OpenAtEnd(s, run, c); }
    var home := map c: nat | c in OpenThroughout(s, run) :: SlotOf(s', c);
    forall c, d | c in home && d in home && home[c] == home[d] ensures c == d {
      assert s'.slots[home[c]].conn == Some(c) && s'.slots[home[d]].conn == Some(d);
    }
    forall c | c in home ensures home[c] in OldSlots(s', before, n) {
      assert s'.slots[home[c]].conn == Some(c) && c in OpenConnections(s');
    }
    SmallerDomain(OpenThroughout(s, run), home, OldSlots(s', before, n));
  }

  // -------------------------------------------------------------------- a probe alone

  lemma {:induction false} ProbingConcat(s: State, a: seq<Event>, b: seq<Event>, t: nat)
    requires Probing(s, a, t) && Probing(Exec(s, a), b, t)
    ensures Probing(s, a + b, t)
    decreases |a|
  {
    hide Step, InProbe;
    if a == [] {
      assert a + b == b;
    } else {
      assert (a + b)[0] == a[0] && (a + b)[1..] == a[1..] + b;
      ProbingConcat(Step(s, a[0]), a[1..], b, t);
    }
  }

  lemma ProbingThrough(s: State, e: Event, s1: State, s2: State, s3: State, t: nat)
    requires Step(s, e) == s1 && Step(s1, e) == s2 && Step(s2, e) == s3 && t < |s.threads|
    requires |s1.threads| == |s2.threads| == |s3.threads| == |s.threads|
    requires InProbe(s.threads[t]) && InProbe(s1.threads[t]) && InProbe(s2.threads[t]) && InProbe(s3.threads[t])
    ensures Probing(s, Times(3, e), t)
  {
    hide Step, InProbe;
    assert Times(3, e)[1..] == Times(2, e) && Times(2, e)[1..] == Times(1, e) && Times(1, e)[1..] == [];
    assert Probing(s3, [], t);
    assert Probing(s2, Times(1, e), t);
    assert Probing(s1, Times(2, e), t);
  }

  /** A locked slot is charged without a look. */
  lemma SkipsLocked(s: State, t: nat, j: nat, charged: nat)
    requires t < |s.threads| && s.threads[t] == Unlocked(ProbeScan(j, charged)) && j < |s.slots|
    requires s.slots[j].holder != Free
    ensures Step(s, By(t, Probe)) == Goto(s, t, Unlocked(ProbeScan(j + 1, charged + 1)))
  {
  }

  lemma ProbeLocked(s: State, t: nat, j: nat, charged: nat)
    requires t < |s.threads| && s.threads[t] == Unlocked(ProbeScan(j, charged)) && j < |s.slots|
    requires s.slots[j].holder != Free
    ensures Exec(s, Times(1, By(t, Probe))) == Goto(s, t, Unlocked(ProbeScan(j + 1, charged + 1)))
    ensures Probing(s, Times(1, By(t, Probe)), t)
  {
    hide Step;
    SkipsLocked(s, t, j, charged);
    OneStep(s, By(t, Probe));
    assert Times(1, By(t, Probe))[1..] == [];
    assert Probing(Step(s, By(t, Probe)), [], t);
  }

  /** The slot is locked by the probe, and then has been looked at. */
  function LockedBy(s: State, t: nat, j: nat, work: Work): State
    requires t < |s.threads| && j < |s.slots|
  {
    SetSlot(s, t, j, s.slots[j].(holder := ByThread(t)), OnSlot(j, work))
  }

  lemma LocksSlot(s: State, t: nat, j: nat, charged: nat)
    requires t < |s.threads| && s.threads[t] == Unlocked(ProbeScan(j, charged)) && j < |s.slots|
    requires s.slots[j].holder == Free
    ensures Step(s, By(t, Probe)) == LockedBy(s, t, j, ProbeLook(charged))
  {
  }

  lemma LooksAtSlot(s: State, t: nat, j: nat, charged: nat)
    requires t < |s.threads| && j < |s.slots| && s.slots[j].holder == Free
    ensures Step(LockedBy(s, t, j, ProbeLook(charged)), By(t, Probe))
            == LockedBy(s, t, j, Unlock(ProbeScan(j + 1, if Charged(s.slots[j]) then charged + 1 else charged)))
  {
    hide StartStep, WaitStep, EnterStep, PassStep, DrainStep, BorrowStep, InsideStep, BothStep, FinishStep,
      DisposeStep, StrictStep;
    var s1 := LockedBy(s, t, j, ProbeLook(charged));
    var k := ProbeScan(j + 1, if Charged(s.slots[j]) then charged + 1 else charged);
    assert s1.threads[t := OnSlot(j, Unlock(k))] == s.threads[t := OnSlot(j, Unlock(k))];
  }

  lemma UnlocksSlot(s: State, t: nat, j: nat, k: Loose)
    requires t < |s.threads| && j < |s.slots| && s.slots[j].holder == Free
    ensures Step(LockedBy(s, t, j, Unlock(k)), By(t, Probe)) == Goto(s, t, Unlocked(k))
  {
    var s2 := LockedBy(s, t, j, Unlock(k));
    assert s2.threads[t := Unlocked(k)] == s.threads[t := Unlocked(k)] && s2.slots[j := s.slots[j]] == s.slots;
  }

  /** An unlocked slot is locked, looked at and unlocked. */
  lemma ProbeUnlocked(s: State, t: nat, j: nat, charged: nat)
    requires t < |s.threads| && s.threads[t] == Unlocked(ProbeScan(j, charged)) && j < |s.slots|
    requires s.slots[j].holder == Free
    ensures Exec(s, Times(3, By(t, Probe)))
            == Goto(s, t, Unlocked(ProbeScan(j + 1, if Charged(s.slots[j]) then charged + 1 else charged)))
    ensures Probing(s, Times(3, By(t, Probe)), t)
  {
    hide Step, Probing;
    var e, k := By(t, Probe), ProbeScan(j + 1, if Charged(s.slots[j]) then charged + 1 else charged);
    var s1, s2 := LockedBy(s, t, j, ProbeLook(charged)), LockedBy(s, t, j, Unlock(k));
    LocksSlot(s, t, j, charged);
    LooksAtSlot(s, t, j, charged);
    UnlocksSlot(s, t, j, k);
    ThreeSteps(s, e, s1, s2, Goto(s, t, Unlocked(k)));
    ProbingThrough(s, e, s1, s2, Goto(s, t, Unlocked(k)), t);
  }

  lemma ProbeSlot(s: State, t: nat, j: nat, charged: nat) returns (run: seq<Event>)
    requires t < |s.threads| && s.threads[t] == Unlocked(ProbeScan(j, charged)) && j < |s.slots|
    ensures Alone(run, By(t, Probe)) && Probing(s, run, t)
    ensures Exec(s, run)
            == Goto(s, t, Unlocked(ProbeScan(j + 1, if Charged(s.slots[j]) then charged + 1 else charged)))
  {
    hide Step, Probing;
    if s.slots[j].holder == Free {
      ProbeUnlocked(s, t, j, charged);
      run := Times(3, By(t, Probe));
    } else {
      ProbeLocked(s, t, j, charged);
      run := Times(1, By(t, Probe));
    }
  }

  function ChargedFrom(s: State, j: nat): set<nat> {
    set i: nat | j <= i < |s.slots| && Charged(s.slots[i])
  }

  lemma ChargedNext(s: State, s1: State, j: nat)
    requires j < |s.slots| && s1.slots == s.slots
    ensures |ChargedFrom(s, j)| == |ChargedFrom(s1, j + 1)| + if Charged(s.slots[j]) then 1 else 0
  {
    assert ChargedFrom(s1, j + 1) == ChargedFrom(s, j + 1);
    assert ChargedFrom(s, j) == ChargedFrom(s, j + 1) + if Charged(s.slots[j]) then {j} else {};
  }

  /** A probe that nobody disturbs counts the slots that are charged. */
  lemma {:induction false} ProbeAlone(s: State, t: nat, j: nat, charged: nat) returns (run: seq<Event>)
    requires t < |s.threads| && s.threads[t] == Unlocked(ProbeScan(j, charged)) && j <= |s.slots|
    ensures Alone(run, By(t, Probe)) && Probing(s, run, t)
    ensures Exec(s, run) == Goto(s, t, Unlocked(ProbeScan(|s.slots|, charged + |ChargedFrom(s, j)|)))
    decreases |s.slots| - j
  {
    hide Step, Probing, Charged, ChargedFrom;
    if j == |s.slots| {
      run := [];
      NoneCharged(s);
      assert Goto(s, t, s.threads[t]).threads == s.threads;
      ProbingNow(s, t);
    } else {
      var first := ProbeSlot(s, t, j, charged);
      var s1 := Exec(s, first);
      var rest := ProbeAlone(s1, t, j + 1, if Charged(s.slots[j]) then charged + 1 else charged);
      run := first + rest;
      ExecConcat(s, first, rest);
      ProbingConcat(s, first, rest, t);
      ChargedNext(s, s1, j);
      var last := Unlocked(ProbeScan(|s.slots|, charged + |ChargedFrom(s, j)|));
      assert s1.threads[t := last] == s.threads[t := last];
    }
  }

  lemma NoneCharged(s: State)
    ensures ChargedFrom(s, |s.slots|) == {}
  {
  }

  lemma ProbingNow(s: State, t: nat)
    requires t < |s.threads| && InProbe(s.threads[t])
    ensures Probing(s, [], t)
  {
  }

  /** `charged_connections`, alone. */
  lemma UndisturbedProbe(s: State, t: nat) returns (run: seq<Event>)
    requires Quiet(s, t) && s.probes
    ensures Alone(run, By(t, Probe)) && Returns(Exec(s, run), t, |ChargedSlots(s)|)
    ensures Exec(s, run).slots == s.slots
  {
    hide Step;
    var s1 := Goto(s, t, Unlocked(ProbeScan(0, 0)));
    ProbeStarts(s, t);
    var rest := ProbeAlone(s1, t, 0, 0);
    run := Times(1, By(t, Probe)) + rest;
    ExecConcat(s, Times(1, By(t, Probe)), rest);
    assert ChargedFrom(s1, 0) == ChargedSlots(s);
  }

  lemma ProbeStarts(s: State, t: nat)
    requires t < |s.threads| && s.threads[t] == Unlocked(Outside) && s.probes
    ensures Exec(s, Times(1, By(t, Probe))) == Goto(s, t, Unlocked(ProbeScan(0, 0)))
  {
    OneStep(s, By(t, Probe));
  }

  // ------------------------------------------------------------- is the sum a snapshot?

  /** In some state of the run no more than `charged` connections are open. */
  ghost predicate Witnessed(s: State, run: seq<Event>, charged: nat)
    decreases |run|
  {
    |OpenConnections(s)| <= charged || (run != [] && Witnessed(Step(s, run[0]), run[1..], charged))
  }

  lemma {:induction false} WitnessedAtEnd(s: State, run: seq<Event>, charged: nat)
    requires |OpenConnections(Exec(s, run))| <= charged
    ensures Witnessed(s, run, charged)
    decreases |run|
  {
    hide Step;
    if run != [] { WitnessedAtEnd(Step(s, run[0]), run[1..], charged); }
  }

  lemma {:induction false} ClosedGrows(s: State, run: seq<Event>)
    ensures s.closed <= Exec(s, run).closed && |Exec(s, run).threads| == |s.threads|
    decreases |run|
  {
    hide Step;
    if run != [] {
      StepOnward(s, run[0]);
      ClosedGrows(Step(s, run[0]), run[1..]);
    }
  }

  lemma {:induction false} StrictCreatesNone(s: State, run: seq<Event>)
    requires Inv(s) && s.strict
    ensures Exec(s, run).created == s.created
    decreases |run|
  {
    hide Step, Inv;
    if run != [] {
      StrictOnward(s, run[0]);
      StepSafe(s, run[0]);
      StrictCreatesNone(Step(s, run[0]), run[1..]);
    }
  }

  lemma {:induction false} OpenAlwaysIf(s: State, run: seq<Event>, c: nat)
    requires c < s.created && c !in Exec(s, run).closed
    ensures OpenAlways(s, run, c)
    decreases |run|
  {
    hide Step;
    ClosedGrows(s, run);
    if run != [] {
      StepOnward(s, run[0]);
      OpenAlwaysIf(Step(s, run[0]), run[1..], c);
    }
  }

  /** What a probe of a strict provider returns is no less than what is open when it returns. */
  lemma StrictSnapshot(maxSize: nat, minSize: nat, threads: nat, run: seq<Event>, probe: seq<Event>, t: nat,
      charged: nat)
    requires minSize <= maxSize
    requires ProbeRun(Exec(Init(maxSize, minSize, threads, true, true), run), probe, t, charged)
    ensures |OpenConnections(Exec(Exec(Init(maxSize, minSize, threads, true, true), run), probe))| <= charged
  {
    hide Step;
    Reachable(maxSize, minSize, threads, true, true, run);
    var s := Exec(Init(maxSize, minSize, threads, true, true), run);
    InitSafe(maxSize, minSize, threads, true, true);
    RunSafe(Init(maxSize, minSize, threads, true, true), run);
    ProbeCharges(maxSize, minSize, threads, true, run, probe, t, charged);
    StrictCreatesNone(s, probe);
    forall c | c in OpenConnections(Exec(s, probe)) ensures c in OpenThroughout(s, probe) { OpenAlwaysIf(s, probe, c); }
    var same := map c: nat | c in OpenConnections(Exec(s, probe)) :: c;
    SmallerDomain(OpenConnections(Exec(s, probe)), same, OpenThroughout(s, probe));
  }

  // --------------------------------------- a legacy probe may charge less than is ever open

  lemma {:induction false} NotWitnessed(s: State, run: seq<Event>, open: set<nat>, charged: nat)
    requires |open| > charged && open !! Exec(s, run).closed && forall c :: c in open ==> c < s.created
    ensures !Witnessed(s, run, charged)
    decreases |run|
  {
    hide Step;
    ClosedGrows(s, run);
    var same := map c: nat | c in open :: c;
    SmallerDomain(open, same, OpenConnections(s));
    if run != [] {
      StepOnward(s, run[0]);
      NotWitnessed(Step(s, run[0]), run[1..], open, charged);
    }
  }

  lemma {:induction false} NotWitnessedConcat(s: State, a: seq<Event>, b: seq<Event>, charged: nat)
    requires !Witnessed(s, a, charged) && !Witnessed(Exec(s, a), b, charged)
    ensures !Witnessed(s, a + b, charged)
    decreases |a|
  {
    hide Step;
    if a == [] {
      assert a + b == b;
    } else {
      assert (a + b)[0] == a[0] && (a + b)[1..] == a[1..] + b;
      NotWitnessedConcat(Step(s, a[0]), a[1..], b, charged);
    }
  }

  /** A probe stands still while others run. */
  lemma {:induction false} ProbingMeanwhile(s: State, run: seq<Event>, t: nat)
    requires t < |s.threads| && InProbe(s.threads[t])
    requires forall i :: 0 <= i < |run| && run[i].Run? ==> run[i].thread != t
    ensures Probing(s, run, t)
    decreases |run|
  {
    hide Step, InProbe;
    if run != [] {
      StepOnward(s, run[0]);
      ProbingMeanwhile(Step(s, run[0]), run[1..], t);
    }
  }

  /** Locked slots are charged one after another. */
  lemma {:induction false} ProbeHeld(s: State, t: nat, j: nat, i: nat, charged: nat) returns (run: seq<Event>)
    requires t < |s.threads| && s.threads[t] == Unlocked(ProbeScan(j, charged)) && j <= i <= |s.slots|
    requires forall k: nat :: j <= k < i ==> s.slots[k].holder != Free
    ensures Alone(run, By(t, Probe)) && Probing(s, run, t)
    ensures Exec(s, run) == Goto(s, t, Unlocked(ProbeScan(i, charged + i - j)))
    decreases i - j
  {
    hide Step, Probing;
    if j == i {
      run := [];
      assert Goto(s, t, s.threads[t]).threads == s.threads;
      ProbingNow(s, t);
    } else {
      var first := ProbeSlot(s, t, j, charged);
      var s1 := Exec(s, first);
      var rest := ProbeHeld(s1, t, j + 1, i, charged + 1);
      run := first + rest;
      ExecConcat(s, first, rest);
      ProbingConcat(s, first, rest, t);
      var last := Unlocked(ProbeScan(i, charged + i - j));
      assert s1.threads[t := last] == s.threads[t := last];
    }
  }

  function LentUpTo(i: nat): (r: map<nat, nat>)
    ensures forall k: nat :: k in r <==> k < i
    ensures forall k: nat :: k in r ==> r[k] == k
  {
    if i == 0 then map[] else LentUpTo(i - 1)[i - 1 := i - 1]
  }

  /** The first `i` slots are lent, each with the connection of its number. */
  function Filled(n: nat, m: nat, threads: nat, i: nat): State
    requires m <= n && i <= n
  {
    Init(n, m, threads, false, true).(
      slots := seq(n, (k: int) requires 0 <= k =>
        if k < i then Slot(ByLegacyLease, Acquired, 1, Some(k))
        else if k < m then Slot(Free, Idle, 0, Some(k)) else Slot(Free, Empty, 0, None)),
      legacy := LentUpTo(i), created := if i > m then i else m)
  }

  /** Borrowing until every slot is lent. */
  lemma {:induction false} Fill(n: nat, m: nat, threads: nat, i: nat) returns (run: seq<Event>)
    requires m <= n && i <= n && threads >= 1
    ensures Exec(Init(n, m, threads, false, true), run) == Filled(n, m, threads, i)
    decreases i
  {
    hide Step, Skipped;
    var s := Init(n, m, threads, false, true);
    if i == 0 {
      run := [];
      assert s.slots == Filled(n, m, threads, 0).slots;
    } else {
      var before := Fill(n, m, threads, i - 1);
      var s1 := Filled(n, m, threads, i - 1);
      LentSkipped(n, m, threads, i - 1);
      var borrow;
      if i - 1 < m { borrow := AcquireLends(s1, 0, i - 1, i - 1); } else { borrow := AcquireCreates(s1, 0, i - 1); }
      run := before + borrow;
      ExecConcat(s, before, borrow);
      assert Exec(s, run).slots == Filled(n, m, threads, i).slots;
      assert Exec(s, run).legacy == Filled(n, m, threads, i).legacy;
    }
  }

  lemma LentSkipped(n: nat, m: nat, threads: nat, i: nat)
    requires m <= n && i < n
    ensures forall k: nat, create: bool :: k < i ==> Skipped(Filled(n, m, threads, i).slots[k], create)
    ensures m <= i ==> forall k: nat :: k < n ==> Skipped(Filled(n, m, threads, i).slots[k], false)
  {
  }

  /** The first slot has been closed again, the others are lent, and thread 1 is about to probe. */
  function BeforeProbe(n: nat, m: nat, threads: nat): State
    requires m <= n && n >= 2 && threads >= 2
  {
    var s := Filled(n, m, threads, n);
    s.(slots := s.slots[0 := Slot(Free, Closed, 1, Some(0))], threads := s.threads[1 := Unlocked(ProbeScan(0, 0))],
       legacy := s.legacy - {0}, closed := {0})
  }

  /** The probe is at the last slot, and the first one has been opened since. */
  function MidProbe(n: nat, m: nat, threads: nat): State
    requires m <= n && n >= 2 && threads >= 2
  {
    var s := BeforeProbe(n, m, threads);
    s.(slots := s.slots[0 := Slot(ByLegacyLease, Acquired, 2, Some(n))],
       threads := s.threads[1 := Unlocked(ProbeScan(n - 1, n - 2))],
       legacy := s.legacy[n := 0], created := n + 1)
  }

  lemma Single(s: State, e: Event)
    ensures Exec(s, [e]) == Step(s, e)
  {
    hide Step;
    ExecStep(s, [e]);
  }

  lemma Loses(s: State, conn: nat)
    requires conn < s.created
    ensures Step(s, Break(conn)) == s.(closed := s.closed + {conn})
  {
  }

  /** The first connection is lost and given back, and the probe is called. */
  lemma ToBeforeProbe(n: nat, m: nat, threads: nat) returns (run: seq<Event>)
    requires m <= n && n >= 2 && threads >= 2
    ensures Exec(Init(n, m, threads, false, true), run) == BeforeProbe(n, m, threads)
  {
    hide Step;
    var s := Init(n, m, threads, false, true);
    var lends := Fill(n, m, threads, n);
    var s1 := Filled(n, m, threads, n);
    Loses(s1, 0);
    Single(s1, Break(0));
    ExecConcat(s, lends, [Break(0)]);
    var s2 := Exec(s, lends + [Break(0)]);
    var disposes := ReleaseLost(s2, 0, 0, 0);
    ExecConcat(s, lends + [Break(0)], disposes);
    var s3 := Exec(s, lends + [Break(0)] + disposes);
    ProbeStarts(s3, 1);
    run := lends + [Break(0)] + disposes + Times(1, By(1, Probe));
    ExecConcat(s, lends + [Break(0)] + disposes, Times(1, By(1, Probe)));
    assert Exec(s, run).slots == BeforeProbe(n, m, threads).slots;
    assert Exec(s, run).threads == BeforeProbe(n, m, threads).threads;
  }

  /** The numbers from `lo` on below `hi`. */
  function Between(lo: nat, hi: nat): (r: set<nat>)
    ensures lo <= hi ==> |r| == hi - lo
    ensures forall k: nat :: k in r <==> lo <= k < hi
  {
    if lo >= hi then {} else Between(lo, hi - 1) + {hi - 1}
  }

  /** The probe passes every slot but the last, and the first one is opened behind it. */
  lemma ToMidProbe(n: nat, m: nat, threads: nat) returns (run: seq<Event>)
    requires m <= n && n >= 2 && threads >= 2
    ensures Exec(BeforeProbe(n, m, threads), run) == MidProbe(n, m, threads)
    ensures Probing(BeforeProbe(n, m, threads), run, 1) && !Witnessed(BeforeProbe(n, m, threads), run, n - 2)
  {
    hide Step, Skipped, Probing, Witnessed;
    var s := BeforeProbe(n, m, threads);
    var first := ProbeSlot(s, 1, 0, 0);
    var s1 := Exec(s, first);
    var held := ProbeHeld(s1, 1, 1, n - 1, 0);
    ExecConcat(s, first, held);
    ProbingConcat(s, first, held, 1);
    var s2 := Exec(s, first + held);
    FirstIsClosed(s2);
    var creates := AcquireCreates(s2, 0, 0);
    run := first + held + creates;
    ExecConcat(s, first + held, creates);
    ProbingMeanwhile(s2, creates, 1);
    ProbingConcat(s, first + held, creates, 1);
    assert Exec(s, run).slots == MidProbe(n, m, threads).slots;
    assert Exec(s, run).threads == MidProbe(n, m, threads).threads;
    NotWitnessed(s, run, Between(1, n), n - 2);
  }

  lemma FirstIsClosed(s: State)
    requires forall k: nat :: k < |s.slots| ==> if k == 0 then s.slots[k].state == Closed else s.slots[k].holder != Free
    ensures forall k: nat :: k < |s.slots| ==> Skipped(s.slots[k], false)
  {
  }

  /** The last connection is lost and disposed of, and the probe passes its slot. */
  lemma FromMidProbe(n: nat, m: nat, threads: nat) returns (run: seq<Event>)
    requires m <= n && n >= 2 && threads >= 2
    ensures Returns(Exec(MidProbe(n, m, threads), run), 1, n - 2)
    ensures Probing(MidProbe(n, m, threads), run, 1) && !Witnessed(MidProbe(n, m, threads), run, n - 2)
  {
    hide Step, Probing, Witnessed;
    var s := MidProbe(n, m, threads);
    Loses(s, n - 1);
    Single(s, Break(n - 1));
    var s1 := Exec(s, [Break(n - 1)]);
    var disposes := ReleaseLost(s1, 0, n - 1, n - 1);
    ExecConcat(s, [Break(n - 1)], disposes);
    var s2 := Exec(s, [Break(n - 1)] + disposes);
    var last := ProbeSlot(s2, 1, n - 1, n - 2);
    run := [Break(n - 1)] + disposes + last;
    ExecConcat(s, [Break(n - 1)] + disposes, last);
    ProbingMeanwhile(s, [Break(n - 1)] + disposes, 1);
    ProbingConcat(s, [Break(n - 1)] + disposes, last, 1);
    NotWitnessed(s, run, Between(1, n - 1) + {n}, n - 2);
  }

  /** Of two slots or more a legacy probe may charge fewer than are open in any state of its run: it
      passes the first slot closed, that slot is opened, and the last one is closed before the
      probe is there. With two slots it returns 0 although a connection is always open. */
  lemma ProbeMissesOpen(n: nat, m: nat, threads: nat) returns (run: seq<Event>, probe: seq<Event>)
    requires m <= n && n >= 2 && threads >= 2
    ensures ProbeRun(Exec(Init(n, m, threads, false, true), run), probe, 1, n - 2)
    ensures !Witnessed(Exec(Init(n, m, threads, false, true), run), probe, n - 2)
  {
    hide Step, Probing, Witnessed, Returns;
    run := ToBeforeProbe(n, m, threads);
    var s := BeforeProbe(n, m, threads);
    var first := ToMidProbe(n, m, threads);
    var second := FromMidProbe(n, m, threads);
    probe := first + second;
    ExecConcat(s, first, second);
    ProbingConcat(s, first, second, 1);
    NotWitnessedConcat(s, first, second, n - 2);
  }

  /** Every probe of every run charges what is open in some state of it, or more, exactly when the
      provider is strict. With one slot or one thread there is nothing to miss. */
  lemma SnapshotExactly(maxSize: nat, minSize: nat, threads: nat, strict: bool)
    requires minSize <= maxSize && 2 <= maxSize && 2 <= threads
    ensures (forall run, probe, t, charged ::
               ProbeRun(Exec(Init(maxSize, minSize, threads, strict, true), run), probe, t, charged) ==>
               Witnessed(Exec(Init(maxSize, minSize, threads, strict, true), run), probe, charged))
            <==> strict
  {
    hide Step, ProbeRun, Witnessed;
    if strict {
      forall run, probe, t: nat, charged: nat
        | ProbeRun(Exec(Init(maxSize, minSize, threads, true, true), run), probe, t, charged)
        ensures Witnessed(Exec(Init(maxSize, minSize, threads, true, true), run), probe, charged) {
        StrictSnapshot(maxSize, minSize, threads, run, probe, t, charged);
        WitnessedAtEnd(Exec(Init(maxSize, minSize, threads, true, true), run), probe, charged);
      }
    } else {
      var run, probe := ProbeMissesOpen(maxSize, minSize, threads);
    }
  }
}
