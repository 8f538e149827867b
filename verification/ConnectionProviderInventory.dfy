/**
  What the provider promises over whole runs: charged slots bound the open connections,
  leases are exclusive and never come back to life, quarantine is final, and a drain that
  returned has emptied the inventory for good.
*/
module ConnectionProviderInventory {
  import opened ConnectionProvider
  import opened Wrappers
  import opened ConnectionProviderSafety

  /** The connections that are physically open. */
  ghost function OpenConnections(s: State): set<nat> {
    set c: nat | 0 <= c < s.created && c !in s.closed
  }

  /** `_slot_charged`. */
  predicate Charged(slot: Slot) { slot.holder != Free || !Settled(slot) }

  /** The slots that are charged at one moment. */
  function ChargedSlots(s: State): set<nat> {
    set i: nat | i < |s.slots| && Charged(s.slots[i])
  }

  /** The slot an open connection sits in. */
  ghost function SlotOf(s: State, c: nat): (i: nat)
    requires Inv(s) && c < s.created && c !in s.closed
    ensures i < |s.slots| && s.slots[i].conn == Some(c)
  {
    assert InSlot(s, c);
    var i :| 0 <= i < |s.slots| && s.slots[i].conn == Some(c);
    i
  }

  /** A set that a map sends one to one into `range` is no larger than `range`. */
  lemma {:induction false} SmallerDomain(keys: set<nat>, home: map<nat, nat>, range: set<nat>)
    requires keys <= home.Keys
    requires forall k :: k in keys ==> home[k] in range
    requires forall k, l :: k in keys && l in keys && home[k] == home[l] ==> k == l
    ensures |keys| <= |range|
    decreases keys
  {
    if keys != {} {
      var k :| k in keys;
      SmallerDomain(keys - {k}, home, range - {home[k]});
    }
  }

  lemma {:induction false} BelowCount(n: nat, below: set<nat>)
    requires forall i :: i in below ==> i < n
    ensures |below| <= n
  {
    if n == 0 {
      assert below == {};
    } else {
      BelowCount(n - 1, below - {n - 1});
    }
  }

  /** Every run from a constructed provider keeps the invariant and the number of slots. */
  lemma Reachable(maxSize: nat, minSize: nat, threads: nat, strict: bool, probes: bool, run: seq<Event>)
    requires minSize <= maxSize
    ensures var s := Exec(Init(maxSize, minSize, threads, strict, probes), run);
            Inv(s) && |s.slots| == maxSize && |s.threads| == threads
  {
    InitSafe(maxSize, minSize, threads, strict, probes);
    RunSafe(Init(maxSize, minSize, threads, strict, probes), run);
  }

  /** Open connections <= charged slots <= maximum size, in every state a run can reach. */
  lemma OpenWithinCharged(maxSize: nat, minSize: nat, threads: nat, strict: bool, probes: bool, run: seq<Event>)
    requires minSize <= maxSize
    ensures var s := Exec(Init(maxSize, minSize, threads, strict, probes), run);
            |OpenConnections(s)| <= |ChargedSlots(s)| <= maxSize
  {
    Reachable(maxSize, minSize, threads, strict, probes, run);
    var s := Exec(Init(maxSize, minSize, threads, strict, probes), run);
    var home := map c: nat | c in OpenConnections(s) :: SlotOf(s, c);
    forall c, d | c in home && d in home && home[c] == home[d] ensures c == d {
      assert s.slots[home[c]].conn == Some(c) && s.slots[home[d]].conn == Some(d);
    }
    forall c | c in home ensures home[c] in ChargedSlots(s) {
      assert SlotOk(s, home[c]);
    }
    SmallerDomain(OpenConnections(s), home, ChargedSlots(s));
    BelowCount(maxSize, ChargedSlots(s));
  }

  /** A caller that may use slot `i`: a legacy lease, or a strict lease that still validates. */
  ghost predicate LeaseOn(s: State, i: nat, legacy: bool, id: nat) {
    if legacy then id in s.legacy && s.legacy[id] == i
    else LeaseValid(s, id) && s.leases[id].slot == i
  }

  lemma LeaseHolds(s: State, i: nat, legacy: bool, id: nat)
    requires Inv(s) && i < |s.slots|
    ensures LeaseOn(s, i, legacy, id) ==>
      if legacy then s.slots[i].holder == ByLegacyLease && s.slots[i].conn == Some(id)
      else s.slots[i].holder == ByStrictLease(id)
  {
    if LeaseOn(s, i, legacy, id) {
      if legacy { assert LegacyOk(s, id); } else { assert LeaseOk(s, id); }
    }
  }

  /** In every reachable state no slot has two leases and no thread works on a leased slot;
      a slot nobody has locked is empty, idle, closed or quarantined. */
  lemma LeasesExclusive(maxSize: nat, minSize: nat, threads: nat, strict: bool, probes: bool, run: seq<Event>,
                        i: nat, legacy1: bool, id1: nat, legacy2: bool, id2: nat, t: nat)
    requires minSize <= maxSize && i < maxSize && t < threads
    ensures var s := Exec(Init(maxSize, minSize, threads, strict, probes), run);
            && |s.slots| == maxSize && |s.threads| == threads
            && (LeaseOn(s, i, legacy1, id1) && LeaseOn(s, i, legacy2, id2) ==> legacy1 == legacy2 && id1 == id2)
            && (LeaseOn(s, i, legacy1, id1) ==>
                  s.slots[i].state == Acquired && s.slots[i].conn.Some? && Held(s.threads[t]) != Some(i))
            && (s.slots[i].holder == Free ==> s.slots[i].state in {Empty, Idle, Closed, Quarantined})
  {
    Reachable(maxSize, minSize, threads, strict, probes, run);
    var s := Exec(Init(maxSize, minSize, threads, strict, probes), run);
    assert SlotOk(s, i);
    assert ThreadOk(s, t);
    LeaseHolds(s, i, legacy1, id1);
    LeaseHolds(s, i, legacy2, id2);
  }

  /** A strict lease that has been issued and no longer validates never validates again, and a
      quarantined slot never leaves quarantine, whatever runs afterwards. */
  lemma NeverRevived(maxSize: nat, minSize: nat, threads: nat, strict: bool, probes: bool,
                     run: seq<Event>, more: seq<Event>, l: nat, i: nat)
    requires minSize <= maxSize && i < maxSize
    ensures var s := Exec(Init(maxSize, minSize, threads, strict, probes), run);
            var s' := Exec(s, more);
            && (l < |s.leases| && !LeaseValid(s, l) ==> !LeaseValid(s', l))
            && |s.slots| == |s'.slots| == maxSize
            && (s.slots[i].state == Quarantined ==> s'.slots[i].state == Quarantined)
  {
    Reachable(maxSize, minSize, threads, strict, probes, run);
    var s := Exec(Init(maxSize, minSize, threads, strict, probes), run);
    RunSafe(s, more);
    assert l < |s.leases| ==> LeaseOk(s, l);
  }

  /** The barrier: once a close has passed it, no slot is reserved again and a slot that is
      closed or empty stays so, in every continuation of every run. */
  lemma NothingReservedAfterBarrier(maxSize: nat, minSize: nat, threads: nat, strict: bool, probes: bool,
                                    run: seq<Event>, more: seq<Event>, i: nat)
    requires minSize <= maxSize && i < maxSize
    ensures var s := Exec(Init(maxSize, minSize, threads, strict, probes), run);
            var s' := Exec(s, more);
            && |s.slots| == |s'.slots| == maxSize
            && (s.sealed ==> s'.slots[i].generation == s.slots[i].generation)
            && (s.sealed && s.slots[i].state in {Closed, Empty} ==> s'.slots[i].state in {Closed, Empty})
  {
    Reachable(maxSize, minSize, threads, strict, probes, run);
    RunSafe(Exec(Init(maxSize, minSize, threads, strict, probes), run), more);
  }

  /** When a close with a deadline returns normally, every slot is closed or empty, no connection
      is open and nobody holds a lease, then and in every continuation of the run. */
  lemma DrainedForever(maxSize: nat, minSize: nat, threads: nat, strict: bool, probes: bool,
                       run: seq<Event>, more: seq<Event>)
    requires minSize <= maxSize
    requires Exec(Init(maxSize, minSize, threads, strict, probes), run).drained
    ensures var s := Exec(Exec(Init(maxSize, minSize, threads, strict, probes), run), more);
            && |s.slots| == maxSize
            && (forall i: nat :: i < maxSize ==> s.slots[i].state == Closed || s.slots[i].state == Empty)
            && OpenConnections(s) == {}
            && s.legacy == map[] && (forall l: nat :: !LeaseValid(s, l))
  {
    Reachable(maxSize, minSize, threads, strict, probes, run);
    var s0 := Exec(Init(maxSize, minSize, threads, strict, probes), run);
    RunSafe(s0, more);
    var s := Exec(s0, more);
    forall i: nat | i < maxSize ensures s.slots[i].state == Closed || s.slots[i].state == Empty {
      assert Settled(s0.slots[i]);
    }
    forall c: nat ensures !(c < s.created && c !in s.closed) {
      OpenUnsettled(s, c);
    }
    forall i: nat, legacy: bool, id: nat ensures i < maxSize ==> !LeaseOn(s, i, legacy, id) {
      LeaseUnsettled(s, i, legacy, id);
    }
    forall c: nat | c in s.legacy ensures LeaseOn(s, s.legacy[c], true, c) && s.legacy[c] < maxSize {
      assert LegacyOk(s, c);
    }
    forall l: nat ensures !LeaseValid(s, l) {
      assert LeaseValid(s, l) ==> LeaseOn(s, s.leases[l].slot, false, l);
    }
  }

  lemma OpenUnsettled(s: State, c: nat)
    requires Inv(s)
    ensures c < s.created && c !in s.closed ==> exists i: nat :: i < |s.slots| && !Settled(s.slots[i])
  {
    if c < s.created && c !in s.closed {
      assert SlotOk(s, SlotOf(s, c));
    }
  }

  lemma LeaseUnsettled(s: State, i: nat, legacy: bool, id: nat)
    requires Inv(s)
    ensures i < |s.slots| && LeaseOn(s, i, legacy, id) ==> !Settled(s.slots[i])
  {
    if i < |s.slots| {
      assert SlotOk(s, i);
      LeaseHolds(s, i, legacy, id);
    }
  }
}
