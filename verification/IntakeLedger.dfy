/**
  Accepting an intake exactly once per tenant and idempotency key: the in-memory ledger of
  src/app/idea_evidence_intake/service.py as a class, and any number of racing callers of
  src/app/idea_evidence_intake/postgres_ledger.py as a transition system over one table with
  a unique key.
*/
module IntakeLedger {
  import opened Wrappers

  datatype Identity = Identity(tenant: string, key: string)

  /** The response is the one built for the request that was stored. */
  datatype Record = Record(fingerprint: string, response: string)

  datatype Request = Request(id: Identity, fingerprint: string, response: string)

  datatype Outcome = Accepted(response: string) | Conflict | Failed

  type Table = map<Identity, Record>

  /** The accepted meaning of a request against a table, in one step. */
  function Answer(record: Record, fingerprint: string): Outcome {
    if record.fingerprint == fingerprint then Accepted(record.response) else Conflict
  }

  function AcceptSpec(table: Table, r: Request): (result: (Table, Outcome))
    ensures r.id in result.0 && result.1 == Answer(result.0[r.id], r.fingerprint)
    ensures forall id :: id in table ==> id in result.0 && result.0[id] == table[id]
    ensures forall id :: id in result.0 && id !in table ==> id == r.id
  {
    if r.id in table then (table, Answer(table[r.id], r.fingerprint))
    else (table[r.id := Record(r.fingerprint, r.response)], Accepted(r.response))
  }

  // -------------------------------------------------------- the in-memory ledger

  class Ledger {
    var recordsByKey: Table

    constructor ()
      ensures recordsByKey == map[]
    {
      recordsByKey := map[];
    }

    method GetRecord(id: Identity) returns (record: Option<Record>)
      ensures record == if id in recordsByKey then Some(recordsByKey[id]) else None
    {
      if id in recordsByKey { record := Some(recordsByKey[id]); } else { record := None; }
    }

    method StoreRecord(id: Identity, record: Record)
      modifies this
      ensures recordsByKey == old(recordsByKey)[id := record]
    {
      recordsByKey := recordsByKey[id := record];
    }

    method Accept(r: Request) returns (outcome: Outcome)
      modifies this
      ensures (recordsByKey, outcome) == AcceptSpec(old(recordsByKey), r)
    {
      var existing := GetRecord(r.id);
      if existing.Some? {
        if existing.value.fingerprint != r.fingerprint { return Conflict; }
        return Accepted(existing.value.response);
      }
      var record := Record(r.fingerprint, r.response);
      StoreRecord(r.id, record);
      return Accepted(record.response);
    }
  }

  // -------------------------------------------------------------- racing callers

  /** Read, insert under the unique key, and read again when the insert lost a race. */
  datatype Pc = Reading | Inserting | Rereading | Done(outcome: Outcome)

  datatype Caller = Caller(request: Request, pc: Pc)

  datatype State = State(table: Table, callers: seq<Caller>)

  /** A connection may be lost before a statement takes effect or after. */
  datatype Fault = NoFault | LostBefore | LostAfter

  datatype Event = Event(caller: nat, fault: Fault)

  function Move(s: State, i: nat, pc: Pc): State
    requires i < |s.callers|
  {
    s.(callers := s.callers[i := s.callers[i].(pc := pc)])
  }

  function Step(s: State, e: Event): State {
    if e.caller >= |s.callers| then s else
    var r := s.callers[e.caller].request;
    match s.callers[e.caller].pc
    case Reading =>
      if e.fault != NoFault then Move(s, e.caller, Done(Failed))
      else if r.id !in s.table then Move(s, e.caller, Inserting)
      else if s.table[r.id].fingerprint != r.fingerprint then Move(s, e.caller, Done(Conflict))
      else Move(s, e.caller, Done(Accepted(s.table[r.id].response)))
    case Inserting =>
      if e.fault == LostBefore then Move(s, e.caller, Done(Failed))
      else if r.id in s.table then Move(s, e.caller, if e.fault == NoFault then Rereading else Done(Failed))
      else
        Move(s, e.caller, Done(if e.fault == NoFault then Accepted(r.response) else Failed))
          .(table := s.table[r.id := Record(r.fingerprint, r.response)])
    case Rereading =>
      if e.fault != NoFault then Move(s, e.caller, Done(Failed))
      else if r.id in s.table && s.table[r.id].fingerprint == r.fingerprint then
        Move(s, e.caller, Done(Accepted(s.table[r.id].response)))
      else Move(s, e.caller, Done(Conflict))
    case Done(_) => s
  }

  function Exec(s: State, run: seq<Event>): State
    decreases |run|
  {
    if run == [] then s else Exec(Step(s, run[0]), run[1..])
  }

  // ----------------------------------------------------------------- what is kept

  ghost predicate CallerOk(table: Table, c: Caller) {
    match c.pc
    case Rereading => c.request.id in table
    case Done(Failed) => true
    case Done(outcome) => c.request.id in table && outcome == Answer(table[c.request.id], c.request.fingerprint)
    case _ => true
  }

  ghost predicate Inv(s: State) {
    forall i :: 0 <= i < |s.callers| ==> CallerOk(s.table, s.callers[i])
  }

  /** Records stay as they are; a new one is some caller's own. */
  ghost predicate Grows(s: State, s': State) {
    && |s.callers| == |s'.callers|
    && (forall i :: 0 <= i < |s.callers| ==> s'.callers[i].request == s.callers[i].request)
    && (forall i :: 0 <= i < |s.callers| && s.callers[i].pc.Done? ==> s'.callers[i] == s.callers[i])
    && (forall id :: id in s.table ==> id in s'.table && s'.table[id] == s.table[id])
    && (forall id :: id in s'.table && id !in s.table ==> Stored(s, id, s'.table[id]))
  }

  ghost predicate Stored(s: State, id: Identity, record: Record) {
    exists i :: 0 <= i < |s.callers| && s.callers[i].request == Request(id, record.fingerprint, record.response)
  }

  lemma StepKeeps(s: State, e: Event)
    requires Inv(s)
    ensures Inv(Step(s, e)) && Grows(s, Step(s, e))
  {
    var s' := Step(s, e);
    if e.caller < |s.callers| {
      var r := s.callers[e.caller].request;
      assert CallerOk(s.table, s.callers[e.caller]);
      forall id | id in s'.table && id !in s.table ensures Stored(s, id, s'.table[id]) {
        assert s.callers[e.caller].request == Request(id, s'.table[id].fingerprint, s'.table[id].response);
      }
      forall i | 0 <= i < |s'.callers| ensures CallerOk(s'.table, s'.callers[i]) {
        assert CallerOk(s.table, s.callers[i]);
      }
    }
  }

  lemma StoredBefore(a: State, b: State, id: Identity, record: Record)
    requires Grows(a, b) && Stored(b, id, record)
    ensures Stored(a, id, record)
  {
    var i :| 0 <= i < |b.callers| && b.callers[i].request == Request(id, record.fingerprint, record.response);
    assert a.callers[i].request == b.callers[i].request;
  }

  /** In every run a stored record never changes, and a record that appears is exactly what
      some caller asked for under that identity: other identities are unaffected. */
  lemma {:induction false} RunKeeps(s: State, run: seq<Event>)
    requires Inv(s)
    ensures Inv(Exec(s, run)) && Grows(s, Exec(s, run))
    decreases |run|
  {
    if run != [] {
      var s1 := Step(s, run[0]);
      var s2 := Exec(s, run);
      StepKeeps(s, run[0]);
      RunKeeps(s1, run[1..]);
      forall id | id in s2.table && id !in s.table ensures Stored(s, id, s2.table[id]) {
        if id !in s1.table { StoredBefore(s, s1, id, s2.table[id]); }
      }
    }
  }

  /** Callers that have just arrived at a table. */
  ghost predicate Fresh(s: State) {
    forall i :: 0 <= i < |s.callers| ==> s.callers[i].pc == Reading
  }

  /** However the callers race: two that got an answer for one identity agree. If both carry the
      stored fingerprint they hold the same response; a caller with another fingerprint conflicts. */
  lemma RacingCallersAgree(s: State, run: seq<Event>, i: nat, j: nat)
    requires Fresh(s) && i < |s.callers| && j < |s.callers| && s.callers[i].request.id == s.callers[j].request.id
    ensures var s' := Exec(s, run);
            var a, b := s.callers[i].request.fingerprint, s.callers[j].request.fingerprint;
            && |s'.callers| == |s.callers|
            && (s'.callers[i].pc.Done? && s'.callers[j].pc.Done?
                && s'.callers[i].pc.outcome != Failed && s'.callers[j].pc.outcome != Failed ==>
                 && (a == b ==> s'.callers[i].pc == s'.callers[j].pc)
                 && (s'.callers[i].pc.outcome.Accepted? && s'.callers[j].pc.outcome.Accepted? ==> a == b)
                 && (s'.callers[i].pc.outcome.Accepted? && a != b ==> s'.callers[j].pc.outcome == Conflict))
  {
    RunKeeps(s, run);
    var s' := Exec(s, run);
    assert CallerOk(s'.table, s'.callers[i]) && CallerOk(s'.table, s'.callers[j]);
  }

  /** An answer stands: it is the answer the table gives, then and after anything that follows. */
  lemma AnswersStand(s: State, run: seq<Event>, more: seq<Event>, i: nat)
    requires Fresh(s) && i < |s.callers|
    ensures var s' := Exec(s, run);
            var s'' := Exec(s', more);
            var r := s.callers[i].request;
            && |s'.callers| == |s''.callers| == |s.callers|
            && (s'.callers[i].pc.Done? && s'.callers[i].pc.outcome != Failed ==>
                 && r.id in s'.table && r.id in s''.table && s''.table[r.id] == s'.table[r.id]
                 && s'.callers[i].pc.outcome == Answer(s''.table[r.id], r.fingerprint))
  {
    RunKeeps(s, run);
    RunKeeps(Exec(s, run), more);
    var s' := Exec(s, run);
    assert CallerOk(s'.table, s'.callers[i]);
  }

  /** A lost connection fails its caller; of the statements only an insert of a new identity stands, if
      the connection was lost after it. */
  lemma LostConnection(s: State, e: Event)
    requires e.caller < |s.callers| && !s.callers[e.caller].pc.Done? && e.fault != NoFault
    ensures var c := s.callers[e.caller];
            Step(s, e).callers == s.callers[e.caller := Caller(c.request, Done(Failed))]
            && Step(s, e).table
               == if c.pc == Inserting && e.fault == LostAfter && c.request.id !in s.table
                  then s.table[c.request.id := Record(c.request.fingerprint, c.request.response)] else s.table
  {
  }

  /** The steps a caller takes in a run. */
  function Taken(run: seq<Event>, i: nat): nat {
    if run == [] then 0 else (if run[0].caller == i then 1 else 0) + Taken(run[1..], i)
  }

  /** The statements a caller has left at most. */
  function Remaining(pc: Pc): nat {
    match pc case Reading => 3 case Inserting => 2 case Rereading => 1 case Done(_) => 0
  }

  /** Whatever the others do, a caller that loses no connection is answered after three steps. */
  lemma {:induction false} AnsweredInThree(s: State, run: seq<Event>, i: nat)
    requires i < |s.callers| && s.callers[i].pc != Done(Failed)
    requires forall k :: 0 <= k < |run| && run[k].caller == i ==> run[k].fault == NoFault
    ensures |Exec(s, run).callers| == |s.callers|
    ensures Exec(s, run).callers[i].pc != Done(Failed)
    ensures Taken(run, i) >= Remaining(s.callers[i].pc) ==> Exec(s, run).callers[i].pc.Done?
    decreases |run|
  {
    if run != [] {
      var s1 := Step(s, run[0]);
      assert s1.callers[i].pc != Done(Failed);
      assert run[0].caller == i ==>
        s.callers[i].pc.Done? || Remaining(s1.callers[i].pc) <= Remaining(s.callers[i].pc) - 1;
      AnsweredInThree(s1, run[1..], i);
    }
  }

  // -------------------------------------------------------------- linearizability

  /** The requests in the order in which they take effect or get their answer. */
  function Log(s: State, run: seq<Event>): seq<nat>
    decreases |run|
  {
    if run == [] then []
    else (if TakesEffect(s, run[0]) then [run[0].caller] else []) + Log(Step(s, run[0]), run[1..])
  }

  /** A step that answers its caller, or stores a record and loses the connection. */
  predicate TakesEffect(s: State, e: Event) {
    && e.caller < |s.callers| && !s.callers[e.caller].pc.Done? && Step(s, e).callers[e.caller].pc.Done?
    && (Step(s, e).callers[e.caller].pc.outcome != Failed || Step(s, e).table != s.table)
  }

  function Requests(s: State, log: seq<nat>): seq<Request>
    requires forall i :: 0 <= i < |log| ==> log[i] < |s.callers|
  {
    seq(|log|, i requires 0 <= i < |log| => s.callers[log[i]].request)
  }

  /** One request after another, each in one step. */
  function Replay(table: Table, requests: seq<Request>): (Table, seq<Outcome>)
    decreases |requests|
  {
    if requests == [] then (table, []) else
    var (table1, outcome) := AcceptSpec(table, requests[0]);
    var (table2, outcomes) := Replay(table1, requests[1..]);
    (table2, [outcome] + outcomes)
  }

  /** A step that takes effect does exactly what the one-step acceptance does. */
  lemma EffectIsAccept(s: State, e: Event)
    requires Inv(s) && TakesEffect(s, e)
    ensures var s' := Step(s, e);
            var (table, outcome) := AcceptSpec(s.table, s.callers[e.caller].request);
            && s'.table == table
            && (s'.callers[e.caller].pc == Done(outcome) || s'.callers[e.caller].pc == Done(Failed))
  {
    assert CallerOk(s.table, s.callers[e.caller]);
  }

  /** Any other step leaves the table alone and answers nobody. */
  lemma NoEffect(s: State, e: Event, i: nat)
    requires Inv(s) && !TakesEffect(s, e)
    ensures Step(s, e).table == s.table && |Step(s, e).callers| == |s.callers|
    ensures i < |s.callers| && !s.callers[i].pc.Done? && Step(s, e).callers[i].pc.Done?
            ==> Step(s, e).callers[i].pc == Done(Failed)
  {
  }

  lemma EffectOfOne(s: State, e: Event, i: nat)
    requires Inv(s) && TakesEffect(s, e)
    ensures |Step(s, e).callers| == |s.callers| && e.caller < |s.callers|
    ensures !s.callers[e.caller].pc.Done? && Step(s, e).callers[e.caller].pc.Done?
    ensures i < |s.callers| && i != e.caller ==> Step(s, e).callers[i] == s.callers[i]
  {
  }

  predicate Distinct(log: seq<nat>) {
    forall k, l :: 0 <= k < l < |log| ==> log[k] != log[l]
  }

  /** Each caller takes effect at most once. */
  lemma {:induction false} LogOnce(s: State, run: seq<Event>)
    requires Inv(s)
    ensures Distinct(Log(s, run))
    ensures forall i :: i in Log(s, run) ==> i < |s.callers| && !s.callers[i].pc.Done?
    decreases |run|
  {
    hide Step, TakesEffect, CallerOk;
    if run != [] {
      var e := run[0];
      var s1 := Step(s, e);
      StepKeeps(s, e);
      LogOnce(s1, run[1..]);
      var rest := Log(s1, run[1..]);
      if TakesEffect(s, e) {
        EffectOfOne(s, e, 0);
        assert e.caller !in rest;
        assert Log(s, run) == [e.caller] + rest;
      } else {
        assert Log(s, run) == rest;
      }
    }
  }

  /** The requests in `log`, one after another, lead from `s` to the table of `s'` and to every
      answer that its callers have been given. */
  ghost predicate Explains(log: seq<nat>, s: State, s': State) {
    && |s'.callers| == |s.callers|
    && (forall k :: 0 <= k < |log| ==> log[k] < |s.callers|)
    && var (table, outcomes) := Replay(s.table, Requests(s, log));
       && s'.table == table && |outcomes| == |log|
       && (forall k :: 0 <= k < |log| ==>
             s'.callers[log[k]].pc == Done(outcomes[k]) || s'.callers[log[k]].pc == Done(Failed))
  }

  lemma ReplayMore(table: Table, requests: seq<Request>)
    requires requests != []
    ensures var (next, outcome) := AcceptSpec(table, requests[0]);
            Replay(table, requests) == (Replay(next, requests[1..]).0, [outcome] + Replay(next, requests[1..]).1)
  {
    hide AcceptSpec;
  }

  lemma ExplainsMore(s: State, s1: State, s': State, i: nat, rest: seq<nat>)
    requires Explains(rest, s1, s') && Grows(s, s1) && Grows(s1, s') && i < |s.callers|
    requires var (table, outcome) := AcceptSpec(s.table, s.callers[i].request);
             s1.table == table && (s1.callers[i].pc == Done(outcome) || s1.callers[i].pc == Done(Failed))
    ensures Explains([i] + rest, s, s')
  {
    hide AcceptSpec, Replay;
    var log, requests := [i] + rest, Requests(s, [i] + rest);
    assert Requests(s1, rest) == Requests(s, rest);
    assert requests[0] == s.callers[i].request && requests[1..] == Requests(s, rest);
    assert s'.callers[i] == s1.callers[i];
    ReplayMore(s.table, requests);
    var outcomes := Replay(s.table, requests).1;
    forall k | 0 <= k < |log|
      ensures s'.callers[log[k]].pc == Done(outcomes[k]) || s'.callers[log[k]].pc == Done(Failed) {
      if k > 0 { assert log[k] == rest[k - 1] && outcomes[k] == Replay(s1.table, Requests(s1, rest)).1[k - 1]; }
    }
  }

  /** Every run is equivalent to accepting the requests one after another, in the order in which
      they completed: the same table, and every answer that was given is the answer given there. */
  lemma {:induction false} Linearizable(s: State, run: seq<Event>)
    requires Inv(s)
    ensures Explains(Log(s, run), s, Exec(s, run))
    decreases |run|
  {
    hide Step, TakesEffect, CallerOk, AcceptSpec, Explains;
    if run == [] {
      ExplainsNothing(s);
    } else {
      var e := run[0];
      var s1 := Step(s, e);
      var s' := Exec(s, run);
      var rest := Log(s1, run[1..]);
      StepKeeps(s, e);
      RunKeeps(s1, run[1..]);
      Linearizable(s1, run[1..]);
      if TakesEffect(s, e) {
        EffectIsAccept(s, e);
        EffectOfOne(s, e, 0);
        ExplainsMore(s, s1, s', e.caller, rest);
        assert Log(s, run) == [e.caller] + rest;
      } else {
        NoEffect(s, e, 0);
        ExplainsSame(s, s1, s', rest);
        assert Log(s, run) == rest;
      }
    }
  }

  lemma ExplainsNothing(s: State)
    ensures Explains([], s, s)
  {
    assert Requests(s, []) == [];
  }

  lemma ExplainsSame(s: State, s1: State, s': State, log: seq<nat>)
    requires Explains(log, s1, s') && Grows(s, s1) && s1.table == s.table
    ensures Explains(log, s, s')
  {
    assert Requests(s1, log) == Requests(s, log);
  }

  /** Whoever got an answer is in the log, so the sequential order explains every answer. */
  lemma {:induction false} AnsweredIsLogged(s: State, run: seq<Event>, i: nat)
    requires Inv(s) && i < |s.callers| && !s.callers[i].pc.Done?
    ensures |Exec(s, run).callers| == |s.callers|
    ensures Exec(s, run).callers[i].pc.Done? && Exec(s, run).callers[i].pc.outcome != Failed ==> i in Log(s, run)
    decreases |run|
  {
    hide Step, TakesEffect, CallerOk;
    RunKeeps(s, run);
    if run != [] {
      var e := run[0];
      var s1 := Step(s, e);
      StepKeeps(s, e);
      RunKeeps(s1, run[1..]);
      if !s1.callers[i].pc.Done? {
        AnsweredIsLogged(s1, run[1..], i);
      } else if TakesEffect(s, e) {
        EffectOfOne(s, e, i);
      } else {
        NoEffect(s, e, i);
      }
    }
  }

  lemma TwoSteps(s: State, e: Event)
    ensures Exec(s, [e, e]) == Step(Step(s, e), e)
  {
    hide Step;
    assert [e, e][1..] == [e] && [e][1..] == [];
    assert Exec(Step(s, e), [e]) == Exec(Step(Step(s, e), e), []);
  }

  /** A caller that nobody races and no connection fails is answered by the one-step acceptance. */
  lemma AloneIsAccept(s: State, i: nat)
    requires i < |s.callers| && s.callers[i].pc == Reading
    ensures var (table, outcome) := AcceptSpec(s.table, s.callers[i].request);
            Exec(s, [Event(i, NoFault), Event(i, NoFault)])
            == State(table, s.callers[i := s.callers[i].(pc := Done(outcome))])
  {
    var e := Event(i, NoFault);
    var s1 := Step(s, e);
    TwoSteps(s, e);
    if s.callers[i].request.id !in s.table {
      assert s1.callers[i := s.callers[i].(pc := Done(Accepted(s.callers[i].request.response)))]
             == s.callers[i := s.callers[i].(pc := Done(Accepted(s.callers[i].request.response)))];
    }
  }
}
