/**
  The population of an evaluated and published month: `_require_population`,
  `_require_history_intervals` and `_require_published_population` of
  src/app/composite_reporting/eligibility_admission.py.
*/
module Population {
  import opened Wrappers
  import opened Sorting
  import opened Calendar

  datatype Status = Included | Excluded | PendingReview

  /** An evaluated portfolio. */
  datatype Portfolio = Portfolio(id: string, status: Status, present: bool, rules: seq<string>)

  /** An observation row; `body` is everything beside the portfolio. */
  datatype Observation = Observation(id: string, body: string)

  datatype Counts = Counts(expected: int, observed: int, included: int, excluded: int, pending: int)

  datatype Proposal = Proposal(
    portfolios: seq<Portfolio>, counts: Counts, expected: seq<string>,
    observationsExpected: seq<string>, observations: seq<Observation>)

  // ------------------------------------------------------------------- the population

  function Ids(portfolios: seq<Portfolio>): seq<string> {
    seq(|portfolios|, i requires 0 <= i < |portfolios| => portfolios[i].id)
  }

  function Observed(observations: seq<Observation>): set<string> {
    set o | o in observations :: o.id
  }

  /** `Counter(...)[status]`. */
  function CountStatus(portfolios: seq<Portfolio>, status: Status): nat {
    if portfolios == [] then 0
    else CountStatus(portfolios[..|portfolios| - 1], status) + if portfolios[|portfolios| - 1].status
      == status then 1 else 0
  }

  function CountPresent(portfolios: seq<Portfolio>): nat {
    if portfolios == [] then 0
    else CountPresent(portfolios[..|portfolios| - 1]) + if portfolios[|portfolios| - 1].present then 1 else 0
  }

  function Counted(portfolios: seq<Portfolio>): Counts {
    Counts(|portfolios|, CountPresent(portfolios), CountStatus(portfolios, Included),
           CountStatus(portfolios, Excluded), CountStatus(portfolios, PendingReview))
  }

  /** Rows for one portfolio are all the same row. */
  predicate Consistent(observations: seq<Observation>) {
    forall i, j :: 0 <= i < j < |observations| && observations[i].id == observations[j].id ==>
      observations[i] == observations[j]
  }

  const RULES: seq<string> := ["SIGNIFICANT_FLOW", "CASH", "READINESS"]

  predicate PopulationAccepted(p: Proposal) {
    var ids := Ids(p.portfolios);
    && Consistent(p.observations)
    && (forall id :: id in Observed(p.observations) ==> id in p.expected)
    && PresentRight(p)
    && Ascending(ids) && ids == p.expected && ids == p.observationsExpected
    && p.counts == Counted(p.portfolios)
    && RulesRight(p)
  }

  /** The loop of `_require_population` that files the rows by portfolio. */
  method FileObservations(observations: seq<Observation>) returns (ok: bool)
    ensures ok <==> Consistent(observations)
  {
    var byId: map<string, Observation> := map[];
    for i := 0 to |observations|
      invariant forall k :: 0 <= k < i ==> observations[k].id in byId && byId[observations[k].id] == observations[k]
      invariant forall id :: id in byId ==> exists k :: 0 <= k < i && observations[k].id == id
    {
      var row := observations[i];
      if row.id in byId && byId[row.id] != row { return false; }
      byId := byId[row.id := row];
    }
    return true;
  }

  predicate PresentRight(p: Proposal) {
    forall i :: 0 <= i < |p.portfolios| ==> p.portfolios[i].present == (p.portfolios[i].id in Observed(p.observations))
  }

  predicate RulesRight(p: Proposal) {
    forall i :: 0 <= i < |p.portfolios| ==> p.portfolios[i].rules == RULES
  }

  /** The reason for a refusal: the first of the checks that fails. */
  predicate RefusedFor(p: Proposal, reason: string) {
    var ids := Ids(p.portfolios);
    if !Consistent(p.observations) then reason == "OBSERVATION_DUPLICATE_CONFLICT"
    else if !(forall id :: id in Observed(p.observations) ==> id in p.expected) || !PresentRight(p) then
      reason == "OBSERVATION_POPULATION_CONFLICT"
    else if !(Ascending(ids) && ids == p.expected && ids == p.observationsExpected) then
      reason == "POPULATION_CONFLICT"
    else if p.counts != Counted(p.portfolios) then reason == "POPULATION_COUNT_CONFLICT"
    else reason == "ASSESSMENT_SET_CONFLICT" && !RulesRight(p)
  }

  /** `_require_population`. */
  method RequirePopulation(p: Proposal) returns (refusal: Option<string>)
    ensures refusal == None <==> PopulationAccepted(p)
    ensures refusal.Some? ==> RefusedFor(p, refusal.value)
  {
    hide Sorted, Ascending, Consistent, PresentRight, Deduplicated, Counted;
    var ids := Ids(p.portfolios);
    var ok := FileObservations(p.observations);
    if !ok { return Some("OBSERVATION_DUPLICATE_CONFLICT"); }
    if !(forall id :: id in Observed(p.observations) ==> id in p.expected) || !PresentRight(p) {
      return Some("OBSERVATION_POPULATION_CONFLICT");
    }
    AscendingIsSortedSet(ids);
    if ids != Sorted(Deduplicated(ids)) || ids != p.expected || ids != p.observationsExpected {
      return Some("POPULATION_CONFLICT");
    }
    if p.counts != Counted(p.portfolios) { return Some("POPULATION_COUNT_CONFLICT"); }
    for i := 0 to |p.portfolios|
      invariant forall k :: 0 <= k < i ==> p.portfolios[k].rules == RULES
    {
      if p.portfolios[i].rules != RULES { return Some("ASSESSMENT_SET_CONFLICT"); }
    }
    return None;
  }

  /** The elements of `set(s)`, each once. */
  function Deduplicated(s: seq<string>): (r: seq<string>)
    ensures Distinct(r) && forall x :: x in r <==> x in s
  {
    if s == [] then []
    else
      var rest := Deduplicated(s[1..]);
      assert s == [s[0]] + s[1..];
      if s[0] in rest then rest else [s[0]] + rest
  }

  /** `ids == sorted(set(ids))` says that the ids are in strictly ascending order. */
  lemma AscendingIsSortedSet(ids: seq<string>)
    ensures ids == Sorted(Deduplicated(ids)) <==> Ascending(ids)
  {
    SortedAscending(Deduplicated(ids));
    if Ascending(ids) { AscendingUnique(ids, Sorted(Deduplicated(ids))); }
  }

  lemma {:induction false} StatusesSum(portfolios: seq<Portfolio>)
    ensures CountStatus(portfolios, Included) + CountStatus(portfolios, Excluded) + CountStatus(portfolios,
        PendingReview)
            == |portfolios|
  {
    if portfolios != [] { StatusesSum(portfolios[..|portfolios| - 1]); }
  }

  /** The last portfolio is none of those before it. */
  lemma LastIsNew(portfolios: seq<Portfolio>)
    requires portfolios != [] && Distinct(Ids(portfolios))
    ensures var front := portfolios[..|portfolios| - 1];
            Distinct(Ids(front)) && forall p :: p in front ==> p.id != portfolios[|portfolios| - 1].id
  {
    var n := |portfolios| - 1;
    var ids := Ids(portfolios);
    assert Ids(portfolios[..n]) == ids[..n];
    forall i | 0 <= i < n ensures portfolios[i].id != portfolios[n].id { assert ids[i] != ids[n]; }
  }

  lemma {:induction false} PresentSet(portfolios: seq<Portfolio>)
    requires Distinct(Ids(portfolios))
    ensures CountPresent(portfolios) == |set p | p in portfolios && p.present :: p.id|
  {
    hide Distinct, Ids;
    if portfolios == [] {
      assert (set p | p in portfolios && p.present :: p.id) == {};
    } else {
      var front, last := portfolios[..|portfolios| - 1], portfolios[|portfolios| - 1];
      LastIsNew(portfolios);
      PresentSet(front);
      var before := set p | p in front && p.present :: p.id;
      var all := set p | p in portfolios && p.present :: p.id;
      assert portfolios == front + [last];
      assert all == before + if last.present then {last.id} else {};
    }
  }

  /** The portfolios with this status. */
  function WithStatus(portfolios: seq<Portfolio>, status: Status): set<string> {
    set p | p in portfolios && p.status == status :: p.id
  }

  lemma {:induction false} StatusSet(portfolios: seq<Portfolio>, status: Status)
    requires Distinct(Ids(portfolios))
    ensures CountStatus(portfolios, status) == |WithStatus(portfolios, status)|
  {
    hide Distinct, Ids;
    if portfolios != [] {
      var front, last := portfolios[..|portfolios| - 1], portfolios[|portfolios| - 1];
      LastIsNew(portfolios);
      StatusSet(front, status);
      assert portfolios == front + [last];
      assert WithStatus(portfolios, status)
        == WithStatus(front, status) + if last.status == status then {last.id} else {};
    }
  }

  /** In an accepted population every count is that of the distinct portfolios it is called after, the
      three statuses account for every expected portfolio, and each is assessed by the three rules. */
  lemma AcceptedCounts(p: Proposal)
    requires PopulationAccepted(p)
    ensures p.counts.expected == |p.expected|
    ensures p.counts.included == |WithStatus(p.portfolios, Included)|
    ensures p.counts.excluded == |WithStatus(p.portfolios, Excluded)|
    ensures p.counts.pending == |WithStatus(p.portfolios, PendingReview)|
    ensures forall i :: 0 <= i < |p.portfolios| ==>
      p.portfolios[i].rules == ["SIGNIFICANT_FLOW", "CASH", "READINESS"]
    ensures p.counts.included + p.counts.excluded + p.counts.pending == p.counts.expected
    ensures p.counts.observed == |Observed(p.observations)|
  {
    StatusesSum(p.portfolios);
    var ids := Ids(p.portfolios);
    forall i, j | 0 <= i < j < |ids| ensures ids[i] != ids[j] { BelowTotal(ids[i], ids[j]); }
    StatusSet(p.portfolios, Included);
    StatusSet(p.portfolios, Excluded);
    StatusSet(p.portfolios, PendingReview);
    PresentSet(p.portfolios);
    var present := set q | q in p.portfolios && q.present :: q.id;
    forall id ensures id in present <==> id in Observed(p.observations) {
      if id in Observed(p.observations) {
        assert id in p.expected;
        var i :| 0 <= i < |ids| && ids[i] == id;
        assert p.portfolios[i] in p.portfolios && p.portfolios[i].present;
      }
    }
    assert present == Observed(p.observations);
  }

  // --------------------------------------------------------------------- the history

  datatype Decision = Decision(portfolio: string, from: Date, to: Option<Date>, status: Status)

  predicate Dated(decisions: seq<Decision>) {
    forall i :: 0 <= i < |decisions| ==> Valid(decisions[i].from) && (decisions[i].to.Some? ==>
      Valid(decisions[i].to.value))
  }

  const LAST_DAY: Date := Date(9999, 12, 31)

  /** An open decision ends on the last day there is. */
  function End(d: Decision): Date { if d.to.Some? then d.to.value else LAST_DAY }

  predicate Overlap(from: Date, to: Date, from': Date, to': Date) { AtMost(from, to') && AtMost(from', to) }

  predicate Disjoint(a: Decision, b: Decision) {
    a.portfolio == b.portfolio ==> !Overlap(a.from, End(a), b.from, End(b))
  }

  predicate HistoryAccepted(decisions: seq<Decision>) {
    && (forall i :: 0 <= i < |decisions| ==> AtMost(decisions[i].from, End(decisions[i])))
    && (forall i, j :: 0 <= j < i < |decisions| ==> Disjoint(decisions[i], decisions[j]))
  }

  predicate Clash(from: Date, to: Date, intervals: seq<(Date, Date)>) {
    exists interval :: interval in intervals && Overlap(from, to, interval.0, interval.1)
  }

  /** The intervals that have been filed for a portfolio. */
  predicate Filed(decisions: seq<Decision>, prior: map<string, seq<(Date, Date)>>) {
    && (forall k :: 0 <= k < |decisions| ==>
          decisions[k].portfolio in prior && (decisions[k].from, End(decisions[k])) in prior[decisions[k].portfolio])
    && (forall id, interval :: id in prior && interval in prior[id] ==>
          exists k :: 0 <= k < |decisions| && decisions[k].portfolio == id
            && interval == (decisions[k].from, End(decisions[k])))
  }

  /** `_require_history_intervals`. */
  method RequireHistoryIntervals(decisions: seq<Decision>) returns (ok: bool)
    ensures ok <==> HistoryAccepted(decisions)
  {
    var prior: map<string, seq<(Date, Date)>> := map[];
    for i := 0 to |decisions|
      invariant Filed(decisions[..i], prior)
      invariant HistoryAccepted(decisions[..i])
    {
      var decision := decisions[i];
      var start, end := decision.from, End(decision);
      var intervals := if decision.portfolio in prior then prior[decision.portfolio] else [];
      FiledClash(decisions, i, prior);
      if !AtMost(start, end) || Clash(start, end, intervals) {
        return false;
      }
      FiledMore(decisions[..i], prior, decision);
      assert decisions[..i + 1] == decisions[..i] + [decision];
      prior := prior[decision.portfolio := intervals + [(start, end)]];
    }
    assert decisions[..|decisions|] == decisions;
    return true;
  }

  lemma FiledClash(decisions: seq<Decision>, i: nat, prior: map<string, seq<(Date, Date)>>)
    requires i < |decisions| && Filed(decisions[..i], prior) && HistoryAccepted(decisions[..i])
    ensures var d := decisions[i];
            var intervals := if d.portfolio in prior then prior[d.portfolio] else [];
            && (!AtMost(d.from, End(d)) || Clash(d.from, End(d), intervals) ==> !HistoryAccepted(decisions))
            && (AtMost(d.from, End(d)) && !Clash(d.from, End(d), intervals) ==> HistoryAccepted(decisions[..i + 1]))
  {
    var d, front := decisions[i], decisions[..i];
    var intervals := if d.portfolio in prior then prior[d.portfolio] else [];
    forall interval | interval in intervals && Overlap(d.from, End(d), interval.0, interval.1)
      ensures !HistoryAccepted(decisions) {
      var k :| 0 <= k < |front| && front[k].portfolio == d.portfolio && interval == (front[k].from, End(front[k]));
      assert !Disjoint(decisions[i], decisions[k]);
    }
    if AtMost(d.from, End(d)) && !Clash(d.from, End(d), intervals) {
      forall k | 0 <= k < i ensures Disjoint(d, decisions[k]) {
        assert front[k] == decisions[k];
        if d.portfolio == decisions[k].portfolio { assert (front[k].from, End(front[k])) in intervals; }
      }
      var more := decisions[..i + 1];
      forall a, b | 0 <= b < a < |more| ensures Disjoint(more[a], more[b]) {
        if a < i { assert Disjoint(front[a], front[b]); }
      }
      forall a | 0 <= a < |more| ensures AtMost(more[a].from, End(more[a])) {
        if a < i { assert AtMost(front[a].from, End(front[a])); }
      }
    }
  }

  lemma FiledMore(front: seq<Decision>, prior: map<string, seq<(Date, Date)>>, d: Decision)
    requires Filed(front, prior)
    ensures var intervals := if d.portfolio in prior then prior[d.portfolio] else [];
            Filed(front + [d], prior[d.portfolio := intervals + [(d.from, End(d))]])
  {
    var intervals := if d.portfolio in prior then prior[d.portfolio] else [];
    var prior' := prior[d.portfolio := intervals + [(d.from, End(d))]];
    var all := front + [d];
    forall id, interval | id in prior' && interval in prior'[id]
      ensures exists k :: 0 <= k < |all| && all[k].portfolio == id && interval == (all[k].from, End(all[k])) {
      if id == d.portfolio && interval == (d.from, End(d)) {
        assert all[|front|] == d;
      } else {
        assert id in prior && interval in prior[id];
        var k :| 0 <= k < |front| && front[k].portfolio == id && interval == (front[k].from, End(front[k]));
        assert all[k] == front[k];
      }
    }
    forall k | 0 <= k < |all|
      ensures all[k].portfolio in prior' && (all[k].from, End(all[k])) in prior'[all[k].portfolio] {
      if k < |front| { assert front[k].portfolio in prior; }
    }
  }

  /** The decision holds on this day; an open one holds for ever. */
  predicate Holds(d: Decision, day: Date) {
    AtMost(d.from, day) && (d.to.None? || AtMost(day, d.to.value))
  }

  lemma EndHolds(d: Decision, day: Date)
    requires Valid(day)
    ensures Holds(d, day) <==> AtMost(d.from, day) && AtMost(day, End(d))
    ensures d.to.Some? ==> End(d) == d.to.value
  {
    LastOfAll(day);
  }

  lemma LastOfAll(day: Date)
    requires Valid(day)
    ensures Valid(LAST_DAY) && AtMost(day, LAST_DAY)
  {
    NumbersInRange(day);
    NumbersInOrder(day, LAST_DAY);
  }

  /** A history is accepted exactly when no decision ends before it starts and no two decisions for a
      portfolio hold on one day. */
  lemma NoDayTwice(decisions: seq<Decision>)
    requires Dated(decisions)
    ensures HistoryAccepted(decisions) <==>
      && (forall i :: 0 <= i < |decisions| && decisions[i].to.Some? ==>
            AtMost(decisions[i].from, decisions[i].to.value))
      && (forall day, i, j ::
            Valid(day) && 0 <= j < i < |decisions| && decisions[i].portfolio == decisions[j].portfolio
            ==> !(Holds(decisions[i], day) && Holds(decisions[j], day)))
  {
    hide Rank;
    forall i | 0 <= i < |decisions|
      ensures AtMost(decisions[i].from, End(decisions[i])) <==>
        (decisions[i].to.Some? ==> AtMost(decisions[i].from, decisions[i].to.value)) {
      LastOfAll(decisions[i].from);
    }
    if forall i :: 0 <= i < |decisions| ==> AtMost(decisions[i].from, End(decisions[i])) {
      forall i, j | 0 <= j < i < |decisions|
        ensures Disjoint(decisions[i], decisions[j]) <==>
          (decisions[i].portfolio == decisions[j].portfolio ==>
            forall day :: Valid(day) ==> !(Holds(decisions[i], day) && Holds(decisions[j], day))) {
        DisjointDays(decisions[i], decisions[j]);
      }
    }
  }

  lemma DisjointDays(a: Decision, b: Decision)
    requires Valid(a.from) && Valid(b.from) && AtMost(a.from, End(a)) && AtMost(b.from, End(b))
    ensures Disjoint(a, b) <==>
      (a.portfolio == b.portfolio ==> forall day :: Valid(day) ==> !(Holds(a, day) && Holds(b, day)))
  {
    forall day | Valid(day)
      ensures (Holds(a, day) <==> AtMost(a.from, day) && AtMost(day, End(a)))
              && (Holds(b, day) <==> AtMost(b.from, day) && AtMost(day, End(b))) {
      EndHolds(a, day);
      EndHolds(b, day);
    }
    if a.portfolio == b.portfolio && Overlap(a.from, End(a), b.from, End(b)) {
      var day := if AtMost(a.from, b.from) then b.from else a.from;
      assert Holds(a, day) && Holds(b, day);
    }
  }

  // ------------------------------------------------------------------ the published month

  datatype Universe = Universe(expected: seq<string>, count: int)

  /** `decision` covers some day from `first` to `last`; an open one goes on for ever. */
  predicate InMonth(decision: Decision, first: Date, last: Date) {
    AtMost(decision.from, last) && (decision.to.None? || AtMost(first, decision.to.value))
  }

  /** A decision is in the month exactly when it holds on some day of it. */
  lemma InMonthHolds(d: Decision, year: int, month: int)
    requires 1 <= year <= 9999 && 1 <= month <= 12 && Valid(d.from)
    requires d.to.Some? ==> Valid(d.to.value) && AtMost(d.from, d.to.value)
    ensures InMonth(d, Date(year, month, 1), Date(year, month, DaysIn(year, month))) <==>
      exists day :: Valid(day) && day.year == year && day.month == month && Holds(d, day)
  {
    hide Rank;
    var first, last := Date(year, month, 1), Date(year, month, DaysIn(year, month));
    if InMonth(d, first, last) {
      var day := if AtMost(first, d.from) then d.from else first;
      BetweenDays(first, last, day);
      assert Valid(day) && day.year == year && day.month == month && Holds(d, day);
    }
    forall day | Valid(day) && day.year == year && day.month == month && Holds(d, day)
      ensures InMonth(d, first, last) {
      BetweenDays(first, last, day);
    }
  }

  lemma BetweenDays(first: Date, last: Date, day: Date)
    requires Valid(first) && Valid(last) && Valid(day) && first.day == 1 && last.day == DaysIn(last.year, last.month)
    requires first.year == last.year && first.month == last.month
    ensures AtMost(first, day) && AtMost(day, last) <==> day.year == first.year && day.month == first.month
  {
    RankOrder(day, first);
    RankOrder(last, day);
  }

  function Selected(decisions: seq<Decision>, first: Date, last: Date): seq<Decision> {
    if decisions == [] then []
    else
      var d := decisions[|decisions| - 1];
      Selected(decisions[..|decisions| - 1], first, last) + if InMonth(d, first, last) then [d] else []
  }

  /** `{row["portfolio_id"]: row["status"] for row in rows}`: a later row wins. */
  function StatusMap(rows: seq<(string, Status)>): map<string, Status> {
    if rows == [] then map[] else StatusMap(rows[..|rows| - 1])[rows[|rows| - 1].0 := rows[|rows| - 1].1]
  }

  function Evaluated(portfolios: seq<Portfolio>): map<string, Status> {
    StatusMap(PortfolioRows(portfolios))
  }

  function Decided(decisions: seq<Decision>): map<string, Status> {
    StatusMap(DecisionRows(decisions))
  }

  /** `_require_published_population`. */
  predicate PublishedAccepted(year: int, month: int, decisions: seq<Decision>, universe: Universe, p: Proposal) {
    var evaluated := Evaluated(p.portfolios);
    var selected := Selected(decisions, Date(year, month, 1), Date(year, month, DaysIn(year, month)));
    && |selected| == |evaluated| && Decided(selected) == evaluated
    && universe.expected == Sorted(Deduplicated(Ids(p.portfolios))) && universe.count == |evaluated|
  }

  /** The map has an entry for every id of a row. */
  lemma {:induction false} StatusMapKeys(rows: seq<(string, Status)>, id: string)
    ensures id in StatusMap(rows) <==> exists i :: 0 <= i < |rows| && rows[i].0 == id
  {
    if rows != [] {
      var n := |rows| - 1;
      StatusMapKeys(rows[..n], id);
      if exists i :: 0 <= i < n && rows[i].0 == id {
        var i :| 0 <= i < n && rows[i].0 == id;
        assert rows[..n][i].0 == id;
      }
      if rows[n].0 == id { assert rows[n].0 == id; }
    }
  }

  predicate DistinctRows(rows: seq<(string, Status)>) {
    forall i, j :: 0 <= i < j < |rows| ==> rows[i].0 != rows[j].0
  }

  /** It has as many entries as there are rows exactly when no id is repeated. */
  lemma {:induction false} StatusMapSize(rows: seq<(string, Status)>)
    ensures |StatusMap(rows)| <= |rows|
    ensures |StatusMap(rows)| == |rows| <==> DistinctRows(rows)
  {
    if rows != [] {
      var n := |rows| - 1;
      var front, last := rows[..n], rows[n];
      assert rows == front + [last];
      StatusMapSize(front);
      StatusMapKeys(front, last.0);
      UpdateSize(StatusMap(front), last.0, last.1);
      if last.0 in StatusMap(front) {
        var i :| 0 <= i < n && front[i].0 == last.0;
        assert rows[i].0 == rows[n].0;
      } else {
        DistinctMore(front, last);
      }
    }
  }

  lemma UpdateSize(m: map<string, Status>, id: string, status: Status)
    ensures |m[id := status]| == if id in m then |m| else |m| + 1
  {
    assert m[id := status].Keys == m.Keys + {id};
    assert |m[id := status]| == |m[id := status].Keys| && |m| == |m.Keys|;
    if id in m { assert m.Keys + {id} == m.Keys; }
  }

  lemma DistinctMore(front: seq<(string, Status)>, last: (string, Status))
    requires forall i :: 0 <= i < |front| ==> front[i].0 != last.0
    ensures DistinctRows(front + [last]) <==> DistinctRows(front)
  {
    if DistinctRows(front + [last]) {
      forall i, j | 0 <= i < j < |front| ensures front[i].0 != front[j].0 {
        assert (front + [last])[i].0 != (front + [last])[j].0;
      }
    }
  }

  lemma {:induction false} StatusMapValues(rows: seq<(string, Status)>, i: nat)
    requires DistinctRows(rows) && i < |rows|
    ensures rows[i].0 in StatusMap(rows) && StatusMap(rows)[rows[i].0] == rows[i].1
  {
    var n := |rows| - 1;
    if i < n {
      assert DistinctRows(rows[..n]);
      StatusMapValues(rows[..n], i);
      assert rows[i].0 != rows[n].0;
    }
  }

  /** Where the selected decisions stand: in order, and none is left out. */
  lemma {:induction false} SelectedAt(decisions: seq<Decision>, first: Date, last: Date) returns (at: seq<nat>)
    ensures |at| == |Selected(decisions, first, last)|
    ensures forall i :: 0 <= i < |at| ==> at[i] < |decisions| && Selected(decisions, first, last)[i] == decisions[at[i]]
    ensures forall i, j :: 0 <= i < j < |at| ==> at[i] < at[j]
    ensures forall k :: 0 <= k < |decisions| ==> (k in at <==> InMonth(decisions[k], first, last))
  {
    if decisions == [] {
      at := [];
    } else {
      var n := |decisions| - 1;
      at := SelectedAt(decisions[..n], first, last);
      assert forall k :: k in at ==> k < n;
      if InMonth(decisions[n], first, last) { at := at + [n]; }
    }
  }

  /** The portfolio has exactly one decision in the month, and it has this status. */
  ghost predicate DecidedOnce(decisions: seq<Decision>, first: Date, last: Date, id: string, status: Status) {
    exists k ::
      && 0 <= k < |decisions| && InMonth(decisions[k], first, last)
      && decisions[k].portfolio == id && decisions[k].status == status
      && (forall j ::
            0 <= j < |decisions| && InMonth(decisions[j], first, last) && decisions[j].portfolio == id ==> j == k)
  }

  lemma OnceInSelected(decisions: seq<Decision>, first: Date, last: Date, at: seq<nat>, i: nat)
    requires |at| == |Selected(decisions, first, last)| && i < |at|
    requires forall i :: 0 <= i < |at| ==>
        at[i] < |decisions| && Selected(decisions, first, last)[i] == decisions[at[i]]
    requires forall k :: 0 <= k < |decisions| ==> (k in at <==> InMonth(decisions[k], first, last))
    requires forall i, j :: 0 <= i < j < |at| ==>
      Selected(decisions, first, last)[i].portfolio != Selected(decisions, first, last)[j].portfolio
    ensures var d := Selected(decisions, first, last)[i]; DecidedOnce(decisions, first, last, d.portfolio, d.status)
  {
    var k := at[i];
    assert k in at;
    forall j | 0 <= j < |decisions| && InMonth(decisions[j], first, last)
      && decisions[j].portfolio == decisions[k].portfolio
      ensures j == k {
      var m :| 0 <= m < |at| && at[m] == j;
    }
  }

  function PortfolioRows(portfolios: seq<Portfolio>): seq<(string, Status)> {
    seq(|portfolios|, i requires 0 <= i < |portfolios| => (portfolios[i].id, portfolios[i].status))
  }

  function DecisionRows(decisions: seq<Decision>): seq<(string, Status)> {
    seq(|decisions|, i requires 0 <= i < |decisions| => (decisions[i].portfolio, decisions[i].status))
  }

  lemma EvaluatedRows(p: Proposal)
    requires Ascending(Ids(p.portfolios))
    ensures |Evaluated(p.portfolios)| == |p.portfolios|
    ensures forall id :: id in Evaluated(p.portfolios) <==>
                         exists i :: 0 <= i < |p.portfolios| && p.portfolios[i].id == id
    ensures forall i :: 0 <= i < |p.portfolios| ==>
        Evaluated(p.portfolios)[p.portfolios[i].id] == p.portfolios[i].status
  {
    var rows := PortfolioRows(p.portfolios);
    forall i, j | 0 <= i < j < |rows| ensures rows[i].0 != rows[j].0 {
      BelowTotal(Ids(p.portfolios)[i], Ids(p.portfolios)[j]);
    }
    StatusMapSize(rows);
    forall id ensures id in StatusMap(rows) <==> exists i :: 0 <= i < |p.portfolios| && p.portfolios[i].id == id {
      StatusMapKeys(rows, id);
      assert forall i :: 0 <= i < |rows| ==> rows[i].0 == p.portfolios[i].id;
    }
    forall i | 0 <= i < |rows| ensures StatusMap(rows)[p.portfolios[i].id] == p.portfolios[i].status {
      StatusMapValues(rows, i);
    }
  }

  lemma DecidedRows(decisions: seq<Decision>)
    requires |Decided(decisions)| == |decisions|
    ensures forall i, j :: 0 <= i < j < |decisions| ==> decisions[i].portfolio != decisions[j].portfolio
    ensures forall id :: id in Decided(decisions) <==> exists i :: 0 <= i < |decisions| && decisions[i].portfolio == id
    ensures forall i :: 0 <= i < |decisions| ==> Decided(decisions)[decisions[i].portfolio] == decisions[i].status
  {
    var rows := DecisionRows(decisions);
    StatusMapSize(rows);
    forall i, j | 0 <= i < j < |decisions| ensures decisions[i].portfolio != decisions[j].portfolio {
      assert rows[i].0 != rows[j].0;
    }
    forall id ensures id in StatusMap(rows) <==> exists i :: 0 <= i < |decisions| && decisions[i].portfolio == id {
      StatusMapKeys(rows, id);
      assert forall i :: 0 <= i < |rows| ==> rows[i].0 == decisions[i].portfolio;
    }
    forall i | 0 <= i < |rows| ensures StatusMap(rows)[decisions[i].portfolio] == decisions[i].status {
      StatusMapValues(rows, i);
    }
  }

  /** An accepted published month: every expected portfolio has exactly one decision in the month, with
      the status it was evaluated to. */
  lemma PublishedDecidesOnce(year: int, month: int, decisions: seq<Decision>, universe: Universe, p: Proposal, i: nat)
    requires PopulationAccepted(p) && PublishedAccepted(year, month, decisions, universe, p) && i < |p.expected|
    ensures |p.portfolios| == |p.expected| && p.portfolios[i].id == p.expected[i]
    ensures DecidedOnce(decisions, Date(year, month, 1), Date(year, month, DaysIn(year, month)),
                        p.expected[i], p.portfolios[i].status)
  {
    hide Ascending, Deduplicated, Sorted, PresentRight, RulesRight, Consistent, StatusMap, DecidedOnce;
    var first, last := Date(year, month, 1), Date(year, month, DaysIn(year, month));
    var selected := Selected(decisions, first, last);
    var at := SelectedAt(decisions, first, last);
    EvaluatedRows(p);
    DecidedRows(selected);
    assert p.portfolios[i].id == Ids(p.portfolios)[i];
    assert p.portfolios[i].id in Decided(selected);
    var m :| 0 <= m < |selected| && selected[m].portfolio == p.portfolios[i].id;
    OnceInSelected(decisions, first, last, at, m);
  }

  /** And no other portfolio has a decision in the month. */
  lemma PublishedOnlyExpected(year: int, month: int, decisions: seq<Decision>, universe: Universe, p: Proposal, k: nat)
    requires PopulationAccepted(p) && PublishedAccepted(year, month, decisions, universe, p) && k < |decisions|
    requires InMonth(decisions[k], Date(year, month, 1), Date(year, month, DaysIn(year, month)))
    ensures decisions[k].portfolio in p.expected
  {
    hide Ascending, Deduplicated, Sorted, PresentRight, RulesRight, Consistent, StatusMap, DecidedOnce;
    var first, last := Date(year, month, 1), Date(year, month, DaysIn(year, month));
    var selected := Selected(decisions, first, last);
    var at := SelectedAt(decisions, first, last);
    EvaluatedRows(p);
    DecidedRows(selected);
    assert k in at;
    var m :| 0 <= m < |at| && at[m] == k;
    assert selected[m].portfolio in Evaluated(p.portfolios);
    var i :| 0 <= i < |p.portfolios| && p.portfolios[i].id == decisions[k].portfolio;
    assert p.portfolios[i].id == Ids(p.portfolios)[i];
  }

  /** The published universe is the expected population. */
  lemma PublishedUniverse(year: int, month: int, decisions: seq<Decision>, universe: Universe, p: Proposal)
    requires PopulationAccepted(p) && PublishedAccepted(year, month, decisions, universe, p)
    ensures universe == Universe(p.expected, p.counts.expected)
  {
    EvaluatedRows(p);
    AscendingIsSortedSet(Ids(p.portfolios));
  }

  ghost predicate EachOnce(decisions: seq<Decision>, first: Date, last: Date, p: Proposal) {
    forall i :: 0 <= i < |p.portfolios| ==>
      DecidedOnce(decisions, first, last, p.portfolios[i].id, p.portfolios[i].status)
  }

  ghost predicate OnlyExpected(decisions: seq<Decision>, first: Date, last: Date, p: Proposal) {
    forall k :: 0 <= k < |decisions| && InMonth(decisions[k], first, last) ==> decisions[k].portfolio in p.expected
  }

  /** Nothing else is asked of a published month. */
  lemma PublishedComplete(year: int, month: int, decisions: seq<Decision>, universe: Universe, p: Proposal)
    requires PopulationAccepted(p) && universe == Universe(p.expected, p.counts.expected)
    requires EachOnce(decisions, Date(year, month, 1), Date(year, month, DaysIn(year, month)), p)
    requires OnlyExpected(decisions, Date(year, month, 1), Date(year, month, DaysIn(year, month)), p)
    ensures PublishedAccepted(year, month, decisions, universe, p)
  {
    hide Ascending, Deduplicated, Sorted, PresentRight, RulesRight, Consistent, StatusMap, DecidedOnce, EachOnce,
      OnlyExpected;
    var first, last := Date(year, month, 1), Date(year, month, DaysIn(year, month));
    EvaluatedRows(p);
    AscendingIsSortedSet(Ids(p.portfolios));
    SelectedDecided(decisions, first, last, p);
  }

  lemma SelectedDecided(decisions: seq<Decision>, first: Date, last: Date, p: Proposal)
    requires PopulationAccepted(p) && EachOnce(decisions, first, last, p) && OnlyExpected(decisions, first, last, p)
    ensures var selected := Selected(decisions, first, last);
            Decided(selected) == Evaluated(p.portfolios) && |selected| == |Evaluated(p.portfolios)|
  {
    hide PopulationAccepted, StatusMap, Decided, Evaluated, DecidedOnce, EachOnce, OnlyExpected;
    var selected := Selected(decisions, first, last);
    var at := SelectedAt(decisions, first, last);
    SelectedDistinct(decisions, first, last, p, at);
    forall id ensures id in Decided(selected) <==> id in Evaluated(p.portfolios) {
      SameEntry(decisions, first, last, p, at, id);
    }
    forall id | id in Decided(selected) ensures Decided(selected)[id] == Evaluated(p.portfolios)[id] {
      SameEntry(decisions, first, last, p, at, id);
    }
    assert Decided(selected) == Evaluated(p.portfolios);
  }

  lemma SameEntry(decisions: seq<Decision>, first: Date, last: Date, p: Proposal, at: seq<nat>, id: string)
    requires PopulationAccepted(p) && EachOnce(decisions, first, last, p) && OnlyExpected(decisions, first, last, p)
    requires |at| == |Selected(decisions, first, last)| == |Decided(Selected(decisions, first, last))|
    requires forall i :: 0 <= i < |at| ==>
        at[i] < |decisions| && Selected(decisions, first, last)[i] == decisions[at[i]]
    requires forall k :: 0 <= k < |decisions| ==> (k in at <==> InMonth(decisions[k], first, last))
    ensures var selected := Selected(decisions, first, last);
            && (id in Decided(selected) <==> id in Evaluated(p.portfolios))
            && (id in Decided(selected) ==> Decided(selected)[id] == Evaluated(p.portfolios)[id])
  {
    hide StatusMap, Decided, Evaluated, DecidedOnce, EachOnce, OnlyExpected, Selected;
    var selected := Selected(decisions, first, last);
    EvaluatedRows(p);
    DecidedRows(selected);
    if id in Decided(selected) {
      var m :| 0 <= m < |selected| && selected[m].portfolio == id;
      assert at[m] in at;
      SelectedEvaluated(decisions, first, last, p, at, m);
    }
    if id in Evaluated(p.portfolios) {
      var i :| 0 <= i < |p.portfolios| && p.portfolios[i].id == id;
      SomeSelected(decisions, first, last, p, at, i);
    }
  }

  lemma SelectedDistinct(decisions: seq<Decision>, first: Date, last: Date, p: Proposal, at: seq<nat>)
    requires PopulationAccepted(p) && EachOnce(decisions, first, last, p) && OnlyExpected(decisions, first, last, p)
    requires |at| == |Selected(decisions, first, last)|
    requires forall i :: 0 <= i < |at| ==>
        at[i] < |decisions| && Selected(decisions, first, last)[i] == decisions[at[i]]
    requires forall i, j :: 0 <= i < j < |at| ==> at[i] < at[j]
    requires forall k :: 0 <= k < |decisions| ==> (k in at <==> InMonth(decisions[k], first, last))
    ensures |Decided(Selected(decisions, first, last))| == |Selected(decisions, first, last)|
  {
    hide PopulationAccepted, EachOnce, OnlyExpected, StatusMap, Selected;
    var selected := Selected(decisions, first, last);
    forall a, b | 0 <= a < b < |selected| ensures selected[a].portfolio != selected[b].portfolio {
      assert at[a] in at && at[b] in at;
      SelectedApart(decisions, first, last, p, at, a, b);
    }
    assert DistinctRows(DecisionRows(selected));
    StatusMapSize(DecisionRows(selected));
  }

  lemma SomeSelected(decisions: seq<Decision>, first: Date, last: Date, p: Proposal, at: seq<nat>, i: nat)
    requires EachOnce(decisions, first, last, p) && i < |p.portfolios| && |at| == |Selected(decisions, first, last)|
    requires forall i :: 0 <= i < |at| ==>
        at[i] < |decisions| && Selected(decisions, first, last)[i] == decisions[at[i]]
    requires forall k :: 0 <= k < |decisions| ==> (k in at <==> InMonth(decisions[k], first, last))
    ensures exists m :: 0 <= m < |at| && Selected(decisions, first, last)[m].portfolio == p.portfolios[i].id
  {
    assert DecidedOnce(decisions, first, last, p.portfolios[i].id, p.portfolios[i].status);
    var k :| 0 <= k < |decisions| && InMonth(decisions[k], first, last) && decisions[k].portfolio == p.portfolios[i].id;
    var m :| 0 <= m < |at| && at[m] == k;
    assert Selected(decisions, first, last)[m].portfolio == p.portfolios[i].id;
  }

  lemma SelectedEvaluated(decisions: seq<Decision>, first: Date, last: Date, p: Proposal, at: seq<nat>, m: nat)
    requires PopulationAccepted(p) && m < |at| && at[m] < |decisions| && InMonth(decisions[at[m]], first, last)
    requires EachOnce(decisions, first, last, p) && OnlyExpected(decisions, first, last, p)
    ensures var d := decisions[at[m]];
            d.portfolio in Evaluated(p.portfolios) && Evaluated(p.portfolios)[d.portfolio] == d.status
  {
    var d := decisions[at[m]];
    EvaluatedRows(p);
    assert d.portfolio in p.expected;
    var i :| 0 <= i < |p.expected| && p.expected[i] == d.portfolio;
    assert Ids(p.portfolios)[i] == p.portfolios[i].id;
    assert DecidedOnce(decisions, first, last, p.portfolios[i].id, p.portfolios[i].status);
  }

  lemma SelectedApart(decisions: seq<Decision>, first: Date, last: Date, p: Proposal, at: seq<nat>, a: nat, b: nat)
    requires PopulationAccepted(p) && a < b < |at| && at[a] < at[b] < |decisions|
    requires InMonth(decisions[at[a]], first, last) && InMonth(decisions[at[b]], first, last)
    requires EachOnce(decisions, first, last, p) && OnlyExpected(decisions, first, last, p)
    ensures decisions[at[a]].portfolio != decisions[at[b]].portfolio
  {
    var i :| 0 <= i < |p.expected| && p.expected[i] == decisions[at[a]].portfolio;
    assert Ids(p.portfolios)[i] == p.portfolios[i].id;
    assert DecidedOnce(decisions, first, last, p.portfolios[i].id, p.portfolios[i].status);
  }
}
