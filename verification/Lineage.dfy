/**
  Correction lineages of monthly receipts: `require_receipt`, `require_link` and
  `require_amendment_months` of src/app/composite_reporting/amendment_admission.py, and
  `require_retained_receipt` and `require_months` of historical_admission.py.
*/
module Lineage {
  import opened Wrappers
  import opened Calendar

  datatype Binding = Binding(name: string, version: string, revision: string, digest: string)

  /** The amendment a proposal carries. */
  datatype Claim = Claim(
    predecessorApproval: Binding, expectedAuthority: Binding, predecessorReceipt: Binding, originalApproval: Binding,
    projectionParent: Binding, expectedSequence: int, affectedFrom: Date, affectedTo: Date,
    reasonGiven: bool, evidence: seq<Binding>)

  datatype Observations = Observations(sourceCut: string, sourceRevision: string, portfolios: string)

  datatype Proposal = Proposal(
    version: string, revision: string, year: int, month: int, policyApproval: string, expected: seq<string>,
    observations: Observations, parentRevision: string, parentHash: string, proposedAt: int, claim: Option<Claim>)

  datatype Approval = Approval(version: string, proposal: Proposal, approvedAt: int, contentHash: string)

  /** `intact` stands for the checks that concern this document alone: schema, hashes, scope,
      its own bindings and its population. */
  datatype Receipt = Receipt(
    version: string, definition: string, approval: Approval, sequence: int, membership: Binding,
    lineage: Option<Claim>, contentHash: string, responseDigest: string, intact: bool)

  /** A publication of a membership; `inScope` says that it is of the selected composite. */
  datatype Publication = Publication(sequence: int, revision: string, digest: string, inScope: bool)

  /** A month as it was only evaluated, or as it was published: its receipt, the parent membership
      that its pin repeats, and the publication of that membership. `decided` stands for the agreement
      of the published decisions with the evaluation. */
  datatype Evidence =
    | Evaluated(proposal: Proposal)
    | Published(receipt: Receipt, parentRevision: string, parentDigest: string,
        parentPublication: Option<Publication>, decided: bool)

  datatype Month = Month(pins: seq<Pin>, evidence: Evidence, receipts: seq<Receipt>)

  /** `proposal_for_month`. */
  function ProposalOf(m: Month): Proposal {
    if m.evidence.Published? then m.evidence.receipt.approval.proposal else m.evidence.proposal
  }

  /** What the caller pins of a retained receipt. */
  datatype Pin = Pin(version: string, revision: string, approvalHash: string, receiptHash: string,
    responseDigest: string)

  function ApprovalBinding(a: Approval): Binding {
    Binding("CompositeMonthlyEvaluationApproval", a.version, a.proposal.revision, a.contentHash)
  }

  function ReceiptBinding(r: Receipt): Binding {
    Binding("CompositeMonthlyEligibilityPublicationReceipt", r.version, r.approval.proposal.revision, r.contentHash)
  }

  function PinOf(r: Receipt): Pin {
    Pin(r.version, r.approval.proposal.revision, r.approval.contentHash, r.contentHash, r.responseDigest)
  }

  /** The two families: amendments of v1 months, and historical corrections of v3 months. */
  datatype Family = Family(root: string, amended: string, timed: bool)

  const AMENDMENT: Family := Family("v1", "v2", false)
  const HISTORICAL: Family := Family("v3", "v4", true)

  /** `require_receipt` and `require_retained_receipt`; only the latter compares its own times. */
  predicate ReceiptOk(f: Family, r: Receipt) {
    && r.intact && (r.version == f.root || r.version == f.amended)
    && r.version == r.approval.version == r.approval.proposal.version
    && (f.timed ==> r.approval.approvedAt >= r.approval.proposal.proposedAt)
    && (r.version == f.amended ==>
          r.approval.proposal.claim.Some? && r.lineage == r.approval.proposal.claim
          && r.sequence > r.approval.proposal.claim.value.expectedSequence)
  }

  predicate DistinctEvidence(evidence: seq<Binding>) {
    forall i, j :: 0 <= i < j < |evidence| ==>
      || evidence[i].name != evidence[j].name
      || evidence[i].version != evidence[j].version
      || evidence[i].revision != evidence[j].revision
  }

  /** `require_link`. */
  predicate LinkOk(f: Family, p: Proposal, predecessor: Receipt, original: Receipt) {
    var prior := predecessor.approval.proposal;
    && p.version == f.amended && p.claim.Some?
    && p.claim.value.predecessorApproval == ApprovalBinding(predecessor.approval)
    && p.claim.value.expectedAuthority == p.claim.value.predecessorApproval
    && p.claim.value.predecessorReceipt == ReceiptBinding(predecessor)
    && p.claim.value.originalApproval == ApprovalBinding(original.approval)
    && p.revision != prior.revision && p.revision != original.approval.proposal.revision
    && p.claim.value.affectedFrom == Date(p.year, p.month, 1)
    && p.claim.value.affectedTo == Date(p.year, p.month, DaysIn(p.year, p.month))
    && prior.year == p.year && prior.month == p.month
    && p.claim.value.projectionParent == Binding("CompositeMembership", "v1", p.parentRevision, p.parentHash)
    && p.claim.value.projectionParent == predecessor.membership
    && p.claim.value.expectedSequence == predecessor.sequence
    && p.claim.value.reasonGiven && DistinctEvidence(p.claim.value.evidence)
    && p.policyApproval == prior.policyApproval && p.expected == prior.expected
    && p.observations != prior.observations
    && p.proposedAt >= predecessor.approval.approvedAt
  }

  /** The proposal whose predecessor is the i-th receipt. */
  function Current(p: Proposal, receipts: seq<Receipt>, i: nat): Proposal
    requires i <= |receipts|
  {
    if i == 0 then p else receipts[i - 1].approval.proposal
  }

  predicate LinkAt(f: Family, p: Proposal, receipts: seq<Receipt>, i: nat)
    requires i < |receipts|
  {
    LinkOk(f, Current(p, receipts, i), receipts[i], receipts[|receipts| - 1])
  }

  predicate NewRevision(p: Proposal, receipts: seq<Receipt>, i: nat)
    requires i < |receipts|
  {
    && receipts[i].approval.proposal.revision != p.revision
    && forall j :: 0 <= j < i ==> receipts[j].approval.proposal.revision != receipts[i].approval.proposal.revision
  }

  /** One of the first `n` receipts is for this revision. */
  predicate Revised(receipts: seq<Receipt>, n: nat, revision: string)
    requires n <= |receipts|
  {
    exists k :: 0 <= k < n && receipts[k].approval.proposal.revision == revision
  }

  /** What both admissions accept of a corrected month. */
  predicate LineageAccepted(f: Family, pins: seq<Pin>, p: Proposal, receipts: seq<Receipt>) {
    && |receipts| == |pins| >= 1
    && (forall i :: 0 <= i < |receipts| ==> ReceiptOk(f, receipts[i]) && PinOf(receipts[i]) == pins[i])
    && (forall i :: 0 <= i < |receipts| ==> NewRevision(p, receipts, i))
    && receipts[|receipts| - 1].version == f.root
    && (forall i :: 0 <= i < |receipts| ==> LinkAt(f, p, receipts, i))
  }

  /** What is asked of a published correction beyond its lineage: its receipt, one definition throughout,
      the publication it corrects, and a later publication of its own. */
  predicate HeadAccepted(f: Family, m: Month)
    requires m.evidence.Published?
  {
    var head, p, publication := m.evidence.receipt, ProposalOf(m), m.evidence.parentPublication;
    && ReceiptOk(f, head)
    && (forall i :: 0 <= i < |m.receipts| ==> m.receipts[i].definition == head.definition)
    && publication.Some? && publication.value.inScope
    && p.claim.Some? && publication.value.sequence == p.claim.value.expectedSequence
    && publication.value.revision == m.evidence.parentRevision
    && publication.value.digest == m.evidence.parentDigest
    && head.sequence > publication.value.sequence
    && m.evidence.decided
  }

  /** What both admissions accept of a corrected month, evaluated or published. */
  predicate MonthAccepted(f: Family, m: Month) {
    && LineageAccepted(f, m.pins, ProposalOf(m), m.receipts)
    && (m.evidence.Published? ==> HeadAccepted(f, m))
  }

  /** The body of `require_amendment_months` for one month: two passes over the receipts, then what
      was published. */
  method RequireAmendmentMonth(m: Month) returns (ok: bool)
    requires |m.pins| >= 1
    ensures ok <==> MonthAccepted(AMENDMENT, m)
  {
    hide ReceiptOk, LinkOk;
    var p, pins, receipts := ProposalOf(m), m.pins, m.receipts;
    if |receipts| != |pins| { return false; }
    var seen := {p.revision};
    for i := 0 to |receipts|
      invariant forall k :: 0 <= k < i ==> ReceiptOk(AMENDMENT, receipts[k]) && PinOf(receipts[k]) == pins[k]
      invariant forall k :: 0 <= k < i ==> NewRevision(p, receipts, k)
      invariant forall x :: x in seen <==> x == p.revision || Revised(receipts, i, x)
    {
      if !ReceiptOk(AMENDMENT, receipts[i]) { return false; }
      var revision := receipts[i].approval.proposal.revision;
      ghost var isNew := NewRevision(p, receipts, i);
      if revision in seen { return false; }
      seen := seen + {revision};
      if PinOf(receipts[i]) != pins[i] { return false; }
    }
    var original := receipts[|receipts| - 1];
    if original.version != "v1" { return false; }
    var current := p;
    for i := 0 to |receipts|
      invariant current == Current(p, receipts, i)
      invariant forall k :: 0 <= k < i ==> LinkAt(AMENDMENT, p, receipts, k)
    {
      ghost var linked := LinkAt(AMENDMENT, p, receipts, i);
      if !LinkOk(AMENDMENT, current, receipts[i], original) { return false; }
      current := receipts[i].approval.proposal;
    }
    RootVersion(AMENDMENT, original);
    if current.version != "v1" { return false; }
    if m.evidence.Evaluated? { return true; }
    var head, publication := m.evidence.receipt, m.evidence.parentPublication;
    if !ReceiptOk(AMENDMENT, head) { return false; }
    if exists r :: r in receipts && r.definition != head.definition { return false; }
    assert LinkAt(AMENDMENT, p, receipts, 0);
    LinkedClaim(AMENDMENT, p, receipts[0], original);
    if publication.None? || !publication.value.inScope { return false; }
    if (publication.value.sequence, publication.value.revision, publication.value.digest)
       != (p.claim.value.expectedSequence, m.evidence.parentRevision, m.evidence.parentDigest) { return false; }
    if head.sequence <= publication.value.sequence { return false; }
    return m.evidence.decided;
  }

  lemma LinkedClaim(f: Family, p: Proposal, predecessor: Receipt, original: Receipt)
    requires LinkOk(f, p, predecessor, original)
    ensures p.claim.Some? && p.version == f.amended && p.claim.value.expectedSequence == predecessor.sequence
  {
  }

  lemma LinkedAmended(f: Family, p: Proposal, predecessor: Receipt, original: Receipt)
    ensures LinkOk(f, p, predecessor, original) ==> p.version == f.amended
  {
  }

  lemma RootVersion(f: Family, r: Receipt)
    ensures ReceiptOk(f, r) ==> r.version == r.approval.proposal.version
  {
  }

  /** The body of `require_months` for one month: a root has neither lineage nor parent publication, a
      correction is walked once, and a published receipt is required to be retained. */
  method RequireHistoricalMonth(version: string, m: Month) returns (ok: bool)
    requires version == "v3" || (version == "v4" && |m.pins| >= 1)
    ensures version == "v3" ==> (ok <==> RootAccepted(m))
    ensures version == "v4" ==> (ok <==> MonthAccepted(HISTORICAL, m))
  {
    hide ReceiptOk, LinkOk;
    var p, pins, receipts := ProposalOf(m), m.pins, m.receipts;
    if version == "v3" {
      if receipts != [] || (m.evidence.Published? && m.evidence.parentPublication.Some?) { return false; }
    } else {
      if |receipts| != |pins| { return false; }
      var original := receipts[|receipts| - 1];
      if original.version != "v3" { return false; }
      var seen := {p.revision};
      var current := p;
      for i := 0 to |receipts|
        invariant current == Current(p, receipts, i)
        invariant forall k :: 0 <= k < i ==> ReceiptOk(HISTORICAL, receipts[k]) && PinOf(receipts[k]) == pins[k]
        invariant forall k :: 0 <= k < i ==> NewRevision(p, receipts, k)
        invariant forall k :: 0 <= k < i ==> LinkAt(HISTORICAL, p, receipts, k)
        invariant forall x :: x in seen <==> x == p.revision || Revised(receipts, i, x)
      {
        ghost var isNew, linked := NewRevision(p, receipts, i), LinkAt(HISTORICAL, p, receipts, i);
        if !ReceiptOk(HISTORICAL, receipts[i]) { return false; }
        var revision := receipts[i].approval.proposal.revision;
        if revision in seen { return false; }
        seen := seen + {revision};
        if PinOf(receipts[i]) != pins[i] { return false; }
        LinkedAmended(HISTORICAL, current, receipts[i], original);
        if current.version != "v4" { return false; }
        if !LinkOk(HISTORICAL, current, receipts[i], original) { return false; }
        current := receipts[i].approval.proposal;
      }
      RootVersion(HISTORICAL, receipts[|receipts| - 1]);
      if current.version != "v3" { return false; }
      if m.evidence.Published? {
        assert LinkAt(HISTORICAL, p, receipts, 0);
        LinkedClaim(HISTORICAL, p, receipts[0], original);
        var head, publication := m.evidence.receipt, m.evidence.parentPublication;
        if publication.None? || !publication.value.inScope { return false; }
        if publication.value.sequence != p.claim.value.expectedSequence { return false; }
        if publication.value.revision != m.evidence.parentRevision
           || publication.value.digest != m.evidence.parentDigest { return false; }
        if exists r :: r in receipts && r.definition != head.definition { return false; }
        if !m.evidence.decided { return false; }
        HeadIsLater(HISTORICAL, head);
      }
    }
    return m.evidence.Published? ==> ReceiptOk(HISTORICAL, m.evidence.receipt);
  }

  /** What `require_months` accepts of a month that is not a correction. */
  predicate RootAccepted(m: Month) {
    && m.receipts == []
    && (m.evidence.Published? ==> m.evidence.parentPublication == None && ReceiptOk(HISTORICAL, m.evidence.receipt))
  }

  lemma HeadIsLater(f: Family, r: Receipt)
    ensures ReceiptOk(f, r) && r.approval.proposal.version == f.amended && r.approval.proposal.claim.Some? ==>
      r.sequence > r.approval.proposal.claim.value.expectedSequence
  {
  }

  /** `require_amendment_months`: every month, or none. */
  method RequireAmendmentMonths(months: seq<Month>) returns (ok: bool)
    requires forall m :: m in months ==> |m.pins| >= 1
    ensures ok <==> forall m :: m in months ==> MonthAccepted(AMENDMENT, m)
  {
    for i := 0 to |months|
      invariant forall k :: 0 <= k < i ==> MonthAccepted(AMENDMENT, months[k])
    {
      var accepted := RequireAmendmentMonth(months[i]);
      if !accepted { return false; }
    }
    return true;
  }

  // ------------------------------------------------------------ what acceptance means

  /** The lineage is a path without repetition; only its end is a root. */
  lemma SimplePath(f: Family, pins: seq<Pin>, p: Proposal, receipts: seq<Receipt>, i: nat, j: nat)
    requires LineageAccepted(f, pins, p, receipts) && f.root != f.amended && i < j <= |receipts|
    ensures Current(p, receipts, i).revision != Current(p, receipts, j).revision
    ensures Current(p, receipts, i).version == f.amended
    ensures Current(p, receipts, |receipts|).version == f.root
  {
    assert NewRevision(p, receipts, j - 1);
    assert LinkAt(f, p, receipts, i);
    assert ReceiptOk(f, receipts[|receipts| - 1]);
  }

  /** The publications of a month, the latest first: what it published itself, then what it corrects. */
  function Chain(m: Month): seq<Receipt> {
    (if m.evidence.Published? then [m.evidence.receipt] else []) + m.receipts
  }

  /** A receipt is published after the one it corrects. */
  lemma CorrectsEarlier(f: Family, r: Receipt, predecessor: Receipt, original: Receipt)
    requires ReceiptOk(f, r) && LinkOk(f, r.approval.proposal, predecessor, original)
    ensures r.sequence > predecessor.sequence
  {
  }

  lemma NextDecreases(f: Family, m: Month, j: nat)
    requires MonthAccepted(f, m) && 0 < j < |Chain(m)|
    ensures Chain(m)[j - 1].sequence > Chain(m)[j].sequence
  {
    hide ReceiptOk, LinkOk;
    var k := if m.evidence.Published? then j - 1 else j;
    assert LinkAt(f, ProposalOf(m), m.receipts, k);
    assert k > 0 ==> ReceiptOk(f, m.receipts[k - 1]);
    CorrectsEarlier(f, Chain(m)[j - 1], m.receipts[k], m.receipts[|m.receipts| - 1]);
  }

  /** Publication sequences strictly decrease along the whole published chain, the month's own
      publication first. */
  lemma {:induction false} SequencesDecrease(f: Family, m: Month, i: nat, j: nat)
    requires MonthAccepted(f, m) && i < j < |Chain(m)|
    ensures Chain(m)[i].sequence > Chain(m)[j].sequence
    decreases j
  {
    hide MonthAccepted, Chain;
    NextDecreases(f, m, j);
    if i < j - 1 { SequencesDecrease(f, m, i, j - 1); }
  }

  /** They all state the definition of the month's own publication. */
  lemma OneDefinition(f: Family, m: Month, i: nat)
    requires MonthAccepted(f, m) && m.evidence.Published? && i < |Chain(m)|
    ensures Chain(m)[i].definition == m.evidence.receipt.definition
  {
  }

  /** The proposals share their month, policy approval and expected population, and all of them
      name the same root. */
  lemma {:induction false} SharedIdentity(f: Family, pins: seq<Pin>, p: Proposal, receipts: seq<Receipt>, i: nat)
    requires LineageAccepted(f, pins, p, receipts) && i <= |receipts|
    ensures var q := Current(p, receipts, i);
            && q.year == p.year && q.month == p.month && q.policyApproval == p.policyApproval
              && q.expected == p.expected
            && (i < |receipts| ==>
                  q.claim.Some? && q.claim.value.originalApproval == ApprovalBinding(receipts[|receipts| - 1].approval))
    decreases i
  {
    if i > 0 {
      SharedIdentity(f, pins, p, receipts, i - 1);
      assert LinkAt(f, p, receipts, i - 1);
    }
    assert i < |receipts| ==> LinkAt(f, p, receipts, i);
  }

  /** In a historical chain the times are monotone as well: a correction is proposed no earlier than
      anything before it was approved, and approved no earlier than it was proposed. */
  lemma {:induction false} TimesMonotone(pins: seq<Pin>, p: Proposal, receipts: seq<Receipt>, i: nat, j: nat)
    requires LineageAccepted(HISTORICAL, pins, p, receipts) && i <= j < |receipts|
    ensures Current(p, receipts, i).proposedAt >= receipts[j].approval.approvedAt
    ensures receipts[j].approval.approvedAt >= receipts[j].approval.proposal.proposedAt
    ensures receipts[i].approval.approvedAt >= receipts[j].approval.approvedAt
    decreases j
  {
    assert LinkAt(HISTORICAL, p, receipts, j) && ReceiptOk(HISTORICAL, receipts[j]);
    if i < j {
      TimesMonotone(pins, p, receipts, i, j - 1);
    }
  }

  // ------------------------------------------------------ what a link asks, clause by clause

  /** What is accepted of a retained receipt, by versions. */
  lemma ReceiptMeans(r: Receipt)
    ensures ReceiptOk(AMENDMENT, r) <==>
      && r.intact && r.approval.version == r.version && r.approval.proposal.version == r.version
      && (r.version == "v1" || (r.version == "v2" && CarriesClaim(r)))
    ensures ReceiptOk(HISTORICAL, r) <==>
      && r.intact && r.approval.version == r.version && r.approval.proposal.version == r.version
      && r.approval.approvedAt >= r.approval.proposal.proposedAt
      && (r.version == "v3" || (r.version == "v4" && CarriesClaim(r)))
  {
  }

  /** The receipt repeats its proposal's claim, and was published after what that expected. */
  predicate CarriesClaim(r: Receipt) {
    && r.lineage.Some? && r.approval.proposal.claim == r.lineage
    && r.lineage.value.expectedSequence < r.sequence
  }

  /** The number of the last day of a month, by counting days. */
  function LastDay(year: int, month: int): int
    requires 1 <= month <= 12
  {
    DayNumber(NextMonth(year, month)) - DayNumber(Date(year, month, 1))
  }

  lemma LastDayIs(year: int, month: int)
    requires 1 <= month <= 12
    ensures LastDay(year, month) == DaysIn(year, month)
  {
    MonthEnds(year, month);
  }

  /** Something that was observed is not what it was. */
  predicate Changed(a: Observations, b: Observations) {
    a.sourceCut != b.sourceCut || a.sourceRevision != b.sourceRevision || a.portfolios != b.portfolios
  }

  /** In an accepted lineage every correction changes its source, claims the whole month, gives a
      reason and unambiguous evidence, and binds its predecessor and the root. */
  lemma LinkMeans(f: Family, pins: seq<Pin>, p: Proposal, receipts: seq<Receipt>, i: nat)
    requires LineageAccepted(f, pins, p, receipts) && i < |receipts|
    requires 1 <= Current(p, receipts, i).month <= 12
    ensures Changed(receipts[i].approval.proposal.observations, Current(p, receipts, i).observations)
    ensures Current(p, receipts, i).claim.Some?
    ensures var q, claim := Current(p, receipts, i), Current(p, receipts, i).claim.value;
            && claim.affectedFrom == Date(q.year, q.month, 1)
            && claim.affectedTo == Date(q.year, q.month, LastDay(q.year, q.month))
            && claim.reasonGiven
            && (forall j, k :: 0 <= j < k < |claim.evidence| ==>
                  (claim.evidence[j].name, claim.evidence[j].version, claim.evidence[j].revision)
                  != (claim.evidence[k].name, claim.evidence[k].version, claim.evidence[k].revision))
    ensures var q, r, claim := Current(p, receipts, i), receipts[i], Current(p, receipts, i).claim.value;
            && claim.predecessorApproval == Binding("CompositeMonthlyEvaluationApproval", r.approval.version,
                                                    r.approval.proposal.revision, r.approval.contentHash)
            && claim.expectedAuthority == claim.predecessorApproval
            && claim.predecessorReceipt == Binding("CompositeMonthlyEligibilityPublicationReceipt", r.version,
                                                   r.approval.proposal.revision, r.contentHash)
            && claim.projectionParent == Binding("CompositeMembership", "v1", q.parentRevision, q.parentHash)
            && claim.projectionParent == r.membership && claim.expectedSequence == r.sequence
            && q.proposedAt >= r.approval.approvedAt
    ensures var root := receipts[|receipts| - 1].approval;
            Current(p, receipts, i).claim.value.originalApproval
            == Binding("CompositeMonthlyEvaluationApproval", root.version, root.proposal.revision, root.contentHash)
  {
    assert LinkAt(f, p, receipts, i);
    LastDayIs(Current(p, receipts, i).year, Current(p, receipts, i).month);
  }

  // ---------------------------------------------------------------- every correction there is

  /** What has been published of a month, the latest first: a root, and corrections of corrections. */
  predicate PublishedChain(f: Family, rs: seq<Receipt>) {
    && rs != [] && rs[|rs| - 1].version == f.root
    && (forall i :: 0 <= i < |rs| ==> ReceiptOk(f, rs[i]))
    && (forall i, j :: 0 <= i < j < |rs| ==> rs[i].approval.proposal.revision != rs[j].approval.proposal.revision)
    && (forall i :: 0 <= i < |rs| - 1 ==> LinkOk(f, rs[i].approval.proposal, rs[i + 1], rs[|rs| - 1]))
  }

  /** A correction of the latest receipt of a chain, with nothing left to choose but what is corrected,
      its revision, its time and its evidence. */
  function Correction(f: Family, rs: seq<Receipt>, revision: string, observations: Observations, proposedAt: int,
      evidence: seq<Binding>): Proposal
    requires rs != [] && 1 <= rs[0].approval.proposal.month <= 12
  {
    var r, root := rs[0], rs[|rs| - 1];
    var prior := r.approval.proposal;
    var approval :=
      Binding("CompositeMonthlyEvaluationApproval", r.approval.version, prior.revision, r.approval.contentHash);
    var claim := Claim(
      approval, approval,
      Binding("CompositeMonthlyEligibilityPublicationReceipt", r.version, prior.revision, r.contentHash),
      Binding("CompositeMonthlyEvaluationApproval", root.approval.version, root.approval.proposal.revision,
              root.approval.contentHash),
      r.membership, r.sequence, Date(prior.year, prior.month, 1),
      Date(prior.year, prior.month, LastDay(prior.year, prior.month)), true, evidence);
    Proposal(f.amended, revision, prior.year, prior.month, prior.policyApproval, prior.expected, observations,
             r.membership.revision, r.membership.digest, proposedAt, Some(claim))
  }

  /** The pins of receipts, field by field. */
  function Pins(rs: seq<Receipt>): seq<Pin> {
    seq(|rs|, i requires 0 <= i < |rs| =>
      Pin(rs[i].version, rs[i].approval.proposal.revision, rs[i].approval.contentHash, rs[i].contentHash,
          rs[i].responseDigest))
  }

  /** Such a correction is accepted exactly when something observed has changed, its revision is new,
      it is not proposed before what it corrects was approved, and its evidence is unambiguous. */
  lemma CorrectionAccepted(f: Family, rs: seq<Receipt>, revision: string, observations: Observations, proposedAt: int,
      evidence: seq<Binding>)
    requires PublishedChain(f, rs) && 1 <= rs[0].approval.proposal.month <= 12
    requires rs[0].membership.name == "CompositeMembership" && rs[0].membership.version == "v1"
    ensures LineageAccepted(f, Pins(rs), Correction(f, rs, revision, observations, proposedAt, evidence), rs) <==>
      && Changed(rs[0].approval.proposal.observations, observations)
      && (forall i :: 0 <= i < |rs| ==> rs[i].approval.proposal.revision != revision)
      && proposedAt >= rs[0].approval.approvedAt
      && (forall j, k :: 0 <= j < k < |evidence| ==>
            (evidence[j].name, evidence[j].version, evidence[j].revision)
            != (evidence[k].name, evidence[k].version, evidence[k].revision))
  {
    hide ReceiptOk, LinkOk, DistinctEvidence;
    var p := Correction(f, rs, revision, observations, proposedAt, evidence);
    LastDayIs(p.year, p.month);
    Unambiguous(evidence);
    FirstLink(f, rs, revision, observations, proposedAt, evidence);
    RestLinked(f, rs, p);
    forall i | 0 <= i < |rs| ensures NewRevision(p, rs, i) <==> rs[i].approval.proposal.revision != revision {}
  }

  lemma Unambiguous(evidence: seq<Binding>)
    ensures DistinctEvidence(evidence) <==>
      (forall j, k :: 0 <= j < k < |evidence| ==>
         (evidence[j].name, evidence[j].version, evidence[j].revision)
         != (evidence[k].name, evidence[k].version, evidence[k].revision))
  {
  }

  lemma FirstLink(f: Family, rs: seq<Receipt>, revision: string, observations: Observations, proposedAt: int,
      evidence: seq<Binding>)
    requires PublishedChain(f, rs) && 1 <= rs[0].approval.proposal.month <= 12
    requires rs[0].membership.name == "CompositeMembership" && rs[0].membership.version == "v1"
    ensures LinkOk(f, Correction(f, rs, revision, observations, proposedAt, evidence), rs[0], rs[|rs| - 1]) <==>
      && Changed(rs[0].approval.proposal.observations, observations)
      && revision != rs[0].approval.proposal.revision && revision != rs[|rs| - 1].approval.proposal.revision
      && proposedAt >= rs[0].approval.approvedAt && DistinctEvidence(evidence)
  {
    hide ReceiptOk, DistinctEvidence;
    LastDayIs(rs[0].approval.proposal.year, rs[0].approval.proposal.month);
  }

  lemma RestLinked(f: Family, rs: seq<Receipt>, p: Proposal)
    requires PublishedChain(f, rs)
    ensures forall i :: 0 < i < |rs| ==> LinkAt(f, p, rs, i)
    ensures LinkAt(f, p, rs, 0) <==> LinkOk(f, p, rs[0], rs[|rs| - 1])
  {
    hide ReceiptOk, LinkOk;
    forall i | 0 < i < |rs| ensures LinkAt(f, p, rs, i) {
      assert LinkOk(f, rs[i - 1].approval.proposal, rs[i], rs[|rs| - 1]);
    }
  }

  /** A root is such a chain, and so is one whose latest correction has been published. Corrections of
      any number are accepted one after another. */
  lemma ChainGrows(f: Family, pins: seq<Pin>, head: Receipt, receipts: seq<Receipt>)
    requires ReceiptOk(f, head)
    ensures head.version == f.root ==> PublishedChain(f, [head])
    ensures LineageAccepted(f, pins, head.approval.proposal, receipts) ==> PublishedChain(f, [head] + receipts)
  {
    hide ReceiptOk, LinkOk;
    if LineageAccepted(f, pins, head.approval.proposal, receipts) {
      var rs, p := [head] + receipts, head.approval.proposal;
      forall i | 0 <= i < |rs| - 1 ensures LinkOk(f, rs[i].approval.proposal, rs[i + 1], rs[|rs| - 1]) {
        assert LinkAt(f, p, receipts, i);
      }
      forall i, j | 0 <= i < j < |rs| ensures rs[i].approval.proposal.revision != rs[j].approval.proposal.revision {
        assert NewRevision(p, receipts, j - 1);
      }
    }
  }

  /** A published correction is accepted exactly with an accepted lineage, a receipt in order, one
      definition throughout, and the publication of what it corrects. */
  lemma PublishedAccepted(f: Family, m: Month)
    requires m.evidence.Published? && m.receipts != []
    ensures MonthAccepted(f, m) <==>
      && LineageAccepted(f, m.pins, m.evidence.receipt.approval.proposal, m.receipts)
      && ReceiptOk(f, m.evidence.receipt)
      && (forall r :: r in m.receipts ==> r.definition == m.evidence.receipt.definition)
      && m.evidence.parentPublication
         == Some(Publication(m.receipts[0].sequence, m.evidence.parentRevision, m.evidence.parentDigest, true))
      && m.evidence.decided
  {
    hide ReceiptOk, LinkOk, NewRevision;
    if LineageAccepted(f, m.pins, ProposalOf(m), m.receipts) {
      assert LinkAt(f, ProposalOf(m), m.receipts, 0);
      LinkedClaim(f, ProposalOf(m), m.receipts[0], m.receipts[|m.receipts| - 1]);
      HeadIsLater(f, m.evidence.receipt);
      if MonthAccepted(f, m) {
        forall r | r in m.receipts ensures r.definition == m.evidence.receipt.definition {
          var i :| 0 <= i < |m.receipts| && m.receipts[i] == r;
        }
      }
    }
  }

  /** Digests collide on no two of the receipts at hand. */
  ghost predicate NoCollision(a: seq<Receipt>, b: seq<Receipt>) {
    forall r, s :: r in a && s in b && ReceiptBinding(r) == ReceiptBinding(s) ==> r == s
  }

  /** A proposal has only one lineage: as far as digests do not collide, what the caller pins decides
      nothing about where a correction comes from. */
  lemma LineageUnique(f: Family, pins: seq<Pin>, pins': seq<Pin>, p: Proposal, a: seq<Receipt>, b: seq<Receipt>)
    requires LineageAccepted(f, pins, p, a) && LineageAccepted(f, pins', p, b)
    requires f.root != f.amended && NoCollision(a, b)
    ensures a == b
  {
    if |a| <= |b| {
      SameFront(f, pins, pins', p, a, b, |a|);
      assert a[..|a|] == a;
      RootEnds(f, pins, pins', p, a, b);
      assert b[..|b|] == b;
    } else {
      SameFront(f, pins, pins', p, a, b, |b|);
      assert b[..|b|] == b;
      RootEnds(f, pins', pins, p, b, a);
    }
  }

  /** A lineage that ends in a root does not go on. */
  lemma RootEnds(f: Family, pins: seq<Pin>, pins': seq<Pin>, p: Proposal, a: seq<Receipt>, b: seq<Receipt>)
    requires LineageAccepted(f, pins, p, a) && LineageAccepted(f, pins', p, b) && f.root != f.amended
    requires |a| <= |b| && a == b[..|a|]
    ensures |a| == |b|
  {
    assert ReceiptOk(f, a[|a| - 1]) && b[|a| - 1] == a[|a| - 1];
    if |a| < |b| { SimplePath(f, pins', p, b, |a|, |b|); }
  }

  /** Every proposal of a lineage names the receipt it corrects. */
  lemma LinkNames(f: Family, pins: seq<Pin>, p: Proposal, receipts: seq<Receipt>, i: nat)
    requires LineageAccepted(f, pins, p, receipts) && i < |receipts|
    ensures Current(p, receipts, i).claim.Some?
    ensures Current(p, receipts, i).claim.value.predecessorReceipt == ReceiptBinding(receipts[i])
    ensures Current(p, receipts, i).claim.value.predecessorApproval == ApprovalBinding(receipts[i].approval)
  {
    assert LinkAt(f, p, receipts, i);
  }

  lemma {:induction false} SameFront(f: Family, pins: seq<Pin>, pins': seq<Pin>, p: Proposal, a: seq<Receipt>,
      b: seq<Receipt>, k: nat)
    requires LineageAccepted(f, pins, p, a) && LineageAccepted(f, pins', p, b) && NoCollision(a, b)
    requires k <= |a| && k <= |b|
    ensures a[..k] == b[..k]
    decreases k
  {
    hide LineageAccepted, ReceiptBinding, ApprovalBinding;
    if k > 0 {
      SameFront(f, pins, pins', p, a, b, k - 1);
      assert k > 1 ==> a[..k - 1][k - 2] == b[..k - 1][k - 2];
      assert Current(p, a, k - 1) == Current(p, b, k - 1);
      LinkNames(f, pins, p, a, k - 1);
      LinkNames(f, pins', p, b, k - 1);
      assert a[k - 1] in a && b[k - 1] in b;
      assert a[..k] == a[..k - 1] + [a[k - 1]] && b[..k] == b[..k - 1] + [b[k - 1]];
    }
  }
}
