/**
  The revisions a merged pull request landed, scripts/enumerate_merged_revisions.py, and their
  dispatch under immutable tags, scripts/dispatch_merged_revisions.py. Git answers questions
  about a commit graph, and may fail to; GitHub is a store of tags and a log of dispatches.
*/
module Dispatch {
  import opened Wrappers

  type Sha = string

  /** Every commit with its parents. */
  type Graph = map<Sha, seq<Sha>>

  // --------------------------------------------------------------------- reachability

  /** A walk from a commit through parents. */
  predicate Walk(g: Graph, path: seq<Sha>) {
    path != [] && forall i :: 0 <= i < |path| - 1 ==> path[i] in g && path[i + 1] in g[path[i]]
  }

  ghost predicate Ancestor(g: Graph, x: Sha, of: Sha) {
    exists path :: Walk(g, path) && path[0] == of && path[|path| - 1] == x
  }

  lemma AncestorSelf(g: Graph, x: Sha)
    ensures Ancestor(g, x, x)
  {
    assert Walk(g, [x]);
  }

  /** The ancestors of a commit with one parent are the commit and the ancestors of that parent. */
  lemma AncestorStep(g: Graph, x: Sha, c: Sha, parent: Sha)
    requires c in g && g[c] == [parent]
    ensures Ancestor(g, x, c) <==> x == c || Ancestor(g, x, parent)
  {
    AncestorSelf(g, x);
    if Ancestor(g, x, c) && x != c {
      var path :| Walk(g, path) && path[0] == c && path[|path| - 1] == x;
      assert path[1] in g[path[0]];
      assert Walk(g, path[1..]);
    }
    if Ancestor(g, x, parent) {
      var path :| Walk(g, path) && path[0] == parent && path[|path| - 1] == x;
      assert Walk(g, [c] + path);
      assert ([c] + path)[0] == c && ([c] + path)[|path|] == x;
    }
  }

  // ----------------------------------------------------------------------- enumeration

  /** What git answers: `--is-ancestor`, and the output of the interval's `rev-list`. Either may
      fail, and nothing is known of what `rev-list` prints. */
  datatype Git = Git(graph: Graph, ancestry: (Sha, Sha) -> Option<bool>, interval: Option<seq<Sha>>)

  /** An ancestry answer that is given is right. */
  ghost predicate Truthful(git: Git) {
    forall x, of {:trigger Ancestor(git.graph, x, of)} :: git.ancestry(x, of).Some? ==>
      git.ancestry(x, of).value == Ancestor(git.graph, x, of)
  }

  function Previous(base: Sha, revisions: seq<Sha>, i: nat): Sha
    requires i <= |revisions|
  {
    if i == 0 then base else revisions[i - 1]
  }

  /** The checks on one revision. */
  predicate RevisionOk(git: Git, revisions: seq<Sha>, i: nat, base: Sha, mainTip: Sha)
    requires i < |revisions|
  {
    && git.ancestry(revisions[i], mainTip) == Some(true)
    && git.ancestry(revisions[i], base) == Some(false)
    && revisions[i] in git.graph && git.graph[revisions[i]] == [Previous(base, revisions, i)]
  }

  predicate Accepted(git: Git, base: Sha, merge: Sha, stated: int, mainTip: Sha) {
    && base != "" && merge != "" && git.interval.Some? && git.interval.value != []
    && |git.interval.value| <= stated
    && (forall i :: 0 <= i < |git.interval.value| ==> RevisionOk(git, git.interval.value, i, base, mainTip))
    && git.interval.value[|git.interval.value| - 1] == merge
  }

  /** Why a revision is refused: the first check it fails. */
  predicate RefusedFor(git: Git, revision: Sha, previous: Sha, base: Sha, mainTip: Sha, reason: string) {
    var onMain, inBase := git.ancestry(revision, mainTip), git.ancestry(revision, base);
    if onMain != Some(true) then reason == if onMain.None? then "ancestry_check_failed" else "not_on_main"
    else if inBase != Some(false) then reason == if inBase.None? then "ancestry_check_failed" else "inside_base_history"
    else if revision !in git.graph then reason == "git_failed"
    else if |git.graph[revision]| != 1 then reason == "not_single_parent"
    else git.graph[revision] != [previous] && reason == "not_contiguous"
  }

  predicate RefusedAt(git: Git, revisions: seq<Sha>, i: nat, base: Sha, mainTip: Sha, reason: string)
    requires i < |revisions|
  {
    RefusedFor(git, revisions[i], Previous(base, revisions, i), base, mainTip, reason)
  }

  /** The reason given is a true one, and the revisions before the one it concerns are in order. */
  predicate Because(git: Git, base: Sha, merge: Sha, stated: int, mainTip: Sha, reason: string) {
    if base == "" then reason == "base_sha_required"
    else if merge == "" then reason == "merge_commit_sha_required"
    else if git.interval.None? then reason == "git_failed"
    else
      var revisions := git.interval.value;
      if revisions == [] then reason == "empty_interval"
      else if |revisions| > stated then reason == "interval_exceeds_pr_commits"
      else if forall i :: 0 <= i < |revisions| ==> RevisionOk(git, revisions, i, base, mainTip) then
        revisions[|revisions| - 1] != merge && reason == "interval_tip_mismatch"
      else
        exists i :: 0 <= i < |revisions| && RefusedAt(git, revisions, i, base, mainTip, reason)
          && forall k :: 0 <= k < i ==> RevisionOk(git, revisions, k, base, mainTip)
  }

  /** The checks on one revision, in their order. */
  method Refusal(git: Git, revision: Sha, previous: Sha, base: Sha, mainTip: Sha) returns (reason: Option<string>)
    ensures reason.None? <==>
      && git.ancestry(revision, mainTip) == Some(true) && git.ancestry(revision, base) == Some(false)
      && revision in git.graph && git.graph[revision] == [previous]
    ensures reason.Some? ==> RefusedFor(git, revision, previous, base, mainTip, reason.value)
  {
    var onMain := git.ancestry(revision, mainTip);
    if onMain.None? { return Some("ancestry_check_failed"); }
    if !onMain.value { return Some("not_on_main"); }
    var inBase := git.ancestry(revision, base);
    if inBase.None? { return Some("ancestry_check_failed"); }
    if inBase.value { return Some("inside_base_history"); }
    if revision !in git.graph { return Some("git_failed"); }
    var parents := git.graph[revision];
    if |parents| != 1 { return Some("not_single_parent"); }
    if parents[0] != previous { return Some("not_contiguous"); }
    assert parents == [previous];
    return None;
  }

  /** `enumerate_merged_revisions`. */
  method EnumerateMergedRevisions(git: Git, base: Sha, merge: Sha, stated: int, mainTip: Sha)
    returns (r: Result<seq<Sha>>, notices: seq<int>)
    ensures r.Ok? <==> Accepted(git, base, merge, stated, mainTip)
    ensures r.Ok? ==> git.interval == Some(r.value)
    ensures r.Refused? ==> Because(git, base, merge, stated, mainTip, r.reason)
    ensures r.Ok? ==> notices == if |r.value| < stated then [stated - |r.value|] else []
  {
    notices := [];
    if base == "" { return Refused("base_sha_required"), notices; }
    if merge == "" { return Refused("merge_commit_sha_required"), notices; }
    if git.interval.None? { return Refused("git_failed"), notices; }
    var revisions := git.interval.value;
    if revisions == [] { return Refused("empty_interval"), notices; }
    if |revisions| > stated { return Refused("interval_exceeds_pr_commits"), notices; }
    if |revisions| < stated { notices := notices + [stated - |revisions|]; }
    var previous := base;
    for i := 0 to |revisions|
      invariant previous == Previous(base, revisions, i)
      invariant forall k :: 0 <= k < i ==> RevisionOk(git, revisions, k, base, mainTip)
    {
      var revision := revisions[i];
      ghost var ok := RevisionOk(git, revisions, i, base, mainTip);
      var refusal := Refusal(git, revision, previous, base, mainTip);
      if refusal.Some? {
        assert !ok && RefusedAt(git, revisions, i, base, mainTip, refusal.value);
        return Refused(refusal.value), notices;
      }
      previous := revision;
    }
    if previous != merge { return Refused("interval_tip_mismatch"), notices; }
    return Ok(revisions), notices;
  }

  // ---------------------------------------------------------- what acceptance means

  /** A chain of single-parent commits from the base, none of them in its history, to the merge. */
  ghost predicate Landed(g: Graph, base: Sha, merge: Sha, revisions: seq<Sha>) {
    && revisions != [] && revisions[|revisions| - 1] == merge
    && forall i :: 0 <= i < |revisions| ==> Linked(g, base, revisions, i)
  }

  /** The i-th revision has one parent, the one before it, and is not in the base's history. */
  ghost predicate Linked(g: Graph, base: Sha, revisions: seq<Sha>, i: nat)
    requires i < |revisions|
  {
    revisions[i] in g && g[revisions[i]] == [Previous(base, revisions, i)] && !Ancestor(g, revisions[i], base)
  }

  lemma AcceptedLanded(git: Git, base: Sha, merge: Sha, stated: int, mainTip: Sha)
    requires Truthful(git) && Accepted(git, base, merge, stated, mainTip)
    ensures Landed(git.graph, base, merge, git.interval.value)
    ensures forall i :: 0 <= i < |git.interval.value| ==> Ancestor(git.graph, git.interval.value[i], mainTip)
  {
    var revisions := git.interval.value;
    forall i | 0 <= i < |revisions|
      ensures Linked(git.graph, base, revisions, i) && Ancestor(git.graph, revisions[i], mainTip) {
      assert RevisionOk(git, revisions, i, base, mainTip);
    }
  }

  /** From the i-th revision one reaches the revisions up to it, and the base's history. */
  lemma {:induction false} ReachedFrom(g: Graph, base: Sha, merge: Sha, revisions: seq<Sha>, i: nat, x: Sha)
    requires Landed(g, base, merge, revisions) && i < |revisions|
    ensures Ancestor(g, x, revisions[i]) <==> x in revisions[..i + 1] || Ancestor(g, x, base)
    decreases i
  {
    assert Linked(g, base, revisions, i);
    AncestorStep(g, x, revisions[i], Previous(base, revisions, i));
    assert revisions[..i + 1] == revisions[..i] + [revisions[i]];
    if i > 0 { ReachedFrom(g, base, merge, revisions, i - 1, x); }
  }

  /** Whatever `rev-list` printed: an accepted list holds exactly the commits that can be reached
      from the merge commit and not from the base. */
  lemma LandedIsInterval(g: Graph, base: Sha, merge: Sha, revisions: seq<Sha>, x: Sha)
    requires Landed(g, base, merge, revisions)
    ensures x in revisions <==> Ancestor(g, x, merge) && !Ancestor(g, x, base)
  {
    ReachedFrom(g, base, merge, revisions, |revisions| - 1, x);
    assert revisions[..|revisions|] == revisions;
    if x in revisions {
      var i :| 0 <= i < |revisions| && revisions[i] == x;
      assert Linked(g, base, revisions, i);
    }
  }

  /** No revision is listed twice. */
  lemma {:induction false} LandedDistinct(g: Graph, base: Sha, merge: Sha, revisions: seq<Sha>, i: nat, j: nat)
    requires Landed(g, base, merge, revisions) && i < j < |revisions|
    ensures revisions[i] != revisions[j]
    decreases i
  {
    assert Linked(g, base, revisions, i) && Linked(g, base, revisions, j) && Linked(g, base, revisions, j - 1);
    if revisions[i] == revisions[j] {
      assert [Previous(base, revisions, i)] == [Previous(base, revisions, j)];
      assert Previous(base, revisions, i) == [Previous(base, revisions, i)][0] == [Previous(base, revisions, j)][0];
      if i > 0 {
        LandedDistinct(g, base, merge, revisions, i - 1, j - 1);
      } else {
        AncestorSelf(g, base);
      }
    }
  }

  /** There is only one list to accept: the order is forced, however the interval was printed. */
  lemma LandedUnique(g: Graph, base: Sha, merge: Sha, a: seq<Sha>, b: seq<Sha>)
    requires Landed(g, base, merge, a) && Landed(g, base, merge, b)
    ensures a == b
  {
    if |a| <= |b| {
      SameBack(g, base, merge, a, b, |a| - 1);
      NotLonger(g, base, merge, a, b);
    } else {
      SameBack(g, base, merge, a, b, |b| - 1);
      NotLonger(g, base, merge, b, a);
    }
    forall i | 0 <= i < |a| ensures a[i] == b[i] {
      SameBack(g, base, merge, a, b, |a| - 1 - i);
    }
  }

  /** A list that goes back beyond the base would have the base in it. */
  lemma NotLonger(g: Graph, base: Sha, merge: Sha, a: seq<Sha>, b: seq<Sha>)
    requires Landed(g, base, merge, a) && Landed(g, base, merge, b) && |a| <= |b| && a[0] == b[|b| - |a|]
    ensures |a| == |b|
  {
    var k := |b| - |a|;
    assert k > 0 ==> Linked(g, base, b, k - 1);
    assert Linked(g, base, a, 0) && Linked(g, base, b, k);
    AncestorSelf(g, base);
    assert [base][0] == [Previous(base, b, k)][0];
  }

  lemma {:induction false} SameBack(g: Graph, base: Sha, merge: Sha, a: seq<Sha>, b: seq<Sha>, k: nat)
    requires Landed(g, base, merge, a) && Landed(g, base, merge, b) && k < |a| && k < |b|
    ensures a[|a| - 1 - k] == b[|b| - 1 - k]
    decreases k
  {
    if k > 0 {
      SameBack(g, base, merge, a, b, k - 1);
      var c := a[|a| - k];
      assert c == b[|b| - 1 - (k - 1)];
      assert Linked(g, base, a, |a| - k) && Linked(g, base, b, |b| - k);
      assert g[c] == [a[|a| - 1 - k]] && g[c] == [b[|b| - 1 - k]];
      assert [a[|a| - 1 - k]][0] == [b[|b| - 1 - k]][0];
    }
  }

  // -------------------------------------------------------------------------- dispatch

  function Ref(revision: Sha): string { "main-releasability-" + revision }

  /** The tag is the one made for one of the first `n` revisions. */
  ghost predicate MadeFor(revisions: seq<Sha>, n: nat, ref: string, sha: Sha) {
    exists k :: 0 <= k < n && k < |revisions| && ref == Ref(revisions[k]) && sha == revisions[k]
  }

  /** How a call of gh that changes something ends: with code 0, or with another code before or
      after it has taken effect. */
  datatype Gh = Success | LostBefore | LostAfter

  /** How the calls for one revision end; `read` says whether an existing tag can be read. */
  datatype Calls = Calls(read: bool, create: Gh, dispatch: Gh)

  class GitHub {
    var tags: map<string, Sha>
    var dispatched: seq<Sha>

    constructor ()
      ensures tags == map[] && dispatched == []
    {
      tags, dispatched := map[], [];
    }

    /** `ensure_dispatch_ref`. Creating a tag that exists fails. */
    method EnsureDispatchRef(revision: Sha, calls: Calls) returns (ok: bool)
      modifies this
      ensures dispatched == old(dispatched)
      ensures Ref(revision) in old(tags) ==>
          tags == old(tags) && (ok <==> calls.read && tags[Ref(revision)] == revision)
      ensures Ref(revision) !in old(tags) ==>
        tags == (if calls.create == LostBefore then old(tags) else old(tags)[Ref(revision) := revision])
        && (ok <==> calls.create == Success)
    {
      if calls.read && Ref(revision) in tags { return tags[Ref(revision)] == revision; }
      if Ref(revision) in tags || calls.create == LostBefore { return false; }
      tags := tags[Ref(revision) := revision];
      return calls.create == Success;
    }

    /** `dispatch_gate`: the workflow runs on whatever the tag names. */
    method DispatchGate(revision: Sha, calls: Calls) returns (ok: bool)
      requires Ref(revision) in tags
      modifies this
      ensures tags == old(tags)
      ensures dispatched == old(dispatched) + (if calls.dispatch == LostBefore then [] else [tags[Ref(revision)]])
      ensures ok <==> calls.dispatch == Success
    {
      if calls.dispatch == LostBefore { return false; }
      dispatched := dispatched + [tags[Ref(revision)]];
      return calls.dispatch == Success;
    }

    /** The loop of `dispatch_merged_revisions`. */
    method DispatchAll(revisions: seq<Sha>, calls: seq<Calls>) returns (ok: bool, sent: nat)
      requires |calls| >= |revisions|
      modifies this
      ensures sent <= |revisions| && (ok ==> sent == |revisions|)
      ensures dispatched == old(dispatched) + revisions[..sent]
      ensures Tagged(tags, revisions, sent) && Extends(old(tags), tags, revisions, sent + 1)
      ensures AllWell(revisions, calls) && OwnTags(old(tags)) ==> ok
    {
      hide Ref;
      for i := 0 to |revisions|
        invariant dispatched == old(dispatched) + revisions[..i]
        invariant Tagged(tags, revisions, i) && Extends(old(tags), tags, revisions, i)
        invariant OwnTags(old(tags)) ==> OwnTags(tags)
      {
        assert revisions[..i + 1] == revisions[..i] + [revisions[i]];
        ghost var before := tags;
        var ready := EnsureDispatchRef(revisions[i], calls[i]);
        TagsAfter(old(tags), before, tags, revisions, i);
        if !ready { return false, i; }
        var went := DispatchGate(revisions[i], calls[i]);
        if !went { return false, if calls[i].dispatch == LostBefore then i else i + 1; }
      }
      assert revisions[..|revisions|] == revisions;
      return true, |revisions|;
    }

    /** `dispatch_merged_revisions`. `settings` is what the merge settings read as, if they can be read. */
    method DispatchMergedRevisions(git: Git, settings: Option<string>, base: Sha, merge: Sha, stated: int,
                                   mainTip: Option<Sha>, calls: seq<Calls>)
      returns (r: Result<seq<Sha>>, sent: nat)
      requires git.interval.Some? ==> |calls| >= |git.interval.value|
      modifies this
      // without an accepted enumeration there is no effect at all
      ensures !MayDispatch(git, settings, base, merge, stated, mainTip) ==>
        r.Refused? && sent == 0 && tags == old(tags) && dispatched == old(dispatched)
        && (settings.None? ==> r.reason == "merge_methods_unreadable")
        && (settings.Some? && settings.value != "false,false,true" ==> r.reason == "merge_methods_changed")
        && (settings == Some("false,false,true") && mainTip.None? ==> r.reason == "git_failed")
        && (settings == Some("false,false,true") && mainTip.Some? ==>
              Because(git, base, merge, stated, mainTip.value, r.reason))
      // with one, a prefix of the revisions is dispatched, oldest first, under tags that name them;
      // no tag is moved, and no other tag appears
      ensures MayDispatch(git, settings, base, merge, stated, mainTip) ==>
        var revisions := git.interval.value;
        && sent <= |revisions| && dispatched == old(dispatched) + revisions[..sent]
        && Tagged(tags, revisions, sent) && Extends(old(tags), tags, revisions, sent + 1)
        && (r.Ok? ==> r.value == revisions && sent == |revisions|)
        && (r.Refused? ==> r.reason == "dispatch_failed")
        && (AllWell(revisions, calls) && OwnTags(old(tags)) ==> r.Ok?)
    {
      sent := 0;
      if settings.None? { return Refused("merge_methods_unreadable"), 0; }
      if settings.value != "false,false,true" { return Refused("merge_methods_changed"), 0; }
      if mainTip.None? { return Refused("git_failed"), 0; }
      var enumerated, notices := EnumerateMergedRevisions(git, base, merge, stated, mainTip.value);
      if enumerated.Refused? { return enumerated, 0; }
      var ok: bool;
      ok, sent := DispatchAll(enumerated.value, calls);
      return if ok then enumerated else Refused("dispatch_failed"), sent;
    }
  }

  /** The merge settings are read and unchanged, main is fetched, and the enumeration is accepted. */
  predicate MayDispatch(git: Git, settings: Option<string>, base: Sha, merge: Sha, stated: int, mainTip: Option<Sha>) {
    settings == Some("false,false,true") && mainTip.Some? && Accepted(git, base, merge, stated, mainTip.value)
  }

  /** The first `n` revisions have tags that name them. */
  ghost predicate Tagged(tags: map<string, Sha>, revisions: seq<Sha>, n: nat)
    requires n <= |revisions|
  {
    forall k :: 0 <= k < n ==> Ref(revisions[k]) in tags && tags[Ref(revisions[k])] == revisions[k]
  }

  /** No tag is moved, and a new one is made for one of the first `n` revisions. */
  ghost predicate Extends(tags: map<string, Sha>, tags': map<string, Sha>, revisions: seq<Sha>, n: nat) {
    && (forall ref :: ref in tags ==> ref in tags' && tags'[ref] == tags[ref])
    && (forall ref :: ref in tags' && ref !in tags ==> MadeFor(revisions, n, ref, tags'[ref]))
  }

  /** Every tag of this family names the commit it is called after. */
  ghost predicate OwnTags(tags: map<string, Sha>) {
    forall x :: Ref(x) in tags ==> tags[Ref(x)] == x
  }

  predicate AllWell(revisions: seq<Sha>, calls: seq<Calls>)
    requires |calls| >= |revisions|
  {
    forall k :: 0 <= k < |revisions| ==> calls[k] == Calls(true, Success, Success)
  }

  lemma TagsAfter(tags0: map<string, Sha>, tags: map<string, Sha>, tags': map<string, Sha>, revisions: seq<Sha>, i: nat)
    requires i < |revisions| && Tagged(tags, revisions, i) && Extends(tags0, tags, revisions, i)
    requires tags' == tags || (Ref(revisions[i]) !in tags && tags' == tags[Ref(revisions[i]) := revisions[i]])
    ensures Tagged(tags', revisions, i) && Extends(tags0, tags', revisions, i + 1)
    ensures OwnTags(tags) ==> OwnTags(tags')
  {
    hide Ref;
    RefInjective(revisions[i]);
    forall ref | ref in tags' && ref !in tags0 ensures MadeFor(revisions, i + 1, ref, tags'[ref]) {
      if ref in tags { assert MadeFor(revisions, i, ref, tags[ref]); }
    }
  }

  /** Different revisions have different tags. */
  lemma RefInjective(x: Sha)
    ensures forall y :: Ref(x) == Ref(y) ==> x == y
  {
    var prefix := "main-releasability-";
    forall y | Ref(x) == Ref(y) ensures x == y {
      assert (prefix + x)[|prefix|..] == x && (prefix + y)[|prefix|..] == y;
    }
  }
}
