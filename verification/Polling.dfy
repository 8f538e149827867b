/**
  The poll loop for asynchronous analytics results, src/app/clients/performance_client.py. The
  source says when its result may next be polled, the client how long it waits altogether.
  Time is a real number; a sleep takes exactly as long as it was asked to, a request as long
  as it happens to take, and everything else no time.
*/
module Polling {
  import opened Wrappers

  /** The Retry-After header: absent, not an integer, or an integer. */
  datatype Header = Absent | Unparseable | Seconds(value: int)

  /** What the loop reads of a payload: is the result there, and `recommended_poll_after_seconds`
      when it is an integer. */
  datatype Payload = Payload(id: int, complete: bool, recommended: Option<int>)

  datatype Reply = Reply(status: int, payload: Payload, header: Header)

  /** A request: when it was sent, when its reply was there, and the reply. */
  datatype Poll = Poll(asked: real, received: real, reply: Reply)

  datatype Sleep = Sleep(from: real, till: real)

  /** `_stated_poll_delay`. */
  method StatedPollDelay(payload: Payload, header: Header) returns (delay: Option<int>)
    ensures delay == Stated(payload, header)
  {
    var stated: Option<int> := None;
    match header {
      case Absent =>
      case Unparseable =>
      case Seconds(value) => stated := Some(value);
    }
    if stated == None { stated := payload.recommended; }
    if stated == None || stated.value <= 0 { return None; }
    return stated;
  }

  /** The wait a reply states: that of its header if that is an integer, else that of its payload;
      a wait that is not positive states nothing. */
  function Stated(payload: Payload, header: Header): (r: Option<int>)
    ensures r.Some? ==> r.value > 0
    ensures forall n ::
      r == Some(n) <==> n > 0 && (header == Seconds(n) || (!header.Seconds? && payload.recommended == Some(n)))
  {
    var said := if header.Seconds? then Some(header.value) else payload.recommended;
    if said.Some? && said.value > 0 then said else None
  }

  /** A positive recommendation is hidden exactly by an integer header that is zero or negative. */
  lemma RecommendationHidden(id: int, complete: bool, n: int, header: Header)
    requires n > 0
    ensures Stated(Payload(id, complete, Some(n)), header) == None <==> header.Seconds? && header.value <= 0
  {
  }

  predicate Terminal(reply: Reply) { reply.status >= 400 || reply.payload.complete }

  /** What has been polled, in order, and the answer the loop starts from. */
  datatype Trace = Trace(start: real, fallback: Payload, polls: seq<Poll>)

  /** When the reply before poll `k` was there. */
  function Since(t: Trace, k: nat): real
    requires k <= |t.polls|
  {
    if k == 0 then t.start else t.polls[k - 1].received
  }

  /** The wait that the reply before poll `k` states. */
  function StatedBefore(t: Trace, k: nat): Option<int>
    requires k <= |t.polls|
  {
    if k == 0 then Stated(t.fallback, Absent)
    else Stated(t.polls[k - 1].reply.payload, t.polls[k - 1].reply.header)
  }

  /** The linear fallback. */
  function Linear(backoff: real, attempt: nat): real { backoff * attempt as real }

  /** How long the loop wants to wait before poll `k`. */
  function WaitBefore(t: Trace, k: nat, backoff: real): real
    requires k <= |t.polls|
  {
    var stated := StatedBefore(t, k);
    if stated.Some? then stated.value as real else Linear(backoff, k)
  }

  /** The wait before poll `k` ends within the budget; without a wait there is budget left. */
  predicate Affordable(t: Trace, k: nat, backoff: real, deadline: real)
    requires k <= |t.polls|
  {
    var wait := WaitBefore(t, k, backoff);
    if wait > 0.0 then Since(t, k) + wait <= deadline else Since(t, k) < deadline
  }

  /** Poll `k` is asked after exactly its wait, and only if that could be afforded. */
  predicate PollOk(t: Trace, k: nat, backoff: real, deadline: real)
    requires k < |t.polls|
  {
    var wait := WaitBefore(t, k, backoff);
    && Affordable(t, k, backoff, deadline)
    && t.polls[k].asked == Since(t, k) + if wait > 0.0 then wait else 0.0
  }

  type Duration = r: real | r >= 0.0

  /** The answers of the world: a reply and its latency for every attempt. */
  datatype World = World(replies: seq<Reply>, latencies: seq<Duration>)

  /** The polls happened as the world answers, each within the budget and after its wait, and all
      but perhaps the last got an answer that is not terminal. */
  ghost predicate Follows(t: Trace, w: World, backoff: real, deadline: real) {
    && |t.polls| <= |w.replies| && |t.polls| <= |w.latencies|
    && forall k {:trigger PollOk(t, k, backoff, deadline)} :: 0 <= k < |t.polls| ==>
         && PollOk(t, k, backoff, deadline)
         && t.polls[k].reply == w.replies[k] && t.polls[k].received == t.polls[k].asked + w.latencies[k]
         && (k < |t.polls| - 1 ==> !Terminal(t.polls[k].reply))
  }

  /** The loop is over: a terminal answer, no attempt left, or no budget for the next wait. */
  ghost predicate Over(t: Trace, attempts: int, backoff: real, deadline: real) {
    || (t.polls != [] && Terminal(t.polls[|t.polls| - 1].reply))
    || |t.polls| >= attempts
    || !Affordable(t, |t.polls|, backoff, deadline)
  }

  lemma FollowsOn(t: Trace, p: Poll, w: World, backoff: real, deadline: real)
    requires Follows(t, w, backoff, deadline) && |t.polls| < |w.replies| && |t.polls| < |w.latencies|
    requires t.polls != [] ==> !Terminal(t.polls[|t.polls| - 1].reply)
    requires p.reply == w.replies[|t.polls|] && p.received == p.asked + w.latencies[|t.polls|]
    requires PollOk(t.(polls := t.polls + [p]), |t.polls|, backoff, deadline)
    ensures Follows(t.(polls := t.polls + [p]), w, backoff, deadline)
  {
    var t' := t.(polls := t.polls + [p]);
    forall k | 0 <= k < |t'.polls|
      ensures PollOk(t', k, backoff, deadline)
              && t'.polls[k].reply == w.replies[k] && t'.polls[k].received == t'.polls[k].asked + w.latencies[k]
              && (k < |t'.polls| - 1 ==> !Terminal(t'.polls[k].reply)) {
      if k < |t.polls| { assert PollOk(t, k, backoff, deadline); }
    }
  }

  /** `_poll_analytics_result`. */
  method PollAnalyticsResult(
    fallbackStatus: int, fallback: Payload, maxRetries: int, backoff: real, budget: real, start: real, w: World
  ) returns (status: int, payload: Payload, trace: Trace, sleeps: seq<Sleep>)
    requires |w.replies| == |w.latencies| >= maxRetries + 8
    ensures trace.start == start && trace.fallback == fallback
    ensures Follows(trace, w, backoff, start + budget) && Over(trace, maxRetries + 8, backoff, start + budget)
    ensures |trace.polls| <= if maxRetries + 8 > 0 then maxRetries + 8 else 0
    ensures forall i :: 0 <= i < |sleeps| ==> start <= sleeps[i].from < sleeps[i].till <= start + budget
    ensures trace.polls == [] ==> status == fallbackStatus && payload == fallback
    ensures trace.polls != [] ==>
      status == trace.polls[|trace.polls| - 1].reply.status && payload == trace.polls[|trace.polls| - 1].reply.payload
  {
    hide Linear, Stated;
    var now := start;
    var deadline := now + budget;
    status, payload, trace, sleeps := fallbackStatus, fallback, Trace(start, fallback, []), [];
    var delay := StatedPollDelay(fallback, Absent);
    for attempt := 0 to if maxRetries + 8 > 0 then maxRetries + 8 else 0
      invariant attempt == |trace.polls| && trace.start == start && trace.fallback == fallback
      invariant now == Since(trace, attempt) >= start && delay == StatedBefore(trace, attempt)
      invariant Follows(trace, w, backoff, deadline)
      invariant trace.polls != [] ==> !Terminal(trace.polls[attempt - 1].reply)
      invariant forall i :: 0 <= i < |sleeps| ==> start <= sleeps[i].from < sleeps[i].till <= deadline
      invariant trace.polls == [] ==> status == fallbackStatus && payload == fallback
      invariant trace.polls != [] ==>
        status == trace.polls[attempt - 1].reply.status && payload == trace.polls[attempt - 1].reply.payload
    {
      var wait := if delay.Some? then delay.value as real else Linear(backoff, attempt);
      assert wait == WaitBefore(trace, attempt, backoff);
      if wait > 0.0 {
        if now + wait > deadline { return; }
        sleeps := sleeps + [Sleep(now, now + wait)];
        now := now + wait;
      } else if now >= deadline {
        return;
      }
      var reply := w.replies[attempt];
      var poll := Poll(now, now + w.latencies[attempt], reply);
      FollowsOn(trace, poll, w, backoff, deadline);
      trace := trace.(polls := trace.polls + [poll]);
      now := poll.received;
      status, payload := reply.status, reply.payload;
      if Terminal(reply) { return; }
      delay := StatedPollDelay(reply.payload, reply.header);
    }
  }

  /** In every run of the loop a stated wait is never shortened: between a reply and the next poll
      the stated number of seconds pass, and they end within the budget. */
  lemma StatedWaitElapses(t: Trace, w: World, k: nat, backoff: real, deadline: real)
    requires Follows(t, w, backoff, deadline) && k < |t.polls| && StatedBefore(t, k).Some?
    ensures t.polls[k].asked - Since(t, k) == StatedBefore(t, k).value as real
    ensures t.polls[k].asked <= deadline
  {
    assert PollOk(t, k, backoff, deadline);
  }

  /** Without a stated wait the k-th poll is asked `k` times the backoff after the last reply: at once
      the first time, and longer by one backoff each time. */
  lemma LinearWaitElapses(t: Trace, w: World, k: nat, backoff: real, deadline: real)
    requires Follows(t, w, backoff, deadline) && k < |t.polls| && StatedBefore(t, k).None? && backoff >= 0.0
    ensures t.polls[k].asked - Since(t, k) == k as real * backoff
    ensures t.polls[k].asked <= deadline
  {
    assert PollOk(t, k, backoff, deadline);
  }

  /** What ends the loop, and nothing before it does: an error status or a complete result, no attempt
      left, or a wait that would end after the deadline. */
  lemma EndsForAReason(t: Trace, w: World, attempts: int, backoff: real, deadline: real)
    requires Follows(t, w, backoff, deadline) && Over(t, attempts, backoff, deadline) && backoff >= 0.0
    ensures forall k :: 0 <= k < |t.polls| - 1 ==>
      t.polls[k].reply.status < 400 && !t.polls[k].reply.payload.complete
    ensures var n := |t.polls|;
            || (n > 0 && (t.polls[n - 1].reply.status >= 400 || t.polls[n - 1].reply.payload.complete))
            || n >= attempts
            || Since(t, n) >= deadline
            || (match StatedBefore(t, n)
                case Some(seconds) => Since(t, n) + seconds as real > deadline
                case None => Since(t, n) + n as real * backoff > deadline)
  {
    hide Stated;
    forall k | 0 <= k < |t.polls| - 1
      ensures t.polls[k].reply.status < 400 && !t.polls[k].reply.payload.complete {
      assert PollOk(t, k, backoff, deadline);
    }
  }

  /** Given the same answers there is only one thing the loop can do, poll by poll. */
  lemma LoopDetermined(
    a: Trace, b: Trace, w: World, attempts: int, backoff: real, deadline: real)
    requires a.start == b.start && a.fallback == b.fallback
    requires Follows(a, w, backoff, deadline) && Over(a, attempts, backoff, deadline) && |a.polls| <= attempts
    requires Follows(b, w, backoff, deadline) && Over(b, attempts, backoff, deadline) && |b.polls| <= attempts
    ensures a == b
  {
    var n := if |a.polls| <= |b.polls| then |a.polls| else |b.polls|;
    SamePrefix(a, b, w, backoff, deadline, n);
    if |a.polls| < |b.polls| {
      LongerIsNotOver(a, b, w, attempts, backoff, deadline);
    } else if |b.polls| < |a.polls| {
      LongerIsNotOver(b, a, w, attempts, backoff, deadline);
    } else {
      assert a.polls[..n] == a.polls && b.polls[..n] == b.polls;
    }
  }

  lemma {:induction false} SamePrefix(a: Trace, b: Trace, w: World, backoff: real, deadline: real, k: nat)
    requires a.start == b.start && a.fallback == b.fallback && k <= |a.polls| && k <= |b.polls|
    requires Follows(a, w, backoff, deadline) && Follows(b, w, backoff, deadline)
    ensures a.polls[..k] == b.polls[..k]
  {
    hide Linear, Stated, Terminal;
    if k > 0 {
      SamePrefix(a, b, w, backoff, deadline, k - 1);
      assert k > 1 ==> a.polls[k - 2] == a.polls[..k - 1][k - 2] && b.polls[k - 2] == b.polls[..k - 1][k - 2];
      assert PollOk(a, k - 1, backoff, deadline) && PollOk(b, k - 1, backoff, deadline);
      assert a.polls[..k] == a.polls[..k - 1] + [a.polls[k - 1]] && b.polls[..k] == b.polls[..k - 1] + [b.polls[k - 1]];
    }
  }

  lemma LongerIsNotOver(a: Trace, b: Trace, w: World, attempts: int, backoff: real, deadline: real)
    requires a.start == b.start && a.fallback == b.fallback && |a.polls| < |b.polls| <= attempts
    requires a.polls[..|a.polls|] == b.polls[..|a.polls|] && Follows(b, w, backoff, deadline)
    ensures !Over(a, attempts, backoff, deadline)
  {
    hide Linear, Stated;
    var n := |a.polls|;
    assert n > 0 ==> a.polls[n - 1] == a.polls[..n][n - 1] && b.polls[n - 1] == b.polls[..n][n - 1];
    assert n > 0 ==> PollOk(b, n - 1, backoff, deadline);
    assert PollOk(b, n, backoff, deadline);
  }
}
