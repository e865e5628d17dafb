/** The events of the calls of a queue while they execute: which start and end, in what order, and how many are under
    way at once. */
module ExecutionTrace {
  import opened ToolCalls
  import opened Dispatch

  function EndOf(t: Tools, id: nat): Event {
    if t.run(id).Ran? then ToolCompleted(id) else ToolFailed(id)
  }

  predicate DistinctIds(q: seq<Entry>) {
    forall i, j :: 0 <= i < j < |q| ==> q[i].id != q[j].id
  }

  /** One call after the other: each has ended before the next starts. */
  function Serial(t: Tools, q: seq<Entry>): (es: seq<Event>)
    ensures |es| == 2 * |q|
    ensures forall i :: 0 <= i < |q| ==> es[2 * i] == ToolStarted(q[i].id) && es[2 * i + 1] == EndOf(t, q[i].id)
  {
    if q == [] then []
    else
      var init, id := q[..|q| - 1], q[|q| - 1].id;
      Serial(t, init) + [ToolStarted(id)] + [EndOf(t, id)]
  }

  lemma SerialSnoc(t: Tools, q: seq<Entry>, e: Entry)
    ensures Serial(t, q + [e]) == Serial(t, q) + [ToolStarted(e.id)] + [EndOf(t, e.id)]
  {
    assert (q + [e])[..|q|] == q;
  }

  /** How many calls have started and not ended. */
  function InProgress(es: seq<Event>): int {
    if es == [] then 0
    else
      InProgress(es[..|es| - 1]) +
        match es[|es| - 1] {
          case ToolStarted(_) => 1
          case ToolCompleted(_) => -1
          case ToolFailed(_) => -1
          case _ => 0
        }
  }

  /** At no time are more than this many calls under way. */
  predicate AtMost(es: seq<Event>, n: nat) {
    forall k :: 0 <= k <= |es| ==> InProgress(es[..k]) <= n
  }

  /** The call starts and, later, ends. */
  predicate RunsThrough(t: Tools, es: seq<Event>, id: nat) {
    exists s, e :: 0 <= s < e < |es| && es[s] == ToolStarted(id) && es[e] == EndOf(t, id)
  }

  /** The calls of a queue side by side: the same events as one by one, each once, in an order in which every call starts
      before it ends and never more than so many are under way. */
  ghost predicate Parallel(t: Tools, q: seq<Entry>, es: seq<Event>, n: nat) {
    && multiset(es) == multiset(Serial(t, q))
    && (forall i :: 0 <= i < |q| ==> RunsThrough(t, es, q[i].id))
    && AtMost(es, n)
  }

  /** The execution of a batch: the readers side by side, and after them the writers one by one. */
  ghost predicate Executes(t: Tools, ps: seq<Proposal>, first: nat, n: nat, es: seq<Event>) {
    exists k: nat :: k <= |es| && ReadsThenWrites(t, ps, first, n, es, k)
  }

  ghost predicate ReadsThenWrites(t: Tools, ps: seq<Proposal>, first: nat, n: nat, es: seq<Event>, k: nat)
    requires k <= |es|
  {
    Parallel(t, QueueOf(t, ps, first, true), es[..k], n) && es[k..] == Serial(t, QueueOf(t, ps, first, false))
  }

  /** The last thing that the log got is the execution of the batch. */
  ghost predicate EndsExecuting(t: Tools, ps: seq<Proposal>, first: nat, n: nat, log0: seq<Event>, log: seq<Event>) {
    exists m: nat :: |log0| <= m <= |log| && Executes(t, ps, first, n, log[m..])
  }

  lemma ReadsWritten(t: Tools, ps: seq<Proposal>, first: nat, n: nat, es: seq<Event>, ws: seq<Event>)
    requires Parallel(t, QueueOf(t, ps, first, true), es, n) && ws == Serial(t, QueueOf(t, ps, first, false))
    ensures Executes(t, ps, first, n, es + ws)
  {
    assert (es + ws)[..|es|] == es && (es + ws)[|es|..] == ws;
    assert ReadsThenWrites(t, ps, first, n, es + ws, |es|);
  }

  lemma BehindLog(log: seq<Event>, es: seq<Event>, ws: seq<Event>)
    ensures (log + es + ws)[|log|..] == es + ws
  {
  }

  lemma ReadsAndWrites(t: Tools, ps: seq<Proposal>, first: nat, n: nat, log: seq<Event>, es: seq<Event>)
    requires Parallel(t, QueueOf(t, ps, first, true), es, n)
    ensures EndsExecuting(t, ps, first, n, log, log + es + Serial(t, QueueOf(t, ps, first, false)))
  {
    var ws := Serial(t, QueueOf(t, ps, first, false));
    ReadsWritten(t, ps, first, n, es, ws);
    BehindLog(log, es, ws);
  }

  lemma OneMore(es: seq<Event>, e: Event, n: nat)
    requires AtMost(es, n) && InProgress(es + [e]) <= n
    ensures AtMost(es + [e], n)
  {
    forall k | 0 <= k <= |es + [e]| ensures InProgress((es + [e])[..k]) <= n {
      if k <= |es| {
        assert (es + [e])[..k] == es[..k];
      } else {
        assert (es + [e])[..k] == es + [e];
      }
    }
  }

  lemma StartCounts(es: seq<Event>, id: nat)
    ensures InProgress(es + [ToolStarted(id)]) == InProgress(es) + 1
  {
    assert (es + [ToolStarted(id)])[..|es|] == es;
  }

  lemma EndCounts(t: Tools, es: seq<Event>, id: nat)
    ensures InProgress(es + [EndOf(t, id)]) == InProgress(es) - 1
  {
    assert (es + [EndOf(t, id)])[..|es|] == es;
  }

  lemma StaysThrough(t: Tools, es: seq<Event>, e: Event, id: nat)
    requires RunsThrough(t, es, id)
    ensures RunsThrough(t, es + [e], id)
  {
    var s, d :| 0 <= s < d < |es| && es[s] == ToolStarted(id) && es[d] == EndOf(t, id);
    assert (es + [e])[s] == ToolStarted(id) && (es + [e])[d] == EndOf(t, id);
  }

  // ----- while the queue executes -----

  /** The events so far, with some calls of the queue waiting and some under way. */
  ghost predicate Tracing(t: Tools, q: seq<Entry>, es: seq<Event>, waiting: set<nat>, running: set<nat>, n: nat) {
    && |es| + 2 * |waiting| + |running| == 2 * |q|
    && InProgress(es) == |running| && AtMost(es, n)
    && (forall i :: i in running && i < |q| ==> ToolStarted(q[i].id) in es)
    && (forall i :: 0 <= i < |q| && i !in waiting && i !in running ==> RunsThrough(t, es, q[i].id))
  }

  lemma TraceStarts(t: Tools, q: seq<Entry>, es: seq<Event>, waiting: set<nat>, running: set<nat>, n: nat, i: nat)
    requires Tracing(t, q, es, waiting, running, n) && waiting !! running && i in waiting && i < |q| && |running| < n
    ensures Tracing(t, q, es + [ToolStarted(q[i].id)], waiting - {i}, running + {i}, n)
  {
    var e := ToolStarted(q[i].id);
    StartCounts(es, q[i].id);
    OneMore(es, e, n);
    forall k | 0 <= k < |q| && k !in waiting - {i} && k !in running + {i} ensures RunsThrough(t, es + [e], q[k].id) {
      StaysThrough(t, es, e, q[k].id);
    }
  }

  lemma TraceEnds(t: Tools, q: seq<Entry>, es: seq<Event>, waiting: set<nat>, running: set<nat>, n: nat, i: nat)
    requires Tracing(t, q, es, waiting, running, n) && i in running && i < |q|
    ensures Tracing(t, q, es + [EndOf(t, q[i].id)], waiting, running - {i}, n)
  {
    var e := EndOf(t, q[i].id);
    EndCounts(t, es, q[i].id);
    OneMore(es, e, n);
    forall k | 0 <= k < |q| && k !in waiting && k !in running - {i} ensures RunsThrough(t, es + [e], q[k].id) {
      if k == i {
        var s :| 0 <= s < |es| && es[s] == ToolStarted(q[i].id);
        assert (es + [e])[s] == es[s] && (es + [e])[|es|] == e;
      } else {
        StaysThrough(t, es, e, q[k].id);
      }
    }
  }

  lemma {:induction false} OnceEach(s: seq<Event>, x: Event)
    requires forall i, j :: 0 <= i < j < |s| ==> s[i] != s[j]
    ensures multiset(s)[x] <= 1
  {
    if s != [] {
      var init, last := s[..|s| - 1], s[|s| - 1];
      assert s == init + [last];
      OnceEach(init, x);
      assert forall i :: 0 <= i < |init| ==> init[i] == s[i] != last;
    }
  }

  /** As many events, and all of these among them: the same events. */
  lemma SameEvents(s: seq<Event>, es: seq<Event>)
    requires forall i, j :: 0 <= i < j < |s| ==> s[i] != s[j]
    requires |es| == |s| && forall i :: 0 <= i < |s| ==> s[i] in es
    ensures multiset(es) == multiset(s)
  {
    forall x: Event ensures multiset(s)[x] <= multiset(es)[x] {
      OnceEach(s, x);
      if x in multiset(s) {
        var i :| 0 <= i < |s| && s[i] == x;
        assert x in es;
      }
    }
    var more := multiset(es) - multiset(s);
    assert multiset(es) == multiset(s) + more;
    assert |more| == 0;
  }

  lemma SerialDistinct(t: Tools, q: seq<Entry>, i: nat, j: nat)
    requires DistinctIds(q) && i < j < 2 * |q|
    ensures Serial(t, q)[i] != Serial(t, q)[j]
  {
    var es, a, b := Serial(t, q), i / 2, j / 2;
    assert es[2 * a] == ToolStarted(q[a].id) && es[2 * a + 1] == EndOf(t, q[a].id);
    assert es[2 * b] == ToolStarted(q[b].id) && es[2 * b + 1] == EndOf(t, q[b].id);
    assert i == 2 * a || i == 2 * a + 1;
    assert j == 2 * b || j == 2 * b + 1;
  }

  /** When none is waiting or under way, every call has run through, once. */
  lemma TraceDone(t: Tools, q: seq<Entry>, es: seq<Event>, n: nat)
    requires DistinctIds(q) && Tracing(t, q, es, {}, {}, n)
    ensures Parallel(t, q, es, n)
  {
    var s := Serial(t, q);
    forall i, j | 0 <= i < j < |s| ensures s[i] != s[j] {
      SerialDistinct(t, q, i, j);
    }
    forall k | 0 <= k < |s| ensures s[k] in es {
      var i := k / 2;
      assert RunsThrough(t, es, q[i].id);
      assert k == 2 * i || k == 2 * i + 1;
      assert s[2 * i] == ToolStarted(q[i].id) && s[2 * i + 1] == EndOf(t, q[i].id);
    }
    SameEvents(s, es);
  }
}
