/** The per-client sliding-window limiter: an in-process deque that forgets old hits, and the Redis script. */
module RateLimit {

  /** One request: the client's key and the clock when it arrives. */
  datatype Request = Request(key: string, at: real)

  /** The clock never goes back. */
  predicate Ordered(rs: seq<Request>) {
    forall i, j :: 0 <= i < j < |rs| ==> rs[i].at <= rs[j].at
  }

  // ----- the reference: a limiter that remembers everything -----

  /** How many of the first n hits lie in the closed window [lo, hi]. */
  function CountTo(hits: seq<real>, lo: real, hi: real, n: nat): (c: nat)
    requires n <= |hits|
    ensures c <= n
  {
    if n == 0 then 0 else CountTo(hits, lo, hi, n - 1) + (if lo <= hits[n - 1] <= hi then 1 else 0)
  }

  function CountIn(hits: seq<real>, lo: real, hi: real): nat {
    CountTo(hits, lo, hi, |hits|)
  }

  /** The rule: fewer than limit earlier admissions of the key lie in the window that ends now. */
  predicate Admits(admitted: seq<real>, limit: int, window: real, now: real) {
    CountIn(admitted, now - window, now) < limit
  }

  /** Every admission of a key, by the rule, over a whole run of requests. */
  function Admitted(rs: seq<Request>, limit: int, window: real, key: string): seq<real> {
    if rs == [] then []
    else
      var r, past := rs[|rs| - 1], Admitted(rs[..|rs| - 1], limit, window, key);
      if r.key == key && Admits(past, limit, window, r.at) then past + [r.at] else past
  }

  // ----- the deque -----

  lemma {:induction false} CountToSame(a: seq<real>, b: seq<real>, lo: real, hi: real, n: nat)
    requires n <= |a| && n <= |b| && forall i :: 0 <= i < n ==> a[i] == b[i]
    ensures CountTo(a, lo, hi, n) == CountTo(b, lo, hi, n)
  {
    if n > 0 {
      CountToSame(a, b, lo, hi, n - 1);
    }
  }

  lemma CountSnoc(hits: seq<real>, x: real, lo: real, hi: real)
    ensures CountIn(hits + [x], lo, hi) == CountIn(hits, lo, hi) + (if lo <= x <= hi then 1 else 0)
  {
    CountToSame(hits + [x], hits, lo, hi, |hits|);
  }

  /** Hits before the first d that are too old do not count. */
  lemma {:induction false} CountTail(all: seq<real>, d: nat, lo: real, hi: real, n: nat)
    requires d <= n <= |all|
    requires forall i :: 0 <= i < d ==> all[i] < lo
    requires forall i :: d <= i < n ==> lo <= all[i] <= hi
    ensures CountTo(all, lo, hi, n) == n - d
  {
    if n > 0 {
      if n == d {
        CountTail(all, d - 1, lo, hi, n - 1);
      } else {
        CountTail(all, d, lo, hi, n - 1);
      }
    }
  }

  predicate Sorted(hits: seq<real>, upTo: real) {
    && (forall i, j :: 0 <= i < j < |hits| ==> hits[i] <= hits[j])
    && (forall i :: 0 <= i < |hits| ==> hits[i] <= upTo)
  }

  /** The deque is the admissions without some of the oldest, all of them older than the cut. */
  predicate Pruned(hits: seq<real>, admitted: seq<real>, cut: real) {
    && |hits| <= |admitted| && hits == admitted[|admitted| - |hits|..]
    && forall i :: 0 <= i < |admitted| - |hits| ==> admitted[i] < cut
  }

  lemma PrunedLater(hits: seq<real>, admitted: seq<real>, cut: real, cut': real)
    requires Pruned(hits, admitted, cut) && cut <= cut'
    ensures Pruned(hits, admitted, cut')
  {
  }

  lemma PrunedPop(hits: seq<real>, admitted: seq<real>, cut: real)
    requires Pruned(hits, admitted, cut) && hits != [] && hits[0] < cut
    ensures Pruned(hits[1..], admitted, cut)
  {
    var d := |admitted| - |hits|;
    assert admitted[d] == hits[0] && hits[1..] == admitted[d + 1..];
  }

  lemma PrunedPush(hits: seq<real>, admitted: seq<real>, cut: real, now: real)
    requires Pruned(hits, admitted, cut)
    ensures Pruned(hits + [now], admitted + [now], cut)
  {
    assert (admitted + [now])[|admitted| - |hits|..] == hits + [now];
  }

  /** defaultdict(deque): a key not seen yet has no hits. */
  function HitsOf(hits: map<string, seq<real>>, key: string): seq<real> {
    if key in hits then hits[key] else []
  }

  /** A key's deque is its full history without what is older than the cut; the history is in order and past. */
  ghost predicate Knows(hits: map<string, seq<real>>, all: map<string, seq<real>>, window: real, clock: real,
                        key: string)
  {
    Pruned(HitsOf(hits, key), HitsOf(all, key), clock - window) && Sorted(HitsOf(all, key), clock)
  }

  lemma KnowsLater(hits: map<string, seq<real>>, all: map<string, seq<real>>, window: real, clock: real, now: real,
                   key: string)
    requires Knows(hits, all, window, clock, key) && clock <= now
    ensures Knows(hits, all, window, now, key)
  {
    PrunedLater(HitsOf(hits, key), HitsOf(all, key), clock - window, now - window);
  }

  ghost predicate AllKnown(hits: map<string, seq<real>>, all: map<string, seq<real>>, window: real, clock: real) {
    forall key :: Knows(hits, all, window, clock, key)
  }

  lemma KnownAt(hits: map<string, seq<real>>, all: map<string, seq<real>>, window: real, clock: real, now: real,
                key: string)
    requires AllKnown(hits, all, window, clock) && clock <= now
    ensures Pruned(HitsOf(hits, key), HitsOf(all, key), now - window) && Sorted(HitsOf(all, key), now)
  {
    assert Knows(hits, all, window, clock, key);
    KnowsLater(hits, all, window, clock, now, key);
  }

  function Pushed(queue: seq<real>, now: real, allowed: bool): seq<real> {
    if allowed then queue + [now] else queue
  }

  /** The full history of a key after a decision. */
  function Noted(all: map<string, seq<real>>, key: string, now: real, allowed: bool): map<string, seq<real>> {
    if allowed then all[key := Pushed(HitsOf(all, key), now, true)] else all
  }

  lemma OtherKnown(hits: map<string, seq<real>>, all: map<string, seq<real>>, window: real, clock: real, now: real,
                   key: string, queue: seq<real>, allowed: bool, k: string)
    requires Knows(hits, all, window, clock, k) && clock <= now && k != key
    ensures Knows(hits[key := queue], Noted(all, key, now, allowed), window, now, k)
  {
    KnowsLater(hits, all, window, clock, now, k);
    assert HitsOf(hits[key := queue], k) == HitsOf(hits, k);
    assert HitsOf(Noted(all, key, now, allowed), k) == HitsOf(all, k);
  }

  lemma BothPushed(queue: seq<real>, history: seq<real>, cut: real, now: real, allowed: bool)
    requires Pruned(queue, history, cut) && Sorted(history, now)
    ensures Pruned(Pushed(queue, now, allowed), Pushed(history, now, allowed), cut)
    ensures Sorted(Pushed(history, now, allowed), now)
  {
    if allowed {
      PrunedPush(queue, history, cut, now);
    }
  }

  lemma OwnKnown(hits: map<string, seq<real>>, all: map<string, seq<real>>, window: real, now: real, key: string,
                 queue: seq<real>, history: seq<real>)
    requires Pruned(queue, history, now - window) && Sorted(history, now)
    requires key in hits && hits[key] == queue && HitsOf(all, key) == history
    ensures Knows(hits, all, window, now, key)
  {
  }

  /** Only one key's deque and history change: the deque is pruned and takes the new hit if it is admitted. */
  lemma KnownAfter(hits: map<string, seq<real>>, all: map<string, seq<real>>, window: real, clock: real, now: real,
                   key: string, queue: seq<real>, allowed: bool)
    requires AllKnown(hits, all, window, clock) && clock <= now
    requires Pruned(queue, HitsOf(all, key), now - window)
    ensures AllKnown(hits[key := Pushed(queue, now, allowed)], Noted(all, key, now, allowed), window, now)
  {
    var hits', all' := hits[key := Pushed(queue, now, allowed)], Noted(all, key, now, allowed);
    KnownAt(hits, all, window, clock, now, key);
    BothPushed(queue, HitsOf(all, key), now - window, now, allowed);
    OwnKnown(hits', all', window, now, key, Pushed(queue, now, allowed), Pushed(HitsOf(all, key), now, allowed));
    forall k | k != key ensures Knows(hits', all', window, now, k) {
      assert Knows(hits, all, window, clock, k);
      OtherKnown(hits, all, window, clock, now, key, Pushed(queue, now, allowed), allowed, k);
    }
  }

  /** The loop over a deque: pop hits before the window from the front. */
  method PopLeft(queue0: seq<real>, start: real, ghost history: seq<real>, ghost now: real) returns (queue: seq<real>)
    requires Pruned(queue0, history, start) && Sorted(history, now)
    ensures Pruned(queue, history, start) && |queue| == CountIn(history, start, now)
  {
    queue := queue0;
    while queue != [] && queue[0] < start
      invariant Pruned(queue, history, start)
      decreases |queue|
    {
      PrunedPop(queue, history, start);
      queue := queue[1..];
    }
    PrunedWithin(queue, history, start, now);
    PrunedCount(queue, history, start, now);
  }

  class Limiter {
    const limit: int
    const window: real
    var hits: map<string, seq<real>>
    ghost var all: map<string, seq<real>>
    ghost var clock: real

    ghost predicate Valid()
      reads this
    {
      AllKnown(hits, all, window, clock)
    }

    constructor (limit: int, window: real, ghost start: real)
      ensures this.limit == limit && this.window == window
      ensures Valid() && all == map[] && clock == start
    {
      this.limit, this.window := limit, window;
      hits, all, clock := map[], map[], start;
    }

    /** The deque of a key without the hits before the window. */
    method DropOld(key: string, now: real) returns (queue: seq<real>)
      requires Valid() && clock <= now
      ensures Pruned(queue, HitsOf(all, key), now - window)
      ensures |queue| == CountIn(HitsOf(all, key), now - window, now)
    {
      KnownAt(hits, all, window, clock, now, key);
      queue := PopLeft(HitsOf(hits, key), now - window, HitsOf(all, key), now);
    }

    /** What a decision leaves behind. */
    method Enter(key: string, queue: seq<real>, ghost now: real, ghost all': map<string, seq<real>>)
      requires AllKnown(hits[key := queue], all', window, now)
      modifies this
      ensures Valid() && clock == now && all == all' && hits == old(hits)[key := queue]
    {
      hits, clock, all := hits[key := queue], now, all';
    }

    /** _allow_memory. The pruned deque decides exactly as the full history of the key does. */
    method AllowMemory(key: string, now: real) returns (allowed: bool)
      requires Valid() && clock <= now
      modifies this
      ensures Valid() && clock == now
      ensures allowed <==> CountIn(HitsOf(old(all), key), now - window, now) < limit
      ensures all == Noted(old(all), key, now, allowed)
      ensures key in hits && hits == old(hits)[key := hits[key]]
    {
      var queue := DropOld(key, now);
      allowed := |queue| < limit;
      ghost var pruned := queue;
      if allowed {
        queue := queue + [now];
      }
      ghost var all' := Noted(all, key, now, allowed);
      KnownAfter(hits, all, window, clock, now, key, pruned, allowed);
      Enter(key, queue, now, all');
    }
  }

  /** A whole run of the limiter: what every key's history has become. */
  function RunAll(rs: seq<Request>, limit: int, window: real): map<string, seq<real>> {
    if rs == [] then map[]
    else
      var r, past := rs[|rs| - 1], RunAll(rs[..|rs| - 1], limit, window);
      Noted(past, r.key, r.at, Admits(HitsOf(past, r.key), limit, window, r.at))
  }

  /** The histories of a run are the admissions by the rule, each key on its own. */
  lemma {:induction false} RunAdmits(rs: seq<Request>, limit: int, window: real, key: string)
    ensures HitsOf(RunAll(rs, limit, window), key) == Admitted(rs, limit, window, key)
  {
    if rs != [] {
      RunAdmits(rs[..|rs| - 1], limit, window, key);
    }
  }

  lemma PrunedWithin(queue: seq<real>, all: seq<real>, cut: real, now: real)
    requires Pruned(queue, all, cut) && Sorted(all, now) && (queue != [] ==> cut <= queue[0])
    ensures forall i :: 0 <= i < |queue| ==> cut <= queue[i] <= now
  {
  }

  /** The hits that are left are exactly those the window counts. */
  lemma PrunedCount(queue: seq<real>, all: seq<real>, lo: real, now: real)
    requires Pruned(queue, all, lo)
    requires forall i :: 0 <= i < |queue| ==> lo <= queue[i] <= now
    ensures CountIn(all, lo, now) == |queue|
  {
    var d := |all| - |queue|;
    assert forall i :: d <= i < |all| ==> all[i] == queue[i - d];
    CountTail(all, d, lo, now, |all|);
  }

  lemma {:induction false} AdmittedSorted(rs: seq<Request>, limit: int, window: real, key: string, now: real)
    requires Ordered(rs) && (rs != [] ==> rs[|rs| - 1].at <= now)
    ensures Sorted(Admitted(rs, limit, window, key), now)
  {
    if rs != [] {
      AdmittedSorted(rs[..|rs| - 1], limit, window, key, rs[|rs| - 1].at);
    }
  }

  // ----- what the rule guarantees -----

  /** The places of the hits in a closed window. */
  function Inside(hits: seq<real>, lo: real, hi: real, n: nat): set<nat>
    requires n <= |hits|
  {
    set i: nat | i < n && lo <= hits[i] <= hi
  }

  lemma {:induction false} CountIsSize(hits: seq<real>, lo: real, hi: real, n: nat)
    requires n <= |hits|
    ensures CountTo(hits, lo, hi, n) == |Inside(hits, lo, hi, n)|
  {
    if n > 0 {
      CountIsSize(hits, lo, hi, n - 1);
      var before := Inside(hits, lo, hi, n - 1);
      assert n - 1 !in before;
      assert Inside(hits, lo, hi, n) == if lo <= hits[n - 1] <= hi then before + {n - 1} else before;
    }
  }

  /** A request of a key is admitted exactly when fewer than `limit` of the admissions so far lie in the window that ends
      with it; no other request changes what was admitted. */
  lemma AdmittedExactly(rs: seq<Request>, limit: int, window: real, key: string, i: nat)
    requires i < |rs|
    ensures var past, at := Admitted(rs[..i], limit, window, key), rs[i].at;
            Admitted(rs[..i + 1], limit, window, key)
            == if rs[i].key == key && |Inside(past, at - window, at, |past|)| < limit then past + [at] else past
  {
    assert rs[..i + 1][..i] == rs[..i];
    var past := Admitted(rs[..i], limit, window, key);
    CountIsSize(past, rs[i].at - window, rs[i].at, |past|);
  }

  /** A window counts no more than one that has all its hits. */
  lemma {:induction false} CountNarrow(hits: seq<real>, lo: real, hi: real, lo': real, hi': real, n: nat)
    requires n <= |hits| && forall i :: 0 <= i < n ==> lo <= hits[i] <= hi ==> lo' <= hits[i] <= hi'
    ensures CountTo(hits, lo, hi, n) <= CountTo(hits, lo', hi', n)
  {
    if n > 0 {
      CountNarrow(hits, lo, hi, lo', hi', n - 1);
    }
  }

  /** Whatever the clients do, every closed window of the configured length holds at most `limit` admissions of a key,
      none when the limit is not positive. */
  lemma {:induction false} EveryWindowLimited(rs: seq<Request>, limit: int, window: real, key: string, lo: real)
    requires Ordered(rs)
    ensures CountIn(Admitted(rs, limit, window, key), lo, lo + window) <= if limit > 0 then limit else 0
  {
    if rs != [] {
      var r, init := rs[|rs| - 1], rs[..|rs| - 1];
      EveryWindowLimited(init, limit, window, key, lo);
      var past := Admitted(init, limit, window, key);
      CountSnoc(past, r.at, lo, lo + window);
      if r.key == key && Admits(past, limit, window, r.at) && lo <= r.at <= lo + window {
        AdmittedSorted(init, limit, window, key, r.at);
        CountNarrow(past, lo, lo + window, r.at - window, r.at, |past|);
      }
    }
  }

  function Only(rs: seq<Request>, key: string): seq<Request> {
    if rs == [] then []
    else
      var rest := Only(rs[..|rs| - 1], key);
      if rs[|rs| - 1].key == key then rest + [rs[|rs| - 1]] else rest
  }

  /** A client's admissions depend on that client's requests alone. */
  lemma {:induction false} KeysIndependent(rs: seq<Request>, limit: int, window: real, key: string)
    ensures Admitted(rs, limit, window, key) == Admitted(Only(rs, key), limit, window, key)
  {
    if rs != [] {
      var rest := Only(rs[..|rs| - 1], key);
      KeysIndependent(rs[..|rs| - 1], limit, window, key);
      if rs[|rs| - 1].key == key {
        assert (rest + [rs[|rs| - 1]])[..|rest|] == rest;
      }
    }
  }

  // ----- the Redis script -----

  /** ZREMRANGEBYSCORE up to and including the cut. */
  function RemoveUpTo(scores: seq<real>, cut: real): (r: seq<real>)
    ensures |r| <= |scores|
  {
    if scores == [] then []
    else
      var rest, x := RemoveUpTo(scores[..|scores| - 1], cut), scores[|scores| - 1];
      if x > cut then rest + [x] else rest
  }

  /** The sorted set of a key, and every admission the script ever made for it. */
  datatype Script = Script(scores: seq<real>, admitted: seq<real>)

  predicate ScriptAdmits(scores: seq<real>, limit: int, window: real, now: real) {
    |RemoveUpTo(scores, now - window)| < limit
  }

  /** One evaluation of the script. */
  function EvalScript(s: Script, limit: int, window: real, now: real): Script {
    var kept := RemoveUpTo(s.scores, now - window);
    if |kept| < limit then Script(kept + [now], s.admitted + [now]) else Script(kept, s.admitted)
  }

  function ScriptRun(rs: seq<Request>, limit: int, window: real, key: string): Script {
    if rs == [] then Script([], [])
    else
      var r, past := rs[|rs| - 1], ScriptRun(rs[..|rs| - 1], limit, window, key);
      if r.key == key then EvalScript(past, limit, window, r.at) else past
  }

  /** The script's rule over the full history: its window leaves out the hit that is exactly one window old. */
  function CountAfter(hits: seq<real>, cut: real): nat {
    |RemoveUpTo(hits, cut)|
  }

  lemma {:induction false} RemoveTwice(hits: seq<real>, a: real, b: real)
    requires a <= b
    ensures RemoveUpTo(RemoveUpTo(hits, a), b) == RemoveUpTo(hits, b)
  {
    if hits != [] {
      var init, x := hits[..|hits| - 1], hits[|hits| - 1];
      RemoveTwice(init, a, b);
      var rest := RemoveUpTo(init, a);
      if x > a {
        assert (rest + [x])[..|rest|] == rest;
      }
    }
  }

  lemma RemoveSnoc(hits: seq<real>, x: real, cut: real)
    ensures RemoveUpTo(hits + [x], cut) == if x > cut then RemoveUpTo(hits, cut) + [x] else RemoveUpTo(hits, cut)
  {
    assert (hits + [x])[..|hits|] == hits;
  }

  lemma KeptAlike(scores: seq<real>, admitted: seq<real>, a: real, cut: real)
    requires a <= cut && RemoveUpTo(scores, a) == RemoveUpTo(admitted, a)
    ensures RemoveUpTo(RemoveUpTo(scores, a), cut) == RemoveUpTo(admitted, cut)
  {
    RemoveTwice(admitted, a, cut);
  }

  lemma EvalKeeps(s: Script, limit: int, window: real, at: real, cut: real)
    requires at - window <= cut && RemoveUpTo(s.scores, at - window) == RemoveUpTo(s.admitted, at - window)
    ensures RemoveUpTo(EvalScript(s, limit, window, at).scores, cut)
         == RemoveUpTo(EvalScript(s, limit, window, at).admitted, cut)
  {
    var kept, s' := RemoveUpTo(s.scores, at - window), EvalScript(s, limit, window, at);
    KeptAlike(s.scores, s.admitted, at - window, cut);
    RemoveSnoc(kept, at, cut);
    RemoveSnoc(s.admitted, at, cut);
    assert s' == Script(kept + [at], s.admitted + [at]) || s' == Script(kept, s.admitted);
  }

  /** The expiry of old scores loses nothing: the script, too, decides as the full history does. */
  lemma {:induction false} ScriptRefinesHistory(rs: seq<Request>, limit: int, window: real, key: string, now: real)
    requires Ordered(rs) && (rs != [] ==> rs[|rs| - 1].at <= now)
    ensures var s := ScriptRun(rs, limit, window, key);
            && RemoveUpTo(s.scores, now - window) == RemoveUpTo(s.admitted, now - window)
            && (ScriptAdmits(s.scores, limit, window, now) <==> CountAfter(s.admitted, now - window) < limit)
  {
    if rs != [] {
      var r, init := rs[|rs| - 1], rs[..|rs| - 1];
      if r.key == key {
        ScriptRefinesHistory(init, limit, window, key, r.at);
        EvalKeeps(ScriptRun(init, limit, window, key), limit, window, r.at, now - window);
      } else {
        ScriptRefinesHistory(init, limit, window, key, now);
      }
    }
  }

  /** The places of the hits behind the cut, among the first n. */
  function Later(hits: seq<real>, cut: real, n: nat): set<nat>
    requires n <= |hits|
  {
    set i: nat | i < n && hits[i] > cut
  }

  lemma {:induction false} KeptIsSize(hits: seq<real>, cut: real, n: nat)
    requires n <= |hits|
    ensures |RemoveUpTo(hits[..n], cut)| == |Later(hits, cut, n)|
  {
    if n > 0 {
      KeptIsSize(hits, cut, n - 1);
      var before := Later(hits, cut, n - 1);
      assert hits[..n][..n - 1] == hits[..n - 1];
      assert n - 1 !in before;
      assert Later(hits, cut, n) == if hits[n - 1] > cut then before + {n - 1} else before;
    }
  }

  /** The script admits a request of a key exactly when fewer than `limit` of the admissions so far lie less than a window
      back. */
  lemma ScriptExactly(rs: seq<Request>, limit: int, window: real, key: string, i: nat)
    requires Ordered(rs) && i < |rs|
    ensures var past, at := ScriptRun(rs[..i], limit, window, key).admitted, rs[i].at;
            ScriptRun(rs[..i + 1], limit, window, key).admitted
            == if rs[i].key == key && |Later(past, at - window, |past|)| < limit then past + [at] else past
  {
    assert rs[..i + 1][..i] == rs[..i];
    var past := ScriptRun(rs[..i], limit, window, key).admitted;
    ScriptRefinesHistory(rs[..i], limit, window, key, rs[i].at);
    KeptIsSize(past, rs[i].at - window, |past|);
    assert past[..|past|] == past;
  }

  /** How many hits lie behind lo, up to and including hi. */
  function CountBehind(hits: seq<real>, lo: real, hi: real): nat {
    if hits == [] then 0
    else CountBehind(hits[..|hits| - 1], lo, hi) + (if lo < hits[|hits| - 1] <= hi then 1 else 0)
  }

  /** Hits behind a later point are among those behind an earlier one. */
  lemma {:induction false} BehindKept(hits: seq<real>, lo: real, hi: real, cut: real)
    requires cut <= lo
    ensures CountBehind(hits, lo, hi) <= CountAfter(hits, cut)
  {
    if hits != [] {
      BehindKept(hits[..|hits| - 1], lo, hi, cut);
    }
  }

  /** The script's own guarantee: whatever the clients do, every window of the configured length without its first moment
      holds at most `limit` admissions of a key, none when the limit is not positive. */
  lemma {:induction false} EveryScriptWindowLimited(rs: seq<Request>, limit: int, window: real, key: string, lo: real)
    requires Ordered(rs)
    ensures CountBehind(ScriptRun(rs, limit, window, key).admitted, lo, lo + window) <= if limit > 0 then limit else 0
  {
    if rs != [] {
      var r, init := rs[|rs| - 1], rs[..|rs| - 1];
      EveryScriptWindowLimited(init, limit, window, key, lo);
      var past := ScriptRun(init, limit, window, key);
      assert (past.admitted + [r.at])[..|past.admitted|] == past.admitted;
      if r.key == key && ScriptAdmits(past.scores, limit, window, r.at) && lo < r.at <= lo + window {
        ScriptRefinesHistory(init, limit, window, key, r.at);
        BehindKept(past.admitted, lo, lo + window, r.at - window);
      }
    }
  }

  function CountAt(hits: seq<real>, x: real): nat {
    CountIn(hits, x, x)
  }

  lemma {:induction false} ClosedCountsBoundary(hits: seq<real>, lo: real, now: real)
    requires lo <= now && forall i :: 0 <= i < |hits| ==> hits[i] <= now
    ensures CountIn(hits, lo, now) == CountAfter(hits, lo) + CountAt(hits, lo)
  {
    if hits != [] {
      var init, x := hits[..|hits| - 1], hits[|hits| - 1];
      ClosedCountsBoundary(init, lo, now);
      assert hits == init + [x];
      CountSnoc(init, x, lo, now);
      CountSnoc(init, x, lo, lo);
    }
  }

  /** On the same past, the deque never admits what the script refuses, and the script admits what the deque refuses
      exactly when the hits that are one whole window old make the difference. */
  lemma BackendsDiffer(admitted: seq<real>, limit: int, window: real, now: real)
    requires 0.0 <= window && Sorted(admitted, now)
    ensures Admits(admitted, limit, window, now) ==> CountAfter(admitted, now - window) < limit
    ensures CountAfter(admitted, now - window) < limit && !Admits(admitted, limit, window, now) <==>
            0 < limit - CountAfter(admitted, now - window) <= CountAt(admitted, now - window)
  {
    ClosedCountsBoundary(admitted, now - window, now);
  }

  /** Two requests one window apart under a limit of one: the deque refuses the second, the script admits it, and a
      closed window then holds two. */
  lemma BackendsDifferOnARun()
    ensures var rs := [Request("k", 0.0), Request("k", 60.0)];
            && Admitted(rs, 1, 60.0, "k") == [0.0]
            && ScriptRun(rs, 1, 60.0, "k").admitted == [0.0, 60.0]
            && CountIn(ScriptRun(rs, 1, 60.0, "k").admitted, 0.0, 0.0 + 60.0) == 2
  {
    var rs := [Request("k", 0.0), Request("k", 60.0)];
    assert rs[..1] == [Request("k", 0.0)] && rs[..1][..0] == [];
    FirstRequest();
    assert [0.0][..0] == [];
    assert CountIn([0.0], 0.0, 60.0) == 1;
    assert RemoveUpTo([0.0], 0.0) == [];
    assert [0.0] + [60.0] == [0.0, 60.0] && [0.0, 60.0][..1] == [0.0];
  }

  lemma FirstRequest()
    ensures Admitted([Request("k", 0.0)], 1, 60.0, "k") == [0.0]
    ensures ScriptRun([Request("k", 0.0)], 1, 60.0, "k") == Script([0.0], [0.0])
  {
    assert [Request("k", 0.0)][..0] == [];
    assert RemoveUpTo([], 0.0 - 60.0) == [];
  }
}
