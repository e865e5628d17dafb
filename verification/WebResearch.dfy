/** The market research of one field: cache, allowance, client, cache again. Other fields may run at the await. */
module WebResearch {
  import opened Json
  import opened ResearchCache
  import ResearchBudget

  /** What the grounding client hands back; every part may be missing. */
  datatype Raw = Raw(value: Option<Option<real>>, confidence: Option<real>, summary: Option<string>,
                     citations: Option<Json>)

  datatype ClientReply = Answered(raw: Raw) | TimedOut | Broke

  /** What a field gets: a finding, and whether it came from the cache. */
  datatype Payload = Payload(finding: Finding, cacheHit: bool)

  const EMPTY_SUMMARY: string := "research unavailable"

  const UNAVAILABLE := Payload(Finding(None, 0.0, EMPTY_SUMMARY, Arr([])), false)

  /** setdefault on every part of the answer. */
  function Filled(r: Raw): Finding {
    Finding(
      if r.value.Some? then r.value.value else None,
      if r.confidence.Some? then r.confidence.value else 0.0,
      if r.summary.Some? then r.summary.value else EMPTY_SUMMARY,
      if r.citations.Some? then r.citations.value else Arr([]))
  }

  /** Every part the client gave is kept, and every part it left out is filled with nothing. */
  lemma FilledExactly(r: Raw)
    ensures var f := Filled(r);
            && (forall v :: r.value == Some(v) ==> f.value == v) && (r.value.None? ==> f.value == None)
            && (forall x :: r.confidence == Some(x) ==> f.confidence == x) && (r.confidence.None? ==> f.confidence == 0.0)
            && (forall s :: r.summary == Some(s) ==> f.summary == s)
            && (r.summary.None? ==> f.summary == "research unavailable")
            && (forall c :: r.citations == Some(c) ==> f.citations == c) && (r.citations.None? ==> f.citations == Arr([]))
  {
  }

  /** Only an answer that says something is cached. */
  predicate Signal(f: Finding) {
    f.value.Some? || f.confidence > 0.0
  }

  const SIX_HOURS: int := 6 * 60 * 60

  /** How long an answer lives: the field's own age, else the default; nothing or nothing positive means six hours. */
  function Lifetime(maxAge: Option<int>, fallback: Option<int>): (ttl: int)
    ensures ttl > 0
    ensures maxAge.Some? && maxAge.value > 0 ==> ttl == maxAge.value
    ensures maxAge.None? && fallback.Some? && fallback.value > 0 ==> ttl == fallback.value
    ensures (maxAge.Some? && maxAge.value <= 0) || (maxAge.None? && (fallback.None? || fallback.value <= 0)) ==>
              ttl == 21600
  {
    var asked := if maxAge.Some? then maxAge else fallback;
    if asked.None? || asked.value <= 0 then SIX_HOURS else asked.value
  }

  /** The outside: the key of a query, and the client as a function of the query. */
  datatype Outside = Outside(keyOf: string -> string, client: string -> ClientReply)

  /** No two queries share a key. */
  ghost predicate Injective(o: Outside) {
    forall p, q :: o.keyOf(p) == o.keyOf(q) ==> p == q
  }

  /** Every cached entry is the client's own answer to the one query of its key, and it says something. */
  ghost predicate Faithful(m: seq<Entry>, o: Outside) {
    forall e :: e in m ==> FaithfulEntry(e, o)
  }

  ghost predicate FaithfulEntry(e: Entry, o: Outside) {
    && Signal(e.finding)
    && forall q :: o.keyOf(q) == e.key ==> o.client(q).Answered? && e.finding == Filled(o.client(q).raw)
  }

  lemma FaithfulLookup(m: seq<Entry>, o: Outside, key: string, now: real)
    requires Faithful(m, o)
    ensures Faithful(AfterLookup(m, key, now), o)
  {
    forall e | e in AfterLookup(m, key, now) ensures FaithfulEntry(e, o) {
      EntriesAfter(m, Op.Lookup(key, now), e);
    }
  }

  lemma FaithfulStore(m: seq<Entry>, o: Outside, q: string, f: Finding, ttl: int, now: real)
    requires Faithful(m, o) && Injective(o) && Signal(f)
    requires o.client(q).Answered? && f == Filled(o.client(q).raw)
    ensures Faithful(AfterStore(m, o.keyOf(q), f, ttl, now), o)
  {
    forall e | e in AfterStore(m, o.keyOf(q), f, ttl, now) ensures FaithfulEntry(e, o) {
      EntriesAfter(m, Op.Store(o.keyOf(q), f, ttl, now), e);
    }
  }

  datatype Begun = Finished(payload: Payload) | Waiting

  /** Whether the allowance, if the tool has one, leaves room for a call. */
  ghost predicate Affordable(budget: ResearchBudget.RunBudget?, estimate: real)
    reads budget
  {
    budget != null ==> ResearchBudget.Allows(budget.State(), budget.maxCalls, budget.maxCost, estimate)
  }

  /** _research up to the await: the cache first, then the client's key, then the allowance, if the tool has one. */
  method Begin(cache: Cache, budget: ResearchBudget.RunBudget?, o: Outside, query: string, estimate: real,
               configured: bool, now: real)
    returns (b: ResearchBudget.Answer<Begun>)
    requires Faithful(cache.memory, o)
    modifies cache
    ensures Faithful(cache.memory, o) && cache.memory == AfterLookup(old(cache.memory), o.keyOf(query), now)
    ensures var hit := LookedUp(old(cache.memory), o.keyOf(query), now);
            && (hit.Some? ==>
                  && b == ResearchBudget.Ok(Finished(Payload(hit.value, true)))
                  && o.client(query).Answered? && hit.value == Filled(o.client(query).raw))
            && (hit.None? && !configured ==> b == ResearchBudget.Ok(Finished(UNAVAILABLE)))
            && (hit.None? && configured && budget != null && estimate < 0.0 ==> b.ValueError?)
            && (hit.None? && configured && (budget == null || estimate >= 0.0) ==>
                  b == ResearchBudget.Ok(if Affordable(budget, estimate) then Waiting else Finished(UNAVAILABLE)))
    ensures UNAVAILABLE == Payload(Finding(None, 0.0, "research unavailable", Arr([])), false)
  {
    var key := o.keyOf(query);
    FaithfulLookup(cache.memory, o, key, now);
    var cached := cache.Lookup(key, now);
    if cached.Some? {
      assert FaithfulEntry(Find(old(cache.memory), key).value, o);
      return ResearchBudget.Ok(Finished(Payload(cached.value, true)));
    }
    if !configured {
      return ResearchBudget.Ok(Finished(UNAVAILABLE));
    }
    if budget != null {
      var allowed := budget.CanSpend(estimate);
      if allowed.ValueError? {
        return ResearchBudget.ValueError;
      }
      if !allowed.value {
        return ResearchBudget.Ok(Finished(UNAVAILABLE));
      }
    }
    return ResearchBudget.Ok(Waiting);
  }

  /** _research after the await. Only an answer is charged, if the tool has an allowance, and only one with a signal is
      stored. */
  method Complete(cache: Cache, budget: ResearchBudget.RunBudget?, o: Outside, query: string, estimate: real,
                  maxAge: Option<int>, fallback: Option<int>, now: real)
    returns (p: Payload)
    requires Faithful(cache.memory, o) && Injective(o) && (budget != null ==> 0.0 <= estimate)
    modifies cache, budget
    ensures Faithful(cache.memory, o)
    ensures var reply := o.client(query);
            && (!reply.Answered? ==>
                  && p == UNAVAILABLE && cache.memory == old(cache.memory)
                  && (budget != null ==> budget.State() == old(budget.State())))
            && (reply.Answered? ==>
                  && p == Payload(Filled(reply.raw), false)
                  && (budget != null ==> budget.State() == ResearchBudget.Recorded(old(budget.State()), estimate))
                  && cache.memory
                     == if Signal(p.finding)
                        then AfterStore(old(cache.memory), o.keyOf(query), p.finding, Lifetime(maxAge, fallback), now)
                        else old(cache.memory))
    ensures p.finding.value.None? && p.finding.confidence <= 0.0 ==> cache.memory == old(cache.memory)
  {
    var reply := o.client(query);
    if !reply.Answered? {
      return UNAVAILABLE;
    }
    if budget != null {
      var _ := budget.Record(estimate);
    }
    p := Payload(Filled(reply.raw), false);
    if Signal(p.finding) {
      FaithfulStore(cache.memory, o, query, p.finding, Lifetime(maxAge, fallback), now);
      cache.Store(o.keyOf(query), p.finding, Lifetime(maxAge, fallback), now);
    }
  }

  // ----- any interleaving of fields -----

  /** Some field begins, or some field's call returns. */
  datatype Step =
    | Begins(query: string, now: real)
    | Returns(query: string, ttl: int, now: real)

  /** What a step does to the cache: begin looks up, a returning answer with a signal is stored. */
  function OpsOf(o: Outside, steps: seq<Step>): seq<Op> {
    if steps == [] then []
    else
      var rest, last := OpsOf(o, steps[..|steps| - 1]), steps[|steps| - 1];
      match last
      case Begins(q, now) => rest + [Op.Lookup(o.keyOf(q), now)]
      case Returns(q, ttl, now) =>
        if o.client(q).Answered? && Signal(Filled(o.client(q).raw))
        then rest + [Op.Store(o.keyOf(q), Filled(o.client(q).raw), ttl, now)] else rest
  }

  /** The step whose answer the cache holds under a key. */
  predicate Fed(o: Outside, s: Step, key: string, e: Entry) {
    && s.Returns? && o.keyOf(s.query) == key && o.client(s.query).Answered?
    && e == Entry(key, s.now + s.ttl as real, Filled(o.client(s.query).raw)) && Signal(e.finding)
  }

  lemma {:induction false} LastSetFed(o: Outside, steps: seq<Step>, key: string)
    requires LastSet(OpsOf(o, steps), key).Some?
    ensures exists i :: 0 <= i < |steps| && Fed(o, steps[i], key, LastSet(OpsOf(o, steps), key).value)
  {
    var n := |steps| - 1;
    var rest, ops := OpsOf(o, steps[..n]), OpsOf(o, steps);
    if ops == rest || !Fed(o, steps[n], key, LastSet(ops, key).value) {
      if ops != rest {
        assert ops[..|ops| - 1] == rest;
      }
      LastSetFed(o, steps[..n], key);
      var i :| 0 <= i < n && Fed(o, steps[..n][i], key, LastSet(rest, key).value);
      assert Fed(o, steps[i], key, LastSet(ops, key).value);
    }
  }

  /** However the fields interleave, a hit is the client's own answer to this query: some earlier call for the same
      query returned it, it says something, and its lifetime is not over. */
  lemma EveryHitIsTheClientsAnswer(o: Outside, steps: seq<Step>, query: string, now: real)
    requires Injective(o) && LookedUp(Run(OpsOf(o, steps)), o.keyOf(query), now).Some?
    ensures o.client(query).Answered?
    ensures LookedUp(Run(OpsOf(o, steps)), o.keyOf(query), now).value == Filled(o.client(query).raw)
    ensures var f := Filled(o.client(query).raw); f.value.Some? || f.confidence > 0.0
    ensures exists i :: 0 <= i < |steps| && ReturnedAlive(steps[i], query, now)
  {
    var key := o.keyOf(query);
    HitIsLastSet(OpsOf(o, steps), key, now);
    LastSetFed(o, steps, key);
    var i :| 0 <= i < |steps| && Fed(o, steps[i], key, LastSet(OpsOf(o, steps), key).value);
    assert ReturnedAlive(steps[i], query, now);
  }

  predicate ReturnedAlive(s: Step, query: string, now: real) {
    s.Returns? && s.query == query && now < s.now + s.ttl as real
  }
}
