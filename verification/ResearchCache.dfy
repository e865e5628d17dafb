/** The in-process cache of market research: an ordered dictionary, oldest entry first, bounded and with expiry. */
module ResearchCache {
  import opened Json

  /** A research answer as the cache stores it. */
  datatype Finding = Finding(value: Option<real>, confidence: real, summary: string, citations: Json)

  datatype Entry = Entry(key: string, expires: real, finding: Finding)

  /** _IN_PROCESS_MAX_SIZE. */
  const MAX_SIZE: nat := 1024

  // ----- the ordered dictionary -----

  function Find(m: seq<Entry>, key: string): (r: Option<Entry>)
    ensures r.Some? ==> r.value in m && r.value.key == key
    ensures r.None? ==> forall e :: e in m ==> e.key != key
  {
    if m == [] then None else if m[|m| - 1].key == key then Some(m[|m| - 1]) else Find(m[..|m| - 1], key)
  }

  function Without(m: seq<Entry>, key: string): (r: seq<Entry>)
    ensures |r| <= |m|
  {
    if m == [] then []
    else
      var rest := Without(m[..|m| - 1], key);
      if m[|m| - 1].key == key then rest else rest + [m[|m| - 1]]
  }

  /** popitem(last=False) until the bound holds. */
  function Evict(m: seq<Entry>): (r: seq<Entry>)
    ensures |r| == if |m| > MAX_SIZE then MAX_SIZE else |m|
  {
    if |m| > MAX_SIZE then m[|m| - MAX_SIZE..] else m
  }

  predicate Distinct(m: seq<Entry>) {
    forall i, j :: 0 <= i < j < |m| ==> m[i].key != m[j].key
  }

  // ----- the operations -----

  datatype Op =
    | Lookup(key: string, now: real)
    | Store(key: string, finding: Finding, ttl: int, now: real)

  function LookedUp(m: seq<Entry>, key: string, now: real): Option<Finding> {
    match Find(m, key)
    case None => None
    case Some(e) => if e.expires <= now then None else Some(e.finding)
  }

  function AfterLookup(m: seq<Entry>, key: string, now: real): seq<Entry> {
    match Find(m, key)
    case None => m
    case Some(e) => if e.expires <= now then Without(m, key) else Without(m, key) + [e]
  }

  function AfterStore(m: seq<Entry>, key: string, finding: Finding, ttl: int, now: real): seq<Entry> {
    if ttl <= 0 then m else Evict(Without(m, key) + [Entry(key, now + ttl as real, finding)])
  }

  function Next(m: seq<Entry>, op: Op): seq<Entry> {
    match op
    case Lookup(key, now) => AfterLookup(m, key, now)
    case Store(key, finding, ttl, now) => AfterStore(m, key, finding, ttl, now)
  }

  class Cache {
    var memory: seq<Entry>

    constructor ()
      ensures memory == []
    {
      memory := [];
    }

    /** get: an expired entry is dropped, a live one becomes the most recent. */
    method Lookup(key: string, now: real) returns (r: Option<Finding>)
      modifies this
      ensures r == LookedUp(old(memory), key, now)
      ensures memory == AfterLookup(old(memory), key, now)
    {
      var entry := Find(memory, key);
      if entry.None? {
        return None;
      }
      if entry.value.expires <= now {
        memory := Without(memory, key);
        return None;
      }
      memory := Without(memory, key) + [entry.value];
      return Some(entry.value.finding);
    }

    /** set: the entry becomes the most recent, and the oldest ones go while there are too many. */
    method Store(key: string, finding: Finding, ttl: int, now: real)
      modifies this
      ensures memory == AfterStore(old(memory), key, finding, ttl, now)
    {
      if ttl <= 0 {
        return;
      }
      memory := Without(memory, key) + [Entry(key, now + ttl as real, finding)];
      ghost var full := memory;
      while |memory| > MAX_SIZE
        invariant Evict(memory) == Evict(full)
      {
        memory := memory[1..];
      }
    }
  }

  // ----- runs against the plain history -----

  /** The clock never goes back. */
  predicate Ordered(ops: seq<Op>) {
    forall i, j :: 0 <= i < j < |ops| ==> ops[i].now <= ops[j].now
  }

  function Run(ops: seq<Op>): seq<Entry> {
    if ops == [] then [] else Next(Run(ops[..|ops| - 1]), ops[|ops| - 1])
  }

  /** A map that forgets nothing: the last set of a key that had a positive lifetime. */
  function LastSet(ops: seq<Op>, key: string): Option<Entry> {
    if ops == [] then None
    else
      var op := ops[|ops| - 1];
      if op.Store? && op.key == key && op.ttl > 0 then Some(Entry(key, op.now + op.ttl as real, op.finding))
      else LastSet(ops[..|ops| - 1], key)
  }

  /** A set with a positive lifetime, or a lookup that hits. */
  predicate Touches(m: seq<Entry>, op: Op) {
    match op
    case Lookup(key, now) => LookedUp(m, key, now).Some?
    case Store(_, _, ttl, _) => ttl > 0
  }

  /** The other keys touched since the key was last touched itself. */
  function TouchedSince(ops: seq<Op>, key: string): set<string> {
    if ops == [] then {}
    else
      var init, op := ops[..|ops| - 1], ops[|ops| - 1];
      if !Touches(Run(init), op) then TouchedSince(init, key)
      else if op.key == key then {}
      else TouchedSince(init, key) + {op.key}
  }

  // ----- what the dictionary operations keep -----

  lemma {:induction false} WithoutExact(m: seq<Entry>, key: string)
    ensures forall e :: e in Without(m, key) <==> e in m && e.key != key
    ensures Distinct(m) ==> Distinct(Without(m, key))
  {
    if m != [] {
      WithoutExact(m[..|m| - 1], key);
      assert m == m[..|m| - 1] + [m[|m| - 1]];
    }
  }

  lemma {:induction false} WithoutShrinks(m: seq<Entry>, key: string)
    requires Find(m, key).Some?
    ensures |Without(m, key)| < |m|
  {
    if m[|m| - 1].key != key {
      WithoutShrinks(m[..|m| - 1], key);
    }
  }

  lemma FindAny(m: seq<Entry>, e: Entry)
    requires e in m && Distinct(m)
    ensures Find(m, e.key) == Some(e)
  {
  }

  /** Both operations keep the keys distinct and the size within the bound. */
  lemma {:induction false} RunBounded(ops: seq<Op>)
    ensures Distinct(Run(ops)) && |Run(ops)| <= MAX_SIZE
  {
    if ops != [] {
      var m, op := Run(ops[..|ops| - 1]), ops[|ops| - 1];
      RunBounded(ops[..|ops| - 1]);
      WithoutExact(m, op.key);
      if Find(m, op.key).Some? {
        WithoutShrinks(m, op.key);
      }
    }
  }

  lemma EntriesAfter(m: seq<Entry>, op: Op, e: Entry)
    requires e in Next(m, op)
    ensures e in m || (op.Store? && op.ttl > 0 && e == Entry(op.key, op.now + op.ttl as real, op.finding))
    ensures op.Store? && op.ttl > 0 && e.key == op.key ==> e == Entry(op.key, op.now + op.ttl as real, op.finding)
  {
    WithoutExact(m, op.key);
  }

  /** Every entry in the cache is the last set of its key. */
  lemma {:induction false} EntriesAreLastSets(ops: seq<Op>, e: Entry)
    requires e in Run(ops)
    ensures LastSet(ops, e.key) == Some(e)
  {
    if ops != [] {
      var init, op := ops[..|ops| - 1], ops[|ops| - 1];
      EntriesAfter(Run(init), op, e);
      if e in Run(init) {
        EntriesAreLastSets(init, e);
      }
    }
  }

  /** A hit returns what the last set of the key with a positive lifetime stored, and it has not expired. */
  lemma HitIsLastSet(ops: seq<Op>, key: string, now: real)
    requires LookedUp(Run(ops), key, now).Some?
    ensures var last := LastSet(ops, key);
            last.Some? && last.value.finding == LookedUp(Run(ops), key, now).value && now < last.value.expires
  {
    EntriesAreLastSets(ops, Find(Run(ops), key).value);
  }

  // ----- a live key stays -----

  /** The keys that stand after a key in the dictionary. */
  function NewerKeys(m: seq<Entry>, key: string): set<string> {
    if m == [] || m[|m| - 1].key == key then {} else NewerKeys(m[..|m| - 1], key) + {m[|m| - 1].key}
  }

  lemma {:induction false} NewerMember(m: seq<Entry>, key: string, x: string)
    requires x in NewerKeys(m, key)
    ensures exists i :: 0 <= i < |m| && m[i].key == x
  {
    if x == m[|m| - 1].key {
    } else {
      NewerMember(m[..|m| - 1], key, x);
      var i :| 0 <= i < |m| - 1 && m[..|m| - 1][i].key == x;
      assert m[i].key == x;
    }
  }

  lemma {:induction false} NewerCount(m: seq<Entry>, i: nat)
    requires Distinct(m) && i < |m|
    ensures |NewerKeys(m, m[i].key)| == |m| - 1 - i
  {
    if i < |m| - 1 {
      NewerCount(m[..|m| - 1], i);
      if m[|m| - 1].key in NewerKeys(m[..|m| - 1], m[i].key) {
        NewerMember(m[..|m| - 1], m[i].key, m[|m| - 1].key);
      }
    }
  }

  lemma {:induction false} NewerWithout(m: seq<Entry>, key: string, gone: string)
    requires gone != key
    ensures NewerKeys(Without(m, gone), key) <= NewerKeys(m, key)
  {
    if m != [] {
      NewerWithout(m[..|m| - 1], key, gone);
    }
  }

  lemma NewerSnoc(m: seq<Entry>, e: Entry, key: string)
    ensures NewerKeys(m + [e], key) == if e.key == key then {} else NewerKeys(m, key) + {e.key}
  {
    assert (m + [e])[..|m|] == m;
  }

  lemma {:induction false} NewerTail(m: seq<Entry>, key: string)
    requires m != [] && m[0].key != key
    ensures NewerKeys(m[1..], key) <= NewerKeys(m, key)
  {
    if |m| > 1 && m[|m| - 1].key != key {
      assert m[1..][..|m| - 2] == m[..|m| - 1][1..];
      NewerTail(m[..|m| - 1], key);
    }
  }

  lemma {:induction false} SubsetSize(a: set<string>, b: set<string>)
    requires a <= b
    ensures |a| <= |b|
    decreases |b|
  {
    if a != {} {
      var x :| x in a;
      SubsetSize(a - {x}, b - {x});
    }
  }

  /** Eviction takes a key only when at least MAX_SIZE others are newer. */
  lemma EvictKeeps(m: seq<Entry>, e: Entry)
    requires Distinct(m) && |m| <= MAX_SIZE + 1 && e in m && |NewerKeys(m, e.key)| < MAX_SIZE
    ensures e in Evict(m) && NewerKeys(Evict(m), e.key) <= NewerKeys(m, e.key)
  {
    if |m| > MAX_SIZE {
      var i :| 0 <= i < |m| && m[i] == e;
      NewerCount(m, i);
      assert m[i] == m[1..][i - 1];
      NewerTail(m, e.key);
    }
  }

  /** The entry is in the dictionary, and only touched keys are newer. */
  predicate Kept(ops: seq<Op>, e: Entry) {
    e in Run(ops) && NewerKeys(Run(ops), e.key) <= TouchedSince(ops, e.key)
  }

  /** The dictionary before eviction, when another key is touched. */
  lemma OtherTouched(m: seq<Entry>, e: Entry, x: Entry)
    requires Distinct(m) && |m| <= MAX_SIZE && e in m && x.key != e.key
    ensures var full := Without(m, x.key) + [x];
            && Distinct(full) && |full| <= MAX_SIZE + 1 && e in full
            && NewerKeys(full, e.key) <= NewerKeys(m, e.key) + {x.key}
  {
    WithoutExact(m, x.key);
    NewerWithout(m, e.key, x.key);
    NewerSnoc(Without(m, x.key), x, e.key);
  }

  /** The entry is still there, and newer keys are those before and these. */
  predicate StaysIn(m: seq<Entry>, after: seq<Entry>, e: Entry, more: set<string>) {
    e in after && NewerKeys(after, e.key) <= NewerKeys(m, e.key) + more
  }

  lemma OtherLookup(m: seq<Entry>, key: string, now: real, e: Entry)
    requires Distinct(m) && |m| <= MAX_SIZE && e in m && key != e.key
    ensures StaysIn(m, AfterLookup(m, key, now), e, if LookedUp(m, key, now).Some? then {key} else {})
  {
    WithoutExact(m, key);
    NewerWithout(m, e.key, key);
    var found := Find(m, key);
    if found.Some? && found.value.expires > now {
      OtherTouched(m, e, found.value);
    }
  }

  lemma OtherStore(m: seq<Entry>, key: string, finding: Finding, ttl: int, now: real, e: Entry)
    requires Distinct(m) && |m| <= MAX_SIZE && e in m && key != e.key && ttl > 0
    requires |NewerKeys(m, e.key) + {key}| < MAX_SIZE
    ensures StaysIn(m, AfterStore(m, key, finding, ttl, now), e, {key})
  {
    var x := Entry(key, now + ttl as real, finding);
    OtherTouched(m, e, x);
    SubsetSize(NewerKeys(Without(m, key) + [x], e.key), NewerKeys(m, e.key) + {key});
    EvictKeeps(Without(m, key) + [x], e);
  }

  /** An operation on another key. */
  lemma OtherKeeps(ops: seq<Op>, op: Op, e: Entry)
    requires Kept(ops, e) && op.key != e.key && |TouchedSince(ops + [op], e.key)| < MAX_SIZE
    ensures Kept(ops + [op], e)
  {
    assert (ops + [op])[..|ops|] == ops;
    var m := Run(ops);
    RunBounded(ops);
    match op {
      case Lookup(key, now) => OtherLookup(m, key, now, e);
      case Store(key, finding, ttl, now) =>
        if ttl > 0 {
          SubsetSize(NewerKeys(m, e.key) + {key}, TouchedSince(ops + [op], e.key));
          OtherStore(m, key, finding, ttl, now, e);
        }
    }
  }

  lemma OwnStore(m: seq<Entry>, key: string, finding: Finding, ttl: int, now: real)
    requires ttl > 0
    ensures var e := Entry(key, now + ttl as real, finding); StaysIn([], AfterStore(m, key, finding, ttl, now), e, {})
  {
    var e := Entry(key, now + ttl as real, finding);
    var full := Without(m, key) + [e];
    assert full[|full| - 1] == e;
    assert Evict(full)[|Evict(full)| - 1] == e;
    LastNewest(Evict(full), e);
  }

  lemma OwnLookup(m: seq<Entry>, now: real, e: Entry)
    requires Find(m, e.key) == Some(e) && now < e.expires
    ensures StaysIn([], AfterLookup(m, e.key, now), e, {})
  {
    var after := AfterLookup(m, e.key, now);
    assert after[|after| - 1] == e;
    LastNewest(after, e);
  }

  /** A lookup of the key itself finds the entry and makes it the newest. */
  lemma OwnLookupKeeps(ops: seq<Op>, now: real, e: Entry)
    requires LastSet(ops, e.key) == Some(e) && now < e.expires
    requires e in Run(ops) || LookedUp(Run(ops), e.key, now).Some?
    ensures StaysIn([], AfterLookup(Run(ops), e.key, now), e, {})
  {
    RunBounded(ops);
    if LookedUp(Run(ops), e.key, now).Some? {
      EntriesAreLastSets(ops, Find(Run(ops), e.key).value);
    } else {
      FindAny(Run(ops), e);
    }
    OwnLookup(Run(ops), now, e);
  }

  lemma RunSnoc(ops: seq<Op>, op: Op)
    ensures Run(ops + [op]) == Next(Run(ops), op)
    ensures op.Lookup? ==> LastSet(ops + [op], op.key) == LastSet(ops, op.key)
  {
    assert (ops + [op])[..|ops|] == ops;
  }

  /** An operation on the key itself that leaves the entry its last set and alive. */
  lemma OwnKeeps(ops: seq<Op>, op: Op, e: Entry)
    requires op.key == e.key && LastSet(ops + [op], e.key) == Some(e) && op.now < e.expires
    requires Kept(ops, e) || Touches(Run(ops), op)
    ensures Kept(ops + [op], e)
  {
    RunSnoc(ops, op);
    if op.Lookup? {
      OwnLookupKeeps(ops, op.now, e);
    } else {
      OwnStoreKeeps(ops, op, e);
    }
  }

  lemma OwnStoreKeeps(ops: seq<Op>, op: Op, e: Entry)
    requires op.Store? && op.key == e.key && LastSet(ops + [op], e.key) == Some(e)
    requires Kept(ops, e) || Touches(Run(ops), op)
    ensures Kept(ops + [op], e)
  {
    assert (ops + [op])[..|ops|] == ops;
    if op.ttl > 0 {
      OwnStore(Run(ops), op.key, op.finding, op.ttl, op.now);
    }
  }

  lemma LastNewest(m: seq<Entry>, e: Entry)
    requires m != [] && m[|m| - 1] == e
    ensures NewerKeys(m, e.key) == {}
  {
  }

  lemma {:induction false} LiveKeyKept(ops: seq<Op>, e: Entry, now: real)
    requires Ordered(ops) && (ops != [] ==> ops[|ops| - 1].now <= now)
    requires LastSet(ops, e.key) == Some(e) && now < e.expires && |TouchedSince(ops, e.key)| < MAX_SIZE
    ensures Kept(ops, e)
  {
    var init, op := ops[..|ops| - 1], ops[|ops| - 1];
    assert ops == init + [op];
    var touches := Touches(Run(init), op);
    if op.key != e.key {
      SubsetSize(TouchedSince(init, e.key), TouchedSince(ops, e.key));
      LiveKeyKept(init, e, op.now);
      OtherKeeps(init, op, e);
    } else {
      if !touches {
        LiveKeyKept(init, e, op.now);
      }
      OwnKeeps(init, op, e);
    }
  }

  /** A key that was set, has not expired, and has seen fewer than 1024 distinct other keys touched since it was last
      touched itself is found. */
  lemma LiveKeyIsFound(ops: seq<Op>, key: string, now: real)
    requires Ordered(ops) && (ops != [] ==> ops[|ops| - 1].now <= now)
    requires LastSet(ops, key).Some? && now < LastSet(ops, key).value.expires
    requires |TouchedSince(ops, key)| < MAX_SIZE
    ensures LookedUp(Run(ops), key, now) == Some(LastSet(ops, key).value.finding)
  {
    LastSetKey(ops, key);
    LiveKeyKept(ops, LastSet(ops, key).value, now);
    RunBounded(ops);
    FindAny(Run(ops), LastSet(ops, key).value);
  }

  lemma {:induction false} LastSetKey(ops: seq<Op>, key: string)
    requires LastSet(ops, key).Some?
    ensures LastSet(ops, key).value.key == key
  {
    if !(ops[|ops| - 1].Store? && ops[|ops| - 1].key == key && ops[|ops| - 1].ttl > 0) {
      LastSetKey(ops[..|ops| - 1], key);
    }
  }
}
