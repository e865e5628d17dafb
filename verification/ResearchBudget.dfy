/** The per-run allowance of the market research, and what it bounds when several fields are researched at once. */
module ResearchBudget {

  datatype Answer<T> = Ok(value: T) | ValueError

  /** RunBudget: asking does not reserve, and recording does not refuse. */
  class RunBudget {
    const maxCalls: int
    const maxCost: real
    var calls: int
    var cost: real

    constructor (maxCalls: int, maxCost: real)
      ensures this.maxCalls == maxCalls && this.maxCost == maxCost && calls == 0 && cost == 0.0
    {
      this.maxCalls, this.maxCost := maxCalls, maxCost;
      calls, cost := 0, 0.0;
    }

    ghost function State(): Spent
      reads this
    {
      Spent(calls, cost)
    }

    method CanSpend(estimate: real) returns (r: Answer<bool>)
      ensures r == if estimate < 0.0 then ValueError else Ok(calls < maxCalls && cost + estimate <= maxCost)
      ensures r.Ok? ==> r.value == Allows(State(), maxCalls, maxCost, estimate)
    {
      if estimate < 0.0 {
        return ValueError;
      }
      if calls >= maxCalls {
        return Ok(false);
      }
      return Ok(cost + estimate <= maxCost);
    }

    method Record(spent: real) returns (r: Answer<bool>)
      modifies this
      ensures r.ValueError? <==> spent < 0.0
      ensures r.Ok? ==> calls == old(calls) + 1 && cost == old(cost) + spent
      ensures State() == if r.ValueError? then old(State()) else Recorded(old(State()), spent)
    {
      if spent < 0.0 {
        return ValueError;
      }
      calls, cost := calls + 1, cost + spent;
      return Ok(true);
    }

    method Exhausted() returns (r: bool)
      ensures r ==> forall estimate :: estimate > 0.0 ==> !Allows(State(), maxCalls, maxCost, estimate)
      ensures !r ==> exists estimate :: estimate > 0.0 && Allows(State(), maxCalls, maxCost, estimate)
    {
      r := calls >= maxCalls || cost >= maxCost;
      if !r {
        assert Allows(State(), maxCalls, maxCost, maxCost - cost);
      }
    }
  }

  datatype Spent = Spent(calls: int, cost: real)

  predicate Allows(s: Spent, maxCalls: int, maxCost: real, estimate: real) {
    s.calls < maxCalls && s.cost + estimate <= maxCost
  }

  function Recorded(s: Spent, spent: real): Spent {
    Spent(s.calls + 1, s.cost + spent)
  }

  // ----- k slots that research side by side, each suspended between asking and recording -----

  /** A slot is free, or a call it was allowed waits for the client, with the estimate it asked with. */
  datatype Slot = Idle | Calling(estimate: real)

  datatype Fan = Fan(spent: Spent, slots: seq<Slot>)

  /** What happens in a slot: a field asks and calls or gives up; its call returns and is recorded; or its call fails. */
  datatype Move =
    | Ask(slot: nat, estimate: real)
    | Return(slot: nat)
    | Fail(slot: nat)

  /** The caps of the budget, and the largest estimate a call asks with. */
  datatype Caps = Caps(maxCalls: nat, maxCost: real, most: real)

  predicate Enabled(f: Fan, c: Caps, m: Move) {
    && m.slot < |f.slots|
    && match m {
         case Ask(i, estimate) => f.slots[i] == Idle && 0.0 <= estimate <= c.most
         case Return(i) => f.slots[i].Calling?
         case Fail(i) => f.slots[i].Calling?
       }
  }

  function Next(f: Fan, c: Caps, m: Move): Fan
    requires Enabled(f, c, m)
  {
    match m
    case Ask(i, estimate) =>
      if Allows(f.spent, c.maxCalls, c.maxCost, estimate) then f.(slots := f.slots[i := Calling(estimate)]) else f
    case Return(i) => Fan(Recorded(f.spent, f.slots[i].estimate), f.slots[i := Idle])
    case Fail(i) => f.(slots := f.slots[i := Idle])
  }

  predicate ValidRun(f: Fan, c: Caps, moves: seq<Move>)
    decreases |moves|
  {
    moves == [] || (Enabled(f, c, moves[0]) && ValidRun(Next(f, c, moves[0]), c, moves[1..]))
  }

  function After(f: Fan, c: Caps, moves: seq<Move>): Fan
    requires ValidRun(f, c, moves)
    decreases |moves|
  {
    if moves == [] then f else After(Next(f, c, moves[0]), c, moves[1..])
  }

  function Start(k: nat): Fan {
    Fan(Spent(0, 0.0), seq(k, _ => Idle))
  }

  // ----- the bound -----

  function Price(t: Slot): real {
    if t.Calling? then t.estimate else 0.0
  }

  function InFlight(ts: seq<Slot>): (n: nat)
    ensures n <= |ts|
  {
    if ts == [] then 0 else InFlight(ts[..|ts| - 1]) + (if ts[|ts| - 1].Calling? then 1 else 0)
  }

  function Owed(ts: seq<Slot>): real {
    if ts == [] then 0.0 else Owed(ts[..|ts| - 1]) + Price(ts[|ts| - 1])
  }

  lemma {:induction false} Replace(ts: seq<Slot>, i: nat, t: Slot)
    requires i < |ts|
    ensures InFlight(ts[i := t]) == InFlight(ts) - (if ts[i].Calling? then 1 else 0) + (if t.Calling? then 1 else 0)
    ensures Owed(ts[i := t]) == Owed(ts) - Price(ts[i]) + Price(t)
  {
    var n := |ts| - 1;
    if i < n {
      assert ts[i := t][..n] == ts[..n][i := t];
      Replace(ts[..n], i, t);
    } else {
      assert ts[i := t][..n] == ts[..n];
    }
  }

  /** Estimates in flight lie between nothing and the largest one each. */
  predicate Priced(ts: seq<Slot>, most: real) {
    forall i :: 0 <= i < |ts| ==> 0.0 <= Price(ts[i]) <= most
  }

  /** So many estimates. */
  function Total(n: nat, each: real): real {
    n as real * each
  }

  lemma Scale(a: nat, b: nat, each: real)
    requires a <= b && 0.0 <= each
    ensures 0.0 <= Total(a, each) <= Total(b, each)
  {
  }

  lemma TotalAdds(a: nat, b: nat, each: real)
    ensures Total(a + b, each) == Total(a, each) + Total(b, each)
    ensures Total(0, each) == 0.0 && Total(1, each) == each
  {
  }

  lemma {:induction false} OwedBound(ts: seq<Slot>, most: real)
    requires Priced(ts, most) && 0.0 <= most
    ensures 0.0 <= Owed(ts) <= Total(InFlight(ts), most)
  {
    if ts != [] {
      OwedBound(ts[..|ts| - 1], most);
      TotalAdds(InFlight(ts[..|ts| - 1]), 1, most);
    }
  }

  lemma {:induction false} SomeFree(ts: seq<Slot>, i: nat)
    requires i < |ts| && ts[i] == Idle
    ensures InFlight(ts) < |ts|
  {
    if i < |ts| - 1 {
      SomeFree(ts[..|ts| - 1], i);
    }
  }

  /** What is spent and in flight together exceeds the caps by at most what all other slots may have in flight. */
  ghost predicate Inv(f: Fan, c: Caps, others: nat) {
    && |f.slots| == others + 1 && Priced(f.slots, c.most) && 0.0 <= c.most
    && f.spent.calls + InFlight(f.slots) <= c.maxCalls + others
    && f.spent.cost + Owed(f.slots) <= c.maxCost + Total(others, c.most)
  }

  /** A free slot leaves at most the others in flight. */
  lemma FreeSlot(slots: seq<Slot>, i: nat, others: nat, most: real)
    requires i < |slots| == others + 1 && slots[i] == Idle && Priced(slots, most) && 0.0 <= most
    ensures InFlight(slots) <= others && Owed(slots) <= Total(others, most)
  {
    SomeFree(slots, i);
    OwedBound(slots, most);
    Scale(InFlight(slots), others, most);
  }

  lemma AskKeeps(f: Fan, c: Caps, others: nat, i: nat, estimate: real)
    requires Inv(f, c, others) && Enabled(f, c, Ask(i, estimate))
    requires Allows(f.spent, c.maxCalls, c.maxCost, estimate)
    ensures Inv(f.(slots := f.slots[i := Calling(estimate)]), c, others)
  {
    FreeSlot(f.slots, i, others, c.most);
    Replace(f.slots, i, Calling(estimate));
  }

  lemma SettleKeeps(f: Fan, c: Caps, others: nat, i: nat)
    requires Inv(f, c, others) && i < |f.slots| && f.slots[i].Calling?
    ensures Inv(f.(slots := f.slots[i := Idle]), c, others)
    ensures Inv(Fan(Recorded(f.spent, f.slots[i].estimate), f.slots[i := Idle]), c, others)
  {
    Replace(f.slots, i, Idle);
    assert 0.0 <= Price(f.slots[i]);
  }

  lemma StepKeeps(f: Fan, c: Caps, others: nat, m: Move)
    requires Inv(f, c, others) && Enabled(f, c, m)
    ensures Inv(Next(f, c, m), c, others)
  {
    match m
    case Ask(i, estimate) =>
      if Allows(f.spent, c.maxCalls, c.maxCost, estimate) {
        AskKeeps(f, c, others, i, estimate);
      }
    case Return(i) => SettleKeeps(f, c, others, i);
    case Fail(i) => SettleKeeps(f, c, others, i);
  }

  lemma {:induction false} RunKeeps(f: Fan, c: Caps, others: nat, moves: seq<Move>)
    requires Inv(f, c, others) && ValidRun(f, c, moves)
    ensures Inv(After(f, c, moves), c, others)
    decreases |moves|
  {
    if moves != [] {
      StepKeeps(f, c, others, moves[0]);
      RunKeeps(Next(f, c, moves[0]), c, others, moves[1..]);
    }
  }

  lemma {:induction false} NothingOwed(k: nat)
    ensures InFlight(Start(k).slots) == 0 && Owed(Start(k).slots) == 0.0
  {
    if k > 0 {
      NothingOwed(k - 1);
      assert Start(k).slots[..k - 1] == Start(k - 1).slots;
    }
  }

  /** Every interleaving of k slots on one budget: calls made and in flight exceed the call cap by at most k - 1, and
      money spent and in flight exceeds the cost cap by at most k - 1 estimates. */
  lemma OvershootBound(c: Caps, k: nat, moves: seq<Move>)
    requires 0 < k && 0.0 <= c.maxCost && 0.0 <= c.most && ValidRun(Start(k), c, moves)
    ensures var f := After(Start(k), c, moves);
            && f.spent.calls + InFlight(f.slots) <= c.maxCalls + (k - 1)
            && f.spent.cost + Owed(f.slots) <= c.maxCost + Total(k - 1, c.most)
            && 0.0 <= Owed(f.slots)
  {
    NothingOwed(k);
    Scale(0, k - 1, c.most);
    RunKeeps(Start(k), c, k - 1, moves);
    OwedBound(After(Start(k), c, moves).slots, c.most);
  }

  /** One slot alone keeps both caps. */
  lemma AloneWithinCaps(c: Caps, moves: seq<Move>)
    requires 0.0 <= c.maxCost && 0.0 <= c.most && ValidRun(Start(1), c, moves)
    ensures var s := After(Start(1), c, moves).spent; s.calls <= c.maxCalls && s.cost <= c.maxCost
  {
    OvershootBound(c, 1, moves);
    TotalAdds(0, 0, c.most);
  }

  // ----- the bound is reached -----

  lemma {:induction false} RunConcat(f: Fan, c: Caps, a: seq<Move>, b: seq<Move>)
    requires ValidRun(f, c, a) && ValidRun(After(f, c, a), c, b)
    ensures ValidRun(f, c, a + b) && After(f, c, a + b) == After(After(f, c, a), c, b)
    decreases |a|
  {
    if a == [] {
      assert a + b == b;
    } else {
      RunConcat(Next(f, c, a[0]), c, a[1..], b);
      assert (a + b)[1..] == a[1..] + b;
    }
  }

  lemma RunSnoc(f: Fan, c: Caps, a: seq<Move>, m: Move)
    requires ValidRun(f, c, a) && Enabled(After(f, c, a), c, m)
    ensures ValidRun(f, c, a + [m]) && After(f, c, a + [m]) == Next(After(f, c, a), c, m)
  {
    assert [m][1..] == [];
    RunConcat(f, c, a, [m]);
  }

  /** n calls spent, the first j of k slots calling. */
  function Stage(k: nat, n: nat, j: nat, e: real): Fan {
    Fan(Spent(n, Total(n, e)), seq(k, i => if 0 <= i < j then Calling(e) else Idle))
  }

  /** Caps for exactly n calls of the estimate. */
  function CapsFor(n: nat, e: real): Caps {
    Caps(n, Total(n, e), e)
  }

  /** Somebody gets from the start to this stage. */
  ghost predicate Reached(k: nat, n: nat, e: real, f: Fan) {
    exists moves :: Reaches(k, n, e, f, moves)
  }

  ghost predicate Reaches(k: nat, n: nat, e: real, f: Fan, moves: seq<Move>) {
    ValidRun(Start(k), CapsFor(n, e), moves) && After(Start(k), CapsFor(n, e), moves) == f
  }

  lemma ReachNext(k: nat, n: nat, e: real, f: Fan, m: Move)
    requires Reached(k, n, e, f) && Enabled(f, CapsFor(n, e), m)
    ensures Reached(k, n, e, Next(f, CapsFor(n, e), m))
  {
    var moves :| Reaches(k, n, e, f, moves);
    RunSnoc(Start(k), CapsFor(n, e), moves, m);
    assert Reaches(k, n, e, Next(f, CapsFor(n, e), m), moves + [m]);
  }

  lemma AskNext(k: nat, n: nat, e: real, done: nat, j: nat)
    requires Reached(k, n, e, Stage(k, done, j, e)) && j < k && done < n && 0.0 <= e
    ensures Reached(k, n, e, Stage(k, done, j + 1, e))
  {
    var f := Stage(k, done, j, e);
    Scale(done + 1, n, e);
    TotalAdds(done, 1, e);
    assert Allows(f.spent, n, Total(n, e), e);
    assert Next(f, CapsFor(n, e), Ask(j, e)).slots == Stage(k, done, j + 1, e).slots;
    ReachNext(k, n, e, f, Ask(j, e));
  }

  lemma ReturnNext(k: nat, n: nat, e: real, done: nat, j: nat)
    requires Reached(k, n, e, Stage(k, done, j, e)) && 0 < j <= k && 0.0 <= e
    ensures Reached(k, n, e, Stage(k, done + 1, j - 1, e))
  {
    var f := Stage(k, done, j, e);
    TotalAdds(done, 1, e);
    assert Next(f, CapsFor(n, e), Return(j - 1)).slots == Stage(k, done + 1, j - 1, e).slots;
    ReachNext(k, n, e, f, Return(j - 1));
  }

  /** The first calls, one after the other. */
  lemma {:induction false} ReachDone(k: nat, n: nat, e: real, done: nat)
    requires 0 < k && done < n && 0.0 <= e
    ensures Reached(k, n, e, Stage(k, done, 0, e))
  {
    if done == 0 {
      TotalAdds(0, 0, e);
      assert Stage(k, 0, 0, e) == Start(k);
      assert Reaches(k, n, e, Start(k), []);
    } else {
      ReachDone(k, n, e, done - 1);
      AskNext(k, n, e, done - 1, 0);
      ReturnNext(k, n, e, done - 1, 1);
    }
  }

  /** Then all slots ask before any of them returns. */
  lemma {:induction false} ReachAsking(k: nat, n: nat, e: real, j: nat)
    requires 0 < k && 0 < n && j <= k && 0.0 <= e
    ensures Reached(k, n, e, Stage(k, n - 1, j, e))
  {
    if j == 0 {
      ReachDone(k, n, e, n - 1);
    } else {
      ReachAsking(k, n, e, j - 1);
      AskNext(k, n, e, n - 1, j - 1);
    }
  }

  lemma {:induction false} ReachReturned(k: nat, n: nat, e: real, j: nat)
    requires 0 < k && 0 < n && j <= k && 0.0 <= e
    ensures Reached(k, n, e, Stage(k, n - 1 + j, k - j, e))
  {
    if j == 0 {
      ReachAsking(k, n, e, k);
    } else {
      ReachReturned(k, n, e, j - 1);
      ReturnNext(k, n, e, n - 1 + (j - 1), k - (j - 1));
    }
  }

  /** For every number of slots and every cap, some interleaving spends exactly k - 1 calls and estimates too many. */
  lemma OvershootReached(k: nat, n: nat, e: real)
    requires 0 < k && 0 < n && 0.0 <= e
    ensures exists moves ::
              ValidRun(Start(k), CapsFor(n, e), moves)
              && After(Start(k), CapsFor(n, e), moves).spent.calls == n + (k - 1)
              && After(Start(k), CapsFor(n, e), moves).spent.cost == CapsFor(n, e).maxCost + Total(k - 1, e)
  {
    ReachReturned(k, n, e, k);
    var moves :| Reaches(k, n, e, Stage(k, n - 1 + k, 0, e), moves);
    TotalAdds(n, k - 1, e);
  }
}
