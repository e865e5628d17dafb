/** The phone pattern as a shape of positions, and why a text of that shape is always matched as a whole, whichever way
    the backtracking matcher splits its digits. */
module Phones {
  import opened DeltaStreamer
  import opened Redaction
  import opened Patterns

  // ----- the shape -----

  predicate Run(t: string, i: nat, j: nat, lo: nat, hi: nat) {
    && i + lo <= j <= i + hi && j <= |t|
    && forall k :: i <= k < j ==> Digit(t[k])
  }

  /** One of the characters, or none. */
  predicate Perhaps(t: string, i: nat, j: nat, chars: set<char>) {
    j == i || (j == i + 1 && i < |t| && t[i] in chars)
  }

  predicate Gap(t: string, i: nat, j: nat) {
    Perhaps(t, i, j, {' ', '.', '-'})
  }

  predicate CountryParts(t: string, i: nat, o: nat, p: nat, m: nat) {
    Perhaps(t, i, o, {'+'}) && Run(t, o, p, 1, 3) && Gap(t, p, m)
  }

  predicate AreaParts(t: string, i: nat, o: nat, p: nat, q: nat, m: nat) {
    Perhaps(t, i, o, {'('}) && Run(t, o, p, 2, 4) && Perhaps(t, p, q, {')'}) && Gap(t, q, m)
  }

  predicate NumberParts(t: string, i: nat, p: nat, q: nat, e: nat) {
    Run(t, i, p, 3, 4) && Gap(t, p, q) && Run(t, q, e, 3, 4)
  }

  ghost predicate CountryAt(t: string, i: nat, m: nat) {
    m == i || exists o: nat, p: nat :: CountryParts(t, i, o, p, m)
  }

  ghost predicate AreaAt(t: string, i: nat, m: nat) {
    m == i || exists o: nat, p: nat, q: nat :: AreaParts(t, i, o, p, q, m)
  }

  ghost predicate NumberAt(t: string, i: nat, e: nat) {
    exists p: nat, q: nat :: NumberParts(t, i, p, q, e)
  }

  /** A phone number from position i to e: a country code up to c, an area code up to a, each of them optional, and two
      groups of digits. */
  ghost predicate PhoneAt(t: string, i: nat, c: nat, a: nat, e: nat) {
    CountryAt(t, i, c) && AreaAt(t, c, a) && NumberAt(t, a, e)
  }

  // ----- the ends that the matcher tries -----

  const NUMBER := Then(Times(DIGIT, 3, 4), Then(Maybe(PHONE_SEPARATOR), Times(DIGIT, 3, 4)))

  const LOCAL := Then(Maybe(AREA), NUMBER)

  lemma InOne(test: char -> bool, t: string, i: nat, m: nat)
    ensures m in Ends(One(test), t, i) <==> m == i + 1 && i < |t| && test(t[i])
  {
  }

  lemma {:induction false} InFrom(re: Regex, t: string, starts: seq<nat>, e: nat)
    ensures e in EndsFrom(re, t, starts) <==> exists k :: 0 <= k < |starts| && e in Ends(re, t, starts[k])
  {
    if starts != [] {
      InFrom(re, t, starts[1..], e);
      assert forall k :: 0 < k < |starts| ==> starts[k] == starts[1..][k - 1];
      if k :| 0 <= k < |starts| && e in Ends(re, t, starts[k]) {
        assert k > 0 ==> e in Ends(re, t, starts[1..][k - 1]);
      }
      if e in EndsFrom(re, t, starts[1..]) {
        var k :| 0 <= k < |starts[1..]| && e in Ends(re, t, starts[1..][k]);
        assert e in Ends(re, t, starts[k + 1]);
      }
    }
  }

  lemma ThenFound(a: Regex, b: Regex, t: string, i: nat, m: nat, e: nat)
    requires m in Ends(a, t, i) && e in Ends(b, t, m)
    ensures e in Ends(Then(a, b), t, i)
  {
    var k :| 0 <= k < |Ends(a, t, i)| && Ends(a, t, i)[k] == m;
    assert e in Ends(b, t, Ends(a, t, i)[k]);
    InFrom(b, t, Ends(a, t, i), e);
  }

  lemma ThenSplit(a: Regex, b: Regex, t: string, i: nat, e: nat) returns (m: nat)
    requires e in Ends(Then(a, b), t, i)
    ensures m in Ends(a, t, i) && e in Ends(b, t, m)
  {
    InFrom(b, t, Ends(a, t, i), e);
    var k :| 0 <= k < |Ends(a, t, i)| && e in Ends(b, t, Ends(a, t, i)[k]);
    m := Ends(a, t, i)[k];
  }

  lemma {:induction false} NoMoreTimes(re: Regex, t: string, starts: seq<nat>)
    ensures EndsTimesFrom(re, 0, 0, t, starts) == starts
  {
    if starts != [] {
      NoMoreTimes(re, t, starts[1..]);
      assert EndsTimes(re, 0, 0, t, starts[0]) == [starts[0]];
    }
  }

  lemma MaybeEnds(re: Regex, t: string, i: nat)
    ensures Ends(Maybe(re), t, i) == Ends(re, t, i) + [i]
  {
    NoMoreTimes(re, t, Ends(re, t, i));
  }

  lemma InMaybeOne(test: char -> bool, chars: set<char>, t: string, i: nat, m: nat)
    requires forall c: char :: test(c) <==> c in chars
    ensures m in Ends(Maybe(One(test)), t, i) <==> Perhaps(t, i, m, chars)
  {
    MaybeEnds(One(test), t, i);
    InOne(test, t, i, m);
  }

  lemma DigitTimes(lo: nat, hi: nat, t: string, i: nat)
    ensures EndsTimes(DIGIT, lo, hi, t, i) ==
            (if hi > 0 && i < |t| && Digit(t[i]) then EndsTimes(DIGIT, if lo == 0 then 0 else lo - 1, hi - 1, t, i + 1)
             else []) + (if lo == 0 then [i] else [])
  {
    var fewer := if lo == 0 then 0 else lo - 1;
    if i < |t| && Digit(t[i]) && hi > 0 {
      assert Ends(DIGIT, t, i) == [i + 1] && [i + 1][1..] == [];
      assert EndsTimesFrom(DIGIT, fewer, hi - 1, t, [i + 1])
          == EndsTimes(DIGIT, fewer, hi - 1, t, i + 1) + EndsTimesFrom(DIGIT, fewer, hi - 1, t, []);
      assert EndsTimesFrom(DIGIT, fewer, hi - 1, t, []) == [];
    }
  }

  lemma RunStep(lo: nat, hi: nat, t: string, i: nat, m: nat)
    requires i <= |t|
    ensures var fewer := if lo == 0 then 0 else lo - 1;
            Run(t, i, m, lo, hi) <==>
            (hi > 0 && i < |t| && Digit(t[i]) && Run(t, i + 1, m, fewer, hi - 1)) || (lo == 0 && m == i)
  {
  }

  lemma {:induction false} InDigits(lo: nat, hi: nat, t: string, i: nat, m: nat)
    requires i <= |t|
    ensures m in EndsTimes(DIGIT, lo, hi, t, i) <==> Run(t, i, m, lo, hi)
    decreases hi
  {
    DigitTimes(lo, hi, t, i);
    RunStep(lo, hi, t, i, m);
    if hi > 0 && i < |t| && Digit(t[i]) {
      InDigits(if lo == 0 then 0 else lo - 1, hi - 1, t, i + 1, m);
    }
  }

  lemma InRun(lo: nat, hi: nat, t: string, i: nat, m: nat)
    requires i <= |t|
    ensures m in Ends(Times(DIGIT, lo, hi), t, i) <==> Run(t, i, m, lo, hi)
  {
    InDigits(lo, hi, t, i, m);
  }

  lemma InGap(t: string, i: nat, m: nat)
    ensures m in Ends(Maybe(PHONE_SEPARATOR), t, i) <==> Gap(t, i, m)
  {
    InMaybeOne((c: char) => c == ' ' || c == '.' || c == '-', {' ', '.', '-'}, t, i, m);
    MaybeEnds(PHONE_SEPARATOR, t, i);
  }

  lemma InMark(re: Regex, mark: char, t: string, i: nat, m: nat)
    requires re.One? && forall c: char :: re.test(c) <==> c == mark
    ensures m in Ends(Maybe(re), t, i) <==> Perhaps(t, i, m, {mark})
  {
    InMaybeOne(re.test, {mark}, t, i, m);
  }

  lemma NumberFound(t: string, i: nat, p: nat, q: nat, e: nat)
    requires i <= |t| && NumberParts(t, i, p, q, e)
    ensures e in Ends(NUMBER, t, i)
  {
    InRun(3, 4, t, i, p);
    InGap(t, p, q);
    InRun(3, 4, t, q, e);
    ThenFound(Maybe(PHONE_SEPARATOR), Times(DIGIT, 3, 4), t, p, q, e);
    ThenFound(Times(DIGIT, 3, 4), Then(Maybe(PHONE_SEPARATOR), Times(DIGIT, 3, 4)), t, i, p, e);
  }

  lemma NumberSplit(t: string, i: nat, e: nat) returns (p: nat, q: nat)
    requires i <= |t| && e in Ends(NUMBER, t, i)
    ensures NumberParts(t, i, p, q, e)
  {
    p := ThenSplit(Times(DIGIT, 3, 4), Then(Maybe(PHONE_SEPARATOR), Times(DIGIT, 3, 4)), t, i, e);
    InRun(3, 4, t, i, p);
    q := ThenSplit(Maybe(PHONE_SEPARATOR), Times(DIGIT, 3, 4), t, p, e);
    InGap(t, p, q);
    InRun(3, 4, t, q, e);
  }

  lemma CountryFound(t: string, i: nat, o: nat, p: nat, m: nat)
    requires i <= |t| && CountryParts(t, i, o, p, m)
    ensures m in Ends(COUNTRY, t, i)
  {
    InMark(PLUS, '+', t, i, o);
    InRun(1, 3, t, o, p);
    InGap(t, p, m);
    ThenFound(Times(DIGIT, 1, 3), Maybe(PHONE_SEPARATOR), t, o, p, m);
    ThenFound(Maybe(PLUS), Then(Times(DIGIT, 1, 3), Maybe(PHONE_SEPARATOR)), t, i, o, m);
  }

  lemma CountrySplit(t: string, i: nat, m: nat) returns (o: nat, p: nat)
    requires i <= |t| && m in Ends(COUNTRY, t, i)
    ensures CountryParts(t, i, o, p, m)
  {
    o := ThenSplit(Maybe(PLUS), Then(Times(DIGIT, 1, 3), Maybe(PHONE_SEPARATOR)), t, i, m);
    InMark(PLUS, '+', t, i, o);
    p := ThenSplit(Times(DIGIT, 1, 3), Maybe(PHONE_SEPARATOR), t, o, m);
    InRun(1, 3, t, o, p);
    InGap(t, p, m);
  }

  const AREA_END := Then(Maybe(CLOSING), Maybe(PHONE_SEPARATOR))

  const AREA_DIGITS := Then(Times(DIGIT, 2, 4), AREA_END)

  lemma AreaFound(t: string, i: nat, o: nat, p: nat, q: nat, m: nat)
    requires i <= |t| && AreaParts(t, i, o, p, q, m)
    ensures m in Ends(AREA, t, i)
  {
    InMark(OPENING, '(', t, i, o);
    InRun(2, 4, t, o, p);
    InMark(CLOSING, ')', t, p, q);
    InGap(t, q, m);
    ThenFound(Maybe(CLOSING), Maybe(PHONE_SEPARATOR), t, p, q, m);
    ThenFound(Times(DIGIT, 2, 4), AREA_END, t, o, p, m);
    ThenFound(Maybe(OPENING), AREA_DIGITS, t, i, o, m);
  }

  lemma AreaSplit(t: string, i: nat, m: nat) returns (o: nat, p: nat, q: nat)
    requires i <= |t| && m in Ends(AREA, t, i)
    ensures AreaParts(t, i, o, p, q, m)
  {
    o := ThenSplit(Maybe(OPENING), AREA_DIGITS, t, i, m);
    InMark(OPENING, '(', t, i, o);
    p := ThenSplit(Times(DIGIT, 2, 4), AREA_END, t, o, m);
    InRun(2, 4, t, o, p);
    q := ThenSplit(Maybe(CLOSING), Maybe(PHONE_SEPARATOR), t, p, m);
    InMark(CLOSING, ')', t, p, q);
    InGap(t, q, m);
  }

  /** What the country part of the pattern can take. */
  lemma InCountry(t: string, i: nat, m: nat)
    requires i <= |t|
    ensures m in Ends(Maybe(COUNTRY), t, i) <==> CountryAt(t, i, m)
  {
    MaybeEnds(COUNTRY, t, i);
    if m in Ends(COUNTRY, t, i) {
      var o, p := CountrySplit(t, i, m);
    }
    if o: nat, p: nat :| CountryParts(t, i, o, p, m) {
      CountryFound(t, i, o, p, m);
    }
  }

  lemma InArea(t: string, i: nat, m: nat)
    requires i <= |t|
    ensures m in Ends(Maybe(AREA), t, i) <==> AreaAt(t, i, m)
  {
    MaybeEnds(AREA, t, i);
    if m in Ends(AREA, t, i) {
      var o, p, q := AreaSplit(t, i, m);
    }
    if o: nat, p: nat, q: nat :| AreaParts(t, i, o, p, q, m) {
      AreaFound(t, i, o, p, q, m);
    }
  }

  lemma InNumber(t: string, i: nat, e: nat)
    requires i <= |t|
    ensures e in Ends(NUMBER, t, i) <==> NumberAt(t, i, e)
  {
    if e in Ends(NUMBER, t, i) {
      var p, q := NumberSplit(t, i, e);
    }
    if p: nat, q: nat :| NumberParts(t, i, p, q, e) {
      NumberFound(t, i, p, q, e);
    }
  }

  lemma StaysInText(t: string, i: nat, m: nat)
    requires i <= |t|
    ensures CountryAt(t, i, m) || AreaAt(t, i, m) || NumberAt(t, i, m) ==> i <= m <= |t|
  {
  }

  // ----- the order in which they are tried -----

  predicate Falling(ends: seq<nat>) {
    forall j, k :: 0 <= j < k < |ends| ==> ends[j] >= ends[k]
  }

  predicate AtLeast(ends: seq<nat>, bound: nat) {
    forall k :: 0 <= k < |ends| ==> ends[k] >= bound
  }

  predicate AtMost(ends: seq<nat>, bound: nat) {
    forall k :: 0 <= k < |ends| ==> ends[k] <= bound
  }

  lemma FallingConcat(a: seq<nat>, b: seq<nat>, bound: nat)
    requires Falling(a) && Falling(b) && AtLeast(a, bound) && AtMost(b, bound)
    ensures Falling(a + b)
  {
  }

  lemma FromNext(re: Regex, t: string, a: seq<nat>, b: seq<nat>)
    requires a != []
    ensures EndsFrom(re, t, a) == Ends(re, t, a[0]) + EndsFrom(re, t, a[1..])
    ensures EndsFrom(re, t, a + b) == Ends(re, t, a[0]) + EndsFrom(re, t, a[1..] + b)
  {
    assert (a + b)[1..] == a[1..] + b;
  }

  lemma Grouped(a: seq<nat>, b: seq<nat>, c: seq<nat>)
    ensures a + (b + c) == (a + b) + c
  {
  }

  lemma {:induction false} FromConcat(re: Regex, t: string, a: seq<nat>, b: seq<nat>)
    ensures EndsFrom(re, t, a + b) == EndsFrom(re, t, a) + EndsFrom(re, t, b)
  {
    if a == [] {
      assert a + b == b;
    } else {
      FromConcat(re, t, a[1..], b);
      FromNext(re, t, a, b);
      Grouped(Ends(re, t, a[0]), EndsFrom(re, t, a[1..]), EndsFrom(re, t, b));
    }
  }

  lemma FromOne(re: Regex, t: string, i: nat)
    ensures EndsFrom(re, t, [i]) == Ends(re, t, i)
  {
    assert [i][1..] == [];
  }

  /** What may follow a group of digits: nothing but marks, the longest choice first. */
  ghost predicate Trailing(re: Regex, t: string) {
    forall p: nat :: p <= |t| ==>
      Falling(Ends(re, t, p)) && (p < |t| && Digit(t[p]) ==> Ends(re, t, p) == [p])
  }

  lemma MaybeMarkEnds(re: Regex, t: string, i: nat)
    requires re.One?
    ensures Ends(Maybe(re), t, i) == if i < |t| && re.test(t[i]) then [i + 1, i] else [i]
  {
    MaybeEnds(re, t, i);
  }

  lemma GapTrails(t: string)
    ensures Trailing(Maybe(PHONE_SEPARATOR), t)
  {
    forall p: nat | p <= |t|
      ensures var ends := Ends(Maybe(PHONE_SEPARATOR), t, p);
              Falling(ends) && (p < |t| && Digit(t[p]) ==> ends == [p])
    {
      MaybeMarkEnds(PHONE_SEPARATOR, t, p);
    }
  }

  function GapEnds(t: string, i: nat): seq<nat> {
    if i < |t| && t[i] in {' ', '.', '-'} then [i + 1, i] else [i]
  }

  lemma FromTwo(re: Regex, t: string, i: nat)
    ensures EndsFrom(re, t, [i + 1, i]) == Ends(re, t, i + 1) + Ends(re, t, i)
  {
    assert [i + 1, i] == [i + 1] + [i];
    FromConcat(re, t, [i + 1], [i]);
    FromOne(re, t, i);
    FromOne(re, t, i + 1);
  }

  lemma AreaEndEnds(t: string, i: nat)
    ensures Ends(AREA_END, t, i) == (if i < |t| && t[i] == ')' then GapEnds(t, i + 1) else []) + GapEnds(t, i)
  {
    MaybeMarkEnds(CLOSING, t, i);
    MaybeMarkEnds(PHONE_SEPARATOR, t, i);
    if i < |t| && t[i] == ')' {
      MaybeMarkEnds(PHONE_SEPARATOR, t, i + 1);
      FromTwo(Maybe(PHONE_SEPARATOR), t, i);
    } else {
      FromOne(Maybe(PHONE_SEPARATOR), t, i);
    }
  }

  lemma AreaEndTrails(t: string)
    ensures Trailing(AREA_END, t)
  {
    forall p: nat | p <= |t|
      ensures var ends := Ends(AREA_END, t, p); Falling(ends) && (p < |t| && Digit(t[p]) ==> ends == [p])
    {
      AreaEndEnds(t, p);
    }
  }

  /** One earlier start, of which nothing is taken but the start itself. */
  lemma EarlierFalls(re: Regex, t: string, more: seq<nat>, i: nat)
    requires Falling(EndsFrom(re, t, more)) && AtLeast(EndsFrom(re, t, more), i) && Ends(re, t, i) == [i]
    ensures Falling(EndsFrom(re, t, more + [i]))
  {
    FromConcat(re, t, more, [i]);
    FromOne(re, t, i);
    FallingConcat(EndsFrom(re, t, more), [i], i);
  }

  /** The ends behind some digits, the furthest first. */
  function DigitEnds(lo: nat, hi: nat, t: string, i: nat): seq<nat>
    decreases hi
  {
    (if hi > 0 && i < |t| && Digit(t[i]) then DigitEnds(if lo == 0 then 0 else lo - 1, hi - 1, t, i + 1) else [])
    + (if lo == 0 then [i] else [])
  }

  lemma {:induction false} DigitTimesEnds(lo: nat, hi: nat, t: string, i: nat)
    ensures EndsTimes(DIGIT, lo, hi, t, i) == DigitEnds(lo, hi, t, i)
    decreases hi
  {
    DigitTimes(lo, hi, t, i);
    if hi > 0 && i < |t| && Digit(t[i]) {
      DigitTimesEnds(if lo == 0 then 0 else lo - 1, hi - 1, t, i + 1);
    }
  }

  lemma BehindDigits(re: Regex, lo: nat, hi: nat, t: string, i: nat)
    requires i <= |t|
    ensures AtLeast(EndsFrom(re, t, DigitEnds(lo, hi, t, i)), i)
  {
    EndsTimesWithin(DIGIT, lo, hi, t, i);
    DigitTimesEnds(lo, hi, t, i);
    EndsFromWithin(re, t, DigitEnds(lo, hi, t, i), i, i + Many(hi, 1));
  }

  lemma {:induction false} DigitsFall(re: Regex, lo: nat, hi: nat, t: string, i: nat)
    requires Trailing(re, t) && i <= |t|
    ensures Falling(EndsFrom(re, t, DigitEnds(lo, hi, t, i)))
    decreases hi
  {
    if hi > 0 && i < |t| && Digit(t[i]) {
      var fewer := if lo == 0 then 0 else lo - 1;
      var more := DigitEnds(fewer, hi - 1, t, i + 1);
      DigitsFall(re, fewer, hi - 1, t, i + 1);
      if lo == 0 {
        BehindDigits(re, fewer, hi - 1, t, i + 1);
        EarlierFalls(re, t, more, i);
      } else {
        assert more + [] == more;
      }
    } else {
      NoRunFalls(re, lo, t, i);
    }
  }

  lemma GroupFalls(re: Regex, lo: nat, hi: nat, t: string, i: nat)
    requires Trailing(re, t) && i <= |t|
    ensures Falling(Ends(Then(Times(DIGIT, lo, hi), re), t, i))
  {
    DigitTimesEnds(lo, hi, t, i);
    DigitsFall(re, lo, hi, t, i);
  }

  lemma NoRunFalls(re: Regex, lo: nat, t: string, i: nat)
    requires Trailing(re, t) && i <= |t|
    ensures Falling(EndsFrom(re, t, [] + (if lo == 0 then [i] else [])))
  {
    FromOne(re, t, i);
    assert [] + [i] == [i];
  }

  lemma NoDigitHere(re: Regex, lo: nat, hi: nat, t: string, i: nat)
    requires lo > 0 && i < |t| && !Digit(t[i])
    ensures Ends(Then(Times(DIGIT, lo, hi), re), t, i) == []
  {
    DigitTimes(lo, hi, t, i);
  }

  lemma MarkThen(mark: Regex, group: Regex, t: string, i: nat)
    requires mark.One? && (i < |t| && mark.test(t[i]) ==> Ends(group, t, i) == [])
    ensures Ends(Then(Maybe(mark), group), t, i) == Ends(group, t, if i < |t| && mark.test(t[i]) then i + 1 else i)
  {
    MaybeMarkEnds(mark, t, i);
    if i < |t| && mark.test(t[i]) {
      FromTwo(group, t, i);
    } else {
      FromOne(group, t, i);
    }
  }

  /** A mark, digits and what follows them: the longest choice comes first. */
  lemma MarkedFall(mark: Regex, re: Regex, lo: nat, hi: nat, t: string, i: nat)
    requires mark.One? && (forall c: char :: mark.test(c) ==> !Digit(c))
    requires lo > 0 && Trailing(re, t) && i <= |t|
    ensures Falling(Ends(Then(Maybe(mark), Then(Times(DIGIT, lo, hi), re)), t, i))
  {
    if i < |t| && mark.test(t[i]) {
      NoDigitHere(re, lo, hi, t, i);
      GroupFalls(re, lo, hi, t, i + 1);
    } else {
      GroupFalls(re, lo, hi, t, i);
    }
    MarkThen(mark, Then(Times(DIGIT, lo, hi), re), t, i);
  }

  lemma MaybeFalls(re: Regex, t: string, i: nat)
    requires i <= |t| && Falling(Ends(re, t, i))
    ensures Falling(Ends(Maybe(re), t, i))
  {
    MaybeEnds(re, t, i);
    EndsWithin(re, t, i);
    FallingConcat(Ends(re, t, i), [i], i);
  }

  lemma CountryFalls(t: string, i: nat)
    requires i <= |t|
    ensures Falling(Ends(Maybe(COUNTRY), t, i))
  {
    GapTrails(t);
    MarkedFall(PLUS, Maybe(PHONE_SEPARATOR), 1, 3, t, i);
    MaybeFalls(COUNTRY, t, i);
  }

  lemma AreaFalls(t: string, i: nat)
    requires i <= |t|
    ensures Falling(Ends(Maybe(AREA), t, i))
  {
    AreaEndTrails(t);
    MarkedFall(OPENING, AREA_END, 2, 4, t, i);
    MaybeFalls(AREA, t, i);
  }

  // ----- the first end with the right edge -----

  function First(t: string, i: nat, ends: seq<nat>): nat {
    FirstEnd(OutsideWords, t, i, ends)
  }

  predicate Beyond(ends: seq<nat>, i: nat) {
    forall k :: 0 <= k < |ends| ==> ends[k] > i
  }

  lemma {:induction false} FirstConcat(t: string, i: nat, a: seq<nat>, b: seq<nat>)
    requires Beyond(a, i)
    ensures First(t, i, a + b) == if First(t, i, a) > 0 then First(t, i, a) else First(t, i, b)
  {
    if a == [] {
      assert a + b == b;
    } else {
      FirstConcat(t, i, a[1..], b);
      assert (a + b)[1..] == a[1..] + b;
    }
  }

  lemma {:induction false} FirstIsEnd(t: string, i: nat, ends: seq<nat>)
    ensures First(t, i, ends) > 0 ==> i + First(t, i, ends) in ends && !WordAt(t, i + First(t, i, ends))
  {
    if ends != [] {
      FirstIsEnd(t, i, ends[1..]);
    }
  }

  lemma {:induction false} EndIsFound(t: string, i: nat, ends: seq<nat>, e: nat)
    requires Beyond(ends, i) && e in ends && !WordAt(t, e)
    ensures First(t, i, ends) > 0
  {
    if ends[0] != e {
      EndIsFound(t, i, ends[1..], e);
    }
  }

  ghost predicate AllBeyond(re: Regex, t: string, i: nat, starts: seq<nat>) {
    forall k :: 0 <= k < |starts| ==> Beyond(Ends(re, t, starts[k]), i)
  }

  /** The first end behind several starts is the first behind the first start that has one. */
  lemma {:induction false} FirstStart(re: Regex, t: string, i: nat, starts: seq<nat>) returns (k: nat)
    requires AllBeyond(re, t, i, starts) && First(t, i, EndsFrom(re, t, starts)) > 0
    ensures k < |starts| && First(t, i, Ends(re, t, starts[k])) == First(t, i, EndsFrom(re, t, starts))
    ensures forall j :: 0 <= j < k ==> First(t, i, Ends(re, t, starts[j])) == 0
  {
    FirstConcat(t, i, Ends(re, t, starts[0]), EndsFrom(re, t, starts[1..]));
    if First(t, i, Ends(re, t, starts[0])) > 0 {
      k := 0;
    } else {
      k := FirstStart(re, t, i, starts[1..]);
      k := k + 1;
    }
  }

  /** With the starts falling, it lies behind the last start in the text that has one. */
  lemma LastStart(re: Regex, t: string, i: nat, starts: seq<nat>) returns (m: nat)
    requires Falling(starts) && AllBeyond(re, t, i, starts) && First(t, i, EndsFrom(re, t, starts)) > 0
    ensures m in starts && First(t, i, Ends(re, t, m)) == First(t, i, EndsFrom(re, t, starts))
    ensures forall n: nat :: n in starts && n > m ==> First(t, i, Ends(re, t, n)) == 0
  {
    var k := FirstStart(re, t, i, starts);
    m := starts[k];
  }

  // ----- the match of a whole number -----

  /** A number from a to e that ends at the end of a word. */
  ghost predicate GoodEnd(t: string, a: nat, e: nat) {
    NumberAt(t, a, e) && !WordAt(t, e)
  }

  ghost predicate Good(t: string, a: nat) {
    exists e: nat :: GoodEnd(t, a, e)
  }

  ghost predicate GoodArea(t: string, c: nat) {
    exists a: nat :: AreaAt(t, c, a) && Good(t, a)
  }

  lemma NumbersBeyond(t: string, i: nat, a: nat)
    requires i <= a <= |t|
    ensures Beyond(Ends(NUMBER, t, a), i)
  {
    EndsWithin(NUMBER, t, a);
    assert Shortest(NUMBER) == 6;
  }

  lemma LocalsBeyond(t: string, i: nat, c: nat)
    requires i <= c <= |t|
    ensures Beyond(Ends(LOCAL, t, c), i)
  {
    EndsWithin(LOCAL, t, c);
    assert Shortest(LOCAL) == 6;
  }

  lemma GoodFound(t: string, i: nat, a: nat)
    requires i <= a <= |t| && Good(t, a)
    ensures First(t, i, Ends(NUMBER, t, a)) > 0
  {
    var e: nat :| GoodEnd(t, a, e);
    InNumber(t, a, e);
    NumbersBeyond(t, i, a);
    EndIsFound(t, i, Ends(NUMBER, t, a), e);
  }

  lemma GoodAreaFound(t: string, i: nat, c: nat)
    requires i <= c <= |t| && GoodArea(t, c)
    ensures First(t, i, Ends(LOCAL, t, c)) > 0
  {
    var a: nat :| AreaAt(t, c, a) && Good(t, a);
    var e: nat :| GoodEnd(t, a, e);
    InArea(t, c, a);
    StaysInText(t, c, a);
    InNumber(t, a, e);
    ThenFound(Maybe(AREA), NUMBER, t, c, a, e);
    LocalsBeyond(t, i, c);
    EndIsFound(t, i, Ends(LOCAL, t, c), e);
  }

  /** The first end of a sequence lies behind the furthest end of its first part that a good end follows. */
  lemma FirstThen(first: Regex, second: Regex, t: string, i: nat, c: nat) returns (m: nat)
    requires Falling(Ends(first, t, c)) && AllBeyond(second, t, i, Ends(first, t, c))
    requires First(t, i, Ends(Then(first, second), t, c)) > 0
    ensures m in Ends(first, t, c)
    ensures First(t, i, Ends(second, t, m)) == First(t, i, Ends(Then(first, second), t, c))
    ensures forall n: nat :: n in Ends(first, t, c) && n > m ==> First(t, i, Ends(second, t, n)) == 0
  {
    m := LastStart(second, t, i, Ends(first, t, c));
  }

  lemma AreasBeyond(t: string, i: nat, c: nat)
    requires i <= c <= |t|
    ensures AllBeyond(NUMBER, t, i, Ends(Maybe(AREA), t, c))
  {
    var starts := Ends(Maybe(AREA), t, c);
    forall k | 0 <= k < |starts| ensures Beyond(Ends(NUMBER, t, starts[k]), i) {
      InArea(t, c, starts[k]);
      StaysInText(t, c, starts[k]);
      NumbersBeyond(t, i, starts[k]);
    }
  }

  lemma CountriesBeyond(t: string, i: nat)
    requires i <= |t|
    ensures AllBeyond(LOCAL, t, i, Ends(Maybe(COUNTRY), t, i))
  {
    var starts := Ends(Maybe(COUNTRY), t, i);
    forall k | 0 <= k < |starts| ensures Beyond(Ends(LOCAL, t, starts[k]), i) {
      InCountry(t, i, starts[k]);
      StaysInText(t, i, starts[k]);
      LocalsBeyond(t, i, starts[k]);
    }
  }

  lemma NumberIsEnd(t: string, i: nat, a: nat, n: nat)
    requires i <= a <= |t| && n == First(t, i, Ends(NUMBER, t, a)) > 0
    ensures GoodEnd(t, a, i + n)
  {
    FirstIsEnd(t, i, Ends(NUMBER, t, a));
    InNumber(t, a, i + n);
  }

  lemma LaterArea(t: string, i: nat, c: nat, n: nat)
    requires i <= c <= |t| && AreaAt(t, c, n)
    requires n in Ends(Maybe(AREA), t, c) ==> First(t, i, Ends(NUMBER, t, n)) == 0
    ensures !Good(t, n)
  {
    InArea(t, c, n);
    StaysInText(t, c, n);
    if Good(t, n) {
      GoodFound(t, i, n);
    }
  }

  lemma LaterCountry(t: string, i: nat, n: nat)
    requires i <= |t| && CountryAt(t, i, n)
    requires n in Ends(Maybe(COUNTRY), t, i) ==> First(t, i, Ends(LOCAL, t, n)) == 0
    ensures !GoodArea(t, n)
  {
    InCountry(t, i, n);
    StaysInText(t, i, n);
    if GoodArea(t, n) {
      GoodAreaFound(t, i, n);
    }
  }

  /** The match from c on takes the furthest area code that a number follows. */
  ghost predicate Furthest(t: string, c: nat, a: nat) {
    forall n: nat :: n > a && AreaAt(t, c, n) ==> !Good(t, n)
  }

  ghost predicate FurthestCountry(t: string, i: nat, c: nat) {
    forall n: nat :: n > c && CountryAt(t, i, n) ==> !GoodArea(t, n)
  }

  lemma FirstLocal(t: string, i: nat, c: nat, n: nat) returns (a: nat)
    requires i <= c <= |t| && n == First(t, i, Ends(LOCAL, t, c)) > 0
    ensures AreaAt(t, c, a) && GoodEnd(t, a, i + n) && Furthest(t, c, a)
  {
    AreaFalls(t, c);
    AreasBeyond(t, i, c);
    a := FirstThen(Maybe(AREA), NUMBER, t, i, c);
    InArea(t, c, a);
    StaysInText(t, c, a);
    NumberIsEnd(t, i, a, n);
    forall m: nat | m > a && AreaAt(t, c, m) ensures !Good(t, m) {
      LaterArea(t, i, c, m);
    }
  }

  lemma PhoneIs()
    ensures PHONE == Then(Maybe(COUNTRY), LOCAL)
  {
  }

  lemma FirstCountry(t: string, i: nat) returns (c: nat)
    requires i <= |t| && First(t, i, Ends(Then(Maybe(COUNTRY), LOCAL), t, i)) > 0
    ensures i <= c <= |t| && CountryAt(t, i, c) && FurthestCountry(t, i, c)
    ensures First(t, i, Ends(LOCAL, t, c)) == First(t, i, Ends(Then(Maybe(COUNTRY), LOCAL), t, i))
  {
    CountryFalls(t, i);
    CountriesBeyond(t, i);
    c := FirstThen(Maybe(COUNTRY), LOCAL, t, i, i);
    InCountry(t, i, c);
    StaysInText(t, i, c);
    forall n: nat | n > c && CountryAt(t, i, n) ensures !GoodArea(t, n) {
      LaterCountry(t, i, n);
    }
  }

  /** The path of the match that ends at e. */
  ghost predicate Path(t: string, i: nat, c: nat, a: nat, e: nat) {
    CountryAt(t, i, c) && FurthestCountry(t, i, c) && AreaAt(t, c, a) && Furthest(t, c, a) && GoodEnd(t, a, e)
  }

  /** The match takes the furthest country code that a good rest follows, and then the furthest area code. */
  lemma FirstPath(t: string, i: nat, n: nat) returns (c: nat, a: nat)
    requires i <= |t| && n == First(t, i, Ends(Then(Maybe(COUNTRY), LOCAL), t, i)) > 0
    ensures Path(t, i, c, a, i + n)
  {
    c := FirstCountry(t, i);
    a := FirstLocal(t, i, c, n);
  }

  lemma PhoneFound(t: string, i: nat, c: nat, a: nat, e: nat)
    requires i <= |t| && PhoneAt(t, i, c, a, e)
    ensures e in Ends(PHONE, t, i)
  {
    StaysInText(t, i, c);
    StaysInText(t, c, a);
    InCountry(t, i, c);
    InArea(t, c, a);
    InNumber(t, a, e);
    ThenFound(Maybe(AREA), NUMBER, t, c, a, e);
    ThenFound(Maybe(COUNTRY), LOCAL, t, i, c, e);
  }

  lemma PhoneSplit(t: string, i: nat, e: nat) returns (c: nat, a: nat)
    requires i <= |t| && e in Ends(Then(Maybe(COUNTRY), LOCAL), t, i)
    ensures PhoneAt(t, i, c, a, e)
  {
    c := ThenSplit(Maybe(COUNTRY), LOCAL, t, i, e);
    InCountry(t, i, c);
    StaysInText(t, i, c);
    a := ThenSplit(Maybe(AREA), NUMBER, t, c, e);
    InArea(t, c, a);
    StaysInText(t, c, a);
    InNumber(t, a, e);
  }

  /** The pattern is the shape: its ends are those of the phone numbers that begin there. */
  lemma PhoneExactly(t: string, i: nat, e: nat)
    requires i <= |t|
    ensures e in Ends(PHONE, t, i) <==> exists c: nat, a: nat :: PhoneAt(t, i, c, a, e)
  {
    PhoneIs();
    if e in Ends(Then(Maybe(COUNTRY), LOCAL), t, i) {
      var c, a := PhoneSplit(t, i, e);
    }
    if c: nat, a: nat :| PhoneAt(t, i, c, a, e) {
      PhoneFound(t, i, c, a, e);
    }
  }

  /** Wherever the shape stands, with no word character around it, something is matched. */
  lemma PhoneMatched(t: string, i: nat, c: nat, a: nat, e: nat)
    requires i <= |t| && PhoneAt(t, i, c, a, e) && !WordAt(t, i - 1) && !WordAt(t, e)
    ensures MatchAt(PHONE, OutsideWords, t, i) == First(t, i, Ends(PHONE, t, i)) > 0
  {
    PhoneFound(t, i, c, a, e);
    PhonesBeyond(t, i);
    EndIsFound(t, i, Ends(PHONE, t, i), e);
  }

  lemma PhonesBeyond(t: string, i: nat)
    requires i <= |t|
    ensures Beyond(Ends(PHONE, t, i), i)
  {
    EndsWithin(PHONE, t, i);
    PatternsLength();
  }

  lemma PatternsLength()
    ensures Shortest(PHONE) == 6
  {
    assert Shortest(LOCAL) == 6;
  }

  /** How many digits stand there. */
  function Count(t: string, i: nat, j: nat): nat
    requires i <= j <= |t|
    decreases j - i
  {
    if i == j then 0 else (if Digit(t[i]) then 1 else 0) + Count(t, i + 1, j)
  }

  lemma {:induction false} CountSplit(t: string, i: nat, k: nat, j: nat)
    requires i <= k <= j <= |t|
    ensures Count(t, i, j) == Count(t, i, k) + Count(t, k, j)
    decreases k - i
  {
    if i < k {
      CountSplit(t, i + 1, k, j);
    }
  }

  lemma {:induction false} CountRun(t: string, i: nat, j: nat)
    requires i <= j <= |t|
    ensures Count(t, i, j) <= j - i
    ensures (forall k :: i <= k < j ==> Digit(t[k])) ==> Count(t, i, j) == j - i
    ensures (forall k :: i <= k < j ==> !Digit(t[k])) ==> Count(t, i, j) == 0
    decreases j - i
  {
    if i < j {
      CountRun(t, i + 1, j);
    }
  }

  lemma CountArea(t: string, i: nat, o: nat, p: nat, q: nat, m: nat)
    requires i <= |t| && AreaParts(t, i, o, p, q, m)
    ensures i <= m <= |t| && Count(t, i, m) == p - o
  {
    CountSplit(t, i, o, m);
    CountSplit(t, o, p, m);
    CountRun(t, i, o);
    CountRun(t, o, p);
    CountRun(t, p, m);
  }

  lemma CountNumber(t: string, i: nat, p: nat, q: nat, e: nat)
    requires i <= |t| && NumberParts(t, i, p, q, e)
    ensures i <= e <= |t| && Count(t, i, e) == (p - i) + (e - q)
  {
    CountSplit(t, i, p, e);
    CountSplit(t, p, q, e);
    CountRun(t, i, p);
    CountRun(t, p, q);
    CountRun(t, q, e);
  }

  /** A number that ends in front of a mark ends either with the first group of the last part of the whole, or with the
      digits of the area code of the whole. */
  lemma EndsInFront(s: string, c: nat, a: nat, p: nat, q: nat, a1: nat, e: nat)
    requires CountryAt(s, 0, c) && AreaAt(s, c, a) && NumberParts(s, a, p, q, |s|)
    requires NumberAt(s, a1, e) && e < |s| && !Digit(s[e])
    ensures e == p < q || (c > 0 && e <= c + 5 && e < a)
  {
    var p1: nat, q1: nat :| NumberParts(s, a1, p1, q1, e);
    assert Digit(s[e - 1]) && e >= 6;
    if e < a {
      StaysInText(s, 0, c);
      if c > 0 {
        var o2: nat, p2: nat :| CountryParts(s, 0, o2, p2, c);
        assert c <= 5;
      }
      var o3: nat, p3: nat, q3: nat :| AreaParts(s, c, o3, p3, q3, a);
      assert e == p3;
    }
  }

  /** What the whole is split into, and the path that ends with the first group of its last part. */
  ghost predicate Rival(s: string, c: nat, a: nat, p: nat, q: nat, c1: nat, a1: nat) {
    && CountryAt(s, 0, c) && AreaAt(s, c, a) && NumberParts(s, a, p, q, |s|) && p < q
    && CountryAt(s, 0, c1) && AreaAt(s, c1, a1) && NumberAt(s, a1, p)
  }

  /** Without an area code, the two groups of the rival could be an area code and a first group. */
  lemma RivalSkipsNoArea(s: string, c: nat, a: nat, p: nat, q: nat, c1: nat)
    requires Rival(s, c, a, p, q, c1, c1)
    ensures !Furthest(s, c1, c1)
  {
    var p1: nat, q1: nat :| NumberParts(s, c1, p1, q1, p);
    assert AreaParts(s, c1, c1, p1, p1, q1);
    assert NumberParts(s, q1, p, q, |s|);
    assert GoodEnd(s, q1, |s|);
    assert Good(s, q1) && AreaAt(s, c1, q1) && q1 > c1;
  }

  /** With the same country code, the area code of the whole reaches further. */
  lemma RivalAreaShorter(s: string, c: nat, a: nat, p: nat, q: nat, a1: nat)
    requires Rival(s, c, a, p, q, c, a1)
    ensures a > a1 && Good(s, a)
  {
    StaysInText(s, c, a1);
    assert GoodEnd(s, a, |s|);
  }

  lemma InsideCountry(s: string, c: nat, c1: nat)
    requires CountryAt(s, 0, c1) && c < c1
    ensures s[c] != '('
  {
  }

  lemma RivalDigits(s: string, c: nat, p: nat, c1: nat, a1: nat)
    requires CountryAt(s, 0, c1) && AreaAt(s, c1, a1) && NumberAt(s, a1, p)
    requires c < c1 < a1 && Digit(s[c])
    ensures c <= p <= |s| && Count(s, c, p) >= 9
  {
    var p1: nat, q1: nat :| NumberParts(s, a1, p1, q1, p);
    var o2: nat, p2: nat, q2: nat :| AreaParts(s, c1, o2, p2, q2, a1);
    CountNumber(s, a1, p1, q1, p);
    CountArea(s, c1, o2, p2, q2, a1);
    CountSplit(s, c, c1, p);
    CountSplit(s, c1, a1, p);
  }

  lemma WholeDigits(s: string, c: nat, a: nat, p: nat, q: nat)
    requires c <= |s| && AreaAt(s, c, a) && NumberParts(s, a, p, q, |s|)
    ensures c <= p && Count(s, c, p) <= 8
  {
    CountRun(s, a, p);
    if a != c {
      var o: nat, pa: nat, qa: nat :| AreaParts(s, c, o, pa, qa, a);
      CountArea(s, c, o, pa, qa, a);
      CountSplit(s, c, a, p);
    }
  }

  /** With a longer country code and an area code, the rival would take more digits than the whole has there. */
  lemma RivalTakesMore(s: string, c: nat, a: nat, p: nat, q: nat, c1: nat, a1: nat)
    requires c < c1 < a1
    ensures !Rival(s, c, a, p, q, c1, a1)
  {
    if Rival(s, c, a, p, q, c1, a1) {
      StaysInText(s, 0, c);
      InsideCountry(s, c, c1);
      WholeDigits(s, c, a, p, q);
      RivalDigits(s, c, p, c1, a1);
    }
  }

  /** No path that is tried before the whole ends anywhere else. */
  lemma NoEarlierEnd(s: string, c: nat, a: nat, c1: nat, a1: nat, e: nat)
    requires PhoneAt(s, 0, c, a, |s|) && Path(s, 0, c1, a1, e)
    ensures e == |s|
  {
    var p: nat, q: nat :| NumberParts(s, a, p, q, |s|);
    StaysInText(s, 0, c1);
    StaysInText(s, c1, a1);
    StaysInText(s, a1, e);
    assert GoodEnd(s, a, |s|);
    assert Good(s, a);
    assert GoodArea(s, c);
    assert c <= c1;
    if e < |s| {
      EndsInFront(s, c, a, p, q, a1, e);
      if e == p < q {
        if a1 == c1 {
          RivalSkipsNoArea(s, c, a, p, q, c1);
        } else if c1 == c {
          RivalAreaShorter(s, c, a, p, q, a1);
        } else {
          RivalTakesMore(s, c, a, p, q, c1, a1);
        }
      }
    }
  }

  /** A text of the shape, from its beginning to its end. */
  ghost predicate PhoneNumber(s: string) {
    exists c: nat, a: nat :: PhoneAt(s, 0, c, a, |s|)
  }

  lemma NoEarlierEndAt(s: string, i: nat, c: nat, a: nat, c1: nat, a1: nat, n: nat)
    requires i == 0 && PhoneAt(s, i, c, a, |s|) && Path(s, i, c1, a1, i + n)
    ensures n == |s|
  {
    NoEarlierEnd(s, c, a, c1, a1, n);
  }

  lemma WholeFrom(s: string, i: nat, n: nat, c: nat, a: nat)
    requires i == 0 && PhoneAt(s, i, c, a, |s|)
    requires n == First(s, i, Ends(Then(Maybe(COUNTRY), LOCAL), s, i)) > 0
    ensures n == |s|
  {
    var c1, a1 := FirstPath(s, i, n);
    NoEarlierEndAt(s, i, c, a, c1, a1, n);
  }

  lemma WholeAt(s: string, i: nat, c: nat, a: nat)
    requires i == 0 && PhoneAt(s, i, c, a, |s|)
    ensures s != "" && MatchAt(PHONE, OutsideWords, s, i) == |s|
  {
    PhoneMatched(s, i, c, a, |s|);
    PhoneIs();
    WholeFrom(s, i, First(s, i, Ends(PHONE, s, i)), c, a);
  }

  /** However its digits can be split, the text is matched as a whole. */
  lemma WholeMatched(s: string)
    requires PhoneNumber(s)
    ensures s != "" && MatchAt(PHONE, OutsideWords, s, 0) == |s|
  {
    var c: nat, a: nat :| PhoneAt(s, 0, c, a, |s|);
    WholeAt(s, 0, c, a);
  }
}
