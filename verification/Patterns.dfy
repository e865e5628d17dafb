/** The patterns of the service that have a longest match: cards, phone numbers and six-digit codes, as the expressions
    they are, with the order in which a backtracking matcher tries their ends. */
module Patterns {
  import opened DeltaStreamer
  import opened Redaction

  /** Expressions without unbounded repetition. Repetition is greedy; an optional part is repeated up to once. */
  datatype Regex =
    | One(test: char -> bool)
    | Then(first: Regex, second: Regex)
    | Times(body: Regex, lo: nat, hi: nat)

  function Maybe(re: Regex): Regex {
    Times(re, 0, 1)
  }

  function Many(n: nat, x: nat): nat {
    n * x
  }

  function Longest(re: Regex): nat {
    match re
    case One(_) => 1
    case Then(a, b) => Longest(a) + Longest(b)
    case Times(body, _, hi) => Many(hi, Longest(body))
  }

  function Shortest(re: Regex): nat {
    match re
    case One(_) => 1
    case Then(a, b) => Shortest(a) + Shortest(b)
    case Times(body, lo, _) => Many(lo, Shortest(body))
  }

  // ----- where a match can end, first choice first -----

  function Ends(re: Regex, t: string, i: nat): seq<nat>
    decreases re, 0, 0
  {
    match re
    case One(test) => if i < |t| && test(t[i]) then [i + 1] else []
    case Then(a, b) => EndsFrom(b, t, Ends(a, t, i))
    case Times(body, lo, hi) => EndsTimes(body, lo, hi, t, i)
  }

  function EndsFrom(re: Regex, t: string, starts: seq<nat>): seq<nat>
    decreases re, 1, |starts|
  {
    if starts == [] then [] else Ends(re, t, starts[0]) + EndsFrom(re, t, starts[1..])
  }

  function EndsTimes(re: Regex, lo: nat, hi: nat, t: string, i: nat): seq<nat>
    decreases re, 2 * hi + 1, 0
  {
    (if hi == 0 then [] else EndsTimesFrom(re, if lo == 0 then 0 else lo - 1, hi - 1, t, Ends(re, t, i)))
    + (if lo == 0 then [i] else [])
  }

  function EndsTimesFrom(re: Regex, lo: nat, hi: nat, t: string, starts: seq<nat>): seq<nat>
    decreases re, 2 * hi + 2, |starts|
  {
    if starts == [] then [] else EndsTimes(re, lo, hi, t, starts[0]) + EndsTimesFrom(re, lo, hi, t, starts[1..])
  }

  // ----- how far they reach -----

  predicate Within(ends: seq<nat>, lo: nat, hi: nat, length: nat) {
    forall k :: 0 <= k < |ends| ==> lo <= ends[k] <= hi && ends[k] <= length
  }

  lemma WithinConcat(a: seq<nat>, b: seq<nat>, lo: nat, hi: nat, length: nat)
    requires Within(a, lo, hi, length) && Within(b, lo, hi, length)
    ensures Within(a + b, lo, hi, length)
  {
  }

  lemma OneMore(n: nat, x: nat)
    ensures Many(0, x) == 0 && Many(n + 1, x) == x + Many(n, x)
  {
  }

  lemma {:induction false} EndsWithin(re: Regex, t: string, i: nat)
    requires i <= |t|
    ensures Within(Ends(re, t, i), i + Shortest(re), i + Longest(re), |t|)
    decreases re, 0, 0
  {
    match re
    case One(_) =>
    case Then(a, b) =>
      EndsWithin(a, t, i);
      EndsFromWithin(b, t, Ends(a, t, i), i + Shortest(a), i + Longest(a));
    case Times(body, lo, hi) => EndsTimesWithin(body, lo, hi, t, i);
  }

  lemma {:induction false} EndsFromWithin(re: Regex, t: string, starts: seq<nat>, lo: nat, hi: nat)
    requires Within(starts, lo, hi, |t|)
    ensures Within(EndsFrom(re, t, starts), lo + Shortest(re), hi + Longest(re), |t|)
    decreases re, 1, |starts|
  {
    if starts != [] {
      EndsWithin(re, t, starts[0]);
      EndsFromWithin(re, t, starts[1..], lo, hi);
      WithinConcat(Ends(re, t, starts[0]), EndsFrom(re, t, starts[1..]), lo + Shortest(re), hi + Longest(re), |t|);
    }
  }

  lemma {:induction false} EndsTimesWithin(re: Regex, lo: nat, hi: nat, t: string, i: nat)
    requires i <= |t|
    ensures Within(EndsTimes(re, lo, hi, t, i), i + Many(lo, Shortest(re)), i + Many(hi, Longest(re)), |t|)
    decreases re, 2 * hi + 1, 0
  {
    var fewer := if lo == 0 then 0 else lo - 1;
    OneMore(fewer, Shortest(re));
    if hi > 0 {
      EndsWithin(re, t, i);
      EndsTimesFromWithin(re, fewer, hi - 1, t, Ends(re, t, i), i + Shortest(re), i + Longest(re));
      OneMore(hi - 1, Longest(re));
    }
    EndsTimesSplit(re, lo, hi, t, i);
  }

  /** The ends with one more repetition, and the start itself if none is needed. */
  lemma EndsTimesSplit(re: Regex, lo: nat, hi: nat, t: string, i: nat)
    requires i <= |t|
    requires hi > 0 ==> Within(EndsTimesFrom(re, if lo == 0 then 0 else lo - 1, hi - 1, t, Ends(re, t, i)),
                               i + Many(lo, Shortest(re)), i + Many(hi, Longest(re)), |t|)
    ensures Within(EndsTimes(re, lo, hi, t, i), i + Many(lo, Shortest(re)), i + Many(hi, Longest(re)), |t|)
  {
    OneMore(0, Shortest(re));
    var tail := if lo == 0 then [i] else [];
    var more := if hi == 0 then [] else EndsTimesFrom(re, if lo == 0 then 0 else lo - 1, hi - 1, t, Ends(re, t, i));
    WithinConcat(more, tail, i + Many(lo, Shortest(re)), i + Many(hi, Longest(re)), |t|);
  }

  lemma {:induction false} EndsTimesFromWithin(re: Regex, lo: nat, hi: nat, t: string, starts: seq<nat>, from: nat,
                                               to: nat)
    requires Within(starts, from, to, |t|)
    ensures Within(EndsTimesFrom(re, lo, hi, t, starts), from + Many(lo, Shortest(re)), to + Many(hi, Longest(re)), |t|)
    decreases re, 2 * hi + 2, |starts|
  {
    if starts != [] {
      EndsTimesWithin(re, lo, hi, t, starts[0]);
      EndsTimesFromWithin(re, lo, hi, t, starts[1..], from, to);
      WithinConcat(EndsTimes(re, lo, hi, t, starts[0]), EndsTimesFrom(re, lo, hi, t, starts[1..]),
                   from + Many(lo, Shortest(re)), to + Many(hi, Longest(re)), |t|);
    }
  }

  // ----- they do not change when text follows behind their reach -----

  lemma {:induction false} EndsStable(re: Regex, t: string, more: string, i: nat)
    requires i + Longest(re) <= |t|
    ensures Ends(re, t + more, i) == Ends(re, t, i)
    decreases re, 0, 0
  {
    match re
    case One(_) => assert (t + more)[i] == t[i];
    case Then(a, b) =>
      EndsStable(a, t, more, i);
      EndsWithin(a, t, i);
      EndsFromStable(b, t, more, Ends(a, t, i), i + Longest(a));
    case Times(body, lo, hi) => EndsTimesStable(body, lo, hi, t, more, i);
  }

  lemma {:induction false} EndsFromStable(re: Regex, t: string, more: string, starts: seq<nat>, to: nat)
    requires to + Longest(re) <= |t| && forall k :: 0 <= k < |starts| ==> starts[k] <= to
    ensures EndsFrom(re, t + more, starts) == EndsFrom(re, t, starts)
    decreases re, 1, |starts|
  {
    if starts != [] {
      EndsStable(re, t, more, starts[0]);
      EndsFromStable(re, t, more, starts[1..], to);
    }
  }

  lemma {:induction false} EndsTimesStable(re: Regex, lo: nat, hi: nat, t: string, more: string, i: nat)
    requires i + Many(hi, Longest(re)) <= |t|
    ensures EndsTimes(re, lo, hi, t + more, i) == EndsTimes(re, lo, hi, t, i)
    decreases re, 2 * hi + 1, 0
  {
    if hi > 0 {
      OneMore(hi - 1, Longest(re));
      EndsStable(re, t, more, i);
      EndsWithin(re, t, i);
      EndsTimesFromStable(re, if lo == 0 then 0 else lo - 1, hi - 1, t, more, Ends(re, t, i), i + Longest(re));
    }
  }

  lemma {:induction false} EndsTimesFromStable(re: Regex, lo: nat, hi: nat, t: string, more: string, starts: seq<nat>,
                                               to: nat)
    requires to + Many(hi, Longest(re)) <= |t| && forall k :: 0 <= k < |starts| ==> starts[k] <= to
    ensures EndsTimesFrom(re, lo, hi, t + more, starts) == EndsTimesFrom(re, lo, hi, t, starts)
    decreases re, 2 * hi + 2, |starts|
  {
    if starts != [] {
      EndsTimesStable(re, lo, hi, t, more, starts[0]);
      EndsTimesFromStable(re, lo, hi, t, more, starts[1..], to);
    }
  }

  // ----- matches -----

  /** What must hold around a match: a word boundary on both sides, no word character on either, or nothing. */
  datatype Edges = AtBoundaries | OutsideWords | Anywhere

  predicate WordAt(t: string, i: int) {
    0 <= i < |t| && Word(t[i])
  }

  predicate EdgeAt(edges: Edges, t: string, i: nat, atStart: bool) {
    match edges
    case AtBoundaries => WordAt(t, i - 1) != WordAt(t, i)
    case OutsideWords => if atStart then !WordAt(t, i - 1) else !WordAt(t, i)
    case Anywhere => true
  }

  /** The first end with the right edge. */
  function FirstEnd(edges: Edges, t: string, i: nat, ends: seq<nat>): nat {
    if ends == [] then 0
    else if ends[0] >= i && EdgeAt(edges, t, ends[0], false) then ends[0] - i
    else FirstEnd(edges, t, i, ends[1..])
  }

  function MatchAt(re: Regex, edges: Edges, t: string, i: nat): nat {
    if EdgeAt(edges, t, i, true) then FirstEnd(edges, t, i, Ends(re, t, i)) else 0
  }

  function ScannerOf(re: Regex, edges: Edges, placeholder: string): Scanner {
    Scanner((t: string, i: nat) => MatchAt(re, edges, t, i), placeholder)
  }

  lemma EdgeStable(edges: Edges, t: string, more: string, i: nat, atStart: bool)
    requires i < |t|
    ensures EdgeAt(edges, t + more, i, atStart) == EdgeAt(edges, t, i, atStart)
  {
    assert (t + more)[i] == t[i] && (i > 0 ==> (t + more)[i - 1] == t[i - 1]);
  }

  lemma {:induction false} FirstEndStable(edges: Edges, t: string, more: string, i: nat, ends: seq<nat>)
    requires forall k :: 0 <= k < |ends| ==> ends[k] < |t|
    ensures FirstEnd(edges, t + more, i, ends) == FirstEnd(edges, t, i, ends)
  {
    if ends != [] {
      EdgeStable(edges, t, more, ends[0], false);
      FirstEndStable(edges, t, more, i, ends[1..]);
    }
  }

  lemma {:induction false} FirstEndWithin(edges: Edges, t: string, i: nat, ends: seq<nat>, lo: nat, hi: nat)
    requires Within(ends, i + lo, i + hi, |t|)
    ensures var n := FirstEnd(edges, t, i, ends); n == 0 || (lo <= n <= hi && i + n <= |t|)
  {
    if ends != [] {
      FirstEndWithin(edges, t, i, ends[1..], lo, hi);
    }
  }

  lemma MatchStable(re: Regex, edges: Edges, t: string, more: string, i: nat)
    requires i + Longest(re) + 1 <= |t|
    ensures MatchAt(re, edges, t + more, i) == MatchAt(re, edges, t, i)
  {
    EdgeStable(edges, t, more, i, true);
    EndsStable(re, t, more, i);
    EndsWithin(re, t, i);
    FirstEndStable(edges, t, more, i, Ends(re, t, i));
  }

  lemma MatchWithin(re: Regex, edges: Edges, t: string, i: nat)
    requires i <= |t|
    ensures var n := MatchAt(re, edges, t, i); n == 0 || (Shortest(re) <= n <= Longest(re) && i + n <= |t|)
  {
    EndsWithin(re, t, i);
    FirstEndWithin(edges, t, i, Ends(re, t, i), Shortest(re), Longest(re));
  }

  lemma Scaled(a: nat, b: nat, num: nat)
    requires a <= b
    ensures num * a <= num * b
  {
  }

  /** Every such expression is a bounded scanner, with one character behind its longest match, if its placeholder is no
      longer than the hold-back allows for its shortest and longest match. */
  lemma RegexIsBounded(re: Regex, edges: Edges, placeholder: string, num: nat, den: nat)
    requires 0 < den <= num && num * Longest(re) <= HOLD_BACK * den
    requires |placeholder| * den <= num * Shortest(re)
    ensures Bounded(ScannerOf(re, edges, placeholder), Longest(re) + 1, num, den)
  {
    var sc, window := ScannerOf(re, edges, placeholder), Longest(re) + 1;
    forall t: string, more: string, i: nat | i + window <= |t| ensures sc.matchAt(t + more, i) == sc.matchAt(t, i) {
      MatchStable(re, edges, t, more, i);
    }
    forall t: string, i: nat | 0 < sc.matchAt(t, i) <= |t| - i
      ensures |sc.placeholder| * den <= num * sc.matchAt(t, i)
    {
      MatchWithin(re, edges, t, i);
      Scaled(Shortest(re), sc.matchAt(t, i), num);
    }
    forall t: string, i: nat | i + window <= |t| ensures sc.matchAt(t, i) <= |t| - i {
      MatchWithin(re, edges, t, i);
    }
  }

  // ----- the service's patterns -----

  const DIGIT := One((c: char) => Digit(c))

  const CODE := Times(DIGIT, 6, 6)

  const CARD_SEPARATOR := One((c: char) => c == ' ' || c == '-')

  const CARD := Times(Then(DIGIT, Maybe(CARD_SEPARATOR)), 13, 19)

  const PHONE_SEPARATOR := One((c: char) => c == ' ' || c == '.' || c == '-')

  const PLUS := One((c: char) => c == '+')

  const OPENING := One((c: char) => c == '(')

  const CLOSING := One((c: char) => c == ')')

  const COUNTRY := Then(Maybe(PLUS), Then(Times(DIGIT, 1, 3), Maybe(PHONE_SEPARATOR)))

  const AREA :=
    Then(Maybe(OPENING), Then(Times(DIGIT, 2, 4), Then(Maybe(CLOSING), Maybe(PHONE_SEPARATOR))))

  const PHONE :=
    Then(Maybe(COUNTRY), Then(Maybe(AREA), Then(Times(DIGIT, 3, 4), Then(Maybe(PHONE_SEPARATOR), Times(DIGIT, 3, 4)))))

  /** Control characters other than tab, line feed and carriage return. */
  predicate Control(c: char) {
    c as int < 32 && c != '\t' && c != '\n' && c != '\r'
  }

  const CONTROL := One((c: char) => Control(c))

  /** Six digits, ten characters for them. */
  lemma CodesAreBounded()
    ensures Bounded(ScannerOf(CODE, AtBoundaries, "<PII:code>"), 7, 5, 3)
  {
    RegexIsBounded(CODE, AtBoundaries, "<PII:code>", 5, 3);
  }

  /** Thirteen to nineteen digits with separators, at most 38 characters. */
  lemma CardsAreBounded()
    ensures Bounded(ScannerOf(CARD, AtBoundaries, "<PII:card>"), 39, 1, 1)
  {
    assert Longest(CARD) == 38 && Shortest(CARD) == 13;
    RegexIsBounded(CARD, AtBoundaries, "<PII:card>", 1, 1);
  }

  /** Six to 21 characters, eleven for them. */
  lemma PhonesAreBounded()
    ensures Bounded(ScannerOf(PHONE, OutsideWords, "<PII:phone>"), 22, 11, 6)
  {
    assert Longest(COUNTRY) == 5 && Longest(AREA) == 7 && Longest(PHONE) == 21;
    assert Shortest(PHONE) == 6;
    RegexIsBounded(PHONE, OutsideWords, "<PII:phone>", 11, 6);
  }

  /** Single characters, nothing for them. */
  lemma ControlsAreBounded()
    ensures Bounded(ScannerOf(CONTROL, Anywhere, ""), 2, 1, 1)
  {
    RegexIsBounded(CONTROL, Anywhere, "", 1, 1);
  }

  /** The passes over bounded patterns. */
  ghost predicate BoundedPass(sc: Scanner) {
    || sc == ScannerOf(CODE, AtBoundaries, "<PII:code>")
    || sc == ScannerOf(CARD, AtBoundaries, "<PII:card>")
    || sc == ScannerOf(PHONE, OutsideWords, "<PII:phone>")
    || sc == ScannerOf(CONTROL, Anywhere, "")
  }

  /** So each of the four passes, on its own, streams every text exactly once. */
  lemma PassesStream(raws: seq<string>, final: string, sc: Scanner)
    requires BoundedPass(sc)
    requires forall i :: 0 <= i < |raws| ==> IsPrefix(raws[i], final)
    ensures Streamed(RedactAll(sc, raws), Scan(sc, final, 0)) == Scan(sc, final, 0)
  {
    if sc == ScannerOf(CODE, AtBoundaries, "<PII:code>") {
      CodesAreBounded();
      BoundedScannerStreams(sc, 7, 5, 3, raws, final);
    } else if sc == ScannerOf(CARD, AtBoundaries, "<PII:card>") {
      CardsAreBounded();
      BoundedScannerStreams(sc, 39, 1, 1, raws, final);
    } else if sc == ScannerOf(PHONE, OutsideWords, "<PII:phone>") {
      PhonesAreBounded();
      BoundedScannerStreams(sc, 22, 11, 6, raws, final);
    } else {
      ControlsAreBounded();
      BoundedScannerStreams(sc, 2, 1, 1, raws, final);
    }
  }
}
