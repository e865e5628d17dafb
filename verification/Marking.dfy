/** What the redaction makes of a text: which texts become which placeholder, and what never comes through. */
module Marking {
  import opened DeltaStreamer
  import opened Redaction
  import opened Patterns
  import opened Phones
  import opened Redactor

  // ----- texts that a pattern finds nothing in -----

  /** Something the expression cannot do without is not in the text. */
  predicate Starves(re: Regex, t: string) {
    match re
    case One(test) => forall i :: 0 <= i < |t| ==> !test(t[i])
    case Then(a, b) => Starves(a, t) || Starves(b, t)
    case Times(body, lo, _) => lo > 0 && Starves(body, t)
  }

  lemma {:induction false} StarvedFrom(re: Regex, t: string, starts: seq<nat>)
    requires Starves(re, t)
    ensures EndsFrom(re, t, starts) == []
    decreases re, 1, |starts|
  {
    if starts != [] {
      StarvedEnds(re, t, starts[0]);
      StarvedFrom(re, t, starts[1..]);
    }
  }

  lemma {:induction false} StarvedEnds(re: Regex, t: string, i: nat)
    requires Starves(re, t)
    ensures Ends(re, t, i) == []
    decreases re, 0, 0
  {
    match re
    case One(_) =>
    case Then(a, b) =>
      if Starves(a, t) {
        StarvedEnds(a, t, i);
      } else {
        StarvedFrom(b, t, Ends(a, t, i));
      }
    case Times(body, lo, hi) =>
      StarvedEnds(body, t, i);
      StarvedTimes(body, lo, hi, t, i);
  }

  lemma StarvedTimes(re: Regex, lo: nat, hi: nat, t: string, i: nat)
    requires lo > 0 && Ends(re, t, i) == []
    ensures EndsTimes(re, lo, hi, t, i) == []
  {
  }

  lemma StarvedScan(re: Regex, edges: Edges, placeholder: string, t: string)
    requires Starves(re, t)
    ensures Scan(ScannerOf(re, edges, placeholder), t, 0) == t
  {
    var sc := ScannerOf(re, edges, placeholder);
    forall i: nat | i < |t| ensures sc.matchAt(t, i) == 0 {
      StarvedEnds(re, t, i);
    }
    UnmatchedScan(sc, t);
  }

  lemma UnmatchedScan(sc: Scanner, t: string)
    requires NoMatchBefore(sc, t, |t|)
    ensures Scan(sc, t, 0) == t
  {
    ScanCopies(sc, t, 0, |t|);
    assert t[0..|t|] == t;
  }

  predicate NoDigit(t: string) {
    forall i :: 0 <= i < |t| ==> !Digit(t[i])
  }

  predicate NoControl(t: string) {
    forall i :: 0 <= i < |t| ==> !Control(t[i])
  }

  lemma NoDigitStarves(t: string)
    requires NoDigit(t)
    ensures Starves(CARD, t) && Starves(CODE, t) && Starves(PHONE, t)
  {
    assert Starves(DIGIT, t);
    assert Starves(Times(DIGIT, 3, 4), t) && Starves(Then(DIGIT, Maybe(CARD_SEPARATOR)), t);
    assert Starves(Then(Times(DIGIT, 3, 4), Then(Maybe(PHONE_SEPARATOR), Times(DIGIT, 3, 4))), t);
  }

  lemma NoControlStarves(t: string)
    requires NoControl(t)
    ensures Starves(CONTROL, t)
  {
  }

  /** A text without a digit: only addresses and control characters are looked for. */
  lemma DigitlessPasses(t: string)
    requires NoDigit(t)
    ensures Scan(CARD_PASS, t, 0) == t && Scan(PHONE_PASS, t, 0) == t && Scan(CODE_PASS, t, 0) == t
  {
    NoDigitStarves(t);
    StarvedScan(CARD, AtBoundaries, "<PII:card>", t);
    StarvedScan(PHONE, OutsideWords, "<PII:phone>", t);
    StarvedScan(CODE, AtBoundaries, "<PII:code>", t);
  }

  lemma ControllessPass(t: string)
    requires NoControl(t)
    ensures Scan(CONTROL_PASS, t, 0) == t
  {
    NoControlStarves(t);
    StarvedScan(CONTROL, Anywhere, "", t);
  }

  /** A text that no pattern matches anywhere, without control characters, stays as it is. */
  lemma UnmatchedStays(t: string)
    requires NoMatchBefore(CARD_PASS, t, |t|) && NoMatchBefore(EMAIL_SCANNER, t, |t|)
    requires NoMatchBefore(PHONE_PASS, t, |t|) && NoMatchBefore(CODE_PASS, t, |t|) && NoControl(t)
    ensures Redact(t) == t
  {
    UnmatchedScan(CARD_PASS, t);
    UnmatchedScan(EMAIL_SCANNER, t);
    UnmatchedScan(PHONE_PASS, t);
    UnmatchedScan(CODE_PASS, t);
    ControllessPass(t);
  }

  /** So does a text without digits, at signs and control characters. */
  lemma PlainStays(t: string)
    requires NoDigit(t) && '@' !in t && NoControl(t)
    ensures Redact(t) == t
  {
    DigitlessPasses(t);
    NoAtUntouched(t, 0);
    assert t[0..] == t;
    ControllessPass(t);
  }

  // ----- placeholders -----

  lemma PlaceholderStays(p: string)
    requires p in {"<PII:email>", "<PII:card>", "<PII:phone>"}
    ensures NoDigit(p) && '@' !in p && NoControl(p)
  {
    if p == "<PII:email>" {
    } else if p == "<PII:card>" {
    } else {
    }
  }

  // ----- texts with too few digits for a card number -----

  const CARD_DIGIT := Then(DIGIT, Maybe(CARD_SEPARATOR))

  predicate CardDigitAt(t: string, i: nat, m: nat) {
    i < m <= |t| && Count(t, i, m) >= 1
  }

  predicate Counted(t: string, i: nat, ends: seq<nat>, n: nat) {
    forall k :: 0 <= k < |ends| ==> i <= ends[k] <= |t| && Count(t, i, ends[k]) >= n
  }

  lemma CountedConcat(t: string, i: nat, a: seq<nat>, b: seq<nat>, n: nat)
    requires Counted(t, i, a, n) && Counted(t, i, b, n)
    ensures Counted(t, i, a + b, n)
  {
  }

  lemma CardDigitCounts(t: string, i: nat)
    requires i <= |t|
    ensures forall m :: m in Ends(CARD_DIGIT, t, i) ==> CardDigitAt(t, i, m)
  {
    EndsWithin(CARD_DIGIT, t, i);
    forall m | m in Ends(CARD_DIGIT, t, i) ensures CardDigitAt(t, i, m) {
      var d := ThenSplit(DIGIT, Maybe(CARD_SEPARATOR), t, i, m);
      CountSplit(t, i, i + 1, m);
    }
  }

  lemma CountedEarlier(t: string, i: nat, m: nat, ends: seq<nat>, n: nat)
    requires CardDigitAt(t, i, m) && Counted(t, m, ends, if n == 0 then 0 else n - 1)
    ensures Counted(t, i, ends, n)
  {
    forall k | 0 <= k < |ends| ensures i <= ends[k] <= |t| && Count(t, i, ends[k]) >= n {
      CountSplit(t, i, m, ends[k]);
    }
  }

  lemma {:induction false} CardCounts(lo: nat, hi: nat, t: string, i: nat)
    requires i <= |t|
    ensures Counted(t, i, EndsTimes(CARD_DIGIT, lo, hi, t, i), lo)
    decreases hi, 1, 0
  {
    var more := if hi == 0 then []
                else EndsTimesFrom(CARD_DIGIT, if lo == 0 then 0 else lo - 1, hi - 1, t, Ends(CARD_DIGIT, t, i));
    if hi > 0 {
      CardDigitCounts(t, i);
      CardsCount(lo, hi, t, i, Ends(CARD_DIGIT, t, i));
    }
    CountedConcat(t, i, more, if lo == 0 then [i] else [], lo);
  }

  lemma {:induction false} CardsCount(lo: nat, hi: nat, t: string, i: nat, starts: seq<nat>)
    requires hi > 0 && forall m :: m in starts ==> CardDigitAt(t, i, m)
    ensures Counted(t, i, EndsTimesFrom(CARD_DIGIT, if lo == 0 then 0 else lo - 1, hi - 1, t, starts), lo)
    decreases hi, 0, |starts|
  {
    var fewer := if lo == 0 then 0 else lo - 1;
    if starts != [] {
      var m := starts[0];
      assert m in starts;
      CardCounts(fewer, hi - 1, t, m);
      CountedEarlier(t, i, m, EndsTimes(CARD_DIGIT, fewer, hi - 1, t, m), lo);
      CardsCount(lo, hi, t, i, starts[1..]);
      CountedConcat(t, i, EndsTimes(CARD_DIGIT, fewer, hi - 1, t, m),
                    EndsTimesFrom(CARD_DIGIT, fewer, hi - 1, t, starts[1..]), lo);
    }
  }

  /** How many digits a text has. */
  function Digits(t: string): nat {
    Count(t, 0, |t|)
  }

  lemma FewDigitsNoEnd(t: string, i: nat)
    requires Digits(t) < 13 && i <= |t|
    ensures Ends(CARD, t, i) == []
  {
    var ends := EndsTimes(CARD_DIGIT, 13, 19, t, i);
    CardCounts(13, 19, t, i);
    if ends != [] {
      CountSplit(t, 0, i, |t|);
      CountSplit(t, i, ends[0], |t|);
    }
  }

  /** A text with fewer than thirteen digits has no card number. */
  lemma FewDigitsNoCard(t: string)
    requires Digits(t) < 13
    ensures Scan(CARD_PASS, t, 0) == t
  {
    forall i: nat | i < |t| ensures CARD_PASS.matchAt(t, i) == 0 {
      FewDigitsNoEnd(t, i);
    }
    UnmatchedScan(CARD_PASS, t);
  }

  // ----- the first end, the greediest -----

  /** The first choice of the matcher ends here. */
  predicate FirstIs(ends: seq<nat>, e: nat) {
    ends != [] && ends[0] == e
  }

  lemma FirstOfFrom(re: Regex, t: string, starts: seq<nat>, m: nat, e: nat)
    requires FirstIs(starts, m) && FirstIs(Ends(re, t, m), e)
    ensures FirstIs(EndsFrom(re, t, starts), e)
  {
  }

  lemma FirstOfThen(a: Regex, b: Regex, t: string, i: nat, m: nat, e: nat)
    requires FirstIs(Ends(a, t, i), m) && FirstIs(Ends(b, t, m), e)
    ensures FirstIs(Ends(Then(a, b), t, i), e)
  {
    FirstOfFrom(b, t, Ends(a, t, i), m, e);
  }

  lemma FirstOfTimes(re: Regex, lo: nat, hi: nat, t: string, i: nat, m: nat, e: nat)
    requires hi > 0 && FirstIs(Ends(re, t, i), m)
    requires FirstIs(EndsTimes(re, if lo == 0 then 0 else lo - 1, hi - 1, t, m), e)
    ensures FirstIs(EndsTimes(re, lo, hi, t, i), e)
  {
  }

  lemma TimesStops(re: Regex, hi: nat, t: string, i: nat)
    requires Ends(re, t, i) == [] || hi == 0
    ensures FirstIs(EndsTimes(re, 0, hi, t, i), i)
  {
  }

  lemma MaybeTakes(re: Regex, t: string, i: nat, e: nat)
    requires FirstIs(Ends(re, t, i), e)
    ensures FirstIs(Ends(Maybe(re), t, i), e)
  {
    TimesStops(re, 0, t, e);
    FirstOfTimes(re, 0, 1, t, i, e, e);
  }

  lemma MaybeSkips(re: Regex, t: string, i: nat)
    requires Ends(re, t, i) == []
    ensures FirstIs(Ends(Maybe(re), t, i), i)
  {
    TimesStops(re, 1, t, i);
  }

  /** If the first choice reaches the end of the text and has its edges, the whole text is the match. */
  lemma FirstTaken(re: Regex, edges: Edges, placeholder: string, t: string)
    requires t != "" && FirstIs(Ends(re, t, 0), |t|)
    requires EdgeAt(edges, t, 0, true) && EdgeAt(edges, t, |t|, false)
    ensures Scan(ScannerOf(re, edges, placeholder), t, 0) == placeholder
  {
    WholeTaken(ScannerOf(re, edges, placeholder), t);
  }

  lemma WholeTaken(sc: Scanner, t: string)
    requires t != "" && sc.matchAt(t, 0) == |t|
    ensures Scan(sc, t, 0) == sc.placeholder
  {
    assert Scan(sc, t, |t|) == "";
  }

  // ----- card numbers -----

  /** Digits with gaps between them. */
  function Spelled(digits: string, gaps: seq<string>): string
    requires |digits| == |gaps| + 1
  {
    if gaps == [] then digits else [digits[0]] + gaps[0] + Spelled(digits[1..], gaps[1..])
  }

  /** Thirteen to nineteen digits, with a space, a dash or nothing between one and the next. */
  predicate CardNumber(digits: string, gaps: seq<string>) {
    && 13 <= |digits| <= 19 && |gaps| == |digits| - 1
    && (forall i :: 0 <= i < |digits| ==> Digit(digits[i]))
    && (forall i :: 0 <= i < |gaps| ==> gaps[i] in {"", " ", "-"})
  }

  predicate Separated(digits: string, gaps: seq<string>) {
    && |digits| == |gaps| + 1
    && (forall i :: 0 <= i < |digits| ==> Digit(digits[i]))
    && (forall i :: 0 <= i < |gaps| ==> gaps[i] in {"", " ", "-"})
  }

  lemma SpelledStarts(digits: string, gaps: seq<string>)
    requires Separated(digits, gaps)
    ensures Spelled(digits, gaps) != "" && Spelled(digits, gaps)[0] == digits[0]
  {
  }

  /** A digit is taken with the separator behind it. */
  lemma CardDigitTaken(t: string, i: nat, digits: string, gaps: seq<string>)
    requires Separated(digits, gaps) && gaps != [] && i <= |t| && t[i..] == Spelled(digits, gaps)
    ensures FirstIs(Ends(CARD_DIGIT, t, i), i + 1 + |gaps[0]|)
    ensures i + 1 + |gaps[0]| <= |t| && t[i + 1 + |gaps[0]|..] == Spelled(digits[1..], gaps[1..])
  {
    var rest := Spelled(digits[1..], gaps[1..]);
    SpelledStarts(digits[1..], gaps[1..]);
    var u := t[i..];
    assert u == [digits[0]] + gaps[0] + rest;
    assert t[i] == u[0] && Ends(DIGIT, t, i) == [i + 1];
    assert t[i + 1 + |gaps[0]|..] == u[1 + |gaps[0]|..] == rest;
    assert t[i + 1] == u[1];
    if gaps[0] == "" {
      assert u[1] == rest[0] == digits[1];
      assert Ends(CARD_SEPARATOR, t, i + 1) == [];
      MaybeSkips(CARD_SEPARATOR, t, i + 1);
    } else {
      assert u[1] == gaps[0][0];
      assert Ends(CARD_SEPARATOR, t, i + 1) == [i + 2];
      MaybeTakes(CARD_SEPARATOR, t, i + 1, i + 2);
    }
    FirstOfThen(DIGIT, Maybe(CARD_SEPARATOR), t, i, i + 1, i + 1 + |gaps[0]|);
  }

  lemma LastDigitTaken(t: string, i: nat)
    requires i + 1 == |t| && Digit(t[i])
    ensures FirstIs(Ends(CARD_DIGIT, t, i), |t|) && Ends(CARD_DIGIT, t, |t|) == []
  {
    assert Ends(DIGIT, t, i) == [i + 1] && Ends(DIGIT, t, |t|) == [];
    assert Ends(CARD_SEPARATOR, t, |t|) == [];
    MaybeSkips(CARD_SEPARATOR, t, |t|);
    FirstOfThen(DIGIT, Maybe(CARD_SEPARATOR), t, i, |t|, |t|);
  }

  lemma CardEnds(t: string, i: nat, digits: string, gaps: seq<string>, lo: nat, hi: nat)
    requires Separated(digits, gaps) && gaps == [] && i <= |t| && t[i..] == Spelled(digits, gaps) && lo <= 1 <= hi
    ensures FirstIs(EndsTimes(CARD_DIGIT, lo, hi, t, i), |t|)
  {
    assert t[i] == t[i..][0] == digits[0];
    LastDigitTaken(t, i);
    TimesStops(CARD_DIGIT, hi - 1, t, |t|);
    FirstOfTimes(CARD_DIGIT, lo, hi, t, i, |t|, |t|);
  }

  lemma SeparatedTail(digits: string, gaps: seq<string>)
    requires Separated(digits, gaps) && gaps != []
    ensures Separated(digits[1..], gaps[1..])
  {
  }

  lemma {:induction false} CardTaken(t: string, i: nat, digits: string, gaps: seq<string>, lo: nat, hi: nat)
    requires Separated(digits, gaps) && i <= |t| && t[i..] == Spelled(digits, gaps) && lo <= |digits| <= hi
    ensures FirstIs(EndsTimes(CARD_DIGIT, lo, hi, t, i), |t|)
    decreases |digits|, 0
  {
    if gaps == [] {
      CardEnds(t, i, digits, gaps, lo, hi);
    } else {
      CardDigitTaken(t, i, digits, gaps);
      SeparatedTail(digits, gaps);
      CardNext(t, i, i + 1 + |gaps[0]|, digits[1..], gaps[1..], lo, hi);
    }
  }

  lemma {:induction false} CardNext(t: string, i: nat, m: nat, digits: string, gaps: seq<string>, lo: nat, hi: nat)
    requires Separated(digits, gaps) && m <= |t| && t[m..] == Spelled(digits, gaps) && lo <= |digits| + 1 <= hi
    requires FirstIs(Ends(CARD_DIGIT, t, i), m)
    ensures FirstIs(EndsTimes(CARD_DIGIT, lo, hi, t, i), |t|)
    decreases |digits|, 1
  {
    CardTaken(t, m, digits, gaps, if lo == 0 then 0 else lo - 1, hi - 1);
    FirstOfTimes(CARD_DIGIT, lo, hi, t, i, m, |t|);
  }

  lemma {:induction false} SpelledEnds(digits: string, gaps: seq<string>)
    requires Separated(digits, gaps)
    ensures var s := Spelled(digits, gaps); s != "" && Digit(s[0]) && Digit(s[|s| - 1])
  {
    if gaps != [] {
      SpelledEnds(digits[1..], gaps[1..]);
    }
  }

  lemma CardReplaced(digits: string, gaps: seq<string>)
    requires CardNumber(digits, gaps)
    ensures Scan(CARD_PASS, Spelled(digits, gaps), 0) == "<PII:card>"
  {
    var s := Spelled(digits, gaps);
    SpelledEnds(digits, gaps);
    assert s[0..] == s;
    CardTaken(s, 0, digits, gaps, 13, 19);
    FirstTaken(CARD, AtBoundaries, "<PII:card>", s);
  }

  // ----- phone numbers and codes -----

  lemma {:induction false} ShapeHasNoAt(s: string, c: nat, a: nat)
    requires PhoneAt(s, 0, c, a, |s|)
    ensures '@' !in s
  {
    StaysInText(s, 0, c);
    StaysInText(s, c, a);
    assert forall k :: 0 <= k < c ==> s[k] != '@';
    assert forall k :: c <= k < a ==> s[k] != '@';
    assert forall k :: a <= k < |s| ==> s[k] != '@';
  }

  /** Six to fifteen digits have the shape of a phone number. */
  lemma DigitsArePhone(s: string)
    requires 6 <= |s| <= 15 && forall k :: 0 <= k < |s| ==> Digit(s[k])
    ensures PhoneNumber(s)
  {
    var n := |s|;
    var y := if n <= 6 then 3 else if n <= 7 then 3 else 4;
    var x := if n <= 6 then 3 else 4;
    var left := n - x - y;
    var area := if left <= 1 then 0 else if left <= 4 then left else 4;
    var c := left - area;
    if c > 0 {
      assert CountryParts(s, 0, 0, c, c);
    }
    if area > 0 {
      assert AreaParts(s, c, c, c + area, c + area, c + area);
    }
    assert NumberParts(s, left, left + x, left + x, n);
    assert PhoneAt(s, 0, c, left, n);
  }

  lemma {:induction false} AllDigits(s: string)
    requires forall k :: 0 <= k < |s| ==> Digit(s[k])
    ensures Digits(s) == |s|
  {
    CountRun(s, 0, |s|);
  }

  // ----- which pattern goes first -----

  /** What is left of an address whose local part is a card number. */
  function Remainder(y: string): string {
    "<PII:card>" + ['@'] + y
  }

  lemma RemainderParts(y: string)
    requires NoDigit(y) && '@' !in y && NoControl(y)
    ensures NoDigit(Remainder(y)) && NoControl(Remainder(y)) && Remainder(y)[9] == '>'
    ensures forall k :: 0 <= k < |Remainder(y)| && Remainder(y)[k] == '@' ==> k == 10
  {
    var t := Remainder(y);
    PlaceholderStays("<PII:card>");
    assert forall k :: 0 <= k < |t| ==> t[k] == if k < 10 then "<PII:card>"[k] else if k == 10 then '@' else y[k - 11];
  }

  lemma AtInside(t: string, i: nat, m: nat, p: int, q: int)
    requires i + m <= |t| && 0 <= p < m && 0 <= q < m && EmailShape(t[i..i + m], p, q)
    ensures 0 < p && t[i + p] == '@' && LocalChar(t[i + p - 1])
  {
    var u := t[i..i + m];
    assert t[i + p] == u[p] && t[i + p - 1] == u[p - 1];
  }

  lemma NoEmailThere(t: string, at: nat, i: nat, m: nat)
    requires 0 < at < |t| && (forall k :: 0 <= k < |t| && t[k] == '@' ==> k == at) && !LocalChar(t[at - 1])
    requires i + m <= |t|
    ensures !IsEmail(t[i..i + m])
  {
    var u := t[i..i + m];
    forall p, q | 0 <= p < m && 0 <= q < m ensures !EmailShape(u, p, q) {
      if EmailShape(u, p, q) {
        AtInside(t, i, m, p, q);
      }
    }
  }

  lemma NoLocalPart(t: string, at: nat, i: nat)
    requires 0 < at && (forall k :: 0 <= k < |t| && t[k] == '@' ==> k == at)
    requires at < |t| && !LocalChar(t[at - 1])
    ensures EmailAt(t, i) == 0
  {
    if i < |t| {
      LongestIsMatch(t, i, |t| - i);
      NoEmailThere(t, at, i, LongestEmail(t, i, |t| - i));
    }
  }

  lemma RemainderStays(y: string)
    requires NoDigit(y) && '@' !in y && NoControl(y)
    ensures Scan(EMAIL_SCANNER, Remainder(y), 0) == Remainder(y)
    ensures Scan(PHONE_PASS, Remainder(y), 0) == Remainder(y) && Scan(CODE_PASS, Remainder(y), 0) == Remainder(y)
    ensures Scan(CONTROL_PASS, Remainder(y), 0) == Remainder(y)
  {
    var t := Remainder(y);
    RemainderParts(y);
    forall i: nat | i < |t| ensures EMAIL_SCANNER.matchAt(t, i) == 0 {
      NoLocalPart(t, 10, i);
    }
    UnmatchedScan(EMAIL_SCANNER, t);
    DigitlessPasses(t);
    ControllessPass(t);
  }

  lemma CardTakesLocalPart(digits: string, gaps: seq<string>, y: string)
    requires CardNumber(digits, gaps) && NoDigit(y)
    ensures Scan(CARD_PASS, Spelled(digits, gaps) + ['@'] + y, 0) == Remainder(y)
  {
    var s := Spelled(digits, gaps);
    var t := s + ['@'] + y;
    Joined(s, '@', y);
    assert Rejects(DIGIT, '@') && Rejects(CARD_SEPARATOR, '@');
    ThenRejects(DIGIT, Maybe(CARD_SEPARATOR), '@');
    PatternsTakeSomething();
    RegexParts(CARD, AtBoundaries, "<PII:card>", t, s, '@', y);
    ScanParted(CARD_PASS, t, s, '@', y);
    CardReplaced(digits, gaps);
    DigitlessPasses(y);
  }

  /** Cards go before addresses: of an address whose local part is a card number the rest stays. */
  lemma CardBeforeAddress(digits: string, gaps: seq<string>, y: string)
    requires CardNumber(digits, gaps) && NoDigit(y) && '@' !in y && NoControl(y)
    ensures Redact(Spelled(digits, gaps) + ['@'] + y) == "<PII:card>" + ['@'] + y
  {
    CardTakesLocalPart(digits, gaps, y);
    RemainderStays(y);
  }

  // ----- what is left in no output -----

  lemma {:induction false} ControlsGone(t: string, i: nat)
    ensures NoControl(Scan(CONTROL_PASS, t, i))
    decreases |t| - i
  {
    if i < |t| {
      ControlHere(t, i);
      ControlsGone(t, i + 1);
    }
  }

  /** No output has a control character. */
  lemma NoControlLeft(t: string)
    ensures NoControl(Redact(t))
  {
    ControlsGone(Marked(t), 0);
  }

  lemma {:induction false} ScanAddsNothing(sc: Scanner, t: string, i: nat, c: char)
    requires c !in sc.placeholder && (forall k :: i <= k < |t| ==> t[k] != c)
    ensures c !in Scan(sc, t, i)
    decreases |t| - i
  {
    if i < |t| {
      var n := sc.matchAt(t, i);
      ScanAddsNothing(sc, t, if 0 < n <= |t| - i then i + n else i + 1, c);
    }
  }

  /** No pass brings an at sign in. */
  lemma NoAtLeft(t: string)
    requires '@' !in t
    ensures '@' !in Redact(t)
  {
    var cards := Scan(CARD_PASS, t, 0);
    ScanAddsNothing(CARD_PASS, t, 0, '@');
    var emails := Scan(EMAIL_SCANNER, cards, 0);
    ScanAddsNothing(EMAIL_SCANNER, cards, 0, '@');
    var phones := Scan(PHONE_PASS, emails, 0);
    ScanAddsNothing(PHONE_PASS, emails, 0, '@');
    var codes := Scan(CODE_PASS, phones, 0);
    ScanAddsNothing(CODE_PASS, phones, 0, '@');
    ScanAddsNothing(CONTROL_PASS, codes, 0, '@');
  }

  // ----- in a text -----

  predicate EndsInWall(pre: string) {
    pre == "" || Wall(pre[|pre| - 1])
  }

  predicate StartsWithWall(post: string) {
    post == "" || Wall(post[0])
  }

  lemma RedactEmpty(e: string)
    requires |e| == 0
    ensures Redact(e) == e
  {
  }

  lemma LastApart(pre: string, s: string)
    requires pre != ""
    ensures var x, c := pre[..|pre| - 1], pre[|pre| - 1]; pre == x + [c] && pre + s == x + [c] + s
  {
  }

  lemma FirstApart(s: string, post: string)
    requires post != ""
    ensures var c, y := post[0], post[1..]; post == [c] + y && s + post == s + [c] + y
  {
  }

  lemma RedactLast(x: string, c: char, e: string)
    requires Wall(c) && |e| == 0
    ensures Redact(x + [c]) == Redact(x) + [c]
  {
    assert x + [c] + e == x + [c] && Redact(x) + [c] + e == Redact(x) + [c];
    RedactParted(x, c, e);
    RedactEmpty(e);
  }

  lemma RedactFirst(e: string, c: char, y: string)
    requires Wall(c) && |e| == 0
    ensures Redact([c] + y) == [c] + Redact(y)
  {
    assert e + [c] + y == [c] + y && e + [c] + Redact(y) == [c] + Redact(y);
    RedactParted(e, c, y);
    RedactEmpty(e);
  }

  lemma RedactFront(pre: string, s: string)
    requires EndsInWall(pre)
    ensures Redact(pre + s) == Redact(pre) + Redact(s)
  {
    if pre == "" {
      assert pre + s == s;
      RedactEmpty(pre);
    } else {
      LastApart(pre, s);
      RedactLast(pre[..|pre| - 1], pre[|pre| - 1], pre[..0]);
      RedactParted(pre[..|pre| - 1], pre[|pre| - 1], s);
    }
  }

  lemma RedactBehind(s: string, post: string)
    requires StartsWithWall(post)
    ensures Redact(s + post) == Redact(s) + Redact(post)
  {
    if post == "" {
      assert s + post == s;
      RedactEmpty(post);
    } else {
      FirstApart(s, post);
      RedactFirst(post[..0], post[0], post[1..]);
      RedactParted(s, post[0], post[1..]);
      Redactor.Grouped(Redact(s), [post[0]], Redact(post[1..]));
    }
  }

  /** Between walls, or at an end of the text, a part is redacted as it is alone. */
  lemma RedactEnclosed(pre: string, s: string, post: string)
    requires EndsInWall(pre) && StartsWithWall(post)
    ensures Redact(pre + s + post) == Redact(pre) + Redact(s) + Redact(post)
  {
    RedactBehind(pre + s, post);
    RedactFront(pre, s);
  }

  /** Text in which nothing begins that is looked for, up to the character in front of what follows. */
  predicate Calm(front: string) {
    && NoDigit(front) && NoControl(front)
    && (forall k :: 0 <= k < |front| ==> front[k] !in {'@', '+', '('})
    && (front != "" ==> !LocalChar(front[|front| - 1]))
  }

  lemma CalmPasses(front: string, p: string)
    requires Calm(front) && p in {"<PII:email>", "<PII:card>", "<PII:phone>"}
    ensures var t := front + p;
            && Scan(EMAIL_SCANNER, t, 0) == t && Scan(PHONE_PASS, t, 0) == t
            && Scan(CODE_PASS, t, 0) == t && Scan(CONTROL_PASS, t, 0) == t
  {
    var t := front + p;
    PlaceholderStays(p);
    assert NoDigit(t) && NoControl(t) && '@' !in t;
    DigitlessPasses(t);
    NoAtUntouched(t, 0);
    assert t[0..] == t;
    ControllessPass(t);
  }

  lemma {:induction false} CountBehind(front: string, s: string, i: nat)
    requires i <= |s|
    ensures Count(front + s, |front| + i, |front + s|) == Count(s, i, |s|)
    decreases |s| - i
  {
    if i < |s| {
      CountBehind(front, s, i + 1);
      assert (front + s)[|front| + i] == s[i];
    }
  }

  lemma DigitsBehind(front: string, s: string)
    requires NoDigit(front)
    ensures Digits(front + s) == Digits(s)
  {
    CountBehind(front, s, 0);
    CountRun(front + s, 0, |front|);
    CountSplit(front + s, 0, |front|, |front + s|);
  }

  predicate NoWordLast(front: string) {
    front != "" ==> !Word(front[|front| - 1])
  }

  /** The one text ends the other, behind position d, where no word character stands in front of it. */
  predicate Closes(s: string, u: string, d: nat) {
    |u| == |s| + d && !WordAt(u, d - 1) && forall j: nat :: j < |s| ==> s[j] == u[j + d]
  }

  lemma MatchBehindText(re: Regex, edges: Edges, s: string, u: string, d: nat, x: nat)
    requires Closes(s, u, d) && x < |s|
    ensures MatchAt(re, edges, s, x) == MatchAt(re, edges, u, x + d)
  {
    MatchAlike(re, edges, s, u, d, |s|, x);
  }

  /** Behind a character that is not of a word, a text has the matches that it has alone. */
  lemma RegexBehindText(re: Regex, edges: Edges, placeholder: string, front: string, s: string)
    requires NoWordLast(front)
    ensures StandsIn(ScannerOf(re, edges, placeholder), s, front + s, |front|)
  {
    assert Closes(s, front + s, |front|);
    forall x: nat | x < |s| ensures MatchAt(re, edges, s, x) == MatchAt(re, edges, front + s, x + |front|) {
      MatchBehindText(re, edges, s, front + s, |front|, x);
    }
    SameMatches(re, edges, placeholder, s, front + s, |front|);
  }

  lemma ShapeStarts(t: string, i: nat, c: nat, a: nat, e: nat)
    requires i < |t| && PhoneAt(t, i, c, a, e)
    ensures Digit(t[i]) || t[i] in {'+', '('}
  {
  }

  lemma NothingStarts(t: string, i: nat, e: nat)
    requires i < |t| && !Digit(t[i]) && t[i] !in {'+', '('}
    ensures e !in Ends(PHONE, t, i)
  {
    PhoneExactly(t, i, e);
    if c: nat, a: nat :| PhoneAt(t, i, c, a, e) {
      ShapeStarts(t, i, c, a, e);
    }
  }

  lemma PhoneStarts(t: string, i: nat)
    requires i < |t| && !Digit(t[i]) && t[i] !in {'+', '('}
    ensures PHONE_PASS.matchAt(t, i) == 0
  {
    var ends := Ends(PHONE, t, i);
    if ends != [] {
      NothingStarts(t, i, ends[0]);
    }
  }

  lemma CardStarts(t: string, i: nat)
    requires i < |t| && !Digit(t[i])
    ensures CARD_PASS.matchAt(t, i) == 0
  {
    assert Ends(DIGIT, t, i) == [];
    assert Ends(CARD_DIGIT, t, i) == [];
    StarvedTimes(CARD_DIGIT, 13, 19, t, i);
  }

  lemma CardBehind(front: string, s: string)
    requires Calm(front)
    ensures Scan(CARD_PASS, front + s, 0) == front + Scan(CARD_PASS, s, 0)
  {
    forall i: nat | i < |front| ensures CARD_PASS.matchAt(front + s, i) == 0 {
      CardStarts(front + s, i);
    }
    RegexBehindText(CARD, AtBoundaries, "<PII:card>", front, s);
    ScanBehind(CARD_PASS, front, s);
  }

  lemma PhoneBehind(front: string, s: string)
    requires Calm(front)
    ensures Scan(PHONE_PASS, front + s, 0) == front + Scan(PHONE_PASS, s, 0)
  {
    forall i: nat | i < |front| ensures PHONE_PASS.matchAt(front + s, i) == 0 {
      PhoneStarts(front + s, i);
    }
    RegexBehindText(PHONE, OutsideWords, "<PII:phone>", front, s);
    ScanBehind(PHONE_PASS, front, s);
  }

  lemma AddressBehindText(front: string, s: string, a: nat, b: nat)
    requires Calm(front) && Address(s, a, b) && Digits(s) < 13
    ensures Redact(front + s) == front + "<PII:email>"
  {
    DigitsBehind(front, s);
    FewDigitsNoCard(front + s);
    FrontCopied(front, s);
    AddressReplaced(s, a, b);
    CalmPasses(front, "<PII:email>");
  }

  lemma CardBehindText(front: string, digits: string, gaps: seq<string>)
    requires Calm(front) && CardNumber(digits, gaps)
    ensures Redact(front + Spelled(digits, gaps)) == front + "<PII:card>"
  {
    CardBehind(front, Spelled(digits, gaps));
    CardReplaced(digits, gaps);
    CalmPasses(front, "<PII:card>");
  }

  lemma PhoneBehindText(front: string, s: string)
    requires Calm(front) && PhoneNumber(s) && Digits(s) < 13
    ensures Redact(front + s) == front + "<PII:phone>"
  {
    DigitsBehind(front, s);
    FewDigitsNoCard(front + s);
    var c: nat, a: nat :| PhoneAt(s, 0, c, a, |s|);
    ShapeHasNoAt(s, c, a);
    NoAtUntouched(front + s, 0);
    assert (front + s)[0..] == front + s;
    PhoneBehind(front, s);
    WholeMatched(s);
    WholeTaken(PHONE_PASS, s);
    CalmPasses(front, "<PII:phone>");
  }

  /** What is to be replaced, and by what. */
  ghost predicate Personal(s: string, placeholder: string) {
    || (placeholder == "<PII:email>" && Digits(s) < 13 && exists a: nat, b: nat :: Address(s, a, b))
    || (placeholder == "<PII:card>" && exists digits, gaps :: CardNumber(digits, gaps) && s == Spelled(digits, gaps))
    || (placeholder == "<PII:phone>" && Digits(s) < 13 && PhoneNumber(s))
  }

  lemma PersonalBehindText(front: string, s: string, placeholder: string)
    requires Calm(front) && Personal(s, placeholder)
    ensures Redact(front + s) == front + placeholder
  {
    if placeholder == "<PII:email>" {
      var a: nat, b: nat :| Address(s, a, b);
      AddressBehindText(front, s, a, b);
    } else if placeholder == "<PII:card>" {
      var digits, gaps :| CardNumber(digits, gaps) && s == Spelled(digits, gaps);
      CardBehindText(front, digits, gaps);
    } else {
      PhoneBehindText(front, s);
    }
  }

  /** An address, a card number or a phone number, behind calm text that begins at a wall or with the message, and in
      front of a wall or the end of the message, becomes exactly its placeholder. */
  lemma PersonalMarked(pre: string, front: string, s: string, post: string, placeholder: string)
    requires Personal(s, placeholder) && EndsInWall(pre) && Calm(front) && StartsWithWall(post)
    ensures Redact(pre + (front + s) + post) == Redact(pre) + (front + placeholder) + Redact(post)
  {
    RedactEnclosed(pre, front + s, post);
    PersonalBehindText(front, s, placeholder);
  }

  /** A code of six digits, and up to twelve digits, become the placeholder of a phone number, which is what they are to
      the earlier pass. */
  lemma CodeMarked(front: string, s: string)
    requires Calm(front) && 6 <= |s| <= 12 && forall k :: 0 <= k < |s| ==> Digit(s[k])
    ensures Redact(front + s) == front + "<PII:phone>"
  {
    DigitsArePhone(s);
    CountRun(s, 0, |s|);
    PersonalBehindText(front, s, "<PII:phone>");
  }

  // ----- the pass for codes -----

  lemma ScanStep(sc: Scanner, t: string, i: nat, n: nat)
    requires i < |t| && n == sc.matchAt(t, i) <= |t| - i
    ensures Scan(sc, t, i) == if n > 0 then sc.placeholder + Scan(sc, t, i + n) else [t[i]] + Scan(sc, t, i + 1)
  {
  }

  predicate DigitsLead(s: string, n: nat) {
    n <= |s| && forall k :: 0 <= k < n ==> Digit(s[k])
  }

  lemma OneCopied(sc: Scanner, t: string, i: nat)
    requires i <= |t| && sc.placeholder != "" && !Digit(sc.placeholder[0])
    requires Scan(sc, t, i) != "" && Digit(Scan(sc, t, i)[0])
    ensures i < |t| && Digit(t[i]) && Scan(sc, t, i) == [t[i]] + Scan(sc, t, i + 1)
  {
  }

  lemma Dropped(c: char, rest: string, n: nat)
    requires 0 < n <= |rest| + 1
    ensures ([c] + rest)[n..] == rest[n - 1..]
    ensures DigitsLead([c] + rest, n) ==> DigitsLead(rest, n - 1)
  {
    assert forall k :: 0 <= k < |rest| ==> rest[k] == ([c] + rest)[k + 1];
  }

  /** Digits that a pass leaves are those of the text. */
  lemma {:induction false} DigitsCopied(sc: Scanner, t: string, i: nat, n: nat)
    requires i <= |t| && sc.placeholder != "" && !Digit(sc.placeholder[0]) && DigitsLead(Scan(sc, t, i), n)
    ensures i + n <= |t| && (forall k :: i <= k < i + n ==> Digit(t[k]))
    ensures Scan(sc, t, i)[n..] == Scan(sc, t, i + n)
    decreases n
  {
    if n > 0 {
      OneCopied(sc, t, i);
      Dropped(t[i], Scan(sc, t, i + 1), n);
      DigitsCopied(sc, t, i + 1, n - 1);
    }
  }

  /** Behind what was put out so far a word begins or goes on as it does in the text. */
  predicate Bridges(t: string, i: nat, pre: string) {
    WordAt(pre, |pre| - 1) == WordAt(t, i - 1) || !WordAt(t, i)
  }

  lemma CodeShape(u: string, k: nat)
    requires k <= |u| && CODE_PASS.matchAt(u, k) > 0
    ensures Run(u, k, k + 6, 6, 6) && !WordAt(u, k - 1) && !WordAt(u, k + 6)
  {
    var ends := Ends(CODE, u, k);
    forall e ensures e in ends <==> Run(u, k, e, 6, 6) {
      InRun(6, 6, u, k, e);
    }
    FirstAtBoundary(u, k, ends);
  }

  lemma {:induction false} FirstAtBoundary(u: string, k: nat, ends: seq<nat>)
    requires FirstEnd(AtBoundaries, u, k, ends) > 0
    ensures exists e :: e in ends && EdgeAt(AtBoundaries, u, e, false)
  {
    if !EdgeAt(AtBoundaries, u, ends[0], false) || ends[0] < k {
      FirstAtBoundary(u, k, ends[1..]);
    }
  }

  /** Six digits that stand alone are a phone number. */
  lemma SixDigitsMatched(t: string, i: nat)
    requires Run(t, i, i + 6, 6, 6) && !WordAt(t, i - 1) && !WordAt(t, i + 6)
    ensures 0 < PHONE_PASS.matchAt(t, i) <= |t| - i
  {
    assert NumberParts(t, i, i + 3, i + 3, i + 6);
    PhoneMatched(t, i, i, i, i + 6);
    MatchWithin(PHONE, OutsideWords, t, i);
  }

  lemma NoPhoneInWord(t: string, i: nat)
    requires WordAt(t, i - 1)
    ensures PHONE_PASS.matchAt(t, i) == 0
  {
  }

  /** What stands alone in what the phone pass puts out stood alone in the text. */
  lemma AloneInText(t: string, i: nat, rest: string)
    requires i <= |t| && rest == Scan(PHONE_PASS, t, i) && Run(rest, 0, 6, 6, 6) && !WordAt(rest, 6)
    ensures Run(t, i, i + 6, 6, 6) && !WordAt(t, i + 6)
  {
    DigitsCopied(PHONE_PASS, t, i, 6);
    NoPhoneInWord(t, i + 6);
    if i + 6 < |t| {
      assert Scan(PHONE_PASS, t, i + 6)[0] == t[i + 6];
      assert rest[6] == rest[6..][0];
    }
  }

  lemma RunBehind(pre: string, rest: string)
    requires Run(pre + rest, |pre|, |pre| + 6, 6, 6) && !WordAt(pre + rest, |pre| - 1) && !WordAt(pre + rest, |pre| + 6)
    ensures Run(rest, 0, 6, 6, 6) && !WordAt(rest, 6) && !WordAt(pre, |pre| - 1)
  {
    var out := pre + rest;
    assert forall k :: 0 <= k < |rest| ==> rest[k] == out[|pre| + k];
    assert |pre| > 0 ==> out[|pre| - 1] == pre[|pre| - 1];
  }

  lemma NoCodeHere(t: string, i: nat, pre: string, rest: string)
    requires i < |t| && PHONE_PASS.matchAt(t, i) == 0 && Bridges(t, i, pre) && rest == Scan(PHONE_PASS, t, i)
    ensures CODE_PASS.matchAt(pre + rest, |pre|) == 0
  {
    if CODE_PASS.matchAt(pre + rest, |pre|) > 0 {
      CodeShape(pre + rest, |pre|);
      RunBehind(pre, rest);
      AloneInText(t, i, rest);
      SixDigitsMatched(t, i);
    }
  }

  lemma NoDigitNoCode(u: string, k: nat)
    requires k < |u| && !Digit(u[k])
    ensures CODE_PASS.matchAt(u, k) == 0
  {
    if CODE_PASS.matchAt(u, k) > 0 {
      CodeShape(u, k);
    }
  }

  predicate NoCodeFrom(u: string, n: nat) {
    forall k: nat :: n <= k < |u| ==> CODE_PASS.matchAt(u, k) == 0
  }

  lemma NoCodeInPlaceholder(pre: string, p: string, rest: string)
    requires NoDigit(p) && NoCodeFrom((pre + p) + rest, |pre + p|)
    ensures NoCodeFrom(pre + (p + rest), |pre|)
  {
    var u := pre + (p + rest);
    assert (pre + p) + rest == u;
    forall k: nat | |pre| <= k < |u| ensures CODE_PASS.matchAt(u, k) == 0 {
      if k < |pre + p| {
        assert u[k] == p[k - |pre|];
        NoDigitNoCode(u, k);
      }
    }
  }

  lemma NoCodeInCopy(pre: string, c: char, rest: string)
    requires CODE_PASS.matchAt(pre + ([c] + rest), |pre|) == 0 && NoCodeFrom((pre + [c]) + rest, |pre + [c]|)
    ensures NoCodeFrom(pre + ([c] + rest), |pre|)
  {
    assert (pre + [c]) + rest == pre + ([c] + rest);
  }

  /** One step of the phone pass. */
  lemma PhoneStep(t: string, i: nat, n: nat)
    requires i < |t| && n == PHONE_PASS.matchAt(t, i)
    ensures i + n <= |t| && (n > 0 ==> !WordAt(t, i + n))
    ensures Scan(PHONE_PASS, t, i)
         == if n > 0 then "<PII:phone>" + Scan(PHONE_PASS, t, i + n) else [t[i]] + Scan(PHONE_PASS, t, i + 1)
  {
    MatchWithin(PHONE, OutsideWords, t, i);
    if n > 0 {
      PhoneEdge(t, i, n);
    }
    ScanStep(PHONE_PASS, t, i, n);
  }

  lemma PhoneEdge(t: string, i: nat, n: nat)
    requires 0 < n == PHONE_PASS.matchAt(t, i)
    ensures !WordAt(t, i + n)
  {
    FirstIsEnd(t, i, Ends(PHONE, t, i));
  }

  lemma {:induction false} NoCodeLeft(t: string, i: nat, pre: string)
    requires i <= |t| && Bridges(t, i, pre)
    ensures NoCodeFrom(pre + Scan(PHONE_PASS, t, i), |pre|)
    decreases |t| - i
  {
    if i < |t| {
      var n := PHONE_PASS.matchAt(t, i);
      PhoneStep(t, i, n);
      if n > 0 {
        PlaceholderStays("<PII:phone>");
        NoCodeLeft(t, i + n, pre + "<PII:phone>");
        NoCodeInPlaceholder(pre, "<PII:phone>", Scan(PHONE_PASS, t, i + n));
      } else {
        NoCodeHere(t, i, pre, Scan(PHONE_PASS, t, i));
        NoCodeLeft(t, i + 1, pre + [t[i]]);
        NoCodeInCopy(pre, t[i], Scan(PHONE_PASS, t, i + 1));
      }
    }
  }

  /** The pass for codes finds nothing: whatever text the phone pass has gone over has no six digits alone. */
  lemma CodePassIdle(t: string)
    ensures Scan(CODE_PASS, Scan(PHONE_PASS, t, 0), 0) == Scan(PHONE_PASS, t, 0)
  {
    var out := Scan(PHONE_PASS, t, 0);
    NoCodeLeft(t, 0, "");
    assert "" + out == out;
    UnmatchedScan(CODE_PASS, out);
  }

  lemma PersonalNotEmpty(s: string, placeholder: string)
    requires Personal(s, placeholder)
    ensures s != "" && placeholder != ""
  {
  }

  lemma AddressAtUnseen(a: string, b: string, c: string)
    requires '@' !in a && '@' !in b && '@' !in c
    ensures '@' !in a + b + c
  {
  }

  /** So of an address in a message without other at signs not even the at sign is left. */
  lemma AddressGone(pre: string, front: string, s: string, post: string)
    requires Personal(s, EMAIL) && EndsInWall(pre) && Calm(front) && StartsWithWall(post)
    requires '@' !in pre && '@' !in post
    ensures '@' !in Redact(pre + (front + s) + post)
  {
    PersonalMarked(pre, front, s, post, EMAIL);
    NoAtLeft(pre);
    NoAtLeft(post);
    PlaceholderStays(EMAIL);
    AddressAtUnseen(Redact(pre), front + EMAIL, Redact(post));
  }
}
