/** The whole redaction, pass after pass: characters that part the text, and what they give the streamer. */
module Redactor {
  import opened DeltaStreamer
  import opened Redaction
  import opened Patterns

  // ----- two texts that read alike up to a stop -----

  function Rejects(re: Regex, c: char): bool {
    match re
    case One(test) => !test(c)
    case Then(a, b) => Rejects(a, c) && Rejects(b, c)
    case Times(body, _, _) => Rejects(body, c)
  }

  /** The text ends here, or goes on with a character that the expression never takes. */
  predicate Stops(re: Regex, t: string, e: nat) {
    e == |t| || (e < |t| && Rejects(re, t[e]))
  }

  /** The one text stands in the other from position d on, up to a stop in both. */
  ghost predicate Alike(re: Regex, t: string, u: string, d: nat, e: nat) {
    && e <= |t| && e + d <= |u| && Stops(re, t, e) && Stops(re, u, e + d)
    && forall j: nat :: j < e ==> t[j] == u[j + d]
  }

  function Shift(s: seq<nat>, d: nat): (r: seq<nat>)
    ensures |r| == |s| && forall k :: 0 <= k < |s| ==> r[k] == s[k] + d
  {
    seq(|s|, k requires 0 <= k < |s| => s[k] + d)
  }

  predicate NoneBeyond(ends: seq<nat>, e: nat) {
    forall k :: 0 <= k < |ends| ==> ends[k] <= e
  }

  lemma ShiftConcat(a: seq<nat>, b: seq<nat>, d: nat, e: nat)
    ensures Shift(a + b, d) == Shift(a, d) + Shift(b, d)
    ensures NoneBeyond(a, e) && NoneBeyond(b, e) ==> NoneBeyond(a + b, e)
  {
  }

  lemma ShiftTail(s: seq<nat>, d: nat, e: nat)
    requires s != []
    ensures Shift(s, d)[1..] == Shift(s[1..], d) && Shift(s, d)[0] == s[0] + d
    ensures NoneBeyond(s, e) ==> NoneBeyond(s[1..], e) && s[0] <= e
  {
  }

  lemma {:induction false} EndsAlike(re: Regex, t: string, u: string, d: nat, e: nat, i: nat)
    requires Alike(re, t, u, d, e) && i <= e
    ensures Ends(re, u, i + d) == Shift(Ends(re, t, i), d) && NoneBeyond(Ends(re, t, i), e)
    decreases re, 0, 0
  {
    match re
    case One(_) =>
      assert i < e ==> t[i] == u[i + d];
    case Then(a, b) =>
      EndsAlike(a, t, u, d, e, i);
      EndsFromAlike(b, t, u, d, e, Ends(a, t, i));
    case Times(body, lo, hi) => EndsTimesAlike(body, lo, hi, t, u, d, e, i);
  }

  lemma {:induction false} EndsFromAlike(re: Regex, t: string, u: string, d: nat, e: nat, starts: seq<nat>)
    requires Alike(re, t, u, d, e) && NoneBeyond(starts, e)
    ensures EndsFrom(re, u, Shift(starts, d)) == Shift(EndsFrom(re, t, starts), d)
    ensures NoneBeyond(EndsFrom(re, t, starts), e)
    decreases re, 1, |starts|
  {
    if starts != [] {
      ShiftTail(starts, d, e);
      EndsAlike(re, t, u, d, e, starts[0]);
      EndsFromAlike(re, t, u, d, e, starts[1..]);
      ShiftConcat(Ends(re, t, starts[0]), EndsFrom(re, t, starts[1..]), d, e);
    }
  }

  /** With the ends of one more repetition alike, all ends are. */
  lemma OnceMoreAlike(re: Regex, lo: nat, hi: nat, t: string, u: string, d: nat, e: nat, i: nat, fewer: nat)
    requires i <= e && fewer == if lo == 0 then 0 else lo - 1
    requires hi > 0 ==>
               && EndsTimesFrom(re, fewer, hi - 1, u, Ends(re, u, i + d))
                  == Shift(EndsTimesFrom(re, fewer, hi - 1, t, Ends(re, t, i)), d)
               && NoneBeyond(EndsTimesFrom(re, fewer, hi - 1, t, Ends(re, t, i)), e)
    ensures EndsTimes(re, lo, hi, u, i + d) == Shift(EndsTimes(re, lo, hi, t, i), d)
    ensures NoneBeyond(EndsTimes(re, lo, hi, t, i), e)
  {
    var more := if hi == 0 then [] else EndsTimesFrom(re, fewer, hi - 1, t, Ends(re, t, i));
    ShiftConcat(more, if lo == 0 then [i] else [], d, e);
  }

  lemma {:induction false} EndsTimesAlike(re: Regex, lo: nat, hi: nat, t: string, u: string, d: nat, e: nat, i: nat)
    requires Alike(re, t, u, d, e) && i <= e
    ensures EndsTimes(re, lo, hi, u, i + d) == Shift(EndsTimes(re, lo, hi, t, i), d)
    ensures NoneBeyond(EndsTimes(re, lo, hi, t, i), e)
    decreases re, 2 * hi + 1, 0
  {
    var fewer := if lo == 0 then 0 else lo - 1;
    if hi > 0 {
      EndsAlike(re, t, u, d, e, i);
      EndsTimesFromAlike(re, fewer, hi - 1, t, u, d, e, Ends(re, t, i));
    }
    OnceMoreAlike(re, lo, hi, t, u, d, e, i, fewer);
  }

  lemma {:induction false} EndsTimesFromAlike(re: Regex, lo: nat, hi: nat, t: string, u: string, d: nat, e: nat,
                                              starts: seq<nat>)
    requires Alike(re, t, u, d, e) && NoneBeyond(starts, e)
    ensures EndsTimesFrom(re, lo, hi, u, Shift(starts, d)) == Shift(EndsTimesFrom(re, lo, hi, t, starts), d)
    ensures NoneBeyond(EndsTimesFrom(re, lo, hi, t, starts), e)
    decreases re, 2 * hi + 2, |starts|
  {
    if starts != [] {
      ShiftTail(starts, d, e);
      EndsTimesAlike(re, lo, hi, t, u, d, e, starts[0]);
      EndsTimesFromAlike(re, lo, hi, t, u, d, e, starts[1..]);
      ShiftConcat(EndsTimes(re, lo, hi, t, starts[0]), EndsTimesFrom(re, lo, hi, t, starts[1..]), d, e);
    }
  }

  /** No word character stands at the stop or in front of the one text in the other. */
  predicate Framed(t: string, u: string, d: nat, e: nat) {
    !WordAt(t, e) && !WordAt(u, e + d) && !WordAt(u, d - 1)
  }

  lemma EdgeAlike(edges: Edges, re: Regex, t: string, u: string, d: nat, e: nat, i: nat, atStart: bool)
    requires Alike(re, t, u, d, e) && Framed(t, u, d, e) && i <= e
    ensures EdgeAt(edges, u, i + d, atStart) == EdgeAt(edges, t, i, atStart)
  {
    if i < e {
      assert t[i] == u[i + d];
    }
    if i > 0 {
      assert t[i - 1] == u[i - 1 + d];
    }
  }

  lemma {:induction false} FirstEndAlike(edges: Edges, re: Regex, t: string, u: string, d: nat, e: nat, i: nat,
                                         ends: seq<nat>)
    requires Alike(re, t, u, d, e) && Framed(t, u, d, e) && NoneBeyond(ends, e)
    ensures FirstEnd(edges, u, i + d, Shift(ends, d)) == FirstEnd(edges, t, i, ends)
  {
    if ends != [] {
      ShiftTail(ends, d, e);
      EdgeAlike(edges, re, t, u, d, e, ends[0], false);
      FirstEndAlike(edges, re, t, u, d, e, i, ends[1..]);
    }
  }

  lemma MatchAlike(re: Regex, edges: Edges, t: string, u: string, d: nat, e: nat, i: nat)
    requires Alike(re, t, u, d, e) && Framed(t, u, d, e) && i <= e
    ensures MatchAt(re, edges, u, i + d) == MatchAt(re, edges, t, i)
  {
    EndsAlike(re, t, u, d, e, i);
    EdgeAlike(edges, re, t, u, d, e, i, true);
    FirstEndAlike(edges, re, t, u, d, e, i, Ends(re, t, i));
  }

  // ----- a character that parts the text -----

  /** The text is x, then c, then y. */
  predicate Parted(t: string, x: string, c: char, y: string) {
    && |t| == |x| + 1 + |y| && t[|x|] == c
    && (forall j: nat :: j < |x| ==> x[j] == t[j])
    && (forall j: nat :: j < |y| ==> y[j] == t[j + (|x| + 1)])
  }

  lemma Joined(x: string, c: char, y: string)
    ensures Parted(x + [c] + y, x, c, y)
  {
  }

  lemma Unique(t: string, x: string, c: char, y: string)
    requires Parted(t, x, c, y)
    ensures t == x + [c] + y
  {
    var u := x + [c] + y;
    Joined(x, c, y);
    forall j | 0 <= j < |t| ensures t[j] == u[j] {
      if j > |x| {
        var k: nat := j - (|x| + 1);
        assert y[k] == t[k + (|x| + 1)] == u[k + (|x| + 1)];
      } else if j < |x| {
        assert x[j] == t[j] == u[j];
      }
    }
  }

  /** In front of the character there are the matches of the text in front alone, behind it those of the text behind
      alone, and none begins at it. */
  ghost predicate PartsAt(sc: Scanner, t: string, x: string, c: char, y: string) {
    && Parted(t, x, c, y)
    && (forall i: nat :: i < |x| ==> sc.matchAt(t, i) == sc.matchAt(x, i) <= |x| - i)
    && sc.matchAt(t, |x|) == 0
    && StandsIn(sc, y, t, |x| + 1)
  }

  lemma AlikeInFront(re: Regex, t: string, x: string, c: char, y: string)
    requires Parted(t, x, c, y) && Rejects(re, c) && !Word(c)
    ensures Alike(re, x, t, 0, |x|) && Framed(x, t, 0, |x|)
  {
  }

  lemma AlikeBehind(re: Regex, t: string, x: string, c: char, y: string)
    requires Parted(t, x, c, y) && Rejects(re, c) && !Word(c)
    ensures Alike(re, y, t, |x| + 1, |y|) && Framed(y, t, |x| + 1, |y|)
  {
  }

  lemma RegexInFront(re: Regex, edges: Edges, t: string, x: string, c: char, y: string, i: nat)
    requires Parted(t, x, c, y) && Rejects(re, c) && !Word(c) && i <= |x|
    ensures MatchAt(re, edges, t, i) == MatchAt(re, edges, x, i) <= |x| - i
    ensures Shortest(re) > 0 && i == |x| ==> MatchAt(re, edges, x, i) == 0
  {
    AlikeInFront(re, t, x, c, y);
    MatchAlike(re, edges, x, t, 0, |x|, i);
    MatchWithin(re, edges, x, i);
  }

  lemma RegexBehind(re: Regex, edges: Edges, t: string, x: string, c: char, y: string, k: nat)
    requires Parted(t, x, c, y) && Rejects(re, c) && !Word(c) && k < |y|
    ensures MatchAt(re, edges, t, k + (|x| + 1)) == MatchAt(re, edges, y, k)
  {
    AlikeBehind(re, t, x, c, y);
    MatchAlike(re, edges, y, t, |x| + 1, |y|, k);
  }

  /** The text stands in the other from position d on. */
  predicate StandsAt(y: string, t: string, d: nat) {
    |t| == |y| + d && forall k: nat :: k < |y| ==> y[k] == t[k + d]
  }

  lemma SameMatches(re: Regex, edges: Edges, placeholder: string, y: string, t: string, d: nat)
    requires StandsAt(y, t, d)
    requires forall k: nat :: k < |y| ==> MatchAt(re, edges, y, k) == MatchAt(re, edges, t, k + d)
    ensures StandsIn(ScannerOf(re, edges, placeholder), y, t, d)
  {
  }

  lemma RegexStandsIn(re: Regex, edges: Edges, placeholder: string, t: string, x: string, c: char, y: string)
    requires Parted(t, x, c, y) && Rejects(re, c) && !Word(c)
    ensures StandsIn(ScannerOf(re, edges, placeholder), y, t, |x| + 1)
  {
    var d := |x| + 1;
    forall k: nat | k < |y| ensures MatchAt(re, edges, y, k) == MatchAt(re, edges, t, k + d) {
      RegexBehind(re, edges, t, x, c, y, k);
    }
    assert StandsAt(y, t, d);
    SameMatches(re, edges, placeholder, y, t, d);
  }

  lemma RegexParts(re: Regex, edges: Edges, placeholder: string, t: string, x: string, c: char, y: string)
    requires Parted(t, x, c, y) && Rejects(re, c) && !Word(c) && Shortest(re) > 0
    ensures PartsAt(ScannerOf(re, edges, placeholder), t, x, c, y)
  {
    var sc := ScannerOf(re, edges, placeholder);
    RegexInFront(re, edges, t, x, c, y, |x|);
    forall i: nat | i < |x| ensures sc.matchAt(t, i) == sc.matchAt(x, i) <= |x| - i {
      RegexInFront(re, edges, t, x, c, y, i);
    }
    RegexStandsIn(re, edges, placeholder, t, x, c, y);
  }

  predicate NoEmailChar(c: char) {
    !LocalChar(c) && c != '@'
  }

  lemma NotAnEmail(u: string, k: nat)
    requires k < |u| && NoEmailChar(u[k])
    ensures !IsEmail(u)
  {
  }

  lemma SameSlice(t: string, x: string, c: char, y: string, i: nat, n: nat)
    requires Parted(t, x, c, y) && i + n <= |x|
    ensures t[i..i + n] == x[i..i + n]
  {
  }

  lemma BoundaryBefore(t: string, x: string, c: char, y: string, i: nat)
    requires Parted(t, x, c, y) && !Word(c) && i <= |x|
    ensures Boundary(t, i) == Boundary(x, i)
  {
    if i > 0 {
      assert x[i - 1] == t[i - 1];
    }
    if i < |x| {
      assert x[i] == t[i];
    }
  }

  /** The longest match in front of the character. */
  lemma {:induction false} LongestBefore(t: string, x: string, c: char, y: string, i: nat, n: nat)
    requires Parted(t, x, c, y) && NoEmailChar(c) && i <= |x| && i + n <= |t|
    ensures LongestEmail(t, i, n) == LongestEmail(x, i, if i + n <= |x| then n else |x| - i)
  {
    if n > 0 {
      LongestBefore(t, x, c, y, i, n - 1);
      if i + n > |x| {
        assert t[i..i + n][|x| - i] == c;
        NotAnEmail(t[i..i + n], |x| - i);
      } else {
        SameSlice(t, x, c, y, i, n);
        BoundaryBefore(t, x, c, y, i + n);
      }
    }
  }

  lemma EmailBefore(t: string, x: string, c: char, y: string, i: nat)
    requires Parted(t, x, c, y) && NoEmailChar(c) && i <= |x|
    ensures EmailAt(t, i) == EmailAt(x, i) <= |x| - i
  {
    BoundaryBefore(t, x, c, y, i);
    LongestBefore(t, x, c, y, i, |t| - i);
    LongestIsMatch(x, i, |x| - i);
    EmptyMatch(x);
  }

  lemma EmptyMatch(x: string)
    ensures EmailAt(x, |x|) == 0 && LongestEmail(x, |x|, 0) == 0
  {
  }

  lemma EmailBehind(t: string, x: string, c: char, y: string, k: nat)
    requires Parted(t, x, c, y) && NoEmailChar(c) && k < |y|
    ensures EmailAt(t, k + (|x| + 1)) == EmailAt(y, k)
  {
    Unique(t, x, c, y);
    MatchShifts(x + [c], y, k);
  }

  lemma EmailParts(t: string, x: string, c: char, y: string)
    requires Parted(t, x, c, y) && NoEmailChar(c)
    ensures PartsAt(EMAIL_SCANNER, t, x, c, y)
  {
    EmailBefore(t, x, c, y, |x|);
    forall i: nat | i < |x| ensures EMAIL_SCANNER.matchAt(t, i) == EMAIL_SCANNER.matchAt(x, i) <= |x| - i {
      EmailBefore(t, x, c, y, i);
    }
    forall k: nat | k < |y| ensures EMAIL_SCANNER.matchAt(y, k) == EMAIL_SCANNER.matchAt(t, k + (|x| + 1)) {
      EmailBehind(t, x, c, y, k);
    }
  }

  lemma {:induction false} ScanFront(sc: Scanner, t: string, x: string, c: char, y: string, i: nat)
    requires PartsAt(sc, t, x, c, y) && i <= |x|
    ensures Scan(sc, t, i) == Scan(sc, x, i) + Scan(sc, t, |x|)
    decreases |x| - i
  {
    if i < |x| {
      var n := sc.matchAt(x, i);
      assert sc.matchAt(t, i) == n && x[i] == t[i];
      if 0 < n {
        ScanFront(sc, t, x, c, y, i + n);
        Grouped(sc.placeholder, Scan(sc, x, i + n), Scan(sc, t, |x|));
      } else {
        ScanFront(sc, t, x, c, y, i + 1);
        Grouped([x[i]], Scan(sc, x, i + 1), Scan(sc, t, |x|));
      }
    }
  }

  lemma Grouped(a: string, b: string, c: string)
    ensures a + (b + c) == (a + b) + c
  {
  }

  /** A scan of parted text scans its parts. */
  lemma ScanParted(sc: Scanner, t: string, x: string, c: char, y: string)
    requires PartsAt(sc, t, x, c, y)
    ensures Scan(sc, t, 0) == Scan(sc, x, 0) + [c] + Scan(sc, y, 0)
  {
    ScanFront(sc, t, x, c, y, 0);
    ScanAlike(sc, y, 0, t, |x| + 1, |x| + 1);
    assert Scan(sc, t, |x|) == [c] + Scan(sc, t, |x| + 1);
    Grouped(Scan(sc, x, 0), [c], Scan(sc, y, 0));
  }

  // ----- the passes of redact -----

  const CARD_PASS := ScannerOf(CARD, AtBoundaries, "<PII:card>")
  const PHONE_PASS := ScannerOf(PHONE, OutsideWords, "<PII:phone>")
  const CODE_PASS := ScannerOf(CODE, AtBoundaries, "<PII:code>")
  const CONTROL_PASS := ScannerOf(CONTROL, Anywhere, "")

  /** The four patterns: cards, then addresses, phone numbers and codes. */
  function Marked(t: string): string {
    var cards := Scan(CARD_PASS, t, 0);
    var emails := Scan(EMAIL_SCANNER, cards, 0);
    var phones := Scan(PHONE_PASS, emails, 0);
    Scan(CODE_PASS, phones, 0)
  }

  /** redact: control characters go last. */
  function Redact(t: string): string {
    Scan(CONTROL_PASS, Marked(t), 0)
  }

  /** A character that none of the four patterns takes. */
  predicate Untaken(c: char) {
    !LocalChar(c) && c !in {'@', ' ', '(', ')'}
  }

  /** One that stays as well: a comma, a colon, a line feed and the like. */
  predicate Wall(c: char) {
    Untaken(c) && !Control(c)
  }

  lemma UntakenRejected(c: char)
    requires Untaken(c)
    ensures Rejects(CARD, c) && Rejects(CODE, c) && Rejects(PHONE, c)
  {
    assert Rejects(DIGIT, c) && Rejects(CARD_SEPARATOR, c) && Rejects(PHONE_SEPARATOR, c);
    assert Rejects(PLUS, c) && Rejects(OPENING, c) && Rejects(CLOSING, c);
    ThenRejects(DIGIT, Maybe(CARD_SEPARATOR), c);
    ThenRejects(Times(DIGIT, 1, 3), Maybe(PHONE_SEPARATOR), c);
    ThenRejects(Maybe(PLUS), Then(Times(DIGIT, 1, 3), Maybe(PHONE_SEPARATOR)), c);
    ThenRejects(Maybe(CLOSING), Maybe(PHONE_SEPARATOR), c);
    ThenRejects(Times(DIGIT, 2, 4), Then(Maybe(CLOSING), Maybe(PHONE_SEPARATOR)), c);
    ThenRejects(Maybe(OPENING), Then(Times(DIGIT, 2, 4), Then(Maybe(CLOSING), Maybe(PHONE_SEPARATOR))), c);
    PhoneRejects(c);
  }

  lemma ThenRejects(a: Regex, b: Regex, c: char)
    requires Rejects(a, c) && Rejects(b, c)
    ensures Rejects(Then(a, b), c)
  {
  }

  lemma PhoneRejects(c: char)
    requires Rejects(DIGIT, c) && Rejects(PHONE_SEPARATOR, c) && Rejects(COUNTRY, c) && Rejects(AREA, c)
    ensures Rejects(PHONE, c)
  {
    var digits := Times(DIGIT, 3, 4);
    ThenRejects(Maybe(PHONE_SEPARATOR), digits, c);
    ThenRejects(digits, Then(Maybe(PHONE_SEPARATOR), digits), c);
    ThenRejects(Maybe(AREA), Then(digits, Then(Maybe(PHONE_SEPARATOR), digits)), c);
    ThenRejects(Maybe(COUNTRY), Then(Maybe(AREA), Then(digits, Then(Maybe(PHONE_SEPARATOR), digits))), c);
  }

  lemma PatternsTakeSomething()
    ensures Shortest(CARD) > 0 && Shortest(CODE) > 0 && Shortest(CONTROL) > 0 && Shortest(PHONE) > 0
  {
    assert Shortest(CARD) == 13 && Shortest(CODE) == 6 && Shortest(CONTROL) == 1;
    assert Shortest(PHONE) == 6;
  }

  /** The passes of the patterns, in their order. */
  ghost predicate IsPass(sc: Scanner) {
    sc == CARD_PASS || sc == EMAIL_SCANNER || sc == PHONE_PASS || sc == CODE_PASS
  }

  /** Each of them keeps a character that it does not take where it is, and works on both sides on its own. */
  lemma PassParts(sc: Scanner, x: string, c: char, y: string)
    requires Untaken(c) && IsPass(sc)
    ensures Scan(sc, x + [c] + y, 0) == Scan(sc, x, 0) + [c] + Scan(sc, y, 0)
  {
    var t := x + [c] + y;
    Joined(x, c, y);
    UntakenRejected(c);
    PatternsTakeSomething();
    if sc == EMAIL_SCANNER {
      EmailParts(t, x, c, y);
    } else if sc == CARD_PASS {
      RegexParts(CARD, AtBoundaries, "<PII:card>", t, x, c, y);
    } else if sc == PHONE_PASS {
      RegexParts(PHONE, OutsideWords, "<PII:phone>", t, x, c, y);
    } else {
      RegexParts(CODE, AtBoundaries, "<PII:code>", t, x, c, y);
    }
    ScanParted(sc, t, x, c, y);
  }

  lemma MarkedParted(x: string, c: char, y: string)
    requires Untaken(c)
    ensures Marked(x + [c] + y) == Marked(x) + [c] + Marked(y)
  {
    var x1, y1 := Scan(CARD_PASS, x, 0), Scan(CARD_PASS, y, 0);
    var x2, y2 := Scan(EMAIL_SCANNER, x1, 0), Scan(EMAIL_SCANNER, y1, 0);
    PassParts(CARD_PASS, x, c, y);
    PassParts(EMAIL_SCANNER, x1, c, y1);
    PassParts(PHONE_PASS, x2, c, y2);
    PassParts(CODE_PASS, Scan(PHONE_PASS, x2, 0), c, Scan(PHONE_PASS, y2, 0));
  }

  lemma ControlHere(t: string, i: nat)
    requires i < |t|
    ensures CONTROL_PASS.matchAt(t, i) == if Control(t[i]) then 1 else 0
  {
    assert Ends(CONTROL, t, i) == if Control(t[i]) then [i + 1] else [];
  }

  /** The last pass looks at one character at a time. */
  lemma {:induction false} ControlFrom(a: string, b: string, i: nat)
    requires i <= |a|
    ensures Scan(CONTROL_PASS, a + b, i) == Scan(CONTROL_PASS, a, i) + Scan(CONTROL_PASS, b, 0)
    decreases |a| - i
  {
    if i < |a| {
      ControlFrom(a, b, i + 1);
      ControlHere(a, i);
      ControlHere(a + b, i);
      Grouped([a[i]], Scan(CONTROL_PASS, a, i + 1), Scan(CONTROL_PASS, b, 0));
    } else {
      ControlStands(a, b);
      ScanAlike(CONTROL_PASS, b, 0, a + b, |a|, |a|);
    }
  }

  lemma ControlStands(a: string, b: string)
    ensures StandsIn(CONTROL_PASS, b, a + b, |a|)
  {
    forall x: nat | x < |b| ensures CONTROL_PASS.matchAt(b, x) == CONTROL_PASS.matchAt(a + b, x + |a|) {
      ControlHere(b, x);
      ControlHere(a + b, x + |a|);
    }
  }

  lemma ControlAlone(c: char)
    ensures Scan(CONTROL_PASS, [c], 0) == if Control(c) then "" else [c]
  {
    ControlHere([c], 0);
    assert Scan(CONTROL_PASS, [c], 1) == "";
  }

  lemma ControlParted(x: string, c: char, y: string)
    ensures Scan(CONTROL_PASS, x + [c] + y, 0)
         == Scan(CONTROL_PASS, x, 0) + Scan(CONTROL_PASS, [c], 0) + Scan(CONTROL_PASS, y, 0)
  {
    ControlFrom(x + [c], y, 0);
    ControlFrom(x, [c], 0);
  }

  /** The redaction of a text with a wall is that of its parts, with the wall between them. */
  lemma RedactParted(x: string, c: char, y: string)
    requires Wall(c)
    ensures Redact(x + [c] + y) == Redact(x) + [c] + Redact(y)
  {
    MarkedParted(x, c, y);
    ControlParted(Marked(x), c, Marked(y));
    ControlAlone(c);
  }

  /** A control character parts the text, too, although it is taken out: what it interrupts is not matched. */
  lemma ControlInterrupts(x: string, c: char, y: string)
    requires Control(c)
    ensures Redact(x + [c] + y) == Redact(x) + Redact(y)
  {
    MarkedParted(x, c, y);
    ControlParted(Marked(x), c, Marked(y));
    ControlAlone(c);
    assert Redact(x) + "" == Redact(x);
  }

  // ----- when a message streams -----

  /** The position behind the last wall. */
  function BehindWall(t: string): (w: nat)
    ensures w <= |t| && (w > 0 ==> Wall(t[w - 1]))
  {
    if t == "" then 0 else if Wall(t[|t| - 1]) then |t| else BehindWall(t[..|t| - 1])
  }

  function OpenPart(t: string): string {
    t[BehindWall(t)..]
  }

  lemma SettledInFront(a: string, b: string, more: string)
    requires |b| <= HOLD_BACK
    ensures IsPrefix(Settled(a + b), a + more)
  {
    if |a + b| > HOLD_BACK {
      var n := |a + b| - HOLD_BACK;
      assert (a + b)[..n] == a[..n] == (a + more)[..n];
    }
  }

  lemma PartedSettled(x: string, c: char, y: string, z: string)
    requires Wall(c) && |Redact(y)| <= HOLD_BACK
    ensures IsPrefix(Settled(Redact(x + [c] + y)), Redact(x + [c] + z))
  {
    RedactParted(x, c, y);
    RedactParted(x, c, z);
    SettledInFront(Redact(x) + [c], Redact(y), Redact(z));
  }

  lemma AtWall(t: string, w: nat)
    requires 0 < w <= |t|
    ensures t == t[..w - 1] + [t[w - 1]] + t[w..]
  {
  }

  lemma OpenSettled(t: string, final: string)
    requires IsPrefix(t, final) && |Redact(OpenPart(t))| <= HOLD_BACK
    ensures IsPrefix(Settled(Redact(t)), Redact(final))
  {
    var w := BehindWall(t);
    if w == 0 {
      assert OpenPart(t) == t;
    } else {
      AtWall(t, w);
      AtWall(final, w);
      assert final[..w - 1] == t[..w - 1];
      PartedSettled(t[..w - 1], t[w - 1], t[w..], final[w..]);
    }
  }

  function RedactedAll(raws: seq<string>): (r: seq<string>)
    ensures |r| == |raws| && forall i :: 0 <= i < |raws| ==> r[i] == Redact(raws[i])
  {
    seq(|raws|, i requires 0 <= i < |raws| => Redact(raws[i]))
  }

  /** Through all passes together, a message streams exactly once as long as no snapshot has more than 64 redacted
      characters behind its last wall. */
  lemma MessageStreams(raws: seq<string>, final: string)
    requires forall i :: 0 <= i < |raws| ==> IsPrefix(raws[i], final) && |Redact(OpenPart(raws[i]))| <= HOLD_BACK
    ensures Streamed(RedactedAll(raws), Redact(final)) == Redact(final)
  {
    forall i | 0 <= i < |raws| ensures IsPrefix(Settled(RedactedAll(raws)[i]), Redact(final)) {
      OpenSettled(raws[i], final);
    }
    StableStreams(RedactedAll(raws), Redact(final));
  }
}
