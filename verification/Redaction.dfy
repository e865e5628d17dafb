/** When the hold-back of the streamer is enough: redaction by a left-to-right scanner whose matches are bounded,
    and a pattern without a bound for which it is not. */
module Redaction {
  import opened DeltaStreamer

  /** A scanner: how long the match at a position of the text is (0 for none), and what replaces it. */
  datatype Scanner = Scanner(matchAt: (string, nat) -> nat, placeholder: string)

  /** One pass over the text from position i, replacing matches and copying everything else. */
  function Scan(sc: Scanner, t: string, i: nat): string
    decreases |t| - i
  {
    if i >= |t| then ""
    else
      var n := sc.matchAt(t, i);
      if 0 < n <= |t| - i then sc.placeholder + Scan(sc, t, i + n) else [t[i]] + Scan(sc, t, i + 1)
  }

  /** A match is decided by fewer than `window` characters from its start on (whatever comes before), and replacing it
      turns at most `den` characters into `num`; a tail shorter than the window then fits in the hold-back. */
  ghost predicate Bounded(sc: Scanner, window: nat, num: nat, den: nat) {
    && 0 < den <= num && 0 < window && num * (window - 1) <= HOLD_BACK * den
    && (forall t: string, more: string, i: nat ::
          i + window <= |t| ==> sc.matchAt(t + more, i) == sc.matchAt(t, i))
    && (forall t: string, i: nat ::
          0 < sc.matchAt(t, i) <= |t| - i ==> |sc.placeholder| * den <= num * sc.matchAt(t, i))
    && (forall t: string, i: nat :: i + window <= |t| ==> sc.matchAt(t, i) <= |t| - i)
  }

  lemma Spread(num: nat, a: nat, b: nat)
    ensures num * (a + b) == num * a + num * b
  {
  }

  lemma Combine(num: nat, den: nat, c: nat, rest: nat, step: nat, left: nat)
    requires c * den <= num * step && rest * den <= num * left
    ensures (c + rest) * den <= num * (step + left)
  {
    Spread(den, c, rest);
    Spread(num, step, left);
  }

  lemma {:induction false} ScanShort(sc: Scanner, window: nat, num: nat, den: nat, t: string, i: nat)
    requires Bounded(sc, window, num, den) && i <= |t|
    ensures |Scan(sc, t, i)| * den <= num * (|t| - i)
    decreases |t| - i
  {
    if i < |t| {
      var n := sc.matchAt(t, i);
      if 0 < n <= |t| - i {
        ScanShort(sc, window, num, den, t, i + n);
        Combine(num, den, |sc.placeholder|, |Scan(sc, t, i + n)|, n, |t| - i - n);
      } else {
        ScanShort(sc, window, num, den, t, i + 1);
        Combine(num, den, 1, |Scan(sc, t, i + 1)|, 1, |t| - i - 1);
      }
    }
  }

  lemma SettledSplits(c: string, x: string, y: string)
    requires IsPrefix(Settled(x), y)
    ensures IsPrefix(Settled(c + x), c + y)
  {
    if |c + x| > HOLD_BACK {
      var s := Settled(c + x);
      if |x| > HOLD_BACK {
        assert s == c + Settled(x);
      } else {
        assert s == c[..|s|];
      }
    }
  }

  /** What the scanner made of a text, without the last HOLD_BACK characters, stays when the text grows. */
  lemma {:induction false} ScanStable(sc: Scanner, window: nat, num: nat, den: nat, t: string, more: string, i: nat)
    requires Bounded(sc, window, num, den) && i <= |t|
    ensures IsPrefix(Settled(Scan(sc, t, i)), Scan(sc, t + more, i))
    decreases |t| - i
  {
    if i + window <= |t| {
      var n := sc.matchAt(t, i);
      assert sc.matchAt(t + more, i) == n;
      var step := if 0 < n then n else 1;
      ScanStable(sc, window, num, den, t, more, i + step);
      var c := if 0 < n then sc.placeholder else [t[i]];
      assert Scan(sc, t, i) == c + Scan(sc, t, i + step);
      assert Scan(sc, t + more, i) == c + Scan(sc, t + more, i + step);
      SettledSplits(c, Scan(sc, t, i + step), Scan(sc, t + more, i + step));
    } else {
      ScanShort(sc, window, num, den, t, i);
      TailFits(window, num, den, |t| - i, |Scan(sc, t, i)|);
    }
  }

  lemma TailFits(window: nat, num: nat, den: nat, left: nat, out: nat)
    requires 0 < den && left < window && out * den <= num * left && num * (window - 1) <= HOLD_BACK * den
    ensures out <= HOLD_BACK
  {
    Spread(num, left, window - 1 - left);
    Cancel(out, HOLD_BACK, den);
  }

  lemma Cancel(a: nat, b: nat, d: nat)
    requires 0 < d && a * d <= b * d
    ensures a <= b
  {
  }

  function RedactAll(sc: Scanner, raws: seq<string>): (r: seq<string>)
    ensures |r| == |raws|
    ensures forall i :: 0 <= i < |raws| ==> r[i] == Scan(sc, raws[i], 0)
  {
    if raws == [] then [] else RedactAll(sc, raws[..|raws| - 1]) + [Scan(sc, raws[|raws| - 1], 0)]
  }

  /** With a bounded scanner every stream of growing snapshots delivers the final redacted text exactly once. */
  lemma BoundedScannerStreams(sc: Scanner, window: nat, num: nat, den: nat, raws: seq<string>, final: string)
    requires Bounded(sc, window, num, den)
    requires forall i :: 0 <= i < |raws| ==> IsPrefix(raws[i], final)
    ensures Streamed(RedactAll(sc, raws), Scan(sc, final, 0)) == Scan(sc, final, 0)
  {
    var reds := RedactAll(sc, raws);
    forall i | 0 <= i < |reds| ensures IsPrefix(Settled(reds[i]), Scan(sc, final, 0)) {
      ScanStable(sc, window, num, den, raws[i], final[|raws[i]|..], 0);
      assert raws[i] + final[|raws[i]|..] == final;
    }
    StableStreams(reds, Scan(sc, final, 0));
  }

  // ----- the unbounded pattern: email addresses -----

  predicate Digit(c: char) { '0' <= c <= '9' }

  predicate Letter(c: char) { 'a' <= c <= 'z' || 'A' <= c <= 'Z' }

  predicate Word(c: char) { Letter(c) || Digit(c) || c == '_' }

  predicate LocalChar(c: char) { Word(c) || c == '.' || c == '+' || c == '-' }

  predicate HostChar(c: char) { Word(c) || c == '-' }

  /** [\w.+-]+@[\w-]+\.[\w.-]+ with the at sign at a and the first dot of the domain at b. */
  predicate EmailShape(s: string, a: nat, b: nat) {
    && 0 < a && a + 1 < b && b + 1 < |s| && s[a] == '@' && s[b] == '.'
    && (forall i :: 0 <= i < a ==> LocalChar(s[i]))
    && (forall i :: a < i < b ==> HostChar(s[i]))
    && (forall i :: b < i < |s| ==> HostChar(s[i]) || s[i] == '.')
  }

  predicate IsEmail(s: string) {
    exists a, b :: 0 <= a < |s| && 0 <= b < |s| && EmailShape(s, a, b)
  }

  /** \b */
  predicate Boundary(t: string, i: nat) {
    (0 < i <= |t| && Word(t[i - 1])) != (i < |t| && Word(t[i]))
  }

  /** The longest match of at most n characters at position i. */
  function LongestEmail(t: string, i: nat, n: nat): nat
    requires i + n <= |t|
  {
    if n == 0 then 0
    else if IsEmail(t[i..i + n]) && Boundary(t, i + n) then n
    else LongestEmail(t, i, n - 1)
  }

  function EmailAt(t: string, i: nat): nat {
    if i < |t| && Boundary(t, i) then LongestEmail(t, i, |t| - i) else 0
  }

  const EMAIL: string := "<PII:email>"

  const EMAIL_SCANNER := Scanner(EmailAt, EMAIL)

  lemma {:induction false} NoAtNoEmail(t: string, i: nat, n: nat)
    requires i + n <= |t| && '@' !in t[i..]
    ensures LongestEmail(t, i, n) == 0
  {
    if n > 0 {
      var u := t[i..i + n];
      assert forall k :: 0 <= k < |u| ==> u[k] == t[i..][k];
      NoAtNoEmail(t, i, n - 1);
    }
  }

  lemma {:induction false} NoAtUntouched(t: string, i: nat)
    requires i <= |t| && '@' !in t[i..]
    ensures Scan(EMAIL_SCANNER, t, i) == t[i..]
    decreases |t| - i
  {
    if i < |t| {
      assert t[i..] == [t[i]] + t[i + 1..];
      NoAtNoEmail(t, i, |t| - i);
      NoAtUntouched(t, i + 1);
    }
  }

  lemma {:induction false} LongestIsMatch(t: string, i: nat, n: nat)
    requires i + n <= |t|
    ensures var m := LongestEmail(t, i, n); m <= n && (m > 0 ==> IsEmail(t[i..i + m]) && Boundary(t, i + m))
  {
    if n > 0 {
      LongestIsMatch(t, i, n - 1);
    }
  }

  lemma {:induction false} LongestIsLongest(t: string, i: nat, n: nat, m: nat)
    requires 0 < m <= n && i + n <= |t| && IsEmail(t[i..i + m]) && Boundary(t, i + m)
    ensures LongestEmail(t, i, n) >= m
  {
    if n > m {
      LongestIsLongest(t, i, n - 1, m);
    }
  }

  // ----- the snapshots of an address that is streamed -----

  /** An address with its at sign at a and the first dot of its domain at b, beginning and ending in word characters. */
  predicate Address(s: string, a: nat, b: nat) {
    b < |s| && a < b && EmailShape(s, a, b) && Word(s[0]) && Word(s[|s| - 1])
  }

  lemma OneAt(s: string, a: nat, b: nat, t: string, i: nat)
    requires Address(s, a, b) && IsPrefix(t, s) && i < |t| && t[i] == '@'
    ensures i == a
  {
    assert s[i] == '@';
  }

  lemma NoAtBehind(s: string, a: nat, b: nat, t: string, i: nat)
    requires Address(s, a, b) && IsPrefix(t, s) && a < i <= |t|
    ensures '@' !in t[i..]
  {
    if k :| 0 <= k < |t[i..]| && t[i..][k] == '@' {
      OneAt(s, a, b, t, i + k);
    }
  }

  /** An address in a text is one from any earlier position on, if only local characters lie between. */
  lemma ShapeFromEarlier(v: string, i: nat, p: nat, q: nat)
    requires i <= |v| && EmailShape(v[i..], p, q) && forall k :: 0 <= k < i ==> LocalChar(v[k])
    ensures EmailShape(v, i + p, i + q)
  {
    var u := v[i..];
    assert v[i + p] == u[p] && v[i + q] == u[q];
    forall k | 0 <= k < i + p ensures LocalChar(v[k]) {
      assert k >= i ==> v[k] == u[k - i];
    }
    forall k | i + p < k < i + q ensures HostChar(v[k]) {
      assert v[k] == u[k - i];
    }
    forall k | i + q < k < |v| ensures HostChar(v[k]) || v[k] == '.' {
      assert v[k] == u[k - i];
    }
  }

  lemma LocalBeforeAt(s: string, a: nat, b: nat, t: string, k: nat)
    requires Address(s, a, b) && IsPrefix(t, s) && k < |t| && k < a
    ensures LocalChar(t[k])
  {
    assert t[k] == s[k];
  }

  /** A match anywhere in a beginning of the address is a match from its start. */
  lemma MatchFromStart(s: string, a: nat, b: nat, t: string, i: nat, m: nat)
    requires Address(s, a, b) && IsPrefix(t, s) && 0 < m && i + m <= |t|
    requires IsEmail(t[i..i + m]) && Boundary(t, i + m)
    ensures i <= a && a < i + m && EmailAt(t, 0) >= i + m
  {
    var u, v := t[i..i + m], t[0..i + m];
    var p, q :| 0 <= p < |u| && 0 <= q < |u| && EmailShape(u, p, q);
    OneAt(s, a, b, t, i + p);
    forall k | 0 <= k < i ensures LocalChar(v[k]) {
      LocalBeforeAt(s, a, b, t, k);
    }
    assert v[i..] == u;
    ShapeFromEarlier(v, i, p, q);
    StartsAtWord(s, a, b, t);
    LongestIsLongest(t, 0, |t|, i + m);
  }

  lemma StartsAtWord(s: string, a: nat, b: nat, t: string)
    requires Address(s, a, b) && IsPrefix(t, s) && t != ""
    ensures EmailAt(t, 0) == LongestEmail(t, 0, |t|)
  {
    assert t[0] == s[0];
  }

  lemma NoMatchNowhere(s: string, a: nat, b: nat, t: string, i: nat)
    requires Address(s, a, b) && IsPrefix(t, s) && EmailAt(t, 0) == 0 && i < |t|
    ensures EmailAt(t, i) == 0
  {
    LongestIsMatch(t, i, |t| - i);
    if EmailAt(t, i) > 0 {
      MatchFromStart(s, a, b, t, i, EmailAt(t, i));
    }
  }

  lemma {:induction false} UnmatchedUntouched(s: string, a: nat, b: nat, t: string, i: nat)
    requires Address(s, a, b) && IsPrefix(t, s) && EmailAt(t, 0) == 0 && i <= |t|
    ensures Scan(EMAIL_SCANNER, t, i) == t[i..]
    decreases |t| - i
  {
    if i < |t| {
      NoMatchNowhere(s, a, b, t, i);
      UnmatchedUntouched(s, a, b, t, i + 1);
      assert t[i..] == [t[i]] + t[i + 1..];
    }
  }

  lemma MatchReplaced(t: string)
    requires 0 < EmailAt(t, 0) <= |t|
    ensures Scan(EMAIL_SCANNER, t, 0) == EMAIL + Scan(EMAIL_SCANNER, t, EmailAt(t, 0))
  {
  }

  lemma MatchHasAt(s: string, a: nat, b: nat, t: string)
    requires Address(s, a, b) && IsPrefix(t, s) && EmailAt(t, 0) > 0
    ensures a < EmailAt(t, 0) <= |t|
  {
    LongestIsMatch(t, 0, |t|);
    MatchFromStart(s, a, b, t, 0, EmailAt(t, 0));
  }

  /** What a beginning of the address is redacted to: the placeholder for the match, if there is one, and the rest. */
  lemma BeginningRedacted(s: string, a: nat, b: nat, t: string)
    requires Address(s, a, b) && IsPrefix(t, s)
    ensures EmailAt(t, 0) <= |t|
    ensures Scan(EMAIL_SCANNER, t, 0) == if EmailAt(t, 0) == 0 then t else EMAIL + t[EmailAt(t, 0)..]
  {
    if EmailAt(t, 0) == 0 {
      UnmatchedUntouched(s, a, b, t, 0);
    } else {
      MatchHasAt(s, a, b, t);
      MatchReplaced(t);
      NoAtBehind(s, a, b, t, EmailAt(t, 0));
      NoAtUntouched(t, EmailAt(t, 0));
    }
  }

  /** The position behind the last word character among the first n that lies behind the dot. */
  function WordEnd(t: string, b: nat, n: nat): (e: nat)
    requires n <= |t|
    ensures e <= n && (e > 0 ==> b < e - 1 && Word(t[e - 1])) && (e < n ==> n - 1 <= b || !Word(t[n - 1]))
    ensures forall k :: 0 <= k < n && b < k && k >= e ==> !Word(t[k])
  {
    if n == 0 || n - 1 <= b then 0 else if Word(t[n - 1]) then n else WordEnd(t, b, n - 1)
  }

  /** A beginning of the address has a match exactly when it reaches a word character behind the dot. */
  lemma MatchedExactly(s: string, a: nat, b: nat, t: string)
    requires Address(s, a, b) && IsPrefix(t, s)
    ensures EmailAt(t, 0) > 0 <==> exists k :: b < k < |t| && Word(t[k])
  {
    if k :| b < k < |t| && Word(t[k]) {
      var e := WordEnd(t, b, |t|);
      assert e > k;
      var u := t[0..e];
      assert forall i :: 0 <= i < e ==> u[i] == s[i];
      assert EmailShape(u, a, b);
      LongestIsLongest(t, 0, |t|, e);
    }
    if EmailAt(t, 0) > 0 {
      MatchReachesWord(s, a, b, t);
    }
  }

  lemma MatchReachesWord(s: string, a: nat, b: nat, t: string)
    requires Address(s, a, b) && IsPrefix(t, s) && EmailAt(t, 0) > 0
    ensures exists k :: b < k < |t| && Word(t[k])
  {
    var m := EmailAt(t, 0);
    LongestIsMatch(t, 0, |t|);
    var u := t[0..m];
    var p, q :| 0 <= p < |u| && 0 <= q < |u| && EmailShape(u, p, q);
    OneAt(s, a, b, t, p);
    assert u[b] == s[b] || m <= b;
    assert s[q] == u[q] == '.';
    assert q >= b;
    if m < |t| && Word(t[m]) {
      assert b < m;
    } else {
      assert Word(t[m - 1]);
    }
  }

  /** A match stays a match while the text grows. */
  lemma MatchedStays(s: string, a: nat, b: nat, t: string, u: string)
    requires Address(s, a, b) && IsPrefix(t, u) && IsPrefix(u, s) && EmailAt(t, 0) > 0
    ensures EmailAt(u, 0) > 0
  {
    assert IsPrefix(t, s);
    MatchedExactly(s, a, b, t);
    MatchedExactly(s, a, b, u);
    var k :| b < k < |t| && Word(t[k]);
    assert u[k] == t[k];
  }

  lemma AddressReplaced(s: string, a: nat, b: nat)
    requires Address(s, a, b)
    ensures Scan(EMAIL_SCANNER, s, 0) == EMAIL
  {
    assert s[0..|s|] == s;
    assert Scan(EMAIL_SCANNER, s, |s|) == "";
  }

  // ----- text in front of the address -----

  /** Text that no address reaches into from behind: it has no at sign, and it ends in a character that no local part
      has. */
  predicate Apart(front: string) {
    '@' !in front && (front != "" ==> !LocalChar(front[|front| - 1]))
  }

  lemma {:induction false} LongestShifts(front: string, t: string, i: nat, n: nat)
    requires i + n <= |t|
    ensures LongestEmail(front + t, |front| + i, n) == LongestEmail(t, i, n)
  {
    if n > 0 {
      var u := front + t;
      assert u[|front| + i..|front| + i + n] == t[i..i + n];
      assert u[|front| + i + n - 1] == t[i + n - 1] && (i + n < |t| ==> u[|front| + i + n] == t[i + n]);
      if n > 1 {
        LongestShifts(front, t, i, n - 1);
      }
    }
  }

  lemma MatchShifts(front: string, t: string, i: nat)
    requires (front != "" ==> !Word(front[|front| - 1])) && i <= |t|
    ensures EmailAt(front + t, |front| + i) == EmailAt(t, i)
  {
    var u := front + t;
    if i < |t| {
      assert u[|front| + i] == t[i];
      if |front| + i > 0 {
        assert u[|front| + i - 1] == if i > 0 then t[i - 1] else front[|front| - 1];
      }
      LongestShifts(front, t, i, |t| - i);
    }
  }

  lemma NoShapeAcross(front: string, t: string, i: nat, m: nat, p: nat, q: nat)
    requires Apart(front) && i < |front| && i + m <= |front + t| && p < m && q < m
    ensures !EmailShape((front + t)[i..i + m], p, q)
  {
    var v := (front + t)[i..i + m];
    if i + p < |front| {
      assert v[p] == front[i + p];
    } else {
      assert v[|front| - 1 - i] == front[|front| - 1];
    }
  }

  lemma NoEmailAcross(front: string, t: string, i: nat, m: nat)
    requires Apart(front) && i < |front| && i + m <= |front + t|
    ensures !IsEmail((front + t)[i..i + m])
  {
    var v := (front + t)[i..i + m];
    if IsEmail(v) {
      var p, q :| 0 <= p < |v| && 0 <= q < |v| && EmailShape(v, p, q);
      NoShapeAcross(front, t, i, m, p, q);
    }
  }

  /** No match begins in the text in front. */
  lemma NoneInFront(front: string, t: string, i: nat)
    requires Apart(front) && i < |front|
    ensures EmailAt(front + t, i) == 0
  {
    var u := front + t;
    LongestIsMatch(u, i, |u| - i);
    NoEmailAcross(front, t, i, EmailAt(u, i));
  }

  /** The one text stands in the other from position d on, with the same matches. */
  ghost predicate StandsIn(sc: Scanner, t: string, u: string, d: nat) {
    |u| == |t| + d
    && forall x: nat :: x < |t| ==> t[x] == u[x + d] && sc.matchAt(t, x) == sc.matchAt(u, x + d)
  }

  lemma {:induction false} ScanAlike(sc: Scanner, t: string, i: nat, u: string, j: nat, d: nat)
    requires i <= |t| && j == i + d && StandsIn(sc, t, u, d)
    ensures Scan(sc, t, i) == Scan(sc, u, j)
    decreases |t| - i
  {
    if i < |t| {
      var n := sc.matchAt(t, i);
      assert t[i] == u[i + d];
      ScanAlike(sc, t, if 0 < n <= |t| - i then i + n else i + 1, u, if 0 < n <= |t| - i then j + n else j + 1, d);
    }
  }

  ghost predicate NoMatchBefore(sc: Scanner, u: string, n: nat) {
    forall x: nat :: x < n ==> sc.matchAt(u, x) == 0
  }

  lemma CopyOne(u: string, i: nat, n: nat, rest: string)
    requires i < n <= |u|
    ensures u[i..n] + rest == [u[i]] + (u[i + 1..n] + rest)
  {
    assert u[i..n] == [u[i]] + u[i + 1..n];
  }

  /** Text without a match is copied. */
  lemma {:induction false} ScanCopies(sc: Scanner, u: string, i: nat, n: nat)
    requires i <= n <= |u| && NoMatchBefore(sc, u, n)
    ensures Scan(sc, u, i) == u[i..n] + Scan(sc, u, n)
    decreases n - i
  {
    if i < n {
      ScanCopies(sc, u, i + 1, n);
      CopyOne(u, i, n, Scan(sc, u, n));
    } else {
      assert u[i..n] == "";
    }
  }

  lemma FrontUnmatched(front: string, t: string)
    requires Apart(front)
    ensures NoMatchBefore(EMAIL_SCANNER, front + t, |front|)
  {
    forall x: nat | x < |front| ensures EMAIL_SCANNER.matchAt(front + t, x) == 0 {
      NoneInFront(front, t, x);
    }
  }

  lemma AddressWithin(front: string, t: string)
    requires Apart(front)
    ensures StandsIn(EMAIL_SCANNER, t, front + t, |front|)
  {
    var u := front + t;
    forall x: nat | x < |t|
      ensures t[x] == u[x + |front|] && EMAIL_SCANNER.matchAt(t, x) == EMAIL_SCANNER.matchAt(u, x + |front|)
    {
      MatchShifts(front, t, x);
    }
  }

  /** The scan of a text whose front has no match. */
  lemma ScanBehind(sc: Scanner, front: string, t: string)
    requires NoMatchBefore(sc, front + t, |front|) && StandsIn(sc, t, front + t, |front|)
    ensures Scan(sc, front + t, 0) == front + Scan(sc, t, 0)
  {
    ScanCopies(sc, front + t, 0, |front|);
    ScanAlike(sc, t, 0, front + t, |front|, |front|);
    assert (front + t)[0..|front|] == front;
  }

  lemma FrontCopied(front: string, t: string)
    requires Apart(front)
    ensures Scan(EMAIL_SCANNER, front + t, 0) == front + Scan(EMAIL_SCANNER, t, 0)
  {
    FrontUnmatched(front, t);
    AddressWithin(front, t);
    ScanBehind(EMAIL_SCANNER, front, t);
  }

  /** The part of a snapshot behind the text in front. */
  function Behind(front: string, raw: string): string {
    if |raw| <= |front| then "" else raw[|front|..]
  }

  lemma BehindGrows(front: string, s: string, raw: string, later: string)
    requires IsPrefix(raw, later) && IsPrefix(later, front + s)
    ensures IsPrefix(Behind(front, raw), Behind(front, later)) && IsPrefix(Behind(front, later), s)
    ensures if |raw| <= |front| then raw == front[..|raw|] else raw == front + Behind(front, raw)
  {
    if |raw| > |front| {
      assert raw[..|front|] == front;
    }
  }

  /** What a snapshot is redacted to: itself within the text in front, else that text and what follows, redacted. */
  lemma SnapshotRedacted(front: string, s: string, raw: string)
    requires Apart(front) && IsPrefix(raw, front + s)
    ensures Scan(EMAIL_SCANNER, raw, 0)
         == if |raw| <= |front| then raw else front + Scan(EMAIL_SCANNER, Behind(front, raw), 0)
  {
    BehindGrows(front, s, raw, raw);
    if |raw| <= |front| {
      NoAtUntouched(raw, 0);
    } else {
      FrontCopied(front, Behind(front, raw));
    }
  }

  // ----- when the address streams -----

  /** Growing beginnings of the text, as the provider streams them. */
  predicate Growing(raws: seq<string>, s: string) {
    && (forall i :: 0 <= i < |raws| ==> IsPrefix(raws[i], s))
    && (forall i, j :: 0 <= i < j < |raws| ==> |raws[i]| <= |raws[j]|)
  }

  /** The characters of a beginning of the address that no match covers. */
  function Uncovered(t: string): int {
    |t| - EmailAt(t, 0)
  }

  /** No snapshot has more of the address uncovered than is held back. */
  predicate Quiet(front: string, raws: seq<string>) {
    forall i :: 0 <= i < |raws| ==> Uncovered(Behind(front, raws[i])) <= HOLD_BACK
  }

  /** How much of the redacted address can be out beside the text in front. */
  function Shown(t: string): nat {
    if EmailAt(t, 0) == 0 then 0 else |EMAIL|
  }

  lemma FrontIsSettled(front: string, raw: string, s: string)
    requires IsPrefix(raw, front)
    ensures IsPrefix(Settled(raw), front + s)
  {
    assert (front + s)[..|Settled(raw)|] == front[..|Settled(raw)|];
  }

  lemma AddressIsSettled(front: string, s: string, a: nat, b: nat, t: string)
    requires Address(s, a, b) && IsPrefix(t, s) && Uncovered(t) <= HOLD_BACK
    ensures IsPrefix(Settled(front + Scan(EMAIL_SCANNER, t, 0)), front + EMAIL)
    ensures |Scan(EMAIL_SCANNER, t, 0)| <= HOLD_BACK + Shown(t)
  {
    BeginningRedacted(s, a, b, t);
    SettledSplits(front, Scan(EMAIL_SCANNER, t, 0), EMAIL);
  }

  lemma QuietIsSettled(front: string, s: string, a: nat, b: nat, raw: string)
    requires Address(s, a, b) && Apart(front) && IsPrefix(raw, front + s)
    requires Uncovered(Behind(front, raw)) <= HOLD_BACK
    ensures IsPrefix(Settled(Scan(EMAIL_SCANNER, raw, 0)), front + EMAIL)
    ensures |Scan(EMAIL_SCANNER, raw, 0)| <= |front| + HOLD_BACK + Shown(Behind(front, raw))
  {
    SnapshotRedacted(front, s, raw);
    BehindGrows(front, s, raw, raw);
    if |raw| > |front| {
      AddressIsSettled(front, s, a, b, Behind(front, raw));
    } else {
      FrontIsSettled(front, raw, EMAIL);
    }
  }

  lemma {:induction false} ReachAtMost(snapshots: seq<string>, bound: nat)
    requires forall i :: 0 <= i < |snapshots| ==> |snapshots[i]| <= HOLD_BACK + bound
    ensures Reach(snapshots) <= bound
  {
    if snapshots != [] {
      ReachAtMost(snapshots[..|snapshots| - 1], bound);
    }
  }

  lemma EarlierFits(front: string, s: string, a: nat, b: nat, earlier: string, later: string)
    requires Address(s, a, b) && Apart(front) && IsPrefix(earlier, later) && IsPrefix(later, front + s)
    requires Uncovered(Behind(front, earlier)) <= HOLD_BACK
    ensures |Scan(EMAIL_SCANNER, earlier, 0)| <= |front| + HOLD_BACK + Shown(Behind(front, later))
  {
    assert IsPrefix(earlier, front + s);
    QuietIsSettled(front, s, a, b, earlier);
    BehindGrows(front, s, earlier, later);
    if EmailAt(Behind(front, earlier), 0) > 0 {
      MatchedStays(s, a, b, Behind(front, earlier), Behind(front, later));
    }
  }

  lemma EarlierSnapshot(front: string, s: string, a: nat, b: nat, raws: seq<string>, i: nat, j: nat)
    requires Address(s, a, b) && Apart(front) && Growing(raws, front + s) && j < i < |raws| && Quiet(front, raws[..i])
    ensures |RedactAll(EMAIL_SCANNER, raws)[j]| <= |front| + HOLD_BACK + Shown(Behind(front, raws[i]))
  {
    assert Uncovered(Behind(front, raws[..i][j])) <= HOLD_BACK;
    BeginningsNest(raws[j], raws[i], front + s);
    EarlierFits(front, s, a, b, raws[j], raws[i]);
  }

  lemma BeginningsNest(x: string, y: string, s: string)
    requires IsPrefix(x, s) && IsPrefix(y, s) && |x| <= |y|
    ensures IsPrefix(x, y)
  {
  }

  /** Before the first snapshot with too much uncovered text, at most the placeholder is out beside the text in front, and
      nothing beside it if the snapshot has no match. */
  lemma QuietReach(front: string, s: string, a: nat, b: nat, raws: seq<string>, i: nat)
    requires Address(s, a, b) && Apart(front) && Growing(raws, front + s) && i < |raws| && Quiet(front, raws[..i])
    ensures Reach(RedactAll(EMAIL_SCANNER, raws)[..i]) <= |front| + Shown(Behind(front, raws[i]))
  {
    var reds := RedactAll(EMAIL_SCANNER, raws);
    var bound := |front| + Shown(Behind(front, raws[i]));
    forall j | 0 <= j < i ensures |reds[..i][j]| <= HOLD_BACK + bound {
      EarlierSnapshot(front, s, a, b, raws, i, j);
    }
    ReachAtMost(reds[..i], bound);
  }

  /** A cut that goes on beyond the final text, or has another character somewhere, disagrees. */
  lemma CutDisagrees(snapshots: seq<string>, i: nat, final: string, at: nat)
    requires i < |snapshots| && |snapshots[i]| > Reach(snapshots[..i]) + HOLD_BACK
    requires || |snapshots[i]| > |final| + HOLD_BACK
             || (Reach(snapshots[..i]) <= at < |snapshots[i]| - HOLD_BACK && at < |final|
                 && snapshots[i][at] != final[at])
    ensures !CutAgrees(snapshots, final, i)
  {
    var from := Reach(snapshots[..i]);
    var cut := Cut(from, snapshots[i]);
    if from + |cut| <= |final| {
      assert cut[at - from] == snapshots[i][at] && final[from..from + |cut|][at - from] == final[at];
    }
  }

  lemma AddressIsLoud(s: string, a: nat, b: nat, t: string)
    requires Address(s, a, b) && IsPrefix(t, s) && Uncovered(t) > HOLD_BACK
    ensures var r := Scan(EMAIL_SCANNER, t, 0);
            |r| > HOLD_BACK + Shown(t) && (EmailAt(t, 0) == 0 ==> r[0] != EMAIL[0])
  {
    BeginningRedacted(s, a, b, t);
    if EmailAt(t, 0) == 0 {
      assert t[0] == s[0] && Word(t[0]) && EMAIL[0] == '<';
    }
  }

  lemma InFrontOf(front: string, r: string)
    ensures |front + r| == |front| + |r| && (r != "" ==> (front + r)[|front|] == r[0])
  {
  }

  lemma LoudRedacted(front: string, s: string, a: nat, b: nat, raw: string)
    requires Address(s, a, b) && Apart(front) && IsPrefix(raw, front + s) && Uncovered(Behind(front, raw)) > HOLD_BACK
    ensures var r := Scan(EMAIL_SCANNER, raw, 0);
            && |r| > |front| + HOLD_BACK + Shown(Behind(front, raw))
            && (EmailAt(Behind(front, raw), 0) == 0 ==> r[|front|] != EMAIL[0])
  {
    SnapshotRedacted(front, s, raw);
    BehindGrows(front, s, raw, raw);
    AddressIsLoud(s, a, b, Behind(front, raw));
    InFrontOf(front, Scan(EMAIL_SCANNER, Behind(front, raw), 0));
  }

  /** That snapshot emits something that is not in the final text. */
  lemma LoudCut(front: string, s: string, a: nat, b: nat, raws: seq<string>, i: nat)
    requires Address(s, a, b) && Apart(front) && Growing(raws, front + s) && i < |raws|
    requires Uncovered(Behind(front, raws[i])) > HOLD_BACK && Quiet(front, raws[..i])
    ensures !CutAgrees(RedactAll(EMAIL_SCANNER, raws), front + EMAIL, i)
  {
    LoudRedacted(front, s, a, b, raws[i]);
    QuietReach(front, s, a, b, raws, i);
    assert (front + EMAIL)[|front|] == EMAIL[0];
    CutDisagrees(RedactAll(EMAIL_SCANNER, raws), i, front + EMAIL, |front|);
  }

  lemma {:induction false} FirstLoud(front: string, raws: seq<string>, n: nat) returns (i: nat)
    requires n <= |raws| && !Quiet(front, raws[..n])
    ensures i < n && Uncovered(Behind(front, raws[i])) > HOLD_BACK && Quiet(front, raws[..i])
    decreases n
  {
    if Quiet(front, raws[..n - 1]) {
      i := n - 1;
      assert forall j :: 0 <= j < n - 1 ==> raws[..n - 1][j] == raws[..n][j];
    } else {
      i := FirstLoud(front, raws, n - 1);
    }
  }

  lemma QuietStreams(front: string, s: string, a: nat, b: nat, raws: seq<string>)
    requires Address(s, a, b) && Apart(front) && Growing(raws, front + s) && Quiet(front, raws)
    ensures Streamed(RedactAll(EMAIL_SCANNER, raws), front + EMAIL) == front + EMAIL
  {
    var reds := RedactAll(EMAIL_SCANNER, raws);
    forall i | 0 <= i < |reds| ensures IsPrefix(Settled(reds[i]), front + EMAIL) {
      QuietIsSettled(front, s, a, b, raws[i]);
    }
    StableStreams(reds, front + EMAIL);
  }

  lemma LoudFails(front: string, s: string, a: nat, b: nat, raws: seq<string>)
    requires Address(s, a, b) && Apart(front) && Growing(raws, front + s) && !Quiet(front, raws)
    ensures Streamed(RedactAll(EMAIL_SCANNER, raws), front + EMAIL) != front + EMAIL
  {
    assert raws[..|raws|] == raws;
    var i := FirstLoud(front, raws, |raws|);
    LoudCut(front, s, a, b, raws, i);
    StreamedIffCutsAgree(RedactAll(EMAIL_SCANNER, raws), front + EMAIL);
  }

  /** However an address is streamed, behind whatever text, the deltas are the redacted text exactly when no snapshot has
      more than 64 characters of the address that the match does not cover: all of them while there is no match yet, and
      those behind it after. */
  lemma EmailInTextStreams(front: string, s: string, a: nat, b: nat, raws: seq<string>)
    requires Address(s, a, b) && Apart(front) && Growing(raws, front + s)
    ensures Scan(EMAIL_SCANNER, front + s, 0) == front + EMAIL
    ensures Streamed(RedactAll(EMAIL_SCANNER, raws), front + EMAIL) == front + EMAIL <==> Quiet(front, raws)
  {
    AddressReplaced(s, a, b);
    FrontCopied(front, s);
    if Quiet(front, raws) {
      QuietStreams(front, s, a, b, raws);
    } else {
      LoudFails(front, s, a, b, raws);
    }
  }

  /** The same for an address alone. */
  lemma EmailStreams(s: string, a: nat, b: nat, raws: seq<string>)
    requires Address(s, a, b) && Growing(raws, s)
    ensures Scan(EMAIL_SCANNER, s, 0) == EMAIL
    ensures Streamed(RedactAll(EMAIL_SCANNER, raws), EMAIL) == EMAIL <==>
            forall i :: 0 <= i < |raws| ==> Uncovered(raws[i]) <= HOLD_BACK
  {
    assert "" + s == s && "" + EMAIL == EMAIL;
    EmailInTextStreams("", s, a, b, raws);
    assert forall i :: 0 <= i < |raws| ==> Behind("", raws[i]) == raws[i];
  }

  // ----- addresses that do not -----

  function Repeat(c: char, n: nat): (s: string)
    ensures |s| == n && forall i :: 0 <= i < n ==> s[i] == c
  {
    if n == 0 then "" else Repeat(c, n - 1) + [c]
  }

  /** The parts of an address around its at sign and the first dot of its domain. */
  predicate Parts(local: string, host: string, domain: string) {
    && local != "" && host != "" && domain != "" && Word(local[0]) && Word(domain[|domain| - 1])
    && (forall i :: 0 <= i < |local| ==> LocalChar(local[i]))
    && (forall i :: 0 <= i < |host| ==> HostChar(host[i]))
    && (forall i :: 0 <= i < |domain| ==> HostChar(domain[i]) || domain[i] == '.')
  }

  lemma PartsMakeAddress(local: string, host: string, domain: string)
    requires Parts(local, host, domain)
    ensures Address(local + "@" + host + "." + domain, |local|, |local| + 1 + |host|)
  {
    var s := local + "@" + host + "." + domain;
    assert forall i :: 0 <= i < |local| ==> s[i] == local[i];
    assert forall i :: 0 <= i < |host| ==> s[|local| + 1 + i] == host[i];
    assert forall i :: 0 <= i < |domain| ==> s[|local| + |host| + 2 + i] == domain[i];
    forall i | |local| < i < |local| + 1 + |host| ensures HostChar(s[i]) {
      assert s[i] == host[i - |local| - 1];
    }
    forall i | |local| + 1 + |host| < i < |s| ensures HostChar(s[i]) || s[i] == '.' {
      assert s[i] == domain[i - |local| - |host| - 2];
    }
  }

  /** The provider streams the local part, then the host, then the rest. */
  function InParts(local: string, host: string, domain: string): seq<string> {
    [local, local + "@" + host, local + "@" + host + "." + domain]
  }

  lemma PartsGrow(local: string, host: string, domain: string)
    ensures Growing(InParts(local, host, domain), local + "@" + host + "." + domain)
  {
    var s := local + "@" + host + "." + domain;
    assert s[..|local|] == local && s[..|local| + 1 + |host|] == local + "@" + host;
  }

  /** Shown up to the dot of its domain, an address has no match yet. */
  lemma NoMatchBeforeDot(local: string, host: string, domain: string)
    requires Parts(local, host, domain)
    ensures EmailAt(local + "@" + host, 0) == 0
  {
    PartsMakeAddress(local, host, domain);
    PartsGrow(local, host, domain);
    assert IsPrefix(InParts(local, host, domain)[1], local + "@" + host + "." + domain);
    MatchedExactly(local + "@" + host + "." + domain, |local|, |local| + 1 + |host|, local + "@" + host);
  }

  /** An address whose local part and host together pass the hold-back does not stream, however short its local part. */
  lemma LongHostFails(local: string, host: string, domain: string)
    requires Parts(local, host, domain) && |local| + 1 + |host| > HOLD_BACK
    ensures Streamed(RedactAll(EMAIL_SCANNER, InParts(local, host, domain)), EMAIL) != EMAIL
  {
    PartsMakeAddress(local, host, domain);
    PartsGrow(local, host, domain);
    NoMatchBeforeDot(local, host, domain);
    assert Uncovered(InParts(local, host, domain)[1]) > HOLD_BACK;
    EmailStreams(local + "@" + host + "." + domain, |local|, |local| + 1 + |host|, InParts(local, host, domain));
  }

  /** Nor does one whose domain goes on behind a match with more than 64 characters that end no word. */
  lemma LongDashesFail(n: nat)
    requires n > HOLD_BACK
    ensures var shown := "a@b.c" + Repeat('-', n);
            Streamed(RedactAll(EMAIL_SCANNER, [shown, shown + "d"]), EMAIL) != EMAIL
  {
    var domain := "c" + Repeat('-', n) + "d";
    var shown, s := "a@b.c" + Repeat('-', n), "a" + "@" + "b" + "." + domain;
    PartsMakeAddress("a", "b", domain);
    assert s == shown + "d";
    MatchEndsAtWord(shown, 5);
    EmailStreams(s, 1, 3, [shown, s]);
    assert Uncovered([shown, s][0]) > HOLD_BACK;
  }

  /** A match ends where a word begins or ends, so none ends among characters that are not of a word. */
  lemma MatchEndsAtWord(t: string, e: nat)
    requires 0 < e <= |t| && forall k :: e <= k < |t| ==> !Word(t[k])
    ensures EmailAt(t, 0) <= e
  {
    LongestIsMatch(t, 0, |t|);
  }

  /** A bounded scanner would stream every address. */
  lemma LoudUnbounded(s: string, a: nat, b: nat, raws: seq<string>, window: nat, num: nat, den: nat)
    requires Address(s, a, b) && Growing(raws, s)
    requires Streamed(RedactAll(EMAIL_SCANNER, raws), EMAIL) != EMAIL
    ensures !Bounded(EMAIL_SCANNER, window, num, den)
  {
    AddressReplaced(s, a, b);
    if Bounded(EMAIL_SCANNER, window, num, den) {
      BoundedScannerStreams(EMAIL_SCANNER, window, num, den, raws, s);
    }
  }

  /** So no window bounds the email pattern. */
  lemma EmailsAreUnbounded(window: nat, num: nat, den: nat)
    ensures !Bounded(EMAIL_SCANNER, window, num, den)
  {
    LongHostUnbounded(Repeat('a', HOLD_BACK), "b", "co", window, num, den);
  }

  lemma LongHostUnbounded(local: string, host: string, domain: string, window: nat, num: nat, den: nat)
    requires Parts(local, host, domain) && |local| + 1 + |host| > HOLD_BACK
    ensures !Bounded(EMAIL_SCANNER, window, num, den)
  {
    PartsMakeAddress(local, host, domain);
    PartsGrow(local, host, domain);
    LongHostFails(local, host, domain);
    LoudUnbounded(local + "@" + host + "." + domain, |local|, |local| + 1 + |host|, InParts(local, host, domain),
                  window, num, den);
  }
}
