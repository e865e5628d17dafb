/** The 26-character identifiers: a base-32 numeral whose text order is the order of the numbers. */
module Ids {

  const ALPHABET: string := "0123456789ABCDEFGHJKMNPQRSTVWXYZ"

  /** The digits and the capitals without I, L, O and U, each once, in the order of their codes. */
  lemma AlphabetExactly()
    ensures |ALPHABET| == 32 && forall i :: 0 <= i < 31 ==> ALPHABET[i] < ALPHABET[i + 1]
    ensures forall i :: 0 <= i < 32 ==>
              '0' <= ALPHABET[i] <= '9' || ('A' <= ALPHABET[i] <= 'Z' && ALPHABET[i] !in {'I', 'L', 'O', 'U'})
  {
  }

  const LENGTH: nat := 26

  function Pow32(n: nat): (p: nat)
    ensures p > 0
  {
    if n == 0 then 1 else 32 * Pow32(n - 1)
  }

  function DigitChar(d: nat): char
    requires d < 32
  {
    ALPHABET[d]
  }

  /** The lowest n base-32 digits as text, the highest first. */
  function Digits(value: nat, n: nat): (s: string)
    ensures |s| == n
  {
    if n == 0 then "" else Digits(value / 32, n - 1) + [DigitChar(value % 32)]
  }

  function Reversed(s: string): (r: string)
    ensures |r| == |s|
  {
    if s == [] then [] else Reversed(s[1..]) + [s[0]]
  }

  lemma {:induction false} ReversedSnoc(s: string, c: char)
    ensures Reversed(s + [c]) == [c] + Reversed(s)
  {
    if s == [] {
      assert ([] + [c])[1..] == "";
    } else {
      ReversedSnoc(s[1..], c);
      assert (s + [c])[1..] == s[1..] + [c];
    }
  }

  function Shifted(value: nat, n: nat): nat {
    if n == 0 then value else Shifted(value / 32, n - 1)
  }

  lemma {:induction false} ShiftedSnoc(value: nat, n: nat)
    ensures Shifted(value, n + 1) == Shifted(value, n) / 32
    ensures Digits(value, n + 1) == [DigitChar(Shifted(value, n) % 32)] + Digits(value, n)
  {
    if n > 0 {
      ShiftedSnoc(value / 32, n - 1);
    } else {
      assert Digits(value / 32, 0) == "";
    }
  }

  /** The loop of new_id over the shifted time and random bits. */
  method Encode(value: nat) returns (id: string)
    ensures id == Digits(value, LENGTH)
  {
    var chars, rest := "", value;
    for i := 0 to LENGTH
      invariant rest == Shifted(value, i)
      invariant Reversed(chars) == Digits(value, i)
    {
      ShiftedSnoc(value, i);
      ReversedSnoc(chars, DigitChar(rest % 32));
      chars := chars + [ALPHABET[rest % 32]];
      rest := rest / 32;
    }
    id := Reversed(chars);
  }

  // ----- reading an identifier back -----

  function DigitOf(c: char): nat {
    IndexOf(ALPHABET, c)
  }

  function IndexOf(s: string, c: char): (i: nat)
    ensures i <= |s|
  {
    if s == "" || s[0] == c then 0 else 1 + IndexOf(s[1..], c)
  }

  function Decode(s: string): nat {
    if s == [] then 0 else 32 * Decode(s[..|s| - 1]) + DigitOf(s[|s| - 1])
  }

  predicate Rising(s: string) {
    forall i, j :: 0 <= i < j < |s| ==> s[i] < s[j]
  }

  lemma {:induction false} IndexRising(s: string, i: nat)
    requires Rising(s) && i < |s|
    ensures IndexOf(s, s[i]) == i
  {
    if i > 0 {
      assert s[0] < s[i];
      IndexRising(s[1..], i - 1);
    }
  }

  lemma AlphabetRises()
    ensures Rising(ALPHABET)
  {
  }

  lemma {:induction false} DecodeDigits(value: nat, n: nat)
    requires value < Pow32(n)
    ensures Decode(Digits(value, n)) == value
  {
    if n > 0 {
      DecodeDigits(value / 32, n - 1);
      AlphabetRises();
      IndexRising(ALPHABET, value % 32);
      assert Digits(value, n)[..n - 1] == Digits(value / 32, n - 1);
    }
  }

  /** Below 2^130 an identifier determines its number. */
  lemma EncodingInjective(u: nat, v: nat)
    requires u < Pow32(LENGTH) && v < Pow32(LENGTH)
    ensures Digits(u, LENGTH) == Digits(v, LENGTH) <==> u == v
  {
    DecodeDigits(u, LENGTH);
    DecodeDigits(v, LENGTH);
  }

  lemma Regroup(a: nat, b: nat, c: nat)
    ensures a * (b * c) == (a * b) * c == b * (a * c)
  {
  }

  lemma AddThirtyTwos(value: nat, t: nat)
    ensures (value + 32 * t) / 32 == value / 32 + t && (value + 32 * t) % 32 == value % 32
  {
  }

  /** Bits above the n digits are lost, so from 2^130 on identifiers repeat. */
  lemma {:induction false} HighBitsLost(value: nat, big: nat, k: nat, n: nat)
    requires big == value + k * Pow32(n)
    ensures Digits(big, n) == Digits(value, n)
  {
    if n > 0 {
      Regroup(k, 32, Pow32(n - 1));
      AddThirtyTwos(value, k * Pow32(n - 1));
      HighBitsLost(value / 32, big / 32, k, n - 1);
    }
  }

  // ----- text order -----

  /** Lexicographic order of strings, as the database compares identifiers. */
  predicate Before(a: string, b: string) {
    b != [] && (a == [] || a[0] < b[0] || (a[0] == b[0] && Before(a[1..], b[1..])))
  }

  lemma {:induction false} BeforeSnoc(a: string, b: string, x: char, y: char)
    requires |a| == |b|
    ensures Before(a + [x], b + [y]) <==> Before(a, b) || (a == b && x < y)
  {
    if a == [] {
      assert (a + [x])[1..] == "" && (b + [y])[1..] == "";
    } else {
      BeforeSnoc(a[1..], b[1..], x, y);
      assert (a + [x])[1..] == a[1..] + [x] && (b + [y])[1..] == b[1..] + [y];
      assert a == b <==> a[0] == b[0] && a[1..] == b[1..];
    }
  }

  lemma LastDigits(u: nat, v: nat)
    requires u < v
    ensures u / 32 < v / 32 || (u / 32 == v / 32 && DigitChar(u % 32) < DigitChar(v % 32))
  {
    AlphabetRises();
  }

  lemma {:induction false} DigitsOrdered(u: nat, v: nat, n: nat)
    requires u < v < Pow32(n)
    ensures Before(Digits(u, n), Digits(v, n))
  {
    if n > 0 {
      LastDigits(u, v);
      BeforeSnoc(Digits(u / 32, n - 1), Digits(v / 32, n - 1), DigitChar(u % 32), DigitChar(v % 32));
      if u / 32 < v / 32 {
        DigitsOrdered(u / 32, v / 32, n - 1);
      }
    }
  }

  lemma {:induction false} BeforeIrreflexive(a: string)
    ensures !Before(a, a)
  {
    if a != [] {
      BeforeIrreflexive(a[1..]);
    }
  }

  lemma {:induction false} BeforeTransitive(a: string, b: string, c: string)
    requires Before(a, b) && Before(b, c)
    ensures Before(a, c)
  {
    if a != [] && a[0] == b[0] && b[0] == c[0] {
      BeforeTransitive(a[1..], b[1..], c[1..]);
    }
  }

  lemma {:induction false} BeforeTotal(a: string, b: string)
    ensures Before(a, b) || a == b || Before(b, a)
  {
    if a != [] && b != [] && a[0] == b[0] {
      BeforeTotal(a[1..], b[1..]);
      assert a == [a[0]] + a[1..] && b == [b[0]] + b[1..];
    }
  }

  /** Below 2^130 the text order of identifiers is the order of the numbers. */
  lemma OrderPreserved(u: nat, v: nat)
    requires u < Pow32(LENGTH) && v < Pow32(LENGTH)
    ensures Before(Digits(u, LENGTH), Digits(v, LENGTH)) <==> u < v
  {
    if u < v {
      DigitsOrdered(u, v, LENGTH);
    } else if u == v {
      BeforeIrreflexive(Digits(u, LENGTH));
    } else {
      DigitsOrdered(v, u, LENGTH);
      if Before(Digits(u, LENGTH), Digits(v, LENGTH)) {
        BeforeTransitive(Digits(v, LENGTH), Digits(u, LENGTH), Digits(v, LENGTH));
        BeforeIrreflexive(Digits(v, LENGTH));
      }
    }
  }

  // ----- time first, then randomness -----

  lemma {:induction false} PowSum(a: nat, b: nat)
    ensures Pow32(a + b) == Pow32(a) * Pow32(b)
  {
    if a > 0 {
      PowSum(a - 1, b);
      Regroup(32, Pow32(a - 1), Pow32(b));
    }
  }

  /** The number of an identifier: milliseconds shifted over 80 random bits, which are 16 digits. */
  function Stamp(ms: nat, random: nat): nat {
    ms * Pow32(16) + random
  }

  lemma StampBound(ms: nat, random: nat)
    requires ms < Pow32(10) && random < Pow32(16)
    ensures Stamp(ms, random) < Pow32(LENGTH)
  {
    PowSum(10, 16);
    Room(ms, Pow32(10), Pow32(16), random);
  }

  lemma Room(a: nat, b: nat, p: nat, r: nat)
    requires a < b && r < p
    ensures a * p + r < b * p
  {
    assert (a + 1) * p <= b * p;
  }

  /** A later millisecond gives a later identifier, whatever the random bits. */
  lemma LaterSortsLater(ms: nat, random: nat, ms': nat, random': nat)
    requires ms < ms' < Pow32(10) && random < Pow32(16) && random' < Pow32(16)
    ensures Before(Digits(Stamp(ms, random), LENGTH), Digits(Stamp(ms', random'), LENGTH))
  {
    StampBound(ms, random);
    StampBound(ms', random');
    Room(ms, ms', Pow32(16), random);
    OrderPreserved(Stamp(ms, random), Stamp(ms', random'));
  }
}
