/** Decimal rendering of natural numbers, as Rust's integer formatting produces it. */
module Decimal {
  /** Decimal digits of a natural number, most significant first, as Rust formats integers. */
  function NatToString(n: nat): (r: string)
    ensures |r| > 0 && forall k :: 0 <= k < |r| ==> '0' <= r[k] <= '9'
    ensures |r| > 1 ==> r[0] != '0'
  {
    if n < 10 then ["0123456789"[n]] else NatToString(n / 10) + ["0123456789"[n % 10]]
  }

  /** Reads back a string of decimal digits. */
  function StringToNat(s: string): nat
    requires forall k :: 0 <= k < |s| ==> '0' <= s[k] <= '9'
  {
    if s == [] then 0 else 10 * StringToNat(s[..|s| - 1]) + (s[|s| - 1] - '0') as nat
  }

  lemma {:induction false} NatToStringRoundTrip(n: nat)
    ensures StringToNat(NatToString(n)) == n
  {
    var r := NatToString(n);
    if n >= 10 {
      NatToStringRoundTrip(n / 10);
      assert r[..|r| - 1] == NatToString(n / 10);
    }
  }

  /** Different numbers have different digits. */
  lemma NatToStringInjective(a: nat, b: nat)
    requires NatToString(a) == NatToString(b)
    ensures a == b
  {
    NatToStringRoundTrip(a);
    NatToStringRoundTrip(b);
  }

  /** No character of `s` is one of `stops`. */
  predicate Avoids(s: string, stops: set<char>)
  {
    forall k :: 0 <= k < |s| ==> s[k] !in stops
  }

  /** Decimal digits avoid any set of characters that holds no digit. */
  lemma DigitsAvoid(n: nat, stops: set<char>)
    requires forall c :: c in stops ==> !('0' <= c <= '9')
    ensures Avoids(NatToString(n), stops)
  {
  }

  /** The index of the first stop character of `s`, or its length when there is none. */
  function FirstStop(s: string, stops: set<char>): (r: nat)
    ensures r <= |s|
  {
    if s == [] || s[0] in stops then 0 else 1 + FirstStop(s[1..], stops)
  }

  /** Text free of stop characters, followed by a stop character, ends at that character. */
  lemma {:induction false} FirstStopAfter(a: string, b: string, stops: set<char>)
    requires Avoids(a, stops) && b != [] && b[0] in stops
    ensures FirstStop(a + b, stops) == |a|
    decreases |a|
  {
    if a == [] {
      assert a + b == b;
    } else {
      assert (a + b)[0] == a[0];
      assert (a + b)[1..] == a[1..] + b;
      FirstStopAfter(a[1..], b, stops);
    }
  }

  /**
   * Text read up to the first stop character: two splits of one string, each into a
   * part free of stop characters and a rest that starts with one, are the same split.
   */
  lemma PrefixBeforeStop(a: string, b: string, a2: string, b2: string, stops: set<char>)
    requires a + b == a2 + b2
    requires Avoids(a, stops) && Avoids(a2, stops)
    requires b != [] && b[0] in stops && b2 != [] && b2[0] in stops
    ensures a == a2 && b == b2
  {
    FirstStopAfter(a, b, stops);
    FirstStopAfter(a2, b2, stops);
    assert a == (a + b)[..|a|];
    assert a2 == (a2 + b2)[..|a2|];
    assert b == (a + b)[|a|..];
    assert b2 == (a2 + b2)[|a2|..];
  }

  /** The same split after a common leading tag. */
  lemma TaggedPrefix(tag: string, a: string, b: string, a2: string, b2: string, stops: set<char>)
    requires tag + a + b == tag + a2 + b2
    requires Avoids(a, stops) && Avoids(a2, stops)
    requires b != [] && b[0] in stops && b2 != [] && b2[0] in stops
    ensures a == a2 && b == b2
  {
    assert a + b == (tag + a + b)[|tag|..];
    assert a2 + b2 == (tag + a2 + b2)[|tag|..];
    PrefixBeforeStop(a, b, a2, b2, stops);
  }
}
