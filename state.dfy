/**
 * The states of the Markov chain: where the player stands, how many doubles they
 * have rolled this turn, and how many turns they have waited in jail. The jail
 * resting state is kept at the GoToJail position (30), not at the Visit space.
 */
module States {
  import opened Decimal
  import opened Spaces

  /** How a player leaves jail: pay at once, or wait up to three turns for a double. */
  datatype Strategy = PayJail | JailWait

  datatype State = State(position: nat, doubles: nat, jailroll: nat)

  /** `State::new`, whose arguments come in a different order from the fields. */
  function NewState(doubles: nat, position: nat, jailroll: nat): (r: State)
    ensures r.position == position && r.doubles == doubles && r.jailroll == jailroll
  {
    State(position, doubles, jailroll)
  }

  /** The derived order: by position, then doubles, then jailroll. */
  predicate Less(a: State, b: State)
    ensures Less(a, b) ==> a != b && a.position <= b.position
    ensures a.position < b.position ==> Less(a, b)
  {
    a.position < b.position
    || (a.position == b.position && (a.doubles < b.doubles || (a.doubles == b.doubles && a.jailroll < b.jailroll)))
  }

  /** Ascending without repeats, the iteration order of an ordered set. */
  predicate Ascending(s: seq<State>)
  {
    forall i :: 0 <= i < |s| - 1 ==> Less(s[i], s[i + 1])
  }

  lemma {:induction false} AscendingPairwise(s: seq<State>, i: nat, j: nat)
    requires Ascending(s) && i < j < |s|
    ensures Less(s[i], s[j])
    decreases j - i
  {
    if i + 1 < j {
      AscendingPairwise(s, i + 1, j);
    }
  }

  /** Ordered-set insertion: a no-op when `x` is present, otherwise `x` joins at its place. */
  function SetInsert(s: seq<State>, x: State): (r: seq<State>)
    requires Ascending(s)
    ensures Ascending(r)
    ensures forall y :: y in r <==> y in s || y == x
    ensures |r| == if x in s then |s| else |s| + 1
    ensures r != [] && (r[0] == x || (s != [] && r[0] == s[0]))
  {
    if s == [] then [x]
    else if x == s[0] then s
    else if Less(x, s[0]) then
      assert x !in s by {
        forall k | 0 < k < |s|
          ensures s[k] != x
        {
          AscendingPairwise(s, 0, k);
        }
      }
      [x] + s
    else
      assert s == [s[0]] + s[1..];
      assert Ascending(s[1..]) by {
        forall i | 0 <= i < |s[1..]| - 1
          ensures Less(s[1..][i], s[1..][i + 1])
        {
          assert s[1..][i] == s[i + 1] && s[1..][i + 1] == s[i + 2];
        }
      }
      var t := SetInsert(s[1..], x);
      assert Less(s[0], t[0]) by {
        if |s| > 1 {
          assert Less(s[0], s[1]);
        }
      }
      [s[0]] + t
  }

  /** The states with `jailroll` 0 away from GoToJail: doubles below `d`, or equal to `d` at positions below `p`. */
  predicate Enumerated(s: State, d: nat, p: nat)
  {
    s.jailroll == 0 && s.position < SPACECOUNT && s.position != GOTOJAIL
    && (s.doubles < d || (s.doubles == d && s.position < p))
  }

  /** The states of the chain under `strategy`. */
  predicate Canonical(strategy: Strategy, s: State)
  {
    Enumerated(s, 3, 0)
    || (s.position == GOTOJAIL && s.doubles == 0
        && (if strategy == PayJail then s.jailroll == 0 else s.jailroll < 3))
  }

  /** The dense index of each state: its rank in ascending order. */
  function Enumerate(states: seq<State>): (index: map<State, nat>)
    requires Ascending(states)
    ensures index.Keys == set s | s in states
    ensures forall i :: 0 <= i < |states| ==> index[states[i]] == i
  {
    assert forall i, j :: 0 <= i < j < |states| ==> states[i] != states[j] by {
      forall i, j | 0 <= i < j < |states|
        ensures states[i] != states[j]
      {
        AscendingPairwise(states, i, j);
      }
    }
    map i | 0 <= i < |states| :: states[i] := i
  }

  /**
   * `create_states`: every non-GoToJail position with 0, 1 or 2 doubles and `jailroll` 0,
   * plus the jail states at GoToJail; 118 states when paying, 120 when waiting.
   */
  method CreateStates(strategy: Strategy) returns (states: seq<State>, index: map<State, nat>)
    ensures Ascending(states)
    ensures forall s :: s in states <==> Canonical(strategy, s)
    ensures |states| == if strategy == PayJail then 118 else 120
    ensures index.Keys == set s | s in states
    ensures forall i :: 0 <= i < |states| ==> index[states[i]] == i
  {
    states := [];
    var doubles := 0;
    while doubles < 3
      invariant 0 <= doubles <= 3
      invariant Ascending(states)
      invariant forall s :: s in states <==> Enumerated(s, doubles, 0)
      invariant |states| == 39 * doubles
    {
      var position := 0;
      while position < SPACECOUNT
        invariant 0 <= position <= SPACECOUNT
        invariant Ascending(states)
        invariant forall s :: s in states <==> Enumerated(s, doubles, position)
        invariant |states| == 39 * doubles + (if position > GOTOJAIL then position - 1 else position)
      {
        BoardLayout(position);
        if SPACES[position] != GoToJail {
          states := SetInsert(states, State(position, doubles, 0));
        }
        position := position + 1;
      }
      assert forall s :: Enumerated(s, doubles, SPACECOUNT) <==> Enumerated(s, doubles + 1, 0);
      doubles := doubles + 1;
    }
    GoToJailAt(GOTOJAIL);
    FindIsIndex(GOTOJAIL);
    var jail := Find(GoToJail);
    assert jail == GOTOJAIL;
    match strategy {
      case PayJail =>
        assert !Enumerated(State(jail, 0, 0), 3, 0);
        states := SetInsert(states, State(jail, 0, 0));
      case JailWait =>
        var jailroll := 0;
        while jailroll < 3
          invariant 0 <= jailroll <= 3
          invariant Ascending(states)
          invariant forall s :: s in states <==> Enumerated(s, 3, 0) || (s.position == jail && s.doubles == 0 && s.jailroll < jailroll)
          invariant |states| == 117 + jailroll
        {
          assert !Enumerated(State(jail, 0, jailroll), 3, 0);
          states := SetInsert(states, State(jail, 0, jailroll));
          jailroll := jailroll + 1;
        }
        assert |states| == 120;
    }
    index := Enumerate(states);
  }

  /** `Display`: "[" short label, " d" doubles when non-zero, " r" jailroll at GoToJail, "]". */
  function Show(s: State): (r: string)
    requires s.position < SPACECOUNT
    requires SPACES[s.position] != GoToJail ==> s.jailroll == 0
    ensures r == "[" + Label(s.position)
                 + (if s.doubles > 0 then " d" + NatToString(s.doubles) else "")
                 + (if SPACES[s.position] == GoToJail then " r" + NatToString(s.jailroll) else "") + "]"
  {
    "[" + Label(s.position) + Suffix(s.doubles, s.jailroll, SPACES[s.position] == GoToJail)
  }

  /** What `Show` writes after the label; it opens with " d" exactly when doubles are counted. */
  function Suffix(doubles: nat, jailroll: nat, atJail: bool): (r: string)
    ensures r != [] && r[0] in {' ', ']'}
    ensures (|r| >= 2 && r[..2] == " d") <==> doubles > 0
  {
    var rest := JailPart(jailroll, atJail) + "]";
    assert |rest| >= 2 ==> rest[..2][1] == 'r';
    if doubles > 0 then
      var r := " d" + NatToString(doubles) + rest;
      assert r[..2] == " d";
      r
    else rest
  }

  /** The jail roll, written only at GoToJail. */
  function JailPart(jailroll: nat, atJail: bool): (r: string)
    ensures r == [] || (|r| >= 2 && r[..2] == " r")
  {
    if atJail then " r" + NatToString(jailroll) else ""
  }

  /** Distinct displayable states print differently, so `Display` can serve as a key. */
  lemma ShowInjective(s: State, t: State)
    requires s.position < SPACECOUNT && (SPACES[s.position] != GoToJail ==> s.jailroll == 0)
    requires t.position < SPACECOUNT && (SPACES[t.position] != GoToJail ==> t.jailroll == 0)
    requires Show(s) == Show(t)
    ensures s == t
  {
    var stops := {' ', ']'};
    var atJail := SPACES[s.position] == GoToJail;
    var sufS := Suffix(s.doubles, s.jailroll, atJail);
    var sufT := Suffix(t.doubles, t.jailroll, SPACES[t.position] == GoToJail);
    LabelAvoids(s.position, stops);
    LabelAvoids(t.position, stops);
    TaggedPrefix("[", Label(s.position), sufS, Label(t.position), sufT, stops);
    LabelInjective(s.position, t.position);
    SuffixInjective(s.doubles, s.jailroll, t.doubles, t.jailroll, atJail);
  }

  /** The suffix determines the doubles count, and at GoToJail the jail roll. */
  lemma SuffixInjective(d: nat, j: nat, d': nat, j': nat, atJail: bool)
    requires Suffix(d, j, atJail) == Suffix(d', j', atJail)
    ensures d == d'
    ensures atJail ==> j == j'
  {
    var stops := {' ', ']'};
    var js, js' := JailPart(j, atJail) + "]", JailPart(j', atJail) + "]";
    assert js[0] in stops && js'[0] in stops;
    if d > 0 {
      var n, n' := NatToString(d), NatToString(d');
      DigitsAvoid(d, stops);
      DigitsAvoid(d', stops);
      TaggedPrefix(" d", n, js, n', js', stops);
      NatToStringInjective(d, d');
    } else {
      assert Suffix(d, j, atJail) == js && Suffix(d', j', atJail) == js';
    }
    assert JailPart(j, atJail) == js[..|js| - 1] == js'[..|js'| - 1] == JailPart(j', atJail);
    if atJail {
      assert NatToString(j) == JailPart(j, atJail)[2..] == JailPart(j', atJail)[2..] == NatToString(j');
      NatToStringInjective(j, j');
    }
  }

  /** Every state of the chain can be displayed: only GoToJail states carry a jail roll. */
  lemma CanonicalShows(strategy: Strategy, s: State)
    requires Canonical(strategy, s)
    ensures s.position < SPACECOUNT
    ensures SPACES[s.position] != GoToJail ==> s.jailroll == 0
  {
    BoardLayout(s.position % SPACECOUNT);
  }
}
