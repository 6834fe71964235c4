/** Operations on sequences and sets that several components share. */
module Sequences {

  /** The numbers below n. */
  function Below(n: nat): (s: set<nat>)
    ensures forall i: nat :: i in s <==> i < n
  {
    if n == 0 then {} else Below(n - 1) + {n - 1}
  }

  lemma {:induction false} BelowSize(n: nat)
    ensures |Below(n)| == n
  {
    if n > 0 {
      BelowSize(n - 1);
    }
  }

  lemma {:induction false} PrefixAndLast<T>(a: seq<T>, b: seq<T>)
    requires b != []
    ensures a + b[..|b| - 1] + [b[|b| - 1]] == a + b
  {
  }

  function StripLeft<T>(s: seq<T>, space: T -> bool): seq<T> {
    if s != [] && space(s[0]) then StripLeft(s[1..], space) else s
  }

  function StripRight<T>(s: seq<T>, space: T -> bool): seq<T> {
    if s != [] && space(s[|s| - 1]) then StripRight(s[..|s| - 1], space) else s
  }

  /** strip() */
  function Stripped<T>(s: seq<T>, space: T -> bool): seq<T> {
    StripRight(StripLeft(s, space), space)
  }

  /** Neither end is a space; perhaps empty. */
  predicate BareEnds<T>(s: seq<T>, space: T -> bool) {
    s != [] ==> !space(s[0]) && !space(s[|s| - 1])
  }

  lemma {:induction false} StripLeftBares<T>(s: seq<T>, space: T -> bool)
    ensures StripLeft(s, space) != [] ==> !space(StripLeft(s, space)[0])
    ensures forall x :: x in StripLeft(s, space) ==> x in s
  {
    if s != [] && space(s[0]) {
      StripLeftBares(s[1..], space);
    }
  }

  lemma {:induction false} StripRightBares<T>(s: seq<T>, space: T -> bool)
    ensures StripRight(s, space) <= s
    ensures StripRight(s, space) != [] ==> !space(StripRight(s, space)[|StripRight(s, space)| - 1])
  {
    if s != [] && space(s[|s| - 1]) {
      StripRightBares(s[..|s| - 1], space);
    }
  }

  lemma {:induction false} StrippedBares<T>(s: seq<T>, space: T -> bool)
    ensures BareEnds(Stripped(s, space), space) && forall x :: x in Stripped(s, space) ==> x in s
  {
    StripLeftBares(s, space);
    StripRightBares(StripLeft(s, space), space);
  }
}
