/** White space at the ends of a text, for any element type and any set of white-space elements. */
module Trimming {
  /** The number of leading white-space elements. */
  function Lead<T(==)>(s: seq<T>, space: set<T>): (n: nat)
    ensures n <= |s|
  {
    if s != [] && s[0] in space then 1 + Lead(s[1..], space) else 0
  }

  /** The length up to the last element that is not white space. */
  function Tail<T(==)>(s: seq<T>, space: set<T>): (n: nat)
    ensures n <= |s|
  {
    if s != [] && s[|s| - 1] in space then Tail(s[..|s| - 1], space) else |s|
  }

  /** `s.trim()` and `s.strip()` */
  function Trim<T(==)>(s: seq<T>, space: set<T>): (r: seq<T>) {
    if Lead(s, space) < Tail(s, space) then s[Lead(s, space)..Tail(s, space)] else []
  }

  lemma {:induction false} LeadIsSpace<T>(s: seq<T>, space: set<T>)
    ensures forall i | 0 <= i < Lead(s, space) :: s[i] in space
    ensures Lead(s, space) < |s| ==> s[Lead(s, space)] !in space
  {
    if s != [] && s[0] in space {
      var rest := s[1..];
      LeadIsSpace(rest, space);
      forall i | 1 <= i < Lead(s, space) ensures s[i] in space { assert s[i] == rest[i - 1]; }
    }
  }

  lemma {:induction false} TailIsSpace<T>(s: seq<T>, space: set<T>)
    ensures forall i | Tail(s, space) <= i < |s| :: s[i] in space
    ensures Tail(s, space) > 0 ==> s[Tail(s, space) - 1] !in space
  {
    if s != [] && s[|s| - 1] in space {
      var front := s[..|s| - 1];
      TailIsSpace(front, space);
      forall i | Tail(s, space) <= i < |s| - 1 ensures s[i] in space { assert s[i] == front[i]; }
    }
  }

  /** No white space at either end. */
  predicate Bare<T(==)>(frag: seq<T>, space: set<T>) {
    frag != [] ==> frag[0] !in space && frag[|frag| - 1] !in space
  }

  /** Trimming leaves no white space at either end, and nothing only of a text that is all white
      space. */
  lemma {:induction false} TrimIsBare<T>(s: seq<T>, space: set<T>)
    ensures Bare(Trim(s, space), space)
    ensures Trim(s, space) == [] <==> forall i | 0 <= i < |s| :: s[i] in space
  {
    LeadIsSpace(s, space);
    TailIsSpace(s, space);
  }

  /** A text is all white space, or has its trimmed text in the middle. */
  lemma {:induction false} TrimIsMiddle<T>(s: seq<T>, space: set<T>)
    ensures Lead(s, space) == |s| || Lead(s, space) < Tail(s, space)
  {
    LeadIsSpace(s, space);
    TailIsSpace(s, space);
  }
}
