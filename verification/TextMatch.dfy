/** Occurrences of a fragment in a text, the leftmost greedy search for disjoint
    ones, and the proof that the greedy search finds as many as there are.

    Texts are sequences over any element type: the server works on code points,
    the browser on 16-bit units. */
module TextMatch {

  /** Cuts of cuts. */
  lemma Slices<T>(s: seq<T>, a: nat, b: nat)
    requires a <= b <= |s|
    ensures s[..b][..a] == s[..a] && s[..b][a..] == s[a..b]
    ensures s[a..][..b - a] == s[a..b] && s[a..][b - a..] == s[b..]
    ensures s == s[..a] + s[a..]
  {
  }

  /** `frag` is written in `text` at offset `at`. */
  predicate Occurs<T(==)>(text: seq<T>, frag: seq<T>, at: int) {
    0 <= at && at + |frag| <= |text| && text[at..at + |frag|] == frag
  }

  /** Two ranges of length `n` starting at `a` and `b` share no position. */
  predicate Apart(a: int, b: int, n: nat) {
    a + n <= b || b + n <= a
  }

  /** `starts` are pairwise disjoint occurrences of `frag`. */
  predicate Placed<T(==)>(text: seq<T>, frag: seq<T>, starts: seq<int>) {
    && (forall i | 0 <= i < |starts| :: Occurs(text, frag, starts[i]))
    && (forall i, j | 0 <= i < j < |starts| :: Apart(starts[i], starts[j], |frag|))
  }

  /** The text has room for `n` pairwise disjoint occurrences of `frag`. */
  ghost predicate Holds<T>(text: seq<T>, frag: seq<T>, n: nat) {
    exists starts: seq<int> {:trigger Placed(text, frag, starts)} :: |starts| == n && Placed(text, frag, starts)
  }

  /** The largest number, up to `n`, of pairwise disjoint occurrences. */
  ghost function Capacity<T>(text: seq<T>, frag: seq<T>, n: nat): (c: nat)
    ensures c <= n
  {
    if n == 0 || Holds(text, frag, n) then n else Capacity(text, frag, n - 1)
  }

  /** `str.find` and `String.indexOf`: the first occurrence at or after `from`, or -1. */
  function Find<T(==)>(text: seq<T>, frag: seq<T>, from: nat): (p: int)
    requires from <= |text|
    ensures p == -1 || (from <= p && p + |frag| <= |text|)
    decreases |text| - from
  {
    if Occurs(text, frag, from) then from
    else if from < |text| then Find(text, frag, from + 1)
    else -1
  }

  /** What the search returns: the first occurrence at or after `from`, or -1 if there is none. */
  lemma {:induction false} FindFirst<T>(text: seq<T>, frag: seq<T>, from: nat)
    requires from <= |text|
    ensures
      var p := Find(text, frag, from);
      && (p >= 0 ==> Occurs(text, frag, p) && forall q | from <= q < p :: !Occurs(text, frag, q))
      && (p < 0 ==> forall q | from <= q :: !Occurs(text, frag, q))
    decreases |text| - from
  {
    if !Occurs(text, frag, from) && from < |text| { FindFirst(text, frag, from + 1); }
  }

  /** A search that starts at an occurrence finds it; one with an occurrence ahead succeeds. */
  lemma {:induction false} FindAt<T>(text: seq<T>, frag: seq<T>, from: nat, at: nat)
    requires from <= |text| && from <= at && Occurs(text, frag, at)
    ensures 0 <= Find(text, frag, from) <= at
  {
    FindFirst(text, frag, from);
  }

  /** How many of `n` successive searches succeed, each starting after the last hit. */
  function Greedy<T(==)>(text: seq<T>, frag: seq<T>, from: nat, n: nat): (hits: nat)
    requires from <= |text|
    ensures hits <= n
    decreases n
  {
    if n == 0 then 0
    else
      var p := Find(text, frag, from);
      if p < 0 then 0 else 1 + Greedy(text, frag, p + |frag|, n - 1)
  }

  /** Where the cursor stands after `n` successive searches. */
  function Advance<T(==)>(text: seq<T>, frag: seq<T>, from: nat, n: nat): (cursor: nat)
    requires from <= |text|
    ensures from <= cursor <= |text|
    decreases n
  {
    if n == 0 then from
    else
      var p := Find(text, frag, from);
      if p < 0 then from else Advance(text, frag, p + |frag|, n - 1)
  }

  /** A search that hits counts one and goes on behind the hit. */
  lemma {:induction false} GreedyHit<T>(text: seq<T>, frag: seq<T>, from: nat, n: nat, p: int)
    requires from <= |text| && n > 0 && p == Find(text, frag, from) && 0 <= p && p + |frag| <= |text|
    ensures Greedy(text, frag, from, n) == 1 + Greedy(text, frag, p + |frag|, n - 1)
  {
  }

  /** One more search, seen from the cursor the previous ones left behind: where it leaves the
      cursor ... */
  lemma {:induction false} AdvanceOnce<T>(text: seq<T>, frag: seq<T>, from: nat, n: nat)
    requires from <= |text|
    ensures
      var p := Find(text, frag, Advance(text, frag, from, n));
      Advance(text, frag, from, n + 1) == if p < 0 then Advance(text, frag, from, n) else p + |frag|
    decreases n
  {
    var p := Find(text, frag, from);
    if n > 0 && p >= 0 { AdvanceOnce(text, frag, p + |frag|, n - 1); }
  }

  /** ... and whether it counts. */
  lemma {:induction false} GreedyOnce<T>(text: seq<T>, frag: seq<T>, from: nat, n: nat)
    requires from <= |text|
    ensures
      var p := Find(text, frag, Advance(text, frag, from, n));
      Greedy(text, frag, from, n + 1) == Greedy(text, frag, from, n) + if p < 0 then 0 else 1
    decreases n
  {
    var p := Find(text, frag, from);
    if n > 0 && p >= 0 { GreedyOnce(text, frag, p + |frag|, n - 1); }
  }

  /** The greedy hits are pairwise disjoint occurrences. */
  lemma {:induction false} GreedyPlaces<T>(text: seq<T>, frag: seq<T>, from: nat, n: nat) returns (starts: seq<int>)
    requires from <= |text|
    ensures |starts| == Greedy(text, frag, from, n) && Placed(text, frag, starts)
    ensures forall i | 0 <= i < |starts| :: from <= starts[i]
    decreases n
  {
    FindFirst(text, frag, from);
    var p := if n == 0 then -1 else Find(text, frag, from);
    if p < 0 {
      starts := [];
    } else {
      var rest := GreedyPlaces(text, frag, p + |frag|, n - 1);
      starts := [p] + rest;
    }
  }

  /** At most one member starts before the leftmost hit `p` ends; dropping it leaves a
      family that starts after the hit. */
  lemma AfterFirstHit<T>(text: seq<T>, frag: seq<T>, starts: seq<int>, p: int) returns (rest: seq<int>)
    requires |frag| > 0 && |starts| > 0 && Placed(text, frag, starts)
    requires forall i | 0 <= i < |starts| :: p <= starts[i]
    ensures |rest| == |starts| - 1 && Placed(text, frag, rest)
    ensures forall i | 0 <= i < |rest| :: p + |frag| <= rest[i]
  {
    var k := if exists i :: 0 <= i < |starts| && starts[i] < p + |frag|
             then var i :| 0 <= i < |starts| && starts[i] < p + |frag|; i else 0;
    rest := starts[..k] + starts[k + 1..];
    forall i | 0 <= i < |rest| ensures p + |frag| <= rest[i] {
      var o := if i < k then i else i + 1;
      assert rest[i] == starts[o];
      assert if o < k then Apart(starts[o], starts[k], |frag|) else Apart(starts[k], starts[o], |frag|);
    }
  }

  /** The leftmost hit exists and no member starts before it. */
  lemma FirstHitFirst<T>(text: seq<T>, frag: seq<T>, from: nat, starts: seq<int>) returns (p: int)
    requires from <= |text| && |starts| > 0 && Placed(text, frag, starts)
    requires forall i | 0 <= i < |starts| :: from <= starts[i]
    ensures p == Find(text, frag, from) && 0 <= p && p + |frag| <= |text|
    ensures forall i | 0 <= i < |starts| :: p <= starts[i]
  {
    p := Find(text, frag, from);
    forall i | 0 <= i < |starts| ensures 0 <= p <= starts[i] {
      FindAt(text, frag, from, starts[i]);
    }
    assert 0 <= p <= starts[0];
  }

  /** Taking the leftmost hit costs the family at most one member. */
  lemma {:induction false} WithoutFirst<T>(text: seq<T>, frag: seq<T>, from: nat, starts: seq<int>, n: nat)
    returns (next: nat, rest: seq<int>)
    requires from <= |text| && |frag| > 0 && |starts| > 0 && FamilyFrom(text, frag, from, starts) && n > 0
    ensures from <= next <= |text| && Greedy(text, frag, from, n) == 1 + Greedy(text, frag, next, n - 1)
    ensures |rest| == |starts| - 1 && FamilyFrom(text, frag, next, rest)
  {
    var p := FirstHitFirst(text, frag, from, starts);
    next := p + |frag|;
    rest := AfterFirstHit(text, frag, starts, p);
    GreedyHit(text, frag, from, n, p);
  }

  /** A family of pairwise disjoint occurrences at or after `from`. */
  ghost predicate FamilyFrom<T>(text: seq<T>, frag: seq<T>, from: nat, starts: seq<int>) {
    Placed(text, frag, starts) && forall i | 0 <= i < |starts| :: from <= starts[i]
  }

  /** Leftmost greedy matching is optimal: no disjoint family beats it. */
  lemma {:induction false} GreedyOptimal<T>(text: seq<T>, frag: seq<T>, from: nat, starts: seq<int>, n: nat)
    requires from <= |text| && |frag| > 0 && FamilyFrom(text, frag, from, starts)
    ensures Greedy(text, frag, from, n) >= if n <= |starts| then n else |starts|
    decreases n
  {
    if n > 0 && |starts| > 0 {
      var next, rest := WithoutFirst(text, frag, from, starts, n);
      GreedyOptimal(text, frag, next, rest, n - 1);
    }
  }

  /** After one failed search all later ones fail. */
  lemma {:induction false} GreedyStuck<T>(text: seq<T>, frag: seq<T>, from: nat, n: nat)
    requires from <= |text| && Greedy(text, frag, from, n) < n
    ensures Greedy(text, frag, from, n + 1) == Greedy(text, frag, from, n)
    decreases n
  {
    var p := Find(text, frag, from);
    if p >= 0 {
      GreedyStuck(text, frag, p + |frag|, n - 1);
    }
  }

  /** An empty fragment is found by every search. */
  lemma {:induction false} GreedyEmpty<T>(text: seq<T>, from: nat, n: nat)
    requires from <= |text|
    ensures Greedy(text, [], from, n) == n
  {
    if n > 0 {
      assert Occurs(text, [], from);
      GreedyEmpty(text, from, n - 1);
    }
  }

  lemma HoldsFewer<T>(text: seq<T>, frag: seq<T>, n: nat, m: nat)
    requires Holds(text, frag, n) && m <= n
    ensures Holds(text, frag, m)
  {
    var starts: seq<int> :| |starts| == n && Placed(text, frag, starts);
    assert Placed(text, frag, starts[..m]);
  }

  /** The greedy search is exact: it succeeds `n` times iff `n` disjoint occurrences exist. */
  lemma GreedyExact<T>(text: seq<T>, frag: seq<T>, n: nat)
    ensures Greedy(text, frag, 0, n) == n <==> Holds(text, frag, n)
  {
    var found := GreedyPlaces(text, frag, 0, n);
    if Holds(text, frag, n) {
      var starts: seq<int> :| |starts| == n && Placed(text, frag, starts);
      if |frag| == 0 {
        GreedyEmpty(text, 0, n);
      } else {
        forall i | 0 <= i < |starts| ensures 0 <= starts[i] { assert Occurs(text, frag, starts[i]); }
        GreedyOptimal(text, frag, 0, starts, n);
      }
    }
  }

  /** The number of greedy hits is the capacity. */
  lemma {:induction false} GreedyIsCapacity<T>(text: seq<T>, frag: seq<T>, n: nat)
    ensures Greedy(text, frag, 0, n) == Capacity(text, frag, n)
  {
    if n > 0 {
      GreedyExact(text, frag, n);
      GreedyIsCapacity(text, frag, n - 1);
      if Greedy(text, frag, 0, n - 1) < n - 1 {
        GreedyStuck(text, frag, 0, n - 1);
      } else {
        GreedyOnce(text, frag, 0, n - 1);
      }
    }
  }
}
