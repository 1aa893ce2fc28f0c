/** Manual edits as the endpoint sees them: the request schema strips the content before the
    lock check, while the browser checks the text as typed. */
module StrippedEdits {
  import opened Basics
  import opened TextMatch
  import opened Validation
  import opened Utf16
  import opened Locator
  import opened Trimming

  /** An occurrence without white space at its ends lies inside the stripped text. */
  lemma {:induction false} OccursInside<T>(text: seq<T>, frag: seq<T>, space: set<T>, at: int)
    requires Occurs(text, frag, at) && Bare(frag, space) && frag != []
    ensures Lead(text, space) <= at && at + |frag| <= Tail(text, space)
  {
    LeadIsSpace(text, space);
    TailIsSpace(text, space);
    var last := at + |frag| - 1;
    assert text[at] == text[at..at + |frag|][0] && text[last] == text[at..at + |frag|][|frag| - 1];
  }

  lemma {:induction false} OccursStripped<T>(text: seq<T>, frag: seq<T>, space: set<T>, at: int)
    requires Occurs(text, frag, at) && Bare(frag, space) && frag != []
    ensures Occurs(Trim(text, space), frag, at - Lead(text, space))
  {
    OccursInside(text, frag, space, at);
    OccursCut(text, frag, Lead(text, space), Tail(text, space), at);
  }

  lemma OccursCut<T>(text: seq<T>, frag: seq<T>, from: nat, to: nat, at: int)
    requires Occurs(text, frag, at) && from <= at && at + |frag| <= to <= |text|
    ensures Occurs(text[from..to], frag, at - from)
  {
    CutShift(text, from, to, at - from, |frag|);
  }

  lemma CutShift<T>(s: seq<T>, from: nat, to: nat, at: nat, n: nat)
    requires from <= to <= |s| && at + n <= to - from
    ensures s[from..to][at..at + n] == s[from + at..from + at + n]
  {
    var a, b := s[from..to], s[from + at..from + at + n];
    assert |a[at..at + n]| == |b|;
    assert forall i | 0 <= i < n :: a[at..at + n][i] == a[at + i] == s[from + (at + i)] == b[i];
  }

  /** What stands in the stripped text stands in the text. */
  lemma {:induction false} OccursUnstripped<T>(text: seq<T>, frag: seq<T>, space: set<T>, at: int)
    requires Occurs(Trim(text, space), frag, at)
    ensures Occurs(text, frag, at + if Trim(text, space) == [] then 0 else Lead(text, space))
  {
    if Trim(text, space) == [] {
      assert text[0..0] == [];
    } else {
      CutShift(text, Lead(text, space), Tail(text, space), at, |frag|);
    }
  }

  lemma {:induction false} HoldsUnstripped<T>(text: seq<T>, frag: seq<T>, space: set<T>, n: nat)
    requires Holds(Trim(text, space), frag, n)
    ensures Holds(text, frag, n)
  {
    var starts: seq<int> :| |starts| == n && Placed(Trim(text, space), frag, starts);
    var shift := if Trim(text, space) == [] then 0 else Lead(text, space);
    var moved := seq(n, i requires 0 <= i < n => starts[i] + shift);
    forall i | 0 <= i < n ensures Occurs(text, frag, moved[i]) { OccursUnstripped(text, frag, space, starts[i]); }
    assert Placed(text, frag, moved);
  }

  lemma {:induction false} EmptyHeld<T>(text: seq<T>, n: nat)
    ensures Holds(text, [], n)
  {
    assert text[0..0] == [];
    var starts := seq(n, _ => 0);
    assert Placed(text, [], starts);
  }

  /** Stripping takes away no occurrence of a fragment without white space at its ends. */
  lemma {:induction false} HoldsStripped<T>(text: seq<T>, frag: seq<T>, space: set<T>, n: nat)
    requires Holds(text, frag, n) && Bare(frag, space)
    ensures Holds(Trim(text, space), frag, n)
  {
    if frag == [] {
      EmptyHeld(Trim(text, space), n);
    } else {
      var starts: seq<int> :| |starts| == n && Placed(text, frag, starts);
      var moved := seq(n, i requires 0 <= i < n => starts[i] - Lead(text, space));
      forall i | 0 <= i < n ensures Occurs(Trim(text, space), frag, moved[i]) { OccursStripped(text, frag, space, starts[i]); }
      assert Placed(Trim(text, space), frag, moved);
    }
  }

  lemma {:induction false} StrippingShortens<T>(frag: seq<T>, space: set<T>)
    requires !Bare(frag, space)
    ensures |Trim(frag, space)| < |frag| && !Holds(Trim(frag, space), frag, 1)
  {
    TooShort(Trim(frag, space), frag);
  }

  lemma TooShort<T>(text: seq<T>, frag: seq<T>)
    requires |text| < |frag|
    ensures !Holds(text, frag, 1)
  {
    forall starts: seq<int> | |starts| == 1 ensures !Placed(text, frag, starts) {
      assert Placed(text, frag, starts) ==> Occurs(text, frag, starts[0]);
    }
  }

  /** The exact condition on a fragment under which stripping a text never loses it. */
  lemma {:induction false} StrippingKeepsIffBare<T(!new)>(frag: seq<T>, space: set<T>)
    ensures Bare(frag, space) <==> forall text: seq<T>, n: nat :: Holds(text, frag, n) ==> Holds(Trim(text, space), frag, n)
  {
    if Bare(frag, space) {
      forall text: seq<T>, n: nat | Holds(text, frag, n) ensures Holds(Trim(text, space), frag, n) { HoldsStripped(text, frag, space, n); }
    } else {
      StrippingShortens(frag, space);
      assert Occurs(frag, frag, 0);
      assert Placed(frag, frag, [0]);
      assert Holds(frag, frag, 1);
    }
  }

  lemma {:induction false} AllHeldStripped<T(!new)>(text: seq<T>, locks: seq<seq<T>>, space: set<T>)
    requires AllHeld(text, locks) && forall i | 0 <= i < |locks| :: Bare(locks[i], space)
    ensures AllHeld(Trim(text, space), locks)
  {
    forall f | f in locks ensures Holds(Trim(text, space), f, Count(locks, f)) {
      HoldsStripped(text, f, space, Count(locks, f));
    }
  }

  /** If the browser places every lock in the text as typed, the server's validator reports
      nothing on the stripped content: for lock texts that are whole code points at both ends
      and have no white space there. `space` is any set of code points. */
  lemma {:induction false} ClientRefinesServerStripped(
    text: seq<Unit>, locks: seq<TextLock>, version: Option<string>, server: seq<Constraint<int>>, space: set<int>)
    requires forall i | 0 <= i < |locks| :: Whole(locks[i].text) && Bare(Decode(locks[i].text), space)
    requires Permuted(ConstraintTexts(server), DecodedTexts(locks))
    requires |Locate(text, OwnFirst(locks, version), version)| == |locks|
    ensures MissingTexts(Trim(Decode(text), space), ConstraintTexts(SortByOrder(server))) == []
  {
    ClientRefinesServer(text, locks, version, server);
    SortedHeld(Decode(text), server);
    AllHeldPermuted(Decode(text), ConstraintTexts(server), DecodedTexts(locks));
    AllHeldStripped(Decode(text), DecodedTexts(locks), space);
    AllHeldPermuted(Trim(Decode(text), space), ConstraintTexts(server), DecodedTexts(locks));
    SortedHeld(Trim(Decode(text), space), server);
  }

  lemma {:induction false} OneLockHeld(text: seq<int>, lock: TextLock)
    ensures AllHeld(text, DecodedTexts([lock])) <==> Holds(text, Decode(lock.text), 1)
  {
    var point := Decode(lock.text);
    assert DecodedTexts([lock]) == [] + [point];
    CountSnoc([], point, point);
    assert Count(DecodedTexts([lock]), point) == 1;
    assert point in DecodedTexts([lock]) && forall f | f in DecodedTexts([lock]) :: f == point;
  }

  /** The exact condition on a lock, of the shown version or another, under which being placed
      by the browser means being held in what the server checks. */
  lemma {:induction false} PlacedMeansHeldStrippedIff(lock: TextLock, version: Option<string>, space: set<int>)
    ensures Whole(lock.text) && Bare(Decode(lock.text), space) <==>
            forall text: seq<Unit> :: |Locate(text, [lock], version)| == 1 ==> AllHeld(Trim(Decode(text), space), DecodedTexts([lock]))
  {
    if Whole(lock.text) && Bare(Decode(lock.text), space) {
      forall text: seq<Unit> | |Locate(text, [lock], version)| == 1 ensures AllHeld(Trim(Decode(text), space), DecodedTexts([lock])) {
        AllPlacedHeld(text, [lock], version);
        AllHeldStripped(Decode(text), DecodedTexts([lock]), space);
      }
    } else {
      var text := StrippedSlipsThrough(lock, version, space);
    }
  }

  /** Half a pair or white space at an end: a text in which the browser places the lock and
      the server misses it. */
  lemma {:induction false} StrippedSlipsThrough(lock: TextLock, version: Option<string>, space: set<int>) returns (text: seq<Unit>)
    requires !(Whole(lock.text) && Bare(Decode(lock.text), space))
    ensures |Locate(text, [lock], version)| == 1 && !AllHeld(Trim(Decode(text), space), DecodedTexts([lock]))
  {
    if !Whole(lock.text) {
      text := HalfPairSlipsThrough(lock, version);
      OneLockHeld(Decode(text), lock);
      if Holds(Trim(Decode(text), space), Decode(lock.text), 1) { HoldsUnstripped(Decode(text), Decode(lock.text), space, 1); }
    } else {
      text := lock.text;
      assert Occurs(text, lock.text, 0);
      OneLockPlaced(text, lock, version, 0);
      StrippingShortens(Decode(lock.text), space);
    }
    OneLockHeld(Trim(Decode(text), space), lock);
  }
}
