/** The two server validators of exact text preservation: the one that judges AI
    revisions (`validate_locked_fragments`, `validate_selection_revision`) and the one
    that judges manual edits (`validate_lock_constraints`). */
module Validation {
  import opened TextMatch

  /** A locked fragment as the AI module sees it. */
  datatype Fragment<T> = Fragment(id: string, text: seq<T>)

  /** A locked fragment as the manual-edit check sees it. */
  datatype Constraint<T> = Constraint(text: seq<T>, order: int)

  datatype Violation = OutsideChanged | MissingFragment(id: string)

  function Texts<T>(fragments: seq<Fragment<T>>): (texts: seq<seq<T>>)
    ensures |texts| == |fragments|
    ensures forall i | 0 <= i < |texts| :: texts[i] == fragments[i].text
  {
    seq(|fragments|, i requires 0 <= i < |fragments| => fragments[i].text)
  }

  function ConstraintTexts<T>(locks: seq<Constraint<T>>): (texts: seq<seq<T>>)
    ensures |texts| == |locks|
    ensures forall i | 0 <= i < |texts| :: texts[i] == locks[i].text
  {
    seq(|locks|, i requires 0 <= i < |locks| => locks[i].text)
  }

  // ---------------------------------------------------------------- counting

  /** How many entries of the list read `f`. */
  function Count<T(==)>(list: seq<seq<T>>, f: seq<T>): (n: nat) {
    if list == [] then 0
    else Count(list[..|list| - 1], f) + (if list[|list| - 1] == f then 1 else 0)
  }

  lemma {:induction false} CountIn<T>(list: seq<seq<T>>, f: seq<T>)
    ensures Count(list, f) > 0 <==> f in list
  {
    if list != [] { CountIn(list[..|list| - 1], f); }
  }

  lemma CountSnoc<T>(list: seq<seq<T>>, x: seq<T>, f: seq<T>)
    ensures Count(list + [x], f) == Count(list, f) + (if x == f then 1 else 0)
  {
    assert (list + [x])[..|list|] == list;
  }

  lemma {:induction false} CountCons<T>(x: seq<T>, list: seq<seq<T>>, f: seq<T>)
    ensures Count([x] + list, f) == Count(list, f) + (if x == f then 1 else 0)
  {
    if list == [] {
      assert [x] + list == [x];
      CountSnoc([], x, f);
      assert [] + [x] == [x];
    } else {
      var front, y := list[..|list| - 1], list[|list| - 1];
      CountCons(x, front, f);
      assert list == front + [y] && [x] + list == ([x] + front) + [y];
      CountSnoc(front, y, f);
      CountSnoc([x] + front, y, f);
    }
  }

  /** Two lists with the same entries, each equally often. */
  ghost predicate Permuted<T(!new)>(a: seq<seq<T>>, b: seq<seq<T>>) {
    forall f: seq<T> :: Count(a, f) == Count(b, f)
  }

  lemma {:induction false} CountIsMultiplicity<T>(list: seq<seq<T>>, f: seq<T>)
    ensures Count(list, f) == multiset(list)[f]
  {
    if list != [] {
      CountIsMultiplicity(list[..|list| - 1], f);
      assert list == list[..|list| - 1] + [list[|list| - 1]];
    }
  }

  lemma PermutedLength<T(!new)>(a: seq<seq<T>>, b: seq<seq<T>>)
    requires Permuted(a, b)
    ensures |a| == |b| && multiset(a) == multiset(b)
  {
    forall f: seq<T> ensures multiset(a)[f] == multiset(b)[f] {
      assert Count(a, f) == Count(b, f);
      CountIsMultiplicity(a, f);
      CountIsMultiplicity(b, f);
    }
    assert multiset(a) == multiset(b);
    assert |multiset(a)| == |a| && |multiset(b)| == |b|;
  }

  // ---------------------------------------------------------------- specification

  /** What the locks ask of a text: each distinct fragment has as many pairwise disjoint
      occurrences as there are locks with that text. */
  ghost predicate AllHeld<T(!new)>(text: seq<T>, locks: seq<seq<T>>) {
    forall f | f in locks :: Holds(text, f, Count(locks, f))
  }

  /** The locks reported missing: those whose rank among the locks of the same text
      exceeds what the text has room for. */
  ghost function MissingTexts<T>(text: seq<T>, locks: seq<seq<T>>): (missing: seq<seq<T>>) {
    if locks == [] then []
    else
      var last := |locks| - 1;
      MissingTexts(text, locks[..last]) +
      (if Holds(text, locks[last], Count(locks, locks[last])) then [] else [locks[last]])
  }

  /** The same report, naming fragments by id. */
  ghost function MissingIds<T>(text: seq<T>, fragments: seq<Fragment<T>>): (missing: seq<string>) {
    if fragments == [] then []
    else
      var last := fragments[|fragments| - 1];
      MissingIds(text, fragments[..|fragments| - 1]) +
      (if Holds(text, last.text, Count(Texts(fragments), last.text)) then [] else [last.id])
  }

  /** The report, one lock later. */
  lemma MissingSnoc<T>(text: seq<T>, locks: seq<seq<T>>, x: seq<T>)
    ensures MissingTexts(text, locks + [x]) ==
            if Holds(text, x, Count(locks, x) + 1) then MissingTexts(text, locks) else MissingTexts(text, locks) + [x]
  {
    assert (locks + [x])[..|locks|] == locks;
    CountSnoc(locks, x, x);
  }

  lemma MissingIdsSnoc<T>(text: seq<T>, fragments: seq<Fragment<T>>, x: Fragment<T>)
    ensures MissingIds(text, fragments + [x]) ==
            if Holds(text, x.text, Count(Texts(fragments), x.text) + 1)
            then MissingIds(text, fragments) else MissingIds(text, fragments) + [x.id]
    ensures Texts(fragments + [x]) == Texts(fragments) + [x.text]
  {
    assert (fragments + [x])[..|fragments|] == fragments;
    assert Texts(fragments + [x]) == Texts(fragments) + [x.text];
    CountSnoc(Texts(fragments), x.text, x.text);
  }

  /** Both forms of the report have the same length. */
  lemma {:induction false} MissingSameLength<T>(text: seq<T>, fragments: seq<Fragment<T>>)
    ensures |MissingIds(text, fragments)| == |MissingTexts(text, Texts(fragments))|
  {
    if fragments != [] {
      var front, x := fragments[..|fragments| - 1], fragments[|fragments| - 1];
      assert fragments == front + [x];
      MissingSameLength(text, front);
      MissingIdsSnoc(text, front, x);
      MissingSnoc(text, Texts(front), x.text);
    }
  }

  lemma CapacityStep<T>(text: seq<T>, frag: seq<T>, n: nat)
    ensures Capacity(text, frag, n + 1) == if Holds(text, frag, n + 1) then n + 1 else Capacity(text, frag, n)
    ensures Holds(text, frag, n + 1) ==> Capacity(text, frag, n) == n
  {
    if Holds(text, frag, n + 1) { HoldsFewer(text, frag, n + 1, n); }
  }

  /** Per fragment, the number of reported locks is the shortfall of disjoint occurrences. */
  lemma {:induction false} MissingIsShortfall<T>(text: seq<T>, locks: seq<seq<T>>, f: seq<T>)
    ensures Count(MissingTexts(text, locks), f)
            == Count(locks, f) - Capacity(text, f, Count(locks, f))
  {
    if locks != [] {
      var front, x := locks[..|locks| - 1], locks[|locks| - 1];
      MissingIsShortfall(text, front, f);
      var room, before := RoomForLast(text, locks);
      CountLast(locks, f);
      CountSnoc(before, x, f);
      if x == f { assert Count(locks, f) == Count(front, f) + 1; } else { assert Count(locks, f) == Count(front, f); }
    }
  }

  lemma {:induction false} CountLast<T>(list: seq<seq<T>>, f: seq<T>)
    requires list != []
    ensures Count(list, f) == Count(list[..|list| - 1], f) + if list[|list| - 1] == f then 1 else 0
  {
  }

  /** Whether the last lock finds room; the report and the capacity for its text before and after. */
  lemma {:induction false} RoomForLast<T>(text: seq<T>, locks: seq<seq<T>>) returns (room: bool, before: seq<seq<T>>)
    requires locks != []
    ensures
      var front, x := locks[..|locks| - 1], locks[|locks| - 1];
      && before == MissingTexts(text, front) && MissingTexts(text, locks) == (if room then before else before + [x])
      && Capacity(text, x, Count(front, x) + 1) == (if room then Count(front, x) + 1 else Capacity(text, x, Count(front, x)))
      && (room ==> Capacity(text, x, Count(front, x)) == Count(front, x))
  {
    var front, x := locks[..|locks| - 1], locks[|locks| - 1];
    room, before := Holds(text, x, Count(front, x) + 1), MissingTexts(text, front);
    CapacityStep(text, x, Count(front, x));
  }

  // ---------------------------------------------------------------- the total

  /** The distinct texts of a list, in order of first appearance. */
  function DistinctTexts<T(==)>(list: seq<seq<T>>): (d: seq<seq<T>>)
    ensures (forall f | f in d :: f in list) && (forall f | f in list :: f in d)
    ensures forall i, j | 0 <= i < j < |d| :: d[i] != d[j]
  {
    if list == [] then []
    else
      var front, x := DistinctTexts(list[..|list| - 1]), list[|list| - 1];
      if x in front then front else front + [x]
  }

  /** How many entries of the list read one of the given texts, text by text. */
  function CountAll<T(==)>(list: seq<seq<T>>, texts: seq<seq<T>>): (n: nat) {
    if texts == [] then 0 else CountAll(list, texts[..|texts| - 1]) + Count(list, texts[|texts| - 1])
  }

  /** The locks on a text for which the candidate has no room. */
  ghost function Shortfall<T>(text: seq<T>, locks: seq<seq<T>>, f: seq<T>): (n: nat) {
    Count(locks, f) - Capacity(text, f, Count(locks, f))
  }

  ghost function ShortfallSum<T>(text: seq<T>, locks: seq<seq<T>>, texts: seq<seq<T>>): (n: nat) {
    if texts == [] then 0
    else ShortfallSum(text, locks, texts[..|texts| - 1]) + Shortfall(text, locks, texts[|texts| - 1])
  }

  lemma {:induction false} CountAllSnoc<T>(list: seq<seq<T>>, x: seq<T>, texts: seq<seq<T>>)
    requires forall i, j | 0 <= i < j < |texts| :: texts[i] != texts[j]
    ensures CountAll(list + [x], texts) == CountAll(list, texts) + if x in texts then 1 else 0
  {
    if texts != [] {
      var front, last := texts[..|texts| - 1], texts[|texts| - 1];
      CountAllSnoc(list, x, front);
      CountAllLast(list, texts);
      CountAllLast(list + [x], texts);
      CountSnoc(list, x, last);
      InLast(texts, x);
    }
  }

  lemma {:induction false} CountAllLast<T>(list: seq<seq<T>>, texts: seq<seq<T>>)
    requires texts != []
    ensures CountAll(list, texts) == CountAll(list, texts[..|texts| - 1]) + Count(list, texts[|texts| - 1])
  {
  }

  lemma InLast<T>(texts: seq<seq<T>>, x: seq<T>)
    requires texts != [] && forall i, j | 0 <= i < j < |texts| :: texts[i] != texts[j]
    ensures x in texts <==> x in texts[..|texts| - 1] || x == texts[|texts| - 1]
    ensures texts[|texts| - 1] !in texts[..|texts| - 1]
  {
  }

  lemma {:induction false} CountAllNone<T>(texts: seq<seq<T>>)
    ensures CountAll<T>([], texts) == 0
  {
    if texts != [] { CountAllNone(texts[..|texts| - 1]); }
  }

  /** A list whose entries all read one of the distinct texts is counted in full. */
  lemma {:induction false} CountAllIsLength<T>(list: seq<seq<T>>, texts: seq<seq<T>>)
    requires (forall i, j | 0 <= i < j < |texts| :: texts[i] != texts[j]) && forall f | f in list :: f in texts
    ensures CountAll(list, texts) == |list|
  {
    if list == [] {
      CountAllNone(texts);
    } else {
      var front, x := list[..|list| - 1], list[|list| - 1];
      assert list == front + [x];
      CountAllIsLength(front, texts);
      CountAllSnoc(front, x, texts);
    }
  }

  lemma {:induction false} CountAllIsShortfall<T>(text: seq<T>, locks: seq<seq<T>>, texts: seq<seq<T>>)
    ensures CountAll(MissingTexts(text, locks), texts) == ShortfallSum(text, locks, texts)
  {
    if texts != [] {
      CountAllIsShortfall(text, locks, texts[..|texts| - 1]);
      MissingIsShortfall(text, locks, texts[|texts| - 1]);
    }
  }

  lemma {:induction false} MissingAreLocks<T>(text: seq<T>, locks: seq<seq<T>>, f: seq<T>)
    requires f in MissingTexts(text, locks)
    ensures f in locks
  {
    CountIn(MissingTexts(text, locks), f);
    MissingIsShortfall(text, locks, f);
    CountIn(locks, f);
  }

  /** The number of reported locks is the sum of the shortfalls over the distinct texts. */
  lemma {:induction false} TotalIsSumOfShortfalls<T>(text: seq<T>, locks: seq<seq<T>>)
    ensures |MissingTexts(text, locks)| == ShortfallSum(text, locks, DistinctTexts(locks))
  {
    var missing, texts := MissingTexts(text, locks), DistinctTexts(locks);
    forall f | f in missing ensures f in texts { MissingAreLocks(text, locks, f); }
    CountAllIsLength(missing, texts);
    CountAllIsShortfall(text, locks, texts);
  }

  /** Nothing is reported iff every fragment is held often enough. */
  lemma {:induction false} NothingMissing<T(!new)>(text: seq<T>, locks: seq<seq<T>>)
    ensures MissingTexts(text, locks) == [] <==> AllHeld(text, locks)
  {
    var texts := MissingTexts(text, locks);
    if texts == [] {
      forall f | f in locks ensures Holds(text, f, Count(locks, f)) {
        MissingIsShortfall(text, locks, f);
        CapacityFull(text, f, Count(locks, f));
      }
    } else {
      CountIn(texts, texts[0]);
      CountIn(locks, texts[0]);
      MissingIsShortfall(text, locks, texts[0]);
    }
  }

  lemma CapacityFull<T>(text: seq<T>, frag: seq<T>, n: nat)
    requires Capacity(text, frag, n) == n
    ensures Holds(text, frag, n)
  {
    if n == 0 {
      var none: seq<int> := [];
      assert Placed(text, frag, none);
    }
  }

  /** The order in which locks are listed never matters: permuted lists report the
      same texts, each as often. */
  lemma LockOrderIrrelevant<T(!new)>(text: seq<T>, locks: seq<seq<T>>, permuted: seq<seq<T>>)
    requires Permuted(locks, permuted)
    ensures Permuted(MissingTexts(text, locks), MissingTexts(text, permuted))
    ensures |MissingTexts(text, locks)| == |MissingTexts(text, permuted)|
  {
    var a, b := MissingTexts(text, locks), MissingTexts(text, permuted);
    forall f: seq<T> ensures Count(a, f) == Count(b, f) {
      assert Count(locks, f) == Count(permuted, f);
      MissingIsShortfall(text, locks, f);
      MissingIsShortfall(text, permuted, f);
    }
    PermutedLength(a, b);
  }

  // ---------------------------------------------------------------- one place per lock

  /** One place for each lock: every lock occurs at its place, and the places of locks
      with the same text are disjoint. */
  ghost predicate Assigned<T>(text: seq<T>, locks: seq<seq<T>>, starts: seq<int>) {
    && |starts| == |locks|
    && (forall i | 0 <= i < |locks| :: Occurs(text, locks[i], starts[i]))
    && (forall i, j | 0 <= i < j < |locks| && locks[i] == locks[j] :: Apart(starts[i], starts[j], |locks[i]|))
  }

  /** Giving every lock its own place is enough for the validators. */
  lemma AssignedHeld<T(!new)>(text: seq<T>, locks: seq<seq<T>>, starts: seq<int>)
    requires Assigned(text, locks, starts)
    ensures AllHeld(text, locks)
  {
    forall f | f in locks ensures Holds(text, f, Count(locks, f)) {
      var places, _ := PlacesOf(text, locks, starts, f);
      assert Placed(text, f, places);
    }
  }

  /** The places of the locks that read `f`, with the lock each one comes from. */
  lemma {:induction false} PlacesOf<T>(text: seq<T>, locks: seq<seq<T>>, starts: seq<int>, f: seq<T>)
    returns (places: seq<int>, source: seq<nat>)
    requires Assigned(text, locks, starts)
    ensures |places| == |source| == Count(locks, f) && Placed(text, f, places)
    ensures forall k | 0 <= k < |source| :: source[k] < |locks| && locks[source[k]] == f && starts[source[k]] == places[k]
  {
    if locks == [] {
      places, source := [], [];
    } else {
      var last := |locks| - 1;
      assert Assigned(text, locks[..last], starts[..last]);
      places, source := PlacesOf(text, locks[..last], starts[..last], f);
      if locks[last] == f {
        forall k | 0 <= k < |places| ensures Apart(places[k], starts[last], |f|) {
          assert Apart(starts[source[k]], starts[last], |locks[source[k]]|);
        }
        places, source := places + [starts[last]], source + [last];
      }
    }
  }

  // ---------------------------------------------------------------- the validators

  /** `cursors.get(text, 0)` */
  function CursorOf<T(==)>(cursors: map<seq<T>, nat>, f: seq<T>): (cursor: nat) {
    if f in cursors then cursors[f] else 0
  }

  /** Every cursor stands where the searches for its own text have left it. */
  ghost predicate Tracks<T(!new)>(text: seq<T>, locks: seq<seq<T>>, cursors: map<seq<T>, nat>) {
    forall f: seq<T> {:trigger CursorOf(cursors, f)} :: CursorOf(cursors, f) == Advance(text, f, 0, Count(locks, f))
  }

  /** One more search for `f` succeeds iff one more disjoint occurrence exists. */
  lemma SearchExact<T>(text: seq<T>, f: seq<T>, n: nat)
    ensures
      var p := Find(text, f, Advance(text, f, 0, n));
      && (p >= 0 <==> Holds(text, f, n + 1))
      && Advance(text, f, 0, n + 1) == (if p < 0 then Advance(text, f, 0, n) else p + |f|)
  {
    AdvanceOnce(text, f, 0, n);
    GreedyOnce(text, f, 0, n);
    GreedyExact(text, f, n + 1);
    if Greedy(text, f, 0, n) < n { GreedyStuck(text, f, 0, n); }
  }

  /** The cursors after a search for `x` that returned `p`. */
  function Moved<T(==, !new)>(cursors: map<seq<T>, nat>, x: seq<T>, p: int): (next: map<seq<T>, nat>)
    ensures forall f :: CursorOf(next, f) == if p >= 0 && f == x then p + |x| else CursorOf(cursors, f)
  {
    if p < 0 then cursors else cursors[x := p + |x|]
  }

  /** One round of either validator loop, for the next lock `x`. */
  lemma {:induction false} SearchStep<T(!new)>(text: seq<T>, locks: seq<seq<T>>, x: seq<T>, cursors: map<seq<T>, nat>, p: int)
    requires Tracks(text, locks, cursors) && CursorOf(cursors, x) <= |text| && p == Find(text, x, CursorOf(cursors, x))
    ensures p >= 0 <==> Holds(text, x, Count(locks, x) + 1)
    ensures Tracks(text, locks + [x], Moved(cursors, x, p))
  {
    SearchExact(text, x, Count(locks, x));
    forall f: seq<T> ensures CursorOf(Moved(cursors, x, p), f) == Advance(text, f, 0, Count(locks + [x], f)) {
      assert CursorOf(cursors, f) == Advance(text, f, 0, Count(locks, f));
      CursorStep(text, locks, x, cursors, p, f);
    }
  }

  lemma {:induction false} CursorStep<T(!new)>(text: seq<T>, locks: seq<seq<T>>, x: seq<T>, cursors: map<seq<T>, nat>, p: int, f: seq<T>)
    requires CursorOf(cursors, x) == Advance(text, x, 0, Count(locks, x)) && p == Find(text, x, CursorOf(cursors, x))
    requires CursorOf(cursors, f) == Advance(text, f, 0, Count(locks, f))
    ensures CursorOf(Moved(cursors, x, p), f) == Advance(text, f, 0, Count(locks + [x], f))
  {
    CountSnoc(locks, x, f);
    SearchExact(text, x, Count(locks, x));
  }

  /** One round of the loop below. */
  lemma {:induction false} FragmentRound<T(!new)>(candidate: seq<T>, done: seq<Fragment<T>>, x: Fragment<T>, cursors: map<seq<T>, nat>, p: int)
    requires Tracks(candidate, Texts(done), cursors) && CursorOf(cursors, x.text) <= |candidate|
    requires p == Find(candidate, x.text, CursorOf(cursors, x.text))
    ensures Tracks(candidate, Texts(done + [x]), Moved(cursors, x.text, p))
    ensures MissingIds(candidate, done + [x]) == MissingIds(candidate, done) + if p >= 0 then [] else [x.id]
  {
    SearchStep(candidate, Texts(done), x.text, cursors, p);
    MissingIdsSnoc(candidate, done, x);
  }

  /** `validate_locked_fragments`: the ids of the fragments reported missing. */
  method ValidateLockedFragments<T(==, !new)>(candidate: seq<T>, fragments: seq<Fragment<T>>)
    returns (violations: seq<string>)
    ensures violations == MissingIds(candidate, fragments)
    ensures violations == [] <==> AllHeld(candidate, Texts(fragments))
  {
    violations := [];
    var cursors: map<seq<T>, nat> := map[];
    for i := 0 to |fragments|
      invariant Tracks(candidate, Texts(fragments[..i]), cursors)
      invariant violations == MissingIds(candidate, fragments[..i])
    {
      var fragment := fragments[i];
      CursorInside(candidate, Texts(fragments[..i]), cursors, fragment.text);
      var position := Find(candidate, fragment.text, CursorOf(cursors, fragment.text));
      FragmentRound(candidate, fragments[..i], fragment, cursors, position);
      assert fragments[..i + 1] == fragments[..i] + [fragment];
      if position >= 0 {
        cursors := cursors[fragment.text := position + |fragment.text|];
      } else {
        violations := violations + [fragment.id];
      }
    }
    assert fragments[..|fragments|] == fragments;
    NothingMissing(candidate, Texts(fragments));
    MissingSameLength(candidate, fragments);
  }

  /** Insertion of one lock into a list sorted by order index, after its equals. */
  function Insert<T>(lock: Constraint<T>, sorted: seq<Constraint<T>>): (r: seq<Constraint<T>>) {
    if sorted == [] || lock.order < sorted[0].order then [lock] + sorted
    else [sorted[0]] + Insert(lock, sorted[1..])
  }

  /** `sorted(locks, key=lambda item: item.order_index)`, which is stable. */
  function SortByOrder<T>(locks: seq<Constraint<T>>): (sorted: seq<Constraint<T>>) {
    if locks == [] then [] else
      var last := |locks| - 1;
      Insert(locks[last], SortByOrder(locks[..last]))
  }

  predicate InOrder<T>(locks: seq<Constraint<T>>) {
    forall i, j | 0 <= i < j < |locks| :: locks[i].order <= locks[j].order
  }

  lemma {:induction false} InsertPermutes<T>(lock: Constraint<T>, sorted: seq<Constraint<T>>, f: seq<T>)
    ensures Count(ConstraintTexts(Insert(lock, sorted)), f)
            == Count(ConstraintTexts(sorted), f) + (if lock.text == f then 1 else 0)
  {
    if sorted == [] || lock.order < sorted[0].order {
      TextsCons(lock, sorted, f);
    } else {
      InsertPermutes(lock, sorted[1..], f);
      TextsCons(sorted[0], Insert(lock, sorted[1..]), f);
      TextsCons(sorted[0], sorted[1..], f);
      assert [sorted[0]] + sorted[1..] == sorted;
    }
  }

  lemma {:induction false} TextsCons<T>(lock: Constraint<T>, rest: seq<Constraint<T>>, f: seq<T>)
    ensures Count(ConstraintTexts([lock] + rest), f) == Count(ConstraintTexts(rest), f) + if lock.text == f then 1 else 0
  {
    assert ConstraintTexts([lock] + rest) == [lock.text] + ConstraintTexts(rest);
    CountCons(lock.text, ConstraintTexts(rest), f);
  }

  lemma {:induction false} InsertInOrder<T>(lock: Constraint<T>, sorted: seq<Constraint<T>>)
    requires InOrder(sorted)
    ensures InOrder(Insert(lock, sorted))
    ensures Insert(lock, sorted)[0] == lock || (sorted != [] && Insert(lock, sorted)[0] == sorted[0])
  {
    if sorted != [] && lock.order >= sorted[0].order {
      InsertInOrder(lock, sorted[1..]);
      var tail := Insert(lock, sorted[1..]);
      forall k | 0 <= k < |tail| ensures sorted[0].order <= tail[k].order {
        assert k == 0 || tail[0].order <= tail[k].order;
      }
    }
  }

  /** Sorting keeps the locked texts and puts the locks in index order. */
  lemma {:induction false} SortPermutes<T(!new)>(locks: seq<Constraint<T>>)
    ensures Permuted(ConstraintTexts(SortByOrder(locks)), ConstraintTexts(locks))
    ensures InOrder(SortByOrder(locks))
  {
    if locks != [] {
      var front, lock := locks[..|locks| - 1], locks[|locks| - 1];
      SortPermutes(front);
      InsertInOrder(lock, SortByOrder(front));
      assert ConstraintTexts(locks) == ConstraintTexts(front) + [lock.text];
      forall f: seq<T> ensures Count(ConstraintTexts(SortByOrder(locks)), f) == Count(ConstraintTexts(locks), f) {
        assert Count(ConstraintTexts(SortByOrder(front)), f) == Count(ConstraintTexts(front), f);
        InsertPermutes(lock, SortByOrder(front), f);
        CountSnoc(ConstraintTexts(front), lock.text, f);
      }
    }
  }

  /** One round of the loop below. */
  lemma {:induction false} ConstraintRound<T(!new)>(content: seq<T>, done: seq<seq<T>>, x: seq<T>, cursors: map<seq<T>, nat>, p: int)
    requires Tracks(content, done, cursors) && CursorOf(cursors, x) <= |content| && p == Find(content, x, CursorOf(cursors, x))
    ensures Tracks(content, done + [x], Moved(cursors, x, p))
    ensures MissingTexts(content, done + [x]) == MissingTexts(content, done) + if p >= 0 then [] else [x]
  {
    SearchStep(content, done, x, cursors, p);
    MissingSnoc(content, done, x);
  }

  /** A cursor stands inside the text. */
  lemma {:induction false} CursorInside<T(!new)>(text: seq<T>, locks: seq<seq<T>>, cursors: map<seq<T>, nat>, f: seq<T>)
    requires Tracks(text, locks, cursors)
    ensures CursorOf(cursors, f) <= |text|
  {
  }

  /** `validate_lock_constraints`: the texts of the locks reported missing. */
  method ValidateLockConstraints<T(==, !new)>(content: seq<T>, locks: seq<Constraint<T>>) returns (failures: seq<seq<T>>)
    ensures failures == MissingTexts(content, ConstraintTexts(SortByOrder(locks)))
    ensures failures == [] <==> AllHeld(content, ConstraintTexts(locks))
  {
    failures := CollectMissing(content, SortByOrder(locks));
    SortedHeld(content, locks);
  }

  /** The loop over the sorted locks. */
  method CollectMissing<T(==, !new)>(content: seq<T>, sorted: seq<Constraint<T>>) returns (failures: seq<seq<T>>)
    ensures failures == MissingTexts(content, ConstraintTexts(sorted))
  {
    failures := [];
    var cursors: map<seq<T>, nat> := map[];
    ghost var texts := ConstraintTexts(sorted);
    for i := 0 to |sorted|
      invariant Tracks(content, texts[..i], cursors) && failures == MissingTexts(content, texts[..i])
    {
      var text := sorted[i].text;
      var found;
      found, cursors := FindLocked(content, texts[..i], text, cursors);
      assert texts[..i + 1] == texts[..i] + [text];
      if !found {
        failures := failures + [text];
      }
    }
    assert texts[..|texts|] == texts;
  }

  /** One search, from the cursor of its text; a hit moves that cursor behind it. */
  method FindLocked<T(==, !new)>(content: seq<T>, ghost done: seq<seq<T>>, text: seq<T>, cursors: map<seq<T>, nat>)
    returns (found: bool, moved: map<seq<T>, nat>)
    requires Tracks(content, done, cursors)
    ensures Tracks(content, done + [text], moved)
    ensures MissingTexts(content, done + [text]) == MissingTexts(content, done) + if found then [] else [text]
  {
    CursorInside(content, done, cursors, text);
    var position := Find(content, text, CursorOf(cursors, text));
    ConstraintRound(content, done, text, cursors, position);
    found := position >= 0;
    moved := if found then cursors[text := position + |text|] else cursors;
  }

  /** Sorting does not change what the report says about passing. */
  lemma SortedHeld<T(!new)>(content: seq<T>, locks: seq<Constraint<T>>)
    ensures MissingTexts(content, ConstraintTexts(SortByOrder(locks))) == [] <==> AllHeld(content, ConstraintTexts(locks))
  {
    NothingMissing(content, ConstraintTexts(SortByOrder(locks)));
    SortPermutes(locks);
    AllHeldPermuted(content, ConstraintTexts(SortByOrder(locks)), ConstraintTexts(locks));
  }

  lemma AllHeldPermuted<T(!new)>(text: seq<T>, locks: seq<seq<T>>, permuted: seq<seq<T>>)
    requires Permuted(locks, permuted)
    ensures AllHeld(text, locks) <==> AllHeld(text, permuted)
  {
    forall f: seq<T> ensures (f in locks <==> f in permuted) && Count(locks, f) == Count(permuted, f) {
      CountIn(locks, f);
      CountIn(permuted, f);
    }
  }

  /** Both server implementations agree on every text and every lock list: they report
      the same fragments, each equally often. */
  lemma ValidatorsAgree<T(!new)>(text: seq<T>, fragments: seq<Fragment<T>>, locks: seq<Constraint<T>>)
    requires Permuted(Texts(fragments), ConstraintTexts(locks))
    ensures
      var a, b := Texts(fragments), ConstraintTexts(SortByOrder(locks));
      && Permuted(MissingTexts(text, a), MissingTexts(text, b))
      && |MissingIds(text, fragments)| == |MissingTexts(text, b)|
  {
    SortPermutes(locks);
    var a, b := Texts(fragments), ConstraintTexts(SortByOrder(locks));
    forall f: seq<T> ensures Count(a, f) == Count(b, f) {
      assert Count(a, f) == Count(ConstraintTexts(locks), f) == Count(b, f);
    }
    LockOrderIrrelevant(text, a, b);
    MissingSameLength(text, fragments);
  }

  // ---------------------------------------------------------------- selection revisions

  /** `text[:n]` and `text[n:]`, which clamp an offset past the end. */
  function Take<T>(text: seq<T>, n: nat): (r: seq<T>) {
    if n <= |text| then text[..n] else text
  }

  function Drop<T>(text: seq<T>, n: nat): (r: seq<T>) {
    if n <= |text| then text[n..] else []
  }

  /** The candidate keeps what stands before and after the selection. */
  ghost predicate KeepsOutside<T(!new)>(parent: seq<T>, candidate: seq<T>, start: nat, end: nat) {
    exists middle: seq<T> :: candidate == Take(parent, start) + middle + Drop(parent, end)
  }

  function MissingViolations(ids: seq<string>): (r: seq<Violation>)
    ensures |r| == |ids|
    ensures forall i | 0 <= i < |ids| :: r[i] == MissingFragment(ids[i])
  {
    seq(|ids|, i requires 0 <= i < |ids| => MissingFragment(ids[i]))
  }

  /** `validate_selection_revision`: passes iff the candidate is prefix + some middle + suffix
      and every lock is held. */
  method ValidateSelectionRevision<T(==, !new)>(
    parent: seq<T>, candidate: seq<T>, start: nat, end: nat, fragments: seq<Fragment<T>>)
    returns (violations: seq<Violation>)
    ensures violations == [] <==> KeepsOutside(parent, candidate, start, end) && AllHeld(candidate, Texts(fragments))
    ensures violations ==
            (if KeepsOutside(parent, candidate, start, end) then [] else [OutsideChanged])
            + MissingViolations(MissingIds(candidate, fragments))
  {
    var prefix, suffix := Take(parent, start), Drop(parent, end);
    var outsideUnchanged :=
      |candidate| >= |prefix| + |suffix| && prefix <= candidate && candidate[|candidate| - |suffix|..] == suffix;
    if outsideUnchanged {
      assert candidate == prefix + candidate[|prefix|..|candidate| - |suffix|] + suffix;
    }
    violations := [];
    if !outsideUnchanged {
      violations := violations + [OutsideChanged];
    }
    var missing := ValidateLockedFragments(candidate, fragments);
    violations := violations + MissingViolations(missing);
  }

  /** A place outside the selection, carried over to a candidate that keeps the outside. */
  function Carried(start: nat, shift: int, at: int, length: nat): (moved: int) {
    if at + length <= start then at else at + shift
  }

  lemma OccursCarried<T>(prefix: seq<T>, cut: seq<T>, middle: seq<T>, suffix: seq<T>, frag: seq<T>, at: int)
    requires Occurs(prefix + cut + suffix, frag, at)
    requires at + |frag| <= |prefix| || |prefix| + |cut| <= at
    ensures Occurs(prefix + middle + suffix, frag, Carried(|prefix|, |middle| - |cut|, at, |frag|))
  {
    var parent, candidate := prefix + cut + suffix, prefix + middle + suffix;
    var to := Carried(|prefix|, |middle| - |cut|, at, |frag|);
    if at + |frag| <= |prefix| {
      assert candidate[to..to + |frag|] == prefix[at..at + |frag|] == parent[at..at + |frag|];
    } else {
      var off := at - |prefix| - |cut|;
      assert candidate[to..to + |frag|] == suffix[off..off + |frag|] == parent[at..at + |frag|];
    }
  }

  /** If every lock has its own place outside the selection, no candidate that keeps the
      outside can fail the lock check. */
  lemma OutsideLocksSurvive<T(!new)>(
    parent: seq<T>, candidate: seq<T>, start: nat, end: nat, locks: seq<seq<T>>, starts: seq<int>)
    requires start <= end <= |parent| && KeepsOutside(parent, candidate, start, end)
    requires Assigned(parent, locks, starts)
    requires forall i | 0 <= i < |locks| :: starts[i] + |locks[i]| <= start || end <= starts[i]
    ensures AllHeld(candidate, locks)
  {
    var middle: seq<T> :| candidate == Take(parent, start) + middle + Drop(parent, end);
    var shift := |middle| - (end - start);
    var moved := seq(|locks|, i requires 0 <= i < |locks| => Carried(start, shift, starts[i], |locks[i]|));
    forall i | 0 <= i < |locks| ensures Occurs(candidate, locks[i], moved[i]) {
      assert Occurs(parent, locks[i], starts[i]);
      OccursMoved(parent, middle, start, end, locks[i], starts[i]);
    }
    forall i, j | 0 <= i < j < |locks| && locks[i] == locks[j] ensures Apart(moved[i], moved[j], |locks[i]|) {
      assert Occurs(parent, locks[i], starts[i]) && Occurs(parent, locks[j], starts[j]);
      ApartMoved(start, end, shift, starts[i], starts[j], |locks[i]|);
    }
    AssignedHeld(candidate, locks, moved);
  }

  lemma OccursMoved<T>(parent: seq<T>, middle: seq<T>, start: nat, end: nat, frag: seq<T>, at: int)
    requires start <= end <= |parent| && Occurs(parent, frag, at) && (at + |frag| <= start || end <= at)
    ensures Occurs(Take(parent, start) + middle + Drop(parent, end), frag, Carried(start, |middle| - (end - start), at, |frag|))
  {
    assert parent == parent[..start] + parent[start..end] + parent[end..];
    OccursCarried(parent[..start], parent[start..end], middle, parent[end..], frag, at);
  }

  lemma ApartMoved(start: nat, end: nat, shift: int, a: int, b: int, length: nat)
    requires start <= end && shift >= start - end && Apart(a, b, length)
    requires (a + length <= start || end <= a) && (b + length <= start || end <= b)
    ensures Apart(Carried(start, shift, a, length), Carried(start, shift, b, length), length)
  {
  }
}
