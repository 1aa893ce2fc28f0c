/** The browser's lock locator: it gives locks disjoint places in a text of 16-bit
    units, own-version locks first. Shown: the places are sound and maximal, locks of the
    shown version keep their recorded ranges, and a text in which every lock is placed
    passes the server's manual-edit check. */
module Locator {
  import opened Basics
  import opened TextMatch
  import opened Utf16
  import opened Validation

  datatype TextLock = TextLock(
    id: string, text: seq<Unit>, source: Option<string>, start: Option<nat>, end: Option<nat>)

  datatype Range = Range(id: string, start: nat, end: nat)

  /** The test inside `occupied`: the units `from..to` meet the range `r`. */
  predicate Meets(r: Range, from: int, to: int) {
    from < r.end && to > r.start
  }

  predicate Occupied(ranges: seq<Range>, position: int, length: nat) {
    exists i :: 0 <= i < |ranges| && Meets(ranges[i], position, position + length)
  }

  /** The locks that come from the shown version, or the others, in list order. */
  function Select(locks: seq<TextLock>, version: Option<string>, own: bool): (r: seq<TextLock>) {
    if locks == [] then []
    else
      var front, lock := locks[..|locks| - 1], locks[|locks| - 1];
      Select(front, version, own) + (if (lock.source == version) == own then [lock] else [])
  }

  /** All locks of the wanted kind, in list order. */
  lemma {:induction false} SelectFiltered(locks: seq<TextLock>, version: Option<string>, own: bool)
    ensures Filtered(Select(locks, version, own), locks, (lock: TextLock) => (lock.source == version) == own)
  {
    var keep := (lock: TextLock) => (lock.source == version) == own;
    if locks == [] {
      FilteredNone(keep);
    } else {
      var front, last := locks[..|locks| - 1], locks[|locks| - 1];
      var part := Select(front, version, own);
      SelectFiltered(front, version, own);
      FilteredLast(part, Select(locks, version, own), locks, keep);
    }
  }

  /** The stable sort of the source: own-version locks first. */
  function OwnFirst(locks: seq<TextLock>, version: Option<string>): (r: seq<TextLock>) {
    Select(locks, version, true) + Select(locks, version, false)
  }

  /** `text.slice(from, to)` */
  function Slice(text: seq<Unit>, from: nat, to: nat): (r: seq<Unit>) {
    if from <= to <= |text| then text[from..to] else []
  }

  /** The recorded place of an own-version lock if the text still reads so there, else -1. */
  function Recorded(text: seq<Unit>, lock: TextLock, version: Option<string>): (at: int) {
    if lock.source == version && lock.start.Some? && lock.end.Some?
       && Slice(text, Utf16Offset(text, lock.start.value), Utf16Offset(text, lock.end.value)) == lock.text
    then Utf16Offset(text, lock.start.value) else -1
  }

  /** The first unoccupied occurrence at or after `from`, or -1. */
  function FirstFree(text: seq<Unit>, frag: seq<Unit>, ranges: seq<Range>, from: nat): (at: int)
    requires from <= |text|
    decreases |text| - from
  {
    var p := Find(text, frag, from);
    if p < 0 then -1
    else if !Occupied(ranges, p, |frag|) then p
    else if p < |text| then FirstFree(text, frag, ranges, p + 1)
    else -1
  }

  /** The units `at..at + n` share none with a range. */
  predicate Clear(ranges: seq<Range>, at: int, n: nat) {
    forall i | 0 <= i < |ranges| :: at + n <= ranges[i].start || ranges[i].end <= at
  }

  /** `at` is the first place at or after `from` where the text reads `frag` and no range is met,
      or -1 if there is none inside the text. */
  ghost predicate IsFirstFree(text: seq<Unit>, frag: seq<Unit>, ranges: seq<Range>, from: nat, at: int) {
    && at >= -1
    && (at >= 0 ==> from <= at && Occurs(text, frag, at) && Clear(ranges, at, |frag|))
    && (at >= 0 ==> forall q | from <= q < at && Occurs(text, frag, q) :: !Clear(ranges, q, |frag|))
    && (at < 0 ==> forall q | from <= q < |text| && Occurs(text, frag, q) :: !Clear(ranges, q, |frag|))
  }

  lemma {:induction false} FreeFirst(text: seq<Unit>, frag: seq<Unit>, ranges: seq<Range>, from: nat)
    requires from <= |text|
    ensures IsFirstFree(text, frag, ranges, from, FirstFree(text, frag, ranges, from))
    decreases |text| - from
  {
    assert forall q: int :: Occupied(ranges, q, |frag|) <==> !Clear(ranges, q, |frag|);
    FindFirst(text, frag, from);
    var p := Find(text, frag, from);
    if p >= 0 && Occupied(ranges, p, |frag|) && p < |text| { FreeFirst(text, frag, ranges, p + 1); }
  }

  function Place(text: seq<Unit>, lock: TextLock, version: Option<string>, ranges: seq<Range>): (at: int) {
    var at := Recorded(text, lock, version);
    if at < 0 || Occupied(ranges, at, |lock.text|) then FirstFree(text, lock.text, ranges, 0) else at
  }

  /** The ranges after all locks of the sorted list have been tried in turn. */
  function Locate(text: seq<Unit>, sorted: seq<TextLock>, version: Option<string>): (ranges: seq<Range>) {
    if sorted == [] then []
    else
      var lock := sorted[|sorted| - 1];
      var before := Locate(text, sorted[..|sorted| - 1], version);
      var at := Place(text, lock, version, before);
      if at >= 0 then before + [Range(lock.id, at, at + |lock.text|)] else before
  }

  // ---------------------------------------------------------------- soundness

  /** Range `k` is the place of lock `owners[k]`; at most one range per lock, in list order. */
  ghost predicate Sound(text: seq<Unit>, sorted: seq<TextLock>, ranges: seq<Range>, owners: seq<nat>) {
    && |owners| == |ranges|
    && (forall k | 0 <= k < |owners| :: owners[k] < |sorted|)
    && (forall j, k | 0 <= j < k < |owners| :: owners[j] < owners[k])
    && (forall k | 0 <= k < |ranges| :: Spells(text, sorted[owners[k]], ranges[k]))
    && (forall j, k | 0 <= j < k < |ranges| :: !Meets(ranges[j], ranges[k].start, ranges[k].end))
  }

  ghost predicate Spells(text: seq<Unit>, lock: TextLock, r: Range) {
    r.id == lock.id && r.end == r.start + |lock.text| && Occurs(text, lock.text, r.start)
  }

  lemma {:induction false} OffsetInText(t: seq<Unit>, k: nat)
    ensures Utf16Offset(t, k) <= |t|
  {
    if k <= |Pieces(t)| { PrefixPieces(t, k); } else { JoinPieces(t); }
  }

  lemma PlaceSound(text: seq<Unit>, lock: TextLock, version: Option<string>, ranges: seq<Range>)
    ensures
      var at := Place(text, lock, version, ranges);
      at >= 0 ==> Occurs(text, lock.text, at) && !Occupied(ranges, at, |lock.text|)
  {
    FreeFirst(text, lock.text, ranges, 0);
    var at := Recorded(text, lock, version);
    if at >= 0 {
      var end := Utf16Offset(text, lock.end.value);
      OffsetInText(text, lock.start.value);
      if at <= end <= |text| {
        assert text[at..end] == lock.text;
      } else {
        assert lock.text == [] && text[at..at] == [];
      }
    }
  }

  lemma LocateSnoc(text: seq<Unit>, sorted: seq<TextLock>, lock: TextLock, version: Option<string>)
    ensures
      var before := Locate(text, sorted, version);
      var at := Place(text, lock, version, before);
      Locate(text, sorted + [lock], version) ==
      if at >= 0 then before + [Range(lock.id, at, at + |lock.text|)] else before
  {
    assert (sorted + [lock])[..|sorted|] == sorted;
  }

  /** The ranges after lock `i`, from those before it. */
  lemma {:induction false} LocateRound(text: seq<Unit>, sorted: seq<TextLock>, version: Option<string>, i: nat)
    requires i < |sorted|
    ensures
      var before, lock := Locate(text, sorted[..i], version), sorted[i];
      var at := Place(text, lock, version, before);
      Locate(text, sorted[..i + 1], version) == if at >= 0 then before + [Range(lock.id, at, at + |lock.text|)] else before
  {
    LocateSnoc(text, sorted[..i], sorted[i], version);
    assert sorted[..i + 1] == sorted[..i] + [sorted[i]];
  }

  /** One more lock: it stays out, or takes a free occurrence. */
  lemma LocateNext(text: seq<Unit>, sorted: seq<TextLock>, lock: TextLock, version: Option<string>) returns (at: int)
    ensures at >= 0 ==> Occurs(text, lock.text, at) && !Occupied(Locate(text, sorted, version), at, |lock.text|)
    ensures Locate(text, sorted + [lock], version) ==
            if at >= 0 then Locate(text, sorted, version) + [Range(lock.id, at, at + |lock.text|)]
            else Locate(text, sorted, version)
  {
    at := Place(text, lock, version, Locate(text, sorted, version));
    PlaceSound(text, lock, version, Locate(text, sorted, version));
    LocateSnoc(text, sorted, lock, version);
  }

  /** A free occurrence of the next lock keeps the ranges sound. */
  lemma SoundSnoc(text: seq<Unit>, sorted: seq<TextLock>, lock: TextLock, ranges: seq<Range>, owners: seq<nat>, at: nat)
    requires Sound(text, sorted, ranges, owners)
    requires Occurs(text, lock.text, at) && !Occupied(ranges, at, |lock.text|)
    ensures Sound(text, sorted + [lock], ranges + [Range(lock.id, at, at + |lock.text|)], owners + [|sorted|])
  {
    var all, more := sorted + [lock], ranges + [Range(lock.id, at, at + |lock.text|)];
    var names := owners + [|sorted|];
    forall k | 0 <= k < |more| ensures Spells(text, all[names[k]], more[k]) {
      if k < |ranges| { assert Spells(text, sorted[owners[k]], ranges[k]); }
    }
    forall j, k | 0 <= j < k < |more| ensures !Meets(more[j], more[k].start, more[k].end) {
      if k < |ranges| { assert !Meets(ranges[j], ranges[k].start, ranges[k].end); }
    }
  }

  lemma SoundMore(text: seq<Unit>, sorted: seq<TextLock>, lock: TextLock, ranges: seq<Range>, owners: seq<nat>)
    requires Sound(text, sorted, ranges, owners)
    ensures Sound(text, sorted + [lock], ranges, owners)
  {
    forall k | 0 <= k < |ranges| ensures Spells(text, (sorted + [lock])[owners[k]], ranges[k]) {
      assert Spells(text, sorted[owners[k]], ranges[k]);
    }
  }

  lemma SoundStep(text: seq<Unit>, sorted: seq<TextLock>, lock: TextLock, version: Option<string>, owners: seq<nat>)
    returns (more: seq<nat>)
    requires Sound(text, sorted, Locate(text, sorted, version), owners)
    ensures Sound(text, sorted + [lock], Locate(text, sorted + [lock], version), more)
  {
    var before := Locate(text, sorted, version);
    var at := LocateNext(text, sorted, lock, version);
    if at >= 0 {
      SoundSnoc(text, sorted, lock, before, owners, at);
      more := owners + [|sorted|];
    } else {
      SoundMore(text, sorted, lock, before, owners);
      more := owners;
    }
  }

  /** The located ranges are pairwise disjoint, each spells its lock, at most one per lock. */
  lemma {:induction false} LocateSound(text: seq<Unit>, sorted: seq<TextLock>, version: Option<string>) returns (owners: seq<nat>)
    ensures Sound(text, sorted, Locate(text, sorted, version), owners)
  {
    if sorted == [] {
      owners := [];
    } else {
      var front, lock := sorted[..|sorted| - 1], sorted[|sorted| - 1];
      owners := LocateSound(text, front, version);
      owners := SoundStep(text, front, lock, version, owners);
      assert sorted == front + [lock];
    }
  }

  /** Increasing positions: position `k` is at least `k`; if all are taken, it is `k`. */
  lemma {:induction false} OwnersInOrder(owners: seq<nat>, n: nat, k: nat)
    requires forall i | 0 <= i < |owners| :: owners[i] < n
    requires forall i, j | 0 <= i < j < |owners| :: owners[i] < owners[j]
    requires k < |owners|
    ensures k <= owners[k] <= n - |owners| + k
  {
    if k > 0 { OwnersInOrder(owners[..|owners| - 1], owners[|owners| - 1], k - 1); }
    if k + 1 < |owners| { OwnersInOrder(owners[..|owners| - 1], owners[|owners| - 1], k); }
  }

  /** A lock stays unplaced only if every occurrence of its text meets a placed range. */
  lemma {:induction false} LocateMaximal(text: seq<Unit>, sorted: seq<TextLock>, version: Option<string>, i: nat)
    requires i < |sorted| && |sorted[i].text| > 0
    ensures Settled(text, sorted[i], Locate(text, sorted, version))
  {
    var last := |sorted| - 1;
    LocateRound(text, sorted, version, last);
    assert sorted[..last + 1] == sorted;
    if i < last {
      LocateMaximal(text, sorted[..last], version, i);
      SettledKept(text, sorted[i], Locate(text, sorted[..last], version), Locate(text, sorted, version));
    } else {
      LastSettled(text, sorted[last], version, Locate(text, sorted[..last], version), Locate(text, sorted, version));
    }
  }

  /** The lock has a range, or every occurrence of its text meets one. */
  ghost predicate Settled(text: seq<Unit>, lock: TextLock, ranges: seq<Range>) {
    || (exists k :: 0 <= k < |ranges| && Spells(text, lock, ranges[k]))
    || (forall p | Occurs(text, lock.text, p) :: Occupied(ranges, p, |lock.text|))
  }

  lemma SettledKept(text: seq<Unit>, lock: TextLock, before: seq<Range>, ranges: seq<Range>)
    requires before <= ranges && Settled(text, lock, before)
    ensures Settled(text, lock, ranges)
  {
    if k :| 0 <= k < |before| && Spells(text, lock, before[k]) {
      assert Spells(text, lock, ranges[k]);
    } else {
      forall p | Occurs(text, lock.text, p) ensures Occupied(ranges, p, |lock.text|) {
        var k :| 0 <= k < |before| && Meets(before[k], p, p + |lock.text|);
        assert Meets(ranges[k], p, p + |lock.text|);
      }
    }
  }

  lemma {:induction false} LastSettled(text: seq<Unit>, lock: TextLock, version: Option<string>, before: seq<Range>, ranges: seq<Range>)
    requires |lock.text| > 0
    requires
      var at := Place(text, lock, version, before);
      ranges == if at >= 0 then before + [Range(lock.id, at, at + |lock.text|)] else before
    ensures Settled(text, lock, ranges)
  {
    PlaceSound(text, lock, version, before);
    FreeFirst(text, lock.text, before, 0);
    if Place(text, lock, version, before) >= 0 { assert Spells(text, lock, ranges[|before|]); }
  }

  // ---------------------------------------------------------------- own-version locks

  /** The server's record of a lock on the shown version: the text it cut from the code
      points of the version, and the offsets of the cut. */
  predicate Matches(text: seq<Unit>, lock: TextLock) {
    && lock.start.Some? && lock.end.Some?
    && lock.start.value < lock.end.value <= |Decode(text)|
    && Decode(lock.text) == Decode(text)[lock.start.value..lock.end.value]
  }

  /** Two locks whose code-point ranges do not overlap. */
  predicate Separate(a: TextLock, b: TextLock) {
    && a.start.Some? && a.end.Some? && b.start.Some? && b.end.Some?
    && (a.end.value <= b.start.value || b.end.value <= a.start.value)
  }

  /** Locks of the shown version that match it and do not overlap. */
  predicate Untouched(text: seq<Unit>, own: seq<TextLock>, version: Option<string>) {
    && (forall i | 0 <= i < |own| :: own[i].source == version && Matches(text, own[i]))
    && (forall i, j | 0 <= i < j < |own| :: Separate(own[i], own[j]))
  }

  function RecordedRange(text: seq<Unit>, lock: TextLock): (r: Range) {
    if lock.start.Some? && lock.end.Some?
    then Range(lock.id, Utf16Offset(text, lock.start.value), Utf16Offset(text, lock.end.value))
    else Range(lock.id, 0, 0)
  }

  lemma MatchesRecorded(text: seq<Unit>, lock: TextLock, version: Option<string>)
    requires Matches(text, lock) && lock.source == version
    ensures Recorded(text, lock, version) == RecordedRange(text, lock).start
    ensures RecordedRange(text, lock).end == RecordedRange(text, lock).start + |lock.text|
  {
    var s, e := lock.start.value, lock.end.value;
    SliceSpells(text, s, e);
    DecodeInjective(lock.text, text[Utf16Offset(text, s)..Utf16Offset(text, e)]);
  }

  lemma {:induction false} MatchesPlaced(text: seq<Unit>, lock: TextLock, version: Option<string>, ranges: seq<Range>)
    requires Matches(text, lock) && lock.source == version
    requires forall i | 0 <= i < |ranges| :: !Meets(ranges[i], RecordedRange(text, lock).start, RecordedRange(text, lock).end)
    ensures Place(text, lock, version, ranges) == RecordedRange(text, lock).start >= 0
    ensures RecordedRange(text, lock).end == RecordedRange(text, lock).start + |lock.text|
  {
    MatchesRecorded(text, lock, version);
  }

  lemma SeparateFree(text: seq<Unit>, a: TextLock, b: TextLock)
    requires Matches(text, a) && Matches(text, b) && Separate(a, b)
    ensures var r := RecordedRange(text, b); !Meets(RecordedRange(text, a), r.start, r.end)
  {
    OffsetMonotone(text, a.start.value, a.end.value);
    OffsetMonotone(text, b.start.value, b.end.value);
    if a.end.value <= b.start.value {
      OffsetMonotone(text, a.end.value, b.start.value);
    } else {
      OffsetMonotone(text, b.end.value, a.start.value);
    }
  }

  lemma {:induction false} OwnLockNext(text: seq<Unit>, front: seq<TextLock>, lock: TextLock, version: Option<string>, before: seq<Range>)
    requires Matches(text, lock) && lock.source == version && before == Locate(text, front, version)
    requires forall i | 0 <= i < |before| :: !Meets(before[i], RecordedRange(text, lock).start, RecordedRange(text, lock).end)
    ensures Locate(text, front + [lock], version) == before + [RecordedRange(text, lock)]
  {
    LocateSnoc(text, front, lock, version);
    MatchesPlaced(text, lock, version, before);
  }

  /** Locks of the shown version that match it and do not overlap land exactly at their
      recorded ranges. */
  lemma {:induction false} OwnLocksLand(text: seq<Unit>, own: seq<TextLock>, version: Option<string>)
    requires Untouched(text, own, version)
    ensures |Locate(text, own, version)| == |own|
    ensures forall i | 0 <= i < |own| :: Locate(text, own, version)[i] == RecordedRange(text, own[i])
  {
    if own != [] {
      var last := |own| - 1;
      OwnLocksLand(text, own[..last], version);
      var before := Locate(text, own[..last], version);
      forall i | 0 <= i < |before| ensures !Meets(before[i], RecordedRange(text, own[last]).start, RecordedRange(text, own[last]).end) {
        assert Separate(own[i], own[last]);
        SeparateFree(text, own[i], own[last]);
      }
      OwnLockNext(text, own[..last], own[last], version, before);
      assert own == own[..last] + [own[last]];
    }
  }

  lemma {:induction false} LocateExtends(text: seq<Unit>, first: seq<TextLock>, more: seq<TextLock>, version: Option<string>)
    ensures Locate(text, first, version) <= Locate(text, first + more, version)
  {
    if more == [] {
      assert first + more == first;
    } else {
      LocateExtends(text, first, more[..|more| - 1], version);
      assert (first + more)[..|first + more| - 1] == first + more[..|more| - 1];
    }
  }

  /** ... whatever other locks are listed, in whatever order. */
  lemma OwnRangesKept(text: seq<Unit>, locks: seq<TextLock>, version: Option<string>)
    requires Untouched(text, Select(locks, version, true), version)
    ensures
      var own, ranges := Select(locks, version, true), Locate(text, OwnFirst(locks, version), version);
      |own| <= |ranges| && forall i | 0 <= i < |own| :: ranges[i] == RecordedRange(text, own[i])
  {
    var own := Select(locks, version, true);
    OwnLocksLand(text, own, version);
    LocateExtends(text, own, Select(locks, version, false), version);
  }

  // ---------------------------------------------------------------- the client check refines the server check

  /** The lock's text starts and ends at a code-point boundary wherever it stands. */
  predicate Whole(frag: seq<Unit>) {
    frag != [] ==> !IsLow(frag[0]) && !IsHigh(frag[|frag| - 1])
  }

  function DecodedTexts(locks: seq<TextLock>): (texts: seq<seq<int>>)
    ensures |texts| == |locks|
    ensures forall i | 0 <= i < |locks| :: texts[i] == Decode(locks[i].text)
  {
    seq(|locks|, i requires 0 <= i < |locks| => Decode(locks[i].text))
  }

  lemma WholeAligned(text: seq<Unit>, frag: seq<Unit>, at: nat)
    requires Occurs(text, frag, at) && frag != [] && Whole(frag)
    ensures Boundary(text, at) && Boundary(text, at + |frag|)
  {
    assert text[at] == frag[0] && text[at + |frag| - 1] == frag[|frag| - 1];
  }

  /** The code-point place of an empty text is of no consequence; any will do. */
  function DecodedStart(text: seq<Unit>, frag: seq<Unit>, at: nat): (k: nat) {
    if frag == [] then 0 else CodePointOffset(text, at)
  }

  lemma DecodedPlace(text: seq<Unit>, frag: seq<Unit>, at: nat)
    requires Occurs(text, frag, at) && Whole(frag)
    ensures Occurs(Decode(text), Decode(frag), DecodedStart(text, frag, at))
  {
    if frag == [] {
      assert Decode(frag) == [];
    } else {
      WholeAligned(text, frag, at);
      OccursDecoded(text, frag, at);
    }
  }

  lemma DecodedAfter(text: seq<Unit>, frag: seq<Unit>, a: nat, b: nat)
    requires Occurs(text, frag, a) && Occurs(text, frag, b) && Whole(frag) && a + |frag| <= b
    ensures DecodedStart(text, frag, a) + |Decode(frag)| <= DecodedStart(text, frag, b)
  {
    if frag == [] {
      assert Decode(frag) == [];
    } else {
      WholeAligned(text, frag, a);
      OccursDecoded(text, frag, a);
      CodePointOffsetMonotone(text, a + |frag|, b);
    }
  }

  /** All locks placed: the decoded text gives every lock its own place. */
  lemma {:induction false} AllPlacedHeld(text: seq<Unit>, sorted: seq<TextLock>, version: Option<string>)
    requires forall i | 0 <= i < |sorted| :: Whole(sorted[i].text)
    requires |Locate(text, sorted, version)| == |sorted|
    ensures AllHeld(Decode(text), DecodedTexts(sorted))
  {
    var ranges := AllPlaced(text, sorted, version);
    var starts := seq(|sorted|, i requires 0 <= i < |sorted| => DecodedStart(text, sorted[i].text, ranges[i].start));
    var texts := DecodedTexts(sorted);
    forall i | 0 <= i < |sorted| ensures Occurs(Decode(text), texts[i], starts[i]) {
      assert Spells(text, sorted[i], ranges[i]);
      DecodedPlace(text, sorted[i].text, ranges[i].start);
    }
    forall i, j | 0 <= i < j < |sorted| && texts[i] == texts[j] ensures Apart(starts[i], starts[j], |texts[i]|) {
      assert Spells(text, sorted[i], ranges[i]) && Spells(text, sorted[j], ranges[j]);
      DecodedApart(text, sorted[i], sorted[j], ranges[i], ranges[j]);
    }
    AssignedHeld(Decode(text), texts, starts);
  }

  /** As many ranges as locks: each lock has its range, in list order. */
  lemma {:induction false} AllPlaced(text: seq<Unit>, sorted: seq<TextLock>, version: Option<string>) returns (ranges: seq<Range>)
    requires |Locate(text, sorted, version)| == |sorted|
    ensures |ranges| == |sorted| && (forall i | 0 <= i < |sorted| :: Spells(text, sorted[i], ranges[i]))
    ensures forall i, j | 0 <= i < j < |ranges| :: !Meets(ranges[i], ranges[j].start, ranges[j].end)
  {
    var owners := LocateSound(text, sorted, version);
    ranges := Locate(text, sorted, version);
    forall i | 0 <= i < |sorted| ensures Spells(text, sorted[i], ranges[i]) {
      OwnersInOrder(owners, |sorted|, i);
      assert Spells(text, sorted[owners[i]], ranges[i]);
    }
  }

  /** Ranges of equal texts that share no unit share no code point. */
  lemma {:induction false} DecodedApart(text: seq<Unit>, a: TextLock, b: TextLock, r: Range, q: Range)
    requires Spells(text, a, r) && Spells(text, b, q) && Whole(a.text) && Whole(b.text)
    requires Decode(a.text) == Decode(b.text) && !Meets(r, q.start, q.end)
    ensures Apart(DecodedStart(text, a.text, r.start), DecodedStart(text, b.text, q.start), |Decode(a.text)|)
  {
    DecodeInjective(a.text, b.text);
    if r.end <= q.start {
      DecodedAfter(text, a.text, r.start, q.start);
    } else {
      DecodedAfter(text, a.text, q.start, r.start);
    }
  }

  lemma {:induction false} CountConcat<T>(a: seq<seq<T>>, b: seq<seq<T>>, f: seq<T>)
    ensures Count(a + b, f) == Count(a, f) + Count(b, f)
  {
    if b == [] {
      assert a + b == a;
    } else {
      CountConcat(a, b[..|b| - 1], f);
      assert (a + b)[..|a + b| - 1] == a + b[..|b| - 1];
    }
  }

  lemma {:induction false} DecodedCount(locks: seq<TextLock>, lock: TextLock, f: seq<int>)
    ensures Count(DecodedTexts(locks + [lock]), f) == Count(DecodedTexts(locks), f) + if Decode(lock.text) == f then 1 else 0
  {
    assert DecodedTexts(locks + [lock]) == DecodedTexts(locks) + [Decode(lock.text)];
    CountSnoc(DecodedTexts(locks), Decode(lock.text), f);
  }

  lemma {:induction false} SelectCounts(locks: seq<TextLock>, version: Option<string>, f: seq<int>)
    ensures Count(DecodedTexts(Select(locks, version, true)), f) + Count(DecodedTexts(Select(locks, version, false)), f)
            == Count(DecodedTexts(locks), f)
  {
    if locks == [] {
      assert DecodedTexts(locks) == [];
    } else {
      var front, lock := locks[..|locks| - 1], locks[|locks| - 1];
      SelectCounts(front, version, f);
      var own := lock.source == version;
      assert locks == front + [lock];
      DecodedCount(front, lock, f);
      assert Select(locks, version, own) == Select(front, version, own) + [lock];
      DecodedCount(Select(front, version, own), lock, f);
      assert Select(locks, version, !own) == Select(front, version, !own);
    }
  }

  /** If the browser places every lock in a text, the server's manual-edit validator reports
      nothing on that text. */
  lemma {:induction false} ClientRefinesServer(text: seq<Unit>, locks: seq<TextLock>, version: Option<string>, server: seq<Constraint<int>>)
    requires forall i | 0 <= i < |locks| :: Whole(locks[i].text)
    requires Permuted(ConstraintTexts(server), DecodedTexts(locks))
    requires |Locate(text, OwnFirst(locks, version), version)| == |locks|
    ensures MissingTexts(Decode(text), ConstraintTexts(SortByOrder(server))) == []
  {
    var sorted := OwnFirst(locks, version);
    SelectSize(locks, version);
    AllPlacedHeld(text, sorted, version);
    forall f: seq<int> ensures Count(DecodedTexts(sorted), f) == Count(ConstraintTexts(server), f) {
      OwnFirstCounts(locks, version, f);
      assert Count(ConstraintTexts(server), f) == Count(DecodedTexts(locks), f);
    }
    AllHeldPermuted(Decode(text), DecodedTexts(sorted), ConstraintTexts(server));
    SortedHeld(Decode(text), server);
  }

  lemma {:induction false} OwnFirstCounts(locks: seq<TextLock>, version: Option<string>, f: seq<int>)
    ensures Count(DecodedTexts(OwnFirst(locks, version)), f) == Count(DecodedTexts(locks), f)
  {
    var a, b := DecodedTexts(Select(locks, version, true)), DecodedTexts(Select(locks, version, false));
    assert DecodedTexts(OwnFirst(locks, version)) == a + b;
    CountConcat(a, b, f);
    SelectCounts(locks, version, f);
  }

  lemma {:induction false} SelectSize(locks: seq<TextLock>, version: Option<string>)
    ensures |OwnFirst(locks, version)| == |locks|
    ensures (forall i | 0 <= i < |locks| :: Whole(locks[i].text)) ==>
              forall i | 0 <= i < |OwnFirst(locks, version)| :: Whole(OwnFirst(locks, version)[i].text)
  {
    if locks != [] {
      var front, lock := locks[..|locks| - 1], locks[|locks| - 1];
      SelectSize(front, version);
      if forall i | 0 <= i < |locks| :: Whole(locks[i].text) {
        assert forall x | x in OwnFirst(front, version) :: Whole(x.text);
        forall i | 0 <= i < |OwnFirst(locks, version)| ensures Whole(OwnFirst(locks, version)[i].text) {
          var x := OwnFirst(locks, version)[i];
          assert x == lock || x in OwnFirst(front, version);
        }
      }
    }
  }

  /** Without the boundary condition the refinement fails: a lock that starts with a low or
      ends with a high surrogate is placed inside a pair the server reads as one point. */
  lemma {:induction false} HalfPairSlipsThrough(lock: TextLock, version: Option<string>) returns (text: seq<Unit>)
    requires !Whole(lock.text)
    ensures |Locate(text, [lock], version)| == 1
    ensures !AllHeld(Decode(text), DecodedTexts([lock]))
  {
    var frag := lock.text;
    var low: bool := IsLow(frag[0]);
    text := if low then [0xD800] + frag else frag + [0xDC00];
    assert Occurs(text, frag, if low then 1 else 0);
    OneLockPlaced(text, lock, version, if low then 1 else 0);
    HalfPairLength(frag, text, low);
    SameLengthNotHeld(text, frag);
    OneLockNotHeld(text, lock);
  }

  lemma {:induction false} OneLockPlaced(text: seq<Unit>, lock: TextLock, version: Option<string>, at: nat)
    requires Occurs(text, lock.text, at)
    ensures |Locate(text, [lock], version)| == 1
  {
    LocateSnoc(text, [], lock, version);
    assert [] + [lock] == [lock];
    FindAt(text, lock.text, 0, at);
  }

  lemma {:induction false} OneLockNotHeld(text: seq<Unit>, lock: TextLock)
    requires !Holds(Decode(text), Decode(lock.text), 1)
    ensures !AllHeld(Decode(text), DecodedTexts([lock]))
  {
    var point := Decode(lock.text);
    assert DecodedTexts([lock]) == [] + [point];
    CountSnoc([], point, point);
    assert point in DecodedTexts([lock]);
  }

  lemma SameLengthNotHeld(text: seq<Unit>, frag: seq<Unit>)
    requires text != frag && |Decode(text)| == |Decode(frag)|
    ensures !Holds(Decode(text), Decode(frag), 1)
  {
    if Holds(Decode(text), Decode(frag), 1) {
      var starts: seq<int> :| |starts| == 1 && Placed(Decode(text), Decode(frag), starts);
      assert Occurs(Decode(text), Decode(frag), starts[0]);
      assert Decode(text)[0..|Decode(frag)|] == Decode(text);
      DecodeInjective(text, frag);
    }
  }

  lemma HalfPairLength(frag: seq<Unit>, text: seq<Unit>, low: bool)
    requires frag != []
    requires if low then IsLow(frag[0]) && text == [0xD800] + frag else IsHigh(frag[|frag| - 1]) && text == frag + [0xDC00]
    ensures |Decode(text)| == |Decode(frag)|
  {
    if low {
      assert text[Width(text)..] == frag[1..];
      assert Width(frag) == 1;
    } else {
      var k := |frag| - 1;
      PiecesSplit(frag, k);
      PiecesSplit(text, k);
      assert text[..k] == frag[..k] && text[k..] == [frag[k], 0xDC00] && frag[k..] == [frag[k]];
      assert text[k..][2..] == [] && frag[k..][1..] == [];
    }
  }

  /** The exact condition on a lock text under which being placed means being held. */
  lemma PlacedMeansHeldIffWhole(lock: TextLock, version: Option<string>)
    ensures Whole(lock.text) <==>
            forall text: seq<Unit> :: |Locate(text, [lock], version)| == 1 ==> AllHeld(Decode(text), DecodedTexts([lock]))
  {
    if Whole(lock.text) {
      forall text: seq<Unit> | |Locate(text, [lock], version)| == 1 ensures AllHeld(Decode(text), DecodedTexts([lock])) {
        AllPlacedHeld(text, [lock], version);
      }
    } else {
      var text := HalfPairSlipsThrough(lock, version);
    }
  }

  // ---------------------------------------------------------------- the loop

  predicate Inside(ranges: seq<Range>, length: nat) {
    forall k | 0 <= k < |ranges| :: ranges[k].end <= length
  }

  /** The `indexOf` loop: the first occurrence that meets no range. It terminates because
      an occupied position lies before the end of a range, hence inside the text. */
  method FindFree(text: seq<Unit>, frag: seq<Unit>, ranges: seq<Range>) returns (start: int)
    requires Inside(ranges, |text|)
    ensures start == FirstFree(text, frag, ranges, 0) && IsFirstFree(text, frag, ranges, 0, start)
  {
    FreeFirst(text, frag, ranges, 0);
    start := FindOccurs(text, frag, 0);
    while start >= 0 && Occupied(ranges, start, |frag|)
      invariant -1 <= start <= |text| && (start >= 0 ==> Occurs(text, frag, start))
      invariant FirstFree(text, frag, ranges, 0) == if start < 0 then -1 else FirstFree(text, frag, ranges, start)
      decreases if start < 0 then 0 else |text| + 1 - start
    {
      OccupiedInside(ranges, start, |frag|, |text|);
      FreeNext(text, frag, ranges, start);
      start := FindOccurs(text, frag, start + 1);
    }
  }

  /** `indexOf` */
  method FindOccurs(text: seq<Unit>, frag: seq<Unit>, from: nat) returns (p: int)
    requires from <= |text|
    ensures p == Find(text, frag, from) && -1 <= p <= |text| && (p >= 0 ==> from <= p && Occurs(text, frag, p))
  {
    FindFirst(text, frag, from);
    p := Find(text, frag, from);
  }

  lemma OccupiedInside(ranges: seq<Range>, start: int, n: nat, length: nat)
    requires Occupied(ranges, start, n) && Inside(ranges, length)
    ensures start < length
  {
  }

  /** An occupied occurrence is passed over. */
  lemma {:induction false} FreeNext(text: seq<Unit>, frag: seq<Unit>, ranges: seq<Range>, at: nat)
    requires Occurs(text, frag, at) && at < |text| && Occupied(ranges, at, |frag|)
    ensures
      var next := Find(text, frag, at + 1);
      FirstFree(text, frag, ranges, at) == if next < 0 then -1 else FirstFree(text, frag, ranges, next)
  {
    assert Find(text, frag, at) == at;
    var next := Find(text, frag, at + 1);
    FindFirst(text, frag, at + 1);
    if next >= 0 { assert Find(text, frag, next) == next; }
  }

  /** The recorded range of a lock of the shown version if the text reads so there and it is
      free, else the first free occurrence, else -1. */
  ghost predicate IsPlace(text: seq<Unit>, lock: TextLock, version: Option<string>, ranges: seq<Range>, start: int) {
    var own := lock.source == version && lock.start.Some? && lock.end.Some?;
    var from, to := if own then Utf16Offset(text, lock.start.value) else 0, if own then Utf16Offset(text, lock.end.value) else 0;
    if own && Slice(text, from, to) == lock.text && Clear(ranges, from, |lock.text|)
    then start == from else IsFirstFree(text, lock.text, ranges, 0, start)
  }

  /** The place of one lock: its recorded range, or the first free occurrence. */
  method PlaceLock(text: seq<Unit>, lock: TextLock, version: Option<string>, ranges: seq<Range>) returns (start: int)
    requires Inside(ranges, |text|)
    ensures start == Place(text, lock, version, ranges)
    ensures
      IsPlace(text, lock, version, ranges, start)
  {
    start := -1;
    assert forall q: int :: Occupied(ranges, q, |lock.text|) <==> !Clear(ranges, q, |lock.text|);
    if lock.source == version && lock.start.Some? && lock.end.Some? {
      var offset := Utf16Offset(text, lock.start.value);
      if Slice(text, offset, Utf16Offset(text, lock.end.value)) == lock.text {
        start := offset;
      }
    }
    if start < 0 || Occupied(ranges, start, |lock.text|) {
      start := FindFree(text, lock.text, ranges);
    }
  }

  /** `locateLocks` */
  method LocateLocks(text: seq<Unit>, locks: seq<TextLock>, version: Option<string>) returns (ranges: seq<Range>)
    ensures ranges == Locate(text, OwnFirst(locks, version), version)
  {
    ranges := [];
    var sorted := OwnFirst(locks, version);
    for i := 0 to |sorted|
      invariant ranges == Locate(text, sorted[..i], version)
    {
      ranges := PlaceNext(text, sorted, version, i, ranges);
    }
    assert sorted[..|sorted|] == sorted;
  }

  /** One round of the loop. */
  method PlaceNext(text: seq<Unit>, sorted: seq<TextLock>, version: Option<string>, i: nat, ranges: seq<Range>)
    returns (more: seq<Range>)
    requires i < |sorted| && ranges == Locate(text, sorted[..i], version)
    ensures more == Locate(text, sorted[..i + 1], version)
    ensures exists start: int {:trigger IsPlace(text, sorted[i], version, ranges, start)} ::
      && IsPlace(text, sorted[i], version, ranges, start)
      && more == if start < 0 then ranges else ranges + [Range(sorted[i].id, start, start + |sorted[i].text|)]
  {
    var lock := sorted[i];
    RangesInside(text, sorted[..i], version, ranges);
    LocateRound(text, sorted, version, i);
    var start := PlaceLock(text, lock, version, ranges);
    more := ranges;
    if start >= 0 {
      more := more + [Range(lock.id, start, start + |lock.text|)];
    }
  }

  lemma {:induction false} RangesInside(text: seq<Unit>, sorted: seq<TextLock>, version: Option<string>, ranges: seq<Range>)
    requires ranges == Locate(text, sorted, version)
    ensures Inside(ranges, |text|)
  {
    var owners := LocateSound(text, sorted, version);
    forall k | 0 <= k < |ranges| ensures ranges[k].end <= |text| {
      assert Spells(text, sorted[owners[k]], ranges[k]);
    }
  }
}
