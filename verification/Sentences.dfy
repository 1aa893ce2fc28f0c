/** `sentenceSelections`: a text cut into sentences, each cut further into locked and
    free parts. The segmenter is taken as any split into consecutive segments. */
module Sentences {
  import opened Basics
  import opened TextMatch
  import opened Utf16
  import opened Locator
  import opened Trimming

  datatype Part = Part(text: seq<Unit>, locked: bool)

  /** A sentence at unit offset `at`; the server is sent the code-point offsets of its ends. */
  datatype Sentence = Sentence(
    text: seq<Unit>, at: nat, leading: seq<Unit>, trailing: seq<Unit>, parts: seq<Part>, lockIds: seq<string>)

  /** `segment.slice(0, segment.length - segment.trimStart().length)` */
  function Leading(segment: seq<Unit>, space: set<Unit>): (r: seq<Unit>) {
    segment[..Lead(segment, space)]
  }

  /** `segment.trim() ? segment.slice(segment.trimEnd().length) : ''` */
  function Trailing(segment: seq<Unit>, space: set<Unit>): (r: seq<Unit>) {
    if Trim(segment, space) != [] then segment[Tail(segment, space)..] else []
  }

  /** `[...new Set(points)].sort(...)`, one point at a time. */
  function InsertOnce(x: int, sorted: seq<int>): (r: seq<int>) {
    if sorted == [] || x < sorted[0] then [x] + sorted
    else if x == sorted[0] then sorted
    else [sorted[0]] + InsertOnce(x, sorted[1..])
  }

  function SortOnce(points: seq<int>): (sorted: seq<int>) {
    if points == [] then [] else InsertOnce(points[|points| - 1], SortOnce(points[..|points| - 1]))
  }

  /** The ranges that meet the sentence `start..end`. */
  function Overlaps(ranges: seq<Range>, start: nat, end: nat): (r: seq<Range>) {
    if ranges == [] then []
    else
      var last := ranges[|ranges| - 1];
      Overlaps(ranges[..|ranges| - 1], start, end) + (if Meets(last, start, end) then [last] else [])
  }

  lemma {:induction false} OverlapsMeet(ranges: seq<Range>, start: nat, end: nat)
    ensures forall x :: x in Overlaps(ranges, start, end) <==> x in ranges && Meets(x, start, end)
  {
    if ranges != [] { OverlapsMeet(ranges[..|ranges| - 1], start, end); }
  }

  /** `met` are the ranges that meet `start..end`, in order. */
  ghost predicate AllMeeting(met: seq<Range>, ranges: seq<Range>, start: nat, end: nat) {
    Filtered(met, ranges, (r: Range) => r.start < end && start < r.end)
  }

  lemma {:induction false} OverlapsFiltered(ranges: seq<Range>, start: nat, end: nat)
    ensures AllMeeting(Overlaps(ranges, start, end), ranges, start, end)
  {
    var keep := (r: Range) => r.start < end && start < r.end;
    if ranges == [] {
      FilteredNone(keep);
    } else {
      var front, last := ranges[..|ranges| - 1], ranges[|ranges| - 1];
      var part := Overlaps(front, start, end);
      OverlapsFiltered(front, start, end);
      FilteredLast(part, Overlaps(ranges, start, end), ranges, keep);
    }
  }

  /** The ends of the overlapping ranges, clipped to the sentence. */
  function Ends(overlaps: seq<Range>, start: nat, end: nat): (r: seq<int>) {
    if overlaps == [] then []
    else
      var last := overlaps[|overlaps| - 1];
      Ends(overlaps[..|overlaps| - 1], start, end)
      + [if last.start > start then last.start else start, if last.end < end then last.end else end]
  }

  function Boundaries(overlaps: seq<Range>, start: nat, end: nat): (r: seq<int>) {
    SortOnce([start, end] + Ends(overlaps, start, end))
  }

  predicate Locked(overlaps: seq<Range>, from: int, to: int) {
    exists i :: 0 <= i < |overlaps| && overlaps[i].start <= from && overlaps[i].end >= to
  }

  function PartsOf(text: seq<Unit>, overlaps: seq<Range>, bounds: seq<int>): (parts: seq<Part>)
    requires forall i | 0 <= i < |bounds| :: 0 <= bounds[i] <= |text|
    requires forall i, j | 0 <= i < j < |bounds| :: bounds[i] < bounds[j]
  {
    if |bounds| < 2 then []
    else [Part(text[bounds[0]..bounds[1]], Locked(overlaps, bounds[0], bounds[1]))] + PartsOf(text, overlaps, bounds[1..])
  }

  function Ids(ranges: seq<Range>): (ids: seq<string>) {
    seq(|ranges|, i requires 0 <= i < |ranges| => ranges[i].id)
  }

  /** The parts of the sentence `start..end`. */
  function Cut(text: seq<Unit>, start: nat, end: nat, ranges: seq<Range>): (parts: seq<Part>)
    requires start <= end <= |text|
  {
    var overlaps := Overlaps(ranges, start, end);
    OverlapsMeet(ranges, start, end);
    BoundariesWithin(overlaps, start, end);
    PartsOf(text, overlaps, Boundaries(overlaps, start, end))
  }

  function SentenceOf(text: seq<Unit>, segment: seq<Unit>, index: nat, ranges: seq<Range>, space: set<Unit>): (s: Sentence)
    requires Occurs(text, segment, index)
  {
    var start := index + |Leading(segment, space)|;
    var end := start + |Trim(segment, space)|;
    Sentence(Trim(segment, space), start, Leading(segment, space), Trailing(segment, space),
             Cut(text, start, end, ranges), Ids(Overlaps(ranges, start, end)))
  }

  function JoinParts(parts: seq<Part>): (t: seq<Unit>) {
    if parts == [] then [] else parts[0].text + JoinParts(parts[1..])
  }

  // ---------------------------------------------------------------- nothing is lost

  /** Leading, sentence and trailing rejoin to the segment. */
  lemma SegmentRejoins(segment: seq<Unit>, space: set<Unit>)
    ensures Leading(segment, space) + Trim(segment, space) + Trailing(segment, space) == segment
  {
    TrimIsMiddle(segment, space);
  }

  predicate AllSpace(s: seq<Unit>, space: set<Unit>) {
    forall i | 0 <= i < |s| :: s[i] in space
  }

  /** The sentence has no white space at either end; what stands before and after it is white
      space; it is empty only if the segment is all white space. */
  lemma SentenceIsBare(text: seq<Unit>, segment: seq<Unit>, index: nat, ranges: seq<Range>, space: set<Unit>)
    requires Occurs(text, segment, index)
    ensures
      var s := SentenceOf(text, segment, index, ranges, space);
      && Bare(s.text, space) && AllSpace(s.leading, space) && AllSpace(s.trailing, space)
      && (s.text == [] <==> AllSpace(segment, space))
  {
    TrimIsBare(segment, space);
    LeadIsSpace(segment, space);
    TailIsSpace(segment, space);
  }

  // ---------------------------------------------------------------- boundaries

  predicate Increasing(s: seq<int>) {
    forall i, j | 0 <= i < j < |s| :: s[i] < s[j]
  }

  lemma {:induction false} InsertOnceSorted(x: int, sorted: seq<int>)
    requires Increasing(sorted)
    ensures Increasing(InsertOnce(x, sorted))
    ensures forall y :: y in InsertOnce(x, sorted) <==> y == x || y in sorted
  {
    if sorted != [] && x > sorted[0] {
      InsertOnceSorted(x, sorted[1..]);
      var tail := InsertOnce(x, sorted[1..]);
      forall k | 0 <= k < |tail| ensures sorted[0] < tail[k] {
        assert tail[k] in tail;
      }
      assert sorted == [sorted[0]] + sorted[1..];
    }
  }

  lemma {:induction false} SortOnceSorted(points: seq<int>)
    ensures Increasing(SortOnce(points))
    ensures forall y :: y in SortOnce(points) <==> y in points
  {
    if points != [] {
      SortOnceSorted(points[..|points| - 1]);
      InsertOnceSorted(points[|points| - 1], SortOnce(points[..|points| - 1]));
      assert points == points[..|points| - 1] + [points[|points| - 1]];
    }
  }

  lemma {:induction false} EndsWithin(overlaps: seq<Range>, start: nat, end: nat)
    requires start <= end && forall r | r in overlaps :: Meets(r, start, end)
    ensures forall y | y in Ends(overlaps, start, end) :: start <= y <= end
    ensures forall r | r in overlaps :: (if r.start > start then r.start else start) in Ends(overlaps, start, end)
                                        && (if r.end < end then r.end else end) in Ends(overlaps, start, end)
  {
    if overlaps != [] {
      var front, last := overlaps[..|overlaps| - 1], overlaps[|overlaps| - 1];
      EndsWithin(front, start, end);
      var pair := [if last.start > start then last.start else start, if last.end < end then last.end else end];
      assert Ends(overlaps, start, end) == Ends(front, start, end) + pair;
      assert pair[0] in pair && pair[1] in pair;
      assert last in overlaps;
    }
  }

  lemma BoundariesWithin(overlaps: seq<Range>, start: nat, end: nat)
    requires start <= end && forall r | r in overlaps :: Meets(r, start, end)
    ensures
      var bounds := Boundaries(overlaps, start, end);
      && Increasing(bounds) && |bounds| > 0 && bounds[0] == start && bounds[|bounds| - 1] == end
      && (forall i | 0 <= i < |bounds| :: start <= bounds[i] <= end)
      && (forall r | r in overlaps :: (if r.start > start then r.start else start) in bounds
                                      && (if r.end < end then r.end else end) in bounds)
  {
    var points := [start, end] + Ends(overlaps, start, end);
    EndsWithin(overlaps, start, end);
    SortOnceSorted(points);
    var bounds := Boundaries(overlaps, start, end);
    assert start in points && end in points;
    assert start in bounds && end in bounds;
    forall i | 0 <= i < |bounds| ensures start <= bounds[i] <= end {
      assert bounds[i] in bounds;
    }
    FirstAndLast(bounds, start, end);
  }

  lemma FirstAndLast(bounds: seq<int>, start: int, end: int)
    requires Increasing(bounds) && start in bounds && end in bounds
    requires forall i | 0 <= i < |bounds| :: start <= bounds[i] <= end
    ensures |bounds| > 0 && bounds[0] == start && bounds[|bounds| - 1] == end
  {
  }

  // ---------------------------------------------------------------- parts

  /** The parts between boundaries rejoin to the text between the outer ones. */
  lemma {:induction false} PartsRejoin(text: seq<Unit>, overlaps: seq<Range>, bounds: seq<int>)
    requires |bounds| > 0 && Increasing(bounds) && forall i | 0 <= i < |bounds| :: 0 <= bounds[i] <= |text|
    ensures JoinParts(PartsOf(text, overlaps, bounds)) == text[bounds[0]..bounds[|bounds| - 1]]
    ensures |PartsOf(text, overlaps, bounds)| == |bounds| - 1
    ensures forall i | 0 <= i < |bounds| - 1 ::
              PartsOf(text, overlaps, bounds)[i] == Part(text[bounds[i]..bounds[i + 1]], Locked(overlaps, bounds[i], bounds[i + 1]))
  {
    if |bounds| > 1 {
      var rest := bounds[1..];
      PartsRejoin(text, overlaps, rest);
      assert text[bounds[0]..bounds[1]] + text[bounds[1]..bounds[|bounds| - 1]] == text[bounds[0]..bounds[|bounds| - 1]];
      forall i | 1 <= i < |bounds| - 1
        ensures PartsOf(text, overlaps, bounds)[i] == Part(text[bounds[i]..bounds[i + 1]], Locked(overlaps, bounds[i], bounds[i + 1]))
      {
        assert rest[i - 1] == bounds[i] && rest[i] == bounds[i + 1];
      }
    }
  }

  /** The sentence stands in the text between its unit offsets. */
  lemma {:induction false} SentenceText(text: seq<Unit>, segment: seq<Unit>, index: nat, space: set<Unit>)
    requires Occurs(text, segment, index)
    ensures
      var start := index + |Leading(segment, space)|;
      start + |Trim(segment, space)| <= |text| && text[start..start + |Trim(segment, space)|] == Trim(segment, space)
  {
    var n, m := Lead(segment, space), Tail(segment, space);
    if n < m {
      CutOfCut(text, index, index + |segment|, n, m);
    }
  }

  lemma CutOfCut(text: seq<Unit>, from: nat, to: nat, n: nat, m: nat)
    requires from <= to <= |text| && n <= m <= to - from
    ensures text[from..to][n..m] == text[from + n..from + m]
  {
    var a, b := text[from..to], text[from + n..from + m];
    assert |a[n..m]| == |b|;
    assert forall i | 0 <= i < m - n :: a[n..m][i] == a[n + i] == text[from + (n + i)] == b[i];
  }

  lemma {:induction false} CutRejoins(text: seq<Unit>, start: nat, end: nat, ranges: seq<Range>)
    requires start <= end <= |text|
    ensures JoinParts(Cut(text, start, end, ranges)) == text[start..end]
  {
    var overlaps := Overlaps(ranges, start, end);
    OverlapsMeet(ranges, start, end);
    BoundariesWithin(overlaps, start, end);
    PartsRejoin(text, overlaps, Boundaries(overlaps, start, end));
  }

  /** Splitting a segment loses nothing: leading, sentence and trailing rejoin to the
      segment and the parts rejoin to the sentence. */
  lemma {:induction false} SentenceRejoins(text: seq<Unit>, segment: seq<Unit>, index: nat, ranges: seq<Range>, space: set<Unit>)
    requires Occurs(text, segment, index)
    ensures
      var s := SentenceOf(text, segment, index, ranges, space);
      s.leading + s.text + s.trailing == segment && JoinParts(s.parts) == s.text
  {
    SegmentRejoins(segment, space);
    SentenceParts(text, segment, index, ranges, space);
  }

  lemma {:induction false} SentenceParts(text: seq<Unit>, segment: seq<Unit>, index: nat, ranges: seq<Range>, space: set<Unit>)
    requires Occurs(text, segment, index)
    ensures JoinParts(SentenceOf(text, segment, index, ranges, space).parts) == Trim(segment, space)
  {
    var start := index + |Leading(segment, space)|;
    SentenceText(text, segment, index, space);
    CutRejoins(text, start, start + |Trim(segment, space)|, ranges);
  }

  /** A range's start or end, clipped to the sentence. */
  predicate ClippedEnd(y: int, r: Range, start: nat, end: nat) {
    y == (if r.start > start then r.start else start) || y == (if r.end < end then r.end else end)
  }

  lemma {:induction false} EndsOnly(overlaps: seq<Range>, start: nat, end: nat, y: int)
    requires y in Ends(overlaps, start, end)
    ensures exists r :: r in overlaps && ClippedEnd(y, r, start, end)
  {
    var front, last := overlaps[..|overlaps| - 1], overlaps[|overlaps| - 1];
    assert last in overlaps;
    if !ClippedEnd(y, last, start, end) {
      EndsOnly(front, start, end, y);
      var r :| r in front && ClippedEnd(y, r, start, end);
      assert r in overlaps;
    }
  }

  /** The boundaries of a sentence are its ends and the clipped ends of the ranges that meet it,
      each once and in order; so no part is empty and none could be longer. */
  lemma {:induction false} BoundariesExact(overlaps: seq<Range>, start: nat, end: nat, y: int)
    requires start <= end && forall r | r in overlaps :: Meets(r, start, end)
    ensures Increasing(Boundaries(overlaps, start, end))
    ensures y in Boundaries(overlaps, start, end) <==>
            y == start || y == end || exists r :: r in overlaps && ClippedEnd(y, r, start, end)
  {
    var ends := Ends(overlaps, start, end);
    SortOnceSorted([start, end] + ends);
    EndsWithin(overlaps, start, end);
    assert y in [start, end] + ends <==> y == start || y == end || y in ends;
    if y in ends { EndsOnly(overlaps, start, end, y); }
  }

  /** Between neighbouring boundaries the lock flag is the truth about every unit. */
  lemma LockedIffCovered(ranges: seq<Range>, start: nat, end: nat, i: nat, x: int)
    requires start <= end
    requires
      var bounds := Boundaries(Overlaps(ranges, start, end), start, end);
      i + 1 < |bounds| && bounds[i] <= x < bounds[i + 1]
    ensures
      var overlaps := Overlaps(ranges, start, end);
      var bounds := Boundaries(overlaps, start, end);
      Locked(overlaps, bounds[i], bounds[i + 1]) <==> exists k :: 0 <= k < |ranges| && ranges[k].start <= x < ranges[k].end
  {
    var overlaps := Overlaps(ranges, start, end);
    var bounds := Boundaries(overlaps, start, end);
    OverlapsMeet(ranges, start, end);
    BoundariesWithin(overlaps, start, end);
    if Locked(overlaps, bounds[i], bounds[i + 1]) { PartCovered(overlaps, ranges, bounds[i], bounds[i + 1], x); }
    if k :| 0 <= k < |ranges| && ranges[k].start <= x < ranges[k].end {
      assert Meets(ranges[k], start, end);
      CoversPart(overlaps, bounds, start, end, i, x, ranges[k]);
    }
  }

  /** A locked part is covered by one of the ranges. */
  lemma PartCovered(overlaps: seq<Range>, ranges: seq<Range>, from: int, to: int, x: int)
    requires Locked(overlaps, from, to) && from <= x < to && forall o | o in overlaps :: o in ranges
    ensures exists k :: 0 <= k < |ranges| && ranges[k].start <= x < ranges[k].end
  {
    var k :| 0 <= k < |overlaps| && overlaps[k].start <= from && overlaps[k].end >= to;
    assert overlaps[k] in overlaps;
    var m :| 0 <= m < |ranges| && ranges[m] == overlaps[k];
  }

  /** A range that covers a unit covers the whole part around it. */
  lemma CoversPart(overlaps: seq<Range>, bounds: seq<int>, start: nat, end: nat, i: nat, x: int, r: Range)
    requires start <= end && bounds == Boundaries(overlaps, start, end) && forall o | o in overlaps :: Meets(o, start, end)
    requires i + 1 < |bounds| && bounds[i] <= x < bounds[i + 1] && r in overlaps && r.start <= x < r.end
    ensures Locked(overlaps, bounds[i], bounds[i + 1])
  {
    BoundariesWithin(overlaps, start, end);
    NoneBetween(bounds, i, x, if r.start > start then r.start else start);
    NoneBetween(bounds, i, x, if r.end < end then r.end else end);
    var k :| 0 <= k < |overlaps| && overlaps[k] == r;
  }

  /** No boundary lies strictly between neighbouring ones. */
  lemma NoneBetween(bounds: seq<int>, i: nat, x: int, y: int)
    requires Increasing(bounds) && i + 1 < |bounds| && bounds[i] <= x < bounds[i + 1] && y in bounds
    ensures y <= x ==> y <= bounds[i]
    ensures y > x ==> y >= bounds[i + 1]
  {
    var k :| 0 <= k < |bounds| && bounds[k] == y;
    if k < i { assert bounds[k] < bounds[i]; }
    if k > i + 1 { assert bounds[i + 1] < bounds[k]; }
  }

  /** A unit of a sentence lies in a locked part iff some located range covers it. */
  lemma UnitLockedIffCovered(text: seq<Unit>, start: nat, end: nat, ranges: seq<Range>, x: int) returns (i: nat)
    requires start <= x < end <= |text|
    ensures
      var parts := Cut(text, start, end, ranges);
      && i < |parts|
      && start + |JoinParts(parts[..i])| <= x < start + |JoinParts(parts[..i])| + |parts[i].text|
      && (parts[i].locked <==> exists k :: 0 <= k < |ranges| && ranges[k].start <= x < ranges[k].end)
  {
    var overlaps := Overlaps(ranges, start, end);
    var bounds := Boundaries(overlaps, start, end);
    OverlapsMeet(ranges, start, end);
    BoundariesWithin(overlaps, start, end);
    PartsRejoin(text, overlaps, bounds);
    i := FindPart(bounds, x);
    PartStart(text, overlaps, bounds, i);
    LockedIffCovered(ranges, start, end, i, x);
  }

  lemma {:induction false} FindPart(bounds: seq<int>, x: int) returns (i: nat)
    requires |bounds| > 1 && bounds[0] <= x < bounds[|bounds| - 1]
    ensures i + 1 < |bounds| && bounds[i] <= x < bounds[i + 1]
  {
    if x < bounds[1] {
      i := 0;
    } else {
      i := FindPart(bounds[1..], x);
      i := i + 1;
    }
  }

  /** Part `i` starts where the parts before it end. */
  lemma {:induction false} PartStart(text: seq<Unit>, overlaps: seq<Range>, bounds: seq<int>, i: nat)
    requires i < |bounds| && Increasing(bounds) && forall k | 0 <= k < |bounds| :: 0 <= bounds[k] <= |text|
    ensures |PartsOf(text, overlaps, bounds)| == |bounds| - 1
    ensures |JoinParts(PartsOf(text, overlaps, bounds)[..i])| == bounds[i] - bounds[0]
  {
    PartsRejoin(text, overlaps, bounds);
    var head := bounds[..i + 1];
    PartsRejoin(text, overlaps, head);
    forall k | 0 <= k < i ensures PartsOf(text, overlaps, bounds)[k] == PartsOf(text, overlaps, head)[k] {
      assert head[k] == bounds[k] && head[k + 1] == bounds[k + 1];
    }
    assert PartsOf(text, overlaps, bounds)[..i] == PartsOf(text, overlaps, head);
  }

  /** The lock ids of a sentence are exactly those of the located ranges that meet it, in the
      order of the ranges. */
  lemma LockIdsExact(text: seq<Unit>, segment: seq<Unit>, index: nat, ranges: seq<Range>, space: set<Unit>, id: string)
    requires Occurs(text, segment, index)
    ensures
      var s := SentenceOf(text, segment, index, ranges, space);
      && s.lockIds == Ids(Overlaps(ranges, s.at, s.at + |s.text|))
      && AllMeeting(Overlaps(ranges, s.at, s.at + |s.text|), ranges, s.at, s.at + |s.text|)
      && (id in s.lockIds <==> exists r :: r in ranges && r.id == id && r.start < s.at + |s.text| && s.at < r.end)
  {
    var s := SentenceOf(text, segment, index, ranges, space);
    OverlapsFiltered(ranges, s.at, s.at + |s.text|);
    OverlapIds(ranges, s.at, s.at + |s.text|, id);
  }

  lemma OverlapIds(ranges: seq<Range>, start: nat, end: nat, id: string)
    ensures id in Ids(Overlaps(ranges, start, end)) <==> exists r :: r in ranges && r.id == id && r.start < end && start < r.end
  {
    var met := Overlaps(ranges, start, end);
    OverlapsMeet(ranges, start, end);
    if id in Ids(met) {
      var i :| 0 <= i < |met| && Ids(met)[i] == id;
      assert met[i] in met;
    }
    if r :| r in ranges && r.id == id && r.start < end && start < r.end {
      assert Meets(r, start, end);
      var i :| 0 <= i < |met| && met[i] == r;
      assert Ids(met)[i] == id;
    }
  }

  // ---------------------------------------------------------------- the whole text

  function JoinSegments(segments: seq<seq<Unit>>): (text: seq<Unit>) {
    if segments == [] then [] else JoinSegments(segments[..|segments| - 1]) + segments[|segments| - 1]
  }

  /** The sentences of a contiguous segmentation. */
  function SentencesOf(text: seq<Unit>, segments: seq<seq<Unit>>, ranges: seq<Range>, space: set<Unit>): (r: seq<Sentence>)
    requires JoinSegments(segments) <= text
  {
    if segments == [] then []
    else
      var front, last := segments[..|segments| - 1], segments[|segments| - 1];
      assert JoinSegments(segments) == JoinSegments(front) + last;
      assert Occurs(text, last, |JoinSegments(front)|);
      SentencesOf(text, front, ranges, space) + [SentenceOf(text, last, |JoinSegments(front)|, ranges, space)]
  }

  function JoinSentences(sentences: seq<Sentence>): (text: seq<Unit>) {
    if sentences == [] then []
    else
      var last := sentences[|sentences| - 1];
      JoinSentences(sentences[..|sentences| - 1]) + (last.leading + JoinParts(last.parts) + last.trailing)
  }

  /** For any contiguous segmentation of the text, the sentences rejoin to the text. */
  lemma {:induction false} TextRejoins(text: seq<Unit>, segments: seq<seq<Unit>>, ranges: seq<Range>, space: set<Unit>)
    requires JoinSegments(segments) <= text
    ensures JoinSentences(SentencesOf(text, segments, ranges, space)) == JoinSegments(segments)
  {
    if segments != [] {
      var front, last := segments[..|segments| - 1], segments[|segments| - 1];
      assert JoinSegments(segments) == JoinSegments(front) + last;
      TextRejoins(text, front, ranges, space);
      assert Occurs(text, last, |JoinSegments(front)|);
      SentenceRejoins(text, last, |JoinSegments(front)|, ranges, space);
      var before := SentencesOf(text, front, ranges, space);
      var all := SentencesOf(text, segments, ranges, space);
      assert all[..|all| - 1] == before;
    }
  }

  /** White space is no surrogate, so trimming keeps code-point boundaries. */
  lemma {:induction false} TrimKeepsBoundaries(text: seq<Unit>, segment: seq<Unit>, index: nat, space: set<Unit>)
    requires Occurs(text, segment, index) && Boundary(text, index) && Boundary(text, index + |segment|)
    requires forall u: Unit | u in space :: !IsHigh(u) && !IsLow(u)
    ensures Boundary(text, index + Lead(segment, space)) && Boundary(text, index + Tail(segment, space))
  {
    var n, m := Lead(segment, space), Tail(segment, space);
    LeadIsSpace(segment, space);
    TailIsSpace(segment, space);
    if n > 0 { assert text[index + n - 1] == segment[n - 1]; }
    if m < |segment| { assert text[index + m] == segment[m]; }
  }

  /** An occurrence that cuts no pair, cut by its code-point offsets. */
  lemma PointsSpell(text: seq<Unit>, frag: seq<Unit>, at: nat)
    requires Occurs(text, frag, at) && Boundary(text, at) && Boundary(text, at + |frag|)
    ensures CodePointOffset(text, at) <= CodePointOffset(text, at + |frag|) <= |Decode(text)|
    ensures Decode(text)[CodePointOffset(text, at)..CodePointOffset(text, at + |frag|)] == Decode(frag)
  {
    OccursDecoded(text, frag, at);
  }

  /** What a sentence sends to the server: its code-point offsets cut exactly its text, if
      the segmenter cuts no surrogate pair and no surrogate is white space. */
  lemma OffsetsSpellSentence(
    text: seq<Unit>, segment: seq<Unit>, index: nat, space: set<Unit>, sentence: seq<Unit>, start: nat)
    requires Occurs(text, segment, index) && Boundary(text, index) && Boundary(text, index + |segment|)
    requires forall u: Unit | u in space :: !IsHigh(u) && !IsLow(u)
    requires sentence == Trim(segment, space) != [] && start == index + |Leading(segment, space)|
    ensures
      var end := start + |sentence|;
      && CodePointOffset(text, start) <= CodePointOffset(text, end) <= |Decode(text)|
      && Decode(text)[CodePointOffset(text, start)..CodePointOffset(text, end)] == Decode(sentence)
  {
    SentenceAligned(text, segment, index, space);
    PointsSpell(text, sentence, start);
  }

  lemma {:induction false} SentenceAligned(text: seq<Unit>, segment: seq<Unit>, index: nat, space: set<Unit>)
    requires Occurs(text, segment, index) && Boundary(text, index) && Boundary(text, index + |segment|)
    requires forall u: Unit | u in space :: !IsHigh(u) && !IsLow(u)
    requires Trim(segment, space) != []
    ensures
      var start := index + |Leading(segment, space)|;
      var end := start + |Trim(segment, space)|;
      Occurs(text, Trim(segment, space), start) && Boundary(text, start) && Boundary(text, end)
  {
    TrimKeepsBoundaries(text, segment, index, space);
    TrimSizes(segment, space);
    SentenceText(text, segment, index, space);
  }

  lemma TrimSizes(segment: seq<Unit>, space: set<Unit>)
    requires Trim(segment, space) != []
    ensures |Leading(segment, space)| == Lead(segment, space)
    ensures Lead(segment, space) + |Trim(segment, space)| == Tail(segment, space)
  {
  }
}
