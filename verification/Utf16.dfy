/** Offsets in the browser count 16-bit units, offsets on the server count code points.
    Decoding follows section 2.2 of RFC 2781; an unpaired surrogate counts as one point. */
module Utf16 {
  import opened TextMatch

  type Unit = u: int | 0 <= u < 0x10000

  predicate IsHigh(u: Unit) { 0xD800 <= u < 0xDC00 }
  predicate IsLow(u: Unit) { 0xDC00 <= u < 0xE000 }

  /** The number of units of the first code point. */
  function Width(t: seq<Unit>): (w: nat)
    requires t != []
  {
    if |t| > 1 && IsHigh(t[0]) && IsLow(t[1]) then 2 else 1
  }

  /** The string iterator behind `Array.from`: one piece per code point. */
  function Pieces(t: seq<Unit>): (pieces: seq<seq<Unit>>) {
    if t == [] then [] else [t[..Width(t)]] + Pieces(t[Width(t)..])
  }

  function Join(pieces: seq<seq<Unit>>): (t: seq<Unit>) {
    if pieces == [] then [] else pieces[0] + Join(pieces[1..])
  }

  /** The code point a piece stands for. */
  function Point(piece: seq<Unit>): (p: int) {
    if |piece| == 2 then 0x10000 + (piece[0] as int - 0xD800) * 0x400 + (piece[1] as int - 0xDC00)
    else if |piece| == 1 then piece[0] as int else -1
  }

  function Decode(t: seq<Unit>): (points: seq<int>)
    ensures |points| == |Pieces(t)|
    ensures forall i | 0 <= i < |points| :: points[i] == Point(Pieces(t)[i])
  {
    seq(|Pieces(t)|, i requires 0 <= i < |Pieces(t)| => Point(Pieces(t)[i]))
  }

  /** `Array.from(text.slice(0, offset)).length`; a slice clamps. */
  function CodePointOffset(t: seq<Unit>, offset: nat): (k: nat) {
    |Pieces(if offset <= |t| then t[..offset] else t)|
  }

  /** `Array.from(text).slice(0, k).join('').length` */
  function Utf16Offset(t: seq<Unit>, k: nat): (offset: nat) {
    var pieces := Pieces(t);
    |Join(if k <= |pieces| then pieces[..k] else pieces)|
  }

  /** No surrogate pair straddles the offset. */
  predicate Boundary(t: seq<Unit>, offset: nat) {
    0 < offset < |t| ==> !(IsHigh(t[offset - 1]) && IsLow(t[offset]))
  }

  // ---------------------------------------------------------------- pieces

  lemma {:induction false} JoinPieces(t: seq<Unit>)
    ensures Join(Pieces(t)) == t
  {
    if t != [] { JoinPieces(t[Width(t)..]); }
  }

  /** The first piece of a text and of every cut that keeps it whole. */
  lemma FirstPiece(t: seq<Unit>, offset: nat)
    requires 0 < offset <= |t| && Boundary(t, offset)
    ensures Width(t) <= offset
    ensures Pieces(t[..offset]) == [t[..Width(t)]] + Pieces(t[Width(t)..offset])
  {
    var head, w := t[..offset], Width(t);
    assert Width(head) == w;
    assert head[..w] == t[..w] && head[w..] == t[w..offset];
  }

  /** Cutting between code points cuts the list of pieces. */
  lemma {:induction false} PiecesSplit(t: seq<Unit>, offset: nat)
    requires offset <= |t| && Boundary(t, offset)
    ensures Pieces(t) == Pieces(t[..offset]) + Pieces(t[offset..])
  {
    if offset == 0 {
      assert t[0..] == t && t[..0] == [];
    } else {
      FirstPiece(t, offset);
      var w := Width(t);
      assert Pieces(t[w..]) == Pieces(t[w..offset]) + Pieces(t[offset..]) by {
        Slices(t, w, offset);
        PiecesSplit(t[w..], offset - w);
      }
      var first := [t[..w]];
      assert first + (Pieces(t[w..offset]) + Pieces(t[offset..])) == first + Pieces(t[w..offset]) + Pieces(t[offset..]);
    }
  }

  /** The first `k` pieces are the pieces of the text up to the `k`-th point. */
  lemma {:induction false} PrefixPieces(t: seq<Unit>, k: nat)
    requires k <= |Pieces(t)|
    ensures Utf16Offset(t, k) <= |t| && Boundary(t, Utf16Offset(t, k))
    ensures Pieces(t[..Utf16Offset(t, k)]) == Pieces(t)[..k]
  {
    if k == 0 {
      assert Join([]) == [];
    } else {
      var w := Width(t);
      var rest := t[w..];
      PrefixPieces(rest, k - 1);
      OffsetAfterFirst(t, k);
      HeadPieces(t, Utf16Offset(rest, k - 1));
      assert Pieces(t)[..k] == [t[..w]] + Pieces(rest)[..k - 1];
    }
  }

  lemma {:induction false} OffsetAfterFirst(t: seq<Unit>, k: nat)
    requires 0 < k <= |Pieces(t)|
    ensures t != [] && k - 1 <= |Pieces(t[Width(t)..])|
    ensures Utf16Offset(t, k) == Width(t) + Utf16Offset(t[Width(t)..], k - 1)
  {
    var w := Width(t);
    var rest := Pieces(t[w..]);
    assert Pieces(t)[..k] == [t[..w]] + rest[..k - 1];
    assert Join([t[..w]] + rest[..k - 1]) == t[..w] + Join(rest[..k - 1]) by {
      assert ([t[..w]] + rest[..k - 1])[1..] == rest[..k - 1];
    }
  }

  /** A prefix that ends between points has the first piece and the pieces after it. */
  lemma {:induction false} HeadPieces(t: seq<Unit>, off: nat)
    requires t != [] && off <= |t[Width(t)..]| && Boundary(t[Width(t)..], off)
    ensures Boundary(t, Width(t) + off)
    ensures Pieces(t[..Width(t) + off]) == [t[..Width(t)]] + Pieces(t[Width(t)..][..off])
  {
    var w := Width(t);
    var head := t[..w + off];
    assert head[w..] == t[w..][..off] && head[..w] == t[..w];
    assert Width(head) == w;
  }

  // ---------------------------------------------------------------- offsets

  /** Code-point offset to UTF-16 offset and back is the identity, for every 16-bit text. */
  lemma OffsetRoundTrip(t: seq<Unit>, k: nat)
    requires k <= |Decode(t)|
    ensures CodePointOffset(t, Utf16Offset(t, k)) == k
  {
    PrefixPieces(t, k);
  }

  /** In the other direction the identity holds exactly at code-point boundaries. */
  lemma UnitOffsetRoundTrip(t: seq<Unit>, offset: nat)
    requires offset <= |t|
    ensures Utf16Offset(t, CodePointOffset(t, offset)) == offset <==> Boundary(t, offset)
    ensures CodePointOffset(t, offset) <= |Decode(t)|
  {
    if Boundary(t, offset) {
      PiecesSplit(t, offset);
      assert Pieces(t)[..|Pieces(t[..offset])|] == Pieces(t[..offset]);
      JoinPieces(t[..offset]);
    } else {
      // Just before the pair the offset is a boundary; the lone half counts as one point.
      var k := |Pieces(t[..offset - 1])|;
      assert Boundary(t, offset - 1) && Boundary(t[..offset], offset - 1);
      PiecesSplit(t[..offset], offset - 1);
      assert t[..offset][..offset - 1] == t[..offset - 1];
      var half := t[..offset][offset - 1..];
      assert half == [t[offset - 1]] && half[Width(half)..] == [];
      assert |Pieces(half)| == 1;
      PiecesSplit(t, offset - 1);
      assert Pieces(t[offset - 1..]) != [];
      PrefixPieces(t, k + 1);
    }
  }

  /** Later points start later. */
  lemma OffsetMonotone(t: seq<Unit>, s: nat, e: nat)
    requires s <= e <= |Decode(t)|
    ensures Utf16Offset(t, s) <= Utf16Offset(t, e) <= |t|
    ensures s < e ==> Utf16Offset(t, s) < Utf16Offset(t, e)
  {
    PrefixPieces(t, s);
    PrefixPieces(t, e);
    var head := t[..Utf16Offset(t, e)];
    assert Pieces(head)[..s] == Pieces(t)[..s];
    PrefixPieces(head, s);
  }

  /** Cutting the units between converted offsets spells the code points the server cuts. */
  lemma {:induction false} SliceSpells(t: seq<Unit>, s: nat, e: nat)
    requires s <= e <= |Decode(t)|
    ensures Utf16Offset(t, s) <= Utf16Offset(t, e) <= |t|
    ensures Decode(t[Utf16Offset(t, s)..Utf16Offset(t, e)]) == Decode(t)[s..e]
  {
    OffsetMonotone(t, s, e);
    PrefixPieces(t, s);
    PrefixPieces(t, e);
    MiddlePieces(t, Utf16Offset(t, s), Utf16Offset(t, e), s, e);
    DecodePieces(t[Utf16Offset(t, s)..Utf16Offset(t, e)], t, s, e);
  }

  lemma {:induction false} DecodePieces(x: seq<Unit>, t: seq<Unit>, s: nat, e: nat)
    requires s <= e <= |Pieces(t)| && Pieces(x) == Pieces(t)[s..e]
    ensures Decode(x) == Decode(t)[s..e]
  {
  }

  lemma {:induction false} MiddlePieces(t: seq<Unit>, from: nat, to: nat, s: nat, e: nat)
    requires from <= to <= |t| && Boundary(t, from) && Boundary(t, to) && s <= e <= |Pieces(t)|
    requires Pieces(t[..from]) == Pieces(t)[..s] && Pieces(t[..to]) == Pieces(t)[..e]
    ensures Pieces(t[from..to]) == Pieces(t)[s..e]
  {
    Slices(t, from, to);
    PiecesSplit(t[..to], from);
    Slices(Pieces(t), s, e);
  }

  // ---------------------------------------------------------------- decoding loses nothing

  /** A piece: one unit, or a surrogate pair. */
  predicate IsPiece(piece: seq<Unit>) {
    |piece| == 1 || (|piece| == 2 && IsHigh(piece[0]) && IsLow(piece[1]))
  }

  /** Encoding as in section 2.1 of RFC 2781; a lone surrogate stands for itself. */
  function Encode(p: int): (piece: seq<Unit>)
    requires 0 <= p < 0x110000
  {
    if p < 0x10000 then [p] else [0xD800 + (p - 0x10000) / 0x400, 0xDC00 + (p - 0x10000) % 0x400]
  }

  /** The point of a piece encodes to that piece. */
  lemma PointRoundTrip(piece: seq<Unit>)
    requires IsPiece(piece)
    ensures 0 <= Point(piece) < 0x110000 && Encode(Point(piece)) == piece
    ensures |piece| == 2 <==> Point(piece) >= 0x10000
  {
  }

  lemma {:induction false} PiecesArePieces(t: seq<Unit>)
    ensures forall i | 0 <= i < |Pieces(t)| :: IsPiece(Pieces(t)[i])
  {
    if t != [] { PiecesArePieces(t[Width(t)..]); }
  }

  /** Different texts decode differently. */
  lemma DecodeInjective(a: seq<Unit>, b: seq<Unit>)
    requires Decode(a) == Decode(b)
    ensures a == b
  {
    PiecesArePieces(a);
    PiecesArePieces(b);
    forall i | 0 <= i < |Pieces(a)| ensures Pieces(a)[i] == Pieces(b)[i] {
      assert Decode(a)[i] == Decode(b)[i];
      PointInjective(Pieces(a)[i], Pieces(b)[i]);
    }
    assert Pieces(a) == Pieces(b);
    JoinPieces(a);
    JoinPieces(b);
  }

  lemma PointInjective(x: seq<Unit>, y: seq<Unit>)
    requires IsPiece(x) && IsPiece(y) && Point(x) == Point(y)
    ensures x == y
  {
  }

  // ---------------------------------------------------------------- occurrences

  /** An occurrence of units that cuts no pair is an occurrence of code points. */
  lemma {:induction false} OccursDecoded(t: seq<Unit>, frag: seq<Unit>, at: nat)
    requires Occurs(t, frag, at) && Boundary(t, at) && Boundary(t, at + |frag|)
    ensures Occurs(Decode(t), Decode(frag), CodePointOffset(t, at))
    ensures CodePointOffset(t, at + |frag|) == CodePointOffset(t, at) + |Decode(frag)|
  {
    ThreeCuts(t, frag, at);
    DecodedMiddle(t, frag, Pieces(t[..at]), Pieces(t[at + |frag|..]));
  }

  lemma {:induction false} DecodedMiddle(t: seq<Unit>, frag: seq<Unit>, before: seq<seq<Unit>>, after: seq<seq<Unit>>)
    requires Pieces(t) == before + Pieces(frag) + after
    ensures Occurs(Decode(t), Decode(frag), |before|)
  {
    var n := |before|;
    assert forall i | 0 <= i < |Decode(frag)| :: Decode(t)[n + i] == Decode(frag)[i];
    assert Decode(t)[n..n + |Decode(frag)|] == Decode(frag);
  }

  lemma {:induction false} ThreeCuts(t: seq<Unit>, frag: seq<Unit>, at: nat)
    requires Occurs(t, frag, at) && Boundary(t, at) && Boundary(t, at + |frag|)
    ensures Pieces(t[..at + |frag|]) == Pieces(t[..at]) + Pieces(frag)
    ensures Pieces(t) == Pieces(t[..at]) + Pieces(frag) + Pieces(t[at + |frag|..])
  {
    var end := at + |frag|;
    PiecesSplit(t, end);
    PrefixCut(t, at, end);
  }

  lemma {:induction false} PrefixCut(t: seq<Unit>, at: nat, end: nat)
    requires at <= end <= |t| && Boundary(t, at)
    ensures Pieces(t[..end]) == Pieces(t[..at]) + Pieces(t[at..end])
  {
    Slices(t, at, end);
    assert Boundary(t[..end], at);
    PiecesSplit(t[..end], at);
  }

  /** Offsets keep their order when counted in code points. */
  lemma CodePointOffsetMonotone(t: seq<Unit>, a: nat, b: nat)
    requires a <= b <= |t| && Boundary(t, a)
    ensures CodePointOffset(t, a) <= CodePointOffset(t, b)
  {
    var head := t[..b];
    assert Boundary(head, a);
    PiecesSplit(head, a);
    assert head[..a] == t[..a];
  }
}
