/** Shared result types, and what a filter leaves of a list. */
module Basics {
  datatype Option<+T> = None | Some(value: T)

  datatype Result<+T, +E> = Ok(value: T) | Err(error: E)

  /** `part` is what stands at the increasing places `from` of `whole`. */
  predicate Subsequence<T(==)>(part: seq<T>, whole: seq<T>, from: seq<nat>) {
    && |from| == |part|
    && (forall k | 0 <= k < |from| :: from[k] < |whole| && whole[from[k]] == part[k])
    && (forall j, k | 0 <= j < k < |from| :: from[j] < from[k])
  }

  /** `part` is exactly what `keep` lets through of `whole`, in order. */
  ghost predicate Filtered<T>(part: seq<T>, whole: seq<T>, keep: T -> bool) {
    exists from: seq<nat> {:trigger Subsequence(part, whole, from)} :: Subsequence(part, whole, from) && Hits(whole, from, keep)
  }

  /** `from` lists the places that pass. */
  ghost predicate Hits<T>(whole: seq<T>, from: seq<nat>, keep: T -> bool) {
    forall i: nat :: i in from <==> i < |whole| && keep(whole[i])
  }

  lemma FilteredNone<T>(keep: T -> bool)
    ensures Filtered([], [], keep)
  {
    assert Subsequence<T>([], [], []) && Hits<T>([], [], keep);
  }

  lemma FromNext<T>(part: seq<T>, whole: seq<T>, from: seq<nat>, x: T)
    requires Subsequence(part, whole, from)
    ensures Subsequence(part + [x], whole + [x], from + [|whole|])
    ensures Subsequence(part, whole + [x], from)
  {
  }

  lemma HitsNext<T>(whole: seq<T>, from: seq<nat>, x: T, keep: T -> bool)
    requires Hits(whole, from, keep)
    ensures Hits(whole + [x], if keep(x) then from + [|whole|] else from, keep)
  {
    var more, all := if keep(x) then from + [|whole|] else from, whole + [x];
    forall i: nat ensures i in more <==> i < |all| && keep(all[i]) {
      assert i in from <==> i < |whole| && keep(whole[i]);
    }
  }

  /** One more round of a filter from the front. */
  lemma FilteredLast<T>(part: seq<T>, next: seq<T>, whole: seq<T>, keep: T -> bool)
    requires whole != [] && Filtered(part, whole[..|whole| - 1], keep)
    requires next == if keep(whole[|whole| - 1]) then part + [whole[|whole| - 1]] else part
    ensures Filtered(next, whole, keep)
  {
    var front, x := whole[..|whole| - 1], whole[|whole| - 1];
    assert whole == front + [x];
    var from: seq<nat> :| Subsequence(part, front, from) && Hits(front, from, keep);
    FromNext(part, front, from, x);
    HitsNext(front, from, x, keep);
    var more := if keep(x) then from + [|front|] else from;
    assert Subsequence(next, whole, more) && Hits(whole, more, keep);
  }

  /** One more round of a filter from the end. */
  lemma FilteredFirst<T>(part: seq<T>, next: seq<T>, whole: seq<T>, keep: T -> bool)
    requires whole != [] && Filtered(part, whole[1..], keep)
    requires next == if keep(whole[0]) then [whole[0]] + part else part
    ensures Filtered(next, whole, keep)
  {
    var rest, x := whole[1..], whole[0];
    assert whole == [x] + rest;
    var from: seq<nat> :| Subsequence(part, rest, from) && Hits(rest, from, keep);
    var moved: seq<nat> := seq(|from|, k requires 0 <= k < |from| => from[k] + 1);
    FromMoved(part, rest, from, moved, x);
    HitsMoved(rest, from, moved, x, keep);
    var more := if keep(x) then [0] + moved else moved;
    assert Subsequence(next, whole, more) && Hits(whole, more, keep);
  }

  lemma FromMoved<T>(part: seq<T>, whole: seq<T>, from: seq<nat>, moved: seq<nat>, x: T)
    requires Subsequence(part, whole, from) && |moved| == |from| && forall k | 0 <= k < |from| :: moved[k] == from[k] + 1
    ensures Subsequence([x] + part, [x] + whole, [0] + moved)
    ensures Subsequence(part, [x] + whole, moved)
  {
  }

  lemma HitsMoved<T>(whole: seq<T>, from: seq<nat>, moved: seq<nat>, x: T, keep: T -> bool)
    requires Hits(whole, from, keep) && |moved| == |from| && forall k | 0 <= k < |from| :: moved[k] == from[k] + 1
    ensures Hits([x] + whole, if keep(x) then [0] + moved else moved, keep)
  {
    var more: seq<nat> := if keep(x) then [0] + moved else moved;
    forall i: nat ensures i in more <==> i < |[x] + whole| && keep(([x] + whole)[i]) {
      if i == 0 {
        assert keep(x) ==> more[0] == 0;
      } else {
        MovedIn(from, moved, i);
        assert i - 1 in from <==> i - 1 < |whole| && keep(whole[i - 1]);
        assert i < |[x] + whole| ==> ([x] + whole)[i] == whole[i - 1];
      }
    }
  }

  lemma MovedIn(from: seq<nat>, moved: seq<nat>, i: nat)
    requires i > 0 && |moved| == |from| && forall k | 0 <= k < |from| :: moved[k] == from[k] + 1
    ensures i in moved <==> i - 1 in from
  {
    if i - 1 in from {
      var k :| 0 <= k < |from| && from[k] == i - 1;
      assert moved[k] == i;
    }
  }
}
