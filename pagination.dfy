/**
 * The pagination composer of `getTopicIdsInThisCategory`, shared by both variants of the
 * listing (their composer bodies are the same statements): slice the pinned ids for the
 * page, work out how many normal ids are still needed, return early when the page is all
 * pinned, shift the normal window back by the pinned ids that earlier pages showed, read
 * the window and drop pinned ids from it, and put the pinned slice first.
 */
module Pagination {
  import opened JsSemantics
  import opened SortedSets
  import opened CategoryQuery

  /** The pinned ids shown on the page: the pinned list sliced from `start`, up to and
      including `stop` for a bounded page and to the end for an unbounded one. */
  function PinnedOnPage(pinned: seq<Tid>, start: int, stop: int): (r: seq<Tid>)
    ensures forall t :: t in r ==> t in pinned
    ensures 0 <= start && stop == -1 ==> r == pinned[Min(start, |pinned|)..]
    ensures 0 <= start <= stop ==> r == pinned[Min(start, |pinned|)..Min(stop + 1, |pinned|)]
  {
    var r := Slice(pinned, start, if stop != -1 then Some(stop + 1) else None);
    assert forall k :: 0 <= k < |r| ==> r[k] == pinned[SliceIndex(start, |pinned|) + k];
    r
  }

  /** How many normal ids the page still needs: its size less the pinned ids shown on it,
      and never below zero. */
  function NormalTidsToGet(start: int, stop: int, onPage: nat): nat
  {
    Max(0, stop - start + 1 - onPage)
  }

  /** A bounded page that needs no normal ids is answered with its pinned ids alone. */
  predicate ReturnsEarly(start: int, stop: int, onPage: nat)
  {
    NormalTidsToGet(start, stop, onPage) == 0 && stop != -1
  }

  /** Past the first rank, and when anything is pinned, the normal window moves back by the
      pinned ids that are not shown on this page. */
  function CorrectedStart(start: int, totalPinned: nat, onPage: nat): int
  {
    if start > 0 && totalPinned != 0 then start - (totalPinned - onPage) else start
  }

  /** The last rank of the normal window: unbounded for an unbounded page, otherwise just
      wide enough for the normal ids still needed. */
  function NormalStop(stop: int, correctedStart: int, toGet: nat): int
  {
    if stop == -1 then stop else correctedStart + toGet - 1
  }

  /** The weights array of the union: one 1 per set. */
  function UnitWeights(n: nat): (w: seq<int>)
    ensures |w| == n && forall i :: 0 <= i < n ==> w[i] == 1
  {
    seq(n, _ => 1)
  }

  /** A bounded page returns early exactly when the pinned list reaches past its last rank
      (or the page is empty); an unbounded page never does. */
  lemma EarlyReturnWhenPagePinned(pinned: seq<Tid>, start: int, stop: int)
    requires 0 <= start
    ensures ReturnsEarly(start, stop, |PinnedOnPage(pinned, start, stop)|)
        <==> stop != -1 && (stop < start || stop < |pinned|)
  {
    var onPage := PinnedOnPage(pinned, start, stop);
    if start <= stop {
      assert |onPage| == Min(stop + 1, |pinned|) - Min(start, |pinned|);
    }
  }

  /** Off the early-return path the corrected start is `max(0, start - totalPinned)`: the
      normal window begins at the first rank no earlier page read, counting the ranks of
      pinned ids that those pages filtered out. */
  lemma CorrectedStartOnNormalPath(pinned: seq<Tid>, start: int, stop: int)
    requires 0 <= start
    requires !ReturnsEarly(start, stop, |PinnedOnPage(pinned, start, stop)|)
    ensures CorrectedStart(start, |pinned|, |PinnedOnPage(pinned, start, stop)|) == Max(0, start - |pinned|)
  {
    var onPage := PinnedOnPage(pinned, start, stop);
    if stop != -1 {
      assert start <= stop;
      EarlyReturnWhenPagePinned(pinned, start, stop);
      assert |onPage| == |pinned| - Min(start, |pinned|);
    } else {
      assert |onPage| == |pinned| - Min(start, |pinned|);
    }
  }

  /** The store read issued for the normal ids, or `None` when the page returns early and
      no range or union query is made. */
  function NormalQuery(d: Query, pinned: seq<Tid>, sel: SetSelection, dir: Direction): (r: Option<StoreQuery>)
    ensures r.None? <==> ReturnsEarly(d.start, d.stop, |PinnedOnPage(pinned, d.start, d.stop)|)
    ensures r.Some? ==> QueriedSets(r.value) == SelectionNames(sel)
    ensures r.Some? ==> (r.value.UnionQuery? <==> sel.Many?)
    ensures r.Some? && r.value.UnionQuery? ==>
      |r.value.weights| == |r.value.sets| && forall i :: 0 <= i < |r.value.weights| ==> r.value.weights[i] == 1
    ensures r.Some? ==> (r.value.reverse <==> dir == HighestToLowest)
    ensures r.Some? && 0 <= d.start ==> r.value.start == Max(0, d.start - |pinned|)
    ensures r.Some? && d.stop == -1 ==> r.value.stop == -1
    ensures r.Some? && d.stop != -1 ==>
      r.value.stop - r.value.start + 1 == NormalTidsToGet(d.start, d.stop, |PinnedOnPage(pinned, d.start, d.stop)|) >= 1
  {
    var onPage := PinnedOnPage(pinned, d.start, d.stop);
    var toGet := NormalTidsToGet(d.start, d.stop, |onPage|);
    if ReturnsEarly(d.start, d.stop, |onPage|) then None
    else
      var start := CorrectedStart(d.start, |pinned|, |onPage|);
      var stop := NormalStop(d.stop, start, toGet);
      var reverse := dir == HighestToLowest;
      assert 0 <= d.start ==> start == Max(0, d.start - |pinned|) by {
        if 0 <= d.start { CorrectedStartOnNormalPath(pinned, d.start, d.stop); }
      }
      if sel.Many? then Some(UnionQuery(sel.names, UnitWeights(|sel.names|), start, stop, reverse))
      else Some(RangeQuery(sel.name, start, stop, reverse))
  }

  /** The normal ids read from the store, with every id of the pinned list dropped and the
      rest kept in ranking order. */
  function WithoutPinned(s: seq<Tid>, pinned: seq<Tid>): (r: seq<Tid>)
    ensures forall t :: t in r <==> t in s && t !in pinned
    ensures Subsequence(r, s)
    ensures |r| <= |s|
    ensures Distinct(s) ==> Distinct(r)
    ensures (forall t :: t in s ==> t !in pinned) ==> r == s
  {
    if s == [] then []
    else
      var rest := WithoutPinned(s[1..], pinned);
      assert Distinct(s) ==> Distinct(s[1..]) && s[0] !in rest;
      if s[0] in pinned then
        assert rest != [] ==> rest[0] != s[0] by {
          if rest != [] { assert rest[0] in rest; }
        }
        rest
      else
        var r := [s[0]] + rest;
        assert r[1..] == rest;
        r
  }

  /** A page that opens with `onPage` and holds no id of `pinned` after it. */
  predicate PinnedFirst(r: seq<Tid>, onPage: seq<Tid>, pinned: seq<Tid>)
  {
    && |r| >= |onPage| && r[..|onPage|] == onPage
    && (forall t :: t in r[|onPage|..] ==> t !in pinned)
  }

  /** `getTopicIdsInThisCategory` once the pinned ids, the selected sets and the direction
      are known: the page's pinned ids first, in pinned order, then every id of the store
      read that is not pinned anywhere in the listing, in the read's order. */
  function ComposePage(st: Store, d: Query, pinned: seq<Tid>, sel: SetSelection, dir: Direction): (r: seq<Tid>)
    ensures PinnedFirst(r, PinnedOnPage(pinned, d.start, d.stop), pinned)
    ensures NormalQuery(d, pinned, sel, dir).None? ==> r == PinnedOnPage(pinned, d.start, d.stop)
    ensures NormalQuery(d, pinned, sel, dir).Some? ==>
      var normal := r[|PinnedOnPage(pinned, d.start, d.stop)|..];
      var read := Run(st, NormalQuery(d, pinned, sel, dir).value);
      && (forall t :: t in normal <==> t in read && t !in pinned)
      && Subsequence(normal, read)
  {
    var onPage := PinnedOnPage(pinned, d.start, d.stop);
    match NormalQuery(d, pinned, sel, dir)
    case None => onPage
    case Some(q) =>
      var r := onPage + WithoutPinned(Run(st, q), pinned);
      assert r[|onPage|..] == WithoutPinned(Run(st, q), pinned);
      r
  }

  /** With a consistent store and a duplicate-free pinned list, no id appears twice on a page. */
  lemma ComposeDistinct(st: Store, d: Query, pinned: seq<Tid>, sel: SetSelection, dir: Direction)
    requires WellFormed(st) && Distinct(pinned)
    ensures Distinct(ComposePage(st, d, pinned, sel, dir))
  {
    var onPage := PinnedOnPage(pinned, d.start, d.stop);
    var r := ComposePage(st, d, pinned, sel, dir);
    assert Distinct(onPage) by {
      var b := SliceIndex(d.start, |pinned|);
      assert forall k :: 0 <= k < |onPage| ==> onPage[k] == pinned[b + k];
    }
    var q := NormalQuery(d, pinned, sel, dir);
    if q.Some? {
      var rest := WithoutPinned(Run(st, q.value), pinned);
      assert r == onPage + rest;
      forall i, j | 0 <= i < j < |r| ensures r[i] != r[j] {
        if j >= |onPage| && i < |onPage| {
          assert r[j] in rest && r[i] in onPage;
        } else if i >= |onPage| {
          assert r[i] == rest[i - |onPage|] && r[j] == rest[j - |onPage|];
        }
      }
    }
  }

  /** An unbounded first page lists the whole pinned list, then every other id of the
      candidate ranking, in ranking order. */
  lemma UnboundedPageListsEverything(st: Store, d: Query, pinned: seq<Tid>, sel: SetSelection, dir: Direction)
    requires d.start == 0 && d.stop == -1
    ensures NormalQuery(d, pinned, sel, dir).Some?
    ensures ComposePage(st, d, pinned, sel, dir)
         == pinned + WithoutPinned(Ranking(st, NormalQuery(d, pinned, sel, dir).value), pinned)
  {
    var q := NormalQuery(d, pinned, sel, dir).value;
    assert PinnedOnPage(pinned, 0, -1) == pinned;
    assert q.start == 0 && q.stop == -1;
    var asc := if q.RangeQuery? then Members(st, q.name) else st.unionOrder(q.sets, q.weights);
    var ranking := if q.reverse then Reversed(asc) else asc;
    assert Ranking(st, q) == ranking;
    assert Run(st, q) == RankRange(ranking, 0, -1) == ranking[0..] == ranking;
  }

  /** Five pinned ids, ten per page, second page (`start = 10, stop = 19`): none of the
      pinned ids is on the page, and the normal window is ranks 5 to 14, not 10 to 19. */
  lemma SecondPageWindow(d: Query, pinned: seq<Tid>, sel: SetSelection, dir: Direction)
    requires d.start == 10 && d.stop == 19 && |pinned| == 5
    ensures PinnedOnPage(pinned, d.start, d.stop) == []
    ensures NormalQuery(d, pinned, sel, dir).Some?
    ensures NormalQuery(d, pinned, sel, dir).value.start == 5
    ensures NormalQuery(d, pinned, sel, dir).value.stop == 14
  {
    assert PinnedOnPage(pinned, 10, 19) == pinned[5..5];
  }

  /** Consecutive bounded pages of size `k` read adjacent normal windows: a page that reads
      the store ends its window right before the next page's window starts, and after a
      page that was all pinned the next window starts at rank 0. So across pages every
      rank of the candidate ranking is read by exactly one page. */
  lemma PagesTile(pinned: seq<Tid>, start: int, k: int)
    requires 0 <= start && 1 <= k
    ensures
      var stop1, start2, stop2 := start + k - 1, start + k, start + 2 * k - 1;
      var on1, on2 := |PinnedOnPage(pinned, start, stop1)|, |PinnedOnPage(pinned, start2, stop2)|;
      var c1, c2 := CorrectedStart(start, |pinned|, on1), CorrectedStart(start2, |pinned|, on2);
      && (!ReturnsEarly(start, stop1, on1) ==>
            !ReturnsEarly(start2, stop2, on2)
            && c2 == NormalStop(stop1, c1, NormalTidsToGet(start, stop1, on1)) + 1)
      && (ReturnsEarly(start, stop1, on1) && !ReturnsEarly(start2, stop2, on2) ==> c2 == 0)
  {
    var stop1, start2, stop2 := start + k - 1, start + k, start + 2 * k - 1;
    var on1, on2 := |PinnedOnPage(pinned, start, stop1)|, |PinnedOnPage(pinned, start2, stop2)|;
    EarlyReturnWhenPagePinned(pinned, start, stop1);
    EarlyReturnWhenPagePinned(pinned, start2, stop2);
    if !ReturnsEarly(start, stop1, on1) {
      CorrectedStartOnNormalPath(pinned, start, stop1);
      CorrectedStartOnNormalPath(pinned, start2, stop2);
      assert on1 == Min(stop1 + 1, |pinned|) - Min(start, |pinned|);
    }
    if ReturnsEarly(start, stop1, on1) && !ReturnsEarly(start2, stop2, on2) {
      CorrectedStartOnNormalPath(pinned, start2, stop2);
    }
  }
}
