/**
 * The flat listing of `src/categories/topics-extend.ts`: no recursion into child
 * categories, the selection is a bare set name unless a tag filter is present, and the
 * pinned ids are the category's own pinned set only.
 */
module TopicsTs {
  import opened JsSemantics
  import opened SortedSets
  import opened CategoryQuery
  import opened Pagination
  import TopicsJs

  /** `buildTopicsSortedSetInThisCategory` of the flat variant: the same entries as the
      recursive variant's own entries for the category, but a bare name when there is no
      tag filter. */
  function SelectTs(d: Query, configSort: Option<string>): (r: SetSelection)
    ensures r.Single? <==> !TagTruthy(d.tag)
    ensures SelectionNames(r) == TopicsJs.OwnSets(d, configSort)
  {
    var base := BaseSet(d, configSort);
    if TagTruthy(d.tag) then Many([base] + TagSets(d.tag)) else Single(base)
  }

  /** `getPinnedTidsInThisCategory` of the flat variant: one reverse range of the pinned set. */
  function PinnedTs(st: Store, d: Query): (r: seq<Tid>)
    ensures d.start == 0 && d.stop == -1 ==> r == Reversed(Members(st, Pinned(d.cid)))
  {
    RevRange(st, Pinned(d.cid), d.start, d.stop)
  }

  /** `getTopicIdsInThisCategory` of the flat variant: a page starts with its slice of the
      category's whole pinned set, newest pinned first, and no id after that slice is
      pinned. */
  function ListTopicsTs(st: Store, d: Query, configSort: Option<string>): (r: seq<Tid>)
    ensures var pinned := Reversed(Members(st, Pinned(d.cid)));
      PinnedFirst(r, PinnedOnPage(pinned, d.start, d.stop), pinned)
  {
    var pinned := PinnedTs(st, d.(start := 0, stop := -1));
    assert pinned == Reversed(Members(st, Pinned(d.cid)));
    ComposePage(st, d, pinned, SelectTs(d, configSort), RangeDirection(d.sort))
  }

  /** `getTopicCountInThisCategory` of the flat variant: without a tag filter, the number of
      distinct topics of the base set; with one, the size of the union of the base set and
      the tag sets. */
  function CountTs(st: Store, d: Query, configSort: Option<string>): (r: nat)
    ensures !TagTruthy(d.tag) ==> r == |set t | t in Members(st, BaseSet(d, configSort))|
    ensures TagTruthy(d.tag) ==> r == |MemberSet(st, [BaseSet(d, configSort)] + TagSets(d.tag))|
  {
    var names := SelectionNames(SelectTs(d, configSort));
    assert !TagTruthy(d.tag) ==> MemberSet(st, names) == set t | t in Members(st, BaseSet(d, configSort)) by {
      if !TagTruthy(d.tag) {
        assert names == [BaseSet(d, configSort)];
        assert forall t :: t in MemberSet(st, names) <==> t in Members(st, names[0]);
      }
    }
    UnionCard(st, names)
  }

  /** The normal ids of the flat variant come from a plain range over the base set when
      there is no tag filter, and from a weight-1 union of the base set and the tag sets
      when there is one. */
  lemma TsQueryShape(pinned: seq<Tid>, d: Query, configSort: Option<string>)
    ensures var q := NormalQuery(d, pinned, SelectTs(d, configSort), RangeDirection(d.sort));
      && (q.Some? && !TagTruthy(d.tag) ==> q.value.RangeQuery? && q.value.name == BaseSet(d, configSort))
      && (q.Some? && TagTruthy(d.tag) ==> q.value.UnionQuery? && q.value.sets == [BaseSet(d, configSort)] + TagSets(d.tag))
  {
    var q := NormalQuery(d, pinned, SelectTs(d, configSort), RangeDirection(d.sort));
    if q.Some? && !TagTruthy(d.tag) {
      assert QueriedSets(q.value) == [BaseSet(d, configSort)];
    }
  }

  /** On a leaf category with a consistent store the two variants list the same page and
      the same count: the recursive variant's one-set union ranks like the flat variant's
      plain range. */
  lemma TsAgreesWithJsOnLeaf(st: Store, t: TopicsJs.CategoryTree, d: Query, configSort: Option<string>)
    requires TopicsJs.ValidTree(t) && TopicsJs.ChildrenOf(t, d.cid) == [] && WellFormed(st)
    ensures TopicsJs.ListTopicsJs(st, t, d, configSort) == ListTopicsTs(st, d, configSort)
    ensures UnionCard(st, TopicsJs.SelectJs(t, d, configSort)) == CountTs(st, d, configSort)
  {
    var full := d.(start := 0, stop := -1);
    assert TopicsJs.ChildrenOf(t, full.cid) == [];
    assert TopicsJs.PinnedJs(st, t, full) == PinnedTs(st, full);
    assert TopicsJs.SelectJs(t, d, configSort) == TopicsJs.OwnSets(d, configSort);
    var pinned := PinnedTs(st, full);
    var dir := RangeDirection(d.sort);
    var sel := SelectTs(d, configSort);
    var jsSel := Many(TopicsJs.OwnSets(d, configSort));
    if sel.Single? {
      var qJs, qTs := NormalQuery(d, pinned, jsSel, dir), NormalQuery(d, pinned, sel, dir);
      if qJs.Some? {
        assert qJs.value.weights == [1];
        assert st.unionOrder([sel.name], [1]) == Members(st, sel.name);
        assert Run(st, qJs.value) == Run(st, qTs.value);
      }
    }
  }

  /** A category whose main set holds topics 1..5 (5 the newest) and whose pinned set
      holds 3; its first page of three, newest first. */
  const ExampleStore := Store(map[Main(7) := [1, 2, 3, 4, 5], Pinned(7) := [3]], (names, weights) => [])
  const ExampleQuery := Query(7, 0, 2, Some("newest_to_oldest"), NoTag, None, None)

  lemma ExampleSelection()
    ensures SelectTs(ExampleQuery, None) == Single(Main(7))
    ensures RangeDirection(ExampleQuery.sort) == HighestToLowest
  {
    assert SortForSets(ExampleQuery, None) == "newest_to_oldest";
    assert "newest_to_oldest" != "most_posts" && "newest_to_oldest" != "most_votes";
  }

  lemma ExampleNormalRead()
    ensures NormalQuery(ExampleQuery, [3], Single(Main(7)), HighestToLowest) == Some(RangeQuery(Main(7), 0, 1, true))
    ensures Run(ExampleStore, RangeQuery(Main(7), 0, 1, true)) == [5, 4]
  {
    assert Members(ExampleStore, Main(7)) == [1, 2, 3, 4, 5];
    var ranking := Reversed([1, 2, 3, 4, 5]);
    assert ranking == [5, 4, 3, 2, 1] by {
      assert ranking[0] == 5 && ranking[1] == 4 && ranking[2] == 3 && ranking[3] == 2 && ranking[4] == 1;
    }
    assert ranking[0..2] == [5, 4];
  }

  lemma ExamplePinned()
    ensures PinnedTs(ExampleStore, ExampleQuery.(start := 0, stop := -1)) == [3]
  {
    assert Members(ExampleStore, Pinned(7)) == [3];
  }

  lemma ExampleCompose()
    ensures ComposePage(ExampleStore, ExampleQuery, [3], Single(Main(7)), HighestToLowest) == [3, 5, 4]
  {
    ExampleNormalRead();
    assert PinnedOnPage([3], 0, 2) == [3];
    assert WithoutPinned([5, 4], [3]) == [5, 4];
  }

  /** The first page is the pinned 3, then 5 and 4. */
  lemma FirstPageExample()
    ensures ListTopicsTs(ExampleStore, ExampleQuery, None) == [3, 5, 4]
  {
    ExamplePinned();
    ExampleSelection();
    ExampleCompose();
  }
}
