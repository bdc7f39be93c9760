/**
 * The recursive listing of `src/categories/topics-extend.js`: set selection and pinned
 * aggregation walk the category subtree (the category first, then each child's whole
 * list in child order), and the composer always receives an array of set names.
 */
module TopicsJs {
  import opened JsSemantics
  import opened SortedSets
  import opened CategoryQuery
  import opened Pagination

  /** The category tree accessor: `children` gives each category's direct children in
      order (a category missing from it is a leaf); `rank` is a height witness that every
      child ranks below its parent, which is how this model states that the tree has no
      cycles. */
  datatype CategoryTree = CategoryTree(children: map<nat, seq<nat>>, rank: map<nat, nat>)

  function Rank(t: CategoryTree, cid: nat): nat
  {
    if cid in t.rank then t.rank[cid] else 0
  }

  predicate ValidTree(t: CategoryTree)
  {
    forall p, c :: p in t.children && c in t.children[p] ==> Rank(t, c) < Rank(t, p)
  }

  /** `Categories.getChildrenCids(cid)`. */
  function ChildrenOf(t: CategoryTree, cid: nat): seq<nat>
  {
    if cid in t.children then t.children[cid] else []
  }

  /** The category's own entries: the base set, then one set per tag when a tag filter is
      present (lines 73-97, after which the list is always an array). */
  function OwnSets(d: Query, configSort: Option<string>): seq<SetName>
  {
    [BaseSet(d, configSort)] + (if TagTruthy(d.tag) then TagSets(d.tag) else [])
  }

  /** `buildTopicsSortedSetInThisCategory`: own entries, then each child's full list. */
  function SelectJs(t: CategoryTree, d: Query, configSort: Option<string>): seq<SetName>
    requires ValidTree(t)
    decreases Rank(t, d.cid), 1, 0
  {
    OwnSets(d, configSort) + ChildSelections(t, d, configSort, 0)
  }

  /** The lists of the children `i..` of `d.cid`, each for a descriptor copy with the child's cid. */
  function ChildSelections(t: CategoryTree, d: Query, configSort: Option<string>, i: nat): seq<SetName>
    requires ValidTree(t) && i <= |ChildrenOf(t, d.cid)|
    decreases Rank(t, d.cid), 0, |ChildrenOf(t, d.cid)| - i
  {
    var kids := ChildrenOf(t, d.cid);
    if i == |kids| then []
    else SelectJs(t, d.(cid := kids[i]), configSort) + ChildSelections(t, d, configSort, i + 1)
  }

  /** `getPinnedTidsInThisCategory`: the category's pinned set read newest-pinned first over
      the descriptor's window, then each child's pinned list with the same window. */
  function PinnedJs(st: Store, t: CategoryTree, d: Query): seq<Tid>
    requires ValidTree(t)
    decreases Rank(t, d.cid), 1, 0
  {
    RevRange(st, Pinned(d.cid), d.start, d.stop) + ChildPinned(st, t, d, 0)
  }

  function ChildPinned(st: Store, t: CategoryTree, d: Query, i: nat): seq<Tid>
    requires ValidTree(t) && i <= |ChildrenOf(t, d.cid)|
    decreases Rank(t, d.cid), 0, |ChildrenOf(t, d.cid)| - i
  {
    var kids := ChildrenOf(t, d.cid);
    if i == |kids| then []
    else PinnedJs(st, t, d.(cid := kids[i])) + ChildPinned(st, t, d, i + 1)
  }

  /** `getTopicIdsInThisCategory` of the recursive variant. */
  function ListTopicsJs(st: Store, t: CategoryTree, d: Query, configSort: Option<string>): seq<Tid>
    requires ValidTree(t)
  {
    ComposePage(st, d, PinnedJs(st, t, d.(start := 0, stop := -1)), Many(SelectJs(t, d, configSort)), RangeDirection(d.sort))
  }

  // ---------------------------------------------------------------------------------
  // The subtree in pre-order, and the two recursive lists as per-category concatenations.

  /** The category and all its descendants: the category first, then each child's subtree
      in child order. */
  function Subtree(t: CategoryTree, cid: nat): (r: seq<nat>)
    requires ValidTree(t)
    ensures |r| >= 1 && r[0] == cid
    decreases Rank(t, cid), 1, 0
  {
    [cid] + ChildSubtrees(t, cid, 0)
  }

  function ChildSubtrees(t: CategoryTree, cid: nat, i: nat): seq<nat>
    requires ValidTree(t) && i <= |ChildrenOf(t, cid)|
    decreases Rank(t, cid), 0, |ChildrenOf(t, cid)| - i
  {
    var kids := ChildrenOf(t, cid);
    if i == |kids| then [] else Subtree(t, kids[i]) + ChildSubtrees(t, cid, i + 1)
  }

  /** Own entries of each category in `cids`, concatenated. */
  function OwnSetsOf(d: Query, configSort: Option<string>, cids: seq<nat>): seq<SetName>
  {
    if cids == [] then [] else OwnSets(d.(cid := cids[0]), configSort) + OwnSetsOf(d, configSort, cids[1..])
  }

  /** The pinned window of each category in `cids`, concatenated. */
  function PinnedOf(st: Store, d: Query, cids: seq<nat>): seq<Tid>
  {
    if cids == [] then []
    else RevRange(st, Pinned(cids[0]), d.start, d.stop) + PinnedOf(st, d, cids[1..])
  }

  lemma {:induction false} OwnSetsOfAppend(d: Query, configSort: Option<string>, a: seq<nat>, b: seq<nat>)
    ensures OwnSetsOf(d, configSort, a + b) == OwnSetsOf(d, configSort, a) + OwnSetsOf(d, configSort, b)
  {
    if a != [] {
      assert (a + b)[1..] == a[1..] + b;
      OwnSetsOfAppend(d, configSort, a[1..], b);
    } else {
      assert a + b == b;
    }
  }

  lemma {:induction false} PinnedOfAppend(st: Store, d: Query, a: seq<nat>, b: seq<nat>)
    ensures PinnedOf(st, d, a + b) == PinnedOf(st, d, a) + PinnedOf(st, d, b)
  {
    if a != [] {
      assert (a + b)[1..] == a[1..] + b;
      PinnedOfAppend(st, d, a[1..], b);
    } else {
      assert a + b == b;
    }
  }

  /** The selected list is, category by category in subtree pre-order, each category's own
      entries (base set, then tag sets). */
  lemma {:induction false} SelectJsIsPreorder(t: CategoryTree, d: Query, configSort: Option<string>)
    requires ValidTree(t)
    ensures SelectJs(t, d, configSort) == OwnSetsOf(d, configSort, Subtree(t, d.cid))
    decreases Rank(t, d.cid), 1, 0
  {
    ChildSelectionsArePreorder(t, d, configSort, 0);
    OwnSetsOfAppend(d, configSort, [d.cid], ChildSubtrees(t, d.cid, 0));
    assert d.(cid := d.cid) == d;
  }

  lemma {:induction false} ChildSelectionsArePreorder(t: CategoryTree, d: Query, configSort: Option<string>, i: nat)
    requires ValidTree(t) && i <= |ChildrenOf(t, d.cid)|
    ensures ChildSelections(t, d, configSort, i) == OwnSetsOf(d, configSort, ChildSubtrees(t, d.cid, i))
    decreases Rank(t, d.cid), 0, |ChildrenOf(t, d.cid)| - i
  {
    var kids := ChildrenOf(t, d.cid);
    if i < |kids| {
      var child := d.(cid := kids[i]);
      SelectJsIsPreorder(t, child, configSort);
      ChildSelectionsArePreorder(t, d, configSort, i + 1);
      OwnSetsOfSameQuery(child, d, configSort, Subtree(t, kids[i]));
      OwnSetsOfAppend(d, configSort, Subtree(t, kids[i]), ChildSubtrees(t, d.cid, i + 1));
    }
  }

  /** `OwnSetsOf` reads everything of the descriptor except its cid. */
  lemma {:induction false} OwnSetsOfSameQuery(d1: Query, d2: Query, configSort: Option<string>, cids: seq<nat>)
    requires d1.(cid := 0) == d2.(cid := 0)
    ensures OwnSetsOf(d1, configSort, cids) == OwnSetsOf(d2, configSort, cids)
  {
    if cids != [] {
      assert d1.(cid := cids[0]) == d2.(cid := cids[0]);
      OwnSetsOfSameQuery(d1, d2, configSort, cids[1..]);
    }
  }

  /** The aggregated pinned list is, category by category in subtree pre-order, each
      category's pinned set read over the same window. */
  lemma {:induction false} PinnedJsIsPreorder(st: Store, t: CategoryTree, d: Query)
    requires ValidTree(t)
    ensures PinnedJs(st, t, d) == PinnedOf(st, d, Subtree(t, d.cid))
    decreases Rank(t, d.cid), 1, 0
  {
    ChildPinnedArePreorder(st, t, d, 0);
    PinnedOfAppend(st, d, [d.cid], ChildSubtrees(t, d.cid, 0));
  }

  lemma {:induction false} ChildPinnedArePreorder(st: Store, t: CategoryTree, d: Query, i: nat)
    requires ValidTree(t) && i <= |ChildrenOf(t, d.cid)|
    ensures ChildPinned(st, t, d, i) == PinnedOf(st, d, ChildSubtrees(t, d.cid, i))
    decreases Rank(t, d.cid), 0, |ChildrenOf(t, d.cid)| - i
  {
    var kids := ChildrenOf(t, d.cid);
    if i < |kids| {
      var child := d.(cid := kids[i]);
      PinnedJsIsPreorder(st, t, child);
      ChildPinnedArePreorder(st, t, d, i + 1);
      assert PinnedOf(st, child, Subtree(t, kids[i])) == PinnedOf(st, d, Subtree(t, kids[i])) by {
        PinnedOfSameWindow(st, child, d, Subtree(t, kids[i]));
      }
      PinnedOfAppend(st, d, Subtree(t, kids[i]), ChildSubtrees(t, d.cid, i + 1));
    }
  }

  lemma {:induction false} PinnedOfSameWindow(st: Store, d1: Query, d2: Query, cids: seq<nat>)
    requires d1.start == d2.start && d1.stop == d2.stop
    ensures PinnedOf(st, d1, cids) == PinnedOf(st, d2, cids)
  {
    if cids != [] {
      PinnedOfSameWindow(st, d1, d2, cids[1..]);
    }
  }

  lemma {:induction false} OwnSetsOfMembers(d: Query, configSort: Option<string>, cids: seq<nat>)
    ensures forall c :: c in cids ==> BaseSet(d.(cid := c), configSort) in OwnSetsOf(d, configSort, cids)
    ensures forall n :: n in OwnSetsOf(d, configSort, cids) ==>
      n.Tag? || exists c :: c in cids && n == BaseSet(d.(cid := c), configSort)
  {
    if cids != [] {
      OwnSetsOfMembers(d, configSort, cids[1..]);
      var own := OwnSets(d.(cid := cids[0]), configSort);
      assert forall n :: n in own ==> n.Tag? || n == BaseSet(d.(cid := cids[0]), configSort);
    }
  }

  /** Every category of the subtree contributes its base set, and every selected set is a
      tag set or the base set of some category of the subtree; so a pinned set is never
      selected. */
  lemma SelectionCoversSubtree(t: CategoryTree, d: Query, configSort: Option<string>)
    requires ValidTree(t)
    ensures forall c :: c in Subtree(t, d.cid) ==> BaseSet(d.(cid := c), configSort) in SelectJs(t, d, configSort)
    ensures forall n :: n in SelectJs(t, d, configSort) ==>
      n.Tag? || exists c :: c in Subtree(t, d.cid) && n == BaseSet(d.(cid := c), configSort)
    ensures forall n :: n in SelectJs(t, d, configSort) ==> !n.Pinned?
  {
    SelectJsIsPreorder(t, d, configSort);
    OwnSetsOfMembers(d, configSort, Subtree(t, d.cid));
    forall n | n in SelectJs(t, d, configSort) ensures !n.Pinned? {
      if !n.Tag? {
        var c :| c in Subtree(t, d.cid) && n == BaseSet(d.(cid := c), configSort);
        BaseSetChoice(d.(cid := c), configSort);
      }
    }
  }

  /** The topic count reads no pinned set: changing only pinned sets leaves it unchanged, so
      pinning a topic never changes the count. */
  lemma CountIgnoresPinnedSets(st1: Store, st2: Store, t: CategoryTree, d: Query, configSort: Option<string>)
    requires ValidTree(t)
    requires forall n: SetName :: !n.Pinned? ==> Members(st1, n) == Members(st2, n)
    ensures UnionCard(st1, SelectJs(t, d, configSort)) == UnionCard(st2, SelectJs(t, d, configSort))
  {
    var names := SelectJs(t, d, configSort);
    SelectionCoversSubtree(t, d, configSort);
    assert forall i :: 0 <= i < |names| ==> Members(st1, names[i]) == Members(st2, names[i]);
    assert MemberSet(st1, names) == MemberSet(st2, names);
  }

  /** The recursive variant always hands the composer an array, so a page that reads the
      store always issues a weighted union with weight 1 per set, never a plain range. */
  lemma JsReadsUnion(st: Store, t: CategoryTree, d: Query, configSort: Option<string>)
    requires ValidTree(t)
    ensures var pinned := PinnedJs(st, t, d.(start := 0, stop := -1));
      var q := NormalQuery(d, pinned, Many(SelectJs(t, d, configSort)), RangeDirection(d.sort));
      q.Some? ==> (
        && q.value.UnionQuery? && q.value.sets == SelectJs(t, d, configSort)
        && |q.value.weights| == |q.value.sets|
        && forall i :: 0 <= i < |q.value.weights| ==> q.value.weights[i] == 1)
  {
  }

  // ---------------------------------------------------------------------------------
  // The loops of the source, proved against the recursive functions above.

  /** `buildTopicsSortedSetInThisCategory`, with its two loops over the children: one that
      collects each child's list and one that appends them in turn. */
  method BuildTopicsSortedSet(t: CategoryTree, d: Query, configSort: Option<string>) returns (sets: seq<SetName>)
    requires ValidTree(t)
    ensures sets == SelectJs(t, d, configSort)
    decreases Rank(t, d.cid)
  {
    sets := OwnSets(d, configSort);
    var childCids := ChildrenOf(t, d.cid);
    var childSets: seq<seq<SetName>> := [];
    for i := 0 to |childCids|
      invariant |childSets| == i
      invariant forall j :: 0 <= j < i ==> childSets[j] == SelectJs(t, d.(cid := childCids[j]), configSort)
    {
      var childSet := BuildTopicsSortedSet(t, d.(cid := childCids[i]), configSort);
      childSets := childSets + [childSet];
    }
    for i := 0 to |childSets|
      invariant sets + ChildSelections(t, d, configSort, i) == SelectJs(t, d, configSort)
    {
      sets := sets + childSets[i];
    }
  }

  /** The pinned lists of the children `i..` of `d.cid`, one list per child. */
  function ChildPinnedLists(st: Store, t: CategoryTree, d: Query, i: nat): seq<seq<Tid>>
    requires ValidTree(t) && i <= |ChildrenOf(t, d.cid)|
    decreases |ChildrenOf(t, d.cid)| - i
  {
    var kids := ChildrenOf(t, d.cid);
    if i == |kids| then [] else [PinnedJs(st, t, d.(cid := kids[i]))] + ChildPinnedLists(st, t, d, i + 1)
  }

  /** The lists joined in order. */
  function Flatten<T>(lists: seq<seq<T>>): seq<T>
  {
    if lists == [] then [] else lists[0] + Flatten(lists[1..])
  }

  lemma {:induction false} ChildPinnedIsFlatten(st: Store, t: CategoryTree, d: Query, i: nat)
    requires ValidTree(t) && i <= |ChildrenOf(t, d.cid)|
    ensures ChildPinned(st, t, d, i) == Flatten(ChildPinnedLists(st, t, d, i))
    decreases |ChildrenOf(t, d.cid)| - i
  {
    if i < |ChildrenOf(t, d.cid)| {
      ChildPinnedIsFlatten(st, t, d, i + 1);
      var lists := ChildPinnedLists(st, t, d, i);
      assert lists[1..] == ChildPinnedLists(st, t, d, i + 1);
    }
  }

  /** `getPinnedTidsInThisCategory`: the category's own window, then the children's lists
      appended in child order. */
  method GetPinnedTids(st: Store, t: CategoryTree, d: Query) returns (tids: seq<Tid>)
    requires ValidTree(t)
    ensures tids == PinnedJs(st, t, d)
    decreases Rank(t, d.cid), 1
  {
    tids := RevRange(st, Pinned(d.cid), d.start, d.stop);
    var childLists := GetChildrenPinnedTids(st, t, d);
    ChildPinnedIsFlatten(st, t, d, 0);
    assert childLists[0..] == childLists;
    for i := 0 to |childLists|
      invariant tids + Flatten(childLists[i..]) == PinnedJs(st, t, d)
    {
      assert childLists[i..][1..] == childLists[i + 1..];
      tids := tids + childLists[i];
    }
  }

  /** The children's pinned lists, one recursive read per child (the `Promise.all` of the
      source, here one after another). */
  method GetChildrenPinnedTids(st: Store, t: CategoryTree, d: Query) returns (childLists: seq<seq<Tid>>)
    requires ValidTree(t)
    ensures childLists == ChildPinnedLists(st, t, d, 0)
    decreases Rank(t, d.cid), 0
  {
    var childCids := ChildrenOf(t, d.cid);
    childLists := [];
    for i := 0 to |childCids|
      invariant childLists + ChildPinnedLists(st, t, d, i) == ChildPinnedLists(st, t, d, 0)
    {
      var childList := GetPinnedTids(st, t, d.(cid := childCids[i]));
      assert childLists + ChildPinnedLists(st, t, d, i) == (childLists + [childList]) + ChildPinnedLists(st, t, d, i + 1);
      childLists := childLists + [childList];
    }
  }

  /** `getTopicIdsInThisCategory`: pinned ids over the full window `[0, -1]`, the selected
      sets of the unmodified descriptor and the direction, then the composer. */
  method GetTopicIds(st: Store, t: CategoryTree, d: Query, configSort: Option<string>) returns (tids: seq<Tid>)
    requires ValidTree(t)
    ensures tids == ListTopicsJs(st, t, d, configSort)
    ensures var pinned := PinnedJs(st, t, d.(start := 0, stop := -1));
      PinnedFirst(tids, PinnedOnPage(pinned, d.start, d.stop), pinned)
  {
    var dataForPinned := d.(start := 0, stop := -1);
    var pinnedTids := GetPinnedTids(st, t, dataForPinned);
    var sets := BuildTopicsSortedSet(t, d, configSort);
    var direction := RangeDirection(d.sort);
    tids := ComposePage(st, d, pinnedTids, Many(sets), direction);
  }

  /** `getTopicCountInThisCategory`: the union cardinality of the selected sets. */
  method GetTopicCount(st: Store, t: CategoryTree, d: Query, configSort: Option<string>) returns (count: nat)
    requires ValidTree(t)
    ensures count == UnionCard(st, SelectJs(t, d, configSort))
  {
    var sets := BuildTopicsSortedSet(t, d, configSort);
    count := UnionCard(st, sets);
  }

  /** The count of a category is at least the count of the base set of any category of
      its subtree. */
  lemma CountCoversSubtree(st: Store, t: CategoryTree, d: Query, configSort: Option<string>, c: nat)
    requires ValidTree(t) && c in Subtree(t, d.cid)
    ensures UnionCard(st, [BaseSet(d.(cid := c), configSort)]) <= UnionCard(st, SelectJs(t, d, configSort))
  {
    var sets := SelectJs(t, d, configSort);
    var n := BaseSet(d.(cid := c), configSort);
    SelectionCoversSubtree(t, d, configSort);
    var i :| 0 <= i < |sets| && sets[i] == n;
    var own, all := MemberSet(st, [n]), MemberSet(st, sets);
    forall tid | tid in own ensures tid in all {
      assert tid in Members(st, [n][0]);
    }
    SubsetCardinality(own, all);
  }

  lemma SubsetCardinality<T>(a: set<T>, b: set<T>)
    requires a <= b
    ensures |a| <= |b|
  {
    assert b == a + (b - a) && a * (b - a) == {};
  }
}
