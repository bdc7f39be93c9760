/**
 * The query descriptor of a category topic listing and the parts of set selection and
 * direction resolution that the recursive and the flat variant of the listing share.
 */
module CategoryQuery {
  import opened JsSemantics
  import opened SortedSets

  /** `data.tag`: absent, a single tag, or an array of tags. */
  datatype TagFilter = NoTag | OneTag(name: string) | TagList(names: seq<string>)

  /** `data.settings`, reduced to the field the listing reads. */
  datatype Settings = Settings(categoryTopicSort: Option<string>)

  /** The descriptor: `start`/`stop` are inclusive zero-based ranks, `stop = -1` is an
      unbounded page; `targetUid` is a user id (0 meaning none, as it is falsy). */
  datatype Query = Query(
    cid: nat,
    start: int,
    stop: int,
    sort: Option<string>,
    tag: TagFilter,
    targetUid: Option<int>,
    settings: Option<Settings>)

  datatype Direction = HighestToLowest | LowestToHighest

  /** What set selection hands to the composer: a bare set name or an array of names. */
  datatype SetSelection = Single(name: SetName) | Many(names: seq<SetName>)

  function SelectionNames(sel: SetSelection): seq<SetName>
  {
    if sel.Single? then [sel.name] else sel.names
  }

  /** The sort used to pick the base set: the descriptor's sort, else the user's setting,
      else the forum-wide `configSort`, else `newest_to_oldest`. */
  function SortForSets(d: Query, configSort: Option<string>): (r: string)
    ensures TruthyString(d.sort) ==> r == d.sort.value
    ensures !TruthyString(d.sort) && d.settings.Some? && TruthyString(d.settings.value.categoryTopicSort)
      ==> r == d.settings.value.categoryTopicSort.value
    ensures !TruthyString(d.sort) && !(d.settings.Some? && TruthyString(d.settings.value.categoryTopicSort))
      ==> r == (if TruthyString(configSort) then configSort.value else "newest_to_oldest")
    ensures r != ""
  {
    if TruthyString(d.sort) then d.sort.value
    else if d.settings.Some? && TruthyString(d.settings.value.categoryTopicSort) then d.settings.value.categoryTopicSort.value
    else if TruthyString(configSort) then configSort.value
    else "newest_to_oldest"
  }

  predicate TargetUidTruthy(d: Query)
  {
    d.targetUid.Some? && d.targetUid.value != 0
  }

  /** The category's own candidate set: chosen by sort mode, then overridden by the
      target user filter. */
  function BaseSet(d: Query, configSort: Option<string>): (r: SetName)
  {
    var bySort :=
      if SortForSets(d, configSort) == "most_posts" then Posts(d.cid)
      else if SortForSets(d, configSort) == "most_votes" then Votes(d.cid)
      else Main(d.cid);
    if TargetUidTruthy(d) then ByUser(d.cid, d.targetUid.value) else bySort
  }

  /** The base set belongs to the queried category, is never the pinned set, and is the
      user's set exactly when a target user is given; otherwise the sort decides. */
  lemma BaseSetChoice(d: Query, configSort: Option<string>)
    ensures var r := BaseSet(d, configSort);
      && !r.Tag? && !r.Pinned? && r.cid == d.cid
      && (r.ByUser? <==> TargetUidTruthy(d))
      && (r.ByUser? ==> r.uid == d.targetUid.value)
      && (r.Posts? <==> !TargetUidTruthy(d) && SortForSets(d, configSort) == "most_posts")
      && (r.Votes? <==> !TargetUidTruthy(d) && SortForSets(d, configSort) == "most_votes")
      && (r.Main? <==> !TargetUidTruthy(d) && SortForSets(d, configSort) != "most_posts"
                       && SortForSets(d, configSort) != "most_votes")
  {
  }

  /** `if (data.tag)`: a non-empty tag string, or any array (even an empty one). */
  predicate TagTruthy(tag: TagFilter)
  {
    tag.TagList? || (tag.OneTag? && tag.name != "")
  }

  /** `tag:<t>:topics` for each tag, in tag order. */
  function TagSets(tag: TagFilter): (r: seq<SetName>)
    ensures tag.OneTag? ==> r == [Tag(tag.name)]
    ensures tag.TagList? ==> |r| == |tag.names| && forall i :: 0 <= i < |r| ==> r[i] == Tag(tag.names[i])
    ensures tag.NoTag? ==> r == []
  {
    match tag
    case NoTag => []
    case OneTag(t) => [Tag(t)]
    case TagList(ts) => TagListSets(ts)
  }

  function TagListSets(ts: seq<string>): (r: seq<SetName>)
    ensures |r| == |ts| && forall i :: 0 <= i < |r| ==> r[i] == Tag(ts[i])
  {
    if ts == [] then [] else [Tag(ts[0])] + TagListSets(ts[1..])
  }

  /** `getSortedSetRangeDirectionInThisCategory`. */
  function RangeDirection(sort: Option<string>): Direction
  {
    var s := if TruthyString(sort) then sort.value else "newest_to_oldest";
    if s == "newest_to_oldest" || s == "most_posts" || s == "most_votes" then HighestToLowest
    else LowestToHighest
  }

  /** Descending order exactly for the three descending sort modes or no sort at all. */
  lemma DirectionMapping(sort: Option<string>)
    ensures RangeDirection(sort) == HighestToLowest <==>
      !TruthyString(sort) || sort.value in {"newest_to_oldest", "most_posts", "most_votes"}
    ensures RangeDirection(sort) == LowestToHighest <==>
      TruthyString(sort) && sort.value !in {"newest_to_oldest", "most_posts", "most_votes"}
  {
  }

  /** The direction reads only `data.sort`: with no sort on the descriptor, a user setting
      of `oldest_to_newest` still selects the main set but the listing runs descending. */
  lemma DirectionIgnoresSettings()
    ensures var d := Query(1, 0, 19, None, NoTag, None, Some(Settings(Some("oldest_to_newest"))));
      && SortForSets(d, None) == "oldest_to_newest"
      && BaseSet(d, None) == Main(1)
      && RangeDirection(d.sort) == HighestToLowest
  {
  }
}
