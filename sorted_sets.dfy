/**
 * The score-ordered-set store as the topic listing sees it: named sets of topic ids, a
 * rank-range read in either direction, a weighted union whose ranking is the store's own
 * business, and the cardinality of a union.
 */
module SortedSets {
  import opened JsSemantics

  /** Topic ids are opaque non-negative integers. */
  type Tid = nat

  /** The families of set names the category code reads; `Key` renders them as the store's
      string keys. */
  datatype SetName =
    | Main(cid: nat)                 // cid:<cid>:tids
    | Posts(cid: nat)                // cid:<cid>:tids:posts
    | Votes(cid: nat)                // cid:<cid>:tids:votes
    | ByUser(cid: nat, uid: int)     // cid:<cid>:uid:<uid>:tids
    | Tag(tag: string)               // tag:<tag>:topics
    | Pinned(cid: nat)               // cid:<cid>:tids:pinned

  /** What follows `cid:<cid>` in a category set's key. */
  function CategorySuffix(n: SetName): (r: string)
    requires !n.Tag?
    ensures |r| >= 5 && r[0] == ':'
  {
    match n
    case Main(_) => ":tids"
    case Posts(_) => ":tids:posts"
    case Votes(_) => ":tids:votes"
    case ByUser(_, uid) => ":uid:" + IntToString(uid) + ":tids"
    case Pinned(_) => ":tids:pinned"
  }

  /** The string key of a set, built the way the category code concatenates it. */
  function Key(n: SetName): string
  {
    if n.Tag? then "tag:" + n.tag + ":topics"
    else "cid:" + (NatToString(n.cid) + CategorySuffix(n))
  }

  /** Position of the first colon in a string (its length when there is none). */
  function ColonIndex(x: string): (r: nat)
    ensures r <= |x|
  {
    if x == [] || x[0] == ':' then 0 else 1 + ColonIndex(x[1..])
  }

  lemma {:induction false} ColonAfterDigits(d: string, s: string)
    requires AllDigits(d) && |s| > 0 && s[0] == ':'
    ensures ColonIndex(d + s) == |d|
  {
    if d != [] {
      assert (d + s)[0] == d[0] && (d + s)[1..] == d[1..] + s;
      ColonAfterDigits(d[1..], s);
    } else {
      assert d + s == s;
    }
  }

  /** Splitting `<digits><suffix>` where the suffix starts with a colon is unambiguous. */
  lemma DigitsThenColon(d1: string, s1: string, d2: string, s2: string)
    requires AllDigits(d1) && AllDigits(d2)
    requires |s1| > 0 && s1[0] == ':' && |s2| > 0 && s2[0] == ':'
    requires d1 + s1 == d2 + s2
    ensures d1 == d2 && s1 == s2
  {
    ColonAfterDigits(d1, s1);
    ColonAfterDigits(d2, s2);
    assert d1 == (d1 + s1)[..|d1|] == (d2 + s2)[..|d2|] == d2;
    assert s1 == (d1 + s1)[|d1|..] == (d2 + s2)[|d2|..] == s2;
  }

  /** The characters that tell the category suffixes apart. */
  lemma SuffixMarks(n: SetName)
    requires !n.Tag?
    ensures CategorySuffix(n)[1] == (if n.ByUser? then 'u' else 't')
    ensures n.Main? <==> |CategorySuffix(n)| == 5 && !n.ByUser?
    ensures n.Pinned? <==> |CategorySuffix(n)| == 12 && !n.ByUser?
    ensures n.Posts? || n.Votes? ==> |CategorySuffix(n)| == 11 && CategorySuffix(n)[6] == (if n.Posts? then 'p' else 'v')
  {
  }

  lemma CategorySuffixInjective(a: SetName, b: SetName)
    requires !a.Tag? && !b.Tag? && a.cid == b.cid
    requires CategorySuffix(a) == CategorySuffix(b)
    ensures a == b
  {
    SuffixMarks(a);
    SuffixMarks(b);
    var sa, sb := CategorySuffix(a), CategorySuffix(b);
    if a.ByUser? && b.ByUser? {
      var ua, ub := IntToString(a.uid), IntToString(b.uid);
      assert ua == sa[5..|sa| - 5] == sb[5..|sb| - 5] == ub;
      IntToStringInjective(a.uid, b.uid);
    }
  }

  lemma CategoryKeyInjective(a: SetName, b: SetName)
    requires !a.Tag? && !b.Tag? && Key(a) == Key(b)
    ensures a == b
  {
    var da, db := NatToString(a.cid), NatToString(b.cid);
    var sa, sb := CategorySuffix(a), CategorySuffix(b);
    assert da + sa == Key(a)[4..] == Key(b)[4..] == db + sb;
    DigitsThenColon(da, sa, db, sb);
    NatToStringInjective(a.cid, b.cid);
    CategorySuffixInjective(a, b);
  }

  /** Distinct set names have distinct keys, so a store keyed by `SetName` is faithful to
      one keyed by the rendered strings. */
  lemma KeyInjective(a: SetName, b: SetName)
    requires Key(a) == Key(b)
    ensures a == b
  {
    var ka, kb := Key(a), Key(b);
    assert ka[0] == (if a.Tag? then 't' else 'c');
    assert kb[0] == (if b.Tag? then 't' else 'c');
    if a.Tag? && b.Tag? {
      assert a.tag == ka[4..|ka| - 7] == kb[4..|kb| - 7] == b.tag;
    } else if !a.Tag? && !b.Tag? {
      CategoryKeyInjective(a, b);
    }
  }

  /** The store: each named set lists its members in ascending score order (a missing set
      is empty); `unionOrder(sets, weights)` is the ascending ranking the store gives a
      weighted union, whose scoring is not modelled. */
  datatype Store = Store(sets: map<SetName, seq<Tid>>, unionOrder: (seq<SetName>, seq<int>) -> seq<Tid>)

  function Members(st: Store, n: SetName): seq<Tid>
  {
    if n in st.sets then st.sets[n] else []
  }

  /** Every topic that belongs to at least one of the named sets. */
  function MemberSet(st: Store, names: seq<SetName>): (r: set<Tid>)
    ensures forall t :: t in r <==> exists i :: 0 <= i < |names| && t in Members(st, names[i])
  {
    if names == [] then {}
    else
      var rest := MemberSet(st, names[1..]);
      assert forall t :: t in rest <==> exists i :: 1 <= i < |names| && t in Members(st, names[i]) by {
        forall t | t in rest ensures exists i :: 1 <= i < |names| && t in Members(st, names[i]) {
          var j :| 0 <= j < |names| - 1 && t in Members(st, names[1..][j]);
          assert names[1..][j] == names[j + 1];
        }
        forall t | (exists i :: 1 <= i < |names| && t in Members(st, names[i])) ensures t in rest {
          var i :| 1 <= i < |names| && t in Members(st, names[i]);
          assert names[1..][i - 1] == names[i];
        }
      }
      (set t | t in Members(st, names[0])) + rest
  }

  /** The store's own consistency: sets hold no duplicates; a union ranks exactly the
      members of its sets, once each; a union of one set with weight 1 ranks that set
      as the set itself does. */
  ghost predicate WellFormed(st: Store)
  {
    && (forall n :: n in st.sets ==> Distinct(st.sets[n]))
    && (forall names, weights ::
          Distinct(st.unionOrder(names, weights)) &&
          (forall t :: t in st.unionOrder(names, weights) <==> t in MemberSet(st, names)))
    && (forall n :: st.unionOrder([n], [1]) == Members(st, n))
  }

  /** A rank window `[start, stop]` over a ranking, with the store's index rules: a
      negative index counts back from the end (so `stop = -1` means "to the end") and an
      index past the end is clamped. */
  function RankRange(s: seq<Tid>, start: int, stop: int): (r: seq<Tid>)
    ensures 0 <= start && stop == -1 ==> r == s[Min(start, |s|)..]
    ensures 0 <= start <= stop ==> r == s[Min(start, |s|)..Min(stop + 1, |s|)]
  {
    var n := |s|;
    var b := if start < 0 then Max(0, n + start) else start;
    var e := if stop < 0 then n + stop else if stop >= n then n - 1 else stop;
    if b > e || b >= n then [] else s[b..e + 1]
  }

  /** A window holds only ids of its ranking, and no duplicates when the ranking has none. */
  lemma RankRangeWithin(s: seq<Tid>, start: int, stop: int)
    ensures forall t :: t in RankRange(s, start, stop) ==> t in s
    ensures Distinct(s) ==> Distinct(RankRange(s, start, stop))
  {
  }

  /** One read against the store: a range over a single set or over a weighted union. */
  datatype StoreQuery =
    | RangeQuery(name: SetName, start: int, stop: int, reverse: bool)
    | UnionQuery(sets: seq<SetName>, weights: seq<int>, start: int, stop: int, reverse: bool)

  function QueriedSets(q: StoreQuery): seq<SetName>
  {
    if q.RangeQuery? then [q.name] else q.sets
  }

  /** The ranking a query reads, in the query's direction. */
  function Ranking(st: Store, q: StoreQuery): seq<Tid>
  {
    var asc := if q.RangeQuery? then Members(st, q.name) else st.unionOrder(q.sets, q.weights);
    if q.reverse then Reversed(asc) else asc
  }

  /** `getSortedSet[Rev]Range` / `getSortedSet[Rev]Union`: the query's window of its ranking. */
  function Run(st: Store, q: StoreQuery): (r: seq<Tid>)
    ensures WellFormed(st) ==> Distinct(r)
    ensures WellFormed(st) ==> forall t :: t in r ==> t in MemberSet(st, QueriedSets(q))
  {
    var asc := if q.RangeQuery? then Members(st, q.name) else st.unionOrder(q.sets, q.weights);
    assert WellFormed(st) ==> Distinct(asc) && forall t :: t in asc ==> t in MemberSet(st, QueriedSets(q)) by {
      if WellFormed(st) && q.RangeQuery? {
        assert forall t :: t in asc ==> t in Members(st, QueriedSets(q)[0]);
      }
    }
    if q.reverse then
      ReversedDistinct(asc);
      RankRangeWithin(Reversed(asc), q.start, q.stop);
      RankRange(Reversed(asc), q.start, q.stop)
    else
      RankRangeWithin(asc, q.start, q.stop);
      RankRange(asc, q.start, q.stop)
  }

  /** `getSortedSetRevRange(name, start, stop)`: a window of the set read from the highest
      score down. */
  function RevRange(st: Store, name: SetName, start: int, stop: int): seq<Tid>
  {
    RankRange(Reversed(Members(st, name)), start, stop)
  }

  /** `sortedSetUnionCard`: how many distinct topics the named sets hold together. */
  function UnionCard(st: Store, names: seq<SetName>): nat
  {
    |MemberSet(st, names)|
  }
}
