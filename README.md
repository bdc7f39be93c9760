# Category topic listing and category records

This project models, in Dafny, the part of the forum that lists the topic ids of a category
page and the part that normalises category records read from the database.

* **Topic listing, recursive variant** (`src/categories/topics-extend.js`). A page request is a
  descriptor (`cid`, an inclusive rank window `start`/`stop` with `stop = -1` for "to the end",
  a sort mode, an optional tag filter, an optional target user and the user's settings).
  - The **set selector** picks the category's candidate set: the main, posts or votes set, or
    the target user's set. It adds one `tag:<t>:topics` set per tag. It then recurses into the
    child categories, so the result is the whole subtree in pre-order.
  - The **pinned aggregator** reads each category's pinned set, newest pinned first, over the
    full window, with the same recursion.
  - The **direction** is descending for `newest_to_oldest`, `most_posts` and `most_votes` and
    for no sort; ascending otherwise.
  - The **composer** puts the page's slice of the pinned ids first. It returns early when the
    page is all pinned. Otherwise it shifts the normal window back by the pinned ids shown on
    earlier pages, reads that window from a weight-1 union of the selected sets, and drops
    every pinned id from it.
  - The **topic count** is the cardinality of the union of the selected sets.
* **Topic listing, flat variant** (`src/categories/topics-extend.ts`). It has the same
  composer. The selection is the category's own entries only: a bare set name when there is
  no tag filter, so the composer issues a plain range read. The pinned ids are the category's
  own pinned set.
* **Category records** (`src/categories/data.js`). A fetched category hash is an object that
  `modifyCategory` updates in place:
  - the tag limits get the forum defaults;
  - the integer fields are converted;
  - six display fields are HTML-escaped;
  - an empty icon becomes `hidden`;
  - the post and topic totals are copied;
  - a description is escaped.

  `getCategoriesFields` applies this to every fetched record. `getCategoryData` returns the
  first record or `null`.

Modules, one per file:
- `JsSemantics`: JavaScript `slice`, truthiness, reversal and number formatting.
- `SortedSets`: set names and their string keys, and the score-ordered store with its
  rank-window reads, unions and union cardinality.
- `CategoryQuery`: the descriptor, base and tag set choice, and direction.
- `Pagination`: the composer shared by both variants.
- `TopicsJs`: the recursive variant. Recursive specification functions are paired with
  loop methods proved equal to them.
- `TopicsTs`: the flat variant.
- `CategoryData`: the record normaliser, as the class `CategoryObject` whose `fields` map is
  updated in place, next to the functions that specify each step.

In the recursive variant the selection is always made an array (topics-extend.js:95-97), so
the plain-range branch at topics-extend.js:60-62 is never taken there. Every read of normal
ids is a weighted union, even for a leaf category without tags. `TopicsJs.JsReadsUnion`
states this, and `TopicsTs.TsAgreesWithJsOnLeaf` shows that on a consistent store the
one-set union and the flat variant's plain range give the same page.

## Model

| member | source | states |
|---|---|---|
| JsSemantics.Slice | src/categories/topics-extend.js:34 | `slice` length and elements, with negative indices counting back from the end and an omitted end meaning the length |
| SortedSets.KeyInjective | src/categories/topics-extend.js:74-91 | distinct set names render as distinct store keys (`cid:<cid>:tids`, `…:tids:posts`, `…:tids:votes`, `…:uid:<uid>:tids`, `tag:<t>:topics`), so keying the store by set name loses nothing |
| SortedSets.MemberSet | src/categories/topics-extend.js:69 | a topic is in the union exactly when one of the named sets holds it |
| SortedSets.RankRange | src/categories/topics-extend.js:61 | a rank window with `stop = -1` is the rest of the ranking from `start`; a window `0 <= start <= stop` is the clamped slice `[start, stop+1)` |
| SortedSets.Run | src/categories/topics-extend.js:54-61 | on a consistent store a range or union read has no duplicates and holds only members of the queried sets |
| CategoryQuery.SortForSets | src/categories/topics-extend.js:75 | a truthy descriptor sort is used; otherwise a truthy user setting; otherwise a truthy forum setting; otherwise `newest_to_oldest`; the result is never empty |
| CategoryQuery.BaseSetChoice | src/categories/topics-extend.js:73-85 | the base set belongs to the category and is never the pinned set; it is the target user's set if and only if a truthy target user is given, otherwise the posts or votes set if and only if the sort is `most_posts` or `most_votes`, else the main set |
| CategoryQuery.TagSets | src/categories/topics-extend.js:87-92 | one `tag:<t>:topics` set per tag, in tag order; one set for a single tag |
| CategoryQuery.DirectionMapping | src/categories/topics-extend.js:127-135 | descending if and only if the sort is falsy or one of the three descending modes; ascending if and only if it is any other truthy string |
| CategoryQuery.DirectionIgnoresSettings | src/categories/topics-extend.js:127-129 | the direction reads only the descriptor's sort: with no sort and a user setting `oldest_to_newest`, the main set is read descending |
| Pagination.PinnedOnPage | src/categories/topics-extend.js:34 | the page's pinned slice holds only pinned ids; it is the pinned list from `start` for an unbounded page and the clamped `[start, stop+1)` slice for a bounded one |
| Pagination.UnitWeights | src/categories/topics-extend.js:53 | one weight of 1 per set |
| Pagination.EarlyReturnWhenPagePinned | src/categories/topics-extend.js:36-41 | for `0 <= start`, a page returns only its pinned slice if and only if it is bounded and its last rank is below the pinned count (or the page is empty) |
| Pagination.CorrectedStartOnNormalPath | src/categories/topics-extend.js:43-46 | off the early return, the corrected start is `max(0, start - totalPinned)` |
| Pagination.NormalQuery | src/categories/topics-extend.js:33-62 | no store read if and only if the page returns early; otherwise the read covers exactly the selected sets, as a union if and only if the selection is an array, with weight 1 per set, reversed if and only if the direction is descending; its window starts at `max(0, start - totalPinned)`, is unbounded for an unbounded page, and is exactly as wide as the number of normal ids still needed |
| Pagination.WithoutPinned | src/categories/topics-extend.js:63 | the filter keeps exactly the ids not pinned, in the order of the read (a subsequence), keeps no duplicates, and is the identity when nothing is pinned |
| Pagination.ComposePage | src/categories/topics-extend.js:33-64 | the page starts with its pinned slice and no later id is pinned; an early return is the slice alone; otherwise the ids after the slice are exactly the ids of the store read that are not pinned, in the read's order |
| Pagination.ComposeDistinct | src/categories/topics-extend.js:33-64 | on a consistent store with a duplicate-free pinned list, no id appears twice on a page |
| Pagination.UnboundedPageListsEverything | src/categories/topics-extend.js:33-64 | the page `[0, -1]` is the whole pinned list followed by the whole candidate ranking minus the pinned ids |
| Pagination.SecondPageWindow | src/categories/topics-extend.js:43-48 | five pinned ids and page `[10, 19]`: no pinned id on the page, and the normal window is ranks 5 to 14 |
| Pagination.PagesTile | src/categories/topics-extend.js:36-48 | for consecutive bounded pages of equal size, the normal windows are adjacent, and after an all-pinned page the next window starts at rank 0, so each rank is read by one page |
| TopicsJs.SelectJsIsPreorder | src/categories/topics-extend.js:72-108 | the selection is each category's own entries concatenated over the subtree in pre-order |
| TopicsJs.ChildSelectionsArePreorder | src/categories/topics-extend.js:98-107 | the appended child lists are the own entries of the children's subtrees in child order |
| TopicsJs.OwnSetsOfSameQuery | src/categories/topics-extend.js:100-101 | a child's copy of the descriptor differs only in `cid`, and the own entries read nothing else that differs |
| TopicsJs.PinnedJsIsPreorder | src/categories/topics-extend.js:111-125 | the pinned list is each category's pinned window concatenated over the subtree in pre-order |
| TopicsJs.ChildPinnedArePreorder | src/categories/topics-extend.js:113-123 | the appended child pinned lists are the pinned windows of the children's subtrees in child order |
| TopicsJs.PinnedOfSameWindow | src/categories/topics-extend.js:116-117 | the pinned windows depend on the descriptor only through `start` and `stop` |
| TopicsJs.SelectionCoversSubtree | src/categories/topics-extend.js:72-108 | every category of the subtree contributes its base set; every selected set is a base set of a subtree category or a tag set; no pinned set is selected |
| TopicsJs.CountIgnoresPinnedSets | src/categories/topics-extend.js:67-70 | the topic count does not change when only pinned sets change |
| TopicsJs.CountCoversSubtree | src/categories/topics-extend.js:67-70 | the count is at least the size of the base set of any category in the subtree |
| TopicsJs.JsReadsUnion | src/categories/topics-extend.js:51-59 | whenever the recursive variant reads the store, it issues a weight-1 union over the whole selection, never a plain range |
| TopicsJs.BuildTopicsSortedSet | src/categories/topics-extend.js:72-109 | the two loops over the children (collect each child's list, then append them) produce the recursive selection |
| TopicsJs.ChildPinnedIsFlatten | src/categories/topics-extend.js:120-123 | appending the children's lists in order gives the children's part of the pinned list |
| TopicsJs.GetPinnedTids | src/categories/topics-extend.js:111-125 | the own pinned window followed by the appended child lists is the recursive pinned list |
| TopicsJs.GetChildrenPinnedTids | src/categories/topics-extend.js:113-120 | one pinned list per child, in child order |
| TopicsJs.GetTopicIds | src/categories/topics-extend.js:22-65 | the page is the composer's result on the full-window pinned list, the unmodified descriptor's selection and the direction; it starts with its pinned slice and holds no pinned id after it |
| TopicsJs.GetTopicCount | src/categories/topics-extend.js:67-70 | the count is the union cardinality of the recursive selection |
| TopicsTs.SelectTs | src/categories/topics-extend.ts:61-85 | a bare set name if and only if there is no tag filter; its names are the same own entries the recursive variant uses |
| TopicsTs.PinnedTs | src/categories/topics-extend.ts:87-89 | over the full window, the category's pinned set newest first |
| TopicsTs.ListTopicsTs | src/categories/topics-extend.ts:7-49 | a flat page starts with its slice of the category's own pinned set, newest pinned first, and holds no pinned id after it |
| TopicsTs.CountTs | src/categories/topics-extend.ts:51-54 | without a tag filter, the number of distinct topics of the base set; with one, the size of the union of the base set and the tag sets |
| TopicsTs.TsQueryShape | src/categories/topics-extend.ts:36-46 | without a tag the normal ids come from a plain range over the base set; with one, from a union of the base set and the tag sets |
| TopicsTs.TsAgreesWithJsOnLeaf | src/categories/topics-extend.ts:7-54 | on a leaf category of a consistent store the flat and recursive variants give the same page and the same count |
| TopicsTs.FirstPageExample | src/categories/topics-extend.ts:7-49 | topics 1..5 with 3 pinned, page `[0, 2]`, newest first: the page is 3, 5, 4 |
| CategoryData.ParseIntsFields | src/categories/data.js:77 | each listed integer field is converted once from its own value; other fields are untouched |
| CategoryData.EscapeUpToFields | src/categories/data.js:79-84 | each present listed field is escaped, no field is added, and other fields are untouched |
| CategoryData.EscapedRecordLookup | src/categories/data.js:74-84 | after the escape loop, an integer field holds the conversion of its defaulted value, a present escape field its escaped value, and any other field its original value |
| CategoryData.ModifiedEscapesFields | src/categories/data.js:79-84 | in the final record, a present `name`, `color`, `bgColor`, `imageClass`, `class` or `link` is `escape(String(v \|\| ''))` and an absent one stays absent |
| CategoryData.ModifiedIcon | src/categories/data.js:86-88 | a present falsy icon becomes `hidden`, a truthy one is kept, a missing one stays missing |
| CategoryData.ModifiedTotal | src/categories/data.js:90-96 | `totalPostCount` and `totalTopicCount` each equal the converted `post_count` or `topic_count` when that is present, and are otherwise unchanged |
| CategoryData.ModifiedDescription | src/categories/data.js:98-101 | a truthy description is escaped, and `descriptionParsed` keeps a truthy value or takes the escaped description; otherwise both are unchanged |
| CategoryData.ModifiedTagLimits | src/categories/data.js:59-77 | a processed tag limit that is missing, `null`, empty or not a non-zero integer takes the forum default; either way it then goes through the integer conversion |
| CategoryData.ModifiedKeepsOtherFields | src/categories/data.js:69-102 | a field the normaliser does not name keeps its presence and value |
| CategoryData.CategoryObject.DefaultMinMaxTags | src/categories/data.js:59-67 | the record's new fields are the defaulting rule applied to the old ones |
| CategoryData.CategoryObject.Modify | src/categories/data.js:74-101 | the in-place steps, including the escape loop, leave exactly the normalised record |
| CategoryData.CategoryObject.IconOrHidden | src/categories/data.js:86-88 | the icon step in place |
| CategoryData.CategoryObject.CopyCounts | src/categories/data.js:90-96 | the two total copies in place |
| CategoryData.CategoryObject.EscapeDescriptionField | src/categories/data.js:98-101 | the description step in place |
| CategoryData.ModifyCategory | src/categories/data.js:69-72 | a `null` record is left alone; a present one is normalised |
| CategoryData.GetCategoriesFields | src/categories/data.js:15-24 | a non-array or empty id list returns `[]` and changes no record; otherwise it returns the fetched records, each normalised with the requested fields |
| CategoryData.GetCategoryData | src/categories/data.js:26-29 | the first fetched record normalised with no requested fields, or `null` when nothing was fetched |

## Left out

- The union's scoring (how the store ranks a weighted union) is not modelled. A store holds an
  opaque ranking function. `SortedSets.WellFormed` only requires that a union ranks exactly the
  members of its sets, once each, and that a one-set union with weight 1 ranks like the set.
- `Promise.all` and the concurrent child reads are modelled as sequential loops. The results
  are the same because the branches share no state.
- Hydrating topics (`getCategoryTopicsInThisCategory`, topics-extend.js:10-20) is left out:
  topic loading, block filtering and index calculation are outside the core.
- `Categories.getChildrenCids` is the `children` map of a `TopicsJs.CategoryTree`. The rank
  map stands for the tree having no cycles, which the source relies on without checking.
- `meta.config.categoryTopicSort` and the two tag-limit defaults are parameters.
- `validator.escape`, `parseInt(v, 10) != 0` and `db.parseIntFields` are opaque functions in
  `CategoryData.Env`.
- CategoryData.ParseInts: models `db.parseIntFields` as converting each listed field on its
  own, from that field's value and the requested fields, because the database helper is not
  part of this model.
- `db.getObjects` / `db.getObjectsFields` and the `category:<cid>` keys are not modelled. The
  fetched records are a parameter of `GetCategoriesFields`, and `NoSharedRecords` rules out one
  object being fetched twice. Aliasing between records is therefore not modelled.
- `_.cloneDeep` of the descriptor is a datatype update: descriptors are values.
- The flat variant's `getCids` (topics-extend.ts:56-59, 65) computes a value that nothing uses.
  It is left out.
- TopicsTs.CountTs, TopicsTs.TsAgreesWithJsOnLeaf: the flat variant's count hands
  `sortedSetUnionCard` a bare name when there is no tag (topics-extend.ts:52-53). The model
  reads that as a list of one set. How the database adapter treats a bare string is not
  part of this model, and the count half of `TsAgreesWithJsOnLeaf` rests on that reading.
- JavaScript values are limited to `undefined`, `null`, strings and integers. `targetUid` is
  an integer, and sort names and tags are strings. Booleans, floating point and objects in
  record fields are not modelled.
- The other exports of `src/categories/data.js` are thin wrappers outside the core: they are
  `getCategoriesData`, `getCategoryField`, `getCategoryFields`, `getAllCategoryFields`,
  `setCategoryField` and `incrementCategoryFieldBy`.
- Pagination.EarlyReturnWhenPagePinned, Pagination.CorrectedStartOnNormalPath,
  Pagination.PagesTile: stated for `start >= 0` only. The callers pass non-negative starts,
  and the raw formulas stay modelled for every `start` in `NormalQuery`.
