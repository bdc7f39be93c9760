/**
 * The category-record normaliser of `src/categories/data.js`: a fetched category hash is
 * a mutable record whose fields `modifyCategory` defaults, converts, escapes and derives
 * in place, and `getCategoriesFields` applies that to every fetched record.
 */
module CategoryData {
  import opened JsSemantics

  /** A record: field name to value; a field not in the map is not an own property. */
  type Record = map<string, Value>

  function Lookup(m: Record, k: string): Option<Value>
  {
    if k in m then Some(m[k]) else None
  }

  /** Sets a field to a value, or deletes it when the value is `None`. */
  function Assign(m: Record, k: string, v: Option<Value>): Record
  {
    if v.Some? then m[k := v.value] else m - {k}
  }

  /** What the normaliser needs from outside: the two forum-wide tag defaults
      (`meta.config`), the HTML escaper, whether `parseInt(v, 10)` yields a non-zero
      number, and the database helper's conversion of one integer field (given the field,
      the requested fields and the field's current value, it yields the new value or
      removes the field). */
  datatype Env = Env(
    minimumTagsPerTopic: Value,
    maximumTagsPerTopic: Value,
    escape: string -> string,
    parsesToNonzeroInt: Value -> bool,
    parseIntField: (string, seq<string>, Option<Value>) -> Option<Value>)

  const IntFields: seq<string> := [
    "cid", "parentCid", "disabled", "isSection", "order",
    "topic_count", "post_count", "numRecentReplies",
    "minTags", "maxTags"]

  const EscapeFields: seq<string> := ["name", "color", "bgColor", "imageClass", "class", "link"]

  /** A field is processed when no fields were requested (the whole record was fetched) or
      when it is one of the requested fields. */
  predicate Requested(requested: seq<string>, name: string)
  {
    requested == [] || name in requested
  }

  /** The tag-limit field is missing, `null`, empty, or does not parse to a non-zero
      integer. */
  predicate UseDefault(env: Env, obj: Record, name: string)
  {
    name !in obj || obj[name] == Null || obj[name] == Str("") || !env.parsesToNonzeroInt(obj[name])
  }

  /** `defaultMinMaxTags`. */
  function WithDefaultTags(env: Env, obj: Record, requested: seq<string>, name: string, default: Value): Record
  {
    if Requested(requested, name) && UseDefault(env, obj, name) then obj[name := default] else obj
  }

  /** `db.parseIntFields(category, intFields, fields)`: each listed field converted on its
      own, in list order. */
  function ParseInts(env: Env, m: Record, requested: seq<string>, fs: seq<string>): Record
  {
    if fs == [] then m
    else
      var before := ParseInts(env, m, requested, fs[..|fs| - 1]);
      var f := fs[|fs| - 1];
      Assign(before, f, env.parseIntField(f, requested, Lookup(before, f)))
  }

  /** A display field after escaping: a falsy value becomes the empty string, any other is
      rendered as text, and the result goes through the HTML escaper. */
  function Escaped(env: Env, v: Value): Value
  {
    Str(env.escape(if Truthy(v) then ToJsString(v) else ""))
  }

  /** The escape loop over the first `|fs|` escape fields: a present field is escaped, an
      absent one stays absent. */
  function EscapeUpTo(env: Env, m: Record, fs: seq<string>): Record
  {
    if fs == [] then m
    else
      var before := EscapeUpTo(env, m, fs[..|fs| - 1]);
      var f := fs[|fs| - 1];
      if f in before then before[f := Escaped(env, before[f])] else before
  }

  /** A record that has an icon keeps a truthy one and gets `hidden` in place of a falsy
      one. */
  function HideEmptyIcon(m: Record): Record
  {
    if "icon" in m then m["icon" := if Truthy(m["icon"]) then m["icon"] else Str("hidden")] else m
  }

  /** The two derived totals, each copied only when its source count is present. */
  function CopyTotals(m: Record): Record
  {
    var withPosts := if "post_count" in m then m["totalPostCount" := m["post_count"]] else m;
    if "topic_count" in withPosts then withPosts["totalTopicCount" := withPosts["topic_count"]] else withPosts
  }

  /** A truthy description is escaped; `descriptionParsed` keeps a truthy value of its own
      and otherwise takes the escaped description. */
  function EscapeDescription(env: Env, m: Record): Record
  {
    if "description" in m && Truthy(m["description"]) then
      var desc := Str(env.escape(ToJsString(m["description"])));
      var parsed := if "descriptionParsed" in m && Truthy(m["descriptionParsed"]) then m["descriptionParsed"] else desc;
      m["description" := desc]["descriptionParsed" := parsed]
    else m
  }

  /** The record after the two tag-limit defaults. */
  function Defaulted(env: Env, obj: Record, requested: seq<string>): Record
  {
    var withMin := WithDefaultTags(env, obj, requested, "minTags", env.minimumTagsPerTopic);
    WithDefaultTags(env, withMin, requested, "maxTags", env.maximumTagsPerTopic)
  }

  /** The record after the tag defaults and the integer conversion. */
  function Parsed(env: Env, obj: Record, requested: seq<string>): Record
  {
    ParseInts(env, Defaulted(env, obj, requested), requested, IntFields)
  }

  /** The record after the escape loop. */
  function EscapedRecord(env: Env, obj: Record, requested: seq<string>): Record
  {
    EscapeUpTo(env, Parsed(env, obj, requested), EscapeFields)
  }

  /** `modifyCategory(category, fields)` on a present record. */
  function Modified(env: Env, obj: Record, requested: seq<string>): Record
  {
    EscapeDescription(env, CopyTotals(HideEmptyIcon(EscapedRecord(env, obj, requested))))
  }

  lemma FieldListsDistinct()
    ensures Distinct(IntFields) && Distinct(EscapeFields)
  {
  }

  lemma EscapeFieldsAreNotIntFields(f: string)
    requires f in EscapeFields
    ensures f !in IntFields
  {
  }

  /** The integer conversion touches each listed field once, from that field's own value,
      and leaves every other field as it was. */
  lemma {:induction false} ParseIntsFields(env: Env, m: Record, requested: seq<string>, fs: seq<string>, k: string)
    requires Distinct(fs)
    ensures Lookup(ParseInts(env, m, requested, fs), k) ==
      if k in fs then env.parseIntField(k, requested, Lookup(m, k)) else Lookup(m, k)
  {
    if fs != [] {
      var init := fs[..|fs| - 1];
      assert Distinct(init);
      assert forall x :: x in fs <==> x in init || x == fs[|fs| - 1];
      ParseIntsFields(env, m, requested, init, k);
      if k == fs[|fs| - 1] {
        assert k !in init;
      }
    }
  }

  /** The escape loop escapes each listed field that is present, adds none, and leaves
      every other field as it was. */
  lemma {:induction false} EscapeUpToFields(env: Env, m: Record, fs: seq<string>, k: string)
    requires Distinct(fs)
    ensures Lookup(EscapeUpTo(env, m, fs), k) ==
      if k in fs && k in m then Some(Escaped(env, m[k])) else Lookup(m, k)
  {
    if fs != [] {
      var init := fs[..|fs| - 1];
      assert Distinct(init);
      assert forall x :: x in fs <==> x in init || x == fs[|fs| - 1];
      EscapeUpToFields(env, m, init, k);
      if k == fs[|fs| - 1] {
        assert k !in init;
      }
    }
  }

  /** A field after the escape loop: an integer field holds the conversion of its
      (possibly defaulted) value, a present escape field is escaped, and any other field
      is as it came. */
  lemma EscapedRecordLookup(env: Env, obj: Record, requested: seq<string>, k: string)
    ensures Lookup(EscapedRecord(env, obj, requested), k) ==
      if k in IntFields then env.parseIntField(k, requested, Lookup(Defaulted(env, obj, requested), k))
      else if k in EscapeFields && k in obj then Some(Escaped(env, obj[k]))
      else Lookup(obj, k)
  {
    FieldListsDistinct();
    var defaulted := Defaulted(env, obj, requested);
    ParseIntsFields(env, defaulted, requested, IntFields, k);
    EscapeUpToFields(env, Parsed(env, obj, requested), EscapeFields, k);
    if k in EscapeFields {
      EscapeFieldsAreNotIntFields(k);
    }
    if k !in IntFields {
      assert k != "minTags" && k != "maxTags";
      assert Lookup(defaulted, k) == Lookup(obj, k);
    }
  }

  /** The last three steps leave fields other than theirs alone. */
  lemma LateStepsKeep(env: Env, m: Record, k: string)
    requires k !in ["icon", "totalPostCount", "totalTopicCount", "description", "descriptionParsed"]
    ensures Lookup(EscapeDescription(env, CopyTotals(HideEmptyIcon(m))), k) == Lookup(m, k)
  {
  }

  /** An escape field present on the record comes out escaped; an absent one is not added. */
  lemma ModifiedEscapesFields(env: Env, obj: Record, requested: seq<string>, f: string)
    requires f in EscapeFields
    ensures Lookup(Modified(env, obj, requested), f) ==
      if f in obj then Some(Escaped(env, obj[f])) else None
  {
    EscapeFieldsAreNotIntFields(f);
    EscapedRecordLookup(env, obj, requested, f);
    LateStepsKeep(env, EscapedRecord(env, obj, requested), f);
  }

  /** An icon that is present but falsy becomes `hidden`; a truthy one is kept and a
      missing one stays missing. */
  lemma ModifiedIcon(env: Env, obj: Record, requested: seq<string>)
    ensures Lookup(Modified(env, obj, requested), "icon") ==
      if "icon" !in obj then None
      else if Truthy(obj["icon"]) then Some(obj["icon"])
      else Some(Str("hidden"))
  {
    var escaped := EscapedRecord(env, obj, requested);
    EscapedRecordLookup(env, obj, requested, "icon");
    assert Lookup(escaped, "icon") == Lookup(obj, "icon");
    var iconed := HideEmptyIcon(escaped);
    assert Lookup(EscapeDescription(env, CopyTotals(iconed)), "icon") == Lookup(iconed, "icon");
  }

  /** A derived total (`totalPostCount` from `post_count`, `totalTopicCount` from
      `topic_count`) equals the converted count when that is present, and is otherwise left
      as it was. */
  lemma ModifiedTotal(env: Env, obj: Record, requested: seq<string>, count: string, total: string)
    requires (count == "post_count" && total == "totalPostCount") || (count == "topic_count" && total == "totalTopicCount")
    ensures var r := Modified(env, obj, requested);
      var converted := env.parseIntField(count, requested, Lookup(obj, count));
      && Lookup(r, count) == converted
      && Lookup(r, total) == (if converted.Some? then converted else Lookup(obj, total))
  {
    var escaped := EscapedRecord(env, obj, requested);
    EscapedRecordLookup(env, obj, requested, count);
    EscapedRecordLookup(env, obj, requested, total);
    assert Lookup(Defaulted(env, obj, requested), count) == Lookup(obj, count);
    var iconed := HideEmptyIcon(escaped);
    assert Lookup(iconed, count) == Lookup(escaped, count);
    assert Lookup(iconed, total) == Lookup(escaped, total);
    var totals := CopyTotals(iconed);
    CopyTotalsLookup(iconed);
    DescriptionStepKeeps(env, totals, count);
    DescriptionStepKeeps(env, totals, total);
  }

  lemma CopyTotalsLookup(m: Record)
    ensures Lookup(CopyTotals(m), "post_count") == Lookup(m, "post_count")
    ensures Lookup(CopyTotals(m), "topic_count") == Lookup(m, "topic_count")
    ensures Lookup(CopyTotals(m), "totalPostCount") ==
      if "post_count" in m then Some(m["post_count"]) else Lookup(m, "totalPostCount")
    ensures Lookup(CopyTotals(m), "totalTopicCount") ==
      if "topic_count" in m then Some(m["topic_count"]) else Lookup(m, "totalTopicCount")
  {
  }

  lemma DescriptionStepKeeps(env: Env, m: Record, k: string)
    requires k != "description" && k != "descriptionParsed"
    ensures Lookup(EscapeDescription(env, m), k) == Lookup(m, k)
  {
  }

  /** A truthy description is escaped and `descriptionParsed` keeps its truthy value or
      takes the escaped description; a falsy or missing description leaves both alone. */
  lemma ModifiedDescription(env: Env, obj: Record, requested: seq<string>)
    ensures var r := Modified(env, obj, requested);
      var desc := Lookup(obj, "description");
      var parsed := Lookup(obj, "descriptionParsed");
      if desc.Some? && Truthy(desc.value) then
        var escaped := Str(env.escape(ToJsString(desc.value)));
        && Lookup(r, "description") == Some(escaped)
        && Lookup(r, "descriptionParsed") == (if parsed.Some? && Truthy(parsed.value) then parsed else Some(escaped))
      else
        && Lookup(r, "description") == desc
        && Lookup(r, "descriptionParsed") == parsed
  {
    var escaped := EscapedRecord(env, obj, requested);
    EscapedRecordLookup(env, obj, requested, "description");
    EscapedRecordLookup(env, obj, requested, "descriptionParsed");
    var totals := CopyTotals(HideEmptyIcon(escaped));
    assert Lookup(totals, "description") == Lookup(obj, "description");
    assert Lookup(totals, "descriptionParsed") == Lookup(obj, "descriptionParsed");
    EscapeDescriptionLookup(env, totals);
  }

  lemma EscapeDescriptionLookup(env: Env, m: Record)
    ensures var r := EscapeDescription(env, m);
      var desc := Lookup(m, "description");
      var parsed := Lookup(m, "descriptionParsed");
      if desc.Some? && Truthy(desc.value) then
        var escaped := Str(env.escape(ToJsString(desc.value)));
        && Lookup(r, "description") == Some(escaped)
        && Lookup(r, "descriptionParsed") == (if parsed.Some? && Truthy(parsed.value) then parsed else Some(escaped))
      else
        && Lookup(r, "description") == desc
        && Lookup(r, "descriptionParsed") == parsed
  {
  }

  /** The tag limits: when the field is processed and its value is missing, `null`, empty
      or not a non-zero integer, the forum default takes its place; either way the value
      then goes through the integer conversion. */
  lemma ModifiedTagLimits(env: Env, obj: Record, requested: seq<string>)
    ensures var r := Modified(env, obj, requested);
      var min := if Requested(requested, "minTags") && UseDefault(env, obj, "minTags")
        then Some(env.minimumTagsPerTopic) else Lookup(obj, "minTags");
      var max := if Requested(requested, "maxTags") && UseDefault(env, obj, "maxTags")
        then Some(env.maximumTagsPerTopic) else Lookup(obj, "maxTags");
      && Lookup(r, "minTags") == env.parseIntField("minTags", requested, min)
      && Lookup(r, "maxTags") == env.parseIntField("maxTags", requested, max)
  {
    var escaped := EscapedRecord(env, obj, requested);
    EscapedRecordLookup(env, obj, requested, "minTags");
    EscapedRecordLookup(env, obj, requested, "maxTags");
    LateStepsKeep(env, escaped, "minTags");
    LateStepsKeep(env, escaped, "maxTags");
  }

  /** Fields the normaliser does not name keep their presence and value. */
  lemma ModifiedKeepsOtherFields(env: Env, obj: Record, requested: seq<string>, k: string)
    requires k !in IntFields && k !in EscapeFields
    requires k !in ["icon", "totalPostCount", "totalTopicCount", "description", "descriptionParsed"]
    ensures Lookup(Modified(env, obj, requested), k) == Lookup(obj, k)
  {
    EscapedRecordLookup(env, obj, requested, k);
    LateStepsKeep(env, EscapedRecord(env, obj, requested), k);
  }

  /** A fetched category hash, updated in place. */
  class CategoryObject {
    var fields: Record

    constructor(initial: Record)
      ensures fields == initial
    {
      fields := initial;
    }

    /** `defaultMinMaxTags(category, fields, name, defaultField)`. */
    method DefaultMinMaxTags(env: Env, requested: seq<string>, name: string, default: Value)
      modifies this
      ensures fields == WithDefaultTags(env, old(fields), requested, name, default)
    {
      if requested == [] || name in requested {
        var useDefault := name !in fields || fields[name] == Null || fields[name] == Str("")
          || !env.parsesToNonzeroInt(fields[name]);
        if useDefault {
          fields := fields[name := default];
        }
      }
    }

    /** The body of `modifyCategory` for a present record. */
    method Modify(env: Env, requested: seq<string>)
      modifies this
      ensures fields == Modified(env, old(fields), requested)
    {
      DefaultMinMaxTags(env, requested, "minTags", env.minimumTagsPerTopic);
      DefaultMinMaxTags(env, requested, "maxTags", env.maximumTagsPerTopic);
      fields := ParseInts(env, fields, requested, IntFields);
      ghost var parsed := fields;
      for i := 0 to |EscapeFields|
        invariant fields == EscapeUpTo(env, parsed, EscapeFields[..i])
      {
        var field := EscapeFields[i];
        assert EscapeFields[..i + 1][..i] == EscapeFields[..i];
        if field in fields {
          fields := fields[field := Escaped(env, fields[field])];
        }
      }
      assert EscapeFields[..|EscapeFields|] == EscapeFields;
      IconOrHidden();
      CopyCounts();
      EscapeDescriptionField(env);
    }

    /** The icon step of `modifyCategory`, in place. */
    method IconOrHidden()
      modifies this
      ensures fields == HideEmptyIcon(old(fields))
    {
      if "icon" in fields {
        fields := fields["icon" := if Truthy(fields["icon"]) then fields["icon"] else Str("hidden")];
      }
    }

    /** The two total counts, each copied when its source count is present. */
    method CopyCounts()
      modifies this
      ensures fields == CopyTotals(old(fields))
    {
      if "post_count" in fields {
        fields := fields["totalPostCount" := fields["post_count"]];
      }
      if "topic_count" in fields {
        fields := fields["totalTopicCount" := fields["topic_count"]];
      }
    }

    /** The description step of `modifyCategory`. */
    method EscapeDescriptionField(env: Env)
      modifies this
      ensures fields == EscapeDescription(env, old(fields))
    {
      if "description" in fields && Truthy(fields["description"]) {
        fields := fields["description" := Str(env.escape(ToJsString(fields["description"])))];
        var keep := "descriptionParsed" in fields && Truthy(fields["descriptionParsed"]);
        fields := fields["descriptionParsed" := if keep then fields["descriptionParsed"] else fields["description"]];
      }
    }
  }

  /** `modifyCategory(category, fields)`: a missing record is left alone. */
  method ModifyCategory(env: Env, category: CategoryObject?, requested: seq<string>)
    modifies category
    ensures category != null ==> category.fields == Modified(env, old(category.fields), requested)
  {
    if category == null {
      return;
    }
    category.Modify(env, requested);
  }

  /** No record object is fetched twice. */
  predicate NoSharedRecords(fetched: seq<CategoryObject?>)
  {
    forall i, j :: 0 <= i < j < |fetched| && fetched[i] != null ==> fetched[i] != fetched[j]
  }

  /** `getCategoriesFields(cids, fields)`: `None` stands for a `cids` that is not an array;
      `fetched` is what the database returned for the keys `category:<cid>`. */
  method GetCategoriesFields(env: Env, cids: Option<seq<nat>>, requested: seq<string>, fetched: seq<CategoryObject?>)
    returns (categories: seq<CategoryObject?>)
    requires NoSharedRecords(fetched)
    modifies set i | 0 <= i < |fetched| && fetched[i] != null :: fetched[i]
    ensures cids.None? || cids.value == [] ==>
      && categories == []
      && forall i :: 0 <= i < |fetched| && fetched[i] != null ==> fetched[i].fields == old(fetched[i].fields)
    ensures cids.Some? && cids.value != [] ==>
      && categories == fetched
      && forall i :: 0 <= i < |fetched| && fetched[i] != null ==>
           fetched[i].fields == Modified(env, old(fetched[i].fields), requested)
  {
    if cids.None? || |cids.value| == 0 {
      return [];
    }
    for i := 0 to |fetched|
      invariant forall j :: 0 <= j < i && fetched[j] != null ==>
        fetched[j].fields == Modified(env, old(fetched[j].fields), requested)
      invariant forall j :: i <= j < |fetched| && fetched[j] != null ==> fetched[j].fields == old(fetched[j].fields)
    {
      ModifyCategory(env, fetched[i], requested);
    }
    categories := fetched;
  }

  /** `getCategoryData(cid)`: the first record of the one-id fetch, normalised with no
      requested fields, or `null` when the fetch returned nothing. */
  method GetCategoryData(env: Env, cid: nat, fetched: seq<CategoryObject?>) returns (category: CategoryObject?)
    requires NoSharedRecords(fetched)
    modifies set i | 0 <= i < |fetched| && fetched[i] != null :: fetched[i]
    ensures category == (if |fetched| > 0 then fetched[0] else null)
    ensures category != null ==> category.fields == Modified(env, old(category.fields), [])
  {
    var categories := GetCategoriesFields(env, Some([cid]), [], fetched);
    category := if |categories| > 0 then categories[0] else null;
  }
}
