/**
 * The name extractors of the analysis scripts: `extract_names_from_followers` and
 * `extract_names_from_following` (json_tracker.py, repeated verbatim in
 * json_http_compare.py) over a decoded JSON export, and `extract_names_from_html`
 * (http_tracker.py, repeated in json_http_compare.py) over the element list an HTML
 * parser produced.
 */
module NameExtraction {
  import opened Wrappers
  import opened JsonValue
  import opened NameSets

  const StringListData: string := "string_list_data"
  const ValueKey: string := "value"
  const RelationshipsFollowing: string := "relationships_following"

  // ---- JSON exports ----

  /** `entry['value']`, which must be a name. */
  function EntryName(entry: Json): (r: Result<string, ShapeError>)
    ensures r.Ok? <==> Lookup(entry, ValueKey).Ok? && Lookup(entry, ValueKey).value.Str?
    ensures r.Ok? ==> Lookup(entry, ValueKey) == Ok(Str(r.value))
    ensures !entry.Obj? ==> r == Err(NotAnObject(ValueKey))
    ensures entry.Obj? && !HasKey(entry.members, ValueKey) ==> r == Err(KeyMissing(ValueKey))
  {
    var v :- Lookup(entry, ValueKey);
    if v.Str? then Ok(v.s) else Err(NotAName)
  }

  /** `[entry['value'] for entry in entries]`. */
  function EntryNames(entries: seq<Json>): (r: Result<seq<string>, ShapeError>)
    ensures r.Ok? <==> forall e :: e in entries ==> EntryName(e).Ok?
    ensures r.Ok? ==> |r.value| == |entries| && forall i :: 0 <= i < |entries| ==> EntryName(entries[i]) == Ok(r.value[i])
    decreases |entries|
  {
    if entries == [] then Ok([])
    else
      var name :- EntryName(entries[0]);
      var rest :- EntryNames(entries[1..]);
      Ok([name] + rest)
  }

  /** `group['string_list_data']`, iterated. */
  function GroupEntries(group: Json): Result<seq<Json>, ShapeError> {
    var list :- Lookup(group, StringListData);
    Iterate(list)
  }

  /** A group from which every name can be read. */
  ghost predicate WellFormedGroup(group: Json) {
    GroupEntries(group).Ok? && forall e :: e in GroupEntries(group).value ==> EntryName(e).Ok?
  }

  /** Some entry of the group names `v`. */
  ghost predicate GroupCarries(group: Json, v: string) {
    GroupEntries(group).Ok? && exists e :: e in GroupEntries(group).value && EntryName(e) == Ok(v)
  }

  /** The number of entries in the groups' `string_list_data` lists, a group that has none counting 0. */
  function EntryTotal(groups: seq<Json>): nat
    decreases |groups|
  {
    if groups == [] then 0
    else (if GroupEntries(groups[0]).Ok? then |GroupEntries(groups[0]).value| else 0) + EntryTotal(groups[1..])
  }

  /** `[entry['value'] for item in groups for entry in item['string_list_data']]`. */
  function GroupNames(groups: seq<Json>): (r: Result<seq<string>, ShapeError>)
    ensures r.Ok? <==> forall g :: g in groups ==> WellFormedGroup(g)
    ensures r.Ok? ==> forall v :: v in r.value <==> exists g :: g in groups && GroupCarries(g, v)
    ensures r.Ok? ==> |r.value| == EntryTotal(groups)
    decreases |groups|
  {
    if groups == [] then Ok([])
    else
      assert forall g :: g in groups <==> g == groups[0] || g in groups[1..];
      assert GroupEntries(groups[0]).Err? ==> !WellFormedGroup(groups[0]);
      var entries :- GroupEntries(groups[0]);
      assert EntryNames(entries).Err? ==> !WellFormedGroup(groups[0]);
      var names :- EntryNames(entries);
      assert WellFormedGroup(groups[0]);
      var rest :- GroupNames(groups[1..]);
      GroupNamesOfOne(groups[0], entries, names);
      Ok(names + rest)
  }

  /** The names read from one group are exactly the names it carries. */
  lemma GroupNamesOfOne(group: Json, entries: seq<Json>, names: seq<string>)
    requires GroupEntries(group) == Ok(entries) && EntryNames(entries) == Ok(names)
    ensures forall v :: v in names <==> GroupCarries(group, v)
  {
    forall v
      ensures v in names <==> GroupCarries(group, v)
    {
      if v in names {
        var i :| 0 <= i < |names| && names[i] == v;
        assert entries[i] in entries && EntryName(entries[i]) == Ok(v);
      }
      if GroupCarries(group, v) {
        var e :| e in entries && EntryName(e) == Ok(v);
        var i :| 0 <= i < |entries| && entries[i] == e;
        assert names[i] == v;
      }
    }
  }

  /** `extract_names_from_followers`: the export is a list of groups. */
  function ExtractNamesFromFollowers(doc: Json): (r: Result<set<string>, ShapeError>)
    ensures r.Ok? <==> Iterate(doc).Ok? && forall g :: g in Iterate(doc).value ==> WellFormedGroup(g)
    ensures r.Ok? ==> forall v :: v in r.value <==> exists g :: g in Iterate(doc).value && GroupCarries(g, v)
  {
    var groups :- Iterate(doc);
    var names :- GroupNames(groups);
    Ok(ToSet(names))
  }

  /** `extract_names_from_following`: the same list, under the key `relationships_following`. */
  function ExtractNamesFromFollowing(doc: Json): (r: Result<set<string>, ShapeError>)
    ensures !doc.Obj? ==> r == Err(NotAnObject(RelationshipsFollowing))
    ensures doc.Obj? && !HasKey(doc.members, RelationshipsFollowing) ==> r == Err(KeyMissing(RelationshipsFollowing))
    ensures r.Ok? ==>
      && Lookup(doc, RelationshipsFollowing).Ok?
      && Iterate(Lookup(doc, RelationshipsFollowing).value).Ok?
      && forall v :: v in r.value <==> exists g :: g in Iterate(Lookup(doc, RelationshipsFollowing).value).value && GroupCarries(g, v)
  {
    var groups :- Lookup(doc, RelationshipsFollowing);
    ExtractNamesFromFollowers(groups)
  }

  /** Reading the wrapped list gives what reading the bare list gives, failures included. */
  lemma FollowingUnwrapsFollowers(doc: Json, list: Json)
    requires Lookup(doc, RelationshipsFollowing) == Ok(list)
    ensures ExtractNamesFromFollowing(doc) == ExtractNamesFromFollowers(list)
  {
  }

  /** Both export shapes, holding the same groups, give the same name set. */
  lemma ExportShapesAgree(groups: seq<Json>)
    ensures ExtractNamesFromFollowing(Obj([(RelationshipsFollowing, Arr(groups))])) == ExtractNamesFromFollowers(Arr(groups))
  {
    FollowingUnwrapsFollowers(Obj([(RelationshipsFollowing, Arr(groups))]), Arr(groups));
  }

  /** No groups, or only groups with empty `string_list_data`, is the empty set and not an error. */
  lemma EmptyExports(groups: seq<Json>)
    requires forall g :: g in groups ==> GroupEntries(g) == Ok([])
    ensures ExtractNamesFromFollowers(Arr(groups)) == Ok({})
  {
  }

  /** A group without `string_list_data`, or an entry without `value`, fails the whole extraction. */
  lemma MissingKeyFails(groups: seq<Json>, i: nat, j: nat)
    requires i < |groups|
    requires (groups[i].Obj? && !HasKey(groups[i].members, StringListData)) ||
             (GroupEntries(groups[i]).Ok? && j < |GroupEntries(groups[i]).value| &&
              var e := GroupEntries(groups[i]).value[j]; e.Obj? && !HasKey(e.members, ValueKey))
    ensures ExtractNamesFromFollowers(Arr(groups)).Err?
  {
    if GroupEntries(groups[i]).Ok? && j < |GroupEntries(groups[i]).value| {
      assert GroupEntries(groups[i]).value[j] in GroupEntries(groups[i]).value;
    }
    assert !WellFormedGroup(groups[i]);
    assert groups[i] in Iterate(Arr(groups)).value;
  }

  /**
   * The follower count is the number of distinct names: at most the number of entries,
   * and equal to it exactly when no name is listed twice.
   */
  lemma CountIsDistinctNames(doc: Json)
    requires ExtractNamesFromFollowers(doc).Ok?
    ensures var raw := GroupNames(Iterate(doc).value).value;
      && ExtractNamesFromFollowers(doc).value == ToSet(raw)
      && |raw| == EntryTotal(Iterate(doc).value)
      && |ExtractNamesFromFollowers(doc).value| <= EntryTotal(Iterate(doc).value)
      && (|ExtractNamesFromFollowers(doc).value| == EntryTotal(Iterate(doc).value) <==> NoDuplicates(raw))
  {
    ToSetSizeExact(GroupNames(Iterate(doc).value).value);
  }

  // ---- HTML exports ----

  /** One element of the parsed page, in document order: its tag, whether it carries `href`, its text. */
  datatype Element = Element(tag: string, hasHref: bool, text: string)

  /** What `soup.find_all('a', href=True)` selects. */
  predicate IsLink(e: Element) {
    e.tag == "a" && e.hasHref
  }

  /** `[a.text for a in soup.find_all('a', href=True)]`. */
  function AnchorTexts(elements: seq<Element>): (r: seq<string>)
    ensures forall t :: t in r <==> exists e :: e in elements && IsLink(e) && e.text == t
    ensures |r| <= |elements|
    decreases |elements|
  {
    if elements == [] then []
    else
      var rest := AnchorTexts(elements[1..]);
      var first := elements[0];
      assert forall e :: e in elements <==> e == first || e in elements[1..];
      if IsLink(first) then [first.text] + rest else rest
  }

  /** `extract_names_from_html`: the texts of the anchors that carry `href`, duplicates collapsed. */
  function ExtractNamesFromHtml(elements: seq<Element>): (r: set<string>)
    ensures forall t :: t in r <==> exists e :: e in elements && IsLink(e) && e.text == t
    ensures |r| <= |elements|
  {
    ToSet(AnchorTexts(elements))
  }

  /** An element that is not an `<a>` with `href` adds no name. */
  lemma NonLinkAddsNothing(elements: seq<Element>, e: Element)
    requires !IsLink(e)
    ensures ExtractNamesFromHtml(elements + [e]) == ExtractNamesFromHtml(elements)
  {
    var before, after := ExtractNamesFromHtml(elements), ExtractNamesFromHtml(elements + [e]);
    forall t
      ensures t in after <==> t in before
    {
      if t in after {
        var x :| x in elements + [e] && IsLink(x) && x.text == t;
        assert x in elements;
      }
      if t in before {
        var x :| x in elements && IsLink(x) && x.text == t;
        assert x in elements + [e];
      }
    }
  }
}
