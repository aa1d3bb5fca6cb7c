/** helpers/json_helper.py: the walk that turns a FHIR resource into the
    list of rows, sub-heads and dividers a report renders.

    The FHIR datatype classes, their handlers, `LabelUtil`, `ProfileHandler`
    and the date parser are not part of this model; they are the fields of
    an `Env`, total functions about which nothing is assumed. What the walk
    itself decides -- the order in which the datatype tests are tried, the
    section, divider, `div` and `contained` rules, what is appended and in
    which order -- is modelled exactly.

    Each spec function returns a `Run`: the fragments the call appends, and
    whether it finished or raised. `handle_contained` raises on a list entry
    that is not a `dict` (it calls `.get` on it); what was appended before
    stays appended. */
module JsonFlatten {
  import opened Wrappers
  import opened Text
  import opened JsonValue
  import opened CoreHelpers

  /** What the walk appends to `flattened_values`. */
  datatype Fragment =
    | Row(caption: string, value: string)  // Render.row
    | SubHead(caption: string)             // Render.sub_head
    | EndSubHead                         // Render.end_sub_head
    | Divider                            // Render.divider
    | Raw(html: string)                  // the table row written for a `div` key
    | Rendered(html: string)             // markup a datatype handler produced
    | EmptyList                          // an empty list, appended as one value

  /** The FHIR datatypes the walk recognises in a `dict`. */
  datatype Kind =
    | Extension | HumanName | ContactPoint | Address | DateCriterion
    | CodeableConcept | Component | Dosage | Activity | Collection
    | TimingRepeat | Communication | Reference | Range | ReferenceRange
    | Identifier | Period | Quantity | Attachment

  /** The order in which `flatten_resource` tries the datatypes. */
  const Priority: seq<Kind> := [
    Extension, HumanName, ContactPoint, Address, DateCriterion,
    CodeableConcept, Component, Dosage, Activity, Collection,
    TimingRepeat, Communication, Reference, Range, ReferenceRange,
    Identifier, Period, Quantity, Attachment]

  /** What `ExtensionHandler.handle()` returns: a list, or a single value. */
  datatype ExtResult = FragmentList(items: seq<Fragment>) | Single(item: Fragment)

  /** The collaborators of the walk.
      - `objTest(k, obj)`: the datatype test of `k` that looks at the node;
      - `pathTest(k, path)`: the datatype test of `k` that looks at the path;
      - `referenceRangeTest(obj, path)`: `ReferenceRange.type`, which looks
        at both;
      - `isRelationship(items)`: `RelationshipHandler.type` on a list;
      - `extension`, `handle`, `single`, `relationship`: what the handlers
        return (`handle` for those whose result is concatenated, `single`
        for those whose result is appended as one value);
      - `timingExtension(members)`: which member `TimingRepeat.has_extension`
        picks, if any;
      - `getLabel(profile, path)`: `LabelUtil.get_label`;
      - `searchProfile`, `searchType`: `ProfileHandler(profile)`'s profile id
        and base type for a path (`""` when there is none);
      - `parse`: the date parser `format_date` uses;
      - `show`: `str()` of a `dict` or `list`. */
  datatype Env = Env(
    objTest: (Kind, Json) -> bool,
    pathTest: (Kind, string) -> bool,
    referenceRangeTest: (Json, string) -> bool,
    isRelationship: seq<Json> -> bool,
    extension: (Json, string, string) -> ExtResult,
    handle: (Kind, Json, string, string) -> seq<Fragment>,
    single: (Kind, Json, string, string) -> Fragment,
    relationship: seq<Json> -> Fragment,
    timingExtension: seq<Member> -> Option<nat>,
    getLabel: (string, string) -> string,
    searchProfile: (string, string) -> string,
    searchType: (string, string) -> string,
    parse: string -> Option<Date>,
    show: Json -> string)

  /** Whether the datatype test of `k` accepts the node at this path. A
      path ending in `class` is treated as a CodeableConcept whatever the
      node holds. */
  predicate Applies(env: Env, k: Kind, obj: Json, path: string)
  {
    match k
    case Extension => env.objTest(k, obj)
    case CodeableConcept => env.objTest(k, obj) || EndsWith(path, "class")
    case ReferenceRange => env.referenceRangeTest(obj, path)
    case Reference => env.objTest(k, obj)
    case Range => env.objTest(k, obj)
    case Identifier => env.objTest(k, obj)
    case Period => env.objTest(k, obj)
    case Quantity => env.objTest(k, obj)
    case Attachment => env.objTest(k, obj)
    case _ => env.pathTest(k, path)
  }

  /** The first kind of `ks` whose test accepts the node. */
  function FirstMatch(env: Env, obj: Json, path: string, ks: seq<Kind>): Option<Kind>
  {
    if ks == [] then None
    else if Applies(env, ks[0], obj, path) then Some(ks[0])
    else FirstMatch(env, obj, path, ks[1..])
  }

  /** No kind is found exactly when no test accepts, and a kind found is
      one whose test accepts, with no earlier kind accepted. */
  lemma {:induction false} FirstMatchSpec(env: Env, obj: Json, path: string, ks: seq<Kind>)
    ensures var r := FirstMatch(env, obj, path, ks);
      && (r.None? <==> forall i :: 0 <= i < |ks| ==> !Applies(env, ks[i], obj, path))
      && (r.Some? ==> exists i :: (0 <= i < |ks| && ks[i] == r.value && Applies(env, ks[i], obj, path)
           && forall h :: 0 <= h < i ==> !Applies(env, ks[h], obj, path)))
  {
    if ks != [] && !Applies(env, ks[0], obj, path) {
      var tail := ks[1..];
      FirstMatchSpec(env, obj, path, tail);
      var r := FirstMatch(env, obj, path, tail);
      if r.None? {
        forall i | 0 <= i < |ks|
          ensures !Applies(env, ks[i], obj, path)
        {
          if i > 0 {
            assert ks[i] == tail[i - 1];
          }
        }
      } else {
        var i :| 0 <= i < |tail| && tail[i] == r.value && Applies(env, tail[i], obj, path)
          && forall h :: 0 <= h < i ==> !Applies(env, tail[h], obj, path);
        forall h | 0 <= h < i + 1
          ensures !Applies(env, ks[h], obj, path)
        {
          if h > 0 {
            assert ks[h] == tail[h - 1];
          }
        }
        assert ks[i + 1] == tail[i];
      }
    }
  }

  /** The datatype whose handler takes a `dict` node, if any. */
  function Dispatch(env: Env, obj: Json, path: string): Option<Kind>
  {
    FirstMatch(env, obj, path, Priority)
  }

  /** The path suffixes that turn a list into a section. */
  const SectionSuffixes: seq<string> := [
    "contact", "content", "telecom", "component", "participant",
    "performer", "section", "entry", "activity"]

  /** The last path segments that turn a list into a section. */
  const DosageSegments: seq<string> := ["dosage", "dosageInstruction"]

  /** The last path segments after whose list entries a divider goes. */
  const DividerSegments: seq<string> := ["performer", "participant", "activity", "section"]

  /** Whether a (non-Relationship) list at this path becomes a section: the
      full path ends with one of the suffixes, or its last segment is a
      dosage one. */
  predicate IsSection(path: string)
  {
    (exists i :: 0 <= i < |SectionSuffixes| && EndsWith(path, SectionSuffixes[i]))
    || LastSegment(path) in DosageSegments
  }

  /** Whether a divider follows each entry of a list at this path. */
  predicate Divides(path: string)
  {
    LastSegment(path) in DividerSegments
  }

  /** The divider a list entry at this path is followed by, if any. */
  function DividerAfter(path: string): (r: seq<Fragment>)
    ensures r == [Divider] || r == []
    ensures r != [] <==> Divides(path)
  {
    if Divides(path) then [Divider] else []
  }

  /** `str()` of a value. A number keeps the text it was read with. */
  function Str(env: Env, j: Json): string
  {
    match j
    case JString(s) => s
    case JNumber(text, _) => text
    case JBool(b) => if b then "True" else "False"
    case JNull => "None"
    case _ => env.show(j)
  }

  /** handle_property's row: the label of the path, and the value's text
      through `format_date`. */
  function PropertyRow(env: Env, j: Json, path: string, profile: string): Fragment
  {
    Row(env.getLabel(profile, path), FormatDate(Str(env, j), env.parse))
  }

  /** The row written for a `div` key. */
  function DivRow(env: Env, value: Json): Fragment
  {
    Raw("<tr><td colspan=\"2\" class=\"value\">" + Str(env, value) + "</td></tr>")
  }

  /** The sub-head text of a contained entry: its `resourceType`, or `""`. */
  function ResourceTypeText(env: Env, entry: Json): string
    requires entry.JObject?
  {
    match Get(entry, "resourceType")
    case Some(v) => Str(env, v)
    case None => ""
  }

  /** create_section's head label: from the profile found for the path when
      both it and its base type are found, else from the node's own
      profile and path. */
  function SectionLabel(env: Env, profile: string, path: string): string
  {
    var p := env.searchProfile(profile, path);
    var base := env.searchType(profile, path);
    if p != "" && base != "" then env.getLabel(p, base) else env.getLabel(profile, path)
  }

  /** What the CodeableConcept handler receives: at a path ending in
      `class`, a node without a truthy `coding` is wrapped as the single
      coding of a new concept. */
  function ConceptArg(obj: Json, path: string): (r: Json)
    requires obj.JObject?
    ensures r.JObject?
  {
    if EndsWith(path, "class") && !TruthyAt(obj, "coding") then
      JObject([Member("coding", JArray([obj]))])
    else obj
  }

  /** The single value appended for an Extension result that is not a
      non-empty list. */
  function ExtValue(res: ExtResult): Fragment
  {
    match res
    case FragmentList(_) => EmptyList
    case Single(f) => f
  }

  /** The member `TimingRepeat.has_extension` picks, when it is truthy. */
  function TimingIndex(env: Env, obj: Json): (r: Option<nat>)
    requires obj.JObject?
    ensures r.Some? ==> r.value < |obj.members| && Truthy(obj.members[r.value].value)
  {
    match env.timingExtension(obj.members)
    case Some(i) => if i < |obj.members| && Truthy(obj.members[i].value) then Some(i) else None
    case None => None
  }

  /** The fragments a call appends, and whether it returned normally. */
  datatype Run = Run(out: seq<Fragment>, ok: bool)

  /** Two calls in a row: the second does not run when the first raised. */
  function Then(a: Run, b: Run): (r: Run)
    ensures !a.ok ==> r == a
    ensures a.ok ==> r == Run(a.out + b.out, b.ok)
  {
    if a.ok then Run(a.out + b.out, b.ok) else a
  }

  /** flatten_resource */
  function Flatten(env: Env, j: Json, path: string, profile: string): Run
    decreases j, 2, 0
  {
    match j
    case JObject(ms) =>
      (match Dispatch(env, j, path)
       case Some(k) => HandleKind(env, k, j, path, profile)
       case None => IterMembers(env, j, |ms|, path, profile))
    case JArray(items) =>
      if env.isRelationship(items) then Run([env.relationship(items)], true)
      else if IsSection(path) then SectionRun(env, j, path, profile)
      else IterList(env, j, |items|, path, profile)
    case _ => Run([PropertyRow(env, j, path, profile)], true)
  }

  /** The branch of flatten_resource for a `dict` of kind `k`. */
  function HandleKind(env: Env, k: Kind, j: Json, path: string, profile: string): Run
    requires j.JObject?
    decreases j, 1, 0
  {
    match k
    case Extension =>
      var res := env.extension(j, path, profile);
      if res.FragmentList? && |res.items| > 0 then Run(res.items, true)
      else Run([ExtValue(res)], true)
    case CodeableConcept => Run(env.handle(k, ConceptArg(j, path), path, profile), true)
    case TimingRepeat =>
      var head := Run(env.handle(k, j, path, profile), true);
      (match TimingIndex(env, j)
       case Some(i) => Then(head, Flatten(env, j.members[i].value, path + ".extension", profile))
       case None => head)
    case Range => Run([env.single(k, j, path, profile)], true)
    case Quantity => Run([env.single(k, j, path, profile)], true)
    case _ => Run(env.handle(k, j, path, profile), true)
  }

  /** iter_dict_object over the first `n` members. */
  function IterMembers(env: Env, j: Json, n: nat, path: string, profile: string): Run
    requires j.JObject? && n <= |j.members|
    decreases j, 1, n
  {
    if n == 0 then Run([], true)
    else Then(IterMembers(env, j, n - 1, path, profile),
              MemberRun(env, j.members[n - 1].key, j.members[n - 1].value, path, profile))
  }

  /** One round of iter_dict_object: a `div` key writes its value as a raw
      row, a `contained` key goes to handle_contained, any other key is
      walked one level down the path. */
  function MemberRun(env: Env, key: string, value: Json, path: string, profile: string): Run
    decreases value, 5, 0
  {
    if StartsWith(key, "div") then Run([DivRow(env, value)], true)
    else if StartsWith(key, "contained") then ContainedRun(env, value, path + "." + key, profile)
    else Flatten(env, value, path + "." + key, profile)
  }

  /** iter_dict_list over the first `n` entries: each entry at the same
      path, each followed by the divider of the path. */
  function IterList(env: Env, j: Json, n: nat, path: string, profile: string): Run
    requires j.JArray? && n <= |j.items|
    decreases j, 0, n
  {
    if n == 0 then Run([], true)
    else Then(IterList(env, j, n - 1, path, profile), ListEntryRun(env, j.items[n - 1], path, profile))
  }

  /** One round of iter_dict_list: the entry, then the divider of the
      path. */
  function ListEntryRun(env: Env, item: Json, path: string, profile: string): Run
    decreases item, 3, 0
  {
    Then(Flatten(env, item, path, profile), Run(DividerAfter(path), true))
  }

  /** create_section: a sub-head, the entries, an end-sub-head. */
  function SectionRun(env: Env, j: Json, path: string, profile: string): Run
    requires j.JArray?
    decreases j, 1, 0
  {
    Then(Run([SubHead(SectionLabel(env, profile, path))], true),
         Then(IterList(env, j, |j.items|, path, profile), Run([EndSubHead], true)))
  }

  /** A section is its head, the list's entries and, when they returned,
      its end. */
  lemma SectionRunParts(env: Env, j: Json, path: string, profile: string)
    requires j.JArray?
    ensures var entries := IterList(env, j, |j.items|, path, profile);
      && SectionRun(env, j, path, profile).ok == entries.ok
      && SectionRun(env, j, path, profile).out
        == [SubHead(SectionLabel(env, profile, path))] + entries.out + (if entries.ok then [EndSubHead] else [])
  {
  }

  /** handle_contained */
  function ContainedRun(env: Env, v: Json, path: string, profile: string): Run
    decreases v, 4, 0
  {
    if v.JArray? then ContainedLoop(env, v, |v.items|, path, profile)
    else Flatten(env, v, path, profile)
  }

  /** handle_contained's loop over the first `n` entries: per entry, its
      resource type as a sub-head, the WHOLE list walked again, an
      end-sub-head. An entry that is not a `dict` raises. */
  function ContainedLoop(env: Env, v: Json, n: nat, path: string, profile: string): Run
    requires v.JArray? && n <= |v.items|
    decreases v, 3, n
  {
    if n == 0 then Run([], true)
    else Then(ContainedLoop(env, v, n - 1, path, profile), EntryRun(env, v, v.items[n - 1], path, profile))
  }

  /** One round of handle_contained's loop for `entry`, an entry of `v`. */
  function EntryRun(env: Env, v: Json, entry: Json, path: string, profile: string): Run
    decreases v, 2, 1
  {
    if !entry.JObject? then Run([], false)
    else Then(Run([SubHead(ResourceTypeText(env, entry))], true),
              Then(Flatten(env, v, path, profile), Run([EndSubHead], true)))
  }

  /** Appending the output of two calls in a row, one after the other. */
  lemma AppendThen(base: seq<Fragment>, a: Run, b: Run)
    requires a.ok
    ensures base + Then(a, b).out == (base + a.out) + b.out
    ensures Then(a, b).ok == b.ok
  {
  }

  // ---------------------------------------------------------------------
  // One round of each loop, and a raised exception ends each loop

  lemma IterListStep(env: Env, j: Json, i: nat, path: string, profile: string)
    requires j.JArray? && i < |j.items|
    ensures IterList(env, j, i + 1, path, profile)
      == Then(IterList(env, j, i, path, profile), ListEntryRun(env, j.items[i], path, profile))
  {
  }

  lemma IterMembersStep(env: Env, j: Json, i: nat, path: string, profile: string)
    requires j.JObject? && i < |j.members|
    ensures IterMembers(env, j, i + 1, path, profile)
      == Then(IterMembers(env, j, i, path, profile),
              MemberRun(env, j.members[i].key, j.members[i].value, path, profile))
  {
  }

  lemma ContainedLoopStep(env: Env, v: Json, i: nat, path: string, profile: string)
    requires v.JArray? && i < |v.items|
    ensures ContainedLoop(env, v, i + 1, path, profile)
      == Then(ContainedLoop(env, v, i, path, profile), EntryRun(env, v, v.items[i], path, profile))
  {
  }

  lemma {:induction false} IterMembersStops(env: Env, j: Json, i: nat, n: nat, path: string, profile: string)
    requires j.JObject? && i <= n <= |j.members|
    requires !IterMembers(env, j, i, path, profile).ok
    ensures IterMembers(env, j, n, path, profile) == IterMembers(env, j, i, path, profile)
  {
    if n > i {
      IterMembersStops(env, j, i, n - 1, path, profile);
    }
  }

  lemma {:induction false} IterListStops(env: Env, j: Json, i: nat, n: nat, path: string, profile: string)
    requires j.JArray? && i <= n <= |j.items|
    requires !IterList(env, j, i, path, profile).ok
    ensures IterList(env, j, n, path, profile) == IterList(env, j, i, path, profile)
  {
    if n > i {
      IterListStops(env, j, i, n - 1, path, profile);
    }
  }

  lemma {:induction false} ContainedLoopStops(env: Env, v: Json, i: nat, n: nat, path: string, profile: string)
    requires v.JArray? && i <= n <= |v.items|
    requires !ContainedLoop(env, v, i, path, profile).ok
    ensures ContainedLoop(env, v, n, path, profile) == ContainedLoop(env, v, i, path, profile)
  {
    if n > i {
      ContainedLoopStops(env, v, i, n - 1, path, profile);
    }
  }

  // ---------------------------------------------------------------------
  // What the walk promises

  /** A scalar appends exactly one row: the label of its path and its text
      through `format_date`, which leaves text without a date prefix
      as it is. */
  lemma ScalarAppendsOneRow(env: Env, j: Json, path: string, profile: string)
    requires IsScalar(j)
    ensures Flatten(env, j, path, profile).ok
    ensures Flatten(env, j, path, profile).out
      == [Row(env.getLabel(profile, path), FormatDate(Str(env, j), env.parse))]
    ensures !HasDatePrefix(Str(env, j)) ==>
      Flatten(env, j, path, profile).out == [Row(env.getLabel(profile, path), Str(env, j))]
  {
  }

  /** Dispatch tries the datatypes in their fixed order and only the first
      that matches runs; a `dict` no datatype matches is iterated key by
      key. */
  lemma DispatchOrder(env: Env, j: Json, path: string, profile: string)
    requires j.JObject?
    ensures Dispatch(env, j, path).None? ==>
      && (forall i :: 0 <= i < |Priority| ==> !Applies(env, Priority[i], j, path))
      && Flatten(env, j, path, profile) == IterMembers(env, j, |j.members|, path, profile)
    ensures Dispatch(env, j, path).Some? ==>
      && (exists i :: (0 <= i < |Priority| && Priority[i] == Dispatch(env, j, path).value
           && Applies(env, Priority[i], j, path)
           && forall h :: 0 <= h < i ==> !Applies(env, Priority[h], j, path)))
      && Flatten(env, j, path, profile) == HandleKind(env, Dispatch(env, j, path).value, j, path, profile)
  {
    FirstMatchSpec(env, j, path, Priority);
  }

  /** The first kind that matches is the one found. */
  lemma FirstMatchAt(env: Env, obj: Json, path: string, ks: seq<Kind>, m: nat)
    requires m < |ks| && Applies(env, ks[m], obj, path)
    requires forall h :: 0 <= h < m ==> !Applies(env, ks[h], obj, path)
    ensures FirstMatch(env, obj, path, ks) == Some(ks[m])
  {
    FirstMatchSpec(env, obj, path, ks);
    var r := FirstMatch(env, obj, path, ks);
    var i :| 0 <= i < |ks| && ks[i] == r.value && Applies(env, ks[i], obj, path)
      && forall h :: 0 <= h < i ==> !Applies(env, ks[h], obj, path);
    assert i == m;
  }

  /** An Extension wins over every other datatype; a path ending in `class`
      is a CodeableConcept unless one of the five datatypes before it
      matches. */
  lemma DispatchExamples(env: Env, j: Json, path: string)
    ensures Applies(env, Extension, j, path) ==> Dispatch(env, j, path) == Some(Extension)
    ensures (forall h :: 0 <= h < 5 ==> !Applies(env, Priority[h], j, path)) && EndsWith(path, "class")
      ==> Dispatch(env, j, path) == Some(CodeableConcept)
  {
    if Applies(env, Extension, j, path) {
      assert Priority[0] == Extension;
      FirstMatchAt(env, j, path, Priority, 0);
    }
    if EndsWith(path, "class") && forall h :: 0 <= h < 5 ==> !Applies(env, Priority[h], j, path) {
      assert Priority[5] == CodeableConcept;
      FirstMatchAt(env, j, path, Priority, 5);
    }
  }

  /** At a path ending in `class`, the concept handler receives the node
      wrapped as `{'coding': [node]}` when the node has no truthy `coding`,
      and the node itself otherwise; at any other path it receives the
      node. */
  lemma ClassConceptWrap(env: Env, j: Json, path: string, profile: string)
    requires j.JObject? && Dispatch(env, j, path) == Some(CodeableConcept)
    ensures Flatten(env, j, path, profile).ok
    ensures EndsWith(path, "class") && !TruthyAt(j, "coding") ==>
      Flatten(env, j, path, profile).out
        == env.handle(CodeableConcept, JObject([Member("coding", JArray([j]))]), path, profile)
    ensures !(EndsWith(path, "class") && !TruthyAt(j, "coding")) ==>
      Flatten(env, j, path, profile).out == env.handle(CodeableConcept, j, path, profile)
  {
  }

  /** An Extension's non-empty list result is concatenated onto the output;
      any other result, the empty list included, is appended as one value.
      Either way at least one value is appended. */
  lemma ExtensionAppend(env: Env, j: Json, path: string, profile: string)
    requires j.JObject? && Applies(env, Extension, j, path)
    ensures var res := env.extension(j, path, profile);
      && Flatten(env, j, path, profile).ok
      && (res.FragmentList? && res.items != [] ==> Flatten(env, j, path, profile).out == res.items)
      && (res == FragmentList([]) ==> Flatten(env, j, path, profile).out == [EmptyList])
      && (res.Single? ==> Flatten(env, j, path, profile).out == [res.item])
      && |Flatten(env, j, path, profile).out| >= 1
  {
    assert Priority[0] == Extension;
  }

  /** What a member whose walk is a single value appends: a `div` key its
      raw row, a scalar under any other non-`contained` key its row at
      `path.key`. */
  function SimpleFragment(env: Env, m: Member, path: string, profile: string): Fragment
  {
    if StartsWith(m.key, "div") then DivRow(env, m.value)
    else PropertyRow(env, m.value, path + "." + m.key, profile)
  }

  predicate SimpleMember(m: Member)
  {
    StartsWith(m.key, "div") || (!StartsWith(m.key, "contained") && IsScalar(m.value))
  }

  /** Key-by-key iteration visits every member once, in order: over members
      that each append one value, the output is exactly one value per
      member, at the member's own position. */
  lemma {:induction false} KeysInOrder(env: Env, j: Json, n: nat, path: string, profile: string)
    requires j.JObject? && n <= |j.members|
    requires forall i :: 0 <= i < n ==> SimpleMember(j.members[i])
    ensures IterMembers(env, j, n, path, profile).ok
    ensures IterMembers(env, j, n, path, profile).out == SimpleFragments(env, j.members[..n], path, profile)
  {
    if n > 0 {
      KeysInOrder(env, j, n - 1, path, profile);
      SimpleMemberRun(env, j.members[n - 1], path, profile);
      IterMembersStep(env, j, n - 1, path, profile);
      assert j.members[..n][..n - 1] == j.members[..n - 1];
    }
  }

  /** The values of members that each append one, in member order. */
  function SimpleFragments(env: Env, ms: seq<Member>, path: string, profile: string): (r: seq<Fragment>)
    ensures |r| == |ms|
  {
    if ms == [] then []
    else SimpleFragments(env, ms[..|ms| - 1], path, profile) + [SimpleFragment(env, ms[|ms| - 1], path, profile)]
  }

  /** Value `i` is the one member `i` appends. */
  lemma {:induction false} SimpleFragmentAt(env: Env, ms: seq<Member>, i: nat, path: string, profile: string)
    requires i < |ms|
    ensures SimpleFragments(env, ms, path, profile)[i] == SimpleFragment(env, ms[i], path, profile)
  {
    var front := ms[..|ms| - 1];
    if i < |front| {
      SimpleFragmentAt(env, front, i, path, profile);
      assert front[i] == ms[i];
    }
  }

  /** A simple member appends its one value and returns. */
  lemma SimpleMemberRun(env: Env, m: Member, path: string, profile: string)
    requires SimpleMember(m)
    ensures MemberRun(env, m.key, m.value, path, profile) == Run([SimpleFragment(env, m, path, profile)], true)
  {
    if !StartsWith(m.key, "div") {
      ScalarAppendsOneRow(env, m.value, path + "." + m.key, profile);
    }
  }

  /** A list that is not a Relationship becomes a section -- exactly one
      sub-head before its entries and one end-sub-head after -- when its
      path is a section path, and is just its entries otherwise. */
  lemma SectionWrap(env: Env, j: Json, path: string, profile: string)
    requires j.JArray? && !env.isRelationship(j.items)
    requires IterList(env, j, |j.items|, path, profile).ok
    ensures Flatten(env, j, path, profile).ok
    ensures IsSection(path) ==>
      Flatten(env, j, path, profile).out
        == [SubHead(SectionLabel(env, profile, path))] + IterList(env, j, |j.items|, path, profile).out + [EndSubHead]
    ensures !IsSection(path) ==> Flatten(env, j, path, profile).out == IterList(env, j, |j.items|, path, profile).out
  {
  }

  /** The section rule reads the end of the full path, the divider rule its
      last segment: `Encounter.xparticipant` is a section without
      dividers. */
  lemma SuffixSectionWithoutDividers()
    ensures IsSection("Encounter.xparticipant") && !Divides("Encounter.xparticipant")
  {
    assert "Encounter.xparticipant" == "Encounter.x" + SectionSuffixes[4];
    EndsWithAppend("Encounter.x", SectionSuffixes[4]);
    assert "Encounter.xparticipant" == "Encounter" + "." + "xparticipant";
    LastSegmentAfterDot("Encounter", "xparticipant");
  }

  /** `Encounter.participant` is a section with dividers. */
  lemma ParticipantSection()
    ensures IsSection("Encounter.participant") && Divides("Encounter.participant")
  {
    assert "Encounter.participant" == "Encounter." + SectionSuffixes[4];
    EndsWithAppend("Encounter.", SectionSuffixes[4]);
    assert "Encounter.participant" == "Encounter" + "." + "participant";
    LastSegmentAfterDot("Encounter", "participant");
    assert DividerSegments[1] == "participant";
  }

  /** No section suffix ends in `e`. */
  lemma NoSuffixOf(path: string)
    requires path != [] && path[|path| - 1] == 'e'
    ensures forall i :: 0 <= i < |SectionSuffixes| ==> !EndsWith(path, SectionSuffixes[i])
  {
    forall i | 0 <= i < |SectionSuffixes|
      ensures !EndsWith(path, SectionSuffixes[i])
    {
      NotEndsWithLast(path, SectionSuffixes[i]);
    }
  }

  /** `dosage` as the whole last segment makes a section. */
  lemma DosageSegmentSection()
    ensures IsSection("Dose.dosage")
  {
    assert "Dose.dosage" == "Dose" + "." + "dosage";
    LastSegmentAfterDot("Dose", "dosage");
    assert DosageSegments[0] == "dosage";
  }

  /** A last segment that only ends in `dosage` does not. */
  lemma LongerSegmentNoSection()
    ensures !IsSection("Dose.xdosage")
  {
    assert "Dose.xdosage" == "Dose" + "." + "xdosage";
    LastSegmentAfterDot("Dose", "xdosage");
    NoSuffixOf("Dose.xdosage");
  }

  /** A dosage list is a section only when `dosage` is the whole last
      segment. */
  lemma DosageSection()
    ensures IsSection("Dose.dosage")
    ensures !IsSection("Dose.xdosage")
  {
    DosageSegmentSection();
    LongerSegmentNoSection();
  }

  /** Total length of what the first `n` entries of a list append, without
      dividers. */
  ghost function EntriesLength(env: Env, j: Json, n: nat, path: string, profile: string): nat
    requires j.JArray? && n <= |j.items|
  {
    if n == 0 then 0 else EntriesLength(env, j, n - 1, path, profile) + |Flatten(env, j.items[n - 1], path, profile).out|
  }

  /** List iteration that returned returned from every round before. */
  lemma IterListOk(env: Env, j: Json, n: nat, path: string, profile: string)
    requires j.JArray? && 0 < n <= |j.items|
    requires IterList(env, j, n, path, profile).ok
    ensures IterList(env, j, n - 1, path, profile).ok
    ensures ListEntryRun(env, j.items[n - 1], path, profile).ok
    ensures |IterList(env, j, n, path, profile).out|
      == |IterList(env, j, n - 1, path, profile).out| + |ListEntryRun(env, j.items[n - 1], path, profile).out|
  {
  }

  /** One round of list iteration that returned adds the entry's output
      and, at a divider path, one divider. */
  lemma ListEntryLength(env: Env, item: Json, path: string, profile: string)
    requires ListEntryRun(env, item, path, profile).ok
    ensures Flatten(env, item, path, profile).ok
    ensures |ListEntryRun(env, item, path, profile).out|
      == |Flatten(env, item, path, profile).out| + (if Divides(path) then 1 else 0)
  {
  }

  /** The count of the induction step of DividerCount. */
  lemma CountStep(total: nat, prevTotal: nat, entry: nat, prevLength: nat, flat: nat, n: nat, divides: bool)
    requires n > 0 && total == prevTotal + entry
    requires prevTotal == prevLength + (if divides then n - 1 else 0)
    requires entry == flat + (if divides then 1 else 0)
    ensures total == prevLength + flat + (if divides then n else 0)
  {
  }

  /** List iteration adds one divider per entry at a divider path and none
      elsewhere. */
  lemma {:induction false} DividerCount(env: Env, j: Json, n: nat, path: string, profile: string)
    requires j.JArray? && n <= |j.items|
    requires IterList(env, j, n, path, profile).ok
    ensures |IterList(env, j, n, path, profile).out|
      == EntriesLength(env, j, n, path, profile) + (if Divides(path) then n else 0)
  {
    if n > 0 {
      IterListOk(env, j, n, path, profile);
      DividerCount(env, j, n - 1, path, profile);
      ListEntryLength(env, j.items[n - 1], path, profile);
      var flat := |Flatten(env, j.items[n - 1], path, profile).out|;
      assert EntriesLength(env, j, n, path, profile) == EntriesLength(env, j, n - 1, path, profile) + flat;
      CountStep(|IterList(env, j, n, path, profile).out|, |IterList(env, j, n - 1, path, profile).out|,
                |ListEntryRun(env, j.items[n - 1], path, profile).out|, EntriesLength(env, j, n - 1, path, profile),
                flat, n, Divides(path));
    }
  }

  /** `rows`, each followed by `after`. */
  function WithAfter(rows: seq<Fragment>, after: seq<Fragment>): (r: seq<Fragment>)
  {
    if rows == [] then [] else WithAfter(rows[..|rows| - 1], after) + ([rows[|rows| - 1]] + after)
  }

  /** Nothing after each row leaves the rows as they are. */
  lemma {:induction false} WithNothingAfter(rows: seq<Fragment>)
    ensures WithAfter(rows, []) == rows
  {
    if rows != [] {
      WithNothingAfter(rows[..|rows| - 1]);
    }
  }

  /** A divider after each row puts row `i` at `2i` and a divider at
      `2i + 1`. */
  lemma {:induction false} WithDividers(rows: seq<Fragment>)
    ensures |WithAfter(rows, [Divider])| == 2 * |rows|
    ensures forall i :: 0 <= i < |rows| ==>
      WithAfter(rows, [Divider])[2 * i] == rows[i] && WithAfter(rows, [Divider])[2 * i + 1] == Divider
  {
    if rows != [] {
      var front := rows[..|rows| - 1];
      WithDividers(front);
      var prev := WithAfter(front, [Divider]);
      var out := WithAfter(rows, [Divider]);
      assert out == prev + [rows[|rows| - 1], Divider];
      forall i | 0 <= i < |rows|
        ensures out[2 * i] == rows[i] && out[2 * i + 1] == Divider
      {
        if i < |front| {
          assert out[2 * i] == prev[2 * i];
          assert out[2 * i + 1] == prev[2 * i + 1];
          assert front[i] == rows[i];
        }
      }
    }
  }

  /** One more row, and what follows it, extends the rows so far. */
  lemma RowThenAfter(prev: Run, entry: Run, after: seq<Fragment>, rows: seq<Fragment>, row: Fragment)
    requires prev == Run(WithAfter(rows, after), true) && entry == Run([row], true)
    ensures Then(prev, Then(entry, Run(after, true))) == Run(WithAfter(rows + [row], after), true)
  {
    assert (rows + [row])[..|rows|] == rows;
  }

  /** The rows of the first `n` scalar entries of a list, at its path. */
  function ScalarRows(env: Env, j: Json, n: nat, path: string, profile: string): (r: seq<Fragment>)
    requires j.JArray? && n <= |j.items|
    ensures |r| == n
    ensures forall i :: 0 <= i < n ==> r[i] == PropertyRow(env, j.items[i], path, profile)
  {
    if n == 0 then [] else ScalarRows(env, j, n - 1, path, profile) + [PropertyRow(env, j.items[n - 1], path, profile)]
  }

  /** The entries of a list of scalars are walked at the list's own path, in
      order: one row each, each followed by the divider of the path. */
  lemma {:induction false} ScalarListIsRows(env: Env, j: Json, n: nat, path: string, profile: string)
    requires j.JArray? && n <= |j.items|
    requires forall i :: 0 <= i < n ==> IsScalar(j.items[i])
    ensures IterList(env, j, n, path, profile) == Run(WithAfter(ScalarRows(env, j, n, path, profile), DividerAfter(path)), true)
  {
    if n > 0 {
      ScalarListIsRows(env, j, n - 1, path, profile);
      ScalarAppendsOneRow(env, j.items[n - 1], path, profile);
      IterListStep(env, j, n - 1, path, profile);
      RowThenAfter(IterList(env, j, n - 1, path, profile), Flatten(env, j.items[n - 1], path, profile),
                   DividerAfter(path), ScalarRows(env, j, n - 1, path, profile), PropertyRow(env, j.items[n - 1], path, profile));
    }
  }

  /** So a list of scalars gives one row per entry, in order and at the
      list's path, with a divider after each exactly when the path's last
      segment asks for one. */
  lemma ScalarListRows(env: Env, j: Json, path: string, profile: string)
    requires j.JArray? && forall i :: 0 <= i < |j.items| ==> IsScalar(j.items[i])
    ensures IterList(env, j, |j.items|, path, profile).ok
    ensures !Divides(path) ==> IterList(env, j, |j.items|, path, profile).out == ScalarRows(env, j, |j.items|, path, profile)
    ensures Divides(path) ==> |IterList(env, j, |j.items|, path, profile).out| == 2 * |j.items|
    ensures Divides(path) ==> forall i :: 0 <= i < |j.items| ==>
      && IterList(env, j, |j.items|, path, profile).out[2 * i] == PropertyRow(env, j.items[i], path, profile)
      && IterList(env, j, |j.items|, path, profile).out[2 * i + 1] == Divider
  {
    var rows := ScalarRows(env, j, |j.items|, path, profile);
    ScalarListIsRows(env, j, |j.items|, path, profile);
    WithNothingAfter(rows);
    WithDividers(rows);
  }

  /** `i * w`, written without multiplication. */
  function Pos(i: nat, w: nat): (r: nat)
  {
    if i == 0 then 0 else Pos(i - 1, w) + w
  }

  lemma {:induction false} PosMono(a: nat, b: nat, w: nat)
    requires a <= b
    ensures Pos(a, w) <= Pos(b, w)
    decreases b
  {
    if a < b {
      PosMono(a, b - 1, w);
    }
  }

  /** One block per head: the head, `body`, an end-sub-head. */
  function BlocksOf(heads: seq<Fragment>, body: seq<Fragment>): seq<Fragment>
  {
    if heads == [] then []
    else BlocksOf(heads[..|heads| - 1], body) + ([heads[|heads| - 1]] + (body + [EndSubHead]))
  }

  /** The length of one block around `body`. */
  function Width(body: seq<Fragment>): nat
  {
    |body| + 2
  }

  /** `out` is one block per head, each block the head, `body` and an
      end-sub-head, block `i` starting at `i * Width(body)`. */
  ghost predicate BlockShape(out: seq<Fragment>, heads: seq<Fragment>, body: seq<Fragment>)
  {
    && |out| == Pos(|heads|, Width(body))
    && forall i :: 0 <= i < |heads| ==> BlockHere(out, Pos(i, Width(body)), heads[i], body)
  }

  /** `out` holds a block for head `hd` around `body` at position `p`. */
  ghost predicate BlockHere(out: seq<Fragment>, p: nat, hd: Fragment, body: seq<Fragment>)
  {
    && p + |body| + 2 <= |out|
    && out[p] == hd
    && out[p + 1..p + |body| + 1] == body
    && out[p + |body| + 1] == EndSubHead
  }

  lemma KeepBlock(prev: seq<Fragment>, block: seq<Fragment>, p: nat, hd: Fragment, body: seq<Fragment>)
    requires BlockHere(prev, p, hd, body)
    ensures BlockHere(prev + block, p, hd, body)
  {
    assert (prev + block)[p + 1..p + |body| + 1] == prev[p + 1..p + |body| + 1];
  }

  lemma LastBlock(prev: seq<Fragment>, hd: Fragment, body: seq<Fragment>)
    ensures BlockHere(prev + ([hd] + (body + [EndSubHead])), |prev|, hd, body)
  {
    var out := prev + ([hd] + (body + [EndSubHead]));
    assert out[|prev| + 1..|prev| + |body| + 1] == body;
  }

  lemma {:induction false} BlockAt(heads: seq<Fragment>, body: seq<Fragment>)
    ensures BlockShape(BlocksOf(heads, body), heads, body)
  {
    var w := Width(body);
    if heads != [] {
      var n := |heads|;
      var front := heads[..n - 1];
      BlockAt(front, body);
      var prev := BlocksOf(front, body);
      var block := [heads[n - 1]] + (body + [EndSubHead]);
      var out := BlocksOf(heads, body);
      assert out == prev + block;
      forall i | 0 <= i < n
        ensures BlockHere(out, Pos(i, w), heads[i], body)
      {
        if i < n - 1 {
          PosMono(i + 1, n - 1, w);
          assert front[i] == heads[i];
          assert BlockHere(prev, Pos(i, w), heads[i], body);
          KeepBlock(prev, block, Pos(i, w), heads[i], body);
        } else {
          LastBlock(prev, heads[i], body);
        }
      }
    }
  }

  /** The sub-heads of the first `n` entries of a contained list. */
  function ContainedHeads(env: Env, v: Json, n: nat): (r: seq<Fragment>)
    requires v.JArray? && n <= |v.items| && forall i :: 0 <= i < n ==> v.items[i].JObject?
    ensures |r| == n
    ensures forall i :: 0 <= i < n ==> r[i] == SubHead(ResourceTypeText(env, v.items[i]))
  {
    if n == 0 then [] else ContainedHeads(env, v, n - 1) + [SubHead(ResourceTypeText(env, v.items[n - 1]))]
  }

  /** handle_contained's loop over `dict` entries, when walking the whole
      list succeeds: one block per entry, in order. */
  lemma {:induction false} ContainedIsBlocks(env: Env, v: Json, n: nat, path: string, profile: string)
    requires v.JArray? && n <= |v.items|
    requires forall i :: 0 <= i < n ==> v.items[i].JObject?
    requires Flatten(env, v, path, profile).ok
    ensures ContainedLoop(env, v, n, path, profile)
      == Run(BlocksOf(ContainedHeads(env, v, n), Flatten(env, v, path, profile).out), true)
  {
    if n > 0 {
      ContainedIsBlocks(env, v, n - 1, path, profile);
      ContainedLoopStep(env, v, n - 1, path, profile);
      var heads := ContainedHeads(env, v, n);
      assert heads[..n - 1] == ContainedHeads(env, v, n - 1);
    } else {
      assert ContainedHeads(env, v, 0) == [];
    }
  }

  /** handle_contained on a list of `n` `dict` entries, when walking the
      whole list succeeds: per entry, in order, the entry's resource type
      as a sub-head, the walk of the WHOLE list, an end-sub-head -- so the
      list is walked `n` times. */
  lemma ContainedShape(env: Env, v: Json, path: string, profile: string)
    requires v.JArray? && forall i :: 0 <= i < |v.items| ==> v.items[i].JObject?
    requires Flatten(env, v, path, profile).ok
    ensures ContainedRun(env, v, path, profile).ok
    ensures BlockShape(ContainedRun(env, v, path, profile).out, ContainedHeads(env, v, |v.items|), Flatten(env, v, path, profile).out)
  {
    var n := |v.items|;
    ContainedIsBlocks(env, v, n, path, profile);
    BlockAt(ContainedHeads(env, v, n), Flatten(env, v, path, profile).out);
  }

  /** handle_contained raises at the first list entry that is not a `dict`,
      after appending what the entries before it appended. */
  lemma {:induction false} ContainedStopsAtNonDict(env: Env, v: Json, k: nat, path: string, profile: string)
    requires v.JArray? && k < |v.items| && !v.items[k].JObject?
    ensures !ContainedRun(env, v, path, profile).ok
    ensures ContainedLoop(env, v, k, path, profile).ok ==>
      ContainedRun(env, v, path, profile).out == ContainedLoop(env, v, k, path, profile).out
  {
    assert !ContainedLoop(env, v, k + 1, path, profile).ok;
    ContainedLoopStops(env, v, k + 1, |v.items|, path, profile);
  }

  // ---------------------------------------------------------------------
  // JsonHelper

  /** JsonHelper: the walk, appending to `flattened_values` in place. */
  class JsonHelper {
    const env: Env
    var flattenedValues: seq<Fragment>

    constructor(env: Env)
      ensures this.env == env && flattenedValues == []
    {
      this.env := env;
      flattenedValues := [];
    }

    /** start_flattening: the resource's JSON, at the path of its resource
        type, under its profile. */
    method StartFlattening(resource: Json, resourceType: string, profile: string) returns (ok: bool)
      modifies this
      ensures flattenedValues == old(flattenedValues) + Flatten(env, resource, resourceType, profile).out
      ensures ok == Flatten(env, resource, resourceType, profile).ok
    {
      ok := FlattenResource(resource, resourceType, profile);
    }

    /** handle_property */
    method HandleProperty(j: Json, path: string, profile: string)
      modifies this
      ensures flattenedValues == old(flattenedValues) + [PropertyRow(env, j, path, profile)]
    {
      var caption := env.getLabel(profile, path);
      var text := FormatDate(Str(env, j), env.parse);
      flattenedValues := flattenedValues + [Row(caption, text)];
    }

    /** flatten_resource */
    method FlattenResource(j: Json, path: string, profile: string) returns (ok: bool)
      modifies this
      ensures flattenedValues == old(flattenedValues) + Flatten(env, j, path, profile).out
      ensures ok == Flatten(env, j, path, profile).ok
      decreases j, 3
    {
      if j.JObject? {
        var kind := Dispatch(env, j, path);
        if kind.None? {
          ok := IterDictObject(j, path, profile);
        } else {
          ok := HandleDict(kind.value, j, path, profile);
        }
      } else if j.JArray? {
        if env.isRelationship(j.items) {
          flattenedValues := flattenedValues + [env.relationship(j.items)];
          ok := true;
        } else if IsSection(path) {
          ok := CreateSection(j, path, profile);
        } else {
          ok := IterDictList(j, path, profile);
        }
      } else {
        HandleProperty(j, path, profile);
        ok := true;
      }
    }

    /** The branch of flatten_resource that hands a `dict` of kind `k` to
        its handler. */
    method HandleDict(k: Kind, j: Json, path: string, profile: string) returns (ok: bool)
      requires j.JObject?
      modifies this
      ensures flattenedValues == old(flattenedValues) + HandleKind(env, k, j, path, profile).out
      ensures ok == HandleKind(env, k, j, path, profile).ok
      decreases j, 2
    {
      ok := true;
      match k {
        case Extension =>
          var results := env.extension(j, path, profile);
          if results.FragmentList? && |results.items| > 0 {
            flattenedValues := flattenedValues + results.items;
          } else {
            flattenedValues := flattenedValues + [ExtValue(results)];
          }
        case CodeableConcept =>
          flattenedValues := flattenedValues + env.handle(k, ConceptArg(j, path), path, profile);
        case TimingRepeat =>
          ok := HandleTiming(j, path, profile);
        case Range =>
          flattenedValues := flattenedValues + [env.single(k, j, path, profile)];
        case Quantity =>
          flattenedValues := flattenedValues + [env.single(k, j, path, profile)];
        case _ =>
          flattenedValues := flattenedValues + env.handle(k, j, path, profile);
      }
    }

    /** The `TimingRepeat` handler: its own fragments, then the flattened
        `extension` member when there is one. */
    method HandleTiming(j: Json, path: string, profile: string) returns (ok: bool)
      requires j.JObject?
      modifies this
      ensures flattenedValues == old(flattenedValues) + HandleKind(env, TimingRepeat, j, path, profile).out
      ensures ok == HandleKind(env, TimingRepeat, j, path, profile).ok
      decreases j, 1
    {
      ok := true;
      var own := env.handle(TimingRepeat, j, path, profile);
      ghost var head := Run(own, true);
      flattenedValues := flattenedValues + own;
      var ext := TimingIndex(env, j);
      if ext.Some? {
        ghost var rest := Flatten(env, j.members[ext.value].value, path + ".extension", profile);
        assert HandleKind(env, TimingRepeat, j, path, profile) == Then(head, rest);
        AppendThen(old(flattenedValues), head, rest);
        ok := FlattenResource(j.members[ext.value].value, path + ".extension", profile);
      } else {
        assert HandleKind(env, TimingRepeat, j, path, profile) == head;
      }
    }

    /** iter_dict_object */
    method IterDictObject(j: Json, path: string, profile: string) returns (ok: bool)
      requires j.JObject?
      modifies this
      ensures flattenedValues == old(flattenedValues) + IterMembers(env, j, |j.members|, path, profile).out
      ensures ok == IterMembers(env, j, |j.members|, path, profile).ok
      decreases j, 2
    {
      var i := 0;
      while i < |j.members|
        invariant 0 <= i <= |j.members|
        invariant flattenedValues == old(flattenedValues) + IterMembers(env, j, i, path, profile).out
        invariant IterMembers(env, j, i, path, profile).ok
      {
        IterMembersStep(env, j, i, path, profile);
        ok := IterMember(j.members[i].key, j.members[i].value, path, profile);
        AppendThen(old(flattenedValues), IterMembers(env, j, i, path, profile),
                   MemberRun(env, j.members[i].key, j.members[i].value, path, profile));
        if !ok {
          IterMembersStops(env, j, i + 1, |j.members|, path, profile);
          return;
        }
        i := i + 1;
      }
      ok := true;
    }

    /** One round of iter_dict_object, for the member `key: value`. */
    method IterMember(key: string, value: Json, path: string, profile: string) returns (ok: bool)
      modifies this
      ensures flattenedValues == old(flattenedValues) + MemberRun(env, key, value, path, profile).out
      ensures ok == MemberRun(env, key, value, path, profile).ok
      decreases value, 6
    {
      if StartsWith(key, "div") {
        flattenedValues := flattenedValues + [DivRow(env, value)];
        ok := true;
      } else if StartsWith(key, "contained") {
        ok := HandleContained(value, path + "." + key, profile);
      } else {
        ok := FlattenResource(value, path + "." + key, profile);
      }
    }

    /** iter_dict_list */
    method IterDictList(j: Json, path: string, profile: string) returns (ok: bool)
      requires j.JArray?
      modifies this
      ensures flattenedValues == old(flattenedValues) + IterList(env, j, |j.items|, path, profile).out
      ensures ok == IterList(env, j, |j.items|, path, profile).ok
      decreases j, 1
    {
      var i := 0;
      while i < |j.items|
        invariant 0 <= i <= |j.items|
        invariant flattenedValues == old(flattenedValues) + IterList(env, j, i, path, profile).out
        invariant IterList(env, j, i, path, profile).ok
      {
        ghost var before := flattenedValues;
        IterListStep(env, j, i, path, profile);
        ok := ListEntry(j, i, path, profile);
        ghost var e := ListEntryRun(env, j.items[i], path, profile);
        AppendThen(old(flattenedValues), IterList(env, j, i, path, profile), e);
        if !ok {
          IterListStops(env, j, i + 1, |j.items|, path, profile);
          return;
        }
        i := i + 1;
      }
      ok := true;
    }

    /** One round of iter_dict_list: the entry, then the divider of the
        path. */
    method ListEntry(j: Json, i: nat, path: string, profile: string) returns (ok: bool)
      requires j.JArray? && i < |j.items|
      modifies this
      ensures var r := ListEntryRun(env, j.items[i], path, profile);
        flattenedValues == old(flattenedValues) + r.out && ok == r.ok
      decreases j, 0
    {
      ok := FlattenResource(j.items[i], path, profile);
      if ok && Divides(path) {
        flattenedValues := flattenedValues + [Divider];
      }
    }

    /** create_section */
    method CreateSection(j: Json, path: string, profile: string) returns (ok: bool)
      requires j.JArray?
      modifies this
      ensures flattenedValues == old(flattenedValues) + SectionRun(env, j, path, profile).out
      ensures ok == SectionRun(env, j, path, profile).ok
      decreases j, 2
    {
      var headLabel := SectionLabel(env, profile, path);
      SectionRunParts(env, j, path, profile);
      flattenedValues := flattenedValues + [SubHead(headLabel)];
      ok := IterDictList(j, path, profile);
      if ok {
        flattenedValues := flattenedValues + [EndSubHead];
      }
    }

    /** One round of handle_contained's loop. */
    method HandleContainedEntry(v: Json, entry: Json, path: string, profile: string) returns (ok: bool)
      modifies this
      ensures flattenedValues == old(flattenedValues) + EntryRun(env, v, entry, path, profile).out
      ensures ok == EntryRun(env, v, entry, path, profile).ok
      decreases v, 4
    {
      if !entry.JObject? {
        // `entry.get(...)` raises before anything is appended
        return false;
      }
      flattenedValues := flattenedValues + [SubHead(ResourceTypeText(env, entry))];
      ok := FlattenResource(v, path, profile);
      if ok {
        flattenedValues := flattenedValues + [EndSubHead];
      }
    }

    /** handle_contained */
    method HandleContained(v: Json, path: string, profile: string) returns (ok: bool)
      modifies this
      ensures flattenedValues == old(flattenedValues) + ContainedRun(env, v, path, profile).out
      ensures ok == ContainedRun(env, v, path, profile).ok
      decreases v, 5
    {
      if !v.JArray? {
        ok := FlattenResource(v, path, profile);
        return;
      }
      var i := 0;
      while i < |v.items|
        invariant 0 <= i <= |v.items|
        invariant flattenedValues == old(flattenedValues) + ContainedLoop(env, v, i, path, profile).out
        invariant ContainedLoop(env, v, i, path, profile).ok
      {
        ContainedLoopStep(env, v, i, path, profile);
        ok := HandleContainedEntry(v, v.items[i], path, profile);
        AppendThen(old(flattenedValues), ContainedLoop(env, v, i, path, profile), EntryRun(env, v, v.items[i], path, profile));
        if !ok {
          ContainedLoopStops(env, v, i + 1, |v.items|, path, profile);
          return;
        }
        i := i + 1;
      }
      ok := true;
    }
  }
}
