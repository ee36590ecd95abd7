/** checked_sources and build_index of scripts/catalog_decisions.py: the union of the registered decision sources. */
module Decisions {
  import opened Wrappers
  import opened Json
  import opened Decimal
  import opened Ordering
  import opened Sorting
  import opened Pointers
  import opened Aliases
  import opened Identities

  // ---------------------------------------------------------------- sources

  datatype Spec = Spec(path: string, collection: string, field: string, kind: string)

  const BASE_SOURCES: seq<Spec> := [
    Spec("catalogs/us-equities/coverage.json", "/stars", "repository", "public_star"),
    Spec("catalogs/us-equities/star-audit.json", "/entries", "repository", "star_review"),
    Spec("catalogs/us-equities/foundation-memory.json", "/entries", "repository", "catalog_card"),
    Spec("catalogs/us-equities/agents-operations.json", "/entries", "repository", "catalog_card"),
    Spec("catalogs/us-equities/data-research.json", "/entries", "repository", "catalog_card"),
    Spec("catalogs/us-equities/engines-strategies.json", "/entries", "repository", "catalog_card"),
    Spec("manifests/stack.json", "/components", "repository", "component_record"),
    Spec("manifests/candidates.json", "/candidates", "url", "legacy_candidate"),
    Spec("adoption/research.json", "/candidates", "repository", "research_supplement")]

  const CURRENT_STAR_SOURCE: Spec :=
    Spec("catalogs/convergence-practice/public-starred.json", "/repositories", "repository", "public_star")

  /** source_key(spec) */
  function KeyOf(spec: Spec): seq<string> {
    [spec.path, spec.collection]
  }

  function KeySet(specs: seq<Spec>): set<seq<string>> {
    if specs == [] then {} else KeySet(specs[..|specs| - 1]) + {KeyOf(specs[|specs| - 1])}
  }

  /** The source descriptors that may not change: the required ones, the one of them whose records name their
      repository in another field, and the public-star snapshot. */
  datatype Rules = Rules(base: seq<Spec>, legacy: Spec, star: Spec)

  const RULES: Rules := Rules(BASE_SOURCES, BASE_SOURCES[7], CURRENT_STAR_SOURCE)

  predicate SpecOk(rules: Rules, item: Spec) {
    && (item.field == "repository" || item == rules.legacy)
    && (if KeyOf(item) == KeyOf(rules.star) then item == rules.star
        else if KeyOf(item) in KeySet(rules.base) then item in rules.base
        else item.kind == "research_supplement")
  }

  predicate SpecsOk(rules: Rules, specs: seq<Spec>, starExists: bool) {
    && (forall item | item in specs :: SpecOk(rules, item))
    && |KeySet(specs)| == |specs|
    && KeySet(rules.base) <= KeySet(specs)
    && (starExists ==> KeyOf(rules.star) in KeySet(specs))
  }

  function Checked(rules: Rules, specs: seq<Spec>, starExists: bool): Option<seq<Spec>> {
    if SpecsOk(rules, specs, starExists) then Some(SortBy(specs, KeyOf)) else None
  }

  lemma {:induction false} KeySetHas(specs: seq<Spec>, key: seq<string>)
    ensures key in KeySet(specs) <==> exists i | 0 <= i < |specs| :: KeyOf(specs[i]) == key
  {
    if specs != [] {
      var init := specs[..|specs| - 1];
      KeySetHas(init, key);
      assert forall i | 0 <= i < |init| :: init[i] == specs[i];
    }
  }

  lemma KeySetSnoc(specs: seq<Spec>, i: nat)
    requires i < |specs|
    ensures KeySet(specs[..i + 1]) == KeySet(specs[..i]) + {KeyOf(specs[i])}
  {
    assert specs[..i + 1][..i] == specs[..i];
  }

  lemma {:induction false} KeySetSize(specs: seq<Spec>, n: nat)
    requires n <= |specs|
    ensures |KeySet(specs)| <= |KeySet(specs[..n])| + |specs| - n
    decreases |specs| - n
  {
    if n < |specs| {
      KeySetSnoc(specs, n);
      KeySetSize(specs, n + 1);
    } else {
      assert specs[..n] == specs;
    }
  }

  lemma RepeatedKey(specs: seq<Spec>, i: nat)
    requires i < |specs| && KeyOf(specs[i]) in KeySet(specs[..i]) && |KeySet(specs[..i])| == i
    ensures |KeySet(specs)| != |specs|
  {
    KeySetSnoc(specs, i);
    assert KeySet(specs[..i + 1]) == KeySet(specs[..i]);
    KeySetSize(specs, i + 1);
  }

  method CheckedSources(rules: Rules, specs: seq<Spec>, starExists: bool) returns (r: Option<seq<Spec>>)
    ensures r == Checked(rules, specs, starExists)
  {
    var seen: set<seq<string>> := {};
    for i := 0 to |specs|
      invariant seen == KeySet(specs[..i]) && |seen| == i
      invariant forall j | 0 <= j < i :: SpecOk(rules, specs[j])
    {
      var item := specs[i];
      KeySetSnoc(specs, i);
      if !SpecOk(rules, item) {
        assert item in specs;
        return None;
      }
      if KeyOf(item) in seen {
        RepeatedKey(specs, i);
        return None;
      }
      seen := seen + {KeyOf(item)};
    }
    assert specs[..|specs|] == specs;
    if !(KeySet(rules.base) <= seen) || (starExists && KeyOf(rules.star) !in seen) {
      return None;
    }
    return Some(SortBy(specs, KeyOf));
  }

  // ---------------------------------------------------------------- entries

  const NOTED: seq<string> :=
    ["id", "decision", "disposition", "review_level", "review_depth", "evidence_depth", "evidence_level"]

  /** The text fields a reference copies from its entry. */
  function Noted(entry: Fields, keys: seq<string>): Fields {
    if keys == [] then map[]
    else
      var init, key := Noted(entry, keys[..|keys| - 1]), keys[|keys| - 1];
      if key in entry && entry[key].Str? then init[key := entry[key]] else init
  }

  datatype Reference = Reference(kind: string, path: string, pointer: string, noted: Fields)

  function RefKey(r: Reference): seq<string> {
    [r.path, r.pointer, r.kind]
  }

  /** A source entry in the union: which source it is the number-th entry of, its canonical name, and its reference. */
  datatype Placed = Placed(name: string, spec: Spec, number: nat, reference: Reference)

  type Documents = map<string, Json>

  function ItemsOf(docs: Documents, spec: Spec): Option<seq<Json>> {
    if spec.path !in docs then None
    else
      match PointerAt(docs[spec.path], spec.collection)
      case Success(Arr(items)) => Some(items)
      case _ => None
  }

  function ReferenceTo(spec: Spec, number: nat, entry: Fields): Reference {
    Reference(spec.kind, spec.path, spec.collection + "/" + Print(number), Noted(entry, NOTED))
  }

  ghost function NameOf(spec: Spec, entry: Fields, identify: Identify, aliases: AliasMap): Option<string> {
    match identify(Get(entry, spec.field))
    case Some(name) => CanonicalOf(name, aliases)
    case None => None
  }

  ghost function Place(spec: Spec, number: nat, item: Json, identify: Identify, aliases: AliasMap): Option<Placed> {
    if !item.Obj? then None
    else
      match NameOf(spec, item.fields, identify, aliases)
      case Some(name) => Some(Placed(name, spec, number, ReferenceTo(spec, number, item.fields)))
      case None => None
  }

  ghost function PlaceItems(spec: Spec, items: seq<Json>, identify: Identify, aliases: AliasMap): Option<seq<Placed>> {
    if items == [] then Some([])
    else
      match (PlaceItems(spec, items[..|items| - 1], identify, aliases),
             Place(spec, |items| - 1, items[|items| - 1], identify, aliases))
      case (Some(before), Some(p)) => Some(before + [p])
      case _ => None
  }

  ghost function PlaceSource(docs: Documents, spec: Spec, identify: Identify, aliases: AliasMap): Option<seq<Placed>> {
    match ItemsOf(docs, spec)
    case Some(items) => PlaceItems(spec, items, identify, aliases)
    case None => None
  }

  ghost function PlaceAll(docs: Documents, specs: seq<Spec>, identify: Identify, aliases: AliasMap)
    : Option<seq<Placed>>
  {
    if specs == [] then Some([])
    else
      match (PlaceAll(docs, specs[..|specs| - 1], identify, aliases),
             PlaceSource(docs, specs[|specs| - 1], identify, aliases))
      case (Some(before), Some(more)) => Some(before + more)
      case _ => None
  }

  // ---------------------------------------------------------------- records

  datatype Draft = Draft(publicStar: bool, kinds: seq<string>, references: seq<Reference>)

  const NEW_DRAFT: Draft := Draft(false, [], [])

  function AddReference(d: Draft, r: Reference): Draft {
    Draft(d.publicStar || r.kind == "public_star",
          if r.kind in d.kinds then d.kinds else d.kinds + [r.kind],
          d.references + [r])
  }

  /** The record a name has collected from the placed entries. */
  function DraftOf(placed: seq<Placed>, name: string): Draft {
    if placed == [] then NEW_DRAFT
    else
      var init, last := DraftOf(placed[..|placed| - 1], name), placed[|placed| - 1];
      if last.name == name then AddReference(init, last.reference) else init
  }

  function Names(placed: seq<Placed>): set<string> {
    if placed == [] then {} else Names(placed[..|placed| - 1]) + {placed[|placed| - 1].name}
  }

  function NamesFrom(source: Spec, placed: seq<Placed>): set<string> {
    if placed == [] then {}
    else
      var init, last := NamesFrom(source, placed[..|placed| - 1]), placed[|placed| - 1];
      if last.spec == source then init + {last.name} else init
  }

  predicate Registers(specs: seq<Spec>, spec: Spec) {
    specs != [] && (specs[|specs| - 1] == spec || Registers(specs[..|specs| - 1], spec))
  }

  /** The names of the current public-star snapshot, when it is registered. */
  function Stars(star: Spec, specs: seq<Spec>, placed: seq<Placed>): Option<set<string>> {
    if Registers(specs, star) then Some(NamesFrom(star, placed)) else None
  }

  datatype Record = Record(
    repository: string, aliases: seq<string>, publicStar: bool, recordTypes: seq<string>, references: seq<Reference>)

  function TextKey(s: string): seq<string> { [s] }

  ghost function AliasesTo(name: string, names: seq<string>, aliases: AliasMap): seq<string> {
    if names == [] then []
    else
      var init, last := AliasesTo(name, names[..|names| - 1], aliases), names[|names| - 1];
      if CanonicalOf(last, aliases) == Some(name) then init + [last] else init
  }

  function Finish(name: string, d: Draft, aliasList: seq<string>, stars: Option<set<string>>): Record {
    Record(Repository(name), SortBy(aliasList, TextKey),
           if stars.Some? then name in stars.value else d.publicStar,
           SortBy(d.kinds, TextKey), SortBy(d.references, RefKey))
  }

  ghost function FinalRecord(star: Spec, name: string, placed: seq<Placed>, specs: seq<Spec>, aliases: AliasMap)
    : Record
  {
    Finish(name, DraftOf(placed, name), AliasesTo(name, Sorted(aliases.Keys), aliases), Stars(star, specs, placed))
  }

  ghost function FinalRecords(
      star: Spec, names: seq<string>, placed: seq<Placed>, specs: seq<Spec>, aliases: AliasMap)
    : (r: seq<Record>)
    ensures |r| == |names|
    ensures forall i | 0 <= i < |names| :: r[i] == FinalRecord(star, names[i], placed, specs, aliases)
  {
    if names == [] then []
    else FinalRecords(star, names[..|names| - 1], placed, specs, aliases)
         + [FinalRecord(star, names[|names| - 1], placed, specs, aliases)]
  }

  // ---------------------------------------------------------------- counts and the index

  datatype Counts = Counts(repositories: nat, publicStars: nat, beyond: int, references: nat, byType: map<string, nat>)

  function StarCount(records: seq<Record>): nat {
    if records == [] then 0
    else StarCount(records[..|records| - 1]) + if records[|records| - 1].publicStar then 1 else 0
  }

  function ReferenceCount(records: seq<Record>): nat {
    if records == [] then 0
    else ReferenceCount(records[..|records| - 1]) + |records[|records| - 1].references|
  }

  function CountKinds(counts: map<string, nat>, kinds: seq<string>): map<string, nat> {
    if kinds == [] then counts
    else
      var init, kind := CountKinds(counts, kinds[..|kinds| - 1]), kinds[|kinds| - 1];
      init[kind := (if kind in init then init[kind] else 0) + 1]
  }

  function TypeCounts(records: seq<Record>): map<string, nat> {
    if records == [] then map[]
    else CountKinds(TypeCounts(records[..|records| - 1]), records[|records| - 1].recordTypes)
  }

  function CountsOf(records: seq<Record>): Counts {
    Counts(|records|, StarCount(records), |records| - StarCount(records), ReferenceCount(records), TypeCounts(records))
  }

  datatype DecisionIndex = DecisionIndex(sources: seq<Spec>, aliases: AliasMap, counts: Counts, records: seq<Record>)

  /** Everything build_index reads: the documents by path, the aliases of coverage.json, whether the current
      public-star snapshot exists, the repository-name syntax, and the fixed descriptors (RULES in the program). */
  datatype Root = Root(
    docs: Documents, aliasEntries: seq<(string, Json)>, starExists: bool, identify: Identify, rules: Rules)

  ghost function IndexOf(star: Spec, sources: seq<Spec>, aliases: AliasMap, placed: seq<Placed>): DecisionIndex {
    var records := FinalRecords(star, Sorted(Names(placed)), placed, sources, aliases);
    DecisionIndex(sources, aliases, CountsOf(records), records)
  }

  ghost function BuildOf(root: Root, specs: seq<Spec>): Option<DecisionIndex> {
    match (Checked(root.rules, specs, root.starExists), AliasesOf(root.aliasEntries, root.identify))
    case (Some(sources), Some(aliases)) =>
      (match PlaceAll(root.docs, sources, root.identify, aliases)
       case Some(placed) => Some(IndexOf(root.rules.star, sources, aliases, placed))
       case None => None)
    case _ => None
  }

  // ---------------------------------------------------------------- the loops of build_index

  /** The records dictionary holds exactly the drafts of the placed entries. */
  ghost predicate Drafted(placed: seq<Placed>, records: map<string, Draft>) {
    records.Keys == Names(placed) && forall name | name in records :: records[name] == DraftOf(placed, name)
  }

  lemma NamesSnoc(placed: seq<Placed>, p: Placed)
    ensures Names(placed + [p]) == Names(placed) + {p.name}
  {
    assert (placed + [p])[..|placed|] == placed;
  }

  lemma {:induction false} UnnamedDraft(placed: seq<Placed>, name: string)
    requires name !in Names(placed)
    ensures DraftOf(placed, name) == NEW_DRAFT
  {
    if placed != [] {
      UnnamedDraft(placed[..|placed| - 1], name);
    }
  }

  /** records.setdefault(name, ...) and the updates of one entry. */
  function AddEntry(records: map<string, Draft>, p: Placed): map<string, Draft> {
    records[p.name := AddReference(if p.name in records then records[p.name] else NEW_DRAFT, p.reference)]
  }

  function RecordsOf(placed: seq<Placed>): map<string, Draft> {
    if placed == [] then map[] else AddEntry(RecordsOf(placed[..|placed| - 1]), placed[|placed| - 1])
  }

  lemma RecordsSnoc(placed: seq<Placed>, p: Placed)
    ensures RecordsOf(placed + [p]) == AddEntry(RecordsOf(placed), p)
  {
    assert (placed + [p])[..|placed|] == placed;
  }

  lemma {:induction false} RecordsAreDrafted(placed: seq<Placed>)
    ensures Drafted(placed, RecordsOf(placed))
  {
    if placed != [] {
      var init, p := placed[..|placed| - 1], placed[|placed| - 1];
      RecordsAreDrafted(init);
      if p.name !in RecordsOf(init) {
        UnnamedDraft(init, p.name);
      }
    }
  }

  method NotedFields(entry: Fields) returns (noted: Fields)
    ensures noted == Noted(entry, NOTED)
  {
    noted := map[];
    for i := 0 to |NOTED|
      invariant noted == Noted(entry, NOTED[..i])
    {
      assert NOTED[..i + 1][..i] == NOTED[..i];
      var field := NOTED[i];
      if field in entry && entry[field].Str? {
        noted := noted[field := entry[field]];
      }
    }
    assert NOTED[..|NOTED|] == NOTED;
  }

  method PlaceEntry(spec: Spec, number: nat, item: Json, identify: Identify, aliases: AliasMap)
    returns (p: Option<Placed>)
    ensures p == Place(spec, number, item, identify, aliases)
  {
    if !item.Obj? {
      return None;
    }
    var name := identify(Get(item.fields, spec.field));
    if name.None? {
      return None;
    }
    var c := Aliases.Canonical(name.value, aliases);
    if c.None? {
      return None;
    }
    var noted := NotedFields(item.fields);
    var reference := Reference(spec.kind, spec.path, spec.collection + "/" + Print(number), noted);
    return Some(Placed(c.value, spec, number, reference));
  }

  lemma {:induction false} PlaceItemsPrefix(spec: Spec, items: seq<Json>, n: nat, identify: Identify, aliases: AliasMap)
    requires n <= |items| && PlaceItems(spec, items, identify, aliases).Some?
    ensures PlaceItems(spec, items[..n], identify, aliases).Some?
  {
    if n < |items| {
      PlaceItemsPrefix(spec, items[..|items| - 1], n, identify, aliases);
      assert items[..|items| - 1][..n] == items[..n];
    } else {
      assert items[..n] == items;
    }
  }

  lemma ItemPlaced(spec: Spec, items: seq<Json>, n: nat, identify: Identify, aliases: AliasMap)
    requires n < |items| && PlaceItems(spec, items[..n], identify, aliases).Some?
    ensures var p := Place(spec, n, items[n], identify, aliases);
      && (p.Some? ==> PlaceItems(spec, items[..n + 1], identify, aliases)
                      == Some(PlaceItems(spec, items[..n], identify, aliases).value + [p.value]))
      && (p.None? ==> PlaceItems(spec, items, identify, aliases).None?)
  {
    assert items[..n + 1][..n] == items[..n];
    if PlaceItems(spec, items, identify, aliases).Some? {
      PlaceItemsPrefix(spec, items, n + 1, identify, aliases);
    }
  }

  /** The inner loop: one source collection. stars collects the names of the current public-star snapshot. */
  method ReadSource(spec: Spec, items: seq<Json>, identify: Identify, aliases: AliasMap, before: map<string, Draft>,
                    ghost earlier: seq<Placed>)
    returns (r: Option<map<string, Draft>>, names: set<string>)
    requires before == RecordsOf(earlier)
    ensures r.Some? <==> PlaceItems(spec, items, identify, aliases).Some?
    ensures r.Some? ==> r.value == RecordsOf(earlier + PlaceItems(spec, items, identify, aliases).value)
    ensures r.Some? ==> names == Names(PlaceItems(spec, items, identify, aliases).value)
  {
    var records := before;
    names := {};
    ghost var placed: seq<Placed> := [];
    assert earlier + [] == earlier && items[..0] == [];
    for number := 0 to |items|
      invariant PlaceItems(spec, items[..number], identify, aliases) == Some(placed)
      invariant records == RecordsOf(earlier + placed) && names == Names(placed)
    {
      var p := PlaceEntry(spec, number, items[number], identify, aliases);
      ItemPlaced(spec, items, number, identify, aliases);
      if p.None? {
        return None, {};
      }
      records := AddEntry(records, p.value);
      RecordsSnoc(earlier + placed, p.value);
      Append(earlier, placed, p.value);
      NamesSnoc(placed, p.value);
      names := names + {p.value.name};
      placed := placed + [p.value];
    }
    assert items[..|items|] == items;
    return Some(records), names;
  }

  lemma Append<T>(a: seq<T>, b: seq<T>, x: T)
    ensures a + b + [x] == a + (b + [x])
  {
  }

  lemma {:induction false} PlaceAllPrefix(
      docs: Documents, specs: seq<Spec>, n: nat, identify: Identify, aliases: AliasMap)
    requires n <= |specs| && PlaceAll(docs, specs, identify, aliases).Some?
    ensures PlaceAll(docs, specs[..n], identify, aliases).Some?
  {
    if n < |specs| {
      PlaceAllPrefix(docs, specs[..|specs| - 1], n, identify, aliases);
      assert specs[..|specs| - 1][..n] == specs[..n];
    } else {
      assert specs[..n] == specs;
    }
  }

  /** Every placed entry comes from one of the sources. */
  predicate PlacedFrom(placed: seq<Placed>, specs: seq<Spec>) {
    forall i | 0 <= i < |placed| :: placed[i].spec in specs
  }

  /** One source document, its collection, and the inner loop. */
  method ReadDocument(docs: Documents, spec: Spec, identify: Identify, aliases: AliasMap, before: map<string, Draft>,
                      ghost earlier: seq<Placed>)
    returns (r: Option<map<string, Draft>>, names: set<string>)
    requires before == RecordsOf(earlier)
    ensures r.Some? <==> PlaceSource(docs, spec, identify, aliases).Some?
    ensures r.Some? ==> var added := PlaceSource(docs, spec, identify, aliases).value;
              r.value == RecordsOf(earlier + added) && names == Names(added) && PlacedFrom(added, [spec])
  {
    var items := ItemsOf(docs, spec);
    if items.None? {
      return None, {};
    }
    r, names := ReadSource(spec, items.value, identify, aliases, before, earlier);
    if r.Some? {
      PlacedBelong(spec, items.value, identify, aliases);
    }
  }

  /** The loop has read the first n sources. */
  ghost predicate HasRead(star: Spec, docs: Documents, specs: seq<Spec>, n: nat, identify: Identify, aliases: AliasMap,
                          records: map<string, Draft>, stars: Option<set<string>>, placed: seq<Placed>)
    requires n <= |specs|
  {
    && PlaceAll(docs, specs[..n], identify, aliases) == Some(placed)
    && records == RecordsOf(placed)
    && stars == Stars(star, specs[..n], placed) && PlacedFrom(placed, specs[..n])
  }

  /** One iteration of the outer loop. */
  method ReadNext(star: Spec, docs: Documents, specs: seq<Spec>, i: nat, identify: Identify, aliases: AliasMap,
                  before: map<string, Draft>, starsBefore: Option<set<string>>, ghost earlier: seq<Placed>)
    returns (r: Option<map<string, Draft>>, stars: Option<set<string>>, ghost placed: seq<Placed>)
    requires i < |specs| && |KeySet(specs)| == |specs|
    requires HasRead(star, docs, specs, i, identify, aliases, before, starsBefore, earlier)
    ensures r.None? ==> PlaceAll(docs, specs, identify, aliases).None?
    ensures r.Some? ==> HasRead(star, docs, specs, i + 1, identify, aliases, r.value, stars, placed)
  {
    var names;
    r, names := ReadDocument(docs, specs[i], identify, aliases, before, earlier);
    stars, placed := starsBefore, earlier;
    if r.None? {
      SourceRefused(docs, specs, i, identify, aliases);
      return;
    }
    ghost var added := PlaceSource(docs, specs[i], identify, aliases).value;
    SourceAdded(star, docs, specs, i, identify, aliases, earlier, added);
    if specs[i] == star {
      stars := Some(names);
    }
    placed := earlier + added;
  }

  /** The outer loop over the checked sources. */
  method ReadSources(star: Spec, docs: Documents, specs: seq<Spec>, identify: Identify, aliases: AliasMap)
    returns (r: Option<map<string, Draft>>, stars: Option<set<string>>, ghost placed: seq<Placed>)
    requires |KeySet(specs)| == |specs|
    ensures r.Some? <==> PlaceAll(docs, specs, identify, aliases).Some?
    ensures r.Some? ==> PlaceAll(docs, specs, identify, aliases) == Some(placed)
                        && r.value == RecordsOf(placed) && stars == Stars(star, specs, placed)
  {
    r, stars, placed := Some(map[]), None, [];
    for i := 0 to |specs|
      invariant r.Some? && HasRead(star, docs, specs, i, identify, aliases, r.value, stars, placed)
    {
      r, stars, placed := ReadNext(star, docs, specs, i, identify, aliases, r.value, stars, placed);
      if r.None? {
        return;
      }
    }
    assert specs[..|specs|] == specs;
  }

  lemma SourceRefused(docs: Documents, specs: seq<Spec>, i: nat, identify: Identify, aliases: AliasMap)
    requires i < |specs| && PlaceSource(docs, specs[i], identify, aliases).None?
    ensures PlaceAll(docs, specs, identify, aliases).None?
  {
    if PlaceAll(docs, specs, identify, aliases).Some? {
      PlaceAllPrefix(docs, specs, i + 1, identify, aliases);
    }
  }

  lemma SourceAdded(star: Spec, docs: Documents, specs: seq<Spec>, i: nat, identify: Identify, aliases: AliasMap,
                    placed: seq<Placed>, added: seq<Placed>)
    requires i < |specs| && |KeySet(specs)| == |specs|
    requires PlaceAll(docs, specs[..i], identify, aliases) == Some(placed) && PlacedFrom(placed, specs[..i])
    requires PlaceSource(docs, specs[i], identify, aliases) == Some(added) && PlacedFrom(added, [specs[i]])
    ensures PlaceAll(docs, specs[..i + 1], identify, aliases) == Some(placed + added)
    ensures PlacedFrom(placed + added, specs[..i + 1])
    ensures Stars(star, specs[..i + 1], placed + added) ==
            if specs[i] == star then Some(Names(added)) else Stars(star, specs[..i], placed)
  {
    assert specs[..i + 1][..i] == specs[..i];
    SourcesAreDistinct(specs, i);
    StarsSnoc(star, specs, i, placed, added);
  }

  lemma SourcesAreDistinct(specs: seq<Spec>, i: nat)
    requires i < |specs| && |KeySet(specs)| == |specs|
    ensures specs[i] !in specs[..i]
  {
    if specs[i] in specs[..i] {
      KeySetSnoc(specs, i);
      KeySetHas(specs[..i], KeyOf(specs[i]));
      assert KeySet(specs[..i + 1]) == KeySet(specs[..i]);
      KeySetSize(specs, i + 1);
      KeySetBound(specs[..i]);
    }
  }

  lemma {:induction false} KeySetBound(specs: seq<Spec>)
    ensures |KeySet(specs)| <= |specs|
  {
    KeySetSize(specs, 0);
    assert specs[..0] == [];
    assert KeySet([]) == {};
  }

  lemma {:induction false} PlacedBelong(spec: Spec, items: seq<Json>, identify: Identify, aliases: AliasMap)
    requires PlaceItems(spec, items, identify, aliases).Some?
    ensures var placed := PlaceItems(spec, items, identify, aliases).value;
      && |placed| == |items|
      && forall n | 0 <= n < |items| :: Place(spec, n, items[n], identify, aliases) == Some(placed[n])
  {
    if items != [] {
      PlacedBelong(spec, items[..|items| - 1], identify, aliases);
    }
  }

  lemma StarsSnoc(star: Spec, specs: seq<Spec>, i: nat, placed: seq<Placed>, added: seq<Placed>)
    requires i < |specs| && specs[i] !in specs[..i]
    requires PlacedFrom(placed, specs[..i]) && PlacedFrom(added, [specs[i]])
    ensures PlacedFrom(placed + added, specs[..i + 1])
    ensures Stars(star, specs[..i + 1], placed + added) ==
            if specs[i] == star then Some(Names(added)) else Stars(star, specs[..i], placed)
  {
    assert specs[..i + 1] == specs[..i] + [specs[i]];
    assert specs[..i + 1][..i] == specs[..i];
    NamesFromConcat(star, placed, added);
    if specs[i] == star {
      NamesFromOther(star, placed, specs[..i]);
      NamesFromSame(star, added);
      assert NamesFrom(star, placed + added) == Names(added);
    } else {
      NamesFromOther(star, added, [specs[i]]);
      assert NamesFrom(star, placed + added) == NamesFrom(star, placed);
    }
  }

  lemma {:induction false} NamesFromConcat(star: Spec, a: seq<Placed>, b: seq<Placed>)
    ensures NamesFrom(star, a + b) == NamesFrom(star, a) + NamesFrom(star, b)
  {
    if b == [] {
      assert a + b == a;
    } else {
      assert (a + b)[..|a + b| - 1] == a + b[..|b| - 1];
      NamesFromConcat(star, a, b[..|b| - 1]);
    }
  }

  lemma {:induction false} NamesFromOther(star: Spec, placed: seq<Placed>, specs: seq<Spec>)
    requires PlacedFrom(placed, specs) && star !in specs
    ensures NamesFrom(star, placed) == {}
  {
    if placed != [] {
      NamesFromOther(star, placed[..|placed| - 1], specs);
    }
  }

  lemma {:induction false} NamesFromSame(star: Spec, placed: seq<Placed>)
    requires PlacedFrom(placed, [star])
    ensures NamesFrom(star, placed) == Names(placed)
  {
    if placed != [] {
      NamesFromSame(star, placed[..|placed| - 1]);
      assert placed[|placed| - 1].spec in [star];
    }
  }

  /** The loop over aliases, for one record: every alias whose canonical name is this one. */
  method AliasList(name: string, aliases: AliasMap) returns (r: seq<string>)
    ensures r == AliasesTo(name, Sorted(aliases.Keys), aliases)
  {
    var names := SortedList(aliases.Keys);
    r := [];
    for i := 0 to |names|
      invariant r == AliasesTo(name, names[..i], aliases)
    {
      assert names[..i + 1][..i] == names[..i];
      var target := Aliases.Canonical(names[i], aliases);
      if target == Some(name) {
        r := r + [names[i]];
      }
    }
    assert names[..|names|] == names;
  }

  method BuildIndex(root: Root, specs: seq<Spec>) returns (r: Option<DecisionIndex>)
    ensures r == BuildOf(root, specs)
  {
    var sources := CheckedSources(root.rules, specs, root.starExists);
    if sources.None? {
      return None;
    }
    var aliases := AliasesFor(root.aliasEntries, root.identify);
    if aliases.None? {
      return None;
    }
    CheckedIsArranged(specs, sources.value);
    var records, stars;
    ghost var placed;
    records, stars, placed := ReadSources(root.rules.star, root.docs, sources.value, root.identify, aliases.value);
    if records.None? {
      return None;
    }
    RecordsAreDrafted(placed);
    var result := FinishRecords(root.rules.star, records.value, stars, aliases.value, sources.value, placed);
    return Some(DecisionIndex(sources.value, aliases.value, CountsOf(result), result));
  }

  /** The loop over sorted(records.items()). */
  method FinishRecords(star: Spec, records: map<string, Draft>, stars: Option<set<string>>, aliases: AliasMap,
                       ghost sources: seq<Spec>, ghost placed: seq<Placed>)
    returns (result: seq<Record>)
    requires Drafted(placed, records) && stars == Stars(star, sources, placed)
    ensures result == FinalRecords(star, Sorted(Names(placed)), placed, sources, aliases)
  {
    var names := SortedList(records.Keys);
    result := [];
    for i := 0 to |names|
      invariant |result| == i
      invariant forall j | 0 <= j < i :: result[j] == FinalRecord(star, names[j], placed, sources, aliases)
    {
      assert names[i] in records.Keys;
      var record := FinishRecord(star, names[i], records[names[i]], stars, aliases, sources, placed);
      result := result + [record];
    }
    FinalRecordsAre(star, names, placed, sources, aliases, result);
  }

  lemma FinalRecordsAre(star: Spec, names: seq<string>, placed: seq<Placed>, sources: seq<Spec>, aliases: AliasMap,
                        result: seq<Record>)
    requires |result| == |names|
    requires forall j | 0 <= j < |names| :: result[j] == FinalRecord(star, names[j], placed, sources, aliases)
    ensures result == FinalRecords(star, names, placed, sources, aliases)
  {
  }

  method FinishRecord(star: Spec, name: string, record: Draft, stars: Option<set<string>>, aliases: AliasMap,
                      ghost sources: seq<Spec>, ghost placed: seq<Placed>)
    returns (r: Record)
    requires record == DraftOf(placed, name) && stars == Stars(star, sources, placed)
    ensures r == FinalRecord(star, name, placed, sources, aliases)
  {
    var aliasList := AliasList(name, aliases);
    r := Finish(name, record, aliasList, stars);
  }

  lemma CheckedIsArranged(specs: seq<Spec>, sources: seq<Spec>)
    requires |KeySet(specs)| == |specs| && sources == SortBy(specs, KeyOf)
    ensures |KeySet(sources)| == |sources| && KeySet(sources) == KeySet(specs)
  {
    SortByArranges(specs, KeyOf);
    SameElements(specs, sources);
    SameKeySets(specs, sources);
  }

  lemma SameKeySets(specs: seq<Spec>, sources: seq<Spec>)
    requires forall x :: x in specs <==> x in sources
    ensures KeySet(specs) == KeySet(sources)
  {
    forall key
      ensures key in KeySet(sources) <==> key in KeySet(specs)
    {
      KeySetHas(specs, key);
      KeySetHas(sources, key);
      if key in KeySet(sources) {
        var i :| 0 <= i < |sources| && KeyOf(sources[i]) == key;
        assert sources[i] in specs;
      }
      if key in KeySet(specs) {
        var i :| 0 <= i < |specs| && KeyOf(specs[i]) == key;
        assert specs[i] in sources;
      }
    }
  }
}
