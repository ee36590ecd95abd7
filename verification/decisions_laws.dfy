/** The decision index is a faithful union of its sources. */
module DecisionsLaws {
  import opened Wrappers
  import opened Json
  import opened Decimal
  import opened Ordering
  import opened Sorting
  import opened Pointers
  import opened Aliases
  import opened Identities
  import opened Strings
  import opened Decisions

  // ---------------------------------------------------------------- the order of the sources is forgotten

  lemma OlderKeyDiffers(specs: seq<Spec>, i: nat, key: seq<string>)
    requires i < |specs| && key !in KeySet(specs)
    ensures KeyOf(specs[i]) != key
  {
    KeySetHas(specs, key);
  }

  /** A descriptor with a new key keeps the keys distinct. */
  lemma NewKeyKeepsDistinct(init: seq<Spec>, last: Spec)
    requires KeyDetermines(init, KeyOf) && KeyOf(last) !in KeySet(init)
    ensures KeyDetermines(init + [last], KeyOf)
  {
    var specs := init + [last];
    forall i | 0 <= i < |init| ensures KeyOf(init[i]) != KeyOf(last) {
      OlderKeyDiffers(init, i, KeyOf(last));
    }
  }

  /** With as many keys as descriptors, no two descriptors share a key. */
  lemma {:induction false} KeysAreDistinct(specs: seq<Spec>)
    requires |KeySet(specs)| == |specs|
    ensures KeyDetermines(specs, KeyOf)
  {
    if specs != [] {
      var init, last := specs[..|specs| - 1], specs[|specs| - 1];
      KeySetBound(init);
      assert KeySet(specs) == KeySet(init) + {KeyOf(last)};
      assert KeyOf(last) !in KeySet(init);
      KeysAreDistinct(init);
      NewKeyKeepsDistinct(init, last);
      assert specs == init + [last];
    }
  }

  lemma ArrangementIsChecked(rules: Rules, specs: seq<Spec>, others: seq<Spec>, starExists: bool)
    requires multiset(specs) == multiset(others) && SpecsOk(rules, specs, starExists)
    ensures SpecsOk(rules, others, starExists)
  {
    SameElements(specs, others);
    SameLength(specs, others);
    SameKeySets(specs, others);
  }

  lemma CheckedForgetsOrder(rules: Rules, specs: seq<Spec>, others: seq<Spec>, starExists: bool)
    requires multiset(specs) == multiset(others)
    ensures Checked(rules, specs, starExists) == Checked(rules, others, starExists)
  {
    if SpecsOk(rules, specs, starExists) {
      ArrangementIsChecked(rules, specs, others, starExists);
      KeysAreDistinct(specs);
      SortForgetsOrder(specs, others, KeyOf);
    } else if SpecsOk(rules, others, starExists) {
      ArrangementIsChecked(rules, others, specs, starExists);
    }
  }

  /** The index, or its refusal, is the same for every ordering of the registered sources. */
  lemma IndexForgetsSourceOrder(root: Root, specs: seq<Spec>, others: seq<Spec>)
    requires multiset(specs) == multiset(others)
    ensures BuildOf(root, specs) == BuildOf(root, others)
  {
    CheckedForgetsOrder(root.rules, specs, others, root.starExists);
  }

  // ---------------------------------------------------------------- what the placed entries are

  /** p is the number-th entry of its own collection, under the canonical form of the name the entry declares, and its
      pointer leads back to that entry. */
  ghost predicate Faithful(root: Root, aliases: AliasMap, p: Placed) {
    && ItemsOf(root.docs, p.spec).Some? && p.number < |ItemsOf(root.docs, p.spec).value|
    && var item := ItemsOf(root.docs, p.spec).value[p.number];
       && item.Obj?
       && NameOf(p.spec, item.fields, root.identify, aliases) == Some(p.name)
       && p.reference == ReferenceTo(p.spec, p.number, item.fields)
       && p.spec.path in root.docs
       && PointerAt(root.docs[p.spec.path], p.reference.pointer) == Success(item)
  }

  lemma PlacedIsFaithful(root: Root, aliases: AliasMap, spec: Spec, items: seq<Json>, n: nat)
    requires ItemsOf(root.docs, spec) == Some(items) && n < |items|
    requires Place(spec, n, items[n], root.identify, aliases).Some?
    ensures Faithful(root, aliases, Place(spec, n, items[n], root.identify, aliases).value)
  {
    CollectionEntryResolves(root.docs[spec.path], spec.collection, n);
  }

  lemma SourceIsFaithful(root: Root, aliases: AliasMap, spec: Spec)
    requires PlaceSource(root.docs, spec, root.identify, aliases).Some?
    ensures var placed := PlaceSource(root.docs, spec, root.identify, aliases).value;
      && ItemsOf(root.docs, spec).Some? && |placed| == |ItemsOf(root.docs, spec).value|
      && forall n | 0 <= n < |placed| ::
           Faithful(root, aliases, placed[n]) && placed[n].spec == spec && placed[n].number == n
  {
    var items := ItemsOf(root.docs, spec).value;
    PlacedBelong(spec, items, root.identify, aliases);
    var placed := PlaceSource(root.docs, spec, root.identify, aliases).value;
    forall n | 0 <= n < |placed|
      ensures Faithful(root, aliases, placed[n]) && placed[n].spec == spec && placed[n].number == n
    {
      PlacedIsFaithful(root, aliases, spec, items, n);
    }
  }

  /** The number of entries of a source. */
  function EntryCount(root: Root, specs: seq<Spec>): nat {
    if specs == [] then 0
    else EntryCount(root, specs[..|specs| - 1]) + |ItemsOf(root.docs, specs[|specs| - 1]).GetOr([])|
  }

  predicate AllDistinct(placed: seq<Placed>) {
    forall i, j | 0 <= i < j < |placed| :: placed[i].spec != placed[j].spec || placed[i].number != placed[j].number
  }

  ghost predicate AllFaithful(root: Root, aliases: AliasMap, placed: seq<Placed>) {
    forall i | 0 <= i < |placed| :: Faithful(root, aliases, placed[i])
  }

  /** Every entry of every source is placed, once: there are as many placed entries as entries, all faithful, and no two
      are the same entry. */
  lemma {:induction false} AllSourcesArePlaced(root: Root, aliases: AliasMap, specs: seq<Spec>)
    requires |KeySet(specs)| == |specs|
    requires PlaceAll(root.docs, specs, root.identify, aliases).Some?
    ensures var placed := PlaceAll(root.docs, specs, root.identify, aliases).value;
      && |placed| == EntryCount(root, specs) && PlacedFrom(placed, specs)
      && AllFaithful(root, aliases, placed) && AllDistinct(placed)
  {
    if specs != [] {
      var init, last := specs[..|specs| - 1], specs[|specs| - 1];
      KeySetBound(init);
      assert KeySet(specs) == KeySet(init) + {KeyOf(last)};
      AllSourcesArePlaced(root, aliases, init);
      SourcesAreDistinct(specs, |specs| - 1);
      assert specs == init + [last];
      OneMoreSource(root, aliases, init, last, PlaceAll(root.docs, init, root.identify, aliases).value);
    }
  }

  lemma OneMoreSource(root: Root, aliases: AliasMap, init: seq<Spec>, last: Spec, before: seq<Placed>)
    requires last !in init && PlaceSource(root.docs, last, root.identify, aliases).Some?
    requires PlacedFrom(before, init) && AllFaithful(root, aliases, before) && AllDistinct(before)
    ensures var more := PlaceSource(root.docs, last, root.identify, aliases).value;
      && |more| == |ItemsOf(root.docs, last).GetOr([])| && PlacedFrom(before + more, init + [last])
      && AllFaithful(root, aliases, before + more) && AllDistinct(before + more)
  {
    SourceIsFaithful(root, aliases, last);
    var more := PlaceSource(root.docs, last, root.identify, aliases).value;
    DistinctConcat(before, more, init, last);
    FaithfulConcat(root, aliases, before, more);
  }

  lemma FaithfulConcat(root: Root, aliases: AliasMap, before: seq<Placed>, more: seq<Placed>)
    requires AllFaithful(root, aliases, before) && forall n | 0 <= n < |more| :: Faithful(root, aliases, more[n])
    ensures AllFaithful(root, aliases, before + more)
  {
  }

  lemma DistinctConcat(before: seq<Placed>, more: seq<Placed>, specs: seq<Spec>, last: Spec)
    requires AllDistinct(before) && PlacedFrom(before, specs) && last !in specs
    requires forall n | 0 <= n < |more| :: more[n].spec == last && more[n].number == n
    ensures AllDistinct(before + more)
  {
  }

  // ---------------------------------------------------------------- references are unique

  /** collection/number determines both. */
  lemma PointerDetermines(c: string, m: nat, d: string, n: nat)
    requires c + "/" + Print(m) == d + "/" + Print(n)
    ensures c == d && m == n
  {
    PlainDigits(Print(m));
    PlainDigits(Print(n));
    SplitJoin(c, Print(m));
    SplitJoin(d, Print(n));
    SplitPlain(Print(m));
    SplitPlain(Print(n));
    var p, q := Split(c) + [Print(m)], Split(d) + [Print(n)];
    assert p == q;
    assert p[..|p| - 1] == Split(c) && q[..|q| - 1] == Split(d);
    SplitInjective(c, d);
    PrintInjective(m, n);
  }

  /** Two placed entries with the same path and pointer are the same entry. */
  lemma ReferenceDetermines(root: Root, aliases: AliasMap, specs: seq<Spec>, p: Placed, q: Placed)
    requires |KeySet(specs)| == |specs| && p.spec in specs && q.spec in specs
    requires Faithful(root, aliases, p) && Faithful(root, aliases, q)
    requires p.reference.path == q.reference.path && p.reference.pointer == q.reference.pointer
    ensures p.spec == q.spec && p.number == q.number && p == q
  {
    PointerDetermines(p.spec.collection, p.number, q.spec.collection, q.number);
    KeysAreDistinct(specs);
    var i :| 0 <= i < |specs| && specs[i] == p.spec;
    var j :| 0 <= j < |specs| && specs[j] == q.spec;
    assert KeyOf(specs[i]) == KeyOf(specs[j]);
  }

  // ---------------------------------------------------------------- records partition the entries

  function RefsOf(placed: seq<Placed>, name: string): seq<Reference> {
    DraftOf(placed, name).references
  }

  lemma {:induction false} RefsHave(placed: seq<Placed>, name: string, r: Reference)
    ensures r in RefsOf(placed, name)
       <==> exists i | 0 <= i < |placed| :: placed[i].name == name && placed[i].reference == r
  {
    if placed != [] {
      var init := placed[..|placed| - 1];
      RefsHave(init, name, r);
      assert forall i | 0 <= i < |init| :: init[i] == placed[i];
    }
  }

  predicate RefsDiffer(placed: seq<Placed>) {
    forall i, j | 0 <= i < j < |placed| :: placed[i].reference != placed[j].reference
  }

  lemma {:induction false} RefCountedOnce(placed: seq<Placed>, name: string, i: nat)
    requires i < |placed| && RefsDiffer(placed)
    ensures multiset(RefsOf(placed, name))[placed[i].reference] == if placed[i].name == name then 1 else 0
  {
    var init, last := placed[..|placed| - 1], placed[|placed| - 1];
    assert forall j | 0 <= j < |init| :: init[j] == placed[j];
    RefsHave(init, name, last.reference);
    if i < |init| {
      RefCountedOnce(init, name, i);
    } else {
      assert last.reference !in multiset(RefsOf(init, name));
    }
  }

  /** The references held by the records of a list of names. */
  function Held(placed: seq<Placed>, names: seq<string>): nat {
    if names == [] then 0 else Held(placed, names[..|names| - 1]) + |RefsOf(placed, names[|names| - 1])|
  }

  lemma {:induction false} HeldSnoc(placed: seq<Placed>, p: Placed, names: seq<string>)
    requires Ascending(names)
    ensures Held(placed + [p], names) == Held(placed, names) + if p.name in names then 1 else 0
  {
    assert (placed + [p])[..|placed|] == placed;
    if names != [] {
      HeldSnoc(placed, p, names[..|names| - 1]);
      assert names == names[..|names| - 1] + [names[|names| - 1]];
      if p.name == names[|names| - 1] {
        assert forall i | 0 <= i < |names| - 1 :: names[i] != names[|names| - 1];
      }
    }
  }

  lemma {:induction false} HeldAll(placed: seq<Placed>, names: seq<string>)
    requires Ascending(names) && forall i | 0 <= i < |placed| :: placed[i].name in names
    ensures Held(placed, names) == |placed|
  {
    if placed == [] {
      HeldNone(names);
    } else {
      var init, last := placed[..|placed| - 1], placed[|placed| - 1];
      assert placed == init + [last];
      assert forall i | 0 <= i < |init| :: init[i] == placed[i];
      HeldAll(init, names);
      HeldSnoc(init, last, names);
    }
  }

  lemma {:induction false} HeldNone(names: seq<string>)
    ensures Held([], names) == 0
  {
    if names != [] {
      HeldNone(names[..|names| - 1]);
    }
  }

  lemma {:induction false} NamesHave(placed: seq<Placed>, i: nat)
    requires i < |placed|
    ensures placed[i].name in Names(placed)
  {
    if i < |placed| - 1 {
      NamesHave(placed[..|placed| - 1], i);
    }
  }

  lemma {:induction false} CountIsHeld(
      star: Spec, names: seq<string>, placed: seq<Placed>, specs: seq<Spec>, aliases: AliasMap)
    ensures ReferenceCount(FinalRecords(star, names, placed, specs, aliases)) == Held(placed, names)
  {
    if names != [] {
      var init, last := names[..|names| - 1], names[|names| - 1];
      CountIsHeld(star, init, placed, specs, aliases);
      RecordHolds(star, last, placed, specs, aliases);
      var records := FinalRecords(star, names, placed, specs, aliases);
      assert records[..|records| - 1] == FinalRecords(star, init, placed, specs, aliases);
    }
  }

  lemma RecordHolds(star: Spec, name: string, placed: seq<Placed>, specs: seq<Spec>, aliases: AliasMap)
    ensures var r := FinalRecord(star, name, placed, specs, aliases);
      && r.repository == Repository(name)
      && multiset(r.references) == multiset(RefsOf(placed, name)) && |r.references| == |RefsOf(placed, name)|
  {
    SortByArranges(RefsOf(placed, name), RefKey);
  }

  // ---------------------------------------------------------------- the faithful union

  /** What build_index read for an index it returned. */
  ghost predicate BuiltFrom(root: Root, index: DecisionIndex, placed: seq<Placed>) {
    && |KeySet(index.sources)| == |index.sources|
    && AliasesOf(root.aliasEntries, root.identify) == Some(index.aliases)
    && PlaceAll(root.docs, index.sources, root.identify, index.aliases) == Some(placed)
    && index == IndexOf(root.rules.star, index.sources, index.aliases, placed)
  }

  lemma BuiltIndexRead(root: Root, specs: seq<Spec>) returns (placed: seq<Placed>)
    requires BuildOf(root, specs).Some?
    ensures BuiltFrom(root, BuildOf(root, specs).value, placed)
    ensures BuildOf(root, specs).value.sources == SortBy(specs, KeyOf)
  {
    var sources := Checked(root.rules, specs, root.starExists).value;
    CheckedIsArranged(specs, sources);
    var aliases := AliasesOf(root.aliasEntries, root.identify).value;
    placed := PlaceAll(root.docs, sources, root.identify, aliases).value;
  }

  lemma BuiltRefsDiffer(root: Root, index: DecisionIndex, placed: seq<Placed>)
    requires BuiltFrom(root, index, placed)
    ensures AllFaithful(root, index.aliases, placed) && RefsDiffer(placed)
    ensures |placed| == EntryCount(root, index.sources)
  {
    AllSourcesArePlaced(root, index.aliases, index.sources);
    forall i, j | 0 <= i < j < |placed|
      ensures placed[i].reference != placed[j].reference
    {
      if placed[i].reference == placed[j].reference {
        ReferenceDetermines(root, index.aliases, index.sources, placed[i], placed[j]);
      }
    }
  }

  /** Every entry of every registered source appears exactly once in the record of its canonical name and in no other
      record; its pointer resolves to the entry; and the reference count is the sum of the collection lengths. */
  lemma EveryEntryExactlyOnce(root: Root, index: DecisionIndex, placed: seq<Placed>)
    requires BuiltFrom(root, index, placed)
    ensures index.counts.references == |placed| == EntryCount(root, index.sources)
    ensures AllFaithful(root, index.aliases, placed) && RefsDiffer(placed)
    ensures forall i | 0 <= i < |placed| :: placed[i].name in Sorted(Names(placed))
    ensures |index.records| == |Sorted(Names(placed))|
    ensures forall i, j | 0 <= i < |placed| && 0 <= j < |index.records| ::
      multiset(index.records[j].references)[placed[i].reference]
      == if placed[i].name == Sorted(Names(placed))[j] then 1 else 0
  {
    var names := Sorted(Names(placed));
    var star := root.rules.star;
    BuiltRefsDiffer(root, index, placed);
    forall i | 0 <= i < |placed| ensures placed[i].name in names {
      NamesHave(placed, i);
    }
    HeldAll(placed, names);
    CountIsHeld(star, names, placed, index.sources, index.aliases);
    forall i, j | 0 <= i < |placed| && 0 <= j < |index.records|
      ensures multiset(index.records[j].references)[placed[i].reference] == if placed[i].name == names[j] then 1 else 0
    {
      RecordHolds(star, names[j], placed, index.sources, index.aliases);
      RefCountedOnce(placed, names[j], i);
    }
  }

  /** No record is filed under an alias: every record's name is its own canonical name. */
  lemma RecordNamesAreCanonical(root: Root, index: DecisionIndex, placed: seq<Placed>, i: nat)
    requires BuiltFrom(root, index, placed) && i < |placed|
    ensures placed[i].name !in index.aliases
    ensures CanonicalOf(placed[i].name, index.aliases) == Some(placed[i].name)
  {
    BuiltRefsDiffer(root, index, placed);
    var p := placed[i];
    assert Faithful(root, index.aliases, p);
    var item := ItemsOf(root.docs, p.spec).value[p.number];
    var declared := root.identify(Get(item.fields, p.spec.field)).value;
    CanonicalIsFixpoint(declared, index.aliases);
  }

  // ---------------------------------------------------------------- validate_index

  datatype Manifest = Manifest(indexFile: string, repositories: int, beyond: int)

  const INDEX_FILE: string := "catalogs/us-equities/decision-index.json"

  ghost predicate RecordNamesOk(records: seq<Record>, identify: Identify) {
    && (forall i | 0 <= i < |records| :: identify(Str(records[i].repository)).Some?)
    && (forall i, j | 0 <= i < j < |records| ::
          identify(Str(records[i].repository)) != identify(Str(records[j].repository)))
  }

  /** validate_index on an index and a manifest that were read from disk. */
  ghost predicate Validates(root: Root, manifest: Manifest, data: DecisionIndex) {
    && manifest.indexFile == INDEX_FILE
    && BuildOf(root, data.sources).Some?
    && var expected := BuildOf(root, data.sources).value;
       && data.aliases == expected.aliases && RecordNamesOk(data.records, root.identify)
       && data.counts == expected.counts && data == expected
       && manifest.repositories == expected.counts.repositories && manifest.beyond == expected.counts.beyond
  }

  /** The root's names are read by identity. */
  ghost predicate Identifies(root: Root, py: Python) {
    Standard(py) && forall v :: root.identify(v) == Identity(py, v)
  }

  ghost predicate TargetsAreNames(aliases: AliasMap) {
    forall a | a in aliases :: IsName(aliases[a])
  }

  lemma {:induction false} GatheredTargets(entries: seq<(string, Json)>, identify: Identify, py: Python)
    requires Standard(py) && (forall v :: identify(v) == Identity(py, v)) && Gather(entries, identify).Some?
    ensures TargetsAreNames(Gather(entries, identify).value)
  {
    if entries != [] {
      var (key, value) := entries[|entries| - 1];
      GatheredTargets(entries[..|entries| - 1], identify, py);
      IdentityIsName(py, value);
    }
  }

  lemma {:induction false} HopsAreNames(name: string, aliases: AliasMap, n: nat)
    requires IsName(name) && TargetsAreNames(aliases)
    ensures IsName(Hop(name, aliases, n))
  {
    if n > 0 {
      HopsAreNames(name, aliases, n - 1);
    }
  }

  lemma PlacedNameIsName(root: Root, py: Python, index: DecisionIndex, placed: seq<Placed>, i: nat)
    requires BuiltFrom(root, index, placed) && i < |placed| && Identifies(root, py)
    ensures IsName(placed[i].name)
  {
    BuiltRefsDiffer(root, index, placed);
    var p := placed[i];
    assert Faithful(root, index.aliases, p);
    var item := ItemsOf(root.docs, p.spec).value[p.number];
    var declared := root.identify(Get(item.fields, p.spec.field)).value;
    IdentityIsName(py, Get(item.fields, p.spec.field));
    GatheredTargets(root.aliasEntries, root.identify, py);
    var n: nat :| Hop(declared, index.aliases, n) == p.name;
    HopsAreNames(declared, index.aliases, n);
  }

  lemma {:induction false} NamesComeFromPlaced(placed: seq<Placed>, name: string)
    requires name in Names(placed)
    ensures exists i | 0 <= i < |placed| :: placed[i].name == name
  {
    if placed[|placed| - 1].name != name {
      NamesComeFromPlaced(placed[..|placed| - 1], name);
      var i :| 0 <= i < |placed| - 1 && placed[..|placed| - 1][i].name == name;
      assert placed[i].name == name;
    }
  }

  /** Rebuilding from a written index's own sources gives the same index back. */
  lemma RebuildingIsStable(root: Root, specs: seq<Spec>)
    requires BuildOf(root, specs).Some?
    ensures BuildOf(root, BuildOf(root, specs).value.sources) == BuildOf(root, specs)
  {
    var placed := BuiltIndexRead(root, specs);
    var sources := BuildOf(root, specs).value.sources;
    SortByArranges(specs, KeyOf);
    IndexForgetsSourceOrder(root, specs, sources);
  }

  /** The name whose URL a record carries. */
  function NameIn(r: Record): string {
    if |r.repository| >= |GITHUB| then r.repository[|GITHUB|..] else ""
  }

  lemma RecordIsIdentified(root: Root, py: Python, index: DecisionIndex, placed: seq<Placed>, j: nat)
    requires BuiltFrom(root, index, placed) && Identifies(root, py) && j < |Sorted(Names(placed))|
    ensures |index.records| == |Sorted(Names(placed))|
    ensures NameIn(index.records[j]) == Sorted(Names(placed))[j] && IsName(NameIn(index.records[j]))
    ensures root.identify(Str(index.records[j].repository)) == Survivor(NameIn(index.records[j]))
  {
    var name := Sorted(Names(placed))[j];
    NamesComeFromPlaced(placed, name);
    var i :| 0 <= i < |placed| && placed[i].name == name;
    PlacedNameIsName(root, py, index, placed, i);
    RecordHolds(root.rules.star, name, placed, index.sources, index.aliases);
    UrlOfNameIdentifies(py, name);
  }

  /** Every record's name is still a name with one ".git" removed, and no two become the same. */
  predicate NamesSurvive(records: seq<Record>) {
    && (forall i | 0 <= i < |records| :: ValidName(RemoveGit(NameIn(records[i]))))
    && (forall i, j | 0 <= i < j < |records| :: RemoveGit(NameIn(records[i])) != RemoveGit(NameIn(records[j])))
  }

  ghost predicate UrlsSurvive(records: seq<Record>, identify: Identify) {
    forall i | 0 <= i < |records| :: identify(Str(records[i].repository)) == Survivor(NameIn(records[i]))
  }

  lemma SurvivingNamesAreOk(records: seq<Record>, identify: Identify)
    requires UrlsSurvive(records, identify)
    ensures RecordNamesOk(records, identify) <==> NamesSurvive(records)
  {
    if NamesSurvive(records) {
      forall i, j | 0 <= i < j < |records|
        ensures identify(Str(records[i].repository)) != identify(Str(records[j].repository))
      {
        assert ValidName(RemoveGit(NameIn(records[i]))) && ValidName(RemoveGit(NameIn(records[j])));
      }
    }
    if RecordNamesOk(records, identify) {
      forall i, j | 0 <= i < j < |records|
        ensures RemoveGit(NameIn(records[i])) != RemoveGit(NameIn(records[j]))
      {
        assert identify(Str(records[i].repository)) != identify(Str(records[j].repository));
      }
    }
  }

  lemma RecordNamesOkExactlyWhen(root: Root, py: Python, index: DecisionIndex, placed: seq<Placed>)
    requires BuiltFrom(root, index, placed) && Identifies(root, py)
    ensures RecordNamesOk(index.records, root.identify) <==> NamesSurvive(index.records)
  {
    forall j | 0 <= j < |index.records|
      ensures root.identify(Str(index.records[j].repository)) == Survivor(NameIn(index.records[j]))
    {
      RecordIsIdentified(root, py, index, placed, j);
    }
    SurvivingNamesAreOk(index.records, root.identify);
  }

  /** The index just written, with the manifest counts that go with it, passes validation. */
  ghost predicate WrittenValidates(root: Root, specs: seq<Spec>)
    requires BuildOf(root, specs).Some?
  {
    var index := BuildOf(root, specs).value;
    Validates(root, Manifest(INDEX_FILE, index.counts.repositories, index.counts.beyond), index)
  }

  /** Exactly when an index just written, with the manifest counts that go with it, passes validation: when the record
      names survive the removal of one more ".git" that validation subjects them to. */
  lemma WrittenIndexValidatesExactlyWhen(root: Root, py: Python, specs: seq<Spec>)
    requires BuildOf(root, specs).Some? && Identifies(root, py)
    ensures WrittenValidates(root, specs) <==> NamesSurvive(BuildOf(root, specs).value.records)
  {
    var placed := BuiltIndexRead(root, specs);
    RebuildingIsStable(root, specs);
    RecordNamesOkExactlyWhen(root, py, BuildOf(root, specs).value, placed);
  }

  /** An index is refused as soon as one entry of its sources has a name whose URL identifies nothing. */
  lemma LostNameIsRefused(root: Root, py: Python, specs: seq<Spec>, placed: seq<Placed>, i: nat)
    requires BuildOf(root, specs).Some? && Identifies(root, py)
    requires BuiltFrom(root, BuildOf(root, specs).value, placed)
    requires i < |placed| && Survivor(placed[i].name) == None
    ensures !WrittenValidates(root, specs)
  {
    var names := Sorted(Names(placed));
    NamesHave(placed, i);
    var j :| 0 <= j < |names| && names[j] == placed[i].name;
    RecordIsIdentified(root, py, BuildOf(root, specs).value, placed, j);
    WrittenIndexValidatesExactlyWhen(root, py, specs);
  }

  /** And nothing else does: an index that validates is exactly what its own sources build now, in any order. */
  lemma OnlyCurrentIndexesValidate(root: Root, manifest: Manifest, data: DecisionIndex, others: seq<Spec>)
    requires Validates(root, manifest, data) && multiset(others) == multiset(data.sources)
    ensures BuildOf(root, others) == Some(data)
    ensures manifest == Manifest(INDEX_FILE, |data.records|, |data.records| - StarCount(data.records))
  {
    IndexForgetsSourceOrder(root, data.sources, others);
    var placed := BuiltIndexRead(root, data.sources);
  }
}
