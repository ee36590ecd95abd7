/** An index that build_index writes from the program's own sources and validate_index refuses. */
module RefusedIndex {
  import opened Wrappers
  import opened Json
  import opened Ordering
  import opened Sorting
  import opened Pointers
  import opened Identities
  import opened Aliases
  import opened Decisions
  import opened DecisionsLaws

  // ---------------------------------------------------------------- documents whose collections are empty but one

  /** A pointer to a member of the document, whose name needs no escape. */
  predicate TopCollection(c: string) {
    |c| > 1 && c[0] == '/' && forall i | 1 <= i < |c| :: c[i] != '~' && c[i] != '/'
  }

  function MemberName(c: string): string {
    if c == "" then "" else c[1..]
  }

  /** A document with every collection of the sources, each of them empty. */
  function EmptyCollections(specs: seq<Spec>): (d: Fields)
    ensures forall spec | spec in specs :: MemberName(spec.collection) in d && d[MemberName(spec.collection)] == Arr([])
  {
    if specs == [] then map[]
    else
      var init, last := specs[..|specs| - 1], specs[|specs| - 1];
      assert specs == init + [last];
      EmptyCollections(init)[MemberName(last.collection) := Arr([])]
  }

  /** The target's document holds one entry in its collection, the others are empty. */
  function PaperAt(path: string, empty: Fields, target: Spec, entry: Json): Fields {
    if path == target.path then empty[MemberName(target.collection) := Arr([entry])] else empty
  }

  function Papers(specs: seq<Spec>, empty: Fields, target: Spec, entry: Json): (docs: Documents)
    ensures forall spec | spec in specs :: spec.path in docs
    ensures forall path | path in docs :: docs[path] == Obj(PaperAt(path, empty, target, entry))
  {
    if specs == [] then map[]
    else
      var init, last := specs[..|specs| - 1], specs[|specs| - 1];
      assert specs == init + [last];
      Papers(init, empty, target, entry)[last.path := Obj(PaperAt(last.path, empty, target, entry))]
  }

  lemma {:induction false} ReplaceAbsent(s: string, c: char, with: string)
    requires forall i | 0 <= i < |s| :: s[i] != c
    ensures ReplaceChar(s, c, with) == s
  {
    if s != "" {
      ReplaceAbsent(s[1..], c, with);
    }
  }

  lemma TopCollectionResolves(document: Fields, c: string)
    requires TopCollection(c) && MemberName(c) in document
    ensures PointerAt(Obj(document), c) == Success(document[MemberName(c)])
  {
    var name := MemberName(c);
    var path := [Key(name)];
    ReplaceAbsent(name, '~', "~0");
    ReplaceAbsent(name, '/', "~1");
    assert path[1..] == [];
    assert Emit(path) == "/" + name + "" == c;
    assert Follow(Obj(document), path) == Some(document[name]);
    EmittedPointerResolves(Obj(document), path);
  }

  // ---------------------------------------------------------------- the sources are all placed

  lemma PlacedItem(spec: Spec, fields: Fields, identify: Identify, name: string)
    requires identify(Get(fields, spec.field)) == Some(name)
    ensures Place(spec, 0, Obj(fields), identify, map[])
         == Some(Placed(name, spec, 0, ReferenceTo(spec, 0, fields)))
  {
    CanonicalIsUnique(name, map[], 0);
  }

  lemma OneItemIsPlaced(docs: Documents, spec: Spec, fields: Fields, identify: Identify, name: string)
    returns (p: Placed)
    requires ItemsOf(docs, spec) == Some([Obj(fields)]) && identify(Get(fields, spec.field)) == Some(name)
    ensures PlaceSource(docs, spec, identify, map[]) == Some([p]) && p.name == name
  {
    p := Placed(name, spec, 0, ReferenceTo(spec, 0, fields));
    PlacedItem(spec, fields, identify, name);
    var items := [Obj(fields)];
    var none: seq<Json> := [];
    assert items[..0] == none;
    assert PlaceItems(spec, none, identify, map[]) == Some([]);
    assert PlaceItems(spec, items, identify, map[]) == Some([] + [p]);
    assert [] + [p] == [p];
  }

  /** Every source has been read, and the one with the entry has placed it. */
  predicate Reads(docs: Documents, spec: Spec, target: Spec, fields: Fields) {
    ItemsOf(docs, spec) == Some(if spec == target then [Obj(fields)] else [])
  }

  lemma {:induction false} AllAreRead(docs: Documents, specs: seq<Spec>, target: Spec, fields: Fields,
                                      identify: Identify, name: string)
    requires forall spec | spec in specs :: Reads(docs, spec, target, fields)
    requires identify(Get(fields, target.field)) == Some(name)
    ensures PlaceAll(docs, specs, identify, map[]).Some?
    ensures target in specs ==> exists i | 0 <= i < |PlaceAll(docs, specs, identify, map[]).value| ::
      PlaceAll(docs, specs, identify, map[]).value[i].name == name
  {
    if specs != [] {
      var init, last := specs[..|specs| - 1], specs[|specs| - 1];
      assert specs == init + [last];
      AllAreRead(docs, init, target, fields, identify, name);
      var before := PlaceAll(docs, init, identify, map[]).value;
      assert Reads(docs, last, target, fields);
      if last == target {
        var p := OneItemIsPlaced(docs, last, fields, identify, name);
        assert PlaceAll(docs, specs, identify, map[]) == Some(before + [p]);
        assert (before + [p])[|before|].name == name;
      } else {
        assert PlaceAll(docs, specs, identify, map[]) == Some(before + []);
        assert before + [] == before;
      }
    }
  }

  // ---------------------------------------------------------------- a build from the base sources

  /** A root with the documents of the base sources, empty but for one entry of the target. */
  function OneEntry(py: Python, rules: Rules, target: Spec, repository: string): Root {
    var entry := Obj(map[target.field := Str(repository)]);
    Root(Papers(rules.base, EmptyCollections(rules.base), target, entry), [], false, v => Identity(py, v), rules)
  }

  lemma BaseIsRead(py: Python, rules: Rules, target: Spec, repository: string, spec: Spec)
    requires target in rules.base && spec in rules.base && TopCollection(spec.collection)
    requires spec.path == target.path ==> spec == target
    ensures Reads(OneEntry(py, rules, target, repository).docs, spec, target, map[target.field := Str(repository)])
  {
    var empty := EmptyCollections(rules.base);
    var document := PaperAt(spec.path, empty, target, Obj(map[target.field := Str(repository)]));
    TopCollectionResolves(document, spec.collection);
  }

  lemma NoAliases(identify: Identify)
    ensures AliasesOf([], identify) == Some(map[])
  {
  }

  /** When the base sources are accepted and the target records a repository whose name has a lost URL, the index is
      built and does not validate. */
  lemma LostEntryIsRefused(py: Python, rules: Rules, target: Spec, repository: string, name: string)
    requires Standard(py) && Identity(py, Str(repository)) == Some(name) && Survivor(name) == None
    requires Checked(rules, rules.base, false).Some? && target in rules.base
    requires forall spec | spec in rules.base :: TopCollection(spec.collection)
    requires forall spec | spec in rules.base && spec.path == target.path :: spec == target
    ensures BuildOf(OneEntry(py, rules, target, repository), rules.base).Some?
    ensures !WrittenValidates(OneEntry(py, rules, target, repository), rules.base)
  {
    var root := OneEntry(py, rules, target, repository);
    var specs := Checked(rules, rules.base, false).value;
    SortByArranges(rules.base, KeyOf);
    SameElements(rules.base, specs);
    forall spec | spec in specs
      ensures Reads(root.docs, spec, target, map[target.field := Str(repository)])
    {
      BaseIsRead(py, rules, target, repository, spec);
    }
    AllAreRead(root.docs, specs, target, map[target.field := Str(repository)], root.identify, name);
    NoAliases(root.identify);
    var placed := BuiltIndexRead(root, rules.base);
    var i :| 0 <= i < |placed| && placed[i].name == name;
    LostNameIsRefused(root, py, rules.base, placed, i);
  }

  // ---------------------------------------------------------------- the program's own sources

  lemma {:induction false} KeysByIndex(specs: seq<Spec>)
    requires forall i, j | 0 <= i < j < |specs| :: KeyOf(specs[i]) != KeyOf(specs[j])
    ensures |KeySet(specs)| == |specs|
  {
    if specs != [] {
      var init, last := specs[..|specs| - 1], specs[|specs| - 1];
      KeysByIndex(init);
      KeySetHas(init, KeyOf(last));
      assert forall i | 0 <= i < |init| :: init[i] == specs[i];
    }
  }

  /** The nine paths differ: in length, but for two that differ in a letter. */
  lemma BasePathsDiffer()
    ensures |BASE_SOURCES| == 9
    ensures forall i, j | 0 <= i < j < 9 :: BASE_SOURCES[i].path != BASE_SOURCES[j].path
  {
    var b := BASE_SOURCES;
    assert |b[0].path| == 34 && |b[1].path| == 36 && |b[2].path| == 43 && |b[3].path| == 43 && |b[4].path| == 39;
    assert |b[5].path| == 44 && |b[6].path| == 20 && |b[7].path| == 25 && |b[8].path| == 22;
    assert b[2].path[21] == 'f' && b[3].path[21] == 'a';
  }

  lemma BaseCollections(i: nat)
    requires i < 9
    ensures TopCollection(BASE_SOURCES[i].collection) && BASE_SOURCES[i].collection[1] != 'r'
  {
    assert BASE_SOURCES[i].collection in ["/stars", "/entries", "/components", "/candidates"];
  }

  lemma BaseFields(i: nat)
    requires i < 9
    ensures BASE_SOURCES[i].field == "repository" || i == 7
  {
  }

  /** A base descriptor with the standard field, or the legacy one, and another key than the star snapshot's is
      accepted. */
  lemma BaseSpecIsOk(rules: Rules, spec: Spec)
    requires spec in rules.base && KeyOf(spec) != KeyOf(rules.star)
    requires spec.field == "repository" || spec == rules.legacy
    ensures SpecOk(rules, spec)
  {
    KeySetHas(rules.base, KeyOf(spec));
  }

  lemma StarKeyDiffers(spec: Spec)
    requires |spec.collection| > 1 && spec.collection[1] != 'r'
    ensures KeyOf(spec) != KeyOf(CURRENT_STAR_SOURCE)
  {
    assert KeyOf(spec)[1] == spec.collection && KeyOf(CURRENT_STAR_SOURCE)[1] == CURRENT_STAR_SOURCE.collection;
    assert CURRENT_STAR_SOURCE.collection[1] == 'r';
  }

  lemma CheckedBase(rules: Rules)
    requires forall i, j | 0 <= i < j < |rules.base| :: KeyOf(rules.base[i]) != KeyOf(rules.base[j])
    requires forall spec | spec in rules.base :: SpecOk(rules, spec)
    ensures Checked(rules, rules.base, false).Some?
  {
    KeysByIndex(rules.base);
  }

  lemma BaseKeysDiffer()
    ensures forall i, j | 0 <= i < j < |BASE_SOURCES| :: KeyOf(BASE_SOURCES[i]) != KeyOf(BASE_SOURCES[j])
  {
    BasePathsDiffer();
    forall i, j | 0 <= i < j < |BASE_SOURCES|
      ensures KeyOf(BASE_SOURCES[i]) != KeyOf(BASE_SOURCES[j])
    {
      assert KeyOf(BASE_SOURCES[i])[0] == BASE_SOURCES[i].path && KeyOf(BASE_SOURCES[j])[0] == BASE_SOURCES[j].path;
    }
  }

  lemma BaseSpec(spec: Spec)
    requires spec in BASE_SOURCES
    ensures SpecOk(RULES, spec) && TopCollection(spec.collection)
  {
    var i :| 0 <= i < |BASE_SOURCES| && BASE_SOURCES[i] == spec;
    BaseCollections(i);
    BaseFields(i);
    StarKeyDiffers(spec);
    BaseSpecIsOk(RULES, spec);
  }

  /** checked_sources accepts the base sources when no current public-star snapshot exists. */
  lemma BaseIsChecked()
    ensures Checked(RULES, BASE_SOURCES, false).Some?
    ensures forall spec | spec in BASE_SOURCES :: TopCollection(spec.collection)
  {
    BaseKeysDiffer();
    forall spec | spec in BASE_SOURCES
      ensures SpecOk(RULES, spec) && TopCollection(spec.collection)
    {
      BaseSpec(spec);
    }
    CheckedBase(RULES);
  }

  /** From its own nine sources, with every collection empty but for one entry that records "<owner>/.git.git", the
      program writes an index that it then refuses. */
  lemma WrittenIndexIsRefused(py: Python, owner: string)
    requires Standard(py) && IsOwner(owner) && NoCapitals(owner)
    ensures var root := OneEntry(py, RULES, BASE_SOURCES[8], owner + "/" + ".git" + ".git");
      BuildOf(root, BASE_SOURCES).Some? && !WrittenValidates(root, BASE_SOURCES)
  {
    BareGitIsLost(py, owner);
    BaseIsChecked();
    BasePathsDiffer();
    LostEntryIsRefused(py, RULES, BASE_SOURCES[8], owner + "/" + ".git" + ".git", owner + "/" + ".git");
  }
}
