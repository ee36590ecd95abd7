/** The whole count: the walk, the names that vendor files declare, and the cases in which nothing can be said. */
module DriftCount {
  import opened Wrappers
  import opened Drift
  import opened DriftLaws

  // ---------------------------------------------------------------- declared names

  /** What the client's parser makes of a definition; Nameless covers an empty name. */
  datatype Served = Named(name: string) | Nameless | Throws

  /** available: a parser of the pinned version answers. */
  datatype Parser = Parser(available: bool, frontMatter: string -> bool, parse: string -> Served)

  function Serve(p: Parser, data: string): Served {
    if p.frontMatter(data) then p.parse(data) else Nameless
  }

  function ServeAll(p: Parser, blobs: seq<string>): seq<Served> {
    seq(|blobs|, i requires 0 <= i < |blobs| => Serve(p, blobs[i]))
  }

  /** agent_names: None is Unknown. */
  function AgentNames(p: Parser, blobs: seq<string>): Option<seq<Served>> {
    if p.available || forall i | 0 <= i < |blobs| :: !p.frontMatter(blobs[i]) then Some(ServeAll(p, blobs)) else None
  }

  function Declaring(p: Parser, vendors: seq<string>): seq<string> {
    if vendors == [] then []
    else
      var last := vendors[|vendors| - 1];
      Declaring(p, vendors[..|vendors| - 1]) + if p.frontMatter(last) then [last] else []
  }

  function DeclaredNames(names: seq<Served>): set<string> {
    if names == [] then {}
    else
      var last := names[|names| - 1];
      DeclaredNames(names[..|names| - 1]) + if last.Named? then {last.name} else {}
  }

  function CountIn(names: seq<Served>, declared: set<string>): nat {
    if names == [] then 0
    else
      var last := names[|names| - 1];
      CountIn(names[..|names| - 1], declared) + if last.Named? && last.name in declared then 1 else 0
  }

  /** The names of the shipped definitions, as the client serves them. */
  function ShippedNames(p: Parser, shipped: seq<string>): set<string> {
    DeclaredNames(ServeAll(p, shipped))
  }

  /** A vendor's own file at the top that takes the name of a shipped definition. */
  predicate Clashes(rules: Rules, p: Parser, shipped: seq<string>, e: Entry) {
    && Vendor(rules, e.name, 0) && !Shipped(rules, e.name, 0) && e.node.File? && e.node.data.Some?
    && Serve(p, e.node.data.value).Named? && Serve(p, e.node.data.value).name in ShippedNames(p, shipped)
  }

  function Clashing(rules: Rules, p: Parser, shipped: seq<string>, entries: Entries): set<string> {
    if entries == [] then {}
    else
      Clashing(rules, p, shipped, entries[..|entries| - 1])
      + if Clashes(rules, p, shipped, entries[|entries| - 1]) then {entries[|entries| - 1].name} else {}
  }

  // ---------------------------------------------------------------- agent_drift_below

  /** The source folder: names and bytes, in sorted order. */
  type Source = seq<(string, string)>

  function ExpectedOf(source: Source): map<string, string> {
    if source == [] then map[]
    else ExpectedOf(source[..|source| - 1])[source[|source| - 1].0 := source[|source| - 1].1]
  }

  function Blobs(source: Source): seq<string> {
    seq(|source|, i requires 0 <= i < |source| => source[i].1)
  }

  /** The names that vendor files declare cannot be told. */
  predicate NamesUnknown(p: Parser, shipped: seq<string>, vendors: seq<string>) {
    && Declaring(p, vendors) != []
    && (!p.available || exists i | 0 <= i < |shipped + Declaring(p, vendors)| ::
          Serve(p, (shipped + Declaring(p, vendors))[i]) == Throws)
  }

  /** Something stops the walk, there is too much to walk, or a name cannot be told. */
  ghost predicate CannotTell(rules: Rules, p: Parser, shipped: seq<string>, agents: Node) {
    || !agents.Folder? || !AllWalkable(rules, agents.entries, 0) || SizeOf(agents.entries) > rules.maxEntries
    || NamesUnknown(p, shipped, VendorData(rules, agents.entries))
  }

  /** The vendor files that take a shipped name, settled in one call to the parser. */
  function VendorDrift(p: Parser, shipped: seq<string>, vendors: seq<string>): Option<nat> {
    var declaring := Declaring(p, vendors);
    if declaring == [] then Some(0)
    else
      var names := AgentNames(p, shipped + declaring);
      if names.None? || (exists i | 0 <= i < |names.value| :: names.value[i] == Throws) then None
      else Some(CountIn(names.value[|shipped|..], DeclaredNames(names.value[..|shipped|])))
  }

  lemma VendorDriftIs(p: Parser, shipped: seq<string>, vendors: seq<string>)
    ensures VendorDrift(p, shipped, vendors).None? <==> NamesUnknown(p, shipped, vendors)
    ensures !NamesUnknown(p, shipped, vendors) ==>
      VendorDrift(p, shipped, vendors) == Some(CountIn(ServeAll(p, Declaring(p, vendors)), ShippedNames(p, shipped)))
  {
    var declaring := Declaring(p, vendors);
    if declaring != [] {
      DeclaringDeclares(p, vendors);
      assert (shipped + declaring)[|shipped|] == declaring[0];
      var names := ServeAll(p, shipped + declaring);
      assert forall i | 0 <= i < |names| :: names[i] == Serve(p, (shipped + declaring)[i]);
      assert names[..|shipped|] == ServeAll(p, shipped) && names[|shipped|..] == ServeAll(p, declaring);
    }
  }

  method AgentDriftBelow(agents: Node, rules: Rules, p: Parser, shipped: seq<string>) returns (r: Option<nat>)
    requires (agents.Folder? ==> Distinct(agents.entries)) && (agents.Folder? || agents.Unlistable?)
    ensures r.None? <==> CannotTell(rules, p, shipped, agents)
    ensures r.Some? ==> r.value == |Differing(rules, agents.entries)| + LoadedCount(rules, agents.entries, 0)
                                   + |Clashing(rules, p, shipped, agents.entries)|
  {
    var walk := new Walk(rules);
    var known := walk.Visit(agents, 0);
    if !known {
      return None;
    }
    TallyAtTop(rules, agents.entries);
    DifferingCounts(rules, agents.entries);
    ClashingCounts(rules, p, shipped, agents.entries);
    VendorDriftIs(p, shipped, walk.vendors);
    var more := VendorDrift(p, shipped, walk.vendors);
    r := if more.None? then None else Some(walk.drift + more.value + |rules.expected| - |walk.present|);
  }

  lemma {:induction false} DeclaringDeclares(p: Parser, vendors: seq<string>)
    ensures forall i | 0 <= i < |Declaring(p, vendors)| :: p.frontMatter(Declaring(p, vendors)[i])
  {
    if vendors != [] {
      DeclaringDeclares(p, vendors[..|vendors| - 1]);
    }
  }

  lemma {:induction false} ClashingIsNamed(
      rules: Rules, p: Parser, shipped: seq<string>, entries: Entries, name: string)
    ensures name in Clashing(rules, p, shipped, entries) <==>
      exists i :: 0 <= i < |entries| && entries[i].name == name && Clashes(rules, p, shipped, entries[i])
  {
    if entries != [] {
      var init := entries[..|entries| - 1];
      ClashingIsNamed(rules, p, shipped, init, name);
      assert forall i | 0 <= i < |init| :: init[i] == entries[i];
    }
  }

  lemma ServeAllSnoc(p: Parser, blobs: seq<string>, b: string)
    ensures ServeAll(p, blobs + [b]) == ServeAll(p, blobs) + [Serve(p, b)]
  {
  }

  lemma {:induction false} ClashingCounts(rules: Rules, p: Parser, shipped: seq<string>, entries: Entries)
    requires Distinct(entries) && AllWalkable(rules, entries, 0)
    ensures CountIn(ServeAll(p, Declaring(p, VendorData(rules, entries))), ShippedNames(p, shipped))
      == |Clashing(rules, p, shipped, entries)|
  {
    if entries != [] {
      var init, last := entries[..|entries| - 1], entries[|entries| - 1];
      ClashingCounts(rules, p, shipped, init);
      ClashingIsNamed(rules, p, shipped, init, last.name);
      assert last.name !in Clashing(rules, p, shipped, init);
      if last.node.File? && !Shipped(rules, last.name, 0) && Vendor(rules, last.name, 0) {
        OneMoreVendor(p, shipped, VendorData(rules, init), last.node.data.value);
        assert VendorData(rules, entries) == VendorData(rules, init) + [last.node.data.value];
      } else {
        assert VendorData(rules, entries) == VendorData(rules, init);
      }
    }
  }

  lemma OneMoreVendor(p: Parser, shipped: seq<string>, before: seq<string>, data: string)
    ensures CountIn(ServeAll(p, Declaring(p, before + [data])), ShippedNames(p, shipped))
      == CountIn(ServeAll(p, Declaring(p, before)), ShippedNames(p, shipped))
         + if Serve(p, data).Named? && Serve(p, data).name in ShippedNames(p, shipped) then 1 else 0
  {
    if p.frontMatter(data) {
      ServeAllSnoc(p, Declaring(p, before), data);
    } else {
      assert Declaring(p, before + [data]) == Declaring(p, before);
    }
  }

  // ---------------------------------------------------------------- stack_agents_drift

  const AGENT_WALK_DEPTH: nat := 8
  const AGENT_WALK_ENTRIES: nat := 5000
  const VENDOR_HOST_AGENTS: set<string> :=
    {"codebase-memory-auditor.md", "codebase-memory-scout.md", "codebase-memory.md", "semble-search.md"}

  /** What is found where the installed agents folder should be. */
  datatype Installed = NoHome | HomeUnreadable | NoFolder | NotAFolder | Open(node: Node)

  /** The markdown files of the source folder, and None where the bytes of one cannot be read. */
  function ReadSource(listing: seq<(string, Option<string>)>): Option<Source> {
    if listing == [] then Some([])
    else
      var (name, data) := listing[|listing| - 1];
      var rest := ReadSource(listing[..|listing| - 1]);
      if !IsMarkdown(name) then rest
      else if rest.None? || data.None? then None
      else Some(rest.value + [(name, data.value)])
  }

  function RulesFor(source: Source): Rules {
    Rules(ExpectedOf(source), VENDOR_HOST_AGENTS, AGENT_WALK_DEPTH, AGENT_WALK_ENTRIES)
  }

  ghost predicate ValidInstalled(installed: Installed) {
    installed.Open? ==>
      && (installed.node.Folder? ==> Distinct(installed.node.entries))
      && (installed.node.Folder? || installed.node.Unlistable?)
  }

  /** What the installed folder holds, an absent one being empty. */
  function TreeOf(installed: Installed): Node {
    if installed.Open? then installed.node else Folder([])
  }

  method StackAgentsDrift(listing: Option<seq<(string, Option<string>)>>, noFollow: bool, installed: Installed,
                          p: Parser) returns (r: Option<nat>)
    requires ValidInstalled(installed)
    ensures r.None? <==>
      (|| listing.None? || ReadSource(listing.value).None? || ReadSource(listing.value).value == [] || !noFollow
       || installed.HomeUnreadable? || installed.NotAFolder?
       || CannotTell(RulesFor(ReadSource(listing.value).value), p, Blobs(ReadSource(listing.value).value),
                     TreeOf(installed)))
    ensures r.Some? ==>
      var source, entries := ReadSource(listing.value).value, TreeOf(installed).entries;
      var rules := RulesFor(source);
      r.value == |Differing(rules, entries)| + LoadedCount(rules, entries, 0)
                 + |Clashing(rules, p, Blobs(source), entries)|
  {
    if listing.None? || ReadSource(listing.value).None? {
      return None;
    }
    var source := ReadSource(listing.value).value;
    if source == [] || !noFollow {
      return None;
    }
    var rules := RulesFor(source);
    match installed {
      case NoHome | NoFolder =>
        assert rules.expected.Keys - {} == rules.expected.Keys;
        return Some(|rules.expected|);
      case HomeUnreadable | NotAFolder =>
        return None;
      case Open(node) =>
        r := AgentDriftBelow(node, rules, p, Blobs(source));
    }
  }

  // ---------------------------------------------------------------- zero

  lemma NoneDiffers(rules: Rules, entries: Entries)
    ensures |Differing(rules, entries)| == 0
       <==> forall name | name in rules.expected :: HasIdentical(rules, entries, name)
  {
    forall name ensures name in IdenticalIn(rules, entries) <==> HasIdentical(rules, entries, name) {
      IdenticalHas(rules, entries, name);
    }
    var d := Differing(rules, entries);
    assert |d| == 0 <==> d == {};
    assert d == {} <==> forall name | name in rules.expected :: name !in d;
  }

  predicate HasIdentical(rules: Rules, entries: Entries, name: string) {
    exists i :: 0 <= i < |entries| && entries[i].name == name && Identical(rules, entries[i])
  }

  lemma NoneClash(rules: Rules, p: Parser, shipped: seq<string>, entries: Entries)
    ensures |Clashing(rules, p, shipped, entries)| == 0
      <==> forall i | 0 <= i < |entries| :: !Clashes(rules, p, shipped, entries[i])
  {
    var c := Clashing(rules, p, shipped, entries);
    assert |c| == 0 <==> c == {};
    if c == {} {
      forall i | 0 <= i < |entries| ensures !Clashes(rules, p, shipped, entries[i]) {
        ClashingIsNamed(rules, p, shipped, entries, entries[i].name);
        assert entries[i].name !in c;
      }
    } else {
      var name :| name in c;
      ClashingIsNamed(rules, p, shipped, entries, name);
    }
  }

  lemma NoneLoaded(rules: Rules, entries: Entries)
    requires Distinct(entries)
    ensures LoadedCount(rules, entries, 0) == 0 <==> forall path :: !LoadedAt(rules, entries, path, 0)
  {
    var paths := LoadedCountIsPaths(rules, entries, 0);
    assert |paths| == 0 <==> paths == {};
    if paths != {} {
      var path :| path in paths;
      assert LoadedAt(rules, entries, path, 0);
    }
  }

  /** The count is zero exactly when every shipped definition has an identical regular copy at the top, no path leads to
      a definition nothing here ships, and no vendor file takes a shipped name. */
  lemma ZeroExactlyWhenNothingDiffers(rules: Rules, p: Parser, shipped: seq<string>, entries: Entries)
    requires Distinct(entries)
    ensures |Differing(rules, entries)| + LoadedCount(rules, entries, 0) + |Clashing(rules, p, shipped, entries)| == 0
      <==>
      (&& (forall name | name in rules.expected :: HasIdentical(rules, entries, name))
       && (forall path :: !LoadedAt(rules, entries, path, 0))
       && (forall i | 0 <= i < |entries| :: !Clashes(rules, p, shipped, entries[i])))
  {
    NoneDiffers(rules, entries);
    NoneLoaded(rules, entries);
    NoneClash(rules, p, shipped, entries);
  }
}
