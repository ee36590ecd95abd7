/** The tool table of build_data in scripts/build_new_wsl_handbook.py: add_tool de-duplicates selected tools in place
    and keeps two views of who uses what. */
module ToolTable {
  import opened Wrappers
  import opened Json
  import opened Strings

  // ---------------------------------------------------------------- inputs

  datatype Owner = Owner(owns: bool, uses: bool)

  /** The profile facts that a handbook entry may supply; Null where it supplies none. */
  datatype Facts = Facts(pin: Json, checksum: Json, install: Json, acceptance: Json, stage: Json, position: Json)

  /** package is what profile_package reads from the entry's checksum source; "" stands for no repository. */
  datatype Entry = Entry(layer: string, name: string, owner: string, status: string, repository: string,
                         package: Option<string>, facts: Facts, gaps: seq<string>, install: Option<Install>)

  datatype Install = Install(command: string, source: Option<string>)

  datatype Choice = Choice(name: string, repository: string, install: Option<Install>)

  /** digest is the hash behind a tool id; reuses names the owner of a tool that a layer only uses. */
  datatype Config = Config(owners: map<string, Owner>, reuses: map<(string, string), string>,
                           packages: map<(string, string), seq<string>>, digest: Identity -> string)

  const DISTRO_LAYER: string := "cross:wsl-distro"

  // ---------------------------------------------------------------- identities

  function RepositoryIdentity(repository: string, name: string): string {
    RemoveGit(StripSlashes(if repository == "" then name else repository))
  }

  datatype Identity = Identity(owner: string, repository: string, variant: string)

  // ---------------------------------------------------------------- tools

  datatype Source = Source(layer: string, name: string, fromProfile: bool)

  datatype Tool = Tool(id: string, name: string, aliases: seq<string>, repository: string, owner: string,
                       status: string, usedBy: seq<string>, sources: seq<Source>, installs: seq<Install>,
                       entries: seq<Entry>, package: Option<string>)

  datatype BuildError =
    | OwnerConflict | UnknownOwner | OwnsNothing | ReuseNotDeclared | RepositoryConflict | UnknownLayer
    | UnknownStatus | DuplicateChoice | DuplicateEntry

  /** One add_tool call. */
  datatype Call = Call(layer: string, choice: Choice, status: string, entry: Option<Entry>, extra: bool)

  function Appended<T(==)>(s: seq<T>, x: T): seq<T> {
    if x in s then s else s + [x]
  }

  function OwnerOf(config: Config, call: Call): string {
    if call.extra && call.entry.Some? then call.entry.value.owner
    else if (call.layer, call.choice.name) in config.reuses then config.reuses[(call.layer, call.choice.name)]
    else call.layer
  }

  function RepositoryOf(call: Call): string {
    if call.entry.Some? && call.entry.value.repository != "" then call.entry.value.repository
    else call.choice.repository
  }

  /** Only a selection alias without a profile entry inherits the sole package of its repository. */
  function PackageOf(config: Config, call: Call): Option<string> {
    if call.entry.Some? then call.entry.value.package
    else
      var key := (OwnerOf(config, call), RepositoryIdentity(RepositoryOf(call), call.choice.name));
      if key in config.packages && |config.packages[key]| == 1 then Some(config.packages[key][0]) else None
  }

  function IdentityOf(config: Config, call: Call): Identity {
    Identity(OwnerOf(config, call), RepositoryIdentity(RepositoryOf(call), call.choice.name),
             if call.layer == DISTRO_LAYER then call.choice.name else PackageOf(config, call).GetOr(""))
  }

  function SourceOf(call: Call): Source {
    Source(call.layer, call.choice.name, call.extra)
  }

  /** The first requirement of add_tool that the call breaks. */
  function Refusal(config: Config, call: Call): Option<BuildError> {
    var owner := OwnerOf(config, call);
    if !call.extra && call.entry.Some? && call.entry.value.owner != owner then Some(OwnerConflict)
    else if owner !in config.owners then Some(UnknownOwner)
    else if !config.owners[owner].owns then Some(OwnsNothing)
    else if owner != call.layer && !call.extra && !(call.layer in config.owners && config.owners[call.layer].uses) then
      Some(ReuseNotDeclared)
    else if call.entry.Some? && call.entry.value.repository != "" && call.choice.repository != ""
      && StripSlashes(call.entry.value.repository) != StripSlashes(call.choice.repository) then Some(RepositoryConflict)
    else None
  }

  /** What a call settles about the tool it is for: home says that the layer owns the tool. */
  datatype Binding = Binding(identity: Identity, id: string, layer: string, name: string, home: bool,
                             repository: string, status: string, source: Source, install: Option<Install>,
                             entry: Option<Entry>, package: Option<string>)

  function Bind(config: Config, call: Call): Binding {
    var k := IdentityOf(config, call);
    Binding(k, config.digest(k), call.layer, call.choice.name, call.layer == k.owner, RepositoryOf(call), call.status,
            SourceOf(call), call.choice.install, call.entry, PackageOf(config, call))
  }

  function Fresh(b: Binding): Tool {
    Tool(b.id, b.name, [], b.repository, b.identity.owner, b.status, [], [], [], [], b.package)
  }

  /** What a call does to the tool of its identity. */
  function Touched(tool: Tool, b: Binding): Tool {
    Tool(tool.id,
         if b.home then b.name else tool.name,
         Appended(tool.aliases, b.name),
         tool.repository, tool.owner,
         if b.entry.Some? then b.entry.value.status else tool.status,
         Appended(tool.usedBy, b.layer),
         tool.sources + [b.source],
         if b.install.Some? then Appended(tool.installs, b.install.value) else tool.installs,
         tool.entries + if b.entry.Some? then [b.entry.value] else [],
         tool.package)
  }

  // ---------------------------------------------------------------- what every table keeps

  predicate NoRepeats<T(==)>(s: seq<T>) {
    forall i, j | 0 <= i < j < |s| :: s[i] != s[j]
  }

  /** The selection sources, the aliases and the using layers of a tool tell one story. */
  ghost predicate ToolOk(config: Config, identity: Identity, tool: Tool) {
    && tool.id == config.digest(identity) && tool.owner == identity.owner
    && NoRepeats(tool.aliases) && NoRepeats(tool.usedBy) && NoRepeats(tool.installs)
    && tool.sources != [] && tool.name in tool.aliases
    && (forall layer :: HasLayer(tool.sources, layer) ==> layer in tool.usedBy)
    && (forall name :: HasName(tool.sources, name) ==> name in tool.aliases)
    && (forall layer | layer in tool.usedBy :: HasLayer(tool.sources, layer))
    && (forall name | name in tool.aliases :: HasName(tool.sources, name))
  }

  /** A tool id is in a layer's list exactly when that layer is in the tool's used_by. */
  predicate ViewsAgree(tools: map<Identity, Tool>, layerTools: map<string, seq<string>>) {
    && (forall k, layer | k in tools && layer in layerTools ::
          tools[k].id in layerTools[layer] <==> layer in tools[k].usedBy)
    && (forall k, layer | k in tools && layer in tools[k].usedBy :: layer in layerTools)
  }

  /** Every listed id belongs to a tool, and no list repeats one. */
  ghost predicate ListsAreTools(tools: map<Identity, Tool>, layerTools: map<string, seq<string>>) {
    forall layer | layer in layerTools ::
      NoRepeats(layerTools[layer]) && forall id | id in layerTools[layer] :: exists k :: k in tools && tools[k].id == id
  }

  predicate OneOrder(tools: map<Identity, Tool>, order: seq<Identity>) {
    NoRepeats(order) && (forall k | k in order :: k in tools) && (forall k | k in tools :: k in order)
  }

  ghost predicate AllToolsOk(config: Config, tools: map<Identity, Tool>) {
    forall k | k in tools :: ToolOk(config, k, tools[k])
  }

  ghost predicate Injective(digest: Identity -> string) {
    forall a, b | digest(a) == digest(b) :: a == b
  }

  ghost predicate TableOk(config: Config, tools: map<Identity, Tool>, layerTools: map<string, seq<string>>,
                          order: seq<Identity>)
  {
    && AllToolsOk(config, tools) && ViewsAgree(tools, layerTools)
    && ListsAreTools(tools, layerTools) && OneOrder(tools, order)
  }

  /** The layer and the name come from the call the source records. */
  predicate BoundOk(config: Config, b: Binding) {
    b.id == config.digest(b.identity) && b.source.layer == b.layer && b.source.name == b.name
  }

  predicate HasLayer(sources: seq<Source>, layer: string) {
    exists i :: 0 <= i < |sources| && sources[i].layer == layer
  }

  predicate HasName(sources: seq<Source>, name: string) {
    exists i :: 0 <= i < |sources| && sources[i].name == name
  }

  lemma SourcesGrow(sources: seq<Source>, source: Source)
    ensures forall layer :: HasLayer(sources + [source], layer) <==> HasLayer(sources, layer) || layer == source.layer
    ensures forall name :: HasName(sources + [source], name) <==> HasName(sources, name) || name == source.name
  {
    var more := sources + [source];
    assert more[|sources|] == source && forall i | 0 <= i < |sources| :: more[i] == sources[i];
    forall layer | HasLayer(sources, layer) ensures HasLayer(more, layer) {
      var i :| 0 <= i < |sources| && sources[i].layer == layer;
      assert more[i].layer == layer;
    }
    forall name | HasName(sources, name) ensures HasName(more, name) {
      var i :| 0 <= i < |sources| && sources[i].name == name;
      assert more[i].name == name;
    }
  }

  lemma AppendedStaysDistinct<T>(s: seq<T>, x: T)
    requires NoRepeats(s)
    ensures NoRepeats(Appended(s, x)) && forall y :: y in Appended(s, x) <==> y in s || y == x
  {
  }

  lemma TouchedIsOk(config: Config, tool: Tool, b: Binding)
    requires BoundOk(config, b) && (ToolOk(config, b.identity, tool) || tool == Fresh(b))
    ensures ToolOk(config, b.identity, Touched(tool, b))
  {
    SourcesGrow(tool.sources, b.source);
    AppendedStaysDistinct(tool.aliases, b.name);
    AppendedStaysDistinct(tool.usedBy, b.layer);
    if b.install.Some? {
      AppendedStaysDistinct(tool.installs, b.install.value);
    }
  }

  lemma ViewsStayAgreed(config: Config, tools: map<Identity, Tool>, layerTools: map<string, seq<string>>, k: Identity,
                        after: Tool, layer: string)
    requires Injective(config.digest) && AllToolsOk(config, tools) && ViewsAgree(tools, layerTools)
    requires ListsAreTools(tools, layerTools)
    requires layer in layerTools && after.id == config.digest(k)
    requires after.usedBy == Appended(if k in tools then tools[k].usedBy else [], layer)
    ensures ViewsAgree(tools[k := after], layerTools[layer := Appended(layerTools[layer], after.id)])
  {
    var newTools, newLists := tools[k := after], layerTools[layer := Appended(layerTools[layer], after.id)];
    forall j, l | j in newTools && l in newLists
      ensures newTools[j].id in newLists[l] <==> l in newTools[j].usedBy
    {
      if j != k {
        assert tools[j].id in layerTools[l] <==> l in tools[j].usedBy;
      }
    }
  }

  /** One tool per identity: different tools never share an id, and an id listed for a layer names one tool, which that
      layer uses. */
  lemma ListedIdNamesOneTool(config: Config, tools: map<Identity, Tool>, layerTools: map<string, seq<string>>,
                             order: seq<Identity>, layer: string, id: string)
    requires Injective(config.digest) && TableOk(config, tools, layerTools, order)
    requires layer in layerTools && id in layerTools[layer]
    ensures exists k :: k in tools && tools[k].id == id && layer in tools[k].usedBy
    ensures forall j, k | j in tools && k in tools && tools[j].id == id && tools[k].id == id :: j == k
  {
    var k :| k in tools && tools[k].id == id;
    assert tools[k].id in layerTools[layer];
    forall j | j in tools && tools[j].id == id ensures j == k {
      assert ToolOk(config, j, tools[j]) && ToolOk(config, k, tools[k]);
      assert config.digest(j) == config.digest(k);
    }
  }

  lemma ListsStayTools(tools: map<Identity, Tool>, layerTools: map<string, seq<string>>, k: Identity, after: Tool,
                       layer: string)
    requires ListsAreTools(tools, layerTools) && layer in layerTools
    requires k in tools ==> tools[k].id == after.id
    ensures ListsAreTools(tools[k := after], layerTools[layer := Appended(layerTools[layer], after.id)])
  {
    var newTools, newLists := tools[k := after], layerTools[layer := Appended(layerTools[layer], after.id)];
    forall l | l in newLists
      ensures NoRepeats(newLists[l])
      ensures forall id | id in newLists[l] :: exists j :: j in newTools && newTools[j].id == id
    {
      forall id | id in newLists[l]
        ensures exists j :: j in newTools && newTools[j].id == id
      {
        if id == after.id {
          assert k in newTools && newTools[k].id == id;
        } else {
          assert id in layerTools[l];
          var j :| j in tools && tools[j].id == id;
          assert j in newTools && newTools[j].id == id;
        }
      }
    }
  }

  // ---------------------------------------------------------------- one add_tool call on the table

  /** The two views and the order in which tools were first seen. */
  datatype State = State(tools: map<Identity, Tool>, order: seq<Identity>, layerTools: map<string, seq<string>>)

  function Added(s: State, b: Binding): State {
    var tool := Touched(if b.identity in s.tools then s.tools[b.identity] else Fresh(b), b);
    var listed := if b.layer in s.layerTools then s.layerTools[b.layer] else [];
    State(s.tools[b.identity := tool], Appended(s.order, b.identity),
          s.layerTools[b.layer := Appended(listed, tool.id)])
  }

  /** The requirement a call breaks, or the reference layer it lacks. */
  function CallRefusal(config: Config, reference: set<string>, call: Call): Option<BuildError> {
    if Refusal(config, call).Some? then Refusal(config, call)
    else if call.layer !in reference then Some(UnknownLayer) else None
  }

  // ---------------------------------------------------------------- what all tools hold together

  function Gathered<T>(tools: map<Identity, Tool>, order: seq<Identity>, part: Tool -> seq<T>): seq<T>
    requires forall k | k in order :: k in tools
  {
    if order == [] then []
    else Gathered(tools, order[..|order| - 1], part) + part(tools[order[|order| - 1]])
  }

  lemma {:induction false} GatheredElsewhere<T>(
      tools: map<Identity, Tool>, order: seq<Identity>, k: Identity, after: Tool, part: Tool -> seq<T>)
    requires (forall j | j in order :: j in tools) && k !in order
    ensures Gathered(tools[k := after], order, part) == Gathered(tools, order, part)
  {
    if order != [] {
      GatheredElsewhere(tools, order[..|order| - 1], k, after, part);
    }
  }

  /** What one tool gains, all of them together gain. */
  lemma {:induction false} GatheredGain<T>(
      tools: map<Identity, Tool>, order: seq<Identity>, k: Identity, after: Tool, part: Tool -> seq<T>, more: seq<T>)
    requires (forall j | j in order :: j in tools) && NoRepeats(order) && k in order
    requires part(after) == part(tools[k]) + more
    ensures multiset(Gathered(tools[k := after], order, part))
         == multiset(Gathered(tools, order, part)) + multiset(more)
  {
    var init, last := order[..|order| - 1], order[|order| - 1];
    if last == k {
      GatheredElsewhere(tools, init, k, after, part);
    } else {
      assert k in init;
      GatheredGain(tools, init, k, after, part, more);
    }
  }

  lemma GatheredFirst<T>(
      tools: map<Identity, Tool>, order: seq<Identity>, k: Identity, after: Tool, part: Tool -> seq<T>, more: seq<T>)
    requires (forall j | j in order :: j in tools) && k !in order && part(after) == more
    ensures multiset(Gathered(tools[k := after], order + [k], part))
         == multiset(Gathered(tools, order, part)) + multiset(more)
  {
    GatheredElsewhere(tools, order, k, after, part);
    assert (order + [k])[..|order|] == order;
  }

  /** The selection sources of all tools. */
  function SourcesIn(s: State): multiset<Source>
    requires forall k | k in s.order :: k in s.tools
  {
    multiset(Gathered(s.tools, s.order, (t: Tool) => t.sources))
  }

  /** The profile entries of all tools. */
  function EntriesIn(s: State): multiset<Entry>
    requires forall k | k in s.order :: k in s.tools
  {
    multiset(Gathered(s.tools, s.order, (t: Tool) => t.entries))
  }

  function EntriesOf(b: Binding): seq<Entry> {
    if b.entry.Some? then [b.entry.value] else []
  }

  lemma AddedStaysOrdered(s: State, b: Binding)
    requires OneOrder(s.tools, s.order)
    ensures OneOrder(Added(s, b).tools, Added(s, b).order)
  {
  }

  /** One call adds its source and its entry, and nothing else, to what the tools hold. */
  lemma AddedGains(s: State, b: Binding)
    requires OneOrder(s.tools, s.order)
    ensures OneOrder(Added(s, b).tools, Added(s, b).order)
    ensures SourcesIn(Added(s, b)) == SourcesIn(s) + multiset{b.source}
    ensures EntriesIn(Added(s, b)) == EntriesIn(s) + multiset(EntriesOf(b))
  {
    AddedStaysOrdered(s, b);
    var k, sources, entries := b.identity, (t: Tool) => t.sources, (t: Tool) => t.entries;
    if k in s.tools {
      var tool := Touched(s.tools[k], b);
      GatheredGain(s.tools, s.order, k, tool, sources, [b.source]);
      GatheredGain(s.tools, s.order, k, tool, entries, EntriesOf(b));
    } else {
      var tool := Touched(Fresh(b), b);
      GatheredFirst(s.tools, s.order, k, tool, sources, [b.source]);
      GatheredFirst(s.tools, s.order, k, tool, entries, EntriesOf(b));
    }
  }

  // ---------------------------------------------------------------- the table

  class Table {
    const config: Config
    var tools: map<Identity, Tool>
    var order: seq<Identity>
    var layerTools: map<string, seq<string>>

    /** layer_tools starts with an empty list for every reference layer. */
    constructor (config: Config, reference: set<string>)
      requires Injective(config.digest)
      ensures this.config == config && Valid() && Current() == Start(reference)
    {
      this.config := config;
      tools, order := map[], [];
      var lists := map[];
      var left := reference;
      while left != {}
        invariant left <= reference && lists.Keys == reference - left
        invariant forall layer | layer in lists :: lists[layer] == []
      {
        var layer :| layer in left;
        lists, left := lists[layer := []], left - {layer};
      }
      layerTools := lists;
      new;
      assert layerTools == Start(reference).layerTools;
    }

    function Current(): State
      reads this
    {
      State(tools, order, layerTools)
    }

    ghost predicate Valid()
      reads this
    {
      Injective(config.digest) && TableOk(config, tools, layerTools, order)
    }

    /** The part of add_tool that changes the table. */
    method Touch(b: Binding)
      requires Valid() && BoundOk(config, b) && b.layer in layerTools
      modifies this
      ensures Valid() && Current() == Added(old(Current()), b)
    {
      var k := b.identity;
      var tool := Touched(if k in tools then tools[k] else Fresh(b), b);
      TableStaysOk(config, tools, layerTools, order, b, tool);
      order := Appended(order, k);
      tools := tools[k := tool];
      layerTools := layerTools[b.layer := Appended(layerTools[b.layer], tool.id)];
    }

    /** add_tool: refused calls change nothing; any other call touches the one tool of its identity and lists it for its
        layer. */
    method AddTool(call: Call) returns (refusal: Option<BuildError>)
      requires Valid()
      modifies this
      ensures Valid() && layerTools.Keys == old(layerTools.Keys)
      ensures refusal == CallRefusal(config, old(layerTools).Keys, call)
      ensures Current() == if refusal.Some? then old(Current()) else Added(old(Current()), Bind(config, call))
    {
      refusal := Refusal(config, call);
      if refusal.Some? {
        return;
      }
      if call.layer !in layerTools {
        return Some(UnknownLayer);
      }
      Touch(Bind(config, call));
    }
  }

  ghost function Start(reference: set<string>): State {
    State(map[], [], EmptyLists(reference))
  }

  /** An empty list for each layer. */
  ghost function EmptyLists(reference: set<string>): (lists: map<string, seq<string>>)
    ensures lists.Keys == reference && forall layer | layer in lists :: lists[layer] == []
  {
    if reference == {} then map[]
    else
      var layer :| layer in reference;
      EmptyLists(reference - {layer})[layer := []]
  }

  ghost predicate Touches(tools: map<Identity, Tool>, b: Binding, tool: Tool) {
    tool == Touched(if b.identity in tools then tools[b.identity] else Fresh(b), b)
  }

  lemma ToolsStayOk(config: Config, tools: map<Identity, Tool>, b: Binding, tool: Tool)
    requires AllToolsOk(config, tools) && BoundOk(config, b) && Touches(tools, b, tool)
    ensures AllToolsOk(config, tools[b.identity := tool])
  {
    var before := if b.identity in tools then tools[b.identity] else Fresh(b);
    assert b.identity in tools ==> ToolOk(config, b.identity, before);
    TouchedIsOk(config, before, b);
  }

  lemma TableStaysOk(config: Config, tools: map<Identity, Tool>, layerTools: map<string, seq<string>>,
                     order: seq<Identity>, b: Binding, tool: Tool)
    requires Injective(config.digest) && TableOk(config, tools, layerTools, order)
    requires BoundOk(config, b) && b.layer in layerTools && Touches(tools, b, tool)
    ensures TableOk(config, tools[b.identity := tool], layerTools[b.layer := Appended(layerTools[b.layer], tool.id)],
                    Appended(order, b.identity))
  {
    ToolsStayOk(config, tools, b, tool);
    ViewsStayAgreed(config, tools, layerTools, b.identity, tool, b.layer);
    ListsStayTools(tools, layerTools, b.identity, tool, b.layer);
  }
}
