/** The merge of a tool's profile entries at the end of build_data, and profile_fields: which facts and which blocking
    gaps a published tool carries. */
module ToolMerge {
  import opened Wrappers
  import opened Json
  import opened Strings
  import opened ToolTable

  // ---------------------------------------------------------------- Python's truth

  predicate Truthy(v: Json) {
    match v
    case Null => false
    case Bool(b) => b
    case Num(x) => x != 0.0
    case Huge => true
    case Str(s) => s != ""
    case Arr(items) => items != []
    case Obj(fields) => fields != map[]
  }

  function At(v: Json, key: string): Json {
    if v.Obj? then Get(v.fields, key) else Null
  }

  // ---------------------------------------------------------------- profile_fields

  predicate IsSha256(s: string) {
    |s| == 64 && forall i | 0 <= i < |s| :: IsHex(s[i])
  }

  predicate IsSpace(c: char) {
    c == ' ' || '\t' <= c <= '\r'
  }

  /** \s*\( at the front of s */
  predicate OpensCall(s: string) {
    s != [] && (s[0] == '(' || (IsSpace(s[0]) && OpensCall(s[1..])))
  }

  predicate VersionCall(s: string) {
    exists i | 0 <= i <= |s| :: "version" <= s[i..] && OpensCall(s[i + 7..])
  }

  /** A command that only prints a version. */
  predicate VersionPrint(command: string) {
    && (Contains(command, "--version") || Contains(command, " -V") || VersionCall(command))
    && !(Contains(command, "&&") || Contains(command, ";") || Contains(command, "\n"))
  }

  predicate Pinned(pin: Json) {
    Truthy(pin)
    && !(pin.Str? && (Lower(pin.str) == "pending" || Lower(pin.str) == "unknown" || Lower(pin.str) == "latest"))
  }

  predicate HasDigest(checksum: Json) {
    checksum.Obj? && At(checksum, "value").Str? && IsSha256(At(checksum, "value").str)
  }

  predicate HasOrigin(checksum: Json) {
    At(checksum, "algorithm") == Str("sha256") && Truthy(At(checksum, "source"))
  }

  predicate OfAnArtifact(checksum: Json) {
    At(checksum, "kind") == Str("artifact") || At(checksum, "kind") == Str("lock")
  }

  /** A command and its source. */
  predicate Documented(v: Json) {
    Truthy(At(v, "command")) && Truthy(At(v, "source"))
  }

  predicate OnlyPrintsVersion(acceptance: Json) {
    Documented(acceptance) && At(acceptance, "command").Str? && VersionPrint(At(acceptance, "command").str)
  }

  /** re.search refuses an acceptance command that is no text. */
  predicate Unsearchable(acceptance: Json) {
    Documented(acceptance) && !At(acceptance, "command").Str?
  }

  /** A list or an object has no hash, so it cannot be looked up among the kinds. */
  predicate Unhashable(checksum: Json) {
    At(checksum, "kind").Arr? || At(checksum, "kind").Obj?
  }

  predicate Raises(f: Facts) {
    Unhashable(f.checksum) || Unsearchable(f.acceptance)
  }

  const PIN_GAP: string := "pin: release or immutable revision pending in W-PROF"
  const DIGEST_GAP: string := "checksum: real SHA-256 and its source pending in W-PROF"
  const ORIGIN_GAP: string := "checksum: algorithm or source pending in W-PROF"
  const ARTIFACT_GAP: string := "checksum: source identity does not verify an install artifact or lockfile"
  const INSTALL_GAP: string := "install: upstream-documented command and source pending in W-PROF"
  const ACCEPTANCE_GAP: string := "acceptance: upstream test or documented example and source pending in W-PROF"
  const VERSION_GAP: string := "acceptance: a version print is not an upstream test or documented example"
  const ORDER_GAP: string := "install order: stage and position pending in W-PROF"
  const PACKAGES_GAP: string :=
    "package identity: multiple installable packages share this repository; W-PROF binding pending"
  const PACKAGE_GAP: string :=
    "package identity: explicit W-PROF entry has no supported binding to the repository's identified package"
  const REPOSITORY_GAP: string := "repository: upstream source pending"

  function When(holds: bool, gap: string): seq<string> {
    if holds then [gap] else []
  }

  /** list(dict.fromkeys(gaps)) */
  function Distinct(gaps: seq<string>): seq<string> {
    if gaps == [] then [] else Appended(Distinct(gaps[..|gaps| - 1]), gaps[|gaps| - 1])
  }

  function ChecksumGaps(checksum: Json): seq<string> {
    (if !HasDigest(checksum) then [DIGEST_GAP] else When(!HasOrigin(checksum), ORIGIN_GAP))
    + When(checksum.Obj? && !OfAnArtifact(checksum), ARTIFACT_GAP)
  }

  function AcceptanceGaps(acceptance: Json): seq<string> {
    if !Documented(acceptance) then [ACCEPTANCE_GAP] else When(OnlyPrintsVersion(acceptance), VERSION_GAP)
  }

  function FactGaps(f: Facts): seq<string> {
    When(!Pinned(f.pin), PIN_GAP) + ChecksumGaps(f.checksum) + When(!Documented(f.install), INSTALL_GAP)
    + AcceptanceGaps(f.acceptance) + When(f.stage == Null || f.position == Null, ORDER_GAP)
  }

  /** profile_fields: the blocking gaps of merged facts on top of the supplied ones. */
  function FieldGaps(f: Facts, supplied: seq<string>): seq<string> {
    Distinct(supplied + FactGaps(f))
  }

  lemma {:induction false} DistinctKeeps(gaps: seq<string>)
    ensures forall g :: g in Distinct(gaps) <==> g in gaps
    ensures NoRepeats(Distinct(gaps))
  {
    if gaps != [] {
      var init, last := gaps[..|gaps| - 1], gaps[|gaps| - 1];
      DistinctKeeps(init);
      assert forall g :: g in gaps <==> g in init || g == last;
    }
  }

  // ---------------------------------------------------------------- the merge

  datatype Field = Pin | Checksum | Install | Acceptance | Stage | Position

  function Value(f: Facts, field: Field): Json {
    match field
    case Pin => f.pin
    case Checksum => f.checksum
    case Install => f.install
    case Acceptance => f.acceptance
    case Stage => f.stage
    case Position => f.position
  }

  /** The last value that is not null wins. */
  function Latest(entries: seq<Entry>, field: Field): Json {
    if entries == [] then Null
    else
      var last := Value(entries[|entries| - 1].facts, field);
      if last == Null then Latest(entries[..|entries| - 1], field) else last
  }

  function Merged(entries: seq<Entry>): Facts {
    Facts(Latest(entries, Pin), Latest(entries, Checksum), Latest(entries, Field.Install), Latest(entries, Acceptance),
          Latest(entries, Stage), Latest(entries, Position))
  }

  function SuppliedGaps(entries: seq<Entry>): seq<string> {
    if entries == [] then [] else SuppliedGaps(entries[..|entries| - 1]) + entries[|entries| - 1].gaps
  }

  /** Two entries supply different facts for the field. */
  predicate Conflicts(entries: seq<Entry>, field: Field) {
    exists i, j | 0 <= i < |entries| && 0 <= j < |entries| ::
      Truthy(Value(entries[i].facts, field)) && Truthy(Value(entries[j].facts, field))
      && Value(entries[i].facts, field) != Value(entries[j].facts, field)
  }

  predicate AnyConflict(entries: seq<Entry>) {
    || Conflicts(entries, Pin) || Conflicts(entries, Checksum)
    || Conflicts(entries, Field.Install) || Conflicts(entries, Acceptance)
  }

  function CandidatesOf(config: Config, tool: Tool): seq<string> {
    var key := (tool.owner, RepositoryIdentity(tool.repository, tool.name));
    if key in config.packages then config.packages[key] else []
  }

  function PackageGaps(config: Config, tool: Tool): seq<string> {
    if tool.package.Some? || CandidatesOf(config, tool) == [] then []
    else if |CandidatesOf(config, tool)| > 1 then [PACKAGES_GAP] else [PACKAGE_GAP]
  }

  datatype Published = Published(tool: Tool, facts: Facts, gaps: seq<string>)

  function Publish(config: Config, tool: Tool): Published {
    var facts := Merged(tool.entries);
    Published(tool, facts,
              FieldGaps(facts, Distinct(SuppliedGaps(tool.entries))) + PackageGaps(config, tool)
              + When(tool.repository == "", REPOSITORY_GAP))
  }

  predicate Publishable(tool: Tool) {
    !AnyConflict(tool.entries) && !Raises(Merged(tool.entries))
  }

  datatype MergeError = FactConflict | BadValue

  method MergeTools(config: Config, tools: seq<Tool>) returns (r: Result<seq<Published>, MergeError>)
    ensures r.Success? <==> forall i | 0 <= i < |tools| :: Publishable(tools[i])
    ensures r.Success? ==>
      |r.value| == |tools| && forall i | 0 <= i < |tools| :: r.value[i] == Publish(config, tools[i])
  {
    var published: seq<Published> := [];
    for i := 0 to |tools|
      invariant |published| == i
      invariant forall j | 0 <= j < i :: Publishable(tools[j]) && published[j] == Publish(config, tools[j])
    {
      if AnyConflict(tools[i].entries) {
        assert !Publishable(tools[i]);
        return Failure(FactConflict);
      }
      if Raises(Merged(tools[i].entries)) {
        assert !Publishable(tools[i]);
        return Failure(BadValue);
      }
      published := published + [Publish(config, tools[i])];
    }
    r := Success(published);
  }

  // ---------------------------------------------------------------- what survives the merge

  lemma {:induction false} GapIsSupplied(entries: seq<Entry>, gap: string)
    ensures gap in SuppliedGaps(entries) <==> exists i :: 0 <= i < |entries| && gap in entries[i].gaps
  {
    if entries != [] {
      var init, last := entries[..|entries| - 1], entries[|entries| - 1];
      GapIsSupplied(init, gap);
      assert forall i | 0 <= i < |init| :: init[i] == entries[i];
      assert gap in SuppliedGaps(entries) <==> gap in SuppliedGaps(init) || gap in last.gaps;
    }
  }

  /** Every blocking gap that any matched entry supplies is published: no user of a shared tool clears another's. */
  lemma SuppliedGapsSurvive(config: Config, tool: Tool, i: nat, gap: string)
    requires i < |tool.entries| && gap in tool.entries[i].gaps
    ensures gap in Publish(config, tool).gaps
  {
    GapIsSupplied(tool.entries, gap);
    DistinctKeeps(SuppliedGaps(tool.entries));
    var supplied, facts := Distinct(SuppliedGaps(tool.entries)), Merged(tool.entries);
    DistinctKeeps(supplied + FactGaps(facts));
    assert gap in supplied + FactGaps(facts);
  }

  predicate FactsComplete(f: Facts) {
    && Pinned(f.pin) && HasDigest(f.checksum) && HasOrigin(f.checksum) && OfAnArtifact(f.checksum)
    && Documented(f.install) && Documented(f.acceptance) && !OnlyPrintsVersion(f.acceptance)
    && f.stage != Null && f.position != Null
  }

  /** A tool is published without a blocking gap exactly when no matched entry supplies one, every merged fact is
      complete, its package is bound or no package is known for its repository, and it has a repository. */
  lemma UnblockedExactlyWhen(config: Config, tool: Tool)
    ensures Publish(config, tool).gaps == [] <==>
      && (forall i | 0 <= i < |tool.entries| :: tool.entries[i].gaps == [])
      && FactsComplete(Merged(tool.entries))
      && (tool.package.Some? || CandidatesOf(config, tool) == [])
      && tool.repository != ""
  {
    var supplied, facts := SuppliedGaps(tool.entries), Merged(tool.entries);
    NoneSupplied(tool.entries);
    var all := FieldGaps(facts, Distinct(supplied));
    assert |Publish(config, tool).gaps|
      == |all| + |PackageGaps(config, tool)| + |When(tool.repository == "", REPOSITORY_GAP)|;
  }

  lemma {:induction false} NoneSupplied(entries: seq<Entry>)
    ensures SuppliedGaps(entries) == [] <==> forall i | 0 <= i < |entries| :: entries[i].gaps == []
  {
    if entries != [] {
      var init, last := entries[..|entries| - 1], entries[|entries| - 1];
      NoneSupplied(init);
      assert |SuppliedGaps(entries)| == |SuppliedGaps(init)| + |last.gaps|;
      assert forall i | 0 <= i < |init| :: init[i] == entries[i];
    }
  }

  // ---------------------------------------------------------------- which fact is published

  /** From entry i on nothing but nulls follows. */
  predicate LastAt(entries: seq<Entry>, field: Field, i: nat)
    requires i < |entries|
  {
    forall j | i < j < |entries| :: Value(entries[j].facts, field) == Null
  }

  lemma {:induction false} LatestIsLast(entries: seq<Entry>, field: Field, i: nat)
    requires i < |entries| && Value(entries[i].facts, field) != Null && LastAt(entries, field, i)
    ensures Latest(entries, field) == Value(entries[i].facts, field)
  {
    if i < |entries| - 1 {
      assert forall j | 0 <= j < |entries| - 1 :: entries[..|entries| - 1][j] == entries[j];
      LatestIsLast(entries[..|entries| - 1], field, i);
    }
  }

  lemma {:induction false} LatestHasPlace(entries: seq<Entry>, field: Field) returns (i: nat)
    requires Latest(entries, field) != Null
    ensures i < |entries| && Latest(entries, field) == Value(entries[i].facts, field) && LastAt(entries, field, i)
  {
    if Value(entries[|entries| - 1].facts, field) != Null {
      i := |entries| - 1;
    } else {
      i := LatestHasPlace(entries[..|entries| - 1], field);
      assert forall j | 0 <= j < |entries| - 1 :: entries[..|entries| - 1][j] == entries[j];
    }
  }

  /** When the entries do not conflict and entry i supplies a fact, that fact is published exactly when no empty value
      follows the last supplied one: then the order of the entries does not matter. */
  lemma FactSurvivesExactlyWhen(entries: seq<Entry>, field: Field, i: nat)
    requires !Conflicts(entries, field) && i < |entries| && Truthy(Value(entries[i].facts, field))
    ensures Latest(entries, field) == Value(entries[i].facts, field) <==>
      exists k | 0 <= k < |entries| :: Truthy(Value(entries[k].facts, field)) && LastAt(entries, field, k)
  {
    if Latest(entries, field) == Value(entries[i].facts, field) {
      var k := LatestHasPlace(entries, field);
      assert Truthy(Value(entries[k].facts, field)) && LastAt(entries, field, k);
    }
    forall k | 0 <= k < |entries| && Truthy(Value(entries[k].facts, field)) && LastAt(entries, field, k)
      ensures Latest(entries, field) == Value(entries[i].facts, field)
    {
      LatestIsLast(entries, field, k);
    }
  }

  /** An empty pin in a later entry erases the pin an earlier one supplied, without a conflict. */
  lemma EmptyFactErases(first: Entry, second: Entry)
    requires Pinned(first.facts.pin) && second.facts.pin == Str("")
    ensures !Conflicts([first, second], Pin) && Merged([first, second]).pin == Str("")
    ensures PIN_GAP in FactGaps(Merged([first, second]))
  {
    var entries := [first, second];
    assert entries[..1] == [first];
    assert Value(entries[1].facts, Pin) == Str("");
  }
}
