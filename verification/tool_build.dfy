/** The loops of build_data that fill the tool table: every selected choice that is not superseded, then every profile
    entry that no choice consumed. */
module ToolBuild {
  import opened Wrappers
  import opened ToolTable
  import opened Strings

  type Key = (string, string)

  /** A row of the selection: a layer, its status and its choices. */
  datatype Row = Row(layer: string, status: string, choices: seq<Choice>)

  datatype Inputs = Inputs(reference: set<string>, owners: map<string, Owner>, reuses: map<Key, string>,
                           digest: Identity -> string, rows: seq<Row>, entries: seq<Entry>, superseded: set<Key>)

  function KeyOf(e: Entry): Key {
    (e.layer, e.name)
  }

  // ---------------------------------------------------------------- packages

  function RepositoryKey(e: Entry): Key {
    (e.owner, RemoveGit(StripSlashes(e.repository)))
  }

  /** The packages known for a repository after a list of entries. */
  function PackagesAt(entries: seq<Entry>, key: Key): seq<string> {
    if entries == [] then []
    else
      var rest, e := PackagesAt(entries[..|entries| - 1], key), entries[|entries| - 1];
      if e.package.Some? && e.repository != "" && RepositoryKey(e) == key then Appended(rest, e.package.value) else rest
  }

  method GatherPackages(entries: seq<Entry>) returns (packages: map<Key, seq<string>>)
    ensures forall key :: (if key in packages then packages[key] else []) == PackagesAt(entries, key)
  {
    packages := map[];
    for i := 0 to |entries|
      invariant forall key :: (if key in packages then packages[key] else []) == PackagesAt(entries[..i], key)
    {
      assert entries[..i + 1][..i] == entries[..i];
      var e := entries[i];
      if e.package.Some? && e.repository != "" {
        var key := RepositoryKey(e);
        packages := packages[key := Appended(if key in packages then packages[key] else [], e.package.value)];
      }
    }
    assert entries[..|entries|] == entries;
  }

  // ---------------------------------------------------------------- the calls the loops make

  /** The entry of a layer and a name. */
  function EntryAt(entries: seq<Entry>, key: Key): Option<Entry> {
    if entries == [] then None
    else if KeyOf(entries[|entries| - 1]) == key then Some(entries[|entries| - 1])
    else EntryAt(entries[..|entries| - 1], key)
  }

  function CallFor(row: Row, choice: Choice, entry: Option<Entry>): Call {
    Call(row.layer, choice, if row.status == "recommended" then "picked" else "head-to-head-arm", entry, false)
  }

  function ExtraCall(e: Entry): Call {
    Call(e.layer, Choice(e.name, e.repository, e.install), e.status, Some(e), true)
  }

  /** The call for a choice, unless its pick is superseded. */
  function ChoiceCall(inputs: Inputs, row: Row, choice: Choice): seq<Call> {
    var key := (row.layer, choice.name);
    if key in inputs.superseded then [] else [CallFor(row, choice, EntryAt(inputs.entries, key))]
  }

  function ChoiceCalls(inputs: Inputs, row: Row, choices: seq<Choice>): seq<Call> {
    if choices == [] then []
    else ChoiceCalls(inputs, row, choices[..|choices| - 1]) + ChoiceCall(inputs, row, choices[|choices| - 1])
  }

  function RowCalls(inputs: Inputs, rows: seq<Row>): seq<Call> {
    if rows == [] then []
    else
      var last := rows[|rows| - 1];
      RowCalls(inputs, rows[..|rows| - 1]) + ChoiceCalls(inputs, last, last.choices)
  }

  function ChoiceKeys(inputs: Inputs, row: Row, choices: seq<Choice>): set<Key> {
    if choices == [] then {}
    else
      var rest, key := ChoiceKeys(inputs, row, choices[..|choices| - 1]), (row.layer, choices[|choices| - 1].name);
      if key in inputs.superseded then rest else rest + {key}
  }

  /** The keys that choices have consumed. */
  function RowKeys(inputs: Inputs, rows: seq<Row>): set<Key> {
    if rows == [] then {}
    else
      var last := rows[|rows| - 1];
      RowKeys(inputs, rows[..|rows| - 1]) + ChoiceKeys(inputs, last, last.choices)
  }

  function ExtraCalls(entries: seq<Entry>, consumed: set<Key>): seq<Call> {
    if entries == [] then []
    else
      var rest, last := ExtraCalls(entries[..|entries| - 1], consumed), entries[|entries| - 1];
      if KeyOf(last) in consumed then rest else rest + [ExtraCall(last)]
  }

  /** Every add_tool call of a build that is not refused, in order. */
  function CallsOf(inputs: Inputs): seq<Call> {
    RowCalls(inputs, inputs.rows) + ExtraCalls(inputs.entries, RowKeys(inputs, inputs.rows))
  }

  function StateAfter(config: Config, start: State, calls: seq<Call>): State {
    if calls == [] then start
    else Added(StateAfter(config, start, calls[..|calls| - 1]), Bind(config, calls[|calls| - 1]))
  }

  // ---------------------------------------------------------------- the refusals

  const STATUSES: set<string> := {"recommended", "compare"}
  const ENTRY_STATUSES: set<string> := {"picked", "head-to-head-arm"}

  /** The first requirement that an entry breaks, given the entries before it. */
  function EntryRefusal(inputs: Inputs, earlier: seq<Entry>, e: Entry): Option<BuildError> {
    if EntryAt(earlier, KeyOf(e)).Some? then Some(DuplicateEntry)
    else if e.layer !in inputs.reference then Some(UnknownLayer)
    else if e.owner !in inputs.owners then Some(UnknownOwner)
    else if e.status !in ENTRY_STATUSES then Some(UnknownStatus)
    else None
  }

  function EntriesRefusal(inputs: Inputs, entries: seq<Entry>): Option<BuildError> {
    if entries == [] then None
    else
      var earlier := entries[..|entries| - 1];
      if EntriesRefusal(inputs, earlier).Some? then EntriesRefusal(inputs, earlier)
      else EntryRefusal(inputs, earlier, entries[|entries| - 1])
  }

  function NamesOf(choices: seq<Choice>): set<string> {
    if choices == [] then {} else NamesOf(choices[..|choices| - 1]) + {choices[|choices| - 1].name}
  }

  function ChoiceRefusal(inputs: Inputs, config: Config, row: Row, earlier: seq<Choice>, choice: Choice)
    : Option<BuildError>
  {
    if choice.name in NamesOf(earlier) then Some(DuplicateChoice)
    else if (row.layer, choice.name) in inputs.superseded then None
    else CallRefusal(config, inputs.reference, CallFor(row, choice, EntryAt(inputs.entries, (row.layer, choice.name))))
  }

  function ChoicesRefusal(inputs: Inputs, config: Config, row: Row, choices: seq<Choice>): Option<BuildError> {
    if choices == [] then None
    else
      var earlier := choices[..|choices| - 1];
      if ChoicesRefusal(inputs, config, row, earlier).Some? then ChoicesRefusal(inputs, config, row, earlier)
      else ChoiceRefusal(inputs, config, row, earlier, choices[|choices| - 1])
  }

  function RowRefusal(inputs: Inputs, config: Config, row: Row): Option<BuildError> {
    if row.status !in STATUSES then Some(UnknownStatus) else ChoicesRefusal(inputs, config, row, row.choices)
  }

  function RowsRefusal(inputs: Inputs, config: Config, rows: seq<Row>): Option<BuildError> {
    if rows == [] then None
    else if RowsRefusal(inputs, config, rows[..|rows| - 1]).Some? then RowsRefusal(inputs, config, rows[..|rows| - 1])
    else RowRefusal(inputs, config, rows[|rows| - 1])
  }

  function ExtrasRefusal(inputs: Inputs, config: Config, entries: seq<Entry>, consumed: set<Key>): Option<BuildError> {
    if entries == [] then None
    else
      var earlier := ExtrasRefusal(inputs, config, entries[..|entries| - 1], consumed);
      if earlier.Some? || KeyOf(entries[|entries| - 1]) in consumed then earlier
      else CallRefusal(config, inputs.reference, ExtraCall(entries[|entries| - 1]))
  }

  /** The first requirement of the build that does not hold: of the profile entries, then of the rows and their choices,
      then of the entries no choice consumed. */
  function BuildRefusal(inputs: Inputs, config: Config): Option<BuildError> {
    if EntriesRefusal(inputs, inputs.entries).Some? then EntriesRefusal(inputs, inputs.entries)
    else if RowsRefusal(inputs, config, inputs.rows).Some? then RowsRefusal(inputs, config, inputs.rows)
    else ExtrasRefusal(inputs, config, inputs.entries, RowKeys(inputs, inputs.rows))
  }

  lemma {:induction false} EarlierEntryRefused(inputs: Inputs, entries: seq<Entry>, n: nat)
    requires n <= |entries| && EntriesRefusal(inputs, entries[..n]).Some?
    ensures EntriesRefusal(inputs, entries) == EntriesRefusal(inputs, entries[..n])
  {
    if n == |entries| {
      assert entries[..n] == entries;
    } else {
      var init := entries[..|entries| - 1];
      assert init[..n] == entries[..n];
      EarlierEntryRefused(inputs, init, n);
    }
  }

  lemma {:induction false} EarlierChoiceRefused(inputs: Inputs, config: Config, row: Row, choices: seq<Choice>, n: nat)
    requires n <= |choices| && ChoicesRefusal(inputs, config, row, choices[..n]).Some?
    ensures ChoicesRefusal(inputs, config, row, choices) == ChoicesRefusal(inputs, config, row, choices[..n])
  {
    if n == |choices| {
      assert choices[..n] == choices;
    } else {
      var init := choices[..|choices| - 1];
      assert init[..n] == choices[..n];
      EarlierChoiceRefused(inputs, config, row, init, n);
    }
  }

  lemma {:induction false} EarlierRowRefused(inputs: Inputs, config: Config, rows: seq<Row>, n: nat)
    requires n <= |rows| && RowsRefusal(inputs, config, rows[..n]).Some?
    ensures RowsRefusal(inputs, config, rows) == RowsRefusal(inputs, config, rows[..n])
  {
    if n == |rows| {
      assert rows[..n] == rows;
    } else {
      var init := rows[..|rows| - 1];
      assert init[..n] == rows[..n];
      EarlierRowRefused(inputs, config, init, n);
    }
  }

  lemma {:induction false} EarlierExtraRefused(
      inputs: Inputs, config: Config, entries: seq<Entry>, consumed: set<Key>, n: nat)
    requires n <= |entries| && ExtrasRefusal(inputs, config, entries[..n], consumed).Some?
    ensures ExtrasRefusal(inputs, config, entries, consumed) == ExtrasRefusal(inputs, config, entries[..n], consumed)
  {
    if n == |entries| {
      assert entries[..n] == entries;
    } else {
      var init := entries[..|entries| - 1];
      assert init[..n] == entries[..n];
      EarlierExtraRefused(inputs, config, init, consumed, n);
    }
  }

  // ---------------------------------------------------------------- the loops

  /** entry_map finds what EntryAt finds. */
  ghost predicate MapsEntries(m: map<Key, Entry>, entries: seq<Entry>) {
    forall key :: (if key in m then Some(m[key]) else None) == EntryAt(entries, key)
  }

  method MapEntries(inputs: Inputs) returns (r: Result<map<Key, Entry>, BuildError>)
    ensures r.Failure? <==> EntriesRefusal(inputs, inputs.entries).Some?
    ensures r.Failure? ==> EntriesRefusal(inputs, inputs.entries) == Some(r.error)
    ensures r.Success? ==> MapsEntries(r.value, inputs.entries)
  {
    var entries := inputs.entries;
    var m: map<Key, Entry> := map[];
    for i := 0 to |entries|
      invariant MapsEntries(m, entries[..i]) && EntriesRefusal(inputs, entries[..i]).None?
    {
      var e := entries[i];
      assert entries[..i + 1][..i] == entries[..i];
      var refusal := if KeyOf(e) in m then Some(DuplicateEntry)
                     else if e.layer !in inputs.reference then Some(UnknownLayer)
                     else if e.owner !in inputs.owners then Some(UnknownOwner)
                     else if e.status !in ENTRY_STATUSES then Some(UnknownStatus)
                     else None;
      assert refusal == EntryRefusal(inputs, entries[..i], e);
      if refusal.Some? {
        EarlierEntryRefused(inputs, entries, i + 1);
        return Failure(refusal.value);
      }
      m := m[KeyOf(e) := e];
    }
    assert entries[..|entries|] == entries;
    r := Success(m);
  }

  /** The table has made these calls, from the empty one. */
  ghost predicate Made(table: Table, inputs: Inputs, calls: seq<Call>)
    reads table
  {
    && table.Valid() && table.layerTools.Keys == inputs.reference
    && table.Current() == StateAfter(table.config, Start(inputs.reference), calls)
  }

  /** One add_tool call, as far as the loops need it. */
  method AddOne(table: Table, inputs: Inputs, ghost calls: seq<Call>, call: Call) returns (refusal: Option<BuildError>)
    requires Made(table, inputs, calls)
    modifies table
    ensures refusal == CallRefusal(table.config, inputs.reference, call)
    ensures refusal.None? ==> Made(table, inputs, calls + [call])
  {
    refusal := table.AddTool(call);
    assert (calls + [call])[..|calls|] == calls;
  }

  /** A choice whose name is new in the row. */
  method AddChoice(table: Table, inputs: Inputs, ghost calls: seq<Call>, row: Row, choice: Choice,
                   entryMap: map<Key, Entry>) returns (refusal: Option<BuildError>)
    requires Made(table, inputs, calls) && MapsEntries(entryMap, inputs.entries)
    modifies table
    ensures refusal == ChoiceRefusal(inputs, table.config, row, [], choice)
    ensures refusal.None? ==> Made(table, inputs, calls + ChoiceCall(inputs, row, choice))
  {
    var key := (row.layer, choice.name);
    if key in inputs.superseded {
      assert calls + [] == calls;
      return None;
    }
    var entry := if key in entryMap then Some(entryMap[key]) else None;
    refusal := AddOne(table, inputs, calls, CallFor(row, choice, entry));
  }

  lemma Regroup(x: seq<Call>, y: seq<Call>, z: seq<Call>)
    ensures x + y + z == x + (y + z)
  {
  }

  lemma NoneAndAll<T>(s: seq<T>)
    ensures s[..0] == [] && s[..|s|] == s
  {
  }

  lemma ChoicesUpTo(inputs: Inputs, config: Config, row: Row, i: nat)
    requires i < |row.choices|
    ensures var choices := row.choices;
      && ChoiceCalls(inputs, row, choices[..i + 1])
         == ChoiceCalls(inputs, row, choices[..i]) + ChoiceCall(inputs, row, choices[i])
      && (ChoicesRefusal(inputs, config, row, choices[..i]).None? ==>
            ChoicesRefusal(inputs, config, row, choices[..i + 1])
            == ChoiceRefusal(inputs, config, row, choices[..i], choices[i]))
  {
    assert row.choices[..i + 1][..i] == row.choices[..i];
  }

  lemma KeysUpTo(inputs: Inputs, row: Row, i: nat)
    requires i < |row.choices|
    ensures var choices, key := row.choices, (row.layer, row.choices[i].name);
      && NamesOf(choices[..i + 1]) == NamesOf(choices[..i]) + {choices[i].name}
      && ChoiceKeys(inputs, row, choices[..i + 1])
         == ChoiceKeys(inputs, row, choices[..i]) + if key in inputs.superseded then {} else {key}
  {
    assert row.choices[..i + 1][..i] == row.choices[..i];
  }

  /** One turn of the loop over a row's choices. */
  method TakeChoice(table: Table, inputs: Inputs, ghost calls: seq<Call>, row: Row, i: nat, names: set<string>,
                    entryMap: map<Key, Entry>) returns (refusal: Option<BuildError>)
    requires i < |row.choices| && names == NamesOf(row.choices[..i]) && MapsEntries(entryMap, inputs.entries)
    requires Made(table, inputs, calls + ChoiceCalls(inputs, row, row.choices[..i]))
    requires ChoicesRefusal(inputs, table.config, row, row.choices[..i]).None?
    modifies table
    ensures refusal == ChoicesRefusal(inputs, table.config, row, row.choices[..i + 1])
    ensures refusal.None? ==> Made(table, inputs, calls + ChoiceCalls(inputs, row, row.choices[..i + 1]))
  {
    ChoicesUpTo(inputs, table.config, row, i);
    if row.choices[i].name in names {
      return Some(DuplicateChoice);
    }
    ghost var made := ChoiceCalls(inputs, row, row.choices[..i]);
    Regroup(calls, made, ChoiceCall(inputs, row, row.choices[i]));
    refusal := AddChoice(table, inputs, calls + made, row, row.choices[i], entryMap);
  }

  /** The choices of one row; consumed grows by the keys of those that were added. */
  method AddChoices(table: Table, inputs: Inputs, ghost calls: seq<Call>, row: Row, entryMap: map<Key, Entry>,
                    consumed: set<Key>) returns (r: Result<set<Key>, BuildError>)
    requires Made(table, inputs, calls) && MapsEntries(entryMap, inputs.entries)
    modifies table
    ensures r.Failure? <==> ChoicesRefusal(inputs, table.config, row, row.choices).Some?
    ensures r.Failure? ==> ChoicesRefusal(inputs, table.config, row, row.choices) == Some(r.error)
    ensures r.Success? ==> Made(table, inputs, calls + ChoiceCalls(inputs, row, row.choices))
    ensures r.Success? ==> r.value == consumed + ChoiceKeys(inputs, row, row.choices)
  {
    var names: set<string> := {};
    var taken := consumed;
    var choices := row.choices;
    NoneAndAll(choices);
    assert calls + [] == calls;
    for i := 0 to |choices|
      invariant names == NamesOf(choices[..i]) && taken == consumed + ChoiceKeys(inputs, row, choices[..i])
      invariant Made(table, inputs, calls + ChoiceCalls(inputs, row, choices[..i]))
      invariant ChoicesRefusal(inputs, table.config, row, choices[..i]).None?
    {
      var refusal := TakeChoice(table, inputs, calls, row, i, names, entryMap);
      if refusal.Some? {
        EarlierChoiceRefused(inputs, table.config, row, choices, i + 1);
        return Failure(refusal.value);
      }
      KeysUpTo(inputs, row, i);
      names := names + {choices[i].name};
      if (row.layer, choices[i].name) !in inputs.superseded {
        taken := taken + {(row.layer, choices[i].name)};
      }
    }
    r := Success(taken);
  }

  method AddRow(table: Table, inputs: Inputs, ghost calls: seq<Call>, row: Row, entryMap: map<Key, Entry>,
                consumed: set<Key>) returns (r: Result<set<Key>, BuildError>)
    requires Made(table, inputs, calls) && MapsEntries(entryMap, inputs.entries)
    modifies table
    ensures r.Failure? <==> RowRefusal(inputs, table.config, row).Some?
    ensures r.Failure? ==> RowRefusal(inputs, table.config, row) == Some(r.error)
    ensures r.Success? ==> Made(table, inputs, calls + ChoiceCalls(inputs, row, row.choices))
    ensures r.Success? ==> r.value == consumed + ChoiceKeys(inputs, row, row.choices)
  {
    if row.status !in STATUSES {
      return Failure(UnknownStatus);
    }
    r := AddChoices(table, inputs, calls, row, entryMap, consumed);
  }

  lemma RowsUpTo(inputs: Inputs, config: Config, i: nat)
    requires i < |inputs.rows|
    ensures var rows := inputs.rows;
      && RowCalls(inputs, rows[..i + 1]) == RowCalls(inputs, rows[..i]) + ChoiceCalls(inputs, rows[i], rows[i].choices)
      && RowKeys(inputs, rows[..i + 1]) == RowKeys(inputs, rows[..i]) + ChoiceKeys(inputs, rows[i], rows[i].choices)
      && (RowsRefusal(inputs, config, rows[..i]).None? ==>
            RowsRefusal(inputs, config, rows[..i + 1]) == RowRefusal(inputs, config, rows[i]))
  {
    assert inputs.rows[..i + 1][..i] == inputs.rows[..i];
  }

  method AddRows(table: Table, inputs: Inputs, entryMap: map<Key, Entry>) returns (r: Result<set<Key>, BuildError>)
    requires Made(table, inputs, []) && MapsEntries(entryMap, inputs.entries)
    modifies table
    ensures r.Failure? <==> RowsRefusal(inputs, table.config, inputs.rows).Some?
    ensures r.Failure? ==> RowsRefusal(inputs, table.config, inputs.rows) == Some(r.error)
    ensures r.Success? ==> Made(table, inputs, RowCalls(inputs, inputs.rows)) && r.value == RowKeys(inputs, inputs.rows)
  {
    var rows := inputs.rows;
    var consumed: set<Key> := {};
    for i := 0 to |rows|
      invariant Made(table, inputs, RowCalls(inputs, rows[..i])) && consumed == RowKeys(inputs, rows[..i])
      invariant RowsRefusal(inputs, table.config, rows[..i]).None?
    {
      RowsUpTo(inputs, table.config, i);
      var added := AddRow(table, inputs, RowCalls(inputs, rows[..i]), rows[i], entryMap, consumed);
      if added.Failure? {
        EarlierRowRefused(inputs, table.config, rows, i + 1);
        return Failure(added.error);
      }
      consumed := added.value;
    }
    assert rows[..|rows|] == rows;
    r := Success(consumed);
  }

  lemma ExtrasUpTo(inputs: Inputs, config: Config, consumed: set<Key>, i: nat)
    requires i < |inputs.entries|
    ensures var entries := inputs.entries;
      && ExtraCalls(entries[..i + 1], consumed)
         == (if KeyOf(entries[i]) in consumed then ExtraCalls(entries[..i], consumed)
             else ExtraCalls(entries[..i], consumed) + [ExtraCall(entries[i])])
      && (ExtrasRefusal(inputs, config, entries[..i], consumed).None? ==>
            ExtrasRefusal(inputs, config, entries[..i + 1], consumed)
            == if KeyOf(entries[i]) in consumed then None
               else CallRefusal(config, inputs.reference, ExtraCall(entries[i])))
  {
    assert inputs.entries[..i + 1][..i] == inputs.entries[..i];
  }

  /** One turn of the loop over entry_map.items(). */
  method TakeExtra(table: Table, inputs: Inputs, ghost calls: seq<Call>, consumed: set<Key>, i: nat)
    returns (refusal: Option<BuildError>)
    requires i < |inputs.entries| && Made(table, inputs, calls + ExtraCalls(inputs.entries[..i], consumed))
    requires ExtrasRefusal(inputs, table.config, inputs.entries[..i], consumed).None?
    modifies table
    ensures refusal == ExtrasRefusal(inputs, table.config, inputs.entries[..i + 1], consumed)
    ensures refusal.None? ==> Made(table, inputs, calls + ExtraCalls(inputs.entries[..i + 1], consumed))
  {
    ExtrasUpTo(inputs, table.config, consumed, i);
    if KeyOf(inputs.entries[i]) in consumed {
      return None;
    }
    var call := ExtraCall(inputs.entries[i]);
    ghost var made := ExtraCalls(inputs.entries[..i], consumed);
    Regroup(calls, made, [call]);
    refusal := AddOne(table, inputs, calls + made, call);
  }

  method AddExtras(table: Table, inputs: Inputs, ghost calls: seq<Call>, consumed: set<Key>)
    returns (refusal: Option<BuildError>)
    requires Made(table, inputs, calls)
    modifies table
    ensures refusal == ExtrasRefusal(inputs, table.config, inputs.entries, consumed)
    ensures refusal.None? ==> Made(table, inputs, calls + ExtraCalls(inputs.entries, consumed))
  {
    var entries := inputs.entries;
    assert calls + ExtraCalls(entries[..0], consumed) == calls;
    for i := 0 to |entries|
      invariant Made(table, inputs, calls + ExtraCalls(entries[..i], consumed))
      invariant ExtrasRefusal(inputs, table.config, entries[..i], consumed).None?
    {
      refusal := TakeExtra(table, inputs, calls, consumed, i);
      if refusal.Some? {
        EarlierExtraRefused(inputs, table.config, entries, consumed, i + 1);
        return;
      }
    }
    assert entries[..|entries|] == entries;
    refusal := None;
  }

  /** The configuration of the build: the packages are those of the entries. */
  ghost predicate Configures(config: Config, inputs: Inputs) {
    && config.owners == inputs.owners && config.reuses == inputs.reuses && config.digest == inputs.digest
    && forall key :: (if key in config.packages then config.packages[key] else []) == PackagesAt(inputs.entries, key)
  }

  /** The build is refused with the first requirement that does not hold; otherwise the table is what the calls of the
      rows and of the remaining entries, in order, make of the empty one. */
  method BuildTools(inputs: Inputs) returns (r: Result<Table, BuildError>, config: Config)
    requires Injective(inputs.digest)
    ensures Configures(config, inputs)
    ensures r.Failure? <==> BuildRefusal(inputs, config).Some?
    ensures r.Failure? ==> BuildRefusal(inputs, config) == Some(r.error)
    ensures r.Success? ==> fresh(r.value) && r.value.config == config && Made(r.value, inputs, CallsOf(inputs))
  {
    var packages := GatherPackages(inputs.entries);
    config := Config(inputs.owners, inputs.reuses, packages, inputs.digest);
    var mapped := MapEntries(inputs);
    if mapped.Failure? {
      return Failure(mapped.error), config;
    }
    var table := new Table(config, inputs.reference);
    var added := AddRows(table, inputs, mapped.value);
    if added.Failure? {
      return Failure(added.error), config;
    }
    var refusal := AddExtras(table, inputs, RowCalls(inputs, inputs.rows), added.value);
    r := if refusal.Some? then Failure(refusal.value) else Success(table);
  }

}
