/** What the filled tool table holds: exactly one source per selection, and every profile entry in exactly one tool. */
module ToolBuildLaws {
  import opened Wrappers
  import opened ToolTable
  import opened ToolBuild
  import opened ToolMerge

  // ---------------------------------------------------------------- a table holds what its calls brought

  /** How many of the calls bring the source. */
  function SourceCount(calls: seq<Call>, s: Source): nat {
    if calls == [] then 0
    else SourceCount(calls[..|calls| - 1], s) + if SourceOf(calls[|calls| - 1]) == s then 1 else 0
  }

  /** How many of the calls bring the entry. */
  function EntryCount(calls: seq<Call>, e: Entry): nat {
    if calls == [] then 0
    else EntryCount(calls[..|calls| - 1], e) + if calls[|calls| - 1].entry == Some(e) then 1 else 0
  }

  lemma {:induction false} SourcesGain(config: Config, start: State, calls: seq<Call>, s: Source)
    requires OneOrder(start.tools, start.order)
    ensures OneOrder(StateAfter(config, start, calls).tools, StateAfter(config, start, calls).order)
    ensures SourcesIn(StateAfter(config, start, calls))[s] == SourcesIn(start)[s] + SourceCount(calls, s)
  {
    if calls != [] {
      var init, last := calls[..|calls| - 1], calls[|calls| - 1];
      SourcesGain(config, start, init, s);
      OneSourceGain(config, StateAfter(config, start, init), last, s);
    }
  }

  lemma OneSourceGain(config: Config, before: State, call: Call, s: Source)
    requires OneOrder(before.tools, before.order)
    ensures var after := Added(before, Bind(config, call));
      && OneOrder(after.tools, after.order)
      && SourcesIn(after)[s] == SourcesIn(before)[s] + (if SourceOf(call) == s then 1 else 0)
  {
    AddedGains(before, Bind(config, call));
  }

  lemma {:induction false} SourcesConcat(x: seq<Call>, y: seq<Call>, s: Source)
    ensures SourceCount(x + y, s) == SourceCount(x, s) + SourceCount(y, s)
  {
    if y == [] {
      assert x + y == x;
    } else {
      SourcesConcat(x, y[..|y| - 1], s);
      assert (x + y)[..|x + y| - 1] == x + y[..|y| - 1];
    }
  }

  lemma {:induction false} EntriesGain(config: Config, start: State, calls: seq<Call>, e: Entry)
    requires OneOrder(start.tools, start.order)
    ensures OneOrder(StateAfter(config, start, calls).tools, StateAfter(config, start, calls).order)
    ensures EntriesIn(StateAfter(config, start, calls))[e] == EntriesIn(start)[e] + EntryCount(calls, e)
  {
    if calls != [] {
      var init, last := calls[..|calls| - 1], calls[|calls| - 1];
      EntriesGain(config, start, init, e);
      OneEntryGain(config, StateAfter(config, start, init), last, e);
    }
  }

  lemma OneEntryGain(config: Config, before: State, call: Call, e: Entry)
    requires OneOrder(before.tools, before.order)
    ensures var after := Added(before, Bind(config, call));
      && OneOrder(after.tools, after.order)
      && EntriesIn(after)[e] == EntriesIn(before)[e] + (if call.entry == Some(e) then 1 else 0)
  {
    AddedGains(before, Bind(config, call));
  }

  lemma {:induction false} EntriesConcat(x: seq<Call>, y: seq<Call>, e: Entry)
    ensures EntryCount(x + y, e) == EntryCount(x, e) + EntryCount(y, e)
  {
    if y == [] {
      assert x + y == x;
    } else {
      EntriesConcat(x, y[..|y| - 1], e);
      assert (x + y)[..|x + y| - 1] == x + y[..|y| - 1];
    }
  }

  // ---------------------------------------------------------------- a build that is not refused repeats nothing

  /** A choice's name occurs once in its row. */
  predicate DistinctChoices(choices: seq<Choice>) {
    forall i, j | 0 <= i < j < |choices| :: choices[i].name != choices[j].name
  }

  predicate NoneRepeats(rows: seq<Row>) {
    rows == [] || (NoneRepeats(rows[..|rows| - 1]) && DistinctChoices(rows[|rows| - 1].choices))
  }

  predicate DistinctEntries(entries: seq<Entry>) {
    forall i, j | 0 <= i < j < |entries| :: KeyOf(entries[i]) != KeyOf(entries[j])
  }

  /** The selection is read into a dictionary by layer. */
  predicate DistinctLayers(rows: seq<Row>) {
    forall i, j | 0 <= i < j < |rows| :: rows[i].layer != rows[j].layer
  }

  lemma {:induction false} EntryAtFinds(entries: seq<Entry>, key: Key)
    ensures EntryAt(entries, key).Some? <==> exists i :: 0 <= i < |entries| && KeyOf(entries[i]) == key
    ensures EntryAt(entries, key).Some? ==> KeyOf(EntryAt(entries, key).value) == key
  {
    if entries != [] {
      var init := entries[..|entries| - 1];
      EntryAtFinds(init, key);
      assert forall i | 0 <= i < |init| :: init[i] == entries[i];
    }
  }

  lemma {:induction false} NamesHave(choices: seq<Choice>, i: nat)
    requires i < |choices|
    ensures choices[i].name in NamesOf(choices)
  {
    if i < |choices| - 1 {
      NamesHave(choices[..|choices| - 1], i);
    }
  }

  lemma {:induction false} EntriesDiffer(inputs: Inputs, entries: seq<Entry>)
    requires EntriesRefusal(inputs, entries).None?
    ensures DistinctEntries(entries)
  {
    if entries != [] {
      var init, last := entries[..|entries| - 1], entries[|entries| - 1];
      EntriesDiffer(inputs, init);
      EntryAtFinds(init, KeyOf(last));
      assert forall i | 0 <= i < |init| :: init[i] == entries[i];
    }
  }

  lemma {:induction false} ChoicesDiffer(inputs: Inputs, config: Config, row: Row, choices: seq<Choice>)
    requires ChoicesRefusal(inputs, config, row, choices).None?
    ensures DistinctChoices(choices)
  {
    if choices != [] {
      var init, last := choices[..|choices| - 1], choices[|choices| - 1];
      ChoicesDiffer(inputs, config, row, init);
      forall i | 0 <= i < |init| ensures choices[i].name != last.name {
        NamesHave(init, i);
      }
    }
  }

  lemma {:induction false} RowsRepeatNothing(inputs: Inputs, config: Config, rows: seq<Row>)
    requires RowsRefusal(inputs, config, rows).None?
    ensures NoneRepeats(rows)
  {
    if rows != [] {
      RowsRepeatNothing(inputs, config, rows[..|rows| - 1]);
      ChoicesDiffer(inputs, config, rows[|rows| - 1], rows[|rows| - 1].choices);
    }
  }

  // ---------------------------------------------------------------- exactly one source

  predicate Chosen(choices: seq<Choice>, name: string) {
    exists j :: 0 <= j < |choices| && choices[j].name == name
  }

  /** The layer's row selects the name. */
  predicate Selects(rows: seq<Row>, layer: string, name: string) {
    exists i :: 0 <= i < |rows| && rows[i].layer == layer && Chosen(rows[i].choices, name)
  }

  /** The row's layer selects the name and the pick stands. */
  predicate Stands(inputs: Inputs, rows: seq<Row>, layer: string, name: string) {
    (layer, name) !in inputs.superseded && Selects(rows, layer, name)
  }

  lemma ChosenSnoc(init: seq<Choice>, last: Choice, name: string)
    ensures Chosen(init + [last], name) <==> Chosen(init, name) || last.name == name
  {
    var all := init + [last];
    assert all[|init|] == last && forall i | 0 <= i < |init| :: all[i] == init[i];
  }

  lemma SelectsSnoc(init: seq<Row>, last: Row, layer: string, name: string)
    ensures Selects(init + [last], layer, name)
       <==> Selects(init, layer, name) || (last.layer == layer && Chosen(last.choices, name))
  {
    var all := init + [last];
    assert all[|init|] == last && forall i | 0 <= i < |init| :: all[i] == init[i];
  }

  lemma OneCall(call: Call)
    ensures forall s :: SourceCount([call], s) == if SourceOf(call) == s then 1 else 0
    ensures forall e :: EntryCount([call], e) == if call.entry == Some(e) then 1 else 0
  {
    assert [call][..0] == [];
  }

  lemma OneChoiceSource(inputs: Inputs, row: Row, choice: Choice, s: Source)
    ensures SourceCount(ChoiceCall(inputs, row, choice), s) ==
      if s == Source(row.layer, choice.name, false) && (row.layer, s.name) !in inputs.superseded then 1 else 0
  {
    OneCall(CallFor(row, choice, EntryAt(inputs.entries, (row.layer, choice.name))));
  }

  lemma LastIsNew(init: seq<Choice>, last: Choice)
    requires DistinctChoices(init + [last])
    ensures DistinctChoices(init) && !Chosen(init, last.name)
  {
    var all := init + [last];
    assert all[|init|] == last && forall i | 0 <= i < |init| :: all[i] == init[i];
  }

  lemma {:induction false} ChoiceCounted(inputs: Inputs, row: Row, choices: seq<Choice>, s: Source)
    requires DistinctChoices(choices)
    ensures SourceCount(ChoiceCalls(inputs, row, choices), s) ==
      if s.layer == row.layer && !s.fromProfile && (row.layer, s.name) !in inputs.superseded && Chosen(choices, s.name)
      then 1 else 0
  {
    if choices != [] {
      var init, last := choices[..|choices| - 1], choices[|choices| - 1];
      assert choices == init + [last];
      LastIsNew(init, last);
      ChoiceCounted(inputs, row, init, s);
      ChosenSnoc(init, last, s.name);
      SourcesConcat(ChoiceCalls(inputs, row, init), ChoiceCall(inputs, row, last), s);
      OneChoiceSource(inputs, row, last, s);
    }
  }

  lemma {:induction false} RowCounted(inputs: Inputs, rows: seq<Row>, s: Source)
    requires DistinctLayers(rows) && NoneRepeats(rows)
    ensures SourceCount(RowCalls(inputs, rows), s)
         == if !s.fromProfile && Stands(inputs, rows, s.layer, s.name) then 1 else 0
  {
    if rows != [] {
      var init, last := rows[..|rows| - 1], rows[|rows| - 1];
      RowCounted(inputs, init, s);
      assert rows == init + [last];
      SelectsSnoc(init, last, s.layer, s.name);
      ChoiceCounted(inputs, last, last.choices, s);
      SourcesConcat(RowCalls(inputs, init), ChoiceCalls(inputs, last, last.choices), s);
    }
  }

  lemma {:induction false} ChoiceKeysHave(inputs: Inputs, row: Row, choices: seq<Choice>, key: Key)
    ensures key in ChoiceKeys(inputs, row, choices)
       <==> key.0 == row.layer && key !in inputs.superseded && Chosen(choices, key.1)
  {
    if choices != [] {
      var init, last := choices[..|choices| - 1], choices[|choices| - 1];
      ChoiceKeysHave(inputs, row, init, key);
      assert choices == init + [last];
      ChosenSnoc(init, last, key.1);
    }
  }

  lemma {:induction false} RowKeysHave(inputs: Inputs, rows: seq<Row>, key: Key)
    ensures key in RowKeys(inputs, rows) <==> Stands(inputs, rows, key.0, key.1)
  {
    if rows != [] {
      var init, last := rows[..|rows| - 1], rows[|rows| - 1];
      RowKeysHave(inputs, init, key);
      assert rows == init + [last];
      SelectsSnoc(init, last, key.0, key.1);
      ChoiceKeysHave(inputs, last, last.choices, key);
    }
  }

  /** The profile has an entry for the name in the layer. */
  predicate Listed(entries: seq<Entry>, layer: string, name: string) {
    exists i :: 0 <= i < |entries| && KeyOf(entries[i]) == (layer, name)
  }

  lemma {:induction false} ExtraCounted(entries: seq<Entry>, consumed: set<Key>, s: Source)
    requires DistinctEntries(entries)
    ensures SourceCount(ExtraCalls(entries, consumed), s) ==
      if s.fromProfile && (s.layer, s.name) !in consumed && Listed(entries, s.layer, s.name) then 1 else 0
  {
    if entries != [] {
      var init, last := entries[..|entries| - 1], entries[|entries| - 1];
      ExtraCounted(init, consumed, s);
      ListedSnoc(init, last, s.layer, s.name);
      assert entries == init + [last];
      OneCall(ExtraCall(last));
      SourcesConcat(ExtraCalls(init, consumed), [ExtraCall(last)], s);
    }
  }

  lemma ListedSnoc(init: seq<Entry>, last: Entry, layer: string, name: string)
    ensures Listed(init + [last], layer, name) <==> Listed(init, layer, name) || KeyOf(last) == (layer, name)
  {
    var all := init + [last];
    assert all[|init|] == last && forall i | 0 <= i < |init| :: all[i] == init[i];
  }

  /** The table of a build that is not refused. */
  ghost predicate Filled(inputs: Inputs, config: Config, t: State) {
    && DistinctLayers(inputs.rows) && BuildRefusal(inputs, config).None?
    && t == StateAfter(config, Start(inputs.reference), CallsOf(inputs))
  }

  lemma FilledIsOrdered(inputs: Inputs, config: Config, t: State)
    requires Filled(inputs, config, t)
    ensures OneOrder(t.tools, t.order)
  {
    SourcesGain(config, Start(inputs.reference), CallsOf(inputs), Source("", "", false));
  }

  lemma FilledRepeatsNothing(inputs: Inputs, config: Config, t: State)
    requires Filled(inputs, config, t)
    ensures DistinctEntries(inputs.entries) && NoneRepeats(inputs.rows)
  {
    EntriesDiffer(inputs, inputs.entries);
    RowsRepeatNothing(inputs, config, inputs.rows);
  }

  lemma SourceCalledOnce(inputs: Inputs, s: Source)
    requires DistinctLayers(inputs.rows) && NoneRepeats(inputs.rows) && DistinctEntries(inputs.entries)
    ensures SourceCount(CallsOf(inputs), s) ==
      var stands := Stands(inputs, inputs.rows, s.layer, s.name);
      if (!s.fromProfile && stands) || (s.fromProfile && !stands && Listed(inputs.entries, s.layer, s.name))
      then 1 else 0
  {
    var consumed := RowKeys(inputs, inputs.rows);
    RowCounted(inputs, inputs.rows, s);
    RowKeysHave(inputs, inputs.rows, (s.layer, s.name));
    ExtraCounted(inputs.entries, consumed, s);
    SourcesConcat(RowCalls(inputs, inputs.rows), ExtraCalls(inputs.entries, consumed), s);
  }

  /** Each choice that stands leaves exactly one selection source, each profile entry that no standing choice names
      leaves exactly one of its own, and there are no others. */
  lemma SourcesAreExact(inputs: Inputs, config: Config, t: State, s: Source)
    requires Filled(inputs, config, t)
    ensures forall k | k in t.order :: k in t.tools
    ensures SourcesIn(t)[s] ==
      var stands := Stands(inputs, inputs.rows, s.layer, s.name);
      if (!s.fromProfile && stands) || (s.fromProfile && !stands && Listed(inputs.entries, s.layer, s.name))
      then 1 else 0
  {
    FilledIsOrdered(inputs, config, t);
    FilledRepeatsNothing(inputs, config, t);
    SourcesGain(config, Start(inputs.reference), CallsOf(inputs), s);
    SourceCalledOnce(inputs, s);
  }

  // ---------------------------------------------------------------- every entry in exactly one tool

  lemma OneChoiceEntry(inputs: Inputs, row: Row, choice: Choice, e: Entry)
    ensures EntryCount(ChoiceCall(inputs, row, choice), e) ==
      if KeyOf(e) == (row.layer, choice.name) && KeyOf(e) !in inputs.superseded
        && EntryAt(inputs.entries, KeyOf(e)) == Some(e) then 1 else 0
  {
    var found := EntryAt(inputs.entries, (row.layer, choice.name));
    EntryAtFinds(inputs.entries, (row.layer, choice.name));
    OneCall(CallFor(row, choice, found));
  }

  lemma {:induction false} ChoiceEntryCounted(inputs: Inputs, row: Row, choices: seq<Choice>, e: Entry)
    requires DistinctChoices(choices)
    ensures EntryCount(ChoiceCalls(inputs, row, choices), e) ==
      if e.layer == row.layer && KeyOf(e) !in inputs.superseded && Chosen(choices, e.name)
        && EntryAt(inputs.entries, KeyOf(e)) == Some(e) then 1 else 0
  {
    if choices != [] {
      var init, last := choices[..|choices| - 1], choices[|choices| - 1];
      assert choices == init + [last];
      LastIsNew(init, last);
      ChoiceEntryCounted(inputs, row, init, e);
      ChosenSnoc(init, last, e.name);
      EntriesConcat(ChoiceCalls(inputs, row, init), ChoiceCall(inputs, row, last), e);
      OneChoiceEntry(inputs, row, last, e);
    }
  }

  lemma {:induction false} RowEntryCounted(inputs: Inputs, rows: seq<Row>, e: Entry)
    requires DistinctLayers(rows) && NoneRepeats(rows)
    ensures EntryCount(RowCalls(inputs, rows), e) ==
      if Stands(inputs, rows, e.layer, e.name) && EntryAt(inputs.entries, KeyOf(e)) == Some(e) then 1 else 0
  {
    if rows != [] {
      var init, last := rows[..|rows| - 1], rows[|rows| - 1];
      RowEntryCounted(inputs, init, e);
      assert rows == init + [last];
      SelectsSnoc(init, last, e.layer, e.name);
      ChoiceEntryCounted(inputs, last, last.choices, e);
      EntriesConcat(RowCalls(inputs, init), ChoiceCalls(inputs, last, last.choices), e);
    }
  }

  lemma {:induction false} ExtraEntryCounted(entries: seq<Entry>, consumed: set<Key>, e: Entry)
    ensures EntryCount(ExtraCalls(entries, consumed), e) == if KeyOf(e) in consumed then 0 else multiset(entries)[e]
  {
    if entries != [] {
      var init, last := entries[..|entries| - 1], entries[|entries| - 1];
      ExtraEntryCounted(init, consumed, e);
      assert entries == init + [last];
      OneCall(ExtraCall(last));
      EntriesConcat(ExtraCalls(init, consumed), [ExtraCall(last)], e);
    }
  }

  lemma {:induction false} EntryListedOnce(entries: seq<Entry>, e: Entry)
    requires DistinctEntries(entries)
    ensures multiset(entries)[e] == if EntryAt(entries, KeyOf(e)) == Some(e) then 1 else 0
  {
    if entries != [] {
      var init, last := entries[..|entries| - 1], entries[|entries| - 1];
      EntryListedOnce(init, e);
      EntryAtFinds(init, KeyOf(e));
      assert entries == init + [last];
      assert forall i | 0 <= i < |init| :: init[i] == entries[i];
    }
  }

  /** The tools hold the profile's entries and nothing else, each as often as the profile does. */
  lemma EntriesAreKept(inputs: Inputs, config: Config, t: State)
    requires Filled(inputs, config, t)
    ensures forall k | k in t.order :: k in t.tools
    ensures EntriesIn(t) == multiset(inputs.entries)
  {
    FilledIsOrdered(inputs, config, t);
    FilledRepeatsNothing(inputs, config, t);
    forall e: Entry
      ensures EntriesIn(t)[e] == multiset(inputs.entries)[e]
    {
      EntriesGain(config, Start(inputs.reference), CallsOf(inputs), e);
      EntryCalledOnce(inputs, e);
    }
  }

  lemma EntryCalledOnce(inputs: Inputs, e: Entry)
    requires DistinctLayers(inputs.rows) && NoneRepeats(inputs.rows) && DistinctEntries(inputs.entries)
    ensures EntryCount(CallsOf(inputs), e) == multiset(inputs.entries)[e]
  {
    var consumed := RowKeys(inputs, inputs.rows);
    EntriesConcat(RowCalls(inputs, inputs.rows), ExtraCalls(inputs.entries, consumed), e);
    RowEntryCounted(inputs, inputs.rows, e);
    RowKeysHave(inputs, inputs.rows, KeyOf(e));
    ExtraEntryCounted(inputs.entries, consumed, e);
    EntryListedOnce(inputs.entries, e);
  }

  lemma {:induction false} GatheredOnce<T>(
      tools: map<Identity, Tool>, order: seq<Identity>, part: Tool -> seq<T>, x: T) returns (k: Identity)
    requires (forall j | j in order :: j in tools) && multiset(Gathered(tools, order, part))[x] == 1
    ensures k in order && multiset(part(tools[k]))[x] == 1
    ensures forall j | j in order && j != k :: x !in part(tools[j])
  {
    var init, last := order[..|order| - 1], order[|order| - 1];
    assert order == init + [last];
    if x in part(tools[last]) {
      k := last;
      GatheredNowhere(tools, init, part, x);
    } else {
      k := GatheredOnce(tools, init, part, x);
    }
  }

  lemma {:induction false} GatheredNowhere<T>(
      tools: map<Identity, Tool>, order: seq<Identity>, part: Tool -> seq<T>, x: T)
    requires (forall j | j in order :: j in tools) && x !in Gathered(tools, order, part)
    ensures forall j | j in order :: x !in part(tools[j])
  {
    if order != [] {
      GatheredNowhere(tools, order[..|order| - 1], part, x);
      assert order == order[..|order| - 1] + [order[|order| - 1]];
    }
  }

  /** Every profile entry ends in exactly one tool, once, and every blocking gap it supplies is published there. */
  lemma EveryEntryReachesOneTool(inputs: Inputs, config: Config, t: State, i: nat) returns (k: Identity)
    requires Filled(inputs, config, t) && i < |inputs.entries|
    ensures k in t.tools && multiset(t.tools[k].entries)[inputs.entries[i]] == 1
    ensures forall j | j in t.tools && j != k :: inputs.entries[i] !in t.tools[j].entries
    ensures forall gap | gap in inputs.entries[i].gaps :: gap in Publish(config, t.tools[k]).gaps
  {
    var e := inputs.entries[i];
    FilledIsOrdered(inputs, config, t);
    FilledRepeatsNothing(inputs, config, t);
    EntriesAreKept(inputs, config, t);
    EntryListedOnce(inputs.entries, e);
    assert e in inputs.entries;
    k := GatheredOnce(t.tools, t.order, (tool: Tool) => tool.entries, e);
    assert e in t.tools[k].entries;
    var at :| 0 <= at < |t.tools[k].entries| && t.tools[k].entries[at] == e;
    forall gap | gap in e.gaps
      ensures gap in Publish(config, t.tools[k]).gaps
    {
      SuppliedGapsSurvive(config, t.tools[k], at, gap);
    }
  }
}
