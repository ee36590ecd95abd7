/** ledger_totals of observability/claude_usage_metrics.py, proved against totals defined row by row. */
module Ledger {
  import opened Wrappers
  import opened Json
  import opened Strings
  import opened Capture

  /** None is the unattributed column. */
  type Key = Option<string>

  datatype Column = Column(spend: real, pending: real, uncertain: real)

  const EMPTY_COLUMN: Column := Column(0.0, 0.0, 0.0)

  /** A ledger line as the loop sees it. own is the settlement's own key, None when its alias is not acceptable. */
  datatype Row =
    | Skip
    | Invalid
    | Debit(ref: string, key: Key, amount: real)
    | Settle(ref: string, own: Option<Key>, amount: real, unknown: bool)

  datatype LedgerError = InvalidLedger

  // ---------------------------------------------------------------- reading a row

  /** One to 64 plain characters starting with a letter or digit, and not with sk- in any case. */
  predicate AcceptableAlias(s: string) {
    && 1 <= |s| <= 64 && IsAlnum(s[0])
    && (forall i | 0 <= i < |s| :: IsAlnum(s[i]) || s[i] in {'_', '.', '-'})
    && !(|s| >= 3 && s[0] in {'s', 'S'} && s[1] in {'k', 'K'} && s[2] == '-')
  }

  /** alias_hash: None for a refused alias, Some(None) for no alias. */
  function AliasHash(alias: Json, hash: string -> string): Option<Key> {
    match alias
    case Null => Some(None)
    case Str(s) => if AcceptableAlias(s) then Some(Some(hash(s))) else None
    case _ => None
  }

  /** The key a row names, or the legacy key when it names none. */
  function OwnKey(row: Fields, hash: string -> string, legacy: Key): Option<Key> {
    match AliasHash(Get(row, "key"), hash)
    case Some(None) => Some(legacy)
    case other => other
  }

  function ReadRow(line: Line, hash: string -> string, legacy: Key): Row {
    match line
    case Blank => Skip
    case Unparsable => Invalid
    case Parsed(Obj(row)) =>
      var kind, ref := Get(row, "kind"), Get(row, "ref");
      if kind !in {Str("debit"), Str("settle"), Str("void")} then Skip
      else if !ref.Str? || ref.str == "" || |ref.str| > 512 then Invalid
      else if kind == Str("debit") then
        (match (OwnKey(row, hash, legacy), Number(Get(row, "max_usd")))
         case (Some(key), Some(amount)) => Debit(ref.str, key, amount)
         case _ => Invalid)
      else
        (match SignedNumber(Get(row, "actual_usd"))
         case Some(amount) =>
           Settle(ref.str, OwnKey(row, hash, legacy), amount, Get(row, "outcome") == Str("unknown"))
         case None => Invalid)
    case Parsed(_) => Invalid
  }

  function ReadRows(lines: seq<Line>, hash: string -> string, legacy: Key): (rows: seq<Row>)
    ensures |rows| == |lines|
    ensures forall i | 0 <= i < |lines| :: rows[i] == ReadRow(lines[i], hash, legacy)
  {
    seq(|lines|, i requires 0 <= i < |lines| => ReadRow(lines[i], hash, legacy))
  }

  // ---------------------------------------------------------------- what the totals mean

  predicate Mentions(row: Row, ref: string) {
    (row.Debit? || row.Settle?) && row.ref == ref
  }

  predicate AnyMentions(rows: seq<Row>, ref: string) {
    exists i | 0 <= i < |rows| :: Mentions(rows[i], ref)
  }

  /** The key of the latest debit of a reference. */
  function LatestDebit(rows: seq<Row>, ref: string): Option<Key> {
    if rows == [] then None
    else
      var last := rows[|rows| - 1];
      if last.Debit? && last.ref == ref then Some(last.key) else LatestDebit(rows[..|rows| - 1], ref)
  }

  /** The key a settlement is charged to: its debit's, else its own. */
  function Attributed(earlier: seq<Row>, row: Row): Key
    requires row.Settle?
  {
    match LatestDebit(earlier, row.ref)
    case Some(key) => key
    case None => row.own.GetOr(None)
  }

  predicate RowOk(earlier: seq<Row>, row: Row) {
    row != Invalid && (row.Settle? && LatestDebit(earlier, row.ref).None? ==> row.own.Some?)
  }

  predicate Valid(rows: seq<Row>) {
    rows == [] || (Valid(rows[..|rows| - 1]) && RowOk(rows[..|rows| - 1], rows[|rows| - 1]))
  }

  function If(b: bool, x: real): real { if b then x else 0.0 }

  function Spend(rows: seq<Row>, key: Key): real {
    if rows == [] then 0.0
    else
      var init, last := rows[..|rows| - 1], rows[|rows| - 1];
      Spend(init, key) + If(last.Settle? && Attributed(init, last) == key, if last.Settle? then last.amount else 0.0)
  }

  function Uncertain(rows: seq<Row>, key: Key): real {
    if rows == [] then 0.0
    else
      var init, last := rows[..|rows| - 1], rows[|rows| - 1];
      Uncertain(init, key)
      + If(last.Settle? && last.unknown && Attributed(init, last) == key, if last.Settle? then last.amount else 0.0)
  }

  /** The debits of a key that no later row of the same reference replaces, settles or voids. */
  function Pending(rows: seq<Row>, key: Key): real {
    if rows == [] then 0.0
    else
      var first, rest := rows[0], rows[1..];
      If(first.Debit? && first.key == key && !AnyMentions(rest, first.ref), if first.Debit? then first.amount else 0.0)
      + Pending(rest, key)
  }

  /** The columns that exist: every debit's key and every settlement's attributed key. */
  function Keys(rows: seq<Row>): set<Key> {
    if rows == [] then {}
    else
      var init, last := rows[..|rows| - 1], rows[|rows| - 1];
      Keys(init) + match last
                   case Debit(_, key, _) => {key}
                   case Settle(_, _, _, _) => {Attributed(init, last)}
                   case _ => {}
  }

  predicate Totalled(rows: seq<Row>, totals: map<Key, Column>) {
    && totals.Keys == Keys(rows)
    && forall k | k in totals :: totals[k] == Column(Spend(rows, k), Pending(rows, k), Uncertain(rows, k))
  }

  // ---------------------------------------------------------------- the open reservations

  /** The pending entry of a reference: its latest row, if that is a debit. */
  function Open(rows: seq<Row>, ref: string): Option<(Key, real)> {
    if rows == [] then None
    else
      var last := rows[|rows| - 1];
      if !Mentions(last, ref) then Open(rows[..|rows| - 1], ref)
      else if last.Debit? then Some((last.key, last.amount))
      else None
  }

  function Part(entry: Option<(Key, real)>, key: Key): real {
    if entry.Some? && entry.value.0 == key then entry.value.1 else 0.0
  }

  ghost function SumOpen(open: map<string, (Key, real)>, key: Key): real {
    if open == map[] then 0.0
    else
      var ref :| ref in open;
      Part(Some(open[ref]), key) + SumOpen(open - {ref}, key)
  }

  lemma {:induction false} SumOpenRemove(open: map<string, (Key, real)>, ref: string, key: Key)
    requires ref in open
    ensures SumOpen(open, key) == Part(Some(open[ref]), key) + SumOpen(open - {ref}, key)
    decreases |open|
  {
    var pick :| pick in open && SumOpen(open, key) == Part(Some(open[pick]), key) + SumOpen(open - {pick}, key);
    if pick != ref {
      SumOpenRemove(open - {pick}, ref, key);
      SumOpenRemove(open - {ref}, pick, key);
      assert open - {pick} - {ref} == open - {ref} - {pick};
    }
  }

  lemma SumOpenSet(open: map<string, (Key, real)>, ref: string, entry: (Key, real), key: Key)
    ensures SumOpen(open[ref := entry], key) == SumOpen(open - {ref}, key) + Part(Some(entry), key)
    ensures SumOpen(open - {ref}, key) == SumOpen(open, key) - Part(if ref in open then Some(open[ref]) else None, key)
  {
    SumOpenRemove(open[ref := entry], ref, key);
    assert open[ref := entry] - {ref} == open - {ref};
    if ref in open {
      SumOpenRemove(open, ref, key);
    } else {
      assert open - {ref} == open;
    }
  }

  lemma {:induction false} OpenFromFront(first: Row, rest: seq<Row>, ref: string)
    ensures Open([first] + rest, ref) ==
            if AnyMentions(rest, ref) then Open(rest, ref) else Open([first], ref)
  {
    var rows := [first] + rest;
    if rest != [] {
      var init, last := rest[..|rest| - 1], rest[|rest| - 1];
      assert rows[..|rows| - 1] == [first] + init;
      OpenFromFront(first, init, ref);
      assert AnyMentions(rest, ref) <==> AnyMentions(init, ref) || Mentions(last, ref) by {
        assert forall i | 0 <= i < |init| :: rest[i] == init[i];
      }
    } else {
      assert rows == [first];
    }
  }

  lemma OpenNeedsMention(rows: seq<Row>, ref: string)
    requires !AnyMentions(rows, ref)
    ensures Open(rows, ref) == None
  {
    if rows != [] {
      assert forall i | 0 <= i < |rows| - 1 :: rows[..|rows| - 1][i] == rows[i];
      OpenNeedsMention(rows[..|rows| - 1], ref);
    }
  }

  /** One more row closes what its reference had open and, if it is a debit, opens its own amount. */
  lemma {:induction false} PendingSnoc(rows: seq<Row>, row: Row, key: Key)
    ensures Pending(rows + [row], key) == Pending(rows, key)
      - (if row.Debit? || row.Settle? then Part(Open(rows, row.ref), key) else 0.0)
      + (if row.Debit? then Part(Some((row.key, row.amount)), key) else 0.0)
  {
    if rows == [] {
      assert rows + [row] == [row];
      assert [row][1..] == [];
    } else {
      var first, rest := rows[0], rows[1..];
      assert (rows + [row])[0] == first && (rows + [row])[1..] == rest + [row];
      PendingSnoc(rest, row, key);
      assert rows == [first] + rest;
      if row.Debit? || row.Settle? {
        OpenFromFront(first, rest, row.ref);
        if !AnyMentions(rest, row.ref) {
          OpenNeedsMention(rest, row.ref);
          assert [first][..0] == [];
        }
      }
      if first.Debit? {
        MentionsSnoc(rest, row, first.ref);
      }
    }
  }

  lemma MentionsSnoc(rows: seq<Row>, row: Row, ref: string)
    ensures AnyMentions(rows + [row], ref) <==> AnyMentions(rows, ref) || Mentions(row, ref)
  {
    var all := rows + [row];
    assert all[|rows|] == row;
    assert forall i | 0 <= i < |rows| :: all[i] == rows[i];
  }

  // ---------------------------------------------------------------- the streaming loop

  datatype Running = Running(
    totals: map<Key, Column>,
    debitKeys: map<string, Key>,
    pending: map<string, (Key, real)>)

  function ColumnOf(totals: map<Key, Column>, key: Key): Column {
    if key in totals then totals[key] else EMPTY_COLUMN
  }

  /** The loop invariant of ledger_totals. */
  ghost predicate Streaming(rows: seq<Row>, s: Running) {
    && s.totals.Keys == Keys(rows)
    && (forall k :: ColumnOf(s.totals, k) == Column(Spend(rows, k), 0.0, Uncertain(rows, k)))
    && (forall ref :: Lookup(s.debitKeys, ref) == LatestDebit(rows, ref))
    && (forall ref :: Lookup(s.pending, ref) == Open(rows, ref))
    && (forall k :: SumOpen(s.pending, k) == Pending(rows, k))
  }

  // ---------------------------------------------------------------- one streamed row

  lemma RowSnoc(earlier: seq<Row>, row: Row)
    ensures (earlier + [row])[..|earlier|] == earlier && (earlier + [row])[|earlier|] == row
  {
  }

  /** The open reservations after a row: the reference's old one goes, a debit's own comes. */
  lemma PendingSumMoves(earlier: seq<Row>, row: Row, open: map<string, (Key, real)>, moved: map<string, (Key, real)>)
    requires row.Debit? || row.Settle?
    requires forall ref :: Lookup(open, ref) == Open(earlier, ref)
    requires forall k :: SumOpen(open, k) == Pending(earlier, k)
    requires moved == if row.Debit? then open[row.ref := (row.key, row.amount)] else open - {row.ref}
    ensures forall k :: SumOpen(moved, k) == Pending(earlier + [row], k)
    ensures forall ref :: Lookup(moved, ref) == Open(earlier + [row], ref)
  {
    RowSnoc(earlier, row);
    assert Lookup(open, row.ref) == Open(earlier, row.ref);
    forall k ensures SumOpen(moved, k) == Pending(earlier + [row], k) {
      PendingSnoc(earlier, row, k);
      SumOpenSet(open, row.ref, if row.Debit? then (row.key, row.amount) else (None, 0.0), k);
    }
    forall ref ensures Lookup(moved, ref) == Open(earlier + [row], ref) {
      assert Lookup(open, ref) == Open(earlier, ref);
    }
  }

  lemma DebitMovesKeys(earlier: seq<Row>, row: Row, keys: map<string, Key>)
    requires row.Debit? && forall ref :: Lookup(keys, ref) == LatestDebit(earlier, ref)
    ensures forall ref :: Lookup(keys[row.ref := row.key], ref) == LatestDebit(earlier + [row], ref)
  {
    RowSnoc(earlier, row);
    forall ref ensures Lookup(keys[row.ref := row.key], ref) == LatestDebit(earlier + [row], ref) {
      assert Lookup(keys, ref) == LatestDebit(earlier, ref);
    }
  }

  /** Every column holds what its key was charged; nothing is pending yet. */
  ghost predicate Charged(rows: seq<Row>, totals: map<Key, Column>) {
    totals.Keys == Keys(rows) && forall k :: ColumnOf(totals, k) == Column(Spend(rows, k), 0.0, Uncertain(rows, k))
  }

  lemma DebitKeepsCharged(earlier: seq<Row>, row: Row, totals: map<Key, Column>)
    requires row.Debit? && Charged(earlier, totals)
    ensures Charged(earlier + [row], totals[row.key := ColumnOf(totals, row.key)])
  {
    RowSnoc(earlier, row);
    var after := totals[row.key := ColumnOf(totals, row.key)];
    forall k ensures ColumnOf(after, k) == ColumnOf(totals, k) {
    }
  }

  function ChargedColumn(column: Column, amount: real, unknown: bool): Column {
    Column(column.spend + amount, column.pending, column.uncertain + If(unknown, amount))
  }

  lemma SettleKeepsCharged(earlier: seq<Row>, row: Row, totals: map<Key, Column>, key: Key)
    requires row.Settle? && Charged(earlier, totals) && key == Attributed(earlier, row)
    ensures Charged(earlier + [row], totals[key := ChargedColumn(ColumnOf(totals, key), row.amount, row.unknown)])
  {
    RowSnoc(earlier, row);
    var after := totals[key := ChargedColumn(ColumnOf(totals, key), row.amount, row.unknown)];
    forall k ensures ColumnOf(after, k) == Column(Spend(earlier + [row], k), 0.0, Uncertain(earlier + [row], k)) {
      assert ColumnOf(totals, k) == Column(Spend(earlier, k), 0.0, Uncertain(earlier, k));
    }
  }

  method AddDebit(s: Running, row: Row, ghost earlier: seq<Row>) returns (r: Running)
    requires Streaming(earlier, s) && row.Debit?
    ensures Streaming(earlier + [row], r)
  {
    DebitKeepsCharged(earlier, row, s.totals);
    DebitMovesKeys(earlier, row, s.debitKeys);
    PendingSumMoves(earlier, row, s.pending, s.pending[row.ref := (row.key, row.amount)]);
    r := Running(s.totals[row.key := ColumnOf(s.totals, row.key)], s.debitKeys[row.ref := row.key],
                 s.pending[row.ref := (row.key, row.amount)]);
  }

  method AddSettlement(s: Running, row: Row, ghost earlier: seq<Row>) returns (r: Option<Running>)
    requires Streaming(earlier, s) && row.Settle?
    ensures r.Some? <==> RowOk(earlier, row)
    ensures r.Some? ==> Streaming(earlier + [row], r.value)
  {
    assert Lookup(s.debitKeys, row.ref) == LatestDebit(earlier, row.ref);
    if row.ref !in s.debitKeys && row.own.None? {
      return None;
    }
    var key := if row.ref in s.debitKeys then s.debitKeys[row.ref] else row.own.value;
    SettleKeepsCharged(earlier, row, s.totals, key);
    PendingSumMoves(earlier, row, s.pending, s.pending - {row.ref});
    SettleKeepsKeys(earlier, row, s.debitKeys);
    r := Some(Running(s.totals[key := ChargedColumn(ColumnOf(s.totals, key), row.amount, row.unknown)], s.debitKeys,
                      s.pending - {row.ref}));
  }

  lemma SettleKeepsKeys(earlier: seq<Row>, row: Row, keys: map<string, Key>)
    requires !row.Debit? && forall ref :: Lookup(keys, ref) == LatestDebit(earlier, ref)
    ensures forall ref :: Lookup(keys, ref) == LatestDebit(earlier + [row], ref)
  {
    RowSnoc(earlier, row);
  }

  lemma SkipStreams(earlier: seq<Row>, s: Running)
    requires Streaming(earlier, s)
    ensures Streaming(earlier + [Skip], s)
  {
    RowSnoc(earlier, Skip);
    SettleKeepsKeys(earlier, Skip, s.debitKeys);
    forall k ensures Pending(earlier + [Skip], k) == Pending(earlier, k) {
      PendingSnoc(earlier, Skip, k);
    }
  }

  method AddRow(s: Running, row: Row, ghost earlier: seq<Row>) returns (r: Option<Running>)
    requires Streaming(earlier, s)
    ensures r.Some? <==> RowOk(earlier, row)
    ensures r.Some? ==> Streaming(earlier + [row], r.value)
  {
    match row {
      case Skip =>
        SkipStreams(earlier, s);
        r := Some(s);
      case Invalid => r := None;
      case Debit(_, _, _) =>
        var added := AddDebit(s, row, earlier);
        r := Some(added);
      case Settle(_, _, _, _) => r := AddSettlement(s, row, earlier);
    }
  }

  lemma {:induction false} ValidPrefix(rows: seq<Row>, n: nat)
    requires n <= |rows| && Valid(rows)
    ensures Valid(rows[..n])
  {
    if n < |rows| {
      ValidPrefix(rows[..|rows| - 1], n);
      assert rows[..|rows| - 1][..n] == rows[..n];
    } else {
      assert rows[..n] == rows;
    }
  }

  lemma {:induction false} OpenKeysHaveColumns(rows: seq<Row>, ref: string)
    requires Open(rows, ref).Some?
    ensures Open(rows, ref).value.0 in Keys(rows)
  {
    if !Mentions(rows[|rows| - 1], ref) {
      OpenKeysHaveColumns(rows[..|rows| - 1], ref);
    }
  }

  method LedgerTotals(lines: seq<Line>, hash: string -> string, legacyAlias: Json)
    returns (r: Result<map<Key, Column>, LedgerError>)
    ensures r.Success? <==>
      AliasHash(legacyAlias, hash).Some? && Valid(ReadRows(lines, hash, AliasHash(legacyAlias, hash).value))
    ensures r.Success? ==> Totalled(ReadRows(lines, hash, AliasHash(legacyAlias, hash).value), r.value)
  {
    var alias := AliasHash(legacyAlias, hash);
    if alias.None? {
      return Failure(InvalidLedger);
    }
    ghost var rows := ReadRows(lines, hash, alias.value);
    var s := Running(map[], map[], map[]);
    for i := 0 to |lines|
      invariant Valid(rows[..i]) && Streaming(rows[..i], s)
    {
      assert rows[..i + 1] == rows[..i] + [rows[i]];
      assert rows[..i + 1][..i] == rows[..i];
      var next := AddRow(s, ReadRow(lines[i], hash, alias.value), rows[..i]);
      if next.None? {
        if Valid(rows) {
          ValidPrefix(rows, i + 1);
        }
        return Failure(InvalidLedger);
      }
      s := next.value;
    }
    assert rows[..|lines|] == rows;
    var totals := AddPending(s.totals, s.pending, rows);
    return Success(totals);
  }

  /** The loop that adds every open reservation to its key's column. */
  method AddPending(charged: map<Key, Column>, open: map<string, (Key, real)>, ghost rows: seq<Row>)
    returns (totals: map<Key, Column>)
    requires charged.Keys == Keys(rows)
    requires forall k :: ColumnOf(charged, k) == Column(Spend(rows, k), 0.0, Uncertain(rows, k))
    requires forall ref :: Lookup(open, ref) == Open(rows, ref)
    requires forall k :: SumOpen(open, k) == Pending(rows, k)
    ensures Totalled(rows, totals)
  {
    totals := charged;
    var left := open;
    while left != map[]
      invariant totals.Keys == Keys(rows)
      invariant forall ref | ref in left :: ref in open && left[ref] == open[ref]
      invariant forall k :: ColumnOf(totals, k).spend == Spend(rows, k)
      invariant forall k :: ColumnOf(totals, k).uncertain == Uncertain(rows, k)
      invariant forall k :: ColumnOf(totals, k).pending + SumOpen(left, k) == Pending(rows, k)
      decreases |left|
    {
      var ref :| ref in left;
      var key, amount := left[ref].0, left[ref].1;
      assert Lookup(open, ref) == Open(rows, ref);
      OpenKeysHaveColumns(rows, ref);
      forall k ensures SumOpen(left, k) == Part(Some(left[ref]), k) + SumOpen(left - {ref}, k) {
        SumOpenRemove(left, ref, k);
      }
      totals := totals[key := ColumnOf(totals, key).(pending := ColumnOf(totals, key).pending + amount)];
      left := left - {ref};
    }
    assert forall k | k in totals :: ColumnOf(totals, k) == totals[k];
  }
}
