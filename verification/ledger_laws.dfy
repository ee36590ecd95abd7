/** Laws of the ledger totals: nothing is lost between columns, and rows of different references commute. */
module LedgerLaws {
  import opened Wrappers
  import opened Ledger

  // ---------------------------------------------------------------- conservation

  ghost function SumKeys(keys: set<Key>, f: Key -> real): real {
    if keys == {} then 0.0
    else
      var k :| k in keys;
      f(k) + SumKeys(keys - {k}, f)
  }

  lemma {:induction false} SumKeysRemove(keys: set<Key>, k: Key, f: Key -> real)
    requires k in keys
    ensures SumKeys(keys, f) == f(k) + SumKeys(keys - {k}, f)
    decreases |keys|
  {
    var pick :| pick in keys && SumKeys(keys, f) == f(pick) + SumKeys(keys - {pick}, f);
    if pick != k {
      SumKeysRemove(keys - {pick}, k, f);
      SumKeysRemove(keys - {k}, pick, f);
      assert keys - {pick} - {k} == keys - {k} - {pick};
    }
  }

  /** If f is g everywhere except that one key has x more, the sum has x more. */
  lemma {:induction false} SumKeysShift(keys: set<Key>, f: Key -> real, g: Key -> real, at: Key, x: real)
    requires at in keys
    requires forall k | k in keys :: f(k) == g(k) + If(k == at, x)
    ensures SumKeys(keys, f) == SumKeys(keys, g) + x
  {
    SumKeysRemove(keys, at, f);
    SumKeysRemove(keys, at, g);
    SumKeysSame(keys - {at}, f, g);
  }

  lemma {:induction false} SumKeysSame(keys: set<Key>, f: Key -> real, g: Key -> real)
    requires forall k | k in keys :: f(k) == g(k)
    ensures SumKeys(keys, f) == SumKeys(keys, g)
    decreases |keys|
  {
    if keys != {} {
      var k :| k in keys;
      SumKeysRemove(keys, k, f);
      SumKeysRemove(keys, k, g);
      SumKeysSame(keys - {k}, f, g);
    }
  }

  lemma {:induction false} SumKeysZero(keys: set<Key>, f: Key -> real)
    requires forall k | k in keys :: f(k) == 0.0
    ensures SumKeys(keys, f) == 0.0
    decreases |keys|
  {
    if keys != {} {
      var k :| k in keys;
      SumKeysRemove(keys, k, f);
      SumKeysZero(keys - {k}, f);
    }
  }

  /** The sum of every settled or voided amount, whatever key it is charged to. */
  function Settled(rows: seq<Row>): real {
    if rows == [] then 0.0
    else
      var last := rows[|rows| - 1];
      Settled(rows[..|rows| - 1]) + (if last.Settle? then last.amount else 0.0)
  }

  /** The part of it whose outcome is unknown. */
  function Doubted(rows: seq<Row>): real {
    if rows == [] then 0.0
    else
      var last := rows[|rows| - 1];
      Doubted(rows[..|rows| - 1]) + (if last.Settle? && last.unknown then last.amount else 0.0)
  }

  /** The sum of every reservation nothing later of its reference replaced, settled or voided. */
  function Reserved(rows: seq<Row>): real {
    if rows == [] then 0.0
    else
      If(rows[0].Debit? && !AnyMentions(rows[1..], rows[0].ref), if rows[0].Debit? then rows[0].amount else 0.0)
      + Reserved(rows[1..])
  }

  /** Spend over all columns is the sum of all settled amounts: attribution moves money and never makes or loses any. */
  lemma {:induction false} SpendIsConserved(rows: seq<Row>, keys: set<Key>)
    requires Keys(rows) <= keys
    ensures SumKeys(keys, k => Spend(rows, k)) == Settled(rows)
  {
    if rows == [] {
      SumKeysZero(keys, k => Spend(rows, k));
    } else {
      var init, last := rows[..|rows| - 1], rows[|rows| - 1];
      SpendIsConserved(init, keys);
      if last.Settle? {
        SumKeysShift(keys, k => Spend(rows, k), k => Spend(init, k), Attributed(init, last), last.amount);
      } else {
        SumKeysSame(keys, k => Spend(rows, k), k => Spend(init, k));
      }
    }
  }

  lemma {:induction false} UncertainIsConserved(rows: seq<Row>, keys: set<Key>)
    requires Keys(rows) <= keys
    ensures SumKeys(keys, k => Uncertain(rows, k)) == Doubted(rows)
  {
    if rows == [] {
      SumKeysZero(keys, k => Uncertain(rows, k));
    } else {
      var init, last := rows[..|rows| - 1], rows[|rows| - 1];
      UncertainIsConserved(init, keys);
      if last.Settle? && last.unknown {
        SumKeysShift(keys, k => Uncertain(rows, k), k => Uncertain(init, k), Attributed(init, last), last.amount);
      } else {
        SumKeysSame(keys, k => Uncertain(rows, k), k => Uncertain(init, k));
      }
    }
  }

  lemma DebitKeysHaveColumns(rows: seq<Row>, i: nat)
    requires i < |rows| && rows[i].Debit?
    ensures rows[i].key in Keys(rows)
  {
    if i < |rows| - 1 {
      DebitKeysHaveColumns(rows[..|rows| - 1], i);
    }
  }

  /** Pending over all columns is the sum of all open reservations. */
  lemma {:induction false} PendingIsConserved(rows: seq<Row>, keys: set<Key>)
    requires forall i | 0 <= i < |rows| && rows[i].Debit? :: rows[i].key in keys
    ensures SumKeys(keys, k => Pending(rows, k)) == Reserved(rows)
  {
    if rows == [] {
      SumKeysZero(keys, k => Pending(rows, k));
    } else {
      var first, rest := rows[0], rows[1..];
      assert forall i | 0 <= i < |rest| :: rest[i] == rows[i + 1];
      PendingIsConserved(rest, keys);
      if first.Debit? && !AnyMentions(rest, first.ref) {
        SumKeysShift(keys, k => Pending(rows, k), k => Pending(rest, k), first.key, first.amount);
      } else {
        SumKeysSame(keys, k => Pending(rows, k), k => Pending(rest, k));
      }
    }
  }

  /** For totals that ledger_totals returns: the columns add up to the rows. */
  lemma TotalsAreConserved(rows: seq<Row>, totals: map<Key, Column>)
    requires Totalled(rows, totals)
    ensures SumKeys(totals.Keys, k => ColumnOf(totals, k).spend) == Settled(rows)
    ensures SumKeys(totals.Keys, k => ColumnOf(totals, k).uncertain) == Doubted(rows)
    ensures SumKeys(totals.Keys, k => ColumnOf(totals, k).pending) == Reserved(rows)
  {
    UncertainIsConserved(rows, totals.Keys);
    SumKeysSame(totals.Keys, k => ColumnOf(totals, k).uncertain, k => Uncertain(rows, k));
    SpendIsConserved(rows, totals.Keys);
    SumKeysSame(totals.Keys, k => ColumnOf(totals, k).spend, k => Spend(rows, k));
    forall i | 0 <= i < |rows| && rows[i].Debit?
      ensures rows[i].key in totals.Keys
    {
      DebitKeysHaveColumns(rows, i);
    }
    PendingIsConserved(rows, totals.Keys);
    SumKeysSame(totals.Keys, k => ColumnOf(totals, k).pending, k => Pending(rows, k));
  }

  /** The uncertain part of non-negative settlements never exceeds what was spent. */
  lemma {:induction false} UncertainWithinSpend(rows: seq<Row>, key: Key)
    requires forall i | 0 <= i < |rows| && rows[i].Settle? :: rows[i].amount >= 0.0
    ensures 0.0 <= Uncertain(rows, key) <= Spend(rows, key)
  {
    if rows != [] {
      UncertainWithinSpend(rows[..|rows| - 1], key);
    }
  }

  // ---------------------------------------------------------------- rows of different references commute

  predicate Independent(a: Row, b: Row) {
    (a.Debit? || a.Settle?) && (b.Debit? || b.Settle?) ==> a.ref != b.ref
  }

  function Swapped(before: seq<Row>, a: Row, b: Row, after: seq<Row>): seq<Row> {
    before + [b, a] + after
  }

  lemma {:induction false} SwapKeepsLatestDebit(before: seq<Row>, a: Row, b: Row, after: seq<Row>, ref: string)
    requires Independent(a, b)
    ensures LatestDebit(before + [a, b] + after, ref) == LatestDebit(Swapped(before, a, b, after), ref)
  {
    var one, two := before + [a, b] + after, Swapped(before, a, b, after);
    if after != [] {
      var init := after[..|after| - 1];
      SwapKeepsLatestDebit(before, a, b, init, ref);
      assert one[..|one| - 1] == before + [a, b] + init;
      assert two[..|two| - 1] == Swapped(before, a, b, init);
    } else {
      LatestDebitOfTwo(before, a, b, ref);
      LatestDebitOfTwo(before, b, a, ref);
      assert one == before + [a, b] && two == before + [b, a];
    }
  }

  lemma LatestDebitOfTwo(before: seq<Row>, a: Row, b: Row, ref: string)
    ensures LatestDebit(before + [a, b], ref) ==
            if b.Debit? && b.ref == ref then Some(b.key)
            else if a.Debit? && a.ref == ref then Some(a.key)
            else LatestDebit(before, ref)
  {
    var rows := before + [a, b];
    assert rows[..|rows| - 1] == before + [a];
    assert (before + [a])[..|before|] == before;
  }

  /** What the back-to-front totals add for the two swapped rows. */
  lemma TwoRows(before: seq<Row>, a: Row, b: Row, key: Key)
    requires Independent(a, b)
    ensures Spend(before + [a, b], key) == Spend(before + [b, a], key)
    ensures Uncertain(before + [a, b], key) == Uncertain(before + [b, a], key)
    ensures Keys(before + [a, b]) == Keys(before + [b, a])
    ensures Valid(before + [a, b]) <==> Valid(before + [b, a])
  {
    TwoRowsUnfold(before, a, b, key);
    TwoRowsUnfold(before, b, a, key);
  }

  function Charge(earlier: seq<Row>, row: Row, key: Key): real {
    If(row.Settle? && Attributed(earlier, row) == key, if row.Settle? then row.amount else 0.0)
  }

  function Doubt(earlier: seq<Row>, row: Row, key: Key): real {
    If(row.Settle? && row.unknown && Attributed(earlier, row) == key, if row.Settle? then row.amount else 0.0)
  }

  function NewKeys(earlier: seq<Row>, row: Row): set<Key> {
    match row
    case Debit(_, key, _) => {key}
    case Settle(_, _, _, _) => {Attributed(earlier, row)}
    case _ => {}
  }

  lemma TwoRowsUnfold(before: seq<Row>, a: Row, b: Row, key: Key)
    requires Independent(a, b)
    ensures Spend(before + [a, b], key) == Spend(before, key) + Charge(before, a, key) + Charge(before, b, key)
    ensures Uncertain(before + [a, b], key) == Uncertain(before, key) + Doubt(before, a, key) + Doubt(before, b, key)
    ensures Keys(before + [a, b]) == Keys(before) + NewKeys(before, a) + NewKeys(before, b)
    ensures Valid(before + [a, b]) <==> Valid(before) && RowOk(before, a) && RowOk(before, b)
  {
    var rows, one := before + [a, b], before + [a];
    assert rows[..|rows| - 1] == one && rows[|rows| - 1] == b;
    assert one[..|one| - 1] == before && one[|one| - 1] == a;
    if b.Settle? {
      assert LatestDebit(one, b.ref) == LatestDebit(before, b.ref);
    }
  }

  lemma {:induction false} SwapKeepsBackwardTotals(before: seq<Row>, a: Row, b: Row, after: seq<Row>, key: Key)
    requires Independent(a, b)
    ensures var one, two := before + [a, b] + after, Swapped(before, a, b, after);
      && Spend(one, key) == Spend(two, key) && Uncertain(one, key) == Uncertain(two, key)
      && Keys(one) == Keys(two) && (Valid(one) <==> Valid(two))
  {
    var one, two := before + [a, b] + after, Swapped(before, a, b, after);
    if after != [] {
      var init, last := after[..|after| - 1], after[|after| - 1];
      SwapKeepsBackwardTotals(before, a, b, init, key);
      assert one[..|one| - 1] == before + [a, b] + init;
      assert two[..|two| - 1] == Swapped(before, a, b, init);
      if last.Settle? {
        SwapKeepsLatestDebit(before, a, b, init, last.ref);
      }
    } else {
      TwoRows(before, a, b, key);
      assert one == before + [a, b] && two == before + [b, a];
    }
  }

  lemma AnyMentionsConcat(x: seq<Row>, y: seq<Row>, ref: string)
    ensures AnyMentions(x + y, ref) <==> AnyMentions(x, ref) || AnyMentions(y, ref)
  {
    var all := x + y;
    assert forall i | 0 <= i < |x| :: all[i] == x[i];
    assert forall i | 0 <= i < |y| :: all[|x| + i] == y[i];
  }

  lemma {:induction false} SwapKeepsPending(before: seq<Row>, a: Row, b: Row, after: seq<Row>, key: Key)
    requires Independent(a, b)
    ensures Pending(before + [a, b] + after, key) == Pending(Swapped(before, a, b, after), key)
  {
    var one, two := before + [a, b] + after, Swapped(before, a, b, after);
    if before != [] {
      var rest := before[1..];
      SwapKeepsPending(rest, a, b, after, key);
      assert one[0] == before[0] && one[1..] == rest + [a, b] + after;
      assert two[0] == before[0] && two[1..] == Swapped(rest, a, b, after);
      MentionsSwap(rest, a, b, after);
      PendingUnfolds(one, key);
      PendingUnfolds(two, key);
    } else {
      assert one == [a, b] + after && two == [b, a] + after;
      PendingOfTwo(a, b, after, key);
      PendingOfTwo(b, a, after, key);
    }
  }

  /** What a row leaves open for a key, followed by the rows after it. */
  function StaysOpen(row: Row, after: seq<Row>, key: Key): real {
    If(row.Debit? && row.key == key && !AnyMentions(after, row.ref), if row.Debit? then row.amount else 0.0)
  }

  lemma PendingUnfolds(rows: seq<Row>, key: Key)
    requires rows != []
    ensures Pending(rows, key) == StaysOpen(rows[0], rows[1..], key) + Pending(rows[1..], key)
  {
  }

  lemma PendingOfTwo(a: Row, b: Row, after: seq<Row>, key: Key)
    requires Independent(a, b)
    ensures Pending([a, b] + after, key) == StaysOpen(a, after, key) + StaysOpen(b, after, key) + Pending(after, key)
  {
    var rows := [a, b] + after;
    assert rows[0] == a && rows[1..] == [b] + after;
    assert rows[1..][0] == b && rows[1..][1..] == after;
    PendingUnfolds(rows, key);
    PendingUnfolds(rows[1..], key);
    if a.Debit? {
      AnyMentionsConcat([b], after, a.ref);
      assert [b][0] == b;
    }
  }

  lemma MentionsSwap(before: seq<Row>, a: Row, b: Row, after: seq<Row>)
    ensures forall ref :: AnyMentions(before + [a, b] + after, ref) <==> AnyMentions(Swapped(before, a, b, after), ref)
  {
    forall ref
      ensures AnyMentions(before + [a, b] + after, ref) <==> AnyMentions(Swapped(before, a, b, after), ref)
    {
      MentionsOfTwo(before, a, b, after, ref);
      MentionsOfTwo(before, b, a, after, ref);
    }
  }

  lemma MentionsOfTwo(before: seq<Row>, a: Row, b: Row, after: seq<Row>, ref: string)
    ensures AnyMentions(before + [a, b] + after, ref) <==>
            AnyMentions(before, ref) || Mentions(a, ref) || Mentions(b, ref) || AnyMentions(after, ref)
  {
    AnyMentionsConcat(before + [a, b], after, ref);
    AnyMentionsConcat(before, [a, b], ref);
    assert [a, b][0] == a && [a, b][1] == b;
  }

  /** Swapping two neighbouring rows with different references changes no total, no column and no verdict. */
  lemma SwappingIndependentRows(before: seq<Row>, a: Row, b: Row, after: seq<Row>, totals: map<Key, Column>)
    requires Independent(a, b)
    ensures Valid(before + [a, b] + after) <==> Valid(Swapped(before, a, b, after))
    ensures Totalled(before + [a, b] + after, totals) <==> Totalled(Swapped(before, a, b, after), totals)
  {
    SwapKeepsBackwardTotals(before, a, b, after, None);
    forall k | k in totals
      ensures Spend(before + [a, b] + after, k) == Spend(Swapped(before, a, b, after), k)
      ensures Uncertain(before + [a, b] + after, k) == Uncertain(Swapped(before, a, b, after), k)
      ensures Pending(before + [a, b] + after, k) == Pending(Swapped(before, a, b, after), k)
    {
      SwapKeepsBackwardTotals(before, a, b, after, k);
      SwapKeepsPending(before, a, b, after, k);
    }
  }
}
