/** Any number of concurrent write_receipt calls over one receipt directory, step by step: each writer takes the
    lock, lists, links and releases, may be killed at any step, and other processes link and remove files between any
    two steps. */
module ReceiptLog {
  import opened Wrappers
  import opened Decimal
  import opened Receipts

  datatype Pc =
    | Waiting                            // at the flock
    | Choosing(tries: nat)               // holds the lock, about to list
    | Chosen(tries: nat, number: nat)    // holds the lock, about to link
    | Linked(name: string)
    | Refused
    | Killed

  datatype Writer = Writer(stamp: string, text: string, pc: Pc)

  /** log is the history: the names writers have linked, oldest first. */
  datatype State = State(dir: Dir, lock: Option<nat>, writers: seq<Writer>, log: seq<string>)

  datatype Action =
    | Acquire(w: nat)
    | List(w: nat)
    | Link(w: nat)
    | Kill(w: nat)
    | Other(name: string, entry: Entry)   // a process outside the lock links a file
    | Unlink(name: string)                // a temporary dot-file goes

  predicate IsDotFile(name: string) {
    name != [] && name[0] == '.'
  }

  function SetPc(s: State, w: nat, pc: Pc): seq<Writer>
    requires w < |s.writers|
  {
    s.writers[w := s.writers[w].(pc := pc)]
  }

  predicate Enabled(s: State, a: Action) {
    match a
    case Acquire(w) => w < |s.writers| && s.writers[w].pc == Waiting && s.lock == None
    case List(w) => w < |s.writers| && s.writers[w].pc.Choosing?
    case Link(w) => w < |s.writers| && s.writers[w].pc.Chosen?
    case Kill(w) =>
      w < |s.writers| && (s.writers[w].pc.Waiting? || s.writers[w].pc.Choosing? || s.writers[w].pc.Chosen?)
    case Other(name, _) => name !in s.dir
    case Unlink(name) => name in s.dir && IsDotFile(name)
  }

  function LinkStep(s: State, w: nat): State
    requires w < |s.writers| && s.writers[w].pc.Chosen?
  {
    var me := s.writers[w];
    var path := NameFor(me.pc.number, me.stamp);
    if path !in s.dir then
      State(s.dir[path := Regular(me.text)], None, SetPc(s, w, Linked(path)), s.log + [path])
    else if me.pc.tries + 1 < LINK_ATTEMPTS then s.(writers := SetPc(s, w, Choosing(me.pc.tries + 1)))
    else s.(lock := None, writers := SetPc(s, w, Refused))
  }

  ghost function Next(s: State, a: Action): State
    requires Enabled(s, a)
  {
    match a
    case Acquire(w) => s.(lock := Some(w), writers := SetPc(s, w, Choosing(0)))
    case List(w) => s.(writers := SetPc(s, w, Chosen(s.writers[w].pc.tries, NextSequence(s.dir))))
    case Link(w) => LinkStep(s, w)
    case Kill(w) => s.(lock := if s.lock == Some(w) then None else s.lock, writers := SetPc(s, w, Killed))
    case Other(name, entry) => s.(dir := s.dir[name := entry])
    case Unlink(name) => s.(dir := s.dir - {name})
  }

  ghost predicate Run(s: State, actions: seq<Action>, t: State) {
    if actions == [] then s == t
    else
      var last := |actions| - 1;
      exists u :: Run(s, actions[..last], u) && Enabled(u, actions[last]) && t == Next(u, actions[last])
  }

  predicate Initial(s: State) {
    && s.lock == None && s.log == []
    && forall w | 0 <= w < |s.writers| :: s.writers[w].pc == Waiting && IsLabel(s.writers[w].stamp)
  }

  // ---------------------------------------------------------------- whatever other processes do

  ghost predicate Kept(s: State, t: State) {
    forall name | name in s.dir && !IsDotFile(name) :: name in t.dir && t.dir[name] == s.dir[name]
  }

  /** No step replaces or removes a file that is not a dot-file. */
  lemma {:induction false} NothingIsEverReplaced(s: State, actions: seq<Action>, t: State)
    requires Run(s, actions, t)
    ensures Kept(s, t)
  {
    if actions != [] {
      var last := |actions| - 1;
      var u :| Run(s, actions[..last], u) && Enabled(u, actions[last]) && t == Next(u, actions[last]);
      NothingIsEverReplaced(s, actions[..last], u);
      StepReplacesNothing(u, actions[last]);
    }
  }

  lemma StepReplacesNothing(s: State, a: Action)
    requires Enabled(s, a)
    ensures Kept(s, Next(s, a))
  {
  }

  /** One writer at a time, and what each has linked is in place: under its own name, with its own text, logged. */
  ghost predicate Safe(s: State) {
    && (forall w | 0 <= w < |s.writers| && (s.writers[w].pc.Choosing? || s.writers[w].pc.Chosen?) :: s.lock == Some(w))
    && NoRepeats(s.log)
    && (forall name | name in s.log :: name in s.dir && !IsDotFile(name))
    && (forall w | 0 <= w < |s.writers| && s.writers[w].pc.Linked? ::
          s.writers[w].pc.name in s.log && s.dir[s.writers[w].pc.name] == Regular(s.writers[w].text))
    && (forall v, w | 0 <= v < w < |s.writers| && s.writers[v].pc.Linked? && s.writers[w].pc.Linked? ::
          s.writers[v].pc.name != s.writers[w].pc.name)
  }

  lemma LinkKeepsSafe(s: State, w: nat)
    requires Safe(s) && Enabled(s, Link(w))
    ensures Safe(LinkStep(s, w))
  {
    var path := NameFor(s.writers[w].pc.number, s.writers[w].stamp);
    assert IsDigit(path[0]) && !IsDotFile(path);
  }

  lemma StepKeepsSafe(s: State, a: Action)
    requires Safe(s) && Enabled(s, a)
    ensures Safe(Next(s, a))
  {
    if a.Link? {
      LinkKeepsSafe(s, a.w);
    }
  }

  lemma {:induction false} RunIsSafe(s: State, actions: seq<Action>, t: State)
    requires Initial(s) && Run(s, actions, t)
    ensures Safe(t)
  {
    if actions != [] {
      var last := |actions| - 1;
      var u :| Run(s, actions[..last], u) && Enabled(u, actions[last]) && t == Next(u, actions[last]);
      RunIsSafe(s, actions[..last], u);
      StepKeepsSafe(u, actions[last]);
    }
  }

  // ---------------------------------------------------------------- when every receipt is written under the lock

  /** The action links no receipt outside the lock. */
  predicate Quiet(a: Action) {
    a.Other? ==> !NamesReceipt(a.name, a.entry)
  }

  predicate AllQuiet(actions: seq<Action>) {
    forall i | 0 <= i < |actions| :: Quiet(actions[i])
  }

  ghost predicate Blocked(dir: Dir, stamp: string) {
    exists n: nat :: HeldByNoFile(dir, n, stamp)
  }

  predicate HeldByNoFile(dir: Dir, n: nat, stamp: string) {
    NameFor(n, stamp) in dir && dir[NameFor(n, stamp)] == Special
  }

  /** The receipts are the old ones followed by the log, and the log's numbers rise above all that came before. */
  ghost predicate LogOrdered(first: Dir, dir: Dir, log: seq<string>) {
    && ReceiptNames(dir) == ReceiptNames(first) + log
    && NumbersRise(first, log)
  }

  ghost predicate NumbersRise(first: Dir, log: seq<string>) {
    && (forall name | name in log :: SequenceOf(name).Some?)
    && (forall i | 0 <= i < |log| :: AboveAll(first, SequenceOf(log[i]).value))
    && (forall i, j | 0 <= i < j < |log| :: SequenceOf(log[i]).value < SequenceOf(log[j]).value)
  }

  /** A chosen number is above every receipt, and a refused writer was blocked. */
  ghost predicate WriterOrdered(dir: Dir, me: Writer) {
    && IsLabel(me.stamp)
    && (me.pc.Chosen? ==> AboveAll(dir, me.pc.number))
    && (me.pc.Refused? ==> Blocked(dir, me.stamp))
  }

  ghost predicate Ordered(first: Dir, s: State) {
    && LogOrdered(first, s.dir, s.log)
    && (forall w | 0 <= w < |s.writers| :: WriterOrdered(s.dir, s.writers[w]))
  }

  lemma AboveTheOld(first: Dir, dir: Dir, log: seq<string>, number: nat)
    requires ReceiptNames(dir) == ReceiptNames(first) + log && AboveAll(dir, number)
    ensures AboveAll(first, number)
  {
    NamesAreReceipts(first);
    NamesAreReceipts(dir);
    forall name | IsReceipt(first, name) && SequenceOf(name).Some?
      ensures SequenceOf(name).value < number
    {
      assert name in ReceiptNames(first);
      assert name in ReceiptNames(dir);
    }
  }

  lemma AboveTheLog(first: Dir, dir: Dir, log: seq<string>, number: nat)
    requires ReceiptNames(dir) == ReceiptNames(first) + log && AboveAll(dir, number)
    requires forall name | name in log :: SequenceOf(name).Some?
    ensures forall i | 0 <= i < |log| :: SequenceOf(log[i]).value < number
  {
    NamesAreReceipts(dir);
    forall i | 0 <= i < |log| ensures SequenceOf(log[i]).value < number {
      assert log[i] in ReceiptNames(dir);
    }
  }

  lemma NumbersGrow(first: Dir, log: seq<string>, path: string, number: nat)
    requires NumbersRise(first, log) && SequenceOf(path) == Some(number) && AboveAll(first, number)
    requires forall i | 0 <= i < |log| :: SequenceOf(log[i]).value < number
    ensures NumbersRise(first, log + [path])
  {
  }

  lemma LogGrows(first: Dir, dir: Dir, log: seq<string>, path: string, number: nat, text: string)
    requires LogOrdered(first, dir, log) && path !in dir
    requires SequenceOf(path) == Some(number) && AboveAll(dir, number)
    ensures LogOrdered(first, dir[path := Regular(text)], log + [path])
  {
    NewestGoesLast(dir, path, text);
    AboveTheOld(first, dir, log, number);
    AboveTheLog(first, dir, log, number);
    NumbersGrow(first, log, path, number);
  }

  lemma StaysBlocked(dir: Dir, changed: Dir, stamp: string)
    requires Blocked(dir, stamp)
    requires forall name | name in dir && !IsDotFile(name) :: name in changed && changed[name] == dir[name]
    ensures Blocked(changed, stamp)
  {
    var n: nat :| HeldByNoFile(dir, n, stamp);
    assert HeldByNoFile(changed, n, stamp);
  }

  lemma WriterStaysOrdered(dir: Dir, changed: Dir, me: Writer)
    requires WriterOrdered(dir, me)
    requires forall name | name in dir && !IsDotFile(name) :: name in changed && changed[name] == dir[name]
    requires me.pc.Chosen? ==> forall name :: IsReceipt(dir, name) <==> IsReceipt(changed, name)
    ensures WriterOrdered(changed, me)
  {
    if me.pc.Refused? {
      StaysBlocked(dir, changed, me.stamp);
    }
  }

  /** A number above every receipt is refused only to something that is no regular file. */
  lemma OnlySpecialsBlock(dir: Dir, number: nat, stamp: string)
    requires IsLabel(stamp) && AboveAll(dir, number) && NameFor(number, stamp) in dir
    ensures Blocked(dir, stamp)
  {
    NumberRoundTrips(number, stamp);
    var path := NameFor(number, stamp);
    if dir[path].Regular? {
      assert IsReceipt(dir, path);
    }
    assert HeldByNoFile(dir, number, stamp);
  }

  lemma LinkedKeepsOrdered(first: Dir, s: State, w: nat, path: string)
    requires Ordered(first, s) && Enabled(s, Link(w)) && path !in s.dir
    requires forall v | 0 <= v < |s.writers| && v != w :: !s.writers[v].pc.Chosen?
    requires path == NameFor(s.writers[w].pc.number, s.writers[w].stamp)
    ensures Ordered(first, LinkStep(s, w))
  {
    var me := s.writers[w];
    assert WriterOrdered(s.dir, me);
    NumberRoundTrips(me.pc.number, me.stamp);
    LogGrows(first, s.dir, s.log, path, me.pc.number, me.text);
    var dir := s.dir[path := Regular(me.text)];
    forall v | 0 <= v < |s.writers| && v != w ensures WriterOrdered(dir, s.writers[v]) {
      WriterStaysOrdered(s.dir, dir, s.writers[v]);
    }
  }

  lemma MissedKeepsOrdered(first: Dir, s: State, w: nat)
    requires Ordered(first, s) && Enabled(s, Link(w)) && NameFor(s.writers[w].pc.number, s.writers[w].stamp) in s.dir
    ensures Ordered(first, LinkStep(s, w))
  {
    var me := s.writers[w];
    assert WriterOrdered(s.dir, me);
    OnlySpecialsBlock(s.dir, me.pc.number, me.stamp);
    forall v | 0 <= v < |s.writers| && v != w ensures WriterOrdered(s.dir, LinkStep(s, w).writers[v]) {
      assert LinkStep(s, w).writers[v] == s.writers[v];
    }
  }

  /** The same receipts, and nothing lost but dot-files. */
  ghost predicate SameReceipts(dir: Dir, changed: Dir) {
    && (forall name :: IsReceipt(dir, name) <==> IsReceipt(changed, name))
    && (forall name | name in dir && !IsDotFile(name) :: name in changed && changed[name] == dir[name])
  }

  lemma DotFileIsNoReceipt(name: string, entry: Entry)
    requires IsDotFile(name)
    ensures !NamesReceipt(name, entry)
  {
  }

  lemma LinkedQuietly(dir: Dir, name: string, entry: Entry)
    requires name !in dir && !NamesReceipt(name, entry)
    ensures SameReceipts(dir, dir[name := entry])
  {
  }

  lemma UnlinkedQuietly(dir: Dir, name: string)
    requires name in dir && IsDotFile(name)
    ensures SameReceipts(dir, dir - {name})
  {
    DotFileIsNoReceipt(name, dir[name]);
  }

  lemma SameReceiptsKeepOrdered(first: Dir, s: State, dir: Dir)
    requires Ordered(first, s) && SameReceipts(s.dir, dir)
    ensures Ordered(first, s.(dir := dir))
  {
    OthersChangeNoReceipts(s.dir, dir);
    forall w | 0 <= w < |s.writers| ensures WriterOrdered(dir, s.writers[w]) {
      WriterStaysOrdered(s.dir, dir, s.writers[w]);
    }
  }

  lemma QuietFilesKeepOrdered(first: Dir, s: State, a: Action)
    requires Ordered(first, s) && Enabled(s, a) && Quiet(a) && (a.Other? || a.Unlink?)
    ensures Ordered(first, Next(s, a))
  {
    if a.Other? {
      LinkedQuietly(s.dir, a.name, a.entry);
    } else {
      UnlinkedQuietly(s.dir, a.name);
    }
    SameReceiptsKeepOrdered(first, s, Next(s, a).dir);
  }

  lemma StepKeepsOrdered(first: Dir, s: State, a: Action)
    requires Safe(s) && Ordered(first, s) && Enabled(s, a) && Quiet(a)
    ensures Ordered(first, Next(s, a))
  {
    if a.Link? {
      var path := NameFor(s.writers[a.w].pc.number, s.writers[a.w].stamp);
      if path in s.dir {
        MissedKeepsOrdered(first, s, a.w);
      } else {
        LinkedKeepsOrdered(first, s, a.w, path);
      }
    } else if a.Other? || a.Unlink? {
      QuietFilesKeepOrdered(first, s, a);
    } else {
      var t := Next(s, a);
      NextIsTheLeastAbove(s.dir, 0);
      forall w | 0 <= w < |t.writers| ensures WriterOrdered(t.dir, t.writers[w]) {
        assert WriterOrdered(s.dir, s.writers[w]);
      }
    }
  }

  lemma {:induction false} QuietRunIsOrdered(s: State, actions: seq<Action>, t: State)
    requires Initial(s) && Run(s, actions, t) && AllQuiet(actions)
    ensures Ordered(s.dir, t)
  {
    if actions != [] {
      var last := |actions| - 1;
      var u :| Run(s, actions[..last], u) && Enabled(u, actions[last]) && t == Next(u, actions[last]);
      QuietRunIsOrdered(s, actions[..last], u);
      RunIsSafe(s, actions[..last], u);
      StepKeepsOrdered(s.dir, u, actions[last]);
    }
  }

  /** Under every interleaving of locked writers, sorting the directory by creation order gives the receipts that were
      there followed by the new ones in the order they were linked, whatever their stamps say; each new number is
      above all earlier ones; and a writer is refused only when something that is no regular file holds a name it
      would take. */
  lemma CreationOrderIsLinkOrder(s: State, actions: seq<Action>, t: State)
    requires Initial(s) && Run(s, actions, t) && AllQuiet(actions)
    ensures ReceiptNames(t.dir) == ReceiptNames(s.dir) + t.log
    ensures forall i | 0 <= i < |t.log| :: SequenceOf(t.log[i]).Some? && AboveAll(s.dir, SequenceOf(t.log[i]).value)
    ensures forall i, j | 0 <= i < j < |t.log| :: SequenceOf(t.log[i]).value < SequenceOf(t.log[j]).value
    ensures forall w | 0 <= w < |t.writers| && t.writers[w].pc.Refused? :: Blocked(t.dir, t.writers[w].stamp)
  {
    QuietRunIsOrdered(s, actions, t);
    forall w | 0 <= w < |t.writers| && t.writers[w].pc.Refused? ensures Blocked(t.dir, t.writers[w].stamp) {
      assert WriterOrdered(t.dir, t.writers[w]);
    }
  }

  // ---------------------------------------------------------------- a receipt linked outside the lock

  /** Exactly when a writer that listed one directory and links into a later one ends above every receipt: when no
      receipt that appeared in between reaches its number. */
  lemma NumberStaysAboveExactlyWhen(listed: Dir, now: Dir)
    requires forall name | name in listed && !IsDotFile(name) :: name in now && now[name] == listed[name]
    ensures AboveAll(now, NextSequence(listed)) <==>
      forall name | IsReceipt(now, name) && name !in listed && SequenceOf(name).Some? ::
        SequenceOf(name).value < NextSequence(listed)
  {
    NextIsTheLeastAbove(listed, 0);
    forall name | IsReceipt(now, name) && name in listed && SequenceOf(name).Some?
      ensures SequenceOf(name).value < NextSequence(listed)
    {
      assert IsReceipt(listed, name);
    }
  }

  /** A receipt linked outside the lock between a writer's listing and its link can take the same number: the two
      names differ, the numbers do not. */
  lemma OutsideTheLockNumbersRepeat(stamp: string, foreign: string, text: string)
    requires IsLabel(stamp) && IsLabel(foreign) && stamp != foreign
    ensures exists s, actions, t :: (Initial(s) && Run(s, actions, t)
      && IsReceipt(t.dir, NameFor(1, stamp)) && IsReceipt(t.dir, NameFor(1, foreign)))
    ensures NameFor(1, stamp) != NameFor(1, foreign)
    ensures SequenceOf(NameFor(1, stamp)) == SequenceOf(NameFor(1, foreign)) == Some(1)
  {
    NumberRoundTrips(1, stamp);
    NumberRoundTrips(1, foreign);
    NamesDiffer(1, stamp, foreign);
    var s, actions, t := RacingRun(stamp, text, NameFor(1, stamp), NameFor(1, foreign));
  }

  lemma RacingRun(stamp: string, text: string, mine: string, theirs: string)
    returns (s: State, actions: seq<Action>, t: State)
    requires IsLabel(stamp) && mine == NameFor(1, stamp) && mine != theirs
    ensures Initial(s) && Run(s, actions, t)
    ensures t.dir == map[theirs := Regular(text), mine := Regular(text)]
  {
    s := State(map[], None, [Writer(stamp, text, Waiting)], []);
    assert ReceiptNames(s.dir) == [] by {
      NamesAreReceipts(s.dir);
      assert forall name | name in ReceiptNames(s.dir) :: IsReceipt(s.dir, name);
    }
    assert NextSequence(s.dir) == 1;
    var a, b, c, d := Acquire(0), List(0), Other(theirs, Regular(text)), Link(0);
    var s1 := State(map[], Some(0), [Writer(stamp, text, Choosing(0))], []);
    assert Next(s, a) == s1;
    var s2 := State(map[], Some(0), [Writer(stamp, text, Chosen(0, 1))], []);
    assert Next(s1, b) == s2;
    var s3 := s2.(dir := map[theirs := Regular(text)]);
    assert Next(s2, c) == s3;
    t := Next(s3, d);
    FourSteps(s, a, s1, b, s2, c, s3, d, t);
    actions := [a, b, c, d];
  }

  lemma FourSteps(s: State, a: Action, s1: State, b: Action, s2: State, c: Action, s3: State, d: Action, t: State)
    requires Enabled(s, a) && s1 == Next(s, a) && Enabled(s1, b) && s2 == Next(s1, b)
    requires Enabled(s2, c) && s3 == Next(s2, c) && Enabled(s3, d) && t == Next(s3, d)
    ensures Run(s, [a, b, c, d], t)
  {
    assert [] + [a] == [a] && [a] + [b] == [a, b] && [a, b] + [c] == [a, b, c] && [a, b, c] + [d] == [a, b, c, d];
    RunSnoc(s, [], s, a);
    RunSnoc(s, [a], s1, b);
    RunSnoc(s, [a, b], s2, c);
    RunSnoc(s, [a, b, c], s3, d);
  }

  lemma NamesDiffer(number: nat, stamp: string, foreign: string)
    requires stamp != foreign
    ensures NameFor(number, stamp) != NameFor(number, foreign)
  {
    var digits := PadLeft(Print(number), 8) + "-";
    assert NameFor(number, stamp)[|digits|..] == stamp + ".json";
    assert NameFor(number, foreign)[|digits|..] == foreign + ".json";
    EndingsDiffer(stamp, foreign, ".json");
  }

  lemma EndingsDiffer(a: string, b: string, ending: string)
    requires a != b
    ensures a + ending != b + ending
  {
    assert |a| == |b| ==> (a + ending)[..|a|] == a && (b + ending)[..|b|] == b;
  }

  lemma RunSnoc(s: State, actions: seq<Action>, u: State, a: Action)
    requires Run(s, actions, u) && Enabled(u, a)
    ensures Run(s, actions + [a], Next(u, a))
  {
    assert (actions + [a])[..|actions|] == actions;
  }
}
