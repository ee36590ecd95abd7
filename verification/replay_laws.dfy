/** What reading a capture a second time does: nothing, except where an unscoped rejection met a record that the first
    reading changed. */
module ReplayLaws {
  import opened Wrappers
  import opened Json
  import opened Capture
  import opened CaptureLaws

  // ---------------------------------------------------------------- what a line says whatever the record holds

  /** The line rejects without naming a window, and what it says of this one does not settle whether it is allowed: the
      record decides. */
  predicate Undecided(line: Line, w: Window) {
    match Info(line)
    case None => false
    case Some(info) => Unscoped(info) && Unsettled(Named(info, w).GetOr(map[]))
  }

  predicate Unsettled(child: Fields) {
    var status, value := Get(child, "status"), Number(Get(child, "utilization"));
    !IsAllowed(status) && status != REJECTED && !(value.Some? && value.value < 1.0)
  }

  predicate AllDecided(lines: seq<Line>, w: Window) {
    forall i | 0 <= i < |lines| :: !Undecided(lines[i], w)
  }

  /** The update a decided line applies to a window; it does not depend on the record. */
  function SureUpdate(line: Line, w: Window): Option<Fields> {
    match Info(line)
    case None => None
    case Some(info) => Update(info, w, EMPTY, 0.0)
  }

  predicate Exhausts(line: Line, w: Window) {
    match Info(line)
    case None => false
    case Some(info) =>
      SureUpdate(line, w).Some?
      && (Forced(info, w, EMPTY, 0.0) || LocalStatus(SureUpdate(line, w).value) == REJECTED)
  }

  /** The line measures the window. */
  predicate Sets(line: Line, w: Window) {
    SureUpdate(line, w).Some?
    && (Exhausts(line, w) || Number(Get(SureUpdate(line, w).value, "utilization")).Some?)
  }

  /** The utilization a measuring line gives. */
  function Measured(line: Line, w: Window): real
    requires Sets(line, w)
  {
    var value := Number(Get(SureUpdate(line, w).value, "utilization")).GetOr(1.0);
    if Exhausts(line, w) || value >= 1.0 then 1.0 else value
  }

  /** One for an exhaustion that an unscoped rejection implies, zero for a measure. */
  function Mark(line: Line, w: Window): real {
    match Info(line)
    case None => 0.0
    case Some(info) => if Unscoped(info) && Forced(info, w, EMPTY, 0.0) then 1.0 else 0.0
  }

  /** The line gives the window a reset. */
  predicate SetsReset(line: Line, w: Window) {
    SureUpdate(line, w).Some? && GivesReset(SureUpdate(line, w).value)
  }

  predicate GivesReset(child: Fields) {
    Number(Get(child, "resetsAt")).GetOr(0.0) != 0.0
  }

  /** The line shows the window recovered and gives no measure. */
  predicate Clears(line: Line, w: Window) {
    SureUpdate(line, w).Some? && !Sets(line, w) && Recovers(Info(line).value, SureUpdate(line, w).value)
  }

  predicate AnySets(lines: seq<Line>, w: Window) {
    exists i | 0 <= i < |lines| :: Sets(lines[i], w)
  }

  predicate AnySetsReset(lines: seq<Line>, w: Window) {
    exists i | 0 <= i < |lines| :: SetsReset(lines[i], w)
  }

  predicate AnyClears(lines: seq<Line>, w: Window) {
    exists i | 0 <= i < |lines| :: Clears(lines[i], w)
  }

  predicate AnyUpdate(lines: seq<Line>, w: Window) {
    exists i | 0 <= i < |lines| :: SureUpdate(lines[i], w).Some?
  }

  lemma UsageSnoc(init: seq<Line>, last: Line, w: Window)
    ensures AnySets(init + [last], w) <==> AnySets(init, w) || Sets(last, w)
    ensures AnyClears(init + [last], w) <==> AnyClears(init, w) || Clears(last, w)
  {
    var lines := init + [last];
    assert lines[|init|] == last && forall i | 0 <= i < |init| :: lines[i] == init[i];
  }

  lemma ResetSnoc(init: seq<Line>, last: Line, w: Window)
    ensures AnySetsReset(init + [last], w) <==> AnySetsReset(init, w) || SetsReset(last, w)
    ensures AnyUpdate(init + [last], w) <==> AnyUpdate(init, w) || SureUpdate(last, w).Some?
  {
    var lines := init + [last];
    assert lines[|init|] == last && forall i | 0 <= i < |init| :: lines[i] == init[i];
  }

  // ---------------------------------------------------------------- captures without an undecided line

  /** utilization, its time and its mark */
  function Usage(r: Option<Record>): (Option<real>, Option<real>, Option<real>) {
    var rec := r.GetOr(EMPTY);
    (rec.utilization, rec.observedAt, rec.assumed)
  }

  function ResetPart(r: Option<Record>): (Option<real>, Option<real>) {
    var rec := r.GetOr(EMPTY);
    (rec.reset, rec.resetObservedAt)
  }

  function Cleared(r: Option<Record>): (Option<real>, Option<real>, Option<real>) {
    (None, r.GetOr(EMPTY).observedAt, None)
  }

  lemma SamePartsSameRecord(r: Option<Record>, s: Option<Record>)
    requires r.Some? && s.Some? && Usage(r) == Usage(s) && ResetPart(r) == ResetPart(s)
    ensures r == s
  {
  }

  predicate Settled(r: Option<Record>, at: real) {
    NothingNewer(r, at) && WellFormedOption(r)
  }

  lemma StepKeepsSettled(line: Line, w: Window, at: real, r: Option<Record>)
    requires at > 0.0 && Settled(r, at)
    ensures Settled(StepLine(line, w, at, r), at)
  {
    if Info(line).Some? {
      StepKeepsWellFormed(Info(line).value, w, at, r);
    }
  }

  lemma {:induction false} FoldKeepsSettled(lines: seq<Line>, w: Window, at: real, r: Option<Record>)
    requires at > 0.0 && Settled(r, at)
    ensures Settled(Fold(lines, w, at, r), at)
  {
    if lines != [] {
      FoldKeepsSettled(lines[..|lines| - 1], w, at, r);
      StepKeepsSettled(lines[|lines| - 1], w, at, Fold(lines[..|lines| - 1], w, at, r));
    }
  }

  lemma DecidedUpdate(line: Line, w: Window, at: real, r: Record)
    requires !Undecided(line, w) && Info(line).Some?
    ensures Update(Info(line).value, w, r, at) == SureUpdate(line, w)
    ensures Forced(Info(line).value, w, r, at) == Forced(Info(line).value, w, EMPTY, 0.0)
  {
  }

  /** One decided line, fully: what it does to a record that holds nothing newer. */
  lemma DecidedStep(line: Line, w: Window, at: real, r: Option<Record>)
    requires NothingNewer(r, at) && !Undecided(line, w)
    ensures StepLine(line, w, at, r).Some? <==> r.Some? || SureUpdate(line, w).Some?
    ensures Usage(StepLine(line, w, at, r)) ==
      if Sets(line, w) then (Some(Measured(line, w)), Some(at), Some(Mark(line, w)))
      else if Clears(line, w) && r.GetOr(EMPTY).utilization == Some(1.0) then Cleared(r) else Usage(r)
    ensures ResetPart(StepLine(line, w, at, r)) ==
      if SetsReset(line, w) then (Number(Get(SureUpdate(line, w).value, "resetsAt")), Some(at)) else ResetPart(r)
  {
    if Info(line).Some? {
      DecidedUpdate(line, w, at, r.GetOr(EMPTY));
    }
  }

  lemma {:induction false} DecidedUsage(lines: seq<Line>, w: Window, at: real, r: Option<Record>, s: Option<Record>)
    requires AllDecided(lines, w) && at > 0.0 && Settled(r, at) && Settled(s, at)
    ensures AnySets(lines, w) ==> Usage(Fold(lines, w, at, r)) == Usage(Fold(lines, w, at, s))
    ensures !AnySets(lines, w) ==>
      Usage(Fold(lines, w, at, r)) ==
      (if AnyClears(lines, w) && r.GetOr(EMPTY).utilization == Some(1.0) then Cleared(r) else Usage(r))
  {
    if lines != [] {
      var init, last := lines[..|lines| - 1], lines[|lines| - 1];
      assert AllDecided(init, w);
      DecidedUsage(init, w, at, r, s);
      assert lines == init + [last];
      FoldKeepsSettled(init, w, at, r);
      FoldKeepsSettled(init, w, at, s);
      DecidedStep(last, w, at, Fold(init, w, at, r));
      DecidedStep(last, w, at, Fold(init, w, at, s));
      UsageSnoc(init, last, w);
    }
  }

  lemma {:induction false} DecidedReset(lines: seq<Line>, w: Window, at: real, r: Option<Record>, s: Option<Record>)
    requires AllDecided(lines, w) && at > 0.0 && Settled(r, at) && Settled(s, at)
    ensures Fold(lines, w, at, r).Some? <==> r.Some? || AnyUpdate(lines, w)
    ensures AnySetsReset(lines, w) ==> ResetPart(Fold(lines, w, at, r)) == ResetPart(Fold(lines, w, at, s))
    ensures !AnySetsReset(lines, w) ==> ResetPart(Fold(lines, w, at, r)) == ResetPart(r)
  {
    if lines != [] {
      var init, last := lines[..|lines| - 1], lines[|lines| - 1];
      assert AllDecided(init, w);
      DecidedReset(init, w, at, r, s);
      assert lines == init + [last];
      FoldKeepsSettled(init, w, at, r);
      FoldKeepsSettled(init, w, at, s);
      DecidedStep(last, w, at, Fold(init, w, at, r));
      DecidedStep(last, w, at, Fold(init, w, at, s));
      ResetSnoc(init, last, w);
    }
  }

  /** Two records with nothing newer agree after a capture on every part the capture sets; on a part it does not
      set, each keeps its own. */
  lemma DecidedFold(lines: seq<Line>, w: Window, at: real, r: Option<Record>, s: Option<Record>)
    requires AllDecided(lines, w) && at > 0.0 && Settled(r, at) && Settled(s, at)
    ensures var a, b := Fold(lines, w, at, r), Fold(lines, w, at, s);
      && Settled(a, at) && Settled(b, at)
      && (a.Some? <==> r.Some? || AnyUpdate(lines, w))
      && (AnySets(lines, w) ==> Usage(a) == Usage(b))
      && (!AnySets(lines, w) ==>
            Usage(a) == (if AnyClears(lines, w) && r.GetOr(EMPTY).utilization == Some(1.0) then Cleared(r)
                         else Usage(r)))
      && (AnySetsReset(lines, w) ==> ResetPart(a) == ResetPart(b))
      && (!AnySetsReset(lines, w) ==> ResetPart(a) == ResetPart(r))
  {
    FoldKeepsSettled(lines, w, at, r);
    FoldKeepsSettled(lines, w, at, s);
    DecidedUsage(lines, w, at, r, s);
    DecidedReset(lines, w, at, r, s);
  }

  /** Reading the same capture again changes nothing, as long as the record holds nothing newer and no line of the
      capture leaves the verdict on this window to the record. */
  lemma ReplayIsIdempotent(lines: seq<Line>, w: Window, at: real, r: Option<Record>)
    requires AllDecided(lines, w) && at > 0.0 && Settled(r, at)
    ensures Fold(lines, w, at, Fold(lines, w, at, r)) == Fold(lines, w, at, r)
  {
    DecidedFold(lines, w, at, r, r);
    DecidedFold(lines, w, at, Fold(lines, w, at, r), r);
  }

  // ---------------------------------------------------------------- one line read twice

  /** The child of an undecided line that is applied although nothing is forced: it has no status at all. */
  predicate Applies(child: Option<Fields>) {
    child.Some? && "status" !in child.value
  }

  predicate Spares(r: Option<Record>, at: real) {
    Spare(r.GetOr(EMPTY), at)
  }

  /** Over a spare record the line makes a measure of a full window. */
  predicate Fills(line: Line, w: Window) {
    Undecided(line, w)
    && var child := Named(Info(line).value, w);
       Applies(child) && Number(Get(child.value, "utilization")).Some?
  }

  /** The reset the line leaves behind. */
  function LeavesReset(line: Line, w: Window, at: real, r: Option<Record>): (Option<real>, Option<real>)
    requires Undecided(line, w)
  {
    var named := Named(Info(line).value, w);
    var child := named.GetOr(map[]);
    if GivesReset(child) && (Applies(named) || !Spares(r, at)) then (Number(Get(child, "resetsAt")), Some(at))
    else ResetPart(r)
  }

  /** One undecided line, fully. */
  lemma UndecidedStep(line: Line, w: Window, at: real, r: Option<Record>)
    requires Undecided(line, w) && NothingNewer(r, at) && WellFormedOption(r) && at > 0.0
    ensures StepLine(line, w, at, r).Some?
    ensures Usage(StepLine(line, w, at, r)) ==
      if !Spares(r, at) then (Some(1.0), Some(at), Some(1.0))
      else if Fills(line, w) then (Some(1.0), Some(at), Some(0.0)) else Usage(r)
    ensures ResetPart(StepLine(line, w, at, r)) == LeavesReset(line, w, at, r)
  {
    var info := Info(line).value;
    assert Forced(info, w, r.GetOr(EMPTY), at) == !Spares(r, at);
  }

  /** Exactly which lines change a record on a second reading: unscoped rejections that name the window without a status
      and without a utilization below one, over a spare record, and either fill the window or give it a reset that has
      passed. */
  lemma LineReplayChangesExactlyWhen(line: Line, w: Window, at: real, r: Option<Record>)
    requires at > 0.0 && NothingNewer(r, at) && WellFormedOption(r)
    ensures var once := StepLine(line, w, at, r);
      StepLine(line, w, at, once) != once <==>
      && Undecided(line, w) && Spares(r, at)
      && var child := Named(Info(line).value, w);
         && Applies(child)
         && (Number(Get(child.value, "utilization")).Some?
             || 0.0 < Number(Get(child.value, "resetsAt")).GetOr(0.0) <= at)
  {
    var once := StepLine(line, w, at, r);
    var twice := StepLine(line, w, at, once);
    StepKeepsSettled(line, w, at, r);
    if Undecided(line, w) {
      UndecidedStep(line, w, at, r);
      UndecidedStep(line, w, at, once);
      if Usage(once) == Usage(twice) && ResetPart(once) == ResetPart(twice) {
        SamePartsSameRecord(once, twice);
      }
    } else {
      DecidedStep(line, w, at, r);
      DecidedStep(line, w, at, once);
      if once.Some? {
        SamePartsSameRecord(once, twice);
      }
    }
  }

  // ---------------------------------------------------------------- where an assumed exhaustion comes from

  /** The line assumes the window exhausted: an unscoped rejection that says nothing better of it, over a record that
      says nothing better either. */
  predicate Assumes(line: Line, w: Window, at: real, r: Option<Record>) {
    if Undecided(line, w) then !Spares(r, at) else Sets(line, w) && Mark(line, w) == 1.0
  }

  /** The line ends an assumed exhaustion, whatever the record: it measures the window or shows it recovered. */
  predicate Lifts(line: Line, w: Window) {
    !Undecided(line, w) && (Clears(line, w) || (Sets(line, w) && Mark(line, w) == 0.0))
  }

  predicate Assumed(r: Option<Record>) {
    r.GetOr(EMPTY).assumed == Some(1.0)
  }

  lemma StepAssumes(line: Line, w: Window, at: real, r: Option<Record>)
    requires at > 0.0 && Settled(r, at)
    ensures Assumed(StepLine(line, w, at, r)) <==> Assumes(line, w, at, r) || (Assumed(r) && !Lifts(line, w))
  {
    if Undecided(line, w) {
      UndecidedStep(line, w, at, r);
    } else {
      DecidedStep(line, w, at, r);
    }
  }

  /** No line from the k-th on lifts an assumption. */
  predicate NoneLifts(lines: seq<Line>, w: Window, k: nat) {
    forall j | k <= j < |lines| :: !Lifts(lines[j], w)
  }

  predicate AssumedAt(lines: seq<Line>, w: Window, at: real, r: Option<Record>, k: nat)
    requires k < |lines|
  {
    Assumes(lines[k], w, at, Fold(lines[..k], w, at, r)) && NoneLifts(lines, w, k + 1)
  }

  /** Exactly when a capture leaves a window exhausted by assumption: when some line assumed it, or the record already
      held it so, and no later line lifted it. */
  lemma {:induction false} AssumedExactlyWhen(lines: seq<Line>, w: Window, at: real, r: Option<Record>)
    requires at > 0.0 && Settled(r, at)
    ensures Assumed(Fold(lines, w, at, r)) <==>
      (Assumed(r) && NoneLifts(lines, w, 0)) || exists k | 0 <= k < |lines| :: AssumedAt(lines, w, at, r, k)
  {
    if lines != [] {
      var n := |lines| - 1;
      var init, last := lines[..n], lines[n];
      AssumedExactlyWhen(init, w, at, r);
      FoldKeepsSettled(init, w, at, r);
      StepAssumes(last, w, at, Fold(init, w, at, r));
      assert AssumedAt(lines, w, at, r, n) <==> Assumes(last, w, at, Fold(init, w, at, r));
      forall k | 0 <= k < n
        ensures AssumedAt(lines, w, at, r, k) <==> AssumedAt(init, w, at, r, k) && !Lifts(last, w)
      {
        AssumedEarlier(lines, w, at, r, k);
      }
      NoneLiftsSnoc(lines, w, 0);
    }
  }

  lemma NoneLiftsSnoc(lines: seq<Line>, w: Window, k: nat)
    requires k < |lines|
    ensures NoneLifts(lines, w, k) <==> NoneLifts(lines[..|lines| - 1], w, k) && !Lifts(lines[|lines| - 1], w)
  {
  }

  lemma AssumedEarlier(lines: seq<Line>, w: Window, at: real, r: Option<Record>, k: nat)
    requires k < |lines| - 1
    ensures AssumedAt(lines, w, at, r, k)
       <==> AssumedAt(lines[..|lines| - 1], w, at, r, k) && !Lifts(lines[|lines| - 1], w)
  {
    assert lines[..|lines| - 1][..k] == lines[..k];
    NoneLiftsSnoc(lines, w, k + 1);
  }

  // ---------------------------------------------------------------- a whole capture read twice

  predicate Low(r: Option<Record>) {
    r.GetOr(EMPTY).utilization.GetOr(1.0) < 1.0
  }

  /** A utilization below one after reading the same lines over two records is either one that both read, or each has
      kept its own. */
  lemma {:induction false} LowUsageIsReadOrKept(
      lines: seq<Line>, w: Window, at: real, r: Option<Record>, s: Option<Record>)
    requires at > 0.0 && Settled(r, at) && Settled(s, at)
    ensures var a, b := Fold(lines, w, at, r), Fold(lines, w, at, s);
      Low(a) && Low(b) ==> Usage(a) == Usage(b) || (Usage(a) == Usage(r) && Usage(b) == Usage(s))
  {
    if lines != [] {
      var init, last := lines[..|lines| - 1], lines[|lines| - 1];
      LowUsageIsReadOrKept(init, w, at, r, s);
      FoldKeepsSettled(init, w, at, r);
      FoldKeepsSettled(init, w, at, s);
      if Undecided(last, w) {
        UndecidedStep(last, w, at, Fold(init, w, at, r));
        UndecidedStep(last, w, at, Fold(init, w, at, s));
      } else {
        DecidedStep(last, w, at, Fold(init, w, at, r));
        DecidedStep(last, w, at, Fold(init, w, at, s));
      }
    }
  }

  /** Where the last line is that leaves the verdict on the window to the record, or -1. */
  function LastUndecided(lines: seq<Line>, w: Window): (r: int)
    ensures -1 <= r < |lines|
    ensures r >= 0 ==> Undecided(lines[r], w)
    ensures forall i | r < i < |lines| :: !Undecided(lines[i], w)
  {
    if lines == [] then -1
    else if Undecided(lines[|lines| - 1], w) then |lines| - 1
    else LastUndecided(lines[..|lines| - 1], w)
  }

  /** The second reading takes another usage from the last undecided line, and nothing later hides it: the record was
      spare there on one reading only, no later line measures the window, and a recovery after a filled window does not
      clear both. */
  predicate UsageDiverges(e: Line, after: seq<Line>, w: Window, at: real, x: Option<Record>, y: Option<Record>) {
    Spares(x, at) != Spares(y, at) && !AnySets(after, w) && !(Fills(e, w) && AnyClears(after, w))
  }

  predicate ResetDiverges(e: Line, after: seq<Line>, w: Window, at: real, x: Option<Record>, y: Option<Record>)
    requires Undecided(e, w)
  {
    !AnySetsReset(after, w) && LeavesReset(e, w, at, x) != LeavesReset(e, w, at, y)
  }

  /** The records that the two readings bring to the last undecided line make a difference that stays. */
  predicate ReplayDiverges(lines: seq<Line>, w: Window, at: real, r: Option<Record>) {
    var i := LastUndecided(lines, w);
    i >= 0 && DivergesAt(lines[..i], lines[i], lines[i + 1..], w, at, r)
  }

  predicate DivergesAt(before: seq<Line>, e: Line, after: seq<Line>, w: Window, at: real, r: Option<Record>)
    requires Undecided(e, w)
  {
    var once := Fold(before + [e] + after, w, at, r);
    var x, y := Fold(before, w, at, r), Fold(before, w, at, once);
    UsageDiverges(e, after, w, at, x, y) || ResetDiverges(e, after, w, at, x, y)
  }

  /** What the decided lines after the last undecided one leave of a difference. */
  lemma TailKeeps(after: seq<Line>, w: Window, at: real, p: Option<Record>, q: Option<Record>)
    requires AllDecided(after, w) && at > 0.0 && Settled(p, at) && Settled(q, at)
    requires p.GetOr(EMPTY).utilization.Some? && q.GetOr(EMPTY).utilization.Some?
    ensures var a, b := Fold(after, w, at, p), Fold(after, w, at, q);
      a == b <==>
      && (AnySets(after, w) || Usage(p) == Usage(q)
          || (AnyClears(after, w) && Full(p) && Full(q) && Cleared(p) == Cleared(q)))
      && (AnySetsReset(after, w) || ResetPart(p) == ResetPart(q))
  {
    var a, b := Fold(after, w, at, p), Fold(after, w, at, q);
    DecidedFold(after, w, at, p, q);
    DecidedFold(after, w, at, q, p);
    assert a == b <==> Usage(a) == Usage(b) && ResetPart(a) == ResetPart(b) by {
      if Usage(a) == Usage(b) && ResetPart(a) == ResetPart(b) {
        SamePartsSameRecord(a, b);
      }
    }
  }

  predicate Full(r: Option<Record>) {
    r.GetOr(EMPTY).utilization == Some(1.0)
  }

  /** Exactly which captures change a record, for one window, when they are read a second time. */
  lemma ReplayChangesExactlyWhen(lines: seq<Line>, w: Window, at: real, r: Option<Record>)
    requires at > 0.0 && Settled(r, at)
    ensures Fold(lines, w, at, Fold(lines, w, at, r)) != Fold(lines, w, at, r) <==> ReplayDiverges(lines, w, at, r)
  {
    var i := LastUndecided(lines, w);
    if i < 0 {
      ReplayIsIdempotent(lines, w, at, r);
    } else {
      SplitReplay(lines[..i], lines[i], lines[i + 1..], w, at, r);
      assert lines == lines[..i] + [lines[i]] + lines[i + 1..];
    }
  }

  lemma FoldAround(before: seq<Line>, e: Line, after: seq<Line>, w: Window, at: real, r: Option<Record>)
    ensures Fold(before + [e] + after, w, at, r) == Fold(after, w, at, StepLine(e, w, at, Fold(before, w, at, r)))
  {
    FoldConcat(before + [e], after, w, at, r);
    assert (before + [e])[..|before|] == before;
  }

  lemma SplitReplay(before: seq<Line>, e: Line, after: seq<Line>, w: Window, at: real, r: Option<Record>)
    requires at > 0.0 && Settled(r, at) && Undecided(e, w) && AllDecided(after, w)
    ensures var lines := before + [e] + after;
      Fold(lines, w, at, Fold(lines, w, at, r)) != Fold(lines, w, at, r) <==> DivergesAt(before, e, after, w, at, r)
  {
    var lines := before + [e] + after;
    var once := Fold(lines, w, at, r);
    var x, y := Fold(before, w, at, r), Fold(before, w, at, once);
    FoldKeepsSettled(lines, w, at, r);
    FoldKeepsSettled(before, w, at, r);
    FoldKeepsSettled(before, w, at, once);
    FoldAround(before, e, after, w, at, r);
    FoldAround(before, e, after, w, at, once);
    var p, q := StepLine(e, w, at, x), StepLine(e, w, at, y);
    UndecidedStep(e, w, at, x);
    UndecidedStep(e, w, at, y);
    StepKeepsSettled(e, w, at, x);
    StepKeepsSettled(e, w, at, y);
    TailKeeps(after, w, at, p, q);
    SpareTwice(before, e, after, w, at, r);
  }

  /** Where the record is spare on both readings and the line does not fill it, both bring the same usage. */
  lemma SpareTwice(before: seq<Line>, e: Line, after: seq<Line>, w: Window, at: real, r: Option<Record>)
    requires at > 0.0 && Settled(r, at) && Undecided(e, w) && AllDecided(after, w)
    ensures var x := Fold(before, w, at, r);
      var once := Fold(after, w, at, StepLine(e, w, at, x));
      var y := Fold(before, w, at, once);
      Spares(x, at) && Spares(y, at) && !Fills(e, w) && !AnySets(after, w) ==> Usage(x) == Usage(y)
  {
    var x := Fold(before, w, at, r);
    var p := StepLine(e, w, at, x);
    var once := Fold(after, w, at, p);
    FoldKeepsSettled(before, w, at, r);
    StepKeepsSettled(e, w, at, x);
    UndecidedStep(e, w, at, x);
    FoldKeepsSettled(after, w, at, p);
    DecidedFold(after, w, at, p, p);
    LowUsageIsReadOrKept(before, w, at, r, once);
  }

  // ---------------------------------------------------------------- a capture with one undecided line

  /** What decided lines make of a usage and of a reset, in terms of the lines alone where they set it. */
  function UsageAfter(lines: seq<Line>, w: Window, at: real, r: Option<Record>)
    : (Option<real>, Option<real>, Option<real>)
  {
    if AnySets(lines, w) then Usage(Fold(lines, w, at, None))
    else if AnyClears(lines, w) && Full(r) then Cleared(r) else Usage(r)
  }

  function ResetAfter(lines: seq<Line>, w: Window, at: real, r: Option<Record>): (Option<real>, Option<real>) {
    if AnySetsReset(lines, w) then ResetPart(Fold(lines, w, at, None)) else ResetPart(r)
  }

  lemma DecidedAfter(lines: seq<Line>, w: Window, at: real, r: Option<Record>)
    requires AllDecided(lines, w) && at > 0.0 && Settled(r, at)
    ensures Usage(Fold(lines, w, at, r)) == UsageAfter(lines, w, at, r)
    ensures ResetPart(Fold(lines, w, at, r)) == ResetAfter(lines, w, at, r)
  {
    DecidedUsage(lines, w, at, r, None);
    DecidedReset(lines, w, at, r, None);
  }

  /** A measured usage below one, and no reset but one still ahead. */
  predicate LowUsage(usage: (Option<real>, Option<real>, Option<real>)) {
    usage.0.GetOr(1.0) < 1.0 && usage.2.GetOr(0.0) == 0.0
  }

  predicate Ahead(reset: (Option<real>, Option<real>), at: real) {
    reset.0.GetOr(0.0) == 0.0 || reset.0.value > at
  }

  /** The first reading brings a spare record to the line after before. */
  predicate FirstSpare(before: seq<Line>, w: Window, at: real, r: Option<Record>) {
    LowUsage(UsageAfter(before, w, at, r)) && Ahead(ResetAfter(before, w, at, r), at)
  }

  /** The undecided line's own reset. */
  function GivenReset(e: Line, w: Window, at: real): (Option<real>, Option<real>)
    requires Undecided(e, w)
  {
    (Number(Get(Named(Info(e).value, w).GetOr(map[]), "resetsAt")), Some(at))
  }

  /** The undecided line gives a reset, and gives it whatever the record: its child has no status. */
  predicate Gives(e: Line, w: Window)
    requires Undecided(e, w)
  {
    GivesReset(Named(Info(e).value, w).GetOr(map[]))
  }

  predicate AlwaysGives(e: Line, w: Window)
    requires Undecided(e, w)
  {
    Gives(e, w) && Applies(Named(Info(e).value, w))
  }

  /** The reset in the record when the first reading is over. */
  function ResetOnce(before: seq<Line>, e: Line, after: seq<Line>, w: Window, at: real, r: Option<Record>)
    : (Option<real>, Option<real>)
    requires Undecided(e, w)
  {
    if AnySetsReset(after, w) then ResetPart(Fold(after, w, at, None))
    else if AlwaysGives(e, w) || (Gives(e, w) && !FirstSpare(before, w, at, r)) then GivenReset(e, w, at)
    else ResetAfter(before, w, at, r)
  }

  /** The second reading brings a spare record to the line: the usage is low by the lines before it, or was left low by
      the first reading, and the reset is still ahead. */
  predicate SecondSpare(before: seq<Line>, e: Line, after: seq<Line>, w: Window, at: real, r: Option<Record>)
    requires Undecided(e, w)
  {
    && (if AnySets(before, w) then LowUsage(Usage(Fold(before, w, at, None)))
        else if AnySets(after, w) then LowUsage(Usage(Fold(after, w, at, None)))
        else FirstSpare(before, w, at, r) && !Fills(e, w))
    && Ahead(if AnySetsReset(before, w) then ResetPart(Fold(before, w, at, None))
             else ResetOnce(before, e, after, w, at, r), at)
  }

  /** The reading on which the record is not spare, and only it, gives the window the line's reset. */
  predicate ResetTurns(before: seq<Line>, e: Line, w: Window, at: real, r: Option<Record>)
    requires Undecided(e, w)
  {
    && Gives(e, w) && !AlwaysGives(e, w)
    && (if FirstSpare(before, w, at, r) then ResetAfter(before, w, at, r) != GivenReset(e, w, at)
        else AnySetsReset(before, w) && ResetPart(Fold(before, w, at, None)) != GivenReset(e, w, at))
  }

  lemma SparesByParts(x: Option<Record>, at: real)
    ensures Spares(x, at) <==> LowUsage(Usage(x)) && Ahead(ResetPart(x), at)
  {
  }

  /** What the first reading leaves. */
  lemma OnceParts(before: seq<Line>, e: Line, after: seq<Line>, w: Window, at: real, r: Option<Record>)
    requires at > 0.0 && Settled(r, at) && AllDecided(before, w) && Undecided(e, w) && AllDecided(after, w)
    ensures var x := Fold(before, w, at, r);
      var once := Fold(before + [e] + after, w, at, r);
      && (Spares(x, at) <==> FirstSpare(before, w, at, r)) && ResetPart(x) == ResetAfter(before, w, at, r)
      && ResetPart(once) == ResetOnce(before, e, after, w, at, r)
      && (LowUsage(Usage(once)) <==>
            if AnySets(after, w) then LowUsage(Usage(Fold(after, w, at, None)))
            else FirstSpare(before, w, at, r) && !Fills(e, w))
  {
    var x := Fold(before, w, at, r);
    FoldKeepsSettled(before, w, at, r);
    DecidedAfter(before, w, at, r);
    SparesByParts(x, at);
    var p := StepLine(e, w, at, x);
    UndecidedStep(e, w, at, x);
    StepKeepsSettled(e, w, at, x);
    DecidedAfter(after, w, at, p);
    FoldAround(before, e, after, w, at, r);
  }

  lemma TwiceSpare(before: seq<Line>, e: Line, after: seq<Line>, w: Window, at: real, r: Option<Record>)
    requires at > 0.0 && Settled(r, at) && AllDecided(before, w) && Undecided(e, w) && AllDecided(after, w)
    ensures var once := Fold(before + [e] + after, w, at, r);
      var y := Fold(before, w, at, once);
      && (Spares(y, at) <==> SecondSpare(before, e, after, w, at, r))
      && ResetPart(y) == (if AnySetsReset(before, w) then ResetPart(Fold(before, w, at, None))
                          else ResetOnce(before, e, after, w, at, r))
  {
    var once := Fold(before + [e] + after, w, at, r);
    OnceParts(before, e, after, w, at, r);
    FoldKeepsSettled(before + [e] + after, w, at, r);
    DecidedAfter(before, w, at, once);
    SparesByParts(Fold(before, w, at, once), at);
  }

  /** Exactly which captures with one undecided line change a record on a second reading, said of their lines and the
      record as it was: the record is spare at that line on one reading only, and no later line hides it. */
  lemma OneUndecidedChangesExactlyWhen(
      before: seq<Line>, e: Line, after: seq<Line>, w: Window, at: real, r: Option<Record>)
    requires at > 0.0 && Settled(r, at) && AllDecided(before, w) && Undecided(e, w) && AllDecided(after, w)
    ensures var lines := before + [e] + after;
      Fold(lines, w, at, Fold(lines, w, at, r)) != Fold(lines, w, at, r) <==>
      && FirstSpare(before, w, at, r) != SecondSpare(before, e, after, w, at, r)
      && ((!AnySets(after, w) && !(Fills(e, w) && AnyClears(after, w)))
          || (!AnySetsReset(after, w) && ResetTurns(before, e, w, at, r)))
  {
    SplitReplay(before, e, after, w, at, r);
    OnceParts(before, e, after, w, at, r);
    TwiceSpare(before, e, after, w, at, r);
  }

  // ---------------------------------------------------------------- the two ways, in one line each

  /** An unscoped rejection with a child for the window. */
  function UnscopedRejection(w: Window, child: Fields): Line {
    Parsed(Obj(map["type" := Str("rate_limit_event"), "rate_limit_info" := Obj(UnscopedInfo(w, child))]))
  }

  function UnscopedInfo(w: Window, child: Fields): Fields {
    map["status" := REJECTED, "unifiedWindows" := Obj(map[WindowName(w) := Obj(child)])]
  }

  lemma UnscopedRejectionNames(w: Window, child: Fields)
    ensures Info(UnscopedRejection(w, child)) == Some(UnscopedInfo(w, child))
    ensures Unscoped(UnscopedInfo(w, child)) && Named(UnscopedInfo(w, child), w) == Some(child)
  {
    assert Child(UnscopedInfo(w, child), w) == Some(child);
  }

  /** A child measured full: the first reading measures it, the second assumes it. */
  lemma FullReplayDiffers(w: Window)
    ensures var line := UnscopedRejection(w, map["utilization" := Num(1.0)]);
      var once := StepLine(line, w, 10.0, Some(Record(Some(0.5), Some(5.0), Some(0.0), None, None)));
      && once == Some(Record(Some(1.0), Some(10.0), Some(0.0), None, None))
      && StepLine(line, w, 10.0, once) == Some(Record(Some(1.0), Some(10.0), Some(1.0), None, None))
  {
    UnscopedRejectionNames(w, map["utilization" := Num(1.0)]);
  }

  /** A child that carries only a reset that has passed: the first reading stores it and keeps the measure, the second
      no longer finds the record spare and assumes the window exhausted. */
  lemma PastResetReplayDiffers(w: Window)
    ensures var line := UnscopedRejection(w, map["resetsAt" := Num(5.0)]);
      var once := StepLine(line, w, 10.0, Some(Record(Some(0.5), Some(5.0), Some(0.0), None, None)));
      && once == Some(Record(Some(0.5), Some(5.0), Some(0.0), Some(5.0), Some(10.0)))
      && StepLine(line, w, 10.0, once) == Some(Record(Some(1.0), Some(10.0), Some(1.0), Some(5.0), Some(10.0)))
  {
    UnscopedRejectionNames(w, map["resetsAt" := Num(5.0)]);
  }
}
