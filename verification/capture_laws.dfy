/** What every sequence of captures keeps, and what replaying or delaying one can do. */
module CaptureLaws {
  import opened Wrappers
  import opened Json
  import opened Capture

  // ---------------------------------------------------------------- the record invariant

  predicate WellFormed(r: Record) {
    && (r.utilization.Some? <==> r.assumed.Some?)
    && (r.utilization.Some? ==> r.observedAt.Some? && 0.0 <= r.utilization.value <= 1.0)
    && (r.assumed.Some? ==> r.assumed.value == 0.0 || (r.assumed.value == 1.0 && r.utilization == Some(1.0)))
    && (r.observedAt.Some? ==> r.observedAt.value > 0.0)
    && (r.reset.Some? <==> r.resetObservedAt.Some?)
    && (r.reset.Some? ==> r.reset.value > 0.0 && r.resetObservedAt.value > 0.0)
  }

  predicate WellFormedOption(r: Option<Record>) {
    r.Some? ==> WellFormed(r.value)
  }

  lemma StepKeepsWellFormed(info: Fields, w: Window, at: real, prev: Option<Record>)
    requires at > 0.0 && WellFormedOption(prev)
    ensures WellFormedOption(StepRecord(info, w, at, prev))
  {
    var rec := prev.GetOr(EMPTY);
    var update := Update(info, w, rec, at);
    if update.Some? {
      var c := Measure(info, update.value, Forced(info, w, rec, at), at, rec);
      assert WellFormed(c);
      assert WellFormed(NoteReset(update.value, at, c));
    }
  }

  lemma {:induction false} FoldKeepsWellFormed(lines: seq<Line>, w: Window, at: real, prev: Option<Record>)
    requires at > 0.0 && WellFormedOption(prev)
    ensures WellFormedOption(Fold(lines, w, at, prev))
  {
    if lines != [] {
      FoldKeepsWellFormed(lines[..|lines| - 1], w, at, prev);
      var info := Info(lines[|lines| - 1]);
      if info.Some? {
        StepKeepsWellFormed(info.value, w, at, Fold(lines[..|lines| - 1], w, at, prev));
      }
    }
  }

  /** Reading two captures one after the other is reading them as one. */
  lemma {:induction false} FoldConcat(x: seq<Line>, y: seq<Line>, w: Window, at: real, r: Option<Record>)
    ensures Fold(x + y, w, at, r) == Fold(y, w, at, Fold(x, w, at, r))
  {
    if y == [] {
      assert x + y == x;
    } else {
      var init := y[..|y| - 1];
      FoldConcat(x, init, w, at, r);
      assert (x + y)[..|x + y| - 1] == x + init;
    }
  }

  // ---------------------------------------------------------------- observation times

  function SeenAt(r: Option<Record>): real {
    r.GetOr(EMPTY).observedAt.GetOr(0.0)
  }

  function ResetSeenAt(r: Option<Record>): real {
    r.GetOr(EMPTY).resetObservedAt.GetOr(0.0)
  }

  /** Nothing in the record was observed after the capture. */
  predicate NothingNewer(r: Option<Record>, at: real) {
    SeenAt(r) <= at && ResetSeenAt(r) <= at
  }

  /** Merging never lets an observation time go back, never moves it to anything but the capture's own stamp,
      and never drops a record. */
  lemma {:induction false} TimesNeverDecrease(lines: seq<Line>, w: Window, at: real, prev: Option<Record>)
    ensures SeenAt(Fold(lines, w, at, prev)) == SeenAt(prev)
            || SeenAt(prev) <= at == SeenAt(Fold(lines, w, at, prev))
    ensures ResetSeenAt(Fold(lines, w, at, prev)) == ResetSeenAt(prev)
            || ResetSeenAt(prev) <= at == ResetSeenAt(Fold(lines, w, at, prev))
    ensures prev.Some? ==> Fold(lines, w, at, prev).Some?
  {
    if lines != [] {
      TimesNeverDecrease(lines[..|lines| - 1], w, at, prev);
    }
  }

  /** A capture older than what the record already holds writes no measurement: the record keeps its utilization, or
      loses it, and it can lose it only when it was exactly one. */
  lemma {:induction false} StaleCaptureWritesNothing(lines: seq<Line>, w: Window, at: real, prev: Record)
    requires prev.observedAt.Some? && prev.observedAt.value > at
    ensures var r := Fold(lines, w, at, Some(prev));
      && r.Some? && r.value.observedAt == prev.observedAt
      && (r.value.utilization == prev.utilization
          || (prev.utilization == Some(1.0) && r.value.utilization == None))
    ensures prev.resetObservedAt.Some? && prev.resetObservedAt.value > at ==>
      var r := Fold(lines, w, at, Some(prev)).value;
      r.reset == prev.reset && r.resetObservedAt == prev.resetObservedAt
  {
    if lines != [] {
      StaleCaptureWritesNothing(lines[..|lines| - 1], w, at, prev);
    }
  }

  /** An allowed event for a window that carries no measure. */
  function BareAllowed(w: Window): Line {
    Parsed(Obj(map["type" := Str("rate_limit_event"),
                   "rate_limit_info" := Obj(map["status" := Str("allowed"), "rateLimitType" := Str(WindowName(w))])]))
  }

  lemma BareAllowedNames(info: Fields, w: Window)
    requires info == map["status" := Str("allowed"), "rateLimitType" := Str(WindowName(w))]
    ensures Info(BareAllowed(w)) == Some(info) && !Rejected(info)
    ensures Scoped(info, w) && Named(info, w) == Some(map[])
  {
    assert Measures(info) == map[];
    assert Child(info, w) == None;
  }

  /** The line says that the window has recovered and gives no measure for it: it names the window as allowed, is not
      a rejection of that very window, and says allowed itself, for the event or for the window. */
  predicate ShowsRecovery(line: Line, w: Window) {
    match Info(line)
    case None => false
    case Some(info) =>
      && Named(info, w).Some?
      && var named := Named(info, w).value;
         && IsAllowed(LocalStatus(named)) && Number(Get(named, "utilization")).None?
         && !(Rejected(info) && Scoped(info, w))
         && (IsAllowed(Get(info, "status")) || "status" in named)
  }

  predicate AnyRecovery(lines: seq<Line>, w: Window) {
    exists i | 0 <= i < |lines| :: ShowsRecovery(lines[i], w)
  }

  lemma StaleStepErases(line: Line, w: Window, at: real, prev: Record)
    requires prev.observedAt.Some? && prev.observedAt.value > at && prev.utilization == Some(1.0)
    ensures StepLine(line, w, at, Some(prev)).Some?
    ensures StepLine(line, w, at, Some(prev)).value.utilization == if ShowsRecovery(line, w) then None else Some(1.0)
  {
  }

  /** Exactly which captures erase a newer exhaustion: those with a line that shows the window recovered, whatever the
      record and the stamps are. */
  lemma {:induction false} StaleCaptureErasesExactlyWhen(lines: seq<Line>, w: Window, at: real, prev: Record)
    requires prev.observedAt.Some? && prev.observedAt.value > at && prev.utilization == Some(1.0)
    ensures Fold(lines, w, at, Some(prev)).Some?
    ensures Fold(lines, w, at, Some(prev)).value.utilization == if AnyRecovery(lines, w) then None else Some(1.0)
  {
    if lines != [] {
      var init, last := lines[..|lines| - 1], lines[|lines| - 1];
      StaleCaptureErasesExactlyWhen(init, w, at, prev);
      StaleCaptureWritesNothing(init, w, at, prev);
      StaleCaptureWritesNothing(lines, w, at, prev);
      assert AnyRecovery(lines, w) <==> AnyRecovery(init, w) || ShowsRecovery(last, w) by {
        assert forall i | 0 <= i < |init| :: lines[i] == init[i];
      }
      var between := Fold(init, w, at, Some(prev)).value;
      if between.utilization == Some(1.0) {
        StaleStepErases(last, w, at, between);
      } else {
        StaleCaptureWritesNothing([last], w, at, between);
        assert [last][..0] == [];
      }
    }
  }

  /** The shortest such capture: one allowed event without a measure. */
  lemma StaleRecoveryErases(w: Window)
    ensures var newer := Record(Some(1.0), Some(20.0), Some(0.0), None, None);
      Fold([BareAllowed(w)], w, 10.0, Some(newer)) == Some(newer.(utilization := None, assumed := None))
  {
    var newer := Record(Some(1.0), Some(20.0), Some(0.0), None, None);
    var lines := [BareAllowed(w)];
    var info: Fields := map["status" := Str("allowed"), "rateLimitType" := Str(WindowName(w))];
    assert lines[..0] == [];
    BareAllowedNames(info, w);
    assert Update(info, w, newer, 10.0) == Some(map[]);
  }

  // ---------------------------------------------------------------- remarks on one step

  /** Remark: after an unscoped rejection that is not older than the record, a window is marked exhausted by assumption
      exactly when neither the event nor the record showed it positively allowed. */
  lemma UnscopedRejectionMarks(info: Fields, w: Window, at: real, prev: Option<Record>)
    requires Unscoped(info) && SeenAt(prev) <= at
    ensures var child, rec := Named(info, w).GetOr(map[]), prev.GetOr(EMPTY);
      var shown := IsAllowed(Get(child, "status"))
                   || (Get(child, "status") != REJECTED
                       && ((exists x :: Number(Get(child, "utilization")) == Some(x) && x < 1.0) || Spare(rec, at)));
      var r := StepRecord(info, w, at, prev);
      && (!shown ==> r.Some? && r.value.utilization == Some(1.0) && r.value.assumed == Some(1.0)
                     && r.value.observedAt == Some(at))
      && (shown && r.GetOr(EMPTY).assumed == Some(1.0) ==> rec.assumed == Some(1.0))
  {
    var value := Number(Get(Named(info, w).GetOr(map[]), "utilization"));
    if value.Some? {
      assert Number(Get(Named(info, w).GetOr(map[]), "utilization")) == Some(value.value);
    }
  }

  /** Remark: a rejection scoped to one window exhausts that window, measured and not assumed, and leaves every window
      it does not name as it was. */
  lemma ScopedRejectionMarks(info: Fields, w: Window, v: Window, at: real, prev: Option<Record>)
    requires Rejected(info) && Scoped(info, w)
    ensures SeenAt(prev) <= at ==>
      StepRecord(info, w, at, prev).Some?
      && StepRecord(info, w, at, prev).value.utilization == Some(1.0)
      && StepRecord(info, w, at, prev).value.assumed == Some(0.0)
    ensures v != w && Child(info, v).None? ==> StepRecord(info, v, at, prev) == prev
  {
  }
}
