/** Merging native rate-limit events into per-window records: parse_capture of
    observability/claude_usage_metrics.py. */
module Capture {
  import opened Wrappers
  import opened Json

  datatype Window = FiveHour | SevenDay

  const WINDOWS: seq<Window> := [FiveHour, SevenDay]

  function WindowName(w: Window): string {
    match w
    case FiveHour => "five_hour"
    case SevenDay => "seven_day"
  }

  function Position(w: Window): (i: nat)
    ensures i < |WINDOWS| && WINDOWS[i] == w
  {
    match w
    case FiveHour => 0
    case SevenDay => 1
  }

  const REJECTED: Json := Str("rejected")
  const INVALID: Json := Str("invalid")

  predicate IsAllowed(v: Json) {
    v == Str("allowed") || v == Str("allowed_warning")
  }

  predicate IsStatus(v: Json) {
    IsAllowed(v) || v == REJECTED
  }

  /** One line of a capture after text.splitlines() and json.loads. */
  datatype Line = Blank | Unparsable | Parsed(value: Json)

  datatype Record = Record(
    utilization: Option<real>,
    observedAt: Option<real>,
    assumed: Option<real>,
    reset: Option<real>,
    resetObservedAt: Option<real>)

  const EMPTY: Record := Record(None, None, None, None, None)

  type Windows = map<Window, Record>

  function Lookup<K, V>(m: map<K, V>, k: K): Option<V> {
    if k in m then Some(m[k]) else None
  }

  // ---------------------------------------------------------------- what one event says

  /** The rate_limit_info of a line that counts as a rate-limit event, and None for every other line. */
  function Info(line: Line): (r: Option<Fields>)
    ensures r.Some? ==> IsStatus(Get(r.value, "status"))
  {
    match line
    case Parsed(Obj(event)) =>
      if Get(event, "type") != Str("rate_limit_event") then None
      else (match Get(event, "rate_limit_info")
            case Obj(info) => if IsStatus(Get(info, "status")) then Some(info) else None
            case _ => None)
    case _ => None
  }

  /** Lines counted as errors before any window is looked at. */
  predicate BadLine(line: Line) {
    match line
    case Blank => false
    case Unparsable => true
    case Parsed(Obj(event)) => Get(event, "type") == Str("rate_limit_event") && Info(line).None?
    case Parsed(_) => true
  }

  function UnifiedOf(info: Fields): Fields {
    if "unifiedWindows" in info && info["unifiedWindows"].Obj? then info["unifiedWindows"].fields else map[]
  }

  function Child(info: Fields, w: Window): Option<Fields> {
    var unified, name := UnifiedOf(info), WindowName(w);
    if name in unified && unified[name].Obj? then Some(unified[name].fields) else None
  }

  predicate Scoped(info: Fields, w: Window) {
    Get(info, "rateLimitType") == Str(WindowName(w))
  }

  function ScopeOf(info: Fields): (r: Option<Window>)
    ensures forall w :: r == Some(w) <==> Scoped(info, w)
  {
    if Scoped(info, FiveHour) then Some(FiveHour)
    else if Scoped(info, SevenDay) then Some(SevenDay)
    else None
  }

  const MEASURES: seq<string> := ["utilization", "resetsAt"]

  function Measures(info: Fields): (m: Fields)
    ensures forall k :: k in m <==> k in info && (k == "utilization" || k == "resetsAt")
    ensures forall k | k in m :: m[k] == info[k]
  {
    Keep(info, MEASURES, (_, v) => v)
  }

  /** The update an event names for a window: its unifiedWindows child, overlaid with the event's own
      measures when the event is scoped to that window. */
  function Named(info: Fields, w: Window): Option<Fields> {
    if Scoped(info, w) then Some(Child(info, w).GetOr(map[]) + Measures(info)) else Child(info, w)
  }

  predicate Rejected(info: Fields) {
    Get(info, "status") == REJECTED
  }

  predicate Unscoped(info: Fields) {
    Rejected(info) && ScopeOf(info).None?
  }

  function LocalStatus(update: Fields): Json {
    if "status" in update then update["status"] else Str("allowed")
  }

  // ---------------------------------------------------------------- merging one event into one record

  /** The record positively shows an allowed window: below one, measured, and not past its reset. */
  predicate Spare(prev: Record, at: real) {
    && prev.utilization.GetOr(1.0) < 1.0
    && prev.assumed.GetOr(0.0) == 0.0
    && (prev.reset.GetOr(0.0) == 0.0 || prev.reset.value > at)
  }

  predicate Allowed(update: Fields, prev: Record, at: real) {
    var status, value := Get(update, "status"), Number(Get(update, "utilization"));
    if IsAllowed(status) then true
    else if status == REJECTED then false
    else (value.Some? && value.value < 1.0) || Spare(prev, at)
  }

  predicate Forced(info: Fields, w: Window, prev: Record, at: real) {
    if Unscoped(info) then !Allowed(Named(info, w).GetOr(map[]), prev, at)
    else Rejected(info) && Scoped(info, w)
  }

  predicate Recovers(info: Fields, update: Fields) {
    IsAllowed(Get(info, "status")) || (IsAllowed(LocalStatus(update)) && "status" in update)
  }

  function Measure(info: Fields, update: Fields, forced: bool, at: real, current: Record): Record {
    var exhausted := forced || LocalStatus(update) == REJECTED;
    var measured := Number(Get(update, "utilization"));
    var u := if exhausted then Some(1.0) else measured;
    var c := if u.None? && current.utilization == Some(1.0) && Recovers(info, update)
             then current.(utilization := None, assumed := None) else current;
    if u.Some? && at >= c.observedAt.GetOr(0.0)
    then c.(utilization := Some(if u.value < 1.0 then u.value else 1.0), observedAt := Some(at),
            assumed := Some(if Unscoped(info) && forced then 1.0 else 0.0))
    else c
  }

  function NoteReset(update: Fields, at: real, c: Record): Record {
    var reset := Number(Get(update, "resetsAt"));
    if reset.Some? && reset.value != 0.0 && at >= c.resetObservedAt.GetOr(0.0)
    then c.(reset := reset, resetObservedAt := Some(at)) else c
  }

  /** Which window updates an event applies: those named with a known status, and those forced. */
  function Update(info: Fields, w: Window, prev: Record, at: real): Option<Fields> {
    var named := Named(info, w);
    if Forced(info, w, prev, at) then Some(named.GetOr(map[]))
    else if named.Some? && IsStatus(LocalStatus(named.value)) then named
    else None
  }

  function StepRecord(info: Fields, w: Window, at: real, prev: Option<Record>): Option<Record> {
    var o := prev.GetOr(EMPTY);
    match Update(info, w, o, at)
    case None => prev
    case Some(update) => Some(NoteReset(update, at, Measure(info, update, Forced(info, w, o, at), at, o)))
  }

  function StepLine(line: Line, w: Window, at: real, prev: Option<Record>): Option<Record> {
    match Info(line)
    case None => prev
    case Some(info) => StepRecord(info, w, at, prev)
  }

  function Fold(lines: seq<Line>, w: Window, at: real, prev: Option<Record>): Option<Record> {
    if lines == [] then prev
    else StepLine(lines[|lines| - 1], w, at, Fold(lines[..|lines| - 1], w, at, prev))
  }

  function Seen(lines: seq<Line>): nat {
    if lines == [] then 0
    else Seen(lines[..|lines| - 1]) + if Info(lines[|lines| - 1]).Some? then 1 else 0
  }

  // ---------------------------------------------------------------- the error count

  function One(b: bool): nat { if b then 1 else 0 }

  predicate BadUnified(info: Fields) {
    "unifiedWindows" in info && !info["unifiedWindows"].Obj?
  }

  predicate BadChild(info: Fields, w: Window) {
    WindowName(w) in UnifiedOf(info) && Child(info, w).None?
  }

  function UpdateErrors(update: Fields, forced: bool): nat {
    var bad := !IsStatus(LocalStatus(update));
    var usage, reset := Get(update, "utilization"), Get(update, "resetsAt");
    if bad && !forced then 1
    else One(bad) + One(usage != Null && Number(usage).None?)
         + One(reset != Null && (Number(reset).None? || Number(reset) == Some(0.0)))
  }

  function WindowErrors(info: Fields, w: Window, at: real, prev: Record): nat {
    var named, forced := Named(info, w), Forced(info, w, prev, at);
    if named.Some? || forced then UpdateErrors(named.GetOr(map[]), forced) else 0
  }

  function EventErrors(info: Fields, at: real, five: Option<Record>, seven: Option<Record>): nat {
    One(BadUnified(info)) + One(BadChild(info, FiveHour)) + One(BadChild(info, SevenDay))
    + WindowErrors(info, FiveHour, at, five.GetOr(EMPTY))
    + WindowErrors(info, SevenDay, at, seven.GetOr(EMPTY))
  }

  function FoldErrors(lines: seq<Line>, at: real, five: Option<Record>, seven: Option<Record>): nat {
    if lines == [] then 0
    else
      var init, line := lines[..|lines| - 1], lines[|lines| - 1];
      FoldErrors(init, at, five, seven) +
      match Info(line)
      case None => One(BadLine(line))
      case Some(info) =>
        EventErrors(info, at, Fold(init, FiveHour, at, five), Fold(init, SevenDay, at, seven))
  }

  // ---------------------------------------------------------------- the loops of parse_capture

  /** The updates dictionary of one event, before any window is forced. */
  method GatherUpdates(info: Fields) returns (updates: map<Window, Fields>, errors: nat)
    ensures forall w :: Lookup(updates, w) == Named(info, w)
    ensures errors == One(BadUnified(info)) + One(BadChild(info, FiveHour)) + One(BadChild(info, SevenDay))
  {
    errors := 0;
    var unified: Fields := map[];
    if "unifiedWindows" in info {
      match info["unifiedWindows"] {
        case Obj(u) => unified := u;
        case _ => errors := errors + 1;
      }
    }
    updates := map[];
    for i := 0 to |WINDOWS|
      invariant unified == UnifiedOf(info)
      invariant forall w :: Lookup(updates, w) == if Position(w) < i then Child(info, w) else None
      invariant errors == One(BadUnified(info)) + One(i > 0 && BadChild(info, FiveHour))
                          + One(i > 1 && BadChild(info, SevenDay))
    {
      var name := WindowName(WINDOWS[i]);
      if name in unified {
        if unified[name].Obj? {
          updates := updates[WINDOWS[i] := unified[name].fields];
        } else {
          errors := errors + 1;
        }
      }
    }
    match ScopeOf(info) {
      case Some(w) =>
        updates := updates[w := (if w in updates then updates[w] else map[]) + Measures(info)];
      case None =>
    }
  }

  /** The windows a rejection marks as exhausted: its own, or, when it names none, all not positively allowed. */
  method ForceWindows(info: Fields, at: real, updates: map<Window, Fields>, result: Windows)
    returns (forced: set<Window>)
    requires forall w :: Lookup(updates, w) == Named(info, w)
    ensures forall w :: w in forced <==> Forced(info, w, Lookup(result, w).GetOr(EMPTY), at)
  {
    forced := {};
    if !Unscoped(info) {
      match ScopeOf(info) {
        case Some(w) => forced := if Rejected(info) then {w} else {};
        case None =>
      }
      return;
    }
    for i := 0 to |WINDOWS|
      invariant forall w :: w in forced <==>
                  Position(w) < i && Forced(info, w, Lookup(result, w).GetOr(EMPTY), at)
    {
      var w := WINDOWS[i];
      assert Lookup(updates, w) == Named(info, w);
      var child := if w in updates then updates[w] else map[];
      if !Allowed(child, if w in result then result[w] else EMPTY, at) {
        forced := forced + {w};
      }
    }
  }

  /** One pass of the body of parse_capture's line loop, for a line that is an event. */
  method MergeEvent(info: Fields, at: real, result: Windows) returns (merged: Windows, errors: nat)
    ensures forall w :: Lookup(merged, w) == StepRecord(info, w, at, Lookup(result, w))
    ensures errors == EventErrors(info, at, Lookup(result, FiveHour), Lookup(result, SevenDay))
  {
    var updates;
    updates, errors := GatherUpdates(info);
    ghost var before := errors;
    var forced := ForceWindows(info, at, updates, result);
    merged := result;
    for i := 0 to |WINDOWS|
      invariant forall w :: Lookup(merged, w) ==
                            (if Position(w) < i then StepRecord(info, w, at, Lookup(result, w)) else Lookup(result, w))
      invariant errors == before
        + (if i > 0 then WindowErrors(info, FiveHour, at, Lookup(result, FiveHour).GetOr(EMPTY)) else 0)
        + (if i > 1 then WindowErrors(info, SevenDay, at, Lookup(result, SevenDay).GetOr(EMPTY)) else 0)
    {
      var w := WINDOWS[i];
      var current, bad := MergeWindow(info, w, at, Lookup(updates, w), w in forced, Lookup(merged, w));
      errors := errors + bad;
      merged := Put(merged, w, current);
    }
  }

  function Put(ws: Windows, w: Window, r: Option<Record>): (m: Windows)
    requires r.None? ==> w !in ws
    ensures forall v :: Lookup(m, v) == if v == w then r else Lookup(ws, v)
  {
    if r.Some? then ws[w := r.value] else ws
  }

  /** The loop over updates.items(), for one window; None when its dictionary is not even created. */
  method MergeWindow(info: Fields, w: Window, at: real, named: Option<Fields>, forced: bool, prev: Option<Record>)
    returns (merged: Option<Record>, errors: nat)
    requires named == Named(info, w) && forced == Forced(info, w, prev.GetOr(EMPTY), at)
    ensures merged == StepRecord(info, w, at, prev)
    ensures merged.None? ==> prev.None?
    ensures errors == WindowErrors(info, w, at, prev.GetOr(EMPTY))
  {
    if named.None? && !forced {
      return prev, 0;
    }
    var update := named.GetOr(map[]);
    merged, errors := ApplyUpdate(info, update, forced, at, prev);
  }

  method ApplyUpdate(info: Fields, update: Fields, forced: bool, at: real, prev: Option<Record>)
    returns (merged: Option<Record>, errors: nat)
    ensures merged == if IsStatus(LocalStatus(update)) || forced
                      then Some(NoteReset(update, at, Measure(info, update, forced, at, prev.GetOr(EMPTY))))
                      else prev
    ensures errors == UpdateErrors(update, forced)
  {
    var local := LocalStatus(update);
    errors := 0;
    if !IsStatus(local) {
      errors := errors + 1;
      if !forced {
        return prev, errors;
      }
    }
    var current := prev.GetOr(EMPTY);
    var utilization := Number(Get(update, "utilization"));
    if "utilization" in update && update["utilization"] != Null && utilization.None? {
      errors := errors + 1;
    }
    if forced || local == REJECTED {
      utilization := Some(1.0);
    } else if utilization.None? && current.utilization == Some(1.0) && Recovers(info, update) {
      current := current.(utilization := None, assumed := None);
    }
    if utilization.Some? && at >= current.observedAt.GetOr(0.0) {
      current := current.(utilization := Some(if utilization.value < 1.0 then utilization.value else 1.0),
                          observedAt := Some(at),
                          assumed := Some(if Unscoped(info) && forced then 1.0 else 0.0));
    }
    var reset := Number(Get(update, "resetsAt"));
    if "resetsAt" in update && update["resetsAt"] != Null && (reset.None? || reset.value == 0.0) {
      errors := errors + 1;
    }
    if reset.Some? && reset.value != 0.0 && at >= current.resetObservedAt.GetOr(0.0) {
      current := current.(reset := reset, resetObservedAt := Some(at));
    }
    merged := Some(current);
  }

  method ParseCapture(lines: seq<Line>, at: real, previous: Windows)
    returns (result: Windows, errors: nat, seen: nat)
    ensures forall w :: Lookup(result, w) == Fold(lines, w, at, Lookup(previous, w))
    ensures seen == Seen(lines)
    ensures errors == FoldErrors(lines, at, Lookup(previous, FiveHour), Lookup(previous, SevenDay))
  {
    result, errors, seen := previous, 0, 0;
    for i := 0 to |lines|
      invariant forall w :: Lookup(result, w) == Fold(lines[..i], w, at, Lookup(previous, w))
      invariant seen == Seen(lines[..i])
      invariant errors == FoldErrors(lines[..i], at, Lookup(previous, FiveHour), Lookup(previous, SevenDay))
    {
      assert lines[..i + 1][..i] == lines[..i];
      match Info(lines[i]) {
        case Some(info) =>
          seen := seen + 1;
          var more;
          result, more := MergeEvent(info, at, result);
          errors := errors + more;
        case None =>
          errors := errors + One(BadLine(lines[i]));
      }
    }
    assert lines[..|lines|] == lines;
  }
}
