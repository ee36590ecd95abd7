/** sanitized_events of observability/claude_usage_sampler.py: what a probe's output is reduced to before it is
    stored, and why parse_capture reads the same state from it. */
module Sanitizer {
  import opened Wrappers
  import opened Json
  import opened Capture
  import opened CaptureLaws

  const MAX_OUTPUT_BYTES: nat := 2 * 1024 * 1024

  const SCOPES: set<string> := {"five_hour", "seven_day", "seven_day_opus", "seven_day_sonnet", "overage"}

  function CleanNumber(v: Json): Json {
    match Number(v)
    case Some(x) => Num(x)
    case None => INVALID
  }

  function CleanField(key: string, v: Json): Json {
    if key == "status" then (if IsStatus(v) then v else INVALID) else CleanNumber(v)
  }

  const KEPT_FIELDS: seq<string> := ["utilization", "resetsAt", "status"]

  function CleanFields(source: Fields): (kept: Fields)
    ensures forall k :: k in kept <==> k in source && (k == "utilization" || k == "resetsAt" || k == "status")
    ensures forall k | k in kept :: kept[k] == CleanField(k, source[k])
  {
    Keep(source, KEPT_FIELDS, (k, v) => CleanField(k, v))
  }

  function CleanWindow(v: Json): Json {
    match v
    case Obj(fields) => Obj(CleanFields(fields))
    case _ => INVALID
  }

  function CleanScope(info: Fields): Fields {
    match Get(info, "rateLimitType")
    case Str(scope) => if scope in SCOPES then map["rateLimitType" := Str(scope)] else map[]
    case _ => map[]
  }

  function CleanUnified(info: Fields): Fields {
    if BadUnified(info) then map[]
    else
      var windows := UnifiedOf(info);
      map["unifiedWindows" := Obj(CleanChildren(windows))]
  }

  const KEPT_WINDOWS: seq<string> := ["five_hour", "seven_day"]

  function CleanChildren(windows: Fields): (kept: Fields)
    ensures forall k :: k in kept <==> k in windows && (k == "five_hour" || k == "seven_day")
    ensures forall k | k in kept :: kept[k] == CleanWindow(windows[k])
  {
    Keep(windows, KEPT_WINDOWS, (_, v) => CleanWindow(v))
  }

  function CleanInfo(info: Fields): Fields {
    CleanFields(info) + CleanScope(info) + CleanUnified(info)
  }

  function Event(info: Fields): Line {
    Parsed(Obj(map["type" := Str("rate_limit_event"), "rate_limit_info" := Obj(info)]))
  }

  function CleanLine(line: Line): seq<Line> {
    match line
    case Parsed(Obj(event)) =>
      if Get(event, "type") != Str("rate_limit_event") then []
      else (match Info(line) case Some(info) => [Event(CleanInfo(info))] case None => [Unparsable])
    case Parsed(_) => []
    case _ => [Unparsable]
  }

  function CleanLines(lines: seq<Line>): seq<Line> {
    if lines == [] then [] else CleanLines(lines[..|lines| - 1]) + CleanLine(lines[|lines| - 1])
  }

  /** What reading the stored text back as lines gives: "\n".join([]) + "\n" is one blank line. */
  function Stored(lines: seq<Line>): seq<Line> {
    if CleanLines(lines) == [] then [Blank] else CleanLines(lines)
  }

  datatype SampleError = OutputTooLarge

  method SanitizedEvents(bytes: nat, lines: seq<Line>) returns (r: Result<seq<Line>, SampleError>)
    ensures r == if bytes > MAX_OUTPUT_BYTES then Failure(OutputTooLarge) else Success(Stored(lines))
  {
    if bytes > MAX_OUTPUT_BYTES {
      return Failure(OutputTooLarge);
    }
    var kept: seq<Line> := [];
    for i := 0 to |lines|
      invariant kept == CleanLines(lines[..i])
    {
      assert lines[..i + 1][..i] == lines[..i];
      match lines[i] {
        case Parsed(Obj(event)) =>
          if Get(event, "type") == Str("rate_limit_event") {
            var info := Info(lines[i]);
            kept := kept + [if info.Some? then Event(CleanInfo(info.value)) else Unparsable];
          }
        case Parsed(_) =>
        case _ => kept := kept + [Unparsable];
      }
    }
    assert lines[..|lines|] == lines;
    return Success(if kept == [] then [Blank] else kept);
  }

  // ---------------------------------------------------------------- meaning is preserved

  /** All that the merge ever asks of one window's update. */
  predicate Alike(raw: Fields, clean: Fields) {
    && Number(Get(raw, "utilization")) == Number(Get(clean, "utilization"))
    && Number(Get(raw, "resetsAt")) == Number(Get(clean, "resetsAt"))
    && ("status" in raw <==> "status" in clean)
    && (IsStatus(Get(raw, "status")) || IsStatus(Get(clean, "status")) ==> Get(raw, "status") == Get(clean, "status"))
  }

  lemma CleanFieldsAlike(source: Fields)
    ensures Alike(source, CleanFields(source))
  {
    var clean := CleanFields(source);
    assert forall k | k in {"utilization", "resetsAt", "status"} :: k in clean <==> k in source;
  }

  lemma CleanInfoKeepsStatus(info: Fields)
    requires IsStatus(Get(info, "status"))
    ensures Get(CleanInfo(info), "status") == Get(info, "status")
  {
    assert "status" in CleanFields(info);
  }

  lemma CleanInfoKeepsScope(info: Fields, w: Window)
    ensures Scoped(CleanInfo(info), w) <==> Scoped(info, w)
  {
    assert "rateLimitType" !in CleanFields(info) && "rateLimitType" !in CleanUnified(info);
  }

  lemma CleanInfoKeepsHeader(info: Fields, w: Window)
    requires IsStatus(Get(info, "status"))
    ensures Get(CleanInfo(info), "status") == Get(info, "status")
    ensures Scoped(CleanInfo(info), w) <==> Scoped(info, w)
  {
    CleanInfoKeepsStatus(info);
    CleanInfoKeepsScope(info, w);
  }

  lemma CleanUnifiedKeepsChild(info: Fields, w: Window)
    ensures Child(info, w).Some? <==> Child(CleanInfo(info), w).Some?
    ensures Child(info, w).Some? ==> Child(CleanInfo(info), w).value == CleanFields(Child(info, w).value)
  {
    assert "unifiedWindows" !in CleanFields(info) && "unifiedWindows" !in CleanScope(info);
    assert CleanUnified(info) != map[] ==> "unifiedWindows" in CleanUnified(info);
  }

  lemma CleanInfoKeepsField(info: Fields, key: string)
    requires key == "utilization" || key == "resetsAt"
    ensures SameMeasure(info, CleanInfo(info), key)
  {
    assert key !in CleanScope(info) && key !in CleanUnified(info);
  }

  /** info and clean give the same number for the key, or neither has it. */
  predicate SameMeasure(info: Fields, clean: Fields, key: string) {
    (key in clean <==> key in info) && (key in info ==> clean[key] == CleanNumber(info[key]))
  }

  lemma OverlayNumber(child: Fields, info: Fields, cleanChild: Fields, clean: Fields, key: string)
    requires key == "utilization" || key == "resetsAt"
    requires Number(Get(child, key)) == Number(Get(cleanChild, key)) && SameMeasure(info, clean, key)
    ensures Number(Get(child + Measures(info), key)) == Number(Get(cleanChild + Measures(clean), key))
  {
  }

  lemma OverlayStatus(child: Fields, info: Fields)
    ensures Get(child + Measures(info), "status") == Get(child, "status")
    ensures "status" in child + Measures(info) <==> "status" in child
  {
    assert "status" !in Measures(info);
  }

  lemma OverlayAlike(child: Fields, info: Fields, cleanChild: Fields, clean: Fields)
    requires Alike(child, cleanChild)
    requires SameMeasure(info, clean, "utilization") && SameMeasure(info, clean, "resetsAt")
    ensures Alike(child + Measures(info), cleanChild + Measures(clean))
  {
    OverlayNumber(child, info, cleanChild, clean, "utilization");
    OverlayNumber(child, info, cleanChild, clean, "resetsAt");
    OverlayStatus(child, info);
    OverlayStatus(cleanChild, clean);
  }

  lemma MeasuresAlike(info: Fields, child: Fields)
    ensures Alike(child + Measures(info), CleanFields(child) + Measures(CleanInfo(info)))
  {
    CleanFieldsAlike(child);
    CleanInfoKeepsField(info, "utilization");
    CleanInfoKeepsField(info, "resetsAt");
    OverlayAlike(child, info, CleanFields(child), CleanInfo(info));
  }

  lemma ScopedNamedAlike(info: Fields, w: Window)
    requires IsStatus(Get(info, "status")) && Scoped(info, w)
    ensures Named(info, w).Some? && Named(CleanInfo(info), w).Some?
    ensures Alike(Named(info, w).value, Named(CleanInfo(info), w).value)
  {
    CleanInfoKeepsScope(info, w);
    CleanUnifiedKeepsChild(info, w);
    MeasuresAlike(info, Child(info, w).GetOr(map[]));
    assert CleanFields(map[]) == map[];
  }

  lemma NamedAlike(info: Fields, w: Window)
    requires IsStatus(Get(info, "status"))
    ensures Named(info, w).Some? <==> Named(CleanInfo(info), w).Some?
    ensures Named(info, w).Some? ==> Alike(Named(info, w).value, Named(CleanInfo(info), w).value)
  {
    if Scoped(info, w) {
      ScopedNamedAlike(info, w);
    } else {
      CleanInfoKeepsScope(info, w);
      CleanUnifiedKeepsChild(info, w);
      if Child(info, w).Some? {
        CleanFieldsAlike(Child(info, w).value);
      }
    }
  }

  /** The update that is applied, when there is one, is alike in both, and it is forced in both or in neither. */
  lemma AlikeUpdates(info: Fields, clean: Fields, w: Window, at: real, rec: Record)
    requires Get(clean, "status") == Get(info, "status") && ScopeOf(clean) == ScopeOf(info)
    requires Named(info, w).Some? <==> Named(clean, w).Some?
    requires Named(info, w).Some? ==> Alike(Named(info, w).value, Named(clean, w).value)
    ensures Forced(clean, w, rec, at) == Forced(info, w, rec, at)
    ensures Update(clean, w, rec, at).Some? <==> Update(info, w, rec, at).Some?
    ensures Update(info, w, rec, at).Some? ==> Alike(Update(info, w, rec, at).value, Update(clean, w, rec, at).value)
  {
    var raw, kept := Named(info, w).GetOr(map[]), Named(clean, w).GetOr(map[]);
    assert Alike(raw, kept);
    assert IsStatus(LocalStatus(raw)) == IsStatus(LocalStatus(kept));
  }

  /** Alike updates measure alike. */
  lemma AlikeUpdatesMeasureAlike(info: Fields, clean: Fields, raw: Fields, kept: Fields, forced: bool, at: real,
                                 rec: Record)
    requires Get(clean, "status") == Get(info, "status") && ScopeOf(clean) == ScopeOf(info) && Alike(raw, kept)
    ensures Measure(clean, kept, forced, at, rec) == Measure(info, raw, forced, at, rec)
    ensures forall c :: NoteReset(kept, at, c) == NoteReset(raw, at, c)
  {
    assert LocalStatus(raw) == REJECTED <==> LocalStatus(kept) == REJECTED;
    assert Recovers(info, raw) == Recovers(clean, kept);
  }

  /** Two events with the same header whose updates for a window are alike change its record alike. */
  lemma AlikeEventsStepAlike(info: Fields, clean: Fields, w: Window, at: real, prev: Option<Record>)
    requires Get(clean, "status") == Get(info, "status") && ScopeOf(clean) == ScopeOf(info)
    requires Named(info, w).Some? <==> Named(clean, w).Some?
    requires Named(info, w).Some? ==> Alike(Named(info, w).value, Named(clean, w).value)
    ensures StepRecord(clean, w, at, prev) == StepRecord(info, w, at, prev)
  {
    var rec := prev.GetOr(EMPTY);
    AlikeUpdates(info, clean, w, at, rec);
    if Update(info, w, rec, at).Some? {
      AlikeUpdatesMeasureAlike(info, clean, Update(info, w, rec, at).value, Update(clean, w, rec, at).value,
                               Forced(info, w, rec, at), at, rec);
    }
  }

  lemma CleanEventStepsAlike(info: Fields, w: Window, at: real, prev: Option<Record>)
    requires IsStatus(Get(info, "status"))
    ensures StepRecord(CleanInfo(info), w, at, prev) == StepRecord(info, w, at, prev)
  {
    NamedAlike(info, w);
    CleanInfoKeepsHeader(info, FiveHour);
    CleanInfoKeepsHeader(info, SevenDay);
    AlikeEventsStepAlike(info, CleanInfo(info), w, at, prev);
  }

  lemma CleanLineStepsAlike(line: Line, w: Window, at: real, prev: Option<Record>)
    ensures Fold(CleanLine(line), w, at, prev) == StepLine(line, w, at, prev)
    ensures Seen(CleanLine(line)) == if Info(line).Some? then 1 else 0
  {
    var clean := CleanLine(line);
    if Info(line).Some? {
      var info := Info(line).value;
      CleanInfoKeepsHeader(info, w);
      CleanEventStepsAlike(info, w, at, prev);
      assert Info(Event(CleanInfo(info))) == Some(CleanInfo(info));
    }
    if clean != [] {
      assert clean[..|clean| - 1] == [];
    }
  }

  lemma {:induction false} SeenConcat(a: seq<Line>, b: seq<Line>)
    ensures Seen(a + b) == Seen(a) + Seen(b)
  {
    if b == [] {
      assert a + b == a;
    } else {
      SeenConcat(a, b[..|b| - 1]);
      assert (a + b)[..|a + b| - 1] == a + b[..|b| - 1];
    }
  }

  lemma {:induction false} CleanLinesFoldAlike(lines: seq<Line>, w: Window, at: real, prev: Option<Record>)
    ensures Fold(CleanLines(lines), w, at, prev) == Fold(lines, w, at, prev)
    ensures Seen(CleanLines(lines)) == Seen(lines)
  {
    if lines != [] {
      var init, last := lines[..|lines| - 1], lines[|lines| - 1];
      CleanLinesFoldAlike(init, w, at, prev);
      FoldConcat(CleanLines(init), CleanLine(last), w, at, prev);
      SeenConcat(CleanLines(init), CleanLine(last));
      CleanLineStepsAlike(last, w, at, Fold(init, w, at, prev));
    }
  }

  /** Whatever a probe printed, at whatever stamp and over whatever state, the stored text and the raw text give the
      same window records and the same number of accepted events. */
  lemma SanitizingPreservesMeaning(lines: seq<Line>, w: Window, at: real, prev: Option<Record>)
    ensures Fold(Stored(lines), w, at, prev) == Fold(lines, w, at, prev)
    ensures Seen(Stored(lines)) == Seen(lines)
  {
    CleanLinesFoldAlike(lines, w, at, prev);
    if CleanLines(lines) == [] {
      assert [Blank][..0] == [];
    }
  }

  // ---------------------------------------------------------------- nothing else is stored

  predicate PublicLeaf(key: string, v: Json) {
    if key == "status" then IsStatus(v) || v == INVALID
    else key in {"utilization", "resetsAt"} && (v == INVALID || (v.Num? && v.num >= 0.0))
  }

  predicate PublicFields(f: Fields) {
    forall k | k in f :: PublicLeaf(k, f[k])
  }

  predicate PublicWindow(v: Json) {
    v == INVALID || (v.Obj? && PublicFields(v.fields))
  }

  /** The only shapes a stored line can have: the fixed marker, or an event built from bounded values. */
  ghost predicate Public(line: Line) {
    || line == Unparsable
    || line == Blank
    || exists info :: line == Event(info) && PublicInfo(info)
  }

  predicate PublicInfo(info: Fields) {
    forall k | k in info ::
      if k == "rateLimitType" then info[k].Str? && info[k].str in SCOPES
      else if k == "unifiedWindows" then
        info[k].Obj? && info[k].fields.Keys <= {"five_hour", "seven_day"}
        && forall w | w in info[k].fields :: PublicWindow(info[k].fields[w])
      else PublicLeaf(k, info[k])
  }

  lemma CleanFieldsArePublic(source: Fields)
    ensures PublicFields(CleanFields(source))
  {
  }

  lemma CleanInfoIsPublic(info: Fields)
    ensures PublicInfo(CleanInfo(info))
  {
    var clean := CleanInfo(info);
    CleanFieldsArePublic(info);
    forall k | k in clean && k != "rateLimitType" && k != "unifiedWindows"
      ensures PublicLeaf(k, clean[k])
    {
      assert k in CleanFields(info) && clean[k] == CleanFields(info)[k];
    }
    if "unifiedWindows" in clean {
      var windows := UnifiedOf(info);
      assert clean["unifiedWindows"] == Obj(CleanChildren(windows));
      forall w | w in CleanChildren(windows)
        ensures PublicWindow(CleanChildren(windows)[w])
      {
        if windows[w].Obj? {
          CleanFieldsArePublic(windows[w].fields);
        }
      }
    }
  }

  lemma CleanLineIsPublic(line: Line)
    ensures forall i | 0 <= i < |CleanLine(line)| :: Public(CleanLine(line)[i])
  {
    if Info(line).Some? {
      CleanInfoIsPublic(Info(line).value);
    }
  }

  lemma {:induction false} OnlyPublicDataIsStored(lines: seq<Line>)
    ensures forall i | 0 <= i < |Stored(lines)| :: Public(Stored(lines)[i])
  {
    if lines != [] {
      OnlyPublicDataIsStored(lines[..|lines| - 1]);
      CleanLineIsPublic(lines[|lines| - 1]);
      var init := lines[..|lines| - 1];
      assert CleanLines(init) != [] ==> Stored(init) == CleanLines(init);
    }
  }
}
