/** The persisted half of observability/claude_usage_metrics.py: load_state, save_state and collect. */
module UsageStore {
  import opened Wrappers
  import opened Json
  import opened Decimal
  import opened Ordering
  import opened Strings
  import opened Capture
  import opened CaptureLaws
  import opened JsonSize

  // ---------------------------------------------------------------- names

  /** The prefix and a positive number without leading zeros. */
  predicate Numbered(prefix: string, s: string) {
    && |prefix| < |s| && s[..|prefix|] == prefix
    && AllDigits(s[|prefix|..]) && s[|prefix|] != '0'
  }

  predicate IsAccount(s: string) { Numbered("acct-", s) }

  predicate IsKeyIndex(s: string) { Numbered("key-", s) }

  function IndexOf(s: string): nat
    requires IsKeyIndex(s)
  {
    Parse(s[4..])
  }

  function KeyIndex(n: nat): (s: string)
    requires n > 0
    ensures IsKeyIndex(s)
  {
    var s := "key-" + Print(n);
    assert s[..4] == "key-" && s[4..] == Print(n);
    s
  }

  lemma IndexOfKeyIndex(n: nat)
    requires n > 0
    ensures IndexOf(KeyIndex(n)) == n
  {
    ParsePrint(n);
    assert KeyIndex(n)[4..] == Print(n);
  }

  // ---------------------------------------------------------------- the state and its JSON form

  datatype UsageState = UsageState(
    windows: map<string, Windows>,
    keyIndexes: map<string, string>,
    captures: map<string, real>)

  const INITIAL: UsageState := UsageState(map[], map[], map[])

  predicate Holds(f: Fields, key: string, v: Option<real>) {
    (key in f <==> v.Some?) && (v.Some? ==> f[key] == Num(v.value))
  }

  function Put(f: Fields, key: string, v: Option<real>): Fields {
    if v.Some? then f[key := Num(v.value)] else f
  }

  function EncodeRecord(r: Record): (f: Fields)
    ensures Holds(f, "utilization", r.utilization) && Holds(f, "observed_at", r.observedAt)
    ensures Holds(f, "assumed", r.assumed)
    ensures Holds(f, "reset", r.reset) && Holds(f, "reset_observed_at", r.resetObservedAt)
    ensures f.Keys <= KEPT
  {
    Put(Put(Put(Put(Put(map[], "utilization", r.utilization), "observed_at", r.observedAt), "assumed", r.assumed),
            "reset", r.reset), "reset_observed_at", r.resetObservedAt)
  }

  function EncodeWindows(ws: Windows): (f: Fields)
    ensures forall w: Window :: WindowName(w) in f <==> w in ws
    ensures forall w | w in ws :: f[WindowName(w)] == Obj(EncodeRecord(ws[w]))
    ensures f.Keys <= {"five_hour", "seven_day"}
  {
    var five := if FiveHour in ws then map["five_hour" := Obj(EncodeRecord(ws[FiveHour]))] else map[];
    if SevenDay in ws then five["seven_day" := Obj(EncodeRecord(ws[SevenDay]))] else five
  }

  function EncodeAccount(ws: Windows): Json { Obj(EncodeWindows(ws)) }

  function EncodeIndex(index: string): Json { Str(index) }

  function EncodeStamp(stamp: real): Json { Num(stamp) }

  function StateObject(windows: Fields, indexes: Fields, captures: Fields): Json {
    Obj(map["version" := Num(1.0), "windows" := Obj(windows), "key_indexes" := Obj(indexes),
            "captures" := Obj(captures)])
  }

  /** json.dump(state) */
  ghost function Encode(s: UsageState): Json {
    StateObject(MapValues(s.windows, EncodeAccount), MapValues(s.keyIndexes, EncodeIndex),
                MapValues(s.captures, EncodeStamp))
  }

  // ---------------------------------------------------------------- how long the saved file is

  function RecordSize(r: Record): nat { ObjectSize(EncodeRecord(r), _ => 0) }

  function WindowsSize(ws: Windows): nat {
    (if FiveHour in ws then Member("five_hour", RecordSize(ws[FiveHour])) else 0)
    + (if SevenDay in ws then Member("seven_day", RecordSize(ws[SevenDay])) else 0)
    + (if |ws| == 0 then 2 else 0)
  }

  /** The characters save_state writes for a state, the final newline included and the digits of its numbers apart. */
  function StateSize(s: UsageState): nat {
    Member("captures", ObjectSize(s.captures, _ => 0))
    + Member("key_indexes", ObjectSize(s.keyIndexes, Quoted))
    + Member("version", 0)
    + Member("windows", ObjectSize(s.windows, WindowsSize))
    + 1
  }

  /** What save_state leaves; digits is how many characters its numbers print in. */
  ghost function SavedFile(s: UsageState, digits: nat): StateFile {
    Present(Encode(s), StateSize(s) + digits)
  }

  predicate Fits(s: UsageState, digits: nat) {
    StateSize(s) + digits <= STATE_LIMIT
  }

  const KEPT: set<string> := {"utilization", "observed_at", "assumed", "reset", "reset_observed_at"}

  predicate AcceptRecord(f: Fields) {
    && (forall k | k in KEPT && k in f :: Number(f[k]).Some?)
    && ("utilization" in f ==> f["utilization"].num <= 1.0 && "observed_at" in f)
    && ("reset" in f ==> "reset_observed_at" in f)
  }

  function DecodeRecord(f: Fields): Record {
    Record(Number(Get(f, "utilization")), Number(Get(f, "observed_at")), Number(Get(f, "assumed")),
           Number(Get(f, "reset")), Number(Get(f, "reset_observed_at")))
  }

  predicate AcceptWindows(v: Json) {
    && v.Obj?
    && v.fields.Keys <= {"five_hour", "seven_day"}
    && forall w | w in v.fields :: v.fields[w].Obj? && AcceptRecord(v.fields[w].fields)
  }

  function DecodeWindow(v: Json, w: Window): Windows {
    match v
    case Obj(fields) =>
      if WindowName(w) in fields && fields[WindowName(w)].Obj?
      then map[w := DecodeRecord(fields[WindowName(w)].fields)] else map[]
    case _ => map[]
  }

  function DecodeWindows(v: Json): Windows {
    DecodeWindow(v, FiveHour) + DecodeWindow(v, SevenDay)
  }

  predicate Injective<K, V(==)>(m: map<K, V>) {
    forall i, j | i in m && j in m && i != j :: m[i] != m[j]
  }

  /** The two ways load_state can fail: the bounded InputError, or AttributeError on a captures value that is not an
      object, which its except clause does not name. */
  datatype LoadError = InvalidState | UncaughtAttributeError

  /** size is the length of the file in bytes, garbage or not. */
  datatype StateFile = Absent | Garbage | Present(json: Json, size: nat)

  predicate AcceptIndexes(indexes: Fields) {
    && (forall k | k in indexes :: IsDigest(k) && indexes[k].Str? && IsKeyIndex(indexes[k].str))
    && Injective(indexes)
  }

  function TextOf(v: Json): string {
    match v
    case Str(s) => s
    case _ => ""
  }

  function NumOf(v: Json): real {
    match v
    case Num(x) => x
    case _ => 0.0
  }

  predicate AcceptCaptures(captures: Fields) {
    forall a | a in captures :: IsAccount(a) && Number(captures[a]).Some?
  }

  predicate AcceptAllWindows(windows: Fields) {
    forall a | a in windows :: IsAccount(a) && AcceptWindows(windows[a])
  }

  /** load_state reads at most STATE_LIMIT bytes. */
  ghost function Load(file: StateFile): Result<UsageState, LoadError> {
    if file.Present? && file.size > STATE_LIMIT then Failure(InvalidState) else Held(file)
  }

  /** The state a file holds, whether or not it is short enough to be read. */
  ghost function Held(file: StateFile): Result<UsageState, LoadError> {
    match file
    case Absent => Success(INITIAL)
    case Present(Obj(raw), _) => LoadObject(raw)
    case _ => Failure(InvalidState)
  }

  ghost function LoadObject(raw: Fields): Result<UsageState, LoadError> {
    var version, indexes, windows := Get(raw, "version"), Get(raw, "key_indexes"), Get(raw, "windows");
    var captures := if "captures" in raw then raw["captures"] else Obj(map[]);
    if (version != Num(1.0) && version != Bool(true)) || !indexes.Obj? || !windows.Obj? then Failure(InvalidState)
    else if !AcceptIndexes(indexes.fields) then Failure(InvalidState)
    else if !captures.Obj? then Failure(UncaughtAttributeError)
    else if !AcceptCaptures(captures.fields) || !AcceptAllWindows(windows.fields) then Failure(InvalidState)
    else Success(Assemble(windows.fields, indexes.fields, captures.fields))
  }

  ghost function Assemble(windows: Fields, indexes: Fields, captures: Fields): UsageState {
    UsageState(MapValues(windows, DecodeWindows), MapValues(indexes, TextOf), MapValues(captures, NumOf))
  }

  // ---------------------------------------------------------------- the loops of save_state and load_state

  method EncodeState(s: UsageState) returns (json: Json)
    ensures json == Encode(s)
  {
    var windows := MapAll(s.windows, EncodeAccount);
    var indexes := MapAll(s.keyIndexes, EncodeIndex);
    var captures := MapAll(s.captures, EncodeStamp);
    json := StateObject(windows, indexes, captures);
  }

  method SaveState(s: UsageState, digits: nat) returns (file: StateFile)
    ensures file == SavedFile(s, digits)
  {
    var json := EncodeState(s);
    file := Present(json, StateSize(s) + digits);
  }

  /** The loop over the capture stamps; None where it raises. */
  method LoadCaptures(captures: Fields) returns (r: Option<map<string, real>>)
    ensures r == if AcceptCaptures(captures) then Some(MapValues(captures, NumOf)) else None
  {
    var clean: map<string, real> := map[];
    var left := captures.Keys;
    while left != {}
      invariant left <= captures.Keys && clean.Keys == captures.Keys - left
      invariant forall a | a in clean :: IsAccount(a) && Number(captures[a]).Some? && clean[a] == NumOf(captures[a])
    {
      var account :| account in left;
      if !IsAccount(account) || Number(captures[account]).None? {
        return None;
      }
      clean, left := clean[account := NumOf(captures[account])], left - {account};
    }
    assert AcceptCaptures(captures) && clean == MapValues(captures, NumOf);
    r := Some(clean);
  }

  /** The loop over the accounts; the two windows of one account are checked and decoded together. */
  method LoadWindows(windows: Fields) returns (r: Option<map<string, Windows>>)
    ensures r == if AcceptAllWindows(windows) then Some(MapValues(windows, DecodeWindows)) else None
  {
    var clean: map<string, Windows> := map[];
    var left := windows.Keys;
    while left != {}
      invariant left <= windows.Keys && clean.Keys == windows.Keys - left
      invariant forall a | a in clean ::
                  IsAccount(a) && AcceptWindows(windows[a]) && clean[a] == DecodeWindows(windows[a])
    {
      var account :| account in left;
      if !IsAccount(account) || !AcceptWindows(windows[account]) {
        return None;
      }
      clean, left := clean[account := DecodeWindows(windows[account])], left - {account};
    }
    assert AcceptAllWindows(windows) && clean == MapValues(windows, DecodeWindows);
    r := Some(clean);
  }

  method LoadState(file: StateFile) returns (r: Result<UsageState, LoadError>)
    ensures r == Load(file)
  {
    match file {
      case Absent => return Success(INITIAL);
      case Garbage => return Failure(InvalidState);
      case Present(json, size) =>
        if size > STATE_LIMIT || !json.Obj? {
          return Failure(InvalidState);
        }
        r := LoadFields(json.fields);
    }
  }

  method LoadFields(raw: Fields) returns (r: Result<UsageState, LoadError>)
    ensures r == LoadObject(raw)
  {
    var version, indexes, windows := Get(raw, "version"), Get(raw, "key_indexes"), Get(raw, "windows");
    if (version != Num(1.0) && version != Bool(true)) || !indexes.Obj? || !windows.Obj? {
      return Failure(InvalidState);
    }
    if !AcceptIndexes(indexes.fields) {
      return Failure(InvalidState);
    }
    var captures := if "captures" in raw then raw["captures"] else Obj(map[]);
    if !captures.Obj? {
      return Failure(UncaughtAttributeError);
    }
    var stamps := LoadCaptures(captures.fields);
    if stamps.None? {
      return Failure(InvalidState);
    }
    var observations := LoadWindows(windows.fields);
    if observations.None? {
      return Failure(InvalidState);
    }
    var registry := MapAll(indexes.fields, TextOf);
    r := Success(UsageState(observations.value, registry, stamps.value));
  }

  // ---------------------------------------------------------------- saving and loading agree

  predicate NonNegative(v: Option<real>) { v.Some? ==> v.value >= 0.0 }

  predicate LoadableRecord(r: Record) {
    && NonNegative(r.utilization) && NonNegative(r.observedAt) && NonNegative(r.assumed)
    && NonNegative(r.reset) && NonNegative(r.resetObservedAt)
    && (r.utilization.Some? ==> r.utilization.value <= 1.0 && r.observedAt.Some?)
    && (r.reset.Some? ==> r.resetObservedAt.Some?)
  }

  predicate RegistryOk(indexes: map<string, string>) {
    (forall k | k in indexes :: IsDigest(k) && IsKeyIndex(indexes[k])) && Injective(indexes)
  }

  /** The states a save can be read back from. */
  predicate Loadable(s: UsageState) {
    && RegistryOk(s.keyIndexes)
    && (forall a | a in s.captures :: IsAccount(a) && s.captures[a] >= 0.0)
    && (forall a | a in s.windows :: IsAccount(a) && forall w | w in s.windows[a] :: LoadableRecord(s.windows[a][w]))
  }

  lemma RecordRoundTrip(r: Record)
    requires LoadableRecord(r)
    ensures AcceptRecord(EncodeRecord(r)) && DecodeRecord(EncodeRecord(r)) == r
  {
  }

  lemma WindowsRoundTrip(ws: Windows)
    requires forall w | w in ws :: LoadableRecord(ws[w])
    ensures AcceptWindows(Obj(EncodeWindows(ws))) && DecodeWindows(Obj(EncodeWindows(ws))) == ws
  {
    var e := EncodeWindows(ws);
    forall w | w in ws
      ensures AcceptRecord(EncodeRecord(ws[w])) && DecodeRecord(EncodeRecord(ws[w])) == ws[w]
    {
      RecordRoundTrip(ws[w]);
    }
    forall name | name in e
      ensures e[name].Obj? && AcceptRecord(e[name].fields)
    {
      assert name == WindowName(FiveHour) || name == WindowName(SevenDay);
    }
    var d := DecodeWindows(Obj(e));
    forall w: Window
      ensures w in d <==> w in ws
      ensures w in ws ==> d[w] == ws[w]
    {
      assert WindowName(w) in e <==> w in ws;
    }
  }

  lemma AccountsRoundTrip(accounts: map<string, Windows>)
    requires forall a | a in accounts :: IsAccount(a) && forall w | w in accounts[a] :: LoadableRecord(accounts[a][w])
    ensures AcceptAllWindows(MapValues(accounts, EncodeAccount))
    ensures MapValues(MapValues(accounts, EncodeAccount), DecodeWindows) == accounts
  {
    forall a | a in accounts
      ensures AcceptWindows(EncodeAccount(accounts[a])) && DecodeWindows(EncodeAccount(accounts[a])) == accounts[a]
    {
      WindowsRoundTrip(accounts[a]);
    }
  }

  lemma IndexesRoundTrip(indexes: map<string, string>)
    requires RegistryOk(indexes)
    ensures AcceptIndexes(MapValues(indexes, EncodeIndex))
    ensures MapValues(MapValues(indexes, EncodeIndex), TextOf) == indexes
  {
  }

  lemma StampsRoundTrip(captures: map<string, real>)
    requires forall a | a in captures :: IsAccount(a) && captures[a] >= 0.0
    ensures AcceptCaptures(MapValues(captures, EncodeStamp))
    ensures MapValues(MapValues(captures, EncodeStamp), NumOf) == captures
  {
  }

  lemma SavedPartsAreAccepted(s: UsageState)
    requires Loadable(s)
    ensures AcceptIndexes(MapValues(s.keyIndexes, EncodeIndex)) && AcceptCaptures(MapValues(s.captures, EncodeStamp))
    ensures AcceptAllWindows(MapValues(s.windows, EncodeAccount))
    ensures Assemble(MapValues(s.windows, EncodeAccount), MapValues(s.keyIndexes, EncodeIndex),
                     MapValues(s.captures, EncodeStamp)) == s
  {
    AccountsRoundTrip(s.windows);
    IndexesRoundTrip(s.keyIndexes);
    StampsRoundTrip(s.captures);
  }

  /** load_state reads back exactly what save_state wrote, as long as that is short enough to be read. */
  lemma SavedStateLoads(s: UsageState, digits: nat)
    requires Loadable(s)
    ensures Held(SavedFile(s, digits)) == Success(s)
    ensures Load(SavedFile(s, digits)) == if Fits(s, digits) then Success(s) else Failure(InvalidState)
  {
    SavedPartsAreAccepted(s);
    LoadParts(MapValues(s.windows, EncodeAccount), MapValues(s.keyIndexes, EncodeIndex),
              MapValues(s.captures, EncodeStamp));
  }

  lemma LoadParts(windows: Fields, indexes: Fields, captures: Fields)
    requires AcceptIndexes(indexes) && AcceptCaptures(captures) && AcceptAllWindows(windows)
    ensures LoadObject(StateObject(windows, indexes, captures).fields)
         == Success(Assemble(windows, indexes, captures))
  {
  }

  lemma DecodedWindowsAreLoadable(v: Json)
    requires AcceptWindows(v)
    ensures forall w | w in DecodeWindows(v) :: LoadableRecord(DecodeWindows(v)[w])
  {
  }

  /** Whatever load_state accepts, or would accept of a shorter file, is a state that saves and loads again. */
  lemma LoadedStateIsLoadable(file: StateFile)
    requires Held(file).Success?
    ensures Loadable(Held(file).value)
  {
    if file.Present? {
      var raw := file.json.fields;
      var windows := raw["windows"].fields;
      forall a | a in windows
        ensures forall w | w in DecodeWindows(windows[a]) :: LoadableRecord(DecodeWindows(windows[a])[w])
      {
        DecodedWindowsAreLoadable(windows[a]);
      }
    }
  }

  /** A registry of this many keys makes a state too long to be read back, however its numbers print. */
  const MANY_KEYS: nat := 13_618

  lemma ManyKeysDoNotFit(s: UsageState, digits: nat)
    requires RegistryOk(s.keyIndexes) && |s.keyIndexes| >= MANY_KEYS
    ensures !Fits(s, digits)
  {
    ObjectSizeAtLeast(s.keyIndexes, Quoted, 77);
  }
}
