/** The state half of collect in observability/claude_usage_metrics.py: merge, expire, register, save. */
module UsageCollector {
  import opened Wrappers
  import opened Json
  import opened Ordering
  import opened Strings
  import opened Decimal
  import opened Capture
  import opened CaptureLaws
  import opened UsageStore

  // ---------------------------------------------------------------- one account

  /** What read_data gives for one account's capture: its lines and modification time, or an error. */
  datatype CaptureFile = Unreadable | Readable(lines: seq<Line>, stamp: real)

  /** A reset is a deadline: past it, the older observation is dropped and so is the reset. */
  function Expire(r: Record, now: real): Record {
    if r.reset.Some? && r.reset.value <= now then
      var kept := if r.observedAt.GetOr(0.0) < r.reset.value then r.(utilization := None, assumed := None) else r;
      kept.(reset := None, resetObservedAt := None)
    else r
  }

  function ExpireOption(r: Option<Record>, now: real): Option<Record> {
    if r.Some? then Some(Expire(r.value, now)) else None
  }

  function Both(five: Option<Record>, seven: Option<Record>): (ws: Windows)
    ensures Lookup(ws, FiveHour) == five && Lookup(ws, SevenDay) == seven
  {
    var one := if five.Some? then map[FiveHour := five.value] else map[];
    if seven.Some? then one[SevenDay := seven.value] else one
  }

  predicate Usable(file: CaptureFile, now: real) {
    file.Readable? && 0.0 < file.stamp <= now
  }

  function CollectWindow(file: CaptureFile, w: Window, now: real, prev: Option<Record>): Option<Record> {
    ExpireOption(if Usable(file, now) then Fold(file.lines, w, file.stamp, prev) else prev, now)
  }

  function CollectAccount(s: UsageState, account: string, file: CaptureFile, now: real): UsageState {
    var ws := Lookup(s.windows, account).GetOr(map[]);
    var stamp := Lookup(s.captures, account).GetOr(0.0);
    UsageState(
      s.windows[account := Both(CollectWindow(file, FiveHour, now, Lookup(ws, FiveHour)),
                                CollectWindow(file, SevenDay, now, Lookup(ws, SevenDay)))],
      s.keyIndexes,
      if Usable(file, now) then s.captures[account := if file.stamp > stamp then file.stamp else stamp] else s.captures)
  }

  method CollectOne(s: UsageState, account: string, file: CaptureFile, now: real) returns (r: UsageState)
    ensures r == CollectAccount(s, account, file, now)
  {
    var previous: Windows := if account in s.windows then s.windows[account] else map[];
    ghost var before := previous;
    var captures := s.captures;
    if Usable(file, now) {
      var errors, seen;
      previous, errors, seen := ParseCapture(file.lines, file.stamp, previous);
      var stamp := if account in captures then captures[account] else 0.0;
      captures := captures[account := if file.stamp > stamp then file.stamp else stamp];
    }
    ghost var merged := previous;
    for i := 0 to |WINDOWS|
      invariant forall w :: Lookup(previous, w) ==
                            (if Position(w) < i then ExpireOption(Lookup(merged, w), now) else Lookup(merged, w))
    {
      if WINDOWS[i] in previous {
        previous := previous[WINDOWS[i] := Expire(previous[WINDOWS[i]], now)];
      }
    }
    r := UsageState(s.windows[account := previous], s.keyIndexes, captures);
    SameWindows(previous, r.windows[account], CollectAccount(s, account, file, now).windows[account]);
  }

  lemma SameWindows(previous: Windows, a: Windows, b: Windows)
    requires a == previous && forall w :: Lookup(b, w) == Lookup(previous, w)
    ensures a == b
  {
    forall w: Window
      ensures w in a <==> w in b
      ensures w in a ==> a[w] == b[w]
    {
      assert Lookup(b, w) == Lookup(previous, w);
    }
  }

  function CollectAccounts(s: UsageState, captures: seq<(string, CaptureFile)>, now: real): UsageState {
    if captures == [] then s
    else
      var last := captures[|captures| - 1];
      CollectAccount(CollectAccounts(s, captures[..|captures| - 1], now), last.0, last.1, now)
  }

  // ---------------------------------------------------------------- the key registry

  predicate KeysNumbered(indexes: map<string, string>) {
    forall k | k in indexes :: IsKeyIndex(indexes[k])
  }

  /** The largest number any identity has as its index, 0 when there is none. */
  ghost function Highest(indexes: map<string, string>): (n: nat)
    requires KeysNumbered(indexes)
    ensures forall k | k in indexes :: IndexOf(indexes[k]) <= n
  {
    HighestOver(indexes, Sorted(indexes.Keys))
  }

  function HighestOver(indexes: map<string, string>, keys: seq<string>): (n: nat)
    requires KeysNumbered(indexes) && forall k | k in keys :: k in indexes
    ensures forall k | k in keys :: IndexOf(indexes[k]) <= n
  {
    if keys == [] then 0
    else
      var rest, first := HighestOver(indexes, keys[1..]), IndexOf(indexes[keys[0]]);
      if first > rest then first else rest
  }

  function Registered(indexes: map<string, string>, next: nat, keys: seq<string>): map<string, string>
    requires next > 0
    decreases |keys|
  {
    if keys == [] then indexes
    else if keys[0] in indexes then Registered(indexes, next, keys[1..])
    else Registered(indexes[keys[0] := KeyIndex(next)], next + 1, keys[1..])
  }

  method Register(indexes: map<string, string>, keys: seq<string>) returns (r: map<string, string>)
    requires KeysNumbered(indexes)
    ensures r == Registered(indexes, Highest(indexes) + 1, keys)
  {
    var known := SortedList(indexes.Keys);
    var next := HighestOver(indexes, known) + 1;
    r := indexes;
    for i := 0 to |keys|
      invariant next > 0
      invariant Registered(r, next, keys[i..]) == Registered(indexes, Highest(indexes) + 1, keys)
    {
      assert keys[i..][1..] == keys[i + 1..];
      if keys[i] !in r {
        r := r[keys[i] := KeyIndex(next)];
        next := next + 1;
      }
    }
  }

  /** Registration keeps every earlier identity's index, stays injective, covers the new identities, and gives no new
      identity an index at or below any index used before. */
  lemma {:induction false} RegistrationLaws(indexes: map<string, string>, next: nat, keys: seq<string>)
    requires next > 0 && RegistryOk(indexes)
    requires forall k | k in indexes :: IndexOf(indexes[k]) < next
    requires forall k | k in keys :: IsDigest(k)
    ensures var r := Registered(indexes, next, keys);
      && RegistryOk(r)
      && (forall k | k in indexes :: k in r && r[k] == indexes[k])
      && (forall k :: k in r <==> k in indexes || k in keys)
      && (forall k | k in r && k !in indexes :: IndexOf(r[k]) >= next)
    decreases |keys|
  {
    if keys != [] {
      assert forall k :: k in keys <==> k == keys[0] || k in keys[1..];
      if keys[0] in indexes {
        RegistrationLaws(indexes, next, keys[1..]);
      } else {
        IndexOfKeyIndex(next);
        RegistrationLaws(indexes[keys[0] := KeyIndex(next)], next + 1, keys[1..]);
      }
    }
  }

  // ---------------------------------------------------------------- one collection over the state file

  /** The inputs of one collect call. keys are the hashed identities of a ledger that parsed, None when it did not;
      digits is how many characters the numbers of the state it saves print in. */
  datatype Collection =
    Collection(captures: seq<(string, CaptureFile)>, keys: Option<set<string>>, now: real, digits: nat)

  datatype CollectError = BadAccounts | BadTime | BadState(error: LoadError)

  predicate AccountsOk(captures: seq<(string, CaptureFile)>) {
    captures != [] && forall i | 0 <= i < |captures| :: IsAccount(captures[i].0)
  }

  /** sha256 hex digests are the only identities a ledger produces. */
  predicate KeysOk(c: Collection) {
    c.keys.Some? ==> forall k | k in c.keys.value :: IsDigest(k)
  }

  ghost function Collected(s: UsageState, c: Collection): UsageState
    requires KeysNumbered(s.keyIndexes)
  {
    var merged := CollectAccounts(s, c.captures, c.now);
    match c.keys
    case None => merged
    case Some(keys) => merged.(keyIndexes := Registered(s.keyIndexes, Highest(s.keyIndexes) + 1, Sorted(keys)))
  }

  ghost function Outcome(file: StateFile, c: Collection): Result<UsageState, CollectError> {
    if !AccountsOk(c.captures) then Failure(BadAccounts)
    else if c.now <= 0.0 then Failure(BadTime)
    else match Load(file)
      case Failure(e) => Failure(BadState(e))
      case Success(s) => LoadedStateIsLoadable(file); Success(Collected(s, c))
  }

  /** The file after a collection; a refused one leaves it alone. */
  ghost function NextFile(file: StateFile, c: Collection): StateFile {
    match Outcome(file, c)
    case Success(s) => SavedFile(s, c.digits)
    case Failure(_) => file
  }

  method MergeAll(start: UsageState, c: Collection) returns (s: UsageState)
    requires KeysNumbered(start.keyIndexes)
    ensures s == Collected(start, c)
  {
    s := start;
    for i := 0 to |c.captures|
      invariant s == CollectAccounts(start, c.captures[..i], c.now)
      invariant s.keyIndexes == start.keyIndexes
    {
      assert c.captures[..i + 1][..i] == c.captures[..i];
      s := CollectOne(s, c.captures[i].0, c.captures[i].1, c.now);
    }
    assert c.captures[..|c.captures|] == c.captures;
    if c.keys.Some? {
      var keys := SortedList(c.keys.value);
      var indexes := Register(s.keyIndexes, keys);
      s := s.(keyIndexes := indexes);
    }
  }

  class Store {
    var file: StateFile

    constructor ()
      ensures file == Absent
    {
      file := Absent;
    }

    method Collect(c: Collection) returns (r: Result<UsageState, CollectError>)
      modifies this
      ensures r == Outcome(old(file), c)
      ensures file == NextFile(old(file), c)
    {
      if !AccountsOk(c.captures) {
        return Failure(BadAccounts);
      }
      if c.now <= 0.0 {
        return Failure(BadTime);
      }
      var loaded := LoadState(file);
      if loaded.Failure? {
        return Failure(BadState(loaded.error));
      }
      LoadedStateIsLoadable(file);
      var s := MergeAll(loaded.value, c);
      file := SaveState(s, c.digits);
      return Success(s);
    }
  }
}
