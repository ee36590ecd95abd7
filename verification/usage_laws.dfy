/** What every run of collections over one state file keeps. */
module UsageLaws {
  import opened Wrappers
  import opened Json
  import opened Ordering
  import opened Strings
  import opened Decimal
  import opened Capture
  import opened CaptureLaws
  import opened ReplayLaws
  import opened UsageStore
  import opened UsageCollector

  ghost function Run(file: StateFile, cs: seq<Collection>): StateFile {
    if cs == [] then file else NextFile(Run(file, cs[..|cs| - 1]), cs[|cs| - 1])
  }

  predicate AllKeysOk(cs: seq<Collection>) {
    forall i | 0 <= i < |cs| :: KeysOk(cs[i])
  }

  function WindowOf(s: UsageState, account: string, w: Window): Option<Record> {
    Lookup(Lookup(s.windows, account).GetOr(map[]), w)
  }

  // ---------------------------------------------------------------- every saved state is read back

  lemma StepKeepsLoadable(info: Fields, w: Window, at: real, prev: Option<Record>)
    requires at > 0.0 && (prev.Some? ==> LoadableRecord(prev.value))
    ensures var r := StepRecord(info, w, at, prev); r.Some? ==> LoadableRecord(r.value)
  {
    var rec := prev.GetOr(EMPTY);
    var update := Update(info, w, rec, at);
    if update.Some? {
      var c := Measure(info, update.value, Forced(info, w, rec, at), at, rec);
      assert LoadableRecord(c);
      assert LoadableRecord(NoteReset(update.value, at, c));
    }
  }

  lemma {:induction false} FoldKeepsLoadable(lines: seq<Line>, w: Window, at: real, prev: Option<Record>)
    requires at > 0.0 && (prev.Some? ==> LoadableRecord(prev.value))
    ensures var r := Fold(lines, w, at, prev); r.Some? ==> LoadableRecord(r.value)
  {
    if lines != [] {
      FoldKeepsLoadable(lines[..|lines| - 1], w, at, prev);
      var info := Info(lines[|lines| - 1]);
      if info.Some? {
        StepKeepsLoadable(info.value, w, at, Fold(lines[..|lines| - 1], w, at, prev));
      }
    }
  }

  lemma CollectWindowKeepsLoadable(file: CaptureFile, w: Window, now: real, prev: Option<Record>)
    requires prev.Some? ==> LoadableRecord(prev.value)
    ensures var r := CollectWindow(file, w, now, prev); r.Some? ==> LoadableRecord(r.value)
  {
    if Usable(file, now) {
      FoldKeepsLoadable(file.lines, w, file.stamp, prev);
    }
  }

  lemma AccountKeepsLoadable(s: UsageState, account: string, file: CaptureFile, now: real)
    requires Loadable(s) && IsAccount(account)
    ensures Loadable(CollectAccount(s, account, file, now))
  {
    var r := CollectAccount(s, account, file, now);
    var ws := Lookup(s.windows, account).GetOr(map[]);
    forall w | w in r.windows[account]
      ensures LoadableRecord(r.windows[account][w])
    {
      CollectWindowKeepsLoadable(file, w, now, Lookup(ws, w));
      assert Lookup(r.windows[account], w) == CollectWindow(file, w, now, Lookup(ws, w));
    }
    assert Loadable(r);
  }

  lemma {:induction false} AccountsKeepLoadable(s: UsageState, captures: seq<(string, CaptureFile)>, now: real)
    requires Loadable(s) && forall i | 0 <= i < |captures| :: IsAccount(captures[i].0)
    ensures Loadable(CollectAccounts(s, captures, now))
    ensures CollectAccounts(s, captures, now).keyIndexes == s.keyIndexes
  {
    if captures != [] {
      var init, last := captures[..|captures| - 1], captures[|captures| - 1];
      AccountsKeepLoadable(s, init, now);
      AccountKeepsLoadable(CollectAccounts(s, init, now), last.0, last.1, now);
    }
  }

  lemma RegisteredIsLoadable(merged: UsageState, keys: seq<string>)
    requires Loadable(merged) && forall k | k in keys :: IsDigest(k)
    ensures var before, after := merged.keyIndexes, Registered(merged.keyIndexes, Highest(merged.keyIndexes) + 1, keys);
      && Loadable(merged.(keyIndexes := after))
      && (forall k | k in before :: k in after && after[k] == before[k])
      && (forall k | k in after && k !in before :: IndexOf(after[k]) > Highest(before))
  {
    RegistrationLaws(merged.keyIndexes, Highest(merged.keyIndexes) + 1, keys);
  }

  lemma CollectedIsLoadable(s: UsageState, c: Collection)
    requires Loadable(s) && AccountsOk(c.captures) && KeysOk(c)
    ensures Loadable(Collected(s, c))
    ensures forall k | k in s.keyIndexes :: k in Collected(s, c).keyIndexes
                                            && Collected(s, c).keyIndexes[k] == s.keyIndexes[k]
    ensures forall k | k in Collected(s, c).keyIndexes && k !in s.keyIndexes ::
              IndexOf(Collected(s, c).keyIndexes[k]) > Highest(s.keyIndexes)
  {
    AccountsKeepLoadable(s, c.captures, c.now);
    if c.keys.Some? {
      RegisteredIsLoadable(CollectAccounts(s, c.captures, c.now), Sorted(c.keys.value));
    }
  }

  /** What a collection leaves holds what it saved, or what was there, whether or not it can be read back. */
  lemma CollectionHolds(file: StateFile, c: Collection)
    requires Held(file).Success? && KeysOk(c)
    ensures Held(NextFile(file, c)) ==
      match Outcome(file, c)
      case Success(s) => Success(s)
      case Failure(_) => Held(file)
    ensures Held(NextFile(file, c)).Success?
    ensures Outcome(file, c).Success? ==> Load(file) == Held(file)
  {
    LoadedStateIsLoadable(file);
    if Outcome(file, c).Success? {
      CollectedIsLoadable(Load(file).value, c);
      SavedStateLoads(Outcome(file, c).value, c.digits);
    }
  }

  /** The states held before and after a collection. */
  lemma CollectionStates(file: StateFile, c: Collection) returns (before: UsageState, after: UsageState)
    requires Held(file).Success? && KeysOk(c)
    ensures Held(file) == Success(before) && Held(NextFile(file, c)) == Success(after) && Loadable(before)
    ensures after == if Outcome(file, c).Success? then Collected(before, c) else before
  {
    LoadedStateIsLoadable(file);
    CollectionHolds(file, c);
    before, after := Held(file).value, Held(NextFile(file, c)).value;
  }

  /** The collection saves a state that is too long to be read back. */
  ghost predicate Oversaves(file: StateFile, c: Collection) {
    Outcome(file, c).Success? && !Fits(Outcome(file, c).value, c.digits)
  }

  /** One collection over a readable file leaves what it saved, or the file as it was; the file can be read exactly when
      what was saved is not too long. */
  lemma CollectionStaysReadable(file: StateFile, c: Collection)
    requires Load(file).Success? && KeysOk(c)
    ensures Load(NextFile(file, c)) ==
      if Oversaves(file, c) then Failure(InvalidState)
      else match Outcome(file, c)
           case Success(s) => Success(s)
           case Failure(_) => Load(file)
  {
    LoadedStateIsLoadable(file);
    if Outcome(file, c).Success? {
      CollectedIsLoadable(Load(file).value, c);
      SavedStateLoads(Outcome(file, c).value, c.digits);
    }
  }

  /** A file that is not read back is never replaced: every later collection refuses it. */
  lemma {:induction false} RefusedForGood(file: StateFile, cs: seq<Collection>)
    requires Load(file).Failure?
    ensures Run(file, cs) == file
  {
    if cs != [] {
      RefusedForGood(file, cs[..|cs| - 1]);
    }
  }

  ghost predicate NeverOversaves(file: StateFile, cs: seq<Collection>) {
    forall i | 0 <= i < |cs| :: !Oversaves(Run(file, cs[..i]), cs[i])
  }

  lemma ReadableNext(file: StateFile, c: Collection)
    requires KeysOk(c)
    ensures Load(NextFile(file, c)).Success? <==> Load(file).Success? && !Oversaves(file, c)
  {
    if Load(file).Success? {
      CollectionStaysReadable(file, c);
    }
  }

  lemma NeverOversavesSnoc(file: StateFile, init: seq<Collection>, last: Collection)
    ensures NeverOversaves(file, init + [last]) <==> NeverOversaves(file, init) && !Oversaves(Run(file, init), last)
  {
    var cs := init + [last];
    assert cs[..|init|] == init && cs[|init|] == last;
    assert forall i | 0 <= i < |init| :: init[..i] == cs[..i] && init[i] == cs[i];
  }

  /** Persistence closure, with its exact condition: from a file that is read, or none, the file after a run is read
      exactly when no collection of the run saved a state that is too long. */
  lemma {:induction false} RunReadableExactlyWhen(file: StateFile, cs: seq<Collection>)
    requires Load(file).Success? && AllKeysOk(cs)
    ensures Load(Run(file, cs)).Success? <==> NeverOversaves(file, cs)
  {
    if cs != [] {
      var init, last := cs[..|cs| - 1], cs[|cs| - 1];
      RunReadableExactlyWhen(file, init);
      NeverOversavesSnoc(file, init, last);
      assert cs == init + [last];
      ReadableNext(Run(file, init), last);
    }
  }

  /** The bound is met by the number of identities alone: a collection whose ledger has this many keys is the last one
      that is ever read, from any file and whatever follows. */
  lemma ManyKeysEndTheRun(file: StateFile, c: Collection, later: seq<Collection>)
    requires Outcome(file, c).Success? && KeysOk(c) && c.keys.Some? && |c.keys.value| >= MANY_KEYS
    ensures Load(NextFile(file, c)) == Failure(InvalidState)
    ensures Run(NextFile(file, c), later) == NextFile(file, c)
  {
    var before, keys := Load(file).value, Sorted(c.keys.value);
    LoadedStateIsLoadable(file);
    CollectedIsLoadable(before, c);
    var after := Collected(before, c);
    RegistersAll(before, c);
    assert c.keys.value <= after.keyIndexes.Keys;
    SubsetCount(c.keys.value, after.keyIndexes.Keys);
    ManyKeysDoNotFit(after, c.digits);
    CollectionStaysReadable(file, c);
    RefusedForGood(NextFile(file, c), later);
  }

  lemma RegistersAll(s: UsageState, c: Collection)
    requires Loadable(s) && AccountsOk(c.captures) && KeysOk(c) && c.keys.Some?
    ensures forall k | k in c.keys.value :: k in Collected(s, c).keyIndexes
  {
    RegistrationLaws(s.keyIndexes, Highest(s.keyIndexes) + 1, Sorted(c.keys.value));
  }

  lemma {:induction false} SubsetCount(s: set<string>, t: set<string>)
    requires s <= t
    ensures |s| <= |t|
    decreases |s|
  {
    if s != {} {
      var x :| x in s;
      SubsetCount(s - {x}, t - {x});
    }
  }

  // ---------------------------------------------------------------- a ledger with that many keys

  /** The number n written in 64 digits: a key hash for each n. */
  function Hash(n: nat): string { PadLeft(Print(n), 64) }

  lemma {:induction false} PrintWidth(n: nat, width: nat, bound: nat)
    requires n < bound && Bound(width, bound)
    ensures |Print(n)| <= width
    decreases width
  {
    if n >= 10 {
      PrintWidth(n / 10, width - 1, bound / 10);
    }
  }

  predicate Bound(width: nat, bound: nat) {
    width > 0 && (if width == 1 then bound == 10 else bound % 10 == 0 && Bound(width - 1, bound / 10))
  }

  lemma HashIsDigest(n: nat)
    requires n < 100_000
    ensures IsDigest(Hash(n)) && Parse(Hash(n)) == n
  {
    PrintWidth(n, 5, 100_000);
    ParsePadded(n, 64);
    assert AllDigits(Hash(n));
  }

  lemma {:induction false} ManyHashes(n: nat) returns (keys: set<string>)
    requires n <= 100_000
    ensures |keys| == n && forall k | k in keys :: IsDigest(k) && AllDigits(k) && Parse(k) < n
  {
    keys := {};
    if n > 0 {
      var fewer := ManyHashes(n - 1);
      HashIsDigest(n - 1);
      assert Hash(n - 1) !in fewer;
      keys := fewer + {Hash(n - 1)};
    }
  }

  /** A first collection, of one account and a ledger of MANY_KEYS keys, saves a file that no later one reads. */
  lemma OneLedgerEndsTheRun() returns (c: Collection)
    ensures KeysOk(c) && c.keys.Some? && |c.keys.value| == MANY_KEYS && c.digits == 1
    ensures Outcome(Absent, c).Success?
    ensures forall later :: Load(Run(NextFile(Absent, c), later)) == Failure(InvalidState)
  {
    var keys := ManyHashes(MANY_KEYS);
    c := Collection([("acct-1", Unreadable)], Some(keys), 1.0, 1);
    assert IsAccount("acct-1");
    forall later
      ensures Load(Run(NextFile(Absent, c), later)) == Failure(InvalidState)
    {
      ManyKeysEndTheRun(Absent, c, later);
    }
  }

  // ---------------------------------------------------------------- the registry over runs

  ghost predicate Grows(before: map<string, string>, after: map<string, string>) {
    Injective(after) && forall k | k in before :: k in after && after[k] == before[k]
  }

  lemma CollectionGrowsRegistry(file: StateFile, c: Collection)
    requires Held(file).Success? && KeysOk(c)
    ensures Held(NextFile(file, c)).Success?
    ensures Grows(Held(file).value.keyIndexes, Held(NextFile(file, c)).value.keyIndexes)
  {
    LoadedStateIsLoadable(file);
    CollectionHolds(file, c);
    if Outcome(file, c).Success? {
      CollectedIsLoadable(Load(file).value, c);
    }
  }

  /** An identity never changes its index and an index is never given to another identity, across any run: the
      registry in the file only grows, and stays injective throughout, even once the file is no longer read. */
  lemma {:induction false} RegistryIsAppendOnly(file: StateFile, cs: seq<Collection>)
    requires Held(file).Success? && AllKeysOk(cs)
    ensures Held(Run(file, cs)).Success? && Grows(Held(file).value.keyIndexes, Held(Run(file, cs)).value.keyIndexes)
  {
    if cs == [] {
      LoadedStateIsLoadable(file);
    } else {
      RegistryIsAppendOnly(file, cs[..|cs| - 1]);
      CollectionGrowsRegistry(Run(file, cs[..|cs| - 1]), cs[|cs| - 1]);
    }
  }

  // ---------------------------------------------------------------- observation times and untouched accounts

  lemma AccountAtWindow(s: UsageState, collected: string, file: CaptureFile, now: real, account: string, w: Window)
    ensures WindowOf(CollectAccount(s, collected, file, now), account, w) ==
            if account == collected then CollectWindow(file, w, now, WindowOf(s, account, w))
            else WindowOf(s, account, w)
  {
  }

  lemma CollectWindowKeepsTime(file: CaptureFile, w: Window, now: real, prev: Option<Record>)
    ensures SeenAt(prev) <= SeenAt(CollectWindow(file, w, now, prev))
    ensures prev.Some? ==> CollectWindow(file, w, now, prev).Some?
  {
    if Usable(file, now) {
      TimesNeverDecrease(file.lines, w, file.stamp, prev);
    }
  }

  lemma {:induction false} AccountsAtWindow(
      s: UsageState, captures: seq<(string, CaptureFile)>, now: real, account: string, w: Window)
    ensures (forall i | 0 <= i < |captures| :: captures[i].0 != account) ==>
      WindowOf(CollectAccounts(s, captures, now), account, w) == WindowOf(s, account, w)
    ensures SeenAt(WindowOf(s, account, w)) <= SeenAt(WindowOf(CollectAccounts(s, captures, now), account, w))
    ensures WindowOf(s, account, w).Some? ==> WindowOf(CollectAccounts(s, captures, now), account, w).Some?
  {
    if captures != [] {
      var init, last := captures[..|captures| - 1], captures[|captures| - 1];
      AccountsAtWindow(s, init, now, account, w);
      assert forall i | 0 <= i < |init| :: captures[i] == init[i];
      var before := CollectAccounts(s, init, now);
      AccountAtWindow(before, last.0, last.1, now, account, w);
      CollectWindowKeepsTime(last.1, w, now, WindowOf(before, account, w));
    }
  }

  /** Collecting never takes an observation time back, nor a window away. */
  ghost predicate TimesKept(before: UsageState, after: UsageState, account: string, w: Window) {
    && SeenAt(WindowOf(before, account, w)) <= SeenAt(WindowOf(after, account, w))
    && (WindowOf(before, account, w).Some? ==> WindowOf(after, account, w).Some?)
  }

  lemma CollectedKeepsTimes(s: UsageState, c: Collection, account: string, w: Window)
    requires KeysNumbered(s.keyIndexes)
    ensures TimesKept(s, Collected(s, c), account, w)
  {
    AccountsAtWindow(s, c.captures, c.now, account, w);
    assert Collected(s, c).windows == CollectAccounts(s, c.captures, c.now).windows;
  }

  lemma CollectionKeepsTimes(file: StateFile, c: Collection, account: string, w: Window)
    requires Held(file).Success? && KeysOk(c)
    ensures Held(NextFile(file, c)).Success?
    ensures TimesKept(Held(file).value, Held(NextFile(file, c)).value, account, w)
  {
    var before, after := CollectionStates(file, c);
    if Outcome(file, c).Success? {
      CollectedKeepsTimes(before, c, account, w);
    }
  }

  /** observed_at never goes back in any run, for any account and window, whatever the stamps and clocks are. */
  lemma {:induction false} ObservationTimesNeverDecrease(
      file: StateFile, cs: seq<Collection>, account: string, w: Window)
    requires Held(file).Success? && AllKeysOk(cs)
    ensures Held(Run(file, cs)).Success? && TimesKept(Held(file).value, Held(Run(file, cs)).value, account, w)
  {
    if cs != [] {
      var init, last := cs[..|cs| - 1], cs[|cs| - 1];
      ObservationTimesNeverDecrease(file, init, account, w);
      CollectionKeepsTimes(Run(file, init), last, account, w);
    }
  }

  // ---------------------------------------------------------------- the record invariant over runs

  predicate AllWellFormed(s: UsageState) {
    forall a, w | a in s.windows && w in s.windows[a] :: WellFormed(s.windows[a][w])
  }

  lemma CollectWindowKeepsWellFormed(file: CaptureFile, w: Window, now: real, prev: Option<Record>)
    requires WellFormedOption(prev)
    ensures WellFormedOption(CollectWindow(file, w, now, prev))
    ensures FreshReset(CollectWindow(file, w, now, prev), now)
  {
    if Usable(file, now) {
      FoldKeepsWellFormed(file.lines, w, file.stamp, prev);
    }
  }

  predicate NoPastReset(s: UsageState, account: string, now: real) {
    forall w :: FreshReset(WindowOf(s, account, w), now)
  }

  predicate FreshReset(r: Option<Record>, now: real) {
    r.Some? && r.value.reset.Some? ==> r.value.reset.value > now
  }

  lemma {:induction false} AccountsKeepWellFormed(s: UsageState, captures: seq<(string, CaptureFile)>, now: real)
    requires AllWellFormed(s)
    ensures AllWellFormed(CollectAccounts(s, captures, now))
    ensures forall i | 0 <= i < |captures| :: NoPastReset(CollectAccounts(s, captures, now), captures[i].0, now)
  {
    if captures != [] {
      var init, last := captures[..|captures| - 1], captures[|captures| - 1];
      AccountsKeepWellFormed(s, init, now);
      AccountKeepsWellFormed(CollectAccounts(s, init, now), last.0, last.1, now);
      var before, after := CollectAccounts(s, init, now), CollectAccounts(s, captures, now);
      forall i | 0 <= i < |captures|
        ensures NoPastReset(after, captures[i].0, now)
      {
        if captures[i].0 != last.0 {
          assert captures[i] == init[i];
          OtherAccountKeepsFreshness(before, last.0, last.1, now, init[i].0);
        }
      }
    }
  }

  lemma AccountKeepsWellFormed(s: UsageState, account: string, file: CaptureFile, now: real)
    requires AllWellFormed(s)
    ensures AllWellFormed(CollectAccount(s, account, file, now))
    ensures NoPastReset(CollectAccount(s, account, file, now), account, now)
  {
    var after := CollectAccount(s, account, file, now);
    forall w: Window
      ensures WellFormedOption(WindowOf(after, account, w))
      ensures FreshReset(WindowOf(after, account, w), now)
    {
      AccountAtWindow(s, account, file, now, account, w);
      var prev := WindowOf(s, account, w);
      assert WellFormedOption(prev);
      CollectWindowKeepsWellFormed(file, w, now, prev);
    }
    forall a, w | a in after.windows && w in after.windows[a]
      ensures WellFormed(after.windows[a][w])
    {
      if a == account {
        assert WindowOf(after, account, w) == Some(after.windows[a][w]);
      }
    }
  }

  lemma OtherAccountKeepsFreshness(s: UsageState, collected: string, file: CaptureFile, now: real, account: string)
    requires account != collected && NoPastReset(s, account, now)
    ensures NoPastReset(CollectAccount(s, collected, file, now), account, now)
  {
    forall w: Window
      ensures FreshReset(WindowOf(CollectAccount(s, collected, file, now), account, w), now)
    {
      AccountAtWindow(s, collected, file, now, account, w);
    }
  }

  /** Every window of every account the last collection covered holds no passed reset. */
  predicate LeavesNoPastReset(s: UsageState, c: Collection) {
    forall i | 0 <= i < |c.captures| :: NoPastReset(s, c.captures[i].0, c.now)
  }

  /** From no state file, or one whose records are well formed, every record of every state any run saves is well
      formed, and right after a collection no window of a collected account stores a reset that has passed. */
  lemma {:induction false} RunRecordsAreWellFormed(file: StateFile, cs: seq<Collection>)
    requires Held(file).Success? && AllWellFormed(Held(file).value) && AllKeysOk(cs)
    ensures Held(Run(file, cs)).Success?
    ensures AllWellFormed(Held(Run(file, cs)).value)
    ensures cs != [] && Outcome(Run(file, cs[..|cs| - 1]), cs[|cs| - 1]).Success? ==>
      LeavesNoPastReset(Held(Run(file, cs)).value, cs[|cs| - 1])
  {
    if cs != [] {
      var init, last := cs[..|cs| - 1], cs[|cs| - 1];
      RunRecordsAreWellFormed(file, init);
      CollectionIsWellFormed(Run(file, init), last);
    }
  }

  lemma CollectedIsWellFormed(s: UsageState, c: Collection)
    requires KeysNumbered(s.keyIndexes) && AllWellFormed(s)
    ensures AllWellFormed(Collected(s, c)) && LeavesNoPastReset(Collected(s, c), c)
  {
    var merged := CollectAccounts(s, c.captures, c.now);
    AccountsKeepWellFormed(s, c.captures, c.now);
    SameWindowsSameFreshness(merged, Collected(s, c), c);
  }

  lemma CollectionIsWellFormed(file: StateFile, c: Collection)
    requires Held(file).Success? && KeysOk(c) && AllWellFormed(Held(file).value)
    ensures Held(NextFile(file, c)).Success? && AllWellFormed(Held(NextFile(file, c)).value)
    ensures Outcome(file, c).Success? ==> LeavesNoPastReset(Held(NextFile(file, c)).value, c)
  {
    var before, after := CollectionStates(file, c);
    if Outcome(file, c).Success? {
      CollectedIsWellFormed(before, c);
    }
  }

  lemma SameWindowsSameFreshness(s: UsageState, t: UsageState, c: Collection)
    requires s.windows == t.windows && LeavesNoPastReset(s, c)
    ensures LeavesNoPastReset(t, c)
  {
    forall i | 0 <= i < |c.captures|
      ensures NoPastReset(t, c.captures[i].0, c.now)
    {
      assert NoPastReset(s, c.captures[i].0, c.now);
      assert forall w :: WindowOf(s, c.captures[i].0, w) == WindowOf(t, c.captures[i].0, w);
    }
  }

  // ---------------------------------------------------------------- replaying a capture whose reset has passed

  /** A reset a line mentions for a window, whether or not it is recorded. */
  function MentionedReset(line: Line, w: Window): Option<real> {
    match Info(line)
    case None => None
    case Some(info) =>
      var reset := Number(Get(Named(info, w).GetOr(map[]), "resetsAt"));
      if reset == Some(0.0) then None else reset
  }

  /** The line records the reset it mentions whatever the record holds: its status for the window is known, or the
      event is a rejection of that very window. */
  predicate SurelyResets(line: Line, w: Window) {
    MentionedReset(line, w).Some?
    && var info := Info(line).value;
       IsStatus(LocalStatus(Named(info, w).GetOr(map[]))) || (Rejected(info) && Scoped(info, w))
  }

  predicate ResetsWithin(lines: seq<Line>, w: Window, after: real, upTo: real) {
    forall i | 0 <= i < |lines| && MentionedReset(lines[i], w).Some? ::
      after < MentionedReset(lines[i], w).value <= upTo
  }

  predicate ResetLies(r: Option<Record>, after: real, upTo: real) {
    r.Some? && r.value.reset.Some? && after < r.value.reset.value <= upTo
  }

  lemma StepStaysNotNewer(line: Line, w: Window, at: real, r: Option<Record>)
    requires NothingNewer(r, at)
    ensures NothingNewer(StepLine(line, w, at, r), at)
  {
  }

  lemma StepRecordsAReset(line: Line, w: Window, at: real, upTo: real, r: Option<Record>)
    requires NothingNewer(r, at)
    requires MentionedReset(line, w).Some? ==> at < MentionedReset(line, w).value <= upTo
    ensures NothingNewer(StepLine(line, w, at, r), at)
    ensures ResetPart(StepLine(line, w, at, r)) == ResetPart(r) || ResetLies(StepLine(line, w, at, r), at, upTo)
    ensures SurelyResets(line, w) ==> ResetLies(StepLine(line, w, at, r), at, upTo)
  {
    StepStaysNotNewer(line, w, at, r);
    var o := r.GetOr(EMPTY);
    if Info(line).Some? {
      var info := Info(line).value;
      if Update(info, w, o, at).Some? {
        var update := Update(info, w, o, at).value;
        assert update == Named(info, w).GetOr(map[]);
      }
    }
  }

  predicate AnySurelyResets(lines: seq<Line>, w: Window) {
    exists i | 0 <= i < |lines| :: SurelyResets(lines[i], w)
  }

  lemma {:induction false} FoldRecordsAReset(lines: seq<Line>, w: Window, at: real, upTo: real, prev: Option<Record>)
    requires NothingNewer(prev, at) && ResetsWithin(lines, w, at, upTo)
    ensures NothingNewer(Fold(lines, w, at, prev), at)
    ensures AnySurelyResets(lines, w) ==> ResetLies(Fold(lines, w, at, prev), at, upTo)
  {
    if lines != [] {
      FoldRecordsAReset(lines[..|lines| - 1], w, at, upTo, prev);
      StepRecordsAReset(lines[|lines| - 1], w, at, upTo, Fold(lines[..|lines| - 1], w, at, prev));
    }
  }

  /** A capture that carries its window's reset stays dead once that reset has passed: at any later collection, over
      any record that holds nothing newer, its replay leaves the window without a utilization. */
  lemma PassedCaptureStaysDead(lines: seq<Line>, stamp: real, w: Window, now: real, prev: Option<Record>)
    requires 0.0 < stamp <= now && NothingNewer(prev, stamp)
    requires ResetsWithin(lines, w, stamp, now)
    requires AnySurelyResets(lines, w)
    ensures CollectWindow(Readable(lines, stamp), w, now, prev).GetOr(EMPTY).utilization == None
  {
    FoldRecordsAReset(lines, w, stamp, now, prev);
  }

  /** Two records that a line cannot tell apart: equal but for their observation times. */
  predicate SameView(r: Option<Record>, s: Option<Record>) {
    var a, b := r.GetOr(EMPTY), s.GetOr(EMPTY);
    a.utilization == b.utilization && a.assumed == b.assumed && a.reset == b.reset
  }

  lemma MeasureKeepsView(info: Fields, update: Fields, forced: bool, at: real, a: Record, b: Record)
    requires SameView(Some(a), Some(b)) && NothingNewer(Some(a), at) && NothingNewer(Some(b), at)
    ensures var x, y := Measure(info, update, forced, at, a), Measure(info, update, forced, at, b);
      SameView(Some(x), Some(y)) && NothingNewer(Some(x), at) && NothingNewer(Some(y), at)
  {
  }

  lemma NoteResetKeepsView(update: Fields, at: real, a: Record, b: Record)
    requires SameView(Some(a), Some(b)) && NothingNewer(Some(a), at) && NothingNewer(Some(b), at)
    ensures var x, y := NoteReset(update, at, a), NoteReset(update, at, b);
      SameView(Some(x), Some(y)) && NothingNewer(Some(x), at) && NothingNewer(Some(y), at)
  {
  }

  lemma StepKeepsView(line: Line, w: Window, at: real, r: Option<Record>, s: Option<Record>)
    requires SameView(r, s) && NothingNewer(r, at) && NothingNewer(s, at)
    ensures SameView(StepLine(line, w, at, r), StepLine(line, w, at, s))
    ensures NothingNewer(StepLine(line, w, at, r), at) && NothingNewer(StepLine(line, w, at, s), at)
  {
    var a, b := r.GetOr(EMPTY), s.GetOr(EMPTY);
    if Info(line).Some? {
      var info := Info(line).value;
      SameForced(info, w, at, a, b);
      var update, forced := Update(info, w, a, at), Forced(info, w, a, at);
      if update.Some? {
        MeasureKeepsView(info, update.value, forced, at, a, b);
        NoteResetKeepsView(update.value, at, Measure(info, update.value, forced, at, a),
                           Measure(info, update.value, forced, at, b));
      }
    }
  }

  lemma SameForced(info: Fields, w: Window, at: real, a: Record, b: Record)
    requires SameView(Some(a), Some(b))
    ensures Forced(info, w, a, at) == Forced(info, w, b, at) && Update(info, w, a, at) == Update(info, w, b, at)
  {
    assert Spare(a, at) == Spare(b, at);
  }

  lemma {:induction false} FoldKeepsView(lines: seq<Line>, w: Window, at: real, r: Option<Record>, s: Option<Record>)
    requires SameView(r, s) && NothingNewer(r, at) && NothingNewer(s, at)
    ensures SameView(Fold(lines, w, at, r), Fold(lines, w, at, s))
    ensures NothingNewer(Fold(lines, w, at, r), at) && NothingNewer(Fold(lines, w, at, s), at)
  {
    if lines != [] {
      var init := lines[..|lines| - 1];
      FoldKeepsView(init, w, at, r, s);
      StepKeepsView(lines[|lines| - 1], w, at, Fold(init, w, at, r), Fold(init, w, at, s));
    }
  }

  /** Exactly when a replay brings a utilization back into a record that an earlier collection has expired: when the
      capture, read alone, measures the window and does not itself give it a reset that lies after the stamp and has
      passed. */
  lemma ReplayRevivesExactlyWhen(lines: seq<Line>, stamp: real, w: Window, now: real, prev: Option<Record>)
    requires 0.0 < stamp <= now && NothingNewer(prev, stamp) && WellFormedOption(prev)
    requires prev.GetOr(EMPTY).utilization == None && prev.GetOr(EMPTY).reset == None
    ensures var own := Fold(lines, w, stamp, None).GetOr(EMPTY);
      CollectWindow(Readable(lines, stamp), w, now, prev).GetOr(EMPTY).utilization.Some? <==>
      own.utilization.Some? && !(own.reset.Some? && stamp < own.reset.value <= now)
  {
    FoldKeepsView(lines, w, stamp, prev, None);
    MeasuredNow(lines, w, stamp, prev);
  }

  lemma {:induction false} MeasuredNow(lines: seq<Line>, w: Window, at: real, prev: Option<Record>)
    requires at > 0.0 && NothingNewer(prev, at) && prev.GetOr(EMPTY).utilization == None
    ensures Fold(lines, w, at, prev).GetOr(EMPTY).utilization.Some? ==> SeenAt(Fold(lines, w, at, prev)) == at
  {
    if lines != [] {
      MeasuredNow(lines[..|lines| - 1], w, at, prev);
    }
  }

  /** A line that measures a window at one half and gives no reset. */
  function HalfUsed(w: Window): Line {
    Parsed(Obj(map["type" := Str("rate_limit_event"), "rate_limit_info" := Obj(HalfInfo(w))]))
  }

  function HalfInfo(w: Window): Fields {
    map["status" := Str("allowed"), "rateLimitType" := Str(WindowName(w)), "utilization" := Num(0.5)]
  }

  /** The replay law fails without a reset of the capture's own: the reset an earlier capture recorded passes, the
      utilization is dropped, and the very next collection of the same capture brings it back. */
  lemma ReplayWithoutOwnResetRevives(w: Window)
    ensures var capture := Readable([HalfUsed(w)], 10.0);
      var start := Some(Record(Some(0.5), Some(10.0), Some(0.0), Some(20.0), Some(5.0)));
      var expired := CollectWindow(capture, w, 25.0, start);
      && expired.GetOr(EMPTY).utilization == None
      && CollectWindow(capture, w, 26.0, expired).GetOr(EMPTY).utilization == Some(0.5)
  {
    HalfUsedStep(w, Record(Some(0.5), Some(10.0), Some(0.0), Some(20.0), Some(5.0)));
    HalfUsedStep(w, Record(None, Some(10.0), None, None, None));
  }

  lemma HalfInfoNames(w: Window)
    ensures Scoped(HalfInfo(w), w) && !Rejected(HalfInfo(w)) && ScopeOf(HalfInfo(w)) == Some(w)
    ensures var named := Named(HalfInfo(w), w);
      && named.Some? && "status" !in named.value
      && Number(Get(named.value, "utilization")) == Some(0.5) && Get(named.value, "resetsAt") == Null
  {
    var info := HalfInfo(w);
    assert UnifiedOf(info) == map[];
    assert "utilization" in Measures(info) && "status" !in Measures(info) && "resetsAt" !in Measures(info);
  }

  lemma HalfUsedStep(w: Window, r: Record)
    requires r.observedAt == Some(10.0) && r.utilization != Some(1.0)
    ensures Fold([HalfUsed(w)], w, 10.0, Some(r)) == Some(r.(utilization := Some(0.5), assumed := Some(0.0)))
  {
    var lines := [HalfUsed(w)];
    assert lines[..0] == [];
    assert Info(lines[0]) == Some(HalfInfo(w));
    HalfInfoNames(w);
    var update := Named(HalfInfo(w), w).value;
    assert Update(HalfInfo(w), w, r, 10.0) == Some(update);
  }
}
