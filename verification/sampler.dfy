/** The cadence loop of sample in observability/claude_usage_sampler.py: one probe per account per 900-second slot,
    with the attempt saved before the probe is launched. */
module Sampler {
  import opened Decimal
  import opened Ordering
  import opened Strings
  import opened JsonSize

  const INTERVAL: real := 900.0

  /** attempted_at // INTERVAL */
  function Slot(t: real): int {
    (t / INTERVAL).Floor
  }

  datatype Entry = Entry(index: string, attemptedAt: real, success: bool)

  /** account_indexes: from the digest of an identity to its entry */
  type Registry = map<string, Entry>

  /** The state file and its length in bytes. save_state replaces it atomically, so a crash leaves the old or the new
      content. */
  datatype Disk = Absent | Saved(registry: Registry, size: nat)

  function Stored(disk: Disk): Registry {
    if disk.Saved? then disk.registry else map[]
  }

  // ---------------------------------------------------------------- load_sampler_state

  /** acct- and digits, leading zeros allowed */
  predicate IsIndex(s: string) {
    |s| > 5 && s[..5] == "acct-" && AllDigits(s[5..]) && Parse(s[5..]) >= 1
  }

  function NumberOf(s: string): nat
    requires IsIndex(s)
  {
    Parse(s[5..])
  }

  predicate Distinct(r: Registry) {
    forall d, e | d in r && e in r && d != e :: r[d].index != r[e].index
  }

  predicate Named(r: Registry) {
    (forall d | d in r :: IsDigest(d) && IsIndex(r[d].index)) && Distinct(r)
  }

  /** read_data refuses a longer file. */
  predicate ShortEnough(disk: Disk) {
    disk.Saved? ==> disk.size <= STATE_LIMIT
  }

  predicate Loads(disk: Disk) {
    ShortEnough(disk) && Named(Stored(disk)) && forall d | d in Stored(disk) :: Stored(disk)[d].attemptedAt >= 0.0
  }

  function EntrySize(e: Entry): nat {
    Member("attempted_at", 0) + Member("index", Quoted(e.index)) + Member("success", 0)
  }

  /** The characters save_state writes for a registry, the final newline included and the digits of its numbers
      apart. */
  function RegistrySize(r: Registry): nat {
    Member("account_indexes", ObjectSize(r, EntrySize)) + Member("version", 0) + 1
  }

  /** What save_state leaves; digits is how many characters the numbers print in. */
  function SavedFile(r: Registry, digits: nat): Disk {
    Saved(r, RegistrySize(r) + digits)
  }

  function HighestOver(r: Registry, digests: seq<string>): (n: nat)
    requires Named(r) && forall d | d in digests :: d in r
    ensures forall d | d in digests :: NumberOf(r[d].index) <= n
  {
    if digests == [] then 0
    else
      var rest, first := HighestOver(r, digests[1..]), NumberOf(r[digests[0]].index);
      if first > rest then first else rest
  }

  /** One more than the largest number any account has. */
  ghost function NextIndex(r: Registry): (n: nat)
    requires Named(r)
    ensures n > 0 && forall d | d in r :: NumberOf(r[d].index) < n
  {
    1 + HighestOver(r, Sorted(r.Keys))
  }

  function AccountIndex(n: nat): (s: string)
    requires n > 0
    ensures IsIndex(s) && NumberOf(s) == n
  {
    ParsePrint(n);
    var s := "acct-" + Print(n);
    assert s[..5] == "acct-" && s[5..] == Print(n);
    s
  }

  // ---------------------------------------------------------------- one visit of the loop

  /** How far the process gets in one iteration. A crash, or a fence that refuses, ends the pass. */
  datatype Fate = StopsBeforeSave | StopsAfterSave | StopsAfterLaunch | Finishes(success: bool)

  /** What the world answers in one iteration: the clock reading, how far the process gets, and how many characters the
      numbers of a registry saved here print in. */
  datatype Visit = Visit(clock: real, fate: Fate, digits: nat)

  datatype Launch = Launch(digest: string, index: string, at: real)

  /** A pass in progress: the file, the registry in memory, the next free number, and every launch so far. */
  datatype Progress = Progress(disk: Disk, memory: Registry, next: nat, launches: seq<Launch>, stopped: bool)

  function Enter(p: Progress, digest: string): Progress
    requires p.next > 0
  {
    if digest in p.memory then p
    else p.(memory := p.memory[digest := Entry(AccountIndex(p.next), 0.0, false)], next := p.next + 1)
  }

  predicate Due(entry: Entry, clock: real) {
    entry.attemptedAt == 0.0 || Slot(clock) > Slot(entry.attemptedAt)
  }

  /** The part of an iteration that runs when the slot is due. */
  function Attempt(q: Progress, digest: string, v: Visit): Progress
    requires digest in q.memory
  {
    var entry := q.memory[digest];
    var attempted := q.memory[digest := Entry(entry.index, v.clock, false)];
    var launched := q.launches + [Launch(digest, entry.index, v.clock)];
    match v.fate
    case StopsBeforeSave => q.(stopped := true)
    case StopsAfterSave => q.(disk := SavedFile(attempted, v.digits), stopped := true)
    case StopsAfterLaunch => q.(disk := SavedFile(attempted, v.digits), launches := launched, stopped := true)
    case Finishes(success) =>
      var done := q.memory[digest := Entry(entry.index, v.clock, success)];
      q.(disk := SavedFile(done, v.digits), memory := done, launches := launched)
  }

  function VisitAccount(p: Progress, digest: string, v: Visit): (r: Progress)
    requires p.next > 0
    ensures r.next > 0
  {
    if p.stopped then p
    else
      var q := Enter(p, digest);
      if Due(q.memory[digest], v.clock) then Attempt(q, digest, v)
      else if v.fate.Finishes? then q
      else q.(stopped := true)
  }

  function VisitAll(p: Progress, digests: seq<string>, world: string -> Visit): (q: Progress)
    requires p.next > 0
    ensures q.next > 0
  {
    if digests == [] then p
    else
      var init, last := digests[..|digests| - 1], digests[|digests| - 1];
      VisitAccount(VisitAll(p, init, world), last, world(last))
  }

  /** One invocation of sample: its accounts, its first clock reading and the world's answers. */
  datatype Pass = Pass(accounts: set<string>, startedAt: real, world: string -> Visit)

  datatype World = World(disk: Disk, launches: seq<Launch>)

  ghost function Begin(w: World): Progress
    requires Loads(w.disk)
  {
    Progress(w.disk, Stored(w.disk), NextIndex(Stored(w.disk)), w.launches, false)
  }

  /** A pass is refused on an invalid clock or a state file that does not load; then it changes nothing. */
  ghost function AfterPass(w: World, pass: Pass): World {
    if pass.startedAt <= 0.0 || !Loads(w.disk) then w
    else
      var p := VisitAll(Begin(w), Sorted(pass.accounts), pass.world);
      World(p.disk, p.launches)
  }

  lemma VisitAllSnoc(p: Progress, digests: seq<string>, i: nat, world: string -> Visit)
    requires p.next > 0 && i < |digests|
    ensures VisitAll(p, digests[..i + 1], world)
         == VisitAccount(VisitAll(p, digests[..i], world), digests[i], world(digests[i]))
  {
    var more := digests[..i + 1];
    assert more[..|more| - 1] == digests[..i] && more[|more| - 1] == digests[i];
  }

  lemma {:induction false} StoppedForGood(p: Progress, digests: seq<string>, i: nat, world: string -> Visit)
    requires p.next > 0 && i <= |digests| && VisitAll(p, digests[..i], world).stopped
    ensures VisitAll(p, digests, world) == VisitAll(p, digests[..i], world)
  {
    if i < |digests| {
      var init := digests[..|digests| - 1];
      assert init[..i] == digests[..i];
      StoppedForGood(p, init, i, world);
    } else {
      assert digests[..i] == digests;
    }
  }

  lemma UpdateTwice(r: Registry, digest: string, first: Entry, second: Entry)
    ensures r[digest := first][digest := second] == r[digest := second]
  {
  }

  // ---------------------------------------------------------------- the imperative loop

  class SamplerState {
    var disk: Disk
    var launches: seq<Launch>

    constructor ()
      ensures disk == Absent && launches == []
    {
      disk, launches := Absent, [];
    }

    method Sample(pass: Pass)
      modifies this
      ensures World(disk, launches) == AfterPass(old(World(disk, launches)), pass)
    {
      if pass.startedAt <= 0.0 || !Loads(disk) {
        return;
      }
      ghost var start := Begin(World(disk, launches));
      var known := SortedList(Stored(disk).Keys);
      var indexes, nextIndex, stopped := Stored(disk), 1 + HighestOver(Stored(disk), known), false;
      var digests := SortedList(pass.accounts);
      for i := 0 to |digests|
        invariant nextIndex > 0
        invariant Progress(disk, indexes, nextIndex, launches, false) == VisitAll(start, digests[..i], pass.world)
      {
        VisitAllSnoc(start, digests, i, pass.world);
        indexes, nextIndex, stopped := Iterate(indexes, nextIndex, digests[i], pass.world(digests[i]));
        if stopped {
          StoppedForGood(start, digests, i + 1, pass.world);
          return;
        }
      }
      assert digests[..|digests|] == digests;
    }

    /** The object and the locals of a pass are in the state p describes; a stopped pass has no locals left. */
    ghost predicate Matches(p: Progress, indexes: Registry, nextIndex: nat, stopped: bool)
      reads this
    {
      disk == p.disk && launches == p.launches && stopped == p.stopped
      && (!stopped ==> indexes == p.memory && nextIndex == p.next)
    }

    /** One iteration of the loop over sorted(accounts.items()). */
    method Iterate(before: Registry, next: nat, digest: string, v: Visit)
      returns (indexes: Registry, nextIndex: nat, stopped: bool)
      requires next > 0
      modifies this
      ensures nextIndex > 0
      ensures Matches(VisitAccount(Progress(old(disk), before, next, old(launches), false), digest, v),
                      indexes, nextIndex, stopped)
    {
      indexes, nextIndex, stopped := before, next, false;
      if digest !in indexes {
        indexes := indexes[digest := Entry(AccountIndex(nextIndex), 0.0, false)];
        nextIndex := nextIndex + 1;
      }
      if Due(indexes[digest], v.clock) {
        indexes, stopped := Probe(indexes, nextIndex, digest, v);
      } else if !v.fate.Finishes? {
        stopped := true;
      }
    }

    /** The body of the cadence test: save the attempt, launch, save the result. */
    method Probe(before: Registry, ghost next: nat, digest: string, v: Visit) returns (indexes: Registry, stopped: bool)
      requires digest in before
      modifies this
      ensures Matches(Attempt(Progress(old(disk), before, next, old(launches), false), digest, v),
                      indexes, next, stopped)
    {
      indexes, stopped := before, true;
      var index := indexes[digest].index;
      if v.fate.StopsBeforeSave? {
        return;
      }
      indexes := indexes[digest := Entry(index, v.clock, false)];
      disk := SavedFile(indexes, v.digits);
      if v.fate.StopsAfterSave? {
        return;
      }
      launches := launches + [Launch(digest, index, v.clock)];
      if v.fate.StopsAfterLaunch? {
        return;
      }
      indexes := indexes[digest := indexes[digest].(success := v.fate.success)];
      UpdateTwice(before, digest, Entry(index, v.clock, false), Entry(index, v.clock, v.fate.success));
      disk := SavedFile(indexes, v.digits);
      stopped := false;
    }
  }

  // ---------------------------------------------------------------- what every run keeps

  /** Two launches of one identity are in different slots, the later one in the later slot; the one exception is an
      earlier launch stamped exactly zero, which the file cannot tell from "never attempted". */
  predicate SlotsIncrease(launches: seq<Launch>) {
    forall i, j | 0 <= i < j < |launches| && launches[i].digest == launches[j].digest ::
      launches[i].at == 0.0 || Slot(launches[i].at) < Slot(launches[j].at)
  }

  /** The file already holds this launch's attempt, or a later one, under the launch's own index. */
  predicate Covered(l: Launch, r: Registry) {
    && l.digest in r && r[l.digest].index == l.index
    && (l.at == 0.0 || (r[l.digest].attemptedAt != 0.0 && Slot(l.at) <= Slot(r[l.digest].attemptedAt)))
    && (l.at < 0.0 ==> r[l.digest].attemptedAt < 0.0)
  }

  predicate Sound(w: World) {
    && Named(Stored(w.disk))
    && SlotsIncrease(w.launches)
    && forall i | 0 <= i < |w.launches| :: Covered(w.launches[i], Stored(w.disk))
  }

  predicate MemoryAgrees(p: Progress) {
    && Named(p.memory)
    && (forall d | d in p.memory :: NumberOf(p.memory[d].index) < p.next)
    && (forall d | d in Stored(p.disk) :: d in p.memory && p.memory[d] == Stored(p.disk)[d])
    && (forall d | d in p.memory && d !in Stored(p.disk) :: p.memory[d].attemptedAt == 0.0)
  }

  predicate SoundProgress(p: Progress) {
    p.next > 0 && Sound(World(p.disk, p.launches)) && (!p.stopped ==> MemoryAgrees(p))
  }

  /** Identities keep their index from one file to the next. */
  predicate Extends(before: Registry, after: Registry) {
    forall d | d in before :: d in after && after[d].index == before[d].index
  }

  lemma NewEntryStaysNamed(r: Registry, next: nat, digest: string)
    requires Named(r) && next > 0 && IsDigest(digest) && digest !in r
    requires forall d | d in r :: NumberOf(r[d].index) < next
    ensures Named(r[digest := Entry(AccountIndex(next), 0.0, false)])
  {
    var after := r[digest := Entry(AccountIndex(next), 0.0, false)];
    forall d | d in after && d != digest
      ensures after[d].index != after[digest].index
    {
      assert NumberOf(after[d].index) < next;
    }
  }

  lemma EnterKeepsAgreement(p: Progress, digest: string)
    requires MemoryAgrees(p) && p.next > 0 && IsDigest(digest)
    ensures MemoryAgrees(Enter(p, digest))
    ensures forall d | d in p.memory :: d in Enter(p, digest).memory && Enter(p, digest).memory[d] == p.memory[d]
  {
    if digest !in p.memory {
      NewEntryStaysNamed(p.memory, p.next, digest);
    }
  }

  lemma EnterKeepsSound(p: Progress, digest: string)
    requires SoundProgress(p) && !p.stopped && IsDigest(digest)
    ensures SoundProgress(Enter(p, digest))
    ensures Extends(p.memory, Enter(p, digest).memory)
    ensures forall d | d in p.memory :: Enter(p, digest).memory[d] == p.memory[d]
  {
    EnterKeepsAgreement(p, digest);
  }

  lemma AttemptMovesSlotOn(p: Progress, digest: string, clock: real, r: Registry)
    requires SoundProgress(p) && !p.stopped && digest in p.memory
    requires p.memory[digest].attemptedAt >= 0.0 && Due(p.memory[digest], clock)
    requires r.Keys == p.memory.Keys && r[digest].index == p.memory[digest].index && r[digest].attemptedAt == clock
    requires forall d | d in p.memory && d != digest :: r[d] == p.memory[d]
    ensures forall i | 0 <= i < |p.launches| :: Covered(p.launches[i], r)
    ensures forall i | 0 <= i < |p.launches| && p.launches[i].digest == digest ::
      p.launches[i].at == 0.0 || Slot(p.launches[i].at) < Slot(clock)
  {
    forall i | 0 <= i < |p.launches|
      ensures Covered(p.launches[i], r)
      ensures p.launches[i].digest == digest ==> p.launches[i].at == 0.0 || Slot(p.launches[i].at) < Slot(clock)
    {
      assert Covered(p.launches[i], Stored(p.disk));
    }
  }

  lemma LaunchStaysSound(launches: seq<Launch>, l: Launch, r: Registry)
    requires SlotsIncrease(launches) && Covered(l, r) && forall i | 0 <= i < |launches| :: Covered(launches[i], r)
    requires forall i | 0 <= i < |launches| && launches[i].digest == l.digest ::
      launches[i].at == 0.0 || Slot(launches[i].at) < Slot(l.at)
    ensures SlotsIncrease(launches + [l]) && forall i | 0 <= i < |launches + [l]| :: Covered((launches + [l])[i], r)
  {
  }

  lemma AttemptIsSound(p: Progress, digest: string, clock: real, success: bool, launched: bool, size: nat)
    requires SoundProgress(p) && !p.stopped && digest in p.memory
    requires p.memory[digest].attemptedAt >= 0.0 && Due(p.memory[digest], clock)
    ensures var entry := p.memory[digest];
      var r := p.memory[digest := Entry(entry.index, clock, success)];
      var ls := if launched then p.launches + [Launch(digest, entry.index, clock)] else p.launches;
      SoundProgress(Progress(Saved(r, size), r, p.next, ls, false)) && Extends(Stored(p.disk), r)
  {
    var entry := p.memory[digest];
    var r := p.memory[digest := Entry(entry.index, clock, success)];
    assert Named(r);
    AttemptMovesSlotOn(p, digest, clock, r);
    if launched {
      LaunchStaysSound(p.launches, Launch(digest, entry.index, clock), r);
    }
  }

  lemma AttemptKeepsSound(q: Progress, digest: string, v: Visit)
    requires SoundProgress(q) && !q.stopped && digest in q.memory
    requires q.memory[digest].attemptedAt >= 0.0 && Due(q.memory[digest], v.clock)
    ensures SoundProgress(Attempt(q, digest, v))
    ensures Extends(Stored(q.disk), Stored(Attempt(q, digest, v).disk))
    ensures q.launches <= Attempt(q, digest, v).launches
  {
    var written := Attempt(q, digest, v).disk;
    match v.fate
    case StopsBeforeSave =>
    case StopsAfterSave => AttemptIsSound(q, digest, v.clock, false, false, written.size);
    case StopsAfterLaunch => AttemptIsSound(q, digest, v.clock, false, true, written.size);
    case Finishes(success) => AttemptIsSound(q, digest, v.clock, success, true, written.size);
  }

  lemma VisitKeepsSound(p: Progress, digest: string, v: Visit)
    requires SoundProgress(p) && IsDigest(digest)
    requires !p.stopped && digest in p.memory ==> p.memory[digest].attemptedAt >= 0.0
    ensures SoundProgress(VisitAccount(p, digest, v))
    ensures Extends(Stored(p.disk), Stored(VisitAccount(p, digest, v).disk))
    ensures p.launches <= VisitAccount(p, digest, v).launches
  {
    if !p.stopped {
      EnterKeepsSound(p, digest);
      var q := Enter(p, digest);
      if Due(q.memory[digest], v.clock) {
        AttemptKeepsSound(q, digest, v);
      }
    }
  }

  lemma VisitLeavesOthers(p: Progress, digest: string, v: Visit)
    requires p.next > 0 && !VisitAccount(p, digest, v).stopped
    ensures !p.stopped
    ensures forall d | d != digest && d in VisitAccount(p, digest, v).memory ::
              d in p.memory && VisitAccount(p, digest, v).memory[d] == p.memory[d]
  {
  }

  lemma {:induction false} VisitAllKeepsSound(p: Progress, digests: seq<string>, world: string -> Visit)
    requires SoundProgress(p) && !p.stopped
    requires forall d | d in digests :: IsDigest(d)
    requires forall i, j | 0 <= i < j < |digests| :: digests[i] != digests[j]
    requires forall d | d in p.memory :: p.memory[d].attemptedAt >= 0.0
    ensures var q := VisitAll(p, digests, world);
      && SoundProgress(q) && Extends(Stored(p.disk), Stored(q.disk)) && p.launches <= q.launches
      && (!q.stopped ==> forall d | d in q.memory && d !in digests :: q.memory[d].attemptedAt >= 0.0)
  {
    if digests != [] {
      var init, last := digests[..|digests| - 1], digests[|digests| - 1];
      VisitAllKeepsSound(p, init, world);
      assert last !in init;
      VisitKeepsSound(VisitAll(p, init, world), last, world(last));
      if !VisitAll(p, digests, world).stopped {
        VisitLeavesOthers(VisitAll(p, init, world), last, world(last));
      }
    }
  }

  lemma PassKeepsSound(w: World, pass: Pass)
    requires Sound(w) && forall d | d in pass.accounts :: IsDigest(d)
    ensures Sound(AfterPass(w, pass))
    ensures Extends(Stored(w.disk), Stored(AfterPass(w, pass).disk))
    ensures w.launches <= AfterPass(w, pass).launches
  {
    if pass.startedAt > 0.0 && Loads(w.disk) {
      VisitAllKeepsSound(Begin(w), Sorted(pass.accounts), pass.world);
    }
  }

  ghost function Run(start: World, passes: seq<Pass>): World {
    if passes == [] then start else AfterPass(Run(start, passes[..|passes| - 1]), passes[|passes| - 1])
  }

  /** sha256 digests are what accounts_from_file produces. */
  predicate Digests(passes: seq<Pass>) {
    forall i | 0 <= i < |passes| :: forall d | d in passes[i].accounts :: IsDigest(d)
  }

  /** A run starts from no file, or from any that load_sampler_state accepts; of the launches before it, those may be
      counted that the file records, one for each identity. */
  predicate Starts(start: World) {
    && Loads(start.disk)
    && (forall i | 0 <= i < |start.launches| ::
          var l, r := start.launches[i], Stored(start.disk);
          l.digest in r && l.index == r[l.digest].index && l.at == r[l.digest].attemptedAt)
    && (forall i, j | 0 <= i < j < |start.launches| :: start.launches[i].digest != start.launches[j].digest)
  }

  lemma {:induction false} RunKeepsSound(start: World, passes: seq<Pass>)
    requires Starts(start) && Digests(passes)
    ensures Sound(Run(start, passes))
  {
    if passes != [] {
      RunKeepsSound(start, passes[..|passes| - 1]);
      PassKeepsSound(Run(start, passes[..|passes| - 1]), passes[|passes| - 1]);
    }
  }

  /** Over every run from any file, with the clock going anywhere and the process stopping anywhere: an identity is
      probed at most once per slot, and its slots strictly increase, beyond the attempt the file recorded too. */
  lemma AtMostOneProbePerSlot(start: World, passes: seq<Pass>)
    requires Starts(start) && Digests(passes)
    ensures SlotsIncrease(Run(start, passes).launches) && start.launches <= Run(start, passes).launches
  {
    RunKeepsSound(start, passes);
    IndexesNeverMove(start, passes, 0);
    assert passes[..0] == [];
  }

  /** The saved registry only grows and never moves an index, from any point of a run to any later one. */
  lemma {:induction false} IndexesNeverMove(start: World, passes: seq<Pass>, n: nat)
    requires Starts(start) && Digests(passes) && n <= |passes|
    ensures Extends(Stored(Run(start, passes[..n]).disk), Stored(Run(start, passes).disk))
    ensures Run(start, passes[..n]).launches <= Run(start, passes).launches
  {
    if n == |passes| {
      assert passes[..n] == passes;
    } else {
      var init := passes[..|passes| - 1];
      assert init[..n] == passes[..n];
      IndexesNeverMove(start, init, n);
      RunKeepsSound(start, init);
      PassKeepsSound(Run(start, init), passes[|passes| - 1]);
    }
  }

  /** A capture file belongs to one identity for ever: launches share an index exactly when they share an identity. */
  lemma IndexesIdentifyAccounts(start: World, passes: seq<Pass>, i: nat, j: nat)
    requires Starts(start) && Digests(passes) && i < |Run(start, passes).launches| && j < |Run(start, passes).launches|
    ensures Run(start, passes).launches[i].index == Run(start, passes).launches[j].index <==>
            Run(start, passes).launches[i].digest == Run(start, passes).launches[j].digest
  {
    RunKeepsSound(start, passes);
    var w := Run(start, passes);
    assert Covered(w.launches[i], Stored(w.disk)) && Covered(w.launches[j], Stored(w.disk));
  }

  // ---------------------------------------------------------------- the state file always loads again

  predicate ClockNeverNegative(pass: Pass) {
    forall d | d in pass.accounts :: pass.world(d).clock >= 0.0
  }

  predicate NoNegative(r: Registry) {
    forall d | d in r :: r[d].attemptedAt >= 0.0
  }

  lemma UpdateStaysNonNegative(r: Registry, digest: string, e: Entry)
    requires NoNegative(r) && e.attemptedAt >= 0.0
    ensures NoNegative(r[digest := e])
  {
  }

  lemma AttemptStaysNonNegative(q: Progress, digest: string, v: Visit)
    requires digest in q.memory && NoNegative(q.memory) && NoNegative(Stored(q.disk)) && v.clock >= 0.0
    ensures NoNegative(Attempt(q, digest, v).memory) && NoNegative(Stored(Attempt(q, digest, v).disk))
  {
    var index := q.memory[digest].index;
    UpdateStaysNonNegative(q.memory, digest, Entry(index, v.clock, false));
    if v.fate.Finishes? {
      UpdateStaysNonNegative(q.memory, digest, Entry(index, v.clock, v.fate.success));
    }
  }

  lemma VisitStaysNonNegative(p: Progress, digest: string, v: Visit)
    requires p.next > 0 && NoNegative(p.memory) && NoNegative(Stored(p.disk)) && v.clock >= 0.0
    ensures NoNegative(VisitAccount(p, digest, v).memory) && NoNegative(Stored(VisitAccount(p, digest, v).disk))
  {
    var q := Enter(p, digest);
    assert NoNegative(q.memory) && q.disk == p.disk;
    AttemptStaysNonNegative(q, digest, v);
  }

  lemma {:induction false} VisitAllStaysNonNegative(p: Progress, digests: seq<string>, world: string -> Visit)
    requires p.next > 0 && NoNegative(p.memory) && NoNegative(Stored(p.disk))
    requires forall d | d in digests :: world(d).clock >= 0.0
    ensures NoNegative(VisitAll(p, digests, world).memory) && NoNegative(Stored(VisitAll(p, digests, world).disk))
  {
    if digests != [] {
      var init, last := digests[..|digests| - 1], digests[|digests| - 1];
      VisitAllStaysNonNegative(p, init, world);
      VisitStaysNonNegative(VisitAll(p, init, world), last, world(last));
    }
  }

  /** The file any run leaves is accepted by load_sampler_state exactly when it is short enough and no attempt in it is
      stamped below zero. */
  lemma StateLoadsExactlyWhen(start: World, passes: seq<Pass>)
    requires Starts(start) && Digests(passes)
    ensures var disk := Run(start, passes).disk; Loads(disk) <==> ShortEnough(disk) && NoNegative(Stored(disk))
  {
    RunKeepsSound(start, passes);
  }

  /** No attempt is, while the clock never reads below zero. */
  lemma {:induction false} StampsStayNonNegative(start: World, passes: seq<Pass>)
    requires Starts(start) && Digests(passes)
    requires forall i | 0 <= i < |passes| :: ClockNeverNegative(passes[i])
    ensures NoNegative(Stored(Run(start, passes).disk))
  {
    if passes != [] {
      var init, last := passes[..|passes| - 1], passes[|passes| - 1];
      StampsStayNonNegative(start, init);
      if last.startedAt > 0.0 && Loads(Run(start, init).disk) {
        VisitAllStaysNonNegative(Begin(Run(start, init)), Sorted(last.accounts), last.world);
      }
    }
  }

  // ---------------------------------------------------------------- a file that is too long ends the run

  /** The recorded length covers the registry, in every file that save_state wrote; file is the one the run found. */
  predicate Covers(disk: Disk, file: Disk) {
    disk == file || (disk.Saved? && disk.size >= RegistrySize(disk.registry))
  }

  lemma {:induction false} VisitsKeepCovered(p: Progress, digests: seq<string>, world: string -> Visit, file: Disk)
    requires p.next > 0 && Covers(p.disk, file)
    ensures Covers(VisitAll(p, digests, world).disk, file)
  {
    if digests != [] {
      var init, last := digests[..|digests| - 1], digests[|digests| - 1];
      VisitsKeepCovered(p, init, world, file);
      VisitKeepsCovered(VisitAll(p, init, world), last, world(last), file);
    }
  }

  lemma VisitKeepsCovered(p: Progress, digest: string, v: Visit, file: Disk)
    requires p.next > 0 && Covers(p.disk, file)
    ensures Covers(VisitAccount(p, digest, v).disk, file)
  {
    var q := Enter(p, digest);
    assert q.disk == p.disk;
    AttemptKeepsCovered(q, digest, v, file);
  }

  lemma SavedIsCovered(r: Registry, digits: nat, file: Disk)
    ensures Covers(SavedFile(r, digits), file)
  {
  }

  lemma AttemptKeepsCovered(q: Progress, digest: string, v: Visit, file: Disk)
    requires Covers(q.disk, file) && digest in q.memory
    ensures Covers(Attempt(q, digest, v).disk, file)
  {
    var index := q.memory[digest].index;
    if v.fate.Finishes? {
      SavedIsCovered(q.memory[digest := Entry(index, v.clock, v.fate.success)], v.digits, file);
    } else {
      SavedIsCovered(q.memory[digest := Entry(index, v.clock, false)], v.digits, file);
    }
  }

  lemma {:induction false} RunsKeepCovered(start: World, passes: seq<Pass>)
    ensures Covers(Run(start, passes).disk, start.disk)
  {
    if passes != [] {
      var init, last := Run(start, passes[..|passes| - 1]), passes[|passes| - 1];
      RunsKeepCovered(start, passes[..|passes| - 1]);
      if last.startedAt > 0.0 && Loads(init.disk) {
        VisitsKeepCovered(Begin(init), Sorted(last.accounts), last.world, start.disk);
      }
    }
  }

  /** A registry of this many identities is too long to be read back, however its numbers print. */
  const MANY_ACCOUNTS: nat := 8_739

  lemma ManyAccountsAreTooLong(r: Registry)
    requires Named(r) && |r| >= MANY_ACCOUNTS
    ensures RegistrySize(r) > STATE_LIMIT
  {
    ObjectSizeAtLeast(r, EntrySize, 120);
  }

  /** A file that does not load is never replaced: from there on the run stands still. */
  lemma {:induction false} RefusedForGood(start: World, passes: seq<Pass>, n: nat)
    requires n <= |passes| && !Loads(Run(start, passes[..n]).disk)
    ensures Run(start, passes) == Run(start, passes[..n])
  {
    if n == |passes| {
      assert passes[..n] == passes;
    } else {
      var init := passes[..|passes| - 1];
      assert init[..n] == passes[..n];
      RefusedForGood(start, init, n);
    }
  }

  /** Identities are never removed, so a run that has saved that many of them does nothing any more. */
  lemma ManyAccountsEndTheRun(start: World, passes: seq<Pass>, n: nat)
    requires Starts(start) && Digests(passes) && n <= |passes|
    requires Run(start, passes[..n]).disk != start.disk
    requires |Stored(Run(start, passes[..n]).disk)| >= MANY_ACCOUNTS
    ensures !Loads(Run(start, passes[..n]).disk) && Run(start, passes) == Run(start, passes[..n])
  {
    RunKeepsSound(start, passes[..n]);
    RunsKeepCovered(start, passes[..n]);
    ManyAccountsAreTooLong(Stored(Run(start, passes[..n]).disk));
    RefusedForGood(start, passes, n);
  }

  // ---------------------------------------------------------------- the exception is real

  const NOTHING: World := World(Absent, [])

  lemma TwoPasses(pass: Pass)
    ensures Run(NOTHING, [pass]) == AfterPass(NOTHING, pass)
    ensures Run(NOTHING, [pass, pass]) == AfterPass(Run(NOTHING, [pass]), pass)
  {
    assert [pass][..0] == [] && [pass, pass][..1] == [pass];
  }

  /** Two passes whose clock reads zero at the account probe it twice in the same slot. */
  lemma ZeroClockProbesTwice(digest: string)
    requires IsDigest(digest)
    ensures var pass := Pass({digest}, 5.0, _ => Visit(0.0, Finishes(true), 30));
      var launches := Run(NOTHING, [pass, pass]).launches;
      |launches| == 2 && launches[0] == launches[1] && launches[0].digest == digest
  {
    var pass := Pass({digest}, 5.0, _ => Visit(0.0, Finishes(true), 30));
    TwoPasses(pass);
    var once := AfterPass(NOTHING, pass);
    ZeroClockPass(NOTHING, digest, pass);
    RunKeepsSound(NOTHING, [pass]);
    OneEntryLoads(once.disk, digest);
    ZeroClockPass(once, digest, pass);
  }

  lemma OneEntryLoads(disk: Disk, digest: string)
    requires IsDigest(digest) && disk == SavedFile(Stored(disk), 30) && Named(Stored(disk))
    requires digest in Stored(disk) && |Stored(disk)[digest].index| == 6
    requires forall d | d in Stored(disk) :: d == digest && Stored(disk)[d].attemptedAt == 0.0
    ensures Loads(disk)
  {
    assert Stored(disk).Keys == {digest};
    OneAccountLoads(Stored(disk), digest);
  }

  /** A registry of one identity is short enough. */
  lemma OneAccountLoads(r: Registry, digest: string)
    requires r.Keys == {digest} && |digest| == 64 && |r[digest].index| == 6
    ensures ShortEnough(SavedFile(r, 30))
  {
    assert |r.Keys| == |r| == 1;
    ArrangeCount(r.Keys);
    var keys := Arrange(r.Keys);
    assert keys[0] == digest && keys[1..] == [];
    assert Members(r, keys[1..], EntrySize) == 0;
    assert ObjectSize(r, EntrySize) == Member(digest, EntrySize(r[digest]));
  }

  lemma ZeroClockPass(w: World, digest: string, pass: Pass)
    requires pass == Pass({digest}, 5.0, _ => Visit(0.0, Finishes(true), 30))
    requires Loads(w.disk) && forall d | d in Stored(w.disk) :: d == digest && Stored(w.disk)[d].attemptedAt == 0.0
    ensures var v := AfterPass(w, pass);
      && |v.launches| == |w.launches| + 1 && v.launches[..|w.launches|] == w.launches
      && v.launches[|w.launches|].digest == digest && v.launches[|w.launches|].at == 0.0
      && digest in Stored(v.disk) && v.launches[|w.launches|].index == Stored(v.disk)[digest].index
      && (digest in Stored(w.disk) ==> Stored(v.disk)[digest].index == Stored(w.disk)[digest].index)
      && (forall d | d in Stored(v.disk) :: d == digest && Stored(v.disk)[d].attemptedAt == 0.0)
      && v.disk == SavedFile(Stored(v.disk), 30)
      && (w.disk.Absent? ==> |Stored(v.disk)[digest].index| == 6)
  {
    if w.disk.Absent? {
      var none: Registry := map[];
      assert forall d :: d !in Sorted(none.Keys);
      assert NextIndex(none) == 1;
      assert |AccountIndex(1)| == 6;
    }
    assert Sorted({digest}) == [digest] by {
      SortedIsUnique(Sorted({digest}), [digest], {digest});
    }
    ZeroClockVisit(Begin(w), digest, pass);
  }

  lemma ZeroClockVisit(p: Progress, digest: string, pass: Pass)
    requires p.next > 0 && !p.stopped && pass.world == (_ => Visit(0.0, Finishes(true), 30))
    requires digest in p.memory ==> p.memory[digest].attemptedAt == 0.0
    ensures var q := VisitAll(p, [digest], pass.world);
      && |q.launches| == |p.launches| + 1 && q.launches[..|p.launches|] == p.launches
      && q.launches[|p.launches|] == Launch(digest, Enter(p, digest).memory[digest].index, 0.0)
      && q.disk.Saved? && q.disk == SavedFile(q.disk.registry, 30)
      && digest in q.disk.registry && q.disk.registry[digest].attemptedAt == 0.0
      && q.disk.registry[digest].index == Enter(p, digest).memory[digest].index
      && (forall d | d in q.disk.registry :: d == digest || d in p.memory)
  {
    assert [digest][..0] == [];
    assert VisitAll(p, [], pass.world) == p;
  }
}
