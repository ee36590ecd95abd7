/** The receipt directory of scripts/credential_boot_receipt.py: names, creation order, sequence numbers, and writers
    that choose and link a number under a lock. */
module Receipts {
  import opened Wrappers
  import opened Decimal
  import opened Ordering
  import opened Strings

  // ---------------------------------------------------------------- names

  /** <UTC stamp>-<boot id prefix> */
  predicate IsLabel(t: string) {
    && |t| >= 24
    && AllDigits(t[..8]) && t[8] == 'T' && AllDigits(t[9..15]) && t[15] == '.' && AllDigits(t[16..22])
    && t[22] == 'Z' && t[23] == '-'
    && (t[24..] == "unknown" || (|t| == 32 && forall i | 24 <= i < 32 :: IsLowerHex(t[i])))
  }

  predicate IsStem(t: string) {
    |t| >= 5 && t[|t| - 5..] == ".json" && IsLabel(t[..|t| - 5])
  }

  /** The number of leading digits. */
  function DigitRun(s: string): (k: nat)
    ensures k <= |s| && AllDigits(s[..k]) && (k < |s| ==> !IsDigit(s[k]))
  {
    if s == [] || !IsDigit(s[0]) then 0
    else
      var k := DigitRun(s[1..]);
      assert forall i | 0 < i < k + 1 :: s[i] == s[1..][i - 1];
      1 + k
  }

  /** sequence_of */
  function SequenceOf(name: string): Option<nat> {
    var k := DigitRun(name);
    if 8 <= k < |name| && name[k] == '-' && IsStem(name[k + 1..]) then Some(Parse(name[..k])) else None
  }

  /** The number in at least eight digits, a dash, the stamp and the suffix. */
  function NameFor(number: nat, stamp: string): string {
    PadLeft(Print(number), 8) + "-" + stamp + ".json"
  }

  lemma {:induction false} DigitRunStops(digits: string, rest: string)
    requires AllDigits(digits) && rest != [] && !IsDigit(rest[0])
    ensures DigitRun(digits + rest) == |digits|
  {
    if digits == [] {
      assert digits + rest == rest;
    } else {
      assert (digits + rest)[1..] == digits[1..] + rest;
      DigitRunStops(digits[1..], rest);
    }
  }

  lemma DigitsBeforeDash(digits: string, stem: string)
    requires AllDigits(digits)
    ensures SequenceOf(digits + "-" + stem) == if |digits| >= 8 && IsStem(stem) then Some(Parse(digits)) else None
  {
    var name, rest := digits + "-" + stem, "-" + stem;
    assert name == digits + rest;
    DigitRunStops(digits, rest);
    assert name[..|digits|] == digits && name[|digits| + 1..] == stem;
  }

  /** The name is at least eight digits, a dash and a stem, and the digits say the number. */
  predicate NumbersAt(name: string, k: nat, number: nat) {
    && 8 <= k < |name| && AllDigits(name[..k]) && name[k] == '-' && IsStem(name[k + 1..])
    && Parse(name[..k]) == number
  }

  lemma NumberedNameIsRead(name: string, k: nat, number: nat)
    requires NumbersAt(name, k, number)
    ensures SequenceOf(name) == Some(number)
  {
    assert name == name[..k] + "-" + name[k + 1..];
    DigitsBeforeDash(name[..k], name[k + 1..]);
  }

  /** sequence_of reads the digits in front of the dash of a well-formed name, and nothing of any other name. */
  lemma SequenceOfReadsTheName(name: string, number: nat)
    ensures SequenceOf(name) == Some(number) <==> exists k: nat :: NumbersAt(name, k, number)
  {
    if SequenceOf(name) == Some(number) {
      assert NumbersAt(name, DigitRun(name), number);
    }
    if k: nat :| NumbersAt(name, k, number) {
      NumberedNameIsRead(name, k, number);
    }
  }

  lemma LabelMakesStem(stamp: string)
    requires IsLabel(stamp)
    ensures IsStem(stamp + ".json")
  {
    var stem := stamp + ".json";
    assert stem[..|stem| - 5] == stamp && stem[|stem| - 5..] == ".json";
  }

  /** Printing and parsing a sequence number round trip, past eight digits too. */
  lemma NumberRoundTrips(number: nat, stamp: string)
    requires IsLabel(stamp)
    ensures SequenceOf(NameFor(number, stamp)) == Some(number)
  {
    var digits, stem := PadLeft(Print(number), 8), stamp + ".json";
    LabelMakesStem(stamp);
    ParsePadded(number, 8);
    DigitsBeforeDash(digits, stem);
    assert NameFor(number, stamp) == digits + "-" + stem;
  }

  // ---------------------------------------------------------------- creation order

  /** a is not after b in creation order. */
  predicate Before(a: string, b: string) {
    match (SequenceOf(a), SequenceOf(b))
    case (None, None) => Leq(a, b)
    case (None, Some(_)) => true
    case (Some(_), None) => false
    case (Some(m), Some(n)) => m < n || (m == n && Leq(a, b))
  }

  lemma BeforeTotal(a: string, b: string)
    ensures Before(a, b) || Before(b, a)
  {
    LeqTotal(a, b);
  }

  lemma BeforeAntisymmetric(a: string, b: string)
    requires Before(a, b) && Before(b, a)
    ensures a == b
  {
    LeqAntisymmetric(a, b);
  }

  lemma BeforeTransitive(a: string, b: string, c: string)
    requires Before(a, b) && Before(b, c)
    ensures Before(a, c)
  {
    if Leq(a, b) && Leq(b, c) {
      LeqTransitive(a, b, c);
    }
  }

  predicate InOrder(s: seq<string>) {
    forall i, j | 0 <= i < j < |s| :: Before(s[i], s[j]) && s[i] != s[j]
  }

  predicate NoRepeats(s: seq<string>) {
    forall i, j | 0 <= i < j < |s| :: s[i] != s[j]
  }

  function InsertName(x: string, s: seq<string>): seq<string> {
    if s == [] then [x]
    else if Before(x, s[0]) then [x] + s
    else [s[0]] + InsertName(x, s[1..])
  }

  lemma {:induction false} InsertNameOrders(x: string, s: seq<string>)
    requires InOrder(s) && x !in s
    ensures InOrder(InsertName(x, s))
    ensures forall y :: y in InsertName(x, s) <==> y == x || y in s
  {
    if s != [] {
      if Before(x, s[0]) {
        FrontIsFirst(x, s);
      } else {
        var rest := InsertName(x, s[1..]);
        InsertNameOrders(x, s[1..]);
        HeadStaysFirst(s, x, rest);
      }
    }
  }

  lemma FrontIsFirst(x: string, s: seq<string>)
    requires InOrder(s) && x !in s && s != [] && Before(x, s[0])
    ensures InOrder([x] + s)
  {
    forall j | 0 <= j < |s| ensures Before(x, s[j]) {
      if j > 0 {
        BeforeTransitive(x, s[0], s[j]);
      }
    }
  }

  lemma HeadStaysFirst(s: seq<string>, x: string, rest: seq<string>)
    requires s != [] && InOrder(s) && x !in s && !Before(x, s[0]) && InOrder(rest)
    requires forall y :: y in rest <==> y == x || y in s[1..]
    ensures InOrder([s[0]] + rest)
  {
    forall j | 0 <= j < |rest| ensures Before(s[0], rest[j]) && s[0] != rest[j] {
      BeforeTotal(x, s[0]);
      if rest[j] != x {
        assert rest[j] in s[1..];
      }
    }
  }

  function SortNames(s: seq<string>): seq<string> {
    if s == [] then [] else InsertName(s[0], SortNames(s[1..]))
  }

  lemma {:induction false} SortNamesOrders(s: seq<string>)
    requires NoRepeats(s)
    ensures InOrder(SortNames(s))
    ensures forall y :: y in SortNames(s) <==> y in s
  {
    if s != [] {
      SortNamesOrders(s[1..]);
      InsertNameOrders(s[0], SortNames(s[1..]));
    }
  }

  /** Creation order leaves no choice: one arrangement of a set of names. */
  lemma {:induction false} OrderIsUnique(a: seq<string>, b: seq<string>)
    requires InOrder(a) && InOrder(b) && forall y :: y in a <==> y in b
    ensures a == b
  {
    assert b == [] || b[0] in b;
    if a != [] {
      assert a[0] in b;
      assert b != [] && b[0] in a;
      var i :| 0 <= i < |b| && b[i] == a[0];
      var j :| 0 <= j < |a| && a[j] == b[0];
      if i != 0 && j != 0 {
        BeforeAntisymmetric(a[0], b[0]);
      }
      assert a[0] == b[0];
      TailsHaveTheSame(a, b);
      OrderIsUnique(a[1..], b[1..]);
      assert a == [a[0]] + a[1..] && b == [b[0]] + b[1..];
    }
  }

  lemma TailsHaveTheSame(a: seq<string>, b: seq<string>)
    requires InOrder(a) && InOrder(b) && a != [] && b != [] && a[0] == b[0]
    requires forall y :: y in a <==> y in b
    ensures forall y :: y in a[1..] <==> y in b[1..]
  {
    forall y ensures y in a[1..] <==> y in b[1..] {
      assert y in a <==> y == a[0] || y in a[1..];
      assert y in b <==> y == b[0] || y in b[1..];
    }
  }

  // ---------------------------------------------------------------- the directory

  datatype Entry = Regular(text: string) | Special

  type Dir = map<string, Entry>

  predicate NamesReceipt(name: string, entry: Entry) {
    entry.Regular? && (SequenceOf(name).Some? || IsStem(name))
  }

  predicate IsReceipt(dir: Dir, name: string) {
    name in dir && NamesReceipt(name, dir[name])
  }

  function Filter(dir: Dir, listing: seq<string>): seq<string> {
    if listing == [] then []
    else (if IsReceipt(dir, listing[0]) then [listing[0]] else []) + Filter(dir, listing[1..])
  }

  lemma {:induction false} FilterKeeps(dir: Dir, listing: seq<string>)
    ensures forall y :: y in Filter(dir, listing) <==> y in listing && IsReceipt(dir, y)
    ensures NoRepeats(listing) ==> NoRepeats(Filter(dir, listing))
  {
    if listing != [] {
      FilterKeeps(dir, listing[1..]);
    }
  }

  /** receipt_names, for one order in which scandir happens to list the directory. */
  function Found(dir: Dir, listing: seq<string>): seq<string> {
    SortNames(Filter(dir, listing))
  }

  /** An order in which scandir may list the directory. */
  predicate Lists(dir: Dir, listing: seq<string>) {
    NoRepeats(listing) && (forall y | y in listing :: y in dir) && (forall y | y in dir :: y in listing)
  }

  ghost function Listing(dir: Dir): (listing: seq<string>)
    ensures Lists(dir, listing)
  {
    assert Lists(dir, Sorted(dir.Keys));
    var listing :| Lists(dir, listing);
    listing
  }

  ghost function ReceiptNames(dir: Dir): seq<string> {
    Found(dir, Listing(dir))
  }

  lemma FoundAreReceipts(dir: Dir, listing: seq<string>)
    requires Lists(dir, listing)
    ensures InOrder(Found(dir, listing))
    ensures forall y :: y in Found(dir, listing) <==> IsReceipt(dir, y)
  {
    FilterKeeps(dir, listing);
    SortNamesOrders(Filter(dir, listing));
  }

  lemma NamesAreReceipts(dir: Dir)
    ensures InOrder(ReceiptNames(dir))
    ensures forall y :: y in ReceiptNames(dir) <==> IsReceipt(dir, y)
  {
    FoundAreReceipts(dir, Listing(dir));
  }

  /** The order in which the directory is listed does not matter. */
  lemma AnyListing(dir: Dir, listing: seq<string>)
    requires Lists(dir, listing)
    ensures Found(dir, listing) == ReceiptNames(dir)
  {
    FoundAreReceipts(dir, listing);
    NamesAreReceipts(dir);
    OrderIsUnique(Found(dir, listing), ReceiptNames(dir));
  }

  function Highest(names: seq<string>): nat {
    if names == [] then 0
    else
      var rest := Highest(names[..|names| - 1]);
      var last := SequenceOf(names[|names| - 1]).GetOr(0);
      if rest < last then last else rest
  }

  ghost function NextSequence(dir: Dir): nat {
    1 + Highest(ReceiptNames(dir))
  }

  ghost predicate AboveAll(dir: Dir, number: nat) {
    forall name | IsReceipt(dir, name) && SequenceOf(name).Some? :: SequenceOf(name).value < number
  }

  lemma {:induction false} HighestBounds(names: seq<string>, name: string)
    requires name in names
    ensures SequenceOf(name).GetOr(0) <= Highest(names)
  {
    if name != names[|names| - 1] {
      HighestBounds(names[..|names| - 1], name);
    }
  }

  lemma {:induction false} HighestIsHeld(names: seq<string>)
    requires Highest(names) > 0
    ensures exists name | name in names :: SequenceOf(name) == Some(Highest(names))
  {
    var init := names[..|names| - 1];
    if Highest(names) == Highest(init) {
      HighestIsHeld(init);
    } else {
      assert names[|names| - 1] in names;
    }
  }

  /** The next number is the least above every receipt in the directory. */
  lemma NextIsTheLeastAbove(dir: Dir, number: nat)
    ensures AboveAll(dir, NextSequence(dir))
    ensures 0 < number < NextSequence(dir) ==> !AboveAll(dir, number)
  {
    NamesAreReceipts(dir);
    forall name | IsReceipt(dir, name) && SequenceOf(name).Some?
      ensures SequenceOf(name).value < NextSequence(dir)
    {
      HighestBounds(ReceiptNames(dir), name);
    }
    if 0 < number < NextSequence(dir) {
      HighestIsHeld(ReceiptNames(dir));
    }
  }

  /** A new receipt numbered above every other goes to the end of the creation order, whatever its stamp says. */
  lemma NewestGoesLast(dir: Dir, name: string, text: string)
    requires name !in dir && SequenceOf(name).Some? && AboveAll(dir, SequenceOf(name).value)
    ensures ReceiptNames(dir[name := Regular(text)]) == ReceiptNames(dir) + [name]
  {
    var more := ReceiptNames(dir) + [name];
    NamesAreReceipts(dir);
    NamesAreReceipts(dir[name := Regular(text)]);
    assert InOrder(more);
    OrderIsUnique(ReceiptNames(dir[name := Regular(text)]), more);
  }

  lemma OthersChangeNoReceipts(dir: Dir, changed: Dir)
    requires forall name :: IsReceipt(dir, name) <==> IsReceipt(changed, name)
    ensures ReceiptNames(changed) == ReceiptNames(dir)
  {
    NamesAreReceipts(dir);
    NamesAreReceipts(changed);
    OrderIsUnique(ReceiptNames(changed), ReceiptNames(dir));
  }

  // ---------------------------------------------------------------- one writer

  const LINK_ATTEMPTS: nat := 16

  datatype WriteError = NoFreeNumber

  /** What processes outside the lock link: never over an existing name. */
  function AddAll(dir: Dir, others: seq<(string, Entry)>): Dir {
    if others == [] then dir
    else
      var before := AddAll(dir, others[..|others| - 1]);
      var (name, entry) := others[|others| - 1];
      if name in before then before else before[name := entry]
  }

  function At(others: seq<seq<(string, Entry)>>, k: nat): seq<(string, Entry)> {
    if k < |others| then others[k] else []
  }

  /** What the others have made of the directory after k attempts that linked nothing; others[k] is linked between
      the k-th listing and its link. */
  function DirAt(dir: Dir, others: seq<seq<(string, Entry)>>, k: nat): Dir {
    if k == 0 then dir else AddAll(DirAt(dir, others, k - 1), At(others, k - 1))
  }

  ghost function PathAt(dir: Dir, stamp: string, others: seq<seq<(string, Entry)>>, k: nat): string {
    NameFor(NextSequence(DirAt(dir, others, k)), stamp)
  }

  ghost predicate TakenAt(dir: Dir, stamp: string, others: seq<seq<(string, Entry)>>, k: nat) {
    PathAt(dir, stamp, others, k) in DirAt(dir, others, k + 1)
  }

  /** The first k attempts find their names taken. */
  ghost predicate AllTaken(dir: Dir, stamp: string, others: seq<seq<(string, Entry)>>, k: nat) {
    forall j | 0 <= j < k :: TakenAt(dir, stamp, others, j)
  }

  /** write_receipt links the name of the first attempt that finds it free, and is refused when all its attempts find it
      taken. */
  ghost predicate Wrote(dir: Dir, text: string, stamp: string, others: seq<seq<(string, Entry)>>, after: Dir,
                        attempts: nat, r: Result<string, WriteError>) {
    match r
    case Success(path) => exists k: nat :: k < attempts && WroteAt(dir, text, stamp, others, after, path, k)
    case Failure(_) => AllTaken(dir, stamp, others, attempts) && after == DirAt(dir, others, attempts)
  }

  ghost predicate WroteAt(dir: Dir, text: string, stamp: string, others: seq<seq<(string, Entry)>>, after: Dir,
                    path: string, k: nat) {
    && AllTaken(dir, stamp, others, k)
    && !TakenAt(dir, stamp, others, k)
    && path == PathAt(dir, stamp, others, k)
    && after == DirAt(dir, others, k + 1)[path := Regular(text)]
  }

  /** k attempts have been made and none has linked anything. */
  ghost predicate Tried(first: Dir, stamp: string, others: seq<seq<(string, Entry)>>, now: Dir, k: nat) {
    AllTaken(first, stamp, others, k) && now == DirAt(first, others, k)
  }

  lemma NoneTried(first: Dir, stamp: string, others: seq<seq<(string, Entry)>>)
    ensures Tried(first, stamp, others, first, 0)
  {
  }

  lemma TriedOut(first: Dir, text: string, stamp: string, others: seq<seq<(string, Entry)>>, now: Dir, attempts: nat)
    requires Tried(first, stamp, others, now, attempts)
    ensures Wrote(first, text, stamp, others, now, attempts, Failure(NoFreeNumber))
  {
  }

  lemma WroteOnAttempt(first: Dir, text: string, stamp: string, others: seq<seq<(string, Entry)>>, after: Dir,
                       attempts: nat, path: string, k: nat)
    requires k < attempts && WroteAt(first, text, stamp, others, after, path, k)
    ensures Wrote(first, text, stamp, others, after, attempts, Success(path))
  {
  }

  lemma DirAfter(first: Dir, others: seq<seq<(string, Entry)>>, k: nat)
    ensures DirAt(first, others, k + 1) == AddAll(DirAt(first, others, k), At(others, k))
  {
  }

  lemma OneMoreTaken(first: Dir, stamp: string, others: seq<seq<(string, Entry)>>, k: nat)
    requires AllTaken(first, stamp, others, k) && TakenAt(first, stamp, others, k)
    ensures AllTaken(first, stamp, others, k + 1)
  {
  }

  lemma OneAttempt(first: Dir, text: string, stamp: string, others: seq<seq<(string, Entry)>>, k: nat, now: Dir,
                   path: string, after: Dir)
    requires Tried(first, stamp, others, now, k)
    requires path == NameFor(NextSequence(now), stamp)
    requires after == AddAll(now, At(others, k))
    ensures path in after ==> Tried(first, stamp, others, after, k + 1)
    ensures path !in after ==> WroteAt(first, text, stamp, others, after[path := Regular(text)], path, k)
  {
    DirAfter(first, others, k);
    if path in after {
      OneMoreTaken(first, stamp, others, k);
    }
  }

  class Directory {
    var entries: Dir

    constructor (entries: Dir)
      ensures this.entries == entries
    {
      this.entries := entries;
    }

    /** os.link: refused when the name is taken. */
    method Link(name: string, entry: Entry) returns (linked: bool)
      modifies this
      ensures linked <==> name !in old(entries)
      ensures entries == if linked then old(entries)[name := entry] else old(entries)
    {
      linked := name !in entries;
      if linked {
        entries := entries[name := entry];
      }
    }

    /** next_sequence, whatever order the directory is listed in. */
    method NextNumber() returns (number: nat)
      ensures number == NextSequence(entries)
    {
      var listing := SortedList(entries.Keys);
      AnyListing(entries, listing);
      number := 1 + Highest(Found(entries, listing));
    }

    method OthersLink(others: seq<(string, Entry)>)
      modifies this
      ensures entries == AddAll(old(entries), others)
    {
      for i := 0 to |others|
        invariant entries == AddAll(old(entries), others[..i])
      {
        assert others[..i + 1][..i] == others[..i];
        var linked := Link(others[i].0, others[i].1);
      }
      assert others[..|others|] == others;
    }

    /** One turn of the loop: list, let the others link, link. */
    method Attempt(text: string, stamp: string, others: seq<seq<(string, Entry)>>, ghost first: Dir, k: nat)
      returns (path: string, linked: bool)
      requires Tried(first, stamp, others, entries, k)
      modifies this
      ensures linked ==> WroteAt(first, text, stamp, others, entries, path, k)
      ensures !linked ==> Tried(first, stamp, others, entries, k + 1)
    {
      ghost var now := entries;
      var number := NextNumber();
      path := NameFor(number, stamp);
      OthersLink(At(others, k));
      OneAttempt(first, text, stamp, others, k, now, path, entries);
      linked := Link(path, Regular(text));
    }

    /** The retry loop; k is how many attempts found their name taken. */
    method LinkRetrying(text: string, stamp: string, others: seq<seq<(string, Entry)>>, attempts: nat)
      returns (r: Result<string, WriteError>, k: nat)
      modifies this
      ensures r.Success? ==> k < attempts && WroteAt(old(entries), text, stamp, others, entries, r.value, k)
      ensures r.Failure? ==> k == attempts && Tried(old(entries), stamp, others, entries, k)
    {
      ghost var first := entries;
      NoneTried(first, stamp, others);
      k := 0;
      while k < attempts
        invariant k <= attempts && Tried(first, stamp, others, entries, k)
      {
        var path, linked := Attempt(text, stamp, others, first, k);
        if linked {
          return Success(path), k;
        }
        k := k + 1;
      }
      r := Failure(NoFreeNumber);
    }

    method WriteReceipt(text: string, stamp: string, others: seq<seq<(string, Entry)>>)
      returns (r: Result<string, WriteError>)
      modifies this
      ensures Wrote(old(entries), text, stamp, others, entries, LINK_ATTEMPTS, r)
    {
      var k;
      ghost var first, attempts := entries, LINK_ATTEMPTS;
      r, k := LinkRetrying(text, stamp, others, LINK_ATTEMPTS);
      if r.Success? {
        WroteOnAttempt(first, text, stamp, others, entries, attempts, r.value, k);
      } else {
        TriedOut(first, text, stamp, others, entries, attempts);
      }
    }
  }

  lemma {:induction false} AddingKeeps(dir: Dir, others: seq<(string, Entry)>)
    ensures forall name | name in dir :: name in AddAll(dir, others) && AddAll(dir, others)[name] == dir[name]
  {
    if others != [] {
      AddingKeeps(dir, others[..|others| - 1]);
    }
  }

  lemma {:induction false} NothingLeaves(dir: Dir, others: seq<seq<(string, Entry)>>, k: nat)
    ensures forall name | name in dir :: name in DirAt(dir, others, k) && DirAt(dir, others, k)[name] == dir[name]
  {
    if k > 0 {
      NothingLeaves(dir, others, k - 1);
      AddingKeeps(DirAt(dir, others, k - 1), At(others, k - 1));
    }
  }

  lemma LinkedAt(dir: Dir, text: string, stamp: string, others: seq<seq<(string, Entry)>>, after: Dir, path: string,
                 k: nat)
    requires WroteAt(dir, text, stamp, others, after, path, k)
    ensures forall name | name in dir :: name in after && after[name] == dir[name]
    ensures path !in dir && path in after && after[path] == Regular(text)
  {
    NothingLeaves(dir, others, k + 1);
  }

  lemma LinkedNumber(dir: Dir, stamp: string, others: seq<seq<(string, Entry)>>, k: nat) returns (number: nat)
    requires IsLabel(stamp)
    ensures SequenceOf(PathAt(dir, stamp, others, k)) == Some(number) && AboveAll(dir, number)
  {
    NothingLeaves(dir, others, k);
    NumberIsAbove(dir, DirAt(dir, others, k), stamp);
    number := NextSequence(DirAt(dir, others, k));
  }

  /** Whatever others do meanwhile: no entry is replaced, and a returned receipt is new, holds its text and is numbered
      above every receipt that was there. */
  lemma WritingReplacesNothing(dir: Dir, text: string, stamp: string, others: seq<seq<(string, Entry)>>, after: Dir,
                               attempts: nat, r: Result<string, WriteError>)
    requires Wrote(dir, text, stamp, others, after, attempts, r) && IsLabel(stamp)
    ensures forall name | name in dir :: name in after && after[name] == dir[name]
    ensures r.Success? ==> r.value !in dir && r.value in after && after[r.value] == Regular(text)
    ensures r.Success? ==> exists n: nat :: SequenceOf(r.value) == Some(n) && AboveAll(dir, n)
  {
    if r.Success? {
      var k: nat :| k < attempts && WroteAt(dir, text, stamp, others, after, r.value, k);
      LinkedAt(dir, text, stamp, others, after, r.value, k);
      var number := LinkedNumber(dir, stamp, others, k);
    } else {
      NothingLeaves(dir, others, attempts);
    }
  }

  lemma NumberIsAbove(dir: Dir, listed: Dir, stamp: string)
    requires IsLabel(stamp) && forall name | name in dir :: name in listed && listed[name] == dir[name]
    ensures SequenceOf(NameFor(NextSequence(listed), stamp)) == Some(NextSequence(listed))
    ensures AboveAll(dir, NextSequence(listed))
  {
    NumberRoundTrips(NextSequence(listed), stamp);
    NextIsTheLeastAbove(listed, 0);
    forall name | IsReceipt(dir, name) && SequenceOf(name).Some?
      ensures SequenceOf(name).value < NextSequence(listed)
    {
      assert IsReceipt(listed, name);
    }
  }

  lemma {:induction false} AloneNothingChanges(dir: Dir, k: nat)
    ensures DirAt(dir, [], k) == dir
  {
    if k > 0 {
      AloneNothingChanges(dir, k - 1);
    }
  }

  /** Left alone, a writer links the least number above every receipt, at the end of the creation order, unless
      something that is no regular file holds that very name: a listing does not see it, so every attempt meets it,
      and the writer is refused with the directory as it was. */
  lemma AloneWritesUnlessBlocked(dir: Dir, text: string, stamp: string, after: Dir, attempts: nat,
                                  r: Result<string, WriteError>)
    requires IsLabel(stamp) && attempts > 0 && Wrote(dir, text, stamp, [], after, attempts, r)
    ensures var path := NameFor(NextSequence(dir), stamp);
      && (r.Success? <==> path !in dir)
      && (r.Success? ==> r.value == path && ReceiptNames(after) == ReceiptNames(dir) + [path])
      && (r.Failure? ==> after == dir && dir[path] == Special)
  {
    var path := NameFor(NextSequence(dir), stamp);
    NumberIsAbove(dir, dir, stamp);
    if r.Success? {
      var k: nat :| k < attempts && WroteAt(dir, text, stamp, [], after, r.value, k);
      AloneNothingChanges(dir, k);
      AloneNothingChanges(dir, k + 1);
      NewestGoesLast(dir, path, text);
    } else {
      assert TakenAt(dir, stamp, [], 0);
      AloneNothingChanges(dir, 0);
      AloneNothingChanges(dir, 1);
      AloneNothingChanges(dir, attempts);
      assert IsReceipt(dir, path) <==> dir[path].Regular?;
    }
  }
}
