/** select_range of scripts/ci_secret_scan_range.py over a commit graph. */
module ScanRange {
  import opened Wrappers
  import opened Json
  import opened Strings

  // ---------------------------------------------------------------- git

  /** Tag(peels): an annotated tag and the commit it leads to, if it leads to one. */
  datatype Object = Commit(parents: seq<string>) | Tag(peels: Option<string>) | Blob

  type Objects = map<string, Object>

  predicate IsCommit(objects: Objects, name: string) {
    name in objects && objects[name].Commit?
  }

  /** to is n parent links away from the commit named from. */
  ghost predicate Reaches(objects: Objects, from: string, to: string, n: nat)
    decreases n
  {
    IsCommit(objects, from) &&
    if n == 0 then from == to
    else exists i :: 0 <= i < |objects[from].parents| && Reaches(objects, objects[from].parents[i], to, n - 1)
  }

  /** git merge-base --is-ancestor: every commit is its own ancestor. */
  ghost predicate Ancestor(objects: Objects, start: string, end: string) {
    exists n: nat :: Reaches(objects, end, start, n)
  }

  /** A working copy; mergeBase is what git merge-base prints for two commits, if anything. */
  datatype Checkout = Checkout(objects: Objects, head: Option<string>, mergeBase: (string, string) -> Option<string>)

  /** git rev-parse --verify <name>^{commit} */
  function Resolve(objects: Objects, name: string): Option<string> {
    if name !in objects then None
    else match objects[name]
      case Commit(_) => Some(name)
      case Tag(peels) => peels
      case Blob => None
  }

  // ---------------------------------------------------------------- commit names

  predicate IsSha(s: string) {
    |s| == 40 && forall i | 0 <= i < |s| :: IsHex(s[i])
  }

  predicate AllZeros(s: string) {
    forall i | 0 <= i < |s| :: s[i] == '0'
  }

  // ---------------------------------------------------------------- select_range

  datatype RangeError =
    | NoHead | BadField | UnresolvedField | MissingPayload | NotTheMergeCheckout | UnrelatedLines | NoMergeBase
    | AfterIsNotHead | NewRef | BoundaryUnavailable | BoundaryNotACommit | RewrittenHistory | BackstopNotAuthorized
    | UnsupportedEvent | StartNotAncestor | EmptyRange | EmptySelection

  datatype Reason = HeadMergeBase | MergeFirstParent | PushBefore | DispatchFullHistory | ScheduleFullHistory

  datatype Scan =
    | Range(start: string, end: string, reason: Reason)   // --diff-merges=first-parent start..end
    | Full(end: string, reason: Reason)                   // --diff-merges=first-parent HEAD

  /** The commits git log visits for the emitted options. */
  ghost predicate Scans(objects: Objects, scan: Scan, c: string) {
    match scan
    case Range(start, end, _) => Ancestor(objects, c, end) && !Ancestor(objects, c, start)
    case Full(end, _) => Ancestor(objects, c, end)
  }

  /** event_commit */
  function EventCommit(objects: Objects, value: Json): Result<string, RangeError> {
    if !value.Str? || !IsSha(value.str) || AllZeros(value.str) then Failure(BadField)
    else if Resolve(objects, Lower(value.str)) != Some(Lower(value.str)) then Failure(UnresolvedField)
    else Success(Lower(value.str))
  }

  /** The commit name of one side; a side that is neither empty nor an object raises, and is refused as well. */
  function ShaOf(pr: Fields, side: string): Json {
    match Get(pr, side)
    case Obj(fields) => Get(fields, "sha")
    case _ => Null
  }

  ghost function PullRequestStart(git: Checkout, head: string, event: Fields): Result<(string, Reason), RangeError> {
    match Get(event, "pull_request")
    case Obj(pr) =>
      (match (EventCommit(git.objects, ShaOf(pr, "base")), EventCommit(git.objects, ShaOf(pr, "head")))
       case (Failure(e), _) => Failure(e)
       case (_, Failure(e)) => Failure(e)
       case (Success(base), Success(prHead)) =>
         if head == prHead then
           (match git.mergeBase(base, head)
            case Some(start) => Success((start, HeadMergeBase))
            case None => Failure(NoMergeBase))
         else MergeCheckoutStart(git.objects, head, base, prHead))
    case _ => Failure(MissingPayload)
  }

  ghost function MergeCheckoutStart(objects: Objects, head: string, base: string, prHead: string)
    : Result<(string, Reason), RangeError>
  {
    if !IsCommit(objects, head) then Failure(NotTheMergeCheckout)
    else
      var parents := objects[head].parents;
      if |parents| != 2 || parents[1] != prHead then Failure(NotTheMergeCheckout)
      else if !(Ancestor(objects, base, parents[0]) || Ancestor(objects, parents[0], base)) then Failure(UnrelatedLines)
      else Success((parents[0], MergeFirstParent))
  }

  ghost function PushStart(objects: Objects, head: string, event: Fields): Result<(string, Reason), RangeError> {
    match EventCommit(objects, Get(event, "after"))
    case Failure(e) => Failure(e)
    case Success(after) =>
      var before := Get(event, "before");
      if after != head then Failure(AfterIsNotHead)
      else if !before.Str? || !IsSha(before.str) then Failure(BadField)
      else if AllZeros(before.str) then Failure(NewRef)
      else if Lower(before.str) !in objects then Failure(BoundaryUnavailable)
      else if !objects[Lower(before.str)].Commit? then Failure(BoundaryNotACommit)
      else if !Ancestor(objects, Lower(before.str), head) then Failure(RewrittenHistory)
      else Success((Lower(before.str), PushBefore))
  }

  /** The checks every emitted range passes. */
  ghost function Emit(objects: Objects, scan: Scan): Result<Scan, RangeError> {
    if scan.Range? && !(IsSha(scan.start) && Ancestor(objects, scan.start, scan.end)) then Failure(StartNotAncestor)
    else if scan.Range? && scan.start == scan.end then Failure(EmptyRange)
    else if forall c :: !Scans(objects, scan, c) then Failure(EmptySelection)
    else Success(scan)
  }

  ghost function SelectRange(git: Checkout, eventName: string, event: Fields, ciBackstop: bool, githubActions: bool)
    : Result<Scan, RangeError>
  {
    if git.head.None? || !IsSha(git.head.value) then Failure(NoHead)
    else
      var head := git.head.value;
      if eventName == "pull_request" then
        match PullRequestStart(git, head, event)
        case Failure(e) => Failure(e)
        case Success((start, reason)) => Emit(git.objects, Range(start, head, reason))
      else if eventName == "push" then
        match PushStart(git.objects, head, event)
        case Failure(e) => Failure(e)
        case Success((start, reason)) => Emit(git.objects, Range(start, head, reason))
      else if eventName == "workflow_dispatch" || eventName == "schedule" then
        if !ciBackstop || !githubActions then Failure(BackstopNotAuthorized)
        else Emit(git.objects, Full(head, if eventName == "schedule" then ScheduleFullHistory else DispatchFullHistory))
      else Failure(UnsupportedEvent)
  }

  // ---------------------------------------------------------------- ancestry

  /** Every parent of a commit is a commit of the graph. */
  ghost predicate Closed(objects: Objects) {
    forall c, i | IsCommit(objects, c) && 0 <= i < |objects[c].parents| :: IsCommit(objects, objects[c].parents[i])
  }

  /** No commit is its own proper ancestor: an age that falls along every parent link shows it. */
  ghost predicate Acyclic(objects: Objects, age: string -> nat) {
    forall c, i | IsCommit(objects, c) && 0 <= i < |objects[c].parents| :: age(objects[c].parents[i]) < age(c)
  }

  lemma {:induction false} ReachesOn(objects: Objects, c: string, b: string, a: string, m: nat, n: nat)
    requires Reaches(objects, c, b, m) && Reaches(objects, b, a, n)
    ensures Reaches(objects, c, a, m + n)
    decreases m
  {
    if m > 0 {
      var i :| 0 <= i < |objects[c].parents| && Reaches(objects, objects[c].parents[i], b, m - 1);
      ReachesOn(objects, objects[c].parents[i], b, a, m - 1, n);
    }
  }

  lemma AncestorTransitive(objects: Objects, a: string, b: string, c: string)
    requires Ancestor(objects, a, b) && Ancestor(objects, b, c)
    ensures Ancestor(objects, a, c)
  {
    var n: nat :| Reaches(objects, b, a, n);
    var m: nat :| Reaches(objects, c, b, m);
    ReachesOn(objects, c, b, a, m, n);
  }

  lemma SelfAncestor(objects: Objects, c: string)
    requires IsCommit(objects, c)
    ensures Ancestor(objects, c, c)
  {
    assert Reaches(objects, c, c, 0);
  }

  lemma {:induction false} ReachingAges(objects: Objects, age: string -> nat, from: string, to: string, n: nat)
    requires Acyclic(objects, age) && Reaches(objects, from, to, n)
    ensures age(to) + n <= age(from)
    decreases n
  {
    if n > 0 {
      var i :| 0 <= i < |objects[from].parents| && Reaches(objects, objects[from].parents[i], to, n - 1);
      ReachingAges(objects, age, objects[from].parents[i], to, n - 1);
    }
  }

  /** Ancestry both ways is equality. */
  lemma AncestorAntisymmetric(objects: Objects, age: string -> nat, a: string, b: string)
    requires Acyclic(objects, age) && Ancestor(objects, a, b) && Ancestor(objects, b, a)
    ensures a == b
  {
    var n: nat :| Reaches(objects, b, a, n);
    var m: nat :| Reaches(objects, a, b, m);
    ReachingAges(objects, age, b, a, n);
    ReachingAges(objects, age, a, b, m);
  }

  /** The ancestors of a commit are itself and its parents' ancestors. */
  lemma AncestorsOfCommit(objects: Objects, c: string, head: string)
    requires IsCommit(objects, head)
    ensures Ancestor(objects, c, head) <==>
      c == head || exists i :: 0 <= i < |objects[head].parents| && Ancestor(objects, c, objects[head].parents[i])
  {
    if Ancestor(objects, c, head) {
      var n: nat :| Reaches(objects, head, c, n);
      if n > 0 {
        var i :| 0 <= i < |objects[head].parents| && Reaches(objects, objects[head].parents[i], c, n - 1);
        assert Ancestor(objects, c, objects[head].parents[i]);
      }
    }
    if c == head {
      SelfAncestor(objects, head);
    }
    forall i | 0 <= i < |objects[head].parents| && Ancestor(objects, c, objects[head].parents[i])
      ensures Ancestor(objects, c, head)
    {
      var n: nat :| Reaches(objects, objects[head].parents[i], c, n);
      assert Reaches(objects, head, c, n + 1);
    }
  }

  lemma {:induction false} ReachesInBoth(objects: Objects, more: Objects, from: string, to: string, n: nat)
    requires Closed(objects) && (forall c | c in objects :: c in more && more[c] == objects[c])
    requires IsCommit(objects, from)
    ensures Reaches(objects, from, to, n) <==> Reaches(more, from, to, n)
    decreases n
  {
    if n > 0 {
      forall i | 0 <= i < |objects[from].parents|
        ensures Reaches(objects, objects[from].parents[i], to, n - 1)
           <==> Reaches(more, objects[from].parents[i], to, n - 1)
      {
        ReachesInBoth(objects, more, objects[from].parents[i], to, n - 1);
      }
    }
  }

  /** Fetching more objects changes no ancestry. */
  lemma AncestryIsStable(objects: Objects, more: Objects, a: string, b: string)
    requires Closed(objects) && (forall c | c in objects :: c in more && more[c] == objects[c])
    requires IsCommit(objects, b)
    ensures Ancestor(objects, a, b) <==> Ancestor(more, a, b)
  {
    forall n: nat ensures Reaches(objects, b, a, n) <==> Reaches(more, b, a, n) {
      ReachesInBoth(objects, more, b, a, n);
    }
  }

  // ---------------------------------------------------------------- every accepted scan

  /** Whatever the event, an accepted scan ends at the checked-out commit and visits it; a range starts at another
      commit, an ancestor of it. */
  lemma AcceptedScanVisitsHead(git: Checkout, name: string, event: Fields, ci: bool, actions: bool, age: string -> nat)
    requires SelectRange(git, name, event, ci, actions).Success? && Acyclic(git.objects, age)
    ensures var scan := SelectRange(git, name, event, ci, actions).value;
      && git.head == Some(scan.end) && Scans(git.objects, scan, scan.end)
      && (scan.Range? ==> scan.start != scan.end && Ancestor(git.objects, scan.start, scan.end))
  {
    var scan := SelectRange(git, name, event, ci, actions).value;
    var c :| Scans(git.objects, scan, c);
    var n: nat :| Reaches(git.objects, scan.end, c, n);
    SelfAncestor(git.objects, scan.end);
    if scan.Range? && Ancestor(git.objects, scan.end, scan.start) {
      AncestorAntisymmetric(git.objects, age, scan.start, scan.end);
    }
  }

  /** Only a dispatched or scheduled run with both authorizations scans the whole ancestry of HEAD, and it then misses
      no commit of it. */
  lemma FullScanExactlyWhenAuthorized(git: Checkout, name: string, event: Fields, ci: bool, actions: bool)
    requires git.head.Some? && IsSha(git.head.value) && IsCommit(git.objects, git.head.value)
    ensures var r := SelectRange(git, name, event, ci, actions);
      && ((r.Success? && r.value.Full?) <==> name in {"workflow_dispatch", "schedule"} && ci && actions)
      && (r.Success? && r.value.Full? ==>
            forall c :: Scans(git.objects, r.value, c) <==> Ancestor(git.objects, c, git.head.value))
  {
    SelfAncestor(git.objects, git.head.value);
    var reason := if name == "schedule" then ScheduleFullHistory else DispatchFullHistory;
    assert Scans(git.objects, Full(git.head.value, reason), git.head.value);
  }

  // ---------------------------------------------------------------- pushes

  datatype Push = Push(git: Checkout, event: Fields, scan: Scan)

  /** A chain of accepted pushes to one branch: each was scanned, each starts where the one before it ended, and the
      repository only gains objects. */
  ghost predicate Chain(pushes: seq<Push>, all: Objects) {
    && (forall i | 0 <= i < |pushes| :: AcceptedPush(pushes[i], all))
    && (forall i | 0 < i < |pushes| :: Get(pushes[i].event, "before") == Get(pushes[i - 1].event, "after"))
  }

  ghost predicate AcceptedPush(push: Push, all: Objects) {
    && SelectRange(push.git, "push", push.event, false, true) == Success(push.scan)
    && Closed(push.git.objects)
    && forall c | c in push.git.objects :: c in all && all[c] == push.git.objects[c]
  }

  /** The push scanned c. */
  ghost predicate Covers(push: Push, c: string) {
    Scans(push.git.objects, push.scan, c)
  }

  /** What an accepted push scans, said in the whole graph. */
  lemma PushCovers(push: Push, all: Objects, c: string)
    requires AcceptedPush(push, all)
    ensures push.scan.Range? && Ancestor(all, push.scan.start, push.scan.end)
    ensures Covers(push, c) <==> Ancestor(all, c, push.scan.end) && !Ancestor(all, c, push.scan.start)
  {
    AncestryIsStable(push.git.objects, all, c, push.scan.end);
    AncestryIsStable(push.git.objects, all, c, push.scan.start);
    AncestryIsStable(push.git.objects, all, push.scan.start, push.scan.end);
  }

  lemma ChainLinks(pushes: seq<Push>, all: Objects, i: nat)
    requires Chain(pushes, all) && 0 < i < |pushes|
    ensures pushes[i - 1].scan.Range? && pushes[i].scan.Range? && pushes[i].scan.start == pushes[i - 1].scan.end
  {
    assert AcceptedPush(pushes[i], all) && AcceptedPush(pushes[i - 1], all);
  }

  /** Over any chain of accepted pushes, the scans together visit exactly the commits reachable from the last head and
      not from the first boundary. */
  lemma {:induction false} ChainCoverage(pushes: seq<Push>, all: Objects, c: string)
    requires Chain(pushes, all) && pushes != []
    ensures pushes[0].scan.Range? && pushes[|pushes| - 1].scan.Range?
    ensures Ancestor(all, pushes[0].scan.start, pushes[|pushes| - 1].scan.end)
    ensures Covered(pushes, c)
      <==> Ancestor(all, c, pushes[|pushes| - 1].scan.end) && !Ancestor(all, c, pushes[0].scan.start)
  {
    var n := |pushes| - 1;
    assert AcceptedPush(pushes[n], all);
    PushCovers(pushes[n], all, c);
    if n > 0 {
      var init := pushes[..n];
      ChainCoverage(init, all, c);
      ChainLinks(pushes, all, n);
      AncestorTransitive(all, pushes[0].scan.start, init[n - 1].scan.end, pushes[n].scan.end);
      if Ancestor(all, c, init[n - 1].scan.end) {
        AncestorTransitive(all, c, init[n - 1].scan.end, pushes[n].scan.end);
      }
      if Ancestor(all, c, pushes[0].scan.start) {
        AncestorTransitive(all, c, pushes[0].scan.start, init[n - 1].scan.end);
      }
    }
    CoveredSnoc(pushes, c);
  }

  ghost predicate Covered(pushes: seq<Push>, c: string) {
    exists i :: 0 <= i < |pushes| && Covers(pushes[i], c)
  }

  lemma CoveredSnoc(pushes: seq<Push>, c: string)
    requires pushes != []
    ensures Covered(pushes, c) <==> Covered(pushes[..|pushes| - 1], c) || Covers(pushes[|pushes| - 1], c)
  {
    var init := pushes[..|pushes| - 1];
    assert forall i | 0 <= i < |init| :: init[i] == pushes[i];
  }

  /** No commit is scanned by two pushes of one chain. */
  lemma ChainScansOnce(pushes: seq<Push>, all: Objects, c: string, i: nat, j: nat)
    requires Chain(pushes, all) && i < j < |pushes|
    ensures !(Covers(pushes[i], c) && Covers(pushes[j], c))
  {
    assert AcceptedPush(pushes[i], all) && AcceptedPush(pushes[j], all);
    PushCovers(pushes[i], all, c);
    PushCovers(pushes[j], all, c);
    if Ancestor(all, c, pushes[i].scan.end) {
      HeadsGrow(pushes, all, i, j);
      AncestorTransitive(all, c, pushes[i].scan.end, pushes[j].scan.start);
    }
  }

  /** What the two lemmas below need of a push and the one after it. */
  ghost predicate Joined(first: Scan, second: Scan, all: Objects) {
    && first.Range? && second.Range?
    && Ancestor(all, first.end, second.start) && Ancestor(all, second.start, second.end)
  }

  lemma ChainIsJoined(pushes: seq<Push>, all: Objects, i: nat)
    requires Chain(pushes, all) && i + 1 < |pushes|
    ensures Joined(pushes[i].scan, pushes[i + 1].scan, all)
  {
    ChainLinks(pushes, all, i + 1);
    assert AcceptedPush(pushes[i], all) && AcceptedPush(pushes[i + 1], all);
    SelfAncestor(all, pushes[i].scan.end);
    PushCovers(pushes[i + 1], all, "");
  }

  lemma {:induction false} JoinedScansGrow(scans: seq<Scan>, all: Objects, i: nat, j: nat)
    requires i < j < |scans| && forall k | 0 <= k < |scans| - 1 :: Joined(scans[k], scans[k + 1], all)
    ensures scans[i].Range? && scans[j].Range? && Ancestor(all, scans[i].end, scans[j].start)
  {
    assert Joined(scans[j - 1], scans[j - 1 + 1], all);
    if i < j - 1 {
      JoinedScansGrow(scans, all, i, j - 1);
      assert Joined(scans[j - 2], scans[j - 2 + 1], all);
      AncestorTransitive(all, scans[i].end, scans[j - 1].start, scans[j - 1].end);
      AncestorTransitive(all, scans[i].end, scans[j - 1].end, scans[j].start);
    }
  }

  lemma HeadsGrow(pushes: seq<Push>, all: Objects, i: nat, j: nat)
    requires Chain(pushes, all) && i < j < |pushes|
    ensures pushes[i].scan.Range? && pushes[j].scan.Range?
    ensures Ancestor(all, pushes[i].scan.end, pushes[j].scan.start)
  {
    var scans := seq(|pushes|, k requires 0 <= k < |pushes| => pushes[k].scan);
    forall k | 0 <= k < |scans| - 1 ensures Joined(scans[k], scans[k + 1], all) {
      ChainIsJoined(pushes, all, k);
    }
    JoinedScansGrow(scans, all, i, j);
  }

  // ---------------------------------------------------------------- pull requests

  /** git merge-base: a common ancestor no other common ancestor descends from; none only when there is none. */
  ghost predicate FindsMergeBases(git: Checkout) {
    forall a, b :: match git.mergeBase(a, b)
      case Some(m) => BestCommon(git.objects, m, a, b)
      case None => forall d :: !Common(git.objects, d, a, b)
  }

  ghost predicate AcceptedPull(git: Checkout, event: Fields, pr: Fields, scan: Scan) {
    && Get(event, "pull_request") == Obj(pr)
    && SelectRange(git, "pull_request", event, false, true) == Success(scan)
  }

  ghost predicate Common(objects: Objects, c: string, a: string, b: string) {
    Ancestor(objects, c, a) && Ancestor(objects, c, b)
  }

  /** A common ancestor that no other common ancestor descends from. */
  ghost predicate BestCommon(objects: Objects, m: string, a: string, b: string) {
    Common(objects, m, a, b) && forall d | Common(objects, d, a, b) && Ancestor(objects, m, d) :: d == m
  }

  /** Every common ancestor lies below a best one. */
  lemma {:induction false} BelowABest(objects: Objects, age: string -> nat, c: string, a: string, b: string)
    returns (m: string)
    requires Acyclic(objects, age) && Common(objects, c, a, b)
    ensures BestCommon(objects, m, a, b) && Ancestor(objects, c, m)
    decreases age(a) - age(c)
  {
    AncestorsAreCommits(objects, c, a);
    SelfAncestor(objects, c);
    if BestCommon(objects, c, a, b) {
      m := c;
    } else {
      var d :| Common(objects, d, a, b) && Ancestor(objects, c, d) && d != c;
      AncestorIsOlder(objects, age, c, d);
      AncestorIsOlder(objects, age, d, a);
      m := BelowABest(objects, age, d, a, b);
      AncestorTransitive(objects, c, d, m);
    }
  }

  lemma AncestorIsOlder(objects: Objects, age: string -> nat, a: string, b: string)
    requires Acyclic(objects, age) && Ancestor(objects, a, b)
    ensures age(a) <= age(b) && (a != b ==> age(a) < age(b))
  {
    var n: nat :| Reaches(objects, b, a, n);
    ReachingAges(objects, age, b, a, n);
  }

  /** On a checkout of the pull request's head, the range contains every commit reachable from the head and not from
      the base; it contains nothing else exactly when the merge base taken is the only best common ancestor. */
  lemma HeadRangeCoversThePull(git: Checkout, event: Fields, pr: Fields, scan: Scan, base: string, prHead: string,
                               age: string -> nat)
    requires FindsMergeBases(git) && AcceptedPull(git, event, pr, scan) && Acyclic(git.objects, age)
    requires EventCommit(git.objects, ShaOf(pr, "base")) == Success(base)
    requires EventCommit(git.objects, ShaOf(pr, "head")) == Success(prHead) && git.head == Some(prHead)
    ensures scan.Range? && scan.end == prHead
    ensures forall c | Ancestor(git.objects, c, prHead) && !Ancestor(git.objects, c, base) ::
      Scans(git.objects, scan, c)
    ensures (forall c | Scans(git.objects, scan, c) :: !Ancestor(git.objects, c, base))
      <==> (forall m | BestCommon(git.objects, m, base, prHead) :: m == scan.start)
  {
    assert git.mergeBase(base, prHead) == Some(scan.start);
    assert Ancestor(git.objects, scan.start, base);
    forall c | Ancestor(git.objects, c, prHead) && !Ancestor(git.objects, c, base)
      ensures Scans(git.objects, scan, c)
    {
      if Ancestor(git.objects, c, scan.start) {
        AncestorTransitive(git.objects, c, scan.start, base);
      }
    }
    OnlyBestExactlyWhen(git.objects, age, scan.start, base, prHead);
  }

  /** Every common ancestor is an ancestor of a common one exactly when no other is a best one. */
  lemma OnlyBestExactlyWhen(objects: Objects, age: string -> nat, start: string, a: string, b: string)
    requires Acyclic(objects, age) && Common(objects, start, a, b)
    ensures (forall c | Common(objects, c, a, b) :: Ancestor(objects, c, start))
      <==> (forall m | BestCommon(objects, m, a, b) :: m == start)
  {
    if forall m | BestCommon(objects, m, a, b) :: m == start {
      forall c | Common(objects, c, a, b) ensures Ancestor(objects, c, start) {
        var m := BelowABest(objects, age, c, a, b);
      }
    }
  }

  /** On the merge checkout, the range is the merge commit and every commit of the pull request's head that is not
      reachable from the merge's first parent. */
  lemma MergeRangeIsThePull(git: Checkout, event: Fields, pr: Fields, scan: Scan, base: string, prHead: string,
                            age: string -> nat, c: string)
    requires AcceptedPull(git, event, pr, scan) && Acyclic(git.objects, age)
    requires EventCommit(git.objects, ShaOf(pr, "base")) == Success(base)
    requires EventCommit(git.objects, ShaOf(pr, "head")) == Success(prHead) && git.head != Some(prHead)
    ensures scan.Range? && git.head == Some(scan.end)
    ensures IsCommit(git.objects, scan.end) && git.objects[scan.end].parents == [scan.start, prHead]
    ensures Scans(git.objects, scan, c)
      <==> c == scan.end || (Ancestor(git.objects, c, prHead) && !Ancestor(git.objects, c, scan.start))
  {
    var head := git.head.value;
    var parents := git.objects[head].parents;
    assert parents == [scan.start, prHead];
    AncestorsOfCommit(git.objects, c, head);
    AcceptedScanVisitsHead(git, "pull_request", event, false, true, age);
    assert Ancestor(git.objects, c, parents[0]) <==> Ancestor(git.objects, c, scan.start);
    assert Ancestor(git.objects, c, parents[1]) <==> Ancestor(git.objects, c, prHead);
  }

  /** When the base has moved past the merge's first parent, no new commit of the pull request escapes; when the merge
      was made on a newer base, a commit escapes only by being on that base line already. */
  lemma MergeRangeMissesOnlyTheBaseLine(git: Checkout, event: Fields, pr: Fields, scan: Scan, base: string,
                                        prHead: string, age: string -> nat, c: string)
    requires AcceptedPull(git, event, pr, scan) && Acyclic(git.objects, age)
    requires EventCommit(git.objects, ShaOf(pr, "base")) == Success(base)
    requires EventCommit(git.objects, ShaOf(pr, "head")) == Success(prHead) && git.head != Some(prHead)
    requires Ancestor(git.objects, c, prHead) && !Ancestor(git.objects, c, base)
    ensures Scans(git.objects, scan, c)
            || (Ancestor(git.objects, base, scan.start) && Ancestor(git.objects, c, scan.start))
  {
    MergeRangeIsThePull(git, event, pr, scan, base, prHead, age, c);
    if Ancestor(git.objects, c, scan.start) && Ancestor(git.objects, scan.start, base) {
      AncestorTransitive(git.objects, c, scan.start, base);
    }
  }

  // ---------------------------------------------------------------- refusals

  /** A push is scanned exactly when its boundary is a known commit other than the new head and an ancestor of it. */
  lemma PushAcceptedExactlyWhen(git: Checkout, event: Fields, age: string -> nat)
    requires git.head.Some? && IsSha(git.head.value) && IsCommit(git.objects, git.head.value)
    requires Acyclic(git.objects, age)
    requires EventCommit(git.objects, Get(event, "after")) == Success(git.head.value)
    ensures SelectRange(git, "push", event, false, true).Success? <==>
      (var before := Get(event, "before");
        && before.Str? && IsSha(before.str) && !AllZeros(before.str) && Lower(before.str) != git.head.value
        && Ancestor(git.objects, Lower(before.str), git.head.value))
  {
    var before := Get(event, "before");
    if before.Str? && IsSha(before.str) && Ancestor(git.objects, Lower(before.str), git.head.value) {
      AncestorsAreCommits(git.objects, Lower(before.str), git.head.value);
      SelfAncestor(git.objects, git.head.value);
      if Lower(before.str) != git.head.value {
        if Ancestor(git.objects, git.head.value, Lower(before.str)) {
          AncestorAntisymmetric(git.objects, age, git.head.value, Lower(before.str));
        }
        assert Scans(git.objects, Range(Lower(before.str), git.head.value, PushBefore), git.head.value);
      }
    }
  }

  lemma AncestorsAreCommits(objects: Objects, a: string, b: string)
    requires Ancestor(objects, a, b)
    ensures IsCommit(objects, a)
  {
    var n: nat :| Reaches(objects, b, a, n);
    ReachedIsCommit(objects, b, a, n);
  }

  lemma {:induction false} ReachedIsCommit(objects: Objects, from: string, to: string, n: nat)
    requires Reaches(objects, from, to, n)
    ensures IsCommit(objects, to)
    decreases n
  {
    if n > 0 {
      var i :| 0 <= i < |objects[from].parents| && Reaches(objects, objects[from].parents[i], to, n - 1);
      ReachedIsCommit(objects, objects[from].parents[i], to, n - 1);
    }
  }
}
