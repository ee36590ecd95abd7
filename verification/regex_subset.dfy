/** shared_regex_subset of scripts/adoption_status.py: a one-pass scan with summarised state, proved against a
    specification that first cuts the pattern into tokens and then checks the whole token sequence. */
module RegexSubset {
  import opened Strings

  const MAX_LENGTH: nat := 1000
  const MAX_CLASSES: nat := 20
  const MAX_DEPTH: nat := 64

  const META: set<char> :=
    {'\\', '.', '+', '*', '?', '(', ')', '|', '[', ']', '{', '}', '^', '$', '#', '&', '-', '~'}
  const CLASS_ESCAPES: set<char> := {'d', 'D', 'w', 'W', 's', 'S'}
  const CONTROL_ESCAPES: set<char> := {'a', 'f', 't', 'n', 'r', 'v'}
  const ASSERTION_ESCAPES: set<char> := {'b', 'B', 'A'}

  predicate PlainEscape(c: char) {
    c in META || c in CONTROL_ESCAPES || c in CLASS_ESCAPES
  }

  /** pattern.startswith(c, i) for one character */
  predicate At(p: string, i: nat, c: char) {
    i < |p| && p[i] == c
  }

  function One(b: bool): nat { if b then 1 else 0 }

  // ---------------------------------------------------------------- tokens

  /** Bad: outside the subset. Broken: both engines reject the pattern here (a trailing backslash, an unclosed class).
      A class carries how many character classes it counts for. */
  datatype Kind =
    | Literal | Escape | ClassEscape | Assertion | Class(classes: nat) | Open | Close | Alternation | Repetition
    | Bad | Broken

  datatype Token = Token(kind: Kind, text: string)

  /** What reading on inside a bracketed class comes to. */
  datatype ClassScan = Closed(end: nat, escapes: nat) | ClassBad | ClassBroken

  /** From the member at i of a class whose members start at start; letter: the previous member is an ASCII letter or
      digit. */
  function ScanClass(p: string, start: nat, i: nat, letter: bool): (r: ClassScan)
    requires start <= i <= |p|
    ensures r.Closed? ==> i <= r.end < |p| && r.end > start && p[r.end] == ']'
    decreases |p| - i
  {
    if i == |p| then ClassBroken
    else if p[i] == ']' && i > start then Closed(i, 0)
    else if p[i] in {'[', ']', '&', '~'} || (p[i] == '-' && At(p, i + 1, '-')) then ClassBad
    else if p[i] == '\\' then
      if i + 1 == |p| then ClassBroken
      else if !PlainEscape(p[i + 1]) then ClassBad
      else
        (match ScanClass(p, start, i + 2, false)
         case Closed(end, escapes) => Closed(end, escapes + One(p[i + 1] in CLASS_ESCAPES))
         case other => other)
    else if p[i] == '-' && i > start && !At(p, i + 1, ']') then
      if letter && i + 1 < |p| && IsAlnum(p[i + 1]) then ScanClass(p, start, i + 2, false) else ClassBad
    else ScanClass(p, start, i + 1, IsAlnum(p[i]))
  }

  function ClassStart(p: string, i: nat): nat {
    i + 1 + One(At(p, i + 1, '^'))
  }

  /** The token at i. */
  function NextToken(p: string, i: nat): (t: Token)
    requires i < |p|
    ensures t.kind != Bad && t.kind != Broken ==> t.text != "" && i + |t.text| <= |p| && t.text == p[i..i + |t.text|]
  {
    var c := p[i];
    if c == '\\' then
      if i + 1 == |p| then Token(Broken, "")
      else if p[i + 1] in ASSERTION_ESCAPES then Token(Assertion, p[i..i + 2])
      else if p[i + 1] in CLASS_ESCAPES then Token(ClassEscape, p[i..i + 2])
      else if PlainEscape(p[i + 1]) then Token(Escape, p[i..i + 2])
      else Token(Bad, "")
    else if c == '[' then
      (match ScanClass(p, ClassStart(p, i), ClassStart(p, i), false)
       case Closed(end, escapes) => Token(Class(escapes + 1), p[i..end + 1])
       case ClassBad => Token(Bad, "")
       case ClassBroken => Token(Broken, ""))
    else if c == '(' then
      if !At(p, i + 1, '?') then Token(Open, p[i..i + 1])
      else if At(p, i + 2, ':') then Token(Open, p[i..i + 3])
      else Token(Bad, "")
    else if c in {'*', '+', '?'} then Token(Repetition, [c])
    else if c in {'{', '}', ']'} then Token(Bad, "")
    else if c == '|' then Token(Alternation, [c])
    else if c in {'^', '$'} then Token(Assertion, [c])
    else if c == ')' then Token(Close, [c])
    else Token(Literal, [c])
  }

  /** The pattern from i on, up to and including the first token it cannot be read past. */
  function Tokens(p: string, i: nat): seq<Token>
    requires i <= |p|
    decreases |p| - i
  {
    if i == |p| then []
    else
      var t := NextToken(p, i);
      if t.kind == Bad || t.kind == Broken then [t] else [t] + Tokens(p, i + |t.text|)
  }

  // ---------------------------------------------------------------- the check over the whole token sequence

  /** How many repetition tokens stand directly before position j. */
  function RepetitionsBefore(ts: seq<Token>, j: nat): nat
    requires j <= |ts|
  {
    if j == 0 || ts[j - 1].kind != Repetition then 0 else 1 + RepetitionsBefore(ts, j - 1)
  }

  /** A repetition follows something that is not an assertion; directly after one repetition only a lazy mark may
      stand, and after two nothing. */
  predicate RepetitionOk(ts: seq<Token>, j: nat)
    requires j < |ts|
  {
    ts[j].kind == Repetition ==>
      match RepetitionsBefore(ts, j)
      case 0 => j == 0 || ts[j - 1].kind != Assertion
      case 1 => ts[j].text == "?"
      case _ => false
  }

  function DepthOf(t: Token): int {
    if t.kind == Open then 1 else if t.kind == Close then -1 else 0
  }

  function ClassesOf(t: Token): nat {
    match t.kind
    case Class(n) => n
    case ClassEscape => 1
    case _ => 0
  }

  function Depth(ts: seq<Token>): int {
    if ts == [] then 0
    else
      var last := ts[|ts| - 1];
      Depth(ts[..|ts| - 1]) + DepthOf(last)
  }

  function ClassCount(ts: seq<Token>): nat {
    if ts == [] then 0
    else
      var last := ts[|ts| - 1];
      ClassCount(ts[..|ts| - 1]) + ClassesOf(last)
  }

  predicate NoBad(ts: seq<Token>) {
    forall j | 0 <= j < |ts| :: ts[j].kind != Bad
  }

  predicate RepetitionsOk(ts: seq<Token>) {
    forall j | 0 <= j < |ts| :: RepetitionOk(ts, j)
  }

  predicate Shallow(ts: seq<Token>) {
    forall n | 0 <= n <= |ts| :: Depth(ts[..n]) <= MAX_DEPTH
  }

  predicate Clean(ts: seq<Token>) {
    NoBad(ts) && RepetitionsOk(ts) && Shallow(ts)
  }

  predicate IsBroken(ts: seq<Token>) {
    ts != [] && ts[|ts| - 1].kind == Broken
  }

  predicate InSubset(p: string) {
    && |p| <= MAX_LENGTH
    && Clean(Tokens(p, 0))
    && (IsBroken(Tokens(p, 0)) || ClassCount(Tokens(p, 0)) <= MAX_CLASSES)
  }

  // ---------------------------------------------------------------- the one-pass scan

  datatype Previous = Start | Atom | Asserted | Repeat | Lazy

  /** The summary the scan keeps of the tokens it has read. */
  function Summary(ts: seq<Token>): Previous {
    if ts == [] then Start
    else
      match ts[|ts| - 1].kind
      case Open => Start
      case Alternation => Start
      case Assertion => Asserted
      case Repetition => if RepetitionsBefore(ts, |ts| - 1) == 0 then Repeat else Lazy
      case _ => Atom
  }

  /** What the scan knows at index: the tokens read so far, and that all of them passed. */
  ghost predicate Scanned(p: string, done: seq<Token>, index: nat, depth: int, classes: nat, previous: Previous) {
    && index <= |p|
    && Tokens(p, 0) == done + Tokens(p, index)
    && Clean(done)
    && (forall j | 0 <= j < |done| :: done[j].kind != Broken)
    && depth == Depth(done) && classes == ClassCount(done) && previous == Summary(done)
  }

  lemma RepetitionsBeforePrefix(ts: seq<Token>, n: nat, j: nat)
    requires j <= n <= |ts|
    ensures RepetitionsBefore(ts[..n], j) == RepetitionsBefore(ts, j)
  {
    if j > 0 {
      RepetitionsBeforePrefix(ts, n, j - 1);
    }
  }

  lemma CleanPrefix(ts: seq<Token>, n: nat)
    requires n <= |ts| && Clean(ts)
    ensures Clean(ts[..n])
  {
    forall j | 0 <= j < n
      ensures RepetitionOk(ts[..n], j)
    {
      assert RepetitionOk(ts, j);
      RepetitionsBeforePrefix(ts, n, j);
    }
    forall m | 0 <= m <= n
      ensures Depth(ts[..n][..m]) <= MAX_DEPTH
    {
      assert ts[..n][..m] == ts[..m];
    }
  }

  lemma RepetitionsAfterRepetitions(ts: seq<Token>)
    requires Clean(ts) && ts != [] && ts[|ts| - 1].kind == Repetition
    ensures RepetitionsBefore(ts, |ts| - 1) <= 1
  {
    assert RepetitionOk(ts, |ts| - 1);
  }

  /** Whether one more token keeps the sequence clean, in terms of the summary alone. */
  predicate Acceptable(previous: Previous, depth: int, t: Token) {
    && t.kind != Bad
    && (t.kind == Repetition ==>
          (t.text == "?" && previous == Repeat) || previous == Atom || previous == Start)
    && (t.kind == Open ==> depth + 1 <= MAX_DEPTH)
  }

  lemma SummaryDecidesRepetition(done: seq<Token>, t: Token)
    requires Clean(done)
    ensures RepetitionOk(done + [t], |done|) <==>
            (t.kind == Repetition ==>
               (t.text == "?" && Summary(done) == Repeat) || Summary(done) == Atom || Summary(done) == Start)
    ensures RepetitionsBefore(done + [t], |done|) == RepetitionsBefore(done, |done|)
  {
    var ts, n := done + [t], |done|;
    assert ts[..n] == done && ts[n] == t;
    RepetitionsBeforePrefix(ts, n, n);
    if done != [] && done[n - 1].kind == Repetition {
      RepetitionsAfterRepetitions(done);
    }
  }

  lemma RepetitionsOkSnoc(done: seq<Token>, t: Token)
    ensures RepetitionsOk(done + [t]) <==> RepetitionsOk(done) && RepetitionOk(done + [t], |done|)
  {
    var ts, n := done + [t], |done|;
    assert ts[..n] == done;
    forall j | 0 <= j < n
      ensures RepetitionOk(ts, j) <==> RepetitionOk(done, j)
    {
      RepetitionsBeforePrefix(ts, n, j);
    }
  }

  lemma ShallowSnoc(done: seq<Token>, t: Token)
    ensures Shallow(done + [t]) <==> Shallow(done) && Depth(done + [t]) <= MAX_DEPTH
  {
    var ts, n := done + [t], |done|;
    assert ts[..n + 1] == ts;
    assert forall m | 0 <= m <= n :: ts[..m] == done[..m];
  }

  lemma CleanSnoc(done: seq<Token>, t: Token)
    ensures Clean(done + [t]) <==>
            Clean(done) && t.kind != Bad && RepetitionOk(done + [t], |done|) && Depth(done + [t]) <= MAX_DEPTH
  {
    RepetitionsOkSnoc(done, t);
    ShallowSnoc(done, t);
    assert (done + [t])[|done|] == t;
    assert forall j | 0 <= j < |done| :: (done + [t])[j] == done[j];
  }

  /** How one acceptable token moves the summary. */
  function Next(previous: Previous, t: Token): Previous {
    match t.kind
    case Open => Start
    case Alternation => Start
    case Assertion => Asserted
    case Repetition => if t.text == "?" && previous == Repeat then Lazy else Repeat
    case _ => Atom
  }

  /** The summary is enough: it decides exactly whether the extended token sequence is still clean. */
  lemma SummaryDecides(done: seq<Token>, t: Token)
    requires Clean(done)
    ensures Clean(done + [t]) <==> Acceptable(Summary(done), Depth(done), t)
    ensures Acceptable(Summary(done), Depth(done), t) && t.kind == Repetition ==>
      Summary(done + [t]) == if t.text == "?" && Summary(done) == Repeat then Lazy else Repeat
  {
    SummaryDecidesRepetition(done, t);
    CleanSnoc(done, t);
    assert (done + [t])[..|done|] == done;
    assert done[..|done|] == done;
    assert Depth(done) <= MAX_DEPTH;
  }

  lemma TokensFrom(p: string, i: nat)
    requires i < |p|
    ensures var t := NextToken(p, i);
      Tokens(p, i) == if Stops(t) then [t] else [t] + Tokens(p, i + |t.text|)
  {
  }

  predicate Stops(t: Token) {
    t.kind == Bad || t.kind == Broken
  }

  lemma Regroup(done: seq<Token>, t: Token, rest: seq<Token>, ts: seq<Token>, all: seq<Token>)
    requires ts == (if Stops(t) then [t] else [t] + rest) && all == done + ts
    ensures all == if Stops(t) then done + [t] else (done + [t]) + rest
    ensures all[..|done| + 1] == done + [t]
  {
  }

  lemma TokensUnfold(p: string, done: seq<Token>, index: nat, all: seq<Token>)
    requires index < |p| && all == done + Tokens(p, index)
    ensures var t := NextToken(p, index);
      all == if Stops(t) then done + [t] else (done + [t]) + Tokens(p, index + |t.text|)
    ensures all[..|done| + 1] == done + [NextToken(p, index)]
  {
    var t := NextToken(p, index);
    TokensFrom(p, index);
    if Stops(t) {
      Regroup(done, t, [], Tokens(p, index), all);
    } else {
      Regroup(done, t, Tokens(p, index + |t.text|), Tokens(p, index), all);
    }
  }

  /** A token that is not acceptable settles the answer: the pattern is outside. */
  lemma ScanRejects(p: string, done: seq<Token>, index: nat, depth: int, classes: nat, previous: Previous)
    requires Scanned(p, done, index, depth, classes, previous) && index < |p|
    requires !Acceptable(previous, depth, NextToken(p, index))
    ensures !InSubset(p)
  {
    TokensUnfold(p, done, index, Tokens(p, 0));
    SummaryDecides(done, NextToken(p, index));
    if Clean(Tokens(p, 0)) {
      CleanPrefix(Tokens(p, 0), |done| + 1);
    }
  }

  /** A broken end settles it too: the pattern is in, whatever its class count, as both engines reject it alike. */
  lemma ScanBreaks(p: string, done: seq<Token>, index: nat, depth: int, classes: nat, previous: Previous)
    requires Scanned(p, done, index, depth, classes, previous) && index < |p|
    requires NextToken(p, index).kind == Broken && |p| <= MAX_LENGTH
    ensures InSubset(p)
  {
    TokensUnfold(p, done, index, Tokens(p, 0));
    SummaryDecides(done, NextToken(p, index));
  }

  /** How one acceptable token moves depth, class count and summary. */
  lemma SummaryMoves(done: seq<Token>, t: Token)
    requires Clean(done) && Acceptable(Summary(done), Depth(done), t)
    ensures Clean(done + [t])
    ensures Depth(done + [t]) == Depth(done) + DepthOf(t) && ClassCount(done + [t]) == ClassCount(done) + ClassesOf(t)
    ensures Summary(done + [t]) == Next(Summary(done), t)
  {
    SummaryDecides(done, t);
    assert (done + [t])[..|done|] == done;
  }

  lemma ScanAdvances(p: string, done: seq<Token>, index: nat, depth: int, classes: nat, previous: Previous)
    requires Scanned(p, done, index, depth, classes, previous) && index < |p|
    requires NextToken(p, index).kind != Broken && Acceptable(previous, depth, NextToken(p, index))
    ensures var t := NextToken(p, index);
      0 < |t.text|
      && Scanned(p, done + [t], index + |t.text|, depth + DepthOf(t), classes + ClassesOf(t), Next(previous, t))
  {
    var t := NextToken(p, index);
    TokensUnfold(p, done, index, Tokens(p, 0));
    SummaryMoves(done, t);
    NextIsTheNextText(p, index);
  }

  /** Reads a bracketed class from its first member: the position after it and its class count, or why it stops. */
  method ReadClass(p: string, start: nat) returns (r: ClassScan)
    requires start <= |p|
    ensures r == ScanClass(p, start, start, false)
  {
    var index, letter := start, false;
    var escapes: nat := 0;
    while true
      invariant start <= index <= |p|
      invariant ScanClass(p, start, start, false) ==
                match ScanClass(p, start, index, letter)
                case Closed(end, more) => Closed(end, more + escapes)
                case other => other
      decreases |p| - index
    {
      if index == |p| {
        return ClassBroken;
      }
      var member := p[index];
      if member == ']' && index > start {
        return Closed(index, escapes);
      }
      if member in {'[', ']', '&', '~'} || (member == '-' && At(p, index + 1, '-')) {
        return ClassBad;
      }
      if member == '\\' {
        if index + 1 == |p| {
          return ClassBroken;
        }
        if !PlainEscape(p[index + 1]) {
          return ClassBad;
        }
        escapes := escapes + One(p[index + 1] in CLASS_ESCAPES);
        index, letter := index + 2, false;
      } else if member == '-' && index > start && !At(p, index + 1, ']') {
        if !(letter && index + 1 < |p| && IsAlnum(p[index + 1])) {
          return ClassBad;
        }
        index, letter := index + 2, false;
      } else {
        index, letter := index + 1, IsAlnum(member);
      }
    }
  }

  /** One iteration of the scan: a verdict, or the state it goes on with. */
  datatype Iteration = Verdict(inside: bool) | Continue(index: nat, depth: int, classes: nat, previous: Previous)

  /** What an iteration says about the token at index. */
  predicate Reads(p: string, index: nat, depth: int, classes: nat, previous: Previous, t: Token, r: Iteration) {
    match r
    case Verdict(inside) => if inside then t.kind == Broken else !Acceptable(previous, depth, t)
    case Continue(i, d, n, next) =>
      && t.kind != Broken && Acceptable(previous, depth, t) && i == index + |t.text| && i <= |p|
      && d == depth + DepthOf(t) && n == classes + ClassesOf(t) && next == Next(previous, t)
  }

  method ScanEscape(p: string, index: nat, depth: int, classes: nat, previous: Previous) returns (r: Iteration)
    requires index < |p| && depth <= MAX_DEPTH && p[index] == '\\'
    ensures Reads(p, index, depth, classes, previous, NextToken(p, index), r)
  {
    if index + 1 == |p| {
      return Verdict(true);
    }
    var escaped := p[index + 1];
    if escaped in ASSERTION_ESCAPES {
      return Continue(index + 2, depth, classes, Asserted);
    } else if PlainEscape(escaped) {
      return Continue(index + 2, depth, classes + One(escaped in CLASS_ESCAPES), Atom);
    } else {
      return Verdict(false);
    }
  }

  method ScanGroup(p: string, index: nat, depth: int, classes: nat, previous: Previous) returns (r: Iteration)
    requires index < |p| && depth <= MAX_DEPTH && p[index] == '('
    ensures Reads(p, index, depth, classes, previous, NextToken(p, index), r)
  {
    if At(p, index + 1, '?') && !At(p, index + 2, ':') {
      return Verdict(false);
    }
    if depth + 1 > MAX_DEPTH {
      return Verdict(false);
    }
    return Continue(if At(p, index + 1, '?') then index + 3 else index + 1, depth + 1, classes, Start);
  }

  method ScanRepetition(p: string, index: nat, depth: int, classes: nat, previous: Previous) returns (r: Iteration)
    requires index < |p| && depth <= MAX_DEPTH && p[index] in {'*', '+', '?'}
    ensures Reads(p, index, depth, classes, previous, NextToken(p, index), r)
  {
    if p[index] == '?' && previous == Repeat {
      return Continue(index + 1, depth, classes, Lazy);
    } else if previous == Atom || previous == Start {
      return Continue(index + 1, depth, classes, Repeat);
    } else {
      return Verdict(false);
    }
  }

  method ScanToken(p: string, index: nat, depth: int, classes: nat, previous: Previous) returns (r: Iteration)
    requires index < |p| && depth <= MAX_DEPTH
    ensures Reads(p, index, depth, classes, previous, NextToken(p, index), r)
  {
    var c := p[index];
    if c == '\\' {
      r := ScanEscape(p, index, depth, classes, previous);
    } else if c == '[' {
      var scan := ReadClass(p, ClassStart(p, index));
      match scan {
        case ClassBroken => return Verdict(true);
        case ClassBad => return Verdict(false);
        case Closed(end, escapes) => return Continue(end + 1, depth, classes + escapes + 1, Atom);
      }
    } else if c == '(' {
      r := ScanGroup(p, index, depth, classes, previous);
    } else if c in {'*', '+', '?'} {
      r := ScanRepetition(p, index, depth, classes, previous);
    } else if c in {'{', '}', ']'} {
      return Verdict(false);
    } else {
      var next := if c == '|' then Start else if c in {'^', '$'} then Asserted else Atom;
      return Continue(index + 1, depth - One(c == ')'), classes, next);
    }
  }

  lemma VerdictDecides(p: string, done: seq<Token>, index: nat, depth: int, classes: nat, previous: Previous,
                       inside: bool)
    requires Scanned(p, done, index, depth, classes, previous) && index < |p| <= MAX_LENGTH
    requires Reads(p, index, depth, classes, previous, NextToken(p, index), Verdict(inside))
    ensures inside == InSubset(p)
  {
    if inside {
      ScanBreaks(p, done, index, depth, classes, previous);
    } else {
      ScanRejects(p, done, index, depth, classes, previous);
    }
  }

  /** An iteration settles the answer or keeps the scan in step with the tokens. */
  lemma IterationDecides(p: string, done: seq<Token>, index: nat, depth: int, classes: nat, previous: Previous,
                         r: Iteration)
    requires Scanned(p, done, index, depth, classes, previous) && index < |p| <= MAX_LENGTH
    requires Reads(p, index, depth, classes, previous, NextToken(p, index), r)
    ensures r.Verdict? ==> r.inside == InSubset(p)
    ensures r.Continue? ==>
      Scanned(p, done + [NextToken(p, index)], r.index, r.depth, r.classes, r.previous) && index < r.index <= |p|
  {
    if r.Verdict? {
      VerdictDecides(p, done, index, depth, classes, previous, r.inside);
    } else {
      ScanAdvances(p, done, index, depth, classes, previous);
    }
  }

  lemma ScanEnds(p: string, done: seq<Token>, depth: int, classes: nat, previous: Previous)
    requires Scanned(p, done, |p|, depth, classes, previous) && |p| <= MAX_LENGTH
    ensures InSubset(p) <==> classes <= MAX_CLASSES
  {
    assert done + [] == done;
  }

  method SharedRegexSubset(p: string) returns (b: bool)
    ensures b == InSubset(p)
  {
    if |p| > MAX_LENGTH {
      return false;
    }
    var index, depth, previous := 0, 0, Start;
    var classes: nat := 0;
    ghost var done: seq<Token> := [];
    while index < |p|
      invariant index <= |p| && Scanned(p, done, index, depth, classes, previous)
      decreases |p| - index
    {
      assert done[..|done|] == done;
      var r := ScanToken(p, index, depth, classes, previous);
      IterationDecides(p, done, index, depth, classes, previous, r);
      match r {
        case Verdict(inside) =>
          return inside;
        case Continue(i, d, n, next) =>
          done := done + [NextToken(p, index)];
          index, depth, classes, previous := i, d, n, next;
      }
    }
    ScanEnds(p, done, depth, classes, previous);
    return classes <= MAX_CLASSES;
  }

  // ---------------------------------------------------------------- what acceptance means for the text

  function Text(ts: seq<Token>): string {
    if ts == [] then "" else ts[0].text + Text(ts[1..])
  }

  predicate Complete(ts: seq<Token>) {
    forall j | 0 <= j < |ts| :: ts[j].kind != Bad && ts[j].kind != Broken
  }

  lemma NextIsTheNextText(p: string, i: nat)
    requires i < |p| && NextToken(p, i).kind != Bad && NextToken(p, i).kind != Broken
    ensures var n := |NextToken(p, i).text|; 0 < n <= |p| - i && NextToken(p, i).text == p[i..i + n]
  {
  }

  lemma TailIsComplete(ts: seq<Token>, t: Token, rest: seq<Token>)
    requires Complete(ts) && ts == [t] + rest
    ensures Complete(rest)
  {
    assert forall j | 0 <= j < |rest| :: rest[j] == ts[j + 1];
  }

  lemma HeadIsWhole(ts: seq<Token>)
    requires Complete(ts) && ts != []
    ensures ts[0].kind != Bad && ts[0].kind != Broken
  {
  }

  lemma CompleteUnfolds(p: string, i: nat) returns (t: Token, next: nat)
    requires i < |p| && Complete(Tokens(p, i))
    ensures i < next <= |p| && t.text == p[i..next] && WellShaped(t)
    ensures Tokens(p, i) == [t] + Tokens(p, next) && Complete(Tokens(p, next))
  {
    t := NextToken(p, i);
    next := i + |t.text|;
    HeadIsWhole(Tokens(p, i));
    TokensFrom(p, i);
    NextIsTheNextText(p, i);
    NextIsWellShaped(p, i);
    TailIsComplete(Tokens(p, i), t, Tokens(p, next));
  }

  /** The tokens of a complete scan are the pattern, cut up and nothing lost. */
  lemma {:induction false} TokensPartition(p: string, i: nat)
    requires i <= |p| && Complete(Tokens(p, i))
    ensures Text(Tokens(p, i)) == p[i..]
    decreases |p| - i
  {
    if i < |p| {
      var t, next := CompleteUnfolds(p, i);
      TokensPartition(p, next);
      TextCons(p, i, t, Tokens(p, next), Tokens(p, i));
    }
  }

  lemma TextCons(p: string, i: nat, t: Token, rest: seq<Token>, ts: seq<Token>)
    requires i + |t.text| <= |p| && t.text == p[i..i + |t.text|] && Text(rest) == p[i + |t.text|..] && ts == [t] + rest
    ensures Text(ts) == p[i..]
  {
    assert ts[1..] == rest;
  }

  /** The text a token of each kind can have: braces and unescaped brackets appear only inside classes and escapes,
      and the only group forms are ( and (?: . */
  predicate WellShaped(t: Token) {
    match t.kind
    case Literal => |t.text| == 1 && t.text[0] !in {'\\', '[', ']', '(', ')', '*', '+', '?', '{', '}', '|', '^', '$'}
    case Escape | ClassEscape => |t.text| == 2 && t.text[0] == '\\' && PlainEscape(t.text[1])
    case Assertion => t.text in {"^", "$"} || (|t.text| == 2 && t.text[0] == '\\' && t.text[1] in ASSERTION_ESCAPES)
    case Class(n) => n > 0 && |t.text| >= 3 && t.text[0] == '[' && t.text[|t.text| - 1] == ']'
    case Open => t.text == "(" || t.text == "(?:"
    case Close => t.text == ")"
    case Alternation => t.text == "|"
    case Repetition => t.text in {"*", "+", "?"}
    case _ => false
  }

  lemma NextIsWellShaped(p: string, i: nat)
    requires i < |p| && NextToken(p, i).kind != Bad && NextToken(p, i).kind != Broken
    ensures WellShaped(NextToken(p, i))
  {
  }

  lemma {:induction false} TokensAreWellShaped(p: string, i: nat)
    requires i <= |p| && Complete(Tokens(p, i))
    ensures AllWellShaped(Tokens(p, i))
    decreases |p| - i
  {
    if i < |p| {
      var t, next := CompleteUnfolds(p, i);
      TokensAreWellShaped(p, next);
      WellShapedCons(t, Tokens(p, next), Tokens(p, i));
    }
  }

  lemma WellShapedCons(t: Token, rest: seq<Token>, ts: seq<Token>)
    requires WellShaped(t) && AllWellShaped(rest) && ts == [t] + rest
    ensures AllWellShaped(ts)
  {
  }

  /** No repetition follows an assertion, and a repetition directly after a repetition is a lone lazy mark. */
  predicate SeparatedAt(ts: seq<Token>, j: nat)
    requires j < |ts|
  {
    j > 0 && ts[j].kind == Repetition ==>
      && ts[j - 1].kind != Assertion
      && (ts[j - 1].kind == Repetition ==> ts[j].text == "?" && (j > 1 ==> ts[j - 2].kind != Repetition))
  }

  predicate RepetitionsSeparated(ts: seq<Token>) {
    forall j | 0 <= j < |ts| :: SeparatedAt(ts, j)
  }

  lemma CheckedRepetitionsAreSeparated(ts: seq<Token>)
    requires RepetitionsOk(ts)
    ensures RepetitionsSeparated(ts)
  {
    forall j | 0 <= j < |ts|
      ensures SeparatedAt(ts, j)
    {
      assert RepetitionOk(ts, j);
      if j > 0 && ts[j - 1].kind == Repetition {
        assert RepetitionsBefore(ts, j) == 1 + RepetitionsBefore(ts, j - 1);
        assert j > 1 && ts[j - 2].kind == Repetition ==>
            RepetitionsBefore(ts, j - 1) == 1 + RepetitionsBefore(ts, j - 2);
      }
    }
  }

  predicate AllWellShaped(ts: seq<Token>) {
    forall j | 0 <= j < |ts| :: WellShaped(ts[j])
  }

  /** A pattern the scan accepts without hitting a broken end is exactly a concatenation of well-shaped tokens, with
      its repetitions separated and its groups never nested deeper than the bound. */
  lemma AcceptedPatterns(p: string)
    requires InSubset(p) && !IsBroken(Tokens(p, 0))
    ensures Text(Tokens(p, 0)) == p && AllWellShaped(Tokens(p, 0))
    ensures RepetitionsSeparated(Tokens(p, 0)) && Shallow(Tokens(p, 0)) && ClassCount(Tokens(p, 0)) <= MAX_CLASSES
  {
    BrokenOnlyAtTheEnd(p, 0);
    assert Complete(Tokens(p, 0));
    TokensPartition(p, 0);
    TokensAreWellShaped(p, 0);
    assert p[0..] == p;
    CheckedRepetitionsAreSeparated(Tokens(p, 0));
  }

  lemma {:induction false} BrokenOnlyAtTheEnd(p: string, i: nat)
    requires i <= |p|
    ensures forall j | 0 <= j < |Tokens(p, i)| - 1 :: Tokens(p, i)[j].kind != Broken
    decreases |p| - i
  {
    if i < |p| {
      var t := NextToken(p, i);
      if t.kind != Bad && t.kind != Broken {
        BrokenOnlyAtTheEnd(p, i + |t.text|);
        var ts, rest := Tokens(p, i), Tokens(p, i + |t.text|);
        assert ts == [t] + rest;
        forall j | 0 <= j < |ts| - 1
          ensures ts[j].kind != Broken
        {
          assert j > 0 ==> ts[j] == rest[j - 1];
        }
      }
    }
  }
}
