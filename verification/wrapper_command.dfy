/** native_short_flag of scripts/active_model_currency.py: whether a token prefix runs codex through the declared
    wrapper commands. The automaton is proved to accept exactly the yields of an explicit grammar. */
module WrapperCommand {
  import opened Wrappers

  /** Python's \w, \d and str.isdigit on single characters, and the tables of wrappers and of the options that take a
      value or take none. The proofs hold whatever they are; Declared gives the tables of the source. */
  datatype Lexicon = Lexicon(word: char -> bool, decimal: char -> bool, digit: char -> bool, wrappers: set<string>,
                             values: string -> set<string>, switches: string -> set<string>, launchValues: set<string>)

  type Tokens = seq<string>

  // ---------------------------------------------------------------- tokens

  predicate IsLetter(c: char) {
    'a' <= c <= 'z' || 'A' <= c <= 'Z'
  }

  /** An identifier and an equals sign: the token assigns a variable. */
  predicate IsAssignment(lx: Lexicon, t: string) {
    && t != "" && (IsLetter(t[0]) || t[0] == '_')
    && exists k | 1 <= k < |t| :: t[k] == '=' && forall j | 1 <= j < k :: lx.word(t[j])
  }

  predicate AllDecimal(lx: Lexicon, s: string) {
    forall i | 0 <= i < |s| :: lx.decimal(s[i])
  }

  /** \d+(\.\d*)? or \.\d+ */
  predicate IsAmount(lx: Lexicon, s: string) {
    exists k | 0 <= k <= |s| ::
      && AllDecimal(lx, s[..k])
      && ((k == |s| && k > 0)
          || (k < |s| && s[k] == '.' && AllDecimal(lx, s[k + 1..]) && (k > 0 || k + 1 < |s|)))
  }

  predicate IsDuration(lx: Lexicon, t: string) {
    IsAmount(lx, t) || (t != "" && t[|t| - 1] in {'s', 'm', 'h', 'd'} && IsAmount(lx, t[..|t| - 1]))
  }

  predicate IsCount(lx: Lexicon, t: string) {
    t != "" && forall i | 0 <= i < |t| :: lx.digit(t[i])
  }

  function LastComponent(t: string): string {
    if t == "" || t[|t| - 1] == '/' then "" else LastComponent(t[..|t| - 1]) + [t[|t| - 1]]
  }

  lemma LastComponentLength(t: string)
    ensures |LastComponent(t)| <= |t|
  {
  }

  /** Path(t).name */
  function Name(t: string): string {
    var c := LastComponent(t);
    LastComponentLength(t);
    if c != "" && c != "." then c
    else if |c| == |t| then ""
    else Name(t[..|t| - |c| - 1])
  }

  /** The token up to its first equals sign. */
  function BeforeEquals(t: string): string {
    if t == "" || t[0] == '=' then "" else [t[0]] + BeforeEquals(t[1..])
  }

  predicate Dashed(t: string) {
    t != "" && t[0] == '-'
  }

  // ---------------------------------------------------------------- the wrapper tables

  const WRAPPERS: set<string> :=
    {"nice", "nohup", "ionice", "hcom", "env", "timeout", "flock", "rtk", "exec", "command"}

  function Values(program: string): set<string> {
    match program
    case "nice" => {"-n", "--adjustment"}
    case "env" => {"-u", "--unset", "-C", "--chdir", "-a", "--argv0", "-f", "--file"}
    case "timeout" => {"-k", "--kill-after", "-s", "--signal"}
    case "flock" => {"-w", "--timeout", "-E", "--conflict-exit-code"}
    case "ionice" => {"-n", "--classdata", "-c", "--class"}
    case "hcom" => {"--name"}
    case "exec" => {"-a"}
    case _ => {}
  }

  function Switches(program: string): set<string> {
    match program
    case "ionice" => {"-t", "--ignore"}
    case "hcom" => {"--go"}
    case "env" => {"-i", "--ignore-environment", "-v", "--debug"}
    case "timeout" => {"-f", "--foreground", "-p", "--preserve-status", "-v", "--verbose"}
    case "flock" => {"-s", "--shared", "-x", "--exclusive", "-u", "--unlock", "-n", "--nonblock", "-o", "--close",
                     "-F", "--no-fork", "--fcntl", "--verbose"}
    case "rtk" => {"-v", "--verbose", "--ultra-compact", "--skip-env"}
    case "exec" => {"-c", "-l"}
    case "command" => {"-p"}
    case _ => {}
  }

  const LAUNCH_VALUES: set<string> :=
    {"--name", "--tag", "--terminal", "--device", "--dir", "--hcom-prompt", "--hcom-system-prompt", "--batch-id"}

  function Declared(word: char -> bool, decimal: char -> bool, digit: char -> bool): Lexicon {
    Lexicon(word, decimal, digit, WRAPPERS, Values, Switches, LAUNCH_VALUES)
  }

  // ---------------------------------------------------------------- one option

  predicate Terminates(program: string, t: string) {
    t == "--" || (program == "env" && t == "-")
  }

  /** How many tokens an option takes, itself included; None when the wrapper does not have it. */
  function OptionWidth(lx: Lexicon, program: string, t: string): (n: Option<nat>)
    ensures n.Some? ==> n.value == 1 || n.value == 2
  {
    if program == "ionice" && !(|t| >= 2 && t[..2] == "--") then ClusterWidth(t, 1)
    else if BeforeEquals(t) in lx.values(program) then Some(if '=' in t then 1 else 2)
    else if t in lx.switches(program) then Some(1)
    else if |t| > 2 && t[..2] in lx.values(program) then Some(1)
    else if program == "nice" && |t| > 1 && t[0] == '-' && AllDecimal(lx, t[1..]) then Some(1)
    else if program == "rtk" && |t| > 1 && t[0] == '-' && forall i | 1 <= i < |t| :: t[i] == 'v' then Some(1)
    else None
  }

  /** ionice: -t clustered, then at most one -n or -c, whose value is attached or is the next token. */
  function ClusterWidth(t: string, offset: nat): (n: Option<nat>)
    ensures n.Some? ==> n.value == 1 || n.value == 2
    decreases |t| - offset
  {
    if offset < |t| && t[offset] == 't' then ClusterWidth(t, offset + 1)
    else if offset >= |t| then (if offset > 1 then Some(1) else None)
    else if t[offset] in {'n', 'c'} then Some(if offset + 1 < |t| then 1 else 2)
    else None
  }

  // ---------------------------------------------------------------- the automaton on suffixes

  /** The tokens left after a wrapper's options; None when one is unknown or its value is missing. */
  function AfterOptions(lx: Lexicon, program: string, ts: Tokens): (r: Option<Tokens>)
    ensures r.Some? ==> |r.value| <= |ts|
  {
    if ts == [] || !Dashed(ts[0]) then Some(ts)
    else if Terminates(program, ts[0]) then Some(ts[1..])
    else
      match OptionWidth(lx, program, ts[0])
      case None => None
      case Some(n) => if n <= |ts| then AfterOptions(lx, program, ts[n..]) else None
  }

  /** hcom's own flags after the tool name; false when the last token is waiting for its value. */
  predicate LaunchOk(lx: Lexicon, ts: Tokens) {
    if ts == [] || ts[0] == "--" then true
    else if BeforeEquals(ts[0]) in lx.launchValues && '=' !in ts[0] then |ts| > 1 && LaunchOk(lx, ts[2..])
    else LaunchOk(lx, ts[1..])
  }

  predicate HcomRuns(lx: Lexicon, ts: Tokens) {
    var rest := if ts != [] && IsCount(lx, ts[0]) then ts[1..] else ts;
    rest != [] && rest[0] == "codex" && LaunchOk(lx, rest[1..])
  }

  predicate Accepts(lx: Lexicon, ts: Tokens)
    decreases |ts|, 0
  {
    if ts == [] then false
    else if IsAssignment(lx, ts[0]) then Accepts(lx, ts[1..])
    else if Name(ts[0]) == "codex" then true
    else if Name(ts[0]) !in lx.wrappers then false
    else
      match AfterOptions(lx, Name(ts[0]), ts[1..])
      case None => false
      case Some(rest) => AcceptsOperands(lx, Name(ts[0]), rest)
  }

  predicate AcceptsOperands(lx: Lexicon, program: string, rest: Tokens)
    decreases |rest|, 1
  {
    if program == "hcom" then HcomRuns(lx, rest)
    else if program == "timeout" then rest != [] && IsDuration(lx, rest[0]) && Accepts(lx, rest[1..])
    else if program == "flock" then rest != [] && Accepts(lx, rest[1..])
    else if program == "rtk" && rest != [] && rest[0] == "proxy" then Accepts(lx, rest[1..])
    else Accepts(lx, rest)
  }

  // ---------------------------------------------------------------- the loops of the source

  /** What the token at index comes to, for a token that is an option. */
  lemma OptionTurn(lx: Lexicon, program: string, prefix: Tokens, index: nat)
    requires index < |prefix| && Dashed(prefix[index])
    ensures AfterOptions(lx, program, prefix[index..]) ==
      if Terminates(program, prefix[index]) then Some(prefix[index + 1..])
      else match OptionWidth(lx, program, prefix[index])
           case None => None
           case Some(n) => if index + n <= |prefix| then AfterOptions(lx, program, prefix[index + n..]) else None
  {
    var ts := prefix[index..];
    assert forall n | 0 <= n <= |ts| :: ts[n..] == prefix[index + n..];
  }

  /** One turn of the option loop: the index after the token, None where the source returns False or runs past the end;
      last when the token ends the options. */
  method TakeOption(lx: Lexicon, prefix: Tokens, index: nat, program: string) returns (next: Option<nat>, last: bool)
    requires index < |prefix| && Dashed(prefix[index])
    ensures next.Some? ==> index < next.value <= |prefix|
    ensures AfterOptions(lx, program, prefix[index..]) ==
      if next.None? then None
      else if last then Some(prefix[next.value..]) else AfterOptions(lx, program, prefix[next.value..])
  {
    OptionTurn(lx, program, prefix, index);
    if Terminates(program, prefix[index]) {
      return Some(index + 1), true;
    }
    var width := OptionWidth(lx, program, prefix[index]);
    if width.None? || index + width.value > |prefix| {
      return None, false;
    }
    return Some(index + width.value), false;
  }

  /** The option loop: the index after the wrapper's options, None where the source returns False or runs past the
      end. */
  method SkipOptions(lx: Lexicon, prefix: Tokens, start: nat, program: string) returns (r: Option<nat>)
    requires start <= |prefix|
    ensures r.Some? ==> start <= r.value <= |prefix|
    ensures AfterOptions(lx, program, prefix[start..]) == if r.Some? then Some(prefix[r.value..]) else None
  {
    var index := start;
    ghost var left := AfterOptions(lx, program, prefix[start..]);
    while index < |prefix| && Dashed(prefix[index])
      invariant start <= index <= |prefix|
      invariant left == AfterOptions(lx, program, prefix[index..])
    {
      var next, last := TakeOption(lx, prefix, index, program);
      if next.None? || last {
        return next;
      }
      index := next.value;
    }
    return Some(index);
  }

  /** hcom [N] codex, then its launcher flags. */
  method HcomLaunch(lx: Lexicon, prefix: Tokens, start: nat) returns (b: bool)
    requires start <= |prefix|
    ensures b == HcomRuns(lx, prefix[start..])
  {
    var index := start;
    if index < |prefix| && IsCount(lx, prefix[index]) {
      assert prefix[start..][1..] == prefix[start + 1..];
      index := index + 1;
    }
    if index >= |prefix| || prefix[index] != "codex" {
      return false;
    }
    assert prefix[index..][1..] == prefix[index + 1..];
    index := index + 1;
    ghost var launch := index;
    while index < |prefix|
      invariant launch <= index <= |prefix|
      invariant LaunchOk(lx, prefix[launch..]) == LaunchOk(lx, prefix[index..])
    {
      var token := prefix[index];
      assert index + 1 <= |prefix| ==> prefix[index..][1..] == prefix[index + 1..];
      assert index + 2 <= |prefix| ==> prefix[index..][2..] == prefix[index + 2..];
      if token == "--" {
        break;
      }
      if BeforeEquals(token) in lx.launchValues {
        if '=' !in token && index + 1 >= |prefix| {
          return false;
        }
        index := index + if '=' in token then 1 else 2;
      } else {
        index := index + 1;
      }
    }
    return true;
  }

  /** native_short_flag over any tables. */
  method NativeShortFlag(lx: Lexicon, prefix: Tokens) returns (b: bool)
    ensures b == Accepts(lx, prefix)
  {
    var index := 0;
    assert prefix[0..] == prefix;
    while index < |prefix|
      invariant 0 <= index <= |prefix|
      invariant Accepts(lx, prefix) == Accepts(lx, prefix[index..])
    {
      assert prefix[index..][1..] == prefix[index + 1..];
      if IsAssignment(lx, prefix[index]) {
        index := index + 1;
        continue;
      }
      var program := Name(prefix[index]);
      index := index + 1;
      if program == "codex" {
        return true;
      }
      if program !in lx.wrappers {
        return false;
      }
      var after := SkipOptions(lx, prefix, index, program);
      if after.None? {
        return false;
      }
      index := after.value;
      if program == "hcom" {
        b := HcomLaunch(lx, prefix, index);
        return;
      }
      after := SkipOperand(lx, prefix, index, program);
      if after.None? {
        return false;
      }
      index := after.value;
    }
    return false;
  }

  /** What each wrapper reads between its options and its command; None where the source returns False. */
  method SkipOperand(lx: Lexicon, prefix: Tokens, start: nat, program: string) returns (r: Option<nat>)
    requires start <= |prefix| && program != "hcom"
    ensures r.Some? ==> start <= r.value <= |prefix|
    ensures AcceptsOperands(lx, program, prefix[start..]) == (r.Some? && Accepts(lx, prefix[r.value..]))
  {
    var index := start;
    assert index < |prefix| ==> prefix[index..][1..] == prefix[index + 1..];
    if program == "env" {
      while index < |prefix| && IsAssignment(lx, prefix[index])
        invariant start <= index <= |prefix|
        invariant Accepts(lx, prefix[start..]) == Accepts(lx, prefix[index..])
      {
        assert prefix[index..][1..] == prefix[index + 1..];
        index := index + 1;
      }
    } else if program == "timeout" {
      if index >= |prefix| || !IsDuration(lx, prefix[index]) {
        return None;
      }
      index := index + 1;
    } else if program == "flock" {
      if index >= |prefix| {
        return None;
      }
      index := index + 1;
    } else if program == "rtk" && index < |prefix| && prefix[index] == "proxy" {
      index := index + 1;
    }
    return Some(index);
  }

  // ---------------------------------------------------------------- the grammar

  function Flat(groups: seq<Tokens>): Tokens {
    if groups == [] then [] else groups[0] + Flat(groups[1..])
  }

  /** One wrapper invocation: VAR=value..., the program, its options, an optional --, its operand. */
  datatype Link = Link(assignments: Tokens, program: string, options: seq<Tokens>, terminator: Tokens, operand: Tokens)

  /** The executable position: codex itself, or hcom's [N] codex with its launcher flags and what it forwards. */
  datatype Ending =
    | Native(assignments: Tokens, program: string, arguments: Tokens)
    | Hcom(assignments: Tokens, program: string, options: seq<Tokens>, terminator: Tokens, count: Tokens,
           launch: seq<Tokens>, forwarded: Tokens)

  predicate AssignmentsOk(lx: Lexicon, ts: Tokens) {
    forall i | 0 <= i < |ts| :: IsAssignment(lx, ts[i])
  }

  /** An option token of the wrapper together with exactly the value tokens it takes. */
  predicate OptionOk(lx: Lexicon, program: string, group: Tokens) {
    && group != [] && Dashed(group[0]) && !Terminates(program, group[0])
    && OptionWidth(lx, program, group[0]) == Some(|group|)
  }

  predicate OptionsOk(lx: Lexicon, program: string, options: seq<Tokens>, terminator: Tokens) {
    && (forall i | 0 <= i < |options| :: OptionOk(lx, program, options[i]))
    && (terminator == [] || (|terminator| == 1 && Dashed(terminator[0]) && Terminates(program, terminator[0])))
  }

  predicate OperandOk(lx: Lexicon, program: string, operand: Tokens) {
    if program == "timeout" then |operand| == 1 && IsDuration(lx, operand[0])
    else if program == "flock" then |operand| == 1
    else if program == "rtk" then operand == [] || operand == ["proxy"]
    else operand == []
  }

  /** Without a terminator, what follows the options is not itself dashed. */
  predicate FollowOk(terminator: Tokens, next: Tokens) {
    terminator == [] && next != [] ==> !Dashed(next[0])
  }

  function LinkYield(l: Link): Tokens {
    l.assignments + ([l.program] + (Flat(l.options) + (l.terminator + l.operand)))
  }

  function EndingYield(e: Ending): Tokens {
    match e
    case Native(assignments, program, arguments) => assignments + ([program] + arguments)
    case Hcom(assignments, program, options, terminator, count, launch, forwarded) =>
      assignments + ([program] + (Flat(options) + (terminator + (count + (["codex"] + (Flat(launch) + forwarded))))))
  }

  function Yield(links: seq<Link>, e: Ending): Tokens {
    if links == [] then EndingYield(e) else LinkYield(links[0]) + Yield(links[1..], e)
  }

  predicate WaitsForValue(lx: Lexicon, t: string) {
    BeforeEquals(t) in lx.launchValues && '=' !in t
  }

  predicate LaunchItemOk(lx: Lexicon, item: Tokens) {
    && item != [] && item[0] != "--"
    && |item| == (if WaitsForValue(lx, item[0]) then 2 else 1)
  }

  predicate EndingOk(lx: Lexicon, e: Ending) {
    && AssignmentsOk(lx, e.assignments) && !IsAssignment(lx, e.program)
    && match e
       case Native(_, program, _) => Name(program) == "codex"
       case Hcom(_, program, options, terminator, count, launch, forwarded) =>
         && Name(program) == "hcom" && OptionsOk(lx, "hcom", options, terminator)
         && (count == [] || (|count| == 1 && IsCount(lx, count[0])))
         && FollowOk(terminator, count)
         && (forall i | 0 <= i < |launch| :: LaunchItemOk(lx, launch[i]))
         && (forwarded == [] || forwarded[0] == "--")
  }

  predicate LinkOk(lx: Lexicon, l: Link) {
    && AssignmentsOk(lx, l.assignments) && !IsAssignment(lx, l.program)
    && Name(l.program) in lx.wrappers && Name(l.program) != "hcom"
    && OptionsOk(lx, Name(l.program), l.options, l.terminator)
    && OperandOk(lx, Name(l.program), l.operand)
  }

  /** A chain of declared wrappers that ends with codex in executable position. */
  predicate ChainOk(lx: Lexicon, links: seq<Link>, e: Ending) {
    if links == [] then EndingOk(lx, e)
    else
      && LinkOk(lx, links[0])
      && FollowOk(links[0].terminator, links[0].operand + Yield(links[1..], e))
      && ChainOk(lx, links[1..], e)
  }

  /** Letters are not digits, hcom is a wrapper and proxy, an operand of rtk, is none. */
  predicate Sensible(lx: Lexicon) {
    !lx.digit('c') && "hcom" in lx.wrappers && "proxy" !in lx.wrappers
  }

  // ---------------------------------------------------------------- completeness: every chain is accepted

  lemma {:induction false} AssignmentsSkip(lx: Lexicon, assignments: Tokens, ts: Tokens)
    requires AssignmentsOk(lx, assignments)
    ensures Accepts(lx, assignments + ts) == Accepts(lx, ts)
  {
    if assignments == [] {
      assert assignments + ts == ts;
    } else {
      AssignmentsSkip(lx, assignments[1..], ts);
      assert (assignments + ts)[1..] == assignments[1..] + ts;
    }
  }

  lemma {:induction false} OptionsSkip(
      lx: Lexicon, program: string, options: seq<Tokens>, terminator: Tokens, rest: Tokens)
    requires OptionsOk(lx, program, options, terminator) && FollowOk(terminator, rest)
    ensures AfterOptions(lx, program, Flat(options) + (terminator + rest)) == Some(rest)
  {
    var ts := Flat(options) + (terminator + rest);
    if options == [] {
      assert ts == terminator + rest;
      if terminator == [] {
        assert ts == rest;
      } else {
        assert ts[0] == terminator[0] && ts[1..] == rest;
      }
    } else {
      var group := options[0];
      assert OptionOk(lx, program, group);
      var more := Flat(options[1..]) + (terminator + rest);
      assert ts == group + more && ts[0] == group[0] && ts[|group|..] == more;
      assert forall i | 0 <= i < |options| - 1 :: options[1..][i] == options[i + 1];
      OptionsSkip(lx, program, options[1..], terminator, rest);
    }
  }

  lemma {:induction false} LaunchSkips(lx: Lexicon, launch: seq<Tokens>, forwarded: Tokens)
    requires forall i | 0 <= i < |launch| :: LaunchItemOk(lx, launch[i])
    requires forwarded == [] || forwarded[0] == "--"
    ensures LaunchOk(lx, Flat(launch) + forwarded)
  {
    var ts := Flat(launch) + forwarded;
    if launch == [] {
      assert ts == forwarded;
    } else {
      var item := launch[0];
      assert LaunchItemOk(lx, item);
      assert forall i | 0 <= i < |launch| - 1 :: launch[1..][i] == launch[i + 1];
      LaunchSkips(lx, launch[1..], forwarded);
      var more := Flat(launch[1..]) + forwarded;
      assert ts == item + more && ts[0] == item[0] && ts[|item|..] == more;
    }
  }

  lemma HcomRunsIs(lx: Lexicon, count: Tokens, tail: Tokens)
    requires Sensible(lx) && (count == [] || (|count| == 1 && IsCount(lx, count[0]))) && LaunchOk(lx, tail)
    ensures HcomRuns(lx, count + (["codex"] + tail))
  {
    var run := ["codex"] + tail;
    assert run[0] == "codex" && run[1..] == tail;
    if count == [] {
      assert count + run == run;
      assert !lx.digit("codex"[0]);
    } else {
      assert (count + run)[0] == count[0] && (count + run)[1..] == run;
    }
  }

  lemma EndingAccepted(lx: Lexicon, e: Ending)
    requires Sensible(lx) && EndingOk(lx, e)
    ensures Accepts(lx, EndingYield(e))
  {
    match e
    case Native(assignments, program, arguments) =>
      AssignmentsSkip(lx, assignments, [program] + arguments);
    case Hcom(assignments, program, options, terminator, count, launch, forwarded) =>
      var rest := count + (["codex"] + (Flat(launch) + forwarded));
      LaunchSkips(lx, launch, forwarded);
      HcomRunsIs(lx, count, Flat(launch) + forwarded);
      OptionsSkip(lx, "hcom", options, terminator, rest);
      ProgramSkip(lx, program, Flat(options) + (terminator + rest), rest);
      AssignmentsSkip(lx, assignments, [program] + (Flat(options) + (terminator + rest)));
  }

  lemma OperandSkip(lx: Lexicon, program: string, operand: Tokens, more: Tokens)
    requires Sensible(lx) && program != "hcom" && OperandOk(lx, program, operand) && Accepts(lx, more)
    ensures AcceptsOperands(lx, program, operand + more)
  {
    if operand == [] {
      assert operand + more == more;
      ProxyIsNoProgram(lx, more);
    } else {
      assert (operand + more)[0] == operand[0] && (operand + more)[1..] == more;
    }
  }

  lemma ProgramSkip(lx: Lexicon, program: string, body: Tokens, rest: Tokens)
    requires !IsAssignment(lx, program) && Name(program) in lx.wrappers
    requires AfterOptions(lx, Name(program), body) == Some(rest) && AcceptsOperands(lx, Name(program), rest)
    ensures Accepts(lx, [program] + body)
  {
    assert ([program] + body)[1..] == body;
  }

  lemma LinkSkip(lx: Lexicon, l: Link, more: Tokens)
    requires Sensible(lx) && LinkOk(lx, l) && FollowOk(l.terminator, l.operand + more) && Accepts(lx, more)
    ensures Accepts(lx, LinkYield(l) + more)
  {
    var rest := l.operand + more;
    var body := Flat(l.options) + (l.terminator + rest);
    assert LinkYield(l) + more == l.assignments + ([l.program] + body);
    OperandSkip(lx, Name(l.program), l.operand, more);
    OptionsSkip(lx, Name(l.program), l.options, l.terminator, rest);
    ProgramSkip(lx, l.program, body, rest);
    AssignmentsSkip(lx, l.assignments, [l.program] + body);
  }

  lemma {:induction false} PlainComponent(t: string)
    requires '/' !in t
    ensures LastComponent(t) == t
  {
    if t != "" {
      PlainComponent(t[..|t| - 1]);
    }
  }

  lemma PlainName(t: string)
    requires '/' !in t && t != "."
    ensures Name(t) == t
  {
    PlainComponent(t);
  }

  lemma ProxyIsNoProgram(lx: Lexicon, ts: Tokens)
    requires Sensible(lx) && Accepts(lx, ts)
    ensures ts != [] && ts[0] != "proxy"
  {
    var t := "proxy";
    assert |t| == 5 && t[0] == 'p' && t[1] == 'r' && t[2] == 'o' && t[3] == 'x' && t[4] == 'y';
    PlainName(t);
  }

  lemma {:induction false} ChainAccepted(lx: Lexicon, links: seq<Link>, e: Ending)
    requires Sensible(lx) && ChainOk(lx, links, e)
    ensures Accepts(lx, Yield(links, e))
  {
    if links == [] {
      EndingAccepted(lx, e);
    } else {
      ChainAccepted(lx, links[1..], e);
      LinkSkip(lx, links[0], Yield(links[1..], e));
    }
  }

  // ---------------------------------------------------------------- soundness: only chains are accepted

  /** The first option of some, with its value, and the rest. */
  lemma FirstOption(lx: Lexicon, program: string, ts: Tokens) returns (group: Tokens, more: Tokens)
    requires ts != [] && Dashed(ts[0]) && !Terminates(program, ts[0]) && AfterOptions(lx, program, ts).Some?
    ensures ts == group + more && |more| < |ts| && OptionOk(lx, program, group)
    ensures AfterOptions(lx, program, more) == AfterOptions(lx, program, ts)
  {
    var n := OptionWidth(lx, program, ts[0]).value;
    group, more := ts[..n], ts[n..];
  }

  lemma {:induction false} OptionsParse(lx: Lexicon, program: string, ts: Tokens)
    returns (options: seq<Tokens>, terminator: Tokens)
    requires AfterOptions(lx, program, ts).Some?
    ensures var rest := AfterOptions(lx, program, ts).value;
      && ts == Flat(options) + (terminator + rest)
      && OptionsOk(lx, program, options, terminator) && FollowOk(terminator, rest)
    decreases |ts|
  {
    var rest := AfterOptions(lx, program, ts).value;
    if ts == [] || !Dashed(ts[0]) {
      options, terminator := [], [];
      assert ts == Flat([]) + ([] + rest);
    } else if Terminates(program, ts[0]) {
      options, terminator := [], [ts[0]];
      assert ts == Flat([]) + ([ts[0]] + rest);
    } else {
      var group, after := FirstOption(lx, program, ts);
      var more;
      more, terminator := OptionsParse(lx, program, after);
      options := [group] + more;
      FlatCons(group, more, terminator + rest);
      OptionsCons(lx, program, group, more, terminator);
    }
  }

  lemma OptionsCons(lx: Lexicon, program: string, group: Tokens, more: seq<Tokens>, terminator: Tokens)
    requires OptionOk(lx, program, group) && OptionsOk(lx, program, more, terminator)
    ensures OptionsOk(lx, program, [group] + more, terminator)
  {
  }

  lemma FlatCons(group: Tokens, more: seq<Tokens>, rest: Tokens)
    ensures Flat([group] + more) + rest == group + (Flat(more) + rest)
  {
    assert ([group] + more)[0] == group && ([group] + more)[1..] == more;
  }

  lemma {:induction false} LaunchParse(lx: Lexicon, ts: Tokens) returns (launch: seq<Tokens>, forwarded: Tokens)
    requires LaunchOk(lx, ts)
    ensures ts == Flat(launch) + forwarded
    ensures forall i | 0 <= i < |launch| :: LaunchItemOk(lx, launch[i])
    ensures forwarded == [] || forwarded[0] == "--"
    decreases |ts|
  {
    if ts == [] || ts[0] == "--" {
      launch, forwarded := [], ts;
      assert ts == Flat([]) + ts;
    } else {
      var n := if WaitsForValue(lx, ts[0]) then 2 else 1;
      var more;
      more, forwarded := LaunchParse(lx, ts[n..]);
      var item := ts[..n];
      launch := [item] + more;
      assert launch[0] == item && launch[1..] == more;
      assert LaunchItemOk(lx, item);
      assert ts == item + ts[n..];
      assert ts == Flat(launch) + forwarded;
    }
  }

  lemma HcomRunsParse(lx: Lexicon, rest: Tokens) returns (count: Tokens, launch: seq<Tokens>, forwarded: Tokens)
    requires HcomRuns(lx, rest)
    ensures rest == count + (["codex"] + (Flat(launch) + forwarded))
    ensures count == [] || (|count| == 1 && IsCount(lx, count[0]) && count[0] == rest[0])
    ensures forall i | 0 <= i < |launch| :: LaunchItemOk(lx, launch[i])
    ensures forwarded == [] || forwarded[0] == "--"
  {
    count := if IsCount(lx, rest[0]) then [rest[0]] else [];
    var tail := rest[|count| + 1..];
    assert rest[|count|..][1..] == tail;
    launch, forwarded := LaunchParse(lx, tail);
    assert rest == count + (["codex"] + tail);
  }

  lemma HcomParse(lx: Lexicon, assignments: Tokens, ts: Tokens, rest: Tokens) returns (e: Ending)
    requires AssignmentsOk(lx, assignments) && ts != [] && !IsAssignment(lx, ts[0]) && Name(ts[0]) == "hcom"
    requires AfterOptions(lx, "hcom", ts[1..]) == Some(rest) && HcomRuns(lx, rest)
    ensures EndingOk(lx, e) && EndingYield(e) == assignments + ts
  {
    var options, terminator := OptionsParse(lx, "hcom", ts[1..]);
    var count, launch, forwarded := HcomRunsParse(lx, rest);
    e := Hcom(assignments, ts[0], options, terminator, count, launch, forwarded);
    assert ts == [ts[0]] + ts[1..];
  }

  /** The operand an accepted wrapper reads, and the command after it. */
  lemma OperandParse(lx: Lexicon, program: string, rest: Tokens) returns (operand: Tokens, more: Tokens)
    requires program in lx.wrappers && program != "hcom" && AcceptsOperands(lx, program, rest)
    ensures rest == operand + more && OperandOk(lx, program, operand) && Accepts(lx, more)
  {
    var n := if program == "timeout" || program == "flock" || (program == "rtk" && rest != [] && rest[0] == "proxy")
             then 1 else 0;
    operand, more := rest[..n], rest[n..];
  }

  lemma {:induction false} ChainParse(lx: Lexicon, assignments: Tokens, ts: Tokens)
    returns (links: seq<Link>, e: Ending)
    requires AssignmentsOk(lx, assignments) && Accepts(lx, ts)
    ensures ChainOk(lx, links, e) && Yield(links, e) == assignments + ts
    decreases |ts|, 2
  {
    if IsAssignment(lx, ts[0]) {
      links, e := ChainParse(lx, assignments + [ts[0]], ts[1..]);
      assert assignments + [ts[0]] + ts[1..] == assignments + ts;
    } else if Name(ts[0]) == "codex" {
      links := [];
      e := NativeParse(lx, assignments, ts);
    } else {
      links, e := WrapperParse(lx, assignments, ts);
    }
  }

  lemma NativeParse(lx: Lexicon, assignments: Tokens, ts: Tokens) returns (e: Ending)
    requires AssignmentsOk(lx, assignments) && ts != [] && !IsAssignment(lx, ts[0]) && Name(ts[0]) == "codex"
    ensures EndingOk(lx, e) && EndingYield(e) == assignments + ts
  {
    e := Native(assignments, ts[0], ts[1..]);
    assert ts == [ts[0]] + ts[1..];
  }

  lemma WrapperParse(lx: Lexicon, assignments: Tokens, ts: Tokens) returns (links: seq<Link>, e: Ending)
    requires AssignmentsOk(lx, assignments) && Accepts(lx, ts) && !IsAssignment(lx, ts[0]) && Name(ts[0]) != "codex"
    ensures ChainOk(lx, links, e) && Yield(links, e) == assignments + ts
    decreases |ts|, 1
  {
    var rest := WrapperReads(lx, ts);
    if Name(ts[0]) == "hcom" {
      links := [];
      e := HcomParse(lx, assignments, ts, rest);
    } else {
      links, e := LinkParse(lx, assignments, ts, rest);
    }
  }

  lemma WrapperReads(lx: Lexicon, ts: Tokens) returns (rest: Tokens)
    requires Accepts(lx, ts) && !IsAssignment(lx, ts[0]) && Name(ts[0]) != "codex"
    ensures Name(ts[0]) in lx.wrappers && AfterOptions(lx, Name(ts[0]), ts[1..]) == Some(rest)
    ensures AcceptsOperands(lx, Name(ts[0]), rest)
    ensures Name(ts[0]) == "hcom" ==> HcomRuns(lx, rest)
  {
    rest := AfterOptions(lx, Name(ts[0]), ts[1..]).value;
  }

  lemma LinkParse(lx: Lexicon, assignments: Tokens, ts: Tokens, rest: Tokens) returns (links: seq<Link>, e: Ending)
    requires AssignmentsOk(lx, assignments) && ts != [] && !IsAssignment(lx, ts[0])
    requires Name(ts[0]) in lx.wrappers && Name(ts[0]) != "hcom"
    requires AfterOptions(lx, Name(ts[0]), ts[1..]) == Some(rest) && AcceptsOperands(lx, Name(ts[0]), rest)
    ensures ChainOk(lx, links, e) && Yield(links, e) == assignments + ts
    decreases |ts|, 0
  {
    var options, terminator := OptionsParse(lx, Name(ts[0]), ts[1..]);
    var operand, more := OperandParse(lx, Name(ts[0]), rest);
    var tail;
    tail, e := ChainParse(lx, [], more);
    assert [] + more == more;
    links := [Link(assignments, ts[0], options, terminator, operand)] + tail;
    LinkYieldIs(Link(assignments, ts[0], options, terminator, operand), assignments, ts, more);
  }

  lemma LinkYieldIs(link: Link, assignments: Tokens, ts: Tokens, more: Tokens)
    requires link.assignments == assignments && ts != [] && link.program == ts[0]
    requires ts[1..] == Flat(link.options) + (link.terminator + (link.operand + more))
    ensures LinkYield(link) + more == assignments + ts
  {
    assert ts == [ts[0]] + ts[1..];
  }

  /** The automaton answers true exactly for the yields of chains of declared wrappers ending with codex in executable
      position. */
  lemma AcceptsExactlyTheChains(lx: Lexicon, ts: Tokens)
    requires Sensible(lx)
    ensures Accepts(lx, ts) <==> exists links, e :: ChainOk(lx, links, e) && Yield(links, e) == ts
  {
    if Accepts(lx, ts) {
      var links, e := ChainParse(lx, [], ts);
      assert [] + ts == ts;
    }
    forall links, e | ChainOk(lx, links, e) && Yield(links, e) == ts
      ensures Accepts(lx, ts)
    {
      ChainAccepted(lx, links, e);
    }
  }

  // ---------------------------------------------------------------- codex is a command, not an operand

  /** Where the executable position of a chain is. */
  function LinksLength(links: seq<Link>): nat {
    if links == [] then 0 else |LinkYield(links[0])| + LinksLength(links[1..])
  }

  function Executable(links: seq<Link>, e: Ending): nat {
    LinksLength(links) + EndingExecutable(e)
  }

  function EndingExecutable(e: Ending): nat {
    match e
    case Native(assignments, _, _) => |assignments|
    case Hcom(assignments, _, options, terminator, count, _, _) =>
      |assignments| + 1 + |Flat(options)| + |terminator| + |count|
  }

  lemma EndingIsCodex(lx: Lexicon, e: Ending)
    requires EndingOk(lx, e)
    ensures EndingExecutable(e) < |EndingYield(e)| && Name(EndingYield(e)[EndingExecutable(e)]) == "codex"
  {
    PlainName("codex");
    match e
    case Native(assignments, program, arguments) =>
    case Hcom(assignments, program, options, terminator, count, launch, forwarded) =>
  }

  /** At the executable position of every chain stands a token naming codex; the tokens before it are the chain's
      assignments, programs, options with their values, terminators and operands, so it is none of those. */
  lemma ExecutableIsCodex(lx: Lexicon, links: seq<Link>, e: Ending)
    requires ChainOk(lx, links, e)
    ensures Executable(links, e) < |Yield(links, e)| && Name(Yield(links, e)[Executable(links, e)]) == "codex"
  {
    ChainEnds(lx, links, e);
    EndingIsCodex(lx, e);
    ExecutableIsInTheEnding(links, e);
  }

  lemma {:induction false} ChainEnds(lx: Lexicon, links: seq<Link>, e: Ending)
    requires ChainOk(lx, links, e)
    ensures EndingOk(lx, e)
  {
    if links != [] {
      ChainEnds(lx, links[1..], e);
    }
  }

  lemma {:induction false} ExecutableIsInTheEnding(links: seq<Link>, e: Ending)
    requires EndingExecutable(e) < |EndingYield(e)|
    ensures Executable(links, e) < |Yield(links, e)|
    ensures Yield(links, e)[Executable(links, e)] == EndingYield(e)[EndingExecutable(e)]
  {
    if links != [] {
      ExecutableIsInTheEnding(links[1..], e);
      var head, tail := LinkYield(links[0]), Yield(links[1..], e);
      assert Yield(links, e) == head + tail && Executable(links, e) == |head| + Executable(links[1..], e);
    }
  }

  /** flock's operand is consumed even when it is spelled codex. */
  lemma OperandsAreNotCommands(lx: Lexicon)
    requires !IsAssignment(lx, "flock") && !IsAssignment(lx, "sleep")
    ensures !Accepts(lx, ["flock", "codex", "sleep"])
  {
    PlainName("flock");
    PlainName("sleep");
    var ts := ["flock", "codex", "sleep"];
    assert ts[1..] == ["codex", "sleep"] && ["codex", "sleep"][1..] == ["sleep"];
    assert AfterOptions(lx, "flock", ["codex", "sleep"]) == Some(["codex", "sleep"]);
  }

  /** And over the declared ones: true exactly for the chains of the source's wrappers that end with codex. */
  method DeclaredShortFlag(word: char -> bool, decimal: char -> bool, digit: char -> bool, prefix: Tokens)
    returns (b: bool)
    requires !digit('c')
    ensures b <==> exists links, e :: ChainOk(Declared(word, decimal, digit), links, e) && Yield(links, e) == prefix
  {
    var lx := Declared(word, decimal, digit);
    b := NativeShortFlag(lx, prefix);
    AcceptsExactlyTheChains(lx, prefix);
  }
}
