/** Where the line limit makes the reader depend on how reads cut the bytes, and where it does not. */
module AppServerCuts {
  import opened Wrappers
  import opened Json
  import opened AppServer
  import opened AppServerLaws

  // ---------------------------------------------------------------- one line, in any stream

  /** How many bytes are in the buffer after i more events, when no line has been taken out. */
  function Held(s: Stream, i: nat): nat
    requires i <= |s.feed|
  {
    |s.buffer| + |Coming(s.feed[..i])|
  }

  /** Some read leaves more than a line's limit in the buffer, and still not the end of the line of n bytes. */
  predicate Overruns(s: Stream, n: nat) {
    exists i | 0 <= i <= |s.feed| :: MAX_LINE_BYTES < Held(s, i) <= n
  }

  predicate WithinTotal(s: Stream) {
    s.total + |Coming(s.feed)| <= MAX_TOTAL_BYTES
  }

  lemma OverrunsLater(s: Stream, t: Stream, n: nat)
    requires s.feed != [] && t.feed == s.feed[1..] && t.buffer == s.buffer + Coming(s.feed[..1])
    requires s.feed[0].Chunk? || s.feed[0].NotReady?
    ensures Overruns(s, n) <==> MAX_LINE_BYTES < |s.buffer| <= n || Overruns(t, n)
  {
    forall i | 1 <= i <= |s.feed|
      ensures Held(s, i) == Held(t, i - 1)
    {
      assert s.feed[..i][1..] == t.feed[..i - 1];
      assert s.feed[..1][1..] == [];
    }
    assert Held(s, 0) == |s.buffer|;
    if Overruns(t, n) {
      var i :| 0 <= i <= |t.feed| && MAX_LINE_BYTES < Held(t, i) <= n;
      assert Held(s, i + 1) == Held(t, i);
    }
  }

  /** A buffer that holds less than the line holds no newline, and one that holds more holds the line. */
  lemma LineInBuffer(buffer: Bytes, coming: Bytes, line: Bytes, rest: Bytes)
    requires buffer + coming == line + [NEWLINE] + rest && NEWLINE !in line
    ensures |buffer| <= |line| ==> Find(buffer) == None
    ensures |buffer| > |line| ==> Find(buffer) == Some(|line|) && buffer[..|line|] == line
                                  && buffer[|line| + 1..] + coming == rest
  {
    var all := line + [NEWLINE] + rest;
    assert forall i | 0 <= i < |buffer| :: buffer[i] == all[i];
    if |buffer| <= |line| {
      assert forall i | 0 <= i < |buffer| :: buffer[i] == line[i];
    } else {
      var more := buffer[|line| + 1..];
      assert buffer[|line|] == NEWLINE;
      assert buffer[..|line|] == line;
      FindIsFirst(buffer, |line|);
      assert more + coming == (buffer + coming)[|line| + 1..];
      assert all[|line| + 1..] == rest;
    }
  }

  /** Exactly when the next line of a stream is refused: when some read ends inside it with more than the limit in the
      buffer. Otherwise it is read, and only what follows it is left. */
  lemma {:induction false} RefusedExactlyWhen(parse: Parser, s: Stream, line: Bytes, m: Fields, rest: Bytes)
    requires BytesOf(s) == line + [NEWLINE] + rest && NEWLINE !in line && parse(line) == Some(m) && WithinTotal(s)
    ensures var (r, t) := Read(parse, s);
      if Overruns(s, |line|) then r == Failure(LineTooLong) else r == Success(m) && BytesOf(t) == rest
    decreases |s.feed|
  {
    LineInBuffer(s.buffer, Coming(s.feed), line, rest);
    if |s.buffer| > |line| {
      NeverOverruns(s, |line|);
    } else if |s.buffer| > MAX_LINE_BYTES {
      assert Held(s, 0) == |s.buffer|;
    } else {
      var next := Next(s);
      OverrunsLater(s, next, |line|);
      RefusedExactlyWhen(parse, next, line, m, rest);
    }
  }

  lemma NeverOverruns(s: Stream, n: nat)
    requires |s.buffer| > n
    ensures !Overruns(s, n)
  {
  }

  // ---------------------------------------------------------------- every way of cutting the same bytes

  /** The server wrote b, and reads returned it in these pieces. */
  predicate Cuts(feed: seq<Feed>, b: Bytes) {
    ChunksOk(feed) && Coming(feed) == b
  }

  function Fresh(feed: seq<Feed>): Stream { Stream([], 0, feed) }

  lemma {:induction false} ComingConcat(x: seq<Feed>, y: seq<Feed>)
    requires forall i | 0 <= i < |x| :: x[i].Chunk?
    ensures Coming(x + y) == Coming(x) + Coming(y)
  {
    if x == [] {
      assert x + y == y;
    } else {
      assert (x + y)[0] == x[0] && (x + y)[1..] == x[1..] + y;
      ComingConcat(x[1..], y);
    }
  }

  /** b in pieces of the size a read asks for. */
  function Chop(b: Bytes): (feed: seq<Feed>)
    ensures ChunksOk(feed) && (forall i | 0 <= i < |feed| :: feed[i].Chunk?) && Coming(feed) == b
  {
    if b == [] then []
    else if |b| <= READ_BYTES then assert [Chunk(b)][1..] == []; [Chunk(b)]
    else
      var feed := [Chunk(b[..READ_BYTES])] + Chop(b[READ_BYTES..]);
      assert feed[1..] == Chop(b[READ_BYTES..]);
      feed
  }

  /** More events never bring fewer bytes. */
  lemma {:induction false} ComingGrows(feed: seq<Feed>, i: nat, j: nat)
    requires i <= j <= |feed|
    ensures |Coming(feed[..i])| <= |Coming(feed[..j])|
    decreases i
  {
    if i > 0 {
      assert feed[..i][1..] == feed[1..][..i - 1] && feed[..j][1..] == feed[1..][..j - 1];
      ComingGrows(feed[1..], i - 1, j - 1);
    }
  }

  /** One more event brings at most one read. */
  lemma {:induction false} ComingStep(feed: seq<Feed>, i: nat)
    requires ChunksOk(feed) && i < |feed|
    ensures |Coming(feed[..i + 1])| <= |Coming(feed[..i])| + READ_BYTES
    decreases i
  {
    assert feed[..i + 1][1..] == feed[1..][..i];
    if i > 0 {
      assert feed[..i][1..] == feed[1..][..i - 1];
      ComingStep(feed[1..], i - 1);
    }
  }

  /** A line at least one read longer than the limit is met inside, however it is cut. */
  lemma {:induction false} AlwaysOverruns(s: Stream, n: nat, j: nat)
    requires ChunksOk(s.feed) && |s.buffer| <= MAX_LINE_BYTES + READ_BYTES <= n && j <= |s.feed|
    requires Held(s, j) > MAX_LINE_BYTES
    ensures Overruns(s, n)
    decreases j
  {
    if j == 0 {
      assert MAX_LINE_BYTES < Held(s, 0) <= n;
    } else if Held(s, j - 1) > MAX_LINE_BYTES {
      AlwaysOverruns(s, n, j - 1);
    } else {
      ComingStep(s.feed, j - 1);
      assert MAX_LINE_BYTES < Held(s, j) <= n;
    }
  }

  /** A cut that ends a read one byte past the limit. */
  function LosingCut(b: Bytes): seq<Feed>
    requires |b| > MAX_LINE_BYTES
  {
    Chop(b[..MAX_LINE_BYTES + 1]) + Chop(b[MAX_LINE_BYTES + 1..])
  }

  /** A cut that ends a read at the limit and brings the rest of a line of n bytes, with its newline, in the next. */
  function ReadingCut(b: Bytes, n: nat): seq<Feed>
    requires MAX_LINE_BYTES < n < |b|
  {
    Chop(b[..MAX_LINE_BYTES]) + ([Chunk(b[MAX_LINE_BYTES..n + 1])] + Chop(b[n + 1..]))
  }

  lemma LosingCutLoses(b: Bytes, n: nat)
    requires MAX_LINE_BYTES < n < |b|
    ensures Cuts(LosingCut(b), b) && Overruns(Fresh(LosingCut(b)), n)
  {
    var x, y := Chop(b[..MAX_LINE_BYTES + 1]), Chop(b[MAX_LINE_BYTES + 1..]);
    ComingConcat(x, y);
    assert (x + y)[..|x|] == x;
    assert Held(Fresh(x + y), |x|) == MAX_LINE_BYTES + 1;
  }

  lemma ReadingCutReads(b: Bytes, n: nat)
    requires MAX_LINE_BYTES < n < MAX_LINE_BYTES + READ_BYTES && n < |b|
    ensures Cuts(ReadingCut(b, n), b) && !Overruns(Fresh(ReadingCut(b, n)), n)
  {
    var x, y := Chop(b[..MAX_LINE_BYTES]), Chop(b[n + 1..]);
    var middle := [Chunk(b[MAX_LINE_BYTES..n + 1])];
    var feed := x + (middle + y);
    assert middle[1..] == [];
    assert Coming(middle) == b[MAX_LINE_BYTES..n + 1];
    ComingConcat(middle, y);
    ComingConcat(x, middle + y);
    ComingConcat(x, middle);
    assert feed[..|x|] == x && feed[..|x| + 1] == x + middle;
    forall i | 0 <= i <= |feed|
      ensures !(MAX_LINE_BYTES < Held(Fresh(feed), i) <= n)
    {
      if i <= |x| {
        ComingGrows(feed, i, |x|);
      } else {
        ComingGrows(feed, |x| + 1, i);
      }
    }
  }

  ghost predicate AlwaysRead(parse: Parser, b: Bytes, m: Fields) {
    forall feed | Cuts(feed, b) :: Read(parse, Fresh(feed)).0 == Success(m)
  }

  ghost predicate AlwaysRefused(parse: Parser, b: Bytes) {
    forall feed | Cuts(feed, b) :: Read(parse, Fresh(feed)).0 == Failure(LineTooLong)
  }

  lemma CutDecides(parse: Parser, feed: seq<Feed>, line: Bytes, m: Fields, rest: Bytes)
    requires Cuts(feed, line + [NEWLINE] + rest) && |line| + 1 + |rest| <= MAX_TOTAL_BYTES
    requires NEWLINE !in line && parse(line) == Some(m)
    ensures Read(parse, Fresh(feed)).0 == if Overruns(Fresh(feed), |line|) then Failure(LineTooLong) else Success(m)
  {
    assert BytesOf(Fresh(feed)) == line + [NEWLINE] + rest;
    RefusedExactlyWhen(parse, Fresh(feed), line, m, rest);
  }

  /** Chunk boundaries decide about a message exactly when its line is over the limit by less than one read: a shorter
      line is read and a longer one is refused in every cut, and in between one cut returns the message and another
      loses it. */
  lemma CutsMatterExactlyBetween(parse: Parser, line: Bytes, m: Fields, rest: Bytes)
    requires NEWLINE !in line && parse(line) == Some(m) && |line| + 1 + |rest| <= MAX_TOTAL_BYTES
    ensures AlwaysRead(parse, line + [NEWLINE] + rest, m) <==> |line| <= MAX_LINE_BYTES
    ensures AlwaysRefused(parse, line + [NEWLINE] + rest) <==> |line| >= MAX_LINE_BYTES + READ_BYTES
    ensures MAX_LINE_BYTES < |line| < MAX_LINE_BYTES + READ_BYTES ==>
      var b := line + [NEWLINE] + rest;
      && Cuts(ReadingCut(b, |line|), b) && Read(parse, Fresh(ReadingCut(b, |line|))).0 == Success(m)
      && Cuts(LosingCut(b), b) && Read(parse, Fresh(LosingCut(b))).0 == Failure(LineTooLong)
  {
    var b, n := line + [NEWLINE] + rest, |line|;
    forall feed | Cuts(feed, b)
      ensures n <= MAX_LINE_BYTES ==> Read(parse, Fresh(feed)).0 == Success(m)
      ensures n >= MAX_LINE_BYTES + READ_BYTES ==> Read(parse, Fresh(feed)).0 == Failure(LineTooLong)
    {
      CutDecides(parse, feed, line, m, rest);
      if n >= MAX_LINE_BYTES + READ_BYTES {
        assert feed[..|feed|] == feed;
        AlwaysOverruns(Fresh(feed), n, |feed|);
      }
    }
    if n > MAX_LINE_BYTES {
      LosingCutLoses(b, n);
      CutDecides(parse, LosingCut(b), line, m, rest);
      assert !AlwaysRead(parse, b, m);
    }
    if n < MAX_LINE_BYTES + READ_BYTES {
      var feed := if n > MAX_LINE_BYTES then ReadingCut(b, n) else Chop(b);
      if n > MAX_LINE_BYTES {
        ReadingCutReads(b, n);
      }
      CutDecides(parse, feed, line, m, rest);
      assert !AlwaysRefused(parse, b);
    }
  }
}
