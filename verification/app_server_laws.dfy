/** What the reader returns depends on the bytes and not on how reads cut them, and what a request returns and
    writes depends on the messages alone. */
module AppServerLaws {
  import opened Wrappers
  import opened Json
  import opened AppServer

  // ---------------------------------------------------------------- the bytes of a stream

  /** The bytes that still come before the deadline or the end of output. */
  function Coming(feed: seq<Feed>): Bytes {
    if feed == [] then []
    else
      match feed[0]
      case Chunk(data) => data + Coming(feed[1..])
      case NotReady => Coming(feed[1..])
      case _ => []
  }

  /** How the output ends. */
  function EndOf(feed: seq<Feed>): ProbeError {
    if feed == [] then TimedOut
    else
      match feed[0]
      case Deadline => TimedOut
      case Closed => OutputClosed
      case _ => EndOf(feed[1..])
  }

  function BytesOf(s: Stream): Bytes {
    s.buffer + Coming(s.feed)
  }

  /** The first line that is a message, and the bytes after it. */
  function FirstMessage(parse: Parser, b: Bytes): Option<(Fields, Bytes)> {
    match Find(b)
    case None => None
    case Some(n) =>
      match parse(b[..n])
      case Some(m) => Some((m, b[n + 1..]))
      case None => FirstMessage(parse, b[n + 1..])
  }

  /** Every run of bytes without a newline is short enough. */
  predicate LinesFit(b: Bytes) {
    forall i, j | 0 <= i <= j <= |b| && NEWLINE !in b[i..j] :: j - i <= MAX_LINE_BYTES
  }

  predicate WithinLimits(s: Stream) {
    LinesFit(BytesOf(s)) && s.total + |Coming(s.feed)| <= MAX_TOTAL_BYTES
  }

  /** The stream after one more event. */
  function Next(s: Stream): (t: Stream)
    requires s.feed != [] && (s.feed[0].Chunk? || s.feed[0].NotReady?)
    ensures BytesOf(t) == BytesOf(s) && t.total + |Coming(t.feed)| == s.total + |Coming(s.feed)|
    ensures t.feed == s.feed[1..] && t.buffer == s.buffer + Coming(s.feed[..1])
  {
    assert s.feed[..1][1..] == [];
    match s.feed[0]
    case Chunk(data) => Stream(s.buffer + data, s.total + |data|, s.feed[1..])
    case NotReady => s.(feed := s.feed[1..])
  }

  lemma {:induction false} FindIsFirst(b: Bytes, n: nat)
    requires n < |b| && b[n] == NEWLINE && NEWLINE !in b[..n]
    ensures Find(b) == Some(n)
  {
    if n > 0 {
      assert b[0] == b[..n][0];
      assert b[1..][..n - 1] == b[..n][1..];
      FindIsFirst(b[1..], n - 1);
    }
  }

  lemma FindInPrefix(b: Bytes, more: Bytes)
    requires Find(b).Some?
    ensures Find(b + more) == Find(b)
  {
    var n := Find(b).value;
    assert (b + more)[..n] == b[..n];
    FindIsFirst(b + more, n);
  }

  lemma LinesFitSuffix(b: Bytes, n: nat)
    requires LinesFit(b) && n <= |b|
    ensures LinesFit(b[n..])
  {
    forall i, j | 0 <= i <= j <= |b[n..]| && NEWLINE !in b[n..][i..j]
      ensures j - i <= MAX_LINE_BYTES
    {
      assert b[n..][i..j] == b[n + i..n + j];
    }
  }

  // ---------------------------------------------------------------- one message

  /** Within the limits a read gives the first message of the bytes and leaves the bytes after it, or, when there is
      none, reports how the output ended; how the bytes were cut into chunks appears nowhere. */
  lemma {:induction false} ReadDependsOnBytes(parse: Parser, s: Stream)
    requires WithinLimits(s)
    ensures var (r, t) := Read(parse, s);
      match FirstMessage(parse, BytesOf(s))
      case Some((m, rest)) => r == Success(m) && BytesOf(t) == rest && EndOf(t.feed) == EndOf(s.feed) && WithinLimits(t)
      case None => r == Failure(EndOf(s.feed))
    decreases |s.feed|, |s.buffer|
  {
    var b := BytesOf(s);
    match Find(s.buffer)
    case Some(n) =>
      FindInPrefix(s.buffer, Coming(s.feed));
      var rest := s.(buffer := s.buffer[n + 1..]);
      assert b[..n] == s.buffer[..n] && b[n + 1..] == BytesOf(rest);
      LinesFitSuffix(b, n + 1);
      if parse(s.buffer[..n]).None? {
        ReadDependsOnBytes(parse, rest);
      }
    case None =>
      assert b[0..|s.buffer|] == s.buffer;
      assert |s.buffer| <= MAX_LINE_BYTES;
      if s.feed == [] || s.feed[0].Deadline? || s.feed[0].Closed? {
        assert b == s.buffer;
      } else {
        ReadDependsOnBytes(parse, Next(s));
      }
  }

  lemma FirstLineOfBuffer(s: Stream, n: nat)
    requires Find(s.buffer) == Some(n)
    ensures Find(BytesOf(s)) == Some(n) && BytesOf(s)[..n] == s.buffer[..n]
    ensures BytesOf(s)[n + 1..] == BytesOf(s.(buffer := s.buffer[n + 1..]))
  {
    FindInPrefix(s.buffer, Coming(s.feed));
  }

  /** Where no line is complete, the read goes on, or ends there for one of the four reasons. */
  lemma ReadGoesOn(parse: Parser, s: Stream)
    requires Find(s.buffer) == None
    ensures var r := Read(parse, s);
      || r.0 == Failure(LineTooLong) || r.0 == Failure(TooMuchOutput)
      || (r.0 == Failure(EndOf(s.feed)) && Coming(s.feed) == [])
      || (s.feed != [] && (s.feed[0].Chunk? || s.feed[0].NotReady?) && r == Read(parse, Next(s)))
  {
    if |s.buffer| <= MAX_LINE_BYTES && s.feed != [] {
      match s.feed[0]
      case Chunk(data) =>
        if s.total + |data| <= MAX_TOTAL_BYTES {
          assert Next(s) == Stream(s.buffer + data, s.total + |data|, s.feed[1..]);
        }
      case NotReady => assert Next(s) == s.(feed := s.feed[1..]);
      case _ =>
    }
  }

  lemma {:induction false} OutcomeIsSound(parse: Parser, s: Stream)
    ensures var (r, t) := Read(parse, s);
      && (r.Success? ==> FirstMessage(parse, BytesOf(s)) == Some((r.value, BytesOf(t))))
      && (r == Failure(TimedOut) || r == Failure(OutputClosed) ==> FirstMessage(parse, BytesOf(s)) == None)
    decreases |s.feed|, |s.buffer|
  {
    match Find(s.buffer)
    case Some(n) =>
      FirstLineOfBuffer(s, n);
      if parse(s.buffer[..n]).None? {
        OutcomeIsSound(parse, s.(buffer := s.buffer[n + 1..]));
      }
    case None =>
      ReadGoesOn(parse, s);
      if Coming(s.feed) == [] {
        assert BytesOf(s) == s.buffer;
      }
      if s.feed != [] && (s.feed[0].Chunk? || s.feed[0].NotReady?) {
        OutcomeIsSound(parse, Next(s));
      }
  }

  lemma {:induction false} LimitIsBroken(parse: Parser, s: Stream)
    ensures var r := Read(parse, s).0;
      && (r == Failure(LineTooLong) ==> !LinesFit(BytesOf(s)))
      && (r == Failure(TooMuchOutput) ==> s.total + |Coming(s.feed)| > MAX_TOTAL_BYTES)
      && (r.Failure? ==> r.error in {LineTooLong, TooMuchOutput, TimedOut, OutputClosed})
    decreases |s.feed|, |s.buffer|
  {
    match Find(s.buffer)
    case Some(n) =>
      FirstLineOfBuffer(s, n);
      if parse(s.buffer[..n]).None? {
        LimitIsBroken(parse, s.(buffer := s.buffer[n + 1..]));
        if LinesFit(BytesOf(s)) {
          LinesFitSuffix(BytesOf(s), n + 1);
        }
      }
    case None =>
      assert BytesOf(s)[0..|s.buffer|] == s.buffer;
      if |s.buffer| <= MAX_LINE_BYTES && s.feed != [] && !s.feed[0].Deadline? && !s.feed[0].Closed? {
        LimitIsBroken(parse, Next(s));
      }
  }

  /** With no limits assumed: a message that is returned is always the first message of the bytes; a line is reported
      too long only if the bytes hold such a line; output is reported too large only if it is. */
  lemma ReadIsAlwaysSound(parse: Parser, s: Stream)
    ensures var (r, t) := Read(parse, s);
      && (r.Success? ==> FirstMessage(parse, BytesOf(s)) == Some((r.value, BytesOf(t))))
      && (r == Failure(LineTooLong) ==> !LinesFit(BytesOf(s)))
      && (r == Failure(TooMuchOutput) ==> s.total + |Coming(s.feed)| > MAX_TOTAL_BYTES)
      && (r == Failure(TimedOut) || r == Failure(OutputClosed) ==> FirstMessage(parse, BytesOf(s)) == None)
      && (r.Failure? ==> r.error in {LineTooLong, TooMuchOutput, TimedOut, OutputClosed})
  {
    OutcomeIsSound(parse, s);
    LimitIsBroken(parse, s);
  }

  // ---------------------------------------------------------------- every message of a stream

  /** The messages n successive reads return, stopping at the first failure. */
  function Messages(parse: Parser, s: Stream, n: nat): seq<Fields>
    decreases n
  {
    if n == 0 then []
    else
      match Read(parse, s)
      case (Success(m), t) => [m] + Messages(parse, t, n - 1)
      case (Failure(_), _) => []
  }

  /** Chunk independence: two streams with the same bytes, both within the limits, give the same messages for ever,
      however differently their bytes were cut into reads. */
  lemma {:induction false} MessagesDependOnBytes(parse: Parser, s: Stream, t: Stream, n: nat)
    requires WithinLimits(s) && WithinLimits(t) && BytesOf(s) == BytesOf(t)
    ensures Messages(parse, s, n) == Messages(parse, t, n)
    decreases n
  {
    if n > 0 {
      ReadDependsOnBytes(parse, s);
      ReadDependsOnBytes(parse, t);
      if FirstMessage(parse, BytesOf(s)).Some? {
        MessagesDependOnBytes(parse, Read(parse, s).1, Read(parse, t).1, n - 1);
      }
    }
  }

  // ---------------------------------------------------------------- one request

  /** The replies owed to the server requests among some messages, one each, in order. */
  function Replies(ms: seq<Fields>): seq<Sent> {
    if ms == [] then []
    else
      var last := ms[|ms| - 1];
      Replies(ms[..|ms| - 1]) + if IsServerRequest(last) then [MethodNotFound(last["id"])] else []
  }

  /** ms are successive messages of b, and rest is what follows them. */
  ghost predicate ReadsInOrder(parse: Parser, b: Bytes, ms: seq<Fields>, rest: Bytes)
    decreases |ms|
  {
    if ms == [] then b == rest
    else FirstMessage(parse, b).Some? && FirstMessage(parse, b).value.0 == ms[0]
         && ReadsInOrder(parse, FirstMessage(parse, b).value.1, ms[1..], rest)
  }

  lemma RepliesCons(m: Fields, ms: seq<Fields>)
    ensures Replies([m] + ms) == (if IsServerRequest(m) then [MethodNotFound(m["id"])] else []) + Replies(ms)
  {
    var all := [m] + ms;
    if ms == [] {
      assert all[..0] == [];
    } else {
      RepliesCons(m, ms[..|ms| - 1]);
      assert all[..|all| - 1] == [m] + ms[..|ms| - 1];
    }
  }

  predicate FromAnswer(r: Result<Fields, ProbeError>) {
    r.Success? || r.error.ServerError? || r.error.MalformedError? || r.error.ResultNotObject?
  }

  /** ms is what a request read from session s before ending with outcome r in session t: the last message is the first
      that answers it, and exactly one reply was written for each server request before it, in order, nothing else. */
  ghost predicate Answered(
      parse: Parser, id: int, s: Session, ms: seq<Fields>, r: Result<Fields, ProbeError>, t: Session) {
    && ms != [] && IsAnswer(ms[|ms| - 1], id) && r == Answer(ms[|ms| - 1])
    && (forall i | 0 <= i < |ms| - 1 :: !IsAnswer(ms[i], id))
    && ReadsInOrder(parse, BytesOf(s.stream), ms, BytesOf(t.stream))
    && t.sent == s.sent + Replies(ms)
  }

  lemma AnsweredCons(parse: Parser, id: int, s: Session, m: Fields, u: Session, ms: seq<Fields>,
                     r: Result<Fields, ProbeError>, t: Session)
    requires Answered(parse, id, u, ms, r, t) && !IsAnswer(m, id)
    requires FirstMessage(parse, BytesOf(s.stream)) == Some((m, BytesOf(u.stream)))
    requires u.sent == s.sent + if IsServerRequest(m) then [MethodNotFound(m["id"])] else []
    ensures Answered(parse, id, s, [m] + ms, r, t)
  {
    RepliesCons(m, ms);
    assert ([m] + ms)[1..] == ms;
  }

  /** A request that ends on an answer, good or bad, ends on the first message of the bytes that carries its id. */
  lemma {:induction false} RequestAnswersTheFirstMatch(parse: Parser, id: int, s: Session) returns (ms: seq<Fields>)
    ensures var (r, t) := Receive(parse, id, s);
      FromAnswer(r) ==> Answered(parse, id, s, ms, r, t)
    decreases |s.stream.feed|, |s.stream.buffer|
  {
    ReadIsAlwaysSound(parse, s.stream);
    var (r, stream) := Read(parse, s.stream);
    var t := s.(stream := stream);
    ms := [];
    if r.Success? {
      var m := r.value;
      ReadConsumes(parse, s.stream);
      if IsServerRequest(m) {
        if s.writable > 0 {
          var u := t.(sent := s.sent + [MethodNotFound(m["id"])], writable := s.writable - 1);
          ms := RequestAnswersTheFirstMatch(parse, id, u);
          if FromAnswer(Receive(parse, id, u).0) {
            AnsweredCons(parse, id, s, m, u, ms, Receive(parse, id, u).0, Receive(parse, id, u).1);
          }
          ms := [m] + ms;
        }
      } else if IsAnswer(m, id) {
        ms := [m];
        assert ms[..0] == [] && ms[1..] == [];
        assert Replies(ms) == [];
        assert t.sent == s.sent + [];
      } else {
        ms := RequestAnswersTheFirstMatch(parse, id, t);
        if FromAnswer(Receive(parse, id, t).0) {
          AnsweredCons(parse, id, s, m, t, ms, Receive(parse, id, t).0, Receive(parse, id, t).1);
        }
        ms := [m] + ms;
      }
    }
  }

  /** The same session, except possibly for how its bytes are cut. */
  predicate SameBytes(s: Session, t: Session) {
    && s.sent == t.sent && s.writable == t.writable
    && WithinLimits(s.stream) && WithinLimits(t.stream)
    && BytesOf(s.stream) == BytesOf(t.stream) && EndOf(s.stream.feed) == EndOf(t.stream.feed)
  }

  /** Within the limits, the outcome of a request and everything it writes depend on the bytes alone. */
  lemma {:induction false} ReceiveDependsOnBytes(parse: Parser, id: int, s: Session, t: Session)
    requires SameBytes(s, t)
    ensures Receive(parse, id, s).0 == Receive(parse, id, t).0
    ensures Receive(parse, id, s).1.sent == Receive(parse, id, t).1.sent
    decreases |s.stream.feed|, |s.stream.buffer|
  {
    ReadDependsOnBytes(parse, s.stream);
    ReadDependsOnBytes(parse, t.stream);
    var (r, stream) := Read(parse, s.stream);
    if r.Success? {
      ReadConsumes(parse, s.stream);
      ReadConsumes(parse, t.stream);
      var m := r.value;
      var u, v := s.(stream := stream), t.(stream := Read(parse, t.stream).1);
      if IsServerRequest(m) {
        if s.writable > 0 {
          ReceiveDependsOnBytes(parse, id,
                                u.(sent := s.sent + [MethodNotFound(m["id"])], writable := s.writable - 1),
                                v.(sent := t.sent + [MethodNotFound(m["id"])], writable := t.writable - 1));
        }
      } else if !IsAnswer(m, id) {
        ReceiveDependsOnBytes(parse, id, u, v);
      }
    }
  }

  lemma ExchangeDependsOnBytes(parse: Parser, id: int, name: string, s: Session, t: Session)
    requires SameBytes(s, t)
    ensures Exchange(parse, id, name, s).0 == Exchange(parse, id, name, t).0
    ensures Exchange(parse, id, name, s).1.sent == Exchange(parse, id, name, t).1.sent
  {
    if s.writable > 0 {
      ReceiveDependsOnBytes(parse, id, s.(sent := s.sent + [Asked(id, name)], writable := s.writable - 1),
                            t.(sent := t.sent + [Asked(id, name)], writable := t.writable - 1));
    }
  }
}
