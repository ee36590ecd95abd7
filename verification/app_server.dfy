/** AppServer.message and AppServer.request of scripts/codex_quota.py: newline-framed messages read in chunks, and the
    reply to a request picked out of the other traffic. */
module AppServer {
  import opened Wrappers
  import opened Json

  newtype byte = x: int | 0 <= x < 256

  type Bytes = seq<byte>

  const NEWLINE: byte := 10
  const MAX_LINE_BYTES: nat := 0x10_0000
  const MAX_TOTAL_BYTES: nat := 0x80_0000
  const READ_BYTES: nat := 65536

  /** json.loads on one line, kept only when the value is an object. */
  type Parser = Bytes -> Option<Fields>

  datatype ProbeError =
    | LineTooLong | TimedOut | OutputClosed | TooMuchOutput | InputClosed
    | ServerError(code: Json) | MalformedError | ResultNotObject

  /** What one wait for output comes to. */
  datatype Feed = Chunk(data: Bytes) | NotReady | Deadline | Closed

  /** The reader's fields and the output still to come; with nothing more to come the deadline passes. */
  datatype Stream = Stream(buffer: Bytes, total: nat, feed: seq<Feed>)

  // ---------------------------------------------------------------- one message

  function Find(b: Bytes): (n: Option<nat>)
    ensures n.Some? ==> n.value < |b| && b[n.value] == NEWLINE && NEWLINE !in b[..n.value]
    ensures n.None? ==> NEWLINE !in b
  {
    if b == [] then None
    else if b[0] == NEWLINE then Some(0)
    else
      match Find(b[1..])
      case None => None
      case Some(n) => assert b[..n + 1] == [b[0]] + b[1..][..n]; Some(n + 1)
  }

  /** AppServer.message as a function of the stream. */
  function Read(parse: Parser, s: Stream): (Result<Fields, ProbeError>, Stream)
    decreases |s.feed|, |s.buffer|
  {
    match Find(s.buffer)
    case Some(n) =>
      var rest := s.(buffer := s.buffer[n + 1..]);
      (match parse(s.buffer[..n])
       case Some(m) => (Success(m), rest)
       case None => Read(parse, rest))
    case None =>
      if |s.buffer| > MAX_LINE_BYTES then (Failure(LineTooLong), s)
      else if s.feed == [] then (Failure(TimedOut), s)
      else
        match s.feed[0]
        case Deadline => (Failure(TimedOut), s)
        case NotReady => Read(parse, s.(feed := s.feed[1..]))
        case Closed => (Failure(OutputClosed), s)
        case Chunk(data) =>
          if s.total + |data| > MAX_TOTAL_BYTES
          then (Failure(TooMuchOutput), s.(total := s.total + |data|, feed := s.feed[1..]))
          else Read(parse, Stream(s.buffer + data, s.total + |data|, s.feed[1..]))
  }

  // ---------------------------------------------------------------- one request

  datatype Sent = Asked(request: int, name: string) | MethodNotFound(id: Json)

  /** The stream, what was written, and how many more messages the server's input takes. */
  datatype Session = Session(stream: Stream, sent: seq<Sent>, writable: nat)

  /** The message's id equals the request's; true also counts as 1 and false as 0. */
  predicate Carries(m: Fields, id: int) {
    match Get(m, "id")
    case Num(x) => x == id as real
    case Bool(b) => id == if b then 1 else 0
    case _ => false
  }

  predicate IsAnswer(m: Fields, id: int) {
    "method" !in m && Carries(m, id)
  }

  predicate IsServerRequest(m: Fields) {
    "method" in m && "id" in m
  }

  function Answer(m: Fields): Result<Fields, ProbeError> {
    match Get(m, "error")
    case Null => (match Get(m, "result") case Obj(result) => Success(result) case _ => Failure(ResultNotObject))
    case Obj(error) => Failure(ServerError(Get(error, "code")))
    case _ => Failure(MalformedError)
  }

  lemma {:induction false} ReadConsumes(parse: Parser, s: Stream)
    ensures Read(parse, s).0.Success? ==>
              |Read(parse, s).1.feed| < |s.feed|
              || (|Read(parse, s).1.feed| == |s.feed| && |Read(parse, s).1.buffer| < |s.buffer|)
    decreases |s.feed|, |s.buffer|
  {
    match Find(s.buffer)
    case Some(n) =>
      ReadConsumes(parse, s.(buffer := s.buffer[n + 1..]));
    case None =>
      if s.feed != [] {
        match s.feed[0]
        case NotReady => ReadConsumes(parse, s.(feed := s.feed[1..]));
        case Chunk(data) => ReadConsumes(parse, Stream(s.buffer + data, s.total + |data|, s.feed[1..]));
        case _ =>
      }
  }

  /** The receive loop of AppServer.request. */
  function Receive(parse: Parser, id: int, s: Session): (Result<Fields, ProbeError>, Session)
    decreases |s.stream.feed|, |s.stream.buffer|
  {
    var (r, stream) := Read(parse, s.stream);
    var t := s.(stream := stream);
    match r
    case Failure(e) => (Failure(e), t)
    case Success(m) =>
      ReadConsumes(parse, s.stream);
      if IsServerRequest(m) then
        if s.writable == 0 then (Failure(InputClosed), t)
        else Receive(parse, id, t.(sent := s.sent + [MethodNotFound(m["id"])], writable := s.writable - 1))
      else if IsAnswer(m, id) then (Answer(m), t)
      else Receive(parse, id, t)
  }

  function Exchange(parse: Parser, id: int, name: string, s: Session): (Result<Fields, ProbeError>, Session) {
    if s.writable == 0 then (Failure(InputClosed), s)
    else Receive(parse, id, s.(sent := s.sent + [Asked(id, name)], writable := s.writable - 1))
  }

  // ---------------------------------------------------------------- the object

  predicate ChunksOk(feed: seq<Feed>) {
    forall i | 0 <= i < |feed| && feed[i].Chunk? :: 0 < |feed[i].data| <= READ_BYTES
  }

  class Server {
    var buffer: Bytes
    var total: nat
    var feed: seq<Feed>
    var sent: seq<Sent>
    var writable: nat

    constructor (output: seq<Feed>, input: nat)
      ensures Current() == Session(Stream([], 0, output), [], input)
    {
      buffer, total, feed, sent, writable := [], 0, output, [], input;
    }

    function Current(): Session
      reads this
    {
      Session(Stream(buffer, total, feed), sent, writable)
    }

    /** os.read never returns more than it was asked for, and the buffer never holds more than one line and one read. */
    predicate Bounded()
      reads this
    {
      ChunksOk(feed) && |buffer| <= MAX_LINE_BYTES + READ_BYTES
    }

    method Send(m: Sent) returns (ok: bool)
      modifies this
      ensures ok <==> old(writable) > 0
      ensures !ok ==> Current() == old(Current())
      ensures ok ==> Current() == old(Current()).(sent := old(sent) + [m],
                                                  writable := old(if writable > 0 then writable - 1 else 0))
    {
      if writable == 0 {
        return false;
      }
      sent := sent + [m];
      writable := writable - 1;
      return true;
    }

    method Message(parse: Parser) returns (r: Result<Fields, ProbeError>)
      requires Bounded()
      modifies this`buffer, this`total, this`feed
      ensures Bounded()
      ensures (r, Stream(buffer, total, feed)) == Read(parse, Stream(old(buffer), old(total), old(feed)))
    {
      ghost var result := Read(parse, Stream(buffer, total, feed));
      while true
        invariant Bounded()
        invariant Read(parse, Stream(buffer, total, feed)) == result
        decreases |feed|, |buffer|
      {
        var newline := Find(buffer);
        if newline.Some? {
          var line := buffer[..newline.value];
          buffer := buffer[newline.value + 1..];
          var parsed := parse(line);
          if parsed.Some? {
            return Success(parsed.value);
          }
          continue;
        }
        if |buffer| > MAX_LINE_BYTES {
          return Failure(LineTooLong);
        }
        if feed == [] || feed[0].Deadline? {
          return Failure(TimedOut);
        }
        if feed[0].Closed? {
          return Failure(OutputClosed);
        }
        var event := feed[0];
        feed := feed[1..];
        if event.Chunk? {
          assert |event.data| <= READ_BYTES;
          total := total + |event.data|;
          if total > MAX_TOTAL_BYTES {
            return Failure(TooMuchOutput);
          }
          buffer := buffer + event.data;
        }
      }
    }

    method Request(parse: Parser, id: int, name: string) returns (r: Result<Fields, ProbeError>)
      requires Bounded()
      modifies this
      ensures Bounded()
      ensures (r, Current()) == Exchange(parse, id, name, old(Current()))
    {
      ghost var result := Exchange(parse, id, name, Current());
      var ok := Send(Asked(id, name));
      if !ok {
        return Failure(InputClosed);
      }
      while true
        invariant Bounded()
        invariant Receive(parse, id, Current()) == result
        decreases |feed|, |buffer|
      {
        ReadConsumes(parse, Stream(buffer, total, feed));
        var message := Message(parse);
        if message.Failure? {
          return Failure(message.error);
        }
        var m := message.value;
        if "method" in m {
          if "id" in m {
            ok := Send(MethodNotFound(m["id"]));
            if !ok {
              return Failure(InputClosed);
            }
          }
          continue;
        }
        if !Carries(m, id) {
          continue;
        }
        return Answer(m);
      }
    }
  }
}
