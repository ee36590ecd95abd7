/** JSON pointers (RFC 6901): the encoder of selectors in scripts/active_model_currency.py and the evaluator pointer of
    scripts/catalog_decisions.py, proved inverse to each other. */
module Pointers {
  import opened Wrappers
  import opened Json
  import opened Decimal

  /** One step into a document: a dictionary key or a list index. */
  datatype Step = Key(name: string) | Index(i: nat)

  datatype PointerError = NotAPointer | BadEscape | BadIndex | IndexMissing | TargetMissing

  // ---------------------------------------------------------------- str.replace and str.split

  /** Every occurrence of a character replaced by a text. */
  function ReplaceChar(s: string, c: char, with: string): string {
    if s == "" then "" else (if s[0] == c then with else [s[0]]) + ReplaceChar(s[1..], c, with)
  }

  /** Every occurrence of a two-character pattern replaced by a character, left to right without overlap. */
  function ReplacePair(s: string, a: char, b: char, with: char): string {
    if |s| >= 2 && s[0] == a && s[1] == b then [with] + ReplacePair(s[2..], a, b, with)
    else if s == "" then ""
    else [s[0]] + ReplacePair(s[1..], a, b, with)
  }

  /** The parts between the slashes. */
  function Split(s: string): (parts: seq<string>)
    ensures parts != []
  {
    if s == "" then [""]
    else
      var rest := Split(s[1..]);
      if s[0] == '/' then [""] + rest else [[s[0]] + rest[0]] + rest[1..]
  }

  function EncodeText(k: string): string {
    ReplaceChar(ReplaceChar(k, '~', "~0"), '/', "~1")
  }

  function DecodeText(e: string): string {
    ReplacePair(ReplacePair(e, '~', '1', '/'), '~', '0', '~')
  }

  /** Every tilde starts one of the two escapes. */
  predicate EscapesOk(e: string) {
    forall i | 0 <= i < |e| && e[i] == '~' :: i + 1 < |e| && e[i + 1] in {'0', '1'}
  }

  // ---------------------------------------------------------------- emit and pointer

  function StepText(step: Step): string {
    match step
    case Key(name) => name
    case Index(i) => Print(i)
  }

  /** A pointer's text: each step behind a slash, with its tildes and slashes escaped. */
  function Emit(path: seq<Step>): string {
    if path == [] then "" else "/" + EncodeText(StepText(path[0])) + Emit(path[1..])
  }

  function Enter(current: Json, encoded: string): Result<Json, PointerError> {
    if !EscapesOk(encoded) then Failure(BadEscape)
    else
      var key := DecodeText(encoded);
      match current
      case Arr(items) =>
        if !Canonical(key) then Failure(BadIndex)
        else if Parse(key) >= |items| then Failure(IndexMissing)
        else Success(items[Parse(key)])
      case Obj(fields) => if key in fields then Success(fields[key]) else Failure(TargetMissing)
      case _ => Failure(TargetMissing)
  }

  function Walk(current: Json, parts: seq<string>): Result<Json, PointerError> {
    if parts == [] then Success(current)
    else
      match Enter(current, parts[0])
      case Success(next) => Walk(next, parts[1..])
      case Failure(e) => Failure(e)
  }

  function PointerAt(document: Json, value: string): Result<Json, PointerError> {
    if value == "" || value[0] != '/' || value == "/" then Failure(NotAPointer)
    else Walk(document, Split(value[1..]))
  }

  method Pointer(document: Json, value: string) returns (r: Result<Json, PointerError>)
    ensures r == PointerAt(document, value)
  {
    if value == "" || value[0] != '/' || value == "/" {
      return Failure(NotAPointer);
    }
    var parts := Split(value[1..]);
    var current := document;
    for i := 0 to |parts|
      invariant PointerAt(document, value) == Walk(current, parts[i..])
    {
      assert parts[i..][1..] == parts[i + 1..];
      var next := Enter(current, parts[i]);
      if next.Failure? {
        return next;
      }
      current := next.value;
    }
    return Success(current);
  }

  /** What a path means: keys go into objects, indices into arrays. */
  function Follow(document: Json, path: seq<Step>): Option<Json> {
    if path == [] then Some(document)
    else
      match (document, path[0])
      case (Obj(fields), Key(name)) => if name in fields then Follow(fields[name], path[1..]) else None
      case (Arr(items), Index(i)) => if i < |items| then Follow(items[i], path[1..]) else None
      case _ => None
  }

  // ---------------------------------------------------------------- one key, both ways

  function CharText(c: char): string {
    if c == '~' then "~0" else if c == '/' then "~1" else [c]
  }

  lemma ReplaceCharConcat(a: string, b: string, c: char, with: string)
    ensures ReplaceChar(a + b, c, with) == ReplaceChar(a, c, with) + ReplaceChar(b, c, with)
  {
    if a == "" {
      assert a + b == b;
    } else {
      assert (a + b)[1..] == a[1..] + b;
      ReplaceCharConcat(a[1..], b, c, with);
    }
  }

  /** The two replaces encode character by character. */
  lemma {:induction false} EncodeCons(k: string)
    requires k != ""
    ensures EncodeText(k) == CharText(k[0]) + EncodeText(k[1..])
  {
    var first := if k[0] == '~' then "~0" else [k[0]];
    ReplaceCharConcat(first, ReplaceChar(k[1..], '~', "~0"), '/', "~1");
    if k[0] == '~' {
      assert "~0"[1..] == "0" && "0"[1..] == "";
      assert ReplaceChar("0", '/', "~1") == "0";
      assert ReplaceChar("~0", '/', "~1") == "~0";
    } else {
      assert [k[0]][1..] == "";
      assert ReplaceChar([k[0]], '/', "~1") == CharText(k[0]);
    }
  }

  lemma {:induction false} EncodedText(k: string)
    ensures EscapesOk(EncodeText(k)) && '/' !in EncodeText(k)
    ensures ReplacePair(EncodeText(k), '~', '1', '/') == ReplaceChar(k, '~', "~0")
    ensures ReplacePair(ReplaceChar(k, '~', "~0"), '~', '0', '~') == k
  {
    if k != "" {
      EncodeCons(k);
      EncodedText(k[1..]);
      var e, rest := EncodeText(k), EncodeText(k[1..]);
      var half := ReplaceChar(k[1..], '~', "~0");
      assert k == [k[0]] + k[1..];
      if k[0] == '~' {
        assert e == ['~', '0'] + rest;
        assert e[1..] == ['0'] + rest && e[1..][1..] == rest;
        var t := ['~', '0'] + half;
        assert ReplaceChar(k, '~', "~0") == t;
        assert t[2..] == half;
      } else if k[0] == '/' {
        assert e == ['~', '1'] + rest;
        assert e[2..] == rest;
        var t := ['/'] + half;
        assert ReplaceChar(k, '~', "~0") == t;
        assert t[1..] == half;
      } else {
        assert e == [k[0]] + rest;
        assert e[1..] == rest;
        var t := [k[0]] + half;
        assert ReplaceChar(k, '~', "~0") == t;
        assert t[1..] == half;
      }
    }
  }

  /** Decoding an encoded key gives the key back, whatever ~ and / it holds. */
  lemma DecodeEncode(k: string)
    ensures DecodeText(EncodeText(k)) == k
  {
    EncodedText(k);
  }

  /** A well-escaped token without a slash is the encoding of what it decodes to: encodings are unique. */
  lemma {:induction false} EncodeDecode(e: string)
    requires EscapesOk(e) && '/' !in e
    ensures EncodeText(DecodeText(e)) == e
  {
    if e != "" {
      if e[0] == '~' {
        var rest := e[2..];
        assert e == ['~', e[1]] + rest;
        EncodeDecode(rest);
        var half := ReplacePair(rest, '~', '1', '/');
        var d := DecodeText(rest);
        if e[1] == '0' {
          assert e[1..][1..] == rest;
          assert ReplacePair(e, '~', '1', '/') == ['~', '0'] + half;
          assert (['~', '0'] + half)[2..] == half;
          assert DecodeText(e) == ['~'] + d;
          EncodeCons(['~'] + d);
        } else {
          assert ReplacePair(e, '~', '1', '/') == ['/'] + half;
          assert (['/'] + half)[1..] == half;
          assert DecodeText(e) == ['/'] + d;
          EncodeCons(['/'] + d);
        }
      } else {
        var rest := e[1..];
        assert e == [e[0]] + rest;
        EncodeDecode(rest);
        var half := ReplacePair(rest, '~', '1', '/');
        assert ReplacePair(e, '~', '1', '/') == [e[0]] + half;
        assert ([e[0]] + half)[1..] == half;
        assert DecodeText(e) == [e[0]] + DecodeText(rest);
        EncodeCons([e[0]] + DecodeText(rest));
      }
    }
  }

  // ---------------------------------------------------------------- splitting

  lemma {:induction false} SplitConcat(a: string, b: string)
    requires '/' !in a
    ensures Split(a + "/" + b) == [a] + Split(b)
  {
    var s := a + "/" + b;
    if a == "" {
      assert s[1..] == b;
    } else {
      assert s[1..] == a[1..] + "/" + b;
      SplitConcat(a[1..], b);
      assert a == [a[0]] + a[1..];
    }
  }

  lemma {:induction false} SplitPlain(a: string)
    requires '/' !in a
    ensures Split(a) == [a]
  {
    if a != "" {
      SplitPlain(a[1..]);
      assert a == [a[0]] + a[1..];
    }
  }

  /** Splitting around one slash splits the two sides. */
  lemma {:induction false} SplitJoin(a: string, b: string)
    ensures Split(a + "/" + b) == Split(a) + Split(b)
  {
    var s := a + "/" + b;
    if a == "" {
      assert s[1..] == b;
    } else {
      assert s[1..] == a[1..] + "/" + b;
      SplitJoin(a[1..], b);
    }
  }

  function Encoded(path: seq<Step>): seq<string> {
    if path == [] then [] else [EncodeText(StepText(path[0]))] + Encoded(path[1..])
  }

  lemma SplitHead(e: string, rest: string)
    requires '/' !in e && (rest == "" || rest[0] == '/')
    ensures Split(e + rest) == [e] + if rest == "" then [] else Split(rest[1..])
  {
    if rest == "" {
      assert e + rest == e;
      SplitPlain(e);
    } else {
      assert rest == "/" + rest[1..];
      assert e + rest == e + "/" + rest[1..];
      SplitConcat(e, rest[1..]);
    }
  }

  lemma {:induction false} SplitEmitted(path: seq<Step>)
    requires path != []
    ensures Emit(path) != "" && Emit(path)[0] == '/'
    ensures Split(Emit(path)[1..]) == Encoded(path)
  {
    var e, rest := EncodeText(StepText(path[0])), Emit(path[1..]);
    EncodedHasNoSlash(StepText(path[0]));
    if |path| > 1 {
      SplitEmitted(path[1..]);
    } else {
      assert Encoded(path[1..]) == [];
    }
    SplitHead(e, rest);
    AfterSlash(e, rest);
  }

  lemma AfterSlash(e: string, rest: string)
    ensures ("/" + e + rest)[1..] == e + rest
  {
  }

  lemma EncodedHasNoSlash(k: string)
    ensures '/' !in EncodeText(k)
  {
    EncodedText(k);
  }

  // ---------------------------------------------------------------- the round trip

  lemma EnterStep(document: Json, step: Step)
    requires Follow(document, [step]).Some?
    ensures Enter(document, EncodeText(StepText(step))) == Success(Follow(document, [step]).value)
  {
    var text := StepText(step);
    EncodedText(text);
    DecodeEncode(text);
    assert [step][1..] == [];
    if step.Index? {
      ParsePrint(step.i);
    }
  }

  lemma {:induction false} WalkFollows(document: Json, path: seq<Step>)
    requires Follow(document, path).Some?
    ensures Walk(document, Encoded(path)) == Success(Follow(document, path).value)
  {
    if path != [] {
      assert [path[0]][1..] == [];
      EnterStep(document, path[0]);
      WalkFollows(Follow(document, [path[0]]).value, path[1..]);
    }
  }

  /** The pointer emitted for a located value evaluates to that very value, for every document and every key text. The
      two exceptions are the document itself and an empty key at the top: their pointers are "" and "/", which the
      evaluator refuses. */
  lemma EmittedPointerResolves(document: Json, path: seq<Step>)
    requires Follow(document, path).Some?
    ensures PointerAt(document, Emit(path)) ==
            if path == [] || path == [Key("")] then Failure(NotAPointer)
            else Success(Follow(document, path).value)
  {
    if path != [] {
      SplitEmitted(path);
      WalkFollows(document, path);
      var text := StepText(path[0]);
      if path == [Key("")] {
        assert Emit(path[1..]) == "" && EncodeText("") == "";
      } else if Emit(path) == "/" {
        assert Emit(path)[1..] == "";
        assert Encoded(path) == [""];
        assert |path| == 1;
        DecodeEncode(text);
        assert false;
      }
    }
  }

  /** A pointer that names the number-th entry of a collection resolves to that entry. */
  lemma CollectionEntryResolves(document: Json, collection: string, number: nat)
    requires PointerAt(document, collection).Success? && PointerAt(document, collection).value.Arr?
    requires number < |PointerAt(document, collection).value.items|
    ensures PointerAt(document, collection + "/" + Print(number))
            == Success(PointerAt(document, collection).value.items[number])
  {
    var value, n := collection + "/" + Print(number), Print(number);
    assert value[1..] == collection[1..] + "/" + n;
    PlainDigits(n);
    SplitJoin(collection[1..], n);
    SplitPlain(n);
    ParsePrint(number);
    WalkConcat(document, Split(collection[1..]), [n]);
    assert [n][1..] == [];
  }

  lemma {:induction false} PlainDigits(n: string)
    requires AllDigits(n)
    ensures '/' !in n && EscapesOk(n) && DecodeText(n) == n
  {
    NoTilde(n, '1', '/');
    NoTilde(n, '0', '~');
  }

  lemma NoTilde(s: string, b: char, with: char)
    requires '~' !in s
    ensures ReplacePair(s, '~', b, with) == s
  {
  }

  lemma {:induction false} WalkConcat(document: Json, a: seq<string>, b: seq<string>)
    ensures Walk(document, a + b) ==
            match Walk(document, a)
            case Success(v) => Walk(v, b)
            case Failure(e) => Failure(e)
  {
    if a == [] {
      assert a + b == b;
    } else {
      assert (a + b)[1..] == a[1..] + b;
      if Enter(document, a[0]).Success? {
        WalkConcat(Enter(document, a[0]).value, a[1..], b);
      }
    }
  }

  // ---------------------------------------------------------------- every accepted pointer is an emitted one

  lemma {:induction false} SplitHasNoSlash(s: string)
    ensures forall i | 0 <= i < |Split(s)| :: '/' !in Split(s)[i]
  {
    if s != "" {
      SplitHasNoSlash(s[1..]);
    }
  }

  lemma {:induction false} WalkedPath(document: Json, parts: seq<string>) returns (path: seq<Step>)
    requires Walk(document, parts).Success? && forall i | 0 <= i < |parts| :: '/' !in parts[i]
    ensures Encoded(path) == parts && Follow(document, path) == Some(Walk(document, parts).value)
  {
    if parts == [] {
      path := [];
    } else {
      var key := DecodeText(parts[0]);
      EncodeDecode(parts[0]);
      assert '/' !in parts[0];
      var rest := WalkedPath(Enter(document, parts[0]).value, parts[1..]);
      var step := if document.Arr? then Index(Parse(key)) else Key(key);
      if document.Arr? {
        PrintParse(key);
      }
      path := [step] + rest;
      assert path[1..] == rest;
    }
  }

  lemma {:induction false} SplitInjective(a: string, b: string)
    requires Split(a) == Split(b)
    ensures a == b
  {
    if a != "" && b != "" {
      var ra, rb := Split(a[1..]), Split(b[1..]);
      if a[0] == '/' || b[0] == '/' {
        assert a[0] == '/' && b[0] == '/' by {
          assert Split(a)[0] == Split(b)[0];
        }
        assert ra == Split(a)[1..] && rb == Split(b)[1..];
      } else {
        assert Split(a)[0] == [a[0]] + ra[0] && Split(b)[0] == [b[0]] + rb[0];
        assert a[0] == Split(a)[0][0] == Split(b)[0][0] == b[0];
        assert ra[0] == Split(a)[0][1..] && rb[0] == Split(b)[0][1..];
        assert ra == [ra[0]] + Split(a)[1..] && rb == [rb[0]] + Split(b)[1..];
      }
      SplitInjective(a[1..], b[1..]);
      assert a == [a[0]] + a[1..] && b == [b[0]] + b[1..];
    }
  }

  /** Whatever the evaluator accepts is the emitted pointer of a path to the value it returns. */
  lemma AcceptedPointerIsEmitted(document: Json, value: string) returns (path: seq<Step>)
    requires PointerAt(document, value).Success?
    ensures Emit(path) == value && Follow(document, path) == Some(PointerAt(document, value).value)
  {
    SplitHasNoSlash(value[1..]);
    path := WalkedPath(document, Split(value[1..]));
    SplitEmitted(path);
    SplitInjective(Emit(path)[1..], value[1..]);
    assert Emit(path) == "/" + Emit(path)[1..] && value == "/" + value[1..];
  }
}
