/**
 The response side of the server: the fluent `ResponseBuilder`, the finished
 `Response`, and its wire text as `impl Display for Response` writes it.

 To state what the wire text means, the module also has a reader of the
 HTTP/1.1 message framing (section 2.1 of RFC 9112: start line, CRLF, field
 lines each ended by CRLF, an empty line, then the body), restricted to the
 one field-line shape the serialiser writes, "name: value".
 */
module Responses {
  import opened Wrappers
  import Text
  import Decimal

  /** Rust's `u16`, the type of the status field. */
  type u16 = x: int | 0 <= x < 0x1_0000

  datatype Header = Header(key: string, value: string)

  datatype ResponseBuilder = ResponseBuilder(status: u16, headers: seq<Header>, body: string)

  datatype Response = Response(status: u16, headers: seq<Header>, body: string)

  // ---------------------------------------------------------------------------
  // The builder
  // ---------------------------------------------------------------------------

  /** `ResponseBuilder::new`: status 200, no headers, empty body. */
  function NewBuilder(): (b: ResponseBuilder)
    ensures b.status == 200 && b.headers == [] && b.body == ""
  {
    ResponseBuilder(200, [], "")
  }

  /** `status`: replaces the status and nothing else. */
  function WithStatus(b: ResponseBuilder, status: u16): (r: ResponseBuilder)
    ensures r.status == status
    ensures r.headers == b.headers && r.body == b.body
  {
    b.(status := status)
  }

  /** `header`: appends one header after all earlier ones; keys may repeat. */
  function WithHeader(b: ResponseBuilder, key: string, value: string): (r: ResponseBuilder)
    ensures |r.headers| == |b.headers| + 1
    ensures r.headers[..|b.headers|] == b.headers
    ensures r.headers[|b.headers|] == Header(key, value)
    ensures r.status == b.status && r.body == b.body
  {
    b.(headers := b.headers + [Header(key, value)])
  }

  /** `body`: replaces the body and nothing else. */
  function WithBody(b: ResponseBuilder, body: string): (r: ResponseBuilder)
    ensures r.body == body
    ensures r.status == b.status && r.headers == b.headers
  {
    b.(body := body)
  }

  /** `build`: a response carrying exactly the builder's fields. */
  function Build(b: ResponseBuilder): (r: Response)
    ensures r.status == b.status && r.headers == b.headers && r.body == b.body
  {
    Response(b.status, b.headers, b.body)
  }

  /** One link of a builder chain such as `.status(200).header(k, v).body(t)`. */
  datatype BuilderCall =
    | SetStatus(code: u16)
    | AddHeader(key: string, value: string)
    | SetBody(text: string)

  function Apply(b: ResponseBuilder, c: BuilderCall): ResponseBuilder
  {
    match c
    case SetStatus(code) => WithStatus(b, code)
    case AddHeader(k, v) => WithHeader(b, k, v)
    case SetBody(t) => WithBody(b, t)
  }

  /** A chain of calls, applied left to right. */
  function Run(b: ResponseBuilder, calls: seq<BuilderCall>): ResponseBuilder
    decreases |calls|
  {
    if calls == [] then b else Run(Apply(b, calls[0]), calls[1..])
  }

  /** The code of the last `SetStatus` in `calls`, or `dflt` when there is none. */
  function LastStatus(calls: seq<BuilderCall>, dflt: u16): u16
    decreases |calls|
  {
    if calls == [] then dflt
    else if calls[|calls| - 1].SetStatus? then calls[|calls| - 1].code
    else LastStatus(calls[..|calls| - 1], dflt)
  }

  /** The text of the last `SetBody` in `calls`, or `dflt` when there is none. */
  function LastBody(calls: seq<BuilderCall>, dflt: string): string
    decreases |calls|
  {
    if calls == [] then dflt
    else if calls[|calls| - 1].SetBody? then calls[|calls| - 1].text
    else LastBody(calls[..|calls| - 1], dflt)
  }

  /** The headers of the `AddHeader` calls, in call order. */
  function AddedHeaders(calls: seq<BuilderCall>): seq<Header>
    decreases |calls|
  {
    if calls == [] then []
    else
      var c := calls[|calls| - 1];
      AddedHeaders(calls[..|calls| - 1]) + (if c.AddHeader? then [Header(c.key, c.value)] else [])
  }

  lemma {:induction false} RunSnoc(b: ResponseBuilder, calls: seq<BuilderCall>, c: BuilderCall)
    ensures Run(b, calls + [c]) == Apply(Run(b, calls), c)
    decreases |calls|
  {
    if calls != [] {
      assert (calls + [c])[1..] == calls[1..] + [c];
      RunSnoc(Apply(b, calls[0]), calls[1..], c);
    }
  }

  /**
   What a builder chain produces: the last status set wins, every header
   added is kept in call order after the existing ones, the last body set wins.
   */
  lemma {:induction false} RunMeaning(b: ResponseBuilder, calls: seq<BuilderCall>)
    ensures Run(b, calls).status == LastStatus(calls, b.status)
    ensures Run(b, calls).headers == b.headers + AddedHeaders(calls)
    ensures Run(b, calls).body == LastBody(calls, b.body)
    decreases |calls|
  {
    if calls != [] {
      var init := calls[..|calls| - 1];
      var c := calls[|calls| - 1];
      assert calls == init + [c];
      RunSnoc(b, init, c);
      RunMeaning(b, init);
    }
  }

  // ---------------------------------------------------------------------------
  // The wire text
  // ---------------------------------------------------------------------------

  const CRLF: string := "\r\n"

  /** One header as the serialiser writes it: "key: value". */
  function HeaderLine(h: Header): string
  {
    h.key + ": " + h.value
  }

  function HeaderLines(hs: seq<Header>): (ls: seq<string>)
    ensures |ls| == |hs|
    ensures forall i :: 0 <= i < |hs| ==> ls[i] == HeaderLine(hs[i])
  {
    seq(|hs|, i requires 0 <= i < |hs| => HeaderLine(hs[i]))
  }

  /** The status line; its reason text is "OK" whatever the status. */
  function StatusLine(status: u16): string
  {
    "HTTP/1.1 " + Decimal.Format(status) + " OK"
  }

  /**
   `impl Display for Response`, as written: the status line, CRLF, the header
   lines joined by CRLF, two CRLFs, then the body.
   */
  function Render(r: Response): string
  {
    StatusLine(r.status) + CRLF + Text.Join(HeaderLines(r.headers), CRLF) + CRLF + CRLF + r.body
  }

  /** The header lines, each followed by CRLF. */
  function FieldBlock(hs: seq<Header>): string
    decreases |hs|
  {
    if hs == [] then "" else HeaderLine(hs[0]) + CRLF + FieldBlock(hs[1..])
  }

  /**
   The wire text with every header line ended by CRLF, then one empty line:
   the layout section 2.1 of RFC 9112 prescribes.
   */
  function RenderTerminated(r: Response): string
  {
    StatusLine(r.status) + CRLF + FieldBlock(r.headers) + CRLF + r.body
  }

  /** With no headers the text is "HTTP/1.1 <status> OK" and three CRLFs before the body. */
  lemma RenderNoHeaders(r: Response)
    requires r.headers == []
    ensures Render(r) == "HTTP/1.1 " + Decimal.Format(r.status) + " OK\r\n\r\n\r\n" + r.body
  {
  }

  lemma {:induction false} JoinThenCrlf(hs: seq<Header>)
    requires hs != []
    ensures Text.Join(HeaderLines(hs), CRLF) + CRLF == FieldBlock(hs)
    decreases |hs|
  {
    var ls := HeaderLines(hs);
    if |hs| == 1 {
      assert FieldBlock(hs[1..]) == "";
    } else {
      assert ls[1..] == HeaderLines(hs[1..]);
      JoinThenCrlf(hs[1..]);
    }
  }

  /** As soon as there is a header, the text as written is the RFC 9112 layout. */
  lemma RenderAgreesWithHeaders(r: Response)
    requires r.headers != []
    ensures Render(r) == RenderTerminated(r)
  {
    JoinThenCrlf(r.headers);
  }

  // ---------------------------------------------------------------------------
  // Reading the wire text back
  // ---------------------------------------------------------------------------

  /** A header the reader can recover: no CR anywhere, no colon in the key. */
  predicate WellFormedHeader(h: Header) {
    '\r' !in h.key && '\r' !in h.value && ':' !in h.key
  }

  predicate WellFormedHeaders(r: Response) {
    forall i :: 0 <= i < |r.headers| ==> WellFormedHeader(r.headers[i])
  }

  /** A message as read from the wire. */
  datatype Message = Message(status: nat, reason: string, fields: seq<Header>, body: string)

  /** Splits "name: value" at its first colon. */
  function ParseField(line: string): Option<Header>
  {
    var k := Text.IndexOf(line, ':');
    if k + 1 < |line| && line[k + 1] == ' ' then Some(Header(line[..k], line[k + 2..])) else None
  }

  /** The text up to the first CR, which must be followed by LF, and the text after that CRLF. */
  function ReadLine(s: string): (r: Option<(string, string)>)
    ensures r.Some? ==> |r.value.1| < |s|
  {
    var j := Text.IndexOf(s, '\r');
    if j + 1 < |s| && s[j + 1] == '\n' then Some((s[..j], s[j + 2..])) else None
  }

  /** Field lines up to the first empty line; the rest is the body. */
  function ReadFields(s: string): Option<(seq<Header>, string)>
    decreases |s|
  {
    if |s| >= 2 && s[..2] == CRLF then Some(([], s[2..]))
    else
      var lineAndRest :- ReadLine(s);
      var h :- ParseField(lineAndRest.0);
      var rest :- ReadFields(lineAndRest.1);
      Some(([h] + rest.0, rest.1))
  }

  /** Reads "HTTP/1.1 <digits> <reason>" CRLF: the code, the reason and the remainder. */
  function ReadStatusLine(text: string): Option<(nat, string, string)>
  {
    if |text| < 9 || text[..9] != "HTTP/1.1 " then None
    else
      var rest := text[9..];
      var i := Text.IndexOf(rest, ' ');
      if i == |rest| then None
      else
        var code :- Decimal.Parse(rest[..i]);
        var reasonAndRest :- ReadLine(rest[i + 1..]);
        Some((code, reasonAndRest.0, reasonAndRest.1))
  }

  /** Reads the status line, then the fields and the body. */
  function ReadResponse(text: string): Option<Message>
  {
    var start :- ReadStatusLine(text);
    var fields :- ReadFields(start.2);
    Some(Message(start.0, start.1, fields.0, fields.1))
  }

  lemma ReadLineOf(line: string, x: string)
    requires '\r' !in line
    ensures ReadLine(line + CRLF + x) == Some((line, x))
  {
    var s := line + CRLF + x;
    assert s == line + ("\r\n" + x);
    Text.IndexOfAfter(line, "\r\n" + x, '\r');
    assert s[..|line|] == line;
    assert s[|line| + 2..] == x;
  }

  lemma ParseHeaderLine(h: Header)
    requires WellFormedHeader(h)
    ensures ParseField(HeaderLine(h)) == Some(h)
  {
    var line := HeaderLine(h);
    assert line == h.key + (": " + h.value);
    Text.IndexOfAfter(h.key, ": " + h.value, ':');
    assert line[..|h.key|] == h.key;
    assert line[|h.key| + 2..] == h.value;
  }

  /** One header line is read, then the reader goes on after its CRLF. */
  lemma ReadOneField(h: Header, x: string)
    requires WellFormedHeader(h)
    ensures ReadFields(HeaderLine(h) + CRLF + x) ==
            (match ReadFields(x)
             case None => None
             case Some(f) => Some(([h] + f.0, f.1)))
  {
    var line := HeaderLine(h);
    var s := line + CRLF + x;
    assert '\r' !in line;
    assert s[0] != '\r';
    ReadLineOf(line, x);
    ParseHeaderLine(h);
  }

  /** The field block followed by the empty line reads back as the headers and the body. */
  lemma {:induction false} ReadFieldBlock(hs: seq<Header>, body: string)
    requires forall i :: 0 <= i < |hs| ==> WellFormedHeader(hs[i])
    ensures ReadFields(FieldBlock(hs) + CRLF + body) == Some((hs, body))
    decreases |hs|
  {
    if hs == [] {
      var s := FieldBlock(hs) + CRLF + body;
      assert s == CRLF + body;
      assert s[..2] == CRLF && s[2..] == body;
    } else {
      var x := FieldBlock(hs[1..]) + CRLF + body;
      assert FieldBlock(hs) + CRLF + body == HeaderLine(hs[0]) + CRLF + x;
      ReadOneField(hs[0], x);
      ReadFieldBlock(hs[1..], body);
      assert [hs[0]] + hs[1..] == hs;
    }
  }

  /** In "<digits> <y>" the first space ends the digits, which read back as the number. */
  lemma ReadCode(n: nat, y: string)
    ensures var rest := Decimal.Format(n) + " " + y;
            var i := Text.IndexOf(rest, ' ');
            i == |Decimal.Format(n)| && Decimal.Parse(rest[..i]) == Some(n) && rest[i + 1..] == y
  {
    var digits := Decimal.Format(n);
    var rest := digits + " " + y;
    assert rest == digits + (" " + y);
    Text.IndexOfAfter(digits, " " + y, ' ');
    assert rest[..|digits|] == digits;
    Decimal.ParseFormat(n);
  }

  /** The status line as written reads back as the status and the reason "OK". */
  lemma ReadStatusLineOf(status: u16, x: string)
    ensures ReadStatusLine(StatusLine(status) + CRLF + x) == Some((status as nat, "OK", x))
  {
    var y := "OK" + CRLF + x;
    var rest := Decimal.Format(status) + " " + y;
    var text := StatusLine(status) + CRLF + x;
    assert text == "HTTP/1.1 " + rest;
    assert text[..9] == "HTTP/1.1 " && text[9..] == rest;
    ReadCode(status, y);
    ReadLineOf("OK", x);
  }

  /** After a status line the reader hands the remainder to `ReadFields`. */
  lemma ReadAfterStatusLine(status: u16, x: string)
    ensures ReadResponse(StatusLine(status) + CRLF + x) ==
            (match ReadFields(x)
             case None => None
             case Some(f) => Some(Message(status, "OK", f.0, f.1)))
  {
    ReadStatusLineOf(status, x);
  }

  /** The RFC 9112 layout reads back as exactly the response, with reason "OK". */
  lemma RenderTerminatedRoundTrip(r: Response)
    requires WellFormedHeaders(r)
    ensures ReadResponse(RenderTerminated(r)) == Some(Message(r.status, "OK", r.headers, r.body))
  {
    ReadFieldBlock(r.headers, r.body);
    assert RenderTerminated(r) == StatusLine(r.status) + CRLF + (FieldBlock(r.headers) + CRLF + r.body);
    ReadAfterStatusLine(r.status, FieldBlock(r.headers) + CRLF + r.body);
  }

  /** With at least one header, the text as written reads back as exactly the response. */
  lemma RenderRoundTrip(r: Response)
    requires WellFormedHeaders(r)
    requires r.headers != []
    ensures ReadResponse(Render(r)) == Some(Message(r.status, "OK", r.headers, r.body))
  {
    RenderAgreesWithHeaders(r);
    RenderTerminatedRoundTrip(r);
  }

  /** With no header, the text as written reads back with CRLF put in front of the body. */
  lemma RenderWithoutHeaders(r: Response)
    requires r.headers == []
    ensures ReadResponse(Render(r)) == Some(Message(r.status, "OK", [], CRLF + r.body))
  {
    var x := CRLF + CRLF + r.body;
    assert Render(r) == StatusLine(r.status) + CRLF + x;
    assert x[..2] == CRLF && x[2..] == CRLF + r.body;
    ReadAfterStatusLine(r.status, x);
  }

  /** The text as written still determines the response: distinct responses never collide. */
  lemma RenderInjective(a: Response, b: Response)
    requires WellFormedHeaders(a) && WellFormedHeaders(b)
    ensures Render(a) == Render(b) ==> a == b
  {
    if Render(a) == Render(b) {
      if a.headers == [] {
        RenderWithoutHeaders(a);
      } else {
        RenderRoundTrip(a);
      }
      if b.headers == [] {
        RenderWithoutHeaders(b);
      } else {
        RenderRoundTrip(b);
      }
      if a.headers == [] && b.headers == [] {
        assert (CRLF + a.body)[2..] == a.body;
        assert (CRLF + b.body)[2..] == b.body;
      }
    }
  }

  /**
   A response built with a body and no header: `ReadResponse` gets from the
   text as written that body with CRLF in front, never the body itself.
   */
  lemma EmptyHeadersShiftBody(body: string)
    ensures var r := Build(WithBody(NewBuilder(), body));
            && ReadResponse(Render(r)) == Some(Message(200, "OK", [], CRLF + body))
            && ReadResponse(Render(r)) != Some(Message(200, "OK", [], body))
            && ReadResponse(RenderTerminated(r)) == Some(Message(200, "OK", [], body))
  {
    var r := Build(WithBody(NewBuilder(), body));
    RenderWithoutHeaders(r);
    RenderTerminatedRoundTrip(r);
    assert |CRLF + body| != |body|;
  }

  /** The "Hello, World!" response of the tests reads back as status 200 with that body. */
  lemma HelloWorldRoundTrip()
    ensures var r := Build(WithBody(WithHeader(WithStatus(NewBuilder(), 200), "Content-Type", "text/plain"), "Hello, World!"));
            ReadResponse(Render(r)) == Some(Message(200, "OK", [Header("Content-Type", "text/plain")], "Hello, World!"))
  {
    var h := Header("Content-Type", "text/plain");
    var r := Response(200, [h], "Hello, World!");
    assert Build(WithBody(WithHeader(WithStatus(NewBuilder(), 200), h.key, h.value), r.body)) == r;
    assert WellFormedHeader(h);
    RenderRoundTrip(r);
  }
}
