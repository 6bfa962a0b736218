/**
 The small HTTP server of the websocket transport, which receives one POST per
 connection in chunks of any size. `Message` (the header parser) is foreign
 code; it enters as the function `contentLength`.
 */
module NotificationParser {

  newtype byte = x: int | 0 <= x < 256
  type Bytes = seq<byte>

  const CRLF: Bytes := [13, 10]
  const BLANK_LINE: Bytes := [13, 10, 13, 10]
  const POST: Bytes := [80, 79, 83, 84]

  // ---- Searching and splitting ----

  /** The first place the pattern occurs, or -1. */
  function IndexOf(data: Bytes, pat: Bytes): (i: int)
    requires pat != []
    ensures -1 <= i && (i >= 0 ==> i + |pat| <= |data| && data[i..i + |pat|] == pat)
  {
    if |data| < |pat| then -1
    else if data[..|pat|] == pat then 0
    else
      var i := IndexOf(data[1..], pat);
      if i < 0 then -1 else i + 1
  }

  /** More input does not move the first occurrence. */
  lemma {:induction false} IndexStable(data: Bytes, more: Bytes, pat: Bytes)
    requires pat != [] && IndexOf(data, pat) >= 0
    ensures IndexOf(data + more, pat) == IndexOf(data, pat)
    decreases |data|
  {
    assert (data + more)[..|pat|] == data[..|pat|];
    if data[..|pat|] != pat {
      assert (data + more)[1..] == data[1..] + more;
      IndexStable(data[1..], more, pat);
    }
  }

  predicate Space(b: byte) {
    b == 32 || 9 <= b <= 13
  }

  function WordLength(s: Bytes): (n: nat)
    ensures n <= |s| && (s != [] && !Space(s[0]) ==> n > 0)
  {
    if s == [] || Space(s[0]) then 0 else 1 + WordLength(s[1..])
  }

  /** `split()` on whitespace. */
  function Words(s: Bytes): (ws: seq<Bytes>)
    ensures forall w | w in ws :: w != []
    decreases |s|
  {
    if s == [] then []
    else if Space(s[0]) then Words(s[1..])
    else [s[..WordLength(s)]] + Words(s[WordLength(s)..])
  }

  // ---- The connection ----

  datatype Phase = INIT | HEADERS | BODY

  datatype Status = Ok200 | BadRequest400 | NotAllowed405

  datatype LengthHeader = Absent | NotANumber | Length(n: int)

  /** Everything about a connection, with what was sent on and answered so far. */
  datatype Conn = Conn(phase: Phase, data: Bytes, subscriber: Bytes, length: int,
                       closed: bool, sent: seq<(Bytes, Bytes)>, answers: seq<Status>)

  const FRESH: Conn := Conn(INIT, [], [], 0, false, [], [])

  function Answer(c: Conn, status: Status): Conn {
    c.(answers := c.answers + [status], closed := true)
  }

  /** An exception in `data_received` makes the event loop drop the connection. */
  function Abort(c: Conn): Conn {
    c.(closed := true)
  }

  datatype LineResult = Unparsable | OtherVerb | PostTo(subscriber: Bytes)

  /** `verb, uri, version = first_line.split()`, the check of the verb, and `uri[1:]`. */
  function ParseLine(line: Bytes): LineResult {
    var words := Words(line);
    if |words| != 3 then Unparsable
    else if words[0] != POST then OtherVerb
    else
      assert words[1] in words;
      PostTo(words[1][1..])
  }

  /** The request line, once its end is found at i. */
  function RequestLineAt(c: Conn, i: nat): Conn
    requires i + |CRLF| <= |c.data|
  {
    var d := c.(data := c.data[i + |CRLF|..]);
    match ParseLine(c.data[..i])
    case Unparsable => Abort(d)
    case OtherVerb => Answer(d, NotAllowed405)
    case PostTo(subscriber) => d.(phase := HEADERS, subscriber := subscriber)
  }

  function RequestLine(c: Conn): Conn {
    var i := IndexOf(c.data, CRLF);
    if c.phase != INIT || i < 0 then c else RequestLineAt(c, i)
  }

  function Headers(c: Conn, contentLength: Bytes -> LengthHeader): Conn {
    var i := IndexOf(c.data, BLANK_LINE);
    if c.closed || c.phase != HEADERS || i < 0 then c
    else
      var d := c.(data := c.data[i + |BLANK_LINE|..]);
      match contentLength(c.data[..i])
      case Absent => Answer(d, BadRequest400)
      case NotANumber => Abort(d)
      case Length(n) => d.(phase := BODY, length := n)
  }

  function Body(c: Conn): Conn {
    if c.closed || c.phase != BODY || |c.data| < c.length then c
    else if c.subscriber != [] then Answer(c.(sent := c.sent + [(c.data, c.subscriber)]), Ok200)
    else Answer(c, BadRequest400)
  }

  function Receive(c: Conn, chunk: Bytes, contentLength: Bytes -> LengthHeader): Conn {
    Body(Headers(RequestLine(c.(data := c.data + chunk)), contentLength))
  }

  /** A closed connection gets no more data. */
  function Feed(c: Conn, chunks: seq<Bytes>, contentLength: Bytes -> LengthHeader): Conn
    decreases |chunks|
  {
    if chunks == [] || c.closed then c
    else Feed(Receive(c, chunks[0], contentLength), chunks[1..], contentLength)
  }

  class NotificationProtocol {
    const contentLength: Bytes -> LengthHeader
    var conn: Conn

    constructor (contentLength: Bytes -> LengthHeader)
      ensures this.contentLength == contentLength && conn == FRESH
    {
      this.contentLength := contentLength;
      conn := FRESH;
    }

    method WriteStatus(status: Status)
      modifies this
      ensures conn == Answer(old(conn), status)
    {
      conn := conn.(answers := conn.answers + [status], closed := true);
    }

    /** The INIT part of `data_received`. */
    method TakeRequestLine()
      modifies this
      ensures conn == RequestLine(old(conn))
    {
      var i := IndexOf(conn.data, CRLF);
      if conn.phase == INIT && i >= 0 {
        var parsed := ParseLine(conn.data[..i]);
        conn := conn.(data := conn.data[i + |CRLF|..]);
        if parsed.Unparsable? {
          conn := conn.(closed := true);
          return;
        }
        if parsed.OtherVerb? {
          WriteStatus(NotAllowed405);
          return;
        }
        conn := conn.(phase := HEADERS, subscriber := parsed.subscriber);
      }
    }

    /** The HEADERS part. */
    method TakeHeaders()
      requires !conn.closed
      modifies this
      ensures conn == Headers(old(conn), contentLength)
    {
      var i := IndexOf(conn.data, BLANK_LINE);
      if conn.phase == HEADERS && i >= 0 {
        var length := contentLength(conn.data[..i]);
        conn := conn.(data := conn.data[i + |BLANK_LINE|..]);
        if length.Absent? {
          WriteStatus(BadRequest400);
          return;
        }
        if length.NotANumber? {
          conn := conn.(closed := true);
          return;
        }
        conn := conn.(phase := BODY, length := length.n);
      }
    }

    /** The BODY part. */
    method TakeBody()
      requires !conn.closed
      modifies this
      ensures conn == Body(old(conn))
    {
      if conn.phase == BODY && |conn.data| >= conn.length {
        if conn.subscriber != [] {
          conn := conn.(sent := conn.sent + [(conn.data, conn.subscriber)]);
          WriteStatus(Ok200);
        } else {
          WriteStatus(BadRequest400);
        }
      }
    }

    /** `data_received`. */
    method DataReceived(data: Bytes)
      requires !conn.closed
      modifies this
      ensures conn == Receive(old(conn), data, contentLength)
    {
      conn := conn.(data := conn.data + data);
      TakeRequestLine();
      if !conn.closed {
        TakeHeaders();
      }
      if !conn.closed {
        TakeBody();
      }
    }
  }

  // ---- Chunks fuse ----

  lemma RequestLineFuses(x: Bytes, y: Bytes)
    requires RequestLine(FRESH.(data := x)).phase == HEADERS
    ensures var c := RequestLine(FRESH.(data := x));
            RequestLine(FRESH.(data := x + y)) == c.(data := c.data + y)
  {
    var i := IndexOf(x, CRLF);
    IndexStable(x, y, CRLF);
    CutLater(x, y, i, 2);
    assert RequestLine(FRESH.(data := x)) == RequestLineAt(FRESH.(data := x), i);
    assert RequestLine(FRESH.(data := x + y)) == RequestLineAt(FRESH.(data := x + y), i);
  }

  lemma CutLater(x: Bytes, y: Bytes, i: nat, n: nat)
    requires i + n <= |x|
    ensures (x + y)[..i] == x[..i] && (x + y)[i + n..] == x[i + n..] + y
  {
  }

  lemma HeadersFuse(c: Conn, y: Bytes, contentLength: Bytes -> LengthHeader)
    requires c.phase == HEADERS && !c.closed && Headers(c, contentLength).phase == BODY
    ensures var d := Headers(c, contentLength);
            Headers(c.(data := c.data + y), contentLength) == d.(data := d.data + y)
  {
    var i := IndexOf(c.data, BLANK_LINE);
    IndexStable(c.data, y, BLANK_LINE);
    CutLater(c.data, y, i, 4);
  }

  /** The three ways a connection can be open. */
  lemma OpenCases(x: Bytes, contentLength: Bytes -> LengthHeader)
    requires !Receive(FRESH, x, contentLength).closed
    ensures var c := RequestLine(FRESH.(data := x));
            var d := Headers(c, contentLength);
            && !c.closed && !d.closed && Receive(FRESH, x, contentLength) == d
            && (c.phase == INIT ==> c == d == FRESH.(data := x))
            && (d.phase == HEADERS ==> c == d)
            && (d.phase == BODY ==> c.phase == HEADERS && |d.data| < d.length)
  {
    assert [] + x == x;
  }

  /** Past INIT the request line is left alone, past HEADERS the headers are too. */
  lemma PassedPhases(c: Conn, contentLength: Bytes -> LengthHeader)
    ensures c.phase != INIT ==> RequestLine(c) == c
    ensures c.phase == BODY ==> Headers(c, contentLength) == c
  {
  }

  lemma ReceiveFresh(x: Bytes, contentLength: Bytes -> LengthHeader)
    ensures Receive(FRESH, x, contentLength) == Body(Headers(RequestLine(FRESH.(data := x)), contentLength))
  {
    assert [] + x == x;
  }

  /**
   Whatever the bytes: as long as the connection is open, receiving two chunks
   one after the other is the same as receiving them at once.
   */
  lemma ChunksFuse(x: Bytes, y: Bytes, contentLength: Bytes -> LengthHeader)
    requires !Receive(FRESH, x, contentLength).closed
    ensures Receive(Receive(FRESH, x, contentLength), y, contentLength) == Receive(FRESH, x + y, contentLength)
  {
    OpenCases(x, contentLength);
    var c := RequestLine(FRESH.(data := x));
    if c.phase == INIT {
      FuseInit(x, y, contentLength);
    } else {
      FusePastInit(x, y, contentLength);
    }
  }

  lemma FuseInit(x: Bytes, y: Bytes, contentLength: Bytes -> LengthHeader)
    requires Receive(FRESH, x, contentLength) == FRESH.(data := x)
    ensures Receive(Receive(FRESH, x, contentLength), y, contentLength) == Receive(FRESH, x + y, contentLength)
  {
    ReceiveFresh(x + y, contentLength);
  }

  /** The same, starting from a connection whose request line has been read. */
  lemma FuseFromHeaders(c: Conn, y: Bytes, contentLength: Bytes -> LengthHeader)
    requires c.phase == HEADERS && !Body(Headers(c, contentLength)).closed
    ensures var d := Body(Headers(c, contentLength));
            Receive(d, y, contentLength) == Body(Headers(c.(data := c.data + y), contentLength))
  {
    var d := Headers(c, contentLength);
    assert Body(d) == d;
    var e := d.(data := d.data + y);
    PassedPhases(e, contentLength);
    if d.phase == BODY {
      HeadersFuse(c, y, contentLength);
    } else {
      assert d == c;
    }
  }

  lemma FusePastInit(x: Bytes, y: Bytes, contentLength: Bytes -> LengthHeader)
    requires !Receive(FRESH, x, contentLength).closed && RequestLine(FRESH.(data := x)).phase == HEADERS
    ensures Receive(Receive(FRESH, x, contentLength), y, contentLength) == Receive(FRESH, x + y, contentLength)
  {
    ReceiveFresh(x, contentLength);
    ReceiveFresh(x + y, contentLength);
    RequestLineFuses(x, y);
    FuseFromHeaders(RequestLine(FRESH.(data := x)), y, contentLength);
  }

  function Concat(chunks: seq<Bytes>): Bytes {
    if chunks == [] then [] else Concat(chunks[..|chunks| - 1]) + chunks[|chunks| - 1]
  }

  lemma {:induction false} FeedSnoc(c: Conn, chunks: seq<Bytes>, chunk: Bytes, contentLength: Bytes -> LengthHeader)
    requires !c.closed && !Feed(c, chunks, contentLength).closed
    ensures Feed(c, chunks + [chunk], contentLength) ==
              Receive(Feed(c, chunks, contentLength), chunk, contentLength)
    decreases |chunks|
  {
    if chunks == [] {
      assert chunks + [chunk] == [chunk] && [chunk][1..] == [];
      assert Feed(c, [chunk], contentLength) == Feed(Receive(c, chunk, contentLength), [], contentLength);
    } else {
      assert (chunks + [chunk])[0] == chunks[0] && (chunks + [chunk])[1..] == chunks[1..] + [chunk];
      FeedSnoc(Receive(c, chunks[0], contentLength), chunks[1..], chunk, contentLength);
    }
  }

  /** Only what was received in total matters while no shorter prefix closes the connection. */
  lemma {:induction false} FeedIsReceive(chunks: seq<Bytes>, contentLength: Bytes -> LengthHeader)
    requires chunks != []
    requires forall i | 0 < i < |chunks| :: !Receive(FRESH, Concat(chunks[..i]), contentLength).closed
    ensures Feed(FRESH, chunks, contentLength) == Receive(FRESH, Concat(chunks), contentLength)
    decreases |chunks|
  {
    var m := |chunks| - 1;
    var front, last := chunks[..m], chunks[m];
    assert chunks == front + [last];
    if front == [] {
      assert Concat(chunks) == last;
      FeedSnoc(FRESH, [], last, contentLength);
    } else {
      forall i | 0 < i < |front| ensures !Receive(FRESH, Concat(front[..i]), contentLength).closed {
        assert front[..i] == chunks[..i];
      }
      FeedIsReceive(front, contentLength);
      FeedSnoc(FRESH, front, last, contentLength);
      ChunksFuse(Concat(front), last, contentLength);
    }
  }

  // ---- One request ----

  datatype Request = Request(line: Bytes, headers: Bytes, body: Bytes)

  function Head(r: Request): Bytes {
    r.line + CRLF + (r.headers + BLANK_LINE)
  }

  function Wire(r: Request): Bytes {
    Head(r) + r.body
  }

  /** A POST whose head is well formed; nothing is said about its body. */
  predicate WellFormed(r: Request, contentLength: Bytes -> LengthHeader) {
    Headed(r) && contentLength(r.headers).Length?
  }

  /** The same, whatever the headers say. */
  predicate Headed(r: Request) {
    && IndexOf(r.line + CRLF, CRLF) == |r.line|
    && IndexOf(r.headers + BLANK_LINE, BLANK_LINE) == |r.headers|
    && ParseLine(r.line).PostTo?
  }

  function Subscriber(r: Request): Bytes
    requires ParseLine(r.line).PostTo?
  {
    ParseLine(r.line).subscriber
  }

  /** The body bytes the server waits for; a negative length waits for none. */
  function Expected(r: Request, contentLength: Bytes -> LengthHeader): nat
    requires contentLength(r.headers).Length?
  {
    var n := contentLength(r.headers).n;
    if n < 0 then 0 else n
  }

  lemma LineParsed(r: Request, rest: Bytes)
    requires Headed(r)
    ensures RequestLine(FRESH.(data := r.line + CRLF + rest)) ==
              FRESH.(phase := HEADERS, data := rest, subscriber := Subscriber(r))
  {
    var d := r.line + CRLF + rest;
    IndexStable(r.line + CRLF, rest, CRLF);
    CutLater(r.line + CRLF, rest, |r.line|, 2);
    assert (r.line + CRLF)[..|r.line|] == r.line && (r.line + CRLF)[|r.line| + 2..] == [];
    assert [] + rest == rest;
    assert RequestLine(FRESH.(data := d)) == RequestLineAt(FRESH.(data := d), |r.line|);
  }

  lemma HeadersParsed(c: Conn, r: Request, body: Bytes, contentLength: Bytes -> LengthHeader)
    requires WellFormed(r, contentLength) && c.phase == HEADERS && !c.closed
    requires c.data == r.headers + BLANK_LINE + body
    ensures Headers(c, contentLength) == c.(phase := BODY, data := body, length := contentLength(r.headers).n)
  {
    IndexStable(r.headers + BLANK_LINE, body, BLANK_LINE);
    CutLater(r.headers + BLANK_LINE, body, |r.headers|, 4);
    assert (r.headers + BLANK_LINE)[..|r.headers|] == r.headers;
    assert (r.headers + BLANK_LINE)[|r.headers| + 4..] == [];
    assert [] + body == body;
  }

  /** What the server makes of a complete head followed by some body bytes. */
  lemma HeadReceived(r: Request, body: Bytes, contentLength: Bytes -> LengthHeader)
    requires WellFormed(r, contentLength)
    ensures Receive(FRESH, Head(r) + body, contentLength) ==
              Body(Conn(BODY, body, Subscriber(r), contentLength(r.headers).n, false, [], []))
  {
    ReceiveFresh(Head(r) + body, contentLength);
    HeadAssociates(r, body);
    LineParsed(r, r.headers + BLANK_LINE + body);
    RestReceived(r, body, contentLength);
  }

  lemma HeadAssociates(r: Request, body: Bytes)
    ensures Head(r) + body == r.line + CRLF + (r.headers + BLANK_LINE + body)
  {
  }

  lemma RestReceived(r: Request, body: Bytes, contentLength: Bytes -> LengthHeader)
    requires WellFormed(r, contentLength)
    ensures var c := FRESH.(phase := HEADERS, data := r.headers + BLANK_LINE + body, subscriber := Subscriber(r));
            Body(Headers(c, contentLength)) ==
              Body(Conn(BODY, body, Subscriber(r), contentLength(r.headers).n, false, [], []))
  {
    var c := FRESH.(phase := HEADERS, data := r.headers + BLANK_LINE + body, subscriber := Subscriber(r));
    HeadersParsed(c, r, body, contentLength);
  }

  /** Part of a head that reaches past the request line. */
  lemma CutInHeaders(r: Request, x: Bytes, y: Bytes) returns (got: Bytes)
    requires Headed(r) && x + y == Head(r) && IndexOf(x, CRLF) >= 0
    ensures x == r.line + CRLF + got && got + y == r.headers + BLANK_LINE
  {
    IndexStable(x, y, CRLF);
    IndexStable(r.line + CRLF, r.headers + BLANK_LINE, CRLF);
    got := Past(r.line + CRLF, r.headers + BLANK_LINE, x, y);
  }

  lemma Past(a: Bytes, b: Bytes, x: Bytes, y: Bytes) returns (got: Bytes)
    requires x + y == a + b && |a| <= |x|
    ensures x == a + got && got + y == b
  {
    got := x[|a|..];
    assert x[..|a|] == (x + y)[..|a|] == a;
    assert got + y == (x + y)[|a|..] == b;
  }

  lemma CutHeadersWait(r: Request, got: Bytes, y: Bytes)
    requires Headed(r) && got + y == r.headers + BLANK_LINE && y != []
    ensures IndexOf(got, BLANK_LINE) < 0
  {
    if IndexOf(got, BLANK_LINE) >= 0 {
      IndexStable(got, y, BLANK_LINE);
      assert false;
    }
  }

  /** While the head is incomplete, the server waits. */
  lemma PartialHeadWaits(r: Request, m: nat, contentLength: Bytes -> LengthHeader)
    requires Headed(r) && m < |Head(r)|
    ensures var c := Receive(FRESH, Head(r)[..m], contentLength);
            !c.closed && c.sent == [] && c.answers == []
  {
    var x, y := Head(r)[..m], Head(r)[m..];
    assert x + y == Head(r);
    ReceiveFresh(x, contentLength);
    if IndexOf(x, CRLF) >= 0 {
      var got := CutInHeaders(r, x, y);
      CutHeadersWait(r, got, y);
      LineParsed(r, got);
    }
  }

  /** The server acts on a request exactly when the head and the expected body are there. */
  lemma ActsExactlyWhenComplete(r: Request, m: nat, contentLength: Bytes -> LengthHeader)
    requires WellFormed(r, contentLength) && m <= |Wire(r)|
    ensures var c := Receive(FRESH, Wire(r)[..m], contentLength);
            && (c.closed <==> m >= |Head(r)| + Expected(r, contentLength))
            && (!c.closed ==> c.sent == [] && c.answers == [])
  {
    if m < |Head(r)| {
      assert Wire(r)[..m] == Head(r)[..m];
      PartialHeadWaits(r, m, contentLength);
    } else {
      var got := r.body[..m - |Head(r)|];
      assert Wire(r)[..m] == Head(r) + got;
      HeadReceived(r, got, contentLength);
    }
  }

  // ---- Every way of cutting it into chunks ----

  ghost predicate Chunking(chunks: seq<Bytes>, data: Bytes) {
    chunks != [] && (forall i | 0 <= i < |chunks| :: chunks[i] != []) && Concat(chunks) == data
  }

  lemma {:induction false} ConcatPrefix(chunks: seq<Bytes>, i: nat)
    requires i < |chunks| && forall j | 0 <= j < |chunks| :: chunks[j] != []
    ensures |Concat(chunks[..i])| < |Concat(chunks)|
    ensures Concat(chunks)[..|Concat(chunks[..i])|] == Concat(chunks[..i])
    decreases |chunks|
  {
    var m := |chunks| - 1;
    var front := chunks[..m];
    if i < m {
      ConcatPrefix(front, i);
      assert front[..i] == chunks[..i];
    }
  }

  /** The request is handed on once, as a whole, on the last chunk and not before. */
  ghost predicate DeliveredOnLast(r: Request, chunks: seq<Bytes>, contentLength: Bytes -> LengthHeader)
    requires ParseLine(r.line).PostTo? && chunks != []
  {
    var before := Feed(FRESH, chunks[..|chunks| - 1], contentLength);
    var c := Feed(FRESH, chunks, contentLength);
    && !before.closed && before.sent == [] && before.answers == []
    && c.sent == [(r.body, Subscriber(r))] && c.answers == [Ok200]
  }

  /** No proper part of a request of the right length makes the server act. */
  lemma PartWaits(r: Request, chunks: seq<Bytes>, i: nat, contentLength: Bytes -> LengthHeader)
    requires WellFormed(r, contentLength) && Chunking(chunks, Wire(r)) && i < |chunks|
    requires |r.body| == Expected(r, contentLength)
    ensures var c := Receive(FRESH, Concat(chunks[..i]), contentLength);
            !c.closed && c.sent == [] && c.answers == []
  {
    ConcatPrefix(chunks, i);
    ActsExactlyWhenComplete(r, |Concat(chunks[..i])|, contentLength);
  }

  lemma PartsWait(r: Request, chunks: seq<Bytes>, m: nat, contentLength: Bytes -> LengthHeader)
    requires WellFormed(r, contentLength) && Chunking(chunks, Wire(r)) && 0 < m <= |chunks|
    requires |r.body| == Expected(r, contentLength)
    ensures Feed(FRESH, chunks[..m], contentLength) == Receive(FRESH, Concat(chunks[..m]), contentLength)
  {
    var front := chunks[..m];
    forall i | 0 < i < |front| ensures !Receive(FRESH, Concat(front[..i]), contentLength).closed {
      assert front[..i] == chunks[..i];
      PartWaits(r, chunks, i, contentLength);
    }
    FeedIsReceive(front, contentLength);
  }

  lemma AnyChunking(r: Request, chunks: seq<Bytes>, contentLength: Bytes -> LengthHeader)
    requires WellFormed(r, contentLength) && Chunking(chunks, Wire(r))
    requires |r.body| == Expected(r, contentLength)
    ensures var before := Feed(FRESH, chunks[..|chunks| - 1], contentLength);
            && !before.closed && before.sent == [] && before.answers == []
            && Feed(FRESH, chunks, contentLength) == Receive(FRESH, Wire(r), contentLength)
  {
    var m := |chunks| - 1;
    assert chunks[..m + 1] == chunks;
    PartsWait(r, chunks, m + 1, contentLength);
    if m > 0 {
      PartsWait(r, chunks, m, contentLength);
      PartWaits(r, chunks, m, contentLength);
    }
  }

  /**
   Chunking invariance. A well-formed POST for a subscriber is delivered once,
   on its last chunk, with exactly its body and one 200 status, for every split
   into non-empty chunks, if and only if its body has exactly the announced length.
   */
  lemma ChunkingInvarianceIff(r: Request, contentLength: Bytes -> LengthHeader)
    requires WellFormed(r, contentLength) && Subscriber(r) != []
    ensures |r.body| == Expected(r, contentLength) <==>
              forall chunks | Chunking(chunks, Wire(r)) :: DeliveredOnLast(r, chunks, contentLength)
  {
    var n := Expected(r, contentLength);
    if |r.body| == n {
      forall chunks | Chunking(chunks, Wire(r)) ensures DeliveredOnLast(r, chunks, contentLength) {
        AnyChunking(r, chunks, contentLength);
        HeadReceived(r, r.body, contentLength);
      }
    } else if |r.body| < n {
      ShortBodyIsKept(r, contentLength);
    } else {
      var chunks := LongBodyIsCut(r, contentLength);
    }
  }

  lemma ShortBodyIsKept(r: Request, contentLength: Bytes -> LengthHeader)
    requires WellFormed(r, contentLength) && |r.body| < Expected(r, contentLength)
    ensures Chunking([Wire(r)], Wire(r)) && !DeliveredOnLast(r, [Wire(r)], contentLength)
  {
    OneChunk(Wire(r), contentLength);
    ActsExactlyWhenComplete(r, |Wire(r)|, contentLength);
    assert Wire(r)[..|Wire(r)|] == Wire(r);
  }

  lemma LongBodyIsCut(r: Request, contentLength: Bytes -> LengthHeader) returns (chunks: seq<Bytes>)
    requires WellFormed(r, contentLength) && |r.body| > Expected(r, contentLength)
    ensures Chunking(chunks, Wire(r)) && !DeliveredOnLast(r, chunks, contentLength)
  {
    var k := |Head(r)| + Expected(r, contentLength);
    ActsExactlyWhenComplete(r, k, contentLength);
    chunks := CutAt(Wire(r), k);
    ClosedBeforeLast(r, chunks[0], chunks[1], contentLength);
  }

  lemma CutAt(data: Bytes, k: nat) returns (chunks: seq<Bytes>)
    requires 0 < k < |data|
    ensures chunks == [data[..k], data[k..]] && Chunking(chunks, data)
  {
    chunks := [data[..k], data[k..]];
    TwoChunks(data[..k], data[k..]);
    assert data[..k] + data[k..] == data;
  }

  lemma ClosedBeforeLast(r: Request, x: Bytes, y: Bytes, contentLength: Bytes -> LengthHeader)
    requires ParseLine(r.line).PostTo? && Receive(FRESH, x, contentLength).closed
    ensures !DeliveredOnLast(r, [x, y], contentLength)
  {
    TwoChunks(x, y);
    OneChunk(x, contentLength);
  }

  lemma TwoChunks(x: Bytes, y: Bytes)
    ensures [x, y][..1] == [x] && Concat([x, y]) == x + y
    ensures x != [] && y != [] ==> Chunking([x, y], x + y)
  {
    assert [x, y][..1] == [x] && [x][..0] == [];
    assert Concat([x]) == [] + x == x;
  }

  lemma OneChunk(x: Bytes, contentLength: Bytes -> LengthHeader)
    ensures Feed(FRESH, [x], contentLength) == Receive(FRESH, x, contentLength)
    ensures x != [] ==> Chunking([x], x)
  {
    FeedSnoc(FRESH, [], x, contentLength);
    assert [] + [x] == [x];
    assert [x][..0] == [];
  }

  /** A POST to no subscriber, complete to the byte, is refused and never handed on,
      however it is cut. */
  lemma NoSubscriberIsRefused(r: Request, chunks: seq<Bytes>, contentLength: Bytes -> LengthHeader)
    requires WellFormed(r, contentLength) && Subscriber(r) == [] && Chunking(chunks, Wire(r))
    requires |r.body| == Expected(r, contentLength)
    ensures var c := Feed(FRESH, chunks, contentLength);
            c.sent == [] && c.answers == [BadRequest400] && c.closed
  {
    AnyChunking(r, chunks, contentLength);
    HeadReceived(r, r.body, contentLength);
  }

  // ---- Request lines, in terms of their words ----

  predicate Word(w: Bytes) {
    w != [] && forall i | 0 <= i < |w| :: !Space(w[i])
  }

  lemma {:induction false} WordLengthIs(w: Bytes, rest: Bytes)
    requires Word(w) && (rest == [] || Space(rest[0]))
    ensures WordLength(w + rest) == |w|
    decreases |w|
  {
    assert (w + rest)[0] == w[0] && (w + rest)[1..] == w[1..] + rest;
    if |w| > 1 {
      WordLengthIs(w[1..], rest);
    } else {
      assert w[1..] + rest == rest;
    }
  }

  lemma FirstWord(w: Bytes, rest: Bytes)
    requires Word(w)
    ensures Words(w) == [w] && Words(w + [32] + rest) == [w] + Words(rest)
  {
    WordLengthIs(w, []);
    assert w + [] == w && w[..|w|] == w && w[|w|..] == [];
    var s := w + [32] + rest;
    assert s == w + ([32] + rest);
    WordLengthIs(w, [32] + rest);
    assert s[..|w|] == w && s[|w|..] == [32] + rest && ([32] + rest)[1..] == rest;
  }

  lemma ThreeWords(verb: Bytes, uri: Bytes, version: Bytes)
    requires Word(verb) && Word(uri) && Word(version)
    ensures Words(verb + [32] + (uri + [32] + version)) == [verb, uri, version]
  {
    FirstWord(verb, uri + [32] + version);
    FirstWord(uri, version);
    FirstWord(version, []);
  }

  /** A line of three words separated by blanks is addressed to its second word without the
      first byte, if the first word is POST. */
  lemma LineIsUnderstood(verb: Bytes, uri: Bytes, version: Bytes)
    requires Word(verb) && Word(uri) && Word(version)
    ensures ParseLine(verb + [32] + (uri + [32] + version)) ==
              if verb == [80, 79, 83, 84] then PostTo(uri[1..]) else OtherVerb
  {
    ThreeWords(verb, uri, version);
  }

  /** How many words end in the line. */
  function WordEnds(s: Bytes): nat {
    if s == [] then 0
    else (if !Space(s[0]) && (|s| == 1 || Space(s[1])) then 1 else 0) + WordEnds(s[1..])
  }

  lemma {:induction false} OneWordEnds(s: Bytes)
    requires s != [] && !Space(s[0])
    ensures WordEnds(s) == 1 + WordEnds(s[WordLength(s)..])
    decreases |s|
  {
    var rest := s[1..];
    if rest == [] || Space(rest[0]) {
      assert WordLength(rest) == 0;
    } else {
      OneWordEnds(rest);
      assert s[WordLength(s)..] == rest[WordLength(rest)..];
    }
  }

  lemma {:induction false} WordsAreCounted(s: Bytes)
    ensures |Words(s)| == WordEnds(s)
    decreases |s|
  {
    if s != [] {
      if Space(s[0]) {
        WordsAreCounted(s[1..]);
      } else {
        OneWordEnds(s);
        WordsAreCounted(s[WordLength(s)..]);
      }
    }
  }

  /** A line is not understood exactly when it does not have three words. */
  lemma UnparsableIff(line: Bytes)
    ensures ParseLine(line).Unparsable? <==> WordEnds(line) != 3
  {
    WordsAreCounted(line);
  }

  /** The first line ends at the first CR LF; a line without CR ends where it should. */
  lemma {:induction false} LineEnds(line: Bytes)
    requires forall i | 0 <= i < |line| :: line[i] != 13
    ensures IndexOf(line + [13, 10], [13, 10]) == |line|
    decreases |line|
  {
    var s := line + [13, 10];
    if line == [] {
      assert s == [13, 10] && s[..2] == [13, 10];
    } else {
      assert s[..2][0] == line[0] && s[1..] == line[1..] + [13, 10];
      LineEnds(line[1..]);
    }
  }

  // ---- Requests that are refused ----

  predicate Silent(c: Conn) {
    !c.closed && c.sent == [] && c.answers == []
  }

  /** The connection is over and nothing was handed on. */
  predicate Ended(c: Conn, answers: seq<Status>) {
    c.closed && c.sent == [] && c.answers == answers
  }

  lemma {:induction false} FeedClosed(c: Conn, a: seq<Bytes>, b: seq<Bytes>, contentLength: Bytes -> LengthHeader)
    requires Feed(c, a, contentLength).closed
    ensures Feed(c, a + b, contentLength) == Feed(c, a, contentLength)
    decreases |a|
  {
    if !c.closed {
      assert (a + b)[0] == a[0] && (a + b)[1..] == a[1..] + b;
      FeedClosed(Receive(c, a[0], contentLength), a[1..], b, contentLength);
    }
  }

  /** Where the chunks first reach the cut. */
  lemma {:induction false} FirstReach(chunks: seq<Bytes>, cut: nat) returns (i: nat)
    requires 0 < cut <= |Concat(chunks)| && forall j | 0 <= j < |chunks| :: chunks[j] != []
    ensures 0 < i <= |chunks| && |Concat(chunks[..i])| >= cut
    ensures forall j | 0 <= j < i :: |Concat(chunks[..j])| < cut
    decreases |chunks|
  {
    var m := |chunks| - 1;
    var front := chunks[..m];
    if |Concat(front)| >= cut {
      i := FirstReach(front, cut);
      assert front[..i] == chunks[..i];
      assert forall j | 0 <= j < i :: front[..j] == chunks[..j];
    } else {
      i := |chunks|;
      assert chunks[..i] == chunks;
      forall j | 0 <= j < i ensures |Concat(chunks[..j])| < cut {
        if j < m {
          ConcatPrefix(front, j);
          assert front[..j] == chunks[..j];
        }
      }
    }
  }

  lemma PrefixOf(chunks: seq<Bytes>, i: nat)
    requires i <= |chunks| && forall j | 0 <= j < |chunks| :: chunks[j] != []
    ensures var n := |Concat(chunks[..i])|;
            n <= |Concat(chunks)| && Concat(chunks)[..n] == Concat(chunks[..i])
  {
    if i < |chunks| { ConcatPrefix(chunks, i); } else { assert chunks[..i] == chunks; }
  }

  /** The server has heard the first m bytes and kept silent, or has ended. */
  predicate SilentAt(data: Bytes, m: nat, contentLength: Bytes -> LengthHeader)
    requires m <= |data|
  {
    Silent(Receive(FRESH, data[..m], contentLength))
  }

  predicate EndedAt(data: Bytes, m: nat, answers: seq<Status>, contentLength: Bytes -> LengthHeader)
    requires m <= |data|
  {
    Ended(Receive(FRESH, data[..m], contentLength), answers)
  }

  lemma ChunksEnd(data: Bytes, front: seq<Bytes>, answers: seq<Status>, contentLength: Bytes -> LengthHeader)
    requires front != [] && |Concat(front)| <= |data| && Concat(front) == data[..|Concat(front)|]
    requires forall j | 0 <= j < |front| ::
               && |Concat(front[..j])| <= |data| && Concat(front[..j]) == data[..|Concat(front[..j])|]
               && SilentAt(data, |Concat(front[..j])|, contentLength)
    requires EndedAt(data, |Concat(front)|, answers, contentLength)
    ensures Ended(Feed(FRESH, front, contentLength), answers)
  {
    FeedIsReceive(front, contentLength);
  }

  /** If the server keeps silent up to the cut and from there on has ended with these answers,
      then every way of cutting the data into chunks ends with them. */
  lemma EndsHoweverCut(data: Bytes, cut: nat, chunks: seq<Bytes>, answers: seq<Status>,
                       contentLength: Bytes -> LengthHeader)
    requires Chunking(chunks, data) && 0 < cut <= |data|
    requires forall m: nat | m < cut :: SilentAt(data, m, contentLength)
    requires forall m: nat | cut <= m <= |data| :: EndedAt(data, m, answers, contentLength)
    ensures Ended(Feed(FRESH, chunks, contentLength), answers)
  {
    var i := FirstReach(chunks, cut);
    var front := chunks[..i];
    forall j | 0 <= j < |front|
      ensures && |Concat(front[..j])| <= |data| && Concat(front[..j]) == data[..|Concat(front[..j])|]
              && SilentAt(data, |Concat(front[..j])|, contentLength)
    {
      assert front[..j] == chunks[..j];
      PrefixOf(chunks, j);
    }
    PrefixOf(chunks, i);
    ChunksEnd(data, front, answers, contentLength);
    assert front + chunks[i..] == chunks;
    FeedClosed(FRESH, front, chunks[i..], contentLength);
  }

  /** While the request line is incomplete, the server waits. */
  lemma PartialLineWaits(line: Bytes, rest: Bytes, m: nat, contentLength: Bytes -> LengthHeader)
    requires IndexOf(line + CRLF, CRLF) == |line| && m < |line| + 2
    ensures Silent(Receive(FRESH, (line + CRLF + rest)[..m], contentLength))
  {
    var all := line + CRLF;
    var x, y := all[..m], all[m..];
    assert (all + rest)[..m] == x && x + y == all;
    NoEndInFront(x, y);
    NoLineWaits(x, contentLength);
  }

  lemma NoEndInFront(x: Bytes, y: Bytes)
    requires y != [] && IndexOf(x + y, CRLF) == |x| + |y| - 2
    ensures IndexOf(x, CRLF) < 0
  {
    var i := IndexOf(x, CRLF);
    if i >= 0 {
      assert i + 2 <= |x|;
      IndexStable(x, y, CRLF);
      assert false;
    }
  }

  lemma NoLineWaits(x: Bytes, contentLength: Bytes -> LengthHeader)
    requires IndexOf(x, CRLF) < 0
    ensures Silent(Receive(FRESH, x, contentLength))
  {
    ReceiveFresh(x, contentLength);
  }

  lemma WholeLineIsParsed(line: Bytes, rest: Bytes, contentLength: Bytes -> LengthHeader)
    requires IndexOf(line + CRLF, CRLF) == |line| && !ParseLine(line).PostTo?
    ensures Ended(Receive(FRESH, line + CRLF + rest, contentLength),
                  if ParseLine(line).OtherVerb? then [NotAllowed405] else [])
  {
    var d := line + CRLF + rest;
    ReceiveFresh(d, contentLength);
    IndexStable(line + CRLF, rest, CRLF);
    CutLater(line + CRLF, rest, |line|, 2);
    assert (line + CRLF)[..|line|] == line;
    var c := RequestLineAt(FRESH.(data := d), |line|);
    assert RequestLine(FRESH.(data := d)) == c && c.closed;
    ClosedPasses(c, contentLength);
  }

  lemma ClosedPasses(c: Conn, contentLength: Bytes -> LengthHeader)
    requires c.closed
    ensures Body(Headers(c, contentLength)) == c
  {
  }

  /** A request line that is no POST ends the connection, in whatever chunks it comes. */
  lemma BadLineEnds(line: Bytes, rest: Bytes, chunks: seq<Bytes>, contentLength: Bytes -> LengthHeader)
    requires IndexOf(line + CRLF, CRLF) == |line| && !ParseLine(line).PostTo?
    requires Chunking(chunks, line + CRLF + rest)
    ensures Ended(Feed(FRESH, chunks, contentLength), if ParseLine(line).OtherVerb? then [NotAllowed405] else [])
  {
    var data := line + CRLF + rest;
    var answers := if ParseLine(line).OtherVerb? then [NotAllowed405] else [];
    forall m: nat | m < |line| + 2 ensures SilentAt(data, m, contentLength) {
      PartialLineWaits(line, rest, m, contentLength);
    }
    forall m: nat | |line| + 2 <= m <= |data| ensures EndedAt(data, m, answers, contentLength) {
      var got := rest[..m - |line| - 2];
      assert data[..m] == line + CRLF + got;
      WholeLineIsParsed(line, got, contentLength);
    }
    EndsHoweverCut(data, |line| + 2, chunks, answers, contentLength);
  }

  /** Another verb is answered by one 405. */
  lemma OtherVerbIsRefused(verb: Bytes, uri: Bytes, version: Bytes, rest: Bytes, chunks: seq<Bytes>,
                           contentLength: Bytes -> LengthHeader)
    requires Word(verb) && Word(uri) && Word(version) && verb != [80, 79, 83, 84]
    requires Chunking(chunks, verb + [32] + (uri + [32] + version) + [13, 10] + rest)
    ensures Ended(Feed(FRESH, chunks, contentLength), [NotAllowed405])
  {
    var line := verb + [32] + (uri + [32] + version);
    LineIsUnderstood(verb, uri, version);
    WordsHaveNoReturn(verb, uri, version);
    LineEnds(line);
    BadLineEnds(line, rest, chunks, contentLength);
  }

  lemma WordsHaveNoReturn(verb: Bytes, uri: Bytes, version: Bytes)
    requires Word(verb) && Word(uri) && Word(version)
    ensures var line := verb + [32] + (uri + [32] + version); forall i | 0 <= i < |line| :: line[i] != 13
  {
  }

  /** A line without three words is dropped without an answer. */
  lemma OddLineIsDropped(line: Bytes, rest: Bytes, chunks: seq<Bytes>, contentLength: Bytes -> LengthHeader)
    requires (forall i | 0 <= i < |line| :: line[i] != 13) && WordEnds(line) != 3
    requires Chunking(chunks, line + [13, 10] + rest)
    ensures Ended(Feed(FRESH, chunks, contentLength), [])
  {
    UnparsableIff(line);
    LineEnds(line);
    BadLineEnds(line, rest, chunks, contentLength);
  }

  lemma WholeHeadIsParsed(r: Request, body: Bytes, contentLength: Bytes -> LengthHeader)
    requires Headed(r) && !contentLength(r.headers).Length?
    ensures Ended(Receive(FRESH, Head(r) + body, contentLength),
                  if contentLength(r.headers).Absent? then [BadRequest400] else [])
  {
    ReceiveFresh(Head(r) + body, contentLength);
    HeadAssociates(r, body);
    LineParsed(r, r.headers + BLANK_LINE + body);
    IndexStable(r.headers + BLANK_LINE, body, BLANK_LINE);
    CutLater(r.headers + BLANK_LINE, body, |r.headers|, 4);
    assert (r.headers + BLANK_LINE)[..|r.headers|] == r.headers;
  }

  /** A POST without a content length is answered by one 400; one whose length is no number is
      dropped without an answer. */
  lemma NoLengthIsRefused(r: Request, chunks: seq<Bytes>, contentLength: Bytes -> LengthHeader)
    requires Headed(r) && !contentLength(r.headers).Length? && Chunking(chunks, Wire(r))
    ensures Ended(Feed(FRESH, chunks, contentLength), if contentLength(r.headers).Absent? then [BadRequest400] else [])
  {
    var answers := if contentLength(r.headers).Absent? then [BadRequest400] else [];
    forall m: nat | m < |Head(r)| ensures SilentAt(Wire(r), m, contentLength) {
      assert Wire(r)[..m] == Head(r)[..m];
      PartialHeadWaits(r, m, contentLength);
    }
    forall m: nat | |Head(r)| <= m <= |Wire(r)| ensures EndedAt(Wire(r), m, answers, contentLength) {
      var got := r.body[..m - |Head(r)|];
      assert Wire(r)[..m] == Head(r) + got;
      WholeHeadIsParsed(r, got, contentLength);
    }
    EndsHoweverCut(Wire(r), |Head(r)|, chunks, answers, contentLength);
  }

  // ---- Requests that are delivered ----

  /** The bytes of a POST. */
  function PostBytes(uri: Bytes, version: Bytes, headers: Bytes, body: Bytes): Bytes {
    [80, 79, 83, 84] + [32] + (uri + [32] + version) + [13, 10] + (headers + [13, 10, 13, 10]) + body
  }

  /**
   A POST to a path, in whatever chunks it comes: on its last chunk, and not
   before, its body is handed to the subscriber named by the path without the
   leading byte, and answered by one 200; without a subscriber, by one 400.
   */
  lemma PostIsDelivered(uri: Bytes, version: Bytes, headers: Bytes, body: Bytes, n: int, chunks: seq<Bytes>,
                        contentLength: Bytes -> LengthHeader)
    requires Word(uri) && Word(version) && IndexOf(headers + [13, 10, 13, 10], [13, 10, 13, 10]) == |headers|
    requires contentLength(headers) == Length(n) && |body| == (if n < 0 then 0 else n)
    requires Chunking(chunks, PostBytes(uri, version, headers, body))
    ensures Silent(Feed(FRESH, chunks[..|chunks| - 1], contentLength))
    ensures var c := Feed(FRESH, chunks, contentLength);
            && c.closed
            && c.sent == (if |uri| > 1 then [(body, uri[1..])] else [])
            && c.answers == [if |uri| > 1 then Ok200 else BadRequest400]
  {
    var line := [80, 79, 83, 84] + [32] + (uri + [32] + version);
    LineIsUnderstood([80, 79, 83, 84], uri, version);
    WordsHaveNoReturn([80, 79, 83, 84], uri, version);
    LineEnds(line);
    var r := Request(line, headers, body);
    assert Wire(r) == PostBytes(uri, version, headers, body);
    AnyChunking(r, chunks, contentLength);
    HeadReceived(r, body, contentLength);
  }
}
