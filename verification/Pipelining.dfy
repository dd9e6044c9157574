/** Requests as a client writes them, through the whole receive path: pipelined, fragmented in any way, each is
    dispatched once, in order, with its own body. */
module Pipelining {
  import opened Wrappers
  import opened Text
  import opened Numbers
  import opened HttpParsing
  import opened Reassembly
  import opened ContentLengths

  datatype WireRequest = WireRequest(line: string, headers: seq<string>, body: string)

  predicate GoodLine(line: string) {
    line != "" && forall k :: 0 <= k < |line| ==> line[k] != '\r' && line[k] != '\n'
  }

  predicate GoodLines(lines: seq<string>) {
    forall k :: 0 <= k < |lines| ==> GoodLine(lines[k])
  }

  /** Each line with its CRLF, then the empty line. */
  function Head(lines: seq<string>): string {
    if lines == [] then CRLF else lines[0] + (CRLF + Head(lines[1..]))
  }

  function Bytes(w: WireRequest): string {
    Head([w.line] + w.headers) + w.body
  }

  // ---------- The head of a request ----------

  lemma {:induction false} HeadLength(lines: seq<string>)
    requires lines != [] && GoodLines(lines)
    ensures |Head(lines)| >= 5
  {
    assert lines[0] != "";
    assert |Head(lines)| == |lines[0]| + 2 + |Head(lines[1..])|;
    assert |Head(lines[1..])| >= 2;
  }

  lemma {:induction false} HeadSplits(lines: seq<string>, more: string)
    requires lines != []
    ensures Head(lines) + more == lines[0] + (CRLF + (Head(lines[1..]) + more))
    ensures |Head(lines)| == |lines[0]| + 2 + |Head(lines[1..])|
    ensures lines[1..] == [] ==> Head(lines[1..]) == CRLF
  {
  }

  /** The blank line is the end of the head, whatever follows. */
  lemma {:induction false} BlankEndsHead(lines: seq<string>, more: string)
    requires lines != [] && GoodLines(lines)
    ensures |Head(lines)| >= 5 && Find(Head(lines) + more, BLANK_LINE) == Some(|Head(lines)| - 4)
    decreases |lines|
  {
    HeadLength(lines);
    hide Find, GoodLine, Head;
    var line, rest := lines[0], lines[1..];
    HeadSplits(lines, more);
    if rest == [] {
      LastOfHead(line, more);
    } else {
      HeadStart(rest);
      BlankEndsHead(rest, more);
      hide GoodLines;
      SkipLine(line, Head(rest) + more);
    }
  }

  lemma {:induction false} HeadStart(lines: seq<string>)
    requires lines != [] && GoodLine(lines[0])
    ensures Head(lines) != "" && Head(lines)[0] != '\r'
  {
  }

  lemma {:induction false} NotInLine(line: string, rest: string, k: nat)
    requires GoodLine(line) && k < |line|
    ensures !At(line + rest, BLANK_LINE, k)
  {
    assert (line + rest)[k] == line[k];
    Mismatch(line + rest, BLANK_LINE, k, 0);
  }

  lemma {:induction false} LastOfHead(line: string, more: string)
    requires GoodLine(line)
    ensures Find(line + (CRLF + (CRLF + more)), BLANK_LINE) == Some(|line|)
  {
    hide Find, At;
    var rest := BLANK_LINE + more;
    assert line + (CRLF + (CRLF + more)) == line + rest;
    forall k | 0 <= k < |line| ensures !At(line + rest, BLANK_LINE, k) { NotInLine(line, rest, k); }
    FindStep(rest, BLANK_LINE);
    FindBehind(line, rest, BLANK_LINE);
  }

  lemma {:induction false} SkipLine(line: string, rest: string)
    requires GoodLine(line) && rest != "" && rest[0] != '\r' && Find(rest, BLANK_LINE).Some?
    ensures Find(line + (CRLF + rest), BLANK_LINE) == Some(Find(rest, BLANK_LINE).value + |line| + 2)
  {
    hide Find, At, GoodLine;
    var prefix := line + CRLF;
    forall k | 0 <= k < |prefix| ensures !At(prefix + rest, BLANK_LINE, k) { NotUpToLineEnd(line, rest, k); }
    FindBehind(prefix, rest, BLANK_LINE);
    LineEndAssoc(line, rest);
  }

  lemma {:induction false} LineEndAssoc(line: string, rest: string)
    ensures line + (CRLF + rest) == (line + CRLF) + rest
  {
  }

  lemma {:induction false} NotUpToLineEnd(line: string, rest: string, k: nat)
    requires GoodLine(line) && rest != "" && rest[0] != '\r' && k < |line| + 2
    ensures !At((line + CRLF) + rest, BLANK_LINE, k)
  {
    hide At, GoodLine;
    LineEndAssoc(line, rest);
    if k < |line| {
      NotInLine(line, CRLF + rest, k);
    } else {
      NotAtLineEnd(line, rest);
    }
  }

  lemma {:induction false} NotAtLineEnd(line: string, rest: string)
    requires rest != "" && rest[0] != '\r'
    ensures !At(line + (CRLF + rest), BLANK_LINE, |line|)
    ensures !At(line + (CRLF + rest), BLANK_LINE, |line| + 1)
  {
    var s, k := line + (CRLF + rest), |line|;
    assert s[k + 1] == '\n' && s[k + 2] == rest[0];
    Mismatch(s, BLANK_LINE, k, 2);
    Mismatch(s, BLANK_LINE, k + 1, 0);
  }

  lemma {:induction false} LineFeedOfLine(line: string, rest: string)
    requires GoodLine(line)
    ensures var s := line + (CRLF + rest);
      IndexOf(s, '\n') == |line| + 1 && s[..|line| + 1] == line + "\r" && s[|line| + 2..] == rest
    ensures StripCr(line + "\r") == line
  {
    var s := line + (CRLF + rest);
    assert s[|line|] == '\r' && s[|line| + 1] == '\n';
    assert forall k :: 0 <= k < |line| ==> s[k] == line[k];
  }

  lemma {:induction false} LinesOfHead(lines: seq<string>, more: string)
    requires GoodLines(lines)
    ensures HeaderLines(Head(lines) + more) == lines
    decreases |lines|
  {
    hide HeaderLines, StripCr, IndexOf;
    if lines == [] {
      BlankStops(CRLF + more);
    } else {
      var rest := Head(lines[1..]) + more;
      var s := Head(lines) + more;
      assert s == lines[0] + (CRLF + rest);
      LineFeedOfLine(lines[0], rest);
      SplitLine(s, |lines[0]| + 1);
      LinesOfHead(lines[1..], more);
      assert lines == [lines[0]] + lines[1..];
    }
  }

  // ---------- One request ----------

  /** The fields after the request line and the headers, and before the body is set. */
  function AfterHeaders(q: Request, w: WireRequest): (bool, Request) {
    var line := ParseRequestLine(q, w.line);
    if !line.0 then line else ParseHeaders(line.1, w.headers)
  }

  predicate GoodText(w: WireRequest) {
    GoodLine(w.line) && GoodLines(w.headers)
  }

  /** On such a text parse is the request line, the header list, and the body. */
  lemma {:induction false} ParseOfBytes(q: Request, w: WireRequest)
    requires GoodText(w)
    ensures var r := AfterHeaders(q, w); Parse(q, Bytes(w)) == if r.0 then ParseBody(r.1, Bytes(w)) else r
    ensures FullLines(Bytes(w)) == w.headers
  {
    hide ParseRequestLine, ParseHeaders, ParseBody, HeaderLines, StripCr, IndexOf;
    var rest := Head(w.headers) + w.body;
    BytesSplit(w);
    LineFeedOfLine(w.line, rest);
    GetLineAt(Bytes(w), |w.line| + 1);
    hide GetLine;
    LinesOfHead(w.headers, w.body);
  }

  lemma {:induction false} BytesSplit(w: WireRequest)
    ensures Bytes(w) == w.line + (CRLF + (Head(w.headers) + w.body))
  {
    var all := [w.line] + w.headers;
    assert all[1..] == w.headers;
    assert Head(all) == w.line + (CRLF + Head(w.headers));
  }

  lemma {:induction false} BlankOfBytes(w: WireRequest, more: string)
    requires GoodText(w)
    ensures |Bytes(w)| >= |w.body| + 4
    ensures Find(Bytes(w) + more, BLANK_LINE) == Some(|Bytes(w)| - |w.body| - 4)
  {
    hide Find;
    var all := [w.line] + w.headers;
    assert Head(all) + w.body + more == Head(all) + (w.body + more);
    BlankEndsHead(all, w.body + more);
  }

  /** The length the carving loop uses, when the headers parse. */
  lemma {:induction false} LengthOfBytes(w: WireRequest, more: string)
    requires GoodText(w) && AfterHeaders(EMPTY_REQUEST, w).0
    ensures ContentLength(Bytes(w) + more) == FirstLength(w.headers)
  {
    hide Find, ParseRequestLine, ParseHeaders, FullLines, CutLines, FirstLength, ContentLength, Parse, SameUpToCr;
    BlankOfBytes(w, "");
    assert Bytes(w) + "" == Bytes(w);
    ContentLengthStays(Bytes(w), more);
    LengthOfCutLines(Bytes(w));
    SameLines(Bytes(w));
    ParseOfBytes(EMPTY_REQUEST, w);
    LastCrIgnored(ParseRequestLine(EMPTY_REQUEST, w.line).1, FullLines(Bytes(w)), CutLines(Bytes(w)));
  }

  /** A request the carving loop takes as a whole: a known version, headers with a colon, and the first length is that
      of the body. */
  ghost predicate Framed(w: WireRequest) {
    && GoodText(w) && |Bytes(w)| < TWO_64
    && AfterHeaders(EMPTY_REQUEST, w).0
    && FirstLength(w.headers) == |w.body|
  }

  /** A request the server accepts: the stored length, if any, agrees. */
  ghost predicate WellFormed(w: WireRequest) {
    && Framed(w)
    && var h := AfterHeaders(EMPTY_REQUEST, w).1.headers;
      CONTENT_LENGTH in h ==> Stoul(h[CONTENT_LENGTH]) == Some(|w.body|)
  }

  function Meaning(w: WireRequest): Request {
    AfterHeaders(EMPTY_REQUEST, w).1.(body := w.body)
  }

  lemma {:induction false} ParseWellFormed(w: WireRequest)
    requires WellFormed(w)
    ensures Parse(EMPTY_REQUEST, Bytes(w)) == (true, Meaning(w))
  {
    hide Find, Parse, AfterHeaders, Stoul, FirstLength, AddSize;
    ParseOfBytes(EMPTY_REQUEST, w);
    BlankOfBytes(w, "");
    assert Bytes(w) + "" == Bytes(w);
    var head := Head([w.line] + w.headers);
    assert Bytes(w)[|head|..] == w.body;
    assert Bytes(w)[|head|..|Bytes(w)|] == w.body;
  }

  lemma {:induction false} CarvedLength(w: WireRequest, more: string)
    requires Framed(w)
    ensures var buf := Bytes(w) + more;
      Complete(buf) && RequestLength(buf) == |Bytes(w)| && buf[..|Bytes(w)|] == Bytes(w) && buf[|Bytes(w)|..] == more
  {
    var bytes := Bytes(w);
    var buf := bytes + more;
    assert Find(buf, BLANK_LINE).Some? && Find(buf, BLANK_LINE).value + 4 + ContentLength(buf) == |bytes| < TWO_64 by {
      hide Find, ContentLength, AfterHeaders, Stoul, FirstLength, GoodText, Bytes;
      BlankOfBytes(w, more);
      LengthOfBytes(w, more);
    }
    hide Find, ContentLength, Framed, Bytes, Complete, RequestLength;
    RequestLengthIs(buf, |bytes|);
  }

  /** One framed request in an empty buffer, whatever the request object holds: all of it goes through parse. */
  lemma {:induction false} HandleFramed(q: Request, w: WireRequest, log: seq<Event>)
    requires Framed(w)
    ensures var parsed := Parse(q, Bytes(w));
      HandleRead(Input("", q, log), Bytes(w)) ==
        if parsed.0 then Input("", EMPTY_REQUEST, log + [Dispatched(parsed.1)])
        else Input("", parsed.1, log + [BadRequest])
  {
    hide Carve, Malformed, Complete, RequestLength, Parse, Framed, Bytes;
    CarvedLength(w, "");
    assert Bytes(w) + "" == Bytes(w) && "" + Bytes(w) == Bytes(w);
    CarveStep(Input(Bytes(w), q, log));
    EmptyIsSettled(Input("", EMPTY_REQUEST, log + [Dispatched(Parse(q, Bytes(w)).1)]));
  }

  /** The body of a framed request is what lies behind its blank line. */
  lemma {:induction false} BodyOfBytes(w: WireRequest)
    requires GoodText(w)
    ensures var blank := Find(Bytes(w), BLANK_LINE);
      blank.Some? && |Bytes(w)| == blank.value + 4 + |w.body| && Bytes(w)[blank.value + 4..] == w.body
  {
    hide Find;
    BlankOfBytes(w, "");
    assert Bytes(w) + "" == Bytes(w);
    var head := Head([w.line] + w.headers);
    assert Bytes(w)[|head|..] == w.body;
  }

  /** The carving loop takes exactly one well-formed request off the buffer. */
  lemma {:induction false} CarveOne(w: WireRequest, more: string, log: seq<Event>)
    requires WellFormed(w)
    ensures var i := Input(Bytes(w) + more, EMPTY_REQUEST, log);
      var next := Input(more, EMPTY_REQUEST, log + [Dispatched(Meaning(w))]);
      Carve(i) == Carve(next) && Malformed(i) == Malformed(next)
  {
    CarvedLength(w, more);
    ParseWellFormed(w);
    hide Complete, RequestLength, Parse, Meaning, Bytes, WellFormed;
  }

  // ---------- Many requests ----------

  function StreamOf(ws: seq<WireRequest>): string {
    if ws == [] then "" else Bytes(ws[0]) + StreamOf(ws[1..])
  }

  function Meanings(ws: seq<WireRequest>): seq<Event> {
    if ws == [] then [] else [Dispatched(Meaning(ws[0]))] + Meanings(ws[1..])
  }

  lemma {:induction false} CarveMany(ws: seq<WireRequest>, log: seq<Event>)
    requires forall k :: 0 <= k < |ws| ==> WellFormed(ws[k])
    ensures var i := Input(StreamOf(ws), EMPTY_REQUEST, log);
      Carve(i) == Input("", EMPTY_REQUEST, log + Meanings(ws)) && !Malformed(i)
    decreases |ws|
  {
    hide Carve, Malformed, WellFormed, Bytes, Meaning;
    if ws == [] {
      EmptyIsSettled(Input("", EMPTY_REQUEST, log));
      assert log + [] == log;
    } else {
      CarveOne(ws[0], StreamOf(ws[1..]), log);
      var one := [Dispatched(Meaning(ws[0]))];
      CarveMany(ws[1..], log + one);
      assert log + one + Meanings(ws[1..]) == log + (one + Meanings(ws[1..]));
    }
  }

  /** Behind a malformed request they are all lost in the same batch, and all dispatched in the next. */
  lemma {:induction false} FollowersAreLost(ws: seq<WireRequest>)
    requires forall k :: 0 <= k < |ws| ==> WellFormed(ws[k])
    ensures HandleReads(START, [BLANK_LINE + StreamOf(ws)]).log == [BadRequest]
    ensures HandleReads(START, [BLANK_LINE, StreamOf(ws)]).log == [BadRequest] + Meanings(ws)
  {
    hide Carve, Malformed, WellFormed, StreamOf, Meanings;
    FollowerIsLost(StreamOf(ws));
    CarveMany(ws, [BadRequest]);
    assert "" + StreamOf(ws) == StreamOf(ws);
    var all := BLANK_LINE + StreamOf(ws);
    assert [all][1..] == [];
    assert HandleReads(HandleRead(START, all), []) == HandleRead(START, all);
  }

  /** Any list of well-formed requests, sent back to back and fragmented in any way, is dispatched completely:
      once each, in order, with exactly its own body, and nothing is left in the buffer. */
  lemma {:induction false} PipelinedRequestsAreDispatched(ws: seq<WireRequest>, batches: seq<string>)
    requires (forall k :: 0 <= k < |ws| ==> WellFormed(ws[k])) && Concat(batches) == StreamOf(ws)
    ensures HandleReads(START, batches) == Input("", EMPTY_REQUEST, Meanings(ws))
  {
    hide Carve, Malformed, WellFormed, Concat, StreamOf, Meanings, Settled, HandleReads;
    CarveMany(ws, []);
    EmptyIsSettled(START);
    assert "" + StreamOf(ws) == StreamOf(ws) && [] + Meanings(ws) == Meanings(ws);
    ChunkingIndependence(START, batches);
  }

  // ---------- Where the two length readers part ----------

  function LengthLine(n: nat): string {
    CONTENT_LENGTH + ": " + Digits(n, 10)
  }

  lemma {:induction false} LengthLineReads(n: nat)
    requires n < TWO_64
    ensures var line := LengthLine(n); var colon := IndexOf(line, ':');
      && colon < |line| && HeaderKey(line, colon) == CONTENT_LENGTH && HeaderValue(line, colon) == Digits(n, 10)
      && NamesLength(line) && Stoul(Trim(line[colon + 1..])) == Some(n)
  {
    hide Digits, Stoul, Trim, DropRight;
    var line, colon := LengthLine(n), |CONTENT_LENGTH|;
    assert line[colon] == ':' && line[..colon] == CONTENT_LENGTH && line[colon + 1..] == " " + Digits(n, 10);
    assert IndexOf(line, ':') == colon by { NoColon(line, colon); }
    KeyIsPlain();
    ValueIsPlain(n);
    StoulOfDigits(n);
  }

  lemma {:induction false} NoColon(line: string, colon: nat)
    requires colon < |line| && line[colon] == ':' && line[..colon] == CONTENT_LENGTH
    ensures IndexOf(line, ':') == colon
  {
    assert forall k :: 0 <= k < colon ==> line[k] == CONTENT_LENGTH[k];
  }

  lemma {:induction false} KeyIsPlain()
    ensures DropRight(StripFront(CONTENT_LENGTH), IsBlank) == CONTENT_LENGTH && Trim(CONTENT_LENGTH) == CONTENT_LENGTH
  {
    assert CONTENT_LENGTH[0] == 'C' && CONTENT_LENGTH[|CONTENT_LENGTH| - 1] == 'h';
    assert CONTENT_LENGTH[0..] == CONTENT_LENGTH;
    TrimIdentity(CONTENT_LENGTH);
  }

  lemma {:induction false} ValueIsPlain(n: nat)
    ensures StripFront(" " + Digits(n, 10)) == Digits(n, 10)
  {
    hide Digits;
    var s := " " + Digits(n, 10);
    assert s[1] == Digits(n, 10)[0];
    assert s[1..] == Digits(n, 10);
  }

  lemma {:induction false} StoulOfDigits(n: nat)
    requires n < TWO_64
    ensures Stoul(Trim(" " + Digits(n, 10))) == Some(n) && Stoul(Digits(n, 10)) == Some(n)
  {
    hide Trim, Digits;
    var d := Digits(n, 10);
    StoulOfTrimmed(" " + d);
    StoulIgnoresLeadingSpace(" " + d, 1);
    assert (" " + d)[1..] == d;
    PlainStoul(n);
  }

  lemma {:induction false} PlainStoul(n: nat)
    requires n < TWO_64
    ensures Stoul(Digits(n, 10)) == Some(n)
  {
    hide Digits;
    var d := Digits(n, 10);
    assert Span(d, IsSpace) == 0 && SignLength(d) == 0 && d[0..] == d;
    DigitsParse(n, 10);
  }

  lemma {:induction false} TwoLengthLines(q: Request, a: nat, b: nat)
    requires a < TWO_64 && b < TWO_64
    ensures var lines := [LengthLine(a), LengthLine(b)];
      && CountLengths(lines) == 2 && FirstLength(lines) == a
      && ParseHeaders(q, lines) == (true, q.(headers := q.headers[CONTENT_LENGTH := Digits(b, 10)]))
      && Stoul(Digits(b, 10)) == Some(b)
  {
    hide LengthLine, HeaderKey, HeaderValue, Stoul, Digits, NamesLength, Trim, FirstLength;
    FirstOfTwo(a, b);
    LengthLineReads(a);
    LengthLineReads(b);
    PlainStoul(b);
    var lines := [LengthLine(a), LengthLine(b)];
    assert lines[1..] == [LengthLine(b)] && lines[1..][1..] == [];
    ParseHeadersStep(q, LengthLine(a), [LengthLine(b)]);
    assert lines == [LengthLine(a)] + [LengthLine(b)];
    var q1 := ParseHeader(q, LengthLine(a)).1;
    ParseHeadersStep(q1, LengthLine(b), []);
    assert [LengthLine(b)] == [LengthLine(b)] + [];
    assert q.headers[CONTENT_LENGTH := Digits(a, 10)][CONTENT_LENGTH := Digits(b, 10)] ==
      q.headers[CONTENT_LENGTH := Digits(b, 10)];
    assert ParseHeaders(ParseHeader(q1, LengthLine(b)).1, []) == (true, ParseHeader(q1, LengthLine(b)).1);
  }

  /** A request whose first Content-Length is that of its body and whose second is b. */
  function TwoLengths(line: string, body: string, b: nat): WireRequest {
    WireRequest(line, [LengthLine(|body|), LengthLine(b)], body)
  }

  /** The carving loop takes the first number, parse the last. Such a request is carved as a whole; it is
      dispatched if and only if b is at most the body's length or so large that the comparison wraps, with its
      body cut to b bytes. So for every smaller b the request is accepted and the end of its body is lost. */
  lemma {:induction false} TwoLengthsDisagree(line: string, body: string, b: nat)
    requires GoodLine(line) && ParseRequestLine(EMPTY_REQUEST, line).0
    requires b < TWO_64 && |Bytes(TwoLengths(line, body, b))| < TWO_64
    ensures var w := TwoLengths(line, body, b); var i := HandleRead(START, Bytes(w));
      i.buf == "" && |i.log| == 1 && (i.log[0].Dispatched? || i.log[0].BadRequest?) &&
      (i.log[0].Dispatched? <==> b <= |body| || |Bytes(w)| - |body| + b >= TWO_64) &&
      (i.log[0].Dispatched? ==> i.log[0].request.body == UpTo(body, b))
    ensures b < |body| ==>
      var log := HandleRead(START, Bytes(TwoLengths(line, body, b))).log;
      log[0].Dispatched? && log[0].request.body == body[..b] != body
  {
    hide ParseRequestLine, ParseHeaders, FirstLength, GoodLine, Bytes, LengthLine, Stoul, Digits, Find, AddSize, Parse;
    hide HandleRead;
    var w := TwoLengths(line, body, b);
    BodyIsInBytes(w);
    LengthLineIsGood(|body|);
    LengthLineIsGood(b);
    TwoLengthLines(ParseRequestLine(EMPTY_REQUEST, line).1, |body|, b);
    HandleFramed(EMPTY_REQUEST, w, []);
    ParseOfBytes(EMPTY_REQUEST, w);
    BodyOfBytes(w);
    SumWraps(|Bytes(w)| - |body|, b, |body|);
    var q := AfterHeaders(EMPTY_REQUEST, w).1;
    if ParseBody(q, Bytes(w)).0 {
      BodyIs(q, Bytes(w), |body|);
    }
  }

  lemma {:induction false} BodyIsInBytes(w: WireRequest)
    ensures |w.body| <= |Bytes(w)|
  {
  }

  /** When a 64-bit sum start + b is at most start + length. */
  lemma {:induction false} SumWraps(start: nat, b: nat, length: nat)
    requires b < TWO_64 && start + length < TWO_64
    ensures AddSize(start, b) <= start + length <==> b <= length || start + b >= TWO_64
  {
  }

  lemma {:induction false} LengthLineIsGood(n: nat)
    ensures GoodLine(LengthLine(n))
  {
    var d, line := Digits(n, 10), LengthLine(n);
    hide Digits;
    assert forall k :: 0 <= k < |CONTENT_LENGTH| ==> CONTENT_LENGTH[k] != '\r' && CONTENT_LENGTH[k] != '\n';
    assert line == CONTENT_LENGTH + (": " + d);
    forall k | 0 <= k < |line| ensures line[k] != '\r' && line[k] != '\n' {
      if k >= |CONTENT_LENGTH| + 2 {
        assert line[k] == d[k - |CONTENT_LENGTH| - 2];
      }
    }
  }

  lemma {:induction false} FirstOfTwo(a: nat, b: nat)
    requires a < TWO_64 && b < TWO_64
    ensures CountLengths([LengthLine(a), LengthLine(b)]) == 2 && FirstLength([LengthLine(a), LengthLine(b)]) == a
  {
    hide LengthLine, HeaderKey, HeaderValue, Stoul, Digits, Trim;
    LengthLineReads(a);
    LengthLineReads(b);
    var lines := [LengthLine(a), LengthLine(b)];
    assert lines[1..] == [LengthLine(b)] && lines[1..][1..] == [];
    assert CountLengths(lines[1..]) == 1 + CountLengths(lines[1..][1..]);
  }
}
