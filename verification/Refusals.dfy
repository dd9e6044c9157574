/** What follows a 400: handleRead keeps the refused request's object, so a Content-Length it has stored decides
    over the requests that store none, one after the other. */
module Refusals {
  import opened Wrappers
  import opened Text
  import opened Numbers
  import opened HttpParsing
  import opened Reassembly
  import opened ContentLengths
  import opened Pipelining
  import opened HttpRoundTrip
  import opened Connections

  /** When the left-behind number fits a framed request: it is readable, and at most the length of the body or
      so large that the comparison wraps. Without a body only 0 and the wrapping numbers fit. */
  predicate FitsRequest(w: WireRequest, number: string) {
    var n := Stoul(number);
    n.Some? && (n.value <= |w.body| || |Bytes(w)| - |w.body| + n.value >= TWO_64)
  }

  lemma {:induction false} FitsBytes(w: WireRequest, number: string)
    requires GoodText(w) && |Bytes(w)| < TWO_64
    ensures Find(Bytes(w), BLANK_LINE).Some? && (Fits(Bytes(w), number) <==> FitsRequest(w, number))
  {
    hide Find, Stoul, Bytes, AddSize;
    BodyOfBytes(w);
    if Stoul(number).Some? {
      SumWraps(|Bytes(w)| - |w.body|, Stoul(number).value, |w.body|);
    }
  }

  /** The request meets a number left behind by a refused one. */
  predicate Undecided(q: Request, w: WireRequest) {
    LengthText(q).Some? && LastStored(w.headers).None?
  }

  /** One well-formed request read by an object with any past. It is dispatched, and the object is as new again,
      if and only if it stores a length of its own, or none was left behind, or the one left behind fits;
      otherwise it is refused and the number stays. */
  lemma {:induction false} AfterRefusal(q: Request, w: WireRequest, log: seq<Event>)
    requires WellFormed(w)
    ensures var i := HandleRead(Input("", q, log), Bytes(w));
      if Undecided(q, w) && !FitsRequest(w, LengthText(q).value) then
        i.buf == "" && i.log == log + [BadRequest] && LengthText(i.req) == LengthText(q)
      else
        && i.buf == "" && i.req == EMPTY_REQUEST && |i.log| == |log| + 1 && i.log[..|log|] == log
        && var last := i.log[|log|];
          last.Dispatched?
          && last.request == Meaning(w).(headers := q.headers + Meaning(w).headers, body := last.request.body)
          && last.request.body == if Undecided(q, w) then UpTo(w.body, NumberOr0(LengthText(q).value)) else w.body
  {
    hide HandleRead, Find, Parse, Bytes, Stoul, AfterHeaders, FirstLength, AddSize, LastStored, GoodText;
    hide FitsRequest, NumberOr0, LengthText, FullLines;
    var data := Bytes(w);
    HandleFramed(q, w, log);
    ParseWellFormed(w);
    ParseOfBytes(EMPTY_REQUEST, w);
    StaleLengthDecides(q, data);
    if Undecided(q, w) {
      FitsBytes(w, LengthText(q).value);
    }
    if Parse(q, data).0 {
      StaleHeadersAreCarried(q, data);
    } else {
      StaleLengthStays(q, data);
    }
  }

  // ---------- Request after request ----------

  function Texts(ws: seq<WireRequest>): seq<string> {
    if ws == [] then [] else [Bytes(ws[0])] + Texts(ws[1..])
  }

  function Refused(n: nat): seq<Event> {
    if n == 0 then [] else [BadRequest] + Refused(n - 1)
  }

  /** Well-formed requests that store no length and that a number left behind does not fit are refused one after the
      other, however many there are. */
  lemma {:induction false} RefusalsRepeat(q: Request, ws: seq<WireRequest>, log: seq<Event>)
    requires LengthText(q).Some? && forall k :: 0 <= k < |ws| ==> WellFormed(ws[k])
    requires forall k :: 0 <= k < |ws| ==> LastStored(ws[k].headers).None? && !FitsRequest(ws[k], LengthText(q).value)
    ensures HandleReads(Input("", q, log), Texts(ws)).log == log + Refused(|ws|)
    decreases |ws|
  {
    hide WellFormed, FitsRequest, LengthText, HandleRead, LastStored, Bytes;
    if ws == [] {
      assert log + [] == log;
    } else {
      var i := HandleRead(Input("", q, log), Bytes(ws[0]));
      AfterRefusal(q, ws[0], log);
      RefusalsRepeat(i.req, ws[1..], i.log);
      TextsStep(Input("", q, log), ws);
      assert log + [BadRequest] + Refused(|ws| - 1) == log + ([BadRequest] + Refused(|ws| - 1));
    }
  }

  lemma {:induction false} TextsStep(i: Input, ws: seq<WireRequest>)
    requires ws != []
    ensures HandleReads(i, Texts(ws)) == HandleReads(HandleRead(i, Bytes(ws[0])), Texts(ws[1..]))
  {
    hide HandleRead, Bytes;
    assert Texts(ws)[1..] == Texts(ws[1..]);
  }

  // ---------- A stream on which it happens ----------

  const LINE := "GET" + (" " + ("/" + (" " + "HTTP/1.1")))
  const BAD_LENGTH := CONTENT_LENGTH + ":x"
  const BAD := WireRequest(LINE, [BAD_LENGTH], "")
  const GOOD := WireRequest(LINE, [], "")

  lemma {:induction false} NoNumber()
    ensures Stoul("x") == None && Trim("x") == "x" && StripFront("x") == "x"
  {
    assert "x"[0..] == "x";
    NoDigitRun();
    hide Trim, ParseDigits, DropRight;
    TrimIdentity("x");
  }

  lemma {:induction false} NoDigitRun()
    ensures ParseDigits("x", 10) == None
  {
    hide Value;
  }

  lemma {:induction false} LineIsAccepted()
    ensures GoodLine(LINE) && ParseRequestLine(EMPTY_REQUEST, LINE) == (true, Request(GET, "/", HTTP_11, "", map[]))
  {
    var m := Message(GET, "/", HTTP_11, [], "");
    hide GoodLine, ParseRequestLine;
    assert RequestLine(m) == LINE;
    hide RequestLine;
    assert IsWord("/");
    LineIsGood(m);
    LineReads(EMPTY_REQUEST, m);
  }

  lemma {:induction false} BadLengthReads()
    ensures GoodLine(BAD_LENGTH) && StoresLength(BAD_LENGTH)
    ensures HeaderValue(BAD_LENGTH, IndexOf(BAD_LENGTH, ':')) == "x" && FirstLength([BAD_LENGTH]) == 0
  {
    hide Trim, DropRight, Stoul, StripFront;
    var colon := |CONTENT_LENGTH|;
    assert BAD_LENGTH[colon] == ':' && BAD_LENGTH[..colon] == CONTENT_LENGTH && BAD_LENGTH[colon + 1..] == "x";
    assert IndexOf(BAD_LENGTH, ':') == colon by { NoColon(BAD_LENGTH, colon); }
    KeyIsPlain();
    NoNumber();
  }

  lemma {:induction false} Sizes()
    ensures |Bytes(BAD)| < TWO_64 && |Bytes(GOOD)| < TWO_64
  {
    var bad, good := [LINE] + [BAD_LENGTH], [LINE] + [];
    assert bad[1..] == [BAD_LENGTH] && bad[1..][1..] == [] && good[1..] == [];
    assert |Head(bad[1..])| == |BAD_LENGTH| + 4 && |Head(good[1..])| == 2;
    assert |Head(bad)| == |LINE| + 2 + |BAD_LENGTH| + 4 && |Head(good)| == |LINE| + 4;
  }

  lemma {:induction false} GoodIsWellFormed()
    ensures WellFormed(GOOD) && LastStored(GOOD.headers).None?
  {
    hide ParseRequestLine, Bytes, GoodLine;
    LineIsAccepted();
    Sizes();
  }

  /** The refused request leaves its unreadable number behind. */
  lemma {:induction false} BadIsRefused()
    ensures Framed(BAD) && !Parse(EMPTY_REQUEST, Bytes(BAD)).0
    ensures LengthText(Parse(EMPTY_REQUEST, Bytes(BAD)).1) == Some("x")
  {
    hide ParseRequestLine, Bytes, GoodLine, Stoul, FirstLength, Parse, LengthText;
    LineIsAccepted();
    Sizes();
    BadLengthReads();
    NoNumber();
    BadLengthIsStored(ParseRequestLine(EMPTY_REQUEST, LINE).1);
    UnreadableRefused(LINE, BAD_LENGTH, "x");
  }

  /** A request whose one header line stores an unreadable length. */
  lemma {:induction false} UnreadableRefused(line: string, header: string, number: string)
    requires GoodLine(line) && GoodLine(header) && ParseRequestLine(EMPTY_REQUEST, line).0
    requires var q := ParseRequestLine(EMPTY_REQUEST, line).1;
      ParseHeaders(q, [header]) == (true, q.(headers := q.headers[CONTENT_LENGTH := number]))
    requires Stoul(number).None?
    ensures var w := WireRequest(line, [header], "");
      && AfterHeaders(EMPTY_REQUEST, w).0 && GoodText(w)
      && !Parse(EMPTY_REQUEST, Bytes(w)).0 && LengthText(Parse(EMPTY_REQUEST, Bytes(w)).1) == Some(number)
  {
    hide ParseRequestLine, ParseHeaders, Bytes, GoodLine, Find, Stoul, Parse, AddSize;
    ParseOfBytes(EMPTY_REQUEST, WireRequest(line, [header], ""));
  }

  lemma {:induction false} BadLengthIsStored(q: Request)
    ensures ParseHeaders(q, [BAD_LENGTH]) == (true, q.(headers := q.headers[CONTENT_LENGTH := "x"]))
  {
    hide HeaderKey, HeaderValue, IndexOf;
    BadLengthReads();
    assert [BAD_LENGTH][1..] == [];
    var r := ParseHeader(q, BAD_LENGTH);
    assert ParseHeaders(r.1, []) == (true, r.1);
  }

  /** A refused request that leaves an unreadable length behind, and what follows it. */
  lemma {:induction false} RefusedAfter(bad: WireRequest, ws: seq<WireRequest>)
    requires Framed(bad) && !Parse(EMPTY_REQUEST, Bytes(bad)).0
    requires var number := LengthText(Parse(EMPTY_REQUEST, Bytes(bad)).1); number.Some? && Stoul(number.value).None?
    requires forall k :: 0 <= k < |ws| ==> WellFormed(ws[k]) && LastStored(ws[k].headers).None?
    ensures HandleReads(START, Texts([bad] + ws)).log == [BadRequest] + Refused(|ws|)
  {
    hide HandleRead, Parse, Bytes, WellFormed, LengthText, LastStored, Framed, Stoul;
    HandleFramed(EMPTY_REQUEST, bad, []);
    assert [] + [BadRequest] == [BadRequest];
    RefusalsRepeat(Parse(EMPTY_REQUEST, Bytes(bad)).1, ws, [BadRequest]);
    TextsStep(START, [bad] + ws);
    assert ([bad] + ws)[1..] == ws;
  }

  /** After BAD every well-formed request is refused, however many come, until one stores a length of its own; a new
      connection dispatches them all. */
  lemma {:induction false} OneBadRequestRefusesTheRest(ws: seq<WireRequest>)
    requires forall k :: 0 <= k < |ws| ==> WellFormed(ws[k]) && LastStored(ws[k].headers).None?
    ensures HandleReads(START, Texts([BAD] + ws)).log == [BadRequest] + Refused(|ws|)
    ensures HandleReads(START, Texts(ws)).log == Meanings(ws)
  {
    hide HandleReads, Parse, WellFormed, LengthText, LastStored, Framed, Stoul, Bytes;
    hide Texts, Meanings, Refused, Concat, StreamOf;
    BadIsRefused();
    NoNumber();
    RefusedAfter(BAD, ws);
    TextsConcat(ws);
    PipelinedRequestsAreDispatched(ws, Texts(ws));
  }

  lemma {:induction false} TextsConcat(ws: seq<WireRequest>)
    ensures Concat(Texts(ws)) == StreamOf(ws)
    decreases |ws|
  {
    hide Bytes;
    if ws != [] {
      TextsConcat(ws[1..]);
      assert Texts(ws)[1..] == Texts(ws[1..]);
    }
  }

  lemma {:induction false} ShortLists(a: WireRequest, b: WireRequest)
    ensures Texts([a]) == [Bytes(a)] && Texts([a] + [b]) == [Bytes(a), Bytes(b)]
    ensures Meanings([b]) == [Dispatched(Meaning(b))] && Refused(1) == [BadRequest]
  {
    hide Bytes, Meaning;
    assert [a][1..] == [] && [b][1..] == [];
    assert ([a] + [b])[1..] == [b];
    assert Refused(1) == [BadRequest] + Refused(0);
  }

  /** The smallest such stream: a request with an unreadable length, then one that any new object accepts. */
  lemma {:induction false} GoodRequestRefused()
    ensures HandleReads(START, [Bytes(BAD), Bytes(GOOD)]).log == [BadRequest, BadRequest]
    ensures HandleReads(START, [Bytes(GOOD)]).log == [Dispatched(Meaning(GOOD))]
  {
    hide HandleReads, Bytes, WellFormed, LastStored, Meaning, Texts, Refused, Meanings;
    GoodIsWellFormed();
    OneBadRequestRefusesTheRest([GOOD]);
    ShortLists(BAD, GOOD);
    ShortLists(GOOD, GOOD);
  }

  /** Two Content-Length lines on the wire: with the lengths 2 and 1 a body "ab" is dispatched as "a". */
  lemma {:induction false} BodyIsCut()
    ensures var log := HandleRead(START, Bytes(TwoLengths(LINE, "ab", 1))).log;
      |log| == 1 && log[0].Dispatched? && log[0].request.body == "a"
  {
    hide HandleRead, Bytes, ParseRequestLine, GoodLine;
    LineIsAccepted();
    TwoLengthsAreShort();
    TwoLengthsDisagree(LINE, "ab", 1);
    assert "ab"[..1] == "a";
  }

  lemma {:induction false} TwoLengthsAreShort()
    ensures |Bytes(TwoLengths(LINE, "ab", 1))| < TWO_64
  {
    var a, b := LengthLine(2), LengthLine(1);
    assert |Digits(2, 10)| == 1 && |Digits(1, 10)| == 1;
    assert |a| == |b| == |CONTENT_LENGTH| + 3;
    hide LengthLine;
    var all := [LINE] + [a, b];
    assert all[1..] == [a, b] && [a, b][1..] == [b] && [b][1..] == [];
    assert |Head([b])| == |b| + 4;
    assert |Head([a, b])| == |a| + 2 + |Head([b])|;
    assert |Head(all)| == |LINE| + 2 + |Head([a, b])|;
  }

  // ---------- The refusal itself ----------

  const REFUSAL_BODY := "Bad Request"

  /** The 400 is a whole response: a status line, two header lines, the second with the length of the body, and
      the body. */
  lemma {:induction false} RefusalIsFramed()
    ensures BAD_REQUEST_RESPONSE == Bytes(WireRequest("HTTP/1.1 400 Bad Request",
      ["Content-Type: text/plain; charset=utf-8", LengthLine(|REFUSAL_BODY|)], REFUSAL_BODY))
  {
    var status, kind, length := "HTTP/1.1 400 Bad Request", "Content-Type: text/plain; charset=utf-8", LengthLine(11);
    LengthEleven();
    HeadOfThree(status, kind, length, REFUSAL_BODY);
    hide LengthLine, Bytes;
  }

  lemma {:induction false} HeadOfThree(a: string, b: string, c: string, body: string)
    ensures Bytes(WireRequest(a, [b, c], body)) == a + CRLF + b + CRLF + c + CRLF + CRLF + body
  {
    var all := [a] + [b, c];
    assert all[1..] == [b, c] && [b, c][1..] == [c] && [c][1..] == [];
    assert Head([c]) == c + (CRLF + CRLF);
    assert Head([b, c]) == b + (CRLF + Head([c]));
    assert Head(all) == a + (CRLF + Head([b, c]));
  }

  /** So is the head of a stream: it has no length, and ends where the stream begins. */
  lemma {:induction false} StreamHeadIsFramed()
    ensures P.HEADER == Bytes(WireRequest("HTTP/1.1 200 OK",
      ["Content-Type: text/event-stream; charset=utf-8", "Cache-Control: no-cache", "Connection: keep-alive",
       "X-Accel-Buffering: no"], ""))
  {
    hide Bytes;
    HeadLines();
    HeadOfFive("HTTP/1.1 200 OK", "Content-Type: text/event-stream; charset=utf-8", "Cache-Control: no-cache",
               "Connection: keep-alive", "X-Accel-Buffering: no");
  }

  lemma {:induction false} HeadLines()
    ensures P.HEADER == "HTTP/1.1 200 OK" + CRLF + ("Content-Type: text/event-stream; charset=utf-8" + CRLF)
      + ("Cache-Control: no-cache" + CRLF) + ("Connection: keep-alive" + CRLF) + ("X-Accel-Buffering: no" + CRLF) + CRLF
  {
    assert "HTTP/1.1 200 OK" + CRLF == "HTTP/1.1 200 OK\r\n";
    assert "Content-Type: text/event-stream; charset=utf-8" + CRLF ==
      "Content-Type: text/event-stream; charset=utf-8\r\n";
    assert "Cache-Control: no-cache" + CRLF == "Cache-Control: no-cache\r\n";
    assert "Connection: keep-alive" + CRLF == "Connection: keep-alive\r\n";
    assert "X-Accel-Buffering: no" + CRLF == "X-Accel-Buffering: no\r\n";
  }

  lemma {:induction false} HeadOfFive(a: string, b: string, c: string, d: string, e: string)
    ensures Bytes(WireRequest(a, [b, c, d, e], "")) ==
      a + CRLF + (b + CRLF) + (c + CRLF) + (d + CRLF) + (e + CRLF) + CRLF
  {
    var all := [a] + [b, c, d, e];
    assert all[1..] == [b, c, d, e] && [b, c, d, e][1..] == [c, d, e] && [c, d, e][1..] == [d, e] && [d, e][1..] == [e];
    assert Head([e]) == e + (CRLF + CRLF);
    assert Head([d, e]) == d + (CRLF + Head([e]));
    assert Head([c, d, e]) == c + (CRLF + Head([d, e]));
    assert Head([b, c, d, e]) == b + (CRLF + Head([c, d, e]));
    assert Head(all) == a + (CRLF + Head([b, c, d, e]));
  }

  lemma {:induction false} LengthEleven()
    ensures LengthLine(11) == "Content-Length: 11" && |REFUSAL_BODY| == 11
  {
    assert Digits(1, 10) == "1";
    assert Digits(11, 10) == "1" + "1";
  }
}
