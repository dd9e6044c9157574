/** handleRead's carving loop (Connection.cpp) and its independence of how the byte stream is cut into read
    batches. */
module Reassembly {
  import opened Wrappers
  import opened Text
  import opened Numbers
  import opened HttpParsing

  /** extractContentLength over the header lines: the first Content-Length counts; a bad number counts as 0. */
  function FirstLength(lines: seq<string>): (n: nat)
    ensures n < TWO_64
  {
    if lines == [] then 0
    else
      var line := lines[0];
      var colon := IndexOf(line, ':');
      if colon < |line| && Trim(line[..colon]) == CONTENT_LENGTH then
        var length := Stoul(Trim(line[colon + 1..]));
        if length.Some? then length.value else 0
      else FirstLength(lines[1..])
  }

  /** extractContentLength. */
  function ContentLength(request: string): (n: nat)
    ensures n < TWO_64
  {
    var headerEnd := Find(request, BLANK_LINE);
    if headerEnd.None? then 0
    else
      var first := GetLine(request[..headerEnd.value]);
      if first.None? then 0 else FirstLength(HeaderLines(first.value.1))
  }

  /** extractContentLength: the loop over the lines. */
  method ExtractContentLength(request: string) returns (n: nat)
    ensures n == ContentLength(request)
  {
    hide FirstLength, HeaderLines;
    var headerEnd := Find(request, BLANK_LINE);
    if headerEnd.None? { return 0; }
    var stream := request[..headerEnd.value];
    var first := GetLine(stream);
    if first.None? { return 0; }
    n := ScanForLength(first.value.1);
  }

  method ScanForLength(stream: string) returns (n: nat)
    ensures n == FirstLength(HeaderLines(stream))
  {
    hide FirstLength, Stoul, Trim;
    var rest := stream;
    while true
      invariant FirstLength(HeaderLines(rest)) == FirstLength(HeaderLines(stream))
      decreases |rest|
    {
      var next := GetLine(rest);
      FirstLengthNone();
      if next.None? { return 0; }
      var line := StripCr(next.value.0);
      if line == "" { return 0; }
      var colon := IndexOf(line, ':');
      FirstLengthStep(line, HeaderLines(next.value.1));
      if colon != |line| && Trim(line[..colon]) == CONTENT_LENGTH {
        var length := Stoul(Trim(line[colon + 1..]));
        return if length.Some? then length.value else 0;
      }
      rest := next.value.1;
    }
  }

  lemma {:induction false} FirstLengthNone()
    ensures FirstLength([]) == 0
  {
  }

  lemma {:induction false} FirstLengthStep(line: string, rest: seq<string>)
    ensures var colon := IndexOf(line, ':');
      FirstLength([line] + rest) ==
        if colon < |line| && Trim(line[..colon]) == CONTENT_LENGTH
        then (var length := Stoul(Trim(line[colon + 1..])); if length.Some? then length.value else 0)
        else FirstLength(rest)
  {
    hide Stoul, Trim;
    assert ([line] + rest)[1..] == rest;
  }

  /** `header_end + 4 + content_length` in size_t arithmetic. */
  function RequestLength(buf: string): nat
    requires Find(buf, BLANK_LINE).Some?
  {
    AddSize(Find(buf, BLANK_LINE).value + 4, ContentLength(buf))
  }

  /** What handleRead does with a carved text: processRequest, or the 400 response. */
  datatype Event = Dispatched(request: Request) | BadRequest

  datatype Input = Input(buf: string, req: Request, log: seq<Event>)

  /** The buffer holds a whole request. */
  predicate Complete(buf: string)
    ensures Complete(buf) ==> Find(buf, BLANK_LINE).Some? && RequestLength(buf) <= |buf|
  {
    Find(buf, BLANK_LINE).Some? && RequestLength(buf) <= |buf|
  }

  lemma {:induction false} RequestLengthDef(buf: string)
    requires Find(buf, BLANK_LINE).Some?
    ensures RequestLength(buf) == AddSize(Find(buf, BLANK_LINE).value + 4, ContentLength(buf))
  {
    hide AddSize, Find, ContentLength;
  }

  lemma {:induction false} RequestLengthIs(buf: string, n: nat)
    requires Find(buf, BLANK_LINE).Some? && Find(buf, BLANK_LINE).value + 4 + ContentLength(buf) == n < TWO_64
    ensures RequestLength(buf) == n && (n <= |buf| ==> Complete(buf))
  {
    hide Find, ContentLength, AddSize;
  }

  /** The second loop of handleRead. After a malformed request the buffer is cleared and the request object
      keeps what the failed parse left in it. */
  function Carve(i: Input): Input
    decreases |i.buf|
  {
    if !Complete(i.buf) then i
    else
      var length := RequestLength(i.buf);
      var parsed := Parse(i.req, i.buf[..length]);
      if !parsed.0 then Input("", parsed.1, i.log + [BadRequest])
      else
        NotEmpty(i.req, i.buf[..length]);
        Carve(Input(i.buf[length..], EMPTY_REQUEST, i.log + [Dispatched(parsed.1)]))
  }

  lemma {:induction false} NotEmpty(q: Request, text: string)
    requires Parse(q, text).0
    ensures text != ""
  {
    hide ParseRequestLine, ParseHeaders, ParseBody;
  }

  /** The carving loop meets a malformed request. */
  predicate Malformed(i: Input)
    decreases |i.buf|
  {
    if !Complete(i.buf) then false
    else
      var length := RequestLength(i.buf);
      var parsed := Parse(i.req, i.buf[..length]);
      if !parsed.0 then true
      else
        NotEmpty(i.req, i.buf[..length]);
        Malformed(Input(i.buf[length..], EMPTY_REQUEST, i.log + [Dispatched(parsed.1)]))
  }

  /** One round of the loop. */
  lemma {:induction false} CarveStep(i: Input)
    ensures Complete(i.buf) <==> Find(i.buf, BLANK_LINE).Some? && RequestLength(i.buf) <= |i.buf|
    ensures !Complete(i.buf) ==> Carve(i) == i && !Malformed(i)
    ensures Complete(i.buf) ==>
      var length := RequestLength(i.buf);
      var parsed := Parse(i.req, i.buf[..length]);
      if parsed.0 then
        var next := Input(i.buf[length..], EMPTY_REQUEST, i.log + [Dispatched(parsed.1)]);
        |next.buf| < |i.buf| && Carve(i) == Carve(next) && Malformed(i) == Malformed(next)
      else Carve(i) == Input("", parsed.1, i.log + [BadRequest]) && Malformed(i)
  {
    hide Find, RequestLength, Parse;
    if Complete(i.buf) && Parse(i.req, i.buf[..RequestLength(i.buf)]).0 {
      NotEmpty(i.req, i.buf[..RequestLength(i.buf)]);
    }
  }

  /** One call of handleRead: a batch of bytes up to EAGAIN, then the carving loop. */
  function HandleRead(i: Input, batch: string): Input {
    Carve(i.(buf := i.buf + batch))
  }

  function HandleReads(i: Input, batches: seq<string>): Input
    decreases |batches|
  {
    if batches == [] then i else HandleReads(HandleRead(i, batches[0]), batches[1..])
  }

  function Concat(batches: seq<string>): string {
    if batches == [] then "" else batches[0] + Concat(batches[1..])
  }

  const START := Input("", EMPTY_REQUEST, [])

  // ---------- More bytes do not change what is complete ----------

  lemma {:induction false} CompleteStays(buf: string, more: string)
    requires Complete(buf)
    ensures Complete(buf + more) && RequestLength(buf + more) == RequestLength(buf)
    ensures (buf + more)[..RequestLength(buf)] == buf[..RequestLength(buf)]
    ensures (buf + more)[RequestLength(buf)..] == buf[RequestLength(buf)..] + more
  {
    LengthStays(buf, more);
    hide RequestLength, Find;
    SlicesStay(buf, more, RequestLength(buf));
  }

  lemma {:induction false} SlicesStay(buf: string, more: string, n: nat)
    requires n <= |buf|
    ensures (buf + more)[..n] == buf[..n] && (buf + more)[n..] == buf[n..] + more
  {
  }

  lemma {:induction false} LengthStays(buf: string, more: string)
    requires Find(buf, BLANK_LINE).Some?
    ensures Find(buf + more, BLANK_LINE).Some? && RequestLength(buf + more) == RequestLength(buf)
  {
    hide ContentLength, Find, AddSize;
    FindAppend(buf, more, BLANK_LINE);
    ContentLengthStays(buf, more);
  }

  lemma {:induction false} ContentLengthStays(buf: string, more: string)
    requires Find(buf, BLANK_LINE).Some?
    ensures ContentLength(buf + more) == ContentLength(buf)
  {
    hide HeaderLines, FirstLength, GetLine, Find;
    FindAppend(buf, more, BLANK_LINE);
    var end := Find(buf, BLANK_LINE).value;
    assert (buf + more)[..end] == buf[..end];
  }

  /** Carving first what is there, then the rest, is carving everything; a malformed request swallows the rest. */
  lemma {:induction false} CarveAppend(i: Input, more: string)
    ensures Malformed(i) ==> Carve(i.(buf := i.buf + more)) == Carve(i) && Malformed(i.(buf := i.buf + more))
    ensures !Malformed(i) ==> HandleRead(i, more) == HandleRead(Carve(i), more)
    ensures !Malformed(i) ==> Malformed(i.(buf := i.buf + more)) == Malformed(Carve(i).(buf := Carve(i).buf + more))
    decreases |i.buf|
  {
    hide Complete, RequestLength, Parse;
    if Complete(i.buf) {
      var length := RequestLength(i.buf);
      var parsed := Parse(i.req, i.buf[..length]);
      CompleteStays(i.buf, more);
      if parsed.0 {
        NotEmpty(i.req, i.buf[..length]);
        CarveAppend(Input(i.buf[length..], EMPTY_REQUEST, i.log + [Dispatched(parsed.1)]), more);
      }
    }
  }

  predicate Settled(i: Input) {
    !Complete(i.buf)
  }

  lemma {:induction false} EmptyIsSettled(i: Input)
    requires i.buf == ""
    ensures Settled(i) && Carve(i) == i && !Malformed(i)
  {
  }

  lemma {:induction false} CarveSettles(i: Input)
    ensures Settled(Carve(i)) && i.log <= Carve(i).log
    ensures Malformed(i) ==> Carve(i).buf == ""
    decreases |i.buf|
  {
    hide Complete, RequestLength, Parse;
    if Complete(i.buf) {
      var length := RequestLength(i.buf);
      var parsed := Parse(i.req, i.buf[..length]);
      if parsed.0 {
        NotEmpty(i.req, i.buf[..length]);
        CarveSettles(Input(i.buf[length..], EMPTY_REQUEST, i.log + [Dispatched(parsed.1)]));
      } else {
        EmptyIsSettled(Carve(i));
      }
    }
  }

  lemma {:induction false} SettledStays(i: Input)
    requires Settled(i)
    ensures HandleRead(i, "") == i && Carve(i) == i && !Malformed(i)
  {
    assert i.buf + "" == i.buf;
  }

  lemma {:induction false} LogGrows(i: Input, batches: seq<string>)
    ensures i.log <= HandleReads(i, batches).log
    decreases |batches|
  {
    hide Carve;
    if batches != [] {
      CarveSettles(i.(buf := i.buf + batches[0]));
      LogGrows(HandleRead(i, batches[0]), batches[1..]);
    }
  }

  // ---------- Chunking independence ----------

  /** However a stream is cut into batches, the requests dispatched up to the first malformed one are those of
      the whole stream read at once; without a malformed one the residue and the request object agree as well. */
  lemma {:induction false} ChunkingIndependence(i: Input, batches: seq<string>)
    requires Settled(i)
    ensures HandleRead(i, Concat(batches)).log <= HandleReads(i, batches).log
    ensures !Malformed(i.(buf := i.buf + Concat(batches))) ==> HandleReads(i, batches) == HandleRead(i, Concat(batches))
    decreases |batches|
  {
    if batches == [] {
      SettledStays(i);
    } else {
      hide Carve, Malformed, Settled;
      var first, rest := batches[0], Concat(batches[1..]);
      var j := i.(buf := i.buf + first);
      var r := Carve(j);
      assert i.buf + (first + rest) == j.buf + rest;
      CarveAppend(j, rest);
      CarveSettles(j);
      if Malformed(j) {
        LogGrows(r, batches[1..]);
      } else {
        ChunkingIndependence(r, batches[1..]);
      }
    }
  }

  // ---------- Exactly when every split agrees ----------

  ghost predicate AllSplitsAgree(s: string) {
    forall batches: seq<string> :: Concat(batches) == s ==> HandleReads(START, batches) == HandleRead(START, s)
  }

  /** No proper prefix of the stream already holds a malformed request. */
  predicate MalformedAtMostAtEnd(i: Input, s: string) {
    s == "" || !Malformed(i.(buf := i.buf + s[..|s| - 1]))
  }

  lemma {:induction false} EmptyBatches(i: Input, batches: seq<string>)
    requires Settled(i) && Concat(batches) == ""
    ensures HandleReads(i, batches) == i
    decreases |batches|
  {
    hide Settled, Carve;
    if batches != [] {
      SettledStays(i);
      EmptyBatches(i, batches[1..]);
    }
  }

  lemma {:induction false} SplitAgrees(i: Input, batches: seq<string>)
    requires Settled(i) && MalformedAtMostAtEnd(i, Concat(batches))
    ensures HandleReads(i, batches) == HandleRead(i, Concat(batches))
    decreases |batches|
  {
    if batches == [] {
      SettledStays(i);
    } else {
      hide Carve, Malformed, Settled;
      var first, rest := batches[0], Concat(batches[1..]);
      var j := i.(buf := i.buf + first);
      CarveSettles(j);
      if rest == "" {
        EmptyBatches(Carve(j), batches[1..]);
        assert first + rest == first;
      } else {
        SplitStep(i, first, rest);
        SplitAgrees(Carve(j), batches[1..]);
      }
    }
  }

  lemma {:induction false} SplitStep(i: Input, first: string, rest: string)
    requires rest != "" && MalformedAtMostAtEnd(i, first + rest)
    ensures MalformedAtMostAtEnd(HandleRead(i, first), rest)
    ensures HandleRead(i, first + rest) == HandleRead(HandleRead(i, first), rest)
  {
    hide Carve, Malformed;
    var j := i.(buf := i.buf + first);
    var s, cut := first + rest, rest[..|rest| - 1];
    assert i.buf + s[..|s| - 1] == j.buf + cut;
    assert i.buf + s == j.buf + rest;
    CarveAppend(j, cut);
    CarveAppend(j, rest);
  }

  lemma {:induction false} OneByteIsSettled(i: Input, byte: string)
    requires i.buf == "" && |byte| == 1
    ensures HandleRead(i, byte) == i.(buf := byte)
  {
    assert "" + byte == byte;
    assert !At(byte, BLANK_LINE, 0) && !At(byte, BLANK_LINE, 1);
  }

  /** Reading in batches is the same as reading at once for every split of the stream, if and only if no proper
      prefix of the stream holds a malformed request: what follows a malformed request is lost or kept depending
      on the batch. */
  lemma {:induction false} ChunkingIsExact(s: string)
    ensures AllSplitsAgree(s) <==> MalformedAtMostAtEnd(START, s)
  {
    hide Carve, Malformed;
    EmptyIsSettled(START);
    if MalformedAtMostAtEnd(START, s) {
      forall batches | Concat(batches) == s ensures HandleReads(START, batches) == HandleRead(START, s) {
        SplitAgrees(START, batches);
      }
    } else {
      var front, last := s[..|s| - 1], s[|s| - 1..];
      var j := START.(buf := START.buf + front);
      assert s == front + last && START.buf + s == j.buf + last;
      CarveAppend(j, last);
      CarveSettles(j);
      OneByteIsSettled(Carve(j), last);
      TwoBatches(front, last);
      assert HandleReads(START, [front, last]).buf != HandleRead(START, s).buf;
    }
  }

  lemma {:induction false} TwoBatches(a: string, b: string)
    ensures Concat([a, b]) == a + b
    ensures HandleReads(START, [a, b]) == HandleRead(HandleRead(START, a), b)
  {
    hide HandleRead;
    var both := [a, b];
    assert both[1..] == [b] && both[1..][1..] == [];
    assert Concat(both[1..]) == b + "";
    var r := HandleRead(START, a);
    assert HandleReads(START, both) == HandleReads(r, both[1..]);
    assert HandleReads(r, both[1..]) == HandleReads(HandleRead(r, b), both[1..][1..]);
  }

  /** The loss made concrete: behind the malformed request "\r\n\r\n", any stream is dropped when it arrives in
      the same batch and carved when it arrives in the next one. */
  lemma {:induction false} FollowerIsLost(s: string)
    ensures HandleRead(START, BLANK_LINE + s) == START.(log := [BadRequest])
    ensures HandleReads(START, [BLANK_LINE, s]) == HandleRead(START.(log := [BadRequest]), s)
  {
    var i := START.(buf := BLANK_LINE);
    BlankIsMalformed();
    CarveAppend(i, s);
    hide Carve, Malformed;
    assert "" + BLANK_LINE == BLANK_LINE && "" + (BLANK_LINE + s) == BLANK_LINE + s;
    TwoBatches(BLANK_LINE, s);
  }

  lemma {:induction false} BlankIsMalformed()
    ensures Malformed(START.(buf := BLANK_LINE)) && Carve(START.(buf := BLANK_LINE)) == START.(log := [BadRequest])
  {
    assert At(BLANK_LINE, BLANK_LINE, 0);
    assert Find(BLANK_LINE, BLANK_LINE) == Some(0);
    assert BLANK_LINE[..0] == "";
    assert ContentLength(BLANK_LINE) == 0;
    assert BLANK_LINE[..4] == BLANK_LINE;
    assert IndexOf(BLANK_LINE, '\n') == 1;
    assert BLANK_LINE[..1] == "\r";
    assert StripCr("\r") == "";
    assert Tokens("") == [];
  }
}
