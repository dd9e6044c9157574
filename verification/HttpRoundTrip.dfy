/** Requests given by what they mean: printed, pipelined, fragmented in any way, and read back field by field. */
module HttpRoundTrip {
  import opened Wrappers
  import opened Text
  import opened Numbers
  import opened CanFrames
  import opened FrameCodec
  import opened CodecRoundTrip
  import opened CanBus
  import opened HttpParsing
  import opened Reassembly
  import opened ContentLengths
  import opened Pipelining
  import opened Routing
  import R = Receiver

  datatype Field = Field(key: string, value: string)
  datatype Message = Message(verb: HttpParsing.Method, path: string, version: Version, fields: seq<Field>, body: string)

  function VerbText(verb: HttpParsing.Method): string {
    if verb == GET then "GET" else "POST"
  }

  function VersionText(version: Version): string {
    if version == HTTP_11 then "HTTP/1.1" else "HTTP/1.0"
  }

  function RequestLine(m: Message): string {
    VerbText(m.verb) + (" " + (m.path + (" " + VersionText(m.version))))
  }

  function FieldLine(f: Field): string {
    f.key + (": " + f.value)
  }

  /** The lines of the fields, and the Content-Length line last. */
  function FieldLines(fields: seq<Field>, length: nat): seq<string> {
    if fields == [] then [LengthLine(length)] else [FieldLine(fields[0])] + FieldLines(fields[1..], length)
  }

  function Print(m: Message): WireRequest {
    WireRequest(RequestLine(m), FieldLines(m.fields, |m.body|), m.body)
  }

  predicate IsWord(s: string) {
    s != "" && forall k :: 0 <= k < |s| ==> !IsSpace(s[k])
  }

  predicate OneLineText(s: string) {
    forall k :: 0 <= k < |s| ==> s[k] != '\r' && s[k] != '\n'
  }

  /** A field the parser stores as it is: no blank around the key or in front of the value. */
  predicate GoodField(f: Field) {
    && OneLineText(f.key) && OneLineText(f.value) && f.key != "" && Trim(f.key) != CONTENT_LENGTH
    && (forall k :: 0 <= k < |f.key| ==> f.key[k] != ':')
    && f.key[0] != ' ' && f.key[|f.key| - 1] != ' ' && (f.value != "" ==> f.value[0] != ' ')
  }

  predicate GoodFields(fields: seq<Field>) {
    forall k :: 0 <= k < |fields| ==> GoodField(fields[k])
  }

  predicate GoodMessage(m: Message) {
    && m.verb != UnknownMethod && m.version != UnknownVersion && IsWord(m.path) && GoodFields(m.fields)
    && |Bytes(Print(m))| < TWO_64
  }

  /** The fields in order, a later one replacing an earlier one of the same key. */
  function Stored(h: map<string, string>, fields: seq<Field>): map<string, string>
    decreases |fields|
  {
    if fields == [] then h else Stored(h[fields[0].key := fields[0].value], fields[1..])
  }

  /** What the request object holds after a message has been parsed. */
  function Received(m: Message): Request {
    Request(m.verb, m.path, m.version, m.body, Stored(map[], m.fields)[CONTENT_LENGTH := Digits(|m.body|, 10)])
  }

  // ---------- The request line ----------

  lemma {:induction false} FirstWord(word: string, rest: string)
    requires IsWord(word) && (rest != "" ==> IsSpace(rest[0]))
    ensures Tokens(word + rest) == [word] + Tokens(rest)
  {
    hide Span;
    var s := word + rest;
    SpanIs(s, IsSpace, 0);
    assert s[0..] == s;
    SpanIs(s, IsToken, |word|);
    assert s[..|word|] == word && s[|word|..] == rest;
  }

  lemma {:induction false} LeadingBlank(word: string, rest: string)
    requires IsWord(word)
    ensures Tokens(" " + (word + rest)) == Tokens(word + rest)
  {
    var t := word + rest;
    var s := " " + t;
    hide Span;
    SpanIs(t, IsSpace, 0);
    SpanIs(s, IsSpace, 1);
    assert t[0..] == t && s[1..] == t;
  }

  lemma {:induction false} ThreeWords(a: string, b: string, c: string)
    requires IsWord(a) && IsWord(b) && IsWord(c)
    ensures Tokens(a + (" " + (b + (" " + c)))) == [a, b, c]
  {
    hide Tokens, IsWord;
    FirstWord(a, " " + (b + (" " + c)));
    LeadingBlank(b, " " + c);
    FirstWord(b, " " + c);
    assert c + "" == c;
    LeadingBlank(c, "");
    FirstWord(c, "");
    NoWords();
  }

  lemma {:induction false} NoWords()
    ensures Tokens("") == []
  {
  }

  lemma {:induction false} VerbReads(verb: HttpParsing.Method)
    requires verb != UnknownMethod
    ensures IsWord(VerbText(verb)) && MethodOf(VerbText(verb)) == verb
  {
    assert Upper("GET") == "GET" && Upper("POST") == "POST";
  }

  lemma {:induction false} VersionReads(version: Version)
    requires version != UnknownVersion
    ensures IsWord(VersionText(version)) && VersionOf(VersionText(version)) == version
  {
  }

  lemma {:induction false} LineReads(q: Request, m: Message)
    requires m.verb != UnknownMethod && m.version != UnknownVersion && IsWord(m.path)
    ensures ParseRequestLine(q, RequestLine(m)) == (true, q.(verb := m.verb, path := m.path, version := m.version))
  {
    hide Tokens, MethodOf, VersionOf, IsWord;
    VerbReads(m.verb);
    VersionReads(m.version);
    ThreeWords(VerbText(m.verb), m.path, VersionText(m.version));
  }

  // ---------- Every request line ----------

  predicate AllWords(words: seq<string>) {
    forall k :: 0 <= k < |words| ==> IsWord(words[k])
  }

  function Join(words: seq<string>): string {
    if words == [] then "" else if |words| == 1 then words[0] else words[0] + (" " + Join(words[1..]))
  }

  lemma {:induction false} JoinStartsWithWord(words: seq<string>)
    requires words != [] && AllWords(words)
    ensures exists rest :: Join(words) == words[0] + rest
  {
    if |words| == 1 {
      assert Join(words) == words[0] + "";
    } else {
      assert Join(words) == words[0] + (" " + Join(words[1..]));
    }
  }

  lemma {:induction false} TokensOfJoin(words: seq<string>)
    requires AllWords(words)
    ensures Tokens(Join(words)) == words
    decreases |words|
  {
    hide Tokens, IsWord;
    NoWords();
    if |words| == 1 {
      assert words[0] + "" == words[0];
      FirstWord(words[0], "");
    } else if words != [] {
      var rest := words[1..];
      FirstWord(words[0], " " + Join(rest));
      JoinStartsWithWord(rest);
      var tail :| Join(rest) == rest[0] + tail;
      LeadingBlank(rest[0], tail);
      TokensOfJoin(rest);
    }
  }

  /** `word` is `name` in any mix of cases. */
  predicate InAnyCase(word: string, name: string) {
    |word| == |name| && forall k :: 0 <= k < |name| ==>
      word[k] == name[k] || ('A' <= name[k] <= 'Z' && word[k] as int - 'a' as int == name[k] as int - 'A' as int)
  }

  /** GET and POST are known in any case, and nothing else is. */
  lemma {:induction false} VerbIs(word: string)
    ensures MethodOf(word) == GET <==> InAnyCase(word, "GET")
    ensures MethodOf(word) == POST <==> InAnyCase(word, "POST")
    ensures MethodOf(word) in {GET, POST, UnknownMethod}
  {
    UpperIs(word, "GET");
    UpperIs(word, "POST");
    hide Upper, InAnyCase;
  }

  lemma {:induction false} UpperIs(word: string, name: string)
    requires forall k :: 0 <= k < |name| ==> 'A' <= name[k] <= 'Z'
    ensures Upper(word) == name <==> InAnyCase(word, name)
  {
    if |word| == |name| {
      assert forall k :: 0 <= k < |name| ==> Upper(word)[k] == ToUpper(word[k]);
      assert Upper(word) == name <==> forall k :: 0 <= k < |name| ==> Upper(word)[k] == name[k];
    }
  }

  /** A request line is accepted if and only if it has exactly three words and the third is HTTP/1.1 or HTTP/1.0; the
      method may be anything. A refused line of two words or more leaves its path behind. */
  lemma {:induction false} LineIsReadIff(q: Request, words: seq<string>)
    requires AllWords(words)
    ensures var r := ParseRequestLine(q, Join(words));
      && (r.0 <==> |words| == 3 && (words[2] == "HTTP/1.1" || words[2] == "HTTP/1.0"))
      && r.1.path == (if |words| >= 2 then words[1] else q.path)
      && (|words| == 3 ==>
            && (r.1.verb == GET <==> InAnyCase(words[0], "GET")) && (r.1.verb == POST <==> InAnyCase(words[0], "POST"))
            && (r.1.version == HTTP_11 <==> words[2] == "HTTP/1.1")
            && (r.1.version == HTTP_10 <==> words[2] == "HTTP/1.0"))
      && (|words| != 3 ==> r.1 == q.(path := r.1.path))
      && r.1.headers == q.headers && r.1.body == q.body
  {
    hide Tokens, MethodOf, InAnyCase, Join;
    TokensOfJoin(words);
    if |words| == 3 {
      VerbIs(words[0]);
      CasesDiffer(words[0]);
    }
  }

  lemma {:induction false} CasesDiffer(word: string)
    ensures !(InAnyCase(word, "GET") && InAnyCase(word, "POST"))
  {
  }

  // ---------- The fields ----------

  lemma {:induction false} KeyReads(key: string)
    requires key != "" && key[0] != ' ' && key[|key| - 1] != ' '
    ensures DropRight(StripFront(key), IsBlank) == key
  {
    assert key[0..] == key;
  }

  lemma {:induction false} ValueReads(value: string)
    requires value != "" ==> value[0] != ' '
    ensures StripFront(" " + value) == value
  {
    var s := " " + value;
    assert s[1..] == value;
    hide Span;
    SpanIs(s, IsBlank, 1);
  }

  /** The parser stores the field; extractContentLength passes it by. */
  lemma {:induction false} FieldReads(q: Request, f: Field)
    requires GoodField(f)
    ensures ParseHeader(q, FieldLine(f)) == (true, q.(headers := q.headers[f.key := f.value]))
    ensures !NamesLength(FieldLine(f))
  {
    hide Trim, DropRight, IndexOf, StripFront;
    var line, colon := FieldLine(f), |f.key|;
    assert line[colon] == ':' && line[..colon] == f.key && line[colon + 1..] == " " + f.value;
    IndexOfIs(line, ':', colon);
    KeyReads(f.key);
    ValueReads(f.value);
  }

  function Blanks(n: nat): (s: string)
    ensures |s| == n && forall k :: 0 <= k < n ==> s[k] == ' '
  {
    seq(n, _ => ' ')
  }

  /** Blanks around the key and in front of the value are dropped, and only these. */
  lemma {:induction false} PaddedFieldReads(q: Request, a: nat, f: Field, b: nat, c: nat)
    requires GoodField(f)
    ensures ParseHeader(q, Blanks(a) + (f.key + (Blanks(b) + (":" + (Blanks(c) + f.value))))) ==
      (true, q.(headers := q.headers[f.key := f.value]))
  {
    hide Trim, DropRight, IndexOf, StripFront, Blanks;
    var key, value := Blanks(a) + (f.key + Blanks(b)), Blanks(c) + f.value;
    var line := Blanks(a) + (f.key + (Blanks(b) + (":" + value)));
    assert line == key + (":" + value);
    forall k | 0 <= k < |key| ensures key[k] != ':' {
      if a <= k < a + |f.key| {
        assert key[k] == f.key[k - a];
      }
    }
    BehindText(key, ':', value);
    PaddedKey(a, f.key, b);
    PaddedFront(c, f.value);
  }

  lemma {:induction false} PaddedFront(a: nat, s: string)
    requires s != "" ==> s[0] != ' '
    ensures StripFront(Blanks(a) + s) == s
  {
    hide Span, Blanks;
    var t := Blanks(a) + s;
    SpanIs(t, IsBlank, a);
    assert t[a..] == s;
  }

  lemma {:induction false} PaddedKey(a: nat, key: string, b: nat)
    requires key != "" && key[0] != ' ' && key[|key| - 1] != ' '
    ensures DropRight(StripFront(Blanks(a) + (key + Blanks(b))), IsBlank) == key
  {
    hide StripFront, Blanks, DropRight;
    PaddedFront(a, key + Blanks(b));
    RightBlanks(key, b);
  }

  lemma {:induction false} RightBlanks(key: string, b: nat)
    requires key != "" && key[|key| - 1] != ' '
    ensures DropRight(key + Blanks(b), IsBlank) == key
    decreases b
  {
    hide Blanks;
    var t := key + Blanks(b);
    if b == 0 {
      assert t == key;
    } else {
      assert t[|t| - 1] == Blanks(b)[b - 1];
      assert t[..|t| - 1] == key + Blanks(b - 1);
      RightBlanks(key, b - 1);
    }
  }

  /** Lines may end in a bare line feed as well. */
  lemma {:induction false} BareLineFeed(line: string, rest: string)
    requires GoodLine(line)
    ensures HeaderLines(line + ("\n" + rest)) == [line] + HeaderLines(rest)
    ensures HeaderLines(line + ("\r\n" + rest)) == [line] + HeaderLines(rest)
  {
    hide HeaderLines, IndexOf;
    assert '\n' !in line && '\n' !in line + "\r" by { LineHasNoFeed(line); }
    BehindText(line, '\n', rest);
    SplitLine(line + ("\n" + rest), |line|);
    BehindText(line + "\r", '\n', rest);
    assert line + ("\r\n" + rest) == (line + "\r") + ("\n" + rest);
    SplitLine((line + "\r") + ("\n" + rest), |line| + 1);
    LineFeedOfLine(line, rest);
    assert StripCr(line) == line;
  }

  lemma {:induction false} LineHasNoFeed(line: string)
    requires GoodLine(line)
    ensures '\n' !in line && '\n' !in line + "\r"
  {
  }

  lemma {:induction false} LengthStored(q: Request, n: nat)
    requires n < TWO_64
    ensures ParseHeaders(q, [LengthLine(n)]) == (true, q.(headers := q.headers[CONTENT_LENGTH := Digits(n, 10)]))
    ensures FirstLength([LengthLine(n)]) == n
  {
    hide LengthLine, HeaderKey, HeaderValue, Stoul, Digits, Trim;
    LengthLineReads(n);
    var lines := [LengthLine(n)];
    assert lines[1..] == [];
    assert ParseHeaders(ParseHeader(q, lines[0]).1, []) == (true, ParseHeader(q, lines[0]).1);
  }

  lemma {:induction false} FieldsRead(q: Request, fields: seq<Field>, n: nat)
    requires GoodFields(fields) && n < TWO_64
    ensures ParseHeaders(q, FieldLines(fields, n)) ==
      (true, q.(headers := Stored(q.headers, fields)[CONTENT_LENGTH := Digits(n, 10)]))
    ensures FirstLength(FieldLines(fields, n)) == n
    decreases |fields|
  {
    hide GoodField, FieldLine, LengthLine, ParseHeader, FirstLength, NamesLength;
    if fields == [] {
      LengthStored(q, n);
    } else {
      var line, rest := FieldLine(fields[0]), FieldLines(fields[1..], n);
      FieldReads(q, fields[0]);
      FieldsRead(q.(headers := q.headers[fields[0].key := fields[0].value]), fields[1..], n);
      ParseHeadersStep(q, line, rest);
      assert ([line] + rest)[1..] == rest;
      NotFoundFirst([line] + rest);
    }
  }

  // ---------- The text ----------

  lemma {:induction false} WordIsOneLine(s: string)
    requires IsWord(s)
    ensures OneLineText(s)
  {
  }

  lemma {:induction false} JoinedIsOneLine(a: string, b: string)
    requires OneLineText(a) && OneLineText(b)
    ensures OneLineText(a + b)
  {
  }

  lemma {:induction false} LineIsGood(m: Message)
    requires m.verb != UnknownMethod && m.version != UnknownVersion && IsWord(m.path)
    ensures GoodLine(RequestLine(m))
  {
    assert RequestLine(m) != "" && OneLineText(RequestLine(m)) by {
      hide OneLineText, IsWord;
      VerbReads(m.verb);
      VersionReads(m.version);
      WordIsOneLine(VerbText(m.verb));
      WordIsOneLine(m.path);
      WordIsOneLine(VersionText(m.version));
      assert OneLineText(" ") by { BlankIsOneLine(); }
      JoinedIsOneLine(" ", VersionText(m.version));
      JoinedIsOneLine(m.path, " " + VersionText(m.version));
      JoinedIsOneLine(" ", m.path + (" " + VersionText(m.version)));
      JoinedIsOneLine(VerbText(m.verb), " " + (m.path + (" " + VersionText(m.version))));
    }
    hide RequestLine;
  }

  lemma {:induction false} BlankIsOneLine()
    ensures OneLineText(" ") && OneLineText(": ") && OneLineText(CONTENT_LENGTH)
  {
  }

  lemma {:induction false} FieldLineIsGood(f: Field)
    requires GoodField(f)
    ensures GoodLine(FieldLine(f))
  {
    hide Trim;
    BlankIsOneLine();
    JoinedIsOneLine(": ", f.value);
    JoinedIsOneLine(f.key, ": " + f.value);
  }

  lemma {:induction false} LinesAreGood(fields: seq<Field>, n: nat)
    requires GoodFields(fields)
    ensures GoodLines(FieldLines(fields, n))
    decreases |fields|
  {
    hide GoodField, FieldLine, LengthLine, GoodLine;
    LengthLineIsGood(n);
    if fields != [] {
      FieldLineIsGood(fields[0]);
      LinesAreGood(fields[1..], n);
    }
  }

  /** A printed message is well formed, and it means what it was printed from. */
  lemma {:induction false} PrintedMessage(m: Message)
    requires GoodMessage(m)
    ensures WellFormed(Print(m)) && Meaning(Print(m)) == Received(m)
  {
    hide ParseRequestLine, ParseHeaders, RequestLine, FieldLines, Stoul, Digits, FirstLength;
    hide GoodLine, GoodLines, Bytes, AfterHeaders;
    BodyIsShorter(Print(m));
    LineIsGood(m);
    LinesAreGood(m.fields, |m.body|);
    HeadReads(m);
    PlainStoul(|m.body|);
  }

  lemma {:induction false} HeadReads(m: Message)
    requires GoodMessage(m) && |m.body| < TWO_64
    ensures AfterHeaders(EMPTY_REQUEST, Print(m)) == (true, Received(m).(body := ""))
    ensures FirstLength(Print(m).headers) == |m.body|
  {
    hide ParseRequestLine, ParseHeaders, RequestLine, FieldLines, Digits, FirstLength, Bytes;
    LineReads(EMPTY_REQUEST, m);
    var q := EMPTY_REQUEST.(verb := m.verb, path := m.path, version := m.version);
    FieldsRead(q, m.fields, |m.body|);
  }

  lemma {:induction false} BodyIsShorter(w: WireRequest)
    ensures |w.body| <= |Bytes(w)|
  {
  }

  // ---------- Many messages, any fragmentation ----------

  function PrintAll(ms: seq<Message>): seq<WireRequest> {
    if ms == [] then [] else [Print(ms[0])] + PrintAll(ms[1..])
  }

  function Answers(ms: seq<Message>): seq<Reassembly.Event> {
    seq(|ms|, k requires 0 <= k < |ms| => Dispatched(Received(ms[k])))
  }

  lemma {:induction false} PrintedMessages(ms: seq<Message>)
    requires forall k :: 0 <= k < |ms| ==> GoodMessage(ms[k])
    ensures forall k :: 0 <= k < |PrintAll(ms)| ==> WellFormed(PrintAll(ms)[k])
    ensures Meanings(PrintAll(ms)) == Answers(ms)
  {
    hide GoodMessage, WellFormed, Meaning, Received, Print;
    if ms != [] {
      PrintedMessage(ms[0]);
      PrintedMessages(ms[1..]);
      assert PrintAll(ms)[1..] == PrintAll(ms[1..]);
      assert Answers(ms) == [Dispatched(Received(ms[0]))] + Answers(ms[1..]);
    }
  }

  /** The round trip of the whole receive path: any list of messages, printed back to back and delivered in any
      fragments, is dispatched as exactly those messages, in order, with method, path, version, fields and body
      as they were, and nothing is left over. */
  lemma {:induction false} MessagesRoundTrip(ms: seq<Message>, batches: seq<string>)
    requires (forall k :: 0 <= k < |ms| ==> GoodMessage(ms[k])) && Concat(batches) == StreamOf(PrintAll(ms))
    ensures HandleReads(START, batches) == Input("", EMPTY_REQUEST, Answers(ms))
  {
    hide GoodMessage, WellFormed, HandleReads, Concat, StreamOf;
    PrintedMessages(ms);
    PipelinedRequestsAreDispatched(PrintAll(ms), batches);
  }

  // ---------- From the client's socket to the receive loop ----------

  /** The frame a client wants on the bus, with the id as the user typed it. */
  datatype Posted = Posted(idText: string, id: bv32, isExtended: bool, data: seq<byte>)
  {
    predicate Valid() {
      IsNumberText(idText, id as nat) && IdInRange(id, isExtended) && |data| <= MAX_DATA_LENGTH
    }

    function Body(): string {
      ObjectText(ClientMembers(idText, isExtended, data))
    }

    function Arriving(timestampNs: nat): CanFrame
      requires Valid()
    {
      CanFrame(0, timestampNs, id, Padded(data), |data|, isExtended, Rx)
    }
  }

  /** What the kernel hands to a receive loop when the socket takes every frame the dispatched requests send. */
  function OnBus(log: seq<Reassembly.Event>, timestampNs: nat): (r: seq<R.Outcome>)
    ensures R.AllValid(r)
  {
    hide FrameSent;
    if log == [] then []
    else
      var rest := OnBus(log[1..], timestampNs);
      if log[0].BadRequest? || FrameSent(log[0].request).None? then rest
      else [R.Got(FrameSent(log[0].request).value, timestampNs)] + rest
  }

  /** The message posts this frame, or none: then it is a request of another kind, or one that is refused. */
  predicate Posts(m: Message, post: Option<Posted>) {
    if post.None? then FrameSent(Received(m)).None?
    else
      post.value.Valid() && m.verb == POST && PathWithoutQuery(m.path) == "/api/can/send" && m.body == post.value.Body()
  }

  function PostedFrames(posts: seq<Option<Posted>>, timestampNs: nat): seq<CanFrame>
    requires forall k :: 0 <= k < |posts| && posts[k].Some? ==> posts[k].value.Valid()
  {
    if posts == [] then []
    else
      (if posts[0].Some? then [posts[0].value.Arriving(timestampNs)] else []) + PostedFrames(posts[1..], timestampNs)
  }

  lemma {:induction false} PostArrives(m: Message, p: Posted, timestampNs: nat)
    requires Posts(m, Some(p))
    ensures var sent := FrameSent(Received(m));
      sent.Some? && |sent.value.data| == MAX_DATA_LENGTH &&
      Decode(sent.value, timestampNs) == Some(p.Arriving(timestampNs))
  {
    hide IsNumberText, ReadSendBody, Decode, ClientMembers, Encode, PathWithoutQuery, Stored, Digits, ObjectText;
    assert p.id <= MAX_EXTENDED_ID;
    hide IdInRange;
    ClientBodyParses(p.idText, p.id, p.isExtended, p.data);
    DecodeEncode(p.id, p.isExtended, p.data, timestampNs);
  }

  lemma {:induction false} OneOutcome(o: R.Outcome, rest: seq<R.Outcome>)
    requires o.Got? && o.Valid() && R.AllValid(rest) && Decode(o.frame, o.timestampNs).Some?
    ensures R.AllValid([o] + rest)
    ensures R.Received([o] + rest) == [Decode(o.frame, o.timestampNs).value] + R.Received(rest)
  {
    hide Decode;
    assert ([o] + rest)[1..] == rest;
  }

  lemma {:induction false} OneMessage(m: Message, post: Option<Posted>, rest: seq<Reassembly.Event>, timestampNs: nat)
    requires Posts(m, post)
    ensures post.Some? ==> post.value.Valid()
    ensures R.Received(OnBus([Dispatched(Received(m))] + rest, timestampNs)) ==
      (if post.Some? then [post.value.Arriving(timestampNs)] else []) + R.Received(OnBus(rest, timestampNs))
  {
    hide FrameSent, Received, R.Received, Decode;
    var log := [Dispatched(Received(m))] + rest;
    assert log[1..] == rest;
    if post.Some? {
      PostArrives(m, post.value, timestampNs);
      OneOutcome(R.Got(FrameSent(Received(m)).value, timestampNs), OnBus(rest, timestampNs));
    } else {
      assert [] + R.Received(OnBus(rest, timestampNs)) == R.Received(OnBus(rest, timestampNs));
    }
  }

  lemma {:induction false} PostsArrive(ms: seq<Message>, posts: seq<Option<Posted>>, timestampNs: nat)
    requires |ms| == |posts| && forall k :: 0 <= k < |ms| ==> Posts(ms[k], posts[k])
    ensures forall k :: 0 <= k < |posts| && posts[k].Some? ==> posts[k].value.Valid()
    ensures R.Received(OnBus(Answers(ms), timestampNs)) == PostedFrames(posts, timestampNs)
    decreases |ms|
  {
    assert forall k :: 0 <= k < |posts| && posts[k].Some? ==> Posts(ms[k], posts[k]) && posts[k].value.Valid();
    hide Received, R.Received, Posts, OnBus;
    if ms == [] {
      NothingReceived(timestampNs);
    } else {
      PostsArrive(ms[1..], posts[1..], timestampNs);
      assert Answers(ms) == [Dispatched(Received(ms[0]))] + Answers(ms[1..]);
      OneMessage(ms[0], posts[0], Answers(ms[1..]), timestampNs);
    }
  }

  lemma {:induction false} NothingReceived(timestampNs: nat)
    ensures Answers([]) == [] && OnBus([], timestampNs) == [] && R.Received([]) == []
  {
  }

  /** Any list of messages, printed back to back and delivered in any fragments. Those that post a frame to the
      send route, wherever they stand among other requests, are dispatched, parsed, accepted and encoded, and a
      receive loop on the bus decodes exactly the frames the clients asked for, in order. */
  lemma {:induction false} PostedFramesArrive(ms: seq<Message>, posts: seq<Option<Posted>>, batches: seq<string>,
      timestampNs: nat)
    requires |ms| == |posts| && Concat(batches) == StreamOf(PrintAll(ms))
    requires forall k :: 0 <= k < |ms| ==> GoodMessage(ms[k]) && Posts(ms[k], posts[k])
    ensures forall k :: 0 <= k < |posts| && posts[k].Some? ==> posts[k].value.Valid()
    ensures R.Received(OnBus(HandleReads(START, batches).log, timestampNs)) == PostedFrames(posts, timestampNs)
  {
    hide GoodMessage, Concat, StreamOf, HandleReads, OnBus, PostedFrames, R.Received, Posts, Answers;
    PostsArrive(ms, posts, timestampNs);
    MessagesRoundTrip(ms, batches);
  }
}
