/** The parts of processRequest (Connection.cpp) that reach the bus and the stream: which requests ask for what. */
module Routing {
  import opened Wrappers
  import opened Text
  import opened Numbers
  import opened CanFrames
  import opened FrameCodec
  import opened CodecRoundTrip
  import opened CanBus
  import opened HttpParsing

  const STREAM_ROUTE := "/api/can/stream"
  const SEND_ROUTE := "/api/can/send"
  const AFTER := "after"

  /** pathWithoutQuery. */
  function PathWithoutQuery(path: string): (r: string)
    ensures r <= path && '?' !in r && (r == path || path[|r|] == '?')
  {
    path[..IndexOf(path, '?')]
  }

  function AddItem(m: map<string, string>, item: string): map<string, string> {
    var equals := IndexOf(item, '=');
    if equals == |item| then m else m[item[..equals] := item[equals + 1..]]
  }

  /** The items between the ampersands, from left to right; an item without '=' counts for nothing. */
  function AddItems(m: map<string, string>, query: string): map<string, string>
    decreases |query|
  {
    var n := IndexOf(query, '&');
    var m' := AddItem(m, query[..n]);
    if n == |query| then m' else AddItems(m', query[n + 1..])
  }

  function Query(path: string): map<string, string> {
    var mark := IndexOf(path, '?');
    if mark == |path| then map[] else AddItems(map[], path[mark + 1..])
  }

  /** parseQuery. */
  method ParseQuery(path: string) returns (result: map<string, string>)
    ensures result == Query(path)
  {
    hide AddItem;
    result := map[];
    var mark := IndexOf(path, '?');
    if mark == |path| { return; }
    var rest := path[mark + 1..];
    var done := false;
    while !done
      invariant !done ==> AddItems(result, rest) == Query(path)
      invariant done ==> result == Query(path)
      decreases !done, |rest|
    {
      var ampersand := IndexOf(rest, '&');
      result := AddItem(result, rest[..ampersand]);
      if ampersand == |rest| {
        done := true;
      } else {
        rest := rest[ampersand + 1..];
      }
    }
  }

  /** The request starts a stream behind this number; None for every other request and for an invalid number,
      which are answered with a response. */
  function StreamStart(r: Request): Option<nat> {
    if r.verb != GET || PathWithoutQuery(r.path) != STREAM_ROUTE then None
    else
      var query := Query(r.path);
      if AFTER in query then ParseUnsigned(query[AFTER]) else Some(0)
  }

  /** The body of a request to send a frame, as parseSendBody reads it. */
  function SendRequest(r: Request): (body: Option<SendBody>)
    ensures body.Some? ==> |body.value.data| <= MAX_DATA_LENGTH
  {
    if r.verb != POST || PathWithoutQuery(r.path) != SEND_ROUTE then None else ReadSendBody(r.body)
  }

  /** The frame such a request puts on the bus when the socket takes it. */
  function FrameSent(r: Request): (frame: Option<KernelFrame>)
    ensures frame.Some? ==> |frame.value.data| == MAX_DATA_LENGTH
  {
    hide SendRequest, Encode, IdInRange;
    var body := SendRequest(r);
    if body.None? || !IdInRange(body.value.id, body.value.isExtended) then None
    else Some(Encode(body.value.id, body.value.isExtended, body.value.data))
  }

  // ---------- Queries as clients print them ----------

  datatype Param = Param(key: string, value: string)

  /** Neither part holds an ampersand, and the key no equals sign. */
  predicate GoodParams(params: seq<Param>) {
    forall k :: 0 <= k < |params| ==> '&' !in params[k].key && '=' !in params[k].key && '&' !in params[k].value
  }

  function ParamText(p: Param): string {
    p.key + ("=" + p.value)
  }

  function QueryText(params: seq<Param>): string {
    if params == [] then ""
    else if |params| == 1 then ParamText(params[0])
    else ParamText(params[0]) + ("&" + QueryText(params[1..]))
  }

  /** The parameters in order, a later one replacing an earlier one of the same key. */
  function Collected(m: map<string, string>, params: seq<Param>): map<string, string>
    decreases |params|
  {
    if params == [] then m else Collected(m[params[0].key := params[0].value], params[1..])
  }

  function ResumePath(n: nat): string {
    "/api/can/stream" + ("?" + QueryText([Param("after", Digits(n, 10))]))
  }

  lemma {:induction false} NotThere(s: string, c: char)
    requires c !in s
    ensures IndexOf(s, c) == |s|
  {
  }

  lemma {:induction false} BehindText(s: string, c: char, rest: string)
    requires c !in s
    ensures var t := s + ([c] + rest); IndexOf(t, c) == |s| && t[..|s|] == s && |t| > |s| && t[|s| + 1..] == rest
  {
    hide IndexOf;
    var t := s + ([c] + rest);
    forall k | 0 <= k < |s| ensures t[k] != c {
      assert t[k] == s[k];
    }
    IndexOfIs(t, c, |s|);
  }

  lemma {:induction false} OneParam(m: map<string, string>, p: Param)
    requires '=' !in p.key && '&' !in p.key && '&' !in p.value
    ensures AddItem(m, ParamText(p)) == m[p.key := p.value] && '&' !in ParamText(p)
  {
    hide IndexOf;
    BehindText(p.key, '=', p.value);
  }

  lemma {:induction false} LastItem(m: map<string, string>, item: string)
    requires '&' !in item
    ensures AddItems(m, item) == AddItem(m, item)
  {
    hide AddItem, IndexOf;
    NotThere(item, '&');
    assert item[..|item|] == item;
  }

  lemma {:induction false} NextItemAdded(m: map<string, string>, item: string, rest: string)
    requires '&' !in item
    ensures AddItems(m, item + ("&" + rest)) == AddItems(AddItem(m, item), rest)
  {
    hide AddItem, IndexOf;
    BehindText(item, '&', rest);
  }

  lemma {:induction false} ItemsRead(m: map<string, string>, params: seq<Param>)
    requires GoodParams(params) && params != []
    ensures AddItems(m, QueryText(params)) == Collected(m, params)
    decreases |params|
  {
    hide AddItem, AddItems, ParamText;
    var p := params[0];
    OneParam(m, p);
    if |params| == 1 {
      LastItem(m, ParamText(p));
      assert params[1..] == [];
    } else {
      NextItemAdded(m, ParamText(p), QueryText(params[1..]));
      ItemsRead(m[p.key := p.value], params[1..]);
    }
  }

  /** The round trip of a path with a query: parseQuery reads every parameter that was printed, and
      pathWithoutQuery the route. */
  lemma {:induction false} QueryReads(route: string, params: seq<Param>)
    requires '?' !in route && GoodParams(params) && params != []
    ensures var path := route + ("?" + QueryText(params));
      Query(path) == Collected(map[], params) && PathWithoutQuery(path) == route
    ensures Query(route) == map[] && PathWithoutQuery(route) == route
  {
    hide AddItems, QueryText, IndexOf;
    BehindText(route, '?', QueryText(params));
    NotThere(route, '?');
    ItemsRead(map[], params);
    assert route[..|route|] == route;
  }

  // ---------- Starting and resuming a stream ----------

  /** Where a GET of the stream route starts: at the beginning without the parameter, behind its number with it,
      and nowhere when that is no number. Other parameters do not matter, and the last of several counts. */
  lemma {:induction false} StreamStartIs(r: Request, params: seq<Param>)
    requires r.verb == GET && GoodParams(params) && params != []
    ensures r.path == "/api/can/stream" ==> StreamStart(r) == Some(0)
    ensures r.path == "/api/can/stream" + ("?" + QueryText(params)) ==>
      var query := Collected(map[], params);
      StreamStart(r) == if "after" in query then ParseUnsigned(query["after"]) else Some(0)
  {
    hide Query, PathWithoutQuery, QueryText, Collected, ParseUnsigned;
    NoMark();
    QueryReads(STREAM_ROUTE, params);
  }

  lemma {:induction false} NoMark()
    ensures '?' !in STREAM_ROUTE
  {
  }

  lemma {:induction false} NoAmpersand(n: nat)
    ensures '&' !in Digits(n, 10) && '&' !in AFTER && '=' !in AFTER
  {
  }

  /** A client that asks for what lies behind the last sequence number it has seen, printed in decimal, gets a
      stream that starts exactly there. */
  lemma {:induction false} ResumesBehind(r: Request, n: nat)
    requires r.verb == GET && r.path == ResumePath(n) && n < TWO_64
    ensures StreamStart(r) == Some(n)
  {
    hide Digits, ParseUnsigned, QueryText, StreamStart;
    var p := Param(AFTER, Digits(n, 10));
    NoAmpersand(n);
    StreamStartIs(r, [p]);
    assert [p][1..] == [];
    assert Collected(map[], [p]) == Collected(map[AFTER := p.value], []);
    ParsePrintedDecimal(n);
  }
}
