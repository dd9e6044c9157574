/** HttpRequest.cpp: the one-shot request parser, as a function of the request object's fields and as the class
    whose method updates them in place. */
module HttpParsing {
  import opened Text
  import opened Numbers

  /** The methods the parser ever stores. */
  datatype Method = GET | POST | UnknownMethod

  datatype Version = HTTP_10 | HTTP_11 | UnknownVersion

  datatype Request = Request(verb: Method, path: string, version: Version, body: string, headers: map<string, string>)

  const EMPTY_REQUEST := Request(UnknownMethod, "", UnknownVersion, "", map[])
  const CRLF := "\r\n"
  const BLANK_LINE := "\r\n\r\n"
  const CONTENT_LENGTH := "Content-Length"

  predicate IsToken(c: char) {
    !IsSpace(c)
  }

  predicate IsBlank(c: char) {
    c == ' '
  }

  /** What repeated `iss >> word` extracts. */
  function Tokens(s: string): seq<string>
    decreases |s|
  {
    var rest := s[Span(s, IsSpace)..];
    if rest == "" then []
    else
      var n := Span(rest, IsToken);
      [rest[..n]] + Tokens(rest[n..])
  }

  function ToUpper(c: char): char {
    if 'a' <= c <= 'z' then (c as int - 32) as char else c
  }

  function Upper(s: string): string {
    seq(|s|, i requires 0 <= i < |s| => ToUpper(s[i]))
  }

  function MethodOf(word: string): Method {
    var upper := Upper(word);
    if upper == "GET" then GET else if upper == "POST" then POST else UnknownMethod
  }

  function VersionOf(word: string): Version {
    if word == "HTTP/1.1" then HTTP_11 else if word == "HTTP/1.0" then HTTP_10 else UnknownVersion
  }

  /** parseRequestLine: the path is stored as soon as a second word is read, even when the line is refused. */
  function ParseRequestLine(q: Request, line: string): (bool, Request) {
    var words := Tokens(line);
    var q1 := if |words| >= 2 then q.(path := words[1]) else q;
    if |words| != 3 then (false, q1)
    else
      var version := VersionOf(words[2]);
      (version != UnknownVersion, q1.(verb := MethodOf(words[0]), version := version))
  }

  /** Removes blanks (and nothing else) from the front. */
  function StripFront(s: string): string {
    s[Span(s, IsBlank)..]
  }

  function HeaderKey(line: string, colon: nat): string
    requires colon < |line|
  {
    DropRight(StripFront(line[..colon]), IsBlank)
  }

  function HeaderValue(line: string, colon: nat): string
    requires colon < |line|
  {
    StripFront(line[colon + 1..])
  }

  /** parseHeader. */
  function ParseHeader(q: Request, line: string): (bool, Request) {
    var colon := IndexOf(line, ':');
    if colon == |line| then (false, q)
    else (true, q.(headers := q.headers[HeaderKey(line, colon) := HeaderValue(line, colon)]))
  }

  /** The lines of a stream up to the first empty one, each without its trailing CR. */
  function HeaderLines(s: string): seq<string>
    decreases |s|
  {
    var next := GetLine(s);
    if next.None? then []
    else
      var line := StripCr(next.value.0);
      if line == "" then [] else [line] + HeaderLines(next.value.1)
  }

  function ParseHeaders(q: Request, lines: seq<string>): (bool, Request)
    decreases |lines|
  {
    if lines == [] then (true, q)
    else
      var r := ParseHeader(q, lines[0]);
      if !r.0 then r else ParseHeaders(r.1, lines[1..])
  }

  /** The end of parse: the body is the declared number of bytes, or all that follows the blank line. The
      comparison is made in 64-bit arithmetic; substr stops at the end of the text. */
  function ParseBody(q: Request, data: string): (bool, Request) {
    var blank := Find(data, BLANK_LINE);
    if blank.None? then (false, q)
    else
      var start := blank.value + 4;
      if CONTENT_LENGTH !in q.headers then (true, q.(body := data[start..]))
      else
        var length := Stoul(q.headers[CONTENT_LENGTH]);
        if length.None? || |data| < AddSize(start, length.value) then (false, q)
        else
          var end := if start + length.value <= |data| then start + length.value else |data|;
          (true, q.(body := data[start..end]))
  }

  /** HttpRequest::parse on an object whose fields are `q`. */
  function Parse(q: Request, data: string): (r: (bool, Request))
    ensures r.0 ==> Find(data, BLANK_LINE).Some?
  {
    var first := GetLine(data);
    if first.None? then (false, q)
    else
      var line := ParseRequestLine(q, StripCr(first.value.0));
      if !line.0 then line
      else
        var headers := ParseHeaders(line.1, HeaderLines(first.value.1));
        if !headers.0 then headers else ParseBody(headers.1, data)
  }

  class HttpRequest {
    var verb: Method
    var path: string
    var version: Version
    var body: string
    var headers: map<string, string>

    function Fields(): Request
      reads this
    {
      Request(verb, path, version, body, headers)
    }

    constructor ()
      ensures Fields() == EMPTY_REQUEST
    {
      verb, path, version, body, headers := UnknownMethod, "", UnknownVersion, "", map[];
    }

    method ReadRequestLine(line: string) returns (ok: bool)
      modifies this
      ensures (ok, Fields()) == ParseRequestLine(old(Fields()), line)
    {
      var words := Tokens(line);
      if |words| >= 2 {
        path := words[1];
      }
      if |words| != 3 { return false; }
      verb := MethodOf(words[0]);
      version := VersionOf(words[2]);
      return version != UnknownVersion;
    }

    method ReadHeader(line: string) returns (ok: bool)
      modifies this
      ensures (ok, Fields()) == ParseHeader(old(Fields()), line)
    {
      var colon := IndexOf(line, ':');
      if colon == |line| { return false; }
      headers := headers[HeaderKey(line, colon) := HeaderValue(line, colon)];
      return true;
    }

    /** The header loop of parse. */
    method ReadHeaders(stream: string) returns (ok: bool)
      modifies this
      ensures (ok, Fields()) == ParseHeaders(old(Fields()), HeaderLines(stream))
    {
      hide ParseHeader;
      var rest := stream;
      while true
        invariant ParseHeaders(Fields(), HeaderLines(rest)) == ParseHeaders(old(Fields()), HeaderLines(stream))
        decreases |rest|
      {
        var next := GetLine(rest);
        if next.None? { return true; }
        var line := StripCr(next.value.0);
        if line == "" { return true; }
        ghost var before := Fields();
        var good := ReadHeader(line);
        ParseHeadersStep(before, line, HeaderLines(next.value.1));
        if !good { return false; }
        rest := next.value.1;
      }
    }

    /** parse. */
    method ReadRequest(data: string) returns (ok: bool)
      modifies this
      ensures (ok, Fields()) == Parse(old(Fields()), data)
    {
      hide ParseRequestLine, ParseHeaders, HeaderLines;
      var first := GetLine(data);
      if first.None? { return false; }
      ok := ReadRequestLine(StripCr(first.value.0));
      if !ok { return false; }
      ok := ReadHeaders(first.value.1);
      if !ok { return false; }
      ok := ReadBody(data);
    }

    method ReadBody(data: string) returns (ok: bool)
      modifies this
      ensures (ok, Fields()) == ParseBody(old(Fields()), data)
    {
      hide Find, Stoul, AddSize;
      var bodyStart := Find(data, BLANK_LINE);
      if bodyStart.None? { return false; }
      var start := bodyStart.value + 4;
      assert data[start..|data|] == data[start..];
      if CONTENT_LENGTH in headers {
        var length := Stoul(headers[CONTENT_LENGTH]);
        if length.None? { return false; }
        if |data| < AddSize(start, length.value) { return false; }
        body := if start + length.value <= |data| then data[start..start + length.value] else data[start..];
      } else {
        body := data[start..];
      }
      return true;
    }
  }

  lemma {:induction false} ParseHeadersStep(q: Request, line: string, rest: seq<string>)
    ensures ParseHeaders(q, [line] + rest) ==
      if ParseHeader(q, line).0 then ParseHeaders(ParseHeader(q, line).1, rest) else ParseHeader(q, line)
  {
    assert ([line] + rest)[1..] == rest;
  }
}
