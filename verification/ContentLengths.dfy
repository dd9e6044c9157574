/** The two Content-Length readers, extractContentLength (Connection.cpp) and HttpRequest::parse, on the same
    request. */
module ContentLengths {
  import opened Wrappers
  import opened Text
  import opened Numbers
  import opened HttpParsing
  import opened Reassembly

  // ---------- Both read the same header lines ----------

  /** The lines extractContentLength sees: those of the text cut at the blank line. */
  function CutLines(data: string): seq<string> {
    var end := Find(data, BLANK_LINE);
    if end.None? then []
    else
      var first := GetLine(data[..end.value]);
      if first.None? then [] else HeaderLines(first.value.1)
  }

  /** The lines parse sees: those after the first line of the whole text. */
  function FullLines(data: string): seq<string> {
    var first := GetLine(data);
    if first.None? then [] else HeaderLines(first.value.1)
  }

  /** The cut removes the CR that ends the last header line, so a line that ends in two of them differs. */
  predicate SameUpToCr(full: seq<string>, cut: seq<string>) {
    full == cut ||
    (full != [] && var n, x := |full| - 1, full[|full| - 1];
      cut == full[..n] + (if StripCr(x) == "" then [] else [StripCr(x)]))
  }

  /** The first line feed at or before the blank line: the one that ends it, or an earlier one. */
  lemma {:induction false} LineFeedBefore(t: string, h: nat)
    requires Find(t, BLANK_LINE) == Some(h)
    ensures h + 4 <= |t| && t[h] == '\r' && t[h + 1] == '\n' && t[h + 2] == '\r' && t[h + 3] == '\n'
    ensures IndexOf(t, '\n') < h || IndexOf(t, '\n') == h + 1
  {
    assert BLANK_LINE <= t[h..];
    assert t[h] == t[h..][0] && t[h + 1] == t[h..][1] && t[h + 2] == t[h..][2] && t[h + 3] == t[h..][3];
    var n := IndexOf(t, '\n');
  }

  /** The text behind the last header line is the blank line. */
  lemma {:induction false} BlankStops(t: string)
    requires |t| >= 2 && t[0] == '\r' && t[1] == '\n'
    ensures HeaderLines(t) == []
  {
    assert IndexOf(t, '\n') == 1;
    assert t[..1] == "\r";
  }

  lemma {:induction false} LinesRelate(t: string, h: nat)
    requires Find(t, BLANK_LINE) == Some(h)
    ensures SameUpToCr(HeaderLines(t), HeaderLines(t[..h]))
    decreases |t|
  {
    hide SameUpToCr, HeaderLines, StripCr, Find;
    LineFeedBefore(t, h);
    var n := IndexOf(t, '\n');
    if n == h + 1 {
      LastLine(t, h);
    } else {
      FindDrop(t, n + 1, BLANK_LINE);
      var rest := t[n + 1..];
      LinesRelate(rest, h - n - 1);
      CutLine(t, h);
      var line := StripCr(t[..n]);
      if line == "" {
        assert SameUpToCr([], []) by { SameIsRelated([]); }
      } else {
        RelateCons(line, HeaderLines(rest), HeaderLines(rest[..h - n - 1]));
      }
    }
  }

  lemma {:induction false} SameIsRelated(lines: seq<string>)
    ensures SameUpToCr(lines, lines)
  {
  }

  lemma {:induction false} RelateCons(line: string, full: seq<string>, cut: seq<string>)
    requires SameUpToCr(full, cut)
    ensures SameUpToCr([line] + full, [line] + cut)
  {
    hide StripCr;
    if full != cut {
      var n := |full| - 1;
      assert ([line] + full)[..n + 1] == [line] + full[..n];
    }
  }

  lemma {:induction false} SplitLine(t: string, n: nat)
    requires n < |t| && IndexOf(t, '\n') == n
    ensures var line := StripCr(t[..n]);
      HeaderLines(t) == if line == "" then [] else [line] + HeaderLines(t[n + 1..])
  {
  }

  /** A line that ends before the cut is the same in both texts. */
  lemma {:induction false} CutLine(t: string, h: nat)
    requires h <= |t| && IndexOf(t, '\n') < h
    ensures var n := IndexOf(t, '\n'); var line, rest := StripCr(t[..n]), t[n + 1..];
      && HeaderLines(t) == (if line == "" then [] else [line] + HeaderLines(rest))
      && HeaderLines(t[..h]) == (if line == "" then [] else [line] + HeaderLines(rest[..h - n - 1]))
  {
    hide StripCr, HeaderLines;
    var n := IndexOf(t, '\n');
    IndexOfCut(t, '\n', h);
    hide IndexOf;
    SplitLine(t, n);
    SplitLine(t[..h], n);
    assert t[..h][..n] == t[..n];
    assert t[..h][n + 1..] == t[n + 1..][..h - n - 1];
  }

  lemma {:induction false} IndexOfCut(t: string, c: char, h: nat)
    requires h <= |t| && IndexOf(t, c) < h
    ensures IndexOf(t[..h], c) == IndexOf(t, c)
  {
    var n, m := IndexOf(t, c), IndexOf(t[..h], c);
    assert t[..h][n] == t[n];
    assert m < h ==> t[..h][m] == t[m];
  }

  lemma {:induction false} LastLine(t: string, h: nat)
    requires Find(t, BLANK_LINE) == Some(h) && IndexOf(t, '\n') == h + 1
    ensures SameUpToCr(HeaderLines(t), HeaderLines(t[..h]))
  {
    LineFeedBefore(t, h);
    hide Find, HeaderLines, SameUpToCr, StripCr;
    OneLineLeft(t, h);
    NoLineFeed(t[..h]);
    LastRelates(t[..h]);
  }

  lemma {:induction false} OneLineLeft(t: string, h: nat)
    requires h + 4 <= |t| && t[h] == '\r' && t[h + 2] == '\r' && t[h + 3] == '\n' && IndexOf(t, '\n') == h + 1
    ensures HeaderLines(t) == if t[..h] == "" then [] else [t[..h]]
  {
    hide HeaderLines;
    BlankStops(t[h + 2..]);
    SplitLine(t, h + 1);
    hide IndexOf;
    var x := t[..h];
    assert t[..h + 1] == x + "\r" && StripCr(x + "\r") == x;
    assert [x] + [] == [x];
  }

  lemma {:induction false} LastRelates(x: string)
    ensures SameUpToCr(if x == "" then [] else [x], if StripCr(x) == "" then [] else [StripCr(x)])
  {
    hide StripCr;
    if x == "" {
      EmptyLine();
    } else {
      assert [x][..0] == [];
    }
  }

  lemma {:induction false} EmptyLine()
    ensures StripCr("") == ""
  {
  }

  lemma {:induction false} NoLineFeed(x: string)
    requires forall k :: 0 <= k < |x| ==> x[k] != '\n'
    ensures HeaderLines(x) == if StripCr(x) == "" then [] else [StripCr(x)]
  {
    assert HeaderLines("") == [];
    if x != "" {
      assert IndexOf(x, '\n') == |x|;
      assert [StripCr(x)] + [] == [StripCr(x)];
    }
  }

  lemma {:induction false} GetLineAt(s: string, n: nat)
    requires n < |s| && IndexOf(s, '\n') == n
    ensures GetLine(s) == Some((s[..n], s[n + 1..]))
  {
  }

  lemma {:induction false} GetLineOfCut(s: string, n: nat, end: nat)
    requires n < end <= |s| && IndexOf(s, '\n') == n
    ensures GetLine(s[..end]) == Some((s[..n], s[n + 1..][..end - n - 1]))
  {
    hide GetLine;
    IndexOfCut(s, '\n', end);
    GetLineAt(s[..end], n);
    hide IndexOf;
    assert s[..end][..n] == s[..n];
    assert s[..end][n + 1..] == s[n + 1..][..end - n - 1];
  }

  lemma {:induction false} SameLines(data: string)
    requires Find(data, BLANK_LINE).Some?
    ensures SameUpToCr(FullLines(data), CutLines(data))
  {
    hide HeaderLines, Find, SameUpToCr, GetLine;
    var h := Find(data, BLANK_LINE).value;
    LineFeedBefore(data, h);
    var n := IndexOf(data, '\n');
    GetLineAt(data, n);
    if n == h + 1 {
      NothingBehind(data[..h]);
      hide IndexOf;
      BlankStops(data[h + 2..]);
      SameIsRelated([]);
    } else {
      GetLineOfCut(data, n, h);
      hide IndexOf;
      FindDrop(data, n + 1, BLANK_LINE);
      LinesRelate(data[n + 1..], h - n - 1);
    }
  }

  lemma {:induction false} NothingBehind(x: string)
    requires forall k :: 0 <= k < |x| ==> x[k] != '\n'
    ensures GetLine(x).Some? ==> HeaderLines(GetLine(x).value.1) == []
  {
  }

  // ---------- Both read the same number ----------

  /** extractContentLength takes the line for a Content-Length header. */
  predicate NamesLength(line: string) {
    var colon := IndexOf(line, ':');
    colon < |line| && Trim(line[..colon]) == CONTENT_LENGTH
  }

  /** parse does: it strips blanks only. */
  predicate StoresLength(line: string) {
    var colon := IndexOf(line, ':');
    colon < |line| && HeaderKey(line, colon) == CONTENT_LENGTH
  }

  function CountLengths(lines: seq<string>): nat {
    if lines == [] then 0 else (if NamesLength(lines[0]) then 1 else 0) + CountLengths(lines[1..])
  }

  function NumberOr0(text: string): nat {
    var n := Stoul(text);
    if n.Some? then n.value else 0
  }

  lemma {:induction false} DropBlanksOrSpaces(s: string)
    requires DropRight(s, IsBlank) == CONTENT_LENGTH
    ensures DropRight(s, IsTrimmed) == CONTENT_LENGTH
  {
    var r := DropRight(s, IsTrimmed);
    assert !IsTrimmed(CONTENT_LENGTH[|CONTENT_LENGTH| - 1]);
    assert s[|CONTENT_LENGTH| - 1] == CONTENT_LENGTH[|CONTENT_LENGTH| - 1];
    assert |r| == |CONTENT_LENGTH|;
  }

  /** What parse stores under Content-Length, extractContentLength finds. */
  lemma {:induction false} StoredIsNamed(line: string)
    requires StoresLength(line)
    ensures NamesLength(line)
  {
    var key := line[..IndexOf(line, ':')];
    var blanks := Span(key, IsBlank);
    var s := key[blanks..];
    assert s[0] == CONTENT_LENGTH[0] by { FrontOf(s); }
    assert key[blanks] == s[0];
    assert Span(key, IsTrimmed) == blanks;
    DropBlanksOrSpaces(s);
  }

  lemma {:induction false} FrontOf(s: string)
    requires DropRight(s, IsBlank) == CONTENT_LENGTH
    ensures s != "" && s[0] == CONTENT_LENGTH[0]
  {
  }

  /** Both trim differently, but read the same number. */
  lemma {:induction false} SameNumber(line: string)
    requires IndexOf(line, ':') < |line|
    ensures var colon := IndexOf(line, ':');
      Stoul(Trim(line[colon + 1..])) == Stoul(HeaderValue(line, colon))
  {
    hide Stoul, Trim, IndexOf;
    var value := line[IndexOf(line, ':') + 1..];
    StoulOfTrimmed(value);
    StoulIgnoresLeadingSpace(value, Span(value, IsBlank));
  }

  /** Lines that name no Content-Length leave the stored one alone. */
  lemma {:induction false} StoredStays(q: Request, lines: seq<string>)
    requires CountLengths(lines) == 0
    ensures var h := ParseHeaders(q, lines).1.headers;
      (CONTENT_LENGTH in h <==> CONTENT_LENGTH in q.headers) &&
      (CONTENT_LENGTH in h ==> h[CONTENT_LENGTH] == q.headers[CONTENT_LENGTH])
    decreases |lines|
  {
    hide NamesLength, HeaderKey, HeaderValue;
    if lines != [] {
      OtherHeader(q, lines[0]);
      StoredStays(ParseHeader(q, lines[0]).1, lines[1..]);
    }
  }

  lemma {:induction false} OtherHeader(q: Request, line: string)
    requires !StoresLength(line) || !NamesLength(line)
    ensures var h := ParseHeader(q, line).1.headers;
      (CONTENT_LENGTH in h <==> CONTENT_LENGTH in q.headers) &&
      (CONTENT_LENGTH in h ==> h[CONTENT_LENGTH] == q.headers[CONTENT_LENGTH])
  {
    if StoresLength(line) {
      StoredIsNamed(line);
    }
    hide NamesLength, HeaderKey, HeaderValue;
  }

  // ---------- What parse has stored ----------

  /** The value of the last line that parse stores under Content-Length. */
  function LastStored(lines: seq<string>): Option<string> {
    if lines == [] then None
    else
      var later := LastStored(lines[1..]);
      if later.Some? || !StoresLength(lines[0]) then later
      else Some(HeaderValue(lines[0], IndexOf(lines[0], ':')))
  }

  function LengthText(q: Request): Option<string> {
    if CONTENT_LENGTH in q.headers then Some(q.headers[CONTENT_LENGTH]) else None
  }

  lemma {:induction false} HeaderStores(q: Request, line: string)
    requires ParseHeader(q, line).0
    ensures LengthText(ParseHeader(q, line).1) ==
      if StoresLength(line) then Some(HeaderValue(line, IndexOf(line, ':'))) else LengthText(q)
  {
    hide HeaderKey, HeaderValue, IndexOf;
  }

  /** The last such line decides; without one the object keeps what it held. */
  lemma {:induction false} StoredIsLast(q: Request, lines: seq<string>)
    requires ParseHeaders(q, lines).0
    ensures LengthText(ParseHeaders(q, lines).1) ==
      if LastStored(lines).Some? then LastStored(lines) else LengthText(q)
    decreases |lines|
  {
    hide ParseHeader, StoresLength, HeaderValue, IndexOf, LengthText;
    if lines != [] {
      HeaderStores(q, lines[0]);
      StoredIsLast(ParseHeader(q, lines[0]).1, lines[1..]);
    }
  }

  /** With at most one line that names it, a Content-Length stored by parse reads as the number of
      extractContentLength. */
  lemma {:induction false} StoredIsFirst(q: Request, lines: seq<string>)
    requires CountLengths(lines) <= 1 && ParseHeaders(q, lines).0 && CONTENT_LENGTH !in q.headers
    requires CONTENT_LENGTH in ParseHeaders(q, lines).1.headers
    ensures FirstLength(lines) == NumberOr0(ParseHeaders(q, lines).1.headers[CONTENT_LENGTH])
    decreases |lines|
  {
    hide NamesLength, HeaderKey, HeaderValue, Stoul, Trim, NumberOr0;
    var line := lines[0];
    var q1 := ParseHeader(q, line).1;
    if NamesLength(line) {
      StoredStays(q1, lines[1..]);
      FoundFirst(q, lines);
    } else {
      OtherHeader(q, line);
      StoredIsFirst(q1, lines[1..]);
      NotFoundFirst(lines);
    }
  }

  lemma {:induction false} FoundFirst(q: Request, lines: seq<string>)
    requires lines != [] && NamesLength(lines[0]) && CONTENT_LENGTH !in q.headers
    requires CONTENT_LENGTH in ParseHeader(q, lines[0]).1.headers
    ensures FirstLength(lines) == NumberOr0(ParseHeader(q, lines[0]).1.headers[CONTENT_LENGTH])
  {
    hide Stoul, Trim, HeaderKey, HeaderValue;
    SameNumber(lines[0]);
  }

  lemma {:induction false} NotFoundFirst(lines: seq<string>)
    requires lines != [] && !NamesLength(lines[0])
    ensures FirstLength(lines) == FirstLength(lines[1..])
  {
  }

  /** The first line that names Content-Length decides, even with a value that is no number: then the length is
      0, whatever follows. */
  lemma {:induction false} FirstNamedDecides(before: seq<string>, line: string, behind: seq<string>)
    requires CountLengths(before) == 0 && IndexOf(line, ':') < |line|
    requires Trim(line[..IndexOf(line, ':')]) == "Content-Length"
    ensures FirstLength(before + ([line] + behind)) == NumberOr0(line[IndexOf(line, ':') + 1..])
    decreases |before|
  {
    hide Stoul, Trim, IndexOf, NamesLength;
    if before == [] {
      assert before + ([line] + behind) == [line] + behind;
      FirstLengthStep(line, behind);
      StoulOfTrimmed(line[IndexOf(line, ':') + 1..]);
    } else {
      var all := before + ([line] + behind);
      assert all[0] == before[0] && all[1..] == before[1..] + ([line] + behind);
      NotFoundFirst(all);
      FirstNamedDecides(before[1..], line, behind);
    }
  }

  // ---------- Dropping the last CR changes no number ----------

  lemma {:induction false} LastCrIgnored(q: Request, full: seq<string>, cut: seq<string>)
    requires SameUpToCr(full, cut) && ParseHeaders(q, full).0
    ensures FirstLength(cut) == FirstLength(full)
    decreases |full|
  {
    hide FirstLength, ParseHeader, StripCr;
    if full != cut {
      var line := full[0];
      if |full| == 1 {
        OneLine(q, full);
        var y := StripCr(full[0]);
        assert full[..0] + [y] == [y];
      } else {
        var n := |full| - 1;
        assert cut[0] == line && cut[1..] == full[1..][..n - 1] + cut[n..];
        assert full[..n][1..] == full[1..][..n - 1];
        LastCrIgnored(ParseHeader(q, line).1, full[1..], cut[1..]);
        SameFirst(full, cut);
      }
    }
  }

  lemma {:induction false} SameFirst(full: seq<string>, cut: seq<string>)
    requires full != [] && cut != [] && full[0] == cut[0] && FirstLength(full[1..]) == FirstLength(cut[1..])
    ensures FirstLength(full) == FirstLength(cut)
  {
    hide Stoul, Trim;
  }

  lemma {:induction false} OneLine(q: Request, full: seq<string>)
    requires |full| == 1 && ParseHeaders(q, full).0
    ensures StripCr(full[0]) != "" && FirstLength([StripCr(full[0])]) == FirstLength(full)
  {
    hide Stoul, Trim, HeaderKey, HeaderValue;
    var x := full[0];
    var y, colon := StripCr(x), IndexOf(x, ':');
    if y != x {
      assert x == y + "\r" && colon < |y|;
      assert y[colon] == ':';
      assert IndexOf(y, ':') == colon;
      assert x[..colon] == y[..colon];
      assert x[colon + 1..] == y[colon + 1..] + "\r";
      TrimmedCr(y[colon + 1..]);
    }
    assert full == [x];
  }

  lemma {:induction false} TrimmedCr(s: string)
    ensures Stoul(Trim(s + "\r")) == Stoul(Trim(s))
  {
    hide Stoul, Trim;
    StoulOfTrimmed(s);
    StoulOfTrimmed(s + "\r");
    StoulIgnoresTrailingSpace(s, '\r');
  }

  // ---------- The carved body ----------

  /** extractContentLength is the first length among the cut lines. */
  lemma {:induction false} LengthOfCutLines(request: string)
    ensures ContentLength(request) == FirstLength(CutLines(request))
  {
    hide HeaderLines, Find, GetLine;
  }

  /** A text handleRead carves (its length did not wrap) and parse accepts. */
  ghost predicate CarvedAndParsed(buf: string) {
    && Find(buf, BLANK_LINE).Some?
    && Find(buf, BLANK_LINE).value + 4 + ContentLength(buf) < TWO_64
    && Complete(buf)
    && Parse(EMPTY_REQUEST, buf[..RequestLength(buf)]).0
  }

  /** The carved text has the blank line and the length of the buffer it was cut from. */
  lemma {:induction false} CarvedText(buf: string)
    requires CarvedAndParsed(buf)
    ensures var text := buf[..RequestLength(buf)];
      && Find(text, BLANK_LINE) == Find(buf, BLANK_LINE)
      && ContentLength(text) == ContentLength(buf)
      && |text| == Find(text, BLANK_LINE).value + 4 + ContentLength(text)
  {
    hide Find, ContentLength, Parse;
    FindCut(buf, RequestLength(buf), BLANK_LINE);
    var text := buf[..RequestLength(buf)];
    assert text + buf[RequestLength(buf)..] == buf;
    ContentLengthStays(text, buf[RequestLength(buf)..]);
  }

  /** An accepted text went through all three parts of parse. */
  lemma {:induction false} ParsedParts(q: Request, text: string) returns (q1: Request)
    requires Parse(q, text).0
    ensures q1.headers == q.headers && ParseHeaders(q1, FullLines(text)).0
    ensures ParseBody(ParseHeaders(q1, FullLines(text)).1, text) == Parse(q, text)
  {
    hide HeaderLines, ParseHeaders, ParseBody, Tokens;
    q1 := ParseRequestLine(q, StripCr(GetLine(text).value.0)).1;
  }

  /** The body of every request handleRead carves and parse accepts: the carved bytes behind the blank line, cut
      to the stored number where that is smaller. So it is exactly these bytes if and only if no line stores a
      Content-Length or the last one that does is not below the number of extractContentLength; one line at most
      is enough. */
  lemma {:induction false} BodyIsTheCarvedBytes(buf: string)
    requires CarvedAndParsed(buf)
    ensures var text := buf[..RequestLength(buf)];
      var lines, carved := FullLines(text), text[Find(text, BLANK_LINE).value + 4..];
      var body, stored := Parse(EMPTY_REQUEST, text).1.body, LastStored(lines);
      && |carved| == ContentLength(buf)
      && body == (if stored.None? then carved else UpTo(carved, NumberOr0(stored.value)))
      && (body == carved <==> stored.None? || NumberOr0(stored.value) >= ContentLength(buf))
      && (CountLengths(lines) <= 1 ==> body == carved)
  {
    var text := buf[..RequestLength(buf)];
    CarvedText(buf);
    hide Find, ContentLength, Parse, CountLengths, RequestLength, Complete, FullLines, LastStored, NumberOr0, UpTo;
    ParsedBody(text, text[Find(text, BLANK_LINE).value + 4..]);
  }

  /** The same for a text that ends where its length says. */
  lemma {:induction false} ParsedBody(text: string, carved: string)
    requires Parse(EMPTY_REQUEST, text).0 && |text| == Find(text, BLANK_LINE).value + 4 + ContentLength(text)
    requires carved == text[Find(text, BLANK_LINE).value + 4..]
    ensures var lines := FullLines(text);
      var body, stored := Parse(EMPTY_REQUEST, text).1.body, LastStored(lines);
      && |carved| == ContentLength(text)
      && body == (if stored.None? then carved else UpTo(carved, NumberOr0(stored.value)))
      && (body == carved <==> stored.None? || NumberOr0(stored.value) >= ContentLength(text))
      && (CountLengths(lines) <= 1 ==> body == carved)
  {
    hide Find, ContentLength, Parse, CountLengths, ParseHeaders, FullLines, ParseBody, LastStored, NumberOr0, UpTo;
    var q1 := ParsedParts(EMPTY_REQUEST, text);
    StoredIsLast(q1, FullLines(text));
    BodyIs(ParseHeaders(q1, FullLines(text)).1, text, ContentLength(text));
    var stored := LastStored(FullLines(text));
    if stored.Some? {
      UpToWhole(carved, NumberOr0(stored.value));
      OneLengthAgrees(q1, text);
    }
  }

  lemma {:induction false} OneLengthAgrees(q: Request, text: string)
    requires Find(text, BLANK_LINE).Some? && CONTENT_LENGTH !in q.headers && ParseHeaders(q, FullLines(text)).0
    requires LastStored(FullLines(text)).Some?
    ensures CountLengths(FullLines(text)) <= 1 ==> ContentLength(text) == NumberOr0(LastStored(FullLines(text)).value)
  {
    hide Find, ContentLength, CountLengths, ParseHeaders, FullLines, LastStored, NumberOr0;
    StoredIsLast(q, FullLines(text));
    if CountLengths(FullLines(text)) <= 1 {
      ReadersAgree(q, text);
    }
  }

  function UpTo(s: string, n: nat): string {
    if n <= |s| then s[..n] else s
  }

  /** The stored number and the number of extractContentLength. */
  lemma {:induction false} ReadersAgree(q: Request, text: string)
    requires Find(text, BLANK_LINE).Some? && CONTENT_LENGTH !in q.headers
    requires ParseHeaders(q, FullLines(text)).0 && CountLengths(FullLines(text)) <= 1
    ensures var h := ParseHeaders(q, FullLines(text)).1.headers;
      CONTENT_LENGTH in h ==> ContentLength(text) == NumberOr0(h[CONTENT_LENGTH])
  {
    hide Find, ContentLength, CountLengths, ParseHeaders, FullLines, CutLines, FirstLength, SameUpToCr, NumberOr0;
    LengthOfCutLines(text);
    SameLines(text);
    LastCrIgnored(q, FullLines(text), CutLines(text));
    if CONTENT_LENGTH in ParseHeaders(q, FullLines(text)).1.headers {
      StoredIsFirst(q, FullLines(text));
    }
  }

  lemma {:induction false} UpToWhole(s: string, n: nat)
    ensures UpTo(s, n) == s <==> n >= |s|
  {
  }

  /** A text with `length` bytes behind its blank line. A stored number above `length` is accepted only when the
      comparison wraps, and then substr stops at the end of the text. */
  lemma {:induction false} BodyIs(q: Request, text: string, length: nat)
    requires ParseBody(q, text).0 && |text| == Find(text, BLANK_LINE).value + 4 + length
    ensures var carved := text[Find(text, BLANK_LINE).value + 4..];
      |carved| == length && ParseBody(q, text).1.body ==
        if LengthText(q).None? then carved else UpTo(carved, NumberOr0(LengthText(q).value))
  {
    hide Find, Stoul, AddSize;
    var start := Find(text, BLANK_LINE).value + 4;
    if LengthText(q).Some? && start + NumberOr0(LengthText(q).value) <= |text| {
      var n := NumberOr0(LengthText(q).value);
      assert text[start..][..n] == text[start..start + n];
    }
    assert text[start..|text|] == text[start..];
  }

  /** A length that wraps around 2^64 carves a text without its blank line, which parse refuses whatever the state. */
  lemma {:induction false} WrappedLengthIsRefused(q: Request, buf: string)
    requires Complete(buf) && |buf| < TWO_64
    requires Find(buf, BLANK_LINE).value + 4 + ContentLength(buf) >= TWO_64
    ensures !Parse(q, buf[..RequestLength(buf)]).0
  {
    WrappedLength(buf);
    hide Find, ContentLength, Parse, RequestLength;
    CutBefore(buf, RequestLength(buf), BLANK_LINE);
  }

  lemma {:induction false} WrappedLength(buf: string)
    requires Find(buf, BLANK_LINE).Some? && |buf| < TWO_64
    requires Find(buf, BLANK_LINE).value + 4 + ContentLength(buf) >= TWO_64
    ensures RequestLength(buf) < Find(buf, BLANK_LINE).value + |BLANK_LINE|
  {
    hide Find, ContentLength, AddSize;
    FoundFits(buf, BLANK_LINE);
  }

  /** Cutting into or before the first occurrence leaves none. */
  lemma {:induction false} CutBefore(s: string, end: nat, needle: string)
    requires Find(s, needle).Some? && end <= |s| && end < Find(s, needle).value + |needle|
    ensures Find(s[..end], needle) == None
  {
    var cut := s[..end];
    assert s == cut + s[end..];
    if Find(cut, needle).Some? {
      FoundFits(cut, needle);
      FindAppend(cut, s[end..], needle);
      assert false;
    }
  }

  // ---------- The headers depend on nothing behind the blank line ----------

  lemma {:induction false} LinesIgnoreBody(t: string, h: nat)
    requires Find(t, BLANK_LINE) == Some(h) && h + 4 <= |t|
    ensures HeaderLines(t) == HeaderLines(t[..h + 4])
    decreases |t|
  {
    hide HeaderLines, StripCr, Find;
    LineFeedBefore(t, h);
    var n, cut := IndexOf(t, '\n'), t[..h + 4];
    IndexOfCut(t, '\n', h + 4);
    SplitLine(t, n);
    SplitLine(cut, n);
    assert cut[..n] == t[..n];
    assert cut[n + 1..] == t[n + 1..][..h + 3 - n];
    if n == h + 1 {
      BlankStops(t[n + 1..]);
      BlankStops(cut[n + 1..]);
    } else {
      FindDrop(t, n + 1, BLANK_LINE);
      LinesIgnoreBody(t[n + 1..], h - n - 1);
    }
  }

  lemma {:induction false} FirstLineIgnoresBody(data: string, h: nat)
    requires Find(data, BLANK_LINE) == Some(h) && h + 4 <= |data|
    ensures var a, b := GetLine(data), GetLine(data[..h + 4]);
      a.Some? && b.Some? && a.value.0 == b.value.0 && HeaderLines(a.value.1) == HeaderLines(b.value.1)
  {
    hide HeaderLines, Find, GetLine;
    LineFeedBefore(data, h);
    var n := IndexOf(data, '\n');
    GetLineAt(data, n);
    GetLineOfCut(data, n, h + 4);
    RestIgnoresBody(data, h, n);
  }

  lemma {:induction false} RestIgnoresBody(data: string, h: nat, n: nat)
    requires Find(data, BLANK_LINE) == Some(h) && h + 4 <= |data| && (n < h || n == h + 1)
    ensures HeaderLines(data[n + 1..]) == HeaderLines(data[n + 1..][..h + 3 - n])
  {
    hide HeaderLines, Find, IndexOf;
    if n == h + 1 {
      LineFeedBefore(data, h);
      NoLinesLeft(data[n + 1..]);
    } else {
      FindDrop(data, n + 1, BLANK_LINE);
      LinesIgnoreBody(data[n + 1..], h - n - 1);
    }
  }

  lemma {:induction false} NoLinesLeft(rest: string)
    requires |rest| >= 2 && rest[0] == '\r' && rest[1] == '\n'
    ensures HeaderLines(rest) == [] && HeaderLines(rest[..2]) == []
  {
    hide HeaderLines;
    BlankStops(rest);
    BlankStops(rest[..2]);
  }

  lemma {:induction false} ToBodyIgnoresBody(q: Request, data: string)
    requires Find(data, BLANK_LINE).Some?
    ensures Find(data, BLANK_LINE).value + 4 <= |data|
    ensures ParseToBody(q, data) == ParseToBody(q, data[..Find(data, BLANK_LINE).value + 4])
  {
    hide HeaderLines, StripCr, Find, ParseRequestLine, ParseHeaders, GetLine;
    FoundFits(data, BLANK_LINE);
    FirstLineIgnoresBody(data, Find(data, BLANK_LINE).value);
  }

  /** Two accepted texts that agree up to the blank line have the same method, path, version and headers. */
  lemma {:induction false} HeadersIgnoreBody(q: Request, d1: string, d2: string)
    requires Parse(q, d1).0 && Parse(q, d2).0
    requires Find(d1, BLANK_LINE).Some? && Find(d2, BLANK_LINE) == Find(d1, BLANK_LINE)
    requires var end := Find(d1, BLANK_LINE).value + 4; end <= |d1| && end <= |d2| && d1[..end] == d2[..end]
    ensures Parse(q, d1).1.(body := "") == Parse(q, d2).1.(body := "")
  {
    hide Find, ParseToBody, Parse, Stoul;
    ToBodyIgnoresBody(q, d1);
    ToBodyIgnoresBody(q, d2);
    ParseInTwo(q, d1);
    ParseInTwo(q, d2);
  }

  // ---------- A refused request leaves its headers behind ----------

  /** The part of parse before the body. */
  function ParseToBody(q: Request, data: string): (bool, Request) {
    var first := GetLine(data);
    if first.None? then (false, q)
    else
      var line := ParseRequestLine(q, StripCr(first.value.0));
      if !line.0 then line else ParseHeaders(line.1, HeaderLines(first.value.1))
  }

  lemma {:induction false} ParseInTwo(q: Request, data: string)
    ensures var r := ParseToBody(q, data); Parse(q, data) == if r.0 then ParseBody(r.1, data) else r
  {
    hide ParseRequestLine, ParseHeaders, HeaderLines, ParseBody, GetLine;
  }

  /** Headers are added to what the object holds. */
  lemma {:induction false} HeadersMerge(q: Request, past: map<string, string>, lines: seq<string>)
    ensures var r := ParseHeaders(q, lines);
      ParseHeaders(q.(headers := past + q.headers), lines) == (r.0, r.1.(headers := past + r.1.headers))
    decreases |lines|
  {
    hide HeaderKey, HeaderValue, IndexOf;
    if lines != [] && ParseHeader(q, lines[0]).0 {
      OneHeaderMerges(q, past, lines[0]);
      HeadersMerge(ParseHeader(q, lines[0]).1, past, lines[1..]);
    }
  }

  lemma {:induction false} OneHeaderMerges(q: Request, past: map<string, string>, line: string)
    requires ParseHeader(q, line).0
    ensures var r := ParseHeader(q, line);
      ParseHeader(q.(headers := past + q.headers), line) == (true, r.1.(headers := past + r.1.headers))
  {
    hide HeaderKey, HeaderValue, IndexOf;
    var colon := IndexOf(line, ':');
    var key, value := HeaderKey(line, colon), HeaderValue(line, colon);
    assert (past + q.headers)[key := value] == past + q.headers[key := value];
  }

  /** A request line that is accepted replaces method, path and version, and touches nothing else. */
  lemma {:induction false} LineMerges(q: Request, line: string)
    ensures var r, r0 := ParseRequestLine(q, line), ParseRequestLine(EMPTY_REQUEST, line);
      r.0 == r0.0 && (r.0 ==> r.1 == r0.1.(headers := q.headers, body := q.body) && r0.1.headers == map[])
  {
    hide Tokens, MethodOf;
  }

  /** Up to the body, an object with a past accepts what a new one accepts, and its old headers stay below the
      new ones. */
  lemma {:induction false} ToBodyMerges(q: Request, data: string)
    ensures var r, r0 := ParseToBody(q, data), ParseToBody(EMPTY_REQUEST, data);
      r.0 == r0.0 && (r.0 ==>
        && r.1 == r0.1.(headers := q.headers + r0.1.headers, body := q.body)
        && LengthText(r0.1) == LastStored(FullLines(data))
        && LengthText(r.1) == if LengthText(r0.1).Some? then LengthText(r0.1) else LengthText(q))
  {
    hide HeaderLines, ParseHeaders, ParseRequestLine, GetLine, StripCr, LastStored;
    var first := GetLine(data);
    if first.Some? {
      var text, lines := StripCr(first.value.0), FullLines(data);
      LineMerges(q, text);
      var line0 := ParseRequestLine(EMPTY_REQUEST, text).1;
      assert q.headers + map[] == q.headers;
      HeadersMerge(line0.(body := q.body), q.headers, lines);
      BodyIsKept(line0, q.body, lines);
      if ParseHeaders(line0, lines).0 {
        StoredIsLast(line0, lines);
      }
    }
  }

  lemma {:induction false} BodyIsKept(q: Request, body: string, lines: seq<string>)
    ensures var r := ParseHeaders(q, lines); ParseHeaders(q.(body := body), lines) == (r.0, r.1.(body := body))
    decreases |lines|
  {
    hide HeaderKey, HeaderValue, IndexOf;
    if lines != [] {
      BodyIsKept(ParseHeader(q, lines[0]).1, body, lines[1..]);
    }
  }

  /** The test of parse: the number is readable and the text long enough, in 64-bit arithmetic. */
  predicate Fits(data: string, number: string)
    requires Find(data, BLANK_LINE).Some?
  {
    var n := Stoul(number);
    n.Some? && AddSize(Find(data, BLANK_LINE).value + 4, n.value) <= |data|
  }

  /** A Content-Length left behind by a refused request decides over this one. */
  predicate StaleDecides(q: Request, data: string) {
    LengthText(q).Some? && LastStored(FullLines(data)).None?
  }

  /** handleRead does not reset the request object after a 400. A request that a new object accepts is accepted by the
      stale one if and only if it stores a length of its own, or none was left behind, or the one left behind fits. */
  lemma {:induction false} StaleLengthDecides(q: Request, data: string)
    requires Parse(EMPTY_REQUEST, data).0
    ensures Parse(q, data).0 <==> (StaleDecides(q, data) ==> Fits(data, LengthText(q).value))
  {
    hide Find, Stoul, FullLines, LastStored, ParseToBody, Parse, AddSize;
    ParseInTwo(q, data);
    ParseInTwo(EMPTY_REQUEST, data);
    ToBodyMerges(q, data);
  }

  /** Where it is accepted, it carries the headers of the refused one besides its own, and a body cut to the length
      left behind where that decides. */
  lemma {:induction false} StaleHeadersAreCarried(q: Request, data: string)
    requires Parse(EMPTY_REQUEST, data).0 && Parse(q, data).0
    ensures var r, r0 := Parse(q, data).1, Parse(EMPTY_REQUEST, data).1;
      && r == r0.(headers := q.headers + r0.headers, body := r.body)
      && r.body == if StaleDecides(q, data) then UpTo(r0.body, NumberOr0(LengthText(q).value)) else r0.body
  {
    hide Find, Stoul, FullLines, LastStored, ParseToBody, Parse, AddSize;
    ParseInTwo(q, data);
    ParseInTwo(EMPTY_REQUEST, data);
    ToBodyMerges(q, data);
    var h, h0 := ParseToBody(q, data).1, ParseToBody(EMPTY_REQUEST, data).1;
    FoundFits(data, BLANK_LINE);
    if StaleDecides(q, data) {
      var length := |data| - (Find(data, BLANK_LINE).value + 4);
      BodyIs(h, data, length);
      BodyIs(h0, data, length);
    }
  }

  /** Where it is refused, the length left behind stays as it was. */
  lemma {:induction false} StaleLengthStays(q: Request, data: string)
    requires Parse(EMPTY_REQUEST, data).0 && !Parse(q, data).0
    ensures LengthText(q).Some? && LengthText(Parse(q, data).1) == LengthText(q)
  {
    hide Find, Stoul, FullLines, LastStored, ParseToBody, Parse, AddSize;
    ParseInTwo(q, data);
    ParseInTwo(EMPTY_REQUEST, data);
    ToBodyMerges(q, data);
  }
}
