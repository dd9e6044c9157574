/** The JSON and event-stream printers of a frame, the parser of the POST body, and their round trip
    (Connection.cpp). */
module FrameCodec {
  import opened Wrappers
  import opened Text
  import opened Numbers
  import opened CanFrames

  // ---------- A flat JSON object as text ----------

  /** A member value: bare text (number, true/false, array of numbers) or a quoted word. */
  datatype Value = Bare(text: string) | Quoted(text: string)
  {
    function Print(): string {
      if Bare? then text else "\"" + text + "\""
    }
  }

  datatype Member = Member(key: string, value: Value)

  function Quote(key: string): string {
    "\"" + key + "\""
  }

  /** The members, the first one after `lead`, every other after a comma, and the closing brace. */
  function MembersText(lead: string, ms: seq<Member>): string
    decreases ms
  {
    if ms == [] then "}"
    else lead + (Quote(ms[0].key) + (":" + (ms[0].value.Print() + MembersText(",", ms[1..]))))
  }

  function ObjectText(ms: seq<Member>): string {
    MembersText("{", ms)
  }

  function ByteList(data: seq<byte>): string {
    if data == [] then ""
    else Digits(data[0] as nat, 10) + (if |data| == 1 then "" else "," + ByteList(data[1..]))
  }

  function BoolText(b: bool): string {
    if b then "true" else "false"
  }

  function FrameMembers(f: CanFrame): seq<Member>
    requires f.Valid()
  {
    [ Member("sequence", Bare(Digits(f.sequence, 10))),
      Member("timestamp_ns", Bare(Digits(f.timestampNs, 10))),
      Member("id", Bare(Digits(f.id as nat, 10))),
      Member("id_hex", Quoted("0x" + Digits(f.id as nat, 16))),
      Member("extended", Bare(BoolText(f.isExtended))),
      Member("dlc", Bare(Digits(f.dlc, 10))),
      Member("data", Bare("[" + ByteList(f.Payload()) + "]")) ]
  }

  function FrameJson(f: CanFrame): string
    requires f.Valid()
  {
    ObjectText(FrameMembers(f))
  }

  /** `os << lead "key": value`. */
  function Insert(output: string, lead: string, key: string, value: string): string {
    output + lead + Quote(key) + ":" + value
  }

  /** frameToJson: the stream insertions of the source, in order. */
  method FrameToJson(f: CanFrame) returns (output: string)
    requires f.Valid()
    ensures output == FrameJson(f)
  {
    hide Insert, ByteList, Digits, MembersText;
    ghost var ms, whole := FrameMembers(f), FrameJson(f);
    output := PrintNumbers(f);
    Printed(output, ",", ms, 4, whole);
    output := Insert(output, ",", "extended", if f.isExtended then "true" else "false");
    Printed(output, ",", ms, 5, whole);
    output := Insert(output, ",", "dlc", Digits(f.dlc, 10));
    var data := PrintData(f);
    Printed(output, ",", ms, 6, whole);
    output := Insert(output, ",", "data", data);
    NoMembersText(ms[7..]);
    output := output + "}";
  }

  /** The first four members. */
  method PrintNumbers(f: CanFrame) returns (output: string)
    requires f.Valid()
    ensures output + MembersText(",", FrameMembers(f)[4..]) == FrameJson(f)
  {
    hide Insert, ByteList, Digits, MembersText;
    ghost var ms, whole := FrameMembers(f), FrameJson(f);
    assert ms[0..] == ms && "" + MembersText("{", ms) == whole;
    Printed("", "{", ms, 0, whole);
    output := Insert("", "{", "sequence", Digits(f.sequence, 10));
    Printed(output, ",", ms, 1, whole);
    output := Insert(output, ",", "timestamp_ns", Digits(f.timestampNs, 10));
    Printed(output, ",", ms, 2, whole);
    output := Insert(output, ",", "id", Digits(f.id as nat, 10));
    Printed(output, ",", ms, 3, whole);
    output := Insert(output, ",", "id_hex", "\"" + ("0x" + Digits(f.id as nat, 16)) + "\"");
  }

  lemma {:induction false} NoMembersText(ms: seq<Member>)
    requires ms == []
    ensures MembersText(",", ms) == "}"
  {
  }

  lemma {:induction false} FirstMember(lead: string, ms: seq<Member>)
    requires ms != []
    ensures MembersText(lead, ms) ==
      lead + (Quote(ms[0].key) + (":" + (ms[0].value.Print() + MembersText(",", ms[1..]))))
  {
    hide Quote;
  }

  /** One member moves from the text still to print to the text printed. */
  lemma {:induction false} Printed(output: string, lead: string, ms: seq<Member>, k: nat, whole: string)
    requires k < |ms| && output + MembersText(lead, ms[k..]) == whole
    ensures Insert(output, lead, ms[k].key, ms[k].value.Print()) + MembersText(",", ms[k + 1..]) == whole
  {
    hide Quote, MembersText;
    FirstMember(lead, ms[k..]);
    assert ms[k..][1..] == ms[k + 1..];
    Reassociate(output, lead, Quote(ms[k].key), ms[k].value.Print(), MembersText(",", ms[k + 1..]));
  }

  lemma {:induction false} Reassociate(output: string, lead: string, key: string, value: string, rest: string)
    ensures output + (lead + (key + (":" + (value + rest)))) == output + lead + key + ":" + value + rest
  {
  }

  /** The `[...]` part: the loop over the payload bytes. */
  method PrintData(f: CanFrame) returns (output: string)
    requires f.Valid()
    ensures output == "[" + ByteList(f.Payload()) + "]"
  {
    hide ByteList, Digits;
    NoBytes();
    output := "[";
    for index := 0 to f.dlc
      invariant output == "[" + ByteList(f.data[..index])
    {
      ByteListSnoc(f.data[..index], f.data[index]);
      assert f.data[..index + 1] == f.data[..index] + [f.data[index]];
      if index != 0 {
        output := output + ",";
      }
      output := output + Digits(f.data[index] as nat, 10);
    }
    output := output + "]";
  }

  lemma {:induction false} NoBytes()
    ensures ByteList([]) == ""
  {
  }

  lemma {:induction false} ByteListCons(b: byte, rest: seq<byte>)
    ensures ByteList([b] + rest) == Digits(b as nat, 10) + (if rest == [] then "" else "," + ByteList(rest))
  {
    hide Digits;
    assert ([b] + rest)[1..] == rest;
  }

  lemma {:induction false} ByteListSnoc(data: seq<byte>, b: byte)
    ensures ByteList(data + [b]) == ByteList(data) + (if data == [] then "" else ",") + Digits(b as nat, 10)
  {
    hide Digits, ByteList;
    NoBytes();
    if data == [] {
      ByteListCons(b, []);
      assert data + [b] == [b] + [];
    } else {
      var first, rest := data[0], data[1..];
      ByteListSnoc(rest, b);
      ByteListCons(first, rest);
      ByteListCons(first, rest + [b]);
      assert data == [first] + rest && data + [b] == [first] + (rest + [b]);
    }
  }

  // ---------- parseSendBody ----------

  predicate InValue(c: char) {
    c != ',' && c != '}'
  }

  predicate IsSeparator(c: char) {
    IsSpace(c) || c == ','
  }

  predicate IsItem(c: char) {
    c != ','
  }

  function Unquote(value: string): string {
    if |value| >= 2 && value[0] == '"' && value[|value| - 1] == '"' then value[1..|value| - 1] else value
  }

  /** The value text that follows `"key"` and the next colon. `tail` starts at the key. */
  function ValueAfterKey(tail: string): Option<string> {
    var colon := IndexOf(tail, ':');
    if colon == |tail| then None
    else
      var text := tail[colon + 1..];
      var rest := text[Span(text, IsSpace)..];
      var value := Unquote(Trim(rest[..Span(rest, InValue)]));
      if value == "" then None else Some(value)
  }

  /** The suffix of `body` that starts at the first `"key"`. */
  function FromKey(body: string, key: string): Option<string> {
    var position := Find(body, Quote(key));
    if position.None? then None else Some(body[position.value..])
  }

  function ReadValue(body: string, key: string): Option<string> {
    var tail := FromKey(body, key);
    if tail.None? then None else ValueAfterKey(tail.value)
  }

  /** The next array item, trimmed, and the text behind it; None when only separators are left. */
  function NextItem(text: string): (r: Option<(string, string)>)
    ensures r.Some? ==> |r.value.1| < |text|
  {
    var rest := text[Span(text, IsSeparator)..];
    if rest == "" then None
    else
      var end := Span(rest, IsItem);
      Some((Trim(rest[..end]), rest[end..]))
  }

  function ReadByte(item: string): Option<byte> {
    var value := ParseUnsigned(item);
    if value.None? || value.value > 255 then None else Some(value.value as byte)
  }

  /** The bytes of the array text, appended to those already read. */
  function ReadBytes(text: string, data: seq<byte>): (r: Option<seq<byte>>)
    ensures r.Some? && |data| <= MAX_DATA_LENGTH ==> |r.value| <= MAX_DATA_LENGTH
    decreases |text|
  {
    var next := NextItem(text);
    if next.None? then Some(data)
    else
      var b := ReadByte(next.value.0);
      if b.None? || |data| >= MAX_DATA_LENGTH then None
      else ReadBytes(next.value.1, data + [b.value])
  }

  /** The text between the next '[' and the ']' after it. */
  function BracketText(tail: string): Option<string> {
    var open := IndexOf(tail, '[');
    var close := IndexOf(tail[open..], ']');
    if open == |tail| || open + close == |tail| then None else Some(tail[open + 1..open + close])
  }

  /** The bytes between the brackets that follow `"data"`. `tail` starts at the key. */
  function DataAfterKey(tail: string): (r: Option<seq<byte>>)
    ensures r.Some? ==> |r.value| <= MAX_DATA_LENGTH
  {
    var text := BracketText(tail);
    if text.None? then None else ReadBytes(text.value, [])
  }

  datatype SendBody = SendBody(id: bv32, isExtended: bool, data: seq<byte>)

  function ReadId(body: string): Option<bv32> {
    var text := ReadValue(body, "id");
    if text.None? then None
    else
      var id := ParseUnsigned(text.value);
      if id.None? || id.value > 0x1FFFFFFF then None else Some(id.value as bv32)
  }

  /** A missing or empty "extended" leaves the caller's `false`; any text but true/false is refused. */
  function ReadExtended(body: string): Option<bool> {
    var text := ReadValue(body, "extended");
    if text.None? || text.value == "false" then Some(false)
    else if text.value == "true" then Some(true)
    else None
  }

  function ReadData(body: string): (r: Option<seq<byte>>)
    ensures r.Some? ==> |r.value| <= MAX_DATA_LENGTH
  {
    var tail := FromKey(body, "data");
    if tail.None? then None else DataAfterKey(tail.value)
  }

  function ReadSendBody(body: string): (r: Option<SendBody>)
    ensures r.Some? ==> |r.value.data| <= MAX_DATA_LENGTH
  {
    var id, extended, data := ReadId(body), ReadExtended(body), ReadData(body);
    if id.None? || extended.None? || data.None? then None
    else Some(SendBody(id.value, extended.value, data.value))
  }

  /** The `while` loops that advance `begin` or `end`. */
  method SkipWhile(text: string, begin: nat, p: char -> bool) returns (end: nat)
    requires begin <= |text|
    ensures end == begin + Span(text[begin..], p) && end <= |text|
    ensures text[begin..][end - begin..] == text[end..] && text[begin..][..end - begin] == text[begin..end]
  {
    hide Span;
    end := begin;
    while end < |text| && p(text[end])
      invariant begin <= end <= |text|
      invariant Span(text[begin..], p) == end - begin + Span(text[end..], p)
    {
      SpanStep(text, end, p);
      end := end + 1;
    }
    SpanStops(text, end, p);
  }

  lemma {:induction false} SpanStep(text: string, i: nat, p: char -> bool)
    requires i < |text| && p(text[i])
    ensures Span(text[i..], p) == 1 + Span(text[i + 1..], p)
  {
    assert text[i..][1..] == text[i + 1..];
  }

  lemma {:induction false} SpanStops(text: string, i: nat, p: char -> bool)
    requires i <= |text| && (i < |text| ==> !p(text[i]))
    ensures Span(text[i..], p) == 0
  {
  }

  /** The readValue lambda, after the key has been found. */
  method ValueAfterKeyLoop(tail: string) returns (value: Option<string>)
    ensures value == ValueAfterKey(tail)
  {
    hide Span, IndexOf, Trim, Unquote;
    var colon := IndexOf(tail, ':');
    if colon == |tail| { return None; }
    var begin := SkipWhile(tail, colon + 1, IsSpace);
    var end := SkipWhile(tail, begin, InValue);
    var unquoted := Unquote(Trim(tail[begin..end]));
    value := if unquoted == "" then None else Some(unquoted);
  }

  method ReadValueLoop(body: string, key: string) returns (value: Option<string>)
    ensures value == ReadValue(body, key)
  {
    var position := Find(body, Quote(key));
    if position.None? { return None; }
    value := ValueAfterKeyLoop(body[position.value..]);
  }

  /** The two inner loops over the array text: the separators, then one item. */
  method NextItemLoop(text: string, start: nat) returns (begin: nat, end: nat)
    requires start <= |text|
    ensures begin <= end <= |text| && (begin == |text| <==> NextItem(text[start..]).None?)
    ensures begin < |text| ==> start < end && NextItem(text[start..]) == Some((Trim(text[begin..end]), text[end..]))
  {
    hide Trim, Span;
    begin := SkipWhile(text, start, IsSeparator);
    end := SkipWhile(text, begin, IsItem);
  }

  /** The loop over the array text. */
  method ReadBytesLoop(text: string) returns (r: Option<seq<byte>>)
    ensures r == ReadBytes(text, [])
  {
    hide NextItem, Trim, ParseUnsigned;
    var data: seq<byte> := [];
    var begin := 0;
    assert text[0..] == text;
    while begin < |text|
      invariant begin <= |text|
      invariant ReadBytes(text[begin..], data) == ReadBytes(text, [])
    {
      var next, end := NextItemLoop(text, begin);
      if next == |text| { return Some(data); }
      var item := ParseUnsigned(Trim(text[next..end]));
      if item.None? || item.value > 255 || |data| >= MAX_DATA_LENGTH { return None; }
      data := data + [item.value as byte];
      begin := end;
    }
    NoItem(text[begin..]);
    return Some(data);
  }

  lemma {:induction false} NoItem(text: string)
    requires text == ""
    ensures NextItem(text) == None
  {
  }

  method ReadDataLoop(body: string) returns (r: Option<seq<byte>>)
    ensures r == ReadData(body)
  {
    hide Find, DataAfterKey;
    var dataKey := Find(body, Quote("data"));
    if dataKey.None? { return None; }
    r := DataAfterKeyLoop(body[dataKey.value..]);
  }

  method DataAfterKeyLoop(tail: string) returns (r: Option<seq<byte>>)
    ensures r == DataAfterKey(tail)
  {
    hide ReadBytes, IndexOf;
    var open := IndexOf(tail, '[');
    var close := IndexOf(tail[open..], ']');
    if open == |tail| || open + close == |tail| { return None; }
    r := ReadBytesLoop(tail[open + 1..open + close]);
  }

  method ReadIdLoop(body: string) returns (id: Option<bv32>)
    ensures id == ReadId(body)
  {
    var idText := ReadValueLoop(body, "id");
    if idText.None? { return None; }
    var parsedId := ParseUnsigned(idText.value);
    if parsedId.None? || parsedId.value > 0x1FFFFFFF { return None; }
    return Some(parsedId.value as bv32);
  }

  /** parseSendBody. */
  method ParseSendBody(body: string) returns (r: Option<SendBody>)
    ensures r == ReadSendBody(body)
  {
    hide ReadValue, ReadData, ReadId;
    var id := ReadIdLoop(body);
    if id.None? { return None; }
    var isExtended := false;
    var extendedText := ReadValueLoop(body, "extended");
    if extendedText.Some? {
      if extendedText.value == "true" {
        isExtended := true;
      } else if extendedText.value == "false" {
        isExtended := false;
      } else {
        return None;
      }
    }
    var data := ReadDataLoop(body);
    if data.None? { return None; }
    return Some(SendBody(id.value, isExtended, data.value));
  }
}
