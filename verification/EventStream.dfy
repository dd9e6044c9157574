/** The event stream as its reader sees it: section 9.2.6 of the WHATWG HTML standard as a state machine over
    bytes, and the lemma that the payloads of Connection.cpp are read back as the frames they were printed from. */
module EventStream {
  import opened Text
  import opened Numbers
  import opened CanFrames
  import opened FrameCodec

  datatype Event = Event(kind: string, data: string, lastId: string)

  /** `kind`, `data` and `id` are the three buffers of the standard; `skipLf` remembers a CR whose LF may follow. */
  datatype Reader = Reader(line: string, skipLf: bool, kind: string, data: string, id: string, events: seq<Event>)

  const FRESH_READER := Reader("", false, "", "", "", [])

  function Feed(r: Reader, c: char): Reader {
    if r.skipLf && c == '\n' then r.(skipLf := false)
    else if c == '\n' || c == '\r' then EndLine(r.(skipLf := c == '\r'))
    else r.(line := r.line + [c], skipLf := false)
  }

  function EndLine(r: Reader): Reader {
    var line := r.line;
    var colon := IndexOf(line, ':');
    var next := r.(line := "");
    if line == "" then Dispatch(next)
    else if colon == 0 then next
    else if colon == |line| then Field(next, line, "")
    else
      var rest := line[colon + 1..];
      Field(next, line[..colon], if rest != "" && rest[0] == ' ' then rest[1..] else rest)
  }

  function Field(r: Reader, field: string, value: string): Reader {
    if field == "event" then r.(kind := value)
    else if field == "data" then r.(data := r.data + value + "\n")
    else if field == "id" && '\0' !in value then r.(id := value)
    else r
  }

  /** "message" is the default event type. The data buffer loses its last line feed. */
  function Dispatch(r: Reader): Reader {
    if r.data == "" then r.(kind := "")
    else
      var text := if r.data[|r.data| - 1] == '\n' then r.data[..|r.data| - 1] else r.data;
      r.(kind := "", data := "", events := r.events + [Event(if r.kind == "" then "message" else r.kind, text, r.id)])
  }

  function Read(r: Reader, bytes: string): Reader
    decreases |bytes|
  {
    if bytes == "" then r else Read(Feed(r, bytes[0]), bytes[1..])
  }

  // ---------- Properties of the reader ----------

  lemma {:induction false} ReadConcat(r: Reader, a: string, b: string)
    ensures Read(r, a + b) == Read(Read(r, a), b)
    decreases |a|
  {
    if a == "" {
      assert a + b == b;
    } else {
      assert (a + b)[1..] == a[1..] + b;
      ReadConcat(Feed(r, a[0]), a[1..], b);
    }
  }

  /** Events are never taken back: a prefix of the bytes yields a prefix of the events. */
  lemma {:induction false} EventsGrow(r: Reader, bytes: string)
    ensures r.events <= Read(r, bytes).events
    decreases |bytes|
  {
    hide EndLine;
    if bytes != "" {
      EndLineGrows(r.(skipLf := bytes[0] == '\r'));
      EventsGrow(Feed(r, bytes[0]), bytes[1..]);
    }
  }

  lemma {:induction false} EndLineGrows(r: Reader)
    ensures r.events <= EndLine(r).events
  {
  }

  predicate NoBreaks(s: string) {
    forall k :: 0 <= k < |s| ==> s[k] != '\n' && s[k] != '\r'
  }

  lemma {:induction false} ReadText(r: Reader, text: string)
    requires NoBreaks(text) && !r.skipLf
    ensures Read(r, text) == r.(line := r.line + text)
    decreases |text|
  {
    if text == "" {
      assert r.line + text == r.line;
    } else {
      assert text[0] != '\n' && text[0] != '\r';
      ReadText(Feed(r, text[0]), text[1..]);
      assert r.line + [text[0]] + text[1..] == r.line + text;
    }
  }

  lemma {:induction false} ReadLine(r: Reader, text: string)
    requires NoBreaks(text) && !r.skipLf && r.line == ""
    ensures Read(r, text + "\n") == EndLine(r.(line := text))
  {
    hide EndLine;
    ReadText(r, text);
    ReadConcat(r, text, "\n");
    assert "" + text == text;
    var full := r.(line := text);
    assert Read(full, "\n") == Read(Feed(full, '\n'), "");
  }

  lemma {:induction false} BlankLine(r: Reader)
    requires r.line == "" && !r.skipLf
    ensures Read(r, "\n") == Dispatch(r)
  {
    hide Read;
    ReadLine(r, "");
    assert "" + "\n" == "\n";
    assert r.(line := "") == r;
  }

  function Line(field: string, value: string): string {
    field + ": " + value + "\n"
  }

  lemma {:induction false} ReadFieldLine(r: Reader, field: string, value: string)
    requires NoBreaks(field) && NoBreaks(value) && !r.skipLf && r.line == ""
    requires field != "" && forall k :: 0 <= k < |field| ==> field[k] != ':'
    ensures Read(r, Line(field, value)) == Field(r, field, value)
  {
    hide Field, Read, IndexOf;
    var text := field + ": " + value;
    ReadLine(r, text);
    assert text[|field|] == ':';
    ColonAt(text, |field|);
    assert text[..|field|] == field && text[|field| + 1..] == " " + value;
    assert (" " + value)[1..] == value;
    assert r.(line := text).(line := "") == r;
  }

  lemma {:induction false} ColonAt(s: string, i: nat)
    requires i < |s| && s[i] == ':' && forall k :: 0 <= k < i ==> s[k] != ':'
    ensures IndexOf(s, ':') == i
  {
  }

  // ---------- The payloads ----------

  /** frameToSse. */
  function FrameSse(f: CanFrame): string
    requires f.Valid()
  {
    Line("event", "can_frame") + (Line("id", Digits(f.sequence, 10)) + (Line("data", FrameJson(f)) + "\n"))
  }

  function FrameEvent(f: CanFrame): Event
    requires f.Valid()
  {
    Event("can_frame", FrameJson(f), Digits(f.sequence, 10))
  }

  const CONNECTED := ": connected" + "\n" + "\n"
  const HEARTBEAT := ": heartbeat" + "\n" + "\n"

  /** Between two payloads the reader holds nothing but the last event id. */
  predicate Clean(r: Reader) {
    r.line == "" && !r.skipLf && r.kind == "" && r.data == ""
  }

  lemma {:induction false} DigitsHaveNoBreaks(n: nat)
    ensures NoBreaks(Digits(n, 10)) && NoBreaks(Digits(n, 16))
  {
  }

  lemma {:induction false} ByteListHasNoBreaks(data: seq<byte>)
    ensures NoBreaks(ByteList(data))
  {
    if data != [] {
      hide Digits;
      DigitsHaveNoBreaks(data[0] as nat);
      ByteListHasNoBreaks(data[1..]);
    }
  }

  lemma {:induction false} MembersHaveNoBreaks(lead: string, ms: seq<Member>)
    requires NoBreaks(lead) && forall j :: 0 <= j < |ms| ==> NoBreaks(ms[j].key) && NoBreaks(ms[j].value.text)
    ensures NoBreaks(MembersText(lead, ms))
    decreases |ms|
  {
    if ms != [] {
      MembersHaveNoBreaks(",", ms[1..]);
      var tail := MembersText(",", ms[1..]);
      var v := ms[0].value;
      assert NoBreaks(v.Print() + tail);
      assert NoBreaks(":" + (v.Print() + tail));
      assert NoBreaks(Quote(ms[0].key));
    }
  }

  lemma {:induction false} OneChar(c: char)
    requires c != '\n' && c != '\r'
    ensures NoBreaks([c])
  {
  }

  lemma {:induction false} BracketsHaveNoBreaks(list: string)
    requires NoBreaks(list)
    ensures NoBreaks("[" + list + "]") && NoBreaks("0x" + list)
  {
    var t, u := "[" + list + "]", "0x" + list;
    assert forall k :: 1 <= k <= |list| ==> t[k] == list[k - 1];
    assert forall k :: 2 <= k < |u| ==> u[k] == list[k - 2];
  }

  lemma {:induction false} FrameMembersHaveNoBreaks(f: CanFrame)
    requires f.Valid()
    ensures |FrameMembers(f)| == 7
    ensures forall j :: 0 <= j < 7 ==>
      NoBreaks(FrameMembers(f)[j].key) && NoBreaks(FrameMembers(f)[j].value.text)
  {
    hide Digits, ByteList;
    DigitsHaveNoBreaks(f.sequence);
    DigitsHaveNoBreaks(f.timestampNs);
    DigitsHaveNoBreaks(f.id as nat);
    DigitsHaveNoBreaks(f.dlc);
    ByteListHasNoBreaks(f.Payload());
    BracketsHaveNoBreaks(ByteList(f.Payload()));
    BracketsHaveNoBreaks(Digits(f.id as nat, 16));
  }

  lemma {:induction false} JsonHasNoBreaks(f: CanFrame)
    requires f.Valid()
    ensures NoBreaks(FrameJson(f))
  {
    hide MembersText, FrameMembers, NoBreaks;
    assert NoBreaks("{") by { OneChar('{'); }
    FrameMembersHaveNoBreaks(f);
    MembersHaveNoBreaks("{", FrameMembers(f));
  }

  /** One frame payload is one event. */
  lemma {:induction false} ReadFrame(r: Reader, f: CanFrame)
    requires f.Valid() && Clean(r)
    ensures Read(r, FrameSse(f)) == r.(id := Digits(f.sequence, 10), events := r.events + [FrameEvent(f)])
  {
    hide Read, FrameJson, Digits, Line;
    var id, json := Digits(f.sequence, 10), FrameJson(f);
    JsonHasNoBreaks(f);
    DigitsHaveNoBreaks(f.sequence);
    var r1 := r.(kind := "can_frame");
    ReadFieldLine(r, "event", "can_frame");
    ReadConcat(r, Line("event", "can_frame"), Line("id", id) + (Line("data", json) + "\n"));
    var r2 := r1.(id := id);
    NoNul(f.sequence);
    ReadFieldLine(r1, "id", id);
    ReadConcat(r1, Line("id", id), Line("data", json) + "\n");
    var r3 := r2.(data := json + "\n");
    assert "" + json + "\n" == json + "\n";
    ReadFieldLine(r2, "data", json);
    ReadConcat(r2, Line("data", json), "\n");
    BlankLine(r3);
    assert (json + "\n")[..|json|] == json;
  }

  lemma {:induction false} NoNul(n: nat)
    ensures '\0' !in Digits(n, 10)
  {
  }

  /** A comment block leaves a clean reader as it was. */
  lemma {:induction false} ReadComment(r: Reader, text: string)
    requires Clean(r) && NoBreaks(text) && text != "" && text[0] == ':'
    ensures Read(r, text + "\n" + "\n") == r
  {
    hide Read;
    ReadLine(r, text);
    ReadConcat(r, text + "\n", "\n");
    BlankLine(r);
  }

  // ---------- The whole stream ----------

  datatype Item = Heartbeat | Frame(frame: CanFrame)
  {
    predicate Valid() { Frame? ==> frame.Valid() }

    function Bytes(): string
      requires Valid()
    {
      if Heartbeat? then HEARTBEAT else FrameSse(frame)
    }
  }

  predicate AllValid(items: seq<Item>) {
    forall k :: 0 <= k < |items| ==> items[k].Valid()
  }

  /** The bytes of the items, in order. */
  function StreamText(items: seq<Item>): string
    requires AllValid(items)
  {
    if items == [] then "" else items[0].Bytes() + StreamText(items[1..])
  }

  /** The frames of the items, in order, as the client should see them. */
  function Events(items: seq<Item>): seq<Event>
    requires AllValid(items)
  {
    if items == [] then []
    else (if items[0].Frame? then [FrameEvent(items[0].frame)] else []) + Events(items[1..])
  }

  lemma {:induction false} ReadItems(r: Reader, items: seq<Item>)
    requires Clean(r) && AllValid(items)
    ensures Clean(Read(r, StreamText(items))) && Read(r, StreamText(items)).events == r.events + Events(items)
    decreases |items|
  {
    hide FrameSse, FrameEvent;
    if items == [] {
      assert r.events + [] == r.events;
    } else {
      var r' := Read(r, items[0].Bytes());
      if items[0].Heartbeat? {
        ReadComment(r, ": heartbeat");
        assert [] + Events(items[1..]) == Events(items[1..]);
      } else {
        ReadFrame(r, items[0].frame);
      }
      ReadConcat(r, items[0].Bytes(), StreamText(items[1..]));
      ReadItems(r', items[1..]);
    }
  }

  /** After `: connected`, the whole stream is read as exactly its frames, in order ... */
  lemma {:induction false} StreamDecodes(items: seq<Item>)
    requires AllValid(items)
    ensures Read(FRESH_READER, CONNECTED + StreamText(items)).events == Events(items)
  {
    hide Read, StreamText, Events;
    ReadComment(FRESH_READER, ": connected");
    ReadConcat(FRESH_READER, CONNECTED, StreamText(items));
    ReadItems(FRESH_READER, items);
    assert [] + Events(items) == Events(items);
  }

  /** ... and any byte prefix of it as a prefix of them, ... */
  lemma {:induction false} StreamPrefixDecodes(items: seq<Item>, bytes: string)
    requires AllValid(items) && bytes <= CONNECTED + StreamText(items)
    ensures Read(FRESH_READER, bytes).events <= Events(items)
  {
    hide Read, StreamText, Events;
    var all := CONNECTED + StreamText(items);
    assert all == bytes + all[|bytes|..];
    ReadConcat(FRESH_READER, bytes, all[|bytes|..]);
    EventsGrow(Read(FRESH_READER, bytes), all[|bytes|..]);
    StreamDecodes(items);
  }

  /** ... with nothing missing that has arrived completely. */
  lemma {:induction false} StreamPrefixComplete(items: seq<Item>, n: nat, bytes: string)
    requires AllValid(items) && n <= |items|
    requires CONNECTED + StreamText(items[..n]) <= bytes
    ensures Events(items[..n]) <= Read(FRESH_READER, bytes).events
  {
    hide Read, StreamText, Events;
    var done := CONNECTED + StreamText(items[..n]);
    assert bytes == done + bytes[|done|..];
    ReadConcat(FRESH_READER, done, bytes[|done|..]);
    EventsGrow(Read(FRESH_READER, done), bytes[|done|..]);
    StreamDecodes(items[..n]);
  }
}
