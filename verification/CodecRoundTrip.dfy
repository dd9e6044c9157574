/** What parseSendBody reads from an object text, and the round trip of a printed frame. */
module CodecRoundTrip {
  import opened Wrappers
  import opened Text
  import opened Numbers
  import opened CanFrames
  import opened FrameCodec

  predicate NoQuotes(s: string) {
    forall k :: 0 <= k < |s| ==> s[k] != '"'
  }

  /** Key texts for which the search of readValue is exact. */
  predicate GoodKey(key: string) {
    NoQuotes(key) && key != "" && key[0] != ',' && key[0] != '}' && (forall k :: 0 <= k < |key| ==> key[k] != ':')
  }

  /** A member the search can step over when it looks for `key`. */
  predicate SteppedOver(m: Member, key: string) {
    NoQuotes(m.key) && m.key != key && NoQuotes(m.value.text) && (m.value.Quoted? ==> m.value.text != key)
  }

  /** Searching may start behind a prefix that holds no occurrence. */
  lemma {:induction false} FromKeyShift(s: string, n: nat, key: string)
    requires n <= |s| && forall k :: 0 <= k < n ==> !At(s, Quote(key), k)
    ensures FromKey(s, key) == FromKey(s[n..], key)
  {
    hide Find;
    var q := Quote(key);
    FindSkip(s, n, q);
    if Find(s[n..], q).Some? {
      var k := Find(s[n..], q).value;
      assert s[n..][k..] == s[n + k..];
    }
  }

  lemma {:induction false} NoOccurrenceAtWord(lead: string, word: string, rest: string, key: string)
    requires GoodKey(key) && NoQuotes(word) && word != key
    ensures !At(lead + ("\"" + word + "\"" + rest), Quote(key), |lead|)
  {
    var s, q, k := lead + ("\"" + word + "\"" + rest), Quote(key), |lead|;
    assert forall j :: 0 <= j < |word| ==> s[k + 1 + j] == word[j];
    assert s[k + 1 + |word|] == '"' && q[1 + |key|] == '"';
    assert forall j :: 0 <= j < |key| ==> q[1 + j] == key[j];
    if |key| < |word| {
      Mismatch(s, q, k, 1 + |key|);
    } else if |key| > |word| {
      Mismatch(s, q, k, 1 + |word|);
    } else {
      var j :| 0 <= j < |key| && key[j] != word[j];
      Mismatch(s, q, k, 1 + j);
    }
  }

  /** The search steps over a quoted word that is not the key. */
  lemma {:induction false} SkipWord(lead: string, word: string, rest: string, key: string)
    requires GoodKey(key) && NoQuotes(lead) && NoQuotes(word) && word != key
    requires rest != "" ==> rest[0] != key[0]
    ensures FromKey(lead + ("\"" + word + "\"" + rest), key) == FromKey(rest, key)
  {
    var s := lead + ("\"" + word + "\"" + rest);
    var n := |lead| + |word| + 2;
    forall k | 0 <= k < n ensures !At(s, Quote(key), k) {
      if k == |lead| {
        NoOccurrenceAtWord(lead, word, rest, key);
      } else if k == n - 1 {
        var before := lead + ("\"" + word);
        assert s == before + ("\"" + rest);
        Mismatch(s, Quote(key), k, 1);
      } else {
        assert s[k] == if k < |lead| then lead[k] else word[k - |lead| - 1];
        Mismatch(s, Quote(key), k, 0);
      }
    }
    FromKeyShift(s, n, key);
    assert s[n..] == rest;
  }

  /** The search stops at the key. */
  lemma {:induction false} HitKey(lead: string, rest: string, key: string)
    requires NoQuotes(lead)
    ensures FromKey(lead + (Quote(key) + rest), key) == Some(Quote(key) + rest)
  {
    var s := lead + (Quote(key) + rest);
    assert s[|lead|..] == Quote(key) + rest;
    forall k | 0 <= k < |lead| ensures !At(s, Quote(key), k) {
      Mismatch(s, Quote(key), k, 0);
    }
    assert At(s, Quote(key), |lead|);
  }

  lemma {:induction false} MembersTextSplit(lead: string, ms: seq<Member>)
    requires ms != []
    ensures MembersText(lead, ms) ==
      lead + (Quote(ms[0].key) + (":" + (ms[0].value.Print() + MembersText(",", ms[1..]))))
    ensures MembersText("", ms) == Quote(ms[0].key) + (":" + (ms[0].value.Print() + MembersText(",", ms[1..])))
    ensures MembersText(lead, ms) ==
      lead + ("\"" + ms[0].key + "\"" + (":" + (ms[0].value.Print() + MembersText(",", ms[1..]))))
  {
  }

  lemma {:induction false} NextStartsWithComma(ms: seq<Member>)
    requires ms != []
    ensures MembersText(",", ms) != "" && MembersText(",", ms)[0] == ','
  {
    MembersTextSplit(",", ms);
  }

  /** The search in an object text lands on the first member that carries the key. */
  lemma {:induction false} LocateMember(lead: string, ms: seq<Member>, i: nat, key: string)
    requires GoodKey(key) && NoQuotes(lead) && i < |ms| && ms[i].key == key
    requires forall j :: 0 <= j < i ==> SteppedOver(ms[j], key)
    ensures FromKey(MembersText(lead, ms), key) == Some(MembersText("", ms[i..]))
    decreases i, 0
  {
    hide MembersText, FromKey, Quote;
    var v, next := ms[0].value, MembersText(",", ms[1..]);
    MembersTextSplit(lead, ms);
    if i == 0 {
      HitKey(lead, ":" + (v.Print() + next), key);
      assert ms[0..] == ms;
    } else {
      SkipWord(lead, ms[0].key, ":" + (v.Print() + next), key);
      SkipValue(v, ms[1..], i - 1, key);
      assert ms[1..][i - 1..] == ms[i..];
    }
  }

  lemma {:induction false} SkipValue(v: Value, ms: seq<Member>, i: nat, key: string)
    requires GoodKey(key) && i < |ms| && ms[i].key == key
    requires NoQuotes(v.text) && (v.Quoted? ==> v.text != key)
    requires forall j :: 0 <= j < i ==> SteppedOver(ms[j], key)
    ensures FromKey(":" + (v.Print() + MembersText(",", ms)), key) == Some(MembersText("", ms[i..]))
    decreases i, 1
  {
    hide MembersText, FromKey;
    var next := MembersText(",", ms);
    if v.Bare? {
      LongerLead(":" + v.text, ms);
      LocateMember(":" + v.text + ",", ms, i, key);
      assert ":" + (v.text + next) == (":" + v.text) + next;
    } else {
      assert v.Print() + next == "\"" + v.text + "\"" + next;
      NextStartsWithComma(ms);
      SkipWord(":", v.text, next, key);
      LocateMember(",", ms, i, key);
    }
  }

  lemma {:induction false} LongerLead(before: string, ms: seq<Member>)
    requires ms != []
    ensures before + MembersText(",", ms) == MembersText(before + ",", ms)
  {
    MembersTextSplit(before + ",", ms);
    MembersTextSplit(",", ms);
  }

  /** A value text that comes back unchanged from the scan to ',' or '}', trim and unquoting. */
  predicate GoodValue(v: Value) {
    && v.text != "" && NoQuotes(v.text)
    && forall k :: 0 <= k < |v.text| ==> InValue(v.text[k]) && !IsSpace(v.text[k])
  }

  lemma {:induction false} IndexOfIs(s: string, c: char, i: nat)
    requires i < |s| && s[i] == c && forall k :: 0 <= k < i ==> s[k] != c
    ensures IndexOf(s, c) == i
  {
  }

  lemma {:induction false} SpanIs(s: string, p: char -> bool, i: nat)
    requires i <= |s| && (forall k :: 0 <= k < i ==> p(s[k])) && (i < |s| ==> !p(s[i]))
    ensures Span(s, p) == i
  {
  }

  /** Text after a member: a comma and more members, or the closing brace. */
  lemma {:induction false} NextStops(ms: seq<Member>)
    ensures MembersText(",", ms) != "" && !InValue(MembersText(",", ms)[0])
  {
    if ms != [] {
      NextStartsWithComma(ms);
    }
  }

  /** The value scan recovers the text of the member at the front. */
  lemma {:induction false} ValueOfMember(ms: seq<Member>)
    requires ms != [] && GoodKey(ms[0].key) && GoodValue(ms[0].value)
    ensures ValueAfterKey(MembersText("", ms)) == Some(ms[0].value.text)
  {
    var key, v, next := ms[0].key, ms[0].value, MembersText(",", ms[1..]);
    var tail := MembersText("", ms);
    MembersTextSplit("", ms);
    NextStops(ms[1..]);
    ValueScan(key, v, next);
  }

  lemma {:induction false} SplitAtColon(key: string, text: string)
    requires GoodKey(key)
    ensures var tail := Quote(key) + (":" + text);
      IndexOf(tail, ':') == |key| + 2 && |tail| > |key| + 2 && tail[|key| + 3..] == text
  {
    hide IndexOf;
    IndexOfIs(Quote(key) + (":" + text), ':', |key| + 2);
  }

  lemma {:induction false} ValueScan(key: string, v: Value, next: string)
    requires GoodKey(key) && GoodValue(v) && next != "" && !InValue(next[0])
    ensures ValueAfterKey(Quote(key) + (":" + (v.Print() + next))) == Some(v.text)
  {
    hide IndexOf, Span, Trim, Quote, GoodKey, GoodValue, Unquote;
    SplitAtColon(key, v.Print() + next);
    ScanPrinted(v, next);
    UnquotePrinted(v);
  }

  lemma {:induction false} ScanPrinted(v: Value, next: string)
    requires GoodValue(v) && next != "" && !InValue(next[0])
    ensures var text := v.Print() + next;
      Span(text, IsSpace) == 0 && text[0..] == text &&
      Span(text, InValue) == |v.Print()| && text[..|v.Print()|] == v.Print()
  {
    hide Span;
    var text := v.Print() + next;
    SpanIs(text, IsSpace, 0);
    SpanIs(text, InValue, |v.Print()|);
  }

  lemma {:induction false} UnquotePrinted(v: Value)
    requires GoodValue(v)
    ensures Unquote(Trim(v.Print())) == v.text && v.text != ""
  {
    hide Trim;
    TrimIdentity(v.Print());
    assert v.Quoted? ==> v.Print()[1..|v.Print()| - 1] == v.text;
  }

  // ---------- The byte array ----------

  lemma {:induction false} ItemStep(lead: string, item: string, next: string)
    requires lead == "" || lead == ","
    requires item != "" && forall k :: 0 <= k < |item| ==> !IsSeparator(item[k])
    requires next == "" || next[0] == ','
    ensures NextItem(lead + (item + next)) == Some((item, next))
  {
    hide Span, Trim;
    var text := lead + (item + next);
    SpanIs(text, IsSeparator, |lead|);
    var rest := text[|lead|..];
    assert rest == item + next;
    SpanIs(rest, IsItem, |item|);
    assert rest[..|item|] == item && rest[|item|..] == next;
    TrimIdentity(item);
  }

  lemma {:induction false} ReadPrintedBytes(lead: string, data: seq<byte>, acc: seq<byte>)
    requires |acc| + |data| <= MAX_DATA_LENGTH
    requires lead == "" || (lead == "," && data != [])
    ensures ReadBytes(lead + ByteList(data), acc) == Some(acc + data)
    decreases |data|
  {
    hide NextItem, ReadByte, ByteList;
    if data == [] {
      NoBytes();
      NoItem(lead + ByteList(data));
      assert acc + data == acc;
    } else {
      var more := if |data| == 1 then "" else ",";
      FirstByte(lead, data);
      ReadPrintedBytes(more, data[1..], acc + [data[0]]);
      assert acc + [data[0]] + data[1..] == acc + data;
    }
  }

  /** The first printed byte is read, and the rest of the list stays. */
  lemma {:induction false} FirstByte(lead: string, data: seq<byte>)
    requires data != [] && (lead == "" || lead == ",")
    ensures var more := if |data| == 1 then "" else ",";
      var next := NextItem(lead + ByteList(data));
      next.Some? && next.value.1 == more + ByteList(data[1..]) && ReadByte(next.value.0) == Some(data[0])
  {
    hide NextItem, Digits, ParseUnsigned;
    var item := Digits(data[0] as nat, 10);
    var more := if |data| == 1 then "" else ",";
    var next := more + ByteList(data[1..]);
    if |data| == 1 {
      assert data[1..] == [];
    }
    assert ByteList(data) == item + next;
    ItemStep(lead, item, next);
    ParsePrintedDecimal(data[0] as nat);
  }

  lemma {:induction false} ByteListChars(data: seq<byte>)
    ensures forall k :: 0 <= k < |ByteList(data)| ==> '0' <= ByteList(data)[k] <= '9' || ByteList(data)[k] == ','
  {
    if data != [] {
      DecimalChars(data[0] as nat);
      ByteListChars(data[1..]);
    }
  }

  lemma {:induction false} DecimalChars(n: nat)
    ensures forall k :: 0 <= k < |Digits(n, 10)| ==> '0' <= Digits(n, 10)[k] <= '9'
    decreases n
  {
    if n >= 10 {
      DecimalChars(n / 10);
    }
  }

  lemma {:induction false} ReadList(data: seq<byte>)
    requires |data| <= MAX_DATA_LENGTH
    ensures ReadBytes(ByteList(data), []) == Some(data)
  {
    hide ReadBytes, ByteList;
    ReadPrintedBytes("", data, []);
    assert "" + ByteList(data) == ByteList(data) && [] + data == data;
  }

  lemma {:induction false} DataScan(head: string, data: seq<byte>, next: string)
    requires |data| <= MAX_DATA_LENGTH && forall k :: 0 <= k < |head| ==> head[k] != '['
    ensures DataAfterKey(head + (("[" + ByteList(data) + "]") + next)) == Some(data)
  {
    hide BracketText, ByteList, ReadBytes;
    ByteListChars(data);
    BracketScan(head, ByteList(data), next);
    ReadList(data);
  }

  lemma {:induction false} BracketScan(head: string, list: string, next: string)
    requires (forall k :: 0 <= k < |head| ==> head[k] != '[') && (forall k :: 0 <= k < |list| ==> list[k] != ']')
    ensures BracketText(head + (("[" + list + "]") + next)) == Some(list)
  {
    hide IndexOf;
    var bracketed := ("[" + list + "]") + next;
    var tail := head + bracketed;
    IndexOfIs(tail, '[', |head|);
    assert tail[|head|..] == bracketed;
    IndexOfIs(bracketed, ']', 1 + |list|);
    assert tail[|head| + 1..|head| + 1 + |list|] == list;
  }

  // ---------- Whole objects ----------

  lemma {:induction false} ReadMember(ms: seq<Member>, i: nat)
    requires i < |ms| && GoodKey(ms[i].key) && GoodValue(ms[i].value)
    requires forall j :: 0 <= j < i ==> SteppedOver(ms[j], ms[i].key)
    ensures ReadValue(ObjectText(ms), ms[i].key) == Some(ms[i].value.text)
  {
    hide FromKey, ValueAfterKey, MembersText, GoodKey, GoodValue;
    assert NoQuotes("{");
    LocateMember("{", ms, i, ms[i].key);
    ValueOfMember(ms[i..]);
  }

  lemma {:induction false} ReadDataMember(ms: seq<Member>, i: nat, data: seq<byte>)
    requires i < |ms| && |data| <= MAX_DATA_LENGTH
    requires ms[i] == Member("data", Bare("[" + ByteList(data) + "]"))
    requires forall j :: 0 <= j < i ==> SteppedOver(ms[j], "data")
    ensures ReadData(ObjectText(ms)) == Some(data)
  {
    hide FromKey, MembersText, DataAfterKey, GoodKey, ByteList;
    KeysAreGood();
    assert NoQuotes("{");
    LocateMember("{", ms, i, "data");
    MembersTextSplit("", ms[i..]);
    var rest := ("[" + ByteList(data) + "]") + MembersText(",", ms[i..][1..]);
    assert Quote("data") + (":" + rest) == (Quote("data") + ":") + rest;
    DataScan(Quote("data") + ":", data, MembersText(",", ms[i..][1..]));
  }

  /** The accepted texts of an id: a decimal, octal or hexadecimal number, quoted or not. */
  predicate IdText(v: Value, id: bv32) {
    IsNumberText(v.text, id as nat)
  }

  lemma {:induction false} DecimalText(n: nat)
    ensures GoodValue(Bare(Digits(n, 10)))
  {
    hide Digits;
    DecimalChars(n);
  }

  lemma {:induction false} NumberTextIsGood(v: Value, n: nat)
    requires IsNumberText(v.text, n)
    ensures GoodValue(v)
  {
    hide IsNumberText;
    NumberChars(v.text, n);
  }

  lemma {:induction false} IdTextReads(v: Value, id: bv32)
    requires IdText(v, id)
    ensures GoodValue(v) && ParseUnsigned(v.text) == Some(id as nat)
  {
    hide ParseUnsigned, IsNumberText, GoodValue;
    NumberTextIsGood(v, id as nat);
    NumberTextParses(v.text, id as nat);
  }

  lemma {:induction false} KeysAreGood()
    ensures GoodKey("id") && GoodKey("extended") && GoodKey("data")
    ensures GoodKey("sequence") && GoodKey("timestamp_ns") && GoodKey("id_hex") && GoodKey("dlc")
  {
  }

  lemma {:induction false} BoolTextIsGood(b: bool)
    ensures GoodValue(Bare(BoolText(b)))
  {
  }

  /** Any flat object holding an id, the flag and the byte array, each before another member of the
      same name and in any order, reads back as exactly those three. */
  lemma {:induction false} ReadObject(ms: seq<Member>, i: nat, e: nat, d: nat, id: bv32, isExtended: bool,
      data: seq<byte>)
    requires i < |ms| && ms[i].key == "id" && IdText(ms[i].value, id) && id <= MAX_EXTENDED_ID
    requires e < |ms| && ms[e] == Member("extended", Bare(BoolText(isExtended)))
    requires d < |ms| && ms[d] == Member("data", Bare("[" + ByteList(data) + "]")) && |data| <= MAX_DATA_LENGTH
    requires forall j :: 0 <= j < i ==> SteppedOver(ms[j], "id")
    requires forall j :: 0 <= j < e ==> SteppedOver(ms[j], "extended")
    requires forall j :: 0 <= j < d ==> SteppedOver(ms[j], "data")
    ensures ReadSendBody(ObjectText(ms)) == Some(SendBody(id, isExtended, data))
  {
    hide ReadValue, ReadData, ObjectText, ReadExtended;
    ReadDataMember(ms, d, data);
    ReadObjectId(ms, i, id);
    ReadObjectFlag(ms, e, isExtended);
  }

  lemma {:induction false} ReadObjectId(ms: seq<Member>, i: nat, id: bv32)
    requires i < |ms| && ms[i].key == "id" && IdText(ms[i].value, id) && id <= MAX_EXTENDED_ID
    requires forall j :: 0 <= j < i ==> SteppedOver(ms[j], "id")
    ensures ReadId(ObjectText(ms)) == Some(id)
  {
    hide ReadValue, ParseUnsigned, ObjectText, GoodKey, GoodValue, IdText;
    KeysAreGood();
    IdTextReads(ms[i].value, id);
    ReadMember(ms, i);
    assert id as nat <= 0x1FFFFFFF;
  }

  lemma {:induction false} ReadObjectFlag(ms: seq<Member>, e: nat, isExtended: bool)
    requires e < |ms| && ms[e] == Member("extended", Bare(BoolText(isExtended)))
    requires forall j :: 0 <= j < e ==> SteppedOver(ms[j], "extended")
    ensures ReadExtended(ObjectText(ms)) == Some(isExtended)
  {
    hide ReadValue, ObjectText, GoodKey, GoodValue;
    KeysAreGood();
    BoolTextIsGood(isExtended);
    ReadMember(ms, e);
  }

  /** A number text is no key of these objects, and no key is hidden in it. */
  lemma {:induction false} NumberIsNoKey(v: Value, n: nat, key: string)
    requires IsNumberText(v.text, n) && key != "" && !('0' <= key[0] <= '9')
    ensures NoQuotes(v.text) && v.text != key
  {
    hide IsNumberText;
    NumberChars(v.text, n);
  }

  lemma {:induction false} PrintedIsNumberText(n: nat)
    ensures IsNumberText(Digits(n, 10), n) && IsNumberText("0x" + Digits(n, 16), n)
  {
    hide Digits;
    var t := "0x" + Digits(n, 16);
    assert "0x" <= t && t[2..] == Digits(n, 16);
    assert IsHexOf(Digits(n, 16), n);
  }

  /** The search for a later key steps over the first members of a printed frame. */
  lemma {:induction false} FrameMembersBefore(f: CanFrame, i: nat, key: string)
    requires f.Valid() && i <= 6 && key != "" && !('0' <= key[0] <= '9')
    requires forall j :: 0 <= j < i ==> FrameMembers(f)[j].key != key
    ensures forall j :: 0 <= j < i ==> SteppedOver(FrameMembers(f)[j], key)
  {
    hide Digits, ByteList;
    var ms := FrameMembers(f);
    forall j | 0 <= j < i ensures SteppedOver(ms[j], key) {
      if j == 4 {
        BoolTextIsGood(f.isExtended);
      } else {
        FrameNumber(f, j);
        NumberIsNoKey(ms[j].value, NumberOf(f, j), key);
      }
      KeysHaveNoQuotes(f, j);
    }
  }

  lemma {:induction false} KeysHaveNoQuotes(f: CanFrame, j: nat)
    requires f.Valid() && j < 7
    ensures NoQuotes(FrameMembers(f)[j].key)
  {
  }

  /** The number that member j of a printed frame must show. */
  function NumberOf(f: CanFrame, j: nat): nat {
    match j
    case 0 => f.sequence
    case 1 => f.timestampNs
    case 2 => f.id as nat
    case 3 => f.id as nat
    case _ => f.dlc
  }

  lemma {:induction false} FrameNumber(f: CanFrame, j: nat)
    requires f.Valid() && (j < 4 || j == 5)
    ensures IsNumberText(FrameMembers(f)[j].value.text, NumberOf(f, j))
  {
    hide Digits, ByteList, IsNumberText;
    PrintedIsNumberText(NumberOf(f, j));
  }

  lemma {:induction false} ReadFrameNumber(f: CanFrame, j: nat, key: string)
    requires f.Valid() && (j < 4 || j == 5) && NumberOf(f, j) < TWO_64
    requires key == FrameMembers(f)[j].key && GoodKey(key) && !('0' <= key[0] <= '9')
    requires forall i :: 0 <= i < j ==> FrameMembers(f)[i].key != key
    ensures var text := ReadValue(FrameJson(f), key);
      text.Some? && ParseUnsigned(text.value) == Some(NumberOf(f, j))
  {
    hide Digits, ByteList, ObjectText, ReadValue, SteppedOver, IsNumberText, GoodKey, GoodValue, ParseUnsigned;
    FrameMembersBefore(f, j, key);
    FrameNumber(f, j);
    NumberTextIsGood(FrameMembers(f)[j].value, NumberOf(f, j));
    NumberTextParses(FrameMembers(f)[j].value.text, NumberOf(f, j));
    ReadMember(FrameMembers(f), j);
  }

  /** Every member of a printed frame reads back under its own key: the numbers as numbers, the flag as its
      word, and the payload as its bytes. */
  lemma {:induction false} PrintedMembersRead(f: CanFrame)
    requires f.Valid() && f.sequence < TWO_64 && f.timestampNs < TWO_64
    ensures forall key :: key in ["sequence", "timestamp_ns", "id", "id_hex", "dlc"] ==>
      var text := ReadValue(FrameJson(f), key);
      text.Some? && ParseUnsigned(text.value) == Some(
        if key == "sequence" then f.sequence
        else if key == "timestamp_ns" then f.timestampNs
        else if key == "dlc" then f.dlc
        else f.id as nat)
    ensures ReadValue(FrameJson(f), "extended") == Some(if f.isExtended then "true" else "false")
    ensures ReadData(FrameJson(f)) == Some(f.Payload())
  {
    hide Digits, ByteList, ObjectText, ReadValue, ReadData, GoodKey, FrameJson, ParseUnsigned, SteppedOver;
    KeysAreGood();
    IdFits(f);
    ReadFrameNumber(f, 0, "sequence");
    ReadFrameNumber(f, 1, "timestamp_ns");
    ReadFrameNumber(f, 2, "id");
    ReadFrameNumber(f, 3, "id_hex");
    ReadFrameNumber(f, 5, "dlc");
    ReadFrameFlag(f);
    ReadFrameData(f);
  }

  lemma {:induction false} IdFits(f: CanFrame)
    ensures f.id as nat < TWO_64
  {
  }

  lemma {:induction false} ReadFrameFlag(f: CanFrame)
    requires f.Valid()
    ensures ReadValue(FrameJson(f), "extended") == Some(if f.isExtended then "true" else "false")
  {
    hide Digits, ByteList, ObjectText, ReadValue, SteppedOver, GoodKey, GoodValue;
    KeysAreGood();
    BoolTextIsGood(f.isExtended);
    FrameMembersBefore(f, 4, "extended");
    ReadMember(FrameMembers(f), 4);
  }

  lemma {:induction false} ReadFrameData(f: CanFrame)
    requires f.Valid()
    ensures ReadData(FrameJson(f)) == Some(f.Payload())
  {
    hide Digits, ByteList, ObjectText, ReadData, SteppedOver;
    FrameMembersBefore(f, 6, "data");
    ReadDataMember(FrameMembers(f), 6, f.Payload());
  }

  /** The frame printed by frameToJson is a body parseSendBody accepts, with the same id, flag and payload. */
  lemma {:induction false} PrintedFrameParses(f: CanFrame)
    requires f.Valid()
    ensures ReadSendBody(FrameJson(f)) == Some(SendBody(f.id, f.isExtended, f.Payload()))
  {
    hide Digits, ByteList, ObjectText, ReadSendBody, SteppedOver, IdText;
    FrameMembersBefore(f, 2, "id");
    FrameMembersBefore(f, 4, "extended");
    FrameMembersBefore(f, 6, "data");
    FrameIdText(f);
    ReadObject(FrameMembers(f), 2, 4, 6, f.id, f.isExtended, f.Payload());
  }

  lemma {:induction false} FrameIdText(f: CanFrame)
    requires f.Valid()
    ensures IdText(FrameMembers(f)[2].value, f.id)
  {
    hide Digits, ByteList, IsNumberText;
    FrameNumber(f, 2);
  }

  /** The body form of the clients and the README: a quoted id, as the user typed it. */
  function ClientMembers(idText: string, isExtended: bool, data: seq<byte>): seq<Member> {
    [ Member("id", Quoted(idText)),
      Member("extended", Bare(BoolText(isExtended))),
      Member("data", Bare("[" + ByteList(data) + "]")) ]
  }

  lemma {:induction false} ClientMembersStep(idText: string, id: bv32, isExtended: bool, data: seq<byte>)
    requires IsNumberText(idText, id as nat)
    ensures SteppedOver(ClientMembers(idText, isExtended, data)[0], "extended")
    ensures forall j :: 0 <= j < 2 ==> SteppedOver(ClientMembers(idText, isExtended, data)[j], "data")
  {
    hide IsNumberText, ByteList;
    NumberIsNoKey(Quoted(idText), id as nat, "extended");
    NumberIsNoKey(Quoted(idText), id as nat, "data");
    BoolTextIsGood(isExtended);
  }

  /** Whatever the base and the case of the id's digits. */
  lemma {:induction false} ClientBodyParses(idText: string, id: bv32, isExtended: bool, data: seq<byte>)
    requires IsNumberText(idText, id as nat) && id <= MAX_EXTENDED_ID && |data| <= MAX_DATA_LENGTH
    ensures ReadSendBody(ObjectText(ClientMembers(idText, isExtended, data))) == Some(SendBody(id, isExtended, data))
  {
    hide IsNumberText, ByteList, ObjectText, ReadSendBody, SteppedOver;
    ClientMembersStep(idText, id, isExtended, data);
    ReadObject(ClientMembers(idText, isExtended, data), 0, 1, 2, id, isExtended, data);
  }
}
