/** What parseSendBody makes of a body as a person types it: exactly which ones it accepts, and as what. */
module SendBodies {
  import opened Wrappers
  import opened Text
  import opened Numbers
  import opened CanFrames
  import opened FrameCodec
  import opened CodecRoundTrip

  predicate White(s: string) {
    forall k :: 0 <= k < |s| ==> s[k] in " \t\r\n"
  }

  lemma {:induction false} WhiteIsSkipped(s: string)
    requires White(s)
    ensures forall k :: 0 <= k < |s| ==> IsSpace(s[k]) && IsTrimmed(s[k]) && IsSeparator(s[k])
    ensures forall k :: 0 <= k < |s| ==> IsItem(s[k]) && InValue(s[k])
  {
  }

  /** trim takes the white space off both ends and nothing else. */
  lemma {:induction false} TrimPads(before: string, text: string, after: string)
    requires White(before) && White(after)
    requires text != "" && text[0] !in " \t\r\n" && text[|text| - 1] !in " \t\r\n"
    ensures Trim(before + (text + after)) == text
  {
    hide Span;
    WhiteIsSkipped(before);
    var s := before + (text + after);
    assert s[|before|] == text[0];
    SpanIs(s, IsTrimmed, |before|);
    assert s[|before|..] == text + after;
    RightPad(text, after);
  }

  lemma {:induction false} TrimRight(text: string, after: string)
    requires White(after) && text != "" && text[0] !in " \t\r\n" && text[|text| - 1] !in " \t\r\n"
    ensures Trim(text + after) == text
  {
    hide Trim;
    TrimPads("", text, after);
    assert "" + (text + after) == text + after;
  }

  lemma {:induction false} RightPad(text: string, after: string)
    requires White(after) && text != "" && !IsTrimmed(text[|text| - 1])
    ensures DropRight(text + after, IsTrimmed) == text
    decreases |after|
  {
    if after == "" {
      assert text + after == text;
    } else {
      var n := |after| - 1;
      assert (text + after)[..|text| + n] == text + after[..n];
      assert (text + after)[|text| + n] == after[n];
      RightPad(text, after[..n]);
    }
  }

  /** White space around a value, or around its colon, does not change what is read. */
  lemma {:induction false} PaddedValueReads(key: string, gap: string, before: string, v: Value, after: string,
      next: string)
    requires GoodKey(key) && GoodValue(v) && White(gap) && White(before) && White(after)
    requires next != "" && (next[0] == ',' || next[0] == '}')
    ensures ValueAfterKey(Quote(key) + (gap + (":" + (before + (v.Print() + (after + next)))))) == Some(v.text)
  {
    hide IndexOf, Span, Trim, GoodValue, Unquote, White;
    var text := before + (v.Print() + (after + next));
    ColonBehind(key, gap, text);
    PaddedScan(before, v, after, next);
    hide Value.Print;
  }

  lemma {:induction false} ColonBehind(key: string, gap: string, text: string)
    requires GoodKey(key) && White(gap)
    ensures var tail := Quote(key) + (gap + (":" + text)); var colon := |key| + 2 + |gap|;
      IndexOf(tail, ':') == colon && |tail| > colon && tail[colon + 1..] == text
  {
    hide IndexOf;
    var tail := Quote(key) + (gap + (":" + text));
    var colon := |key| + 2 + |gap|;
    forall k | 0 <= k < colon ensures tail[k] != ':' {
      if k >= |key| + 2 {
        assert tail[k] == gap[k - |key| - 2];
      }
    }
    IndexOfIs(tail, ':', colon);
  }

  lemma {:induction false} PaddedScan(before: string, v: Value, after: string, next: string)
    requires GoodValue(v) && White(before) && White(after) && next != "" && !InValue(next[0])
    ensures var text := before + (v.Print() + (after + next));
      var rest := text[Span(text, IsSpace)..];
      Unquote(Trim(rest[..Span(rest, InValue)])) == v.text && v.text != ""
  {
    hide Span, Trim, White, GoodValue;
    var printed := v.Print();
    var text := before + (printed + (after + next));
    PrintedEnds(v);
    hide Unquote;
    SpacesBefore(before, printed + (after + next));
    ValueSpan(printed, after, next);
    var rest := printed + (after + next);
    assert rest[..|printed| + |after|] == printed + after;
    TrimRight(printed, after);
    UnquotePrinted(v);
    TrimIdentity(printed);
  }

  lemma {:induction false} PrintedEnds(v: Value)
    requires GoodValue(v)
    ensures var p := v.Print();
      && p != "" && !IsSpace(p[0]) && p[0] !in " \t\r\n" && p[|p| - 1] !in " \t\r\n"
      && forall k :: 0 <= k < |p| ==> InValue(p[k])
  {
  }

  lemma {:induction false} SpacesBefore(before: string, rest: string)
    requires White(before) && rest != "" && !IsSpace(rest[0])
    ensures var text := before + rest; Span(text, IsSpace) == |before| && text[|before|..] == rest
  {
    hide Span;
    WhiteIsSkipped(before);
    var text := before + rest;
    assert text[|before|] == rest[0];
    SpanIs(text, IsSpace, |before|);
  }

  lemma {:induction false} ValueSpan(printed: string, after: string, next: string)
    requires White(after) && next != "" && !InValue(next[0]) && forall k :: 0 <= k < |printed| ==> InValue(printed[k])
    ensures Span(printed + (after + next), InValue) == |printed| + |after|
  {
    hide Span;
    WhiteIsSkipped(after);
    var rest := printed + (after + next);
    var n := |printed| + |after|;
    assert rest[n] == next[0];
    assert forall k :: |printed| <= k < n ==> rest[k] == after[k - |printed|];
    SpanIs(rest, InValue, n);
  }

  // ---------- The array as typed ----------

  /** An item of the array: a number in any of the three bases, with white space around it. */
  datatype Typed = Typed(before: string, text: string, after: string, number: nat)
  {
    predicate Valid() {
      White(before) && White(after) && number < TWO_64 && IsNumberText(text, number)
    }
  }

  predicate AllTyped(items: seq<Typed>) {
    forall k :: 0 <= k < |items| ==> items[k].Valid()
  }

  /** The items, separated by commas; `lead` comes before the first one. */
  function ListText(lead: string, items: seq<Typed>): string
    decreases |items|
  {
    if items == [] then ""
    else lead + (items[0].before + (items[0].text + (items[0].after + ListText(",", items[1..]))))
  }

  predicate AllBytes(items: seq<Typed>) {
    forall k :: 0 <= k < |items| ==> items[k].number <= 255
  }

  function BytesOf(items: seq<Typed>): (data: seq<byte>)
    requires AllBytes(items)
    ensures |data| == |items|
  {
    seq(|items|, k requires 0 <= k < |items| => items[k].number as byte)
  }

  lemma {:induction false} FirstItem(lead: string, items: seq<Typed>)
    requires items != [] && items[0].Valid() && (lead == "" || lead == ",")
    ensures NextItem(ListText(lead, items)) == Some((items[0].text, ListText(",", items[1..])))
  {
    var i, next := items[0], ListText(",", items[1..]);
    assert next == "" || next[0] == ',';
    hide ListText, IsNumberText, White;
    TextEnds(i);
    PaddedItem(lead, i.before, i.text, i.after, next);
  }

  lemma {:induction false} TextEnds(i: Typed)
    requires i.Valid()
    ensures var t := i.text;
      && t != "" && t[0] !in " \t\r\n" && t[|t| - 1] !in " \t\r\n" && !IsSeparator(t[0])
      && forall k :: 0 <= k < |t| ==> IsItem(t[k])
  {
    hide IsNumberText, White;
    NumberChars(i.text, i.number);
  }

  lemma {:induction false} PaddedItem(lead: string, before: string, text: string, after: string, next: string)
    requires (lead == "" || lead == ",") && White(before) && White(after) && (next == "" || next[0] == ',')
    requires text != "" && text[0] !in " \t\r\n" && text[|text| - 1] !in " \t\r\n" && !IsSeparator(text[0])
    requires forall k :: 0 <= k < |text| ==> IsItem(text[k])
    ensures NextItem(lead + (before + (text + (after + next)))) == Some((text, next))
  {
    hide Span, Trim, White, IsItem, IsSeparator;
    var rest := text + (after + next);
    assert rest != "" && rest[0] == text[0];
    Separators(lead, before, rest);
    ItemSpan(text, after, next);
    assert rest[..|text| + |after|] == text + after && rest[|text| + |after|..] == next;
    TrimRight(text, after);
  }

  lemma {:induction false} Separators(lead: string, before: string, rest: string)
    requires (lead == "" || lead == ",") && White(before) && rest != "" && !IsSeparator(rest[0])
    ensures var all := lead + (before + rest);
      Span(all, IsSeparator) == |lead| + |before| && all[|lead| + |before|..] == rest
  {
    hide Span;
    WhiteIsSkipped(before);
    var all := lead + (before + rest);
    var n := |lead| + |before|;
    assert all[n] == rest[0];
    assert forall k :: |lead| <= k < n ==> all[k] == before[k - |lead|];
    SpanIs(all, IsSeparator, n);
  }

  lemma {:induction false} ItemSpan(text: string, after: string, next: string)
    requires White(after) && (next == "" || next[0] == ',') && forall k :: 0 <= k < |text| ==> IsItem(text[k])
    ensures Span(text + (after + next), IsItem) == |text| + |after|
  {
    hide Span;
    WhiteIsSkipped(after);
    var rest := text + (after + next);
    var n := |text| + |after|;
    assert forall k :: |text| <= k < n ==> rest[k] == after[k - |text|];
    SpanIs(rest, IsItem, n);
  }

  /** A list of numbers is accepted if and only if there is room for all of them and each is a byte. */
  lemma {:induction false} ReadTyped(lead: string, items: seq<Typed>, acc: seq<byte>)
    requires (lead == "" || lead == ",") && AllTyped(items) && |acc| <= MAX_DATA_LENGTH
    ensures ReadBytes(ListText(lead, items), acc) ==
      if |acc| + |items| <= MAX_DATA_LENGTH && AllBytes(items) then Some(acc + BytesOf(items)) else None
    decreases |items|
  {
    hide NextItem, ParseUnsigned, IsNumberText, White;
    if items == [] {
      NoItem(ListText(lead, items));
      assert acc + BytesOf(items) == acc;
    } else {
      var i, rest := items[0], items[1..];
      FirstItem(lead, items);
      NumberTextParses(i.text, i.number);
      if i.number <= 255 && |acc| < MAX_DATA_LENGTH {
        ReadTyped(",", rest, acc + [i.number as byte]);
        OneByteMore(items, acc);
      }
    }
  }

  lemma {:induction false} OneByteMore(items: seq<Typed>, acc: seq<byte>)
    requires items != [] && items[0].number <= 255
    ensures AllBytes(items) <==> AllBytes(items[1..])
    ensures AllBytes(items) ==> acc + [items[0].number as byte] + BytesOf(items[1..]) == acc + BytesOf(items)
  {
    assert items == [items[0]] + items[1..];
    if AllBytes(items) {
      assert BytesOf(items) == [items[0].number as byte] + BytesOf(items[1..]);
    }
  }

  lemma {:induction false} ListChars(lead: string, items: seq<Typed>)
    requires (lead == "" || lead == ",") && AllTyped(items)
    ensures forall k :: 0 <= k < |ListText(lead, items)| ==> ListText(lead, items)[k] !in "]\""
    decreases |items|
  {
    hide IsNumberText, White;
    if items != [] {
      ListChars(",", items[1..]);
      var i := items[0];
      NumberChars(i.text, i.number);
      WhiteChars(i.before);
      WhiteChars(i.after);
      var d := ListText(",", items[1..]);
      JoinChars(i.after, d);
      JoinChars(i.text, i.after + d);
      JoinChars(i.before, i.text + (i.after + d));
      JoinChars(lead, i.before + (i.text + (i.after + d)));
    }
  }

  predicate Inert(s: string) {
    forall k :: 0 <= k < |s| ==> s[k] !in "]\""
  }

  lemma {:induction false} WhiteChars(s: string)
    requires White(s)
    ensures Inert(s)
  {
  }

  lemma {:induction false} JoinChars(a: string, b: string)
    requires Inert(a) && Inert(b)
    ensures Inert(a + b)
  {
  }

  // ---------- Keys that are not there ----------

  lemma {:induction false} NothingFound(s: string, key: string)
    requires NoQuotes(s)
    ensures FromKey(s, key) == None
  {
    forall k: nat ensures !At(s, Quote(key), k) {
      Mismatch(s, Quote(key), k, 0);
    }
  }

  /** The search in an object without the key finds nothing. */
  lemma {:induction false} NoMember(lead: string, ms: seq<Member>, key: string)
    requires GoodKey(key) && NoQuotes(lead) && forall j :: 0 <= j < |ms| ==> SteppedOver(ms[j], key)
    ensures FromKey(MembersText(lead, ms), key) == None
    decreases |ms|, 0
  {
    hide MembersText, FromKey, Quote;
    if ms == [] {
      OnlyBrace(lead);
      NothingFound("}", key);
    } else {
      MembersTextSplit(lead, ms);
      SkipWord(lead, ms[0].key, ":" + (ms[0].value.Print() + MembersText(",", ms[1..])), key);
      NoMemberBehind(ms[0].value, ms[1..], key);
    }
  }

  lemma {:induction false} OnlyBrace(lead: string)
    ensures MembersText(lead, []) == "}" && NoQuotes("}")
  {
  }

  lemma {:induction false} NoMemberBehind(v: Value, ms: seq<Member>, key: string)
    requires GoodKey(key) && NoQuotes(v.text) && (v.Quoted? ==> v.text != key)
    requires forall j :: 0 <= j < |ms| ==> SteppedOver(ms[j], key)
    ensures FromKey(":" + (v.Print() + MembersText(",", ms)), key) == None
    decreases |ms|, 1
  {
    hide MembersText, FromKey, Quote;
    var next := MembersText(",", ms);
    NextStops(ms);
    if v.Quoted? {
      assert v.Print() + next == "\"" + v.text + "\"" + next;
      SkipWord(":", v.text, next, key);
      NoMember(",", ms, key);
    } else if ms == [] {
      OnlyBrace(",");
      NothingFound(":" + (v.text + "}"), key);
    } else {
      LongerLead(":" + v.text, ms);
      NoMember(":" + v.text + ",", ms, key);
      assert ":" + (v.text + next) == (":" + v.text) + next;
    }
  }

  // ---------- The whole body ----------

  /** A body with an id, perhaps a flag, and an array. */
  function TypedBody(idText: string, flag: Option<string>, items: seq<Typed>): seq<Member> {
    [Member("id", Quoted(idText))]
    + (if flag.Some? then [Member("extended", Bare(flag.value))] else [])
    + [Member("data", Bare("[" + ListText("", items) + "]"))]
  }

  predicate Typable(idText: string, id: nat, flag: Option<string>, items: seq<Typed>) {
    && IsNumberText(idText, id) && id < TWO_64 && AllTyped(items)
    && (flag.Some? ==> GoodValue(Bare(flag.value)))
  }

  lemma {:induction false} TypedMembers(idText: string, id: nat, flag: Option<string>, items: seq<Typed>, key: string)
    requires Typable(idText, id, flag, items) && GoodKey(key) && !('0' <= key[0] <= '9')
    ensures var ms := TypedBody(idText, flag, items);
      forall j :: 0 <= j < |ms| && ms[j].key != key ==> SteppedOver(ms[j], key)
  {
    hide IsNumberText, GoodValue, ListText;
    NumberIsNoKey(Quoted(idText), id, key);
    ListChars("", items);
    BracketChars(ListText("", items));
    if flag.Some? {
      GoodHasNoQuotes(Bare(flag.value));
    }
  }

  lemma {:induction false} GoodHasNoQuotes(v: Value)
    requires GoodValue(v)
    ensures NoQuotes(v.text)
  {
  }

  lemma {:induction false} BracketChars(list: string)
    requires forall k :: 0 <= k < |list| ==> list[k] !in "]\""
    ensures NoQuotes("[" + list + "]")
  {
    var t := "[" + list + "]";
    assert forall k :: 1 <= k <= |list| ==> t[k] == list[k - 1];
  }

  lemma {:induction false} TypedId(idText: string, id: nat, flag: Option<string>, items: seq<Typed>)
    requires Typable(idText, id, flag, items)
    ensures ReadId(ObjectText(TypedBody(idText, flag, items))) == if id <= 0x1FFFFFFF then Some(id as bv32) else None
  {
    hide IsNumberText, GoodValue, ObjectText, ReadValue, ListText, ParseUnsigned, GoodKey;
    var ms := TypedBody(idText, flag, items);
    KeysAreGood();
    NumberTextIsGood(Quoted(idText), id);
    NumberTextParses(idText, id);
    ReadMember(ms, 0);
  }

  lemma {:induction false} TypedFlag(idText: string, id: nat, flag: Option<string>, items: seq<Typed>)
    requires Typable(idText, id, flag, items)
    ensures ReadExtended(ObjectText(TypedBody(idText, flag, items))) ==
      if flag.None? || flag.value == "false" then Some(false) else if flag.value == "true" then Some(true) else None
  {
    hide IsNumberText, GoodValue, ListText, GoodKey, SteppedOver, MembersText, FromKey, ValueAfterKey;
    var ms := TypedBody(idText, flag, items);
    KeysAreGood();
    TypedMembers(idText, id, flag, items, "extended");
    if flag.Some? {
      hide ObjectText, ReadValue;
      ReadMember(ms, 1);
    } else {
      assert NoQuotes("{");
      NoMember("{", ms, "extended");
    }
  }

  lemma {:induction false} TypedData(idText: string, id: nat, flag: Option<string>, items: seq<Typed>)
    requires Typable(idText, id, flag, items)
    ensures ReadData(ObjectText(TypedBody(idText, flag, items))) ==
      if |items| <= MAX_DATA_LENGTH && AllBytes(items) then Some(BytesOf(items)) else None
  {
    hide IsNumberText, GoodValue, ListText, GoodKey, SteppedOver, MembersText, FromKey, BracketText, ReadBytes;
    var ms, list := TypedBody(idText, flag, items), ListText("", items);
    var d := |ms| - 1;
    KeysAreGood();
    TypedMembers(idText, id, flag, items, "data");
    assert NoQuotes("{");
    LocateMember("{", ms, d, "data");
    MembersTextSplit("", ms[d..]);
    var next := MembersText(",", ms[d..][1..]);
    assert Quote("data") + (":" + (("[" + list + "]") + next)) == (Quote("data") + ":") + (("[" + list + "]") + next);
    ListChars("", items);
    NoBracket();
    BracketScan(Quote("data") + ":", list, next);
    ReadTyped("", items, []);
    assert AllBytes(items) ==> [] + BytesOf(items) == BytesOf(items);
  }

  lemma {:induction false} NoBracket()
    ensures forall k :: 0 <= k < |Quote("data") + ":"| ==> (Quote("data") + ":")[k] != '['
  {
  }

  /** A body is accepted if and only if the id has at most 29 bits, the flag is missing, true or false, and the
      array has at most eight numbers, each at most 255; it then says what it shows, and a missing flag means a
      standard frame. */
  lemma {:induction false} BodyIsReadIff(idText: string, id: nat, flag: Option<string>, items: seq<Typed>)
    requires Typable(idText, id, flag, items)
    ensures ReadSendBody(ObjectText(TypedBody(idText, flag, items))) ==
      if id <= 0x1FFFFFFF && flag in {None, Some("true"), Some("false")} && |items| <= 8 && AllBytes(items)
      then Some(SendBody(id as bv32, flag == Some("true"), BytesOf(items)))
      else None
  {
    hide Typable, ObjectText, TypedBody, ReadId, ReadExtended, ReadData;
    TypedId(idText, id, flag, items);
    TypedFlag(idText, id, flag, items);
    TypedData(idText, id, flag, items);
  }

  /** Without an id, or without an array, nothing is accepted. */
  lemma {:induction false} NothingWithoutKey(ms: seq<Member>, key: string)
    requires key == "id" || key == "data"
    requires forall j :: 0 <= j < |ms| ==> SteppedOver(ms[j], key)
    ensures ReadSendBody(ObjectText(ms)) == None
  {
    hide SteppedOver, MembersText, FromKey, GoodKey;
    KeysAreGood();
    assert NoQuotes("{");
    NoMember("{", ms, key);
  }
}
