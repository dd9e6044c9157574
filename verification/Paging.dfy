/** A client that pages through the store: every run of appends and queries, each query asking for what lies
    behind the last sequence number it was given (GET /api/can/frames?after=...). */
module Paging {
  import opened Wrappers
  import opened CanFrames
  import opened FrameStores

  datatype Act = Append(frame: CanFrame) | Page(limit: nat)

  /** One query: the cursor before and after, how many frames the store had lost and held in all,
      and whether the answer was shorter than the limit. */
  datatype PageRecord = PageRecord(from: nat, upTo: nat, evicted: nat, total: nat, short: bool)

  datatype Poller = Poller(history: seq<CanFrame>, cursor: nat, got: seq<CanFrame>, pages: seq<PageRecord>)

  function Step(p: Poller, act: Act, capacity: nat, filter: Option<bv32>): Poller {
    match act
    case Append(frame) => p.(history := p.history + [frame.(sequence := |p.history| + 1)])
    case Page(limit) =>
      var r := Select(Retained(p.history, capacity), p.cursor, filter, limit);
      var cursor := Last(r, p.cursor);
      var record := PageRecord(p.cursor, cursor, Overwritten(|p.history|, capacity), |p.history|, |r| < limit);
      p.(cursor := cursor, got := p.got + r, pages := p.pages + [record])
  }

  function Run(p: Poller, acts: seq<Act>, capacity: nat, filter: Option<bv32>): Poller
    decreases |acts|
  {
    if acts == [] then p else Run(Step(p, acts[0], capacity, filter), acts[1..], capacity, filter)
  }

  /** What was delivered is in order, unaltered, asked for, and behind the cursor. */
  ghost predicate Sound(p: Poller, start: nat, filter: Option<bv32>) {
    && Increasing(p.got)
    && forall k :: 0 <= k < |p.got| ==>
      var s := p.got[k].sequence;
      start < s <= p.cursor && Asked(p.history, filter, s) && p.got[k] == p.history[s - 1]
  }

  /** The pages tile the numbers between the start and the cursor. */
  ghost predicate Tiled(p: Poller, start: nat) {
    && start <= p.cursor
    && (p.pages == [] ==> p.cursor == start)
    && (p.pages != [] ==> p.pages[0].from == start && p.pages[|p.pages| - 1].upTo == p.cursor)
    && (forall i :: 0 <= i < |p.pages| ==> start <= p.pages[i].from <= p.pages[i].upTo <= p.cursor)
    && (forall i, j :: 0 <= i < j < |p.pages| && j == i + 1 ==> p.pages[i].upTo == p.pages[j].from)
  }

  /** A number the page passed was delivered exactly when the store still held it at that moment. */
  ghost predicate ExactPage(page: PageRecord, history: seq<CanFrame>, got: seq<CanFrame>, filter: Option<bv32>) {
    forall s :: page.from < s <= page.upTo && Asked(history, filter, s) ==> (Holds(got, s) <==> page.evicted < s)
  }

  ghost predicate Exact(p: Poller, filter: Option<bv32>) {
    forall i :: 0 <= i < |p.pages| ==> ExactPage(p.pages[i], p.history, p.got, filter)
  }

  /** A short page has delivered everything the store held behind its cursor. */
  ghost predicate ShortPage(page: PageRecord, history: seq<CanFrame>, got: seq<CanFrame>, filter: Option<bv32>) {
    page.short ==>
      forall s :: page.from < s <= page.total && page.evicted < s && Asked(history, filter, s) ==> Holds(got, s)
  }

  ghost predicate CaughtUp(p: Poller, filter: Option<bv32>) {
    forall i :: 0 <= i < |p.pages| ==> ShortPage(p.pages[i], p.history, p.got, filter)
  }

  /** No page looks beyond the history it was read from. */
  ghost predicate Within(p: Poller) {
    forall i :: 0 <= i < |p.pages| ==>
      && p.pages[i].total <= |p.history|
      && (p.pages[i].from < p.pages[i].upTo ==> p.pages[i].upTo <= |p.history|)
  }

  ghost predicate Inv(p: Poller, start: nat, filter: Option<bv32>) {
    && Numbered(p.history) && Sound(p, start, filter) && Tiled(p, start)
    && Exact(p, filter) && CaughtUp(p, filter) && Within(p)
  }

  /** Later appends change nothing for the numbers already assigned. */
  lemma {:induction false} AskedStays(history: seq<CanFrame>, frame: CanFrame, filter: Option<bv32>)
    ensures forall s: nat :: s <= |history| ==> Asked(history + [frame], filter, s) == Asked(history, filter, s)
  {
  }

  lemma {:induction false} SoundStays(p: Poller, q: Poller, frame: CanFrame, start: nat, filter: Option<bv32>)
    requires Sound(p, start, filter) && q == p.(history := p.history + [frame])
    ensures Sound(q, start, filter)
  {
    AskedStays(p.history, frame, filter);
    hide Matches;
  }

  lemma {:induction false} PageStays(page: PageRecord, history: seq<CanFrame>, frame: CanFrame,
      got: seq<CanFrame>, filter: Option<bv32>)
    requires ExactPage(page, history, got, filter) && ShortPage(page, history, got, filter)
    requires page.total <= |history| && (page.from < page.upTo ==> page.upTo <= |history|)
    ensures ExactPage(page, history + [frame], got, filter) && ShortPage(page, history + [frame], got, filter)
  {
    AskedStays(history, frame, filter);
    hide Asked, Holds;
  }

  lemma {:induction false} AppendKeeps(p: Poller, frame: CanFrame, start: nat, capacity: nat, filter: Option<bv32>)
    requires Inv(p, start, filter)
    ensures Inv(Step(p, Append(frame), capacity, filter), start, filter)
  {
    var stored := frame.(sequence := |p.history| + 1);
    var q := Step(p, Append(frame), capacity, filter);
    SoundStays(p, q, stored, start, filter);
    hide Sound, ExactPage, ShortPage, Asked;
    forall i | 0 <= i < |p.pages|
      ensures ExactPage(p.pages[i], q.history, p.got, filter) && ShortPage(p.pages[i], q.history, p.got, filter)
    {
      PageStays(p.pages[i], p.history, stored, p.got, filter);
    }
  }

  lemma {:induction false} HoldsConcat(a: seq<CanFrame>, b: seq<CanFrame>, s: nat)
    ensures Holds(a + b, s) <==> Holds(a, s) || Holds(b, s)
  {
    if Holds(a, s) {
      var k :| 0 <= k < |a| && a[k].sequence == s;
      assert (a + b)[k].sequence == s;
    }
    if Holds(b, s) {
      var k :| 0 <= k < |b| && b[k].sequence == s;
      assert (a + b)[|a| + k].sequence == s;
    }
  }

  lemma {:induction false} PageSound(p: Poller, q: Poller, lo: nat, limit: nat, r: seq<CanFrame>, start: nat,
      filter: Option<bv32>)
    requires Sound(p, start, filter) && start <= p.cursor && q.history == p.history
    requires IsPage(p.history, lo, p.cursor, filter, limit, r) && q.got == p.got + r && q.cursor == Last(r, p.cursor)
    ensures Sound(q, start, filter) && p.cursor <= q.cursor && (p.cursor < q.cursor ==> q.cursor <= |p.history|)
  {
  }

  /** Frames behind an old page's range do not disturb what was said about it. */
  lemma {:induction false} OldPage(page: PageRecord, history: seq<CanFrame>, got: seq<CanFrame>,
      r: seq<CanFrame>, filter: Option<bv32>)
    requires ExactPage(page, history, got, filter) && ShortPage(page, history, got, filter)
    requires forall k :: 0 <= k < |r| ==> page.upTo < r[k].sequence
    ensures ExactPage(page, history, got + r, filter) && ShortPage(page, history, got + r, filter)
  {
    hide Asked;
    forall s ensures Holds(got + r, s) <==> Holds(got, s) || Holds(r, s) {
      HoldsConcat(got, r, s);
    }
  }

  lemma {:induction false} NewPage(page: PageRecord, history: seq<CanFrame>, limit: nat, got: seq<CanFrame>,
      r: seq<CanFrame>,
      filter: Option<bv32>)
    requires IsPage(history, page.evicted, page.from, filter, limit, r)
    requires page.upTo == Last(r, page.from) && page.short == (|r| < limit)
    requires forall k :: 0 <= k < |got| ==> got[k].sequence <= page.from
    ensures ExactPage(page, history, got + r, filter) && ShortPage(page, history, got + r, filter)
  {
    hide Asked;
    forall s ensures Holds(got + r, s) <==> Holds(got, s) || Holds(r, s) {
      HoldsConcat(got, r, s);
    }
  }

  lemma {:induction false} PagesExact(p: Poller, q: Poller, lo: nat, limit: nat, r: seq<CanFrame>, start: nat,
      filter: Option<bv32>)
    requires Sound(p, start, filter) && Tiled(p, start) && Exact(p, filter) && CaughtUp(p, filter)
    requires q.history == p.history
    requires IsPage(p.history, lo, p.cursor, filter, limit, r) && q.got == p.got + r
    requires |q.pages| == |p.pages| + 1 && q.pages[..|p.pages|] == p.pages
    requires q.pages[|p.pages|] == PageRecord(p.cursor, Last(r, p.cursor), lo, |p.history|, |r| < limit)
    ensures Exact(q, filter) && CaughtUp(q, filter)
  {
    forall i | 0 <= i < |q.pages|
      ensures ExactPage(q.pages[i], q.history, q.got, filter) && ShortPage(q.pages[i], q.history, q.got, filter)
    {
      if i < |p.pages| {
        assert q.pages[i] == p.pages[i];
        OldPage(p.pages[i], p.history, p.got, r, filter);
      } else {
        NewPage(q.pages[i], p.history, limit, p.got, r, filter);
      }
    }
  }

  lemma {:induction false} PageTiles(p: Poller, q: Poller, start: nat)
    requires Tiled(p, start) && p.cursor <= q.cursor
    requires |q.pages| == |p.pages| + 1 && q.pages[..|p.pages|] == p.pages
    requires q.pages[|p.pages|].from == p.cursor && q.pages[|p.pages|].upTo == q.cursor
    ensures Tiled(q, start)
  {
    assert forall i :: 0 <= i < |p.pages| ==> q.pages[i] == p.pages[i];
  }

  lemma {:induction false} PageKeeps(p: Poller, limit: nat, start: nat, capacity: nat, filter: Option<bv32>)
    requires Inv(p, start, filter)
    ensures Inv(Step(p, Page(limit), capacity, filter), start, filter)
  {
    hide IsPage, Select, Sound, Exact, CaughtUp;
    var q := Step(p, Page(limit), capacity, filter);
    var lo := Overwritten(|p.history|, capacity);
    var r := Select(Retained(p.history, capacity), p.cursor, filter, limit);
    SelectIsPage(p.history, lo, p.cursor, filter, limit);
    assert q.pages[..|p.pages|] == p.pages;
    PageSound(p, q, lo, limit, r, start, filter);
    PagesExact(p, q, lo, limit, r, start, filter);
    hide Tiled;
    PageTiles(p, q, start);
  }

  lemma {:induction false} RunKeeps(p: Poller, acts: seq<Act>, start: nat, capacity: nat, filter: Option<bv32>)
    requires Inv(p, start, filter)
    ensures Inv(Run(p, acts, capacity, filter), start, filter)
    decreases |acts|
  {
    if acts != [] {
      hide Inv;
      if acts[0].Append? {
        AppendKeeps(p, acts[0].frame, start, capacity, filter);
      } else {
        PageKeeps(p, acts[0].limit, start, capacity, filter);
      }
      RunKeeps(Step(p, acts[0], capacity, filter), acts[1..], start, capacity, filter);
    }
  }

  /** Over every run: frames come in order, at most once and unaltered; each number the client has passed was
      passed by exactly one page (the pages tile the range), and it was delivered if and only if the store still
      held it when that page was read; a short page leaves nothing behind. */
  lemma {:induction false} PagingIsExact(history: seq<CanFrame>, acts: seq<Act>, start: nat, capacity: nat,
      filter: Option<bv32>)
    requires Numbered(history)
    ensures var p := Run(Poller(history, start, [], []), acts, capacity, filter);
      Sound(p, start, filter) && Tiled(p, start) && Exact(p, filter) && CaughtUp(p, filter)
  {
    var first := Poller(history, start, [], []);
    assert Inv(first, start, filter);
    RunKeeps(first, acts, start, capacity, filter);
  }
}
