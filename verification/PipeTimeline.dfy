/** The timeline drawn for one instruction (print_inst in util/o3-pipeview.py).

A line shows `width` cycles.  An instruction that lives for less than a line is drawn in
compact form, wrapping around to the start of its only line; otherwise it gets one line
per `width` cycles from the line holding its fetch on.
 */
module PipeTimeline {
  import opened Arith
  import opened Sorting
  import opened PipeQueue
  import opened Results
  import opened Text

  /** Stage ticks in the order of the stage table. */
  function Ticks(i: Inst, withStore: bool): (t: seq<nat>)
    ensures 7 <= |t| <= 8 && t[0] == i.fetch
  {
    [i.fetch, i.decode, i.rename, i.dispatch, i.issue, i.complete, i.retire]
    + if withStore then [i.store] else []
  }

  const LETTERS := "fdnpicrs"
  const DISPATCH := 3

  /** Alphabetical rank of the stage names fetch, decode, rename, dispatch, issue,
      complete, retire, store: equal offsets are ordered by name. */
  const RANKS := [3, 1, 5, 2, 4, 0, 6, 7]

  datatype Event = Event(offset: nat, stage: nat, tick: nat)

  predicate Before(a: Event, b: Event) {
    a.offset < b.offset || (a.offset == b.offset && Rank(a) <= Rank(b))
  }

  function Rank(e: Event): int {
    if e.stage < 8 then RANKS[e.stage] else e.stage
  }

  function Letter(e: Event): char {
    if e.stage < 8 then LETTERS[e.stage] else '?'
  }

  function Last(t: seq<nat>): (m: nat)
    ensures forall k :: 0 <= k < |t| ==> t[k] <= m
    ensures t != [] ==> m in t
  {
    if t == [] then 0
    else
      var m := Last(t[1..]);
      assert forall k :: 1 <= k < |t| ==> t[k] == t[1..][k - 1];
      if t[0] < m then m else t[0]
  }

  /** The geometry of a timeline. */
  datatype Grid = Grid(cycle: nat, width: nat) {
    predicate Valid() {
      cycle > 0 && width > 0
    }

    function Span(): (s: nat)
      ensures Valid() ==> s > 0
    {
      width * cycle
    }

    /** The start of the line holding `tick`. */
    function Base(tick: nat): (b: nat)
      requires Valid()
      ensures b <= tick < b + Span() && b % Span() == 0
    {
      BaseFacts(tick);
      tick / Span() * Span()
    }

    lemma BaseFacts(tick: nat)
      requires Valid()
      ensures 0 <= tick / Span() * Span() <= tick < tick / Span() * Span() + Span()
      ensures (tick / Span() * Span()) % Span() == 0
    {
      var s := Span();
      assert tick == tick / s * s + tick % s;
      MultipleMod(tick / s, s);
    }
  }

  lemma SplitOffset(g: Grid, start: nat, off: nat)
    requires g.Valid() && start % g.Span() == 0 && off < g.Span()
    ensures (start + off) % g.Span() == off
  {
    var s := g.Span();
    assert start == start / s * s;
    DivModUnique(start + off, s, start / s, off);
  }

  // ---- Lines ----

  function NumLines(g: Grid, fetch: nat, last: nat): (n: nat)
    requires g.Valid() && fetch <= last
    ensures n >= 1
  {
    if last - fetch < g.Span() then 1 else (last - g.Base(fetch)) / g.Span() + 1
  }

  function LineStart(g: Grid, fetch: nat, i: nat): nat
    requires g.Valid()
  {
    g.Base(fetch) + i * g.Span()
  }

  function LineEnd(g: Grid, fetch: nat, last: nat, i: nat): nat
    requires g.Valid() && fetch <= last
  {
    LineStart(g, fetch, i) + g.Span() + if NumLines(g, fetch, last) == 1 then fetch - g.Base(fetch) else 0
  }

  predicate OnLine(g: Grid, fetch: nat, last: nat, i: nat, tick: nat)
    requires g.Valid() && fetch <= last
  {
    LineStart(g, fetch, i) <= tick < LineEnd(g, fetch, last, i)
  }

  function EventsOn(g: Grid, t: seq<nat>, start: nat, end: nat, n: nat): (es: seq<Event>)
    requires g.Valid() && n <= |t|
    ensures forall k :: 0 <= k < |es| ==>
      && es[k].stage < n
      && es[k] == Event(t[es[k].stage] % g.Span(), es[k].stage, t[es[k].stage])
      && t[es[k].stage] != 0
      && start <= t[es[k].stage] < end
  {
    if n == 0 then []
    else
      var es := EventsOn(g, t, start, end, n - 1);
      var tick := t[n - 1];
      if tick != 0 && start <= tick < end then es + [Event(tick % g.Span(), n - 1, tick)] else es
  }

  /** The events in the interval of line `i`, in stage order. */
  function RawEvents(g: Grid, inst: Inst, withStore: bool, i: nat): seq<Event>
    requires g.Valid()
  {
    var t := Ticks(inst, withStore);
    EventsOn(g, t, LineStart(g, inst.fetch, i), LineEnd(g, inst.fetch, Last(t), i), |t|)
  }

  /** Dispatch is not drawn when it coincides with issue. */
  function Drawn(inst: Inst): Event -> bool {
    (e: Event) => !(e.stage == DISPATCH && inst.dispatch == inst.issue)
  }

  function Dot(inst: Inst): char {
    if inst.retire == 0 then '=' else '.'
  }

  /** The events drawn on line `i`, from left to right. */
  function DrawnOn(g: Grid, inst: Inst, withStore: bool, i: nat): seq<Event>
    requires g.Valid()
  {
    Filter(Sort(RawEvents(g, inst, withStore, i), Before), Drawn(inst))
  }

  // ---- A line, column by column ----

  function Column(g: Grid, e: Event): nat
    requires g.Valid()
  {
    e.offset / g.cycle
  }

  function Letters(g: Grid, es: seq<Event>, c: nat): string
    requires g.Valid()
  {
    if es == [] then ""
    else
      var e := es[|es| - 1];
      var s := Letters(g, es[..|es| - 1], c);
      if Column(g, e) == c then s + [Letter(e)] else s
  }

  /** One cycle of the timeline: its events, or a dot. */
  function Cell(g: Grid, es: seq<Event>, dot: char, c: nat): (s: string)
    requires g.Valid()
    ensures s != ""
  {
    var s := Letters(g, es, c);
    if s == "" then [dot] else s
  }

  function Columns(g: Grid, es: seq<Event>, dot: char, n: nat): string
    requires g.Valid()
  {
    if n == 0 then "" else Columns(g, es, dot, n - 1) + Cell(g, es, dot, n - 1)
  }

  function Dots(dot: char, n: int): (s: string)
    ensures |s| == if n < 0 then 0 else n
  {
    seq(if n < 0 then 0 else n, _ => dot)
  }

  lemma {:induction false} LettersNone(g: Grid, es: seq<Event>, c: nat)
    requires g.Valid() && forall k :: 0 <= k < |es| ==> Column(g, es[k]) != c
    ensures Letters(g, es, c) == ""
  {
    if es == [] {
    } else {
      LettersNone(g, es[..|es| - 1], c);
    }
  }

  lemma LettersSnoc(g: Grid, es: seq<Event>, e: Event, c: nat)
    requires g.Valid()
    ensures Letters(g, es + [e], c) == if Column(g, e) == c then Letters(g, es, c) + [Letter(e)] else Letters(g, es, c)
  {
    assert (es + [e])[..|es|] == es;
  }

  lemma {:induction false} ColumnsBeforeNew(g: Grid, es: seq<Event>, e: Event, dot: char, n: nat)
    requires g.Valid() && n <= Column(g, e)
    ensures Columns(g, es + [e], dot, n) == Columns(g, es, dot, n)
  {
    if n == 0 {
    } else {
      ColumnsBeforeNew(g, es, e, dot, n - 1);
      LettersSnoc(g, es, e, n - 1);
    }
  }

  lemma {:induction false} EmptyColumns(g: Grid, es: seq<Event>, dot: char, from: nat, n: nat)
    requires g.Valid() && from <= n
    requires forall k :: 0 <= k < |es| ==> Column(g, es[k]) < from
    ensures Columns(g, es, dot, n) == Columns(g, es, dot, from) + Dots(dot, n - from)
  {
    if from < n {
      EmptyColumns(g, es, dot, from, n - 1);
      LettersNone(g, es, n - 1);
      assert Dots(dot, n - from) == Dots(dot, n - 1 - from) + [dot];
    }
  }

  /** An event to the right of everything drawn so far. */
  lemma DrawNew(g: Grid, es: seq<Event>, e: Event, dot: char, pos: nat)
    requires g.Valid() && pos <= Column(g, e)
    requires forall k :: 0 <= k < |es| ==> Column(g, es[k]) < pos
    ensures Columns(g, es + [e], dot, Column(g, e) + 1)
         == Columns(g, es, dot, pos) + Dots(dot, Column(g, e) - pos) + [Letter(e)]
  {
    var c := Column(g, e);
    ColumnsBeforeNew(g, es, e, dot, c);
    EmptyColumns(g, es, dot, pos, c);
    LettersNone(g, es, c);
    LettersSnoc(g, es, e, c);
  }

  /** An event in the same cycle as the one drawn last. */
  lemma DrawShared(g: Grid, es: seq<Event>, e: Event, dot: char)
    requires g.Valid() && es != [] && Column(g, es[|es| - 1]) == Column(g, e)
    ensures Columns(g, es + [e], dot, Column(g, e) + 1)
         == Columns(g, es, dot, Column(g, e) + 1) + [Letter(e)]
  {
    var c := Column(g, e);
    ColumnsBeforeNew(g, es, e, dot, c);
    LettersSnoc(g, es, e, c);
    assert Letters(g, es, c) != "";
    assert Columns(g, es, dot, c) + (Letters(g, es, c) + [Letter(e)])
        == (Columns(g, es, dot, c) + Letters(g, es, c)) + [Letter(e)];
  }

  // ---- Drawing ----

  lemma ColumnInWidth(g: Grid, e: Event)
    requires g.Valid() && e.offset < g.Span()
    ensures Column(g, e) < g.width
  {
    DivBelow(e.offset, g.width, g.cycle);
  }

  lemma ColumnMonotone(g: Grid, a: Event, b: Event)
    requires g.Valid() && a.offset <= b.offset
    ensures Column(g, a) <= Column(g, b)
  {
    DivMono(a.offset, b.offset, g.cycle);
  }

  /** The events drawn so far end at `pos`. */
  ghost predicate DrawnUpTo(g: Grid, es: seq<Event>, pos: nat)
    requires g.Valid()
  {
    && pos <= g.width
    && (es == [] ==> pos == 0)
    && (es != [] ==> pos == Column(g, es[|es| - 1]) + 1)
    && (forall k :: 0 <= k < |es| ==> Column(g, es[k]) < pos)
  }

  lemma BeforeOrders()
    ensures TotalPreorder(Before)
  {
  }

  /** Events that fit on a line, from left to right. */
  ghost predicate Drawable(g: Grid, events: seq<Event>) {
    var n := |events|;
    n > 0 ==>
      && events[n - 1].offset < g.Span()
      && (n > 1 ==> events[n - 2].offset <= events[n - 1].offset)
      && Drawable(g, events[..n - 1])
  }

  lemma {:induction false} DrawableAt(g: Grid, events: seq<Event>, k: nat)
    requires Drawable(g, events) && k < |events|
    ensures events[k].offset < g.Span() && (k > 0 ==> events[k - 1].offset <= events[k].offset)
  {
    if k < |events| - 1 {
      DrawableAt(g, events[..|events| - 1], k);
    }
  }

  lemma {:induction false} OrderedIsDrawable(g: Grid, events: seq<Event>)
    requires Ordered(events, Before) && forall k :: 0 <= k < |events| ==> events[k].offset < g.Span()
    ensures Drawable(g, events)
  {
    if events == [] {
    } else {
      OrderedIsDrawable(g, events[..|events| - 1]);
      assert |events| > 1 ==> Before(events[|events| - 2], events[|events| - 1]);
    }
  }

  lemma SortedEvents(g: Grid, inst: Inst, withStore: bool, i: nat)
    requires g.Valid()
    ensures Drawable(g, Sort(RawEvents(g, inst, withStore, i), Before))
  {
    var es := RawEvents(g, inst, withStore, i);
    var s := Sort(es, Before);
    BeforeOrders();
    SortOrders(es, Before);
    SortMembers(es, Before);
    forall k | 0 <= k < |s| ensures s[k].offset < g.Span() {
      assert s[k] in es;
    }
    OrderedIsDrawable(g, s);
  }

  /** After the first `k` events, `es` have been drawn and fill the line up to `pos`. */
  ghost predicate Progress(g: Grid, inst: Inst, events: seq<Event>, k: nat, es: seq<Event>, pos: nat)
    requires g.Valid() && k <= |events|
  {
    && es == Filter(events[..k], Drawn(inst))
    && DrawnUpTo(g, es, pos)
    && (es != [] ==> k > 0 && es[|es| - 1].offset <= events[k - 1].offset)
  }

  ghost predicate DrawnBody(g: Grid, inst: Inst, events: seq<Event>, k: nat, es: seq<Event>, pos: nat, body: string)
    requires g.Valid() && k <= |events|
  {
    Progress(g, inst, events, k, es, pos) && body == Columns(g, es, Dot(inst), pos)
  }

  lemma FilterNext(events: seq<Event>, k: nat, p: Event -> bool)
    requires k < |events|
    ensures Filter(events[..k + 1], p)
         == if p(events[k]) then Filter(events[..k], p) + [events[k]] else Filter(events[..k], p)
  {
    FilterSnoc(events[..k], events[k], p);
    assert events[..k + 1] == events[..k] + [events[k]];
  }

  lemma DrawNext(g: Grid, inst: Inst, events: seq<Event>, k: nat, es: seq<Event>, e: Event, pos: nat, body: string)
    requires g.Valid() && k < |events| && e == events[k] && e.offset < g.Span()
    requires es + [e] == Filter(events[..k + 1], Drawn(inst)) && DrawnUpTo(g, es, pos)
    requires body == Columns(g, es, Dot(inst), pos) && (es != [] ==> es[|es| - 1].offset <= e.offset)
    ensures DrawnBody(g, inst, events, k + 1, es + [e], Column(g, e) + 1,
                      body + Dots(Dot(inst), Column(g, e) - pos) + [Letter(e)])
  {
    DrawOne(g, es, e, Dot(inst), pos);
  }

  lemma SkipNext(g: Grid, inst: Inst, events: seq<Event>, k: nat, es: seq<Event>, pos: nat, body: string)
    requires g.Valid() && k < |events| && es == Filter(events[..k + 1], Drawn(inst)) && DrawnUpTo(g, es, pos)
    requires body == Columns(g, es, Dot(inst), pos) && (es != [] ==> es[|es| - 1].offset <= events[k].offset)
    ensures DrawnBody(g, inst, events, k + 1, es, pos, body)
  {
  }

  /** What is known of the next event when `k` have been looked at. */
  lemma NextEvent(g: Grid, inst: Inst, events: seq<Event>, k: nat, es: seq<Event>, pos: nat)
    requires g.Valid() && k < |events| && Drawable(g, events) && Progress(g, inst, events, k, es, pos)
    ensures Filter(events[..k + 1], Drawn(inst)) == if Drawn(inst)(events[k]) then es + [events[k]] else es
    ensures events[k].offset < g.Span() && (es != [] ==> es[|es| - 1].offset <= events[k].offset)
  {
    FilterNext(events, k, Drawn(inst));
    DrawableAt(g, events, k);
  }

  lemma ProgressDraw(g: Grid, inst: Inst, events: seq<Event>, k: nat, es: seq<Event>, e: Event, pos: nat, body: string)
    requires g.Valid() && k < |events| && Drawable(g, events) && e == events[k] && Drawn(inst)(e)
    requires DrawnBody(g, inst, events, k, es, pos, body)
    ensures DrawnBody(g, inst, events, k + 1, es + [e], Column(g, e) + 1,
                      body + Dots(Dot(inst), Column(g, e) - pos) + [Letter(e)])
  {
    NextEvent(g, inst, events, k, es, pos);
    DrawNext(g, inst, events, k, es, e, pos, body);
  }

  lemma ProgressSkip(g: Grid, inst: Inst, events: seq<Event>, k: nat, es: seq<Event>, pos: nat, body: string)
    requires g.Valid() && k < |events| && Drawable(g, events) && !Drawn(inst)(events[k])
    requires DrawnBody(g, inst, events, k, es, pos, body)
    ensures DrawnBody(g, inst, events, k + 1, es, pos, body)
  {
    NextEvent(g, inst, events, k, es, pos);
    SkipNext(g, inst, events, k, es, pos, body);
  }

  lemma ProgressDone(g: Grid, inst: Inst, events: seq<Event>, es: seq<Event>, pos: nat)
    requires g.Valid() && Progress(g, inst, events, |events|, es, pos)
    ensures es == Filter(events, Drawn(inst))
    ensures Columns(g, es, Dot(inst), g.width) == Columns(g, es, Dot(inst), pos) + Dots(Dot(inst), g.width - pos)
  {
    assert events[..|events|] == events;
    EmptyColumns(g, es, Dot(inst), pos, g.width);
  }

  /** One event of the loop that draws a line. */
  method DrawEvent(g: Grid, inst: Inst, events: seq<Event>, k: nat, ghost es: seq<Event>, pos: nat, body: string)
    returns (ghost es': seq<Event>, pos': nat, body': string)
    requires g.Valid() && Drawable(g, events) && k < |events|
    requires DrawnBody(g, inst, events, k, es, pos, body)
    ensures DrawnBody(g, inst, events, k + 1, es', pos', body')
  {
    var e := events[k];
    if e.stage == DISPATCH && inst.dispatch == inst.issue {
      ProgressSkip(g, inst, events, k, es, pos, body);
      return es, pos, body;
    }
    ProgressDraw(g, inst, events, k, es, e, pos, body);
    body' := body + Dots(Dot(inst), e.offset / g.cycle - pos) + [Letter(e)];
    pos' := e.offset / g.cycle + 1;
    es' := es + [e];
  }

  /** The body of a line: what stands between its brackets. */
  method DrawLine(g: Grid, inst: Inst, events: seq<Event>) returns (body: string)
    requires g.Valid() && Drawable(g, events)
    ensures body == Columns(g, Filter(events, Drawn(inst)), Dot(inst), g.width)
  {
    var pos: nat := 0;
    body := "";
    ghost var es: seq<Event> := [];
    for k := 0 to |events|
      invariant DrawnBody(g, inst, events, k, es, pos, body)
    {
      es, pos, body := DrawEvent(g, inst, events, k, es, pos, body);
    }
    ProgressDone(g, inst, events, es, pos);
    body := body + Dots(Dot(inst), g.width - pos);
  }

  lemma DrawOne(g: Grid, es: seq<Event>, e: Event, dot: char, pos: nat)
    requires g.Valid() && DrawnUpTo(g, es, pos) && e.offset < g.Span()
    requires es != [] ==> es[|es| - 1].offset <= e.offset
    ensures DrawnUpTo(g, es + [e], Column(g, e) + 1)
    ensures Columns(g, es + [e], dot, Column(g, e) + 1)
         == Columns(g, es, dot, pos) + Dots(dot, Column(g, e) - pos) + [Letter(e)]
  {
    ColumnInWidth(g, e);
    if pos <= Column(g, e) {
      DrawNew(g, es, e, dot, pos);
    } else {
      ColumnMonotone(g, es[|es| - 1], e);
      DrawShared(g, es, e, dot);
    }
  }

  /** A drawn line and the tick it is labelled with. */
  datatype Line = Line(body: string, at: nat)

  datatype Failure = NoEvents

  /** What line `i` must look like: its cycles one by one. */
  function LineOf(g: Grid, inst: Inst, withStore: bool, i: nat): Line
    requires g.Valid()
  {
    Line(Columns(g, DrawnOn(g, inst, withStore, i), Dot(inst), g.width), LineStart(g, inst.fetch, i))
  }

  predicate NoTicks(t: seq<nat>) {
    forall k :: 0 <= k < |t| ==> t[k] == 0
  }

  method PrintLine(g: Grid, inst: Inst, withStore: bool, i: nat) returns (line: Line, empty: bool)
    requires g.Valid()
    ensures line == LineOf(g, inst, withStore, i)
    ensures empty <==> RawEvents(g, inst, withStore, i) == []
  {
    var t := Ticks(inst, withStore);
    var start, end := LineStart(g, inst.fetch, i), LineEnd(g, inst.fetch, Last(t), i);
    var events := GatherEvents(g, t, start, end);
    empty := events == [];
    SortedEvents(g, inst, withStore, i);
    var body := DrawLine(g, inst, Sort(events, Before));
    line := Line(body, start);
  }

  /** The first `n` lines. */
  function LinesUpTo(g: Grid, inst: Inst, withStore: bool, n: nat): (ls: seq<Line>)
    requires g.Valid()
    ensures |ls| == n
  {
    seq(n, (k: nat) => LineOf(g, inst, withStore, k))
  }

  lemma LinesSnoc(g: Grid, inst: Inst, withStore: bool, n: nat, lines: seq<Line>, line: Line)
    requires g.Valid() && lines == LinesUpTo(g, inst, withStore, n) && line == LineOf(g, inst, withStore, n)
    ensures lines + [line] == LinesUpTo(g, inst, withStore, n + 1)
  {
  }

  /** The loop over lines.  The script indexes the first event of a compact line, which
      fails when there is none. */
  method PrintLines(g: Grid, inst: Inst, withStore: bool, n: nat) returns (r: Result<seq<Line>, Failure>)
    requires g.Valid()
    ensures r == if n == 1 && RawEvents(g, inst, withStore, 0) == [] then Err(NoEvents)
                 else Ok(LinesUpTo(g, inst, withStore, n))
  {
    var lines: seq<Line> := [];
    for i := 0 to n
      invariant lines == LinesUpTo(g, inst, withStore, i)
      invariant i > 0 && n == 1 ==> RawEvents(g, inst, withStore, 0) != []
    {
      var line, empty := PrintLine(g, inst, withStore, i);
      if n == 1 && empty {
        return Err(NoEvents);
      }
      LinesSnoc(g, inst, withStore, i, lines, line);
      lines := lines + [line];
    }
    r := Ok(lines);
  }

  /** All the lines of one instruction. */
  method PrintInst(g: Grid, inst: Inst, withStore: bool) returns (r: Result<seq<Line>, Failure>)
    requires g.Valid()
    ensures r.Err? <==> NoTicks(Ticks(inst, withStore))
    ensures r.Ok? ==>
      r.value == LinesUpTo(g, inst, withStore, NumLines(g, inst.fetch, Last(Ticks(inst, withStore))))
  {
    var n := NumLines(g, inst.fetch, Last(Ticks(inst, withStore)));
    if n == 1 {
      EmptyMeansNoTicks(g, inst, withStore);
    } else {
      ManyLinesHaveTicks(g, inst, withStore);
    }
    r := PrintLines(g, inst, withStore, n);
  }

  lemma CountIs(g: Grid, fetch: nat, last: nat, span: nat)
    requires g.Valid() && fetch <= last && span == g.width * g.cycle
    ensures span > 0
    ensures NumLines(g, fetch, last) == if last - fetch < span then 1 else (last - fetch / span * span) / span + 1
  {
    assert span == g.Span();
  }

  lemma LineAt(g: Grid, inst: Inst, withStore: bool, n: nat, k: nat)
    requires g.Valid() && k < n
    ensures LinesUpTo(g, inst, withStore, n)[k] == LineOf(g, inst, withStore, k)
  {
  }

  /** How many lines an instruction gets: one if it lives for less than a line, else all from
      the one with its fetch to the one with its last event. */
  lemma LinesPrinted(g: Grid, inst: Inst, withStore: bool)
    requires g.Valid()
    ensures
      var span, last := g.width * g.cycle, LastTick(inst, withStore);
      && span > 0
      && NumLines(g, inst.fetch, Last(Ticks(inst, withStore)))
         == (if last - inst.fetch < span then 1 else (last - inst.fetch / span * span) / span + 1)
  {
    LastIs(inst, withStore);
    CountIs(g, inst.fetch, LastTick(inst, withStore), g.width * g.cycle);
  }

  lemma ManyLinesHaveTicks(g: Grid, inst: Inst, withStore: bool)
    requires g.Valid() && NumLines(g, inst.fetch, Last(Ticks(inst, withStore))) > 1
    ensures !NoTicks(Ticks(inst, withStore))
  {
    assert Last(Ticks(inst, withStore)) in Ticks(inst, withStore);
  }

  method GatherEvents(g: Grid, t: seq<nat>, start: nat, end: nat) returns (events: seq<Event>)
    requires g.Valid()
    ensures events == EventsOn(g, t, start, end, |t|)
  {
    events := [];
    for k := 0 to |t|
      invariant events == EventsOn(g, t, start, end, k)
    {
      var tick := t[k];
      if tick != 0 {
        if start <= tick < end {
          events := events + [Event(tick % g.Span(), k, tick)];
        }
      }
    }
  }

  lemma {:induction false} EventsOnHasAll(g: Grid, t: seq<nat>, start: nat, end: nat, n: nat, k: nat)
    requires g.Valid() && k < n <= |t| && t[k] != 0 && start <= t[k] < end
    ensures Event(t[k] % g.Span(), k, t[k]) in EventsOn(g, t, start, end, n)
  {
    if k < n - 1 {
      EventsOnHasAll(g, t, start, end, n - 1, k);
    }
  }

  lemma {:induction false} NoTicksNoEvents(g: Grid, t: seq<nat>, start: nat, end: nat, n: nat)
    requires g.Valid() && n <= |t| && NoTicks(t)
    ensures EventsOn(g, t, start, end, n) == []
  {
    if n == 0 {
    } else {
      NoTicksNoEvents(g, t, start, end, n - 1);
    }
  }

  lemma EmptyMeansNoTicks(g: Grid, inst: Inst, withStore: bool)
    requires g.Valid() && NumLines(g, inst.fetch, Last(Ticks(inst, withStore))) == 1
    ensures RawEvents(g, inst, withStore, 0) == [] <==> NoTicks(Ticks(inst, withStore))
  {
    var t := Ticks(inst, withStore);
    var start, end := LineStart(g, inst.fetch, 0), LineEnd(g, inst.fetch, Last(t), 0);
    if NoTicks(t) {
      NoTicksNoEvents(g, t, start, end, |t|);
    } else {
      HasLastEvent(g, t, inst.fetch);
    }
  }

  lemma HasLastEvent(g: Grid, t: seq<nat>, fetch: nat)
    requires g.Valid() && !NoTicks(t) && fetch <= Last(t) && NumLines(g, fetch, Last(t)) == 1
    ensures EventsOn(g, t, LineStart(g, fetch, 0), LineEnd(g, fetch, Last(t), 0), |t|) != []
  {
    var k :| 0 <= k < |t| && t[k] == Last(t);
    CompactHoldsLast(g, fetch, Last(t));
    EventsOnHasAll(g, t, LineStart(g, fetch, 0), LineEnd(g, fetch, Last(t), 0), |t|, k);
  }

  lemma CompactHoldsLast(g: Grid, fetch: nat, last: nat)
    requires g.Valid() && fetch <= last && NumLines(g, fetch, last) == 1
    ensures last - fetch < g.Span()
    ensures OnLine(g, fetch, last, 0, last)
  {
    var d := last - g.Base(fetch);
    assert d == d / g.Span() * g.Span() + d % g.Span();
  }

  // ---- Every event is drawn on exactly one line ----

  /** A tick lies on some line if and only if it is not before the first line. */
  lemma OnSomeLine(g: Grid, fetch: nat, last: nat, tick: nat)
    requires g.Valid() && fetch <= last && tick <= last
    ensures (exists i :: 0 <= i < NumLines(g, fetch, last) && OnLine(g, fetch, last, i, tick))
       <==> g.Base(fetch) <= tick
  {
    if g.Base(fetch) <= tick {
      if NumLines(g, fetch, last) == 1 {
        CompactHoldsLast(g, fetch, last);
        assert OnLine(g, fetch, last, 0, tick);
      } else {
        LongLineOf(g, fetch, last, tick);
      }
    } else {
      forall i | 0 <= i < NumLines(g, fetch, last) ensures !OnLine(g, fetch, last, i, tick) {
        NotBeforeBase(g, fetch, last, i, tick);
      }
    }
  }

  lemma NotBeforeBase(g: Grid, fetch: nat, last: nat, i: nat, tick: nat)
    requires g.Valid() && fetch <= last && i < NumLines(g, fetch, last) && tick < g.Base(fetch)
    ensures !OnLine(g, fetch, last, i, tick)
  {
    LineStartFromBase(g, fetch, i);
  }

  lemma LineStartFromBase(g: Grid, fetch: nat, i: nat)
    requires g.Valid()
    ensures g.Base(fetch) <= LineStart(g, fetch, i)
  {
    MulMono(0, i, g.Span());
  }

  /** No tick lies on two lines. */
  lemma OnOneLineOnly(g: Grid, fetch: nat, last: nat, i: nat, j: nat, tick: nat)
    requires g.Valid() && fetch <= last
    requires i < NumLines(g, fetch, last) && OnLine(g, fetch, last, i, tick)
    requires j < NumLines(g, fetch, last) && OnLine(g, fetch, last, j, tick)
    ensures i == j
  {
    if NumLines(g, fetch, last) > 1 {
      LongLineUnique(g, fetch, last, i, tick);
      LongLineUnique(g, fetch, last, j, tick);
    }
  }

  lemma LongLineOf(g: Grid, fetch: nat, last: nat, tick: nat)
    requires g.Valid() && fetch <= last && g.Base(fetch) <= tick <= last && NumLines(g, fetch, last) > 1
    ensures
      var i := (tick - g.Base(fetch)) / g.Span();
      i < NumLines(g, fetch, last) && OnLine(g, fetch, last, i, tick)
  {
    var d := tick - g.Base(fetch);
    assert d == d / g.Span() * g.Span() + d % g.Span();
    DivMono(d, last - g.Base(fetch), g.Span());
  }

  lemma LongLineUnique(g: Grid, fetch: nat, last: nat, i: nat, tick: nat)
    requires g.Valid() && fetch <= last && NumLines(g, fetch, last) > 1
    requires OnLine(g, fetch, last, i, tick)
    ensures i == (tick - g.Base(fetch)) / g.Span()
  {
    DivModUnique(tick - g.Base(fetch), g.Span(), i, tick - LineStart(g, fetch, i));
  }

  /** A stage is drawn on line `i` exactly when it was reached, is not a suppressed
      dispatch, and its tick lies on that line. */
  lemma DrawnExactlyWhere(g: Grid, inst: Inst, withStore: bool, i: nat, stage: nat)
    requires g.Valid() && stage < |Ticks(inst, withStore)|
    ensures
      var t := Ticks(inst, withStore);
      var e := Event(t[stage] % g.Span(), stage, t[stage]);
      e in DrawnOn(g, inst, withStore, i)
      <==> t[stage] != 0 && Drawn(inst)(e) && OnLine(g, inst.fetch, Last(t), i, t[stage])
  {
    var t := Ticks(inst, withStore);
    var e := Event(t[stage] % g.Span(), stage, t[stage]);
    var raw := RawEvents(g, inst, withStore, i);
    SortMembers(raw, Before);
    FilterMembers(Sort(raw, Before), Drawn(inst));
    if t[stage] != 0 && OnLine(g, inst.fetch, Last(t), i, t[stage]) {
      EventsOnHasAll(g, t, LineStart(g, inst.fetch, i), LineEnd(g, inst.fetch, Last(t), i), |t|, stage);
    }
  }

  lemma DrawnMember(g: Grid, inst: Inst, withStore: bool, i: nat, e: Event)
    requires g.Valid() && e in DrawnOn(g, inst, withStore, i)
    ensures e.offset == e.tick % g.Span()
    ensures LineStart(g, inst.fetch, i) <= e.tick < LineEnd(g, inst.fetch, Last(Ticks(inst, withStore)), i)
  {
    var raw := RawEvents(g, inst, withStore, i);
    SortMembers(raw, Before);
    FilterMembers(Sort(raw, Before), Drawn(inst));
    assert e in raw;
  }

  // ---- The column and the label locate the tick ----

  lemma LineStartAligned(g: Grid, fetch: nat, i: nat)
    requires g.Valid()
    ensures LineStart(g, fetch, i) % g.Span() == 0
  {
    var s := g.Span();
    assert g.Base(fetch) == fetch / s * s;
    assert LineStart(g, fetch, i) == (fetch / s + i) * s;
    MultipleMod(fetch / s + i, s);
  }

  lemma Locate(g: Grid, start: nat, e: Event)
    requires g.Valid() && start % g.Span() == 0
    requires start <= e.tick < start + g.Span() && e.offset == e.tick % g.Span()
    ensures start + Column(g, e) * g.cycle <= e.tick < start + Column(g, e) * g.cycle + g.cycle
  {
    SplitOffset(g, start, e.tick - start);
    assert e.offset == Column(g, e) * g.cycle + e.offset % g.cycle;
  }

  lemma NextLineStart(g: Grid, fetch: nat, i: nat)
    requires g.Valid()
    ensures LineStart(g, fetch, i + 1) == LineStart(g, fetch, i) + g.Span()
  {
    assert (i + 1) * g.Span() == i * g.Span() + g.Span();
  }

  /** In the long form an event stands in the cycle counted from the line's label; in
      compact form possibly one line width later. */
  lemma ColumnLocatesTick(g: Grid, inst: Inst, withStore: bool, i: nat, e: Event)
    requires g.Valid() && e in DrawnOn(g, inst, withStore, i)
    ensures
      var cycleStart := LineStart(g, inst.fetch, i) + Column(g, e) * g.cycle;
      || cycleStart <= e.tick < cycleStart + g.cycle
      || (NumLines(g, inst.fetch, Last(Ticks(inst, withStore))) == 1
          && cycleStart + g.Span() <= e.tick < cycleStart + g.Span() + g.cycle)
  {
    DrawnMember(g, inst, withStore, i, e);
    LineStartAligned(g, inst.fetch, i);
    LineStartAligned(g, inst.fetch, i + 1);
    NextLineStart(g, inst.fetch, i);
    if e.tick < LineStart(g, inst.fetch, i + 1) {
      Locate(g, LineStart(g, inst.fetch, i), e);
    } else {
      Locate(g, LineStart(g, inst.fetch, i + 1), e);
    }
  }

  // ---- The length of a line ----

  /** Events drawn in the same cycle as the one before them. */
  function Shared(g: Grid, es: seq<Event>): nat
    requires g.Valid()
  {
    if |es| <= 1 then 0
    else Shared(g, es[..|es| - 1]) + if Column(g, es[|es| - 2]) == Column(g, es[|es| - 1]) then 1 else 0
  }

  lemma LengthStep(g: Grid, fs: seq<Event>, e: Event, dot: char, pos: nat)
    requires g.Valid() && DrawnUpTo(g, fs, pos) && e.offset < g.Span()
    requires fs != [] ==> fs[|fs| - 1].offset <= e.offset
    ensures DrawnUpTo(g, fs + [e], Column(g, e) + 1)
    ensures |Columns(g, fs + [e], dot, Column(g, e) + 1)|
         == |Columns(g, fs, dot, pos)| + (if Column(g, e) < pos then 1 else Column(g, e) + 1 - pos)
    ensures Column(g, e) < pos <==> fs != [] && Column(g, fs[|fs| - 1]) == Column(g, e)
  {
    DrawOne(g, fs, e, dot, pos);
    if fs != [] {
      ColumnMonotone(g, fs[|fs| - 1], e);
    }
  }

  lemma SharedSnoc(g: Grid, fs: seq<Event>, e: Event)
    requires g.Valid()
    ensures Shared(g, fs + [e])
         == Shared(g, fs) + if fs != [] && Column(g, fs[|fs| - 1]) == Column(g, e) then 1 else 0
  {
    assert (fs + [e])[..|fs|] == fs;
  }

  lemma InitLast(es: seq<Event>) returns (fs: seq<Event>, e: Event)
    requires es != []
    ensures fs == es[..|es| - 1] && e == es[|es| - 1] && fs + [e] == es
    ensures fs != [] ==> |es| > 1 && fs[|fs| - 1] == es[|es| - 2]
  {
    fs, e := es[..|es| - 1], es[|es| - 1];
  }

  lemma LengthSnoc(g: Grid, fs: seq<Event>, e: Event, dot: char, pos: nat) returns (end: nat)
    requires g.Valid() && DrawnUpTo(g, fs, pos) && e.offset < g.Span()
    requires |Columns(g, fs, dot, pos)| == pos + Shared(g, fs)
    requires fs != [] ==> fs[|fs| - 1].offset <= e.offset
    ensures DrawnUpTo(g, fs + [e], end)
    ensures |Columns(g, fs + [e], dot, end)| == end + Shared(g, fs + [e])
  {
    var more := fs + [e];
    end := Column(g, e) + 1;
    SharedSnoc(g, fs, e);
    LengthStep(g, fs, e, dot, pos);
    assert |Columns(g, more, dot, end)| == end + Shared(g, more);
  }

  lemma {:induction false} LengthUpTo(g: Grid, es: seq<Event>, dot: char) returns (end: nat)
    requires g.Valid() && Drawable(g, es)
    ensures DrawnUpTo(g, es, end)
    ensures |Columns(g, es, dot, end)| == end + Shared(g, es)
  {
    if es == [] {
      end := 0;
    } else {
      var fs, e := InitLast(es);
      var pos := LengthUpTo(g, fs, dot);
      end := LengthSnoc(g, fs, e, dot, pos);
    }
  }

  lemma DrawnIsDrawable(g: Grid, inst: Inst, withStore: bool, i: nat)
    requires g.Valid()
    ensures Drawable(g, DrawnOn(g, inst, withStore, i))
  {
    var raw := RawEvents(g, inst, withStore, i);
    var es := DrawnOn(g, inst, withStore, i);
    BeforeOrders();
    SortThenFilter(raw, Before, Drawn(inst));
    SortOrders(Filter(raw, Drawn(inst)), Before);
    forall k | 0 <= k < |es| ensures es[k].offset < g.Span() {
      DrawnMember(g, inst, withStore, i, es[k]);
    }
    OrderedIsDrawable(g, es);
  }

  /** A line is as wide as asked for, plus one character for each event that shares its
      cycle with the one drawn before it. */
  lemma LineLength(g: Grid, inst: Inst, withStore: bool, i: nat)
    requires g.Valid()
    ensures |LineOf(g, inst, withStore, i).body| == g.width + Shared(g, DrawnOn(g, inst, withStore, i))
  {
    var es := DrawnOn(g, inst, withStore, i);
    DrawnIsDrawable(g, inst, withStore, i);
    var end := LengthUpTo(g, es, Dot(inst));
    EmptyColumns(g, es, Dot(inst), end, g.width);
  }

  lemma {:induction false} NoneShared(g: Grid, es: seq<Event>)
    requires g.Valid() && forall k, l :: 0 <= k < l < |es| ==> Column(g, es[k]) != Column(g, es[l])
    ensures Shared(g, es) == 0
  {
    if |es| > 1 {
      NoneShared(g, es[..|es| - 1]);
    }
  }

  lemma AlignedOffset(g: Grid, e: Event)
    requires g.Valid() && e.offset == e.tick % g.Span() && e.tick % g.cycle == 0
    ensures e.offset == Column(g, e) * g.cycle
  {
    var q := e.tick / g.Span();
    assert e.tick == q * g.Span() + e.offset;
    assert e.tick == e.tick / g.cycle * g.cycle;
    assert q * g.Span() == (q * g.width) * g.cycle;
    assert e.offset == (e.tick / g.cycle - q * g.width) * g.cycle;
    if e.tick / g.cycle - q * g.width < 0 {
      MulBound(e.tick / g.cycle - q * g.width, g.cycle);
    }
    MultipleMod(e.tick / g.cycle - q * g.width, g.cycle);
  }

  lemma SameOffsetSameTick(g: Grid, a: nat, b: nat)
    requires g.Valid() && a % g.Span() == b % g.Span() && a <= b < a + g.Span()
    ensures a == b
  {
    var s := g.Span();
    assert a == a / s * s + a % s && b == b / s * s + b % s;
    assert (b / s - a / s) * s == b - a;
    MulBound(b / s - a / s, s);
  }

  lemma SameColumnSameTick(g: Grid, a: Event, b: Event)
    requires g.Valid() && a.offset == a.tick % g.Span() && b.offset == b.tick % g.Span()
    requires a.tick % g.cycle == 0 && b.tick % g.cycle == 0 && Column(g, a) == Column(g, b)
    requires a.tick < b.tick + g.Span() && b.tick < a.tick + g.Span()
    ensures a.tick == b.tick
  {
    AlignedOffset(g, a);
    AlignedOffset(g, b);
    if a.tick <= b.tick {
      SameOffsetSameTick(g, a.tick, b.tick);
    } else {
      SameOffsetSameTick(g, b.tick, a.tick);
    }
  }

  /** A compact line is exactly `width` wide when its events are at distinct whole cycles
      from the fetch on. */
  lemma CompactWidth(g: Grid, inst: Inst, withStore: bool)
    requires g.Valid() && NumLines(g, inst.fetch, Last(Ticks(inst, withStore))) == 1
    requires
      var es := DrawnOn(g, inst, withStore, 0);
      && (forall k :: 0 <= k < |es| ==> es[k].tick >= inst.fetch && es[k].tick % g.cycle == 0)
      && (forall k, l :: 0 <= k < l < |es| ==> es[k].tick != es[l].tick)
    ensures |LineOf(g, inst, withStore, 0).body| == g.width
  {
    var es := DrawnOn(g, inst, withStore, 0);
    forall k, l | 0 <= k < l < |es| ensures Column(g, es[k]) != Column(g, es[l]) {
      DrawnMember(g, inst, withStore, 0, es[k]);
      DrawnMember(g, inst, withStore, 0, es[l]);
      if Column(g, es[k]) == Column(g, es[l]) {
        SameColumnSameTick(g, es[k], es[l]);
      }
    }
    NoneShared(g, es);
    LineLength(g, inst, withStore, 0);
  }

  // ---- What a line shows, stage by stage ----

  /** The last tick of any stage. */
  function LastTick(inst: Inst, withStore: bool): nat {
    var m := Max(inst.fetch, Max(inst.decode, Max(inst.rename, Max(inst.dispatch,
             Max(inst.issue, Max(inst.complete, inst.retire))))));
    if withStore then Max(m, inst.store) else m
  }

  /** `tick` is drawn in cycle `c` of line `i`: lines are as long as the span from the start of
      the one with the fetch on, and the only line of an instruction shorter than that wraps
      round to its own start. */
  predicate DrawnAt(g: Grid, inst: Inst, withStore: bool, i: nat, tick: nat, c: nat)
    requires g.Valid() && g.width * g.cycle > 0
  {
    var span := g.width * g.cycle;
    var start := inst.fetch / span * span + i * span;
    && tick != 0
    && start <= tick < start + span + (if LastTick(inst, withStore) - inst.fetch < span then inst.fetch % span else 0)
    && tick % span / g.cycle == c
  }

  /** The letters in a cycle are those of the stages drawn in it; dispatch is left out when it
      coincides with issue.  A cycle without any shows whether the instruction retired. */
  ghost predicate Shows(g: Grid, inst: Inst, withStore: bool, i: nat, c: nat, cell: string)
    requires g.Valid() && g.width * g.cycle > 0
  {
    && ('f' in cell <==> DrawnAt(g, inst, withStore, i, inst.fetch, c))
    && ('d' in cell <==> DrawnAt(g, inst, withStore, i, inst.decode, c))
    && ('n' in cell <==> DrawnAt(g, inst, withStore, i, inst.rename, c))
    && ('p' in cell <==> inst.dispatch != inst.issue && DrawnAt(g, inst, withStore, i, inst.dispatch, c))
    && ('i' in cell <==> DrawnAt(g, inst, withStore, i, inst.issue, c))
    && ('c' in cell <==> DrawnAt(g, inst, withStore, i, inst.complete, c))
    && ('r' in cell <==> DrawnAt(g, inst, withStore, i, inst.retire, c))
    && ('s' in cell <==> withStore && DrawnAt(g, inst, withStore, i, inst.store, c))
    && (cell == (if inst.retire == 0 then "=" else ".") || forall x <- cell :: x in "fdnpicrs")
    && cell != ""
  }

  lemma LastIs(inst: Inst, withStore: bool)
    ensures Last(Ticks(inst, withStore)) == LastTick(inst, withStore)
  {
    var t := Ticks(inst, withStore);
    assert t[1] == inst.decode && t[2] == inst.rename && t[3] == inst.dispatch;
    assert t[4] == inst.issue && t[5] == inst.complete && t[6] == inst.retire;
    assert withStore ==> t[7] == inst.store;
    var m := Last(t);
    var k :| 0 <= k < |t| && t[k] == m;
  }

  lemma CompactExactly(g: Grid, fetch: nat, last: nat)
    requires g.Valid() && fetch <= last
    ensures NumLines(g, fetch, last) == 1 <==> last - fetch < g.Span()
  {
    if last - fetch >= g.Span() {
      DivMono(g.Span(), last - g.Base(fetch), g.Span());
      MultipleMod(1, g.Span());
    }
  }

  lemma BoundsAre(g: Grid, fetch: nat, last: nat, i: nat, span: nat)
    requires g.Valid() && fetch <= last && span == g.width * g.cycle && span > 0
    ensures LineStart(g, fetch, i) == fetch / span * span + i * span
    ensures LineEnd(g, fetch, last, i)
         == LineStart(g, fetch, i) + span + if last - fetch < span then fetch % span else 0
  {
    CompactExactly(g, fetch, last);
    assert fetch == fetch / span * span + fetch % span;
  }

  lemma LineBounds(g: Grid, inst: Inst, withStore: bool, i: nat, tick: nat, c: nat)
    requires g.Valid() && g.width * g.cycle > 0
    ensures inst.fetch <= Last(Ticks(inst, withStore))
    ensures DrawnAt(g, inst, withStore, i, tick, c)
       <==> && tick != 0 && OnLine(g, inst.fetch, Last(Ticks(inst, withStore)), i, tick)
            && tick % g.Span() / g.cycle == c
  {
    LastIs(inst, withStore);
    BoundsAre(g, inst.fetch, Last(Ticks(inst, withStore)), i, g.width * g.cycle);
  }

  lemma {:induction false} LettersHave(g: Grid, es: seq<Event>, c: nat, x: char)
    requires g.Valid()
    ensures x in Letters(g, es, c) <==> exists k :: 0 <= k < |es| && Column(g, es[k]) == c && Letter(es[k]) == x
  {
    if es == [] {
    } else {
      var init := es[..|es| - 1];
      LettersHave(g, init, c, x);
      if x in Letters(g, init, c) {
        var k :| 0 <= k < |init| && Column(g, init[k]) == c && Letter(init[k]) == x;
        assert es[k] == init[k];
      }
      if k :| 0 <= k < |es| && Column(g, es[k]) == c && Letter(es[k]) == x {
        assert k < |init| ==> init[k] == es[k];
      }
    }
  }

  lemma DifferentLetters(a: nat, b: nat)
    requires a < 8 && b < 8 && LETTERS[a] == LETTERS[b]
    ensures a == b
  {
  }

  lemma DrawnStage(g: Grid, inst: Inst, withStore: bool, i: nat, e: Event)
    requires g.Valid() && e in DrawnOn(g, inst, withStore, i)
    ensures
      var t := Ticks(inst, withStore);
      e.stage < |t| && e == Event(t[e.stage] % g.Span(), e.stage, t[e.stage])
  {
    var raw := RawEvents(g, inst, withStore, i);
    SortMembers(raw, Before);
    FilterMembers(Sort(raw, Before), Drawn(inst));
    assert e in raw;
  }

  /** A stage's letter is in a cycle exactly when its tick is drawn there. */
  lemma LetterShown(g: Grid, inst: Inst, withStore: bool, i: nat, c: nat, stage: nat, x: char)
    requires g.Valid() && g.width * g.cycle > 0 && stage < 8 && x == LETTERS[stage]
    ensures
      var t := Ticks(inst, withStore);
      x in Letters(g, DrawnOn(g, inst, withStore, i), c)
      <==> && stage < |t| && !(stage == DISPATCH && inst.dispatch == inst.issue)
           && DrawnAt(g, inst, withStore, i, t[stage], c)
  {
    var t, es := Ticks(inst, withStore), DrawnOn(g, inst, withStore, i);
    LettersHave(g, es, c, x);
    if stage < |t| {
      DrawnExactlyWhere(g, inst, withStore, i, stage);
      LineBounds(g, inst, withStore, i, t[stage], c);
    }
    if k :| 0 <= k < |es| && Column(g, es[k]) == c && Letter(es[k]) == x {
      DrawnStage(g, inst, withStore, i, es[k]);
      DifferentLetters(es[k].stage, stage);
    }
    if stage < |t| && Event(t[stage] % g.Span(), stage, t[stage]) in es {
      var e := Event(t[stage] % g.Span(), stage, t[stage]);
      var k :| 0 <= k < |es| && es[k] == e;
    }
  }

  lemma CellHas(g: Grid, es: seq<Event>, dot: char, c: nat, x: char)
    requires g.Valid() && x != dot
    ensures x in Cell(g, es, dot, c) <==> x in Letters(g, es, c)
  {
  }

  lemma {:induction false} LettersAreLetters(g: Grid, es: seq<Event>, c: nat)
    requires g.Valid() && forall k :: 0 <= k < |es| ==> es[k].stage < 8
    ensures forall x <- Letters(g, es, c) :: x in "fdnpicrs"
  {
    if es == [] {
    } else {
      LettersAreLetters(g, es[..|es| - 1], c);
      assert Letter(es[|es| - 1]) in LETTERS;
    }
  }

  /** One stage of one cycle. */
  lemma StageShown(g: Grid, inst: Inst, withStore: bool, i: nat, c: nat, stage: nat, x: char)
    requires g.Valid() && g.width * g.cycle > 0 && stage < 8 && x == LETTERS[stage]
    ensures
      var t := Ticks(inst, withStore);
      x in Cell(g, DrawnOn(g, inst, withStore, i), Dot(inst), c)
      <==> && stage < |t| && !(stage == DISPATCH && inst.dispatch == inst.issue)
           && DrawnAt(g, inst, withStore, i, t[stage], c)
  {
    assert LETTERS[stage] in "fdnpicrs" && '=' !in "fdnpicrs" && '.' !in "fdnpicrs";
    CellHas(g, DrawnOn(g, inst, withStore, i), Dot(inst), c, x);
    LetterShown(g, inst, withStore, i, c, stage, x);
  }

  lemma OnlyLetters(g: Grid, inst: Inst, withStore: bool, i: nat, c: nat)
    requires g.Valid()
    ensures
      var cell := Cell(g, DrawnOn(g, inst, withStore, i), Dot(inst), c);
      cell == (if inst.retire == 0 then "=" else ".") || forall x <- cell :: x in "fdnpicrs"
  {
    var es := DrawnOn(g, inst, withStore, i);
    forall k | 0 <= k < |es| ensures es[k].stage < 8 {
      DrawnStage(g, inst, withStore, i, es[k]);
    }
    LettersAreLetters(g, es, c);
  }

  lemma TickShown(g: Grid, inst: Inst, withStore: bool, i: nat, c: nat, stage: nat, x: char, tick: nat, cell: string)
    requires g.Valid() && g.width * g.cycle > 0 && stage < |Ticks(inst, withStore)| && x == LETTERS[stage]
    requires tick == Ticks(inst, withStore)[stage] && !(stage == DISPATCH && inst.dispatch == inst.issue)
    requires cell == Cell(g, DrawnOn(g, inst, withStore, i), Dot(inst), c)
    ensures x in cell <==> DrawnAt(g, inst, withStore, i, tick, c)
  {
    StageShown(g, inst, withStore, i, c, stage, x);
  }

  lemma FirstStages(g: Grid, inst: Inst, withStore: bool, i: nat, c: nat, cell: string)
    requires g.Valid() && g.width * g.cycle > 0 && cell == Cell(g, DrawnOn(g, inst, withStore, i), Dot(inst), c)
    ensures 'f' in cell <==> DrawnAt(g, inst, withStore, i, inst.fetch, c)
    ensures 'd' in cell <==> DrawnAt(g, inst, withStore, i, inst.decode, c)
    ensures 'n' in cell <==> DrawnAt(g, inst, withStore, i, inst.rename, c)
  {
    TickShown(g, inst, withStore, i, c, 0, 'f', inst.fetch, cell);
    TickShown(g, inst, withStore, i, c, 1, 'd', inst.decode, cell);
    TickShown(g, inst, withStore, i, c, 2, 'n', inst.rename, cell);
  }

  lemma LaterStages(g: Grid, inst: Inst, withStore: bool, i: nat, c: nat, cell: string)
    requires g.Valid() && g.width * g.cycle > 0 && cell == Cell(g, DrawnOn(g, inst, withStore, i), Dot(inst), c)
    ensures 'i' in cell <==> DrawnAt(g, inst, withStore, i, inst.issue, c)
    ensures 'c' in cell <==> DrawnAt(g, inst, withStore, i, inst.complete, c)
    ensures 'r' in cell <==> DrawnAt(g, inst, withStore, i, inst.retire, c)
  {
    TickShown(g, inst, withStore, i, c, 4, 'i', inst.issue, cell);
    TickShown(g, inst, withStore, i, c, 5, 'c', inst.complete, cell);
    TickShown(g, inst, withStore, i, c, 6, 'r', inst.retire, cell);
  }

  lemma SometimesShown(g: Grid, inst: Inst, withStore: bool, i: nat, c: nat, cell: string)
    requires g.Valid() && g.width * g.cycle > 0 && cell == Cell(g, DrawnOn(g, inst, withStore, i), Dot(inst), c)
    ensures 'p' in cell <==> inst.dispatch != inst.issue && DrawnAt(g, inst, withStore, i, inst.dispatch, c)
    ensures 's' in cell <==> withStore && DrawnAt(g, inst, withStore, i, inst.store, c)
  {
    StageShown(g, inst, withStore, i, c, 3, 'p');
    StageShown(g, inst, withStore, i, c, 7, 's');
  }

  lemma CellShows(g: Grid, inst: Inst, withStore: bool, i: nat, c: nat, cell: string)
    requires g.Valid() && g.width * g.cycle > 0 && cell == Cell(g, DrawnOn(g, inst, withStore, i), Dot(inst), c)
    ensures Shows(g, inst, withStore, i, c, cell)
  {
    FirstStages(g, inst, withStore, i, c, cell);
    LaterStages(g, inst, withStore, i, c, cell);
    SometimesShown(g, inst, withStore, i, c, cell);
    OnlyLetters(g, inst, withStore, i, c);
  }

  lemma {:induction false} ColumnsAreCells(g: Grid, es: seq<Event>, dot: char, n: nat) returns (cells: seq<string>)
    requires g.Valid()
    ensures |cells| == n && Concat(cells) == Columns(g, es, dot, n)
    ensures forall c :: 0 <= c < n ==> cells[c] == Cell(g, es, dot, c)
  {
    if n == 0 {
      cells := [];
    } else {
      var init := ColumnsAreCells(g, es, dot, n - 1);
      ConcatSnoc(init, Cell(g, es, dot, n - 1));
      cells := init + [Cell(g, es, dot, n - 1)];
    }
  }

  /** A line, in terms of the instruction alone: one cell for each cycle, showing the letters of
      the stages whose ticks fall into it, and labelled with the tick it starts at. */
  lemma LineShows(g: Grid, inst: Inst, withStore: bool, i: nat) returns (cells: seq<string>)
    requires g.Valid() && g.width * g.cycle > 0
    ensures |cells| == g.width && LineOf(g, inst, withStore, i).body == Concat(cells)
    ensures forall c :: 0 <= c < g.width ==> Shows(g, inst, withStore, i, c, cells[c])
    ensures
      var span := g.width * g.cycle;
      LineOf(g, inst, withStore, i).at == inst.fetch / span * span + i * span
  {
    var es := DrawnOn(g, inst, withStore, i);
    cells := ColumnsAreCells(g, es, Dot(inst), g.width);
    forall c | 0 <= c < g.width ensures Shows(g, inst, withStore, i, c, cells[c]) {
      CellShows(g, inst, withStore, i, c, cells[c]);
    }
    LastIs(inst, withStore);
    BoundsAre(g, inst.fetch, Last(Ticks(inst, withStore)), i, g.width * g.cycle);
  }

  // ---- The order of events ----

  const NAMES := ["fetch", "decode", "rename", "dispatch", "issue", "complete", "retire", "store"]
  const ALPHABETICAL := ["complete", "decode", "dispatch", "fetch", "issue", "rename", "retire", "store"]

  lemma NextName(i: nat)
    requires i < 7
    ensures TextBefore(ALPHABETICAL[i], ALPHABETICAL[i + 1])
  {
    assert "decode"[1..] == "ecode" && "dispatch"[1..] == "ispatch";
    assert "rename"[1..] == "ename" && "retire"[1..] == "etire";
    assert "ename"[1..] == "name" && "etire"[1..] == "tire";
    assert TextBefore("name", "tire") && TextBefore("ename", "etire");
  }

  lemma {:induction false} NamesInOrder(i: nat, j: nat)
    requires i <= j < 8
    ensures TextBefore(ALPHABETICAL[i], ALPHABETICAL[j])
    decreases j
  {
    if i == j {
      TextTotal(ALPHABETICAL[i], ALPHABETICAL[i]);
    } else {
      NamesInOrder(i, j - 1);
      NextName(j - 1);
      TextTransitive(ALPHABETICAL[i], ALPHABETICAL[j - 1], ALPHABETICAL[j]);
    }
  }

  lemma RankIsName(a: Event, b: Event)
    requires a.stage < 8 && b.stage < 8 && Rank(a) <= Rank(b)
    ensures TextBefore(NAMES[a.stage], NAMES[b.stage])
  {
    assert NAMES[a.stage] == ALPHABETICAL[RANKS[a.stage]] && NAMES[b.stage] == ALPHABETICAL[RANKS[b.stage]];
    NamesInOrder(RANKS[a.stage], RANKS[b.stage]);
  }

  /** Events are drawn from left to right by their place in the line, and those at the same
      place in the alphabetical order of the stages' names. */
  lemma DrawnLeftToRight(g: Grid, inst: Inst, withStore: bool, i: nat, k: nat, l: nat)
    requires g.Valid() && k < l < |DrawnOn(g, inst, withStore, i)|
    ensures
      var a, b := DrawnOn(g, inst, withStore, i)[k], DrawnOn(g, inst, withStore, i)[l];
      && a.stage < 8 && b.stage < 8
      && a.tick % (g.width * g.cycle) <= b.tick % (g.width * g.cycle)
      && (a.tick % (g.width * g.cycle) == b.tick % (g.width * g.cycle) ==>
            TextBefore(NAMES[a.stage], NAMES[b.stage]))
  {
    var raw, es := RawEvents(g, inst, withStore, i), DrawnOn(g, inst, withStore, i);
    BeforeOrders();
    SortThenFilter(raw, Before, Drawn(inst));
    SortOrders(Filter(raw, Drawn(inst)), Before);
    assert Before(es[k], es[l]);
    DrawnStage(g, inst, withStore, i, es[k]);
    DrawnStage(g, inst, withStore, i, es[l]);
    if es[k].offset == es[l].offset {
      RankIsName(es[k], es[l]);
    }
  }
}
