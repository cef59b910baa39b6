/** Reading a pipeline trace (process_trace in util/o3-pipeview.py).

The simulator writes seven lines for an instruction when it retires or is squashed, mixed
with other debug output.  The reader skips to the start of the requested range, assembles
one instruction per retire line and hands it to the reorder buffer, and stops a little
after the end of the range.
 */
module PipeTrace {
  import opened Sorting
  import opened PipeQueue

  datatype Stage = Decode | Rename | Dispatch | Issue | Complete

  /** A line after `split(":")`; `Other` is any line not from O3PipeView. */
  datatype Line =
    | Other
    | FetchLine(tick: nat, pc: string, upc: string, sn: nat, disasm: string)
    | StageLine(stage: Stage, tick: nat)
    | RetireLine(tick: nat, store: nat)

  function IsFetch(): Line -> bool {
    (l: Line) => l.FetchLine?
  }

  function ReachesTick(tick: nat): Line -> bool {
    (l: Line) => !l.Other? && l.tick >= tick
  }

  function ReachesSn(sn: nat): Line -> bool {
    (l: Line) => l.FetchLine? && l.sn >= sn
  }

  /** The lines from the first one satisfying `p` on. */
  function From(lines: seq<Line>, p: Line -> bool): seq<Line> {
    if lines == [] || p(lines[0]) then lines else From(lines[1..], p)
  }

  function Entry(o: Options, lines: seq<Line>): seq<Line> {
    var reached :=
      if o.tickStart != 0 then From(lines, ReachesTick(o.tickStart))
      else if o.snStart != 0 then From(lines, ReachesSn(o.snStart))
      else lines;
    From(reached, IsFetch())
  }

  /** Far enough past the end of the range for reading to stop. */
  predicate Past(o: Options, tick: nat, sn: nat) {
    || (o.tickStop > 0 && tick > o.tickStop + o.tickDrift)
    || (o.snStop > 0 && sn > o.snStop + o.maxThreshold)
  }

  function SetStage(i: Inst, stage: Stage, tick: nat): Inst {
    match stage
    case Decode => i.(decode := tick)
    case Rename => i.(rename := tick)
    case Dispatch => i.(dispatch := tick)
    case Issue => i.(issue := tick)
    case Complete => i.(complete := tick)
  }

  function Fetched(i: Inst, l: Line): Inst
    requires l.FetchLine?
  {
    i.(fetch := l.tick, pc := l.pc, upc := l.upc, sn := l.sn, disasm := l.disasm)
  }

  function RetiredInst(o: Options, i: Inst, tick: nat, store: nat): Inst {
    i.(retire := tick,
       disasm := if tick == 0 then "-----" + i.disasm else i.disasm,
       store := if o.storeCompletions then store else i.store)
  }

  const NOTHING := Inst(0, "", "", "", 0, 0, 0, 0, 0, 0, 0, 0)

  predicate Stops(o: Options, l: Line) {
    l.FetchLine? && Past(o, l.tick, l.sn)
  }

  /** The instruction in progress after one more line. */
  function Next(o: Options, cur: Inst, l: Line): Inst {
    match l
    case Other => cur
    case FetchLine(_, _, _, _, _) => Fetched(cur, l)
    case StageLine(stage, tick) => SetStage(cur, stage, tick)
    case RetireLine(tick, store) => RetiredInst(o, cur, tick, store)
  }

  /** The instructions queued while reading `lines`, `cur` being the one in progress. */
  function Scan(o: Options, lines: seq<Line>, cur: Inst): seq<Inst> {
    if lines == [] || Stops(o, lines[0]) then []
    else
      var next := Next(o, cur, lines[0]);
      var rest := Scan(o, lines[1..], next);
      if lines[0].RetireLine? then [next] + rest else rest
  }

  function Queued(o: Options, lines: seq<Line>): seq<Inst> {
    Scan(o, Entry(o, lines), NOTHING)
  }

  method SkipTo(lines: seq<Line>, from: nat, p: Line -> bool) returns (i: nat)
    requires from <= |lines|
    ensures from <= i <= |lines|
    ensures lines[i..] == From(lines[from..], p)
  {
    i := from;
    while i < |lines| && !p(lines[i])
      invariant from <= i <= |lines|
      invariant From(lines[i..], p) == From(lines[from..], p)
    {
      assert lines[i..][1..] == lines[i + 1..];
      i := i + 1;
    }
  }

  method ProcessTrace(o: Options, lines: seq<Line>) returns (printed: seq<Inst>)
    ensures printed == Filter(PopOrder(o, Queued(o, lines)), Shown(o))
    ensures forall i: Inst ::
      multiset(printed)[i]
      == (if && (o.snStart > 0 ==> o.snStart <= i.sn) && (o.snStop > 0 ==> i.sn <= o.snStop)
             && (o.tickStart > 0 ==> o.tickStart <= i.fetch) && (o.tickStop > 0 ==> i.fetch <= o.tickStop)
             && (o.onlyCommitted ==> i.retire != 0)
          then multiset(Queued(o, lines))[i] else 0)
  {
    var at := 0;
    assert lines[0..] == lines;
    if o.tickStart != 0 {
      at := SkipTo(lines, 0, ReachesTick(o.tickStart));
    } else if o.snStart != 0 {
      at := SkipTo(lines, 0, ReachesSn(o.snStart));
    }
    at := SkipTo(lines, at, IsFetch());
    assert lines[at..] == Entry(o, lines);
    var q := new PrintQueue(o);
    ReadRegion(q, lines, at);
    printed := q.printed;
    PrintedExactly(o, q.popped, printed);
    PopsEachOnce(o, Queued(o, lines));
  }

  /** One line that does not stop the reader. */
  method ReadLine(q: PrintQueue, cur: Inst, l: Line, ghost done: seq<Inst>) returns (next: Inst)
    requires q.Valid() && q.View() == EnqueueAll(q.o, done)
    modifies q
    ensures next == Next(q.o, cur, l)
    ensures q.Valid()
    ensures q.View() == EnqueueAll(q.o, if l.RetireLine? then done + [next] else done)
  {
    match l {
      case Other =>
        next := cur;
      case FetchLine(tick, pc, upc, sn, disasm) =>
        next := cur.(fetch := tick, pc := pc, upc := upc, sn := sn, disasm := disasm);
      case StageLine(stage, tick) =>
        next := SetStage(cur, stage, tick);
      case RetireLine(tick, store) =>
        next := RetiredInst(q.o, cur, tick, store);
        q.QueueInst(next);
        EnqueueSnoc(q.o, done, next);
    }
  }

  lemma ScanStep(o: Options, lines: seq<Line>, at: nat, cur: Inst, done: seq<Inst>)
    requires at < |lines| && !Stops(o, lines[at])
    ensures
      var next := Next(o, cur, lines[at]);
      done + Scan(o, lines[at..], cur)
      == (if lines[at].RetireLine? then done + [next] else done) + Scan(o, lines[at + 1..], next)
  {
    assert lines[at..][1..] == lines[at + 1..];
    var next := Next(o, cur, lines[at]);
    var rest := Scan(o, lines[at + 1..], next);
    assert done + ([next] + rest) == (done + [next]) + rest;
  }

  /** The region-of-interest loop. */
  method ReadRegion(q: PrintQueue, lines: seq<Line>, from: nat)
    requires from <= |lines| && q.Valid() && q.View() == EMPTY
    modifies q
    ensures q.Valid() && q.popped == PopOrder(q.o, Scan(q.o, lines[from..], NOTHING))
  {
    var cur := NOTHING;
    var at := from;
    ghost var done: seq<Inst> := [];
    ghost var all := Scan(q.o, lines[from..], NOTHING);
    assert [] + all == all;
    while at < |lines| && !(lines[at].FetchLine? && Past(q.o, lines[at].tick, lines[at].sn))
      invariant from <= at <= |lines| && q.Valid()
      invariant q.View() == EnqueueAll(q.o, done)
      invariant done + Scan(q.o, lines[at..], cur) == all
    {
      ScanStep(q.o, lines, at, cur, done);
      var l := lines[at];
      cur := ReadLine(q, cur, l, done);
      done := if l.RetireLine? then done + [cur] else done;
      at := at + 1;
    }
    assert Scan(q.o, lines[at..], cur) == [];
    assert done + [] == done;
    q.PrintInsts(0);
  }

  // ---- Well-formed traces ----

  /** The lines the simulator writes for one instruction. */
  function Group(i: Inst): seq<Line> {
    [FetchLine(i.fetch, i.pc, i.upc, i.sn, i.disasm)] + GroupTail(i)
  }

  function GroupTail(i: Inst): seq<Line> {
    [StageLine(Decode, i.decode), StageLine(Rename, i.rename), StageLine(Dispatch, i.dispatch),
     StageLine(Issue, i.issue), StageLine(Complete, i.complete), RetireLine(i.retire, i.store)]
  }

  function Groups(insts: seq<Inst>): seq<Line> {
    if insts == [] then [] else Group(insts[0]) + Groups(insts[1..])
  }

  function Traced(): Line -> bool {
    (l: Line) => !l.Other?
  }

  /** `lines` holds exactly the lines of `insts`, with other output anywhere in between. */
  ghost predicate Spells(lines: seq<Line>, insts: seq<Inst>) {
    Filter(lines, Traced()) == Groups(insts)
  }

  /** What the viewer keeps of an instruction: squashed ones are marked, and store
      completions are kept only when asked for. */
  function Recorded(o: Options, i: Inst): Inst {
    i.(disasm := if i.retire == 0 then "-----" + i.disasm else i.disasm,
       store := if o.storeCompletions then i.store else 0)
  }

  function RecordAll(o: Options, insts: seq<Inst>): seq<Inst> {
    seq(|insts|, (k: nat) requires k < |insts| => Recorded(o, insts[k]))
  }

  // ---- Other output is ignored ----

  lemma FilterCons(l: Line, lines: seq<Line>)
    ensures Filter([l] + lines, Traced()) == (if l.Other? then [] else [l]) + Filter(lines, Traced())
  {
    FilterConcat([l], lines, Traced());
    FilterSnoc([], l, Traced());
    assert [] + [l] == [l];
  }

  lemma {:induction false} FromIgnoresOther(lines: seq<Line>, p: Line -> bool)
    requires !p(Other)
    ensures Filter(From(lines, p), Traced()) == From(Filter(lines, Traced()), p)
  {
    if lines == [] {
    } else {
      assert lines == [lines[0]] + lines[1..];
      FilterCons(lines[0], lines[1..]);
      FromIgnoresOther(lines[1..], p);
      if !lines[0].Other? {
        var rest := Filter(lines[1..], Traced());
        assert ([lines[0]] + rest)[1..] == rest;
      } else {
        assert [] + Filter(lines[1..], Traced()) == Filter(lines[1..], Traced());
      }
    }
  }

  lemma {:induction false} ScanIgnoresOther(o: Options, lines: seq<Line>, cur: Inst)
    ensures Scan(o, lines, cur) == Scan(o, Filter(lines, Traced()), cur)
  {
    if lines == [] {
    } else {
      var l, rest := lines[0], Filter(lines[1..], Traced());
      assert lines == [l] + lines[1..];
      FilterCons(l, lines[1..]);
      ScanIgnoresOther(o, lines[1..], Next(o, cur, l));
      if l.Other? {
        assert [] + rest == rest;
      } else {
        assert ([l] + rest)[1..] == rest;
      }
    }
  }

  lemma QueuedIgnoresOther(o: Options, lines: seq<Line>)
    ensures Queued(o, lines) == Queued(o, Filter(lines, Traced()))
  {
    FromIgnoresOther(lines, ReachesTick(o.tickStart));
    FromIgnoresOther(lines, ReachesSn(o.snStart));
    var reached :=
      if o.tickStart != 0 then From(lines, ReachesTick(o.tickStart))
      else if o.snStart != 0 then From(lines, ReachesSn(o.snStart))
      else lines;
    FromIgnoresOther(reached, IsFetch());
    ScanIgnoresOther(o, Entry(o, lines), NOTHING);
  }

  // ---- Skipping to the start loses nothing that would be printed ----

  lemma {:induction false} FromPrefix(a: seq<Line>, b: seq<Line>, p: Line -> bool)
    requires forall k :: 0 <= k < |a| ==> !p(a[k])
    ensures From(a + b, p) == From(b, p)
  {
    if a == [] {
      assert a + b == b;
    } else {
      assert (a + b)[1..] == a[1..] + b;
      FromPrefix(a[1..], b, p);
    }
  }

  lemma GroupsStartWithFetch(insts: seq<Inst>)
    ensures From(Groups(insts), IsFetch()) == Groups(insts)
  {
  }

  /** Wherever in a group the starting point falls, reading resumes at the next fetch. */
  lemma {:induction false} ResumeAfter(tail: seq<Line>, rest: seq<Inst>, p: Line -> bool)
    requires forall k :: 0 <= k < |tail| ==> !tail[k].FetchLine?
    ensures From(From(tail + Groups(rest), p), IsFetch()) == Groups(rest)
         || From(From(tail + Groups(rest), p), IsFetch()) == From(From(Groups(rest), p), IsFetch())
  {
    if tail == [] {
      assert tail + Groups(rest) == Groups(rest);
    } else if p(tail[0]) {
      FromPrefix(tail, Groups(rest), IsFetch());
      GroupsStartWithFetch(rest);
    } else {
      assert (tail + Groups(rest))[1..] == tail[1..] + Groups(rest);
      ResumeAfter(tail[1..], rest, p);
    }
  }

  lemma SkipGroup(i: Inst, rest: seq<Inst>, p: Line -> bool)
    requires !p(Group(i)[0])
    ensures From(From(Group(i) + Groups(rest), p), IsFetch()) == Groups(rest)
         || From(From(Group(i) + Groups(rest), p), IsFetch()) == From(From(Groups(rest), p), IsFetch())
  {
    assert (Group(i) + Groups(rest))[1..] == GroupTail(i) + Groups(rest);
    ResumeAfter(GroupTail(i), rest, p);
  }

  lemma {:induction false} FromGroups(insts: seq<Inst>, p: Line -> bool) returns (a: nat)
    ensures a <= |insts|
    ensures From(From(Groups(insts), p), IsFetch()) == Groups(insts[a..])
    ensures forall k :: 0 <= k < a ==> !p(Group(insts[k])[0])
  {
    a := 0;
    if insts == [] {
      return;
    }
    assert insts[0..] == insts;
    if p(Group(insts[0])[0]) {
      return;
    }
    SkipGroup(insts[0], insts[1..], p);
    var b := FromGroups(insts[1..], p);
    if From(From(Groups(insts), p), IsFetch()) == Groups(insts[1..]) {
      a := 1;
    } else {
      a := b + 1;
      assert insts[1..][b..] == insts[a..];
      forall k | 0 <= k < a ensures !p(Group(insts[k])[0]) {
        if k > 0 {
          assert insts[k] == insts[1..][k - 1];
        }
      }
    }
  }

  lemma EntryOfGroups(o: Options, insts: seq<Inst>) returns (a: nat)
    ensures a <= |insts|
    ensures Entry(o, Groups(insts)) == Groups(insts[a..])
    ensures forall k :: 0 <= k < a ==> !Shown(o)(insts[k])
  {
    if o.tickStart != 0 {
      a := FromGroups(insts, ReachesTick(o.tickStart));
    } else if o.snStart != 0 {
      a := FromGroups(insts, ReachesSn(o.snStart));
    } else {
      a := 0;
      assert insts[0..] == insts;
      GroupsStartWithFetch(insts);
    }
  }

  // ---- Assembling instructions ----

  lemma ScanGroup(o: Options, i: Inst, rest: seq<Line>, cur: Inst)
    requires !Past(o, i.fetch, i.sn) && (o.storeCompletions || cur.store == 0)
    ensures Scan(o, Group(i) + rest, cur) == [Recorded(o, i)] + Scan(o, rest, Recorded(o, i))
  {
    var l0 := Group(i) + rest;
    var l1 := l0[1..];
    var l2 := l1[1..];
    var l3 := l2[1..];
    var l4 := l3[1..];
    var l5 := l4[1..];
    var l6 := l5[1..];
    assert l6[1..] == rest;
    var c1 := Next(o, cur, l0[0]);
    assert Scan(o, l0, cur) == Scan(o, l1, c1);
    var c2 := Next(o, c1, l1[0]);
    assert Scan(o, l1, c1) == Scan(o, l2, c2);
    var c3 := Next(o, c2, l2[0]);
    assert Scan(o, l2, c2) == Scan(o, l3, c3);
    var c4 := Next(o, c3, l3[0]);
    assert Scan(o, l3, c3) == Scan(o, l4, c4);
    var c5 := Next(o, c4, l4[0]);
    assert Scan(o, l4, c4) == Scan(o, l5, c5);
    var c6 := Next(o, c5, l5[0]);
    assert Scan(o, l5, c5) == Scan(o, l6, c6);
    var c7 := Next(o, c6, l6[0]);
    assert c7 == Recorded(o, i);
  }

  /** Reading groups queues them one by one, up to the first far past the range. */
  lemma {:induction false} ScanGroups(o: Options, insts: seq<Inst>, cur: Inst) returns (b: nat)
    requires o.storeCompletions || cur.store == 0
    ensures b <= |insts|
    ensures Scan(o, Groups(insts), cur) == RecordAll(o, insts[..b])
    ensures b < |insts| ==> Past(o, insts[b].fetch, insts[b].sn)
  {
    if insts == [] || Past(o, insts[0].fetch, insts[0].sn) {
      b := 0;
    } else {
      ScanGroup(o, insts[0], Groups(insts[1..]), cur);
      var c := ScanGroups(o, insts[1..], Recorded(o, insts[0]));
      b := c + 1;
      assert RecordAll(o, insts[..b]) == [Recorded(o, insts[0])] + RecordAll(o, insts[1..][..c]);
    }
  }

  // ---- The whole viewer ----

  /** Nothing is fetched later than something that follows it by more than `d` ticks. */
  ghost predicate TickDriftWithin(insts: seq<Inst>, d: nat) {
    forall i, j :: 0 <= i < j < |insts| ==> insts[i].fetch <= insts[j].fetch + d
  }

  /** The same of sequence numbers. */
  ghost predicate SnDriftWithin(insts: seq<Inst>, d: nat) {
    forall i, j :: 0 <= i < j < |insts| ==> insts[i].sn <= insts[j].sn + d
  }

  ghost predicate DriftWithin(o: Options, insts: seq<Inst>, ticks: nat, sns: nat) {
    && (o.tickStop > 0 ==> TickDriftWithin(insts, ticks))
    && (o.snStop > 0 ==> SnDriftWithin(insts, sns))
  }

  /** The documented assumption on the end of the range. */
  ghost predicate DriftBounded(o: Options, insts: seq<Inst>) {
    DriftWithin(o, insts, o.tickDrift, o.maxThreshold)
  }

  lemma PastHidesRest(o: Options, insts: seq<Inst>, b: nat, k: nat)
    requires DriftBounded(o, insts) && b <= k < |insts|
    requires Past(o, insts[b].fetch, insts[b].sn)
    ensures !Shown(o)(insts[k])
  {
  }

  lemma DisplacedSlice(xs: seq<Inst>, a: nat, b: nat, d: nat)
    requires a <= b <= |xs| && DisplacedAtMost(xs, d)
    ensures DisplacedAtMost(xs[a..b], d)
  {
    forall j | 0 <= j < b - a ensures Displacement(xs[a..b], j) <= d {
      assert Displacement(xs, a + j) <= d;
      assert xs[..a + j] == xs[..a] + xs[a..b][..j];
      FilterConcat(xs[..a], xs[a..b][..j], Above(xs[a + j].sn));
    }
  }

  lemma ThreeParts(xs: seq<Inst>, a: nat, b: nat)
    requires a <= b <= |xs|
    ensures xs == xs[..a] + xs[a..b] + xs[b..]
  {
  }

  lemma FilterMiddle(xs: seq<Inst>, a: nat, b: nat, p: Inst -> bool)
    requires a <= b <= |xs|
    requires forall k :: 0 <= k < |xs| && !(a <= k < b) ==> !p(xs[k])
    ensures Filter(xs, p) == Filter(xs[a..b], p)
  {
    ThreeParts(xs, a, b);
    FilterNone(xs[..a], p);
    FilterNone(xs[b..], p);
    FilterBetween(xs[..a], xs[a..b], xs[b..], p);
  }

  lemma HiddenEnds(o: Options, xs: seq<Inst>, a: nat, b: nat)
    requires a <= b <= |xs|
    requires forall k :: 0 <= k < |xs| && !(a <= k < b) ==> !Shown(o)(xs[k])
    ensures Filter(Sort(xs[a..b], BySn), Shown(o)) == Filter(Sort(xs, BySn), Shown(o))
  {
    BySnOrders();
    SortThenFilter(xs, BySn, Shown(o));
    SortThenFilter(xs[a..b], BySn, Shown(o));
    FilterMiddle(xs, a, b, Shown(o));
  }

  lemma QueuedSlice(o: Options, lines: seq<Line>, insts: seq<Inst>) returns (a: nat, b: nat)
    requires Spells(lines, insts) && DriftBounded(o, insts)
    ensures a <= b <= |insts|
    ensures Queued(o, lines) == RecordAll(o, insts)[a..b]
    ensures forall k :: 0 <= k < |insts| && !(a <= k < b) ==> !Shown(o)(RecordAll(o, insts)[k])
  {
    QueuedIgnoresOther(o, lines);
    a := EntryOfGroups(o, insts);
    var c := ScanGroups(o, insts[a..], NOTHING);
    b := a + c;
    assert RecordAll(o, insts[a..][..c]) == RecordAll(o, insts)[a..b];
    if b < |insts| {
      assert insts[b] == insts[a..][c];
    }
    HiddenOutside(o, insts, a, b);
  }

  lemma HiddenOutside(o: Options, insts: seq<Inst>, a: nat, b: nat)
    requires DriftBounded(o, insts) && a <= b <= |insts| && forall k :: 0 <= k < a ==> !Shown(o)(insts[k])
    requires b < |insts| ==> Past(o, insts[b].fetch, insts[b].sn)
    ensures forall k :: 0 <= k < |insts| && !(a <= k < b) ==> !Shown(o)(RecordAll(o, insts)[k])
  {
    forall k | 0 <= k < |insts| && !(a <= k < b) ensures !Shown(o)(RecordAll(o, insts)[k]) {
      if b <= k {
        PastHidesRest(o, insts, b, k);
      }
    }
  }

  /** For every trace whose instructions are not displaced by more than `minThreshold`
      places and do not drift past the end of the range, the viewer prints what one would
      get by reading everything, sorting it by sequence number and filtering. */
  lemma ViewerSortsThenFilters(o: Options, lines: seq<Line>, insts: seq<Inst>)
    requires Spells(lines, insts)
    requires DisplacedAtMost(RecordAll(o, insts), o.minThreshold)
    requires DriftBounded(o, insts)
    ensures Filter(PopOrder(o, Queued(o, lines)), Shown(o))
         == Filter(Sort(RecordAll(o, insts), BySn), Shown(o))
  {
    var a, b := QueuedSlice(o, lines, insts);
    var all := RecordAll(o, insts);
    DisplacedSlice(all, a, b, o.minThreshold);
    PopsInOrder(o, all[a..b]);
    HiddenEnds(o, all, a, b);
  }

  /** The instructions of the trace that are in the ranges asked for and, if asked for,
      committed, and that print as `x`: as they are, but squashed ones marked, and store
      completions only if asked for. */
  function PrintsAs(o: Options, x: Inst): Inst -> bool {
    (i: Inst) =>
      && (o.snStart > 0 ==> i.sn >= o.snStart) && (o.snStop > 0 ==> i.sn <= o.snStop)
      && (o.tickStart > 0 ==> i.fetch >= o.tickStart) && (o.tickStop > 0 ==> i.fetch <= o.tickStop)
      && (o.onlyCommitted ==> i.retire != 0)
      && x == Inst(i.sn, i.pc, i.upc, (if i.retire == 0 then "-----" else "") + i.disasm,
                   i.fetch, i.decode, i.rename, i.dispatch, i.issue, i.complete, i.retire,
                   if o.storeCompletions then i.store else 0)
  }

  function ShownAs(o: Options, x: Inst): Inst -> bool {
    (y: Inst) => Shown(o)(y) && y == x
  }

  lemma PrintsAsRecorded(o: Options, x: Inst, i: Inst)
    ensures PrintsAs(o, x)(i) <==> ShownAs(o, x)(Recorded(o, i))
  {
    assert "" + i.disasm == i.disasm;
    var r := Recorded(o, i);
    assert r == Inst(i.sn, i.pc, i.upc, (if i.retire == 0 then "-----" else "") + i.disasm,
                     i.fetch, i.decode, i.rename, i.dispatch, i.issue, i.complete, i.retire,
                     if o.storeCompletions then i.store else 0);
    assert PrintsAs(o, x)(i) <==> Shown(o)(i) && x == r;
    assert Shown(o)(i) <==> Shown(o)(r);
  }

  lemma {:induction false} CountShown(o: Options, s: seq<Inst>, x: Inst)
    ensures |Filter(s, ShownAs(o, x))| == if Shown(o)(x) then multiset(s)[x] else 0
  {
    if s == [] {
    } else {
      var init, y := s[..|s| - 1], s[|s| - 1];
      CountShown(o, init, x);
      assert s == init + [y];
      FilterSnoc(init, y, ShownAs(o, x));
    }
  }

  lemma RecordSnoc(o: Options, init: seq<Inst>, i: Inst)
    ensures RecordAll(o, init + [i]) == RecordAll(o, init) + [Recorded(o, i)]
  {
  }

  lemma {:induction false} CountRecorded(o: Options, insts: seq<Inst>, x: Inst)
    ensures |Filter(RecordAll(o, insts), ShownAs(o, x))| == |Filter(insts, PrintsAs(o, x))|
  {
    if insts == [] {
    } else {
      var init, i := insts[..|insts| - 1], insts[|insts| - 1];
      assert insts == init + [i];
      RecordSnoc(o, init, i);
      CountRecorded(o, init, x);
      PrintsAsRecorded(o, x, i);
      FilterSnoc(RecordAll(o, init), Recorded(o, i), ShownAs(o, x));
      FilterSnoc(init, i, PrintsAs(o, x));
    }
  }

  /** What the viewer prints of a trace within the bounds, in terms of the trace alone: in
      order of sequence number, and each record as often as an instruction prints as it. */
  lemma ViewerPrints(o: Options, lines: seq<Line>, insts: seq<Inst>, printed: seq<Inst>, x: Inst)
    requires Spells(lines, insts)
    requires DisplacedAtMost(RecordAll(o, insts), o.minThreshold)
    requires DriftBounded(o, insts)
    requires printed == Filter(PopOrder(o, Queued(o, lines)), Shown(o))
    ensures forall a, b :: 0 <= a < b < |printed| ==> printed[a].sn <= printed[b].sn
    ensures multiset(printed)[x] == |Filter(insts, PrintsAs(o, x))|
  {
    var all := RecordAll(o, insts);
    ViewerSortsThenFilters(o, lines, insts);
    PrintedOrder(o, all, printed);
    FilterCounts(Sort(all, BySn), Shown(o), x);
    SortPermutes(all, BySn);
    CountShown(o, all, x);
    CountRecorded(o, insts, x);
  }

  lemma PrintedOrder(o: Options, all: seq<Inst>, printed: seq<Inst>)
    requires printed == Filter(Sort(all, BySn), Shown(o))
    ensures forall a, b :: 0 <= a < b < |printed| ==> printed[a].sn <= printed[b].sn
  {
    BySnOrders();
    SortOrders(all, BySn);
    FilterKeepsOrder(Sort(all, BySn), BySn, Shown(o));
    forall a, b | 0 <= a < b < |printed| ensures printed[a].sn <= printed[b].sn {
      assert BySn(printed[a], printed[b]);
    }
  }

  // ---- The drift cannot be improved either ----

  ghost predicate SortedAndFiltered(o: Options, lines: seq<Line>, insts: seq<Inst>) {
    Filter(PopOrder(o, Queued(o, lines)), Shown(o)) == Filter(Sort(RecordAll(o, insts), BySn), Shown(o))
  }

  /** A trace of the displacement and the drifts allowed for. */
  ghost predicate TraceWithin(o: Options, lines: seq<Line>, insts: seq<Inst>, ticks: nat, sns: nat) {
    && Spells(lines, insts)
    && DisplacedAtMost(RecordAll(o, insts), o.minThreshold)
    && DriftWithin(o, insts, ticks, sns)
  }

  ghost predicate Tolerates(o: Options, ticks: nat, sns: nat) {
    forall lines, insts :: TraceWithin(o, lines, insts, ticks, sns) ==> SortedAndFiltered(o, lines, insts)
  }

  /** Some instruction is in the range asked for. */
  predicate NonEmptyRange(o: Options) {
    (o.tickStop > 0 ==> o.tickStart <= o.tickStop) && (o.snStop > 0 ==> o.snStart <= o.snStop)
  }

  function Retired(sn: nat, fetch: nat): Inst {
    Inst(sn, "", "", "", fetch, 0, 0, 0, 0, 0, 1, 0)
  }

  /** An instruction past the range hides the one after it, although that is in the range. */
  lemma HidesNext(o: Options, a: Inst, b: Inst)
    requires Past(o, a.fetch, a.sn) && a.fetch >= o.tickStart && a.sn >= o.snStart
    requires Shown(o)(b)
    ensures Spells(Groups([a, b]), [a, b]) && !SortedAndFiltered(o, Groups([a, b]), [a, b])
  {
    var lines := Groups([a, b]);
    GroupsTraced([a, b]);
    assert lines[0] == FetchLine(a.fetch, a.pc, a.upc, a.sn, a.disasm);
    assert Entry(o, lines) == lines;
    assert Queued(o, lines) == [];
    assert PopOrder(o, []) == [];
    var all := RecordAll(o, [a, b]);
    assert all[1] == Recorded(o, b);
    SortMembers(all, BySn);
    FilterMembers(Sort(all, BySn), Shown(o));
    assert all[1] in Sort(all, BySn) && Shown(o)(all[1]);
  }

  lemma {:induction false} GroupsTraced(insts: seq<Inst>)
    ensures Filter(Groups(insts), Traced()) == Groups(insts)
  {
    if insts == [] {
    } else {
      GroupsTraced(insts[1..]);
      AllTraced(Group(insts[0]));
      FilterConcat(Group(insts[0]), Groups(insts[1..]), Traced());
    }
  }

  lemma {:induction false} AllTraced(lines: seq<Line>)
    requires forall k :: 0 <= k < |lines| ==> !lines[k].Other?
    ensures Filter(lines, Traced()) == lines
  {
    if lines == [] {
    } else {
      AllTraced(lines[..|lines| - 1]);
    }
  }

  lemma PairDisplaced(o: Options, a: Inst, b: Inst)
    requires b.sn < a.sn ==> o.minThreshold >= 1
    ensures DisplacedAtMost(RecordAll(o, [a, b]), o.minThreshold)
  {
    var xs := RecordAll(o, [a, b]);
    forall j | 0 <= j < |xs| ensures Displacement(xs, j) <= o.minThreshold {
      if j == 0 {
        assert xs[..0] == [];
      } else {
        assert xs[..1] == [Recorded(o, a)];
        FilterSnoc([], Recorded(o, a), Above(xs[1].sn));
        assert [] + [Recorded(o, a)] == [Recorded(o, a)];
      }
    }
  }

  lemma TickDriftNeeded(o: Options, ticks: nat, sns: nat)
    requires NonEmptyRange(o) && o.tickStop > 0 && ticks > o.tickDrift
    ensures !Tolerates(o, ticks, sns)
  {
    var a, b := Retired(o.snStart, o.tickStop + o.tickDrift + 1), Retired(o.snStart, o.tickStop);
    HidesNext(o, a, b);
    PairDisplaced(o, a, b);
    assert TraceWithin(o, Groups([a, b]), [a, b], ticks, sns);
  }

  lemma SnDriftNeeded(o: Options, ticks: nat, sns: nat)
    requires NonEmptyRange(o) && o.snStop > 0 && sns > o.maxThreshold && o.minThreshold >= 1
    ensures !Tolerates(o, ticks, sns)
  {
    var a, b := Retired(o.snStop + o.maxThreshold + 1, o.tickStart), Retired(o.snStop, o.tickStart);
    HidesNext(o, a, b);
    PairDisplaced(o, a, b);
    assert TraceWithin(o, Groups([a, b]), [a, b], ticks, sns);
  }

  /** Where nothing is displaced, sequence numbers do not drift. */
  lemma UndisplacedInOrder(o: Options, insts: seq<Inst>, d: nat)
    requires DisplacedAtMost(RecordAll(o, insts), 0)
    ensures SnDriftWithin(insts, d)
  {
    var xs := RecordAll(o, insts);
    forall i, j | 0 <= i < j < |insts| ensures insts[i].sn <= insts[j].sn + d {
      assert Displacement(xs, j) <= 0;
      FilterMembers(xs[..j], Above(xs[j].sn));
      assert xs[..j][i] == xs[i] && xs[i] in xs[..j];
    }
  }

  lemma WithinTolerated(o: Options, lines: seq<Line>, insts: seq<Inst>, ticks: nat, sns: nat)
    requires TraceWithin(o, lines, insts, ticks, sns)
    requires o.tickStop > 0 ==> ticks <= o.tickDrift
    requires o.snStop > 0 ==> sns <= o.maxThreshold || o.minThreshold == 0
    ensures SortedAndFiltered(o, lines, insts)
  {
    if o.minThreshold == 0 {
      UndisplacedInOrder(o, insts, o.maxThreshold);
    }
    ViewerSortsThenFilters(o, lines, insts);
  }

  /** Both documented bounds are the exact ones.  For a range that is not empty, the viewer is
      right on every trace that drifts by at most `ticks` ticks and `sns` sequence numbers if
      and only if neither exceeds what reading past the end allows for; sequence numbers
      cannot drift at all where no displacement is allowed. */
  lemma DriftToleratedExactly(o: Options, ticks: nat, sns: nat)
    requires NonEmptyRange(o)
    ensures Tolerates(o, ticks, sns)
       <==> && (o.tickStop > 0 ==> ticks <= o.tickDrift)
            && (o.snStop > 0 ==> sns <= o.maxThreshold || o.minThreshold == 0)
  {
    if o.tickStop > 0 && ticks > o.tickDrift {
      TickDriftNeeded(o, ticks, sns);
    } else if o.snStop > 0 && sns > o.maxThreshold && o.minThreshold > 0 {
      SnDriftNeeded(o, ticks, sns);
    } else {
      forall lines, insts | TraceWithin(o, lines, insts, ticks, sns) ensures SortedAndFiltered(o, lines, insts) {
        WithinTolerated(o, lines, insts, ticks, sns);
      }
    }
  }
}
