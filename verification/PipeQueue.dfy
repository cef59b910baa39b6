/** The reorder buffer of the O3 pipeline viewer (util/o3-pipeview.py).

Instructions retire out of order.  They are queued until there are more than
`maxThreshold` of them, then sorted by sequence number and printed until `minThreshold`
are left; the end of the trace prints the rest.
 */
module PipeQueue {
  import opened Sorting

  /** One traced instruction: its identity and the tick of each stage, 0 if not reached. */
  datatype Inst = Inst(
    sn: nat, pc: string, upc: string, disasm: string,
    fetch: nat, decode: nat, rename: nat, dispatch: nat,
    issue: nat, complete: nat, retire: nat, store: nat)

  /** Stop values that are not positive mean no limit. */
  datatype Options = Options(
    minThreshold: nat, maxThreshold: nat, tickDrift: nat,
    tickStart: nat, tickStop: int, snStart: nat, snStop: int,
    onlyCommitted: bool, storeCompletions: bool)

  predicate BySn(a: Inst, b: Inst) {
    a.sn <= b.sn
  }

  /** The instructions inside the requested ranges. */
  function Shown(o: Options): Inst -> bool {
    (i: Inst) =>
      && (o.snStart > 0 ==> o.snStart <= i.sn)
      && (o.snStop > 0 ==> i.sn <= o.snStop)
      && (o.tickStart > 0 ==> o.tickStart <= i.fetch)
      && (o.tickStop > 0 ==> i.fetch <= o.tickStop)
      && (o.onlyCommitted ==> i.retire != 0)
  }

  /** The queue, and everything popped from it so far. */
  datatype State = State(queue: seq<Inst>, popped: seq<Inst>)

  const EMPTY := State([], [])

  function PopDown(s: State, lower: nat): State {
    var k := if |s.queue| > lower then |s.queue| - lower else 0;
    State(s.queue[k..], s.popped + s.queue[..k])
  }

  function Drain(s: State, lower: nat): State {
    PopDown(State(Sort(s.queue, BySn), s.popped), lower)
  }

  function Enqueue(o: Options, s: State, x: Inst): State {
    var t := State(s.queue + [x], s.popped);
    if |t.queue| > o.maxThreshold then Drain(t, o.minThreshold) else t
  }

  function EnqueueAll(o: Options, xs: seq<Inst>): State {
    if xs == [] then EMPTY
    else Enqueue(o, EnqueueAll(o, xs[..|xs| - 1]), xs[|xs| - 1])
  }

  lemma EnqueueSnoc(o: Options, xs: seq<Inst>, x: Inst)
    ensures EnqueueAll(o, xs + [x]) == Enqueue(o, EnqueueAll(o, xs), x)
  {
    assert (xs + [x])[..|xs|] == xs;
  }

  /** Everything popped by the time the trace ends, in order. */
  function PopOrder(o: Options, xs: seq<Inst>): seq<Inst> {
    Drain(EnqueueAll(o, xs), 0).popped
  }

  lemma TakeMore(a: seq<Inst>, q: seq<Inst>, k: nat)
    requires k < |q|
    ensures a + q[..k] + [q[k]] == a + q[..k + 1] && q[k..][1..] == q[k + 1..]
  {
    assert q[..k] + [q[k]] == q[..k + 1];
  }

  /** The global `insts` dictionary, and the output file as the instructions printed. */
  class PrintQueue {
    const o: Options
    var queue: seq<Inst>
    var printed: seq<Inst>
    ghost var popped: seq<Inst>

    ghost predicate Valid()
      reads this
    {
      printed == Filter(popped, Shown(o))
    }

    ghost function View(): State
      reads this
    {
      State(queue, popped)
    }

    constructor (o: Options)
      ensures Valid() && this.o == o && View() == EMPTY
    {
      this.o := o;
      queue, printed, popped := [], [], [];
    }

    method PrintInsts(lower: nat)
      requires Valid()
      modifies this
      ensures Valid() && View() == Drain(old(View()), lower)
    {
      queue := Sort(queue, BySn);
      PrintFront(lower);
    }

    /** The loop of `print_insts`, after the queue has been sorted. */
    method PrintFront(lower: nat)
      requires Valid()
      modifies this
      ensures Valid() && View() == PopDown(old(View()), lower)
    {
      ghost var k, q, before := 0, queue, popped;
      while |queue| > lower
        invariant k <= |q| && (k == 0 || |q| - k >= lower)
        invariant queue == q[k..] && popped == before + q[..k]
        invariant Valid()
      {
        TakeMore(before, q, k);
        var item := queue[0];
        queue := queue[1..];
        PrintItem(item);
        k := k + 1;
      }
    }

    /** One item of the loop in `print_insts`: each `continue` there is a `return` here. */
    method PrintItem(item: Inst)
      requires Valid()
      modifies this`printed, this`popped
      ensures Valid() && popped == old(popped) + [item]
    {
      FilterSnoc(popped, item, Shown(o));
      popped := popped + [item];
      if o.snStart > 0 && item.sn < o.snStart {
        return;
      }
      if o.snStop > 0 && item.sn > o.snStop {
        return;
      }
      if o.tickStart > 0 && item.fetch < o.tickStart {
        return;
      }
      if o.tickStop > 0 && item.fetch > o.tickStop {
        return;
      }
      if o.onlyCommitted && item.retire == 0 {
        return;
      }
      printed := printed + [item];
    }

    method QueueInst(inst: Inst)
      requires Valid()
      modifies this
      ensures Valid() && View() == Enqueue(o, old(View()), inst)
    {
      queue := queue + [inst];
      if |queue| > o.maxThreshold {
        PrintInsts(o.minThreshold);
      }
    }
  }

  /** What is printed: the instructions popped that are in the ranges asked for and, if asked
      for, committed, each as often as it was popped, and nothing else. */
  lemma PrintedExactly(o: Options, popped: seq<Inst>, printed: seq<Inst>)
    requires printed == Filter(popped, Shown(o))
    ensures forall i: Inst ::
      multiset(printed)[i]
      == (if && (o.snStart > 0 ==> o.snStart <= i.sn) && (o.snStop > 0 ==> i.sn <= o.snStop)
             && (o.tickStart > 0 ==> o.tickStart <= i.fetch) && (o.tickStop > 0 ==> i.fetch <= o.tickStop)
             && (o.onlyCommitted ==> i.retire != 0)
          then multiset(popped)[i] else 0)
  {
    forall i: Inst ensures multiset(printed)[i] == if Shown(o)(i) then multiset(popped)[i] else 0 {
      FilterCounts(popped, Shown(o), i);
    }
  }

  // ---- Bounds and conservation, for every trace ----

  function Max(a: nat, b: nat): (m: nat)
    ensures m == a || m == b
    ensures a <= m && b <= m
  {
    if a < b then b else a
  }

  /** Between calls the queue never holds more than the larger threshold, so one append
      takes it to at most one more. */
  lemma {:induction false} QueueBounded(o: Options, xs: seq<Inst>)
    ensures |EnqueueAll(o, xs).queue| <= Max(o.minThreshold, o.maxThreshold)
  {
    if xs == [] {
    } else {
      QueueBounded(o, xs[..|xs| - 1]);
    }
  }

  lemma DrainConserves(s: State, lower: nat, p: Inst -> bool)
    ensures var t := Drain(s, lower);
      |Filter(t.popped, p)| + |Filter(t.queue, p)| == |Filter(s.popped, p)| + |Filter(s.queue, p)|
  {
    var q := Sort(s.queue, BySn);
    var k := if |q| > lower then |q| - lower else 0;
    SortThenFilter(s.queue, BySn, p);
    assert q[..k] + q[k..] == q;
    FilterConcat(q[..k], q[k..], p);
    FilterConcat(s.popped, q[..k], p);
  }

  lemma EnqueueConserves(o: Options, s: State, x: Inst, p: Inst -> bool)
    ensures var t := Enqueue(o, s, x);
      |Filter(t.popped, p)| + |Filter(t.queue, p)|
      == |Filter(s.popped, p)| + |Filter(s.queue, p)| + if p(x) then 1 else 0
  {
    FilterSnoc(s.queue, x, p);
    DrainConserves(State(s.queue + [x], s.popped), o.minThreshold, p);
  }

  /** The last of a trace is queued in the state after the others. */
  lemma LastQueued(o: Options, xs: seq<Inst>) returns (ys: seq<Inst>, x: Inst, s: State)
    requires xs != []
    ensures |ys| == |xs| - 1 && xs == ys + [x]
    ensures s == EnqueueAll(o, ys) && EnqueueAll(o, xs) == Enqueue(o, s, x)
  {
    ys, x := xs[..|xs| - 1], xs[|xs| - 1];
    s := EnqueueAll(o, ys);
  }

  /** Any kind `p` of instruction is popped or still queued as often as it was queued. */
  lemma {:induction false} Conserved(o: Options, xs: seq<Inst>, p: Inst -> bool)
    ensures var s := EnqueueAll(o, xs);
      |Filter(s.popped, p)| + |Filter(s.queue, p)| == |Filter(xs, p)|
    decreases |xs|
  {
    if xs == [] {
    } else {
      var ys, x, s := LastQueued(o, xs);
      Conserved(o, ys, p);
      EnqueueConserves(o, s, x, p);
      FilterSnoc(ys, x, p);
    }
  }

  lemma SplitPermutes(p: seq<Inst>, a: seq<Inst>, b: seq<Inst>)
    ensures multiset(p + a) + multiset(b) == multiset(p) + multiset(a + b)
  {
  }

  lemma PopDownPermutes(s: State, lower: nat)
    ensures var t := PopDown(s, lower);
      multiset(t.popped) + multiset(t.queue) == multiset(s.popped) + multiset(s.queue)
  {
    var k := if |s.queue| > lower then |s.queue| - lower else 0;
    SplitPermutes(s.popped, s.queue[..k], s.queue[k..]);
    assert s.queue[..k] + s.queue[k..] == s.queue;
  }

  lemma DrainPermutes(s: State, lower: nat)
    ensures var t := Drain(s, lower);
      multiset(t.popped) + multiset(t.queue) == multiset(s.popped) + multiset(s.queue)
  {
    PopDownPermutes(State(Sort(s.queue, BySn), s.popped), lower);
    SortPermutes(s.queue, BySn);
  }

  lemma EnqueuePermutes(o: Options, s: State, x: Inst)
    ensures var t := Enqueue(o, s, x);
      multiset(t.popped) + multiset(t.queue) == multiset(s.popped) + multiset(s.queue) + multiset{x}
  {
    DrainPermutes(State(s.queue + [x], s.popped), o.minThreshold);
  }

  lemma {:induction false} PoppedAndQueued(o: Options, xs: seq<Inst>)
    ensures var s := EnqueueAll(o, xs); multiset(s.popped) + multiset(s.queue) == multiset(xs)
    decreases |xs|
  {
    if xs == [] {
    } else {
      var ys, x, s := LastQueued(o, xs);
      PoppedAndQueued(o, ys);
      EnqueuePermutes(o, s, x);
    }
  }

  /** Every queued instruction is popped exactly once by the end. */
  lemma PopsEachOnce(o: Options, xs: seq<Inst>)
    ensures multiset(PopOrder(o, xs)) == multiset(xs)
  {
    var s := EnqueueAll(o, xs);
    PoppedAndQueued(o, xs);
    SortPermutes(s.queue, BySn);
    assert Sort(s.queue, BySn)[..|s.queue|] == Sort(s.queue, BySn);
  }

  // ---- The order of the output ----

  function Above(sn: nat): Inst -> bool {
    (i: Inst) => i.sn > sn
  }

  /** How many instructions with a larger sequence number precede position `j`. */
  function Displacement(xs: seq<Inst>, j: nat): nat
    requires j < |xs|
  {
    |Filter(xs[..j], Above(xs[j].sn))|
  }

  ghost predicate DisplacedAtMost(xs: seq<Inst>, d: nat) {
    forall j :: 0 <= j < |xs| ==> Displacement(xs, j) <= d
  }

  lemma BySnOrders()
    ensures TotalPreorder(BySn)
  {
  }

  lemma SortIsOrdered(xs: seq<Inst>)
    ensures Ordered(Sort(xs, BySn), BySn)
  {
    BySnOrders();
    SortOrders(xs, BySn);
  }

  lemma {:induction false} FilterAll(s: seq<Inst>, p: Inst -> bool)
    requires forall i :: 0 <= i < |s| ==> p(s[i])
    ensures Filter(s, p) == s
  {
    if s == [] {
    } else {
      FilterAll(s[..|s| - 1], p);
      assert s == s[..|s| - 1] + [s[|s| - 1]];
    }
  }

  /** From position `i` of a sorted queue on, all sequence numbers are at least the one
      there. */
  lemma AboveFrom(q: seq<Inst>, i: nat, sn: nat)
    requires i < |q| && Ordered(q, BySn) && q[i].sn > sn
    ensures |Filter(q, Above(sn))| >= |q| - i
  {
    assert q == q[..i] + q[i..];
    FilterConcat(q[..i], q[i..], Above(sn));
    forall k | 0 <= k < |q[i..]| ensures Above(sn)(q[i..][k]) {
      assert k == 0 || BySn(q[i], q[i + k]);
    }
    FilterAll(q[i..], Above(sn));
  }

  lemma PrecedesOne(q: seq<Inst>, m: nat, f: Inst)
    requires Ordered(q, BySn) && |q| > m && |Filter(q, Above(f.sn))| <= m
    ensures BySn(q[|q| - m - 1], f)
  {
    var i := |q| - m - 1;
    if f.sn < q[i].sn {
      AboveFrom(q, i, f.sn);
    }
  }

  lemma OrderedThenLater(q: seq<Inst>, k: nat, fs: seq<Inst>)
    requires Ordered(q, BySn) && 0 < k <= |q|
    requires forall j :: 0 <= j < |fs| ==> BySn(q[k - 1], fs[j])
    ensures EndsBefore(q[..k], q[k..] + fs, BySn)
  {
    forall j | 0 <= j < |q[k..] + fs| ensures BySn(q[k - 1], (q[k..] + fs)[j]) {
      if j < |q[k..]| {
        assert (q[k..] + fs)[j] == q[k + j];
      }
    }
  }

  /** At most `m` of the queue belong after `f`. */
  ghost predicate FewAfter(q: seq<Inst>, m: nat, f: Inst) {
    |Filter(q, Above(f.sn))| <= m
  }

  ghost predicate AllFewAfter(q: seq<Inst>, m: nat, fs: seq<Inst>) {
    forall j {:trigger FewAfter(q, m, fs[j])} :: 0 <= j < |fs| ==> FewAfter(q, m, fs[j])
  }

  /** All but the last `m` of the queue precede the rest and `fs`. */
  ghost predicate FrontBefore(q: seq<Inst>, m: nat, fs: seq<Inst>) {
    var k := if |q| > m then |q| - m else 0;
    EndsBefore(q[..k], q[k..] + fs, BySn)
  }

  /** Of a sorted queue, all but the last `m` precede everything that has at most `m` of the
      queue after it. */
  lemma FrontPrecedes(q: seq<Inst>, m: nat, fs: seq<Inst>)
    requires Ordered(q, BySn) && AllFewAfter(q, m, fs)
    ensures FrontBefore(q, m, fs)
  {
    if |q| > m {
      forall j | 0 <= j < |fs| ensures BySn(q[|q| - m - 1], fs[j]) {
        assert FewAfter(q, m, fs[j]);
        PrecedesOne(q, m, fs[j]);
      }
      OrderedThenLater(q, |q| - m, fs);
    }
  }

  /** What precedes position `j` of the future is the past and the future before it. */
  lemma PastBefore(xs: seq<Inst>, x: Inst, fs: seq<Inst>, j: nat)
    requires j < |fs|
    ensures |Filter(xs + [x], Above(fs[j].sn))| <= Displacement(xs + [x] + fs, |xs| + 1 + j)
  {
    var all, at := xs + [x] + fs, |xs| + 1 + j;
    assert all[at] == fs[j] && all[..at] == xs + [x] + fs[..j];
    FilterConcat(xs + [x], fs[..j], Above(fs[j].sn));
  }

  lemma LargerBeforeFuture(o: Options, xs: seq<Inst>, x: Inst, s: State, p: Inst -> bool)
    requires s == EnqueueAll(o, xs)
    ensures |Filter(Sort(s.queue + [x], BySn), p)| <= |Filter(xs + [x], p)|
  {
    BySnOrders();
    FilterSnoc(xs, x, p);
    FilterSnoc(s.queue, x, p);
    Conserved(o, xs, p);
    SortThenFilter(s.queue + [x], BySn, p);
    SortPermutes(Filter(s.queue + [x], p), BySn);
  }

  lemma FewLarger(o: Options, xs: seq<Inst>, x: Inst, fs: seq<Inst>, all: seq<Inst>, s: State, q: seq<Inst>, j: nat)
    requires all == xs + [x] + fs && DisplacedAtMost(all, o.minThreshold)
    requires s == EnqueueAll(o, xs) && q == Sort(s.queue + [x], BySn) && j < |fs|
    ensures FewAfter(q, o.minThreshold, fs[j])
  {
    LargerBeforeFuture(o, xs, x, s, Above(fs[j].sn));
    PastBefore(xs, x, fs, j);
  }

  lemma AllFewLarger(o: Options, xs: seq<Inst>, x: Inst, fs: seq<Inst>, all: seq<Inst>, s: State, q: seq<Inst>)
    requires all == xs + [x] + fs && DisplacedAtMost(all, o.minThreshold)
    requires s == EnqueueAll(o, xs) && q == Sort(s.queue + [x], BySn)
    ensures AllFewAfter(q, o.minThreshold, fs)
  {
    forall j | 0 <= j < |fs| ensures FewAfter(q, o.minThreshold, fs[j]) {
      FewLarger(o, xs, x, fs, all, s, q, j);
    }
  }

  /** What is popped when `xs` and `x` have been queued precedes everything left. */
  lemma PoppedPrecedeFuture(o: Options, xs: seq<Inst>, x: Inst, fs: seq<Inst>, all: seq<Inst>, s: State, q: seq<Inst>)
    requires all == xs + [x] + fs && DisplacedAtMost(all, o.minThreshold)
    requires s == EnqueueAll(o, xs) && q == Sort(s.queue + [x], BySn)
    ensures FrontBefore(q, o.minThreshold, fs)
  {
    SortIsOrdered(s.queue + [x]);
    AllFewLarger(o, xs, x, fs, all, s, q);
    FrontPrecedes(q, o.minThreshold, fs);
  }

  lemma SplitSorted(a: seq<Inst>, q: seq<Inst>, fs: seq<Inst>, k: nat, p: seq<Inst>)
    requires q == Sort(a, BySn) && k <= |q|
    requires EndsBefore(q[..k], q[k..] + fs, BySn)
    ensures p + Sort(a + fs, BySn) == p + q[..k] + Sort(q[k..] + fs, BySn)
  {
    BySnOrders();
    SortPrefixFirst(a, fs, BySn);
    SortOrders(a, BySn);
    SortAfterPrefix(q[..k], q[k..] + fs, BySn);
    assert q[..k] + q[k..] == q;
    Assoc(q[..k], q[k..], fs);
    Assoc(p, q[..k], Sort(q[k..] + fs, BySn));
  }

  lemma DrainStep(s: State, fs: seq<Inst>, lower: nat)
    requires FrontBefore(Sort(s.queue, BySn), lower, fs)
    ensures var t := Drain(s, lower);
      s.popped + Sort(s.queue + fs, BySn) == t.popped + Sort(t.queue + fs, BySn)
  {
    var q := Sort(s.queue, BySn);
    var k := if |q| > lower then |q| - lower else 0;
    SplitSorted(s.queue, q, fs, k, s.popped);
  }

  lemma EnqueueStep(o: Options, s: State, x: Inst, fs: seq<Inst>)
    requires FrontBefore(Sort(s.queue + [x], BySn), o.minThreshold, fs)
    ensures
      var t := Enqueue(o, s, x);
      s.popped + Sort(s.queue + ([x] + fs), BySn) == t.popped + Sort(t.queue + fs, BySn)
  {
    Assoc(s.queue, [x], fs);
    if |s.queue| + 1 > o.maxThreshold {
      DrainStep(State(s.queue + [x], s.popped), fs, o.minThreshold);
    }
  }

  lemma RestStep(o: Options, ys: seq<Inst>, x: Inst, fs: seq<Inst>, all: seq<Inst>, s: State)
    requires all == ys + [x] + fs && DisplacedAtMost(all, o.minThreshold) && s == EnqueueAll(o, ys)
    requires Sort(all, BySn) == s.popped + Sort(s.queue + ([x] + fs), BySn)
    ensures var t := Enqueue(o, s, x); Sort(all, BySn) == t.popped + Sort(t.queue + fs, BySn)
  {
    PoppedPrecedeFuture(o, ys, x, fs, all, s, Sort(s.queue + [x], BySn));
    EnqueueStep(o, s, x, fs);
  }

  /** The invariant of the whole run: what has been popped, followed by what is queued
      and still to come once sorted, is the sorted trace. */
  lemma {:induction false} PoppedThenRest(o: Options, xs: seq<Inst>, fs: seq<Inst>, all: seq<Inst>)
    requires all == xs + fs && DisplacedAtMost(all, o.minThreshold)
    ensures var s := EnqueueAll(o, xs);
      Sort(all, BySn) == s.popped + Sort(s.queue + fs, BySn)
    decreases |xs|
  {
    if xs == [] {
      assert [] + fs == fs;
    } else {
      var ys, x, s := LastQueued(o, xs);
      Assoc(ys, [x], fs);
      PoppedThenRest(o, ys, [x] + fs, all);
      RestStep(o, ys, x, fs, all, s);
    }
  }

  /** If no instruction is preceded by more than `minThreshold` with a larger sequence
      number, the instructions come out as if the whole trace had been sorted. */
  lemma PopsInOrder(o: Options, xs: seq<Inst>)
    requires DisplacedAtMost(xs, o.minThreshold)
    ensures PopOrder(o, xs) == Sort(xs, BySn)
  {
    assert xs + [] == xs;
    PoppedThenRest(o, xs, [], xs);
    var s := EnqueueAll(o, xs);
    assert s.queue + [] == s.queue;
    assert Sort(s.queue, BySn)[..|s.queue|] == Sort(s.queue, BySn);
  }

  // ---- The threshold cannot be improved ----

  ghost predicate OrderGuaranteed(o: Options, d: nat) {
    forall xs: seq<Inst> :: DisplacedAtMost(xs, d) ==> PopOrder(o, xs) == Sort(xs, BySn)
  }

  function Numbered(sn: nat): Inst {
    Inst(sn, "", "", "", 1, 0, 0, 0, 0, 0, 1, 0)
  }

  function Odds(n: nat): (xs: seq<Inst>) {
    seq(n, (i: nat) => Numbered(2 * i + 1))
  }

  lemma OddsOrdered(n: nat)
    ensures Ordered(Odds(n), BySn)
  {
  }

  lemma OddsSnoc(n: nat)
    ensures Odds(n + 1) == Odds(n) + [Numbered(2 * n + 1)]
  {
  }

  lemma DrainOdds(n: nat, lower: nat)
    ensures Drain(State(Odds(n), []), lower).popped == if n > lower then Odds(n)[..n - lower] else []
    ensures n <= lower ==> Drain(State(Odds(n), []), lower).queue == Odds(n)
  {
    OddsOrdered(n);
    SortOfOrdered(Odds(n), BySn);
  }

  lemma EnqueueNextOdd(o: Options, n: nat)
    ensures Enqueue(o, State(Odds(n), []), Numbered(2 * n + 1))
         == if n + 1 > o.maxThreshold then Drain(State(Odds(n + 1), []), o.minThreshold)
            else State(Odds(n + 1), [])
  {
    OddsSnoc(n);
  }

  /** While an ascending trace fits the thresholds it just stays queued. */
  lemma {:induction false} OddsStayQueued(o: Options, n: nat)
    requires n <= Max(o.minThreshold, o.maxThreshold)
    ensures EnqueueAll(o, Odds(n)) == State(Odds(n), [])
  {
    if n == 0 {
    } else {
      OddsStayQueued(o, n - 1);
      OddsSnoc(n - 1);
      EnqueueSnoc(o, Odds(n - 1), Numbered(2 * n - 1));
      EnqueueNextOdd(o, n - 1);
      DrainOdds(n, o.minThreshold);
    }
  }

  lemma Overflow(o: Options, xs: seq<Inst>, x: Inst, n: nat)
    requires EnqueueAll(o, xs) == State(xs, []) && xs + [x] == Odds(n)
    requires n == Max(o.minThreshold, o.maxThreshold) + 1
    ensures EnqueueAll(o, xs + [x]).popped == Odds(n)[..n - o.minThreshold]
  {
    EnqueueSnoc(o, xs, x);
    DrainOdds(n, o.minThreshold);
  }

  lemma OddsOverflow(o: Options)
    ensures
      var n := Max(o.minThreshold, o.maxThreshold) + 1;
      EnqueueAll(o, Odds(n)).popped == Odds(n)[..n - o.minThreshold]
  {
    var n := Max(o.minThreshold, o.maxThreshold);
    OddsStayQueued(o, n);
    OddsSnoc(n);
    Overflow(o, Odds(n), Numbered(2 * n + 1), n + 1);
  }

  lemma OddsInPlace(xs: seq<Inst>, j: nat)
    requires j < |xs| && xs == Odds(|xs|)
    ensures Filter(xs[..j], Above(xs[j].sn)) == []
  {
    FilterNone(xs[..j], Above(xs[j].sn));
  }

  lemma TwoParts(xs: seq<Inst>, k: nat)
    requires k <= |xs|
    ensures xs[..k] + xs[k..] == xs
  {
  }

  lemma OddsAbove(xs: seq<Inst>, k: nat)
    requires 1 <= k <= |xs| && xs == Odds(|xs|)
    ensures |Filter(xs, Above(2 * (k - 1)))| <= |xs| - k + 1
  {
    var late, a, b := Above(2 * (k - 1)), xs[..k - 1], xs[k - 1..];
    TwoParts(xs, k - 1);
    FilterConcat(a, b, late);
    assert forall i :: 0 <= i < |a| ==> a[i] == Numbered(2 * i + 1);
    FilterNone(a, late);
  }

  /** One even number too late by one place more than allowed. */
  lemma LateDisplacement(xs: seq<Inst>, k: nat, d: nat)
    requires 1 <= k <= |xs| && |xs| - k + 1 <= d && xs == Odds(|xs|)
    ensures DisplacedAtMost(xs + [Numbered(2 * (k - 1))], d)
  {
    var ys := xs + [Numbered(2 * (k - 1))];
    forall j | 0 <= j < |ys| ensures Displacement(ys, j) <= d {
      if j < |xs| {
        OddsInPlace(xs, j);
        assert ys[..j] == xs[..j];
      } else {
        OddsAbove(xs, k);
        assert ys[..j] == xs;
      }
    }
  }

  lemma PoppedStaysPopped(o: Options, xs: seq<Inst>, x: Inst)
    ensures EnqueueAll(o, xs).popped <= PopOrder(o, xs + [x])
  {
    EnqueueSnoc(o, xs, x);
  }

  lemma LateIsMisplaced(out: seq<Inst>, n: nat, k: nat, j: nat)
    requires 1 <= k <= n && Odds(n)[..k] <= out
    requires j < |out| && out[j] == Numbered(2 * (k - 1))
    ensures !Ordered(out, BySn)
  {
    assert forall i :: 0 <= i < k ==> out[i] == Odds(n)[..k][i] == Numbered(2 * i + 1);
    assert k <= j;
    assert !BySn(out[k - 1], out[j]);
  }

  lemma LateOutOfOrder(o: Options, xs: seq<Inst>, n: nat, k: nat) returns (late: seq<Inst>)
    requires 1 <= k <= n && EnqueueAll(o, xs).popped == Odds(n)[..k]
    ensures late == xs + [Numbered(2 * (k - 1))] && PopOrder(o, late) != Sort(late, BySn)
  {
    var x := Numbered(2 * (k - 1));
    late := xs + [x];
    PoppedStaysPopped(o, xs, x);
    var j := WherePopped(o, xs, x);
    LateIsMisplaced(PopOrder(o, late), n, k, j);
    SortIsOrdered(late);
  }

  lemma WherePopped(o: Options, xs: seq<Inst>, x: Inst) returns (j: nat)
    ensures j < |PopOrder(o, xs + [x])| && PopOrder(o, xs + [x])[j] == x
  {
    PopsEachOnce(o, xs + [x]);
    assert (xs + [x])[|xs|] == x;
    assert x in multiset(PopOrder(o, xs + [x]));
    j :| 0 <= j < |PopOrder(o, xs + [x])| && PopOrder(o, xs + [x])[j] == x;
  }

  lemma NotGuaranteed(o: Options, d: nat, xs: seq<Inst>)
    requires DisplacedAtMost(xs, d) && PopOrder(o, xs) != Sort(xs, BySn)
    ensures !OrderGuaranteed(o, d)
  {
  }

  lemma LateWitness(o: Options, odds: seq<Inst>, k: nat, d: nat) returns (xs: seq<Inst>)
    requires odds == Odds(|odds|) && 1 <= k <= |odds| && |odds| - k + 1 <= d
    requires EnqueueAll(o, odds).popped == odds[..k]
    ensures DisplacedAtMost(xs, d) && PopOrder(o, xs) != Sort(xs, BySn)
  {
    xs := LateOutOfOrder(o, odds, |odds|, k);
    LateDisplacement(odds, k, d);
  }

  lemma OutOfOrderWitness(o: Options) returns (xs: seq<Inst>)
    ensures DisplacedAtMost(xs, o.minThreshold + 1) && PopOrder(o, xs) != Sort(xs, BySn)
  {
    var n := Max(o.minThreshold, o.maxThreshold) + 1;
    OddsOverflow(o);
    xs := LateWitness(o, Odds(n), n - o.minThreshold, o.minThreshold + 1);
  }

  /** The documented assumption is the exact one: the output is in order for every trace
      displaced by at most `d` places if and only if `d` is at most `minThreshold`. */
  lemma OrderGuaranteedExactly(o: Options, d: nat)
    ensures OrderGuaranteed(o, d) <==> d <= o.minThreshold
  {
    if d <= o.minThreshold {
      forall xs: seq<Inst> | DisplacedAtMost(xs, d) ensures PopOrder(o, xs) == Sort(xs, BySn) {
        PopsInOrder(o, xs);
      }
    } else {
      var xs := OutOfOrderWitness(o);
      NotGuaranteed(o, d, xs);
    }
  }
}
