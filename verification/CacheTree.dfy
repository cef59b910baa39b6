/** The cache tree of the memory tester (configs/example/memtest.py).

`caches[i]` is how many caches each subsystem at depth `i` fans out to, and `testers[i]` how
many testers it has; depth 0 is next to memory.  The script counts levels the other way,
so depth `i` of a tree of `n` levels is level `n - i`.
 */
module CacheTree {
  import opened Arith
  import opened Results

  datatype Proto = Proto(size: nat, latency: nat, assoc: nat, mshrs: nat, writebackClean: bool, inclusive: bool)

  /** The cache a subsystem hangs off: which of the caches of which subsystem, and its kind. */
  datatype Link = Link(level: nat, index: nat, slot: nat, proto: Proto)

  /** A subsystem; only one with a single tester at the top does without a crossbar. */
  datatype Subsystem = Subsystem(level: nat, index: nat, testers: nat, crossbar: bool, link: Option<Link>)

  datatype Spec = Spec(caches: seq<nat>, testers: seq<nat>, protos: seq<Proto>) {
    predicate Fits() {
      |testers| == |caches| + 1 && |protos| == |caches|
    }
  }

  /** The counters of subsystems, by level, and the subsystems made. */
  datatype Built = Built(next: seq<nat>, subs: seq<Subsystem>)

  // ---- The number of testers ----

  /** The fan-out from depth `i` to depth `j`. */
  function Fan(caches: seq<nat>, i: nat, j: nat): nat
    requires i <= j <= |caches|
    decreases j - i
  {
    if i == j then 1 else caches[i] * Fan(caches, i + 1, j)
  }

  /** Testers at the first `m` depths, each counted as often as its subsystem occurs. */
  function TestersAbove(caches: seq<nat>, testers: seq<nat>, m: nat): nat
    requires m <= |testers| && m <= |caches| + 1
  {
    if m == 0 then 0 else TestersAbove(caches, testers, m - 1) + testers[m - 1] * Fan(caches, 0, m - 1)
  }

  lemma {:induction false} FanLast(caches: seq<nat>, i: nat, j: nat)
    requires i <= j < |caches|
    ensures Fan(caches, i, j + 1) == Fan(caches, i, j) * caches[j]
    decreases j - i
  {
    if i < j {
      FanLast(caches, i + 1, j);
      MulAssoc(caches[i], Fan(caches, i + 1, j), caches[j]);
    }
  }

  lemma MulAssoc(a: nat, b: nat, c: nat)
    ensures a * (b * c) == a * b * c
  {
  }

  method NumTesters(caches: seq<nat>, testers: seq<nat>) returns (total: nat)
    ensures total == TestersAbove(caches, testers, if |testers| <= |caches| then |testers| else |caches| + 1)
  {
    var multiplier: seq<nat> := [1];
    for k := 0 to |caches|
      invariant |multiplier| == k + 1
      invariant forall j :: 0 <= j <= k ==> multiplier[j] == Fan(caches, 0, j)
    {
      FanLast(caches, 0, k);
      multiplier := multiplier + [multiplier[|multiplier| - 1] * caches[k]];
    }
    total := 0;
    var m := 0;
    while m < |testers| && m < |multiplier|
      invariant m <= |testers| && m <= |multiplier|
      invariant total == TestersAbove(caches, testers, m)
    {
      total := total + testers[m] * multiplier[m];
      m := m + 1;
    }
  }

  // ---- Checking a specification ----

  datatype Problem = NoCaches | WrongLength | NoTopTesters | NegativeTesters | MissingCaches | TooMany

  const BLOCK_SIZE := 64

  predicate AllAtLeast(s: seq<int>, low: int) {
    forall x <- s :: x >= low
  }

  function Naturals(s: seq<int>): (r: seq<nat>)
    requires AllAtLeast(s, 0)
    ensures r == s
  {
    assert forall k :: 0 <= k < |s| ==> s[k] in s;
    s
  }

  /** The number of testers of a specification without negative numbers. */
  function NaturalTesters(caches: seq<int>, testers: seq<int>): nat
    requires |testers| == |caches| + 1 && (forall t <- testers :: t >= 0) && forall c <- caches :: c >= 1
  {
    TestersAbove(Naturals(caches), Naturals(testers), |testers|)
  }

  method AtLeast(s: seq<int>, low: int) returns (ok: bool)
    ensures ok <==> AllAtLeast(s, low)
  {
    for k := 0 to |s|
      invariant forall j :: 0 <= j < k ==> s[j] >= low
    {
      if s[k] < low {
        assert s[k] in s;
        return false;
      }
    }
    return true;
  }

  /** The checks made on a specification given on the command line. */
  method Check(caches: seq<int>, testers: seq<int>) returns (r: Result<(seq<nat>, seq<nat>), Problem>)
    ensures r.Ok? <==>
      && |caches| >= 1 && |testers| == |caches| + 1 && testers[|caches|] != 0
      && (forall t <- testers :: t >= 0) && (forall c <- caches :: c >= 1)
      && NaturalTesters(caches, testers) <= 64
    ensures r.Ok? ==> r.value.0 == caches && r.value.1 == testers
  {
    if |caches| < 1 {
      return Err(NoCaches);
    }
    if |caches| != |testers| - 1 {
      return Err(WrongLength);
    }
    if testers[|testers| - 1] == 0 {
      return Err(NoTopTesters);
    }
    var ok := AtLeast(testers, 0);
    if !ok {
      return Err(NegativeTesters);
    }
    ok := AtLeast(caches, 1);
    if !ok {
      return Err(MissingCaches);
    }
    var total := NumTesters(Naturals(caches), Naturals(testers));
    if total > BLOCK_SIZE {
      return Err(TooMany);
    }
    return Ok((Naturals(caches), Naturals(testers)));
  }

  // ---- Building ----

  function Root(sp: Spec, i: nat, index: nat, link: Option<Link>): Subsystem
    requires sp.Fits() && i <= |sp.caches|
  {
    Subsystem(|sp.caches| - i, index, sp.testers[i], i < |sp.caches| || sp.testers[i] > 1, link)
  }

  /** The subtree at depth `i`. */
  function Build(sp: Spec, i: nat, next: seq<nat>, link: Option<Link>): (b: Built)
    requires sp.Fits() && i <= |sp.caches| && |next| == |sp.caches| + 1
    ensures |b.next| == |next|
    decreases |sp.caches| - i, 0
  {
    var level := |sp.caches| - i;
    var index := next[level];
    var counted := next[level := index + 1];
    var root := Root(sp, i, index, link);
    if i == |sp.caches| then Built(counted, [root])
    else
      var below := Siblings(sp, i + 1, sp.caches[i], counted, index);
      Built(below.next, [root] + below.subs)
  }

  /** The first `k` subtrees at depth `i` below subsystem `parent` of the depth before. */
  function Siblings(sp: Spec, i: nat, k: nat, next: seq<nat>, parent: nat): (b: Built)
    requires sp.Fits() && 1 <= i <= |sp.caches| && |next| == |sp.caches| + 1
    ensures |b.next| == |next|
    decreases |sp.caches| - i, k + 1
  {
    if k == 0 then Built(next, [])
    else
      var a := Siblings(sp, i, k - 1, next, parent);
      var b := Build(sp, i, a.next, Some(LinkTo(sp, i, parent, k - 1)));
      Built(b.next, a.subs + b.subs)
  }

  /** Cache `q` of those fanning out from subsystem `parent` at depth `i - 1`; the caches of
      that subsystem's own testers come first. */
  function LinkTo(sp: Spec, i: nat, parent: nat, q: nat): Link
    requires sp.Fits() && 1 <= i <= |sp.caches|
  {
    Link(|sp.caches| - i + 1, parent, sp.testers[i - 1] + q, sp.protos[i - 1])
  }

  class System {
    const sp: Spec
    var next: seq<nat>
    var subs: seq<Subsystem>

    constructor (sp: Spec)
      requires sp.Fits()
      ensures this.sp == sp && subs == []
      ensures next == seq(|sp.caches| + 1, _ => 0)
    {
      this.sp := sp;
      next := seq(|sp.caches| + 1, _ => 0);
      subs := [];
    }

    predicate Ready()
      reads this
    {
      sp.Fits() && |next| == |sp.caches| + 1
    }

    /** `make_cache_level`. */
    method MakeCacheLevel(caches: seq<nat>, protos: seq<Proto>, level: nat, link: Option<Link>)
      requires Ready() && level <= |sp.caches| && (level < |sp.caches| ==> link.Some?)
      requires |sp.caches| >= 1 && sp.testers[|sp.caches|] >= 1
      requires caches == sp.caches[|sp.caches| - level..] && protos == sp.protos[|sp.caches| - level..]
      modifies this
      ensures Ready()
      ensures
        var b := Build(sp, |sp.caches| - level, old(next), link);
        next == b.next && subs == old(subs) + b.subs
      decreases level, 1
    {
      var index := next[level];
      next := next[level := index + 1];
      var testers := sp.testers[|sp.caches| - level];
      if level == 0 {
        // A top-level subsystem has a cache to hang off and at least one tester.
        assert link.Some? && testers >= 1;
        subs := subs + [Subsystem(level, index, testers, testers > 1, link)];
      } else {
        subs := subs + [Subsystem(level, index, testers, true, link)];
        FanOut(caches, protos, level, index);
      }
    }

    /** The loop over the caches that fan out from a subsystem. */
    method FanOut(caches: seq<nat>, protos: seq<Proto>, level: nat, index: nat)
      requires Ready() && 1 <= level <= |sp.caches| && sp.testers[|sp.caches|] >= 1
      requires caches == sp.caches[|sp.caches| - level..] && protos == sp.protos[|sp.caches| - level..]
      modifies this
      ensures Ready()
      ensures
        var b := Siblings(sp, |sp.caches| - level + 1, caches[0], old(next), index);
        next == b.next && subs == old(subs) + b.subs
      decreases level, 0
    {
      ghost var counted, made, i := next, subs, |sp.caches| - level + 1;
      var testers := sp.testers[|sp.caches| - level];
      var q := 0;
      while q < caches[0]
        invariant Ready() && q <= caches[0]
        invariant next == Siblings(sp, i, q, counted, index).next
        invariant subs == made + Siblings(sp, i, q, counted, index).subs
      {
        ghost var before := Siblings(sp, i, q, counted, index);
        ghost var link := Some(LinkTo(sp, i, index, q));
        Join(made, before.subs, Build(sp, i, before.next, link).subs);
        MakeCacheLevel(caches[1..], protos[1..], level - 1, Some(Link(level, index, testers + q, protos[0])));
        q := q + 1;
      }
    }

    lemma Join(a: seq<Subsystem>, b: seq<Subsystem>, c: seq<Subsystem>)
      ensures a + b + c == a + (b + c)
    {
    }
  }

  // ---- Counters ----

  /** Every subsystem at depth `i` with index below `x` has all of its subtree, and no other
      subtree is begun. */
  ghost predicate Aligned(caches: seq<nat>, i: nat, x: nat, next: seq<nat>)
    requires |next| == |caches| + 1
  {
    forall j :: i <= j <= |caches| ==> next[|caches| - j] == x * Fan(caches, i, j)
  }

  /** Depths before `i` are as they were. */
  ghost predicate SameBefore(i: nat, a: seq<nat>, b: seq<nat>)
    requires |a| == |b|
  {
    forall level :: 0 <= level < |a| && level > |a| - 1 - i ==> a[level] == b[level]
  }

  lemma FanDown(caches: seq<nat>, i: nat, j: nat, x: nat)
    requires i < j <= |caches|
    ensures x * Fan(caches, i, j) == x * caches[i] * Fan(caches, i + 1, j)
  {
    MulAssoc(x, caches[i], Fan(caches, i + 1, j));
  }

  lemma AlignDown(caches: seq<nat>, i: nat, x: nat, next: seq<nat>)
    requires |next| == |caches| + 1 && i < |caches| && Aligned(caches, i, x, next)
    ensures Aligned(caches, i + 1, x * caches[i], next[|caches| - i := x + 1])
  {
    var below, counted := i + 1, next[|caches| - i := x + 1];
    forall j | below <= j <= |caches|
      ensures counted[|caches| - j] == x * caches[i] * Fan(caches, below, j)
    {
      FanDown(caches, i, j, x);
      assert next[|caches| - j] == x * Fan(caches, i, j);
    }
  }

  lemma AlignUp(caches: seq<nat>, i: nat, x: nat, next: seq<nat>)
    requires |next| == |caches| + 1 && i < |caches| && next[|caches| - i] == x
    requires Aligned(caches, i + 1, x * caches[i], next)
    ensures Aligned(caches, i, x, next)
  {
    forall j | i <= j <= |caches| ensures next[|caches| - j] == x * Fan(caches, i, j) {
      if i < j {
        FanDown(caches, i, j, x);
      }
    }
  }

  lemma MulSucc(x: nat, c: nat)
    ensures x * c + c == (x + 1) * c
  {
  }

  lemma {:induction false} BuildCounters(sp: Spec, i: nat, next: seq<nat>, link: Option<Link>, x: nat)
    requires sp.Fits() && i <= |sp.caches| && |next| == |sp.caches| + 1 && Aligned(sp.caches, i, x, next)
    ensures next[|sp.caches| - i] == x
    ensures Aligned(sp.caches, i, x + 1, Build(sp, i, next, link).next)
    ensures SameBefore(i, next, Build(sp, i, next, link).next)
    decreases |sp.caches| - i, 0
  {
    var n := |sp.caches|;
    assert next[n - i] == x * Fan(sp.caches, i, i);
    var counted := next[n - i := x + 1];
    if i < n {
      AlignDown(sp.caches, i, x, next);
      SiblingCounters(sp, i + 1, sp.caches[i], counted, x, x * sp.caches[i]);
      MulSucc(x, sp.caches[i]);
      AlignUp(sp.caches, i, x + 1, Siblings(sp, i + 1, sp.caches[i], counted, x).next);
    }
  }

  lemma {:induction false} SiblingCounters(sp: Spec, i: nat, k: nat, next: seq<nat>, parent: nat, x: nat)
    requires sp.Fits() && 1 <= i <= |sp.caches| && |next| == |sp.caches| + 1 && Aligned(sp.caches, i, x, next)
    ensures Aligned(sp.caches, i, x + k, Siblings(sp, i, k, next, parent).next)
    ensures SameBefore(i, next, Siblings(sp, i, k, next, parent).next)
    decreases |sp.caches| - i, k + 1
  {
    if k == 0 {
    } else {
      SiblingCounters(sp, i, k - 1, next, parent, x);
      BuildCounters(sp, i, Siblings(sp, i, k - 1, next, parent).next, Some(LinkTo(sp, i, parent, k - 1)), x + k - 1);
    }
  }

  // ---- Every subsystem once ----

  function Count(subs: seq<Subsystem>, level: nat, index: nat): nat {
    if subs == [] then 0
    else (if subs[0].level == level && subs[0].index == index then 1 else 0) + Count(subs[1..], level, index)
  }

  lemma {:induction false} CountConcat(a: seq<Subsystem>, b: seq<Subsystem>, level: nat, index: nat)
    ensures Count(a + b, level, index) == Count(a, level, index) + Count(b, level, index)
  {
    if a == [] {
      assert a + b == b;
    } else {
      assert (a + b)[1..] == a[1..] + b;
      CountConcat(a[1..], b, level, index);
    }
  }

  /** Whether index `y` at depth `j` lies below an index from `x` up to `z` at depth `i`. */
  predicate Under(caches: seq<nat>, i: nat, x: nat, z: nat, j: nat, y: nat)
    requires i <= |caches| && j <= |caches|
  {
    i <= j && x * Fan(caches, i, j) <= y < z * Fan(caches, i, j)
  }

  function One(b: bool): nat {
    if b then 1 else 0
  }

  lemma UnderSplit(caches: seq<nat>, i: nat, x: nat, z: nat, w: nat, j: nat, y: nat)
    requires i <= |caches| && j <= |caches| && x <= z <= w
    ensures One(Under(caches, i, x, w, j, y)) == One(Under(caches, i, x, z, j, y)) + One(Under(caches, i, z, w, j, y))
  {
    if i <= j {
      MulMono(x, z, Fan(caches, i, j));
      MulMono(z, w, Fan(caches, i, j));
    }
  }

  lemma UnderDown(caches: seq<nat>, i: nat, x: nat, j: nat, y: nat)
    requires i < |caches| && j <= |caches|
    ensures One(Under(caches, i, x, x + 1, j, y))
         == One(j == i && y == x) + One(Under(caches, i + 1, x * caches[i], x * caches[i] + caches[i], j, y))
  {
    if i < j {
      FanDown(caches, i, j, x);
      FanDown(caches, i, j, x + 1);
      MulSucc(x, caches[i]);
    }
  }

  lemma {:induction false} BuildCounts(sp: Spec, i: nat, next: seq<nat>, link: Option<Link>, x: nat, j: nat, y: nat)
    requires sp.Fits() && i <= |sp.caches| && |next| == |sp.caches| + 1 && Aligned(sp.caches, i, x, next)
    requires j <= |sp.caches|
    ensures Count(Build(sp, i, next, link).subs, |sp.caches| - j, y) == One(Under(sp.caches, i, x, x + 1, j, y))
    decreases |sp.caches| - i, 0
  {
    var n := |sp.caches|;
    BuildCounters(sp, i, next, link, x);
    var root := Root(sp, i, x, link);
    assert Count([root], n - j, y) == One(j == i && y == x);
    if i < n {
      var counted := next[n - i := x + 1];
      AlignDown(sp.caches, i, x, next);
      SiblingCounts(sp, i + 1, sp.caches[i], counted, x, x * sp.caches[i], j, y);
      CountConcat([root], Siblings(sp, i + 1, sp.caches[i], counted, x).subs, n - j, y);
      UnderDown(sp.caches, i, x, j, y);
    }
  }

  lemma {:induction false} SiblingCounts(sp: Spec, i: nat, k: nat, next: seq<nat>, parent: nat, x: nat, j: nat, y: nat)
    requires sp.Fits() && 1 <= i <= |sp.caches| && |next| == |sp.caches| + 1 && Aligned(sp.caches, i, x, next)
    requires j <= |sp.caches|
    ensures Count(Siblings(sp, i, k, next, parent).subs, |sp.caches| - j, y) == One(Under(sp.caches, i, x, x + k, j, y))
    decreases |sp.caches| - i, k + 1
  {
    if k == 0 {
    } else {
      var a := Siblings(sp, i, k - 1, next, parent);
      var link := Some(LinkTo(sp, i, parent, k - 1));
      SiblingCounts(sp, i, k - 1, next, parent, x, j, y);
      SiblingCounters(sp, i, k - 1, next, parent, x);
      BuildCounts(sp, i, a.next, link, x + k - 1, j, y);
      CountConcat(a.subs, Build(sp, i, a.next, link).subs, |sp.caches| - j, y);
      UnderSplit(sp.caches, i, x, x + k - 1, x + k, j, y);
    }
  }

  // ---- Each subsystem hangs off its own cache ----

  /** Index `y` at depth `j` has the testers of that depth and hangs off cache `y % c` of
      subsystem `y / c`, where `c` is the fan-out of the depth before. */
  predicate Placed(sp: Spec, sub: Subsystem)
    requires sp.Fits()
  {
    sub.level <= |sp.caches| &&
    var j := |sp.caches| - sub.level;
    && sub.testers == sp.testers[j] && (sub.crossbar <==> j < |sp.caches| || sub.testers > 1)
    && (j == 0 ==> sub.link == None)
    && (j > 0 ==> sp.caches[j - 1] > 0
                  && sub.link == Some(Link(sub.level + 1, sub.index / sp.caches[j - 1],
                                           sp.testers[j - 1] + sub.index % sp.caches[j - 1], sp.protos[j - 1])))
  }

  ghost predicate AllPlaced(sp: Spec, subs: seq<Subsystem>)
    requires sp.Fits()
  {
    forall sub <- subs :: Placed(sp, sub)
  }

  lemma {:induction false} BuildPlaces(sp: Spec, i: nat, next: seq<nat>, link: Option<Link>, x: nat)
    requires sp.Fits() && i <= |sp.caches| && |next| == |sp.caches| + 1 && Aligned(sp.caches, i, x, next)
    requires Placed(sp, Root(sp, i, x, link))
    ensures AllPlaced(sp, Build(sp, i, next, link).subs)
    decreases |sp.caches| - i, 0
  {
    var n := |sp.caches|;
    BuildCounters(sp, i, next, link, x);
    if i < n {
      AlignDown(sp.caches, i, x, next);
      SiblingPlaces(sp, i + 1, sp.caches[i], next[n - i := x + 1], x);
    }
  }

  lemma {:induction false} SiblingPlaces(sp: Spec, i: nat, k: nat, next: seq<nat>, parent: nat)
    requires sp.Fits() && 1 <= i <= |sp.caches| && |next| == |sp.caches| + 1 && k <= sp.caches[i - 1]
    requires Aligned(sp.caches, i, parent * sp.caches[i - 1], next)
    ensures AllPlaced(sp, Siblings(sp, i, k, next, parent).subs)
    decreases |sp.caches| - i, k + 1
  {
    if k == 0 {
    } else {
      var x := parent * sp.caches[i - 1];
      var a := Siblings(sp, i, k - 1, next, parent);
      SiblingPlaces(sp, i, k - 1, next, parent);
      SiblingCounters(sp, i, k - 1, next, parent, x);
      DivModUnique(x + k - 1, sp.caches[i - 1], parent, k - 1);
      BuildPlaces(sp, i, a.next, Some(LinkTo(sp, i, parent, k - 1)), x + k - 1);
    }
  }

  // ---- Testers made ----

  function Testers(subs: seq<Subsystem>): nat {
    if subs == [] then 0 else subs[0].testers + Testers(subs[1..])
  }

  lemma {:induction false} TestersConcat(a: seq<Subsystem>, b: seq<Subsystem>)
    ensures Testers(a + b) == Testers(a) + Testers(b)
  {
    if a == [] {
      assert a + b == b;
    } else {
      assert (a + b)[1..] == a[1..] + b;
      TestersConcat(a[1..], b);
    }
  }

  /** Testers in one subtree at depth `i`. */
  function TestersFrom(sp: Spec, i: nat): nat
    requires sp.Fits() && i <= |sp.caches|
    decreases |sp.caches| - i
  {
    sp.testers[i] + if i == |sp.caches| then 0 else sp.caches[i] * TestersFrom(sp, i + 1)
  }

  lemma {:induction false} BuildTesters(sp: Spec, i: nat, next: seq<nat>, link: Option<Link>)
    requires sp.Fits() && i <= |sp.caches| && |next| == |sp.caches| + 1
    ensures Testers(Build(sp, i, next, link).subs) == TestersFrom(sp, i)
    decreases |sp.caches| - i, 0
  {
    var n := |sp.caches|;
    var index := next[n - i];
    var root := Root(sp, i, index, link);
    assert Testers([root]) == sp.testers[i];
    if i < n {
      var counted := next[n - i := index + 1];
      SiblingTesters(sp, i + 1, sp.caches[i], counted, index);
      TestersConcat([root], Siblings(sp, i + 1, sp.caches[i], counted, index).subs);
    }
  }

  lemma {:induction false} SiblingTesters(sp: Spec, i: nat, k: nat, next: seq<nat>, parent: nat)
    requires sp.Fits() && 1 <= i <= |sp.caches| && |next| == |sp.caches| + 1
    ensures Testers(Siblings(sp, i, k, next, parent).subs) == k * TestersFrom(sp, i)
    decreases |sp.caches| - i, k + 1
  {
    if k == 0 {
    } else {
      var a := Siblings(sp, i, k - 1, next, parent);
      var link := Some(LinkTo(sp, i, parent, k - 1));
      SiblingTesters(sp, i, k - 1, next, parent);
      BuildTesters(sp, i, a.next, link);
      TestersConcat(a.subs, Build(sp, i, a.next, link).subs);
      MulSucc(k - 1, TestersFrom(sp, i));
    }
  }

  /** Counting depth by depth, as `numtesters` does, and subtree by subtree agree. */
  lemma {:induction false} SumIsRecursive(sp: Spec, m: nat)
    requires sp.Fits() && m <= |sp.caches|
    ensures TestersAbove(sp.caches, sp.testers, m) + Fan(sp.caches, 0, m) * TestersFrom(sp, m) == TestersFrom(sp, 0)
  {
    if m == 0 {
    } else {
      var f, c, t, below := Fan(sp.caches, 0, m - 1), sp.caches[m - 1], sp.testers[m - 1], TestersFrom(sp, m);
      SumIsRecursive(sp, m - 1);
      FanLast(sp.caches, 0, m - 1);
      Distribute(f, t, c, below);
    }
  }

  lemma Distribute(f: nat, t: nat, c: nat, below: nat)
    ensures f * (t + c * below) == t * f + f * c * below
  {
    MulAssoc(f, c, below);
  }

  // ---- Main results ----

  /** The counters before anything is built. */
  function NoneBuilt(n: nat): (z: seq<nat>)
    ensures |z| == n
  {
    seq(n, _ => 0)
  }

  /** The recursive build makes, for each depth `j`, the subsystems with index below the fan-out
      to that depth, each exactly once and nothing else, and leaves that fan-out in the counter. */
  lemma BuildsEachOnce(sp: Spec, j: nat, y: nat)
    requires sp.Fits() && j <= |sp.caches|
    ensures
      var b := Build(sp, 0, NoneBuilt(|sp.caches| + 1), None);
      && Count(b.subs, |sp.caches| - j, y) == One(y < Fan(sp.caches, 0, j))
      && b.next[|sp.caches| - j] == Fan(sp.caches, 0, j)
  {
    var zeros := NoneBuilt(|sp.caches| + 1);
    assert Aligned(sp.caches, 0, 0, zeros);
    BuildCounters(sp, 0, zeros, None, 0);
    BuildCounts(sp, 0, zeros, None, 0, j, y);
  }

  /** It hangs each subsystem off a cache of its own, by quotient and remainder of its index. */
  lemma BuildsLinks(sp: Spec)
    requires sp.Fits()
    ensures AllPlaced(sp, Build(sp, 0, NoneBuilt(|sp.caches| + 1), None).subs)
  {
    var zeros := NoneBuilt(|sp.caches| + 1);
    assert Aligned(sp.caches, 0, 0, zeros);
    BuildPlaces(sp, 0, zeros, None, 0);
  }

  /** It makes as many testers as `numtesters` counts. */
  lemma BuildsTesters(sp: Spec)
    requires sp.Fits()
    ensures Testers(Build(sp, 0, NoneBuilt(|sp.caches| + 1), None).subs)
         == TestersAbove(sp.caches, sp.testers, |sp.testers|)
  {
    BuildTesters(sp, 0, NoneBuilt(|sp.caches| + 1), None);
    SumIsRecursive(sp, |sp.caches|);
  }

  /** Two subsystems that hang off the same cache are the same one. */
  lemma LinksDistinct(sp: Spec, a: Subsystem, b: Subsystem)
    requires sp.Fits() && Placed(sp, a) && Placed(sp, b) && a.link == b.link && a.link.Some?
    ensures a == b
  {
    var j := |sp.caches| - a.level;
    var c := sp.caches[j - 1];
    assert a.index == a.index / c * c + a.index % c;
    assert b.index == b.index / c * c + b.index % c;
  }

  // ---- Prototypes ----

  function Alternates(base: bool, m: nat): bool {
    if m % 2 == 0 then base else !base
  }

  function Pow10(m: nat): nat {
    if m == 0 then 1 else 10 * Pow10(m - 1)
  }

  /** The first-level cache scaled by the first `m` fan-outs. */
  function Scaled(l1: Proto, caches: seq<nat>, m: nat): Proto
    requires m <= |caches|
  {
    var f := Fan(caches, 0, m);
    Proto(l1.size * f, l1.latency * Pow10(m), l1.assoc * f, l1.mshrs * f,
          Alternates(l1.writebackClean, m), Alternates(l1.inclusive, m))
  }

  lemma ScaledStep(l1: Proto, caches: seq<nat>, m: nat)
    requires m < |caches|
    ensures
      var prev := Scaled(l1, caches, m);
      Scaled(l1, caches, m + 1) == Proto(prev.size * caches[m], prev.latency * 10, prev.assoc * caches[m],
                                         prev.mshrs * caches[m], !prev.writebackClean, !prev.inclusive)
  {
    var f := Fan(caches, 0, m);
    FanLast(caches, 0, m);
    MulAssoc(l1.size, f, caches[m]);
    MulAssoc(l1.assoc, f, caches[m]);
    MulAssoc(l1.mshrs, f, caches[m]);
    MulAssoc(l1.latency, Pow10(m), 10);
  }

  /** The prototypes, last level first: one for each depth that fans out. */
  method MakePrototypes(l1: Proto, caches: seq<nat>) returns (protos: seq<Proto>)
    requires |caches| >= 1
    ensures |protos| == |caches|
    ensures forall k :: 0 <= k < |caches| ==> protos[k] == Scaled(l1, caches, |caches| - 1 - k)
    ensures protos[|caches| - 1] == l1
    ensures forall k, l :: 0 <= k < l < |caches| && l == k + 1 ==>
      var prev, scale := protos[l], caches[|caches| - 1 - l];
      protos[k] == Proto(prev.size * scale, prev.latency * 10, prev.assoc * scale, prev.mshrs * scale,
                         !prev.writebackClean, !prev.inclusive)
  {
    protos := [l1];
    assert l1 == Scaled(l1, caches, 0);
    for m := 0 to |caches| - 1
      invariant |protos| == m + 1
      invariant forall k :: 0 <= k <= m ==> protos[k] == Scaled(l1, caches, m - k)
    {
      var prev, scale := protos[0], caches[m];
      ScaledStep(l1, caches, m);
      var next := Proto(prev.size * scale, prev.latency * 10, prev.assoc * scale, prev.mshrs * scale,
                        !prev.writebackClean, !prev.inclusive);
      protos := [next] + protos;
    }
    forall k, l | 0 <= k < l < |caches| && l == k + 1
      ensures
        var prev, scale := protos[l], caches[|caches| - 1 - l];
        protos[k] == Proto(prev.size * scale, prev.latency * 10, prev.assoc * scale, prev.mshrs * scale,
                           !prev.writebackClean, !prev.inclusive)
    {
      ScaledStep(l1, caches, |caches| - 1 - l);
    }
  }

  /** The script from a checked specification to the finished tree. */
  method MakeSystem(l1: Proto, caches: seq<nat>, testers: seq<nat>) returns (system: System)
    requires |caches| >= 1 && |testers| == |caches| + 1 && testers[|caches|] >= 1
    ensures fresh(system) && system.Ready() && system.sp.caches == caches && system.sp.testers == testers
    ensures Built(system.next, system.subs) == Build(system.sp, 0, NoneBuilt(|caches| + 1), None)
    ensures forall k :: 0 <= k < |caches| ==> system.sp.protos[k] == Scaled(l1, caches, |caches| - 1 - k)
  {
    var protos := MakePrototypes(l1, caches);
    system := new System(Spec(caches, testers, protos));
    assert system.next == NoneBuilt(|caches| + 1);
    system.MakeCacheLevel(caches, protos, |caches|, None);
  }
}
