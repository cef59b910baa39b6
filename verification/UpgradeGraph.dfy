/** Scheduling of checkpoint migrations (util/cpt_upgrader.py).

Every migration has a tag and depends on other tags.  A checkpoint carries the set of tags
it has; the migrations it lacks are applied in rounds, each round applying all those whose
dependencies are among the tags at its start.
 */
module UpgradeGraph {
  import opened Finite

  datatype Kind = Upgrade | Downgrade

  datatype Node = Node(kind: Kind, depends: seq<string>)

  /** What has been registered: tags to add, tags to remove, and the migration of each. */
  datatype Registered = Registered(tagSet: set<string>, untagSet: set<string>, nodes: map<string, Node>)
  {
    ghost predicate WellFormed() {
      && nodes.Keys == tagSet + untagSet
      && forall t <- nodes :: t in (if nodes[t].kind.Upgrade? then tagSet else untagSet)
    }

    /** No tag was registered both for upgrading and for downgrading. */
    ghost predicate Unambiguous() {
      WellFormed() && tagSet !! untagSet
    }

    /** Every dependency names a registered tag. */
    ghost predicate Audited() {
      forall t <- nodes, d <- nodes[t].depends :: d in nodes
    }
  }

  datatype State = State(tags: set<string>, pending: set<string>)

  function Initial(r: Registered, tags: set<string>): State {
    State(tags, (r.tagSet - tags) + (r.untagSet * tags))
  }

  predicate IsReady(r: Registered, t: string, tags: set<string>)
    requires t in r.nodes
  {
    forall d <- r.nodes[t].depends :: d in tags
  }

  function Ready(r: Registered, s: State): (ready: set<string>)
    requires s.pending <= r.nodes.Keys
    ensures ready <= s.pending
    ensures forall t <- s.pending :: t in ready <==> IsReady(r, t, s.tags)
  {
    set t | t in s.pending && IsReady(r, t, s.tags)
  }

  function Upgrades(r: Registered, ts: set<string>): set<string>
    requires ts <= r.nodes.Keys
  {
    set t | t in ts && r.nodes[t].kind.Upgrade?
  }

  /** The tags once all of `ts` have been applied. */
  function Applied(r: Registered, tags: set<string>, ts: set<string>): set<string>
    requires ts <= r.nodes.Keys
  {
    tags + Upgrades(r, ts) - (ts - Upgrades(r, ts))
  }

  function Round(r: Registered, s: State): (s': State)
    requires s.pending <= r.nodes.Keys
    ensures s'.pending <= s.pending
  {
    var ready := Ready(r, s);
    State(Applied(r, s.tags, ready), s.pending - ready)
  }

  datatype Outcome = Done(tags: set<string>) | Stuck(pending: set<string>)

  function Migrate(r: Registered, s: State): Outcome
    requires s.pending <= r.nodes.Keys
    decreases s.pending
  {
    if s.pending == {} then Done(s.tags)
    else if Ready(r, s) == {} then Stuck(s.pending)
    else Migrate(r, Round(r, s))
  }

  // ---- The final tags ----

  function Target(r: Registered, tags: set<string>): set<string> {
    tags + r.tagSet - r.untagSet
  }

  /** What is pending is exactly what separates the tags from the target. */
  ghost predicate OnCourse(r: Registered, s: State, target: set<string>) {
    && s.pending <= r.nodes.Keys
    && s.pending * r.tagSet !! s.tags
    && s.pending * r.untagSet <= s.tags
    && target == s.tags + s.pending * r.tagSet - s.pending * r.untagSet
  }

  lemma RoundOnCourse(r: Registered, s: State, target: set<string>)
    requires r.Unambiguous() && OnCourse(r, s, target)
    ensures OnCourse(r, Round(r, s), target)
  {
    var ready := Ready(r, s);
    var up := Upgrades(r, ready);
    assert up == ready * r.tagSet;
    assert ready - up == ready * r.untagSet;
  }

  lemma InitialOnCourse(r: Registered, tags: set<string>)
    requires r.Unambiguous()
    ensures OnCourse(r, Initial(r, tags), Target(r, tags))
  {
  }

  lemma {:induction false} MigrateReachesTarget(r: Registered, s: State, target: set<string>)
    requires r.Unambiguous() && OnCourse(r, s, target)
    ensures Migrate(r, s).Done? ==> Migrate(r, s).tags == target
    decreases s.pending
  {
    if s.pending != {} && Ready(r, s) != {} {
      RoundOnCourse(r, s, target);
      MigrateReachesTarget(r, Round(r, s), target);
    }
  }

  /** A completed migration has every tag to add and none to remove, keeps the tags it
      does not know, and leaves nothing for a second run. */
  lemma FinalTags(r: Registered, tags: set<string>)
    requires r.Unambiguous()
    ensures
      var m := Migrate(r, Initial(r, tags));
      m.Done? ==> m.tags == Target(r, tags) && Initial(r, m.tags).pending == {}
  {
    InitialOnCourse(r, tags);
    MigrateReachesTarget(r, Initial(r, tags), Target(r, tags));
  }

  // ---- Stuck exactly on a cycle ----

  /** `c` is a dependency cycle among the tags `within`. */
  ghost predicate Cycle(r: Registered, within: set<string>, c: seq<string>)
    requires within <= r.nodes.Keys
  {
    && |c| > 0
    && (forall t <- c :: t in within)
    && Linked(r, c)
    && c[0] in r.nodes[c[|c| - 1]].depends
  }

  ghost predicate Linked(r: Registered, c: seq<string>)
    requires forall t <- c :: t in r.nodes
  {
    forall i, j :: 0 <= i < j < |c| && j == i + 1 ==> c[j] in r.nodes[c[i]].depends
  }

  /** In an upgrade-only registry the pending tags are the registered ones not yet there. */
  ghost predicate UpgradeOnly(r: Registered) {
    r.WellFormed() && r.untagSet == {}
  }

  ghost predicate Complementary(r: Registered, s: State) {
    && s.pending <= r.nodes.Keys
    && s.pending !! s.tags
    && r.nodes.Keys <= s.tags + s.pending
  }

  lemma RoundComplementary(r: Registered, s: State)
    requires UpgradeOnly(r) && Complementary(r, s)
    ensures Complementary(r, Round(r, s))
    ensures Round(r, s).tags == s.tags + Ready(r, s)
  {
    assert Upgrades(r, Ready(r, s)) == Ready(r, s);
  }

  lemma CycleNotReady(r: Registered, s: State, c: seq<string>)
    requires UpgradeOnly(r) && Complementary(r, s) && Cycle(r, s.pending, c)
    ensures forall t <- c :: t !in Ready(r, s)
  {
    forall i | 0 <= i < |c| ensures c[i] !in Ready(r, s) {
      var next := if i + 1 < |c| then c[i + 1] else c[0];
      assert next in r.nodes[c[i]].depends;
      assert next in s.pending;
    }
  }

  lemma {:induction false} CycleBlocks(r: Registered, s: State, c: seq<string>)
    requires UpgradeOnly(r) && Complementary(r, s) && Cycle(r, s.pending, c)
    ensures Migrate(r, s).Stuck?
    decreases s.pending
  {
    assert c[0] in s.pending;
    if Ready(r, s) != {} {
      CycleNotReady(r, s, c);
      RoundComplementary(r, s);
      CycleBlocks(r, Round(r, s), c);
    }
  }

  ghost predicate Distinct(c: seq<string>) {
    forall i, j :: 0 <= i < j < |c| ==> c[i] != c[j]
  }

  lemma {:induction false} DistinctSize(c: seq<string>)
    requires Distinct(c)
    ensures |Elements(c)| == |c|
  {
    if c == [] {
    } else {
      DistinctSize(c[1..]);
      assert Elements(c) == Elements(c[1..]) + {c[0]};
    }
  }

  /** Where nothing is ready every pending tag waits for another pending one. */
  lemma StuckSuccessor(r: Registered, s: State, t: string) returns (d: string)
    requires UpgradeOnly(r) && r.Audited() && Complementary(r, s)
    requires Ready(r, s) == {} && t in s.pending
    ensures d in s.pending && d in r.nodes[t].depends
  {
    assert !IsReady(r, t, s.tags);
    d :| d in r.nodes[t].depends && d !in s.tags;
  }

  /** A walk along dependencies that has not met itself. */
  ghost predicate Walk(r: Registered, within: set<string>, path: seq<string>)
    requires within <= r.nodes.Keys
  {
    path != [] && (forall t <- path :: t in within) && Linked(r, path) && Distinct(path)
  }

  lemma WalkFits(r: Registered, within: set<string>, path: seq<string>)
    requires within <= r.nodes.Keys && Walk(r, within, path)
    ensures |path| <= |within|
  {
    DistinctSize(path);
    SubsetSize(Elements(path), within);
  }

  lemma WalkOn(r: Registered, within: set<string>, path: seq<string>, d: string)
    requires within <= r.nodes.Keys && Walk(r, within, path)
    requires d in within && d !in path && d in r.nodes[path[|path| - 1]].depends
    ensures Walk(r, within, path + [d])
  {
  }

  lemma WalkCloses(r: Registered, within: set<string>, path: seq<string>, d: string) returns (c: seq<string>)
    requires within <= r.nodes.Keys && Walk(r, within, path)
    requires d in path && d in r.nodes[path[|path| - 1]].depends
    ensures Cycle(r, within, c)
  {
    var j :| 0 <= j < |path| && path[j] == d;
    c := path[j..];
    forall i, k | 0 <= i < k < |c| && k == i + 1 ensures c[k] in r.nodes[c[i]].depends {
      assert path[j + k] in r.nodes[path[j + i]].depends;
    }
  }

  /** Following those waits must close a cycle. */
  lemma {:induction false} WalkToCycle(r: Registered, s: State, path: seq<string>) returns (c: seq<string>)
    requires UpgradeOnly(r) && r.Audited() && Complementary(r, s) && Ready(r, s) == {}
    requires Walk(r, s.pending, path)
    ensures Cycle(r, s.pending, c)
    decreases |s.pending| - |path|
  {
    WalkFits(r, s.pending, path);
    var d := StuckSuccessor(r, s, path[|path| - 1]);
    if d in path {
      c := WalkCloses(r, s.pending, path, d);
    } else {
      WalkOn(r, s.pending, path, d);
      WalkFits(r, s.pending, path + [d]);
      c := WalkToCycle(r, s, path + [d]);
    }
  }

  lemma WalkOne(r: Registered, within: set<string>, path: seq<string>)
    requires within <= r.nodes.Keys && |path| == 1 && path[0] in within
    ensures Walk(r, within, path)
  {
  }

  lemma WalkFrom(r: Registered, s: State) returns (c: seq<string>)
    requires UpgradeOnly(r) && r.Audited() && Complementary(r, s) && Ready(r, s) == {} && s.pending != {}
    ensures Cycle(r, s.pending, c)
  {
    var t :| t in s.pending;
    WalkOne(r, s.pending, [t]);
    c := WalkToCycle(r, s, [t]);
  }

  lemma {:induction false} StuckHasCycle(r: Registered, s: State) returns (c: seq<string>)
    requires UpgradeOnly(r) && r.Audited() && Complementary(r, s)
    requires Migrate(r, s).Stuck?
    ensures Cycle(r, s.pending, c)
    decreases s.pending
  {
    if Ready(r, s) == {} {
      c := WalkFrom(r, s);
    } else {
      RoundComplementary(r, s);
      c := StuckHasCycle(r, Round(r, s));
      CycleWidens(r, Round(r, s).pending, s.pending, c);
    }
  }

  lemma CycleWidens(r: Registered, a: set<string>, b: set<string>, c: seq<string>)
    requires a <= b <= r.nodes.Keys && Cycle(r, a, c)
    ensures Cycle(r, b, c)
  {
  }

  /** With only upgraders registered and their dependencies audited, migration aborts if
      and only if the tags missing from the checkpoint contain a dependency cycle. */
  lemma AbortsExactlyOnCycle(r: Registered, tags: set<string>)
    requires UpgradeOnly(r) && r.Audited()
    ensures Migrate(r, Initial(r, tags)).Stuck? <==> exists c :: Cycle(r, Initial(r, tags).pending, c)
  {
    var s := Initial(r, tags);
    if Migrate(r, s).Stuck? {
      var c := StuckHasCycle(r, s);
    }
    if c :| Cycle(r, s.pending, c) {
      CycleBlocks(r, s, c);
    }
  }

  // ---- Completed exactly when a schedule exists ----

  /** `level` puts the pending tags in rounds. */
  ghost predicate Schedule(r: Registered, s: State, level: map<string, nat>)
    requires s.pending <= r.nodes.Keys
  {
    && level.Keys == s.pending
    && forall t {:trigger Scheduled(r, s, level, t)} :: t in s.pending ==> Scheduled(r, s, level, t)
  }

  ghost predicate Scheduled(r: Registered, s: State, level: map<string, nat>, t: string)
    requires level.Keys == s.pending <= r.nodes.Keys && t in s.pending
  {
    && (forall d <- r.nodes[t].depends :: Before(r, s, level, t, d))
    && (level[t] > 0 ==> exists d <- r.nodes[t].depends :: Adds(r, s, d) && level[d] == level[t] - 1)
  }

  /** `d` is a pending upgrade. */
  predicate Adds(r: Registered, s: State, d: string)
    requires s.pending <= r.nodes.Keys
  {
    d in s.pending && r.nodes[d].kind.Upgrade?
  }

  /** A tag comes after the upgrades it depends on, and no later than the round that removes
      a downgraded tag it depends on; anything else it depends on is there from the start. */
  ghost predicate Before(r: Registered, s: State, level: map<string, nat>, t: string, d: string)
    requires level.Keys == s.pending <= r.nodes.Keys && t in s.pending
  {
    if Adds(r, s, d) then level[d] < level[t] else d in s.tags && (d in s.pending ==> level[t] <= level[d])
  }

  lemma ReadyIsFirst(r: Registered, s: State, target: set<string>, level: map<string, nat>, t: string)
    requires r.Unambiguous() && OnCourse(r, s, target) && Schedule(r, s, level) && t in s.pending
    ensures t in Ready(r, s) <==> level[t] == 0
  {
    assert Scheduled(r, s, level, t);
    if level[t] == 0 {
      forall d | d in r.nodes[t].depends ensures d in s.tags {
        assert Before(r, s, level, t, d);
      }
    }
  }

  lemma {:induction false} FirstExists(r: Registered, s: State, level: map<string, nat>, t: string)
    returns (first: string)
    requires s.pending <= r.nodes.Keys && Schedule(r, s, level) && t in s.pending
    ensures first in s.pending && level[first] == 0
    decreases level[t]
  {
    if level[t] == 0 {
      first := t;
    } else {
      assert Scheduled(r, s, level, t);
      var d :| d in r.nodes[t].depends && Adds(r, s, d) && level[d] == level[t] - 1;
      first := FirstExists(r, s, level, d);
    }
  }

  /** After the first round the rest of the schedule is one round earlier. */
  function Sooner(level: map<string, nat>, pending: set<string>): map<string, nat>
    requires pending <= level.Keys && forall t <- pending :: level[t] > 0
  {
    map t | t in pending :: level[t] - 1
  }

  lemma ScheduledSooner(r: Registered, s: State, target: set<string>, level: map<string, nat>, t: string)
    requires r.Unambiguous() && OnCourse(r, s, target) && Schedule(r, s, level)
    requires t in Round(r, s).pending && forall u <- Round(r, s).pending :: level[u] > 0
    requires forall u <- Ready(r, s) :: level[u] == 0
    ensures Scheduled(r, Round(r, s), Sooner(level, Round(r, s).pending), t)
  {
    var s', level' := Round(r, s), Sooner(level, Round(r, s).pending);
    assert Scheduled(r, s, level, t);
    forall d | d in r.nodes[t].depends ensures Before(r, s', level', t, d) {
      assert Before(r, s, level, t, d);
    }
    if level'[t] > 0 {
      var d :| d in r.nodes[t].depends && Adds(r, s, d) && level[d] == level[t] - 1;
      assert Adds(r, s', d);
    }
  }

  lemma {:induction false} ScheduleCompletes(r: Registered, s: State, target: set<string>, level: map<string, nat>)
    requires r.Unambiguous() && OnCourse(r, s, target) && Schedule(r, s, level)
    ensures Migrate(r, s).Done?
    decreases s.pending
  {
    if s.pending == {} {
    } else {
      var t :| t in s.pending;
      var first := FirstExists(r, s, level, t);
      forall u | u in s.pending ensures u in Ready(r, s) <==> level[u] == 0 {
        ReadyIsFirst(r, s, target, level, u);
      }
      assert first in Ready(r, s);
      var s', level' := Round(r, s), Sooner(level, Round(r, s).pending);
      forall u | u in s'.pending ensures Scheduled(r, s', level', u) {
        ScheduledSooner(r, s, target, level, u);
      }
      RoundOnCourse(r, s, target);
      ScheduleCompletes(r, s', target, level');
    }
  }

  /** The schedule of a state from that of the next: what is ready comes first. */
  function Later(ready: set<string>, pending: set<string>, level: map<string, nat>): map<string, nat>
    requires level.Keys == pending - ready
  {
    map t | t in pending :: if t in ready then 0 else level[t] + 1
  }

  lemma ScheduledFirst(r: Registered, s: State, target: set<string>, level: map<string, nat>, t: string)
    requires r.Unambiguous() && OnCourse(r, s, target) && level.Keys == s.pending && t in Ready(r, s) && level[t] == 0
    ensures Scheduled(r, s, level, t)
  {
    forall d | d in r.nodes[t].depends ensures Before(r, s, level, t, d) {
      assert d in s.tags;
    }
  }

  lemma ScheduledLater(r: Registered, s: State, target: set<string>, level': map<string, nat>, t: string)
    requires r.Unambiguous() && OnCourse(r, s, target) && Schedule(r, Round(r, s), level') && t in Round(r, s).pending
    ensures Scheduled(r, s, Later(Ready(r, s), s.pending, level'), t)
  {
    var s', level := Round(r, s), Later(Ready(r, s), s.pending, level');
    assert Scheduled(r, s', level', t);
    forall d | d in r.nodes[t].depends ensures Before(r, s, level, t, d) {
      assert Before(r, s', level', t, d);
    }
    if level'[t] > 0 {
      var d :| d in r.nodes[t].depends && Adds(r, s', d) && level'[d] == level'[t] - 1;
      assert Adds(r, s, d);
    } else {
      assert !IsReady(r, t, s.tags);
      var d :| d in r.nodes[t].depends && d !in s.tags;
      assert Before(r, s', level', t, d);
      assert Adds(r, s, d);
    }
  }

  lemma {:induction false} CompletedHasSchedule(r: Registered, s: State, target: set<string>)
    returns (level: map<string, nat>)
    requires r.Unambiguous() && OnCourse(r, s, target) && Migrate(r, s).Done?
    ensures Schedule(r, s, level)
    decreases s.pending
  {
    if s.pending == {} {
      level := map[];
    } else {
      RoundOnCourse(r, s, target);
      var level' := CompletedHasSchedule(r, Round(r, s), target);
      level := Later(Ready(r, s), s.pending, level');
      forall t | t in s.pending ensures Scheduled(r, s, level, t) {
        if t in Ready(r, s) {
          ScheduledFirst(r, s, target, level, t);
        } else {
          ScheduledLater(r, s, target, level', t);
        }
      }
    }
  }

  /** With upgraders and downgraders registered, migration completes if and only if its
      tags can be levelled: one above the highest upgrade it depends on, and no higher than
      the removal of any tag it depends on. */
  lemma CompletesExactly(r: Registered, tags: set<string>)
    requires r.Unambiguous()
    ensures Migrate(r, Initial(r, tags)).Done? <==> exists level :: Schedule(r, Initial(r, tags), level)
  {
    var s := Initial(r, tags);
    InitialOnCourse(r, tags);
    if Migrate(r, s).Done? {
      var level := CompletedHasSchedule(r, s, Target(r, tags));
    }
    if level :| Schedule(r, s, level) {
      ScheduleCompletes(r, s, Target(r, tags), level);
    }
  }

  // ---- The order of application ----

  /** `l` lists the elements of `ts`, each once, in some order. */
  ghost predicate Enumerates(l: seq<string>, ts: set<string>) {
    Elements(l) == ts && |l| == |ts|
  }

  /** `log` is a possible order of application: each round's tags in any order. */
  ghost predicate ValidLog(r: Registered, s: State, log: seq<string>)
    requires s.pending <= r.nodes.Keys
    decreases s.pending
  {
    var ready := Ready(r, s);
    if ready == {} then log == []
    else
      && |log| >= |ready|
      && Enumerates(log[..|ready|], ready)
      && ValidLog(r, Round(r, s), log[|ready|..])
  }

  lemma EnumeratesConcat(a: seq<string>, b: seq<string>, ta: set<string>, all: set<string>)
    requires Enumerates(a, ta) && Enumerates(b, all - ta) && ta <= all
    ensures Enumerates(a + b, all)
  {
    assert Elements(a + b) == Elements(a) + Elements(b);
    assert all == ta + (all - ta);
    assert |ta + (all - ta)| == |ta| + |all - ta|;
  }

  lemma DoneContinues(r: Registered, s: State)
    requires s.pending <= r.nodes.Keys && Migrate(r, s).Done? && s.pending != {}
    ensures Ready(r, s) != {} && Migrate(r, Round(r, s)).Done?
  {
  }

  lemma FirstRound(r: Registered, s: State, log: seq<string>) returns (head: seq<string>, tail: seq<string>)
    requires s.pending <= r.nodes.Keys && Ready(r, s) != {} && ValidLog(r, s, log)
    ensures log == head + tail && Enumerates(head, Ready(r, s)) && ValidLog(r, Round(r, s), tail)
  {
    var n := |Ready(r, s)|;
    head, tail := log[..n], log[n..];
  }

  /** A completed migration applies every pending tag exactly once. */
  lemma {:induction false} AppliesEachOnce(r: Registered, s: State, log: seq<string>)
    requires s.pending <= r.nodes.Keys && Migrate(r, s).Done? && ValidLog(r, s, log)
    ensures Enumerates(log, s.pending)
    decreases s.pending
  {
    if s.pending == {} {
    } else {
      DoneContinues(r, s);
      var head, tail := FirstRound(r, s, log);
      AppliesEachOnce(r, Round(r, s), tail);
      EnumeratesConcat(head, tail, Ready(r, s), s.pending);
    }
  }

  /** Each tag of `log` finds its dependencies among `tags` and the ones before it. */
  ghost predicate DependenciesFirst(r: Registered, tags: set<string>, log: seq<string>) {
    var n := |log|;
    n > 0 ==>
      && log[n - 1] in r.nodes
      && IsReady(r, log[n - 1], tags + Elements(log[..n - 1]))
      && DependenciesFirst(r, tags, log[..n - 1])
  }

  lemma {:induction false} ReadyFirst(r: Registered, s: State, head: seq<string>)
    requires s.pending <= r.nodes.Keys && Elements(head) <= Ready(r, s)
    ensures DependenciesFirst(r, s.tags, head)
  {
    if head == [] {
    } else {
      var t := head[|head| - 1];
      assert t in Elements(head);
      assert Elements(head[..|head| - 1]) <= Elements(head);
      ReadyFirst(r, s, head[..|head| - 1]);
    }
  }

  lemma InitOfConcat(head: seq<string>, tail: seq<string>)
    requires tail != []
    ensures
      var log, init := head + tail, tail[..|tail| - 1];
      && log[|log| - 1] == tail[|tail| - 1]
      && log[..|log| - 1] == head + init
      && Elements(head + init) == Elements(head) + Elements(init)
  {
  }

  lemma {:induction false} DependenciesConcat(r: Registered, tags: set<string>, head: seq<string>, tail: seq<string>)
    requires DependenciesFirst(r, tags, head) && DependenciesFirst(r, tags + Elements(head), tail)
    ensures DependenciesFirst(r, tags, head + tail)
  {
    if tail == [] {
      assert head + tail == head;
    } else {
      var init := tail[..|tail| - 1];
      InitOfConcat(head, tail);
      DependenciesConcat(r, tags, head, init);
      assert tags + Elements(head) + Elements(init) == tags + (Elements(head) + Elements(init));
    }
  }

  lemma {:induction false} DependenciesWiden(r: Registered, a: set<string>, b: set<string>, log: seq<string>)
    requires DependenciesFirst(r, a, log) && a <= b
    ensures DependenciesFirst(r, b, log)
  {
    if log == [] {
    } else {
      DependenciesWiden(r, a, b, log[..|log| - 1]);
    }
  }

  /** Whatever the order within rounds, every dependency was there at the start or has been
      applied before its dependent. */
  lemma {:induction false} AppliesDependenciesFirst(r: Registered, s: State, log: seq<string>)
    requires s.pending <= r.nodes.Keys && ValidLog(r, s, log)
    ensures DependenciesFirst(r, s.tags, log)
    decreases s.pending
  {
    if Ready(r, s) != {} {
      var head, tail := FirstRound(r, s, log);
      AppliesDependenciesFirst(r, Round(r, s), tail);
      DependenciesWiden(r, Round(r, s).tags, s.tags + Elements(head), tail);
      ReadyFirst(r, s, head);
      DependenciesConcat(r, s.tags, head, tail);
    }
  }

  /** The state after `n` rounds. */
  function After(r: Registered, s: State, n: nat): (end: State)
    requires s.pending <= r.nodes.Keys
    ensures end.pending <= s.pending
  {
    if n == 0 then s else Round(r, After(r, s, n - 1))
  }

  /** `rounds` lists what each round applies, in some order. */
  ghost predicate ValidRounds(r: Registered, s: State, rounds: seq<seq<string>>)
    requires s.pending <= r.nodes.Keys
  {
    var n := |rounds| - 1;
    rounds != [] ==>
      && ValidRounds(r, s, rounds[..n])
      && Ready(r, After(r, s, n)) != {}
      && Enumerates(rounds[n], Ready(r, After(r, s, n)))
  }

  function Flat(rounds: seq<seq<string>>): seq<string> {
    if rounds == [] then [] else rounds[0] + Flat(rounds[1..])
  }

  lemma {:induction false} FlatSnoc(rounds: seq<seq<string>>, l: seq<string>)
    ensures Flat(rounds + [l]) == Flat(rounds) + l
  {
    if rounds == [] {
      assert [l][1..] == [] && l + [] == l;
    } else {
      assert (rounds + [l])[1..] == rounds[1..] + [l];
      FlatSnoc(rounds[1..], l);
    }
  }

  lemma ValidLogStep(r: Registered, s: State, head: seq<string>, tail: seq<string>)
    requires s.pending <= r.nodes.Keys && Ready(r, s) != {} && Enumerates(head, Ready(r, s))
    requires ValidLog(r, Round(r, s), tail)
    ensures ValidLog(r, s, head + tail)
  {
    var log := head + tail;
    assert log[..|head|] == head && log[|head|..] == tail;
  }

  lemma MigrateStep(r: Registered, s: State)
    requires s.pending <= r.nodes.Keys && Ready(r, s) != {}
    ensures Migrate(r, s) == Migrate(r, Round(r, s))
  {
  }

  lemma {:induction false} RoundAt(r: Registered, s: State, rounds: seq<seq<string>>, k: nat)
    returns (now: State, next: State)
    requires s.pending <= r.nodes.Keys && ValidRounds(r, s, rounds) && k < |rounds|
    ensures now == After(r, s, k) && next == After(r, s, k + 1) && now.pending <= r.nodes.Keys
    ensures next == Round(r, now) && Ready(r, now) != {} && Enumerates(rounds[k], Ready(r, now))
  {
    if k == |rounds| - 1 {
      now, next := After(r, s, k), After(r, s, k + 1);
    } else {
      now, next := RoundAt(r, s, rounds[..|rounds| - 1], k);
    }
  }

  lemma FlatFrom(rounds: seq<seq<string>>, k: nat)
    requires k < |rounds|
    ensures Flat(rounds[k..]) == rounds[k] + Flat(rounds[k + 1..])
  {
    assert rounds[k..][1..] == rounds[k + 1..];
  }

  /** Rounds that end with nothing ready make up a valid log. */
  lemma {:induction false} RoundsMakeLog(r: Registered, s: State, rounds: seq<seq<string>>, k: nat)
    requires s.pending <= r.nodes.Keys && ValidRounds(r, s, rounds) && k <= |rounds|
    requires Ready(r, After(r, s, |rounds|)) == {}
    ensures ValidLog(r, After(r, s, k), Flat(rounds[k..]))
    decreases |rounds| - k
  {
    if k < |rounds| {
      RoundsMakeLog(r, s, rounds, k + 1);
      var now, next := RoundAt(r, s, rounds, k);
      FlatFrom(rounds, k);
      ValidLogStep(r, now, rounds[k], Flat(rounds[k + 1..]));
    }
  }

  /** The ready downgrades of tags that are not there: applying one is an error. */
  function Unremovable(r: Registered, s: State): set<string>
    requires s.pending <= r.nodes.Keys
  {
    set t | t in Ready(r, s) && r.nodes[t].kind.Downgrade? && t !in s.tags
  }

  /** Some round meets such a downgrade. */
  predicate Fails(r: Registered, s: State)
    requires s.pending <= r.nodes.Keys
    decreases s.pending
  {
    Ready(r, s) != {} && (Unremovable(r, s) != {} || Fails(r, Round(r, s)))
  }

  /** The run gets to its end: no tag stays blocked and no downgrade fails. */
  predicate Finishes(r: Registered, s: State)
    requires s.pending <= r.nodes.Keys
  {
    Migrate(r, s).Done? && !Fails(r, s)
  }

  lemma {:induction false} OnCourseNeverFails(r: Registered, s: State, target: set<string>)
    requires r.Unambiguous() && OnCourse(r, s, target)
    ensures !Fails(r, s)
    decreases s.pending
  {
    if Ready(r, s) != {} {
      assert Unremovable(r, s) == {};
      RoundOnCourse(r, s, target);
      OnCourseNeverFails(r, Round(r, s), target);
    }
  }

  /** Only a tag registered both for upgrading and for downgrading can make a run fail. */
  lemma UnambiguousNeverFails(r: Registered, tags: set<string>)
    requires r.Unambiguous()
    ensures !Fails(r, Initial(r, tags))
  {
    InitialOnCourse(r, tags);
    OnCourseNeverFails(r, Initial(r, tags), Target(r, tags));
  }

  /** The invariant of the worklist loop: after `rounds` the state is `now`, and the outcome
      is still the same. */
  ghost predicate Working(r: Registered, start: State, rounds: seq<seq<string>>, now: State) {
    && start.pending <= r.nodes.Keys
    && now.pending <= r.nodes.Keys
    && ValidRounds(r, start, rounds)
    && now == After(r, start, |rounds|)
    && Migrate(r, now) == Migrate(r, start)
    && Fails(r, now) == Fails(r, start)
  }

  lemma WorkRound(r: Registered, start: State, rounds: seq<seq<string>>, now: State, next: State, applied: seq<string>)
    requires Working(r, start, rounds, now)
    requires Ready(r, now) != {} && Unremovable(r, now) == {}
    requires Enumerates(applied, Ready(r, now)) && next == Round(r, now)
    ensures Working(r, start, rounds + [applied], next)
  {
    MigrateStep(r, now);
    assert (rounds + [applied])[..|rounds|] == rounds;
  }

  lemma WorkBlocked(r: Registered, start: State, rounds: seq<seq<string>>, now: State)
    requires Working(r, start, rounds, now) && Ready(r, now) == {} && now.pending != {}
    ensures Migrate(r, start) == Stuck(now.pending) && !Fails(r, start)
  {
  }

  lemma WorkFails(r: Registered, start: State, rounds: seq<seq<string>>, now: State)
    requires Working(r, start, rounds, now) && Unremovable(r, now) != {}
    ensures Fails(r, start)
  {
    var t :| t in Unremovable(r, now);
    assert t in Ready(r, now);
  }

  lemma WorkDone(r: Registered, start: State, rounds: seq<seq<string>>, now: State)
    requires Working(r, start, rounds, now) && now.pending == {}
    ensures Migrate(r, start) == Done(now.tags) && !Fails(r, start) && ValidLog(r, start, Flat(rounds))
  {
    assert Ready(r, now) == {};
    RoundsMakeLog(r, start, rounds, 0);
    assert rounds[0..] == rounds;
  }

  ghost predicate Chained(r: Registered, chain: seq<string>)
    requires forall t <- chain :: t in r.nodes
  {
    forall i, j :: 0 <= i < j < |chain| && j == i + 1 ==> chain[i] in r.nodes[chain[j]].depends
  }

  lemma ChainedSnoc(r: Registered, chain: seq<string>, t: string)
    requires (forall u <- chain :: u in r.nodes) && Chained(r, chain) && t in r.nodes
    requires chain != [] ==> chain[|chain| - 1] in r.nodes[t].depends
    ensures (forall u <- chain + [t] :: u in r.nodes) && Chained(r, chain + [t])
  {
  }

  lemma {:induction false} AppliedBefore(r: Registered, tags: set<string>, log: seq<string>, q: nat, d: string)
    returns (m: nat)
    requires DependenciesFirst(r, tags, log) && q < |log| && log[q] in r.nodes
    requires d in r.nodes[log[q]].depends && d !in tags
    ensures m < q && log[m] == d
  {
    var n := |log| - 1;
    if q == n {
      assert d in log[..n];
      m :| 0 <= m < n && log[m] == d;
    } else {
      m := AppliedBefore(r, tags, log[..n], q, d);
    }
  }

  /** Tags that form a chain, each depending on the one before, are applied in chain
      order. */
  lemma {:induction false} ChainInOrder(r: Registered, tags: set<string>, log: seq<string>, chain: seq<string>,
                                        p: nat, q: nat, i: nat, j: nat)
    requires DependenciesFirst(r, tags, log) && Distinct(log)
    requires (forall t <- chain :: t in r.nodes && t !in tags) && Chained(r, chain)
    requires p < |log| && q < |log| && i < j < |chain| && log[p] == chain[i] && log[q] == chain[j]
    ensures p < q
    decreases j - i
  {
    assert chain[j - 1] in r.nodes[chain[j]].depends;
    var m := AppliedBefore(r, tags, log, q, chain[j - 1]);
    if i < j - 1 {
      ChainInOrder(r, tags, log, chain, p, m, i, j - 1);
    }
  }

  lemma {:induction false} EnumeratesDistinct(l: seq<string>, ts: set<string>)
    requires Enumerates(l, ts)
    ensures Distinct(l)
  {
    if l == [] {
    } else {
      var init, x := l[..|l| - 1], l[|l| - 1];
      assert Elements(l) == Elements(init) + {x};
      ElementsBound(init);
      assert x !in Elements(init) && |Elements(init)| == |init|;
      EnumeratesDistinct(init, Elements(init));
    }
  }

  lemma {:induction false} ElementsBound(l: seq<string>)
    ensures |Elements(l)| <= |l|
  {
    if l == [] {
    } else {
      ElementsBound(l[..|l| - 1]);
      assert Elements(l) == Elements(l[..|l| - 1]) + {l[|l| - 1]};
    }
  }

  /** In a completed migration a chain of missing tags is applied in order, whatever else
      is upgraded or downgraded. */
  lemma MigrationFollowsChain(r: Registered, tags: set<string>, log: seq<string>, chain: seq<string>,
                              p: nat, q: nat, i: nat, j: nat)
    requires r.WellFormed() && ValidLog(r, Initial(r, tags), log) && Migrate(r, Initial(r, tags)).Done?
    requires (forall t <- chain :: t in r.nodes && t !in tags) && Chained(r, chain)
    requires p < |log| && q < |log| && i < j < |chain| && log[p] == chain[i] && log[q] == chain[j]
    ensures p < q
  {
    AppliesEachOnce(r, Initial(r, tags), log);
    EnumeratesDistinct(log, Initial(r, tags).pending);
    AppliesDependenciesFirst(r, Initial(r, tags), log);
    ChainInOrder(r, tags, log, chain, p, q, i, j);
  }

  // ---- Dependencies on tags that are removed ----

  /** The tags after applying the migrations of `log` one by one. */
  function TagsAfter(r: Registered, tags: set<string>, log: seq<string>): set<string>
    requires forall t <- log :: t in r.nodes
  {
    if log == [] then tags
    else
      var t := log[|log| - 1];
      var before := TagsAfter(r, tags, log[..|log| - 1]);
      if r.nodes[t].kind.Upgrade? then before + {t} else before - {t}
  }

  /** The header of the script promises that a tag depending on one with a downgrader runs
      only after that one has been removed: at the moment each tag of `log` is applied,
      every downgraded tag it depends on is absent. */
  ghost predicate WaitsForRemovals(r: Registered, tags: set<string>, log: seq<string>)
    requires forall t <- log :: t in r.nodes
  {
    forall p :: 0 <= p < |log| ==> AppliedWithout(r, log[p], TagsAfter(r, tags, log[..p]))
  }

  ghost predicate AppliedWithout(r: Registered, t: string, now: set<string>)
    requires t in r.nodes
  {
    forall d <- r.nodes[t].depends :: d in r.untagSet ==> d !in now
  }

  ghost predicate DependsOnRemoved(r: Registered, t: string) {
    t in r.nodes && exists d <- r.nodes[t].depends :: d in r.untagSet
  }

  lemma AppliedStep(r: Registered, tags: set<string>, done: set<string>, t: string)
    requires done <= r.nodes.Keys && t in r.nodes && t !in done
    ensures var now := Applied(r, tags, done);
      && Applied(r, tags, done + {t}) == (if r.nodes[t].kind.Upgrade? then now + {t} else now - {t})
      && (t in now <==> t in tags)
  {
    assert Upgrades(r, done + {t}) == Upgrades(r, done) + if r.nodes[t].kind.Upgrade? then {t} else {};
  }

  lemma EnumeratesSnoc(l: seq<string>, ts: set<string>, t: string)
    requires Enumerates(l, ts) && t !in ts
    ensures Enumerates(l + [t], ts + {t})
  {
    assert Elements(l + [t]) == Elements(l) + {t};
  }

  lemma {:induction false} TagsAfterAll(r: Registered, tags: set<string>, l: seq<string>, ts: set<string>)
    requires Enumerates(l, ts) && ts <= r.nodes.Keys
    ensures forall t <- l :: t in r.nodes
    ensures TagsAfter(r, tags, l) == Applied(r, tags, ts)
  {
    assert forall t <- l :: t in Elements(l);
    if l == [] {
      assert ts == {};
      assert Applied(r, tags, {}) == tags;
    } else {
      var init, t := l[..|l| - 1], l[|l| - 1];
      EnumeratesInit(l, ts);
      TagsAfterAll(r, tags, init, ts - {t});
      AppliedStep(r, tags, ts - {t}, t);
      assert ts - {t} + {t} == ts;
    }
  }

  lemma EnumeratesInit(l: seq<string>, ts: set<string>)
    requires Enumerates(l, ts) && l != []
    ensures l[|l| - 1] in ts && Enumerates(l[..|l| - 1], ts - {l[|l| - 1]})
  {
    var init, t := l[..|l| - 1], l[|l| - 1];
    assert Elements(l) == Elements(init) + {t};
    ElementsBound(init);
    assert t !in Elements(init);
  }

  lemma {:induction false} TagsAfterConcat(r: Registered, tags: set<string>, a: seq<string>, b: seq<string>)
    requires (forall t <- a :: t in r.nodes) && forall t <- b :: t in r.nodes
    ensures TagsAfter(r, tags, a + b) == TagsAfter(r, TagsAfter(r, tags, a), b)
  {
    if b == [] {
      assert a + b == a;
    } else {
      var n := |b| - 1;
      TagsAfterConcat(r, tags, a, b[..n]);
      assert (a + b)[..|a + b| - 1] == a + b[..n];
    }
  }

  /** Some order of a set. */
  lemma {:induction false} Listing(ts: set<string>) returns (l: seq<string>)
    ensures Enumerates(l, ts)
  {
    if ts == {} {
      l := [];
      assert Elements(l) == {};
    } else {
      var t :| t in ts;
      l := Listing(ts - {t});
      EnumeratesSnoc(l, ts - {t}, t);
      assert ts - {t} + {t} == ts;
      l := l + [t];
    }
  }

  /** Some order with `t` first. */
  lemma ListingFrom(ts: set<string>, t: string) returns (l: seq<string>)
    requires t in ts
    ensures Enumerates(l, ts) && l != [] && l[0] == t
  {
    var rest := Listing(ts - {t});
    l := [t] + rest;
    assert Enumerates([t], {t}) by {
      assert Elements([t]) == {t};
    }
    EnumeratesConcat([t], rest, {t}, ts);
  }

  lemma {:induction false} SomeLog(r: Registered, s: State) returns (log: seq<string>)
    requires s.pending <= r.nodes.Keys
    ensures ValidLog(r, s, log)
    decreases s.pending
  {
    if Ready(r, s) == {} {
      log := [];
    } else {
      var head := Listing(Ready(r, s));
      var tail := SomeLog(r, Round(r, s));
      ValidLogStep(r, s, head, tail);
      log := head + tail;
    }
  }

  lemma FirstInRound(r: Registered, s: State, t: string, d: string) returns (log: seq<string>)
    requires s.pending <= r.nodes.Keys && t in Ready(r, s) && d in r.nodes[t].depends
    ensures ValidLog(r, s, log) && log != [] && log[0] == t && d in TagsAfter(r, s.tags, log[..0])
  {
    var head := ListingFrom(Ready(r, s), t);
    var tail := SomeLog(r, Round(r, s));
    ValidLogStep(r, s, head, tail);
    log := head + tail;
    assert log[..0] == [] && IsReady(r, t, s.tags);
  }

  lemma PrefixOfConcat(head: seq<string>, tail: seq<string>, q: nat)
    requires q < |tail|
    ensures (head + tail)[|head| + q] == tail[q] && (head + tail)[..|head| + q] == head + tail[..q]
  {
  }

  lemma TagsLater(r: Registered, tags: set<string>, head: seq<string>, ready: set<string>, tail: seq<string>, q: nat)
    returns (log: seq<string>, p: nat)
    requires Enumerates(head, ready) && ready <= r.nodes.Keys && q < |tail| && forall u <- tail :: u in r.nodes
    ensures log == head + tail && (forall u <- log :: u in r.nodes) && p < |log| && log[p] == tail[q]
    ensures TagsAfter(r, tags, log[..p]) == TagsAfter(r, Applied(r, tags, ready), tail[..q])
  {
    TagsAfterAll(r, tags, head, ready);
    TagsAfterConcat(r, tags, head, tail[..q]);
    log, p := head + tail, |head| + q;
    PrefixOfConcat(head, tail, q);
  }

  lemma InLaterRound(r: Registered, s: State, tail: seq<string>, q: nat) returns (log: seq<string>, p: nat)
    requires s.pending <= r.nodes.Keys && Ready(r, s) != {} && ValidLog(r, Round(r, s), tail)
    requires q < |tail| && forall u <- tail :: u in r.nodes
    ensures ValidLog(r, s, log) && (forall u <- log :: u in r.nodes)
    ensures p < |log| && log[p] == tail[q]
    ensures TagsAfter(r, s.tags, log[..p]) == TagsAfter(r, Round(r, s).tags, tail[..q])
  {
    var head := Listing(Ready(r, s));
    log, p := TagsLater(r, s.tags, head, Ready(r, s), tail, q);
    ValidLogStep(r, s, head, tail);
  }

  /** A tag that depends on a downgraded one can come first in its round, while that one
      is still there. */
  lemma {:induction false} AppliedTooEarly(r: Registered, s: State, t: string, d: string)
    returns (log: seq<string>, p: nat)
    requires s.pending <= r.nodes.Keys && Migrate(r, s).Done? && t in s.pending && d in r.nodes[t].depends
    ensures ValidLog(r, s, log) && (forall u <- log :: u in r.nodes)
    ensures p < |log| && log[p] == t && d in TagsAfter(r, s.tags, log[..p])
    decreases s.pending
  {
    DoneContinues(r, s);
    if t in Ready(r, s) {
      log := FirstInRound(r, s, t, d);
      p := 0;
      LogRegistered(r, s, log);
    } else {
      var tail, q := AppliedTooEarly(r, Round(r, s), t, d);
      log, p := InLaterRound(r, s, tail, q);
    }
  }

  lemma LogRegistered(r: Registered, s: State, log: seq<string>)
    requires s.pending <= r.nodes.Keys && Migrate(r, s).Done? && ValidLog(r, s, log)
    ensures forall t <- log :: t in s.pending && t in r.nodes
  {
    AppliesEachOnce(r, s, log);
    assert forall t <- log :: t in Elements(log);
  }

  lemma NeverEarly(r: Registered, tags: set<string>, log: seq<string>)
    requires forall t <- log :: t in r.nodes && !DependsOnRemoved(r, t)
    ensures WaitsForRemovals(r, tags, log)
  {
    forall p | 0 <= p < |log| ensures AppliedWithout(r, log[p], TagsAfter(r, tags, log[..p])) {
      assert !DependsOnRemoved(r, log[p]);
    }
  }

  /** Every order in which a migration may be applied keeps the promise. */
  ghost predicate PromiseKept(r: Registered, tags: set<string>)
    requires r.WellFormed()
  {
    forall log :: ValidLog(r, Initial(r, tags), log) ==>
      (forall t <- log :: t in r.nodes) && WaitsForRemovals(r, tags, log)
  }

  /** The promise fails of the code: readiness only tests membership.  A run that finishes
      keeps it, in every order its rounds may take, exactly when no pending tag depends on
      a tag with a downgrader. */
  lemma RemovalPromiseExactly(r: Registered, tags: set<string>)
    requires r.WellFormed() && Finishes(r, Initial(r, tags))
    ensures PromiseKept(r, tags) <==> forall t <- Initial(r, tags).pending :: !DependsOnRemoved(r, t)
  {
    var s := Initial(r, tags);
    if PromiseKept(r, tags) {
      forall t | t in s.pending ensures !DependsOnRemoved(r, t) {
        if d :| d in r.nodes[t].depends && d in r.untagSet {
          var log, p := AppliedTooEarly(r, s, t, d);
          assert !AppliedWithout(r, log[p], TagsAfter(r, tags, log[..p]));
        }
      }
    }
    if forall t <- s.pending :: !DependsOnRemoved(r, t) {
      forall log | ValidLog(r, s, log)
        ensures (forall t <- log :: t in r.nodes) && WaitsForRemovals(r, tags, log)
      {
        LogRegistered(r, s, log);
        NeverEarly(r, tags, log);
      }
    }
  }

  /** Once the tag it depends on is gone, a dependent can never run. */
  lemma {:induction false} RemovedDependencyBlocks(r: Registered, s: State, t: string, d: string)
    requires r.Unambiguous() && s.pending <= r.nodes.Keys
    requires t in s.pending && d in r.nodes[t].depends && d in r.untagSet && d !in s.tags
    ensures Migrate(r, s).Stuck?
    decreases s.pending
  {
    assert t !in Ready(r, s);
    if Ready(r, s) != {} {
      assert d !in Upgrades(r, Ready(r, s));
      RemovedDependencyBlocks(r, Round(r, s), t, d);
    }
  }

  /** An upgrade `up` that depends on the downgraded tag `down`. */
  function Example(up: string, down: string): Registered {
    Registered({up}, {down}, map[up := Node(Upgrade, [down]), down := Node(Downgrade, [])])
  }

  lemma ExampleRound(up: string, down: string)
    requires up != down
    ensures var r := Example(up, down);
      && r.Unambiguous()
      && r.Audited()
      && Initial(r, {down}) == State({down}, {up, down})
      && Ready(r, Initial(r, {down})) == {up, down}
      && Round(r, Initial(r, {down})).pending == {}
  {
    var r := Example(up, down);
    assert IsReady(r, up, {down}) && IsReady(r, down, {down});
  }

  lemma OneRoundLog(r: Registered, s: State, log: seq<string>)
    requires s.pending <= r.nodes.Keys && Ready(r, s) != {} && Round(r, s).pending == {} && Enumerates(log, Ready(r, s))
    ensures ValidLog(r, s, log)
  {
    assert Ready(r, Round(r, s)) == {};
    ValidLogStep(r, s, log, []);
    assert log + [] == log;
  }

  lemma ListsPair(a: string, b: string)
    requires a != b
    ensures Enumerates([a, b], {a, b})
  {
    assert Elements([a, b]) == {a, b};
  }

  lemma ExampleLog(up: string, down: string)
    requires up != down
    ensures var r := Example(up, down);
      && r.nodes.Keys == {up, down}
      && ValidLog(r, Initial(r, {down}), [up, down])
      && ValidLog(r, Initial(r, {down}), [down, up])
  {
    var r := Example(up, down);
    ExampleRound(up, down);
    ListsPair(up, down);
    ListsPair(down, up);
    assert {down, up} == {up, down};
    OneRoundLog(r, Initial(r, {down}), [up, down]);
    OneRoundLog(r, Initial(r, {down}), [down, up]);
  }

  /** With the old tag present the upgrade may run before the downgrade or after it; with it
      absent the migration aborts. */
  lemma RemovalPromiseFails(up: string, down: string)
    requires up != down
    ensures var r := Example(up, down);
      && r.Unambiguous()
      && r.Audited()
      && Migrate(r, Initial(r, {down})).Done?
      && ValidLog(r, Initial(r, {down}), [up, down]) && !WaitsForRemovals(r, {down}, [up, down])
      && ValidLog(r, Initial(r, {down}), [down, up]) && WaitsForRemovals(r, {down}, [down, up])
      && Migrate(r, Initial(r, {})).Stuck?
  {
    var r := Example(up, down);
    ExampleRound(up, down);
    ExampleLog(up, down);
    assert down in r.nodes[up].depends;
    assert [up, down][..0] == [] && TagsAfter(r, {down}, []) == {down};
    assert !AppliedWithout(r, [up, down][0], TagsAfter(r, {down}, [up, down][..0]));
    ExampleKept(up, down);
    RemovedDependencyBlocks(r, Initial(r, {}), up, down);
  }

  lemma ExampleKept(up: string, down: string)
    requires up != down
    ensures WaitsForRemovals(Example(up, down), {down}, [down, up])
  {
    var r, log := Example(up, down), [down, up];
    assert log[..0] == [] && log[..1] == [down] && [down][..0] == [];
    assert TagsAfter(r, {down}, log[..0]) == {down};
    assert TagsAfter(r, {down}, log[..1]) == {};
    assert AppliedWithout(r, down, {down});
    assert AppliedWithout(r, up, {});
  }
}
