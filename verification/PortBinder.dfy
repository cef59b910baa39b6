/** Binding ports from a saved configuration (configs/example/read_config.py).

Every connection is listed from both of its ends.  A single pass over the sorted list
makes a connection when both of its ports are next in line; a count at the end decides
whether everything was connected.
 */
module PortBinder {
  import opened Finite
  import opened Results
  import opened Sorting
  import opened Text

  /** A reference `obj.name[index]`. */
  datatype Port = Port(obj: string, name: string, index: nat)

  /** A vector port, whose elements are bound in index order. */
  datatype Key = Key(obj: string, name: string)

  datatype Connection = Connection(from: Port, to: Port)

  function KeyOf(p: Port): Key {
    Key(p.obj, p.name)
  }

  function Reverse(c: Connection): Connection {
    Connection(c.to, c.from)
  }

  // ---- The order of the pass ----

  predicate PortBefore(a: Port, b: Port) {
    if a.obj != b.obj then TextBefore(a.obj, b.obj)
    else if a.name != b.name then TextBefore(a.name, b.name)
    else a.index <= b.index
  }

  /** Connections compare as pairs of ports. */
  predicate InOrder(c: Connection, d: Connection) {
    if c.from != d.from then PortBefore(c.from, d.from) else PortBefore(c.to, d.to)
  }

  // ---- The pass ----

  datatype State = State(counters: map<Key, nat>, made: seq<Connection>)

  /** Every port that a connection starts from has a counter. */
  function Counters(cs: seq<Connection>): map<Key, nat> {
    if cs == [] then map[] else Counters(cs[..|cs| - 1])[KeyOf(cs[|cs| - 1].from) := 0]
  }

  lemma {:induction false} CountersStart(cs: seq<Connection>)
    ensures forall c <- cs :: KeyOf(c.from) in Counters(cs)
    ensures forall k <- Counters(cs) :: Counters(cs)[k] == 0
  {
    if cs == [] {
    } else {
      CountersStart(cs[..|cs| - 1]);
    }
  }

  predicate Next(counters: map<Key, nat>, p: Port) {
    KeyOf(p) in counters && counters[KeyOf(p)] == p.index
  }

  function Increment(counters: map<Key, nat>, k: Key): map<Key, nat>
    requires k in counters
  {
    counters[k := counters[k] + 1]
  }

  /** Looking up a port that no connection starts from is an error. */
  datatype Outcome = Scanned(state: State) | NoSuchPort(port: Port)

  function Visit(s: State, c: Connection): Outcome {
    if KeyOf(c.from) !in s.counters then NoSuchPort(c.from)
    else if !Next(s.counters, c.from) then Scanned(s)
    else if KeyOf(c.to) !in s.counters then NoSuchPort(c.to)
    else if !Next(s.counters, c.to) then Scanned(s)
    else Scanned(State(Increment(Increment(s.counters, KeyOf(c.from)), KeyOf(c.to)), s.made + [c]))
  }

  function Scan(start: map<Key, nat>, cs: seq<Connection>): Outcome {
    if cs == [] then Scanned(State(start, []))
    else
      match Scan(start, cs[..|cs| - 1])
      case NoSuchPort(p) => NoSuchPort(p)
      case Scanned(s) => Visit(s, cs[|cs| - 1])
  }

  datatype BindError = UnknownPort(port: Port) | CannotOrder

  method MakeCounters(connections: seq<Connection>) returns (counters: map<Key, nat>)
    ensures counters == Counters(connections)
  {
    counters := map[];
    for k := 0 to |connections|
      invariant counters == Counters(connections[..k])
    {
      assert connections[..k + 1][..k] == connections[..k];
      counters := counters[KeyOf(connections[k].from) := 0];
    }
    assert connections[..|connections|] == connections;
  }

  method MakeConnections(sorted: seq<Connection>, start: map<Key, nat>) returns (o: Outcome)
    ensures o == Scan(start, sorted)
  {
    var counters: map<Key, nat>, made: seq<Connection> := start, [];
    for k := 0 to |sorted|
      invariant Scan(start, sorted[..k]) == Scanned(State(counters, made))
    {
      var c := sorted[k];
      assert sorted[..k + 1][..k] == sorted[..k];
      if KeyOf(c.from) !in counters {
        FailsLater(start, sorted, k + 1);
        return NoSuchPort(c.from);
      }
      if counters[KeyOf(c.from)] == c.from.index {
        if KeyOf(c.to) !in counters {
          FailsLater(start, sorted, k + 1);
          return NoSuchPort(c.to);
        }
        if counters[KeyOf(c.to)] == c.to.index {
          made := made + [c];
          counters := counters[KeyOf(c.from) := counters[KeyOf(c.from)] + 1];
          counters := counters[KeyOf(c.to) := counters[KeyOf(c.to)] + 1];
        }
      }
    }
    assert sorted[..|sorted|] == sorted;
    o := Scanned(State(counters, made));
  }

  /** `bind_ports`, up to the assignments that do the binding. */
  method BindPorts(connections: seq<Connection>) returns (r: Result<seq<Connection>, BindError>)
    ensures r == match Scan(Counters(connections), Sort(connections, InOrder))
      case NoSuchPort(p) => Err(UnknownPort(p))
      case Scanned(s) => if 2 * |s.made| == |connections| then Ok(s.made) else Err(CannotOrder)
  {
    var counters := MakeCounters(connections);
    var o := MakeConnections(Sort(connections, InOrder), counters);
    match o {
      case NoSuchPort(p) => r := Err(UnknownPort(p));
      case Scanned(s) =>
        r := if |s.made| * 2 != |connections| then Err(CannotOrder) else Ok(s.made);
    }
  }

  lemma {:induction false} FailsLater(start: map<Key, nat>, cs: seq<Connection>, k: nat)
    requires k <= |cs| && Scan(start, cs[..k]).NoSuchPort?
    ensures Scan(start, cs) == Scan(start, cs[..k])
  {
    if k == |cs| {
      assert cs[..k] == cs;
    } else {
      assert cs[..|cs| - 1][..k] == cs[..k];
      FailsLater(start, cs[..|cs| - 1], k);
    }
  }

  // ---- Indices are used in order, without gaps ----

  /** The ports that have been bound, in the order they were. */
  function Ends(made: seq<Connection>): seq<Port> {
    if made == [] then []
    else Ends(made[..|made| - 1]) + [made[|made| - 1].from, made[|made| - 1].to]
  }

  /** The indices used of port `k`, in order. */
  function Used(ps: seq<Port>, k: Key): seq<nat> {
    if ps == [] then []
    else
      var used := Used(ps[..|ps| - 1], k);
      if KeyOf(ps[|ps| - 1]) == k then used + [ps[|ps| - 1].index] else used
  }

  function UpTo(n: nat): (s: seq<nat>)
    ensures |s| == n && forall i :: 0 <= i < n ==> s[i] == i
  {
    seq(n, i => i)
  }

  /** The counter of every port says how many of its indices are used, and they are the
      first ones in order. */
  ghost predicate Counted(s: State) {
    forall k <- s.counters :: Used(Ends(s.made), k) == UpTo(s.counters[k])
  }

  lemma UsedSnoc(ps: seq<Port>, p: Port, k: Key)
    ensures Used(ps + [p], k) == if KeyOf(p) == k then Used(ps, k) + [p.index] else Used(ps, k)
  {
    assert (ps + [p])[..|ps|] == ps;
  }

  lemma UsedTwo(ps: seq<Port>, p: Port, q: Port, k: Key)
    requires KeyOf(p) != KeyOf(q)
    ensures Used(ps + [p, q], k)
         == if KeyOf(p) == k then Used(ps, k) + [p.index]
            else if KeyOf(q) == k then Used(ps, k) + [q.index] else Used(ps, k)
  {
    UsedSnoc(ps, p, k);
    UsedSnoc(ps + [p], q, k);
    assert ps + [p, q] == ps + [p] + [q];
  }

  lemma CountedOne(ps: seq<Port>, c: Connection, counters: map<Key, nat>, k: Key)
    requires KeyOf(c.from) != KeyOf(c.to) && Next(counters, c.from) && Next(counters, c.to)
    requires k in counters && Used(ps, k) == UpTo(counters[k])
    ensures
      var more := Increment(Increment(counters, KeyOf(c.from)), KeyOf(c.to));
      Used(ps + [c.from, c.to], k) == UpTo(more[k])
  {
    UsedTwo(ps, c.from, c.to, k);
    assert UpTo(counters[k]) + [counters[k]] == UpTo(counters[k] + 1);
  }

  lemma EndsSnoc(made: seq<Connection>, c: Connection)
    ensures Ends(made + [c]) == Ends(made) + [c.from, c.to]
  {
    assert (made + [c])[..|made|] == made;
  }

  lemma VisitCounts(s: State, c: Connection)
    requires Counted(s) && c.from != c.to
    ensures var v := Visit(s, c); v.Scanned? ==> Counted(v.state)
  {
    var v := Visit(s, c);
    if v.Scanned? && v.state != s {
      EndsSnoc(s.made, c);
      forall k | k in v.state.counters ensures Used(Ends(v.state.made), k) == UpTo(v.state.counters[k]) {
        CountedOne(Ends(s.made), c, s.counters, k);
      }
    }
  }

  ghost predicate NoSelfLoops(cs: seq<Connection>) {
    forall c <- cs :: c.from != c.to
  }

  /** Whatever the order of the pass, each port's connections are made in index order 0,
      1, 2, ... with no gaps. */
  lemma {:induction false} ScanCounts(start: map<Key, nat>, cs: seq<Connection>)
    requires NoSelfLoops(cs) && forall k <- start :: start[k] == 0
    ensures var o := Scan(start, cs); o.Scanned? ==> Counted(o.state)
  {
    if cs == [] {
    } else {
      var init := cs[..|cs| - 1];
      ScanCounts(start, init);
      if Scan(start, init).Scanned? {
        VisitCounts(Scan(start, init).state, cs[|cs| - 1]);
      }
    }
  }

  // ---- The count check is exact ----

  /** No two connections share a port. */
  ghost predicate Matching(made: seq<Connection>) {
    var n := |made| - 1;
    made != [] ==>
      && Matching(made[..n])
      && made[n].from != made[n].to
      && made[n].from !in Ends(made[..n])
      && made[n].to !in Ends(made[..n])
  }

  lemma {:induction false} UsedHas(ps: seq<Port>, p: Port)
    requires p in ps
    ensures p.index in Used(ps, KeyOf(p))
  {
    if p != ps[|ps| - 1] {
      UsedHas(ps[..|ps| - 1], p);
    }
  }

  lemma NextIsUnused(s: State, p: Port)
    requires Counted(s) && Next(s.counters, p)
    ensures p !in Ends(s.made)
  {
    if p in Ends(s.made) {
      UsedHas(Ends(s.made), p);
    }
  }

  lemma VisitMatches(s: State, c: Connection)
    requires Counted(s) && Matching(s.made) && c.from != c.to
    ensures var v := Visit(s, c); v.Scanned? ==> Matching(v.state.made)
  {
    var v := Visit(s, c);
    if v.Scanned? && v.state != s {
      assert v.state.made[..|s.made|] == s.made;
      NextIsUnused(s, c.from);
      NextIsUnused(s, c.to);
    }
  }

  /** What is made is a matching, taken from the list. */
  lemma {:induction false} ScanMatches(start: map<Key, nat>, cs: seq<Connection>)
    requires NoSelfLoops(cs) && forall k <- start :: start[k] == 0
    ensures var o := Scan(start, cs);
      o.Scanned? ==> Matching(o.state.made) && forall c <- o.state.made :: c in cs
  {
    if cs == [] {
    } else {
      var init := cs[..|cs| - 1];
      ScanMatches(start, init);
      ScanCounts(start, init);
      if Scan(start, init).Scanned? {
        VisitMatches(Scan(start, init).state, cs[|cs| - 1]);
      }
    }
  }

  /** The connections made, seen from both ends. */
  function Both(made: seq<Connection>): set<Connection> {
    if made == [] then {}
    else
      var c := made[|made| - 1];
      Both(made[..|made| - 1]) + {c, Reverse(c)}
  }

  lemma {:induction false} BothMembers(made: seq<Connection>, c: Connection)
    ensures c in Both(made) <==> c in made || Reverse(c) in made
    ensures c in Both(made) ==> c.from in Ends(made) && c.to in Ends(made)
  {
    if made == [] {
    } else {
      var init, d := made[..|made| - 1], made[|made| - 1];
      BothMembers(init, c);
      assert made == init + [d];
      assert Reverse(c) == d <==> c == Reverse(d);
    }
  }

  lemma {:induction false} BothSize(made: seq<Connection>)
    requires Matching(made)
    ensures |Both(made)| == 2 * |made|
  {
    if made == [] {
    } else {
      var init, c := made[..|made| - 1], made[|made| - 1];
      BothSize(init);
      BothMembers(init, c);
      BothMembers(init, Reverse(c));
      assert Both(init) !! {c, Reverse(c)} && c != Reverse(c);
      assert |Both(init) + {c, Reverse(c)}| == |Both(init)| + |{c, Reverse(c)}|;
    }
  }

  lemma {:induction false} NotBothWays(made: seq<Connection>, c: Connection)
    requires Matching(made) && c in made
    ensures Reverse(c) !in made
  {
    var n := |made| - 1;
    if c == made[n] {
      BothMembers(made[..n], c);
    } else {
      NotBothWays(made[..n], c);
      BothMembers(made[..n], c);
      assert c in made[..n];
    }
  }

  /** What the comment in the source asks of the list: every connection is there in both
      directions, once, and connects two different ports. */
  ghost predicate Symmetric(cs: seq<Connection>) {
    && |Elements(cs)| == |cs|
    && (forall c <- cs :: Reverse(c) in cs)
    && NoSelfLoops(cs)
  }

  /** `c` has been made, in exactly one of its two directions. */
  ghost predicate MadeOnce(made: seq<Connection>, c: Connection) {
    c in made <==> Reverse(c) !in made
  }

  lemma BothWithin(cs: seq<Connection>, made: seq<Connection>)
    requires (forall c <- cs :: Reverse(c) in cs) && forall c <- made :: c in cs
    ensures Both(made) <= Elements(cs)
  {
    forall c | c in Both(made) ensures c in Elements(cs) {
      BothMembers(made, c);
      assert Reverse(Reverse(c)) == c;
    }
  }

  lemma MatchingCountsExactly(cs: seq<Connection>, made: seq<Connection>)
    requires Symmetric(cs) && Matching(made) && forall c <- made :: c in cs
    ensures 2 * |made| == |cs| <==> forall c <- cs :: MadeOnce(made, c)
  {
    BothSize(made);
    BothWithin(cs, made);
    SubsetSize(Both(made), Elements(cs));
    if Both(made) == Elements(cs) {
      forall c | c in cs ensures MadeOnce(made, c) {
        assert c in Elements(cs);
        OnceIfCovered(made, c);
      }
    } else {
      var c :| c in Elements(cs) && c !in Both(made);
      BothMembers(made, c);
      assert c in cs && !MadeOnce(made, c);
    }
  }

  lemma OnceIfCovered(made: seq<Connection>, c: Connection)
    requires Matching(made) && c in Both(made)
    ensures MadeOnce(made, c)
  {
    BothMembers(made, c);
    if c in made {
      NotBothWays(made, c);
    }
  }

  lemma {:induction false} NoUnknownPorts(start: map<Key, nat>, cs: seq<Connection>)
    requires forall c <- cs :: KeyOf(c.from) in start && KeyOf(c.to) in start
    ensures var o := Scan(start, cs); o.Scanned? && o.state.counters.Keys == start.Keys
  {
    if cs == [] {
    } else {
      NoUnknownPorts(start, cs[..|cs| - 1]);
    }
  }

  /** For a symmetric list the pass never meets an unknown port, and its count check
      passes if and only if every connection has been made exactly once. */
  lemma BindingExactly(connections: seq<Connection>)
    requires Symmetric(connections)
    ensures
      var o := Scan(Counters(connections), Sort(connections, InOrder));
      && o.Scanned?
      && Counted(o.state)
      && Matching(o.state.made)
      && (2 * |o.state.made| == |connections| <==> forall c <- connections :: MadeOnce(o.state.made, c))
  {
    var start, sorted := Counters(connections), Sort(connections, InOrder);
    SortMembers(connections, InOrder);
    CountersStart(connections);
    forall c | c in sorted ensures KeyOf(c.from) in start && KeyOf(c.to) in start {
      assert Reverse(c) in connections;
      assert KeyOf(Reverse(c).from) in start;
    }
    NoUnknownPorts(start, sorted);
    ScanCounts(start, sorted);
    ScanMatches(start, sorted);
    MatchingCountsExactly(connections, Scan(start, sorted).state.made);
  }

  // ---- The sorted pass is not complete ----

  lemma ScanSnoc(start: map<Key, nat>, cs: seq<Connection>, c: Connection)
    ensures Scan(start, cs + [c]) == match Scan(start, cs)
      case NoSuchPort(p) => NoSuchPort(p)
      case Scanned(s) => Visit(s, c)
  {
    assert (cs + [c])[..|cs|] == cs;
  }

  function At(k: Key, index: nat): Port {
    Port(k.obj, k.name, index)
  }

  /** Three connections, each listed from both ends. */
  function Crossing(ab: Key, df: Key, eg: Key, fh: Key): seq<Connection> {
    [Connection(At(ab, 0), At(df, 1)), Connection(At(df, 0), At(eg, 1)), Connection(At(df, 1), At(ab, 0)),
     Connection(At(eg, 0), At(fh, 0)), Connection(At(eg, 1), At(df, 0)), Connection(At(fh, 0), At(eg, 0))]
  }

  /** A pass in this order makes only two of them. */
  lemma CrossingPass(ab: Key, df: Key, eg: Key, fh: Key, start: map<Key, nat>)
    requires ab != df && ab != eg && ab != fh && df != eg && df != fh && eg != fh
    requires start == map[ab := 0, df := 0, eg := 0, fh := 0]
    ensures var o := Scan(start, Crossing(ab, df, eg, fh)); o.Scanned? && |o.state.made| == 2
  {
    var cs := Crossing(ab, df, eg, fh);
    var s1 := start[eg := 1][fh := 1];
    var s2 := s1[eg := 2][df := 1];
    ScanSnoc(start, [], cs[0]);
    assert [] + [cs[0]] == cs[..1];
    ScanSnoc(start, cs[..1], cs[1]);
    assert cs[..1] + [cs[1]] == cs[..2];
    ScanSnoc(start, cs[..2], cs[2]);
    assert cs[..2] + [cs[2]] == cs[..3];
    assert Scan(start, cs[..3]) == Scanned(State(start, []));
    ScanSnoc(start, cs[..3], cs[3]);
    assert cs[..3] + [cs[3]] == cs[..4];
    assert Scan(start, cs[..4]) == Scanned(State(s1, [cs[3]]));
    ScanSnoc(start, cs[..4], cs[4]);
    assert cs[..4] + [cs[4]] == cs[..5];
    assert Scan(start, cs[..5]) == Scanned(State(s2, [cs[3], cs[4]]));
    ScanSnoc(start, cs[..5], cs[5]);
    assert cs[..5] + [cs[5]] == cs;
  }

  /** Another order makes all three. */
  lemma CrossingCanBeBound(ab: Key, df: Key, eg: Key, fh: Key, start: map<Key, nat>, order: seq<Connection>)
    requires ab != df && ab != eg && ab != fh && df != eg && df != fh && eg != fh
    requires start == map[ab := 0, df := 0, eg := 0, fh := 0]
    requires var cs := Crossing(ab, df, eg, fh); order == [cs[3], cs[4], cs[2]]
    ensures Scan(start, order).Scanned? && Scan(start, order).state.made == order
  {
    var s1 := start[eg := 1][fh := 1];
    var s2 := s1[eg := 2][df := 1];
    ScanSnoc(start, [], order[0]);
    assert [] + [order[0]] == order[..1];
    assert Scan(start, order[..1]) == Scanned(State(s1, order[..1]));
    ScanSnoc(start, order[..1], order[1]);
    assert order[..1] + [order[1]] == order[..2];
    assert Scan(start, order[..2]) == Scanned(State(s2, order[..2]));
    ScanSnoc(start, order[..2], order[2]);
    assert order[..2] + [order[2]] == order;
  }

  const AB := Key("a", "b")
  const DF := Key("d", "f")
  const EG := Key("e", "g")
  const FH := Key("f", "h")

  lemma CrossingInOrder(ab: Key, df: Key, eg: Key, fh: Key)
    requires ab.obj != df.obj && ab.obj != eg.obj && ab.obj != fh.obj
    requires df.obj != eg.obj && df.obj != fh.obj && eg.obj != fh.obj
    requires TextBefore(ab.obj, df.obj) && TextBefore(ab.obj, eg.obj) && TextBefore(ab.obj, fh.obj)
    requires TextBefore(df.obj, eg.obj) && TextBefore(df.obj, fh.obj) && TextBefore(eg.obj, fh.obj)
    ensures Ordered(Crossing(ab, df, eg, fh), InOrder)
  {
  }

  lemma SortedAlready(cs: seq<Connection>)
    requires Ordered(cs, InOrder)
    ensures Sort(cs, InOrder) == cs
  {
    SortOfOrdered(cs, InOrder);
  }

  lemma CrossingSorted()
    ensures Sort(Crossing(AB, DF, EG, FH), InOrder) == Crossing(AB, DF, EG, FH)
  {
    assert TextBefore("a", "d") && TextBefore("a", "e") && TextBefore("a", "f");
    assert TextBefore("d", "e") && TextBefore("d", "f") && TextBefore("e", "f");
    CrossingInOrder(AB, DF, EG, FH);
    SortedAlready(Crossing(AB, DF, EG, FH));
  }

  lemma CrossingSymmetric(ab: Key, df: Key, eg: Key, fh: Key)
    requires ab != df && ab != eg && ab != fh && df != eg && df != fh && eg != fh
    ensures Symmetric(Crossing(ab, df, eg, fh))
  {
    var cs := Crossing(ab, df, eg, fh);
    assert Elements(cs) == {cs[0], cs[1], cs[2], cs[3], cs[4], cs[5]};
    assert |{cs[0], cs[1], cs[2], cs[3], cs[4], cs[5]}| == 6;
    assert Reverse(cs[0]) == cs[2] && Reverse(cs[1]) == cs[4] && Reverse(cs[3]) == cs[5];
    assert Reverse(cs[2]) == cs[0] && Reverse(cs[4]) == cs[1] && Reverse(cs[5]) == cs[3];
  }

  /** The comment in the source says that exactly one direction of each pair will be
      bindable because the list is sorted.  That fails: this symmetric list is rejected
      although its connections can be bound. */
  lemma SortedPassIsNotComplete()
    ensures Symmetric(Crossing(AB, DF, EG, FH))
    ensures
      var cs := Crossing(AB, DF, EG, FH);
      var o := Scan(Counters(cs), Sort(cs, InOrder));
      && o.Scanned?
      && 2 * |o.state.made| != |cs|
      && var order := [cs[3], cs[4], cs[2]];
         Scan(Counters(cs), order).Scanned? && Scan(Counters(cs), order).state.made == order
  {
    var cs := Crossing(AB, DF, EG, FH);
    CrossingSymmetric(AB, DF, EG, FH);
    CrossingCounters(AB, DF, EG, FH);
    CrossingSorted();
    CrossingPass(AB, DF, EG, FH, Counters(cs));
    CrossingCanBeBound(AB, DF, EG, FH, Counters(cs), [cs[3], cs[4], cs[2]]);
  }

  lemma CountersSnoc(cs: seq<Connection>, c: Connection)
    ensures Counters(cs + [c]) == Counters(cs)[KeyOf(c.from) := 0]
  {
    assert (cs + [c])[..|cs|] == cs;
  }

  lemma CrossingCounters(ab: Key, df: Key, eg: Key, fh: Key)
    requires ab != df && ab != eg && ab != fh && df != eg && df != fh && eg != fh
    ensures Counters(Crossing(ab, df, eg, fh)) == map[ab := 0, df := 0, eg := 0, fh := 0]
  {
    var cs := Crossing(ab, df, eg, fh);
    assert [] + [cs[0]] == cs[..1];
    CountersSnoc([], cs[0]);
    assert cs[..1] + [cs[1]] == cs[..2];
    CountersSnoc(cs[..1], cs[1]);
    assert cs[..2] + [cs[2]] == cs[..3];
    CountersSnoc(cs[..2], cs[2]);
    assert cs[..3] + [cs[3]] == cs[..4];
    CountersSnoc(cs[..3], cs[3]);
    assert cs[..4] + [cs[4]] == cs[..5];
    CountersSnoc(cs[..4], cs[4]);
    assert cs[..5] + [cs[5]] == cs;
    CountersSnoc(cs[..5], cs[5]);
  }

  // ---- The pass visits the connections in order ----

  lemma PortTotal(a: Port, b: Port)
    ensures PortBefore(a, b) || PortBefore(b, a)
    ensures PortBefore(a, b) && PortBefore(b, a) ==> a == b
  {
    TextTotal(a.obj, b.obj);
    TextTotal(a.name, b.name);
  }

  lemma PortTransitive(a: Port, b: Port, c: Port)
    requires PortBefore(a, b) && PortBefore(b, c)
    ensures PortBefore(a, c)
  {
    if a.obj != b.obj && b.obj != c.obj {
      TextTransitive(a.obj, b.obj, c.obj);
      TextTotal(a.obj, b.obj);
    } else if a.obj == b.obj == c.obj && a.name != b.name && b.name != c.name {
      TextTransitive(a.name, b.name, c.name);
      TextTotal(a.name, b.name);
    }
  }

  lemma InOrderTransitive(a: Connection, b: Connection, c: Connection)
    requires InOrder(a, b) && InOrder(b, c)
    ensures InOrder(a, c)
  {
    if a.from != b.from && b.from != c.from {
      PortTransitive(a.from, b.from, c.from);
      PortTotal(a.from, b.from);
    } else if a.from == b.from == c.from {
      PortTransitive(a.to, b.to, c.to);
    }
  }

  lemma InOrderIsOrder()
    ensures TotalPreorder(InOrder)
  {
    forall a, b ensures InOrder(a, b) || InOrder(b, a) {
      PortTotal(a.from, b.from);
      PortTotal(a.to, b.to);
    }
    forall a, b, c | InOrder(a, b) && InOrder(b, c) ensures InOrder(a, c) {
      InOrderTransitive(a, b, c);
    }
  }

  /** Object names come first, then port names, then indices. */
  lemma PortOrder(a: Port, b: Port)
    requires PortBefore(a, b)
    ensures TextBefore(a.obj, b.obj)
    ensures a.obj == b.obj ==> TextBefore(a.name, b.name)
    ensures a.obj == b.obj && a.name == b.name ==> a.index <= b.index
  {
    TextTotal(a.obj, b.obj);
    TextTotal(a.name, b.name);
  }

  /** The pass visits every connection once.  They come in order of the object they start
      from, then of its port, then of the index, and then of the port they lead to in the
      same way. */
  lemma PassIsSorted(connections: seq<Connection>, i: nat, j: nat)
    ensures Ordered(Sort(connections, InOrder), InOrder)
    ensures multiset(Sort(connections, InOrder)) == multiset(connections)
    ensures i < j < |connections| ==>
      var c, d := Sort(connections, InOrder)[i], Sort(connections, InOrder)[j];
      && TextBefore(c.from.obj, d.from.obj)
      && (c.from.obj == d.from.obj ==> TextBefore(c.from.name, d.from.name))
      && (c.from.obj == d.from.obj && c.from.name == d.from.name ==> c.from.index <= d.from.index)
      && (c.from == d.from ==> TextBefore(c.to.obj, d.to.obj))
      && (c.from == d.from && c.to.obj == d.to.obj ==> TextBefore(c.to.name, d.to.name))
      && (c.from == d.from && c.to.obj == d.to.obj && c.to.name == d.to.name ==> c.to.index <= d.to.index)
  {
    InOrderIsOrder();
    SortOrders(connections, InOrder);
    SortPermutes(connections, InOrder);
    if i < j < |connections| {
      var c, d := Sort(connections, InOrder)[i], Sort(connections, InOrder)[j];
      assert InOrder(c, d);
      ConnectionOrder(c, d);
    }
  }

  lemma ConnectionOrder(c: Connection, d: Connection)
    requires InOrder(c, d)
    ensures PortBefore(c.from, d.from) && (c.from == d.from ==> PortBefore(c.to, d.to))
    ensures TextBefore(c.from.obj, d.from.obj)
    ensures c.from.obj == d.from.obj ==> TextBefore(c.from.name, d.from.name)
    ensures c.from == d.from ==> TextBefore(c.to.obj, d.to.obj)
    ensures c.from == d.from && c.to.obj == d.to.obj ==> TextBefore(c.to.name, d.to.name)
  {
    PortOrder(c.from, d.from);
    if c.from == d.from {
      PortOrder(c.to, d.to);
    }
  }

  // ---- When the pass succeeds ----

  /** Each connection's two ports are next in line when it comes. */
  predicate InTurn(plan: seq<Connection>) {
    var n := |plan| - 1;
    plan != [] ==>
      && InTurn(plan[..n])
      && Used(Ends(plan[..n]), KeyOf(plan[n].from)) == UpTo(plan[n].from.index)
      && Used(Ends(plan[..n]), KeyOf(plan[n].to)) == UpTo(plan[n].to.index)
  }

  /** `plan` leaves out some elements of `cs`. */
  predicate Subsequence(plan: seq<Connection>, cs: seq<Connection>) {
    if plan == [] then true
    else if cs == [] then false
    else
      || (plan[|plan| - 1] == cs[|cs| - 1] && Subsequence(plan[..|plan| - 1], cs[..|cs| - 1]))
      || Subsequence(plan, cs[..|cs| - 1])
  }

  /** The pass ends with every connection counted. */
  predicate Binds(connections: seq<Connection>) {
    var o := Scan(Counters(connections), Sort(connections, InOrder));
    o.Scanned? && 2 * |o.state.made| == |connections|
  }

  /** One direction of every connection, in an order that keeps each port's indices in turn. */
  ghost predicate PlanFor(plan: seq<Connection>, sorted: seq<Connection>) {
    && InTurn(plan)
    && Subsequence(plan, sorted)
    && forall c <- sorted :: c in Both(plan)
  }

  lemma NotInTurn(ps: seq<Port>, p: Port)
    requires Used(ps, KeyOf(p)) == UpTo(p.index)
    ensures p !in ps
  {
    if p in ps {
      UsedHas(ps, p);
    }
  }

  lemma {:induction false} InTurnMatches(plan: seq<Connection>)
    requires InTurn(plan) && NoSelfLoops(plan)
    ensures Matching(plan)
  {
    if plan == [] {
    } else {
      var n := |plan| - 1;
      InTurnMatches(plan[..n]);
      NotInTurn(Ends(plan[..n]), plan[n].from);
      NotInTurn(Ends(plan[..n]), plan[n].to);
    }
  }

  /** A port has one peer. */
  ghost predicate OnePeer(cs: seq<Connection>) {
    forall c <- cs, d <- cs :: c.from == d.from ==> c == d
  }

  lemma {:induction false} MatchedOnce(made: seq<Connection>, c: Connection, d: Connection)
    requires Matching(made) && c in Both(made) && d in Both(made) && c.from == d.from
    ensures c == d
  {
    var n := |made| - 1;
    BothMembers(made[..n], c);
    BothMembers(made[..n], d);
    if c in Both(made[..n]) && d in Both(made[..n]) {
      MatchedOnce(made[..n], c, d);
    }
  }

  lemma {:induction false} SubsequenceMembers(plan: seq<Connection>, cs: seq<Connection>)
    requires Subsequence(plan, cs)
    ensures forall c <- plan :: c in cs
    decreases |cs|
  {
    if plan == [] {
    } else {
      var m, n := |plan| - 1, |cs| - 1;
      if plan[m] == cs[n] && Subsequence(plan[..m], cs[..n]) {
        SubsequenceMembers(plan[..m], cs[..n]);
        assert plan == plan[..m] + [plan[m]];
      } else {
        SubsequenceMembers(plan, cs[..n]);
      }
    }
  }

  lemma {:induction false} EndOf(made: seq<Connection>, p: Port) returns (c: Connection)
    requires p in Ends(made)
    ensures c in made && (c.from == p || c.to == p)
  {
    var n := |made| - 1;
    if p in Ends(made[..n]) {
      c := EndOf(made[..n], p);
    } else {
      c := made[n];
    }
  }

  lemma {:induction false} UsedFrom(ps: seq<Port>, k: Key, i: nat)
    requires i in Used(ps, k)
    ensures At(k, i) in ps
  {
    var p := ps[|ps| - 1];
    if !(KeyOf(p) == k && p.index == i) {
      UsedFrom(ps[..|ps| - 1], k, i);
    }
  }

  /** If all of `plan` has been made, a port next in line for it is next in line or bound. */
  lemma CaughtUp(s: State, plan: seq<Connection>, p: Port)
    requires Counted(s) && KeyOf(p) in s.counters && (forall c <- plan :: c in Both(s.made))
    requires Used(Ends(plan), KeyOf(p)) == UpTo(p.index)
    ensures Next(s.counters, p) || p in Ends(s.made)
  {
    var k := KeyOf(p);
    var n := s.counters[k];
    if n < p.index {
      assert UpTo(p.index)[n] == n;
      UsedFrom(Ends(plan), k, n);
      var c := EndOf(plan, At(k, n));
      BothMembers(s.made, c);
      UsedHas(Ends(s.made), At(k, n));
      assert false;
    } else if n > p.index {
      assert UpTo(n)[p.index] == p.index;
      UsedFrom(Ends(s.made), k, p.index);
    }
  }

  lemma PeerMade(cs: seq<Connection>, made: seq<Connection>, c: Connection, p: Port)
    requires OnePeer(cs) && (forall d <- cs :: Reverse(d) in cs) && c in cs && (forall m <- made :: m in cs)
    requires p in Ends(made) && (p == c.from || p == c.to)
    ensures c in Both(made)
  {
    var m := EndOf(made, p);
    BothMembers(made, c);
    assert Reverse(m) in cs && Reverse(c) in cs;
    assert Reverse(Reverse(c)) == c;
    if p == c.from {
      assert m.from == p ==> m == c;
      assert m.to == p ==> Reverse(m) == c;
    } else {
      assert m.from == p ==> m == Reverse(c);
      assert m.to == p ==> Reverse(m) == Reverse(c);
    }
  }

  lemma VisitKeeps(s: State, c: Connection, d: Connection)
    requires Visit(s, c).Scanned? && d in Both(s.made)
    ensures d in Both(Visit(s, c).state.made)
  {
    var t := Visit(s, c).state;
    assert t != s ==> t.made[..|s.made|] == s.made;
  }

  ghost predicate AllMade(plan: seq<Connection>, made: seq<Connection>) {
    forall d <- plan :: d in Both(made)
  }

  lemma VisitKeepsAll(s: State, c: Connection, plan: seq<Connection>)
    requires Visit(s, c).Scanned? && AllMade(plan, s.made)
    ensures AllMade(plan, Visit(s, c).state.made)
  {
    forall d | d in plan ensures d in Both(Visit(s, c).state.made) {
      VisitKeeps(s, c, d);
    }
  }

  /** Visiting the next connection of the plan makes it, unless it has been made already. */
  lemma VisitFollows(cs: seq<Connection>, s: State, plan: seq<Connection>, c: Connection)
    requires OnePeer(cs) && (forall d <- cs :: Reverse(d) in cs) && c in cs && (forall m <- s.made :: m in cs)
    requires Counted(s) && KeyOf(c.from) in s.counters && KeyOf(c.to) in s.counters && AllMade(plan, s.made)
    requires Used(Ends(plan), KeyOf(c.from)) == UpTo(c.from.index)
    requires Used(Ends(plan), KeyOf(c.to)) == UpTo(c.to.index)
    ensures Visit(s, c).Scanned? && c in Both(Visit(s, c).state.made)
  {
    CaughtUp(s, plan, c.from);
    CaughtUp(s, plan, c.to);
    if c.from in Ends(s.made) {
      PeerMade(cs, s.made, c, c.from);
      VisitKeeps(s, c, c);
    } else if c.to in Ends(s.made) {
      PeerMade(cs, s.made, c, c.to);
      VisitKeeps(s, c, c);
    }
  }

  lemma PlanStep(cs: seq<Connection>, s: State, plan: seq<Connection>, c: Connection)
    requires OnePeer(cs) && (forall d <- cs :: Reverse(d) in cs) && c in cs && (forall m <- s.made :: m in cs)
    requires Counted(s) && KeyOf(c.from) in s.counters && KeyOf(c.to) in s.counters
    requires plan != [] && plan[|plan| - 1] == c && InTurn(plan) && AllMade(plan[..|plan| - 1], s.made)
    ensures Visit(s, c).Scanned? && AllMade(plan, Visit(s, c).state.made)
  {
    var init := plan[..|plan| - 1];
    VisitFollows(cs, s, init, c);
    VisitKeepsAll(s, c, init);
    assert plan == init + [c];
  }

  ghost predicate Startable(cs: seq<Connection>, start: map<Key, nat>) {
    && (forall d <- cs :: KeyOf(d.from) in start && KeyOf(d.to) in start)
    && (forall k <- start :: start[k] == 0)
  }

  /** The state after the connections seen so far. */
  lemma Reached(cs: seq<Connection>, start: map<Key, nat>, seen: seq<Connection>) returns (s: State)
    requires NoSelfLoops(cs) && Startable(cs, start) && forall d <- seen :: d in cs
    ensures Scan(start, seen) == Scanned(s) && Counted(s) && s.counters.Keys == start.Keys
    ensures forall m <- s.made :: m in cs
  {
    NoUnknownPorts(start, seen);
    ScanCounts(start, seen);
    ScanMatches(start, seen);
    s := Scan(start, seen).state;
  }

  /** Making connections as early as possible never falls behind any plan. */
  lemma {:induction false} NeverBehind(cs: seq<Connection>, start: map<Key, nat>, seen: seq<Connection>,
                                       plan: seq<Connection>)
    returns (after: State)
    requires OnePeer(cs) && NoSelfLoops(cs) && (forall d <- cs :: Reverse(d) in cs) && Startable(cs, start)
    requires (forall d <- seen :: d in cs) && Subsequence(plan, seen) && InTurn(plan)
    ensures Scan(start, seen) == Scanned(after) && AllMade(plan, after.made)
    decreases |seen|
  {
    after := Reached(cs, start, seen);
    if plan == [] {
    } else {
      var m, n := |plan| - 1, |seen| - 1;
      var init, c := plan[..m], seen[n];
      var s := Reached(cs, start, seen[..n]);
      if plan[m] == c && Subsequence(init, seen[..n]) {
        var s' := NeverBehind(cs, start, seen[..n], init);
        PlanStep(cs, s, plan, c);
      } else {
        var s' := NeverBehind(cs, start, seen[..n], plan);
        VisitKeepsAll(s, c, plan);
      }
    }
  }

  /** What the pass makes is itself in turn. */
  lemma {:induction false} MadeInTurn(start: map<Key, nat>, cs: seq<Connection>)
    requires NoSelfLoops(cs) && (forall k <- start :: start[k] == 0)
    ensures var o := Scan(start, cs); o.Scanned? ==> InTurn(o.state.made) && Subsequence(o.state.made, cs)
  {
    if cs == [] {
    } else {
      var init, c := cs[..|cs| - 1], cs[|cs| - 1];
      MadeInTurn(start, init);
      ScanCounts(start, init);
      var o := Scan(start, init);
      if o.Scanned? && Visit(o.state, c).Scanned? {
        var t := Visit(o.state, c).state;
        assert t != o.state ==> t.made[..|o.state.made|] == o.state.made;
      }
    }
  }

  lemma PlanGivesPeers(plan: seq<Connection>, sorted: seq<Connection>)
    requires PlanFor(plan, sorted) && NoSelfLoops(sorted)
    ensures OnePeer(sorted)
  {
    SubsequenceMembers(plan, sorted);
    InTurnMatches(plan);
    forall c, d | c in sorted && d in sorted && c.from == d.from ensures c == d {
      MatchedOnce(plan, c, d);
    }
  }

  lemma AllOnce(sorted: seq<Connection>, plan: seq<Connection>, made: seq<Connection>)
    requires PlanFor(plan, sorted) && AllMade(plan, made) && Matching(made)
    ensures forall c <- sorted :: MadeOnce(made, c)
  {
    forall c | c in sorted ensures MadeOnce(made, c) {
      BothMembers(plan, c);
      BothMembers(made, c);
      BothMembers(made, Reverse(c));
      assert Reverse(Reverse(c)) == c;
      OnceIfCovered(made, c);
    }
  }

  /** The pass binds every port exactly when there is any way at all to choose one direction
      of each connection so that, along the sorted list, each port's indices come in turn. */
  lemma SucceedsExactly(connections: seq<Connection>)
    requires Symmetric(connections)
    ensures Binds(connections) <==> exists plan :: PlanFor(plan, Sort(connections, InOrder))
  {
    var start, sorted := Counters(connections), Sort(connections, InOrder);
    SortMembers(connections, InOrder);
    BindingExactly(connections);
    PassStarts(connections, sorted, start);
    var made := Scan(start, sorted).state.made;
    if 2 * |made| == |connections| {
      MadeInTurn(start, sorted);
      forall c | c in sorted ensures c in Both(made) {
        assert MadeOnce(made, c);
        BothMembers(made, c);
      }
      assert PlanFor(made, sorted);
    }
    if plan :| PlanFor(plan, sorted) {
      PlanGivesPeers(plan, sorted);
      var after := NeverBehind(sorted, start, sorted, plan);
      AllOnce(sorted, plan, made);
    }
  }

  lemma PassStarts(connections: seq<Connection>, sorted: seq<Connection>, start: map<Key, nat>)
    requires Symmetric(connections) && start == Counters(connections)
    requires (forall c <- sorted :: c in connections) && forall c <- connections :: c in sorted
    ensures NoSelfLoops(sorted) && (forall c <- sorted :: Reverse(c) in sorted) && Startable(sorted, start)
  {
    CountersStart(connections);
    forall c | c in sorted ensures KeyOf(c.from) in start && KeyOf(c.to) in start {
      assert Reverse(c) in connections;
      assert KeyOf(Reverse(c).from) in start;
    }
  }
}
