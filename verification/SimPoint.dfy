/** SimPoint checkpoints (configs/common/Simulation.py).

An analysis chooses intervals of a run.  A checkpoint is taken before each, early enough to
warm up; its directory name carries everything needed to restore it and to find the
interval again.
 */
module SimPoint {
  import opened Results
  import opened Sorting
  import opened Text

  /** A chosen interval; `weight` is its formatted weight. */
  datatype SimPoint = SimPoint(interval: nat, weight: string, start: nat, warmup: nat)

  /** Where the checkpoint for an interval is taken and how long it warms up. */
  function Place(interval: nat, weight: string, length: nat, warmup: nat): SimPoint {
    if interval * length - warmup > 0
    then SimPoint(interval, weight, interval * length - warmup, warmup)
    else SimPoint(interval, weight, 0, interval * length)
  }

  predicate ByStart(a: SimPoint, b: SimPoint) {
    a.start <= b.start
  }

  /** One line of each analysis file. */
  datatype Choice = Choice(interval: nat, weight: string)

  function PlaceAll(cs: seq<Choice>, length: nat, warmup: nat): seq<SimPoint> {
    seq(|cs|, (k: nat) requires k < |cs| => Place(cs[k].interval, cs[k].weight, length, warmup))
  }

  /** `parseSimpointAnalysisFile`, from the lines read to the list sorted by start. */
  method Analyse(cs: seq<Choice>, length: nat, warmup: nat) returns (sps: seq<SimPoint>)
    ensures sps == Sort(PlaceAll(cs, length, warmup), ByStart)
    ensures |sps| == |cs| && forall i, j :: 0 <= i < j < |sps| ==> sps[i].start <= sps[j].start
  {
    var placed: seq<SimPoint> := [];
    for k := 0 to |cs|
      invariant placed == PlaceAll(cs[..k], length, warmup)
    {
      var interval := cs[k].interval;
      var start, actual := 0, interval * length;
      if interval * length - warmup > 0 {
        start, actual := interval * length - warmup, warmup;
      }
      placed := placed + [SimPoint(interval, cs[k].weight, start, actual)];
    }
    assert cs[..|cs|] == cs;
    sps := Sort(placed, ByStart);
    SortedByStart(placed);
  }

  lemma SortedByStart(placed: seq<SimPoint>)
    ensures
      var sps := Sort(placed, ByStart);
      forall i, j :: 0 <= i < j < |sps| ==> sps[i].start <= sps[j].start
  {
    assert TotalPreorder(ByStart);
    SortOrders(placed, ByStart);
    var sps := Sort(placed, ByStart);
    forall i, j | 0 <= i < j < |sps| ensures sps[i].start <= sps[j].start {
      assert ByStart(sps[i], sps[j]);
    }
  }

  // ---- Checkpoint names ----

  function IsNumeral(): char -> bool {
    (c: char) => IsDigit(c)
  }

  function IsWeight(): char -> bool {
    (c: char) => IsDigit(c) || c == '.' || c == 'e' || c == '-'
  }

  const HEAD := "cpt.simpoint_"
  const INST := "_inst_"
  const WEIGHT := "_weight_"
  const INTERVAL := "_interval_"
  const WARMUP := "_warmup_"

  /** The directory of checkpoint number `index`. */
  function Name(index: nat, sp: SimPoint, length: nat): string {
    HEAD + (ZFill(Str(index), 2) + (INST + (Str(sp.start) + (WEIGHT + (sp.weight
    + (INTERVAL + (Str(length) + (WARMUP + Str(sp.warmup)))))))))
  }

  /** What the pattern in `findCptDir` extracts from a name. */
  datatype Found = Found(index: nat, start: nat, weight: string, length: nat, warmup: nat)

  /** A non-empty run of characters, and the rest. */
  function TakeRun(s: string, p: char -> bool): Option<(string, string)> {
    var n := SpanLength(s, p);
    if n == 0 then None else Some((s[..n], s[n..]))
  }

  /** A literal, then a run of digits read as a number. */
  function TakeNumber(s: string, lit: string): Option<(nat, string)> {
    match AfterLiteral(s, lit)
    case None => None
    case Some(rest) =>
      match TakeRun(rest, IsNumeral())
      case None => None
      case Some((digits, more)) =>
        match ParseNat(digits)
        case None => None
        case Some(n) => Some((n, more))
  }

  function TakeWeight(s: string): Option<(string, string)> {
    match AfterLiteral(s, WEIGHT)
    case None => None
    case Some(rest) => TakeRun(rest, IsWeight())
  }

  /** The regular expression; anything after the last number is ignored. */
  function ParseName(s: string): Option<Found> {
    match TakeNumber(s, HEAD)
    case None => None
    case Some((index, s1)) =>
      match TakeNumber(s1, INST)
      case None => None
      case Some((start, s2)) =>
        match TakeWeight(s2)
        case None => None
        case Some((weight, s3)) =>
          match TakeNumber(s3, INTERVAL)
          case None => None
          case Some((length, s4)) =>
            match TakeNumber(s4, WARMUP)
            case None => None
            case Some((warmup, _)) => Some(Found(index, start, weight, length, warmup))
  }

  predicate WeightText(w: string) {
    w != "" && forall c <- w :: IsWeight()(c)
  }

  predicate WellWeighted(sp: SimPoint) {
    WeightText(sp.weight)
  }

  lemma LiteralThen(lit: string, rest: string)
    ensures AfterLiteral(lit + rest, lit) == Some(rest)
  {
  }

  lemma NumberThen(lit: string, digits: string, rest: string)
    requires digits != "" && AllDigits(digits) && (rest == "" || !IsDigit(rest[0]))
    ensures TakeNumber(lit + (digits + rest), lit) == Some((Value(digits), rest))
  {
    LiteralThen(lit, digits + rest);
    SpanExactly(digits, rest, IsNumeral());
    assert (digits + rest)[..|digits|] == digits && (digits + rest)[|digits|..] == rest;
  }

  lemma WeightThen(weight: string, rest: string)
    requires WeightText(weight) && rest != "" && !IsWeight()(rest[0])
    ensures TakeWeight(WEIGHT + (weight + rest)) == Some((weight, rest))
  {
    LiteralThen(WEIGHT, weight + rest);
    SpanExactly(weight, rest, IsWeight());
    assert (weight + rest)[..|weight|] == weight && (weight + rest)[|weight|..] == rest;
  }

  lemma StrNumberThen(lit: string, n: nat, rest: string)
    requires rest == "" || !IsDigit(rest[0])
    ensures TakeNumber(lit + (Str(n) + rest), lit) == Some((n, rest))
  {
    NumberThen(lit, Str(n), rest);
    ValueStr(n);
  }

  /** The name says exactly what went into it. */
  lemma NameRoundTrip(index: nat, sp: SimPoint, length: nat)
    requires WellWeighted(sp)
    ensures ParseName(Name(index, sp, length)) == Some(Found(index, sp.start, sp.weight, length, sp.warmup))
  {
    assert Str(sp.warmup) + "" == Str(sp.warmup);
    TailIgnored(index, sp, length, "", Name(index, sp, length));
  }

  /** The name with something else after it that does not begin with a digit is read in the
      same way. */
  lemma TailIgnored(index: nat, sp: SimPoint, length: nat, rest: string, dir: string)
    requires WellWeighted(sp) && (rest == "" || !IsDigit(rest[0]))
    requires dir == HEAD + (ZFill(Str(index), 2) + (INST + (Str(sp.start) + (WEIGHT + (sp.weight
                    + (INTERVAL + (Str(length) + (WARMUP + (Str(sp.warmup) + rest)))))))))
    ensures ParseName(dir) == Some(Found(index, sp.start, sp.weight, length, sp.warmup))
  {
    var r4 := WARMUP + (Str(sp.warmup) + rest);
    var r3 := INTERVAL + (Str(length) + r4);
    var r2 := WEIGHT + (sp.weight + r3);
    var r1 := INST + (Str(sp.start) + r2);
    NumberThen(HEAD, ZFill(Str(index), 2), r1);
    ParseZFill(index, 2);
    StrNumberThen(INST, sp.start, r2);
    WeightThen(sp.weight, r3);
    StrNumberThen(INTERVAL, length, r4);
    StrNumberThen(WARMUP, sp.warmup, rest);
  }

  /** The name, spelled out. */
  lemma NameSpelled(index: nat, sp: SimPoint, length: nat)
    ensures Name(index, sp, length)
         == "cpt.simpoint_" + ((if index < 10 then "0" + Str(index) else Str(index))
            + ("_inst_" + (Str(sp.start) + ("_weight_" + (sp.weight
            + ("_interval_" + (Str(length) + ("_warmup_" + Str(sp.warmup)))))))))
  {
    TwoWide(index);
  }

  lemma TwoWide(index: nat)
    ensures ZFill(Str(index), 2) == if index < 10 then "0" + Str(index) else Str(index)
  {
    if index < 10 {
      assert Zeros(1) == "0";
    }
  }

  // ---- Taking checkpoints ----

  /** Why the simulator returned. */
  datatype Exit = BenchmarkCheckpoint | StartFound | OtherExit

  function Names(sps: seq<SimPoint>, length: nat): (names: seq<string>)
    ensures |names| == |sps|
  {
    seq(|sps|, (k: nat) requires k < |sps| => Name(k, sps[k], length))
  }

  /** The exits left after skipping those of the benchmark. */
  function SkipBenchmark(exits: seq<Exit>): seq<Exit> {
    if exits != [] && exits[0] == BenchmarkCheckpoint then SkipBenchmark(exits[1..]) else exits
  }

  /** How many checkpoints are taken.  A start equal to the previous one needs no
      simulation; any exit other than finding the start ends the series. */
  function Count(sps: seq<SimPoint>, last: int, exits: seq<Exit>): (n: nat)
    ensures n <= |sps|
    decreases |sps|
  {
    if sps == [] then 0
    else if sps[0].start == last then 1 + Count(sps[1..], last, exits)
    else
      var more := SkipBenchmark(exits);
      if more != [] && more[0] == StartFound then 1 + Count(sps[1..], sps[0].start, more[1..]) else 0
  }

  method Simulate(exits: seq<Exit>) returns (exit: Exit, rest: seq<Exit>)
    ensures exits == [] ==> exit == OtherExit && rest == []
    ensures exits != [] ==> [exit] + rest == exits
  {
    if exits == [] {
      return OtherExit, [];
    }
    return exits[0], exits[1..];
  }

  /** Simulates until an exit that is not the benchmark's own. */
  method SimulateOn(exits: seq<Exit>) returns (exit: Exit, rest: seq<Exit>)
    ensures SkipBenchmark(exits) == [] ==> exit == OtherExit
    ensures SkipBenchmark(exits) != [] ==> [exit] + rest == SkipBenchmark(exits)
  {
    ghost var pending := exits;
    exit, rest := Simulate(exits);
    while exit == BenchmarkCheckpoint
      invariant pending == [] ==> exit == OtherExit && rest == []
      invariant pending != [] ==> [exit] + rest == pending
      invariant SkipBenchmark(pending) == SkipBenchmark(exits)
      decreases |pending|
    {
      assert pending[0] == exit && pending[1..] == rest;
      pending := rest;
      exit, rest := Simulate(rest);
    }
    if pending != [] {
      assert pending[0] == exit;
    }
  }

  /** `takeSimpointCheckpoints`: the checkpoints written are the first ones, named in order. */
  method TakeCheckpoints(sps: seq<SimPoint>, length: nat, exits: seq<Exit>) returns (written: seq<string>)
    ensures written == Names(sps, length)[..Count(sps, -1, exits)]
  {
    written := [];
    var last: int, left := -1, exits;
    var index := 0;
    while index < |sps|
      invariant index <= |sps| && written == Names(sps, length)[..index]
      invariant Count(sps, -1, exits) == index + Count(sps[index..], last, left)
    {
      var sp := sps[index];
      assert sps[index..][1..] == sps[index + 1..];
      if sp.start != last {
        ghost var more := SkipBenchmark(left);
        var exit;
        exit, left := SimulateOn(left);
        if more != [] {
          assert more[0] == exit && more[1..] == left;
        }
        if exit != StartFound {
          break;
        }
      }
      written := written + [Name(index, sp, length)];
      last := sp.start;
      index := index + 1;
    }
  }

  /** The starts found before the first exit that ends the series. */
  function StartsFound(exits: seq<Exit>): nat {
    if exits == [] || exits[0] == OtherExit then 0
    else (if exits[0] == StartFound then 1 else 0) + StartsFound(exits[1..])
  }

  /** How often the start differs from the one before. */
  function NewStarts(sps: seq<SimPoint>, last: int): nat {
    if sps == [] then 0
    else (if sps[0].start == last then 0 else 1) + NewStarts(sps[1..], sps[0].start)
  }

  lemma {:induction false} SkipKeepsStarts(exits: seq<Exit>)
    ensures
      var more := SkipBenchmark(exits);
      StartsFound(exits) == if more != [] && more[0] == StartFound then 1 + StartsFound(more[1..]) else 0
  {
    if exits != [] && exits[0] == BenchmarkCheckpoint {
      SkipKeepsStarts(exits[1..]);
    }
  }

  /** Every checkpoint is taken exactly when the simulator stops often enough: once for
      each change of start, no matter how the benchmark's own exits are interleaved. */
  lemma {:induction false} AllTakenExactly(sps: seq<SimPoint>, last: int, exits: seq<Exit>)
    ensures Count(sps, last, exits) == |sps| <==> NewStarts(sps, last) <= StartsFound(exits)
    decreases |sps|
  {
    if sps == [] {
    } else {
      if sps[0].start == last {
        AllTakenExactly(sps[1..], last, exits);
      } else {
        SkipKeepsStarts(exits);
        var more := SkipBenchmark(exits);
        if more != [] && more[0] == StartFound {
          AllTakenExactly(sps[1..], sps[0].start, more[1..]);
        }
      }
    }
  }

  /** At least `m` checkpoints are taken exactly when the simulator stops often enough for the
      first `m`. */
  lemma {:induction false} TakenExactly(sps: seq<SimPoint>, last: int, exits: seq<Exit>, m: nat)
    requires m <= |sps|
    ensures Count(sps, last, exits) >= m <==> NewStarts(sps[..m], last) <= StartsFound(exits)
    decreases |sps|
  {
    if m == 0 {
    } else {
      assert sps[..m][1..] == sps[1..][..m - 1];
      if sps[0].start == last {
        TakenExactly(sps[1..], last, exits, m - 1);
      } else {
        SkipKeepsStarts(exits);
        var more := SkipBenchmark(exits);
        if more != [] && more[0] == StartFound {
          TakenExactly(sps[1..], sps[0].start, more[1..], m - 1);
        }
      }
    }
  }

  // ---- Restoring ----

  function IsCheckpoint(): string -> bool {
    (s: string) => ParseName(s).Some?
  }

  function Alphabetical(): (string, string) -> bool {
    (a: string, b: string) => TextBefore(a, b)
  }

  /** A restored checkpoint and the instruction counts, from the restore on, to stop at. */
  datatype Restored = Restored(dir: string, found: Found, warmedUp: nat, done: nat)

  datatype Failure = NotFound | BadIndex

  /** A Python list index: negative ones count from the end. */
  function At(s: seq<string>, k: int): Option<string> {
    if 0 <= k < |s| then Some(s[k]) else if -|s| <= k < 0 then Some(s[|s| + k]) else None
  }

  /** The checkpoint with a given number among the sorted names. */
  function PickWith(cpts: seq<string>, number: int, parse: string -> Option<Found>): Result<Restored, Failure> {
    if number > |cpts| then Err(NotFound)
    else
      match At(cpts, number - 1)
      case None => Err(BadIndex)
      case Some(dir) =>
        match parse(dir)
        case None => Err(NotFound)
        case Some(f) => Ok(Restored(dir, f, f.warmup, f.warmup + f.length))
  }

  function Pick(cpts: seq<string>, number: int): Result<Restored, Failure> {
    PickWith(cpts, number, ParseName)
  }

  function SortedCheckpoints(dirs: seq<string>): seq<string> {
    Sort(Filter(dirs, IsCheckpoint()), Alphabetical())
  }

  function Restore(dirs: seq<string>, number: int): Result<Restored, Failure> {
    Pick(SortedCheckpoints(dirs), number)
  }

  method GatherCheckpoints(dirs: seq<string>) returns (cpts: seq<string>)
    ensures cpts == Filter(dirs, IsCheckpoint())
  {
    cpts := [];
    for k := 0 to |dirs|
      invariant cpts == Filter(dirs[..k], IsCheckpoint())
    {
      FilterSnoc(dirs[..k], dirs[k], IsCheckpoint());
      assert dirs[..k] + [dirs[k]] == dirs[..k + 1];
      if IsCheckpoint()(dirs[k]) {
        cpts := cpts + [dirs[k]];
      }
    }
    assert dirs[..|dirs|] == dirs;
  }

  lemma AllNamed(dirs: seq<string>)
    ensures forall k :: 0 <= k < |SortedCheckpoints(dirs)| ==> ParseName(SortedCheckpoints(dirs)[k]).Some?
  {
    var cpts := SortedCheckpoints(dirs);
    SortMembers(Filter(dirs, IsCheckpoint()), Alphabetical());
    FilterMembers(dirs, IsCheckpoint());
    forall k | 0 <= k < |cpts| ensures ParseName(cpts[k]).Some? {
      assert cpts[k] in cpts && IsCheckpoint()(cpts[k]);
    }
  }

  /** The SimPoint branch of `findCptDir`, on a directory listing in any order. */
  method FindCheckpoint(dirs: seq<string>, number: int) returns (r: Result<Restored, Failure>)
    ensures r == Restore(dirs, number)
    ensures
      var cpts := SortedCheckpoints(dirs);
      && (number > |cpts| ==> r == Err(NotFound))
      && (1 <= number <= |cpts| ==> r.Ok? && r.value.dir == cpts[number - 1])
      && (-|cpts| < number <= 0 ==> r.Ok? && r.value.dir == cpts[|cpts| + number - 1])
      && (number <= -|cpts| && number <= 0 ==> r == Err(BadIndex))
  {
    AllNamed(dirs);
    var cpts := GatherCheckpoints(dirs);
    cpts := Sort(cpts, Alphabetical());
    r := Pick(cpts, number);
  }

  // ---- Order of names ----

  lemma AlphabeticalOrder()
    ensures TotalPreorder(Alphabetical()) && Antisymmetric(Alphabetical())
  {
    forall a: string, b: string
      ensures Alphabetical()(a, b) || Alphabetical()(b, a)
      ensures Alphabetical()(a, b) && Alphabetical()(b, a) ==> a == b
    {
      TextTotal(a, b);
    }
    forall a: string, b: string, c: string | Alphabetical()(a, b) && Alphabetical()(b, c)
      ensures Alphabetical()(a, c)
    {
      TextTransitive(a, b, c);
    }
  }

  /** Two digits, for an index below a hundred. */
  lemma TwoDigits(n: nat)
    requires n < 100
    ensures ZFill(Str(n), 2) == [Digit(n / 10), Digit(n % 10)]
  {
    if n < 10 {
      assert Zeros(1) == [Digit(0)];
    }
  }

  function Tail(sp: SimPoint, length: nat): string {
    INST + (Str(sp.start) + (WEIGHT + (sp.weight + (INTERVAL + (Str(length) + (WARMUP + Str(sp.warmup)))))))
  }

  lemma PairsInOrder(a: nat, b: nat, s: string, t: string)
    requires a < b < 100
    ensures TextBefore([Digit(a / 10), Digit(a % 10)] + s, [Digit(b / 10), Digit(b % 10)] + t)
  {
    var x, y := [Digit(a / 10), Digit(a % 10)] + s, [Digit(b / 10), Digit(b % 10)] + t;
    assert x[1..] == [Digit(a % 10)] + s && y[1..] == [Digit(b % 10)] + t;
  }

  lemma NamesInOrder(i: nat, j: nat, a: SimPoint, b: SimPoint, length: nat)
    requires i < j < 100
    ensures TextBefore(Name(i, a, length), Name(j, b, length))
  {
    TwoDigits(i);
    TwoDigits(j);
    PairsInOrder(i, j, Tail(a, length), Tail(b, length));
    TextAfterPrefix(HEAD, ZFill(Str(i), 2) + Tail(a, length), ZFill(Str(j), 2) + Tail(b, length));
  }

  /** The hundred-and-first name comes before the hundredth. */
  lemma HundredFirst(a: SimPoint, b: SimPoint, length: nat)
    ensures !TextBefore(Name(99, a, length), Name(100, b, length))
  {
    assert ZFill(Str(99), 2) == ['9', '9'];
    assert ZFill(Str(100), 2) == ['1', '0', '0'];
    TextAfterPrefix(HEAD, ZFill(Str(99), 2) + Tail(a, length), ZFill(Str(100), 2) + Tail(b, length));
  }

  /** Two digits suffice for a hundred checkpoints and no more. */
  lemma NamesSortedExactly(sps: seq<SimPoint>, length: nat)
    ensures Ordered(Names(sps, length), Alphabetical()) <==> |sps| <= 100
  {
    var names := Names(sps, length);
    if |sps| <= 100 {
      forall i, j | 0 <= i < j < |names| ensures Alphabetical()(names[i], names[j]) {
        NamesInOrder(i, j, sps[i], sps[j], length);
      }
    } else {
      HundredFirst(sps[99], sps[100], length);
      assert !Alphabetical()(names[99], names[100]);
    }
  }

  // ---- From analysis to restore ----

  /** The listing holds the names written for `sps`, in any order, among unrelated names. */
  predicate Lists(dirs: seq<string>, sps: seq<SimPoint>, length: nat) {
    multiset(Filter(dirs, IsCheckpoint())) == multiset(Names(sps, length))
  }

  predicate AllWellWeighted(sps: seq<SimPoint>) {
    forall sp <- sps :: WellWeighted(sp)
  }

  /** What the names written for `sps` mean. */
  function Founds(sps: seq<SimPoint>, length: nat): (fs: seq<Found>)
    ensures |fs| == |sps|
  {
    seq(|sps|, (k: nat) requires k < |sps| => Found(k, sps[k].start, sps[k].weight, length, sps[k].warmup))
  }

  ghost predicate Parses(parse: string -> Option<Found>, names: seq<string>, fs: seq<Found>) {
    |names| == |fs| && forall k :: 0 <= k < |fs| ==> parse(names[k]) == Some(fs[k])
  }

  lemma NamesRoundTrip(sps: seq<SimPoint>, length: nat)
    requires AllWellWeighted(sps)
    ensures Parses(ParseName, Names(sps, length), Founds(sps, length))
  {
    forall k | 0 <= k < |sps| ensures ParseName(Names(sps, length)[k]) == Some(Founds(sps, length)[k]) {
      NameRoundTrip(k, sps[k], length);
    }
  }

  /** Restoring number `k + 1` finds the checkpoint of index `k`, whatever `k`. */
  predicate PicksInTurn(cpts: seq<string>, names: seq<string>, fs: seq<Found>, parse: string -> Option<Found>)
    requires |names| == |fs|
  {
    forall k :: 0 <= k < |fs| ==>
      PickWith(cpts, k + 1, parse) == Ok(Restored(names[k], fs[k], fs[k].warmup, fs[k].warmup + fs[k].length))
  }

  predicate RestoresByNumber(dirs: seq<string>, sps: seq<SimPoint>, length: nat) {
    PicksInTurn(SortedCheckpoints(dirs), Names(sps, length), Founds(sps, length), ParseName)
  }

  lemma SortedListing(dirs: seq<string>, sps: seq<SimPoint>, length: nat)
    requires Lists(dirs, sps, length)
    ensures Ordered(SortedCheckpoints(dirs), Alphabetical()) && |SortedCheckpoints(dirs)| == |sps|
    ensures |sps| <= 100 ==> SortedCheckpoints(dirs) == Names(sps, length)
  {
    var found, names := Filter(dirs, IsCheckpoint()), Names(sps, length);
    var cpts := SortedCheckpoints(dirs);
    AlphabeticalOrder();
    SortOrders(found, Alphabetical());
    SortPermutes(found, Alphabetical());
    assert |multiset(cpts)| == |cpts| && |multiset(names)| == |names|;
    if |sps| <= 100 {
      NamesSortedExactly(sps, length);
      OrderedUnique(cpts, names, Alphabetical());
    }
  }

  lemma PickAt(cpts: seq<string>, k: nat, name: string, f: Found, parse: string -> Option<Found>)
    requires k < |cpts| && parse(name) == Some(f)
    ensures PickWith(cpts, k + 1, parse) == Ok(Restored(name, f, f.warmup, f.warmup + f.length)) <==> cpts[k] == name
  {
  }

  lemma PicksExactly(cpts: seq<string>, names: seq<string>, fs: seq<Found>, parse: string -> Option<Found>)
    requires |cpts| == |names| && Parses(parse, names, fs)
    ensures PicksInTurn(cpts, names, fs, parse) <==> cpts == names
  {
    forall k | 0 <= k < |fs|
      ensures PickWith(cpts, k + 1, parse) == Ok(Restored(names[k], fs[k], fs[k].warmup, fs[k].warmup + fs[k].length))
         <==> cpts[k] == names[k]
    {
      PickAt(cpts, k, names[k], fs[k], parse);
    }
  }

  /** Numbers are restored in the order taken exactly when at most a hundred were. */
  lemma RestoreExactly(dirs: seq<string>, sps: seq<SimPoint>, length: nat)
    requires Lists(dirs, sps, length) && AllWellWeighted(sps)
    ensures RestoresByNumber(dirs, sps, length) <==> |sps| <= 100
  {
    SortedListing(dirs, sps, length);
    NamesRoundTrip(sps, length);
    PicksExactly(SortedCheckpoints(dirs), Names(sps, length), Founds(sps, length), ParseName);
    NamesSortedExactly(sps, length);
  }

  lemma PlaceWindow(interval: nat, weight: string, length: nat, warmup: nat)
    ensures
      var sp := Place(interval, weight, length, warmup);
      && sp.start + sp.warmup == interval * length
      && sp.start + (sp.warmup + length) == (interval + 1) * length
      && sp.warmup == if warmup < interval * length then warmup else interval * length
  {
    assert (interval + 1) * length == interval * length + length;
  }

  lemma PlacedOf(cs: seq<Choice>, length: nat, warmup: nat, sp: SimPoint) returns (k: nat)
    requires sp in Sort(PlaceAll(cs, length, warmup), ByStart)
    ensures k < |cs| && sp.weight == cs[k].weight
    ensures sp.warmup == if warmup < cs[k].interval * length then warmup else cs[k].interval * length
    ensures sp.start + sp.warmup == cs[k].interval * length
    ensures sp.start + (sp.warmup + length) == (cs[k].interval + 1) * length
  {
    SortMembers(PlaceAll(cs, length, warmup), ByStart);
    k :| 0 <= k < |cs| && PlaceAll(cs, length, warmup)[k] == sp;
    PlaceWindow(cs[k].interval, cs[k].weight, length, warmup);
  }

  lemma PickOne(cpts: seq<string>, names: seq<string>, fs: seq<Found>, parse: string -> Option<Found>, k: nat)
    returns (r: Restored)
    requires |names| == |fs| && k < |fs| && PicksInTurn(cpts, names, fs, parse)
    ensures PickWith(cpts, k + 1, parse) == Ok(r)
    ensures r == Restored(names[k], fs[k], fs[k].warmup, fs[k].warmup + fs[k].length)
  {
    r := Restored(names[k], fs[k], fs[k].warmup, fs[k].warmup + fs[k].length);
  }

  lemma RestoredAs(dirs: seq<string>, sps: seq<SimPoint>, length: nat, n: nat) returns (r: Restored)
    requires Lists(dirs, sps, length) && AllWellWeighted(sps) && 1 <= n <= |sps| <= 100
    ensures Restore(dirs, n) == Ok(r)
    ensures r.found.index == n - 1 && r.found.weight == sps[n - 1].weight && r.found.start == sps[n - 1].start
    ensures r.warmedUp == sps[n - 1].warmup && r.done == sps[n - 1].warmup + length
  {
    RestoreExactly(dirs, sps, length);
    r := PickOne(SortedCheckpoints(dirs), Names(sps, length), Founds(sps, length), ParseName, n - 1);
  }

  lemma PlacedWeights(cs: seq<Choice>, length: nat, warmup: nat)
    requires forall c <- cs :: WeightText(c.weight)
    ensures AllWellWeighted(Sort(PlaceAll(cs, length, warmup), ByStart))
  {
    forall sp <- Sort(PlaceAll(cs, length, warmup), ByStart) ensures WellWeighted(sp) {
      var j := PlacedOf(cs, length, warmup, sp);
      assert cs[j] in cs;
    }
  }

  /** The names written by a run that ended early are those of the first points. */
  lemma NamesOfFirst(sps: seq<SimPoint>, length: nat, m: nat)
    requires m <= |sps|
    ensures Names(sps, length)[..m] == Names(sps[..m], length)
  {
  }

  /** From analysis through the name and back, for a run that took the first `m` checkpoints:
      whatever the warm-up asked for, the two stops of a restored checkpoint delimit its
      interval, in instructions of the whole run. */
  lemma RestoredWindow(cs: seq<Choice>, length: nat, warmup: nat, m: nat, dirs: seq<string>, n: nat)
    returns (k: nat, r: Restored)
    requires (forall c <- cs :: WeightText(c.weight)) && m <= |cs| && m <= 100
    requires Lists(dirs, Sort(PlaceAll(cs, length, warmup), ByStart)[..m], length) && 1 <= n <= m
    ensures k < |cs| && Restore(dirs, n) == Ok(r)
    ensures r.found.index == n - 1 && r.found.weight == cs[k].weight
    ensures r.found.start + r.warmedUp == cs[k].interval * length
    ensures r.found.start + r.done == (cs[k].interval + 1) * length
    ensures r.warmedUp == if warmup < cs[k].interval * length then warmup else cs[k].interval * length
  {
    var sps := Sort(PlaceAll(cs, length, warmup), ByStart);
    PlacedWeights(cs, length, warmup);
    assert forall sp <- sps[..m] :: sp in sps;
    r := RestoredAs(dirs, sps[..m], length, n);
    k := PlacedOf(cs, length, warmup, sps[n - 1]);
  }

  /** The chosen interval `k` is somewhere in the sorted points, between its own bounds. */
  lemma WherePlaced(cs: seq<Choice>, length: nat, warmup: nat, sps: seq<SimPoint>, k: nat) returns (j: nat)
    requires k < |cs| && sps == Sort(PlaceAll(cs, length, warmup), ByStart)
    ensures j < |sps| == |cs| && sps[j].weight == cs[k].weight
    ensures sps[j].warmup == if warmup < cs[k].interval * length then warmup else cs[k].interval * length
    ensures sps[j].start + sps[j].warmup == cs[k].interval * length
    ensures sps[j].start + (sps[j].warmup + length) == (cs[k].interval + 1) * length
  {
    var placed := PlaceAll(cs, length, warmup);
    SortMembers(placed, ByStart);
    assert placed[k] in sps;
    j :| 0 <= j < |cs| && sps[j] == placed[k];
    PlaceWindow(cs[k].interval, cs[k].weight, length, warmup);
  }

  /** The stops of a restored point are at its own bounds. */
  lemma RestoredStops(dirs: seq<string>, sps: seq<SimPoint>, length: nat, n: nat, from: nat, to: nat)
    returns (r: Restored)
    requires Lists(dirs, sps, length) && AllWellWeighted(sps) && 1 <= n <= |sps| <= 100
    requires sps[n - 1].start + sps[n - 1].warmup == from && sps[n - 1].start + (sps[n - 1].warmup + length) == to
    ensures Restore(dirs, n) == Ok(r) && r.found.weight == sps[n - 1].weight && r.warmedUp == sps[n - 1].warmup
    ensures r.found.start + r.warmedUp == from && r.found.start + r.done == to
  {
    r := RestoredAs(dirs, sps, length, n);
  }

  /** Every chosen interval is restored by some number, with its own window. */
  lemma EveryChoiceRestored(cs: seq<Choice>, length: nat, warmup: nat, dirs: seq<string>, k: nat)
    returns (n: nat, r: Restored)
    requires k < |cs| <= 100 && forall c <- cs :: WeightText(c.weight)
    requires Lists(dirs, Sort(PlaceAll(cs, length, warmup), ByStart), length)
    ensures 1 <= n <= |cs| && Restore(dirs, n) == Ok(r) && r.found.weight == cs[k].weight
    ensures r.warmedUp == if warmup < cs[k].interval * length then warmup else cs[k].interval * length
    ensures r.found.start + r.warmedUp == cs[k].interval * length
    ensures r.found.start + r.done == (cs[k].interval + 1) * length
  {
    var sps := Sort(PlaceAll(cs, length, warmup), ByStart);
    PlacedWeights(cs, length, warmup);
    var j := WherePlaced(cs, length, warmup, sps, k);
    n := j + 1;
    r := RestoredStops(dirs, sps, length, n, cs[k].interval * length, (cs[k].interval + 1) * length);
  }
}
