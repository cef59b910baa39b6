/** Years in copyright notices (util/find_copyrights.py).

`datestr` prints a set of years as comma-separated years and ranges; `process_dates` reads
such a text back.
 */
module CopyrightDates {
  import opened Results
  import opened Sorting
  import opened Text

  datatype Run = Run(first: int, second: int)

  predicate Upwards(a: int, b: int) {
    a <= b
  }

  predicate In(r: Run, y: int) {
    r.first <= y <= r.second
  }

  predicate Covered(runs: seq<Run>, y: int) {
    runs != [] && (In(runs[|runs| - 1], y) || Covered(runs[..|runs| - 1], y))
  }

  /** Another number joins the last run or begins a new one. */
  function AddTo(runs: seq<Run>, x: int): (more: seq<Run>)
    requires runs != [] && runs[|runs| - 1].first <= runs[|runs| - 1].second
    ensures more != [] && more[|more| - 1].first <= more[|more| - 1].second
  {
    var last := runs[|runs| - 1];
    if x == last.second + 1 then runs[..|runs| - 1] + [Run(last.first, x)] else runs + [Run(x, x)]
  }

  /** The runs of consecutive numbers, from left to right. */
  function Runs(s: seq<int>): (runs: seq<Run>)
    requires s != []
    ensures runs != [] && runs[|runs| - 1].first <= runs[|runs| - 1].second
  {
    var n := |s| - 1;
    if n == 0 then [Run(s[0], s[0])] else AddTo(Runs(s[..n]), s[n])
  }

  // ---- Printing ----

  /** Python's `%d`. */
  function Decimal(n: int): string {
    if n < 0 then "-" + Str(-n) else Str(n)
  }

  function Show(r: Run): string {
    if r.first == r.second then Decimal(r.first) else Decimal(r.first) + ("-" + Decimal(r.second))
  }

  function ShowAll(runs: seq<Run>): seq<string> {
    seq(|runs|, (k: nat) requires k < |runs| => Show(runs[k]))
  }

  function DateText(listing: seq<int>): string
    requires listing != []
  {
    Join(ShowAll(Runs(Sort(listing, Upwards))), ',')
  }

  lemma ShowSnoc(runs: seq<Run>, r: Run)
    ensures ShowAll(runs + [r]) == ShowAll(runs) + [Show(r)]
  {
  }

  lemma RunsNext(dates: seq<int>, k: nat, closed: seq<Run>, last: Run)
    requires 1 <= k < |dates| && Runs(dates[..k]) == closed + [last]
    ensures Runs(dates[..k + 1])
         == if dates[k] == last.second + 1 then closed + [Run(last.first, dates[k])]
            else closed + [last] + [Run(dates[k], dates[k])]
  {
    assert dates[..k + 1][..k] == dates[..k];
    assert (closed + [last])[..|closed|] == closed;
  }

  /** The first `k` dates make up the runs printed and the one still open. */
  ghost predicate PrintedTo(dates: seq<int>, k: nat, closed: seq<Run>, last: Run, output: seq<string>) {
    1 <= k <= |dates| && Runs(dates[..k]) == closed + [last] && output == ShowAll(closed)
  }

  lemma PrintedAll(dates: seq<int>, closed: seq<Run>, last: Run, output: seq<string>)
    requires PrintedTo(dates, |dates|, closed, last, output)
    ensures output + [Show(last)] == ShowAll(Runs(dates))
  {
    assert dates[..|dates|] == dates;
    ShowSnoc(closed, last);
  }

  /** One turn of the loop in `datestr`. */
  method AddDate(dates: seq<int>, k: nat, ghost closed: seq<Run>, first: int, second: int, output: seq<string>)
    returns (ghost closed': seq<Run>, first': int, second': int, output': seq<string>)
    requires k < |dates| && PrintedTo(dates, k, closed, Run(first, second), output)
    ensures PrintedTo(dates, k + 1, closed', Run(first', second'), output')
  {
    var next := dates[k];
    RunsNext(dates, k, closed, Run(first, second));
    if next == second + 1 {
      return closed, first, next, output;
    }
    ShowSnoc(closed, Run(first, second));
    return closed + [Run(first, second)], next, next, output + [Show(Run(first, second))];
  }

  /** `datestr`, given the years in any order; an empty set is an error. */
  method DateStr(listing: seq<int>) returns (r: Result<string, string>)
    ensures listing == [] ==> r.Err?
    ensures listing != [] ==> r == Ok(DateText(listing))
  {
    if listing == [] {
      return Err("pop from empty list");
    }
    var dates := Sort(listing, Upwards);
    var output: seq<string> := [];
    ghost var closed: seq<Run> := [];
    var first, second := dates[0], dates[0];
    var k := 1;
    while k < |dates|
      invariant PrintedTo(dates, k, closed, Run(first, second), output)
    {
      closed, first, second, output := AddDate(dates, k, closed, first, second, output);
      k := k + 1;
    }
    PrintedAll(dates, closed, Run(first, second), output);
    output := output + [Show(Run(first, second))];
    return Ok(Join(output, ','));
  }

  // ---- Reading ----

  function SkipSpaces(s: string): string {
    s[SpanLength(s, IsSpace)..]
  }

  /** Python's `int` on an optional sign and digits. */
  function ParseInt(s: string): Option<int> {
    if s != "" && (s[0] == '-' || s[0] == '+') then
      match ParseNat(s[1..])
      case None => None
      case Some(n) => Some(if s[0] == '-' then 0 - n else n)
    else
      match ParseNat(s)
      case None => None
      case Some(n) => Some(n)
  }

  predicate StartsWithYear(s: string) {
    |s| >= 4 && AllDigits(s[..4])
  }

  /** What is left after a dash with spaces around it. */
  function AfterDash(s: string): Option<string> {
    var t := SkipSpaces(s);
    if t != "" && t[0] == '-' then Some(SkipSpaces(t[1..])) else None
  }

  /** Two four-digit years around a dash, at the start of `s`; what follows is ignored. */
  function MatchRange(s: string): Option<(int, int)> {
    if !StartsWithYear(s) then None
    else
      match AfterDash(s[4..])
      case None => None
      case Some(t) => if StartsWithYear(t) then Some((Value(s[..4]), Value(t[..4]))) else None
  }

  function Years(r: Run): (years: set<int>)
    ensures forall y :: y in years <==> In(r, y)
  {
    set y | r.first <= y <= r.second && In(r, y)
  }

  function PartDates(s: string): set<int> {
    match MatchRange(s)
    case Some((first, last)) => Years(Run(first, last))
    case None =>
      match ParseInt(s)
      case Some(y) => {y}
      case None => {}
  }

  function ReadPart(part: string): set<int> {
    PartDates(Strip(part))
  }

  function Gather(parts: seq<string>, read: string -> set<int>): set<int> {
    if parts == [] then {} else Gather(parts[..|parts| - 1], read) + read(parts[|parts| - 1])
  }

  function AllDates(text: string): set<int> {
    Gather(Split(text, ','), ReadPart)
  }

  /** `process_dates`. */
  method ProcessDates(text: string) returns (output: set<int>)
    ensures output == AllDates(text)
  {
    var dates := Split(text, ',');
    output := {};
    for k := 0 to |dates|
      invariant output == Gather(dates[..k], ReadPart)
    {
      var date := Strip(dates[k]);
      assert dates[..k + 1][..k] == dates[..k];
      var found := PartYears(date);
      output := output + found;
    }
    assert dates[..|dates|] == dates;
  }

  /** The years one part adds. */
  method PartYears(date: string) returns (output: set<int>)
    ensures output == PartDates(date)
  {
    output := {};
    var range := MatchRange(date);
    if range.Some? {
      var (first, last) := range.value;
      var y := first;
      while y <= last
        invariant output == Years(Run(first, y - 1))
        invariant y <= last + 1 || y == first
      {
        output := output + {y};
        y := y + 1;
      }
    } else {
      var year := ParseInt(date);
      if year.Some? {
        output := {year.value};
      }
    }
  }

  // ---- The runs are the maximal ones ----

  predicate Increasing(s: seq<int>) {
    forall i, j :: 0 <= i < j < |s| ==> s[i] < s[j]
  }

  /** Runs in increasing order, with a gap between any two. */
  predicate Separated(runs: seq<Run>) {
    && (forall k :: 0 <= k < |runs| ==> runs[k].first <= runs[k].second)
    && (forall i, j :: 0 <= i < j < |runs| ==> runs[i].second + 1 < runs[j].first)
  }

  lemma SeparatedSnoc(runs: seq<Run>, r: Run)
    requires Separated(runs) && r.first <= r.second && (runs != [] ==> runs[|runs| - 1].second + 1 < r.first)
    ensures Separated(runs + [r])
  {
    var all := runs + [r];
    forall i, j | 0 <= i < j < |all| ensures all[i].second + 1 < all[j].first {
      if j == |runs| && i < |runs| - 1 {
        assert runs[i].second + 1 < runs[|runs| - 1].first;
      }
    }
  }

  lemma SeparatedInit(runs: seq<Run>)
    requires Separated(runs) && runs != []
    ensures Separated(runs[..|runs| - 1])
    ensures |runs| > 1 ==> runs[|runs| - 2].second + 1 < runs[|runs| - 1].first
  {
  }

  lemma AddedSeparated(runs: seq<Run>, x: int)
    requires Separated(runs) && runs != [] && runs[|runs| - 1].second < x
    ensures Separated(AddTo(runs, x)) && AddTo(runs, x)[|AddTo(runs, x)| - 1].second == x
  {
    SeparatedInit(runs);
    var last := runs[|runs| - 1];
    if x == last.second + 1 {
      SeparatedSnoc(runs[..|runs| - 1], Run(last.first, x));
    } else {
      SeparatedSnoc(runs, Run(x, x));
    }
  }

  lemma {:induction false} RunsSeparated(s: seq<int>)
    requires s != [] && Increasing(s)
    ensures Separated(Runs(s)) && Runs(s)[|Runs(s)| - 1].second == s[|s| - 1]
  {
    var n := |s| - 1;
    if n == 0 {
    } else {
      RunsSeparated(s[..n]);
      assert s[n - 1] < s[n];
      AddedSeparated(Runs(s[..n]), s[n]);
    }
  }

  lemma CoveredSnoc(runs: seq<Run>, r: Run, y: int)
    ensures Covered(runs + [r], y) <==> In(r, y) || Covered(runs, y)
  {
    assert (runs + [r])[..|runs|] == runs;
  }

  lemma CoveredExtended(runs: seq<Run>, r: Run, y: int)
    requires r.first <= r.second
    ensures Covered(runs + [Run(r.first, r.second + 1)], y) <==> y == r.second + 1 || Covered(runs + [r], y)
  {
    CoveredSnoc(runs, r, y);
    CoveredSnoc(runs, Run(r.first, r.second + 1), y);
  }

  lemma AddedCovered(runs: seq<Run>, x: int, y: int)
    requires runs != [] && runs[|runs| - 1].first <= runs[|runs| - 1].second
    ensures Covered(AddTo(runs, x), y) <==> y == x || Covered(runs, y)
  {
    var init, last := runs[..|runs| - 1], runs[|runs| - 1];
    CoveredExtended(init, last, y);
    assert runs == init + [last];
    CoveredSnoc(runs, Run(x, x), y);
  }

  lemma OneCovered(a: int, y: int)
    ensures Covered([Run(a, a)], y) <==> y == a
  {
    CoveredSnoc([], Run(a, a), y);
    assert [] + [Run(a, a)] == [Run(a, a)];
  }

  lemma InInit(s: seq<int>, y: int)
    requires s != []
    ensures y in s <==> y in s[..|s| - 1] || y == s[|s| - 1]
  {
  }

  lemma {:induction false} RunsCover(s: seq<int>, y: int)
    requires s != []
    ensures Covered(Runs(s), y) <==> y in s
  {
    var n := |s| - 1;
    InInit(s, y);
    if n == 0 {
      OneCovered(s[0], y);
    } else {
      RunsCover(s[..n], y);
      AddedCovered(Runs(s[..n]), s[n], y);
    }
  }

  lemma {:induction false} CoveredBy(runs: seq<Run>, y: int)
    ensures Covered(runs, y) <==> exists k :: 0 <= k < |runs| && In(runs[k], y)
  {
    if runs == [] {
    } else {
      var n := |runs| - 1;
      CoveredBy(runs[..n], y);
      if Covered(runs[..n], y) {
        var k :| 0 <= k < n && In(runs[..n][k], y);
        assert In(runs[k], y);
      }
    }
  }

  lemma Twice(s: seq<int>, i: nat, j: nat)
    requires i < j < |s| && s[i] == s[j]
    ensures multiset(s)[s[i]] >= 2
  {
    assert s == s[..j] + s[j..];
    assert s[i] in s[..j] && s[j] in s[j..];
  }

  lemma OrderedOnce(s: seq<int>, years: set<int>)
    requires Ordered(s, Upwards) && multiset(s) == multiset(years)
    ensures Increasing(s)
    ensures forall y :: y in s <==> y in years
  {
    forall i, j | 0 <= i < j < |s| ensures s[i] < s[j] {
      assert Upwards(s[i], s[j]);
      if s[i] == s[j] {
        Twice(s, i, j);
      }
    }
    forall y ensures y in s <==> y in years {
      assert y in s <==> y in multiset(s);
    }
  }

  lemma DistinctAfterSort(listing: seq<int>, years: set<int>)
    requires multiset(listing) == multiset(years)
    ensures Increasing(Sort(listing, Upwards))
    ensures forall y :: y in Sort(listing, Upwards) <==> y in years
  {
    SortOrders(listing, Upwards);
    SortPermutes(listing, Upwards);
    OrderedOnce(Sort(listing, Upwards), years);
  }

  /** The printed runs are exactly the maximal runs of the set, in increasing order: each
      number of the set is in one of them, and no run could be extended or joined. */
  lemma MaximalRuns(listing: seq<int>, years: set<int>) returns (runs: seq<Run>)
    requires listing != [] && multiset(listing) == multiset(years)
    ensures runs == Runs(Sort(listing, Upwards))
    ensures Separated(runs)
    ensures forall y :: y in years <==> Covered(runs, y)
  {
    DistinctAfterSort(listing, years);
    var s := Sort(listing, Upwards);
    runs := Runs(s);
    RunsSeparated(s);
    forall y ensures y in years <==> Covered(runs, y) {
      RunsCover(s, y);
    }
  }


  /** The text of a set of years: its maximal runs in order, separated by commas, each as its
      only year or as its first and last year with a dash between them. */
  lemma DateSpelled(listing: seq<int>, years: set<int>) returns (runs: seq<Run>, texts: seq<string>)
    requires listing != [] && multiset(listing) == multiset(years)
    ensures Separated(runs) && forall y :: y in years <==> Covered(runs, y)
    ensures DateText(listing) == Join(texts, ',') && |texts| == |runs|
    ensures forall k :: 0 <= k < |runs| ==>
      texts[k] == if runs[k].first == runs[k].second then Decimal(runs[k].first)
                  else Decimal(runs[k].first) + "-" + Decimal(runs[k].second)
  {
    runs := MaximalRuns(listing, years);
    texts := ShowAll(runs);
  }

  lemma SkipSpelled(left: string, t: string)
    requires (forall c <- left :: IsSpace(c)) && t != "" && !IsSpace(t[0])
    ensures SkipSpaces(left + t) == t
  {
    SpanExactly(left, t, IsSpace);
    assert (left + t)[|left|..] == t;
  }

  lemma DashSpelled(left: string, right: string, u: string)
    requires (forall c <- left :: IsSpace(c)) && (forall c <- right :: IsSpace(c)) && u != "" && !IsSpace(u[0])
    ensures AfterDash(left + ("-" + (right + u))) == Some(u)
  {
    var t := "-" + (right + u);
    SkipSpelled(left, t);
    SkipSpelled(right, u);
    assert t[0] == '-' && t[1..] == right + u;
  }

  lemma RangeMatched(a: string, t: string, b: string, rest: string)
    requires |a| == 4 && AllDigits(a) && |b| == 4 && AllDigits(b) && AfterDash(t) == Some(b + rest)
    ensures MatchRange(a + t) == Some((Value(a), Value(b)))
  {
    assert (a + t)[..4] == a && (a + t)[4..] == t && (b + rest)[..4] == b;
  }

  /** A part is read as a range when it starts with two four-digit years with a dash between
      them, whatever white space surrounds the dash and whatever follows. */
  lemma RangeSpelled(a: string, left: string, right: string, b: string, rest: string, part: string)
    requires |a| == 4 && AllDigits(a) && |b| == 4 && AllDigits(b)
    requires (forall c <- left :: IsSpace(c)) && forall c <- right :: IsSpace(c)
    requires part == a + (left + ("-" + (right + (b + rest))))
    ensures forall y :: y in PartDates(part) <==> Value(a) <= y <= Value(b)
  {
    assert (b + rest)[0] == b[0] && b[0] in b;
    DashSpelled(left, right, b + rest);
    RangeMatched(a, left + ("-" + (right + (b + rest))), b, rest);
  }
  // ---- Reading back one run ----

  predicate IsYear(y: int) {
    1000 <= y <= 9999
  }

  /** A run that is printed so that it can be read back. */
  predicate Readable(r: Run) {
    r.first == r.second || (IsYear(r.first) && IsYear(r.second))
  }

  predicate Plain(s: string) {
    forall c <- s :: IsDigit(c) || c == '-'
  }

  function Ten(w: nat): nat {
    if w == 0 then 1 else 10 * Ten(w - 1)
  }

  lemma {:induction false} StrWithin(n: nat, w: nat)
    requires w >= 1 && n < Ten(w)
    ensures |Str(n)| <= w
  {
    if w > 1 && n >= 10 {
      StrWithin(n / 10, w - 1);
    }
  }

  lemma {:induction false} StrBeyond(n: nat, w: nat)
    requires n >= Ten(w)
    ensures |Str(n)| > w
  {
    if w == 0 {
    } else {
      StrBeyond(n / 10, w - 1);
    }
  }

  lemma Tens()
    ensures Ten(3) == 1000 && Ten(4) == 10000
  {
    assert Ten(1) == 10;
    assert Ten(2) == 100;
  }

  lemma ShortStr(n: nat)
    ensures n < 1000 ==> |Str(n)| < 4
    ensures IsYear(n) ==> |Str(n)| == 4
  {
    Tens();
    LongStr(n);
    if n < 1000 {
      StrWithin(n, 3);
    } else if n < 10000 {
      StrWithin(n, 4);
    }
  }

  lemma LongStr(n: nat)
    ensures n >= 1000 ==> |Str(n)| >= 4
    ensures n >= 10000 ==> |Str(n)| > 4
  {
    Tens();
    if n >= 1000 {
      StrBeyond(n, 3);
    }
    if n >= 10000 {
      StrBeyond(n, 4);
    }
  }

  lemma FourDigits(s: string)
    requires |s| == 4 && AllDigits(s)
    ensures Value(s) <= 9999
  {
    assert |s[..3]| == 3 && |s[..3][..2]| == 2 && |s[..3][..2][..1]| == 1;
    assert Value(s[..3][..2][..1]) <= 9;
    assert Value(s[..3][..2]) <= 99;
    assert Value(s[..3]) <= 999;
  }

  lemma PlainShow(r: Run)
    ensures Plain(Show(r)) && Show(r) != ""
  {
  }

  lemma PlainStrip(s: string)
    requires Plain(s)
    ensures SkipSpaces(s) == s && Strip(s) == s && ',' !in s
  {
    StripFree(s);
    if s != "" {
      assert s[0] in s;
    }
  }

  /** A dash that is not at the start spoils a number. */
  lemma DashInside(s: string, k: nat)
    requires 1 <= k < |s| && s[k] == '-'
    ensures ParseInt(s) == None
  {
    assert s[k] in s;
    assert s[1..][k - 1] == '-';
    assert s[1..][k - 1] in s[1..];
  }

  lemma DigitsAreNoRange(s: string)
    requires AllDigits(s)
    ensures MatchRange(s) == None
  {
    if |s| > 4 {
      assert s[4..][0] in s;
      PlainStrip(s[4..]);
    }
  }

  lemma DashIsNoRange(s: string, k: nat)
    requires k < 4 && k < |s| && s[k] == '-'
    ensures MatchRange(s) == None
  {
    if |s| >= 4 {
      assert s[..4][k] in s[..4];
    }
  }

  lemma ParseDecimal(n: int)
    ensures ParseInt(Decimal(n)) == Some(n)
  {
    if n < 0 {
      ParseStr(-n);
      assert Decimal(n)[1..] == Str(-n);
    } else {
      ParseStr(n);
      assert Str(n)[0] in Str(n);
    }
  }

  lemma OneRead(y: int)
    ensures PartDates(Decimal(y)) == {y}
  {
    ParseDecimal(y);
    if y < 0 {
      DashIsNoRange(Decimal(y), 0);
    } else {
      DigitsAreNoRange(Str(y));
    }
  }

  lemma DashRead(b: string)
    requires Plain(b)
    ensures AfterDash("-" + b) == Some(b)
  {
    assert ("-" + b)[1..] == b;
    assert Plain("-" + b);
    PlainStrip("-" + b);
    PlainStrip(b);
  }

  lemma YearsRead(a: string, b: string)
    requires |a| == 4 && AllDigits(a) && Plain(b) && StartsWithYear(b)
    ensures MatchRange(a + ("-" + b)) == Some((Value(a), Value(b[..4])))
  {
    DashRead(b);
    TwoYears(a, "-" + b, b);
  }

  lemma TwoYears(a: string, t: string, b: string)
    requires |a| == 4 && AllDigits(a) && AfterDash(t) == Some(b) && StartsWithYear(b)
    ensures MatchRange(a + t) == Some((Value(a), Value(b[..4])))
  {
    assert (a + t)[..4] == a && (a + t)[4..] == t;
  }

  lemma LongIsNoRange(a: string, b: string)
    requires |a| > 4 && AllDigits(a) && Plain(b)
    ensures MatchRange(a + ("-" + b)) == None
  {
    var s := a + ("-" + b);
    assert s[4..] == a[4..] + ("-" + b);
    assert a[4..][0] in a;
    assert Plain(a[4..] + ("-" + b));
    PlainStrip(a[4..] + ("-" + b));
  }

  /** A first number that is not a four-digit year: nothing is read. */
  lemma NothingRead(first: int, second: int)
    requires !IsYear(first)
    ensures PartDates(Decimal(first) + ("-" + Decimal(second))) == {}
  {
    var a, b := Decimal(first), Decimal(second);
    var s := a + ("-" + b);
    DashInside(s, |a|);
    if first < 0 {
      DashIsNoRange(s, 0);
    } else if first < 1000 {
      ShortStr(first);
      DashIsNoRange(s, |a|);
    } else {
      LongStr(first);
      LongIsNoRange(a, b);
    }
  }

  /** A second number that is longer is cut off after four digits. */
  lemma RangeRead(first: int, second: int) returns (last: int)
    requires IsYear(first) && first < second
    ensures PartDates(Decimal(first) + ("-" + Decimal(second))) == Years(Run(first, last))
    ensures if IsYear(second) then last == second else last < second
  {
    var a, b := Str(first), Str(second);
    ShortStr(first);
    LongStr(second);
    YearsRead(a, b);
    ValueStr(first);
    last := Value(b[..4]);
    if IsYear(second) {
      ShortStr(second);
      assert b[..4] == b;
      ValueStr(second);
    } else {
      FourDigits(b[..4]);
    }
  }

  /** Only numbers of the run are read; all of them if it is readable, not the last if not. */
  ghost predicate ReadsRun(years: set<int>, r: Run) {
    && (forall y <- years :: In(r, y))
    && (Readable(r) ==> years == Years(r))
    && (!Readable(r) ==> r.second !in years)
  }

  lemma OneReads(r: Run)
    requires r.first == r.second
    ensures ReadsRun({r.first}, r)
  {
  }

  lemma CutReads(r: Run, last: int)
    requires IsYear(r.first) && r.first < r.second && if IsYear(r.second) then last == r.second else last < r.second
    ensures ReadsRun(Years(Run(r.first, last)), r)
  {
  }

  lemma RunYears(r: Run) returns (years: set<int>)
    requires r.first <= r.second
    ensures PartDates(Show(r)) == years && ReadsRun(years, r)
  {
    if r.first == r.second {
      OneRead(r.first);
      OneReads(r);
      years := {r.first};
    } else if !IsYear(r.first) {
      NothingRead(r.first, r.second);
      years := {};
    } else {
      var last := RangeRead(r.first, r.second);
      CutReads(r, last);
      years := Years(Run(r.first, last));
    }
  }

  lemma StripShow(r: Run)
    ensures Strip(Show(r)) == Show(r)
  {
    PlainShow(r);
    PlainStrip(Show(r));
  }

  lemma RunRead(r: Run)
    requires r.first <= r.second
    ensures ReadsRun(ReadPart(Show(r)), r)
  {
    StripShow(r);
    var years := RunYears(r);
  }

  // ---- Reading back the whole text ----

  lemma {:induction false} GatherIn(parts: seq<string>, read: string -> set<int>, y: int)
    ensures y in Gather(parts, read) <==> exists k :: 0 <= k < |parts| && y in read(parts[k])
  {
    if parts == [] {
    } else {
      var n := |parts| - 1;
      GatherIn(parts[..n], read, y);
      if k :| 0 <= k < n && y in read(parts[..n][k]) {
        assert y in read(parts[k]);
      }
      if k :| 0 <= k < n && y in read(parts[k]) {
        assert y in read(parts[..n][k]);
      }
    }
  }

  ghost predicate ReadsRuns(parts: seq<string>, read: string -> set<int>, runs: seq<Run>) {
    |parts| == |runs| && forall k :: 0 <= k < |runs| ==> ReadsRun(read(parts[k]), runs[k])
  }

  lemma RunsRead(runs: seq<Run>)
    requires Separated(runs)
    ensures ReadsRuns(ShowAll(runs), ReadPart, runs)
  {
    forall k | 0 <= k < |runs| ensures ReadsRun(ReadPart(ShowAll(runs)[k]), runs[k]) {
      RunRead(runs[k]);
    }
  }

  lemma TextSplits(runs: seq<Run>)
    requires runs != []
    ensures Split(Join(ShowAll(runs), ','), ',') == ShowAll(runs)
  {
    forall p <- ShowAll(runs) ensures ',' !in p {
      var k :| 0 <= k < |runs| && ShowAll(runs)[k] == p;
      PlainShow(runs[k]);
      PlainStrip(p);
    }
    SplitJoin(ShowAll(runs), ',');
  }

  predicate AllReadable(runs: seq<Run>) {
    forall r <- runs :: Readable(r)
  }

  lemma ReadableDates(parts: seq<string>, read: string -> set<int>, runs: seq<Run>, y: int)
    requires ReadsRuns(parts, read, runs) && AllReadable(runs)
    ensures y in Gather(parts, read) <==> Covered(runs, y)
  {
    GatherIn(parts, read, y);
    CoveredBy(runs, y);
    forall k | 0 <= k < |runs| ensures y in read(parts[k]) <==> In(runs[k], y) {
      assert runs[k] in runs;
      assert ReadsRun(read(parts[k]), runs[k]);
    }
  }

  lemma LostDate(parts: seq<string>, read: string -> set<int>, runs: seq<Run>, k: nat)
    requires ReadsRuns(parts, read, runs) && Separated(runs) && k < |runs| && !Readable(runs[k])
    ensures runs[k].second !in Gather(parts, read) && Covered(runs, runs[k].second)
  {
    var y := runs[k].second;
    AllCovered(runs, k, y);
    GatherIn(parts, read, y);
    forall j | 0 <= j < |runs| ensures y !in read(parts[j]) {
      assert ReadsRun(read(parts[j]), runs[j]);
      assert j != k ==> !In(runs[j], y);
    }
  }

  /** No two consecutive numbers of the set reach outside the four-digit years. */
  predicate FourDigitRuns(years: set<int>) {
    forall y <- years :: y + 1 in years ==> IsYear(y) && IsYear(y + 1)
  }

  lemma ReadableExactly(runs: seq<Run>, years: set<int>)
    requires Separated(runs) && forall y :: y in years <==> Covered(runs, y)
    ensures AllReadable(runs) <==> FourDigitRuns(years)
  {
    if AllReadable(runs) {
      forall y | y in years && y + 1 in years ensures IsYear(y) && IsYear(y + 1) {
        TogetherCovered(runs, y);
      }
    } else {
      var r :| r in runs && !Readable(r);
      var k :| 0 <= k < |runs| && runs[k] == r;
      AllCovered(runs, k, r.first);
      AllCovered(runs, k, r.first + 1);
      AllCovered(runs, k, r.second);
      AllCovered(runs, k, r.second - 1);
    }
  }

  lemma AllCovered(runs: seq<Run>, k: nat, y: int)
    requires k < |runs| && In(runs[k], y)
    ensures Covered(runs, y)
  {
    CoveredBy(runs, y);
  }

  lemma TogetherCovered(runs: seq<Run>, y: int)
    requires Separated(runs) && AllReadable(runs) && Covered(runs, y) && Covered(runs, y + 1)
    ensures IsYear(y) && IsYear(y + 1)
  {
    CoveredBy(runs, y);
    CoveredBy(runs, y + 1);
    var i :| 0 <= i < |runs| && In(runs[i], y);
    var j :| 0 <= j < |runs| && In(runs[j], y + 1);
    assert i == j;
    assert runs[i] in runs;
  }

  /** Reading back what was printed gives the set exactly when no two consecutive numbers of
      it reach outside the four-digit years; in particular for every set of such years. */
  lemma RoundTripExactly(listing: seq<int>, years: set<int>)
    requires listing != [] && multiset(listing) == multiset(years)
    ensures AllDates(DateText(listing)) == years <==> FourDigitRuns(years)
  {
    var runs := MaximalRuns(listing, years);
    TextSplits(runs);
    ReadableExactly(runs, years);
    RunsRead(runs);
    GatherExactly(ShowAll(runs), ReadPart, runs, years);
  }

  lemma GatherExactly(parts: seq<string>, read: string -> set<int>, runs: seq<Run>, years: set<int>)
    requires ReadsRuns(parts, read, runs) && Separated(runs) && forall y :: y in years <==> Covered(runs, y)
    ensures Gather(parts, read) == years <==> AllReadable(runs)
  {
    if AllReadable(runs) {
      forall y ensures y in Gather(parts, read) <==> y in years {
        ReadableDates(parts, read, runs, y);
      }
    } else {
      var r :| r in runs && !Readable(r);
      var k :| 0 <= k < |runs| && runs[k] == r;
      LostDate(parts, read, runs, k);
    }
  }
}
