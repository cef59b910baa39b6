/** The rolling log (util/logroll.py): a ring of the most recent lines. */
module LogRoll {

  /** The last `target` elements, or all of them when there are fewer or `target` is not
      positive. */
  function Recent<T>(s: seq<T>, target: int): (r: seq<T>)
    ensures r <= s || |r| == target
  {
    if 1 <= target < |s| then s[|s| - target..] else s
  }

  /** The ring read from its oldest line on. */
  function Unrolled<T>(lines: seq<T>, idx: nat): seq<T>
    requires idx <= |lines|
  {
    lines[idx..] + lines[..idx]
  }

  /** What is to be seen after 0, 1, ... `n` lines. */
  function Views<T>(incoming: seq<T>, target: int, n: nat): (views: seq<seq<T>>)
    requires n <= |incoming|
    ensures |views| == n + 1
  {
    (if n == 0 then [] else Views(incoming, target, n - 1)) + [Recent(incoming[..n], target)]
  }

  /** `dump_lines`: from the index to the end, then from the start to the index. */
  method DumpLines<T>(lines: seq<T>, idx: nat) returns (output: seq<T>)
    requires idx <= |lines|
    ensures output == Unrolled(lines, idx)
  {
    output := [];
    for k := idx to |lines|
      invariant output == lines[idx..k]
    {
      output := output + [lines[k]];
    }
    for k := 0 to idx
      invariant output == lines[idx..] + lines[..k]
    {
      output := output + [lines[k]];
    }
  }

  /** Overwriting the oldest line and moving on drops it and adds the newest. */
  lemma Overwrite<T>(lines: seq<T>, idx: nat, line: T)
    requires idx < |lines|
    ensures Unrolled(lines[idx := line], if idx == |lines| - 1 then 0 else idx + 1)
         == Unrolled(lines, idx)[1..] + [line]
  {
  }

  lemma RecentSnoc<T>(s: seq<T>, x: T, target: int)
    requires 1 <= target <= |s|
    ensures |Recent(s, target)| == target && Recent(s + [x], target) == Recent(s, target)[1..] + [x]
  {
  }

  /** Until it wraps, the ring holds everything. */
  lemma Whole<T>(lines: seq<T>, idx: nat, target: int)
    requires (idx == 0 || idx == |lines|) && (target < 1 || |lines| <= target)
    ensures Unrolled(lines, idx) == lines == Recent(lines, target)
  {
  }

  /** The first loop of `main`: fills the ring, until `target` lines or the end. */
  method Fill<T>(target: int, incoming: seq<T>)
    returns (lines: seq<T>, idx: nat, n: nat, views: seq<seq<T>>)
    ensures n <= |incoming| && idx <= |lines| && Unrolled(lines, idx) == incoming[..n]
    ensures n < |incoming| ==> target == |lines| == n && idx < n
    ensures target >= 1 ==> n <= target
    ensures views == Views(incoming, target, n)
  {
    idx, lines, n, views := 0, [], 0, [[]];
    while n < |incoming|
      invariant n <= |incoming| && lines == incoming[..n] && idx == n
      invariant target >= 1 ==> n < target
      invariant views == Views(incoming, target, n)
    {
      lines := lines + [incoming[n]];
      n := n + 1;
      assert lines == incoming[..n];
      var full := idx == target - 1;
      idx := if full then 0 else idx + 1;
      Whole(lines, idx, target);
      var view := DumpLines(lines, idx);
      views := views + [view];
      if full {
        return;
      }
    }
    Whole(lines, idx, target);
  }

  /** One turn of the second loop. */
  method Replace<T>(target: int, before: seq<T>, line: T, lines: seq<T>, idx: nat)
    returns (after: seq<T>, next: nat, view: seq<T>)
    requires target == |lines| <= |before| && idx < |lines| && Unrolled(lines, idx) == Recent(before, target)
    ensures |after| == |lines| && next < |lines| && view == Unrolled(after, next) == Recent(before + [line], target)
  {
    Overwrite(lines, idx, line);
    RecentSnoc(before, line, target);
    after := lines[idx := line];
    next := if idx == target - 1 then 0 else idx + 1;
    view := DumpLines(after, next);
  }

  lemma LastOfFirst<T>(incoming: seq<T>, k: nat, target: int)
    requires k <= |incoming|
    ensures Recent(incoming[..k], target) == if 1 <= target < k then incoming[k - target..k] else incoming[..k]
  {
  }

  lemma FirstLines<T>(incoming: seq<T>, n: nat)
    requires n < |incoming|
    ensures incoming[..n] + [incoming[n]] == incoming[..n + 1]
  {
  }

  /** `main`.  At every boundary between iterations, and at the end, the ring shows the most
      recent lines in the order they came; `views` is what a signal prints at each. */
  method Roll<T>(target: int, incoming: seq<T>) returns (views: seq<seq<T>>, output: seq<T>)
    ensures output == if 1 <= target < |incoming| then incoming[|incoming| - target..] else incoming
    ensures |views| == |incoming| + 1
    ensures forall k :: 0 <= k <= |incoming| ==>
      views[k] == if 1 <= target < k then incoming[k - target..k] else incoming[..k]
  {
    var lines, idx: nat, n: nat;
    lines, idx, n, views := Fill(target, incoming);
    FilledRing(incoming, target, n, lines, idx);
    while n < |incoming|
      invariant RolledTo(incoming, target, n, lines, idx) && views == Views(incoming, target, n)
    {
      var view;
      lines, idx, view := RollOne(target, incoming, n, lines, idx);
      views := views + [view];
      n := n + 1;
    }
    output := DumpLines(lines, idx);
    AllSeen(incoming, target, views, output);
  }

  /** After `n` lines the ring, read from its index, holds the most recent of them. */
  ghost predicate RolledTo<T>(incoming: seq<T>, target: int, n: nat, lines: seq<T>, idx: nat) {
    && n <= |incoming| && idx <= |lines|
    && Unrolled(lines, idx) == Recent(incoming[..n], target)
    && (n < |incoming| ==> target == |lines| <= n && idx < |lines|)
  }

  lemma FilledRing<T>(incoming: seq<T>, target: int, n: nat, lines: seq<T>, idx: nat)
    requires n <= |incoming| && idx <= |lines| && Unrolled(lines, idx) == incoming[..n]
    requires (n < |incoming| ==> target == |lines| == n && idx < n) && (target >= 1 ==> n <= target)
    ensures RolledTo(incoming, target, n, lines, idx)
  {
  }

  method RollOne<T>(target: int, incoming: seq<T>, n: nat, lines: seq<T>, idx: nat)
    returns (after: seq<T>, next: nat, view: seq<T>)
    requires n < |incoming| && RolledTo(incoming, target, n, lines, idx)
    ensures RolledTo(incoming, target, n + 1, after, next) && view == Recent(incoming[..n + 1], target)
  {
    FirstLines(incoming, n);
    after, next, view := Replace(target, incoming[..n], incoming[n], lines, idx);
  }

  lemma AllSeen<T>(incoming: seq<T>, target: int, views: seq<seq<T>>, output: seq<T>)
    requires views == Views(incoming, target, |incoming|) && output == Recent(incoming[..|incoming|], target)
    ensures output == if 1 <= target < |incoming| then incoming[|incoming| - target..] else incoming
    ensures forall k :: 0 <= k <= |incoming| ==>
      views[k] == if 1 <= target < k then incoming[k - target..k] else incoming[..k]
  {
    assert incoming[..|incoming|] == incoming;
    forall k | 0 <= k <= |incoming|
      ensures views[k] == if 1 <= target < k then incoming[k - target..k] else incoming[..k]
    {
      ViewsAt(incoming, target, |incoming|, k);
      LastOfFirst(incoming, k, target);
    }
  }

  lemma {:induction false} ViewsAt<T>(incoming: seq<T>, target: int, n: nat, k: nat)
    requires k <= n <= |incoming|
    ensures Views(incoming, target, n)[k] == Recent(incoming[..k], target)
  {
    if k < n {
      ViewsAt(incoming, target, n - 1, k);
    }
  }
}
