/** Periodic checkpoints (configs/common/Simulation.py, `scriptCheckpoints`).

The simulator is driven to one deadline after another and a checkpoint is taken at each.
On the way it may return early: because the benchmark asked for a checkpoint of its own,
or for some other reason.
 */
module ScriptCheckpoints {
  import opened Arith

  /** An event that makes the simulator return at tick `at`.  `first` says whether it comes
      before a limit that falls on the same tick. */
  datatype Event = Event(at: nat, benchmark: bool, first: bool)

  /** Why the simulator returned; `Rejected` is the error for a negative number of ticks. */
  datatype Cause = LimitReached | CheckpointExit | OtherExit | Rejected

  /** The simulator: its clock, the events to come, the ticks at which checkpoints were
      taken and the deadlines it was given. */
  datatype State = State(tick: int, events: seq<Event>, taken: seq<int>, asked: seq<int>)

  predicate Due(events: seq<Event>, deadline: int) {
    events != [] && (events[0].at < deadline || (events[0].at == deadline && events[0].first))
  }

  /** `m5.simulate(n)`. */
  function Step(s: State, n: int): (State, Cause) {
    if n < 0 then (s, Rejected)
    else
      var deadline := s.tick + n;
      var asked := s.asked + [deadline];
      if Due(s.events, deadline) then
        var e := s.events[0];
        (State(if e.at < s.tick then s.tick else e.at, s.events[1..], s.taken, asked),
         if e.benchmark then CheckpointExit else OtherExit)
      else (State(deadline, s.events, s.taken, asked), LimitReached)
  }

  function Take(s: State): State {
    s.(taken := s.taken + [s.tick])
  }

  /** Simulating up to a deadline, ignoring the benchmark's checkpoints. */
  function SkipTo(s: State, deadline: int): (State, Cause)
    decreases |s.events|
  {
    var (a, cause) := Step(s, deadline - s.tick);
    if cause == CheckpointExit then SkipTo(a, deadline) else (a, cause)
  }

  /** One turn of the main loop: whether to go on, and how it ended. */
  function Turn(s: State, deadline: int, period: int): (State, Cause, Cause) {
    var (a, first) := Step(s, period);
    var (b, cause) := if first == CheckpointExit then SkipTo(a, deadline) else (a, first);
    (if cause == LimitReached then Take(b) else b, first, cause)
  }

  /** The main loop with `left` checkpoints still allowed. */
  function Rest(s: State, now: int, period: int, maxtick: int, left: nat): (State, Cause)
    decreases left
  {
    if left == 0 then (s, LimitReached)
    else if now + period > maxtick then Step(s, maxtick - now)
    else
      var (c, first, cause) := Turn(s, now + period, period);
      if first == LimitReached then Rest(c, now + period, period, maxtick, left - 1) else (c, cause)
  }

  function Allowed(max: int): nat {
    if max > 1 then max - 1 else 0
  }

  function Script(s: State, when: int, period: int, maxtick: int, max: int): (State, Cause) {
    var (a, cause) := SkipTo(s, when);
    if cause != LimitReached then (a, cause)
    else Rest(Take(a), when, period, maxtick, Allowed(max))
  }

  class Simulator {
    var tick: int
    var events: seq<Event>
    var taken: seq<int>
    var asked: seq<int>

    function View(): State
      reads this
    {
      State(tick, events, taken, asked)
    }

    method Simulate(n: int) returns (cause: Cause)
      modifies this
      ensures (View(), cause) == Step(old(View()), n)
    {
      if n < 0 {
        return Rejected;
      }
      var deadline := tick + n;
      asked := asked + [deadline];
      if Due(events, deadline) {
        var e := events[0];
        tick, events := (if e.at < tick then tick else e.at), events[1..];
        return if e.benchmark then CheckpointExit else OtherExit;
      }
      tick := deadline;
      return LimitReached;
    }

    method Checkpoint()
      modifies this
      ensures View() == Take(old(View()))
    {
      taken := taken + [tick];
    }

    /** One turn of the main loop; `first` is the cause the loop condition looks at. */
    method RunTurn(deadline: int, period: int) returns (first: Cause, cause: Cause)
      modifies this
      ensures (View(), first, cause) == Turn(old(View()), deadline, period)
    {
      ghost var before := View();
      first := Simulate(period);
      cause := first;
      ghost var after := View();
      while cause == CheckpointExit
        invariant cause != CheckpointExit ==>
          (View(), cause) == if first == CheckpointExit then SkipTo(after, deadline) else (after, first)
        invariant cause == CheckpointExit ==>
          first == CheckpointExit && SkipTo(View(), deadline) == SkipTo(after, deadline)
        decreases |events|, cause == CheckpointExit
      {
        cause := Simulate(deadline - tick);
      }
      if cause == LimitReached {
        Checkpoint();
      }
    }

    /** Simulates up to `when`, ignoring the benchmark's checkpoints. */
    method RunTo(when: int) returns (cause: Cause)
      modifies this
      ensures (View(), cause) == SkipTo(old(View()), when)
    {
      ghost var before := View();
      cause := Simulate(when - tick);
      while cause == CheckpointExit
        invariant cause != CheckpointExit ==> (View(), cause) == SkipTo(before, when)
        invariant cause == CheckpointExit ==> SkipTo(View(), when) == SkipTo(before, when)
        decreases |events|, cause == CheckpointExit
      {
        cause := Simulate(when - tick);
      }
    }

    /** `scriptCheckpoints` for a start and a period. */
    method TakeCheckpoints(when: int, period: int, maxtick: int, max: int) returns (cause: Cause)
      modifies this
      ensures (View(), cause) == Script(old(View()), when, period, maxtick, max)
    {
      ghost var before := View();
      cause := RunTo(when);
      var number := 0;
      if cause == LimitReached {
        Checkpoint();
        number := 1;
      }
      var simTicks, exitCause := when, cause;
      while number < max && exitCause == LimitReached
        invariant exitCause == LimitReached ==> number >= 1 && cause == LimitReached
        invariant exitCause == LimitReached ==>
          Rest(View(), simTicks, period, maxtick, if max > number then max - number else 0)
          == Script(before, when, period, maxtick, max)
        invariant exitCause != LimitReached ==> (View(), cause) == Script(before, when, period, maxtick, max)
        decreases max - number, exitCause == LimitReached
      {
        if simTicks + period > maxtick {
          cause := Simulate(maxtick - simTicks);
          return;
        }
        exitCause, cause := RunTurn(simTicks + period, period);
        simTicks := simTicks + period;
        if cause == LimitReached {
          number := number + 1;
        }
      }
    }
  }

  // ---- When checkpoints are taken ----

  /** `n` ticks, a period apart. */
  function Ticks(from: int, period: int, n: nat): (ticks: seq<int>)
    ensures |ticks| == n
    decreases n
  {
    if n == 0 then [] else [from] + Ticks(from + period, period, n - 1)
  }

  lemma {:induction false} TicksAt(from: int, period: int, n: nat, k: nat)
    requires k < n
    ensures Ticks(from, period, n)[k] == from + k * period
    decreases n
  {
    if k == 0 {
    } else {
      TicksAt(from + period, period, n - 1, k - 1);
      assert k * period == period + (k - 1) * period;
    }
  }

  /** The deadline is met with nothing but checkpoints of the benchmark on the way. */
  predicate Reaches(events: seq<Event>, deadline: int) {
    Due(events, deadline) ==> events[0].benchmark && Reaches(events[1..], deadline)
  }

  /** The events left when the deadline is met. */
  function Left(events: seq<Event>, deadline: int): seq<Event> {
    if Due(events, deadline) then Left(events[1..], deadline) else events
  }

  lemma {:induction false} SkipToMeets(s: State, deadline: int)
    requires s.tick <= deadline
    ensures
      var (a, cause) := SkipTo(s, deadline);
      && a.taken == s.taken && (cause == LimitReached || cause == OtherExit)
      && (cause == LimitReached <==> Reaches(s.events, deadline))
      && (cause == LimitReached ==> a.tick == deadline && a.events == Left(s.events, deadline))
    decreases |s.events|
  {
    var (a, cause) := Step(s, deadline - s.tick);
    if cause == CheckpointExit {
      SkipToMeets(a, deadline);
    }
  }

  lemma TurnTakes(s: State, deadline: int, period: int)
    requires s.tick + period == deadline
    ensures
      var (c, first, cause) := Turn(s, deadline, period);
      && (first == LimitReached ==> cause == LimitReached)
      && (cause == LimitReached ==> c.tick == deadline && c.taken == s.taken + [deadline])
      && (cause != LimitReached ==> c.taken == s.taken)
      && (first == LimitReached <==> period >= 0 && !Due(s.events, deadline))
      && (cause == LimitReached <==> period >= 0 && Reaches(s.events, deadline))
      && (first == LimitReached ==> c.events == s.events)
  {
    var (a, first) := Step(s, period);
    if first == CheckpointExit {
      SkipToMeets(a, deadline);
    }
  }

  lemma {:induction false} RestTakesAt(s: State, now: int, period: int, maxtick: int, left: nat) returns (n: nat)
    requires s.tick == now
    ensures Rest(s, now, period, maxtick, left).0.taken == s.taken + Ticks(now + period, period, n)
    ensures n <= left
    decreases left
  {
    n := 0;
    if left > 0 && now + period <= maxtick {
      TurnTakes(s, now + period, period);
      var (c, first, cause) := Turn(s, now + period, period);
      if first == LimitReached {
        var more := RestTakesAt(c, now + period, period, maxtick, left - 1);
        n := 1 + more;
      } else if cause == LimitReached {
        n := 1;
        assert Ticks(now + period, period, 1) == [now + period];
      }
    }
  }

  /** Checkpoint number `k` is taken at `when + k * period`, for every interleaving of exits
      and all arguments, and there are at most as many as allowed. */
  lemma TakenAt(s: State, when: int, period: int, maxtick: int, max: int) returns (n: nat)
    ensures Script(s, when, period, maxtick, max).0.taken == s.taken + Ticks(when, period, n)
    ensures n <= (if max > 1 then max else 1)
  {
    n := 0;
    if s.tick <= when {
      SkipToMeets(s, when);
      var (a, cause) := SkipTo(s, when);
      if cause == LimitReached {
        var more := RestTakesAt(Take(a), when, period, maxtick, Allowed(max));
        n := 1 + more;
      }
    }
  }

  // ---- How far the simulator is driven ----

  predicate Within(asked: seq<int>, maxtick: int) {
    forall d <- asked :: d <= maxtick
  }

  lemma {:induction false} SkipToAsks(s: State, deadline: int, maxtick: int)
    requires s.tick <= deadline
    ensures Within(SkipTo(s, deadline).0.asked, maxtick) <==> Within(s.asked, maxtick) && deadline <= maxtick
    decreases |s.events|
  {
    var (a, cause) := Step(s, deadline - s.tick);
    assert a.asked == s.asked + [deadline];
    assert Within(a.asked, maxtick) <==> Within(s.asked, maxtick) && deadline <= maxtick by {
      assert forall d <- s.asked :: d in a.asked;
      assert deadline in a.asked;
    }
    if cause == CheckpointExit {
      SkipToAsks(a, deadline, maxtick);
    }
  }

  lemma TurnAsks(s: State, deadline: int, period: int, maxtick: int)
    requires s.tick + period == deadline
    ensures
      var asked := Turn(s, deadline, period).0.asked;
      if period < 0 then asked == s.asked
      else Within(asked, maxtick) <==> Within(s.asked, maxtick) && deadline <= maxtick
  {
    var (a, first) := Step(s, period);
    if period >= 0 {
      assert a.asked == s.asked + [deadline];
      assert forall d <- s.asked :: d in a.asked;
      assert deadline in a.asked;
      if first == CheckpointExit {
        SkipToAsks(a, deadline, maxtick);
      }
    }
  }

  lemma {:induction false} RestAsks(s: State, now: int, period: int, maxtick: int, left: nat)
    requires s.tick == now
    ensures Within(Rest(s, now, period, maxtick, left).0.asked, maxtick) <==> Within(s.asked, maxtick)
    decreases left
  {
    if left == 0 {
    } else {
      if now + period > maxtick {
        var a := Step(s, maxtick - now).0;
        assert maxtick < now || a.asked == s.asked + [maxtick];
        assert forall d <- s.asked :: d in a.asked;
      } else {
        TurnAsks(s, now + period, period, maxtick);
        TurnTakes(s, now + period, period);
        var (c, first, cause) := Turn(s, now + period, period);
        if first == LimitReached {
          RestAsks(c, now + period, period, maxtick, left - 1);
        }
      }
    }
  }

  /** The simulator is never driven past `maxtick`, except by a first checkpoint that
      is itself past it. */
  lemma NeverPastExactly(s: State, when: int, period: int, maxtick: int, max: int)
    requires Within(s.asked, maxtick)
    ensures Within(Script(s, when, period, maxtick, max).0.asked, maxtick) <==> when <= maxtick || when < s.tick
  {
    if s.tick <= when {
      SkipToMeets(s, when);
      SkipToAsks(s, when, maxtick);
      var (a, cause) := SkipTo(s, when);
      if cause == LimitReached {
        RestAsks(Take(a), when, period, maxtick, Allowed(max));
      }
    }
  }

  // ---- When the series is complete ----

  /** How many more checkpoints fit before `maxtick`. */
  function Wanted(now: int, period: int, maxtick: int, left: nat): (n: nat)
    decreases left
  {
    if left == 0 || now + period > maxtick then 0 else 1 + Wanted(now + period, period, maxtick, left - 1)
  }

  lemma {:induction false} WantedIs(now: int, period: int, maxtick: int, left: nat)
    requires period > 0 && now <= maxtick
    ensures
      var fit := (maxtick - now) / period;
      Wanted(now, period, maxtick, left) == if left < fit then left else fit
    decreases left
  {
    Fits(maxtick - now, period);
    if left > 0 && now + period <= maxtick {
      WantedIs(now + period, period, maxtick, left - 1);
    }
  }

  lemma Fits(gap: nat, period: nat)
    requires period > 0
    ensures gap / period == if gap < period then 0 else 1 + (gap - period) / period
  {
    if gap < period {
      DivModUnique(gap, period, 0, gap);
    } else {
      var rest := gap - period;
      DivModUnique(gap, period, rest / period + 1, rest % period);
    }
  }

  /** Nothing happens before the last of `n` deadlines comes up, and that one is met. */
  predicate Undisturbed(events: seq<Event>, now: int, period: int, n: nat)
    decreases n
  {
    if n == 0 then true
    else if Due(events, now + period) then n == 1 && Reaches(events, now + period)
    else Undisturbed(events, now + period, period, n - 1)
  }

  lemma {:induction false} UndisturbedIs(events: seq<Event>, now: int, period: int, n: nat)
    requires period > 0 && n > 0 && !Due(events, now)
    ensures Undisturbed(events, now, period, n)
       <==> !Due(events, now + (n - 1) * period) && Reaches(events, now + n * period)
    decreases n
  {
    if n > 1 {
      var later := (n - 2) * period;
      assert (n - 1) * period == period + later;
      assert n * period == period + (n - 1) * period;
      MulMono(0, n - 2, period);
      if !Due(events, now + period) {
        UndisturbedIs(events, now + period, period, n - 1);
      }
    }
  }

  lemma {:induction false} RestExactly(s: State, now: int, period: int, maxtick: int, left: nat)
    requires s.tick == now && period > 0
    ensures
      |Rest(s, now, period, maxtick, left).0.taken| == |s.taken| + Wanted(now, period, maxtick, left)
      <==> Undisturbed(s.events, now, period, Wanted(now, period, maxtick, left))
    decreases left
  {
    if left > 0 && now + period <= maxtick {
      TurnTakes(s, now + period, period);
      var (c, first, cause) := Turn(s, now + period, period);
      if first == LimitReached {
        RestExactly(c, now + period, period, maxtick, left - 1);
      }
    }
  }

  lemma {:induction false} LeftNotDue(events: seq<Event>, deadline: int)
    ensures !Due(Left(events, deadline), deadline)
  {
    if Due(events, deadline) {
      LeftNotDue(events[1..], deadline);
    }
  }

  /** All the checkpoints that fit are taken exactly when the first deadline is met, and from
      there nothing at all happens up to the last deadline but one and only checkpoints of
      the benchmark after it.  So one checkpoint of the benchmark's own cuts the series short,
      although both inner loops are there to ignore it. */
  lemma CompleteExactly(s: State, when: int, period: int, maxtick: int, max: int, n: nat)
    requires s.tick <= when <= maxtick && period > 0
    requires
      var fit, allowed := (maxtick - when) / period, if max > 1 then max - 1 else 0;
      n == if allowed < fit then allowed else fit
    ensures
      |Script(s, when, period, maxtick, max).0.taken| == |s.taken| + 1 + n
      <==>
      && Reaches(s.events, when)
      && var left := Left(s.events, when);
         n == 0 || (!Due(left, when + (n - 1) * period) && Reaches(left, when + n * period))
  {
    WantedIs(when, period, maxtick, Allowed(max));
    SkipToMeets(s, when);
    LeftNotDue(s.events, when);
    if n > 0 {
      UndisturbedIs(Left(s.events, when), when, period, n);
    }
    var (a, cause) := SkipTo(s, when);
    if cause == LimitReached {
      RestExactly(Take(a), when, period, maxtick, Allowed(max));
    }
  }

  // ---- Where and why the run ends ----

  /** The clock once the first `n` events have been met, in the order they come. */
  function ClockAfter(tick: int, events: seq<Event>, n: nat): int
    requires n <= |events|
  {
    if n == 0 then tick
    else
      var before := ClockAfter(tick, events, n - 1);
      if events[n - 1].at < before then before else events[n - 1].at
  }

  lemma {:induction false} ClockFromNext(tick: int, events: seq<Event>, n: nat)
    requires n < |events|
    ensures ClockAfter(tick, events, n + 1) == ClockAfter(ClockAfter(tick, events, 1), events[1..], n)
  {
    assert ClockAfter(tick, events, 0) == tick;
    if n == 0 {
    } else {
      ClockFromNext(tick, events, n - 1);
    }
  }

  /** `j` is the first event that is not a checkpoint of the benchmark. */
  ghost predicate FirstOther(events: seq<Event>, j: nat) {
    j < |events| && !events[j].benchmark && forall i :: 0 <= i < j ==> events[i].benchmark
  }

  /** Short of the deadline, the simulator ends at the first event that is not the
      benchmark's. */
  lemma {:induction false} SkipToEnds(s: State, deadline: int) returns (j: nat)
    requires s.tick <= deadline && !Reaches(s.events, deadline)
    ensures FirstOther(s.events, j)
    ensures
      var (a, cause) := SkipTo(s, deadline);
      cause == OtherExit && a.tick == ClockAfter(s.tick, s.events, j + 1) && a.taken == s.taken
    decreases |s.events|
  {
    var (a, cause) := Step(s, deadline - s.tick);
    assert ClockAfter(s.tick, s.events, 0) == s.tick;
    if cause == CheckpointExit {
      var i := SkipToEnds(a, deadline);
      ClockFromNext(s.tick, s.events, i + 1);
      j := i + 1;
    } else {
      j := 0;
    }
  }

  lemma OnePeriod(s: State, now: int, period: int, maxtick: int, left: nat) returns (c: State)
    requires s.tick == now && period > 0 && left > 0 && now + period <= maxtick && !Due(s.events, now + period)
    ensures c.tick == now + period && c.events == s.events && c.taken == s.taken + [now + period]
    ensures Rest(s, now, period, maxtick, left) == Rest(c, now + period, period, maxtick, left - 1)
  {
    TurnTakes(s, now + period, period);
    c := Turn(s, now + period, period).0;
  }

  lemma Periods(now: int, period: int, k: nat, end: int)
    requires period > 0 && k > 0 && end == now + k * period
    ensures now + period <= end == now + period + (k - 1) * period
  {
    assert k * period == period + (k - 1) * period;
    MulMono(0, k - 1, period);
  }

  /** The main loop while nothing comes due. */
  lemma {:induction false} RestGoesOn(s: State, now: int, period: int, maxtick: int, left: nat, k: nat, end: int)
    returns (c: State)
    requires s.tick == now && period > 0 && k <= left && end == now + k * period && end <= maxtick
    requires k == 0 || !Due(s.events, end)
    ensures c.tick == end && c.events == s.events && c.taken == s.taken + Ticks(now + period, period, k)
    ensures Rest(s, now, period, maxtick, left) == Rest(c, end, period, maxtick, left - k)
    decreases k
  {
    if k == 0 {
      c := s;
    } else {
      Periods(now, period, k, end);
      var next := OnePeriod(s, now, period, maxtick, left);
      c := RestGoesOn(next, now + period, period, maxtick, left - 1, k - 1, end);
      TakenNext(s.taken, next.taken, c.taken, now + period, period, k);
    }
  }

  lemma TakenNext(a: seq<int>, b: seq<int>, c: seq<int>, from: int, period: int, k: nat)
    requires k > 0 && b == a + [from] && c == b + Ticks(from + period, period, k - 1)
    ensures c == a + Ticks(from, period, k)
  {
    Reassociate(a, from, Ticks(from + period, period, k - 1));
  }

  lemma Reassociate(a: seq<int>, x: int, b: seq<int>)
    ensures a + [x] + b == a + ([x] + b)
  {
  }

  /** The run up to the checkpoint after `k` periods, where nothing has come due before. */
  lemma ScriptGoesOn(s: State, when: int, period: int, maxtick: int, max: int, k: nat) returns (c: State)
    requires s.tick <= when && period > 0 && Reaches(s.events, when)
    requires k <= Allowed(max) && when + k * period <= maxtick
    requires k == 0 || !Due(Left(s.events, when), when + k * period)
    ensures c.tick == when + k * period && c.events == Left(s.events, when)
    ensures c.taken == s.taken + Ticks(when, period, k + 1)
    ensures Script(s, when, period, maxtick, max) == Rest(c, when + k * period, period, maxtick, Allowed(max) - k)
  {
    SkipToMeets(s, when);
    var a := Take(SkipTo(s, when).0);
    c := RestGoesOn(a, when, period, maxtick, Allowed(max), k, when + k * period);
    Reassociate(s.taken, when, Ticks(when + period, period, k));
  }

  /** Where nothing comes due up to the last checkpoint that fits or is allowed: with no more
      allowed the run ends there; otherwise it goes on to `maxtick`, or to the first event
      before it. */
  lemma EndsAfterAll(s: State, when: int, period: int, maxtick: int, max: int, n: nat)
    requires s.tick <= when <= maxtick && period > 0 && Reaches(s.events, when)
    requires
      var fit, allowed := (maxtick - when) / period, if max > 1 then max - 1 else 0;
      n == if allowed < fit then allowed else fit
    requires n == 0 || !Due(Left(s.events, when), when + n * period)
    ensures
      var (e, cause) := Script(s, when, period, maxtick, max);
      var left := Left(s.events, when);
      && e.taken == s.taken + Ticks(when, period, n + 1)
      && (n + 1 >= max ==> e.tick == when + n * period && cause == LimitReached)
      && (n + 1 < max ==>
            if Due(left, maxtick)
            then e.tick == left[0].at && cause == if left[0].benchmark then CheckpointExit else OtherExit
            else e.tick == maxtick && cause == LimitReached)
  {
    Room(maxtick - when, period, n);
    LeftNotDue(s.events, when);
    var c := ScriptGoesOn(s, when, period, maxtick, max, n);
    if n < Allowed(max) {
      NoMoreRoom(maxtick - when, period);
    }
  }

  lemma Room(gap: nat, period: nat, n: nat)
    requires period > 0 && n <= gap / period
    ensures n * period <= gap
  {
    MulMono(n, gap / period, period);
  }

  lemma NoMoreRoom(gap: nat, period: nat)
    requires period > 0
    ensures gap < gap / period * period + period
  {
  }

  /** Where an event comes due in the period before checkpoint `k`: the benchmark's own
      checkpoints are met and checkpoint `k` is the last; anything else ends the run. */
  lemma EndsDuring(s: State, when: int, period: int, maxtick: int, max: int, k: nat) returns (j: nat)
    requires s.tick <= when && period > 0 && Reaches(s.events, when)
    requires 1 <= k < max && when + k * period <= maxtick
    requires k == 1 || !Due(Left(s.events, when), when + (k - 1) * period)
    requires Due(Left(s.events, when), when + k * period)
    ensures
      var (e, cause) := Script(s, when, period, maxtick, max);
      var left := Left(s.events, when);
      if Reaches(left, when + k * period)
      then e.tick == when + k * period && cause == LimitReached && e.taken == s.taken + Ticks(when, period, k + 1)
      else && FirstOther(left, j)
           && e.tick == ClockAfter(when + (k - 1) * period, left, j + 1)
           && cause == OtherExit
           && e.taken == s.taken + Ticks(when, period, k)
  {
    assert when + k * period == when + (k - 1) * period + period;
    var c := ScriptGoesOn(s, when, period, maxtick, max, k - 1);
    j := LastPeriod(c, when + (k - 1) * period, period, maxtick, Allowed(max) - (k - 1));
    TicksSnoc(when, period, k);
  }

  lemma {:induction false} TicksSnoc(from: int, period: int, n: nat)
    ensures Ticks(from, period, n + 1) == Ticks(from, period, n) + [from + n * period]
    decreases n
  {
    if n == 0 {
      assert Ticks(from, period, 1) == [from];
    } else {
      TicksSnoc(from + period, period, n - 1);
      assert n * period == period + (n - 1) * period;
    }
  }

  lemma LastPeriod(s: State, now: int, period: int, maxtick: int, left: nat) returns (j: nat)
    requires s.tick == now && period > 0 && left > 0 && now + period <= maxtick && Due(s.events, now + period)
    ensures
      var (e, cause) := Rest(s, now, period, maxtick, left);
      if Reaches(s.events, now + period)
      then e.tick == now + period && cause == LimitReached && e.taken == s.taken + [now + period]
      else && FirstOther(s.events, j)
           && e.tick == ClockAfter(now, s.events, j + 1)
           && cause == OtherExit
           && e.taken == s.taken
  {
    j := 0;
    TurnTakes(s, now + period, period);
    if !Reaches(s.events, now + period) {
      j := TurnEnds(s, now, period);
    }
  }

  lemma TurnEnds(s: State, now: int, period: int) returns (j: nat)
    requires s.tick == now && period > 0 && !Reaches(s.events, now + period)
    ensures FirstOther(s.events, j)
    ensures
      var (c, first, cause) := Turn(s, now + period, period);
      first != LimitReached && cause == OtherExit && c.tick == ClockAfter(now, s.events, j + 1)
  {
    j := SkipToEnds(s, now + period);
  }

  /** Where the first deadline is not met, the run ends at the first event that is not the
      benchmark's, without a checkpoint. */
  lemma EndsBeforeFirst(s: State, when: int, period: int, maxtick: int, max: int) returns (j: nat)
    requires s.tick <= when && !Reaches(s.events, when)
    ensures FirstOther(s.events, j)
    ensures
      var (e, cause) := Script(s, when, period, maxtick, max);
      e.tick == ClockAfter(s.tick, s.events, j + 1) && cause == OtherExit && e.taken == s.taken
  {
    j := SkipToEnds(s, when);
  }

  /** A first deadline in the past is refused, and so is going on to a `maxtick` in the past. */
  lemma EndsRefused(s: State, when: int, period: int, maxtick: int, max: int)
    requires when < s.tick || (s.tick <= when && maxtick < when && Reaches(s.events, when) && period > 0)
    ensures
      var (e, cause) := Script(s, when, period, maxtick, max);
      if when < s.tick then e == s && cause == Rejected
      else && e.tick == when
           && e.taken == s.taken + [when]
           && cause == if max <= 1 then LimitReached else Rejected
  {
    if s.tick <= when {
      SkipToMeets(s, when);
    }
  }

  /** Three checkpoints fit, but the benchmark's own one at tick 15 stops the series after two. */
  lemma BenchmarkCutsSeries()
    ensures
      var s := State(0, [Event(15, true, true)], [], []);
      Script(s, 10, 10, 40, 3).0.taken == [10, 20] && Wanted(10, 10, 40, Allowed(3)) == 2
  {
    var s := State(0, [Event(15, true, true)], [], []);
    var a := Take(SkipTo(s, 10).0);
    assert a == State(10, [Event(15, true, true)], [10], [10]);
    var b := Step(a, 10).0;
    assert b == State(15, [], [10], [10, 20]);
    assert [10, 20] + [20] == [10, 20, 20];
    assert Step(b, 5) == (State(20, [], [10], [10, 20, 20]), LimitReached);
    assert SkipTo(b, 20) == (State(20, [], [10], [10, 20, 20]), LimitReached);
    assert Turn(a, 20, 10) == (State(20, [], [10, 20], [10, 20, 20]), CheckpointExit, LimitReached);
    assert Rest(a, 10, 10, 40, 2).0.taken == [10, 20];
    assert Wanted(20, 10, 40, 1) == 1;
  }
}
