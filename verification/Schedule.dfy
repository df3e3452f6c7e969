/** Recurrence policies (effect/schedule.go, schedule_policy.go, schedule_backoff.go,
    schedule_composition.go, retry_driver.go). Durations and counts have the width they have in the
    program; moments are unbounded and their difference saturates. */
module Schedules {
  import opened Outcome
  import opened Wrappers

  newtype Duration = x: int | -0x8000_0000_0000_0000 <= x < 0x8000_0000_0000_0000
  newtype Count = x: int | 0 <= x < 0x1_0000_0000_0000_0000

  const MAXIMUM_COUNT: Count := 0xFFFF_FFFF_FFFF_FFFF

  type Input(!new, ==, 0)

  datatype Output =
    | Nothing
    | Counted(count: Count)
    | Timed(duration: Duration)
    | Both(left: Output, right: Output)
    | Either(left: Output, right: Output, leftContinues: bool, rightContinues: bool)

  datatype Decision = Decision(output: Output, delay: Duration, continues: bool)

  /** A step of a policy: what the next decision depends on. */
  datatype Policy =
    | Stopping
    | Counting(count: Count, delay: Duration, limit: Option<Count>)
    | Doubling(delay: Duration, maximum: Duration)
    | Adding(current: Duration, next: Duration, maximum: Duration)
    | UpToFirst(until: Duration)
    | UpToFrom(start: int, until: Duration)
    | Intersection(left: Policy, right: Policy)
    | Union(left: Policy, right: Policy)
    | WhileInput(of: Policy, acceptsInput: Input -> bool)
    | WhileOutput(of: Policy, acceptsOutput: Output -> bool)

  function NormalizeDuration(d: Duration): (r: Duration)
    ensures r >= 0
  {
    if d < 0 then 0 else d
  }

  function Exponential(base: Duration, maximum: Duration): (p: Policy)
    ensures Fit(p)
  {
    var b, m := NormalizeDuration(base), NormalizeDuration(maximum);
    Doubling(if b > m then m else b, m)
  }

  function Fibonacci(one: Duration, maximum: Duration): (p: Policy)
    ensures Fit(p)
  {
    var o, m := NormalizeDuration(one), NormalizeDuration(maximum);
    var first := if o > m then m else o;
    Adding(first, first, m)
  }

  function Recurs(count: Count): (p: Policy)
    ensures Fit(p)
  {
    Counting(0, 0, Some(count))
  }

  function Forever(): (p: Policy)
    ensures Fit(p)
  {
    Counting(0, 0, None)
  }

  function Spaced(delay: Duration): (p: Policy)
    ensures Fit(p)
  {
    Counting(0, NormalizeDuration(delay), None)
  }

  function UpTo(limit: Duration): (p: Policy)
    ensures Fit(p)
  {
    UpToFirst(NormalizeDuration(limit))
  }

  /** What the constructors establish of a policy's durations, and every step keeps. */
  predicate Fit(p: Policy) {
    match p
    case Counting(_, delay, _) => delay >= 0
    case Doubling(delay, maximum) => 0 <= delay <= maximum
    case Adding(current, next, maximum) => 0 <= current <= maximum && 0 <= next <= maximum
    case UpToFirst(limit) => limit >= 0
    case UpToFrom(_, limit) => limit >= 0
    case Intersection(l, r) => Fit(l) && Fit(r)
    case Union(l, r) => Fit(l) && Fit(r)
    case WhileInput(of, _) => Fit(of)
    case WhileOutput(of, _) => Fit(of)
    case Stopping => true
  }

  function DoubleWithin(value: Duration, maximum: Duration): Duration
    requires 0 <= value && 0 <= maximum
  {
    if value >= maximum || value > maximum - value then maximum else value * 2
  }

  function AddWithin(left: Duration, right: Duration, maximum: Duration): Duration
    requires 0 <= left && 0 <= right && 0 <= maximum
  {
    if left >= maximum || right >= maximum - left then maximum else left + right
  }

  function NextCount(count: Count): Count {
    if count == MAXIMUM_COUNT then MAXIMUM_COUNT else count + 1
  }

  /** The difference of two moments, cut off at the longest duration either way. */
  function Elapsed(now: int, start: int): Duration {
    var d := now - start;
    if d < -0x8000_0000_0000_0000 then -0x8000_0000_0000_0000
    else if d >= 0x8000_0000_0000_0000 then 0x7FFF_FFFF_FFFF_FFFF
    else d as Duration
  }

  function Continue(output: Output, delay: Duration): Decision {
    Decision(output, if delay < 0 then 0 else delay, true)
  }

  function Stop(output: Output): Decision {
    Decision(output, 0, false)
  }

  function DecideElapsed(elapsed: Duration, limit: Duration): Decision {
    if elapsed >= limit then Stop(Timed(elapsed)) else Continue(Timed(elapsed), 0)
  }

  function ActiveMinimumDelay(left: Decision, right: Decision): Duration {
    if !left.continues then right.delay
    else if !right.continues then left.delay
    else if left.delay < right.delay then left.delay else right.delay
  }

  /** One decision, and the policy's next step. No duration or count leaves its width. */
  function Decide(p: Policy, now: int, input: Input): (r: (Decision, Policy))
    requires Fit(p)
    ensures Fit(r.1) && r.0.delay >= 0
  {
    match p
    case Stopping => (Stop(Nothing), p)
    case Counting(count, delay, limit) =>
      var next := Counting(NextCount(count), delay, limit);
      if limit.Some? && count >= limit.value then (Stop(Counted(count)), next) else (Continue(Counted(count), delay), next)
    case Doubling(delay, maximum) => (Continue(Timed(delay), delay), Doubling(DoubleWithin(delay, maximum), maximum))
    case Adding(current, next, maximum) =>
      (Continue(Timed(current), current), Adding(next, AddWithin(current, next, maximum), maximum))
    case UpToFirst(limit) => (DecideElapsed(0, limit), UpToFrom(now, limit))
    case UpToFrom(start, limit) => (DecideElapsed(NormalizeDuration(Elapsed(now, start)), limit), p)
    case Intersection(l, r) =>
      var (left, l') := Decide(l, now, input);
      var (right, r') := Decide(r, now, input);
      var output := Both(left.output, right.output);
      if !left.continues || !right.continues then (Stop(output), Intersection(l', r'))
      else (Continue(output, if left.delay < right.delay then right.delay else left.delay), Intersection(l', r'))
    case Union(l, r) =>
      var (left, l') := Decide(l, now, input);
      var (right, r') := Decide(r, now, input);
      var output := Either(left.output, right.output, left.continues, right.continues);
      if !left.continues && !right.continues then (Stop(output), Union(l', r'))
      else (Continue(output, ActiveMinimumDelay(left, right)), Union(l', r'))
    case WhileInput(of, accepts) =>
      var (d, of') := Decide(of, now, input);
      (if accepts(input) then d else d.(continues := false, delay := 0), WhileInput(of', accepts))
    case WhileOutput(of, accepts) =>
      var (d, of') := Decide(of, now, input);
      (if accepts(d.output) then d else d.(continues := false, delay := 0), WhileOutput(of', accepts))
  }

  // Runs ----------------------------------------------------------------------------------

  /** The policy after `n` decisions over these moments and inputs. */
  function After(p: Policy, clock: nat -> int, inputs: nat -> Input, n: nat): (r: Policy)
    requires Fit(p)
    ensures Fit(r)
  {
    if n == 0 then p else Decide(After(p, clock, inputs, n - 1), clock(n - 1), inputs(n - 1)).1
  }

  function DecisionAt(p: Policy, clock: nat -> int, inputs: nat -> Input, n: nat): Decision
    requires Fit(p)
  {
    Decide(After(p, clock, inputs, n), clock(n), inputs(n)).0
  }

  lemma {:induction false} AfterDependsOnThePast(p: Policy, clock: nat -> int, inputs: nat -> Input, clock': nat -> int, inputs': nat -> Input, n: nat)
    requires Fit(p) && forall i: nat :: i < n ==> clock(i) == clock'(i) && inputs(i) == inputs'(i)
    ensures After(p, clock, inputs, n) == After(p, clock', inputs', n)
    decreases n
  {
    if n > 0 {
      AfterDependsOnThePast(p, clock, inputs, clock', inputs', n - 1);
    }
  }

  /** A decision that was asked for. */
  datatype Asked = Asked(now: int, input: Input)

  ghost function Moments(asked: seq<Asked>): nat -> int {
    (i: nat) => if i < |asked| then asked[i].now else 0
  }

  ghost function Given(asked: seq<Asked>, otherwise: Input): nat -> Input {
    (i: nat) => if i < |asked| then asked[i].input else otherwise
  }

  /** One policy's state for one run; `asked` is every call so far. */
  class ScheduleDriver {
    var step: Policy
    ghost const policy: Policy
    ghost var asked: seq<Asked>

    /** The step is where the policy is after all the calls, whatever any later input. */
    ghost predicate Valid()
      reads this
    {
      Fit(policy) && forall otherwise :: After(policy, Moments(asked), Given(asked, otherwise), |asked|) == step
    }

    constructor (start: Policy)
      requires Fit(start)
      ensures Valid() && policy == start && asked == []
    {
      step, policy, asked := start, start, [];
    }

    /** The k-th call answers the policy's k-th decision over the calls so far, whatever the policy
        and the calls: each driver goes through its policy's decisions once, in order. */
    method Next(now: int, input: Input) returns (decision: Decision)
      requires Valid()
      modifies this
      ensures Valid() && asked == old(asked) + [Asked(now, input)]
      ensures decision == DecisionAt(policy, Moments(asked), Given(asked, input), |old(asked)|)
    {
      ghost var before := asked;
      ghost var after := before + [Asked(now, input)];
      forall otherwise
        ensures After(policy, Moments(after), Given(after, otherwise), |before|) == step
      {
        AfterDependsOnThePast(policy, Moments(after), Given(after, otherwise), Moments(before), Given(before, otherwise), |before|);
      }
      assert Moments(after)(|before|) == now && forall otherwise :: Given(after, otherwise)(|before|) == input;
      assert Fit(step) by {
        assert After(policy, Moments(before), Given(before, input), |before|) == step;
      }
      var (decided, following) := Decide(step, now, input);
      step := following;
      asked := after;
      return decided;
    }
  }

  function Least(a: int, b: int): int {
    if a < b then a else b
  }

  function Most(a: int, b: int): int {
    if a < b then b else a
  }

  function Pow2(n: nat): nat {
    if n == 0 then 1 else 2 * Pow2(n - 1)
  }

  function Fib(n: nat): nat {
    if n < 2 then n else Fib(n - 1) + Fib(n - 2)
  }

  // Backoff -------------------------------------------------------------------------------

  lemma {:induction false} PowerStep(base: nat, n: nat)
    ensures base * Pow2(n + 1) == 2 * (base * Pow2(n)) && base * Pow2(n) >= 0
  {
    var power := Pow2(n);
    assert base * (2 * power) == 2 * (base * power);
  }

  lemma {:induction false} CappedDouble(value: int, capped: Duration, maximum: Duration)
    requires value >= 0 && maximum >= 0 && capped as int == Least(value, maximum as int)
    ensures DoubleWithin(capped, maximum) as int == Least(2 * value, maximum as int)
  {
  }

  lemma {:induction false} DoublingDelays(base: nat, p: Policy, clock: nat -> int, inputs: nat -> Input, n: nat)
    requires Fit(p) && p.Doubling? && p.delay as int == Least(base, p.maximum as int)
    ensures var q := After(p, clock, inputs, n);
            q.Doubling? && q.maximum == p.maximum && q.delay as int == Least(base * Pow2(n), p.maximum as int)
    decreases n
  {
    if n > 0 {
      DoublingDelays(base, p, clock, inputs, n - 1);
      PowerStep(base, n - 1);
      CappedDouble(base * Pow2(n - 1), After(p, clock, inputs, n - 1).delay, p.maximum);
    }
  }

  /** The n-th exponential delay is the base doubled n times, or the maximum if that is less. */
  lemma {:induction false} ExponentialDelays(base: Duration, maximum: Duration, clock: nat -> int, inputs: nat -> Input, n: nat)
    ensures var d := DecisionAt(Exponential(base, maximum), clock, inputs, n);
            && d.continues && d.output == Timed(d.delay)
            && d.delay as int == Least(Most(base as int, 0) * Pow2(n), Most(maximum as int, 0))
  {
    DoublingDelays(Most(base as int, 0), Exponential(base, maximum), clock, inputs, n);
  }

  lemma {:induction false} CappedSum(one: nat, a: nat, b: nat, maximum: Duration, left: Duration, right: Duration)
    requires maximum >= 0 && left as int == Least(one * a, maximum as int) && right as int == Least(one * b, maximum as int)
    requires one * a >= 0 && one * b >= 0
    ensures AddWithin(left, right, maximum) as int == Least(one * (a + b), maximum as int)
  {
    assert one * (a + b) == one * a + one * b;
  }

  lemma {:induction false} AddingDelays(one: nat, p: Policy, clock: nat -> int, inputs: nat -> Input, n: nat)
    requires Fit(p) && p.Adding? && p.current as int == p.next as int == Least(one, p.maximum as int)
    ensures var q := After(p, clock, inputs, n);
            && q.Adding? && q.maximum == p.maximum
            && q.current as int == Least(one * Fib(n + 1), p.maximum as int)
            && q.next as int == Least(one * Fib(n + 2), p.maximum as int)
    decreases n
  {
    if n == 0 {
      assert Fib(1) == 1 && Fib(2) == 1;
      assert one * 1 == one;
    } else {
      AddingDelays(one, p, clock, inputs, n - 1);
      var q := After(p, clock, inputs, n - 1);
      assert one * Fib(n) >= 0 && one * Fib(n + 1) >= 0;
      CappedSum(one, Fib(n), Fib(n + 1), p.maximum, q.current, q.next);
      assert Fib(n + 2) == Fib(n) + Fib(n + 1);
    }
  }

  /** The n-th Fibonacci delay is the n-th Fibonacci number of ones, or the maximum if that is less. */
  lemma {:induction false} FibonacciDelays(one: Duration, maximum: Duration, clock: nat -> int, inputs: nat -> Input, n: nat)
    ensures var d := DecisionAt(Fibonacci(one, maximum), clock, inputs, n);
            d.continues && d.delay as int == Least(Most(one as int, 0) * Fib(n + 1), Most(maximum as int, 0))
  {
    AddingDelays(Most(one as int, 0), Fibonacci(one, maximum), clock, inputs, n);
  }

  // Counting ------------------------------------------------------------------------------

  lemma {:induction false} CountingSteps(p: Policy, clock: nat -> int, inputs: nat -> Input, n: nat)
    requires Fit(p) && p.Counting? && p.count == 0
    ensures var q := After(p, clock, inputs, n);
            q.Counting? && q.count as int == Least(n, MAXIMUM_COUNT as int) && q.delay == p.delay && q.limit == p.limit
    decreases n
  {
    if n > 0 {
      CountingSteps(p, clock, inputs, n - 1);
    }
  }

  /** Recurs(count) continues exactly `count` times, whatever the count, and Spaced and Forever
      always do. */
  lemma {:induction false} RecursCounts(count: Count, delay: Duration, clock: nat -> int, inputs: nat -> Input, n: nat)
    ensures DecisionAt(Recurs(count), clock, inputs, n).continues <==> n < count as int
    ensures n <= count as int ==> DecisionAt(Recurs(count), clock, inputs, n).output == Counted(n as Count)
    ensures DecisionAt(Spaced(delay), clock, inputs, n).continues && DecisionAt(Forever(), clock, inputs, n).continues
    ensures DecisionAt(Spaced(delay), clock, inputs, n).delay == NormalizeDuration(delay)
  {
    CountingSteps(Recurs(count), clock, inputs, n);
    CountingSteps(Spaced(delay), clock, inputs, n);
    CountingSteps(Forever(), clock, inputs, n);
  }

  /** UpTo continues while less than its limit has passed since its first decision. */
  lemma {:induction false} UpToFollowsTheClock(limit: Duration, clock: nat -> int, inputs: nat -> Input, n: nat)
    ensures DecisionAt(UpTo(limit), clock, inputs, n).continues <==> Most(clock(n) - clock(0), 0) < Most(limit as int, 0)
  {
    UpToSteps(limit, clock, inputs, n);
  }

  lemma {:induction false} UpToSteps(limit: Duration, clock: nat -> int, inputs: nat -> Input, n: nat)
    ensures After(UpTo(limit), clock, inputs, n) == if n == 0 then UpTo(limit) else UpToFrom(clock(0), NormalizeDuration(limit))
    decreases n
  {
    if n > 0 {
      UpToSteps(limit, clock, inputs, n - 1);
    }
  }

  // Composition ---------------------------------------------------------------------------

  lemma {:induction false} IntersectionSteps(a: Policy, b: Policy, now: int, input: Input)
    requires Fit(a) && Fit(b)
    ensures Fit(Intersection(a, b))
    ensures Decide(Intersection(a, b), now, input).1 == Intersection(Decide(a, now, input).1, Decide(b, now, input).1)
  {
  }

  lemma {:induction false} UnionSteps(a: Policy, b: Policy, now: int, input: Input)
    requires Fit(a) && Fit(b)
    ensures Fit(Union(a, b))
    ensures Decide(Union(a, b), now, input).1 == Union(Decide(a, now, input).1, Decide(b, now, input).1)
  {
  }

  lemma {:induction false} IntersectionAdvances(l: Policy, r: Policy, clock: nat -> int, inputs: nat -> Input, n: nat)
    requires Fit(l) && Fit(r)
    ensures Fit(Intersection(l, r))
    ensures After(Intersection(l, r), clock, inputs, n) == Intersection(After(l, clock, inputs, n), After(r, clock, inputs, n))
    decreases n
  {
    if n > 0 {
      IntersectionAdvances(l, r, clock, inputs, n - 1);
      IntersectionSteps(After(l, clock, inputs, n - 1), After(r, clock, inputs, n - 1), clock(n - 1), inputs(n - 1));
    }
  }

  lemma {:induction false} UnionAdvances(l: Policy, r: Policy, clock: nat -> int, inputs: nat -> Input, n: nat)
    requires Fit(l) && Fit(r)
    ensures Fit(Union(l, r))
    ensures After(Union(l, r), clock, inputs, n) == Union(After(l, clock, inputs, n), After(r, clock, inputs, n))
    decreases n
  {
    if n > 0 {
      UnionAdvances(l, r, clock, inputs, n - 1);
      UnionSteps(After(l, clock, inputs, n - 1), After(r, clock, inputs, n - 1), clock(n - 1), inputs(n - 1));
    }
  }

  /** An intersection continues while both do, after the longer delay; a union while either does,
      after the shortest delay of those that do. */
  lemma {:induction false} Compositions(l: Policy, r: Policy, clock: nat -> int, inputs: nat -> Input, n: nat)
    requires Fit(l) && Fit(r)
    ensures Fit(Intersection(l, r)) && Fit(Union(l, r))
    ensures var a, b := DecisionAt(l, clock, inputs, n), DecisionAt(r, clock, inputs, n);
            var both, either := DecisionAt(Intersection(l, r), clock, inputs, n), DecisionAt(Union(l, r), clock, inputs, n);
            && (both.continues <==> a.continues && b.continues)
            && (both.continues ==> both.delay as int == Most(a.delay as int, b.delay as int))
            && (either.continues <==> a.continues || b.continues)
            && (a.continues && b.continues ==> either.delay as int == Least(a.delay as int, b.delay as int))
            && (a.continues && !b.continues ==> either.delay == a.delay)
            && (!a.continues && b.continues ==> either.delay == b.delay)
  {
    IntersectionAdvances(l, r, clock, inputs, n);
    UnionAdvances(l, r, clock, inputs, n);
  }

  /** Intersecting two counts gives the smaller, uniting them the larger. */
  lemma {:induction false} ComposedCounts(a: Count, b: Count, clock: nat -> int, inputs: nat -> Input, n: nat)
    ensures Fit(Intersection(Recurs(a), Recurs(b))) && Fit(Union(Recurs(a), Recurs(b)))
    ensures DecisionAt(Intersection(Recurs(a), Recurs(b)), clock, inputs, n).continues <==> n < Least(a as int, b as int)
    ensures DecisionAt(Union(Recurs(a), Recurs(b)), clock, inputs, n).continues <==> n < Most(a as int, b as int)
  {
    Compositions(Recurs(a), Recurs(b), clock, inputs, n);
    RecursCounts(a, 0, clock, inputs, n);
    RecursCounts(b, 0, clock, inputs, n);
  }

  // Retrying ------------------------------------------------------------------------------

  datatype Attempt = Succeeds(value: Value) | Fails(cause: Cause)

  /** What one retry meets: the n-th evaluation's end, the moment of the n-th decision, the reason
      its context has been cancelled with before that decision, if any, and the cause the wait after
      it ends with, if it is cut short. */
  datatype Course = Course(
    fx: nat -> Attempt,
    clock: nat -> int,
    cancelled: nat -> Option<Reason>,
    cutShort: nat -> Option<Cause>)

  /** How a retry ends, and how often it evaluated the effect. */
  datatype Ending =
    | Answered(value: Value, attempts: nat)
    | Rejected(cause: Cause, attempts: nat)
    | Exhausted(cause: Cause, output: Output, attempts: nat)
    | Stopped(cause: Cause, attempts: nat)
    | OutOfGas

  /** The retry from its n-th evaluation on. */
  function Retry(course: Course, eligible: Cause -> Option<Input>, p: Policy, n: nat, gas: nat): Ending
    requires Fit(p)
    decreases gas
  {
    match course.fx(n)
    case Succeeds(value) => Answered(value, n + 1)
    case Fails(cause) =>
      var input := eligible(cause);
      if input.None? then Rejected(cause, n + 1)
      else if course.cancelled(n).Some? then Stopped(Interrupted(course.cancelled(n).value, UNKNOWN), n + 1)
      else
        var (decision, next) := Decide(p, course.clock(n), input.value);
        if !decision.continues then Exhausted(cause, decision.output, n + 1)
        else if course.cutShort(n).Some? then Stopped(course.cutShort(n).value, n + 1)
        else if gas == 0 then OutOfGas
        else Retry(course, eligible, next, n + 1, gas - 1)
  }

  /** The n-th attempt fails in a way that may be retried, and nothing has been cancelled. */
  predicate MayRetry(course: Course, eligible: Cause -> Option<Input>, input: Input, n: nat) {
    course.fx(n).Fails? && eligible(course.fx(n).cause) == Some(input) && course.cancelled(n).None?
  }

  /** The first `n` attempts fail with these inputs for their policy, which continues after each. */
  predicate RetriesThrough(course: Course, eligible: Cause -> Option<Input>, inputs: nat -> Input, p: Policy, n: nat)
    requires Fit(p)
  {
    n > 0 ==>
      && RetriesThrough(course, eligible, inputs, p, n - 1)
      && MayRetry(course, eligible, inputs(n - 1), n - 1) && course.cutShort(n - 1).None?
      && DecisionAt(p, course.clock, inputs, n - 1).continues
  }

  lemma {:induction false} RetryStep(course: Course, eligible: Cause -> Option<Input>, p: Policy, input: Input, n: nat, gas: nat)
    requires Fit(p) && gas > 0 && MayRetry(course, eligible, input, n) && course.cutShort(n).None?
    requires Decide(p, course.clock(n), input).0.continues
    ensures Retry(course, eligible, p, n, gas) == Retry(course, eligible, Decide(p, course.clock(n), input).1, n + 1, gas - 1)
  {
  }

  /** After that, the next attempt is number n, with the policy n decisions on. */
  lemma {:induction false} RetryAdvances(course: Course, eligible: Cause -> Option<Input>, inputs: nat -> Input, p: Policy, n: nat, gas: nat)
    requires Fit(p) && gas >= n && RetriesThrough(course, eligible, inputs, p, n)
    ensures Retry(course, eligible, p, 0, gas) == Retry(course, eligible, After(p, course.clock, inputs, n), n, gas - n)
    decreases n
  {
    if n > 0 {
      var q := After(p, course.clock, inputs, n - 1);
      assert DecisionAt(p, course.clock, inputs, n - 1) == Decide(q, course.clock(n - 1), inputs(n - 1)).0;
      RetryAdvances(course, eligible, inputs, p, n - 1, gas);
      RetryStep(course, eligible, q, inputs(n - 1), n - 1, gas - (n - 1));
    }
  }

  /** A policy that stops at its n-th decision allows n + 1 evaluations, and what is reported is the
      last one's failure. */
  lemma {:induction false} ExhaustionKeepsTheLastFailure(course: Course, eligible: Cause -> Option<Input>, inputs: nat -> Input, p: Policy, n: nat, gas: nat)
    requires Fit(p) && gas >= n && RetriesThrough(course, eligible, inputs, p, n)
    requires MayRetry(course, eligible, inputs(n), n) && !DecisionAt(p, course.clock, inputs, n).continues
    ensures Retry(course, eligible, p, 0, gas) == Exhausted(course.fx(n).cause, DecisionAt(p, course.clock, inputs, n).output, n + 1)
  {
    RetryAdvances(course, eligible, inputs, p, n, gas);
  }

  /** A retry cancelled after its n-th failure, before the policy is asked or while waiting, ends
      there: with the cancellation and not with the failure, and without another evaluation. */
  lemma {:induction false} CancellationEndsRetrying(course: Course, eligible: Cause -> Option<Input>, inputs: nat -> Input, p: Policy, n: nat, gas: nat)
    requires Fit(p) && gas >= n && RetriesThrough(course, eligible, inputs, p, n)
    requires course.fx(n).Fails? && eligible(course.fx(n).cause) == Some(inputs(n))
    ensures course.cancelled(n).Some? ==>
              Retry(course, eligible, p, 0, gas) == Stopped(Interrupted(course.cancelled(n).value, UNKNOWN), n + 1)
    ensures course.cancelled(n).None? && course.cutShort(n).Some? && DecisionAt(p, course.clock, inputs, n).continues ==>
              Retry(course, eligible, p, 0, gas) == Stopped(course.cutShort(n).value, n + 1)
  {
    RetryAdvances(course, eligible, inputs, p, n, gas);
  }

  /** The first `n` attempts fail with retryable causes, and nothing is cancelled. */
  ghost predicate FailsThrough(course: Course, eligible: Cause -> Option<Input>, inputs: nat -> Input, n: nat) {
    forall i: nat :: i < n ==> MayRetry(course, eligible, inputs(i), i) && course.cutShort(i).None?
  }

  lemma {:induction false} RecursRetries(course: Course, eligible: Cause -> Option<Input>, inputs: nat -> Input, count: Count, n: nat)
    requires n <= count as int && FailsThrough(course, eligible, inputs, n)
    ensures RetriesThrough(course, eligible, inputs, Recurs(count), n)
    decreases n
  {
    if n > 0 {
      RecursRetries(course, eligible, inputs, count, n - 1);
      RecursCounts(count, 0, course.clock, inputs, n - 1);
    }
  }

  /** Recurs(count), where nothing is cancelled: the first success among count + 1 attempts, or the
      last of their failures. */
  lemma {:induction false} RecursAttempts(course: Course, eligible: Cause -> Option<Input>, inputs: nat -> Input, count: Count, n: nat, gas: nat)
    requires gas >= count as int && n <= count as int && FailsThrough(course, eligible, inputs, n)
    ensures course.fx(n).Succeeds? ==> Retry(course, eligible, Recurs(count), 0, gas) == Answered(course.fx(n).value, n + 1)
    ensures n == count as int && MayRetry(course, eligible, inputs(n), n) ==>
              Retry(course, eligible, Recurs(count), 0, gas) == Exhausted(course.fx(n).cause, Counted(count), n + 1)
  {
    RecursRetries(course, eligible, inputs, count, n);
    RecursCounts(count, 0, course.clock, inputs, n);
    RetryAdvances(course, eligible, inputs, Recurs(count), n, gas);
    if n == count as int && MayRetry(course, eligible, inputs(n), n) {
      ExhaustionKeepsTheLastFailure(course, eligible, inputs, Recurs(count), n, gas);
    }
  }

  /** Whatever the attempts do and whenever they are cancelled, retrying with Recurs(count) ends
      after at most count + 1 evaluations. */
  lemma {:induction false} RecursIsBounded(course: Course, eligible: Cause -> Option<Input>, count: Count, n: Count, gas: nat)
    requires n <= count && gas >= (count - n) as int
    ensures var ending := Retry(course, eligible, Counting(n, 0, Some(count)), n as int, gas);
            !ending.OutOfGas? && ending.attempts <= count as int + 1
    decreases (count - n) as int
  {
    if n < count {
      RecursIsBounded(course, eligible, count, n + 1, gas - 1);
    }
  }
}
