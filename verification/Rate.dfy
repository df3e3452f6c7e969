/** A rate limiter in one process (effect/rate/memory.go, effect/rate/rate.go): the generic cell rate
    algorithm. Moments and durations are nanoseconds; moments count from the zero time, and a
    difference of two moments saturates at the longest duration. */
module Rates {
  const LONGEST := 0x7FFF_FFFF_FFFF_FFFF
  const SHORTEST := -0x8000_0000_0000_0000

  datatype Allowance = Allowance(name: string, most: int, every: int) {

    predicate IsStated() {
      name != "" && most > 0 && every > 0
    }

    function Spacing(): (s: int)
      ensures s >= 0
    {
      if IsStated() then every / most else 0
    }

    function Tolerance(): int {
      (most - 1) * Spacing()
    }
  }

  function Saturated(difference: int): int {
    if difference > LONGEST then LONGEST else if difference < SHORTEST then SHORTEST else difference
  }

  datatype Answer = Granted(wait: int) | Exceeded(wait: int) | Unstated

  datatype Call = Call(allowance: Allowance, longest: int, now: int)

  type Arrivals = map<string, int>

  /** When the next request would arrive if requests were spaced evenly. */
  function NextArrival(next: Arrivals, call: Call): int {
    var kept := if call.allowance.name in next then next[call.allowance.name] else 0;
    if kept < call.now then call.now else kept
  }

  function Wait(next: Arrivals, call: Call): int {
    var wait := Saturated(NextArrival(next, call) - call.allowance.Tolerance() - call.now);
    if wait < 0 then 0 else wait
  }

  function Answered(next: Arrivals, call: Call): Answer {
    if !call.allowance.IsStated() then Unstated
    else
      var wait := Wait(next, call);
      if call.longest > 0 && wait > call.longest then Exceeded(wait) else Granted(wait)
  }

  function Moved(next: Arrivals, call: Call): Arrivals {
    if Answered(next, call).Granted?
    then next[call.allowance.name := NextArrival(next, call) + call.allowance.Spacing()]
    else next
  }

  class MemoryLimiter {
    var nextArrival: Arrivals

    constructor ()
      ensures nextArrival == map[]
    {
      nextArrival := map[];
    }

    /** Reserves a turn and says how long until it, or reserves nothing. */
    method Turn(allowance: Allowance, longest: int, now: int) returns (answer: Answer)
      modifies this
      ensures answer == Answered(old(nextArrival), Call(allowance, longest, now))
      ensures nextArrival == Moved(old(nextArrival), Call(allowance, longest, now))
      ensures !answer.Granted? ==> nextArrival == old(nextArrival)
    {
      if !allowance.IsStated() {
        return Unstated;
      }
      var spacing := allowance.Spacing();
      var arrival := if allowance.name in nextArrival then nextArrival[allowance.name] else 0;
      if arrival < now {
        arrival := now;
      }
      var tolerance := (allowance.most - 1) * spacing;
      var wait := Saturated(arrival - tolerance - now);
      if wait < 0 {
        wait := 0;
      }
      if longest > 0 && wait > longest {
        return Exceeded(wait);
      }
      nextArrival := nextArrival[allowance.name := arrival + spacing];
      return Granted(wait);
    }
  }

  // Histories -----------------------------------------------------------------------------

  function After(history: seq<Call>): Arrivals
    decreases |history|
  {
    if history == [] then map[] else Moved(After(history[..|history| - 1]), history[|history| - 1])
  }

  /** A grant's place in the even spacing, when it was asked for and how long it was told to wait. */
  datatype Grant = Grant(arrival: int, now: int, wait: int) {

    /** The moment the caller was given. */
    function Moment(): int {
      now + wait
    }
  }

  /** The turns granted under one name, in order. */
  function Grants(history: seq<Call>, name: string): seq<Grant>
    decreases |history|
  {
    if history == [] then []
    else
      var before, call := history[..|history| - 1], history[|history| - 1];
      var next := After(before);
      var answer := Answered(next, call);
      if call.allowance.name == name && answer.Granted?
      then Grants(before, name) + [Grant(NextArrival(next, call), call.now, answer.wait)]
      else Grants(before, name)
  }

  /** Every call under the allowance's name states this allowance. */
  predicate Fixed(history: seq<Call>, a: Allowance) {
    forall i :: 0 <= i < |history| && history[i].allowance.name == a.name ==> history[i].allowance == a
  }

  /** No wait was cut off at the longest duration. */
  predicate Unsaturated(g: Grant, a: Allowance) {
    g.arrival - a.Tolerance() - g.now <= LONGEST
  }

  lemma {:induction false} StepsUp(k: nat, spacing: int)
    requires spacing >= 0
    ensures (k + 1) * spacing == k * spacing + spacing && k * spacing >= 0
  {
  }

  /** Arrivals are at least one spacing apart, and the next one is kept. */
  lemma {:induction false} ArrivalsSpaced(history: seq<Call>, a: Allowance, i: nat, j: nat)
    requires a.IsStated() && Fixed(history, a) && i <= j < |Grants(history, a.name)|
    ensures var g := Grants(history, a.name);
            && g[j].arrival >= g[i].arrival + (j - i) * a.Spacing()
            && a.name in After(history) && After(history)[a.name] >= g[j].arrival + a.Spacing()
    decreases |history|
  {
    var before, call := history[..|history| - 1], history[|history| - 1];
    var g, g0 := Grants(history, a.name), Grants(before, a.name);
    assert Fixed(before, a);
    assert history == before + [call];
    OneMore(before, call, a.name);
    if j < |g0| {
      ArrivalsSpaced(before, a, i, j);
      assert g[i] == g0[i] && g[j] == g0[j];
    } else {
      assert call.allowance == a;
      if i < j {
        ArrivalsSpaced(before, a, i, j - 1);
        assert g[i] == g0[i] && g[j - 1] == g0[j - 1];
        StepsUp(j - 1 - i, a.Spacing());
      }
    }
  }

  lemma {:induction false} ToleranceIsWithinEvery(a: Allowance)
    requires a.IsStated()
    ensures 0 <= a.Tolerance() <= a.every && (a.Spacing() == 0 <==> a.most > a.every)
  {
    var q := a.every / a.most;
    assert a.most * q <= a.every < a.most * (q + 1);
    assert (a.most - 1) * q <= a.most * q;
    if q == 0 {
      assert a.most * (q + 1) == a.most;
    } else {
      assert a.most * q >= a.most;
    }
  }

  /** The moment given lies between the arrival less the burst's tolerance and the arrival. */
  lemma {:induction false} MomentsNearArrivals(history: seq<Call>, a: Allowance, i: nat)
    requires a.IsStated() && Fixed(history, a) && i < |Grants(history, a.name)|
    requires Unsaturated(Grants(history, a.name)[i], a)
    ensures var g := Grants(history, a.name)[i]; g.arrival - a.Tolerance() <= g.Moment() <= g.arrival
    decreases |history|
  {
    var before, call := history[..|history| - 1], history[|history| - 1];
    var g0 := Grants(before, a.name);
    ToleranceIsWithinEvery(a);
    assert Fixed(before, a);
    if i < |g0| {
      MomentsNearArrivals(before, a, i);
    } else {
      assert call.allowance == a;
    }
  }

  /** A wait is exact unless it had to be cut off, and then it is too short. */
  lemma {:induction false} WaitIsExactUnlessSaturated(history: seq<Call>, a: Allowance, i: nat)
    requires a.IsStated() && Fixed(history, a) && i < |Grants(history, a.name)|
    ensures var g := Grants(history, a.name)[i];
            && (Unsaturated(g, a) <==> g.Moment() >= g.arrival - a.Tolerance())
            && (!Unsaturated(g, a) ==> g.wait == LONGEST)
    decreases |history|
  {
    var before, call := history[..|history| - 1], history[|history| - 1];
    var g0 := Grants(before, a.name);
    assert Fixed(before, a);
    if i < |g0| {
      WaitIsExactUnlessSaturated(before, a, i);
    } else {
      assert call.allowance == a;
    }
  }

  lemma {:induction false} Apart(x: int, y: int, spacing: int)
    ensures (x - y) * spacing == x * spacing - y * spacing
  {
  }

  /** Over any history, whatever other allowances and refusals are in it and however the clock
      jumps: two granted moments j - i grants apart are at least j - i - (most - 1) spacings apart. */
  lemma {:induction false} GrantsAreSpaced(history: seq<Call>, a: Allowance, i: nat, j: nat)
    requires a.IsStated() && Fixed(history, a) && i <= j < |Grants(history, a.name)|
    requires Unsaturated(Grants(history, a.name)[i], a) && Unsaturated(Grants(history, a.name)[j], a)
    ensures var g := Grants(history, a.name);
            g[j].Moment() - g[i].Moment() >= (j - i - (a.most - 1)) * a.Spacing()
  {
    ArrivalsSpaced(history, a, i, j);
    MomentsNearArrivals(history, a, i);
    MomentsNearArrivals(history, a, j);
    Apart(j - i, a.most - 1, a.Spacing());
  }

  // Windows -------------------------------------------------------------------------------

  predicate Within(g: Grant, from: int, length: int) {
    from <= g.Moment() <= from + length
  }

  function CountWithin(grants: seq<Grant>, from: int, length: int): (n: nat)
    ensures n <= |grants|
  {
    if grants == [] then 0
    else (if Within(grants[0], from, length) then 1 else 0) + CountWithin(grants[1..], from, length)
  }

  lemma {:induction false} CountDropsLast(grants: seq<Grant>, from: int, length: int)
    requires grants != [] && !Within(grants[|grants| - 1], from, length)
    ensures CountWithin(grants[..|grants| - 1], from, length) == CountWithin(grants, from, length)
  {
    if |grants| > 1 {
      assert grants[..|grants| - 1][1..] == grants[1..][..|grants| - 2];
      CountDropsLast(grants[1..], from, length);
    }
  }

  /** Grants within a window cannot be further apart than `bound`, so there are no more. */
  lemma {:induction false} CountBound(grants: seq<Grant>, from: int, length: int, bound: int)
    requires bound >= 1
    requires forall i, j :: 0 <= i <= j < |grants| && Within(grants[i], from, length) && Within(grants[j], from, length) ==> j - i + 1 <= bound
    ensures CountWithin(grants, from, length) <= bound
    decreases |grants|
  {
    if grants != [] {
      var last := |grants| - 1;
      if !Within(grants[0], from, length) {
        CountBound(grants[1..], from, length, bound);
      } else if !Within(grants[last], from, length) {
        CountDropsLast(grants, from, length);
        CountBound(grants[..last], from, length, bound);
      }
    }
  }

  lemma {:induction false} MoreIsMore(x: int, y: int, spacing: int)
    requires x <= y && spacing >= 0
    ensures x * spacing <= y * spacing
  {
  }

  lemma {:induction false} FitsInWindow(k: int, most: int, spacing: int, length: int)
    requires spacing > 0 && length >= 0 && (k - (most - 1)) * spacing <= length
    ensures k + 1 <= most + length / spacing
  {
    var q := length / spacing;
    assert length < (q + 1) * spacing;
    if k - (most - 1) >= q + 1 {
      MoreIsMore(q + 1, k - (most - 1), spacing);
    }
  }

  /** Any window of a length holds at most the burst and one grant per spacing in it. */
  lemma {:induction false} WindowBound(history: seq<Call>, a: Allowance, from: int, length: nat)
    requires a.IsStated() && Fixed(history, a) && a.Spacing() > 0
    requires forall i :: 0 <= i < |Grants(history, a.name)| ==> Unsaturated(Grants(history, a.name)[i], a)
    ensures CountWithin(Grants(history, a.name), from, length) <= a.most + length / a.Spacing()
  {
    var g := Grants(history, a.name);
    forall i, j | 0 <= i <= j < |g| && Within(g[i], from, length) && Within(g[j], from, length)
      ensures j - i + 1 <= a.most + length / a.Spacing()
    {
      GrantsAreSpaced(history, a, i, j);
      FitsInWindow(j - i, a.most, a.Spacing(), length);
    }
    CountBound(g, from, length, a.most + length / a.Spacing());
  }

  // Refusals and bursts -------------------------------------------------------------------

  /** What one more call adds, given what the ones before it left. */
  function MoreGrants(next: Arrivals, call: Call, name: string): seq<Grant> {
    var answer := Answered(next, call);
    if call.allowance.name == name && answer.Granted? then [Grant(NextArrival(next, call), call.now, answer.wait)] else []
  }

  lemma {:induction false} OneMore(history: seq<Call>, call: Call, name: string)
    ensures After(history + [call]) == Moved(After(history), call)
    ensures Grants(history + [call], name) == Grants(history, name) + MoreGrants(After(history), call, name)
  {
    assert (history + [call])[..|history|] == history;
  }

  lemma {:induction false} LastApart(a: seq<Call>, b: seq<Call>)
    requires b != []
    ensures a + b == (a + b[..|b| - 1]) + [b[|b| - 1]]
  {
  }

  /** A refused call leaves everything after it as if it had not been made. */
  lemma {:induction false} RefusalsLeaveNoTrace(before: seq<Call>, refused: Call, rest: seq<Call>, name: string)
    requires !Answered(After(before), refused).Granted?
    ensures After(before + [refused] + rest) == After(before + rest)
    ensures Grants(before + [refused] + rest, name) == Grants(before + rest, name)
    decreases |rest|
  {
    if rest == [] {
      assert before + [refused] + [] == before + [refused] && before + [] == before;
      OneMore(before, refused, name);
    } else {
      var init, last := rest[..|rest| - 1], rest[|rest| - 1];
      RefusalsLeaveNoTrace(before, refused, init, name);
      LastApart(before + [refused], rest);
      LastApart(before, rest);
      OneMore(before + [refused] + init, last, name);
      OneMore(before + init, last, name);
    }
  }

  function Repeated(call: Call, count: nat): seq<Call> {
    seq(count, i => call)
  }

  /** From rest, as many requests as the allowance states go at once. */
  lemma {:induction false} BurstGoesAtOnce(a: Allowance, now: nat, count: nat)
    requires a.IsStated() && count <= a.most
    ensures var h := Repeated(Call(a, 0, now), count);
            && |Grants(h, a.name)| == count
            && (forall i :: 0 <= i < count ==> Grants(h, a.name)[i] == Grant(now + i * a.Spacing(), now, 0))
            && (count > 0 ==> a.name in After(h) && After(h)[a.name] == now + count * a.Spacing())
  {
    if count > 0 {
      var call := Call(a, 0, now);
      var h, before := Repeated(call, count), Repeated(call, count - 1);
      assert h[..count - 1] == before;
      BurstGoesAtOnce(a, now, count - 1);
      StepsUp(count - 1, a.Spacing());
      WithinTolerance(a, count - 1);
      assert NextArrival(After(before), call) == now + (count - 1) * a.Spacing();
    }
  }

  /** Requests at one moment are reserved one spacing apart, however many there are. */
  lemma {:induction false} RepeatsAreSpaced(a: Allowance, now: nat, count: nat)
    requires a.IsStated()
    ensures var h := Repeated(Call(a, 0, now), count);
            && |Grants(h, a.name)| == count
            && (forall i :: 0 <= i < count ==> Grants(h, a.name)[i].arrival == now + i * a.Spacing() && Grants(h, a.name)[i].now == now)
            && (count > 0 ==> a.name in After(h) && After(h)[a.name] == now + count * a.Spacing())
  {
    if count > 0 {
      var call := Call(a, 0, now);
      var h, before := Repeated(call, count), Repeated(call, count - 1);
      assert h[..count - 1] == before;
      RepeatsAreSpaced(a, now, count - 1);
      StepsUp(count - 1, a.Spacing());
      assert NextArrival(After(before), call) == now + (count - 1) * a.Spacing();
    }
  }

  /** Every allowance that spaces its requests comes to it: asked often enough at one moment, it
      reserves a turn and answers a wait that ends before that turn. */
  lemma {:induction false} WaitsComeToBeCutOff(a: Allowance, now: nat)
    requires a.IsStated() && a.Spacing() > 0
    ensures var last := a.most + LONGEST / a.Spacing();
            var h := Repeated(Call(a, 0, now), last + 1);
            && Fixed(h, a) && |Grants(h, a.name)| == last + 1
            && (var g := Grants(h, a.name)[last];
                !Unsaturated(g, a) && g.wait == LONGEST && g.Moment() < g.arrival - a.Tolerance())
  {
    var last := a.most + LONGEST / a.Spacing();
    var h := Repeated(Call(a, 0, now), last + 1);
    RepeatsAreSpaced(a, now, last + 1);
    PastTheLongest(a, last);
    var g := Grants(h, a.name)[last];
    assert g.arrival == now + last * a.Spacing() && g.now == now;
    assert !Unsaturated(g, a);
    WaitIsExactUnlessSaturated(h, a, last);
  }

  lemma {:induction false} PastTheLongest(a: Allowance, last: int)
    requires a.IsStated() && a.Spacing() > 0 && last == a.most + LONGEST / a.Spacing()
    ensures last >= 0 && last * a.Spacing() - a.Tolerance() > LONGEST
  {
    RoundsUp(LONGEST, a.Spacing());
    Apart(last, a.most - 1, a.Spacing());
  }

  lemma {:induction false} RoundsUp(length: int, spacing: int)
    requires spacing > 0
    ensures (length / spacing + 1) * spacing > length
  {
  }

  lemma {:induction false} WithinTolerance(a: Allowance, k: nat)
    requires a.IsStated() && k < a.most
    ensures k * a.Spacing() <= a.Tolerance()
  {
    MoreIsMore(k, a.most - 1, a.Spacing());
  }
}
