/** Pull streams (effect/stream.go, stream_transform.go, stream_run.go, chunk.go): sources that emit
    chunks, stages that rewrite what they pull and keep state between pulls, and the loop that
    pulls until the end. */
module Streams {
  type Item(!new, ==, 0)

  datatype Step = Emit(chunk: seq<Item>) | End

  // Chunks --------------------------------------------------------------------------------

  function TakeFirst(chunk: seq<Item>, count: int): seq<Item> {
    if count >= |chunk| then chunk else if count < 1 then [] else chunk[..count]
  }

  function DropFirst(chunk: seq<Item>, count: int): seq<Item> {
    if count >= |chunk| then [] else if count < 1 then chunk else chunk[count..]
  }

  /** The leading values the predicate accepts. */
  function Accepted(values: seq<Item>, keep: Item -> bool): seq<Item> {
    if values == [] || !keep(values[0]) then [] else [values[0]] + Accepted(values[1..], keep)
  }

  function Filtered(values: seq<Item>, keep: Item -> bool): seq<Item> {
    if values == [] then [] else (if keep(values[0]) then [values[0]] else []) + Filtered(values[1..], keep)
  }

  function Expanded(values: seq<Item>, transform: Item -> seq<Item>): seq<Item> {
    if values == [] then [] else transform(values[0]) + Expanded(values[1..], transform)
  }

  function Folded<S>(values: seq<Item>, state: S, combine: (S, Item) -> S): S
    decreases |values|
  {
    if values == [] then state else Folded(values[1..], combine(state, values[0]), combine)
  }

  lemma Regroup<T>(a: seq<T>, b: seq<T>, c: seq<T>)
    ensures a + (b + c) == a + b + c
  {
  }

  lemma {:induction false} AcceptedFacts(values: seq<Item>, keep: Item -> bool)
    ensures Accepted(values, keep) <= values && forall x :: x in Accepted(values, keep) ==> keep(x)
    ensures |Accepted(values, keep)| < |values| ==> !keep(values[|Accepted(values, keep)|])
  {
    if values != [] && keep(values[0]) {
      AcceptedFacts(values[1..], keep);
    }
  }

  lemma {:induction false} AcceptedAppend(a: seq<Item>, b: seq<Item>, keep: Item -> bool)
    ensures Accepted(a + b, keep) == if |Accepted(a, keep)| < |a| then Accepted(a, keep) else a + Accepted(b, keep)
  {
    if a == [] {
      assert a + b == b;
    } else if keep(a[0]) {
      var rest := a[1..];
      assert (a + b)[1..] == rest + b && [a[0]] + rest == a;
      AcceptedAppend(rest, b, keep);
      AcceptedFacts(rest, keep);
      assert Accepted(a + b, keep) == [a[0]] + Accepted(rest + b, keep);
      if |Accepted(rest, keep)| == |rest| {
        Regroup([a[0]], rest, Accepted(b, keep));
      }
    }
  }

  lemma {:induction false} FilteredAppend(a: seq<Item>, b: seq<Item>, keep: Item -> bool)
    ensures Filtered(a + b, keep) == Filtered(a, keep) + Filtered(b, keep)
  {
    if a == [] {
      assert a + b == b;
    } else {
      assert (a + b)[1..] == a[1..] + b;
      FilteredAppend(a[1..], b, keep);
      Regroup(if keep(a[0]) then [a[0]] else [], Filtered(a[1..], keep), Filtered(b, keep));
    }
  }

  lemma {:induction false} ExpandedAppend(a: seq<Item>, b: seq<Item>, transform: Item -> seq<Item>)
    ensures Expanded(a + b, transform) == Expanded(a, transform) + Expanded(b, transform)
  {
    if a == [] {
      assert a + b == b;
    } else {
      assert (a + b)[1..] == a[1..] + b;
      ExpandedAppend(a[1..], b, transform);
      Regroup(transform(a[0]), Expanded(a[1..], transform), Expanded(b, transform));
    }
  }

  lemma {:induction false} FoldedAppend<S>(a: seq<Item>, b: seq<Item>, state: S, combine: (S, Item) -> S)
    ensures Folded(a + b, state, combine) == Folded(b, Folded(a, state, combine), combine)
    decreases |a|
  {
    if a == [] {
      assert a + b == b;
    } else {
      assert (a + b)[1..] == a[1..] + b;
      FoldedAppend(a[1..], b, combine(state, a[0]), combine);
    }
  }

  method FilterChunk(chunk: seq<Item>, keep: Item -> bool) returns (values: seq<Item>)
    ensures values == Filtered(chunk, keep)
  {
    values := [];
    for i := 0 to |chunk|
      invariant values + Filtered(chunk[i..], keep) == Filtered(chunk, keep)
    {
      if keep(chunk[i]) {
        values := values + [chunk[i]];
      }
      assert chunk[i..][1..] == chunk[i + 1..];
    }
    assert chunk[|chunk|..] == [];
  }

  method FoldChunk<S>(chunk: seq<Item>, initial: S, combine: (S, Item) -> S) returns (state: S)
    ensures state == Folded(chunk, initial, combine)
  {
    state := initial;
    for i := 0 to |chunk|
      invariant Folded(chunk[i..], state, combine) == Folded(chunk, initial, combine)
    {
      assert chunk[i..][1..] == chunk[i + 1..];
      state := combine(state, chunk[i]);
    }
    assert chunk[|chunk|..] == [];
  }

  /** The accepted prefix, and whether a value was rejected. */
  method TakeWhile(chunk: seq<Item>, keep: Item -> bool) returns (prefix: seq<Item>, rejected: bool)
    ensures prefix == Accepted(chunk, keep) && rejected == (|prefix| < |chunk|)
  {
    for i := 0 to |chunk|
      invariant Accepted(chunk, keep) == chunk[..i] + Accepted(chunk[i..], keep)
    {
      assert chunk[i..][1..] == chunk[i + 1..];
      if !keep(chunk[i]) {
        return chunk[..i], true;
      }
      assert chunk[..i] + [chunk[i]] == chunk[..i + 1];
    }
    assert chunk[..|chunk|] == chunk;
    return chunk, false;
  }

  // Pulls ---------------------------------------------------------------------------------

  /** One run's state: a source and how often it has been pulled, and the stages over it. */
  datatype Pull =
    | Chunks(rest: seq<seq<Item>>, pulled: nat)
    | Once(value: Item, spent: bool)
    | Taking(budget: int, of: Pull)
    | Dropping(budget: int, of: Pull)
    | TakingWhile(keep: Item -> bool, ended: bool, of: Pull)
    | Filtering(keep: Item -> bool, of: Pull)
    | Expanding(transform: Item -> seq<Item>, of: Pull)
    | Concatenating(first: Pull, drained: bool, second: Pull)

  function Taken(step: Step, budget: int): (Step, int) {
    if step.End? || budget < 1 then (End, budget)
    else
      var head := TakeFirst(step.chunk, budget);
      (Emit(head), budget - |head|)
  }

  function Dropped(step: Step, budget: int): (Step, int) {
    if step.End? || budget < 1 then (step, budget)
    else
      var rest := DropFirst(step.chunk, budget);
      (Emit(rest), budget - (|step.chunk| - |rest|))
  }

  function TakenWhile(step: Step, keep: Item -> bool, ended: bool): (Step, bool) {
    if step.End? || ended then (End, ended)
    else
      var prefix := Accepted(step.chunk, keep);
      (Emit(prefix), |prefix| < |step.chunk|)
  }

  /** The next step. A stage that has ended does not pull. */
  function Next(p: Pull): (Step, Pull) {
    match p
    case Chunks(rest, pulled) =>
      if rest == [] then (End, Chunks([], pulled + 1)) else (Emit(rest[0]), Chunks(rest[1..], pulled + 1))
    case Once(value, spent) => if spent then (End, p) else (Emit([value]), Once(value, true))
    case Taking(budget, of) =>
      if budget < 1 then (End, p)
      else
        var (step, of') := Next(of);
        var (rewritten, budget') := Taken(step, budget);
        (rewritten, Taking(budget', of'))
    case Dropping(budget, of) =>
      var (step, of') := Next(of);
      var (rewritten, budget') := Dropped(step, budget);
      (rewritten, Dropping(budget', of'))
    case TakingWhile(keep, ended, of) =>
      if ended then (End, p)
      else
        var (step, of') := Next(of);
        var (rewritten, ended') := TakenWhile(step, keep, ended);
        (rewritten, TakingWhile(keep, ended', of'))
    case Filtering(keep, of) =>
      var (step, of') := Next(of);
      (if step.End? then End else Emit(Filtered(step.chunk, keep)), Filtering(keep, of'))
    case Expanding(transform, of) =>
      var (step, of') := Next(of);
      (if step.End? then End else Emit(Expanded(step.chunk, transform)), Expanding(transform, of'))
    case Concatenating(first, drained, second) =>
      if drained then
        var (step, second') := Next(second);
        (step, Concatenating(first, true, second'))
      else
        var (step, first') := Next(first);
        if step.Emit? then (step, Concatenating(first', false, second))
        else
          var (step', second') := Next(second);
          (step', Concatenating(first', true, second'))
  }

  // Meaning -------------------------------------------------------------------------------

  function Flat(chunks: seq<seq<Item>>): seq<Item> {
    if chunks == [] then [] else chunks[0] + Flat(chunks[1..])
  }

  /** The values still to come, as operations on plain sequences. */
  function Values(p: Pull): seq<Item> {
    match p
    case Chunks(rest, _) => Flat(rest)
    case Once(value, spent) => if spent then [] else [value]
    case Taking(budget, of) => TakeFirst(Values(of), budget)
    case Dropping(budget, of) => DropFirst(Values(of), budget)
    case TakingWhile(keep, ended, of) => if ended then [] else Accepted(Values(of), keep)
    case Filtering(keep, of) => Filtered(Values(of), keep)
    case Expanding(transform, of) => Expanded(Values(of), transform)
    case Concatenating(first, drained, second) => (if drained then [] else Values(first)) + Values(second)
  }

  /** Steps a source can still emit. */
  function Steps(p: Pull): nat {
    match p
    case Chunks(rest, _) => |rest|
    case Once(_, spent) => if spent then 0 else 1
    case Taking(_, of) => Steps(of)
    case Dropping(_, of) => Steps(of)
    case TakingWhile(_, _, of) => Steps(of)
    case Filtering(_, of) => Steps(of)
    case Expanding(_, of) => Steps(of)
    case Concatenating(first, drained, second) => (if drained then 0 else Steps(first)) + Steps(second)
  }

  lemma TakeAcross(chunk: seq<Item>, rest: seq<Item>, budget: int)
    requires budget >= 1
    ensures var head := TakeFirst(chunk, budget); TakeFirst(chunk + rest, budget) == head + TakeFirst(rest, budget - |head|)
  {
  }

  lemma DropAcross(chunk: seq<Item>, rest: seq<Item>, budget: int)
    requires budget >= 1
    ensures var left := DropFirst(chunk, budget);
            DropFirst(chunk + rest, budget) == left + DropFirst(rest, budget - (|chunk| - |left|))
  {
  }

  /** A pull's chunk comes off the front of the values to come. */
  ghost predicate Takes(p: Pull, step: Step, p': Pull) {
    if step.End? then Values(p) == [] && Values(p') == []
    else Values(p) == step.chunk + Values(p') && Steps(p') < Steps(p)
  }

  lemma {:induction false} TakingTakes(budget: int, of: Pull)
    requires Takes(of, Next(of).0, Next(of).1)
    ensures var (step, p') := Next(Taking(budget, of)); Takes(Taking(budget, of), step, p')
  {
    var (step, of') := Next(of);
    if budget >= 1 && step.Emit? {
      TakeAcross(step.chunk, Values(of'), budget);
    }
  }

  lemma {:induction false} DroppingTakes(budget: int, of: Pull)
    requires Takes(of, Next(of).0, Next(of).1)
    ensures var (step, p') := Next(Dropping(budget, of)); Takes(Dropping(budget, of), step, p')
  {
    var (step, of') := Next(of);
    if budget >= 1 && step.Emit? {
      DropAcross(step.chunk, Values(of'), budget);
    }
  }

  lemma {:induction false} PrefixAcross(chunk: seq<Item>, rest: seq<Item>, keep: Item -> bool)
    ensures var prefix := Accepted(chunk, keep);
            Accepted(chunk + rest, keep) == prefix + (if |prefix| < |chunk| then [] else Accepted(rest, keep))
  {
    AcceptedAppend(chunk, rest, keep);
    AcceptedFacts(chunk, keep);
    var prefix := Accepted(chunk, keep);
    if |prefix| < |chunk| {
      assert prefix + [] == prefix;
    } else {
      assert prefix == chunk;
    }
  }

  lemma {:induction false} TakingWhileTakes(keep: Item -> bool, ended: bool, of: Pull)
    requires Takes(of, Next(of).0, Next(of).1)
    ensures var (step, p') := Next(TakingWhile(keep, ended, of)); Takes(TakingWhile(keep, ended, of), step, p')
  {
    var (step, of') := Next(of);
    if !ended && step.Emit? {
      PrefixAcross(step.chunk, Values(of'), keep);
      var prefix := Accepted(step.chunk, keep);
      var p' := TakingWhile(keep, |prefix| < |step.chunk|, of');
      assert Next(TakingWhile(keep, ended, of)) == (Emit(prefix), p');
      assert Values(p') == if |prefix| < |step.chunk| then [] else Accepted(Values(of'), keep);
    }
  }

  lemma {:induction false} RewritingTakes(keep: Item -> bool, transform: Item -> seq<Item>, of: Pull)
    requires Takes(of, Next(of).0, Next(of).1)
    ensures var (step, p') := Next(Filtering(keep, of)); Takes(Filtering(keep, of), step, p')
    ensures var (step, p') := Next(Expanding(transform, of)); Takes(Expanding(transform, of), step, p')
  {
    var (step, of') := Next(of);
    if step.Emit? {
      FilteredAppend(step.chunk, Values(of'), keep);
      ExpandedAppend(step.chunk, Values(of'), transform);
    }
  }

  lemma {:induction false} ConcatenatingTakes(first: Pull, drained: bool, second: Pull)
    requires Takes(first, Next(first).0, Next(first).1) && Takes(second, Next(second).0, Next(second).1)
    ensures var (step, p') := Next(Concatenating(first, drained, second)); Takes(Concatenating(first, drained, second), step, p')
  {
    var (step, first') := Next(first);
    if drained {
      var second' := Next(second).1;
      assert Values(Concatenating(first, true, second)) == Values(second);
      assert Values(Concatenating(first, true, second')) == Values(second');
    } else if step.Emit? {
      Regroup(step.chunk, Values(first'), Values(second));
    } else {
      var second' := Next(second).1;
      assert Values(Concatenating(first, false, second)) == Values(second);
      assert Values(Concatenating(first', true, second')) == Values(second');
    }
  }

  /** One pull takes its chunk off the front of the values to come, and the end comes exactly when
      there is none left to come: an empty chunk is not the end. */
  lemma {:induction false} PullTakesFromValues(p: Pull)
    ensures Takes(p, Next(p).0, Next(p).1)
    decreases p
  {
    match p
    case Chunks(_, _) =>
    case Once(_, _) =>
    case Taking(budget, of) => PullTakesFromValues(of); TakingTakes(budget, of);
    case Dropping(budget, of) => PullTakesFromValues(of); DroppingTakes(budget, of);
    case TakingWhile(keep, ended, of) => PullTakesFromValues(of); TakingWhileTakes(keep, ended, of);
    case Filtering(keep, of) => PullTakesFromValues(of); RewritingTakes(keep, x => [], of);
    case Expanding(transform, of) => PullTakesFromValues(of); RewritingTakes(x => true, transform, of);
    case Concatenating(first, drained, second) =>
      PullTakesFromValues(first);
      PullTakesFromValues(second);
      ConcatenatingTakes(first, drained, second);
  }

  // Running -------------------------------------------------------------------------------

  /** Pulls until the end, folding over every value; with the state the run leaves. */
  function Fold<S>(p: Pull, state: S, combine: (S, Item) -> S): (S, Pull)
    decreases Steps(p)
  {
    var (step, p') := Next(p);
    PullTakesFromValues(p);
    if step.End? then (state, p') else Fold(p', Folded(step.chunk, state, combine), combine)
  }

  /** Folding a stream is folding the plain sequence it stands for, however its sources chunk their
      values and whichever chunks come out empty. */
  lemma {:induction false} FoldsItsValues<S>(p: Pull, state: S, combine: (S, Item) -> S)
    ensures Fold(p, state, combine).0 == Folded(Values(p), state, combine)
    decreases Steps(p)
  {
    PullTakesFromValues(p);
    var (step, p') := Next(p);
    if step.Emit? {
      FoldsItsValues(p', Folded(step.chunk, state, combine), combine);
      FoldedAppend(step.chunk, Values(p'), state, combine);
    }
  }

  function Append(values: seq<Item>, value: Item): seq<Item> {
    values + [value]
  }

  function Collect(p: Pull): seq<Item> {
    Fold(p, [], Append).0
  }

  lemma {:induction false} AppendingAll(values: seq<Item>, state: seq<Item>)
    ensures Folded(values, state, Append) == state + values
    decreases |values|
  {
    if values == [] {
      assert state + [] == state;
    } else {
      AppendingAll(values[1..], state + [values[0]]);
      assert state + [values[0]] + values[1..] == state + values;
    }
  }

  lemma {:induction false} CollectsItsValues(p: Pull)
    ensures Collect(p) == Values(p)
  {
    FoldsItsValues(p, [], Append);
    AppendingAll(Values(p), []);
    assert [] + Values(p) == Values(p);
  }

  /** Each stage, over any stream of any chunking, is the plain operation. */
  lemma {:induction false} StagesArePlainOperations(p: Pull, q: Pull, count: int, keep: Item -> bool)
    ensures Collect(Taking(count, p)) == TakeFirst(Collect(p), count)
    ensures Collect(Dropping(count, p)) == DropFirst(Collect(p), count)
    ensures Collect(TakingWhile(keep, false, p)) == Accepted(Collect(p), keep)
    ensures Collect(Filtering(keep, p)) == Filtered(Collect(p), keep)
    ensures Collect(Concatenating(p, false, q)) == Collect(p) + Collect(q)
  {
    CollectsItsValues(p);
    CollectsItsValues(q);
    CollectsItsValues(Taking(count, p));
    CollectsItsValues(Dropping(count, p));
    CollectsItsValues(TakingWhile(keep, false, p));
    CollectsItsValues(Filtering(keep, p));
    CollectsItsValues(Concatenating(p, false, q));
  }

  // Pull counts ---------------------------------------------------------------------------

  /** How many pulls bring `count` values, or the end. */
  function Needed(chunks: seq<seq<Item>>, count: int): nat {
    if count < 1 then 0 else if chunks == [] then 1 else 1 + Needed(chunks[1..], count - |chunks[0]|)
  }

  /** Taking `count` values pulls its source until they have arrived, and not once more. */
  lemma {:induction false} TakePullsNoMore<S>(chunks: seq<seq<Item>>, pulled: nat, count: int, state: S, combine: (S, Item) -> S)
    ensures var end := Fold(Taking(count, Chunks(chunks, pulled)), state, combine).1;
            end.Taking? && end.of.Chunks? && end.of.pulled == pulled + Needed(chunks, count)
    decreases |chunks|
  {
    var p := Taking(count, Chunks(chunks, pulled));
    if count < 1 {
      assert Next(p) == (End, p);
    } else if chunks == [] {
      assert Next(p.of) == (End, Chunks([], pulled + 1));
      assert Next(p) == (End, Taking(count, Chunks([], pulled + 1)));
    } else {
      var head := TakeFirst(chunks[0], count);
      assert Next(p.of) == (Emit(chunks[0]), Chunks(chunks[1..], pulled + 1));
      assert Next(p) == (Emit(head), Taking(count - |head|, Chunks(chunks[1..], pulled + 1)));
      TakePullsNoMore(chunks[1..], pulled + 1, count - |head|, Folded(head, state, combine), combine);
      NeededOnceMet(chunks[1..], count, |chunks[0]|);
    }
  }

  lemma {:induction false} NeededOnceMet(chunks: seq<seq<Item>>, count: int, size: nat)
    requires count >= 1
    ensures Needed(chunks, count - (if count >= size then size else count)) == Needed(chunks, count - size)
  {
  }

  /** The needed pulls are the fewest: their chunks hold the values, and one fewer would not. */
  lemma {:induction false} NeededIsLeast(chunks: seq<seq<Item>>, count: int)
    requires count >= 1
    ensures var k := Needed(chunks, count);
            && 1 <= k <= |chunks| + 1
            && |Flat(chunks[..k - 1])| < count
            && (k <= |chunks| <==> |Flat(chunks)| >= count)
            && (k <= |chunks| ==> |Flat(chunks[..k])| >= count)
  {
    if chunks != [] {
      var rest := chunks[1..];
      if count - |chunks[0]| >= 1 {
        NeededIsLeast(rest, count - |chunks[0]|);
        var k := Needed(chunks, count);
        assert chunks[..k - 1] == [chunks[0]] + rest[..k - 2];
        if k <= |chunks| {
          assert chunks[..k] == [chunks[0]] + rest[..k - 1];
        }
      } else {
        assert chunks[..1] == [chunks[0]] && Flat([]) == [];
        assert [chunks[0]][1..] == [];
      }
    }
  }

  lemma {:induction false} FlatAppend(a: seq<seq<Item>>, b: seq<seq<Item>>)
    ensures Flat(a + b) == Flat(a) + Flat(b)
  {
    if a == [] {
      assert a + b == b;
    } else {
      assert (a + b)[1..] == a[1..] + b;
      FlatAppend(a[1..], b);
      Regroup(a[0], Flat(a[1..]), Flat(b));
    }
  }

  lemma {:induction false} NeededIgnoresTheRest(chunks: seq<seq<Item>>, more: seq<seq<Item>>, count: int)
    requires |Flat(chunks)| >= count
    ensures Needed(chunks + more, count) == Needed(chunks, count) <= |chunks|
  {
    if count >= 1 {
      assert chunks != [];
      assert (chunks + more)[1..] == chunks[1..] + more;
      NeededIgnoresTheRest(chunks[1..], more, count - |chunks[0]|);
    }
  }

  /** However much a source has beyond the chunks that hold `count` values, taking them gives the
      same result after the same pulls: taking from a source that never ends comes to an end. */
  lemma {:induction false} TakeIgnoresTheRest<S>(chunks: seq<seq<Item>>, more: seq<seq<Item>>, count: int, state: S, combine: (S, Item) -> S)
    requires |Flat(chunks)| >= count
    ensures var (result, end) := Fold(Taking(count, Chunks(chunks + more, 0)), state, combine);
            && result == Folded(TakeFirst(Flat(chunks), count), state, combine)
            && end.Taking? && end.of.Chunks? && end.of.pulled == Needed(chunks, count) <= |chunks|
  {
    FoldsItsValues(Taking(count, Chunks(chunks + more, 0)), state, combine);
    FlatAppend(chunks, more);
    assert TakeFirst(Flat(chunks) + Flat(more), count) == TakeFirst(Flat(chunks), count);
    TakePullsNoMore(chunks + more, 0, count, state, combine);
    NeededIgnoresTheRest(chunks, more, count);
  }

  /** Pulling `n` times, ends included. */
  function Pulled(p: Pull, n: nat): Pull {
    if n == 0 then p else Next(Pulled(p, n - 1)).1
  }

  function Least(a: int, b: int): int {
    if a < b then a else b
  }

  lemma {:induction false} PulledFirst(p: Pull, n: nat)
    requires n > 0
    ensures Pulled(p, n) == Pulled(Next(p).1, n - 1)
  {
    if n > 1 {
      PulledFirst(p, n - 1);
    }
  }

  /** How many chunks it takes to see a rejected value, or the end. */
  function NeededWhile(chunks: seq<seq<Item>>, keep: Item -> bool): nat {
    if chunks == [] then 1
    else if |Accepted(chunks[0], keep)| < |chunks[0]| then 1
    else 1 + NeededWhile(chunks[1..], keep)
  }

  /** Pulled any number of times, a take stage reaches its source until its values have arrived and
      never again -- unless the source ends first: the stage then asks it on every later pull. */
  lemma {:induction false} TakeReaches(chunks: seq<seq<Item>>, pulled: nat, count: int, n: nat)
    ensures var end := Pulled(Taking(count, Chunks(chunks, pulled)), n);
            && end.Taking? && end.of.Chunks?
            && end.of.pulled == pulled + (if |Flat(chunks)| >= count then Least(n, Needed(chunks, count)) else n)
    decreases n
  {
    var p := Taking(count, Chunks(chunks, pulled));
    if n > 0 {
      PulledFirst(p, n);
      if count < 1 {
        TakeReaches(chunks, pulled, count, n - 1);
      } else if chunks == [] {
        assert Next(p).1 == Taking(count, Chunks([], pulled + 1));
        TakeReaches([], pulled + 1, count, n - 1);
      } else {
        var head := TakeFirst(chunks[0], count);
        assert Next(p).1 == Taking(count - |head|, Chunks(chunks[1..], pulled + 1));
        TakeReaches(chunks[1..], pulled + 1, count - |head|, n - 1);
        NeededOnceMet(chunks[1..], count, |chunks[0]|);
      }
    }
  }

  /** The same of a stage that takes while values are accepted: up to the chunk with the first
      rejected value, or for ever if there is none. */
  lemma {:induction false} TakeWhileReaches(chunks: seq<seq<Item>>, pulled: nat, keep: Item -> bool, n: nat)
    ensures var end := Pulled(TakingWhile(keep, false, Chunks(chunks, pulled)), n);
            && end.TakingWhile? && end.of.Chunks?
            && end.of.pulled == pulled + (if |Accepted(Flat(chunks), keep)| < |Flat(chunks)| then Least(n, NeededWhile(chunks, keep)) else n)
    decreases n
  {
    var p := TakingWhile(keep, false, Chunks(chunks, pulled));
    if n > 0 {
      PulledFirst(p, n);
      if chunks == [] {
        assert Next(p).1 == TakingWhile(keep, false, Chunks([], pulled + 1));
        TakeWhileReaches([], pulled + 1, keep, n - 1);
      } else {
        var prefix := Accepted(chunks[0], keep);
        PrefixAcross(chunks[0], Flat(chunks[1..]), keep);
        AcceptedFacts(chunks[0], keep);
        assert Next(p).1 == TakingWhile(keep, |prefix| < |chunks[0]|, Chunks(chunks[1..], pulled + 1));
        if |prefix| < |chunks[0]| {
          EndedStays(keep, Chunks(chunks[1..], pulled + 1), n - 1);
        } else {
          TakeWhileReaches(chunks[1..], pulled + 1, keep, n - 1);
        }
      }
    }
  }

  lemma {:induction false} EndedStays(keep: Item -> bool, of: Pull, n: nat)
    ensures Pulled(TakingWhile(keep, true, of), n) == TakingWhile(keep, true, of)
  {
    if n > 0 {
      EndedStays(keep, of, n - 1);
    }
  }

  lemma {:induction false} SpentStays(budget: int, of: Pull, n: nat)
    requires budget < 1
    ensures Pulled(Taking(budget, of), n) == Taking(budget, of)
  {
    if n > 0 {
      SpentStays(budget, of, n - 1);
    }
  }

  lemma {:induction false} PulledKeepsStage(budget: int, keep: Item -> bool, of: Pull, n: nat)
    ensures Pulled(Taking(budget, of), n).Taking?
    ensures Pulled(TakingWhile(keep, false, of), n).TakingWhile? && Pulled(TakingWhile(keep, false, of), n).keep == keep
  {
    if n > 0 {
      PulledKeepsStage(budget, keep, of, n - 1);
    }
  }

  /** Over any source and after any number of pulls: a stage that answers the end has had its values
      or seen one rejected, and then no number of further pulls touches the source; or the source
      itself has just answered the end. */
  lemma {:induction false} EndedStagesDoNotPull(of: Pull, count: int, keep: Item -> bool, n: nat, more: nat)
    ensures var p := Pulled(Taking(count, of), n);
            && p.Taking? && (p.budget < 1 ==> Next(p).0.End? && Pulled(p, more) == p)
            && (Next(p).0.End? && p.budget >= 1 ==> Next(p.of).0.End? && Next(p).1 == Taking(p.budget, Next(p.of).1))
    ensures var p := Pulled(TakingWhile(keep, false, of), n);
            && p.TakingWhile? && (p.ended ==> Next(p).0.End? && Pulled(p, more) == p)
            && (Next(p).0.End? && !p.ended ==> Next(p.of).0.End? && Next(p).1 == TakingWhile(keep, false, Next(p.of).1))
  {
    PulledKeepsStage(count, keep, of, n);
    var p, q := Pulled(Taking(count, of), n), Pulled(TakingWhile(keep, false, of), n);
    if p.budget < 1 {
      SpentStays(p.budget, p.of, more);
    }
    if q.ended {
      EndedStays(keep, q.of, more);
    }
  }

  // The stages' own state -----------------------------------------------------------------

  /** What TakeStream keeps between pulls. */
  class TakeStage {
    var budget: int

    constructor (count: int)
      ensures budget == count
    {
      budget := count;
    }

    method HasEnded() returns (ended: bool)
      ensures ended == (budget < 1)
    {
      ended := budget < 1;
    }

    method Rewrite(step: Step) returns (rewritten: Step)
      modifies this
      ensures (rewritten, budget) == Taken(step, old(budget))
    {
      if step.End? || budget < 1 {
        return End;
      }
      var head := TakeFirst(step.chunk, budget);
      budget := budget - |head|;
      return Emit(head);
    }
  }

  class DropStage {
    var budget: int

    constructor (count: int)
      ensures budget == count
    {
      budget := count;
    }

    method Rewrite(step: Step) returns (rewritten: Step)
      modifies this
      ensures (rewritten, budget) == Dropped(step, old(budget))
    {
      if step.End? || budget < 1 {
        return step;
      }
      var rest := DropFirst(step.chunk, budget);
      budget := budget - (|step.chunk| - |rest|);
      return Emit(rest);
    }
  }

  class TakeWhileStage {
    const keep: Item -> bool
    var ended: bool

    constructor (accepts: Item -> bool)
      ensures !ended && keep == accepts
    {
      keep, ended := accepts, false;
    }

    method HasEnded() returns (yes: bool)
      ensures yes == ended
    {
      yes := ended;
    }

    method Rewrite(step: Step) returns (rewritten: Step)
      modifies this
      ensures (rewritten, ended) == TakenWhile(step, keep, old(ended))
    {
      if step.End? || ended {
        return End;
      }
      var prefix, rejected := TakeWhile(step.chunk, keep);
      ended := rejected;
      return Emit(prefix);
    }
  }

  /** What StreamFromChunks keeps between pulls. */
  class ChunkSource {
    var rest: seq<seq<Item>>
    ghost var pulled: nat

    constructor (chunks: seq<seq<Item>>)
      ensures rest == chunks && pulled == 0
    {
      rest, pulled := chunks, 0;
    }

    method Pull() returns (step: Step)
      modifies this
      ensures (step, Chunks(rest, pulled)) == Next(Chunks(old(rest), old(pulled)))
    {
      pulled := pulled + 1;
      if |rest| == 0 {
        return End;
      }
      var head := rest[0];
      rest := rest[1..];
      return Emit(head);
    }
  }

  /** One pull of a take stage over a source: a stage that has ended does not pull it. */
  method PullTaking(stage: TakeStage, source: ChunkSource) returns (step: Step)
    modifies stage, source
    ensures (step, Taking(stage.budget, Chunks(source.rest, source.pulled)))
         == Next(Taking(old(stage.budget), Chunks(old(source.rest), old(source.pulled))))
  {
    var ended := stage.HasEnded();
    if ended {
      return End;
    }
    var next := source.Pull();
    step := stage.Rewrite(next);
  }

  method PullTakingWhile(stage: TakeWhileStage, source: ChunkSource) returns (step: Step)
    modifies stage, source
    ensures (step, TakingWhile(stage.keep, stage.ended, Chunks(source.rest, source.pulled)))
         == Next(TakingWhile(stage.keep, old(stage.ended), Chunks(old(source.rest), old(source.pulled))))
  {
    var ended := stage.HasEnded();
    if ended {
      return End;
    }
    var next := source.Pull();
    step := stage.Rewrite(next);
  }
}
