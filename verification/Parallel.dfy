/** Two branches run beside each other (effect/internal/runtime/parallel.go, effect/concurrency.go):
    a runner that collects their exits in whatever order they end, and discards one by cancelling
    it and waiting. */
module Pairs {
  import opened Outcome
  import Scopes

  datatype Branch = Running | Terminal(exit: Exit)

  /** What the runner is doing: selecting on both completion channels, or waiting for a branch it
      has cancelled. */
  datatype Doing = Selecting | AwaitingLeft | AwaitingRight

  /** `leftOpen` and `rightOpen`: the branch's completion channel is still selected on. */
  datatype Runner = Runner(left: Branch, right: Branch, leftOpen: bool, rightOpen: bool, outcome: PairOutcome, doing: Doing)

  const NEW_RUNNER := Runner(Running, Running, true, true, PairOutcome(Scopes.NO_EXIT, Scopes.NO_EXIT, NeitherSide), Selecting)

  datatype Action = LeftEnds(exit: Exit) | RightEnds(exit: Exit) | PickLeft | PickRight | Discarded

  function FirstOr(side: Side, other: Side): Side {
    if side == NeitherSide then other else side
  }

  function LeftPicked(r: Runner, settle: Exit -> bool): Runner
    requires r.left.Terminal?
  {
    var exit := r.left.exit;
    var collected := r.(leftOpen := false, outcome := r.outcome.(left := exit, first := FirstOr(r.outcome.first, LeftSide)));
    if settle(exit) && r.rightOpen then collected.(rightOpen := false, doing := AwaitingRight) else collected
  }

  function RightPicked(r: Runner, settle: Exit -> bool): Runner
    requires r.right.Terminal?
  {
    var exit := r.right.exit;
    var collected := r.(rightOpen := false, outcome := r.outcome.(right := exit, first := FirstOr(r.outcome.first, RightSide)));
    if settle(exit) && r.leftOpen then collected.(leftOpen := false, doing := AwaitingLeft) else collected
  }

  function Step(r: Runner, action: Action, settle: Exit -> bool): Runner {
    match action
    case LeftEnds(exit) => if r.left.Running? then r.(left := Terminal(exit)) else r
    case RightEnds(exit) => if r.right.Running? then r.(right := Terminal(exit)) else r
    case PickLeft => if r.doing.Selecting? && r.leftOpen && r.left.Terminal? then LeftPicked(r, settle) else r
    case PickRight => if r.doing.Selecting? && r.rightOpen && r.right.Terminal? then RightPicked(r, settle) else r
    case Discarded =>
      if r.doing.AwaitingLeft? && r.left.Terminal? then r.(doing := Selecting, outcome := r.outcome.(left := r.left.exit))
      else if r.doing.AwaitingRight? && r.right.Terminal? then r.(doing := Selecting, outcome := r.outcome.(right := r.right.exit))
      else r
  }

  function Run(r: Runner, actions: seq<Action>, settle: Exit -> bool): Runner
    decreases |actions|
  {
    if actions == [] then r else Step(Run(r, actions[..|actions| - 1], settle), actions[|actions| - 1], settle)
  }

  /** The runner's loop has ended. */
  predicate Done(r: Runner) {
    r.doing.Selecting? && !r.leftOpen && !r.rightOpen
  }

  predicate Faithful(r: Runner) {
    && (r.doing.AwaitingLeft? ==> !r.leftOpen && !r.rightOpen)
    && (r.doing.AwaitingRight? ==> !r.leftOpen && !r.rightOpen)
    && (!r.leftOpen && !r.doing.AwaitingLeft? ==> r.left.Terminal? && r.outcome.left == r.left.exit)
    && (!r.rightOpen && !r.doing.AwaitingRight? ==> r.right.Terminal? && r.outcome.right == r.right.exit)
    && (r.outcome.first == NeitherSide <==> r.leftOpen && r.rightOpen)
  }

  lemma {:induction false} EveryRunIsGood(actions: seq<Action>, settle: Exit -> bool)
    ensures Faithful(Run(NEW_RUNNER, actions, settle))
    decreases |actions|
  {
    if actions != [] {
      EveryRunIsGood(actions[..|actions| - 1], settle);
    }
  }

  /** Whatever the order of endings, of selections and of cancellations, the runner returns only
      with both branches terminal, and with exactly their exits. */
  lemma {:induction false} ReturnsBothExits(actions: seq<Action>, settle: Exit -> bool)
    requires Done(Run(NEW_RUNNER, actions, settle))
    ensures var r := Run(NEW_RUNNER, actions, settle);
            && r.left.Terminal? && r.right.Terminal?
            && r.outcome == PairOutcome(r.left.exit, r.right.exit, r.outcome.first) && r.outcome.first != NeitherSide
  {
    EveryRunIsGood(actions, settle);
  }

  function Left(r: Runner): nat {
    (if r.leftOpen then 2 else 0) + (if r.rightOpen then 2 else 0) + (if r.doing.Selecting? then 0 else 1)
      + (if r.left.Running? then 1 else 0) + (if r.right.Running? then 1 else 0)
  }

  /** Once both branches have ended some step of the runner is always possible, and every step that
      changes anything leaves less to do: it cannot wait for ever. */
  lemma {:induction false} AlwaysGoesOn(r: Runner, settle: Exit -> bool)
    requires Faithful(r) && !Done(r) && r.left.Terminal? && r.right.Terminal?
    ensures Left(Step(r, PickLeft, settle)) < Left(r) || Left(Step(r, PickRight, settle)) < Left(r) || Left(Step(r, Discarded, settle)) < Left(r)
  {
  }

  lemma {:induction false} NothingUndone(r: Runner, action: Action, settle: Exit -> bool)
    requires Faithful(r)
    ensures Step(r, action, settle) == r || Left(Step(r, action, settle)) < Left(r)
  {
  }

  // Resolvers -----------------------------------------------------------------------------

  /** Both results, or the combined cause. */
  ghost function BothResults(pair: PairOutcome, product: (Value, Value) -> Value, request: Request): Exit {
    if pair.left.Success? && pair.right.Success? then Success(product(pair.left.value, pair.right.value))
    else Failure(Combined(pair, request))
  }

  /** The successful branch, and the earlier one of two. */
  ghost function FirstSuccess(pair: PairOutcome, request: Request): Exit {
    if pair.left.Success? && pair.right.Success? then if pair.first == RightSide then pair.right else pair.left
    else if pair.left.Success? then pair.left
    else if pair.right.Success? then pair.right
    else Failure(Combined(pair, request))
  }

  ghost function FirstCompletion(pair: PairOutcome, request: Request): Exit {
    if pair.first == RightSide then pair.right
    else if pair.first == LeftSide then pair.left
    else Failure(Combined(pair, request))
  }

  /** Race answers exactly when some branch did, with an answer a branch gave; ZipPar exactly when
      both did; RaceFirst ends as the branch collected first ended. Whatever was cancelled has its
      own final exit counted. */
  lemma {:induction false} RacesAndPairs(actions: seq<Action>, settle: Exit -> bool, product: (Value, Value) -> Value, request: Request)
    requires Done(Run(NEW_RUNNER, actions, settle))
    ensures var r := Run(NEW_RUNNER, actions, settle);
            && r.left.Terminal? && r.right.Terminal?
            && (BothResults(r.outcome, product, request).Success? <==> r.left.exit.Success? && r.right.exit.Success?)
            && (FirstSuccess(r.outcome, request).Success? <==> r.left.exit.Success? || r.right.exit.Success?)
            && (FirstSuccess(r.outcome, request).Success? ==> FirstSuccess(r.outcome, request) in {r.left.exit, r.right.exit})
            && FirstCompletion(r.outcome, request) == (if r.outcome.first == RightSide then r.right.exit else r.left.exit)
  {
    ReturnsBothExits(actions, settle);
  }

  // The loop ------------------------------------------------------------------------------

  lemma {:induction false} RunOn(r: Runner, actions: seq<Action>, action: Action, settle: Exit -> bool)
    ensures Run(r, actions + [action], settle) == Step(Run(r, actions, settle), action, settle)
  {
    assert (actions + [action])[..|actions|] == actions;
  }

  /** The runner's fields, and its two branches, which end when they end and with the exits they
      end with. */
  class PairRunner {
    var left: Branch
    var right: Branch
    var leftOpen: bool
    var rightOpen: bool
    var outcome: PairOutcome

    constructor ()
      ensures View() == NEW_RUNNER
    {
      left, right, leftOpen, rightOpen := Running, Running, true, true;
      outcome := PairOutcome(Scopes.NO_EXIT, Scopes.NO_EXIT, NeitherSide);
    }

    ghost function View(): Runner
      reads this
    {
      Runner(left, right, leftOpen, rightOpen, outcome, Selecting)
    }

    /** The loop is a run of the runner's steps, whichever branches end while it blocks and whichever
        ready channel a select takes, and it ends with both channels collected. */
    method Wait(settle: Exit -> bool) returns (ghost run: seq<Action>)
      requires View() == NEW_RUNNER
      modifies this
      ensures View() == Run(NEW_RUNNER, run, settle) && Done(View())
      ensures left.Terminal? && right.Terminal? && outcome == PairOutcome(left.exit, right.exit, outcome.first)
    {
      run := [];
      while leftOpen || rightOpen
        invariant View() == Run(NEW_RUNNER, run, settle)
        decreases (if leftOpen then 1 else 0) + (if rightOpen then 1 else 0)
      {
        run := Block(run, settle);
        if
        case leftOpen && left.Terminal? =>
          run := TakeLeft(run, settle);
        case rightOpen && right.Terminal? =>
          run := TakeRight(run, settle);
      }
      ReturnsBothExits(run, settle);
    }

    /** Blocks until a channel that is selected on is ready. Either branch may end meanwhile. */
    method Block(ghost before: seq<Action>, ghost settle: Exit -> bool) returns (ghost run: seq<Action>)
      requires (leftOpen || rightOpen) && View() == Run(NEW_RUNNER, before, settle)
      modifies this`left, this`right
      ensures View() == Run(NEW_RUNNER, run, settle)
      ensures (leftOpen && left.Terminal?) || (rightOpen && right.Terminal?)
    {
      run := before;
      var leftFirst: bool := *;
      if leftOpen && (leftFirst || !rightOpen) {
        run := LeftEnding(run, settle);
      } else {
        run := RightEnding(run, settle);
      }
      var both: bool := *;
      if both {
        run := LeftEnding(run, settle);
        run := RightEnding(run, settle);
      }
    }

    /** Until the left branch has ended, with whatever exit. */
    method LeftEnding(ghost before: seq<Action>, ghost settle: Exit -> bool) returns (ghost run: seq<Action>)
      requires View() == Run(NEW_RUNNER, before, settle)
      modifies this`left
      ensures View() == Run(NEW_RUNNER, run, settle) && left.Terminal?
    {
      run := before;
      if left.Running? {
        var exit: Exit := *;
        left := Terminal(exit);
        run := run + [LeftEnds(exit)];
        RunOn(NEW_RUNNER, before, LeftEnds(exit), settle);
      }
    }

    method RightEnding(ghost before: seq<Action>, ghost settle: Exit -> bool) returns (ghost run: seq<Action>)
      requires View() == Run(NEW_RUNNER, before, settle)
      modifies this`right
      ensures View() == Run(NEW_RUNNER, run, settle) && right.Terminal?
    {
      run := before;
      if right.Running? {
        var exit: Exit := *;
        right := Terminal(exit);
        run := run + [RightEnds(exit)];
        RunOn(NEW_RUNNER, before, RightEnds(exit), settle);
      }
    }

    /** A ready left channel: collect it, and discard the right branch if that settles it. */
    method TakeLeft(ghost before: seq<Action>, settle: Exit -> bool) returns (ghost run: seq<Action>)
      requires leftOpen && left.Terminal? && View() == Run(NEW_RUNNER, before, settle)
      modifies this
      ensures View() == Run(NEW_RUNNER, run, settle) && !leftOpen && (rightOpen ==> old(rightOpen))
    {
      run := before + [PickLeft];
      RunOn(NEW_RUNNER, before, PickLeft, settle);
      CollectLeft();
      if settle(outcome.left) {
        run := DiscardRight(run, settle);
      }
    }

    method TakeRight(ghost before: seq<Action>, settle: Exit -> bool) returns (ghost run: seq<Action>)
      requires rightOpen && right.Terminal? && View() == Run(NEW_RUNNER, before, settle)
      modifies this
      ensures View() == Run(NEW_RUNNER, run, settle) && !rightOpen && (leftOpen ==> old(leftOpen))
    {
      run := before + [PickRight];
      RunOn(NEW_RUNNER, before, PickRight, settle);
      CollectRight();
      if settle(outcome.right) {
        run := DiscardLeft(run, settle);
      }
    }

    method CollectLeft()
      requires left.Terminal?
      modifies this`leftOpen, this`outcome
      ensures !leftOpen && outcome == old(outcome).(left := left.exit, first := FirstOr(old(outcome).first, LeftSide))
    {
      leftOpen := false;
      outcome := outcome.(left := left.exit);
      RecordFirst(LeftSide);
    }

    method CollectRight()
      requires right.Terminal?
      modifies this`rightOpen, this`outcome
      ensures !rightOpen && outcome == old(outcome).(right := right.exit, first := FirstOr(old(outcome).first, RightSide))
    {
      rightOpen := false;
      outcome := outcome.(right := right.exit);
      RecordFirst(RightSide);
    }

    method RecordFirst(side: Side)
      modifies this`outcome
      ensures outcome == old(outcome).(first := FirstOr(old(outcome).first, side))
    {
      if outcome.first == NeitherSide {
        outcome := outcome.(first := side);
      }
    }

    /** Cancels the branch no longer needed and waits for it, if it has not been collected. */
    method DiscardRight(ghost before: seq<Action>, ghost settle: Exit -> bool) returns (ghost run: seq<Action>)
      requires Run(NEW_RUNNER, before, settle)
            == if rightOpen then View().(rightOpen := false, doing := AwaitingRight) else View()
      modifies this`right, this`rightOpen, this`outcome
      ensures View() == Run(NEW_RUNNER, run, settle) && !rightOpen
    {
      run := before;
      if !rightOpen {
        return;
      }
      rightOpen := false;
      if right.Running? {
        var exit: Exit := *;
        right := Terminal(exit);
        run := run + [RightEnds(exit)];
        RunOn(NEW_RUNNER, before, RightEnds(exit), settle);
      }
      outcome := outcome.(right := right.exit);
      RunOn(NEW_RUNNER, run, Discarded, settle);
      run := run + [Discarded];
    }

    method DiscardLeft(ghost before: seq<Action>, ghost settle: Exit -> bool) returns (ghost run: seq<Action>)
      requires Run(NEW_RUNNER, before, settle)
            == if leftOpen then View().(leftOpen := false, doing := AwaitingLeft) else View()
      modifies this`left, this`leftOpen, this`outcome
      ensures View() == Run(NEW_RUNNER, run, settle) && !leftOpen
    {
      run := before;
      if !leftOpen {
        return;
      }
      leftOpen := false;
      if left.Running? {
        var exit: Exit := *;
        left := Terminal(exit);
        run := run + [LeftEnds(exit)];
        RunOn(NEW_RUNNER, before, LeftEnds(exit), settle);
      }
      outcome := outcome.(left := left.exit);
      RunOn(NEW_RUNNER, run, Discarded, settle);
      run := run + [Discarded];
    }
  }
}

/** Any number of branches at once (effect/internal/runtime/parallel_all.go). */
module Groups {
  import opened Outcome
  import opened Wrappers
  import opened Scopes

  /** Queued for a permit; holding one, or needing none, while its body runs; about to report its
      body's exit, the permit returned; its own scope closing; over. */
  datatype Branch = Queued | Holding | Reporting(exit: Exit) | Finalizing(exit: Exit) | Terminal(exit: Exit)

  datatype Stage = Watching | Collecting | Returned

  /** `permits` is the semaphore's capacity, if there is one, and `held` how many are out. */
  datatype Group = Group(
    branches: seq<Branch>,
    permits: Option<nat>,
    held: nat,
    reports: seq<(nat, Exit)>,
    received: nat,
    abandoned: bool,
    cancelled: bool,
    collected: seq<Exit>,
    stage: Stage)

  datatype Action =
    | Acquire(i: nat)
    | GiveUp(i: nat, reason: Reason)
    | BodyEnds(i: nat, exit: Exit)
    | Report(i: nat)
    | ScopeCloses(i: nat, exit: Exit)
    | Receive
    | Collect
    | CallerCancels

  function PermitsFor(limit: int, total: nat): Option<nat> {
    if limit <= 0 || limit >= total then None else Some(limit)
  }

  function NewGroup(total: nat, limit: int): Group {
    Group(seq(total, i => Queued), PermitsFor(limit, total), 0, [], 0, false, false, [],
          if total == 0 then Returned else Watching)
  }

  function At(g: Group, i: nat): Branch {
    if i < |g.branches| then g.branches[i] else Terminal(NO_EXIT)
  }

  function With(g: Group, i: nat, branch: Branch): Group
    requires i < |g.branches|
  {
    g.(branches := g.branches[i := branch])
  }

  function Received(g: Group): Group
    requires g.reports != []
  {
    var fails := !g.reports[0].1.Success? && !g.abandoned;
    g.(reports := g.reports[1..], received := g.received + 1, abandoned := g.abandoned || fails, cancelled := g.cancelled || fails,
       stage := if g.received + 1 == |g.branches| then Collecting else Watching)
  }

  function Collected(g: Group, exit: Exit): Group {
    g.(collected := g.collected + [exit], stage := if |g.collected| + 1 == |g.branches| then Returned else Collecting)
  }

  function Step(g: Group, action: Action): Group {
    match action
    case Acquire(i) =>
      if !At(g, i).Queued? then g
      else if g.permits.None? then With(g, i, Holding)
      else if g.held < g.permits.value then With(g, i, Holding).(held := g.held + 1)
      else g
    case GiveUp(i, reason) =>
      if At(g, i).Queued? && g.permits.Some? && g.cancelled then With(g, i, Reporting(Failure(Interrupted(reason, UNKNOWN)))) else g
    case BodyEnds(i, exit) =>
      if !At(g, i).Holding? then g
      else With(g, i, Reporting(exit)).(held := if g.permits.Some? && g.held > 0 then g.held - 1 else g.held)
    case Report(i) =>
      if At(g, i).Reporting? && |g.reports| < |g.branches|
      then With(g, i, Finalizing(At(g, i).exit)).(reports := g.reports + [(i, At(g, i).exit)])
      else g
    case ScopeCloses(i, exit) => if At(g, i).Finalizing? then With(g, i, Terminal(exit)) else g
    case Receive => if g.stage.Watching? && g.reports != [] then Received(g) else g
    case Collect =>
      if g.stage.Collecting? && At(g, |g.collected|).Terminal? then Collected(g, At(g, |g.collected|).exit) else g
    case CallerCancels => g.(cancelled := true)
  }

  function Run(g: Group, actions: seq<Action>): Group
    decreases |actions|
  {
    if actions == [] then g else Step(Run(g, actions[..|actions| - 1]), actions[|actions| - 1])
  }

  // Counting ------------------------------------------------------------------------------

  function Count(branches: seq<Branch>, counts: Branch -> bool): (n: nat)
    ensures n <= |branches|
  {
    if branches == [] then 0 else (if counts(branches[0]) then 1 else 0) + Count(branches[1..], counts)
  }

  lemma {:induction false} CountUpdate(branches: seq<Branch>, i: nat, b: Branch, counts: Branch -> bool)
    requires i < |branches|
    ensures Count(branches[i := b], counts)
         == Count(branches, counts) - (if counts(branches[i]) then 1 else 0) + (if counts(b) then 1 else 0)
  {
    var updated := branches[i := b];
    if i == 0 {
      assert updated[1..] == branches[1..];
    } else {
      assert updated[1..] == branches[1..][i - 1 := b];
      CountUpdate(branches[1..], i - 1, b, counts);
    }
  }

  lemma {:induction false} CountMissing(branches: seq<Branch>, i: nat, counts: Branch -> bool)
    requires i < |branches| && !counts(branches[i])
    ensures Count(branches, counts) < |branches|
  {
    if i > 0 {
      CountMissing(branches[1..], i - 1, counts);
    }
  }

  lemma {:induction false} CountNone(n: nat, counts: Branch -> bool)
    requires !counts(Queued)
    ensures Count(seq(n, i => Queued), counts) == 0
  {
    if n > 0 {
      assert seq(n, i => Queued)[1..] == seq(n - 1, i => Queued);
      CountNone(n - 1, counts);
    }
  }

  const HOLDS: Branch -> bool := (b: Branch) => b.Holding?
  const REPORTED: Branch -> bool := (b: Branch) => b.Finalizing? || b.Terminal?

  ghost predicate Good(g: Group) {
    && (g.permits.Some? ==> g.held == Count(g.branches, HOLDS) && g.held <= g.permits.value && g.permits.value > 0)
    && |g.reports| + g.received == Count(g.branches, REPORTED)
    && (g.stage.Watching? ==> g.received < |g.branches| && g.collected == [])
    && (!g.stage.Watching? ==> g.received == |g.branches|)
    && |g.collected| <= |g.branches|
    && (g.stage.Collecting? ==> |g.collected| < |g.branches|)
    && (g.stage.Returned? ==> |g.collected| == |g.branches|)
    && (forall i :: 0 <= i < |g.collected| ==> g.branches[i] == Terminal(g.collected[i]))
  }

  lemma {:induction false} BranchKeeps(g: Group, i: nat, b: Branch)
    requires i < |g.branches| && !g.branches[i].Terminal?
    requires forall j :: 0 <= j < |g.collected| <= |g.branches| ==> g.branches[j] == Terminal(g.collected[j])
    ensures var g' := With(g, i, b);
            && (forall j :: 0 <= j < |g.collected| <= |g.branches| ==> g'.branches[j] == Terminal(g.collected[j]))
            && Count(g'.branches, HOLDS) == Count(g.branches, HOLDS) - (if g.branches[i].Holding? then 1 else 0) + (if b.Holding? then 1 else 0)
            && Count(g'.branches, REPORTED) == Count(g.branches, REPORTED) - (if REPORTED(g.branches[i]) then 1 else 0) + (if REPORTED(b) then 1 else 0)
  {
    CountUpdate(g.branches, i, b, HOLDS);
    CountUpdate(g.branches, i, b, REPORTED);
  }

  lemma {:induction false} HolderCounts(branches: seq<Branch>, i: nat, counts: Branch -> bool)
    requires i < |branches| && counts(branches[i])
    ensures Count(branches, counts) > 0
  {
    if i > 0 {
      HolderCounts(branches[1..], i - 1, counts);
    }
  }

  lemma {:induction false} PermitKeeps(g: Group, i: nat, b: Branch)
    requires Good(g) && i < |g.branches| && !REPORTED(b)
    requires (g.branches[i].Queued? && (b.Holding? || b.Reporting?)) || (g.branches[i].Holding? && b.Reporting?)
    requires b.Holding? && g.permits.Some? ==> g.held < g.permits.value
    ensures var held := if g.permits.None? then g.held
                        else if b.Holding? then g.held + 1
                        else if g.branches[i].Holding? && g.held > 0 then g.held - 1
                        else g.held;
            Good(With(g, i, b).(held := held))
  {
    BranchKeeps(g, i, b);
    if g.branches[i].Holding? {
      HolderCounts(g.branches, i, HOLDS);
    }
  }

  lemma {:induction false} ReportKeeps(g: Group, i: nat)
    requires Good(g)
    ensures Good(Step(g, Report(i)))
  {
    if At(g, i).Reporting? {
      BranchKeeps(g, i, Finalizing(At(g, i).exit));
    }
  }

  lemma {:induction false} AcquireKeeps(g: Group, i: nat)
    requires Good(g)
    ensures Good(Step(g, Acquire(i)))
  {
    if Step(g, Acquire(i)) != g {
      PermitKeeps(g, i, Holding);
    }
  }

  lemma {:induction false} GiveUpKeeps(g: Group, i: nat, reason: Reason)
    requires Good(g)
    ensures Good(Step(g, GiveUp(i, reason)))
  {
    if Step(g, GiveUp(i, reason)) != g {
      PermitKeeps(g, i, Reporting(Failure(Interrupted(reason, UNKNOWN))));
    }
  }

  lemma {:induction false} BodyEndKeeps(g: Group, i: nat, exit: Exit)
    requires Good(g)
    ensures Good(Step(g, BodyEnds(i, exit)))
  {
    if At(g, i).Holding? {
      PermitKeeps(g, i, Reporting(exit));
    }
  }

  lemma {:induction false} ScopeCloseKeeps(g: Group, i: nat, exit: Exit)
    requires Good(g)
    ensures Good(Step(g, ScopeCloses(i, exit)))
  {
    if At(g, i).Finalizing? {
      BranchKeeps(g, i, Terminal(exit));
    }
  }

  lemma {:induction false} WatcherKeeps(g: Group)
    requires Good(g)
    ensures Good(Step(g, Receive)) && Good(Step(g, Collect)) && Good(Step(g, CallerCancels))
  {
  }

  lemma {:induction false} StepKeepsGood(g: Group, action: Action)
    requires Good(g)
    ensures Good(Step(g, action))
  {
    match action
    case Acquire(i) => AcquireKeeps(g, i);
    case GiveUp(i, reason) => GiveUpKeeps(g, i, reason);
    case BodyEnds(i, exit) => BodyEndKeeps(g, i, exit);
    case Report(i) => ReportKeeps(g, i);
    case ScopeCloses(i, exit) => ScopeCloseKeeps(g, i, exit);
    case Receive => WatcherKeeps(g);
    case Collect => WatcherKeeps(g);
    case CallerCancels => WatcherKeeps(g);
  }

  lemma {:induction false} NewIsGood(total: nat, limit: int)
    ensures Good(NewGroup(total, limit))
  {
    CountNone(total, HOLDS);
    CountNone(total, REPORTED);
  }

  lemma {:induction false} SameGroup(g: Group, action: Action)
    ensures Step(g, action).permits == g.permits && |Step(g, action).branches| == |g.branches|
  {
  }

  lemma {:induction false} EveryRunIsGood(total: nat, limit: int, actions: seq<Action>)
    ensures Good(Run(NewGroup(total, limit), actions)) && |Run(NewGroup(total, limit), actions).branches| == total
    ensures Run(NewGroup(total, limit), actions).permits == PermitsFor(limit, total)
    decreases |actions|
  {
    if actions == [] {
      NewIsGood(total, limit);
    } else {
      var before := actions[..|actions| - 1];
      EveryRunIsGood(total, limit, before);
      StepKeepsGood(Run(NewGroup(total, limit), before), actions[|actions| - 1]);
      SameGroup(Run(NewGroup(total, limit), before), actions[|actions| - 1]);
    }
  }

  /** A positive limit bounds the bodies between taking a permit and returning it. */
  lemma {:induction false} AtMostLimitRun(total: nat, limit: int, actions: seq<Action>)
    requires limit > 0
    ensures Count(Run(NewGroup(total, limit), actions).branches, HOLDS) <= limit
  {
    EveryRunIsGood(total, limit, actions);
  }

  /** Reporting never blocks: there is room for every branch's one report. */
  lemma {:induction false} ReportingNeverBlocks(total: nat, limit: int, actions: seq<Action>, i: nat)
    requires At(Run(NewGroup(total, limit), actions), i).Reporting?
    ensures var g := Run(NewGroup(total, limit), actions);
            |g.reports| < |g.branches| && At(Step(g, Report(i)), i).Finalizing?
  {
    EveryRunIsGood(total, limit, actions);
    CountMissing(Run(NewGroup(total, limit), actions).branches, i, REPORTED);
  }

  /** What is returned is every fiber's own terminal exit, in input order. */
  lemma {:induction false} ReturnsExitsInOrder(total: nat, limit: int, actions: seq<Action>)
    requires Run(NewGroup(total, limit), actions).stage.Returned?
    ensures var g := Run(NewGroup(total, limit), actions);
            |g.collected| == total && |g.branches| == total && forall i :: 0 <= i < total ==> g.branches[i] == Terminal(g.collected[i])
  {
    EveryRunIsGood(total, limit, actions);
  }

  /** Past taking a permit and not over: the body at work, about to report, or its scope closing. */
  const PAST: Branch -> bool := (b: Branch) => b.Holding? || b.Reporting? || b.Finalizing?

  /** Each of the first `count` branches in turn: body, report, and on to closing its scope. */
  function InTurn(count: nat, exit: Exit): seq<Action> {
    if count == 0 then []
    else InTurn(count - 1, exit) + [Acquire(count - 1)] + [BodyEnds(count - 1, exit)] + [Report(count - 1)]
  }

  function ClosingUpTo(total: nat, count: nat, exit: Exit): seq<Branch> {
    seq(total, i => if i < count then Finalizing(exit) else Queued)
  }

  lemma {:induction false} RunLast(g: Group, actions: seq<Action>, action: Action)
    ensures Run(g, actions + [action]) == Step(Run(g, actions), action)
  {
    assert (actions + [action])[..|actions|] == actions;
  }

  lemma {:induction false} RunThree(g: Group, actions: seq<Action>, a: Action, b: Action, c: Action)
    ensures Run(g, actions + [a] + [b] + [c]) == Step(Step(Step(Run(g, actions), a), b), c)
  {
    RunLast(g, actions, a);
    RunLast(g, actions + [a], b);
    RunLast(g, actions + [a] + [b], c);
  }

  /** A branch's turn takes the only permit it needs and returns it before its scope closes. */
  lemma {:induction false} OneTurn(g: Group, i: nat, exit: Exit)
    requires i < |g.branches| && g.branches[i].Queued? && g.held == 0 && |g.reports| < |g.branches|
    requires g.permits.Some? ==> g.permits.value > 0
    ensures Step(Step(Step(g, Acquire(i)), BodyEnds(i, exit)), Report(i))
         == g.(branches := g.branches[i := Finalizing(exit)], reports := g.reports + [(i, exit)])
  {
    var holding := Step(g, Acquire(i));
    assert holding.branches == g.branches[i := Holding];
    var reporting := Step(holding, BodyEnds(i, exit));
    assert reporting.branches == g.branches[i := Reporting(exit)];
    assert reporting == g.(branches := g.branches[i := Reporting(exit)]);
  }

  lemma {:induction false} TurnsTaken(total: nat, limit: int, count: nat, exit: Exit)
    requires limit > 0 && count <= total
    ensures var g := Run(NewGroup(total, limit), InTurn(count, exit));
            && g.branches == ClosingUpTo(total, count, exit) && g.held == 0 && |g.reports| == count
            && g.permits == PermitsFor(limit, total)
  {
    var start := NewGroup(total, limit);
    if count == 0 {
      assert start.branches == ClosingUpTo(total, 0, exit);
    } else {
      var i := count - 1;
      TurnsTaken(total, limit, i, exit);
      var g := Run(start, InTurn(i, exit));
      assert i < |g.branches| && g.branches[i] == Queued;
      RunThree(start, InTurn(i, exit), Acquire(i), BodyEnds(i, exit), Report(i));
      OneTurn(g, i, exit);
      assert ClosingUpTo(total, i, exit)[i := Finalizing(exit)] == ClosingUpTo(total, count, exit);
    }
  }

  /** The permit is returned before the branch's scope closes, so every branch can be closing its
      scope at the same time, whatever the limit. */
  lemma {:induction false} PermitsDoNotBoundFinalizers(total: nat, limit: int, exit: Exit)
    requires limit > 0
    ensures Count(Run(NewGroup(total, limit), InTurn(total, exit)).branches, PAST) == total
  {
    TurnsTaken(total, limit, total, exit);
    AllCounted(ClosingUpTo(total, total, exit), PAST);
  }

  ghost predicate BoundsScopesToo(total: nat, limit: int) {
    forall actions :: Count(Run(NewGroup(total, limit), actions).branches, PAST) <= limit
  }

  /** A limit bounds what is at work or closing exactly when it does not restrict anything: when no
      semaphore is made because every branch fits. */
  lemma {:induction false} PermitsBoundScopesExactly(total: nat, limit: int)
    requires limit > 0
    ensures BoundsScopesToo(total, limit) <==> total <= limit
  {
    if total <= limit {
      forall actions
        ensures Count(Run(NewGroup(total, limit), actions).branches, PAST) <= limit
      {
        EveryRunIsGood(total, limit, actions);
      }
    } else {
      PermitsDoNotBoundFinalizers(total, limit, NO_EXIT);
      assert Count(Run(NewGroup(total, limit), InTurn(total, NO_EXIT)).branches, PAST) > limit;
    }
  }

  // Ending --------------------------------------------------------------------------------

  function BranchLeft(b: Branch): nat {
    match b
    case Queued => 4
    case Holding => 3
    case Reporting(_) => 2
    case Finalizing(_) => 1
    case Terminal(_) => 0
  }

  function BranchesLeft(branches: seq<Branch>): nat {
    if branches == [] then 0 else BranchLeft(branches[0]) + BranchesLeft(branches[1..])
  }

  /** Steps still to come. */
  ghost function Left(g: Group): int {
    BranchesLeft(g.branches) + (|g.branches| - g.received) + (|g.branches| - |g.collected|)
  }

  lemma {:induction false} LeftUpdate(branches: seq<Branch>, i: nat, b: Branch)
    requires i < |branches|
    ensures BranchesLeft(branches[i := b]) == BranchesLeft(branches) - BranchLeft(branches[i]) + BranchLeft(b)
  {
    var updated := branches[i := b];
    if i == 0 {
      assert updated[1..] == branches[1..];
    } else {
      assert updated[1..] == branches[1..][i - 1 := b];
      LeftUpdate(branches[1..], i - 1, b);
    }
  }

  /** Moving a branch on leaves less to do. */
  lemma {:induction false} MovedOn(g: Group, i: nat, b: Branch)
    requires i < |g.branches| && BranchLeft(b) < BranchLeft(g.branches[i])
    ensures Left(With(g, i, b)) < Left(g)
  {
    LeftUpdate(g.branches, i, b);
  }

  lemma {:induction false} NothingUndone(g: Group, action: Action)
    requires Good(g)
    ensures var g' := Step(g, action); g' == g || g' == g.(cancelled := true) || Left(g') < Left(g)
  {
    match action
    case Acquire(i) => if At(g, i).Queued? { MovedOn(g, i, Holding); }
    case GiveUp(i, reason) => if At(g, i).Queued? { MovedOn(g, i, Reporting(Failure(Interrupted(reason, UNKNOWN)))); }
    case BodyEnds(i, exit) => if At(g, i).Holding? { MovedOn(g, i, Reporting(exit)); }
    case Report(i) => if At(g, i).Reporting? { MovedOn(g, i, Finalizing(At(g, i).exit)); }
    case ScopeCloses(i, exit) => if At(g, i).Finalizing? { MovedOn(g, i, Terminal(exit)); }
    case _ =>
  }

  /** Something any group that has not returned can still do, bodies and finalizers ending when
      they are asked to. */
  ghost function Helpful(g: Group): Action
    requires Good(g) && !g.stage.Returned?
  {
    if exists i :: 0 <= i < |g.branches| && g.branches[i].Holding? then
      var i :| 0 <= i < |g.branches| && g.branches[i].Holding?; BodyEnds(i, NO_EXIT)
    else if exists i :: 0 <= i < |g.branches| && g.branches[i].Queued? then
      var i :| 0 <= i < |g.branches| && g.branches[i].Queued?; Acquire(i)
    else if exists i :: 0 <= i < |g.branches| && g.branches[i].Reporting? then
      var i :| 0 <= i < |g.branches| && g.branches[i].Reporting?; Report(i)
    else if exists i :: 0 <= i < |g.branches| && g.branches[i].Finalizing? then
      var i :| 0 <= i < |g.branches| && g.branches[i].Finalizing?; ScopeCloses(i, NO_EXIT)
    else if g.stage.Watching? then Receive
    else Collect
  }

  lemma {:induction false} AllCounted(branches: seq<Branch>, counts: Branch -> bool)
    requires forall i :: 0 <= i < |branches| ==> counts(branches[i])
    ensures Count(branches, counts) == |branches|
  {
    if branches != [] {
      AllCounted(branches[1..], counts);
    }
  }

  lemma {:induction false} NoneCounted(branches: seq<Branch>, counts: Branch -> bool)
    requires forall i :: 0 <= i < |branches| ==> !counts(branches[i])
    ensures Count(branches, counts) == 0
  {
    if branches != [] {
      NoneCounted(branches[1..], counts);
    }
  }

  /** No deadlock: a group that has not returned can always do something, and everything it does
      leaves less to do, so it returns as soon as its bodies and finalizers end. */
  lemma {:induction false} AlwaysGoesOn(g: Group)
    requires Good(g) && !g.stage.Returned?
    ensures Left(Step(g, Helpful(g))) < Left(g)
  {
    var action := Helpful(g);
    match action
    case Acquire(i) => QueuedGoesOn(g, i);
    case Report(i) => ReportGoesOn(g, i);
    case Receive => WatcherGoesOn(g);
    case Collect => WatcherGoesOn(g);
    case _ => NothingUndone(g, action);
  }

  lemma {:induction false} QueuedGoesOn(g: Group, i: nat)
    requires Good(g) && At(g, i).Queued? && forall j :: 0 <= j < |g.branches| ==> !g.branches[j].Holding?
    ensures Left(Step(g, Acquire(i))) < Left(g)
  {
    NoneCounted(g.branches, HOLDS);
    NothingUndone(g, Acquire(i));
  }

  lemma {:induction false} ReportGoesOn(g: Group, i: nat)
    requires Good(g) && At(g, i).Reporting?
    ensures Left(Step(g, Report(i))) < Left(g)
  {
    CountMissing(g.branches, i, REPORTED);
    NothingUndone(g, Report(i));
  }

  lemma {:induction false} WatcherGoesOn(g: Group)
    requires Good(g) && !g.stage.Returned? && forall i :: 0 <= i < |g.branches| ==> g.branches[i].Terminal?
    ensures Left(Step(g, if g.stage.Watching? then Receive else Collect)) < Left(g)
  {
    AllCounted(g.branches, REPORTED);
  }
}
