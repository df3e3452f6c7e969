/** Lifetimes (effect/internal/lifetime/scope.go, completion.go, effect/internal/runtime/spawn.go):
    one scope, whoever registers with it, forks inside it and closes it. */
module Scopes {
  import opened Outcome
  import opened Wrappers

  datatype Status = Open | Closing | Closed

  /** How far the accepted Close has come. */
  datatype Phase = NotClosing | Waiting | Releasing(cause: Cause) | Finished(cause: Cause)

  /** A finalizer's run: which one, and the exit it was given. */
  datatype Released = Released(finalizer: nat, exit: Exit)

  /** A scope's fields, the finalizers its accepted Close has taken and not yet run, those turned
      away whose callers run them themselves, and the record of everything so far. */
  datatype Scope = Scope(
    status: Status,
    closeExit: Exit,
    finalizers: seq<nat>,
    children: set<nat>,
    phase: Phase,
    taken: seq<nat>,
    late: set<nat>,
    registered: seq<nat>,
    released: seq<Released>,
    causes: seq<Cause>,
    lateReleased: seq<Released>)

  const NO_EXIT := Failure(Cause.Empty)
  const NEW_SCOPE := Scope(Open, NO_EXIT, [], {}, NotClosing, [], {}, [], [], [], [])

  /** What a finalizer does when it is run: a panic becomes a defect. */
  datatype Finalizing = Ends(cause: Cause) | Panics(defect: Defect)

  function RunFinalizer(result: Finalizing): Cause {
    match result
    case Ends(cause) => cause
    case Panics(defect) => Died(defect, UNKNOWN)
  }

  datatype Action =
    | Register(finalizer: nat)
    | ReleaseLate(finalizer: nat)
    | Fork(child: nat)
    | ChildEnds(child: nat)
    | BeginClose(exit: Exit)
    | ChildrenDone
    | ReleaseNext(result: Finalizing)
    | FinishClose

  predicate Known(s: Scope, f: nat) {
    || f in s.registered || f in s.late
    || exists i :: 0 <= i < |s.lateReleased| && s.lateReleased[i].finalizer == f
  }

  /** A finalizer is registered while the scope is open, and else left to its caller. */
  function Registered(s: Scope, f: nat): Scope {
    if s.status.Open? then s.(finalizers := s.finalizers + [f], registered := s.registered + [f])
    else s.(late := s.late + {f})
  }

  function CloseBegun(s: Scope, exit: Exit): Scope {
    if !s.status.Open? then s
    else s.(status := Closing, closeExit := exit, taken := s.finalizers, finalizers := [], phase := Waiting)
  }

  /** Runs the last finalizer not yet run and adds its cause. */
  function NextReleased(s: Scope, result: Finalizing): Scope
    requires s.phase.Releasing? && s.taken != []
  {
    var last := |s.taken| - 1;
    var cause := RunFinalizer(result);
    s.(taken := s.taken[..last], released := s.released + [Released(s.taken[last], s.closeExit)],
       causes := s.causes + [cause], phase := Releasing(s.phase.cause.Then(cause)))
  }

  function Step(s: Scope, action: Action): Scope {
    match action
    case Register(f) => if Known(s, f) then s else Registered(s, f)
    case ReleaseLate(f) =>
      if f !in s.late then s
      else s.(late := s.late - {f}, lateReleased := s.lateReleased + [Released(f, s.closeExit)])
    case Fork(c) => if s.status.Open? then s.(children := s.children + {c}) else s
    case ChildEnds(c) => s.(children := s.children - {c})
    case BeginClose(exit) => CloseBegun(s, exit)
    case ChildrenDone => if s.phase.Waiting? && s.children == {} then s.(phase := Releasing(Cause.Empty)) else s
    case ReleaseNext(result) => if s.phase.Releasing? && s.taken != [] then NextReleased(s, result) else s
    case FinishClose =>
      if s.phase.Releasing? && s.taken == [] then s.(phase := Finished(s.phase.cause), status := Closed) else s
  }

  function Run(s: Scope, actions: seq<Action>): Scope
    decreases |actions|
  {
    if actions == [] then s else Step(Run(s, actions[..|actions| - 1]), actions[|actions| - 1])
  }

  /** What a call of Close answers at once, if it does. */
  function ClosesAtOnce(s: Scope): bool {
    !s.status.Open?
  }

  // Laws ----------------------------------------------------------------------------------

  function Names(released: seq<Released>): (r: seq<nat>)
    ensures |r| == |released| && forall i :: 0 <= i < |r| ==> r[i] == released[i].finalizer
  {
    seq(|released|, i requires 0 <= i < |released| => released[i].finalizer)
  }

  function Reversed(s: seq<nat>): (r: seq<nat>)
    ensures |r| == |s| && forall i :: 0 <= i < |s| ==> r[i] == s[|s| - 1 - i]
  {
    seq(|s|, i requires 0 <= i < |s| => s[|s| - 1 - i])
  }

  function ThenAll(causes: seq<Cause>): Cause
    decreases |causes|
  {
    if causes == [] then Cause.Empty else ThenAll(causes[..|causes| - 1]).Then(causes[|causes| - 1])
  }

  function AllLeaves(causes: seq<Cause>): seq<Cause>
    decreases |causes|
  {
    if causes == [] then [] else AllLeaves(causes[..|causes| - 1]) + causes[|causes| - 1].Leaves()
  }

  predicate Distinct(s: seq<nat>) {
    forall i, j :: 0 <= i < j < |s| ==> s[i] != s[j]
  }

  ghost predicate Good(s: Scope) {
    && (s.status.Open? <==> s.phase.NotClosing?) && (s.status.Closed? <==> s.phase.Finished?)
    && (s.status.Open? ==> s.registered == s.finalizers && s.taken == [] && s.released == [] && s.late == {} && s.lateReleased == [])
    && (!s.status.Open? ==> s.finalizers == [] && s.registered == s.taken + Reversed(Names(s.released)))
    && (s.phase.NotClosing? || s.phase.Waiting? ==> s.released == [] && s.causes == [])
    && (s.phase.Releasing? || s.phase.Finished? ==> s.children == {} && s.phase.cause == ThenAll(s.causes))
    && (s.phase.Finished? ==> s.taken == [])
    && |s.causes| == |s.released|
    && Once(s) && Told(s)
  }

  /** No finalizer is in two places, or twice in one. */
  ghost predicate Once(s: Scope) {
    && Distinct(s.registered + Names(s.lateReleased))
    && forall f :: f in s.late ==> f !in s.registered + Names(s.lateReleased)
  }

  /** Every finalizer that has run was given the exit the scope closes with. */
  ghost predicate Told(s: Scope) {
    && (forall i :: 0 <= i < |s.released| ==> s.released[i].exit == s.closeExit)
    && (forall i :: 0 <= i < |s.lateReleased| ==> s.lateReleased[i].exit == s.closeExit)
  }

  lemma {:induction false} RegisterKeeps(s: Scope, f: nat)
    requires Good(s) && !Known(s, f)
    ensures Good(Registered(s, f))
  {
    var s' := Registered(s, f);
    if s.status.Open? {
      assert s'.registered + Names(s'.lateReleased) == s.registered + [f];
      assert s.registered + Names(s.lateReleased) == s.registered;
    } else {
      assert f !in Names(s.lateReleased);
    }
  }

  lemma {:induction false} LateKeeps(s: Scope, f: nat)
    requires Good(s) && f in s.late
    ensures Good(Step(s, ReleaseLate(f)))
  {
    var s' := Step(s, ReleaseLate(f));
    var all := s.registered + Names(s.lateReleased);
    assert s'.registered + Names(s'.lateReleased) == all + [f];
    forall g | g in s'.late
      ensures g !in all + [f]
    {
      assert g !in all;
    }
  }

  lemma {:induction false} ReleaseKeeps(s: Scope, result: Finalizing)
    requires Good(s) && s.phase.Releasing? && s.taken != []
    ensures Good(NextReleased(s, result))
  {
  }

  lemma {:induction false} StepKeepsGood(s: Scope, action: Action)
    requires Good(s)
    ensures Good(Step(s, action))
  {
    match action
    case Register(f) =>
      if !Known(s, f) {
        RegisterKeeps(s, f);
      }
    case ReleaseLate(f) =>
      if f in s.late {
        LateKeeps(s, f);
      }
    case ReleaseNext(result) =>
      if s.phase.Releasing? && s.taken != [] {
        ReleaseKeeps(s, result);
      }
    case BeginClose(exit) =>
      assert s.finalizers + [] == s.finalizers;
      assert Reversed(Names([])) == [];
    case _ =>
  }

  lemma {:induction false} EveryRunIsGood(actions: seq<Action>)
    ensures Good(Run(NEW_SCOPE, actions))
    decreases |actions|
  {
    if actions != [] {
      EveryRunIsGood(actions[..|actions| - 1]);
      StepKeepsGood(Run(NEW_SCOPE, actions[..|actions| - 1]), actions[|actions| - 1]);
    }
  }

  /** When the accepted Close has returned, every finalizer the scope ever accepted has run exactly
      once, last registered first, given the closing exit, with no child left; and the cause holds
      exactly their causes' leaves, in that order. */
  lemma {:induction false} ClosingReleasesEverything(actions: seq<Action>)
    requires Run(NEW_SCOPE, actions).phase.Finished?
    ensures var s := Run(NEW_SCOPE, actions);
            && Names(s.released) == Reversed(s.registered) && Distinct(s.registered) && s.children == {}
            && (forall i :: 0 <= i < |s.released| ==> s.released[i].exit == s.closeExit)
            && s.phase.cause.Leaves() == AllLeaves(s.causes) && |s.causes| == |s.released|
  {
    var s := Run(NEW_SCOPE, actions);
    EveryRunIsGood(actions);
    ThenAllLeaves(s.causes);
    assert s.registered == Reversed(Names(s.released));
    assert Distinct(s.registered) by {
      assert forall i :: 0 <= i < |s.registered| ==> (s.registered + Names(s.lateReleased))[i] == s.registered[i];
    }
  }

  lemma {:induction false} ThenAllLeaves(causes: seq<Cause>)
    ensures ThenAll(causes).Leaves() == AllLeaves(causes)
    ensures ThenAll(causes).Empty? <==> forall i :: 0 <= i < |causes| ==> causes[i].Empty?
    decreases |causes|
  {
    if causes != [] {
      var init, last := causes[..|causes| - 1], causes[|causes| - 1];
      ThenAllLeaves(init);
      ComposeKeepsLeaves(ThenAll(init), last);
      assert causes == init + [last];
    }
  }

  /** At every moment: releasing starts after the last child has ended, what has run is the latest
      registered part of what was accepted, and whoever runs late was turned away. */
  lemma {:induction false} ReleasedInReverse(actions: seq<Action>)
    ensures var s := Run(NEW_SCOPE, actions);
            && (s.released != [] ==> s.children == {} && !s.status.Open?)
            && |s.released| <= |s.registered|
            && (forall i :: 0 <= i < |s.released| ==> s.released[i].finalizer == s.registered[|s.registered| - 1 - i])
            && (forall i :: 0 <= i < |s.lateReleased| ==> s.lateReleased[i].finalizer !in s.registered)
            && Distinct(Names(s.lateReleased))
  {
    var s := Run(NEW_SCOPE, actions);
    EveryRunIsGood(actions);
    LatestFirst(s.registered, s.taken, Names(s.released), s.status.Open?);
    LateApart(s.registered, Names(s.lateReleased));
  }

  lemma {:induction false} LatestFirst(registered: seq<nat>, taken: seq<nat>, released: seq<nat>, open: bool)
    requires if open then released == [] else registered == taken + Reversed(released)
    ensures |released| <= |registered|
    ensures forall i :: 0 <= i < |released| ==> released[i] == registered[|registered| - 1 - i]
  {
  }

  lemma {:induction false} LateApart(registered: seq<nat>, late: seq<nat>)
    requires Distinct(registered + late)
    ensures Distinct(registered) && Distinct(late) && forall i :: 0 <= i < |late| ==> late[i] !in registered
  {
    var all := registered + late;
    assert forall i :: 0 <= i < |registered| ==> all[i] == registered[i];
    assert forall i :: 0 <= i < |late| ==> all[|registered| + i] == late[i];
  }

  /** Once closing has begun no child and no finalizer is taken on, and the exit is fixed. */
  lemma {:induction false} ClosingIsFinal(s: Scope, actions: seq<Action>)
    requires Good(s) && !s.status.Open?
    ensures var s' := Run(s, actions);
            && Good(s') && !s'.status.Open? && s'.registered == s.registered && s'.children <= s.children && s'.closeExit == s.closeExit
    decreases |actions|
  {
    if actions != [] {
      ClosingIsFinal(s, actions[..|actions| - 1]);
      StepStaysClosing(Run(s, actions[..|actions| - 1]), actions[|actions| - 1]);
    }
  }

  lemma {:induction false} StepStaysClosing(s: Scope, action: Action)
    requires Good(s) && !s.status.Open?
    ensures var s' := Step(s, action);
            && Good(s') && !s'.status.Open? && s'.registered == s.registered && s'.children <= s.children && s'.closeExit == s.closeExit
  {
    StepKeepsGood(s, action);
  }

  /** A second Close does not wait: it answers with no cause although a child still runs and a
      resource is still held. */
  lemma {:induction false} SecondCloseDoesNotWait(exit: Exit)
    ensures var s := Run(NEW_SCOPE, [Register(0), Fork(0), BeginClose(exit)]);
            ClosesAtOnce(s) && s.children == {0} && s.taken == [0] && s.released == []
  {
    var actions := [Register(0), Fork(0), BeginClose(exit)];
    assert actions[..2] == [Register(0), Fork(0)] && actions[..2][..1] == [Register(0)] && actions[..2][..1][..0] == [];
    assert Run(NEW_SCOPE, actions[..2][..1]) == Registered(NEW_SCOPE, 0);
    assert Run(NEW_SCOPE, actions[..2]) == Registered(NEW_SCOPE, 0).(children := {0});
  }

  lemma {:induction false} RunSplits(s: Scope, first: seq<Action>, second: seq<Action>)
    ensures Run(s, first + second) == Run(Run(s, first), second)
    decreases |second|
  {
    if second == [] {
      assert first + second == first;
    } else {
      assert (first + second)[..|first + second| - 1] == first + second[..|second| - 1];
      RunSplits(s, first, second[..|second| - 1]);
    }
  }

  /** What Close says of its return: every child has ended, and every finalizer the scope accepted
      has run, last registered first. */
  predicate NothingHeld(s: Scope) {
    s.children == {} && Names(s.released) == Reversed(s.registered)
  }

  /** A call of Close that finds `s` returns in `s'` with `answer`, `after` having happened since
      it began closing. Only a call that finds the scope open waits. */
  ghost predicate Returns(s: Scope, exit: Exit, after: seq<Action>, s': Scope, answer: Cause) {
    if ClosesAtOnce(s) then s' == s && answer == Cause.Empty
    else s' == Run(Step(s, BeginClose(exit)), after) && s'.phase == Finished(answer)
  }

  /** Every call of Close in every run, by the status it finds. Found open: it returns with
      everything released and its finalizers' causes. Found closed: everything is released, though
      the empty answer is the accepted one's only if no finalizer failed. Found closing: while the
      accepted Close waits, only a scope that owned nothing has released everything, and after
      that only one whose last finalizer has been run. */
  lemma {:induction false} WhatASecondCloseSays(actions: seq<Action>, exit: Exit, after: seq<Action>, s': Scope, answer: Cause)
    requires Returns(Run(NEW_SCOPE, actions), exit, after, s', answer)
    ensures var s := Run(NEW_SCOPE, actions);
            && (s.status.Open? ==> NothingHeld(s') && answer.Leaves() == AllLeaves(s'.causes))
            && (s.status.Closed? ==> NothingHeld(s'))
            && (s.status.Closed? ==> (s.phase == Finished(answer) <==> forall i :: 0 <= i < |s.causes| ==> s.causes[i].Empty?))
            && (s.status.Closing? && s.phase.Waiting? ==> (NothingHeld(s') <==> s.children == {} && s.registered == []))
            && (s.status.Closing? && s.phase.Releasing? ==> (NothingHeld(s') <==> |s.released| == |s.registered|))
  {
    var s := Run(NEW_SCOPE, actions);
    EveryRunIsGood(actions);
    if s.status.Open? {
      RunSplits(NEW_SCOPE, actions, [BeginClose(exit)]);
      assert [BeginClose(exit)][..0] == [];
      RunSplits(NEW_SCOPE, actions + [BeginClose(exit)], after);
      ClosingReleasesEverything(actions + [BeginClose(exit)] + after);
    } else {
      TakenIsTheRest(s);
      ThenAllLeaves(s.causes);
    }
  }

  lemma {:induction false} TakenIsTheRest(s: Scope)
    requires Good(s) && !s.status.Open?
    ensures |s.registered| == |s.taken| + |s.released|
    ensures Names(s.released) == Reversed(s.registered) <==> |s.released| == |s.registered|
  {
    if s.taken == [] {
      assert s.registered == Reversed(Names(s.released));
    }
  }

  /** A call of Close keeps what it says on every run that brings the scope to this status. */
  ghost predicate CloseKeepsItsWord(status: Status) {
    forall actions, exit, after, s', answer ::
      Run(NEW_SCOPE, actions).status == status && Returns(Run(NEW_SCOPE, actions), exit, after, s', answer) ==> NothingHeld(s')
  }

  /** The statuses that is so for are the two in which nobody else is closing. */
  lemma {:induction false} CloseKeepsItsWordExactly(status: Status, exit: Exit)
    ensures CloseKeepsItsWord(status) <==> status != Closing
  {
    if status == Closing {
      SecondCloseDoesNotWait(exit);
      var actions := [Register(0), Fork(0), BeginClose(exit)];
      var s := Run(NEW_SCOPE, actions);
      EveryRunIsGood(actions);
      assert Run(NEW_SCOPE, actions).status == Closing && Returns(Run(NEW_SCOPE, actions), exit, [], s, Cause.Empty) && !NothingHeld(s);
    } else {
      forall actions, exit, after, s', answer |
          Run(NEW_SCOPE, actions).status == status && Returns(Run(NEW_SCOPE, actions), exit, after, s', answer)
        ensures NothingHeld(s')
      {
        WhatASecondCloseSays(actions, exit, after, s', answer);
      }
    }
  }

  /** Whatever a scope owns when its accepted Close begins, a second Close can overtake it: it
      answers, with no cause, while all of that is still held -- unless the scope owned nothing. */
  lemma {:induction false} EveryCloseCanBeOvertaken(actions: seq<Action>, exit: Exit)
    requires Run(NEW_SCOPE, actions).status.Open?
    ensures var s, s' := Run(NEW_SCOPE, actions), Run(NEW_SCOPE, actions + [BeginClose(exit)]);
            && Returns(s', exit, [], s', Cause.Empty) && s'.released == []
            && s'.children == s.children && s'.taken == s.finalizers == s.registered
            && (!NothingHeld(s') <==> s.children != {} || s.finalizers != [])
  {
    EveryRunIsGood(actions);
    assert (actions + [BeginClose(exit)])[..|actions|] == actions;
    EveryRunIsGood(actions + [BeginClose(exit)]);
  }

  /** And a second Close that finds the first one at work, with a child left to wait for or a
      finalizer left to run, answers with that still held. */
  lemma {:induction false} OvertakenLeavesThemHeld(actions: seq<Action>, exit: Exit)
    requires var s := Run(NEW_SCOPE, actions); (s.phase.Waiting? && s.children != {}) || s.taken != []
    ensures var s := Run(NEW_SCOPE, actions);
            && Returns(s, exit, [], s, Cause.Empty) && !NothingHeld(s)
            && (s.children != {} || exists f :: f in s.registered && f !in Names(s.released))
  {
    var s := Run(NEW_SCOPE, actions);
    EveryRunIsGood(actions);
    if s.taken != [] {
      TakenIsTheRest(s);
      LateApart(s.registered, Names(s.lateReleased));
      TakenIsNotReleased(s.registered, s.taken, Names(s.released));
    }
  }

  lemma {:induction false} TakenIsNotReleased(registered: seq<nat>, taken: seq<nat>, released: seq<nat>)
    requires registered == taken + Reversed(released) && Distinct(registered) && taken != []
    ensures taken[0] in registered && taken[0] !in released
  {
    forall i | 0 <= i < |released|
      ensures released[i] != taken[0]
    {
      assert registered[|registered| - 1 - i] == Reversed(released)[|released| - 1 - i] == released[i];
      assert registered[0] == taken[0];
    }
  }

  // Fibers --------------------------------------------------------------------------------

  /** A fiber owns a scope of its own, closes it with its work's exit, and only then completes. If
      it panics -- in its work, or between closing and completing -- it completes with the panic's
      defect. While it closes, finalizers' panics are caught. Nobody else can close its scope. */
  datatype Stage = Working | Ending(exit: Exit) | Completed(exit: Exit) | Crashed(defect: Defect)
  datatype Fiber = Fiber(scope: Scope, stage: Stage, terminal: Option<Exit>)

  datatype FiberAction = InScope(action: Action) | WorkEnds(exit: Exit) | Complete | Panic(defect: Defect)

  const NEW_FIBER := Fiber(NEW_SCOPE, Working, None)

  /** The work's exit with its cleanup's failures after it. */
  function WithCleanup(exit: Exit, cleanup: Cause): Exit {
    if cleanup.Empty? then exit else Failure(exit.Cause().Then(cleanup))
  }

  function FirstExit(terminal: Option<Exit>, exit: Exit): Option<Exit> {
    if terminal.None? then Some(exit) else terminal
  }

  function FiberStep(fiber: Fiber, action: FiberAction): Fiber {
    match action
    case InScope(a) => if a.BeginClose? then fiber else fiber.(scope := Step(fiber.scope, a))
    case WorkEnds(exit) =>
      if fiber.stage.Working? then fiber.(scope := CloseBegun(fiber.scope, exit), stage := Ending(exit)) else fiber
    case Complete =>
      if fiber.stage.Ending? && fiber.scope.phase.Finished? then
        var exit := WithCleanup(fiber.stage.exit, fiber.scope.phase.cause);
        fiber.(stage := Completed(fiber.stage.exit), terminal := FirstExit(fiber.terminal, exit))
      else fiber
    case Panic(defect) =>
      if fiber.stage.Working? || (fiber.stage.Ending? && fiber.scope.phase.Finished?)
      then fiber.(stage := Crashed(defect), terminal := FirstExit(fiber.terminal, Failure(Died(defect, UNKNOWN))))
      else fiber
  }

  function FiberRun(fiber: Fiber, actions: seq<FiberAction>): Fiber
    decreases |actions|
  {
    if actions == [] then fiber else FiberStep(FiberRun(fiber, actions[..|actions| - 1]), actions[|actions| - 1])
  }

  ghost predicate GoodFiber(fiber: Fiber) {
    && Good(fiber.scope)
    && (fiber.stage.Working? ==> fiber.scope.status.Open?)
    && (fiber.stage.Ending? || fiber.stage.Completed? ==> !fiber.scope.status.Open? && fiber.scope.closeExit == fiber.stage.exit)
    && (fiber.terminal.Some? <==> fiber.stage.Completed? || fiber.stage.Crashed?)
    && (fiber.stage.Completed? ==>
          fiber.scope.phase.Finished? && fiber.terminal.value == WithCleanup(fiber.stage.exit, fiber.scope.phase.cause))
    && (fiber.stage.Crashed? ==>
          fiber.scope.phase.NotClosing? || fiber.scope.phase.Finished?)
    && (fiber.stage.Crashed? ==> fiber.terminal.value == Failure(Died(fiber.stage.defect, UNKNOWN)))
  }

  lemma {:induction false} FiberStepKeeps(fiber: Fiber, action: FiberAction)
    requires GoodFiber(fiber)
    ensures GoodFiber(FiberStep(fiber, action))
    ensures fiber.terminal.Some? ==> FiberStep(fiber, action).terminal == fiber.terminal
  {
    match action
    case InScope(a) => StepKeepsGood(fiber.scope, a);
    case WorkEnds(exit) => StepKeepsGood(fiber.scope, BeginClose(exit));
    case Complete =>
    case Panic(_) =>
  }

  lemma {:induction false} EveryFiberIsGood(actions: seq<FiberAction>)
    ensures GoodFiber(FiberRun(NEW_FIBER, actions))
    decreases |actions|
  {
    if actions != [] {
      EveryFiberIsGood(actions[..|actions| - 1]);
      FiberStepKeeps(FiberRun(NEW_FIBER, actions[..|actions| - 1]), actions[|actions| - 1]);
    }
  }

  /** Whether the fiber's own code panicked while its work ran. */
  ghost predicate CrashedAtWork(actions: seq<FiberAction>) {
    exists i :: 0 <= i < |actions| && actions[i].Panic? && FiberRun(NEW_FIBER, actions[..i]).stage.Working?
  }

  /** A fiber that crashed at work never closes its scope: nobody else can. */
  lemma {:induction false} CrashesStayOpen(actions: seq<FiberAction>)
    ensures var fiber := FiberRun(NEW_FIBER, actions);
            CrashedAtWork(actions) <==> fiber.stage.Crashed? && fiber.scope.status.Open?
    decreases |actions|
  {
    if actions != [] {
      CrashesStayOpen(actions[..|actions| - 1]);
      EveryFiberIsGood(actions[..|actions| - 1]);
      CrashedBefore(actions);
    }
  }

  lemma {:induction false} CrashedBefore(actions: seq<FiberAction>)
    requires actions != []
    ensures var before, last := actions[..|actions| - 1], actions[|actions| - 1];
            CrashedAtWork(actions) <==> CrashedAtWork(before) || (last.Panic? && FiberRun(NEW_FIBER, before).stage.Working?)
  {
    var before := actions[..|actions| - 1];
    assert forall i :: 0 <= i < |before| ==> before[..i] == actions[..i] && before[i] == actions[i];
  }

  /** A fiber has a terminal exit only once its own scope has closed -- unless it crashed at work,
      and then the scope is still open. */
  lemma {:induction false} TerminalMeansClosedExactly(actions: seq<FiberAction>)
    requires FiberRun(NEW_FIBER, actions).terminal.Some?
    ensures var fiber := FiberRun(NEW_FIBER, actions);
            && (fiber.scope.status.Closed? <==> !CrashedAtWork(actions))
            && (!fiber.scope.status.Closed? <==> fiber.scope.status.Open?)
            && (fiber.stage.Crashed? ==> fiber.terminal.value == Failure(Died(fiber.stage.defect, UNKNOWN)))
  {
    EveryFiberIsGood(actions);
    CrashesStayOpen(actions);
  }

  /** Whatever a fiber owns while it works, a panic completes it with all of that still held. */
  lemma {:induction false} PanicLeavesTheScopeOpen(actions: seq<FiberAction>, defect: Defect)
    requires FiberRun(NEW_FIBER, actions).stage.Working?
    ensures var fiber, crashed := FiberRun(NEW_FIBER, actions), FiberRun(NEW_FIBER, actions + [Panic(defect)]);
            && crashed.terminal == Some(Failure(Died(defect, UNKNOWN)))
            && crashed.scope == fiber.scope && crashed.scope.status.Open?
  {
    EveryFiberIsGood(actions);
    assert (actions + [Panic(defect)])[..|actions|] == actions;
  }

  /** Whenever a fiber that did not crash has a terminal exit, its own scope has closed: its
      descendants have ended and everything it acquired is released. The exit succeeds only if the
      work and every release did, and its failures are the work's and then the releases'. One that
      crashed after closing has released everything too, and ends with the defect alone. */
  lemma {:induction false} CompletionComesLast(actions: seq<FiberAction>)
    requires FiberRun(NEW_FIBER, actions).terminal.Some? && !CrashedAtWork(actions)
    ensures var fiber := FiberRun(NEW_FIBER, actions);
            var s, exit := fiber.scope, fiber.terminal.value;
            && s.status.Closed? && s.taken == [] && NothingHeld(s)
            && (fiber.stage.Completed? ==>
                  (exit.Success? <==> s.closeExit.Success? && forall i :: 0 <= i < |s.causes| ==> s.causes[i].Empty?))
            && (fiber.stage.Completed? ==> exit.Cause().Leaves() == s.closeExit.Cause().Leaves() + AllLeaves(s.causes))
            && (fiber.stage.Completed? || fiber.stage.Crashed?)
            && (fiber.stage.Crashed? ==> exit == Failure(Died(fiber.stage.defect, UNKNOWN)))
  {
    var fiber := FiberRun(NEW_FIBER, actions);
    var s := fiber.scope;
    EveryFiberIsGood(actions);
    CrashesStayOpen(actions);
    ThenAllLeaves(s.causes);
    TakenIsTheRest(s);
    if fiber.stage.Completed? {
      ComposeKeepsLeaves(s.closeExit.Cause(), s.phase.cause);
      if s.phase.cause.Empty? {
        assert s.phase.cause.Leaves() == [];
      }
    }
  }

  /** A terminal exit never changes. */
  lemma {:induction false} TerminalIsFinal(fiber: Fiber, actions: seq<FiberAction>)
    requires GoodFiber(fiber) && fiber.terminal.Some?
    ensures FiberRun(fiber, actions).terminal == fiber.terminal && GoodFiber(FiberRun(fiber, actions))
    decreases |actions|
  {
    if actions != [] {
      TerminalIsFinal(fiber, actions[..|actions| - 1]);
      FiberStepKeeps(FiberRun(fiber, actions[..|actions| - 1]), actions[|actions| - 1]);
    }
  }
}

/** The scope and the completion themselves. */
module Lifetimes {
  import opened Outcome
  import opened Wrappers
  import opened Scopes

  class OwnScope {
    var status: Scopes.Status
    var closeExit: Exit
    var finalizers: seq<nat>
    var children: set<nat>
    ghost var phase: Phase
    ghost var taken: seq<nat>
    ghost var late: set<nat>
    ghost var registered: seq<nat>
    ghost var released: seq<Released>
    ghost var causes: seq<Cause>
    ghost var lateReleased: seq<Released>

    ghost function View(): Scope
      reads this
    {
      Scope(status, closeExit, finalizers, children, phase, taken, late, registered, released, causes, lateReleased)
    }

    constructor ()
      ensures View() == NEW_SCOPE
    {
      status, closeExit, finalizers, children := Open, NO_EXIT, [], {};
      phase, taken, late, registered, released, causes, lateReleased := NotClosing, [], {}, [], [], [], [];
    }

    /** Registers the finalizer, or runs it at once. */
    method AddFinalizer(finalizer: nat, run: (nat, Exit) -> Finalizing) returns (accepted: bool, cause: Cause)
      requires !Known(View(), finalizer)
      modifies this
      ensures accepted == old(status).Open?
      ensures accepted ==> View() == Step(old(View()), Register(finalizer)) && cause.Empty?
      ensures !accepted ==> View() == Step(Step(old(View()), Register(finalizer)), ReleaseLate(finalizer))
      ensures !accepted ==> cause == RunFinalizer(run(finalizer, old(closeExit)))
    {
      if status.Open? {
        finalizers := finalizers + [finalizer];
        registered := registered + [finalizer];
        return true, Cause.Empty;
      }
      lateReleased := lateReleased + [Released(finalizer, closeExit)];
      assert late == late + {finalizer} - {finalizer};
      return false, RunFinalizer(run(finalizer, closeExit));
    }

    method Fork(child: nat) returns (accepted: bool)
      modifies this
      ensures View() == Step(old(View()), Scopes.Fork(child))
      ensures accepted == old(status).Open?
    {
      if !status.Open? {
        return false;
      }
      children := children + {child};
      return true;
    }

    method ChildEnds(child: nat)
      modifies this
      ensures View() == Step(old(View()), Scopes.ChildEnds(child))
    {
      children := children - {child};
    }

    method BeginClose(exit: Exit) returns (finalizersTaken: seq<nat>, accepted: bool)
      modifies this
      ensures View() == CloseBegun(old(View()), exit)
      ensures accepted == old(status).Open?
      ensures finalizersTaken == if accepted then old(finalizers) else []
    {
      if !status.Open? {
        return [], false;
      }
      status, closeExit := Closing, exit;
      finalizersTaken := finalizers;
      finalizers := [];
      taken, phase := finalizersTaken, Waiting;
      return finalizersTaken, true;
    }

    /** Closing with nobody in between: waiting lasts until every child has ended, and cleanup goes
        backwards over the finalizers. */
    method Close(exit: Exit, run: (nat, Exit) -> Finalizing) returns (cause: Cause)
      modifies this
      ensures !old(status).Open? ==> View() == old(View()) && cause.Empty?
      ensures old(status).Open? ==>
                && View() == AllReleased(CloseBegun(old(View()), exit).(children := {}, phase := Releasing(Cause.Empty)), run)
                && View().phase == Finished(cause)
    {
      var finalizersTaken, accepted := BeginClose(exit);
      if !accepted {
        return Cause.Empty;
      }
      children := {};
      phase := Releasing(Cause.Empty);
      ghost var waiting := View();
      cause := Cause.Empty;
      var index := |finalizersTaken|;
      while index > 0
        invariant 0 <= index <= |finalizersTaken|
        invariant taken == finalizersTaken[..index] && closeExit == exit && phase == Releasing(cause)
        invariant AllReleased(View(), run) == AllReleased(waiting, run)
      {
        index := index - 1;
        ghost var before := View();
        var finalizer := finalizersTaken[index];
        var result := RunFinalizer(run(finalizer, exit));
        cause := cause.Then(result);
        taken, released, causes := finalizersTaken[..index], released + [Released(finalizer, exit)], causes + [result];
        phase := Releasing(cause);
        assert before.taken[|before.taken| - 1] == finalizer;
        assert View() == NextReleased(before, run(finalizer, exit));
      }
      status := Closed;
      phase := Finished(cause);
    }
  }

  /** Releases everything taken, last first, and finishes. */
  ghost function AllReleased(s: Scope, run: (nat, Exit) -> Finalizing): Scope
    requires s.phase.Releasing?
    decreases |s.taken|
  {
    if s.taken == [] then Step(s, FinishClose)
    else AllReleased(NextReleased(s, run(s.taken[|s.taken| - 1], s.closeExit)), run)
  }

  /** A result written once and read any number of times. */
  class Completion {
    var result: Option<Exit>

    constructor ()
      ensures result.None?
    {
      result := None;
    }

    method Complete(exit: Exit) returns (first: bool)
      modifies this
      ensures first == old(result).None?
      ensures result == if first then Some(exit) else old(result)
    {
      first := result.None?;
      if first {
        result := Some(exit);
      }
    }

    method Poll() returns (exit: Option<Exit>)
      ensures exit == result
    {
      exit := result;
    }
  }

  /** What a completion holds after any sequence of attempts, starting from `result`. */
  function AfterAttempts(result: Option<Exit>, attempts: seq<Exit>): Option<Exit>
    decreases |attempts|
  {
    if attempts == [] then result
    else AfterAttempts(if result.None? then Some(attempts[0]) else result, attempts[1..])
  }

  /** The first attempt decides, and nothing later changes it. */
  lemma {:induction false} FirstAttemptWins(result: Option<Exit>, attempts: seq<Exit>)
    ensures AfterAttempts(result, attempts)
         == if result.Some? then result else if attempts == [] then None else Some(attempts[0])
    decreases |attempts|
  {
    if attempts != [] {
      FirstAttemptWins(if result.None? then Some(attempts[0]) else result, attempts[1..]);
    }
  }
}
