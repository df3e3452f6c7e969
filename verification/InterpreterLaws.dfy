/** What the interpreter's meaning promises: the sequencing laws, the discipline of exit hooks
    and of the interruption checkpoint, and that iterating costs no stack. */
module InterpreterLaws {
  import opened Outcome
  import opened Wrappers
  import opened Instructions

  /** The part of a run a program can tell. */
  function Observed(run: (Ending, Course)): (Ending, World, nat) {
    (run.0, run.1.world, run.1.gas)
  }

  /** What a Bind does once its source has ended. */
  function Continued(host: Host, f: Callback, amb: Ambient, h: nat, ending: Ending, c: Course): (Ending, Course) {
    if ending == Stopped || !ending.exit.Success? then (ending, c)
    else if c.gas == 0 then (Stopped, c)
    else
      var (answer, w) := host.continueWith(f, ending.exit.value, c.world);
      if answer.Panics? then (Ended(Crash(answer.defect)), c.At(w).Spent())
      else BigStep(host, answer.value, amb, h, c.At(w).Spent())
  }

  lemma {:induction false} BindIsContinued(host: Host, m: Node, f: Callback, amb: Ambient, h: nat, c: Course)
    ensures var (ending, c1) := BigStep(host, m, amb, h + 1, c.Pushed(h + 1));
            BigStep(host, Bind(m, f), amb, h, c) == Continued(host, f, amb, h, ending, c1)
  {
  }

  /** What a Recover does once its source has ended. */
  function Handled(host: Host, f: Callback, amb: Ambient, h: nat, ending: Ending, c: Course): (Ending, Course) {
    if ending == Stopped || ending.exit.Success? then (ending, c)
    else if c.gas == 0 then (Stopped, c)
    else
      var (answer, w) := host.handle(f, ending.exit.cause, c.world);
      if answer.Panics? then (Ended(Failure(ending.exit.cause.Then(Died(answer.defect, UNKNOWN)))), c.At(w).Spent())
      else BigStep(host, answer.value, amb, h, c.At(w).Spent())
  }

  lemma {:induction false} RecoverIsHandled(host: Host, m: Node, f: Callback, amb: Ambient, h: nat, c: Course)
    ensures var (ending, c1) := BigStep(host, m, amb, h + 1, c.Pushed(h + 1));
            BigStep(host, Recover(m, f), amb, h, c) == Handled(host, f, amb, h, ending, c1)
  {
  }

  /** What an OnExit does once its source has ended. */
  function Watched(host: Host, hook: Callback, amb: Ambient, ending: Ending, c: Course): (Ending, Course) {
    if ending == Stopped then (ending, c)
    else
      var (exit, c') := ObserveExit(host, hook, amb, ending.exit, c);
      (Ended(exit), c')
  }

  lemma {:induction false} OnExitIsWatched(host: Host, m: Node, hook: Callback, amb: Ambient, h: nat, c: Course)
    ensures var (ending, c1) := BigStep(host, m, amb, h + 1, c.Pushed(h + 1).Logged(Entered(hook, amb)));
            BigStep(host, OnExit(m, hook), amb, h, c) == Watched(host, hook, amb, ending, c1)
  {
  }

  // Where a program runs ------------------------------------------------------------------

  /** Neither the pending frames nor what was recorded so far changes what a program does. */
  lemma {:induction false} RunsAlikeAnywhere(host: Host, node: Node, amb: Ambient, h: nat, c: Course, h': nat, c': Course)
    requires c.world == c'.world && c.gas == c'.gas
    ensures Observed(BigStep(host, node, amb, h, c)) == Observed(BigStep(host, node, amb, h', c'))
    decreases c.gas, node, 1
  {
    match node
    case Transform(source, _) =>
      RunsAlikeAnywhere(host, source, amb, h + 1, c.Pushed(h + 1), h' + 1, c'.Pushed(h' + 1));
    case TransformCause(source, _) =>
      RunsAlikeAnywhere(host, source, amb, h + 1, c.Pushed(h + 1), h' + 1, c'.Pushed(h' + 1));
    case OnExit(source, hook) =>
      RunsAlikeAnywhere(host, source, amb, h + 1, c.Pushed(h + 1).Logged(Entered(hook, amb)),
                        h' + 1, c'.Pushed(h' + 1).Logged(Entered(hook, amb)));
    case Bind(_, _) => SequencedRunsAlike(host, node, amb, h, c, h', c');
    case Recover(_, _) => SequencedRunsAlike(host, node, amb, h, c, h', c');
    case Suspend(create) =>
      if c.gas > 0 {
        var (answer, w) := host.create(create, amb, c.world);
        if answer.Gives? {
          RunsAlikeAnywhere(host, answer.value, amb, h, c.At(w).Spent(), h', c'.At(w).Spent());
        }
      }
    case WithEnvironment(_, _) => DerivedRunsAlike(host, node, amb, h, c, h', c');
    case WithState(_, _) => DerivedRunsAlike(host, node, amb, h, c, h', c');
    case WithContext(_, _) => DerivedRunsAlike(host, node, amb, h, c, h', c');
    case _ =>
  }

  lemma {:induction false} SequencedRunsAlike(host: Host, node: Node, amb: Ambient, h: nat, c: Course, h': nat, c': Course)
    requires (node.Bind? || node.Recover?) && c.world == c'.world && c.gas == c'.gas
    ensures Observed(BigStep(host, node, amb, h, c)) == Observed(BigStep(host, node, amb, h', c'))
    decreases c.gas, node, 0
  {
    RunsAlikeAnywhere(host, node.source, amb, h + 1, c.Pushed(h + 1), h' + 1, c'.Pushed(h' + 1));
    var (ending, c1) := BigStep(host, node.source, amb, h + 1, c.Pushed(h + 1));
    var (_, c1') := BigStep(host, node.source, amb, h' + 1, c'.Pushed(h' + 1));
    if node.Bind? {
      BindIsContinued(host, node.source, node.continueWith, amb, h, c);
      BindIsContinued(host, node.source, node.continueWith, amb, h', c');
      ContinuesAlikeAnywhere(host, node.source, node.continueWith, amb, h, ending, c1, h', c1');
    } else {
      RecoverIsHandled(host, node.source, node.handle, amb, h, c);
      RecoverIsHandled(host, node.source, node.handle, amb, h', c');
      HandlesAlikeAnywhere(host, node.source, node.handle, amb, h, ending, c1, h', c1');
    }
  }

  lemma {:induction false} ContinuesAlikeAnywhere(host: Host, after: Node, f: Callback, amb: Ambient, h: nat, ending: Ending, c: Course, h': nat, c': Course)
    requires c.world == c'.world && c.gas == c'.gas
    ensures Observed(Continued(host, f, amb, h, ending, c)) == Observed(Continued(host, f, amb, h', ending, c'))
    decreases c.gas, after
  {
    if ending.Ended? && ending.exit.Success? && c.gas > 0 {
      var (answer, w) := host.continueWith(f, ending.exit.value, c.world);
      if answer.Gives? {
        RunsAlikeAnywhere(host, answer.value, amb, h, c.At(w).Spent(), h', c'.At(w).Spent());
      }
    }
  }

  lemma {:induction false} HandlesAlikeAnywhere(host: Host, after: Node, f: Callback, amb: Ambient, h: nat, ending: Ending, c: Course, h': nat, c': Course)
    requires c.world == c'.world && c.gas == c'.gas
    ensures Observed(Handled(host, f, amb, h, ending, c)) == Observed(Handled(host, f, amb, h', ending, c'))
    decreases c.gas, after
  {
    if ending.Ended? && !ending.exit.Success? && c.gas > 0 {
      var (answer, w) := host.handle(f, ending.exit.cause, c.world);
      if answer.Gives? {
        RunsAlikeAnywhere(host, answer.value, amb, h, c.At(w).Spent(), h', c'.At(w).Spent());
      }
    }
  }

  lemma {:induction false} DerivedRunsAlike(host: Host, node: Node, amb: Ambient, h: nat, c: Course, h': nat, c': Course)
    requires node.WithEnvironment? || node.WithState? || node.WithContext?
    requires c.world == c'.world && c.gas == c'.gas
    ensures Observed(BigStep(host, node, amb, h, c)) == Observed(BigStep(host, node, amb, h', c'))
    decreases c.gas, node, 0
  {
    var (answer, c1) := Derive(host, node, amb, c.Pushed(h + 1));
    var (answer', c1') := Derive(host, node, amb, c'.Pushed(h' + 1));
    assert answer == answer' && c1.world == c1'.world && c1.gas == c1'.gas == c.gas;
    if answer.Gives? {
      RunsAlikeAnywhere(host, node.source, answer.value, h + 1, c1, h' + 1, c1');
    }
  }

  /** The same course with this much more gas. */
  function Richer(c: Course, more: nat): Course {
    c.(gas := c.gas + more)
  }

  /** A run that ends needs no more than the gas it used: any larger allowance gives the same
      exit, world, log and frames, and leaves the difference. */
  lemma {:induction false} GasIsOnlyAnAllowance(host: Host, node: Node, amb: Ambient, h: nat, c: Course, more: nat)
    requires BigStep(host, node, amb, h, c).0.Ended?
    ensures var (ending, c') := BigStep(host, node, amb, h, c);
            BigStep(host, node, amb, h, Richer(c, more)) == (ending, Richer(c', more))
    decreases c.gas, node, 1
  {
    match node
    case Transform(_, _) => RewrittenAllowance(host, node, amb, h, c, more);
    case TransformCause(_, _) => RewrittenAllowance(host, node, amb, h, c, more);
    case OnExit(_, _) => RewrittenAllowance(host, node, amb, h, c, more);
    case Bind(_, _) => SequencedAllowance(host, node, amb, h, c, more);
    case Recover(_, _) => SequencedAllowance(host, node, amb, h, c, more);
    case Suspend(_) => CreatedAllowance(host, node, amb, h, c, more);
    case WithEnvironment(_, _) => DerivedAllowance(host, node, amb, h, c, more);
    case WithState(_, _) => DerivedAllowance(host, node, amb, h, c, more);
    case WithContext(_, _) => DerivedAllowance(host, node, amb, h, c, more);
    case _ =>
  }

  lemma {:induction false} RewrittenAllowance(host: Host, node: Node, amb: Ambient, h: nat, c: Course, more: nat)
    requires node.Transform? || node.TransformCause? || node.OnExit?
    requires BigStep(host, node, amb, h, c).0.Ended?
    ensures var (ending, c') := BigStep(host, node, amb, h, c);
            BigStep(host, node, amb, h, Richer(c, more)) == (ending, Richer(c', more))
    decreases c.gas, node, 0
  {
    var inner := if node.OnExit? then c.Pushed(h + 1).Logged(Entered(node.observe, amb)) else c.Pushed(h + 1);
    GasIsOnlyAnAllowance(host, node.source, amb, h + 1, inner, more);
    assert Richer(inner, more)
        == if node.OnExit? then Richer(c, more).Pushed(h + 1).Logged(Entered(node.observe, amb)) else Richer(c, more).Pushed(h + 1);
  }

  lemma {:induction false} CreatedAllowance(host: Host, node: Node, amb: Ambient, h: nat, c: Course, more: nat)
    requires node.Suspend? && BigStep(host, node, amb, h, c).0.Ended?
    ensures var (ending, c') := BigStep(host, node, amb, h, c);
            BigStep(host, node, amb, h, Richer(c, more)) == (ending, Richer(c', more))
    decreases c.gas, node, 0
  {
    var (answer, w) := host.create(node.create, amb, c.world);
    if answer.Gives? {
      GasIsOnlyAnAllowance(host, answer.value, amb, h, c.At(w).Spent(), more);
      assert Richer(c, more).At(w).Spent() == Richer(c.At(w).Spent(), more);
    }
  }

  lemma {:induction false} SequencedAllowance(host: Host, node: Node, amb: Ambient, h: nat, c: Course, more: nat)
    requires node.Bind? || node.Recover?
    requires BigStep(host, node, amb, h, c).0.Ended?
    ensures var (ending, c') := BigStep(host, node, amb, h, c);
            BigStep(host, node, amb, h, Richer(c, more)) == (ending, Richer(c', more))
    decreases c.gas, node, 0
  {
    GasIsOnlyAnAllowance(host, node.source, amb, h + 1, c.Pushed(h + 1), more);
    var (ending, c1) := BigStep(host, node.source, amb, h + 1, c.Pushed(h + 1));
    assert Richer(c, more).Pushed(h + 1) == Richer(c.Pushed(h + 1), more);
    if node.Bind? {
      BindIsContinued(host, node.source, node.continueWith, amb, h, c);
      BindIsContinued(host, node.source, node.continueWith, amb, h, Richer(c, more));
      ContinuedAllowance(host, node.source, node.continueWith, amb, h, ending, c1, more);
    } else {
      RecoverIsHandled(host, node.source, node.handle, amb, h, c);
      RecoverIsHandled(host, node.source, node.handle, amb, h, Richer(c, more));
      HandledAllowance(host, node.source, node.handle, amb, h, ending, c1, more);
    }
  }

  lemma {:induction false} ContinuedAllowance(host: Host, after: Node, f: Callback, amb: Ambient, h: nat, ending: Ending, c: Course, more: nat)
    requires ending.Ended? && Continued(host, f, amb, h, ending, c).0.Ended?
    ensures var (ended, c') := Continued(host, f, amb, h, ending, c);
            Continued(host, f, amb, h, ending, Richer(c, more)) == (ended, Richer(c', more))
    decreases c.gas, after
  {
    if ending.exit.Success? {
      var (answer, w) := host.continueWith(f, ending.exit.value, c.world);
      assert Richer(c, more).At(w).Spent() == Richer(c.At(w).Spent(), more);
      if answer.Gives? {
        GasIsOnlyAnAllowance(host, answer.value, amb, h, c.At(w).Spent(), more);
      }
    }
  }

  lemma {:induction false} HandledAllowance(host: Host, after: Node, f: Callback, amb: Ambient, h: nat, ending: Ending, c: Course, more: nat)
    requires ending.Ended? && Handled(host, f, amb, h, ending, c).0.Ended?
    ensures var (ended, c') := Handled(host, f, amb, h, ending, c);
            Handled(host, f, amb, h, ending, Richer(c, more)) == (ended, Richer(c', more))
    decreases c.gas, after
  {
    if !ending.exit.Success? {
      var (answer, w) := host.handle(f, ending.exit.cause, c.world);
      assert Richer(c, more).At(w).Spent() == Richer(c.At(w).Spent(), more);
      if answer.Gives? {
        GasIsOnlyAnAllowance(host, answer.value, amb, h, c.At(w).Spent(), more);
      }
    }
  }

  lemma {:induction false} DerivedAllowance(host: Host, node: Node, amb: Ambient, h: nat, c: Course, more: nat)
    requires node.WithEnvironment? || node.WithState? || node.WithContext?
    requires BigStep(host, node, amb, h, c).0.Ended?
    ensures var (ending, c') := BigStep(host, node, amb, h, c);
            BigStep(host, node, amb, h, Richer(c, more)) == (ending, Richer(c', more))
    decreases c.gas, node, 0
  {
    var (answer, c1) := Derive(host, node, amb, c.Pushed(h + 1));
    assert Derive(host, node, amb, Richer(c, more).Pushed(h + 1)) == (answer, Richer(c1, more));
    if answer.Gives? {
      GasIsOnlyAnAllowance(host, node.source, answer.value, h + 1, c1, more);
    }
  }

  // Sequencing laws -----------------------------------------------------------------------

  /** Left identity: once the value has passed its checkpoint, in whatever world that leaves, what is
      run is what the closure answers. */
  lemma {:induction false} BindLeftIdentity(host: Host, value: Value, f: Callback, amb: Ambient, h: nat, c: Course)
    ensures var (reason, polled) := host.poll(amb.context, c.world);
            var (answer, w) := host.continueWith(f, value, polled);
            Observed(BigStep(host, Bind(Succeed(value), f), amb, h, c))
             == if reason != [] then (Ended(Failure(Interrupted(reason[0], UNKNOWN))), polled, c.gas)
                else if c.gas == 0 then (Stopped, polled, 0)
                else if answer.Panics? then (Ended(Crash(answer.defect)), w, c.gas - 1)
                else Observed(BigStep(host, answer.value, amb, h, c.At(w).Spent()))
  {
    var (reason, polled) := host.poll(amb.context, c.world);
    var (answer, w) := host.continueWith(f, value, polled);
    if reason == [] && c.gas > 0 && answer.Gives? {
      var (_, c1) := BigStep(host, Succeed(value), amb, h + 1, c.Pushed(h + 1));
      RunsAlikeAnywhere(host, answer.value, amb, h, c1.At(w).Spent(), h, c.At(w).Spent());
    }
  }

  /** Right identity: continuing with Succeed ends as the program itself does, except that the
      value passes one more checkpoint. It is lost exactly if the context is cancelled there. */
  lemma {:induction false} BindRightIdentity(host: Host, m: Node, succeed: Callback, amb: Ambient, h: nat, c: Course)
    requires forall v, w :: host.continueWith(succeed, v, w) == (Gives(Succeed(v)), w)
    ensures var (ending, c1) := BigStep(host, m, amb, h, c);
            var (reason, w) := host.poll(amb.context, c1.world);
            var (bound, c2) := BigStep(host, Bind(m, succeed), amb, h, c);
            && (ending.Stopped? || !ending.exit.Success? ==> Observed((bound, c2)) == Observed((ending, c1)))
            && (ending.Ended? && ending.exit.Success? && c1.gas == 0 ==> bound.Stopped?)
            && (ending.Ended? && ending.exit.Success? && c1.gas > 0 ==>
                  && (bound == ending <==> reason == [])
                  && Observed((bound, c2)) == (bound, w, c1.gas - 1))
  {
    RunsAlikeAnywhere(host, m, amb, h, c, h + 1, c.Pushed(h + 1));
  }

  /** A context cancelled between the two checkpoints: with any host in any other respect, a value
      that is answered alone is lost when Succeed is bound to it. */
  lemma {:induction false} RightIdentityLosesAValue(
      others: Host, value: Value, succeed: Callback, reason: Reason, amb: Ambient, h: nat, c: Course, later: World)
    requires later != c.world && c.gas > 0
    ensures var host := others.(poll := (_, w) => if w == c.world then ([], later) else ([reason], w),
                                continueWith := (_, v, w) => (Gives(Succeed(v)), w));
            && BigStep(host, Succeed(value), amb, h, c).0 == Ended(Success(value))
            && BigStep(host, Bind(Succeed(value), succeed), amb, h, c).0 == Ended(Failure(Interrupted(reason, UNKNOWN)))
  {
  }

  /** Continuing with `f` and then `g` is continuing with the composition of the two. */
  lemma {:induction false} ContinuedTwice(host: Host, f: Callback, g: Callback, both: Callback, amb: Ambient, h: nat, ending: Ending, c: Course)
    requires Composes(host, f, g, both)
    ensures var (middle, c1) := Continued(host, f, amb, h + 1, ending, c);
            Observed(Continued(host, g, amb, h, middle, c1)) == Observed(Continued(host, both, amb, h, ending, c))
  {
    if ending.Ended? && ending.exit.Success? && c.gas > 0 {
      var (answer, w) := host.continueWith(f, ending.exit.value, c.world);
      if answer.Gives? {
        var d := c.At(w).Spent();
        BindIsContinued(host, answer.value, g, amb, h, d);
        RunsAlikeAnywhere(host, answer.value, amb, h + 1, d, h + 1, d.Pushed(h + 1));
        var (middle, c1) := BigStep(host, answer.value, amb, h + 1, d);
        var (_, c1') := BigStep(host, answer.value, amb, h + 1, d.Pushed(h + 1));
        ContinuesAlikeAnywhere(host, answer.value, g, amb, h, middle, c1, h, c1');
      }
    }
  }

  /** The closure x => Bind(f(x), g). */
  ghost predicate Composes(host: Host, f: Callback, g: Callback, both: Callback) {
    forall v, w :: host.continueWith(both, v, w)
      == var (answer, w') := host.continueWith(f, v, w);
         (if answer.Gives? then Gives(Bind(answer.value, g)) else Panics(answer.defect), w')
  }

  /** Associativity holds on every run: interrupted, failing, crashing and unfinished alike. */
  lemma {:induction false} BindAssociates(host: Host, m: Node, f: Callback, g: Callback, both: Callback, amb: Ambient, h: nat, c: Course)
    requires Composes(host, f, g, both)
    ensures Observed(BigStep(host, Bind(Bind(m, f), g), amb, h, c)) == Observed(BigStep(host, Bind(m, both), amb, h, c))
  {
    var inner := c.Pushed(h + 1).Pushed(h + 2);
    BindIsContinued(host, Bind(m, f), g, amb, h, c);
    BindIsContinued(host, m, f, amb, h + 1, c.Pushed(h + 1));
    BindIsContinued(host, m, both, amb, h, c);
    RunsAlikeAnywhere(host, m, amb, h + 2, inner, h + 1, c.Pushed(h + 1));
    var (ending, c1) := BigStep(host, m, amb, h + 2, inner);
    var (_, c1') := BigStep(host, m, amb, h + 1, c.Pushed(h + 1));
    ContinuedTwice(host, f, g, both, amb, h, ending, c1);
    ContinuesAlikeAnywhere(host, m, both, amb, h, ending, c1, h, c1');
  }

  // Exit hooks and the checkpoint ---------------------------------------------------------

  /** Hooks entered and not run yet, innermost last; `Broken` once a hook ran out of turn or
      under another ambient state, or a leaf started without an uncancelled checkpoint. */
  datatype Nesting = Broken | Open(hooks: seq<(Callback, Ambient)>)

  function Nest(log: seq<Event>): Nesting {
    if log == [] then Open([])
    else
      var before, last := log[..|log| - 1], log[|log| - 1];
      var nesting := Nest(before);
      if nesting.Broken? then Broken
      else match last
        case Entered(hook, amb) => Open(nesting.hooks + [(hook, amb)])
        case Ran(hook, amb) =>
          var n := |nesting.hooks|;
          if n > 0 && nesting.hooks[n - 1] == (hook, amb) then Open(nesting.hooks[..n - 1]) else Broken
        case Polled(_, _) => nesting
        case Started(_, amb) =>
          if before != [] && before[|before| - 1] == Polled(amb.context, false) then nesting else Broken
  }

  /** A run from one course to another leaves as many hooks open as it found, or more only where it
      was stopped. */
  predicate Nests(c: Course, ending: Ending, c': Course)
    requires Nest(c.log).Open?
  {
    && Nest(c'.log).Open?
    && (ending.Ended? ==> Nest(c'.log) == Nest(c.log))
    && (ending.Stopped? ==> Nest(c.log).hooks <= Nest(c'.log).hooks)
  }

  /** Whatever a program does and however it ends, every hook it enters runs exactly once, the
      innermost first and under the ambient state it was entered with, cancelled or not; and no
      leaf starts except straight after a checkpoint that found its context uncancelled. */
  lemma {:induction false} HooksNest(host: Host, node: Node, amb: Ambient, h: nat, c: Course)
    requires Nest(c.log).Open?
    ensures var (ending, c') := BigStep(host, node, amb, h, c);
            Nests(c, ending, c')
    decreases c.gas, node, 1
  {
    match node
    case Transform(_, _) => RewrittenHooksNest(host, node, amb, h, c);
    case TransformCause(_, _) => RewrittenHooksNest(host, node, amb, h, c);
    case OnExit(_, _) => HookedNest(host, node, amb, h, c);
    case Bind(_, _) => SequencedHooksNest(host, node, amb, h, c);
    case Recover(_, _) => SequencedHooksNest(host, node, amb, h, c);
    case Suspend(_) => CreatedHooksNest(host, node, amb, h, c);
    case WithEnvironment(source, _) => DerivedHooksNest(host, node, amb, h, c);
    case WithState(source, _) => DerivedHooksNest(host, node, amb, h, c);
    case WithContext(source, _) => DerivedHooksNest(host, node, amb, h, c);
    case _ => SettledNest(host, node, amb, c);
  }

  lemma {:induction false} RewrittenHooksNest(host: Host, node: Node, amb: Ambient, h: nat, c: Course)
    requires (node.Transform? || node.TransformCause?) && Nest(c.log).Open?
    ensures var (ending, c') := BigStep(host, node, amb, h, c);
            Nests(c, ending, c')
    decreases c.gas, node, 0
  {
    HooksNest(host, node.source, amb, h + 1, c.Pushed(h + 1));
  }

  lemma {:induction false} CreatedHooksNest(host: Host, node: Node, amb: Ambient, h: nat, c: Course)
    requires node.Suspend? && Nest(c.log).Open?
    ensures var (ending, c') := BigStep(host, node, amb, h, c);
            Nests(c, ending, c')
    decreases c.gas, node, 0
  {
    if c.gas > 0 {
      var (answer, w) := host.create(node.create, amb, c.world);
      if answer.Gives? {
        HooksNest(host, answer.value, amb, h, c.At(w).Spent());
      }
    }
  }

  lemma {:induction false} HookedNest(host: Host, node: Node, amb: Ambient, h: nat, c: Course)
    requires node.OnExit? && Nest(c.log).Open?
    ensures var (ending, c') := BigStep(host, node, amb, h, c);
            Nests(c, ending, c')
    decreases c.gas, node, 0
  {
    var hook, hooks := (node.observe, amb), Nest(c.log).hooks;
    var entered := c.Pushed(h + 1).Logged(Entered(node.observe, amb));
    EnteringOpens(c.log, hooks, hook);
    HooksNest(host, node.source, amb, h + 1, entered);
    var (ending, c1) := BigStep(host, node.source, amb, h + 1, entered);
    OnExitIsWatched(host, node.source, node.observe, amb, h, c);
    if ending.Ended? {
      RunningCloses(c1.log, hooks, hook);
      WatchedLog(host, node.observe, amb, ending, c1);
    }
  }

  lemma {:induction false} WatchedLog(host: Host, hook: Callback, amb: Ambient, ending: Ending, c: Course)
    requires ending.Ended?
    ensures var (ended, c') := Watched(host, hook, amb, ending, c); ended.Ended? && c'.log == c.log + [Ran(hook, amb)]
  {
  }

  lemma {:induction false} EnteringOpens(log: seq<Event>, hooks: seq<(Callback, Ambient)>, hook: (Callback, Ambient))
    requires Nest(log) == Open(hooks)
    ensures Nest(log + [Entered(hook.0, hook.1)]) == Open(hooks + [hook])
  {
  }

  lemma {:induction false} RunningCloses(log: seq<Event>, hooks: seq<(Callback, Ambient)>, hook: (Callback, Ambient))
    requires Nest(log) == Open(hooks + [hook])
    ensures Nest(log + [Ran(hook.0, hook.1)]) == Open(hooks)
  {
  }

  lemma {:induction false} SequencedHooksNest(host: Host, node: Node, amb: Ambient, h: nat, c: Course)
    requires (node.Bind? || node.Recover?) && Nest(c.log).Open?
    ensures var (ending, c') := BigStep(host, node, amb, h, c);
            Nests(c, ending, c')
    decreases c.gas, node, 0
  {
    HooksNest(host, node.source, amb, h + 1, c.Pushed(h + 1));
    var (ending, c1) := BigStep(host, node.source, amb, h + 1, c.Pushed(h + 1));
    if node.Bind? {
      BindIsContinued(host, node.source, node.continueWith, amb, h, c);
      if ending.Ended? {
        ContinuedNests(host, node.source, node.continueWith, amb, h, ending, c1);
      }
    } else {
      RecoverIsHandled(host, node.source, node.handle, amb, h, c);
      if ending.Ended? {
        HandledNests(host, node.source, node.handle, amb, h, ending, c1);
      }
    }
  }

  lemma {:induction false} ContinuedNests(host: Host, after: Node, f: Callback, amb: Ambient, h: nat, ending: Ending, c: Course)
    requires ending.Ended? && Nest(c.log).Open?
    ensures var (ended, c') := Continued(host, f, amb, h, ending, c); Nests(c, ended, c')
    decreases c.gas, after
  {
    if ending.exit.Success? && c.gas > 0 {
      var (answer, w) := host.continueWith(f, ending.exit.value, c.world);
      if answer.Gives? {
        HooksNest(host, answer.value, amb, h, c.At(w).Spent());
      }
    }
  }

  lemma {:induction false} HandledNests(host: Host, after: Node, f: Callback, amb: Ambient, h: nat, ending: Ending, c: Course)
    requires ending.Ended? && Nest(c.log).Open?
    ensures var (ended, c') := Handled(host, f, amb, h, ending, c); Nests(c, ended, c')
    decreases c.gas, after
  {
    if !ending.exit.Success? && c.gas > 0 {
      var (answer, w) := host.handle(f, ending.exit.cause, c.world);
      if answer.Gives? {
        HooksNest(host, answer.value, amb, h, c.At(w).Spent());
      }
    }
  }

  lemma {:induction false} PollingNests(log: seq<Event>, context: Context, cancelled: bool)
    requires Nest(log).Open?
    ensures Nest(log + [Polled(context, cancelled)]) == Nest(log)
  {
    assert (log + [Polled(context, cancelled)])[..|log|] == log;
  }

  lemma {:induction false} StartingNests(log: seq<Event>, leaf: Callback, amb: Ambient)
    requires Nest(log).Open?
    ensures Nest(log + [Polled(amb.context, false)] + [Started(leaf, amb)]) == Nest(log)
  {
    var polled := log + [Polled(amb.context, false)];
    PollingNests(log, amb.context, false);
    assert (polled + [Started(leaf, amb)])[..|polled|] == polled;
  }

  lemma {:induction false} SettledNest(host: Host, node: Node, amb: Ambient, c: Course)
    requires Nest(c.log).Open?
    ensures Nest(SettleLeaf(host, node, amb, c).1.log) == Nest(c.log)
  {
    var cancelled := host.poll(amb.context, c.world).0 != [];
    PollingNests(c.log, amb.context, cancelled);
    if node.Eval? && !cancelled {
      StartingNests(c.log, node.leaf, amb);
    }
  }

  lemma {:induction false} DerivedHooksNest(host: Host, node: Node, amb: Ambient, h: nat, c: Course)
    requires node.WithEnvironment? || node.WithState? || node.WithContext?
    requires Nest(c.log).Open?
    ensures var (ending, c') := BigStep(host, node, amb, h, c);
            Nests(c, ending, c')
    decreases c.gas, node, 0
  {
    var (answer, c1) := Derive(host, node, amb, c.Pushed(h + 1));
    if answer.Gives? {
      HooksNest(host, node.source, answer.value, h + 1, c1);
    }
  }

  function Count(log: seq<Event>, event: Event): nat {
    if log == [] then 0
    else Count(log[..|log| - 1], event) + (if log[|log| - 1] == event then 1 else 0)
  }

  /** In a log that nests, a hook has run as often as it was entered, but for the ones still
      open. */
  lemma {:induction false} RanAsOftenAsEntered(log: seq<Event>, hook: Callback, amb: Ambient)
    requires Nest(log).Open?
    ensures Count(log, Entered(hook, amb)) == Count(log, Ran(hook, amb)) + multiset(Nest(log).hooks)[(hook, amb)]
  {
    if log != [] {
      var before, last := log[..|log| - 1], log[|log| - 1];
      RanAsOftenAsEntered(before, hook, amb);
      var hooks := Nest(before).hooks;
      match last
      case Entered(entered, under) => assert Nest(log).hooks == hooks + [(entered, under)];
      case Ran(_, _) => LastOut(hooks, (hook, amb));
      case _ => assert Nest(log) == Nest(before);
    }
  }

  lemma {:induction false} LastOut(hooks: seq<(Callback, Ambient)>, hook: (Callback, Ambient))
    requires hooks != []
    ensures multiset(hooks)[hook] == multiset(hooks[..|hooks| - 1])[hook] + if hooks[|hooks| - 1] == hook then 1 else 0
  {
    assert hooks == hooks[..|hooks| - 1] + [hooks[|hooks| - 1]];
  }

  // Stack use -----------------------------------------------------------------------------

  /** Running `source` anywhere needs at most `bound` frames above the ones already there. */
  ghost predicate Shallow(host: Host, source: Node, bound: nat) {
    forall amb, h: nat, c: Course ::
      BigStep(host, source, amb, h, c).1.peak <= c.Pushed(h + bound).peak
  }

  /** Programs whose every successor is one of them again. Only what they sequence after is
      bounded. */
  ghost predicate Iterates(host: Host, family: Node -> bool, bound: nat) {
    forall node: Node | family(node) && !Shallow(host, node, bound) ::
      match node
      case Succeed(_) => true
      case Fail(_) => true
      case Eval(_) => true
      case Suspend(create) =>
        forall amb, w :: var answer := host.create(create, amb, w).0; answer.Gives? ==> family(answer.value)
      case Transform(source, _) => Shallow(host, source, bound)
      case Bind(source, f) =>
        && Shallow(host, source, bound)
        && forall v, w :: var answer := host.continueWith(f, v, w).0; answer.Gives? ==> family(answer.value)
      case Recover(source, f) =>
        && Shallow(host, source, bound)
        && forall cause, w :: var answer := host.handle(f, cause, w).0; answer.Gives? ==> family(answer.value)
      case _ => false
  }

  /** The stack such a program needs does not depend on how often it goes round: each round
      starts on the frames the first one started on. */
  lemma {:induction false} IterationNeedsNoStack(host: Host, family: Node -> bool, bound: nat, node: Node, amb: Ambient, h: nat, c: Course)
    requires Iterates(host, family, bound) && family(node)
    ensures BigStep(host, node, amb, h, c).1.peak <= c.Pushed(h + 1 + bound).peak
    decreases c.gas, node
  {
    if Shallow(host, node, bound) {
      assert BigStep(host, node, amb, h, c).1.peak <= c.Pushed(h + bound).peak;
      return;
    }
    match node
    case Transform(source, _) =>
      assert BigStep(host, source, amb, h + 1, c.Pushed(h + 1)).1.peak <= c.Pushed(h + 1).Pushed(h + 1 + bound).peak;
    case Bind(source, f) =>
      var (ending, c1) := BigStep(host, source, amb, h + 1, c.Pushed(h + 1));
      assert c1.peak <= c.Pushed(h + 1).Pushed(h + 1 + bound).peak;
      if ending.Ended? && ending.exit.Success? && c1.gas > 0 {
        var (answer, w) := host.continueWith(f, ending.exit.value, c1.world);
        if answer.Gives? {
          IterationNeedsNoStack(host, family, bound, answer.value, amb, h, c1.At(w).Spent());
        }
      }
    case Recover(source, f) =>
      var (ending, c1) := BigStep(host, source, amb, h + 1, c.Pushed(h + 1));
      assert c1.peak <= c.Pushed(h + 1).Pushed(h + 1 + bound).peak;
      if ending.Ended? && !ending.exit.Success? && c1.gas > 0 {
        var (answer, w) := host.handle(f, ending.exit.cause, c1.world);
        if answer.Gives? {
          IterationNeedsNoStack(host, family, bound, answer.value, amb, h, c1.At(w).Spent());
        }
      }
    case Suspend(create) =>
      if c.gas > 0 {
        var (answer, w) := host.create(create, amb, c.world);
        if answer.Gives? {
          IterationNeedsNoStack(host, family, bound, answer.value, amb, h, c.At(w).Spent());
        }
      }
    case _ =>
  }

  /** A retry: attempts at `fx`, each with a handler that suspends the decision about its cause. A
      decision ends the retry with an effect of its own, or sleeps and then attempts again. */
  ghost predicate Retries(
      host: Host, fx: Node, handlers: Callback -> bool, decisions: Callback -> bool, onward: Callback -> bool, bound: nat)
  {
    && Shallow(host, fx, bound)
    && (forall f, cause, w | handlers(f) ::
          var answer := host.handle(f, cause, w).0; answer.Gives? ==> answer.value.Suspend? && decisions(answer.value.create))
    && (forall f, amb, w | decisions(f) ::
          var answer := host.create(f, amb, w).0;
          answer.Gives? ==>
            || Shallow(host, answer.value, bound)
            || (answer.value.Bind? && Shallow(host, answer.value.source, bound) && onward(answer.value.continueWith)))
    && (forall f, v, w | onward(f) ::
          var answer := host.continueWith(f, v, w).0;
          answer.Gives? ==> answer.value.Recover? && answer.value.source == fx && handlers(answer.value.handle))
  }

  /** However many attempts there are, they need the frames the effect, the sleep or the last effect
      needs, and one more. */
  lemma {:induction false} AttemptsNeedNoStack(
      host: Host, fx: Node, handlers: Callback -> bool, decisions: Callback -> bool, onward: Callback -> bool, bound: nat,
      handler: Callback, amb: Ambient, h: nat, c: Course)
    requires Retries(host, fx, handlers, decisions, onward, bound) && handlers(handler)
    ensures BigStep(host, Recover(fx, handler), amb, h, c).1.peak <= c.Pushed(h + 1 + bound).peak
  {
    var family := (node: Node) =>
      || Shallow(host, node, bound)
      || (node.Recover? && node.source == fx && handlers(node.handle))
      || (node.Suspend? && decisions(node.create))
      || (node.Bind? && Shallow(host, node.source, bound) && onward(node.continueWith));
    IterationNeedsNoStack(host, family, bound, Recover(fx, handler), amb, h, c);
  }

  /** A whole retry: suspended, with an observer of how it ends around the attempts. */
  lemma {:induction false} RetryingNeedsNoStack(
      host: Host, fx: Node, handlers: Callback -> bool, decisions: Callback -> bool, onward: Callback -> bool, bound: nat,
      start: Callback, amb: Ambient, h: nat, c: Course)
    requires Retries(host, fx, handlers, decisions, onward, bound)
    requires var answer := host.create(start, amb, c.world).0;
             answer.Gives? ==>
               && answer.value.OnExit? && answer.value.source.Recover?
               && answer.value.source.source == fx && handlers(answer.value.source.handle)
    ensures BigStep(host, Suspend(start), amb, h, c).1.peak <= c.Pushed(h + 2 + bound).peak
  {
    if c.gas > 0 {
      var (answer, w) := host.create(start, amb, c.world);
      if answer.Gives? {
        var attempts := answer.value.source;
        var entered := c.At(w).Spent().Pushed(h + 1).Logged(Entered(answer.value.observe, amb));
        AttemptsNeedNoStack(host, fx, handlers, decisions, onward, bound, attempts.handle, amb, h + 1, entered);
        var (ending, c1) := BigStep(host, attempts, amb, h + 1, entered);
        assert c1.peak <= entered.Pushed(h + 2 + bound).peak;
      }
    }
  }

  /** A fold over a stream: a pull, and then the answer or the same pull under the next state. */
  ghost predicate Folds(host: Host, pull: Node, folding: Callback -> bool) {
    forall f, v, w | folding(f) ::
      var answer := host.continueWith(f, v, w).0;
      answer.Gives? ==> answer.value.Succeed? || (answer.value.Bind? && answer.value.source == pull && folding(answer.value.continueWith))
  }

  /** However many chunks a stream has, folding it needs the frames one pull needs and one more. */
  lemma {:induction false} FoldingNeedsNoStack(
      host: Host, pull: Node, folding: Callback -> bool, bound: nat, start: Callback, amb: Ambient, h: nat, c: Course)
    requires Folds(host, pull, folding) && folding(start) && Shallow(host, pull, bound)
    ensures BigStep(host, Bind(pull, start), amb, h, c).1.peak <= c.Pushed(h + 1 + bound).peak
  {
    var family := (node: Node) => node.Succeed? || (node.Bind? && node.source == pull && folding(node.continueWith));
    IterationNeedsNoStack(host, family, bound, Bind(pull, start), amb, h, c);
  }

  /** What the code of a translated loop builds: a back edge, an awaited effect and what follows it,
      the last one mapped or returned as it stands, or an answer. */
  ghost predicate Emits(host: Host, backEdges: Callback -> bool, rests: Callback -> bool, bound: nat, node: Node) {
    || node.Succeed? || node.Fail?
    || (node.Suspend? && backEdges(node.create))
    || (node.Bind? && rests(node.continueWith) && Shallow(host, node.source, bound))
    || (node.Transform? && Shallow(host, node.source, bound))
    || Shallow(host, node, bound)
  }

  /** However often a translated loop goes round, it needs the frames its awaited effects need and
      one more. */
  lemma {:induction false} LoopingNeedsNoStack(
      host: Host, backEdges: Callback -> bool, rests: Callback -> bool, bound: nat, node: Node, amb: Ambient, h: nat, c: Course)
    requires Emits(host, backEdges, rests, bound, node)
    requires forall f, a, w | backEdges(f) :: var answer := host.create(f, a, w).0; answer.Gives? ==> Emits(host, backEdges, rests, bound, answer.value)
    requires forall f, v, w | rests(f) :: var answer := host.continueWith(f, v, w).0; answer.Gives? ==> Emits(host, backEdges, rests, bound, answer.value)
    ensures BigStep(host, node, amb, h, c).1.peak <= c.Pushed(h + 1 + bound).peak
  {
    var family := (node: Node) => Emits(host, backEdges, rests, bound, node);
    IterationNeedsNoStack(host, family, bound, node, amb, h, c);
  }
}
