/** The trampoline that evaluates erased instruction trees with a heap stack of continuation
    frames (effect/internal/runtime: node.go, interpret.go, interpret_guard.go), and the
    recursive semantics it computes. */
module Instructions {
  import opened Outcome
  import opened Wrappers

  type Context(!new, ==, 0)
  type State(!new, ==, 0)
  type Environment(!new, ==, 0)

  /** Everything a callback can read and change: the rest of the process and the clock. */
  type World(!new, ==, 0)

  /** A Go closure, known only by what the host says calling it does. */
  type Callback(!new, ==, 0)

  datatype Ambient = Ambient(context: Context, state: State, environment: Environment)

  datatype Node =
    | Succeed(value: Value)
    | Fail(cause: Cause)
    | Eval(leaf: Callback)
    | Suspend(create: Callback)
    | Transform(source: Node, apply: Callback)
    | Bind(source: Node, continueWith: Callback)
    | TransformCause(source: Node, rewrite: Callback)
    | Recover(source: Node, handle: Callback)
    | WithEnvironment(source: Node, adapt: Callback)
    | WithState(source: Node, deriveState: Callback)
    | WithContext(source: Node, deriveContext: Callback)
    | OnExit(source: Node, observe: Callback)
    | Unsupported

  /** What calling each kind of closure does. `Poll` reads a context's error, which anything
      running beside this interpreter may have set meanwhile. */
  datatype Host = Host(
    poll: (Context, World) -> (seq<Reason>, World),
    operation: State -> string,
    unsupported: Defect,
    evaluate: (Callback, Ambient, World) -> (Answer<Exit>, World),
    create: (Callback, Ambient, World) -> (Answer<Node>, World),
    apply: (Callback, Value, World) -> (Answer<Value>, World),
    continueWith: (Callback, Value, World) -> (Answer<Node>, World),
    rewrite: (Callback, Cause, World) -> (Answer<Cause>, World),
    handle: (Callback, Cause, World) -> (Answer<Node>, World),
    adapt: (Callback, Environment, World) -> (Answer<Environment>, World),
    deriveState: (Callback, State, World) -> (Answer<State>, World),
    deriveContext: (Callback, Context, World) -> (Answer<Context>, World),
    observe: (Callback, Ambient, Exit, World) -> (Answer<Exit>, World))

  /** What a run does that its exit does not show. */
  datatype Event =
    | Entered(hook: Callback, ambient: Ambient)
    | Ran(hook: Callback, ambient: Ambient)
    | Polled(context: Context, cancelled: bool)
    | Started(leaf: Callback, ambient: Ambient)

  /** The part of a run that is threaded through it. `gas` counts the programs callbacks may
      still build, so that runs which would go on for ever have a meaning; `peak` is the
      greatest number of pending frames so far. */
  datatype Course = Course(world: World, gas: nat, peak: nat, log: seq<Event>) {

    function At(world: World): Course {
      this.(world := world)
    }

    function Pushed(height: nat): Course {
      this.(peak := if peak < height then height else peak)
    }

    function Logged(event: Event): Course {
      this.(log := log + [event])
    }

    function Spent(): Course
      requires gas > 0
    {
      this.(gas := gas - 1)
    }
  }

  /** How a run ends; `Stopped` when it would need more gas. */
  datatype Ending = Ended(exit: Exit) | Stopped

  function Crash(defect: Defect): Exit {
    Failure(Died(defect, UNKNOWN))
  }

  /** A leaf instruction at the interruption checkpoint. */
  function SettleLeaf(host: Host, node: Node, amb: Ambient, c: Course): (r: (Ending, Course))
    ensures r.1.gas == c.gas && r.1.peak == c.peak && r.0.Ended?
  {
    var (reason, w) := host.poll(amb.context, c.world);
    var polled := c.At(w).Logged(Polled(amb.context, reason != []));
    if reason != [] then (Ended(Failure(Interrupted(reason[0], UNKNOWN))), polled)
    else match node
      case Succeed(v) => (Ended(Success(v)), polled)
      case Fail(cause) => (Ended(Failure(cause.WithOrigin(Origin("", host.operation(amb.state))))), polled)
      case Eval(leaf) =>
        var (answer, w') := host.evaluate(leaf, amb, polled.world);
        (Ended(if answer.Gives? then answer.value else Crash(answer.defect)),
         polled.Logged(Started(leaf, amb)).At(w'))
      case _ => (Ended(Crash(host.unsupported)), polled)
  }

  /** A hook that panics is appended to the exit it was observing. */
  function ObserveExit(host: Host, hook: Callback, amb: Ambient, exit: Exit, c: Course): (Exit, Course) {
    var (answer, w) := host.observe(hook, amb, exit, c.world);
    (if answer.Gives? then answer.value else Failure(exit.Cause().Then(Died(answer.defect, UNKNOWN))),
     c.At(w).Logged(Ran(hook, amb)))
  }

  /** The program a success continues with; an exit instead when the closure panics. */
  function Continue(host: Host, f: Callback, value: Value, c: Course): (Answer<Node>, Course) {
    var (answer, w) := host.continueWith(f, value, c.world);
    (answer, c.At(w))
  }

  /** The ambient state a derivation gives its source. */
  function Derive(host: Host, node: Node, amb: Ambient, c: Course): (Answer<Ambient>, Course)
    requires node.WithEnvironment? || node.WithState? || node.WithContext?
  {
    match node
    case WithEnvironment(_, f) =>
      var (answer, w) := host.adapt(f, amb.environment, c.world);
      (if answer.Gives? then Gives(amb.(environment := answer.value)) else Panics(answer.defect), c.At(w))
    case WithState(_, f) =>
      var (answer, w) := host.deriveState(f, amb.state, c.world);
      (if answer.Gives? then Gives(amb.(state := answer.value)) else Panics(answer.defect), c.At(w))
    case WithContext(_, f) =>
      var (answer, w) := host.deriveContext(f, amb.context, c.world);
      (if answer.Gives? then Gives(amb.(context := answer.value)) else Panics(answer.defect), c.At(w))
  }

  /** Recursive meaning of an instruction run with `height` frames already pending. */
  function BigStep(host: Host, node: Node, amb: Ambient, height: nat, c: Course): (r: (Ending, Course))
    ensures r.1.gas <= c.gas && c.peak <= r.1.peak
    decreases c.gas, node
  {
    match node
    case Transform(source, apply) =>
      var (ending, c1) := BigStep(host, source, amb, height + 1, c.Pushed(height + 1));
      if ending == Stopped || !ending.exit.Success? then (ending, c1)
      else
        var (answer, w) := host.apply(apply, ending.exit.value, c1.world);
        (Ended(if answer.Gives? then Success(answer.value) else Crash(answer.defect)), c1.At(w))
    case TransformCause(source, rewrite) =>
      var (ending, c1) := BigStep(host, source, amb, height + 1, c.Pushed(height + 1));
      if ending == Stopped || ending.exit.Success? then (ending, c1)
      else
        var (answer, w) := host.rewrite(rewrite, ending.exit.cause, c1.world);
        (Ended(if answer.Gives? then Failure(answer.value) else Crash(answer.defect)), c1.At(w))
    case Bind(source, f) =>
      var (ending, c1) := BigStep(host, source, amb, height + 1, c.Pushed(height + 1));
      if ending == Stopped || !ending.exit.Success? then (ending, c1)
      else if c1.gas == 0 then (Stopped, c1)
      else
        var (answer, w) := host.continueWith(f, ending.exit.value, c1.world);
        if answer.Panics? then (Ended(Crash(answer.defect)), c1.At(w).Spent())
        else BigStep(host, answer.value, amb, height, c1.At(w).Spent())
    case Recover(source, f) =>
      var (ending, c1) := BigStep(host, source, amb, height + 1, c.Pushed(height + 1));
      if ending == Stopped || ending.exit.Success? then (ending, c1)
      else if c1.gas == 0 then (Stopped, c1)
      else
        var (answer, w) := host.handle(f, ending.exit.cause, c1.world);
        if answer.Panics? then
          (Ended(Failure(ending.exit.cause.Then(Died(answer.defect, UNKNOWN)))), c1.At(w).Spent())
        else BigStep(host, answer.value, amb, height, c1.At(w).Spent())
    case OnExit(source, hook) =>
      var (ending, c1) :=
        BigStep(host, source, amb, height + 1, c.Pushed(height + 1).Logged(Entered(hook, amb)));
      if ending == Stopped then (ending, c1)
      else
        var (exit, c2) := ObserveExit(host, hook, amb, ending.exit, c1);
        (Ended(exit), c2)
    case WithEnvironment(source, _) =>
      var (answer, c1) := Derive(host, node, amb, c.Pushed(height + 1));
      if answer.Panics? then (Ended(Crash(answer.defect)), c1)
      else BigStep(host, source, answer.value, height + 1, c1)
    case WithState(source, _) =>
      var (answer, c1) := Derive(host, node, amb, c.Pushed(height + 1));
      if answer.Panics? then (Ended(Crash(answer.defect)), c1)
      else BigStep(host, source, answer.value, height + 1, c1)
    case WithContext(source, _) =>
      var (answer, c1) := Derive(host, node, amb, c.Pushed(height + 1));
      if answer.Panics? then (Ended(Crash(answer.defect)), c1)
      else BigStep(host, source, answer.value, height + 1, c1)
    case Suspend(create) =>
      if c.gas == 0 then (Stopped, c)
      else
        var (answer, w) := host.create(create, amb, c.world);
        if answer.Panics? then (Ended(Crash(answer.defect)), c.At(w).Spent())
        else BigStep(host, answer.value, amb, height, c.At(w).Spent())
    case _ => SettleLeaf(host, node, amb, c)
  }
}

module Interpreter {
  import opened Outcome
  import opened Wrappers
  import opened Instructions

  datatype Frame =
    | TransformFrame(apply: Callback)
    | BindFrame(continueWith: Callback)
    | TransformCauseFrame(rewrite: Callback)
    | RecoverFrame(handle: Callback)
    | EnvironmentFrame(environment: Environment)
    | StateFrame(state: State)
    | ContextFrame(context: Context)
    | ExitHookFrame(hook: Callback)

  /** The ambient state once this frame is popped. */
  function Undo(frame: Frame, amb: Ambient): Ambient {
    match frame
    case EnvironmentFrame(e) => amb.(environment := e)
    case StateFrame(s) => amb.(state := s)
    case ContextFrame(x) => amb.(context := x)
    case _ => amb
  }

  /** The ambient state once the frames above `height` are popped. */
  function Restored(frames: seq<Frame>, amb: Ambient, height: nat): Ambient
    decreases |frames|
  {
    if |frames| <= height then amb
    else Restored(frames[..|frames| - 1], Undo(frames[|frames| - 1], amb), height)
  }

  /** `frames` and `amb` only add to `below` and what it would restore at any height. */
  ghost predicate Extends(frames: seq<Frame>, amb: Ambient, below: seq<Frame>, ambBelow: Ambient) {
    && below <= frames
    && forall height: nat :: height <= |below| ==>
         Restored(frames, amb, height) == Restored(below, ambBelow, height)
  }

  /** Recursive meaning of the pending frames applied to how the code above them ended. */
  function Unwind(host: Host, frames: seq<Frame>, ending: Ending, amb: Ambient, c: Course): (r: (Ending, Course))
    decreases c.gas, |frames|
  {
    if ending == Stopped || frames == [] then (ending, c)
    else
      var top, rest, exit := frames[|frames| - 1], frames[..|frames| - 1], ending.exit;
      match top
      case EnvironmentFrame(_) => Unwind(host, rest, ending, Undo(top, amb), c)
      case StateFrame(_) => Unwind(host, rest, ending, Undo(top, amb), c)
      case ContextFrame(_) => Unwind(host, rest, ending, Undo(top, amb), c)
      case TransformFrame(apply) =>
        if !exit.Success? then Unwind(host, rest, ending, amb, c)
        else
          var (answer, w) := host.apply(apply, exit.value, c.world);
          Unwind(host, rest, Ended(if answer.Gives? then Success(answer.value) else Crash(answer.defect)), amb, c.At(w))
      case TransformCauseFrame(rewrite) =>
        if exit.Success? then Unwind(host, rest, ending, amb, c)
        else
          var (answer, w) := host.rewrite(rewrite, exit.cause, c.world);
          Unwind(host, rest, Ended(if answer.Gives? then Failure(answer.value) else Crash(answer.defect)), amb, c.At(w))
      case ExitHookFrame(hook) =>
        var (exit', c') := ObserveExit(host, hook, amb, exit, c);
        Unwind(host, rest, Ended(exit'), amb, c')
      case BindFrame(f) =>
        if !exit.Success? then Unwind(host, rest, ending, amb, c)
        else if c.gas == 0 then (Stopped, c)
        else
          var (answer, w) := host.continueWith(f, exit.value, c.world);
          if answer.Panics? then Unwind(host, rest, Ended(Crash(answer.defect)), amb, c.At(w).Spent())
          else
            var (next, c') := BigStep(host, answer.value, amb, |rest|, c.At(w).Spent());
            Unwind(host, rest, next, amb, c')
      case RecoverFrame(f) =>
        if exit.Success? then Unwind(host, rest, ending, amb, c)
        else if c.gas == 0 then (Stopped, c)
        else
          var (answer, w) := host.handle(f, exit.cause, c.world);
          if answer.Panics? then
            Unwind(host, rest, Ended(Failure(exit.cause.Then(Died(answer.defect, UNKNOWN)))), amb, c.At(w).Spent())
          else
            var (next, c') := BigStep(host, answer.value, amb, |rest|, c.At(w).Spent());
            Unwind(host, rest, next, amb, c')
  }

  /** Running a program and then the frames below it. */
  function Onward(host: Host, frames: seq<Frame>, node: Node, amb: Ambient, c: Course): (Ending, Course) {
    var (ending, c') := BigStep(host, node, amb, |frames|, c);
    Unwind(host, frames, ending, amb, c')
  }

  /** The frame a composition instruction leaves behind. */
  function FrameOf(node: Node, amb: Ambient): Frame
    requires !node.Succeed? && !node.Fail? && !node.Eval? && !node.Suspend? && !node.Unsupported?
  {
    match node
    case Transform(_, f) => TransformFrame(f)
    case Bind(_, f) => BindFrame(f)
    case TransformCause(_, f) => TransformCauseFrame(f)
    case Recover(_, f) => RecoverFrame(f)
    case OnExit(_, f) => ExitHookFrame(f)
    case WithEnvironment(_, _) => EnvironmentFrame(amb.environment)
    case WithState(_, _) => StateFrame(amb.state)
    case WithContext(_, _) => ContextFrame(amb.context)
  }

  lemma Popped(frames: seq<Frame>, frame: Frame)
    ensures (frames + [frame])[..|frames|] == frames
  {
  }

  /** A level that leaves the ambient state alone descends into its source with one more frame. */
  lemma DescendKeepsMeaning(host: Host, frames: seq<Frame>, node: Node, amb: Ambient, c: Course)
    requires node.Transform? || node.Bind? || node.TransformCause? || node.Recover?
    ensures Onward(host, frames, node, amb, c)
         == Onward(host, frames + [FrameOf(node, amb)], node.source, amb, c.Pushed(|frames| + 1))
  {
    Popped(frames, FrameOf(node, amb));
  }

  lemma HookKeepsMeaning(host: Host, frames: seq<Frame>, node: Node, amb: Ambient, c: Course)
    requires node.OnExit?
    ensures Onward(host, frames, node, amb, c)
         == Onward(host, frames + [FrameOf(node, amb)], node.source, amb, c.Pushed(|frames| + 1).Logged(Entered(node.observe, amb)))
  {
    Popped(frames, FrameOf(node, amb));
  }

  /** A frame that saves part of the ambient state is undone before anything below it runs. */
  lemma SaveKeepsMeaning(host: Host, frames: seq<Frame>, save: Frame, ending: Ending, above: Ambient, c: Course)
    requires save.EnvironmentFrame? || save.StateFrame? || save.ContextFrame?
    ensures Unwind(host, frames + [save], ending, above, c) == Unwind(host, frames, ending, Undo(save, above), c)
  {
    Popped(frames, save);
  }

  /** Deriving an ambient value under a saved one, or failing to. */
  lemma DeriveKeepsMeaning(host: Host, frames: seq<Frame>, node: Node, amb: Ambient, c: Course)
    requires node.WithEnvironment? || node.WithState? || node.WithContext?
    ensures var save := FrameOf(node, amb);
            var derived := Derive(host, node, amb, c.Pushed(|frames| + 1));
            Onward(host, frames, node, amb, c)
            == if derived.0.Panics?
               then Unwind(host, frames + [save], Ended(Crash(derived.0.defect)), amb, derived.1)
               else Onward(host, frames + [save], node.source, derived.0.value, derived.1)
    ensures Derive(host, node, amb, c).0.Gives? ==> Undo(FrameOf(node, amb), Derive(host, node, amb, c).0.value) == amb
  {
    var save := FrameOf(node, amb);
    var (answer, c1) := Derive(host, node, amb, c.Pushed(|frames| + 1));
    if answer.Panics? {
      SaveKeepsMeaning(host, frames, save, Ended(Crash(answer.defect)), amb, c1);
    } else {
      assert Undo(save, answer.value) == amb;
      var (ending, c2) := BigStep(host, node.source, answer.value, |frames| + 1, c1);
      SaveKeepsMeaning(host, frames, save, ending, answer.value, c2);
    }
  }

  lemma PushExtends(frames: seq<Frame>, amb: Ambient, below: seq<Frame>, ambBelow: Ambient, frame: Frame, above: Ambient)
    requires Extends(frames, amb, below, ambBelow)
    requires Undo(frame, above) == amb
    ensures Extends(frames + [frame], above, below, ambBelow)
  {
    Popped(frames, frame);
  }

  class Machine {
    const host: Host
    var context: Context
    var state: State
    var environment: Environment
    var frames: seq<Frame>
    var course: Course

    constructor (host: Host, ambient: Ambient, course: Course)
      ensures this.host == host && Interpretation() == ambient && frames == [] && this.course == course
    {
      this.host := host;
      this.context, this.state, this.environment := ambient.context, ambient.state, ambient.environment;
      this.frames := [];
      this.course := course;
    }

    /** The ambient state handed to a callback. */
    function Interpretation(): Ambient
      reads this
    {
      Ambient(context, state, environment)
    }

    /** What is left to happen if `node` runs next. */
    function Meaning(node: Node): (Ending, Course)
      reads this
    {
      Onward(host, frames, node, Interpretation(), course)
    }

    method Push(frame: Frame)
      modifies this`frames, this`course
      ensures frames == old(frames) + [frame]
      ensures course == old(course).Pushed(|frames|)
    {
      frames := frames + [frame];
      course := course.Pushed(|frames|);
    }

    /** Evaluates a program to its end, on a stack of frames instead of calls. It computes what
        the recursive semantics says, and leaves the ambient state as it found it. */
    method Run(node: Node) returns (ending: Ending)
      requires frames == []
      modifies this
      ensures (ending, course) == BigStep(host, node, old(Interpretation()), 0, old(course))
      ensures ending.Ended? ==> frames == [] && Interpretation() == old(Interpretation())
    {
      var current := node;
      ghost var ambient := Interpretation();
      ghost var meaning := Meaning(node);
      while true
        invariant Meaning(current) == meaning
        invariant Restored(frames, Interpretation(), 0) == ambient
        decreases course.gas
      {
        ending := Evaluate(current);
        if ending.Stopped? {
          return;
        }
        var next, result, pending := Resume(ending.exit);
        if !pending {
          ending := result;
          return;
        }
        current := next;
      }
    }

    /** Descends through composition instructions, one frame a level, until one settles. The
        frames below stay as they were and would restore what they would have restored. */
    method Evaluate(node: Node) returns (ending: Ending)
      modifies this
      ensures Unwind(host, frames, ending, Interpretation(), course) == old(Meaning(node))
      ensures Extends(frames, Interpretation(), old(frames), old(Interpretation()))
      ensures course.gas <= old(course.gas)
    {
      var current := node;
      while true
        invariant Meaning(current) == old(Meaning(node))
        invariant Extends(frames, Interpretation(), old(frames), old(Interpretation()))
        invariant course.gas <= old(course.gas)
        decreases course.gas, current
      {
        match current {
          case Transform(source, _) =>
            Descend(current, old(frames), old(Interpretation()));
            current := source;
          case Bind(source, _) =>
            Descend(current, old(frames), old(Interpretation()));
            current := source;
          case TransformCause(source, _) =>
            Descend(current, old(frames), old(Interpretation()));
            current := source;
          case Recover(source, _) =>
            Descend(current, old(frames), old(Interpretation()));
            current := source;
          case OnExit(source, _) =>
            Descend(current, old(frames), old(Interpretation()));
            current := source;
          case WithEnvironment(source, _) =>
            ending := SaveAndDerive(current, old(frames), old(Interpretation()));
            if ending.Ended? {
              return;
            }
            current := source;
          case WithContext(source, _) =>
            ending := SaveAndDerive(current, old(frames), old(Interpretation()));
            if ending.Ended? {
              return;
            }
            current := source;
          case WithState(source, _) =>
            ending := SaveAndDerive(current, old(frames), old(Interpretation()));
            if ending.Ended? {
              return;
            }
            current := source;
          case Suspend(create) =>
            if course.gas == 0 {
              return Stopped;
            }
            var (answer, w) := host.create(create, Interpretation(), course.world);
            course := course.At(w).Spent();
            if answer.Panics? {
              return Ended(Crash(answer.defect));
            }
            current := answer.value;
          case _ =>
            ending := Settle(current);
            return;
        }
      }
    }

    /** Pushes the frame of an instruction that leaves the ambient state alone. */
    method Descend(node: Node, ghost below: seq<Frame>, ghost ambient: Ambient)
      requires node.Transform? || node.Bind? || node.TransformCause? || node.Recover? || node.OnExit?
      requires Extends(frames, Interpretation(), below, ambient)
      modifies this`frames, this`course
      ensures Extends(frames, Interpretation(), below, ambient)
      ensures frames == old(frames) + [FrameOf(node, Interpretation())]
      ensures Meaning(node.source) == old(Meaning(node)) && course.gas == old(course.gas)
    {
      var amb := Interpretation();
      if node.OnExit? {
        HookKeepsMeaning(host, frames, node, amb, course);
      } else {
        DescendKeepsMeaning(host, frames, node, amb, course);
      }
      PushExtends(frames, amb, below, ambient, FrameOf(node, amb), amb);
      Push(FrameOf(node, amb));
      if node.OnExit? {
        course := course.Logged(Entered(node.observe, amb));
      }
    }

    /** Saves the ambient value an instruction replaces and derives the one its source runs
        with. The save is already pending when the derivation fails. */
    method SaveAndDerive(node: Node, ghost below: seq<Frame>, ghost ambient: Ambient) returns (failed: Ending)
      requires node.WithEnvironment? || node.WithState? || node.WithContext?
      requires Extends(frames, Interpretation(), below, ambient)
      modifies this
      ensures Extends(frames, Interpretation(), below, ambient)
      ensures failed.Ended? ==> Unwind(host, frames, failed, Interpretation(), course) == old(Meaning(node))
      ensures failed.Stopped? ==> Meaning(node.source) == old(Meaning(node))
      ensures course.gas == old(course.gas)
    {
      var amb := Interpretation();
      var save := FrameOf(node, amb);
      DeriveKeepsMeaning(host, frames, node, amb, course);
      Push(save);
      var (answer, derived) := Derive(host, node, amb, course);
      course := derived;
      PushExtends(old(frames), amb, below, ambient, save, if answer.Gives? then answer.value else amb);
      if answer.Panics? {
        return Ended(Crash(answer.defect));
      }
      context, state, environment := answer.value.context, answer.value.state, answer.value.environment;
      failed := Stopped;
    }

    /** An instruction that composes nothing, behind the interruption checkpoint. */
    method Settle(node: Node) returns (ending: Ending)
      modifies this`course
      ensures (ending, course) == SettleLeaf(host, node, Interpretation(), old(course))
    {
      var (reason, w) := host.poll(context, course.world);
      course := course.At(w).Logged(Polled(context, reason != []));
      if reason != [] {
        return Ended(Failure(Interrupted(reason[0], UNKNOWN)));
      }
      match node {
        case Succeed(v) => return Ended(Success(v));
        case Fail(cause) => return Ended(Failure(cause.WithOrigin(Origin("", host.operation(state)))));
        case Eval(leaf) =>
          var (answer, w') := host.evaluate(leaf, Interpretation(), course.world);
          course := course.Logged(Started(leaf, Interpretation())).At(w');
          return Ended(if answer.Gives? then answer.value else Crash(answer.defect));
        case _ => return Ended(Crash(host.unsupported));
      }
    }

    /** Applies pending frames to an exit until one of them yields another program. That frame
        is gone by then: the program starts strictly lower than the exit arrived, under the
        ambient state that height was reached with. */
    method Resume(exit: Exit) returns (next: Node, result: Ending, pending: bool)
      modifies this
      ensures pending ==>
        && Meaning(next) == old(Unwind(host, frames, Ended(exit), Interpretation(), course))
        && course.gas < old(course.gas)
        && |frames| < |old(frames)|
      ensures !pending ==>
        && (result, course) == old(Unwind(host, frames, Ended(exit), Interpretation(), course))
        && course.gas <= old(course.gas)
        && (result.Ended? ==> frames == [])
      ensures Extends(old(frames), old(Interpretation()), frames, Interpretation())
    {
      next, result, pending := Unsupported, Ended(exit), false;
      var current := exit;
      while frames != []
        invariant Unwind(host, frames, Ended(current), Interpretation(), course)
               == old(Unwind(host, frames, Ended(exit), Interpretation(), course))
        invariant Extends(old(frames), old(Interpretation()), frames, Interpretation())
        invariant course.gas <= old(course.gas)
        decreases |frames|
      {
        var top := frames[|frames| - 1];
        frames := frames[..|frames| - 1];
        match top {
          case EnvironmentFrame(e) => environment := e;
          case StateFrame(s) => state := s;
          case ContextFrame(x) => context := x;
          case TransformFrame(apply) =>
            if current.Success? {
              var (answer, w) := host.apply(apply, current.value, course.world);
              course := course.At(w);
              current := if answer.Gives? then Success(answer.value) else Crash(answer.defect);
            }
          case TransformCauseFrame(rewrite) =>
            if !current.Success? {
              var (answer, w) := host.rewrite(rewrite, current.cause, course.world);
              course := course.At(w);
              current := if answer.Gives? then Failure(answer.value) else Crash(answer.defect);
            }
          case ExitHookFrame(hook) =>
            var (observed, c) := ObserveExit(host, hook, Interpretation(), current, course);
            current, course := observed, c;
          case BindFrame(f) =>
            if current.Success? {
              if course.gas == 0 {
                return next, Stopped, false;
              }
              var (answer, w) := host.continueWith(f, current.value, course.world);
              course := course.At(w).Spent();
              if answer.Gives? {
                return answer.value, Ended(current), true;
              }
              current := Crash(answer.defect);
            }
          case RecoverFrame(f) =>
            if !current.Success? {
              if course.gas == 0 {
                return next, Stopped, false;
              }
              var (answer, w) := host.handle(f, current.cause, course.world);
              course := course.At(w).Spent();
              if answer.Gives? {
                return answer.value, Ended(current), true;
              }
              current := Failure(current.cause.Then(Died(answer.defect, UNKNOWN)));
            }
        }
      }
      result := Ended(current);
    }
  }
}
