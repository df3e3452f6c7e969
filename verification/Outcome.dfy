/** Termination causes: the tree an unsuccessful run carries, how it is composed, and the
    explicit-stack traversals that inspect it (effect/internal/outcome). */
module Outcome {

  /** A value whose dynamic type the runtime never inspects. */
  type Value(!new, ==, 0)

  /** A Go error used as the reason of a cancellation. */
  type Reason(!new, ==, 0)

  datatype Defect = Defect(value: Value, stack: string)

  /** Where a failure came from; an unknown half is the empty string. */
  datatype Origin = Origin(source: string, operation: string) {

    predicate IsKnown() {
      source != "" || operation != ""
    }

    function FillFrom(other: Origin): Origin {
      Origin(if source == "" then other.source else source,
             if operation == "" then other.operation else operation)
    }
  }

  const UNKNOWN := Origin("", "")

  /** Both children of a composition are there, as in every cause the composing operations build. */
  datatype Cause =
    | Empty
    | Failed(failure: Value, origin: Origin)
    | Died(defect: Defect, origin: Origin)
    | Interrupted(reason: Reason, origin: Origin)
    | ThenNode(left: Cause, right: Cause)
    | BothNode(left: Cause, right: Cause)
  {
    predicate IsComposite() {
      ThenNode? || BothNode?
    }

    function Then(that: Cause): Cause {
      if Empty? then that else if that.Empty? then this else ThenNode(this, that)
    }

    function Both(that: Cause): Cause {
      if Empty? then that else if that.Empty? then this else BothNode(this, that)
    }

    /** Number of tree nodes, the measure every worklist below consumes. */
    function Size(): nat {
      if IsComposite() then 1 + left.Size() + right.Size() else 1
    }

    /** Leaves from left to right, the identity excluded. */
    function Leaves(): (leaves: seq<Cause>)
      ensures forall i :: 0 <= i < |leaves| ==> !leaves[i].IsComposite() && !leaves[i].Empty?
    {
      if IsComposite() then left.Leaves() + right.Leaves()
      else if Empty? then []
      else [this]
    }

    /** Every node before its children and every left subtree before the right one. */
    function Preorder(): seq<Cause> {
      if IsComposite() then [this] + left.Preorder() + right.Preorder() else [this]
    }

    /** No composition holds the identity as a child. */
    predicate Solid() {
      IsComposite() ==> !left.Empty? && !right.Empty? && left.Solid() && right.Solid()
    }

    function WithOrigin(from: Origin): Cause {
      if !from.IsKnown() then this
      else match this
        case Empty => this
        case Failed(f, o) => Failed(f, o.FillFrom(from))
        case Died(d, o) => Died(d, o.FillFrom(from))
        case Interrupted(r, o) => Interrupted(r, o.FillFrom(from))
        case ThenNode(l, r) => ThenNode(l.WithOrigin(from), r.WithOrigin(from))
        case BothNode(l, r) => BothNode(l.WithOrigin(from), r.WithOrigin(from))
    }
  }

  /** The erased result of one run. The zero exit is a failure with the empty cause. */
  datatype Exit = Success(value: Value) | Failure(cause: Cause) {

    /** The termination cause, empty for a success. */
    function Cause(): Cause {
      if Success? then Empty else cause
    }
  }

  // Composition ---------------------------------------------------------------------------

  /** Composing keeps exactly the leaves of both operands in order, never stores an identity
      child, and is the identity only of two identities. */
  lemma ComposeKeepsLeaves(a: Cause, b: Cause)
    ensures a.Then(b).Leaves() == a.Leaves() + b.Leaves()
    ensures a.Both(b).Leaves() == a.Leaves() + b.Leaves()
    ensures a.Solid() && b.Solid() ==> a.Then(b).Solid() && a.Both(b).Solid()
    ensures a.Then(b).Empty? <==> a.Empty? && b.Empty?
    ensures a.Both(b).Empty? <==> a.Empty? && b.Empty?
  {
  }

  /** A solid cause is the identity exactly when it has no leaf. */
  lemma {:induction false} SolidHasLeaf(c: Cause)
    requires c.Solid()
    ensures c.Empty? <==> c.Leaves() == []
  {
    if c.IsComposite() {
      SolidHasLeaf(c.left);
      SolidHasLeaf(c.right);
    }
  }

  /** Whoever records first wins, half by half: stamping with one origin and then another is
      stamping once with the first completed by the second. */
  lemma {:induction false} FirstOriginWins(c: Cause, first: Origin, second: Origin)
    ensures c.WithOrigin(first).WithOrigin(second) == c.WithOrigin(first.FillFrom(second))
    ensures c.WithOrigin(first).Solid() == c.Solid()
    ensures c.WithOrigin(first).Empty? == c.Empty?
  {
    if c.IsComposite() {
      FirstOriginWins(c.left, first, second);
      FirstOriginWins(c.right, first, second);
    }
  }

  // Folding -------------------------------------------------------------------------------

  datatype Folder<!A> = Folder(
    empty: () -> A,
    failure: Value -> A,
    defect: Defect -> A,
    interruption: Reason -> A,
    combineThen: (A, A) -> A,
    combineBoth: (A, A) -> A)

  function FoldLeaf<A>(folder: Folder<A>, leaf: Cause): A {
    match leaf
    case Failed(f, _) => folder.failure(f)
    case Died(d, _) => folder.defect(d)
    case Interrupted(r, _) => folder.interruption(r)
    case _ => folder.empty()
  }

  function CombineFolds<A>(folder: Folder<A>, node: Cause, l: A, r: A): A {
    if node.ThenNode? then folder.combineThen(l, r) else folder.combineBoth(l, r)
  }

  /** The structurally recursive meaning of a fold. */
  function Fold<A>(c: Cause, folder: Folder<A>): A {
    if c.IsComposite() then CombineFolds(folder, c, Fold(c.left, folder), Fold(c.right, folder))
    else FoldLeaf(folder, c)
  }

  datatype FoldFrame = Evaluate(cause: Cause) | Combine(cause: Cause)

  /** Whether running the frames from the top of the stack, starting with `held` results,
      always finds its two operands and ends with exactly one result. */
  ghost predicate Settles(frames: seq<FoldFrame>, held: nat)
    decreases |frames|
  {
    if frames == [] then held == 1
    else
      var top, rest := frames[|frames| - 1], frames[..|frames| - 1];
      if top.Evaluate? then Settles(rest, held + 1) else held >= 2 && Settles(rest, held - 1)
  }

  /** What the pending frames make of the results held so far. */
  ghost function Drain<A>(frames: seq<FoldFrame>, results: seq<A>, folder: Folder<A>): A
    requires Settles(frames, |results|)
    decreases |frames|
  {
    if frames == [] then results[0]
    else
      var top, rest := frames[|frames| - 1], frames[..|frames| - 1];
      if top.Evaluate? then Drain(rest, results + [Fold(top.cause, folder)], folder)
      else
        var n := |results|;
        Drain(rest, results[..n - 2] + [CombineFolds(folder, top.cause, results[n - 2], results[n - 1])], folder)
  }

  ghost function FramesWeight(frames: seq<FoldFrame>): nat {
    if frames == [] then 0
    else
      var top := frames[|frames| - 1];
      FramesWeight(frames[..|frames| - 1]) + (if top.Evaluate? then 2 * top.cause.Size() else 1)
  }

  /** Expanding a composition into a combine frame over its two children changes neither the
      answer nor that there is one, and makes the worklist lighter. */
  lemma ExpandFrame<A>(rest: seq<FoldFrame>, c: Cause, results: seq<A>, folder: Folder<A>)
    requires c.IsComposite()
    requires Settles(rest + [Evaluate(c)], |results|)
    ensures Settles(rest + [Combine(c), Evaluate(c.right), Evaluate(c.left)], |results|)
    ensures Drain(rest + [Combine(c), Evaluate(c.right), Evaluate(c.left)], results, folder)
         == Drain(rest + [Evaluate(c)], results, folder)
    ensures FramesWeight(rest + [Combine(c), Evaluate(c.right), Evaluate(c.left)])
          < FramesWeight(rest + [Evaluate(c)])
  {
    var l, r := Fold(c.left, folder), Fold(c.right, folder);
    var f0 := rest + [Evaluate(c)];
    var f1 := rest + [Combine(c)];
    var f2 := f1 + [Evaluate(c.right)];
    var f3 := f2 + [Evaluate(c.left)];
    assert f3 == rest + [Combine(c), Evaluate(c.right), Evaluate(c.left)];
    assert f0[..|rest|] == rest && f1[..|rest|] == rest;
    assert f2[..|rest| + 1] == f1 && f3[..|rest| + 2] == f2;
    var twice := results + [l] + [r];
    assert twice[..|twice| - 2] == results;
    assert Drain(f3, results, folder) == Drain(f2, results + [l], folder);
    assert Drain(f2, results + [l], folder) == Drain(f1, twice, folder);
    assert FramesWeight(f1) == FramesWeight(rest) + 1;
    assert FramesWeight(f3) == FramesWeight(f2) + 2 * c.left.Size();
  }

  /** Eliminates a cause with an explicit stack of frames and one of results. */
  method FoldCause<A>(root: Cause, folder: Folder<A>) returns (answer: A)
    ensures answer == Fold(root, folder)
  {
    var frames := [Evaluate(root)];
    var results: seq<A> := [];
    assert Settles([], 1);
    assert frames[..0] == [];
    while frames != []
      invariant Settles(frames, |results|)
      invariant Drain(frames, results, folder) == Fold(root, folder)
      decreases FramesWeight(frames)
    {
      var current := frames[|frames| - 1];
      var before := frames;
      frames := frames[..|frames| - 1];
      assert before == frames + [current];
      if current.Combine? {
        var n := |results|;
        var l, r := results[n - 2], results[n - 1];
        results := results[..n - 2];
        results := results + [CombineFolds(folder, current.cause, l, r)];
      } else if current.cause.IsComposite() {
        ExpandFrame(frames, current.cause, results, folder);
        frames := frames + [Combine(current.cause), Evaluate(current.cause.right), Evaluate(current.cause.left)];
      } else {
        results := results + [FoldLeaf(folder, current.cause)];
      }
    }
    answer := results[0];
  }

  // Visiting ------------------------------------------------------------------------------

  /** A visitor closure: its captured state, and whether to go on after a node. */
  type Visitor<!S> = (S, Cause) -> (S, bool)

  /** Feeds nodes to the visitor until it declines one. */
  function VisitAll<S>(nodes: seq<Cause>, state: S, visit: Visitor<S>): S {
    if nodes == [] then state
    else
      var (next, more) := visit(state, nodes[0]);
      if more then VisitAll(nodes[1..], next, visit) else next
  }

  /** Pending subtrees in visiting order: the top of the stack comes first. */
  ghost function Pending(stack: seq<Cause>): seq<Cause> {
    if stack == [] then []
    else stack[|stack| - 1].Preorder() + Pending(stack[..|stack| - 1])
  }

  ghost function StackSize(stack: seq<Cause>): nat {
    if stack == [] then 0 else stack[|stack| - 1].Size() + StackSize(stack[..|stack| - 1])
  }

  lemma {:induction false} PendingPops(rest: seq<Cause>, node: Cause)
    ensures Pending(rest + [node]) == node.Preorder() + Pending(rest)
    ensures StackSize(rest + [node]) == node.Size() + StackSize(rest)
  {
  }

  /** What is left once a node has been visited: its children, left one on top, or just the rest. */
  lemma {:induction false} VisitedLeaves(rest: seq<Cause>, node: Cause)
    ensures var next := if node.IsComposite() then rest + [node.right] + [node.left] else rest;
            && Pending(rest + [node]) == [node] + Pending(next)
            && StackSize(next) < StackSize(rest + [node])
  {
  }

  /** Calls the visitor on every node in preorder until it returns false. */
  method VisitCause<S>(root: Cause, initial: S, visit: Visitor<S>) returns (state: S)
    ensures state == VisitAll(root.Preorder(), initial, visit)
  {
    var stack := [root];
    state := initial;
    ghost var answer := VisitAll(root.Preorder(), initial, visit);
    assert VisitAll(Pending(stack), initial, visit) == answer by {
      PendingPops([], root);
      assert [] + [root] == [root] && root.Preorder() + [] == root.Preorder();
    }
    while stack != []
      invariant VisitAll(Pending(stack), state, visit) == answer
      decreases StackSize(stack)
    {
      var node, rest := stack[|stack| - 1], stack[..|stack| - 1];
      assert stack == rest + [node];
      VisitedLeaves(rest, node);
      stack := if node.IsComposite() then rest + [node.right] + [node.left] else rest;
      assert ([node] + Pending(stack))[1..] == Pending(stack);
      var (next, more) := visit(state, node);
      state := next;
      if !more {
        return;
      }
    }
  }

  datatype Status = StatusFailure | StatusInterrupted | StatusDefect

  /** One step of the closure CauseStatus visits with. */
  function StatusStep(status: Status, node: Cause): (Status, bool) {
    match node
    case Died(_, _) => (StatusDefect, false)
    case Interrupted(_, _) => (StatusInterrupted, true)
    case _ => (status, true)
  }

  /** The most severe of the leaves: a defect outranks an interruption, which outranks a
      typed failure. */
  function MostSevere(leaves: seq<Cause>): Status {
    if exists i :: 0 <= i < |leaves| && leaves[i].Died? then StatusDefect
    else if exists i :: 0 <= i < |leaves| && leaves[i].Interrupted? then StatusInterrupted
    else StatusFailure
  }

  /** Which nodes a preorder holds besides compositions are exactly the leaves. */
  lemma {:induction false} PreorderHoldsLeaves(c: Cause, node: Cause)
    requires !node.IsComposite() && !node.Empty?
    ensures node in c.Preorder() <==> node in c.Leaves()
  {
    if c.IsComposite() {
      PreorderHoldsLeaves(c.left, node);
      PreorderHoldsLeaves(c.right, node);
    }
  }

  lemma {:induction false} VisitStatus(nodes: seq<Cause>, status: Status)
    requires status != StatusDefect
    ensures VisitAll(nodes, status, StatusStep)
         == (if exists i :: 0 <= i < |nodes| && nodes[i].Died? then StatusDefect
             else if exists i :: 0 <= i < |nodes| && nodes[i].Interrupted? then StatusInterrupted
             else status)
  {
    if nodes != [] {
      var (next, more) := StatusStep(status, nodes[0]);
      var tail := nodes[1..];
      assert forall i :: 0 <= i < |tail| ==> tail[i] == nodes[i + 1];
      assert forall i :: 1 <= i < |nodes| ==> nodes[i] == tail[i - 1];
      if more {
        VisitStatus(tail, next);
      }
    }
  }

  /** Classifies a cause by visiting it, stopping at the first defect. */
  method CauseStatus(cause: Cause) returns (status: Status)
    ensures status == MostSevere(cause.Leaves())
  {
    status := VisitCause(cause, StatusFailure, StatusStep);
    var nodes, leaves := cause.Preorder(), cause.Leaves();
    VisitStatus(nodes, StatusFailure);
    forall node: Cause | !node.IsComposite() && !node.Empty?
      ensures node in nodes <==> node in leaves
    {
      PreorderHoldsLeaves(cause, node);
    }
    assert forall i :: 0 <= i < |nodes| ==> nodes[i] in nodes;
    assert forall i :: 0 <= i < |leaves| ==> leaves[i] in leaves;
  }

  // Interruptions a composition asked for itself ------------------------------------------

  /** `errors.Is`, and the reason a composition cancels with; `None` is a nil reason. */
  datatype Request = NoRequest | Request(reason: Reason, matches: (Reason, Reason) -> bool)

  /** Whether a node is one the request explains. */
  predicate Explains(request: Request, node: Cause) {
    request.Request? && node.Interrupted? && request.matches(node.reason, request.reason)
  }

  function InducedStep(request: Request): Visitor<bool> {
    (induced: bool, node: Cause) =>
      var next := induced && (node.IsComposite() || Explains(request, node));
      (next, next)
  }

  /** A cause made of nothing but interruptions the request explains. */
  predicate Induced(cause: Cause, request: Request) {
    !cause.Empty? && cause.Solid() && forall leaf :: leaf in cause.Leaves() ==> Explains(request, leaf)
  }

  lemma {:induction false} VisitInduced(nodes: seq<Cause>, request: Request)
    ensures VisitAll(nodes, true, InducedStep(request))
        <==> forall i :: 0 <= i < |nodes| ==> nodes[i].IsComposite() || Explains(request, nodes[i])
  {
    if nodes != [] {
      VisitInduced(nodes[1..], request);
      assert forall i :: 1 <= i < |nodes| ==> nodes[i] == nodes[1..][i - 1];
    }
  }

  /** A preorder free of identities is that of a solid cause other than the identity. */
  lemma {:induction false} PreorderFreeOfIdentity(c: Cause)
    ensures Empty !in c.Preorder() <==> !c.Empty? && c.Solid()
  {
    if c.IsComposite() {
      PreorderFreeOfIdentity(c.left);
      PreorderFreeOfIdentity(c.right);
    }
  }

  /** Reports whether a cause consists only of interruptions this composition requested. */
  method IsInduced(cause: Cause, request: Request) returns (induced: bool)
    ensures induced <==> Induced(cause, request)
  {
    if cause.Empty? || request.NoRequest? {
      if !cause.Empty? && cause.Solid() {
        SolidHasLeaf(cause);
        assert cause.Leaves()[0] in cause.Leaves();
      }
      return false;
    }
    induced := VisitCause(cause, true, InducedStep(request));
    var nodes := cause.Preorder();
    VisitInduced(nodes, request);
    PreorderFreeOfIdentity(cause);
    forall node: Cause | !node.IsComposite() && !node.Empty?
      ensures node in nodes <==> node in cause.Leaves()
    {
      PreorderHoldsLeaves(cause, node);
    }
  }

  datatype Side = NeitherSide | LeftSide | RightSide

  datatype PairOutcome = PairOutcome(left: Exit, right: Exit, first: Side)

  /** The cause of a two-branch composition that could not answer. */
  method CombineParallelCauses(pair: PairOutcome, request: Request) returns (cause: Cause)
    ensures cause == Combined(pair, request)
  {
    var left, right := pair.left.Cause(), pair.right.Cause();
    var rightInduced := IsInduced(right, request);
    if rightInduced {
      return left;
    }
    var leftInduced := IsInduced(left, request);
    if leftInduced {
      return right;
    }
    cause := left.Both(right);
  }

  ghost function Combined(pair: PairOutcome, request: Request): Cause {
    var left, right := pair.left.Cause(), pair.right.Cause();
    if Induced(right, request) then left
    else if Induced(left, request) then right
    else left.Both(right)
  }

  /** Combining keeps every cause a branch raised on its own account, in positional order, and
      reports nothing although a branch failed exactly when the one branch that failed was
      cancelled with this composition's reason. An enclosing composition that uses the same
      reason value brings that about without this one cancelling anything. */
  lemma {:induction false} CombinedKeepsOwnFailures(pair: PairOutcome, request: Request)
    requires !pair.left.Cause().Empty? || !pair.right.Cause().Empty?
    ensures var l, r := pair.left.Cause(), pair.right.Cause();
            var cause := Combined(pair, request);
            && (!Induced(l, request) && !Induced(r, request) ==> cause.Leaves() == l.Leaves() + r.Leaves())
            && (!Induced(l, request) && Induced(r, request) ==> cause == l)
            && (Induced(l, request) && !Induced(r, request) ==> cause == r)
            && (cause.Empty? <==> (l.Empty? && Induced(r, request)) || (r.Empty? && Induced(l, request)))
  {
  }

  /** The instance: one branch has answered, the other was stopped from outside with the reason
      this composition would have used. */
  lemma {:induction false} CombinedLosesInheritedCancellation(value: Value, reason: Reason, origin: Origin, matches: (Reason, Reason) -> bool)
    requires matches(reason, reason)
    ensures var pair := PairOutcome(Success(value), Failure(Interrupted(reason, origin)), LeftSide);
            Combined(pair, Request(reason, matches)).Empty?
  {
  }

  /** The leaves of the causes no cancellation of ours explains, in input order. */
  ghost function OwnLeaves(exits: seq<Exit>, request: Request): seq<Cause> {
    if exits == [] then []
    else
      var last := exits[|exits| - 1].Cause();
      OwnLeaves(exits[..|exits| - 1], request) + (if Induced(last, request) then [] else last.Leaves())
  }

  ghost predicate Explained(exit: Exit, request: Request) {
    exit.Cause().Empty? || Induced(exit.Cause(), request)
  }

  ghost predicate AllExplained(exits: seq<Exit>, request: Request) {
    forall e :: e in exits ==> Explained(e, request)
  }

  ghost predicate AllSolid(exits: seq<Exit>) {
    forall e :: e in exits ==> e.Cause().Solid()
  }

  lemma {:induction false} OneMoreExit(exits: seq<Exit>, i: nat, request: Request)
    requires i < |exits|
    ensures OwnLeaves(exits[..i + 1], request)
         == OwnLeaves(exits[..i], request) + (if Induced(exits[i].Cause(), request) then [] else exits[i].Cause().Leaves())
    ensures AllExplained(exits[..i + 1], request) <==> AllExplained(exits[..i], request) && Explained(exits[i], request)
    ensures AllSolid(exits[..i + 1]) <==> AllSolid(exits[..i]) && exits[i].Cause().Solid()
  {
    assert exits[..i + 1][..i] == exits[..i] && exits[..i + 1] == exits[..i] + [exits[i]];
  }

  /** Composes the causes of a collection in input order, dropping induced interruptions. */
  method CombineBranchCauses(exits: seq<Exit>, request: Request) returns (result: Cause)
    ensures result.Leaves() == OwnLeaves(exits, request)
    ensures result.Empty? <==> AllExplained(exits, request)
    ensures AllSolid(exits) ==> result.Solid()
  {
    result := Empty;
    for i := 0 to |exits|
      invariant result.Leaves() == OwnLeaves(exits[..i], request)
      invariant result.Empty? <==> AllExplained(exits[..i], request)
      invariant AllSolid(exits[..i]) ==> result.Solid()
    {
      var cause := exits[i].Cause();
      OneMoreExit(exits, i, request);
      var induced := IsInduced(cause, request);
      if !induced {
        ComposeKeepsLeaves(result, cause);
        result := result.Both(cause);
      }
    }
    assert exits[..|exits|] == exits;
  }

  // Translating failures ------------------------------------------------------------------

  /** Rewrites every typed failure and keeps the rest, as the source's recursive walk does:
      a defect is rebuilt from its defect alone. */
  function MapFailure(c: Cause, transform: Value -> Value): Cause {
    match c
    case Empty => Empty
    case Failed(f, o) => Failed(transform(f), o)
    case Died(d, _) => Died(d, UNKNOWN)
    case Interrupted(r, o) => Interrupted(r, o)
    case ThenNode(l, r) => MapFailure(l, transform).Then(MapFailure(r, transform))
    case BothNode(l, r) => MapFailure(l, transform).Both(MapFailure(r, transform))
  }

  /** A tree of compositions over leaf kinds, everything else forgotten. */
  datatype Shape = Leaf(kind: nat) | Node(sequential: bool, left: Shape, right: Shape) {
    function Size(): nat {
      if Node? then 1 + left.Size() + right.Size() else 1
    }
  }

  function ShapeOf(c: Cause): (shape: Shape)
    ensures shape.Size() == c.Size()
  {
    match c
    case Empty => Leaf(0)
    case Failed(_, _) => Leaf(1)
    case Died(_, _) => Leaf(2)
    case Interrupted(_, _) => Leaf(3)
    case ThenNode(l, r) => Node(true, ShapeOf(l), ShapeOf(r))
    case BothNode(l, r) => Node(false, ShapeOf(l), ShapeOf(r))
  }

  /** Any defect whose origin was recorded shows it: mapping with the identity forgets the origin. */
  lemma {:induction false} MappingForgetsOrigins(defect: Defect, origin: Origin, same: Value -> Value)
    requires origin.IsKnown() && forall v :: same(v) == v
    ensures var stamped := Died(defect, UNKNOWN).WithOrigin(origin);
            stamped.Solid() && MapFailure(stamped, same) == Died(defect, UNKNOWN) != stamped
  {
    assert UNKNOWN.FillFrom(origin) == origin;
  }

  lemma {:induction false} LeafByLeaf(f: Cause -> Cause, mapped: seq<Cause>, leaves: seq<Cause>, alsoMapped: seq<Cause>, more: seq<Cause>)
    requires |mapped| == |leaves| && forall i :: 0 <= i < |leaves| ==> mapped[i] == f(leaves[i])
    requires |alsoMapped| == |more| && forall i :: 0 <= i < |more| ==> alsoMapped[i] == f(more[i])
    ensures forall i :: 0 <= i < |leaves + more| ==> (mapped + alsoMapped)[i] == f((leaves + more)[i])
  {
  }

  /** Leaf by leaf and in order, only failures change. */
  lemma {:induction false} MapFailureLeaves(c: Cause, transform: Value -> Value)
    ensures var mapped, leaves := MapFailure(c, transform).Leaves(), c.Leaves();
            |mapped| == |leaves|
            && forall i :: 0 <= i < |leaves| ==> mapped[i] == MapFailure(leaves[i], transform)
  {
    if c.IsComposite() {
      MapFailureLeaves(c.left, transform);
      MapFailureLeaves(c.right, transform);
      var l, r := MapFailure(c.left, transform), MapFailure(c.right, transform);
      LeafByLeaf(leaf => MapFailure(leaf, transform), l.Leaves(), c.left.Leaves(), r.Leaves(), c.right.Leaves());
      ComposeKeepsLeaves(l, r);
      assert MapFailure(c, transform).Leaves() == l.Leaves() + r.Leaves();
    }
  }

  /** Mapping keeps the composition structure exactly when no composition holds an identity
      child, which is every cause the composing operations build. */
  lemma {:induction false} MapFailureShape(c: Cause, transform: Value -> Value)
    ensures ShapeOf(MapFailure(c, transform)) == ShapeOf(c) <==> c.Solid()
    ensures MapFailure(c, transform).Size() <= c.Size()
    ensures c.Solid() ==> (MapFailure(c, transform).Empty? <==> c.Empty?)
  {
    if c.IsComposite() {
      MapFailureShape(c.left, transform);
      MapFailureShape(c.right, transform);
    }
  }

  /** No defect among the leaves records an origin. */
  predicate DefectsUnplaced(c: Cause) {
    if c.IsComposite() then DefectsUnplaced(c.left) && DefectsUnplaced(c.right)
    else c.Died? ==> c.origin == UNKNOWN
  }

  /** Where a failure was raised survives a translation, but where a defect was raised does
      not: translating with the identity is the identity exactly on solid causes whose defects
      carry no origin. */
  lemma {:induction false} MapFailureIdentity(c: Cause, same: Value -> Value)
    requires forall v :: same(v) == v
    ensures MapFailure(c, same) == c <==> c.Solid() && DefectsUnplaced(c)
  {
    if c.IsComposite() {
      MapFailureIdentity(c.left, same);
      MapFailureIdentity(c.right, same);
      MapFailureShape(c.left, same);
      MapFailureShape(c.right, same);
      var l, r := MapFailure(c.left, same), MapFailure(c.right, same);
      if l.Empty? || r.Empty? {
        assert MapFailure(c, same).Size() < c.Size();
      }
    }
  }

  const DEFECT_FOLDER: Folder<Cause> := Folder(
    () => Empty,
    (f: Value) => Died(Defect(f, ""), UNKNOWN),
    (d: Defect) => Died(d, UNKNOWN),
    (r: Reason) => Interrupted(r, UNKNOWN),
    (l: Cause, r: Cause) => l.Then(r),
    (l: Cause, r: Cause) => l.Both(r))

  /** Rewrites every typed failure as a defect, by a fold: one leaf per leaf in order, no typed
      failure left, and no origin left either. */
  method FailuresAsDefects(root: Cause) returns (cause: Cause)
    ensures var leaves, was := cause.Leaves(), root.Leaves();
            |leaves| == |was|
            && forall i :: 0 <= i < |was| ==>
                 leaves[i] == match was[i]
                   case Failed(f, _) => Died(Defect(f, ""), UNKNOWN)
                   case Died(d, _) => Died(d, UNKNOWN)
                   case Interrupted(r, _) => Interrupted(r, UNKNOWN)
                   case _ => Empty
    ensures root.Solid() ==> cause.Solid() && ShapeOf(cause) == AsDefects(ShapeOf(root))
  {
    cause := FoldCause(root, DEFECT_FOLDER);
    FoldToDefects(root);
    if root.Solid() {
      DefectsKeepShape(root);
    }
  }

  lemma {:induction false} FoldToDefects(c: Cause)
    ensures var leaves, was := Fold(c, DEFECT_FOLDER).Leaves(), c.Leaves();
            |leaves| == |was|
            && forall i :: 0 <= i < |was| ==> leaves[i] == FoldLeaf(DEFECT_FOLDER, was[i])
  {
    if c.IsComposite() {
      FoldToDefects(c.left);
      FoldToDefects(c.right);
      var l, r := Fold(c.left, DEFECT_FOLDER), Fold(c.right, DEFECT_FOLDER);
      LeafByLeaf(leaf => FoldLeaf(DEFECT_FOLDER, leaf), l.Leaves(), c.left.Leaves(), r.Leaves(), c.right.Leaves());
      ComposeKeepsLeaves(l, r);
      assert Fold(c, DEFECT_FOLDER).Leaves() == l.Leaves() + r.Leaves();
    }
  }

  /** The same tree with defects where failures were. */
  function AsDefects(shape: Shape): Shape {
    match shape
    case Leaf(kind) => Leaf(if kind == 1 then 2 else kind)
    case Node(sequential, left, right) => Node(sequential, AsDefects(left), AsDefects(right))
  }

  lemma {:induction false} DefectsKeepShape(c: Cause)
    requires c.Solid()
    ensures var folded := Fold(c, DEFECT_FOLDER);
            folded.Solid() && ShapeOf(folded) == AsDefects(ShapeOf(c)) && (folded.Empty? <==> c.Empty?)
  {
    if c.IsComposite() {
      DefectsKeepShape(c.left);
      DefectsKeepShape(c.right);
      var l, r := Fold(c.left, DEFECT_FOLDER), Fold(c.right, DEFECT_FOLDER);
      assert Fold(c, DEFECT_FOLDER) == if c.ThenNode? then ThenNode(l, r) else BothNode(l, r);
    }
  }

  // Rendering -----------------------------------------------------------------------------

  /** One output line and its nesting depth. */
  datatype TextLine = TextLine(depth: nat, text: string)

  /** How one leaf is spelled: its own line, and the stack lines that follow it, if any. */
  datatype Speller = Speller(text: Cause -> string, stack: Cause -> seq<string>)

  function KindName(c: Cause): string {
    if c.ThenNode? then "Then" else "Both"
  }

  function LeafLines(speller: Speller, leaf: Cause, depth: nat): (lines: seq<TextLine>)
    ensures lines != []
  {
    [TextLine(depth, speller.text(leaf))]
    + seq(|speller.stack(leaf)|, i requires 0 <= i < |speller.stack(leaf)| => TextLine(depth + 1, speller.stack(leaf)[i]))
  }

  function WithComma(lines: seq<TextLine>): (marked: seq<TextLine>)
    requires lines != []
    ensures |marked| == |lines|
  {
    var last := lines[|lines| - 1];
    lines[|lines| - 1 := last.(text := last.text + ",")]
  }

  /** The indented tree a composition is printed as. */
  function Render(speller: Speller, c: Cause, depth: nat): (lines: seq<TextLine>)
    ensures lines != []
    decreases c
  {
    if c.IsComposite() then
      [TextLine(depth, KindName(c) + "(")]
      + WithComma(Render(speller, c.left, depth + 1))
      + Render(speller, c.right, depth + 1)
      + [TextLine(depth, ")")]
    else LeafLines(speller, c, depth)
  }

  datatype RenderStep = RenderNode(cause: Cause, depth: nat) | SeparateBranches | CloseComposite(depth: nat)

  /** The lines one pending step turns `lines` into. */
  ghost function Perform(speller: Speller, step: RenderStep, lines: seq<TextLine>): seq<TextLine> {
    match step
    case RenderNode(c, depth) => lines + Render(speller, c, depth)
    case SeparateBranches => if lines == [] then lines else WithComma(lines)
    case CloseComposite(depth) => lines + [TextLine(depth, ")")]
  }

  ghost function Finish(speller: Speller, steps: seq<RenderStep>, lines: seq<TextLine>): seq<TextLine>
    decreases |steps|
  {
    if steps == [] then lines
    else Finish(speller, steps[..|steps| - 1], Perform(speller, steps[|steps| - 1], lines))
  }

  ghost function StepWeight(step: RenderStep): nat {
    if step.RenderNode? then 3 * step.cause.Size() else 1
  }

  ghost function StepsWeight(steps: seq<RenderStep>): nat {
    if steps == [] then 0
    else StepsWeight(steps[..|steps| - 1]) + StepWeight(steps[|steps| - 1])
  }

  lemma {:induction false} FinishTop(speller: Speller, rest: seq<RenderStep>, top: RenderStep, lines: seq<TextLine>)
    ensures Finish(speller, rest + [top], lines) == Finish(speller, rest, Perform(speller, top, lines))
    ensures StepsWeight(rest + [top]) == StepsWeight(rest) + StepWeight(top)
  {
  }

  lemma {:induction false} FinishFour(speller: Speller, rest: seq<RenderStep>, a: RenderStep, b: RenderStep, c: RenderStep, d: RenderStep,
                   lines: seq<TextLine>)
    ensures Finish(speller, rest + [a, b, c, d], lines)
         == Finish(speller, rest, Perform(speller, a, Perform(speller, b, Perform(speller, c, Perform(speller, d, lines)))))
    ensures StepsWeight(rest + [a, b, c, d])
         == StepsWeight(rest) + StepWeight(a) + StepWeight(b) + StepWeight(c) + StepWeight(d)
  {
    var three, two, one := rest + [a] + [b] + [c], rest + [a] + [b], rest + [a];
    assert three + [d] == rest + [a, b, c, d];
    FinishTop(speller, three, d, lines);
    var afterD := Perform(speller, d, lines);
    FinishTop(speller, two, c, afterD);
    var afterC := Perform(speller, c, afterD);
    FinishTop(speller, one, b, afterC);
    FinishTop(speller, rest, a, Perform(speller, b, afterC));
  }

  lemma {:induction false} CommaAfter(lines: seq<TextLine>, more: seq<TextLine>)
    requires more != []
    ensures WithComma(lines + more) == lines + WithComma(more)
  {
  }

  /** Opening, left branch, comma, right branch and closing, put after earlier lines, are the
      composition's lines. */
  lemma {:induction false} RenderInParts(speller: Speller, c: Cause, depth: nat, lines: seq<TextLine>)
    requires c.IsComposite()
    ensures var l, r := Render(speller, c.left, depth + 1), Render(speller, c.right, depth + 1);
            var before := lines + [TextLine(depth, KindName(c) + "(")];
            WithComma(before + l) + r + [TextLine(depth, ")")] == lines + Render(speller, c, depth)
  {
    var l, r := Render(speller, c.left, depth + 1), Render(speller, c.right, depth + 1);
    var header, footer := [TextLine(depth, KindName(c) + "(")], [TextLine(depth, ")")];
    CommaAfter(lines + header, l);
    AppendFive(lines, header, WithComma(l), r, footer);
  }

  lemma {:induction false} AppendFive<T>(a: seq<T>, b: seq<T>, c: seq<T>, d: seq<T>, e: seq<T>)
    ensures a + b + c + d + e == a + (b + c + d + e)
  {
  }

  /** The four steps a composition is replaced by print what it prints. */
  lemma {:induction false} ExpandStep(speller: Speller, rest: seq<RenderStep>, c: Cause, depth: nat, lines: seq<TextLine>)
    requires c.IsComposite()
    ensures var expanded := rest + [CloseComposite(depth), RenderNode(c.right, depth + 1), SeparateBranches, RenderNode(c.left, depth + 1)];
            && Finish(speller, expanded, lines + [TextLine(depth, KindName(c) + "(")])
               == Finish(speller, rest, lines + Render(speller, c, depth))
            && StepsWeight(expanded) < StepsWeight(rest) + StepWeight(RenderNode(c, depth))
  {
    var header := [TextLine(depth, KindName(c) + "(")];
    FinishFour(speller, rest, CloseComposite(depth), RenderNode(c.right, depth + 1), SeparateBranches,
               RenderNode(c.left, depth + 1), lines + header);
    RenderInParts(speller, c, depth, lines);
    assert StepWeight(RenderNode(c, depth)) == 3 + 3 * c.left.Size() + 3 * c.right.Size();
  }

  /** One step: the steps that replace it, the next one last, and the lines so far after it. */
  function RenderStepOf(speller: Speller, step: RenderStep, lines: seq<TextLine>): (seq<RenderStep>, seq<TextLine>) {
    match step
    case SeparateBranches => ([], if lines == [] then lines else WithComma(lines))
    case CloseComposite(depth) => ([], lines + [TextLine(depth, ")")])
    case RenderNode(c, depth) =>
      if c.IsComposite() then
        ([CloseComposite(depth), RenderNode(c.right, depth + 1), SeparateBranches, RenderNode(c.left, depth + 1)],
         lines + [TextLine(depth, KindName(c) + "(")])
      else ([], lines + LeafLines(speller, c, depth))
  }

  lemma {:induction false} StepPreserves(speller: Speller, rest: seq<RenderStep>, top: RenderStep, lines: seq<TextLine>)
    ensures var (more, after) := RenderStepOf(speller, top, lines);
            && Finish(speller, rest + more, after) == Finish(speller, rest + [top], lines)
            && StepsWeight(rest + more) < StepsWeight(rest + [top])
  {
    FinishTop(speller, rest, top, lines);
    if top.RenderNode? && top.cause.IsComposite() {
      ExpandStep(speller, rest, top.cause, top.depth, lines);
    } else {
      PlainStep(speller, top, lines);
      assert rest + [] == rest;
    }
  }

  lemma {:induction false} PlainStep(speller: Speller, step: RenderStep, lines: seq<TextLine>)
    requires !(step.RenderNode? && step.cause.IsComposite())
    ensures RenderStepOf(speller, step, lines) == ([], Perform(speller, step, lines)) && StepWeight(step) >= 1
  {
  }

  /** One turn of the loop below. */
  lemma {:induction false} TurnPreserves(speller: Speller, steps: seq<RenderStep>, lines: seq<TextLine>)
    requires steps != []
    ensures var rest := steps[..|steps| - 1];
            var (more, after) := RenderStepOf(speller, steps[|steps| - 1], lines);
            && Finish(speller, rest + more, after) == Finish(speller, steps, lines)
            && StepsWeight(rest + more) < StepsWeight(steps)
  {
    var current, rest := steps[|steps| - 1], steps[..|steps| - 1];
    assert steps == rest + [current];
    StepPreserves(speller, rest, current, lines);
  }

  lemma {:induction false} Begins(speller: Speller, root: Cause)
    ensures Finish(speller, [RenderNode(root, 0)], []) == Render(speller, root, 0)
  {
    var steps := [RenderNode(root, 0)];
    assert steps[..0] == [] && [] + Render(speller, root, 0) == Render(speller, root, 0);
  }

  /** Walks the tree with an explicit worklist; the comma goes onto whatever line the left
      branch happened to end with. */
  method RenderCause(speller: Speller, root: Cause) returns (lines: seq<TextLine>)
    ensures lines == Render(speller, root, 0)
  {
    lines := [];
    var steps := [RenderNode(root, 0)];
    Begins(speller, root);
    ghost var all := Render(speller, root, 0);
    while steps != []
      invariant Finish(speller, steps, lines) == all
      decreases StepsWeight(steps)
    {
      TurnPreserves(speller, steps, lines);
      var (more, after) := RenderStepOf(speller, steps[|steps| - 1], lines);
      steps, lines := steps[..|steps| - 1] + more, after;
    }
  }
}
