/** The rewrite of a direct-style body as a chain of effects (tools/effectgo/rewrite), on syntax
    trees: which code is emitted for which statements, and which bodies are declined. */
module Rewrite {
  import opened Direct

  /** Emitted code. Every form but the last statement of a `Text` ends by answering an effect. */
  datatype Code =
    | Missing                                         // nothing follows: legal where unreachable
    | Text(s: Stmt, rest: Code)                       // a statement as spelled, then the rest
    | Define(id: nat, body: Code, rest: Code)         // id := func() { body }, then the rest
    | ReturnTo(to: Jump)                              // return to()
    | ReturnFx(fx: Expr)                              // return fx
    | FlatMap(fx: Expr, temp: nat, body: Code)        // return fx.FlatMap(func(temp) { body })
    | MapLast(fx: Expr, temp: nat, before: seq<Stmt>, answer: Expr)
                                                      // return fx.Map(func(temp) { before; return answer })
    | Scope(inner: Code)                              // return func() { inner }()
    | BranchIf(init: seq<Stmt>, cond: Expr, thn: Code, els: Code)
    | BranchSwitch(init: seq<Stmt>, tag: Expr, clauses: seq<Clause>, bodies: seq<Code>, after: Code)
    | LoopFor(loop: nat, init: seq<Stmt>, vars: seq<Name>, when: seq<Expr>, post: seq<Stmt>, body: Code, after: Code)
    | LoopRange(loop: nat, kind: RangeKind, over: Expr, held: nat, index: nat, bound: seq<Target>, body: Code, after: Code)

  /** What an unlabeled break and continue become. */
  datatype Jumps = Jumps(brk: Jump, cont: Jump)
  const NO_JUMPS := Jumps(Nowhere, Nowhere)

  /** The code and the next unused number, or that the body keeps its own goroutine. */
  datatype Emission = Declined | Emitted(code: Code, next: nat)

  // Steps ---------------------------------------------------------------------------------

  predicate AwaitsIn(e: Expr) {
    match e
    case Await(_, _) => true
    case Prim(_, args) => AwaitsInAny(args)
    case Call(_, args) => AwaitsInAny(args)
    case AndAlso(l, r) => AwaitsIn(l) || AwaitsIn(r)
    case OrElse(l, r) => AwaitsIn(l) || AwaitsIn(r)
    case _ => false
  }

  predicate AwaitsInAny(es: seq<Expr>) {
    es != [] && (AwaitsIn(es[0]) || AwaitsInAny(es[1..]))
  }

  /** Whether a statement holds a step anywhere inside it. */
  predicate Needs(s: Stmt) {
    match s
    case Assign(_, es) => AwaitsInAny(es)
    case FailWith(_) => true
    case PanicWith(e) => AwaitsIn(e)
    case Return(e) => AwaitsIn(e)
    case Block(list) => NeedsAny(list)
    case If(init, cond, thn, _, els) => NeedsAny(init) || AwaitsIn(cond) || NeedsAny(thn) || NeedsAny(els)
    case Switch(init, tag, clauses) => NeedsAny(init) || AwaitsIn(tag) || NeedsClauses(clauses)
    case For(init, when, post, body) => NeedsAny(init) || AwaitsInAny(when) || NeedsAny(post) || NeedsAny(body)
    case Range(_, over, _, body) => AwaitsIn(over) || NeedsAny(body)
    case _ => false
  }

  predicate NeedsAny(list: seq<Stmt>) {
    list != [] && (Needs(list[0]) || NeedsAny(list[1..]))
  }

  predicate NeedsClauses(clauses: seq<Clause>) {
    clauses != [] && (AwaitsInAny(clauses[0].cases) || NeedsAny(clauses[0].body) || NeedsClauses(clauses[1..]))
  }

  /** Whether the steps of an expression may be awaited ahead of the rest of it: `dirty` says a
      call that is not part of an earlier step has been passed. A step then would move ahead of
      that call, and a step on the right of && or || may never happen; both decline. */
  function Scan(e: Expr, dirty: bool): (r: (bool, bool)) {
    match e
    case Prim(_, args) => ScanAll(args, dirty)
    case Call(_, args) => (ScanAll(args, dirty).0, true)
    case Await(fx, _) => (!dirty && Scan(fx, false).0, dirty)
    case AndAlso(l, r) =>
      var (ok, d) := Scan(l, dirty);
      (ok && !AwaitsIn(r), d || Acts(r))
    case OrElse(l, r) =>
      var (ok, d) := Scan(l, dirty);
      (ok && !AwaitsIn(r), d || Acts(r))
    case _ => (true, dirty)
  }

  function ScanAll(es: seq<Expr>, dirty: bool): (r: (bool, bool)) {
    if es == [] then (true, dirty)
    else
      var (ok, d) := Scan(es[0], dirty);
      var (oks, ds) := ScanAll(es[1..], d);
      (ok && oks, ds)
  }

  /** One awaited step: the effect, and the number of the name its value is bound to. */
  datatype Step = Step(fx: Expr, temp: nat)
  datatype Hoisted = Hoisted(steps: seq<Step>, e: Expr, next: nat)
  datatype HoistedAll = HoistedAll(steps: seq<Step>, es: seq<Expr>, next: nat)

  /** The steps of an expression in the order Go evaluates them, and the expression with each
      replaced by the name of its value. */
  function Hoist(e: Expr, n: nat): (h: Hoisted)
    ensures h.next >= n
  {
    match e
    case Prim(op, args) => var h := HoistAll(args, n); Hoisted(h.steps, Prim(op, h.es), h.next)
    case Call(fn, args) => var h := HoistAll(args, n); Hoisted(h.steps, Call(fn, h.es), h.next)
    case Await(fx, _) =>
      var h := Hoist(fx, n);
      Hoisted(h.steps + [Step(h.e, h.next)], Temp(h.next), h.next + 1)
    case AndAlso(l, r) =>
      var h := Hoist(l, n); var h' := Hoist(r, h.next);
      Hoisted(h.steps + h'.steps, AndAlso(h.e, h'.e), h'.next)
    case OrElse(l, r) =>
      var h := Hoist(l, n); var h' := Hoist(r, h.next);
      Hoisted(h.steps + h'.steps, OrElse(h.e, h'.e), h'.next)
    case _ => Hoisted([], e, n)
  }

  function HoistAll(es: seq<Expr>, n: nat): (h: HoistedAll)
    ensures h.next >= n && |h.es| == |es|
  {
    if es == [] then HoistedAll([], [], n)
    else
      var h := Hoist(es[0], n);
      var hs := HoistAll(es[1..], h.next);
      HoistedAll(h.steps + hs.steps, [h.e] + hs.es, hs.next)
  }

  /** Awaits each step inside the continuation of the one before. */
  function Chain(steps: seq<Step>, inner: Code): Code {
    if steps == [] then inner else FlatMap(steps[0].fx, steps[0].temp, Chain(steps[1..], inner))
  }

  /** A statement's own expressions, not those of its branches. */
  function OwnExprs(s: Stmt): seq<Expr> {
    match s
    case Assign(_, es) => es
    case FailWith(e) => [e]
    case PanicWith(e) => [e]
    case Return(e) => [e]
    case If(_, cond, _, _, _) => [cond]
    case Switch(_, tag, _) => [tag]
    case _ => []
  }

  function WithExprs(s: Stmt, es: seq<Expr>): Stmt
    requires |es| == |OwnExprs(s)|
  {
    match s
    case Assign(targets, _) => Assign(targets, es)
    case FailWith(_) => FailWith(es[0])
    case PanicWith(_) => PanicWith(es[0])
    case Return(_) => Return(es[0])
    case If(init, _, thn, kind, els) => If(init, es[0], thn, kind, els)
    case Switch(init, _, clauses) => Switch(init, es[0], clauses)
    case _ => s
  }

  // Spelling ------------------------------------------------------------------------------

  function OldTargets(targets: seq<Target>): seq<Target> {
    if targets == [] then []
    else [if targets[0].New? then Old(targets[0].name) else targets[0]] + OldTargets(targets[1..])
  }

  function NewTargets(names: seq<Name>): seq<Target> {
    if names == [] then [] else [New(names[0])] + NewTargets(names[1..])
  }

  function Zeros(names: seq<Name>): seq<Expr> {
    if names == [] then [] else [Lit(names[0].zero)] + Zeros(names[1..])
  }

  predicate HasOld(targets: seq<Target>) {
    targets != [] && (targets[0].Old? || HasOld(targets[1..]))
  }

  /** What an identifier denotes once `names` are declared ahead of it in the same scope. */
  function Denotes(x: Name, names: seq<Name>): Name {
    if names == [] then x
    else if names[0].spelling == x.spelling then names[0]
    else Denotes(x, names[1..])
  }

  function Denoted(xs: seq<Name>, names: seq<Name>): (ys: seq<Name>)
    ensures |ys| == |xs| && forall i :: 0 <= i < |xs| ==> ys[i] == Denotes(xs[i], names)
  {
    if xs == [] then [] else [Denotes(xs[0], names)] + Denoted(xs[1..], names)
  }

  function Respell(e: Expr, names: seq<Name>): Expr {
    match e
    case Var(x) => Var(Denotes(x, names))
    case AddrOf(x) => AddrOf(Denotes(x, names))
    case Prim(op, args) => Prim(op, RespellAll(args, names))
    case Call(fn, args) => Call(fn, RespellAll(args, names))
    case Await(fx, own) => Await(Respell(fx, names), own)
    case AndAlso(l, r) => AndAlso(Respell(l, names), Respell(r, names))
    case OrElse(l, r) => OrElse(Respell(l, names), Respell(r, names))
    case _ => e
  }

  function RespellAll(es: seq<Expr>, names: seq<Name>): seq<Expr> {
    if es == [] then [] else [Respell(es[0], names)] + RespellAll(es[1..], names)
  }

  /** A := that reuses an earlier name is spelled as declarations of the new names followed by an
      assignment to all of them, so its right-hand sides now stand after those declarations. */
  function Redeclare(targets: seq<Target>, es: seq<Expr>): Stmt {
    var names := NewNames(targets);
    if names == [] || !HasOld(targets) then Assign(targets, es)
    else Declaring([Assign(NewTargets(names), Zeros(names)), Assign(OldTargets(targets), RespellAll(es, names))])
  }

  /** A statement as spelled inside the rewrite: a break or continue that leaves a translated
      switch or loop becomes what `jumps` says. A loop is what both of them leave, a switch what
      a break leaves. */
  function Spell(s: Stmt, jumps: Jumps): Stmt
    decreases s
  {
    match s
    case Break => if jumps.brk == Nowhere then s else Goto(jumps.brk)
    case Continue => if jumps.cont == Nowhere then s else Goto(jumps.cont)
    case Assign(targets, es) => Redeclare(targets, es)
    case Block(list) => Block(SpellList(list, jumps))
    case If(init, cond, thn, kind, els) => If(init, cond, SpellList(thn, jumps), kind, SpellList(els, jumps))
    case Switch(init, tag, clauses) => Switch(init, tag, SpellClauses(clauses, Jumps(Nowhere, jumps.cont)))
    case For(init, when, post, body) => For(init, when, post, SpellList(body, NO_JUMPS))
    case Range(kind, over, bound, body) => Range(kind, over, bound, SpellList(body, NO_JUMPS))
    case _ => s
  }

  function SpellList(list: seq<Stmt>, jumps: Jumps): (r: seq<Stmt>)
    decreases list
  {
    if list == [] then [] else [Spell(list[0], jumps)] + SpellList(list[1..], jumps)
  }

  function SpellClauses(clauses: seq<Clause>, jumps: Jumps): (r: seq<Clause>)
    ensures |r| == |clauses|
    decreases clauses
  {
    if clauses == [] then []
    else [clauses[0].(body := SpellList(clauses[0].body, jumps))] + SpellClauses(clauses[1..], jumps)
  }

  // Termination and jumps -----------------------------------------------------------------

  /** Whether an unlabeled break in these statements leaves the construct around them. */
  predicate Breaks(s: Stmt) {
    match s
    case Break => true
    case Block(list) => BreaksAny(list)
    case If(_, _, thn, _, els) => BreaksAny(thn) || BreaksAny(els)
    case _ => false
  }

  predicate BreaksAny(list: seq<Stmt>) {
    list != [] && (Breaks(list[0]) || BreaksAny(list[1..]))
  }

  /** Whether nothing needs to be emitted after the statement in its list. */
  predicate Terminates(s: Stmt, jumps: Jumps)
    decreases s
  {
    match s
    case Return(_) => true
    case Break => jumps.brk != Nowhere
    case Continue => jumps.cont != Nowhere
    case FailWith(_) => true
    case PanicWith(_) => true
    case Block(list) => list != [] && Terminates(list[|list| - 1], jumps)
    case If(_, _, thn, kind, els) =>
      && kind != NoElse
      && thn != [] && Terminates(thn[|thn| - 1], jumps)
      && els != [] && Terminates(els[|els| - 1], jumps)
    case For(_, when, _, body) => when == [] && !BreaksAny(body)
    case _ => false
  }

  /** Whether spelled code refers to a continuation. */
  predicate StmtMentions(s: Stmt, id: nat) {
    match s
    case Goto(to) => to == ToContinuation(id)
    case Block(list) => ListMentions(list, id)
    case Declaring(list) => ListMentions(list, id)
    case If(init, _, thn, _, els) => ListMentions(init, id) || ListMentions(thn, id) || ListMentions(els, id)
    case Switch(init, _, clauses) => ListMentions(init, id) || ClausesMention(clauses, id)
    case For(init, _, post, body) => ListMentions(init, id) || ListMentions(post, id) || ListMentions(body, id)
    case Range(_, _, _, body) => ListMentions(body, id)
    case _ => false
  }

  predicate ListMentions(list: seq<Stmt>, id: nat) {
    list != [] && (StmtMentions(list[0], id) || ListMentions(list[1..], id))
  }

  predicate ClausesMention(clauses: seq<Clause>, id: nat) {
    clauses != [] && (ListMentions(clauses[0].body, id) || ClausesMention(clauses[1..], id))
  }

  predicate Mentions(code: Code, id: nat) {
    match code
    case Missing => false
    case Text(s, rest) => StmtMentions(s, id) || Mentions(rest, id)
    case Define(_, body, rest) => Mentions(body, id) || Mentions(rest, id)
    case ReturnTo(to) => to == ToContinuation(id)
    case ReturnFx(_) => false
    case FlatMap(_, _, body) => Mentions(body, id)
    case MapLast(_, _, before, _) => ListMentions(before, id)
    case Scope(inner) => Mentions(inner, id)
    case BranchIf(init, _, thn, els) => ListMentions(init, id) || Mentions(thn, id) || Mentions(els, id)
    case BranchSwitch(init, _, _, bodies, after) => ListMentions(init, id) || MentionedInAny(bodies, id) || Mentions(after, id)
    case LoopFor(_, init, _, _, post, body, after) =>
      ListMentions(init, id) || ListMentions(post, id) || Mentions(body, id) || Mentions(after, id)
    case LoopRange(_, _, _, _, _, _, body, after) => Mentions(body, id) || Mentions(after, id)
  }

  predicate MentionedInAny(codes: seq<Code>, id: nat) {
    codes != [] && (Mentions(codes[0], id) || MentionedInAny(codes[1..], id))
  }

  // Emission ------------------------------------------------------------------------------

  function Go(k: Jump): Code {
    if k == Nowhere then Missing else ReturnTo(k)
  }

  predicate IsCompound(s: Stmt) {
    s.Block? || s.If? || s.Switch? || s.For? || s.Range?
  }

  predicate IsPlain(s: Stmt) {
    s.Assign? || s.FailWith? || s.PanicWith?
  }

  predicate AllPlain(list: seq<Stmt>) {
    list != [] ==> IsPlain(list[0]) && AllPlain(list[1..])
  }

  /** The last await of a body may be emitted as Map when nothing after it awaits, fails,
      branches or returns early. */
  predicate EndsInValue(s: Stmt, rest: seq<Stmt>, k: Jump, jumps: Jumps) {
    var following := [s] + rest;
    && k == Nowhere && jumps == NO_JUMPS
    && following[|following| - 1].Return?
    && !s.FailWith? && AwaitsInAny(OwnExprs(s))
    && !NeedsAny(rest)
    && AllPlain(following[..|following| - 1])
  }

  /** Statements one after the other, continuing with `k` when they run off their end. */
  function List(stmts: seq<Stmt>, k: Jump, jumps: Jumps, n: nat): (r: Emission)
    ensures r.Emitted? ==> r.next >= n
    decreases ListSize(stmts), 4
  {
    if stmts == [] then Emitted(Go(k), n)
    else
      var s, rest := stmts[0], stmts[1..];
      if Needs(s) then Statement(s, rest, k, jumps, n)
      else if rest == [] && Terminates(s, jumps) then Emitted(Text(Spell(s, jumps), Missing), n)
      else
        var tail := List(rest, k, jumps, n);
        if tail.Declined? then Declined else Emitted(Text(Spell(s, jumps), tail.code), tail.next)
  }

  /** A statement that holds a step, and everything after it. */
  function Statement(s: Stmt, rest: seq<Stmt>, k: Jump, jumps: Jumps, n: nat): (r: Emission)
    ensures r.Emitted? ==> r.next >= n
    decreases Size(s) + ListSize(rest), 3
  {
    if IsCompound(s) then
      if rest == [] then Inside(s, k, jumps, n) else Rejoin(s, rest, k, jumps, n)
    else if !ScanAll(OwnExprs(s), false).0 then Declined
    else if s.Return? && s.answer.Await? && s.answer.own then
      var h := Hoist(s.answer.fx, n);
      Emitted(Chain(h.steps, ReturnFx(h.e)), h.next)
    else if EndsInValue(s, rest, k, jumps) && HoistAll(OwnExprs(s), n).steps != [] then ValueTail(s, rest, n)
    else
      var h := HoistAll(OwnExprs(s), n);
      var text := Spell(WithExprs(s, h.es), NO_JUMPS);
      if Terminates(s, jumps) then Emitted(Chain(h.steps, Text(text, Missing)), h.next)
      else
        var tail := List(rest, k, jumps, h.next);
        if tail.Declined? then Declined else Emitted(Chain(h.steps, Text(text, tail.code)), tail.next)
  }

  /** What follows a branching statement becomes a continuation, unless no branch rejoins it. */
  function Rejoin(s: Stmt, rest: seq<Stmt>, k: Jump, jumps: Jumps, n: nat): (r: Emission)
    requires IsCompound(s)
    ensures r.Emitted? ==> r.next >= n
    decreases Size(s) + ListSize(rest), 2
  {
    var inner := Inside(s, ToContinuation(n), jumps, n + 1);
    if inner.Declined? then Declined
    else if !Mentions(inner.code, n) then if NeedsAny(rest) then Declined else inner
    else
      var tail := List(rest, k, jumps, inner.next);
      if tail.Declined? then Declined else Emitted(Define(n, tail.code, inner.code), tail.next)
  }

  /** The last step as a Map whose function is the rest of the body. */
  function ValueTail(s: Stmt, rest: seq<Stmt>, n: nat): (r: Emission)
    requires EndsInValue(s, rest, Nowhere, NO_JUMPS) && HoistAll(OwnExprs(s), n).steps != []
    ensures r.Emitted? ==> r.next >= n
  {
    var h := HoistAll(OwnExprs(s), n);
    var final := h.steps[|h.steps| - 1];
    var s' := WithExprs(s, h.es);
    var last :=
      if rest == [] then MapLast(final.fx, final.temp, [], s'.answer)
      else MapLast(final.fx, final.temp,
                   SpellList([s'] + rest[..|rest| - 1], NO_JUMPS), rest[|rest| - 1].answer);
    Emitted(Chain(h.steps[..|h.steps| - 1], last), h.next)
  }

  /** A branching statement whose branches continue with `k`. */
  function Inside(s: Stmt, k: Jump, jumps: Jumps, n: nat): (r: Emission)
    requires IsCompound(s)
    ensures r.Emitted? ==> r.next >= n
    decreases Size(s), 1
  {
    match s
    case For(_, _, _, _) => ForLoop(s, k, n)
    case Range(_, _, _, _) => RangeLoop(s, k, n)
    case If(init, cond, thn, kind, els) =>
      if init != [] && (NeedsAny(init) || AwaitsIn(cond)) then
        SplitSize(init, s);
        Scoped(List(init + [If([], cond, thn, kind, els)], k, jumps, n))
      else if !Scan(cond, false).0 then Declined
      else
        var h := Hoist(cond, n);
        Chained(h.steps, IfStatement(s, h.e, k, jumps, h.next))
    case Switch(init, tag, clauses) =>
      if init != [] && (NeedsAny(init) || AwaitsIn(tag)) then
        SplitSize(init, s);
        Scoped(List(init + [Switch([], tag, clauses)], k, jumps, n))
      else if !Scan(tag, false).0 then Declined
      else
        var h := Hoist(tag, n);
        Chained(h.steps, SwitchStatement(s, h.e, k, jumps, h.next))
    case Block(list) => Scoped(List(list, k, jumps, n))
  }

  function Scoped(inner: Emission): Emission {
    if inner.Declined? then Declined else Emitted(Scope(inner.code), inner.next)
  }

  function Chained(steps: seq<Step>, inner: Emission): Emission {
    if inner.Declined? then Declined else Emitted(Chain(steps, inner.code), inner.next)
  }

  lemma {:induction false} ListSizeAppend(a: seq<Stmt>, b: seq<Stmt>)
    ensures ListSize(a + b) == ListSize(a) + ListSize(b)
  {
    if a == [] {
      assert a + b == b;
    } else {
      assert (a + b)[1..] == a[1..] + b;
      ListSizeAppend(a[1..], b);
    }
  }

  /** Splitting a header's init off makes the statements to emit smaller. */
  lemma SplitSize(init: seq<Stmt>, s: Stmt)
    requires (s.If? || s.Switch?) && init == s.init && init != []
    ensures s.If? ==> ListSize(init + [If([], s.cond, s.thn, s.elseKind, s.els)]) < Size(s)
    ensures s.Switch? ==> ListSize(init + [Switch([], s.tag, s.clauses)]) < Size(s)
  {
    if s.If? {
      ListSizeAppend(init, [If([], s.cond, s.thn, s.elseKind, s.els)]);
    } else {
      ListSizeAppend(init, [Switch([], s.tag, s.clauses)]);
    }
  }

  function IfStatement(s: Stmt, cond: Expr, k: Jump, jumps: Jumps, n: nat): (r: Emission)
    requires s.If?
    ensures r.Emitted? ==> r.next >= n
    decreases Size(s), 0
  {
    var thn := List(s.thn, k, jumps, n);
    if thn.Declined? then Declined
    else if s.elseKind == NoElse then Emitted(BranchIf(s.init, cond, thn.code, Go(k)), thn.next)
    else
      var els := List(s.els, k, jumps, thn.next);
      if els.Declined? then Declined else Emitted(BranchIf(s.init, cond, thn.code, els.code), els.next)
  }

  predicate HasDefault(clauses: seq<Clause>) {
    DefaultClause(clauses, 0) < |clauses|
  }

  datatype Bodies = BodiesDeclined | Bodies(codes: seq<Code>, next: nat)

  function SwitchStatement(s: Stmt, tag: Expr, k: Jump, jumps: Jumps, n: nat): (r: Emission)
    requires s.Switch?
    ensures r.Emitted? ==> r.next >= n
    decreases Size(s), 0
  {
    var bodies := ClauseBodies(s.clauses, k, Jumps(k, jumps.cont), n);
    if bodies.BodiesDeclined? then Declined
    else Emitted(BranchSwitch(s.init, tag, s.clauses, bodies.codes, if HasDefault(s.clauses) then Missing else Go(k)),
                 bodies.next)
  }

  function ClauseBodies(clauses: seq<Clause>, k: Jump, jumps: Jumps, n: nat): (r: Bodies)
    ensures r.Bodies? ==> r.next >= n && |r.codes| == |clauses|
    decreases ClausesSize(clauses), 0
  {
    if clauses == [] then Bodies([], n)
    else if AwaitsInAny(clauses[0].cases) then BodiesDeclined
    else
      var first := List(clauses[0].body, k, jumps, n);
      if first.Declined? then BodiesDeclined
      else
        var rest := ClauseBodies(clauses[1..], k, jumps, first.next);
        if rest.BodiesDeclined? then rest else Bodies([first.code] + rest.codes, rest.next)
  }

  /** A loop as a function called once per iteration: `n` numbers that function and the one that
      advances to the next. */
  function ForLoop(s: Stmt, after: Jump, n: nat): (r: Emission)
    requires s.For?
    ensures r.Emitted? ==> r.next >= n
    decreases Size(s), 0
  {
    if NeedsAny(s.init) || AwaitsInAny(s.when) || NeedsAny(s.post) then Declined
    else
      var vars := LoopVars(s.init);
      var cont := ToNext(n, vars);
      var body := List(s.body, cont, Jumps(after, cont), n + 1);
      if body.Declined? then Declined
      else Emitted(LoopFor(n, s.init, vars, s.when, s.post, body.code, Go(after)), body.next)
  }

  function RangeLoop(s: Stmt, after: Jump, n: nat): (r: Emission)
    requires s.Range?
    ensures r.Emitted? ==> r.next >= n
    decreases Size(s), 0
  {
    if !Scan(s.over, false).0 then Declined
    else
      var h := Hoist(s.over, n);
      var held, index, loop := h.next, h.next + 1, h.next + 2;
      var cont := ToNextIndex(loop, index);
      var body := List(s.body, cont, Jumps(after, cont), h.next + 3);
      if body.Declined? then Declined
      else Emitted(Chain(h.steps, LoopRange(loop, s.kind, h.e, held, index, s.bound, body.code, Go(after))), body.next)
  }

  /** The replacement for a whole body. */
  function Body(body: seq<Stmt>): Emission {
    List(body, Nowhere, NO_JUMPS, 0)
  }

  // What emitted code does ----------------------------------------------------------------

  /** The functions in scope, innermost first. Each is closed over what is `up` from it. */
  datatype Env =
    | Top
    | WithContinuation(id: nat, body: Code, temps: Temps, up: Env)
    | InLoop(code: Code, temps: Temps, up: Env)

  function CodeSize(code: Code): (n: nat)
    ensures n >= 1
  {
    match code
    case Text(_, rest) => 1 + CodeSize(rest)
    case Define(_, body, rest) => 2 + CodeSize(body) + CodeSize(rest)
    case FlatMap(_, _, body) => 1 + CodeSize(body)
    case Scope(inner) => 1 + CodeSize(inner)
    case BranchIf(_, _, thn, els) => 1 + CodeSize(thn) + CodeSize(els)
    case BranchSwitch(_, _, _, bodies, after) => 1 + CodesSize(bodies) + CodeSize(after)
    case LoopFor(_, _, _, _, _, body, after) => 2 + CodeSize(body) + CodeSize(after)
    case LoopRange(_, _, _, _, _, _, body, after) => 2 + CodeSize(body) + CodeSize(after)
    case _ => 1
  }

  function CodesSize(codes: seq<Code>): (n: nat)
    ensures forall i :: 0 <= i < |codes| ==> CodeSize(codes[i]) <= n
  {
    if codes == [] then 0 else CodeSize(codes[0]) + CodesSize(codes[1..])
  }

  function EnvSize(env: Env): nat {
    match env
    case Top => 0
    case WithContinuation(_, body, _, up) => 1 + CodeSize(body) + EnvSize(up)
    case InLoop(_, _, up) => 1 + EnvSize(up)
  }

  function IndexIn(temps: Temps, index: nat): int {
    if index in temps && temps[index].Number? then temps[index].n else 0
  }

  function HeldIn(temps: Temps, held: nat): Datum {
    if held in temps then temps[held] else Number(0)
  }

  /** Parameters bound to these values. */
  function Bound(st: State, xs: seq<Name>, vs: seq<Datum>): (r: State)
    ensures r.gas == st.gas
    decreases |xs|
  {
    if xs == [] || vs == [] then st else Bound(st.Declare(xs[0], vs[0]), xs[1..], vs[1..])
  }

  function ReadAll(xs: seq<Name>, st: State): (vs: seq<Datum>)
    ensures |vs| == |xs| && forall i :: 0 <= i < |xs| ==> vs[i] == st.Read(xs[i])
  {
    if xs == [] then [] else [st.Read(xs[0])] + ReadAll(xs[1..], st)
  }

  /** A call of a function with parameters `xs` and these variables as arguments. */
  function Passed(st: State, xs: seq<Name>, args: seq<Name>): (r: State)
    ensures r.gas == st.gas
  {
    Bound(st, xs, ReadAll(args, st))
  }

  /** Calls a function literal's body and interprets the effect it answers with. */
  function Run(host: Host, code: Code, env: Env, temps: Temps, st: State): Report
    decreases st.gas, CodeSize(code) + EnvSize(env), 1
  {
    match code
    case Missing => ReportOf(Nonsense, st)
    case Text(s, rest) =>
      var (ending, st1) := Exec(host, s, temps, st);
      if ending == Normal then Run(host, rest, env, temps, st1) else Conclude(host, ending, env, temps, st1)
    case Define(id, body, rest) => Run(host, rest, WithContinuation(id, body, temps, env), temps, st)
    case ReturnTo(to) => Leap(host, to, env, temps, st)
    case ReturnFx(fx) =>
      var (v, st1) := AwaitExpr(host, fx, temps, st);
      if v.Halted? then ReportOf(HaltFinal(v.halt), st1) else ReportOf(Succeeded(v.value), st1)
    case FlatMap(fx, temp, body) =>
      var (v, st1) := AwaitExpr(host, fx, temps, st);
      if v.Halted? then ReportOf(HaltFinal(v.halt), st1) else Run(host, body, env, temps[temp := v.value], st1)
    case MapLast(fx, temp, before, answer) =>
      var (v, st1) := AwaitExpr(host, fx, temps, st);
      if v.Halted? then ReportOf(HaltFinal(v.halt), st1)
      else
        var (ending, st2) := ExecList(host, before + [Return(answer)], temps[temp := v.value], st1);
        Conclude(host, ending, env, temps, st2)
    case Scope(inner) => Run(host, inner, env, temps, st)
    case BranchIf(init, cond, thn, els) =>
      var (ending, st1) := ExecList(host, init, temps, st);
      if ending != Normal then Conclude(host, ending, env, temps, st1)
      else
        var (holds, st2) := Guard(host, [cond], temps, st1);
        if holds.Halted? then ReportOf(HaltFinal(holds.halt), st2)
        else Run(host, if holds.value then thn else els, env, temps, st2)
    case BranchSwitch(init, tag, clauses, bodies, after) =>
      var (ending, st1) := ExecList(host, init, temps, st);
      if ending != Normal then Conclude(host, ending, env, temps, st1)
      else
        var (v, st2) := Evaluate(host, tag, temps, st1);
        if v.Halted? then ReportOf(HaltFinal(v.halt), st2)
        else
          var (chosen, st3) := Choose(host, clauses, 0, v.value, temps, st2);
          if chosen.Halted? then ReportOf(HaltFinal(chosen.halt), st3)
          else if chosen.value < |bodies| then Run(host, bodies[chosen.value], env, temps, st3)
          else Run(host, after, env, temps, st3)
    case LoopFor(_, init, vars, _, _, _, _) =>
      var (ending, st1) := ExecList(host, init, temps, st);
      if ending != Normal then Conclude(host, ending, env, temps, st1)
      else Enter(host, code, env, temps, Renewed(st1, vars))
    case LoopRange(_, _, over, held, index, _, _, _) =>
      var (v, st1) := Evaluate(host, over, temps, st);
      if v.Halted? then ReportOf(HaltFinal(v.halt), st1)
      else Enter(host, code, env, temps[held := v.value][index := Number(0)], st1)
  }

  function AwaitExpr(host: Host, fx: Expr, temps: Temps, st: State): (r: (Result<Datum>, State))
    ensures r.1.gas == st.gas
  {
    var (v, st1) := Evaluate(host, fx, temps, st);
    if v.Halted? then (v, st1) else Settle(host, v.value, st1)
  }

  /** Where a statement that did not run off its end leaves the code. */
  function Conclude(host: Host, ending: Ending, env: Env, temps: Temps, st: State): Report
    decreases st.gas, EnvSize(env), 1
  {
    match ending
    case Returned(v) => ReportOf(Succeeded(v), st)
    case Ended(halt) => ReportOf(HaltFinal(halt), st)
    case OutOfGas => ReportOf(Exhausted, st)
    case Jumped(to) => Leap(host, to, env, temps, st)
    case _ => ReportOf(Nonsense, st)
  }

  /** Calls the function a jump names. */
  function Leap(host: Host, to: Jump, env: Env, temps: Temps, st: State): Report
    decreases st.gas, EnvSize(env), 0
  {
    match env
    case Top => ReportOf(Nonsense, st)
    case WithContinuation(id, body, defined, up) =>
      if to == ToContinuation(id) then Run(host, body, up, defined, st) else Leap(host, to, up, temps, st)
    case InLoop(code, defined, up) =>
      if code.LoopFor? && to.ToNext? && to.loop == code.loop then
        var (after, st1) := ExecPost(host, code.post, defined, Passed(st, code.vars, to.vars));
        if after.Ended? then ReportOf(HaltFinal(after.halt), st1)
        else if st1.gas == 0 then ReportOf(Exhausted, st1)
        else Enter(host, code, up, defined, Renewed(st1.(gas := st1.gas - 1), code.vars))
      else if code.LoopRange? && to == ToNextIndex(code.loop, code.index) then
        if st.gas == 0 then ReportOf(Exhausted, st)
        else
          var index := IndexIn(temps, code.index) + 1;
          Enter(host, code, up, defined[code.index := Number(index)], st.(gas := st.gas - 1))
      else Leap(host, to, up, temps, st)
  }

  /** One call of a loop's iteration function, with its parameters bound. */
  function Enter(host: Host, code: Code, env: Env, temps: Temps, st: State): Report
    requires code.LoopFor? || code.LoopRange?
    decreases st.gas, CodeSize(code) + EnvSize(env), 0
  {
    if code.LoopFor? then
      var (holds, st1) := Guard(host, code.when, temps, st);
      if holds.Halted? then ReportOf(HaltFinal(holds.halt), st1)
      else Run(host, if holds.value then code.body else code.after, InLoop(code, temps, env), temps, st1)
    else
      var over, index := HeldIn(temps, code.held), IndexIn(temps, code.index);
      if index >= LoopLimit(host, code.kind, over) then Run(host, code.after, InLoop(code, temps, env), temps, st)
      else Run(host, code.body, InLoop(code, temps, env), temps, Iteration(host, code.kind, code.bound, over, index, st))
  }

  /** Interpreting the emitted Suspend. */
  function RunRewritten(host: Host, code: Code, st: State): Report {
    Run(host, code, Top, map[], st)
  }
}
