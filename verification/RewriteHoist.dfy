/** Hoisting: awaiting a statement's steps ahead of it changes neither their order nor what the
    rest of the statement sees. */
module RewriteHoist {
  import opened Direct
  import opened Rewrite

  // Names of awaited values ---------------------------------------------------------------

  /** Every name of an awaited value in the expression is numbered below `m`; source expressions
      hold none at all. */
  predicate TempsBelow(e: Expr, m: nat) {
    match e
    case Temp(t) => t < m
    case Prim(_, args) => AllTempsBelow(args, m)
    case Call(_, args) => AllTempsBelow(args, m)
    case Await(fx, _) => TempsBelow(fx, m)
    case AndAlso(l, r) => TempsBelow(l, m) && TempsBelow(r, m)
    case OrElse(l, r) => TempsBelow(l, m) && TempsBelow(r, m)
    case _ => true
  }

  predicate AllTempsBelow(es: seq<Expr>, m: nat) {
    es != [] ==> TempsBelow(es[0], m) && AllTempsBelow(es[1..], m)
  }

  ghost predicate AgreeBelow(a: Temps, b: Temps, m: nat) {
    forall t: nat :: t < m ==> (t in a <==> t in b) && (t in a ==> a[t] == b[t])
  }

  lemma {:induction false} TempsBelowMore(e: Expr, m: nat, more: nat)
    requires TempsBelow(e, m) && m <= more
    ensures TempsBelow(e, more)
    decreases e
  {
    match e
    case Prim(_, args) => AllTempsBelowMore(args, m, more);
    case Call(_, args) => AllTempsBelowMore(args, m, more);
    case Await(fx, _) => TempsBelowMore(fx, m, more);
    case AndAlso(l, r) => TempsBelowMore(l, m, more); TempsBelowMore(r, m, more);
    case OrElse(l, r) => TempsBelowMore(l, m, more); TempsBelowMore(r, m, more);
    case _ =>
  }

  lemma {:induction false} AllTempsBelowMore(es: seq<Expr>, m: nat, more: nat)
    requires AllTempsBelow(es, m) && m <= more
    ensures AllTempsBelow(es, more)
    decreases es
  {
    if es != [] {
      TempsBelowMore(es[0], m, more);
      AllTempsBelowMore(es[1..], m, more);
    }
  }

  lemma {:induction false} OperandIgnoresTemps(host: Host, e: Expr, m: nat, a: Temps, b: Temps, st: State)
    requires TempsBelow(e, m) && AgreeBelow(a, b, m)
    ensures Operand(host, e, a, st) == Operand(host, e, b, st)
    decreases e
  {
    match e
    case Prim(_, args) => OperandsIgnoreTemps(host, args, m, a, b, st);
    case AndAlso(l, r) =>
      OperandIgnoresTemps(host, l, m, a, b, st);
      OperandIgnoresTemps(host, r, m, a, b, Operand(host, l, a, st).1);
    case OrElse(l, r) =>
      OperandIgnoresTemps(host, l, m, a, b, st);
      OperandIgnoresTemps(host, r, m, a, b, Operand(host, l, a, st).1);
    case _ =>
  }

  lemma {:induction false} OperandsIgnoreTemps(host: Host, es: seq<Expr>, m: nat, a: Temps, b: Temps, st: State)
    requires AllTempsBelow(es, m) && AgreeBelow(a, b, m)
    ensures Operands(host, es, a, st) == Operands(host, es, b, st)
    decreases es
  {
    if es != [] {
      OperandIgnoresTemps(host, es[0], m, a, b, st);
      OperandsIgnoreTemps(host, es[1..], m, a, b, Operand(host, es[0], a, st).1);
    }
  }

  lemma {:induction false} ResolveIgnoresTemps(host: Host, e: Expr, m: nat, a: Temps, b: Temps, st: State)
    requires TempsBelow(e, m) && AgreeBelow(a, b, m)
    ensures Resolve(host, e, a, st) == Resolve(host, e, b, st)
    ensures var r := Resolve(host, e, a, st).0; r.Got? ==> TempsBelow(r.value, m)
    decreases e, 1
  {
    match e
    case Prim(_, args) => ResolveAllIgnoresTemps(host, args, m, a, b, st);
    case Call(fn, args) =>
      ResolveAllIgnoresTemps(host, args, m, a, b, st);
      var (es, st1) := ResolveAll(host, args, a, st);
      if es.Got? {
        OperandsIgnoreTemps(host, es.value, m, a, b, st1);
      }
    case Await(fx, _) =>
      ResolveIgnoresTemps(host, fx, m, a, b, st);
      var (e', st1) := Resolve(host, fx, a, st);
      if e'.Got? {
        OperandIgnoresTemps(host, e'.value, m, a, b, st1);
      }
    case AndAlso(_, _) => ResolveEitherIgnoresTemps(host, e, m, a, b, st);
    case OrElse(_, _) => ResolveEitherIgnoresTemps(host, e, m, a, b, st);
    case _ =>
  }

  lemma {:induction false} ResolveEitherIgnoresTemps(host: Host, e: Expr, m: nat, a: Temps, b: Temps, st: State)
    requires (e.AndAlso? || e.OrElse?) && TempsBelow(e, m) && AgreeBelow(a, b, m)
    ensures Resolve(host, e, a, st) == Resolve(host, e, b, st)
    ensures var r := Resolve(host, e, a, st).0; r.Got? ==> TempsBelow(r.value, m)
    decreases e, 0
  {
    ResolveIgnoresTemps(host, e.left, m, a, b, st);
    var (l, st1) := Resolve(host, e.left, a, st);
    if l.Got? {
      OperandIgnoresTemps(host, l.value, m, a, b, st1);
      ResolveIgnoresTemps(host, e.right, m, a, b, Operand(host, l.value, a, st1).1);
    }
  }

  lemma {:induction false} ResolveAllIgnoresTemps(host: Host, es: seq<Expr>, m: nat, a: Temps, b: Temps, st: State)
    requires AllTempsBelow(es, m) && AgreeBelow(a, b, m)
    ensures ResolveAll(host, es, a, st) == ResolveAll(host, es, b, st)
    ensures var r := ResolveAll(host, es, a, st).0; r.Got? ==> AllTempsBelow(r.value, m)
    decreases es, 0
  {
    if es != [] {
      ResolveIgnoresTemps(host, es[0], m, a, b, st);
      var (e, st1) := Resolve(host, es[0], a, st);
      if e.Got? {
        ResolveAllIgnoresTemps(host, es[1..], m, a, b, st1);
      }
    }
  }

  // Expressions without calls -------------------------------------------------------------

  /** The expression with awaited values filled in, where resolving fills them in. */
  function Close(e: Expr, temps: Temps): Expr {
    match e
    case Temp(t) => Lit(if t in temps then temps[t] else Number(0))
    case Prim(op, args) => Prim(op, CloseAll(args, temps))
    case AndAlso(l, r) => AndAlso(Close(l, temps), r)
    case OrElse(l, r) => OrElse(Close(l, temps), r)
    case _ => e
  }

  function CloseAll(es: seq<Expr>, temps: Temps): seq<Expr> {
    if es == [] then [] else [Close(es[0], temps)] + CloseAll(es[1..], temps)
  }

  /** Without calls to perform, resolving only fills in awaited values, whatever the state. */
  lemma {:induction false} QuietResolves(host: Host, e: Expr, temps: Temps, st: State)
    requires !Acts(e)
    ensures Resolve(host, e, temps, st) == (Got(Close(e, temps)), st)
    decreases e
  {
    match e
    case Prim(_, args) => AllQuietResolves(host, args, temps, st);
    case AndAlso(l, _) => QuietResolves(host, l, temps, st);
    case OrElse(l, _) => QuietResolves(host, l, temps, st);
    case _ =>
  }

  lemma {:induction false} AllQuietResolves(host: Host, es: seq<Expr>, temps: Temps, st: State)
    requires !ActsAny(es)
    ensures ResolveAll(host, es, temps, st) == (Got(CloseAll(es, temps)), st)
    decreases es
  {
    if es != [] {
      QuietResolves(host, es[0], temps, st);
      AllQuietResolves(host, es[1..], temps, st);
    }
  }

  lemma {:induction false} CloseAgrees(e: Expr, m: nat, a: Temps, b: Temps)
    requires TempsBelow(e, m) && AgreeBelow(a, b, m)
    ensures Close(e, a) == Close(e, b)
    decreases e
  {
    match e
    case Prim(_, args) => CloseAllAgree(args, m, a, b);
    case AndAlso(l, _) => CloseAgrees(l, m, a, b);
    case OrElse(l, _) => CloseAgrees(l, m, a, b);
    case _ =>
  }

  lemma {:induction false} CloseAllAgree(es: seq<Expr>, m: nat, a: Temps, b: Temps)
    requires AllTempsBelow(es, m) && AgreeBelow(a, b, m)
    ensures CloseAll(es, a) == CloseAll(es, b)
    decreases es
  {
    if es != [] {
      CloseAgrees(es[0], m, a, b);
      CloseAllAgree(es[1..], m, a, b);
    }
  }

  // What hoisting and scanning leave ------------------------------------------------------

  lemma {:induction false} NothingToHoist(e: Expr, n: nat)
    requires !AwaitsIn(e)
    ensures Hoist(e, n) == Hoisted([], e, n)
    decreases e
  {
    match e
    case Prim(_, args) => NothingToHoistAll(args, n);
    case Call(_, args) => NothingToHoistAll(args, n);
    case AndAlso(l, r) => NothingToHoist(l, n); NothingToHoist(r, n);
    case OrElse(l, r) => NothingToHoist(l, n); NothingToHoist(r, n);
    case _ =>
  }

  lemma {:induction false} NothingToHoistAll(es: seq<Expr>, n: nat)
    requires !AwaitsInAny(es)
    ensures HoistAll(es, n) == HoistedAll([], es, n)
    decreases es
  {
    if es != [] {
      NothingToHoist(es[0], n);
      NothingToHoistAll(es[1..], n);
      assert [es[0]] + es[1..] == es;
    }
  }

  predicate StepsFrom(steps: seq<Step>, n: nat, next: nat) {
    forall i :: 0 <= i < |steps| ==> n <= steps[i].temp < next
  }

  /** New names are numbered from `n` on, and what is left calls nothing unless the scan found a
      call outside the steps. */
  lemma {:induction false} HoistShape(e: Expr, n: nat, dirty: bool)
    requires TempsBelow(e, n)
    ensures var h := Hoist(e, n);
            && TempsBelow(h.e, h.next) && StepsFrom(h.steps, n, h.next)
            && (Scan(e, dirty) == (true, false) ==> !Acts(h.e))
            && (dirty ==> Scan(e, dirty).1)
            && (AwaitsIn(e) && Scan(e, dirty).0 ==> !dirty)
            && (AwaitsIn(e) ==> h.steps != [])
    decreases e
  {
    match e
    case Prim(_, args) => HoistAllShape(args, n, dirty);
    case Call(_, args) => HoistAllShape(args, n, dirty);
    case Await(fx, _) =>
      HoistShape(fx, n, false);
    case AndAlso(l, r) => HoistEitherShape(e, n, dirty);
    case OrElse(l, r) => HoistEitherShape(e, n, dirty);
    case _ =>
  }

  lemma {:induction false} HoistEitherShape(e: Expr, n: nat, dirty: bool)
    requires (e.AndAlso? || e.OrElse?) && TempsBelow(e, n)
    ensures var h := Hoist(e, n);
            && TempsBelow(h.e, h.next) && StepsFrom(h.steps, n, h.next)
            && (Scan(e, dirty) == (true, false) ==> !Acts(h.e))
            && (dirty ==> Scan(e, dirty).1)
            && (AwaitsIn(e) && Scan(e, dirty).0 ==> !dirty)
            && (AwaitsIn(e) ==> h.steps != [])
    decreases e, 0
  {
    var h := Hoist(e.left, n);
    HoistShape(e.left, n, dirty);
    TempsBelowMore(e.right, n, h.next);
    HoistShape(e.right, h.next, Scan(e.left, dirty).1);
    TempsBelowMore(h.e, h.next, Hoist(e.right, h.next).next);
    if !AwaitsIn(e.right) {
      NothingToHoist(e.right, h.next);
    }
  }

  lemma {:induction false} HoistAllShape(es: seq<Expr>, n: nat, dirty: bool)
    requires AllTempsBelow(es, n)
    ensures var h := HoistAll(es, n);
            && AllTempsBelow(h.es, h.next) && StepsFrom(h.steps, n, h.next)
            && (ScanAll(es, dirty) == (true, false) ==> !ActsAny(h.es))
            && (dirty ==> ScanAll(es, dirty).1)
            && (AwaitsInAny(es) && ScanAll(es, dirty).0 ==> !dirty)
            && (AwaitsInAny(es) ==> h.steps != [])
    decreases es
  {
    if es != [] {
      var h := Hoist(es[0], n);
      HoistShape(es[0], n, dirty);
      AllTempsBelowMore(es[1..], n, h.next);
      HoistAllShape(es[1..], h.next, Scan(es[0], dirty).1);
      TempsBelowMore(h.e, h.next, HoistAll(es[1..], h.next).next);
      assert ([h.e] + HoistAll(es[1..], h.next).es)[1..] == HoistAll(es[1..], h.next).es;
    }
  }

  // Running the steps ---------------------------------------------------------------------

  /** Awaits the steps one after the other and binds their values. */
  function RunSteps(host: Host, steps: seq<Step>, temps: Temps, st: State): (r: (Result<Temps>, State))
    ensures r.1.gas == st.gas
  {
    if steps == [] then (Got(temps), st)
    else
      var (v, st1) := AwaitExpr(host, steps[0].fx, temps, st);
      if v.Halted? then (Halted(v.halt), st1)
      else RunSteps(host, steps[1..], temps[steps[0].temp := v.value], st1)
  }

  lemma {:induction false} RunStepsAppend(host: Host, a: seq<Step>, b: seq<Step>, temps: Temps, st: State)
    ensures RunSteps(host, a + b, temps, st)
         == var (t, st1) := RunSteps(host, a, temps, st);
            if t.Halted? then (t, st1) else RunSteps(host, b, t.value, st1)
    decreases |a|
  {
    if a == [] {
      assert a + b == b;
    } else {
      assert (a + b)[0] == a[0] && (a + b)[1..] == a[1..] + b;
      var (v, st1) := AwaitExpr(host, a[0].fx, temps, st);
      if v.Got? {
        RunStepsAppend(host, a[1..], b, temps[a[0].temp := v.value], st1);
      }
    }
  }

  lemma {:induction false} StepsBindFrom(host: Host, steps: seq<Step>, n: nat, next: nat, temps: Temps, st: State)
    requires StepsFrom(steps, n, next)
    ensures var (t, _) := RunSteps(host, steps, temps, st); t.Got? ==> AgreeBelow(temps, t.value, n)
    decreases |steps|
  {
    if steps != [] {
      var (v, st1) := AwaitExpr(host, steps[0].fx, temps, st);
      if v.Got? {
        StepsBindFrom(host, steps[1..], n, next, temps[steps[0].temp := v.value], st1);
      }
    }
  }

  /** A chain awaits its steps and goes on with what is inside it. */
  lemma {:induction false} ChainRuns(host: Host, steps: seq<Step>, inner: Code, env: Env, temps: Temps, st: State)
    ensures Run(host, Chain(steps, inner), env, temps, st)
         == var (t, st1) := RunSteps(host, steps, temps, st);
            if t.Halted? then ReportOf(HaltFinal(t.halt), st1) else Run(host, inner, env, t.value, st1)
    decreases |steps|
  {
    if steps != [] {
      FirstStepRuns(host, steps, inner, env, temps, st);
      var (v, st1) := AwaitExpr(host, steps[0].fx, temps, st);
      if v.Got? {
        ChainRuns(host, steps[1..], inner, env, temps[steps[0].temp := v.value], st1);
      }
    }
  }

  lemma {:induction false} FirstStepRuns(host: Host, steps: seq<Step>, inner: Code, env: Env, temps: Temps, st: State)
    requires steps != []
    ensures Run(host, Chain(steps, inner), env, temps, st)
         == var (v, st1) := AwaitExpr(host, steps[0].fx, temps, st);
            if v.Halted? then ReportOf(HaltFinal(v.halt), st1)
            else Run(host, Chain(steps[1..], inner), env, temps[steps[0].temp := v.value], st1)
  {
  }

  // The hoisting theorem ------------------------------------------------------------------

  /** Awaiting the steps first and then performing the rest: the same halts, or the same calls
      and the same residual expression. */
  ghost predicate Agrees<T>(first: (Result<Temps>, State), whole: (Result<T>, State), rest: (Result<T>, State)) {
    if first.0.Halted? then whole == (Halted(first.0.halt), first.1) else whole == rest
  }

  /** Whenever the scan accepts an expression, awaiting all its steps in their order and then
      performing its remaining calls is performing everything from left to right. */
  lemma {:induction false} HoistingAgrees(host: Host, e: Expr, n: nat, dirty: bool, temps: Temps, st: State)
    requires TempsBelow(e, n) && Scan(e, dirty).0
    ensures var h := Hoist(e, n);
            var first := RunSteps(host, h.steps, temps, st);
            Agrees(first, Resolve(host, e, temps, st),
                   if first.0.Got? then Resolve(host, h.e, first.0.value, first.1) else (Halted(first.0.halt), first.1))
    decreases e, 1
  {
    match e
    case Prim(_, args) => HoistingAllAgrees(host, args, n, dirty, temps, st);
    case Call(_, _) => HoistingCallAgrees(host, e, n, dirty, temps, st);
    case Await(_, _) => HoistingAwaitAgrees(host, e, n, dirty, temps, st);
    case AndAlso(_, _) => HoistingEitherAgrees(host, e, n, dirty, temps, st);
    case OrElse(_, _) => HoistingEitherAgrees(host, e, n, dirty, temps, st);
    case _ =>
  }

  lemma {:induction false} HoistingCallAgrees(host: Host, e: Expr, n: nat, dirty: bool, temps: Temps, st: State)
    requires e.Call? && TempsBelow(e, n) && Scan(e, dirty).0
    ensures var h := Hoist(e, n);
            var first := RunSteps(host, h.steps, temps, st);
            Agrees(first, Resolve(host, e, temps, st),
                   if first.0.Got? then Resolve(host, h.e, first.0.value, first.1) else (Halted(first.0.halt), first.1))
    decreases e, 0
  {
    HoistingAllAgrees(host, e.args, n, dirty, temps, st);
    HoistAllShape(e.args, n, dirty);
    var h := HoistAll(e.args, n);
    var (t, st1) := RunSteps(host, h.steps, temps, st);
    if t.Got? {
      StepsBindFrom(host, h.steps, n, h.next, temps, st);
      ResolveAllIgnoresTemps(host, e.args, n, temps, temps, st);
      var (es, st2) := ResolveAll(host, e.args, temps, st);
      if es.Got? {
        OperandsIgnoreTemps(host, es.value, n, temps, t.value, st2);
      }
    }
  }

  lemma {:induction false} HoistingAwaitAgrees(host: Host, e: Expr, n: nat, dirty: bool, temps: Temps, st: State)
    requires e.Await? && TempsBelow(e, n) && Scan(e, dirty).0
    ensures var h := Hoist(e, n);
            var first := RunSteps(host, h.steps, temps, st);
            Agrees(first, Resolve(host, e, temps, st),
                   if first.0.Got? then Resolve(host, h.e, first.0.value, first.1) else (Halted(first.0.halt), first.1))
    decreases e, 0
  {
    HoistingAgrees(host, e.fx, n, false, temps, st);
    HoistShape(e.fx, n, false);
    var h := Hoist(e.fx, n);
    var step := Step(h.e, h.next);
    RunStepsAppend(host, h.steps, [step], temps, st);
    var (t, st1) := RunSteps(host, h.steps, temps, st);
    if t.Got? {
      StepsBindFrom(host, h.steps, n, h.next, temps, st);
      ResolveIgnoresTemps(host, e.fx, n, temps, temps, st);
      var (e', st2) := Resolve(host, e.fx, temps, st);
      if e'.Got? {
        OperandIgnoresTemps(host, e'.value, n, temps, t.value, st2);
      }
      assert AwaitExpr(host, h.e, t.value, st1).1 == Resolve(host, e, temps, st).1;
    }
  }

  lemma {:induction false} HoistingEitherAgrees(host: Host, e: Expr, n: nat, dirty: bool, temps: Temps, st: State)
    requires (e.AndAlso? || e.OrElse?) && TempsBelow(e, n) && Scan(e, dirty).0
    ensures var h := Hoist(e, n);
            var first := RunSteps(host, h.steps, temps, st);
            Agrees(first, Resolve(host, e, temps, st),
                   if first.0.Got? then Resolve(host, h.e, first.0.value, first.1) else (Halted(first.0.halt), first.1))
    decreases e, 0
  {
    HoistingAgrees(host, e.left, n, dirty, temps, st);
    HoistShape(e.left, n, dirty);
    var h := Hoist(e.left, n);
    NothingToHoist(e.right, h.next);
    assert h.steps + [] == h.steps;
    var (t, st1) := RunSteps(host, h.steps, temps, st);
    if t.Got? {
      StepsBindFrom(host, h.steps, n, h.next, temps, st);
      ResolveIgnoresTemps(host, e.left, n, temps, temps, st);
      var (l, st2) := Resolve(host, e.left, temps, st);
      if l.Got? {
        OperandIgnoresTemps(host, l.value, n, temps, t.value, st2);
        ResolveIgnoresTemps(host, e.right, n, temps, t.value, Operand(host, l.value, temps, st2).1);
      }
    }
  }

  lemma {:induction false} HoistingAllAgrees(host: Host, es: seq<Expr>, n: nat, dirty: bool, temps: Temps, st: State)
    requires AllTempsBelow(es, n) && ScanAll(es, dirty).0
    ensures var h := HoistAll(es, n);
            var first := RunSteps(host, h.steps, temps, st);
            Agrees(first, ResolveAll(host, es, temps, st),
                   if first.0.Got? then ResolveAll(host, h.es, first.0.value, first.1) else (Halted(first.0.halt), first.1))
    decreases es, 0
  {
    if es != [] {
      var d := Scan(es[0], dirty).1;
      var h := Hoist(es[0], n);
      var hs := HoistAll(es[1..], h.next);
      HoistingAgrees(host, es[0], n, dirty, temps, st);
      HoistShape(es[0], n, dirty);
      AllTempsBelowMore(es[1..], n, h.next);
      HoistAllShape(es[1..], h.next, d);
      RunStepsAppend(host, h.steps, hs.steps, temps, st);
      var (t, st1) := RunSteps(host, h.steps, temps, st);
      if t.Got? {
        StepsBindFrom(host, h.steps, n, h.next, temps, st);
        if AwaitsInAny(es[1..]) {
          LaterStepsAgree(host, es, n, dirty, temps, st, t.value, st1);
        } else {
          NothingToHoistAll(es[1..], h.next);
          assert h.steps + hs.steps == h.steps;
          var (e, st2) := Resolve(host, es[0], temps, st);
          if e.Got? {
            ResolveAllIgnoresTemps(host, es[1..], n, temps, t.value, st2);
          }
          assert ([h.e] + hs.es)[1..] == es[1..];
        }
      }
    }
  }

  /** With steps still to come, what is left of the first expression calls nothing, so awaiting
      those steps first changes nothing about it. */
  lemma {:induction false} LaterStepsAgree(host: Host, es: seq<Expr>, n: nat, dirty: bool, temps: Temps, st: State, t: Temps, st1: State)
    requires es != [] && AllTempsBelow(es, n) && ScanAll(es, dirty).0 && AwaitsInAny(es[1..])
    requires RunSteps(host, Hoist(es[0], n).steps, temps, st) == (Got(t), st1)
    requires Resolve(host, es[0], temps, st) == Resolve(host, Hoist(es[0], n).e, t, st1)
    requires AgreeBelow(temps, t, n)
    ensures var h := HoistAll(es, n);
            var first := RunSteps(host, HoistAll(es[1..], Hoist(es[0], n).next).steps, t, st1);
            Agrees(first, ResolveAll(host, es, temps, st),
                   if first.0.Got? then ResolveAll(host, h.es, first.0.value, first.1) else (Halted(first.0.halt), first.1))
    decreases es, 0, 0
  {
    var h := Hoist(es[0], n);
    var hs := HoistAll(es[1..], h.next);
    HoistShape(es[0], n, dirty);
    AllTempsBelowMore(es[1..], n, h.next);
    HoistAllShape(es[1..], h.next, Scan(es[0], dirty).1);
    QuietResolves(host, h.e, t, st1);
    HoistingAllAgrees(host, es[1..], h.next, Scan(es[0], dirty).1, t, st1);
    ResolveAllIgnoresTemps(host, es[1..], n, temps, t, st1);
    var (t2, st2) := RunSteps(host, hs.steps, t, st1);
    if t2.Got? {
      StepsBindFrom(host, hs.steps, h.next, hs.next, t, st1);
      QuietResolves(host, h.e, t2.value, st2);
      CloseAgrees(h.e, h.next, t, t2.value);
      assert ([h.e] + hs.es)[1..] == hs.es;
    }
  }
}
