/** Where the rewrite does change a meaning: a := that is captured by its own declarations, and a
    loop variable whose address the post statement takes. */
module RewriteLimits {
  import opened Direct
  import opened Rewrite
  import opened RewriteHoist
  import opened RewriteSpell
  import opened RewriteFlow
  import opened RewriteFollow
  import opened RewriteScopes
  import opened RewriteCorrect

  // A := captured by its own declarations -------------------------------------------------

  function Vars(xs: seq<Name>): (es: seq<Expr>)
    ensures |es| == |xs|
  {
    if xs == [] then [] else [Var(xs[0])] + Vars(xs[1..])
  }

  lemma {:induction false} RespellVars(xs: seq<Name>, names: seq<Name>)
    ensures RespellAll(Vars(xs), names) == Vars(Denoted(xs, names))
  {
    if xs != [] {
      RespellVars(xs[1..], names);
      assert Vars(xs)[1..] == Vars(xs[1..]);
    }
  }

  lemma {:induction false} VarsRead(host: Host, xs: seq<Name>, temps: Temps, st: State)
    ensures ResolveAll(host, Vars(xs), temps, st) == (Got(Vars(xs)), st)
    ensures Operands(host, Vars(xs), temps, st) == (Got(ReadAll(xs, st)), st)
  {
    if xs != [] {
      VarsRead(host, xs[1..], temps, st);
      assert Vars(xs)[1..] == Vars(xs[1..]);
    }
  }

  /** A call of a function with variables as its arguments. */
  lemma {:induction false} CallEvaluates(host: Host, fn: Fn, xs: seq<Name>, temps: Temps, st: State)
    ensures var (answer, store) := host.call(fn, ReadAll(xs, st), st.store);
            EvaluateAll(host, [Call(fn, Vars(xs))], temps, st)
             == (if answer.Gives? then Got([answer.value]) else Halted(Crashed(answer.defect)),
                 st.Seen(Called(fn, ReadAll(xs, st))).(store := store))
  {
    VarsRead(host, xs, temps, st);
    EvaluatesOne(host, Call(fn, Vars(xs)), temps, st);
  }

  lemma {:induction false} EvaluatesOne(host: Host, e: Expr, temps: Temps, st: State)
    ensures var (v, st1) := Evaluate(host, e, temps, st);
            EvaluateAll(host, [e], temps, st) == (if v.Halted? then Halted(v.halt) else Got([v.value]), st1)
  {
    var (e', st1) := Resolve(host, e, temps, st);
    assert [e][1..] == [];
    if e'.Got? {
      assert [e'.value] + [] == [e'.value];
      assert ResolveAll(host, [e], temps, st) == (Got([e'.value]), st1);
      OperandAlone(host, e'.value, temps, st1);
    }
  }

  lemma {:induction false} OperandAlone(host: Host, e: Expr, temps: Temps, st: State)
    ensures var (v, st1) := Operand(host, e, temps, st);
            Operands(host, [e], temps, st) == (if v.Halted? then Halted(v.halt) else Got([v.value]), st1)
  {
    var (v, st1) := Operand(host, e, temps, st);
    assert [e][1..] == [];
    if v.Got? {
      assert [v.value] + [] == [v.value];
    }
  }

  /** The argument's identifier still denotes the same variable after the declarations, or reads
      the same either way. */
  predicate Unharmed(x: Name, names: seq<Name>, st: State) {
    Apart(x, names) || st.Read(x) == Denotes(x, names).zero
  }

  lemma {:induction false} DenotesOneOf(x: Name, names: seq<Name>)
    ensures Apart(x, names) ==> Denotes(x, names) == x && x !in names
    ensures !Apart(x, names) ==> Denotes(x, names) in names
  {
    if names != [] && names[0].spelling != x.spelling {
      DenotesOneOf(x, names[1..]);
      assert names == [names[0]] + names[1..];
    }
  }

  lemma {:induction false} ReadsThroughOverlay(x: Name, names: seq<Name>, st: State)
    ensures Overlay(st, names).Read(Denotes(x, names)) == (if Apart(x, names) then st.Read(x) else Denotes(x, names).zero)
  {
    DenotesOneOf(x, names);
  }

  /** A := that reuses a name and calls a function with variables keeps its meaning exactly where
      every argument spelled like a newly declared name reads as that name's zero value. */
  lemma {:induction false} RedeclarationKeepsExactly(host: Host, targets: seq<Target>, fn: Fn, xs: seq<Name>, temps: Temps, st: State)
    requires Mixed(targets) && TargetsApart(targets)
    ensures var s := Assign(targets, [Call(fn, Vars(xs))]);
            SameFrom(Exec(host, Spell(s, NO_JUMPS), temps, st), Exec(host, s, temps, st))
            <==> forall i :: 0 <= i < |xs| ==> Unharmed(xs[i], NewNames(targets), st)
  {
    var names := NewNames(targets);
    var ys := Denoted(xs, names);
    var st' := Overlay(st, names);
    SpelledCall(host, targets, fn, xs, temps, st);
    CallEvaluates(host, fn, xs, temps, st);
    CallEvaluates(host, fn, ys, temps, st');
    forall i | 0 <= i < |xs|
      ensures ReadAll(ys, st')[i] == ReadAll(xs, st)[i] <==> Unharmed(xs[i], names, st)
    {
      ReadsThroughOverlay(xs[i], names, st);
    }
    if ReadAll(ys, st') == ReadAll(xs, st) {
      CallOverlaid(host, targets, fn, xs, ys, temps, st);
      assert forall i :: 0 <= i < |xs| ==> ReadAll(ys, st')[i] == ReadAll(xs, st)[i];
    } else {
      assert Called(fn, ReadAll(ys, st')) != Called(fn, ReadAll(xs, st));
      TracesDiffer(st.trace, Called(fn, ReadAll(ys, st')), Called(fn, ReadAll(xs, st)));
      AssignTrace(host, OldTargets(targets), fn, ys, temps, st');
      AssignTrace(host, targets, fn, xs, temps, st);
    }
  }

  /** A body of that := and a returned effect. */
  function RedeclaringBody(targets: seq<Target>, fn: Fn, xs: seq<Name>, fx: Datum): seq<Stmt> {
    [Assign(targets, [Call(fn, Vars(xs))]), Return(Await(Lit(fx), true))]
  }

  /** How such a body ends once the := has run. */
  function ThenAwaits(host: Host, fx: Datum, r: (Ending, State)): Report {
    if r.0.Ended? then ReportOf(HaltFinal(r.0.halt), r.1)
    else
      var (v, st) := Settle(host, fx, r.1);
      ReportOf(if v.Halted? then HaltFinal(v.halt) else Succeeded(v.value), st)
  }

  lemma {:induction false} VarsAwaitNothing(xs: seq<Name>)
    ensures !AwaitsInAny(Vars(xs))
  {
    if xs != [] {
      VarsAwaitNothing(xs[1..]);
      assert Vars(xs)[1..] == Vars(xs[1..]);
    }
  }

  lemma {:induction false} RedeclaringEmitted(targets: seq<Target>, fn: Fn, xs: seq<Name>, fx: Datum)
    ensures var body := RedeclaringBody(targets, fn, xs, fx);
            Body(body).Emitted? && Body(body).code == Text(Spell(body[0], NO_JUMPS), ReturnFx(Lit(fx)))
  {
    var body := RedeclaringBody(targets, fn, xs, fx);
    var answer := body[1];
    VarsAwaitNothing(xs);
    HoistOne(Call(fn, Vars(xs)), 0);
    HoistOne(answer.answer, 0);
    assert body[1..] == [answer] && [answer][1..] == [];
    assert Hoist(Lit(fx), 0) == Hoisted([], Lit(fx), 0);
    assert Statement(answer, [], Nowhere, NO_JUMPS, 0) == Emitted(ReturnFx(Lit(fx)), 0);
    assert List([answer], Nowhere, NO_JUMPS, 0) == Emitted(ReturnFx(Lit(fx)), 0);
    assert !Needs(body[0]);
  }

  lemma {:induction false} DenotedTwice(xs: seq<Name>, names: seq<Name>)
    ensures Denoted(Denoted(xs, names), names) == Denoted(xs, names)
  {
    if xs != [] {
      DenotedTwice(xs[1..], names);
      DenotesTwice(xs[0], names);
      assert Denoted(xs, names)[1..] == Denoted(xs[1..], names);
    }
  }

  lemma {:induction false} DenotesTwice(x: Name, names: seq<Name>)
    ensures Denotes(Denotes(x, names), names) == Denotes(x, names)
    ensures Denotes(x, names).spelling == x.spelling
  {
    if names != [] && names[0].spelling != x.spelling {
      DenotesTwice(x, names[1..]);
    }
  }

  /** In these bodies the := is all there is to capture. */
  lemma {:induction false} RedeclaringReads(targets: seq<Target>, fn: Fn, xs: seq<Name>, fx: Datum)
    requires Mixed(targets) && TargetsApart(targets)
    ensures var body := RedeclaringBody(targets, fn, xs, fx);
            && Resolved(body) && Unshadowed(body) && Body(body).Emitted? && BodyCompiles(body) && ReadBody(body) == Body(body).code
  {
    var body := RedeclaringBody(targets, fn, xs, fx);
    RedeclaringEmitted(targets, fn, xs, fx);
    RedeclaringResolved(targets, fn, xs, fx);
    RedeclaringCodeReads(targets, fn, xs, fx);
    MeantCompiles(Body(body).code, OUTSIDE);
  }

  lemma {:induction false} FreeVarsRead(xs: seq<Name>)
    ensures RespellAll(Vars(xs), []) == Vars(xs)
  {
    if xs != [] {
      FreeVarsRead(xs[1..]);
      assert Vars(xs)[1..] == Vars(xs[1..]);
    }
  }

  lemma {:induction false} FreeTargetsRead(targets: seq<Target>)
    ensures ReadTargets(targets, OUTSIDE) == targets
  {
    if targets != [] {
      FreeTargetsRead(targets[1..]);
      assert [targets[0]] + targets[1..] == targets;
    }
  }

  lemma {:induction false} RedeclaringResolved(targets: seq<Target>, fn: Fn, xs: seq<Name>, fx: Datum)
    requires Mixed(targets)
    ensures Resolved(RedeclaringBody(targets, fn, xs, fx)) && Unshadowed(RedeclaringBody(targets, fn, xs, fx))
  {
    var body := RedeclaringBody(targets, fn, xs, fx);
    var es := [Call(fn, Vars(xs))];
    FreeVarsRead(xs);
    FreeTargetsRead(targets);
    VarsAwaitNothing(xs);
    assert es[1..] == [] && RespellAll(es, []) == [Call(fn, Vars(xs))] + [];
    var inner := After(body[0], OUTSIDE);
    assert Respell(Lit(fx), inner.Visible()) == Lit(fx);
    assert ReadStmt(body[0], OUTSIDE) == body[0] && ReadStmt(body[1], inner) == body[1];
    TwoRead(body[0], body[1], OUTSIDE);
    assert ReadList(body, OUTSIDE) == [body[0], body[1]];
    HoistOne(Call(fn, Vars(xs)), 0);
    assert body[1..] == [body[1]] && [body[1]][1..] == [];
    assert !Needs(body[0]);
  }

  lemma {:induction false} RedeclaringCodeReads(targets: seq<Target>, fn: Fn, xs: seq<Name>, fx: Datum)
    requires Mixed(targets) && TargetsApart(targets)
    ensures var code := Text(Spell(RedeclaringBody(targets, fn, xs, fx)[0], NO_JUMPS), ReturnFx(Lit(fx)));
            ReadCode(code, OUTSIDE) == code
  {
    var names := NewNames(targets);
    var es' := [Call(fn, Vars(Denoted(xs, names)))];
    var declare, assign := Assign(NewTargets(names), Zeros(names)), Assign(OldTargets(targets), es');
    CapturedCallReads(fn, xs, names);
    CapturedTargetsRead(targets);
    ZerosRead(names, [], OUTSIDE);
    assert names + [] == names && OUTSIDE.Visible() == [] && OUTSIDE.With(names).Visible() == names;
    assert ReadStmt(declare, OUTSIDE) == declare && After(declare, OUTSIDE) == OUTSIDE.With(names);
    assert ReadStmt(assign, OUTSIDE.With(names)) == assign;
    TwoRead(declare, assign, OUTSIDE);
  }

  lemma {:induction false} CapturedCallReads(fn: Fn, xs: seq<Name>, names: seq<Name>)
    ensures var es' := [Call(fn, Vars(Denoted(xs, names)))];
            RespellAll([Call(fn, Vars(xs))], names) == es' && RespellAll(es', names) == es'
  {
    var es, es' := [Call(fn, Vars(xs))], [Call(fn, Vars(Denoted(xs, names)))];
    RespellVars(xs, names);
    DenotedTwice(xs, names);
    RespellVars(Denoted(xs, names), names);
    assert es[1..] == [] && es'[1..] == [];
  }

  lemma {:induction false} CapturedTargetsRead(targets: seq<Target>)
    requires TargetsApart(targets)
    ensures ReadTargets(OldTargets(targets), OUTSIDE.With(NewNames(targets))) == OldTargets(targets)
  {
    var names := NewNames(targets);
    DeclaredOnce(targets);
    forall i | 0 <= i < |targets| && targets[i].New?
      ensures targets[i].name in names
    {
      NewNamesAreNew(targets, i);
    }
    forall i | 0 <= i < |targets| && targets[i].Old?
      ensures Apart(targets[i].name, names)
    {
      OldApartFromNew(targets, i);
    }
    OldTargetsRead(targets, names, OUTSIDE);
  }

  lemma {:induction false} RedeclaringRuns(host: Host, targets: seq<Target>, fn: Fn, xs: seq<Name>, fx: Datum, st: State)
    requires Mixed(targets)
    ensures var body := RedeclaringBody(targets, fn, xs, fx);
            && Body(body).Emitted?
            && RunRewritten(host, Body(body).code, st) == ThenAwaits(host, fx, Exec(host, Spell(body[0], NO_JUMPS), map[], st))
            && RunGenBody(host, body, st) == ThenAwaits(host, fx, Exec(host, body[0], map[], st))
  {
    var body := RedeclaringBody(targets, fn, xs, fx);
    RedeclaringEmitted(targets, fn, xs, fx);
    SpelledCall(host, targets, fn, xs, map[], st);
    TextThenAwaits(host, Spell(body[0], NO_JUMPS), fx, st);
    assert body[1..] == [body[1]];
    OnlyReturn(host, fx, Exec(host, body[0], map[], st).1);
  }

  lemma {:induction false} TextThenAwaits(host: Host, text: Stmt, fx: Datum, st: State)
    requires Exec(host, text, map[], st).0.Normal? || Exec(host, text, map[], st).0.Ended?
    ensures RunRewritten(host, Text(text, ReturnFx(Lit(fx))), st) == ThenAwaits(host, fx, Exec(host, text, map[], st))
  {
    var (ending, st1) := Exec(host, text, map[], st);
    if ending.Normal? {
      assert Evaluate(host, Lit(fx), map[], st1) == (Got(fx), st1);
      assert AwaitExpr(host, Lit(fx), map[], st1) == Settle(host, fx, st1);
      assert Run(host, ReturnFx(Lit(fx)), Top, map[], st1) == ThenAwaits(host, fx, (ending, st1));
    } else {
      assert Conclude(host, ending, Top, map[], st1) == ReportOf(HaltFinal(ending.halt), st1);
    }
  }

  lemma {:induction false} OnlyReturn(host: Host, fx: Datum, st: State)
    ensures var (v, st1) := Settle(host, fx, st);
            ExecList(host, [Return(Await(Lit(fx), true))], map[], st) == (if v.Halted? then Ended(v.halt) else Returned(v.value), st1)
  {
    var answer := Return(Await(Lit(fx), true));
    AwaitIsAwaitExpr(host, Lit(fx), true, map[], st);
    assert Evaluate(host, Lit(fx), map[], st) == (Got(fx), st);
    assert [answer][1..] == [];
  }

  lemma {:induction false} FirstCallShows(host: Host, fx: Datum, r: (Ending, State), trace: seq<Event>, called: Event)
    requires r.1.trace == trace + [called]
    ensures var report := ThenAwaits(host, fx, r); |report.trace| > |trace| && report.trace[|trace|] == called
  {
  }

  /** For whole bodies: the rewrite keeps what such a body does exactly where no argument that a
      declaration captures reads as anything but the zero value. */
  lemma {:induction false} RedeclaringBodyKeptExactly(host: Host, targets: seq<Target>, fn: Fn, xs: seq<Name>, fx: Datum, st: State)
    requires Mixed(targets) && TargetsApart(targets)
    ensures var body := RedeclaringBody(targets, fn, xs, fx);
            && Resolved(body) && Unshadowed(body) && Body(body).Emitted? && BodyCompiles(body)
            && (RunRewritten(host, ReadBody(body), st) == RunGenBody(host, body, st)
                <==> forall i :: 0 <= i < |xs| ==> Unharmed(xs[i], NewNames(targets), st))
  {
    var s := RedeclaringBody(targets, fn, xs, fx)[0];
    var names := NewNames(targets);
    var ys, st' := Denoted(xs, names), Overlay(st, names);
    RedeclaringReads(targets, fn, xs, fx);
    RedeclaringRuns(host, targets, fn, xs, fx, st);
    RedeclarationKeepsExactly(host, targets, fn, xs, map[], st);
    if !(forall i :: 0 <= i < |xs| ==> Unharmed(xs[i], names, st)) {
      var i :| 0 <= i < |xs| && !Unharmed(xs[i], names, st);
      ReadsThroughOverlay(xs[i], names, st);
      assert ReadAll(ys, st')[i] != ReadAll(xs, st)[i];
      SpelledCall(host, targets, fn, xs, map[], st);
      AssignTrace(host, OldTargets(targets), fn, ys, map[], st');
      AssignTrace(host, targets, fn, xs, map[], st);
      FirstCallShows(host, fx, Exec(host, s, map[], st), st.trace, Called(fn, ReadAll(xs, st)));
      FirstCallShows(host, fx, Exec(host, Spell(s, NO_JUMPS), map[], st), st.trace, Called(fn, ReadAll(ys, st')));
    }
  }

  const OUTER := Name("a", 0, Number(0))
  const INNER := Name("a", 1, Number(0))
  const ERR := Name("err", 2, Number(0))

  /** a, err := g(a) ahead of a returned effect, where the outer `a` is not zero: `g` is passed zero
      instead, whatever it does. */
  lemma {:induction false} RedeclarationIsCaptured(host: Host, fn: Fn, fx: Datum, st: State)
    requires st.Read(OUTER) != Number(0)
    ensures var body := RedeclaringBody([New(INNER), Old(ERR)], fn, [OUTER], fx);
            && Body(body).Emitted? && BodyCompiles(body)
            && RunRewritten(host, ReadBody(body), st) != RunGenBody(host, body, st)
  {
    var targets := [New(INNER), Old(ERR)];
    assert targets[1..] == [Old(ERR)] && targets[1..][1..] == [];
    assert NewNames([Old(ERR)]) == [] + [];
    assert NewNames(targets) == [INNER] + [];
    assert TargetNames([Old(ERR)]) == [ERR] + [];
    assert TargetsApart([Old(ERR)]);
    assert Denotes(OUTER, [INNER]) == INNER && !Unharmed(OUTER, [INNER], st);
    assert [OUTER][0] == OUTER;
    RedeclaringBodyKeptExactly(host, targets, fn, [OUTER], fx, st);
  }

  lemma TracesDiffer(trace: seq<Event>, a: Event, b: Event)
    requires a != b
    ensures trace + [a] != trace + [b]
  {
    assert (trace + [a])[|trace|] == a;
    assert (trace + [b])[|trace|] == b;
  }

  lemma {:induction false} SpelledCall(host: Host, targets: seq<Target>, fn: Fn, xs: seq<Name>, temps: Temps, st: State)
    requires Mixed(targets)
    ensures var names := NewNames(targets);
            Exec(host, Spell(Assign(targets, [Call(fn, Vars(xs))]), NO_JUMPS), temps, st)
             == ExecAssign(host, OldTargets(targets), [Call(fn, Vars(Denoted(xs, names)))], temps, Overlay(st, names))
  {
    var names := NewNames(targets);
    var es := [Call(fn, Vars(xs))];
    var declare := Assign(NewTargets(names), Zeros(names));
    var assign := Assign(OldTargets(targets), RespellAll(es, names));
    RespellVars(xs, names);
    assert es[1..] == [] && RespellAll(es, names) == [Call(fn, Vars(Denoted(xs, names)))];
    assert Redeclare(targets, es) == Declaring([declare, assign]);
    DeclareZeros(host, names, temps, st);
    ExecTwo(host, declare, assign, temps, st);
  }

  lemma {:induction false} AssignTrace(host: Host, targets: seq<Target>, fn: Fn, xs: seq<Name>, temps: Temps, st: State)
    ensures ExecAssign(host, targets, [Call(fn, Vars(xs))], temps, st).1.trace == st.trace + [Called(fn, ReadAll(xs, st))]
  {
    CallEvaluates(host, fn, xs, temps, st);
    var (vs, st1) := EvaluateAll(host, [Call(fn, Vars(xs))], temps, st);
    if vs.Got? {
      var p := if Pointers(targets) <= |vs.value| then Pointers(targets) else 0;
      StoringIsSilent(host, targets, vs.value[..p], Spread(host, vs.value[p..], |targets|), st1);
    }
  }

  lemma {:induction false} StoringIsSilent(host: Host, targets: seq<Target>, pointers: seq<Datum>, values: seq<Datum>, st: State)
    ensures StoreInto(host, targets, pointers, values, st).trace == st.trace
    decreases |targets|
  {
    if targets != [] && values != [] {
      var v, rest := values[0], values[1..];
      match targets[0]
      case New(x) => StoringIsSilent(host, targets[1..], pointers, rest, st.Declare(x, v));
      case Old(x) => StoringIsSilent(host, targets[1..], pointers, rest, st.Write(x, v));
      case Blank => StoringIsSilent(host, targets[1..], pointers, rest, st);
      case Into =>
        if pointers != [] && pointers[0].Pointer? {
          StoringIsSilent(host, targets[1..], pointers[1..], rest, st.Poke(pointers[0].cell, v));
        }
    }
  }

  lemma {:induction false} CallOverlaid(host: Host, targets: seq<Target>, fn: Fn, xs: seq<Name>, ys: seq<Name>, temps: Temps, st: State)
    requires Mixed(targets) && TargetsApart(targets)
    requires ReadAll(ys, Overlay(st, NewNames(targets))) == ReadAll(xs, st)
    ensures SameFrom(ExecAssign(host, OldTargets(targets), [Call(fn, Vars(ys))], temps, Overlay(st, NewNames(targets))),
                     ExecAssign(host, targets, [Call(fn, Vars(xs))], temps, st))
  {
    CallEvaluates(host, fn, xs, temps, st);
    CallEvaluates(host, fn, ys, temps, Overlay(st, NewNames(targets)));
    NoPointers(targets);
    var (vs, st1) := EvaluateAll(host, [Call(fn, Vars(xs))], temps, st);
    if vs.Got? {
      assert vs.value[0..] == vs.value && vs.value[..0] == [];
      assert targets != [];
      StoreOverlaid(host, targets, Spread(host, vs.value, |targets|), st1);
    }
  }

  // A loop variable shared by the post statement ------------------------------------------

  /** The next iteration starts from the state Go starts it from exactly where the post statement
      has left the loop's variables to themselves: the copies passed as parameters share nothing. */
  lemma {:induction false} ParametersAreCopies(st: State, xs: seq<Name>)
    requires forall x :: x in xs ==> x in st.vars
    ensures Renewed(st, xs) == st <==> Owned(st, xs)
  {
    if Owned(st, xs) {
      RenewOwned(st, xs);
    } else {
      RenewedOwns(st, xs, []);
    }
  }

  const C := Name("c", 0, Truth(false))
  const P := Name("p", 1, Number(0))

  /** for c := true; c; p = &c { do.Await(fx); *p = false } */
  function SharingLoop(fx: Datum): Stmt {
    For([Assign([New(C)], [Lit(Truth(true))])], [Var(C)], [Assign([Old(P)], [AddrOf(C)])],
        [Assign([Blank], [Await(Lit(fx), false)]), Assign([Into], [Var(P), Lit(Truth(false))])])
  }

  /** The loop, then return 0. */
  function SharingBody(fx: Datum): seq<Stmt> {
    [SharingLoop(fx), Return(Lit(Number(0)))]
  }

  /** An effect that answers and changes nothing. */
  ghost predicate Harmless(host: Host, fx: Datum) {
    forall store :: host.settle(fx, store).0.Answered? && host.settle(fx, store).1 == store
  }

  /** One round of the loop's body. */
  function AfterBody(fx: Datum, st: State): State
    requires st.Read(P).Pointer?
  {
    st.Seen(Awaited(fx)).Poke(st.Read(P).cell, Truth(false))
  }

  lemma {:induction false} BodyRuns(host: Host, fx: Datum, temps: Temps, st: State)
    requires Harmless(host, fx) && st.Read(P).Pointer?
    ensures ExecList(host, SharingLoop(fx).body, temps, st) == (Normal, AfterBody(fx, st))
  {
    var body := SharingLoop(fx).body;
    var st1 := st.Seen(Awaited(fx));
    assert Exec(host, body[0], temps, st) == (Normal, st1) by {
      var answer := host.settle(fx, st.store).0.datum;
      assert Settle(host, fx, st) == (Got(answer), st1);
      AwaitIsAwaitExpr(host, Lit(fx), false, temps, st);
      assert Evaluate(host, Lit(fx), temps, st) == (Got(fx), st);
      AssignsOne(host, Blank, Await(Lit(fx), false), temps, st);
    }
    SecondRuns(host, temps, st1);
    assert body[1..] == [body[1]] && body[1..][1..] == [];
    assert ExecList(host, [], temps, AfterBody(fx, st)) == (Normal, AfterBody(fx, st));
  }

  lemma {:induction false} AssignsOne(host: Host, target: Target, e: Expr, temps: Temps, st: State)
    requires Evaluate(host, e, temps, st).0.Got? && (target.Old? || target.New? || target.Blank?)
    ensures var (v, st1) := Evaluate(host, e, temps, st);
            ExecAssign(host, [target], [e], temps, st)
             == (Normal, match target
                         case Old(x) => st1.Write(x, v.value)
                         case New(x) => st1.Declare(x, v.value)
                         case _ => st1)
  {
    EvaluatesOne(host, e, temps, st);
    var (v, st1) := Evaluate(host, e, temps, st);
    var values := [v.value];
    assert values[0..] == values && values[..0] == [] && [target][1..] == [];
    assert Pointers([target]) == 0;
    assert EvaluateAll(host, [e], temps, st) == (Got(values), st1);
    assert Spread(host, values, |[target]|) == values;
    match target
    case Old(x) => assert StoreInto(host, [target], [], values, st1) == st1.Write(x, v.value);
    case New(x) => assert StoreInto(host, [target], [], values, st1) == st1.Declare(x, v.value);
    case Blank => assert StoreInto(host, [target], [], values, st1) == st1;
  }

  lemma {:induction false} SecondRuns(host: Host, temps: Temps, st: State)
    requires st.Read(P).Pointer?
    ensures Exec(host, Assign([Into], [Var(P), Lit(Truth(false))]), temps, st)
         == (Normal, st.Poke(st.Read(P).cell, Truth(false)))
  {
    var es := [Var(P), Lit(Truth(false))];
    var vs := [st.Read(P), Truth(false)];
    var poked := st.Poke(st.Read(P).cell, Truth(false));
    assert es[1..] == [Lit(Truth(false))] && es[1..][1..] == [] && !ActsAny(es[1..]);
    AllQuietResolves(host, es, temps, st);
    assert CloseAll(es[1..], temps) == es[1..] && [es[0]] + es[1..] == es;
    OperandAlone(host, es[1], temps, st);
    assert [st.Read(P)] + [Truth(false)] == vs;
    assert Operands(host, es, temps, st) == (Got(vs), st);
    assert [Into][1..] == [] && Pointers([Into]) == 1;
    assert vs[..1] == [st.Read(P)] && vs[1..] == [Truth(false)];
    assert StoreInto(host, [Into], vs[..1], vs[1..], st) == StoreInto(host, [], vs[..1][1..], vs[1..][1..], poked);
  }

  /** The post statement moves `c` into a cell of its own, which `p` then points to. */
  lemma {:induction false} PostShares(host: Host, fx: Datum, temps: Temps, st: State)
    requires C in st.vars && st.vars[C].Own? && P in st.vars && st.vars[P].Own?
    ensures var post := ExecPost(host, SharingLoop(fx).post, temps, st);
            && post == (Normal, st.Share(C).0.Write(P, Pointer(|st.store.heap|)))
  {
    var (shared, cell) := st.Share(C);
    assert Evaluate(host, AddrOf(C), temps, st) == (Got(Pointer(cell)), shared);
    AssignsOne(host, Old(P), AddrOf(C), temps, st);
  }

  predicate Ready(st: State) {
    C in st.vars && P in st.vars && st.vars[P].Own? && st.vars[P].datum.Pointer?
  }

  /** The loop after a round, where a round is left. */
  function AfterRound(fx: Datum, st: State): State
    requires Ready(st) && st.gas > 0
  {
    var copied := Renewed(AfterBody(fx, st), [C]);
    copied.Share(C).0.Write(P, Pointer(|copied.store.heap|)).(gas := st.gas - 1)
  }

  lemma {:induction false} RoundKeeps(fx: Datum, st: State)
    requires Ready(st) && st.gas > 0
    ensures var body, after := AfterBody(fx, st), AfterRound(fx, st);
            && Ready(after) && after.gas == st.gas - 1 && after.trace == st.trace + [Awaited(fx)]
            && after.Read(C) == body.Read(C)
            && after.vars[C].Shared? && after.vars[P] == Own(Pointer(after.vars[C].cell)) && after.vars[C].cell < |after.store.heap|
            && Renewed(body, [C]) == body.Declare(C, body.Read(C))
  {
    var body := AfterBody(fx, st);
    assert [C][1..] == [];
    assert Renewed(body, [C]) == Renewed(body.Declare(C, body.Read(C)), []);
  }

  lemma {:induction false} LoopFacts(fx: Datum)
    ensures LoopVars(SharingLoop(fx).init) == [C]
  {
    var targets := [New(C)];
    assert targets[1..] == [] && NewNames(targets[1..]) == [] && [C] + [] == [C];
    assert NewNames(targets) == [C];
  }

  lemma {:induction false} RoundInGo(host: Host, fx: Datum, st: State)
    requires Harmless(host, fx) && Ready(st) && st.gas > 0 && st.Read(C) == Truth(true)
    ensures Iterate(host, SharingLoop(fx), map[], st) == Iterate(host, SharingLoop(fx), map[], AfterRound(fx, st))
  {
    var s := SharingLoop(fx);
    BodyRuns(host, fx, map[], st);
    LoopFacts(fx);
    RoundKeeps(fx, st);
    var copied := Renewed(AfterBody(fx, st), [C]);
    PostShares(host, fx, map[], copied);
    assert Guard(host, s.when, map[], st) == (Got(true), st);
  }

  lemma {:induction false} TwoRounds(host: Host, fx: Datum, st: State) returns (after: State)
    requires Harmless(host, fx) && P in st.vars && st.vars[P].Own? && st.vars[P].datum.Pointer? && st.gas >= 2
    ensures Iterate(host, SharingLoop(fx), map[], st.Declare(C, Truth(true))) == (Normal, after)
    ensures after.trace == st.trace + [Awaited(fx), Awaited(fx)]
  {
    var st0 := st.Declare(C, Truth(true));
    RoundKeeps(fx, st0);
    RoundInGo(host, fx, st0);
    var st1 := AfterRound(fx, st0);
    RoundKeeps(fx, st1);
    after := AfterRound(fx, st1);
    RoundInGo(host, fx, st1);
    assert after.Read(C) == Truth(false);
    assert Iterate(host, SharingLoop(fx), map[], after) == (Normal, after);
    assert st.trace + [Awaited(fx)] + [Awaited(fx)] == st.trace + [Awaited(fx), Awaited(fx)];
  }

  /** Run as Go runs it the body answers: its second round clears the variable that its third
      condition reads. */
  lemma {:induction false} SharingAnswersInGo(host: Host, fx: Datum, st: State)
    requires Harmless(host, fx) && P in st.vars && st.vars[P].Own? && st.vars[P].datum.Pointer? && st.gas >= 2
    ensures var report := RunGenBody(host, SharingBody(fx), st);
            report.final == Succeeded(Number(0)) && report.trace == st.trace + [Awaited(fx), Awaited(fx)]
  {
    var body := SharingBody(fx);
    var answer := body[1];
    InitRuns(host, fx, map[], st);
    var after := TwoRounds(host, fx, st);
    assert Exec(host, body[0], map[], st) == (Normal, after);
    assert Evaluate(host, Lit(Number(0)), map[], after) == (Got(Number(0)), after);
    assert Exec(host, answer, map[], after) == (Returned(Number(0)), after);
    assert body[1..] == [answer] && ExecList(host, [answer], map[], after) == (Returned(Number(0)), after);
  }

  lemma {:induction false} InitRuns(host: Host, fx: Datum, temps: Temps, st: State)
    ensures ExecList(host, SharingLoop(fx).init, temps, st) == (Normal, st.Declare(C, Truth(true)))
  {
    var init := SharingLoop(fx).init;
    var st1 := st.Declare(C, Truth(true));
    assert Evaluate(host, Lit(Truth(true)), temps, st) == (Got(Truth(true)), st);
    AssignsOne(host, New(C), Lit(Truth(true)), temps, st);
    assert init[1..] == [] && ExecList(host, [], temps, st1) == (Normal, st1);
  }

  lemma {:induction false} BodyAccepted(fx: Datum, k: Jump, n: nat)
    requires JumpBelow(k, n)
    ensures var s := SharingLoop(fx);
            var cont := ToNext(n, [C]);
            Accepted(s.body, cont, Jumps(k, cont), n + 1) && Needs(s)
  {
    var s := SharingLoop(fx);
    var body, rest := s.body, s.body[1..];
    var cont := ToNext(n, [C]);
    assert rest == [body[1]];
    Alone(body[1], cont, Jumps(k, cont));
    HoistOne(Await(Lit(fx), false), n + 1);
    PointerExprs();
    assert [Blank][1..] == [] && [Into][1..] == [];
    assert !Mixed([Blank]) && !Mixed([Into]);
    assert AllTempsBelow([Await(Lit(fx), false)], 0) by {
      HoistOne(Await(Lit(fx), false), 0);
    }
    assert Plain(body[0], 0) && Plain(body[1], 0) && Sound(body[0]) && Sound(body[1]);
    assert !Breaks(body[0]) && !BreaksAny(rest) && !Continues(body[0]) && !ContinuesAny(rest);
    assert !BreaksAny(body);
    assert !ContinuesAny(body);
  }

  lemma {:induction false} BodyEmitted(fx: Datum, k: Jump, n: nat)
    ensures var cont := ToNext(n, [C]); List(SharingLoop(fx).body, cont, Jumps(k, cont), n + 1).Emitted?
  {
    var body := SharingLoop(fx).body;
    var rest := body[1..];
    var cont := ToNext(n, [C]);
    var jumps := Jumps(k, cont);
    assert rest == [body[1]];
    PointerExprs();
    Alone(body[1], cont, jumps);
    assert OwnExprs(body[0]) == [Await(Lit(fx), false)];
    HoistOne(Await(Lit(fx), false), n + 1);
    var h := HoistAll(OwnExprs(body[0]), n + 1);
    assert List(rest, cont, jumps, h.next).Emitted?;
    assert Statement(body[0], rest, cont, jumps, n + 1).Emitted?;
  }

  lemma {:induction false} LoopEmitted(fx: Datum, k: Jump, n: nat)
    ensures ForLoop(SharingLoop(fx), k, n).Emitted?
  {
    var s := SharingLoop(fx);
    LoopFacts(fx);
    BodyEmitted(fx, k, n);
    Alone(s.init[0], k, NO_JUMPS);
    Alone(s.post[0], k, NO_JUMPS);
    HoistOne(Lit(Truth(true)), n);
    HoistOne(AddrOf(C), n);
    HoistOne(Var(C), n);
  }

  lemma {:induction false} PointerExprs()
    ensures var es := [Var(P), Lit(Truth(false))]; AllTempsBelow(es, 0) && !AwaitsInAny(es)
  {
    var es := [Var(P), Lit(Truth(false))];
    assert es[1..] == [Lit(Truth(false))] && es[1..][1..] == [];
    assert AllTempsBelow(es[1..], 0) && !AwaitsInAny(es[1..]);
  }

  lemma {:induction false} Alone(s: Stmt, k: Jump, jumps: Jumps)
    ensures AllPlainStmts([s], 0) == Plain(s, 0) && AllSound([s]) == Sound(s) && NeedsAny([s]) == Needs(s)
    ensures BreaksAny([s]) == Breaks(s) && ContinuesAny([s]) == Continues(s)
    ensures !Needs(s) && !Terminates(s, jumps) ==> forall m: nat :: List([s], k, jumps, m) == Emitted(Text(Spell(s, jumps), Go(k)), m)
  {
  }

  /** Each call of the emitted iteration function starts with a copy of `c` of its own, still
      true: the pointer leads to the advance function's copy. */
  lemma {:induction false} EmittedNeverEnds(host: Host, fx: Datum, k: Jump, n: nat, env: Env, temps: Temps, st: State)
    requires Harmless(host, fx) && Ready(st) && st.vars[C] == Own(Truth(true)) && JumpBelow(k, n)
    requires ForLoop(SharingLoop(fx), k, n).Emitted?
    ensures Enter(host, ForLoop(SharingLoop(fx), k, n).code, env, temps, st).final == Exhausted
    decreases st.gas
  {
    EmittedGoesRound(host, fx, k, n, env, temps, st);
    EmittedAdvances(host, fx, k, n, env, temps, st);
    if st.gas > 0 {
      RoundKeeps(fx, st);
      OneRenewed(AfterRound(fx, st));
      EmittedNeverEnds(host, fx, k, n, env, temps, Renewed(AfterRound(fx, st), [C]));
    }
  }

  lemma {:induction false} EmittedGoesRound(host: Host, fx: Datum, k: Jump, n: nat, env: Env, temps: Temps, st: State)
    requires Harmless(host, fx) && Ready(st) && st.vars[C] == Own(Truth(true)) && JumpBelow(k, n)
    requires ForLoop(SharingLoop(fx), k, n).Emitted?
    ensures var code := ForLoop(SharingLoop(fx), k, n).code;
            Enter(host, code, env, temps, st) == Leap(host, ToNext(n, [C]), InLoop(code, temps, env), temps, AfterBody(fx, st))
  {
    var s := SharingLoop(fx);
    var code := ForLoop(s, k, n).code;
    var cont := ToNext(n, [C]);
    LoopFacts(fx);
    BodyAccepted(fx, k, n);
    BodyEmitted(fx, k, n);
    assert Guard(host, s.when, temps, st) == (Got(true), st);
    ListCorrect(host, s.body, cont, Jumps(k, cont), n + 1, InLoop(code, temps, env), temps, st);
    BodyRuns(host, fx, temps, st);
  }

  lemma {:induction false} OneRenewed(st: State)
    ensures Renewed(st, [C]) == st.Declare(C, st.Read(C))
  {
  }

  lemma {:induction false} EmittedAdvances(host: Host, fx: Datum, k: Jump, n: nat, env: Env, temps: Temps, st: State)
    requires Ready(st) && st.vars[C].Own? && ForLoop(SharingLoop(fx), k, n).Emitted?
    ensures var code := ForLoop(SharingLoop(fx), k, n).code;
            var body := AfterBody(fx, st);
            Leap(host, ToNext(n, [C]), InLoop(code, temps, env), temps, body)
             == if st.gas == 0 then ReportOf(Exhausted, ExecPost(host, code.post, temps, Renewed(body, [C])).1)
                else Enter(host, code, env, temps, Renewed(AfterRound(fx, st), [C]))
  {
    LoopFacts(fx);
    OneRenewed(AfterBody(fx, st));
    PassingThemselves(AfterBody(fx, st), [C]);
    PostShares(host, fx, temps, Renewed(AfterBody(fx, st), [C]));
  }

  /** The rewrite of the same body runs for ever: it uses up any number of back edges. */
  lemma {:induction false} SharingNeverEndsRewritten(host: Host, fx: Datum, st: State)
    requires Harmless(host, fx) && P in st.vars && st.vars[P].Own? && st.vars[P].datum.Pointer?
    ensures Resolved(SharingBody(fx)) && Unshadowed(SharingBody(fx)) && Body(SharingBody(fx)).Emitted? && BodyCompiles(SharingBody(fx))
    ensures RunRewritten(host, ReadBody(SharingBody(fx)), st).final == Exhausted
  {
    SharingBodyReads(fx);
    EmittedSharingNeverEnds(host, fx, st);
    UnshadowedReadsAsMeant(SharingBody(fx));
  }

  lemma {:induction false} SharingBodyReads(fx: Datum)
    ensures var body := SharingBody(fx); AllPlainStmts(body, 0) && Resolved(body) && Unshadowed(body)
  {
    var body := SharingBody(fx);
    var s, answer := body[0], body[1];
    SharingLoopPlain(fx);
    SharingLoopResolved(fx);
    SharingUnshadowed(fx);
    assert body[1..] == [answer] && [answer][1..] == [];
    TwoRead(s, answer, OUTSIDE);
    assert Respell(Lit(Number(0)), OUTSIDE.Visible()) == Lit(Number(0)) && ReadStmt(answer, OUTSIDE) == answer;
    assert ReadList(body, OUTSIDE) == [s, answer];
  }

  lemma {:induction false} SharingLoopPlain(fx: Datum)
    ensures Plain(SharingLoop(fx), 0)
  {
    var s := SharingLoop(fx);
    var init, post := s.init[0], s.post[0];
    BodyAccepted(fx, ToContinuation(0), 1);
    HoistOne(Lit(Truth(true)), 0);
    HoistOne(Var(C), 0);
    HoistOne(AddrOf(C), 0);
    assert [New(C)][1..] == [] && [Old(P)][1..] == [];
    assert !HasOld([New(C)][1..]) && NewNames([Old(P)]) == [] + [];
    assert !Mixed([New(C)]) && !Mixed([Old(P)]);
    assert Plain(init, 0) && Plain(post, 0) && Simple(s.init, 0) && Simple(s.post, 0);
  }

  lemma {:induction false} OneReads(s: Stmt, lex: Lexical)
    ensures ReadList([s], lex) == [ReadStmt(s, lex)]
  {
    assert [s][1..] == [] && [ReadStmt(s, lex)] + [] == [ReadStmt(s, lex)];
  }

  lemma {:induction false} OneRespells(e: Expr, names: seq<Name>)
    ensures RespellAll([e], names) == [Respell(e, names)]
  {
    assert [e][1..] == [] && [Respell(e, names)] + [] == [Respell(e, names)];
  }

  lemma {:induction false} OneTarget(t: Target, lex: Lexical)
    ensures ReadTargets([t], lex) == [ReadTarget(t, lex)] && NewNames([t]) == if t.New? then [t.name] else []
  {
    assert [t][1..] == [] && [ReadTarget(t, lex)] + [] == [ReadTarget(t, lex)];
    if t.New? {
      assert [t.name] + [] == [t.name];
    } else {
      assert NewNames([t]) == [] + [];
    }
  }

  lemma {:induction false} SharingLoopResolved(fx: Datum)
    ensures ReadStmt(SharingLoop(fx), OUTSIDE) == SharingLoop(fx)
  {
    var s := SharingLoop(fx);
    LoopFacts(fx);
    SharingInitReads(fx);
    InitBecomesParameters(s.init, OUTSIDE);
    assert Parameters([C], OUTSIDE).Visible() == [C] && Denotes(C, [C]) == C;
    OneRespells(Var(C), [C]);
    SharingPostReads(fx);
    SharingRoundResolved(fx);
  }

  lemma {:induction false} SharingInitReads(fx: Datum)
    ensures ReadList(SharingLoop(fx).init, OUTSIDE.Enter()) == SharingLoop(fx).init
  {
    var init := SharingLoop(fx).init[0];
    OneReads(init, OUTSIDE.Enter());
    OneRespells(Lit(Truth(true)), OUTSIDE.Enter().Visible());
    OneTarget(New(C), OUTSIDE.Enter());
  }

  lemma {:induction false} SharingPostReads(fx: Datum)
    ensures ReadList(SharingLoop(fx).post, Parameters([C], OUTSIDE)) == SharingLoop(fx).post
  {
    var post, inner := SharingLoop(fx).post[0], Parameters([C], OUTSIDE);
    assert inner.Visible() == [C] && Denotes(C, [C]) == C;
    OneReads(post, inner);
    OneRespells(AddrOf(C), [C]);
    assert Denotes(P, [C][1..]) == P && Denotes(P, [C]) == P;
    OneTarget(Old(P), inner);
  }

  lemma {:induction false} SharingRoundResolved(fx: Datum)
    ensures var s := SharingLoop(fx); ReadList(s.body, Parameters([C], OUTSIDE).Enter()) == s.body
  {
    var s := SharingLoop(fx);
    var await, poke, inner := s.body[0], s.body[1], Parameters([C], OUTSIDE).Enter();
    var es := [Var(P), Lit(Truth(false))];
    assert inner.Visible() == [C] && Denotes(P, [C][1..]) == P && Denotes(P, [C]) == P;
    assert Respell(Lit(fx), [C]) == Lit(fx);
    OneRespells(Await(Lit(fx), false), [C]);
    OneRespells(Lit(Truth(false)), [C]);
    assert es[1..] == [Lit(Truth(false))] && RespellAll(es, [C]) == [Var(P)] + [Lit(Truth(false))];
    OneTarget(Blank, inner);
    OneTarget(Into, inner);
    assert inner.With([]) == inner && After(await, inner) == inner;
    assert ReadStmt(await, inner) == await && ReadStmt(poke, inner) == poke;
    TwoRead(await, poke, inner);
  }

  lemma {:induction false} SharingLoopIntact(fx: Datum)
    ensures var s, cont := SharingLoop(fx), ToNext(0, [C]);
            && IntactList(s.body, cont, Jumps(ToContinuation(0), cont), Parameters([C], OUTSIDE).Enter())
            && Lead(s.body) == [] && Needs(s)
  {
    var s := SharingLoop(fx);
    var inner, cont := Parameters([C], OUTSIDE).Enter(), ToNext(0, [C]);
    var jumps := Jumps(ToContinuation(0), cont);
    LoopFacts(fx);
    BodyAccepted(fx, ToContinuation(0), 1);
    PointerExprs();
    assert inner.Visible() == [C] && Denotes(C, [C]) == C && [C][1..] == [] && Denoted([C], [C]) == [C] + [];
    assert Intact(cont, inner);
    var await, poke := s.body[0], s.body[1];
    assert s.body[1..] == [poke] && [poke][1..] == [] && Needs(await);
    assert poke.es == [Var(P), Lit(Truth(false))] && !Needs(poke);
    assert [Blank][1..] == [] && [Into][1..] == [];
    OneTarget(Blank, inner);
    OneTarget(Into, inner);
    assert inner.With([]) == inner;
    assert After(await, inner) == inner && After(poke, inner) == inner;
    assert IntactList([], cont, jumps, inner);
    assert IntactList([poke], cont, jumps, inner);
    assert IntactList(s.body, cont, jumps, inner);
    assert Lead(s.body) == [];
  }

  lemma {:induction false} SharingUnshadowed(fx: Datum)
    ensures Unshadowed(SharingBody(fx))
  {
    var body := SharingBody(fx);
    var s, answer := body[0], body[1];
    LoopFacts(fx);
    SharingLoopIntact(fx);
    assert Intact(ToContinuation(0), Parameters([C], OUTSIDE));
    assert IntactInside(s, ToContinuation(0), NO_JUMPS, OUTSIDE);
    assert body[1..] == [answer] && [answer][1..] == [];
    assert IntactList([answer], Nowhere, NO_JUMPS, OUTSIDE);
    assert IntactStatement(s, [answer], Nowhere, NO_JUMPS, OUTSIDE);
  }

  lemma {:induction false} EmittedSharingNeverEnds(host: Host, fx: Datum, st: State)
    requires Harmless(host, fx) && P in st.vars && st.vars[P].Own? && st.vars[P].datum.Pointer?
    ensures Body(SharingBody(fx)).Emitted?
    ensures RunRewritten(host, Body(SharingBody(fx)).code, st).final == Exhausted
  {
    var body := SharingBody(fx);
    var s, answer := body[0], body[1];
    var k := ToContinuation(0);
    BodyAccepted(fx, k, 1);
    LoopEmitted(fx, k, 1);
    Alone(answer, Nowhere, NO_JUMPS);
    assert body[1..] == [answer];
    var loop := ForLoop(s, k, 1);
    assert loop.code.after == ReturnTo(k) && Mentions(loop.code, 0);
    AnswerEmitted(loop.next);
    var tail := List([answer], Nowhere, NO_JUMPS, loop.next);
    assert Inside(s, k, NO_JUMPS, 1) == loop;
    assert Rejoin(s, [answer], Nowhere, NO_JUMPS, 0) == Emitted(Define(0, tail.code, loop.code), tail.next);
    assert Statement(s, [answer], Nowhere, NO_JUMPS, 0) == Rejoin(s, [answer], Nowhere, NO_JUMPS, 0);
    LoopNeverEnds(host, fx, WithContinuation(0, tail.code, map[], Top), st);
  }

  lemma {:induction false} AnswerEmitted(n: nat)
    ensures List([Return(Lit(Number(0)))], Nowhere, NO_JUMPS, n).Emitted?
  {
  }

  lemma {:induction false} LoopNeverEnds(host: Host, fx: Datum, env: Env, st: State)
    requires Harmless(host, fx) && P in st.vars && st.vars[P].Own? && st.vars[P].datum.Pointer?
    requires ForLoop(SharingLoop(fx), ToContinuation(0), 1).Emitted?
    ensures Run(host, ForLoop(SharingLoop(fx), ToContinuation(0), 1).code, env, map[], st).final == Exhausted
  {
    InitRuns(host, fx, map[], st);
    LoopFacts(fx);
    var st0 := st.Declare(C, Truth(true));
    OneRenewed(st0);
    assert st0.Declare(C, Truth(true)) == st0;
    EmittedNeverEnds(host, fx, ToContinuation(0), 1, env, map[], st0);
  }
}
