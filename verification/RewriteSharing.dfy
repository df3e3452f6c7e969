/** Why a post statement may not take the address of a loop's variable: for every one that does, some
    body around it and some host tell Go and the rewrite apart. */
module RewriteSharing {
  import opened Wrappers
  import opened Direct
  import opened Rewrite
  import opened RewriteHoist
  import opened RewriteSpell
  import opened RewriteFlow
  import opened RewriteFollow
  import opened RewriteScopes
  import opened RewriteCorrect
  import opened RewriteLimits

  // Taking an address ---------------------------------------------------------------------

  /** Every operator and call answers, calls leave the store alone, and an awaited effect tells
      whether more than `cells` variables are in cells. */
  ghost predicate Telling(host: Host, cells: nat) {
    && (forall op, vs, store :: host.prim(op, vs, store).Gives?)
    && (forall fn, vs, store :: host.call(fn, vs, store).0.Gives? && host.call(fn, vs, store).1 == store)
    && (forall fx, store :: host.settle(fx, store) == (Answered(Truth(|store.heap| > cells)), store))
  }

  /** Source expressions that evaluate all their parts: nothing awaited, no && and no ||. */
  predicate Straight(e: Expr) {
    match e
    case Lit(_) => true
    case Var(_) => true
    case AddrOf(_) => true
    case Prim(_, args) => AllStraight(args)
    case Call(_, args) => AllStraight(args)
    case _ => false
  }

  predicate AllStraight(es: seq<Expr>) {
    es != [] ==> Straight(es[0]) && AllStraight(es[1..])
  }

  /** The variable is declared and, if it is in a cell, that cell exists. */
  predicate Held(st: State, x: Name) {
    x in st.vars && (st.vars[x].Shared? ==> st.vars[x].cell < |st.store.heap|)
  }

  predicate Taken(st: State, x: Name) {
    x in st.vars && st.vars[x].Shared?
  }

  /** What evaluating keeps: a variable in a cell stays there, and one that moves takes a new cell. */
  predicate Onward(st: State, st': State, x: Name) {
    && Held(st', x) && |st.store.heap| <= |st'.store.heap|
    && (Taken(st, x) ==> Taken(st', x))
    && (!Taken(st, x) && Taken(st', x) ==> |st'.store.heap| > |st.store.heap|)
  }

  lemma {:induction false} OperandTakes(host: Host, cells: nat, e: Expr, x: Name, temps: Temps, st: State)
    requires Telling(host, cells) && Straight(e) && !Acts(e) && Held(st, x)
    ensures var (v, st1) := Operand(host, e, temps, st);
            v.Got? && Onward(st, st1, x) && (!Untaken(e, [x]) ==> Taken(st1, x))
    decreases e
  {
    if e.Prim? {
      OperandsTake(host, cells, e.args, x, temps, st);
    }
  }

  lemma {:induction false} OperandsTake(host: Host, cells: nat, es: seq<Expr>, x: Name, temps: Temps, st: State)
    requires Telling(host, cells) && AllStraight(es) && !ActsAny(es) && Held(st, x)
    ensures var (vs, st1) := Operands(host, es, temps, st);
            vs.Got? && Onward(st, st1, x) && (!AllUntaken(es, [x]) ==> Taken(st1, x))
    decreases es
  {
    if es != [] {
      OperandTakes(host, cells, es[0], x, temps, st);
      OperandsTake(host, cells, es[1..], x, temps, Operand(host, es[0], temps, st).1);
    }
  }

  lemma {:induction false} ResolveTakes(host: Host, cells: nat, e: Expr, x: Name, temps: Temps, st: State)
    requires Telling(host, cells) && Straight(e) && Held(st, x)
    ensures var (r, st1) := Resolve(host, e, temps, st);
            && r.Got? && Straight(r.value) && !Acts(r.value) && Onward(st, st1, x)
            && (!Untaken(e, [x]) ==> Taken(st1, x) || !Untaken(r.value, [x]))
    decreases e
  {
    if e.Prim? {
      ResolveAllTakes(host, cells, e.args, x, temps, st);
    } else if e.Call? {
      ResolveAllTakes(host, cells, e.args, x, temps, st);
      var (es, st1) := ResolveAll(host, e.args, temps, st);
      OperandsTake(host, cells, es.value, x, temps, st1);
    }
  }

  lemma {:induction false} ResolveAllTakes(host: Host, cells: nat, es: seq<Expr>, x: Name, temps: Temps, st: State)
    requires Telling(host, cells) && AllStraight(es) && Held(st, x)
    ensures var (r, st1) := ResolveAll(host, es, temps, st);
            && r.Got? && AllStraight(r.value) && !ActsAny(r.value) && Onward(st, st1, x)
            && (!AllUntaken(es, [x]) ==> Taken(st1, x) || !AllUntaken(r.value, [x]))
    decreases es
  {
    if es != [] {
      ResolveTakes(host, cells, es[0], x, temps, st);
      var (e, st1) := Resolve(host, es[0], temps, st);
      ResolveAllTakes(host, cells, es[1..], x, temps, st1);
      var rest := ResolveAll(host, es[1..], temps, st1).0;
      assert ([e.value] + rest.value)[1..] == rest.value;
    }
  }

  lemma {:induction false} StoringKeepsTaken(host: Host, targets: seq<Target>, pointers: seq<Datum>, values: seq<Datum>, x: Name, st: State)
    requires NewNames(targets) == [] && Held(st, x) && Taken(st, x)
    ensures var st' := StoreInto(host, targets, pointers, values, st);
            Held(st', x) && Taken(st', x) && |st'.store.heap| == |st.store.heap|
    decreases |targets|
  {
    if targets != [] && values != [] {
      var v, rest := values[0], values[1..];
      match targets[0]
      case New(_) =>
      case Old(y) => StoringKeepsTaken(host, targets[1..], pointers, rest, x, st.Write(y, v));
      case Blank => StoringKeepsTaken(host, targets[1..], pointers, rest, x, st);
      case Into =>
        if pointers != [] && pointers[0].Pointer? {
          StoringKeepsTaken(host, targets[1..], pointers[1..], rest, x, st.Poke(pointers[0].cell, v));
        }
    }
  }

  /** A post statement that takes the address leaves the variable in a new cell. */
  lemma {:induction false} PostTakes(host: Host, cells: nat, targets: seq<Target>, es: seq<Expr>, x: Name, temps: Temps, st: State)
    requires Telling(host, cells) && NewNames(targets) == [] && AllStraight(es) && !AllUntaken(es, [x])
    requires x in st.vars && st.vars[x].Own?
    ensures var (ending, st') := ExecAssign(host, targets, es, temps, st);
            ending.Normal? && Held(st', x) && Taken(st', x) && |st'.store.heap| > |st.store.heap|
  {
    ResolveAllTakes(host, cells, es, x, temps, st);
    var (r, st1) := ResolveAll(host, es, temps, st);
    OperandsTake(host, cells, r.value, x, temps, st1);
    var (vs, st2) := Operands(host, r.value, temps, st1);
    assert EvaluateAll(host, es, temps, st) == (vs, st2);
    assert Taken(st2, x);
    var p := if Pointers(targets) <= |vs.value| then Pointers(targets) else 0;
    StoringKeepsTaken(host, targets, vs.value[..p], Spread(host, vs.value[p..], |targets|), x, st2);
  }

  // A body that tells ---------------------------------------------------------------------

  const PROBE := Lit(Number(0))

  /** if do.Await(probe) { x = v; return 0 } */
  function TellingTest(x: Name, v: Datum): Stmt {
    If([], Await(PROBE, false), [Assign([Old(x)], [Lit(v)]), Return(PROBE)], NoElse, [])
  }

  /** for xs := their zero values; ; post { body } */
  function EndlessLoop(xs: seq<Name>, post: Stmt, body: seq<Stmt>): Stmt {
    For([Assign(NewTargets(xs), Zeros(xs))], [], [post], body)
  }

  function Probed(st: State): State {
    st.Seen(Awaited(Number(0)))
  }

  lemma {:induction false} ProbeAnswers(host: Host, cells: nat, temps: Temps, st: State)
    requires Telling(host, cells)
    ensures Guard(host, [Await(PROBE, false)], temps, st) == (Got(|st.store.heap| > cells), Probed(st))
  {
    AwaitIsAwaitExpr(host, PROBE, false, temps, st);
    assert Evaluate(host, PROBE, temps, st) == (Got(Number(0)), st);
    assert Settle(host, Number(0), st) == (Got(Truth(|st.store.heap| > cells)), Probed(st));
  }

  /** Before a variable has moved into a cell the test only passes. */
  lemma {:induction false} TestPasses(host: Host, cells: nat, x: Name, v: Datum, temps: Temps, st: State)
    requires Telling(host, cells) && |st.store.heap| <= cells
    ensures ExecList(host, [TellingTest(x, v)], temps, st) == (Normal, Probed(st))
  {
    var s := TellingTest(x, v);
    ProbeAnswers(host, cells, temps, st);
    assert ExecList(host, [], temps, st) == (Normal, st);
    assert ExecList(host, [], temps, Probed(st)) == (Normal, Probed(st));
    assert Exec(host, s, temps, st) == (Normal, Probed(st));
    assert [s][1..] == [];
  }

  /** Once one has, it writes `x` and ends the body. */
  lemma {:induction false} TestTells(host: Host, cells: nat, x: Name, v: Datum, temps: Temps, st: State)
    requires Telling(host, cells) && |st.store.heap| > cells
    ensures ExecList(host, [TellingTest(x, v)], temps, st) == (Returned(Number(0)), Probed(st).Write(x, v))
  {
    var s := TellingTest(x, v);
    var st1, st2 := Probed(st), Probed(st).Write(x, v);
    ProbeAnswers(host, cells, temps, st);
    assert ExecList(host, [], temps, st) == (Normal, st);
    assert Evaluate(host, Lit(v), temps, st1) == (Got(v), st1);
    AssignsOne(host, Old(x), Lit(v), temps, st1);
    assert Evaluate(host, PROBE, temps, st2) == (Got(Number(0)), st2);
    assert Exec(host, Return(PROBE), temps, st2) == (Returned(Number(0)), st2);
    assert s.thn[1..] == [Return(PROBE)];
    assert ExecList(host, [Return(PROBE)], temps, st2) == (Returned(Number(0)), st2);
    assert ExecList(host, s.thn, temps, st1) == (Returned(Number(0)), st2);
  }

  lemma {:induction false} LoopDeclares(xs: seq<Name>)
    ensures NewNames(NewTargets(xs)) == xs && Pointers(NewTargets(xs)) == 0 && !HasOld(NewTargets(xs))
    ensures |NewTargets(xs)| == |Zeros(xs)| == |xs| && !AwaitsInAny(Zeros(xs)) && AllTempsBelow(Zeros(xs), 0)
  {
    if xs != [] {
      LoopDeclares(xs[1..]);
      assert NewTargets(xs)[1..] == NewTargets(xs[1..]) && Zeros(xs)[1..] == Zeros(xs[1..]);
      assert [xs[0]] + xs[1..] == xs;
    }
  }

  lemma {:induction false} InitDeclares(host: Host, xs: seq<Name>, post: Stmt, body: seq<Stmt>, temps: Temps, st: State)
    ensures var s := EndlessLoop(xs, post, body);
            LoopVars(s.init) == xs && ExecList(host, s.init, temps, st) == (Normal, Overlay(st, xs))
    ensures Owned(Overlay(st, xs), xs) && Overlay(st, xs).store == st.store
  {
    var init := EndlessLoop(xs, post, body).init;
    LoopDeclares(xs);
    DeclareZeros(host, xs, temps, st);
    assert init[1..] == [] && ExecList(host, [], temps, Overlay(st, xs)) == (Normal, Overlay(st, xs));
  }

  /** The loop's state when its second round begins. */
  function SecondRound(host: Host, targets: seq<Target>, es: seq<Expr>, st: State): State
    requires st.gas > 0
  {
    ExecAssign(host, targets, es, map[], Probed(st)).1.(gas := st.gas - 1)
  }

  /** As Go runs it: the second round's write goes into the cell the post statement moved `x` to. */
  lemma {:induction false} GoWritesTheCell(host: Host, cells: nat, xs: seq<Name>, targets: seq<Target>, es: seq<Expr>, x: Name, v: Datum, st: State)
    requires Telling(host, cells) && NewNames(targets) == [] && AllStraight(es) && x in xs && !AllUntaken(es, [x])
    requires Owned(st, xs) && |st.store.heap| == cells && st.gas > 0
    ensures var s := EndlessLoop(xs, Assign(targets, es), [TellingTest(x, v)]);
            Iterate(host, s, map[], st) == (Returned(Number(0)), Probed(SecondRound(host, targets, es, st)).Write(x, v))
  {
    var s := EndlessLoop(xs, Assign(targets, es), [TellingTest(x, v)]);
    PostTakes(host, cells, targets, es, x, map[], Probed(st));
    FirstRound(host, cells, xs, targets, es, x, v, st);
    LastRound(host, cells, s, x, v, SecondRound(host, targets, es, st));
  }

  lemma {:induction false} FirstRound(host: Host, cells: nat, xs: seq<Name>, targets: seq<Target>, es: seq<Expr>, x: Name, v: Datum, st: State)
    requires Telling(host, cells) && Owned(st, xs) && |st.store.heap| == cells && st.gas > 0
    requires ExecAssign(host, targets, es, map[], Probed(st)).0.Normal?
    ensures var s := EndlessLoop(xs, Assign(targets, es), [TellingTest(x, v)]);
            Iterate(host, s, map[], st) == Iterate(host, s, map[], SecondRound(host, targets, es, st))
  {
    var s := EndlessLoop(xs, Assign(targets, es), [TellingTest(x, v)]);
    TestPasses(host, cells, x, v, map[], st);
    OneBody(host, s, st);
    NextUnfolds(host, s, Normal, map[], Probed(st));
    LoopDeclares(xs);
    RenewOwned(Probed(st), xs);
    assert ExecPost(host, s.post, map[], Probed(st)) == ExecAssign(host, targets, es, map[], Probed(st));
  }

  lemma {:induction false} LastRound(host: Host, cells: nat, s: Stmt, x: Name, v: Datum, st: State)
    requires Telling(host, cells) && |st.store.heap| > cells && s.For? && s.when == [] && s.body == [TellingTest(x, v)]
    ensures Iterate(host, s, map[], st) == (Returned(Number(0)), Probed(st).Write(x, v))
  {
    TestTells(host, cells, x, v, map[], st);
    OneBody(host, s, st);
  }

  /** A round of a loop without a condition. */
  lemma {:induction false} OneBody(host: Host, s: Stmt, st: State)
    requires s.For? && s.when == []
    ensures var (ending, st1) := ExecList(host, s.body, map[], st);
            Iterate(host, s, map[], st) == NextIteration(host, s, ending, map[], st1)
  {
  }

  // The emitted loop ----------------------------------------------------------------------

  lemma {:induction false} TestAccepted(x: Name, v: Datum, k: Jump, n: nat)
    requires JumpBelow(k, n) && k != Nowhere
    ensures Accepted([TellingTest(x, v)], k, Jumps(Nowhere, k), n) && Needs(TellingTest(x, v))
    ensures !BreaksAny([TellingTest(x, v)]) && AllPlainStmts([TellingTest(x, v)], 0) && AllSound([TellingTest(x, v)])
  {
    var s := TellingTest(x, v);
    var write, answer := s.thn[0], s.thn[1];
    assert s.thn[1..] == [answer];
    Alone(s, k, Jumps(Nowhere, k));
    Alone(answer, k, Jumps(Nowhere, k));
    HoistOne(Lit(v), 0);
    assert [Old(x)][1..] == [] && NewNames([Old(x)]) == [] + [];
    assert !Mixed([Old(x)]);
    assert Plain(write, 0) && Plain(answer, 0) && Sound(write) && Sound(answer);
    assert AllPlainStmts(s.thn, 0) && AllSound(s.thn) && !BreaksAny(s.thn) && !ContinuesAny(s.thn);
  }

  lemma {:induction false} TestEmitted(x: Name, v: Datum, k: Jump, n: nat)
    requires k != Nowhere
    ensures List([TellingTest(x, v)], k, Jumps(Nowhere, k), n).Emitted?
  {
    var s := TellingTest(x, v);
    var answer := s.thn[1];
    var jumps := Jumps(Nowhere, k);
    assert s.thn[1..] == [answer] && [s][1..] == [];
    HoistOne(Lit(v), n);
    assert !AwaitsIn(PROBE);
    assert List([answer], k, jumps, n + 1).Emitted?;
    assert !Needs(s.thn[0]);
    assert List(s.thn, k, jumps, n + 1).Emitted?;
    assert Hoist(s.cond, n) == Hoisted([Step(PROBE, n)], Temp(n), n + 1);
    assert IfStatement(s, Temp(n), k, jumps, n + 1).Emitted?;
    assert Inside(s, k, jumps, n).Emitted?;
    assert Needs(s) && Statement(s, [], k, jumps, n) == Inside(s, k, jumps, n);
  }

  lemma {:induction false} StraightIsPlain(e: Expr)
    requires Straight(e)
    ensures !AwaitsIn(e) && TempsBelow(e, 0)
    decreases e
  {
    if e.Prim? || e.Call? {
      AllStraightIsPlain(e.args);
    }
  }

  lemma {:induction false} AllStraightIsPlain(es: seq<Expr>)
    requires AllStraight(es)
    ensures !AwaitsInAny(es) && AllTempsBelow(es, 0)
    decreases es
  {
    if es != [] {
      StraightIsPlain(es[0]);
      AllStraightIsPlain(es[1..]);
    }
  }

  /** A post statement without awaits, && and ||, and a loop around a body. */
  predicate StraightPost(post: Stmt) {
    post.Assign? && NewNames(post.targets) == [] && AllStraight(post.es)
  }

  lemma {:induction false} HeaderNeedsNothing(xs: seq<Name>, post: Stmt, body: seq<Stmt>)
    requires StraightPost(post)
    ensures var s := EndlessLoop(xs, post, body);
            && !NeedsAny(s.init) && !NeedsAny(s.post) && LoopVars(s.init) == xs && Needs(s) == NeedsAny(body)
            && (AllPlainStmts(body, 0) ==> Plain(s, 0)) && Covered(s.init)
  {
    var s := EndlessLoop(xs, post, body);
    LoopDeclares(xs);
    AllStraightIsPlain(post.es);
    assert s.init[1..] == [] && s.post[1..] == [];
    assert !Mixed(post.targets) && !Mixed(s.init[0].targets);
    assert Plain(s.init[0], 0) && Plain(post, 0);
  }

  lemma {:induction false} TellingLoopEmitted(xs: seq<Name>, post: Stmt, x: Name, v: Datum)
    requires StraightPost(post)
    ensures var s := EndlessLoop(xs, post, [TellingTest(x, v)]);
            ForLoop(s, Nowhere, 0).Emitted? && Body([s]) == ForLoop(s, Nowhere, 0)
  {
    var s := EndlessLoop(xs, post, [TellingTest(x, v)]);
    HeaderNeedsNothing(xs, post, s.body);
    TestAccepted(x, v, ToNext(0, xs), 1);
    TestEmitted(x, v, ToNext(0, xs), 1);
    Alone(TellingTest(x, v), ToNext(0, xs), NO_JUMPS);
    assert Needs(s) && [s][1..] == [];
    assert Statement(s, [], Nowhere, NO_JUMPS, 0) == Inside(s, Nowhere, NO_JUMPS, 0) == ForLoop(s, Nowhere, 0);
  }

  function LoopCode(xs: seq<Name>, post: Stmt, x: Name, v: Datum): Code
    requires ForLoop(EndlessLoop(xs, post, [TellingTest(x, v)]), Nowhere, 0).Emitted?
  {
    ForLoop(EndlessLoop(xs, post, [TellingTest(x, v)]), Nowhere, 0).code
  }

  /** A call of the emitted iteration function does what the body does, and then what it leads to. */
  lemma {:induction false} EmittedRound(host: Host, xs: seq<Name>, post: Stmt, x: Name, v: Datum, st: State)
    requires StraightPost(post) && ForLoop(EndlessLoop(xs, post, [TellingTest(x, v)]), Nowhere, 0).Emitted?
    ensures var code, cont := LoopCode(xs, post, x, v), ToNext(0, xs);
            Enter(host, code, Top, map[], st)
             == Follow(host, ExecList(host, [TellingTest(x, v)], map[], st), cont, Jumps(Nowhere, cont), InLoop(code, map[], Top), map[])
  {
    var body := [TellingTest(x, v)];
    var code, cont := LoopCode(xs, post, x, v), ToNext(0, xs);
    HeaderNeedsNothing(xs, post, body);
    TestAccepted(x, v, cont, 1);
    TestEmitted(x, v, cont, 1);
    assert code.body == List(body, cont, Jumps(Nowhere, cont), 1).code && code.when == [];
    ListCorrect(host, body, cont, Jumps(Nowhere, cont), 1, InLoop(code, map[], Top), map[], st);
  }

  lemma {:induction false} FirstEmittedRound(host: Host, cells: nat, xs: seq<Name>, post: Stmt, x: Name, v: Datum, st: State)
    requires Telling(host, cells) && Owned(st, xs) && |st.store.heap| == cells && st.gas > 0
    requires StraightPost(post) && ForLoop(EndlessLoop(xs, post, [TellingTest(x, v)]), Nowhere, 0).Emitted?
    requires ExecAssign(host, post.targets, post.es, map[], Probed(st)).0.Normal?
    ensures var code := LoopCode(xs, post, x, v);
            Enter(host, code, Top, map[], st) == Enter(host, code, Top, map[], Renewed(SecondRound(host, post.targets, post.es, st), xs))
  {
    var code := LoopCode(xs, post, x, v);
    HeaderNeedsNothing(xs, post, [TellingTest(x, v)]);
    EmittedRound(host, xs, post, x, v, st);
    TestPasses(host, cells, x, v, map[], st);
    AdvanceRuns(host, code, Top, map[], Probed(st));
    RenewOwned(Probed(st), xs);
    assert ExecPost(host, code.post, map[], Probed(st)) == ExecAssign(host, post.targets, post.es, map[], Probed(st));
  }

  lemma {:induction false} RenewingKeepsStore(st: State, xs: seq<Name>)
    ensures Renewed(st, xs).store == st.store
    decreases |xs|
  {
    if xs != [] {
      RenewingKeepsStore(st.Declare(xs[0], st.Read(xs[0])), xs[1..]);
    }
  }

  /** The emitted code writes the second call's own copy of `x`, and the cell keeps its value. */
  lemma {:induction false} RewrittenLeavesTheCell(host: Host, cells: nat, xs: seq<Name>, post: Stmt, x: Name, v: Datum, st: State)
    requires Telling(host, cells) && StraightPost(post) && x in xs && !AllUntaken(post.es, [x])
    requires Owned(st, xs) && |st.store.heap| == cells && st.gas > 0
    requires ForLoop(EndlessLoop(xs, post, [TellingTest(x, v)]), Nowhere, 0).Emitted?
    ensures var report := Enter(host, LoopCode(xs, post, x, v), Top, map[], st);
            report.final == Succeeded(Number(0)) && report.store == SecondRound(host, post.targets, post.es, st).store
  {
    var second := SecondRound(host, post.targets, post.es, st);
    var copied := Renewed(second, xs);
    PostTakes(host, cells, post.targets, post.es, x, map[], Probed(st));
    FirstEmittedRound(host, cells, xs, post, x, v, st);
    RenewingKeepsStore(second, xs);
    RenewedOwns(second, xs, []);
    EmittedRound(host, xs, post, x, v, copied);
    TestTells(host, cells, x, v, map[], copied);
  }

  // The two apart -------------------------------------------------------------------------

  ghost function TellingHost(others: Host, cells: nat): (host: Host)
    ensures Telling(host, cells)
  {
    others.(prim := (op, vs, store) => Gives(Number(0)),
            call := (fn, vs, store: Store) => (Gives(Number(0)), store),
            settle := (fx, store: Store) => (Answered(Truth(|store.heap| > cells)), store))
  }

  lemma {:induction false} TakenIsOneOf(e: Expr, xs: seq<Name>) returns (x: Name)
    requires !Untaken(e, xs)
    ensures x in xs && !Untaken(e, [x])
    decreases e
  {
    match e
    case AddrOf(y) => x := y;
    case Prim(_, args) => x := TakenIsOneOfAny(args, xs);
    case Call(_, args) => x := TakenIsOneOfAny(args, xs);
    case Await(fx, _) => x := TakenIsOneOf(fx, xs);
    case AndAlso(l, r) => if Untaken(l, xs) { x := TakenIsOneOf(r, xs); } else { x := TakenIsOneOf(l, xs); }
    case OrElse(l, r) => if Untaken(l, xs) { x := TakenIsOneOf(r, xs); } else { x := TakenIsOneOf(l, xs); }
  }

  lemma {:induction false} TakenIsOneOfAny(es: seq<Expr>, xs: seq<Name>) returns (x: Name)
    requires !AllUntaken(es, xs)
    ensures x in xs && !AllUntaken(es, [x])
    decreases es
  {
    if Untaken(es[0], xs) {
      x := TakenIsOneOfAny(es[1..], xs);
    } else {
      x := TakenIsOneOf(es[0], xs);
    }
  }

  lemma {:induction false} RewrittenStore(host: Host, cells: nat, xs: seq<Name>, post: Stmt, x: Name, v: Datum, st: State)
    requires Telling(host, cells) && StraightPost(post) && x in xs && !AllUntaken(post.es, [x])
    requires |st.store.heap| == cells && st.gas > 0
    ensures var s := EndlessLoop(xs, post, [TellingTest(x, v)]);
            && Body([s]).Emitted?
            && RunRewritten(host, Body([s]).code, st).store == SecondRound(host, post.targets, post.es, Overlay(st, xs)).store
  {
    var s := EndlessLoop(xs, post, [TellingTest(x, v)]);
    TellingLoopEmitted(xs, post, x, v);
    HeaderNeedsNothing(xs, post, s.body);
    InitDeclares(host, xs, post, s.body, map[], st);
    RenewOwned(Overlay(st, xs), xs);
    ForRuns(host, LoopCode(xs, post, x, v), Top, map[], st);
    RewrittenLeavesTheCell(host, cells, xs, post, x, v, Overlay(st, xs));
  }

  lemma {:induction false} GoStore(host: Host, cells: nat, xs: seq<Name>, post: Stmt, x: Name, v: Datum, st: State)
    requires Telling(host, cells) && StraightPost(post) && x in xs && !AllUntaken(post.es, [x])
    requires |st.store.heap| == cells && st.gas > 0
    ensures var s := EndlessLoop(xs, post, [TellingTest(x, v)]);
            RunGenBody(host, [s], st).store
             == Probed(SecondRound(host, post.targets, post.es, Overlay(st, xs))).Write(x, v).store
  {
    var s := EndlessLoop(xs, post, [TellingTest(x, v)]);
    InitDeclares(host, xs, post, s.body, map[], st);
    GoWritesTheCell(host, cells, xs, post.targets, post.es, x, v, Overlay(st, xs));
    LoopAlone(host, s, st, Overlay(st, xs));
  }

  /** A body that is one loop. */
  lemma {:induction false} LoopAlone(host: Host, s: Stmt, st: State, st1: State)
    requires s.For? && ExecList(host, s.init, map[], st) == (Normal, st1)
    ensures RunGenBody(host, [s], st).store == Iterate(host, s, map[], st1).1.store
  {
    ListOfOne(host, s, st);
  }

  lemma {:induction false} WritingShows(st: State, x: Name, v: Datum)
    requires Held(st, x) && Taken(st, x) && st.Read(x) != v
    ensures Probed(st).Write(x, v).store != st.store
  {
    var cell := st.vars[x].cell;
    assert Probed(st).Write(x, v).store.heap[cell] == v;
  }

  lemma {:induction false} ListOfOne(host: Host, s: Stmt, st: State)
    ensures ExecList(host, [s], map[], st) == Exec(host, s, map[], st)
  {
    assert [s][1..] == [];
  }

  // Reading the loop that tells -----------------------------------------------------------

  /** The header's names are spelled apart, and the post statement's denote what they denote. */
  predicate HeaderResolved(xs: seq<Name>, post: Stmt) {
    Once(xs) && ReadStmt(post, Parameters(xs, OUTSIDE)) == post
  }

  lemma {:induction false} DenotedThemselves(xs: seq<Name>, names: seq<Name>)
    requires Once(names) && forall x :: x in xs ==> x in names
    ensures Denoted(xs, names) == xs
  {
    if xs != [] {
      assert xs[0] in names && forall x :: x in xs[1..] ==> x in xs;
      DenotesDeclared(xs[0], names, []);
      assert names + [] == names && [xs[0]] + xs[1..] == xs;
      DenotedThemselves(xs[1..], names);
    }
  }

  /** The scope of the loop's body. */
  lemma {:induction false} LoopScope(xs: seq<Name>)
    ensures Parameters(xs, OUTSIDE).Visible() == xs && Parameters(xs, OUTSIDE).Enter() == Lexical([], xs)
    ensures Lexical([], xs).Visible() == xs && Lexical([], xs).Enter() == Lexical([], xs)
  {
  }

  lemma {:induction false} LoopResolved(xs: seq<Name>, post: seq<Stmt>, body: seq<Stmt>)
    requires |post| <= 1 && ReadList(post, Parameters(xs, OUTSIDE)) == post && ReadList(body, Lexical([], xs)) == body
    ensures var s := For([Assign(NewTargets(xs), Zeros(xs))], [], post, body);
            Resolved([s]) && LoopVars(s.init) == xs
  {
    var s := For([Assign(NewTargets(xs), Zeros(xs))], [], post, body);
    LoopDeclares(xs);
    ZerosRead(xs, [], OUTSIDE.Enter());
    assert OUTSIDE.Enter().Visible() == [];
    OneReads(s.init[0], OUTSIDE.Enter());
    InitBecomesParameters(s.init, OUTSIDE);
    LoopScope(xs);
    OneReads(s, OUTSIDE);
  }

  lemma {:induction false} TestReads(xs: seq<Name>, x: Name, v: Datum)
    requires Once(xs) && x in xs
    ensures ReadList([TellingTest(x, v)], Lexical([], xs)) == [TellingTest(x, v)]
  {
    var s := TellingTest(x, v);
    var lex := Lexical([], xs);
    var write, answer := s.thn[0], s.thn[1];
    LoopScope(xs);
    DenotesDeclared(x, xs, []);
    assert xs + [] == xs;
    OneTarget(Old(x), lex);
    OneRespells(Lit(v), xs);
    assert ReadStmt(write, lex) == write && lex.With([]) == lex && After(write, lex) == lex;
    assert ReadStmt(answer, lex) == answer;
    TwoRead(write, answer, lex);
    assert ReadList(s.thn, lex) == [write, answer];
    assert Respell(PROBE, xs) == PROBE;
    assert AfterList([], lex) == lex;
    OneReads(s, lex);
  }

  lemma {:induction false} TestIntact(xs: seq<Name>, x: Name, v: Datum)
    requires Once(xs) && x in xs
    ensures var cont := ToNext(0, xs);
            && IntactList([TellingTest(x, v)], cont, Jumps(Nowhere, cont), Lexical([], xs)) && Lead([TellingTest(x, v)]) == []
  {
    var s := TellingTest(x, v);
    var lex, cont := Lexical([], xs), ToNext(0, xs);
    var jumps := Jumps(Nowhere, cont);
    var write, answer := s.thn[0], s.thn[1];
    LoopScope(xs);
    DenotedThemselves(xs, xs);
    HoistOne(Lit(v), 0);
    assert s.thn[1..] == [answer] && [answer][1..] == [] && [s][1..] == [];
    assert !AwaitsIn(PROBE) && !Needs(write) && !Needs(answer);
    assert IntactList([answer], cont, jumps, After(write, lex));
    assert IntactList(s.thn, cont, jumps, lex);
    assert AfterList([], lex) == lex && Intact(cont, lex);
    assert IntactInside(s, cont, jumps, lex);
    assert Needs(s);
  }

  /** In the loop that tells, sharing is all there is to change its meaning. */
  lemma {:induction false} TellingReads(xs: seq<Name>, post: Stmt, x: Name, v: Datum)
    requires StraightPost(post) && HeaderResolved(xs, post) && x in xs
    ensures var s := EndlessLoop(xs, post, [TellingTest(x, v)]);
            AllPlainStmts([s], 0) && Resolved([s]) && Unshadowed([s])
  {
    var s := EndlessLoop(xs, post, [TellingTest(x, v)]);
    TestReads(xs, x, v);
    OneReads(post, Parameters(xs, OUTSIDE));
    LoopResolved(xs, [post], s.body);
    HeaderNeedsNothing(xs, post, s.body);
    TestAccepted(x, v, ToNext(0, xs), 1);
    Alone(s, Nowhere, NO_JUMPS);
    Alone(TellingTest(x, v), Nowhere, NO_JUMPS);
    TestIntact(xs, x, v);
    LoopUnshadowed(s, xs);
  }

  lemma {:induction false} LoopUnshadowed(s: Stmt, xs: seq<Name>)
    requires s.For? && s.when == [] && Needs(s) && LoopVars(s.init) == xs && NoneOf(Lead(s.body), xs)
    requires var cont := ToNext(0, xs); IntactList(s.body, cont, Jumps(Nowhere, cont), Lexical([], xs))
    ensures Unshadowed([s])
  {
    LoopScope(xs);
    assert [s][1..] == [];
    assert IntactInside(s, Nowhere, NO_JUMPS, OUTSIDE);
  }

  /** The body that tells: Go leaves `v` in the variable's cell, the rewrite what was there. */
  lemma {:induction false} StoresDiffer(others: Host, xs: seq<Name>, post: Stmt, x: Name, st: State) returns (v: Datum)
    requires StraightPost(post) && HeaderResolved(xs, post) && x in xs && !AllUntaken(post.es, [x]) && st.gas > 0
    ensures var host, s := TellingHost(others, |st.store.heap|), EndlessLoop(xs, post, [TellingTest(x, v)]);
            && Body([s]).Emitted? && Resolved([s]) && Unshadowed([s]) && BodyCompiles([s])
            && RunRewritten(host, ReadBody([s]), st).store != RunGenBody(host, [s], st).store
  {
    var cells := |st.store.heap|;
    var host := TellingHost(others, cells);
    var st1 := Overlay(st, xs);
    InitDeclares(host, xs, post, [], map[], st);
    PostTakes(host, cells, post.targets, post.es, x, map[], Probed(st1));
    var second := SecondRound(host, post.targets, post.es, st1);
    v := if second.Read(x) == Number(0) then Number(1) else Number(0);
    RewrittenStore(host, cells, xs, post, x, v, st);
    GoStore(host, cells, xs, post, x, v, st);
    WritingShows(second, x, v);
    TellingReads(xs, post, x, v);
    UnshadowedReadsAsMeant([EndlessLoop(xs, post, [TellingTest(x, v)])]);
  }

  /** Whether the rewrite keeps the meaning of this loop, if it accepts it and its body hides no loop
      variable. */
  ghost predicate KeptIn(host: Host, xs: seq<Name>, post: Stmt, body: seq<Stmt>, st: State) {
    var loop := [EndlessLoop(xs, post, body)];
    NeedsAny(body) && AllPlainStmts(body, 0) && AllSound(body) && !BreaksAny(body)
    && Resolved(loop) && Unshadowed(loop) && Body(loop).Emitted? ==>
      BodyCompiles(loop) && RunRewritten(host, ReadBody(loop), st) == RunGenBody(host, loop, st)
  }

  /** Around this post statement the rewrite keeps the meaning of every accepted body that hides no
      loop variable, under every host and from every state. */
  ghost predicate KeepsMeaning(xs: seq<Name>, post: Stmt) {
    forall host: Host, body: seq<Stmt>, st: State :: KeptIn(host, xs, post, body, st)
  }

  lemma {:induction false} UntakenIsKept(host: Host, xs: seq<Name>, post: Stmt, body: seq<Stmt>, st: State)
    requires StraightPost(post) && AllUntaken(post.es, xs)
    ensures KeptIn(host, xs, post, body, st)
  {
    var s := EndlessLoop(xs, post, body);
    if NeedsAny(body) && AllPlainStmts(body, 0) && AllSound(body) && !BreaksAny(body)
       && Resolved([s]) && Unshadowed([s]) && Body([s]).Emitted? {
      HeaderNeedsNothing(xs, post, body);
      Alone(s, Nowhere, NO_JUMPS);
      assert [s][|[s]| - 1] == s;
      RewritePreservesMeaning(host, [s], st);
    }
  }

  /** For bodies that hide no loop variable, passing the variables as parameters is harmless exactly
      if the post statement takes the address of none of them. */
  lemma {:induction false} UnshadowedLoopsKeptExactly(others: Host, xs: seq<Name>, post: Stmt, st: State)
    requires StraightPost(post) && HeaderResolved(xs, post) && st.gas > 0
    ensures KeepsMeaning(xs, post) <==> AllUntaken(post.es, xs)
  {
    if AllUntaken(post.es, xs) {
      forall host: Host, body: seq<Stmt>, start: State
        ensures KeptIn(host, xs, post, body, start)
      {
        UntakenIsKept(host, xs, post, body, start);
      }
    } else {
      var x := TakenIsOneOfAny(post.es, xs);
      var v := StoresDiffer(others, xs, post, x, st);
      TestAccepted(x, v, ToNext(0, xs), 1);
      Alone(TellingTest(x, v), ToNext(0, xs), NO_JUMPS);
      assert !KeptIn(TellingHost(others, |st.store.heap|), xs, post, [TellingTest(x, v)], st);
    }
  }
}
