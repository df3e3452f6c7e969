/** The rewrite keeps the meaning of the bodies it accepts, as long as what it emits reads as it was
    meant: the translation itself, and the theorem about the text it is spelled as. */
module RewriteCorrect {
  import opened Direct
  import opened Rewrite
  import opened RewriteHoist
  import opened RewriteSpell
  import opened RewriteFlow
  import opened RewriteFollow
  import opened RewriteScopes

  // What is accepted ----------------------------------------------------------------------

  /** A list of source statements that may be continued with `k` under `jumps`, where functions
      numbered from `n` on are still to be defined. */
  predicate Accepted(list: seq<Stmt>, k: Jump, jumps: Jumps, n: nat) {
    AllPlainStmts(list, 0) && AllSound(list) && Fits(list, k, jumps) && Below(k, jumps, n)
  }

  predicate AcceptedOne(s: Stmt, k: Jump, jumps: Jumps, n: nat) {
    && Plain(s, 0) && Sound(s) && Needs(s) && Below(k, jumps, n)
    && (k == Nowhere ==> Ends(s, false))
    && (jumps.brk == Nowhere ==> !Breaks(s))
    && (jumps.cont == Nowhere ==> !Continues(s))
  }

  /** What a list does once its first statement is done. */
  function Onward(host: Host, r: (Ending, State), rest: seq<Stmt>, temps: Temps): (Ending, State) {
    if r.0.Normal? then ExecList(host, rest, temps, r.1) else r
  }

  lemma {:induction false} RestAccepted(list: seq<Stmt>, k: Jump, jumps: Jumps, n: nat, more: nat)
    requires Accepted(list, k, jumps, n) && list != [] && n <= more
    requires list[1..] == [] ==> k != Nowhere
    ensures Accepted(list[1..], k, jumps, more)
  {
  }

  /** Carrying on with later awaited names in scope is carrying on without them. */
  lemma {:induction false} LaterTemps(host: Host, list: seq<Stmt>, k: Jump, jumps: Jumps, n: nat, env: Env, a: Temps, b: Temps, st: State)
    requires AllPlainStmts(list, 0) && Below(k, jumps, n) && AgreeBelow(a, b, n)
    ensures Follow(host, ExecList(host, list, a, st), k, jumps, env, a) == Follow(host, ExecList(host, list, b, st), k, jumps, env, b)
  {
    ExecListIgnoresTemps(host, list, 0, a, b, st);
    ExecListFlows(host, list, 0, a, st);
    FollowIgnoresTemps(host, ExecList(host, list, a, st), k, jumps, n, env, a, b);
  }

  // Lists ---------------------------------------------------------------------------------

  /** Running the code emitted for a list is running the list and going on where it leaves off. */
  lemma {:induction false} ListCorrect(host: Host, list: seq<Stmt>, k: Jump, jumps: Jumps, n: nat, env: Env, temps: Temps, st: State)
    requires Accepted(list, k, jumps, n) && List(list, k, jumps, n).Emitted?
    ensures Run(host, List(list, k, jumps, n).code, env, temps, st) == Follow(host, ExecList(host, list, temps, st), k, jumps, env, temps)
    decreases st.gas, ListSize(list), 12
  {
    if list == [] {
      GoLeaps(host, k, env, temps, st);
    } else if Needs(list[0]) {
      NeedingCorrect(host, list, k, jumps, n, env, temps, st);
    } else {
      SpelledCorrect(host, list, k, jumps, n, env, temps, st);
    }
  }

  lemma {:induction false} SpelledCorrect(host: Host, list: seq<Stmt>, k: Jump, jumps: Jumps, n: nat, env: Env, temps: Temps, st: State)
    requires Accepted(list, k, jumps, n) && list != [] && !Needs(list[0]) && List(list, k, jumps, n).Emitted?
    ensures Run(host, List(list, k, jumps, n).code, env, temps, st) == Follow(host, ExecList(host, list, temps, st), k, jumps, env, temps)
    decreases st.gas, ListSize(list), 11
  {
    var s, rest := list[0], list[1..];
    var r := Exec(host, s, temps, st);
    SpellKeeps(host, s, jumps, 0, temps, st);
    ExecFlows(host, s, 0, temps, st);
    if rest == [] && Terminates(s, jumps) {
      TerminatesEnds(s, jumps);
      TextFollows(host, Spell(s, jumps), Missing, r, ReportOf(Nonsense, st), k, jumps, env, temps, st);
    } else {
      var tail := List(rest, k, jumps, n);
      if r.0.Normal? {
        RestFollows(host, list, k, jumps, n, n, env, temps, r.1);
      }
      TextFollows(host, Spell(s, jumps), tail.code, r, Follow(host, Onward(host, r, rest, temps), k, jumps, env, temps), k, jumps, env, temps, st);
    }
  }

  /** A branch runs after the steps of its header, whose values it cannot name. */
  lemma {:induction false} ArmCorrect(host: Host, list: seq<Stmt>, k: Jump, jumps: Jumps, n: nat, at: nat, env: Env, temps: Temps, t: Temps, st: State)
    requires Accepted(list, k, jumps, n) && n <= at && List(list, k, jumps, at).Emitted? && AgreeBelow(temps, t, n)
    ensures Run(host, List(list, k, jumps, at).code, env, t, st) == Follow(host, ExecList(host, list, temps, st), k, jumps, env, temps)
    decreases st.gas, ListSize(list), 13
  {
    ListCorrect(host, list, k, jumps, at, env, t, st);
    LaterTemps(host, list, k, jumps, n, env, temps, t, st);
  }

  /** The statements after the first. When nothing follows and nothing is left to return, that is
      where no code runs. */
  lemma {:induction false} RestFollows(host: Host, list: seq<Stmt>, k: Jump, jumps: Jumps, n: nat, more: nat, env: Env, temps: Temps, st: State)
    requires Accepted(list, k, jumps, n) && list != [] && n <= more && List(list[1..], k, jumps, more).Emitted?
    ensures Run(host, List(list[1..], k, jumps, more).code, env, temps, st)
             == Follow(host, ExecList(host, list[1..], temps, st), k, jumps, env, temps)
    decreases st.gas, ListSize(list), 0
  {
    if list[1..] == [] {
      GoLeaps(host, k, env, temps, st);
    } else {
      RestAccepted(list, k, jumps, n, more);
      ListCorrect(host, list[1..], k, jumps, more, env, temps, st);
    }
  }

  lemma {:induction false} NeedingCorrect(host: Host, list: seq<Stmt>, k: Jump, jumps: Jumps, n: nat, env: Env, temps: Temps, st: State)
    requires Accepted(list, k, jumps, n) && list != [] && Needs(list[0]) && List(list, k, jumps, n).Emitted?
    ensures Run(host, List(list, k, jumps, n).code, env, temps, st) == Follow(host, ExecList(host, list, temps, st), k, jumps, env, temps)
    decreases st.gas, ListSize(list), 11
  {
    var s, rest := list[0], list[1..];
    if IsCompound(s) {
      if rest == [] {
        InsideCorrect(host, s, k, jumps, n, env, temps, st);
      } else {
        RejoinCorrect(host, list, k, jumps, n, env, temps, st);
      }
    } else if s.Return? && s.answer.Await? && s.answer.own {
      TailStepCorrect(host, s, k, jumps, n, env, temps, st);
    } else if EndsInValue(s, rest, k, jumps) && HoistAll(OwnExprs(s), n).steps != [] {
      assert [s] + rest == list;
      ValueTailCorrect(host, list, n, env, temps, st);
    } else {
      SimpleCorrect(host, list, k, jumps, n, env, temps, st);
    }
  }

  // Simple statements ---------------------------------------------------------------------

  lemma {:induction false} AwaitIsAwaitExpr(host: Host, fx: Expr, own: bool, temps: Temps, st: State)
    ensures Evaluate(host, Await(fx, own), temps, st) == AwaitExpr(host, fx, temps, st)
  {
  }

  /** The body ends with this answer, or without one. */
  function Answer(v: Result<Datum>, st: State): Report {
    ReportOf(if v.Halted? then HaltFinal(v.halt) else Succeeded(v.value), st)
  }

  lemma {:induction false} ReturnFollows(host: Host, e: Expr, k: Jump, jumps: Jumps, env: Env, temps: Temps, st: State)
    ensures var (v, st1) := Evaluate(host, e, temps, st);
            Follow(host, Exec(host, Return(e), temps, st), k, jumps, env, temps) == Answer(v, st1)
  {
  }

  lemma {:induction false} ReturnFxRuns(host: Host, fx: Expr, env: Env, temps: Temps, st: State)
    ensures var (v, st1) := AwaitExpr(host, fx, temps, st); Run(host, ReturnFx(fx), env, temps, st) == Answer(v, st1)
  {
  }

  /** Returning the awaited effect itself is awaiting it and returning its value. */
  lemma {:induction false} TailStepCorrect(host: Host, s: Stmt, k: Jump, jumps: Jumps, n: nat, env: Env, temps: Temps, st: State)
    requires s.Return? && s.answer.Await? && Plain(s, 0) && Scan(s.answer, false).0
    ensures var h := Hoist(s.answer.fx, n);
            Run(host, Chain(h.steps, ReturnFx(h.e)), env, temps, st) == Follow(host, Exec(host, s, temps, st), k, jumps, env, temps)
  {
    var fx := s.answer.fx;
    var h := Hoist(fx, n);
    TempsBelowMore(fx, 0, n);
    ChainRuns(host, h.steps, ReturnFx(h.e), env, temps, st);
    EvaluateHoisted(host, fx, n, temps, st);
    AwaitIsAwaitExpr(host, fx, s.answer.own, temps, st);
    ReturnFollows(host, s.answer, k, jumps, env, temps, st);
    var (t, st1) := RunSteps(host, h.steps, temps, st);
    if t.Got? {
      ReturnFxRuns(host, h.e, env, t.value, st1);
    }
  }

  /** A hoisted statement as spelled, given what its values are. */
  lemma {:induction false} HoistedSpelled(host: Host, s: Stmt, n: nat, t: Temps, st: State)
    requires (IsPlain(s) || s.Return?) && Plain(s, 0)
    ensures var s' := WithExprs(s, HoistAll(OwnExprs(s), n).es);
            && SameFrom(Exec(host, Spell(s', NO_JUMPS), t, st), Exec(host, s', t, st))
            && !Exec(host, s', t, st).0.Broke? && !Exec(host, s', t, st).0.Continued? && !Exec(host, s', t, st).0.Jumped?
            && (!s.Assign? ==> !Exec(host, s', t, st).0.Normal?)
  {
    var h := HoistAll(OwnExprs(s), n);
    HoistedPlain(s, n);
    SpellKeeps(host, WithExprs(s, h.es), NO_JUMPS, h.next, t, st);
  }

  /** Awaits inside continuations, the statement with their values, then the rest. */
  lemma {:induction false} SimpleCorrect(host: Host, list: seq<Stmt>, k: Jump, jumps: Jumps, n: nat, env: Env, temps: Temps, st: State)
    requires Accepted(list, k, jumps, n) && list != [] && Needs(list[0]) && !IsCompound(list[0])
    requires ScanAll(OwnExprs(list[0]), false).0
    requires var h := HoistAll(OwnExprs(list[0]), n); Terminates(list[0], jumps) || List(list[1..], k, jumps, h.next).Emitted?
    ensures var h := HoistAll(OwnExprs(list[0]), n);
            var text := Spell(WithExprs(list[0], h.es), NO_JUMPS);
            var tail := if Terminates(list[0], jumps) then Missing else List(list[1..], k, jumps, h.next).code;
            Run(host, Chain(h.steps, Text(text, tail)), env, temps, st)
             == Follow(host, ExecList(host, list, temps, st), k, jumps, env, temps)
    decreases st.gas, ListSize(list), 10
  {
    var s, rest := list[0], list[1..];
    var h := HoistAll(OwnExprs(s), n);
    var s' := WithExprs(s, h.es);
    var text := Spell(s', NO_JUMPS);
    var tail := if Terminates(s, jumps) then Missing else List(rest, k, jumps, h.next).code;
    ChainRuns(host, h.steps, Text(text, tail), env, temps, st);
    SimpleHoisted(host, s, n, temps, st);
    StepsAgree(host, s, n, temps, st);
    var (t, st1) := RunSteps(host, h.steps, temps, st);
    if t.Got? {
      SimpleText(host, list, k, jumps, n, env, temps, t.value, st1);
    }
  }

  lemma {:induction false} SimpleText(host: Host, list: seq<Stmt>, k: Jump, jumps: Jumps, n: nat, env: Env, temps: Temps, t: Temps, st: State)
    requires Accepted(list, k, jumps, n) && list != [] && !IsCompound(list[0]) && (IsPlain(list[0]) || list[0].Return?)
    requires var h := HoistAll(OwnExprs(list[0]), n); Terminates(list[0], jumps) || List(list[1..], k, jumps, h.next).Emitted?
    requires AgreeBelow(temps, t, n)
    ensures var h := HoistAll(OwnExprs(list[0]), n);
            var s' := WithExprs(list[0], h.es);
            var tail := if Terminates(list[0], jumps) then Missing else List(list[1..], k, jumps, h.next).code;
            Run(host, Text(Spell(s', NO_JUMPS), tail), env, t, st)
             == Follow(host, Onward(host, Exec(host, s', t, st), list[1..], temps), k, jumps, env, temps)
    decreases st.gas, ListSize(list), 9
  {
    var s, rest := list[0], list[1..];
    var h := HoistAll(OwnExprs(s), n);
    var s' := WithExprs(s, h.es);
    HoistedSpelled(host, s, n, t, st);
    var r := Exec(host, s', t, st);
    if r.0.Normal? {
      var tail := List(rest, k, jumps, h.next);
      TextContinues(host, Spell(s', NO_JUMPS), tail.code, env, t, st, r.1);
      RestFollows(host, list, k, jumps, n, h.next, env, t, r.1);
      LaterTemps(host, rest, k, jumps, n, env, temps, t, r.1);
    } else {
      var tail := if Terminates(s, jumps) then Missing else List(rest, k, jumps, h.next).code;
      TextLeaves(host, Spell(s', NO_JUMPS), tail, r, k, jumps, env, temps, t, st);
    }
  }

  lemma {:induction false} TextContinues(host: Host, text: Stmt, rest: Code, env: Env, t: Temps, st: State, st1: State)
    requires Exec(host, text, t, st) == (Normal, st1)
    ensures Run(host, Text(text, rest), env, t, st) == Run(host, rest, env, t, st1)
  {
  }

  lemma {:induction false} TextLeaves(host: Host, text: Stmt, rest: Code, r: (Ending, State), k: Jump, jumps: Jumps, env: Env, temps: Temps, t: Temps, st: State)
    requires SameFrom(Exec(host, text, t, st), r)
    requires !r.0.Normal? && !r.0.Broke? && !r.0.Continued? && !r.0.Jumped?
    ensures Run(host, Text(text, rest), env, t, st) == Follow(host, r, k, jumps, env, temps)
  {
  }

  lemma {:induction false} StepsAgree(host: Host, s: Stmt, n: nat, temps: Temps, st: State)
    requires !IsCompound(s) && Plain(s, 0)
    ensures var (t, _) := RunSteps(host, HoistAll(OwnExprs(s), n).steps, temps, st); t.Got? ==> AgreeBelow(temps, t.value, n)
  {
    var es := OwnExprs(s);
    assert AllTempsBelow(es, 0) by {
      if !s.Assign? && es != [] {
        assert es[1..] == [];
      }
    }
    AllTempsBelowMore(es, 0, n);
    HoistAllShape(es, n, false);
    StepsBindFrom(host, HoistAll(es, n).steps, n, HoistAll(es, n).next, temps, st);
  }

  // The last step as a Map ----------------------------------------------------------------

  /** With nothing to go on to, falling off the end, breaking and continuing are all nonsense. */
  lemma {:induction false} NowhereToGo(host: Host, r: (Ending, State), env: Env, temps: Temps)
    ensures Follow(host, r, Nowhere, NO_JUMPS, env, temps) == Conclude(host, r.0, env, temps, r.1)
  {
    NowhereIsNonsense(host, env, temps, r.1);
  }

  lemma {:induction false} SpellListAppend(a: seq<Stmt>, b: seq<Stmt>, jumps: Jumps)
    ensures SpellList(a + b, jumps) == SpellList(a, jumps) + SpellList(b, jumps)
  {
    if a == [] {
      assert a + b == b;
    } else {
      assert (a + b)[1..] == a[1..] + b;
      SpellListAppend(a[1..], b, jumps);
    }
  }

  /** The function of the Map holds the spelled statements up to the return, and the return. */
  lemma {:induction false} MapHoldsTheRest(s: Stmt, rest: seq<Stmt>)
    requires rest != [] && rest[|rest| - 1].Return?
    ensures SpellList([s] + rest[..|rest| - 1], NO_JUMPS) + [Return(rest[|rest| - 1].answer)] == [Spell(s, NO_JUMPS)] + SpellList(rest, NO_JUMPS)
  {
    var init, last := rest[..|rest| - 1], rest[|rest| - 1];
    assert rest == init + [last];
    SpellListAppend(init, [last], NO_JUMPS);
    assert [last][1..] == [];
    assert SpellList([last], NO_JUMPS) == [last];
    assert ([s] + init)[1..] == init;
  }

  lemma {:induction false} SpelledTailSame(host: Host, s: Stmt, rest: seq<Stmt>, n: nat, t: Temps, st: State)
    requires (IsPlain(s) || s.Return?) && Plain(s, 0) && AllPlainStmts(rest, 0)
    ensures var s' := WithExprs(s, HoistAll(OwnExprs(s), n).es);
            SameFrom(ExecList(host, [Spell(s', NO_JUMPS)] + SpellList(rest, NO_JUMPS), t, st), Onward(host, Exec(host, s', t, st), rest, t))
  {
    var s' := WithExprs(s, HoistAll(OwnExprs(s), n).es);
    var spelled := [Spell(s', NO_JUMPS)] + SpellList(rest, NO_JUMPS);
    HoistedSpelled(host, s, n, t, st);
    var r := Exec(host, s', t, st);
    assert spelled[1..] == SpellList(rest, NO_JUMPS);
    if r.0.Normal? {
      SpellListKeeps(host, rest, NO_JUMPS, 0, t, r.1);
    }
  }

  /** What the function of the Map does with the last awaited value. */
  lemma {:induction false} MapBody(host: Host, list: seq<Stmt>, n: nat, t: Temps, st: State)
    requires list != [] && AllPlainStmts(list, 0) && EndsInValue(list[0], list[1..], Nowhere, NO_JUMPS)
    requires HoistAll(OwnExprs(list[0]), n).steps != []
    ensures var s, rest := list[0], list[1..];
            var s' := WithExprs(s, HoistAll(OwnExprs(s), n).es);
            var last := MapOf(s, rest, n);
            SameFrom(ExecList(host, last.before + [Return(last.answer)], t, st), Onward(host, Exec(host, s', t, st), rest, t))
  {
    var s, rest := list[0], list[1..];
    var s' := WithExprs(s, HoistAll(OwnExprs(s), n).es);
    assert [s] + rest == list;
    if rest == [] {
      assert [] + [Return(s'.answer)] == [s'] && [s'][1..] == [];
      HoistedSpelled(host, s, n, t, st);
    } else {
      assert list[|list| - 1] == rest[|rest| - 1];
      MapHoldsTheRest(s', rest);
      PlainHead(list);
      SpelledTailSame(host, s, rest, n, t, st);
    }
  }

  lemma {:induction false} PlainHead(list: seq<Stmt>)
    requires |list| > 1 && AllPlain(list[..|list| - 1])
    ensures IsPlain(list[0])
  {
  }

  /** The Map a value tail ends in. */
  function MapOf(s: Stmt, rest: seq<Stmt>, n: nat): (code: Code)
    requires EndsInValue(s, rest, Nowhere, NO_JUMPS) && HoistAll(OwnExprs(s), n).steps != []
    ensures code.MapLast?
    ensures var steps := HoistAll(OwnExprs(s), n).steps;
            ValueTail(s, rest, n).code == Chain(steps[..|steps| - 1], code)
  {
    var h := HoistAll(OwnExprs(s), n);
    var final := h.steps[|h.steps| - 1];
    var s' := WithExprs(s, h.es);
    if rest == [] then MapLast(final.fx, final.temp, [], s'.answer)
    else MapLast(final.fx, final.temp, SpellList([s'] + rest[..|rest| - 1], NO_JUMPS), rest[|rest| - 1].answer)
  }

  /** All steps but the last by FlatMap and the last by Map is all steps, then the rest. */
  lemma {:induction false} MapChainRuns(host: Host, steps: seq<Step>, last: Code, env: Env, temps: Temps, st: State) returns (u: Temps)
    requires steps != [] && last.MapLast? && steps[|steps| - 1] == Step(last.fx, last.temp)
    ensures Run(host, Chain(steps[..|steps| - 1], last), env, temps, st)
             == var (t, st1) := RunSteps(host, steps, temps, st);
            if t.Halted? then ReportOf(HaltFinal(t.halt), st1)
            else
              var (ending, st2) := ExecList(host, last.before + [Return(last.answer)], t.value, st1);
              Conclude(host, ending, env, u, st2)
  {
    var init, final := steps[..|steps| - 1], steps[|steps| - 1];
    assert steps == init + [final];
    ChainRuns(host, init, last, env, temps, st);
    RunStepsAppend(host, init, [final], temps, st);
    var (t, st1) := RunSteps(host, init, temps, st);
    u := temps;
    if t.Got? {
      u := t.value;
      OneStep(host, final, t.value, st1);
    }
  }

  lemma {:induction false} OneStep(host: Host, step: Step, temps: Temps, st: State)
    ensures RunSteps(host, [step], temps, st)
             == var (v, st1) := AwaitExpr(host, step.fx, temps, st);
            (if v.Halted? then Halted(v.halt) else Got(temps[step.temp := v.value]), st1)
  {
  }

  lemma {:induction false} SameConclusion(host: Host, a: (Ending, State), b: (Ending, State), env: Env, u: Temps, temps: Temps)
    requires SameFrom(a, b) && !b.0.Jumped?
    ensures Conclude(host, a.0, env, u, a.1) == Conclude(host, b.0, env, temps, b.1)
  {
  }

  /** Emitting the last step as a Map of the rest is emitting it as any other step. */
  lemma {:induction false} ValueTailCorrect(host: Host, list: seq<Stmt>, n: nat, env: Env, temps: Temps, st: State)
    requires list != [] && AllPlainStmts(list, 0) && EndsInValue(list[0], list[1..], Nowhere, NO_JUMPS)
    requires HoistAll(OwnExprs(list[0]), n).steps != [] && ScanAll(OwnExprs(list[0]), false).0 && !IsCompound(list[0])
    ensures Run(host, ValueTail(list[0], list[1..], n).code, env, temps, st)
             == Follow(host, ExecList(host, list, temps, st), Nowhere, NO_JUMPS, env, temps)
  {
    var s, rest := list[0], list[1..];
    var h := HoistAll(OwnExprs(s), n);
    var last := MapOf(s, rest, n);
    assert [s] + rest == list;
    PlainOrReturn(list);
    var u := MapChainRuns(host, h.steps, last, env, temps, st);
    SimpleHoisted(host, s, n, temps, st);
    var whole := ExecList(host, list, temps, st);
    NowhereToGo(host, whole, env, temps);
    var (t, st1) := RunSteps(host, h.steps, temps, st);
    if t.Got? {
      MapConcludes(host, list, n, env, temps, t.value, u, st, st1);
    } else {
      assert Exec(host, s, temps, st) == (Ended(t.halt), st1);
      assert whole == (Ended(t.halt), st1);
    }
  }

  lemma {:induction false} MapConcludes(host: Host, list: seq<Stmt>, n: nat, env: Env, temps: Temps, t: Temps, u: Temps, st: State, st1: State)
    requires list != [] && AllPlainStmts(list, 0) && EndsInValue(list[0], list[1..], Nowhere, NO_JUMPS)
    requires HoistAll(OwnExprs(list[0]), n).steps != []
    requires Exec(host, list[0], temps, st) == Exec(host, WithExprs(list[0], HoistAll(OwnExprs(list[0]), n).es), t, st1)
    ensures var last := MapOf(list[0], list[1..], n);
            var (ending, st2) := ExecList(host, last.before + [Return(last.answer)], t, st1);
            var r := ExecList(host, list, temps, st);
            Conclude(host, ending, env, u, st2) == Conclude(host, r.0, env, temps, r.1)
  {
    var s, rest := list[0], list[1..];
    var last := MapOf(s, rest, n);
    var r := Exec(host, s, temps, st);
    MapBody(host, list, n, t, st1);
    ExecListIgnoresTemps(host, rest, 0, temps, t, r.1);
    ExecListFlows(host, list, 0, temps, st);
    SameConclusion(host, ExecList(host, last.before + [Return(last.answer)], t, st1), ExecList(host, list, temps, st), env, u, temps);
  }

  lemma {:induction false} PlainOrReturn(list: seq<Stmt>)
    requires list != [] && list[|list| - 1].Return? && AllPlain(list[..|list| - 1])
    ensures IsPlain(list[0]) || list[0].Return?
  {
  }

  // Rejoining -----------------------------------------------------------------------------

  lemma {:induction false} RejoinCorrect(host: Host, list: seq<Stmt>, k: Jump, jumps: Jumps, n: nat, env: Env, temps: Temps, st: State)
    requires Accepted(list, k, jumps, n) && |list| > 1 && Needs(list[0]) && IsCompound(list[0])
    requires Rejoin(list[0], list[1..], k, jumps, n).Emitted?
    ensures Run(host, Rejoin(list[0], list[1..], k, jumps, n).code, env, temps, st)
             == Follow(host, ExecList(host, list, temps, st), k, jumps, env, temps)
    decreases st.gas, ListSize(list), 10
  {
    var s, rest := list[0], list[1..];
    var inner := Inside(s, ToContinuation(n), jumps, n + 1);
    if Mentions(inner.code, n) {
      DefinedCorrect(host, list, k, jumps, n, env, temps, st);
    } else {
      DroppedCorrect(host, list, k, jumps, n, env, temps, st);
    }
  }

  /** Branches that rejoin call the continuation defined ahead of them. */
  lemma {:induction false} DefinedCorrect(host: Host, list: seq<Stmt>, k: Jump, jumps: Jumps, n: nat, env: Env, temps: Temps, st: State)
    requires Accepted(list, k, jumps, n) && |list| > 1 && Needs(list[0]) && IsCompound(list[0])
    requires Inside(list[0], ToContinuation(n), jumps, n + 1).Emitted?
    requires List(list[1..], k, jumps, Inside(list[0], ToContinuation(n), jumps, n + 1).next).Emitted?
    ensures var inner := Inside(list[0], ToContinuation(n), jumps, n + 1);
            Run(host, Define(n, List(list[1..], k, jumps, inner.next).code, inner.code), env, temps, st)
             == Follow(host, ExecList(host, list, temps, st), k, jumps, env, temps)
    decreases st.gas, ListSize(list), 9
  {
    var s, rest := list[0], list[1..];
    var inner := Inside(s, ToContinuation(n), jumps, n + 1);
    var tail := List(rest, k, jumps, inner.next);
    var within := WithContinuation(n, tail.code, temps, env);
    InsideCorrect(host, s, ToContinuation(n), jumps, n + 1, within, temps, st);
    var r := Exec(host, s, temps, st);
    ExecFlows(host, s, 0, temps, st);
    LeapSkips(host, jumps.brk, n, within, temps, r.1);
    LeapSkips(host, jumps.cont, n, within, temps, r.1);
    if r.0.Normal? {
      RestFollows(host, list, k, jumps, n, inner.next, env, temps, r.1);
    }
  }

  /** Where no branch calls the continuation, none runs off its end: running off it would run
      whatever the continuation holds, and what it holds makes no difference. */
  lemma {:induction false} DroppedCorrect(host: Host, list: seq<Stmt>, k: Jump, jumps: Jumps, n: nat, env: Env, temps: Temps, st: State)
    requires Accepted(list, k, jumps, n) && |list| > 1 && Needs(list[0]) && IsCompound(list[0])
    requires Inside(list[0], ToContinuation(n), jumps, n + 1).Emitted?
    requires !Mentions(Inside(list[0], ToContinuation(n), jumps, n + 1).code, n)
    ensures Run(host, Inside(list[0], ToContinuation(n), jumps, n + 1).code, env, temps, st)
             == Follow(host, ExecList(host, list, temps, st), k, jumps, env, temps)
    decreases st.gas, ListSize(list), 9
  {
    var s := list[0];
    var r := Exec(host, s, temps, st);
    ExecFlows(host, s, 0, temps, st);
    WithAnyContinuation(host, s, jumps, n, Missing, env, temps, st);
    WithAnyContinuation(host, s, jumps, n, Text(Return(Lit(Number(0))), Missing), env, temps, st);
    AnswersAtOnce(host, env, temps, r.1);
  }

  lemma {:induction false} WithAnyContinuation(host: Host, s: Stmt, jumps: Jumps, n: nat, body: Code, env: Env, temps: Temps, st: State)
    requires AcceptedOne(s, ToContinuation(n), jumps, n + 1) && IsCompound(s) && Below(Nowhere, jumps, n)
    requires Inside(s, ToContinuation(n), jumps, n + 1).Emitted? && !Mentions(Inside(s, ToContinuation(n), jumps, n + 1).code, n)
    ensures var r := Exec(host, s, temps, st);
            Run(host, Inside(s, ToContinuation(n), jumps, n + 1).code, env, temps, st)
             == if r.0.Normal? then Run(host, body, env, temps, r.1) else Follow(host, r, Nowhere, jumps, env, temps)
    decreases st.gas, Size(s), 8
  {
    var within := WithContinuation(n, body, temps, env);
    var r := Exec(host, s, temps, st);
    InsideCorrect(host, s, ToContinuation(n), jumps, n + 1, within, temps, st);
    UnmentionedIsIrrelevant(host, Inside(s, ToContinuation(n), jumps, n + 1).code, within, env, n, temps, st);
    ExecFlows(host, s, 0, temps, st);
    LeapSkips(host, jumps.brk, n, within, temps, r.1);
    LeapSkips(host, jumps.cont, n, within, temps, r.1);
  }

  lemma {:induction false} AnswersAtOnce(host: Host, env: Env, temps: Temps, st: State)
    ensures Run(host, Text(Return(Lit(Number(0))), Missing), env, temps, st) != Run(host, Missing, env, temps, st)
  {
  }

  // Branches ------------------------------------------------------------------------------

  lemma {:induction false} InsideCorrect(host: Host, s: Stmt, k: Jump, jumps: Jumps, n: nat, env: Env, temps: Temps, st: State)
    requires AcceptedOne(s, k, jumps, n) && IsCompound(s) && Inside(s, k, jumps, n).Emitted?
    ensures Run(host, Inside(s, k, jumps, n).code, env, temps, st) == Follow(host, Exec(host, s, temps, st), k, jumps, env, temps)
    decreases st.gas, Size(s), 7
  {
    match s
    case Block(list) => ListCorrect(host, list, k, jumps, n, env, temps, st);
    case If(_, _, _, _, _) => IfInside(host, s, k, jumps, n, env, temps, st);
    case Switch(_, _, _) => SwitchInside(host, s, k, jumps, n, env, temps, st);
    case For(_, _, _, _) => ForCorrect(host, s, k, jumps, n, env, temps, st);
    case Range(_, _, _, _) => RangeCorrect(host, s, k, jumps, n, env, temps, st);
  }

  lemma {:induction false} IfInside(host: Host, s: Stmt, k: Jump, jumps: Jumps, n: nat, env: Env, temps: Temps, st: State)
    requires AcceptedOne(s, k, jumps, n) && s.If? && Inside(s, k, jumps, n).Emitted?
    ensures Run(host, Inside(s, k, jumps, n).code, env, temps, st) == Follow(host, Exec(host, s, temps, st), k, jumps, env, temps)
    decreases st.gas, Size(s), 6
  {
    if s.init != [] && (NeedsAny(s.init) || AwaitsIn(s.cond)) {
      SplitCorrect(host, s, If([], s.cond, s.thn, s.elseKind, s.els), k, jumps, n, env, temps, st);
    } else {
      IfCorrect(host, s, k, jumps, n, env, temps, st);
    }
  }

  lemma {:induction false} SwitchInside(host: Host, s: Stmt, k: Jump, jumps: Jumps, n: nat, env: Env, temps: Temps, st: State)
    requires AcceptedOne(s, k, jumps, n) && s.Switch? && Inside(s, k, jumps, n).Emitted?
    ensures Run(host, Inside(s, k, jumps, n).code, env, temps, st) == Follow(host, Exec(host, s, temps, st), k, jumps, env, temps)
    decreases st.gas, Size(s), 6
  {
    if s.init != [] && (NeedsAny(s.init) || AwaitsIn(s.tag)) {
      SplitCorrect(host, s, Switch([], s.tag, s.clauses), k, jumps, n, env, temps, st);
    } else {
      SwitchCorrect(host, s, k, jumps, n, env, temps, st);
    }
  }

  /** Splitting a header's init off into the list ahead of the statement changes nothing. */
  lemma {:induction false} SplitCorrect(host: Host, s: Stmt, bare: Stmt, k: Jump, jumps: Jumps, n: nat, env: Env, temps: Temps, st: State)
    requires AcceptedOne(s, k, jumps, n) && (s.If? || s.Switch?) && s.init != []
    requires s.If? ==> bare == If([], s.cond, s.thn, s.elseKind, s.els)
    requires s.Switch? ==> bare == Switch([], s.tag, s.clauses)
    requires List(s.init + [bare], k, jumps, n).Emitted?
    ensures Run(host, Scope(List(s.init + [bare], k, jumps, n).code), env, temps, st) == Follow(host, Exec(host, s, temps, st), k, jumps, env, temps)
    decreases st.gas, Size(s), 2
  {
    var list := s.init + [bare];
    SplitSize(s.init, s);
    SplitAccepted(s, bare, k, jumps, n);
    SplitRuns(host, s, bare, temps, st);
    ListCorrect(host, list, k, jumps, n, env, temps, st);
  }

  lemma {:induction false} SplitAccepted(s: Stmt, bare: Stmt, k: Jump, jumps: Jumps, n: nat)
    requires AcceptedOne(s, k, jumps, n) && (s.If? || s.Switch?) && s.init != []
    requires s.If? ==> bare == If([], s.cond, s.thn, s.elseKind, s.els)
    requires s.Switch? ==> bare == Switch([], s.tag, s.clauses)
    ensures Accepted(s.init + [bare], k, jumps, n)
  {
    var list := s.init + [bare];
    assert Simple(s.init, 0);
    assert list[0] == s.init[0] && list[1..] == [bare] && [bare][1..] == [];
    if s.If? {
      assert Plain(bare, 0) && Sound(bare);
    } else {
      assert Plain(bare, 0) && Sound(bare);
    }
    assert AllPlainStmts([bare], 0) && AllSound([bare]);
    assert !Breaks(s.init[0]) && !Continues(s.init[0]);
    JumpsOfTwo(s.init[0], bare);
    assert list == [s.init[0], bare];
    assert Breaks(bare) == Breaks(s) && Continues(bare) == Continues(s);
    assert EndsList(list, false) == Ends(bare, false) == Ends(s, false);
  }

  lemma {:induction false} JumpsOfTwo(a: Stmt, b: Stmt)
    ensures BreaksAny([a, b]) == (Breaks(a) || Breaks(b))
    ensures ContinuesAny([a, b]) == (Continues(a) || Continues(b))
  {
    var two, one := [a, b], [b];
    assert two[1..] == one && one[1..] == [];
    assert !ContinuesAny(one[1..]) && !BreaksAny(one[1..]);
    assert ContinuesAny(one) == Continues(b);
    assert BreaksAny(one) == Breaks(b);
  }

  lemma {:induction false} SplitRuns(host: Host, s: Stmt, bare: Stmt, temps: Temps, st: State)
    requires (s.If? || s.Switch?) && Simple(s.init, 0) && s.init != []
    requires s.If? ==> bare == If([], s.cond, s.thn, s.elseKind, s.els)
    requires s.Switch? ==> bare == Switch([], s.tag, s.clauses)
    ensures ExecList(host, s.init + [bare], temps, st) == Exec(host, s, temps, st)
  {
    var list := s.init + [bare];
    assert list[0] == s.init[0] && list[1..] == [bare] && [bare][1..] == [] && s.init[1..] == [];
    var (ending, st1) := Exec(host, s.init[0], temps, st);
    assert ExecList(host, s.init, temps, st) == (ending, st1);
    assert ExecList(host, [], temps, st1) == (Normal, st1);
    BareRuns(host, s, bare, temps, st1);
  }

  lemma {:induction false} BareRuns(host: Host, s: Stmt, bare: Stmt, temps: Temps, st: State)
    requires s.If? || s.Switch?
    requires s.If? ==> bare == If([], s.cond, s.thn, s.elseKind, s.els)
    requires s.Switch? ==> bare == Switch([], s.tag, s.clauses)
    ensures ExecList(host, [bare], temps, st) == Exec(host, bare, temps, st)
  {
  }

  // Headers -------------------------------------------------------------------------------

  /** A header's steps may be awaited first, where they stand alone or there are none. */
  lemma {:induction false} HeaderHoisted(host: Host, init: seq<Stmt>, e: Expr, n: nat, temps: Temps, st: State)
    requires TempsBelow(e, 0) && Scan(e, false).0 && (init != [] ==> !AwaitsIn(e))
    ensures var h := Hoist(e, n);
            var (t, st1) := RunSteps(host, h.steps, temps, st);
            && RunHeader(host, init, e, temps, st) == (if t.Halted? then (Halted(t.halt), st1) else RunHeader(host, init, h.e, t.value, st1))
            && (t.Got? ==> AgreeBelow(temps, t.value, n))
  {
    TempsBelowMore(e, 0, n);
    if init == [] {
      HoistShape(e, n, false);
      StepsBindFrom(host, Hoist(e, n).steps, n, Hoist(e, n).next, temps, st);
      EvaluateHoisted(host, e, n, temps, st);
    } else {
      NothingToHoist(e, n);
    }
  }

  /** What an if statement does after its header. */
  function RunBranch(host: Host, s: Stmt, v: Result<Datum>, temps: Temps, st: State): (Ending, State)
    requires s.If?
  {
    if v.Halted? then (Ended(v.halt), st)
    else ExecList(host, if v.value == Truth(true) then s.thn else s.els, temps, st)
  }

  lemma {:induction false} IfExecs(host: Host, s: Stmt, temps: Temps, st: State)
    requires s.If? && Simple(s.init, 0)
    ensures var (v, st1) := RunHeader(host, s.init, s.cond, temps, st);
            Exec(host, s, temps, st) == RunBranch(host, s, v, temps, st1)
  {
    NeverLeaves(host, s.init, 0, temps, st);
  }

  lemma {:induction false} IfRuns(host: Host, init: seq<Stmt>, cond: Expr, thn: Code, els: Code, env: Env, temps: Temps, st: State)
    requires Simple(init, 0)
    ensures var (v, st1) := RunHeader(host, init, cond, temps, st);
            Run(host, BranchIf(init, cond, thn, els), env, temps, st)
             == if v.Halted? then ReportOf(HaltFinal(v.halt), st1) else Run(host, if v.value == Truth(true) then thn else els, env, temps, st1)
  {
    NeverLeaves(host, init, 0, temps, st);
  }

  lemma {:induction false} IfCorrect(host: Host, s: Stmt, k: Jump, jumps: Jumps, n: nat, env: Env, temps: Temps, st: State)
    requires AcceptedOne(s, k, jumps, n) && s.If? && (s.init != [] ==> !AwaitsIn(s.cond)) && Scan(s.cond, false).0
    requires IfStatement(s, Hoist(s.cond, n).e, k, jumps, Hoist(s.cond, n).next).Emitted?
    ensures var h := Hoist(s.cond, n);
            Run(host, Chain(h.steps, IfStatement(s, h.e, k, jumps, h.next).code), env, temps, st)
             == Follow(host, Exec(host, s, temps, st), k, jumps, env, temps)
    decreases st.gas, Size(s), 2
  {
    var h := Hoist(s.cond, n);
    ChainRuns(host, h.steps, IfStatement(s, h.e, k, jumps, h.next).code, env, temps, st);
    HeaderHoisted(host, s.init, s.cond, n, temps, st);
    IfExecs(host, s, temps, st);
    var (t, st1) := RunSteps(host, h.steps, temps, st);
    if t.Got? {
      BranchesCorrect(host, s, k, jumps, n, env, temps, t.value, st1);
    }
  }

  lemma {:induction false} BranchesCorrect(host: Host, s: Stmt, k: Jump, jumps: Jumps, n: nat, env: Env, temps: Temps, t: Temps, st: State)
    requires AcceptedOne(s, k, jumps, n) && s.If? && AgreeBelow(temps, t, n)
    requires IfStatement(s, Hoist(s.cond, n).e, k, jumps, Hoist(s.cond, n).next).Emitted?
    ensures var h := Hoist(s.cond, n);
            var (v, st1) := RunHeader(host, s.init, h.e, t, st);
            Run(host, IfStatement(s, h.e, k, jumps, h.next).code, env, t, st)
             == Follow(host, RunBranch(host, s, v, temps, st1), k, jumps, env, temps)
    decreases st.gas, Size(s), 1
  {
    var h := Hoist(s.cond, n);
    var code := IfStatement(s, h.e, k, jumps, h.next).code;
    IfRuns(host, s.init, h.e, code.thn, code.els, env, t, st);
    var (v, st1) := RunHeader(host, s.init, h.e, t, st);
    if v.Got? {
      if v.value == Truth(true) {
        ThenCorrect(host, s, k, jumps, n, env, temps, t, st1);
      } else {
        ElseCorrect(host, s, k, jumps, n, env, temps, t, st1);
      }
    }
  }

  lemma {:induction false} ThenCorrect(host: Host, s: Stmt, k: Jump, jumps: Jumps, n: nat, env: Env, temps: Temps, t: Temps, st: State)
    requires AcceptedOne(s, k, jumps, n) && s.If? && AgreeBelow(temps, t, n)
    requires IfStatement(s, Hoist(s.cond, n).e, k, jumps, Hoist(s.cond, n).next).Emitted?
    ensures var code := IfStatement(s, Hoist(s.cond, n).e, k, jumps, Hoist(s.cond, n).next).code;
            Run(host, code.thn, env, t, st) == Follow(host, ExecList(host, s.thn, temps, st), k, jumps, env, temps)
    decreases st.gas, Size(s), 0
  {
    ArmCorrect(host, s.thn, k, jumps, n, Hoist(s.cond, n).next, env, temps, t, st);
  }

  lemma {:induction false} ElseCorrect(host: Host, s: Stmt, k: Jump, jumps: Jumps, n: nat, env: Env, temps: Temps, t: Temps, st: State)
    requires AcceptedOne(s, k, jumps, n) && s.If? && AgreeBelow(temps, t, n)
    requires IfStatement(s, Hoist(s.cond, n).e, k, jumps, Hoist(s.cond, n).next).Emitted?
    ensures var code := IfStatement(s, Hoist(s.cond, n).e, k, jumps, Hoist(s.cond, n).next).code;
            Run(host, code.els, env, t, st) == Follow(host, ExecList(host, s.els, temps, st), k, jumps, env, temps)
    decreases st.gas, Size(s), 0
  {
    var next := Hoist(s.cond, n).next;
    if s.elseKind == NoElse {
      GoLeaps(host, k, env, t, st);
      LeapIgnoresTemps(host, k, n, env, temps, t, st);
    } else {
      ArmCorrect(host, s.els, k, jumps, n, List(s.thn, k, jumps, next).next, env, temps, t, st);
    }
  }

  // Switches ------------------------------------------------------------------------------

  function RunBodies(host: Host, code: Code, v: Result<Datum>, env: Env, temps: Temps, st: State): Report
    requires code.BranchSwitch?
  {
    if v.Halted? then ReportOf(HaltFinal(v.halt), st)
    else
      var (chosen, st1) := Choose(host, code.clauses, 0, v.value, temps, st);
      if chosen.Halted? then ReportOf(HaltFinal(chosen.halt), st1)
      else if chosen.value < |code.bodies| then Run(host, code.bodies[chosen.value], env, temps, st1)
      else Run(host, code.after, env, temps, st1)
  }

  lemma {:induction false} SwitchRuns(host: Host, code: Code, env: Env, temps: Temps, st: State)
    requires code.BranchSwitch? && Simple(code.init, 0)
    ensures var (v, st1) := RunHeader(host, code.init, code.tag, temps, st);
            Run(host, code, env, temps, st) == RunBodies(host, code, v, env, temps, st1)
  {
    NeverLeaves(host, code.init, 0, temps, st);
  }

  lemma {:induction false} SwitchCorrect(host: Host, s: Stmt, k: Jump, jumps: Jumps, n: nat, env: Env, temps: Temps, st: State)
    requires AcceptedOne(s, k, jumps, n) && s.Switch? && (s.init != [] ==> !AwaitsIn(s.tag)) && Scan(s.tag, false).0
    requires SwitchStatement(s, Hoist(s.tag, n).e, k, jumps, Hoist(s.tag, n).next).Emitted?
    ensures var h := Hoist(s.tag, n);
            Run(host, Chain(h.steps, SwitchStatement(s, h.e, k, jumps, h.next).code), env, temps, st)
             == Follow(host, Exec(host, s, temps, st), k, jumps, env, temps)
    decreases st.gas, Size(s), 4
  {
    var h := Hoist(s.tag, n);
    var code := SwitchStatement(s, h.e, k, jumps, h.next).code;
    ChainRuns(host, h.steps, code, env, temps, st);
    HeaderHoisted(host, s.init, s.tag, n, temps, st);
    SwitchExecs(host, s, 0, temps, st);
    var (t, st1) := RunSteps(host, h.steps, temps, st);
    if t.Got? {
      HeaderCorrect(host, s, k, jumps, n, env, temps, t.value, st1);
    }
  }

  lemma {:induction false} HeaderCorrect(host: Host, s: Stmt, k: Jump, jumps: Jumps, n: nat, env: Env, temps: Temps, t: Temps, st: State)
    requires AcceptedOne(s, k, jumps, n) && s.Switch? && AgreeBelow(temps, t, n)
    requires SwitchStatement(s, Hoist(s.tag, n).e, k, jumps, Hoist(s.tag, n).next).Emitted?
    ensures var h := Hoist(s.tag, n);
            var (v, st1) := RunHeader(host, s.init, h.e, t, st);
            Run(host, SwitchStatement(s, h.e, k, jumps, h.next).code, env, t, st)
             == Follow(host, RunClauses(host, s.clauses, v, temps, st1), k, jumps, env, temps)
    decreases st.gas, Size(s), 3
  {
    var h := Hoist(s.tag, n);
    SwitchRuns(host, SwitchStatement(s, h.e, k, jumps, h.next).code, env, t, st);
    var (v, st1) := RunHeader(host, s.init, h.e, t, st);
    if v.Got? {
      ClausesCorrect(host, s, v.value, k, jumps, n, env, temps, t, st1);
    }
  }

  /** Each clause continues where the switch does, and so does a break in it. */
  lemma {:induction false} ClausesCorrect(host: Host, s: Stmt, tag: Datum, k: Jump, jumps: Jumps, n: nat, env: Env, temps: Temps, t: Temps, st: State)
    requires AcceptedOne(s, k, jumps, n) && s.Switch? && AgreeBelow(temps, t, n)
    requires SwitchStatement(s, Hoist(s.tag, n).e, k, jumps, Hoist(s.tag, n).next).Emitted?
    ensures var code := SwitchStatement(s, Hoist(s.tag, n).e, k, jumps, Hoist(s.tag, n).next).code;
            RunBodies(host, code, Got(tag), env, t, st) == Follow(host, RunClauses(host, s.clauses, Got(tag), temps, st), k, jumps, env, temps)
    decreases st.gas, Size(s), 2
  {
    ChooseIgnoresTemps(host, s.clauses, 0, tag, 0, temps, t, st);
    ChosenUnlessNone(host, s.clauses, 0, tag, t, st);
    var (chosen, st1) := Choose(host, s.clauses, 0, tag, t, st);
    if chosen.Got? {
      ChosenCorrect(host, s, chosen.value, k, jumps, n, env, temps, t, st1);
    }
  }

  /** The clause a switch has chosen, or where it ends without one. */
  function RunChosen(host: Host, clauses: seq<Clause>, i: nat, temps: Temps, st: State): (Ending, State)
    requires i <= |clauses|
  {
    if i == |clauses| then (Normal, st)
    else
      var (inside, st1) := ExecList(host, clauses[i].body, temps, st);
      (if inside.Broke? then Normal else inside, st1)
  }

  lemma {:induction false} ChosenCorrect(host: Host, s: Stmt, i: nat, k: Jump, jumps: Jumps, n: nat, env: Env, temps: Temps, t: Temps, st: State)
    requires AcceptedOne(s, k, jumps, n) && s.Switch? && AgreeBelow(temps, t, n) && i <= |s.clauses|
    requires i == |s.clauses| ==> !HasDefault(s.clauses)
    requires SwitchStatement(s, Hoist(s.tag, n).e, k, jumps, Hoist(s.tag, n).next).Emitted?
    ensures var code := SwitchStatement(s, Hoist(s.tag, n).e, k, jumps, Hoist(s.tag, n).next).code;
            Run(host, if i < |code.bodies| then code.bodies[i] else code.after, env, t, st)
             == Follow(host, RunChosen(host, s.clauses, i, temps, st), k, jumps, env, temps)
    decreases st.gas, Size(s), 1
  {
    if i == |s.clauses| {
      GoLeaps(host, k, env, t, st);
      LeapIgnoresTemps(host, k, n, env, temps, t, st);
    } else {
      ClauseCorrect(host, s, i, k, jumps, n, env, temps, t, st);
    }
  }

  lemma {:induction false} ClauseCorrect(host: Host, s: Stmt, i: nat, k: Jump, jumps: Jumps, n: nat, env: Env, temps: Temps, t: Temps, st: State)
    requires AcceptedOne(s, k, jumps, n) && s.Switch? && AgreeBelow(temps, t, n) && i < |s.clauses|
    requires ClauseBodies(s.clauses, k, Jumps(k, jumps.cont), Hoist(s.tag, n).next).Bodies?
    ensures var bodies := ClauseBodies(s.clauses, k, Jumps(k, jumps.cont), Hoist(s.tag, n).next);
            Run(host, bodies.codes[i], env, t, st)
             == Follow(host, ExecList(host, s.clauses[i].body, temps, st), k, Jumps(k, jumps.cont), env, temps)
    decreases st.gas, Size(s), 0
  {
    var body := s.clauses[i].body;
    var inner := Jumps(k, jumps.cont);
    PlainClause(s.clauses, 0, i);
    SoundClause(s.clauses, i);
    ClauseFacts(s.clauses, false, i);
    var at := ClauseEmission(s.clauses, k, inner, Hoist(s.tag, n).next, i);
    ArmCorrect(host, body, k, inner, n, at, env, temps, t, st);
  }

  lemma {:induction false} ClauseEmission(clauses: seq<Clause>, k: Jump, jumps: Jumps, n: nat, i: nat) returns (at: nat)
    requires i < |clauses| && ClauseBodies(clauses, k, jumps, n).Bodies?
    ensures at >= n && var emission := List(clauses[i].body, k, jumps, at); emission.Emitted? && emission.code == ClauseBodies(clauses, k, jumps, n).codes[i]
  {
    if i == 0 {
      at := n;
    } else {
      at := ClauseEmission(clauses[1..], k, jumps, List(clauses[0].body, k, jumps, n).next, i - 1);
    }
  }

  // Loops ---------------------------------------------------------------------------------

  /** The emitted loop: its init, then the first call of its iteration function. */
  lemma {:induction false} ForRuns(host: Host, code: Code, env: Env, temps: Temps, st: State)
    requires code.LoopFor?
    ensures var (ending, st1) := ExecList(host, code.init, temps, st);
            Run(host, code, env, temps, st)
             == if ending.Normal? then Enter(host, code, env, temps, Renewed(st1, code.vars)) else Conclude(host, ending, env, temps, st1)
  {
  }

  /** The call of a loop's advance function: the post statement on fresh copies, then the next
      call of the iteration function, on copies again. */
  lemma {:induction false} AdvanceRuns(host: Host, code: Code, env: Env, temps: Temps, st: State)
    requires code.LoopFor?
    ensures var (after, st1) := ExecPost(host, code.post, temps, Renewed(st, code.vars));
            Leap(host, ToNext(code.loop, code.vars), InLoop(code, temps, env), temps, st)
             == if after.Ended? then ReportOf(HaltFinal(after.halt), st1)
                else if st1.gas == 0 then ReportOf(Exhausted, st1)
                else Enter(host, code, env, temps, Renewed(st1.(gas := st1.gas - 1), code.vars))
  {
    PassingThemselves(st, code.vars);
  }

  /** Called with its own variables a function gets fresh copies of them. */
  lemma {:induction false} PassingThemselves(st: State, xs: seq<Name>)
    ensures Passed(st, xs, xs) == Renewed(st, xs)
    decreases |xs|
  {
    if xs != [] {
      var st1 := st.Declare(xs[0], st.Read(xs[0]));
      PassingThemselves(st1, xs[1..]);
      ReadsAreTheSame(xs[1..], st, st1);
      assert ReadAll(xs, st)[1..] == ReadAll(xs[1..], st);
    }
  }

  lemma {:induction false} ReadsAreTheSame(xs: seq<Name>, st: State, st1: State)
    requires forall x :: st.Read(x) == st1.Read(x)
    ensures ReadAll(xs, st) == ReadAll(xs, st1)
  {
    if xs != [] {
      ReadsAreTheSame(xs[1..], st, st1);
    }
  }

  lemma {:induction false} ForCorrect(host: Host, s: Stmt, k: Jump, jumps: Jumps, n: nat, env: Env, temps: Temps, st: State)
    requires AcceptedOne(s, k, jumps, n) && s.For? && ForLoop(s, k, n).Emitted?
    ensures Run(host, ForLoop(s, k, n).code, env, temps, st) == Follow(host, Exec(host, s, temps, st), k, jumps, env, temps)
    decreases st.gas, Size(s), 3
  {
    var (ending, st1) := ExecList(host, s.init, temps, st);
    NeverLeaves(host, s.init, 0, temps, st);
    ForRuns(host, ForLoop(s, k, n).code, env, temps, st);
    if ending.Normal? {
      InitOwns(host, s.init, 0, temps, st);
      RenewOwned(st1, LoopVars(s.init));
      IterationCorrect(host, s, k, jumps, n, env, temps, st1);
    }
  }

  /** One call of the iteration function is one iteration and all that follow it. */
  lemma {:induction false} IterationCorrect(host: Host, s: Stmt, k: Jump, jumps: Jumps, n: nat, env: Env, temps: Temps, st: State)
    requires AcceptedOne(s, k, jumps, n) && s.For? && ForLoop(s, k, n).Emitted?
    ensures Enter(host, ForLoop(s, k, n).code, env, temps, st) == Follow(host, Iterate(host, s, temps, st), k, jumps, env, temps)
    decreases st.gas, Size(s), 2
  {
    var code := ForLoop(s, k, n).code;
    var within := InLoop(code, temps, env);
    var cont := ToNext(n, code.vars);
    var (holds, st1) := Guard(host, s.when, temps, st);
    if holds.Got? && !holds.value {
      GoLeaps(host, k, within, temps, st1);
      LeapSkips(host, k, n, within, temps, st1);
    } else if holds.Got? {
      ListCorrect(host, s.body, cont, Jumps(k, cont), n + 1, within, temps, st1);
      var (ending, st2) := ExecList(host, s.body, temps, st1);
      ExecListFlows(host, s.body, 0, temps, st1);
      AdvanceCorrect(host, s, ending, k, jumps, n, env, temps, st2);
    }
  }

  /** Running off the body and continuing call the advance function, a break goes to what follows
      the loop. The copies it passes as parameters are of variables nothing else can reach. */
  lemma {:induction false} AdvanceCorrect(host: Host, s: Stmt, ending: Ending, k: Jump, jumps: Jumps, n: nat, env: Env, temps: Temps, st: State)
    requires AcceptedOne(s, k, jumps, n) && s.For? && ForLoop(s, k, n).Emitted? && !ending.Jumped?
    ensures var code := ForLoop(s, k, n).code;
            var cont := ToNext(n, code.vars);
            Follow(host, (ending, st), cont, Jumps(k, cont), InLoop(code, temps, env), temps)
             == Follow(host, NextIteration(host, s, ending, temps, st), k, jumps, env, temps)
    decreases st.gas, Size(s), 1
  {
    var code := ForLoop(s, k, n).code;
    var within := InLoop(code, temps, env);
    if ending.Broke? {
      LeapSkips(host, k, n, within, temps, st);
    } else if ending.Normal? || ending.Continued? {
      NextCorrect(host, s, k, jumps, n, env, temps, st);
      NextUnfolds(host, s, Normal, temps, st);
      NextUnfolds(host, s, Continued, temps, st);
    }
  }

  lemma {:induction false} NextCorrect(host: Host, s: Stmt, k: Jump, jumps: Jumps, n: nat, env: Env, temps: Temps, st: State)
    requires AcceptedOne(s, k, jumps, n) && s.For? && ForLoop(s, k, n).Emitted?
    ensures var code := ForLoop(s, k, n).code;
            Leap(host, ToNext(n, code.vars), InLoop(code, temps, env), temps, st)
             == Follow(host, NextIteration(host, s, Continued, temps, st), k, jumps, env, temps)
    decreases st.gas, Size(s), 0
  {
    var code := ForLoop(s, k, n).code;
    var renewed := Renewed(st, code.vars);
    AdvanceRuns(host, code, env, temps, st);
    NextUnfolds(host, s, Continued, temps, st);
    RenewedOwns(st, code.vars, []);
    PostKeepsOwned(host, s.post, code.vars, temps, renewed);
    var (after, st1) := ExecPost(host, s.post, temps, renewed);
    if after.Normal? && st1.gas > 0 {
      var next := st1.(gas := st1.gas - 1);
      RenewOwned(next, code.vars);
      IterationCorrect(host, s, k, jumps, n, env, temps, next);
    }
  }

  /** The loop a range statement is emitted as, less the steps of what it ranges over. */
  function RangeCode(s: Stmt, after: Jump, n: nat): (code: Code)
    requires s.Range? && RangeLoop(s, after, n).Emitted?
    ensures code.LoopRange? && RangeLoop(s, after, n).code == Chain(Hoist(s.over, n).steps, code)
  {
    var h := Hoist(s.over, n);
    var cont := ToNextIndex(h.next + 2, h.next + 1);
    LoopRange(h.next + 2, s.kind, h.e, h.next, h.next + 1, s.bound, List(s.body, cont, Jumps(after, cont), h.next + 3).code, Go(after))
  }

  /** What a range statement does after evaluating what it ranges over. */
  function RunRange(host: Host, s: Stmt, v: Result<Datum>, temps: Temps, st: State): (Ending, State)
    requires s.Range?
  {
    if v.Halted? then (Ended(v.halt), st) else RangeFrom(host, s, v.value, 0, temps, st)
  }

  lemma {:induction false} RangeCorrect(host: Host, s: Stmt, k: Jump, jumps: Jumps, n: nat, env: Env, temps: Temps, st: State)
    requires AcceptedOne(s, k, jumps, n) && s.Range? && RangeLoop(s, k, n).Emitted?
    ensures Run(host, RangeLoop(s, k, n).code, env, temps, st) == Follow(host, Exec(host, s, temps, st), k, jumps, env, temps)
    decreases st.gas, Size(s), 3
  {
    var h := Hoist(s.over, n);
    var code := RangeCode(s, k, n);
    ChainRuns(host, h.steps, code, env, temps, st);
    HeaderHoisted(host, [], s.over, n, temps, st);
    RangeExecs(host, s, temps, st);
    var (t, st1) := RunSteps(host, h.steps, temps, st);
    if t.Got? {
      ElementsCorrect(host, s, k, jumps, n, env, temps, t.value, st1);
    }
  }

  lemma {:induction false} RangeExecs(host: Host, s: Stmt, temps: Temps, st: State)
    requires s.Range?
    ensures var (v, st1) := RunHeader(host, [], s.over, temps, st); Exec(host, s, temps, st) == RunRange(host, s, v, temps, st1)
  {
  }

  lemma {:induction false} RangeRuns(host: Host, code: Code, env: Env, temps: Temps, st: State)
    requires code.LoopRange?
    ensures var (v, st1) := RunHeader(host, [], code.over, temps, st);
            Run(host, code, env, temps, st)
             == if v.Halted? then ReportOf(HaltFinal(v.halt), st1)
                else Enter(host, code, env, temps[code.held := v.value][code.index := Number(0)], st1)
  {
  }

  lemma {:induction false} ElementsCorrect(host: Host, s: Stmt, k: Jump, jumps: Jumps, n: nat, env: Env, temps: Temps, t: Temps, st: State)
    requires AcceptedOne(s, k, jumps, n) && s.Range? && RangeLoop(s, k, n).Emitted? && AgreeBelow(temps, t, n)
    ensures var code := RangeCode(s, k, n);
            var (v, st1) := RunHeader(host, [], code.over, t, st);
            Run(host, code, env, t, st) == Follow(host, RunRange(host, s, v, temps, st1), k, jumps, env, temps)
    decreases st.gas, Size(s), 2
  {
    var code := RangeCode(s, k, n);
    RangeRuns(host, code, env, t, st);
    var (v, st1) := RunHeader(host, [], code.over, t, st);
    if v.Got? {
      ElementCorrect(host, s, v.value, 0, k, jumps, n, env, temps, t[code.held := v.value][code.index := Number(0)], st1);
    }
  }

  lemma {:induction false} ElementCorrect(host: Host, s: Stmt, over: Datum, index: int, k: Jump, jumps: Jumps, n: nat, env: Env, temps: Temps, u: Temps, st: State)
    requires AcceptedOne(s, k, jumps, n) && s.Range? && RangeLoop(s, k, n).Emitted?
    requires var code := RangeCode(s, k, n); HeldIn(u, code.held) == over && IndexIn(u, code.index) == index && AgreeBelow(temps, u, n)
    ensures Enter(host, RangeCode(s, k, n), env, u, st) == Follow(host, RangeFrom(host, s, over, index, temps, st), k, jumps, env, temps)
    decreases st.gas, Size(s), 1
  {
    var code := RangeCode(s, k, n);
    var within := InLoop(code, u, env);
    var cont := ToNextIndex(code.loop, code.index);
    if index >= LoopLimit(host, s.kind, over) {
      GoLeaps(host, k, within, u, st);
      LeapSkips(host, k, n, within, u, st);
      LeapIgnoresTemps(host, k, n, env, temps, u, st);
    } else {
      var st0 := Iteration(host, s.kind, s.bound, over, index, st);
      ListCorrect(host, s.body, cont, Jumps(k, cont), code.loop + 1, within, u, st0);
      ExecListIgnoresTemps(host, s.body, 0, temps, u, st0);
      ExecListFlows(host, s.body, 0, u, st0);
      var (ending, st1) := ExecList(host, s.body, u, st0);
      NextElementCorrect(host, s, over, index, ending, k, jumps, n, env, temps, u, st1);
    }
  }

  lemma {:induction false} NextElementCorrect(host: Host, s: Stmt, over: Datum, index: int, ending: Ending, k: Jump, jumps: Jumps, n: nat, env: Env, temps: Temps, u: Temps, st: State)
    requires AcceptedOne(s, k, jumps, n) && s.Range? && RangeLoop(s, k, n).Emitted? && !ending.Jumped?
    requires var code := RangeCode(s, k, n); HeldIn(u, code.held) == over && IndexIn(u, code.index) == index && AgreeBelow(temps, u, n)
    ensures var code := RangeCode(s, k, n);
            var cont := ToNextIndex(code.loop, code.index);
            Follow(host, (ending, st), cont, Jumps(k, cont), InLoop(code, u, env), u)
             == Follow(host, NextElement(host, s, over, index, ending, temps, st), k, jumps, env, temps)
    decreases st.gas, Size(s), 0
  {
    var code := RangeCode(s, k, n);
    var within := InLoop(code, u, env);
    if ending.Broke? {
      LeapSkips(host, k, n, within, u, st);
      LeapIgnoresTemps(host, k, n, env, temps, u, st);
    } else if (ending.Normal? || ending.Continued?) && st.gas > 0 {
      var next := u[code.index := Number(index + 1)];
      ElementCorrect(host, s, over, index + 1, k, jumps, n, env, temps, next, st.(gas := st.gas - 1));
    }
  }

  // The theorem ---------------------------------------------------------------------------

  /** The code emitted for a body, its names taken as they are meant, does what the body does. */
  lemma {:induction false} EmittedMeansTheBody(host: Host, body: seq<Stmt>, st: State)
    requires Body(body).Emitted?
    requires AllPlainStmts(body, 0) && AllSound(body)
    requires EndsList(body, false) && !BreaksAny(body) && !ContinuesAny(body)
    ensures RunRewritten(host, Body(body).code, st) == RunGenBody(host, body, st)
  {
    ListCorrect(host, body, Nowhere, NO_JUMPS, 0, Top, map[], st);
    ExecListFlows(host, body, 0, map[], st);
  }

  /** Interpreting the rewrite of a body, read as Go's compiler reads it, does exactly what running
      the body does: the same end, the same store, the same awaits and calls in the same order, and
      as many loop iterations. */
  lemma {:induction false} RewritePreservesMeaning(host: Host, body: seq<Stmt>, st: State)
    requires Body(body).Emitted?
    requires AllPlainStmts(body, 0) && AllSound(body) && Resolved(body) && Unshadowed(body)
    requires EndsList(body, false) && !BreaksAny(body) && !ContinuesAny(body)
    ensures BodyCompiles(body)
    ensures RunRewritten(host, ReadBody(body), st) == RunGenBody(host, body, st)
  {
    UnshadowedReadsAsMeant(body);
    EmittedMeansTheBody(host, body, st);
  }
}
