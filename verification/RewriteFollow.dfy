/** Where emitted code goes on: jumps out of it, hoisted statements in it, and continuations that
    nothing in it refers to. */
module RewriteFollow {
  import opened Direct
  import opened Rewrite
  import opened RewriteHoist
  import opened RewriteSpell
  import opened RewriteFlow

  // Following a jump ----------------------------------------------------------------------

  /** Where code whose statements end this way goes on: falling off the end at `k`, a break and
      a continue at their targets, anything else out of the body. */
  function Follow(host: Host, r: (Ending, State), k: Jump, jumps: Jumps, env: Env, temps: Temps): Report {
    match r.0
    case Normal => Leap(host, k, env, temps, r.1)
    case Broke => Leap(host, jumps.brk, env, temps, r.1)
    case Continued => Leap(host, jumps.cont, env, temps, r.1)
    case _ => Conclude(host, r.0, env, temps, r.1)
  }

  predicate JumpBelow(j: Jump, n: nat) {
    match j
    case Nowhere => true
    case ToContinuation(id) => id < n
    case ToNext(loop, _) => loop < n
    case ToNextIndex(loop, index) => loop < n && index < n
  }

  predicate Below(k: Jump, jumps: Jumps, n: nat) {
    JumpBelow(k, n) && JumpBelow(jumps.brk, n) && JumpBelow(jumps.cont, n)
  }

  lemma {:induction false} LeapIgnoresTemps(host: Host, j: Jump, n: nat, env: Env, a: Temps, b: Temps, st: State)
    requires JumpBelow(j, n) && AgreeBelow(a, b, n)
    ensures Leap(host, j, env, a, st) == Leap(host, j, env, b, st)
    decreases env
  {
    match env
    case WithContinuation(_, _, _, up) => LeapIgnoresTemps(host, j, n, up, a, b, st);
    case InLoop(_, _, up) => LeapIgnoresTemps(host, j, n, up, a, b, st);
    case Top =>
  }

  lemma {:induction false} NowhereIsNonsense(host: Host, env: Env, temps: Temps, st: State)
    ensures Leap(host, Nowhere, env, temps, st) == ReportOf(Nonsense, st)
    decreases env
  {
    match env
    case WithContinuation(_, _, _, up) => NowhereIsNonsense(host, up, temps, st);
    case InLoop(_, _, up) => NowhereIsNonsense(host, up, temps, st);
    case Top =>
  }

  lemma GoLeaps(host: Host, k: Jump, env: Env, temps: Temps, st: State)
    ensures Run(host, Go(k), env, temps, st) == Leap(host, k, env, temps, st)
  {
  }

  /** Later awaited names change nothing about where code goes on. */
  lemma FollowIgnoresTemps(host: Host, r: (Ending, State), k: Jump, jumps: Jumps, n: nat, env: Env, a: Temps, b: Temps)
    requires Below(k, jumps, n) && AgreeBelow(a, b, n) && !r.0.Jumped?
    ensures Follow(host, r, k, jumps, env, a) == Follow(host, r, k, jumps, env, b)
  {
    LeapIgnoresTemps(host, k, n, env, a, b, r.1);
    LeapIgnoresTemps(host, jumps.brk, n, env, a, b, r.1);
    LeapIgnoresTemps(host, jumps.cont, n, env, a, b, r.1);
  }

  /** Functions numbered from `n` on are not what earlier jumps go to. */
  lemma LeapSkips(host: Host, j: Jump, n: nat, inner: Env, temps: Temps, st: State)
    requires JumpBelow(j, n)
    requires inner.WithContinuation? ==> inner.id >= n
    requires inner.InLoop? ==> (inner.code.LoopFor? || inner.code.LoopRange?) && inner.code.loop >= n
    requires !inner.Top?
    ensures Leap(host, j, inner, temps, st) == Leap(host, j, inner.up, temps, st)
  {
  }

  /** Whether a list may be continued with `k` under `jumps`: where there is no continuation Go
      has checked that no path runs off, and where there is no target nothing breaks there. */
  predicate Fits(list: seq<Stmt>, k: Jump, jumps: Jumps) {
    && (k == Nowhere ==> EndsList(list, false))
    && (jumps.brk == Nowhere ==> !BreaksAny(list))
    && (jumps.cont == Nowhere ==> !ContinuesAny(list))
  }

  /** A spelled statement and the code after it. */
  lemma TextFollows(host: Host, text: Stmt, rest: Code, r: (Ending, State), tail: Report, k: Jump, jumps: Jumps, env: Env, temps: Temps, st: State)
    requires SameFrom(Exec(host, text, temps, st), Redirected(r, jumps))
    requires r.0.Broke? ==> jumps.brk != Nowhere
    requires r.0.Continued? ==> jumps.cont != Nowhere
    requires r.0.Normal? ==> Run(host, rest, env, temps, r.1) == tail
    ensures Run(host, Text(text, rest), env, temps, st)
         == if r.0.Normal? then tail else Follow(host, r, k, jumps, env, temps)
  {
  }

  // Hoisted statements --------------------------------------------------------------------

  lemma EvaluateHoisted(host: Host, e: Expr, n: nat, temps: Temps, st: State)
    requires TempsBelow(e, n) && Scan(e, false).0
    ensures var h := Hoist(e, n);
            var (t, st1) := RunSteps(host, h.steps, temps, st);
            Evaluate(host, e, temps, st) == if t.Halted? then (Halted(t.halt), st1) else Evaluate(host, h.e, t.value, st1)
  {
    var h := Hoist(e, n);
    HoistingAgrees(host, e, n, false, temps, st);
    HoistShape(e, n, false);
    var (t, st1) := RunSteps(host, h.steps, temps, st);
    if t.Got? {
      StepsBindFrom(host, h.steps, n, h.next, temps, st);
      ResolveIgnoresTemps(host, e, n, temps, temps, st);
      var (e', st2) := Resolve(host, e, temps, st);
      if e'.Got? {
        OperandIgnoresTemps(host, e'.value, n, temps, t.value, st2);
      }
    }
  }

  lemma EvaluateAllHoisted(host: Host, es: seq<Expr>, n: nat, temps: Temps, st: State)
    requires AllTempsBelow(es, n) && ScanAll(es, false).0
    ensures var h := HoistAll(es, n);
            var (t, st1) := RunSteps(host, h.steps, temps, st);
            EvaluateAll(host, es, temps, st) == if t.Halted? then (Halted(t.halt), st1) else EvaluateAll(host, h.es, t.value, st1)
  {
    var h := HoistAll(es, n);
    HoistingAllAgrees(host, es, n, false, temps, st);
    HoistAllShape(es, n, false);
    var (t, st1) := RunSteps(host, h.steps, temps, st);
    if t.Got? {
      StepsBindFrom(host, h.steps, n, h.next, temps, st);
      ResolveAllIgnoresTemps(host, es, n, temps, temps, st);
      var (es', st2) := ResolveAll(host, es, temps, st);
      if es'.Got? {
        OperandsIgnoreTemps(host, es'.value, n, temps, t.value, st2);
      }
    }
  }

  lemma HoistOne(e: Expr, n: nat)
    ensures HoistAll([e], n) == HoistedAll(Hoist(e, n).steps, [Hoist(e, n).e], Hoist(e, n).next)
    ensures ScanAll([e], false).0 == Scan(e, false).0
    ensures AllTempsBelow([e], n) == TempsBelow(e, n)
    ensures AwaitsInAny([e]) == AwaitsIn(e)
  {
  }

  /** Awaiting a simple statement's steps and then running it with their values is running it. */
  lemma SimpleHoisted(host: Host, s: Stmt, n: nat, temps: Temps, st: State)
    requires (IsPlain(s) || s.Return?) && Plain(s, 0) && ScanAll(OwnExprs(s), false).0
    ensures var h := HoistAll(OwnExprs(s), n);
            var (t, st1) := RunSteps(host, h.steps, temps, st);
            Exec(host, s, temps, st) == if t.Halted? then (Ended(t.halt), st1) else Exec(host, WithExprs(s, h.es), t.value, st1)
  {
    if s.Assign? {
      AllTempsBelowMore(s.es, 0, n);
      EvaluateAllHoisted(host, s.es, n, temps, st);
      SamePointers(host, s, n, temps, st);
    } else {
      var e := OwnExprs(s)[0];
      assert OwnExprs(s) == [e];
      TempsBelowMore(e, 0, n);
      HoistOne(e, n);
      EvaluateHoisted(host, e, n, temps, st);
    }
  }

  lemma SamePointers(host: Host, s: Stmt, n: nat, temps: Temps, st: State)
    requires s.Assign?
    ensures WithExprs(s, HoistAll(s.es, n).es).targets == s.targets
  {
  }

  lemma {:induction false} HoistKeepsApart(e: Expr, n: nat, names: seq<Name>)
    requires SpelledApart(e, names)
    ensures SpelledApart(Hoist(e, n).e, names)
    decreases e
  {
    match e
    case Prim(_, args) => HoistAllKeepsApart(args, n, names);
    case Call(_, args) => HoistAllKeepsApart(args, n, names);
    case AndAlso(l, r) => HoistKeepsApart(l, n, names); HoistKeepsApart(r, Hoist(l, n).next, names);
    case OrElse(l, r) => HoistKeepsApart(l, n, names); HoistKeepsApart(r, Hoist(l, n).next, names);
    case _ =>
  }

  lemma {:induction false} HoistAllKeepsApart(es: seq<Expr>, n: nat, names: seq<Name>)
    requires AllSpelledApart(es, names)
    ensures AllSpelledApart(HoistAll(es, n).es, names)
    decreases es
  {
    if es != [] {
      HoistKeepsApart(es[0], n, names);
      HoistAllKeepsApart(es[1..], Hoist(es[0], n).next, names);
      assert HoistAll(es, n).es[1..] == HoistAll(es[1..], Hoist(es[0], n).next).es;
    }
  }

  /** A hoisted statement is still one of Go's, with awaited names in it. */
  lemma HoistedPlain(s: Stmt, n: nat)
    requires (IsPlain(s) || s.Return?) && Plain(s, 0)
    ensures Plain(WithExprs(s, HoistAll(OwnExprs(s), n).es), HoistAll(OwnExprs(s), n).next)
  {
    var es := OwnExprs(s);
    var h := HoistAll(es, n);
    if s.Assign? {
      AllTempsBelowMore(es, 0, n);
      HoistAllShape(es, n, false);
      if Mixed(s.targets) {
        HoistAllKeepsApart(es, n, NewNames(s.targets));
      }
    } else {
      assert es == [es[0]];
      TempsBelowMore(es[0], 0, n);
      HoistOne(es[0], n);
      HoistShape(es[0], n, false);
    }
  }

  // Continuations nothing refers to -------------------------------------------------------

  /** `without` is `env` less one continuation that nothing below it refers to. */
  ghost predicate Lacks(env: Env, without: Env, id: nat) {
    match env
    case Top => false
    case WithContinuation(i, body, temps, up) =>
      || (i == id && up == without)
      || (&& without.WithContinuation? && without.id == i && without.body == body && without.temps == temps
          && !Mentions(body, id) && Lacks(up, without.up, id))
    case InLoop(code, temps, up) =>
      && without.InLoop? && without.code == code && without.temps == temps
      && !Mentions(code, id) && Lacks(up, without.up, id)
  }

  lemma {:induction false} JumpsMentioned(host: Host, s: Stmt, id: nat, temps: Temps, st: State)
    requires !StmtMentions(s, id)
    ensures Exec(host, s, temps, st).0 != Jumped(ToContinuation(id))
    decreases st.gas, Size(s), 2
  {
    match s
    case Block(list) => ListJumpsMentioned(host, list, id, temps, st);
    case Declaring(list) => ListJumpsMentioned(host, list, id, temps, st);
    case If(init, cond, thn, _, els) =>
      ListJumpsMentioned(host, init, id, temps, st);
      var (ending, st1) := ExecList(host, init, temps, st);
      var (holds, st2) := Guard(host, [cond], temps, st1);
      ListJumpsMentioned(host, thn, id, temps, st2);
      ListJumpsMentioned(host, els, id, temps, st2);
    case Switch(_, _, _) => SwitchJumpsMentioned(host, s, id, temps, st);
    case For(init, _, _, _) =>
      ListJumpsMentioned(host, init, id, temps, st);
      IterateJumpsMentioned(host, s, id, temps, ExecList(host, init, temps, st).1);
    case Range(_, over, _, _) =>
      var (v, st1) := Evaluate(host, over, temps, st);
      if v.Got? {
        RangeJumpsMentioned(host, s, v.value, 0, id, temps, st1);
      }
    case _ =>
  }

  lemma {:induction false} SwitchJumpsMentioned(host: Host, s: Stmt, id: nat, temps: Temps, st: State)
    requires s.Switch? && !StmtMentions(s, id)
    ensures Exec(host, s, temps, st).0 != Jumped(ToContinuation(id))
    decreases st.gas, Size(s), 1
  {
    ListJumpsMentioned(host, s.init, id, temps, st);
    var (ending, st1) := ExecList(host, s.init, temps, st);
    var (v, st2) := Evaluate(host, s.tag, temps, st1);
    if ending.Normal? && v.Got? {
      var (chosen, st3) := Choose(host, s.clauses, 0, v.value, temps, st2);
      if chosen.Got? && chosen.value < |s.clauses| {
        ClauseMentions(s.clauses, chosen.value, id);
        ListJumpsMentioned(host, s.clauses[chosen.value].body, id, temps, st3);
      }
    }
  }

  lemma {:induction false} ClauseMentions(clauses: seq<Clause>, i: nat, id: nat)
    requires i < |clauses| && !ClausesMention(clauses, id)
    ensures !ListMentions(clauses[i].body, id)
  {
    if i > 0 {
      ClauseMentions(clauses[1..], i - 1, id);
    }
  }

  lemma {:induction false} ListJumpsMentioned(host: Host, list: seq<Stmt>, id: nat, temps: Temps, st: State)
    requires !ListMentions(list, id)
    ensures ExecList(host, list, temps, st).0 != Jumped(ToContinuation(id))
    decreases st.gas, ListSize(list), 3
  {
    if list != [] {
      JumpsMentioned(host, list[0], id, temps, st);
      ListJumpsMentioned(host, list[1..], id, temps, Exec(host, list[0], temps, st).1);
    }
  }

  lemma {:induction false} IterateJumpsMentioned(host: Host, s: Stmt, id: nat, temps: Temps, st: State)
    requires s.For? && !StmtMentions(s, id)
    ensures Iterate(host, s, temps, st).0 != Jumped(ToContinuation(id))
    decreases st.gas, Size(s), 1
  {
    var (holds, st1) := Guard(host, s.when, temps, st);
    if holds.Got? && holds.value {
      ListJumpsMentioned(host, s.body, id, temps, st1);
      var (ending, st2) := ExecList(host, s.body, temps, st1);
      if ending.Normal? || ending.Continued? {
        var post := ExecPost(host, s.post, temps, Renewed(st2, LoopVars(s.init)));
        if post.0 == Normal && post.1.gas > 0 {
          IterateJumpsMentioned(host, s, id, temps, post.1.(gas := post.1.gas - 1));
        }
      }
    }
  }

  lemma {:induction false} RangeJumpsMentioned(host: Host, s: Stmt, over: Datum, index: int, id: nat, temps: Temps, st: State)
    requires s.Range? && !StmtMentions(s, id)
    ensures RangeFrom(host, s, over, index, temps, st).0 != Jumped(ToContinuation(id))
    decreases st.gas, Size(s), 1
  {
    if index < LoopLimit(host, s.kind, over) {
      var st0 := Iteration(host, s.kind, s.bound, over, index, st);
      ListJumpsMentioned(host, s.body, id, temps, st0);
      var (ending, st1) := ExecList(host, s.body, temps, st0);
      if (ending.Normal? || ending.Continued?) && st1.gas > 0 {
        RangeJumpsMentioned(host, s, over, index + 1, id, temps, st1.(gas := st1.gas - 1));
      }
    }
  }

  /** A continuation nothing refers to might as well not be there. */
  lemma {:induction false} UnmentionedIsIrrelevant(host: Host, code: Code, env: Env, without: Env, id: nat, temps: Temps, st: State)
    requires Lacks(env, without, id) && !Mentions(code, id)
    ensures Run(host, code, env, temps, st) == Run(host, code, without, temps, st)
    decreases st.gas, CodeSize(code) + EnvSize(env), 2
  {
    match code
    case Text(s, rest) =>
      JumpsMentioned(host, s, id, temps, st);
      var (ending, st1) := Exec(host, s, temps, st);
      if ending == Normal {
        UnmentionedIsIrrelevant(host, rest, env, without, id, temps, st1);
      } else {
        UnmentionedConclusion(host, ending, env, without, id, temps, st1);
      }
    case Define(i, body, rest) =>
      UnmentionedIsIrrelevant(host, rest, WithContinuation(i, body, temps, env), WithContinuation(i, body, temps, without), id, temps, st);
    case ReturnTo(to) => UnmentionedLeap(host, to, env, without, id, temps, st);
    case FlatMap(fx, temp, body) =>
      var (v, st1) := AwaitExpr(host, fx, temps, st);
      if v.Got? {
        UnmentionedIsIrrelevant(host, body, env, without, id, temps[temp := v.value], st1);
      }
    case MapLast(_, _, _, _) => UnmentionedInMap(host, code, env, without, id, temps, st);
    case Scope(inner) => UnmentionedIsIrrelevant(host, inner, env, without, id, temps, st);
    case BranchIf(_, _, _, _) => UnmentionedInIf(host, code, env, without, id, temps, st);
    case BranchSwitch(_, _, _, _, _) => UnmentionedInSwitch(host, code, env, without, id, temps, st);
    case LoopFor(_, _, _, _, _, _, _) => UnmentionedInFor(host, code, env, without, id, temps, st);
    case LoopRange(_, _, over, held, index, _, _, _) =>
      var (v, st1) := Evaluate(host, over, temps, st);
      if v.Got? {
        UnmentionedEntry(host, code, env, without, id, temps[held := v.value][index := Number(0)], st1);
      }
    case _ =>
  }

  lemma {:induction false} UnmentionedInMap(host: Host, code: Code, env: Env, without: Env, id: nat, temps: Temps, st: State)
    requires code.MapLast? && Lacks(env, without, id) && !Mentions(code, id)
    ensures Run(host, code, env, temps, st) == Run(host, code, without, temps, st)
    decreases st.gas, CodeSize(code) + EnvSize(env), 0
  {
    var (v, st1) := AwaitExpr(host, code.fx, temps, st);
    if v.Got? {
      var list, bound := code.before + [Return(code.answer)], temps[code.temp := v.value];
      ListMentionsAppend(code.before, [Return(code.answer)], id);
      ListJumpsMentioned(host, list, id, bound, st1);
      var (ending, st2) := ExecList(host, list, bound, st1);
      UnmentionedConclusion(host, ending, env, without, id, temps, st2);
    }
  }

  lemma {:induction false} UnmentionedInIf(host: Host, code: Code, env: Env, without: Env, id: nat, temps: Temps, st: State)
    requires code.BranchIf? && Lacks(env, without, id) && !Mentions(code, id)
    ensures Run(host, code, env, temps, st) == Run(host, code, without, temps, st)
    decreases st.gas, CodeSize(code) + EnvSize(env), 0
  {
    ListJumpsMentioned(host, code.init, id, temps, st);
    var (ending, st1) := ExecList(host, code.init, temps, st);
    if ending != Normal {
      UnmentionedConclusion(host, ending, env, without, id, temps, st1);
    } else {
      var (holds, st2) := Guard(host, [code.cond], temps, st1);
      if holds.Got? {
        UnmentionedIsIrrelevant(host, if holds.value then code.thn else code.els, env, without, id, temps, st2);
      }
    }
  }

  lemma {:induction false} UnmentionedInFor(host: Host, code: Code, env: Env, without: Env, id: nat, temps: Temps, st: State)
    requires code.LoopFor? && Lacks(env, without, id) && !Mentions(code, id)
    ensures Run(host, code, env, temps, st) == Run(host, code, without, temps, st)
    decreases st.gas, CodeSize(code) + EnvSize(env), 1
  {
    ListJumpsMentioned(host, code.init, id, temps, st);
    var (ending, st1) := ExecList(host, code.init, temps, st);
    if ending != Normal {
      UnmentionedConclusion(host, ending, env, without, id, temps, st1);
    } else {
      UnmentionedEntry(host, code, env, without, id, temps, Renewed(st1, code.vars));
    }
  }

  lemma {:induction false} ListMentionsAppend(a: seq<Stmt>, b: seq<Stmt>, id: nat)
    ensures ListMentions(a + b, id) == (ListMentions(a, id) || ListMentions(b, id))
  {
    if a == [] {
      assert a + b == b;
    } else {
      assert (a + b)[1..] == a[1..] + b;
      ListMentionsAppend(a[1..], b, id);
    }
  }

  lemma {:induction false} BodyMentions(codes: seq<Code>, i: nat, id: nat)
    requires i < |codes| && !MentionedInAny(codes, id)
    ensures !Mentions(codes[i], id)
  {
    if i > 0 {
      BodyMentions(codes[1..], i - 1, id);
    }
  }

  lemma {:induction false} UnmentionedInSwitch(host: Host, code: Code, env: Env, without: Env, id: nat, temps: Temps, st: State)
    requires code.BranchSwitch? && Lacks(env, without, id) && !Mentions(code, id)
    ensures Run(host, code, env, temps, st) == Run(host, code, without, temps, st)
    decreases st.gas, CodeSize(code) + EnvSize(env), 0
  {
    ListJumpsMentioned(host, code.init, id, temps, st);
    var (ending, st1) := ExecList(host, code.init, temps, st);
    if ending != Normal {
      UnmentionedConclusion(host, ending, env, without, id, temps, st1);
    } else {
      var (v, st2) := Evaluate(host, code.tag, temps, st1);
      if v.Got? {
        var (chosen, st3) := Choose(host, code.clauses, 0, v.value, temps, st2);
        if chosen.Got? {
          if chosen.value < |code.bodies| {
            BodyMentions(code.bodies, chosen.value, id);
            UnmentionedIsIrrelevant(host, code.bodies[chosen.value], env, without, id, temps, st3);
          } else {
            UnmentionedIsIrrelevant(host, code.after, env, without, id, temps, st3);
          }
        }
      }
    }
  }

  lemma {:induction false} UnmentionedConclusion(host: Host, ending: Ending, env: Env, without: Env, id: nat, temps: Temps, st: State)
    requires Lacks(env, without, id) && ending != Jumped(ToContinuation(id))
    ensures Conclude(host, ending, env, temps, st) == Conclude(host, ending, without, temps, st)
    decreases st.gas, EnvSize(env), 1
  {
    if ending.Jumped? {
      UnmentionedLeap(host, ending.to, env, without, id, temps, st);
    }
  }

  lemma {:induction false} UnmentionedLeap(host: Host, to: Jump, env: Env, without: Env, id: nat, temps: Temps, st: State)
    requires Lacks(env, without, id) && to != ToContinuation(id)
    ensures Leap(host, to, env, temps, st) == Leap(host, to, without, temps, st)
    decreases st.gas, EnvSize(env), 0
  {
    match env
    case WithContinuation(i, body, defined, up) =>
      if !(i == id && up == without) {
        if to == ToContinuation(i) {
          UnmentionedIsIrrelevant(host, body, up, without.up, id, defined, st);
        } else {
          UnmentionedLeap(host, to, up, without.up, id, temps, st);
        }
      }
    case InLoop(code, defined, up) =>
      if code.LoopFor? && to.ToNext? && to.loop == code.loop {
        var (after, st1) := ExecPost(host, code.post, defined, Passed(st, code.vars, to.vars));
        if !after.Ended? && st1.gas > 0 {
          UnmentionedEntry(host, code, up, without.up, id, defined, Renewed(st1.(gas := st1.gas - 1), code.vars));
        }
      } else if code.LoopRange? && to == ToNextIndex(code.loop, code.index) {
        if st.gas > 0 {
          var index := IndexIn(temps, code.index) + 1;
          UnmentionedEntry(host, code, up, without.up, id, defined[code.index := Number(index)], st.(gas := st.gas - 1));
        }
      } else {
        UnmentionedLeap(host, to, up, without.up, id, temps, st);
      }
  }

  lemma {:induction false} UnmentionedEntry(host: Host, code: Code, env: Env, without: Env, id: nat, temps: Temps, st: State)
    requires (code.LoopFor? || code.LoopRange?) && Lacks(env, without, id) && !Mentions(code, id)
    ensures Enter(host, code, env, temps, st) == Enter(host, code, without, temps, st)
    decreases st.gas, CodeSize(code) + EnvSize(env), 0
  {
    if code.LoopFor? {
      var (holds, st1) := Guard(host, code.when, temps, st);
      if holds.Got? {
        UnmentionedIsIrrelevant(host, if holds.value then code.body else code.after,
                                InLoop(code, temps, env), InLoop(code, temps, without), id, temps, st1);
      }
    } else {
      var over, index := HeldIn(temps, code.held), IndexIn(temps, code.index);
      if index >= LoopLimit(host, code.kind, over) {
        UnmentionedIsIrrelevant(host, code.after, InLoop(code, temps, env), InLoop(code, temps, without), id, temps, st);
      } else {
        UnmentionedIsIrrelevant(host, code.body, InLoop(code, temps, env), InLoop(code, temps, without), id, temps,
                                Iteration(host, code.kind, code.bound, over, index, st));
      }
    }
  }
}
