/** Spelling untranslated statements inside the rewrite: the edits of jumps and of redeclarations
    keep what the statements do. */
module RewriteSpell {
  import opened Direct
  import opened Rewrite
  import opened RewriteHoist

  // Source statements ---------------------------------------------------------------------

  /** All identifiers of an expression. */
  predicate SpelledApart(e: Expr, names: seq<Name>) {
    match e
    case Var(x) => forall y :: y in names ==> y.spelling != x.spelling
    case AddrOf(x) => forall y :: y in names ==> y.spelling != x.spelling
    case Prim(_, args) => AllSpelledApart(args, names)
    case Call(_, args) => AllSpelledApart(args, names)
    case Await(fx, _) => SpelledApart(fx, names)
    case AndAlso(l, r) => SpelledApart(l, names) && SpelledApart(r, names)
    case OrElse(l, r) => SpelledApart(l, names) && SpelledApart(r, names)
    case _ => true
  }

  predicate AllSpelledApart(es: seq<Expr>, names: seq<Name>) {
    es != [] ==> SpelledApart(es[0], names) && AllSpelledApart(es[1..], names)
  }

  predicate Mixed(targets: seq<Target>) {
    NewNames(targets) != [] && HasOld(targets)
  }

  /** What Go's compiler guarantees of a := that reuses a name: as many values as targets, no
      pointer operands, and every name at most once. */
  predicate TargetsApart(targets: seq<Target>) {
    targets != [] ==>
      && !targets[0].Into?
      && (targets[0].New? ==> targets[0].name !in NewNames(targets[1..]) && Old(targets[0].name) !in targets[1..])
      && (targets[0].Old? ==> targets[0].name !in NewNames(targets[1..]))
      && (targets[0].New? || targets[0].Old? ==> Apart(targets[0].name, TargetNames(targets[1..])))
      && TargetsApart(targets[1..])
  }

  function TargetNames(targets: seq<Target>): seq<Name> {
    if targets == [] then []
    else (if targets[0].New? || targets[0].Old? then [targets[0].name] else []) + TargetNames(targets[1..])
  }

  /** The redeclared names capture no identifier of the right-hand sides. */
  predicate Unambiguous(targets: seq<Target>, es: seq<Expr>) {
    Mixed(targets) ==>
      && TargetsApart(targets) && (|es| == |targets| || |es| == 1)
      && AllSpelledApart(es, NewNames(targets))
  }

  /** A statement of the source, as the parser and type checker leave it, that redeclares nothing
      ambiguously. `m` bounds the awaited names in it: 0 for the source itself. */
  predicate Plain(s: Stmt, m: nat)
    decreases s
  {
    match s
    case Assign(targets, es) => AllTempsBelow(es, m) && Unambiguous(targets, es)
    case FailWith(e) => TempsBelow(e, m)
    case PanicWith(e) => TempsBelow(e, m)
    case Return(e) => TempsBelow(e, m)
    case Goto(_) => false
    case Declaring(_) => false
    case Block(list) => AllPlainStmts(list, m)
    case If(init, cond, thn, kind, els) =>
      && TempsBelow(cond, m) && Simple(init, m) && AllPlainStmts(thn, m) && AllPlainStmts(els, m)
      && (kind == NoElse ==> els == [])
    case Switch(init, tag, clauses) => TempsBelow(tag, m) && Simple(init, m) && AllPlainClauses(clauses, m)
    case For(init, when, post, body) =>
      && Simple(init, m) && AllTempsBelow(when, m) && |when| <= 1 && Simple(post, m) && AllPlainStmts(body, m)
      && (init != [] ==> init[0].Assign?) && (post != [] ==> post[0].Assign?)
    case Range(_, over, _, body) => TempsBelow(over, m) && AllPlainStmts(body, m)
    case _ => true
  }

  predicate AllPlainStmts(list: seq<Stmt>, m: nat)
    decreases list
  {
    list != [] ==> Plain(list[0], m) && AllPlainStmts(list[1..], m)
  }

  predicate AllPlainClauses(clauses: seq<Clause>, m: nat)
    decreases clauses
  {
    clauses != [] ==>
      AllTempsBelow(clauses[0].cases, m) && AllPlainStmts(clauses[0].body, m) && AllPlainClauses(clauses[1..], m)
  }

  /** One simple statement or none, as an init or post is. */
  predicate Simple(list: seq<Stmt>, m: nat)
    decreases list
  {
    |list| <= 1 && (list != [] ==> IsPlain(list[0]) && Plain(list[0], m))
  }

  lemma {:induction false} PlainClause(clauses: seq<Clause>, m: nat, i: nat)
    requires AllPlainClauses(clauses, m) && i < |clauses|
    ensures AllTempsBelow(clauses[i].cases, m) && AllPlainStmts(clauses[i].body, m)
  {
    if i > 0 {
      PlainClause(clauses[1..], m, i - 1);
    }
  }

  // Awaited names do not matter to source statements --------------------------------------

  lemma EvaluateIgnoresTemps(host: Host, e: Expr, m: nat, a: Temps, b: Temps, st: State)
    requires TempsBelow(e, m) && AgreeBelow(a, b, m)
    ensures Evaluate(host, e, a, st) == Evaluate(host, e, b, st)
  {
    ResolveIgnoresTemps(host, e, m, a, b, st);
    var (e', st1) := Resolve(host, e, a, st);
    if e'.Got? {
      OperandIgnoresTemps(host, e'.value, m, a, b, st1);
    }
  }

  lemma EvaluateAllIgnoresTemps(host: Host, es: seq<Expr>, m: nat, a: Temps, b: Temps, st: State)
    requires AllTempsBelow(es, m) && AgreeBelow(a, b, m)
    ensures EvaluateAll(host, es, a, st) == EvaluateAll(host, es, b, st)
  {
    ResolveAllIgnoresTemps(host, es, m, a, b, st);
    var (es', st1) := ResolveAll(host, es, a, st);
    if es'.Got? {
      OperandsIgnoreTemps(host, es'.value, m, a, b, st1);
    }
  }

  lemma {:induction false} MatchIgnoresTemps(host: Host, cases: seq<Expr>, tag: Datum, m: nat, a: Temps, b: Temps, st: State)
    requires AllTempsBelow(cases, m) && AgreeBelow(a, b, m)
    ensures MatchCases(host, cases, tag, a, st) == MatchCases(host, cases, tag, b, st)
  {
    if cases != [] {
      EvaluateIgnoresTemps(host, cases[0], m, a, b, st);
      MatchIgnoresTemps(host, cases[1..], tag, m, a, b, Evaluate(host, cases[0], a, st).1);
    }
  }

  lemma {:induction false} ChooseIgnoresTemps(host: Host, clauses: seq<Clause>, from: nat, tag: Datum, m: nat, a: Temps, b: Temps, st: State)
    requires from <= |clauses| && AllPlainClauses(clauses, m) && AgreeBelow(a, b, m)
    ensures Choose(host, clauses, from, tag, a, st) == Choose(host, clauses, from, tag, b, st)
    decreases |clauses| - from
  {
    if from < |clauses| {
      PlainClause(clauses, m, from);
      MatchIgnoresTemps(host, clauses[from].cases, tag, m, a, b, st);
      ChooseIgnoresTemps(host, clauses, from + 1, tag, m, a, b, MatchCases(host, clauses[from].cases, tag, a, st).1);
    }
  }

  lemma GuardIgnoresTemps(host: Host, when: seq<Expr>, m: nat, a: Temps, b: Temps, st: State)
    requires AllTempsBelow(when, m) && AgreeBelow(a, b, m)
    ensures Guard(host, when, a, st) == Guard(host, when, b, st)
  {
    if when != [] {
      EvaluateIgnoresTemps(host, when[0], m, a, b, st);
    }
  }

  lemma PostIgnoresTemps(host: Host, post: seq<Stmt>, m: nat, a: Temps, b: Temps, st: State)
    requires Simple(post, m) && AgreeBelow(a, b, m)
    ensures ExecPost(host, post, a, st) == ExecPost(host, post, b, st)
  {
    if post != [] && post[0].Assign? {
      EvaluateAllIgnoresTemps(host, post[0].es, m, a, b, st);
    }
  }

  lemma {:induction false} ExecIgnoresTemps(host: Host, s: Stmt, m: nat, a: Temps, b: Temps, st: State)
    requires Plain(s, m) && AgreeBelow(a, b, m)
    ensures Exec(host, s, a, st) == Exec(host, s, b, st)
    decreases st.gas, Size(s), 3
  {
    match s
    case Assign(_, es) => EvaluateAllIgnoresTemps(host, es, m, a, b, st);
    case FailWith(e) => EvaluateIgnoresTemps(host, e, m, a, b, st);
    case PanicWith(e) => EvaluateIgnoresTemps(host, e, m, a, b, st);
    case Return(e) => EvaluateIgnoresTemps(host, e, m, a, b, st);
    case Block(list) => ExecListIgnoresTemps(host, list, m, a, b, st);
    case If(_, _, _, _, _) => IfIgnoresTemps(host, s, m, a, b, st);
    case Switch(_, _, _) => SwitchIgnoresTemps(host, s, m, a, b, st);
    case For(init, _, _, _) =>
      SimpleIsPlain(init, m);
      ExecListIgnoresTemps(host, init, m, a, b, st);
      IterateIgnoresTemps(host, s, m, a, b, ExecList(host, init, a, st).1);
    case Range(_, over, _, _) =>
      EvaluateIgnoresTemps(host, over, m, a, b, st);
      var (v, st1) := Evaluate(host, over, a, st);
      if v.Got? {
        RangeIgnoresTemps(host, s, v.value, 0, m, a, b, st1);
      }
    case _ =>
  }

  lemma {:induction false} IfIgnoresTemps(host: Host, s: Stmt, m: nat, a: Temps, b: Temps, st: State)
    requires s.If? && Plain(s, m) && AgreeBelow(a, b, m)
    ensures Exec(host, s, a, st) == Exec(host, s, b, st)
    decreases st.gas, Size(s), 1
  {
    SimpleIsPlain(s.init, m);
    ExecListIgnoresTemps(host, s.init, m, a, b, st);
    var (ending, st1) := ExecList(host, s.init, a, st);
    GuardIgnoresTemps(host, [s.cond], m, a, b, st1);
    var st2 := Guard(host, [s.cond], a, st1).1;
    ExecListIgnoresTemps(host, s.thn, m, a, b, st2);
    ExecListIgnoresTemps(host, s.els, m, a, b, st2);
  }

  lemma {:induction false} SwitchIgnoresTemps(host: Host, s: Stmt, m: nat, a: Temps, b: Temps, st: State)
    requires s.Switch? && Plain(s, m) && AgreeBelow(a, b, m)
    ensures Exec(host, s, a, st) == Exec(host, s, b, st)
    decreases st.gas, Size(s), 1
  {
    SimpleIsPlain(s.init, m);
    ExecListIgnoresTemps(host, s.init, m, a, b, st);
    var (ending, st1) := ExecList(host, s.init, a, st);
    EvaluateIgnoresTemps(host, s.tag, m, a, b, st1);
    var (v, st2) := Evaluate(host, s.tag, a, st1);
    if v.Got? {
      ChooseIgnoresTemps(host, s.clauses, 0, v.value, m, a, b, st2);
      var (chosen, st3) := Choose(host, s.clauses, 0, v.value, a, st2);
      if chosen.Got? && chosen.value < |s.clauses| {
        PlainClause(s.clauses, m, chosen.value);
        ExecListIgnoresTemps(host, s.clauses[chosen.value].body, m, a, b, st3);
      }
    }
  }

  lemma SimpleIsPlain(list: seq<Stmt>, m: nat)
    requires Simple(list, m)
    ensures AllPlainStmts(list, m)
  {
  }

  lemma {:induction false} ExecListIgnoresTemps(host: Host, list: seq<Stmt>, m: nat, a: Temps, b: Temps, st: State)
    requires AllPlainStmts(list, m) && AgreeBelow(a, b, m)
    ensures ExecList(host, list, a, st) == ExecList(host, list, b, st)
    decreases st.gas, ListSize(list), 4
  {
    if list != [] {
      ExecIgnoresTemps(host, list[0], m, a, b, st);
      ExecListIgnoresTemps(host, list[1..], m, a, b, Exec(host, list[0], a, st).1);
    }
  }

  lemma {:induction false} IterateIgnoresTemps(host: Host, s: Stmt, m: nat, a: Temps, b: Temps, st: State)
    requires s.For? && Plain(s, m) && AgreeBelow(a, b, m)
    ensures Iterate(host, s, a, st) == Iterate(host, s, b, st)
    decreases st.gas, Size(s), 2
  {
    GuardIgnoresTemps(host, s.when, m, a, b, st);
    var (holds, st1) := Guard(host, s.when, a, st);
    if holds.Got? && holds.value {
      ExecListIgnoresTemps(host, s.body, m, a, b, st1);
      var (ending, st2) := ExecList(host, s.body, a, st1);
      NextIterationIgnoresTemps(host, s, ending, m, a, b, st2);
    }
  }

  lemma {:induction false} NextIterationIgnoresTemps(host: Host, s: Stmt, ending: Ending, m: nat, a: Temps, b: Temps, st: State)
    requires s.For? && Plain(s, m) && AgreeBelow(a, b, m)
    ensures NextIteration(host, s, ending, a, st) == NextIteration(host, s, ending, b, st)
    decreases st.gas, Size(s), 1
  {
    if ending.Normal? || ending.Continued? {
      NextUnfolds(host, s, ending, a, st);
      NextUnfolds(host, s, ending, b, st);
      PostIgnoresTemps(host, s.post, m, a, b, Renewed(st, LoopVars(s.init)));
      AfterPostIgnoresTemps(host, s, ExecPost(host, s.post, a, Renewed(st, LoopVars(s.init))), m, a, b);
    }
  }

  function AfterPost(host: Host, s: Stmt, post: (Ending, State), temps: Temps): (Ending, State)
    requires s.For?
  {
    if post.0 != Normal then post
    else if post.1.gas == 0 then (OutOfGas, post.1)
    else Iterate(host, s, temps, post.1.(gas := post.1.gas - 1))
  }

  lemma {:induction false} AfterPostIgnoresTemps(host: Host, s: Stmt, post: (Ending, State), m: nat, a: Temps, b: Temps)
    requires s.For? && Plain(s, m) && AgreeBelow(a, b, m)
    ensures AfterPost(host, s, post, a) == AfterPost(host, s, post, b)
    decreases post.1.gas, Size(s), 0
  {
    if post.0 == Normal && post.1.gas > 0 {
      IterateIgnoresTemps(host, s, m, a, b, post.1.(gas := post.1.gas - 1));
    }
  }

  lemma {:induction false} NextUnfolds(host: Host, s: Stmt, ending: Ending, temps: Temps, st: State)
    requires s.For? && (ending.Normal? || ending.Continued?)
    ensures NextIteration(host, s, ending, temps, st)
         == AfterPost(host, s, ExecPost(host, s.post, temps, Renewed(st, LoopVars(s.init))), temps)
  {
  }

  lemma {:induction false} RangeIgnoresTemps(host: Host, s: Stmt, over: Datum, index: int, m: nat, a: Temps, b: Temps, st: State)
    requires s.Range? && Plain(s, m) && AgreeBelow(a, b, m)
    ensures RangeFrom(host, s, over, index, a, st) == RangeFrom(host, s, over, index, b, st)
    decreases st.gas, Size(s), 1
  {
    if index < LoopLimit(host, s.kind, over) {
      var st0 := Iteration(host, s.kind, s.bound, over, index, st);
      ExecListIgnoresTemps(host, s.body, m, a, b, st0);
      var (ending, st1) := ExecList(host, s.body, a, st0);
      NextElementIgnoresTemps(host, s, over, index, ending, m, a, b, st1);
    }
  }

  lemma {:induction false} NextElementIgnoresTemps(host: Host, s: Stmt, over: Datum, index: int, ending: Ending, m: nat, a: Temps, b: Temps, st: State)
    requires s.Range? && Plain(s, m) && AgreeBelow(a, b, m)
    ensures NextElement(host, s, over, index, ending, a, st) == NextElement(host, s, over, index, ending, b, st)
    decreases st.gas, Size(s), 0
  {
    if st.gas > 0 {
      RangeIgnoresTemps(host, s, over, index + 1, m, a, b, st.(gas := st.gas - 1));
    }
  }

  // Redeclaration -------------------------------------------------------------------------

  lemma {:induction false} RespellsNothing(e: Expr, names: seq<Name>)
    requires SpelledApart(e, names)
    ensures Respell(e, names) == e
    decreases e
  {
    match e
    case Var(x) => DenotesItself(x, names);
    case AddrOf(x) => DenotesItself(x, names);
    case Prim(_, args) => RespellsNoneOf(args, names);
    case Call(_, args) => RespellsNoneOf(args, names);
    case Await(fx, _) => RespellsNothing(fx, names);
    case AndAlso(l, r) => RespellsNothing(l, names); RespellsNothing(r, names);
    case OrElse(l, r) => RespellsNothing(l, names); RespellsNothing(r, names);
    case _ =>
  }

  lemma {:induction false} RespellsNoneOf(es: seq<Expr>, names: seq<Name>)
    requires AllSpelledApart(es, names)
    ensures RespellAll(es, names) == es
    decreases es
  {
    if es != [] {
      RespellsNothing(es[0], names);
      RespellsNoneOf(es[1..], names);
      assert [es[0]] + es[1..] == es;
    }
  }

  lemma {:induction false} DenotesItself(x: Name, names: seq<Name>)
    requires forall y :: y in names ==> y.spelling != x.spelling
    ensures Denotes(x, names) == x
  {
    if names != [] {
      assert names[0] in names;
      DenotesItself(x, names[1..]);
    }
  }

  function ZeroSlots(names: seq<Name>): map<Name, Slot> {
    map x | x in names :: Own(x.zero)
  }

  /** `st` with these names newly declared at their zero values. */
  function Overlay(st: State, names: seq<Name>): State {
    st.(vars := st.vars + ZeroSlots(names))
  }

  predicate Apart(x: Name, names: seq<Name>) {
    forall y :: y in names ==> y.spelling != x.spelling
  }

  lemma ShareOverlaid(st: State, x: Name, names: seq<Name>)
    requires Apart(x, names)
    ensures Overlay(st, names).Read(x) == st.Read(x)
    ensures Overlay(st, names).Share(x) == (Overlay(st.Share(x).0, names), st.Share(x).1)
  {
    assert x !in names;
    assert Overlay(st, names).Share(x).0.vars == Overlay(st.Share(x).0, names).vars;
  }

  lemma {:induction false} OperandOverlaid(host: Host, e: Expr, names: seq<Name>, temps: Temps, st: State)
    requires SpelledApart(e, names)
    ensures var (r, st') := Operand(host, e, temps, st); Operand(host, e, temps, Overlay(st, names)) == (r, Overlay(st', names))
    decreases e
  {
    match e
    case Var(x) => ShareOverlaid(st, x, names);
    case AddrOf(x) => ShareOverlaid(st, x, names);
    case Prim(_, args) => OperandsOverlaid(host, args, names, temps, st);
    case AndAlso(l, r) =>
      OperandOverlaid(host, l, names, temps, st);
      OperandOverlaid(host, r, names, temps, Operand(host, l, temps, st).1);
    case OrElse(l, r) =>
      OperandOverlaid(host, l, names, temps, st);
      OperandOverlaid(host, r, names, temps, Operand(host, l, temps, st).1);
    case _ =>
  }

  lemma {:induction false} OperandsOverlaid(host: Host, es: seq<Expr>, names: seq<Name>, temps: Temps, st: State)
    requires AllSpelledApart(es, names)
    ensures var (r, st') := Operands(host, es, temps, st); Operands(host, es, temps, Overlay(st, names)) == (r, Overlay(st', names))
    decreases es
  {
    if es != [] {
      OperandOverlaid(host, es[0], names, temps, st);
      OperandsOverlaid(host, es[1..], names, temps, Operand(host, es[0], temps, st).1);
    }
  }

  lemma {:induction false} ResolveOverlaid(host: Host, e: Expr, names: seq<Name>, temps: Temps, st: State)
    requires SpelledApart(e, names)
    ensures var (r, st') := Resolve(host, e, temps, st);
            Resolve(host, e, temps, Overlay(st, names)) == (r, Overlay(st', names)) && (r.Got? ==> SpelledApart(r.value, names))
    decreases e, 1
  {
    match e
    case Prim(_, args) => ResolveAllOverlaid(host, args, names, temps, st);
    case Call(_, _) => ResolveCallOverlaid(host, e, names, temps, st);
    case Await(_, _) => ResolveAwaitOverlaid(host, e, names, temps, st);
    case AndAlso(_, _) => ResolveEitherOverlaid(host, e, names, temps, st);
    case OrElse(_, _) => ResolveEitherOverlaid(host, e, names, temps, st);
    case _ =>
  }

  lemma {:induction false} ResolveCallOverlaid(host: Host, e: Expr, names: seq<Name>, temps: Temps, st: State)
    requires e.Call? && SpelledApart(e, names)
    ensures var (r, st') := Resolve(host, e, temps, st);
            Resolve(host, e, temps, Overlay(st, names)) == (r, Overlay(st', names)) && (r.Got? ==> SpelledApart(r.value, names))
    decreases e, 0
  {
    ResolveAllOverlaid(host, e.args, names, temps, st);
    var (es, st1) := ResolveAll(host, e.args, temps, st);
    if es.Got? {
      OperandsOverlaid(host, es.value, names, temps, st1);
    }
  }

  lemma {:induction false} ResolveAwaitOverlaid(host: Host, e: Expr, names: seq<Name>, temps: Temps, st: State)
    requires e.Await? && SpelledApart(e, names)
    ensures var (r, st') := Resolve(host, e, temps, st);
            Resolve(host, e, temps, Overlay(st, names)) == (r, Overlay(st', names)) && (r.Got? ==> SpelledApart(r.value, names))
    decreases e, 0
  {
    ResolveOverlaid(host, e.fx, names, temps, st);
    var (e', st1) := Resolve(host, e.fx, temps, st);
    if e'.Got? {
      OperandOverlaid(host, e'.value, names, temps, st1);
    }
  }

  lemma {:induction false} ResolveEitherOverlaid(host: Host, e: Expr, names: seq<Name>, temps: Temps, st: State)
    requires (e.AndAlso? || e.OrElse?) && SpelledApart(e, names)
    ensures var (r, st') := Resolve(host, e, temps, st);
            Resolve(host, e, temps, Overlay(st, names)) == (r, Overlay(st', names)) && (r.Got? ==> SpelledApart(r.value, names))
    decreases e, 0
  {
    var (l, st1) := Resolve(host, e.left, temps, st);
    assert Resolve(host, e.left, temps, Overlay(st, names)) == (l, Overlay(st1, names))
      && (l.Got? ==> SpelledApart(l.value, names)) by {
      ResolveOverlaid(host, e.left, names, temps, st);
    }
    if l.Got? && Acts(e.right) {
      var (v, st2) := Operand(host, l.value, temps, st1);
      assert Operand(host, l.value, temps, Overlay(st1, names)) == (v, Overlay(st2, names)) by {
        OperandOverlaid(host, l.value, names, temps, st1);
      }
      if v.Got? {
        ResolveOverlaid(host, e.right, names, temps, st2);
      }
    }
  }

  lemma {:induction false} ResolveAllOverlaid(host: Host, es: seq<Expr>, names: seq<Name>, temps: Temps, st: State)
    requires AllSpelledApart(es, names)
    ensures var (r, st') := ResolveAll(host, es, temps, st);
            ResolveAll(host, es, temps, Overlay(st, names)) == (r, Overlay(st', names)) && (r.Got? ==> AllSpelledApart(r.value, names))
    decreases es, 0
  {
    if es != [] {
      ResolveOverlaid(host, es[0], names, temps, st);
      var (e, st1) := Resolve(host, es[0], temps, st);
      if e.Got? {
        ResolveAllOverlaid(host, es[1..], names, temps, st1);
        var (rest, _) := ResolveAll(host, es[1..], temps, st1);
        if rest.Got? {
          assert ([e.value] + rest.value)[1..] == rest.value;
        }
      }
    }
  }

  lemma EvaluateAllOverlaid(host: Host, es: seq<Expr>, names: seq<Name>, temps: Temps, st: State)
    requires AllSpelledApart(es, names)
    ensures var (r, st') := EvaluateAll(host, es, temps, st); EvaluateAll(host, es, temps, Overlay(st, names)) == (r, Overlay(st', names))
  {
    ResolveAllOverlaid(host, es, names, temps, st);
    var (r, st1) := ResolveAll(host, es, temps, st);
    if r.Got? {
      OperandsOverlaid(host, r.value, names, temps, st1);
    }
  }

  lemma ZeroSlotsCons(x: Name, names: seq<Name>)
    ensures ZeroSlots([x] + names) == map[x := Own(x.zero)] + ZeroSlots(names)
  {
  }

  lemma WriteOldOverlaid(st: State, x: Name, v: Datum, names: seq<Name>)
    requires x !in names
    ensures Overlay(st, names).Write(x, v) == Overlay(st.Write(x, v), names)
  {
  }

  lemma WriteNewOverlaid(st: State, x: Name, v: Datum, names: seq<Name>)
    requires x !in names
    ensures Overlay(st, [x] + names).Write(x, v) == Overlay(st.Declare(x, v), names)
  {
  }

  /** Assigning to the declared names one by one replaces the declared zeros one by one. */
  lemma {:induction false} StoreOverlaid(host: Host, targets: seq<Target>, values: seq<Datum>, st: State)
    requires TargetsApart(targets) && |values| >= |targets|
    ensures StoreInto(host, OldTargets(targets), [], values, Overlay(st, NewNames(targets)))
         == StoreInto(host, targets, [], values, st)
  {
    if targets == [] {
      assert Overlay(st, []).vars == st.vars;
    } else {
      var v, rest := values[0], targets[1..];
      assert OldTargets(targets)[1..] == OldTargets(rest);
      match targets[0]
      case New(x) =>
        WriteNewOverlaid(st, x, v, NewNames(rest));
        StoreOverlaid(host, rest, values[1..], st.Declare(x, v));
      case Old(x) =>
        assert NewNames(targets) == NewNames(rest);
        WriteOldOverlaid(st, x, v, NewNames(rest));
        StoreOverlaid(host, rest, values[1..], st.Write(x, v));
      case Blank =>
        assert NewNames(targets) == NewNames(rest);
        StoreOverlaid(host, rest, values[1..], st);
      case Into =>
    }
  }

  function ZeroData(names: seq<Name>): (r: seq<Datum>)
    ensures |r| == |names|
  {
    if names == [] then [] else [names[0].zero] + ZeroData(names[1..])
  }

  lemma {:induction false} EvaluateZeros(host: Host, names: seq<Name>, temps: Temps, st: State)
    ensures ResolveAll(host, Zeros(names), temps, st) == (Got(Zeros(names)), st)
    ensures Operands(host, Zeros(names), temps, st) == (Got(ZeroData(names)), st)
    ensures Pointers(NewTargets(names)) == 0 && |NewTargets(names)| == |names|
  {
    if names != [] {
      EvaluateZeros(host, names[1..], temps, st);
      assert Zeros(names)[1..] == Zeros(names[1..]);
      assert NewTargets(names)[1..] == NewTargets(names[1..]);
    }
  }

  lemma OverlayCons(st: State, names: seq<Name>)
    requires names != []
    ensures Overlay(st.Declare(names[0], names[0].zero), names[1..]) == Overlay(st, names)
  {
    var zeros, x := ZeroSlots(names[1..]), names[0];
    assert names == [x] + names[1..];
    ZeroSlotsCons(x, names[1..]);
    assert st.vars[x := Own(x.zero)] + zeros == st.vars + (map[x := Own(x.zero)] + zeros);
  }

  lemma {:induction false} StoreZeros(host: Host, names: seq<Name>, st: State)
    ensures StoreInto(host, NewTargets(names), [], ZeroData(names), st) == Overlay(st, names)
  {
    if names == [] {
      assert Overlay(st, []).vars == st.vars;
    } else {
      assert NewTargets(names)[1..] == NewTargets(names[1..]) && ZeroData(names)[1..] == ZeroData(names[1..]);
      StoreZeros(host, names[1..], st.Declare(names[0], names[0].zero));
      OverlayCons(st, names);
    }
  }

  /** The part of a run that is still to matter: everything while the body goes on, and what the
      report shows once it has ended. */
  ghost predicate SameFrom(a: (Ending, State), b: (Ending, State)) {
    && a.0 == b.0
    && a.1.store == b.1.store && a.1.trace == b.1.trace && a.1.gas == b.1.gas
    && (a.0.Normal? || a.0.Broke? || a.0.Continued? || a.0.Jumped? ==> a.1 == b.1)
  }

  lemma {:induction false} RedeclareExecs(host: Host, targets: seq<Target>, es: seq<Expr>, temps: Temps, st: State)
    requires Mixed(targets)
    ensures var names := NewNames(targets);
            Exec(host, Redeclare(targets, es), temps, st)
             == ExecAssign(host, OldTargets(targets), RespellAll(es, names), temps, Overlay(st, names))
  {
    var names := NewNames(targets);
    var declare, assign := Assign(NewTargets(names), Zeros(names)), Assign(OldTargets(targets), RespellAll(es, names));
    assert Redeclare(targets, es) == Declaring([declare, assign]);
    DeclareZeros(host, names, temps, st);
    ExecTwo(host, declare, assign, temps, st);
  }

  /** Spelling a reusing := as declarations and an assignment keeps what it does, unless one of
      the declared names is spelled like an identifier on the right. */
  lemma {:induction false} RedeclareKeeps(host: Host, targets: seq<Target>, es: seq<Expr>, temps: Temps, st: State)
    requires Unambiguous(targets, es)
    ensures SameFrom(Exec(host, Redeclare(targets, es), temps, st), ExecAssign(host, targets, es, temps, st))
  {
    if Mixed(targets) {
      RespellsNoneOf(es, NewNames(targets));
      RedeclareExecs(host, targets, es, temps, st);
      AssignOverlaid(host, targets, es, temps, st);
    }
  }

  lemma {:induction false} ExecTwo(host: Host, a: Stmt, b: Stmt, temps: Temps, st: State)
    requires Exec(host, a, temps, st).0 == Normal
    ensures ExecList(host, [a, b], temps, st) == Exec(host, b, temps, Exec(host, a, temps, st).1)
  {
    var st1 := Exec(host, a, temps, st).1;
    assert [a, b][1..] == [b] && [b][1..] == [];
    assert ExecList(host, [b], temps, st1) == Exec(host, b, temps, st1) by {
      var (ending, st2) := Exec(host, b, temps, st1);
      assert ExecList(host, [], temps, st2) == (Normal, st2);
    }
  }

  lemma DeclareZeros(host: Host, names: seq<Name>, temps: Temps, st: State)
    ensures ExecAssign(host, NewTargets(names), Zeros(names), temps, st) == (Normal, Overlay(st, names))
  {
    EvaluateZeros(host, names, temps, st);
    assert ZeroData(names)[0..] == ZeroData(names) && ZeroData(names)[..0] == [];
    StoreZeros(host, names, st);
  }

  /** Assigning over the declared zeros leaves what the := leaves. */
  lemma AssignOverlaid(host: Host, targets: seq<Target>, es: seq<Expr>, temps: Temps, st: State)
    requires TargetsApart(targets) && (|es| == |targets| || |es| == 1) && targets != []
    requires AllSpelledApart(es, NewNames(targets))
    ensures SameFrom(ExecAssign(host, OldTargets(targets), es, temps, Overlay(st, NewNames(targets))),
                     ExecAssign(host, targets, es, temps, st))
  {
    EvaluateAllOverlaid(host, es, NewNames(targets), temps, st);
    NoPointers(targets);
    var (vs, st1) := EvaluateAll(host, es, temps, st);
    if vs.Got? {
      EvaluateAllCounts(host, es, temps, st);
      assert vs.value[0..] == vs.value && vs.value[..0] == [];
      StoreOverlaid(host, targets, Spread(host, vs.value, |targets|), st1);
    }
  }

  lemma {:induction false} NoPointers(targets: seq<Target>)
    requires TargetsApart(targets)
    ensures Pointers(targets) == 0 && Pointers(OldTargets(targets)) == 0 && |OldTargets(targets)| == |targets|
  {
    if targets != [] {
      NoPointers(targets[1..]);
      assert OldTargets(targets)[1..] == OldTargets(targets[1..]);
    }
  }

  lemma {:induction false} ResolveAllCounts(host: Host, es: seq<Expr>, temps: Temps, st: State)
    ensures var r := ResolveAll(host, es, temps, st).0; r.Got? ==> |r.value| == |es|
  {
    if es != [] {
      ResolveAllCounts(host, es[1..], temps, Resolve(host, es[0], temps, st).1);
    }
  }

  lemma {:induction false} OperandsCount(host: Host, es: seq<Expr>, temps: Temps, st: State)
    ensures var r := Operands(host, es, temps, st).0; r.Got? ==> |r.value| == |es|
  {
    if es != [] {
      OperandsCount(host, es[1..], temps, Operand(host, es[0], temps, st).1);
    }
  }

  lemma EvaluateAllCounts(host: Host, es: seq<Expr>, temps: Temps, st: State)
    ensures var r := EvaluateAll(host, es, temps, st).0; r.Got? ==> |r.value| == |es|
  {
    ResolveAllCounts(host, es, temps, st);
    var (r, st1) := ResolveAll(host, es, temps, st);
    if r.Got? {
      OperandsCount(host, r.value, temps, st1);
    }
  }

  // Jumps ---------------------------------------------------------------------------------

  /** What an ending becomes where breaks and continues are spelled as jumps. */
  function Redirect(ending: Ending, jumps: Jumps): Ending {
    if ending.Broke? && jumps.brk != Nowhere then Jumped(jumps.brk)
    else if ending.Continued? && jumps.cont != Nowhere then Jumped(jumps.cont)
    else ending
  }

  function Redirected(r: (Ending, State), jumps: Jumps): (Ending, State) {
    (Redirect(r.0, jumps), r.1)
  }

  lemma {:induction false} ChooseSpelled(host: Host, clauses: seq<Clause>, spelled: seq<Clause>, from: nat, tag: Datum, temps: Temps, st: State)
    requires from <= |clauses| == |spelled|
    requires forall i :: 0 <= i < |clauses| ==> spelled[i].cases == clauses[i].cases && spelled[i].isDefault == clauses[i].isDefault
    ensures Choose(host, spelled, from, tag, temps, st) == Choose(host, clauses, from, tag, temps, st)
    ensures DefaultClause(spelled, from) == DefaultClause(clauses, from)
    decreases |clauses| - from
  {
    if from < |clauses| {
      ChooseSpelled(host, clauses, spelled, from + 1, tag, temps, MatchCases(host, clauses[from].cases, tag, temps, st).1);
    } else {
      SameDefault(clauses, spelled, 0);
    }
  }

  lemma {:induction false} SameDefault(clauses: seq<Clause>, spelled: seq<Clause>, from: nat)
    requires from <= |clauses| == |spelled|
    requires forall i :: 0 <= i < |clauses| ==> spelled[i].isDefault == clauses[i].isDefault
    ensures DefaultClause(spelled, from) == DefaultClause(clauses, from)
    decreases |clauses| - from
  {
  }

  lemma {:induction false} SpelledClause(clauses: seq<Clause>, jumps: Jumps, i: nat)
    requires i < |clauses|
    ensures SpellClauses(clauses, jumps)[i] == clauses[i].(body := SpellList(clauses[i].body, jumps))
  {
    if i > 0 {
      SpelledClause(clauses[1..], jumps, i - 1);
    }
  }

  /** A statement spelled inside the rewrite does what it does in the source, and leaves the
      construct around it by the jump where the source leaves it by break or continue. */
  lemma {:induction false} SpellKeeps(host: Host, s: Stmt, jumps: Jumps, m: nat, temps: Temps, st: State)
    requires Plain(s, m)
    ensures SameFrom(Exec(host, Spell(s, jumps), temps, st), Redirected(Exec(host, s, temps, st), jumps))
    decreases st.gas, Size(s), 2
  {
    match s
    case Assign(targets, es) => RedeclareKeeps(host, targets, es, temps, st);
    case Block(list) => SpellListKeeps(host, list, jumps, m, temps, st);
    case If(_, _, _, _, _) => SpellIfKeeps(host, s, jumps, m, temps, st);
    case Switch(_, _, _) => SpellSwitchKeeps(host, s, jumps, m, temps, st);
    case For(init, _, _, _) =>
      NeverLeaves(host, init, m, temps, st);
      SpellIterateKeeps(host, s, m, temps, ExecList(host, init, temps, st).1);
    case Range(_, over, _, _) =>
      var (v, st1) := Evaluate(host, over, temps, st);
      if v.Got? {
        SpellRangeKeeps(host, s, v.value, 0, m, temps, st1);
      }
    case _ =>
  }

  lemma {:induction false} SpellIfKeeps(host: Host, s: Stmt, jumps: Jumps, m: nat, temps: Temps, st: State)
    requires s.If? && Plain(s, m)
    ensures SameFrom(Exec(host, Spell(s, jumps), temps, st), Redirected(Exec(host, s, temps, st), jumps))
    decreases st.gas, Size(s), 1
  {
    NeverLeaves(host, s.init, m, temps, st);
    var st1 := ExecList(host, s.init, temps, st).1;
    var (holds, st2) := Guard(host, [s.cond], temps, st1);
    if holds.Got? && holds.value {
      SpellListKeeps(host, s.thn, jumps, m, temps, st2);
    } else {
      SpellListKeeps(host, s.els, jumps, m, temps, st2);
    }
  }

  /** An init statement never breaks, continues, returns or jumps. */
  lemma NeverLeaves(host: Host, init: seq<Stmt>, m: nat, temps: Temps, st: State)
    requires Simple(init, m)
    ensures var (ending, st') := ExecList(host, init, temps, st); ending.Normal? || ending.Ended?
    ensures ExecList(host, init, temps, st).1.gas == st.gas
  {
  }

  /** A branching statement's header: its init, then its condition or tag. */
  function RunHeader(host: Host, init: seq<Stmt>, e: Expr, temps: Temps, st: State): (r: (Result<Datum>, State))
    ensures r.1.gas <= st.gas
  {
    var (ending, st1) := ExecList(host, init, temps, st);
    if ending.Ended? then (Halted(ending.halt), st1) else Evaluate(host, e, temps, st1)
  }

  /** What a switch does after its header. */
  function RunClauses(host: Host, clauses: seq<Clause>, v: Result<Datum>, temps: Temps, st: State): (Ending, State) {
    if v.Halted? then (Ended(v.halt), st)
    else
      var (chosen, st1) := Choose(host, clauses, 0, v.value, temps, st);
      if chosen.Halted? then (Ended(chosen.halt), st1)
      else if chosen.value == |clauses| then (Normal, st1)
      else
        var (inside, st2) := ExecList(host, clauses[chosen.value].body, temps, st1);
        (if inside.Broke? then Normal else inside, st2)
  }

  lemma {:induction false} SwitchExecs(host: Host, s: Stmt, m: nat, temps: Temps, st: State)
    requires s.Switch? && Simple(s.init, m)
    ensures var (v, st1) := RunHeader(host, s.init, s.tag, temps, st);
            Exec(host, s, temps, st) == RunClauses(host, s.clauses, v, temps, st1)
  {
    NeverLeaves(host, s.init, m, temps, st);
  }

  lemma {:induction false} SpellSwitchKeeps(host: Host, s: Stmt, jumps: Jumps, m: nat, temps: Temps, st: State)
    requires s.Switch? && Plain(s, m)
    ensures SameFrom(Exec(host, Spell(s, jumps), temps, st), Redirected(Exec(host, s, temps, st), jumps))
    decreases st.gas, Size(s), 1
  {
    SwitchExecs(host, s, m, temps, st);
    SwitchExecs(host, Spell(s, jumps), m, temps, st);
    var (v, st1) := RunHeader(host, s.init, s.tag, temps, st);
    if v.Got? {
      SpellClausesKeep(host, s, v.value, jumps, m, temps, st1);
    }
  }

  lemma {:induction false} SpellClausesKeep(host: Host, s: Stmt, tag: Datum, jumps: Jumps, m: nat, temps: Temps, st: State)
    requires s.Switch? && Plain(s, m)
    ensures SameFrom(RunClauses(host, SpellClauses(s.clauses, Jumps(Nowhere, jumps.cont)), Got(tag), temps, st),
                     Redirected(RunClauses(host, s.clauses, Got(tag), temps, st), jumps))
    decreases st.gas, Size(s), 0
  {
    var inner := Jumps(Nowhere, jumps.cont);
    var clauses, spelled := s.clauses, SpellClauses(s.clauses, inner);
    forall i | 0 <= i < |clauses|
      ensures spelled[i] == clauses[i].(body := SpellList(clauses[i].body, inner))
    {
      SpelledClause(clauses, inner, i);
    }
    ChooseSpelled(host, clauses, spelled, 0, tag, temps, st);
    var (chosen, st1) := Choose(host, clauses, 0, tag, temps, st);
    if chosen.Got? && chosen.value < |clauses| {
      PlainClause(clauses, m, chosen.value);
      SpellListKeeps(host, clauses[chosen.value].body, inner, m, temps, st1);
    }
  }

  lemma {:induction false} SpellListKeeps(host: Host, list: seq<Stmt>, jumps: Jumps, m: nat, temps: Temps, st: State)
    requires AllPlainStmts(list, m)
    ensures SameFrom(ExecList(host, SpellList(list, jumps), temps, st), Redirected(ExecList(host, list, temps, st), jumps))
    decreases st.gas, ListSize(list), 3
  {
    if list != [] {
      SpellKeeps(host, list[0], jumps, m, temps, st);
      var (ending, st1) := Exec(host, list[0], temps, st);
      assert SpellList(list, jumps)[1..] == SpellList(list[1..], jumps);
      if ending.Normal? {
        SpellListKeeps(host, list[1..], jumps, m, temps, st1);
      }
    }
  }

  lemma {:induction false} SpellIterateKeeps(host: Host, s: Stmt, m: nat, temps: Temps, st: State)
    requires s.For? && Plain(s, m)
    ensures SameFrom(Iterate(host, Spell(s, NO_JUMPS), temps, st), Iterate(host, s, temps, st))
    decreases st.gas, Size(s), 1
  {
    var (holds, st1) := Guard(host, s.when, temps, st);
    if holds.Got? && holds.value {
      SpellListKeeps(host, s.body, NO_JUMPS, m, temps, st1);
      var (ending, st2) := ExecList(host, s.body, temps, st1);
      SpellNextKeeps(host, s, ending, m, temps, st2);
    }
  }

  lemma {:induction false} SpellNextKeeps(host: Host, s: Stmt, ending: Ending, m: nat, temps: Temps, st: State)
    requires s.For? && Plain(s, m)
    ensures SameFrom(NextIteration(host, Spell(s, NO_JUMPS), ending, temps, st), NextIteration(host, s, ending, temps, st))
    decreases st.gas, Size(s), 0
  {
    if ending.Normal? || ending.Continued? {
      var post := ExecPost(host, s.post, temps, Renewed(st, LoopVars(s.init)));
      if post.0 == Normal && post.1.gas > 0 {
        SpellIterateKeeps(host, s, m, temps, post.1.(gas := post.1.gas - 1));
      }
    }
  }

  lemma {:induction false} SpellRangeKeeps(host: Host, s: Stmt, over: Datum, index: int, m: nat, temps: Temps, st: State)
    requires s.Range? && Plain(s, m)
    ensures SameFrom(RangeFrom(host, Spell(s, NO_JUMPS), over, index, temps, st), RangeFrom(host, s, over, index, temps, st))
    decreases st.gas, Size(s), 1
  {
    if index < LoopLimit(host, s.kind, over) {
      var st0 := Iteration(host, s.kind, s.bound, over, index, st);
      SpellListKeeps(host, s.body, NO_JUMPS, m, temps, st0);
      var (ending, st1) := ExecList(host, s.body, temps, st0);
      SpellNextElementKeeps(host, s, over, index, ending, m, temps, st1);
    }
  }

  lemma {:induction false} SpellNextElementKeeps(host: Host, s: Stmt, over: Datum, index: int, ending: Ending, m: nat, temps: Temps, st: State)
    requires s.Range? && Plain(s, m)
    ensures SameFrom(NextElement(host, Spell(s, NO_JUMPS), over, index, ending, temps, st),
                     NextElement(host, s, over, index, ending, temps, st))
    decreases st.gas, Size(s), 0
  {
    if (ending.Normal? || ending.Continued?) && st.gas > 0 {
      SpellRangeKeeps(host, s, over, index + 1, m, temps, st.(gas := st.gas - 1));
    }
  }
}
