/** How control leaves statements: what Go's terminating statements and the rewrite's own
    termination test promise, where breaks can occur, and which loop variables stay unshared. */
module RewriteFlow {
  import opened Direct
  import opened Rewrite
  import opened RewriteHoist
  import opened RewriteSpell

  predicate Continues(s: Stmt) {
    match s
    case Continue => true
    case Block(list) => ContinuesAny(list)
    case If(_, _, thn, _, els) => ContinuesAny(thn) || ContinuesAny(els)
    case Switch(_, _, clauses) => ContinuesClauses(clauses)
    case _ => false
  }

  predicate ContinuesAny(list: seq<Stmt>) {
    list != [] && (Continues(list[0]) || ContinuesAny(list[1..]))
  }

  predicate ContinuesClauses(clauses: seq<Clause>) {
    clauses != [] && (ContinuesAny(clauses[0].body) || ContinuesClauses(clauses[1..]))
  }

  predicate BreaksClauses(clauses: seq<Clause>) {
    clauses != [] && (BreaksAny(clauses[0].body) || BreaksClauses(clauses[1..]))
  }

  /** Terminating statements as the Go specification defines them; `do.Fail` is an ordinary call
      to the compiler. `wide` adds what the rewrite knows besides. */
  predicate Ends(s: Stmt, wide: bool)
    decreases s
  {
    match s
    case Return(_) => true
    case PanicWith(_) => true
    case FailWith(_) => wide
    case Break => wide
    case Continue => wide
    case Block(list) => list != [] && Ends(list[|list| - 1], wide)
    case If(_, _, thn, kind, els) =>
      kind != NoElse && thn != [] && Ends(thn[|thn| - 1], wide) && els != [] && Ends(els[|els| - 1], wide)
    case For(_, when, _, body) => when == [] && !BreaksAny(body)
    case Switch(_, _, clauses) => HasDefault(clauses) && EndsClauses(clauses, wide) && !BreaksClauses(clauses)
    case _ => false
  }

  predicate EndsClauses(clauses: seq<Clause>, wide: bool)
    decreases clauses
  {
    clauses != [] ==>
      && clauses[0].body != [] && Ends(clauses[0].body[|clauses[0].body| - 1], wide)
      && EndsClauses(clauses[1..], wide)
  }

  predicate EndsList(list: seq<Stmt>, wide: bool) {
    list != [] && Ends(list[|list| - 1], wide)
  }

  lemma {:induction false} ClauseFacts(clauses: seq<Clause>, wide: bool, i: nat)
    requires i < |clauses|
    ensures EndsClauses(clauses, wide) ==> EndsList(clauses[i].body, wide)
    ensures !BreaksClauses(clauses) ==> !BreaksAny(clauses[i].body)
    ensures !ContinuesClauses(clauses) ==> !ContinuesAny(clauses[i].body)
  {
    if i > 0 {
      ClauseFacts(clauses[1..], wide, i - 1);
    }
  }

  lemma {:induction false} TerminatesEnds(s: Stmt, jumps: Jumps)
    requires Terminates(s, jumps)
    ensures Ends(s, true)
    decreases s
  {
    match s
    case Block(list) => TerminatesEnds(list[|list| - 1], jumps);
    case If(_, _, thn, _, els) =>
      TerminatesEnds(thn[|thn| - 1], jumps);
      TerminatesEnds(els[|els| - 1], jumps);
    case _ =>
  }

  /** What a statement can and cannot end as: it jumps nowhere, leaves by break or continue only
      where it holds one, and does not run off its end if it is a terminating one. */
  ghost predicate Flows(s: Stmt, ending: Ending) {
    && !ending.Jumped?
    && (ending.Broke? ==> Breaks(s))
    && (ending.Continued? ==> Continues(s))
    && (ending.Normal? ==> !Ends(s, true) && !Ends(s, false))
  }

  ghost predicate ListFlows(list: seq<Stmt>, ending: Ending) {
    && !ending.Jumped?
    && (ending.Broke? ==> BreaksAny(list))
    && (ending.Continued? ==> ContinuesAny(list))
    && (ending.Normal? ==> !EndsList(list, true) && !EndsList(list, false))
  }

  lemma {:induction false} ExecFlows(host: Host, s: Stmt, m: nat, temps: Temps, st: State)
    requires Plain(s, m)
    ensures Flows(s, Exec(host, s, temps, st).0)
    decreases st.gas, Size(s), 2
  {
    match s
    case Block(list) => ExecListFlows(host, list, m, temps, st);
    case If(_, _, _, _, _) => IfFlows(host, s, m, temps, st);
    case Switch(_, _, _) => SwitchFlows(host, s, m, temps, st);
    case For(init, _, _, _) =>
      NeverLeaves(host, init, m, temps, st);
      IterateFlows(host, s, m, temps, ExecList(host, init, temps, st).1);
    case Range(_, over, _, _) =>
      var (v, st1) := Evaluate(host, over, temps, st);
      if v.Got? {
        RangeFlows(host, s, v.value, 0, m, temps, st1);
      }
    case _ =>
  }

  lemma {:induction false} IfFlows(host: Host, s: Stmt, m: nat, temps: Temps, st: State)
    requires s.If? && Plain(s, m)
    ensures Flows(s, Exec(host, s, temps, st).0)
    decreases st.gas, Size(s), 1
  {
    NeverLeaves(host, s.init, m, temps, st);
    var (ending, st1) := ExecList(host, s.init, temps, st);
    var (holds, st2) := Guard(host, [s.cond], temps, st1);
    ExecListFlows(host, s.thn, m, temps, st2);
    ExecListFlows(host, s.els, m, temps, st2);
  }

  lemma {:induction false} SwitchFlows(host: Host, s: Stmt, m: nat, temps: Temps, st: State)
    requires s.Switch? && Plain(s, m)
    ensures Flows(s, Exec(host, s, temps, st).0)
    decreases st.gas, Size(s), 1
  {
    NeverLeaves(host, s.init, m, temps, st);
    var (ending, st1) := ExecList(host, s.init, temps, st);
    var (v, st2) := Evaluate(host, s.tag, temps, st1);
    if ending.Normal? && v.Got? {
      var (chosen, st3) := Choose(host, s.clauses, 0, v.value, temps, st2);
      ChosenUnlessNone(host, s.clauses, 0, v.value, temps, st2);
      if chosen.Got? && chosen.value < |s.clauses| {
        PlainClause(s.clauses, m, chosen.value);
        ClauseFacts(s.clauses, true, chosen.value);
        ClauseFacts(s.clauses, false, chosen.value);
        ExecListFlows(host, s.clauses[chosen.value].body, m, temps, st3);
      }
    }
  }

  /** A switch with a default clause always runs one. */
  lemma {:induction false} ChosenUnlessNone(host: Host, clauses: seq<Clause>, from: nat, tag: Datum, temps: Temps, st: State)
    requires from <= |clauses|
    ensures var chosen := Choose(host, clauses, from, tag, temps, st).0;
            HasDefault(clauses) && chosen.Got? ==> chosen.value < |clauses|
    decreases |clauses| - from
  {
    if from < |clauses| {
      ChosenUnlessNone(host, clauses, from + 1, tag, temps, MatchCases(host, clauses[from].cases, tag, temps, st).1);
    }
  }

  lemma {:induction false} ExecListFlows(host: Host, list: seq<Stmt>, m: nat, temps: Temps, st: State)
    requires AllPlainStmts(list, m)
    ensures ListFlows(list, ExecList(host, list, temps, st).0)
    decreases st.gas, ListSize(list), 3
  {
    if list != [] {
      ExecFlows(host, list[0], m, temps, st);
      var (ending, st1) := Exec(host, list[0], temps, st);
      if ending.Normal? {
        ExecListFlows(host, list[1..], m, temps, st1);
        assert |list| > 1 ==> list[1..][|list| - 2] == list[|list| - 1];
      }
    }
  }

  lemma {:induction false} IterateFlows(host: Host, s: Stmt, m: nat, temps: Temps, st: State)
    requires s.For? && Plain(s, m)
    ensures Flows(s, Iterate(host, s, temps, st).0)
    decreases st.gas, Size(s), 1
  {
    var (holds, st1) := Guard(host, s.when, temps, st);
    if holds.Got? && holds.value {
      ExecListFlows(host, s.body, m, temps, st1);
      var (ending, st2) := ExecList(host, s.body, temps, st1);
      NextFlows(host, s, ending, m, temps, st2);
    }
  }

  lemma {:induction false} NextFlows(host: Host, s: Stmt, ending: Ending, m: nat, temps: Temps, st: State)
    requires s.For? && Plain(s, m) && ListFlows(s.body, ending)
    ensures Flows(s, NextIteration(host, s, ending, temps, st).0)
    decreases st.gas, Size(s), 0
  {
    if ending.Normal? || ending.Continued? {
      NextUnfolds(host, s, ending, temps, st);
      var post := ExecPost(host, s.post, temps, Renewed(st, LoopVars(s.init)));
      if post.0 == Normal && post.1.gas > 0 {
        IterateFlows(host, s, m, temps, post.1.(gas := post.1.gas - 1));
      }
    }
  }

  lemma {:induction false} RangeFlows(host: Host, s: Stmt, over: Datum, index: int, m: nat, temps: Temps, st: State)
    requires s.Range? && Plain(s, m)
    ensures Flows(s, RangeFrom(host, s, over, index, temps, st).0)
    decreases st.gas, Size(s), 1
  {
    if index < LoopLimit(host, s.kind, over) {
      var st0 := Iteration(host, s.kind, s.bound, over, index, st);
      ExecListFlows(host, s.body, m, temps, st0);
      var (ending, st1) := ExecList(host, s.body, temps, st0);
      if (ending.Normal? || ending.Continued?) && st1.gas > 0 {
        RangeFlows(host, s, over, index + 1, m, temps, st1.(gas := st1.gas - 1));
      }
    }
  }

  // Unshared variables --------------------------------------------------------------------

  /** These variables hold their values themselves: nothing else can reach them. */
  predicate Owned(st: State, xs: seq<Name>) {
    forall x :: x in xs ==> x in st.vars && st.vars[x].Own?
  }

  /** No variable of these has its address taken. */
  predicate Untaken(e: Expr, xs: seq<Name>) {
    match e
    case AddrOf(x) => x !in xs
    case Prim(_, args) => AllUntaken(args, xs)
    case Call(_, args) => AllUntaken(args, xs)
    case Await(fx, _) => Untaken(fx, xs)
    case AndAlso(l, r) => Untaken(l, xs) && Untaken(r, xs)
    case OrElse(l, r) => Untaken(l, xs) && Untaken(r, xs)
    case _ => true
  }

  predicate AllUntaken(es: seq<Expr>, xs: seq<Name>) {
    es != [] ==> Untaken(es[0], xs) && AllUntaken(es[1..], xs)
  }

  /** Copying variables nothing shares is no change at all. */
  lemma {:induction false} RenewOwned(st: State, xs: seq<Name>)
    requires Owned(st, xs)
    ensures Renewed(st, xs) == st
  {
    if xs != [] {
      assert xs[0] in xs;
      assert st.vars[xs[0] := st.vars[xs[0]]] == st.vars;
      RenewOwned(st, xs[1..]);
    }
  }

  lemma {:induction false} RenewedOwns(st: State, xs: seq<Name>, before: seq<Name>)
    requires Owned(st, before)
    ensures Owned(Renewed(st, xs), xs) && Owned(Renewed(st, xs), before)
    decreases |xs|
  {
    if xs != [] {
      var st1 := st.Declare(xs[0], st.Read(xs[0]));
      RenewedOwns(st1, xs[1..], [xs[0]]);
      RenewedOwns(st1, xs[1..], before);
      assert xs[0] in [xs[0]];
    }
  }

  lemma {:induction false} OperandKeepsOwned(host: Host, e: Expr, xs: seq<Name>, temps: Temps, st: State)
    requires Untaken(e, xs) && Owned(st, xs)
    ensures Owned(Operand(host, e, temps, st).1, xs)
    decreases e
  {
    match e
    case Prim(_, args) => OperandsKeepOwned(host, args, xs, temps, st);
    case AndAlso(l, r) =>
      OperandKeepsOwned(host, l, xs, temps, st);
      OperandKeepsOwned(host, r, xs, temps, Operand(host, l, temps, st).1);
    case OrElse(l, r) =>
      OperandKeepsOwned(host, l, xs, temps, st);
      OperandKeepsOwned(host, r, xs, temps, Operand(host, l, temps, st).1);
    case _ =>
  }

  lemma {:induction false} OperandsKeepOwned(host: Host, es: seq<Expr>, xs: seq<Name>, temps: Temps, st: State)
    requires AllUntaken(es, xs) && Owned(st, xs)
    ensures Owned(Operands(host, es, temps, st).1, xs)
    decreases es
  {
    if es != [] {
      OperandKeepsOwned(host, es[0], xs, temps, st);
      OperandsKeepOwned(host, es[1..], xs, temps, Operand(host, es[0], temps, st).1);
    }
  }

  lemma {:induction false} ResolveKeepsOwned(host: Host, e: Expr, xs: seq<Name>, temps: Temps, st: State)
    requires Untaken(e, xs) && Owned(st, xs)
    ensures var (r, st') := Resolve(host, e, temps, st); Owned(st', xs) && (r.Got? ==> Untaken(r.value, xs))
    decreases e, 1
  {
    match e
    case Prim(_, args) => ResolveAllKeepsOwned(host, args, xs, temps, st);
    case Call(_, args) =>
      ResolveAllKeepsOwned(host, args, xs, temps, st);
      var (es, st1) := ResolveAll(host, args, temps, st);
      if es.Got? {
        OperandsKeepOwned(host, es.value, xs, temps, st1);
      }
    case Await(fx, _) =>
      ResolveKeepsOwned(host, fx, xs, temps, st);
      var (e', st1) := Resolve(host, fx, temps, st);
      if e'.Got? {
        OperandKeepsOwned(host, e'.value, xs, temps, st1);
      }
    case AndAlso(_, _) => ResolveEitherKeepsOwned(host, e, xs, temps, st);
    case OrElse(_, _) => ResolveEitherKeepsOwned(host, e, xs, temps, st);
    case _ =>
  }

  lemma {:induction false} ResolveEitherKeepsOwned(host: Host, e: Expr, xs: seq<Name>, temps: Temps, st: State)
    requires (e.AndAlso? || e.OrElse?) && Untaken(e, xs) && Owned(st, xs)
    ensures var (r, st') := Resolve(host, e, temps, st); Owned(st', xs) && (r.Got? ==> Untaken(r.value, xs))
    decreases e, 0
  {
    ResolveKeepsOwned(host, e.left, xs, temps, st);
    var (l, st1) := Resolve(host, e.left, temps, st);
    if l.Got? {
      OperandKeepsOwned(host, l.value, xs, temps, st1);
      ResolveKeepsOwned(host, e.right, xs, temps, Operand(host, l.value, temps, st1).1);
    }
  }

  lemma {:induction false} ResolveAllKeepsOwned(host: Host, es: seq<Expr>, xs: seq<Name>, temps: Temps, st: State)
    requires AllUntaken(es, xs) && Owned(st, xs)
    ensures var (r, st') := ResolveAll(host, es, temps, st); Owned(st', xs) && (r.Got? ==> AllUntaken(r.value, xs))
    decreases es, 0
  {
    if es != [] {
      ResolveKeepsOwned(host, es[0], xs, temps, st);
      var (e, st1) := Resolve(host, es[0], temps, st);
      if e.Got? {
        ResolveAllKeepsOwned(host, es[1..], xs, temps, st1);
        var (rest, _) := ResolveAll(host, es[1..], temps, st1);
        if rest.Got? {
          assert ([e.value] + rest.value)[1..] == rest.value;
        }
      }
    }
  }

  lemma {:induction false} StoreKeepsOwned(host: Host, targets: seq<Target>, pointers: seq<Datum>, values: seq<Datum>, xs: seq<Name>, st: State)
    requires Owned(st, xs)
    ensures Owned(StoreInto(host, targets, pointers, values, st), xs)
  {
    if targets != [] && values != [] {
      var v := values[0];
      match targets[0]
      case New(x) => StoreKeepsOwned(host, targets[1..], pointers, values[1..], xs, st.Declare(x, v));
      case Old(x) => StoreKeepsOwned(host, targets[1..], pointers, values[1..], xs, st.Write(x, v));
      case Blank => StoreKeepsOwned(host, targets[1..], pointers, values[1..], xs, st);
      case Into =>
        if pointers != [] && pointers[0].Pointer? {
          StoreKeepsOwned(host, targets[1..], pointers[1..], values[1..], xs, st.Poke(pointers[0].cell, v));
        }
    }
  }

  /** A post statement that takes no address of the loop's variables leaves them unshared. */
  lemma PostKeepsOwned(host: Host, post: seq<Stmt>, xs: seq<Name>, temps: Temps, st: State)
    requires Owned(st, xs) && (post != [] && post[0].Assign? ==> AllUntaken(post[0].es, xs))
    ensures Owned(ExecPost(host, post, temps, st).1, xs)
  {
    if post != [] && post[0].Assign? {
      var es := post[0].es;
      ResolveAllKeepsOwned(host, es, xs, temps, st);
      var (es', st1) := ResolveAll(host, es, temps, st);
      if es'.Got? {
        OperandsKeepOwned(host, es'.value, xs, temps, st1);
        var (vs, st2) := Operands(host, es'.value, temps, st1);
        if vs.Got? {
          var p := if Pointers(post[0].targets) <= |vs.value| then Pointers(post[0].targets) else 0;
          StoreKeepsOwned(host, post[0].targets, vs.value[..p], Spread(host, vs.value[p..], |post[0].targets|), xs, st2);
        }
      }
    }
  }

  lemma {:induction false} StoreOwns(host: Host, targets: seq<Target>, values: seq<Datum>, st: State)
    requires |values| >= |targets| && Pointers(targets) == 0
    ensures Owned(StoreInto(host, targets, [], values, st), NewNames(targets))
  {
    if targets != [] {
      var v, rest := values[0], targets[1..];
      match targets[0]
      case New(x) =>
        StoreOwns(host, rest, values[1..], st.Declare(x, v));
        StoreKeepsOwned(host, rest, [], values[1..], [x], st.Declare(x, v));
        assert x in [x];
      case Old(x) => StoreOwns(host, rest, values[1..], st.Write(x, v));
      case Blank => StoreOwns(host, rest, values[1..], st);
      case Into =>
    }
  }

  /** The := of a loop header leaves the variables it declares unshared. */
  lemma InitOwns(host: Host, init: seq<Stmt>, m: nat, temps: Temps, st: State)
    requires Simple(init, m) && Covered(init)
    requires ExecList(host, init, temps, st).0 == Normal
    ensures Owned(ExecList(host, init, temps, st).1, LoopVars(init))
  {
    if init != [] && init[0].Assign? && LoopVars(init) != [] {
      assert init[1..] == [];
      var (vs, st1) := EvaluateAll(host, init[0].es, temps, st);
      EvaluateAllCounts(host, init[0].es, temps, st);
      assert vs.value[..0] == [] && vs.value[0..] == vs.value;
      StoreOwns(host, init[0].targets, Spread(host, vs.value, |init[0].targets|), st1);
    }
  }

  /** A := has a value for every name it declares. */
  predicate Covered(init: seq<Stmt>) {
    LoopVars(init) != [] ==>
      Pointers(init[0].targets) == 0 && (|init[0].es| == |init[0].targets| || |init[0].es| == 1)
  }

  /** In every translated loop the post statement takes no address of the loop's own variables. */
  predicate Sound(s: Stmt)
    decreases s
  {
    match s
    case Block(list) => AllSound(list)
    case If(_, _, thn, _, els) => AllSound(thn) && AllSound(els)
    case Switch(_, _, clauses) => AllSoundClauses(clauses)
    case For(init, _, post, body) =>
      && Covered(init) && AllSound(body)
      && (Needs(s) && post != [] && post[0].Assign? ==> AllUntaken(post[0].es, LoopVars(init)))
    case Range(_, _, _, body) => AllSound(body)
    case _ => true
  }

  predicate AllSound(list: seq<Stmt>)
    decreases list
  {
    list != [] ==> Sound(list[0]) && AllSound(list[1..])
  }

  predicate AllSoundClauses(clauses: seq<Clause>)
    decreases clauses
  {
    clauses != [] ==> AllSound(clauses[0].body) && AllSoundClauses(clauses[1..])
  }

  lemma {:induction false} SoundClause(clauses: seq<Clause>, i: nat)
    requires AllSoundClauses(clauses) && i < |clauses|
    ensures AllSound(clauses[i].body)
  {
    if i > 0 {
      SoundClause(clauses[1..], i - 1);
    }
  }
}
