/** Why a loop's body may not declare a name spelled like one of the loop's variables: the emitted
    back edge passes whatever that spelling denotes where it stands. */
module RewriteShadow {
  import opened Wrappers
  import opened Direct
  import opened Rewrite
  import opened RewriteHoist
  import opened RewriteSpell
  import opened RewriteFlow
  import opened RewriteFollow
  import opened RewriteScopes
  import opened RewriteCorrect
  import opened RewriteLimits
  import opened RewriteSharing

  // What a body declares ------------------------------------------------------------------

  /** Every name declared anywhere in the statement is one of these. */
  predicate DeclaresOnly(s: Stmt, ys: seq<Name>)
    decreases s
  {
    match s
    case Assign(targets, _) => forall y :: y in NewNames(targets) ==> y in ys
    case Block(list) => AllDeclareOnly(list, ys)
    case Declaring(list) => AllDeclareOnly(list, ys)
    case If(init, _, thn, _, els) => AllDeclareOnly(init, ys) && AllDeclareOnly(thn, ys) && AllDeclareOnly(els, ys)
    case Switch(init, _, clauses) => AllDeclareOnly(init, ys) && ClausesDeclareOnly(clauses, ys)
    case For(init, _, post, body) => AllDeclareOnly(init, ys) && AllDeclareOnly(post, ys) && AllDeclareOnly(body, ys)
    case Range(_, _, bound, body) => (forall y :: y in NewNames(bound) ==> y in ys) && AllDeclareOnly(body, ys)
    case _ => true
  }

  predicate AllDeclareOnly(list: seq<Stmt>, ys: seq<Name>)
    decreases list
  {
    list != [] ==> DeclaresOnly(list[0], ys) && AllDeclareOnly(list[1..], ys)
  }

  predicate ClausesDeclareOnly(clauses: seq<Clause>, ys: seq<Name>)
    decreases clauses
  {
    clauses != [] ==> AllDeclareOnly(clauses[0].body, ys) && ClausesDeclareOnly(clauses[1..], ys)
  }

  // Where nothing is spelled like a loop variable -----------------------------------------

  /** The loop's variables denote themselves here, and nothing else is spelled like them. */
  predicate InSight(xs: seq<Name>, lex: Lexical) {
    Denoted(xs, lex.Visible()) == xs
  }

  lemma {:induction false} DenotedPast(xs: seq<Name>, names: seq<Name>, more: seq<Name>)
    requires NoneOf(names, xs)
    ensures Denoted(xs, names + more) == Denoted(xs, more)
  {
    forall i | 0 <= i < |xs|
      ensures Denotes(xs[i], names + more) == Denotes(xs[i], more)
    {
      DenotesPast(xs[i], names, more);
    }
  }

  lemma {:induction false} StaysInSight(xs: seq<Name>, names: seq<Name>, lex: Lexical)
    requires InSight(xs, lex) && NoneOf(names, xs)
    ensures InSight(xs, lex.With(names)) && InSight(xs, Parameters(names, lex)) && InSight(xs, lex.Enter())
  {
    DenotedPast(xs, names, lex.Visible());
    assert (names + lex.here) + lex.above == names + lex.Visible();
    assert [] + lex.Visible() == lex.Visible();
  }

  lemma {:induction false} ReadDeclaresNoMore(targets: seq<Target>, lex: Lexical)
    ensures forall x :: x in NewNames(ReadTargets(targets, lex)) ==> x in NewNames(targets)
  {
    if targets != [] {
      ReadDeclaresNoMore(targets[1..], lex);
      assert ReadTargets(targets, lex)[1..] == ReadTargets(targets[1..], lex);
    }
  }

  lemma {:induction false} InSightAfter(s: Stmt, xs: seq<Name>, ys: seq<Name>, lex: Lexical)
    requires InSight(xs, lex) && DeclaresOnly(s, ys) && NoneOf(ys, xs)
    ensures InSight(xs, After(s, lex))
    decreases s
  {
    match s
    case Assign(targets, _) =>
      ReadDeclaresNoMore(targets, lex);
      StaysInSight(xs, NewNames(ReadTargets(targets, lex)), lex);
    case Declaring(list) => InSightAfterAll(list, xs, ys, lex);
    case _ =>
  }

  lemma {:induction false} InSightAfterAll(list: seq<Stmt>, xs: seq<Name>, ys: seq<Name>, lex: Lexical)
    requires InSight(xs, lex) && AllDeclareOnly(list, ys) && NoneOf(ys, xs)
    ensures InSight(xs, AfterList(list, lex))
    decreases list
  {
    if list != [] {
      InSightAfter(list[0], xs, ys, lex);
      InSightAfterAll(list[1..], xs, ys, After(list[0], lex));
    }
  }

  /** After a header's init, outside and inside the blocks it is the header of. */
  lemma {:induction false} InSightInside(init: seq<Stmt>, xs: seq<Name>, ys: seq<Name>, lex: Lexical)
    requires InSight(xs, lex) && AllDeclareOnly(init, ys) && NoneOf(ys, xs)
    ensures InSight(xs, lex.Enter())
    ensures InSight(xs, AfterList(init, lex.Enter())) && InSight(xs, AfterList(init, lex.Enter()).Enter())
  {
    StaysInSight(xs, [], lex);
    InSightAfterAll(init, xs, ys, lex.Enter());
    StaysInSight(xs, [], AfterList(init, lex.Enter()));
  }

  /** A jump that passes nothing, and the same jump or one back to the loop. */
  predicate Swapped(a: Jump, b: Jump, xs: seq<Name>) {
    a == b || (a == ToContinuation(0) && b == ToNext(0, xs))
  }

  predicate SwappedBoth(a: Jumps, b: Jumps, xs: seq<Name>) {
    Swapped(a.brk, b.brk, xs) && Swapped(a.cont, b.cont, xs)
  }

  lemma {:induction false} TerminatesAlike(s: Stmt, a: Jumps, b: Jumps)
    requires (a.brk == Nowhere <==> b.brk == Nowhere) && (a.cont == Nowhere <==> b.cont == Nowhere)
    ensures Terminates(s, a) == Terminates(s, b)
    decreases s
  {
    match s
    case Block(list) => if list != [] { TerminatesAlike(list[|list| - 1], a, b); }
    case If(_, _, thn, _, els) =>
      if thn != [] { TerminatesAlike(thn[|thn| - 1], a, b); }
      if els != [] { TerminatesAlike(els[|els| - 1], a, b); }
    case _ =>
  }

  lemma {:induction false} TextInSight(s: Stmt, a: Jumps, b: Jumps, xs: seq<Name>, ys: seq<Name>, lex: Lexical)
    requires SwappedBoth(a, b, xs) && InSight(xs, lex) && DeclaresOnly(s, ys) && NoneOf(ys, xs) && IntactText(s, a, lex)
    ensures IntactText(s, b, lex)
    decreases s
  {
    match s
    case Block(list) =>
      StaysInSight(xs, [], lex);
      TextsInSight(list, a, b, xs, ys, lex.Enter());
    case If(init, _, thn, _, els) =>
      InSightInside(init, xs, ys, lex);
      TextsInSight(thn, a, b, xs, ys, AfterList(init, lex.Enter()).Enter());
      TextsInSight(els, a, b, xs, ys, AfterList(init, lex.Enter()).Enter());
    case Switch(init, _, clauses) =>
      InSightInside(init, xs, ys, lex);
      ClausesInSight(clauses, Jumps(Nowhere, a.cont), Jumps(Nowhere, b.cont), xs, ys, AfterList(init, lex.Enter()));
    case _ =>
  }

  lemma {:induction false} TextsInSight(list: seq<Stmt>, a: Jumps, b: Jumps, xs: seq<Name>, ys: seq<Name>, lex: Lexical)
    requires SwappedBoth(a, b, xs) && InSight(xs, lex) && AllDeclareOnly(list, ys) && NoneOf(ys, xs) && IntactTexts(list, a, lex)
    ensures IntactTexts(list, b, lex)
    decreases list
  {
    if list != [] {
      TextInSight(list[0], a, b, xs, ys, lex);
      InSightAfter(list[0], xs, ys, lex);
      TextsInSight(list[1..], a, b, xs, ys, After(list[0], lex));
    }
  }

  lemma {:induction false} ClausesInSight(clauses: seq<Clause>, a: Jumps, b: Jumps, xs: seq<Name>, ys: seq<Name>, lex: Lexical)
    requires SwappedBoth(a, b, xs) && InSight(xs, lex) && ClausesDeclareOnly(clauses, ys) && NoneOf(ys, xs)
    requires IntactClauses(clauses, a, lex)
    ensures IntactClauses(clauses, b, lex)
    decreases clauses
  {
    if clauses != [] {
      StaysInSight(xs, [], lex);
      TextsInSight(clauses[0].body, a, b, xs, ys, lex.Enter());
      ClausesInSight(clauses[1..], a, b, xs, ys, lex);
    }
  }

  /** Where nothing is spelled like the loop's variables, a list that is intact without the jump back
      to the loop is intact with it. */
  lemma {:induction false} ListInSight(list: seq<Stmt>, k: Jump, k': Jump, a: Jumps, b: Jumps, xs: seq<Name>, ys: seq<Name>, lex: Lexical)
    requires Swapped(k, k', xs) && SwappedBoth(a, b, xs) && InSight(xs, lex) && AllDeclareOnly(list, ys) && NoneOf(ys, xs)
    requires IntactList(list, k, a, lex)
    ensures IntactList(list, k', b, lex)
    decreases ListSize(list), 4
  {
    if list != [] {
      var s, rest := list[0], list[1..];
      if Needs(s) {
        StatementInSight(s, rest, k, k', a, b, xs, ys, lex);
      } else {
        TextInSight(s, a, b, xs, ys, lex);
        TerminatesAlike(s, a, b);
        InSightAfter(s, xs, ys, lex);
        if !(rest == [] && Terminates(s, a)) {
          ListInSight(rest, k, k', a, b, xs, ys, After(s, lex));
        }
      }
    }
  }

  lemma {:induction false} StatementInSight(s: Stmt, rest: seq<Stmt>, k: Jump, k': Jump, a: Jumps, b: Jumps, xs: seq<Name>, ys: seq<Name>, lex: Lexical)
    requires Swapped(k, k', xs) && SwappedBoth(a, b, xs) && InSight(xs, lex) && NoneOf(ys, xs)
    requires DeclaresOnly(s, ys) && AllDeclareOnly(rest, ys) && IntactStatement(s, rest, k, a, lex)
    ensures IntactStatement(s, rest, k', b, lex)
    decreases Size(s) + ListSize(rest), 3
  {
    if !IsCompound(s) {
      TerminatesAlike(s, a, b);
      if !Terminates(s, a) {
        InSightAfter(s, xs, ys, lex);
        ListInSight(rest, k, k', a, b, xs, ys, After(s, lex));
      }
    } else if rest == [] {
      InsideInSight(s, k, k', a, b, xs, ys, lex);
    } else {
      InsideInSight(s, ToContinuation(0), ToContinuation(0), a, b, xs, ys, lex);
      ListInSight(rest, k, k', a, b, xs, ys, lex);
    }
  }

  lemma {:induction false} InsideInSight(s: Stmt, k: Jump, k': Jump, a: Jumps, b: Jumps, xs: seq<Name>, ys: seq<Name>, lex: Lexical)
    requires Swapped(k, k', xs) && SwappedBoth(a, b, xs) && InSight(xs, lex) && NoneOf(ys, xs)
    requires IsCompound(s) && DeclaresOnly(s, ys) && IntactInside(s, k, a, lex)
    ensures IntactInside(s, k', b, lex)
    decreases Size(s), 1
  {
    match s
    case Block(list) =>
      StaysInSight(xs, [], lex);
      ListInSight(list, k, k', a, b, xs, ys, lex.Enter());
    case If(init, cond, thn, kind, els) =>
      if init != [] && (NeedsAny(init) || AwaitsIn(cond)) {
        SplitInSight(s, If([], cond, thn, kind, els), k, k', a, b, xs, ys, lex);
      } else {
        InSightInside(init, xs, ys, lex);
        var inner := AfterList(init, lex.Enter());
        ListInSight(thn, k, k', a, b, xs, ys, inner.Enter());
        if kind != NoElse {
          ListInSight(els, k, k', a, b, xs, ys, inner.Enter());
        }
      }
    case Switch(init, tag, clauses) =>
      if init != [] && (NeedsAny(init) || AwaitsIn(tag)) {
        SplitInSight(s, Switch([], tag, clauses), k, k', a, b, xs, ys, lex);
      } else {
        InSightInside(init, xs, ys, lex);
        BodiesInSight(clauses, k, k', Jumps(k, a.cont), Jumps(k', b.cont), xs, ys, AfterList(init, lex.Enter()).Enter());
      }
    case For(_, _, _, _) => LoopInSight(s, k, k', xs, ys, lex);
    case Range(_, _, _, _) => LoopInSight(s, k, k', xs, ys, lex);
  }

  lemma {:induction false} SplitInSight(s: Stmt, bare: Stmt, k: Jump, k': Jump, a: Jumps, b: Jumps, xs: seq<Name>, ys: seq<Name>, lex: Lexical)
    requires Swapped(k, k', xs) && SwappedBoth(a, b, xs) && InSight(xs, lex) && NoneOf(ys, xs)
    requires (s.If? || s.Switch?) && s.init != [] && DeclaresOnly(s, ys)
    requires s.If? ==> bare == If([], s.cond, s.thn, s.elseKind, s.els)
    requires s.Switch? ==> bare == Switch([], s.tag, s.clauses)
    requires IntactList(s.init + [bare], k, a, lex.Enter())
    ensures IntactList(s.init + [bare], k', b, lex.Enter())
    decreases Size(s), 0
  {
    SplitSize(s.init, s);
    StaysInSight(xs, [], lex);
    assert DeclaresOnly(bare, ys) && [bare][1..] == [];
    DeclareOnlyBoth(s.init, [bare], ys);
    ListInSight(s.init + [bare], k, k', a, b, xs, ys, lex.Enter());
  }

  lemma {:induction false} DeclareOnlyBoth(a: seq<Stmt>, b: seq<Stmt>, ys: seq<Name>)
    requires AllDeclareOnly(a, ys) && AllDeclareOnly(b, ys)
    ensures AllDeclareOnly(a + b, ys)
  {
    if a == [] {
      assert a + b == b;
    } else {
      assert (a + b)[1..] == a[1..] + b;
      DeclareOnlyBoth(a[1..], b, ys);
    }
  }

  lemma {:induction false} BodiesInSight(clauses: seq<Clause>, k: Jump, k': Jump, a: Jumps, b: Jumps, xs: seq<Name>, ys: seq<Name>, lex: Lexical)
    requires Swapped(k, k', xs) && SwappedBoth(a, b, xs) && InSight(xs, lex) && ClausesDeclareOnly(clauses, ys) && NoneOf(ys, xs)
    requires IntactBodies(clauses, k, a, lex)
    ensures IntactBodies(clauses, k', b, lex)
    decreases ClausesSize(clauses), 0
  {
    if clauses != [] {
      ListInSight(clauses[0].body, k, k', a, b, xs, ys, lex);
      BodiesInSight(clauses[1..], k, k', a, b, xs, ys, lex);
    }
  }

  /** A loop inside the body has its own back edge, and leaves by the swapped jump. */
  lemma {:induction false} LoopInSight(s: Stmt, k: Jump, k': Jump, xs: seq<Name>, ys: seq<Name>, lex: Lexical)
    requires Swapped(k, k', xs) && InSight(xs, lex) && NoneOf(ys, xs)
    requires (s.For? || s.Range?) && DeclaresOnly(s, ys) && IntactInside(s, k, NO_JUMPS, lex)
    ensures IntactInside(s, k', NO_JUMPS, lex)
    decreases Size(s), 0
  {
    var vars := if s.For? then LoopVars(s.init) else NewNames(s.bound);
    var cont := if s.For? then ToNext(0, vars) else ToNextIndex(0, 0);
    assert s.For? && |s.init| == 1 ==> DeclaresOnly(s.init[0], ys);
    StaysInSight(xs, vars, lex);
    StaysInSight(xs, [], Parameters(vars, lex));
    ListInSight(s.body, cont, cont, Jumps(k, cont), Jumps(k', cont), xs, ys, Parameters(vars, lex).Enter());
  }

  // Loops whose bodies declare these names -------------------------------------------------

  /** for xs := their zero values; ; { body } */
  function Unending(xs: seq<Name>, body: seq<Stmt>): Stmt {
    For([Assign(NewTargets(xs), Zeros(xs))], [], [], body)
  }

  /** The loops inside a body hide none of their own variables. */
  predicate OwnLoopsIntact(body: seq<Stmt>, xs: seq<Name>) {
    IntactList(body, ToContinuation(0), Jumps(Nowhere, ToContinuation(0)), Lexical([], xs))
  }

  /** Whether the rewrite compiles and keeps the meaning of this loop, if it accepts it. */
  ghost predicate KeptLoop(host: Host, xs: seq<Name>, body: seq<Stmt>, st: State) {
    var loop := [Unending(xs, body)];
    NeedsAny(body) && AllPlainStmts(body, 0) && AllSound(body) && !BreaksAny(body)
    && Resolved(loop) && OwnLoopsIntact(body, xs) && Body(loop).Emitted? ==>
      BodyCompiles(loop) && RunRewritten(host, ReadBody(loop), st) == RunGenBody(host, loop, st)
  }

  /** The rewrite keeps the meaning of every accepted body of a loop over `xs` that declares only
      these names, under every host and from every state. */
  ghost predicate KeepsDeclaring(xs: seq<Name>, ys: seq<Name>) {
    forall host: Host, body: seq<Stmt>, st: State :: AllDeclareOnly(body, ys) ==> KeptLoop(host, xs, body, st)
  }

  lemma {:induction false} LeadDeclares(list: seq<Stmt>, ys: seq<Name>)
    requires AllDeclareOnly(list, ys)
    ensures forall y :: y in Lead(list) ==> y in ys
  {
    if list != [] && !Needs(list[0]) {
      LeadDeclares(list[1..], ys);
    }
  }

  lemma {:induction false} UnendingNeedsNothing(xs: seq<Name>, body: seq<Stmt>)
    ensures var s := Unending(xs, body);
            && !NeedsAny(s.init) && LoopVars(s.init) == xs && Needs(s) == NeedsAny(body)
            && (AllPlainStmts(body, 0) ==> Plain(s, 0)) && Covered(s.init)
  {
    var s := Unending(xs, body);
    LoopDeclares(xs);
    assert s.init[1..] == [] && !Mixed(s.init[0].targets) && Plain(s.init[0], 0);
  }

  /** A body that declares nothing spelled like a loop variable hides none. */
  lemma {:induction false} ApartIsKept(host: Host, xs: seq<Name>, ys: seq<Name>, body: seq<Stmt>, st: State)
    requires Once(xs) && NoneOf(ys, xs) && AllDeclareOnly(body, ys)
    ensures KeptLoop(host, xs, body, st)
  {
    var s := Unending(xs, body);
    if NeedsAny(body) && AllPlainStmts(body, 0) && AllSound(body) && !BreaksAny(body)
       && Resolved([s]) && OwnLoopsIntact(body, xs) && Body([s]).Emitted? {
      UnendingNeedsNothing(xs, body);
      Alone(s, Nowhere, NO_JUMPS);
      LeadDeclares(body, ys);
      LoopScope(xs);
      DenotedThemselves(xs, xs);
      var cont := ToNext(0, xs);
      ListInSight(body, ToContinuation(0), cont, Jumps(Nowhere, ToContinuation(0)), Jumps(Nowhere, cont), xs, ys, Lexical([], xs));
      LoopUnshadowed(s, xs);
      assert [s][|[s]| - 1] == s;
      RewritePreservesMeaning(host, [s], st);
    }
  }

  // A body that shows what is passed on ---------------------------------------------------

  /** do.Await(x); y := v */
  function HidingRound(x: Name, y: Name, v: Datum): seq<Stmt> {
    [Assign([Blank], [Await(Var(x), false)]), Assign([New(y)], [Lit(v)])]
  }

  /** Awaiting `v` is refused, and awaiting anything else answers; the store is left alone. */
  ghost predicate Refusing(host: Host, v: Datum) {
    forall fx, store :: host.settle(fx, store).1 == store && (host.settle(fx, store).0.Unanswered? <==> fx == v)
  }

  ghost function RefusingHost(others: Host, v: Datum): (host: Host)
    ensures Refusing(host, v)
  {
    others.(settle := (fx, store: Store) => (if fx == v then Unanswered(others.failure(v)) else Answered(Number(0)), store))
  }

  lemma {:induction false} AwaitsFirst(host: Host, x: Name, y: Name, v: Datum, temps: Temps, st: State)
    requires Refusing(host, v)
    ensures var fx := st.Read(x);
            ExecList(host, HidingRound(x, y, v), temps, st)
             == if fx == v then (Ended(Refused(host.settle(fx, st.store).0.cause)), st.Seen(Awaited(fx)))
                else (Normal, st.Seen(Awaited(fx)).Declare(y, v))
  {
    var round := HidingRound(x, y, v);
    var fx, seen := st.Read(x), st.Seen(Awaited(st.Read(x)));
    AwaitOfVariable(host, x, v, temps, st);
    if fx != v {
      assert Evaluate(host, Lit(v), temps, seen) == (Got(v), seen);
      AssignsOne(host, New(y), Lit(v), temps, seen);
      ExecTwo(host, round[0], round[1], temps, st);
    }
  }

  lemma {:induction false} AwaitOfVariable(host: Host, x: Name, v: Datum, temps: Temps, st: State)
    requires Refusing(host, v)
    ensures var fx := st.Read(x);
            ExecAssign(host, [Blank], [Await(Var(x), false)], temps, st)
             == (if fx == v then Ended(Refused(host.settle(fx, st.store).0.cause)) else Normal, st.Seen(Awaited(fx)))
  {
    var fx, await := st.Read(x), Await(Var(x), false);
    AwaitIsAwaitExpr(host, Var(x), false, temps, st);
    assert Evaluate(host, Var(x), temps, st) == (Got(fx), st);
    assert Settle(host, fx, st).1 == st.Seen(Awaited(fx));
    if fx != v {
      AssignsOne(host, Blank, await, temps, st);
    } else {
      EvaluatesOne(host, await, temps, st);
    }
  }

  /** As Go runs it the loop variable never changes, and every round awaits its zero value. */
  lemma {:induction false} HidingNeverEndsInGo(host: Host, xs: seq<Name>, x: Name, y: Name, v: Datum, st: State)
    requires Refusing(host, v) && x in xs && y !in xs && v != x.zero && Owned(st, xs) && st.Read(x) == x.zero
    ensures Iterate(host, Unending(xs, HidingRound(x, y, v)), map[], st).0 == OutOfGas
    decreases st.gas
  {
    var s := Unending(xs, HidingRound(x, y, v));
    var after := st.Seen(Awaited(x.zero)).Declare(y, v);
    AwaitsFirst(host, x, y, v, map[], st);
    OneBody(host, s, st);
    NextUnfolds(host, s, Normal, map[], after);
    LoopDeclares(xs);
    RenewOwned(after, xs);
    if st.gas > 0 {
      HidingNeverEndsInGo(host, xs, x, y, v, after.(gas := st.gas - 1));
    }
  }

  /** The code of the loop, with a back edge that passes these variables. */
  function HidingCode(xs: seq<Name>, x: Name, y: Name, v: Datum, passed: seq<Name>): Code {
    LoopFor(0, Unending(xs, []).init, xs, [], [], HidingBodyCode(x, y, v, ToNext(0, passed), 1), Missing)
  }

  function HidingBodyCode(x: Name, y: Name, v: Datum, k: Jump, n: nat): Code {
    FlatMap(Var(x), n, Text(Assign([Blank], [Temp(n)]), Text(Assign([New(y)], [Lit(v)]), ReturnTo(k))))
  }

  lemma {:induction false} HidingAccepted(x: Name, y: Name, v: Datum, k: Jump, n: nat)
    requires JumpBelow(k, n) && k != Nowhere
    ensures var round := HidingRound(x, y, v);
            Accepted(round, k, Jumps(Nowhere, k), n) && NeedsAny(round) && !BreaksAny(round)
  {
    var round := HidingRound(x, y, v);
    var declare := round[1];
    assert round[1..] == [declare];
    Alone(declare, k, Jumps(Nowhere, k));
    HoistOne(Await(Var(x), false), 0);
    HoistOne(Lit(v), 0);
    assert [Blank][1..] == [] && [New(y)][1..] == [] && !HasOld([New(y)][1..]);
    assert !Mixed([Blank]) && !Mixed([New(y)]);
    assert Plain(round[0], 0) && Plain(declare, 0) && Sound(round[0]) && Sound(declare);
    assert !Breaks(round[0]) && !Continues(round[0]);
  }

  lemma {:induction false} HidingEmitted(x: Name, y: Name, v: Datum, k: Jump, n: nat)
    requires k != Nowhere
    ensures List(HidingRound(x, y, v), k, Jumps(Nowhere, k), n) == Emitted(HidingBodyCode(x, y, v, k, n), n + 1)
  {
    var round := HidingRound(x, y, v);
    var await, declare, jumps := round[0], round[1], Jumps(Nowhere, k);
    var steps := [Step(Var(x), n)];
    assert round[1..] == [declare];
    Alone(declare, k, jumps);
    HoistOne(Await(Var(x), false), n);
    HoistOne(Lit(v), n + 1);
    assert Hoist(Await(Var(x), false), n) == Hoisted([] + steps, Temp(n), n + 1);
    assert HoistAll(await.es, n) == HoistedAll(steps, [Temp(n)], n + 1);
    assert [Blank][1..] == [] && [New(y)][1..] == [];
    assert !HasOld([New(y)][1..]) && !HasOld([New(y)]) && NewNames([Blank]) == [] + [];
    assert List([declare], k, jumps, n + 1) == Emitted(Text(declare, ReturnTo(k)), n + 1);
    assert steps[1..] == [];
    var text := Text(Assign([Blank], [Temp(n)]), Text(declare, ReturnTo(k)));
    assert Chain(steps, text) == FlatMap(Var(x), n, text);
    assert Statement(await, [declare], k, jumps, n) == Emitted(Chain(steps, text), n + 1);
  }

  /** The loop is emitted with a back edge that passes its variables. */
  lemma {:induction false} HidingLoopEmitted(xs: seq<Name>, x: Name, y: Name, v: Datum)
    ensures Body([Unending(xs, HidingRound(x, y, v))]) == Emitted(HidingCode(xs, x, y, v, xs), 2)
  {
    var s := Unending(xs, HidingRound(x, y, v));
    HidingAccepted(x, y, v, ToNext(0, xs), 1);
    HidingEmitted(x, y, v, ToNext(0, xs), 1);
    UnendingNeedsNothing(xs, s.body);
    assert Needs(s) && [s][1..] == [];
    assert Statement(s, [], Nowhere, NO_JUMPS, 0) == Inside(s, Nowhere, NO_JUMPS, 0) == ForLoop(s, Nowhere, 0);
  }

  /** Read as Go's compiler reads it, the back edge passes what the declaration has hidden. */
  lemma {:induction false} HidingReads(xs: seq<Name>, x: Name, y: Name, v: Datum)
    requires Once(xs) && x in xs
    ensures ReadCode(HidingCode(xs, x, y, v, xs), OUTSIDE) == HidingCode(xs, x, y, v, Denoted(xs, [y] + xs))
    ensures CompilesCode(HidingCode(xs, x, y, v, xs), OUTSIDE)
  {
    UnendingInitReads(xs);
    HidingBodyReads(xs, x, y, v);
    LoopScope(xs);
  }

  lemma {:induction false} UnendingInitReads(xs: seq<Name>)
    ensures var init := Unending(xs, []).init; ReadList(init, OUTSIDE.Enter()) == init && CompilesList(init, OUTSIDE.Enter())
  {
    var init := Unending(xs, []).init;
    ZerosRead(xs, [], OUTSIDE.Enter());
    assert OUTSIDE.Enter().Visible() == [];
    OneReads(init[0], OUTSIDE.Enter());
    MeantListCompiles(init, OUTSIDE.Enter());
  }

  lemma {:induction false} HidingBodyReads(xs: seq<Name>, x: Name, y: Name, v: Datum)
    requires Once(xs) && x in xs
    ensures var code, lex := HidingBodyCode(x, y, v, ToNext(0, xs), 1), Parameters(xs, OUTSIDE);
            CompilesCode(code, lex) && ReadCode(code, lex) == HidingBodyCode(x, y, v, ToNext(0, Denoted(xs, [y] + xs)), 1)
  {
    LoopScope(xs);
    HidingTextsRead(xs, x, y, v);
    DenotesDeclared(x, xs, []);
    assert xs + [] == xs;
  }

  lemma {:induction false} HidingTextsRead(xs: seq<Name>, x: Name, y: Name, v: Datum)
    ensures var lex := Lexical([], xs);
            var tail := Text(Assign([New(y)], [Lit(v)]), ReturnTo(ToNext(0, xs)));
            && ReadCode(tail, lex) == Text(Assign([New(y)], [Lit(v)]), ReturnTo(ToNext(0, Denoted(xs, [y] + xs))))
            && CompilesCode(tail, lex) && ReadStmt(Assign([Blank], [Temp(1)]), lex) == Assign([Blank], [Temp(1)])
            && After(Assign([Blank], [Temp(1)]), lex) == lex
  {
    var lex := Lexical([], xs);
    OneTarget(Blank, lex);
    OneTarget(New(y), lex);
    OneRespells(Temp(1), lex.Visible());
    OneRespells(Lit(v), lex.Visible());
    assert lex.With([]) == lex && lex.With([y]).Visible() == [y] + xs;
  }

  lemma {:induction false} BoundElsewhere(st: State, xs: seq<Name>, vs: seq<Datum>, x: Name)
    requires x !in xs
    ensures Bound(st, xs, vs).Read(x) == st.Read(x)
    decreases |xs|
  {
    if xs != [] && vs != [] {
      BoundElsewhere(st.Declare(xs[0], vs[0]), xs[1..], vs[1..], x);
    }
  }

  lemma {:induction false} BoundReads(st: State, xs: seq<Name>, vs: seq<Datum>, i: nat)
    requires Once(xs) && i < |xs| == |vs|
    ensures Bound(st, xs, vs).Read(xs[i]) == vs[i]
    decreases |xs|
  {
    var st1 := st.Declare(xs[0], vs[0]);
    if i == 0 {
      assert xs[0] !in xs[1..];
      BoundElsewhere(st1, xs[1..], vs[1..], xs[0]);
    } else {
      BoundReads(st1, xs[1..], vs[1..], i - 1);
    }
  }

  lemma {:induction false} RenewedReads(st: State, xs: seq<Name>, x: Name)
    ensures Renewed(st, xs).Read(x) == st.Read(x)
    decreases |xs|
  {
    if xs != [] {
      RenewedReads(st.Declare(xs[0], st.Read(xs[0])), xs[1..], x);
    }
  }

  /** A call of the emitted iteration function does what the round does, and goes on to the next. */
  lemma {:induction false} HidingEnters(host: Host, xs: seq<Name>, x: Name, y: Name, v: Datum, passed: seq<Name>, st: State)
    ensures var code, cont := HidingCode(xs, x, y, v, passed), ToNext(0, passed);
            Enter(host, code, Top, map[], st)
             == Follow(host, ExecList(host, HidingRound(x, y, v), map[], st), cont, Jumps(Nowhere, cont), InLoop(code, map[], Top), map[])
  {
    var code, cont := HidingCode(xs, x, y, v, passed), ToNext(0, passed);
    HidingAccepted(x, y, v, cont, 1);
    HidingEmitted(x, y, v, cont, 1);
    ListCorrect(host, HidingRound(x, y, v), cont, Jumps(Nowhere, cont), 1, InLoop(code, map[], Top), map[], st);
  }

  lemma {:induction false} HidingLeaps(host: Host, code: Code, passed: seq<Name>, st: State)
    requires code.LoopFor? && code.post == [] && st.gas > 0
    ensures Leap(host, ToNext(code.loop, passed), InLoop(code, map[], Top), map[], st)
         == Enter(host, code, Top, map[], Renewed(Passed(st, code.vars, passed).(gas := st.gas - 1), code.vars))
  {
  }

  /** In the rewrite the second round awaits what the first one declared. */
  lemma {:induction false} HidingEndsRewritten(host: Host, xs: seq<Name>, x: Name, y: Name, v: Datum, st: State)
    requires Refusing(host, v) && Once(xs) && x in xs && y.spelling == x.spelling && v != x.zero
    requires st.Read(x) == x.zero && st.gas > 0
    ensures Enter(host, HidingCode(xs, x, y, v, Denoted(xs, [y] + xs)), Top, map[], st).final.FailedWith?
  {
    var passed := Denoted(xs, [y] + xs);
    var code := HidingCode(xs, x, y, v, passed);
    var st1 := st.Seen(Awaited(x.zero)).Declare(y, v);
    var st2 := Renewed(Passed(st1, xs, passed).(gas := st.gas - 1), xs);
    HidingEnters(host, xs, x, y, v, passed, st);
    AwaitsFirst(host, x, y, v, map[], st);
    HidingLeaps(host, code, passed, st1);
    PassesHidden(xs, x, y, v, st1);
    HidingEnters(host, xs, x, y, v, passed, st2);
    AwaitsFirst(host, x, y, v, map[], st2);
  }

  lemma {:induction false} PassesHidden(xs: seq<Name>, x: Name, y: Name, v: Datum, st: State)
    requires Once(xs) && x in xs && y.spelling == x.spelling && st.Read(y) == v && st.gas > 0
    ensures var passed := Denoted(xs, [y] + xs);
            Renewed(Passed(st, xs, passed).(gas := st.gas - 1), xs).Read(x) == v
  {
    var passed := Denoted(xs, [y] + xs);
    var i :| 0 <= i < |xs| && xs[i] == x;
    assert passed[i] == y;
    BoundReads(st, xs, ReadAll(passed, st), i);
    RenewedReads(Passed(st, xs, passed).(gas := st.gas - 1), xs, x);
  }

  // The two apart -------------------------------------------------------------------------

  lemma {:induction false} HidingResolved(xs: seq<Name>, x: Name, y: Name, v: Datum)
    requires Once(xs) && x in xs
    ensures ReadList(HidingRound(x, y, v), Lexical([], xs)) == HidingRound(x, y, v)
  {
    var round := HidingRound(x, y, v);
    var await, declare, lex := round[0], round[1], Lexical([], xs);
    LoopScope(xs);
    DenotesDeclared(x, xs, []);
    assert xs + [] == xs;
    OneTarget(Blank, lex);
    OneTarget(New(y), lex);
    OneRespells(Await(Var(x), false), xs);
    OneRespells(Lit(v), xs);
    assert lex.With([]) == lex && After(await, lex) == lex;
    assert ReadStmt(await, lex) == await && ReadStmt(declare, lex) == declare;
    TwoRead(await, declare, lex);
  }

  lemma {:induction false} HidingIntact(xs: seq<Name>, x: Name, y: Name, v: Datum)
    ensures OwnLoopsIntact(HidingRound(x, y, v), xs)
  {
    var round := HidingRound(x, y, v);
    var await, declare, lex := round[0], round[1], Lexical([], xs);
    var k := ToContinuation(0);
    assert round[1..] == [declare] && [declare][1..] == [];
    HoistOne(Lit(v), 0);
    assert IntactList([declare], k, Jumps(Nowhere, k), lex);
    assert IntactStatement(await, [declare], k, Jumps(Nowhere, k), lex);
  }

  /** Where a loop's body declares a name spelled like one of the loop's variables, Go goes round for
      ever and the rewrite, which compiles, fails in its second round. */
  lemma {:induction false} ReportsDiffer(others: Host, xs: seq<Name>, x: Name, y: Name, st: State) returns (v: Datum)
    requires Once(xs) && x in xs && y !in xs && y.spelling == x.spelling && st.gas > 0
    ensures var host, loop := RefusingHost(others, v), [Unending(xs, HidingRound(x, y, v))];
            && Body(loop).Emitted? && Resolved(loop) && OwnLoopsIntact(HidingRound(x, y, v), xs) && BodyCompiles(loop)
            && RunGenBody(host, loop, st).final == Exhausted
            && RunRewritten(host, ReadBody(loop), st).final.FailedWith?
  {
    v := if x.zero == Number(0) then Number(1) else Number(0);
    HidingResolved(xs, x, y, v);
    LoopResolved(xs, [], HidingRound(x, y, v));
    HidingIntact(xs, x, y, v);
    HidingInGo(RefusingHost(others, v), xs, x, y, v, st);
    HidingRewritten(RefusingHost(others, v), xs, x, y, v, st);
  }

  lemma {:induction false} HidingInGo(host: Host, xs: seq<Name>, x: Name, y: Name, v: Datum, st: State)
    requires Refusing(host, v) && x in xs && y !in xs && v != x.zero
    ensures RunGenBody(host, [Unending(xs, HidingRound(x, y, v))], st).final == Exhausted
  {
    var s := Unending(xs, HidingRound(x, y, v));
    UnendingDeclares(host, xs, s.body, st);
    HidingNeverEndsInGo(host, xs, x, y, v, Overlay(st, xs));
    ListOfOne(host, s, st);
  }

  lemma {:induction false} HidingRewritten(host: Host, xs: seq<Name>, x: Name, y: Name, v: Datum, st: State)
    requires Refusing(host, v) && Once(xs) && x in xs && y.spelling == x.spelling && v != x.zero && st.gas > 0
    ensures var loop := [Unending(xs, HidingRound(x, y, v))];
            Body(loop).Emitted? && BodyCompiles(loop) && RunRewritten(host, ReadBody(loop), st).final.FailedWith?
  {
    var code := HidingCode(xs, x, y, v, Denoted(xs, [y] + xs));
    UnendingDeclares(host, xs, HidingRound(x, y, v), st);
    HidingLoopEmitted(xs, x, y, v);
    HidingReads(xs, x, y, v);
    RenewOwned(Overlay(st, xs), xs);
    ForRuns(host, code, Top, map[], st);
    HidingEndsRewritten(host, xs, x, y, v, Overlay(st, xs));
  }

  lemma {:induction false} UnendingDeclares(host: Host, xs: seq<Name>, body: seq<Stmt>, st: State)
    ensures ExecList(host, Unending(xs, body).init, map[], st) == (Normal, Overlay(st, xs))
    ensures Owned(Overlay(st, xs), xs) && forall x :: x in xs ==> Overlay(st, xs).Read(x) == x.zero
  {
    var init := Unending(xs, body).init;
    DeclareZeros(host, xs, map[], st);
    assert init[1..] == [] && ExecList(host, [], map[], Overlay(st, xs)) == (Normal, Overlay(st, xs));
  }

  /** The rewrite keeps the meaning of every accepted loop over `xs` whose body declares only `ys`,
      under every host and from every state, exactly if none of these is spelled like a variable of
      the loop. */
  lemma {:induction false} HidingLoopsKeptExactly(others: Host, xs: seq<Name>, ys: seq<Name>, st: State)
    requires Once(xs) && (forall y :: y in ys ==> y !in xs) && st.gas > 0
    ensures KeepsDeclaring(xs, ys) <==> NoneOf(ys, xs)
  {
    if NoneOf(ys, xs) {
      forall host: Host, body: seq<Stmt>, start: State | AllDeclareOnly(body, ys)
        ensures KeptLoop(host, xs, body, start)
      {
        ApartIsKept(host, xs, ys, body, start);
      }
    } else {
      var y :| y in ys && !Apart(y, xs);
      var x :| x in xs && x.spelling == y.spelling;
      var v := ReportsDiffer(others, xs, x, y, st);
      HidingAccepted(x, y, v, ToNext(0, xs), 1);
      HidingDeclares(x, y, v, ys);
      assert !KeptLoop(RefusingHost(others, v), xs, HidingRound(x, y, v), st);
    }
  }

  lemma {:induction false} HidingDeclares(x: Name, y: Name, v: Datum, ys: seq<Name>)
    requires y in ys
    ensures AllDeclareOnly(HidingRound(x, y, v), ys)
  {
    var round := HidingRound(x, y, v);
    OneTarget(Blank, OUTSIDE);
    OneTarget(New(y), OUTSIDE);
    assert round[1..] == [round[1]] && round[1..][1..] == [];
  }

  // Two loops over variables spelled alike -------------------------------------------------

  const I := Name("i", 0, Number(0))
  const J := Name("i", 1, Number(0))

  /** What a host's < and + 1 are, and an effect that answers and changes nothing. */
  datatype Counter = Counter(less: Op, next: Op, fx: Datum)

  ghost predicate Counts(host: Host, c: Counter) {
    && (forall a, b, store :: host.prim(c.less, [Number(a), Number(b)], store) == Gives(Truth(a < b)))
    && (forall a, store :: host.prim(c.next, [Number(a)], store) == Gives(Number(a + 1)))
    && Harmless(host, c.fx)
  }

  /** for x := 0; x < limit; x = x + 1 { body } */
  function CountingLoop(c: Counter, x: Name, limit: nat, body: seq<Stmt>): Stmt {
    For([Assign([New(x)], [Lit(Number(0))])], [Prim(c.less, [Var(x), Lit(Number(limit))])],
        [Assign([Old(x)], [Prim(c.next, [Var(x)])])], body)
  }

  /** for i := 0; i < p; i++ { do.Await(fx) } */
  function InnerLoop(c: Counter, p: nat): Stmt {
    CountingLoop(c, J, p, [Assign([Blank], [Await(Lit(c.fx), false)])])
  }

  /** for i := 0; i < m; i++ { for i := 0; i < p; i++ { do.Await(fx) } }; return 0 */
  function NestedBody(c: Counter, m: nat, p: nat): seq<Stmt> {
    [CountingLoop(c, I, m, [InnerLoop(c, p)]), Return(Lit(Number(0)))]
  }

  function Awaits(c: Counter, count: nat): (events: seq<Event>)
    ensures |events| == count
  {
    seq(count, i => Awaited(c.fx))
  }

  /** A counting loop's test. */
  lemma {:induction false} Tests(host: Host, c: Counter, x: Name, limit: nat, i: int, temps: Temps, st: State)
    requires Counts(host, c) && st.Read(x) == Number(i)
    ensures Guard(host, [Prim(c.less, [Var(x), Lit(Number(limit))])], temps, st) == (Got(i < limit), st)
  {
    var args := [Var(x), Lit(Number(limit))];
    assert args[1..] == [Lit(Number(limit))] && args[1..][1..] == [] && !ActsAny(args[1..]);
    AllQuietResolves(host, args, temps, st);
    OperandAlone(host, args[1], temps, st);
    assert CloseAll(args[1..], temps) == args[1..] && [args[0]] + args[1..] == args;
    assert [Number(i)] + [Number(limit)] == [Number(i), Number(limit)];
    assert Operands(host, args, temps, st) == (Got([Number(i), Number(limit)]), st);
  }

  /** Its post statement. */
  lemma {:induction false} Increments(host: Host, c: Counter, x: Name, i: int, temps: Temps, st: State)
    requires Counts(host, c) && x in st.vars && st.vars[x] == Own(Number(i))
    ensures ExecPost(host, [Assign([Old(x)], [Prim(c.next, [Var(x)])])], temps, st) == (Normal, st.Declare(x, Number(i + 1)))
  {
    var args := [Var(x)];
    VarsRead(host, [x], temps, st);
    assert [x][1..] == [] && Vars([x]) == args + [] == args && ReadAll([x], st) == [Number(i)] + [] == [Number(i)];
    assert Operands(host, args, temps, st) == (Got([Number(i)]), st);
    assert Evaluate(host, Prim(c.next, args), temps, st) == (Got(Number(i + 1)), st);
    AssignsOne(host, Old(x), Prim(c.next, args), temps, st);
  }

  lemma {:induction false} Starts(host: Host, x: Name, temps: Temps, st: State)
    ensures ExecList(host, [Assign([New(x)], [Lit(Number(0))])], temps, st) == (Normal, st.Declare(x, Number(0)))
    ensures LoopVars([Assign([New(x)], [Lit(Number(0))])]) == [x]
  {
    var init := [Assign([New(x)], [Lit(Number(0))])];
    var st1 := st.Declare(x, Number(0));
    OneTarget(New(x), OUTSIDE);
    assert Evaluate(host, Lit(Number(0)), temps, st) == (Got(Number(0)), st);
    AssignsOne(host, New(x), Lit(Number(0)), temps, st);
    assert init[1..] == [] && ExecList(host, [], temps, st1) == (Normal, st1);
  }

  lemma {:induction false} InnerRound(host: Host, c: Counter, p: nat, temps: Temps, st: State)
    requires Counts(host, c)
    ensures ExecList(host, InnerLoop(c, p).body, temps, st) == (Normal, st.Seen(Awaited(c.fx)))
  {
    var body, seen := InnerLoop(c, p).body, st.Seen(Awaited(c.fx));
    assert Settle(host, c.fx, st).1 == seen && Settle(host, c.fx, st).0.Got?;
    AwaitIsAwaitExpr(host, Lit(c.fx), false, temps, st);
    assert Evaluate(host, Lit(c.fx), temps, st) == (Got(c.fx), st);
    AssignsOne(host, Blank, Await(Lit(c.fx), false), temps, st);
    assert body[1..] == [] && ExecList(host, [], temps, seen) == (Normal, seen);
  }

  /** The state once the inner loop has counted up to `p`. */
  function Counted(c: Counter, j: nat, p: nat, st: State): State
    requires j <= p && p - j <= st.gas
  {
    st.(vars := st.vars[J := Own(Number(p))], trace := st.trace + Awaits(c, p - j), gas := st.gas - (p - j))
  }

  lemma {:induction false} InnerCounts(host: Host, c: Counter, j: nat, p: nat, temps: Temps, st: State)
    requires Counts(host, c) && j <= p && J in st.vars && st.vars[J] == Own(Number(j))
    ensures p - j <= st.gas ==> Iterate(host, InnerLoop(c, p), temps, st) == (Normal, Counted(c, j, p, st))
    ensures p - j > st.gas ==> Iterate(host, InnerLoop(c, p), temps, st).0 == OutOfGas
    decreases p - j
  {
    Tests(host, c, J, p, j, temps, st);
    if j == p {
      assert st.vars[J := Own(Number(p))] == st.vars && st.trace + Awaits(c, 0) == st.trace;
      assert Counted(c, j, p, st) == st;
    } else {
      var seen := st.Seen(Awaited(c.fx));
      var next := seen.Declare(J, Number(j + 1));
      InnerRound(host, c, p, temps, st);
      InnerGoesOn(host, c, j, p, temps, seen);
      if st.gas > 0 {
        InnerCounts(host, c, j + 1, p, temps, next.(gas := st.gas - 1));
        if p - j <= st.gas {
          CountsOn(c, j, p, st);
        }
      }
    }
  }

  lemma {:induction false} CountsOn(c: Counter, j: nat, p: nat, st: State)
    requires j < p && p - j <= st.gas
    ensures Counted(c, j + 1, p, st.Seen(Awaited(c.fx)).Declare(J, Number(j + 1)).(gas := st.gas - 1)) == Counted(c, j, p, st)
  {
    assert st.trace + [Awaited(c.fx)] + Awaits(c, p - j - 1) == st.trace + Awaits(c, p - j);
    assert st.vars[J := Own(Number(j + 1))][J := Own(Number(p))] == st.vars[J := Own(Number(p))];
  }

  lemma {:induction false} AwaitsMore(c: Counter, trace: seq<Event>, a: nat, b: nat)
    ensures trace + Awaits(c, a) + Awaits(c, b) == trace + Awaits(c, a + b)
  {
  }

  lemma {:induction false} InnerGoesOn(host: Host, c: Counter, j: nat, p: nat, temps: Temps, st: State)
    requires Counts(host, c) && J in st.vars && st.vars[J] == Own(Number(j))
    ensures var next := st.Declare(J, Number(j + 1));
            NextIteration(host, InnerLoop(c, p), Normal, temps, st)
             == if st.gas == 0 then (OutOfGas, next) else Iterate(host, InnerLoop(c, p), temps, next.(gas := st.gas - 1))
  {
    Starts(host, J, temps, st);
    RenewOwned(st, [J]);
    Increments(host, c, J, j, temps, st);
  }

  lemma {:induction false} InnerRuns(host: Host, c: Counter, p: nat, temps: Temps, st: State)
    requires Counts(host, c)
    ensures p <= st.gas ==> Exec(host, InnerLoop(c, p), temps, st) == (Normal, Counted(c, 0, p, st))
    ensures p > st.gas ==> Exec(host, InnerLoop(c, p), temps, st).0 == OutOfGas
  {
    var st1 := st.Declare(J, Number(0));
    Starts(host, J, temps, st);
    InnerCounts(host, c, 0, p, temps, st1);
    assert Exec(host, InnerLoop(c, p), temps, st) == Iterate(host, InnerLoop(c, p), temps, st1);
    if p <= st.gas {
      CountedFromZero(c, p, st);
    }
  }

  lemma {:induction false} CountedFromZero(c: Counter, p: nat, st: State)
    requires p <= st.gas
    ensures Counted(c, 0, p, st.Declare(J, Number(0))) == Counted(c, 0, p, st)
  {
    assert st.vars[J := Own(Number(0))][J := Own(Number(p))] == st.vars[J := Own(Number(p))];
  }

  function OuterLoop(c: Counter, m: nat, p: nat): Stmt {
    NestedBody(c, m, p)[0]
  }

  lemma {:induction false} OuterRound(host: Host, c: Counter, i: nat, m: nat, p: nat, st: State)
    requires Counts(host, c) && i < m && I in st.vars && st.vars[I] == Own(Number(i)) && st.gas > p
    ensures var after := Counted(c, 0, p, st);
            Iterate(host, OuterLoop(c, m, p), map[], st)
             == Iterate(host, OuterLoop(c, m, p), map[], after.Declare(I, Number(i + 1)).(gas := after.gas - 1))
  {
    var s, after := OuterLoop(c, m, p), Counted(c, 0, p, st);
    Tests(host, c, I, m, i, map[], st);
    InnerRuns(host, c, p, map[], st);
    ListOfOne(host, InnerLoop(c, p), st);
    assert Iterate(host, s, map[], st) == NextIteration(host, s, Normal, map[], after);
    OuterGoesOn(host, c, i, m, p, after);
  }

  lemma {:induction false} OuterGoesOn(host: Host, c: Counter, i: nat, m: nat, p: nat, st: State)
    requires Counts(host, c) && I in st.vars && st.vars[I] == Own(Number(i)) && st.gas > 0
    ensures NextIteration(host, OuterLoop(c, m, p), Normal, map[], st)
         == Iterate(host, OuterLoop(c, m, p), map[], st.Declare(I, Number(i + 1)).(gas := st.gas - 1))
  {
    Starts(host, I, map[], st);
    RenewOwned(st, [I]);
    Increments(host, c, I, i, map[], st);
    NextUnfolds(host, OuterLoop(c, m, p), Normal, map[], st);
  }

  /** So many rounds of `p` awaits each. */
  function Total(rounds: nat, p: nat): nat {
    if rounds == 0 then 0 else p + Total(rounds - 1, p)
  }

  lemma {:induction false} TotalMultiplies(rounds: nat, p: nat)
    ensures Total(rounds, p) == rounds * p && Total(rounds, p) + rounds == rounds * (p + 1)
  {
    if rounds > 0 {
      TotalMultiplies(rounds - 1, p);
    }
  }

  /** With so many rounds left the outer loop ends, after the awaits of all of them. */
  ghost predicate CountsOut(host: Host, c: Counter, m: nat, left: nat, p: nat, st: State) {
    var (ending, after) := Iterate(host, OuterLoop(c, m, p), map[], st);
    && ending.Normal? && after.store == st.store && after.gas == st.gas - Total(left, p) - left
    && after.trace == st.trace + Awaits(c, Total(left, p))
  }

  /** As Go runs them, the loops await as often as both counters together say. */
  lemma {:induction false} OuterCounts(host: Host, c: Counter, i: nat, left: nat, p: nat, st: State)
    requires Counts(host, c) && I in st.vars && st.vars[I] == Own(Number(i)) && Total(left, p) + left <= st.gas
    ensures CountsOut(host, c, i + left, left, p, st)
    decreases left
  {
    if left == 0 {
      Tests(host, c, I, i, i, map[], st);
      assert st.trace + Awaits(c, 0) == st.trace;
    } else {
      var after := Counted(c, 0, p, st);
      var next := after.Declare(I, Number(i + 1)).(gas := after.gas - 1);
      OuterRound(host, c, i, i + left, p, st);
      OuterCounts(host, c, i + 1, left - 1, p, next);
      OneMoreRound(host, c, i + left, left, p, st, next);
    }
  }

  lemma {:induction false} OneMoreRound(host: Host, c: Counter, m: nat, left: nat, p: nat, st: State, next: State)
    requires left > 0 && CountsOut(host, c, m, left - 1, p, next)
    requires Iterate(host, OuterLoop(c, m, p), map[], st) == Iterate(host, OuterLoop(c, m, p), map[], next)
    requires next.store == st.store && next.trace == st.trace + Awaits(c, p) && next.gas == st.gas - p - 1
    ensures CountsOut(host, c, m, left, p, st)
  {
    AwaitsMore(c, st.trace, p, Total(left - 1, p));
  }

  lemma {:induction false} NestedInGo(host: Host, c: Counter, m: nat, p: nat, st: State)
    requires Counts(host, c) && m * (p + 1) <= st.gas
    ensures RunGenBody(host, NestedBody(c, m, p), st)
         == Report(Succeeded(Number(0)), st.store, st.trace + Awaits(c, m * p), st.gas - m * (p + 1))
  {
    var body := NestedBody(c, m, p);
    var answer := body[1];
    var st1 := st.Declare(I, Number(0));
    Starts(host, I, map[], st);
    TotalMultiplies(m, p);
    OuterCounts(host, c, 0, m, p, st1);
    var after := Iterate(host, body[0], map[], st1).1;
    assert Exec(host, body[0], map[], st) == (Normal, after);
    assert Evaluate(host, Lit(Number(0)), map[], after) == (Got(Number(0)), after);
    assert Exec(host, answer, map[], after) == (Returned(Number(0)), after);
    ExecTwo(host, body[0], answer, map[], st);
  }

  // The same loops rewritten --------------------------------------------------------------

  /** The emitted iteration function of the inner loop, with what it passes the outer one. */
  function InnerCode(c: Counter, p: nat, passed: Name): Code {
    var s := InnerLoop(c, p);
    LoopFor(2, s.init, [J], s.when, s.post, FlatMap(Lit(c.fx), 3, Text(Assign([Blank], [Temp(3)]), ReturnTo(ToNext(2, [J])))),
            ReturnTo(ToNext(1, [passed])))
  }

  function OuterCode(c: Counter, m: nat, p: nat, passed: Name): Code {
    var s := OuterLoop(c, m, p);
    LoopFor(1, s.init, [I], s.when, s.post, InnerCode(c, p, passed), ReturnTo(ToContinuation(0)))
  }

  function NestedCode(c: Counter, m: nat, p: nat, passed: Name): Code {
    Define(0, Text(Return(Lit(Number(0))), Missing), OuterCode(c, m, p, passed))
  }

  lemma {:induction false} TestPlain(c: Counter, x: Name, limit: nat)
    ensures var when := [Prim(c.less, [Var(x), Lit(Number(limit))])]; !AwaitsInAny(when) && AllTempsBelow(when, 0)
  {
    var args, rest := [Var(x), Lit(Number(limit))], [Lit(Number(limit))];
    HoistOne(Lit(Number(limit)), 0);
    assert args[1..] == rest && !AwaitsInAny(rest) && AllTempsBelow(rest, 0);
    assert !AwaitsInAny(args) && AllTempsBelow(args, 0);
    HoistOne(Prim(c.less, args), 0);
  }

  /** A counting loop is plain and sound as its body is. */
  lemma {:induction false} CountingAccepted(c: Counter, x: Name, limit: nat, body: seq<Stmt>)
    requires AllPlainStmts(body, 0) && AllSound(body)
    ensures var s := CountingLoop(c, x, limit, body);
            Plain(s, 0) && Sound(s)
  {
    var s := CountingLoop(c, x, limit, body);
    TestPlain(c, x, limit);
    OneTarget(New(x), OUTSIDE);
    OneTarget(Old(x), OUTSIDE);
    var args := [Var(x)];
    assert args[1..] == [] && Untaken(Var(x), [x]) && AllUntaken(args, [x]);
    HoistOne(Var(x), 0);
    HoistOne(Prim(c.next, args), 0);
    HoistOne(Lit(Number(0)), 0);
    assert s.post[0].es[1..] == [];
    assert s.init[1..] == [] && s.post[1..] == [] && [New(x)][1..] == [] && !HasOld([New(x)][1..]);
    assert !Mixed([New(x)]) && !Mixed([Old(x)]) && Plain(s.init[0], 0) && Plain(s.post[0], 0);
  }

  lemma {:induction false} CountingNeeds(c: Counter, x: Name, limit: nat, body: seq<Stmt>)
    ensures var s := CountingLoop(c, x, limit, body);
            LoopVars(s.init) == [x] && !NeedsAny(s.init) && !AwaitsInAny(s.when) && !NeedsAny(s.post) && Needs(s) == NeedsAny(body)
  {
    var s := CountingLoop(c, x, limit, body);
    TestPlain(c, x, limit);
    OneTarget(New(x), OUTSIDE);
    HoistOne(Var(x), 0);
    HoistOne(Prim(c.next, [Var(x)]), 0);
    HoistOne(Lit(Number(0)), 0);
    Alone(s.init[0], Nowhere, NO_JUMPS);
    Alone(s.post[0], Nowhere, NO_JUMPS);
  }

  lemma {:induction false} InnerAccepted(c: Counter, p: nat)
    ensures Plain(InnerLoop(c, p), 0) && Sound(InnerLoop(c, p)) && Needs(InnerLoop(c, p))
    ensures !Breaks(InnerLoop(c, p)) && !Continues(InnerLoop(c, p))
  {
    var body := InnerLoop(c, p).body;
    HoistOne(Await(Lit(c.fx), false), 0);
    Alone(body[0], Nowhere, NO_JUMPS);
    assert [Blank][1..] == [] && !Mixed([Blank]) && Plain(body[0], 0);
    CountingAccepted(c, J, p, body);
    CountingNeeds(c, J, p, body);
  }

  lemma {:induction false} AwaitEmitted(fx: Datum, k: Jump, jumps: Jumps, n: nat)
    requires k != Nowhere
    ensures List([Assign([Blank], [Await(Lit(fx), false)])], k, jumps, n)
         == Emitted(FlatMap(Lit(fx), n, Text(Assign([Blank], [Temp(n)]), ReturnTo(k))), n + 1)
  {
    var s := Assign([Blank], [Await(Lit(fx), false)]);
    var steps := [Step(Lit(fx), n)];
    var text := Text(Assign([Blank], [Temp(n)]), ReturnTo(k));
    HoistOne(Await(Lit(fx), false), n);
    assert Hoist(Await(Lit(fx), false), n) == Hoisted([] + steps, Temp(n), n + 1);
    assert HoistAll(s.es, n) == HoistedAll(steps, [Temp(n)], n + 1);
    assert [s][1..] == [] && [Blank][1..] == [] && !HasOld([Blank]) && NewNames([Blank]) == [] + [];
    assert steps[1..] == [] && Chain(steps, text) == FlatMap(Lit(fx), n, text);
    assert Statement(s, [], k, jumps, n) == Emitted(Chain(steps, text), n + 1);
  }

  lemma {:induction false} InnerEmitted(c: Counter, p: nat, passed: Name)
    ensures ForLoop(InnerLoop(c, p), ToNext(1, [passed]), 2) == Emitted(InnerCode(c, p, passed), 4)
  {
    var s := InnerLoop(c, p);
    AwaitEmitted(c.fx, ToNext(2, [J]), Jumps(ToNext(1, [passed]), ToNext(2, [J])), 3);
    HoistOne(Await(Lit(c.fx), false), 0);
    Alone(s.body[0], Nowhere, NO_JUMPS);
    InnerAccepted(c, p);
    CountingNeeds(c, J, p, s.body);
  }

  lemma {:induction false} OuterEmitted(c: Counter, m: nat, p: nat)
    ensures ForLoop(OuterLoop(c, m, p), ToContinuation(0), 1) == Emitted(OuterCode(c, m, p, I), 4)
  {
    var s, inner := OuterLoop(c, m, p), InnerLoop(c, p);
    var k := ToNext(1, [I]);
    InnerAccepted(c, p);
    InnerEmitted(c, p, I);
    Alone(inner, k, NO_JUMPS);
    CountingNeeds(c, I, m, s.body);
    assert s.body[1..] == [];
    assert Statement(inner, [], k, Jumps(ToContinuation(0), k), 2) == ForLoop(inner, k, 2);
  }

  lemma {:induction false} NestedEmitted(c: Counter, m: nat, p: nat)
    ensures Body(NestedBody(c, m, p)) == Emitted(NestedCode(c, m, p, I), 4)
  {
    var body := NestedBody(c, m, p);
    var s, answer := body[0], body[1];
    InnerAccepted(c, p);
    Alone(InnerLoop(c, p), Nowhere, NO_JUMPS);
    CountingNeeds(c, I, m, s.body);
    OuterEmitted(c, m, p);
    assert body[1..] == [answer] && [answer][1..] == [];
    assert List([answer], Nowhere, NO_JUMPS, 4) == Emitted(Text(answer, Missing), 4);
    assert OuterCode(c, m, p, I).after == ReturnTo(ToContinuation(0)) && Mentions(OuterCode(c, m, p, I), 0);
    assert Inside(s, ToContinuation(0), NO_JUMPS, 1) == ForLoop(s, ToContinuation(0), 1);
    assert Rejoin(s, [answer], Nowhere, NO_JUMPS, 0) == Emitted(NestedCode(c, m, p, I), 4);
    assert Needs(s);
    assert Statement(s, [answer], Nowhere, NO_JUMPS, 0) == Rejoin(s, [answer], Nowhere, NO_JUMPS, 0);
  }

  /** The rewrite accepts the body, and all but the spelling is as its correctness asks. */
  lemma {:induction false} NestedAccepted(c: Counter, m: nat, p: nat)
    ensures var body := NestedBody(c, m, p);
            && AllPlainStmts(body, 0) && AllSound(body) && EndsList(body, false) && !BreaksAny(body) && !ContinuesAny(body)
  {
    var body := NestedBody(c, m, p);
    var s, answer := body[0], body[1];
    InnerAccepted(c, p);
    Alone(InnerLoop(c, p), Nowhere, NO_JUMPS);
    CountingAccepted(c, I, m, s.body);
    Alone(answer, Nowhere, NO_JUMPS);
    assert body[1..] == [answer];
  }

  lemma {:induction false} CountingResolved(c: Counter, x: Name, limit: nat, body: seq<Stmt>, lex: Lexical)
    requires ReadList(body, Parameters([x], lex).Enter()) == body
    ensures ReadStmt(CountingLoop(c, x, limit, body), lex) == CountingLoop(c, x, limit, body)
    ensures var s, inner := CountingLoop(c, x, limit, body), Parameters([x], lex);
            && ReadList(s.init, lex.Enter()) == s.init && LoopVars(s.init) == [x]
            && ReadList(s.post, inner) == s.post && RespellAll(s.when, inner.Visible()) == s.when
  {
    var s, inner := CountingLoop(c, x, limit, body), Parameters([x], lex);
    var init, post := s.init[0], s.post[0];
    OneTarget(New(x), lex.Enter());
    OneTarget(Old(x), inner);
    OneRespells(Lit(Number(0)), lex.Enter().Visible());
    OneReads(init, lex.Enter());
    InitBecomesParameters(s.init, lex);
    assert Denotes(x, inner.Visible()) == x;
    OneRespells(Var(x), inner.Visible());
    OneRespells(Prim(c.next, [Var(x)]), inner.Visible());
    OneReads(post, inner);
    TestRespells(c, x, limit, inner.Visible());
  }

  lemma {:induction false} TestRespells(c: Counter, x: Name, limit: nat, names: seq<Name>)
    requires Denotes(x, names) == x
    ensures var when := [Prim(c.less, [Var(x), Lit(Number(limit))])]; RespellAll(when, names) == when
  {
    var args := [Var(x), Lit(Number(limit))];
    OneRespells(Lit(Number(limit)), names);
    assert args[1..] == [Lit(Number(limit))] && RespellAll(args, names) == [Var(x)] + [Lit(Number(limit))] == args;
    OneRespells(Prim(c.less, args), names);
  }

  lemma {:induction false} InnerResolved(c: Counter, p: nat, lex: Lexical)
    ensures ReadList(InnerLoop(c, p).body, Parameters([J], lex).Enter()) == InnerLoop(c, p).body
    ensures ReadStmt(InnerLoop(c, p), lex) == InnerLoop(c, p)
  {
    var await, inner := InnerLoop(c, p).body[0], Parameters([J], lex).Enter();
    OneTarget(Blank, inner);
    OneRespells(Await(Lit(c.fx), false), inner.Visible());
    OneReads(await, inner);
    CountingResolved(c, J, p, [await], lex);
  }

  lemma {:induction false} NestedResolved(c: Counter, m: nat, p: nat)
    ensures Resolved(NestedBody(c, m, p))
  {
    var body := NestedBody(c, m, p);
    var inner := Parameters([I], OUTSIDE).Enter();
    InnerResolved(c, p, inner);
    OneReads(InnerLoop(c, p), inner);
    CountingResolved(c, I, m, [InnerLoop(c, p)], OUTSIDE);
    assert After(body[0], OUTSIDE) == OUTSIDE && ReadStmt(body[1], OUTSIDE) == body[1];
    TwoRead(body[0], body[1], OUTSIDE);
  }

  lemma {:induction false} InnerBodyReads(c: Counter, lex: Lexical)
    requires lex.Visible() == [J, I]
    ensures var code := FlatMap(Lit(c.fx), 3, Text(Assign([Blank], [Temp(3)]), ReturnTo(ToNext(2, [J]))));
            ReadCode(code, lex) == code && CompilesCode(code, lex)
  {
    var text, inner := Assign([Blank], [Temp(3)]), lex.Enter();
    assert inner.Visible() == [J, I];
    OneTarget(Blank, inner);
    OneRespells(Temp(3), inner.Visible());
    assert inner.With([]) == inner && ReadStmt(text, inner) == text && After(text, inner) == inner;
    assert [J][1..] == [] && Denoted([J], [J, I]) == [J] + [] == [J];
    assert ReadJump(ToNext(2, [J]), inner.Visible()) == ToNext(2, [J]);
    assert ReadCode(ReturnTo(ToNext(2, [J])), inner) == ReturnTo(ToNext(2, [J]));
  }

  /** Read as Go's compiler reads it, the outer loop is passed the inner one's variable. */
  lemma {:induction false} InnerReads(c: Counter, p: nat, lex: Lexical)
    requires lex.Visible() == [I]
    ensures ReadCode(InnerCode(c, p, I), lex) == InnerCode(c, p, J) && CompilesCode(InnerCode(c, p, I), lex)
  {
    var s, inner := InnerLoop(c, p), Parameters([J], lex);
    InnerResolved(c, p, lex);
    CountingResolved(c, J, p, s.body, lex);
    assert inner.Visible() == [J] + [I] && inner.Enter().Visible() == [J] + [I];
    InnerBodyReads(c, inner);
    assert ReadJump(ToNext(1, [I]), [J, I]) == ToNext(1, [J]);
    LoopReads(InnerCode(c, p, I), lex);
  }

  lemma {:induction false} NestedReads(c: Counter, m: nat, p: nat)
    ensures ReadCode(NestedCode(c, m, p, I), OUTSIDE) == NestedCode(c, m, p, J) && CompilesCode(NestedCode(c, m, p, I), OUTSIDE)
  {
    var tail := Text(Return(Lit(Number(0))), Missing);
    OuterReads(c, m, p);
    assert ReadStmt(tail.s, OUTSIDE.Enter()) == tail.s;
    assert ReadCode(tail, OUTSIDE.Enter()) == tail && CompilesCode(tail, OUTSIDE.Enter());
  }

  lemma {:induction false} OuterReads(c: Counter, m: nat, p: nat)
    ensures ReadCode(OuterCode(c, m, p, I), OUTSIDE) == OuterCode(c, m, p, J) && CompilesCode(OuterCode(c, m, p, I), OUTSIDE)
  {
    var inner := Parameters([I], OUTSIDE);
    assert inner.Visible() == [I];
    OuterHeaderReads(c, m, p);
    InnerReads(c, p, inner);
    LoopReads(OuterCode(c, m, p, I), OUTSIDE);
  }

  lemma {:induction false} OuterHeaderReads(c: Counter, m: nat, p: nat)
    ensures var s, inner := OuterLoop(c, m, p), Parameters([I], OUTSIDE);
            && ReadList(s.init, OUTSIDE.Enter()) == s.init && ReadList(s.post, inner) == s.post
            && RespellAll(s.when, inner.Visible()) == s.when
  {
    var inner := Parameters([I], OUTSIDE).Enter();
    InnerResolved(c, p, inner);
    OneReads(InnerLoop(c, p), inner);
    CountingResolved(c, I, m, [InnerLoop(c, p)], OUTSIDE);
  }

  lemma {:induction false} LoopReads(code: Code, lex: Lexical)
    requires code.LoopFor? && ReadList(code.init, lex.Enter()) == code.init && ReadList(code.post, Parameters(code.vars, lex)) == code.post
    requires CompilesCode(code.body, Parameters(code.vars, lex)) && code.after.ReturnTo?
    requires code.when != [] && RespellAll(code.when, Parameters(code.vars, lex).Visible()) == code.when
    ensures CompilesCode(code, lex)
    ensures var inner := Parameters(code.vars, lex);
            ReadCode(code, lex)
             == LoopFor(code.loop, code.init, code.vars, code.when, code.post,
                        ReadCode(code.body, inner), ReturnTo(ReadJump(code.after.to, inner.Visible())))
  {
    assert Parameters(code.vars, lex).Enter().Visible() == Parameters(code.vars, lex).Visible();
    MeantListCompiles(code.init, lex.Enter());
    MeantListCompiles(code.post, Parameters(code.vars, lex));
  }

  /** What the emitted loops run in: the continuation behind them. */
  const BEHIND := WithContinuation(0, Text(Return(Lit(Number(0))), Missing), map[], Top)

  /** A round of the outer loop as rewritten: the inner loop's count becomes the outer one's. */
  lemma {:induction false} RewrittenRound(host: Host, c: Counter, i: nat, m: nat, p: nat, st: State)
    requires Counts(host, c) && i < m && I in st.vars && st.vars[I] == Own(Number(i))
    ensures var code := OuterCode(c, m, p, J);
            && (st.gas <= p ==> Enter(host, code, BEHIND, map[], st).final == Exhausted)
            && (st.gas > p ==>
                  var after := Counted(c, 0, p, st);
                  Enter(host, code, BEHIND, map[], st)
                   == Enter(host, code, BEHIND, map[], after.Declare(I, Number(p + 1)).(gas := after.gas - 1)))
  {
    Tests(host, c, I, m, i, map[], st);
    InnerFollows(host, c, m, p, st);
    if p <= st.gas {
      Passes(host, c, m, p, Counted(c, 0, p, st));
    }
  }

  lemma {:induction false} InnerFollows(host: Host, c: Counter, m: nat, p: nat, st: State)
    requires Counts(host, c)
    ensures var code := OuterCode(c, m, p, J);
            var env := InLoop(code, map[], BEHIND);
            && (st.gas < p ==> Run(host, code.body, env, map[], st).final == Exhausted)
            && (st.gas >= p ==> Run(host, code.body, env, map[], st) == Leap(host, ToNext(1, [J]), env, map[], Counted(c, 0, p, st)))
  {
    var code, k := OuterCode(c, m, p, J), ToNext(1, [J]);
    InnerAccepted(c, p);
    InnerEmitted(c, p, J);
    ForCorrect(host, InnerLoop(c, p), k, Jumps(k, k), 2, InLoop(code, map[], BEHIND), map[], st);
    InnerRuns(host, c, p, map[], st);
  }

  lemma {:induction false} Passes(host: Host, c: Counter, m: nat, p: nat, st: State)
    requires Counts(host, c) && J in st.vars && st.vars[J] == Own(Number(p))
    ensures var code, next := OuterCode(c, m, p, J), st.Declare(I, Number(p + 1));
            && (st.gas == 0 ==> Leap(host, ToNext(1, [J]), InLoop(code, map[], BEHIND), map[], st).final == Exhausted)
            && (st.gas > 0 ==> Leap(host, ToNext(1, [J]), InLoop(code, map[], BEHIND), map[], st)
                                == Enter(host, code, BEHIND, map[], next.(gas := st.gas - 1)))
  {
    var passed, next := st.Declare(I, Number(p)), st.Declare(I, Number(p + 1));
    assert ReadAll([J], st) == [Number(p)] + [];
    assert [I][1..] == [] && [Number(p)][1..] == [];
    assert Passed(st, [I], [J]) == Bound(passed, [], []) == passed;
    Increments(host, c, I, p, map[], passed);
    assert passed.Declare(I, Number(p + 1)) == next;
    if st.gas > 0 {
      RenewOwned(next.(gas := st.gas - 1), [I]);
    }
  }

  /** The loop ends by going on behind it. */
  lemma {:induction false} RewrittenEnds(host: Host, c: Counter, i: nat, m: nat, p: nat, st: State)
    requires Counts(host, c) && i >= m && I in st.vars && st.vars[I] == Own(Number(i))
    ensures Enter(host, OuterCode(c, m, p, J), BEHIND, map[], st) == ReportOf(Succeeded(Number(0)), st)
  {
    var code := OuterCode(c, m, p, J);
    Tests(host, c, I, m, i, map[], st);
    assert Evaluate(host, Lit(Number(0)), map[], st) == (Got(Number(0)), st);
    assert Exec(host, Return(Lit(Number(0))), map[], st) == (Returned(Number(0)), st);
    assert Run(host, Text(Return(Lit(Number(0))), Missing), Top, map[], st) == ReportOf(Succeeded(Number(0)), st);
    assert Leap(host, ToContinuation(0), BEHIND, map[], st) == ReportOf(Succeeded(Number(0)), st);
    assert Leap(host, ToContinuation(0), InLoop(code, map[], BEHIND), map[], st) == ReportOf(Succeeded(Number(0)), st);
  }

  /** Where the inner loop counts to less than the outer one's last value there is no end. */
  lemma {:induction false} RewrittenNeverEnds(host: Host, c: Counter, i: nat, m: nat, p: nat, st: State)
    requires Counts(host, c) && i < m && p + 1 < m && I in st.vars && st.vars[I] == Own(Number(i))
    ensures Enter(host, OuterCode(c, m, p, J), BEHIND, map[], st).final == Exhausted
    decreases st.gas
  {
    RewrittenRound(host, c, i, m, p, st);
    if st.gas > p {
      var after := Counted(c, 0, p, st);
      RewrittenNeverEnds(host, c, p + 1, m, p, after.Declare(I, Number(p + 1)).(gas := after.gas - 1));
    }
  }

  /** What the rewrite does of the two loops. */
  lemma {:induction false} NestedRewritten(host: Host, c: Counter, m: nat, p: nat, st: State)
    requires Counts(host, c) && m * (p + 1) <= st.gas
    ensures var report := RunRewritten(host, NestedCode(c, m, p, J), st);
            && (m == 0 ==> report == ReportOf(Succeeded(Number(0)), st))
            && (0 < m <= p + 1 ==> report == Report(Succeeded(Number(0)), st.store, st.trace + Awaits(c, p), st.gas - p - 1))
            && (m > p + 1 ==> report.final == Exhausted)
  {
    var code, st1 := OuterCode(c, m, p, J), st.Declare(I, Number(0));
    Starts(host, I, map[], st);
    RenewOwned(st1, [I]);
    ForRuns(host, code, BEHIND, map[], st);
    assert RunRewritten(host, NestedCode(c, m, p, J), st) == Enter(host, code, BEHIND, map[], st1);
    if m == 0 {
      RewrittenEnds(host, c, 0, m, p, st1);
    } else if m <= p + 1 {
      assert m * (p + 1) >= p + 1;
      RewrittenRound(host, c, 0, m, p, st1);
      var after := Counted(c, 0, p, st1);
      RewrittenEnds(host, c, p + 1, m, p, after.Declare(I, Number(p + 1)).(gas := after.gas - 1));
    } else {
      RewrittenNeverEnds(host, c, 0, m, p, st1);
    }
  }

  /** Two nested loops over variables spelled alike: Go awaits m * p times. The rewrite accepts them,
      compiles, and awaits p times or goes round for ever: it keeps their meaning exactly if the
      outer loop has one round or none. */
  lemma {:induction false} NestedLoopsKeptExactly(host: Host, c: Counter, m: nat, p: nat, st: State)
    requires Counts(host, c) && m * (p + 1) <= st.gas
    ensures var body := NestedBody(c, m, p);
            && AllPlainStmts(body, 0) && AllSound(body) && EndsList(body, false) && !BreaksAny(body) && !ContinuesAny(body)
            && Resolved(body) && Body(body).Emitted? && BodyCompiles(body)
            && RunGenBody(host, body, st) == Report(Succeeded(Number(0)), st.store, st.trace + Awaits(c, m * p), st.gas - m * (p + 1))
            && (RunRewritten(host, ReadBody(body), st) == RunGenBody(host, body, st) <==> m <= 1)
  {
    NestedAccepted(c, m, p);
    NestedResolved(c, m, p);
    NestedEmitted(c, m, p);
    NestedReads(c, m, p);
    NestedInGo(host, c, m, p, st);
    NestedRewritten(host, c, m, p, st);
    NestedReportsDiffer(c, m, p, st);
  }

  lemma {:induction false} NestedReportsDiffer(c: Counter, m: nat, p: nat, st: State)
    ensures m == 0 ==> st.trace + Awaits(c, m * p) == st.trace
    ensures 1 < m <= p + 1 ==> st.trace + Awaits(c, m * p) != st.trace + Awaits(c, p)
  {
    if 1 < m <= p + 1 {
      assert m * p > p;
      assert |st.trace + Awaits(c, m * p)| > |st.trace + Awaits(c, p)|;
    }
  }

  // The iteration function's own block ----------------------------------------------------

  /** What is declared ahead of the first await stands in one block with the loop's variables: a :=
      then assigns to the variable where Go, in the body's own block, declares another name. */
  lemma {:induction false} SharedBlockAssigns(xs: seq<Name>, x: Name, y: Name, lex: Lexical)
    requires Once(xs) && x in xs && y.spelling == x.spelling
    ensures ReadTarget(New(y), Parameters(xs, lex).Enter()) == New(y)
    ensures ReadTarget(New(y), Parameters(xs, lex)) == Old(x)
  {
    DenotesAlike(x, y, xs);
    DenotesDeclared(x, xs, []);
    assert xs + [] == xs;
  }

  lemma {:induction false} DenotesAlike(x: Name, y: Name, names: seq<Name>)
    requires x.spelling == y.spelling && !Apart(x, names)
    ensures Denotes(x, names) == Denotes(y, names)
  {
    if names[0].spelling != x.spelling {
      assert exists z :: z in names[1..] && z.spelling == x.spelling;
      DenotesAlike(x, y, names[1..]);
    }
  }

  /** In that block a := compiles exactly if it declares a name spelled unlike all of the loop's
      variables, or none at all. */
  lemma {:induction false} SharedBlockCompilesExactly(xs: seq<Name>, targets: seq<Target>, es: seq<Expr>, lex: Lexical)
    ensures CompilesStmt(Assign(targets, es), Parameters(xs, lex))
        <==> (NewNames(targets) == [] || exists y :: y in NewNames(targets) && Apart(y, xs))
  {
    NewInBlock(xs, targets, Parameters(xs, lex));
  }

  lemma {:induction false} NewInBlock(xs: seq<Name>, targets: seq<Target>, lex: Lexical)
    requires lex.here == xs
    ensures NewNames(ReadTargets(targets, lex)) != [] <==> exists y :: y in NewNames(targets) && Apart(y, xs)
  {
    if targets != [] {
      var t, rest := targets[0], targets[1..];
      NewInBlock(xs, rest, lex);
      assert ReadTargets(targets, lex)[0] == ReadTarget(t, lex) && ReadTargets(targets, lex)[1..] == ReadTargets(rest, lex);
      if t.New? {
        assert NewNames(targets) == [t.name] + NewNames(rest) && t.name in NewNames(targets);
      } else {
        assert NewNames(targets) == [] + NewNames(rest) == NewNames(rest);
      }
    }
  }

  /** A loop that declares a name spelled like its variable ahead of its first await is accepted, and
      what is emitted for it does not compile. */
  lemma {:induction false} LeadDoesNotCompile(xs: seq<Name>, x: Name, y: Name, v: Datum, fx: Datum)
    requires Once(xs) && x in xs && y !in xs && y.spelling == x.spelling
    ensures var loop := [Unending(xs, [Assign([New(y)], [Lit(v)]), Assign([Blank], [Await(Lit(fx), false)])])];
            Body(loop).Emitted? && Resolved(loop) && !BodyCompiles(loop)
  {
    var declare, await := Assign([New(y)], [Lit(v)]), Assign([Blank], [Await(Lit(fx), false)]);
    var body := [declare, await];
    LeadResolved(xs, y, v, fx);
    LeadEmitted(y, v, fx, ToNext(0, xs), Jumps(Nowhere, ToNext(0, xs)));
    var s := Unending(xs, body);
    UnendingNeedsNothing(xs, body);
    assert [s][1..] == [] && Needs(s);
    assert Statement(s, [], Nowhere, NO_JUMPS, 0) == Inside(s, Nowhere, NO_JUMPS, 0) == ForLoop(s, Nowhere, 0);
    assert Body([s]).code.body.s == declare;
    OneTarget(New(y), OUTSIDE);
    SharedBlockCompilesExactly(xs, [New(y)], [Lit(v)], OUTSIDE);
    assert !CompilesStmt(declare, Parameters(xs, OUTSIDE));
    assert !CompilesCode(Body([s]).code.body, Parameters(xs, OUTSIDE));
  }

  lemma {:induction false} LeadEmitted(y: Name, v: Datum, fx: Datum, k: Jump, jumps: Jumps)
    requires k != Nowhere
    ensures var body := [Assign([New(y)], [Lit(v)]), Assign([Blank], [Await(Lit(fx), false)])];
            && NeedsAny(body) && List(body, k, jumps, 1).Emitted?
            && List(body, k, jumps, 1).code.Text? && List(body, k, jumps, 1).code.s == body[0]
  {
    var declare, await := Assign([New(y)], [Lit(v)]), Assign([Blank], [Await(Lit(fx), false)]);
    var body := [declare, await];
    assert body[1..] == [await] && [New(y)][1..] == [] && !HasOld([New(y)][1..]);
    HoistOne(Lit(v), 1);
    HoistOne(Await(Lit(fx), false), 1);
    AwaitEmitted(fx, k, jumps, 1);
    assert !Needs(declare) && Needs(await) && NeedsAny([await]);
    assert Spell(declare, jumps) == declare;
  }

  lemma {:induction false} LeadResolved(xs: seq<Name>, y: Name, v: Datum, fx: Datum)
    ensures Resolved([Unending(xs, [Assign([New(y)], [Lit(v)]), Assign([Blank], [Await(Lit(fx), false)])])])
  {
    var declare, await := Assign([New(y)], [Lit(v)]), Assign([Blank], [Await(Lit(fx), false)]);
    var lex := Lexical([], xs);
    LoopScope(xs);
    OneTarget(New(y), lex);
    OneRespells(Lit(v), lex.Visible());
    var inner := After(declare, lex);
    OneTarget(Blank, inner);
    OneRespells(Await(Lit(fx), false), inner.Visible());
    TwoRead(declare, await, lex);
    LoopResolved(xs, [], [declare, await]);
  }
}
