/** What emitted text says. An identifier in Go denotes what its spelling denotes where it stands, so
    the emitted code is read here as Go's compiler reads it, scope by scope; and this module says of
    which bodies the emitted code reads as it was meant. */
module RewriteScopes {
  import opened Direct
  import opened Rewrite
  import opened RewriteHoist
  import opened RewriteSpell
  import opened RewriteFollow

  // Scopes --------------------------------------------------------------------------------

  /** The names the current block has declared so far, and those of the blocks around it, innermost
      first. What is declared outside the body denotes itself. */
  datatype Lexical = Lexical(here: seq<Name>, above: seq<Name>) {

    function Visible(): seq<Name> {
      here + above
    }

    function Enter(): Lexical {
      Lexical([], Visible())
    }

    function With(names: seq<Name>): Lexical {
      Lexical(names + here, above)
    }
  }

  const OUTSIDE := Lexical([], [])

  /** A := declares the names its block has not declared, and assigns to the others. */
  function ReadTarget(target: Target, lex: Lexical): Target {
    match target
    case New(x) => if Apart(x, lex.here) then target else Old(Denotes(x, lex.here))
    case Old(x) => Old(Denotes(x, lex.Visible()))
    case _ => target
  }

  function ReadTargets(targets: seq<Target>, lex: Lexical): (r: seq<Target>)
    ensures |r| == |targets|
  {
    if targets == [] then [] else [ReadTarget(targets[0], lex)] + ReadTargets(targets[1..], lex)
  }

  function ReadJump(to: Jump, names: seq<Name>): Jump {
    if to.ToNext? then ToNext(to.loop, Denoted(to.vars, names)) else to
  }

  // Statements ----------------------------------------------------------------------------

  /** The scope of what follows a statement in its block. */
  function After(s: Stmt, lex: Lexical): Lexical
    decreases s
  {
    match s
    case Assign(targets, _) => lex.With(NewNames(ReadTargets(targets, lex)))
    case Declaring(list) => AfterList(list, lex)
    case _ => lex
  }

  function AfterList(list: seq<Stmt>, lex: Lexical): Lexical
    decreases list
  {
    if list == [] then lex else AfterList(list[1..], After(list[0], lex))
  }

  function ReadStmt(s: Stmt, lex: Lexical): Stmt
    decreases s
  {
    match s
    case Assign(targets, es) => Assign(ReadTargets(targets, lex), RespellAll(es, lex.Visible()))
    case FailWith(e) => FailWith(Respell(e, lex.Visible()))
    case PanicWith(e) => PanicWith(Respell(e, lex.Visible()))
    case Return(e) => Return(Respell(e, lex.Visible()))
    case Goto(to) => Goto(ReadJump(to, lex.Visible()))
    case Block(list) => Block(ReadList(list, lex.Enter()))
    case Declaring(list) => Declaring(ReadList(list, lex))
    case If(init, cond, thn, kind, els) =>
      var inner := AfterList(init, lex.Enter());
      If(ReadList(init, lex.Enter()), Respell(cond, inner.Visible()), ReadList(thn, inner.Enter()), kind, ReadList(els, inner.Enter()))
    case Switch(init, tag, clauses) =>
      var inner := AfterList(init, lex.Enter());
      Switch(ReadList(init, lex.Enter()), Respell(tag, inner.Visible()), ReadClauses(clauses, inner))
    case For(init, when, post, body) =>
      var inner := AfterList(init, lex.Enter());
      For(ReadList(init, lex.Enter()), RespellAll(when, inner.Visible()), ReadList(post, inner), ReadList(body, inner.Enter()))
    case Range(kind, over, bound, body) =>
      var bounds := ReadTargets(bound, lex.Enter());
      Range(kind, Respell(over, lex.Visible()), bounds, ReadList(body, lex.Enter().With(NewNames(bounds)).Enter()))
    case _ => s
  }

  function ReadList(list: seq<Stmt>, lex: Lexical): seq<Stmt>
    decreases list
  {
    if list == [] then [] else [ReadStmt(list[0], lex)] + ReadList(list[1..], After(list[0], lex))
  }

  function ReadClauses(clauses: seq<Clause>, lex: Lexical): seq<Clause>
    decreases clauses
  {
    if clauses == [] then []
    else
      [Clause(RespellAll(clauses[0].cases, lex.Visible()), clauses[0].isDefault, ReadList(clauses[0].body, lex.Enter()))]
      + ReadClauses(clauses[1..], lex)
  }

  /** Whether the compiler takes it: a := has something to declare, and a declaration declares what
      its block has not declared. */
  predicate CompilesStmt(s: Stmt, lex: Lexical)
    decreases s
  {
    match s
    case Assign(targets, _) => NewNames(targets) == [] || NewNames(ReadTargets(targets, lex)) != []
    case Block(list) => CompilesList(list, lex.Enter())
    case Declaring(list) =>
      && (list != [] && list[0].Assign? ==> ReadTargets(list[0].targets, lex) == list[0].targets)
      && CompilesList(list, lex)
    case If(init, _, thn, _, els) =>
      var inner := AfterList(init, lex.Enter());
      CompilesList(init, lex.Enter()) && CompilesList(thn, inner.Enter()) && CompilesList(els, inner.Enter())
    case Switch(init, _, clauses) =>
      CompilesList(init, lex.Enter()) && CompilesClauses(clauses, AfterList(init, lex.Enter()))
    case For(init, _, post, body) =>
      var inner := AfterList(init, lex.Enter());
      CompilesList(init, lex.Enter()) && CompilesList(post, inner) && CompilesList(body, inner.Enter())
    case Range(_, _, bound, body) =>
      CompilesList(body, lex.Enter().With(NewNames(ReadTargets(bound, lex.Enter()))).Enter())
    case _ => true
  }

  predicate CompilesList(list: seq<Stmt>, lex: Lexical)
    decreases list
  {
    list != [] ==> CompilesStmt(list[0], lex) && CompilesList(list[1..], After(list[0], lex))
  }

  predicate CompilesClauses(clauses: seq<Clause>, lex: Lexical)
    decreases clauses
  {
    clauses != [] ==> CompilesList(clauses[0].body, lex.Enter()) && CompilesClauses(clauses[1..], lex)
  }

  // Code ----------------------------------------------------------------------------------

  /** The scope inside an emitted loop's functions: their parameters have the names of all that the
      loop's init declares, and hide it. */
  function Parameters(vars: seq<Name>, lex: Lexical): Lexical {
    Lexical(vars, lex.Visible())
  }

  /** Emitted code as the compiler reads it. Every function literal is a block of its own. */
  function ReadCode(code: Code, lex: Lexical): Code {
    match code
    case Missing => Missing
    case Text(s, rest) => Text(ReadStmt(s, lex), ReadCode(rest, After(s, lex)))
    case Define(id, body, rest) => Define(id, ReadCode(body, lex.Enter()), ReadCode(rest, lex))
    case ReturnTo(to) => ReturnTo(ReadJump(to, lex.Visible()))
    case ReturnFx(fx) => ReturnFx(Respell(fx, lex.Visible()))
    case FlatMap(fx, temp, body) => FlatMap(Respell(fx, lex.Visible()), temp, ReadCode(body, lex.Enter()))
    case MapLast(fx, temp, before, answer) =>
      MapLast(Respell(fx, lex.Visible()), temp, ReadList(before, lex.Enter()),
              Respell(answer, AfterList(before, lex.Enter()).Visible()))
    case Scope(inner) => Scope(ReadCode(inner, lex.Enter()))
    case BranchIf(init, cond, thn, els) =>
      var inner := AfterList(init, lex.Enter());
      BranchIf(ReadList(init, lex.Enter()), Respell(cond, inner.Visible()), ReadCode(thn, inner.Enter()), ReadCode(els, inner.Enter()))
    case BranchSwitch(init, tag, clauses, bodies, after) =>
      var inner := AfterList(init, lex.Enter());
      BranchSwitch(ReadList(init, lex.Enter()), Respell(tag, inner.Visible()), ReadCases(clauses, inner.Visible()),
                   ReadCodes(bodies, inner.Enter()), ReadCode(after, lex))
    case LoopFor(loop, init, vars, when, post, body, after) =>
      var inner := Parameters(vars, lex);
      LoopFor(loop, ReadList(init, lex.Enter()), vars, RespellAll(when, inner.Visible()), ReadList(post, inner),
              ReadCode(body, inner), if when == [] then after else ReadCode(after, inner.Enter()))
    case LoopRange(loop, kind, over, held, index, bound, body, after) =>
      var bounds := ReadTargets(bound, lex.Enter());
      LoopRange(loop, kind, Respell(over, lex.Visible()), held, index, bounds,
                ReadCode(body, lex.Enter().With(NewNames(bounds))), ReadCode(after, lex.Enter()))
  }

  function ReadCodes(codes: seq<Code>, lex: Lexical): seq<Code> {
    if codes == [] then [] else [ReadCode(codes[0], lex)] + ReadCodes(codes[1..], lex)
  }

  /** The cases of an emitted switch; its bodies are code. */
  function ReadCases(clauses: seq<Clause>, names: seq<Name>): seq<Clause> {
    if clauses == [] then []
    else [clauses[0].(cases := RespellAll(clauses[0].cases, names))] + ReadCases(clauses[1..], names)
  }

  predicate CompilesCode(code: Code, lex: Lexical) {
    match code
    case Text(s, rest) => CompilesStmt(s, lex) && CompilesCode(rest, After(s, lex))
    case Define(_, body, rest) => CompilesCode(body, lex.Enter()) && CompilesCode(rest, lex)
    case FlatMap(_, _, body) => CompilesCode(body, lex.Enter())
    case MapLast(_, _, before, _) => CompilesList(before, lex.Enter())
    case Scope(inner) => CompilesCode(inner, lex.Enter())
    case BranchIf(init, _, thn, els) =>
      var inner := AfterList(init, lex.Enter());
      CompilesList(init, lex.Enter()) && CompilesCode(thn, inner.Enter()) && CompilesCode(els, inner.Enter())
    case BranchSwitch(init, _, _, bodies, after) =>
      CompilesList(init, lex.Enter()) && CompileAll(bodies, AfterList(init, lex.Enter()).Enter()) && CompilesCode(after, lex)
    case LoopFor(_, init, vars, when, post, body, after) =>
      var inner := Parameters(vars, lex);
      && CompilesList(init, lex.Enter()) && CompilesList(post, inner) && CompilesCode(body, inner)
      && (when == [] || CompilesCode(after, inner.Enter()))
    case LoopRange(_, _, _, _, _, bound, body, after) =>
      && CompilesCode(body, lex.Enter().With(NewNames(ReadTargets(bound, lex.Enter()))))
      && CompilesCode(after, lex.Enter())
    case _ => true
  }

  predicate CompileAll(codes: seq<Code>, lex: Lexical) {
    codes != [] ==> CompilesCode(codes[0], lex) && CompileAll(codes[1..], lex)
  }

  // Bodies whose emitted code reads as it was meant ---------------------------------------

  /** A jump back to a loop passes the loop's variables. */
  predicate Intact(to: Jump, lex: Lexical) {
    ReadJump(to, lex.Visible()) == to
  }

  /** Which loop a jump goes back to is of no matter here, only what it passes. */
  function Unnumbered(to: Jump): Jump {
    match to
    case Nowhere => Nowhere
    case ToContinuation(_) => ToContinuation(0)
    case ToNext(_, vars) => ToNext(0, vars)
    case ToNextIndex(_, _) => ToNextIndex(0, 0)
  }

  function UnnumberedBoth(jumps: Jumps): Jumps {
    Jumps(Unnumbered(jumps.brk), Unnumbered(jumps.cont))
  }

  /** In a statement that is spelled as it stands: where it breaks or continues a loop whose jumps
      are written out, their variables are not hidden. */
  predicate IntactText(s: Stmt, jumps: Jumps, lex: Lexical)
    decreases s
  {
    match s
    case Break => Intact(jumps.brk, lex)
    case Continue => Intact(jumps.cont, lex)
    case Block(list) => IntactTexts(list, jumps, lex.Enter())
    case If(init, _, thn, _, els) =>
      var inner := AfterList(init, lex.Enter());
      IntactTexts(thn, jumps, inner.Enter()) && IntactTexts(els, jumps, inner.Enter())
    case Switch(init, _, clauses) => IntactClauses(clauses, Jumps(Nowhere, jumps.cont), AfterList(init, lex.Enter()))
    case _ => true
  }

  predicate IntactTexts(list: seq<Stmt>, jumps: Jumps, lex: Lexical)
    decreases list
  {
    list != [] ==> IntactText(list[0], jumps, lex) && IntactTexts(list[1..], jumps, After(list[0], lex))
  }

  predicate IntactClauses(clauses: seq<Clause>, jumps: Jumps, lex: Lexical)
    decreases clauses
  {
    clauses != [] ==> IntactTexts(clauses[0].body, jumps, lex.Enter()) && IntactClauses(clauses[1..], jumps, lex)
  }

  /** What a list declares ahead of its first await. */
  function Lead(list: seq<Stmt>): seq<Name> {
    if list == [] || Needs(list[0]) then []
    else (if list[0].Assign? then NewNames(list[0].targets) else []) + Lead(list[1..])
  }

  predicate NoneOf(declared: seq<Name>, names: seq<Name>) {
    forall x :: x in declared ==> Apart(x, names)
  }

  /** Wherever a translated list is emitted to go on at `k`, to break or to continue, the variables of
      the loop that leads back to are not hidden there by another declaration; and nothing a loop's
      body declares ahead of its first await is spelled like a variable of that loop, which it shares
      a block with. */
  predicate IntactList(list: seq<Stmt>, k: Jump, jumps: Jumps, lex: Lexical)
    decreases ListSize(list), 4
  {
    if list == [] then Intact(k, lex)
    else if Needs(list[0]) then IntactStatement(list[0], list[1..], k, jumps, lex)
    else
      && IntactText(list[0], jumps, lex)
      && ((list[1..] == [] && Terminates(list[0], jumps)) || IntactList(list[1..], k, jumps, After(list[0], lex)))
  }

  predicate IntactStatement(s: Stmt, rest: seq<Stmt>, k: Jump, jumps: Jumps, lex: Lexical)
    decreases Size(s) + ListSize(rest), 3
  {
    if !IsCompound(s) then Terminates(s, jumps) || IntactList(rest, k, jumps, After(s, lex))
    else if rest == [] then IntactInside(s, k, jumps, lex)
    else IntactInside(s, ToContinuation(0), jumps, lex) && IntactList(rest, k, jumps, lex)
  }

  predicate IntactInside(s: Stmt, k: Jump, jumps: Jumps, lex: Lexical)
    requires IsCompound(s)
    decreases Size(s), 1
  {
    match s
    case Block(list) => IntactList(list, k, jumps, lex.Enter())
    case If(init, cond, thn, kind, els) =>
      if init != [] && (NeedsAny(init) || AwaitsIn(cond)) then
        SplitSize(init, s);
        IntactList(init + [If([], cond, thn, kind, els)], k, jumps, lex.Enter())
      else
        var inner := AfterList(init, lex.Enter());
        && IntactList(thn, k, jumps, inner.Enter())
        && (if kind == NoElse then Intact(k, inner) else IntactList(els, k, jumps, inner.Enter()))
    case Switch(init, tag, clauses) =>
      if init != [] && (NeedsAny(init) || AwaitsIn(tag)) then
        SplitSize(init, s);
        IntactList(init + [Switch([], tag, clauses)], k, jumps, lex.Enter())
      else
        && IntactBodies(clauses, k, Jumps(k, jumps.cont), AfterList(init, lex.Enter()).Enter())
        && (HasDefault(clauses) || Intact(k, lex))
    case For(init, when, _, body) =>
      var vars := LoopVars(init);
      var cont := ToNext(0, vars);
      && (when == [] || Intact(k, Parameters(vars, lex)))
      && NoneOf(Lead(body), vars) && IntactList(body, cont, Jumps(k, cont), Parameters(vars, lex).Enter())
    case Range(_, _, bound, body) =>
      var vars, cont := NewNames(bound), ToNextIndex(0, 0);
      && Intact(k, lex)
      && NoneOf(Lead(body), vars) && IntactList(body, cont, Jumps(k, cont), Parameters(vars, lex).Enter())
  }

  predicate IntactBodies(clauses: seq<Clause>, k: Jump, jumps: Jumps, lex: Lexical)
    decreases ClausesSize(clauses), 0
  {
    clauses != [] ==> IntactList(clauses[0].body, k, jumps, lex) && IntactBodies(clauses[1..], k, jumps, lex)
  }

  /** The names of a body denote what Go's compiler has found they do. */
  predicate Resolved(body: seq<Stmt>) {
    ReadList(body, OUTSIDE) == body
  }

  /** No loop variable is hidden where the emitter writes the jump that passes it on, or shares its
      block with a declaration spelled like it. */
  predicate Unshadowed(body: seq<Stmt>) {
    IntactList(body, Nowhere, NO_JUMPS, OUTSIDE)
  }

  // Reading expressions and targets -------------------------------------------------------

  lemma {:induction false} HoistReads(e: Expr, n: nat, names: seq<Name>)
    requires Respell(e, names) == e
    ensures var h := Hoist(e, n); Respell(h.e, names) == h.e && StepsRead(h.steps, names)
    decreases e
  {
    match e
    case Prim(_, args) => HoistAllReads(args, n, names);
    case Call(_, args) => HoistAllReads(args, n, names);
    case Await(fx, _) =>
      HoistReads(fx, n, names);
      var h := Hoist(fx, n);
      StepsReadBoth(h.steps, [Step(h.e, h.next)], names);
    case AndAlso(l, r) =>
      HoistReads(l, n, names);
      HoistReads(r, Hoist(l, n).next, names);
      StepsReadBoth(Hoist(l, n).steps, Hoist(r, Hoist(l, n).next).steps, names);
    case OrElse(l, r) =>
      HoistReads(l, n, names);
      HoistReads(r, Hoist(l, n).next, names);
      StepsReadBoth(Hoist(l, n).steps, Hoist(r, Hoist(l, n).next).steps, names);
    case _ =>
  }

  lemma {:induction false} HoistAllReads(es: seq<Expr>, n: nat, names: seq<Name>)
    requires RespellAll(es, names) == es
    ensures var h := HoistAll(es, n); RespellAll(h.es, names) == h.es && StepsRead(h.steps, names)
    decreases es
  {
    if es != [] {
      var h := Hoist(es[0], n);
      var hs := HoistAll(es[1..], h.next);
      assert RespellAll(es, names)[0] == es[0] && RespellAll(es, names)[1..] == es[1..];
      HoistReads(es[0], n, names);
      HoistAllReads(es[1..], h.next, names);
      StepsReadBoth(h.steps, hs.steps, names);
      assert ([h.e] + hs.es)[1..] == hs.es;
    }
  }

  predicate StepsRead(steps: seq<Step>, names: seq<Name>) {
    forall i :: 0 <= i < |steps| ==> Respell(steps[i].fx, names) == steps[i].fx
  }

  lemma {:induction false} StepsReadBoth(a: seq<Step>, b: seq<Step>, names: seq<Name>)
    requires StepsRead(a, names) && StepsRead(b, names)
    ensures StepsRead(a + b, names)
  {
  }

  /** Names spelled unlike an identifier do not hide it. */
  lemma {:induction false} DenotesPast(x: Name, names: seq<Name>, more: seq<Name>)
    requires Apart(x, names)
    ensures Denotes(x, names + more) == Denotes(x, more)
  {
    if names == [] {
      assert names + more == more;
    } else {
      assert (names + more)[1..] == names[1..] + more;
      DenotesPast(x, names[1..], more);
    }
  }

  predicate Once(names: seq<Name>) {
    names != [] ==> Apart(names[0], names[1..]) && Once(names[1..])
  }

  lemma {:induction false} DenotesDeclared(x: Name, names: seq<Name>, more: seq<Name>)
    requires x in names && Once(names)
    ensures Denotes(x, names + more) == x
  {
    assert (names + more)[1..] == names[1..] + more;
    if x != names[0] {
      assert x in names[1..];
      DenotesDeclared(x, names[1..], more);
    }
  }

  lemma {:induction false} RespellPast(e: Expr, names: seq<Name>, more: seq<Name>)
    requires SpelledApart(e, names)
    ensures Respell(e, names + more) == Respell(e, more)
    decreases e
  {
    match e
    case Var(x) => DenotesPast(x, names, more);
    case AddrOf(x) => DenotesPast(x, names, more);
    case Prim(_, args) => RespellAllPast(args, names, more);
    case Call(_, args) => RespellAllPast(args, names, more);
    case Await(fx, _) => RespellPast(fx, names, more);
    case AndAlso(l, r) => RespellPast(l, names, more); RespellPast(r, names, more);
    case OrElse(l, r) => RespellPast(l, names, more); RespellPast(r, names, more);
    case _ =>
  }

  lemma {:induction false} RespellAllPast(es: seq<Expr>, names: seq<Name>, more: seq<Name>)
    requires AllSpelledApart(es, names)
    ensures RespellAll(es, names + more) == RespellAll(es, more)
    decreases es
  {
    if es != [] {
      RespellPast(es[0], names, more);
      RespellAllPast(es[1..], names, more);
    }
  }

  /** Targets read as themselves one by one. */
  lemma {:induction false} TargetsRead(targets: seq<Target>, lex: Lexical)
    ensures ReadTargets(targets, lex) == targets <==> forall i :: 0 <= i < |targets| ==> ReadTarget(targets[i], lex) == targets[i]
  {
    if targets != [] {
      TargetsRead(targets[1..], lex);
      assert forall i :: 0 <= i < |targets[1..]| ==> targets[1..][i] == targets[i + 1];
      var r := ReadTargets(targets, lex);
      assert r[1..] == ReadTargets(targets[1..], lex);
      assert targets == [targets[0]] + targets[1..];
    }
  }

  lemma {:induction false} NewNamesAreNew(targets: seq<Target>, i: nat)
    requires i < |targets| && targets[i].New?
    ensures targets[i].name in NewNames(targets)
  {
    if i > 0 {
      NewNamesAreNew(targets[1..], i - 1);
    }
  }

  /** In a block that has declared no more of these names than another, a statement that reads as
      itself there reads as itself here. */
  lemma {:induction false} TargetsReadHere(targets: seq<Target>, lex: Lexical, other: Lexical)
    requires ReadTargets(targets, lex) == targets && lex.Visible() == other.Visible()
    requires forall x :: x in NewNames(targets) && Apart(x, lex.here) ==> Apart(x, other.here)
    ensures ReadTargets(targets, other) == targets
  {
    TargetsRead(targets, lex);
    forall i | 0 <= i < |targets|
      ensures ReadTarget(targets[i], other) == targets[i]
    {
      assert ReadTarget(targets[i], lex) == targets[i];
      if targets[i].New? {
        NewNamesAreNew(targets, i);
      }
    }
    TargetsRead(targets, other);
  }

  // Reading spelled statements ------------------------------------------------------------

  /** What a source statement declares in its block. */
  function Declares(s: Stmt): seq<Name> {
    if s.Assign? then NewNames(s.targets) else []
  }

  lemma {:induction false} ZerosRead(names: seq<Name>, more: seq<Name>, lex: Lexical)
    requires forall x :: x in names ==> Apart(x, lex.here)
    ensures RespellAll(Zeros(names), more) == Zeros(names)
    ensures ReadTargets(NewTargets(names), lex) == NewTargets(names) && NewNames(NewTargets(names)) == names
  {
    if names != [] {
      ZerosRead(names[1..], more, lex);
      assert Zeros(names)[1..] == Zeros(names[1..]) && NewTargets(names)[1..] == NewTargets(names[1..]);
      assert names == [names[0]] + names[1..];
    }
  }

  lemma {:induction false} NewAreTargets(targets: seq<Target>)
    ensures forall x :: x in NewNames(targets) ==> x in TargetNames(targets)
  {
    if targets != [] {
      NewAreTargets(targets[1..]);
    }
  }

  lemma {:induction false} OldAreTargets(targets: seq<Target>, i: nat)
    requires i < |targets| && targets[i].Old?
    ensures targets[i].name in TargetNames(targets)
  {
    if i > 0 {
      OldAreTargets(targets[1..], i - 1);
    }
  }

  lemma {:induction false} DeclaredOnce(targets: seq<Target>)
    requires TargetsApart(targets)
    ensures Once(NewNames(targets))
  {
    if targets != [] {
      var rest := targets[1..];
      DeclaredOnce(rest);
      NewAreTargets(rest);
      if targets[0].New? {
        assert ([targets[0].name] + NewNames(rest))[1..] == NewNames(rest);
      } else {
        assert NewNames(targets) == [] + NewNames(rest) == NewNames(rest);
      }
    }
  }

  lemma {:induction false} OldApartFromNew(targets: seq<Target>, i: nat)
    requires TargetsApart(targets) && i < |targets| && targets[i].Old?
    ensures Apart(targets[i].name, NewNames(targets))
  {
    var rest := targets[1..];
    NewAreTargets(rest);
    if i > 0 {
      OldApartFromNew(rest, i - 1);
      OldAreTargets(rest, i - 1);
    } else {
      assert NewNames(targets) == [] + NewNames(rest) == NewNames(rest);
    }
  }

  lemma {:induction false} OldTargetsRead(targets: seq<Target>, names: seq<Name>, lex: Lexical)
    requires Once(names)
    requires forall i :: 0 <= i < |targets| && targets[i].New? ==> targets[i].name in names
    requires forall i :: 0 <= i < |targets| && targets[i].Old? ==>
               Apart(targets[i].name, names) && Denotes(targets[i].name, lex.Visible()) == targets[i].name
    ensures ReadTargets(OldTargets(targets), lex.With(names)) == OldTargets(targets) && NewNames(OldTargets(targets)) == []
  {
    if targets != [] {
      var rest := targets[1..];
      assert forall i :: 0 <= i < |rest| ==> rest[i] == targets[i + 1];
      OldTargetsRead(rest, names, lex);
      assert lex.With(names).Visible() == names + lex.Visible();
      if targets[0].New? {
        DenotesDeclared(targets[0].name, names, lex.Visible());
      } else if targets[0].Old? {
        DenotesPast(targets[0].name, names, lex.Visible());
      }
      assert OldTargets(targets)[1..] == OldTargets(rest);
    }
  }

  /** A := reads as it was meant, as it stands or spelled as declarations and an assignment. */
  lemma {:induction false} AssignReads(targets: seq<Target>, es: seq<Expr>, lex: Lexical, other: Lexical)
    requires ReadTargets(targets, lex) == targets && RespellAll(es, lex.Visible()) == es && Unambiguous(targets, es)
    requires lex.Visible() == other.Visible()
    requires forall x :: x in NewNames(targets) && Apart(x, lex.here) ==> Apart(x, other.here)
    ensures ReadStmt(Redeclare(targets, es), other) == Redeclare(targets, es)
    ensures After(Redeclare(targets, es), other) == other.With(NewNames(targets))
  {
    TargetsReadHere(targets, lex, other);
    if Mixed(targets) {
      MixedReads(targets, es, other);
    }
  }

  lemma {:induction false} MixedReads(targets: seq<Target>, es: seq<Expr>, lex: Lexical)
    requires ReadTargets(targets, lex) == targets && RespellAll(es, lex.Visible()) == es && Unambiguous(targets, es) && Mixed(targets)
    ensures ReadStmt(Redeclare(targets, es), lex) == Redeclare(targets, es)
    ensures After(Redeclare(targets, es), lex) == lex.With(NewNames(targets))
  {
    var names := NewNames(targets);
    var declare, assign := Assign(NewTargets(names), Zeros(names)), Assign(OldTargets(targets), es);
    var inner := lex.With(names);
    RespellsNoneOf(es, names);
    assert Redeclare(targets, es) == Declaring([declare, assign]);
    TargetsRead(targets, lex);
    DeclaredOnce(targets);
    forall i | 0 <= i < |targets| && targets[i].New?
      ensures targets[i].name in names
    {
      NewNamesAreNew(targets, i);
    }
    forall i | 0 <= i < |targets| && targets[i].Old?
      ensures Apart(targets[i].name, names) && Denotes(targets[i].name, lex.Visible()) == targets[i].name
    {
      OldApartFromNew(targets, i);
      assert ReadTarget(targets[i], lex) == targets[i];
    }
    NewNamesApart(targets, lex);
    ZerosRead(names, lex.Visible(), lex);
    OldTargetsRead(targets, names, lex);
    RespellAllPast(es, names, lex.Visible());
    assert inner.Visible() == names + lex.Visible();
    assert ReadStmt(declare, lex) == declare && After(declare, lex) == inner;
    assert ReadStmt(assign, inner) == assign && After(assign, inner) == inner.With([]) == inner;
    TwoRead(declare, assign, lex);
  }

  lemma {:induction false} NewNamesApart(targets: seq<Target>, lex: Lexical)
    requires ReadTargets(targets, lex) == targets
    ensures forall x :: x in NewNames(targets) ==> Apart(x, lex.here)
  {
    if targets != [] {
      assert ReadTargets(targets, lex)[0] == targets[0] && ReadTargets(targets, lex)[1..] == targets[1..];
      NewNamesApart(targets[1..], lex);
    }
  }

  lemma {:induction false} TwoRead(a: Stmt, b: Stmt, lex: Lexical)
    ensures ReadList([a, b], lex) == [ReadStmt(a, lex), ReadStmt(b, After(a, lex))]
    ensures AfterList([a, b], lex) == After(b, After(a, lex))
  {
    assert [a, b][1..] == [b] && [b][1..] == [];
    var inner := After(a, lex);
    assert ReadList([b], inner) == [ReadStmt(b, inner)] + [];
    assert AfterList([b], inner) == AfterList([], After(b, inner));
  }

  lemma {:induction false} FirstReads(list: seq<Stmt>, lex: Lexical)
    requires list != [] && ReadList(list, lex) == list
    ensures ReadStmt(list[0], lex) == list[0] && ReadList(list[1..], After(list[0], lex)) == list[1..]
  {
    var r := ReadList(list, lex);
    assert r[0] == ReadStmt(list[0], lex) && r[1..] == ReadList(list[1..], After(list[0], lex));
  }

  /** A statement of the source, spelled in a block that may have declared less. */
  lemma {:induction false} SpellReads(s: Stmt, jumps: Jumps, m: nat, lex: Lexical, other: Lexical)
    requires Plain(s, m) && ReadStmt(s, lex) == s && IntactText(s, UnnumberedBoth(jumps), lex)
    requires lex.Visible() == other.Visible()
    requires forall x :: x in Declares(s) && Apart(x, lex.here) ==> Apart(x, other.here)
    ensures ReadStmt(Spell(s, jumps), other) == Spell(s, jumps)
    ensures After(Spell(s, jumps), other) == other.With(Declares(s)) && After(s, lex) == lex.With(Declares(s))
    decreases s
  {
    assert lex.Enter() == other.Enter();
    assert lex.With([]) == lex && other.With([]) == other;
    match s
    case Assign(targets, es) => AssignReads(targets, es, lex, other);
    case Break => UnnumberedIntact(jumps.brk, lex, other);
    case Continue => UnnumberedIntact(jumps.cont, lex, other);
    case Block(list) => SpellListReads(list, jumps, m, lex.Enter(), lex.Enter());
    case If(init, _, thn, _, els) =>
      var inner := AfterList(init, lex.Enter());
      SpellListReads(thn, jumps, m, inner.Enter(), inner.Enter());
      SpellListReads(els, jumps, m, inner.Enter(), inner.Enter());
    case Switch(init, _, clauses) =>
      assert UnnumberedBoth(Jumps(Nowhere, jumps.cont)) == Jumps(Nowhere, UnnumberedBoth(jumps).cont);
      SpellClausesRead(clauses, Jumps(Nowhere, jumps.cont), m, AfterList(init, lex.Enter()));
    case For(init, _, _, body) =>
      var inner := AfterList(init, lex.Enter()).Enter();
      NothingToHide(body, inner);
      SpellListReads(body, NO_JUMPS, m, inner, inner);
    case Range(_, _, bound, body) =>
      var inner := lex.Enter().With(NewNames(ReadTargets(bound, lex.Enter()))).Enter();
      NothingToHide(body, inner);
      SpellListReads(body, NO_JUMPS, m, inner, inner);
    case _ =>
  }

  lemma {:induction false} UnnumberedIntact(to: Jump, lex: Lexical, other: Lexical)
    requires Intact(Unnumbered(to), lex) && lex.Visible() == other.Visible()
    ensures ReadJump(to, other.Visible()) == to
  {
  }

  /** Without jumps written out there is nothing to hide. */
  lemma NothingToHide(list: seq<Stmt>, lex: Lexical)
    ensures IntactTexts(list, NO_JUMPS, lex)
    decreases list, 1
  {
    if list != [] {
      NothingHides(list[0], lex);
      NothingToHide(list[1..], After(list[0], lex));
    }
  }

  lemma NothingHides(s: Stmt, lex: Lexical)
    ensures IntactText(s, NO_JUMPS, lex)
    decreases s, 0
  {
    match s
    case Block(list) => NothingToHide(list, lex.Enter());
    case If(init, _, thn, _, els) =>
      NothingToHide(thn, AfterList(init, lex.Enter()).Enter());
      NothingToHide(els, AfterList(init, lex.Enter()).Enter());
    case Switch(init, _, clauses) => NothingHidesIn(clauses, AfterList(init, lex.Enter()));
    case _ =>
  }

  lemma NothingHidesIn(clauses: seq<Clause>, lex: Lexical)
    ensures IntactClauses(clauses, NO_JUMPS, lex)
    decreases clauses, 2
  {
    if clauses != [] {
      NothingToHide(clauses[0].body, lex.Enter());
      NothingHidesIn(clauses[1..], lex);
    }
  }

  lemma {:induction false} SpellListReads(list: seq<Stmt>, jumps: Jumps, m: nat, lex: Lexical, other: Lexical)
    requires AllPlainStmts(list, m) && ReadList(list, lex) == list && IntactTexts(list, UnnumberedBoth(jumps), lex)
    requires lex.Visible() == other.Visible() && forall x :: Apart(x, lex.here) ==> Apart(x, other.here)
    ensures ReadList(SpellList(list, jumps), other) == SpellList(list, jumps)
    ensures AfterList(SpellList(list, jumps), other).Visible() == AfterList(list, lex).Visible()
    decreases list
  {
    if list != [] {
      var s, rest := list[0], list[1..];
      FirstReads(list, lex);
      SpellReads(s, jumps, m, lex, other);
      DeclaringMore(Declares(s), lex, other);
      SpellListReads(rest, jumps, m, After(s, lex), After(Spell(s, jumps), other));
      assert SpellList(list, jumps)[1..] == SpellList(rest, jumps);
    }
  }

  lemma {:induction false} DeclaringMore(names: seq<Name>, lex: Lexical, other: Lexical)
    requires lex.Visible() == other.Visible() && forall x :: Apart(x, lex.here) ==> Apart(x, other.here)
    ensures lex.With(names).Visible() == other.With(names).Visible() == names + lex.Visible()
    ensures forall x :: Apart(x, lex.With(names).here) ==> Apart(x, other.With(names).here)
  {
    assert (names + lex.here) + lex.above == names + (lex.here + lex.above);
    assert (names + other.here) + other.above == names + (other.here + other.above);
    forall x | Apart(x, lex.With(names).here)
      ensures Apart(x, other.With(names).here)
    {
      assert forall y :: y in lex.here || y in names ==> y in names + lex.here;
      assert Apart(x, lex.here) && Apart(x, names);
    }
  }

  lemma {:induction false} SpellClausesRead(clauses: seq<Clause>, jumps: Jumps, m: nat, lex: Lexical)
    requires AllPlainClauses(clauses, m) && ReadClauses(clauses, lex) == clauses && IntactClauses(clauses, UnnumberedBoth(jumps), lex)
    ensures ReadClauses(SpellClauses(clauses, jumps), lex) == SpellClauses(clauses, jumps)
    decreases clauses
  {
    if clauses != [] {
      var r := ReadClauses(clauses, lex);
      assert r[0] == clauses[0] && r[1..] == clauses[1..];
      SpellListReads(clauses[0].body, jumps, m, lex.Enter(), lex.Enter());
      SpellClausesRead(clauses[1..], jumps, m, lex);
      assert SpellClauses(clauses, jumps)[1..] == SpellClauses(clauses[1..], jumps);
    }
  }

  // Reading emitted code ------------------------------------------------------------------

  /** A list's lead declares nothing that is declared here already. */
  predicate LeadFits(list: seq<Stmt>, lex: Lexical, other: Lexical) {
    forall x :: x in Lead(list) && Apart(x, lex.here) ==> Apart(x, other.here)
  }

  /** Where code within these steps' continuations stands. */
  function Within(steps: seq<Step>, lex: Lexical): (r: Lexical)
    ensures r.Visible() == lex.Visible() && r.Enter() == lex.Enter()
  {
    if steps == [] then lex else lex.Enter()
  }

  lemma {:induction false} ChainReads(steps: seq<Step>, inner: Code, lex: Lexical)
    requires StepsRead(steps, lex.Visible()) && ReadCode(inner, Within(steps, lex)) == inner
    ensures ReadCode(Chain(steps, inner), lex) == Chain(steps, inner)
  {
    if steps != [] {
      assert Within(steps[1..], lex.Enter()) == lex.Enter();
      ChainReads(steps[1..], inner, lex.Enter());
    }
  }

  lemma {:induction false} TerminatesUnnumbered(s: Stmt, jumps: Jumps)
    ensures Terminates(s, UnnumberedBoth(jumps)) == Terminates(s, jumps)
    decreases s
  {
    match s
    case Block(list) => if list != [] { TerminatesUnnumbered(list[|list| - 1], jumps); }
    case If(_, _, thn, _, els) =>
      if thn != [] { TerminatesUnnumbered(thn[|thn| - 1], jumps); }
      if els != [] { TerminatesUnnumbered(els[|els| - 1], jumps); }
    case _ =>
  }

  lemma {:induction false} GoReads(k: Jump, lex: Lexical, other: Lexical)
    requires Intact(Unnumbered(k), lex) && lex.Visible() == other.Visible()
    ensures ReadCode(Go(k), other) == Go(k)
  {
  }

  /** Where no loop variable is hidden, the code emitted for a list reads as it was meant. */
  lemma {:induction false} ListReads(list: seq<Stmt>, k: Jump, jumps: Jumps, n: nat, lex: Lexical, other: Lexical)
    requires AllPlainStmts(list, 0) && ReadList(list, lex) == list && List(list, k, jumps, n).Emitted?
    requires lex.Visible() == other.Visible() && LeadFits(list, lex, other)
    requires IntactList(list, Unnumbered(k), UnnumberedBoth(jumps), lex)
    ensures ReadCode(List(list, k, jumps, n).code, other) == List(list, k, jumps, n).code
    decreases ListSize(list), 4
  {
    if list == [] {
      GoReads(k, lex, other);
    } else {
      FirstReads(list, lex);
      if Needs(list[0]) {
        StatementReads(list[0], list[1..], k, jumps, n, lex, other);
      } else {
        TextReads(list, k, jumps, n, lex, other);
      }
    }
  }

  lemma {:induction false} TextReads(list: seq<Stmt>, k: Jump, jumps: Jumps, n: nat, lex: Lexical, other: Lexical)
    requires AllPlainStmts(list, 0) && ReadList(list, lex) == list && List(list, k, jumps, n).Emitted?
    requires lex.Visible() == other.Visible() && LeadFits(list, lex, other)
    requires IntactList(list, Unnumbered(k), UnnumberedBoth(jumps), lex) && list != [] && !Needs(list[0])
    ensures ReadCode(List(list, k, jumps, n).code, other) == List(list, k, jumps, n).code
    decreases ListSize(list), 3
  {
    var s, rest := list[0], list[1..];
    FirstReads(list, lex);
    TerminatesUnnumbered(s, jumps);
    SpellReads(s, jumps, 0, lex, other);
    if !(rest == [] && Terminates(s, jumps)) {
      LeadGoesOn(list, lex, other);
      ListReads(rest, k, jumps, n, After(s, lex), other.With(Declares(s)));
    }
  }

  lemma {:induction false} LeadGoesOn(list: seq<Stmt>, lex: Lexical, other: Lexical)
    requires list != [] && !Needs(list[0]) && LeadFits(list, lex, other) && lex.Visible() == other.Visible()
    ensures LeadFits(list[1..], lex.With(Declares(list[0])), other.With(Declares(list[0])))
    ensures lex.With(Declares(list[0])).Visible() == other.With(Declares(list[0])).Visible()
  {
    var names := Declares(list[0]);
    assert (names + lex.here) + lex.above == names + lex.Visible();
    assert (names + other.here) + other.above == names + other.Visible();
    forall x | x in Lead(list[1..]) && Apart(x, lex.With(names).here)
      ensures Apart(x, other.With(names).here)
    {
      assert forall y :: y in lex.here || y in names ==> y in names + lex.here;
      assert Apart(x, lex.here) && Apart(x, names) && x in Lead(list);
    }
  }

  lemma {:induction false} StatementReads(s: Stmt, rest: seq<Stmt>, k: Jump, jumps: Jumps, n: nat, lex: Lexical, other: Lexical)
    requires Plain(s, 0) && AllPlainStmts(rest, 0) && Needs(s) && Statement(s, rest, k, jumps, n).Emitted?
    requires ReadStmt(s, lex) == s && ReadList(rest, After(s, lex)) == rest && lex.Visible() == other.Visible()
    requires IntactStatement(s, rest, Unnumbered(k), UnnumberedBoth(jumps), lex)
    ensures ReadCode(Statement(s, rest, k, jumps, n).code, other) == Statement(s, rest, k, jumps, n).code
    decreases Size(s) + ListSize(rest), 3
  {
    if IsCompound(s) {
      if rest == [] {
        InsideReads(s, k, jumps, n, lex, other);
      } else {
        RejoinReads(s, rest, k, jumps, n, lex, other);
      }
    } else if s.Return? && s.answer.Await? && s.answer.own {
      var h := Hoist(s.answer.fx, n);
      HoistReads(s.answer.fx, n, lex.Visible());
      ChainReads(h.steps, ReturnFx(h.e), other);
    } else if EndsInValue(s, rest, k, jumps) && HoistAll(OwnExprs(s), n).steps != [] {
      ValueTailReads(s, rest, n, lex, other);
    } else {
      SimpleReads(s, rest, k, jumps, n, lex, other);
    }
  }

  lemma {:induction false} RejoinReads(s: Stmt, rest: seq<Stmt>, k: Jump, jumps: Jumps, n: nat, lex: Lexical, other: Lexical)
    requires Plain(s, 0) && AllPlainStmts(rest, 0) && IsCompound(s) && rest != [] && Rejoin(s, rest, k, jumps, n).Emitted?
    requires ReadStmt(s, lex) == s && ReadList(rest, lex) == rest && lex.Visible() == other.Visible()
    requires IntactStatement(s, rest, Unnumbered(k), UnnumberedBoth(jumps), lex)
    ensures ReadCode(Rejoin(s, rest, k, jumps, n).code, other) == Rejoin(s, rest, k, jumps, n).code
    decreases Size(s) + ListSize(rest), 2
  {
    var inner := Inside(s, ToContinuation(n), jumps, n + 1);
    InsideReads(s, ToContinuation(n), jumps, n + 1, lex, other);
    if Mentions(inner.code, n) {
      ListReads(rest, k, jumps, inner.next, lex, other.Enter());
    }
  }

  // Simple statements ---------------------------------------------------------------------

  lemma {:induction false} AwaitsHoist(e: Expr, n: nat)
    requires AwaitsIn(e)
    ensures Hoist(e, n).steps != []
    decreases e
  {
    match e
    case Prim(_, args) => AnyAwaitsHoist(args, n);
    case Call(_, args) => AnyAwaitsHoist(args, n);
    case AndAlso(l, r) => if AwaitsIn(l) { AwaitsHoist(l, n); } else { AwaitsHoist(r, Hoist(l, n).next); }
    case OrElse(l, r) => if AwaitsIn(l) { AwaitsHoist(l, n); } else { AwaitsHoist(r, Hoist(l, n).next); }
    case _ =>
  }

  lemma {:induction false} AnyAwaitsHoist(es: seq<Expr>, n: nat)
    requires AwaitsInAny(es)
    ensures HoistAll(es, n).steps != []
    decreases es
  {
    if AwaitsIn(es[0]) {
      AwaitsHoist(es[0], n);
    } else {
      AnyAwaitsHoist(es[1..], Hoist(es[0], n).next);
    }
  }

  /** A statement with its steps' values in place, spelled where they are in scope. */
  lemma {:induction false} HoistedReads(s: Stmt, n: nat, lex: Lexical, other: Lexical)
    requires (IsPlain(s) || s.Return?) && Plain(s, 0) && Needs(s) && ReadStmt(s, lex) == s && lex.Visible() == other.Visible()
    ensures var h := HoistAll(OwnExprs(s), n);
            var s', inner := WithExprs(s, h.es), Within(h.steps, other);
            && StepsRead(h.steps, other.Visible()) && ReadStmt(s', lex) == s' && Plain(s', h.next) && Declares(s') == Declares(s)
            && ReadStmt(Spell(s', NO_JUMPS), inner) == Spell(s', NO_JUMPS)
            && After(Spell(s', NO_JUMPS), inner) == inner.With(Declares(s)) && After(s, lex) == lex.With(Declares(s))
            && (s.Assign? ==> inner.here == [])
  {
    var es := OwnExprs(s);
    var h := HoistAll(es, n);
    var s', inner := WithExprs(s, h.es), Within(h.steps, other);
    assert RespellAll(es, lex.Visible()) == es by {
      if !s.Assign? {
        assert es[1..] == [] && [es[0]] + [] == es;
      }
    }
    HoistAllReads(es, n, lex.Visible());
    HoistedPlain(s, n);
    assert lex.With([]) == lex && inner.With([]) == inner;
    if s.Assign? {
      AnyAwaitsHoist(es, n);
      AssignReads(s.targets, h.es, lex, inner);
    } else {
      assert h.es == [h.es[0]] && RespellAll(h.es, lex.Visible())[0] == h.es[0];
    }
  }

  lemma {:induction false} SimpleReads(s: Stmt, rest: seq<Stmt>, k: Jump, jumps: Jumps, n: nat, lex: Lexical, other: Lexical)
    requires (IsPlain(s) || s.Return?) && Plain(s, 0) && AllPlainStmts(rest, 0) && Needs(s)
    requires var h := HoistAll(OwnExprs(s), n); Terminates(s, jumps) || List(rest, k, jumps, h.next).Emitted?
    requires ReadStmt(s, lex) == s && ReadList(rest, After(s, lex)) == rest && lex.Visible() == other.Visible()
    requires IntactStatement(s, rest, Unnumbered(k), UnnumberedBoth(jumps), lex)
    ensures var h := HoistAll(OwnExprs(s), n);
            var tail := if Terminates(s, jumps) then Missing else List(rest, k, jumps, h.next).code;
            var code := Chain(h.steps, Text(Spell(WithExprs(s, h.es), NO_JUMPS), tail));
            ReadCode(code, other) == code
    decreases Size(s) + ListSize(rest), 2
  {
    var h := HoistAll(OwnExprs(s), n);
    var s', inner := WithExprs(s, h.es), Within(h.steps, other);
    var tail := if Terminates(s, jumps) then Missing else List(rest, k, jumps, h.next).code;
    HoistedReads(s, n, lex, other);
    TerminatesUnnumbered(s, jumps);
    if !Terminates(s, jumps) {
      DeclaringMore(Declares(s), lex, inner);
      ListReads(rest, k, jumps, h.next, After(s, lex), inner.With(Declares(s)));
    }
    ChainReads(h.steps, Text(Spell(s', NO_JUMPS), tail), other);
  }

  lemma {:induction false} ValueTailReads(s: Stmt, rest: seq<Stmt>, n: nat, lex: Lexical, other: Lexical)
    requires EndsInValue(s, rest, Nowhere, NO_JUMPS) && HoistAll(OwnExprs(s), n).steps != [] && !IsCompound(s)
    requires Plain(s, 0) && AllPlainStmts(rest, 0) && Needs(s)
    requires ReadStmt(s, lex) == s && ReadList(rest, After(s, lex)) == rest && lex.Visible() == other.Visible()
    ensures ReadCode(ValueTail(s, rest, n).code, other) == ValueTail(s, rest, n).code
  {
    var h := HoistAll(OwnExprs(s), n);
    var last := |h.steps| - 1;
    var final := h.steps[last];
    var s', inner := WithExprs(s, h.es), Within(h.steps[..last], other);
    EndingIsPlain(s, rest);
    HoistedReads(s, n, lex, other);
    assert StepsRead(h.steps[..last], other.Visible()) && Respell(final.fx, other.Visible()) == final.fx;
    if rest == [] {
      assert AfterList([], inner.Enter()) == inner.Enter() && inner.Enter().Visible() == lex.Visible();
      ChainReads(h.steps[..last], MapLast(final.fx, final.temp, [], s'.answer), other);
    } else {
      var before := [s'] + rest[..|rest| - 1];
      var answer := rest[|rest| - 1];
      MapReads(s', rest, h.next, lex, inner.Enter());
      ChainReads(h.steps[..last], MapLast(final.fx, final.temp, SpellList(before, NO_JUMPS), answer.answer), other);
    }
  }

  lemma {:induction false} EndingIsPlain(s: Stmt, rest: seq<Stmt>)
    requires EndsInValue(s, rest, Nowhere, NO_JUMPS)
    ensures IsPlain(s) || s.Return?
    ensures rest == [] ==> s.Return?
    ensures rest != [] ==> AllPlain(rest[..|rest| - 1])
  {
    var following := [s] + rest;
    if rest != [] {
      assert following[..|following| - 1][0] == s && following[..|following| - 1][1..] == rest[..|rest| - 1];
    }
  }

  lemma {:induction false} ReadsInParts(a: seq<Stmt>, b: seq<Stmt>, lex: Lexical)
    ensures ReadList(a + b, lex) == ReadList(a, lex) + ReadList(b, AfterList(a, lex)) && |ReadList(a, lex)| == |a|
    ensures AfterList(a + b, lex) == AfterList(b, AfterList(a, lex))
    decreases |a|
  {
    if a == [] {
      assert a + b == b;
    } else {
      assert (a + b)[1..] == a[1..] + b;
      ReadsInParts(a[1..], b, After(a[0], lex));
    }
  }

  lemma {:induction false} PartsRead(a: seq<Stmt>, b: seq<Stmt>, lex: Lexical)
    requires ReadList(a + b, lex) == a + b
    ensures ReadList(a, lex) == a && ReadList(b, AfterList(a, lex)) == b
  {
    ReadsInParts(a, b, lex);
    var r := ReadList(a, lex);
    assert r == (a + b)[..|a|] == a;
    assert ReadList(b, AfterList(a, lex)) == (a + b)[|a|..] == b;
  }

  lemma {:induction false} PlainParts(a: seq<Stmt>, b: seq<Stmt>)
    requires AllPlainStmts(a + b, 0)
    ensures AllPlainStmts(a, 0)
  {
    if a != [] {
      assert (a + b)[1..] == a[1..] + b;
      PlainParts(a[1..], b);
    }
  }

  lemma {:induction false} PlainMore(list: seq<Stmt>, m: nat)
    requires AllPlain(list) && AllPlainStmts(list, 0)
    ensures AllPlainStmts(list, m)
  {
    if list != [] {
      match list[0] {
        case Assign(_, es) => AllTempsBelowMore(es, 0, m);
        case FailWith(e) => TempsBelowMore(e, 0, m);
        case PanicWith(e) => TempsBelowMore(e, 0, m);
      }
      PlainMore(list[1..], m);
    }
  }

  lemma {:induction false} MapReads(s: Stmt, rest: seq<Stmt>, m: nat, lex: Lexical, other: Lexical)
    requires Plain(s, m) && AllPlainStmts(rest, 0) && rest != [] && rest[|rest| - 1].Return? && AllPlain(rest[..|rest| - 1])
    requires ReadStmt(s, lex) == s && ReadList(rest, lex.With(Declares(s))) == rest && After(s, lex) == lex.With(Declares(s))
    requires lex.Visible() == other.Visible() && other.here == []
    ensures var before := SpellList([s] + rest[..|rest| - 1], NO_JUMPS);
            && ReadList(before, other) == before
            && Respell(rest[|rest| - 1].answer, AfterList(before, other).Visible()) == rest[|rest| - 1].answer
  {
    var init, last := rest[..|rest| - 1], rest[|rest| - 1];
    var list := [s] + init;
    assert rest == init + [last];
    PartsRead(init, [last], lex.With(Declares(s)));
    assert list[1..] == init;
    assert ReadList(list, lex) == [s] + ReadList(init, lex.With(Declares(s)));
    assert AfterList(list, lex) == AfterList(init, lex.With(Declares(s)));
    PlainParts(init, [last]);
    PlainMore(init, m);
    NothingToHide(list, lex);
    assert AllPlainStmts(list, m);
    SpellListReads(list, NO_JUMPS, m, lex, other);
    FirstReads([last], AfterList(init, lex.With(Declares(s))));
  }

  // Branching statements ------------------------------------------------------------------

  lemma {:induction false} InsideReads(s: Stmt, k: Jump, jumps: Jumps, n: nat, lex: Lexical, other: Lexical)
    requires Plain(s, 0) && IsCompound(s) && Inside(s, k, jumps, n).Emitted?
    requires ReadStmt(s, lex) == s && lex.Visible() == other.Visible()
    requires IntactInside(s, Unnumbered(k), UnnumberedBoth(jumps), lex)
    ensures ReadCode(Inside(s, k, jumps, n).code, other) == Inside(s, k, jumps, n).code
    decreases Size(s), 2
  {
    match s
    case Block(list) => ListReads(list, k, jumps, n, lex.Enter(), other.Enter());
    case If(_, _, _, _, _) => IfInsideReads(s, k, jumps, n, lex, other);
    case Switch(_, _, _) => SwitchInsideReads(s, k, jumps, n, lex, other);
    case For(_, _, _, _) => ForReads(s, k, jumps, n, lex, other);
    case Range(_, _, _, _) => RangeReads(s, k, jumps, n, lex, other);
  }

  lemma {:induction false} IfInsideReads(s: Stmt, k: Jump, jumps: Jumps, n: nat, lex: Lexical, other: Lexical)
    requires Plain(s, 0) && s.If? && Inside(s, k, jumps, n).Emitted?
    requires ReadStmt(s, lex) == s && lex.Visible() == other.Visible()
    requires IntactInside(s, Unnumbered(k), UnnumberedBoth(jumps), lex)
    ensures ReadCode(Inside(s, k, jumps, n).code, other) == Inside(s, k, jumps, n).code
    decreases Size(s), 1
  {
    if s.init != [] && (NeedsAny(s.init) || AwaitsIn(s.cond)) {
      SplitReads(s, If([], s.cond, s.thn, s.elseKind, s.els), k, jumps, n, lex, other);
    } else {
      IfReads(s, k, jumps, n, lex, other);
    }
  }

  lemma {:induction false} SwitchInsideReads(s: Stmt, k: Jump, jumps: Jumps, n: nat, lex: Lexical, other: Lexical)
    requires Plain(s, 0) && s.Switch? && Inside(s, k, jumps, n).Emitted?
    requires ReadStmt(s, lex) == s && lex.Visible() == other.Visible()
    requires IntactInside(s, Unnumbered(k), UnnumberedBoth(jumps), lex)
    ensures ReadCode(Inside(s, k, jumps, n).code, other) == Inside(s, k, jumps, n).code
    decreases Size(s), 1
  {
    if s.init != [] && (NeedsAny(s.init) || AwaitsIn(s.tag)) {
      SplitReads(s, Switch([], s.tag, s.clauses), k, jumps, n, lex, other);
    } else {
      SwitchReads(s, k, jumps, n, lex, other);
    }
  }

  lemma {:induction false} SplitReads(s: Stmt, bare: Stmt, k: Jump, jumps: Jumps, n: nat, lex: Lexical, other: Lexical)
    requires Plain(s, 0) && (s.If? || s.Switch?) && s.init != [] && ReadStmt(s, lex) == s && lex.Visible() == other.Visible()
    requires s.If? ==> bare == If([], s.cond, s.thn, s.elseKind, s.els)
    requires s.Switch? ==> bare == Switch([], s.tag, s.clauses)
    requires List(s.init + [bare], k, jumps, n).Emitted?
    requires IntactList(s.init + [bare], Unnumbered(k), UnnumberedBoth(jumps), lex.Enter())
    ensures ReadCode(List(s.init + [bare], k, jumps, n).code, other.Enter()) == List(s.init + [bare], k, jumps, n).code
    decreases Size(s), 0
  {
    var list := s.init + [bare];
    var inner := AfterList(s.init, lex.Enter());
    SplitSize(s.init, s);
    ReadsInParts(s.init, [bare], lex.Enter());
    assert AfterList([], inner.Enter()) == inner.Enter() && inner.Enter().Enter() == inner.Enter() && inner.Enter().Visible() == inner.Visible();
    assert ReadStmt(bare, inner) == bare by {
      if s.Switch? {
        ClausesReadInside(s.clauses, inner, inner.Enter());
      }
    }
    assert ReadList([bare], inner) == [bare] by {
      assert [bare][1..] == [];
    }
    assert AllPlainStmts(list, 0) by {
      assert list[0] == s.init[0] && list[1..] == [bare] && [bare][1..] == [];
      assert Simple([], 0) && Plain(bare, 0);
      assert AllPlainStmts([bare], 0);
    }
    ListReads(list, k, jumps, n, lex.Enter(), other.Enter());
  }

  lemma {:induction false} ClausesReadInside(clauses: seq<Clause>, lex: Lexical, other: Lexical)
    requires lex.Visible() == other.Visible()
    ensures ReadClauses(clauses, lex) == ReadClauses(clauses, other)
  {
    if clauses != [] {
      assert lex.Enter() == other.Enter();
      ClausesReadInside(clauses[1..], lex, other);
    }
  }

  /** A header whose init stands ahead of its steps has no steps. */
  lemma {:induction false} HeaderReads(init: seq<Stmt>, e: Expr, n: nat, lex: Lexical, other: Lexical)
    requires (init == [] || !AwaitsIn(e)) && Respell(e, AfterList(init, lex.Enter()).Visible()) == e && lex.Visible() == other.Visible()
    ensures var h := Hoist(e, n); Respell(h.e, AfterList(init, lex.Enter()).Visible()) == h.e && StepsRead(h.steps, other.Visible())
  {
    HoistReads(e, n, AfterList(init, lex.Enter()).Visible());
    if init == [] {
      assert AfterList(init, lex.Enter()).Visible() == lex.Visible();
    } else {
      NothingToHoist(e, n);
    }
  }

  lemma {:induction false} IfReads(s: Stmt, k: Jump, jumps: Jumps, n: nat, lex: Lexical, other: Lexical)
    requires Plain(s, 0) && s.If? && (s.init == [] || !AwaitsIn(s.cond)) && ReadStmt(s, lex) == s && lex.Visible() == other.Visible()
    requires IfStatement(s, Hoist(s.cond, n).e, k, jumps, Hoist(s.cond, n).next).Emitted?
    requires var inner := AfterList(s.init, lex.Enter());
             && IntactList(s.thn, Unnumbered(k), UnnumberedBoth(jumps), inner.Enter())
             && (if s.elseKind == NoElse then Intact(Unnumbered(k), inner)
                 else IntactList(s.els, Unnumbered(k), UnnumberedBoth(jumps), inner.Enter()))
    ensures var h := Hoist(s.cond, n);
            var code := Chain(h.steps, IfStatement(s, h.e, k, jumps, h.next).code);
            ReadCode(code, other) == code
    decreases Size(s), 0
  {
    var h := Hoist(s.cond, n);
    var inner := AfterList(s.init, lex.Enter());
    var at := Within(h.steps, other);
    var code := IfStatement(s, h.e, k, jumps, h.next).code;
    HeaderReads(s.init, s.cond, n, lex, other);
    assert at.Enter() == lex.Enter();
    ListReads(s.thn, k, jumps, h.next, inner.Enter(), inner.Enter());
    if s.elseKind == NoElse {
      GoReads(k, inner, inner.Enter());
    } else {
      ListReads(s.els, k, jumps, List(s.thn, k, jumps, h.next).next, inner.Enter(), inner.Enter());
    }
    assert ReadCode(code, at) == code;
    ChainReads(h.steps, code, other);
  }

  lemma {:induction false} SwitchReads(s: Stmt, k: Jump, jumps: Jumps, n: nat, lex: Lexical, other: Lexical)
    requires Plain(s, 0) && s.Switch? && (s.init == [] || !AwaitsIn(s.tag)) && ReadStmt(s, lex) == s && lex.Visible() == other.Visible()
    requires SwitchStatement(s, Hoist(s.tag, n).e, k, jumps, Hoist(s.tag, n).next).Emitted?
    requires IntactBodies(s.clauses, Unnumbered(k), Jumps(Unnumbered(k), UnnumberedBoth(jumps).cont), AfterList(s.init, lex.Enter()).Enter())
    requires HasDefault(s.clauses) || Intact(Unnumbered(k), lex)
    ensures var h := Hoist(s.tag, n);
            var code := Chain(h.steps, SwitchStatement(s, h.e, k, jumps, h.next).code);
            ReadCode(code, other) == code
    decreases Size(s), 0
  {
    var h := Hoist(s.tag, n);
    var inner := AfterList(s.init, lex.Enter());
    var at := Within(h.steps, other);
    var code := SwitchStatement(s, h.e, k, jumps, h.next).code;
    HeaderReads(s.init, s.tag, n, lex, other);
    assert at.Enter() == lex.Enter();
    CasesRead(s.clauses, inner);
    BodiesRead(s.clauses, k, Jumps(k, jumps.cont), h.next, inner);
    if !HasDefault(s.clauses) {
      GoReads(k, lex, at);
    }
    assert ReadCode(code, at) == code;
    ChainReads(h.steps, code, other);
  }

  lemma {:induction false} CasesRead(clauses: seq<Clause>, lex: Lexical)
    requires ReadClauses(clauses, lex) == clauses
    ensures ReadCases(clauses, lex.Visible()) == clauses
  {
    if clauses != [] {
      var r := ReadClauses(clauses, lex);
      assert r[0] == clauses[0] && r[1..] == clauses[1..];
      CasesRead(clauses[1..], lex);
    }
  }

  lemma {:induction false} BodiesRead(clauses: seq<Clause>, k: Jump, jumps: Jumps, n: nat, lex: Lexical)
    requires AllPlainClauses(clauses, 0) && ReadClauses(clauses, lex) == clauses && ClauseBodies(clauses, k, jumps, n).Bodies?
    requires IntactBodies(clauses, Unnumbered(k), UnnumberedBoth(jumps), lex.Enter())
    ensures ReadCodes(ClauseBodies(clauses, k, jumps, n).codes, lex.Enter()) == ClauseBodies(clauses, k, jumps, n).codes
    decreases ClausesSize(clauses), 0
  {
    if clauses != [] {
      var r := ReadClauses(clauses, lex);
      assert r[0] == clauses[0] && r[1..] == clauses[1..];
      var first := List(clauses[0].body, k, jumps, n);
      ListReads(clauses[0].body, k, jumps, n, lex.Enter(), lex.Enter());
      BodiesRead(clauses[1..], k, jumps, first.next, lex);
      var rest := ClauseBodies(clauses[1..], k, jumps, first.next).codes;
      assert ([first.code] + rest)[1..] == rest;
    }
  }

  // Loops ---------------------------------------------------------------------------------

  /** What a loop's init declares is what its functions have as parameters. */
  lemma {:induction false} InitBecomesParameters(init: seq<Stmt>, lex: Lexical)
    requires ReadList(init, lex.Enter()) == init && |init| <= 1 && (init != [] ==> init[0].Assign?)
    ensures AfterList(init, lex.Enter()) == Parameters(LoopVars(init), lex)
  {
    if init == [] {
      assert [] + lex.Visible() == lex.Visible();
    } else {
      FirstReads(init, lex.Enter());
      assert init[1..] == [];
      var names := NewNames(init[0].targets);
      assert names + [] == names;
      assert After(init[0], lex.Enter()) == lex.Enter().With(names) == Lexical(names, lex.Visible());
    }
  }

  lemma {:induction false} ForReads(s: Stmt, k: Jump, jumps: Jumps, n: nat, lex: Lexical, other: Lexical)
    requires Plain(s, 0) && s.For? && ForLoop(s, k, n).Emitted?
    requires ReadStmt(s, lex) == s && lex.Visible() == other.Visible()
    requires IntactInside(s, Unnumbered(k), UnnumberedBoth(jumps), lex)
    ensures ReadCode(ForLoop(s, k, n).code, other) == ForLoop(s, k, n).code
    decreases Size(s), 0
  {
    var vars := LoopVars(s.init);
    var cont, inner := ToNext(n, vars), Parameters(vars, lex);
    InitBecomesParameters(s.init, lex);
    assert lex.Enter() == other.Enter() && inner == Parameters(vars, other);
    assert [] + inner.Visible() == inner.Visible();
    assert UnnumberedBoth(Jumps(k, cont)) == Jumps(Unnumbered(k), ToNext(0, vars)) && Unnumbered(cont) == ToNext(0, vars);
    ListReads(s.body, cont, Jumps(k, cont), n + 1, inner.Enter(), inner);
    if s.when != [] {
      GoReads(k, inner, inner.Enter());
    }
  }

  lemma {:induction false} RangeReads(s: Stmt, k: Jump, jumps: Jumps, n: nat, lex: Lexical, other: Lexical)
    requires Plain(s, 0) && s.Range? && RangeLoop(s, k, n).Emitted?
    requires ReadStmt(s, lex) == s && lex.Visible() == other.Visible()
    requires IntactInside(s, Unnumbered(k), UnnumberedBoth(jumps), lex)
    ensures ReadCode(RangeLoop(s, k, n).code, other) == RangeLoop(s, k, n).code
    decreases Size(s), 0
  {
    var h := Hoist(s.over, n);
    HoistReads(s.over, n, lex.Visible());
    ElementsRead(s, k, h.next, lex);
    GoReads(k, lex, lex.Enter());
    var cont := ToNextIndex(h.next + 2, h.next + 1);
    var body := List(s.body, cont, Jumps(k, cont), h.next + 3).code;
    RangeCodeReads(LoopRange(h.next + 2, s.kind, h.e, h.next, h.next + 1, s.bound, body, Go(k)), lex, Within(h.steps, other));
    ChainReads(h.steps, LoopRange(h.next + 2, s.kind, h.e, h.next, h.next + 1, s.bound, body, Go(k)), other);
  }

  lemma {:induction false} RangeCodeReads(code: Code, lex: Lexical, at: Lexical)
    requires code.LoopRange? && at.Enter() == lex.Enter() && at.Visible() == lex.Visible()
    requires Respell(code.over, lex.Visible()) == code.over && ReadTargets(code.bound, lex.Enter()) == code.bound
    requires ReadCode(code.body, lex.Enter().With(NewNames(code.bound))) == code.body && ReadCode(code.after, lex.Enter()) == code.after
    ensures ReadCode(code, at) == code
  {
  }

  lemma {:induction false} ElementsRead(s: Stmt, k: Jump, n: nat, lex: Lexical)
    requires Plain(s, 0) && s.Range? && ReadStmt(s, lex) == s && IntactInside(s, Unnumbered(k), UnnumberedBoth(NO_JUMPS), lex)
    requires var cont := ToNextIndex(n + 2, n + 1); List(s.body, cont, Jumps(k, cont), n + 3).Emitted?
    ensures var cont := ToNextIndex(n + 2, n + 1);
            var body := List(s.body, cont, Jumps(k, cont), n + 3).code;
            ReadCode(body, lex.Enter().With(NewNames(s.bound))) == body && ReadTargets(s.bound, lex.Enter()) == s.bound
    decreases ListSize(s.body), 5
  {
    var vars, cont := NewNames(s.bound), ToNextIndex(n + 2, n + 1);
    var inner := lex.Enter().With(vars);
    assert ReadTargets(s.bound, lex.Enter()) == s.bound;
    assert vars + [] == vars && inner == Parameters(vars, lex);
    assert [] + inner.Visible() == inner.Visible();
    assert UnnumberedBoth(Jumps(k, cont)) == Jumps(Unnumbered(k), ToNextIndex(0, 0)) && Unnumbered(cont) == ToNextIndex(0, 0);
    ListReads(s.body, cont, Jumps(k, cont), n + 3, inner.Enter(), inner);
  }

  // Whole bodies --------------------------------------------------------------------------

  /** The emitted replacement of a body, as the compiler reads it. */
  function ReadBody(body: seq<Stmt>): Code
    requires Body(body).Emitted?
  {
    ReadCode(Body(body).code, OUTSIDE)
  }

  predicate BodyCompiles(body: seq<Stmt>)
    requires Body(body).Emitted?
  {
    CompilesCode(Body(body).code, OUTSIDE)
  }

  /** The rewrite of a body that hides no loop variable compiles, and reads as it was meant. */
  lemma {:induction false} UnshadowedReadsAsMeant(body: seq<Stmt>)
    requires Body(body).Emitted? && AllPlainStmts(body, 0) && Resolved(body) && Unshadowed(body)
    ensures BodyCompiles(body) && ReadBody(body) == Body(body).code
  {
    ListReads(body, Nowhere, NO_JUMPS, 0, OUTSIDE, OUTSIDE);
    MeantCompiles(Body(body).code, OUTSIDE);
  }

  /** What reads as it was meant declares what it meant to. */
  lemma {:induction false} MeantCompiles(code: Code, lex: Lexical)
    requires ReadCode(code, lex) == code
    ensures CompilesCode(code, lex)
    decreases code
  {
    match code
    case Text(s, rest) => MeantStmtCompiles(s, lex); MeantCompiles(rest, After(s, lex));
    case Define(_, body, rest) => MeantCompiles(body, lex.Enter()); MeantCompiles(rest, lex);
    case FlatMap(_, _, body) => MeantCompiles(body, lex.Enter());
    case MapLast(_, _, before, _) => MeantListCompiles(before, lex.Enter());
    case Scope(inner) => MeantCompiles(inner, lex.Enter());
    case BranchIf(init, _, thn, els) =>
      var inner := AfterList(init, lex.Enter());
      MeantListCompiles(init, lex.Enter());
      MeantCompiles(thn, inner.Enter());
      MeantCompiles(els, inner.Enter());
    case BranchSwitch(init, _, _, bodies, after) =>
      MeantListCompiles(init, lex.Enter());
      MeantCodesCompile(bodies, AfterList(init, lex.Enter()).Enter());
      MeantCompiles(after, lex);
    case LoopFor(_, init, vars, when, post, body, after) =>
      var inner := Parameters(vars, lex);
      MeantListCompiles(init, lex.Enter());
      MeantListCompiles(post, inner);
      MeantCompiles(body, inner);
      if when != [] {
        MeantCompiles(after, inner.Enter());
      }
    case LoopRange(_, _, _, _, _, bound, body, after) =>
      MeantCompiles(body, lex.Enter().With(NewNames(bound)));
      MeantCompiles(after, lex.Enter());
    case _ =>
  }

  lemma {:induction false} MeantCodesCompile(codes: seq<Code>, lex: Lexical)
    requires ReadCodes(codes, lex) == codes
    ensures CompileAll(codes, lex)
    decreases codes
  {
    if codes != [] {
      var r := ReadCodes(codes, lex);
      assert r[0] == codes[0] && r[1..] == codes[1..];
      MeantCompiles(codes[0], lex);
      MeantCodesCompile(codes[1..], lex);
    }
  }

  lemma {:induction false} MeantStmtCompiles(s: Stmt, lex: Lexical)
    requires ReadStmt(s, lex) == s
    ensures CompilesStmt(s, lex)
    decreases s
  {
    match s
    case Block(list) => MeantListCompiles(list, lex.Enter());
    case Declaring(list) =>
      MeantListCompiles(list, lex);
      if list != [] {
        FirstReads(list, lex);
      }
    case If(init, _, thn, _, els) =>
      var inner := AfterList(init, lex.Enter());
      MeantListCompiles(init, lex.Enter());
      MeantListCompiles(thn, inner.Enter());
      MeantListCompiles(els, inner.Enter());
    case Switch(init, _, clauses) =>
      MeantListCompiles(init, lex.Enter());
      MeantClausesCompile(clauses, AfterList(init, lex.Enter()));
    case For(init, _, post, body) =>
      var inner := AfterList(init, lex.Enter());
      MeantListCompiles(init, lex.Enter());
      MeantListCompiles(post, inner);
      MeantListCompiles(body, inner.Enter());
    case Range(_, _, bound, body) =>
      MeantListCompiles(body, lex.Enter().With(NewNames(ReadTargets(bound, lex.Enter()))).Enter());
    case _ =>
  }

  lemma {:induction false} MeantListCompiles(list: seq<Stmt>, lex: Lexical)
    requires ReadList(list, lex) == list
    ensures CompilesList(list, lex)
    decreases list
  {
    if list != [] {
      FirstReads(list, lex);
      MeantStmtCompiles(list[0], lex);
      MeantListCompiles(list[1..], After(list[0], lex));
    }
  }

  lemma {:induction false} MeantClausesCompile(clauses: seq<Clause>, lex: Lexical)
    requires ReadClauses(clauses, lex) == clauses
    ensures CompilesClauses(clauses, lex)
    decreases clauses
  {
    if clauses != [] {
      var r := ReadClauses(clauses, lex);
      assert r[0] == clauses[0] && r[1..] == clauses[1..];
      MeantListCompiles(clauses[0].body, lex.Enter());
      MeantClausesCompile(clauses[1..], lex);
    }
  }
}
