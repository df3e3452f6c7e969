/** Which := keep their meaning, under every host and from every state, when they are spelled as
    declarations and an assignment: those whose right-hand sides hold no identifier spelled like a
    name they declare, but for variables assigned to nothing. */
module RewriteRedeclare {
  import opened Wrappers
  import opened Direct
  import opened Rewrite
  import opened RewriteHoist
  import opened RewriteSpell
  import opened RewriteScopes
  import opened RewriteLimits
  import opened RewriteSharing

  // Right-hand sides that are heard -------------------------------------------------------

  /** The right-hand sides, without the variables assigned to a blank: those are read for nothing. */
  function Heard(targets: seq<Target>, es: seq<Expr>): seq<Expr> {
    if |es| != |targets| then es else Dropped(targets, es)
  }

  function Dropped(targets: seq<Target>, es: seq<Expr>): (r: seq<Expr>)
    requires |es| == |targets|
    ensures |r| == |es| && forall i :: 0 <= i < |es| ==> r[i] == if targets[i].Blank? && es[i].Var? then Lit(Number(0)) else es[i]
  {
    if targets == [] then []
    else [if targets[0].Blank? && es[0].Var? then Lit(Number(0)) else es[0]] + Dropped(targets[1..], es[1..])
  }

  /** Two lists of right-hand sides that differ only in what is assigned to nothing. */
  predicate Alike(targets: seq<Target>, a: seq<Expr>, b: seq<Expr>) {
    && |a| == |b| == |targets|
    && forall i :: 0 <= i < |a| ==> a[i] == b[i] || (targets[i].Blank? && a[i].Var? && b[i].Lit?)
  }

  lemma {:induction false} ResolveAlike(host: Host, targets: seq<Target>, a: seq<Expr>, b: seq<Expr>, temps: Temps, st: State)
    requires Alike(targets, a, b)
    ensures var (r, st1), (r', st1') := ResolveAll(host, a, temps, st), ResolveAll(host, b, temps, st);
            && st1 == st1' && (r.Halted? <==> r'.Halted?)
            && (if r.Halted? then r == r' else Alike(targets, r.value, r'.value))
  {
    if a != [] {
      assert a[0] == b[0] || (targets[0].Blank? && a[0].Var? && b[0].Lit?);
      assert Alike(targets[1..], a[1..], b[1..]);
      var (e, st1) := Resolve(host, a[0], temps, st);
      ResolveAlike(host, targets[1..], a[1..], b[1..], temps, st1);
    }
  }

  lemma {:induction false} OperandsAlike(host: Host, targets: seq<Target>, a: seq<Expr>, b: seq<Expr>, temps: Temps, st: State)
    requires Alike(targets, a, b)
    ensures var (vs, st1), (vs', st1') := Operands(host, a, temps, st), Operands(host, b, temps, st);
            && st1 == st1' && (vs.Halted? <==> vs'.Halted?)
            && (if vs.Halted? then vs == vs' else SameButBlank(targets, vs.value, vs'.value))
  {
    if a != [] {
      assert a[0] == b[0] || (targets[0].Blank? && a[0].Var? && b[0].Lit?);
      assert Alike(targets[1..], a[1..], b[1..]);
      var (v, st1) := Operand(host, a[0], temps, st);
      OperandsAlike(host, targets[1..], a[1..], b[1..], temps, st1);
    }
  }

  predicate SameButBlank(targets: seq<Target>, a: seq<Datum>, b: seq<Datum>) {
    |a| == |b| == |targets| && forall i :: 0 <= i < |a| ==> a[i] == b[i] || targets[i].Blank?
  }

  lemma {:induction false} StoreAlike(host: Host, targets: seq<Target>, pointers: seq<Datum>, a: seq<Datum>, b: seq<Datum>, st: State)
    requires SameButBlank(targets, a, b)
    ensures StoreInto(host, targets, pointers, a, st) == StoreInto(host, targets, pointers, b, st)
    decreases |targets|
  {
    if targets != [] {
      assert a[0] == b[0] || targets[0].Blank?;
      assert SameButBlank(targets[1..], a[1..], b[1..]);
      match targets[0]
      case New(x) => StoreAlike(host, targets[1..], pointers, a[1..], b[1..], st.Declare(x, a[0]));
      case Old(x) => StoreAlike(host, targets[1..], pointers, a[1..], b[1..], st.Write(x, a[0]));
      case Blank => StoreAlike(host, targets[1..], pointers, a[1..], b[1..], st);
      case Into =>
        if pointers != [] && pointers[0].Pointer? {
          StoreAlike(host, targets[1..], pointers[1..], a[1..], b[1..], st.Poke(pointers[0].cell, a[0]));
        }
    }
  }

  lemma {:induction false} AssignAlike(host: Host, targets: seq<Target>, a: seq<Expr>, b: seq<Expr>, temps: Temps, st: State)
    requires Alike(targets, a, b) && Pointers(targets) == 0 && |targets| > 1
    ensures ExecAssign(host, targets, a, temps, st) == ExecAssign(host, targets, b, temps, st)
  {
    ResolveAlike(host, targets, a, b, temps, st);
    var (r, st1) := ResolveAll(host, a, temps, st);
    if r.Got? {
      OperandsAlike(host, targets, r.value, ResolveAll(host, b, temps, st).0.value, temps, st1);
      var (vs, st2) := EvaluateAll(host, a, temps, st);
      if vs.Got? {
        var ws := EvaluateAll(host, b, temps, st).0;
        assert vs.value[0..] == vs.value && ws.value[0..] == ws.value && vs.value[..0] == ws.value[..0];
        StoreAlike(host, targets, [], vs.value, ws.value, st2);
      }
    }
  }

  lemma {:induction false} MixedAreTwo(targets: seq<Target>)
    requires Mixed(targets)
    ensures |targets| > 1
  {
    if |targets| == 1 {
      assert targets[1..] == [] && NewNames(targets) == (if targets[0].New? then [targets[0].name] else []) + [];
      assert !HasOld(targets[1..]);
    }
  }

  lemma {:induction false} OldBlanks(targets: seq<Target>)
    ensures |OldTargets(targets)| == |targets| && forall i :: 0 <= i < |targets| ==> (OldTargets(targets)[i].Blank? <==> targets[i].Blank?)
  {
    if targets != [] {
      OldBlanks(targets[1..]);
    }
  }

  lemma {:induction false} RespelledEach(es: seq<Expr>, names: seq<Name>)
    ensures |RespellAll(es, names)| == |es| && forall i :: 0 <= i < |es| ==> RespellAll(es, names)[i] == Respell(es[i], names)
  {
    if es != [] {
      RespelledEach(es[1..], names);
    }
  }

  /** Spelled apart where it is heard, a := keeps its meaning. */
  lemma {:induction false} HeardApartKeeps(host: Host, targets: seq<Target>, es: seq<Expr>, temps: Temps, st: State)
    requires Mixed(targets) && TargetsApart(targets) && (|es| == |targets| || |es| == 1)
    requires AllSpelledApart(Heard(targets, es), NewNames(targets))
    ensures SameFrom(Exec(host, Redeclare(targets, es), temps, st), ExecAssign(host, targets, es, temps, st))
  {
    var heard, names := Heard(targets, es), NewNames(targets);
    RedeclareKeeps(host, targets, heard, temps, st);
    if |es| == |targets| {
      MixedAreTwo(targets);
      NoPointers(targets);
      OldBlanks(targets);
      RespelledEach(es, names);
      RespelledEach(heard, names);
      AssignAlike(host, targets, es, heard, temps, st);
      AssignAlike(host, OldTargets(targets), RespellAll(es, names), RespellAll(heard, names), temps, Overlay(st, names));
      RedeclareExecs(host, targets, es, temps, st);
      RedeclareExecs(host, targets, heard, temps, st);
    }
  }

  // A host that tells ---------------------------------------------------------------------

  /** The expression reads the variable or takes its address. */
  predicate Reads(e: Expr, x: Name) {
    match e
    case Var(y) => y == x
    case AddrOf(y) => y == x
    case Prim(_, args) => AnyReads(args, x)
    case Call(_, args) => AnyReads(args, x)
    case Await(fx, _) => Reads(fx, x)
    case AndAlso(l, r) => Reads(l, x) || Reads(r, x)
    case OrElse(l, r) => Reads(l, x) || Reads(r, x)
    case _ => false
  }

  predicate AnyReads(es: seq<Expr>, x: Name) {
    es != [] && (Reads(es[0], x) || AnyReads(es[1..], x))
  }

  /** Operators cannot take the mark, and whatever else is handed it shows it. */
  ghost predicate Marking(host: Host, mark: Datum) {
    && (forall op, vs, store :: if mark in vs then host.prim(op, vs, store).Panics? else host.prim(op, vs, store) == Gives(Number(0)))
    && (forall fn, vs, store :: host.call(fn, vs, store) == (Gives(Number(0)), store))
    && (forall v, i :: host.component(v, i) == if v == mark then mark else Number(0))
  }

  ghost function MarkingHost(others: Host, mark: Datum): (host: Host)
    ensures Marking(host, mark)
  {
    others.(prim := (op, vs, store) => if mark in vs then Panics(others.stuck) else Gives(Number(0)),
            call := (fn, vs, store: Store) => (Gives(Number(0)), store),
            component := (v, i) => if v == mark then mark else Number(0))
  }

  /** A call was handed the mark. */
  predicate Traced(trace: seq<Event>, mark: Datum) {
    exists i :: 0 <= i < |trace| && trace[i].Called? && mark in trace[i].args
  }

  /** Variables in cells have cells of their own. */
  predicate Separate(st: State) {
    && (forall y :: y in st.vars && st.vars[y].Shared? ==> st.vars[y].cell < |st.store.heap|)
    && (forall y, z :: y in st.vars && z in st.vars && y != z && st.vars[y].Shared? && st.vars[z].Shared? ==> st.vars[y].cell != st.vars[z].cell)
  }

  predicate Holding(st: State, x: Name, mark: Datum) {
    Separate(st) && x in st.vars && st.Read(x) == mark
  }

  /** The mark was handed to a call, or is in a cell. */
  predicate Shown(st: State, x: Name, mark: Datum) {
    Traced(st.trace, mark) || (x in st.vars && st.vars[x].Shared?)
  }

  predicate Onwards(st: State, st': State, x: Name, mark: Datum) {
    Holding(st', x, mark) && (Shown(st, x, mark) ==> Shown(st', x, mark))
  }

  /** An operand that reads the variable shows it, or is it. */
  lemma {:induction false} OperandShows(host: Host, mark: Datum, e: Expr, x: Name, temps: Temps, st: State)
    requires Marking(host, mark) && Straight(e) && !Acts(e) && Holding(st, x, mark)
    ensures var (v, st1) := Operand(host, e, temps, st);
            && Onwards(st, st1, x, mark)
            && (v.Got? && Reads(e, x) ==> Shown(st1, x, mark) || (e == Var(x) && v.value == mark))
    decreases e
  {
    if e.Prim? {
      OperandsShow(host, mark, e.args, x, temps, st);
      var (vs, st1) := Operands(host, e.args, temps, st);
      if vs.Got? && AnyReads(e.args, x) && !Shown(st1, x, mark) {
        var i := WhichReads(e.args, x);
        assert vs.value[i] == mark && mark in vs.value;
      }
    }
  }

  lemma {:induction false} WhichReads(es: seq<Expr>, x: Name) returns (i: nat)
    requires AnyReads(es, x)
    ensures i < |es| && Reads(es[i], x)
  {
    if Reads(es[0], x) {
      i := 0;
    } else {
      i := WhichReads(es[1..], x);
      i := i + 1;
    }
  }

  lemma {:induction false} OperandsShow(host: Host, mark: Datum, es: seq<Expr>, x: Name, temps: Temps, st: State)
    requires Marking(host, mark) && AllStraight(es) && !ActsAny(es) && Holding(st, x, mark)
    ensures var (vs, st1) := Operands(host, es, temps, st);
            && Onwards(st, st1, x, mark)
            && (vs.Got? ==> |vs.value| == |es|)
            && (vs.Got? ==> forall i :: 0 <= i < |es| && Reads(es[i], x) ==> Shown(st1, x, mark) || (es[i] == Var(x) && vs.value[i] == mark))
    decreases es
  {
    if es != [] {
      OperandShows(host, mark, es[0], x, temps, st);
      var (v, st1) := Operand(host, es[0], temps, st);
      OperandsShow(host, mark, es[1..], x, temps, st1);
      var (vs, st2) := Operands(host, es[1..], temps, st1);
      if v.Got? && vs.Got? {
        forall i | 0 <= i < |es| && Reads(es[i], x)
          ensures Shown(st2, x, mark) || (es[i] == Var(x) && ([v.value] + vs.value)[i] == mark)
        {
          if i > 0 {
            assert es[i] == es[1..][i - 1];
          }
        }
      }
    }
  }

  /** Performing the calls of an expression shows the variable where a call was handed it. */
  lemma {:induction false} ResolveShows(host: Host, mark: Datum, e: Expr, x: Name, temps: Temps, st: State)
    requires Marking(host, mark) && Straight(e) && Holding(st, x, mark)
    ensures var (r, st1) := Resolve(host, e, temps, st);
            && Onwards(st, st1, x, mark)
            && (r.Got? ==> Straight(r.value) && !Acts(r.value) && (r.value.Var? ==> r.value == e))
            && (r.Got? && Reads(e, x) ==> Shown(st1, x, mark) || Reads(r.value, x))
    decreases e
  {
    if e.Prim? {
      ResolveAllShow(host, mark, e.args, x, temps, st);
      var (es, st1) := ResolveAll(host, e.args, temps, st);
      if es.Got? && AnyReads(e.args, x) && !Shown(st1, x, mark) {
        var i := WhichReads(e.args, x);
        ReadsThere(es.value, x, i);
      }
    } else if e.Call? {
      ResolveAllShow(host, mark, e.args, x, temps, st);
      var (es, st1) := ResolveAll(host, e.args, temps, st);
      if es.Got? {
        OperandsShow(host, mark, es.value, x, temps, st1);
        CallShows(host, mark, e, es.value, x, temps, st1);
      }
    }
  }

  lemma {:induction false} ReadsThere(es: seq<Expr>, x: Name, i: nat)
    requires i < |es| && Reads(es[i], x)
    ensures AnyReads(es, x)
  {
    if i > 0 {
      ReadsThere(es[1..], x, i - 1);
    }
  }

  lemma {:induction false} CallShows(host: Host, mark: Datum, e: Expr, es: seq<Expr>, x: Name, temps: Temps, st: State)
    requires Marking(host, mark) && e.Call? && |es| == |e.args| && Holding(st, x, mark)
    requires forall i :: 0 <= i < |es| && Reads(e.args[i], x) ==> Shown(st, x, mark) || Reads(es[i], x)
    requires var (vs, st1) := Operands(host, es, temps, st);
             && Onwards(st, st1, x, mark)
             && (vs.Got? ==> |vs.value| == |es|)
             && (vs.Got? ==> forall i :: 0 <= i < |es| && Reads(es[i], x) ==> Shown(st1, x, mark) || (es[i] == Var(x) && vs.value[i] == mark))
    ensures var (r, st2) := Perform(host, e.fn, es, temps, st);
            Onwards(st, st2, x, mark) && (r.Got? ==> r.value.Lit? && (Reads(e, x) ==> Shown(st2, x, mark)))
  {
    var (vs, st1) := Operands(host, es, temps, st);
    if vs.Got? {
      var called := Called(e.fn, vs.value);
      var st2 := Perform(host, e.fn, es, temps, st).1;
      assert st2.trace == st1.trace + [called] && st2.store == st1.store && st2.vars == st1.vars;
      TracedOn(st1.trace, called, mark);
      if Reads(e, x) && !Shown(st1, x, mark) {
        var i := WhichReads(e.args, x);
        assert vs.value[i] == mark && mark in vs.value;
      }
    }
  }

  lemma {:induction false} TracedOn(trace: seq<Event>, event: Event, mark: Datum)
    ensures Traced(trace, mark) ==> Traced(trace + [event], mark)
    ensures event.Called? && mark in event.args ==> Traced(trace + [event], mark)
  {
    assert (trace + [event])[|trace|] == event;
    if Traced(trace, mark) {
      var i :| 0 <= i < |trace| && trace[i].Called? && mark in trace[i].args;
      assert (trace + [event])[i] == trace[i];
    }
  }

  lemma {:induction false} ResolveAllShow(host: Host, mark: Datum, es: seq<Expr>, x: Name, temps: Temps, st: State)
    requires Marking(host, mark) && AllStraight(es) && Holding(st, x, mark)
    ensures var (r, st1) := ResolveAll(host, es, temps, st);
            && Onwards(st, st1, x, mark)
            && (r.Got? ==> AllStraight(r.value) && !ActsAny(r.value) && |r.value| == |es|)
            && (r.Got? ==> forall i :: 0 <= i < |es| ==> r.value[i].Var? ==> r.value[i] == es[i])
            && (r.Got? ==> forall i :: 0 <= i < |es| && Reads(es[i], x) ==> Shown(st1, x, mark) || Reads(r.value[i], x))
    decreases es
  {
    if es != [] {
      ResolveShows(host, mark, es[0], x, temps, st);
      var (e, st1) := Resolve(host, es[0], temps, st);
      if e.Got? {
        ResolveAllShow(host, mark, es[1..], x, temps, st1);
        var (rest, st2) := ResolveAll(host, es[1..], temps, st1);
        if rest.Got? {
          var all := [e.value] + rest.value;
          assert all[1..] == rest.value;
          forall i | 0 <= i < |es|
            ensures all[i].Var? ==> all[i] == es[i]
            ensures Reads(es[i], x) ==> Shown(st2, x, mark) || Reads(all[i], x)
          {
            if i > 0 {
              assert es[i] == es[1..][i - 1] && all[i] == rest.value[i - 1];
            }
          }
        }
      }
    }
  }

  /** Evaluated, every right-hand side that reads the variable has shown it, or is it. */
  lemma {:induction false} EvaluateShows(host: Host, mark: Datum, es: seq<Expr>, x: Name, temps: Temps, st: State)
    requires Marking(host, mark) && AllStraight(es) && Holding(st, x, mark)
    ensures var (vs, st1) := EvaluateAll(host, es, temps, st);
            vs.Got? ==>
              && |vs.value| == |es| && Holding(st1, x, mark)
              && forall i :: 0 <= i < |es| && Reads(es[i], x) ==> Shown(st1, x, mark) || (es[i] == Var(x) && vs.value[i] == mark)
  {
    ResolveAllShow(host, mark, es, x, temps, st);
    var (r, st1) := ResolveAll(host, es, temps, st);
    if r.Got? {
      OperandsShow(host, mark, r.value, x, temps, st1);
      var (vs, st2) := Operands(host, r.value, temps, st1);
      if vs.Got? {
        forall i | 0 <= i < |es| && Reads(es[i], x)
          ensures Shown(st2, x, mark) || (es[i] == Var(x) && vs.value[i] == mark)
        {
          if !Shown(st2, x, mark) {
            assert Reads(r.value[i], x);
          }
        }
      }
    }
  }

  // Without the variable ------------------------------------------------------------------

  /** The mark is no literal of the expression. */
  predicate Unlit(e: Expr, mark: Datum) {
    match e
    case Lit(v) => v != mark
    case Prim(_, args) => AllUnlit(args, mark)
    case Call(_, args) => AllUnlit(args, mark)
    case Await(fx, _) => Unlit(fx, mark)
    case AndAlso(l, r) => Unlit(l, mark) && Unlit(r, mark)
    case OrElse(l, r) => Unlit(l, mark) && Unlit(r, mark)
    case _ => true
  }

  predicate AllUnlit(es: seq<Expr>, mark: Datum) {
    es != [] ==> Unlit(es[0], mark) && AllUnlit(es[1..], mark)
  }

  /** Only the one variable holds the mark. */
  predicate Clean(st: State, x: Name, mark: Datum) {
    && !Traced(st.trace, mark) && mark !in st.store.heap
    && forall y :: y in st.vars && y != x && st.vars[y].Own? ==> st.vars[y].datum != mark
  }

  /** An expression that can be evaluated without meeting the mark. */
  predicate Blind(e: Expr, x: Name, mark: Datum) {
    Straight(e) && !Reads(e, x) && Unlit(e, mark)
  }

  predicate AllBlind(es: seq<Expr>, x: Name, mark: Datum) {
    es != [] ==> Blind(es[0], x, mark) && AllBlind(es[1..], x, mark)
  }

  lemma {:induction false} BlindParts(es: seq<Expr>, x: Name, mark: Datum)
    ensures AllBlind(es, x, mark) <==> AllStraight(es) && !AnyReads(es, x) && AllUnlit(es, mark)
  {
    if es != [] {
      BlindParts(es[1..], x, mark);
    }
  }

  lemma {:induction false} OperandBlind(host: Host, mark: Datum, e: Expr, x: Name, temps: Temps, st: State)
    requires Marking(host, mark) && mark.Number? && mark != Number(0) && Blind(e, x, mark) && !Acts(e) && Clean(st, x, mark)
    ensures var (v, st1) := Operand(host, e, temps, st); v.Got? && v.value != mark && Clean(st1, x, mark)
    decreases e
  {
    if e.Prim? {
      BlindParts(e.args, x, mark);
      OperandsBlind(host, mark, e.args, x, temps, st);
    }
  }

  lemma {:induction false} OperandsBlind(host: Host, mark: Datum, es: seq<Expr>, x: Name, temps: Temps, st: State)
    requires Marking(host, mark) && mark.Number? && mark != Number(0) && AllBlind(es, x, mark) && !ActsAny(es) && Clean(st, x, mark)
    ensures var (vs, st1) := Operands(host, es, temps, st); vs.Got? && mark !in vs.value && |vs.value| == |es| && Clean(st1, x, mark)
    decreases es
  {
    if es != [] {
      OperandBlind(host, mark, es[0], x, temps, st);
      OperandsBlind(host, mark, es[1..], x, temps, Operand(host, es[0], temps, st).1);
    }
  }

  lemma {:induction false} ResolveBlind(host: Host, mark: Datum, e: Expr, x: Name, temps: Temps, st: State)
    requires Marking(host, mark) && mark.Number? && mark != Number(0) && Blind(e, x, mark) && Clean(st, x, mark)
    ensures var (r, st1) := Resolve(host, e, temps, st); r.Got? && Blind(r.value, x, mark) && !Acts(r.value) && Clean(st1, x, mark)
    decreases e
  {
    if e.Prim? || e.Call? {
      BlindParts(e.args, x, mark);
      ResolveAllBlind(host, mark, e.args, x, temps, st);
      var (es, st1) := ResolveAll(host, e.args, temps, st);
      BlindParts(es.value, x, mark);
      if e.Call? {
        OperandsBlind(host, mark, es.value, x, temps, st1);
        var (vs, st2) := Operands(host, es.value, temps, st1);
        NotTraced(st2.trace, Called(e.fn, vs.value), mark);
      }
    }
  }

  lemma {:induction false} NotTraced(trace: seq<Event>, event: Event, mark: Datum)
    requires !Traced(trace, mark) && (event.Called? ==> mark !in event.args)
    ensures !Traced(trace + [event], mark)
  {
    var longer := trace + [event];
    forall i | 0 <= i < |longer|
      ensures longer[i].Called? ==> mark !in longer[i].args
    {
      if i < |trace| {
        assert longer[i] == trace[i];
      }
    }
  }

  lemma {:induction false} ResolveAllBlind(host: Host, mark: Datum, es: seq<Expr>, x: Name, temps: Temps, st: State)
    requires Marking(host, mark) && mark.Number? && mark != Number(0) && AllBlind(es, x, mark) && Clean(st, x, mark)
    ensures var (r, st1) := ResolveAll(host, es, temps, st);
            r.Got? && AllBlind(r.value, x, mark) && !ActsAny(r.value) && |r.value| == |es| && Clean(st1, x, mark)
    decreases es
  {
    if es != [] {
      ResolveBlind(host, mark, es[0], x, temps, st);
      var (e, st1) := Resolve(host, es[0], temps, st);
      ResolveAllBlind(host, mark, es[1..], x, temps, st1);
      var rest := ResolveAll(host, es[1..], temps, st1).0;
      assert ([e.value] + rest.value)[1..] == rest.value;
    }
  }

  lemma {:induction false} StoreClean(host: Host, mark: Datum, targets: seq<Target>, values: seq<Datum>, x: Name, st: State)
    requires Pointers(targets) == 0 && x !in TargetNames(targets) && mark !in values && Clean(st, x, mark)
    ensures Clean(StoreInto(host, targets, [], values, st), x, mark)
  {
    if targets != [] && values != [] {
      var v, rest := values[0], values[1..];
      match targets[0]
      case New(y) => StoreClean(host, mark, targets[1..], rest, x, st.Declare(y, v));
      case Old(y) => StoreClean(host, mark, targets[1..], rest, x, st.Write(y, v));
      case Blank => StoreClean(host, mark, targets[1..], rest, x, st);
      case Into =>
    }
  }

  /** An assignment that does not meet the mark ends, and shows it nowhere. */
  lemma {:induction false} AssignBlind(host: Host, mark: Datum, targets: seq<Target>, es: seq<Expr>, x: Name, temps: Temps, st: State)
    requires Marking(host, mark) && mark.Number? && mark != Number(0) && AllBlind(es, x, mark) && Clean(st, x, mark)
    requires Pointers(targets) == 0 && x !in TargetNames(targets)
    ensures var (ending, st1) := ExecAssign(host, targets, es, temps, st); ending.Normal? && Clean(st1, x, mark)
  {
    ResolveAllBlind(host, mark, es, x, temps, st);
    var (r, st1) := ResolveAll(host, es, temps, st);
    OperandsBlind(host, mark, r.value, x, temps, st1);
    var (vs, st2) := Operands(host, r.value, temps, st1);
    assert EvaluateAll(host, es, temps, st) == (vs, st2);
    assert vs.value[0..] == vs.value && vs.value[..0] == [];
    StoreClean(host, mark, targets, Spread(host, vs.value, |targets|), x, st2);
  }

  // Storing the mark ----------------------------------------------------------------------

  /** The mark is in a cell, or in another variable. */
  predicate Stored(st: State, x: Name, mark: Datum) {
    mark in st.store.heap || exists y :: y in st.vars && y != x && st.vars[y] == Own(mark)
  }

  /** What is assigned elsewhere leaves a variable, its cell and the trace alone. */
  lemma {:induction false} StoreElsewhere(host: Host, targets: seq<Target>, values: seq<Datum>, y: Name, st: State)
    requires Pointers(targets) == 0 && y !in TargetNames(targets) && Separate(st) && y in st.vars
    ensures var st' := StoreInto(host, targets, [], values, st);
            && Separate(st') && y in st'.vars && st'.vars[y] == st.vars[y] && st'.Read(y) == st.Read(y)
            && st'.trace == st.trace && |st'.store.heap| == |st.store.heap|
  {
    if targets != [] && values != [] {
      var v, rest := values[0], values[1..];
      match targets[0]
      case New(z) => StoreElsewhere(host, targets[1..], rest, y, st.Declare(z, v));
      case Old(z) => StoreElsewhere(host, targets[1..], rest, y, st.Write(z, v));
      case Blank => StoreElsewhere(host, targets[1..], rest, y, st);
      case Into =>
    }
  }

  lemma {:induction false} ReadIsStored(st: State, x: Name, y: Name, mark: Datum)
    requires Separate(st) && y in st.vars && st.Read(y) == mark && (y != x || st.vars[y].Shared?)
    ensures Stored(st, x, mark)
  {
  }

  lemma {:induction false} StoreMarks(host: Host, mark: Datum, targets: seq<Target>, values: seq<Datum>, x: Name, i: nat, st: State)
    requires TargetsApart(targets) && Pointers(targets) == 0 && x !in TargetNames(targets) && Separate(st)
    requires i < |targets| == |values| && (targets[i].New? || targets[i].Old?) && values[i] == mark
    ensures Stored(StoreInto(host, targets, [], values, st), x, mark)
    decreases |targets|
  {
    var t, v, rest := targets[0], values[0], values[1..];
    var st1 := match t case New(z) => st.Declare(z, v) case Old(z) => st.Write(z, v) case _ => st;
    assert Separate(st1);
    if i == 0 {
      StoreElsewhere(host, targets[1..], rest, t.name, st1);
      ReadIsStored(StoreInto(host, targets[1..], [], rest, st1), x, t.name, mark);
    } else {
      StoreMarks(host, mark, targets[1..], rest, x, i - 1, st1);
    }
  }

  // The two apart -------------------------------------------------------------------------

  /** A state in which one variable holds the mark, and nothing else is declared. */
  function Marked(x: Name, mark: Datum, st: State): State {
    State(map[x := Own(mark)], Store([], st.store.world), [], 0)
  }

  lemma {:induction false} SomeNew(targets: seq<Target>) returns (i: nat)
    requires NewNames(targets) != []
    ensures i < |targets| && targets[i].New?
  {
    if targets[0].New? {
      i := 0;
    } else {
      assert NewNames(targets) == [] + NewNames(targets[1..]) == NewNames(targets[1..]);
      i := SomeNew(targets[1..]);
      i := i + 1;
    }
  }

  lemma {:induction false} NotInto(targets: seq<Target>, i: nat)
    requires Pointers(targets) == 0 && i < |targets|
    ensures !targets[i].Into?
  {
    if i > 0 {
      NotInto(targets[1..], i - 1);
    }
  }

  /** As Go runs it, a right-hand side that is heard shows the mark it reads, unless the := panics. */
  lemma {:induction false} MarkShowsInGo(host: Host, mark: Datum, targets: seq<Target>, es: seq<Expr>, x: Name, i: nat, st: State)
    requires Marking(host, mark) && Mixed(targets) && TargetsApart(targets) && (|es| == |targets| || |es| == 1)
    requires AllStraight(es) && x !in TargetNames(targets)
    requires i < |es| && Reads(es[i], x) && !(|es| == |targets| && targets[i].Blank? && es[i].Var?)
    ensures var (ending, st') := ExecAssign(host, targets, es, map[], Marked(x, mark, st));
            ending.Normal? ==> Traced(st'.trace, mark) || Stored(st', x, mark)
  {
    var (vs, st1) := EvaluateAll(host, es, map[], Marked(x, mark, st));
    EvaluateShows(host, mark, es, x, map[], Marked(x, mark, st));
    if vs.Got? {
      MixedAreTwo(targets);
      NoPointers(targets);
      var values := Spread(host, vs.value, |targets|);
      assert vs.value[0..] == vs.value && vs.value[..0] == [];
      StoreElsewhere(host, targets, values, x, st1);
      if Shown(st1, x, mark) {
        var st' := StoreInto(host, targets, [], values, st1);
        if st1.vars[x].Shared? {
          ReadIsStored(st', x, x, mark);
        }
      } else {
        var j := i;
        if |es| == 1 {
          j := SomeNew(targets);
        }
        NotInto(targets, j);
        assert values[j] == mark;
        StoreMarks(host, mark, targets, values, x, j, st1);
      }
    }
  }

  lemma {:induction false} RespellBlinds(e: Expr, names: seq<Name>, x: Name, mark: Datum)
    requires Straight(e) && Unlit(e, mark) && !Apart(x, names) && x !in names
    ensures Blind(Respell(e, names), x, mark)
    decreases e
  {
    match e
    case Var(y) => DenotesOneOf(y, names);
    case AddrOf(y) => DenotesOneOf(y, names);
    case Prim(_, args) =>
      RespellBlindsAll(args, names, x, mark);
      BlindParts(RespellAll(args, names), x, mark);
    case Call(_, args) =>
      RespellBlindsAll(args, names, x, mark);
      BlindParts(RespellAll(args, names), x, mark);
    case _ =>
  }

  lemma {:induction false} RespellBlindsAll(es: seq<Expr>, names: seq<Name>, x: Name, mark: Datum)
    requires AllStraight(es) && AllUnlit(es, mark) && !Apart(x, names) && x !in names
    ensures AllBlind(RespellAll(es, names), x, mark)
    decreases es
  {
    if es != [] {
      RespellBlinds(es[0], names, x, mark);
      RespellBlindsAll(es[1..], names, x, mark);
      assert RespellAll(es, names)[1..] == RespellAll(es[1..], names);
    }
  }

  lemma {:induction false} OldTargetNames(targets: seq<Target>)
    ensures TargetNames(OldTargets(targets)) == TargetNames(targets)
  {
    if targets != [] {
      OldTargetNames(targets[1..]);
      assert OldTargets(targets)[1..] == OldTargets(targets[1..]);
    }
  }

  /** Spelled as declarations and an assignment, the same := reads the declared name instead. */
  lemma {:induction false} MarkIsHidden(host: Host, mark: Datum, targets: seq<Target>, es: seq<Expr>, x: Name, st: State)
    requires Marking(host, mark) && mark.Number? && mark != Number(0) && Mixed(targets) && TargetsApart(targets)
    requires AllStraight(es) && AllUnlit(es, mark) && (forall y :: y in NewNames(targets) ==> y.zero != mark)
    requires !Apart(x, NewNames(targets)) && x !in TargetNames(targets)
    ensures var (ending, st') := Exec(host, Redeclare(targets, es), map[], Marked(x, mark, st));
            ending.Normal? && Clean(st', x, mark)
  {
    var names := NewNames(targets);
    var st0 := Overlay(Marked(x, mark, st), names);
    NewAreTargets(targets);
    RespellBlindsAll(es, names, x, mark);
    NoPointers(targets);
    OldTargetNames(targets);
    assert Clean(st0, x, mark);
    AssignBlind(host, mark, OldTargets(targets), RespellAll(es, names), x, map[], st0);
    RedeclareExecs(host, targets, es, map[], Marked(x, mark, st));
  }

  // A datum that is not there -------------------------------------------------------------

  function Literals(e: Expr): set<Datum> {
    match e
    case Lit(v) => {v}
    case Prim(_, args) => AllLiterals(args)
    case Call(_, args) => AllLiterals(args)
    case _ => {}
  }

  function AllLiterals(es: seq<Expr>): set<Datum> {
    if es == [] then {} else Literals(es[0]) + AllLiterals(es[1..])
  }

  lemma {:induction false} UnlitOutside(e: Expr, mark: Datum)
    requires Straight(e) && mark !in Literals(e)
    ensures Unlit(e, mark)
    decreases e
  {
    if e.Prim? || e.Call? {
      AllUnlitOutside(e.args, mark);
    }
  }

  lemma {:induction false} AllUnlitOutside(es: seq<Expr>, mark: Datum)
    requires AllStraight(es) && mark !in AllLiterals(es)
    ensures AllUnlit(es, mark)
    decreases es
  {
    if es != [] {
      UnlitOutside(es[0], mark);
      AllUnlitOutside(es[1..], mark);
    }
  }

  /** No finite set holds every number. */
  lemma {:induction false} Beyond(data: set<Datum>) returns (k: nat)
    ensures forall d :: d in data && d.Number? ==> d.n < k
    decreases |data|
  {
    if data == {} {
      k := 1;
    } else {
      var d :| d in data;
      k := Beyond(data - {d});
      if d.Number? && d.n >= k {
        k := d.n + 1;
      }
    }
  }

  // Exactly which := keep their meaning ----------------------------------------------------

  ghost predicate KeptEverywhere(targets: seq<Target>, es: seq<Expr>) {
    forall host: Host, temps: Temps, st: State ::
      SameFrom(Exec(host, Redeclare(targets, es), temps, st), ExecAssign(host, targets, es, temps, st))
  }

  /** A right-hand side that is heard and not spelled apart from the names. */
  lemma {:induction false} CapturedIn(targets: seq<Target>, es: seq<Expr>, names: seq<Name>) returns (i: nat, x: Name)
    requires !AllSpelledApart(Heard(targets, es), names)
    ensures i < |es| && Reads(es[i], x) && !Apart(x, names)
    ensures !(|es| == |targets| && targets[i].Blank? && es[i].Var?)
  {
    i := NotApartAt(Heard(targets, es), names);
    x := CapturedName(es[i], names);
  }

  lemma {:induction false} NotApartAt(es: seq<Expr>, names: seq<Name>) returns (i: nat)
    requires !AllSpelledApart(es, names)
    ensures i < |es| && !SpelledApart(es[i], names)
  {
    if !SpelledApart(es[0], names) {
      i := 0;
    } else {
      i := NotApartAt(es[1..], names);
      i := i + 1;
    }
  }

  lemma {:induction false} CapturedName(e: Expr, names: seq<Name>) returns (x: Name)
    requires !SpelledApart(e, names)
    ensures Reads(e, x) && !Apart(x, names)
    decreases e
  {
    match e
    case Var(y) => x := y;
    case AddrOf(y) => x := y;
    case Prim(_, args) => x := CapturedNameAny(args, names);
    case Call(_, args) => x := CapturedNameAny(args, names);
    case Await(fx, _) => x := CapturedName(fx, names);
    case AndAlso(l, r) => if SpelledApart(l, names) { x := CapturedName(r, names); } else { x := CapturedName(l, names); }
    case OrElse(l, r) => if SpelledApart(l, names) { x := CapturedName(r, names); } else { x := CapturedName(l, names); }
  }

  lemma {:induction false} CapturedNameAny(es: seq<Expr>, names: seq<Name>) returns (x: Name)
    requires !AllSpelledApart(es, names)
    ensures AnyReads(es, x) && !Apart(x, names)
    decreases es
  {
    if SpelledApart(es[0], names) {
      x := CapturedNameAny(es[1..], names);
    } else {
      x := CapturedName(es[0], names);
    }
  }

  lemma {:induction false} NotATarget(targets: seq<Target>, x: Name)
    requires TargetsApart(targets) && !Apart(x, NewNames(targets)) && x !in NewNames(targets)
    ensures x !in TargetNames(targets)
  {
    if x in TargetNames(targets) {
      var i := TargetAt(targets, x);
      if targets[i].New? {
        NewNamesAreNew(targets, i);
      } else {
        OldApartFromNew(targets, i);
      }
      assert false;
    }
  }

  lemma {:induction false} TargetAt(targets: seq<Target>, x: Name) returns (i: nat)
    requires x in TargetNames(targets)
    ensures i < |targets| && (targets[i] == New(x) || targets[i] == Old(x))
  {
    if targets[0] == New(x) || targets[0] == Old(x) {
      i := 0;
    } else {
      assert x in TargetNames(targets[1..]);
      i := TargetAt(targets[1..], x);
      i := i + 1;
    }
  }

  /** A := that reuses a name, with right-hand sides without awaits, && and ||, keeps its meaning
      under every host and from every state exactly if none that is heard holds an identifier spelled
      like a name it declares. */
  lemma {:induction false} RedeclarationKeptEverywhereExactly(others: Host, targets: seq<Target>, es: seq<Expr>, st: State)
    requires Mixed(targets) && TargetsApart(targets) && AllStraight(es) && (|es| == |targets| || |es| == 1)
    requires forall y :: y in NewNames(targets) ==> !AnyReads(es, y)
    ensures KeptEverywhere(targets, es) <==> AllSpelledApart(Heard(targets, es), NewNames(targets))
  {
    var names := NewNames(targets);
    if AllSpelledApart(Heard(targets, es), names) {
      forall host: Host, temps: Temps, start: State
        ensures SameFrom(Exec(host, Redeclare(targets, es), temps, start), ExecAssign(host, targets, es, temps, start))
      {
        HeardApartKeeps(host, targets, es, temps, start);
      }
    } else {
      CapturedIsTold(others, targets, es, st);
    }
  }

  lemma {:induction false} CapturedIsTold(others: Host, targets: seq<Target>, es: seq<Expr>, st: State)
    requires Mixed(targets) && TargetsApart(targets) && AllStraight(es) && (|es| == |targets| || |es| == 1)
    requires forall y :: y in NewNames(targets) ==> !AnyReads(es, y)
    requires !AllSpelledApart(Heard(targets, es), NewNames(targets))
    ensures !KeptEverywhere(targets, es)
  {
    var names := NewNames(targets);
    var i, x := CapturedIn(targets, es, names);
    ReadsThere(es, x, i);
    NotATarget(targets, x);
    var k := Beyond(AllLiterals(es) + (set y | y in names :: y.zero) + {Number(0)});
    var mark := Number(k);
    var host := MarkingHost(others, mark);
    AllUnlitOutside(es, mark);
    MarkShowsInGo(host, mark, targets, es, x, i, st);
    MarkIsHidden(host, mark, targets, es, x, st);
    assert !SameFrom(Exec(host, Redeclare(targets, es), map[], Marked(x, mark, st)), ExecAssign(host, targets, es, map[], Marked(x, mark, st)));
  }
}
