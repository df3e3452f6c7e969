/** The direct style: the Go a `Gen` body is written in, with its awaits and failures, and what
    running such a body means (effect/gen.go, effect/gen_body.go). Names are resolved to the
    object they denote and keep their spelling. */
module Direct {
  import opened Outcome
  import opened Wrappers

  type World(!new, ==, 0)
  type Op(!new, ==, 0)
  type Fn(!new, ==, 0)

  datatype Datum = Number(n: int) | Truth(b: bool) | Pointer(cell: nat) | Other(value: Value)

  /** A declared object: how its identifier is spelled, which declaration it is, and the zero
      value of its type. */
  datatype Name = Name(spelling: string, declaration: nat, zero: Datum)

  datatype Expr =
    | Lit(datum: Datum)
    | Var(name: Name)
    | AddrOf(name: Name)                       // &x, or a closure's capture of x
    | Temp(temp: nat)                          // a name the rewrite bound an awaited value to
    | Prim(op: Op, args: seq<Expr>)            // operators, conversions, loads, pure builtins
    | Call(fn: Fn, args: seq<Expr>)            // any call that may have effects
    | Await(fx: Expr, own: bool)               // own: it answers with the body's own type
    | AndAlso(left: Expr, right: Expr)
    | OrElse(left: Expr, right: Expr)

  /** What a statement assigns to: `Into` is the next pointer operand. */
  datatype Target = New(name: Name) | Old(name: Name) | Into | Blank

  /** Where an emitted return goes: a continuation, or a loop's next iteration with variables as
      arguments, or with a hidden index. */
  datatype Jump =
    | Nowhere
    | ToContinuation(id: nat)
    | ToNext(loop: nat, vars: seq<Name>)
    | ToNextIndex(loop: nat, index: nat)

  datatype ElseKind = NoElse | ElseBlock | ElseIf
  datatype RangeKind = Integer | Indexed

  datatype Clause = Clause(cases: seq<Expr>, isDefault: bool, body: seq<Stmt>)

  datatype Stmt =
    | Assign(targets: seq<Target>, es: seq<Expr>)   // pointer operands first, then values
    | FailWith(failure: Expr)                       // do.Fail(failure)
    | PanicWith(raised: Expr)                       // panic(raised)
    | Return(answer: Expr)
    | Break
    | Continue
    | Goto(to: Jump)                                // emitted only: return continuation()
    | Block(list: seq<Stmt>)
    | Declaring(list: seq<Stmt>)                    // emitted only: declarations, then an assignment
    | If(init: seq<Stmt>, cond: Expr, thn: seq<Stmt>, elseKind: ElseKind, els: seq<Stmt>)
    | Switch(init: seq<Stmt>, tag: Expr, clauses: seq<Clause>)
    | For(init: seq<Stmt>, when: seq<Expr>, post: seq<Stmt>, body: seq<Stmt>)
    | Range(kind: RangeKind, over: Expr, bound: seq<Target>, body: seq<Stmt>)

  // State ---------------------------------------------------------------------------------

  /** A variable holds its value itself until its address is taken; from then on it and every
      pointer to it share a cell. */
  datatype Slot = Own(datum: Datum) | Shared(cell: nat)

  datatype Store = Store(heap: seq<Datum>, world: World)

  datatype Event = Awaited(fx: Datum) | Called(fn: Fn, args: seq<Datum>)

  /** `gas` counts the loop back edges still allowed, in the body and in its rewrite alike. */
  datatype State = State(vars: map<Name, Slot>, store: Store, trace: seq<Event>, gas: nat) {

    function Cell(cell: nat): Datum {
      if cell < |store.heap| then store.heap[cell] else Number(0)
    }

    function Read(x: Name): Datum {
      if x !in vars then Number(0)
      else match vars[x]
        case Own(v) => v
        case Shared(cell) => Cell(cell)
    }

    function Poke(cell: nat, v: Datum): State {
      if cell < |store.heap| then this.(store := store.(heap := store.heap[cell := v])) else this
    }

    function Write(x: Name, v: Datum): State {
      if x in vars && vars[x].Shared? then Poke(vars[x].cell, v) else Declare(x, v)
    }

    /** A fresh variable: nothing shares it. */
    function Declare(x: Name, v: Datum): State {
      this.(vars := vars[x := Own(v)])
    }

    /** Taking an address moves the variable into a cell, the first time. */
    function Share(x: Name): (State, nat) {
      if x in vars && vars[x].Shared? then (this, vars[x].cell)
      else
        (this.(vars := vars[x := Shared(|store.heap|)], store := store.(heap := store.heap + [Read(x)])),
         |store.heap|)
    }

    function Seen(event: Event): State {
      this.(trace := trace + [event])
    }
  }

  datatype Settled = Answered(datum: Datum) | Unanswered(cause: Cause)

  /** The code around the body: what its operators, callees and awaited effects do. */
  datatype Host = Host(
    prim: (Op, seq<Datum>, Store) -> Answer<Datum>,
    call: (Fn, seq<Datum>, Store) -> (Answer<Datum>, Store),
    settle: (Datum, Store) -> (Settled, Store),
    failure: Datum -> Cause,
    raise: Datum -> Defect,
    same: (Datum, Datum) -> Answer<bool>,
    component: (Datum, nat) -> Datum,
    length: Datum -> int,
    element: (Datum, int, Store) -> Datum,
    stuck: Defect)

  // Expressions ---------------------------------------------------------------------------

  datatype Halt = Refused(cause: Cause) | Crashed(defect: Defect)
  datatype Result<+T> = Got(value: T) | Halted(halt: Halt)

  type Temps = map<nat, Datum>

  /** Whether evaluating the expression calls or awaits anything. */
  predicate Acts(e: Expr) {
    match e
    case Call(_, _) => true
    case Await(_, _) => true
    case Prim(_, args) => ActsAny(args)
    case AndAlso(l, r) => Acts(l) || Acts(r)
    case OrElse(l, r) => Acts(l) || Acts(r)
    case _ => false
  }

  predicate ActsAny(es: seq<Expr>) {
    es != [] && (Acts(es[0]) || ActsAny(es[1..]))
  }

  /** Operands that call nothing. Calls left in here are never reached: `Resolve` removes them. */
  function Operand(host: Host, e: Expr, temps: Temps, st: State): (r: (Result<Datum>, State))
    ensures r.1.gas == st.gas
    decreases e
  {
    match e
    case Lit(v) => (Got(v), st)
    case Var(x) => (Got(st.Read(x)), st)
    case AddrOf(x) => var (shared, cell) := st.Share(x); (Got(Pointer(cell)), shared)
    case Temp(t) => (Got(if t in temps then temps[t] else Number(0)), st)
    case Prim(op, args) =>
      var (vs, st1) := Operands(host, args, temps, st);
      if vs.Halted? then (Halted(vs.halt), st1)
      else
        var answer := host.prim(op, vs.value, st1.store);
        (if answer.Gives? then Got(answer.value) else Halted(Crashed(answer.defect)), st1)
    case AndAlso(l, r) =>
      var (v, st1) := Operand(host, l, temps, st);
      if v.Halted? || v.value != Truth(true) then (v, st1) else Operand(host, r, temps, st1)
    case OrElse(l, r) =>
      var (v, st1) := Operand(host, l, temps, st);
      if v.Halted? || v.value == Truth(true) then (v, st1) else Operand(host, r, temps, st1)
    case _ => (Halted(Crashed(host.stuck)), st)
  }

  function Operands(host: Host, es: seq<Expr>, temps: Temps, st: State): (r: (Result<seq<Datum>>, State))
    ensures r.1.gas == st.gas
    decreases es
  {
    if es == [] then (Got([]), st)
    else
      var (v, st1) := Operand(host, es[0], temps, st);
      if v.Halted? then (Halted(v.halt), st1)
      else
        var (vs, st2) := Operands(host, es[1..], temps, st1);
        (if vs.Halted? then vs else Got([v.value] + vs.value), st2)
  }

  /** Performs the calls and awaits of an expression from left to right, an argument before the
      call it is passed to, and leaves the operands that are not calls to be read afterwards:
      Go leaves the order between a call and a variable open, and this is one of its orders. A
      left operand of && or || is read where it decides whether calls on the right happen. */
  function Resolve(host: Host, e: Expr, temps: Temps, st: State): (r: (Result<Expr>, State))
    ensures r.1.gas == st.gas
    decreases e
  {
    match e
    case Temp(t) => (Got(Lit(if t in temps then temps[t] else Number(0))), st)
    case Prim(op, args) =>
      var (es, st1) := ResolveAll(host, args, temps, st);
      (if es.Halted? then Halted(es.halt) else Got(Prim(op, es.value)), st1)
    case Call(fn, args) =>
      var (es, st1) := ResolveAll(host, args, temps, st);
      if es.Halted? then (Halted(es.halt), st1) else Perform(host, fn, es.value, temps, st1)
    case Await(fx, _) =>
      var (e', st1) := Resolve(host, fx, temps, st);
      if e'.Halted? then (e', st1)
      else
        var (v, st2) := AwaitOperand(host, e'.value, temps, st1);
        (if v.Halted? then Halted(v.halt) else Got(Lit(v.value)), st2)
    case AndAlso(l, r) =>
      var (l', st1) := Resolve(host, l, temps, st);
      if l'.Halted? then (l', st1)
      else if !Acts(r) then (Got(AndAlso(l'.value, r)), st1)
      else
        var (v, st2) := Operand(host, l'.value, temps, st1);
        if v.Halted? then (Halted(v.halt), st2)
        else if v.value != Truth(true) then (Got(Lit(v.value)), st2)
        else Resolve(host, r, temps, st2)
    case OrElse(l, r) =>
      var (l', st1) := Resolve(host, l, temps, st);
      if l'.Halted? then (l', st1)
      else if !Acts(r) then (Got(OrElse(l'.value, r)), st1)
      else
        var (v, st2) := Operand(host, l'.value, temps, st1);
        if v.Halted? then (Halted(v.halt), st2)
        else if v.value == Truth(true) then (Got(Lit(v.value)), st2)
        else Resolve(host, r, temps, st2)
    case _ => (Got(e), st)
  }

  function ResolveAll(host: Host, es: seq<Expr>, temps: Temps, st: State): (r: (Result<seq<Expr>>, State))
    ensures r.1.gas == st.gas
    decreases es
  {
    if es == [] then (Got([]), st)
    else
      var (e, st1) := Resolve(host, es[0], temps, st);
      if e.Halted? then (Halted(e.halt), st1)
      else
        var (rest, st2) := ResolveAll(host, es[1..], temps, st1);
        (if rest.Halted? then rest else Got([e.value] + rest.value), st2)
  }

  function Perform(host: Host, fn: Fn, es: seq<Expr>, temps: Temps, st: State): (r: (Result<Expr>, State))
    ensures r.1.gas == st.gas
  {
    var (vs, st1) := Operands(host, es, temps, st);
    if vs.Halted? then (Halted(vs.halt), st1)
    else
      var (answer, store) := host.call(fn, vs.value, st1.store);
      (if answer.Gives? then Got(Lit(answer.value)) else Halted(Crashed(answer.defect)),
       st1.Seen(Called(fn, vs.value)).(store := store))
  }

  /** Awaiting an effect: its value, or the cause it ends the body with. */
  function Settle(host: Host, fx: Datum, st: State): (r: (Result<Datum>, State))
    ensures r.1.gas == st.gas
  {
    var (settled, store) := host.settle(fx, st.store);
    (if settled.Answered? then Got(settled.datum) else Halted(Refused(settled.cause)),
     st.Seen(Awaited(fx)).(store := store))
  }

  function AwaitOperand(host: Host, e: Expr, temps: Temps, st: State): (r: (Result<Datum>, State))
    ensures r.1.gas == st.gas
  {
    var (v, st1) := Operand(host, e, temps, st);
    if v.Halted? then (v, st1) else Settle(host, v.value, st1)
  }

  function Evaluate(host: Host, e: Expr, temps: Temps, st: State): (r: (Result<Datum>, State))
    ensures r.1.gas == st.gas
  {
    var (e', st1) := Resolve(host, e, temps, st);
    if e'.Halted? then (Halted(e'.halt), st1) else Operand(host, e'.value, temps, st1)
  }

  function EvaluateAll(host: Host, es: seq<Expr>, temps: Temps, st: State): (r: (Result<seq<Datum>>, State))
    ensures r.1.gas == st.gas
  {
    var (es', st1) := ResolveAll(host, es, temps, st);
    if es'.Halted? then (Halted(es'.halt), st1) else Operands(host, es'.value, temps, st1)
  }

  // Statements ----------------------------------------------------------------------------

  /** How a statement ends. */
  datatype Ending =
    | Normal
    | Broke
    | Continued
    | Returned(datum: Datum)
    | Ended(halt: Halt)
    | Jumped(to: Jump)
    | OutOfGas

  function StoreInto(host: Host, targets: seq<Target>, pointers: seq<Datum>, values: seq<Datum>, st: State): (r: State)
    ensures r.gas == st.gas
  {
    if targets == [] || values == [] then st
    else
      var v, rest := values[0], values[1..];
      match targets[0]
      case New(x) => StoreInto(host, targets[1..], pointers, rest, st.Declare(x, v))
      case Old(x) => StoreInto(host, targets[1..], pointers, rest, st.Write(x, v))
      case Blank => StoreInto(host, targets[1..], pointers, rest, st)
      case Into =>
        if pointers == [] || !pointers[0].Pointer? then st
        else StoreInto(host, targets[1..], pointers[1..], rest, st.Poke(pointers[0].cell, v))
  }

  function Pointers(targets: seq<Target>): nat {
    if targets == [] then 0 else (if targets[0].Into? then 1 else 0) + Pointers(targets[1..])
  }

  /** One value per target; a single value for several targets is a call's several results. */
  function Spread(host: Host, values: seq<Datum>, count: nat): seq<Datum> {
    if |values| == 1 && count > 1 then seq(count, i requires 0 <= i => host.component(values[0], i)) else values
  }

  function ExecAssign(host: Host, targets: seq<Target>, es: seq<Expr>, temps: Temps, st: State): (r: (Ending, State))
    ensures r.1.gas == st.gas
  {
    var (vs, st1) := EvaluateAll(host, es, temps, st);
    if vs.Halted? then (Ended(vs.halt), st1)
    else
      var p := if Pointers(targets) <= |vs.value| then Pointers(targets) else 0;
      (Normal, StoreInto(host, targets, vs.value[..p], Spread(host, vs.value[p..], |targets|), st1))
  }

  function Size(s: Stmt): (n: nat)
    ensures n >= 1
  {
    match s
    case Block(list) => 1 + ListSize(list)
    case Declaring(list) => 1 + ListSize(list)
    case If(init, _, thn, _, els) => 2 + 2 * ListSize(init) + ListSize(thn) + ListSize(els)
    case Switch(init, _, clauses) => 2 + 2 * ListSize(init) + ClausesSize(clauses)
    case For(init, _, post, body) => 2 + ListSize(init) + ListSize(post) + ListSize(body)
    case Range(_, _, _, body) => 2 + ListSize(body)
    case _ => 1
  }

  function ListSize(list: seq<Stmt>): nat {
    if list == [] then 0 else Size(list[0]) + ListSize(list[1..])
  }

  function ClausesSize(clauses: seq<Clause>): (n: nat)
    ensures forall i :: 0 <= i < |clauses| ==> ListSize(clauses[i].body) < n
  {
    if clauses == [] then 0 else 1 + ListSize(clauses[0].body) + ClausesSize(clauses[1..])
  }

  /** Tries the cases of one clause until one equals the tag. */
  function MatchCases(host: Host, cases: seq<Expr>, tag: Datum, temps: Temps, st: State): (r: (Result<bool>, State))
    ensures r.1.gas == st.gas
  {
    if cases == [] then (Got(false), st)
    else
      var (v, st1) := Evaluate(host, cases[0], temps, st);
      if v.Halted? then (Halted(v.halt), st1)
      else
        var equal := host.same(tag, v.value);
        if equal.Panics? then (Halted(Crashed(equal.defect)), st1)
        else if equal.value then (Got(true), st1)
        else MatchCases(host, cases[1..], tag, temps, st1)
  }

  /** The clause a switch runs: the first with a matching case, else the default one, else none
      (the number of clauses). */
  function Choose(host: Host, clauses: seq<Clause>, from: nat, tag: Datum, temps: Temps, st: State): (r: (Result<nat>, State))
    requires from <= |clauses|
    ensures r.1.gas == st.gas
    ensures r.0.Got? ==> r.0.value <= |clauses|
    decreases |clauses| - from
  {
    if from == |clauses| then (Got(DefaultClause(clauses, 0)), st)
    else
      var (found, st1) := MatchCases(host, clauses[from].cases, tag, temps, st);
      if found.Halted? then (Halted(found.halt), st1)
      else if found.value then (Got(from), st1)
      else Choose(host, clauses, from + 1, tag, temps, st1)
  }

  function DefaultClause(clauses: seq<Clause>, from: nat): (c: nat)
    requires from <= |clauses|
    ensures from <= c <= |clauses|
    ensures c < |clauses| ==> clauses[c].isDefault
    ensures forall i :: from <= i < c ==> !clauses[i].isDefault
    decreases |clauses| - from
  {
    if from == |clauses| || clauses[from].isDefault then from else DefaultClause(clauses, from + 1)
  }

  /** A guard is one condition or none. */
  function Guard(host: Host, when: seq<Expr>, temps: Temps, st: State): (r: (Result<bool>, State))
    ensures r.1.gas == st.gas
  {
    if when == [] then (Got(true), st)
    else
      var (v, st1) := Evaluate(host, when[0], temps, st);
      (if v.Halted? then Halted(v.halt) else Got(v.value == Truth(true)), st1)
  }

  function LoopLimit(host: Host, kind: RangeKind, over: Datum): int {
    if kind.Indexed? then host.length(over) else if over.Number? then over.n else 0
  }

  /** An iteration's key and value. */
  function IterationValues(host: Host, kind: RangeKind, over: Datum, index: int, count: nat, st: State): seq<Datum> {
    if kind.Indexed? && count > 1 then [Number(index), host.element(over, index, st.store)] else [Number(index)]
  }

  function Iteration(host: Host, kind: RangeKind, bound: seq<Target>, over: Datum, index: int, st: State): (r: State)
    ensures r.gas == st.gas
  {
    StoreInto(host, bound, [], IterationValues(host, kind, over, index, |bound|, st), st)
  }

  /** The variables a three-clause loop declares: those of a := in its init. */
  function LoopVars(init: seq<Stmt>): seq<Name> {
    if |init| == 1 && init[0].Assign? then NewNames(init[0].targets) else []
  }

  function NewNames(targets: seq<Target>): seq<Name> {
    if targets == [] then []
    else (if targets[0].New? then [targets[0].name] else []) + NewNames(targets[1..])
  }

  /** What Go does with one statement. */
  function Exec(host: Host, s: Stmt, temps: Temps, st: State): (r: (Ending, State))
    ensures r.1.gas <= st.gas
    decreases st.gas, Size(s), 2
  {
    match s
    case Assign(targets, es) => ExecAssign(host, targets, es, temps, st)
    case FailWith(e) =>
      var (v, st1) := Evaluate(host, e, temps, st);
      (Ended(if v.Halted? then v.halt else Refused(host.failure(v.value))), st1)
    case PanicWith(e) =>
      var (v, st1) := Evaluate(host, e, temps, st);
      (Ended(if v.Halted? then v.halt else Crashed(host.raise(v.value))), st1)
    case Return(e) =>
      var (v, st1) := Evaluate(host, e, temps, st);
      (if v.Halted? then Ended(v.halt) else Returned(v.value), st1)
    case Break => (Broke, st)
    case Continue => (Continued, st)
    case Goto(to) => (Jumped(to), st)
    case Block(list) => ExecList(host, list, temps, st)
    case Declaring(list) => ExecList(host, list, temps, st)
    case If(init, cond, thn, _, els) =>
      var (ending, st1) := ExecList(host, init, temps, st);
      if ending != Normal then (ending, st1)
      else
        var (holds, st2) := Guard(host, [cond], temps, st1);
        if holds.Halted? then (Ended(holds.halt), st2)
        else ExecList(host, if holds.value then thn else els, temps, st2)
    case Switch(init, tag, clauses) =>
      var (ending, st1) := ExecList(host, init, temps, st);
      if ending != Normal then (ending, st1)
      else
        var (v, st2) := Evaluate(host, tag, temps, st1);
        if v.Halted? then (Ended(v.halt), st2)
        else
          var (chosen, st3) := Choose(host, clauses, 0, v.value, temps, st2);
          if chosen.Halted? then (Ended(chosen.halt), st3)
          else if chosen.value == |clauses| then (Normal, st3)
          else
            var (inside, st4) := ExecList(host, clauses[chosen.value].body, temps, st3);
            (if inside.Broke? then Normal else inside, st4)
    case For(init, _, _, _) =>
      var (ending, st1) := ExecList(host, init, temps, st);
      if ending != Normal then (ending, st1) else Iterate(host, s, temps, st1)
    case Range(kind, over, _, _) =>
      var (v, st1) := Evaluate(host, over, temps, st);
      if v.Halted? then (Ended(v.halt), st1) else RangeFrom(host, s, v.value, 0, temps, st1)
  }

  function ExecList(host: Host, list: seq<Stmt>, temps: Temps, st: State): (r: (Ending, State))
    ensures r.1.gas <= st.gas
    decreases st.gas, ListSize(list), 3
  {
    if list == [] then (Normal, st)
    else
      var (ending, st1) := Exec(host, list[0], temps, st);
      if ending != Normal then (ending, st1) else ExecList(host, list[1..], temps, st1)
  }

  /** A three-clause loop from its condition on. Every later iteration has its own copy of the
      loop's variables, made before the post statement runs. */
  function Iterate(host: Host, s: Stmt, temps: Temps, st: State): (r: (Ending, State))
    requires s.For?
    ensures r.1.gas <= st.gas
    ensures !r.0.Broke? && !r.0.Continued?
    decreases st.gas, Size(s), 1
  {
    var (holds, st1) := Guard(host, s.when, temps, st);
    if holds.Halted? then (Ended(holds.halt), st1)
    else if !holds.value then (Normal, st1)
    else
      var (ending, st2) := ExecList(host, s.body, temps, st1);
      NextIteration(host, s, ending, temps, st2)
  }

  /** A loop once its body has ended: break leaves it, and falling off the body is continuing. */
  function NextIteration(host: Host, s: Stmt, ending: Ending, temps: Temps, st: State): (r: (Ending, State))
    requires s.For?
    ensures r.1.gas <= st.gas
    ensures !r.0.Broke? && !r.0.Continued?
    decreases st.gas, Size(s), 0
  {
    if ending.Broke? then (Normal, st)
    else if ending != Normal && ending != Continued then (ending, st)
    else
      var (after, st1) := ExecPost(host, s.post, temps, Renewed(st, LoopVars(s.init)));
      if after != Normal then (after, st1)
      else if st1.gas == 0 then (OutOfGas, st1)
      else Iterate(host, s, temps, st1.(gas := st1.gas - 1))
  }

  /** Fresh copies of these variables, as every iteration and every parameter list has. */
  function Renewed(st: State, xs: seq<Name>): (r: State)
    ensures r.gas == st.gas
    decreases |xs|
  {
    if xs == [] then st else Renewed(st.Declare(xs[0], st.Read(xs[0])), xs[1..])
  }

  /** A post statement is a simple statement or none. */
  function ExecPost(host: Host, post: seq<Stmt>, temps: Temps, st: State): (r: (Ending, State))
    ensures r.1.gas == st.gas
    ensures r.0.Normal? || r.0.Ended?
  {
    if post == [] || !post[0].Assign? then (Normal, st)
    else ExecAssign(host, post[0].targets, post[0].es, temps, st)
  }

  function RangeFrom(host: Host, s: Stmt, over: Datum, index: int, temps: Temps, st: State): (r: (Ending, State))
    requires s.Range?
    ensures r.1.gas <= st.gas
    ensures !r.0.Broke? && !r.0.Continued?
    decreases st.gas, Size(s), 1
  {
    if index >= LoopLimit(host, s.kind, over) then (Normal, st)
    else
      var (ending, st1) := ExecList(host, s.body, temps, Iteration(host, s.kind, s.bound, over, index, st));
      NextElement(host, s, over, index, ending, temps, st1)
  }

  function NextElement(host: Host, s: Stmt, over: Datum, index: int, ending: Ending, temps: Temps, st: State): (r: (Ending, State))
    requires s.Range?
    ensures r.1.gas <= st.gas
    ensures !r.0.Broke? && !r.0.Continued?
    decreases st.gas, Size(s), 0
  {
    if ending.Broke? then (Normal, st)
    else if ending != Normal && ending != Continued then (ending, st)
    else if st.gas == 0 then (OutOfGas, st)
    else RangeFrom(host, s, over, index + 1, temps, st.(gas := st.gas - 1))
  }

  // A whole body --------------------------------------------------------------------------

  /** What interpreting a body or its rewrite shows: how it ended, what it left outside itself,
      what it awaited and called on the way, and the gas it did not need. */
  datatype Report = Report(final: Final, store: Store, trace: seq<Event>, gas: nat)
  datatype Final = Succeeded(datum: Datum) | FailedWith(cause: Cause) | Exhausted | Nonsense

  function ReportOf(final: Final, st: State): Report {
    Report(final, st.store, st.trace, st.gas)
  }

  function HaltFinal(halt: Halt): Final {
    match halt
    case Refused(cause) => FailedWith(cause)
    case Crashed(defect) => FailedWith(Died(defect, UNKNOWN))
  }

  /** The endings of a Gen body: an answer, a failed await or a Fail, a panic. A body that runs
      off its end does not compile. */
  function RunGenBody(host: Host, body: seq<Stmt>, st: State): Report {
    var (ending, st') := ExecList(host, body, map[], st);
    ReportOf(match ending
             case Returned(v) => Succeeded(v)
             case Ended(halt) => HaltFinal(halt)
             case OutOfGas => Exhausted
             case _ => Nonsense,
             st')
  }
}
