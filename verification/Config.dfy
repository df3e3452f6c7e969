/** Descriptions of what a program must be told (effect/config): how one is read from a source, what
    it reports when it cannot be, and the two ways of moving one beneath a name. */
module Configs {
  import opened Wrappers

  type Value(!new, ==, 0)

  type Path = seq<string>

  // Errors --------------------------------------------------------------------------------

  /** `Undescribed` is what the zero description reports, an invalid value at no path. */
  datatype Error =
    | NoError
    | Missing(path: Path)
    | Invalid(path: Path, message: string)
    | Unavailable(path: Path, message: string)
    | Undescribed(path: Path)
    | And(left: Error, right: Error)
    | Or(left: Error, right: Error)
  {
    predicate IsLeaf() {
      Missing? || Invalid? || Unavailable? || Undescribed?
    }

    /** The leaves, left to right. */
    function Failures(): (leaves: seq<Error>)
      ensures forall e :: e in leaves ==> e.IsLeaf()
    {
      if NoError? then [] else if IsLeaf() then [this] else left.Failures() + right.Failures()
    }

    predicate IsMissingOnly() {
      Failures() != [] && forall e :: e in Failures() ==> e.Missing?
    }

    /** No composition holds the identity as a child. */
    predicate Solid() {
      And? || Or? ==> !left.NoError? && !right.NoError? && left.Solid() && right.Solid()
    }

    function Prefixed(prefix: Path): Error {
      match this
      case NoError => this
      case Missing(path) => Missing(prefix + path)
      case Invalid(path, message) => Invalid(prefix + path, message)
      case Unavailable(path, message) => Unavailable(prefix + path, message)
      case Undescribed(path) => Undescribed(prefix + path)
      case And(l, r) => And(l.Prefixed(prefix), r.Prefixed(prefix))
      case Or(l, r) => Or(l.Prefixed(prefix), r.Prefixed(prefix))
    }
  }

  function Needed(a: Error, b: Error): Error {
    if a.NoError? then b else if b.NoError? then a else And(a, b)
  }

  function Tried(a: Error, b: Error): Error {
    if a.NoError? then b else if b.NoError? then a else Or(a, b)
  }

  lemma {:induction false} ComposingKeepsFailures(a: Error, b: Error)
    ensures Needed(a, b).Failures() == a.Failures() + b.Failures()
    ensures Tried(a, b).Failures() == a.Failures() + b.Failures()
    ensures Needed(a, b).NoError? <==> a.NoError? && b.NoError?
    ensures a.Solid() && b.Solid() ==> Needed(a, b).Solid() && Tried(a, b).Solid()
  {
  }

  lemma {:induction false} SolidHasFailure(e: Error)
    requires e.Solid()
    ensures e.NoError? <==> e.Failures() == []
  {
    if e.And? || e.Or? {
      SolidHasFailure(e.left);
      SolidHasFailure(e.right);
    }
  }

  // Sources and descriptions --------------------------------------------------------------

  datatype Lookup = Unreachable(message: string) | Absent | Found(text: string)
  datatype Listing = NotListed(message: string) | Listed(names: seq<string>)

  datatype Source = Source(value: Path -> Lookup, children: Path -> Listing)

  /** The same source, read as though a description started beneath a path. */
  function Beneath(source: Source, prefix: Path): Source {
    Source((path: Path) => source.value(prefix + path), (path: Path) => source.children(prefix + path))
  }

  /** A source over one piece of text. */
  function One(text: string): Source {
    Source((path: Path) => Found(text), (path: Path) => Listed([]))
  }

  datatype Parsed = Accepts(value: Value) | Refuses(message: string)

  /** How a field's value goes into the settings being built. */
  type Assign = (Value, Value) -> Value

  datatype Config =
    | Zero
    | Of(name: string, parse: string -> Parsed)
    | Map(of: Config, transform: Value -> Value)
    | MapOrFail(of: Config, check: Value -> Parsed)
    | ZipWith(first: Config, second: Config, combine: (Value, Value) -> Value)
    | All(parts: seq<Config>, gather: seq<Value> -> Value)
    | Nested(name: string, of: Config)
    | WithDefault(of: Config, standIn: Value)
    | OrElse(of: Config, that: Config)
    | Optional(of: Config, transform: Value -> Value, standIn: Value)
    | Table(name: string, of: Config, tabulate: seq<(string, Value)> -> Value)
    | Many(name: string, pieces: string -> seq<string>, of: Config, gather: seq<Value> -> Value)
    | Struct(parts: seq<Config>, assigns: seq<Assign>, blank: Value)

  datatype Cursor = Cursor(source: Source, path: Path) {

    /** An empty name stays where it is. */
    function Under(name: string): Cursor {
      if name == "" then this else this.(path := path + [name])
    }
  }

  function PathOf(name: string): Path {
    if name == "" then [] else [name]
  }

  function FirstOf(a: Option<Path>, b: Option<Path>): Option<Path> {
    if a.Some? then a else b
  }

  /** The path of the first value the description reads, relative to where it is read. */
  function FirstPath(c: Config): Option<Path> {
    match c
    case Zero => None
    case Of(name, _) => Some(PathOf(name))
    case Map(of, _) => FirstPath(of)
    case MapOrFail(of, _) => FirstPath(of)
    case ZipWith(first, second, _) => FirstOf(FirstPath(first), FirstPath(second))
    case All(parts, _) => FirstPathOf(parts)
    case Nested(name, of) => (match FirstPath(of) case None => None case Some(path) => Some(PathOf(name) + path))
    case WithDefault(of, _) => FirstPath(of)
    case OrElse(of, that) => FirstOf(FirstPath(of), FirstPath(that))
    case Optional(of, _, _) => FirstPath(of)
    case Table(name, _, _) => Some(PathOf(name))
    case Many(name, _, _, _) => Some(PathOf(name))
    case Struct(parts, _, _) => FirstPathOf(parts)
  }

  function FirstPathOf(parts: seq<Config>): Option<Path> {
    if parts == [] then None else FirstOf(FirstPath(parts[0]), FirstPathOf(parts[1..]))
  }

  function Subject(c: Config): Path {
    match FirstPath(c) case None => [] case Some(path) => path
  }

  // Reading -------------------------------------------------------------------------------

  datatype Outcome = Got(value: Value) | Refused(failure: Error)

  function FailureOf(outcome: Outcome): Error {
    if outcome.Got? then NoError else outcome.failure
  }

  /** Everything that was refused, in order. */
  function AllFailures(outcomes: seq<Outcome>): Error
    decreases |outcomes|
  {
    if outcomes == [] then NoError
    else Needed(AllFailures(outcomes[..|outcomes| - 1]), FailureOf(outcomes[|outcomes| - 1]))
  }

  function Values(outcomes: seq<Outcome>): seq<Value> {
    if outcomes == [] then []
    else (if outcomes[0].Got? then [outcomes[0].value] else []) + Values(outcomes[1..])
  }

  function Entries(names: seq<string>, outcomes: seq<Outcome>): seq<(string, Value)>
    requires |names| == |outcomes|
  {
    if outcomes == [] then []
    else (if outcomes[0].Got? then [(names[0], outcomes[0].value)] else []) + Entries(names[1..], outcomes[1..])
  }

  /** Puts every value read where its field says. */
  function Assigned(assigns: seq<Assign>, outcomes: seq<Outcome>, into: Value): Value
    decreases |outcomes|
  {
    if outcomes == [] || assigns == [] then into
    else Assigned(assigns[1..], outcomes[1..], if outcomes[0].Got? then assigns[0](into, outcomes[0].value) else into)
  }

  function Gathered(outcomes: seq<Outcome>, value: Value): Outcome {
    var failure := AllFailures(outcomes);
    if failure.NoError? then Got(value) else Refused(failure)
  }

  function LookedUp(at: Cursor): Lookup {
    at.source.value(at.path)
  }

  function Read(c: Config, at: Cursor): Outcome
    decreases c, 1
  {
    match c
    case Zero => Refused(Undescribed([]))
    case Of(name, parse) =>
      var here := at.Under(name);
      (match LookedUp(here)
       case Unreachable(message) => Refused(Unavailable(here.path, message))
       case Absent => Refused(Missing(here.path))
       case Found(text) =>
         match parse(text)
         case Refuses(message) => Refused(Invalid(here.path, message))
         case Accepts(value) => Got(value))
    case Map(of, transform) =>
      var outcome := Read(of, at);
      if outcome.Refused? then outcome else Got(transform(outcome.value))
    case MapOrFail(of, check) =>
      var outcome := Read(of, at);
      if outcome.Refused? then outcome
      else (match check(outcome.value)
            case Refuses(message) => Refused(Invalid(at.path + Subject(of), message))
            case Accepts(value) => Got(value))
    case ZipWith(first, second, combine) =>
      var left, right := Read(first, at), Read(second, at);
      var failure := Needed(FailureOf(left), FailureOf(right));
      if !failure.NoError? || left.Refused? || right.Refused? then Refused(failure) else Got(combine(left.value, right.value))
    case All(parts, gather) => var outcomes := ReadAll(parts, at); Gathered(outcomes, gather(Values(outcomes)))
    case Nested(name, of) => Read(of, at.Under(name))
    case WithDefault(of, standIn) =>
      var outcome := Read(of, at);
      if FailureOf(outcome).IsMissingOnly() then Got(standIn) else outcome
    case OrElse(of, that) =>
      var outcome := Read(of, at);
      if outcome.Got? then outcome
      else
        var alternative := Read(that, at);
        if alternative.Got? then alternative else Refused(Tried(outcome.failure, alternative.failure))
    case Optional(of, transform, standIn) =>
      var outcome := Read(of, at);
      if FailureOf(outcome).IsMissingOnly() then Got(standIn)
      else if outcome.Refused? then outcome
      else Got(transform(outcome.value))
    case Table(name, of, tabulate) =>
      var here := at.Under(name);
      (match here.source.children(here.path)
       case NotListed(message) => Refused(Unavailable(here.path, message))
       case Listed(names) => var outcomes := ReadEach(of, here, names); Gathered(outcomes, tabulate(Entries(names, outcomes))))
    case Many(name, pieces, of, gather) =>
      var here := at.Under(name);
      (match LookedUp(here)
       case Unreachable(message) => Refused(Unavailable(here.path, message))
       case Absent => Refused(Missing(here.path))
       case Found(text) => var outcomes := ReadPieces(of, here.path, pieces(text)); Gathered(outcomes, gather(Values(outcomes))))
    case Struct(parts, assigns, blank) =>
      var outcomes := ReadAll(parts, at);
      Gathered(outcomes, Assigned(assigns, outcomes, blank))
  }

  function ReadAll(parts: seq<Config>, at: Cursor): (r: seq<Outcome>)
    ensures |r| == |parts| && forall i :: 0 <= i < |r| ==> r[i] == Read(parts[i], at)
    decreases parts, 0
  {
    if parts == [] then [] else [Read(parts[0], at)] + ReadAll(parts[1..], at)
  }

  /** Reads a table's entry description once beneath every name. */
  function ReadEach(of: Config, at: Cursor, names: seq<string>): (r: seq<Outcome>)
    ensures |r| == |names| && forall i :: 0 <= i < |r| ==> r[i] == Read(of, at.Under(names[i]))
    decreases of, 2, |names|
  {
    if names == [] then [] else [Read(of, at.Under(names[0]))] + ReadEach(of, at, names[1..])
  }

  /** Reads a list's entry description once per piece of text. */
  function ReadPieces(of: Config, path: Path, pieces: seq<string>): (r: seq<Outcome>)
    ensures |r| == |pieces| && forall i :: 0 <= i < |r| ==> r[i] == Read(of, Cursor(One(pieces[i]), path))
    decreases of, 2, |pieces|
  {
    if pieces == [] then [] else [Read(of, Cursor(One(pieces[0]), path))] + ReadPieces(of, path, pieces[1..])
  }

  // Failing exactly where a part fails ----------------------------------------------------

  predicate Sound(outcome: Outcome) {
    outcome.Refused? ==> !outcome.failure.NoError? && outcome.failure.Solid()
  }

  lemma {:induction false} AllFailuresFacts(outcomes: seq<Outcome>)
    requires forall i :: 0 <= i < |outcomes| ==> Sound(outcomes[i])
    ensures AllFailures(outcomes).Solid()
    ensures AllFailures(outcomes).NoError? <==> forall i :: 0 <= i < |outcomes| ==> outcomes[i].Got?
    decreases |outcomes|
  {
    if outcomes != [] {
      var init, last := outcomes[..|outcomes| - 1], outcomes[|outcomes| - 1];
      AllFailuresFacts(init);
      ComposingKeepsFailures(AllFailures(init), FailureOf(last));
      assert outcomes == init + [last];
    }
  }

  /** A refusal always says something. */
  lemma {:induction false} RefusalsSaySomething(c: Config, at: Cursor)
    ensures Sound(Read(c, at))
    decreases c, 1
  {
    match c
    case Map(of, _) => RefusalsSaySomething(of, at);
    case MapOrFail(of, _) => RefusalsSaySomething(of, at);
    case ZipWith(first, second, _) =>
      RefusalsSaySomething(first, at);
      RefusalsSaySomething(second, at);
      ComposingKeepsFailures(FailureOf(Read(first, at)), FailureOf(Read(second, at)));
    case All(parts, _) =>
      forall i | 0 <= i < |parts|
        ensures Sound(Read(parts[i], at))
      {
        RefusalsSaySomething(parts[i], at);
      }
      AllFailuresFacts(ReadAll(parts, at));
    case Nested(name, of) => RefusalsSaySomething(of, at.Under(name));
    case WithDefault(of, _) => RefusalsSaySomething(of, at);
    case OrElse(of, that) =>
      RefusalsSaySomething(of, at);
      RefusalsSaySomething(that, at);
    case Optional(of, _, _) => RefusalsSaySomething(of, at);
    case Table(name, of, _) =>
      var here := at.Under(name);
      if here.source.children(here.path).Listed? {
        var names := here.source.children(here.path).names;
        forall i | 0 <= i < |names|
          ensures Sound(Read(of, here.Under(names[i])))
        {
          RefusalsSaySomething(of, here.Under(names[i]));
        }
        AllFailuresFacts(ReadEach(of, here, names));
      }
    case Many(name, pieces, of, _) =>
      var here := at.Under(name);
      if LookedUp(here).Found? {
        var texts := pieces(LookedUp(here).text);
        forall i | 0 <= i < |texts|
          ensures Sound(Read(of, Cursor(One(texts[i]), here.path)))
        {
          RefusalsSaySomething(of, Cursor(One(texts[i]), here.path));
        }
        AllFailuresFacts(ReadPieces(of, here.path, texts));
      }
    case Struct(parts, _, _) =>
      forall i | 0 <= i < |parts|
        ensures Sound(Read(parts[i], at))
      {
        RefusalsSaySomething(parts[i], at);
      }
      AllFailuresFacts(ReadAll(parts, at));
    case _ =>
  }

  /** Every part's failures, in order. */
  function PartFailures(outcomes: seq<Outcome>): seq<Error>
    decreases |outcomes|
  {
    if outcomes == [] then []
    else PartFailures(outcomes[..|outcomes| - 1]) + FailureOf(outcomes[|outcomes| - 1]).Failures()
  }

  lemma {:induction false} GatheringKeepsFailures(outcomes: seq<Outcome>)
    ensures AllFailures(outcomes).Failures() == PartFailures(outcomes)
    decreases |outcomes|
  {
    if outcomes != [] {
      GatheringKeepsFailures(outcomes[..|outcomes| - 1]);
      ComposingKeepsFailures(AllFailures(outcomes[..|outcomes| - 1]), FailureOf(outcomes[|outcomes| - 1]));
    }
  }

  /** A composite of parts fails exactly where some part does, and reports every part's failures in
      order: all of them are read whatever the ones before did. */
  lemma {:induction false} CompositesReportEveryPart(parts: seq<Config>, gather: seq<Value> -> Value, assigns: seq<Assign>, blank: Value, at: Cursor)
    ensures var outcomes := ReadAll(parts, at);
            var all, settings := Read(All(parts, gather), at), Read(Struct(parts, assigns, blank), at);
            && (all.Refused? <==> exists i :: 0 <= i < |parts| && Read(parts[i], at).Refused?)
            && (settings.Refused? <==> all.Refused?)
            && FailureOf(all).Failures() == FailureOf(settings).Failures() == PartFailures(outcomes)
  {
    forall i | 0 <= i < |parts|
      ensures Sound(Read(parts[i], at))
    {
      RefusalsSaySomething(parts[i], at);
    }
    var outcomes := ReadAll(parts, at);
    AllFailuresFacts(outcomes);
    GatheringKeepsFailures(outcomes);
    assert forall i :: 0 <= i < |parts| ==> outcomes[i] == Read(parts[i], at);
  }

  lemma {:induction false} PairsReportBoth(first: Config, second: Config, combine: (Value, Value) -> Value, at: Cursor)
    ensures var left, right := Read(first, at), Read(second, at);
            var pair := Read(ZipWith(first, second, combine), at);
            && (pair.Refused? <==> left.Refused? || right.Refused?)
            && FailureOf(pair).Failures() == FailureOf(left).Failures() + FailureOf(right).Failures()
            && (pair.Got? ==> pair.value == combine(left.value, right.value))
  {
    RefusalsSaySomething(first, at);
    RefusalsSaySomething(second, at);
    ComposingKeepsFailures(FailureOf(Read(first, at)), FailureOf(Read(second, at)));
  }

  /** A stand-in is for absence only: nothing that was supplied and refused, and no source that
      could not be reached, is covered by it. */
  lemma {:induction false} StandInsCoverAbsenceOnly(of: Config, standIn: Value, transform: Value -> Value, at: Cursor)
    ensures var outcome := Read(of, at);
            var absent := outcome.Refused? && forall e :: e in outcome.failure.Failures() ==> e.Missing?;
            && (absent ==> Read(WithDefault(of, standIn), at) == Got(standIn) && Read(Optional(of, transform, standIn), at) == Got(standIn))
            && (!absent ==> Read(WithDefault(of, standIn), at) == outcome)
            && (!absent && outcome.Refused? ==> Read(Optional(of, transform, standIn), at) == outcome)
            && (outcome.Got? ==> Read(Optional(of, transform, standIn), at) == Got(transform(outcome.value)))
  {
    RefusalsSaySomething(of, at);
    var outcome := Read(of, at);
    if outcome.Refused? {
      SolidHasFailure(outcome.failure);
    }
  }

  // Relocating ----------------------------------------------------------------------------

  /** Everything the inner source holds, the outer one holds beneath the prefix. */
  ghost predicate Mounts(inner: Source, outer: Source, prefix: Path) {
    forall path :: inner.value(path) == outer.value(prefix + path) && inner.children(path) == outer.children(prefix + path)
  }

  /** An error as it is reported from further down: what the zero description reports is not moved. */
  function Relocated(e: Error, prefix: Path): Error {
    match e
    case NoError => e
    case Missing(path) => Missing(prefix + path)
    case Invalid(path, message) => Invalid(prefix + path, message)
    case Unavailable(path, message) => Unavailable(prefix + path, message)
    case Undescribed(_) => e
    case And(l, r) => And(Relocated(l, prefix), Relocated(r, prefix))
    case Or(l, r) => Or(Relocated(l, prefix), Relocated(r, prefix))
  }

  function Moved(outcome: Outcome, prefix: Path): Outcome {
    if outcome.Got? then outcome else Refused(Relocated(outcome.failure, prefix))
  }

  function AllMoved(outcomes: seq<Outcome>, prefix: Path): (r: seq<Outcome>)
    ensures |r| == |outcomes| && forall i :: 0 <= i < |r| ==> r[i] == Moved(outcomes[i], prefix)
  {
    seq(|outcomes|, i requires 0 <= i < |outcomes| => Moved(outcomes[i], prefix))
  }

  predicate OnlyMissing(e: Error) {
    if e.NoError? then true else if e.IsLeaf() then e.Missing? else OnlyMissing(e.left) && OnlyMissing(e.right)
  }

  lemma {:induction false} OnlyMissingLeaves(e: Error)
    ensures OnlyMissing(e) <==> forall x :: x in e.Failures() ==> x.Missing?
  {
    if e.And? || e.Or? {
      OnlyMissingLeaves(e.left);
      OnlyMissingLeaves(e.right);
    } else if e.IsLeaf() {
      assert e in e.Failures();
    }
  }

  lemma {:induction false} RelocatedLeaves(e: Error, prefix: Path)
    ensures OnlyMissing(Relocated(e, prefix)) == OnlyMissing(e)
    ensures |Relocated(e, prefix).Failures()| == |e.Failures()|
  {
    if e.And? || e.Or? {
      RelocatedLeaves(e.left, prefix);
      RelocatedLeaves(e.right, prefix);
    }
  }

  lemma {:induction false} RelocatedMissing(e: Error, prefix: Path)
    ensures Relocated(e, prefix).IsMissingOnly() == e.IsMissingOnly()
  {
    RelocatedLeaves(e, prefix);
    OnlyMissingLeaves(e);
    OnlyMissingLeaves(Relocated(e, prefix));
  }

  lemma {:induction false} MovingGathers(outcomes: seq<Outcome>, prefix: Path)
    ensures AllFailures(AllMoved(outcomes, prefix)) == Relocated(AllFailures(outcomes), prefix)
    decreases |outcomes|
  {
    if outcomes != [] {
      var init := outcomes[..|outcomes| - 1];
      MovingGathers(init, prefix);
      assert AllMoved(outcomes, prefix)[..|outcomes| - 1] == AllMoved(init, prefix);
    }
  }

  lemma {:induction false} GatheredMoves(outcomes: seq<Outcome>, value: Value, prefix: Path)
    ensures Gathered(AllMoved(outcomes, prefix), value) == Moved(Gathered(outcomes, value), prefix)
  {
    MovingGathers(outcomes, prefix);
  }

  lemma {:induction false} MovingKeepsValues(outcomes: seq<Outcome>, prefix: Path)
    ensures Values(AllMoved(outcomes, prefix)) == Values(outcomes)
  {
    if outcomes != [] {
      MovingKeepsValues(outcomes[1..], prefix);
      assert AllMoved(outcomes, prefix)[1..] == AllMoved(outcomes[1..], prefix);
    }
  }

  lemma {:induction false} MovingKeepsEntries(names: seq<string>, outcomes: seq<Outcome>, prefix: Path)
    requires |names| == |outcomes|
    ensures Entries(names, AllMoved(outcomes, prefix)) == Entries(names, outcomes)
  {
    if outcomes != [] {
      MovingKeepsEntries(names[1..], outcomes[1..], prefix);
      assert AllMoved(outcomes, prefix)[1..] == AllMoved(outcomes[1..], prefix);
    }
  }

  lemma {:induction false} MovingKeepsAssigned(assigns: seq<Assign>, outcomes: seq<Outcome>, into: Value, prefix: Path)
    ensures Assigned(assigns, AllMoved(outcomes, prefix), into) == Assigned(assigns, outcomes, into)
    decreases |outcomes|
  {
    if outcomes != [] && assigns != [] {
      MovingKeepsAssigned(assigns[1..], outcomes[1..], if outcomes[0].Got? then assigns[0](into, outcomes[0].value) else into, prefix);
      assert AllMoved(outcomes, prefix)[1..] == AllMoved(outcomes[1..], prefix);
    }
  }

  /** A cursor inside the mounted source, seen from outside. */
  function Outside(at: Cursor, outer: Source, prefix: Path): Cursor {
    Cursor(outer, prefix + at.path)
  }

  lemma {:induction false} UnderOutside(at: Cursor, outer: Source, prefix: Path, name: string)
    ensures Outside(at.Under(name), outer, prefix) == Outside(at, outer, prefix).Under(name)
    ensures at.Under(name).source == at.source
  {
  }

  /** Reading a description beneath a prefix is reading it from the source mounted there, with what
      is reported moved beneath the prefix. */
  lemma {:induction false} ReadsMove(c: Config, at: Cursor, outer: Source, prefix: Path)
    requires Mounts(at.source, outer, prefix)
    ensures Read(c, Outside(at, outer, prefix)) == Moved(Read(c, at), prefix)
    decreases c, 1
  {
    match c
    case Zero =>
    case Of(_, _) => ValueMoves(c, at, outer, prefix);
    case Map(of, _) => ReadsMove(of, at, outer, prefix);
    case MapOrFail(_, _) => CheckMoves(c, at, outer, prefix);
    case ZipWith(_, _, _) => PairMoves(c, at, outer, prefix);
    case All(_, _) => ListMoves(c, at, outer, prefix);
    case Nested(name, of) =>
      UnderOutside(at, outer, prefix, name);
      ReadsMove(of, at.Under(name), outer, prefix);
    case WithDefault(_, _) => StandInMoves(c, at, outer, prefix);
    case OrElse(_, _) => AlternativeMoves(c, at, outer, prefix);
    case Optional(_, _, _) => StandInMoves(c, at, outer, prefix);
    case Table(_, _, _) => TableMoves(c, at, outer, prefix);
    case Many(_, _, _, _) => ManyMoves(c, at, outer, prefix);
    case Struct(_, _, _) => SettingsMove(c, at, outer, prefix);
  }

  lemma {:induction false} ValueMoves(c: Config, at: Cursor, outer: Source, prefix: Path)
    requires c.Of? && Mounts(at.source, outer, prefix)
    ensures Read(c, Outside(at, outer, prefix)) == Moved(Read(c, at), prefix)
    decreases c, 0
  {
    UnderOutside(at, outer, prefix, c.name);
    assert LookedUp(at.Under(c.name)) == outer.value(prefix + at.Under(c.name).path);
  }

  lemma {:induction false} CheckMoves(c: Config, at: Cursor, outer: Source, prefix: Path)
    requires c.MapOrFail? && Mounts(at.source, outer, prefix)
    ensures Read(c, Outside(at, outer, prefix)) == Moved(Read(c, at), prefix)
    decreases c, 0
  {
    ReadsMove(c.of, at, outer, prefix);
    assert prefix + (at.path + Subject(c.of)) == prefix + at.path + Subject(c.of);
  }

  lemma {:induction false} PairMoves(c: Config, at: Cursor, outer: Source, prefix: Path)
    requires c.ZipWith? && Mounts(at.source, outer, prefix)
    ensures Read(c, Outside(at, outer, prefix)) == Moved(Read(c, at), prefix)
    decreases c, 0
  {
    ReadsMove(c.first, at, outer, prefix);
    ReadsMove(c.second, at, outer, prefix);
  }

  lemma {:induction false} ListMoves(c: Config, at: Cursor, outer: Source, prefix: Path)
    requires c.All? && Mounts(at.source, outer, prefix)
    ensures Read(c, Outside(at, outer, prefix)) == Moved(Read(c, at), prefix)
    decreases c, 0
  {
    var outcomes := ReadAll(c.parts, at);
    PartsMove(c.parts, at, outer, prefix);
    MovingKeepsValues(outcomes, prefix);
    GatheredMoves(outcomes, c.gather(Values(outcomes)), prefix);
  }

  lemma {:induction false} SettingsMove(c: Config, at: Cursor, outer: Source, prefix: Path)
    requires c.Struct? && Mounts(at.source, outer, prefix)
    ensures Read(c, Outside(at, outer, prefix)) == Moved(Read(c, at), prefix)
    decreases c, 0
  {
    var outcomes := ReadAll(c.parts, at);
    var settings := Assigned(c.assigns, outcomes, c.blank);
    assert Read(c, at) == Gathered(outcomes, settings);
    PartsMove(c.parts, at, outer, prefix);
    MovingKeepsAssigned(c.assigns, outcomes, c.blank, prefix);
    assert Read(c, Outside(at, outer, prefix)) == Gathered(AllMoved(outcomes, prefix), settings);
    GatheredMoves(outcomes, settings, prefix);
  }

  lemma {:induction false} StandInMoves(c: Config, at: Cursor, outer: Source, prefix: Path)
    requires (c.WithDefault? || c.Optional?) && Mounts(at.source, outer, prefix)
    ensures Read(c, Outside(at, outer, prefix)) == Moved(Read(c, at), prefix)
    decreases c, 0
  {
    ReadsMove(c.of, at, outer, prefix);
    RelocatedMissing(FailureOf(Read(c.of, at)), prefix);
  }

  lemma {:induction false} AlternativeMoves(c: Config, at: Cursor, outer: Source, prefix: Path)
    requires c.OrElse? && Mounts(at.source, outer, prefix)
    ensures Read(c, Outside(at, outer, prefix)) == Moved(Read(c, at), prefix)
    decreases c, 0
  {
    ReadsMove(c.of, at, outer, prefix);
    ReadsMove(c.that, at, outer, prefix);
  }

  lemma {:induction false} PartsMove(parts: seq<Config>, at: Cursor, outer: Source, prefix: Path)
    requires Mounts(at.source, outer, prefix)
    ensures ReadAll(parts, Outside(at, outer, prefix)) == AllMoved(ReadAll(parts, at), prefix)
    decreases parts, 0
  {
    forall i | 0 <= i < |parts|
      ensures Read(parts[i], Outside(at, outer, prefix)) == Moved(Read(parts[i], at), prefix)
    {
      ReadsMove(parts[i], at, outer, prefix);
    }
  }

  lemma {:induction false} TableMoves(c: Config, at: Cursor, outer: Source, prefix: Path)
    requires c.Table? && Mounts(at.source, outer, prefix)
    ensures Read(c, Outside(at, outer, prefix)) == Moved(Read(c, at), prefix)
    decreases c, 0
  {
    var here := at.Under(c.name);
    UnderOutside(at, outer, prefix, c.name);
    var listing := here.source.children(here.path);
    assert listing == outer.children(prefix + here.path);
    if listing.Listed? {
      var names := listing.names;
      forall i | 0 <= i < |names|
        ensures Read(c.of, Outside(here, outer, prefix).Under(names[i])) == Moved(Read(c.of, here.Under(names[i])), prefix)
      {
        UnderOutside(here, outer, prefix, names[i]);
        ReadsMove(c.of, here.Under(names[i]), outer, prefix);
      }
      var outcomes := ReadEach(c.of, here, names);
      assert ReadEach(c.of, Outside(here, outer, prefix), names) == AllMoved(outcomes, prefix);
      MovingKeepsEntries(names, outcomes, prefix);
      GatheredMoves(outcomes, c.tabulate(Entries(names, outcomes)), prefix);
    }
  }

  lemma {:induction false} ManyMoves(c: Config, at: Cursor, outer: Source, prefix: Path)
    requires c.Many? && Mounts(at.source, outer, prefix)
    ensures Read(c, Outside(at, outer, prefix)) == Moved(Read(c, at), prefix)
    decreases c, 0
  {
    var here := at.Under(c.name);
    UnderOutside(at, outer, prefix, c.name);
    assert LookedUp(here) == outer.value(prefix + here.path);
    if LookedUp(here).Found? {
      var texts := c.pieces(LookedUp(here).text);
      forall i | 0 <= i < |texts|
        ensures Read(c.of, Cursor(One(texts[i]), prefix + here.path)) == Moved(Read(c.of, Cursor(One(texts[i]), here.path)), prefix)
      {
        ReadsMove(c.of, Cursor(One(texts[i]), here.path), One(texts[i]), prefix);
      }
      var outcomes := ReadPieces(c.of, here.path, texts);
      assert ReadPieces(c.of, prefix + here.path, texts) == AllMoved(outcomes, prefix);
      MovingKeepsValues(outcomes, prefix);
      GatheredMoves(outcomes, c.gather(Values(outcomes)), prefix);
    }
  }

  /** Whether a failure holds what the zero description reports. */
  predicate SaysUndescribed(e: Error) {
    exists i :: 0 <= i < |e.Failures()| && e.Failures()[i].Undescribed?
  }

  /** Moving a report beneath a path is prefixing it, unless the zero description is part of it. */
  lemma {:induction false} MovedIsPrefixed(e: Error, prefix: Path)
    requires prefix != []
    ensures Relocated(e, prefix) == e.Prefixed(prefix) <==> !SaysUndescribed(e)
    decreases e, 1
  {
    match e
    case And(l, r) => BothPrefixed(e, prefix);
    case Or(l, r) => BothPrefixed(e, prefix);
    case Undescribed(path) =>
      assert |prefix + path| != |path|;
      assert e.Failures() == [e] && e.Failures()[0].Undescribed?;
    case NoError =>
    case _ => assert e.Failures() == [e];
  }

  lemma {:induction false} BothPrefixed(e: Error, prefix: Path)
    requires prefix != [] && (e.And? || e.Or?)
    ensures Relocated(e, prefix) == e.Prefixed(prefix) <==> !SaysUndescribed(e)
    decreases e, 0
  {
    MovedIsPrefixed(e.left, prefix);
    MovedIsPrefixed(e.right, prefix);
    var l, r := e.left.Failures(), e.right.Failures();
    assert e.Failures() == l + r;
    assert SaysUndescribed(e) <==> SaysUndescribed(e.left) || SaysUndescribed(e.right) by {
      assert forall i :: 0 <= i < |l| ==> (l + r)[i] == l[i];
      assert forall i :: 0 <= i < |r| ==> (l + r)[|l| + i] == r[i];
    }
  }

  lemma {:induction false} BeneathMounts(source: Source, prefix: Path)
    ensures Mounts(Beneath(source, prefix), source, prefix)
  {
  }

  /** Nesting a description under a name, and reading it from the source mounted beneath that name,
      agree for every description and every source: the same value, or the same failure prefixed
      with the name. They disagree exactly where the failure holds the zero description's report. */
  lemma {:induction false} NestedIsBeneath(name: string, c: Config, source: Source)
    requires name != ""
    ensures var nested, mounted := Read(Nested(name, c), Cursor(source, [])), Read(c, Cursor(Beneath(source, [name]), []));
            && (nested.Got? <==> mounted.Got?)
            && (nested.Got? ==> nested == mounted)
            && (nested.Refused? ==>
                  (nested.failure == mounted.failure.Prefixed([name]) <==> !SaysUndescribed(mounted.failure)))
  {
    var mounted := Cursor(Beneath(source, [name]), []);
    BeneathMounts(source, [name]);
    ReadsMove(c, mounted, source, [name]);
    assert [name] + [] == [name] && [] + [name] == [name];
    assert Outside(mounted, source, [name]) == Cursor(source, []).Under(name);
    MovedIsPrefixed(FailureOf(Read(c, mounted)), [name]);
  }

  /** Whether a description has no zero in it. */
  predicate Described(c: Config) {
    match c
    case Zero => false
    case Of(_, _) => true
    case Map(of, _) => Described(of)
    case MapOrFail(of, _) => Described(of)
    case ZipWith(first, second, _) => Described(first) && Described(second)
    case All(parts, _) => AllDescribed(parts)
    case Nested(_, of) => Described(of)
    case WithDefault(of, _) => Described(of)
    case OrElse(of, that) => Described(of) && Described(that)
    case Optional(of, _, _) => Described(of)
    case Table(_, of, _) => Described(of)
    case Many(_, _, of, _) => Described(of)
    case Struct(parts, _, _) => AllDescribed(parts)
  }

  predicate AllDescribed(parts: seq<Config>) {
    parts != [] ==> Described(parts[0]) && AllDescribed(parts[1..])
  }

  lemma {:induction false} NoneSayUndescribed(outcomes: seq<Outcome>)
    requires forall i :: 0 <= i < |outcomes| ==> !SaysUndescribed(FailureOf(outcomes[i]))
    ensures !SaysUndescribed(AllFailures(outcomes))
    decreases |outcomes|
  {
    if outcomes != [] {
      var init, last := outcomes[..|outcomes| - 1], outcomes[|outcomes| - 1];
      NoneSayUndescribed(init);
      NeitherSaysUndescribed(AllFailures(init), FailureOf(last));
    }
  }

  lemma {:induction false} NeitherSaysUndescribed(a: Error, b: Error)
    requires !SaysUndescribed(a) && !SaysUndescribed(b)
    ensures !SaysUndescribed(Needed(a, b)) && !SaysUndescribed(Tried(a, b))
  {
    ComposingKeepsFailures(a, b);
    var both := a.Failures() + b.Failures();
    assert forall i :: 0 <= i < |both| ==> both[i] == if i < |a.Failures()| then a.Failures()[i] else b.Failures()[i - |a.Failures()|];
  }

  lemma {:induction false} PartDescribed(parts: seq<Config>, i: nat)
    requires AllDescribed(parts) && i < |parts|
    ensures Described(parts[i])
  {
    if i > 0 {
      PartDescribed(parts[1..], i - 1);
    }
  }

  /** A description without a zero in it never reports one, so for it the two ways always agree. */
  lemma {:induction false} DescribedNeverSaysSo(c: Config, at: Cursor)
    requires Described(c)
    ensures !SaysUndescribed(FailureOf(Read(c, at)))
    decreases c, 1
  {
    match c
    case Of(name, _) => assert forall e: Error :: e.IsLeaf() ==> e.Failures() == [e];
    case Map(of, _) => DescribedNeverSaysSo(of, at);
    case MapOrFail(of, _) =>
      DescribedNeverSaysSo(of, at);
      assert forall e: Error :: e.IsLeaf() ==> e.Failures() == [e];
    case ZipWith(first, second, _) =>
      DescribedNeverSaysSo(first, at);
      DescribedNeverSaysSo(second, at);
      NeitherSaysUndescribed(FailureOf(Read(first, at)), FailureOf(Read(second, at)));
    case All(parts, _) => PartsNeverSaySo(parts, at);
    case Struct(parts, _, _) => PartsNeverSaySo(parts, at);
    case Nested(name, of) => DescribedNeverSaysSo(of, at.Under(name));
    case WithDefault(of, _) => DescribedNeverSaysSo(of, at);
    case OrElse(of, that) =>
      DescribedNeverSaysSo(of, at);
      DescribedNeverSaysSo(that, at);
      NeitherSaysUndescribed(FailureOf(Read(of, at)), FailureOf(Read(that, at)));
    case Optional(of, _, _) => DescribedNeverSaysSo(of, at);
    case Table(_, _, _) => EntriesNeverSaySo(c, at);
    case Many(_, _, _, _) => EntriesNeverSaySo(c, at);
  }

  lemma {:induction false} PartsNeverSaySo(parts: seq<Config>, at: Cursor)
    requires AllDescribed(parts)
    ensures !SaysUndescribed(AllFailures(ReadAll(parts, at)))
    decreases parts, 0
  {
    forall i | 0 <= i < |parts|
      ensures !SaysUndescribed(FailureOf(Read(parts[i], at)))
    {
      PartDescribed(parts, i);
      DescribedNeverSaysSo(parts[i], at);
    }
    NoneSayUndescribed(ReadAll(parts, at));
  }

  lemma {:induction false} EntriesNeverSaySo(c: Config, at: Cursor)
    requires (c.Table? || c.Many?) && Described(c)
    ensures !SaysUndescribed(FailureOf(Read(c, at)))
    decreases c, 0
  {
    var here := at.Under(c.name);
    assert forall e: Error :: e.IsLeaf() ==> e.Failures() == [e];
    if c.Table? && here.source.children(here.path).Listed? {
      var names := here.source.children(here.path).names;
      forall i | 0 <= i < |names|
        ensures !SaysUndescribed(FailureOf(Read(c.of, here.Under(names[i]))))
      {
        DescribedNeverSaysSo(c.of, here.Under(names[i]));
      }
      NoneSayUndescribed(ReadEach(c.of, here, names));
    }
    if c.Many? && LookedUp(here).Found? {
      var texts := c.pieces(LookedUp(here).text);
      forall i | 0 <= i < |texts|
        ensures !SaysUndescribed(FailureOf(Read(c.of, Cursor(One(texts[i]), here.path))))
      {
        DescribedNeverSaysSo(c.of, Cursor(One(texts[i]), here.path));
      }
      NoneSayUndescribed(ReadPieces(c.of, here.path, texts));
    }
  }

  /** The law for every description its constructors can build. */
  lemma {:induction false} DescribedNestsAsItMounts(name: string, c: Config, source: Source)
    requires name != "" && Described(c)
    ensures var mounted := Read(c, Cursor(Beneath(source, [name]), []));
            Read(Nested(name, c), Cursor(source, []))
             == if mounted.Got? then mounted else Refused(mounted.failure.Prefixed([name]))
  {
    NestedIsBeneath(name, c, source);
    DescribedNeverSaysSo(c, Cursor(Beneath(source, [name]), []));
  }

  /** The zero description shows the two ways apart at every name and every source: nesting does not
      move its report, and prefixing does. */
  lemma {:induction false} ZeroIsNotMoved(name: string, source: Source)
    requires name != ""
    ensures Read(Nested(name, Zero), Cursor(source, [])) == Refused(Undescribed([]))
    ensures Read(Zero, Cursor(Beneath(source, [name]), [])).failure.Prefixed([name]) == Undescribed([name]) != Undescribed([])
  {
  }

  // Descriptions with a zero in them ------------------------------------------------------

  /** A source nothing can be read from, with something listed everywhere. */
  const OUT_OF_REACH := Source((path: Path) => Unreachable(""), (path: Path) => Listed(["entry"]))

  /** Descriptions that cannot be read from there. */
  predicate Fails(c: Config) {
    match c
    case Zero => true
    case Of(_, _) => true
    case Map(of, _) => Fails(of)
    case MapOrFail(of, _) => Fails(of)
    case ZipWith(first, second, _) => Fails(first) || Fails(second)
    case All(parts, _) => AnyFails(parts)
    case Nested(_, of) => Fails(of)
    case WithDefault(of, _) => Fails(of)
    case OrElse(of, that) => Fails(of) && Fails(that)
    case Optional(of, _, _) => Fails(of)
    case Table(_, of, _) => Fails(of)
    case Many(_, _, _, _) => true
    case Struct(parts, _, _) => AnyFails(parts)
  }

  predicate AnyFails(parts: seq<Config>) {
    parts != [] && (Fails(parts[0]) || AnyFails(parts[1..]))
  }

  /** Descriptions whose reading there comes to a zero. */
  predicate Reaches(c: Config) {
    match c
    case Zero => true
    case Map(of, _) => Reaches(of)
    case MapOrFail(of, _) => Reaches(of)
    case ZipWith(first, second, _) => Reaches(first) || Reaches(second)
    case All(parts, _) => AnyReaches(parts)
    case Nested(_, of) => Reaches(of)
    case WithDefault(of, _) => Reaches(of)
    case OrElse(of, that) => Fails(of) && Fails(that) && (Reaches(of) || Reaches(that))
    case Optional(of, _, _) => Reaches(of)
    case Table(_, of, _) => Reaches(of)
    case Struct(parts, _, _) => AnyReaches(parts)
    case _ => false
  }

  predicate AnyReaches(parts: seq<Config>) {
    parts != [] && (Reaches(parts[0]) || AnyReaches(parts[1..]))
  }

  predicate SaysMore(e: Error) {
    exists i :: 0 <= i < |e.Failures()| && !e.Failures()[i].Missing?
  }

  /** What a part says a composition of parts says. */
  ghost predicate SaysBoth(both: Error, a: Error, b: Error) {
    && (SaysMore(a) || SaysMore(b) ==> SaysMore(both))
    && (SaysUndescribed(a) || SaysUndescribed(b) ==> SaysUndescribed(both))
  }

  lemma {:induction false} EitherIsSaid(a: Error, b: Error)
    ensures SaysBoth(Needed(a, b), a, b) && SaysBoth(Tried(a, b), a, b)
  {
    ComposingKeepsFailures(a, b);
    JoinedSaysBoth(Needed(a, b), a, b);
    JoinedSaysBoth(Tried(a, b), a, b);
  }

  lemma {:induction false} JoinedSaysBoth(both: Error, a: Error, b: Error)
    requires both.Failures() == a.Failures() + b.Failures()
    ensures SaysBoth(both, a, b)
  {
    var l, r := a.Failures(), b.Failures();
    assert forall i :: 0 <= i < |l| ==> both.Failures()[i] == l[i];
    assert forall i :: 0 <= i < |r| ==> both.Failures()[|l| + i] == r[i];
  }

  lemma {:induction false} PartIsSaid(outcomes: seq<Outcome>, i: nat)
    requires i < |outcomes|
    ensures SaysMore(FailureOf(outcomes[i])) ==> SaysMore(AllFailures(outcomes))
    ensures SaysUndescribed(FailureOf(outcomes[i])) ==> SaysUndescribed(AllFailures(outcomes))
    decreases |outcomes|
  {
    var init, last := outcomes[..|outcomes| - 1], outcomes[|outcomes| - 1];
    if i < |init| {
      PartIsSaid(init, i);
    }
    EitherIsSaid(AllFailures(init), FailureOf(last));
  }

  /** What a failing description says out there: something besides absence, and the zero's report if
      it comes to a zero. */
  ghost predicate SaysWhy(c: Config, at: Cursor) {
    var failure := FailureOf(Read(c, at));
    (Fails(c) ==> SaysMore(failure)) && (Reaches(c) ==> SaysUndescribed(failure))
  }

  lemma {:induction false} SaidIsRefused(e: Error)
    ensures SaysUndescribed(e) ==> SaysMore(e)
    ensures SaysMore(e) ==> !e.NoError? && !e.IsMissingOnly()
  {
  }

  lemma {:induction false} FailingSaysWhy(c: Config, path: Path)
    ensures SaysWhy(c, Cursor(OUT_OF_REACH, path))
    decreases c, 1
  {
    var at := Cursor(OUT_OF_REACH, path);
    SaidIsRefused(FailureOf(Read(c, at)));
    match c
    case Zero => LeafSays(Undescribed([]));
    case Of(name, _) => LeafSays(Unavailable(at.Under(name).path, ""));
    case Map(of, _) => FailingSaysWhy(of, path); SaidIsRefused(FailureOf(Read(of, at)));
    case MapOrFail(of, _) => FailingSaysWhy(of, path); SaidIsRefused(FailureOf(Read(of, at)));
    case ZipWith(first, second, _) =>
      FailingSaysWhy(first, path);
      FailingSaysWhy(second, path);
      EitherIsSaid(FailureOf(Read(first, at)), FailureOf(Read(second, at)));
      SaidIsRefused(Needed(FailureOf(Read(first, at)), FailureOf(Read(second, at))));
    case All(parts, _) => PartsSayWhy(parts, path);
    case Struct(parts, _, _) => PartsSayWhy(parts, path);
    case Nested(name, of) => FailingSaysWhy(of, at.Under(name).path);
    case WithDefault(of, _) => FailingSaysWhy(of, path); SaidIsRefused(FailureOf(Read(of, at)));
    case Optional(of, _, _) => FailingSaysWhy(of, path); SaidIsRefused(FailureOf(Read(of, at)));
    case OrElse(of, that) => AlternativesSayWhy(of, that, path);
    case Table(name, of, _) => EntrySaysWhy(c, path);
    case Many(name, _, _, _) => LeafSays(Unavailable(at.Under(name).path, ""));
  }

  lemma {:induction false} LeafSays(e: Error)
    requires e.IsLeaf()
    ensures (SaysMore(e) <==> !e.Missing?) && (SaysUndescribed(e) <==> e.Undescribed?)
  {
    assert e.Failures() == [e];
    assert e.Failures()[0] == e;
  }

  lemma {:induction false} AlternativesSayWhy(of: Config, that: Config, path: Path)
    ensures SaysWhy(OrElse(of, that), Cursor(OUT_OF_REACH, path))
    decreases OrElse(of, that), 0
  {
    var at := Cursor(OUT_OF_REACH, path);
    var first, second := Read(of, at), Read(that, at);
    FailingSaysWhy(of, path);
    FailingSaysWhy(that, path);
    if Fails(of) && Fails(that) {
      SaidIsRefused(FailureOf(first));
      SaidIsRefused(FailureOf(second));
      assert Read(OrElse(of, that), at) == Refused(Tried(FailureOf(first), FailureOf(second)));
      EitherIsSaid(FailureOf(first), FailureOf(second));
    }
  }

  lemma {:induction false} PartsSayWhy(parts: seq<Config>, path: Path)
    ensures AnyFails(parts) ==> SaysMore(AllFailures(ReadAll(parts, Cursor(OUT_OF_REACH, path))))
    ensures AnyReaches(parts) ==> SaysUndescribed(AllFailures(ReadAll(parts, Cursor(OUT_OF_REACH, path))))
    decreases parts, 0
  {
    var outcomes := ReadAll(parts, Cursor(OUT_OF_REACH, path));
    forall i | 0 <= i < |parts|
      ensures Fails(parts[i]) ==> SaysMore(AllFailures(outcomes))
      ensures Reaches(parts[i]) ==> SaysUndescribed(AllFailures(outcomes))
    {
      FailingSaysWhy(parts[i], path);
      PartIsSaid(outcomes, i);
    }
    AnyIsSome(parts);
  }

  lemma {:induction false} AnyIsSome(parts: seq<Config>)
    ensures AnyFails(parts) ==> exists i :: 0 <= i < |parts| && Fails(parts[i])
    ensures AnyReaches(parts) ==> exists i :: 0 <= i < |parts| && Reaches(parts[i])
  {
    if parts != [] {
      AnyIsSome(parts[1..]);
      assert forall i :: 0 <= i < |parts[1..]| ==> parts[1..][i] == parts[i + 1];
    }
  }

  lemma {:induction false} EntrySaysWhy(c: Config, path: Path)
    requires c.Table?
    ensures SaysWhy(c, Cursor(OUT_OF_REACH, path))
    decreases c, 0
  {
    var here := Cursor(OUT_OF_REACH, path).Under(c.name);
    var outcomes := ReadEach(c.of, here, ["entry"]);
    FailingSaysWhy(c.of, here.Under("entry").path);
    PartIsSaid(outcomes, 0);
    SaidIsRefused(AllFailures(outcomes));
  }

  /** Nesting under the name and mounting beneath it agree on every source. */
  ghost predicate NestsAsItMounts(c: Config, name: string) {
    forall source ::
      var mounted := Read(c, Cursor(Beneath(source, [name]), []));
      Read(Nested(name, c), Cursor(source, [])) == if mounted.Got? then mounted else Refused(mounted.failure.Prefixed([name]))
  }

  /** Whatever the name, some source shows the two apart for a description that reaches a zero. */
  lemma {:induction false} ReachedZeroShows(c: Config, name: string)
    requires name != "" && Reaches(c)
    ensures !NestsAsItMounts(c, name)
  {
    FailingSaysWhy(c, []);
    SaidIsRefused(FailureOf(Read(c, Cursor(OUT_OF_REACH, []))));
    SameOutThere(c, name);
    NestedIsBeneath(name, c, OUT_OF_REACH);
  }

  /** Mounting that source anywhere changes nothing about it. */
  lemma {:induction false} SameOutThere(c: Config, name: string)
    ensures Read(c, Cursor(Beneath(OUT_OF_REACH, [name]), [])) == Read(c, Cursor(OUT_OF_REACH, []))
  {
    var mounted := Cursor(Beneath(OUT_OF_REACH, [name]), []);
    ReadsMove(c, mounted, OUT_OF_REACH, []);
    assert Outside(mounted, OUT_OF_REACH, []) == Cursor(OUT_OF_REACH, []);
    RelocatedNowhere(FailureOf(Read(c, mounted)));
  }

  lemma {:induction false} RelocatedNowhere(e: Error)
    ensures Relocated(e, []) == e
  {
    if e.And? || e.Or? {
      RelocatedNowhere(e.left);
      RelocatedNowhere(e.right);
    } else if e.IsLeaf() {
      assert [] + e.path == e.path;
    }
  }

  /** Descriptions that read all their parts: no alternatives, and no lists, whose parts the text
      decides. */
  predicate ReadsAllParts(c: Config) {
    match c
    case Map(of, _) => ReadsAllParts(of)
    case MapOrFail(of, _) => ReadsAllParts(of)
    case ZipWith(first, second, _) => ReadsAllParts(first) && ReadsAllParts(second)
    case All(parts, _) => EachReadsAllParts(parts)
    case Nested(_, of) => ReadsAllParts(of)
    case WithDefault(of, _) => ReadsAllParts(of)
    case OrElse(_, _) => false
    case Optional(of, _, _) => ReadsAllParts(of)
    case Table(_, of, _) => ReadsAllParts(of)
    case Many(_, _, _, _) => false
    case Struct(parts, _, _) => EachReadsAllParts(parts)
    case _ => true
  }

  predicate EachReadsAllParts(parts: seq<Config>) {
    parts != [] ==> ReadsAllParts(parts[0]) && EachReadsAllParts(parts[1..])
  }

  lemma ReachesUnlessDescribed(c: Config)
    requires ReadsAllParts(c)
    ensures Reaches(c) <==> !Described(c)
  {
    match c
    case All(parts, _) => AnyReachesUnlessDescribed(parts);
    case Struct(parts, _, _) => AnyReachesUnlessDescribed(parts);
    case _ =>
  }

  lemma AnyReachesUnlessDescribed(parts: seq<Config>)
    requires EachReadsAllParts(parts)
    ensures AnyReaches(parts) <==> !AllDescribed(parts)
  {
    if parts != [] {
      ReachesUnlessDescribed(parts[0]);
      AnyReachesUnlessDescribed(parts[1..]);
    }
  }

  /** For descriptions that read all their parts, the two ways agree on every source exactly if
      there is no zero in the description. */
  lemma {:induction false} NestsAsItMountsExactly(c: Config, name: string)
    requires name != "" && ReadsAllParts(c)
    ensures NestsAsItMounts(c, name) <==> Described(c)
  {
    ReachesUnlessDescribed(c);
    if Described(c) {
      forall source
        ensures var mounted := Read(c, Cursor(Beneath(source, [name]), []));
                Read(Nested(name, c), Cursor(source, [])) == if mounted.Got? then mounted else Refused(mounted.failure.Prefixed([name]))
      {
        DescribedNestsAsItMounts(name, c, source);
      }
    } else {
      ReachedZeroShows(c, name);
    }
  }

  // The loops -----------------------------------------------------------------------------

  lemma {:induction false} OneMoreFailure(outcomes: seq<Outcome>, more: Outcome)
    ensures AllFailures(outcomes + [more]) == Needed(AllFailures(outcomes), FailureOf(more))
  {
    assert (outcomes + [more])[..|outcomes|] == outcomes;
  }

  /** Reading a list or a settings type: every part in turn, and every refusal kept. */
  method ReadParts(parts: seq<Config>, at: Cursor) returns (outcomes: seq<Outcome>, failure: Error)
    ensures outcomes == ReadAll(parts, at) && failure == AllFailures(outcomes)
  {
    outcomes, failure := [], NoError;
    for i := 0 to |parts|
      invariant |outcomes| == i && forall j :: 0 <= j < i ==> outcomes[j] == Read(parts[j], at)
      invariant failure == AllFailures(outcomes)
    {
      var outcome := Read(parts[i], at);
      OneMoreFailure(outcomes, outcome);
      failure := Needed(failure, FailureOf(outcome));
      outcomes := outcomes + [outcome];
    }
  }

  /** The names in the order they were first given. */
  function Deduplicated(names: seq<string>): seq<string>
    decreases |names|
  {
    if names == [] then []
    else
      var before, last := Deduplicated(names[..|names| - 1]), names[|names| - 1];
      if last in before then before else before + [last]
  }

  function AllNames(listings: seq<Listing>): seq<string>
    decreases |listings|
  {
    if listings == [] then []
    else
      var last := listings[|listings| - 1];
      AllNames(listings[..|listings| - 1]) + (if last.Listed? then last.names else [])
  }

  predicate Distinct(names: seq<string>) {
    forall i, j :: 0 <= i < j < |names| ==> names[i] != names[j]
  }

  lemma {:induction false} StillDistinct(names: seq<string>, more: string)
    requires Distinct(names) && more !in names
    ensures Distinct(names + [more])
  {
  }

  lemma {:induction false} DeduplicatedFacts(names: seq<string>)
    ensures Distinct(Deduplicated(names)) && forall n :: n in Deduplicated(names) <==> n in names
    decreases |names|
  {
    if names != [] {
      var before, last := Deduplicated(names[..|names| - 1]), names[|names| - 1];
      DeduplicatedFacts(names[..|names| - 1]);
      assert names == names[..|names| - 1] + [last];
      if last !in before {
        StillDistinct(before, last);
      }
    }
  }

  function Listings(sources: seq<Source>, path: Path): (r: seq<Listing>)
    ensures |r| == |sources| && forall i :: 0 <= i < |r| ==> r[i] == sources[i].children(path)
  {
    seq(|sources|, i requires 0 <= i < |sources| => sources[i].children(path))
  }

  /** Several sources as one: the children of all of them, in order and without repeats, unless one
      cannot be reached. */
  method FallbackChildren(sources: seq<Source>, path: Path) returns (listing: Listing)
    ensures listing.Listed? <==> forall i :: 0 <= i < |sources| ==> sources[i].children(path).Listed?
    ensures listing.Listed? ==> listing.names == Deduplicated(AllNames(Listings(sources, path)))
  {
    var names: seq<string> := [];
    ghost var listings := Listings(sources, path);
    for i := 0 to |sources|
      invariant forall j :: 0 <= j < i ==> sources[j].children(path).Listed?
      invariant names == Deduplicated(AllNames(listings[..i]))
    {
      var children := sources[i].children(path);
      if children.NotListed? {
        return children;
      }
      names := WithNames(names, children.names, AllNames(listings[..i]));
      NextNames(listings, i);
    }
    assert listings[..|sources|] == listings;
    return Listed(names);
  }

  lemma {:induction false} NextNames(listings: seq<Listing>, i: nat)
    requires i < |listings|
    ensures AllNames(listings[..i + 1]) == AllNames(listings[..i]) + if listings[i].Listed? then listings[i].names else []
  {
    assert listings[..i + 1][..i] == listings[..i];
  }

  method WithNames(before: seq<string>, children: seq<string>, ghost all: seq<string>) returns (names: seq<string>)
    requires before == Deduplicated(all)
    ensures names == Deduplicated(all + children)
  {
    names := before;
    assert all + children[..0] == all;
    for j := 0 to |children|
      invariant names == Deduplicated(all + children[..j])
    {
      var child := children[j];
      assert all + children[..j + 1] == all + children[..j] + [child];
      assert (all + children[..j] + [child])[..|all| + j] == all + children[..j];
      if child !in names {
        names := names + [child];
      }
    }
    assert children[..|children|] == children;
  }

  /** The first source that carries the path answers; one that cannot be reached stops the search. */
  method FallbackValue(sources: seq<Source>, path: Path) returns (found: Lookup)
    ensures found.Absent? <==> forall i :: 0 <= i < |sources| ==> sources[i].value(path).Absent?
    ensures !found.Absent? ==> exists i :: 0 <= i < |sources| && found == sources[i].value(path)
                                           && forall j :: 0 <= j < i ==> sources[j].value(path).Absent?
  {
    for i := 0 to |sources|
      invariant forall j :: 0 <= j < i ==> sources[j].value(path).Absent?
    {
      var value := sources[i].value(path);
      if !value.Absent? {
        return value;
      }
    }
    return Absent;
  }
}
