/** What one process keeps to hand (effect/cache/lru.go): a map from keys to list elements, the list
    from the most to the least recently used, and an index of keys by subject. Here an element is
    its entry: no two hold the same key. */
module Caches {
  import opened Wrappers

  type Value(!new, ==, 0)

  datatype Entry = Entry(key: string, subject: string, value: Value, until: int)

  // The cache as a sequence ---------------------------------------------------------------

  function Keys(s: seq<Entry>): set<string> {
    set e | e in s :: e.key
  }

  function Find(s: seq<Entry>, key: string): (found: Option<Entry>)
    ensures found.Some? ==> found.value in s && found.value.key == key
    ensures found.None? ==> key !in Keys(s)
  {
    if s == [] then None
    else if s[0].key == key then Some(s[0])
    else
      assert s == [s[0]] + s[1..];
      Find(s[1..], key)
  }

  function Without(s: seq<Entry>, key: string): seq<Entry> {
    if s == [] then [] else if s[0].key == key then s[1..] else [s[0]] + Without(s[1..], key)
  }

  /** A read: what it answers and what it leaves. */
  function Found(s: seq<Entry>, key: string, now: int): Option<Value> {
    match Find(s, key)
    case None => None
    case Some(e) => if now > e.until then None else Some(e.value)
  }

  function Read(s: seq<Entry>, key: string, now: int): seq<Entry> {
    match Find(s, key)
    case None => s
    case Some(e) => if now > e.until then Without(s, key) else [e] + Without(s, key)
  }

  function Kept(s: seq<Entry>, most: nat): seq<Entry> {
    if |s| > most then s[..most] else s
  }

  function Written(s: seq<Entry>, most: nat, entry: Entry, lifetime: int): seq<Entry> {
    if entry.key == "" || lifetime <= 0 then s else Kept([entry] + Without(s, entry.key), most)
  }

  function Other(s: seq<Entry>, subject: string): seq<Entry> {
    if s == [] then [] else (if s[0].subject == subject then [] else [s[0]]) + Other(s[1..], subject)
  }

  /** Entries that state no subject are about nothing: invalidating the empty subject drops none. */
  function Invalidated(s: seq<Entry>, subject: string): seq<Entry> {
    if subject == "" then s else Other(s, subject)
  }

  predicate Keyed(s: seq<Entry>) {
    s != [] ==> s[0].key !in Keys(s[1..]) && s[0].key != "" && Keyed(s[1..])
  }

  lemma {:induction false} WithoutFacts(s: seq<Entry>, key: string)
    requires Keyed(s)
    ensures Keyed(Without(s, key)) && Keys(Without(s, key)) == Keys(s) - {key}
    ensures forall e :: e in Without(s, key) <==> e in s && e.key != key
    ensures |Without(s, key)| == if key in Keys(s) then |s| - 1 else |s|
    ensures key !in Keys(s) ==> Without(s, key) == s
  {
    if s != [] {
      assert s == [s[0]] + s[1..];
      assert forall e :: e in s[1..] ==> e.key in Keys(s[1..]);
      if s[0].key != key {
        WithoutFacts(s[1..], key);
        assert Without(s, key)[1..] == Without(s[1..], key);
      }
    }
  }

  lemma {:induction false} KeysAreStated(s: seq<Entry>, e: Entry)
    requires Keyed(s) && e in s
    ensures e.key != ""
  {
    assert s == [s[0]] + s[1..];
    if e in s[1..] {
      KeysAreStated(s[1..], e);
    }
  }

  lemma {:induction false} SameKeySameEntry(s: seq<Entry>, a: Entry, b: Entry)
    requires Keyed(s) && a in s && b in s && a.key == b.key
    ensures a == b
  {
    assert s == [s[0]] + s[1..];
    assert forall e :: e in s[1..] ==> e.key in Keys(s[1..]);
    if a in s[1..] && b in s[1..] {
      SameKeySameEntry(s[1..], a, b);
    }
  }

  lemma {:induction false} PrefixKeyed(s: seq<Entry>, n: nat)
    requires Keyed(s) && n <= |s|
    ensures Keyed(s[..n])
  {
    if n > 0 {
      PrefixKeyed(s[1..], n - 1);
      assert s[..n][1..] == s[1..][..n - 1];
      assert forall e :: e in s[1..][..n - 1] ==> e in s[1..];
    }
  }

  lemma {:induction false} LastGoes(s: seq<Entry>)
    requires Keyed(s) && s != []
    ensures Without(s, s[|s| - 1].key) == s[..|s| - 1]
  {
    if |s| > 1 {
      LastGoes(s[1..]);
      assert s[1..][|s| - 2] == s[|s| - 1];
      assert s[|s| - 1] in s[1..];
      assert s[..|s| - 1] == [s[0]] + s[1..][..|s| - 2];
    }
  }

  lemma {:induction false} OtherFacts(s: seq<Entry>, subject: string)
    requires Keyed(s)
    ensures Keyed(Other(s, subject)) && |Other(s, subject)| <= |s|
    ensures forall e :: e in Other(s, subject) <==> e in s && e.subject != subject
  {
    OtherMembers(s, subject);
    if s != [] {
      var rest := Other(s[1..], subject);
      OtherFacts(s[1..], subject);
      assert s[0].key !in Keys(rest) by {
        FewerKeys(rest, s[1..]);
      }
      if s[0].subject == subject {
        assert Other(s, subject) == rest;
      } else {
        assert Other(s, subject) == [s[0]] + rest && ([s[0]] + rest)[1..] == rest;
      }
    }
  }

  lemma {:induction false} FewerKeys(a: seq<Entry>, b: seq<Entry>)
    requires forall e :: e in a ==> e in b
    ensures Keys(a) <= Keys(b)
  {
  }

  lemma {:induction false} OtherMembers(s: seq<Entry>, subject: string)
    ensures |Other(s, subject)| <= |s|
    ensures forall e :: e in Other(s, subject) <==> e in s && e.subject != subject
  {
    if s != [] {
      OtherMembers(s[1..], subject);
      assert s == [s[0]] + s[1..];
    }
  }

  /** Removing an entry about a subject changes nothing about the others. */
  lemma {:induction false} OtherWithout(s: seq<Entry>, entry: Entry)
    requires Keyed(s) && entry in s
    ensures Other(Without(s, entry.key), entry.subject) == Other(s, entry.subject)
  {
    assert s == [s[0]] + s[1..];
    if s[0].key == entry.key {
      SameKeySameEntry(s, s[0], entry);
    } else {
      OtherWithout(s[1..], entry);
      assert Without(s, entry.key)[1..] == Without(s[1..], entry.key);
    }
  }

  lemma {:induction false} NoneAbout(s: seq<Entry>, subject: string)
    requires forall e :: e in s ==> e.subject != subject
    ensures Other(s, subject) == s
  {
    if s != [] {
      assert s == [s[0]] + s[1..];
      NoneAbout(s[1..], subject);
    }
  }

  // The map and the index -----------------------------------------------------------------

  type Elements = map<string, Entry>
  type Index = map<string, set<string>>

  /** The map holds the list's entries under their keys. */
  ghost predicate Mapped(order: seq<Entry>, elements: Elements) {
    && Keyed(order)
    && (forall e :: e in order ==> e.key in elements && elements[e.key] == e)
    && (forall key :: key in elements ==> elements[key] in order && elements[key].key == key)
  }

  /** The index holds the keys of every subject that is stated, and no empty set. */
  ghost predicate Indexed(elements: Elements, about: Index) {
    && (forall key :: key in elements && elements[key].subject != "" ==>
          elements[key].subject in about && key in about[elements[key].subject])
    && (forall subject :: subject in about ==> subject != "" && about[subject] != {})
    && (forall subject, key :: subject in about && key in about[subject] ==> key in elements && elements[key].subject == subject)
  }

  /** The index without one entry. */
  function Forgotten(about: Index, entry: Entry): Index {
    if entry.subject !in about then about
    else
      var keys := about[entry.subject] - {entry.key};
      if keys == {} then about - {entry.subject} else about[entry.subject := keys]
  }

  function Listed(about: Index, entry: Entry): Index {
    if entry.subject == "" then about
    else about[entry.subject := (if entry.subject in about then about[entry.subject] else {}) + {entry.key}]
  }

  lemma {:induction false} DroppingMaps(order: seq<Entry>, elements: Elements, entry: Entry)
    requires Mapped(order, elements) && entry in order
    ensures Mapped(Without(order, entry.key), elements - {entry.key})
  {
    WithoutFacts(order, entry.key);
  }

  lemma {:induction false} DroppingIndexes(elements: Elements, about: Index, entry: Entry)
    requires Indexed(elements, about) && entry.key in elements && elements[entry.key] == entry
    ensures Indexed(elements - {entry.key}, Forgotten(about, entry))
  {
    var about' := Forgotten(about, entry);
    forall key | key in elements && key != entry.key && elements[key].subject != ""
      ensures elements[key].subject in about' && key in about'[elements[key].subject]
    {
      assert key in about[elements[key].subject] - {entry.key};
    }
  }

  lemma {:induction false} AddingMaps(order: seq<Entry>, elements: Elements, entry: Entry)
    requires Mapped(order, elements) && entry.key !in elements && entry.key != ""
    ensures Mapped([entry] + order, elements[entry.key := entry])
  {
    assert ([entry] + order)[1..] == order;
  }

  lemma {:induction false} AddingIndexes(elements: Elements, about: Index, entry: Entry)
    requires Indexed(elements, about) && entry.key !in elements
    ensures Indexed(elements[entry.key := entry], Listed(about, entry))
  {
  }

  lemma {:induction false} MovingMaps(order: seq<Entry>, elements: Elements, entry: Entry)
    requires Mapped(order, elements) && entry in order
    ensures Mapped([entry] + Without(order, entry.key), elements) && |[entry] + Without(order, entry.key)| == |order|
  {
    WithoutFacts(order, entry.key);
    KeysAreStated(order, entry);
    assert ([entry] + Without(order, entry.key))[1..] == Without(order, entry.key);
    forall e | e in order
      ensures e in [entry] + Without(order, entry.key)
    {
      if e.key == entry.key {
        SameKeySameEntry(order, e, entry);
      }
    }
  }

  lemma {:induction false} MapFinds(order: seq<Entry>, elements: Elements, key: string)
    requires Mapped(order, elements)
    ensures Find(order, key) == if key in elements then Some(elements[key]) else None
    ensures key in elements <==> key in Keys(order)
  {
    if Find(order, key).Some? {
      assert elements[key] == Find(order, key).value;
    }
  }

  /** The keys of the entries about a subject. */
  function KeysAbout(elements: Elements, subject: string): set<string> {
    set key | key in elements && elements[key].subject == subject
  }

  lemma {:induction false} IndexIsExact(elements: Elements, about: Index, subject: string)
    requires Indexed(elements, about) && subject in about
    ensures about[subject] == KeysAbout(elements, subject) && subject != ""
  {
  }

  lemma {:induction false} NoneIndexed(order: seq<Entry>, elements: Elements, about: Index, subject: string)
    requires Mapped(order, elements) && Indexed(elements, about) && subject != ""
    requires subject in about ==> KeysAbout(elements, subject) == {}
    ensures Other(order, subject) == order && subject !in about
  {
    if subject in about {
      IndexIsExact(elements, about, subject);
    }
    forall e | e in order
      ensures e.subject != subject
    {
      assert elements[e.key] == e;
    }
    NoneAbout(order, subject);
  }

  // The cache -----------------------------------------------------------------------------

  class LRU {
    const most: nat
    var elements: Elements
    var order: seq<Entry>
    var about: Index

    /** Map, list and index describe the same entries. */
    ghost predicate Consistent()
      reads this
    {
      Mapped(order, elements) && Indexed(elements, about)
    }

    ghost predicate Valid()
      reads this
    {
      most >= 1 && |order| <= most && Consistent()
    }

    constructor (bound: int)
      ensures Valid() && order == [] && most == if bound < 1 then 1 else bound
    {
      most := if bound < 1 then 1 else bound;
      elements, order, about := map[], [], map[];
    }

    method Get(key: string, now: int) returns (value: Option<Value>)
      requires Valid()
      modifies this
      ensures Valid() && order == Read(old(order), key, now) && value == Found(old(order), key, now)
    {
      MapFinds(order, elements, key);
      if key !in elements {
        return None;
      }
      var entry := elements[key];
      if now > entry.until {
        Drop(entry);
        return None;
      }
      MovingMaps(order, elements, entry);
      order := [entry] + Without(order, key);
      return Some(entry.value);
    }

    method Put(key: string, subject: string, value: Value, lifetime: int, now: int)
      requires Valid()
      modifies this
      ensures Valid() && order == Written(old(order), most, Entry(key, subject, value, now + lifetime), lifetime)
    {
      if key == "" || lifetime <= 0 {
        return;
      }
      MapFinds(order, elements, key);
      WithoutFacts(order, key);
      if key in elements {
        Drop(elements[key]);
      }
      Push(Entry(key, subject, value, now + lifetime));
      Evict();
    }

    /** Adds a new entry in front and lists it under its subject. */
    method Push(entry: Entry)
      requires Consistent() && entry.key !in elements && entry.key != ""
      modifies this
      ensures Consistent() && order == [entry] + old(order)
    {
      AddingMaps(order, elements, entry);
      AddingIndexes(elements, about, entry);
      elements := elements[entry.key := entry];
      order := [entry] + order;
      if entry.subject != "" {
        var keys := if entry.subject in about then about[entry.subject] else {};
        about := about[entry.subject := keys + {entry.key}];
      }
    }

    /** Drops the least recently used until the bound holds. */
    method Evict()
      requires Consistent() && most >= 1
      modifies this
      ensures Valid() && order == Kept(old(order), most)
    {
      while |order| > most
        invariant Consistent() && |order| <= |old(order)| && order == old(order)[..|order|]
        invariant |order| < |old(order)| ==> most <= |order|
        decreases |order|
      {
        DropLast();
      }
    }

    method DropLast()
      requires Consistent() && order != []
      modifies this
      ensures Consistent() && order == old(order)[..|old(order)| - 1]
    {
      LastGoes(order);
      Drop(order[|order| - 1]);
    }

    method Invalidate(subject: string)
      requires Valid()
      modifies this
      ensures Valid() && order == Invalidated(old(order), subject)
    {
      if subject in about {
        DropAll(about[subject], subject);
      } else if subject != "" {
        NoneIndexed(order, elements, about, subject);
      }
      assert about - {subject} == about;
      about := about - {subject};
    }

    method DropAll(indexed: set<string>, subject: string)
      requires Valid() && subject in about && indexed == about[subject]
      modifies this
      ensures Valid() && order == Other(old(order), subject) && subject !in about
    {
      var keys := indexed;
      IndexIsExact(elements, about, subject);
      while keys != {}
        invariant Valid() && keys == KeysAbout(elements, subject) && subject != ""
        invariant Other(order, subject) == Other(old(order), subject)
        decreases keys
      {
        var key :| key in keys;
        DropOne(key, subject);
        keys := keys - {key};
      }
      NoneIndexed(order, elements, about, subject);
    }

    method DropOne(key: string, subject: string)
      requires Valid() && key in KeysAbout(elements, subject)
      modifies this
      ensures Valid() && Other(order, subject) == Other(old(order), subject)
      ensures KeysAbout(elements, subject) == KeysAbout(old(elements), subject) - {key}
    {
      OtherWithout(order, elements[key]);
      Drop(elements[key]);
    }

    /** Removes one entry and forgets that its subject had it. */
    method Drop(entry: Entry)
      requires Consistent() && entry in order
      modifies this
      ensures Consistent() && order == Without(old(order), entry.key) && |order| == |old(order)| - 1
      ensures elements == old(elements) - {entry.key}
    {
      DroppingMaps(order, elements, entry);
      DroppingIndexes(elements, about, entry);
      WithoutFacts(order, entry.key);
      order := Without(order, entry.key);
      elements := elements - {entry.key};
      about := Forgotten(about, entry);
    }
  }

  // Histories -----------------------------------------------------------------------------

  datatype Op =
    | Get(key: string, now: int)
    | Put(key: string, subject: string, value: Value, lifetime: int, now: int)
    | Invalidate(subject: string)

  function Entered(op: Op): Entry
    requires op.Put?
  {
    Entry(op.key, op.subject, op.value, op.now + op.lifetime)
  }

  function Step(s: seq<Entry>, most: nat, op: Op): seq<Entry> {
    match op
    case Get(key, now) => Read(s, key, now)
    case Put(_, _, _, lifetime, _) => Written(s, most, Entered(op), lifetime)
    case Invalidate(subject) => Invalidated(s, subject)
  }

  function Run(most: nat, history: seq<Op>): seq<Entry>
    decreases |history|
  {
    if history == [] then [] else Step(Run(most, history[..|history| - 1]), most, history[|history| - 1])
  }

  lemma {:induction false} StepFacts(s: seq<Entry>, most: nat, op: Op)
    requires Keyed(s) && |s| <= most
    ensures var s' := Step(s, most, op);
            Keyed(s') && |s'| <= most && forall e :: e in s' ==> e in s || (op.Put? && op.key != "" && op.lifetime > 0 && e == Entered(op))
  {
    match op
    case Get(key, now) =>
      WithoutFacts(s, key);
      if Find(s, key).Some? {
        KeysAreStated(s, Find(s, key).value);
        assert ([Find(s, key).value] + Without(s, key))[1..] == Without(s, key);
      }
    case Put(key, _, _, lifetime, _) =>
      if key != "" && lifetime > 0 {
        WithoutFacts(s, key);
        var all := [Entered(op)] + Without(s, key);
        assert all[1..] == Without(s, key);
        if |all| > most {
          PrefixKeyed(all, most);
        }
      }
    case Invalidate(subject) => OtherFacts(s, subject);
  }

  lemma {:induction false} BoundHolds(most: nat, history: seq<Op>)
    ensures Keyed(Run(most, history)) && |Run(most, history)| <= most
    decreases |history|
  {
    if history != [] {
      BoundHolds(most, history[..|history| - 1]);
      StepFacts(Run(most, history[..|history| - 1]), most, history[|history| - 1]);
    }
  }

  /** What was last put under a key, unless its subject has been invalidated since. */
  function Latest(history: seq<Op>, key: string): Option<Entry>
    decreases |history|
  {
    if history == [] then None
    else
      var before, op := Latest(history[..|history| - 1], key), history[|history| - 1];
      if op.Put? && op.key == key && key != "" && op.lifetime > 0 then Some(Entered(op))
      else if op.Invalidate? && op.subject != "" && before.Some? && before.value.subject == op.subject then None
      else before
  }

  /** Every entry held is the latest put under its key. */
  lemma {:induction false} HeldIsLatest(most: nat, history: seq<Op>, e: Entry)
    requires e in Run(most, history)
    ensures Latest(history, e.key) == Some(e)
    decreases |history|
  {
    var before, op := history[..|history| - 1], history[|history| - 1];
    var s := Run(most, before);
    BoundHolds(most, before);
    StepFacts(s, most, op);
    if e in s && !(op.Put? && op.key == e.key && op.key != "" && op.lifetime > 0) {
      HeldIsLatest(most, before, e);
      if op.Invalidate? {
        OtherFacts(s, op.subject);
      }
    } else if e in s {
      ReplacedIsGone(s, most, op, e);
    }
  }

  lemma {:induction false} ReplacedIsGone(s: seq<Entry>, most: nat, op: Op, e: Entry)
    requires Keyed(s) && op.Put? && op.key != "" && op.lifetime > 0 && e.key == op.key && e in Step(s, most, op)
    ensures e == Entered(op)
  {
    WithoutFacts(s, op.key);
    var all := [Entered(op)] + Without(s, op.key);
    assert e in all;
  }

  /** A read answers with nothing but the value last put under its key, not past its date and its
      subject not invalidated since. */
  lemma {:induction false} NeverStale(most: nat, history: seq<Op>, key: string, now: int)
    requires Found(Run(most, history), key, now).Some?
    ensures var latest := Latest(history, key);
            latest.Some? && latest.value.value == Found(Run(most, history), key, now).value && now <= latest.value.until
  {
    HeldIsLatest(most, history, Find(Run(most, history), key).value);
  }

  // Recency -------------------------------------------------------------------------------

  /** How much of the history there was when a key was last put or successfully read; 0 if never. */
  function LastUse(most: nat, history: seq<Op>, key: string): (n: nat)
    ensures n <= |history|
    decreases |history|
  {
    if history == [] then 0
    else
      var before, op := history[..|history| - 1], history[|history| - 1];
      if (op.Put? && op.key == key && op.lifetime > 0) || (op.Get? && op.key == key && Found(Run(most, before), key, op.now).Some?)
      then |history|
      else LastUse(most, before, key)
  }

  /** The list is in order of use: the later used stands before the earlier used. */
  ghost predicate ByRecency(most: nat, history: seq<Op>, s: seq<Entry>)
    decreases |s|
  {
    s != [] ==>
      && (forall e :: e in s[1..] ==> LastUse(most, history, s[0].key) > LastUse(most, history, e.key))
      && ByRecency(most, history, s[1..])
  }

  lemma {:induction false} WithoutByRecency(most: nat, history: seq<Op>, s: seq<Entry>, key: string)
    requires Keyed(s) && ByRecency(most, history, s)
    ensures ByRecency(most, history, Without(s, key))
  {
    if s != [] && s[0].key != key {
      WithoutFacts(s[1..], key);
      WithoutByRecency(most, history, s[1..], key);
      assert Without(s, key)[1..] == Without(s[1..], key);
    }
  }

  lemma {:induction false} OtherByRecency(most: nat, history: seq<Op>, s: seq<Entry>, subject: string)
    requires Keyed(s) && ByRecency(most, history, s)
    ensures ByRecency(most, history, Other(s, subject))
  {
    if s != [] {
      OtherFacts(s[1..], subject);
      OtherByRecency(most, history, s[1..], subject);
      var rest := Other(s[1..], subject);
      if s[0].subject == subject {
        assert Other(s, subject) == rest;
      } else {
        assert Other(s, subject)[1..] == rest;
      }
    }
  }

  lemma {:induction false} KeptByRecency(most: nat, history: seq<Op>, s: seq<Entry>, n: nat)
    requires ByRecency(most, history, s) && n <= |s|
    ensures ByRecency(most, history, s[..n])
  {
    if n > 0 {
      KeptByRecency(most, history, s[1..], n - 1);
      assert s[..n][1..] == s[1..][..n - 1];
      assert forall e :: e in s[1..][..n - 1] ==> e in s[1..];
    }
  }

  /** An operation that uses none of these entries leaves their order of use. */
  lemma {:induction false} UnusedByRecency(most: nat, history: seq<Op>, s: seq<Entry>)
    requires history != [] && ByRecency(most, history[..|history| - 1], s)
    requires forall e :: e in s ==> LastUse(most, history, e.key) == LastUse(most, history[..|history| - 1], e.key)
    ensures ByRecency(most, history, s)
  {
    if s != [] {
      assert s == [s[0]] + s[1..];
      UnusedByRecency(most, history, s[1..]);
    }
  }

  lemma {:induction false} FrontByRecency(most: nat, history: seq<Op>, front: Entry, rest: seq<Entry>)
    requires history != [] && ByRecency(most, history[..|history| - 1], rest)
    requires LastUse(most, history, front.key) == |history| && forall e :: e in rest ==> e.key != front.key
    requires !history[|history| - 1].Invalidate? && history[|history| - 1].key == front.key
    ensures ByRecency(most, history, [front] + rest)
  {
    UnusedByRecency(most, history, rest);
    assert ([front] + rest)[1..] == rest;
    assert forall e :: e in rest ==> LastUse(most, history, e.key) == LastUse(most, history[..|history| - 1], e.key);
  }

  /** Whoever is used moves to the front and everyone else keeps their place, so eviction, which
      takes from the back, takes the least recently used. */
  lemma {:induction false} ListIsByRecency(most: nat, history: seq<Op>)
    ensures ByRecency(most, history, Run(most, history))
    decreases |history|
  {
    if history != [] {
      var before := history[..|history| - 1];
      BoundHolds(most, before);
      ListIsByRecency(most, before);
      StepByRecency(most, history);
    }
  }

  lemma {:induction false} StepByRecency(most: nat, history: seq<Op>)
    requires history != []
    requires var s := Run(most, history[..|history| - 1]); Keyed(s) && ByRecency(most, history[..|history| - 1], s)
    ensures ByRecency(most, history, Run(most, history))
  {
    var before, op := history[..|history| - 1], history[|history| - 1];
    var s := Run(most, before);
    match op
    case Get(key, now) => ReadByRecency(most, history, key, now);
    case Put(key, _, _, lifetime, _) =>
      if key != "" && lifetime > 0 {
        WithoutByRecency(most, before, s, key);
        WithoutFacts(s, key);
        FrontByRecency(most, history, Entered(op), Without(s, key));
        var all := [Entered(op)] + Without(s, key);
        if |all| > most {
          KeptByRecency(most, history, all, most);
        }
      } else {
        forall e | e in s
          ensures LastUse(most, history, e.key) == LastUse(most, before, e.key)
        {
          KeysAreStated(s, e);
        }
        UnusedByRecency(most, history, s);
      }
    case Invalidate(subject) =>
      OtherByRecency(most, before, s, subject);
      UnusedByRecency(most, history, Run(most, history));
  }

  lemma {:induction false} ReadByRecency(most: nat, history: seq<Op>, key: string, now: int)
    requires history != [] && history[|history| - 1] == Get(key, now)
    requires var s := Run(most, history[..|history| - 1]); Keyed(s) && ByRecency(most, history[..|history| - 1], s)
    ensures ByRecency(most, history, Run(most, history))
  {
    var before := history[..|history| - 1];
    var s := Run(most, before);
    WithoutByRecency(most, before, s, key);
    WithoutFacts(s, key);
    if Found(s, key, now).Some? {
      FrontByRecency(most, history, Find(s, key).value, Without(s, key));
    } else {
      UnusedByRecency(most, history, Run(most, history));
    }
  }

  /** A put that finds the cache full drops one entry, the least recently used of those that were
      not just replaced. */
  lemma {:induction false} EvictsLeastRecentlyUsed(most: nat, history: seq<Op>, op: Op, gone: Entry)
    requires most >= 1 && op.Put? && op.key != "" && op.lifetime > 0 && gone.key != op.key
    requires var s := Run(most, history); gone in s && gone !in Step(s, most, op)
    ensures var s := Run(most, history);
            && |s| == most && op.key !in Keys(s)
            && forall e :: e in s && e != gone ==> e in Step(s, most, op) && LastUse(most, history, e.key) > LastUse(most, history, gone.key)
  {
    var s := Run(most, history);
    BoundHolds(most, history);
    ListIsByRecency(most, history);
    EvictedIsLast(s, most, Entered(op), gone);
    LastIsOldest(most, history, s);
    forall e | e in s && e != gone
      ensures e in s[..|s| - 1]
    {
      InFront(s, e);
    }
    forall e | e in s[..|s| - 1]
      ensures e in Step(s, most, op)
    {
      InTail(Entered(op), s[..|s| - 1], e);
    }
  }

  lemma {:induction false} InFront(s: seq<Entry>, e: Entry)
    requires s != [] && e in s && e != s[|s| - 1]
    ensures e in s[..|s| - 1]
  {
    var i :| 0 <= i < |s| && s[i] == e;
    assert s[..|s| - 1][i] == e;
  }

  lemma {:induction false} EvictedIsLast(s: seq<Entry>, most: nat, entry: Entry, gone: Entry)
    requires Keyed(s) && |s| <= most && most >= 1 && gone in s && gone.key != entry.key
    requires gone !in Kept([entry] + Without(s, entry.key), most)
    ensures |s| == most && entry.key !in Keys(s) && gone == s[|s| - 1]
    ensures Kept([entry] + Without(s, entry.key), most) == [entry] + s[..|s| - 1]
  {
    var rest := Without(s, entry.key);
    assert gone in rest && |rest| <= most && (|rest| == most ==> rest == s && entry.key !in Keys(s)) by {
      WithoutFacts(s, entry.key);
    }
    CutOff(entry, rest, most, gone);
  }

  lemma {:induction false} CutOff(entry: Entry, rest: seq<Entry>, most: nat, gone: Entry)
    requires gone in rest && gone !in Kept([entry] + rest, most) && |rest| <= most && most >= 1
    ensures |rest| == most && gone == rest[most - 1] && Kept([entry] + rest, most) == [entry] + rest[..most - 1]
  {
    InTail(entry, rest, gone);
    CutTail(entry, rest);
    if gone != rest[|rest| - 1] {
      InFront(rest, gone);
      InTail(entry, rest[..|rest| - 1], gone);
    }
  }

  lemma {:induction false} InTail(entry: Entry, rest: seq<Entry>, e: Entry)
    ensures e in [entry] + rest <==> e == entry || e in rest
  {
  }

  lemma {:induction false} CutTail(entry: Entry, s: seq<Entry>)
    requires s != []
    ensures ([entry] + s)[..|s|] == [entry] + s[..|s| - 1]
  {
  }

  lemma {:induction false} LastIsOldest(most: nat, history: seq<Op>, s: seq<Entry>)
    requires ByRecency(most, history, s) && s != []
    ensures forall e :: e in s[..|s| - 1] ==> LastUse(most, history, e.key) > LastUse(most, history, s[|s| - 1].key)
  {
    if |s| > 1 {
      LastIsOldest(most, history, s[1..]);
      assert s[1..][..|s| - 2] == s[..|s| - 1][1..];
      assert s[..|s| - 1] == [s[0]] + s[..|s| - 1][1..];
      assert s[|s| - 1] in s[1..];
    }
  }
}
