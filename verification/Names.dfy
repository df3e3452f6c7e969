/** Names for generated code (tools/effectgo/rewrite/names.go): the prefix, and the next number that
    makes a name nothing in the file spells. */
module Names {
  function Decimal(n: nat): (text: string)
    ensures text != []
  {
    (if n < 10 then [] else Decimal(n / 10)) + [('0' as int + n % 10) as char]
  }

  lemma {:induction false} DecimalTellsApart(a: nat, b: nat)
    requires Decimal(a) == Decimal(b)
    ensures a == b
  {
    var s, t := Decimal(a), Decimal(b);
    assert s[|s| - 1] == ('0' as int + a % 10) as char && t[|t| - 1] == ('0' as int + b % 10) as char;
    assert s[..|s| - 1] == if a < 10 then [] else Decimal(a / 10);
    assert t[..|t| - 1] == if b < 10 then [] else Decimal(b / 10);
    if a >= 10 && b >= 10 {
      DecimalTellsApart(a / 10, b / 10);
    }
  }

  function Name(prefix: string, n: nat): string {
    prefix + Decimal(n)
  }

  lemma {:induction false} NumbersTellApart(prefix: string, a: nat, b: nat)
    requires Name(prefix, a) == Name(prefix, b)
    ensures a == b
  {
    assert Name(prefix, a)[|prefix|..] == Decimal(a) && Name(prefix, b)[|prefix|..] == Decimal(b);
    DecimalTellsApart(a, b);
  }

  /** The taken names a search from `next` can still run into. */
  ghost function Ahead(taken: set<string>, prefix: string, next: nat): (ahead: set<string>)
    ensures ahead <= taken
  {
    set name | name in taken && exists k: nat :: k > next && name == Name(prefix, k)
  }

  /** Every clash leaves fewer of them. */
  lemma {:induction false} ClashesRunOut(taken: set<string>, prefix: string, next: nat)
    requires Name(prefix, next + 1) in taken
    ensures |Ahead(taken, prefix, next + 1)| < |Ahead(taken, prefix, next)|
  {
    var clash, before, after := Name(prefix, next + 1), Ahead(taken, prefix, next), Ahead(taken, prefix, next + 1);
    if clash in after {
      var k: nat :| k > next + 1 && clash == Name(prefix, k);
      NumbersTellApart(prefix, next + 1, k);
    }
    assert after <= before - {clash} && clash in before;
    Fewer(after, before - {clash});
  }

  lemma {:induction false} Fewer(a: set<string>, b: set<string>)
    requires a <= b
    ensures |a| <= |b|
  {
    if a != {} {
      var x :| x in a;
      Fewer(a - {x}, b - {x});
    }
  }

  /** The number `n` a search from `next` stops at. */
  ghost predicate Stops(taken: set<string>, prefix: string, next: nat, n: nat) {
    next < n && Name(prefix, n) !in taken && forall k :: next < k < n ==> Name(prefix, k) in taken
  }

  class Supply {
    var taken: set<string>
    var next: nat

    constructor (file: set<string>)
      ensures taken == file && next == 0
    {
      taken, next := file, 0;
    }

    /** Nothing skips a free name, and the search ends: it meets each taken name at most once. */
    method Fresh(prefix: string) returns (name: string)
      modifies this
      ensures Stops(old(taken), prefix, old(next), next) && name == Name(prefix, next)
      ensures taken == old(taken) + {name}
      ensures next <= old(next) + 1 + |old(taken)|
    {
      Fewer(Ahead(taken, prefix, next), taken);
      while true
        invariant taken == old(taken) && next >= old(next)
        invariant forall k :: old(next) < k <= next ==> Name(prefix, k) in taken
        invariant next + |Ahead(taken, prefix, next)| <= old(next) + |taken|
        decreases |Ahead(taken, prefix, next)|
      {
        ghost var before := next;
        next := next + 1;
        name := Name(prefix, next);
        if name !in taken {
          taken := taken + {name};
          return;
        }
        ClashesRunOut(taken, prefix, before);
      }
    }
  }

  /** One name handed out: the prefix asked for and the number found. */
  datatype Handed = Handed(prefix: string, number: nat)

  function Given(file: set<string>, handed: seq<Handed>): set<string> {
    file + set i | 0 <= i < |handed| :: Name(handed[i].prefix, handed[i].number)
  }

  ghost predicate ServedAt(file: set<string>, handed: seq<Handed>, i: nat)
    requires i < |handed|
  {
    Stops(Given(file, handed[..i]), handed[i].prefix, if i == 0 then 0 else handed[i - 1].number, handed[i].number)
  }

  /** A whole rewrite's requests, each served as Fresh serves it. */
  ghost predicate Served(file: set<string>, handed: seq<Handed>) {
    forall i :: 0 <= i < |handed| ==> ServedAt(file, handed, i)
  }

  /** No name generated for a file is spelled like one of the file's identifiers or like another
      generated name, whatever the prefixes: prefixes that end in digits included. */
  lemma {:induction false} GeneratedNamesAreApart(file: set<string>, handed: seq<Handed>, i: nat, j: nat)
    requires Served(file, handed) && i < j < |handed|
    ensures Name(handed[i].prefix, handed[i].number) !in file
    ensures Name(handed[j].prefix, handed[j].number) !in file
    ensures Name(handed[i].prefix, handed[i].number) != Name(handed[j].prefix, handed[j].number)
  {
    assert handed[..j][i] == handed[i];
    assert Name(handed[i].prefix, handed[i].number) in Given(file, handed[..j]);
    assert ServedAt(file, handed, i) && ServedAt(file, handed, j);
  }
}
