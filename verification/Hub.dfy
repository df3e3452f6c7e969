/** A hub (effect/internal/lifetime/hub.go): every section under its lock, and publishes that run
    between those sections, one inbox at a time. An inbox is known by its token. */
module HubSections {
  import opened QueueSections

  /** Where a publish stands: about to offer to its next inbox, offering to one, or over. */
  datatype Phase = Sending | Offering | Delivered | Interrupted | Declined

  datatype Publish = Publish(publisher: nat, value: Item, snapshot: seq<nat>, sent: nat, phase: Phase)

  /** The hub's fields, and the record of every publish and of what was offered to each inbox. */
  datatype Hub = Hub(inboxes: set<nat>, nextID: nat, closed: bool, publishes: seq<Publish>, offers: map<nat, seq<nat>>)

  const NEW_HUB := Hub({}, 0, false, [], map[])

  datatype Action =
    | Subscribe
    | Unsubscribe(token: nat)
    | Begin(publisher: nat, value: Item)
    | OfferNext(id: nat)
    | Return(id: nat, interrupted: bool)
    | Shutdown

  function Subscribed(h: Hub): Hub {
    if h.closed then h
    else h.(nextID := h.nextID + 1, inboxes := h.inboxes + {h.nextID + 1}, offers := h.offers[h.nextID + 1 := []])
  }

  function Unsubscribed(h: Hub, token: nat): Hub {
    h.(inboxes := h.inboxes - {token})
  }

  ghost predicate IsAscending(s: seq<nat>, tokens: set<nat>) {
    && (forall i, j :: 0 <= i < j < |s| ==> s[i] < s[j])
    && (forall t :: t in s <==> t in tokens)
  }

  ghost predicate IsLeast(m: nat, tokens: set<nat>) {
    m in tokens && forall t :: t in tokens ==> m <= t
  }

  lemma {:induction false} HasLeast(tokens: set<nat>)
    requires tokens != {}
    ensures exists m :: IsLeast(m, tokens)
  {
    var x :| x in tokens;
    var rest := tokens - {x};
    assert tokens == rest + {x};
    if rest == {} {
      assert IsLeast(x, tokens);
    } else {
      HasLeast(rest);
      var m :| IsLeast(m, rest);
      assert IsLeast(if x < m then x else m, tokens);
    }
  }

  /** The tokens in subscription order. */
  ghost function Ascending(tokens: set<nat>): (s: seq<nat>)
    ensures IsAscending(s, tokens)
  {
    if tokens == {} then []
    else
      HasLeast(tokens);
      var m :| IsLeast(m, tokens);
      var rest := Ascending(tokens - {m});
      assert forall i :: 0 <= i < |rest| ==> rest[i] in tokens - {m};
      [m] + rest
  }

  lemma {:induction false} TailAscends(s: seq<nat>, tokens: set<nat>)
    requires IsAscending(s, tokens) && s != []
    ensures s[0] in tokens && IsAscending(s[1..], tokens - {s[0]})
    ensures forall t :: t in tokens ==> s[0] <= t
  {
  }

  lemma {:induction false} AscendingIsUnique(a: seq<nat>, b: seq<nat>, tokens: set<nat>)
    requires IsAscending(a, tokens) && IsAscending(b, tokens)
    ensures a == b
  {
    if tokens == {} {
      assert forall s :: IsAscending(s, tokens) && s != [] ==> s[0] in tokens;
    } else {
      var t :| t in tokens;
      assert t in a && t in b;
      TailAscends(a, tokens);
      TailAscends(b, tokens);
      assert a[0] == b[0];
      AscendingIsUnique(a[1..], b[1..], tokens - {a[0]});
      assert a == [a[0]] + a[1..] && b == [b[0]] + b[1..];
    }
  }

  predicate Over(p: Publish) {
    p.phase.Delivered? || p.phase.Interrupted? || p.phase.Declined?
  }

  /** A publisher publishes one value after the other. */
  predicate Idle(h: Hub, publisher: nat) {
    forall i :: 0 <= i < |h.publishes| && h.publishes[i].publisher == publisher ==> Over(h.publishes[i])
  }

  /** The snapshot a publish works from. */
  ghost function Begun(h: Hub, publisher: nat, value: Item): Hub {
    if !Idle(h, publisher) then h
    else if h.closed then h.(publishes := h.publishes + [Publish(publisher, value, [], 0, Phase.Declined)])
    else
      var snapshot := Ascending(h.inboxes);
      h.(publishes := h.publishes + [Publish(publisher, value, snapshot, 0, if snapshot == [] then Delivered else Sending)])
  }

  function OfferBegun(h: Hub, id: nat): Hub {
    if id >= |h.publishes| || h.publishes[id].phase != Sending || h.publishes[id].sent >= |h.publishes[id].snapshot| then h
    else
      var p := h.publishes[id];
      var token := p.snapshot[p.sent];
      var before := if token in h.offers then h.offers[token] else [];
      h.(publishes := h.publishes[id := p.(sent := p.sent + 1, phase := Offering)], offers := h.offers[token := before + [id]])
  }

  /** An offer comes back; a publish goes on only from one that was not interrupted. */
  function OfferReturned(h: Hub, id: nat, interrupted: bool): Hub {
    if id >= |h.publishes| || h.publishes[id].phase != Offering then h
    else
      var p := h.publishes[id];
      var phase := if interrupted then Interrupted else if p.sent == |p.snapshot| then Delivered else Sending;
      h.(publishes := h.publishes[id := p.(phase := phase)])
  }

  function ShutDown(h: Hub): Hub {
    if h.closed then h else h.(closed := true, inboxes := {})
  }

  ghost function Step(h: Hub, action: Action): Hub {
    match action
    case Subscribe => Subscribed(h)
    case Unsubscribe(token) => Unsubscribed(h, token)
    case Begin(publisher, value) => Begun(h, publisher, value)
    case OfferNext(id) => OfferBegun(h, id)
    case Return(id, interrupted) => OfferReturned(h, id, interrupted)
    case Shutdown => ShutDown(h)
  }

  ghost function Run(h: Hub, actions: seq<Action>): Hub
    decreases |actions|
  {
    if actions == [] then h else Step(Run(h, actions[..|actions| - 1]), actions[|actions| - 1])
  }
}

/** The hub itself, whose inboxes are known by their tokens. */
module Hubs {
  import opened QueueSections
  import opened HubSections

  class Broadcast {
    var inboxes: set<nat>
    var nextID: nat
    var closed: bool
    ghost var publishes: seq<Publish>
    ghost var offers: map<nat, seq<nat>>

    ghost function View(): Hub
      reads this
    {
      Hub(inboxes, nextID, closed, publishes, offers)
    }

    constructor ()
      ensures View() == NEW_HUB
    {
      inboxes, nextID, closed, publishes, offers := {}, 0, false, [], map[];
    }

    method Subscribe() returns (subscribed: bool, token: nat)
      modifies this
      ensures View() == Subscribed(old(View()))
      ensures subscribed == !old(closed)
      ensures subscribed ==> token in inboxes && token == nextID && token > old(nextID)
    {
      if closed {
        return false, 0;
      }
      nextID := nextID + 1;
      inboxes := inboxes + {nextID};
      offers := offers[nextID := []];
      return true, nextID;
    }

    /** Tells whether there is an inbox to shut down. */
    method Unsubscribe(token: nat) returns (subscribed: bool)
      modifies this
      ensures View() == Unsubscribed(old(View()), token)
      ensures subscribed == (token in old(inboxes))
    {
      subscribed := token in inboxes;
      inboxes := inboxes - {token};
    }

    /** Collects the tokens in whatever order they come, and sorts them. */
    method CurrentInboxes() returns (tokens: seq<nat>, accepting: bool)
      ensures accepting == !closed
      ensures tokens == if closed then [] else Ascending(inboxes)
    {
      if closed {
        return [], false;
      }
      tokens := [];
      var rest := inboxes;
      while rest != {}
        invariant rest <= inboxes && IsAscending(tokens, inboxes - rest)
        decreases rest
      {
        var token :| token in rest;
        tokens := Insert(tokens, token, inboxes - rest);
        assert inboxes - (rest - {token}) == inboxes - rest + {token};
        rest := rest - {token};
      }
      assert inboxes - rest == inboxes;
      AscendingIsUnique(tokens, Ascending(inboxes), inboxes);
      return tokens, true;
    }

    static method Insert(tokens: seq<nat>, token: nat, ghost held: set<nat>) returns (more: seq<nat>)
      requires IsAscending(tokens, held) && token !in held
      ensures IsAscending(more, held + {token})
    {
      var at := 0;
      while at < |tokens| && tokens[at] < token
        invariant at <= |tokens|
        invariant forall i :: 0 <= i < at ==> tokens[i] < token
      {
        at := at + 1;
      }
      more := tokens[..at] + [token] + tokens[at..];
      InsertedAscends(tokens, at, token, held);
    }

    method Shutdown() returns (toShut: set<nat>)
      modifies this
      ensures View() == ShutDown(old(View()))
      ensures toShut == if old(closed) then {} else old(inboxes)
    {
      if closed {
        return {};
      }
      closed := true;
      toShut := inboxes;
      inboxes := {};
    }
  }

  lemma {:induction false} InsertedAscends(tokens: seq<nat>, at: nat, token: nat, held: set<nat>)
    requires IsAscending(tokens, held) && token !in held && at <= |tokens|
    requires forall i :: 0 <= i < at ==> tokens[i] < token
    requires at < |tokens| ==> tokens[at] >= token
    ensures IsAscending(tokens[..at] + [token] + tokens[at..], held + {token})
  {
    var more := tokens[..at] + [token] + tokens[at..];
    forall i | at <= i < |tokens|
      ensures tokens[i] > token
    {
      assert tokens[i] in tokens && tokens[i] >= tokens[at];
    }
    InsertedHolds(tokens, at, token);
    assert forall k :: 0 <= k < |more| ==> more[k] == if k < at then tokens[k] else if k == at then token else tokens[k - 1];
  }

  lemma {:induction false} InsertedHolds(tokens: seq<nat>, at: nat, token: nat)
    requires at <= |tokens|
    ensures forall t :: t in tokens[..at] + [token] + tokens[at..] <==> t in tokens || t == token
  {
    assert tokens == tokens[..at] + tokens[at..];
    assert forall t :: t in tokens ==> t in tokens[..at] || t in tokens[at..];
  }
}

/** What every interleaving of a hub's sections and publishes keeps. */
module HubLaws {
  import opened QueueSections
  import opened HubSections

  ghost predicate Sane(h: Hub) {
    && (forall t :: t in h.inboxes ==> 1 <= t <= h.nextID)
    && (forall t :: t in h.offers <==> 1 <= t <= h.nextID)
    && (h.closed ==> h.inboxes == {})
  }

  /** A publish has been offered to exactly the first `sent` inboxes of its snapshot. */
  predicate SanePublish(h: Hub, p: Publish) {
    && p.sent <= |p.snapshot|
    && (forall i, j :: 0 <= i < j < |p.snapshot| ==> p.snapshot[i] < p.snapshot[j])
    && (forall i :: 0 <= i < |p.snapshot| ==> 1 <= p.snapshot[i] <= h.nextID)
    && (p.phase == Sending ==> p.sent < |p.snapshot|)
    && (p.phase == Delivered ==> p.sent == |p.snapshot|)
    && (p.phase == Interrupted || p.phase == Offering ==> p.sent > 0)
  }

  predicate Reached(p: Publish, token: nat) {
    p.sent <= |p.snapshot| && token in p.snapshot[..p.sent]
  }

  /** What was offered to an inbox: each publish that reached it, once, and one publisher's in the
      order it published them. */
  ghost predicate SaneInbox(h: Hub, token: nat)
    requires token in h.offers
  {
    var ids := h.offers[token];
    && (forall id: nat :: id in ids <==> id < |h.publishes| && Reached(h.publishes[id], token))
    && (forall i :: 0 <= i < |ids| ==> ids[i] < |h.publishes|)
    && (forall i, j :: 0 <= i < j < |ids| ==> ids[i] != ids[j])
    && (forall i, j :: 0 <= i < j < |ids| && h.publishes[ids[i]].publisher == h.publishes[ids[j]].publisher ==> ids[i] < ids[j])
  }

  predicate InTurn(h: Hub) {
    forall a, b :: 0 <= a < b < |h.publishes| && h.publishes[a].publisher == h.publishes[b].publisher ==> Over(h.publishes[a])
  }

  ghost predicate Good(h: Hub) {
    && Sane(h) && InTurn(h)
    && (forall i :: 0 <= i < |h.publishes| ==> SanePublish(h, h.publishes[i]))
    && (forall t :: t in h.offers ==> SaneInbox(h, t))
  }

  lemma {:induction false} SubscribeKeeps(h: Hub)
    requires Good(h)
    ensures Good(Subscribed(h))
  {
    var h' := Subscribed(h);
    if !h.closed {
      forall i | 0 <= i < |h.publishes|
        ensures SanePublish(h', h.publishes[i]) && !Reached(h.publishes[i], h'.nextID)
      {
        assert SanePublish(h, h.publishes[i]);
      }
      forall t | t in h'.offers
        ensures SaneInbox(h', t)
      {
        if t in h.offers {
          assert SaneInbox(h, t);
        }
      }
    }
  }

  lemma {:induction false} BeginKeeps(h: Hub, publisher: nat, value: Item)
    requires Good(h)
    ensures Good(Begun(h, publisher, value))
  {
    var h' := Begun(h, publisher, value);
    if h' != h {
      var p := h'.publishes[|h.publishes|];
      assert forall i :: 0 <= i < |h.publishes| ==> h'.publishes[i] == h.publishes[i];
      assert SanePublish(h', p) by {
        assert forall i :: 0 <= i < |p.snapshot| ==> p.snapshot[i] in h.inboxes;
      }
      forall i | 0 <= i < |h.publishes|
        ensures SanePublish(h', h'.publishes[i])
      {
        assert SanePublish(h, h.publishes[i]);
      }
      forall t | t in h'.offers
        ensures SaneInbox(h', t)
      {
        assert SaneInbox(h, t);
        assert !Reached(p, t);
      }
    }
  }

  /** Replacing a publish by one that has reached the same inboxes and is over if it was. */
  lemma {:induction false} ReturnKeeps(h: Hub, id: nat, interrupted: bool)
    requires Good(h)
    ensures Good(OfferReturned(h, id, interrupted))
  {
    var h' := OfferReturned(h, id, interrupted);
    if h' != h {
      ReturnedPublishes(h, id, interrupted);
      forall t | t in h'.offers
        ensures SaneInbox(h', t)
      {
        SameInbox(h, h', t);
      }
    }
  }

  lemma {:induction false} ReturnedPublishes(h: Hub, id: nat, interrupted: bool)
    requires InTurn(h) && forall i :: 0 <= i < |h.publishes| ==> SanePublish(h, h.publishes[i])
    ensures var h' := OfferReturned(h, id, interrupted);
            InTurn(h') && |h'.publishes| == |h.publishes|
            && forall i :: 0 <= i < |h.publishes| ==>
                 SanePublish(h', h'.publishes[i]) && h'.publishes[i].snapshot == h.publishes[i].snapshot
                 && h'.publishes[i].sent == h.publishes[i].sent && h'.publishes[i].publisher == h.publishes[i].publisher
  {
    forall i | 0 <= i < |h.publishes|
      ensures SanePublish(OfferReturned(h, id, interrupted), OfferReturned(h, id, interrupted).publishes[i])
    {
      assert SanePublish(h, h.publishes[i]);
    }
  }

  lemma {:induction false} SameInbox(h: Hub, h': Hub, t: nat)
    requires t in h.offers && SaneInbox(h, t) && h'.offers == h.offers && |h'.publishes| == |h.publishes|
    requires forall i :: 0 <= i < |h.publishes| ==>
               h'.publishes[i].snapshot == h.publishes[i].snapshot && h'.publishes[i].sent == h.publishes[i].sent
               && h'.publishes[i].publisher == h.publishes[i].publisher
    ensures SaneInbox(h', t)
  {
    assert forall i: nat :: i < |h.publishes| ==> Reached(h'.publishes[i], t) == Reached(h.publishes[i], t);
  }

  lemma {:induction false} OfferKeeps(h: Hub, id: nat)
    requires Good(h)
    ensures Good(OfferBegun(h, id))
  {
    var h' := OfferBegun(h, id);
    if id < |h.publishes| && h.publishes[id].phase == Sending && h.publishes[id].sent < |h.publishes[id].snapshot| {
      var p, p' := h.publishes[id], h'.publishes[id];
      var token := p.snapshot[p.sent];
      assert SanePublish(h, p);
      forall i | 0 <= i < |h.publishes|
        ensures SanePublish(h', h'.publishes[i])
      {
        assert SanePublish(h, h.publishes[i]);
      }
      assert token in h.offers;
      forall t | t in h'.offers
        ensures SaneInbox(h', t)
      {
        OfferedInbox(h, id, t);
      }
    }
  }

  lemma {:induction false} OfferedInbox(h: Hub, id: nat, t: nat)
    requires InTurn(h) && id < |h.publishes| && SanePublish(h, h.publishes[id]) && h.publishes[id].phase == Sending
    requires h.publishes[id].sent < |h.publishes[id].snapshot| && t in h.offers && SaneInbox(h, t)
    ensures SaneInbox(OfferBegun(h, id), t)
  {
    var p := h.publishes[id];
    var token := p.snapshot[p.sent];
    if t == token {
      NewestIsLast(h, id, token);
      InboxExtends(h, id, token);
    } else {
      OtherInbox(h, id, t);
    }
  }

  lemma {:induction false} OtherInbox(h: Hub, id: nat, t: nat)
    requires id < |h.publishes| && h.publishes[id].phase == Sending && h.publishes[id].sent < |h.publishes[id].snapshot|
    requires t in h.offers && SaneInbox(h, t) && t != h.publishes[id].snapshot[h.publishes[id].sent]
    ensures SaneInbox(OfferBegun(h, id), t)
  {
    var h', p := OfferBegun(h, id), h.publishes[id];
    assert p.snapshot[..p.sent + 1] == p.snapshot[..p.sent] + [p.snapshot[p.sent]];
    forall i: nat | i < |h.publishes|
      ensures Reached(h'.publishes[i], t) == Reached(h.publishes[i], t) && h'.publishes[i].publisher == h.publishes[i].publisher
    {
    }
  }

  /** A publish under way is its publisher's newest, so it comes after the publisher's others. */
  lemma {:induction false} NewestIsLast(h: Hub, id: nat, token: nat)
    requires InTurn(h) && id < |h.publishes| && h.publishes[id].phase == Sending && token in h.offers && SaneInbox(h, token)
    requires !Reached(h.publishes[id], token)
    ensures id !in h.offers[token]
    ensures forall i :: 0 <= i < |h.offers[token]| && h.publishes[h.offers[token][i]].publisher == h.publishes[id].publisher ==> h.offers[token][i] < id
  {
    var ids := h.offers[token];
    forall i | 0 <= i < |ids| && h.publishes[ids[i]].publisher == h.publishes[id].publisher
      ensures ids[i] < id
    {
      assert ids[i] in ids;
      if id < ids[i] {
        assert false;
      }
    }
  }

  lemma {:induction false} InboxExtends(h: Hub, id: nat, token: nat)
    requires id < |h.publishes| && h.publishes[id].phase == Sending && h.publishes[id].sent < |h.publishes[id].snapshot|
    requires token == h.publishes[id].snapshot[h.publishes[id].sent] && token in h.offers && SaneInbox(h, token)
    requires id !in h.offers[token]
    requires forall i :: 0 <= i < |h.offers[token]| && h.publishes[h.offers[token][i]].publisher == h.publishes[id].publisher ==> h.offers[token][i] < id
    ensures SaneInbox(OfferBegun(h, id), token)
  {
    var h' := OfferBegun(h, id);
    var ids, ids' := h.offers[token], h'.offers[token];
    var p, p' := h.publishes[id], h'.publishes[id];
    assert p'.snapshot[..p'.sent] == p.snapshot[..p.sent] + [token];
    assert p'.snapshot[..p'.sent][p.sent] == token;
    assert ids' == ids + [id];
    assert forall i: nat :: i < |h.publishes| ==> h'.publishes[i].publisher == h.publishes[i].publisher;
    forall i: nat
      ensures i in ids' <==> i < |h'.publishes| && Reached(h'.publishes[i], token)
    {
      assert i in ids' <==> i in ids || i == id;
    }
  }

  lemma {:induction false} StepKeepsGood(h: Hub, action: Action)
    requires Good(h)
    ensures Good(Step(h, action))
  {
    match action
    case Subscribe => SubscribeKeeps(h);
    case Begin(publisher, value) => BeginKeeps(h, publisher, value);
    case OfferNext(id) => OfferKeeps(h, id);
    case Return(id, interrupted) => ReturnKeeps(h, id, interrupted);
    case Unsubscribe(token) => SectionKeeps(h, Unsubscribed(h, token));
    case Shutdown => SectionKeeps(h, ShutDown(h));
  }

  lemma {:induction false} SectionKeeps(h: Hub, h': Hub)
    requires Good(h) && Sane(h') && h'.publishes == h.publishes && h'.offers == h.offers && h'.nextID == h.nextID
    ensures Good(h')
  {
    forall i | 0 <= i < |h.publishes|
      ensures SanePublish(h', h'.publishes[i])
    {
      assert SanePublish(h, h.publishes[i]);
    }
    forall t | t in h'.offers
      ensures SaneInbox(h', t)
    {
      assert SaneInbox(h, t);
    }
  }

  /** In every interleaving. */
  lemma {:induction false} EveryRunIsGood(actions: seq<Action>)
    ensures Good(Run(NEW_HUB, actions))
    decreases |actions|
  {
    if actions != [] {
      EveryRunIsGood(actions[..|actions| - 1]);
      StepKeepsGood(Run(NEW_HUB, actions[..|actions| - 1]), actions[|actions| - 1]);
    }
  }

  /** An inbox is offered only values whose snapshot included it, each once; and a publish that is
      over has been offered to all of its snapshot, or, interrupted, to exactly its first inboxes
      in the order they subscribed. */
  lemma {:induction false} PublishReachesAPrefix(actions: seq<Action>, id: nat, token: nat)
    requires var h := Run(NEW_HUB, actions); id < |h.publishes| && token in h.offers
    ensures var h := Run(NEW_HUB, actions);
            var p := h.publishes[id];
            && p.sent <= |p.snapshot|
            && (id in h.offers[token] <==> token in p.snapshot[..p.sent])
            && (p.phase == Delivered ==> (id in h.offers[token] <==> token in p.snapshot))
            && (token in p.snapshot[..p.sent] ==> forall other :: other in p.snapshot && other < token ==> other in p.snapshot[..p.sent])
  {
    var h := Run(NEW_HUB, actions);
    var p := h.publishes[id];
    EveryRunIsGood(actions);
    assert SanePublish(h, p) && SaneInbox(h, token);
    if p.phase == Delivered {
      assert p.snapshot[..p.sent] == p.snapshot;
    }
    forall other | token in p.snapshot[..p.sent] && other in p.snapshot && other < token
      ensures other in p.snapshot[..p.sent]
    {
      var i :| 0 <= i < p.sent && p.snapshot[..p.sent][i] == token;
      var j :| 0 <= j < |p.snapshot| && p.snapshot[j] == other;
      assert p.snapshot[i] == token && j < i;
      assert p.snapshot[..p.sent][j] == other;
    }
  }

  // Tokens and shutdown -------------------------------------------------------------------

  lemma {:induction false} StepForward(h: Hub, action: Action)
    requires Good(h)
    ensures var h' := Step(h, action);
            && h'.nextID >= h.nextID
            && (h.closed ==> h'.closed && h'.inboxes == {} && h'.nextID == h.nextID)
            && (forall t :: t in h'.inboxes && t !in h.inboxes ==> t > h.nextID)
  {
  }

  /** A token names one subscription for ever: once its inbox is gone it never comes back; and
      after shutdown nobody subscribes. */
  lemma {:induction false} TokensAreNotReused(h: Hub, actions: seq<Action>)
    requires Good(h)
    ensures var h' := Run(h, actions);
            && Good(h') && h'.nextID >= h.nextID
            && (h.closed ==> h'.closed && h'.inboxes == {} && h'.nextID == h.nextID)
            && (forall t :: t in h'.inboxes && t !in h.inboxes ==> t > h.nextID)
    decreases |actions|
  {
    if actions != [] {
      var before := actions[..|actions| - 1];
      TokensAreNotReused(h, before);
      StepForward(Run(h, before), actions[|actions| - 1]);
      StepKeepsGood(Run(h, before), actions[|actions| - 1]);
    }
  }

  /** A publish begun before an inbox subscribed never reaches it: there is no replay. */
  lemma {:induction false} NoReplay(h: Hub, actions: seq<Action>, id: nat)
    requires Good(h) && id < |h.publishes|
    ensures var h' := Run(h, actions);
            && id < |h'.publishes| && h'.publishes[id].snapshot == h.publishes[id].snapshot
            && forall t :: t > h.nextID ==> !Reached(h'.publishes[id], t)
    decreases |actions|
  {
    if actions == [] {
      assert SanePublish(h, h.publishes[id]);
    } else {
      NoReplay(h, actions[..|actions| - 1], id);
      assert SanePublish(h, h.publishes[id]);
    }
  }
}

/** A hub and one of its inboxes together: what its subscriber receives. */
module Subscriptions {
  import Q = QueueSections
  import H = HubSections
  import QueueLaws
  import HubLaws

  /** The hub, the inbox known by a token, and for each value that arrived there which of the offers
      made to the inbox it came with; an offer to an inbox already closed does not arrive. */
  datatype Feed = Feed(hub: H.Hub, inbox: Q.Queue, came: seq<nat>)

  /** Only the hub offers to an inbox; everyone else takes, leaves or shuts it down. */
  datatype Action = AtHub(hub: H.Action) | AtInbox(inbox: QueueLaws.Action)

  /** Whether the next offer of this publish is to the inbox. */
  predicate OffersTo(h: H.Hub, id: nat, token: nat) {
    && id < |h.publishes| && h.publishes[id].phase == H.Sending
    && h.publishes[id].sent < |h.publishes[id].snapshot| && h.publishes[id].snapshot[h.publishes[id].sent] == token
  }

  function OffersOf(h: H.Hub, token: nat): seq<nat> {
    if token in h.offers then h.offers[token] else []
  }

  ghost function Step(f: Feed, token: nat, action: Action): Feed {
    match action
    case AtHub(a) =>
      var moved := f.(hub := H.Step(f.hub, a));
      if a.OfferNext? && OffersTo(f.hub, a.id, token) then
        moved.(inbox := Q.Offered(f.inbox, f.hub.publishes[a.id].value),
               came := if f.inbox.closed then f.came else f.came + [|OffersOf(f.hub, token)|])
      else moved
    case AtInbox(a) => if a.Offer? then f else f.(inbox := QueueLaws.Step(f.inbox, a))
  }

  ghost function Run(f: Feed, token: nat, actions: seq<Action>): Feed
    decreases |actions|
  {
    if actions == [] then f else Step(Run(f, token, actions[..|actions| - 1]), token, actions[|actions| - 1])
  }

  predicate Increasing(s: seq<nat>, limit: nat) {
    (forall i, j :: 0 <= i < j < |s| ==> s[i] < s[j]) && forall i :: 0 <= i < |s| ==> s[i] < limit
  }

  /** Every value that arrived is that of the publish it came with, in the order of the offers. */
  predicate Match(offers: seq<nat>, publishes: seq<H.Publish>, came: seq<nat>, arrivals: seq<Q.Item>) {
    && (forall i :: 0 <= i < |offers| ==> offers[i] < |publishes|)
    && |came| == |arrivals| && Increasing(came, |offers|)
    && (forall i :: 0 <= i < |came| ==> arrivals[i] == publishes[offers[came[i]]].value)
  }

  ghost predicate Coupled(f: Feed, token: nat) {
    && HubLaws.Good(f.hub) && QueueLaws.Good(f.inbox)
    && Match(OffersOf(f.hub, token), f.hub.publishes, f.came, f.inbox.arrivals)
  }

  predicate OnlyAdded(publishes: seq<H.Publish>, publishes': seq<H.Publish>) {
    && |publishes| <= |publishes'|
    && forall id :: 0 <= id < |publishes| ==> publishes'[id].value == publishes[id].value
  }

  lemma {:induction false} MatchGrows(offers: seq<nat>, more: seq<nat>, publishes: seq<H.Publish>, publishes': seq<H.Publish>, came: seq<nat>, arrivals: seq<Q.Item>)
    requires Match(offers, publishes, came, arrivals) && OnlyAdded(publishes, publishes')
    requires forall i :: 0 <= i < |more| ==> more[i] < |publishes'|
    ensures Match(offers + more, publishes', came, arrivals)
  {
  }

  lemma {:induction false} MatchArrives(offers: seq<nat>, id: nat, publishes: seq<H.Publish>, came: seq<nat>, arrivals: seq<Q.Item>)
    requires Match(offers + [id], publishes, came, arrivals) && Increasing(came, |offers|) && id < |publishes|
    ensures Match(offers + [id], publishes, came + [|offers|], arrivals + [publishes[id].value])
  {
    assert (offers + [id])[|offers|] == id;
  }

  /** The hub's sections only add to what was offered, and never change a publish's value. */
  lemma {:induction false} HubOnlyAdds(h: H.Hub, action: H.Action, token: nat)
    requires HubLaws.Good(h)
    ensures var h' := H.Step(h, action);
            && OnlyAdded(h.publishes, h'.publishes)
            && OffersOf(h', token) == OffersOf(h, token) + (if action.OfferNext? && OffersTo(h, action.id, token) then [action.id] else [])
  {
  }

  lemma {:induction false} InboxOnlyReceives(q: Q.Queue, action: QueueLaws.Action)
    requires !action.Offer?
    ensures QueueLaws.Step(q, action).arrivals == q.arrivals
  {
    if action.Drain? {
      DrainReceivesNothing(q, action.limit);
    }
  }

  lemma {:induction false} DrainReceivesNothing(q: Q.Queue, limit: nat)
    ensures Q.Drained(q, limit).arrivals == q.arrivals
    decreases limit
  {
    if limit > 0 && q.items != [] {
      DrainReceivesNothing(Q.Dequeued(q), limit - 1);
    }
  }

  lemma {:induction false} StepKeepsCoupled(f: Feed, token: nat, action: Action)
    requires Coupled(f, token)
    ensures Coupled(Step(f, token, action), token)
  {
    match action
    case AtHub(a) =>
      HubLaws.StepKeepsGood(f.hub, a);
      InboxStaysGood(f, token, a);
      HubOnlyAdds(f.hub, a, token);
      HubKeepsMatch(f, H.Step(f.hub, a), token, a);
    case AtInbox(a) =>
      if !a.Offer? {
        QueueLaws.StepKeepsGood(f.inbox, a);
        InboxOnlyReceives(f.inbox, a);
      }
  }

  lemma {:induction false} InboxStaysGood(f: Feed, token: nat, action: H.Action)
    requires QueueLaws.Good(f.inbox)
    ensures QueueLaws.Good(Step(f, token, AtHub(action)).inbox)
  {
    if action.OfferNext? && OffersTo(f.hub, action.id, token) {
      var value := f.hub.publishes[action.id].value;
      ArrivesUnlessClosed(f.inbox, value);
      QueueLaws.StepKeepsGood(f.inbox, QueueLaws.Offer(value));
    }
  }

  lemma {:induction false} HubKeepsMatch(f: Feed, h': H.Hub, token: nat, action: H.Action)
    requires Match(OffersOf(f.hub, token), f.hub.publishes, f.came, f.inbox.arrivals)
    requires h' == H.Step(f.hub, action) && OnlyAdded(f.hub.publishes, h'.publishes)
    requires OffersOf(h', token) == OffersOf(f.hub, token) + (if action.OfferNext? && OffersTo(f.hub, action.id, token) then [action.id] else [])
    ensures var f' := Step(f, token, AtHub(action));
            Match(OffersOf(h', token), h'.publishes, f'.came, f'.inbox.arrivals)
  {
    var offers := OffersOf(f.hub, token);
    if action.OfferNext? && OffersTo(f.hub, action.id, token) {
      ArrivesUnlessClosed(f.inbox, f.hub.publishes[action.id].value);
      MatchGrows(offers, [action.id], f.hub.publishes, h'.publishes, f.came, f.inbox.arrivals);
      if !f.inbox.closed {
        MatchArrives(offers, action.id, h'.publishes, f.came, f.inbox.arrivals);
      }
    } else {
      MatchGrows(offers, [], f.hub.publishes, h'.publishes, f.came, f.inbox.arrivals);
      assert offers + [] == offers;
    }
  }

  lemma {:induction false} ArrivesUnlessClosed(q: Q.Queue, value: Q.Item)
    ensures Q.Offered(q, value).arrivals == if q.closed then q.arrivals else q.arrivals + [value]
    ensures Q.Offered(q, value) == QueueLaws.Step(q, QueueLaws.Offer(value))
  {
  }

  lemma {:induction false} EveryRunIsCoupled(inbox: Q.Queue, token: nat, actions: seq<Action>)
    requires QueueLaws.Good(inbox) && inbox.arrivals == []
    ensures Coupled(Run(Feed(H.NEW_HUB, inbox, []), token, actions), token)
    decreases |actions|
  {
    if actions == [] {
      HubLaws.EveryRunIsGood([]);
    } else {
      EveryRunIsCoupled(inbox, token, actions[..|actions| - 1]);
      StepKeepsCoupled(Run(Feed(H.NEW_HUB, inbox, []), token, actions[..|actions| - 1]), token, actions[|actions| - 1]);
    }
  }

  /** The publish a delivered value came with. */
  ghost function PublishOf(f: Feed, token: nat, i: nat): nat
    requires Coupled(f, token) && i < |f.inbox.deliveries| && f.inbox.deliveries[i].entry.ticket < |f.came|
  {
    OffersOf(f.hub, token)[f.came[f.inbox.deliveries[i].entry.ticket]]
  }

  lemma {:induction false} TicketsCame(f: Feed, token: nat, i: nat)
    requires Coupled(f, token) && i < |f.inbox.deliveries|
    ensures f.inbox.deliveries[i].entry.ticket < |f.came|
    ensures f.inbox.deliveries[i].entry.value == f.inbox.arrivals[f.inbox.deliveries[i].entry.ticket]
  {
    QueueLaws.DeliveredIsArrived(f.inbox, i);
  }

  /** Whatever happens at the hub and at the inbox, in whatever order: each value a subscriber
      receives is that of a publish whose snapshot the inbox was in, no two are of the same publish,
      and one publisher's come in the order it published them. */
  lemma {:induction false} SubscribersReceiveInOrder(inbox: Q.Queue, token: nat, actions: seq<Action>, i: nat, j: nat)
    requires QueueLaws.Good(inbox) && inbox.arrivals == []
    requires i < j < |Run(Feed(H.NEW_HUB, inbox, []), token, actions).inbox.deliveries|
    ensures var f := Run(Feed(H.NEW_HUB, inbox, []), token, actions);
            && Coupled(f, token) && f.inbox.deliveries[i].entry.ticket < |f.came| && f.inbox.deliveries[j].entry.ticket < |f.came|
            && (var a, b := PublishOf(f, token, i), PublishOf(f, token, j);
                && f.inbox.deliveries[i].entry.value == f.hub.publishes[a].value && token in f.hub.publishes[a].snapshot
                && f.inbox.deliveries[j].entry.value == f.hub.publishes[b].value && token in f.hub.publishes[b].snapshot
                && a != b && (f.hub.publishes[a].publisher == f.hub.publishes[b].publisher ==> a < b))
  {
    var f := Run(Feed(H.NEW_HUB, inbox, []), token, actions);
    EveryRunIsCoupled(inbox, token, actions);
    TicketsCame(f, token, i);
    TicketsCame(f, token, j);
    QueueLaws.DeliveredOnceInOrder(f.inbox, i, j);
    var a, b := PublishOf(f, token, i), PublishOf(f, token, j);
    var offers := OffersOf(f.hub, token);
    assert HubLaws.SaneInbox(f.hub, token);
    assert a in offers && b in offers;
    assert HubLaws.Reached(f.hub.publishes[a], token) && HubLaws.Reached(f.hub.publishes[b], token);
  }
}
