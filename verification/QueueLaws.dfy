/** What every interleaving of a queue's sections keeps. */
module QueueLaws {
  import opened QueueSections

  datatype Action =
    | Offer(value: Item)
    | Take
    | Drain(limit: nat)
    | LeaveTaking(waiter: nat)
    | LeaveOffering(waiter: nat)
    | Stop
    | CloseTaker
    | CloseOfferer

  function Step(q: Queue, action: Action): Queue {
    match action
    case Offer(value) => Offered(q, value)
    case Take => Taken(q)
    case Drain(limit) => Drained(q, limit)
    case LeaveTaking(w) => TakerAbandoned(q, w)
    case LeaveOffering(w) => OffererAbandoned(q, w)
    case Stop => Detached(q)
    case CloseTaker => TakerClosed(q)
    case CloseOfferer => OffererClosed(q)
  }

  function Run(q: Queue, actions: seq<Action>): Queue
    decreases |actions|
  {
    if actions == [] then q else Step(Run(q, actions[..|actions| - 1]), actions[|actions| - 1])
  }

  // Shape ---------------------------------------------------------------------------------

  /** Nobody waits for what is there: parked takers find no value, parked offerers no room. */
  ghost predicate Shape(q: Queue) {
    && (q.policy == NeverFull <==> q.capacity == 0)
    && (q.takers != [] ==> q.items == [])
    && (q.capacity > 0 ==> |q.items| <= q.capacity)
    && (q.offerers != [] ==> q.policy == BackPressure && |q.items| == q.capacity)
    && (q.closed ==> q.takers == [] && q.offerers == [])
    && (!q.closed ==> q.detachedTakers == [] && q.detachedOfferers == [])
  }

  lemma {:induction false} StepKeepsShape(q: Queue, action: Action)
    requires Shape(q)
    ensures Shape(Step(q, action))
  {
    match action
    case Drain(limit) => DrainKeepsShape(q, limit);
    case LeaveTaking(w) =>
    case _ =>
  }

  lemma {:induction false} DrainKeepsShape(q: Queue, limit: nat)
    requires Shape(q)
    ensures Shape(Drained(q, limit))
    decreases limit
  {
    if limit > 0 && q.items != [] {
      DrainKeepsShape(Dequeued(q), limit - 1);
    }
  }

  // Order ---------------------------------------------------------------------------------

  /** The arrivals that are not lost, in the order they arrived. */
  function Survivors(arrivals: seq<Item>, lost: map<nat, Fate>): seq<Entry>
    decreases |arrivals|
  {
    if arrivals == [] then []
    else
      var last := |arrivals| - 1;
      Survivors(arrivals[..last], lost) + (if last in lost then [] else [Entry(last, arrivals[last])])
  }

  function Entries(deliveries: seq<Delivery>): seq<Entry>
    decreases |deliveries|
  {
    if deliveries == [] then []
    else Entries(deliveries[..|deliveries| - 1]) + [deliveries[|deliveries| - 1].entry]
  }

  function Waiting(parked: seq<Parked>): seq<Entry> {
    if parked == [] then [] else [parked[0].entry] + Waiting(parked[1..])
  }

  /** Everything delivered, then everything queued, then everything parked. */
  function Line(q: Queue): seq<Entry> {
    Entries(q.deliveries) + q.items + Waiting(q.offerers)
  }

  /** The line is the arrivals in their order, less exactly the lost ones. */
  ghost predicate Ordered(q: Queue) {
    && Line(q) == Survivors(q.arrivals, q.lost)
    && forall t :: t in q.lost ==> t < |q.arrivals|
  }

  lemma {:induction false} DeliveredEntries(deliveries: seq<Delivery>, d: Delivery)
    ensures Entries(deliveries + [d]) == Entries(deliveries) + [d.entry]
  {
  }

  lemma {:induction false} WaitingSplits(a: seq<Parked>, b: seq<Parked>)
    ensures Waiting(a + b) == Waiting(a) + Waiting(b)
  {
    if a == [] {
      assert a + b == b;
    } else {
      assert (a + b)[1..] == a[1..] + b;
      WaitingSplits(a[1..], b);
    }
  }

  lemma {:induction false} Arrives(arrivals: seq<Item>, lost: map<nat, Fate>, v: Item)
    ensures Survivors(arrivals + [v], lost)
         == Survivors(arrivals, lost) + (if |arrivals| in lost then [] else [Entry(|arrivals|, v)])
  {
  }

  /** Tickets at or beyond the arrivals make no difference to them. */
  lemma {:induction false} LosingLater(arrivals: seq<Item>, lost: map<nat, Fate>, t: nat, fate: Fate)
    requires t >= |arrivals|
    ensures Survivors(arrivals, lost[t := fate]) == Survivors(arrivals, lost)
    decreases |arrivals|
  {
    if arrivals != [] {
      LosingLater(arrivals[..|arrivals| - 1], lost, t, fate);
    }
  }

  predicate Rising(s: seq<Entry>) {
    forall i, j :: 0 <= i < j < |s| ==> s[i].ticket < s[j].ticket
  }

  lemma {:induction false} SurvivorsRise(arrivals: seq<Item>, lost: map<nat, Fate>)
    ensures var s := Survivors(arrivals, lost);
            Rising(s) && forall i :: 0 <= i < |s| ==> s[i].ticket < |arrivals| && s[i].ticket !in lost && s[i].value == arrivals[s[i].ticket]
    decreases |arrivals|
  {
    if arrivals != [] {
      var last := |arrivals| - 1;
      var before := Survivors(arrivals[..last], lost);
      SurvivorsRise(arrivals[..last], lost);
      if last in lost {
        assert Survivors(arrivals, lost) == before;
      } else {
        assert Survivors(arrivals, lost) == before + [Entry(last, arrivals[last])];
      }
    }
  }

  lemma {:induction false} LargestIsLast(s: seq<Entry>, i: nat, n: nat)
    requires Rising(s) && i < |s| && s[i].ticket == n - 1
    requires forall k :: 0 <= k < |s| ==> s[k].ticket < n
    ensures i == |s| - 1
  {
    assert s[|s| - 1].ticket < n;
  }

  /** Losing one survivor takes it out of the line and moves nothing else. */
  lemma {:induction false} Loses(arrivals: seq<Item>, lost: map<nat, Fate>, a: seq<Entry>, e: Entry, b: seq<Entry>, fate: Fate)
    requires Survivors(arrivals, lost) == a + [e] + b
    ensures Survivors(arrivals, lost[e.ticket := fate]) == a + b
    decreases |arrivals|
  {
    var s := a + [e] + b;
    assert s[|a|] == e;
    SurvivorsRise(arrivals, lost);
    var last := |arrivals| - 1;
    var init := arrivals[..last];
    if e.ticket == last {
      LargestIsLast(s, |a|, |arrivals|);
      assert Survivors(init, lost) == a by {
        assert a + [e] + b == a + [e];
        assert (Survivors(init, lost) + [Entry(last, arrivals[last])])[..|a|] == (a + [e])[..|a|];
      }
      LosingLater(init, lost, last, fate);
    } else {
      if last in lost {
        Loses(init, lost, a, e, b, fate);
      } else {
        assert b != [] && b[|b| - 1] == Entry(last, arrivals[last]) by {
          assert s[|s| - 1] == Entry(last, arrivals[last]);
        }
        var b' := b[..|b| - 1];
        assert Survivors(init, lost) == a + [e] + b' by {
          assert s[..|s| - 1] == a + [e] + b';
        }
        Loses(init, lost, a, e, b', fate);
        assert a + b' + [b[|b| - 1]] == a + b;
      }
    }
  }

  lemma {:induction false} OneWaiting(p: Parked)
    ensures Waiting([p]) == [p.entry]
  {
  }

  lemma {:induction false} OfferKeepsOrder(q: Queue, value: Item)
    requires Shape(q) && Ordered(q)
    ensures Ordered(Offered(q, value))
  {
    if !q.closed {
      if q.takers == [] && !HasRoom(q) {
        PolicyKeepsOrder(q, value);
      } else {
        Arrives(q.arrivals, q.lost, value);
        AcceptedLine(q, value);
      }
    }
  }

  /** A value handed off or queued joins the line at its end: nobody else is waiting with one. */
  lemma {:induction false} AcceptedLine(q: Queue, value: Item)
    requires Shape(q) && !q.closed && (q.takers != [] || HasRoom(q))
    ensures Line(Offered(q, value)) == Line(q) + [Entry(|q.arrivals|, value)]
  {
    var e := Entry(|q.arrivals|, value);
    assert q.offerers == [] && Waiting(q.offerers) == [];
    if q.takers != [] {
      DeliveredEntries(q.deliveries, Delivery(e, ToWaiter(q.takers[0])));
      assert q.items == [];
      JoinsLine(Entries(q.deliveries), [], e);
    } else {
      JoinsLine(Entries(q.deliveries), q.items, e);
    }
  }

  lemma {:induction false} JoinsLine(delivered: seq<Entry>, items: seq<Entry>, e: Entry)
    ensures delivered + (items + [e]) + [] == delivered + items + [] + [e]
    ensures items == [] ==> (delivered + [e]) + items + [] == delivered + items + [] + [e]
  {
  }

  lemma {:induction false} PolicyKeepsOrder(q: Queue, value: Item)
    requires Shape(q) && Ordered(q) && !q.closed && q.takers == [] && !HasRoom(q)
    ensures Ordered(Offered(q, value))
  {
    var e := Entry(|q.arrivals|, value);
    if q.policy == BackPressure {
      Arrives(q.arrivals, q.lost, value);
      ParkedLine(q, e);
    } else if q.policy == DropOldest {
      OldestDropped(q, value);
    } else {
      LosingLater(q.arrivals, q.lost, e.ticket, Dropped);
      Arrives(q.arrivals, q.lost[e.ticket := Dropped], value);
    }
  }

  lemma {:induction false} ParkedLine(q: Queue, e: Entry)
    ensures Line(q.(offerers := q.offerers + [Parked(q.nextWaiter, e)])) == Line(q) + [e]
  {
    WaitingSplits(q.offerers, [Parked(q.nextWaiter, e)]);
    OneWaiting(Parked(q.nextWaiter, e));
  }

  lemma {:induction false} OldestDropped(q: Queue, value: Item)
    requires Shape(q) && Ordered(q) && !q.closed && q.takers == [] && !HasRoom(q) && q.policy == DropOldest
    ensures Ordered(Offered(q, value))
  {
    var e := Entry(|q.arrivals|, value);
    var a, oldest, b := Entries(q.deliveries), q.items[0], q.items[1..] + [e];
    assert q.offerers == [] && Waiting(q.offerers) == [];
    Arrives(q.arrivals, q.lost, value);
    HeadOfLine(a, q.items, e);
    IsSurvivor(q.arrivals + [value], q.lost, a, oldest, b);
    Loses(q.arrivals + [value], q.lost, a, oldest, b, Dropped);
  }

  lemma {:induction false} HeadOfLine(delivered: seq<Entry>, items: seq<Entry>, e: Entry)
    requires items != []
    ensures delivered + items + [] + [e] == delivered + [items[0]] + (items[1..] + [e])
    ensures delivered + (items[1..] + [e]) + [] == delivered + (items[1..] + [e])
  {
  }

  lemma {:induction false} IsSurvivor(arrivals: seq<Item>, lost: map<nat, Fate>, a: seq<Entry>, e: Entry, b: seq<Entry>)
    requires Survivors(arrivals, lost) == a + [e] + b
    ensures e.ticket < |arrivals| && e.ticket !in lost && e.value == arrivals[e.ticket]
  {
    SurvivorsRise(arrivals, lost);
    assert (a + [e] + b)[|a|] == e;
  }

  lemma {:induction false} DequeueKeepsOrder(q: Queue)
    requires Ordered(q) && q.items != []
    ensures Ordered(Dequeued(q))
  {
    var first, rest := q.items[0], q.items[1..];
    DeliveredEntries(q.deliveries, Delivery(first, ToCaller));
    assert q.items == [first] + rest;
    if q.offerers == [] {
      MovesUp(Entries(q.deliveries), first, rest, [], []);
      assert Line(Dequeued(q)) == Line(q);
    } else {
      MovesUp(Entries(q.deliveries), first, rest, [q.offerers[0].entry], Waiting(q.offerers[1..]));
    }
  }

  lemma MovesUp<T>(a: seq<T>, x: T, b: seq<T>, c: seq<T>, d: seq<T>)
    ensures (a + [x]) + (b + c) + d == a + ([x] + b) + (c + d)
    ensures c == [] && d == [] ==> (a + [x]) + b == a + ([x] + b)
  {
  }

  lemma {:induction false} DrainKeepsOrder(q: Queue, limit: nat)
    requires Ordered(q)
    ensures Ordered(Drained(q, limit))
    decreases limit
  {
    if limit > 0 && q.items != [] {
      DequeueKeepsOrder(q);
      DrainKeepsOrder(Dequeued(q), limit - 1);
    }
  }

  lemma {:induction false} LeavingKeepsOrder(q: Queue, w: nat)
    requires Ordered(q)
    ensures Ordered(OffererAbandoned(q, w))
  {
    var i := IndexOf(q.offerers, w);
    if i < |q.offerers| {
      var p := q.offerers[i];
      var ahead := Entries(q.deliveries) + q.items;
      var a, b := ahead + Waiting(q.offerers[..i]), Waiting(q.offerers[i + 1..]);
      LineWithout(ahead, q.offerers, i);
      IsSurvivor(q.arrivals, q.lost, a, p.entry, b);
      Loses(q.arrivals, q.lost, a, p.entry, b, Abandoned);
    }
  }

  lemma {:induction false} LineWithout(ahead: seq<Entry>, parked: seq<Parked>, i: nat)
    requires i < |parked|
    ensures ahead + Waiting(parked) == ahead + Waiting(parked[..i]) + [parked[i].entry] + Waiting(parked[i + 1..])
    ensures ahead + Waiting(parked[..i] + parked[i + 1..]) == ahead + Waiting(parked[..i]) + Waiting(parked[i + 1..])
  {
    SplitAt(parked, i);
    WaitingSplits(parked[..i], parked[i + 1..]);
  }

  lemma {:induction false} SplitAt(parked: seq<Parked>, i: nat)
    requires i < |parked|
    ensures Waiting(parked) == Waiting(parked[..i]) + [parked[i].entry] + Waiting(parked[i + 1..])
  {
    if i == 0 {
      assert parked[..0] == [];
    } else {
      SplitAt(parked[1..], i - 1);
      assert parked[1..][..i - 1] == parked[..i][1..] && parked[1..][i..] == parked[i + 1..];
    }
  }

  /** Refusing everyone parked leaves the line as it is ahead of them. */
  lemma {:induction false} RefusingAll(arrivals: seq<Item>, lost: map<nat, Fate>, ahead: seq<Entry>, parked: seq<Parked>)
    requires Survivors(arrivals, lost) == ahead + Waiting(parked)
    requires forall t :: t in lost ==> t < |arrivals|
    ensures Survivors(arrivals, AllRefused(lost, parked)) == ahead
    ensures forall t :: t in AllRefused(lost, parked) ==> t < |arrivals|
    decreases |parked|
  {
    if parked == [] {
      assert ahead + [] == ahead;
    } else {
      var init, p := parked[..|parked| - 1], parked[|parked| - 1];
      assert parked == init + [p];
      WaitingSplits(init, [p]);
      OneWaiting(p);
      var a := ahead + Waiting(init);
      assert ahead + Waiting(parked) == a + [p.entry] + [];
      IsSurvivor(arrivals, lost, a, p.entry, []);
      Loses(arrivals, lost, a, p.entry, [], Refused);
      assert a + [] == a;
      RefusingAll(arrivals, lost[p.entry.ticket := Refused], ahead, init);
    }
  }

  lemma {:induction false} StepKeepsOrder(q: Queue, action: Action)
    requires Shape(q) && Ordered(q)
    ensures Ordered(Step(q, action))
  {
    match action
    case Offer(value) => OfferKeepsOrder(q, value);
    case Take =>
      if q.items != [] {
        DequeueKeepsOrder(q);
      }
    case Drain(limit) => DrainKeepsOrder(q, limit);
    case LeaveOffering(w) => LeavingKeepsOrder(q, w);
    case Stop =>
      if !q.closed {
        RefusingAll(q.arrivals, q.lost, Entries(q.deliveries) + q.items, q.offerers);
        assert Line(Detached(q)) == Entries(q.deliveries) + q.items;
      }
    case _ =>
  }

  // Channels ------------------------------------------------------------------------------

  /** Each parked taker's channel is empty; a taker's channel stays empty only while it is parked,
      detached or gone; a message in it is one delivery, and no other delivery went there. */
  ghost predicate TakersServed(q: Queue) {
    && Increasing(q.takers) && Increasing(q.detachedTakers)
    && (forall w :: w in q.takers || w in q.detachedTakers || w in q.leftTaking ==> w in q.ready && q.ready[w] == Mailbox.Empty)
    && (forall w :: w in q.leftTaking ==> w !in q.takers && w !in q.detachedTakers)
    && (forall w :: w in q.ready ==> TakerServed(q, w))
    && (forall d :: d in q.deliveries && d.to.ToWaiter? ==> d.to.waiter in q.ready && q.ready[d.to.waiter] == Holds(d.entry))
  }

  ghost predicate TakerServed(q: Queue, w: nat)
    requires w in q.ready
  {
    && w < q.nextWaiter
    && match q.ready[w]
       case Empty => w in q.takers || w in q.detachedTakers || w in q.leftTaking
       case Holds(e) => Delivery(e, ToWaiter(w)) in q.deliveries
       case Shut => q.closed
       case Misused => false
  }

  predicate Increasing(s: seq<nat>) {
    forall i, j :: 0 <= i < j < |s| ==> s[i] < s[j]
  }

  lemma {:induction false} HeadApart(s: seq<nat>)
    requires Increasing(s) && s != []
    ensures Increasing(s[1..]) && forall x :: x in s <==> x == s[0] || x in s[1..]
    ensures s[0] !in s[1..]
  {
  }

  lemma {:induction false} TakerRemoved(s: seq<nat>, w: nat)
    requires Increasing(s)
    ensures Increasing(WithoutTaker(s, w)) && forall x :: x in WithoutTaker(s, w) <==> x in s && x != w
  {
    if s != [] {
      HeadApart(s);
      TakerRemoved(s[1..], w);
      if s[0] != w {
        var rest := WithoutTaker(s[1..], w);
        assert forall i :: 0 <= i < |rest| ==> rest[i] in s[1..];
        assert WithoutTaker(s, w) == [s[0]] + rest;
      }
    }
  }

  lemma {:induction false} HandOffServes(q: Queue, value: Item)
    requires Shape(q) && TakersServed(q) && q.takers != []
    ensures TakersServed(Offered(q, value))
  {
  }

  lemma {:induction false} ParkingServes(q: Queue)
    requires Shape(q) && TakersServed(q) && q.items == [] && !q.closed
    ensures TakersServed(Taken(q))
  {
    assert forall w :: w in q.takers ==> w in q.ready && TakerServed(q, w);
    LastApart(q.takers, q.nextWaiter);
  }

  lemma {:induction false} LastApart(s: seq<nat>, x: nat)
    requires Increasing(s) && forall y :: y in s ==> y < x
    ensures Increasing(s + [x]) && forall y :: y in s + [x] <==> y in s || y == x
  {
    assert forall i :: 0 <= i < |s| ==> s[i] in s;
    assert (s + [x])[|s|] == x;
  }

  /** Sections that neither serve nor park a taker. */
  lemma {:induction false} OthersServe(q: Queue, q': Queue)
    requires TakersServed(q)
    requires q'.takers == q.takers && q'.detachedTakers == q.detachedTakers && q'.leftTaking == q.leftTaking
    requires q'.ready == q.ready && q'.deliveries == q.deliveries && q'.closed == q.closed && q'.nextWaiter >= q.nextWaiter
    ensures TakersServed(q')
  {
  }

  lemma {:induction false} LeavingServes(q: Queue, w: nat)
    requires TakersServed(q) && Shape(q)
    ensures TakersServed(TakerAbandoned(q, w))
  {
    TakerRemoved(q.takers, w);
    assert q.takers == [] || q.detachedTakers == [];
    assert forall v :: v in q.ready ==> TakerServed(q, v);
  }

  lemma {:induction false} DetachingServes(q: Queue)
    requires Shape(q) && TakersServed(q)
    ensures TakersServed(Detached(q))
  {
  }

  lemma {:induction false} DequeueServes(q: Queue)
    requires Shape(q) && TakersServed(q) && q.items != []
    ensures TakersServed(Dequeued(q))
  {
  }

  lemma {:induction false} DrainServes(q: Queue, limit: nat)
    requires Shape(q) && TakersServed(q)
    ensures TakersServed(Drained(q, limit))
    decreases limit
  {
    if limit > 0 && q.items != [] {
      DequeueServes(q);
      DrainServes(Dequeued(q), limit - 1);
    }
  }

  lemma {:induction false} ClosingServes(q: Queue)
    requires Shape(q) && TakersServed(q) && q.detachedTakers != []
    ensures TakersServed(TakerClosed(q))
  {
  }

  lemma {:induction false} StepServesTakers(q: Queue, action: Action)
    requires Shape(q) && TakersServed(q)
    ensures TakersServed(Step(q, action))
  {
    match action
    case Offer(value) =>
      if !q.closed && q.takers != [] {
        HandOffServes(q, value);
      } else {
        OthersServe(q, Offered(q, value));
      }
    case Take =>
      if q.items != [] {
        DequeueServes(q);
      } else if !q.closed {
        ParkingServes(q);
      }
    case Drain(limit) => DrainServes(q, limit);
    case LeaveTaking(w) => LeavingServes(q, w);
    case CloseTaker =>
      if q.detachedTakers != [] {
        ClosingServes(q);
      }
    case Stop => DetachingServes(q);
    case LeaveOffering(w) => OthersServe(q, OffererAbandoned(q, w));
    case CloseOfferer => OthersServe(q, OffererClosed(q));
  }

  // Offerers ------------------------------------------------------------------------------

  /** A parked offerer's channel is empty, and stays empty only while it is parked, detached or
      gone; it is told true only if its value is not lost, and closed only if it is. */
  ghost predicate OfferersAnswered(q: Queue) {
    Asked(q) && OfferersWait(q) && (forall w :: w in q.admission ==> OffererAnswered(q, w))
  }

  /** Waiters ask in the order their values arrive. */
  ghost predicate Asked(q: Queue) {
    && q.asked.Keys == q.admission.Keys
    && (q.policy != BackPressure ==> q.admission == map[] && q.offerers == [] && q.detachedOfferers == [])
    && (forall w :: w in q.asked ==> q.asked[w].ticket < |q.arrivals| && q.asked[w].value == q.arrivals[q.asked[w].ticket])
    && (forall v, w :: v in q.asked && w in q.asked && v < w ==> q.asked[v].ticket < q.asked[w].ticket)
    && (forall w :: w in q.leftOffering ==> w in q.admission)
  }

  ghost predicate OfferersWait(q: Queue) {
    && InOrder(q.offerers) && InOrder(q.detachedOfferers)
    && (forall p :: p in q.offerers ==> Unanswered(q, p) && p.entry.ticket !in q.lost)
    && (forall p :: p in q.detachedOfferers ==> Unanswered(q, p) && p.entry.ticket in q.lost && q.lost[p.entry.ticket] == Refused)
  }

  ghost predicate Unanswered(q: Queue, p: Parked) {
    && p.waiter in q.asked && p.entry == q.asked[p.waiter]
    && p.waiter in q.admission && q.admission[p.waiter] == Mailbox.Empty && p.waiter !in q.leftOffering
  }

  ghost predicate OffererAnswered(q: Queue, w: nat)
    requires w in q.admission && w in q.asked
  {
    var t := q.asked[w].ticket;
    && w < q.nextWaiter
    && (w in q.leftOffering ==> t in q.lost && q.lost[t] == Abandoned)
    && match q.admission[w]
       case Empty => Parked(w, q.asked[w]) in q.offerers || Parked(w, q.asked[w]) in q.detachedOfferers || w in q.leftOffering
       case Holds(admitted) => admitted && t !in q.lost
       case Shut => t in q.lost && q.lost[t] == Refused
       case Misused => false
  }

  predicate InOrder(parked: seq<Parked>) {
    forall i, j :: 0 <= i < j < |parked| ==> parked[i].waiter < parked[j].waiter
  }

  lemma {:induction false} FirstApart(parked: seq<Parked>)
    requires InOrder(parked) && parked != []
    ensures InOrder(parked[1..]) && forall p :: p in parked <==> p == parked[0] || p in parked[1..]
    ensures forall p :: p in parked[1..] ==> p.waiter != parked[0].waiter
  {
  }

  lemma {:induction false} LastInOrder(parked: seq<Parked>, p: Parked)
    requires InOrder(parked) && forall x :: x in parked ==> x.waiter < p.waiter
    ensures InOrder(parked + [p]) && forall x :: x in parked + [p] <==> x in parked || x == p
  {
  }

  /** Two different waiters asked with two different values. */
  lemma {:induction false} AskedApart(q: Queue, v: nat, w: nat)
    requires OfferersAnswered(q) && v in q.asked && w in q.asked && v != w
    ensures q.asked[v].ticket != q.asked[w].ticket
  {
  }

  /** A new arrival changes nothing for those already waiting. */
  lemma {:induction false} ArrivalAnswers(q: Queue, value: Item)
    requires OfferersAnswered(q)
    ensures OfferersAnswered(q.(arrivals := q.arrivals + [value]))
  {
    var q' := q.(arrivals := q.arrivals + [value]);
    forall w | w in q'.admission
      ensures OffererAnswered(q', w)
    {
      assert OffererAnswered(q, w);
    }
    forall p | p in q.offerers || p in q.detachedOfferers
      ensures Unanswered(q', p)
    {
      assert Unanswered(q, p);
    }
  }

  lemma {:induction false} OthersAnswer(q: Queue, q': Queue)
    requires OfferersAnswered(q)
    requires q'.offerers == q.offerers && q'.detachedOfferers == q.detachedOfferers && q'.leftOffering == q.leftOffering
    requires q'.admission == q.admission && q'.asked == q.asked && q'.lost == q.lost && q'.arrivals == q.arrivals
    requires q'.policy == q.policy && q'.nextWaiter >= q.nextWaiter
    ensures OfferersAnswered(q')
  {
    assert forall w :: w in q.admission ==> OffererAnswered(q, w);
    assert forall p :: p in q.offerers || p in q.detachedOfferers ==> Unanswered(q, p);
  }

  lemma {:induction false} ParkingAnswers(q: Queue, e: Entry)
    requires OfferersAnswered(q) && Shape(q) && !q.closed && q.policy == BackPressure && q.items != []
    requires e.ticket < |q.arrivals| && e.value == q.arrivals[e.ticket] && e.ticket !in q.lost
    requires forall w :: w in q.asked ==> q.asked[w].ticket < e.ticket
    ensures OfferersAnswered(Admitted(q, e))
  {
    var q', p := Admitted(q, e), Parked(q.nextWaiter, e);
    assert forall w :: w in q.admission ==> OffererAnswered(q, w) && w < q.nextWaiter;
    assert forall x :: x in q.offerers ==> Unanswered(q, x);
    LastInOrder(q.offerers, p);
    ParkingWaits(q, e);
    assert Asked(q');
    forall w | w in q'.admission
      ensures OffererAnswered(q', w)
    {
      if w != q.nextWaiter {
        assert OffererAnswered(q, w);
      }
    }
  }

  lemma {:induction false} ParkingWaits(q: Queue, e: Entry)
    requires OfferersWait(q) && Shape(q) && !q.closed && q.policy == BackPressure && q.items != []
    requires q.nextWaiter !in q.admission && q.nextWaiter !in q.leftOffering && e.ticket !in q.lost
    requires InOrder(q.offerers + [Parked(q.nextWaiter, e)])
    ensures OfferersWait(Admitted(q, e))
  {
  }

  /** Under a dropping policy nobody ever waits for room. */
  lemma {:induction false} DroppingAnswers(q: Queue, e: Entry)
    requires OfferersAnswered(q) && Shape(q) && q.policy != BackPressure && q.items != []
    ensures OfferersAnswered(Admitted(q, e))
  {
  }

  lemma {:induction false} AdmittingAnswers(q: Queue)
    requires OfferersAnswered(q) && Shape(q)
    ensures OfferersAnswered(AdmittedOne(q))
  {
    if q.offerers != [] {
      var p, q' := q.offerers[0], AdmittedOne(q);
      FirstApart(q.offerers);
      assert p in q.offerers && Unanswered(q, p);
      assert q.detachedOfferers == [];
      forall w | w in q'.admission
        ensures OffererAnswered(q', w)
      {
        assert OffererAnswered(q, w);
      }
      forall x | x in q'.offerers
        ensures Unanswered(q', x) && x.entry.ticket !in q'.lost
      {
        assert Unanswered(q, x);
      }
    }
  }

  lemma {:induction false} DequeueAnswers(q: Queue)
    requires OfferersAnswered(q) && Shape(q) && q.items != []
    ensures OfferersAnswered(Dequeued(q))
  {
    AdmittingAnswers(q);
    OthersAnswer(AdmittedOne(q), Dequeued(q));
  }

  lemma {:induction false} DrainAnswers(q: Queue, limit: nat)
    requires OfferersAnswered(q) && Shape(q)
    ensures OfferersAnswered(Drained(q, limit))
    decreases limit
  {
    if limit > 0 && q.items != [] {
      DequeueAnswers(q);
      DrainAnswers(Dequeued(q), limit - 1);
    }
  }

  lemma {:induction false} OffererRemoved(parked: seq<Parked>, i: nat)
    requires InOrder(parked) && i < |parked|
    ensures var rest := parked[..i] + parked[i + 1..];
            InOrder(rest) && forall p :: p in rest <==> p in parked && p != parked[i]
    ensures forall p :: p in parked && p != parked[i] ==> p.waiter != parked[i].waiter
  {
  }

  lemma {:induction false} AbandoningAnswers(q: Queue, w: nat)
    requires OfferersAnswered(q) && Shape(q)
    ensures OfferersAnswered(OffererAbandoned(q, w))
  {
    var i := IndexOf(q.offerers, w);
    if i < |q.offerers| {
      var p, q' := q.offerers[i], OffererAbandoned(q, w);
      OffererRemoved(q.offerers, i);
      assert p in q.offerers && Unanswered(q, p);
      assert q.detachedOfferers == [];
      forall v | v in q'.admission
        ensures OffererAnswered(q', v)
      {
        assert OffererAnswered(q, v);
        if v != w {
          AskedApart(q, v, w);
        }
      }
      forall x | x in q'.offerers
        ensures Unanswered(q', x) && x.entry.ticket !in q'.lost
      {
        assert Unanswered(q, x);
        AskedApart(q, x.waiter, w);
      }
    }
  }

  lemma {:induction false} RefusedTickets(lost: map<nat, Fate>, parked: seq<Parked>)
    ensures var r := AllRefused(lost, parked);
            && (forall p :: p in parked ==> p.entry.ticket in r && r[p.entry.ticket] == Refused)
            && (forall t :: t in lost ==> t in r && (r[t] == lost[t] || r[t] == Refused))
            && (forall t :: t in r ==> (t in lost && r[t] == lost[t]) || exists p :: p in parked && p.entry.ticket == t)
    decreases |parked|
  {
    if parked != [] {
      var init, last := parked[..|parked| - 1], parked[|parked| - 1];
      assert parked == init + [last];
      RefusedTickets(lost[last.entry.ticket := Refused], init);
      assert last in parked;
    }
  }

  lemma {:induction false} DetachingAnswers(q: Queue)
    requires OfferersAnswered(q) && Shape(q)
    ensures OfferersAnswered(Detached(q))
  {
    if !q.closed {
      RefusedTickets(q.lost, q.offerers);
      var q' := Detached(q);
      forall v | v in q'.admission
        ensures OffererAnswered(q', v)
      {
        assert OffererAnswered(q, v);
        if Parked(v, q.asked[v]) !in q.offerers {
          NotAmongParked(q, v);
        }
      }
      forall x | x in q'.detachedOfferers
        ensures Unanswered(q', x)
      {
        assert Unanswered(q, x);
      }
    }
  }

  /** A waiter that is not parked asked with a ticket that nobody parked has. */
  lemma {:induction false} NotAmongParked(q: Queue, v: nat)
    requires OfferersAnswered(q) && v in q.asked && Parked(v, q.asked[v]) !in q.offerers
    ensures forall p :: p in q.offerers ==> p.entry.ticket != q.asked[v].ticket
  {
  }

  lemma {:induction false} ShuttingAnswers(q: Queue)
    requires OfferersAnswered(q) && Shape(q) && q.detachedOfferers != []
    ensures OfferersAnswered(OffererClosed(q))
  {
    var p := q.detachedOfferers[0];
    FirstApart(q.detachedOfferers);
    assert p in q.detachedOfferers && Unanswered(q, p);
    assert q.offerers == [];
    var q' := OffererClosed(q);
    forall w | w in q'.admission
      ensures OffererAnswered(q', w)
    {
      assert OffererAnswered(q, w);
    }
    forall x | x in q'.detachedOfferers
      ensures Unanswered(q', x) && x.entry.ticket in q'.lost && q'.lost[x.entry.ticket] == Refused
    {
      assert Unanswered(q, x);
    }
  }

  lemma {:induction false} OfferAnswers(q: Queue, value: Item)
    requires OfferersAnswered(q) && Shape(q) && Ordered(q) && !q.closed
    ensures OfferersAnswered(Offered(q, value))
  {
    var e := Entry(|q.arrivals|, value);
    var arrived := q.(arrivals := q.arrivals + [value]);
    ArrivalAnswers(q, value);
    if q.takers != [] || HasRoom(q) {
      OthersAnswer(arrived, Offered(q, value));
    } else if q.policy == BackPressure {
      ParkingAnswers(arrived, e);
    } else {
      DroppingAnswers(arrived, e);
    }
  }

  lemma {:induction false} OfferStepAnswers(q: Queue, value: Item)
    requires Shape(q) && Ordered(q) && OfferersAnswered(q)
    ensures OfferersAnswered(Offered(q, value))
  {
    if !q.closed {
      OfferAnswers(q, value);
    }
  }

  lemma {:induction false} TakeStepAnswers(q: Queue)
    requires Shape(q) && OfferersAnswered(q)
    ensures OfferersAnswered(Taken(q))
  {
    if q.items != [] {
      DequeueAnswers(q);
    } else {
      OthersAnswer(q, Taken(q));
    }
  }

  lemma {:induction false} TakerGoneAnswers(q: Queue, w: nat)
    requires OfferersAnswered(q)
    ensures OfferersAnswered(TakerAbandoned(q, w))
  {
    OthersAnswer(q, TakerAbandoned(q, w));
  }

  lemma {:induction false} TakerClosedAnswers(q: Queue)
    requires OfferersAnswered(q)
    ensures OfferersAnswered(TakerClosed(q))
  {
    OthersAnswer(q, TakerClosed(q));
  }

  lemma {:induction false} CloseStepAnswers(q: Queue)
    requires Shape(q) && OfferersAnswered(q)
    ensures OfferersAnswered(OffererClosed(q))
  {
    if q.detachedOfferers != [] {
      ShuttingAnswers(q);
    }
  }

  lemma {:induction false} UsingAnswers(q: Queue, action: Action)
    requires Shape(q) && Ordered(q) && OfferersAnswered(q) && (action.Offer? || action.Take? || action.Drain?)
    ensures OfferersAnswered(Step(q, action))
  {
    match action
    case Offer(value) => OfferStepAnswers(q, value);
    case Take => TakeStepAnswers(q);
    case Drain(limit) => DrainAnswers(q, limit);
  }

  lemma {:induction false} StepAnswersOfferers(q: Queue, action: Action)
    requires Shape(q) && Ordered(q) && OfferersAnswered(q)
    ensures OfferersAnswered(Step(q, action))
  {
    if action.Offer? || action.Take? || action.Drain? {
      UsingAnswers(q, action);
    } else {
      match action
      case LeaveTaking(w) => TakerGoneAnswers(q, w);
      case LeaveOffering(w) => AbandoningAnswers(q, w);
      case Stop => DetachingAnswers(q);
      case CloseTaker => TakerClosedAnswers(q);
      case CloseOfferer => CloseStepAnswers(q);
    }
  }

  // Turns ---------------------------------------------------------------------------------

  /** Takers that had to wait were served in the order they parked. */
  ghost predicate ServedInTurn(q: Queue) {
    && (forall i, j :: 0 <= i < j < |q.deliveries| && q.deliveries[i].to.ToWaiter? && q.deliveries[j].to.ToWaiter?
          ==> q.deliveries[i].to.waiter < q.deliveries[j].to.waiter)
    && (forall i, w :: 0 <= i < |q.deliveries| && q.deliveries[i].to.ToWaiter? && w in q.takers ==> q.deliveries[i].to.waiter < w)
  }

  lemma {:induction false} DrainServesInTurn(q: Queue, limit: nat)
    requires Shape(q) && ServedInTurn(q)
    ensures ServedInTurn(Drained(q, limit))
    decreases limit
  {
    if limit > 0 && q.items != [] {
      DrainServesInTurn(Dequeued(q), limit - 1);
    }
  }

  lemma {:induction false} HandOffInTurn(q: Queue, value: Item)
    requires TakersServed(q) && ServedInTurn(q) && q.takers != [] && !q.closed
    ensures ServedInTurn(Offered(q, value))
  {
  }

  lemma {:induction false} ParkingInTurn(q: Queue)
    requires TakersServed(q) && ServedInTurn(q) && q.items == []
    ensures ServedInTurn(Taken(q))
  {
  }

  lemma {:induction false} StepServesInTurn(q: Queue, action: Action)
    requires Shape(q) && TakersServed(q) && ServedInTurn(q)
    ensures ServedInTurn(Step(q, action))
  {
    match action
    case Offer(value) =>
      if q.takers != [] {
        HandOffInTurn(q, value);
      }
    case Take =>
      if q.items == [] {
        ParkingInTurn(q);
      } else {
        DrainServesInTurn(q, 1);
        assert Drained(q, 1) == Dequeued(q);
      }
    case Drain(limit) => DrainServesInTurn(q, limit);
    case LeaveTaking(w) => TakerRemoved(q.takers, w);
    case _ =>
  }

  // Every run -----------------------------------------------------------------------------

  ghost predicate Good(q: Queue) {
    Shape(q) && Ordered(q) && TakersServed(q) && OfferersAnswered(q) && ServedInTurn(q)
  }

  lemma {:induction false} StepKeepsGood(q: Queue, action: Action)
    requires Good(q)
    ensures Good(Step(q, action))
  {
    StepKeepsShape(q, action);
    StepKeepsOrder(q, action);
    StepServesTakers(q, action);
    StepAnswersOfferers(q, action);
    StepServesInTurn(q, action);
  }

  /** Whatever sections run in whatever order: nobody waits for what is there, no channel is sent
      to or closed twice, and what is delivered, queued and parked is what arrived, in order, less
      exactly what was lost. */
  lemma {:induction false} EveryRunIsGood(q: Queue, actions: seq<Action>)
    requires Good(q)
    ensures Good(Run(q, actions))
    decreases |actions|
  {
    if actions != [] {
      EveryRunIsGood(q, actions[..|actions| - 1]);
      StepKeepsGood(Run(q, actions[..|actions| - 1]), actions[|actions| - 1]);
    }
  }

  lemma {:induction false} NewQueuesAreGood(capacity: int, policy: Policy)
    requires policy != NeverFull
    ensures Good(Bounded(capacity, policy)) && Good(Unbounded())
  {
  }

  /** So it is of every queue that was new once, whatever its capacity and policy. */
  lemma {:induction false} QueuesStayGood(capacity: int, policy: Policy, actions: seq<Action>)
    requires policy != NeverFull
    ensures Good(Run(Bounded(capacity, policy), actions)) && Good(Run(Unbounded(), actions))
  {
    NewQueuesAreGood(capacity, policy);
    EveryRunIsGood(Bounded(capacity, policy), actions);
    EveryRunIsGood(Unbounded(), actions);
  }

  // Once delivered, once lost -------------------------------------------------------------

  lemma {:induction false} EntryAt(deliveries: seq<Delivery>, i: nat)
    requires i < |deliveries|
    ensures |Entries(deliveries)| == |deliveries| && Entries(deliveries)[i] == deliveries[i].entry
    decreases |deliveries|
  {
    var init := deliveries[..|deliveries| - 1];
    if i < |init| {
      EntryAt(init, i);
    } else if init != [] {
      EntryAt(init, 0);
    }
  }

  /** A delivery is of a value that arrived. */
  lemma {:induction false} DeliveredIsArrived(q: Queue, i: nat)
    requires Good(q) && i < |q.deliveries|
    ensures q.deliveries[i].entry.ticket < |q.arrivals|
    ensures q.deliveries[i].entry.value == q.arrivals[q.deliveries[i].entry.ticket]
  {
    EntryAt(q.deliveries, i);
    SurvivorsRise(q.arrivals, q.lost);
    assert Line(q)[i] == Entries(q.deliveries)[i];
  }

  /** Deliveries are in the order of arrival, each of a different arrival, and of none that is
      lost. */
  lemma {:induction false} DeliveredOnceInOrder(q: Queue, i: nat, j: nat)
    requires Good(q) && i < j < |q.deliveries|
    ensures q.deliveries[i].entry.ticket < q.deliveries[j].entry.ticket < |q.arrivals|
    ensures q.deliveries[i].entry.ticket !in q.lost && q.deliveries[j].entry.ticket !in q.lost
    ensures q.deliveries[i].entry.value == q.arrivals[q.deliveries[i].entry.ticket]
  {
    EntryAt(q.deliveries, i);
    EntryAt(q.deliveries, j);
    SurvivorsRise(q.arrivals, q.lost);
    assert Line(q)[i] == Entries(q.deliveries)[i] && Line(q)[j] == Entries(q.deliveries)[j];
  }

  ghost predicate StillLost(q: Queue, q': Queue) {
    forall t :: t in q.lost ==> t in q'.lost && q'.lost[t] == q.lost[t]
  }

  lemma {:induction false} FirstIsNotLost(q: Queue)
    requires Ordered(q) && q.items != []
    ensures q.items[0].ticket !in q.lost
  {
    assert Line(q) == Entries(q.deliveries) + [q.items[0]] + (q.items[1..] + Waiting(q.offerers));
    IsSurvivor(q.arrivals, q.lost, Entries(q.deliveries), q.items[0], q.items[1..] + Waiting(q.offerers));
  }

  lemma {:induction false} DrainLosesNone(q: Queue, limit: nat)
    ensures Drained(q, limit).lost == q.lost
    decreases limit
  {
    if limit > 0 && q.items != [] {
      DrainLosesNone(Dequeued(q), limit - 1);
    }
  }

  lemma {:induction false} StepKeepsLost(q: Queue, action: Action)
    requires Good(q)
    ensures StillLost(q, Step(q, action))
  {
    match action
    case Offer(value) => OfferKeepsLost(q, value);
    case Drain(limit) => DrainLosesNone(q, limit);
    case LeaveOffering(w) => LeavingKeepsLost(q, w);
    case Stop => DetachingKeepsLost(q);
    case _ =>
  }

  lemma {:induction false} OfferKeepsLost(q: Queue, value: Item)
    requires Ordered(q)
    ensures StillLost(q, Offered(q, value))
  {
    if !q.closed {
      if q.takers != [] || HasRoom(q) {
        assert Offered(q, value).lost == q.lost;
      } else {
        FirstIsNotLost(q);
        PolicyKeepsLost(q.(arrivals := q.arrivals + [value]), Entry(|q.arrivals|, value));
      }
    }
  }

  lemma {:induction false} PolicyKeepsLost(q: Queue, e: Entry)
    requires q.items != [] && q.items[0].ticket !in q.lost && e.ticket !in q.lost
    ensures StillLost(q, Admitted(q, e))
  {
  }

  lemma {:induction false} LeavingKeepsLost(q: Queue, w: nat)
    requires OfferersWait(q)
    ensures StillLost(q, OffererAbandoned(q, w))
  {
  }

  lemma {:induction false} DetachingKeepsLost(q: Queue)
    requires OfferersWait(q)
    ensures StillLost(q, Detached(q))
  {
    RefusedTickets(q.lost, q.offerers);
  }

  /** A value that is lost is lost for good, and for the reason it was lost. */
  lemma {:induction false} LostForGood(q: Queue, actions: seq<Action>)
    requires Good(q)
    ensures StillLost(q, Run(q, actions))
    decreases |actions|
  {
    if actions != [] {
      var before := actions[..|actions| - 1];
      LostForGood(q, before);
      EveryRunIsGood(q, before);
      StepKeepsLost(Run(q, before), actions[|actions| - 1]);
    }
  }

  lemma {:induction false} LostIsNeverDelivered(q: Queue, t: nat, actions: seq<Action>, i: nat)
    requires Good(q) && t in q.lost && i < |Run(q, actions).deliveries|
    ensures Run(q, actions).deliveries[i].entry.ticket != t
  {
    var q' := Run(q, actions);
    LostForGood(q, actions);
    EveryRunIsGood(q, actions);
    EntryAt(q'.deliveries, i);
    SurvivorsRise(q'.arrivals, q'.lost);
    assert Line(q')[i] == Entries(q'.deliveries)[i];
  }

  /** An offer that is declined, or that reports interruption, is not delivered whatever happens
      afterwards. */
  lemma {:induction false} DeclinedIsNeverDelivered(q: Queue, value: Item, actions: seq<Action>, i: nat)
    requires Good(q) && OfferOutcome(q) == Declined && !q.closed
    requires i < |Run(Offered(q, value), actions).deliveries|
    ensures Run(Offered(q, value), actions).deliveries[i].entry.ticket != |q.arrivals|
  {
    StepKeepsGood(q, Offer(value));
    LostIsNeverDelivered(Offered(q, value), |q.arrivals|, actions, i);
  }

  lemma {:induction false} InterruptedIsNeverDelivered(q: Queue, w: nat, actions: seq<Action>, i: nat)
    requires Good(q) && w in q.leftOffering && i < |Run(q, actions).deliveries|
    ensures w in q.asked && Run(q, actions).deliveries[i].entry.ticket != q.asked[w].ticket
  {
    assert OffererAnswered(q, w);
    LostIsNeverDelivered(q, q.asked[w].ticket, actions, i);
  }

  // Accepted values -----------------------------------------------------------------------

  /** Delivered or queued: what an accepted offer promises. */
  ghost predicate Kept(q: Queue, e: Entry) {
    e in q.items || exists d :: d in q.deliveries && d.entry == e
  }

  lemma {:induction false} DequeueKeeps(q: Queue, e: Entry)
    requires Kept(q, e) && q.items != []
    ensures Kept(Dequeued(q), e)
  {
  }

  lemma {:induction false} DrainKeeps(q: Queue, limit: nat, e: Entry)
    requires Kept(q, e)
    ensures Kept(Drained(q, limit), e)
    decreases limit
  {
    if limit > 0 && q.items != [] {
      DequeueKeeps(q, e);
      DrainKeeps(Dequeued(q), limit - 1, e);
    }
  }

  lemma {:induction false} StepKeeps(q: Queue, action: Action, e: Entry)
    requires Good(q) && q.policy != DropOldest && Kept(q, e)
    ensures Kept(Step(q, action), e)
  {
    match action
    case Offer(value) =>
      var q' := Offered(q, value);
      assert forall x :: x in q.deliveries ==> x in q'.deliveries;
      assert forall x :: x in q.items ==> x in q'.items;
    case Take =>
      if q.items != [] {
        DequeueKeeps(q, e);
      }
    case Drain(limit) => DrainKeeps(q, limit, e);
    case _ =>
  }

  lemma {:induction false} PolicyNeverChanges(q: Queue, action: Action)
    ensures Step(q, action).policy == q.policy
  {
    match action
    case Drain(limit) => DrainKeepsPolicy(q, limit);
    case _ =>
  }

  lemma {:induction false} DrainKeepsPolicy(q: Queue, limit: nat)
    ensures Drained(q, limit).policy == q.policy
    decreases limit
  {
    if limit > 0 && q.items != [] {
      DrainKeepsPolicy(Dequeued(q), limit - 1);
    }
  }

  /** Unless the policy drops the oldest, an accepted value stays queued until it is delivered,
      through shutdown and every lost race. */
  lemma {:induction false} AcceptedIsKept(q: Queue, actions: seq<Action>, e: Entry)
    requires Good(q) && q.policy != DropOldest && Kept(q, e)
    ensures Kept(Run(q, actions), e) && Run(q, actions).policy == q.policy
    decreases |actions|
  {
    if actions != [] {
      var before := actions[..|actions| - 1];
      AcceptedIsKept(q, before, e);
      EveryRunIsGood(q, before);
      StepKeeps(Run(q, before), actions[|actions| - 1], e);
      PolicyNeverChanges(Run(q, before), actions[|actions| - 1]);
    }
  }

  /** An offer answered with acceptance, at once or by its waiter's channel, is kept. */
  lemma {:induction false} AcceptanceKeeps(q: Queue, value: Item)
    requires Good(q) && OfferOutcome(q) == Accepted
    ensures Kept(Offered(q, value), Entry(|q.arrivals|, value))
  {
  }

  lemma {:induction false} AdmissionKeeps(q: Queue, w: nat)
    requires Good(q) && w in q.admission && q.admission[w] == Holds(true)
    ensures w in q.asked && Kept(q, q.asked[w])
  {
    var e := q.asked[w];
    assert OffererAnswered(q, w);
    assert forall p :: p in q.offerers ==> Unanswered(q, p);
    NotAmongParked(q, w);
    Survives(q.arrivals, q.lost, e.ticket);
    if e in Waiting(q.offerers) {
      IsWaiting(q.offerers, e);
    } else if e !in q.items {
      IsDelivered(q.deliveries, e);
    }
  }

  lemma {:induction false} Survives(arrivals: seq<Item>, lost: map<nat, Fate>, t: nat)
    requires t < |arrivals| && t !in lost
    ensures Entry(t, arrivals[t]) in Survivors(arrivals, lost)
    decreases |arrivals|
  {
    if t < |arrivals| - 1 {
      Survives(arrivals[..|arrivals| - 1], lost, t);
    }
  }

  lemma {:induction false} IsWaiting(parked: seq<Parked>, e: Entry)
    requires e in Waiting(parked)
    ensures exists p :: p in parked && p.entry == e
  {
    if parked[0].entry == e {
      assert parked[0] in parked;
    } else {
      IsWaiting(parked[1..], e);
      var p :| p in parked[1..] && p.entry == e;
      assert p in parked;
    }
  }

  lemma {:induction false} IsDelivered(deliveries: seq<Delivery>, e: Entry)
    requires e in Entries(deliveries)
    ensures exists d :: d in deliveries && d.entry == e
    decreases |deliveries|
  {
    var last := deliveries[|deliveries| - 1];
    if last.entry == e {
      assert last in deliveries;
    } else {
      IsDelivered(deliveries[..|deliveries| - 1], e);
      var d :| d in deliveries[..|deliveries| - 1] && d.entry == e;
      assert d in deliveries;
    }
  }

  // Races ---------------------------------------------------------------------------------

  /** A waiter that finds itself no longer parked has its answer, or its channel is about to be
      closed: receiving from it does not block. */
  lemma {:induction false} LosingARaceIsAnswered(q: Queue, w: nat)
    requires Good(q) && w in q.ready && w !in q.takers && w !in q.leftTaking
    ensures q.ready[w].Holds? || q.ready[w].Shut? || (q.closed && w in q.detachedTakers)
  {
  }

  lemma {:induction false} LosingAnOfferRaceIsAnswered(q: Queue, w: nat)
    requires Good(q) && w in q.admission && IndexOf(q.offerers, w) == |q.offerers| && w !in q.leftOffering
    ensures w in q.asked
    ensures q.admission[w] == Holds(true) || q.admission[w].Shut? || (q.closed && Parked(w, q.asked[w]) in q.detachedOfferers)
  {
  }

  /** Shutdown's loops close every detached channel. */
  lemma {:induction false} ClosingEndsDetachment(q: Queue)
    ensures TakersClosed(q).detachedTakers == [] && TakersClosed(q).detachedOfferers == q.detachedOfferers
    ensures OfferersClosed(q).detachedOfferers == [] && OfferersClosed(q).detachedTakers == q.detachedTakers
    decreases |q.detachedTakers| + |q.detachedOfferers|
  {
    if q.detachedTakers != [] {
      ClosingEndsDetachment(TakerClosed(q));
    }
    if q.detachedOfferers != [] {
      ClosingEndsDetachment(OffererClosed(q));
    }
  }

  /** A taker that waited gets one value, and that value goes nowhere else. */
  lemma {:induction false} MessageIsTheDelivery(q: Queue, w: nat, e: Entry)
    requires Good(q) && w in q.ready
    ensures q.ready[w] == Holds(e) <==> Delivery(e, ToWaiter(w)) in q.deliveries
  {
  }

  // Batches -------------------------------------------------------------------------------

  /** One call's batch is what the next deliveries are, as many as it asked for or there are. */
  lemma {:induction false} BatchIsContiguous(q: Queue, limit: nat)
    requires Shape(q)
    ensures Entries(Drained(q, limit).deliveries) == Entries(q.deliveries) + Batch(q, limit)
    ensures |Batch(q, limit)| == if limit <= |q.items| + |q.offerers| then limit else |q.items| + |q.offerers|
    decreases limit
  {
    if limit > 0 && q.items != [] {
      DeliveredEntries(q.deliveries, Delivery(q.items[0], ToCaller));
      BatchIsContiguous(Dequeued(q), limit - 1);
      var batch := Batch(Dequeued(q), limit - 1);
      assert Entries(q.deliveries) + [q.items[0]] + batch == Entries(q.deliveries) + ([q.items[0]] + batch);
    }
  }
}
