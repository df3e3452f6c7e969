/** A work queue (effect/internal/lifetime/queue.go, queue_waiter.go, queue_policy.go): what one
    section under its lock does to it. Every value is kept with the number of its arrival, which
    no operation reads. */
module QueueSections {
  type Item(!new, ==, 0)

  datatype Entry = Entry(ticket: nat, value: Item)

  /** A waiter's channel: room for one message, or closed. A send or close it has no room for
      would block or panic. */
  datatype Mailbox<+T> = Empty | Holds(value: T) | Shut | Misused

  datatype Policy = NeverFull | BackPressure | DropNewest | DropOldest

  datatype Parked = Parked(waiter: nat, entry: Entry)

  datatype Recipient = ToCaller | ToWaiter(waiter: nat)
  datatype Delivery = Delivery(entry: Entry, to: Recipient)

  /** Why an arrived value never comes out. */
  datatype Fate = Refused | Dropped | Abandoned

  /** The fields of a queue, its waiters' channels, the waiters Shutdown has detached and not yet
      closed, and the record of everything so far. A capacity of 0 is no bound. */
  datatype Queue = Queue(
    capacity: nat,
    policy: Policy,
    items: seq<Entry>,
    takers: seq<nat>,
    offerers: seq<Parked>,
    closed: bool,
    ready: map<nat, Mailbox<Entry>>,
    admission: map<nat, Mailbox<bool>>,
    detachedTakers: seq<nat>,
    detachedOfferers: seq<Parked>,
    nextWaiter: nat,
    arrivals: seq<Item>,
    deliveries: seq<Delivery>,
    lost: map<nat, Fate>,
    leftTaking: set<nat>,
    leftOffering: set<nat>,
    asked: map<nat, Entry>)

  function Bounded(capacity: int, policy: Policy): Queue {
    Empty(if capacity < 1 then 1 else capacity, policy)
  }

  function Unbounded(): Queue {
    Empty(0, NeverFull)
  }

  function Empty(capacity: nat, policy: Policy): Queue {
    Queue(capacity, policy, [], [], [], false, map[], map[], [], [], 0, [], [], map[], {}, {}, map[])
  }

  function Send<T>(box: Mailbox<T>, v: T): Mailbox<T> {
    if box == Mailbox.Empty then Holds(v) else Misused
  }

  function CloseBox<T>(box: Mailbox<T>): Mailbox<T> {
    if box == Mailbox.Empty then Shut else Misused
  }

  function BoxOf<T>(boxes: map<nat, Mailbox<T>>, waiter: nat): Mailbox<T> {
    if waiter in boxes then boxes[waiter] else Misused
  }

  // Offering ------------------------------------------------------------------------------

  /** Gives the value to the taker that has waited longest. */
  function HandedOff(q: Queue, e: Entry): Queue
    requires q.takers != []
  {
    var w := q.takers[0];
    q.(takers := q.takers[1..], ready := q.ready[w := Send(BoxOf(q.ready, w), e)], deliveries := q.deliveries + [Delivery(e, ToWaiter(w))])
  }

  predicate HasRoom(q: Queue) {
    q.capacity == 0 || |q.items| < q.capacity
  }

  /** What the policy does with a value there is no room for. */
  function Admitted(q: Queue, e: Entry): Queue
    requires q.items != []
  {
    match q.policy
    case BackPressure =>
      q.(offerers := q.offerers + [Parked(q.nextWaiter, e)], admission := q.admission[q.nextWaiter := Mailbox.Empty],
         asked := q.asked[q.nextWaiter := e], nextWaiter := q.nextWaiter + 1)
    case DropOldest =>
      q.(items := q.items[1..] + [e], lost := q.lost[q.items[0].ticket := Dropped])
    case _ => q.(lost := q.lost[e.ticket := Dropped])
  }

  function Offered(q: Queue, value: Item): Queue {
    if q.closed then q
    else
      var e := Entry(|q.arrivals|, value);
      var arrived := q.(arrivals := q.arrivals + [value]);
      if q.takers != [] then HandedOff(arrived, e)
      else if HasRoom(q) then arrived.(items := q.items + [e])
      else Admitted(arrived, e)
  }

  /** What the caller of an offer knows once the lock is released. */
  datatype OfferResult = Accepted | Declined | AwaitsRoom(waiter: nat)

  function OfferOutcome(q: Queue): OfferResult {
    if q.closed then Declined
    else if q.takers != [] || HasRoom(q) then Accepted
    else match q.policy
      case BackPressure => AwaitsRoom(q.nextWaiter)
      case DropOldest => Accepted
      case _ => Declined
  }

  // Taking --------------------------------------------------------------------------------

  datatype TakeResult = Took(entry: Entry) | Finished | AwaitsValue(waiter: nat)

  function TakeOutcome(q: Queue): TakeResult {
    if q.items != [] then Took(q.items[0]) else if q.closed then Finished else AwaitsValue(q.nextWaiter)
  }

  /** The oldest values, as one call takes them. */
  function Batch(q: Queue, limit: nat): seq<Entry>
    decreases limit
  {
    if limit == 0 || q.items == [] then [] else [q.items[0]] + Batch(Dequeued(q), limit - 1)
  }

  /** Lets the offerer that has waited longest into a freed slot. */
  function AdmittedOne(q: Queue): Queue {
    if q.offerers == [] then q
    else
      var w := q.offerers[0].waiter;
      q.(offerers := q.offerers[1..], items := q.items + [q.offerers[0].entry], admission := q.admission[w := Send(BoxOf(q.admission, w), true)])
  }

  function Dequeued(q: Queue): Queue
    requires q.items != []
  {
    AdmittedOne(q.(items := q.items[1..], deliveries := q.deliveries + [Delivery(q.items[0], ToCaller)]))
  }

  function Taken(q: Queue): Queue {
    if q.items != [] then Dequeued(q)
    else if q.closed then q
    else q.(takers := q.takers + [q.nextWaiter], ready := q.ready[q.nextWaiter := Mailbox.Empty], nextWaiter := q.nextWaiter + 1)
  }

  function Drained(q: Queue, limit: nat): Queue
    decreases limit
  {
    if limit == 0 || q.items == [] then q else Drained(Dequeued(q), limit - 1)
  }

  // Leaving -------------------------------------------------------------------------------

  function WithoutTaker(takers: seq<nat>, w: nat): seq<nat> {
    if takers == [] then []
    else if takers[0] == w then takers[1..]
    else [takers[0]] + WithoutTaker(takers[1..], w)
  }

  function IndexOf(offerers: seq<Parked>, w: nat): (i: nat)
    ensures i <= |offerers| && (i < |offerers| ==> offerers[i].waiter == w)
    ensures forall j :: 0 <= j < i ==> offerers[j].waiter != w
  {
    if offerers == [] || offerers[0].waiter == w then 0 else 1 + IndexOf(offerers[1..], w)
  }

  function TakerAbandoned(q: Queue, w: nat): Queue {
    if w in q.takers then q.(takers := WithoutTaker(q.takers, w), leftTaking := q.leftTaking + {w}) else q
  }

  function OffererAbandoned(q: Queue, w: nat): Queue {
    var i := IndexOf(q.offerers, w);
    if i == |q.offerers| then q
    else q.(offerers := q.offerers[..i] + q.offerers[i + 1..], lost := q.lost[q.offerers[i].entry.ticket := Abandoned],
            leftOffering := q.leftOffering + {w})
  }

  // Shutdown ------------------------------------------------------------------------------

  function AllRefused(lost: map<nat, Fate>, parked: seq<Parked>): map<nat, Fate>
    decreases |parked|
  {
    if parked == [] then lost
    else AllRefused(lost[parked[|parked| - 1].entry.ticket := Refused], parked[..|parked| - 1])
  }

  /** Under the lock: nothing is accepted any more, and everyone parked is detached. */
  function Detached(q: Queue): Queue {
    if q.closed then q
    else q.(closed := true, takers := [], offerers := [], detachedTakers := q.takers, detachedOfferers := q.offerers,
            lost := AllRefused(q.lost, q.offerers))
  }

  /** After the lock is released: the next detached waiter's channel is closed. */
  function TakerClosed(q: Queue): Queue {
    if q.detachedTakers == [] then q
    else
      var w := q.detachedTakers[0];
      q.(detachedTakers := q.detachedTakers[1..], ready := q.ready[w := CloseBox(BoxOf(q.ready, w))])
  }

  function OffererClosed(q: Queue): Queue {
    if q.detachedOfferers == [] then q
    else
      var w := q.detachedOfferers[0].waiter;
      q.(detachedOfferers := q.detachedOfferers[1..], admission := q.admission[w := CloseBox(BoxOf(q.admission, w))])
  }

  function TakersClosed(q: Queue): Queue
    decreases |q.detachedTakers|
  {
    if q.detachedTakers == [] then q else TakersClosed(TakerClosed(q))
  }

  function OfferersClosed(q: Queue): Queue
    decreases |q.detachedOfferers|
  {
    if q.detachedOfferers == [] then q else OfferersClosed(OffererClosed(q))
  }
}

/** The queue itself: the fields its methods update, and beside them the record the sections are
    specified by. */
module Queues {
  import opened QueueSections

  class WorkQueue {
    const capacity: nat
    const policy: Policy
    var items: seq<Entry>
    var takers: seq<nat>
    var offerers: seq<Parked>
    var closed: bool
    var ready: map<nat, Mailbox<Entry>>
    var admission: map<nat, Mailbox<bool>>
    var nextWaiter: nat
    ghost var detachedTakers: seq<nat>
    ghost var detachedOfferers: seq<Parked>
    ghost var arrivals: seq<Item>
    ghost var deliveries: seq<Delivery>
    ghost var lost: map<nat, Fate>
    ghost var leftTaking: set<nat>
    ghost var leftOffering: set<nat>
    ghost var asked: map<nat, Entry>
    var arrived: nat

    ghost function View(): Queue
      reads this
    {
      Queue(capacity, policy, items, takers, offerers, closed, ready, admission, detachedTakers, detachedOfferers,
            nextWaiter, arrivals, deliveries, lost, leftTaking, leftOffering, asked)
    }

    ghost predicate Valid()
      reads this
    {
      && arrived == |arrivals|
      && (policy == NeverFull <==> capacity == 0)
    }

    constructor Bounded(limit: int, full: Policy)
      requires full != NeverFull
      ensures Valid() && View() == QueueSections.Bounded(limit, full)
    {
      capacity := if limit < 1 then 1 else limit;
      policy := full;
      items, takers, offerers, closed, ready, admission, nextWaiter := [], [], [], false, map[], map[], 0;
      detachedTakers, detachedOfferers, arrivals, deliveries, arrived := [], [], [], [], 0;
      lost, leftTaking, leftOffering, asked := map[], {}, {}, map[];
    }

    constructor Unbounded()
      ensures Valid() && View() == QueueSections.Unbounded()
    {
      capacity, policy := 0, NeverFull;
      items, takers, offerers, closed, ready, admission, nextWaiter := [], [], [], false, map[], map[], 0;
      detachedTakers, detachedOfferers, arrivals, deliveries, arrived := [], [], [], [], 0;
      lost, leftTaking, leftOffering, asked := map[], {}, {}, map[];
    }

    method Offer(value: Item) returns (result: OfferResult)
      requires Valid()
      modifies this
      ensures Valid() && View() == Offered(old(View()), value)
      ensures result == OfferOutcome(old(View()))
    {
      if closed {
        return Declined;
      }
      var entry := Entry(arrived, value);
      arrivals, arrived := arrivals + [value], arrived + 1;
      var handed := HandOff(entry);
      if handed {
        return Accepted;
      }
      var queued := Enqueue(entry);
      if queued {
        return Accepted;
      }
      result := Admit(entry);
    }

    method HandOff(entry: Entry) returns (handed: bool)
      requires Valid()
      modifies this
      ensures Valid() && handed == (old(takers) != [])
      ensures View() == if handed then HandedOff(old(View()), entry) else old(View())
    {
      if takers == [] {
        return false;
      }
      var taker := takers[0];
      takers := takers[1..];
      ready := ready[taker := Send(BoxOf(ready, taker), entry)];
      deliveries := deliveries + [Delivery(entry, ToWaiter(taker))];
      return true;
    }

    method Enqueue(entry: Entry) returns (queued: bool)
      requires Valid()
      modifies this
      ensures Valid() && queued == HasRoom(old(View()))
      ensures View() == if queued then old(View()).(items := old(items) + [entry]) else old(View())
    {
      if capacity != 0 && |items| >= capacity {
        return false;
      }
      items := items + [entry];
      return true;
    }

    /** The three policies of a full queue. */
    method Admit(entry: Entry) returns (result: OfferResult)
      requires Valid() && !HasRoom(View())
      modifies this
      ensures Valid() && View() == Admitted(old(View()), entry)
      ensures result == match policy
                        case BackPressure => AwaitsRoom(old(nextWaiter))
                        case DropOldest => Accepted
                        case _ => Declined
    {
      if policy == BackPressure {
        result := AwaitsRoom(nextWaiter);
        offerers := offerers + [Parked(nextWaiter, entry)];
        admission := admission[nextWaiter := Mailbox.Empty];
        asked := asked[nextWaiter := entry];
        nextWaiter := nextWaiter + 1;
      } else if policy == DropOldest {
        result := Accepted;
        lost := lost[items[0].ticket := Dropped];
        items := items[1..] + [entry];
      } else {
        result := Declined;
        lost := lost[entry.ticket := Dropped];
      }
    }

    method Take() returns (result: TakeResult)
      requires Valid()
      modifies this
      ensures Valid() && View() == Taken(old(View()))
      ensures result == TakeOutcome(old(View()))
    {
      var available, entry := Dequeue();
      if available {
        return Took(entry);
      }
      if closed {
        return Finished;
      }
      result := AwaitsValue(nextWaiter);
      takers := takers + [nextWaiter];
      ready := ready[nextWaiter := Mailbox.Empty];
      nextWaiter := nextWaiter + 1;
    }

    method Dequeue() returns (available: bool, entry: Entry)
      requires Valid()
      modifies this
      ensures Valid() && available == (old(items) != [])
      ensures available ==> entry == old(items[0])
      ensures View() == if available then Dequeued(old(View())) else old(View())
    {
      if items == [] {
        available := false;
        entry := *;
        return;
      }
      available, entry := true, items[0];
      items := items[1..];
      deliveries := deliveries + [Delivery(entry, ToCaller)];
      AdmitOneOfferer();
    }

    method AdmitOneOfferer()
      requires Valid()
      modifies this
      ensures Valid() && View() == AdmittedOne(old(View()))
    {
      if offerers == [] {
        return;
      }
      var offerer := offerers[0];
      offerers := offerers[1..];
      items := items + [offerer.entry];
      admission := admission[offerer.waiter := Send(BoxOf(admission, offerer.waiter), true)];
    }

    method TakeAvailable(limit: int) returns (batch: seq<Entry>)
      requires Valid()
      modifies this
      ensures Valid() && View() == if limit < 1 then old(View()) else Drained(old(View()), limit)
      ensures batch == if limit < 1 then [] else Batch(old(View()), limit)
    {
      if limit < 1 {
        return [];
      }
      batch := DrainUpTo(limit, []);
    }

    method DrainUpTo(limit: nat, before: seq<Entry>) returns (batch: seq<Entry>)
      requires Valid() && |before| <= limit
      modifies this
      ensures Valid() && View() == Drained(old(View()), limit - |before|)
      ensures batch == before + Batch(old(View()), limit - |before|)
    {
      batch := before;
      while |batch| < limit
        invariant Valid() && |batch| <= limit
        invariant Drained(View(), limit - |batch|) == Drained(old(View()), limit - |before|)
        invariant batch + Batch(View(), limit - |batch|) == before + Batch(old(View()), limit - |before|)
        decreases limit - |batch|
      {
        ghost var q := View();
        var available, entry := Dequeue();
        if !available {
          break;
        }
        assert batch + ([entry] + Batch(View(), limit - |batch| - 1)) == batch + [entry] + Batch(View(), limit - |batch| - 1);
        batch := batch + [entry];
      }
    }

    /** Whether the waiter was still parked: if not, its message is there or its channel is being
        closed. */
    method AbandonTaker(waiter: nat) returns (left: bool)
      requires Valid()
      modifies this
      ensures Valid() && View() == TakerAbandoned(old(View()), waiter)
      ensures left == (waiter in old(takers))
    {
      for index := 0 to |takers|
        invariant Valid() && View() == old(View())
        invariant waiter !in takers[..index]
      {
        if takers[index] == waiter {
          WithoutFirst(takers, index, waiter);
          takers := takers[..index] + takers[index + 1..];
          leftTaking := leftTaking + {waiter};
          return true;
        }
      }
      return false;
    }

    method AbandonOfferer(waiter: nat) returns (left: bool)
      requires Valid()
      modifies this
      ensures Valid() && View() == OffererAbandoned(old(View()), waiter)
      ensures left == (IndexOf(old(offerers), waiter) < |old(offerers)|)
    {
      for index := 0 to |offerers|
        invariant Valid() && View() == old(View())
        invariant forall j :: 0 <= j < index ==> offerers[j].waiter != waiter
      {
        if offerers[index].waiter == waiter {
          assert IndexOf(offerers, waiter) == index;
          lost := lost[offerers[index].entry.ticket := Abandoned];
          offerers := offerers[..index] + offerers[index + 1..];
          leftOffering := leftOffering + {waiter};
          return true;
        }
      }
      return false;
    }

    /** The section under the lock, then the two loops after it, with nobody in between. */
    method Shutdown()
      requires Valid() && detachedTakers == [] && detachedOfferers == []
      modifies this
      ensures Valid()
      ensures View() == if old(closed) then old(View()) else OfferersClosed(TakersClosed(Detached(old(View()))))
    {
      if !closed {
        var parkedTakers, parkedOfferers := Detach();
        CloseTakers(parkedTakers);
        CloseOfferers(parkedOfferers);
      }
    }

    method Detach() returns (parkedTakers: seq<nat>, parkedOfferers: seq<Parked>)
      requires Valid() && !closed
      modifies this
      ensures Valid() && View() == Detached(old(View()))
      ensures detachedTakers == parkedTakers && detachedOfferers == parkedOfferers
    {
      closed := true;
      parkedTakers, parkedOfferers := takers, offerers;
      takers, offerers := [], [];
      lost := AllRefused(lost, parkedOfferers);
      detachedTakers, detachedOfferers := parkedTakers, parkedOfferers;
    }

    method CloseTakers(parked: seq<nat>)
      requires Valid() && detachedTakers == parked
      modifies this
      ensures Valid() && View() == TakersClosed(old(View())) && detachedOfferers == old(detachedOfferers)
    {
      for index := 0 to |parked|
        invariant Valid() && detachedTakers == parked[index..] && detachedOfferers == old(detachedOfferers)
        invariant TakersClosed(View()) == TakersClosed(old(View()))
      {
        ghost var q := View();
        detachedTakers := detachedTakers[1..];
        ready := ready[parked[index] := CloseBox(BoxOf(ready, parked[index]))];
        assert View() == TakerClosed(q);
      }
    }

    method CloseOfferers(parked: seq<Parked>)
      requires Valid() && detachedOfferers == parked
      modifies this
      ensures Valid() && View() == OfferersClosed(old(View()))
    {
      for index := 0 to |parked|
        invariant Valid() && detachedOfferers == parked[index..]
        invariant OfferersClosed(View()) == OfferersClosed(old(View()))
      {
        ghost var q := View();
        detachedOfferers := detachedOfferers[1..];
        admission := admission[parked[index].waiter := CloseBox(BoxOf(admission, parked[index].waiter))];
        assert View() == OffererClosed(q);
      }
    }
  }

  lemma {:induction false} WithoutFirst(takers: seq<nat>, i: nat, w: nat)
    requires i < |takers| && takers[i] == w && w !in takers[..i]
    ensures WithoutTaker(takers, w) == takers[..i] + takers[i + 1..]
  {
    if i > 0 {
      assert takers[0] in takers[..i];
      assert takers[1..][..i - 1] == takers[..i][1..];
      WithoutFirst(takers[1..], i - 1, w);
      assert [takers[0]] + takers[1..][..i - 1] == takers[..i];
      assert takers[1..][i..] == takers[i + 1..];
    }
  }
}
