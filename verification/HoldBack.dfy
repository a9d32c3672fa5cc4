/** The hold-back queue of the subscription channel: messages that arrive early wait until the gap before them
    closes. */
module HoldBack {
  import opened Words

  datatype Msg = Msg(id: uint32, openId: string, expireTime: int)

  /** The counter of the last delivered id, and the map of waiting messages. A lookup of a missing key inserts
      a null placeholder, here `None`. */
  datatype Queue = Queue(seqNo: uint32, held: map<uint32, Option<Msg>>)

  const NEW_QUEUE := Queue(0, map[])

  /** Ids for which the counter and the next lookup stay within 32 bits. */
  const MAX_ID: nat := 0xFFFF_FFFE

  // ---------------------------------------------------------------- reference: what has arrived

  /** All of 1..k have arrived. */
  ghost predicate Arrived(arrived: set<uint32>, k: nat) {
    forall i: uint32 :: 1 <= i <= k ==> i in arrived
  }

  /** `k` is the largest number such that 1..k have all arrived. */
  ghost predicate IsContiguous(arrived: set<uint32>, k: nat) {
    k + 1 < TWO_32 && Arrived(arrived, k) && k + 1 !in arrived
  }

  ghost function WaitingIds(held: map<uint32, Option<Msg>>): set<uint32> {
    set id | id in held && held[id].Some?
  }

  predicate Bounded(q: Queue) {
    q.seqNo <= MAX_ID && forall id <- q.held :: q.held[id].Some? ==> id <= MAX_ID
  }

  // ---------------------------------------------------------------- the drain loop

  /** The state after the loop, and the messages it delivered. */
  datatype Drained = Drained(queue: Queue, delivered: seq<Msg>)

  /** Takes waiting messages off while the next id is there; the lookup that fails leaves a placeholder. */
  function Drain(q: Queue): (d: Drained)
    requires Bounded(q)
    ensures Bounded(d.queue) && d.queue.seqNo >= q.seqNo
    ensures forall id <- d.queue.held :: d.queue.held[id].Some? ==> id in q.held && q.held[id] == d.queue.held[id]
    decreases |WaitingIds(q.held)|
  {
    if q.held == map[] then Drained(q, [])
    else
      var next := q.seqNo + 1;
      if next in q.held && q.held[next].Some? then
        assert WaitingIds(q.held - {next}) == WaitingIds(q.held) - {next};
        var d := Drain(Queue(next, q.held - {next}));
        Drained(d.queue, [q.held[next].value] + d.delivered)
      else
        Drained(q.(held := q.held[next := None]), [])
  }

  /** One arriving message: delivered at once with whatever waited behind it, kept for later, or dropped as a repeat. */
  function OnMessage(q: Queue, m: Msg): (d: Drained)
    requires Bounded(q) && m.id <= MAX_ID
    ensures Bounded(d.queue)
    ensures forall id <- d.queue.held :: d.queue.held[id].Some? ==>
              d.queue.held[id].value == m || (id in q.held && q.held[id] == d.queue.held[id])
  {
    if q.seqNo + 1 == m.id then
      var d := Drain(q.(seqNo := m.id));
      Drained(d.queue, [m] + d.delivered)
    else if q.seqNo + 1 < m.id then Drained(q.(held := q.held[m.id := Some(m)]), [])
    else Drained(q, [])
  }

  /** The queue in the middle of a drain: all that arrived up to the counter is delivered, all that arrived past it
      waits. */
  ghost predicate Settling(q: Queue, arrived: set<uint32>) {
    && Arrived(arrived, q.seqNo)
    && (forall id <- q.held :: q.held[id].Some? ==> q.held[id].value.id == id)
    && (forall id <- q.held :: q.held[id].None? ==> id <= q.seqNo + 1)
    && (forall id: uint32 :: (id in q.held && q.held[id].Some?) <==> (id in arrived && id > q.seqNo))
  }

  /** Between messages: the counter is maximal. */
  ghost predicate HoldsExactly(q: Queue, arrived: set<uint32>) {
    Settling(q, arrived) && IsContiguous(arrived, q.seqNo)
  }

  /** The messages delivered carry the ids just after `from`, in order, up to `to`. */
  ghost predicate DeliversFrom(from: nat, delivered: seq<Msg>, to: nat) {
    to == from + |delivered| && forall i :: 0 <= i < |delivered| ==> delivered[i].id == from + 1 + i
  }

  /** Taking the next message off keeps the queue settling. */
  lemma TakeNext(q: Queue, arrived: set<uint32>, next: uint32)
    requires Bounded(q) && Settling(q, arrived) && next == q.seqNo + 1 && next in q.held && q.held[next].Some?
    ensures var q1 := Queue(next, q.held - {next});
            Bounded(q1) && Settling(q1, arrived) && WaitingIds(q1.held) == WaitingIds(q.held) - {next}
  {
  }

  lemma StopAtGap(q: Queue, arrived: set<uint32>)
    requires Bounded(q) && Settling(q, arrived)
    requires var next := q.seqNo + 1; !(next in q.held && q.held[next].Some?)
    ensures HoldsExactly(q, arrived) && HoldsExactly(q.(held := q.held[q.seqNo + 1 := None]), arrived)
  {
  }

  ghost predicate TakenFrom(held: map<uint32, Option<Msg>>, delivered: seq<Msg>) {
    forall i :: 0 <= i < |delivered| ==> delivered[i].id in held && held[delivered[i].id] == Some(delivered[i])
  }

  lemma {:induction false} DrainSettles(q: Queue, arrived: set<uint32>)
    requires Bounded(q) && Settling(q, arrived)
    ensures var d := Drain(q);
            && HoldsExactly(d.queue, arrived)
            && DeliversFrom(q.seqNo, d.delivered, d.queue.seqNo) && TakenFrom(q.held, d.delivered)
    decreases |WaitingIds(q.held)|
  {
    var next := q.seqNo + 1;
    if next in q.held && q.held[next].Some? {
      TakeNext(q, arrived, next);
      var q1 := Queue(next, q.held - {next});
      DrainUnfolds(q, next);
      DrainSettles(q1, arrived);
      ConsDelivery(q, next, Drain(q1));
    } else {
      StopAtGap(q, arrived);
      if q.held != map[] { DrainStops(q, next); }
    }
  }

  lemma ConsDelivery(q: Queue, next: uint32, d: Drained)
    requires next == q.seqNo + 1 && next in q.held && q.held[next].Some? && q.held[next].value.id == next
    requires DeliversFrom(next, d.delivered, d.queue.seqNo) && TakenFrom(q.held - {next}, d.delivered)
    ensures var all := [q.held[next].value] + d.delivered;
            DeliversFrom(q.seqNo, all, d.queue.seqNo) && TakenFrom(q.held, all)
  {
    var all := [q.held[next].value] + d.delivered;
    assert forall i :: 1 <= i < |all| ==> all[i] == d.delivered[i - 1];
  }

  lemma MessageSettles(q: Queue, arrived: set<uint32>, m: Msg)
    requires Bounded(q) && HoldsExactly(q, arrived) && m.id <= MAX_ID
    ensures var d := OnMessage(q, m);
            && HoldsExactly(d.queue, arrived + {m.id})
            && DeliversFrom(q.seqNo, d.delivered, d.queue.seqNo)
            && forall x <- d.delivered :: x == m || (x.id in q.held && q.held[x.id] == Some(x))
  {
    if q.seqNo + 1 == m.id {
      DrainSettles(q.(seqNo := m.id), arrived + {m.id});
    }
  }

  // ---------------------------------------------------------------- any arrival sequence

  function OnMessages(arrivals: seq<Msg>): (d: Drained)
    requires forall m <- arrivals :: m.id <= MAX_ID
    ensures Bounded(d.queue)
  {
    if arrivals == [] then Drained(NEW_QUEUE, [])
    else
      var before := OnMessages(arrivals[..|arrivals| - 1]);
      var d := OnMessage(before.queue, arrivals[|arrivals| - 1]);
      Drained(d.queue, before.delivered + d.delivered)
  }

  function Ids(arrivals: seq<Msg>): set<uint32> {
    set m | m in arrivals :: m.id
  }

  /** Refinement: after any arrival sequence, reordered and duplicated at will, the counter is the largest k such that
      1..k have all arrived, the deliveries are messages 1..k in order and once each, each one a message that arrived,
      and what waits is exactly what arrived beyond. */
  lemma {:induction false} HoldBackRefines(arrivals: seq<Msg>)
    requires forall m <- arrivals :: m.id <= MAX_ID
    ensures var d := OnMessages(arrivals);
            && HoldsExactly(d.queue, Ids(arrivals))
            && DeliversFrom(0, d.delivered, d.queue.seqNo)
            && (forall m <- d.delivered :: m in arrivals)
            && forall id <- d.queue.held :: d.queue.held[id].Some? ==> d.queue.held[id].value in arrivals
  {
    if arrivals != [] {
      var front, m := arrivals[..|arrivals| - 1], arrivals[|arrivals| - 1];
      HoldBackRefines(front);
      var before := OnMessages(front);
      assert arrivals == front + [m];
      assert Ids(arrivals) == Ids(front) + {m.id};
      MessageSettles(before.queue, Ids(front), m);
    }
  }

  lemma ContiguousUnique(arrived: set<uint32>, j: nat, k: nat)
    requires IsContiguous(arrived, j) && IsContiguous(arrived, k)
    ensures j == k
  {
  }

  /** The counter and the waiting ids depend only on which ids arrived, not on order or repetition. */
  lemma OrderIrrelevant(a: seq<Msg>, b: seq<Msg>)
    requires (forall m <- a :: m.id <= MAX_ID) && (forall m <- b :: m.id <= MAX_ID) && Ids(a) == Ids(b)
    ensures OnMessages(a).queue.seqNo == OnMessages(b).queue.seqNo
    ensures WaitingIds(OnMessages(a).queue.held) == WaitingIds(OnMessages(b).queue.held)
  {
    HoldBackRefines(a);
    HoldBackRefines(b);
    ContiguousUnique(Ids(a), OnMessages(a).queue.seqNo, OnMessages(b).queue.seqNo);
  }

  lemma {:induction false} DrainUnfolds(q: Queue, next: uint32)
    requires Bounded(q) && next == q.seqNo + 1 && next in q.held && q.held[next].Some?
    ensures var q1 := Queue(next, q.held - {next});
            && Bounded(q1) && |WaitingIds(q1.held)| < |WaitingIds(q.held)|
            && Drain(q) == Drained(Drain(q1).queue, [q.held[next].value] + Drain(q1).delivered)
  {
    assert WaitingIds(q.held - {next}) == WaitingIds(q.held) - {next};
  }

  lemma {:induction false} DrainStops(q: Queue, next: uint32)
    requires Bounded(q) && q.held != map[] && next == q.seqNo + 1 && !(next in q.held && q.held[next].Some?)
    ensures Drain(q) == Drained(q.(held := q.held[next := None]), [])
  {
  }

  /** What one message does: a due one is delivered first and what waits behind it next; an early one takes the place of
      whatever waited under its id and changes nothing else; a repeat changes nothing. */
  lemma MessageMeans(q: Queue, m: Msg)
    requires Bounded(q) && m.id <= MAX_ID
    ensures var d := OnMessage(q, m);
            && (m.id == q.seqNo + 1 ==> d.delivered != [] && d.delivered[0] == m)
            && (m.id > q.seqNo + 1 ==>
                  && d.delivered == [] && d.queue.seqNo == q.seqNo && d.queue.held.Keys == q.held.Keys + {m.id}
                  && d.queue.held[m.id] == Some(m)
                  && forall id <- q.held :: id != m.id ==> d.queue.held[id] == q.held[id])
            && (m.id <= q.seqNo ==> d == Drained(q, []))
  {
  }

  /** The lookups of a drain leave a trace: unless the queue ran empty, the first missing id has a null placeholder. */
  lemma {:induction false} DrainLeavesPlaceholder(q: Queue)
    requires Bounded(q)
    ensures var d := Drain(q).queue; d.held == map[] || (d.seqNo + 1 in d.held && d.held[d.seqNo + 1].None?)
    decreases |WaitingIds(q.held)|
  {
    var next := q.seqNo + 1;
    if q.held != map[] {
      if next in q.held && q.held[next].Some? {
        DrainUnfolds(q, next);
        DrainLeavesPlaceholder(Queue(next, q.held - {next}));
      } else {
        DrainStops(q, next);
      }
    }
  }

  // ---------------------------------------------------------------- the channel object

  class Channel {
    var seqNo: uint32
    var held: map<uint32, Option<Msg>>

    function State(): Queue
      reads this
    {
      Queue(seqNo, held)
    }

    constructor ()
      ensures State() == NEW_QUEUE
    {
      seqNo, held := 0, map[];
    }

    /** A lookup through the map's index operator: a missing key is inserted with a null message. */
    method MsgBy(id: uint32) returns (m: Option<Msg>)
      modifies this`held
      ensures held == if id in old(held) then old(held) else old(held)[id := None]
      ensures m == held[id]
    {
      if id !in held { held := held[id := None]; }
      m := held[id];
    }

    /** The drain loop ends although its lookups can grow the map: each round removes a non-null message. */
    method DrainReady() returns (delivered: seq<Msg>)
      requires Bounded(State())
      modifies this
      ensures Drained(State(), delivered) == Drain(old(State()))
    {
      delivered := [];
      var ready := seqNo;
      while held != map[]
        invariant ready == seqNo && Bounded(State())
        invariant Drain(State()).queue == Drain(old(State())).queue
        invariant delivered + Drain(State()).delivered == Drain(old(State())).delivered
        decreases |WaitingIds(held)|
      {
        ready := ready + 1;
        ghost var before := State();
        var m := MsgBy(ready);
        if m.Some? {
          DrainUnfolds(before, ready);
          Associate(delivered, [m.value], Drain(Queue(ready, held - {ready})).delivered);
          held := held - {ready};
          seqNo := ready;
          delivered := delivered + [m.value];
        } else {
          DrainStops(before, ready);
          return;
        }
      }
    }

    /** The body of the subscription callback once the message is split. */
    method OnSubscribed(m: Msg) returns (delivered: seq<Msg>)
      requires Bounded(State()) && m.id <= MAX_ID
      modifies this
      ensures Drained(State(), delivered) == OnMessage(old(State()), m)
    {
      delivered := [];
      if seqNo + 1 == m.id {
        seqNo := seqNo + 1;
        var more := DrainReady();
        delivered := [m] + more;
        if held == map[] { return; }
      }
      if seqNo + 1 < m.id {
        held := held[m.id := Some(m)];
      }
    }
  }
}
