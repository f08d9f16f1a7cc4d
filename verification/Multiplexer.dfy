/** The UART publish/subscribe multiplexer of `EphemeralSerialClient`: one receiver, many queues. */
module Multiplexer {
  import opened Sequences

  type Chunk = seq<byte>

  const DEFAULT_CAPACITY := 2048

  /** What can happen to one queue. `Offer` is the receiver's `put_nowait` while the queue is subscribed. */
  datatype QueueOp = Offer(chunk: Chunk) | Take | Flush

  /** `maxsize` 0 is unbounded. Only the default queue makes room by dropping its oldest chunk. */
  datatype Kind = Kind(maxsize: nat, dropOldest: bool)

  predicate Full(k: Kind, items: seq<Chunk>) {
    k.maxsize > 0 && |items| >= k.maxsize
  }

  function Step(k: Kind, items: seq<Chunk>, op: QueueOp): seq<Chunk> {
    match op
    case Offer(c) => if !Full(k, items) then items + [c] else if k.dropOldest then items[1..] + [c] else items
    case Take => if items == [] then [] else items[1..]
    case Flush => []
  }

  function Items(k: Kind, ops: seq<QueueOp>): seq<Chunk> {
    if ops == [] then [] else Step(k, Items(k, ops[..|ops| - 1]), ops[|ops| - 1])
  }

  /** What was published to the queue since the last flush. */
  function OfferedSinceFlush(ops: seq<QueueOp>): seq<Chunk> {
    if ops == [] then []
    else match ops[|ops| - 1]
      case Offer(c) => OfferedSinceFlush(ops[..|ops| - 1]) + [c]
      case Take => OfferedSinceFlush(ops[..|ops| - 1])
      case Flush => []
  }

  /** What the reader got out of the queue since the last flush. */
  function GotSinceFlush(k: Kind, ops: seq<QueueOp>): seq<Chunk> {
    if ops == [] then []
    else
      var init := ops[..|ops| - 1];
      match ops[|ops| - 1]
      case Offer(_) => GotSinceFlush(k, init)
      case Take => GotSinceFlush(k, init) + (if Items(k, init) == [] then [] else [Items(k, init)[0]])
      case Flush => []
  }

  predicate NoTake(ops: seq<QueueOp>) {
    forall i :: 0 <= i < |ops| ==> !ops[i].Take?
  }

  lemma OpsSnoc(k: Kind, ops: seq<QueueOp>, op: QueueOp)
    ensures Items(k, ops + [op]) == Step(k, Items(k, ops), op)
    ensures OfferedSinceFlush(ops + [op]) ==
            match op { case Offer(c) => OfferedSinceFlush(ops) + [c] case Take => OfferedSinceFlush(ops) case Flush => [] }
  {
    assert (ops + [op])[..|ops|] == ops;
  }

  /** The end of a chunk: a reader got it, or a flush threw it away while it waited. */
  datatype Fate = Got(chunk: Chunk) | Flushed(chunk: Chunk)

  function AllFlushed(items: seq<Chunk>): seq<Fate> {
    seq(|items|, i requires 0 <= i < |items| => Flushed(items[i]))
  }

  /** The fates of the chunks that have left the queue, in the order in which they left. */
  function Fates(k: Kind, ops: seq<QueueOp>): seq<Fate> {
    if ops == [] then []
    else
      var init := ops[..|ops| - 1];
      Fates(k, init) +
      match ops[|ops| - 1]
      case Offer(_) => []
      case Take => if Items(k, init) == [] then [] else [Got(Items(k, init)[0])]
      case Flush => AllFlushed(Items(k, init))
  }

  function ChunkOf(f: Fate): seq<Chunk> {
    [f.chunk]
  }

  function OfferedOne(op: QueueOp): seq<Chunk> {
    if op.Offer? then [op.chunk] else []
  }

  /** Everything published, flushed or not. */
  function Published(ops: seq<QueueOp>): seq<Chunk> {
    Gather(OfferedOne, ops)
  }

  /** What reached the queue, without what its reader did. */
  function ArrivedOne(op: QueueOp): seq<QueueOp> {
    if op.Take? then [] else [op]
  }

  function Arrivals(ops: seq<QueueOp>): seq<QueueOp> {
    Gather(ArrivedOne, ops)
  }

  lemma {:induction false} ChunksOfFlushed(items: seq<Chunk>)
    ensures Gather(ChunkOf, AllFlushed(items)) == items
  {
    if items != [] {
      var init, c := items[..|items| - 1], items[|items| - 1];
      ChunksOfFlushed(init);
      assert AllFlushed(items) == AllFlushed(init) + [Flushed(c)];
      GatherSnoc(ChunkOf, AllFlushed(init), Flushed(c));
      assert items == init + [c];
    }
  }

  /** Conservation: every chunk an unbounded queue was offered was got, was flushed, or waits, in order, once each. */
  lemma {:induction false} EveryChunkAccounted(k: Kind, ops: seq<QueueOp>)
    requires k.maxsize == 0
    ensures Gather(ChunkOf, Fates(k, ops)) + Items(k, ops) == Published(ops)
  {
    if ops != [] {
      var init, op := ops[..|ops| - 1], ops[|ops| - 1];
      var past, items := Fates(k, init), Items(k, init);
      EveryChunkAccounted(k, init);
      match op
      case Offer(c) =>
        assert past + [] == past;
        Assoc(Gather(ChunkOf, past), items, [c]);
      case Take =>
        if items != [] {
          Split1(items);
          GatherSnoc(ChunkOf, past, Got(items[0]));
          Assoc(Gather(ChunkOf, past), [items[0]], items[1..]);
        } else {
          assert past + [] == past;
        }
      case Flush =>
        GatherConcat(ChunkOf, past, AllFlushed(items));
        ChunksOfFlushed(items);
    }
  }

  /** What its reader did changes neither what was published to a queue nor what was since the last flush. */
  lemma {:induction false} ArrivalsPublish(ops: seq<QueueOp>)
    ensures Published(Arrivals(ops)) == Published(ops)
    ensures OfferedSinceFlush(Arrivals(ops)) == OfferedSinceFlush(ops)
  {
    if ops != [] {
      var init, op := ops[..|ops| - 1], ops[|ops| - 1];
      ArrivalsPublish(init);
      if op.Take? {
        assert Arrivals(init) + [] == Arrivals(init);
      } else {
        GatherSnoc(OfferedOne, Arrivals(init), op);
        OpsSnoc(Kind(0, false), Arrivals(init), op);
      }
    }
  }

  /** An unbounded subscriber: what it got and what still waits are exactly what was published, in order, once each. */
  lemma {:induction false} UnboundedExactlyOnce(k: Kind, ops: seq<QueueOp>)
    requires k.maxsize == 0
    ensures GotSinceFlush(k, ops) + Items(k, ops) == OfferedSinceFlush(ops)
  {
    if ops != [] {
      var init, op := ops[..|ops| - 1], ops[|ops| - 1];
      var got, items := GotSinceFlush(k, init), Items(k, init);
      UnboundedExactlyOnce(k, init);
      match op
      case Offer(c) =>
        Assoc(got, items, [c]);
      case Take =>
        if items != [] {
          Split1(items);
          Assoc(got, [items[0]], items[1..]);
        }
      case Flush =>
    }
  }

  /** The default queue holds the newest published chunks: a suffix, never over capacity. */
  lemma {:induction false} DefaultQueueIsNewest(k: Kind, ops: seq<QueueOp>)
    requires k.dropOldest && k.maxsize > 0
    ensures |Items(k, ops)| <= k.maxsize
    ensures Items(k, ops) == Newest(OfferedSinceFlush(ops), |Items(k, ops)|)
  {
    if ops != [] {
      var init, op := ops[..|ops| - 1], ops[|ops| - 1];
      DefaultQueueIsNewest(k, init);
      var items, offered := Items(k, init), OfferedSinceFlush(init);
      match op
      case Offer(c) =>
        NewestSnoc(offered, |items|, c);
        if Full(k, items) {
          NewestSnoc(offered, |items| - 1, c);
        }
      case Take =>
        if items != [] {
          NewestSnoc(offered, |items|, []);
        }
      case Flush =>
    }
  }

  /** Unread, it is exactly the newest `maxsize` chunks: nothing is dropped before it is full. */
  lemma {:induction false} DefaultQueueUnread(k: Kind, ops: seq<QueueOp>)
    requires k.dropOldest && k.maxsize > 0 && NoTake(ops)
    ensures Items(k, ops) == Newest(OfferedSinceFlush(ops), k.maxsize)
  {
    if ops != [] {
      var init := ops[..|ops| - 1];
      assert forall i :: 0 <= i < |init| ==> init[i] == ops[i];
      assert !ops[|ops| - 1].Take?;
      DefaultQueueUnread(k, init);
    }
  }

  /** A bounded ordinary subscriber keeps the oldest chunks it was offered and refuses the rest. */
  lemma {:induction false} BoundedKeepsOldest(k: Kind, ops: seq<QueueOp>)
    requires !k.dropOldest && k.maxsize > 0 && NoTake(ops)
    ensures var offered := OfferedSinceFlush(ops);
            Items(k, ops) == if |offered| <= k.maxsize then offered else offered[..k.maxsize]
  {
    if ops != [] {
      var init := ops[..|ops| - 1];
      assert forall i :: 0 <= i < |init| ==> init[i] == ops[i];
      assert !ops[|ops| - 1].Take?;
      BoundedKeepsOldest(k, init);
    }
  }

  lemma NoArrivals()
    ensures Arrivals([]) == []
  {
  }

  lemma StretchGrows(ops: seq<QueueOp>, history: seq<QueueOp>, from: nat, op: QueueOp)
    requires !op.Take? && from <= |history| && Arrivals(ops) == history[from..]
    ensures Arrivals(ops + [op]) == (history + [op])[from..]
  {
    GatherSnoc(ArrivedOne, ops, op);
  }

  lemma StretchStays(history: seq<QueueOp>, from: nat, until: nat, op: QueueOp)
    requires from <= until <= |history|
    ensures (history + [op])[from..until] == history[from..until]
  {
  }

  /** Taking out one element of a list without repetition. */
  lemma OneLess<T>(all: seq<T>, i: nat)
    requires i < |all| && forall j, k :: 0 <= j < k < |all| ==> all[j] != all[k]
    ensures var rest := all[..i] + all[i + 1..];
            && (forall j, k :: 0 <= j < k < |rest| ==> rest[j] != rest[k])
            && (forall x :: x in rest <==> x in all && x != all[i])
  {
    var rest := all[..i] + all[i + 1..];
    assert forall j :: 0 <= j < |rest| ==> rest[j] == all[if j < i then j else j + 1];
    forall x | x in all && x != all[i] ensures x in rest {
      var j :| 0 <= j < |all| && all[j] == x;
      assert x == rest[if j < i then j else j - 1];
    }
  }

  class ChunkQueue {
    const kind: Kind
    var items: seq<Chunk>
    ghost var ops: seq<QueueOp>

    ghost predicate Valid()
      reads this
    {
      items == Items(kind, ops)
    }

    constructor (kind: Kind)
      ensures Valid() && this.kind == kind && ops == []
    {
      this.kind := kind;
      items, ops := [], [];
    }

    /** `put_nowait`, and for the default queue the drop-oldest retry. */
    method Put(c: Chunk)
      requires Valid()
      modifies this
      ensures Valid() && ops == old(ops) + [Offer(c)]
    {
      OpsSnoc(kind, ops, Offer(c));
      ops := ops + [Offer(c)];
      if kind.maxsize == 0 || |items| < kind.maxsize {
        items := items + [c];
      } else if kind.dropOldest {
        items := items[1..];
        items := items + [c];
      }
    }

    method Get() returns (r: Option<Chunk>)
      requires Valid()
      modifies this
      ensures Valid() && ops == old(ops) + [Take]
      ensures r == if old(items) == [] then None else Some(old(items)[0])
    {
      OpsSnoc(kind, ops, Take);
      ops := ops + [Take];
      if items == [] {
        return None;
      }
      r := Some(items[0]);
      items := items[1..];
    }

    /** The flush loop: `get_nowait` until empty. */
    method Drain()
      requires Valid()
      modifies this
      ensures Valid() && ops == old(ops) + [Flush]
    {
      OpsSnoc(kind, ops, Flush);
      while items != []
        modifies this`items
        decreases |items|
      {
        items := items[1..];
      }
      ops := ops + [Flush];
    }
  }

  class SerialMultiplexer {
    const defaultQueue: ChunkQueue
    var subscribers: seq<ChunkQueue>
    /** Everything the receiver published and every flush, in order. */
    ghost var history: seq<QueueOp>
    /** Where in the history each queue was subscribed, and where it was unsubscribed if it was. */
    ghost var joined: map<ChunkQueue, nat>
    ghost var left: map<ChunkQueue, nat>

    ghost function Until(q: ChunkQueue): nat
      reads this
    {
      if q in left then left[q] else |history|
    }

    /** Queue `q` was reached by exactly the stretch of the history in which it was subscribed. */
    ghost predicate InStep(q: ChunkQueue)
      requires q in joined
      reads this, q
    {
      && q.Valid()
      && joined[q] <= Until(q) <= |history|
      && Arrivals(q.ops) == history[joined[q]..Until(q)]
    }

    ghost predicate Valid()
      reads this, joined.Keys
    {
      && (forall i, j :: 0 <= i < j < |subscribers| ==> subscribers[i] != subscribers[j])
      && left.Keys <= joined.Keys
      && (forall q :: q in subscribers ==> q in joined && q !in left)
      && (forall q :: q in joined && q !in left ==> q in subscribers)
      && defaultQueue in joined && joined[defaultQueue] == 0 && defaultQueue.kind == Kind(DEFAULT_CAPACITY, true)
      && (forall q :: q in joined ==> InStep(q))
    }

    constructor ()
      ensures Valid() && fresh(defaultQueue) && subscribers == [defaultQueue]
      ensures defaultQueue.ops == [] && history == [] && left == map[] && joined == map[defaultQueue := 0]
    {
      var q := new ChunkQueue(Kind(DEFAULT_CAPACITY, true));
      defaultQueue := q;
      subscribers, history, joined, left := [q], [], map[q := 0], map[];
    }

    method Subscribe(maxsize: nat) returns (q: ChunkQueue)
      requires Valid()
      modifies this
      ensures Valid() && fresh(q) && q.kind == Kind(maxsize, false) && q.ops == []
      ensures subscribers == old(subscribers) + [q]
      ensures history == old(history) && left == old(left) && joined == old(joined)[q := |history|]
    {
      hide Items, Arrivals;
      NoArrivals();
      q := new ChunkQueue(Kind(maxsize, false));
      subscribers := subscribers + [q];
      joined := joined[q := |history|];
    }

    /** Removes the queue if it is there; its contents stay with whoever holds it. */
    method Unsubscribe(q: ChunkQueue)
      requires Valid()
      modifies this
      ensures Valid() && history == old(history) && joined == old(joined)
      ensures q in old(subscribers) ==>
                exists i :: 0 <= i < |old(subscribers)| && old(subscribers)[i] == q
                            && subscribers == old(subscribers)[..i] + old(subscribers)[i + 1..]
      ensures q !in old(subscribers) ==> subscribers == old(subscribers)
      ensures left == if q in old(subscribers) then old(left)[q := |history|] else old(left)
    {
      hide Items, Arrivals;
      var i := Find(q);
      if i < |subscribers| {
        OneLess(subscribers, i);
        subscribers := subscribers[..i] + subscribers[i + 1..];
        left := left[q := |history|];
        forall p | p in joined ensures InStep(p) {
          assert old(InStep(p));
        }
      }
    }

    method Find(q: ChunkQueue) returns (i: nat)
      ensures i < |subscribers| ==> subscribers[i] == q
      ensures i >= |subscribers| ==> q !in subscribers
    {
      i := 0;
      while i < |subscribers| && subscribers[i] != q
        invariant i <= |subscribers| && q !in subscribers[..i]
      {
        i := i + 1;
      }
    }

    ghost predicate AllValid()
      reads this, subscribers
    {
      forall i :: 0 <= i < |subscribers| ==> subscribers[i].Valid()
    }

    ghost predicate Distinct()
      reads this
    {
      forall i, j :: 0 <= i < j < |subscribers| ==> subscribers[i] != subscribers[j]
    }

    /** The receiver's loop over the subscribers. */
    method OfferAll(c: Chunk)
      requires Distinct() && AllValid()
      modifies subscribers
      ensures AllValid()
      ensures forall i :: 0 <= i < |subscribers| ==> subscribers[i].ops == old(subscribers[i].ops) + [Offer(c)]
    {
      for k := 0 to |subscribers|
        invariant AllValid()
        invariant forall i :: 0 <= i < k ==> subscribers[i].ops == old(subscribers[i].ops) + [Offer(c)]
        invariant forall i :: k <= i < |subscribers| ==> subscribers[i].ops == old(subscribers[i].ops)
      {
        subscribers[k].Put(c);
      }
    }

    /** The flush loop over the subscribers. */
    method DrainAll()
      requires Distinct() && AllValid()
      modifies subscribers
      ensures AllValid()
      ensures forall i :: 0 <= i < |subscribers| ==> subscribers[i].ops == old(subscribers[i].ops) + [Flush]
    {
      for k := 0 to |subscribers|
        invariant AllValid()
        invariant forall i :: 0 <= i < k ==> subscribers[i].ops == old(subscribers[i].ops) + [Flush]
        invariant forall i :: k <= i < |subscribers| ==> subscribers[i].ops == old(subscribers[i].ops)
      {
        subscribers[k].Drain();
      }
    }

    lemma SubscribersValid()
      requires Valid()
      ensures Distinct() && AllValid()
    {
      forall i | 0 <= i < |subscribers| ensures subscribers[i].Valid() {
        assert subscribers[i] in joined && InStep(subscribers[i]);
      }
    }

    /** One received chunk goes to every subscriber exactly once, and to nobody else. */
    method Broadcast(c: Chunk)
      requires Valid()
      modifies this`history, subscribers
      ensures Valid() && history == old(history) + [Offer(c)]
      ensures forall q :: q in subscribers ==> q.ops == old(q.ops) + [Offer(c)]
    {
      hide Items, Arrivals;
      SubscribersValid();
      OfferAll(c);
      history := history + [Offer(c)];
      forall q | q in joined ensures InStep(q) {
        assert old(InStep(q));
        if q in subscribers {
          StretchGrows(old(q.ops), old(history), joined[q], Offer(c));
        } else {
          StretchStays(old(history), joined[q], left[q], Offer(c));
        }
      }
    }

    /** Empties every subscribed queue. */
    method FlushBuffers()
      requires Valid()
      modifies this`history, subscribers
      ensures Valid() && history == old(history) + [Flush]
      ensures forall q :: q in subscribers ==> q.ops == old(q.ops) + [Flush]
    {
      hide Items, Arrivals;
      SubscribersValid();
      DrainAll();
      history := history + [Flush];
      forall q | q in joined ensures InStep(q) {
        assert old(InStep(q));
        if q in subscribers {
          StretchGrows(old(q.ops), old(history), joined[q], Flush);
        } else {
          StretchStays(old(history), joined[q], left[q], Flush);
        }
      }
    }

    /** A reader takes from its queue, subscribed or not any more. */
    method Read(q: ChunkQueue) returns (r: Option<Chunk>)
      requires Valid() && q in joined
      modifies q
      ensures Valid() && q.ops == old(q.ops) + [Take]
      ensures r == if old(q.items) == [] then None else Some(old(q.items)[0])
      ensures Fates(q.kind, q.ops) == old(Fates(q.kind, q.ops)) + if r.None? then [] else [Got(r.value)]
    {
      GatherSnoc(ArrivedOne, q.ops, Take);
      assert Arrivals(q.ops) + [] == Arrivals(q.ops);
      assert (q.ops + [Take])[..|q.ops|] == q.ops;
      r := q.Get();
    }
  }

  /**
   Over every interleaving: the chunks an unbounded subscriber got, lost to a flush, or has waiting are exactly those
   published while it was subscribed, in order and once each; got and waiting since the last flush likewise.
   */
  lemma SubscriberExactlyOnce(m: SerialMultiplexer, q: ChunkQueue)
    requires m.Valid() && q in m.joined && q.kind.maxsize == 0
    ensures var stretch := m.history[m.joined[q]..m.Until(q)];
            && Gather(ChunkOf, Fates(q.kind, q.ops)) + q.items == Published(stretch)
            && GotSinceFlush(q.kind, q.ops) + q.items == OfferedSinceFlush(stretch)
  {
    assert m.InStep(q);
    EveryChunkAccounted(q.kind, q.ops);
    UnboundedExactlyOnce(q.kind, q.ops);
    ArrivalsPublish(q.ops);
  }

  /** The default queue, while subscribed: the newest of what was published since the last flush, 2048 chunks at most. */
  lemma DefaultSubscriberIsNewest(m: SerialMultiplexer)
    requires m.Valid() && m.defaultQueue !in m.left
    ensures var items := m.defaultQueue.items;
            |items| <= DEFAULT_CAPACITY && items == Newest(OfferedSinceFlush(m.history), |items|)
  {
    var q := m.defaultQueue;
    assert m.InStep(q);
    DefaultQueueIsNewest(q.kind, q.ops);
    ArrivalsPublish(q.ops);
    assert m.history[0..|m.history|] == m.history;
  }
}
