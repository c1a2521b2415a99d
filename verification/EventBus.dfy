/** Fan-out to bounded queues that drop their oldest entry when full. */
module EventBus {
  import opened Base
  import opened Telemetry

  /** A maxsize of 0 or less means unbounded. */
  datatype Queue = Queue(maxsize: int, items: seq<Event>)

  predicate Full(q: Queue) { q.maxsize > 0 && |q.items| >= q.maxsize }

  /** put_nowait, and on a full queue get_nowait first. */
  function Put(q: Queue, e: Event): Queue {
    if Full(q) then q.(items := q.items[1..] + [e]) else q.(items := q.items + [e])
  }

  /** The queue grows by one until it is at its bound, and always holds the newest of what it held and the new event. */
  lemma PutKeepsNewest(q: Queue, e: Event)
    requires q.maxsize > 0 ==> |q.items| <= q.maxsize
    ensures var q' := Put(q, e);
            && q'.maxsize == q.maxsize
            && |q'.items| == (if 0 < q.maxsize < |q.items| + 1 then q.maxsize else |q.items| + 1)
            && q'.items == (q.items + [e])[|q.items| + 1 - |q'.items|..]
  {
  }

  datatype Bus = Bus(queues: map<string, Queue>, closed: bool)

  const NEW_BUS: Bus := Bus(map[], false)

  function Subscribed(b: Bus, name: string, maxsize: int): Bus {
    if b.closed || name in b.queues then b else b.(queues := b.queues[name := Queue(maxsize, [])])
  }

  function Published(b: Bus, e: Event): Bus {
    if b.closed then b else b.(queues := map name | name in b.queues :: Put(b.queues[name], e))
  }

  function Taken(b: Bus, name: string): Bus {
    if name in b.queues && b.queues[name].items != []
    then b.(queues := b.queues[name := b.queues[name].(items := b.queues[name].items[1..])]) else b
  }

  class EventBus {
    /** Subscribers in the order they were added. */
    var names: seq<string>
    var queues: map<string, Queue>
    var closed: bool

    ghost predicate Valid()
      reads this
    {
      && (forall i :: 0 <= i < |names| ==> names[i] in queues)
      && (forall n <- queues :: n in names)
      && (forall i, j :: 0 <= i < j < |names| ==> names[i] != names[j])
    }

    ghost function State(): Bus
      reads this
    {
      Bus(queues, closed)
    }

    constructor ()
      ensures Valid() && State() == NEW_BUS
    {
      names, queues, closed := [], map[], false;
    }

    method Subscribe(name: string, maxsize: int) returns (ok: bool)
      requires Valid()
      modifies this
      ensures Valid() && State() == Subscribed(old(State()), name, maxsize)
      ensures ok == (!old(closed) && name !in old(queues))
    {
      ok := !closed && name !in queues;
      if ok {
        names := names + [name];
        queues := queues[name := Queue(maxsize, [])];
      }
    }

    method Publish(e: Event)
      requires Valid()
      modifies this
      ensures Valid() && State() == Published(old(State()), e)
    {
      if closed { return; }
      for i := 0 to |names|
        invariant Valid() && names == old(names) && closed == old(closed) && queues.Keys == old(queues).Keys
        invariant forall k :: 0 <= k < |names| ==>
                    queues[names[k]] == if k < i then Put(old(queues)[names[k]], e) else old(queues)[names[k]]
      {
        var q := queues[names[i]];
        if q.maxsize > 0 && |q.items| >= q.maxsize {
          q := q.(items := q.items[1..]);
        }
        q := q.(items := q.items + [e]);
        queues := queues[names[i] := q];
      }
    }

    method Take(name: string) returns (got: Option<Event>)
      requires Valid()
      modifies this
      ensures Valid() && State() == Taken(old(State()), name)
      ensures got == if name in old(queues) && old(queues)[name].items != [] then Some(old(queues)[name].items[0]) else None
    {
      if name !in queues || queues[name].items == [] { return None; }
      got := Some(queues[name].items[0]);
      queues := queues[name := queues[name].(items := queues[name].items[1..])];
    }

    method Close()
      requires Valid()
      modifies this
      ensures Valid() && State() == old(State()).(closed := true)
    {
      closed := true;
    }
  }

  // ----- whole runs

  datatype Op = Subscribe(name: string, maxsize: int) | Publish(e: Event) | Take(name: string) | Close

  function Step(b: Bus, op: Op): Bus {
    match op
    case Subscribe(name, maxsize) => Subscribed(b, name, maxsize)
    case Publish(e) => Published(b, e)
    case Take(name) => Taken(b, name)
    case Close => b.(closed := true)
  }

  function Run(ops: seq<Op>): Bus {
    if |ops| == 0 then NEW_BUS else Step(Run(ops[..|ops| - 1]), ops[|ops| - 1])
  }

  /** Everything published on the open bus since `name` subscribed. */
  function Heard(ops: seq<Op>, name: string): seq<Event> {
    if |ops| == 0 then []
    else
      var init, op := ops[..|ops| - 1], ops[|ops| - 1];
      if op.Publish? && !Run(init).closed && name in Run(init).queues then Heard(init, name) + [op.e] else Heard(init, name)
  }

  /** Everything `name` has taken, in order. */
  function Consumed(ops: seq<Op>, name: string): seq<Event> {
    if |ops| == 0 then []
    else
      var init, op := ops[..|ops| - 1], ops[|ops| - 1];
      if op.Take? && op.name == name && name in Run(init).queues && Run(init).queues[name].items != []
      then Consumed(init, name) + [Run(init).queues[name].items[0]] else Consumed(init, name)
  }

  /** No publish found the queue of `name` full. */
  predicate NeverFull(ops: seq<Op>, name: string) {
    |ops| > 0 ==>
      var init, op := ops[..|ops| - 1], ops[|ops| - 1];
      NeverFull(init, name) && (op.Publish? && !Run(init).closed && name in Run(init).queues ==> !Full(Run(init).queues[name]))
  }

  /** Publishes that found the queue of `name` at its bound. */
  function Overflows(ops: seq<Op>, name: string): nat {
    if |ops| == 0 then 0
    else
      var init, op := ops[..|ops| - 1], ops[|ops| - 1];
      var b := Run(init);
      Overflows(init, name)
      + (if op.Publish? && !b.closed && name in b.queues && 0 < b.queues[name].maxsize <= |b.queues[name].items| then 1 else 0)
  }

  predicate IsSuffix(a: seq<Event>, b: seq<Event>) { |a| <= |b| && a == b[|b| - |a|..] }

  /** What one step does to the queue of one subscriber. */
  lemma StepOnQueue(b: Bus, op: Op, name: string)
    ensures name in Step(b, op).queues
       <==> name in b.queues || (op.Subscribe? && op.name == name && !b.closed)
    ensures name !in b.queues && name in Step(b, op).queues ==> Step(b, op).queues[name] == Queue(op.maxsize, [])
    ensures name in b.queues ==>
              Step(b, op).queues[name]
              == if op.Publish? && !b.closed then Put(b.queues[name], op.e)
                 else if op.Take? && op.name == name && b.queues[name].items != [] then b.queues[name].(items := b.queues[name].items[1..])
                 else b.queues[name]
    ensures Step(b, op).closed == (b.closed || op.Close?)
  {
  }

  lemma SuffixAfterPut(q: Queue, heard: seq<Event>, e: Event)
    requires IsSuffix(q.items, heard) && (q.maxsize > 0 ==> |q.items| <= q.maxsize)
    ensures IsSuffix(Put(q, e).items, heard + [e])
    ensures q.maxsize > 0 ==> |Put(q, e).items| <= q.maxsize
  {
  }

  lemma SuffixAfterTake(q: Queue, heard: seq<Event>)
    requires IsSuffix(q.items, heard) && q.items != []
    ensures IsSuffix(q.items[1..], heard)
  {
  }

  /**
   * A queue is always the newest contiguous part of what was published since its owner subscribed,
   * never longer than its bound.
   */
  lemma {:induction false} QueueIsNewestSuffix(ops: seq<Op>, name: string)
    requires name in Run(ops).queues
    ensures IsSuffix(Run(ops).queues[name].items, Heard(ops, name))
    ensures Run(ops).queues[name].maxsize > 0 ==> |Run(ops).queues[name].items| <= Run(ops).queues[name].maxsize
  {
    var init, op := ops[..|ops| - 1], ops[|ops| - 1];
    StepOnQueue(Run(init), op, name);
    if name in Run(init).queues {
      QueueIsNewestSuffix(init, name);
      var q := Run(init).queues[name];
      if op.Publish? && !Run(init).closed { SuffixAfterPut(q, Heard(init, name), op.e); }
      if op.Take? && op.name == name && q.items != [] { SuffixAfterTake(q, Heard(init, name)); }
    } else {
      NothingBeforeSubscribing(init, name);
    }
  }

  /** If it never filled, what was taken plus what waits is everything that was published to it, in order. */
  lemma {:induction false} NothingIsDropped(ops: seq<Op>, name: string)
    requires name in Run(ops).queues && NeverFull(ops, name)
    ensures Consumed(ops, name) + Run(ops).queues[name].items == Heard(ops, name)
  {
    var init, op := ops[..|ops| - 1], ops[|ops| - 1];
    StepOnQueue(Run(init), op, name);
    if name in Run(init).queues {
      NothingIsDropped(init, name);
      var q := Run(init).queues[name];
      if op.Publish? && !Run(init).closed {
        assert Consumed(init, name) + (q.items + [op.e]) == (Consumed(init, name) + q.items) + [op.e];
      } else if op.Take? && op.name == name && q.items != [] {
        assert (Consumed(init, name) + [q.items[0]]) + q.items[1..] == Consumed(init, name) + q.items;
      }
    } else {
      NothingBeforeSubscribing(init, name);
    }
  }

  /** An open bus gives each of its queues the event, and a full queue loses exactly its oldest one for it. */
  lemma PublishReachesAll(ops: seq<Op>, name: string, e: Event)
    requires name in Run(ops).queues && !Run(ops).closed
    ensures name in Step(Run(ops), Publish(e)).queues
    ensures var q, q' := Run(ops).queues[name], Step(Run(ops), Publish(e)).queues[name];
            && q'.maxsize == q.maxsize
            && |q'.items| == (if 0 < q.maxsize < |q.items| + 1 then q.maxsize else |q.items| + 1)
            && q'.items == (q.items + [e])[|q.items| + 1 - |q'.items|..]
  {
    QueueIsNewestSuffix(ops, name);
    PutKeepsNewest(Run(ops).queues[name], e);
  }

  /** One step of a queue within its bound: one more for a publish, one less for a take or an overflow. */
  lemma LengthAfter(b: Bus, op: Op, name: string)
    requires name in b.queues
    requires b.queues[name].maxsize > 0 ==> |b.queues[name].items| <= b.queues[name].maxsize
    ensures name in Step(b, op).queues
    ensures |Step(b, op).queues[name].items| + Removed(b, op, name) == |b.queues[name].items| + Added(b, op, name)
  {
    StepOnQueue(b, op, name);
    if op.Publish? { PutKeepsNewest(b.queues[name], op.e); }
  }

  function Added(b: Bus, op: Op, name: string): nat { if op.Publish? && !b.closed && name in b.queues then 1 else 0 }

  /** A take from a waiting queue removes its oldest event, and so does a publish that finds it at its bound. */
  function Removed(b: Bus, op: Op, name: string): nat {
    (if op.Take? && op.name == name && name in b.queues && b.queues[name].items != [] then 1 else 0)
    + (if Added(b, op, name) == 1 && 0 < b.queues[name].maxsize <= |b.queues[name].items| then 1 else 0)
  }

  lemma CountsGrow(ops: seq<Op>, name: string)
    requires |ops| > 0
    ensures var init, op := ops[..|ops| - 1], ops[|ops| - 1];
            && |Heard(ops, name)| == |Heard(init, name)| + Added(Run(init), op, name)
            && |Consumed(ops, name)| + Overflows(ops, name)
               == |Consumed(init, name)| + Overflows(init, name) + Removed(Run(init), op, name)
  {
  }

  /** Every event published to a subscriber was taken by it, still waits for it, or was pushed out by an overflow, one each. */
  lemma {:induction false} OverflowsDropOneEach(ops: seq<Op>, name: string)
    requires name in Run(ops).queues
    ensures |Heard(ops, name)| == |Consumed(ops, name)| + |Run(ops).queues[name].items| + Overflows(ops, name)
  {
    var init, op := ops[..|ops| - 1], ops[|ops| - 1];
    if name in Run(init).queues {
      OverflowsDropOneEach(init, name);
      QueueIsNewestSuffix(init, name);
      LengthAfter(Run(init), op, name);
      CountsGrow(ops, name);
    } else {
      StepOnQueue(Run(init), op, name);
      NothingBeforeSubscribing(init, name);
    }
  }

  lemma {:induction false} NothingBeforeSubscribing(ops: seq<Op>, name: string)
    requires name !in Run(ops).queues
    ensures Heard(ops, name) == [] && Consumed(ops, name) == [] && Overflows(ops, name) == 0
  {
    if |ops| > 0 {
      StepOnQueue(Run(ops[..|ops| - 1]), ops[|ops| - 1], name);
      NothingBeforeSubscribing(ops[..|ops| - 1], name);
    }
  }

  /** What concerns one subscriber: its own subscription and takes, publishing and closing. */
  predicate Concerns(op: Op, name: string) {
    match op
    case Subscribe(n, _) => n == name
    case Take(n) => n == name
    case _ => true
  }

  function Projected(ops: seq<Op>, name: string): seq<Op> {
    if |ops| == 0 then []
    else Projected(ops[..|ops| - 1], name) + (if Concerns(ops[|ops| - 1], name) then [ops[|ops| - 1]] else [])
  }

  /** Subscribers are isolated: a slow, greedy or missing neighbour never changes someone else's queue. */
  lemma {:induction false} SubscribersAreIsolated(ops: seq<Op>, name: string)
    ensures Run(Projected(ops, name)).closed == Run(ops).closed
    ensures name in Run(Projected(ops, name)).queues <==> name in Run(ops).queues
    ensures name in Run(ops).queues ==> Run(Projected(ops, name)).queues[name] == Run(ops).queues[name]
  {
    if |ops| > 0 {
      var init, op := ops[..|ops| - 1], ops[|ops| - 1];
      SubscribersAreIsolated(init, name);
      StepOnQueue(Run(init), op, name);
      StepOnQueue(Run(Projected(init, name)), op, name);
      if Concerns(op, name) {
        RunSnoc(Projected(init, name), op);
      } else {
        assert Projected(ops, name) == Projected(init, name);
      }
    }
  }

  lemma RunSnoc(ops: seq<Op>, op: Op)
    ensures Run(ops + [op]) == Step(Run(ops), op)
  {
    assert (ops + [op])[..|ops|] == ops;
  }
}
