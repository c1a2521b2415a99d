/** The event log: batches drained from a queue into a JSONL file and a lap-only CSV. */
module Storage {
  import opened Base
  import opened Telemetry
  import EventBus

  const BATCH_MAX: nat := 512

  datatype LapRow = LapRow(car: int, number: int, timeMs: int, at: int)

  predicate IsLapRow(e: Event) { e.payload.LapData? && e.car.Some? }

  function RowOf(e: Event): LapRow
    requires IsLapRow(e)
  {
    LapRow(e.car.value, e.payload.number, e.payload.timeMs, e.at)
  }

  /** The CSV that belongs to a stretch of events. */
  function LapRows(es: seq<Event>): seq<LapRow> {
    if |es| == 0 then []
    else LapRows(es[..|es| - 1]) + (if IsLapRow(es[|es| - 1]) then [RowOf(es[|es| - 1])] else [])
  }

  lemma {:induction false} LapRowsConcat(a: seq<Event>, b: seq<Event>)
    ensures LapRows(a + b) == LapRows(a) + LapRows(b)
  {
    if |b| == 0 {
      assert a + b == a;
    } else {
      assert (a + b)[..|a + b| - 1] == a + b[..|b| - 1];
      LapRowsConcat(a, b[..|b| - 1]);
    }
  }

  /** The CSV has one row for each lap event that names a car, in order, with that event's car, number, time and stamp. */
  lemma {:induction false} RowsAreLaps(es: seq<Event>)
    ensures var laps := Filter(es, (e: Event) => e.payload.LapData? && e.car.Some?);
            && |LapRows(es)| == |laps|
            && forall i :: 0 <= i < |laps| ==>
                 && laps[i].payload.LapData? && laps[i].car.Some?
                 && LapRows(es)[i] == LapRow(laps[i].car.value, laps[i].payload.number, laps[i].payload.timeMs, laps[i].at)
  {
    if |es| > 0 { RowsAreLaps(es[..|es| - 1]); }
  }

  /** Which of the two files fails to take a batch; the CSV may fail after some rows. */
  datatype Fault = Fault(jsonl: bool, csv: Option<nat>)

  const NO_FAULT: Fault := Fault(false, None)

  datatype Files = Files(queue: EventBus.Queue, jsonl: seq<Event>, csv: seq<LapRow>)

  function Least(a: nat, b: nat): nat { if a < b then a else b }

  function Written(f: Files, batch: seq<Event>, fault: Fault): Files {
    var rows := LapRows(batch);
    f.(jsonl := if fault.jsonl then f.jsonl else f.jsonl + batch,
       csv := f.csv + (if fault.csv.Some? then rows[..Least(fault.csv.value, |rows|)] else rows))
  }

  function Batched(f: Files, fault: Fault): Files {
    var n := Least(BATCH_MAX, |f.queue.items|);
    Written(f.(queue := f.queue.(items := f.queue.items[n..])), f.queue.items[..n], fault)
  }

  function Drained(f: Files, fault: Fault): Files {
    Written(f.(queue := f.queue.(items := [])), f.queue.items, fault)
  }

  class JsonlEventWriter {
    var queue: EventBus.Queue
    var jsonl: seq<Event>
    var csv: seq<LapRow>

    ghost function State(): Files
      reads this
    {
      Files(queue, jsonl, csv)
    }

    constructor (maxsize: int)
      ensures State() == Files(EventBus.Queue(maxsize, []), [], [])
    {
      queue, jsonl, csv := EventBus.Queue(maxsize, []), [], [];
    }

    /** The first entry, then whatever else is already queued, up to the batch limit. */
    method CollectBatch() returns (batch: seq<Event>)
      modifies this`queue
      ensures var n := Least(BATCH_MAX, |old(queue).items|);
              batch == old(queue).items[..n] && queue == old(queue).(items := old(queue).items[n..])
    {
      if queue.items == [] { return []; }
      batch := [queue.items[0]];
      queue := queue.(items := queue.items[1..]);
      while queue.items != [] && |batch| < BATCH_MAX
        invariant 1 <= |batch| <= BATCH_MAX && |batch| <= |old(queue).items|
        invariant batch == old(queue).items[..|batch|] && queue == old(queue).(items := old(queue).items[|batch|..])
        decreases |queue.items|
      {
        batch := batch + [queue.items[0]];
        queue := queue.(items := queue.items[1..]);
      }
    }

    method WriteBatch(batch: seq<Event>, fault: Fault)
      modifies this`jsonl, this`csv
      ensures State() == Written(old(State()), batch, fault)
    {
      if !fault.jsonl { jsonl := jsonl + batch; }
      var written := 0;
      for i := 0 to |batch|
        invariant written == |csv| - |old(csv)|
        invariant jsonl == if fault.jsonl then old(jsonl) else old(jsonl) + batch
        invariant csv == old(csv) + (if fault.csv.Some? then LapRows(batch[..i])[..Least(fault.csv.value, |LapRows(batch[..i])|)]
                                     else LapRows(batch[..i]))
      {
        assert batch[..i + 1][..i] == batch[..i];
        if IsLapRow(batch[i]) && (fault.csv.None? || written < fault.csv.value) {
          csv := csv + [RowOf(batch[i])];
          written := written + 1;
        }
      }
      assert batch[..|batch|] == batch;
    }

    method RunOnce(fault: Fault)
      modifies this
      ensures State() == Batched(old(State()), fault)
    {
      var batch := CollectBatch();
      if batch != [] { WriteBatch(batch, fault); }
    }

    method DrainRemaining(fault: Fault)
      modifies this
      ensures State() == Drained(old(State()), fault)
    {
      var batch := [];
      while queue.items != []
        invariant batch + queue.items == old(queue).items && queue.maxsize == old(queue).maxsize
        invariant jsonl == old(jsonl) && csv == old(csv)
        decreases |queue.items|
      {
        batch := batch + [queue.items[0]];
        queue := queue.(items := queue.items[1..]);
      }
      assert batch == old(queue).items && queue == old(queue).(items := []);
      if batch != [] {
        WriteBatch(batch, fault);
      } else {
        assert old(jsonl) + batch == old(jsonl);
      }
    }
  }

  // ----- whole runs

  datatype Op = Arrive(e: Event) | Beat(fault: Fault)

  function Step(f: Files, op: Op): Files {
    match op
    case Arrive(e) => f.(queue := EventBus.Put(f.queue, e))
    case Beat(fault) => Batched(f, fault)
  }

  function Run(maxsize: int, ops: seq<Op>): Files {
    if |ops| == 0 then Files(EventBus.Queue(maxsize, []), [], []) else Step(Run(maxsize, ops[..|ops| - 1]), ops[|ops| - 1])
  }

  function Arrived(ops: seq<Op>): seq<Event> {
    if |ops| == 0 then []
    else Arrived(ops[..|ops| - 1]) + (if ops[|ops| - 1].Arrive? then [ops[|ops| - 1].e] else [])
  }

  /** The queue never filled. */
  predicate RoomEnough(maxsize: int, ops: seq<Op>) {
    |ops| > 0 ==>
      RoomEnough(maxsize, ops[..|ops| - 1]) && (ops[|ops| - 1].Arrive? ==> !EventBus.Full(Run(maxsize, ops[..|ops| - 1]).queue))
  }

  predicate JsonlWrites(ops: seq<Op>) { forall i :: 0 <= i < |ops| ==> (ops[i].Beat? ==> !ops[i].fault.jsonl) }

  predicate CsvWrites(ops: seq<Op>) { forall i :: 0 <= i < |ops| ==> (ops[i].Beat? ==> ops[i].fault.csv.None?) }

  /** One beat leaves nothing waiting unless more than 512 events were. */
  lemma BeatEmptiesQueue(f: Files, fault: Fault)
    ensures |Step(f, Beat(fault)).queue.items| == if |f.queue.items| <= 512 then 0 else |f.queue.items| - 512
  {
  }

  /** A batch that a file refuses is lost to that file; a CSV that fails after k rows keeps those k, and the other file is not concerned. */
  lemma RefusedBatchIsLost(f: Files, fault: Fault)
    ensures var f', n := Step(f, Beat(fault)), |f.queue.items| - |Step(f, Beat(fault)).queue.items|;
            && f'.jsonl == (if fault.jsonl then f.jsonl else f.jsonl + f.queue.items[..n])
            && |f'.csv| >= |f.csv| && f'.csv[..|f.csv|] == f.csv
            && var rows, added := LapRows(f.queue.items[..n]), f'.csv[|f.csv|..];
               added == if fault.csv.Some? && fault.csv.value < |rows| then rows[..fault.csv.value] else rows
  {
  }

  lemma BeatMovesRows(f: Files, fault: Fault)
    ensures !fault.jsonl ==> Batched(f, fault).jsonl + Batched(f, fault).queue.items == f.jsonl + f.queue.items
    ensures fault.csv.None? ==> Batched(f, fault).csv + LapRows(Batched(f, fault).queue.items) == f.csv + LapRows(f.queue.items)
  {
    var n := Least(BATCH_MAX, |f.queue.items|);
    assert f.queue.items == f.queue.items[..n] + f.queue.items[n..];
    LapRowsConcat(f.queue.items[..n], f.queue.items[n..]);
  }

  /** Until the final drain, file plus queue is everything; the JSONL file whatever happens to the CSV. */
  lemma {:induction false} NoEventIsLost(maxsize: int, ops: seq<Op>)
    requires RoomEnough(maxsize, ops) && JsonlWrites(ops)
    ensures Run(maxsize, ops).jsonl + Run(maxsize, ops).queue.items == Arrived(ops)
  {
    if |ops| > 0 {
      var init, op := ops[..|ops| - 1], ops[|ops| - 1];
      NoEventIsLost(maxsize, init);
      if op.Beat? { BeatMovesRows(Run(maxsize, init), op.fault); }
    }
  }

  /** ... and the CSV whatever happens to the JSONL file. */
  lemma {:induction false} NoRowIsLost(maxsize: int, ops: seq<Op>)
    requires RoomEnough(maxsize, ops) && CsvWrites(ops)
    ensures Run(maxsize, ops).csv + LapRows(Run(maxsize, ops).queue.items) == LapRows(Arrived(ops))
  {
    if |ops| > 0 {
      var init, op := ops[..|ops| - 1], ops[|ops| - 1];
      NoRowIsLost(maxsize, init);
      if op.Beat? {
        BeatMovesRows(Run(maxsize, init), op.fault);
        assert Arrived(ops) == Arrived(init);
      } else {
        LapRowsConcat(Run(maxsize, init).queue.items, [op.e]);
        LapRowsConcat(Arrived(init), [op.e]);
      }
    }
  }

  /** After the final drain the JSONL file is the published sequence and the CSV its laps, in order. */
  lemma FilesReproduceStream(maxsize: int, ops: seq<Op>)
    requires RoomEnough(maxsize, ops)
    ensures JsonlWrites(ops) ==> Drained(Run(maxsize, ops), NO_FAULT).jsonl == Arrived(ops)
    ensures CsvWrites(ops) ==> Drained(Run(maxsize, ops), NO_FAULT).csv == LapRows(Arrived(ops))
  {
    if JsonlWrites(ops) { NoEventIsLost(maxsize, ops); }
    if CsvWrites(ops) { NoRowIsLost(maxsize, ops); }
  }
}
