/** The instrumented call chain `tx0` -> `tx1` -> `tx2` -> `tx3` that one
    transaction emits, as the list of what each call records in order. */
module Spans {
  import opened Decimal

  /** The fixed work delay each of `tx1`, `tx2` and `tx3` sleeps, in microseconds. */
  const WORK_MICROS: nat := 10

  /** Rust's `u8`, the type of the depth. */
  type u8 = n: nat | n < 256

  datatype SpanStep =
    | Info(level: nat)   // the span of `txN` opens and logs its `tracing::info!` line
    | Work(micros: nat)  // `thread::sleep` inside the span

  /** The span levels opened by a list of steps, in order. */
  function Levels(steps: seq<SpanStep>): seq<nat> {
    if steps == [] then []
    else (if steps[0].Info? then [steps[0].level] else []) + Levels(steps[1..])
  }

  /** The number of work sleeps in a list of steps. */
  function WorkCount(steps: seq<SpanStep>): nat {
    if steps == [] then 0
    else (if steps[0].Work? then 1 else 0) + WorkCount(steps[1..])
  }

  lemma {:induction false} LevelsAppend(a: seq<SpanStep>, b: seq<SpanStep>)
    ensures Levels(a + b) == Levels(a) + Levels(b)
    ensures WorkCount(a + b) == WorkCount(a) + WorkCount(b)
  {
    if a != [] {
      assert (a + b)[1..] == a[1..] + b;
      LevelsAppend(a[1..], b);
    } else {
      assert a + b == b;
    }
  }

  function Tx3(): seq<SpanStep> {
    [Info(3), Work(WORK_MICROS)]
  }

  function Tx2(depth: u8): seq<SpanStep> {
    [Info(2)] + (if depth > 1 then Tx3() else []) + [Work(WORK_MICROS)]
  }

  function Tx1(depth: u8): seq<SpanStep> {
    [Info(1)] + (if depth > 0 then Tx2(depth) else []) + [Work(WORK_MICROS)]
  }

  /** `tx0(name, depth)`: the root span (its `info!` line is the transaction
      name, kept by the caller) and then `tx1`; the root itself does not sleep. */
  function Tx0(depth: u8): seq<SpanStep> {
    [Info(0)] + Tx1(depth)
  }

  /** Every work sleep of the chain lasts `WORK_MICROS`. */
  lemma WorkSleepsFixed(depth: u8)
    ensures forall j :: 0 <= j < |Tx0(depth)| && Tx0(depth)[j].Work? ==> Tx0(depth)[j].micros == WORK_MICROS
  {
  }

  /** The levels opened for each depth, and one work sleep per level below
      the root. */
  lemma SpanShape(depth: u8)
    ensures Levels(Tx0(depth)) ==
      if depth == 0 then [0, 1] else if depth == 1 then [0, 1, 2] else [0, 1, 2, 3]
    ensures WorkCount(Tx0(depth)) == |Levels(Tx0(depth))| - 1
    ensures forall j :: 0 <= j < |Tx0(depth)| && Tx0(depth)[j].Work? ==> Tx0(depth)[j].micros == WORK_MICROS
  {
    WorkSleepsFixed(depth);
    var w := [Work(WORK_MICROS)];
    LevelsAppend([Info(3)], w);
    if depth > 1 {
      LevelsAppend([Info(2)], Tx3());
      LevelsAppend([Info(2)] + Tx3(), w);
    } else {
      LevelsAppend([Info(2)], []);
      LevelsAppend([Info(2)], w);
    }
    if depth > 0 {
      LevelsAppend([Info(1)], Tx2(depth));
      LevelsAppend([Info(1)] + Tx2(depth), w);
    } else {
      LevelsAppend([Info(1)], []);
      LevelsAppend([Info(1)], w);
    }
    LevelsAppend([Info(0)], Tx1(depth));
  }

  /** The runner draws the depth from `0..2`, so level 3 is never opened and
      level 2 is opened exactly when the depth is 1. */
  lemma LevelThreeUnreachable(depth: u8)
    requires depth < 2
    ensures 3 !in Levels(Tx0(depth))
    ensures (2 in Levels(Tx0(depth))) <==> depth == 1
  {
    SpanShape(depth);
  }
}
