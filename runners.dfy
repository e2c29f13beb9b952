/** `error_runner` and `txn_runner`: each loops `for seq in 0..events`,
    choosing a sleep, emitting one item and then sleeping. The random source
    is an injected stream `rng` of raw draws: the k-th call of `gen_range`
    reads `rng(k)`. What a runner does is recorded as a log of steps. */
module Runners {
  import opened Decimal
  import Spans

  /** Milliseconds per delay unit in the error runner (`delay * 1_000`). */
  const ERROR_UNIT: nat := 1_000
  /** Microseconds per delay unit in the transaction runner (`delay * 1_000_00`). */
  const TXN_UNIT: nat := 100_000

  datatype Step =
    | ErrorCaptured(runner: string, seqNo: nat, sleepMs: nat)      // `sentry::capture_error`
    | Transaction(runner: string, seqNo: nat, sleepUs: nat, depth: Spans.u8, spans: seq<Spans.SpanStep>) // `tx0(..)`
    | SleepMs(ms: nat)                                           // `Duration::from_millis`
    | SleepUs(us: nat)                                           // `Duration::from_micros`

  /** `delay * unit` does not overflow `u32`. */
  predicate BoundFits(delay: u32, unit: nat) {
    delay * unit <= U32_MAX
  }

  /** The sleep the source allows: none when `delay` is 0, otherwise below
      `delay * unit`. */
  predicate SleepBounded(delay: u32, unit: nat, sleep: nat) {
    if delay == 0 then sleep == 0 else sleep < delay * unit
  }

  /** `gen_range(lo..hi)` on a raw draw. */
  function GenRange(lo: nat, hi: nat, raw: nat): (r: nat)
    requires lo < hi
    ensures lo <= r < hi
  {
    lo + raw % (hi - lo)
  }

  /** `match delay { 0 => 0, _ => gen_range(0..(delay * unit)) }`. */
  function SleepFor(delay: u32, unit: nat, raw: nat): (sleep: nat)
    requires 0 < unit && BoundFits(delay, unit)
    ensures SleepBounded(delay, unit, sleep)
    ensures sleep <= U32_MAX
  {
    if delay == 0 then 0 else GenRange(0, delay * unit, raw)
  }

  /** Draws the error runner has used before iteration `seqNo`. */
  function ErrorDrawsBefore(delay: u32, seqNo: nat): nat {
    if delay == 0 then 0 else seqNo
  }

  /** The log of the first `k` iterations of `error_runner`. */
  function ErrorRun(name: string, delay: u32, rng: nat -> nat, k: nat): seq<Step>
    requires BoundFits(delay, ERROR_UNIT)
  {
    if k == 0 then []
    else
      var sleep := SleepFor(delay, ERROR_UNIT, rng(ErrorDrawsBefore(delay, k - 1)));
      ErrorRun(name, delay, rng, k - 1) + [ErrorCaptured(name, k - 1, sleep), SleepMs(sleep)]
  }

  /** `error_runner(name, events, delay)`. */
  method ErrorRunner(name: string, events: u32, delay: u32, rng: nat -> nat) returns (log: seq<Step>)
    requires BoundFits(delay, ERROR_UNIT)
    ensures log == ErrorRun(name, delay, rng, events)
  {
    log := [];
    var next := 0;
    for seqNo := 0 to events
      invariant next == ErrorDrawsBefore(delay, seqNo)
      invariant log == ErrorRun(name, delay, rng, seqNo)
    {
      var sleep := 0;
      if delay != 0 {
        sleep := GenRange(0, delay * ERROR_UNIT, rng(next));
        next := next + 1;
      }
      log := log + [ErrorCaptured(name, seqNo, sleep)];
      log := log + [SleepMs(sleep)];
    }
  }

  /** Item `i` of an error log (positions `2i` and `2i + 1`): capture `i` of
      runner `name` with a sleep within bounds, then that sleep. */
  predicate ErrorEmittedAt(log: seq<Step>, i: nat, name: string, delay: u32)
    requires 2 * i + 1 < |log|
  {
    log[2 * i].ErrorCaptured? && log[2 * i].runner == name && log[2 * i].seqNo == i &&
    SleepBounded(delay, ERROR_UNIT, log[2 * i].sleepMs) && log[2 * i + 1] == SleepMs(log[2 * i].sleepMs)
  }

  /** The error log is one capture per iteration, numbered 0, 1, ... in order,
      each followed by the sleep it announced. */
  lemma {:induction false} ErrorRunShape(name: string, delay: u32, rng: nat -> nat, k: nat)
    requires BoundFits(delay, ERROR_UNIT)
    ensures |ErrorRun(name, delay, rng, k)| == 2 * k
    ensures forall i :: 0 <= i < k ==> ErrorEmittedAt(ErrorRun(name, delay, rng, k), i, name, delay)
  {
    if k > 0 {
      ErrorRunShape(name, delay, rng, k - 1);
      var prev := ErrorRun(name, delay, rng, k - 1);
      var sleep := SleepFor(delay, ERROR_UNIT, rng(ErrorDrawsBefore(delay, k - 1)));
      var log := prev + [ErrorCaptured(name, k - 1, sleep), SleepMs(sleep)];
      assert ErrorRun(name, delay, rng, k) == log;
      forall i | 0 <= i < k
        ensures ErrorEmittedAt(log, i, name, delay)
      {
        if i < k - 1 {
          assert ErrorEmittedAt(prev, i, name, delay);
          assert log[2 * i] == prev[2 * i] && log[2 * i + 1] == prev[2 * i + 1];
        }
      }
    }
  }

  /** With `delay` 0 the error log does not depend on the random stream. */
  lemma {:induction false} ErrorRunIgnoresRngWithoutDelay(name: string, rng1: nat -> nat, rng2: nat -> nat, k: nat)
    ensures ErrorRun(name, 0, rng1, k) == ErrorRun(name, 0, rng2, k)
  {
    if k > 0 {
      ErrorRunIgnoresRngWithoutDelay(name, rng1, rng2, k - 1);
    }
  }

  /** Draws the transaction runner makes per iteration: the sleep (unless
      `delay` is 0) and the depth. */
  function DrawsPerTxn(delay: u32): nat {
    if delay == 0 then 1 else 2
  }

  function TxnSleep(delay: u32, rng: nat -> nat, seqNo: nat): nat
    requires BoundFits(delay, TXN_UNIT)
  {
    SleepFor(delay, TXN_UNIT, rng(seqNo * DrawsPerTxn(delay)))
  }

  /** `gen_range(0..2)`, drawn after the sleep. */
  function TxnDepth(delay: u32, rng: nat -> nat, seqNo: nat): Spans.u8 {
    GenRange(0, 2, rng(seqNo * DrawsPerTxn(delay) + DrawsPerTxn(delay) - 1))
  }

  /** The log of the first `k` iterations of `txn_runner`. */
  function TxnRun(name: string, delay: u32, rng: nat -> nat, k: nat): seq<Step>
    requires BoundFits(delay, TXN_UNIT)
  {
    if k == 0 then []
    else
      var sleep := TxnSleep(delay, rng, k - 1);
      var depth := TxnDepth(delay, rng, k - 1);
      TxnRun(name, delay, rng, k - 1) + [Transaction(name, k - 1, sleep, depth, Spans.Tx0(depth)), SleepUs(sleep)]
  }

  /** `txn_runner(name, events, delay)`. */
  method TxnRunner(name: string, events: u32, delay: u32, rng: nat -> nat) returns (log: seq<Step>)
    requires BoundFits(delay, TXN_UNIT)
    ensures log == TxnRun(name, delay, rng, events)
  {
    log := [];
    var next := 0;
    for seqNo := 0 to events
      invariant next == seqNo * DrawsPerTxn(delay)
      invariant log == TxnRun(name, delay, rng, seqNo)
    {
      var sleep := 0;
      if delay != 0 {
        sleep := GenRange(0, delay * TXN_UNIT, rng(next));
        next := next + 1;
      }
      var depth: Spans.u8 := GenRange(0, 2, rng(next));
      next := next + 1;
      log := log + [Transaction(name, seqNo, sleep, depth, Spans.Tx0(depth))];
      log := log + [SleepUs(sleep)];
    }
  }

  /** Item `i` of a transaction log (positions `2i` and `2i + 1`): root
      transaction `i` of runner `name` with a sleep within bounds and the span
      steps of its depth, which open levels [0, 1] or [0, 1, 2]; then that sleep. */
  predicate TxnEmittedAt(log: seq<Step>, i: nat, name: string, delay: u32)
    requires 2 * i + 1 < |log|
  {
    log[2 * i].Transaction? && log[2 * i].runner == name && log[2 * i].seqNo == i &&
    SleepBounded(delay, TXN_UNIT, log[2 * i].sleepUs) && log[2 * i + 1] == SleepUs(log[2 * i].sleepUs) &&
    log[2 * i].spans == Spans.Tx0(log[2 * i].depth) &&
    Spans.Levels(log[2 * i].spans) == (if log[2 * i].depth == 0 then [0, 1] else [0, 1, 2])
  }

  /** The transaction log is one root transaction per iteration, numbered
      0, 1, ... in order, each followed by the sleep it announced. */
  lemma {:induction false} TxnRunShape(name: string, delay: u32, rng: nat -> nat, k: nat)
    requires BoundFits(delay, TXN_UNIT)
    ensures |TxnRun(name, delay, rng, k)| == 2 * k
    ensures forall i :: 0 <= i < k ==> TxnEmittedAt(TxnRun(name, delay, rng, k), i, name, delay)
  {
    if k > 0 {
      TxnRunShape(name, delay, rng, k - 1);
      var prev := TxnRun(name, delay, rng, k - 1);
      var sleep := TxnSleep(delay, rng, k - 1);
      var depth := TxnDepth(delay, rng, k - 1);
      var log := prev + [Transaction(name, k - 1, sleep, depth, Spans.Tx0(depth)), SleepUs(sleep)];
      assert TxnRun(name, delay, rng, k) == log;
      Spans.SpanShape(depth);
      forall i | 0 <= i < k
        ensures TxnEmittedAt(log, i, name, delay)
      {
        if i < k - 1 {
          assert TxnEmittedAt(prev, i, name, delay);
          assert log[2 * i] == prev[2 * i] && log[2 * i + 1] == prev[2 * i + 1];
        }
      }
    }
  }

  /** With `delay` 0 every transaction sleep is 0. */
  lemma {:induction false} TxnRunNoSleepWithoutDelay(name: string, rng: nat -> nat, k: nat)
    ensures forall j :: 0 <= j < |TxnRun(name, 0, rng, k)| ==>
      var s := TxnRun(name, 0, rng, k)[j]; (s.Transaction? ==> s.sleepUs == 0) && (s.SleepUs? ==> s.us == 0)
  {
    if k > 0 {
      TxnRunNoSleepWithoutDelay(name, rng, k - 1);
    }
  }

  /** Three errors and no delay: captures numbered 0, 1, 2, none of them sleeping. */
  lemma ErrorRunWithoutDelayExample(name: string, rng: nat -> nat)
    ensures ErrorRun(name, 0, rng, 3) ==
      [ErrorCaptured(name, 0, 0), SleepMs(0), ErrorCaptured(name, 1, 0), SleepMs(0),
       ErrorCaptured(name, 2, 0), SleepMs(0)]
  {
    assert ErrorRun(name, 0, rng, 1) == [ErrorCaptured(name, 0, 0), SleepMs(0)];
    assert ErrorRun(name, 0, rng, 2) == ErrorRun(name, 0, rng, 1) + [ErrorCaptured(name, 1, 0), SleepMs(0)];
  }
}
