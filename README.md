# sentry-load, modelled in Dafny

sentry-load is a synthetic-load generator for a Sentry error and trace backend.
At start-up it resolves five settings from the environment: the DSN, which must
be set, and four `u32` counts with defaults. It then starts `runners` pairs of
threads. In each pair, one thread captures `errors` fake errors, and the other
emits `transactions` nested tracing transactions. Each thread sleeps a random
time between items.

This project models the sequential logic under that plumbing, all of it in
`src/main.rs`:

- `decimal.dfy` (module `Decimal`): the `u32` type, `parse::<u32>()` as Rust's
  standard library defines it, and the `{}` rendering of integers used in labels.
  The parser accepts one optional leading `+`. It rejects the empty string, a
  lone sign, any non-digit and any value above 4294967295. It is written as
  the checked multiply-add digit loop and proved against the positional value
  of the digits. Rendering and parsing are proved inverse to each other, in
  both directions on canonical text.
- `configuration.dfy` (module `Configuration`): `Config::configure` and its
  inner `load_u32_env`, as pure functions of the environment, given as a
  `map<string, string>`. A panic is an `Abort` value. A missing `SL_DSN` gives
  `MissingSetting`. A value that does not parse gives `MalformedSetting`, never
  the default. Fields are evaluated in declaration order, so the first failing
  field decides the error.
- `spans.dfy` (module `Spans`): the instrumented chain `tx0` → `tx1` → `tx2`
  → `tx3`, as the list of span openings and 10 µs work sleeps that a call
  records.
- `runners.dfy` (module `Runners`): `error_runner` and `txn_runner` as methods
  with their `for` loops. Each is proved equal to a recursive specification
  of its log. Lemmas give the shape of that log: item `seq` at position `2·seq`,
  its sleep inside the bound, and that sleep right after it.
- `orchestrator.dfy` (module `Orchestrator`): `main`'s spawn loop as the list of
  units pushed into `hndls` (role, label `err_{seq}_{pid}` / `txn_{seq}_{pid}`,
  count, delay), and the start of `main`: configure, or abort before
  scheduling anything.

Randomness is an injected stream `rng: nat -> nat` of raw draws. The k-th
`gen_range(lo..hi)` call of a runner reads `rng(k)` and returns
`lo + rng(k) % (hi - lo)`. The error runner draws only when `delay != 0`. The
transaction runner draws the sleep (only when `delay != 0`) and then the depth.
The process id is a parameter.

Span depth: the chain opens level 2 only when `depth > 0` (src/main.rs:107) and
level 3 only when `depth > 1` (src/main.rs:98). The depth is drawn from `0..2`
(src/main.rs:130). So a transaction opens levels `[0, 1]` or `[0, 1, 2]`, and
level 3 is never reached.

## Model

| member | source | states |
|---|---|---|
| Decimal.ParseU32 | src/main.rs:52 | `parse::<u32>()` succeeds exactly on an optional `+` followed by at least one digit denoting at most 4294967295, and then yields that value |
| Decimal.Accumulate | src/main.rs:52 | the digit loop of `u32` parsing succeeds iff the rest is all digits and the whole number fits in 32 bits, and then returns the number |
| Decimal.FormatNat | src/main.rs:162-163 | the `{}` rendering of an integer is a non-empty digit string with no leading zero whose value is the integer |
| Decimal.FormatThenParse | src/main.rs:162 | parsing the rendering of any `u32` returns it |
| Decimal.FormatInjective | src/main.rs:162 | distinct integers render to distinct text |
| Decimal.CanonicalDigits | src/main.rs:52 | a digit string without a leading zero is the rendering of its value |
| Decimal.ParseThenFormat | src/main.rs:52 | parsing text that has no sign and no leading zero, then rendering the result, gives the text back |
| Configuration.LoadU32Env | src/main.rs:36-44 | `load_u32_env` returns the default when the variable is absent, the parsed value when it is present and well formed, and aborts naming the variable and its text otherwise |
| Configuration.NumericSetting | src/main.rs:51-54 | one numeric field resolves to the parsed value when set, the default when unset, and aborts on a malformed value instead of falling back |
| Configuration.LoadU32EnvSomeArmDead | src/main.rs:38 | each field calls `load_u32_env` only for an absent variable, where it returns the default, so the field equals its own parse arm with the helper cut down to its `None` arm: the helper's `Some` arm is never reached |
| Configuration.Configure | src/main.rs:35-68 | configuration succeeds iff `SL_DSN` is set and every set numeric variable parses; then `dsn` is the variable verbatim and each count is its parsed value or its default (2, 2, 5, 2); without `SL_DSN` it aborts with `MissingSetting` |
| Configuration.FirstMalformedSettingAborts | src/main.rs:46-67 | with `SL_DSN` set, the first malformed numeric setting in field order decides the abort, which names it and its text |
| Configuration.OnlyDsnGivesDefaults | src/main.rs:19-22 | an environment holding only `SL_DSN` yields runners 2, errors 2, transactions 5, delay 2 |
| Spans.SpanShape | src/main.rs:89-118 | `tx0` opens levels `[0,1]` at depth 0, `[0,1,2]` at depth 1 and `[0,1,2,3]` above that, with one work sleep per level below the root, each of 10 µs |
| Spans.WorkSleepsFixed | src/main.rs:92-111 | every work sleep inside `tx1`, `tx2` and `tx3` lasts 10 µs |
| Spans.LevelThreeUnreachable | src/main.rs:96-102 | for a depth drawn from `0..2` level 3 is never opened, and level 2 is opened exactly at depth 1 |
| Runners.GenRange | src/main.rs:77 | a `gen_range(lo..hi)` draw lies in `[lo, hi)` |
| Runners.SleepFor | src/main.rs:75-78 | the chosen sleep is 0 when `delay` is 0 and below `delay * unit` otherwise, and fits in `u32` |
| Runners.ErrorRunner | src/main.rs:71-87 | the loop's log of captures and millisecond sleeps equals the specification of `events` iterations |
| Runners.ErrorRunShape | src/main.rs:74-85 | the error log holds exactly `events` captures numbered 0.. in increasing order, each with a sleep in `[0, delay*1000)` (0 without delay) chosen before the capture and slept right after it |
| Runners.ErrorRunIgnoresRngWithoutDelay | src/main.rs:75-76 | with `delay` 0 the error log is the same for every random stream |
| Runners.ErrorRunWithoutDelayExample | src/main.rs:74-86 | three errors without delay are captures 0, 1, 2, each followed by a zero sleep |
| Runners.TxnRunner | src/main.rs:119-135 | the loop's log of root transactions and microsecond sleeps equals the specification of `events` iterations |
| Runners.TxnRunShape | src/main.rs:122-133 | the transaction log holds exactly `events` root transactions numbered 0.. in increasing order, each with a sleep in `[0, delay*100000)` (0 without delay) slept right after it, and span steps opening levels `[0,1]` or `[0,1,2]` (the nesting is that of the call chain) |
| Runners.TxnRunNoSleepWithoutDelay | src/main.rs:123-124 | with `delay` 0 every transaction sleep is 0 |
| Orchestrator.Schedule | src/main.rs:159-164 | the spawn loop pushes exactly the units of the schedule for `runners` indices |
| Orchestrator.Start | src/main.rs:137-164 | `main` aborts with the configuration's error iff configuration fails, and otherwise schedules the units of the resolved configuration (Sentry initialisation at line 147 is taken not to fail) |
| Orchestrator.SpawnedShape | src/main.rs:161-164 | the schedule has `2 * runners` units: at `2i` the error runner `err_i_pid` with `errors` and `delay`, at `2i+1` the transaction runner `txn_i_pid` with `transactions` and `delay`; no runners, no units |
| Orchestrator.LabelInjective | src/main.rs:162-163 | a label determines its role and runner index |
| Orchestrator.SpawnedLabelsDistinct | src/main.rs:161-163 | all spawned units carry distinct labels |
| Orchestrator.ConfiguredDelayCanOverflowTxnBound | src/main.rs:63-64 | configuration accepts `SL_DELAY=42950`, for which the transaction runner's `delay * 1_000_00` does not fit in `u32` |

## Left out

- Reading variables with `env::var_os` and `into_string().unwrap()`: the environment is an input map of strings, so a non-UTF-8 value (a panic in the source) is not represented.
- The `println!` default notices and the configuration echo in `main`: console output only.
- Sentry client initialisation, `sentry::capture_error`, the `tracing` subscriber and `#[tracing::instrument]`: foreign libraries. An emission is a log step carrying the runner name, `seq`, sleep and depth. The formatted message text built from these fields is not modelled.
- `rand::thread_rng` and `gen_range`: replaced by the injected raw stream described above. The uniform distribution and rand's internal rejection sampling are not modelled.
- `thread::spawn`, the join loop, `thread::sleep` and `process::id`: concurrency and the OS. Sleeps are recorded durations. The pid is a parameter. The interleaving of runners, the join barrier and the propagation of a runner panic through `join().unwrap()` are not modelled.
- `traces_sample_rate: 1.0` and `release_name!()`: client options with no logic attached.
- Runners.SleepFor: requires `delay * unit` to fit in `u32` instead of modelling the overflow of `delay * 1_000` and `delay * 1_000_00`, which panics in a debug build and wraps in a release build.
- Runners.ErrorRunner: requires `delay <= 4294967`, so that `delay * 1_000` fits in `u32`; larger configured delays are outside the model.
- Runners.TxnRunner: requires `delay <= 42949`, so that `delay * 1_000_00` fits in `u32`; larger configured delays are outside the model (Orchestrator.ConfiguredDelayCanOverflowTxnBound shows configuration accepts them).
- Orchestrator.Start: treats `sentry::init` (src/main.rs:147) as never failing. In the sentry crate, converting a DSN text that is not a valid DSN panics there, after configuration has succeeded; the model does not capture that abort, so its "aborts iff configuration fails" holds only for valid DSN texts.
- Orchestrator.Start: stops at the schedule and does not run the scheduled units, because their execution is concurrent.
