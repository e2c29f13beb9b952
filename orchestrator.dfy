/** `main`: resolve the configuration, then for each runner index spawn one
    error runner and one transaction runner, labelled `err_{seq}_{pid}` and
    `txn_{seq}_{pid}`. The spawned threads are modelled as the list of units
    in spawn order, which is also the order they are joined in. */
module Orchestrator {
  import opened Decimal
  import opened Configuration
  import Runners

  datatype Role = ErrorRole | TxnRole

  /** One spawned thread: which runner it runs, its name and its arguments. */
  datatype Unit = Unit(role: Role, name: string, events: u32, delay: u32)

  function Tag(role: Role): string {
    match role
    case ErrorRole => "err"
    case TxnRole => "txn"
  }

  /** `format!("{tag}_{}_{}", seq, process::id())`. */
  function Label(role: Role, index: nat, pid: u32): string {
    Tag(role) + "_" + FormatNat(index) + "_" + FormatNat(pid)
  }

  /** The unit spawned for `role` at runner `index`. */
  function UnitFor(cfg: Config, pid: u32, role: Role, index: nat): Unit {
    match role
    case ErrorRole => Unit(ErrorRole, Label(ErrorRole, index, pid), cfg.errors, cfg.delay)
    case TxnRole => Unit(TxnRole, Label(TxnRole, index, pid), cfg.transactions, cfg.delay)
  }

  /** The units spawned by the first `n` iterations of the spawn loop. */
  function Spawned(cfg: Config, pid: u32, n: nat): seq<Unit> {
    if n == 0 then []
    else Spawned(cfg, pid, n - 1) + [UnitFor(cfg, pid, ErrorRole, n - 1), UnitFor(cfg, pid, TxnRole, n - 1)]
  }

  /** The spawn loop of `main`, pushing one handle per spawned thread. */
  method Schedule(cfg: Config, pid: u32) returns (hndls: seq<Unit>)
    ensures hndls == Spawned(cfg, pid, cfg.runners)
  {
    hndls := [];
    for index := 0 to cfg.runners
      invariant hndls == Spawned(cfg, pid, index)
    {
      hndls := hndls + [UnitFor(cfg, pid, ErrorRole, index)];
      hndls := hndls + [UnitFor(cfg, pid, TxnRole, index)];
    }
  }

  /** `main` up to the spawn: a configuration failure aborts before any unit
      is scheduled; otherwise the units are those of the resolved configuration. */
  method Start(env: Env, pid: u32) returns (r: Outcome<seq<Unit>>)
    ensures r.Abort? <==> Configure(env).Abort?
    ensures r.Abort? ==> r.error == Configure(env).error
    ensures r.Ok? ==> r.value == Spawned(Configure(env).value, pid, Configure(env).value.runners)
  {
    var cfg := Configure(env);
    if cfg.Abort? {
      return Abort(cfg.error);
    }
    var units := Schedule(cfg.value, pid);
    return Ok(units);
  }

  /** Runner `i`'s pair in a schedule: at `2i` its error runner, at `2i + 1`
      its transaction runner. */
  predicate SpawnedPairAt(s: seq<Unit>, i: nat, cfg: Config, pid: u32)
    requires 2 * i + 1 < |s|
  {
    s[2 * i] == UnitFor(cfg, pid, ErrorRole, i) && s[2 * i + 1] == UnitFor(cfg, pid, TxnRole, i)
  }

  /** Two units per runner index, the error runner first, each given the
      configured counts and delay. No runners means no units. */
  lemma {:induction false} SpawnedShape(cfg: Config, pid: u32, n: nat)
    ensures |Spawned(cfg, pid, n)| == 2 * n
    ensures forall i :: 0 <= i < n ==> SpawnedPairAt(Spawned(cfg, pid, n), i, cfg, pid)
  {
    if n > 0 {
      SpawnedShape(cfg, pid, n - 1);
      var prev := Spawned(cfg, pid, n - 1);
      var s := prev + [UnitFor(cfg, pid, ErrorRole, n - 1), UnitFor(cfg, pid, TxnRole, n - 1)];
      assert Spawned(cfg, pid, n) == s;
      forall i | 0 <= i < n
        ensures SpawnedPairAt(s, i, cfg, pid)
      {
        if i < n - 1 {
          assert SpawnedPairAt(prev, i, cfg, pid);
          assert s[2 * i] == prev[2 * i] && s[2 * i + 1] == prev[2 * i + 1];
        }
      }
    }
  }

  /** The text of `s` before its first '_'. */
  function Field(s: string): string {
    if s == [] || s[0] == '_' then [] else [s[0]] + Field(s[1..])
  }

  /** The digits of one label field end at the next '_'. */
  lemma {:induction false} FieldOfDigits(a: string, x: string)
    requires AllDigits(a)
    ensures Field(a + "_" + x) == a
  {
    if a != [] {
      assert (a + "_" + x)[1..] == a[1..] + "_" + x;
      FieldOfDigits(a[1..], x);
    }
  }

  lemma DigitFieldDetermined(a: string, b: string, x: string, y: string)
    requires AllDigits(a) && AllDigits(b)
    requires a + "_" + x == b + "_" + y
    ensures a == b
  {
    FieldOfDigits(a, x);
    FieldOfDigits(b, y);
  }

  /** A label `tag_index_pid` determines its tag and its index digits. */
  lemma LabelFieldsDetermined(t1: string, t2: string, a: string, b: string, p: string)
    requires |t1| == |t2| && AllDigits(a) && AllDigits(b)
    requires t1 + "_" + a + "_" + p == t2 + "_" + b + "_" + p
    ensures t1 == t2 && a == b
  {
    var l1, l2 := t1 + "_" + a + "_" + p, t2 + "_" + b + "_" + p;
    assert t1 == l1[..|t1|] && t2 == l2[..|t2|];
    assert l1[|t1| + 1..] == a + "_" + p;
    assert l2[|t2| + 1..] == b + "_" + p;
    DigitFieldDetermined(a, b, p, p);
  }

  /** Labels name their unit: distinct roles or indices give distinct labels. */
  lemma LabelInjective(r1: Role, i1: nat, r2: Role, i2: nat, pid: u32)
    ensures Label(r1, i1, pid) == Label(r2, i2, pid) ==> r1 == r2 && i1 == i2
  {
    if Label(r1, i1, pid) == Label(r2, i2, pid) {
      LabelFieldsDetermined(Tag(r1), Tag(r2), FormatNat(i1), FormatNat(i2), FormatNat(pid));
      FormatInjective(i1, i2);
    }
  }

  /** The unit at position `j` of a schedule of `n` runners. */
  lemma {:induction false} SpawnedAt(cfg: Config, pid: u32, n: nat, j: nat)
    requires j < 2 * n
    ensures |Spawned(cfg, pid, n)| == 2 * n
    ensures Spawned(cfg, pid, n)[j] == UnitFor(cfg, pid, if j % 2 == 0 then ErrorRole else TxnRole, j / 2)
  {
    SpawnedShape(cfg, pid, n);
    var i := j / 2;
    assert SpawnedPairAt(Spawned(cfg, pid, n), i, cfg, pid);
    assert j == 2 * i || j == 2 * i + 1;
  }

  /** Every spawned thread has its own label. */
  lemma SpawnedLabelsDistinct(cfg: Config, pid: u32, n: nat)
    ensures forall j, k :: 0 <= j < k < |Spawned(cfg, pid, n)| ==>
      Spawned(cfg, pid, n)[j].name != Spawned(cfg, pid, n)[k].name
  {
    SpawnedShape(cfg, pid, n);
    var s := Spawned(cfg, pid, n);
    forall j, k | 0 <= j < k < |s|
      ensures s[j].name != s[k].name
    {
      SpawnedAt(cfg, pid, n, j);
      SpawnedAt(cfg, pid, n, k);
      var rj := if j % 2 == 0 then ErrorRole else TxnRole;
      var rk := if k % 2 == 0 then ErrorRole else TxnRole;
      LabelInjective(rj, j / 2, rk, k / 2, pid);
    }
  }

  /** Configuration accepts delays whose transaction bound `delay * 1_000_00`
      does not fit in `u32`: the runners' preconditions are not implied by a
      successful configuration. */
  lemma ConfiguredDelayCanOverflowTxnBound()
    ensures var r := Configure(map[DSN_ENV := "https://public@o0.ingest.sentry.io/1", DELAY_ENV := "42950"]);
      r.Ok? && r.value.delay == 42950 && !Runners.BoundFits(r.value.delay, Runners.TXN_UNIT)
  {
  }
}
