/** CooperativeScheduler of src/runtime.cpp: periodic releases on a clock that wraps at 2^32 ms. */
module Scheduler {
  import opened Words

  const TASKS := 4
  const MAX_PERIOD := 60000

  predicate ValidPeriods(p: seq<u32>) {
    |p| == TASKS && forall i :: 0 <= i < TASKS ==> 0 < p[i] <= MAX_PERIOD
  }

  /** Releases of one task since the reset, on the unbounded clock: reported due, and missed. */
  datatype Ledger = Ledger(due: nat, missed: nat)

  function Deadline(resetAt: int, period: int, a: Ledger): int {
    resetAt + (a.due + a.missed + 1) * period
  }

  /** The next release is the first grid point after the last poll, and the registers are its words. */
  ghost predicate OnGrid(resetAt: int, period: int, a: Ledger, clock: int, next: u32, missed: u32) {
    && clock < Deadline(resetAt, period, a) <= clock + period
    && next == Wrap(Deadline(resetAt, period, a)) && missed == Wrap(a.missed)
  }

  /** Every grid point up to the last poll is accounted for, as due or as missed. */
  lemma GridCountsPeriods(resetAt: int, period: int, a: Ledger, clock: int, next: u32, missed: u32)
    requires period > 0 && OnGrid(resetAt, period, a, clock, next, missed)
    ensures a.due + a.missed == (clock - resetAt) / period
  {
    var n := a.due + a.missed;
    assert (n + 1) * period == n * period + period;
    DivisionUnique(clock - resetAt, period, n);
  }

  lemma DivisionUnique(x: int, p: int, n: int)
    requires p > 0 && n * p <= x < n * p + p
    ensures x / p == n
  {
    var r := x - n * p;
    assert x == n * p + r && 0 <= r < p;
    QuotientOf(n, p, r);
  }

  lemma QuotientOf(n: int, p: int, r: int)
    requires p > 0 && 0 <= r < p
    ensures (n * p + r) / p == n
  {
    var q := (n * p + r) / p;
    var s := (n * p + r) % p;
    assert n * p + r == q * p + s;
    assert (n - q) * p == s - r;
    MultipleInside(n - q, p, s - r);
  }

  lemma MultipleInside(k: int, p: int, d: int)
    requires p > 0 && k * p == d && -p < d < p
    ensures k == 0
  {
    if k > 0 {
      ProductAtLeast(k, p);
    }
  }

  lemma {:induction false} ProductAtLeast(k: nat, p: nat)
    requires k > 0
    ensures k * p >= p
  {
    if k > 1 {
      ProductAtLeast(k - 1, p);
      assert k * p == (k - 1) * p + p;
    }
  }

  /** A release that has come skips lateness / period further grid points. */
  lemma ReleaseKeepsGrid(resetAt: int, period: int, a: Ledger, t: int)
    requires period > 0 && t >= Deadline(resetAt, period, a)
    ensures var release := Deadline(resetAt, period, a);
            var skipped := (t - release) / period;
            var b := Ledger(a.due + 1, a.missed + skipped);
            skipped >= 0 && Deadline(resetAt, period, b) == release + (skipped + 1) * period &&
            t < Deadline(resetAt, period, b) <= t + period
  {
    var release := Deadline(resetAt, period, a);
    var skipped := (t - release) / period;
    assert t - release == skipped * period + (t - release) % period;
    var n := a.due + a.missed + 1;
    assert (n + (skipped + 1)) * period == n * period + (skipped + 1) * period;
    assert (skipped + 1) * period == skipped * period + period;
  }

  class CooperativeScheduler {
    var period: seq<u32>
    const nextRelease: array<u32>
    const missedReleases: array<u32>
    var started: bool
    ghost var resetAt: int
    ghost var clock: int
    ghost var ledger: seq<Ledger>

    ghost predicate Shaped()
      reads this`period, this`ledger
    {
      && ValidPeriods(period) && nextRelease.Length == TASKS && missedReleases.Length == TASKS
      && nextRelease != missedReleases && |ledger| == TASKS
    }

    ghost predicate TaskOk(i: nat, t: int)
      reads this`period, this`ledger, this`resetAt, nextRelease, missedReleases
      requires Shaped() && i < TASKS
    {
      OnGrid(resetAt, period[i], ledger[i], t, nextRelease[i], missedReleases[i])
    }

    ghost predicate Valid()
      reads this, nextRelease, missedReleases
    {
      Shaped() && (started ==> forall i :: 0 <= i < TASKS ==> TaskOk(i, clock))
    }

    constructor (period: seq<u32>)
      requires ValidPeriods(period)
      ensures Valid() && fresh(nextRelease) && fresh(missedReleases) && !started && this.period == period
    {
      this.period, started := period, false;
      nextRelease := new u32[TASKS](_ => 0);
      missedReleases := new u32[TASKS](_ => 0);
      resetAt, clock, ledger := 0, 0, seq(TASKS, _ => Ledger(0, 0));
    }

    method Reset(now: u32, ghost t: int)
      requires Shaped() && now == Wrap(t)
      modifies this`started, this`resetAt, this`clock, this`ledger, nextRelease, missedReleases
      ensures Valid() && started && resetAt == clock == t
      ensures forall i :: 0 <= i < TASKS ==> ledger[i] == Ledger(0, 0)
    {
      resetAt, clock, ledger := t, t, seq(TASKS, _ => Ledger(0, 0));
      for i := 0 to TASKS
        invariant Shaped() && resetAt == t && clock == t && forall k :: 0 <= k < TASKS ==> ledger[k] == Ledger(0, 0)
        invariant forall k :: 0 <= k < i ==> nextRelease[k] == Wrap(t + period[k]) && missedReleases[k] == 0
      {
        WrapShift(t, now, period[i]);
        nextRelease[i] := Wrap(now + period[i]);
        missedReleases[i] := 0;
      }
      forall i | 0 <= i < TASKS ensures TaskOk(i, t) {
        assert Deadline(t, period[i], Ledger(0, 0)) == t + period[i];
      }
      started := true;
    }

    /** The tasks whose release has come. */
    ghost function DueAt(t: int): (due: seq<bool>)
      reads this`period, this`ledger, this`resetAt, this`started
      requires Shaped()
      ensures |due| == TASKS
      ensures forall i :: 0 <= i < TASKS ==> due[i] == (started && Deadline(resetAt, period[i], ledger[i]) <= t)
    {
      var (on, at, ps, ls) := (started, resetAt, period, ledger);
      seq(TASKS, i requires 0 <= i < TASKS => on && Deadline(at, ps[i], ls[i]) <= t)
    }

    /** Main result: after any poll every task stands on its grid, so that due and missed releases
        together count the periods since the reset; a task is due at most once per poll. */
    method Poll(now: u32, ghost t: int) returns (due: seq<bool>)
      requires Valid() && now == Wrap(t)
      requires started ==> clock <= t < clock + HALF32
      modifies this`started, this`resetAt, this`clock, this`ledger, nextRelease, missedReleases
      ensures Valid() && started && clock == t && |due| == TASKS
      ensures due == old(DueAt(t))
      ensures !old(started) ==> resetAt == t && forall i :: 0 <= i < TASKS ==> !due[i] && ledger[i] == Ledger(0, 0)
      ensures old(started) ==> resetAt == old(resetAt)
      ensures old(started) ==> forall i :: 0 <= i < TASKS ==> Polled(i, t, old(ledger)[i], due[i])
    {
      if !started {
        Reset(now, t);
        return [false, false, false, false];
      }
      due := PollAll(now, t);
    }

    method PollAll(now: u32, ghost t: int) returns (due: seq<bool>)
      requires Valid() && started && now == Wrap(t) && clock <= t < clock + HALF32
      modifies this`clock, this`ledger, nextRelease, missedReleases
      ensures Valid() && clock == t && |due| == TASKS
      ensures forall i :: 0 <= i < TASKS ==> Polled(i, t, old(ledger)[i], due[i])
    {
      due := [];
      for i := 0 to TASKS
        invariant |due| == i && Shaped() && clock == old(clock)
        invariant forall k :: 0 <= k < i ==> TaskOk(k, t) && Polled(k, t, old(ledger)[k], due[k])
        invariant forall k :: i <= k < TASKS ==> TaskOk(k, clock) && ledger[k] == old(ledger)[k]
      {
        var d := PollTask(i, now, t);
        due := due + [d];
      }
      clock := t;
    }

    ghost predicate Polled(k: nat, t: int, before: Ledger, due: bool)
      reads this`period, this`ledger, this`resetAt
      requires Shaped() && k < TASKS
    {
      (due <==> Deadline(resetAt, period[k], before) <= t) && ledger[k].due == before.due + (if due then 1 else 0)
    }

    method PollTask(i: nat, now: u32, ghost t: int) returns (due: bool)
      requires i < TASKS && Shaped() && TaskOk(i, clock) && now == Wrap(t) && clock <= t < clock + HALF32
      modifies this`ledger, nextRelease, missedReleases
      ensures Shaped() && TaskOk(i, t) && Polled(i, t, old(ledger)[i], due)
      ensures forall k :: 0 <= k < TASKS && k != i && old(TaskOk(k, t)) ==> TaskOk(k, t)
      ensures forall k :: 0 <= k < TASKS && k != i && old(TaskOk(k, clock)) ==> TaskOk(k, clock)
      ensures forall k :: 0 <= k < TASKS && k != i ==> ledger[k] == old(ledger)[k]
    {
      ghost var a := ledger[i];
      ghost var release := Deadline(resetAt, period[i], a);
      var lateness := Sub32(now, nextRelease[i]);
      if lateness >= HALF32 {
        if release <= t {
          Elapsed(t, release);
        }
        return false;
      }
      if release > t {
        NotYet(t, release);
      }
      Elapsed(t, release);
      ReleaseKeepsGrid(resetAt, period[i], a, t);
      var skipped := lateness / period[i];
      WrapShift(a.missed, missedReleases[i], skipped);
      WrapShift(release, nextRelease[i], (skipped + 1) * period[i]);
      missedReleases[i] := Wrap(missedReleases[i] + skipped);
      nextRelease[i] := Wrap(nextRelease[i] + (skipped + 1) * period[i]);
      ledger := ledger[i := Ledger(a.due + 1, a.missed + skipped)];
      return true;
    }
  }
}
