/** NisAccumulator of src/ekf.cpp: running figures over the consistency checks of one epoch. */
module Nis {
  import opened Words

  datatype Sample = Sample(rejected: bool, nis: real)

  function Total(log: seq<Sample>): real {
    if log == [] then 0.0 else Total(log[..|log| - 1]) + log[|log| - 1].nis
  }

  function Rejections(log: seq<Sample>): nat {
    if log == [] then 0 else Rejections(log[..|log| - 1]) + if log[|log| - 1].rejected then 1 else 0
  }

  /** The largest sample, zero for none. */
  function Largest(log: seq<Sample>): real {
    if log == [] then 0.0
    else if |log| == 1 || log[|log| - 1].nis > Largest(log[..|log| - 1]) then log[|log| - 1].nis
    else Largest(log[..|log| - 1])
  }

  ghost predicate Nonnegative(log: seq<Sample>) {
    forall i :: 0 <= i < |log| ==> log[i].nis >= 0.0
  }

  /** What the figures of an epoch satisfy: the consistency test at the head of record. */
  lemma {:induction false} FiguresConsistent(log: seq<Sample>)
    requires Nonnegative(log)
    ensures Rejections(log) <= |log| && 0.0 <= Largest(log) <= Total(log)
  {
    if log != [] {
      assert log[|log| - 1].nis >= 0.0;
      FiguresConsistent(log[..|log| - 1]);
    }
  }

  lemma {:induction false} LargestIsMaximum(log: seq<Sample>)
    requires log != []
    ensures forall i :: 0 <= i < |log| ==> log[i].nis <= Largest(log)
    ensures exists i :: 0 <= i < |log| && log[i].nis == Largest(log)
  {
    var shorter, last := log[..|log| - 1], log[|log| - 1];
    if |log| > 1 {
      LargestIsMaximum(shorter);
    }
    if |log| > 1 && last.nis <= Largest(shorter) {
      var i :| 0 <= i < |shorter| && shorter[i].nis == Largest(shorter);
      assert log[i].nis == Largest(log);
    } else {
      assert last.nis == Largest(log);
    }
  }

  lemma Appended(log: seq<Sample>, s: Sample)
    ensures Total(log + [s]) == Total(log) + s.nis
    ensures Rejections(log + [s]) == Rejections(log) + if s.rejected then 1 else 0
    ensures Largest(log + [s]) == if log == [] || s.nis > Largest(log) then s.nis else Largest(log)
    ensures Nonnegative(log) && s.nis >= 0.0 ==> Nonnegative(log + [s])
  {
    assert (log + [s])[..|log|] == log;
  }

  /** The samples of the epoch after one more: a full counter starts a new epoch, which always has the latest sample. */
  function NextEpoch(log: seq<Sample>, s: Sample): (r: seq<Sample>)
    ensures r != [] && r[|r| - 1] == s && (|log| <= MAX32 ==> |r| <= MAX32)
  {
    if |log| == MAX32 then [s] else log + [s]
  }

  /** The figures of a log. */
  ghost predicate Figures(log: seq<Sample>, evaluated: nat, rejected: nat, sum: real, maximum: real) {
    && Nonnegative(log) && evaluated == |log| && rejected == Rejections(log)
    && sum == Total(log) && maximum == Largest(log)
  }

  lemma FiguresNext(log: seq<Sample>, evaluated: nat, rejected: nat, sum: real, maximum: real, s: Sample)
    requires Figures(log, evaluated, rejected, sum, maximum) && s.nis >= 0.0
    ensures Figures(log + [s], evaluated + 1, rejected + if s.rejected then 1 else 0, sum + s.nis,
                    if evaluated == 0 || s.nis > maximum then s.nis else maximum)
  {
    Appended(log, s);
  }

  class NisAccumulator {
    var evaluatedCount: u32
    var gateRejectedCount: u32
    var nisSum: real
    var nisMax: real
    ghost var epoch: seq<Sample>

    ghost predicate Valid()
      reads this
    {
      Figures(epoch, evaluatedCount, gateRejectedCount, nisSum, nisMax)
    }

    constructor ()
      ensures Valid() && epoch == []
    {
      evaluatedCount, gateRejectedCount, nisSum, nisMax, epoch := 0, 0, 0.0, 0.0, [];
    }

    method Reset()
      modifies this
      ensures Valid() && epoch == []
    {
      evaluatedCount, gateRejectedCount, nisSum, nisMax, epoch := 0, 0, 0.0, 0.0, [];
    }

    /** The consistency test on the figures. */
    predicate Plausible()
      reads this
    {
      && gateRejectedCount <= evaluatedCount && nisSum >= 0.0 && nisMax >= 0.0
      && (evaluatedCount != 0 || (gateRejectedCount == 0 && nisSum == 0.0 && nisMax == 0.0))
      && (evaluatedCount == 0 || nisMax <= nisSum)
    }

    /** A negative sample is refused; any other joins the epoch, whose figures are never found inconsistent. Figures
        that are, whoever wrote them, start a new epoch. */
    method Record(rejected: bool, nis: real) returns (ok: bool)
      modifies this
      ensures ok == (nis >= 0.0) && (!ok ==> unchanged(this))
      ensures ok && old(Valid()) ==> Valid() && epoch == NextEpoch(old(epoch), Sample(rejected, nis))
      ensures ok && !old(Plausible()) ==> Valid() && epoch == [Sample(rejected, nis)]
    {
      if nis < 0.0 {
        return false;
      }
      ValidPlausible();
      if !Plausible() || evaluatedCount == MAX32 {
        Reset();
      }
      Add(rejected, nis);
      return true;
    }

    lemma ValidPlausible()
      ensures Valid() ==> Plausible()
    {
      if Valid() {
        FiguresConsistent(epoch);
      }
    }

    /** One more sample in the figures. */
    method Add(rejected: bool, nis: real)
      requires evaluatedCount < MAX32 && gateRejectedCount <= evaluatedCount && nis >= 0.0
      modifies this
      ensures epoch == old(epoch) + [Sample(rejected, nis)] && (old(Valid()) ==> Valid())
    {
      if Valid() {
        FiguresNext(epoch, evaluatedCount, gateRejectedCount, nisSum, nisMax, Sample(rejected, nis));
      }
      evaluatedCount := evaluatedCount + 1;
      if rejected {
        gateRejectedCount := gateRejectedCount + 1;
      }
      nisSum := nisSum + nis;
      if evaluatedCount == 1 || nis > nisMax {
        nisMax := nis;
      }
      epoch := epoch + [Sample(rejected, nis)];
    }
  }
}
